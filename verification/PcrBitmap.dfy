/** PCR selections as bitmaps: bit `i % 8` of byte `i / 8` stands for PCR `i`. */
module PcrBitmap {
  import opened PcrTypes
  import opened TpmStructures

  type BitNumber = k: nat | k < 8

  function Bit(k: BitNumber): bv8 {
    match k
    case 0 => 0x01
    case 1 => 0x02
    case 2 => 0x04
    case 3 => 0x08
    case 4 => 0x10
    case 5 => 0x20
    case 6 => 0x40
    case _ => 0x80
  }

  lemma BitIsShiftedOne(k: BitNumber)
    ensures Bit(k) == 1 << k
  {
  }

  predicate BitIsSet(bits: SelectBits, i: Index) {
    bits[i / 8] & Bit(i % 8) != 0
  }

  function SelectedBelow(bits: SelectBits, limit: nat): set<Index> {
    set i: Index | i < limit && BitIsSet(bits, i)
  }

  /** The set that the first `size` bytes of a bitmap denote. */
  function SelectedIn(bits: SelectBits, size: nat): set<Index> {
    SelectedBelow(bits, 8 * size)
  }

  lemma NextBit(bits: SelectBits, b: nat, k: BitNumber)
    requires b < PCR_SELECT_MAX
    ensures SelectedBelow(bits, 8 * b + k + 1) ==
      SelectedBelow(bits, 8 * b + k) + if bits[b] & Bit(k) != 0 then {(8 * b + k) as Index} else {}
  {
    var i: Index := 8 * b + k;
    assert i / 8 == b && i % 8 == k;
  }

  function FlagAt(indices: set<Index>, b: nat, k: BitNumber): bv8 {
    if 8 * b + k in indices then Bit(k) else 0
  }

  /** The first `n` bits of byte `b` of the bitmap of a set. */
  function BitsOfByte(indices: set<Index>, b: nat, n: nat): bv8
    requires n <= 8
  {
    if n == 0 then 0 else BitsOfByte(indices, b, n - 1) | FlagAt(indices, b, n - 1)
  }

  function BitmapByte(indices: set<Index>, b: nat): bv8 {
    BitsOfByte(indices, b, 8)
  }

  function Bitmap(indices: set<Index>): SelectBits {
    [BitmapByte(indices, 0), BitmapByte(indices, 1), BitmapByte(indices, 2), BitmapByte(indices, 3)]
  }

  // Facts about eight-bit vectors.

  lemma OrMovesOut(x: bv8, f: bv8, bit: bv8)
    ensures (x | bit) | f == (x | f) | bit
    ensures x | (f | bit) == (x | f) | bit
  {
  }

  lemma OrIsSet(x: bv8, f: bv8, mask: bv8)
    ensures (x | f) & mask != 0 <==> x & mask != 0 || f & mask != 0
  {
  }

  lemma BitsAreApart(j: BitNumber, k: BitNumber)
    ensures Bit(j) & Bit(k) != 0 <==> j == k
  {
  }

  lemma BytesAgree(x: bv8, y: bv8)
    requires forall k: BitNumber :: x & Bit(k) != 0 <==> y & Bit(k) != 0
    ensures x == y
  {
    assert x & Bit(0) != 0 <==> y & Bit(0) != 0;
    assert x & Bit(1) != 0 <==> y & Bit(1) != 0;
    assert x & Bit(2) != 0 <==> y & Bit(2) != 0;
    assert x & Bit(3) != 0 <==> y & Bit(3) != 0;
    assert x & Bit(4) != 0 <==> y & Bit(4) != 0;
    assert x & Bit(5) != 0 <==> y & Bit(5) != 0;
    assert x & Bit(6) != 0 <==> y & Bit(6) != 0;
    assert x & Bit(7) != 0 <==> y & Bit(7) != 0;
  }

  // Setting bits.

  lemma FlagGrows(indices: set<Index>, i: Index, b: nat, k: BitNumber)
    ensures FlagAt(indices + {i}, b, k) ==
      if 8 * b + k == i then FlagAt(indices, b, k) | Bit(k) else FlagAt(indices, b, k)
  {
    hide Bit;
  }

  lemma {:induction false} OtherBitsStay(indices: set<Index>, i: Index, b: nat, n: nat)
    requires n <= 8 && !(8 * b <= i < 8 * b + n)
    ensures BitsOfByte(indices + {i}, b, n) == BitsOfByte(indices, b, n)
  {
    if n > 0 {
      hide FlagAt, Bit;
      OtherBitsStay(indices, i, b, n - 1);
      FlagGrows(indices, i, b, n - 1);
    }
  }

  lemma {:induction false} OneBitIsSet(indices: set<Index>, b: nat, k: BitNumber, n: nat)
    requires b < PCR_SELECT_MAX && k < n <= 8
    ensures BitsOfByte(indices + {8 * b + k}, b, n) == BitsOfByte(indices, b, n) | Bit(k)
  {
    hide FlagAt, Bit;
    var i: Index := 8 * b + k;
    FlagGrows(indices, i, b, n - 1);
    OrMovesOut(BitsOfByte(indices, b, n - 1), FlagAt(indices, b, n - 1), Bit(k));
    if k == n - 1 {
      OtherBitsStay(indices, i, b, n - 1);
    } else {
      OneBitIsSet(indices, b, k, n - 1);
    }
  }

  /** Setting the bit of an index adds it to the denoted set, and touches no other byte. */
  lemma SetBit(indices: set<Index>, i: Index, b: nat)
    ensures BitmapByte(indices + {i}, b) ==
      if b == i / 8 then BitmapByte(indices, b) | Bit(i % 8) else BitmapByte(indices, b)
  {
    hide BitsOfByte, Bit;
    assert i == 8 * (i / 8) + i % 8;
    if b == i / 8 {
      OneBitIsSet(indices, b, i % 8, 8);
    } else {
      OtherBitsStay(indices, i, b, 8);
    }
  }

  lemma SelectIndex(bits: SelectBits, indices: set<Index>, i: Index)
    requires bits == Bitmap(indices)
    ensures bits[i / 8 := bits[i / 8] | Bit(i % 8)] == Bitmap(indices + {i})
  {
    hide Bitmap, BitmapByte, Bit;
    forall b: nat | b < PCR_SELECT_MAX ensures bits[i / 8 := bits[i / 8] | Bit(i % 8)][b] == Bitmap(indices + {i})[b] {
      SetBit(indices, i, b);
      BitmapAt(indices, b);
      BitmapAt(indices + {i}, b);
    }
  }

  lemma BitmapAt(s: set<Index>, b: nat)
    requires b < PCR_SELECT_MAX
    ensures Bitmap(s)[b] == BitmapByte(s, b)
  {
    hide BitmapByte;
  }

  // Testing bits.

  lemma FlagIsSet(indices: set<Index>, b: nat, j: BitNumber, k: BitNumber)
    ensures FlagAt(indices, b, j) & Bit(k) != 0 <==> j == k && 8 * b + k in indices
  {
    BitsAreApart(j, k);
    hide Bit;
  }

  lemma {:induction false} BitsAreSet(indices: set<Index>, b: nat, n: nat, k: BitNumber)
    requires n <= 8
    ensures BitsOfByte(indices, b, n) & Bit(k) != 0 <==> k < n && 8 * b + k in indices
  {
    if n > 0 {
      hide FlagAt, Bit;
      BitsAreSet(indices, b, n - 1, k);
      FlagIsSet(indices, b, n - 1, k);
      OrIsSet(BitsOfByte(indices, b, n - 1), FlagAt(indices, b, n - 1), Bit(k));
    }
  }

  lemma BitOfBitmapByte(indices: set<Index>, b: nat, k: BitNumber)
    ensures BitmapByte(indices, b) & Bit(k) != 0 <==> 8 * b + k in indices
  {
    hide BitsOfByte, Bit;
    BitsAreSet(indices, b, 8, k);
  }

  /** A bitmap denotes the set it was made from. */
  lemma BitmapDenotes(indices: set<Index>, size: nat)
    requires forall i: Index :: i in indices ==> i < 8 * size
    ensures SelectedIn(Bitmap(indices), size) == indices
  {
    hide Bitmap, BitmapByte, Bit;
    forall i: Index ensures BitIsSet(Bitmap(indices), i) <==> i in indices {
      BitOfBitmapByte(indices, i / 8, i % 8);
      BitmapAt(indices, i / 8);
    }
  }

  /** And any bitmap is, within the bytes that count, the bitmap of the set it denotes. */
  lemma DenotedSetHasBitmap(bits: SelectBits, size: nat, b: nat)
    requires b < PCR_SELECT_MAX
    ensures Bitmap(SelectedIn(bits, size))[b] == if b < size then bits[b] else 0
  {
    hide Bitmap, BitmapByte, Bit, SelectedIn;
    var denoted, expected := SelectedIn(bits, size), if b < size then bits[b] else 0;
    BitmapAt(denoted, b);
    forall k: BitNumber ensures BitmapByte(denoted, b) & Bit(k) != 0 <==> expected & Bit(k) != 0 {
      BitOfBitmapByte(denoted, b, k);
      DenotedMember(bits, size, b, k);
    }
    BytesAgree(BitmapByte(denoted, b), expected);
  }

  lemma DenotedMember(bits: SelectBits, size: nat, b: nat, k: BitNumber)
    requires b < PCR_SELECT_MAX
    ensures 8 * b + k in SelectedIn(bits, size) <==> (if b < size then bits[b] else 0) & Bit(k) != 0
  {
    hide Bit;
    var i: Index := 8 * b + k;
    assert i / 8 == b && i % 8 == k;
    assert 0 & Bit(k) == 0;
  }
}
