/** Conversion between the PCR domain values and the TPM wire structures. */
module PcrMarshalling {
  import opened Common
  import opened PcrTypes
  import opened TpmStructures
  import opened PcrBitmap

  const SELECT_MIN_SIZE := 3

  const SKIPPED_SHA1 := "TPM returned disabled legacy SHA-1 PCR bank"
  const UNSUPPORTED := "TPM returned unsupported PCR hash algorithm"

  function Malformed<T>(message: string): Outcome<T> {
    Err(Error(BackendError, message))
  }

  function AlgorithmFromTpm(legacy: bool, id: AlgId): Outcome<HashAlgorithm> {
    if id == ALG_SHA1 then if legacy then Ok(Sha1) else Malformed(SKIPPED_SHA1)
    else if id == ALG_SHA256 then Ok(Sha256)
    else if id == ALG_SHA384 then Ok(Sha384)
    else if id == ALG_SHA512 then Ok(Sha512)
    else Malformed(UNSUPPORTED)
  }

  function AlgorithmToTpm(legacy: bool, algorithm: HashAlgorithm): AlgId {
    match algorithm
    case Sha1 => if legacy then ALG_SHA1 else ALG_ERROR
    case Sha256 => ALG_SHA256
    case Sha384 => ALG_SHA384
    case Sha512 => ALG_SHA512
  }

  /** The two algorithm maps are inverse on the enabled algorithms, and only those come out of a TPM. */
  lemma AlgorithmsCorrespond(legacy: bool, algorithm: HashAlgorithm, id: AlgId)
    ensures AlgorithmFromTpm(legacy, id) == Ok(algorithm) <==>
      Enabled(legacy, algorithm) && AlgorithmToTpm(legacy, algorithm) == id
  {
  }

  // Selections.

  function SelectionSize(pcr: Index): byte {
    var required := pcr / 8 + 1;
    if required < SELECT_MIN_SIZE then SELECT_MIN_SIZE else required
  }

  /** Three bytes unless a PCR above 23 is selected. */
  function CanonicalSize(indices: set<Index>): byte {
    if exists i: Index :: i in indices && i >= 24 then 4 else 3
  }

  lemma CanonicalSizeFitsLargestIndex(indices: set<Index>)
    ensures SELECT_MIN_SIZE <= CanonicalSize(indices)
    ensures forall i: Index :: i in indices ==> SelectionSize(i) <= CanonicalSize(indices)
    ensures CanonicalSize(indices) == SELECT_MIN_SIZE || exists i: Index ::
      i in indices && SelectionSize(i) == CanonicalSize(indices)
  {
    if CanonicalSize(indices) != SELECT_MIN_SIZE {
      var i: Index :| i in indices && i >= 24;
      assert SelectionSize(i) == 4;
    }
  }

  /** A list whose only used entry is `s`; the others keep their zero initialisation. */
  function PackedEntry(s: PcrSelect): (list: PcrSelectionList)
    ensures list.count == 1 && list.pcrSelections[0] == s
    ensures forall k :: 1 <= k < NUM_PCR_BANKS ==> list.pcrSelections[k] == EMPTY_SELECT
  {
    PcrSelectionList(1, seq(NUM_PCR_BANKS, k => if k == 0 then s else EMPTY_SELECT))
  }

  function PackedSelection(legacy: bool, selection: Selection): PcrSelectionList {
    PackedEntry(PcrSelect(AlgorithmToTpm(legacy, selection.algorithm), CanonicalSize(selection.indices),
      Bitmap(selection.indices)))
  }

  function UnpackedSelection(legacy: bool, list: PcrSelectionList, fallback: HashAlgorithm): Outcome<Selection> {
    if list.count == 0 then Ok(Selection(fallback, {}))
    else if list.count != 1 then Malformed("TPM returned multiple PCR selections")
    else
      var s := list.pcrSelections[0];
      match AlgorithmFromTpm(legacy, s.hash)
      case Err(e) => Err(e)
      case Ok(algorithm) =>
        if s.sizeofSelect > PCR_SELECT_MAX then Malformed("TPM returned malformed PCR selection size")
        else Ok(Selection(algorithm, SelectedIn(s.pcrSelect, s.sizeofSelect)))
  }

  method ToTpmSelection(legacy: bool, selection: Selection) returns (r: PcrSelectionList)
    ensures r == PackedSelection(legacy, selection)
  {
    var bits := new bv8[PCR_SELECT_MAX](_ => 0);
    var size: byte := SELECT_MIN_SIZE;
    var order := Ascending(selection.indices);
    ghost var seen: set<Index> := {};
    hide Bitmap, CanonicalSize, Ascending, Bit, SelectionSize, Members;
    NothingSelected();
    assert Members(order[..0]) == {} by {
      NoMembers();
    }
    for k := 0 to |order|
      invariant seen == Members(order[..k])
      invariant size == CanonicalSize(seen)
      invariant bits[..] == Bitmap(seen)
    {
      var value := order[k];
      size := if size < SelectionSize(value) then SelectionSize(value) else size;
      ghost var before := bits[..];
      bits[value / 8] := bits[value / 8] | Bit(value % 8);
      assert bits[..] == before[value / 8 := before[value / 8] | Bit(value % 8)];
      SelectIndex(before, seen, value);
      GrowCanonicalSize(seen, value);
      MembersOneMore(order, k);
      seen := seen + {value};
    }
    assert order[..|order|] == order;
    AllMembers(selection.indices);
    r := PackedEntry(PcrSelect(AlgorithmToTpm(legacy, selection.algorithm), size, bits[..]));
  }

  lemma NothingSelected()
    ensures CanonicalSize({}) == SELECT_MIN_SIZE
    ensures Bitmap({}) == seq(PCR_SELECT_MAX, _ => 0)
  {
  }

  ghost function Members(order: seq<Index>): set<Index> {
    set i: Index | i in order
  }

  lemma NoMembers()
    ensures Members([]) == {}
  {
  }

  lemma MembersOneMore(order: seq<Index>, k: nat)
    requires k < |order|
    ensures Members(order[..k + 1]) == Members(order[..k]) + {order[k]}
  {
    assert order[..k + 1] == order[..k] + [order[k]];
  }

  lemma AllMembers(indices: set<Index>)
    ensures Members(Ascending(indices)) == indices
  {
    AscendingIsOrdered(indices);
  }

  lemma GrowCanonicalSize(indices: set<Index>, i: Index)
    ensures CanonicalSize(indices + {i}) ==
      if CanonicalSize(indices) < SelectionSize(i) then SelectionSize(i) else CanonicalSize(indices)
  {
    if i >= 24 {
      assert i in indices + {i};
    } else if CanonicalSize(indices) == 4 {
      var j: Index :| j in indices && j >= 24;
      assert j in indices + {i};
    }
  }

  method ToDomainSelection(legacy: bool, list: PcrSelectionList, fallback: HashAlgorithm)
      returns (r: Outcome<Selection>)
    ensures r == UnpackedSelection(legacy, list, fallback)
  {
    if list.count == 0 {
      return Ok(Selection(fallback, {}));
    }
    if list.count != 1 {
      return Malformed("TPM returned multiple PCR selections");
    }
    var s := list.pcrSelections[0];
    var algorithm := AlgorithmFromTpm(legacy, s.hash);
    if algorithm.Err? {
      return Err(algorithm.error);
    }
    if s.sizeofSelect > PCR_SELECT_MAX {
      return Malformed("TPM returned malformed PCR selection size");
    }
    var indices := CollectIndices(s.pcrSelect, s.sizeofSelect);
    return Ok(Selection(algorithm.value, indices));
  }

  /**
    The two nested loops over bytes and bits. Their exit for an index above 31 is dead: four bytes hold no such bit.
   */
  method CollectIndices(bits: SelectBits, size: nat) returns (indices: set<Index>)
    requires size <= PCR_SELECT_MAX
    ensures indices == SelectedIn(bits, size)
  {
    indices := {};
    for byteIndex := 0 to size
      invariant indices == SelectedIn(bits, byteIndex)
    {
      for bit := 0 to 8
        invariant indices == SelectedBelow(bits, 8 * byteIndex + bit)
      {
        NextBit(bits, byteIndex, bit);
        if bits[byteIndex] & Bit(bit) != 0 {
          var number := 8 * byteIndex + bit;
          if number > MAX_INDEX {
            assert false;
          }
          indices := indices + {number};
        }
      }
    }
  }

  /** A selection survives the trip to the TPM structure and back, the empty one included. */
  lemma SelectionRoundTrip(legacy: bool, selection: Selection, fallback: HashAlgorithm)
    requires Enabled(legacy, selection.algorithm)
    ensures UnpackedSelection(legacy, PackedSelection(legacy, selection), fallback) == Ok(selection)
  {
    var s := PackedSelection(legacy, selection).pcrSelections[0];
    AlgorithmsCorrespond(legacy, selection.algorithm, s.hash);
    BitmapDenotes(selection.indices, s.sizeofSelect);
  }

  /** A one-entry TPM selection that is accepted re-encodes to the same algorithm and bits and to the canonical size. */
  lemma SelectionReencodes(legacy: bool, list: PcrSelectionList, fallback: HashAlgorithm)
    requires list.count == 1
    ensures UnpackedSelection(legacy, list, fallback).Ok? <==>
              AlgorithmFromTpm(legacy, list.pcrSelections[0].hash).Ok?
                && list.pcrSelections[0].sizeofSelect <= PCR_SELECT_MAX
    ensures UnpackedSelection(legacy, list, fallback).Ok? ==>
              var selection := UnpackedSelection(legacy, list, fallback).value;
              var s, t := list.pcrSelections[0], PackedSelection(legacy, selection).pcrSelections[0];
              && t.hash == s.hash
              && t.sizeofSelect == CanonicalSize(selection.indices)
              && forall b :: 0 <= b < PCR_SELECT_MAX ==>
                t.pcrSelect[b] == if b < s.sizeofSelect then s.pcrSelect[b] else 0
  {
    if UnpackedSelection(legacy, list, fallback).Ok? {
      var s := list.pcrSelections[0];
      var selection := UnpackedSelection(legacy, list, fallback).value;
      AlgorithmsCorrespond(legacy, selection.algorithm, s.hash);
      forall b | 0 <= b < PCR_SELECT_MAX
        ensures Bitmap(selection.indices)[b] == if b < s.sizeofSelect then s.pcrSelect[b] else 0 {
        DenotedSetHasBitmap(s.pcrSelect, s.sizeofSelect, b);
      }
    }
  }

  // Sized buffers.

  /** The bytes followed by zeros up to a buffer's capacity. */
  function Padded(bytes: seq<byte>, capacity: nat): (p: seq<byte>)
    requires |bytes| <= capacity
    ensures |p| == capacity
  {
    bytes + Zeros(capacity - |bytes|)
  }

  method CopyBytes(source: seq<byte>, destination: array<byte>)
    requires |source| <= destination.Length
    modifies destination
    ensures destination[..] == source + old(destination[|source|..])
  {
    for k := 0 to |source|
      invariant destination[..k] == source[..k]
      invariant destination[k..] == old(destination[k..])
    {
      destination[k] := source[k];
    }
    assert source[..|source|] == source;
  }

  method ToTpmEvent(data: seq<byte>) returns (r: SizedEvent)
    requires |data| <= EVENT_BUFFER_SIZE
    ensures r.size == |data| && r.buffer == Padded(data, EVENT_BUFFER_SIZE)
    ensures r.buffer[..|data|] == data && forall k :: |data| <= k < EVENT_BUFFER_SIZE ==> r.buffer[k] == 0
  {
    var buffer := new byte[EVENT_BUFFER_SIZE](_ => 0);
    if data != [] {
      CopyBytes(data, buffer);
    }
    r := SizedEvent(|data|, buffer[..]);
  }

  method ToTpmSizedDigest(bytes: seq<byte>) returns (r: SizedDigest)
    requires |bytes| <= DIGEST_BUFFER_SIZE
    ensures r.size == |bytes| && r.buffer == Padded(bytes, DIGEST_BUFFER_SIZE)
    ensures r.buffer[..|bytes|] == bytes && forall k :: |bytes| <= k < DIGEST_BUFFER_SIZE ==> r.buffer[k] == 0
  {
    var buffer := new byte[DIGEST_BUFFER_SIZE](_ => 0);
    if bytes != [] {
      CopyBytes(bytes, buffer);
    }
    r := SizedDigest(|bytes|, buffer[..]);
  }

  // Digest lists.

  function PackedDigest(legacy: bool, d: DigestValue): HashDigest
    requires ValidDigest(legacy, d)
  {
    HashDigest(AlgorithmToTpm(legacy, d.algorithm), Padded(d.digest, DIGEST_BUFFER_SIZE))
  }

  function PackedDigests(legacy: bool, ds: seq<DigestValue>): (list: DigestValueList)
    requires ValidDigests(legacy, ds) && |ds| <= NUM_PCR_BANKS
    ensures list.count == |ds|
    ensures forall k :: 0 <= k < |ds| ==> list.digests[k] == PackedDigest(legacy, ds[k])
  {
    DigestValueList(|ds|, seq(NUM_PCR_BANKS, k requires 0 <= k =>
      if k < |ds| then PackedDigest(legacy, ds[k]) else EMPTY_HASH_DIGEST))
  }

  method ToTpmDigestValues(legacy: bool, ds: seq<DigestValue>) returns (r: DigestValueList)
    requires ValidDigests(legacy, ds) && |ds| <= NUM_PCR_BANKS
    ensures r == PackedDigests(legacy, ds)
  {
    var entries := new HashDigest[NUM_PCR_BANKS](_ => EMPTY_HASH_DIGEST);
    for k := 0 to |ds|
      invariant forall j :: 0 <= j < NUM_PCR_BANKS ==>
        entries[j] == if j < k then PackedDigest(legacy, ds[j]) else EMPTY_HASH_DIGEST
    {
      var buffer := new byte[DIGEST_BUFFER_SIZE](_ => 0);
      CopyBytes(ds[k].digest, buffer);
      entries[k] := HashDigest(AlgorithmToTpm(legacy, ds[k].algorithm), buffer[..]);
    }
    r := DigestValueList(|ds|, entries[..]);
  }

  function DecodedDigest(legacy: bool, h: HashDigest): Outcome<DigestValue> {
    match AlgorithmFromTpm(legacy, h.hashAlg)
    case Err(e) => Err(e)
    case Ok(algorithm) => Ok(DigestValue(algorithm, h.digest[..DigestSize(algorithm)]))
  }

  predicate Skipped(legacy: bool, h: HashDigest) {
    !legacy && h.hashAlg == ALG_SHA1
  }

  function DecodedDigests(legacy: bool, entries: seq<HashDigest>): Outcome<seq<DigestValue>> {
    if entries == [] then Ok([])
    else
      var last := entries[|entries| - 1];
      match DecodedDigests(legacy, entries[..|entries| - 1])
      case Err(e) => Err(e)
      case Ok(ds) =>
        if Skipped(legacy, last) then Ok(ds)
        else match DecodedDigest(legacy, last)
          case Err(e) => Err(e)
          case Ok(d) => Ok(ds + [d])
  }

  function UnpackedDigests(legacy: bool, list: DigestValueList): Outcome<seq<DigestValue>> {
    if list.count > NUM_PCR_BANKS then Malformed("TPM returned too many PCR event digests")
    else DecodedDigests(legacy, list.digests[..list.count])
  }

  method ToDomainDigests(legacy: bool, list: DigestValueList) returns (r: Outcome<seq<DigestValue>>)
    ensures r == UnpackedDigests(legacy, list)
  {
    if list.count > NUM_PCR_BANKS {
      return Malformed("TPM returned too many PCR event digests");
    }
    var result: seq<DigestValue> := [];
    var index := 0;
    while index < list.count
      invariant 0 <= index <= list.count
      invariant DecodedDigests(legacy, list.digests[..index]) == Ok(result)
    {
      assert list.digests[..index + 1][..index] == list.digests[..index];
      if !Skipped(legacy, list.digests[index]) {
        var value := DecodedDigest(legacy, list.digests[index]);
        if value.Err? {
          FailureIsFinal(legacy, list.digests[..list.count], index);
          assert list.digests[..list.count][..index + 1] == list.digests[..index + 1];
          return Err(value.error);
        }
        result := result + [value.value];
      }
      index := index + 1;
    }
    return Ok(result);
  }

  lemma {:induction false} FailureIsFinal(legacy: bool, entries: seq<HashDigest>, k: nat)
    requires k < |entries|
    requires DecodedDigests(legacy, entries[..k + 1]).Err?
    ensures DecodedDigests(legacy, entries) == Err(DecodedDigests(legacy, entries[..k + 1]).error)
  {
    if k + 1 == |entries| {
      assert entries[..k + 1] == entries;
    } else {
      var shorter := entries[..|entries| - 1];
      assert shorter[..k + 1] == entries[..k + 1];
      FailureIsFinal(legacy, shorter, k);
    }
  }

  /** The positions of the entries that are not dropped, in order. */
  function KeptPositions(legacy: bool, entries: seq<HashDigest>): seq<nat> {
    if entries == [] then []
    else
      var n := |entries| - 1;
      KeptPositions(legacy, entries[..n]) + if Skipped(legacy, entries[n]) then [] else [n]
  }

  ghost predicate AreKept(legacy: bool, kept: seq<nat>, entries: seq<HashDigest>) {
    && (forall j :: 0 <= j < |kept| ==> kept[j] < |entries| && !Skipped(legacy, entries[kept[j]]))
    && (forall i, j :: 0 <= i < j < |kept| ==> kept[i] < kept[j])
    && (forall k :: 0 <= k < |entries| && !Skipped(legacy, entries[k]) ==> k in kept)
  }

  lemma {:induction false} KeptPositionsAreKept(legacy: bool, entries: seq<HashDigest>)
    ensures AreKept(legacy, KeptPositions(legacy, entries), entries)
  {
    if entries != [] {
      hide Skipped;
      KeptPositionsAreKept(legacy, entries[..|entries| - 1]);
    }
  }

  predicate Undecodable(legacy: bool, h: HashDigest) {
    !Skipped(legacy, h) && DecodedDigest(legacy, h).Err?
  }

  /**
    On an arbitrary list the result is the order-preserving filter that drops disabled SHA-1 entries and nothing else;
    it fails exactly when an entry that is not dropped has an unknown algorithm.
   */
  lemma DigestFilterLaw(legacy: bool, entries: seq<HashDigest>)
    ensures DecodedDigests(legacy, entries).Err? <==> exists k :: 0 <= k < |entries| && Undecodable(legacy, entries[k])
    ensures DecodedDigests(legacy, entries).Err? ==> DecodedDigests(legacy, entries) == Malformed(UNSUPPORTED)
    ensures DecodedDigests(legacy, entries).Ok? ==> IsFilterOf(legacy, DecodedDigests(legacy, entries).value, entries)
  {
    DigestFailureLaw(legacy, entries);
    if DecodedDigests(legacy, entries).Ok? {
      DigestSuccessLaw(legacy, entries);
    }
  }

  /** The decoded values are those of the kept positions, one for one and in order. */
  ghost predicate IsFilterOf(legacy: bool, ds: seq<DigestValue>, entries: seq<HashDigest>) {
    var kept := KeptPositions(legacy, entries);
    AreKept(legacy, kept, entries) && ValidDigests(legacy, ds) && IsDecodedFrom(legacy, kept, ds, entries)
  }

  ghost predicate IsDecodedFrom(legacy: bool, kept: seq<nat>, ds: seq<DigestValue>, entries: seq<HashDigest>) {
    && |ds| == |kept|
    && forall j :: 0 <= j < |ds| ==> kept[j] < |entries| && DecodedDigest(legacy, entries[kept[j]]) == Ok(ds[j])
  }

  lemma {:induction false} DigestFailureLaw(legacy: bool, entries: seq<HashDigest>)
    ensures DecodedDigests(legacy, entries).Err? <==> exists k :: 0 <= k < |entries| && Undecodable(legacy, entries[k])
    ensures DecodedDigests(legacy, entries).Err? ==> DecodedDigests(legacy, entries) == Malformed(UNSUPPORTED)
  {
    if entries != [] {
      var n := |entries| - 1;
      DigestFailureLaw(legacy, entries[..n]);
      assert forall k :: 0 <= k < n ==> entries[k] == entries[..n][k];
    }
  }

  lemma {:induction false} DigestSuccessLaw(legacy: bool, entries: seq<HashDigest>)
    requires DecodedDigests(legacy, entries).Ok?
    ensures IsFilterOf(legacy, DecodedDigests(legacy, entries).value, entries)
  {
    KeptPositionsAreKept(legacy, entries);
    if entries != [] {
      hide AreKept, KeptPositions, IsDecodedFrom, DecodedDigest, Skipped;
      var n := |entries| - 1;
      DigestSuccessLaw(legacy, entries[..n]);
      KeptOneMore(legacy, entries);
      DecodedIsValid(legacy, entries[n]);
      DecodedOneMore(legacy, KeptPositions(legacy, entries[..n]), DecodedDigests(legacy, entries[..n]).value, entries);
    }
  }

  /** Decoding the last entry extends the filter by its value, or by nothing if it is dropped. */
  lemma DecodedOneMore(legacy: bool, kept: seq<nat>, ds: seq<DigestValue>, entries: seq<HashDigest>)
    requires entries != [] && IsDecodedFrom(legacy, kept, ds, entries[..|entries| - 1])
    ensures IsDecodedFrom(legacy, kept, ds, entries)
    ensures var n := |entries| - 1;
            var last := DecodedDigest(legacy, entries[n]);
            last.Ok? ==> IsDecodedFrom(legacy, kept + [n], ds + [last.value], entries)
  {
    hide DecodedDigest;
    forall j | 0 <= j < |ds| ensures DecodedDigest(legacy, entries[kept[j]]) == Ok(ds[j]) {
      assert entries[..|entries| - 1][kept[j]] == entries[kept[j]];
    }
  }

  lemma KeptOneMore(legacy: bool, entries: seq<HashDigest>)
    requires entries != []
    ensures var n := |entries| - 1;
            KeptPositions(legacy, entries) ==
              KeptPositions(legacy, entries[..n]) + if Skipped(legacy, entries[n]) then [] else [n]
  {
  }

  lemma DecodedIsValid(legacy: bool, h: HashDigest)
    ensures DecodedDigest(legacy, h).Ok? ==> ValidDigest(legacy, DecodedDigest(legacy, h).value)
  {
  }

  /** Every accepted digest list survives the trip to the TPM structure and back; unused entries are zero. */
  lemma DigestListRoundTrip(legacy: bool, ds: seq<DigestValue>)
    requires ValidDigests(legacy, ds) && |ds| <= NUM_PCR_BANKS
    ensures UnpackedDigests(legacy, PackedDigests(legacy, ds)) == Ok(ds)
    ensures forall k :: |ds| <= k < NUM_PCR_BANKS ==> PackedDigests(legacy, ds).digests[k] == EMPTY_HASH_DIGEST
  {
    PackedPrefixDecodes(legacy, ds, |ds|);
    assert ds[..|ds|] == ds;
  }

  lemma PackedDigestDecodes(legacy: bool, d: DigestValue)
    requires ValidDigest(legacy, d)
    ensures !Skipped(legacy, PackedDigest(legacy, d))
    ensures DecodedDigest(legacy, PackedDigest(legacy, d)) == Ok(d)
  {
    AlgorithmsCorrespond(legacy, d.algorithm, AlgorithmToTpm(legacy, d.algorithm));
    assert Padded(d.digest, DIGEST_BUFFER_SIZE)[..|d.digest|] == d.digest;
  }

  lemma {:induction false} PackedPrefixDecodes(legacy: bool, ds: seq<DigestValue>, n: nat)
    requires ValidDigests(legacy, ds) && n <= |ds| <= NUM_PCR_BANKS
    ensures DecodedDigests(legacy, PackedDigests(legacy, ds).digests[..n]) == Ok(ds[..n])
  {
    if n > 0 {
      var entries := PackedDigests(legacy, ds).digests;
      PackedPrefixDecodes(legacy, ds, n - 1);
      assert entries[..n][..n - 1] == entries[..n - 1];
      PackedDigestDecodes(legacy, ds[n - 1]);
      assert ds[..n] == ds[..n - 1] + [ds[n - 1]];
    }
  }

  // Read replies.

  predicate ReadValueFits(algorithm: HashAlgorithm, d: SizedDigest) {
    d.size == DigestSize(algorithm)
  }

  /** Whether a digest list answers a selection: as many digests as indices, each of the bank's digest size. */
  predicate AnswersSelection(list: DigestList, selection: Selection) {
    && list.count <= DIGEST_LIST_CAPACITY
    && list.count == |selection.indices|
    && forall k :: 0 <= k < list.count ==> ReadValueFits(selection.algorithm, list.digests[k])
  }

  /** The k-th digest belongs to the k-th smallest selected index. */
  function ValueAt(list: DigestList, selection: Selection, k: nat): PcrValue
    requires AnswersSelection(list, selection) && k < list.count
  {
    AscendingLength(selection.indices);
    PcrValue(Ascending(selection.indices)[k],
      DigestValue(selection.algorithm, list.digests[k].buffer[..DigestSize(selection.algorithm)]))
  }

  function UnpackedValues(list: DigestList, selection: Selection): Outcome<seq<PcrValue>> {
    if list.count > DIGEST_LIST_CAPACITY then Malformed("TPM returned too many PCR read digests")
    else if list.count != |selection.indices| then Malformed("TPM returned PCR digest count mismatch")
    else if !AnswersSelection(list, selection) then Malformed("TPM returned PCR digest with unexpected size")
    else Ok(ValuesOf(list, selection))
  }

  function ValuesOf(list: DigestList, selection: Selection): (values: seq<PcrValue>)
    requires AnswersSelection(list, selection)
    ensures |values| == list.count
    ensures forall k :: 0 <= k < list.count ==> values[k] == ValueAt(list, selection, k)
  {
    seq(list.count, k requires 0 <= k < list.count => ValueAt(list, selection, k))
  }

  method ToDomainReadValues(list: DigestList, selection: Selection) returns (r: Outcome<seq<PcrValue>>)
    ensures r == UnpackedValues(list, selection)
  {
    if list.count > DIGEST_LIST_CAPACITY {
      return Malformed("TPM returned too many PCR read digests");
    }
    if list.count != |selection.indices| {
      return Malformed("TPM returned PCR digest count mismatch");
    }
    var order := Ascending(selection.indices);
    AscendingLength(selection.indices);
    var result: seq<PcrValue> := [];
    var selected := 0;
    for index := 0 to list.count
      invariant selected == index == |result|
      invariant forall k :: 0 <= k < index ==> ReadValueFits(selection.algorithm, list.digests[k])
      invariant forall k :: 0 <= k < index ==>
        result[k] == PcrValue(order[k],
          DigestValue(selection.algorithm, list.digests[k].buffer[..DigestSize(selection.algorithm)]))
    {
      var digest := list.digests[index];
      if digest.size != DigestSize(selection.algorithm) {
        assert !ReadValueFits(selection.algorithm, list.digests[index]);
        return Malformed("TPM returned PCR digest with unexpected size");
      }
      result := result + [PcrValue(order[selected], DigestValue(selection.algorithm, digest.buffer[..digest.size]))];
      selected := selected + 1;
    }
    assert AnswersSelection(list, selection);
    assert forall k :: 0 <= k < list.count ==> result[k] == ValueAt(list, selection, k);
    assert result == ValuesOf(list, selection);
    return Ok(result);
  }

  // Allocations.

  const ALL_PCRS: SelectBits := [0xff, 0xff, 0xff, 0]

  function PackedAllocation(legacy: bool, banks: seq<HashAlgorithm>): PcrSelectionList
    requires |banks| <= NUM_PCR_BANKS
  {
    PcrSelectionList(|banks|, seq(NUM_PCR_BANKS, k requires 0 <= k =>
      if k < |banks| then PcrSelect(AlgorithmToTpm(legacy, banks[k]), SELECT_MIN_SIZE, ALL_PCRS) else EMPTY_SELECT))
  }

  method ToTpmAllocation(legacy: bool, banks: seq<HashAlgorithm>) returns (r: PcrSelectionList)
    requires |banks| <= NUM_PCR_BANKS
    ensures r == PackedAllocation(legacy, banks)
  {
    var entries := new PcrSelect[NUM_PCR_BANKS](_ => EMPTY_SELECT);
    for k := 0 to |banks|
      invariant forall j :: 0 <= j < NUM_PCR_BANKS ==>
        entries[j] == if j < k then PcrSelect(AlgorithmToTpm(legacy, banks[j]), SELECT_MIN_SIZE, ALL_PCRS)
          else EMPTY_SELECT
    {
      var bits := SelectAllPcrs();
      entries[k] := PcrSelect(AlgorithmToTpm(legacy, banks[k]), SELECT_MIN_SIZE, bits);
    }
    r := PcrSelectionList(|banks|, entries[..]);
  }

  method SelectAllPcrs() returns (r: SelectBits)
    ensures r == ALL_PCRS
  {
    var bits := new bv8[PCR_SELECT_MAX](_ => 0);
    for index := 0 to SELECT_MIN_SIZE
      invariant forall b :: 0 <= b < PCR_SELECT_MAX ==> bits[b] == if b < index then 0xff else 0
    {
      bits[index] := 0xff;
    }
    r := bits[..];
  }

  predicate InFirstThreeBytes(i: Index) { i < 24 }

  /**
    Every entry of an allocation asks for PCRs 0 to 23 of its bank in three bytes, the banks can be read back off the
    list, and unused entries are zero.
   */
  lemma AllocationSelectsEveryPcr(legacy: bool, banks: seq<HashAlgorithm>, k: nat)
    requires k < |banks| <= NUM_PCR_BANKS && Enabled(legacy, banks[k])
    ensures forall j :: |banks| <= j < NUM_PCR_BANKS ==>
      PackedAllocation(legacy, banks).pcrSelections[j] == EMPTY_SELECT
    ensures PackedAllocation(legacy, banks).pcrSelections[k].sizeofSelect == 3
    ensures var s := PackedAllocation(legacy, banks).pcrSelections[k];
            && AlgorithmFromTpm(legacy, s.hash) == Ok(banks[k])
            && SelectedIn(s.pcrSelect, s.sizeofSelect) == set i: Index | InFirstThreeBytes(i)
  {
    var s := PackedAllocation(legacy, banks).pcrSelections[k];
    AlgorithmsCorrespond(legacy, banks[k], s.hash);
    forall i: Index ensures i in SelectedIn(s.pcrSelect, s.sizeofSelect) <==> i < 24 {
      if i < 24 {
        AnyBitOfFullByte(i % 8);
      }
    }
  }

  lemma AnyBitOfFullByte(k: BitNumber)
    ensures 0xff & Bit(k) != 0
  {
  }
}
