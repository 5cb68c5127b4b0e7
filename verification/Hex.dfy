/**
  The lower-case hexadecimal codec. A byte is an unsigned number, so the shift by four and the mask 0x0f
  of the code are division and remainder by sixteen here, and `(high << 4) | low` is `16 * high + low`.
 */
module Hex {
  import opened Common

  const HEX_DIGITS := "0123456789abcdef"

  type nibble = x: int | 0 <= x < 16

  function DecodeDigit(ch: char): Option<nibble> {
    if '0' <= ch <= '9' then Some(ch as int - '0' as int)
    else if 'a' <= ch <= 'f' then Some(10 + (ch as int - 'a' as int))
    else if 'A' <= ch <= 'F' then Some(10 + (ch as int - 'A' as int))
    else None
  }

  predicate IsHexDigit(ch: char) {
    ch in HEX_DIGITS || ch in "ABCDEF"
  }

  predicate AllHex(text: string) {
    forall k :: 0 <= k < |text| ==> IsHexDigit(text[k])
  }

  /** Lower-cases the six letters that are hex digits. */
  function LowerDigit(ch: char): char {
    if 'A' <= ch <= 'F' then (ch as int + 32) as char else ch
  }

  /** A text is the hex form of a byte string: two lower-case digits a byte, the high one first. */
  ghost predicate IsHexOf(text: string, bytes: seq<byte>) {
    && |text| == 2 * |bytes|
    && forall i :: 0 <= i < |bytes| ==>
      text[2 * i] == HEX_DIGITS[bytes[i] / 16] && text[2 * i + 1] == HEX_DIGITS[bytes[i] % 16]
  }

  method EncodeHex(bytes: seq<byte>) returns (text: string)
    ensures IsHexOf(text, bytes)
  {
    text := "";
    for i := 0 to |bytes|
      invariant |text| == 2 * i
      invariant forall k :: 0 <= k < i ==>
        text[2 * k] == HEX_DIGITS[bytes[k] / 16] && text[2 * k + 1] == HEX_DIGITS[bytes[k] % 16]
    {
      var high, low := bytes[i] / 16, bytes[i] % 16;
      text := text + [HEX_DIGITS[high]];
      text := text + [HEX_DIGITS[low]];
    }
  }

  /** Succeeds exactly on even-length text made of hex digits only, and then reads the digits back in pairs. */
  method DecodeHex(text: string) returns (r: Outcome<seq<byte>>)
    ensures r.Ok? <==> |text| % 2 == 0 && AllHex(text)
    ensures r.Ok? ==> IsHexOf(seq(|text|, i requires 0 <= i < |text| => LowerDigit(text[i])), r.value)
    ensures r.Err? ==> r.error.category == InputError
    ensures r.Err? && |text| % 2 != 0 ==> r.error.message == "hex input must contain an even number of digits"
    ensures r.Err? && |text| % 2 == 0 ==> r.error.message == "hex input contains a non-hex character"
  {
    hide DecodeDigit, LowerDigit, IsHexDigit;
    if |text| % 2 != 0 {
      return Err(Error(InputError, "hex input must contain an even number of digits"));
    }
    var bytes: seq<byte> := [];
    var index := 0;
    while index < |text|
      invariant 0 <= index <= |text| && index % 2 == 0
      invariant AllHex(text[..index])
      invariant |bytes| == index / 2
      invariant forall i :: 0 <= i < |bytes| ==>
        HEX_DIGITS[bytes[i] / 16] == LowerDigit(text[2 * i]) && HEX_DIGITS[bytes[i] % 16] == LowerDigit(text[2 * i + 1])
    {
      var high, low := DecodeDigit(text[index]), DecodeDigit(text[index + 1]);
      DigitDecodes(text[index]);
      DigitDecodes(text[index + 1]);
      if high.None? || low.None? {
        return Err(Error(InputError, "hex input contains a non-hex character"));
      }
      var value: int := 16 * (high.value as int) + low.value as int;
      assert value / 16 == high.value && value % 16 == low.value;
      bytes := bytes + [value];
      index := index + 2;
    }
    assert text[..index] == text;
    return Ok(bytes);
  }

  lemma DigitDecodes(ch: char)
    ensures DecodeDigit(ch).Some? <==> IsHexDigit(ch)
    ensures IsHexDigit(ch) ==> HEX_DIGITS[DecodeDigit(ch).value] == LowerDigit(ch)
  {
    if '0' <= ch <= '9' {
      assert ch == HEX_DIGITS[ch as int - '0' as int];
    } else if 'a' <= ch <= 'f' {
      assert ch == HEX_DIGITS[10 + (ch as int - 'a' as int)];
    } else if 'A' <= ch <= 'F' {
      assert ch == "ABCDEF"[ch as int - 'A' as int];
    }
  }

  /** The hex form fixes the bytes, so decoding undoes encoding for every byte string. */
  lemma HexFormIsInjective(text: string, a: seq<byte>, b: seq<byte>)
    requires IsHexOf(text, a) && IsHexOf(text, b)
    ensures a == b
  {
    forall i | 0 <= i < |a| ensures a[i] == b[i] {
      DigitsAreDistinct(a[i] / 16, b[i] / 16);
      DigitsAreDistinct(a[i] % 16, b[i] % 16);
    }
  }

  lemma DigitsAreDistinct(m: nibble, n: nibble)
    ensures HEX_DIGITS[m] == HEX_DIGITS[n] ==> m == n
  {
  }

  /** Both round trips: bytes survive encode-then-decode; hex text comes back in lower case. */
  method RoundTrips(bytes: seq<byte>, text: string) returns (decoded: Outcome<seq<byte>>, lowered: Outcome<string>)
    ensures decoded == Ok(bytes)
    ensures lowered.Ok? <==> |text| % 2 == 0 && AllHex(text)
    ensures lowered.Ok? ==> lowered.value == seq(|text|, i requires 0 <= i < |text| => LowerDigit(text[i]))
  {
    var encoded := EncodeHex(bytes);
    EncodedIsLowerHex(encoded, bytes);
    decoded := DecodeHex(encoded);
    assert seq(|encoded|, i requires 0 <= i < |encoded| => LowerDigit(encoded[i])) == encoded;
    HexFormIsInjective(encoded, decoded.value, bytes);

    var parsed := DecodeHex(text);
    match parsed
    case Err(e) => lowered := Err(e);
    case Ok(value) =>
      var again := EncodeHex(value);
      HexFormIsUnique(again, seq(|text|, i requires 0 <= i < |text| => LowerDigit(text[i])), value);
      lowered := Ok(again);
  }

  lemma EncodedIsLowerHex(text: string, bytes: seq<byte>)
    requires IsHexOf(text, bytes)
    ensures AllHex(text)
    ensures forall k :: 0 <= k < |text| ==> LowerDigit(text[k]) == text[k]
  {
    forall k | 0 <= k < |text| ensures IsHexDigit(text[k]) && LowerDigit(text[k]) == text[k] {
      assert text[k] == HEX_DIGITS[if k % 2 == 0 then bytes[k / 2] / 16 else bytes[k / 2] % 16] by {
        assert k == 2 * (k / 2) + k % 2;
        assert text[2 * (k / 2)] == HEX_DIGITS[bytes[k / 2] / 16];
      }
    }
  }

  lemma HexFormIsUnique(s: string, t: string, bytes: seq<byte>)
    requires IsHexOf(s, bytes) && IsHexOf(t, bytes)
    ensures s == t
  {
    forall k | 0 <= k < |s| ensures s[k] == t[k] {
      var i := k / 2;
      assert k == 2 * i || k == 2 * i + 1;
      assert s[2 * i] == t[2 * i] && s[2 * i + 1] == t[2 * i + 1];
    }
  }
}
