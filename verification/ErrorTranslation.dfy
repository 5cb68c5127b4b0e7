/**
  Translation of TSS return codes into error categories. The layer and base constants are those of the TSS 2.0
  headers and of section 6.6 of TPM 2.0 Library Part 2. A code is an unsigned 32-bit number, so the masks of the
  code are written as remainders: the base is the low 16 bits, the layer the 8 bits above them.
 */
module ErrorTranslation {
  import opened Common

  const TPM_LAYER: nat := 0x00_0000
  const ESAPI_LAYER: nat := 0x07_0000
  const TCTI_LAYER: nat := 0x0a_0000

  datatype Mapping = Mapping(layer: nat, base: nat, category: ErrorCategory)

  const TPM_MAPPINGS: seq<Mapping> := [
    Mapping(TPM_LAYER, 0x08e, SecurityFailure),
    Mapping(TPM_LAYER, 0x0a2, SecurityFailure),
    Mapping(TPM_LAYER, 0x083, InputError),
    Mapping(TPM_LAYER, 0x08b, InputError),
    Mapping(TPM_LAYER, 0x907, ResourceError),
    Mapping(TPM_LAYER, 0x921, SecurityFailure),
    Mapping(TPM_LAYER, 0x904, ResourceError),
    Mapping(TPM_LAYER, 0x09d, SecurityFailure),
    Mapping(TPM_LAYER, 0x08d, InputError),
    Mapping(TPM_LAYER, 0x095, InputError),
    Mapping(TPM_LAYER, 0x084, InputError)
  ]

  const ESAPI_MAPPINGS: seq<Mapping> := [
    Mapping(ESAPI_LAYER, 1, BackendError),
    Mapping(ESAPI_LAYER, 2, BackendError),
    Mapping(ESAPI_LAYER, 4, BackendError),
    Mapping(ESAPI_LAYER, 5, InputError),
    Mapping(ESAPI_LAYER, 6, InputError),
    Mapping(ESAPI_LAYER, 7, BackendError),
    Mapping(ESAPI_LAYER, 13, InputError),
    Mapping(ESAPI_LAYER, 9, ResourceError),
    Mapping(ESAPI_LAYER, 10, ResourceError),
    Mapping(ESAPI_LAYER, 11, InputError),
    Mapping(ESAPI_LAYER, 14, InputError),
    Mapping(ESAPI_LAYER, 15, InputError),
    Mapping(ESAPI_LAYER, 16, InputError),
    Mapping(ESAPI_LAYER, 17, BackendError),
    Mapping(ESAPI_LAYER, 18, BackendError),
    Mapping(ESAPI_LAYER, 19, BackendError),
    Mapping(ESAPI_LAYER, 20, ResourceError),
    Mapping(ESAPI_LAYER, 22, BackendError),
    Mapping(ESAPI_LAYER, 23, ResourceError),
    Mapping(ESAPI_LAYER, 24, InputError),
    Mapping(ESAPI_LAYER, 25, InputError),
    Mapping(ESAPI_LAYER, 26, InputError),
    Mapping(ESAPI_LAYER, 21, BackendError),
    Mapping(ESAPI_LAYER, 27, SecurityFailure),
    Mapping(ESAPI_LAYER, 54, BackendError)
  ]

  const TCTI_MAPPINGS: seq<Mapping> := [
    Mapping(TCTI_LAYER, 1, BackendError),
    Mapping(TCTI_LAYER, 2, BackendError),
    Mapping(TCTI_LAYER, 3, BackendError),
    Mapping(TCTI_LAYER, 4, BackendError),
    Mapping(TCTI_LAYER, 5, InputError),
    Mapping(TCTI_LAYER, 6, InputError),
    Mapping(TCTI_LAYER, 7, BackendError),
    Mapping(TCTI_LAYER, 8, ResourceError),
    Mapping(TCTI_LAYER, 9, ResourceError),
    Mapping(TCTI_LAYER, 10, ResourceError),
    Mapping(TCTI_LAYER, 11, InputError),
    Mapping(TCTI_LAYER, 12, BackendError),
    Mapping(TCTI_LAYER, 17, BackendError),
    Mapping(TCTI_LAYER, 21, BackendError)
  ]

  /** The 50 documented rows, in the order in which they are searched. */
  const DOCUMENTED: seq<Mapping> := TPM_MAPPINGS + ESAPI_MAPPINGS + TCTI_MAPPINGS

  /** `rc & 0x00ff0000` */
  function Layer(rc: TssRc): nat { (rc / 0x1_0000 % 0x100) * 0x1_0000 }

  /** Whether bit 7 is set, which marks a format-one code. */
  predicate IsFormatOne(base: nat) { base / 0x80 % 2 == 1 }

  /**
    Format-one codes carry a parameter, handle or session number in bit 6 and bits 8 to 11 that is not part of
    the code proper: `base & 0xbf` keeps bits 0 to 5 and bit 7.
   */
  function NormalizeTpmBase(base: nat): nat {
    if !IsFormatOne(base) then base else 0x80 + base % 0x40
  }

  function Base(rc: TssRc, layer: nat): nat {
    var base := rc % 0x1_0000;
    if layer == TPM_LAYER then NormalizeTpmBase(base) else base
  }

  predicate Matches(m: Mapping, layer: nat, base: nat) {
    m.layer == layer && m.base == base
  }

  /** The catalogue as a lookup: a documented key has its own category, any other key is a backend error. */
  function CategoryFor(layer: nat, base: nat): ErrorCategory {
    if layer == TPM_LAYER then
      if base in {0x08e, 0x0a2, 0x921, 0x09d} then SecurityFailure
      else if base in {0x083, 0x08b, 0x08d, 0x095, 0x084} then InputError
      else if base in {0x907, 0x904} then ResourceError
      else BackendError
    else if layer == ESAPI_LAYER then
      if base == 27 then SecurityFailure
      else if base in {5, 6, 11, 13, 14, 15, 16, 24, 25, 26} then InputError
      else if base in {9, 10, 20, 23} then ResourceError
      else BackendError
    else if layer == TCTI_LAYER then
      if base in {5, 6, 11} then InputError
      else if base in {8, 9, 10} then ResourceError
      else BackendError
    else BackendError
  }

  /** Where the row of a key stands among the rows of its layer. */
  ghost function TpmPosition(base: nat): nat {
    if base == 0x08e then 0 else if base == 0x0a2 then 1 else if base == 0x083 then 2 else
    if base == 0x08b then 3 else if base == 0x907 then 4 else if base == 0x921 then 5 else
    if base == 0x904 then 6 else if base == 0x09d then 7 else if base == 0x08d then 8 else
    if base == 0x095 then 9 else if base == 0x084 then 10 else 11
  }

  ghost function EsapiPosition(base: nat): nat {
    if base == 1 then 0 else if base == 2 then 1 else if base == 4 then 2 else if base == 5 then 3 else
    if base == 6 then 4 else if base == 7 then 5 else if base == 13 then 6 else if base == 9 then 7 else
    if base == 10 then 8 else if base == 11 then 9 else if base == 14 then 10 else if base == 15 then 11 else
    if base == 16 then 12 else if base == 17 then 13 else if base == 18 then 14 else if base == 19 then 15 else
    if base == 20 then 16 else if base == 22 then 17 else if base == 23 then 18 else if base == 24 then 19 else
    if base == 25 then 20 else if base == 26 then 21 else if base == 21 then 22 else if base == 27 then 23 else
    if base == 54 then 24 else 25
  }

  ghost function TctiPosition(base: nat): nat {
    if base == 1 then 0 else if base == 2 then 1 else if base == 3 then 2 else if base == 4 then 3 else
    if base == 5 then 4 else if base == 6 then 5 else if base == 7 then 6 else if base == 8 then 7 else
    if base == 9 then 8 else if base == 10 then 9 else if base == 11 then 10 else if base == 12 then 11 else
    if base == 17 then 12 else if base == 21 then 13 else 14
  }

  lemma TpmRow(k: nat)
    requires k < |TPM_MAPPINGS|
    ensures TpmPosition(TPM_MAPPINGS[k].base) == k
    ensures CategoryFor(TPM_LAYER, TPM_MAPPINGS[k].base) == TPM_MAPPINGS[k].category
    ensures NormalizeTpmBase(TPM_MAPPINGS[k].base) == TPM_MAPPINGS[k].base
  {
  }

  lemma EsapiRow(k: nat)
    requires k < |ESAPI_MAPPINGS|
    ensures EsapiPosition(ESAPI_MAPPINGS[k].base) == k
    ensures CategoryFor(ESAPI_LAYER, ESAPI_MAPPINGS[k].base) == ESAPI_MAPPINGS[k].category
  {
  }

  lemma TctiRow(k: nat)
    requires k < |TCTI_MAPPINGS|
    ensures TctiPosition(TCTI_MAPPINGS[k].base) == k
    ensures CategoryFor(TCTI_LAYER, TCTI_MAPPINGS[k].base) == TCTI_MAPPINGS[k].category
  {
  }

  /** Every key of the catalogue is in the table. */
  lemma CatalogueIsInTable(layer: nat, base: nat)
    ensures CategoryFor(layer, base) != BackendError ==>
      exists k :: 0 <= k < |DOCUMENTED| && Matches(DOCUMENTED[k], layer, base)
  {
    if CategoryFor(layer, base) != BackendError {
      var k := if layer == TPM_LAYER then TpmPosition(base)
               else if layer == ESAPI_LAYER then 11 + EsapiPosition(base)
               else 36 + TctiPosition(base);
      RowsByLayer(k);
      assert Matches(DOCUMENTED[k], layer, base);
    }
  }

  /** No two rows share a key, so the first match is the only one. */
  lemma KeysAreDistinct(i: nat, j: nat)
    requires i < j < |DOCUMENTED|
    ensures !Matches(DOCUMENTED[i], DOCUMENTED[j].layer, DOCUMENTED[j].base)
  {
    RowsByLayer(i);
    RowsByLayer(j);
    if j < 11 {
      TpmRow(i);
      TpmRow(j);
    } else if 11 <= i && j < 36 {
      EsapiRow(i - 11);
      EsapiRow(j - 11);
    } else if 36 <= i {
      TctiRow(i - 36);
      TctiRow(j - 36);
    }
  }

  lemma RowsByLayer(k: nat)
    requires k < |DOCUMENTED|
    ensures |DOCUMENTED| == 50
    ensures k < 11 ==> DOCUMENTED[k] == TPM_MAPPINGS[k] && DOCUMENTED[k].layer == TPM_LAYER
    ensures 11 <= k < 36 ==> DOCUMENTED[k] == ESAPI_MAPPINGS[k - 11] && DOCUMENTED[k].layer == ESAPI_LAYER
    ensures 36 <= k ==> DOCUMENTED[k] == TCTI_MAPPINGS[k - 36] && DOCUMENTED[k].layer == TCTI_LAYER
  {
  }

  lemma RowHasItsCategory(k: nat)
    requires k < |DOCUMENTED|
    ensures CategoryFor(DOCUMENTED[k].layer, DOCUMENTED[k].base) == DOCUMENTED[k].category
  {
    RowsByLayer(k);
    if k < 11 {
      TpmRow(k);
    } else if k < 36 {
      EsapiRow(k - 11);
    } else {
      TctiRow(k - 36);
    }
  }

  ghost predicate IsFirstMatch(table: seq<Mapping>, k: nat, layer: nat, base: nat) {
    k < |table| && Matches(table[k], layer, base) && forall j :: 0 <= j < k ==> !Matches(table[j], layer, base)
  }

  /** The linear search: the category of the first matching row, a backend error if there is none. */
  method Search(table: seq<Mapping>, layer: nat, base: nat) returns (category: ErrorCategory)
    ensures forall k: nat :: IsFirstMatch(table, k, layer, base) ==> category == table[k].category
    ensures (forall k :: 0 <= k < |table| ==> !Matches(table[k], layer, base)) ==> category == BackendError
  {
    var i := 0;
    while i < |table|
      invariant 0 <= i <= |table|
      invariant forall k :: 0 <= k < i ==> !Matches(table[k], layer, base)
    {
      var entry := table[i];
      if entry.layer == layer && entry.base == base {
        return entry.category;
      }
      i := i + 1;
    }
    return BackendError;
  }

  /** Searching the documented table is the catalogue lookup. */
  method TranslateLayerBase(layer: nat, base: nat) returns (category: ErrorCategory)
    ensures category == CategoryFor(layer, base)
  {
    hide CategoryFor;
    category := Search(DOCUMENTED, layer, base);
    CatalogueIsInTable(layer, base);
    if k: nat :| k < |DOCUMENTED| && Matches(DOCUMENTED[k], layer, base) {
      RowHasItsCategory(k);
      forall j | 0 <= j < k ensures !Matches(DOCUMENTED[j], layer, base) {
        KeysAreDistinct(j, k);
      }
      assert IsFirstMatch(DOCUMENTED, k, layer, base);
    }
  }

  function Category(rc: TssRc): ErrorCategory {
    CategoryFor(Layer(rc), Base(rc, Layer(rc)))
  }

  function Message(category: ErrorCategory): string {
    match category
    case InputError => "input rejected by TPM"
    case SecurityFailure => "TPM verification failed"
    case ResourceError => "TPM operation cannot be completed"
    case BackendError => "TPM backend reported an error"
  }

  function TranslatedError(rc: TssRc): Error {
    Error(Category(rc), Message(Category(rc)))
  }

  lemma NormalizationIsIdempotent(base: nat)
    ensures NormalizeTpmBase(NormalizeTpmBase(base)) == NormalizeTpmBase(base)
    ensures IsFormatOne(NormalizeTpmBase(base)) <==> IsFormatOne(base)
  {
  }

  /**
    What the category depends on: the low 24 bits in general, and for a format-one TPM code only bits 0 to 5
    of its base. Two codes that agree there have the same category.
   */
  lemma CategoryIgnoresDecoration(rc: TssRc, other: TssRc)
    ensures rc % 0x100_0000 == other % 0x100_0000 ==> Category(rc) == Category(other)
    ensures
      Layer(rc) == Layer(other) == TPM_LAYER && IsFormatOne(rc) && IsFormatOne(other) && rc % 0x40 == other % 0x40 ==>
        Category(rc) == Category(other)
  {
    LowBits(rc);
    LowBits(other);
  }

  lemma LowBits(rc: TssRc)
    ensures Layer(rc) == rc % 0x100_0000 - rc % 0x1_0000
    ensures rc % 0x1_0000 == rc % 0x100_0000 % 0x1_0000
    ensures rc % 0x1_0000 % 0x40 == rc % 0x40
    ensures IsFormatOne(rc % 0x1_0000) <==> IsFormatOne(rc)
  {
    LayerBits(rc);
    BaseBits(rc);
  }

  lemma LayerBits(rc: TssRc)
    ensures Layer(rc) == rc % 0x100_0000 - rc % 0x1_0000
    ensures rc % 0x1_0000 == rc % 0x100_0000 % 0x1_0000
  {
    var upper, low := rc / 0x100_0000, rc % 0x100_0000;
    assert rc == 0x100_0000 * upper + low;
    assert rc / 0x1_0000 == 0x100 * upper + low / 0x1_0000;
  }

  lemma BaseBits(rc: TssRc)
    ensures rc % 0x1_0000 % 0x40 == rc % 0x40
    ensures IsFormatOne(rc % 0x1_0000) <==> IsFormatOne(rc)
  {
    var upper, base := rc / 0x1_0000, rc % 0x1_0000;
    assert rc == 0x1_0000 * upper + base;
    SixBits(upper, base);
    FormatBit(upper, base);
  }

  lemma SixBits(upper: nat, base: nat)
    ensures (0x1_0000 * upper + base) % 0x40 == base % 0x40
  {
    assert 0x1_0000 * upper + base == 0x40 * (0x400 * upper + base / 0x40) + base % 0x40;
  }

  lemma FormatBit(upper: nat, base: nat)
    ensures (0x1_0000 * upper + base) / 0x80 % 2 == base / 0x80 % 2
  {
    var high := base / 0x80;
    assert 0x1_0000 * upper + base == 0x80 * (0x200 * upper + high) + base % 0x80;
    assert (0x1_0000 * upper + base) / 0x80 == 2 * (0x100 * upper) + high;
  }

  /**
    The codes that a row is about: its layer and base in the low 24 bits or, for a format-one row of the TPM layer, any
    format-one TPM code with the row's six low bits, whatever session, handle or parameter number a reply adds to it.
   */
  predicate IsAbout(m: Mapping, rc: TssRc) {
    || rc % 0x100_0000 == m.layer + m.base
    || (&& m.layer == 0 && rc / 0x1_0000 % 0x100 == 0
        && IsFormatOne(rc) && IsFormatOne(m.base) && rc % 0x40 == m.base % 0x40)
  }

  lemma AboutMatches(k: nat, rc: TssRc)
    requires k < |DOCUMENTED|
    ensures IsAbout(DOCUMENTED[k], rc) <==> Matches(DOCUMENTED[k], Layer(rc), Base(rc, Layer(rc)))
  {
    RowsByLayer(k);
    LowBits(rc);
    NormalizationIsIdempotent(rc % 0x1_0000);
    RowsAreShort(k);
    if k < 11 {
      TpmRow(k);
    }
  }

  lemma RowsAreShort(k: nat)
    requires k < |DOCUMENTED|
    ensures DOCUMENTED[k].base < 0x1_0000
    ensures DOCUMENTED[k].layer % 0x1_0000 == 0
  {
    RowsByLayer(k);
  }

  /** A code has the category of the row that is about it, and is a backend error exactly if no other row is. */
  lemma CodesTranslate(rc: TssRc)
    ensures forall k :: 0 <= k < |DOCUMENTED| && IsAbout(DOCUMENTED[k], rc) ==> Category(rc) == DOCUMENTED[k].category
    ensures Category(rc) == BackendError <==>
      forall k :: 0 <= k < |DOCUMENTED| && IsAbout(DOCUMENTED[k], rc) ==> DOCUMENTED[k].category == BackendError
  {
    hide CategoryFor, IsAbout, Matches, Base, Layer;
    CatalogueIsInTable(Layer(rc), Base(rc, Layer(rc)));
    forall k | 0 <= k < |DOCUMENTED|
      ensures IsAbout(DOCUMENTED[k], rc) <==> Matches(DOCUMENTED[k], Layer(rc), Base(rc, Layer(rc)))
      ensures IsAbout(DOCUMENTED[k], rc) ==> Category(rc) == DOCUMENTED[k].category
    {
      AboutMatches(k, rc);
      MatchingRow(k, Layer(rc), Base(rc, Layer(rc)));
    }
  }

  lemma MatchingRow(k: nat, layer: nat, base: nat)
    requires k < |DOCUMENTED|
    ensures Matches(DOCUMENTED[k], layer, base) ==> CategoryFor(layer, base) == DOCUMENTED[k].category
  {
    hide CategoryFor;
    RowHasItsCategory(k);
  }

  /** Callers see one of four errors, and nothing of the code but its category. */
  lemma ErrorsAreOneOfFour(rc: TssRc)
    ensures TranslatedError(rc) in {
      Error(InputError, "input rejected by TPM"),
      Error(SecurityFailure, "TPM verification failed"),
      Error(ResourceError, "TPM operation cannot be completed"),
      Error(BackendError, "TPM backend reported an error")}
    ensures TranslatedError(rc).category == Category(rc)
  {
    hide CategoryFor;
  }

  const UNAVAILABLE := "unavailable"
  const MAX_DESCRIPTION := 128

  predicate IsPrintableAscii(c: char) {
    0x20 <= c as int < 0x7f
  }

  /** The C string that starts a buffer: everything before the first NUL, or all of it. */
  function CString(text: string): string {
    if text == "" || text[0] == '\0' then "" else [text[0]] + CString(text[1..])
  }

  /** One character of the description: unprintable ones of the decoder's text become underscores. */
  function Sanitized(c: char): char {
    if IsPrintableAscii(c) then c else '_'
  }

  /** At most 128 printable characters, never empty. */
  method SanitizedDescription(decoded: Option<string>) returns (description: string)
    ensures 0 < |description| <= MAX_DESCRIPTION
    ensures forall k :: 0 <= k < |description| ==> IsPrintableAscii(description[k])
    ensures decoded.None? || CString(decoded.value) == "" ==> description == UNAVAILABLE
    ensures decoded.Some? && CString(decoded.value) != "" ==>
              && |description| == (if |CString(decoded.value)| <= MAX_DESCRIPTION then |CString(decoded.value)|
                else MAX_DESCRIPTION)
              && forall k :: 0 <= k < |description| ==> description[k] == Sanitized(CString(decoded.value)[k])
  {
    if decoded.None? || decoded.value == "" || decoded.value[0] == '\0' {
      return UNAVAILABLE;
    }
    var text := decoded.value;
    hide CString;
    CStringIsPrefix(text);
    description := "";
    var index := 0;
    while index < |text| && text[index] != '\0' && index < MAX_DESCRIPTION
      invariant 0 <= index <= |CString(text)| && index <= MAX_DESCRIPTION && |description| == index
      invariant forall k :: 0 <= k < index ==> description[k] == Sanitized(text[k])
    {
      description := description + [if IsPrintableAscii(text[index]) then text[index] else '_'];
      index := index + 1;
    }
    if description == "" {
      assert false;
    }
  }

  /** The C string ends at the first NUL or at the end of the buffer. */
  lemma {:induction false} CStringIsPrefix(text: string)
    ensures |CString(text)| <= |text| && CString(text) == text[..|CString(text)|]
    ensures |CString(text)| < |text| ==> text[|CString(text)|] == '\0'
    ensures forall k :: 0 <= k < |CString(text)| ==> text[k] != '\0'
  {
    if text != "" && text[0] != '\0' {
      CStringIsPrefix(text[1..]);
      assert forall k :: 1 <= k < |text| ==> text[k] == text[1..][k - 1];
    }
  }
}
