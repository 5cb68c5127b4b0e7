/** Rendering of structured log fields as ` key=value` suffixes, and the parser that inverts it. */
module EscapeValue {
  import opened Common
  import opened Hex

  datatype Field = Field(key: string, value: string)

  /** The characters that force a value into double quotes. */
  predicate IsSpecial(c: char) {
    c < ' ' || c == ' ' || c == '=' || c == '"' || c == '\\'
  }

  predicate NeedsQuoting(value: string) {
    exists k :: 0 <= k < |value| && IsSpecial(value[k])
  }

  function EscapeChar(c: char): string {
    if c == '"' then "\\\""
    else if c == '\\' then "\\\\"
    else if c == '\n' then "\\n"
    else if c == '\r' then "\\r"
    else if c == '\t' then "\\t"
    else if c < ' ' then "\\x" + [HEX_DIGITS[c as int / 16], HEX_DIGITS[c as int % 16]]
    else [c]
  }

  function EscapeAll(value: string): string {
    if value == "" then "" else EscapeChar(value[0]) + EscapeAll(value[1..])
  }

  function Escaped(value: string): string {
    if NeedsQuoting(value) then "\"" + EscapeAll(value) + "\"" else value
  }

  function RenderField(f: Field): string {
    " " + f.key + "=" + Escaped(f.value)
  }

  function RenderFields(fields: seq<Field>): string {
    if fields == [] then "" else RenderField(fields[0]) + RenderFields(fields[1..])
  }

  lemma NothingEscaped()
    ensures EscapeAll("") == ""
  {
  }

  method AppendEscaped(out: string, c: char) returns (longer: string)
    ensures longer == out + EscapeChar(c)
  {
    longer := out;
    if c == '"' {
      longer := longer + "\\\"";
    } else if c == '\\' {
      longer := longer + "\\\\";
    } else if c == '\n' {
      longer := longer + "\\n";
    } else if c == '\r' {
      longer := longer + "\\r";
    } else if c == '\t' {
      longer := longer + "\\t";
    } else if c < ' ' {
      var high, low := c as int / 16, c as int % 16;
      longer := longer + "\\x";
      longer := longer + [HEX_DIGITS[high]];
      longer := longer + [HEX_DIGITS[low]];
    } else {
      longer := longer + [c];
    }
  }

  method EscapeToText(value: string) returns (out: string)
    ensures out == Escaped(value)
  {
    var needsQuoting := false;
    for i := 0 to |value|
      invariant !needsQuoting
      invariant forall k :: 0 <= k < i ==> !IsSpecial(value[k])
    {
      var c := value[i];
      if c < ' ' || c == ' ' || c == '=' || c == '"' || c == '\\' {
        needsQuoting := true;
        break;
      }
    }
    if !needsQuoting {
      return value;
    }
    out := "\"";
    hide EscapeAll, EscapeChar, NeedsQuoting, IsSpecial;
    NothingEscaped();
    assert value[..0] == "";
    for i := 0 to |value|
      invariant out == "\"" + EscapeAll(value[..i])
    {
      ghost var before := out;
      out := AppendEscaped(out, value[i]);
      QuoteOneMore(before, value, i);
    }
    assert value[..|value|] == value;
    out := out + "\"";
  }

  lemma QuoteOneMore(out: string, value: string, i: nat)
    requires i < |value| && out == "\"" + EscapeAll(value[..i])
    ensures out + EscapeChar(value[i]) == "\"" + EscapeAll(value[..i + 1])
  {
    hide EscapeChar;
    EscapeAllAppends(value[..i], value[i]);
    assert value[..i + 1] == value[..i] + [value[i]];
  }

  lemma {:induction false} EscapeAllAppends(value: string, c: char)
    ensures EscapeAll(value + [c]) == EscapeAll(value) + EscapeChar(c)
  {
    hide EscapeChar;
    if value == "" {
      assert value + [c] == [c];
    } else {
      assert (value + [c])[1..] == value[1..] + [c];
      EscapeAllAppends(value[1..], c);
    }
  }

  // The inverse parser.

  datatype Parsed = Parsed(text: string, rest: string)

  /** Reads the inside of a quoted value up to and including the closing quote. */
  function ParseQuoted(s: string): Option<Parsed> {
    if s == "" then None
    else if s[0] == '"' then Some(Parsed("", s[1..]))
    else if s[0] == '\\' then
      if |s| < 2 then None
      else if s[1] == '"' then Prepend('"', ParseQuoted(s[2..]))
      else if s[1] == '\\' then Prepend('\\', ParseQuoted(s[2..]))
      else if s[1] == 'n' then Prepend('\n', ParseQuoted(s[2..]))
      else if s[1] == 'r' then Prepend('\r', ParseQuoted(s[2..]))
      else if s[1] == 't' then Prepend('\t', ParseQuoted(s[2..]))
      else if s[1] == 'x' && |s| >= 4 && DecodeDigit(s[2]).Some? && DecodeDigit(s[3]).Some? then
        Prepend((16 * (DecodeDigit(s[2]).value as int) + DecodeDigit(s[3]).value as int) as char, ParseQuoted(s[4..]))
      else None
    else Prepend(s[0], ParseQuoted(s[1..]))
  }

  function Prepend(c: char, p: Option<Parsed>): Option<Parsed> {
    if p.None? then None else Some(Parsed([c] + p.value.text, p.value.rest))
  }

  /** Splits at the first occurrence of `stop`, which stays in the rest. */
  function SplitAt(s: string, stop: char): (p: Parsed)
    ensures p.text + p.rest == s
  {
    if s == "" || s[0] == stop then Parsed("", s)
    else var p := SplitAt(s[1..], stop); Parsed([s[0]] + p.text, p.rest)
  }

  function ParseValue(s: string): Option<Parsed> {
    if s != "" && s[0] == '"' then ParseQuoted(s[1..]) else Some(SplitAt(s, ' '))
  }

  function ParseField(s: string): Option<(Field, string)> {
    if s == "" || s[0] != ' ' then None
    else
      var key := SplitAt(s[1..], '=');
      if key.rest == "" then None
      else
        var value := ParseValue(key.rest[1..]);
        if value.None? then None else Some((Field(key.text, value.value.text), value.value.rest))
  }

  function ParseFields(s: string): Option<seq<Field>>
    decreases |s|
  {
    if s == "" then Some([])
    else
      var first := ParseField(s);
      if first.None? || |first.value.1| >= |s| then None
      else
        var others := ParseFields(first.value.1);
        if others.None? then None else Some([first.value.0] + others.value)
  }

  predicate KeysFreeOf(fields: seq<Field>, c: char) {
    forall i :: 0 <= i < |fields| ==> c !in fields[i].key
  }

  /** Decoding a quoted value gives the value back, whatever follows the closing quote. */
  lemma {:induction false} QuotedDecodes(value: string, rest: string)
    ensures ParseQuoted(EscapeAll(value) + "\"" + rest) == Some(Parsed(value, rest))
  {
    if value == "" {
      assert EscapeAll(value) + "\"" + rest == "\"" + rest;
    } else {
      hide EscapeChar, ParseQuoted;
      var c, tail := value[0], EscapeAll(value[1..]) + "\"" + rest;
      QuotedDecodes(value[1..], rest);
      assert EscapeAll(value) + "\"" + rest == EscapeChar(c) + tail;
      assert value == [c] + value[1..];
      EscapedCharDecodes(c, tail);
    }
  }

  lemma PlainCharDecodes(c: char, tail: string)
    requires c != '"' && c != '\\'
    ensures ParseQuoted([c] + tail) == Prepend(c, ParseQuoted(tail))
  {
    assert ([c] + tail)[1..] == tail;
  }

  lemma ShortEscapeDecodes(letter: char, c: char, tail: string)
    requires (letter, c) in {('"', '"'), ('\\', '\\'), ('n', '\n'), ('r', '\r'), ('t', '\t')}
    ensures ParseQuoted(['\\', letter] + tail) == Prepend(c, ParseQuoted(tail))
  {
    assert (['\\', letter] + tail)[2..] == tail;
  }

  lemma HexEscapeDecodes(c: char, tail: string)
    requires c < ' '
    ensures ParseQuoted(['\\', 'x', HEX_DIGITS[c as int / 16], HEX_DIGITS[c as int % 16]] + tail) ==
      Prepend(c, ParseQuoted(tail))
  {
    hide DecodeDigit;
    var hi, lo := c as int / 16, c as int % 16;
    DecodesDigit(hi);
    DecodesDigit(lo);
    assert (['\\', 'x', HEX_DIGITS[hi], HEX_DIGITS[lo]] + tail)[4..] == tail;
  }

  lemma EscapedCharDecodes(c: char, tail: string)
    ensures ParseQuoted(EscapeChar(c) + tail) == Prepend(c, ParseQuoted(tail))
  {
    hide ParseQuoted, Prepend, DecodeDigit;
    if c == '"' {
      ShortEscapeDecodes('"', c, tail);
    } else if c == '\\' {
      ShortEscapeDecodes('\\', c, tail);
    } else if c == '\n' {
      ShortEscapeDecodes('n', c, tail);
    } else if c == '\r' {
      ShortEscapeDecodes('r', c, tail);
    } else if c == '\t' {
      ShortEscapeDecodes('t', c, tail);
    } else if c < ' ' {
      HexEscapeDecodes(c, tail);
      assert EscapeChar(c) == ['\\', 'x', HEX_DIGITS[c as int / 16], HEX_DIGITS[c as int % 16]];
    } else {
      PlainCharDecodes(c, tail);
    }
  }

  lemma DecodesDigit(n: nibble)
    ensures DecodeDigit(HEX_DIGITS[n]) == Some(n)
  {
  }

  lemma {:induction false} SplitFinds(text: string, rest: string, stop: char)
    requires stop !in text
    requires rest == "" || rest[0] == stop
    ensures SplitAt(text + rest, stop) == Parsed(text, rest)
  {
    if text == "" {
      assert text + rest == rest;
    } else {
      assert (text + rest)[1..] == text[1..] + rest;
      SplitFinds(text[1..], rest, stop);
    }
  }

  lemma {:induction false} SplitStopsEarly(s: string, stop: char)
    ensures stop !in SplitAt(s, stop).text
  {
    if s != "" && s[0] != stop {
      SplitStopsEarly(s[1..], stop);
    }
  }

  lemma PlainHasNoSpace(value: string)
    requires !NeedsQuoting(value)
    ensures ' ' !in value && '=' !in value
    ensures value != "" ==> value[0] != '"'
  {
    assert forall k :: 0 <= k < |value| ==> !IsSpecial(value[k]);
    if value != "" {
      assert !IsSpecial(value[0]);
    }
  }

  lemma PlainDecodes(value: string, rest: string)
    requires ' ' !in value
    requires value != "" ==> value[0] != '"'
    requires rest == "" || rest[0] == ' '
    ensures ParseValue(value + rest) == Some(Parsed(value, rest))
  {
    if value == "" {
      assert value + rest == rest;
    }
    SplitFinds(value, rest, ' ');
  }

  lemma ValueDecodes(value: string, rest: string)
    requires rest == "" || rest[0] == ' '
    ensures ParseValue(Escaped(value) + rest) == Some(Parsed(value, rest))
  {
    hide EscapeAll, ParseQuoted, ParseValue;
    if NeedsQuoting(value) {
      var body := EscapeAll(value) + "\"" + rest;
      assert Escaped(value) + rest == "\"" + body;
      QuotedDecodes(value, rest);
      ParseValueOfQuote(body);
    } else {
      PlainHasNoSpace(value);
      PlainDecodes(value, rest);
    }
  }

  lemma ParseValueOfQuote(body: string)
    ensures ParseValue("\"" + body) == ParseQuoted(body)
  {
    assert ("\"" + body)[1..] == body;
  }

  lemma FieldDecodes(f: Field, rest: string)
    requires '=' !in f.key
    requires rest == "" || rest[0] == ' '
    ensures ParseField(RenderField(f) + rest) == Some((f, rest))
  {
    hide Escaped, ParseValue, SplitAt;
    var s := RenderField(f) + rest;
    var afterKey := "=" + (Escaped(f.value) + rest);
    assert s[1..] == f.key + afterKey;
    SplitFinds(f.key, afterKey, '=');
    assert afterKey[1..] == Escaped(f.value) + rest;
    ValueDecodes(f.value, rest);
  }

  lemma ParseFieldsStep(s: string, f: Field, rest: string)
    requires ParseField(s) == Some((f, rest)) && |rest| < |s|
    ensures ParseFields(s) == if ParseFields(rest).None? then None else Some([f] + ParseFields(rest).value)
  {
    hide ParseField;
  }

  /** The parser ends a key at the first `=`. */
  lemma ParsedKeyStops(s: string)
    requires ParseFields(s).Some? && ParseFields(s).value != []
    ensures '=' !in ParseFields(s).value[0].key
  {
    hide ParseValue, SplitAt;
    SplitStopsEarly(s[1..], '=');
  }

  lemma KeysFreeStep(f: Field, others: seq<Field>, c: char)
    ensures KeysFreeOf([f] + others, c) <==> c !in f.key && KeysFreeOf(others, c)
  {
    if KeysFreeOf([f] + others, c) {
      assert ([f] + others)[0] == f;
      assert forall i :: 0 <= i < |others| ==> others[i] == ([f] + others)[i + 1];
    }
  }

  lemma RenderedStart(fields: seq<Field>)
    ensures RenderFields(fields) == "" || RenderFields(fields)[0] == ' '
  {
  }

  /** `ParseFields` takes a rendered field list back to the very same list exactly when no key contains `=`. */
  lemma {:induction false} FieldListDecodes(fields: seq<Field>)
    ensures ParseFields(RenderFields(fields)) == Some(fields) <==> KeysFreeOf(fields, '=')
  {
    if fields != [] {
      var f, others := fields[0], fields[1..];
      var s, rest := RenderFields(fields), RenderFields(others);
      assert s == RenderField(f) + rest;
      assert |RenderField(f)| > 0;
      assert [f] + others == fields;
      hide ParseFields, ParseField, RenderField, RenderFields, KeysFreeOf;
      FieldListDecodes(others);
      KeysFreeStep(f, others, '=');
      if '=' !in f.key {
        RenderedStart(others);
        FieldDecodes(f, rest);
        ParseFieldsStep(s, f, rest);
        if ParseFields(s) == Some(fields) {
          assert ([f] + ParseFields(rest).value)[1..] == fields[1..];
        }
      } else if ParseFields(s) == Some(fields) {
        ParsedKeyStops(s);
      }
    }
  }

  /** Field lists with `=`-free keys that render alike are equal. */
  lemma RenderingIsInjective(a: seq<Field>, b: seq<Field>)
    requires KeysFreeOf(a, '=') && KeysFreeOf(b, '=')
    requires RenderFields(a) == RenderFields(b)
    ensures a == b
  {
    FieldListDecodes(a);
    FieldListDecodes(b);
  }

  /** With `=` in a key even different lists can have the same text, so that no parser could tell them apart. */
  lemma EqualsInKeyIsAmbiguous()
    ensures RenderFields([Field("a=b c", "d")]) == RenderFields([Field("a", "b"), Field("c", "d")])
  {
    var joined, split := [Field("a=b c", "d")], [Field("a", "b"), Field("c", "d")];
    assert RenderFields(joined) == " a=b c=d" by {
      assert joined[1..] == [] && RenderFields(joined[1..]) == "";
    }
    assert RenderFields(split) == " a=b" + " c=d" by {
      assert split[1..] == [Field("c", "d")] && split[1..][1..] == [];
    }
  }

  lemma EscapeIsInjective(v: string, w: string)
    requires Escaped(v) == Escaped(w)
    ensures v == w
  {
    ValueDecodes(v, "");
    ValueDecodes(w, "");
  }

  predicate OnOneLine(text: string) {
    forall k :: 0 <= k < |text| ==> text[k] >= ' '
  }

  /** An escaped value stays on its line, and is at most four times as long plus the quotes. */
  lemma EscapedStaysOnLine(value: string)
    ensures OnOneLine(Escaped(value))
    ensures |Escaped(value)| <= 4 * |value| + 2
    ensures Escaped(value) == value || |value| + 2 <= |Escaped(value)|
  {
    EscapeAllStaysOnLine(value);
    if !NeedsQuoting(value) {
      assert forall k :: 0 <= k < |value| ==> !IsSpecial(value[k]);
    }
  }

  lemma {:induction false} EscapeAllStaysOnLine(value: string)
    ensures OnOneLine(EscapeAll(value))
    ensures |value| <= |EscapeAll(value)| <= 4 * |value|
  {
    if value != "" {
      hide EscapeChar;
      EscapeAllStaysOnLine(value[1..]);
      EscapeCharStaysOnLine(value[0]);
    }
  }

  lemma EscapeCharStaysOnLine(c: char)
    ensures OnOneLine(EscapeChar(c)) && 1 <= |EscapeChar(c)| <= 4
  {
    if c < ' ' {
      var hi, lo := c as int / 16, c as int % 16;
      assert HEX_DIGITS[hi] >= ' ' && HEX_DIGITS[lo] >= ' ';
    }
  }

  // Quotes are used only where they are needed, and escapes are as short as they can be.

  /** A value is written as it is exactly when none of its characters is a control, a space or one of three others. */
  lemma PlainExactly(value: string)
    ensures Escaped(value) == value <==>
      forall k :: 0 <= k < |value| ==> value[k] >= ' ' && value[k] !in {' ', '=', '"', '\\'}
  {
    EscapeAllStaysOnLine(value);
    if NeedsQuoting(value) {
      var k :| 0 <= k < |value| && IsSpecial(value[k]);
      assert !(value[k] >= ' ' && value[k] !in {' ', '=', '"', '\\'});
    } else {
      assert forall k :: 0 <= k < |value| ==> !IsSpecial(value[k]);
    }
  }

  /** What of a text lies outside the quotes that open behind an equals sign. */
  function Outside(s: string): string
    decreases |s|
  {
    if s == "" then ""
    else if |s| > 1 && s[0] == '=' && s[1] == '"' then
      var quoted := ParseQuoted(s[2..]);
      if quoted.None? || |quoted.value.rest| >= |s| then "=" else "=" + Outside(quoted.value.rest)
    else [s[0]] + Outside(s[1..])
  }

  /** The part of a field that is not in quotes. */
  function Unquoted(f: Field): string {
    " " + f.key + "=" + if NeedsQuoting(f.value) then "" else f.value
  }

  lemma {:induction false} PlainTextIsOutside(text: string, rest: string)
    requires forall k :: 0 <= k < |text| ==> text[k] != '='
    ensures Outside(text + rest) == text + Outside(rest)
  {
    if text == "" {
      assert text + rest == rest;
    } else {
      assert (text + rest)[1..] == text[1..] + rest;
      PlainTextIsOutside(text[1..], rest);
    }
  }

  lemma QuotedIsInside(body: string, p: Parsed)
    requires ParseQuoted(body) == Some(p) && |p.rest| <= |body|
    ensures Outside("=\"" + body) == "=" + Outside(p.rest)
  {
    hide ParseQuoted;
    assert ("=\"" + body)[2..] == body;
  }

  lemma PlainEqualsIsOutside(text: string)
    requires text == "" || text[0] != '"'
    ensures Outside("=" + text) == "=" + Outside(text)
  {
    hide ParseQuoted;
    assert ("=" + text)[1..] == text;
  }

  lemma ValueOutside(value: string, rest: string)
    requires rest == "" || rest[0] == ' '
    ensures Outside("=" + (Escaped(value) + rest)) == "=" + (if NeedsQuoting(value) then "" else value) + Outside(rest)
  {
    hide NeedsQuoting, ParseQuoted, EscapeAll, Outside;
    if NeedsQuoting(value) {
      var body := EscapeAll(value) + "\"" + rest;
      assert "=" + (Escaped(value) + rest) == "=\"" + body;
      QuotedDecodes(value, rest);
      QuotedIsInside(body, Parsed(value, rest));
      assert "=" + "" + Outside(rest) == "=" + Outside(rest);
    } else {
      PlainHasNoSpace(value);
      PlainEqualsIsOutside(value + rest);
      PlainTextIsOutside(value, rest);
      assert "=" + value + Outside(rest) == "=" + (value + Outside(rest));
    }
  }

  lemma FieldOutside(f: Field, rest: string)
    requires '=' !in f.key
    requires rest == "" || rest[0] == ' '
    ensures Outside(RenderField(f) + rest) == Unquoted(f) + Outside(rest)
  {
    hide NeedsQuoting, Escaped, Outside;
    var start, value := " " + f.key, "=" + (Escaped(f.value) + rest);
    assert RenderField(f) + rest == start + value;
    PlainTextIsOutside(start, value);
    ValueOutside(f.value, rest);
    var plain := if NeedsQuoting(f.value) then "" else f.value;
    assert start + ("=" + plain + Outside(rest)) == Unquoted(f) + Outside(rest);
  }

  /** How many spaces the keys of a list contain. */
  function KeySpaces(fields: seq<Field>): nat {
    if fields == [] then 0 else multiset(fields[0].key)[' '] + KeySpaces(fields[1..])
  }

  lemma UnquotedCounts(f: Field)
    requires '=' !in f.key
    ensures multiset(Unquoted(f))['='] == 1
    ensures multiset(Unquoted(f))[' '] == 1 + multiset(f.key)[' ']
  {
    if !NeedsQuoting(f.value) {
      PlainHasNoSpace(f.value);
    }
  }

  /**
    In a rendered list whose keys are free of `=`, every `=` outside quotes is the separator of a field, and every space
    outside quotes starts one or belongs to a key.
   */
  lemma {:induction false} SeparatorsAreOutside(fields: seq<Field>)
    requires KeysFreeOf(fields, '=')
    ensures multiset(Outside(RenderFields(fields)))['='] == |fields|
    ensures multiset(Outside(RenderFields(fields)))[' '] == |fields| + KeySpaces(fields)
  {
    if fields != [] {
      hide Outside, RenderField, Unquoted;
      var f, others := fields[0], fields[1..];
      assert [f] + others == fields;
      KeysFreeStep(f, others, '=');
      SeparatorsAreOutside(others);
      RenderedStart(others);
      FieldOutside(f, RenderFields(others));
      UnquotedCounts(f);
    }
  }

  /** No text on one line that decodes to a value is shorter than the value's escaped form. */
  lemma {:induction false} EscapeIsShortest(s: string)
    requires OnOneLine(s) && ParseQuoted(s).Some?
    ensures var p := ParseQuoted(s).value; |EscapeAll(p.text)| + 1 + |p.rest| <= |s|
    decreases |s|
  {
    if s[0] != '"' {
      var taken := FirstEscapeIsShortest(s);
      EscapeIsShortest(s[taken..]);
      var c, others := ParseQuoted(s).value.text[0], ParseQuoted(s[taken..]).value.text;
      hide ParseQuoted, EscapeChar;
      assert ([c] + others)[1..] == others;
    }
  }

  /** How many characters of a quoted text the parser takes for the first character of its value. */
  lemma FirstEscapeIsShortest(s: string) returns (taken: nat)
    requires OnOneLine(s) && ParseQuoted(s).Some? && s[0] != '"'
    ensures 1 <= taken <= |s| && ParseQuoted(s[taken..]).Some?
    ensures var p, others := ParseQuoted(s).value, ParseQuoted(s[taken..]).value;
            && p.text != [] && p.text == [p.text[0]] + others.text && p.rest == others.rest
            && |EscapeChar(p.text[0])| <= taken
    ensures OnOneLine(s[taken..])
  {
    taken := if s[0] != '\\' then 1 else if s[1] == 'x' then 4 else 2;
  }

  /** Hex escapes are in lower case: escaping adds no capital letter. */
  lemma {:induction false} EscapeAddsNoCapitals(value: string, c: char)
    requires 'A' <= c <= 'Z'
    ensures multiset(EscapeAll(value))[c] == multiset(value)[c]
  {
    if value != "" {
      hide EscapeChar;
      EscapeAddsNoCapitals(value[1..], c);
      assert value == [value[0]] + value[1..];
      EscapeCharAddsNoCapitals(value[0], c);
    }
  }

  lemma EscapeCharAddsNoCapitals(d: char, c: char)
    requires 'A' <= c <= 'Z'
    ensures multiset(EscapeChar(d))[c] == if d == c then 1 else 0
  {
    if d == '"' {
      CountTwo('\\', '"', c);
    } else if d == '\\' {
      CountTwo('\\', '\\', c);
    } else if d == '\n' {
      CountTwo('\\', 'n', c);
    } else if d == '\r' {
      CountTwo('\\', 'r', c);
    } else if d == '\t' {
      CountTwo('\\', 't', c);
    } else if d < ' ' {
      var hi, lo := d as int / 16, d as int % 16;
      NoCapitalDigit(hi, c);
      NoCapitalDigit(lo, c);
      CountTwo('\\', 'x', c);
      CountTwo(HEX_DIGITS[hi], HEX_DIGITS[lo], c);
      assert EscapeChar(d) == ['\\', 'x'] + [HEX_DIGITS[hi], HEX_DIGITS[lo]];
    }
  }

  lemma CountTwo(a: char, b: char, c: char)
    requires a != c && b != c
    ensures multiset([a, b])[c] == 0
  {
  }

  lemma NoCapitalDigit(n: nibble, c: char)
    requires 'A' <= c <= 'Z'
    ensures HEX_DIGITS[n] != c
  {
  }
}
