/** The stdio logger: one line of text for each record, built in a reused buffer and routed to one of two streams. */
module StdioLogger {
  import opened Common
  import opened EscapeValue

  /** The enumeration's values in declaration order; casts admit others, which the code treats as information. */
  const TRACE: int := 0
  const DEBUG: int := 1
  const INFO: int := 2
  const WARN: int := 3
  const ERROR: int := 4

  const NEWLINE: string := "\n"
  const RESET: string := "\U{1B}[0m"

  datatype ColorMode = Auto | Always | Never

  /** What the clock, the process environment and the terminal say during one call. */
  datatype Surroundings = Surroundings(timestamp: string, noColor: bool, forceColor: bool, isTerminal: bool)

  datatype Call = Call(level: int, message: string, fields: seq<Field>, around: Surroundings)

  /** The settings of a logger; `S` identifies streams. A logger that was moved from has no streams. */
  datatype Settings<S> = Settings(color: ColorMode, err: Option<S>, minLevel: Option<int>, out: Option<S>)

  function AnsiSequence(level: int): string {
    if level == TRACE then "\U{1B}[2m"
    else if level == DEBUG then "\U{1B}[36m"
    else if level == INFO then "\U{1B}[32m"
    else if level == WARN then "\U{1B}[33m"
    else if level == ERROR then "\U{1B}[31m"
    else ""
  }

  function LevelLabel(level: int): string {
    if level == TRACE then "TRACE"
    else if level == DEBUG then "DEBUG"
    else if level == WARN then "WARN "
    else if level == ERROR then "ERROR"
    else "INFO "
  }

  predicate ShouldColorize(mode: ColorMode, around: Surroundings) {
    mode == Always || (mode == Auto && !around.noColor && (around.forceColor || around.isTerminal))
  }

  predicate IsBelow(level: int, minLevel: Option<int>) {
    minLevel.Some? && level < minLevel.value
  }

  /** A level passes if there is no minimum or it is at least the minimum. */
  predicate Passes(minLevel: Option<int>, level: int) {
    match minLevel
    case None => true
    case Some(minimum) => minimum <= level
  }

  /** The stream that a record goes to, if it is not dropped. */
  function Destination<S>(settings: Settings<S>, level: int): Option<S> {
    if IsBelow(level, settings.minLevel) then None
    else if level == WARN || level == ERROR then settings.err
    else settings.out
  }

  function Bracketed(level: int): string {
    "[" + LevelLabel(level) + "]"
  }

  function LevelToken(level: int, color: bool): string {
    if color then AnsiSequence(level) + Bracketed(level) + RESET else Bracketed(level)
  }

  /** The text of a record before its fields. */
  function Head(call: Call, color: bool): string {
    call.around.timestamp + " " + LevelToken(call.level, color) + " " + call.message
  }

  /** A record's line, without its newline. */
  function Render(call: Call, color: bool): string {
    Head(call, color) + RenderFields(call.fields)
  }

  class Stream {
    var text: string

    constructor ()
      ensures text == ""
    {
      text := "";
    }
  }

  class Logger {
    var color: ColorMode
    var err: Stream?
    var minLevel: Option<int>
    var out: Stream?
    var record: string

    /** Streams that the options leave null default to the process's own. */
    constructor (mode: ColorMode, out: Stream?, err: Stream?, minLevel: Option<int>, cout: Stream, cerr: Stream)
      ensures this.color == mode && this.minLevel == minLevel && record == ""
      ensures this.out == (if out == null then cout else out) && this.err == (if err == null then cerr else err)
    {
      this.color := mode;
      this.minLevel := minLevel;
      this.out := if out == null then cout else out;
      this.err := if err == null then cerr else err;
      record := "";
    }

    constructor Move(other: Logger)
      modifies other`err, other`out
      ensures Current() == old(other.Current()) && record == ""
      ensures other.Current() == old(other.Current()).(err := None, out := None)
    {
      this.color := other.color;
      this.err := other.err;
      this.minLevel := other.minLevel;
      this.out := other.out;
      this.record := "";
      new;
      other.err := null;
      other.out := null;
    }

    ghost function Current(): Settings<Stream>
      reads this
    {
      Settings(color, AsOption(err), minLevel, AsOption(out))
    }

    method MoveAssign(other: Logger)
      modifies this, other`err, other`out
      ensures this == other ==> Current() == old(Current()) && record == old(record)
      ensures this != other ==> Current() == old(other.Current()) && record == ""
      ensures this != other ==> other.Current() == old(other.Current()).(err := None, out := None)
    {
      if this == other {
        return;
      }
      color := other.color;
      err := other.err;
      minLevel := other.minLevel;
      out := other.out;
      record := "";
      other.err := null;
      other.out := null;
    }

    method StreamForLevel(level: int) returns (stream: Stream?)
      ensures stream == (if level == WARN || level == ERROR then err else out)
    {
      if level == WARN || level == ERROR {
        return err;
      }
      return out;
    }

    /**
      Whatever the buffer held before, the line that reaches the stream depends on this call alone, and the other stream
      stays as it was; a record without destination leaves no trace. A stream that is there grows exactly if the level
      is not below the minimum and the stream is the one for it: the error stream for warnings and errors, the other
      one for everything else.
     */
    method Log(call: Call)
      modifies this`record, out, err
      ensures var to := Destination(Current(), call.level);
              && (to.None? ==> record == old(record))
              && (to.Some? ==> record == Render(call, ShouldColorize(color, call.around)))
              && (to.Some? ==> to.value.text == old(to.value.text) + record + NEWLINE)
              && (out != null && Some(out) != to ==> out.text == old(out.text))
              && (err != null && Some(err) != to ==> err.text == old(err.text))
      ensures out != null && out != err ==>
        (|out.text| > |old(out.text)| <==> Passes(minLevel, call.level) && call.level !in {WARN, ERROR})
      ensures err != null && out != err ==>
        (|err.text| > |old(err.text)| <==> Passes(minLevel, call.level) && call.level in {WARN, ERROR})
      ensures out != null && out == err ==> (|out.text| > |old(out.text)| <==> Passes(minLevel, call.level))
    {
      hide AnsiSequence, LevelLabel, RenderFields, ShouldColorize;
      if minLevel.Some? && call.level < minLevel.value {
        return;
      }
      var stream := StreamForLevel(call.level);
      if stream == null {
        return;
      }
      record := "";
      AppendHead(call, ShouldColorize(color, call.around));
      AppendFields(call.fields);
      stream.text := stream.text + record;
      stream.text := stream.text + NEWLINE;
    }

    method AppendHead(call: Call, colorize: bool)
      requires record == ""
      modifies this`record
      ensures record == Head(call, colorize)
    {
      hide AnsiSequence, LevelLabel;
      record := record + call.around.timestamp;
      record := record + " ";
      ghost var before := record;
      if colorize {
        record := record + AnsiSequence(call.level);
      }
      record := record + "[";
      record := record + LevelLabel(call.level);
      record := record + "]";
      if colorize {
        record := record + RESET;
      }
      assert record == before + LevelToken(call.level, colorize);
      record := record + " ";
      record := record + call.message;
    }

    method AppendFields(fields: seq<Field>)
      modifies this`record
      ensures record == old(record) + RenderFields(fields)
    {
      hide RenderFields, RenderField;
      RenderNone();
      for i := 0 to |fields|
        invariant record == old(record) + RenderFields(fields[..i])
      {
        AppendField(fields[i]);
        RenderOneMore(fields[..i], fields[i]);
        assert fields[..i + 1] == fields[..i] + [fields[i]];
      }
      assert fields[..|fields|] == fields;
    }

    method AppendField(field: Field)
      modifies this`record
      ensures record == old(record) + RenderField(field)
    {
      hide Escaped;
      record := record + " ";
      record := record + field.key;
      record := record + "=";
      var value := EscapeToText(field.value);
      record := record + value;
    }
  }

  lemma RenderNone()
    ensures RenderFields([]) == ""
  {
  }

  function AsOption(s: Stream?): Option<Stream> {
    if s == null then None else Some(s)
  }

  lemma {:induction false} RenderOneMore(fields: seq<Field>, f: Field)
    ensures RenderFields(fields + [f]) == RenderFields(fields) + RenderField(f)
  {
    if fields == [] {
      assert fields + [f] == [f];
      assert RenderFields([f]) == RenderField(f) + RenderFields([f][1..]);
    } else {
      hide RenderField;
      assert (fields + [f])[1..] == fields[1..] + [f];
      RenderOneMore(fields[1..], f);
    }
  }

  // What a line looks like from outside.

  /** How many newlines a text contains. */
  function Newlines(s: string): nat {
    if s == "" then 0 else Newlines(s[..|s| - 1]) + if s[|s| - 1] == '\n' then 1 else 0
  }

  lemma {:induction false} NewlinesAdd(a: string, b: string)
    ensures Newlines(a + b) == Newlines(a) + Newlines(b)
  {
    if b == "" {
      assert a + b == a;
    } else {
      var n := |b| - 1;
      assert (a + b)[..|a + b| - 1] == a + b[..n];
      NewlinesAdd(a, b[..n]);
    }
  }

  lemma {:induction false} NewlinesNone(s: string)
    ensures Newlines(s) == 0 <==> '\n' !in s
  {
    if s != "" {
      var n := |s| - 1;
      assert s == s[..n] + [s[n]];
      NewlinesNone(s[..n]);
    }
  }

  lemma OnOneLineHasNone(s: string)
    requires OnOneLine(s)
    ensures Newlines(s) == 0
  {
    NewlinesNone(s);
  }

  lemma FieldNewlines(f: Field)
    ensures Newlines(RenderField(f)) == Newlines(f.key)
  {
    hide Newlines, Escaped;
    EscapedStaysOnLine(f.value);
    OnOneLineHasNone(Escaped(f.value));
    OnOneLineHasNone(" ");
    OnOneLineHasNone("=");
    NewlinesAdd(" " + f.key + "=", Escaped(f.value));
    NewlinesAdd(" " + f.key, "=");
    NewlinesAdd(" ", f.key);
  }

  lemma {:induction false} FieldsNewlines(fields: seq<Field>)
    ensures Newlines(RenderFields(fields)) == 0 <==> KeysFreeOf(fields, '\n')
  {
    if fields != [] {
      hide Newlines, RenderField;
      var f, others := fields[0], fields[1..];
      FieldsNewlines(others);
      NewlinesAdd(RenderField(f), RenderFields(others));
      FieldNewlines(f);
      NewlinesNone(f.key);
      assert fields == [f] + others;
    }
  }

  lemma TokenNewlines(level: int, color: bool)
    ensures Newlines(LevelToken(level, color)) == 0
  {
    hide Newlines;
    OnOneLineHasNone(Bracketed(level));
    if color {
      NewlinesNone(AnsiSequence(level));
      NewlinesNone(RESET);
      NewlinesAdd(AnsiSequence(level), Bracketed(level));
      NewlinesAdd(AnsiSequence(level) + Bracketed(level), RESET);
    }
  }

  lemma HeadNewlines(call: Call, color: bool)
    ensures Newlines(Head(call, color)) == Newlines(call.around.timestamp) + Newlines(call.message)
  {
    hide Newlines, LevelToken;
    var t, token := call.around.timestamp, LevelToken(call.level, color);
    TokenNewlines(call.level, color);
    OnOneLineHasNone(" ");
    NewlinesAdd(t, " ");
    NewlinesAdd(t + " ", token);
    NewlinesAdd(t + " " + token, " ");
    NewlinesAdd(t + " " + token + " ", call.message);
  }

  /**
    Everything that a record's values contain stays on its line; only the message, a key or the timestamp can break it.
   */
  predicate IsSingleLine(call: Call) {
    '\n' !in call.around.timestamp && '\n' !in call.message && KeysFreeOf(call.fields, '\n')
  }

  lemma LineBreaksExactly(call: Call, color: bool)
    ensures '\n' !in Render(call, color) <==> IsSingleLine(call)
    ensures Newlines(Render(call, color) + NEWLINE) == 1 <==> IsSingleLine(call)
  {
    hide Newlines, Head;
    HeadNewlines(call, color);
    FieldsNewlines(call.fields);
    NewlinesAdd(Head(call, color), RenderFields(call.fields));
    NewlinesNone(call.around.timestamp);
    NewlinesNone(call.message);
    NewlinesNone(Render(call, color));
    NewlinesAdd(Render(call, color), NEWLINE);
    assert Newlines(NEWLINE) == 1 by {
      OneNewline();
    }
  }

  lemma OneNewline()
    ensures Newlines(NEWLINE) == 1
  {
    assert NEWLINE[..0] == "";
  }

  /** For example: a message of two lines, of which the second could pass for a record of its own. */
  lemma MessageCanBreakLine(level: int, around: Surroundings, color: bool)
    ensures var call := Call(level, "ready\nfailed", [], around);
            '\n' in Render(call, color) && Newlines(Render(call, color) + NEWLINE) != 1
  {
    var call := Call(level, "ready\nfailed", [], around);
    assert call.message[5] == '\n';
    LineBreaksExactly(call, color);
  }

  /** After its head, a line gives back the record's fields exactly when their keys are free of `=`. */
  lemma LineCarriesFields(call: Call, color: bool)
    ensures var head := |Head(call, color)|;
            && Render(call, color)[..head] == Head(call, color)
            && (ParseFields(Render(call, color)[head..]) == Some(call.fields) <==> KeysFreeOf(call.fields, '='))
  {
    hide ParseFields, RenderFields, Head;
    FieldListDecodes(call.fields);
    assert Render(call, color)[|Head(call, color)|..] == RenderFields(call.fields);
  }

  // Reading a line back.

  const ESCAPE: string := "\U{1B}["

  /** The names of the levels and the parameters of their colours, in declaration order. */
  const LEVEL_NAMES: seq<string> := ["TRACE", "DEBUG", "INFO", "WARN", "ERROR"]
  const LEVEL_COLORS: seq<string> := ["2", "36", "32", "33", "31"]

  const LABEL_WIDTH := 5

  /** A name with blanks up to the width of a label. */
  function Label(name: string): (padded: string)
    requires |name| <= LABEL_WIDTH
    ensures |padded| == LABEL_WIDTH
  {
    name + seq(LABEL_WIDTH - |name|, _ => ' ')
  }

  /** Values outside the enumeration are named like information and have no colour of their own. */
  function NameOf(level: int): (name: string)
    ensures |name| <= LABEL_WIDTH
  {
    LEVEL_NAMES[if TRACE <= level <= ERROR then level else INFO]
  }

  function ColorOf(level: int): string {
    if TRACE <= level <= ERROR then LEVEL_COLORS[level] else ""
  }

  /** A line taken apart: `color` is the parameter of the sequence in front of the label, empty if there is none. */
  datatype Line = Line(timestamp: string, color: string, tag: string, reset: bool, text: string)

  function ParseColor(s: string): Parsed {
    if ESCAPE <= s then
      var p := SplitAt(s[|ESCAPE|..], 'm');
      if p.rest == "" then Parsed("", s) else Parsed(p.text, p.rest[1..])
    else Parsed("", s)
  }

  /** Reads a label in brackets, whether its colour is reset behind it, and the text behind the next space. */
  function ParseToken(timestamp: string, color: string, s: string): Option<Line> {
    if |s| < LABEL_WIDTH + 2 || s[0] != '[' || s[LABEL_WIDTH + 1] != ']' then None
    else
      var tail := s[LABEL_WIDTH + 2..];
      var reset := ESCAPE + "0m" <= tail;
      var text := if reset then tail[4..] else tail;
      if text == "" || text[0] != ' ' then None
      else Some(Line(timestamp, color, s[1..LABEL_WIDTH + 1], reset, text[1..]))
  }

  function ParseLine(s: string): Option<Line> {
    var t := SplitAt(s, ' ');
    if t.rest == "" then None
    else
      var color := ParseColor(t.rest[1..]);
      ParseToken(t.text, color.text, color.rest)
  }

  /** Whether a line is coloured: always, never, or as the environment says and, if it says nothing, the terminal. */
  predicate IsColored(mode: ColorMode, around: Surroundings) {
    match mode
    case Always => true
    case Never => false
    case Auto =>
      if around.noColor then false
      else if around.forceColor then true
      else around.isTerminal
  }

  /** What a call's line should take apart to. */
  function LineFor(call: Call, color: bool): Line {
    Line(call.around.timestamp, if color then ColorOf(call.level) else "", Label(NameOf(call.level)), color,
      call.message + RenderFields(call.fields))
  }

  lemma LabelIsName(level: int)
    ensures LevelLabel(level) == Label(NameOf(level))
  {
  }

  lemma TokenParses(timestamp: string, code: string, level: int, color: bool, text: string)
    ensures ParseToken(timestamp, code, Bracketed(level) + (if color then RESET else "") + " " + text) ==
      Some(Line(timestamp, code, Label(NameOf(level)), color, text))
  {
    hide LevelLabel, NameOf;
    LabelIsName(level);
    var s := Bracketed(level) + (if color then RESET else "") + " " + text;
    assert s[1..LABEL_WIDTH + 1] == LevelLabel(level);
    var tail := (if color then RESET else "") + " " + text;
    assert s == Bracketed(level) + tail;
    assert s[LABEL_WIDTH + 2..] == tail;
    if color {
      assert tail[4..] == " " + text;
    } else {
      assert tail == " " + text && tail[0] != (ESCAPE + "0m")[0];
    }
  }

  lemma NoColorParses(s: string)
    requires s != "" && s[0] == '['
    ensures ParseColor(s) == Parsed("", s)
  {
  }

  lemma SequenceIsColor(level: int)
    requires TRACE <= level <= ERROR
    ensures AnsiSequence(level) == ESCAPE + ColorOf(level) + "m" && 'm' !in ColorOf(level)
  {
  }

  lemma ColorParses(level: int, rest: string)
    requires rest != "" && rest[0] == '['
    ensures ParseColor(AnsiSequence(level) + rest) == Parsed(ColorOf(level), rest)
  {
    if TRACE <= level <= ERROR {
      SequenceIsColor(level);
      hide AnsiSequence, ColorOf, SplitAt;
      var code := ColorOf(level);
      var s := AnsiSequence(level) + rest;
      assert s[|ESCAPE|..] == code + ("m" + rest);
      SplitFinds(code, "m" + rest, 'm');
      assert ("m" + rest)[1..] == rest;
    } else {
      assert AnsiSequence(level) + rest == rest;
      NoColorParses(rest);
    }
  }

  /**
    A line takes apart into the timestamp, the level's colour if lines are coloured, its label, and the message with the
    fields, exactly if the timestamp has no space; and whether it is coloured is as the mode and the surroundings say.
   */
  lemma LineDecodes(call: Call, mode: ColorMode)
    ensures var line := Some(LineFor(call, IsColored(mode, call.around)));
            ParseLine(Render(call, ShouldColorize(mode, call.around))) == line <==> ' ' !in call.around.timestamp
  {
    hide AnsiSequence, LevelLabel, NameOf, ColorOf, RenderFields, ParseToken, ParseColor;
    var color := ShouldColorize(mode, call.around);
    assert color == IsColored(mode, call.around);
    var s, text := Render(call, color), call.message + RenderFields(call.fields);
    if ' ' !in call.around.timestamp {
      var bracketed := Bracketed(call.level) + (if color then RESET else "") + " " + text;
      var painted := (if color then AnsiSequence(call.level) else "") + bracketed;
      assert s == call.around.timestamp + (" " + painted);
      SplitFinds(call.around.timestamp, " " + painted, ' ');
      assert (" " + painted)[1..] == painted;
      TokenParses(call.around.timestamp, if color then ColorOf(call.level) else "", call.level, color, text);
      if color {
        ColorParses(call.level, bracketed);
      } else {
        assert painted == bracketed;
        NoColorParses(bracketed);
      }
    } else {
      SplitStopsEarly(s, ' ');
      ParsedTimestamp(s);
    }
  }

  lemma ParsedTimestamp(s: string)
    ensures ParseLine(s).Some? ==> ParseLine(s).value.timestamp == SplitAt(s, ' ').text
  {
    hide ParseColor;
  }
}
