/**
  Any number of threads logging through one stdio logger. A call is split into the steps between which other threads
  may run: taking the mutex, routing, clearing the shared buffer, every single append to it, writing it to the stream,
  writing the newline, and releasing the mutex. Moves of the logger happen under the same mutex.
 */
module ConcurrentLogging {
  import opened Common
  import opened EscapeValue
  import opened StdioLogger

  type StreamId = nat

  datatype Phase =
    | Idle
    | Routing
    | Clearing(to: StreamId)
    | Appending(to: StreamId, pieces: seq<string>)
    | Writing(to: StreamId)
    | EndingLine(to: StreamId)
    | Leaving

  /** The calls that a thread has yet to finish, the first of which is under way unless the thread is idle. */
  datatype Thread = Thread(pending: seq<Call>, phase: Phase)

  /** A finished call, and the settings that it met. */
  datatype Entry = Entry(thread: nat, call: Call, settings: Settings<StreamId>)

  datatype State = State(
    settings: Settings<StreamId>,
    record: string,
    holder: Option<nat>,
    streams: map<StreamId, string>,
    threads: seq<Thread>,
    history: seq<Entry>)

  datatype Step =
    | Advance(thread: nat)
    /** Another logger takes this logger's streams. */
    | MoveFrom
    /** This logger takes another logger's settings; its buffer is cleared. */
    | MoveInto(settings: Settings<StreamId>)

  /** The appends of a call, in the order in which the code makes them. */
  function Pieces(call: Call, color: bool): seq<string> {
    [call.around.timestamp, " "]
    + (if color then [AnsiSequence(call.level)] else [])
    + ["[", LevelLabel(call.level), "]"]
    + (if color then [RESET] else [])
    + [" ", call.message]
    + FieldPieces(call.fields)
  }

  function FieldPieces(fields: seq<Field>): seq<string> {
    if fields == [] then []
    else [" ", fields[0].key, "=", Escaped(fields[0].value)] + FieldPieces(fields[1..])
  }

  function Text(streams: map<StreamId, string>, s: StreamId): string {
    if s in streams then streams[s] else ""
  }

  function Append(streams: map<StreamId, string>, s: StreamId, text: string): map<StreamId, string> {
    streams[s := Text(streams, s) + text]
  }

  predicate Enabled(w: State, step: Step) {
    match step
    case Advance(t) =>
      t < |w.threads| &&
      (if w.threads[t].phase.Idle? then w.threads[t].pending != [] && w.holder.None? else w.threads[t].pending != [])
    case _ => w.holder.None?
  }

  function Goto(w: State, t: nat, phase: Phase): State
    requires t < |w.threads|
  {
    w.(threads := w.threads[t := w.threads[t].(phase := phase)])
  }

  function AdvanceThread(w: State, t: nat): State
    requires Enabled(w, Advance(t))
  {
    var call := w.threads[t].pending[0];
    match w.threads[t].phase
    case Idle => Goto(w.(holder := Some(t)), t, Routing)
    case Routing =>
      (match Destination(w.settings, call.level)
       case None => Goto(w, t, Leaving)
       case Some(to) => Goto(w, t, Clearing(to)))
    case Clearing(to) => Goto(w.(record := ""), t,
      Appending(to, Pieces(call, ShouldColorize(w.settings.color, call.around))))
    case Appending(to, pieces) =>
      if pieces == [] then Goto(w, t, Writing(to))
        else Goto(w.(record := w.record + pieces[0]), t, Appending(to, pieces[1..]))
    case Writing(to) => Goto(w.(streams := Append(w.streams, to, w.record)), t, EndingLine(to))
    case EndingLine(to) => Goto(w.(streams := Append(w.streams, to, NEWLINE)), t, Leaving)
    case Leaving =>
      w.(holder := None,
         threads := w.threads[t := Thread(w.threads[t].pending[1..], Idle)],
         history := w.history + [Entry(t, call, w.settings)])
  }

  function Next(w: State, step: Step): State
    requires Enabled(w, step)
  {
    match step
    case Advance(t) => AdvanceThread(w, t)
    case MoveFrom => w.(settings := w.settings.(err := None, out := None))
    case MoveInto(settings) => w.(settings := settings, record := "")
  }

  // What a history should have written.

  function LineOf(e: Entry): string {
    Render(e.call, ShouldColorize(e.settings.color, e.call.around))
  }

  /** What one finished call adds to a stream: a whole line, or nothing. */
  function Emitted(e: Entry, s: StreamId): string {
    if Destination(e.settings, e.call.level) == Some(s) then LineOf(e) + NEWLINE else ""
  }

  function AllEmitted(history: seq<Entry>, s: StreamId): string {
    if history == [] then "" else AllEmitted(history[..|history| - 1], s) + Emitted(history[|history| - 1], s)
  }

  function CallsOf(history: seq<Entry>, t: nat): seq<Call> {
    if history == [] then []
    else
      var n := |history| - 1;
      CallsOf(history[..n], t) + if history[n].thread == t then [history[n].call] else []
  }

  function Concat(pieces: seq<string>): string {
    if pieces == [] then "" else pieces[0] + Concat(pieces[1..])
  }

  lemma {:induction false} ConcatAdds(a: seq<string>, b: seq<string>)
    ensures Concat(a + b) == Concat(a) + Concat(b)
  {
    if a == [] {
      assert a + b == b;
    } else {
      assert (a + b)[1..] == a[1..] + b;
      ConcatAdds(a[1..], b);
    }
  }

  lemma {:induction false} FieldPiecesRender(fields: seq<Field>)
    ensures Concat(FieldPieces(fields)) == RenderFields(fields)
  {
    if fields != [] {
      hide Escaped;
      var f := fields[0];
      var first := [" ", f.key, "=", Escaped(f.value)];
      FieldPiecesRender(fields[1..]);
      ConcatAdds(first, FieldPieces(fields[1..]));
      ConcatFour(" ", f.key, "=", Escaped(f.value));
    }
  }

  lemma ConcatOne(a: string)
    ensures Concat([a]) == a
  {
    assert [a][1..] == [];
  }

  lemma ConcatThree(a: string, b: string, c: string)
    ensures Concat([a, b, c]) == a + b + c
  {
    ConcatOne(a);
    ConcatOne(b);
    ConcatOne(c);
    ConcatAdds([a], [b]);
    ConcatAdds([a, b], [c]);
    assert [a] + [b] == [a, b] && [a, b] + [c] == [a, b, c];
  }

  lemma ConcatFour(a: string, b: string, c: string, d: string)
    ensures Concat([a, b, c, d]) == a + b + c + d
  {
    ConcatThree(a, b, c);
    ConcatOne(d);
    ConcatAdds([a, b, c], [d]);
    assert [a, b, c] + [d] == [a, b, c, d];
  }

  lemma ConcatTwo(a: string, b: string)
    ensures Concat([a, b]) == a + b
  {
    ConcatOne(a);
    ConcatOne(b);
    ConcatAdds([a], [b]);
    assert [a] + [b] == [a, b];
  }

  /** The appends of a call, one after the other, make up its line. */
  lemma PiecesRender(call: Call, color: bool)
    ensures Concat(Pieces(call, color)) == Render(call, color)
  {
    hide Concat, FieldPieces, RenderFields, AnsiSequence, LevelLabel;
    var start := [call.around.timestamp, " "];
    var paint := if color then [AnsiSequence(call.level)] else [];
    var tag := ["[", LevelLabel(call.level), "]"];
    var unpaint := if color then [RESET] else [];
    var text := [" ", call.message];
    ConcatNone();
    ConcatTwo(call.around.timestamp, " ");
    ConcatOne(AnsiSequence(call.level));
    ConcatThree("[", LevelLabel(call.level), "]");
    ConcatOne(RESET);
    ConcatTwo(" ", call.message);
    ConcatAdds(start, paint);
    ConcatAdds(start + paint, tag);
    ConcatAdds(start + paint + tag, unpaint);
    ConcatAdds(start + paint + tag + unpaint, text);
    ConcatAdds(start + paint + tag + unpaint + text, FieldPieces(call.fields));
    FieldPiecesRender(call.fields);
  }

  lemma ConcatNone()
    ensures Concat([]) == ""
  {
  }

  // The invariant.

  /** The entry that the thread in the critical section will leave behind. */
  function Upcoming(w: State, t: nat): Entry
    requires t < |w.threads| && w.threads[t].pending != []
  {
    Entry(t, w.threads[t].pending[0], w.settings)
  }

  /** How much of its line the thread in the critical section has written to a stream. */
  function Partial(phase: Phase, e: Entry, s: StreamId): string {
    match phase
    case EndingLine(to) => if s == to then LineOf(e) else ""
    case Leaving => Emitted(e, s)
    case _ => ""
  }

  /** Inside the critical section, the buffer and what is left to append make up the thread's own line. */
  predicate IsOnTrack(w: State, phase: Phase, e: Entry) {
    match phase
    case Idle => false
    case Routing => true
    case Clearing(to) => Destination(w.settings, e.call.level) == Some(to)
    case Appending(to, pieces) =>
      Destination(w.settings, e.call.level) == Some(to) && w.record + Concat(pieces) == LineOf(e)
    case Writing(to) => Destination(w.settings, e.call.level) == Some(to) && w.record == LineOf(e)
    case EndingLine(to) => Destination(w.settings, e.call.level) == Some(to)
    case Leaving => true
  }

  predicate MutexHolds(w: State) {
    && (forall t :: 0 <= t < |w.threads| && !w.threads[t].phase.Idle? ==>
      w.holder == Some(t) && w.threads[t].pending != [])
    && (w.holder.Some? ==>
          && w.holder.value < |w.threads| && w.threads[w.holder.value].pending != []
          && IsOnTrack(w, w.threads[w.holder.value].phase, Upcoming(w, w.holder.value)))
  }

  function InProgress(w: State, s: StreamId): string
    requires MutexHolds(w)
  {
    if w.holder.None? then "" else Partial(w.threads[w.holder.value].phase, Upcoming(w, w.holder.value), s)
  }

  ghost predicate StreamsMatch(w: State, initial: map<StreamId, string>)
    requires MutexHolds(w)
  {
    forall s: StreamId :: Text(w.streams, s) == Text(initial, s) + AllEmitted(w.history, s) + InProgress(w, s)
  }

  predicate ProgramsMatch(w: State, programs: seq<seq<Call>>) {
    && |w.threads| == |programs|
    && forall t :: 0 <= t < |programs| ==> CallsOf(w.history, t) + w.threads[t].pending == programs[t]
  }

  ghost predicate Invariant(w: State, initial: map<StreamId, string>, programs: seq<seq<Call>>) {
    MutexHolds(w) && StreamsMatch(w, initial) && ProgramsMatch(w, programs)
  }

  lemma ConcatStep(pieces: seq<string>)
    requires pieces != []
    ensures Concat(pieces) == pieces[0] + Concat(pieces[1..])
  {
  }

  lemma StaysOnTrack(w: State, t: nat)
    requires MutexHolds(w) && Enabled(w, Advance(t)) && !w.threads[t].phase.Leaving?
    ensures var u := Next(w, Advance(t)); IsOnTrack(u, u.threads[t].phase, Upcoming(w, t))
  {
    hide Concat, Pieces, Render, Destination, ShouldColorize;
    var call := w.threads[t].pending[0];
    match w.threads[t].phase {
      case Clearing(_) =>
        PiecesRender(call, ShouldColorize(w.settings.color, call.around));
      case Appending(_, pieces) =>
        if pieces == [] {
          ConcatNone();
        } else {
          ConcatStep(pieces);
        }
      case _ =>
    }
  }

  lemma MutexIsKept(w: State, step: Step)
    requires MutexHolds(w) && Enabled(w, step)
    ensures MutexHolds(Next(w, step))
  {
    hide IsOnTrack, Pieces, Destination, ShouldColorize, Append;
    if step.Advance? && !w.threads[step.thread].phase.Leaving? {
      StaysOnTrack(w, step.thread);
    }
  }

  lemma ProgramsAreKept(w: State, step: Step, programs: seq<seq<Call>>)
    requires MutexHolds(w) && Enabled(w, step) && ProgramsMatch(w, programs)
    ensures ProgramsMatch(Next(w, step), programs)
  {
    hide Pieces, Render, Destination, ShouldColorize, CallsOf;
    var u := Next(w, step);
    forall t | 0 <= t < |programs| ensures CallsOf(u.history, t) + u.threads[t].pending == programs[t] {
      if step.Advance? && w.threads[step.thread].phase.Leaving? {
        CallsOfOneMore(w.history, Entry(step.thread, w.threads[step.thread].pending[0], w.settings), t);
      }
    }
  }

  lemma CallsOfOneMore(history: seq<Entry>, e: Entry, t: nat)
    ensures CallsOf(history + [e], t) == CallsOf(history, t) + if e.thread == t then [e.call] else []
  {
    assert (history + [e])[..|history|] == history;
  }

  lemma AllEmittedOneMore(history: seq<Entry>, e: Entry, s: StreamId)
    ensures AllEmitted(history + [e], s) == AllEmitted(history, s) + Emitted(e, s)
  {
    assert (history + [e])[..|history|] == history;
  }

  /** What a step of the thread in the critical section writes to a stream. */
  function Written(w: State, t: nat, s: StreamId): string
    requires t < |w.threads|
  {
    match w.threads[t].phase
    case Writing(to) => if s == to then w.record else ""
    case EndingLine(to) => if s == to then NEWLINE else ""
    case _ => ""
  }

  lemma StepWrites(w: State, t: nat, s: StreamId)
    requires Enabled(w, Advance(t))
    ensures Text(Next(w, Advance(t)).streams, s) == Text(w.streams, s) + Written(w, t, s)
  {
    hide Pieces, Destination, ShouldColorize;
  }

  lemma StepOwes(w: State, t: nat, s: StreamId)
    requires MutexHolds(w) && Enabled(w, Advance(t)) && MutexHolds(Next(w, Advance(t)))
    ensures var u := Next(w, Advance(t));
            AllEmitted(u.history, s) + InProgress(u, s) ==
              AllEmitted(w.history, s) + InProgress(w, s) + Written(w, t, s)
  {
    hide Pieces, LineOf, Destination, ShouldColorize, AllEmitted, Concat, Append;
    AllEmittedOneMore(w.history, Upcoming(w, t), s);
  }

  lemma StreamIsKept(w: State, step: Step, start: string, s: StreamId)
    requires MutexHolds(w) && Enabled(w, step) && MutexHolds(Next(w, step))
    requires Text(w.streams, s) == start + AllEmitted(w.history, s) + InProgress(w, s)
    ensures var u := Next(w, step); Text(u.streams, s) == start + AllEmitted(u.history, s) + InProgress(u, s)
  {
    var u := Next(w, step);
    hide AllEmitted, MutexHolds, InProgress, Text, Written, AdvanceThread, Enabled;
    if step.Advance? {
      var emitted, progress, written := AllEmitted(w.history, s), InProgress(w, s), Written(w, step.thread, s);
      StepWrites(w, step.thread, s);
      StepOwes(w, step.thread, s);
      Regroup(start, emitted, progress);
      Regroup(start, emitted + progress, written);
      Regroup(start, AllEmitted(u.history, s), InProgress(u, s));
    } else {
      MovesOweNothing(w, step, s);
    }
  }

  lemma StreamsAreKept(w: State, step: Step, initial: map<StreamId, string>)
    requires MutexHolds(w) && Enabled(w, step) && StreamsMatch(w, initial)
    ensures MutexHolds(Next(w, step)) && StreamsMatch(Next(w, step), initial)
  {
    MutexIsKept(w, step);
    hide AllEmitted, MutexHolds, InProgress, Text, Next, Enabled;
    forall s: StreamId
      ensures var u := Next(w, step);
              Text(u.streams, s) == Text(initial, s) + AllEmitted(u.history, s) + InProgress(u, s)
    {
      StreamIsKept(w, step, Text(initial, s), s);
    }
  }

  lemma MovesOweNothing(w: State, step: Step, s: StreamId)
    requires MutexHolds(w) && Enabled(w, step) && MutexHolds(Next(w, step)) && !step.Advance?
    ensures InProgress(Next(w, step), s) == InProgress(w, s) == ""
  {
  }

  lemma Regroup(a: string, b: string, c: string)
    ensures a + b + c == a + (b + c)
  {
  }

  ghost predicate IsRun(trace: seq<State>, steps: seq<Step>) {
    && |trace| == |steps| + 1
    && forall k :: 0 <= k < |steps| ==> Enabled(trace[k], steps[k]) && trace[k + 1] == Next(trace[k], steps[k])
  }

  /** Before a run nobody is logging; the streams and the buffer hold anything. */
  predicate IsStart(w: State, programs: seq<seq<Call>>) {
    && w.holder.None? && w.history == []
    && |w.threads| == |programs|
    && forall t :: 0 <= t < |programs| ==> w.threads[t] == Thread(programs[t], Idle)
  }

  lemma {:induction false} RunsKeepInvariant(trace: seq<State>, steps: seq<Step>, programs: seq<seq<Call>>, k: nat)
    requires IsRun(trace, steps) && IsStart(trace[0], programs) && k <= |steps|
    ensures Invariant(trace[k], trace[0].streams, programs)
  {
    if k > 0 {
      RunsKeepInvariant(trace, steps, programs, k - 1);
      hide Enabled, Next, MutexHolds, StreamsMatch, ProgramsMatch;
      StreamsAreKept(trace[k - 1], steps[k - 1], trace[0].streams);
      ProgramsAreKept(trace[k - 1], steps[k - 1], programs);
    }
  }

  /**
    In every run, whenever nobody holds the mutex, every stream holds what it held at the start followed by one whole
    line for each finished call that goes there, in the order in which the calls finished; each line is a function of
    its own call and the settings it met; and every thread's finished calls are the first calls of its program, in
    order.
   */
  lemma LogsAreSerialised(trace: seq<State>, steps: seq<Step>, programs: seq<seq<Call>>, k: nat)
    requires IsRun(trace, steps) && IsStart(trace[0], programs) && k <= |steps| && trace[k].holder.None?
    ensures forall s: StreamId ::
      Text(trace[k].streams, s) == Text(trace[0].streams, s) + AllEmitted(trace[k].history, s)
    ensures |trace[k].threads| == |programs|
    ensures forall t :: 0 <= t < |programs| ==>
      CallsOf(trace[k].history, t) + trace[k].threads[t].pending == programs[t]
  {
    RunsKeepInvariant(trace, steps, programs, k);
    hide AllEmitted, CallsOf;
    forall s: StreamId ensures Text(trace[k].streams, s) ==
      Text(trace[0].streams, s) + AllEmitted(trace[k].history, s) {
      assert InProgress(trace[k], s) == "";
    }
  }

  /** Inside a critical section nothing else can happen: every other thread waits, and so does every move. */
  lemma CriticalSectionsAreExclusive(trace: seq<State>, steps: seq<Step>, programs: seq<seq<Call>>, k: nat)
    requires IsRun(trace, steps) && IsStart(trace[0], programs) && k < |steps| && trace[k].holder.Some?
    ensures steps[k] == Advance(trace[k].holder.value)
  {
    RunsKeepInvariant(trace, steps, programs, k);
    assert Enabled(trace[k], steps[k]);
  }

  // A call that nothing comes between.

  /** What a call of `StdioLogger.Logger.Log` leaves of the buffer and the streams, and that the call is finished. */
  function AfterCall(w: State, t: nat): State
    requires t < |w.threads| && w.threads[t].pending != []
  {
    var call := w.threads[t].pending[0];
    var finished := w.(
      holder := None,
      threads := w.threads[t := Thread(w.threads[t].pending[1..], Idle)],
      history := w.history + [Entry(t, call, w.settings)]);
    match Destination(w.settings, call.level)
    case None => finished
    case Some(to) =>
      var line := Render(call, ShouldColorize(w.settings.color, call.around));
      finished.(record := line, streams := w.streams[to := Text(w.streams, to) + line + NEWLINE])
  }

  /** A run in which only one thread makes steps. */
  ghost predicate IsSolo(trace: seq<State>, t: nat, first: State, last: State) {
    && trace != [] && trace[0] == first && trace[|trace| - 1] == last
    && forall k :: 0 <= k < |trace| - 1 ==> Enabled(trace[k], Advance(t)) && trace[k + 1] == Next(trace[k], Advance(t))
  }

  lemma StepThenSolo(w: State, t: nat, trace: seq<State>, last: State)
    requires Enabled(w, Advance(t)) && IsSolo(trace, t, Next(w, Advance(t)), last)
    ensures IsSolo([w] + trace, t, w, last)
  {
    hide Enabled, Next;
  }

  lemma {:induction false} AppendAlone(w: State, t: nat, to: StreamId, pieces: seq<string>) returns (trace: seq<State>)
    requires t < |w.threads| && w.threads[t].pending != [] && w.threads[t].phase == Appending(to, pieces)
    ensures IsSolo(trace, t, w, Goto(w.(record := w.record + Concat(pieces)), t, Writing(to)))
    decreases |pieces|
  {
    var u := Next(w, Advance(t));
    if pieces == [] {
      assert w.record + Concat(pieces) == w.record;
      trace := [w, u];
    } else {
      trace := AppendAlone(u, t, to, pieces[1..]);
      var last := Goto(u.(record := u.record + Concat(pieces[1..])), t, Writing(to));
      assert u.record + Concat(pieces[1..]) == w.record + Concat(pieces);
      assert last == Goto(w.(record := w.record + Concat(pieces)), t, Writing(to));
      StepThenSolo(w, t, trace, last);
      trace := [w] + trace;
    }
  }

  /** From the write of the record on. */
  lemma WriteAlone(w: State, t: nat, to: StreamId) returns (trace: seq<State>)
    requires t < |w.threads| && w.threads[t].pending != [] && w.threads[t].phase == Writing(to)
    ensures IsSolo(trace, t, w, w.(
              holder := None,
              streams := w.streams[to := Text(w.streams, to) + w.record + NEWLINE],
              threads := w.threads[t := Thread(w.threads[t].pending[1..], Idle)],
              history := w.history + [Entry(t, w.threads[t].pending[0], w.settings)]))
  {
    hide Pieces, Destination, ShouldColorize, Render;
    var u1 := Next(w, Advance(t));
    assert u1 == Goto(w.(streams := Append(w.streams, to, w.record)), t, EndingLine(to));
    var u2 := Next(u1, Advance(t));
    trace := [w, u1, u2, Next(u2, Advance(t))];
  }

  lemma SoloJoins(a: seq<State>, b: seq<State>, t: nat, first: State, middle: State, last: State)
    requires IsSolo(a, t, first, middle) && IsSolo(b, t, middle, last)
    ensures IsSolo(a + b[1..], t, first, last)
  {
    hide Enabled, Next;
  }

  /**
    A thread that is advanced from idle until it releases the mutex, and nothing else, leaves the buffer and the
    streams as one call of the logger's method does: a dropped record changes neither, any other replaces the buffer by
    its line and appends it.
   */
  lemma SoloCallIsLog(w: State, t: nat) returns (trace: seq<State>)
    requires t < |w.threads| && w.threads[t].phase.Idle? && w.threads[t].pending != [] && w.holder.None?
    ensures IsSolo(trace, t, w, AfterCall(w, t))
  {
    hide Pieces, Render, Destination, ShouldColorize, Concat;
    var call := w.threads[t].pending[0];
    var color := ShouldColorize(w.settings.color, call.around);
    var u1 := Next(w, Advance(t));
    var u2 := Next(u1, Advance(t));
    var u3 := Next(u2, Advance(t));
    if Destination(w.settings, call.level).None? {
      trace := [w, u1, u2, u3];
    } else {
      var to := Destination(w.settings, call.level).value;
      PiecesRender(call, color);
      var appending := AppendAlone(u3, t, to, Pieces(call, color));
      assert "" + Concat(Pieces(call, color)) == Render(call, color);
      var u4 := Goto(u3.(record := Render(call, color)), t, Writing(to));
      var writing := WriteAlone(u4, t, to);
      var start := [w, u1, u2, u3];
      assert IsSolo(start, t, w, u3);
      SoloJoins(start, appending, t, w, u3, u4);
      SoloJoins(start + appending[1..], writing, t, w, u4, AfterCall(w, t));
      trace := start + appending[1..] + writing[1..];
    }
  }

  // Reading a stream back.

  /** The lines of a text that ends with a newline, or the lines and an unfinished rest. */
  function Lines(text: string): seq<string>
    decreases |text|
  {
    if text == "" then []
    else
      var p := SplitAt(text, '\n');
      assert |text| == |p.text| + |p.rest|;
      if p.rest == "" then [p.text] else [p.text] + Lines(p.rest[1..])
  }

  /** The lines that a history sends to a stream. */
  function LinesOf(history: seq<Entry>, s: StreamId): seq<string> {
    if history == [] then []
    else
      (if Destination(history[0].settings, history[0].call.level) == Some(s) then [LineOf(history[0])] else [])
        + LinesOf(history[1..], s)
  }

  lemma {:induction false} AllEmittedFirst(history: seq<Entry>, s: StreamId)
    requires history != []
    ensures AllEmitted(history, s) == Emitted(history[0], s) + AllEmitted(history[1..], s)
  {
    hide AllEmitted, Emitted;
    var n := |history| - 1;
    var others, last := history[..n], history[n];
    assert history == others + [last];
    AllEmittedOneMore(others, last, s);
    NothingEmitted(s);
    if n == 0 {
      assert history[1..] == [];
    } else {
      AllEmittedFirst(others, s);
      AllEmittedOneMore(others[1..], last, s);
      assert history[1..] == others[1..] + [last];
    }
  }

  lemma NothingEmitted(s: StreamId)
    ensures AllEmitted([], s) == ""
  {
  }

  lemma FirstLine(line: string, rest: string)
    requires '\n' !in line
    ensures Lines(line + NEWLINE + rest) == [line] + Lines(rest)
  {
    var text := line + NEWLINE + rest;
    assert text == line + (NEWLINE + rest);
    SplitFinds(line, NEWLINE + rest, '\n');
    assert (NEWLINE + rest)[1..] == rest;
  }

  predicate GoesTo(e: Entry, s: StreamId) {
    Destination(e.settings, e.call.level) == Some(s)
  }

  /** Every record that a history sends to a stream is a single line. */
  ghost predicate AreSingleLines(history: seq<Entry>, s: StreamId) {
    forall i :: 0 <= i < |history| && GoesTo(history[i], s) ==> IsSingleLine(history[i].call)
  }

  lemma {:induction false} SingleLinesComeBack(history: seq<Entry>, s: StreamId)
    requires AreSingleLines(history, s)
    ensures Lines(AllEmitted(history, s)) == LinesOf(history, s)
  {
    if history != [] {
      hide Lines, AllEmitted, Render, Destination, IsSingleLine, AreSingleLines;
      var e := history[0];
      assert history == [e] + history[1..];
      SingleLinesFirst(e, history[1..], s);
      AllEmittedFirst(history, s);
      SingleLinesComeBack(history[1..], s);
      if GoesTo(e, s) {
        LineBreaksExactly(e.call, ShouldColorize(e.settings.color, e.call.around));
        FirstLine(LineOf(e), AllEmitted(history[1..], s));
      }
      assert "" + AllEmitted(history[1..], s) == AllEmitted(history[1..], s);
    } else {
      assert AllEmitted(history, s) == "";
    }
  }

  // The other direction counts newlines.

  predicate EndsInNewline(text: string) {
    text == "" || text[|text| - 1] == '\n'
  }

  /** A text of whole lines has as many lines as newlines. */
  lemma {:induction false} LinesAreCounted(text: string)
    requires EndsInNewline(text)
    ensures |Lines(text)| == Newlines(text)
    decreases |text|
  {
    if text != "" {
      hide Newlines, SplitAt;
      var p := SplitAt(text, '\n');
      SplitKeepsNewline(text);
      var rest := p.rest[1..];
      assert EndsInNewline(rest) by {
        assert rest != "" ==> rest[|rest| - 1] == text[|text| - 1];
      }
      LinesAreCounted(rest);
      NewlinesNone(p.text);
      OneNewline();
      assert p.rest == NEWLINE + rest;
      NewlinesAdd(p.text, p.rest);
      NewlinesAdd(NEWLINE, rest);
    }
  }

  lemma SplitKeepsNewline(text: string)
    requires text != "" && EndsInNewline(text)
    ensures var p := SplitAt(text, '\n');
            p.text + p.rest == text && '\n' !in p.text && p.rest != "" && p.rest[0] == '\n'
              && |p.text| + |p.rest| == |text|
  {
    var p := SplitAt(text, '\n');
    SplitStopsEarly(text, '\n');
    SplitRestStarts(text, '\n');
    assert text[|text| - 1] in p.text + p.rest;
  }

  lemma {:induction false} SplitRestStarts(text: string, stop: char)
    ensures SplitAt(text, stop).rest == "" || SplitAt(text, stop).rest[0] == stop
  {
    if text != "" && text[0] != stop {
      SplitRestStarts(text[1..], stop);
    }
  }

  lemma {:induction false} EmittedEndsInNewline(history: seq<Entry>, s: StreamId)
    ensures EndsInNewline(AllEmitted(history, s))
  {
    if history != [] {
      hide LineOf, Destination;
      var n := |history| - 1;
      EmittedEndsInNewline(history[..n], s);
    }
  }

  /** A history writes at least a newline for each record, and no more exactly if all of them are single lines. */
  lemma {:induction false} NewlinesAreCounted(history: seq<Entry>, s: StreamId)
    ensures Newlines(AllEmitted(history, s)) >= |LinesOf(history, s)|
    ensures Newlines(AllEmitted(history, s)) == |LinesOf(history, s)| <==> AreSingleLines(history, s)
  {
    if history == [] {
      assert AllEmitted(history, s) == "";
    } else {
      hide AllEmitted, Render, Destination, IsSingleLine, Newlines, GoesTo, AreSingleLines;
      var e, others := history[0], history[1..];
      AllEmittedFirst(history, s);
      NewlinesAreCounted(others, s);
      NewlinesAdd(Emitted(e, s), AllEmitted(others, s));
      EmittedNewlines(e, s);
      assert history == [e] + others;
      SingleLinesFirst(e, others, s);
    }
  }

  lemma EmittedNewlines(e: Entry, s: StreamId)
    ensures GoesTo(e, s) <==> Destination(e.settings, e.call.level) == Some(s)
    ensures !GoesTo(e, s) ==> Newlines(Emitted(e, s)) == 0
    ensures GoesTo(e, s) ==> Newlines(Emitted(e, s)) >= 1 && (Newlines(Emitted(e, s)) == 1 <==> IsSingleLine(e.call))
  {
    hide Newlines, Render, Destination, IsSingleLine;
    if GoesTo(e, s) {
      LineBreaksExactly(e.call, ShouldColorize(e.settings.color, e.call.around));
      NewlinesAdd(LineOf(e), NEWLINE);
      OneNewline();
    } else {
      NewlinesNone("");
    }
  }

  lemma SingleLinesFirst(e: Entry, others: seq<Entry>, s: StreamId)
    ensures AreSingleLines([e] + others, s) <==> (GoesTo(e, s) ==> IsSingleLine(e.call)) && AreSingleLines(others, s)
  {
    hide GoesTo, IsSingleLine;
    var history := [e] + others;
    if AreSingleLines(history, s) {
      assert history[0] == e;
      assert forall i :: 0 <= i < |others| ==> others[i] == history[i + 1];
    }
  }

  /**
    Splitting what a history wrote to a stream at newlines gives back exactly its records if and only if every record
    that went there is a single line.
   */
  lemma LinesComeBack(history: seq<Entry>, s: StreamId)
    ensures Lines(AllEmitted(history, s)) == LinesOf(history, s) <==> AreSingleLines(history, s)
  {
    hide Lines, AllEmitted, LinesOf, AreSingleLines, Newlines;
    if AreSingleLines(history, s) {
      SingleLinesComeBack(history, s);
    } else {
      EmittedEndsInNewline(history, s);
      LinesAreCounted(AllEmitted(history, s));
      NewlinesAreCounted(history, s);
    }
  }

  /**
    What a reader of a stream sees, whenever nobody holds the mutex: the stream has only grown, and its new text splits
    into one line for each finished call that went there, and no more, if and only if none of those calls breaks its
    line.
   */
  lemma ReadersSeeWholeLines(trace: seq<State>, steps: seq<Step>, programs: seq<seq<Call>>, k: nat, s: StreamId)
    requires IsRun(trace, steps) && IsStart(trace[0], programs) && k <= |steps| && trace[k].holder.None?
    ensures Text(trace[0].streams, s) <= Text(trace[k].streams, s)
    ensures AreSingleLines(trace[k].history, s) <==>
              Lines(Text(trace[k].streams, s)[|Text(trace[0].streams, s)|..]) == LinesOf(trace[k].history, s)
  {
    hide Text, AllEmitted, Lines, LinesOf, AreSingleLines, IsStart;
    LogsAreSerialised(trace, steps, programs, k);
    LinesComeBack(trace[k].history, s);
    var before, added := Text(trace[0].streams, s), AllEmitted(trace[k].history, s);
    assert Text(trace[k].streams, s) == before + added;
    assert (before + added)[|before|..] == added;
  }

  // Which calls reach which stream.

  /** A call that its level lets through, and that its level sends to a stream. */
  predicate Concerns(e: Entry, s: StreamId) {
    && Passes(e.settings.minLevel, e.call.level)
    && Some(s) == if e.call.level in {WARN, ERROR} then e.settings.err else e.settings.out
  }

  lemma EmittedExactly(e: Entry, s: StreamId)
    ensures Emitted(e, s) != "" <==> Concerns(e, s)
  {
    hide Render, ShouldColorize;
  }

  lemma {:induction false} HistoryEmitsExactly(history: seq<Entry>, s: StreamId)
    ensures AllEmitted(history, s) != "" <==> exists i :: 0 <= i < |history| && Concerns(history[i], s)
  {
    if history != [] {
      hide Emitted, Concerns;
      var n := |history| - 1;
      HistoryEmitsExactly(history[..n], s);
      EmittedExactly(history[n], s);
      assert forall i :: 0 <= i < n ==> history[i] == history[..n][i];
    }
  }

  /**
    In every run, whenever nobody holds the mutex, a stream has grown exactly if a finished call concerned it: one whose
    level is at least the minimum and that goes to the error stream for warnings and errors, to the other one otherwise.
   */
  lemma StreamsGrowExactly(trace: seq<State>, steps: seq<Step>, programs: seq<seq<Call>>, k: nat, s: StreamId)
    requires IsRun(trace, steps) && IsStart(trace[0], programs) && k <= |steps| && trace[k].holder.None?
    ensures |Text(trace[k].streams, s)| > |Text(trace[0].streams, s)| <==>
              exists i :: 0 <= i < |trace[k].history| && Concerns(trace[k].history[i], s)
  {
    hide Text, AllEmitted, Concerns, IsStart;
    LogsAreSerialised(trace, steps, programs, k);
    HistoryEmitsExactly(trace[k].history, s);
  }

  // A logger that was moved from.

  /** Without streams nobody is about to write. */
  predicate IsSilent(w: State) {
    && w.settings.out.None? && w.settings.err.None?
    && forall t :: 0 <= t < |w.threads| ==>
      w.threads[t].phase.Idle? || w.threads[t].phase.Routing? || w.threads[t].phase.Leaving?
  }

  lemma SilenceIsKept(w: State, step: Step)
    requires Enabled(w, step) && IsSilent(w) && !step.MoveInto?
    ensures IsSilent(Next(w, step)) && Next(w, step).streams == w.streams && Next(w, step).record == w.record
  {
    hide Pieces, ShouldColorize;
  }

  lemma MoveSilences(w: State, programs: seq<seq<Call>>, initial: map<StreamId, string>)
    requires Invariant(w, initial, programs) && Enabled(w, MoveFrom)
    ensures IsSilent(Next(w, MoveFrom)) && Next(w, MoveFrom).streams == w.streams
  {
  }

  /** After its streams were moved to another logger, nothing is written until it is given streams again. */
  lemma {:induction false} MovedFromIsSilent(trace: seq<State>, steps: seq<Step>, programs: seq<seq<Call>>, k: nat,
      j: nat)
    requires IsRun(trace, steps) && IsStart(trace[0], programs) && k < j <= |steps| && steps[k] == MoveFrom
    requires forall i :: k < i < j ==> !steps[i].MoveInto?
    ensures IsSilent(trace[j]) && trace[j].streams == trace[k].streams
    decreases j
  {
    hide IsSilent, Next, IsStart, Invariant;
    if j == k + 1 {
      RunsKeepInvariant(trace, steps, programs, k);
      MoveSilences(trace[k], programs, trace[0].streams);
    } else {
      MovedFromIsSilent(trace, steps, programs, k, j - 1);
      SilenceIsKept(trace[j - 1], steps[j - 1]);
    }
  }
}
