/**
  The client that the fake TCTI is for, step by step: it transmits a command, asks for the size of the response, and
  receives it, while any number of other threads push items and look at the fake between its locked regions.
 */
module TctiClient {
  import opened Common
  import opened FakeTcti

  /** Where the client is in its round, with the command of the round. */
  datatype Phase =
    | Resting
    | Transmitted(command: Bytes)
    | Querying(command: Bytes)
    | Sized(command: Bytes, size: Option<nat>)
    | Taking(command: Bytes)

  /** A round that found an item when it transmitted, and how it ended. */
  datatype Finished = Finished(command: Bytes, outcome: RoundResult)

  datatype Session = Session(world: World, phase: Phase, rounds: seq<Finished>)

  const OPENING := Session(START, Resting, [])

  datatype Move =
    | Push(item: Item)
    | Inspect
    /** The client's next locked region; a resting client begins a round with this command. */
    | Proceed(command: Bytes)

  /** What a move does to the fake. */
  function EventOf(s: Session, m: Move): Event {
    match m
    case Push(item) => PushEvent(item)
    case Inspect => InspectEvent
    case Proceed(command) =>
      match s.phase
      case Resting => TransmitEvent(command)
      case Transmitted(_) => ReceiveBegins(Args(Some(0), false))
      case Querying(_) => ReceiveEnds
      case Sized(_, size) => ReceiveBegins(Args(size, true))
      case Taking(_) => ReceiveEnds
  }

  function EndRound(s: Session, command: Bytes, outcome: RoundResult): Session {
    s.(phase := Resting, rounds := s.rounds + [Finished(command, outcome)])
  }

  function OutcomeOf(reply: Reply): RoundResult {
    if reply.rc == RC_SUCCESS && reply.written.Some? then Delivered(reply.written.value) else Failed(reply.rc)
  }

  /**
    The client looks at nothing but the results of its own calls; a round that finds nothing to script it is not
    counted.
   */
  function NextSession(s: Session, m: Move): Session
    requires Enabled(s.world, EventOf(s, m))
  {
    var t := s.(world := Next(s.world, EventOf(s, m)));
    if !m.Proceed? then t
    else
      match s.phase
      case Resting =>
        var rc := ObserveTransmit(s.world.fake, m.command).1;
        if s.world.fake.queue == [] then t
        else if rc != RC_SUCCESS then EndRound(t, m.command, Failed(rc))
        else t.(phase := Transmitted(m.command))
      case Transmitted(command) =>
        (match FirstRegion(s.world.fake, Args(Some(0), false)).1
         case Copied(_, _) => t.(phase := Querying(command))
         case Returned(reply) =>
           if reply.rc != RC_SUCCESS then EndRound(t, command, Failed(reply.rc))
             else t.(phase := Sized(command, reply.size)))
      case Querying(command) =>
        var reply := SecondRegion(s.world.fake, s.world.receiver.first, s.world.receiver.args).1;
        if reply.rc != RC_SUCCESS then EndRound(t, command, Failed(reply.rc))
          else t.(phase := Sized(command, reply.size))
      case Sized(command, size) =>
        (match FirstRegion(s.world.fake, Args(size, true)).1
         case Copied(_, _) => t.(phase := Taking(command))
         case Returned(reply) => EndRound(t, command, OutcomeOf(reply)))
      case Taking(command) =>
        EndRound(t, command, OutcomeOf(SecondRegion(s.world.fake, s.world.receiver.first, s.world.receiver.args).1))
  }

  ghost predicate IsSession(trace: seq<Session>, moves: seq<Move>) {
    && |trace| == |moves| + 1
    && trace[0] == OPENING
    && forall k :: 0 <= k < |moves| ==>
      Enabled(trace[k].world, EventOf(trace[k], moves[k])) && trace[k + 1] == NextSession(trace[k], moves[k])
  }

  function Worlds(trace: seq<Session>): (worlds: seq<World>)
    ensures |worlds| == |trace|
    ensures forall k :: 0 <= k < |trace| ==> worlds[k] == trace[k].world
  {
    seq(|trace|, k requires 0 <= k < |trace| => trace[k].world)
  }

  function Events(trace: seq<Session>, moves: seq<Move>): (events: seq<Event>)
    requires |trace| == |moves| + 1
    ensures |events| == |moves|
    ensures forall k :: 0 <= k < |moves| ==> events[k] == EventOf(trace[k], moves[k])
  {
    seq(|moves|, k requires 0 <= k < |moves| => EventOf(trace[k], moves[k]))
  }

  /** A session is a run of the fake. */
  lemma SessionIsRun(trace: seq<Session>, moves: seq<Move>)
    requires IsSession(trace, moves)
    ensures IsRun(Worlds(trace), Events(trace, moves))
  {
    forall k | 0 <= k < |moves| ensures trace[k + 1].world == Next(trace[k].world, EventOf(trace[k], moves[k])) {
      hide Next, FirstRegion, SecondRegion, ObserveTransmit;
    }
  }

  /** Inside a round the front item, whatever is pushed behind it, is the one that the round is about. */
  ghost predicate IsMidRound(s: Session) {
    var f, r := s.world.fake, s.world.receiver;
    match s.phase
    case Resting => r.Idle?
    case Transmitted(command) => r.Idle? && f.queue != [] && !f.queue[0].TransmitFailure? && LastCommand(f) == command
    case Querying(command) => IsCopying(f, r, command) && r.args == Args(Some(0), false)
    case Sized(command, size) =>
      r.Idle? && f.queue != [] && IsAnswer(f.queue[0]) && LastCommand(f) == command
        && size == Some(|Materialized(f.queue[0], command)|)
    case Taking(command) => IsCopying(f, r, command) && r.args == Args(Some(|Materialized(f.queue[0], command)|), true)
  }

  predicate IsAnswer(item: Item) {
    item.Response? || item.Factory?
  }

  ghost predicate IsCopying(f: Fake, r: Receiver, command: Bytes) {
    && f.queue != [] && IsAnswer(f.queue[0]) && LastCommand(f) == command
    && r.InGap? && r.first.Copied? && r.first.item == f.queue[0]
    && (f.queue[0].Factory? ==> r.first.lastCommand == command)
  }

  ghost predicate ServedInOrder(s: Session) {
    var pushed := s.world.pushed;
    && |s.rounds| <= |pushed|
    && s.world.fake.queue == pushed[|s.rounds|..]
    && forall n :: 0 <= n < |s.rounds| ==> s.rounds[n].outcome == Scripted(pushed[n], s.rounds[n].command)
  }

  ghost predicate NothingPretends(removals: seq<Removal>) {
    forall n :: 0 <= n < |removals| ==> !PretendsSuccess(removals[n].item)
  }

  /** The books that every run of the fake keeps. */
  ghost predicate BooksBalance(w: World) {
    w.pushed == Items(w.removals) + w.fake.queue && GapIsSafe(w)
  }

  lemma SessionsBalance(trace: seq<Session>, moves: seq<Move>, k: nat)
    requires IsSession(trace, moves) && k <= |moves|
    ensures BooksBalance(trace[k].world)
  {
    SessionIsRun(trace, moves);
    RunsKeepInvariant(Worlds(trace), Events(trace, moves), k);
  }

  /** The command of the round under way, or of the one about to begin. */
  function CommandOf(s: Session, command: Bytes): Bytes {
    if s.phase.Resting? then command else s.phase.command
  }

  // In step: while nothing that is removed pretends success.

  /** What one move of the client does, in terms of the front item alone. */
  lemma ProceedServes(s: Session, command: Bytes)
    requires IsMidRound(s) && Enabled(s.world, EventOf(s, Proceed(command)))
    requires var t := NextSession(s, Proceed(command));
             |t.world.removals| > |s.world.removals| ==>
               s.world.fake.queue != [] && !PretendsSuccess(s.world.fake.queue[0])
    ensures var t := NextSession(s, Proceed(command));
            && IsMidRound(t)
            && t.world.pushed == s.world.pushed
            && (t.rounds == s.rounds ==> t.world.fake.queue == s.world.fake.queue)
            && (t.rounds != s.rounds ==>
                  var c := CommandOf(s, command);
                  && s.world.fake.queue != [] && t.world.fake.queue == s.world.fake.queue[1..]
                  && t.rounds == s.rounds + [Finished(c, Scripted(s.world.fake.queue[0], c))])
  {
    var f := ObserveTransmit(s.world.fake, command).0;
    assert LastCommand(f) == command;
  }

  /** A step of the fake removes nothing, or the item at the front. */
  ghost predicate RemovesFront(w: World, v: World) {
    || (v.removals == w.removals && |v.fake.queue| >= |w.fake.queue|)
    || (&& w.fake.queue != [] && v.fake.queue == w.fake.queue[1..]
        && |v.removals| == |w.removals| + 1 && w.removals <= v.removals
        && v.removals[|w.removals|].item == w.fake.queue[0])
  }

  lemma NextRemovesFront(w: World, e: Event)
    requires Enabled(w, e) && GapIsSafe(w)
    ensures RemovesFront(w, Next(w, e))
    ensures !e.PushEvent? && Next(w, e).removals == w.removals ==> Next(w, e).fake.queue == w.fake.queue
  {
  }

  lemma MoveRemovesFront(s: Session, m: Move)
    requires Enabled(s.world, EventOf(s, m)) && GapIsSafe(s.world)
    ensures var w, v := s.world, NextSession(s, m).world;
            || (v.removals == w.removals && (m.Proceed? ==> v.fake.queue == w.fake.queue))
            || (&& m.Proceed? && w.fake.queue != [] && v.fake.queue == w.fake.queue[1..]
                && |v.removals| == |w.removals| + 1 && w.removals <= v.removals
                && v.removals[|w.removals|].item == w.fake.queue[0])
  {
    NextRemovesFront(s.world, EventOf(s, m));
    WorldMovesOn(s, m);
    if !m.Proceed? {
      assert Next(s.world, EventOf(s, m)).removals == s.world.removals;
    }
    hide NextSession, Next, Enabled;
  }

  lemma WorldMovesOn(s: Session, m: Move)
    requires Enabled(s.world, EventOf(s, m))
    ensures NextSession(s, m).world == Next(s.world, EventOf(s, m))
  {
    hide Next, FirstRegion, SecondRegion, ObserveTransmit;
  }

  lemma NextServesInOrder(s: Session, m: Move)
    requires IsMidRound(s) && ServedInOrder(s) && Enabled(s.world, EventOf(s, m)) && GapIsSafe(s.world)
    requires NothingPretends(NextSession(s, m).world.removals)
    ensures IsMidRound(NextSession(s, m)) && ServedInOrder(NextSession(s, m))
  {
    if m.Proceed? {
      MoveRemovesFront(s, m);
      hide NextSession, IsMidRound, Next, EventOf, Scripted;
      ProceedServes(s, m.command);
    }
  }

  /**
    In every session, however pushes and inspections fall between its locked regions: as long as nothing that was
    removed pretends success, the n-th round that found an item consumed exactly the n-th item pushed and ended as that
    item scripts for the command of that round.
   */
  lemma {:induction false} RoundsServePushesInOrder(trace: seq<Session>, moves: seq<Move>, k: nat)
    requires IsSession(trace, moves) && k <= |moves|
    requires NothingPretends(trace[k].world.removals)
    ensures IsMidRound(trace[k]) && ServedInOrder(trace[k])
  {
    if k > 0 {
      var s, m := trace[k - 1], moves[k - 1];
      SessionsBalance(trace, moves, k - 1);
      MoveRemovesFront(s, m);
      hide IsMidRound, NextSession, Enabled, EventOf, ServedInOrder;
      forall n | 0 <= n < |s.world.removals| ensures !PretendsSuccess(s.world.removals[n].item) {
        assert s.world.removals[n] == trace[k].world.removals[n];
      }
      RoundsServePushesInOrder(trace, moves, k - 1);
      NextServesInOrder(s, m);
    }
  }

  /**
    And then the n-th item that was ever removed from the queue is the n-th that was pushed, removed by the n-th round.
   */
  lemma RemovalsMatchRounds(trace: seq<Session>, moves: seq<Move>, k: nat)
    requires IsSession(trace, moves) && k <= |moves|
    requires NothingPretends(trace[k].world.removals)
    ensures var s := trace[k];
            && |s.world.removals| == |s.rounds| <= |s.world.pushed|
            && forall n :: 0 <= n < |s.rounds| ==> s.world.removals[n].item == s.world.pushed[n]
  {
    var s := trace[k];
    RoundsServePushesInOrder(trace, moves, k);
    SessionsBalance(trace, moves, k);
    assert s.world.pushed == Items(s.world.removals) + s.world.fake.queue;
  }

  // Out of step: for ever, once something that was removed has pretended success.

  /** A round has ended otherwise than its item scripts. */
  ghost predicate HasWrongRound(s: Session) {
    exists n :: 0 <= n < |s.rounds| && n < |s.world.pushed| && IsWrong(s, n)
  }

  predicate IsWrong(s: Session, n: nat)
    requires n < |s.rounds| && n < |s.world.pushed|
  {
    s.rounds[n].outcome != Scripted(s.world.pushed[n], s.rounds[n].command)
  }

  /** More items were removed than rounds have ended, and all of those that are ahead of the rounds pretend success. */
  ghost predicate IsAhead(s: Session) {
    && |s.rounds| < |s.world.removals|
    && forall n :: |s.rounds| <= n < |s.world.removals| ==> PretendsSuccess(s.world.removals[n].item)
  }

  /** What the receiver's arguments are while the client is receiving. */
  ghost predicate PhaseMatches(s: Session) {
    match s.phase
    case Querying(_) => s.world.receiver.InGap? ==> s.world.receiver.args == Args(Some(0), false)
    case Taking(_) => s.world.receiver.InGap? ==> s.world.receiver.args.destination
    case _ => true
  }

  lemma PhaseStaysMatched(s: Session, m: Move)
    requires PhaseMatches(s) && Enabled(s.world, EventOf(s, m))
    ensures PhaseMatches(NextSession(s, m))
  {
  }

  lemma {:induction false} PhasesMatch(trace: seq<Session>, moves: seq<Move>, k: nat)
    requires IsSession(trace, moves) && k <= |moves|
    ensures PhaseMatches(trace[k])
  {
    if k > 0 {
      hide PhaseMatches, NextSession, Enabled, EventOf;
      PhasesMatch(trace, moves, k - 1);
      PhaseStaysMatched(trace[k - 1], moves[k - 1]);
    } else {
      assert PhaseMatches(OPENING);
    }
  }

  /**
    A round goes on over a removed item only if that item pretends success, and it reports a failure with code zero
    only if it ends with the removal of such an item.
   */
  lemma ProceedOverPretenders(s: Session, command: Bytes)
    requires PhaseMatches(s) && GapIsSafe(s.world) && Enabled(s.world, EventOf(s, Proceed(command)))
    ensures var t := NextSession(s, Proceed(command));
            var removed := |t.world.removals| > |s.world.removals|;
            && t.world.pushed == s.world.pushed
            && (t.rounds == s.rounds && removed ==> s.world.fake.queue != [] && PretendsSuccess(s.world.fake.queue[0]))
            && (t.rounds != s.rounds ==> |t.rounds| == |s.rounds| + 1 && s.rounds <= t.rounds)
            && (t.rounds != s.rounds && t.rounds[|s.rounds|].outcome == Failed(RC_SUCCESS) ==>
                  removed && s.world.fake.queue != [] && PretendsSuccess(s.world.fake.queue[0]))
  {
  }

  lemma AheadStaysOut(s: Session, m: Move)
    requires PhaseMatches(s) && BooksBalance(s.world) && Enabled(s.world, EventOf(s, m)) && IsAhead(s)
    ensures IsAhead(NextSession(s, m)) || HasWrongRound(NextSession(s, m))
  {
    var t := NextSession(s, m);
    MoveRemovesFront(s, m);
    if m.Proceed? {
      hide NextSession, Next, EventOf, Scripted, PhaseMatches;
      ProceedOverPretenders(s, m.command);
      var j := |s.rounds|;
      assert s.world.pushed[j] == s.world.removals[j].item;
      ScriptOfPretender(s.world.pushed[j]);
      if t.rounds != s.rounds && t.rounds[j].outcome != Failed(RC_SUCCESS) {
        assert IsWrong(t, j);
      }
    }
  }

  lemma ScriptOfPretender(item: Item)
    requires PretendsSuccess(item)
    ensures forall command :: Scripted(item, command) == Failed(RC_SUCCESS)
  {
  }

  lemma WrongStaysWrong(s: Session, m: Move)
    requires Enabled(s.world, EventOf(s, m)) && HasWrongRound(s)
    ensures HasWrongRound(NextSession(s, m))
  {
    var n :| 0 <= n < |s.rounds| && n < |s.world.pushed| && IsWrong(s, n);
    SessionsGrow(s, m);
    hide NextSession;
    assert IsWrong(NextSession(s, m), n);
  }

  lemma SessionsGrow(s: Session, m: Move)
    requires Enabled(s.world, EventOf(s, m))
    ensures s.rounds <= NextSession(s, m).rounds && s.world.pushed <= NextSession(s, m).world.pushed
  {
  }

  /** The first item that pretends success puts the rounds out of step at once. */
  lemma FirstPretenderIsAhead(s: Session, m: Move)
    requires IsMidRound(s) && BooksBalance(s.world) && |s.world.removals| == |s.rounds|
      && Enabled(s.world, EventOf(s, m))
    requires NothingPretends(s.world.removals) && !NothingPretends(NextSession(s, m).world.removals)
    ensures IsAhead(NextSession(s, m))
  {
    MoveRemovesFront(s, m);
    MidRoundGoesOn(s, m);
    hide NextSession, IsMidRound, Next, EventOf;
  }

  lemma MidRoundGoesOn(s: Session, m: Move)
    requires IsMidRound(s) && Enabled(s.world, EventOf(s, m))
    requires s.world.fake.queue != [] && PretendsSuccess(s.world.fake.queue[0])
    ensures NextSession(s, m).rounds == s.rounds
  {
  }

  lemma NothingRemovedYet(trace: seq<Session>, moves: seq<Move>)
    requires IsSession(trace, moves)
    ensures NothingPretends(trace[0].world.removals)
  {
  }

  lemma MoveLeavesOutOfStep(s: Session, m: Move)
    requires Enabled(s.world, EventOf(s, m)) && BooksBalance(s.world) && PhaseMatches(s)
    requires if NothingPretends(s.world.removals) then IsMidRound(s)
      && |s.world.removals| == |s.rounds| else IsAhead(s) || HasWrongRound(s)
    requires !NothingPretends(NextSession(s, m).world.removals)
    ensures IsAhead(NextSession(s, m)) || HasWrongRound(NextSession(s, m))
  {
    hide NextSession, EventOf, Enabled, IsMidRound, IsAhead, HasWrongRound, NothingPretends, PhaseMatches, BooksBalance;
    if NothingPretends(s.world.removals) {
      FirstPretenderIsAhead(s, m);
    } else if IsAhead(s) {
      AheadStaysOut(s, m);
    } else {
      WrongStaysWrong(s, m);
    }
  }

  lemma {:induction false} PretendersPutOutOfStep(trace: seq<Session>, moves: seq<Move>, k: nat)
    requires IsSession(trace, moves) && k <= |moves| && !NothingPretends(trace[k].world.removals)
    ensures IsAhead(trace[k]) || HasWrongRound(trace[k])
  {
    if k == 0 {
      NothingRemovedYet(trace, moves);
    } else {
      var s, m := trace[k - 1], moves[k - 1];
      SessionStep(trace, moves, k - 1);
      SessionsBalance(trace, moves, k - 1);
      PhasesMatch(trace, moves, k - 1);
      hide NextSession, EventOf, Enabled, IsMidRound, IsAhead, HasWrongRound, NothingPretends, PhaseMatches,
        BooksBalance, ServedInOrder;
      if NothingPretends(s.world.removals) {
        RoundsServePushesInOrder(trace, moves, k - 1);
        RemovalsMatchRounds(trace, moves, k - 1);
      } else {
        PretendersPutOutOfStep(trace, moves, k - 1);
      }
      hide IsSession;
      MoveLeavesOutOfStep(s, m);
    }
  }

  lemma SessionStep(trace: seq<Session>, moves: seq<Move>, k: nat)
    requires IsSession(trace, moves) && k < |moves|
    ensures Enabled(trace[k].world, EventOf(trace[k], moves[k])) && trace[k + 1] == NextSession(trace[k], moves[k])
  {
  }

  lemma OutOfStepIsNotInOrder(s: Session)
    requires BooksBalance(s.world) && (IsAhead(s) || HasWrongRound(s))
    ensures !ServedInOrder(s)
  {
    if HasWrongRound(s) {
      var n :| 0 <= n < |s.rounds| && n < |s.world.pushed| && IsWrong(s, n);
    }
  }

  /**
    At every moment of every session the rounds have served the pushed items in order if and only if none of the items
    removed so far pretends success.
   */
  lemma RoundsServePushesExactly(trace: seq<Session>, moves: seq<Move>, k: nat)
    requires IsSession(trace, moves) && k <= |moves|
    ensures ServedInOrder(trace[k]) <==> NothingPretends(trace[k].world.removals)
  {
    hide ServedInOrder, NothingPretends, IsAhead, HasWrongRound, IsMidRound, BooksBalance;
    if NothingPretends(trace[k].world.removals) {
      RoundsServePushesInOrder(trace, moves, k);
    } else {
      PretendersPutOutOfStep(trace, moves, k);
      SessionsBalance(trace, moves, k);
      OutOfStepIsNotInOrder(trace[k]);
    }
  }
}
