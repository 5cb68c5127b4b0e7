/**
  The scripted TCTI: a FIFO of responses and failures behind one mutex. A receive takes the lock twice, with an
  unlocked gap between copying the front item and removing it. Each locked region is one atomic step here, so the runs
  below interleave a receive with pushes, transmits, inspections and finalizes at every point where the lock is free.
  The owner pointer is read before a callback takes the lock, so a callback may act on an owner that has gone since.
 */
module FakeTcti {
  import opened Common

  type Bytes = seq<byte>

  datatype Item =
    | Response(bytes: Bytes)
    | Factory(factory: Bytes -> Bytes)
    | Failure(rc: TssRc)
    | TransmitFailure(rc: TssRc)

  const RC_BAD_REFERENCE: TssRc := 0x000a_0005
  const RC_INSUFFICIENT_BUFFER: TssRc := 0x000a_0006
  const RC_BAD_SEQUENCE: TssRc := 0x000a_0007
  const RC_IO_ERROR: TssRc := 0x000a_000a

  /**
    The caller's arguments: the value behind the size pointer, if it is not null, and whether a destination is given.
   */
  datatype Args = Args(size: Option<nat>, destination: bool)

  /** What a receive returns: the code, the value left behind the size pointer, and the bytes written. */
  datatype Reply = Reply(rc: TssRc, size: Option<nat>, written: Option<Bytes>)

  function CopyResponse(bytes: Bytes, args: Args): Reply {
    if args.size.None? then Reply(RC_BAD_REFERENCE, None, None)
    else if !args.destination then Reply(RC_SUCCESS, Some(|bytes|), None)
    else if args.size.value < |bytes| then Reply(RC_INSUFFICIENT_BUFFER, Some(|bytes|), None)
    else Reply(RC_SUCCESS, Some(|bytes|), Some(bytes))
  }

  datatype Fake = Fake(queue: seq<Item>, commands: seq<Bytes>, transmits: nat, finalizes: nat, attached: bool)

  const NEW_FAKE := Fake([], [], 0, 0, true)

  /** Transmitting nothing, through a null or an empty buffer, still counts and is recorded as an empty command. */
  function ObserveTransmit(f: Fake, command: Bytes): (Fake, TssRc) {
    var seen := f.(transmits := f.transmits + 1, commands := f.commands + [command]);
    if f.queue == [] then (seen, RC_IO_ERROR)
    else if f.queue[0].TransmitFailure? then (seen.(queue := f.queue[1..]), f.queue[0].rc)
    else (seen, RC_SUCCESS)
  }

  function Transmit(f: Fake, command: Bytes): (Fake, TssRc) {
    if f.attached then ObserveTransmit(f, command) else (f, RC_BAD_REFERENCE)
  }

  /** Finalizing counts under the lock and detaches after it. */
  function ObserveFinalize(f: Fake): Fake {
    f.(finalizes := f.finalizes + 1)
  }

  function Detach(f: Fake): Fake {
    f.(attached := false)
  }

  function Finalize(f: Fake): Fake {
    Detach(if f.attached then ObserveFinalize(f) else f)
  }

  function LastCommand(f: Fake): Bytes {
    if f.commands == [] then [] else f.commands[|f.commands| - 1]
  }

  /** What the first locked region of a receive ends in: a finished call, or the front item copied out of the queue. */
  datatype First = Returned(reply: Reply) | Copied(item: Item, lastCommand: Bytes)

  function FirstRegion(f: Fake, args: Args): (Fake, First) {
    if f.queue == [] then (f, Returned(Reply(RC_IO_ERROR, args.size, None)))
    else
      match f.queue[0]
      case Failure(rc) => (f.(queue := f.queue[1..]),
        Returned(Reply(rc, if args.size.Some? then Some(0) else None, None)))
      case TransmitFailure(_) => (f, Returned(Reply(RC_BAD_SEQUENCE, args.size, None)))
      case Response(_) => (f, Copied(f.queue[0], []))
      case Factory(_) => (f, Copied(f.queue[0], LastCommand(f)))
  }

  function Materialized(item: Item, lastCommand: Bytes): Bytes {
    match item
    case Response(bytes) => bytes
    case Factory(factory) => factory(lastCommand)
    case _ => []
  }

  /** Only a completed copy enters the second locked region, which removes whatever is at the front by then. */
  function SecondRegion(f: Fake, copied: First, args: Args): (Fake, Reply)
    requires copied.Copied?
  {
    var reply := CopyResponse(Materialized(copied.item, copied.lastCommand), args);
    if reply.rc == RC_SUCCESS && args.destination then
      if f.queue == [] then (f, reply.(rc := RC_BAD_SEQUENCE))
      else (f.(queue := f.queue[1..]), reply)
    else (f, reply)
  }

  function Receive(f: Fake, args: Args): (Fake, Reply) {
    if !f.attached then (f, Reply(RC_BAD_REFERENCE, args.size, None))
    else
      var (g, first) := FirstRegion(f, args);
      if first.Returned? then (g, first.reply) else SecondRegion(g, first, args)
  }

  class Tcti {
    var queue: seq<Item>
    var commands: seq<Bytes>
    var transmits: nat
    var finalizes: nat
    var attached: bool

    function State(): Fake
      reads this
    {
      Fake(queue, commands, transmits, finalizes, attached)
    }

    constructor ()
      ensures State() == NEW_FAKE
    {
      queue, commands, transmits, finalizes, attached := [], [], 0, 0, true;
    }

    method Push(item: Item)
      modifies this
      ensures State() == old(State()).(queue := old(queue) + [item])
    {
      queue := queue + [item];
    }

    method PendingResponses() returns (n: nat)
      ensures n == |queue|
    {
      n := |queue|;
    }

    /** `size` and `command` as passed: a null command is refused unless the size is zero. */
    method OnTransmit(size: nat, command: Option<Bytes>) returns (rc: TssRc)
      requires command.Some? ==> |command.value| == size
      modifies this
      ensures attached && size > 0 && command.None? ==> State() == old(State()) && rc == RC_BAD_REFERENCE
      ensures attached && (size == 0 || command.Some?) ==>
                (State(), rc) == Transmit(old(State()), if command.Some? then command.value else [])
      ensures !old(attached) ==> State() == old(State()) && rc == RC_BAD_REFERENCE
    {
      if !attached || (size > 0 && command.None?) {
        return RC_BAD_REFERENCE;
      }
      transmits := transmits + 1;
      if command.None? || size == 0 {
        commands := commands + [[]];
      } else {
        commands := commands + [command.value];
      }
      if queue == [] {
        return RC_IO_ERROR;
      }
      if queue[0].TransmitFailure? {
        rc := queue[0].rc;
        queue := queue[1..];
        return;
      }
      return RC_SUCCESS;
    }

    method CopyFront(args: Args) returns (first: First)
      modifies this
      ensures (State(), first) == FirstRegion(old(State()), args)
    {
      if queue == [] {
        return Returned(Reply(RC_IO_ERROR, args.size, None));
      }
      var next := queue[0];
      if next.Failure? {
        var size: Option<nat> := if args.size.Some? then Some(0) else None;
        queue := queue[1..];
        return Returned(Reply(next.rc, size, None));
      }
      if next.TransmitFailure? {
        return Returned(Reply(RC_BAD_SEQUENCE, args.size, None));
      }
      if next.Response? {
        return Copied(next, []);
      }
      return Copied(next, if commands == [] then [] else commands[|commands| - 1]);
    }

    method PopFront(copied: First, args: Args) returns (reply: Reply)
      requires copied.Copied?
      modifies this
      ensures (State(), reply) == SecondRegion(old(State()), copied, args)
    {
      var bytes := if copied.item.Response? then copied.item.bytes
                   else if copied.item.Factory? then copied.item.factory(copied.lastCommand)
                   else [];
      reply := CopyResponse(bytes, args);
      if reply.rc == RC_SUCCESS && args.destination {
        if queue == [] {
          return reply.(rc := RC_BAD_SEQUENCE);
        }
        queue := queue[1..];
      }
    }

    /** A receive that nothing interleaves with. */
    method OnReceive(args: Args) returns (reply: Reply)
      modifies this
      ensures (State(), reply) == Receive(old(State()), args)
    {
      if !attached {
        return Reply(RC_BAD_REFERENCE, args.size, None);
      }
      var first := CopyFront(args);
      if first.Returned? {
        return first.reply;
      }
      reply := PopFront(first, args);
    }

    method OnFinalize()
      modifies this
      ensures State() == Finalize(old(State()))
    {
      if attached {
        finalizes := finalizes + 1;
      }
      attached := false;
    }
  }

  // Runs: any number of pushers, transmitters and inspectors, and one receiver.

  datatype Consumer = ByTransmit | ByReceive

  /**
    A removal from the queue: who removed which item, which item it had copied before the gap, the last command
    it had seen then, and what it delivered.
   */
  datatype Removal = Removal(consumer: Consumer, item: Item, copied: Item, lastCommand: Bytes, delivered: Option<Bytes>)

  datatype Receiver = Idle | InGap(first: First, args: Args)

  /** `detaching` counts the finalizes that are between their two steps. */
  datatype World = World(fake: Fake, receiver: Receiver, detaching: nat, pushed: seq<Item>, removals: seq<Removal>)

  const START := World(NEW_FAKE, Idle, 0, [], [])

  datatype Event =
    | PushEvent(item: Item)
    | TransmitEvent(command: Bytes)
    | InspectEvent
    | FinalizeCounts
    | FinalizeDetaches
    | ReceiveBegins(args: Args)
    | ReceiveEnds

  /**
    The documented usage: a receive begins only when none is under way. Callbacks that found no owner do nothing and
    are not events; those that found one may run at any later time, whether or not the owner is still there.
   */
  predicate Enabled(w: World, e: Event) {
    match e
    case FinalizeDetaches => w.detaching > 0
    case ReceiveBegins(_) => w.receiver.Idle?
    case ReceiveEnds => w.receiver.InGap? && w.receiver.first.Copied?
    case _ => true
  }

  /** Every event is one locked region; the removal record notes the front item that was there when it ran. */
  function Next(w: World, e: Event): World
    requires Enabled(w, e)
  {
    match e
    case PushEvent(item) => w.(fake := w.fake.(queue := w.fake.queue + [item]), pushed := w.pushed + [item])
    case InspectEvent => w
    case FinalizeCounts => w.(fake := ObserveFinalize(w.fake), detaching := w.detaching + 1)
    case FinalizeDetaches => w.(fake := Detach(w.fake), detaching := w.detaching - 1)
    case TransmitEvent(command) =>
      var f := ObserveTransmit(w.fake, command).0;
      w.(fake := f, removals := w.removals + Removed(w.fake, f, ByTransmit, None, None))
    case ReceiveBegins(args) =>
      var (f, first) := FirstRegion(w.fake, args);
      w.(fake := f,
         receiver := if first.Copied? then InGap(first, args) else Idle,
         removals := w.removals + Removed(w.fake, f, ByReceive, None, None))
    case ReceiveEnds =>
      var (f, reply) := SecondRegion(w.fake, w.receiver.first, w.receiver.args);
      w.(fake := f,
         receiver := Idle,
         removals := w.removals + Removed(w.fake, f, ByReceive, Some(w.receiver.first), reply.written))
  }

  function Removed(before: Fake, after: Fake, consumer: Consumer, first: Option<First>,
      delivered: Option<Bytes>): seq<Removal>
    requires first.Some? ==> first.value.Copied?
  {
    if |after.queue| < |before.queue| then
      [Removal(consumer, before.queue[0], if first.Some? then first.value.item else before.queue[0],
               if first.Some? then first.value.lastCommand else [], delivered)]
    else []
  }

  function Items(removals: seq<Removal>): (items: seq<Item>)
    ensures |items| == |removals|
    ensures forall k :: 0 <= k < |items| ==> items[k] == removals[k].item
  {
    seq(|removals|, k requires 0 <= k < |removals| => removals[k].item)
  }

  ghost predicate IsRun(trace: seq<World>, events: seq<Event>) {
    && |trace| == |events| + 1
    && trace[0] == START
    && forall k :: 0 <= k < |events| ==> Enabled(trace[k], events[k]) && trace[k + 1] == Next(trace[k], events[k])
  }

  /** In the gap, the item at the front of the queue is still the one that was copied. */
  ghost predicate GapIsSafe(w: World) {
    w.receiver.InGap? ==>
      && w.receiver.first.Copied?
      && (w.receiver.first.item.Response? || w.receiver.first.item.Factory?)
      && w.fake.queue != [] && w.fake.queue[0] == w.receiver.first.item
  }

  ghost predicate RemovalIsProper(r: Removal) {
    && r.item == r.copied
    && match r.item
       case TransmitFailure(_) => r.consumer == ByTransmit && r.delivered.None?
       case Failure(_) => r.consumer == ByReceive && r.delivered.None?
       case Response(bytes) => r.consumer == ByReceive && r.delivered == Some(bytes)
       case Factory(factory) => r.consumer == ByReceive && r.delivered == Some(factory(r.lastCommand))
  }

  ghost predicate Invariant(w: World) {
    && w.pushed == Items(w.removals) + w.fake.queue
    && GapIsSafe(w)
    && forall k :: 0 <= k < |w.removals| ==> RemovalIsProper(w.removals[k])
  }

  /** Removing nothing, or one item properly, keeps the books. */
  lemma RemovalKeepsBooks(w: World, u: World, r: Removal)
    requires Invariant(w) && u.pushed == w.pushed
    requires || (u.removals == w.removals && u.fake.queue == w.fake.queue)
             || (w.fake.queue != [] && u.fake.queue == w.fake.queue[1..] && r.item == w.fake.queue[0]
               && RemovalIsProper(r) && u.removals == w.removals + [r])
    ensures u.pushed == Items(u.removals) + u.fake.queue
    ensures forall k :: 0 <= k < |u.removals| ==> RemovalIsProper(u.removals[k])
  {
    hide RemovalIsProper, GapIsSafe;
    if u.removals != w.removals {
      assert Items(w.removals + [r]) == Items(w.removals) + [r.item];
    }
  }

  lemma NextKeepsInvariant(w: World, e: Event)
    requires Invariant(w) && Enabled(w, e)
    ensures Invariant(Next(w, e))
  {
    var u := Next(w, e);
    if e.PushEvent? {
      hide RemovalIsProper, Items;
    } else {
      var r := if |u.removals| > |w.removals| then u.removals[|w.removals|]
        else Removal(ByReceive, Failure(RC_IO_ERROR), Failure(RC_IO_ERROR), [], None);
      hide Items;
      RemovalKeepsBooks(w, u, r);
    }
  }

  /**
    In every interleaving: what was pushed is what was removed, in order, followed by what is pending; a receive
    removes exactly the item that it copied before the gap; responses and failures go to receives and transmit failures
    to transmits; and the bytes delivered are the scripted ones.
   */
  lemma {:induction false} RunsKeepInvariant(trace: seq<World>, events: seq<Event>, k: nat)
    requires IsRun(trace, events) && k <= |events|
    ensures trace[k].pushed == Items(trace[k].removals) + trace[k].fake.queue
    ensures GapIsSafe(trace[k])
    ensures forall j :: 0 <= j < |trace[k].removals| ==> RemovalIsProper(trace[k].removals[j])
  {
    if k > 0 {
      hide GapIsSafe, RemovalIsProper, Items, Next;
      RunsKeepInvariant(trace, events, k - 1);
      NextKeepsInvariant(trace[k - 1], events[k - 1]);
    }
  }

  /**
    So the exit for an empty queue in the second region is never taken, and that region returns what the copy returned.
   */
  lemma SecondRegionIsSafe(trace: seq<World>, events: seq<Event>, k: nat)
    requires IsRun(trace, events) && k < |events| && events[k].ReceiveEnds?
    ensures var w := trace[k];
            && w.fake.queue != [] && w.fake.queue[0] == w.receiver.first.item
            && SecondRegion(w.fake, w.receiver.first, w.receiver.args).1
               == CopyResponse(Materialized(w.receiver.first.item, w.receiver.first.lastCommand), w.receiver.args)
  {
    RunsKeepInvariant(trace, events, k);
  }

  // What the test that scripts a fake can count on afterwards.

  function CommandsOf(events: seq<Event>): seq<Bytes> {
    if events == [] then []
    else
      var n := |events| - 1;
      CommandsOf(events[..n]) + if events[n].TransmitEvent? then [events[n].command] else []
  }

  function FinalizesIn(events: seq<Event>): nat {
    if events == [] then 0
    else
      var n := |events| - 1;
      FinalizesIn(events[..n]) + if events[n].FinalizeCounts? then 1 else 0
  }

  /**
    In every interleaving the recorded commands are those transmitted, in order and whatever was answered, the counters
    count them and the finalizes, and the owner is there until a finalize detaches it.
   */
  lemma {:induction false} CountersCount(trace: seq<World>, events: seq<Event>, k: nat)
    requires IsRun(trace, events) && k <= |events|
    ensures var f := trace[k].fake;
            && f.commands == CommandsOf(events[..k])
            && f.transmits == |f.commands|
            && f.finalizes == FinalizesIn(events[..k])
            && (f.attached <==> FinalizeDetaches !in events[..k])
  {
    if k > 0 {
      var w, e := trace[k - 1], events[k - 1];
      assert Enabled(w, e) && trace[k] == Next(w, e);
      hide CommandsOf, FinalizesIn, Next, Enabled;
      CountersCount(trace, events, k - 1);
      assert events[..k] == events[..k - 1] + [e];
      hide IsRun;
      CountersStep(w, e);
      CountsOneMore(events[..k - 1], e);
    }
  }

  lemma CountsOneMore(events: seq<Event>, e: Event)
    ensures CommandsOf(events + [e]) == CommandsOf(events) + if e.TransmitEvent? then [e.command] else []
    ensures FinalizesIn(events + [e]) == FinalizesIn(events) + if e.FinalizeCounts? then 1 else 0
  {
    assert (events + [e])[..|events|] == events;
  }

  lemma CountersStep(w: World, e: Event)
    requires Enabled(w, e)
    ensures var f, g := w.fake, Next(w, e).fake;
            && g.commands == (if e.TransmitEvent? then f.commands + [e.command] else f.commands)
            && g.transmits == (if e.TransmitEvent? then f.transmits + 1 else f.transmits)
            && g.finalizes == (if e.FinalizeCounts? then f.finalizes + 1 else f.finalizes)
            && g.attached == (f.attached && !e.FinalizeDetaches?)
  {
  }

  /**
    What a transmit is answered: nothing scripted is an I/O error, a transmit failure is its own code and consumed, and
    everything else is left for the receive.
   */
  lemma TransmitAnswers(f: Fake, command: Bytes)
    ensures var (g, rc) := Transmit(f, command);
            && (!f.attached ==> g == f && rc == 0x000a_0005)
            && (f.attached && f.queue == [] ==> g.queue == [] && rc == 0x000a_000a)
            && (f.attached && f.queue != [] ==>
                  match f.queue[0]
                  case TransmitFailure(code) => g.queue == f.queue[1..] && rc == code
                  case _ => g.queue == f.queue && rc == 0)
  {
  }

  /**
    What a receive is answered when it delivers nothing, and what it leaves behind the size pointer: an I/O error if
    nothing is scripted, the code of a failure, which is consumed and zeroes the size, and a bad sequence for a transmit
    failure, which is not consumed.
   */
  lemma FailingReceives(f: Fake, args: Args)
    ensures var (g, reply) := Receive(f, args);
            && (!f.attached ==> g == f && reply == Reply(0x000a_0005, args.size, None))
            && (f.attached && f.queue == [] ==> g == f && reply == Reply(0x000a_000a, args.size, None))
            && (f.attached && f.queue != [] ==>
                  match f.queue[0]
                  case Failure(code) =>
                    g == f.(queue := f.queue[1..]) && reply.rc == code && reply.written.None?
                      && reply.size == (if args.size.Some? then Some(0) else None)
                  case TransmitFailure(_) => g == f && reply == Reply(0x000a_0007, args.size, None)
                  case _ => true)
  {
  }

  /**
    A response at the front is consumed exactly by a receive that can take all of it; size queries and short buffers
    leave it. A query and a taking succeed, a short buffer and a missing size pointer have codes of their own.
   */
  lemma ResponseConsumption(f: Fake, args: Args)
    requires f.attached && f.queue != [] && (f.queue[0].Response? || f.queue[0].Factory?)
    ensures var bytes := Materialized(f.queue[0], LastCommand(f));
            var (g, reply) := Receive(f, args);
            var fits := args.size.Some? && args.destination && |bytes| <= args.size.value;
            && g == (if fits then f.(queue := f.queue[1..]) else f)
            && reply.written == (if fits then Some(bytes) else None)
            && (args.size.Some? ==> reply.size == Some(|bytes|))
            && reply.rc ==
                 (if args.size.None? then 0x000a_0005
                  else if args.destination && |bytes| > args.size.value then 0x000a_0006
                  else 0)
  {
  }

  // The client that the fake is for: transmit a command, ask for the size of the response, receive it.

  datatype RoundResult = Delivered(bytes: Bytes) | Failed(rc: TssRc)

  function Round(f: Fake, command: Bytes): (Fake, RoundResult) {
    var (f1, rc) := Transmit(f, command);
    if rc != RC_SUCCESS then (f1, Failed(rc))
    else
      var (f2, query) := Receive(f1, Args(Some(0), false));
      if query.rc != RC_SUCCESS then (f2, Failed(query.rc))
      else
        var (f3, reply) := Receive(f2, Args(query.size, true));
        (f3, if reply.rc == RC_SUCCESS && reply.written.Some? then Delivered(reply.written.value) else Failed(reply.rc))
  }

  function Rounds(f: Fake, commands: seq<Bytes>): (Fake, seq<RoundResult>)
    decreases |commands|
  {
    if commands == [] then (f, [])
    else
      var (g, outcome) := Round(f, commands[0]);
      var (h, rest) := Rounds(g, commands[1..]);
      (h, [outcome] + rest)
  }

  /** What a scripted item means to the client that sends the given command. */
  function Scripted(item: Item, command: Bytes): RoundResult {
    match item
    case Response(bytes) => Delivered(bytes)
    case Factory(factory) => Delivered(factory(command))
    case Failure(rc) => Failed(rc)
    case TransmitFailure(rc) => Failed(rc)
  }

  predicate PretendsSuccess(item: Item) {
    (item.Failure? || item.TransmitFailure?) && item.rc == RC_SUCCESS
  }

  lemma RoundConsumesOne(f: Fake, command: Bytes)
    requires f.attached && f.queue != [] && !PretendsSuccess(f.queue[0])
    ensures Round(f, command).0.queue == f.queue[1..] && Round(f, command).0.attached
    ensures Round(f, command).1 == Scripted(f.queue[0], command)
  {
    var f1 := Transmit(f, command).0;
    assert LastCommand(f1) == command;
  }

  /**
    When no scripted failure pretends success, n rounds consume exactly the first n items and see what they script, each
    factory being given its own round's command; as many rounds as items drain the queue.
   */
  lemma {:induction false} RoundsFollowScript(f: Fake, commands: seq<Bytes>)
    requires f.attached && |commands| <= |f.queue|
    requires forall k :: 0 <= k < |commands| ==> !PretendsSuccess(f.queue[k])
    ensures Rounds(f, commands).0.queue == f.queue[|commands|..]
    ensures |Rounds(f, commands).1| == |commands|
    ensures forall k :: 0 <= k < |commands| ==> Rounds(f, commands).1[k] == Scripted(f.queue[k], commands[k])
    decreases |commands|
  {
    if commands != [] {
      hide Round;
      RoundConsumesOne(f, commands[0]);
      var g := Round(f, commands[0]).0;
      assert forall k :: 0 <= k < |commands| - 1 ==> g.queue[k] == f.queue[k + 1];
      RoundsFollowScript(g, commands[1..]);
      assert g.queue[|commands| - 1..] == f.queue[|commands|..];
    }
  }

  /** What is left of the queue after the front item may not be consumed by the same round. */
  predicate StopsTheRound(rest: seq<Item>, command: Bytes) {
    || rest == []
    || rest[0].TransmitFailure?
    || ((rest[0].Response? || rest[0].Factory?) && Materialized(rest[0], command) != [])
  }

  /**
    Which queues lose exactly one item to a round. A failure that pretends success lets the round go on: after a
    transmit failure it asks for the size and receives, after a failure it receives with a size of zero.
   */
  predicate ConsumesOne(queue: seq<Item>, command: Bytes)
    requires queue != []
  {
    if !PretendsSuccess(queue[0]) then true
    else if queue[0].TransmitFailure? then |queue| == 1 || queue[1].TransmitFailure?
    else StopsTheRound(queue[1..], command)
  }

  lemma RoundConsumesOneExactly(f: Fake, command: Bytes)
    requires f.attached && f.queue != []
    ensures Round(f, command).0.queue == f.queue[1..] <==> ConsumesOne(f.queue, command)
  {
    var f1 := Transmit(f, command).0;
    assert LastCommand(f1) == command;
    LaterItems(f.queue);
  }

  lemma LaterItems(queue: seq<Item>)
    requires queue != []
    ensures |queue| > 1 ==> queue[1..][0] == queue[1] && queue[1..][1..] == queue[2..]
    ensures |queue| > 2 ==> queue[1..][1..][1..] == queue[3..]
  {
  }

  /** A round consumes the front item and reports what it scripts exactly when the item does not pretend success. */
  lemma RoundFollowsScriptExactly(f: Fake, command: Bytes)
    requires f.attached && f.queue != []
    ensures (Round(f, command).0.queue == f.queue[1..] && Round(f, command).1 == Scripted(f.queue[0], command)) <==>
      !PretendsSuccess(f.queue[0])
  {
    if !PretendsSuccess(f.queue[0]) {
      RoundConsumesOne(f, command);
    } else if Round(f, command).1 == Failed(RC_SUCCESS) {
      SilentRound(f, command);
    }
  }

  ghost predicate ConsumedSilently(f: Fake, g: Fake, command: Bytes, m: nat) {
    && m <= |f.queue|
    && g == f.(queue := f.queue[m..], transmits := f.transmits + 1, commands := f.commands + [command])
    && forall k :: 0 <= k < m ==> PretendsSuccess(f.queue[k])
  }

  /** A round that reports a failure with code zero has consumed two or three such failures. */
  lemma SilentRound(f: Fake, command: Bytes)
    requires f.attached && Round(f, command).1 == Failed(RC_SUCCESS)
    ensures exists m :: 2 <= m <= 3 && ConsumedSilently(f, Round(f, command).0, command, m)
  {
    var f1 := Transmit(f, command).0;
    assert LastCommand(f1) == command;
    LaterItems(f.queue);
    var m := if f.queue[0].TransmitFailure? then 3 else 2;
    assert ConsumedSilently(f, Round(f, command).0, command, m);
  }

  /** The rounds consume exactly the first items of the script, and report what these script. */
  ghost predicate FollowScript(f: Fake, commands: seq<Bytes>, script: seq<Item>)
    requires |commands| <= |script|
  {
    && Rounds(f, commands).0.queue == script[|commands|..]
    && |Rounds(f, commands).1| == |commands|
    && forall k :: 0 <= k < |commands| ==> Rounds(f, commands).1[k] == Scripted(script[k], commands[k])
  }

  /** Once rounds are ahead of the script by failures that pretend success, they can never fall back in step. */
  lemma {:induction false} AheadForEver(f: Fake, commands: seq<Bytes>, script: seq<Item>, ahead: nat)
    requires f.attached && |commands| <= |script|
    requires 1 <= ahead <= |script| && f.queue == script[ahead..]
    requires forall k :: 0 <= k < ahead ==> PretendsSuccess(script[k])
    ensures !FollowScript(f, commands, script)
    decreases |commands|
  {
    if commands != [] && FollowScript(f, commands, script) {
      var (g, outcome) := Round(f, commands[0]);
      assert outcome == Rounds(f, commands).1[0] == Scripted(script[0], commands[0]);
      SilentRound(f, commands[0]);
      var m :| 2 <= m <= 3 && ConsumedSilently(f, g, commands[0], m);
      hide Round, PretendsSuccess;
      assert g.queue == script[1..][ahead - 1 + m..];
      forall k | 0 <= k < ahead - 1 + m ensures PretendsSuccess(script[1..][k]) {
        assert k + 1 >= ahead ==> script[k + 1] == f.queue[k + 1 - ahead];
      }
      RestFollowsScript(f, commands, script);
      AheadForEver(g, commands[1..], script[1..], ahead - 1 + m);
    }
  }

  lemma RestFollowsScript(f: Fake, commands: seq<Bytes>, script: seq<Item>)
    requires commands != [] && |commands| <= |script|
    ensures FollowScript(f, commands, script) <==>
              Round(f, commands[0]).1 == Scripted(script[0], commands[0])
              && FollowScript(Round(f, commands[0]).0, commands[1..], script[1..])
  {
    hide Round, Scripted;
    var (g, outcome) := Round(f, commands[0]);
    var (h, rest) := Rounds(g, commands[1..]);
    assert Rounds(f, commands) == (h, [outcome] + rest);
    assert script[1..][|commands| - 1..] == script[|commands|..];
    if FollowScript(f, commands, script) {
      forall k | 0 <= k < |commands| - 1 ensures rest[k] == Scripted(script[1..][k], commands[1..][k]) {
        assert rest[k] == Rounds(f, commands).1[k + 1];
      }
    }
  }

  /** The script is followed, item by item, exactly when none of the items pretends success. */
  lemma {:induction false} RoundsFollowScriptExactly(f: Fake, commands: seq<Bytes>)
    requires f.attached && |commands| <= |f.queue|
    ensures FollowScript(f, commands, f.queue) <==> forall k :: 0 <= k < |commands| ==> !PretendsSuccess(f.queue[k])
    decreases |commands|
  {
    hide Round, Rounds;
    if forall k :: 0 <= k < |commands| ==> !PretendsSuccess(f.queue[k]) {
      RoundsFollowScript(f, commands);
    } else if FollowScript(f, commands, f.queue) {
      var g := Round(f, commands[0]).0;
      RestFollowsScript(f, commands, f.queue);
      if !PretendsSuccess(f.queue[0]) {
        RoundConsumesOne(f, commands[0]);
        assert forall k :: 0 <= k < |commands| - 1 ==> g.queue[k] == f.queue[k + 1];
        RoundsFollowScriptExactly(g, commands[1..]);
      } else {
        SilentRound(f, commands[0]);
        var m :| 2 <= m <= 3 && ConsumedSilently(f, g, commands[0], m);
        assert g.queue == f.queue[1..][m - 1..];
        AheadForEver(g, commands[1..], f.queue[1..], m - 1);
      }
    }
  }

  /** For example: a transmit failure with code zero in front of a response, of which one round then consumes both. */
  lemma ZeroFailureSwallowsTwo(f: Fake, command: Bytes, bytes: Bytes)
    requires f.attached && f.queue == [TransmitFailure(RC_SUCCESS), Response(bytes)]
    ensures Round(f, command).0.queue == [] && Round(f, command).1 == Delivered(bytes)
  {
    var f1 := Transmit(f, command).0;
    assert f1.queue == [Response(bytes)];
  }
}
