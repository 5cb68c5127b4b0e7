/**
  Holders are objects whose state lives behind a unique pointer and whose moves are the defaulted ones. A resource is
  created with its events (its birth), belongs to at most one holder at a time, and is disposed of with further events
  (its death) when the pointer that owns it is overwritten or destroyed. The ledger is the interleaving of all of these
  events.
 */
module UniqueOwner {
  import opened Common

  /** A creation: what it does at once, and, if it yields a holder, what disposing of that holder's resource will do. */
  datatype Plan<E> = Plan(birth: seq<E>, owned: bool, death: seq<E>)

  datatype Tagged<E> = Tagged(resource: nat, event: E)

  datatype World<E> = World(holders: map<nat, Option<nat>>, plans: seq<Plan<E>>, ledger: seq<Tagged<E>>)

  function Start<E>(): World<E> { World(map[], [], []) }

  datatype Op<E> =
    | CreateEmpty(holder: nat)
    | Create(holder: nat, plan: Plan<E>)
    | MoveConstruct(holder: nat, source: nat)
    | MoveAssign(holder: nat, source: nat)
    | Destroy(holder: nat)

  /** New holders are new; the holders of moves and destructions exist. */
  predicate Enabled<E>(w: World<E>, op: Op<E>) {
    match op
    case CreateEmpty(holder) => holder !in w.holders
    case Create(holder, _) => holder !in w.holders
    case MoveConstruct(holder, source) => holder !in w.holders && source in w.holders
    case MoveAssign(holder, source) => holder in w.holders && source in w.holders
    case Destroy(holder) => holder in w.holders
  }

  function Tag<E>(resource: nat, events: seq<E>): (tagged: seq<Tagged<E>>)
    ensures |tagged| == |events|
  {
    seq(|events|, k requires 0 <= k < |events| => Tagged(resource, events[k]))
  }

  function Dispose<E>(w: World<E>, resource: Option<nat>): World<E> {
    match resource
    case None => w
    case Some(r) => if r < |w.plans| then w.(ledger := w.ledger + Tag(r, w.plans[r].death)) else w
  }

  /**
    Move assignment takes the source's pointer first and then deletes the old resource; assigning a holder to itself
    does nothing.
   */
  function Next<E>(w: World<E>, op: Op<E>): World<E>
    requires Enabled(w, op)
  {
    match op
    case CreateEmpty(holder) => w.(holders := w.holders[holder := None])
    case Create(holder, plan) =>
      var r := |w.plans|;
      World(if plan.owned then w.holders[holder := Some(r)]
        else w.holders, w.plans + [plan], w.ledger + Tag(r, plan.birth))
    case MoveConstruct(holder, source) => w.(holders := w.holders[holder := w.holders[source]][source := None])
    case MoveAssign(holder, source) =>
      if holder == source then w
      else Dispose(w.(holders := w.holders[holder := w.holders[source]][source := None]), w.holders[holder])
    case Destroy(holder) => Dispose(w.(holders := w.holders - {holder}), w.holders[holder])
  }

  /** The part of a ledger that is about one resource. */
  function EventsOf<E>(ledger: seq<Tagged<E>>, resource: nat): seq<E> {
    if ledger == [] then []
    else
      var n := |ledger| - 1;
      EventsOf(ledger[..n], resource) + if ledger[n].resource == resource then [ledger[n].event] else []
  }

  lemma {:induction false} EventsOfTagged<E>(ledger: seq<Tagged<E>>, r: nat, events: seq<E>, resource: nat)
    ensures EventsOf(ledger + Tag(r, events), resource) ==
      EventsOf(ledger, resource) + if r == resource then events else []
  {
    if events == [] {
      assert ledger + Tag(r, events) == ledger;
    } else {
      var n := |events| - 1;
      var longer := ledger + Tag(r, events);
      assert longer[..|longer| - 1] == ledger + Tag(r, events[..n]);
      EventsOfTagged(ledger, r, events[..n], resource);
      assert events == events[..n] + [events[n]];
    }
  }

  predicate Owns<E>(w: World<E>, holder: nat, resource: nat) {
    holder in w.holders && w.holders[holder] == Some(resource)
  }

  ghost predicate HasOwner<E>(w: World<E>, resource: nat) {
    exists holder: nat :: Owns(w, holder, resource)
  }

  /** What has happened to a resource so far: its birth, and its death once nobody owns it any more. */
  ghost predicate IsAccounted<E>(w: World<E>, resource: nat)
    requires resource < |w.plans|
  {
    var plan := w.plans[resource];
    && EventsOf(w.ledger, resource) ==
      (if plan.owned && !HasOwner(w, resource) then plan.birth + plan.death else plan.birth)
    && (HasOwner(w, resource) ==> plan.owned)
  }

  ghost predicate OwnersAreUnique<E>(w: World<E>) {
    forall a: nat, b: nat, resource: nat :: Owns(w, a, resource) && Owns(w, b, resource) ==> a == b
  }

  ghost predicate Invariant<E>(w: World<E>) {
    && OwnersAreUnique(w)
    && (forall resource: nat :: HasOwner(w, resource) ==> resource < |w.plans|)
    && (forall resource: nat :: resource < |w.plans| ==> IsAccounted(w, resource))
    && (forall resource: nat :: resource >= |w.plans| ==> EventsOf(w.ledger, resource) == [])
  }

  lemma CreateEmptyKeepsInvariant<E>(w: World<E>, op: Op<E>)
    requires Invariant(w) && Enabled(w, op) && op.CreateEmpty?
    ensures Invariant(Next(w, op))
  {
    var u := Next(w, op);
    forall h: nat, resource: nat ensures Owns(u, h, resource) == Owns(w, h, resource) {}
    forall resource: nat ensures HasOwner(u, resource) == HasOwner(w, resource) {
      SameOwners(w, u, resource);
    }
    forall resource: nat | resource < |w.plans| ensures IsAccounted(u, resource) {
      assert IsAccounted(w, resource);
    }
  }

  lemma SameOwners<E>(w: World<E>, u: World<E>, resource: nat)
    requires forall h: nat :: Owns(u, h, resource) == Owns(w, h, resource)
    ensures HasOwner(u, resource) == HasOwner(w, resource)
  {
  }

  lemma CreateKeepsInvariant<E>(w: World<E>, op: Op<E>)
    requires Invariant(w) && Enabled(w, op) && op.Create?
    ensures Invariant(Next(w, op))
  {
    var u, r := Next(w, op), |w.plans|;
    forall h: nat, resource: nat
      ensures Owns(u, h, resource) <==> (Owns(w, h, resource) || (op.plan.owned && h == op.holder && resource == r))
    {}
    assert !HasOwner(w, r);
    forall resource: nat
      ensures HasOwner(u, resource) <==> (HasOwner(w, resource) || (op.plan.owned && resource == r))
      ensures EventsOf(u.ledger, resource) == EventsOf(w.ledger, resource) + if resource == r then op.plan.birth else []
    {
      hide EventsOf;
      EventsOfTagged(w.ledger, r, op.plan.birth, resource);
      if op.plan.owned && resource == r {
        assert Owns(u, op.holder, resource);
      } else {
        SameOwners(w, u, resource);
      }
    }
    hide EventsOf, HasOwner, Owns, Tag;
    forall resource: nat | resource < |u.plans| ensures IsAccounted(u, resource) {
      assert resource < r ==> IsAccounted(w, resource);
    }
  }

  /** After a step that takes the only owner of one resource away, disposing of that resource restores the invariant. */
  lemma DropKeepsInvariant<E>(w: World<E>, u: World<E>, dropped: Option<nat>)
    requires Invariant(w) && u.plans == w.plans && u.ledger == w.ledger
    requires OwnersAreUnique(u)
    requires forall resource: nat :: HasOwner(u, resource) <==> HasOwner(w, resource) && Some(resource) != dropped
    requires dropped.Some? ==> HasOwner(w, dropped.value)
    ensures Invariant(Dispose(u, dropped))
  {
    var v := Dispose(u, dropped);
    forall h: nat, resource: nat ensures Owns(v, h, resource) == Owns(u, h, resource) {}
    forall resource: nat
      ensures HasOwner(v, resource) == HasOwner(u, resource)
      ensures EventsOf(v.ledger, resource) ==
        EventsOf(w.ledger, resource) + if Some(resource) == dropped then w.plans[resource].death else []
    {
      SameOwners(u, v, resource);
      if dropped.Some? {
        EventsOfTagged(w.ledger, dropped.value, w.plans[dropped.value].death, resource);
      }
    }
    hide EventsOf, HasOwner, Owns, Tag, Dispose;
    assert v.plans == w.plans;
    forall resource: nat | resource < |w.plans| ensures IsAccounted(v, resource) {
      assert IsAccounted(w, resource);
    }
  }

  /** A move hands every resource on to exactly one holder, except the one that it overwrites. */
  lemma MoveKeepsInvariant<E>(w: World<E>, op: Op<E>)
    requires Invariant(w) && Enabled(w, op) && (op.MoveConstruct? || op.MoveAssign?)
    ensures Invariant(Next(w, op))
  {
    if !(op.MoveAssign? && op.holder == op.source) {
      var u := w.(holders := w.holders[op.holder := w.holders[op.source]][op.source := None]);
      var dropped := if op.MoveAssign? then w.holders[op.holder] else None;
      forall h: nat, resource: nat
        ensures Owns(u, h, resource) <==>
                  (h == op.holder && Owns(w, op.source, resource))
                    || (h != op.holder && h != op.source && Owns(w, h, resource))
      {}
      assert dropped.Some? ==> Owns(w, op.holder, dropped.value);
      forall resource: nat ensures HasOwner(u, resource) <==> HasOwner(w, resource) && Some(resource) != dropped {
        if Owns(w, op.source, resource) {
          assert Owns(u, op.holder, resource);
        } else if HasOwner(w, resource) {
          var h: nat :| Owns(w, h, resource);
          assert Some(resource) != dropped ==> Owns(u, h, resource);
        }
      }
      DropKeepsInvariant(w, u, dropped);
    }
  }

  lemma DestroyKeepsInvariant<E>(w: World<E>, op: Op<E>)
    requires Invariant(w) && Enabled(w, op) && op.Destroy?
    ensures Invariant(Next(w, op))
  {
    var u := w.(holders := w.holders - {op.holder});
    var dropped := w.holders[op.holder];
    forall h: nat, resource: nat ensures Owns(u, h, resource) <==> h != op.holder && Owns(w, h, resource) {}
    assert dropped.Some? ==> Owns(w, op.holder, dropped.value);
    forall resource: nat ensures HasOwner(u, resource) <==> HasOwner(w, resource) && Some(resource) != dropped {
      if HasOwner(w, resource) {
        var h: nat :| Owns(w, h, resource);
        assert Some(resource) != dropped ==> Owns(u, h, resource);
      }
    }
    DropKeepsInvariant(w, u, dropped);
  }

  lemma NextKeepsInvariant<E>(w: World<E>, op: Op<E>)
    requires Invariant(w) && Enabled(w, op)
    ensures Invariant(Next(w, op))
  {
    match op
    case CreateEmpty(_) => CreateEmptyKeepsInvariant(w, op);
    case Create(_, _) => CreateKeepsInvariant(w, op);
    case Destroy(_) => DestroyKeepsInvariant(w, op);
    case _ => MoveKeepsInvariant(w, op);
  }

  ghost predicate IsRun<E>(trace: seq<World<E>>, ops: seq<Op<E>>) {
    && |trace| == |ops| + 1
    && trace[0] == Start()
    && forall k :: 0 <= k < |ops| ==> Enabled(trace[k], ops[k]) && trace[k + 1] == Next(trace[k], ops[k])
  }

  /**
    In every run every resource has at most one owner, and its part of the ledger is its birth, followed by its death
    once it has none.
   */
  lemma {:induction false} RunsKeepInvariant<E>(trace: seq<World<E>>, ops: seq<Op<E>>, k: nat)
    requires IsRun(trace, ops) && k <= |ops|
    ensures Invariant(trace[k])
  {
    if k > 0 {
      RunsKeepInvariant(trace, ops, k - 1);
      NextKeepsInvariant(trace[k - 1], ops[k - 1]);
    }
  }

  /** Every resource of a run was created by one of its operations. */
  lemma {:induction false} PlansComeFromOps<E>(trace: seq<World<E>>, ops: seq<Op<E>>, k: nat, resource: nat)
    requires IsRun(trace, ops) && k <= |ops| && resource < |trace[k].plans|
    ensures exists j :: 0 <= j < k && ops[j].Create? && ops[j].plan == trace[k].plans[resource]
  {
    if k > 0 {
      var w, op := trace[k - 1], ops[k - 1];
      assert trace[k].plans == if op.Create? then w.plans + [op.plan] else w.plans;
      if resource < |w.plans| {
        PlansComeFromOps(trace, ops, k - 1, resource);
      }
    }
  }

  /** When all holders are gone, every resource has lived its whole life exactly once. */
  lemma EverythingIsDisposed<E>(trace: seq<World<E>>, ops: seq<Op<E>>, resource: nat)
    requires IsRun(trace, ops)
    requires var w := trace[|ops|]; w.holders == map[] && resource < |w.plans|
    ensures var w := trace[|ops|]; var plan := w.plans[resource];
            EventsOf(w.ledger, resource) == plan.birth + if plan.owned then plan.death else []
  {
    var w := trace[|ops|];
    RunsKeepInvariant(trace, ops, |ops|);
    assert IsAccounted(w, resource);
  }
}
