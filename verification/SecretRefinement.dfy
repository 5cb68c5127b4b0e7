/** The secret buffer objects refine the theory of unique owners: every step of a buffer is its abstract step. */
module SecretRefinement {
  import opened Common
  import opened HeldObjects
  import opened SecretBuffer
  import opened UniqueOwner

  type Buffers = map<nat, Buffer>
  type Impls = map<nat, Impl>
  type Deaths = map<nat, seq<SecretEvent>>

  ghost function LinkOf(buffer: Buffer): Option<Impl>
    reads buffer
  {
    if buffer.impl == null then None else Some(buffer.impl)
  }

  ghost function LinksOf(buffers: Buffers): map<nat, Option<Impl>>
    reads buffers.Values
  {
    map h | h in buffers :: LinkOf(buffers[h])
  }

  ghost function LivesOf(impls: Impls): map<nat, seq<SecretEvent>>
    reads impls.Values
  {
    map r | r in impls :: impls[r].events
  }

  /** What destroying an implementation depends on. */
  datatype Shape = Shape(capacity: nat, size: nat, locked: bool)

  ghost function ShapesOf(impls: Impls): map<nat, Shape>
    reads impls.Values
  {
    map r | r in impls :: Shape(impls[r].storage.Length, impls[r].size, impls[r].locked)
  }

  /** A secret that has an owner is intact, and destroying it would be the death that its plan foresees. */
  ghost predicate OwnedAreIntact(holders: map<nat, Option<nat>>, shapes: map<nat, Shape>, deaths: Deaths) {
    forall h :: h in holders && holders[h].Some? ==> IsIntact(holders[h].value, shapes, deaths)
  }

  ghost predicate IsIntact(r: nat, shapes: map<nat, Shape>, deaths: Deaths) {
    && r in shapes && r in deaths
    && (shapes[r].size == 0 || shapes[r].size == shapes[r].capacity) && (shapes[r].locked ==> shapes[r].size > 0)
    && deaths[r] == Death(shapes[r].size, shapes[r].locked)
  }

  /**
    What a heap of buffers stands for: the holders are the buffer objects, the resources are the implementation
    objects, and the events of each implementation are its part of the abstract ledger.
   */
  ghost predicate Represents(w: World<SecretEvent>, buffers: Buffers, impls: Impls, deaths: Deaths)
    reads buffers.Values, impls.Values
  {
    && AreDifferent(buffers, impls)
    && OwnedAreIntact(w.holders, ShapesOf(impls), deaths)
    && LinksMatch(w.holders, LinksOf(buffers), impls)
    && LivesMatch(w, LivesOf(impls), deaths)
  }

  lemma HoldersAreLinked(w: World<SecretEvent>, buffers: Buffers, impls: Impls, deaths: Deaths)
    requires Represents(w, buffers, impls, deaths)
    ensures buffers.Keys == w.holders.Keys && impls.Keys == deaths.Keys
    ensures forall h :: h in buffers ==> LinkMatches(w.holders[h], LinksOf(buffers)[h], impls)
  {
    assert LivesOf(impls).Keys == impls.Keys;
  }

  lemma LinkedIsIntact(w: World<SecretEvent>, buffers: Buffers, impls: Impls, deaths: Deaths, h: nat)
    requires Represents(w, buffers, impls, deaths) && h in buffers
    ensures h in w.holders && buffers[h].Valid()
    ensures w.holders[h].Some? ==> IsIntact(w.holders[h].value, ShapesOf(impls), deaths)
  {
    hide LivesMatch, Death;
    HoldersAreLinked(w, buffers, impls, deaths);
  }

  /** A step that leaves every shape but one alone, and nobody with that one, leaves all owned secrets intact. */
  lemma OwnedStayIntact(before: map<nat, Option<nat>>, after: map<nat, Option<nat>>, shapes: map<nat, Shape>,
      later: map<nat, Shape>,
      changed: Option<nat>, deaths: Deaths)
    requires OwnedAreIntact(before, shapes, deaths) && shapes.Keys == later.Keys
    requires forall r :: r in shapes && changed != Some(r) ==> later[r] == shapes[r]
    requires forall h :: h in after && after[h].Some? ==>
      after[h] != changed && exists g :: g in before && before[g] == after[h]
    ensures OwnedAreIntact(after, later, deaths)
  {
    hide IsIntact;
    forall h | h in after && after[h].Some? ensures IsIntact(after[h].value, later, deaths) {
      var g :| g in before && before[g] == after[h];
      SameShapeIsIntact(after[h].value, shapes, later, deaths);
    }
  }

  lemma SameShapeIsIntact(r: nat, shapes: map<nat, Shape>, later: map<nat, Shape>, deaths: Deaths)
    requires IsIntact(r, shapes, deaths) && (r in shapes ==> r in later && later[r] == shapes[r])
    ensures r in shapes && IsIntact(r, later, deaths)
  {
  }

  // The four steps: what each does to the snapshots, and then that this is the abstract step.

  ghost predicate OthersKept(shapes: map<nat, Shape>, later: map<nat, Shape>, changed: Option<nat>) {
    shapes.Keys == later.Keys && forall r :: r in shapes && changed != Some(r) ==> later[r] == shapes[r]
  }

  lemma DroppedFacts(buffers: Buffers, holder: nat, resource: Option<nat>, impls: Impls, deaths: Deaths)
    requires holder in buffers && LinkMatches(resource, LinkOf(buffers[holder]), impls)
    requires resource.Some? ==> IsIntact(resource.value, ShapesOf(impls), deaths)
    ensures resource.None? <==> buffers[holder].impl == null
    ensures resource.Some? ==>
              && resource.value in impls && resource.value in deaths && impls[resource.value] == buffers[holder].impl
              && deaths[resource.value] == Death(impls[resource.value].size, impls[resource.value].locked)
  {
    hide Death;
  }

  /** At most one implementation was destroyed, and that in the way foreseen. */
  ghost predicate OneDestroyed(impls: Impls, resource: Option<nat>, lives: map<nat, seq<SecretEvent>>,
      shapes: map<nat, Shape>, deaths: Deaths)
    requires lives.Keys == shapes.Keys == impls.Keys == deaths.Keys
    reads impls.Values
  {
    forall r :: r in impls ==>
      if resource == Some(r) then impls[r].events == lives[r] + deaths[r]
      else impls[r].events == lives[r] && Shape(impls[r].storage.Length, impls[r].size, impls[r].locked) == shapes[r]
  }

  method Assign(buffers: Buffers, holder: nat, source: nat, ghost resource: Option<nat>, ghost impls: Impls,
      ghost deaths: Deaths)
    requires holder in buffers && source in buffers && holder != source && AreDifferent(buffers, impls)
      && impls.Keys == deaths.Keys
    requires LinkMatches(resource, LinkOf(buffers[holder]), impls)
      && (resource.Some? ==> IsIntact(resource.value, ShapesOf(impls), deaths))
    requires buffers[holder].Valid() && buffers[source].Valid()
    requires buffers[holder].impl != null ==> buffers[holder].impl != buffers[source].impl
    modifies buffers[holder], buffers[source], buffers[holder].Footprint()
    ensures forall h :: h in buffers ==>
      LinkOf(buffers[h]) == if h == holder then old(LinkOf(buffers[source])) else if h == source then None
        else old(LinkOf(buffers[h]))
    ensures OneDestroyed(impls, resource, old(LivesOf(impls)), old(ShapesOf(impls)), deaths)
  {
    hide Death, IsIntact, LinkMatches;
    DroppedFacts(buffers, holder, resource, impls, deaths);
    buffers[holder].MoveAssign(buffers[source]);
  }

  /** The snapshots of implementations of which at most one was destroyed. */
  lemma KeptSnapshots(impls: Impls, resource: Option<nat>, lives: map<nat, seq<SecretEvent>>, shapes: map<nat, Shape>,
      deaths: Deaths)
    requires lives.Keys == shapes.Keys == impls.Keys == deaths.Keys && (resource.Some? ==> resource.value in impls)
    requires OneDestroyed(impls, resource, lives, shapes, deaths)
    ensures LivesOf(impls) == Ended(lives, resource, deaths) && OthersKept(shapes, ShapesOf(impls), resource)
  {
  }

  method SelfAssign(buffers: Buffers, holder: nat, ghost impls: Impls)
    requires holder in buffers && buffers[holder].Valid()
    modifies buffers[holder], buffers[holder].Footprint()
    ensures LinksOf(buffers) == old(LinksOf(buffers)) && LivesOf(impls) == old(LivesOf(impls))
      && ShapesOf(impls) == old(ShapesOf(impls))
  {
    buffers[holder].MoveAssign(buffers[holder]);
  }

  method MoveAssign(buffers: Buffers, holder: nat, source: nat, ghost w: World<SecretEvent>, ghost impls: Impls,
      ghost deaths: Deaths)
    requires holder in buffers && source in buffers
    requires Represents(w, buffers, impls, deaths) && OwnersAreUnique(w)
    modifies buffers[holder], buffers[source], buffers[holder].Footprint()
    ensures Represents(Next(w, Op.MoveAssign(holder, source)), buffers, impls, deaths)
  {
    hide LivesMatch, Ended, OwnersAreUnique, LinksMatch, OwnedAreIntact, IsIntact;
    HoldersAreLinked(w, buffers, impls, deaths);
    LinkedIsIntact(w, buffers, impls, deaths, holder);
    LinkedIsIntact(w, buffers, impls, deaths, source);
    if holder == source {
      SelfAssign(buffers, holder, impls);
    } else {
      ghost var links, lives, shapes := LinksOf(buffers), LivesOf(impls), ShapesOf(impls);
      LinkedApart(w, links, impls, holder, source);
      MoveAssignMatches(w, holder, source, LinksOf(buffers), LivesOf(impls), deaths, impls);
      AssignedOwners(w, holder, source);
      hide Next, AreDifferent, LinkMatches;
      Assign(buffers, holder, source, w.holders[holder], impls, deaths);
      MovedLinks(links, LinksOf(buffers), holder, source);
      KeptSnapshots(impls, w.holders[holder], lives, shapes, deaths);
      OwnedStayIntact(w.holders, Next(w, Op.MoveAssign(holder, source)).holders, shapes, ShapesOf(impls),
        w.holders[holder], deaths);
    }
  }

  lemma AssignedOwners(w: World<SecretEvent>, holder: nat, source: nat)
    requires OwnersAreUnique(w) && holder in w.holders && source in w.holders && holder != source
    ensures var after := Next(w, Op.MoveAssign(holder, source)).holders;
            forall h :: h in after && after[h].Some? ==>
              after[h] != w.holders[holder] && exists g :: g in w.holders && w.holders[g] == after[h]
  {
    var after := Next(w, Op.MoveAssign(holder, source)).holders;
    hide OwnersAreUnique;
    forall h | h in after && after[h].Some?
      ensures after[h] != w.holders[holder] && exists g :: g in w.holders && w.holders[g] == after[h]
    {
      var g := if h == holder then source else h;
      assert w.holders[g] == after[h];
      DifferentHoldersDifferentResources(w, g, holder);
    }
  }

  method Take(buffers: Buffers, holder: nat, source: nat, ghost impls: Impls) returns (longer: Buffers)
    requires holder !in buffers && source in buffers && AreDifferent(buffers, impls)
    modifies buffers[source]
    ensures AreDifferent(longer, impls)
    ensures forall h :: h in longer ==> (h in buffers && longer[h] == buffers[h]) || fresh(longer[h])
    ensures LinksOf(longer) == old(LinksOf(buffers))[holder := old(LinksOf(buffers)[source])][source := None]
    ensures LivesOf(impls) == old(LivesOf(impls)) && ShapesOf(impls) == old(ShapesOf(impls))
  {
    var buffer := new Buffer.Move(buffers[source]);
    longer := buffers[holder := buffer];
  }

  method MoveConstruct(buffers: Buffers, holder: nat, source: nat, ghost w: World<SecretEvent>, ghost impls: Impls,
      ghost deaths: Deaths)
    returns (longer: Buffers)
    requires holder !in buffers && source in buffers && Represents(w, buffers, impls, deaths)
    modifies buffers[source]
    ensures Represents(Next(w, Op.MoveConstruct(holder, source)), longer, impls, deaths)
    ensures forall h :: h in longer ==> (h in buffers && longer[h] == buffers[h]) || fresh(longer[h])
  {
    hide LivesMatch, LinksMatch, AreDifferent, OwnedAreIntact;
    HoldersAreLinked(w, buffers, impls, deaths);
    MoveConstructMatches(w, holder, source, LinksOf(buffers), LivesOf(impls), deaths, impls);
    OwnedStayIntact(w.holders, w.holders[holder := w.holders[source]][source := None], ShapesOf(impls),
      ShapesOf(impls), None, deaths);
    longer := Take(buffers, holder, source, impls);
  }

  method Drop(buffers: Buffers, holder: nat, ghost resource: Option<nat>, ghost impls: Impls, ghost deaths: Deaths)
      returns (shorter: Buffers)
    requires holder in buffers && AreDifferent(buffers, impls) && impls.Keys == deaths.Keys && buffers[holder].Valid()
    requires LinkMatches(resource, LinkOf(buffers[holder]), impls)
      && (resource.Some? ==> IsIntact(resource.value, ShapesOf(impls), deaths))
    modifies buffers[holder], buffers[holder].Footprint()
    ensures shorter == buffers - {holder}
    ensures forall h :: h in shorter ==> LinkOf(buffers[h]) == old(LinkOf(buffers[h]))
    ensures OneDestroyed(impls, resource, old(LivesOf(impls)), old(ShapesOf(impls)), deaths)
  {
    hide Death, IsIntact, LinkMatches;
    DroppedFacts(buffers, holder, resource, impls, deaths);
    buffers[holder].Destroy();
    shorter := buffers - {holder};
  }

  method Destroy(buffers: Buffers, holder: nat, ghost w: World<SecretEvent>, ghost impls: Impls, ghost deaths: Deaths)
      returns (shorter: Buffers)
    requires holder in buffers && Represents(w, buffers, impls, deaths) && OwnersAreUnique(w)
    modifies buffers[holder], buffers[holder].Footprint()
    ensures Represents(Next(w, Op.Destroy(holder)), shorter, impls, deaths)
    ensures shorter == buffers - {holder}
  {
    hide LivesMatch, Ended, OwnersAreUnique, LinksMatch, OwnedAreIntact, IsIntact, AreDifferent;
    HoldersAreLinked(w, buffers, impls, deaths);
    LinkedIsIntact(w, buffers, impls, deaths, holder);
    ghost var links, lives, shapes := LinksOf(buffers), LivesOf(impls), ShapesOf(impls);
    DestroyMatches(w, holder, links, lives, deaths, impls);
    DestroyedOwners(w, holder);
    hide Next, LinkMatches;
    shorter := Drop(buffers, holder, w.holders[holder], impls, deaths);
    assert LinksOf(shorter) == links - {holder};
    FewerAreDifferent(buffers, holder, impls);
    KeptSnapshots(impls, w.holders[holder], lives, shapes, deaths);
    OwnedStayIntact(w.holders, Next(w, Op.Destroy(holder)).holders, shapes, ShapesOf(impls), w.holders[holder], deaths);
  }

  lemma DestroyedOwners(w: World<SecretEvent>, holder: nat)
    requires OwnersAreUnique(w) && holder in w.holders
    ensures var after := Next(w, Op.Destroy(holder)).holders;
            forall h :: h in after && after[h].Some? ==>
              after[h] != w.holders[holder] && exists g :: g in w.holders && w.holders[g] == after[h]
  {
    var after := Next(w, Op.Destroy(holder)).holders;
    hide OwnersAreUnique;
    forall h | h in after && after[h].Some?
      ensures after[h] != w.holders[holder] && exists g :: g in w.holders && w.holders[g] == after[h]
    {
      assert w.holders[h] == after[h];
      DifferentHoldersDifferentResources(w, h, holder);
    }
  }

  method Add(buffers: Buffers, holder: nat, bytes: seq<byte>, lockable: bool, ghost resource: nat, ghost impls: Impls)
    returns (longer: Buffers, ghost more: Impls)
    requires holder !in buffers && resource !in impls && AreDifferent(buffers, impls)
    ensures AreDifferent(longer, more)
    ensures forall h :: h in longer ==> (h in buffers && longer[h] == buffers[h]) || fresh(longer[h])
    ensures resource in more && fresh(more[resource]) && fresh(more[resource].storage)
    ensures resource in more && more == impls[resource := more[resource]]
    ensures LinksOf(longer) == old(LinksOf(buffers))[holder := Some(more[resource])]
    ensures LivesOf(more) == old(LivesOf(impls))[resource := Birth(|bytes|, lockable)]
    ensures ShapesOf(more) == old(ShapesOf(impls))[resource := Shape(|bytes|, |bytes|, bytes != [] && lockable)]
  {
    hide Birth;
    var added := new Buffer.FromBytes(bytes, lockable);
    longer := buffers[holder := added];
    more := impls[resource := added.impl];
    assert AreDifferent(longer, more);
    hide AreDifferent;
  }

  method Create(buffers: Buffers, holder: nat, bytes: seq<byte>, lockable: bool, ghost w: World<SecretEvent>,
      ghost impls: Impls, ghost deaths: Deaths)
    returns (longer: Buffers, ghost more: Impls)
    requires holder !in buffers && Represents(w, buffers, impls, deaths) && EventsOf(w.ledger, |w.plans|) == []
    ensures Represents(Next(w, Op.Create(holder, SecretPlan(|bytes|, lockable))), longer, more,
      deaths[|w.plans| := Death(|bytes|, lockable)])
    ensures forall h :: h in longer ==> (h in buffers && longer[h] == buffers[h]) || fresh(longer[h])
    ensures forall r :: r in more ==> (r in impls && more[r] == impls[r]) || (fresh(more[r]) && fresh(more[r].storage))
  {
    hide LivesMatch, LinksMatch, AreDifferent, EventsOf, OwnedAreIntact, Birth;
    HoldersAreLinked(w, buffers, impls, deaths);
    ghost var links, lives, shapes := LinksOf(buffers), LivesOf(impls), ShapesOf(impls);
    NewResourceIsNew(w, buffers, impls, deaths);
    longer, more := Add(buffers, holder, bytes, lockable, |w.plans|, impls);
    SuccessMatches(w, holder, SecretPlan(|bytes|, lockable), links, lives, deaths, impls, more[|w.plans|]);
    CreatedIsIntact(w, holder, |bytes|, lockable, shapes, deaths);
  }

  lemma NewResourceIsNew(w: World<SecretEvent>, buffers: Buffers, impls: Impls, deaths: Deaths)
    requires Represents(w, buffers, impls, deaths)
    ensures |w.plans| !in impls
  {
    hide EventsOf;
    assert |w.plans| in LivesOf(impls) ==> |w.plans| < |w.plans|;
  }

  lemma CreatedIsIntact(w: World<SecretEvent>, holder: nat, size: nat, lockable: bool, shapes: map<nat, Shape>,
      deaths: Deaths)
    requires OwnedAreIntact(w.holders, shapes, deaths) && |w.plans| !in shapes
    ensures OwnedAreIntact(w.holders[holder := Some(|w.plans|)],
      shapes[|w.plans| := Shape(size, size, size > 0 && lockable)],
              deaths[|w.plans| := Death(size, lockable)])
  {
    forall h | h in w.holders && w.holders[h].Some?
      ensures IsIntact(w.holders[h].value, shapes[|w.plans| := Shape(size, size, size > 0 && lockable)],
        deaths[|w.plans| := Death(size, lockable)])
    {
      assert IsIntact(w.holders[h].value, shapes, deaths);
    }
  }

  method AddEmpty(buffers: Buffers, holder: nat, ghost impls: Impls) returns (longer: Buffers)
    requires holder !in buffers && AreDifferent(buffers, impls)
    ensures AreDifferent(longer, impls)
    ensures forall h :: h in longer ==> (h in buffers && longer[h] == buffers[h]) || fresh(longer[h])
    ensures LinksOf(longer) == old(LinksOf(buffers))[holder := None]
    ensures LivesOf(impls) == old(LivesOf(impls)) && ShapesOf(impls) == old(ShapesOf(impls))
  {
    var buffer := new Buffer();
    longer := buffers[holder := buffer];
  }

  /** The default constructor. */
  method CreateEmpty(buffers: Buffers, holder: nat, ghost w: World<SecretEvent>, ghost impls: Impls,
      ghost deaths: Deaths)
    returns (longer: Buffers)
    requires holder !in buffers && Represents(w, buffers, impls, deaths)
    ensures Represents(Next(w, Op.CreateEmpty(holder)), longer, impls, deaths)
    ensures forall h :: h in longer ==> (h in buffers && longer[h] == buffers[h]) || fresh(longer[h])
  {
    hide LivesMatch, LinksMatch, AreDifferent, OwnedAreIntact;
    HoldersAreLinked(w, buffers, impls, deaths);
    CreateEmptyMatches(w, holder, LinksOf(buffers), LivesOf(impls), deaths, impls);
    OwnedStayIntact(w.holders, w.holders[holder := None], ShapesOf(impls), ShapesOf(impls), None, deaths);
    longer := AddEmpty(buffers, holder, impls);
  }

  // Whole runs on the heap.

  datatype Command =
    | CreatingEmpty(holder: nat)
    | Creating(holder: nat, bytes: seq<byte>, lockable: bool)
    | Constructing(holder: nat, source: nat)
    | Assigning(holder: nat, source: nat)
    | Dropping(holder: nat)

  function OpOf(c: Command): Op<SecretEvent> {
    match c
    case CreatingEmpty(holder) => Op.CreateEmpty(holder)
    case Creating(holder, bytes, lockable) => Op.Create(holder, SecretPlan(|bytes|, lockable))
    case Constructing(holder, source) => Op.MoveConstruct(holder, source)
    case Assigning(holder, source) => Op.MoveAssign(holder, source)
    case Dropping(holder) => Op.Destroy(holder)
  }

  ghost function StoragesOf(impls: Impls): set<array<byte>> {
    set r | r in impls :: impls[r].storage
  }

  /** What a buffer may modify belongs to the implementations of the heap. */
  lemma FootprintIsOwn(w: World<SecretEvent>, buffers: Buffers, impls: Impls, deaths: Deaths, holder: nat)
    requires Represents(w, buffers, impls, deaths) && holder in buffers
    ensures buffers[holder].impl != null ==> exists r :: r in impls && impls[r] == buffers[holder].impl
  {
    hide LivesMatch, OwnedAreIntact;
    HoldersAreLinked(w, buffers, impls, deaths);
  }

  /** One command on objects that this run has made. */
  method Execute(c: Command, buffers: Buffers, ghost w: World<SecretEvent>, ghost impls: Impls, ghost deaths: Deaths)
    returns (later: Buffers, ghost more: Impls, ghost ends: Deaths)
    requires Represents(w, buffers, impls, deaths) && Invariant(w) && Enabled(w, OpOf(c))
    modifies buffers.Values, impls.Values, StoragesOf(impls)
    ensures Represents(Next(w, OpOf(c)), later, more, ends)
    ensures forall h :: h in later ==> later[h] in buffers.Values || fresh(later[h])
    ensures forall r :: r in more ==> (r in impls && more[r] == impls[r]) || (fresh(more[r]) && fresh(more[r].storage))
  {
    HoldersAreLinked(w, buffers, impls, deaths);
    hide LivesMatch, LinksMatch, AreDifferent, Next, EventsOf, OwnersAreUnique, IsAccounted, Represents, HasOwner,
      SecretPlan, Death;
    later, more, ends := buffers, impls, deaths;
    match c {
      case CreatingEmpty(holder) =>
        later := CreateEmpty(buffers, holder, w, impls, deaths);
      case Creating(holder, bytes, lockable) =>
        later, more := Create(buffers, holder, bytes, lockable, w, impls, deaths);
        ends := deaths[|w.plans| := Death(|bytes|, lockable)];
      case Constructing(holder, source) =>
        later := MoveConstruct(buffers, holder, source, w, impls, deaths);
      case Assigning(holder, source) =>
        FootprintIsOwn(w, buffers, impls, deaths, holder);
        MoveAssign(buffers, holder, source, w, impls, deaths);
      case Dropping(holder) =>
        FootprintIsOwn(w, buffers, impls, deaths, holder);
        later := Destroy(buffers, holder, w, impls, deaths);
    }
  }

  /** A list of commands, from nothing, leaves a heap that stands for the world after the abstract run. */
  method Run(commands: seq<Command>, ghost trace: seq<World<SecretEvent>>)
    returns (buffers: Buffers, ghost impls: Impls, ghost deaths: Deaths)
    requires IsRun(trace, Mapped(OpOf, commands))
    ensures Represents(trace[|commands|], buffers, impls, deaths)
  {
    buffers, impls, deaths := map[], map[], map[];
    hide Represents, OpOf, Invariant;
    EmptyHeap();
    for k := 0 to |commands|
      invariant Represents(trace[k], buffers, impls, deaths)
      invariant forall h :: h in buffers ==> fresh(buffers[h])
      invariant forall r :: r in impls ==> fresh(impls[r]) && fresh(impls[r].storage)
    {
      RunsKeepInvariant(trace, Mapped(OpOf, commands), k);
      buffers, impls, deaths := Execute(commands[k], buffers, trace[k], impls, deaths);
    }
  }

  lemma EmptyHeap()
    ensures Represents(Start(), map[], map[], map[])
  {
  }

  /** And the objects of a run have erased every secret that has no owner, once and in order. */
  lemma HeapIsErased(trace: seq<World<SecretEvent>>, ops: seq<Op<SecretEvent>>, k: nat, buffers: Buffers, impls: Impls,
      deaths: Deaths)
    requires IsRun(trace, ops) && k <= |ops| && Represents(trace[k], buffers, impls, deaths)
    requires forall j :: 0 <= j < |ops| ==> IsSecretOp(ops[j])
    ensures forall r :: r in impls ==>
      exists size: nat, lockable: bool :: IsEvents(impls[r].events, HasOwner(trace[k], r), size, lockable)
  {
    hide EventsOf, HasOwner, IsErased;
    forall r | r in impls ensures exists size: nat, lockable: bool ::
      IsEvents(impls[r].events, HasOwner(trace[k], r), size, lockable) {
      assert r in LivesOf(impls) && LivesOf(impls)[r] == impls[r].events;
      SecretsAreErasedOnce(trace, ops, k, r);
      var size: nat, lockable: bool :| trace[k].plans[r] == SecretPlan(size, lockable)
        && if HasOwner(trace[k], r) then EventsOf(trace[k].ledger, r) == Birth(size, lockable)
           else IsErased(EventsOf(trace[k].ledger, r), size, lockable);
      assert IsEvents(impls[r].events, HasOwner(trace[k], r), size, lockable);
    }
  }

  ghost predicate IsEvents(events: seq<SecretEvent>, owned: bool, size: nat, lockable: bool) {
    if owned then events == Birth(size, lockable) else IsErased(events, size, lockable)
  }
}
