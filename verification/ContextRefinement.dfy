/** The objects of the TPM context refine the theory of unique owners: every step of an object is its abstract step. */
module ContextRefinement {
  import opened Common
  import opened HeldObjects
  import opened Lifecycle
  import opened TpmContext
  import opened UniqueOwner

  type Contexts = map<nat, Context>
  type Impls = map<nat, Impl>

  ghost function LinkOf(context: Context): Option<Impl>
    reads context
  {
    if context.impl == null then None else Some(context.impl)
  }

  ghost function LinksOf(contexts: Contexts): map<nat, Option<Impl>>
    reads contexts.Values
  {
    map h | h in contexts :: LinkOf(contexts[h])
  }

  ghost function LivesOf(impls: Impls): map<nat, seq<LifeEvent>>
    reads impls.Values
  {
    map r | r in impls :: impls[r].life
  }

  ghost function DeathsOf(impls: Impls): map<nat, seq<LifeEvent>> {
    map r | r in impls :: DeathOf(impls[r].loaded, impls[r].context)
  }

  /**
    What a heap of contexts stands for: the holders are the context objects, the resources are the implementation
    objects, and the ledger of each implementation is its part of the abstract ledger.
   */
  ghost predicate Represents(w: World<LifeEvent>, contexts: Contexts, impls: Impls)
    reads contexts.Values, impls.Values
  {
    AreDifferent(contexts, impls) && LinksMatch(w.holders, LinksOf(contexts), impls)
      && LivesMatch(w, LivesOf(impls), DeathsOf(impls))
  }

  lemma HoldersAreLinked(w: World<LifeEvent>, contexts: Contexts, impls: Impls)
    requires Represents(w, contexts, impls)
    ensures contexts.Keys == w.holders.Keys
    ensures forall h :: h in contexts ==> LinkMatches(w.holders[h], LinksOf(contexts)[h], impls)
  {
  }

  // The four steps: what each does to the snapshots, and then that this is the abstract step.

  /** At most one implementation was destroyed, and that in the way foreseen. */
  ghost predicate OneDestroyed(impls: Impls, resource: Option<nat>, lives: map<nat, seq<LifeEvent>>)
    requires lives.Keys == impls.Keys
    reads impls.Values
  {
    forall r :: r in impls ==>
      impls[r].life == if resource == Some(r) then Teardown(lives[r], impls[r].loaded, impls[r].context) else lives[r]
  }

  lemma KeptSnapshots(impls: Impls, resource: Option<nat>, lives: map<nat, seq<LifeEvent>>)
    requires lives.Keys == impls.Keys && (resource.Some? ==> resource.value in impls)
    requires OneDestroyed(impls, resource, lives)
    ensures LivesOf(impls) == Ended(lives, resource, DeathsOf(impls))
  {
    hide Teardown, DeathOf;
    if resource.Some? {
      var impl := impls[resource.value];
      TeardownIsDeath(lives[resource.value], impl.loaded, impl.context);
    }
  }

  method Assign(contexts: Contexts, holder: nat, source: nat, ghost resource: Option<nat>, ghost impls: Impls)
    requires holder in contexts && source in contexts && holder != source && AreDifferent(contexts, impls)
    requires LinkMatches(resource, LinkOf(contexts[holder]), impls)
    requires contexts[holder].impl != null ==> contexts[holder].impl != contexts[source].impl
    modifies contexts[holder], contexts[source], contexts[holder].impl
    ensures forall h :: h in contexts ==>
      LinkOf(contexts[h]) == if h == holder then old(LinkOf(contexts[source])) else if h == source then None
        else old(LinkOf(contexts[h]))
    ensures OneDestroyed(impls, resource, old(LivesOf(impls)))
  {
    hide Teardown;
    contexts[holder].MoveAssign(contexts[source]);
  }

  method SelfAssign(contexts: Contexts, holder: nat, ghost impls: Impls)
    requires holder in contexts
    modifies contexts[holder], contexts[holder].impl
    ensures LinksOf(contexts) == old(LinksOf(contexts)) && LivesOf(impls) == old(LivesOf(impls))
  {
    contexts[holder].MoveAssign(contexts[holder]);
  }

  method MoveAssign(contexts: Contexts, holder: nat, source: nat, ghost w: World<LifeEvent>, ghost impls: Impls)
    requires holder in contexts && source in contexts
    requires Represents(w, contexts, impls) && OwnersAreUnique(w)
    modifies contexts[holder], contexts[source], contexts[holder].impl
    ensures Represents(Next(w, Op.MoveAssign(holder, source)), contexts, impls)
  {
    hide LivesMatch, Ended, OwnersAreUnique, LinksMatch;
    HoldersAreLinked(w, contexts, impls);
    if holder == source {
      SelfAssign(contexts, holder, impls);
    } else {
      ghost var links, lives := LinksOf(contexts), LivesOf(impls);
      LinkedApart(w, links, impls, holder, source);
      MoveAssignMatches(w, holder, source, links, lives, DeathsOf(impls), impls);
      hide Next, AreDifferent, LinkMatches;
      Assign(contexts, holder, source, w.holders[holder], impls);
      MovedLinks(links, LinksOf(contexts), holder, source);
      KeptSnapshots(impls, w.holders[holder], lives);
    }
  }

  method Take(contexts: Contexts, holder: nat, source: nat, ghost impls: Impls) returns (longer: Contexts)
    requires holder !in contexts && source in contexts && AreDifferent(contexts, impls)
    modifies contexts[source]
    ensures AreDifferent(longer, impls)
    ensures forall h :: h in longer ==> (h in contexts && longer[h] == contexts[h]) || fresh(longer[h])
    ensures LinksOf(longer) == old(LinksOf(contexts))[holder := old(LinksOf(contexts)[source])][source := None]
    ensures LivesOf(impls) == old(LivesOf(impls))
  {
    var context := new Context.Move(contexts[source]);
    longer := contexts[holder := context];
  }

  method MoveConstruct(contexts: Contexts, holder: nat, source: nat, ghost w: World<LifeEvent>, ghost impls: Impls)
    returns (longer: Contexts)
    requires holder !in contexts && source in contexts && Represents(w, contexts, impls)
    modifies contexts[source]
    ensures Represents(Next(w, Op.MoveConstruct(holder, source)), longer, impls)
    ensures forall h :: h in longer ==> (h in contexts && longer[h] == contexts[h]) || fresh(longer[h])
  {
    hide LivesMatch, LinksMatch, AreDifferent;
    HoldersAreLinked(w, contexts, impls);
    MoveConstructMatches(w, holder, source, LinksOf(contexts), LivesOf(impls), DeathsOf(impls), impls);
    hide Next;
    longer := Take(contexts, holder, source, impls);
  }

  method Drop(contexts: Contexts, holder: nat, ghost resource: Option<nat>, ghost impls: Impls)
      returns (shorter: Contexts)
    requires holder in contexts && AreDifferent(contexts, impls)
      && LinkMatches(resource, LinkOf(contexts[holder]), impls)
    modifies contexts[holder], contexts[holder].impl
    ensures shorter == contexts - {holder}
    ensures forall h :: h in shorter ==> LinkOf(contexts[h]) == old(LinkOf(contexts[h]))
    ensures OneDestroyed(impls, resource, old(LivesOf(impls)))
  {
    hide Teardown;
    contexts[holder].Destroy();
    shorter := contexts - {holder};
  }

  method Destroy(contexts: Contexts, holder: nat, ghost w: World<LifeEvent>, ghost impls: Impls)
      returns (shorter: Contexts)
    requires holder in contexts && Represents(w, contexts, impls)
    modifies contexts[holder], contexts[holder].impl
    ensures Represents(Next(w, Op.Destroy(holder)), shorter, impls)
    ensures shorter == contexts - {holder}
  {
    hide LivesMatch, LinksMatch, AreDifferent, Ended;
    HoldersAreLinked(w, contexts, impls);
    ghost var links, lives := LinksOf(contexts), LivesOf(impls);
    DestroyMatches(w, holder, links, lives, DeathsOf(impls), impls);
    hide Next;
    shorter := Drop(contexts, holder, w.holders[holder], impls);
    assert LinksOf(shorter) == links - {holder};
    FewerAreDifferent(contexts, holder, impls);
    KeptSnapshots(impls, w.holders[holder], lives);
  }

  method Add(contexts: Contexts, holder: nat, life: seq<LifeEvent>, loaded: bool, context: bool, ghost resource: nat,
      ghost impls: Impls)
    returns (longer: Contexts, ghost more: Impls)
    requires holder !in contexts && resource !in impls && AreDifferent(contexts, impls)
    ensures AreDifferent(longer, more)
    ensures forall h :: h in longer ==> (h in contexts && longer[h] == contexts[h]) || fresh(longer[h])
    ensures resource in more && fresh(more[resource])
    ensures resource in more && more == impls[resource := more[resource]]
    ensures LinksOf(longer) == old(LinksOf(contexts))[holder := Some(more[resource])]
    ensures LivesOf(more) == old(LivesOf(impls))[resource := life]
    ensures DeathsOf(more) == DeathsOf(impls)[resource := DeathOf(loaded, context)]
  {
    hide DeathOf;
    var impl := new Impl(life, loaded, context);
    var added := new Context(impl);
    longer := contexts[holder := added];
    more := impls[resource := impl];
    assert AreDifferent(longer, more);
    hide AreDifferent;
    assert DeathsOf(more) == DeathsOf(impls)[resource := DeathOf(loaded, context)];
  }

  /** Runs the entry point that an input is for, on a factory of its own. */
  method RunFactory(input: Input) returns (factory: Factory, outcome: Outcome<bool>)
    ensures fresh(factory) && Creation(factory.life, outcome) == CreateFrom(input)
  {
    hide CreateFromConfig, CreateFromOwned;
    factory := new Factory();
    match input {
      case ByConfig(config, mode, loader, esys) =>
        outcome := factory.FromConfig(config, mode, loader, esys);
      case ByHandle(owned, mode, esys) =>
        if owned.present && owned.deleter {
          factory.Emit(TctiAcquired);
        }
        outcome := factory.FromOwned(owned, mode, esys);
    }
  }

  lemma FactoryWritesBirth(w: World<LifeEvent>, holder: nat, input: Input)
    requires holder !in w.holders && EventsOf(w.ledger, |w.plans|) == []
    ensures EventsOf(Next(w, Op.Create(holder, PlanOf(input))).ledger, |w.plans|) == CreateFrom(input).life
  {
    hide EventsOf, CreateFrom, Tag;
    EventsOfTagged(w.ledger, |w.plans|, CreateFrom(input).life, |w.plans|);
  }

  /**
    A creation from any input, failed or not: the ledger of the factory that ran is the resource's part of the abstract
    ledger, and if there is an implementation it goes on from there.
   */
  method Create(contexts: Contexts, holder: nat, input: Input, ghost w: World<LifeEvent>, ghost impls: Impls)
    returns (longer: Contexts, factory: Factory, ghost more: Impls)
    requires holder !in contexts
    requires Represents(w, contexts, impls) && EventsOf(w.ledger, |w.plans|) == []
    ensures Represents(Next(w, Op.Create(holder, PlanOf(input))), longer, more)
    ensures fresh(factory) && factory.life == EventsOf(Next(w, Op.Create(holder, PlanOf(input))).ledger, |w.plans|)
    ensures forall h :: h in longer ==> (h in contexts && longer[h] == contexts[h]) || fresh(longer[h])
    ensures forall r :: r in more ==> (r in impls && more[r] == impls[r]) || fresh(more[r])
  {
    hide LivesMatch, LinksMatch, AreDifferent, CreateFrom, Next, EventsOf;
    HoldersAreLinked(w, contexts, impls);
    FactoryWritesBirth(w, holder, input);
    ghost var links, lives, deaths := LinksOf(contexts), LivesOf(impls), DeathsOf(impls);
    longer, more := contexts, impls;
    var outcome;
    factory, outcome := RunFactory(input);
    if outcome.Ok? {
      NewResourceIsNew(w, contexts, impls);
      longer, more := Add(contexts, holder, factory.life, input.ByConfig?, outcome.value, |w.plans|, impls);
      SuccessMatches(w, holder, PlanOf(input), links, lives, deaths, impls, more[|w.plans|]);
    } else {
      FailureMatches(w, holder, PlanOf(input), links, lives, deaths, impls);
    }
  }

  lemma NewResourceIsNew(w: World<LifeEvent>, contexts: Contexts, impls: Impls)
    requires Represents(w, contexts, impls)
    ensures |w.plans| !in impls
  {
    hide EventsOf, DeathOf;
    assert |w.plans| in LivesOf(impls) ==> |w.plans| < |w.plans|;
  }

  // Whole runs on the heap.

  datatype Command =
    | Creating(holder: nat, input: Input)
    | Constructing(holder: nat, source: nat)
    | Assigning(holder: nat, source: nat)
    | Dropping(holder: nat)

  function OpOf(c: Command): Op<LifeEvent> {
    match c
    case Creating(holder, input) => Op.Create(holder, PlanOf(input))
    case Constructing(holder, source) => Op.MoveConstruct(holder, source)
    case Assigning(holder, source) => Op.MoveAssign(holder, source)
    case Dropping(holder) => Op.Destroy(holder)
  }

  /** One command on objects that this run has made. */
  method Execute(c: Command, contexts: Contexts, ghost w: World<LifeEvent>, ghost impls: Impls)
    returns (later: Contexts, ghost more: Impls)
    requires Represents(w, contexts, impls) && Invariant(w) && Enabled(w, OpOf(c))
    modifies contexts.Values, impls.Values
    ensures Represents(Next(w, OpOf(c)), later, more)
    ensures forall h :: h in later ==> later[h] in contexts.Values || fresh(later[h])
    ensures forall r :: r in more ==> more[r] in impls.Values || fresh(more[r])
  {
    HoldersAreLinked(w, contexts, impls);
    hide LivesMatch, LinksMatch, AreDifferent, CreateFrom, Next, EventsOf, OwnersAreUnique, IsAccounted, Represents,
      HasOwner, PlanOf;
    later, more := contexts, impls;
    match c {
      case Creating(holder, input) =>
        var factory;
        later, factory, more := Create(contexts, holder, input, w, impls);
      case Constructing(holder, source) =>
        later := MoveConstruct(contexts, holder, source, w, impls);
      case Assigning(holder, source) =>
        MoveAssign(contexts, holder, source, w, impls);
      case Dropping(holder) =>
        later := Destroy(contexts, holder, w, impls);
    }
  }

  /** A list of commands, from nothing, leaves a heap that stands for the world after the abstract run. */
  method Run(commands: seq<Command>, ghost trace: seq<World<LifeEvent>>)
      returns (contexts: Contexts, ghost impls: Impls)
    requires IsRun(trace, Mapped(OpOf, commands))
    ensures Represents(trace[|commands|], contexts, impls)
  {
    contexts, impls := map[], map[];
    hide Represents, OpOf, Invariant;
    EmptyHeap();
    for k := 0 to |commands|
      invariant Represents(trace[k], contexts, impls)
      invariant forall h :: h in contexts ==> fresh(contexts[h])
      invariant forall r :: r in impls ==> fresh(impls[r])
    {
      RunsKeepInvariant(trace, Mapped(OpOf, commands), k);
      contexts, impls := Execute(commands[k], contexts, trace[k], impls);
    }
  }

  lemma EmptyHeap()
    ensures Represents(Start(), map[], map[])
  {
  }

  /**
    And what the objects of a run have done is in order: everything that an implementation without owner acquired is
    released.
   */
  lemma HeapLivesWell(trace: seq<World<LifeEvent>>, ops: seq<Op<LifeEvent>>, inputs: seq<Input>, k: nat,
      contexts: Contexts, impls: Impls)
    requires IsContextRun(trace, ops, inputs) && k <= |ops| && Represents(trace[k], contexts, impls)
    ensures forall r :: r in impls ==>
      if HasOwner(trace[k], r) then IsAlive(impls[r].life) else IsSettled(impls[r].life)
  {
    hide EventsOf, HasOwner, IsAlive, IsSettled, DeathOf;
    forall r | r in impls ensures if HasOwner(trace[k], r) then IsAlive(impls[r].life) else IsSettled(impls[r].life) {
      assert r in LivesOf(impls) && LivesOf(impls)[r] == impls[r].life;
      ContextsLiveWell(trace, ops, inputs, k, r);
    }
  }
}
