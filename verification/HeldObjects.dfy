/**
  Objects with a unique pointer to an implementation object, seen through snapshots of the heap: `links` says which
  implementation each holder points to, `lives` the ledger of each implementation, and `deaths` what destroying it
  would add. When the snapshots match a world of unique owners, the snapshots after a step match the world after the
  abstract step.
 */
module HeldObjects {
  import opened Common
  import opened UniqueOwner

  function Mapped<A, B>(f: A -> B, items: seq<A>): (images: seq<B>)
    ensures |images| == |items|
    ensures forall k :: 0 <= k < |items| ==> images[k] == f(items[k])
  {
    seq(|items|, k requires 0 <= k < |items| => f(items[k]))
  }

  /** Different names stand for different objects. */
  ghost predicate AreDifferent<H, I>(holders: map<nat, H>, objects: map<nat, I>) {
    && (forall g, h :: g in holders && h in holders && g != h ==> holders[g] != holders[h])
    && (forall q, r :: q in objects && r in objects && q != r ==> objects[q] != objects[r])
  }

  lemma FewerAreDifferent<H, I>(holders: map<nat, H>, holder: nat, objects: map<nat, I>)
    requires AreDifferent(holders, objects)
    ensures AreDifferent(holders - {holder}, objects)
  {
  }

  ghost predicate LinksMatch<I>(holders: map<nat, Option<nat>>, links: map<nat, Option<I>>, objects: map<nat, I>) {
    && links.Keys == holders.Keys
    && forall h :: h in holders ==> LinkMatches(holders[h], links[h], objects)
  }

  ghost predicate LinkMatches<I>(resource: Option<nat>, link: Option<I>, objects: map<nat, I>) {
    match resource
    case None => link == None
    case Some(r) => r in objects && link == Some(objects[r])
  }

  ghost predicate LivesMatch<E>(w: World<E>, lives: map<nat, seq<E>>, deaths: map<nat, seq<E>>) {
    && lives.Keys == deaths.Keys
    && forall r :: r in lives ==> r < |w.plans| && lives[r] == EventsOf(w.ledger, r) && w.plans[r].death == deaths[r]
  }

  /** The ledgers after the implementation of one resource has been destroyed. */
  ghost function Ended<E>(lives: map<nat, seq<E>>, resource: Option<nat>, deaths: map<nat, seq<E>>): map<nat, seq<E>>
    requires lives.Keys == deaths.Keys && (resource.Some? ==> resource.value in lives)
  {
    match resource
    case None => lives
    case Some(r) => lives[r := lives[r] + deaths[r]]
  }

  lemma DisposalMatches<E>(w: World<E>, resource: Option<nat>, lives: map<nat, seq<E>>, deaths: map<nat, seq<E>>)
    requires LivesMatch(w, lives, deaths) && (resource.Some? ==> resource.value in lives)
    ensures LivesMatch(Dispose(w, resource), Ended(lives, resource, deaths), deaths)
    ensures Dispose(w, resource).holders == w.holders
  {
    hide EventsOf, Tag;
    if resource.Some? {
      var r := resource.value;
      forall other | other in lives
        ensures EventsOf(Dispose(w, resource).ledger, other) ==
          EventsOf(w.ledger, other) + if other == r then w.plans[r].death else []
      {
        EventsOfTagged(w.ledger, r, w.plans[r].death, other);
      }
    }
  }

  lemma LivesOfOtherHolders<E>(w: World<E>, holders: map<nat, Option<nat>>, lives: map<nat, seq<E>>,
      deaths: map<nat, seq<E>>)
    requires LivesMatch(w, lives, deaths)
    ensures LivesMatch(w.(holders := holders), lives, deaths)
  {
  }

  /** Links after a move, put together from what each holder points to. */
  lemma MovedLinks<I>(links: map<nat, Option<I>>, later: map<nat, Option<I>>, holder: nat, source: nat)
    requires holder in links && source in links && holder != source && later.Keys == links.Keys
    requires forall h :: h in links ==>
      later[h] == if h == holder then links[source] else if h == source then None else links[h]
    ensures later == links[holder := links[source]][source := None]
  {
  }

  /** Two holders never point to the same implementation. */
  lemma LinkedApart<E, I>(w: World<E>, links: map<nat, Option<I>>, objects: map<nat, I>, a: nat, b: nat)
    requires LinksMatch(w.holders, links, objects) && OwnersAreUnique(w)
    requires forall q, r :: q in objects && r in objects && q != r ==> objects[q] != objects[r]
    requires a in links && b in links && a != b
    ensures links[a].Some? ==> links[a] != links[b]
  {
    hide OwnersAreUnique;
    assert LinkMatches(w.holders[a], links[a], objects) && LinkMatches(w.holders[b], links[b], objects);
    if w.holders[a].Some? {
      DifferentHoldersDifferentResources(w, a, b);
    }
  }

  lemma MovedLinksMatch<I>(holders: map<nat, Option<nat>>, links: map<nat, Option<I>>, objects: map<nat, I>,
      holder: nat, source: nat)
    requires LinksMatch(holders, links, objects) && source in holders
    ensures LinksMatch(holders[holder := holders[source]][source := None],
      links[holder := links[source]][source := None], objects)
  {
    assert LinkMatches(holders[source], links[source], objects);
  }

  lemma FewerLinksMatch<I>(holders: map<nat, Option<nat>>, links: map<nat, Option<I>>, objects: map<nat, I>,
      holder: nat)
    requires LinksMatch(holders, links, objects)
    ensures LinksMatch(holders - {holder}, links - {holder}, objects)
  {
  }

  lemma MoveConstructMatches<E, I>(w: World<E>, holder: nat, source: nat, links: map<nat, Option<I>>,
      lives: map<nat, seq<E>>, deaths: map<nat, seq<E>>, objects: map<nat, I>)
    requires holder !in w.holders && source in w.holders
    requires LinksMatch(w.holders, links, objects) && LivesMatch(w, lives, deaths)
    ensures var v := Next(w, MoveConstruct(holder, source));
            LinksMatch(v.holders, links[holder := links[source]][source := None], objects)
              && LivesMatch(v, lives, deaths)
  {
    hide LinksMatch, LivesMatch;
    var holders := w.holders[holder := w.holders[source]][source := None];
    MovedLinksMatch(w.holders, links, objects, holder, source);
    LivesOfOtherHolders(w, holders, lives, deaths);
  }

  lemma StepsDispose<E>(w: World<E>, holder: nat, source: nat)
    requires holder in w.holders
    ensures Next(w, Destroy(holder)) == Dispose(w.(holders := w.holders - {holder}), w.holders[holder])
    ensures source in w.holders && holder != source ==>
              Next(w, MoveAssign(holder, source)) ==
                Dispose(w.(holders := w.holders[holder := w.holders[source]][source := None]), w.holders[holder])
  {
    hide Dispose;
  }

  lemma MoveAssignMatches<E, I>(w: World<E>, holder: nat, source: nat, links: map<nat, Option<I>>,
      lives: map<nat, seq<E>>, deaths: map<nat, seq<E>>, objects: map<nat, I>)
    requires holder in w.holders && source in w.holders && holder != source && lives.Keys == objects.Keys
    requires LinksMatch(w.holders, links, objects) && LivesMatch(w, lives, deaths)
    ensures w.holders[holder].Some? ==> w.holders[holder].value in objects
    ensures var v := Next(w, MoveAssign(holder, source));
            && LinksMatch(v.holders, links[holder := links[source]][source := None], objects)
            && LivesMatch(v, Ended(lives, w.holders[holder], deaths), deaths)
  {
    assert LinkMatches(w.holders[holder], links[holder], objects);
    hide LinksMatch, LivesMatch, Dispose, Ended, LinkMatches, EventsOf, Next;
    StepsDispose(w, holder, source);
    var holders := w.holders[holder := w.holders[source]][source := None];
    MovedLinksMatch(w.holders, links, objects, holder, source);
    LivesOfOtherHolders(w, holders, lives, deaths);
    DisposalMatches(w.(holders := holders), w.holders[holder], lives, deaths);
  }

  lemma DestroyMatches<E, I>(w: World<E>, holder: nat, links: map<nat, Option<I>>, lives: map<nat, seq<E>>,
      deaths: map<nat, seq<E>>, objects: map<nat, I>)
    requires holder in w.holders && lives.Keys == objects.Keys
    requires LinksMatch(w.holders, links, objects) && LivesMatch(w, lives, deaths)
    ensures w.holders[holder].Some? ==> w.holders[holder].value in objects
    ensures var v := Next(w, Destroy(holder));
            LinksMatch(v.holders, links - {holder}, objects)
              && LivesMatch(v, Ended(lives, w.holders[holder], deaths), deaths)
  {
    assert LinkMatches(w.holders[holder], links[holder], objects);
    var holders := w.holders - {holder};
    FewerLinksMatch(w.holders, links, objects, holder);
    hide LinksMatch, LivesMatch, Dispose, Ended, LinkMatches, EventsOf, Next;
    StepsDispose(w, holder, holder);
    LivesOfOtherHolders(w, holders, lives, deaths);
    DisposalMatches(w.(holders := holders), w.holders[holder], lives, deaths);
  }

  lemma BirthIsOnlyForItself<E>(w: World<E>, plan: Plan<E>, holders: map<nat, Option<nat>>, lives: map<nat, seq<E>>,
      deaths: map<nat, seq<E>>)
    requires LivesMatch(w, lives, deaths) && EventsOf(w.ledger, |w.plans|) == []
    ensures var v := World(holders, w.plans + [plan], w.ledger + Tag(|w.plans|, plan.birth));
            && LivesMatch(v, lives, deaths)
            && LivesMatch(v, lives[|w.plans| := plan.birth], deaths[|w.plans| := plan.death])
  {
    hide EventsOf, Tag;
    forall r: nat ensures EventsOf(w.ledger + Tag(|w.plans|, plan.birth), r) ==
      EventsOf(w.ledger, r) + if r == |w.plans| then plan.birth else [] {
      EventsOfTagged(w.ledger, |w.plans|, plan.birth, r);
    }
  }

  /** A holder that is created empty holds nothing. */
  lemma CreateEmptyMatches<E, I>(w: World<E>, holder: nat, links: map<nat, Option<I>>, lives: map<nat, seq<E>>,
      deaths: map<nat, seq<E>>, objects: map<nat, I>)
    requires holder !in w.holders && LinksMatch(w.holders, links, objects) && LivesMatch(w, lives, deaths)
    ensures var v := Next(w, CreateEmpty(holder));
            LinksMatch(v.holders, links[holder := None], objects) && LivesMatch(v, lives, deaths)
  {
    hide EventsOf;
  }

  /** A creation that yields nothing leaves the holders alone. */
  lemma FailureMatches<E, I>(w: World<E>, holder: nat, plan: Plan<E>, links: map<nat, Option<I>>,
      lives: map<nat, seq<E>>, deaths: map<nat, seq<E>>, objects: map<nat, I>)
    requires holder !in w.holders && LinksMatch(w.holders, links, objects) && LivesMatch(w, lives, deaths)
    requires EventsOf(w.ledger, |w.plans|) == [] && !plan.owned
    ensures var v := Next(w, Create(holder, plan));
            LinksMatch(v.holders, links, objects) && LivesMatch(v, lives, deaths)
  {
    hide EventsOf, Tag, LinksMatch, LivesMatch;
    BirthIsOnlyForItself(w, plan, w.holders, lives, deaths);
  }

  lemma SuccessMatches<E, I>(w: World<E>, holder: nat, plan: Plan<E>, links: map<nat, Option<I>>,
      lives: map<nat, seq<E>>, deaths: map<nat, seq<E>>, objects: map<nat, I>, added: I)
    requires holder !in w.holders && LinksMatch(w.holders, links, objects) && LivesMatch(w, lives, deaths)
    requires lives.Keys == objects.Keys
    requires EventsOf(w.ledger, |w.plans|) == [] && plan.owned
    ensures |w.plans| !in objects
    ensures var v := Next(w, Create(holder, plan));
            && LinksMatch(v.holders, links[holder := Some(added)], objects[|w.plans| := added])
            && LivesMatch(v, lives[|w.plans| := plan.birth], deaths[|w.plans| := plan.death])
  {
    hide EventsOf, Tag;
    var holders := w.holders[holder := Some(|w.plans|)];
    forall h | h in w.holders ensures LinkMatches(w.holders[h], links[h], objects[|w.plans| := added]) {
      assert LinkMatches(w.holders[h], links[h], objects);
    }
    assert LinksMatch(holders, links[holder := Some(added)], objects[|w.plans| := added]);
    hide LinksMatch, LivesMatch;
    BirthIsOnlyForItself(w, plan, holders, lives, deaths);
  }

  lemma DifferentHoldersDifferentResources<E>(w: World<E>, a: nat, b: nat)
    requires OwnersAreUnique(w) && a in w.holders && b in w.holders && a != b && w.holders[a].Some?
    ensures w.holders[a] != w.holders[b]
  {
    if w.holders[a] == w.holders[b] {
      assert Owns(w, a, w.holders[a].value) && Owns(w, b, w.holders[a].value);
    }
  }
}
