/** The owning secret buffer: its bytes are locked while they live, and unlocked, zeroed and released exactly once. */
module SecretBuffer {
  import opened Common
  import opened UniqueOwner

  datatype SecretEvent = LockAttempted(size: nat,
      locked: bool) | Unlocked(size: nat) | Cleansed(size: nat) | Released(size: nat)

  /** Taking bytes in tries to lock their memory, which may fail; an empty vector has no memory to lock. */
  function Birth(size: nat, lockable: bool): seq<SecretEvent> {
    if size == 0 then [] else [LockAttempted(size, lockable)]
  }

  /** Only a successful lock is undone, and the bytes are zeroed before their storage goes. */
  function Death(size: nat, lockable: bool): seq<SecretEvent> {
    if size == 0 then []
    else if lockable then [Unlocked(size), Cleansed(size), Released(size)]
    else [Cleansed(size), Released(size)]
  }

  class Impl {
    const storage: array<byte>
    var size: nat
    var locked: bool
    ghost var events: seq<SecretEvent>

    ghost predicate Valid()
      reads this
    {
      (size == 0 || size == storage.Length) && (locked ==> size > 0)
    }

    constructor (bytes: seq<byte>, lockable: bool)
      ensures Valid() && fresh(storage)
      ensures storage[..] == bytes && size == |bytes|
      ensures locked == (bytes != [] && lockable)
      ensures events == Birth(|bytes|, lockable)
    {
      storage := new byte[|bytes|](i requires 0 <= i < |bytes| => bytes[i]);
      size := |bytes|;
      locked := bytes != [] && lockable;
      events := Birth(|bytes|, lockable);
    }

    method Clear()
      requires Valid()
      modifies this, storage
      ensures Valid() && size == 0 && !locked
      ensures old(size) > 0 ==> forall i :: 0 <= i < storage.Length ==> storage[i] == 0
      ensures old(size) == 0 ==> storage[..] == old(storage[..])
      ensures events == old(events) + if old(size) == 0 then []
        else (if old(locked) then [Unlocked(old(size))] else []) + [Cleansed(old(size))]
    {
      if size == 0 {
        return;
      }
      if locked {
        events := events + [Unlocked(size)];
        locked := false;
      }
      Cleanse();
      events := events + [Cleansed(size)];
      size := 0;
    }

    method Cleanse()
      modifies storage
      ensures forall i :: 0 <= i < storage.Length ==> storage[i] == 0
    {
      for k := 0 to storage.Length
        invariant forall i :: 0 <= i < k ==> storage[i] == 0
      {
        storage[k] := 0;
      }
    }

    /** The destructor: clear, then give the storage back. */
    method Destroy()
      requires Valid()
      modifies this, storage
      ensures Valid() && size == 0 && !locked
      ensures old(size) > 0 ==> forall i :: 0 <= i < storage.Length ==> storage[i] == 0
      ensures events == old(events) + Death(old(size), old(locked))
    {
      ghost var before := size;
      Clear();
      if before > 0 {
        events := events + [Released(before)];
      }
    }
  }

  class Buffer {
    var impl: Impl?

    ghost function Footprint(): set<object>
      reads this
    {
      if impl == null then {} else {impl, impl.storage}
    }

    ghost predicate Valid()
      reads this, impl
    {
      impl != null ==> impl.Valid()
    }

    constructor ()
      ensures impl == null
    {
      impl := null;
    }

    constructor FromBytes(bytes: seq<byte>, lockable: bool)
      ensures Valid() && impl != null && fresh(impl) && fresh(impl.storage)
      ensures impl.storage[..] == bytes && impl.size == |bytes| && impl.locked == (bytes != [] && lockable)
      ensures impl.events == Birth(|bytes|, lockable)
    {
      impl := new Impl(bytes, lockable);
    }

    /** Move construction: the new object has the pointer, the old one none; the secret itself is not touched. */
    constructor Move(other: Buffer)
      modifies other
      ensures impl == old(other.impl) && other.impl == null
    {
      impl := other.impl;
      new;
      other.impl := null;
    }

    method MoveAssign(other: Buffer)
      requires Valid() && other.Valid()
      requires this != other && impl != null ==> impl != other.impl
      modifies this, other, Footprint()
      ensures this == other ==> impl == old(impl) && (impl != null ==> unchanged(impl) && unchanged(impl.storage))
      ensures this != other ==>
                && impl == old(other.impl) && other.impl == null
                && (old(impl) != null ==>
                      && old(impl).size == 0
                      && old(impl).events == old(impl.events) + Death(old(impl.size), old(impl.locked))
                      && (old(impl.size) > 0 ==> forall i :: 0 <= i < old(impl).storage.Length ==>
                        old(impl).storage[i] == 0))
    {
      var taken := other.impl;
      other.impl := null;
      var dropped := impl;
      impl := taken;
      if this != other && dropped != null {
        dropped.Destroy();
      }
    }

    method Destroy()
      requires Valid()
      modifies this, Footprint()
      ensures impl == null
      ensures old(impl) != null ==>
                && old(impl).events == old(impl.events) + Death(old(impl.size), old(impl.locked))
                && (old(impl.size) > 0 ==> forall i :: 0 <= i < old(impl).storage.Length ==> old(impl).storage[i] == 0)
    {
      if impl != null {
        impl.Destroy();
      }
      impl := null;
    }

    method Size() returns (n: nat)
      ensures n == if impl == null then 0 else impl.size
    {
      n := if impl == null then 0 else impl.size;
    }

    method View() returns (bytes: seq<byte>)
      requires Valid()
      ensures bytes == if impl == null || impl.size == 0 then [] else impl.storage[..]
    {
      if impl == null || impl.size == 0 {
        return [];
      }
      return impl.storage[..];
    }
  }

  // Runs over any number of buffers.

  function SecretPlan(size: nat, lockable: bool): Plan<SecretEvent> {
    Plan(Birth(size, lockable), true, Death(size, lockable))
  }

  ghost predicate IsSecretPlan(plan: Plan<SecretEvent>) {
    exists size, lockable :: plan == SecretPlan(size, lockable)
  }

  ghost predicate IsSecretOp(op: Op<SecretEvent>) {
    op.Create? ==> IsSecretPlan(op.plan)
  }

  /** The whole life of a secret, and the part of it before it is given up. */
  ghost predicate IsErased(events: seq<SecretEvent>, size: nat, lockable: bool) {
    if size == 0 then events == []
    else if lockable then events == [LockAttempted(size, true), Unlocked(size), Cleansed(size), Released(size)]
    else events == [LockAttempted(size, false), Cleansed(size), Released(size)]
  }

  /**
    In every run of constructions, moves and destructions: a secret has at most one owner; while it has one nothing but
    the lock attempt has happened to it; once it has none it was unlocked if it had been locked, zeroed and released, in
    this order and once each.
   */
  lemma SecretsAreErasedOnce(trace: seq<World<SecretEvent>>, ops: seq<Op<SecretEvent>>, k: nat, resource: nat)
    requires IsRun(trace, ops) && k <= |ops| && resource < |trace[k].plans|
    requires forall j :: 0 <= j < |ops| ==> IsSecretOp(ops[j])
    ensures forall a: nat, b: nat :: Owns(trace[k], a, resource) && Owns(trace[k], b, resource) ==> a == b
    ensures exists size: nat, lockable: bool :: trace[k].plans[resource] == SecretPlan(size, lockable)
              && if HasOwner(trace[k], resource) then EventsOf(trace[k].ledger, resource) == Birth(size, lockable)
                 else IsErased(EventsOf(trace[k].ledger, resource), size, lockable)
  {
    hide EventsOf, HasOwner;
    RunsKeepInvariant(trace, ops, k);
    PlansComeFromOps(trace, ops, k, resource);
    var j :| 0 <= j < k && ops[j].Create? && ops[j].plan == trace[k].plans[resource];
    assert IsSecretOp(ops[j]);
    var size, lockable :| ops[j].plan == SecretPlan(size, lockable);
    assert IsAccounted(trace[k], resource);
  }

  /** A moved-from buffer is empty. */
  lemma MovedFromIsEmpty(w: World<SecretEvent>, op: Op<SecretEvent>)
    requires Enabled(w, op)
    requires op.MoveConstruct? || (op.MoveAssign? && op.holder != op.source)
    ensures Next(w, op).holders[op.source] == None && Next(w, op).holders[op.holder] == w.holders[op.source]
  {
  }
}
