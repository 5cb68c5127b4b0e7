/**
  The PCR domain values. `legacy` is the build switch that enables SHA-1; a value whose algorithm is SHA-1 can only
  be constructed when it is on, which `Enabled` and the `Valid` predicates record.
 */
module PcrTypes {
  import opened Common

  datatype HashAlgorithm = Sha1 | Sha256 | Sha384 | Sha512

  predicate Enabled(legacy: bool, algorithm: HashAlgorithm) {
    algorithm == Sha1 ==> legacy
  }

  function DigestSize(algorithm: HashAlgorithm): nat {
    match algorithm
    case Sha1 => 20
    case Sha256 => 32
    case Sha384 => 48
    case Sha512 => 64
  }

  /** An algorithm is named after the number of its digest's bits; the oldest is the exception. */
  lemma DigestSizeIsInName(algorithm: HashAlgorithm)
    ensures 8 * DigestSize(algorithm) ==
      if algorithm == Sha512 then 512 else if algorithm == Sha384 then 384 else if algorithm == Sha256 then 256 else 160
  {
  }

  const MAX_INDEX := 31

  type Index = i: nat | i <= MAX_INDEX

  datatype DigestValue = DigestValue(algorithm: HashAlgorithm, digest: seq<byte>)

  predicate ValidDigest(legacy: bool, d: DigestValue) {
    Enabled(legacy, d.algorithm) && |d.digest| == DigestSize(d.algorithm)
  }

  predicate ValidDigests(legacy: bool, ds: seq<DigestValue>) {
    forall k :: 0 <= k < |ds| ==> ValidDigest(legacy, ds[k])
  }

  datatype Selection = Selection(algorithm: HashAlgorithm, indices: set<Index>)

  datatype PcrValue = PcrValue(index: Index, digest: DigestValue)

  datatype ReadResult = ReadResult(actualSelection: Selection, updateCounter: nat, values: seq<PcrValue>)

  datatype AllocateResult = AllocateResult(success: bool, maxPcr: nat, sizeNeeded: nat, sizeAvailable: nat)

  /** The order in which an ordered set of indices is iterated, from `first` on. */
  function AscendingFrom(indices: set<Index>, first: nat): seq<Index>
    requires first <= MAX_INDEX + 1
    decreases MAX_INDEX + 1 - first
  {
    if first > MAX_INDEX then []
    else if first in indices then [first] + AscendingFrom(indices, first + 1)
    else AscendingFrom(indices, first + 1)
  }

  function Ascending(indices: set<Index>): seq<Index> {
    AscendingFrom(indices, 0)
  }

  lemma {:induction false} AscendingFromIsOrdered(indices: set<Index>, first: nat)
    requires first <= MAX_INDEX + 1
    ensures forall i: Index :: i in AscendingFrom(indices, first) <==> i in indices && first <= i
    ensures StrictlyIncreasing(AscendingFrom(indices, first))
    decreases MAX_INDEX + 1 - first
  {
    if first <= MAX_INDEX {
      var rest := AscendingFrom(indices, first + 1);
      AscendingFromIsOrdered(indices, first + 1);
      forall k | 0 <= k < |rest| ensures first < rest[k] {
        assert rest[k] in rest;
      }
      SmallestInFront(first, rest);
    }
  }

  lemma SmallestInFront(i: Index, rest: seq<Index>)
    requires StrictlyIncreasing(rest) && forall k :: 0 <= k < |rest| ==> i < rest[k]
    ensures StrictlyIncreasing([i] + rest)
    ensures forall j: Index :: j in [i] + rest <==> j == i || j in rest
  {
  }

  /** The iteration order lists exactly the members, each once, the smallest first. */
  lemma AscendingIsOrdered(indices: set<Index>)
    ensures forall i: Index :: i in Ascending(indices) <==> i in indices
    ensures StrictlyIncreasing(Ascending(indices))
    ensures |Ascending(indices)| == |indices|
  {
    AscendingFromIsOrdered(indices, 0);
    AscendingLength(indices);
  }

  lemma {:induction false} AscendingFromLength(indices: set<Index>, first: nat)
    requires first <= MAX_INDEX + 1
    ensures |AscendingFrom(indices, first)| == |set i: Index | i in indices && first <= i|
    decreases MAX_INDEX + 1 - first
  {
    var here := set i: Index | i in indices && first <= i;
    if first > MAX_INDEX {
      assert here == {};
    } else {
      var above := set i: Index | i in indices && first + 1 <= i;
      AscendingFromLength(indices, first + 1);
      assert here == if first in indices then {first as Index} + above else above;
    }
  }

  lemma AscendingLength(indices: set<Index>)
    ensures |Ascending(indices)| == |indices|
  {
    AscendingFromLength(indices, 0);
    assert indices == set i: Index | i in indices && 0 <= i;
  }

  ghost predicate StrictlyIncreasing(a: seq<Index>) {
    forall j, k :: 0 <= j < k < |a| ==> a[j] < a[k]
  }

  /** A strictly increasing enumeration of a set is its ascending order. */
  lemma {:induction false} AscendingIsUnique(a: seq<Index>, b: seq<Index>)
    requires StrictlyIncreasing(a) && StrictlyIncreasing(b)
    requires forall i: Index :: i in a <==> i in b
    ensures a == b
  {
    assert a == [] || a[0] in b;
    assert b == [] || b[0] in a;
    if a != [] && b != [] {
      var a', b' := a[..|a| - 1], b[..|b| - 1];
      LastIsLargest(a, b);
      LastIsLargest(b, a);
      forall i: Index ensures i in a' <==> i in b' {
        assert i in a' <==> i in a && i != a[|a| - 1];
        assert i in b' <==> i in b && i != b[|b| - 1];
      }
      AscendingIsUnique(a', b');
      assert a == a' + [a[|a| - 1]] && b == b' + [b[|b| - 1]];
    }
  }

  lemma LastIsLargest(a: seq<Index>, b: seq<Index>)
    requires StrictlyIncreasing(a) && StrictlyIncreasing(b)
    requires a != [] && b != []
    requires forall i: Index :: i in a <==> i in b
    ensures a[|a| - 1] == b[|b| - 1]
    ensures forall i: Index :: i in a[..|a| - 1] <==> i in a && i != a[|a| - 1]
  {
    assert a[|a| - 1] in b && b[|b| - 1] in a;
  }
}
