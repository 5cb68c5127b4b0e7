/** The checks on caller input that precede every PCR backend call. */
module PcrValidation {
  import opened Common
  import opened PcrTypes
  import opened TpmStructures
  import opened PcrMarshalling

  function Rejected<T>(message: string): Outcome<T> {
    Err(Error(InputError, message))
  }

  predicate Distinct(algorithms: seq<HashAlgorithm>) {
    forall i, j :: 0 <= i < j < |algorithms| ==> algorithms[i] != algorithms[j]
  }

  function Algorithms(ds: seq<DigestValue>): (algorithms: seq<HashAlgorithm>)
    ensures |algorithms| == |ds|
    ensures forall k :: 0 <= k < |ds| ==> algorithms[k] == ds[k].algorithm
  {
    seq(|ds|, k requires 0 <= k < |ds| => ds[k].algorithm)
  }

  /**
    Accepts the non-empty, pairwise distinct lists of at most 16 algorithms; the size is checked before the duplicates.
   */
  function CountVerdict(algorithms: seq<HashAlgorithm>, empty: string, tooMany: string,
      duplicate: string): Outcome<()> {
    if algorithms == [] then Rejected(empty)
    else if |algorithms| > NUM_PCR_BANKS then Rejected(tooMany)
    else if !Distinct(algorithms) then Rejected(duplicate)
    else Ok(())
  }

  function BankVerdict(banks: seq<HashAlgorithm>): Outcome<()> {
    CountVerdict(banks, "PCR allocate requires at least one bank", "too many PCR banks", "duplicate PCR bank")
  }

  function DigestVerdict(ds: seq<DigestValue>): Outcome<()> {
    CountVerdict(Algorithms(ds), "PCR extend requires at least one digest", "too many PCR digests",
      "duplicate PCR digest algorithm")
  }

  function EventVerdict(data: seq<byte>): Outcome<()> {
    if |data| > EVENT_BUFFER_SIZE then Rejected("PCR event data is too large") else Ok(())
  }

  function PolicyVerdict(legacy: bool, algorithm: HashAlgorithm, digest: seq<byte>): Outcome<()> {
    if !Enabled(legacy, algorithm) then Rejected("unsupported PCR auth policy hash algorithm")
    else if |digest| != DigestSize(algorithm) then Rejected("PCR auth policy digest has wrong size")
    else Ok(())
  }

  /** Only the empty authorization value passes: an oversized one is bad input, any other has no secure transport. */
  function AuthVerdict(auth: seq<byte>): Outcome<()> {
    var fits := SizeVerdict(|auth|, "PCR auth value is too large");
    if fits.Err? then fits else TransportVerdict(auth)
  }

  function SizeVerdict(size: nat, message: string): Outcome<()> {
    if size > DIGEST_BUFFER_SIZE then Rejected(message) else Ok(())
  }

  function TransportVerdict(auth: seq<byte>): Outcome<()> {
    if auth != [] then
      Err(Error(ResourceError, "secure PCR auth value transport is unavailable for non-empty authorization values"))
    else Ok(())
  }

  // When each verdict rejects, and as what.

  lemma BankVerdictRejects(banks: seq<HashAlgorithm>)
    ensures BankVerdict(banks).Err? <==> banks == [] || |banks| > NUM_PCR_BANKS || !Distinct(banks)
    ensures BankVerdict(banks).Err? ==> BankVerdict(banks).error.category == InputError
  {
  }

  lemma DigestVerdictRejects(ds: seq<DigestValue>)
    ensures DigestVerdict(ds).Err? <==> ds == [] || |ds| > NUM_PCR_BANKS || !Distinct(Algorithms(ds))
    ensures DigestVerdict(ds).Err? ==> DigestVerdict(ds).error.category == InputError
  {
  }

  lemma EventVerdictRejects(data: seq<byte>)
    ensures EventVerdict(data).Err? <==> |data| > EVENT_BUFFER_SIZE
    ensures EventVerdict(data).Err? ==> EventVerdict(data).error.category == InputError
  {
  }

  lemma PolicyVerdictRejects(legacy: bool, algorithm: HashAlgorithm, digest: seq<byte>)
    ensures PolicyVerdict(legacy, algorithm, digest).Err? <==>
      !Enabled(legacy, algorithm) || |digest| != DigestSize(algorithm)
    ensures PolicyVerdict(legacy, algorithm, digest).Err? ==>
      PolicyVerdict(legacy, algorithm, digest).error.category == InputError
  {
  }

  lemma AuthVerdictRejects(auth: seq<byte>)
    ensures AuthVerdict(auth).Err? <==> auth != []
    ensures AuthVerdict(auth).Err? ==>
              AuthVerdict(auth).error.category == if |auth| > DIGEST_BUFFER_SIZE then InputError else ResourceError
  {
  }

  /** An element that is new keeps a prefix distinct; one that is not spoils the whole list. */
  lemma DistinctOneMore(algorithms: seq<HashAlgorithm>, k: nat)
    requires k < |algorithms| && Distinct(algorithms[..k])
    ensures algorithms[k] !in algorithms[..k] ==> Distinct(algorithms[..k + 1])
    ensures algorithms[k] in algorithms[..k] ==> !Distinct(algorithms)
    ensures forall a :: a in algorithms[..k + 1] <==> a in algorithms[..k] || a == algorithms[k]
  {
    var prefix := algorithms[..k];
    assert algorithms[..k + 1] == prefix + [algorithms[k]];
    if algorithms[k] in prefix {
      var j :| 0 <= j < k && prefix[j] == algorithms[k];
      assert algorithms[j] == algorithms[k];
    }
  }

  lemma NoneAreDistinct(algorithms: seq<HashAlgorithm>)
    ensures Distinct(algorithms[..0])
  {
  }

  method EnsureBankCount(banks: seq<HashAlgorithm>) returns (r: Outcome<()>)
    ensures r == BankVerdict(banks)
    ensures r.Ok? ==> |banks| <= NUM_PCR_BANKS
  {
    if banks == [] {
      return Rejected("PCR allocate requires at least one bank");
    }
    if |banks| > NUM_PCR_BANKS {
      return Rejected("too many PCR banks");
    }
    hide Distinct;
    NoneAreDistinct(banks);
    var algorithms: set<HashAlgorithm> := {};
    for k := 0 to |banks|
      invariant Distinct(banks[..k])
      invariant forall a :: a in algorithms <==> a in banks[..k]
    {
      DistinctOneMore(banks, k);
      if banks[k] in algorithms {
        return Rejected("duplicate PCR bank");
      }
      algorithms := algorithms + {banks[k]};
    }
    assert banks[..|banks|] == banks;
    return Ok(());
  }

  method EnsureDigestCount(ds: seq<DigestValue>) returns (r: Outcome<()>)
    ensures r == DigestVerdict(ds)
    ensures r.Ok? ==> |ds| <= NUM_PCR_BANKS
  {
    if ds == [] {
      return Rejected("PCR extend requires at least one digest");
    }
    if |ds| > NUM_PCR_BANKS {
      return Rejected("too many PCR digests");
    }
    hide Distinct, Algorithms;
    NoneAreDistinct(Algorithms(ds));
    var algorithms: set<HashAlgorithm> := {};
    for k := 0 to |ds|
      invariant Distinct(Algorithms(ds)[..k])
      invariant forall a :: a in algorithms <==> a in Algorithms(ds)[..k]
    {
      DistinctOneMore(Algorithms(ds), k);
      if ds[k].algorithm in algorithms {
        return Rejected("duplicate PCR digest algorithm");
      }
      algorithms := algorithms + {ds[k].algorithm};
    }
    assert Algorithms(ds)[..|ds|] == Algorithms(ds);
    return Ok(());
  }

  method EnsureSizedBufferFits(size: nat, message: string) returns (r: Outcome<()>)
    ensures r == SizeVerdict(size, message)
  {
    if size > DIGEST_BUFFER_SIZE {
      return Rejected(message);
    }
    return Ok(());
  }

  method EnsureSecureAuthValueTransport(auth: seq<byte>) returns (r: Outcome<()>)
    ensures r == TransportVerdict(auth)
    ensures r.Ok? <==> auth == []
  {
    if auth != [] {
      return Err(Error(ResourceError,
        "secure PCR auth value transport is unavailable for non-empty authorization values"));
    }
    return Ok(());
  }

  /** The final size check can no longer fail: no digest is longer than the buffer. */
  method EnsurePolicyDigestSize(legacy: bool, algorithm: HashAlgorithm, digest: seq<byte>) returns (r: Outcome<()>)
    ensures r == PolicyVerdict(legacy, algorithm, digest)
    ensures r.Ok? ==> |digest| <= DIGEST_BUFFER_SIZE
  {
    if AlgorithmToTpm(legacy, algorithm) == ALG_ERROR {
      return Rejected("unsupported PCR auth policy hash algorithm");
    }
    if |digest| != DigestSize(algorithm) {
      return Rejected("PCR auth policy digest has wrong size");
    }
    r := EnsureSizedBufferFits(|digest|, "PCR auth policy digest is too large");
  }

  /** By pigeonhole a distinct list has at most one entry per enabled algorithm. */
  lemma DistinctListsAreShort(legacy: bool, algorithms: seq<HashAlgorithm>)
    requires Distinct(algorithms)
    requires forall k :: 0 <= k < |algorithms| ==> Enabled(legacy, algorithms[k])
    ensures |algorithms| <= if legacy then 4 else 3
  {
    var enabled: set<HashAlgorithm> := if legacy then {Sha1, Sha256, Sha384, Sha512} else {Sha256, Sha384, Sha512};
    DistinctLength(algorithms, enabled);
  }

  lemma {:induction false} DistinctLength(algorithms: seq<HashAlgorithm>, universe: set<HashAlgorithm>)
    requires Distinct(algorithms)
    requires forall k :: 0 <= k < |algorithms| ==> algorithms[k] in universe
    ensures |algorithms| <= |universe|
  {
    if algorithms != [] {
      DistinctLength(algorithms[1..], universe - {algorithms[0]});
    }
  }

  /**
    What validation buys: an accepted digest list has at most four entries (three without SHA-1), so every write of
    the packer is inside its 16-entry array, the count fits its field, and nothing is lost.
   */
  lemma AcceptedDigestsPackLosslessly(legacy: bool, ds: seq<DigestValue>)
    requires ValidDigests(legacy, ds)
    ensures DigestVerdict(ds).Ok? <==> ds != [] && Distinct(Algorithms(ds))
    ensures DigestVerdict(ds).Ok? ==>
      |ds| <= (if legacy then 4 else 3) && UnpackedDigests(legacy, PackedDigests(legacy, ds)) == Ok(ds)
  {
    if ds != [] && Distinct(Algorithms(ds)) {
      DistinctListsAreShort(legacy, Algorithms(ds));
      DigestListRoundTrip(legacy, ds);
    }
  }

  lemma AcceptedBanksPackLosslessly(legacy: bool, banks: seq<HashAlgorithm>)
    requires forall k :: 0 <= k < |banks| ==> Enabled(legacy, banks[k])
    ensures BankVerdict(banks).Ok? <==> banks != [] && Distinct(banks)
    ensures BankVerdict(banks).Ok? ==>
              && |banks| <= (if legacy then 4 else 3)
              && PackedAllocation(legacy, banks).count == |banks|
              && forall k :: 0 <= k < |banks| ==>
                AlgorithmFromTpm(legacy, PackedAllocation(legacy, banks).pcrSelections[k].hash) == Ok(banks[k])
  {
    if banks != [] && Distinct(banks) {
      DistinctListsAreShort(legacy, banks);
      forall k | 0 <= k < |banks|
        ensures AlgorithmFromTpm(legacy, PackedAllocation(legacy, banks).pcrSelections[k].hash) == Ok(banks[k]) {
        AllocationSelectsEveryPcr(legacy, banks, k);
      }
    }
  }
}
