/**
  What the provider's other commands leave behind: the allocation that a TPM has stored for its next start, the policy
  and the authorization value of every PCR, and the value that the ESYS context presents for it, after sections 22.5 to
  22.7 of TPM 2.0 Library Part 3.
 */
module TpmSettings {
  import opened Common
  import opened ErrorTranslation
  import opened PcrTypes
  import opened TpmStructures
  import opened PcrBitmap
  import opened PcrMarshalling
  import opened PcrValidation
  import opened EsysPcrProvider
  import opened ProviderDiscipline
  import opened ProviderProtocol
  import opened TpmDevice

  datatype Policy = Policy(algorithm: HashAlgorithm, digest: seq<byte>)

  /** The settings before the first command; a bank's allocation is the set of PCRs that it will have. */
  datatype Settings = Settings(
    allocation: HashAlgorithm -> set<Index>,
    policy: Index -> Option<Policy>,
    value: Index -> seq<byte>,
    presented: Index -> seq<byte>)

  function Content(d: SizedDigest): seq<byte> {
    if d.size <= DIGEST_BUFFER_SIZE then d.buffer[..d.size] else d.buffer
  }

  predicate IsExecuted(chip: Chip, calls: seq<Call>) {
    chip.refusal(calls) == RC_SUCCESS
  }

  /** The last entry for a bank applies; banks that are not listed keep what they have. */
  function LastListed(entries: seq<PcrSelect>, a: HashAlgorithm, before: set<Index>): set<Index> {
    if entries == [] then before
    else
      var n := |entries| - 1;
      if AlgorithmFromTpm(true, entries[n].hash) == Ok(a) then SelectedIn(entries[n].pcrSelect, entries[n].sizeofSelect)
      else LastListed(entries[..n], a, before)
  }

  function Listed(list: PcrSelectionList): seq<PcrSelect> {
    if list.count <= NUM_PCR_BANKS then list.pcrSelections[..list.count] else list.pcrSelections
  }

  /** An allocation is stored if the command is executed and the TPM says that it can be met. */
  function AllocationAfter(chip: Chip, start: Settings, calls: seq<Call>, a: HashAlgorithm): set<Index> {
    if calls == [] then start.allocation(a)
    else
      var n := |calls| - 1;
      var before := AllocationAfter(chip, start, calls[..n], a);
      if calls[n].PcrAllocate? && IsExecuted(chip, calls) && chip.allocation(calls).success
        then LastListed(Listed(calls[n].allocation), a, before)
      else before
  }

  function PolicyAfter(chip: Chip, start: Settings, calls: seq<Call>, i: Index): Option<Policy> {
    if calls == [] then start.policy(i)
    else
      var n := |calls| - 1;
      var before := PolicyAfter(chip, start, calls[..n], i);
      if calls[n].PcrSetAuthPolicy? && calls[n].pcr == HR_PCR + i && IsExecuted(chip, calls) then
        match AlgorithmFromTpm(true, calls[n].hashAlg)
        case Ok(a) => Some(Policy(a, Content(calls[n].policy)))
        case Err(_) => before
      else before
  }

  function ValueAfter(chip: Chip, start: Settings, calls: seq<Call>, i: Index): seq<byte> {
    if calls == [] then start.value(i)
    else
      var n := |calls| - 1;
      if calls[n].PcrSetAuthValue? && calls[n].handle == ESYS_TR_PCR0 + i && IsExecuted(chip, calls)
        then Content(calls[n].auth)
      else ValueAfter(chip, start, calls[..n], i)
  }

  /** What the ESYS context presents as the authorization value of a PCR. */
  function PresentedAfter(chip: Chip, start: Settings, calls: seq<Call>, i: Index): seq<byte> {
    if calls == [] then start.presented(i)
    else
      var n := |calls| - 1;
      if calls[n].TrSetAuth? && calls[n].handle == ESYS_TR_PCR0 + i && IsExecuted(chip, calls)
        then Content(calls[n].auth)
      else PresentedAfter(chip, start, calls[..n], i)
  }

  lemma LastCallSets(chip: Chip, start: Settings, calls: seq<Call>, call: Call, i: Index, a: HashAlgorithm)
    ensures var after := calls + [call];
            && AllocationAfter(chip, start, after, a) ==
                 (if call.PcrAllocate? && IsExecuted(chip, after) && chip.allocation(after).success
                  then LastListed(Listed(call.allocation), a, AllocationAfter(chip, start, calls, a))
                  else AllocationAfter(chip, start, calls, a))
            && (!(call.PcrSetAuthPolicy? && call.pcr == HR_PCR + i && IsExecuted(chip, after)) ==>
                  PolicyAfter(chip, start, after, i) == PolicyAfter(chip, start, calls, i))
            && ValueAfter(chip, start, after, i) ==
                 (if call.PcrSetAuthValue? && call.handle == ESYS_TR_PCR0 + i && IsExecuted(chip, after)
                  then Content(call.auth) else ValueAfter(chip, start, calls, i))
            && PresentedAfter(chip, start, after, i) ==
                 (if call.TrSetAuth? && call.handle == ESYS_TR_PCR0 + i && IsExecuted(chip, after)
                  then Content(call.auth) else PresentedAfter(chip, start, calls, i))
  {
    hide LastListed, Listed, IsExecuted, Content;
    assert (calls + [call])[..|calls|] == calls;
  }

  /** PCRs 0 to 23, which an allocation asks for. */
  function AllPcrs(): set<Index> {
    set i: Index | InFirstThreeBytes(i)
  }

  lemma {:induction false} PackedBanksAreListed(legacy: bool, banks: seq<HashAlgorithm>, n: nat, a: HashAlgorithm,
      before: set<Index>)
    requires n <= |banks| <= NUM_PCR_BANKS
    ensures LastListed(PackedAllocation(legacy, banks).pcrSelections[..n], a, before) ==
      if Enabled(legacy, a) && a in banks[..n] then AllPcrs() else before
  {
    if n > 0 {
      hide SelectedIn, AllPcrs;
      var entries := PackedAllocation(legacy, banks).pcrSelections;
      PackedBanksAreListed(legacy, banks, n - 1, a, before);
      assert entries[..n][..n - 1] == entries[..n - 1];
      assert banks[..n] == banks[..n - 1] + [banks[n - 1]];
      AlgorithmsCorrespond(true, a, entries[n - 1].hash);
      if Enabled(legacy, banks[n - 1]) {
        AllocationSelectsEveryPcr(legacy, banks, n - 1);
      }
    }
  }

  /** The settings of one bank and one PCR. */
  datatype View = View(allocation: set<Index>, policy: Option<Policy>, value: seq<byte>, presented: seq<byte>)

  function ViewAfter(chip: Chip, start: Settings, calls: seq<Call>, a: HashAlgorithm, i: Index): View {
    View(AllocationAfter(chip, start, calls, a), PolicyAfter(chip, start, calls, i), ValueAfter(chip, start, calls, i),
      PresentedAfter(chip, start, calls, i))
  }

  function CallsMade(s: ProviderState, t: Taken): int {
    |t.state.calls| - |s.calls|
  }

  /**
    What an operation does to the settings: a successful allocation that the TPM can meet gives the listed banks all
    PCRs, a successful policy is that of the PCR, and an authorization value is presented once the first of its three
    calls has succeeded and set once the second has.
   */
  function Changed(env: Env, chip: Chip, s: ProviderState, op: Op, t: Taken, before: View, a: HashAlgorithm,
      i: Index): View {
    match op
    case AllocateOp(banks) =>
      if t.error.None? && chip.allocation(t.state.calls).success && Enabled(env.legacy, a) && a in banks
        then before.(allocation := AllPcrs())
      else before
    case SetAuthPolicyOp(index, algorithm, digest) =>
      if t.error.None? && index == i then before.(policy := Some(Policy(algorithm, digest))) else before
    case SetAuthValueOp(index, auth) =>
      if index != i then before
      else
        before.(
          presented := if CallsMade(s, t) >= 2 then auth else before.presented,
          value := if CallsMade(s, t) == 3 then auth else before.value)
    case _ => before
  }

  lemma QuietCallSetsNothing(chip: Chip, start: Settings, calls: seq<Call>, call: Call, a: HashAlgorithm, i: Index)
    requires !call.PcrAllocate? && !call.PcrSetAuthPolicy? && !call.PcrSetAuthValue? && !call.TrSetAuth?
    ensures ViewAfter(chip, start, calls + [call], a, i) == ViewAfter(chip, start, calls, a, i)
  {
    LastCallSets(chip, start, calls, call, i, a);
  }

  /** An accepted operation of one call, and what the TPM answers to it. */
  lemma OneCallIsMade(env: Env, chip: Chip, s: ProviderState, op: Op)
    requires IsBackend(chip, env.backend) && ValidOp(env.legacy, op) && !Rejects(env, op) && !op.SetAuthValueOp?
    ensures var t := Step(env, s, op);
            var calls := s.calls + [StagesOf(env, op)[0].call];
            && t.state.calls == calls
            && (op.AllocateOp? || op.SetAuthPolicyOp? ==> (t.error.None? <==> IsExecuted(chip, calls)))
  {
    hide Step, Rejects, ValidChip, RecordsFor, NoticeFor, ReleasesFor, TranslatedError;
    var stages := StagesOf(env, op);
    OperationsFollowTable(env, s, op);
    assert CallsOf(stages[..1]) == [stages[0].call];
  }

  lemma AllocateSets(env: Env, chip: Chip, start: Settings, s: ProviderState, op: Op, a: HashAlgorithm, i: Index)
    requires IsBackend(chip, env.backend) && op.AllocateOp? && !Rejects(env, op)
    ensures var t := Step(env, s, op);
            ViewAfter(chip, start, t.state.calls, a, i) ==
              Changed(env, chip, s, op, t, ViewAfter(chip, start, s.calls, a, i), a, i)
  {
    hide Step, IsBackend, PackedAllocation, AllocationAfter, PolicyAfter, ValueAfter, PresentedAfter, LastListed;
    var call := StagesOf(env, op)[0].call;
    OneCallIsMade(env, chip, s, op);
    LastCallSets(chip, start, s.calls, call, i, a);
    AllBanksAreListed(env.legacy, op.banks, a, AllocationAfter(chip, start, s.calls, a));
  }

  lemma AllBanksAreListed(legacy: bool, banks: seq<HashAlgorithm>, a: HashAlgorithm, before: set<Index>)
    requires |banks| <= NUM_PCR_BANKS
    ensures LastListed(Listed(PackedAllocation(legacy, banks)), a, before) ==
      if Enabled(legacy, a) && a in banks then AllPcrs() else before
  {
    PackedBanksAreListed(legacy, banks, |banks|, a, before);
    assert banks[..|banks|] == banks;
  }

  lemma SetAuthPolicySets(env: Env, chip: Chip, start: Settings, s: ProviderState, op: Op, a: HashAlgorithm, i: Index)
    requires IsBackend(chip, env.backend) && op.SetAuthPolicyOp? && !Rejects(env, op)
    ensures var t := Step(env, s, op);
            ViewAfter(chip, start, t.state.calls, a, i) ==
              Changed(env, chip, s, op, t, ViewAfter(chip, start, s.calls, a, i), a, i)
  {
    hide Step, IsBackend, AllocationAfter, ValueAfter, PresentedAfter, Padded;
    var call := StagesOf(env, op)[0].call;
    OneCallIsMade(env, chip, s, op);
    LastCallSets(chip, start, s.calls, call, i, a);
    AlgorithmsCorrespond(true, op.algorithm, call.hashAlg);
    assert (s.calls + [call])[..|s.calls|] == s.calls;
    PaddedContent(op.digest);
  }

  lemma PaddedContent(bytes: seq<byte>)
    requires |bytes| <= DIGEST_BUFFER_SIZE
    ensures Content(SizedDigest(|bytes|, Padded(bytes, DIGEST_BUFFER_SIZE))) == bytes
  {
  }

  /** The calls of an accepted operation that sets an authorization value: the next one only after an executed one. */
  lemma ThreeCallsAreMade(env: Env, chip: Chip, s: ProviderState, op: Op)
    requires IsBackend(chip, env.backend) && op.SetAuthValueOp? && !Rejects(env, op)
    ensures var t := Step(env, s, op);
            var present := TrSetAuth(ESYS_TR_PCR0 + op.index, EMPTY_SIZED_DIGEST);
            var one := s.calls + [present];
            var two := one + [PcrSetAuthValue(ESYS_TR_PCR0 + op.index, EMPTY_SIZED_DIGEST)];
            var three := two + [present];
            && t.state.calls ==
                 (if !IsExecuted(chip, one) then one else if !IsExecuted(chip, two) then two else three)
            && (t.error.None? <==> IsExecuted(chip, one) && IsExecuted(chip, two) && IsExecuted(chip, three))
  {
    hide Step, ValidChip, RecordsFor, NoticeFor, ReleasesFor, TranslatedError, Rejects;
    OperationsFollowTable(env, s, op);
    ThreeStages(s, StagesOf(env, op));
  }

  lemma SetAuthValueSets(env: Env, chip: Chip, start: Settings, s: ProviderState, op: Op, a: HashAlgorithm, i: Index)
    requires IsBackend(chip, env.backend) && op.SetAuthValueOp? && !Rejects(env, op)
    ensures var t := Step(env, s, op);
            && ViewAfter(chip, start, t.state.calls, a, i) ==
                 Changed(env, chip, s, op, t, ViewAfter(chip, start, s.calls, a, i), a, i)
            && (t.error.None? ==> CallsMade(s, t) == 3)
  {
    hide Step, IsBackend, AllocationAfter, PolicyAfter, ValueAfter, PresentedAfter, IsExecuted;
    var present := TrSetAuth(ESYS_TR_PCR0 + op.index, EMPTY_SIZED_DIGEST);
    var set' := PcrSetAuthValue(ESYS_TR_PCR0 + op.index, EMPTY_SIZED_DIGEST);
    ThreeCallsAreMade(env, chip, s, op);
    LastCallSets(chip, start, s.calls, present, i, a);
    LastCallSets(chip, start, s.calls + [present], set', i, a);
    LastCallSets(chip, start, s.calls + [present] + [set'], present, i, a);
  }

  /**
    Every operation, in every state, changes the settings of every bank and every PCR exactly so, and a value that was
    set successfully is both the TPM's and the presented one.
   */
  lemma OperationSets(env: Env, chip: Chip, start: Settings, s: ProviderState, op: Op, a: HashAlgorithm, i: Index)
    requires IsBackend(chip, env.backend) && ValidOp(env.legacy, op)
    ensures var t := Step(env, s, op);
            && ViewAfter(chip, start, t.state.calls, a, i) ==
                 Changed(env, chip, s, op, t, ViewAfter(chip, start, s.calls, a, i), a, i)
            && (op.SetAuthValueOp? && t.error.None? ==>
                  var after := ViewAfter(chip, start, t.state.calls, a, op.index);
                  after.value == op.auth && after.presented == op.auth)
  {
    hide Step, IsBackend, ViewAfter, Rejects;
    if Rejects(env, op) {
      RejectedStep(env, s, op);
    } else {
      match op
      case AllocateOp(_) => AllocateSets(env, chip, start, s, op, a, i);
      case SetAuthPolicyOp(_, _, _) => SetAuthPolicySets(env, chip, start, s, op, a, i);
      case SetAuthValueOp(index, _) =>
        SetAuthValueSets(env, chip, start, s, op, a, i);
        SetAuthValueSets(env, chip, start, s, op, a, index);
      case _ =>
        OneCallIsMade(env, chip, s, op);
        QuietCallSetsNothing(chip, start, s.calls, StagesOf(env, op)[0].call, a, i);
    }
  }

  /** An accepted allocation returns the TPM's answer to it, and fails only if the TPM refuses it. */
  lemma AllocateAnswers(env: Env, chip: Chip, s: ProviderState, banks: seq<HashAlgorithm>)
    requires IsBackend(chip, env.backend) && !Rejects(env, AllocateOp(banks))
    ensures var r := Allocate(env, s, banks);
            && (r.outcome.Ok? <==> IsExecuted(chip, r.state.calls))
            && (r.outcome.Ok? ==> r.outcome.value == chip.allocation(r.state.calls))
  {
    hide Logs, Notifications, Frees, PackedAllocation, BankVerdict, ValidChip, TranslatedError;
    VerdictsReject(env, AllocateOp(banks));
  }

  // Whole runs.

  /** The settings that the operations of a run have asked for and got, the last of them last. */
  function ViewOfRun(env: Env, chip: Chip, start: Settings, ops: seq<Op>, a: HashAlgorithm, i: Index): View
    requires ValidOps(env.legacy, ops)
  {
    if ops == [] then View(start.allocation(a), start.policy(i), start.value(i), start.presented(i))
    else
      var n := |ops| - 1;
      Changed(env, chip, AfterRun(env, ops[..n]), ops[n], LastStep(env, ops),
        ViewOfRun(env, chip, start, ops[..n], a, i), a, i)
  }

  /** After every run the settings are those. */
  lemma {:induction false} SettingsFollowRun(env: Env, chip: Chip, start: Settings, ops: seq<Op>, a: HashAlgorithm,
      i: Index)
    requires IsBackend(chip, env.backend) && ValidOps(env.legacy, ops)
    ensures ViewAfter(chip, start, AfterRun(env, ops).calls, a, i) == ViewOfRun(env, chip, start, ops, a, i)
  {
    if ops != [] {
      hide Step, Changed, ViewAfter, IsBackend, ValidOp;
      var n := |ops| - 1;
      SettingsFollowRun(env, chip, start, ops[..n], a, i);
      OperationSets(env, chip, start, AfterRun(env, ops[..n]), ops[n], a, i);
    }
  }

  /** A TPM that refuses to set a value unless the one that is presented for the PCR is its own. */
  ghost predicate ChecksAuthorization(chip: Chip, start: Settings) {
    forall calls: seq<Call>, call: Call, i: Index ::
      call == PcrSetAuthValue(ESYS_TR_PCR0 + i, EMPTY_SIZED_DIGEST) && IsExecuted(chip, calls + [call]) ==>
        PresentedAfter(chip, start, calls, i) == ValueAfter(chip, start, calls, i)
  }

  /** On such a TPM only PCRs whose value is empty can be set, because the empty value is what is presented. */
  lemma OnlyEmptyValuesAreSet(env: Env, chip: Chip, start: Settings, s: ProviderState, op: Op)
    requires IsBackend(chip, env.backend) && ChecksAuthorization(chip, start)
    requires op.SetAuthValueOp? && ValueAfter(chip, start, s.calls, op.index) != []
    ensures var t := Step(env, s, op);
            && t.error.Some?
            && ValueAfter(chip, start, t.state.calls, op.index) == ValueAfter(chip, start, s.calls, op.index)
  {
    hide Step, IsBackend, Rejects, PresentedAfter, ValueAfter, AllocationAfter, PolicyAfter, IsExecuted;
    if Rejects(env, op) {
      RejectedStep(env, s, op);
    } else {
      var present := TrSetAuth(ESYS_TR_PCR0 + op.index, EMPTY_SIZED_DIGEST);
      var set' := PcrSetAuthValue(ESYS_TR_PCR0 + op.index, EMPTY_SIZED_DIGEST);
      ThreeCallsAreMade(env, chip, s, op);
      LastCallSets(chip, start, s.calls, present, op.index, Sha256);
      LastCallSets(chip, start, s.calls + [present], set', op.index, Sha256);
    }
  }

  /** And in every run against it, no operation ever changes an authorization value. */
  lemma {:induction false} ValuesNeverChange(env: Env, chip: Chip, start: Settings, ops: seq<Op>, i: Index)
    requires IsBackend(chip, env.backend) && ValidOps(env.legacy, ops) && ChecksAuthorization(chip, start)
    ensures ValueAfter(chip, start, AfterRun(env, ops).calls, i) == start.value(i)
  {
    if ops != [] {
      hide Step, IsBackend, ValueAfter, ChecksAuthorization, ValidOp;
      var n := |ops| - 1;
      var s, op := AfterRun(env, ops[..n]), ops[n];
      ValuesNeverChange(env, chip, start, ops[..n], i);
      OperationSets(env, chip, start, s, op, Sha256, i);
      if op.SetAuthValueOp? && op.index == i {
        AcceptedValueIsEmpty(env, s, op);
        if ValueAfter(chip, start, s.calls, i) != [] {
          OnlyEmptyValuesAreSet(env, chip, start, s, op);
        }
      }
    }
  }

  lemma AcceptedValueIsEmpty(env: Env, s: ProviderState, op: Op)
    requires op.SetAuthValueOp?
    ensures op.auth == [] || Step(env, s, op).state.calls == s.calls
  {
    hide Step;
    if Rejects(env, op) {
      RejectedStep(env, s, op);
    }
  }
}
