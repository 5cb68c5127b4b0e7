/**
  What every provider operation does to the backend, the log, the observer and the heap, whatever the backend replies.
 */
module ProviderDiscipline {
  import opened Common
  import opened ErrorTranslation
  import opened PcrTypes
  import opened TpmStructures
  import opened PcrMarshalling
  import opened PcrValidation
  import opened InMemoryPcrObserver
  import opened EsysPcrProvider

  datatype Op =
    | AllocateOp(banks: seq<HashAlgorithm>)
    | EventOp(index: Index, data: seq<byte>)
    | ExtendOp(index: Index, digests: seq<DigestValue>)
    | ReadOp(selection: Selection)
    | ResetOp(index: Index)
    | SetAuthPolicyOp(index: Index, algorithm: HashAlgorithm, digest: seq<byte>)
    | SetAuthValueOp(index: Index, auth: seq<byte>)

  /** The class invariant of the digest values in an operation's arguments. */
  predicate ValidOp(legacy: bool, op: Op) {
    op.ExtendOp? ==> ValidDigests(legacy, op.digests)
  }

  datatype Taken = Taken(state: ProviderState, error: Option<Error>, measured: Option<Measurement>)

  function Finished<T>(r: Run<T>): Taken {
    Taken(r.state, if r.outcome.Ok? then None else Some(r.outcome.error), None)
  }

  /** One operation: the state it leaves, its error, and the measurement it succeeded in making. */
  function Step(env: Env, s: ProviderState, op: Op): Taken
    requires ValidOp(env.legacy, op)
  {
    match op
    case AllocateOp(banks) => Finished(Allocate(env, s, banks))
    case ReadOp(selection) => Finished(Read(env, s, selection))
    case ResetOp(index) => Finished(Reset(env, s, index))
    case SetAuthPolicyOp(index, algorithm, digest) => Finished(SetAuthPolicy(env, s, index, algorithm, digest))
    case SetAuthValueOp(index, auth) => Finished(SetAuthValue(env, s, index, auth))
    case ExtendOp(index, ds) =>
      var r := Extend(env, s, index, ds);
      Finished(r).(measured := if r.outcome.Ok? then Some(Measurement(index, Extended, ds, [])) else None)
    case EventOp(index, data) =>
      var r := Event(env, s, index, data);
      Finished(r).(measured := if r.outcome.Ok? then Some(Measurement(index, Evented, r.outcome.value, data)) else None)
  }

  /** Input that is turned down before the backend is involved. */
  predicate Rejects(env: Env, op: Op) {
    || !env.available
    || match op
       case AllocateOp(banks) => banks == [] || |banks| > NUM_PCR_BANKS || !Distinct(banks)
       case EventOp(_, data) => |data| > EVENT_BUFFER_SIZE
       case ExtendOp(_, ds) => ds == [] || |ds| > NUM_PCR_BANKS || !Distinct(Algorithms(ds))
       case ReadOp(_) => false
       case ResetOp(_) => false
       case SetAuthPolicyOp(_, algorithm, digest) =>
         !Enabled(env.legacy, algorithm) || |digest| != DigestSize(algorithm)
       case SetAuthValueOp(_, auth) => auth != []
  }

  /** The buffers that the backend hands out with the reply to the n-th call. */
  function HandedOut(call: Call, n: nat, reply: Reply): multiset<Buffer> {
    match call
    case PcrEvent(_, _) => if reply.digests.Some? then multiset{Buffer(n, DigestsPart)} else multiset{}
    case PcrRead(_) =>
      (if reply.selection.Some? then multiset{Buffer(n, SelectionPart)} else multiset{})
      + (if reply.values.Some? then multiset{Buffer(n, ValuesPart)} else multiset{})
    case _ => multiset{}
  }

  function AllHandedOut(backend: Backend, calls: seq<Call>): multiset<Buffer> {
    if calls == [] then multiset{}
    else
      var n := |calls| - 1;
      AllHandedOut(backend, calls[..n]) + HandedOut(calls[n], |calls|, backend(calls))
  }

  /** What the calls after the first `from` of a history handed out. */
  function HandedOutSince(backend: Backend, calls: seq<Call>, from: nat): multiset<Buffer> {
    if |calls| <= from then multiset{}
    else
      var n := |calls| - 1;
      HandedOutSince(backend, calls[..n], from) + HandedOut(calls[n], |calls|, backend(calls))
  }

  lemma {:induction false} HandedOutSplits(backend: Backend, before: seq<Call>, after: seq<Call>)
    requires before <= after
    ensures AllHandedOut(backend, after) == AllHandedOut(backend, before) + HandedOutSince(backend, after, |before|)
  {
    if |before| < |after| {
      HandedOutSplits(backend, before, after[..|after| - 1]);
    } else {
      assert before == after;
    }
  }

  /** The return code of the last call of a history. */
  function LastCode(env: Env, s: ProviderState): TssRc { env.backend(s.calls).rc }

  /** How many log records an operation adds: one for a refused call, one for success, none for a malformed reply. */
  ghost predicate LogsFor(rc: TssRc, before: seq<LogRecord>, after: seq<LogRecord>, error: Option<Error>) {
    if rc != RC_SUCCESS then
      && error == Some(TranslatedError(rc))
      && |after| == |before| + 1 && before <= after
      && after[|before|].TssError? && after[|before|].rc == rc && after[|before|].category == error.value.category
    else if error.Some? then
      error.value.category == BackendError && after == before
    else
      |after| == |before| + 1 && before <= after && !after[|before|].TssError?
  }

  ghost predicate LogsProperly(env: Env, s: ProviderState, t: Taken) {
    LogsFor(LastCode(env, t.state), Logs(s.effects), Logs(t.state.effects), t.error)
  }

  /** The calls an operation makes: all but the last one succeeded. */
  ghost predicate CallsProperly(env: Env, s: ProviderState, t: Taken) {
    && s.calls <= t.state.calls && |s.calls| < |t.state.calls| <= |s.calls| + 3
    && forall k :: |s.calls| < k < |t.state.calls| ==> env.backend(t.state.calls[..k]).rc == RC_SUCCESS
  }

  /** The observer hears of exactly the successful extends and events. */
  ghost predicate NotifiesProperly(env: Env, s: ProviderState, op: Op, t: Taken) {
    && (t.measured.Some? <==> (op.ExtendOp? || op.EventOp?) && t.error.None?)
    && Notifications(t.state.effects) ==
         if env.observed && t.measured.Some? then Notifications(s.effects) + [t.measured.value]
           else Notifications(s.effects)
  }

  /** Every buffer that the calls of an operation hand out is released by the operation, and nothing else is. */
  ghost predicate ReleasesProperly(env: Env, s: ProviderState, t: Taken) {
    multiset(Frees(t.state.effects)) ==
      multiset(Frees(s.effects)) + HandedOutSince(env.backend, t.state.calls, |s.calls|)
  }

  ghost predicate Disciplined(env: Env, s: ProviderState, op: Op, t: Taken) {
    && (if Rejects(env, op) then
          t.state == s && t.error.Some? && t.error.value.category in {InputError, ResourceError}
        else CallsProperly(env, s, t) && LogsProperly(env, s, t))
    && NotifiesProperly(env, s, op, t)
    && ReleasesProperly(env, s, t)
  }

  lemma DecodeFailures(legacy: bool, list: DigestValueList)
    ensures UnpackedDigests(legacy, list).Err? ==> UnpackedDigests(legacy, list).error.category == BackendError
  {
    if list.count <= NUM_PCR_BANKS {
      DigestFilterLaw(legacy, list.digests[..list.count]);
    }
  }

  lemma SelectionFailures(legacy: bool, list: PcrSelectionList, fallback: HashAlgorithm)
    ensures UnpackedSelection(legacy, list, fallback).Err? ==>
      UnpackedSelection(legacy, list, fallback).error.category == BackendError
  {
  }

  lemma ValueFailures(list: DigestList, selection: Selection)
    ensures UnpackedValues(list, selection).Err? ==> UnpackedValues(list, selection).error.category == BackendError
  {
  }

  /** An accepted operation that makes one call, seen from what it does after the call. */
  lemma OneCallIsDisciplined(env: Env, s: ProviderState, op: Op, call: Call, t: Taken)
    requires !Rejects(env, op)
    requires t.state.calls == s.calls + [call]
    requires LogsFor(env.backend(s.calls + [call]).rc, Logs(s.effects), Logs(t.state.effects), t.error)
    requires multiset(Frees(t.state.effects)) ==
      multiset(Frees(s.effects)) + HandedOut(call, |s.calls| + 1, env.backend(s.calls + [call]))
    requires NotifiesProperly(env, s, op, t)
    ensures Disciplined(env, s, op, t)
  {
    hide Logs, Notifications, Frees, HandedOut, Rejects, NotifiesProperly, LogsFor;
    assert (s.calls + [call])[..|s.calls|] == s.calls;
    assert HandedOutSince(env.backend, s.calls, |s.calls|) == multiset{};
  }

  /** What is left of an operation after its call, in terms of the reply's return code. */
  ghost predicate FinishesProperly(s: ProviderState, rc: TssRc, t: ProviderState, error: Option<Error>) {
    && t.calls == s.calls
    && Frees(t.effects) == Frees(s.effects)
    && LogsFor(rc, Logs(s.effects), Logs(t.effects), error)
  }

  function ErrorOf<T>(r: Run<T>): Option<Error> {
    if r.outcome.Ok? then None else Some(r.outcome.error)
  }

  lemma FailureFinishes<T>(s: ProviderState, operation: string, rc: TssRc)
    requires rc != RC_SUCCESS
    ensures var r: Run<T> := Fail(s, operation, rc);
            r.outcome.Err? && FinishesProperly(s, rc, r.state, ErrorOf(r))
              && Notifications(r.state.effects) == Notifications(s.effects)
  {
    hide Logs, Notifications, Frees, Category;
  }

  lemma CompletionFinishes(env: Env, s: ProviderState, record: LogRecord, m: Measurement)
    requires !record.TssError?
    ensures var t := s.Do(Logged(record));
            && FinishesProperly(s, RC_SUCCESS, t, None) && Notifications(t.effects) == Notifications(s.effects)
            && FinishesProperly(s, RC_SUCCESS, Notify(env, t, m), None)
            && Notifications(Notify(env, t, m).effects) ==
                 if env.observed then Notifications(s.effects) + [m] else Notifications(s.effects)
  {
    hide Logs, Notifications, Frees;
  }

  lemma EventFinishesProperly(env: Env, s: ProviderState, index: Index, data: seq<byte>, reply: Reply)
    ensures var body := EventBody(env, s, index, data, reply);
            && FinishesProperly(s, reply.rc, body.state, ErrorOf(body))
            && Notifications(body.state.effects) ==
                 if env.observed && body.outcome.Ok?
                   then Notifications(s.effects) + [Measurement(index, Evented, body.outcome.value, data)]
                 else Notifications(s.effects)
  {
    hide Logs, Notifications, Frees, Fail, Notify, UnpackedDigests;
    if reply.rc != RC_SUCCESS {
      FailureFinishes<seq<DigestValue>>(s, "pcr_event", reply.rc);
    } else if reply.digests.Some? {
      DecodeFailures(env.legacy, reply.digests.value);
      match UnpackedDigests(env.legacy, reply.digests.value)
      case Err(_) =>
      case Ok(ds) => CompletionFinishes(env, s, EventCompleted(index, |data|, |ds|),
        Measurement(index, Evented, ds, data));
    }
  }

  lemma ReadFinishesProperly(env: Env, s: ProviderState, selection: Selection, reply: Reply)
    ensures var body := ReadBody(env, s, selection, reply);
            && FinishesProperly(s, reply.rc, body.state, ErrorOf(body))
            && Notifications(body.state.effects) == Notifications(s.effects)
  {
    hide Logs, Notifications, Frees, Category, UnpackedSelection, UnpackedValues;
    if reply.selection.Some? && reply.values.Some? {
      SelectionFailures(env.legacy, reply.selection.value, selection.algorithm);
      var actual := UnpackedSelection(env.legacy, reply.selection.value, selection.algorithm);
      if actual.Ok? {
        ValueFailures(reply.values.value, actual.value);
      }
    }
  }

  function InputVerdict(legacy: bool, op: Op): Outcome<()> {
    match op
    case AllocateOp(banks) => BankVerdict(banks)
    case EventOp(_, data) => EventVerdict(data)
    case ExtendOp(_, ds) => DigestVerdict(ds)
    case ReadOp(_) => Ok(())
    case ResetOp(_) => Ok(())
    case SetAuthPolicyOp(_, algorithm, digest) => PolicyVerdict(legacy, algorithm, digest)
    case SetAuthValueOp(_, auth) => AuthVerdict(auth)
  }

  lemma VerdictsReject(env: Env, op: Op)
    requires env.available
    ensures InputVerdict(env.legacy, op).Err? <==> Rejects(env, op)
    ensures InputVerdict(env.legacy, op).Err? ==>
      InputVerdict(env.legacy, op).error.category in {InputError, ResourceError}
  {
    hide BankVerdict, EventVerdict, DigestVerdict, PolicyVerdict, AuthVerdict, Distinct, Algorithms;
    match op
    case AllocateOp(banks) => BankVerdictRejects(banks);
    case EventOp(_, data) => EventVerdictRejects(data);
    case ExtendOp(_, ds) => DigestVerdictRejects(ds);
    case SetAuthPolicyOp(_, algorithm, digest) => PolicyVerdictRejects(env.legacy, algorithm, digest);
    case SetAuthValueOp(_, auth) => AuthVerdictRejects(auth);
    case _ =>
  }

  lemma RejectedStep(env: Env, s: ProviderState, op: Op)
    requires ValidOp(env.legacy, op) && Rejects(env, op)
    ensures var t := Step(env, s, op);
            t.state == s && t.measured.None? && t.error.Some? && t.error.value.category in {InputError, ResourceError}
  {
    hide EventBody, ReadBody, Fail, Notify, PackedSelection, PackedDigests, PackedAllocation, Padded, Rejects,
      BankVerdict, EventVerdict,
      DigestVerdict, PolicyVerdict, AuthVerdict, Logs, Notifications, Frees;
    if env.available {
      VerdictsReject(env, op);
    }
  }

  lemma RejectionIsDisciplined(env: Env, s: ProviderState, op: Op)
    requires ValidOp(env.legacy, op) && Rejects(env, op)
    ensures Disciplined(env, s, op, Step(env, s, op))
  {
    hide Logs, Notifications, Frees, Step, Rejects, CallsProperly, LogsProperly;
    RejectedStep(env, s, op);
    assert HandedOutSince(env.backend, s.calls, |s.calls|) == multiset{};
  }

  lemma AllocateIsDisciplined(env: Env, s: ProviderState, op: Op)
    requires op.AllocateOp? && !Rejects(env, op)
    ensures Disciplined(env, s, op, Step(env, s, op))
  {
    hide Logs, Notifications, Frees, Disciplined, Fail, PackedAllocation, BankVerdict;
    VerdictsReject(env, op);
    var call := PcrAllocate(PackedAllocation(env.legacy, op.banks));
    var s1 := s.Invoke(call);
    var reply := env.backend(s1.calls);
    if reply.rc != RC_SUCCESS {
      FailureFinishes<AllocateResult>(s1, "pcr_allocate", reply.rc);
    } else {
      CompletionFinishes(env, s1, AllocateCompleted(reply.allocation.success, |op.banks|), NO_MEASUREMENT);
    }
    OneCallIsDisciplined(env, s, op, call, Step(env, s, op));
  }

  /** Stands in where a completion is not reported. */
  const NO_MEASUREMENT := Measurement(0, Extended, [], [])

  lemma EventIsBody(env: Env, s: ProviderState, op: Op)
    requires op.EventOp? && !Rejects(env, op)
    ensures var s1 := s.Invoke(PcrEvent(ESYS_TR_PCR0 + op.index,
            SizedEvent(|op.data|, Padded(op.data, EVENT_BUFFER_SIZE))));
            var reply := env.backend(s1.calls);
            var body := EventBody(env, s1, op.index, op.data, reply);
            Step(env, s, op) == Taken(body.state.FreeIf(reply.digests.Some?, DigestsPart), ErrorOf(body),
              if body.outcome.Ok? then Some(Measurement(op.index, Evented, body.outcome.value, op.data)) else None)
  {
    hide EventBody, Padded, Logs, Notifications, Frees, EventVerdict;
    VerdictsReject(env, op);
  }

  /**
    An event's effects after the call: those of its body, and then the release of the digests buffer if there is one.
   */
  lemma EventConcludes(env: Env, s: ProviderState, op: Op, call: Call, body: Run<seq<DigestValue>>, t: Taken)
    requires op.EventOp? && !Rejects(env, op) && call.PcrEvent?
    requires var s1 := s.Invoke(call);
             var reply := env.backend(s1.calls);
             && FinishesProperly(s1, reply.rc, body.state, ErrorOf(body))
             && t.state == body.state.FreeIf(reply.digests.Some?, DigestsPart) && t.error == ErrorOf(body)
    requires NotifiesProperly(env, s, op, t)
    ensures Disciplined(env, s, op, t)
  {
    hide Logs, Notifications, Frees, Disciplined, LogsFor, NotifiesProperly, Rejects;
    var reply := env.backend(s.Invoke(call).calls);
    var released := if reply.digests.Some? then [Buffer(|s.calls| + 1, DigestsPart)] else [];
    assert Frees(t.state.effects) == Frees(s.effects) + released;
    assert multiset(released) == HandedOut(call, |s.calls| + 1, reply);
    OneCallIsDisciplined(env, s, op, call, t);
  }

  lemma EventIsDisciplined(env: Env, s: ProviderState, op: Op)
    requires op.EventOp? && !Rejects(env, op)
    ensures Disciplined(env, s, op, Step(env, s, op))
  {
    hide Logs, Notifications, Frees, Disciplined, EventBody, Padded, EventVerdict, FinishesProperly;
    var call := PcrEvent(ESYS_TR_PCR0 + op.index, SizedEvent(|op.data|, Padded(op.data, EVENT_BUFFER_SIZE)));
    var s1 := s.Invoke(call);
    var reply := env.backend(s1.calls);
    EventFinishesProperly(env, s1, op.index, op.data, reply);
    EventIsBody(env, s, op);
    hide Step, Padded;
    EventConcludes(env, s, op, call, EventBody(env, s1, op.index, op.data, reply), Step(env, s, op));
  }

  lemma ExtendIsDisciplined(env: Env, s: ProviderState, op: Op)
    requires op.ExtendOp? && ValidOp(env.legacy, op) && !Rejects(env, op)
    ensures Disciplined(env, s, op, Step(env, s, op))
  {
    hide Logs, Notifications, Frees, Disciplined, Fail, Notify, PackedDigests, LogsFor, DigestVerdict;
    VerdictsReject(env, op);
    var call := PcrExtend(ESYS_TR_PCR0 + op.index, PackedDigests(env.legacy, op.digests));
    var s1 := s.Invoke(call);
    var reply := env.backend(s1.calls);
    if reply.rc != RC_SUCCESS {
      FailureFinishes<()>(s1, "pcr_extend", reply.rc);
    } else {
      CompletionFinishes(env, s1, ExtendCompleted(op.index, |op.digests|),
        Measurement(op.index, Extended, op.digests, []));
    }
    OneCallIsDisciplined(env, s, op, call, Step(env, s, op));
  }

  lemma ReadIsDisciplined(env: Env, s: ProviderState, op: Op)
    requires op.ReadOp? && !Rejects(env, op)
    ensures Disciplined(env, s, op, Step(env, s, op))
  {
    hide Logs, Notifications, Frees, Disciplined, ReadBody, PackedSelection, LogsFor;
    var call := PcrRead(PackedSelection(env.legacy, op.selection));
    var s1 := s.Invoke(call);
    ReadFinishesProperly(env, s1, op.selection, env.backend(s1.calls));
    OneCallIsDisciplined(env, s, op, call, Step(env, s, op));
  }

  lemma ResetIsDisciplined(env: Env, s: ProviderState, op: Op)
    requires op.ResetOp? && !Rejects(env, op)
    ensures Disciplined(env, s, op, Step(env, s, op))
  {
    hide Logs, Notifications, Frees, Disciplined, Fail, LogsFor;
    var call := PcrReset(ESYS_TR_PCR0 + op.index);
    var s1 := s.Invoke(call);
    if env.backend(s1.calls).rc != RC_SUCCESS {
      FailureFinishes<()>(s1, "pcr_reset", env.backend(s1.calls).rc);
    } else {
      CompletionFinishes(env, s1, ResetCompleted(op.index), NO_MEASUREMENT);
    }
    OneCallIsDisciplined(env, s, op, call, Step(env, s, op));
  }

  lemma SetAuthPolicyIsDisciplined(env: Env, s: ProviderState, op: Op)
    requires op.SetAuthPolicyOp? && !Rejects(env, op)
    ensures Disciplined(env, s, op, Step(env, s, op))
  {
    hide Logs, Notifications, Frees, Disciplined, Fail, Padded, LogsFor, PolicyVerdict;
    VerdictsReject(env, op);
    var call := PcrSetAuthPolicy(SizedDigest(|op.digest|, Padded(op.digest, DIGEST_BUFFER_SIZE)),
      AlgorithmToTpm(env.legacy, op.algorithm), HR_PCR + op.index);
    var s1 := s.Invoke(call);
    if env.backend(s1.calls).rc != RC_SUCCESS {
      FailureFinishes<()>(s1, "pcr_set_auth_policy", env.backend(s1.calls).rc);
    } else {
      CompletionFinishes(env, s1, AuthPolicySet(op.index, op.algorithm), NO_MEASUREMENT);
    }
    OneCallIsDisciplined(env, s, op, call, Step(env, s, op));
  }

  /** One more call that succeeded and handed nothing out, in front of an operation's last calls. */
  lemma EarlierCallIsProper(env: Env, s: ProviderState, first: Call, op: Op, t: Taken)
    requires !first.PcrEvent? && !first.PcrRead?
    requires env.backend(s.calls + [first]).rc == RC_SUCCESS
    requires s.calls + [first] <= t.state.calls && AlmostDisciplined(env, s.Invoke(first), op, t)
      && |t.state.calls| <= |s.calls| + 3
    ensures AlmostDisciplined(env, s, op, t)
  {
    hide Logs, Notifications, Frees, Rejects, CallsProperly, LogsFor, ReleasesProperly;
    EarlierCall(env, s, first, t);
    EarlierRelease(env, s, first, t);
  }

  lemma EarlierCall(env: Env, s: ProviderState, first: Call, t: Taken)
    requires env.backend(s.calls + [first]).rc == RC_SUCCESS
    requires CallsProperly(env, s.Invoke(first), t) && |t.state.calls| <= |s.calls| + 3
    ensures CallsProperly(env, s, t)
  {
    hide Logs, Notifications, Frees;
    assert t.state.calls[..|s.calls| + 1] == s.calls + [first];
  }

  lemma EarlierRelease(env: Env, s: ProviderState, first: Call, t: Taken)
    requires !first.PcrEvent? && !first.PcrRead?
    requires s.calls + [first] <= t.state.calls && ReleasesProperly(env, s.Invoke(first), t)
    ensures ReleasesProperly(env, s, t)
  {
    hide Logs, Notifications, Frees, HandedOutSince;
    QuietCallHandsOutNothing(env.backend, t.state.calls, |s.calls|);
  }

  lemma {:induction false} QuietCallHandsOutNothing(backend: Backend, calls: seq<Call>, k: nat)
    requires k < |calls| && !calls[k].PcrEvent? && !calls[k].PcrRead?
    ensures HandedOutSince(backend, calls, k) == HandedOutSince(backend, calls, k + 1)
  {
    var n := |calls| - 1;
    if k < n {
      QuietCallHandsOutNothing(backend, calls[..n], k);
    } else {
      assert HandedOutSince(backend, calls[..n], k) == multiset{};
    }
  }

  /** The discipline of an accepted operation. */
  ghost predicate AlmostDisciplined(env: Env, s: ProviderState, op: Op, t: Taken) {
    CallsProperly(env, s, t) && LogsProperly(env, s, t) && NotifiesProperly(env, s, op, t)
      && ReleasesProperly(env, s, t)
  }

  /** The result of a quiet last call, in the form that an operation without measurement leaves it. */
  lemma QuietCallIsProper(env: Env, s: ProviderState, call: Call, op: Op, operation: string, record: LogRecord)
    requires !call.PcrEvent? && !call.PcrRead? && !op.EventOp? && !op.ExtendOp? && !record.TssError?
    requires !Rejects(env, op)
    ensures var s1 := s.Invoke(call);
            var rc := env.backend(s1.calls).rc;
            var t := Finished<()>(if rc != RC_SUCCESS then Fail(s1, operation, rc)
              else Run(s1.Do(Logged(record)), Ok(())));
            t.state.calls == s1.calls && AlmostDisciplined(env, s, op, t)
  {
    hide Logs, Notifications, Frees, Fail, LogsFor, Rejects;
    var s1 := s.Invoke(call);
    var rc := env.backend(s1.calls).rc;
    if rc != RC_SUCCESS {
      FailureFinishes<()>(s1, operation, rc);
    } else {
      CompletionFinishes(env, s1, record, NO_MEASUREMENT);
    }
    OneCallIsDisciplined(env, s, op, call,
      Finished<()>(if rc != RC_SUCCESS then Fail(s1, operation, rc) else Run(s1.Do(Logged(record)), Ok(()))));
  }

  lemma SetAuthValueIsDisciplined(env: Env, s: ProviderState, op: Op)
    requires op.SetAuthValueOp? && !Rejects(env, op)
    ensures Disciplined(env, s, op, Step(env, s, op))
  {
    hide Logs, Notifications, Frees, Fail, Padded, AlmostDisciplined, AuthVerdict;
    VerdictsReject(env, op);
    var setAuth := TrSetAuth(ESYS_TR_PCR0 + op.index, EMPTY_SIZED_DIGEST);
    var setValue := PcrSetAuthValue(ESYS_TR_PCR0 + op.index,
      SizedDigest(|op.auth|, Padded(op.auth, DIGEST_BUFFER_SIZE)));
    var s1 := s.Invoke(setAuth);
    var s2 := s1.Invoke(setValue);
    var record := AuthValueSet(op.index);
    QuietCallIsProper(env, s, setAuth, op, "pcr_set_auth_value_set_current_auth", record);
    if env.backend(s1.calls).rc == RC_SUCCESS {
      QuietCallIsProper(env, s1, setValue, op, "pcr_set_auth_value", record);
      if env.backend(s2.calls).rc == RC_SUCCESS {
        QuietCallIsProper(env, s2, setAuth, op, "pcr_set_auth_value_update_current_auth", record);
        EarlierCallIsProper(env, s1, setValue, op, Step(env, s, op));
      }
      EarlierCallIsProper(env, s, setAuth, op, Step(env, s, op));
    }
    assert Disciplined(env, s, op, Step(env, s, op)) by {
      AlmostIsEnough(env, s, op, Step(env, s, op));
    }
  }

  lemma AlmostIsEnough(env: Env, s: ProviderState, op: Op, t: Taken)
    requires !Rejects(env, op) && AlmostDisciplined(env, s, op, t)
    ensures Disciplined(env, s, op, t)
  {
    hide Rejects, CallsProperly, LogsProperly, NotifiesProperly, ReleasesProperly;
  }

  /** The discipline holds of every operation, in every state, against every backend. */
  lemma OperationDiscipline(env: Env, s: ProviderState, op: Op)
    requires ValidOp(env.legacy, op)
    ensures Disciplined(env, s, op, Step(env, s, op))
  {
    hide Rejects, Disciplined, Step;
    if Rejects(env, op) {
      RejectionIsDisciplined(env, s, op);
    } else {
      match op
      case AllocateOp(_) => AllocateIsDisciplined(env, s, op);
      case EventOp(_, _) => EventIsDisciplined(env, s, op);
      case ExtendOp(_, _) => ExtendIsDisciplined(env, s, op);
      case ReadOp(_) => ReadIsDisciplined(env, s, op);
      case ResetOp(_) => ResetIsDisciplined(env, s, op);
      case SetAuthPolicyOp(_, _, _) => SetAuthPolicyIsDisciplined(env, s, op);
      case SetAuthValueOp(_, _) => SetAuthValueIsDisciplined(env, s, op);
    }
  }

  // Whole runs.

  predicate ValidOps(legacy: bool, ops: seq<Op>) {
    forall k :: 0 <= k < |ops| ==> ValidOp(legacy, ops[k])
  }

  /** The state after a run of operations from the start. */
  function AfterRun(env: Env, ops: seq<Op>): ProviderState
    requires ValidOps(env.legacy, ops)
  {
    if ops == [] then START
    else var n := |ops| - 1; Step(env, AfterRun(env, ops[..n]), ops[n]).state
  }

  /** What the last operation of a run did. */
  function LastStep(env: Env, ops: seq<Op>): Taken
    requires ValidOps(env.legacy, ops) && ops != []
  {
    var n := |ops| - 1; Step(env, AfterRun(env, ops[..n]), ops[n])
  }

  /** The measurements of the successful operations of a run, in order. */
  function Measured(env: Env, ops: seq<Op>): seq<Measurement>
    requires ValidOps(env.legacy, ops)
  {
    if ops == [] then []
    else
      Measured(env, ops[..|ops| - 1]) + if LastStep(env, ops).measured.Some? then [LastStep(env, ops).measured.value]
        else []
  }

  function Successes(env: Env, ops: seq<Op>): nat
    requires ValidOps(env.legacy, ops)
  {
    if ops == [] then 0
    else Successes(env, ops[..|ops| - 1]) + if LastStep(env, ops).error.None? then 1 else 0
  }

  /** The nonzero return codes of a history of calls. */
  function FailedCodes(backend: Backend, calls: seq<Call>): seq<TssRc> {
    if calls == [] then []
    else FailedCodes(backend, calls[..|calls| - 1]) + if backend(calls).rc != RC_SUCCESS then [backend(calls).rc]
      else []
  }

  function ErrorCodes(log: seq<LogRecord>): seq<TssRc> {
    if log == [] then []
    else
      var n := |log| - 1;
      ErrorCodes(log[..n]) + if log[n].TssError? then [log[n].rc] else []
  }

  function Completions(log: seq<LogRecord>): nat {
    if log == [] then 0
    else
      var n := |log| - 1;
      Completions(log[..n]) + if log[n].TssError? then 0 else 1
  }

  lemma {:induction false} OnlyLastCallFails(backend: Backend, before: seq<Call>, after: seq<Call>)
    requires before <= after && |before| < |after|
    requires forall k :: |before| < k < |after| ==> backend(after[..k]).rc == RC_SUCCESS
    ensures FailedCodes(backend, after) ==
      FailedCodes(backend, before) + if backend(after).rc != RC_SUCCESS then [backend(after).rc] else []
  {
    var shorter := after[..|after| - 1];
    if |before| == |shorter| {
      assert shorter == before;
    } else {
      assert forall k :: |before| < k < |shorter| ==> shorter[..k] == after[..k];
      OnlyLastCallFails(backend, before, shorter);
    }
  }

  lemma HandedOutOnce(call: Call, n: nat, reply: Reply, b: Buffer)
    ensures HandedOut(call, n, reply)[b] <= 1
    ensures b in HandedOut(call, n, reply) ==> b.call == n
  {
  }

  /** Buffers are named by the call that hands them out, so none is handed out twice. */
  lemma {:induction false} NoBufferIsHandedOutTwice(backend: Backend, calls: seq<Call>, b: Buffer)
    ensures AllHandedOut(backend, calls)[b] <= 1
    ensures b in AllHandedOut(backend, calls) ==> 1 <= b.call <= |calls|
  {
    if calls != [] {
      hide HandedOut;
      NoBufferIsHandedOutTwice(backend, calls[..|calls| - 1], b);
      HandedOutOnce(calls[|calls| - 1], |calls|, backend(calls), b);
    }
  }

  /** The books of a run: buffers, observer log, completion records and error records. */
  ghost predicate Balanced(env: Env, s: ProviderState, measured: seq<Measurement>, successes: nat) {
    && multiset(Frees(s.effects)) == AllHandedOut(env.backend, s.calls)
    && Notifications(s.effects) == (if env.observed then measured else [])
    && Completions(Logs(s.effects)) == successes
    && ErrorCodes(Logs(s.effects)) == FailedCodes(env.backend, s.calls)
  }

  lemma StepKeepsBalance(env: Env, s: ProviderState, op: Op, measured: seq<Measurement>, successes: nat)
    requires ValidOp(env.legacy, op) && Balanced(env, s, measured, successes)
    ensures var t := Step(env, s, op);
            Balanced(env, t.state, measured + (if t.measured.Some? then [t.measured.value] else []),
              successes + if t.error.None? then 1 else 0)
  {
    hide Rejects, Step, Logs, Notifications, Frees, HandedOutSince, ValidOp, Category, TranslatedError, AllHandedOut,
      FailedCodes, Completions, ErrorCodes;
    var t := Step(env, s, op);
    OperationDiscipline(env, s, op);
    if !Rejects(env, op) {
      HandedOutSplits(env.backend, s.calls, t.state.calls);
      OnlyLastCallFails(env.backend, s.calls, t.state.calls);
      LogGrows(Logs(s.effects), Logs(t.state.effects));
    }
  }

  /**
    Over every run against every backend: the buffers released are exactly the buffers handed out; the observer's log
    is the list of successful measurements; there is one completion record per success and one error record per failed
    backend call, in call order.
   */
  lemma {:induction false} RunDiscipline(env: Env, ops: seq<Op>)
    requires ValidOps(env.legacy, ops)
    ensures Balanced(env, AfterRun(env, ops), Measured(env, ops), Successes(env, ops))
  {
    if ops != [] {
      hide Balanced, Step, ValidOp;
      var n := |ops| - 1;
      RunDiscipline(env, ops[..n]);
      StepKeepsBalance(env, AfterRun(env, ops[..n]), ops[n], Measured(env, ops[..n]), Successes(env, ops[..n]));
    }
  }

  lemma LogGrows(before: seq<LogRecord>, after: seq<LogRecord>)
    requires before <= after && |after| <= |before| + 1
    ensures |after| == |before| ==> after == before
    ensures |after| == |before| + 1 ==>
      Completions(after) == Completions(before) + if after[|before|].TssError? then 0 else 1
    ensures |after| == |before| + 1 ==>
      ErrorCodes(after) == ErrorCodes(before) + if after[|before|].TssError? then [after[|before|].rc] else []
  {
    if |after| == |before| + 1 {
      assert after[..|before|] == before;
    }
  }

  lemma NothingIsReleasedTwice(env: Env, ops: seq<Op>, b: Buffer)
    requires ValidOps(env.legacy, ops)
    ensures multiset(Frees(AfterRun(env, ops).effects))[b] <= 1
  {
    RunDiscipline(env, ops);
    NoBufferIsHandedOutTwice(env.backend, AfterRun(env, ops).calls, b);
  }
}
