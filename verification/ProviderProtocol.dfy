/**
  The operations of the provider as a table: the calls that each one sends, the name under which each call is reported
  when it is refused, what a reply must look like to be understood, and the record of a completion. One interpreter of
  the table then says what every operation leaves behind, effect by effect and in order.
 */
module ProviderProtocol {
  import opened Common
  import opened ErrorTranslation
  import opened PcrTypes
  import opened TpmStructures
  import opened PcrMarshalling
  import opened PcrBitmap
  import opened PcrValidation
  import opened InMemoryPcrObserver
  import opened EsysPcrProvider
  import opened ProviderDiscipline

  /** A call that an operation sends, and the name of its failure. */
  datatype Stage = Stage(name: string, call: Call)

  /** The calls of an accepted operation, each of which is made only if those before it succeeded. */
  function StagesOf(env: Env, op: Op): seq<Stage>
    requires ValidOp(env.legacy, op) && !Rejects(env, op)
  {
    match op
    case AllocateOp(banks) => [Stage("pcr_allocate", PcrAllocate(PackedAllocation(env.legacy, banks)))]
    case EventOp(index, data) =>
      [Stage("pcr_event", PcrEvent(index, SizedEvent(|data|, Padded(data, EVENT_BUFFER_SIZE))))]
    case ExtendOp(index, ds) => [Stage("pcr_extend", PcrExtend(index, PackedDigests(env.legacy, ds)))]
    case ReadOp(selection) => [Stage("pcr_read", PcrRead(PackedSelection(env.legacy, selection)))]
    case ResetOp(index) => [Stage("pcr_reset", PcrReset(index))]
    case SetAuthPolicyOp(index, algorithm, digest) =>
      [Stage("pcr_set_auth_policy", PcrSetAuthPolicy(SizedDigest(|digest|, Padded(digest, DIGEST_BUFFER_SIZE)),
        AlgorithmToTpm(env.legacy, algorithm), index))]
    case SetAuthValueOp(index, _) =>
      [Stage("pcr_set_auth_value_set_current_auth", TrSetAuth(index, EMPTY_SIZED_DIGEST)),
       Stage("pcr_set_auth_value", PcrSetAuthValue(index, EMPTY_SIZED_DIGEST)),
       Stage("pcr_set_auth_value_update_current_auth", TrSetAuth(index, EMPTY_SIZED_DIGEST))]
  }

  function CallsOf(stages: seq<Stage>): (calls: seq<Call>)
    ensures |calls| == |stages|
    ensures forall k :: 0 <= k < |stages| ==> calls[k] == stages[k].call
  {
    seq(|stages|, k requires 0 <= k < |stages| => stages[k].call)
  }

  /** What is wrong with the list of an event's digests, if anything. */
  ghost function EventComplaint(legacy: bool, reply: Reply): Option<string> {
    if reply.digests.None? then Some("TPM returned no PCR event digests")
    else
      var list := reply.digests.value;
      if list.count > NUM_PCR_BANKS then Some("TPM returned too many PCR event digests")
      else if exists k :: 0 <= k < list.count && Undecodable(legacy, list.digests[k]) then Some(UNSUPPORTED)
      else None
  }

  /** What is wrong with the selection of a read's reply: no entry is fine, and of several none is looked at. */
  function SelectionComplaint(legacy: bool, list: PcrSelectionList): Option<string> {
    var s := list.pcrSelections[0];
    if list.count == 0 then None
    else if list.count > 1 then Some("TPM returned multiple PCR selections")
    else if s.hash == ALG_SHA1 && !legacy then Some("TPM returned disabled legacy SHA-1 PCR bank")
    else if s.hash !in {ALG_SHA1, ALG_SHA256, ALG_SHA384, ALG_SHA512}
      then Some("TPM returned unsupported PCR hash algorithm")
    else if s.sizeofSelect > PCR_SELECT_MAX then Some("TPM returned malformed PCR selection size")
    else None
  }

  /** What a selection that is not complained about selects: of no entry, nothing. */
  function SelectedBy(list: PcrSelectionList): set<Index> {
    if list.count == 0 then {} else SelectedIn(list.pcrSelections[0].pcrSelect, list.pcrSelections[0].sizeofSelect)
  }

  /** The bank that it is about; no entry leaves the bank of the request. */
  function BankOf(list: PcrSelectionList, requested: HashAlgorithm): HashAlgorithm {
    var id := list.pcrSelections[0].hash;
    if list.count == 0 then requested
    else if id == ALG_SHA1 then Sha1
    else if id == ALG_SHA256 then Sha256
    else if id == ALG_SHA384 then Sha384
    else Sha512
  }

  predicate HasSize(d: SizedDigest, size: nat) { d.size == size }

  function ValuesComplaint(list: DigestList, expected: nat, size: nat): Option<string> {
    if list.count > DIGEST_LIST_CAPACITY then Some("TPM returned too many PCR read digests")
    else if list.count != expected then Some("TPM returned PCR digest count mismatch")
    else if forall k :: 0 <= k < list.count ==> HasSize(list.digests[k], size) then None
    else Some("TPM returned PCR digest with unexpected size")
  }

  function ReadComplaint(legacy: bool, requested: HashAlgorithm, reply: Reply): Option<string> {
    if reply.selection.None? || reply.values.None? then Some("TPM returned incomplete PCR read response")
    else
      var list := reply.selection.value;
      var complaint := SelectionComplaint(legacy, list);
      if complaint.Some? then complaint
      else ValuesComplaint(reply.values.value, |SelectedBy(list)|, DigestSize(BankOf(list, requested)))
  }

  /** Why a reply with code zero is not understood, if it is not: only events and reads look into theirs. */
  ghost function ComplaintAbout(env: Env, op: Op, reply: Reply): Option<string> {
    match op
    case EventOp(_, _) => EventComplaint(env.legacy, reply)
    case ReadOp(selection) => ReadComplaint(env.legacy, selection.algorithm, reply)
    case _ => None
  }

  /** How many digests of an event are for banks that are enabled here. */
  function KeptCount(legacy: bool, list: DigestValueList): nat
    requires list.count <= NUM_PCR_BANKS
  {
    |KeptPositions(legacy, list.digests[..list.count])|
  }

  /** The record of an operation whose last reply was understood. */
  ghost function CompletionOf(env: Env, op: Op, reply: Reply): LogRecord
    requires ComplaintAbout(env, op, reply).None?
  {
    match op
    case AllocateOp(banks) => AllocateCompleted(reply.allocation.success, |banks|)
    case EventOp(index, data) => EventCompleted(index, |data|, KeptCount(env.legacy, reply.digests.value))
    case ExtendOp(index, ds) => ExtendCompleted(index, |ds|)
    case ReadOp(selection) =>
      ReadCompleted(BankOf(reply.selection.value, selection.algorithm), |SelectedBy(reply.selection.value)|)
    case ResetOp(index) => ResetCompleted(index)
    case SetAuthPolicyOp(index, algorithm, _) => AuthPolicySet(index, algorithm)
    case SetAuthValueOp(index, _) => AuthValueSet(index)
  }

  /** The error and the record of an operation, given the name of its last call and the reply to it. */
  ghost function ErrorFor(env: Env, op: Op, reply: Reply): Option<Error> {
    if reply.rc != RC_SUCCESS then Some(TranslatedError(reply.rc))
    else match ComplaintAbout(env, op, reply)
      case Some(message) => Some(Error(BackendError, message))
      case None => None
  }

  ghost function RecordsFor(env: Env, op: Op, name: string, reply: Reply): seq<Effect> {
    if reply.rc != RC_SUCCESS then [Logged(TssError(name, reply.rc, Category(reply.rc)))]
    else if ComplaintAbout(env, op, reply).Some? then []
    else [Logged(CompletionOf(env, op, reply))]
  }

  function NoticeFor(env: Env, measured: Option<Measurement>): seq<Effect> {
    if env.observed && measured.Some? then [Notified(measured.value)] else []
  }

  /** The buffers of a reply in the order in which they are given back. */
  function ReleasesFor(op: Op, n: nat, reply: Reply): seq<Effect> {
    if op.EventOp? then if reply.digests.Some? then [Freed(Buffer(n, DigestsPart))] else []
    else if op.ReadOp? then
      (if reply.values.Some? then [Freed(Buffer(n, ValuesPart))] else [])
      + if reply.selection.Some? then [Freed(Buffer(n, SelectionPart))] else []
    else []
  }

  /** What the interpreter of the table makes of an operation: it gets as far as its m-th call. */
  ghost predicate FollowsTable(env: Env, s: ProviderState, op: Op, t: Taken)
    requires ValidOp(env.legacy, op) && !Rejects(env, op)
  {
    var stages := StagesOf(env, op);
    var m := |t.state.calls| - |s.calls|;
    1 <= m <= |stages| && FollowsStages(env, s, op, t, stages, m)
  }

  ghost predicate FollowsStages(env: Env, s: ProviderState, op: Op, t: Taken, stages: seq<Stage>, m: nat)
    requires 1 <= m <= |stages|
  {
    var calls := s.calls + CallsOf(stages[..m]);
    var reply := env.backend(calls);
    && t.state.calls == calls
    && (forall k :: |s.calls| < k < |calls| ==> env.backend(calls[..k]).rc == RC_SUCCESS)
    && (m == |stages| || reply.rc != RC_SUCCESS)
    && t.error == ErrorFor(env, op, reply)
    && t.state.effects == s.effects + RecordsFor(env, op, stages[m - 1].name, reply) + NoticeFor(env, t.measured)
         + ReleasesFor(op, |calls|, reply)
  }

  // The seven operations against the table.

  /** An operation whose table has one row. */
  lemma OneCallFollowsTable(env: Env, s: ProviderState, op: Op, stage: Stage, t: Taken)
    requires ValidOp(env.legacy, op) && !Rejects(env, op) && StagesOf(env, op) == [stage]
    requires t.state.calls == s.calls + [stage.call]
    requires var reply := env.backend(s.calls + [stage.call]);
             && t.error == ErrorFor(env, op, reply)
             && t.state.effects == s.effects + RecordsFor(env, op, stage.name, reply) + NoticeFor(env, t.measured)
                  + ReleasesFor(op, |s.calls| + 1, reply)
    ensures FollowsTable(env, s, op, t)
  {
    hide StagesOf, Rejects, ErrorFor, RecordsFor, NoticeFor, ReleasesFor;
    assert CallsOf([stage][..1]) == [stage.call];
  }

  /** Effects that are not there need not be written down. */
  lemma NothingAdded(effects: seq<Effect>, record: seq<Effect>)
    ensures effects + record + [] + [] == effects + record
    ensures effects + record + [] == effects + record
    ensures effects + [] == effects
  {
  }

  lemma AllocateFollowsTable(env: Env, s: ProviderState, op: Op)
    requires op.AllocateOp? && !Rejects(env, op)
    ensures FollowsTable(env, s, op, Step(env, s, op))
  {
    hide Logs, Notifications, Frees, PackedAllocation, BankVerdict, Category, TranslatedError;
    VerdictsReject(env, op);
    var t := Step(env, s, op);
    var stage := StagesOf(env, op)[0];
    var reply := env.backend(s.calls + [stage.call]);
    NothingAdded(s.effects, RecordsFor(env, op, stage.name, reply));
    OneCallFollowsTable(env, s, op, stage, t);
  }

  lemma ExtendFollowsTable(env: Env, s: ProviderState, op: Op)
    requires op.ExtendOp? && ValidOp(env.legacy, op) && !Rejects(env, op)
    ensures FollowsTable(env, s, op, Step(env, s, op))
  {
    hide Logs, Notifications, Frees, PackedDigests, DigestVerdict, Category, TranslatedError;
    VerdictsReject(env, op);
    var t := Step(env, s, op);
    var stage := StagesOf(env, op)[0];
    var reply := env.backend(s.calls + [stage.call]);
    NothingAdded(s.effects, RecordsFor(env, op, stage.name, reply));
    NothingAdded(s.effects + RecordsFor(env, op, stage.name, reply), NoticeFor(env, t.measured));
    OneCallFollowsTable(env, s, op, stage, t);
  }

  lemma ResetFollowsTable(env: Env, s: ProviderState, op: Op)
    requires op.ResetOp? && !Rejects(env, op)
    ensures FollowsTable(env, s, op, Step(env, s, op))
  {
    hide Logs, Notifications, Frees, Category, TranslatedError;
    var t := Step(env, s, op);
    var stage := StagesOf(env, op)[0];
    var reply := env.backend(s.calls + [stage.call]);
    NothingAdded(s.effects, RecordsFor(env, op, stage.name, reply));
    OneCallFollowsTable(env, s, op, stage, t);
  }

  lemma SetAuthPolicyFollowsTable(env: Env, s: ProviderState, op: Op)
    requires op.SetAuthPolicyOp? && !Rejects(env, op)
    ensures FollowsTable(env, s, op, Step(env, s, op))
  {
    hide Logs, Notifications, Frees, Padded, PolicyVerdict, Category, TranslatedError;
    VerdictsReject(env, op);
    var t := Step(env, s, op);
    var stage := StagesOf(env, op)[0];
    var reply := env.backend(s.calls + [stage.call]);
    NothingAdded(s.effects, RecordsFor(env, op, stage.name, reply));
    OneCallFollowsTable(env, s, op, stage, t);
  }

  /** The decoding of an event's digests fails exactly for the reasons that the table names. */
  lemma EventIsUnderstood(legacy: bool, reply: Reply)
    requires reply.digests.Some?
    ensures var decoded := UnpackedDigests(legacy, reply.digests.value);
            match EventComplaint(legacy, reply)
            case Some(message) => decoded == Err(Error(BackendError, message))
            case None => decoded.Ok? && |decoded.value| == KeptCount(legacy, reply.digests.value)
  {
    hide DecodedDigests, Undecodable, KeptPositions, AreKept;
    var list := reply.digests.value;
    if list.count <= NUM_PCR_BANKS {
      var entries := list.digests[..list.count];
      DigestFilterLaw(legacy, entries);
      if k :| 0 <= k < list.count && Undecodable(legacy, list.digests[k]) {
        assert Undecodable(legacy, entries[k]);
      }
      if k :| 0 <= k < |entries| && Undecodable(legacy, entries[k]) {
        assert Undecodable(legacy, list.digests[k]);
      }
    }
  }

  lemma EventBodyFollows(env: Env, s: ProviderState, op: Op, reply: Reply)
    requires op.EventOp?
    ensures var body := EventBody(env, s, op.index, op.data, reply);
            var measured := if body.outcome.Ok? then Some(Measurement(op.index, Evented, body.outcome.value, op.data))
              else None;
            && body.state.calls == s.calls
            && ErrorOf(body) == ErrorFor(env, op, reply)
            && body.state.effects == s.effects + RecordsFor(env, op, "pcr_event", reply) + NoticeFor(env, measured)
  {
    hide Logs, Notifications, Frees, Category, TranslatedError, UnpackedDigests, EventComplaint, KeptCount;
    if reply.digests.Some? {
      EventIsUnderstood(env.legacy, reply);
    } else {
      NothingIsComplainedAbout(env.legacy, reply);
    }
    NothingAdded(s.effects, RecordsFor(env, op, "pcr_event", reply));
  }

  lemma EventFollowsTable(env: Env, s: ProviderState, op: Op)
    requires op.EventOp? && !Rejects(env, op)
    ensures FollowsTable(env, s, op, Step(env, s, op))
  {
    hide Logs, Notifications, Frees, Padded, EventVerdict, EventBody, ErrorFor, RecordsFor, NoticeFor;
    EventIsBody(env, s, op);
    var t := Step(env, s, op);
    hide Step;
    var stage := StagesOf(env, op)[0];
    var reply := env.backend(s.calls + [stage.call]);
    EventBodyFollows(env, s.Invoke(stage.call), op, reply);
    NothingAdded(s.effects + RecordsFor(env, op, stage.name, reply), NoticeFor(env, t.measured));
    OneCallFollowsTable(env, s, op, stage, t);
  }

  lemma NothingIsComplainedAbout(legacy: bool, reply: Reply)
    requires reply.digests.None?
    ensures EventComplaint(legacy, reply) == Some("TPM returned no PCR event digests")
  {
  }

  /** The decoding of a read's reply fails exactly for the reasons that the table names, the first of them first. */
  lemma SelectionIsUnderstood(legacy: bool, list: PcrSelectionList, requested: HashAlgorithm)
    ensures UnpackedSelection(legacy, list, requested) ==
              match SelectionComplaint(legacy, list)
              case Some(message) => Err(Error(BackendError, message))
              case None => Ok(Selection(BankOf(list, requested), SelectedBy(list)))
  {
  }

  lemma ValuesAreUnderstood(list: DigestList, selection: Selection)
    ensures var decoded := UnpackedValues(list, selection);
            match ValuesComplaint(list, |selection.indices|, DigestSize(selection.algorithm))
            case Some(message) => decoded == Err(Error(BackendError, message))
            case None => decoded.Ok? && |decoded.value| == |selection.indices|
  {
    hide DigestSize, ValueAt;
    forall k | 0 <= k < list.count <= DIGEST_LIST_CAPACITY
      ensures ReadValueFits(selection.algorithm, list.digests[k]) <==>
        HasSize(list.digests[k], DigestSize(selection.algorithm)) {}
  }

  lemma ReadBodyFollows(env: Env, s: ProviderState, op: Op, reply: Reply)
    requires op.ReadOp?
    ensures var body := ReadBody(env, s, op.selection, reply);
            && body.state.calls == s.calls
            && ErrorOf(body) == ErrorFor(env, op, reply)
            && body.state.effects == s.effects + RecordsFor(env, op, "pcr_read", reply)
  {
    hide Logs, Notifications, Frees, Category, TranslatedError, UnpackedSelection, UnpackedValues, SelectionComplaint,
      ValuesComplaint, SelectedBy, BankOf, DigestSize;
    if reply.selection.Some? && reply.values.Some? {
      SelectionIsUnderstood(env.legacy, reply.selection.value, op.selection.algorithm);
      ValuesAreUnderstood(reply.values.value,
        Selection(BankOf(reply.selection.value, op.selection.algorithm), SelectedBy(reply.selection.value)));
    }
  }

  lemma ReadFollowsTable(env: Env, s: ProviderState, op: Op)
    requires op.ReadOp? && !Rejects(env, op)
    ensures FollowsTable(env, s, op, Step(env, s, op))
  {
    hide Logs, Notifications, Frees, ReadBody, PackedSelection, ErrorFor, RecordsFor;
    var t := Step(env, s, op);
    var stage := StagesOf(env, op)[0];
    var reply := env.backend(s.calls + [stage.call]);
    ReadBodyFollows(env, s.Invoke(stage.call), op, reply);
    NothingAdded(s.effects, RecordsFor(env, op, stage.name, reply));
    OneCallFollowsTable(env, s, op, stage, t);
  }

  /** The last call that an operation without measurement made, against the rows so far. */
  lemma LastCallFollowsStages(env: Env, s: ProviderState, op: Op, t: Taken, stages: seq<Stage>, m: nat)
    requires 1 <= m <= |stages| && op.SetAuthValueOp? && t.measured.None?
    requires var calls := s.calls + CallsOf(stages[..m]);
             var rc := env.backend(calls).rc;
             && (m == |stages| || rc != RC_SUCCESS)
             && (forall k :: |s.calls| < k < |calls| ==> env.backend(calls[..k]).rc == RC_SUCCESS)
             && t.state.calls == calls
             && (if rc != RC_SUCCESS
                 then t.state.effects == s.effects + [Logged(TssError(stages[m - 1].name, rc, Category(rc)))]
                   && t.error == Some(TranslatedError(rc))
                 else t.state.effects == s.effects + [Logged(AuthValueSet(op.index))] && t.error.None?)
    ensures FollowsStages(env, s, op, t, stages, m)
  {
    hide Category, TranslatedError;
    NothingAdded(s.effects, RecordsFor(env, op, stages[m - 1].name, env.backend(t.state.calls)));
  }

  lemma ThreeStages(s: ProviderState, stages: seq<Stage>)
    requires |stages| == 3
    ensures var s1 := s.Invoke(stages[0].call);
            var s2 := s1.Invoke(stages[1].call);
            var s3 := s2.Invoke(stages[2].call);
            && s1.calls == s.calls + CallsOf(stages[..1])
            && s2.calls == s.calls + CallsOf(stages[..2]) && s2.calls[..|s.calls| + 1] == s1.calls
            && s3.calls == s.calls + CallsOf(stages[..3]) && s3.calls[..|s.calls| + 1] == s1.calls
            && s3.calls[..|s.calls| + 2] == s2.calls
  {
  }

  /** The operation of three calls, spelled out from its rows. */
  lemma SetAuthValueSteps(env: Env, s: ProviderState, op: Op)
    requires op.SetAuthValueOp? && !Rejects(env, op)
    ensures var stages := StagesOf(env, op);
            var s1 := s.Invoke(stages[0].call);
            var s2 := s1.Invoke(stages[1].call);
            var s3 := s2.Invoke(stages[2].call);
            var last := if env.backend(s1.calls).rc != RC_SUCCESS then s1
              else if env.backend(s2.calls).rc != RC_SUCCESS then s2 else s3;
            var rc := env.backend(last.calls).rc;
            var name := stages[|last.calls| - |s.calls| - 1].name;
            var t := Step(env, s, op);
            && t.state.calls == last.calls && t.measured.None?
            && (if rc != RC_SUCCESS
                then t.state.effects == s.effects + [Logged(TssError(name, rc, Category(rc)))]
                  && t.error == Some(TranslatedError(rc))
                else t.state.effects == s.effects + [Logged(AuthValueSet(op.index))] && t.error.None?)
  {
    hide Logs, Notifications, Frees, Category, TranslatedError, AuthVerdict;
    VerdictsReject(env, op);
    assert Padded(op.auth, DIGEST_BUFFER_SIZE) == Zeros(DIGEST_BUFFER_SIZE);
  }

  lemma SetAuthValueFollowsTable(env: Env, s: ProviderState, op: Op)
    requires op.SetAuthValueOp? && !Rejects(env, op)
    ensures FollowsTable(env, s, op, Step(env, s, op))
  {
    hide Logs, Notifications, Frees, Category, TranslatedError, Step, CallsOf, FollowsStages, Padded, Rejects;
    var t := Step(env, s, op);
    var stages := StagesOf(env, op);
    ThreeStages(s, stages);
    SetAuthValueSteps(env, s, op);
    LastCallFollowsStages(env, s, op, t, stages, |t.state.calls| - |s.calls|);
  }

  /**
    Every accepted operation, in every state and against every backend: it makes the calls of its table until one is
    refused; a refusal is recorded under that call's name and returned as its translation, a reply that is not
    understood is complained about and not recorded, and anything else is recorded as the completion that the reply
    calls for. The record comes first, then the notice to the observer, then the releases, values before selection.
   */
  lemma OperationsFollowTable(env: Env, s: ProviderState, op: Op)
    requires ValidOp(env.legacy, op) && !Rejects(env, op)
    ensures FollowsTable(env, s, op, Step(env, s, op))
  {
    hide Rejects, Step, StagesOf, ErrorFor, RecordsFor, NoticeFor, ReleasesFor;
    match op
    case AllocateOp(_) => AllocateFollowsTable(env, s, op);
    case EventOp(_, _) => EventFollowsTable(env, s, op);
    case ExtendOp(_, _) => ExtendFollowsTable(env, s, op);
    case ReadOp(_) => ReadFollowsTable(env, s, op);
    case ResetOp(_) => ResetFollowsTable(env, s, op);
    case SetAuthPolicyOp(_, _, _) => SetAuthPolicyFollowsTable(env, s, op);
    case SetAuthValueOp(_, _) => SetAuthValueFollowsTable(env, s, op);
  }

  // Input that is turned down.

  function TooMany(n: nat, distinct: bool, empty: string, tooMany: string, duplicate: string): Option<string> {
    if n == 0 then Some(empty)
    else if n > 16 then Some(tooMany)
    else if !distinct then Some(duplicate)
    else None
  }

  /** The error with which input is turned down, if it is: a missing context first, a list's length before repeats. */
  function RejectionOf(env: Env, op: Op): Option<Error> {
    if !env.available then Some(Error(ResourceError, "ESYS PCR provider has no TPM context"))
    else
      match op
      case AllocateOp(banks) => AsInputError(TooMany(|banks|, Distinct(banks),
        "PCR allocate requires at least one bank", "too many PCR banks", "duplicate PCR bank"))
      case EventOp(_, data) => AsInputError(if |data| > 1024 then Some("PCR event data is too large") else None)
      case ExtendOp(_, ds) => AsInputError(TooMany(|ds|, Distinct(Algorithms(ds)),
        "PCR extend requires at least one digest", "too many PCR digests", "duplicate PCR digest algorithm"))
      case SetAuthPolicyOp(_, algorithm, digest) => AsInputError(
        if !Enabled(env.legacy, algorithm) then Some("unsupported PCR auth policy hash algorithm")
        else if |digest| != DigestSize(algorithm) then Some("PCR auth policy digest has wrong size")
        else None)
      case SetAuthValueOp(_, auth) =>
        if |auth| > 64 then Some(Error(InputError, "PCR auth value is too large"))
        else if |auth| > 0 then Some(Error(ResourceError,
          "secure PCR auth value transport is unavailable for non-empty authorization values"))
        else None
      case _ => None
  }

  function AsInputError(message: Option<string>): Option<Error> {
    if message.None? then None else Some(Error(InputError, message.value))
  }

  lemma CountsAreNamed(algorithms: seq<HashAlgorithm>, empty: string, tooMany: string, duplicate: string)
    ensures CountVerdict(algorithms, empty, tooMany, duplicate) ==
              match TooMany(|algorithms|, Distinct(algorithms), empty, tooMany, duplicate)
              case Some(message) => Rejected(message)
              case None => Ok(())
  {
    hide Distinct;
  }

  lemma ListVerdictsAreNamed(env: Env, op: Op)
    requires env.available && (op.AllocateOp? || op.ExtendOp?)
    ensures var verdict := InputVerdict(env.legacy, op);
            RejectionOf(env, op) == if verdict.Err? then Some(verdict.error) else None
  {
    hide Distinct, CountVerdict, TooMany;
    if op.AllocateOp? {
      CountsAreNamed(op.banks, "PCR allocate requires at least one bank", "too many PCR banks", "duplicate PCR bank");
    } else {
      CountsAreNamed(Algorithms(op.digests), "PCR extend requires at least one digest", "too many PCR digests",
        "duplicate PCR digest algorithm");
    }
  }

  lemma SizeVerdictsAreNamed(env: Env, op: Op)
    requires env.available && (op.EventOp? || op.SetAuthPolicyOp?)
    ensures var verdict := InputVerdict(env.legacy, op);
            RejectionOf(env, op) == if verdict.Err? then Some(verdict.error) else None
  {
    hide DigestSize, TooMany, BankVerdict, DigestVerdict, AuthVerdict;
  }

  lemma AuthVerdictIsNamed(env: Env, op: Op)
    requires env.available && op.SetAuthValueOp?
    ensures var verdict := InputVerdict(env.legacy, op);
            RejectionOf(env, op) == if verdict.Err? then Some(verdict.error) else None
  {
    hide DigestSize, TooMany, BankVerdict, DigestVerdict, PolicyVerdict, EventVerdict;
  }

  lemma VerdictsAreNamed(env: Env, op: Op)
    requires env.available
    ensures var verdict := InputVerdict(env.legacy, op);
            RejectionOf(env, op) == if verdict.Err? then Some(verdict.error) else None
  {
    if op.AllocateOp? || op.ExtendOp? {
      hide RejectionOf, InputVerdict;
      ListVerdictsAreNamed(env, op);
    } else if op.SetAuthValueOp? {
      hide RejectionOf, InputVerdict;
      AuthVerdictIsNamed(env, op);
    } else if !op.ReadOp? && !op.ResetOp? {
      hide RejectionOf, InputVerdict;
      SizeVerdictsAreNamed(env, op);
    }
  }

  /** Operations on such input, and no others, are turned down with that error before anything else happens. */
  lemma RejectionsAreNamed(env: Env, s: ProviderState, op: Op)
    requires ValidOp(env.legacy, op)
    ensures RejectionOf(env, op).Some? <==> Rejects(env, op)
    ensures RejectionOf(env, op).Some? ==> Step(env, s, op) == Taken(s, RejectionOf(env, op), None)
  {
    hide EventBody, ReadBody, Fail, Notify, PackedSelection, PackedDigests, PackedAllocation, Padded, BankVerdict,
      EventVerdict, DigestVerdict, PolicyVerdict, AuthVerdict, Logs, Notifications, Frees, TooMany, Rejects;
    if env.available {
      VerdictsAreNamed(env, op);
      VerdictsReject(env, op);
    } else {
      NothingIsAvailable(env, op);
    }
  }

  lemma NothingIsAvailable(env: Env, op: Op)
    requires !env.available
    ensures Rejects(env, op)
  {
  }
}
