/**
  The PCR provider over a table of backend calls. A backend is any function from the history of calls made so far to
  the reply of the last one, so replies may depend on everything that happened before. What an operation leaves behind
  is the calls it made and an ordered list of effects: log records, observer notifications and buffer releases.
 */
module EsysPcrProvider {
  import opened Common
  import opened ErrorTranslation
  import opened PcrTypes
  import opened TpmStructures
  import opened PcrMarshalling
  import opened PcrValidation
  import opened InMemoryPcrObserver

  const ESYS_TR_PCR0 := 0
  const HR_PCR := 0

  datatype Call =
    | PcrAllocate(allocation: PcrSelectionList)
    | PcrEvent(handle: nat, event: SizedEvent)
    | PcrExtend(handle: nat, digests: DigestValueList)
    | PcrRead(selection: PcrSelectionList)
    | PcrReset(handle: nat)
    | PcrSetAuthPolicy(policy: SizedDigest, hashAlg: AlgId, pcr: nat)
    | PcrSetAuthValue(handle: nat, auth: SizedDigest)
    | TrSetAuth(handle: nat, auth: SizedDigest)

  /** A return code and every out-parameter of the table; a call sets those that it has. */
  datatype Reply = Reply(
    rc: TssRc,
    digests: Option<DigestValueList>,
    selection: Option<PcrSelectionList>,
    values: Option<DigestList>,
    updateCounter: Uint32,
    allocation: AllocateResult)

  type Backend = seq<Call> -> Reply

  datatype LogRecord =
    | TssError(operation: string, rc: TssRc, category: ErrorCategory)
    | AllocateCompleted(success: bool, bankCount: nat)
    | EventCompleted(index: Index, eventSize: nat, bankCount: nat)
    | ExtendCompleted(index: Index, bankCount: nat)
    | ReadCompleted(bank: HashAlgorithm, pcrCount: nat)
    | ResetCompleted(index: Index)
    | AuthPolicySet(index: Index, algorithm: HashAlgorithm)
    | AuthValueSet(index: Index)

  datatype Part = DigestsPart | SelectionPart | ValuesPart

  /** A buffer that the backend allocated while serving the call with that number. */
  datatype Buffer = Buffer(call: nat, part: Part)

  datatype Effect = Logged(record: LogRecord) | Notified(measurement: Measurement) | Freed(buffer: Buffer)

  function Logs(effects: seq<Effect>): seq<LogRecord> {
    if effects == [] then []
    else var n := |effects| - 1; Logs(effects[..n]) + if effects[n].Logged? then [effects[n].record] else []
  }

  function Notifications(effects: seq<Effect>): seq<Measurement> {
    if effects == [] then []
    else var n := |effects| - 1; Notifications(effects[..n]) + if effects[n].Notified? then [effects[n].measurement]
      else []
  }

  function Frees(effects: seq<Effect>): seq<Buffer> {
    if effects == [] then []
    else var n := |effects| - 1; Frees(effects[..n]) + if effects[n].Freed? then [effects[n].buffer] else []
  }

  lemma LogsAppend(effects: seq<Effect>, effect: Effect)
    ensures Logs(effects + [effect]) == Logs(effects) + if effect.Logged? then [effect.record] else []
  {
    assert (effects + [effect])[..|effects|] == effects;
  }

  lemma NotificationsAppend(effects: seq<Effect>, effect: Effect)
    ensures Notifications(effects + [effect]) ==
      Notifications(effects) + if effect.Notified? then [effect.measurement] else []
  {
    assert (effects + [effect])[..|effects|] == effects;
  }

  lemma FreesAppend(effects: seq<Effect>, effect: Effect)
    ensures Frees(effects + [effect]) == Frees(effects) + if effect.Freed? then [effect.buffer] else []
  {
    assert (effects + [effect])[..|effects|] == effects;
  }

  datatype ProviderState = ProviderState(calls: seq<Call>, effects: seq<Effect>) {
    function Invoke(call: Call): (t: ProviderState)
      ensures t.calls == calls + [call] && t.effects == effects
    {
      this.(calls := calls + [call])
    }

    function Do(effect: Effect): (t: ProviderState)
      ensures t.calls == calls && t.effects == effects + [effect]
      ensures Logs(t.effects) == Logs(effects) + if effect.Logged? then [effect.record] else []
      ensures Notifications(t.effects) == Notifications(effects) + if effect.Notified? then [effect.measurement] else []
      ensures Frees(t.effects) == Frees(effects) + if effect.Freed? then [effect.buffer] else []
    {
      LogsAppend(effects, effect);
      NotificationsAppend(effects, effect);
      FreesAppend(effects, effect);
      this.(effects := effects + [effect])
    }

    function FreeIf(present: bool, part: Part): (t: ProviderState)
      ensures t.calls == calls
      ensures Logs(t.effects) == Logs(effects) && Notifications(t.effects) == Notifications(effects)
      ensures Frees(t.effects) == Frees(effects) + if present then [Buffer(|calls|, part)] else []
    {
      if present then Do(Freed(Buffer(|calls|, part))) else this
    }
  }

  const START := ProviderState([], [])

  /** The build switch, whether an ESYS context and an observer are there, and the backend. */
  datatype Env = Env(legacy: bool, available: bool, observed: bool, backend: Backend)

  datatype Run<T> = Run(state: ProviderState, outcome: Outcome<T>)

  const NO_CONTEXT := Error(ResourceError, "ESYS PCR provider has no TPM context")

  function Fail<T>(s: ProviderState, operation: string, rc: TssRc): (r: Run<T>)
    ensures r.state.calls == s.calls && r.outcome.Err?
  {
    Run(s.Do(Logged(TssError(operation, rc, Category(rc)))), Err(TranslatedError(rc)))
  }

  function Notify(env: Env, s: ProviderState, m: Measurement): ProviderState {
    if env.observed then s.Do(Notified(m)) else s
  }

  function Allocate(env: Env, s: ProviderState, banks: seq<HashAlgorithm>): Run<AllocateResult> {
    if !env.available then Run(s, Err(NO_CONTEXT))
    else if BankVerdict(banks).Err? then Run(s, Err(BankVerdict(banks).error))
    else
      var s1 := s.Invoke(PcrAllocate(PackedAllocation(env.legacy, banks)));
      var reply := env.backend(s1.calls);
      if reply.rc != RC_SUCCESS then Fail(s1, "pcr_allocate", reply.rc)
      else Run(s1.Do(Logged(AllocateCompleted(reply.allocation.success, |banks|))), Ok(reply.allocation))
  }

  function EventBody(env: Env, s: ProviderState, index: Index, data: seq<byte>, reply: Reply): Run<seq<DigestValue>> {
    if reply.rc != RC_SUCCESS then Fail(s, "pcr_event", reply.rc)
    else if reply.digests.None? then Run(s, Malformed("TPM returned no PCR event digests"))
    else match UnpackedDigests(env.legacy, reply.digests.value)
      case Err(e) => Run(s, Err(e))
      case Ok(ds) => Run(Notify(env, s.Do(Logged(EventCompleted(index, |data|, |ds|))),
        Measurement(index, Evented, ds, data)), Ok(ds))
  }

  function Event(env: Env, s: ProviderState, index: Index, data: seq<byte>): Run<seq<DigestValue>> {
    if !env.available then Run(s, Err(NO_CONTEXT))
    else if EventVerdict(data).Err? then Run(s, Err(EventVerdict(data).error))
    else
      var s1 := s.Invoke(PcrEvent(ESYS_TR_PCR0 + index, SizedEvent(|data|, Padded(data, EVENT_BUFFER_SIZE))));
      var reply := env.backend(s1.calls);
      var body := EventBody(env, s1, index, data, reply);
      body.(state := body.state.FreeIf(reply.digests.Some?, DigestsPart))
  }

  function Extend(env: Env, s: ProviderState, index: Index, ds: seq<DigestValue>): Run<()>
    requires ValidDigests(env.legacy, ds)
  {
    if !env.available then Run(s, Err(NO_CONTEXT))
    else if DigestVerdict(ds).Err? then Run(s, Err(DigestVerdict(ds).error))
    else
      var s1 := s.Invoke(PcrExtend(ESYS_TR_PCR0 + index, PackedDigests(env.legacy, ds)));
      var reply := env.backend(s1.calls);
      if reply.rc != RC_SUCCESS then Fail(s1, "pcr_extend", reply.rc)
      else Run(Notify(env, s1.Do(Logged(ExtendCompleted(index, |ds|))), Measurement(index, Extended, ds, [])), Ok(()))
  }

  function ReadBody(env: Env, s: ProviderState, selection: Selection, reply: Reply): Run<ReadResult> {
    if reply.rc != RC_SUCCESS then Fail(s, "pcr_read", reply.rc)
    else if reply.selection.None? || reply.values.None?
      then Run(s, Malformed("TPM returned incomplete PCR read response"))
    else match UnpackedSelection(env.legacy, reply.selection.value, selection.algorithm)
      case Err(e) => Run(s, Err(e))
      case Ok(actual) =>
        match UnpackedValues(reply.values.value, actual)
        case Err(e) => Run(s, Err(e))
        case Ok(values) =>
          Run(s.Do(Logged(ReadCompleted(actual.algorithm, |values|))),
            Ok(ReadResult(actual, reply.updateCounter, values)))
  }

  function Read(env: Env, s: ProviderState, selection: Selection): Run<ReadResult> {
    if !env.available then Run(s, Err(NO_CONTEXT))
    else
      var s1 := s.Invoke(PcrRead(PackedSelection(env.legacy, selection)));
      var reply := env.backend(s1.calls);
      var body := ReadBody(env, s1, selection, reply);
      body.(state := body.state.FreeIf(reply.values.Some?, ValuesPart).FreeIf(reply.selection.Some?, SelectionPart))
  }

  function Reset(env: Env, s: ProviderState, index: Index): Run<()> {
    if !env.available then Run(s, Err(NO_CONTEXT))
    else
      var s1 := s.Invoke(PcrReset(ESYS_TR_PCR0 + index));
      var reply := env.backend(s1.calls);
      if reply.rc != RC_SUCCESS then Fail(s1, "pcr_reset", reply.rc)
      else Run(s1.Do(Logged(ResetCompleted(index))), Ok(()))
  }

  function SetAuthPolicy(env: Env, s: ProviderState, index: Index, algorithm: HashAlgorithm,
      digest: seq<byte>): Run<()> {
    if !env.available then Run(s, Err(NO_CONTEXT))
    else if PolicyVerdict(env.legacy, algorithm, digest).Err?
      then Run(s, Err(PolicyVerdict(env.legacy, algorithm, digest).error))
    else
      var s1 := s.Invoke(PcrSetAuthPolicy(SizedDigest(|digest|, Padded(digest, DIGEST_BUFFER_SIZE)),
        AlgorithmToTpm(env.legacy, algorithm), HR_PCR + index));
      var reply := env.backend(s1.calls);
      if reply.rc != RC_SUCCESS then Fail(s1, "pcr_set_auth_policy", reply.rc)
      else Run(s1.Do(Logged(AuthPolicySet(index, algorithm))), Ok(()))
  }

  function SetAuthValue(env: Env, s: ProviderState, index: Index, auth: seq<byte>): Run<()> {
    if !env.available then Run(s, Err(NO_CONTEXT))
    else if AuthVerdict(auth).Err? then Run(s, Err(AuthVerdict(auth).error))
    else
      var s1 := s.Invoke(TrSetAuth(ESYS_TR_PCR0 + index, EMPTY_SIZED_DIGEST));
      if env.backend(s1.calls).rc != RC_SUCCESS
        then Fail(s1, "pcr_set_auth_value_set_current_auth", env.backend(s1.calls).rc)
      else
        var s2 := s1.Invoke(PcrSetAuthValue(ESYS_TR_PCR0 + index,
          SizedDigest(|auth|, Padded(auth, DIGEST_BUFFER_SIZE))));
        if env.backend(s2.calls).rc != RC_SUCCESS then Fail(s2, "pcr_set_auth_value", env.backend(s2.calls).rc)
        else
          var s3 := s2.Invoke(TrSetAuth(ESYS_TR_PCR0 + index, EMPTY_SIZED_DIGEST));
          if env.backend(s3.calls).rc != RC_SUCCESS
            then Fail(s3, "pcr_set_auth_value_update_current_auth", env.backend(s3.calls).rc)
          else Run(s3.Do(Logged(AuthValueSet(index))), Ok(()))
  }

  class Provider {
    const env: Env
    const observer: Observer?
    var calls: seq<Call>
    var effects: seq<Effect>

    function State(): ProviderState
      reads this
    {
      ProviderState(calls, effects)
    }

    ghost predicate Valid()
      reads this, observer
    {
      && (env.observed <==> observer != null)
      && (observer != null ==> observer.records == Notifications(effects))
    }

    constructor (legacy: bool, available: bool, backend: Backend, observer: Observer?)
      requires observer != null ==> observer.records == []
      ensures Valid() && State() == START
      ensures env == Env(legacy, available, observer != null, backend) && this.observer == observer
    {
      this.env := Env(legacy, available, observer != null, backend);
      this.observer := observer;
      calls := [];
      effects := [];
    }

    method Invoke(call: Call) returns (reply: Reply)
      modifies this
      ensures State() == old(State()).Invoke(call)
      ensures reply == env.backend(calls)
    {
      calls := calls + [call];
      reply := env.backend(calls);
    }

    method Perform(effect: Effect)
      requires !effect.Notified?
      modifies this
      ensures State() == old(State()).Do(effect)
    {
      effects := effects + [effect];
    }

    method TranslateAndLog(operation: string, rc: TssRc) returns (e: Error)
      modifies this
      ensures State() == Fail<()>(old(State()), operation, rc).state
      ensures e == TranslatedError(rc)
    {
      var layer := Layer(rc);
      var category := TranslateLayerBase(layer, Base(rc, layer));
      Perform(Logged(TssError(operation, rc, category)));
      e := Error(category, Message(category));
    }

    method AllocateBanks(banks: seq<HashAlgorithm>) returns (r: Outcome<AllocateResult>)
      requires Valid()
      modifies this
      ensures Valid()
      ensures State() == Allocate(env, old(State()), banks).state && r == Allocate(env, old(State()), banks).outcome
    {
      hide Logs, Notifications, Frees, Category, Padded, BankVerdict, PackedAllocation;
      if !env.available {
        return Err(NO_CONTEXT);
      }
      var valid := EnsureBankCount(banks);
      if valid.Err? {
        return Err(valid.error);
      }
      var allocation := ToTpmAllocation(env.legacy, banks);
      var reply := Invoke(PcrAllocate(allocation));
      if reply.rc != RC_SUCCESS {
        var e := TranslateAndLog("pcr_allocate", reply.rc);
        return Err(e);
      }
      Perform(Logged(AllocateCompleted(reply.allocation.success, |banks|)));
      return Ok(reply.allocation);
    }

    method ExtendPcr(index: Index, ds: seq<DigestValue>) returns (r: Outcome<()>)
      requires Valid() && ValidDigests(env.legacy, ds)
      modifies this, observer
      ensures Valid()
      ensures State() == Extend(env, old(State()), index, ds).state && r == Extend(env, old(State()), index, ds).outcome
    {
      hide Logs, Notifications, Frees, Category, Padded, DigestVerdict, PackedDigests;
      if !env.available {
        return Err(NO_CONTEXT);
      }
      var valid := EnsureDigestCount(ds);
      if valid.Err? {
        return Err(valid.error);
      }
      var digests := ToTpmDigestValues(env.legacy, ds);
      var reply := Invoke(PcrExtend(ESYS_TR_PCR0 + index, digests));
      if reply.rc != RC_SUCCESS {
        var e := TranslateAndLog("pcr_extend", reply.rc);
        return Err(e);
      }
      Perform(Logged(ExtendCompleted(index, |ds|)));
      if observer != null {
        observer.OnExtend(index, ds);
        effects := State().Do(Notified(Measurement(index, Extended, ds, []))).effects;
      }
      return Ok(());
    }

    method RecordEvent(index: Index, data: seq<byte>) returns (r: Outcome<seq<DigestValue>>)
      requires Valid()
      modifies this, observer
      ensures Valid()
      ensures State() == Event(env, old(State()), index, data).state
        && r == Event(env, old(State()), index, data).outcome
    {
      hide Logs, Notifications, Frees, Category, Padded, EventBody;
      if !env.available {
        return Err(NO_CONTEXT);
      }
      if |data| > EVENT_BUFFER_SIZE {
        return Rejected("PCR event data is too large");
      }
      var event := ToTpmEvent(data);
      var reply := Invoke(PcrEvent(ESYS_TR_PCR0 + index, event));
      r := FinishEvent(index, data, reply);
      if reply.digests.Some? {
        Perform(Freed(Buffer(|calls|, DigestsPart)));
      }
    }

    /** What happens while the digests buffer is owned; it is released when this returns, whichever way it does. */
    method FinishEvent(index: Index, data: seq<byte>, reply: Reply) returns (r: Outcome<seq<DigestValue>>)
      requires Valid()
      modifies this, observer
      ensures Valid()
      ensures State() == EventBody(env, old(State()), index, data, reply).state
        && r == EventBody(env, old(State()), index, data, reply).outcome
    {
      hide Logs, Notifications, Frees, Category, Padded, UnpackedDigests;
      if reply.rc != RC_SUCCESS {
        var e := TranslateAndLog("pcr_event", reply.rc);
        return Err(e);
      }
      if reply.digests.None? {
        return Malformed("TPM returned no PCR event digests");
      }
      var ds := ToDomainDigests(env.legacy, reply.digests.value);
      if ds.Err? {
        return Err(ds.error);
      }
      Perform(Logged(EventCompleted(index, |data|, |ds.value|)));
      if observer != null {
        observer.OnEvent(index, data, ds.value);
        effects := State().Do(Notified(Measurement(index, Evented, ds.value, data))).effects;
      }
      return ds;
    }

    method ReadPcrs(selection: Selection) returns (r: Outcome<ReadResult>)
      requires Valid()
      modifies this
      ensures Valid()
      ensures State() == Read(env, old(State()), selection).state && r == Read(env, old(State()), selection).outcome
    {
      hide Logs, Notifications, Frees, Category, Padded, ReadBody, PackedSelection;
      if !env.available {
        return Err(NO_CONTEXT);
      }
      var request := ToTpmSelection(env.legacy, selection);
      var reply := Invoke(PcrRead(request));
      r := FinishRead(selection, reply);
      if reply.values.Some? {
        Perform(Freed(Buffer(|calls|, ValuesPart)));
      }
      if reply.selection.Some? {
        Perform(Freed(Buffer(|calls|, SelectionPart)));
      }
    }

    method FinishRead(selection: Selection, reply: Reply) returns (r: Outcome<ReadResult>)
      requires Valid()
      modifies this
      ensures Valid()
      ensures State() == ReadBody(env, old(State()), selection, reply).state
        && r == ReadBody(env, old(State()), selection, reply).outcome
    {
      hide Logs, Notifications, Frees, Category, Padded, UnpackedSelection, UnpackedValues;
      if reply.rc != RC_SUCCESS {
        var e := TranslateAndLog("pcr_read", reply.rc);
        return Err(e);
      }
      if reply.selection.None? || reply.values.None? {
        return Malformed("TPM returned incomplete PCR read response");
      }
      var actual := ToDomainSelection(env.legacy, reply.selection.value, selection.algorithm);
      if actual.Err? {
        return Err(actual.error);
      }
      var values := ToDomainReadValues(reply.values.value, actual.value);
      if values.Err? {
        return Err(values.error);
      }
      Perform(Logged(ReadCompleted(actual.value.algorithm, |values.value|)));
      return Ok(ReadResult(actual.value, reply.updateCounter, values.value));
    }

    method ResetPcr(index: Index) returns (r: Outcome<()>)
      requires Valid()
      modifies this
      ensures Valid()
      ensures State() == Reset(env, old(State()), index).state && r == Reset(env, old(State()), index).outcome
    {
      hide Logs, Notifications, Frees, Category, Padded;
      if !env.available {
        return Err(NO_CONTEXT);
      }
      var reply := Invoke(PcrReset(ESYS_TR_PCR0 + index));
      if reply.rc != RC_SUCCESS {
        var e := TranslateAndLog("pcr_reset", reply.rc);
        return Err(e);
      }
      Perform(Logged(ResetCompleted(index)));
      return Ok(());
    }

    method SetPolicy(index: Index, algorithm: HashAlgorithm, digest: seq<byte>) returns (r: Outcome<()>)
      requires Valid()
      modifies this
      ensures Valid()
      ensures State() == SetAuthPolicy(env, old(State()), index, algorithm, digest).state
      ensures r == SetAuthPolicy(env, old(State()), index, algorithm, digest).outcome
    {
      hide Logs, Notifications, Frees, Category, Padded, PolicyVerdict;
      if !env.available {
        return Err(NO_CONTEXT);
      }
      var valid := EnsurePolicyDigestSize(env.legacy, algorithm, digest);
      if valid.Err? {
        return Err(valid.error);
      }
      var policy := ToTpmSizedDigest(digest);
      var reply := Invoke(PcrSetAuthPolicy(policy, AlgorithmToTpm(env.legacy, algorithm), HR_PCR + index));
      if reply.rc != RC_SUCCESS {
        var e := TranslateAndLog("pcr_set_auth_policy", reply.rc);
        return Err(e);
      }
      Perform(Logged(AuthPolicySet(index, algorithm)));
      return Ok(());
    }

    method SetAuth(index: Index, auth: seq<byte>) returns (r: Outcome<()>)
      requires Valid()
      modifies this
      ensures Valid()
      ensures State() == SetAuthValue(env, old(State()), index, auth).state
      ensures r == SetAuthValue(env, old(State()), index, auth).outcome
    {
      hide Logs, Notifications, Frees, Category, SizeVerdict, TransportVerdict;
      if !env.available {
        return Err(NO_CONTEXT);
      }
      var fits := EnsureSizedBufferFits(|auth|, "PCR auth value is too large");
      if fits.Err? {
        return Err(fits.error);
      }
      var secure := EnsureSecureAuthValueTransport(auth);
      if secure.Err? {
        return Err(secure.error);
      }
      var reply := Invoke(TrSetAuth(ESYS_TR_PCR0 + index, EMPTY_SIZED_DIGEST));
      if reply.rc != RC_SUCCESS {
        var e := TranslateAndLog("pcr_set_auth_value_set_current_auth", reply.rc);
        return Err(e);
      }
      var value := ToTpmSizedDigest(auth);
      reply := Invoke(PcrSetAuthValue(ESYS_TR_PCR0 + index, value));
      if reply.rc != RC_SUCCESS {
        var e := TranslateAndLog("pcr_set_auth_value", reply.rc);
        return Err(e);
      }
      reply := Invoke(TrSetAuth(ESYS_TR_PCR0 + index, EMPTY_SIZED_DIGEST));
      if reply.rc != RC_SUCCESS {
        var e := TranslateAndLog("pcr_set_auth_value_update_current_auth", reply.rc);
        return Err(e);
      }
      Perform(Logged(AuthValueSet(index)));
      return Ok(());
    }
  }
}
