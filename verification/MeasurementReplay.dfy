/**
  The measurement log explains the registers: with the provider as the only writer of a TPM, every active enabled
  bank's register is the fold of the recorded digests since the last reset, and reading it returns that fold.
 */
module MeasurementReplay {
  import opened Common
  import opened ErrorTranslation
  import opened PcrTypes
  import opened TpmStructures
  import opened PcrMarshalling
  import opened PcrValidation
  import opened InMemoryPcrObserver
  import opened EsysPcrProvider
  import opened ProviderDiscipline
  import opened TpmDevice

  /** Extends a register value by the digests that are for its bank, in order. */
  function ReplayDigests(chip: Chip, a: HashAlgorithm, start: seq<byte>, ds: seq<DigestValue>): seq<byte> {
    if ds == [] then start
    else
      var n := |ds| - 1;
      var value := ReplayDigests(chip, a, start, ds[..n]);
      if ds[n].algorithm == a then chip.hash(a, value + ds[n].digest) else value
  }

  function Replay(chip: Chip, a: HashAlgorithm, start: seq<byte>, records: seq<Measurement>): seq<byte> {
    if records == [] then start
    else
      var n := |records| - 1;
      ReplayDigests(chip, a, Replay(chip, a, start, records[..n]), records[n].digests)
  }

  lemma ReplayAppend(chip: Chip, a: HashAlgorithm, start: seq<byte>, records: seq<Measurement>, m: Measurement)
    ensures Replay(chip, a, start, records + [m]) == ReplayDigests(chip, a, Replay(chip, a, start, records), m.digests)
  {
    assert (records + [m])[..|records|] == records;
  }

  /** A run, with the number of records about a PCR that were there at its last successful reset. */
  datatype Tracked = Tracked(provider: ProviderState, marks: map<Index, nat>)

  function TrackStep(env: Env, t: Tracked, op: Op): Tracked
    requires ValidOp(env.legacy, op)
  {
    var taken := Step(env, t.provider, op);
    Tracked(taken.state,
      if op.ResetOp? && taken.error.None?
        then t.marks[op.index := |EntriesByIndex(Notifications(taken.state.effects), op.index)|]
      else t.marks)
  }

  function TrackRun(env: Env, ops: seq<Op>): Tracked
    requires ValidOps(env.legacy, ops)
  {
    if ops == [] then Tracked(START, map[])
    else var n := |ops| - 1; TrackStep(env, TrackRun(env, ops[..n]), ops[n])
  }

  /** The run that is tracked is the run whose discipline is known. */
  lemma {:induction false} TrackedRunIsRun(env: Env, ops: seq<Op>)
    requires ValidOps(env.legacy, ops)
    ensures TrackRun(env, ops).provider == AfterRun(env, ops)
  {
    if ops != [] {
      hide Step;
      TrackedRunIsRun(env, ops[..|ops| - 1]);
    }
  }

  /** The records about a PCR since its last successful reset, or all of them if there was none. */
  function RecordsSinceReset(t: Tracked, i: Index): seq<Measurement> {
    var entries := EntriesByIndex(Notifications(t.provider.effects), i);
    if i in t.marks && t.marks[i] <= |entries| then entries[t.marks[i]..] else entries
  }

  ghost function BaseValue(chip: Chip, t: Tracked, a: HashAlgorithm, i: Index): seq<byte> {
    if i in t.marks then chip.resetValue(a, i) else RegisterOf(chip.initial, a, i)
  }

  ghost function Replayed(chip: Chip, t: Tracked, a: HashAlgorithm, i: Index): seq<byte> {
    Replay(chip, a, BaseValue(chip, t, a, i), RecordsSinceReset(t, i))
  }

  ghost predicate MarksInRange(t: Tracked) {
    forall i :: i in t.marks ==> t.marks[i] <= |EntriesByIndex(Notifications(t.provider.effects), i)|
  }

  ghost predicate Explained(legacy: bool, chip: Chip, t: Tracked)
    requires ValidChip(chip)
  {
    && MarksInRange(t)
    && forall a, i: Index :: a in chip.banks && Enabled(legacy, a) ==>
      RegisterOf(After(chip, t.provider.calls), a, i) == Replayed(chip, t, a, i)
  }

  // One extend, seen from the packed list.

  lemma {:induction false} PackedExtend(chip: Chip, legacy: bool, r: Registers, pcr: Index, ds: seq<DigestValue>,
      n: nat, a: HashAlgorithm, i: Index)
    requires ValidChip(chip) && ValidRegisters(chip.banks, r)
    requires ValidDigests(legacy, ds) && n <= |ds| <= NUM_PCR_BANKS
    requires a in chip.banks
    ensures ValidRegisters(chip.banks, ExtendAll(chip, r, pcr, PackedDigests(legacy, ds).digests[..n]))
    ensures RegisterOf(ExtendAll(chip, r, pcr, PackedDigests(legacy, ds).digests[..n]), a, i) ==
              if i == pcr then ReplayDigests(chip, a, RegisterOf(r, a, i), ds[..n]) else RegisterOf(r, a, i)
  {
    hide ExtendOne, PackedDigest, PackedDigests, ValidChip, RegisterOf;
    var entries := PackedDigests(legacy, ds).digests;
    ExtendAllKeepsShape(chip, r, pcr, entries[..n]);
    if n > 0 {
      hide ExtendAll, ReplayDigests;
      var h, d := entries[n - 1], ds[n - 1];
      PackedExtend(chip, legacy, r, pcr, ds, n - 1, a, i);
      assert entries[..n] == entries[..n - 1] + [h];
      assert ds[..n] == ds[..n - 1] + [d];
      ExtendAppend(chip, r, pcr, entries[..n - 1], h);
      ReplayOneMore(chip, a, RegisterOf(r, a, i), ds[..n - 1], d);
      ExtendOnePacked(chip, legacy, ExtendAll(chip, r, pcr, entries[..n - 1]), pcr, d, a, i);
    }
  }

  lemma ExtendOnePacked(chip: Chip, legacy: bool, r: Registers, pcr: Index, d: DigestValue, a: HashAlgorithm, i: Index)
    requires ValidChip(chip) && ValidRegisters(chip.banks, r)
    requires ValidDigest(legacy, d) && a in chip.banks
    ensures RegisterOf(ExtendOne(chip, r, pcr, PackedDigest(legacy, d)), a, i) ==
              if i == pcr && d.algorithm == a then chip.hash(a, RegisterOf(r, a, i) + d.digest) else RegisterOf(r, a, i)
  {
    var h := PackedDigest(legacy, d);
    AlgorithmsCorrespond(true, d.algorithm, h.hashAlg);
    assert h.digest[..DigestSize(d.algorithm)] == d.digest;
  }

  // The digests of an event, through a provider that may drop SHA-1.

  function EnabledOnly(legacy: bool, ds: seq<DigestValue>): seq<DigestValue> {
    if ds == [] then []
    else
      var n := |ds| - 1;
      var kept := EnabledOnly(legacy, ds[..n]);
      if Enabled(legacy, ds[n].algorithm) then kept + [ds[n]] else kept
  }

  lemma EnabledAppend(legacy: bool, ds: seq<DigestValue>, d: DigestValue)
    ensures EnabledOnly(legacy, ds + [d]) ==
      if Enabled(legacy, d.algorithm) then EnabledOnly(legacy, ds) + [d] else EnabledOnly(legacy, ds)
  {
    assert (ds + [d])[..|ds|] == ds;
  }

  lemma DecodeAppend(legacy: bool, entries: seq<HashDigest>, h: HashDigest)
    requires DecodedDigests(legacy, entries).Ok?
    ensures DecodedDigests(legacy, entries + [h]) ==
              if Skipped(legacy, h) then DecodedDigests(legacy, entries)
              else match DecodedDigest(legacy, h)
                case Err(e) => Err(e)
                case Ok(d) => Ok(DecodedDigests(legacy, entries).value + [d])
  {
    assert (entries + [h])[..|entries|] == entries;
  }

  lemma ReplayOneMore(chip: Chip, a: HashAlgorithm, start: seq<byte>, ds: seq<DigestValue>, d: DigestValue)
    ensures ReplayDigests(chip, a, start, ds + [d]) ==
              if d.algorithm == a then chip.hash(a, ReplayDigests(chip, a, start, ds) + d.digest)
                else ReplayDigests(chip, a, start, ds)
  {
    assert (ds + [d])[..|ds|] == ds;
  }

  lemma {:induction false} EventListDecodes(legacy: bool, ds: seq<DigestValue>, n: nat)
    requires ValidDigests(true, ds) && n <= |ds| <= NUM_PCR_BANKS
    ensures DecodedDigests(legacy, PackedDigests(true, ds).digests[..n]) == Ok(EnabledOnly(legacy, ds[..n]))
  {
    if n > 0 {
      hide PackedDigests, PackedDigest, DecodedDigests, DecodedDigest, Skipped, EnabledOnly;
      var entries := PackedDigests(true, ds).digests;
      EventListDecodes(legacy, ds, n - 1);
      var d := ds[n - 1];
      assert entries[..n] == entries[..n - 1] + [PackedDigest(true, d)];
      assert ds[..n] == ds[..n - 1] + [d];
      DecodeAppend(legacy, entries[..n - 1], PackedDigest(true, d));
      EnabledAppend(legacy, ds[..n - 1], d);
      EventDigestDecodes(legacy, d);
    }
  }

  /** A digest that a TPM packs is dropped exactly if its bank is disabled here, and otherwise decoded. */
  lemma EventDigestDecodes(legacy: bool, d: DigestValue)
    requires ValidDigest(true, d)
    ensures Skipped(legacy, PackedDigest(true, d)) <==> !Enabled(legacy, d.algorithm)
    ensures Enabled(legacy, d.algorithm) ==> DecodedDigest(legacy, PackedDigest(true, d)) == Ok(d)
  {
    AlgorithmsCorrespond(legacy, d.algorithm, PackedDigest(true, d).hashAlg);
    assert PackedDigest(true, d).digest[..DigestSize(d.algorithm)] == d.digest;
  }

  lemma {:induction false} DroppedDigestsDoNotMatter(chip: Chip, legacy: bool, a: HashAlgorithm, start: seq<byte>,
      ds: seq<DigestValue>)
    requires Enabled(legacy, a)
    ensures ReplayDigests(chip, a, start, EnabledOnly(legacy, ds)) == ReplayDigests(chip, a, start, ds)
  {
    if ds != [] {
      var n := |ds| - 1;
      DroppedDigestsDoNotMatter(chip, legacy, a, start, ds[..n]);
      assert ds == ds[..n] + [ds[n]];
      EnabledAppend(legacy, ds[..n], ds[n]);
      ReplayOneMore(chip, a, start, ds[..n], ds[n]);
      ReplayOneMore(chip, a, start, EnabledOnly(legacy, ds[..n]), ds[n]);
    }
  }

  // How the explanation survives one operation.

  lemma QuietStep(legacy: bool, chip: Chip, t: Tracked, u: Tracked)
    requires ValidChip(chip) && Explained(legacy, chip, t)
    requires u.marks == t.marks && Notifications(u.provider.effects) == Notifications(t.provider.effects)
    requires After(chip, u.provider.calls) == After(chip, t.provider.calls)
    ensures Explained(legacy, chip, u)
  {
    hide Replay, After, EntriesByIndex, Notifications, ValidChip;
    forall a, i: Index | a in chip.banks && Enabled(legacy, a)
      ensures RegisterOf(After(chip, u.provider.calls), a, i) == Replayed(chip, u, a, i)
    {
      assert RegisterOf(After(chip, t.provider.calls), a, i) == Replayed(chip, t, a, i);
    }
  }

  lemma MeasuredStep(legacy: bool, chip: Chip, t: Tracked, u: Tracked, m: Measurement)
    requires ValidChip(chip) && Explained(legacy, chip, t)
    requires u.marks == t.marks && Notifications(u.provider.effects) == Notifications(t.provider.effects) + [m]
    requires forall a, i: Index :: a in chip.banks && Enabled(legacy, a) ==>
      RegisterOf(After(chip, u.provider.calls), a, i) ==
        if i == m.index then ReplayDigests(chip, a, RegisterOf(After(chip, t.provider.calls), a, i), m.digests)
        else RegisterOf(After(chip, t.provider.calls), a, i)
    ensures Explained(legacy, chip, u)
  {
    hide Replay, After, EntriesByIndex, Notifications, ReplayDigests, ValidChip;
    var records := Notifications(t.provider.effects);
    forall i: Index ensures EntriesByIndex(records + [m], i) ==
      EntriesByIndex(records, i) + if m.index == i then [m] else [] {
      EntriesAppend(records, m, i);
    }
    forall a, i: Index | a in chip.banks && Enabled(legacy, a)
      ensures RegisterOf(After(chip, u.provider.calls), a, i) == Replayed(chip, u, a, i)
    {
      var since := RecordsSinceReset(t, i);
      assert RegisterOf(After(chip, t.provider.calls), a, i) == Replayed(chip, t, a, i);
      if i == m.index {
        assert RecordsSinceReset(u, i) == since + [m];
        ReplayAppend(chip, a, BaseValue(chip, t, a, i), since, m);
      } else {
        assert RecordsSinceReset(u, i) == since;
      }
    }
  }

  lemma ResetStep(legacy: bool, chip: Chip, t: Tracked, u: Tracked, pcr: Index)
    requires ValidChip(chip) && ValidRegisters(chip.banks, After(chip, t.provider.calls)) && Explained(legacy, chip, t)
    requires Notifications(u.provider.effects) == Notifications(t.provider.effects)
    requires u.marks == t.marks[pcr := |EntriesByIndex(Notifications(t.provider.effects), pcr)|]
    requires After(chip, u.provider.calls) == ResetAll(chip, After(chip, t.provider.calls), pcr)
    ensures Explained(legacy, chip, u)
  {
    hide After, EntriesByIndex, Notifications, ValidChip;
    forall a, i: Index | a in chip.banks && Enabled(legacy, a)
      ensures RegisterOf(After(chip, u.provider.calls), a, i) == Replayed(chip, u, a, i)
    {
      assert RegisterOf(After(chip, t.provider.calls), a, i) == Replayed(chip, t, a, i);
      if i == pcr {
        assert RecordsSinceReset(u, i) == [];
      } else {
        assert RecordsSinceReset(u, i) == RecordsSinceReset(t, i)
          && BaseValue(chip, u, a, i) == BaseValue(chip, t, a, i);
      }
    }
  }

  predicate WritesRegisters(call: Call) {
    call.PcrExtend? || call.PcrEvent? || call.PcrReset?
  }

  /** Commands that write no register leave all of them alone, however many an operation issues. */
  lemma {:induction false} ReadingCallsChangeNothing(chip: Chip, before: seq<Call>, after: seq<Call>)
    requires ValidChip(chip) && before <= after
    requires forall k :: |before| <= k < |after| ==>
      !WritesRegisters(after[k]) || chip.refusal(after[..k + 1]) != RC_SUCCESS
    ensures After(chip, after) == After(chip, before)
  {
    if |before| < |after| {
      var n := |after| - 1;
      assert after[..n + 1] == after;
      forall k | |before| <= k < n
        ensures !WritesRegisters(after[..n][k]) || chip.refusal(after[..n][..k + 1]) != RC_SUCCESS {
        assert after[..n][..k + 1] == after[..k + 1];
      }
      ReadingCallsChangeNothing(chip, before, after[..n]);
    } else {
      assert before == after;
    }
  }

  lemma QuietOp(env: Env, chip: Chip, t: Tracked, op: Op)
    requires IsBackend(chip, env.backend) && ValidOp(env.legacy, op) && Explained(env.legacy, chip, t)
    requires !op.ExtendOp? && !op.EventOp? && !op.ResetOp?
    ensures Explained(env.legacy, chip, TrackStep(env, t, op))
  {
    var u := TrackStep(env, t, op);
    OperationDiscipline(env, t.provider, op);
    QuietOpCalls(env, t.provider, op);
    ReadingCallsChangeNothing(chip, t.provider.calls, u.provider.calls);
    QuietStep(env.legacy, chip, t, u);
  }

  ghost predicate OnlyReads(before: seq<Call>, after: seq<Call>) {
    before <= after && forall k :: |before| <= k < |after| ==> !WritesRegisters(after[k])
  }

  lemma QuietOpCalls(env: Env, s: ProviderState, op: Op)
    requires ValidOp(env.legacy, op)
    requires !op.ExtendOp? && !op.EventOp? && !op.ResetOp?
    ensures OnlyReads(s.calls, Step(env, s, op).state.calls)
  {
    match op
    case AllocateOp(_) => AllocateOnlyReads(env, s, op);
    case ReadOp(_) => ReadOnlyReads(env, s, op);
    case SetAuthPolicyOp(_, _, _) => SetAuthPolicyOnlyReads(env, s, op);
    case SetAuthValueOp(_, _) => SetAuthValueOnlyReads(env, s, op);
  }

  lemma AllocateOnlyReads(env: Env, s: ProviderState, op: Op)
    requires op.AllocateOp?
    ensures OnlyReads(s.calls, Step(env, s, op).state.calls)
  {
    hide Logs, Notifications, Frees, Fail, PackedAllocation, Padded, BankVerdict;
  }

  lemma SetAuthPolicyOnlyReads(env: Env, s: ProviderState, op: Op)
    requires op.SetAuthPolicyOp?
    ensures OnlyReads(s.calls, Step(env, s, op).state.calls)
  {
    hide Logs, Notifications, Frees, Fail, PackedAllocation, Padded, PolicyVerdict;
  }

  lemma SetAuthValueOnlyReads(env: Env, s: ProviderState, op: Op)
    requires op.SetAuthValueOp?
    ensures OnlyReads(s.calls, Step(env, s, op).state.calls)
  {
    hide Logs, Notifications, Frees, Fail, PackedAllocation, Padded, AuthVerdict;
  }

  lemma ReadOnlyReads(env: Env, s: ProviderState, op: Op)
    requires op.ReadOp?
    ensures OnlyReads(s.calls, Step(env, s, op).state.calls)
  {
    hide Logs, Notifications, Frees, Category, PackedSelection, PackedDigests, PackedAllocation, UnpackedSelection,
      UnpackedValues, UnpackedDigests, Padded;
    if env.available {
      var s1 := s.Invoke(PcrRead(PackedSelection(env.legacy, op.selection)));
      ReadFinishesProperly(env, s1, op.selection, env.backend(s1.calls));
    }
  }

  lemma ResetOpIsExplained(env: Env, chip: Chip, t: Tracked, op: Op)
    requires IsBackend(chip, env.backend) && ValidOp(env.legacy, op) && Explained(env.legacy, chip, t)
    requires op.ResetOp?
    ensures Explained(env.legacy, chip, TrackStep(env, t, op))
  {
    hide Logs, Notifications, Frees, Category, Explained, Disciplined, ValidChip, After, Execute, ReplyOf;
    var u := TrackStep(env, t, op);
    ResetCalls(env, chip, t.provider, op);
    OperationDiscipline(env, t.provider, op);
    NotificationsOf(env, t.provider, op);
    RegistersKeepShape(chip, t.provider.calls);
    if Step(env, t.provider, op).error.None? {
      ResetStep(env.legacy, chip, t, u, op.index);
    } else {
      QuietStep(env.legacy, chip, t, u);
    }
  }

  lemma NotificationsOf(env: Env, s: ProviderState, op: Op)
    requires ValidOp(env.legacy, op)
    ensures NotifiesProperly(env, s, op, Step(env, s, op))
  {
    hide Step, NotifiesProperly;
    OperationDiscipline(env, s, op);
  }

  lemma ResetCalls(env: Env, chip: Chip, s: ProviderState, op: Op)
    requires IsBackend(chip, env.backend) && op.ResetOp?
    ensures var t := Step(env, s, op);
            After(chip, t.state.calls) ==
              if t.error.None? then ResetAll(chip, After(chip, s.calls), op.index) else After(chip, s.calls)
  {
    hide Logs, Notifications, Frees, Fail, After, ResetAll, ValidChip, EventList;
    if env.available {
      AfterAppend(chip, s.calls, PcrReset(ESYS_TR_PCR0 + op.index));
    }
  }

  lemma ExtendCalls(env: Env, chip: Chip, s: ProviderState, op: Op)
    requires IsBackend(chip, env.backend) && op.ExtendOp? && ValidOp(env.legacy, op)
    ensures var t := Step(env, s, op);
            && (t.error.None? ==> |op.digests| <= NUM_PCR_BANKS)
            && (t.error.None? ==> t.measured == Some(Measurement(op.index, Extended, op.digests, [])))
            && After(chip, t.state.calls) ==
                 if t.error.None? then ExtendAll(chip, After(chip, s.calls), op.index,
                   PackedDigests(env.legacy, op.digests).digests[..|op.digests|])
                 else After(chip, s.calls)
  {
    hide Logs, Notifications, Frees, Category, PackedDigests, ExtendAll, After, EventList, ResetAll, ValidChip;
    if env.available && DigestVerdict(op.digests).Ok? {
      AfterAppend(chip, s.calls, PcrExtend(ESYS_TR_PCR0 + op.index, PackedDigests(env.legacy, op.digests)));
    }
  }

  /** Entries for banks that the library does not know extend none of the registers that it knows. */
  lemma {:induction false} ForeignExtendsNothing(chip: Chip, r: Registers, pcr: nat, known: seq<HashDigest>,
      foreign: seq<HashDigest>)
    requires forall k :: 0 <= k < |foreign| ==> IsForeign(foreign[k].hashAlg)
    ensures ExtendAll(chip, r, pcr, known + foreign) == ExtendAll(chip, r, pcr, known)
  {
    if foreign == [] {
      assert known + foreign == known;
    } else {
      var n := |foreign| - 1;
      assert known + foreign == known + foreign[..n] + [foreign[n]];
      ExtendAppend(chip, r, pcr, known + foreign[..n], foreign[n]);
      ForeignExtendsNothing(chip, r, pcr, known, foreign[..n]);
    }
  }

  lemma {:induction false} DecodingFails(legacy: bool, known: seq<HashDigest>, foreign: seq<HashDigest>)
    requires foreign != [] && forall k :: 0 <= k < |foreign| ==> IsForeign(foreign[k].hashAlg)
    ensures DecodedDigests(legacy, known + foreign).Err?
  {
    var entries := known + foreign;
    assert entries[|known|] == foreign[0] && Undecodable(legacy, entries[|known|]);
    DigestFilterLaw(legacy, entries);
  }

  /** The call that an event makes. */
  function EventCall(op: Op): Call
    requires op.EventOp? && |op.data| <= EVENT_BUFFER_SIZE
  {
    PcrEvent(ESYS_TR_PCR0 + op.index, SizedEvent(|op.data|, Padded(op.data, EVENT_BUFFER_SIZE)))
  }

  /** Whether an operation is an event that the TPM executes. */
  ghost predicate IsExecutedEvent(env: Env, chip: Chip, s: ProviderState, op: Op) {
    && op.EventOp? && env.available && |op.data| <= EVENT_BUFFER_SIZE
    && chip.refusal(s.calls + [EventCall(op)]) == RC_SUCCESS
  }

  /**
    What the provider makes of the reply to an executed event: its digests if all active banks are known, and otherwise
    an error.
   */
  lemma EventReplyDecodes(env: Env, chip: Chip, data: seq<byte>)
    requires ValidChip(chip)
    ensures var ds := EventDigests(chip, data);
            var decoded := UnpackedDigests(env.legacy, EventList(chip, data));
            && ValidDigests(true, ds) && |ds| <= NUM_PCR_BANKS
            && (decoded.Ok? <==> chip.foreign == [])
            && (decoded.Ok? ==> decoded == Ok(EnabledOnly(env.legacy, ds)))
  {
    hide PackedDigests, DecodedDigests, EnabledOnly, EventDigests;
    var ds := EventDigests(chip, data);
    EventDigestsFit(chip, data);
    EventListDecodes(env.legacy, ds, |ds|);
    assert ds[..|ds|] == ds;
    var known := PackedDigests(true, ds).digests[..|ds|];
    if chip.foreign == [] {
      assert EventEntries(chip, data) == known;
    } else {
      DecodingFails(env.legacy, known, ForeignEntries(chip, data));
    }
  }

  /** What the call of an event does to the registers that the library knows. */
  lemma EventCallExtends(chip: Chip, calls: seq<Call>, op: Op)
    requires ValidChip(chip) && op.EventOp? && |op.data| <= EVENT_BUFFER_SIZE
    ensures var ds := EventDigests(chip, op.data);
            && ValidDigests(true, ds) && |ds| <= NUM_PCR_BANKS
            && After(chip, calls + [EventCall(op)]) ==
                 if chip.refusal(calls + [EventCall(op)]) == RC_SUCCESS
                 then ExtendAll(chip, After(chip, calls), op.index, PackedDigests(true, ds).digests[..|ds|])
                 else After(chip, calls)
  {
    hide PackedDigests, ExtendAll, After, ResetAll, ValidChip, EventDigests, EventList, EventEntries, ForeignEntries;
    var call, ds := EventCall(op), EventDigests(chip, op.data);
    assert EventData(call.event) == op.data;
    AfterAppend(chip, calls, call);
    ForeignEntriesAreForeign(chip, op.data);
    EventEntriesSplit(chip, op.data);
    ForeignExtendsNothing(chip, After(chip, calls), op.index, PackedDigests(true, ds).digests[..|ds|],
      ForeignEntries(chip, op.data));
  }

  lemma EventCallAnswers(env: Env, chip: Chip, calls: seq<Call>, op: Op)
    requires IsBackend(chip, env.backend) && op.EventOp? && |op.data| <= EVENT_BUFFER_SIZE
    ensures var reply := env.backend(calls + [EventCall(op)]);
            && reply.rc == chip.refusal(calls + [EventCall(op)])
            && (reply.rc == RC_SUCCESS ==> reply.digests == Some(EventList(chip, op.data)))
  {
    hide ValidChip, EventList, After, ReadValues;
    var called := calls + [EventCall(op)];
    assert EventData(EventCall(op).event) == op.data;
    assert env.backend(called) == ReplyOf(chip, called);
  }

  lemma EventBodyDecodes(env: Env, s: ProviderState, index: Index, data: seq<byte>, reply: Reply)
    ensures var body := EventBody(env, s, index, data, reply);
            && body.state.calls == s.calls
            && (reply.rc != RC_SUCCESS ==> body.outcome.Err?)
            && (reply.rc == RC_SUCCESS && reply.digests.Some? ==>
              body.outcome == UnpackedDigests(env.legacy, reply.digests.value))
  {
    hide Logs, Notifications, Frees, Fail, UnpackedDigests;
  }

  /**
    What an event does: nothing if it is not executed, and otherwise it extends the known banks and may or may not be
    recorded.
   */
  lemma EventCalls(env: Env, chip: Chip, s: ProviderState, op: Op)
    requires IsBackend(chip, env.backend) && op.EventOp?
    ensures var t := Step(env, s, op);
            var ds := EventDigests(chip, op.data);
            && ValidDigests(true, ds) && |ds| <= NUM_PCR_BANKS
            && (t.error.None? <==> IsExecutedEvent(env, chip, s, op) && chip.foreign == [])
            && (t.error.None? ==>
                  t.measured == Some(Measurement(op.index, Evented, EnabledOnly(env.legacy, ds), op.data)))
            && After(chip, t.state.calls) ==
                 if IsExecutedEvent(env, chip, s, op)
                 then ExtendAll(chip, After(chip, s.calls), op.index, PackedDigests(true, ds).digests[..|ds|])
                 else After(chip, s.calls)
  {
    hide Logs, Notifications, Frees, PackedDigests, UnpackedDigests, ExtendAll, After, ValidChip, EnabledOnly,
      EventDigests, EventList, EventBody, ReplyOf;
    EventReplyDecodes(env, chip, op.data);
    if Rejects(env, op) {
      RejectedStep(env, s, op);
    } else {
      var s1 := s.Invoke(EventCall(op));
      EventCallExtends(chip, s.calls, op);
      EventCallAnswers(env, chip, s.calls, op);
      EventBodyDecodes(env, s1, op.index, op.data, env.backend(s1.calls));
      EventIsBody(env, s, op);
      hide Step;
    }
  }

  lemma ForeignEntriesAreForeign(chip: Chip, data: seq<byte>)
    requires ValidChip(chip)
    ensures forall k :: 0 <= k < |ForeignEntries(chip, data)| ==> IsForeign(ForeignEntries(chip, data)[k].hashAlg)
  {
    hide IsForeign;
  }

  lemma EventEntriesSplit(chip: Chip, data: seq<byte>)
    requires ValidChip(chip)
    ensures var ds := EventDigests(chip, data);
            && ValidDigests(true, ds) && |ds| <= NUM_PCR_BANKS
            && EventEntries(chip, data) == PackedDigests(true, ds).digests[..|ds|] + ForeignEntries(chip, data)
  {
    hide PackedDigests, ForeignEntries;
    EventDigestsFit(chip, data);
  }

  /** An event that the TPM executes and the provider then fails to decode, so that it is not recorded. */
  ghost predicate IsMissed(env: Env, chip: Chip, t: Tracked, op: Op) {
    IsExecutedEvent(env, chip, t.provider, op) && chip.foreign != []
  }

  /** What a recorded extend or event does to one register, in terms of its record. */
  lemma MeasuredRegister(env: Env, chip: Chip, s: ProviderState, op: Op, a: HashAlgorithm, i: Index)
    requires IsBackend(chip, env.backend) && ValidOp(env.legacy, op) && (op.ExtendOp? || op.EventOp?)
    requires Step(env, s, op).error.None? && a in chip.banks && Enabled(env.legacy, a)
    ensures Step(env, s, op).measured.Some?
    ensures var m := Step(env, s, op).measured.value;
            var value := RegisterOf(After(chip, s.calls), a, i);
            RegisterOf(After(chip, Step(env, s, op).state.calls), a, i) ==
              if i == m.index then ReplayDigests(chip, a, value, m.digests) else value
  {
    hide Step, ExtendAll, PackedDigests, After, EventDigests, RegisterOf, ValidChip, ReplayDigests;
    RegistersKeepShape(chip, s.calls);
    if op.ExtendOp? {
      ExtendCalls(env, chip, s, op);
      PackedExtend(chip, env.legacy, After(chip, s.calls), op.index, op.digests, |op.digests|, a, i);
      assert op.digests[..|op.digests|] == op.digests;
    } else {
      var ds := EventDigests(chip, op.data);
      EventCalls(env, chip, s, op);
      PackedExtend(chip, true, After(chip, s.calls), op.index, ds, |ds|, a, i);
      assert ds[..|ds|] == ds;
      DroppedDigestsDoNotMatter(chip, env.legacy, a, RegisterOf(After(chip, s.calls), a, i), ds);
    }
  }

  lemma FailedMeasurementChangesNothing(env: Env, chip: Chip, t: Tracked, op: Op)
    requires IsBackend(chip, env.backend) && ValidOp(env.legacy, op)
    requires op.ExtendOp? || (op.EventOp? && !IsMissed(env, chip, t, op))
    requires Step(env, t.provider, op).error.Some?
    ensures After(chip, Step(env, t.provider, op).state.calls) == After(chip, t.provider.calls)
  {
    hide Step, ExtendAll, PackedDigests, After, EventDigests, ValidChip;
    if op.ExtendOp? {
      ExtendCalls(env, chip, t.provider, op);
    } else {
      EventCalls(env, chip, t.provider, op);
    }
  }

  lemma ExtendOpIsExplained(env: Env, chip: Chip, t: Tracked, op: Op)
    requires IsBackend(chip, env.backend) && env.observed && ValidOp(env.legacy, op) && Explained(env.legacy, chip, t)
    requires op.ExtendOp? || (op.EventOp? && !IsMissed(env, chip, t, op))
    ensures Explained(env.legacy, chip, TrackStep(env, t, op))
  {
    hide Logs, Notifications, Frees, Category, Explained, Step, After, ValidChip, RegisterOf, ReplayDigests, IsMissed;
    var u := TrackStep(env, t, op);
    NotificationsOf(env, t.provider, op);
    if Step(env, t.provider, op).error.Some? {
      FailedMeasurementChangesNothing(env, chip, t, op);
      QuietStep(env.legacy, chip, t, u);
    } else {
      var m := Step(env, t.provider, op).measured.value;
      forall a, i: Index | a in chip.banks && Enabled(env.legacy, a)
        ensures RegisterOf(After(chip, u.provider.calls), a, i) ==
                  if i == m.index
                  then ReplayDigests(chip, a, RegisterOf(After(chip, t.provider.calls), a, i), m.digests)
                  else RegisterOf(After(chip, t.provider.calls), a, i)
      {
        MeasuredRegister(env, chip, t.provider, op, a, i);
      }
      MeasuredStep(env.legacy, chip, t, u, m);
    }
  }

  // Events that are not recorded.

  lemma {:induction false} ReplayOfOneDigest(chip: Chip, a: HashAlgorithm, start: seq<byte>, ds: seq<DigestValue>,
      j: nat)
    requires j < |ds| && ds[j].algorithm == a
    requires forall k :: 0 <= k < |ds| && ds[k].algorithm == a ==> k == j
    ensures ReplayDigests(chip, a, start, ds) == chip.hash(a, start + ds[j].digest)
  {
    var n := |ds| - 1;
    if j == n {
      ReplayOfNoDigest(chip, a, start, ds[..n]);
    } else {
      ReplayOfOneDigest(chip, a, start, ds[..n], j);
    }
  }

  lemma {:induction false} ReplayOfNoDigest(chip: Chip, a: HashAlgorithm, start: seq<byte>, ds: seq<DigestValue>)
    requires forall k :: 0 <= k < |ds| ==> ds[k].algorithm != a
    ensures ReplayDigests(chip, a, start, ds) == start
  {
    if ds != [] {
      ReplayOfNoDigest(chip, a, start, ds[..|ds| - 1]);
    }
  }

  /** An executed event extends a known bank by the hash of its data, once. */
  lemma EventExtendsOnce(chip: Chip, a: HashAlgorithm, start: seq<byte>, data: seq<byte>)
    requires ValidChip(chip) && a in chip.banks
    ensures ReplayDigests(chip, a, start, EventDigests(chip, data)) == chip.hash(a, start + chip.hash(a, data))
  {
    var j :| 0 <= j < |chip.banks| && chip.banks[j] == a;
    ReplayOfOneDigest(chip, a, start, EventDigests(chip, data), j);
  }

  /** A missed event that changes the register of an enabled bank. */
  ghost predicate Loses(env: Env, chip: Chip, t: Tracked, op: Op)
    requires ValidChip(chip)
  {
    IsMissed(env, chip, t, op) && exists a :: a in chip.banks && Enabled(env.legacy, a) && MovesRegister(chip, t, op, a)
  }

  ghost predicate MovesRegister(chip: Chip, t: Tracked, op: Op, a: HashAlgorithm)
    requires ValidChip(chip) && op.EventOp?
  {
    var value := RegisterOf(After(chip, t.provider.calls), a, op.index);
    chip.hash(a, value + chip.hash(a, op.data)) != value
  }

  /** What a missed event leaves: the same log, and one extend of the addressed register in every known bank. */
  lemma MissedOp(env: Env, chip: Chip, t: Tracked, op: Op, a: HashAlgorithm, i: Index)
    requires IsBackend(chip, env.backend) && IsMissed(env, chip, t, op) && a in chip.banks
    ensures var u := TrackStep(env, t, op);
            && u.marks == t.marks && Notifications(u.provider.effects) == Notifications(t.provider.effects)
            && var value := RegisterOf(After(chip, t.provider.calls), a, i);
               RegisterOf(After(chip, u.provider.calls), a, i) ==
                 if i == op.index then chip.hash(a, value + chip.hash(a, op.data)) else value
  {
    hide Logs, Notifications, Frees, Category, Step, ExtendAll, PackedDigests, After, EventDigests, ReplayDigests,
      ValidChip, RegisterOf;
    var r, ds := After(chip, t.provider.calls), EventDigests(chip, op.data);
    NotificationsOf(env, t.provider, op);
    EventCalls(env, chip, t.provider, op);
    RegistersKeepShape(chip, t.provider.calls);
    PackedExtend(chip, true, r, op.index, ds, |ds|, a, i);
    assert ds[..|ds|] == ds;
    EventExtendsOnce(chip, a, RegisterOf(r, a, i), op.data);
  }

  lemma SameLogSameReplay(chip: Chip, t: Tracked, u: Tracked, a: HashAlgorithm, i: Index)
    requires u.marks == t.marks && Notifications(u.provider.effects) == Notifications(t.provider.effects)
    ensures Replayed(chip, u, a, i) == Replayed(chip, t, a, i)
    ensures MarksInRange(u) == MarksInRange(t)
  {
    hide Notifications, EntriesByIndex, Replay;
  }

  /**
    A missed event leaves the log explaining the registers exactly if it changed none of those that are to be
    explained.
   */
  lemma MissedEventExplains(env: Env, chip: Chip, t: Tracked, op: Op)
    requires IsBackend(chip, env.backend) && ValidOp(env.legacy, op) && Explained(env.legacy, chip, t)
    requires IsMissed(env, chip, t, op)
    ensures Explained(env.legacy, chip, TrackStep(env, t, op)) <==> !Loses(env, chip, t, op)
  {
    hide Notifications, EntriesByIndex, After, TrackStep, ValidChip, RegisterOf, IsMissed, Replayed, MarksInRange;
    var u := TrackStep(env, t, op);
    OnlyEventsAreMissed(env, chip, t, op);
    MissedOpKeepsLog(env, chip, t, op);
    SameLogSameReplay(chip, t, u, Sha256, 0);
    forall a, i: Index | a in chip.banks && Enabled(env.legacy, a)
      ensures RegisterOf(After(chip, u.provider.calls), a, i) == Replayed(chip, u, a, i) <==>
        i != op.index || !MovesRegister(chip, t, op, a)
    {
      MissedOp(env, chip, t, op, a, i);
      SameLogSameReplay(chip, t, u, a, i);
      assert RegisterOf(After(chip, t.provider.calls), a, i) == Replayed(chip, t, a, i);
    }
    if Loses(env, chip, t, op) {
      var a :| a in chip.banks && Enabled(env.legacy, a) && MovesRegister(chip, t, op, a);
      assert RegisterOf(After(chip, u.provider.calls), a, op.index) != Replayed(chip, u, a, op.index);
    }
  }

  lemma MissedOpKeepsLog(env: Env, chip: Chip, t: Tracked, op: Op)
    requires IsBackend(chip, env.backend) && IsMissed(env, chip, t, op)
    ensures var u := TrackStep(env, t, op);
            u.marks == t.marks && Notifications(u.provider.effects) == Notifications(t.provider.effects)
  {
    hide Logs, Notifications, Frees, Category, Step, After, EventDigests, ValidChip;
    NotificationsOf(env, t.provider, op);
    EventCalls(env, chip, t.provider, op);
  }

  lemma StepIsExplained(env: Env, chip: Chip, t: Tracked, op: Op)
    requires IsBackend(chip, env.backend) && env.observed && ValidOp(env.legacy, op) && Explained(env.legacy, chip, t)
    ensures Explained(env.legacy, chip, TrackStep(env, t, op)) <==> !Loses(env, chip, t, op)
  {
    hide Explained, TrackStep, IsMissed, ValidChip, ValidOp, MovesRegister;
    match op
    case ExtendOp(_, _) =>
      OnlyEventsAreMissed(env, chip, t, op);
      ExtendOpIsExplained(env, chip, t, op);
    case EventOp(_, _) =>
      if IsMissed(env, chip, t, op) {
        MissedEventExplains(env, chip, t, op);
      } else {
        ExtendOpIsExplained(env, chip, t, op);
      }
    case ResetOp(_) =>
      OnlyEventsAreMissed(env, chip, t, op);
      ResetOpIsExplained(env, chip, t, op);
    case _ =>
      OnlyEventsAreMissed(env, chip, t, op);
      QuietOp(env, chip, t, op);
  }

  lemma OnlyEventsAreMissed(env: Env, chip: Chip, t: Tracked, op: Op)
    ensures IsMissed(env, chip, t, op) ==> op.EventOp? && chip.foreign != []
  {
  }

  // Whole runs.

  ghost predicate NothingIsLost(env: Env, chip: Chip, ops: seq<Op>)
    requires ValidChip(chip) && ValidOps(env.legacy, ops)
  {
    forall k :: 0 <= k < |ops| ==> !Loses(env, chip, TrackRun(env, ops[..k]), ops[k])
  }

  /** The log explains the registers at every moment of a run. */
  ghost predicate IsExplainedThroughout(env: Env, chip: Chip, ops: seq<Op>)
    requires ValidChip(chip) && ValidOps(env.legacy, ops)
  {
    forall k :: 0 <= k <= |ops| ==> Explained(env.legacy, chip, TrackRun(env, ops[..k]))
  }

  /**
    In every run of operations, the register of each active enabled bank is at every moment the replay of what the
    observer's log has about that PCR since its last successful reset, if and only if no event is executed while a bank
    is active that the library does not know and that changes one of those registers.
   */
  lemma {:induction false} LogReplaysExactly(env: Env, chip: Chip, ops: seq<Op>)
    requires IsBackend(chip, env.backend) && env.observed && ValidOps(env.legacy, ops)
    ensures IsExplainedThroughout(env, chip, ops) <==> NothingIsLost(env, chip, ops)
  {
    if ops == [] {
      NothingToExplain(env, chip);
      assert ops[..0] == [];
    } else {
      var n := |ops| - 1;
      var shorter := ops[..n];
      LastOfRun(env, ops);
      hide Explained, Loses, TrackRun, TrackStep, ValidChip, ValidOp, IsExplainedThroughout, NothingIsLost;
      LogReplaysExactly(env, chip, shorter);
      ThroughoutOneMore(env, chip, ops);
      LostOneMore(env, chip, ops);
      if IsExplainedThroughout(env, chip, shorter) {
        StepIsExplained(env, chip, TrackRun(env, shorter), ops[n]);
      }
    }
  }

  lemma LastOfRun(env: Env, ops: seq<Op>)
    requires ValidOps(env.legacy, ops) && ops != []
    ensures var n := |ops| - 1; TrackRun(env, ops) == TrackStep(env, TrackRun(env, ops[..n]), ops[n])
  {
    hide TrackStep;
  }

  lemma ThroughoutOneMore(env: Env, chip: Chip, ops: seq<Op>)
    requires ValidChip(chip) && ValidOps(env.legacy, ops) && ops != []
    ensures var shorter := ops[..|ops| - 1];
            && (IsExplainedThroughout(env, chip, shorter) ==> Explained(env.legacy, chip, TrackRun(env, shorter)))
            && (IsExplainedThroughout(env, chip, ops) <==>
                  IsExplainedThroughout(env, chip, shorter) && Explained(env.legacy, chip, TrackRun(env, ops)))
  {
    hide Explained, TrackRun, ValidChip, ValidOp;
    var n := |ops| - 1;
    var shorter := ops[..n];
    forall k | 0 <= k <= n ensures shorter[..k] == ops[..k] {}
    assert ops[..n + 1] == ops && shorter[..n] == shorter;
    if IsExplainedThroughout(env, chip, ops) {
      assert Explained(env.legacy, chip, TrackRun(env, ops[..n + 1]));
    }
  }

  lemma LostOneMore(env: Env, chip: Chip, ops: seq<Op>)
    requires ValidChip(chip) && ValidOps(env.legacy, ops) && ops != []
    ensures var n := |ops| - 1;
            NothingIsLost(env, chip, ops) <==>
              NothingIsLost(env, chip, ops[..n]) && !Loses(env, chip, TrackRun(env, ops[..n]), ops[n])
  {
    hide Loses, TrackRun, ValidChip, ValidOp;
    var n := |ops| - 1;
    forall k | 0 <= k <= n ensures ops[..n][..k] == ops[..k] {}
  }

  lemma NothingToExplain(env: Env, chip: Chip)
    requires ValidChip(chip)
    ensures Explained(env.legacy, chip, TrackRun(env, []))
  {
  }

  /** In particular, the log replays to the registers in every run of a TPM whose active banks are all known. */
  lemma LogReplaysToRegisters(env: Env, chip: Chip, ops: seq<Op>)
    requires IsBackend(chip, env.backend) && env.observed && ValidOps(env.legacy, ops)
    requires chip.foreign == [] || NothingIsLost(env, chip, ops)
    ensures Explained(env.legacy, chip, TrackRun(env, ops))
  {
    hide Explained, TrackRun, ValidChip;
    LogReplaysExactly(env, chip, ops);
    assert ops[..|ops|] == ops;
  }

  // A TPM on which the log fails: its hashes are constant, and it has an SM3 bank beside SHA-256.

  const ALG_SM3: AlgId := 0x0012

  function Ones(n: nat): (bytes: seq<byte>)
    ensures |bytes| == n
  {
    seq(n, _ => 1)
  }

  const MIXED_CHIP: Chip := Chip(
    (a: HashAlgorithm, data: seq<byte>) => Ones(DigestSize(a)),
    [Sha256],
    [ALG_SM3],
    (id: AlgId, data: seq<byte>) => Zeros(DIGEST_BUFFER_SIZE),
    map[Sha256 := seq(REGISTER_COUNT, _ => Zeros(DigestSize(Sha256)))],
    (a: HashAlgorithm, i: Index) => Zeros(DigestSize(a)),
    (calls: seq<Call>) => RC_SUCCESS,
    (calls: seq<Call>) => 0,
    (calls: seq<Call>) => AllocateResult(true, 0, 0, 0))

  lemma MixedChipHasBackend()
    ensures exists backend :: IsBackend(MIXED_CHIP, backend)
  {
    ghost var backend: Backend := calls => ReplyOf(MIXED_CHIP, calls);
    assert IsBackend(MIXED_CHIP, backend);
  }

  lemma MixedChipStart()
    ensures ValidChip(MIXED_CHIP)
    ensures RegisterOf(MIXED_CHIP.initial, Sha256, 0) != MIXED_CHIP.hash(Sha256, [])
    ensures forall a, x, y :: MIXED_CHIP.hash(a, x) == MIXED_CHIP.hash(a, y)
  {
    assert Ones(32)[0] != Zeros(32)[0];
  }

  lemma MixedChipMisses(env: Env, t: Tracked, op: Op)
    requires env.available && op == EventOp(0, [])
    ensures IsMissed(env, MIXED_CHIP, t, op)
  {
  }

  lemma UnknownBankBreaksReplay(env: Env)
    requires IsBackend(MIXED_CHIP, env.backend) && env.observed && env.available
    ensures !Explained(env.legacy, MIXED_CHIP, TrackRun(env, [EventOp(0, [])]))
  {
    var op := EventOp(0, []);
    var t := TrackRun(env, []);
    MixedChipStart();
    NothingToExplain(env, MIXED_CHIP);
    assert [op][..0] == [];
    LastOfRun(env, [op]);
    assert After(MIXED_CHIP, t.provider.calls) == MIXED_CHIP.initial;
    MixedChipMisses(env, t, op);
    hide ValidChip, Explained, TrackStep, TrackRun, RegisterOf, After, IsMissed;
    assert MovesRegister(MIXED_CHIP, t, op, Sha256);
    MissedEventExplains(env, MIXED_CHIP, t, op);
  }
}
