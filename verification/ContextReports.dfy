/**
  What a creation of a TPM context tells its caller, its log, the loader and the TPM, as a function of the first thing
  that goes wrong; and which events belong to which kind of creation.
 */
module ContextReports {
  import opened Common
  import opened ErrorTranslation
  import opened TctiStrings
  import opened UniqueOwner
  import opened Lifecycle
  import opened TpmContext

  // What a creation reports: its error, its log, and what it asks of the loader and the TPM.

  /**
    Something that a creation depends on, how many events are heard before it can fail, the record of the failure if
    there is one, and the error that is returned.
   */
  datatype Check = Check(passes: bool, after: nat, record: Option<LogEvent>, error: Error)

  /** A refused call is recorded with its code, and its error is the translation of that very code. */
  function Refusal(passes: bool, after: nat, operation: string, rc: TssRc): Check {
    Check(passes, after, Some(TssErrorLogged(operation, rc)), TranslatedError(rc))
  }

  function Complaint(passes: bool, after: nat, category: ErrorCategory, message: string): Check {
    Check(passes, after, None, Error(category, message))
  }

  function ModeCheck(mode: ModeValue): Check {
    Complaint(0 <= mode <= 2, 0, InputError, "TPM startup mode is invalid")
  }

  function EsysChecks(ready: nat, mode: ModeValue, esys: EsysCalls): seq<Check> {
    [Refusal(esys.initializeRc == 0, ready, "esys_initialize", esys.initializeRc),
     Refusal(mode == SKIP || esys.startupRc == 0 || esys.startupRc == 0x100, ready + 3, "esys_startup", esys.startupRc)]
  }

  /** What a creation depends on, in the order in which it finds out. */
  function ChecksOf(input: Input): seq<Check> {
    match input
    case ByConfig(config, mode, loader, esys) =>
      [ModeCheck(mode),
       Complaint(IsNameArgs(config), 0, InputError, "TCTI configuration must use name:args format"),
       Check(loader.infoRc == 0, 2, Some(TssErrorLogged("tcti_init", loader.infoRc)),
         Error(InputError, "Unknown TCTI name")),
       Refusal(loader.sizeRc == 0, 2, "tcti_init", loader.sizeRc),
       Complaint(loader.contextSize > 0, 2, BackendError, "TCTI loader returned invalid context size"),
       Complaint(loader.allocates, 2, ResourceError, "TCTI loader context allocation failed"),
       Refusal(loader.initRc == 0, 2, "tcti_init", loader.initRc)]
      + EsysChecks(3, mode, esys)
    case ByHandle(owned, mode, esys) =>
      [ModeCheck(mode),
       Complaint(owned.present, 0, InputError, "TCTI owned handle must not be null"),
       Complaint(owned.deleter, 0, InputError, "TCTI owned handle deleter must not be null")]
      + EsysChecks(2, mode, esys)
  }

  predicate PassesAt(checks: seq<Check>, j: nat) {
    j < |checks| && checks[j].passes
  }

  /** The checks before the k-th pass, and the k-th, if there is one, does not. */
  ghost predicate FailsAt(checks: seq<Check>, k: nat) {
    && k <= |checks|
    && (forall j :: 0 <= j < k ==> PassesAt(checks, j))
    && !PassesAt(checks, k)
  }

  function ResultOf(mode: ModeValue, startupRc: TssRc): string {
    if mode == SKIP then "skipped" else if startupRc == 0x100 then "already_initialized" else "ok"
  }

  /** What is heard of ESYS once the TCTI handle is there; a skipped startup asks nothing of the TPM. */
  function EsysTranscript(mode: ModeValue, startupRc: TssRc): seq<LifeEvent> {
    [Logged(EsysInitialized), Logged(StartupInvoked(mode))]
    + (if mode == SKIP then [] else [StartupSent(mode)])
    + [Logged(StartupCompleted(mode, ResultOf(mode, startupRc)))]
  }

  /** Everything that is heard of a creation that succeeds. */
  function TranscriptOf(input: Input): seq<LifeEvent> {
    match input
    case ByConfig(config, mode, _, esys) =>
      var name := SanitizedName(config);
      [Logged(TctiConfiguring("string", name)), InfoQueried(config[..FindColon(config)]),
       Logged(TctiConfigured("string", name))] + EsysTranscript(mode, esys.startupRc)
    case ByHandle(_, mode, esys) =>
      [Logged(TctiConfiguring("owned_handle", "<owned>")), Logged(TctiConfigured("owned_handle", "<owned>"))]
      + EsysTranscript(mode, esys.startupRc)
  }

  function Recorded(record: Option<LogEvent>): seq<LifeEvent> {
    if record.Some? then [Logged(record.value)] else []
  }

  /** What has to come of a creation whose k-th check is the first that fails, or that passes all of them. */
  ghost predicate ReportsWell(input: Input, c: Creation<bool>, k: nat)
    requires k <= |ChecksOf(input)|
  {
    var checks := ChecksOf(input);
    if k == |checks| then c.outcome == Ok(input.esys.handsOutContext) && Heard(c.life) == TranscriptOf(input)
    else
      && checks[k].after <= |TranscriptOf(input)|
      && c.outcome == Err(checks[k].error)
      && Heard(c.life) == TranscriptOf(input)[..checks[k].after] + Recorded(checks[k].record)
  }

  lemma EsysReports(life: seq<LifeEvent>, loaded: bool, mode: ModeValue, calls: EsysCalls)
    requires IsValidMode(mode)
    ensures var c := CreateFromTcti(life, loaded, mode, calls);
            var asked := [Logged(EsysInitialized), Logged(StartupInvoked(mode)), StartupSent(mode)];
            if calls.initializeRc != 0 then
              c.outcome == Err(TranslatedError(calls.initializeRc))
                && Heard(c.life) == Heard(life) + [Logged(TssErrorLogged("esys_initialize", calls.initializeRc))]
            else if mode != SKIP && calls.startupRc != 0 && calls.startupRc != 0x100 then
              c.outcome == Err(TranslatedError(calls.startupRc))
                && Heard(c.life) == Heard(life) + asked + [Logged(TssErrorLogged("esys_startup", calls.startupRc))]
            else
              c.outcome == Ok(calls.handsOutContext)
                && Heard(c.life) == Heard(life) + EsysTranscript(mode, calls.startupRc)
  {
    hide Heard, Monitor, Then, TranslatedError, InitializeEsys, StartTpm;
    InitializeHeard(life, calls);
    var esys := InitializeEsys(life, calls);
    match esys.outcome
    case Err(_) => HeardThen(esys.life, TctiRelease(loaded));
    case Ok(context) =>
      StartHeard(esys.life, mode, calls);
      var started := StartTpm(esys.life, mode, calls);
      HeardThen(started.life, EsysFinalized);
      HeardThen(FinalizeEsys(started.life, context), TctiRelease(loaded));
  }

  lemma InitializeHeard(life: seq<LifeEvent>, calls: EsysCalls)
    ensures var c := InitializeEsys(life, calls);
            if calls.initializeRc != 0 then
              c.outcome == Err(TranslatedError(calls.initializeRc))
                && Heard(c.life) == Heard(life) + [Logged(TssErrorLogged("esys_initialize", calls.initializeRc))]
            else c.outcome == Ok(calls.handsOutContext) && Heard(c.life) == Heard(life) + [Logged(EsysInitialized)]
  {
    hide Heard, Monitor, Then, TranslatedError;
    HeardThen(life, Logged(TssErrorLogged("esys_initialize", calls.initializeRc)));
    HeardThen(life, EsysAcquired);
    HeardThen(if calls.handsOutContext then Then(life, EsysAcquired) else life, Logged(EsysInitialized));
  }

  lemma StartHeard(life: seq<LifeEvent>, mode: ModeValue, calls: EsysCalls)
    requires IsValidMode(mode)
    ensures var c := StartTpm(life, mode, calls);
            var asked := [Logged(StartupInvoked(mode))] + (if mode == SKIP then [] else [StartupSent(mode)]);
            if mode != SKIP && calls.startupRc != 0 && calls.startupRc != 0x100 then
              c.outcome == Err(TranslatedError(calls.startupRc))
                && Heard(c.life) == Heard(life) + asked + [Logged(TssErrorLogged("esys_startup", calls.startupRc))]
            else
              c.outcome == Ok(())
                && Heard(c.life) == Heard(life) + asked
                     + [Logged(StartupCompleted(mode, ResultOf(mode, calls.startupRc)))]
  {
    hide Heard, Monitor, Then, TranslatedError;
    var invoked := Then(life, Logged(StartupInvoked(mode)));
    var sent := Then(invoked, StartupSent(mode));
    var completed := Logged(StartupCompleted(mode, ResultOf(mode, calls.startupRc)));
    HeardThen(life, Logged(StartupInvoked(mode)));
    HeardThen(invoked, StartupSent(mode));
    HeardThen(invoked, completed);
    HeardThen(sent, completed);
    HeardThen(sent, Logged(TssErrorLogged("esys_startup", calls.startupRc)));
  }

  /** The first failure of a load: nothing, a record with a code, or a complaint without one. */
  ghost predicate LoadReportsWell(heard: seq<LifeEvent>, config: string, calls: LoaderCalls, c: Creation<()>) {
    var asked := heard + [InfoQueried(config[..FindColon(config)])];
    if !IsNameArgs(config) then c.outcome == Err(TCTI_INVALID) && Heard(c.life) == heard
    else if calls.infoRc != 0 then
      c.outcome == Err(Error(InputError, "Unknown TCTI name"))
        && Heard(c.life) == asked + [Logged(TssErrorLogged("tcti_init", calls.infoRc))]
    else if calls.sizeRc != 0 then
      c.outcome == Err(TranslatedError(calls.sizeRc))
        && Heard(c.life) == asked + [Logged(TssErrorLogged("tcti_init", calls.sizeRc))]
    else if calls.contextSize == 0 then
      c.outcome == Err(Error(BackendError, "TCTI loader returned invalid context size")) && Heard(c.life) == asked
    else if !calls.allocates then
      c.outcome == Err(Error(ResourceError, "TCTI loader context allocation failed")) && Heard(c.life) == asked
    else if calls.initRc != 0 then
      c.outcome == Err(TranslatedError(calls.initRc))
        && Heard(c.life) == asked + [Logged(TssErrorLogged("tcti_init", calls.initRc))]
    else c.outcome == Ok(()) && Heard(c.life) == asked
  }

  lemma ReleaseIsSilent(life: seq<LifeEvent>, initialised: bool)
    ensures Heard(ReleaseFailedInit(life, initialised)) == Heard(life)
  {
    hide Heard, Monitor, Then;
    HeardThen(life, LoaderFinalized(initialised));
    HeardThen(Then(life, LoaderFinalized(false)), StorageFreed);
  }

  lemma AllocationReports(life: seq<LifeEvent>, calls: LoaderCalls)
    ensures var c := Allocate(life, calls);
            if calls.sizeRc != 0 then
              c.outcome == Err(TranslatedError(calls.sizeRc))
                && Heard(c.life) == Heard(life) + [Logged(TssErrorLogged("tcti_init", calls.sizeRc))]
            else
              && Heard(c.life) == Heard(life)
              && c.outcome ==
                   if calls.contextSize == 0
                   then Err(Error(BackendError, "TCTI loader returned invalid context size"))
                   else if !calls.allocates
                   then Err(Error(ResourceError, "TCTI loader context allocation failed"))
                   else Ok(())
  {
    hide Heard, Monitor, Then, TranslatedError;
    HeardThen(life, Logged(TssErrorLogged("tcti_init", calls.sizeRc)));
    HeardThen(life, TctiAcquired);
  }

  lemma LoadReports(life: seq<LifeEvent>, config: string, calls: LoaderCalls)
    ensures LoadReportsWell(Heard(life), config, calls, LoadTcti(life, config, calls))
  {
    hide Heard, Monitor, Then, TranslatedError, ValidateTcti, ReleaseFailedInit, IsNameArgs, Allocate;
    AcceptedStrings(config);
    InvalidStrings(config);
    var query := InfoQueried(config[..FindColon(config)]);
    var asked := Then(Then(life, query), InfoFreed);
    HeardThen(life, query);
    HeardThen(Then(life, query), InfoFreed);
    assert Heard(asked) == Heard(life) + [query];
    if calls.infoRc != 0 {
      HeardThen(asked, Logged(TssErrorLogged("tcti_init", calls.infoRc)));
    } else {
      AllocationReports(asked, calls);
      var stored := Allocate(asked, calls).life;
      var failed := Then(stored, Logged(TssErrorLogged("tcti_init", calls.initRc)));
      HeardThen(stored, Logged(TssErrorLogged("tcti_init", calls.initRc)));
      ReleaseIsSilent(failed, calls.leavesInitialised);
    }
  }

  lemma InvalidStrings(config: string)
    ensures ValidateTcti(config).Err? ==> ValidateTcti(config).error == TCTI_INVALID
  {
    hide Trim;
  }

  lemma ConfiguringHeard(name: string)
    ensures Heard(Configuring(name)) == if name != "" then [Logged(TctiConfiguring("string", name))] else []
  {
    hide Heard, Monitor, Then;
    HeardThen([], Logged(TctiConfiguring("string", name)));
    NothingHeard();
  }

  lemma NothingHeard()
    ensures Heard([]) == []
  {
  }

  /** Which of the checks fails first, from the results alone. */
  lemma FirstConfigFailure(config: string, mode: ModeValue, loader: LoaderCalls, esys: EsysCalls, k: nat)
    requires FailsAt(ChecksOf(ByConfig(config, mode, loader, esys)), k)
    ensures k ==
      if !IsValidMode(mode) then 0
      else if !IsNameArgs(config) then 1
      else if loader.infoRc != 0 then 2
      else if loader.sizeRc != 0 then 3
      else if loader.contextSize == 0 then 4
      else if !loader.allocates then 5
      else if loader.initRc != 0 then 6
      else if esys.initializeRc != 0 then 7
      else if mode != SKIP && esys.startupRc != 0 && esys.startupRc != 0x100 then 8
      else 9
  {
    hide TranslatedError, IsNameArgs;
    var checks := ChecksOf(ByConfig(config, mode, loader, esys));
    assert k > 0 ==> PassesAt(checks, 0);
    assert k > 1 ==> PassesAt(checks, 1);
    assert k > 2 ==> PassesAt(checks, 2);
    assert k > 3 ==> PassesAt(checks, 3);
    assert k > 4 ==> PassesAt(checks, 4);
    assert k > 5 ==> PassesAt(checks, 5);
    assert k > 6 ==> PassesAt(checks, 6);
    assert k > 7 ==> PassesAt(checks, 7);
    assert k > 8 ==> PassesAt(checks, 8);
  }

  lemma ConfigCreationReports(config: string, mode: ModeValue, loader: LoaderCalls, esys: EsysCalls, k: nat)
    requires FailsAt(ChecksOf(ByConfig(config, mode, loader, esys)), k)
    ensures ReportsWell(ByConfig(config, mode, loader, esys), CreateFromConfig(config, mode, loader, esys), k)
  {
    hide Heard, Monitor, Then, TranslatedError, LoadTcti, CreateFromTcti, SanitizedName, Configuring, IsNameArgs,
      FailsAt, EsysTranscript;
    FirstConfigFailure(config, mode, loader, esys, k);
    NothingHeard();
    if IsValidMode(mode) {
      var name := SanitizedName(config);
      SanitizedNameIsSafe(config);
      AcceptedStrings(config);
      ConfiguringHeard(name);
      LoadReports(Configuring(name), config, loader);
      if LoadTcti(Configuring(name), config, loader).outcome.Ok? {
        LoadedCreationReports(config, mode, loader, esys, k);
      }
    }
  }

  lemma LoadedCreationReports(config: string, mode: ModeValue, loader: LoaderCalls, esys: EsysCalls, k: nat)
    requires FailsAt(ChecksOf(ByConfig(config, mode, loader, esys)), k) && IsValidMode(mode)
    requires LoadTcti(Configuring(SanitizedName(config)), config, loader).outcome.Ok?
    ensures ReportsWell(ByConfig(config, mode, loader, esys), CreateFromConfig(config, mode, loader, esys), k)
  {
    hide Heard, Monitor, Then, TranslatedError, LoadTcti, CreateFromTcti, SanitizedName, Configuring, IsNameArgs,
      FailsAt;
    FirstConfigFailure(config, mode, loader, esys, k);
    var name := SanitizedName(config);
    SanitizedNameIsSafe(config);
    AcceptedStrings(config);
    ConfiguringHeard(name);
    LoadReports(Configuring(name), config, loader);
    var loaded := LoadTcti(Configuring(name), config, loader);
    HeardThen(loaded.life, Logged(TctiConfigured("string", name)));
    EsysReports(Then(loaded.life, Logged(TctiConfigured("string", name))), true, mode, esys);
  }

  lemma DroppingIsSilent(life: seq<LifeEvent>, owned: OwnedHandle)
    ensures Heard(DropHandle(life, owned)) == Heard(life) && Heard(HandedIn(owned)) == []
  {
    hide Heard, Monitor, Then;
    HeardThen(life, OwnerDeleterCalled);
    HeardThen(life, NullDeleterCalled);
    HeardThen([], TctiAcquired);
    NothingHeard();
  }

  lemma FirstOwnedFailure(owned: OwnedHandle, mode: ModeValue, esys: EsysCalls, k: nat)
    requires FailsAt(ChecksOf(ByHandle(owned, mode, esys)), k)
    ensures k ==
      if !IsValidMode(mode) then 0
      else if !owned.present then 1
      else if !owned.deleter then 2
      else if esys.initializeRc != 0 then 3
      else if mode != SKIP && esys.startupRc != 0 && esys.startupRc != 0x100 then 4
      else 5
  {
    hide TranslatedError;
    var checks := ChecksOf(ByHandle(owned, mode, esys));
    assert k > 0 ==> PassesAt(checks, 0);
    assert k > 1 ==> PassesAt(checks, 1);
    assert k > 2 ==> PassesAt(checks, 2);
    assert k > 3 ==> PassesAt(checks, 3);
    assert k > 4 ==> PassesAt(checks, 4);
  }

  lemma OwnedCreationReports(owned: OwnedHandle, mode: ModeValue, esys: EsysCalls, k: nat)
    requires FailsAt(ChecksOf(ByHandle(owned, mode, esys)), k)
    ensures ReportsWell(ByHandle(owned, mode, esys), CreateFromOwned(owned, mode, esys), k)
  {
    hide Heard, Monitor, Then, TranslatedError, CreateFromTcti, FailsAt, HandedIn, DropHandle, EsysTranscript;
    FirstOwnedFailure(owned, mode, esys, k);
    var given := HandedIn(owned);
    DroppingIsSilent(given, owned);
    if IsValidMode(mode) && owned.present && owned.deleter {
      AcceptedHandleReports(owned, mode, esys, k);
    } else {
      HeardThen(given, HandleForgotten);
    }
  }

  lemma AcceptedHandleReports(owned: OwnedHandle, mode: ModeValue, esys: EsysCalls, k: nat)
    requires FailsAt(ChecksOf(ByHandle(owned, mode, esys)), k)
    requires IsValidMode(mode) && owned.present && owned.deleter
    ensures ReportsWell(ByHandle(owned, mode, esys), CreateFromOwned(owned, mode, esys), k)
  {
    hide Heard, Monitor, Then, TranslatedError, CreateFromTcti, FailsAt, HandedIn, DropHandle;
    FirstOwnedFailure(owned, mode, esys, k);
    var given := HandedIn(owned);
    var configuring := Then(given, Logged(TctiConfiguring("owned_handle", "<owned>")));
    var configured := Then(configuring, Logged(TctiConfigured("owned_handle", "<owned>")));
    DroppingIsSilent(given, owned);
    HeardThen(given, Logged(TctiConfiguring("owned_handle", "<owned>")));
    HeardThen(configuring, Logged(TctiConfigured("owned_handle", "<owned>")));
    EsysReports(configured, false, mode, esys);
  }

  /** There is exactly one check that fails first, or all of them pass. */
  lemma {:induction false} OneCheckDecides(checks: seq<Check>) returns (k: nat)
    ensures FailsAt(checks, k)
    ensures forall m: nat :: FailsAt(checks, m) ==> m == k
  {
    if !PassesAt(checks, 0) {
      k := 0;
    } else {
      var n := OneCheckDecides(checks[1..]);
      k := n + 1;
      assert forall j: nat :: PassesAt(checks, j + 1) <==> PassesAt(checks[1..], j);
      forall j | 0 <= j < k ensures PassesAt(checks, j) {
        assert j > 0 ==> PassesAt(checks[1..], j - 1);
      }
    }
  }

  /**
    Whatever the foreign calls return: a creation that passes all checks yields the context that ESYS handed out and is
    heard in full; one that fails returns the error of the first check that fails, is heard as far as that check, and
    then in the record of the refused code, if it was a code.
   */
  lemma CreationReports(input: Input, k: nat)
    requires FailsAt(ChecksOf(input), k)
    ensures ReportsWell(input, CreateFrom(input), k)
  {
    match input
    case ByConfig(config, mode, loader, esys) => ConfigCreationReports(config, mode, loader, esys, k);
    case ByHandle(owned, mode, esys) => OwnedCreationReports(owned, mode, esys, k);
  }

  // Which events belong to which kind of creation.

  predicate Accounts(input: Input, e: LifeEvent) {
    match e
    case InfoQueried(_) => input.ByConfig?
    case InfoFreed => input.ByConfig?
    case TctiAcquired => input.ByConfig? || GivesHandle(input)
    case LoaderFinalized(freed) =>
      input.ByConfig? && freed == (input.loader.initRc == 0 || input.loader.leavesInitialised)
    case StorageFreed => input.ByConfig? && input.loader.initRc != 0 && !input.loader.leavesInitialised
    case OwnerDeleterCalled => GivesHandle(input)
    case NullDeleterCalled => input.ByHandle? && DropsNullDeleter(input.owned, input.mode)
    case HandleForgotten =>
      input.ByHandle? && IsValidMode(input.mode) && input.owned.present && !input.owned.deleter
    case EsysAcquired => input.esys.handsOutContext
    case EsysFinalized => input.esys.handsOutContext
    case _ => true
  }

  predicate AllAccounted(input: Input, life: seq<LifeEvent>) {
    forall e :: e in life ==> Accounts(input, e)
  }

  lemma AccountThen(input: Input, life: seq<LifeEvent>, e: LifeEvent)
    ensures AllAccounted(input, Then(life, e)) <==> AllAccounted(input, life) && Accounts(input, e)
  {
    hide Monitor, Accounts;
    assert e in Then(life, e) && forall x :: x in life ==> x in Then(life, e);
  }

  lemma FromTctiIsAccounted(input: Input, life: seq<LifeEvent>, loaded: bool)
    requires AllAccounted(input, life)
    requires if loaded then input.ByConfig? && input.loader.initRc == 0 else GivesHandle(input)
    ensures AllAccounted(input, CreateFromTcti(life, loaded, input.mode, input.esys).life)
  {
    hide Monitor, Then, TranslatedError, AllAccounted, InitializeEsys, StartTpm;
    InitializeIsAccounted(input, life);
    var esys := InitializeEsys(life, input.esys);
    match esys.outcome
    case Err(_) => AccountThen(input, esys.life, TctiRelease(loaded));
    case Ok(context) =>
      StartIsAccounted(input, esys.life);
      var started := StartTpm(esys.life, input.mode, input.esys);
      AccountThen(input, started.life, EsysFinalized);
      AccountThen(input, FinalizeEsys(started.life, context), TctiRelease(loaded));
  }

  lemma InitializeIsAccounted(input: Input, life: seq<LifeEvent>)
    requires AllAccounted(input, life)
    ensures var c := InitializeEsys(life, input.esys);
            AllAccounted(input, c.life) && (c.outcome.Ok? ==> c.outcome.value == input.esys.handsOutContext)
  {
    hide Monitor, Then, TranslatedError, AllAccounted;
    var calls := input.esys;
    AccountThen(input, life, Logged(TssErrorLogged("esys_initialize", calls.initializeRc)));
    AccountThen(input, life, EsysAcquired);
    AccountThen(input, if calls.handsOutContext then Then(life, EsysAcquired) else life, Logged(EsysInitialized));
  }

  lemma StartIsAccounted(input: Input, life: seq<LifeEvent>)
    requires AllAccounted(input, life)
    ensures AllAccounted(input, StartTpm(life, input.mode, input.esys).life)
  {
    hide Monitor, TranslatedError, Accounts;
    assert forall entry :: Accounts(input, Logged(entry)) by { LogsAreAccounted(input); }
    assert forall t :: Accounts(input, StartupSent(t)) by { LogsAreAccounted(input); }
  }

  lemma LogsAreAccounted(input: Input)
    ensures forall entry :: Accounts(input, Logged(entry))
    ensures forall startupType :: Accounts(input, StartupSent(startupType))
  {
  }

  lemma LoadIsAccounted(input: Input, life: seq<LifeEvent>)
    requires input.ByConfig? && AllAccounted(input, life)
    ensures AllAccounted(input, LoadTcti(life, input.config, input.loader).life)
  {
    hide Monitor, Then, TranslatedError, ValidateTcti, TctiName, AllAccounted;
    var calls := input.loader;
    match ValidateTcti(input.config)
    case Err(_) =>
    case Ok(conf) =>
      var queried := Then(life, InfoQueried(TctiName(conf)));
      var asked := Then(queried, InfoFreed);
      var failed := Logged(TssErrorLogged("tcti_init", calls.initRc));
      AccountThen(input, life, InfoQueried(TctiName(conf)));
      AccountThen(input, queried, InfoFreed);
      AccountThen(input, asked, Logged(TssErrorLogged("tcti_init", calls.infoRc)));
      AccountThen(input, asked, Logged(TssErrorLogged("tcti_init", calls.sizeRc)));
      AccountThen(input, asked, TctiAcquired);
      AccountThen(input, Then(asked, TctiAcquired), failed);
      var logged := Then(Then(asked, TctiAcquired), failed);
      AccountThen(input, logged, LoaderFinalized(calls.leavesInitialised));
      AccountThen(input, Then(logged, LoaderFinalized(false)), StorageFreed);
  }

  lemma CreationIsAccounted(input: Input)
    ensures AllAccounted(input, CreateFrom(input).life)
  {
    hide Monitor, Then, TranslatedError, AllAccounted, CreateFromTcti, LoadTcti, SanitizedName;
    NothingIsAccounted(input);
    match input
    case ByConfig(config, mode, loader, esys) =>
      if IsValidMode(mode) {
        var name := SanitizedName(config);
        AccountThen(input, [], Logged(TctiConfiguring("string", name)));
        LoadIsAccounted(input, Configuring(name));
        var loaded := LoadTcti(Configuring(name), config, loader);
        if loaded.outcome.Ok? {
          AccountThen(input, loaded.life, Logged(TctiConfigured("string", name)));
          LoadedMeansInitialised(Configuring(name), config, loader);
          FromTctiIsAccounted(input, Then(loaded.life, Logged(TctiConfigured("string", name))), true);
        }
      }
    case ByHandle(owned, mode, esys) =>
      var given := HandedIn(owned);
      var configuring := Then(given, Logged(TctiConfiguring("owned_handle", "<owned>")));
      AccountThen(input, [], TctiAcquired);
      AccountThen(input, given, OwnerDeleterCalled);
      AccountThen(input, given, NullDeleterCalled);
      AccountThen(input, given, HandleForgotten);
      AccountThen(input, given, Logged(TctiConfiguring("owned_handle", "<owned>")));
      AccountThen(input, configuring, Logged(TctiConfigured("owned_handle", "<owned>")));
      if IsValidMode(mode) && owned.present && owned.deleter {
        FromTctiIsAccounted(input, Then(configuring, Logged(TctiConfigured("owned_handle", "<owned>"))), false);
      }
  }

  lemma HandleIsForgotten(owned: OwnedHandle, mode: ModeValue, esys: EsysCalls)
    requires IsValidMode(mode) && owned.present && !owned.deleter
    ensures CreateFromOwned(owned, mode, esys).life == [HandleForgotten]
  {
    hide Monitor;
  }

  /** A handle is given up without release exactly if it comes without deleter and with a valid mode. */
  lemma ForgottenExactly(owned: OwnedHandle, mode: ModeValue, esys: EsysCalls)
    ensures HandleForgotten in CreateFromOwned(owned, mode, esys).life <==>
      IsValidMode(mode) && owned.present && !owned.deleter
  {
    hide CreateFromOwned;
    CreationIsAccounted(ByHandle(owned, mode, esys));
    if IsValidMode(mode) && owned.present && !owned.deleter {
      HandleIsForgotten(owned, mode, esys);
    }
  }

  lemma NothingIsAccounted(input: Input)
    ensures AllAccounted(input, [])
  {
  }

  lemma LoadedMeansInitialised(life: seq<LifeEvent>, config: string, calls: LoaderCalls)
    requires LoadTcti(life, config, calls).outcome.Ok?
    ensures calls.initRc == 0
  {
    hide Monitor, Then, TranslatedError, ValidateTcti;
  }

  lemma DeathIsAccounted(input: Input)
    ensures CreateFrom(input).outcome.Ok? ==>
      AllAccounted(input, DeathOf(input.ByConfig?, CreateFrom(input).outcome.value))
  {
    hide CreateFrom, Accounts;
    SuccessfulInput(input);
    if CreateFrom(input).outcome.Ok? {
      var loaded, context := input.ByConfig?, CreateFrom(input).outcome.value;
      assert forall e :: e in DeathOf(loaded, context) ==>
        e == Logged(ContextFinalized) || (context && e == EsysFinalized) || e == TctiRelease(loaded);
      DeathEventsAreAccounted(input, loaded);
    }
  }

  lemma DeathEventsAreAccounted(input: Input, loaded: bool)
    requires if loaded then input.ByConfig? && input.loader.initRc == 0 else GivesHandle(input)
    ensures Accounts(input, Logged(ContextFinalized)) && Accounts(input, TctiRelease(loaded))
    ensures input.esys.handsOutContext ==> Accounts(input, EsysFinalized)
  {
  }

  lemma AccountBoth(input: Input, a: seq<LifeEvent>, b: seq<LifeEvent>)
    requires AllAccounted(input, a) && AllAccounted(input, b)
    ensures AllAccounted(input, a + b)
  {
    hide Accounts;
  }

  lemma PlanIsAccounted(input: Input)
    ensures AllAccounted(input, PlanOf(input).birth + PlanOf(input).death)
  {
    hide AllAccounted, DeathOf, CreateFrom;
    CreationIsAccounted(input);
    NothingIsAccounted(input);
    DeathIsAccounted(input);
    AccountBoth(input, PlanOf(input).birth, PlanOf(input).death);
  }

  lemma SuccessfulInput(input: Input)
    ensures CreateFrom(input).outcome.Ok? ==>
              && CreateFrom(input).outcome.value == input.esys.handsOutContext
              && if input.ByConfig? then input.loader.initRc == 0 else GivesHandle(input)
  {
    hide CreateFrom, SanitizedName, Heard, TranscriptOf, IsNameArgs, TranslatedError;
    var k := OneCheckDecides(ChecksOf(input));
    CreationReports(input, k);
    if CreateFrom(input).outcome.Ok? {
      assert input.ByConfig? ==> PassesAt(ChecksOf(input), 6);
      assert input.ByHandle? ==> PassesAt(ChecksOf(input), 1) && PassesAt(ChecksOf(input), 2);
    }
  }

  /**
    At every moment of every run: loader storage is only ever released by the loader, and finalised according to what
    its initialisation left; a handle of the caller only by its deleter; it is forgotten only without one; and an ESYS
    context is acquired and finalised only if one was handed out.
   */
  lemma EachHandleHasItsOwnRelease(trace: seq<World<LifeEvent>>, ops: seq<Op<LifeEvent>>, inputs: seq<Input>, k: nat,
      creation: nat, j: nat)
    requires IsContextRun(trace, ops, inputs) && k <= |ops| && creation < |trace[k].plans|
    requires j < |ops| && MadeFrom(trace[k], creation, ops[j], inputs[j])
    ensures AllAccounted(inputs[j], EventsOf(trace[k].ledger, creation))
  {
    hide EventsOf, HasOwner, Accounts;
    RunsKeepInvariant(trace, ops, k);
    assert IsAccounted(trace[k], creation);
    hide CreateFrom, DeathOf;
    PlanIsAccounted(inputs[j]);
    var plan := PlanOf(inputs[j]);
    assert forall e :: e in plan.birth ==> e in plan.birth + plan.death;
  }
}
