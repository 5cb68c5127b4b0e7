/**
  Creation, startup and teardown of a TPM context, through the TCTI loader or around a handle that the caller owns. The
  foreign calls are parameters: whatever they return, the events that follow are determined.
 */
module TpmContext {
  import opened Common
  import opened ErrorTranslation
  import opened TctiStrings
  import opened UniqueOwner
  import opened Lifecycle

  const RC_INITIALIZE: TssRc := 0x100

  /** The results of the loader's calls: info query, both initialisations, and the allocation between them. */
  datatype LoaderCalls = LoaderCalls(
    infoRc: TssRc,
    sizeRc: TssRc,
    contextSize: nat,
    allocates: bool,
    initRc: TssRc,
    /** Whether a failing second initialisation leaves storage that Finalize recognises as initialised. */
    leavesInitialised: bool)

  /** The results of Esys_Initialize and Esys_Startup; a successful initialisation may still hand out no context. */
  datatype EsysCalls = EsysCalls(initializeRc: TssRc, handsOutContext: bool, startupRc: TssRc)

  /** A handle as the caller passes it: present or null, with a deleter or without. */
  datatype OwnedHandle = OwnedHandle(present: bool, deleter: bool)

  datatype Creation<T> = Creation(life: seq<LifeEvent>, outcome: Outcome<T>)

  function Failing<T>(life: seq<LifeEvent>, operation: string, rc: TssRc): Creation<T> {
    Creation(Then(life, Logged(TssErrorLogged(operation, rc))), Err(TranslatedError(rc)))
  }

  /** The deleter of storage whose initialisation did not succeed: finalise it, then free what finalising has left. */
  function ReleaseFailedInit(life: seq<LifeEvent>, initialised: bool): seq<LifeEvent> {
    if initialised then Then(life, LoaderFinalized(true)) else Then(Then(life, LoaderFinalized(false)), StorageFreed)
  }

  function Allocate(life: seq<LifeEvent>, calls: LoaderCalls): Creation<()> {
    if calls.sizeRc != RC_SUCCESS then Failing(life, "tcti_init", calls.sizeRc)
    else if calls.contextSize == 0
      then Creation(life, Err(Error(BackendError, "TCTI loader returned invalid context size")))
    else if !calls.allocates then Creation(life, Err(Error(ResourceError, "TCTI loader context allocation failed")))
    else Creation(Then(life, TctiAcquired), Ok(()))
  }

  /** The part in front of the first colon. */
  function TctiName(conf: string): string {
    conf[..FindColon(conf)]
  }

  function LoadTcti(life: seq<LifeEvent>, config: string, calls: LoaderCalls): Creation<()> {
    match ValidateTcti(config)
    case Err(e) => Creation(life, Err(e))
    case Ok(conf) =>
      var asked := Then(Then(life, InfoQueried(TctiName(conf))), InfoFreed);
      if calls.infoRc != RC_SUCCESS then
        Creation(Then(asked, Logged(TssErrorLogged("tcti_init", calls.infoRc))),
          Err(Error(InputError, "Unknown TCTI name")))
      else
        var storage := Allocate(asked, calls);
        if storage.outcome.Err? then storage
        else if calls.initRc != RC_SUCCESS then
          var failed: Creation<()> := Failing(storage.life, "tcti_init", calls.initRc);
          failed.(life := ReleaseFailedInit(failed.life, calls.leavesInitialised))
        else storage
  }

  function InitializeEsys(life: seq<LifeEvent>, calls: EsysCalls): Creation<bool> {
    if calls.initializeRc != RC_SUCCESS then Failing(life, "esys_initialize", calls.initializeRc)
    else
      Creation(Then(if calls.handsOutContext then Then(life, EsysAcquired) else life, Logged(EsysInitialized)),
        Ok(calls.handsOutContext))
  }

  /** TPM2_SU_STATE and TPM2_SU_CLEAR */
  function StartupType(mode: ModeValue): int {
    if mode == STATE then 1 else 0
  }

  function StartTpm(life: seq<LifeEvent>, mode: ModeValue, calls: EsysCalls): Creation<()> {
    var invoked := Then(life, Logged(StartupInvoked(mode)));
    var sent := Then(invoked, StartupSent(StartupType(mode)));
    if mode == SKIP then Creation(Then(invoked, Logged(StartupCompleted(mode, "skipped"))), Ok(()))
    else if calls.startupRc != RC_SUCCESS && calls.startupRc != RC_INITIALIZE
      then Failing(sent, "esys_startup", calls.startupRc)
    else
      Creation(Then(sent, Logged(StartupCompleted(mode, if calls.startupRc == RC_INITIALIZE
        then "already_initialized" else "ok"))), Ok(()))
  }

  function FinalizeEsys(life: seq<LifeEvent>, context: bool): seq<LifeEvent> {
    if context then Then(life, EsysFinalized) else life
  }

  /** What releases a TCTI handle: the caller's deleter, or the loader's finalizer on initialised storage. */
  function TctiRelease(loaded: bool): LifeEvent {
    if loaded then LoaderFinalized(true) else OwnerDeleterCalled
  }

  /** Locals are destroyed in reverse order, so a failing creation finalises ESYS before it releases the TCTI handle. */
  function CreateFromTcti(life: seq<LifeEvent>, loaded: bool, mode: ModeValue, calls: EsysCalls): Creation<bool> {
    var esys := InitializeEsys(life, calls);
    match esys.outcome
    case Err(e) => Creation(Then(esys.life, TctiRelease(loaded)), Err(e))
    case Ok(context) =>
      var started := StartTpm(esys.life, mode, calls);
      match started.outcome
      case Err(e) => Creation(Then(FinalizeEsys(started.life, context), TctiRelease(loaded)), Err(e))
      case Ok(_) => Creation(started.life, Ok(context))
  }

  /** The destructor of the implementation: its log record, then its members in reverse order of declaration. */
  function Teardown(life: seq<LifeEvent>, loaded: bool, context: bool): seq<LifeEvent> {
    Then(FinalizeEsys(Then(life, Logged(ContextFinalized)), context), TctiRelease(loaded))
  }

  function Configuring(name: string): seq<LifeEvent> {
    if name != "" then Then([], Logged(TctiConfiguring("string", name))) else []
  }

  function CreateFromConfig(config: string, mode: ModeValue, loader: LoaderCalls, esys: EsysCalls): Creation<bool> {
    if !IsValidMode(mode) then Creation([], Err(STARTUP_INVALID))
    else
      var name := SanitizedName(config);
      var resolved := LoadTcti(Configuring(name), config, loader);
      match resolved.outcome
      case Err(e) => Creation(resolved.life, Err(e))
      case Ok(_) => CreateFromTcti(Then(resolved.life, Logged(TctiConfigured("string", name))), true, mode, esys)
  }

  /**
    The life of a handle that the caller hands in starts before any check; handles without a deleter are the caller's.
   */
  function HandedIn(owned: OwnedHandle): seq<LifeEvent> {
    if owned.present && owned.deleter then Then([], TctiAcquired) else []
  }

  /** What destroying the owning parameter does: a present handle's deleter is called, even if it is null. */
  function DropHandle(life: seq<LifeEvent>, owned: OwnedHandle): seq<LifeEvent> {
    if !owned.present then life
    else if owned.deleter then Then(life, OwnerDeleterCalled)
    else Then(life, NullDeleterCalled)
  }

  function CreateFromOwned(owned: OwnedHandle, mode: ModeValue, esys: EsysCalls): Creation<bool> {
    var given := HandedIn(owned);
    if !IsValidMode(mode) then Creation(DropHandle(given, owned), Err(STARTUP_INVALID))
    else if !owned.present then Creation(given, Err(Error(InputError, "TCTI owned handle must not be null")))
    else if !owned.deleter then Creation(Then(given, HandleForgotten),
      Err(Error(InputError, "TCTI owned handle deleter must not be null")))
    else
      var configured := Then(Then(given, Logged(TctiConfiguring("owned_handle", "<owned>"))),
        Logged(TctiConfigured("owned_handle", "<owned>")));
      CreateFromTcti(configured, false, mode, esys)
  }

  class Factory {
    var life: seq<LifeEvent>

    constructor ()
      ensures life == []
    {
      life := [];
    }

    method Emit(e: LifeEvent)
      modifies this
      ensures life == Then(old(life), e)
    {
      life := life + [e];
    }

    method TranslateAndLog(operation: string, rc: TssRc) returns (e: Error)
      modifies this
      ensures Creation(life, Err(e)) == Failing<()>(old(life), operation, rc)
    {
      var category := TranslateLayerBase(Layer(rc), Base(rc, Layer(rc)));
      Emit(Logged(TssErrorLogged(operation, rc)));
      e := Error(category, Message(category));
    }

    /** The storage is freed here only if finalising has not already freed and cleared it. */
    method ReleaseFailed(initialised: bool)
      modifies this
      ensures life == ReleaseFailedInit(old(life), initialised)
    {
      Emit(LoaderFinalized(initialised));
      var cleanupContext := !initialised;
      if cleanupContext {
        Emit(StorageFreed);
      }
    }

    method AllocateLoaderContext(calls: LoaderCalls) returns (r: Outcome<()>)
      modifies this
      ensures Creation(life, r) == Allocate(old(life), calls)
    {
      if calls.sizeRc != RC_SUCCESS {
        var e := TranslateAndLog("tcti_init", calls.sizeRc);
        return Err(e);
      }
      if calls.contextSize == 0 {
        return Err(Error(BackendError, "TCTI loader returned invalid context size"));
      }
      if !calls.allocates {
        return Err(Error(ResourceError, "TCTI loader context allocation failed"));
      }
      Emit(TctiAcquired);
      return Ok(());
    }

    method Load(config: string, calls: LoaderCalls) returns (r: Outcome<()>)
      modifies this
      ensures Creation(life, r) == LoadTcti(old(life), config, calls)
    {
      var trimmed := TrimView(config);
      if trimmed == "" || |trimmed| != |config| || !HasNameArgsShape(trimmed) {
        return Err(TCTI_INVALID);
      }
      Emit(InfoQueried(TctiName(trimmed)));
      Emit(InfoFreed);
      if calls.infoRc != RC_SUCCESS {
        var _ := TranslateAndLog("tcti_init", calls.infoRc);
        return Err(Error(InputError, "Unknown TCTI name"));
      }
      r := AllocateLoaderContext(calls);
      if r.Err? {
        return;
      }
      if calls.initRc != RC_SUCCESS {
        var e := TranslateAndLog("tcti_init", calls.initRc);
        ReleaseFailed(calls.leavesInitialised);
        return Err(e);
      }
    }

    method Initialize(calls: EsysCalls) returns (r: Outcome<bool>)
      modifies this
      ensures Creation(life, r) == InitializeEsys(old(life), calls)
    {
      if calls.initializeRc != RC_SUCCESS {
        var e := TranslateAndLog("esys_initialize", calls.initializeRc);
        return Err(e);
      }
      if calls.handsOutContext {
        Emit(EsysAcquired);
      }
      Emit(Logged(EsysInitialized));
      return Ok(calls.handsOutContext);
    }

    method Start(mode: ModeValue, calls: EsysCalls) returns (r: Outcome<()>)
      modifies this
      ensures Creation(life, r) == StartTpm(old(life), mode, calls)
    {
      Emit(Logged(StartupInvoked(mode)));
      if mode == SKIP {
        Emit(Logged(StartupCompleted(mode, "skipped")));
        return Ok(());
      }
      Emit(StartupSent(StartupType(mode)));
      if calls.startupRc != RC_SUCCESS && calls.startupRc != RC_INITIALIZE {
        var e := TranslateAndLog("esys_startup", calls.startupRc);
        return Err(e);
      }
      Emit(Logged(StartupCompleted(mode, if calls.startupRc == RC_INITIALIZE then "already_initialized" else "ok")));
      return Ok(());
    }

    method FromTcti(loaded: bool, mode: ModeValue, calls: EsysCalls) returns (r: Outcome<bool>)
      modifies this
      ensures Creation(life, r) == CreateFromTcti(old(life), loaded, mode, calls)
    {
      var esys := Initialize(calls);
      if esys.Err? {
        Emit(TctiRelease(loaded));
        return Err(esys.error);
      }
      var started := Start(mode, calls);
      if started.Err? {
        if esys.value {
          Emit(EsysFinalized);
        }
        Emit(TctiRelease(loaded));
        return Err(started.error);
      }
      return Ok(esys.value);
    }

    method FromConfig(config: string, mode: ModeValue, loader: LoaderCalls, esys: EsysCalls) returns (r: Outcome<bool>)
      requires life == []
      modifies this
      ensures Creation(life, r) == CreateFromConfig(config, mode, loader, esys)
    {
      if !IsValidMode(mode) {
        return Err(STARTUP_INVALID);
      }
      var name := SanitizedName(config);
      if name != "" {
        Emit(Logged(TctiConfiguring("string", name)));
      }
      var loaded := Load(config, loader);
      if loaded.Err? {
        return Err(loaded.error);
      }
      Emit(Logged(TctiConfigured("string", name)));
      r := FromTcti(true, mode, esys);
    }

    method FromOwned(owned: OwnedHandle, mode: ModeValue, esys: EsysCalls) returns (r: Outcome<bool>)
      requires life == HandedIn(owned)
      modifies this
      ensures Creation(life, r) == CreateFromOwned(owned, mode, esys)
    {
      if !IsValidMode(mode) {
        if owned.present {
          Emit(if owned.deleter then OwnerDeleterCalled else NullDeleterCalled);
        }
        return Err(STARTUP_INVALID);
      }
      if !owned.present {
        return Err(Error(InputError, "TCTI owned handle must not be null"));
      }
      if !owned.deleter {
        Emit(HandleForgotten);
        return Err(Error(InputError, "TCTI owned handle deleter must not be null"));
      }
      Emit(Logged(TctiConfiguring("owned_handle", "<owned>")));
      Emit(Logged(TctiConfigured("owned_handle", "<owned>")));
      r := FromTcti(false, mode, esys);
    }
  }

  /** The implementation object of a context: what one successful creation made, and its ledger. */
  class Impl {
    const loaded: bool
    const context: bool
    var life: seq<LifeEvent>

    constructor (life: seq<LifeEvent>, loaded: bool, context: bool)
      ensures this.life == life && this.loaded == loaded && this.context == context
    {
      this.life := life;
      this.loaded := loaded;
      this.context := context;
    }

    method Destroy()
      modifies this
      ensures life == Teardown(old(life), loaded, context)
    {
      life := life + [Logged(ContextFinalized)];
      if context {
        life := life + [EsysFinalized];
      }
      life := life + [TctiRelease(loaded)];
    }
  }

  class Context {
    var impl: Impl?

    constructor (impl: Impl)
      ensures this.impl == impl
    {
      this.impl := impl;
    }

    /** Move construction touches neither handle; the moved-from context owns nothing. */
    constructor Move(other: Context)
      modifies other
      ensures impl == old(other.impl) && other.impl == null
      ensures impl != null ==> impl.life == old(other.impl.life)
    {
      impl := other.impl;
      new;
      other.impl := null;
    }

    /** Move assignment tears down what it overwrites, and nothing else; self-assignment changes nothing. */
    method MoveAssign(other: Context)
      requires this != other && impl != null ==> impl != other.impl
      modifies this, other, impl
      ensures this == other ==> impl == old(impl) && (impl != null ==> impl.life == old(impl.life))
      ensures this != other ==>
        impl == old(other.impl) && other.impl == null && (impl != null ==> impl.life == old(other.impl.life))
      ensures this != other && old(impl) != null ==>
        old(impl).life == Teardown(old(impl.life), old(impl).loaded, old(impl).context)
    {
      var taken := other.impl;
      other.impl := null;
      var dropped := impl;
      impl := taken;
      if this != other && dropped != null {
        dropped.Destroy();
      }
    }

    method Destroy()
      modifies this, impl
      ensures impl == null
      ensures old(impl) != null ==> old(impl).life == Teardown(old(impl.life), old(impl).loaded, old(impl).context)
    {
      if impl != null {
        impl.Destroy();
      }
      impl := null;
    }
  }

  // Every creation, whatever the foreign calls return.

  /** Configured and holding the TCTI handle, before ESYS is initialised. */
  predicate IsReady(s: Status) {
    s == Status(Held, Absent, false, 2, false, true)
  }

  /** Started: five documented events logged, and nothing released yet. */
  predicate IsRunning(s: Status, context: bool) {
    s == Status(Held, if context then Held else Absent, false, 5, false, true)
  }

  predicate IsAlive(life: seq<LifeEvent>) {
    IsRunning(Monitor(life), true) || IsRunning(Monitor(life), false)
  }

  /** A creation that fails has released whatever it acquired; one that succeeds has released nothing. */
  predicate LivesWell(c: Creation<bool>) {
    match c.outcome
    case Err(_) => IsSettled(c.life)
    case Ok(context) => IsRunning(Monitor(c.life), context)
  }

  lemma InitializeLivesWell(life: seq<LifeEvent>, calls: EsysCalls)
    requires IsReady(Monitor(life))
    ensures var c := InitializeEsys(life, calls);
            Monitor(c.life) ==
            match c.outcome
            case Err(_) => Status(Held, Absent, false, 2, true, true)
            case Ok(context) => Status(Held, if context then Held else Absent, false, 3, false, true)
  {
    hide Monitor, Then, TranslatedError;
  }

  lemma StartLivesWell(life: seq<LifeEvent>, mode: ModeValue, calls: EsysCalls, context: bool)
    requires Monitor(life) == Status(Held, if context then Held else Absent, false, 3, false, true)
    ensures var c := StartTpm(life, mode, calls);
            Monitor(c.life) ==
            match c.outcome
            case Err(_) => Status(Held, if context then Held else Absent, false, 4, true, true)
            case Ok(_) => Status(Held, if context then Held else Absent, false, 5, false, true)
  {
    hide Monitor, Then, TranslatedError;
  }

  lemma FromTctiLivesWell(life: seq<LifeEvent>, loaded: bool, mode: ModeValue, calls: EsysCalls)
    requires IsReady(Monitor(life))
    ensures LivesWell(CreateFromTcti(life, loaded, mode, calls))
  {
    hide Monitor, Then, TranslatedError, InitializeEsys, StartTpm;
    InitializeLivesWell(life, calls);
    var esys := InitializeEsys(life, calls);
    if esys.outcome.Ok? {
      StartLivesWell(esys.life, mode, calls, esys.outcome.value);
    }
  }

  lemma AllocationIsObserved(life: seq<LifeEvent>, calls: LoaderCalls)
    ensures var c := Allocate(life, calls);
            && (c.outcome.Ok? ==> Monitor(c.life) == Observe(Monitor(life), TctiAcquired))
            && (c.outcome.Err? ==> Monitor(c.life) in {Monitor(life),
              Observe(Monitor(life), Logged(TssErrorLogged("tcti_init", calls.sizeRc)))})
  {
    hide Monitor, Then, TranslatedError, Observe;
  }

  /**
    Whatever the loader's calls return: info that was queried is freed once; storage that was allocated is released
    once by a failing load, whether finalising frees it or leaves it, and by nobody if the load succeeds.
   */
  lemma LoaderReleasesOnce(life: seq<LifeEvent>, config: string, calls: LoaderCalls)
    requires var s := Monitor(life); s.inOrder && s.tcti == Absent && s.esys == Absent && !s.infoOpen && !s.closed
    ensures var c := LoadTcti(life, config, calls);
            && Monitor(c.life).stage == Monitor(life).stage
            && Count(c.life, InfoIn) == Count(c.life, InfoOut)
            && (c.outcome.Err? ==> IsSettled(c.life) && Count(c.life, TctiIn) == Count(c.life, TctiOut))
            && (c.outcome.Ok? ==> Count(c.life, TctiIn) == 1 && Count(c.life, TctiOut) == 0)
            && (c.outcome.Ok? ==> Monitor(c.life) == Monitor(life).(tcti := Held))
  {
    hide Monitor, Then, TranslatedError, ValidateTcti, TctiName, Count, Allocate;
    if ValidateTcti(config).Ok? {
      AllocationIsObserved(Then(Then(life, InfoQueried(TctiName(ValidateTcti(config).value))), InfoFreed), calls);
    }
    MonitorCounts(LoadTcti(life, config, calls).life);
  }

  /** Before loading at most the configuring record is there, and an accepted string has one. */
  lemma ConfiguringIsObserved(name: string)
    ensures Monitor(Configuring(name)) == NOTHING_YET.(stage := if name != "" then 1 else 0)
  {
    hide Monitor, Then;
    NothingMonitored();
  }

  lemma LoadedIsReady(name: string, life: seq<LifeEvent>)
    requires name != "" && Monitor(life) == Monitor(Configuring(name)).(tcti := Held)
    ensures IsReady(Monitor(Then(life, Logged(TctiConfigured("string", name)))))
  {
    hide Monitor, Then, Configuring;
    ConfiguringIsObserved(name);
  }

  lemma ConfigCreationLivesWell(config: string, mode: ModeValue, loader: LoaderCalls, esys: EsysCalls)
    ensures LivesWell(CreateFromConfig(config, mode, loader, esys))
  {
    NothingMonitored();
    if IsValidMode(mode) {
      hide Monitor, Then, CreateFromTcti, LoadTcti, SanitizedName, Configuring, Count, Observe, IsReady;
      var name := SanitizedName(config);
      var configuring := Configuring(name);
      ConfiguringIsObserved(name);
      LoaderReleasesOnce(configuring, config, loader);
      var loaded := LoadTcti(configuring, config, loader);
      if loaded.outcome.Ok? {
        LoadedMeansNamed(configuring, config, loader);
        LoadedIsReady(name, loaded.life);
        FromTctiLivesWell(Then(loaded.life, Logged(TctiConfigured("string", name))), true, mode, esys);
      }
    }
  }

  lemma LoadedMeansNamed(life: seq<LifeEvent>, config: string, calls: LoaderCalls)
    requires LoadTcti(life, config, calls).outcome.Ok?
    ensures SanitizedName(config) != ""
  {
    hide ValidateTcti, SanitizedName;
    SanitizedNameIsSafe(config);
  }

  /**
    The one kind of input on which a null deleter is called: a handle without deleter together with an invalid startup
    mode, because the mode is checked first and the handle is then dropped in the ordinary way.
   */
  predicate DropsNullDeleter(owned: OwnedHandle, mode: ModeValue) {
    owned.present && !owned.deleter && !IsValidMode(mode)
  }

  /** For example: a handle without deleter, and a mode that is not one of the three. */
  lemma NullDeleterIsCalled(esys: EsysCalls)
    ensures CreateFromOwned(OwnedHandle(true, false), 3, esys).life == [NullDeleterCalled]
  {
  }

  lemma OwnedIsReady(owned: OwnedHandle)
    requires owned.present && owned.deleter
    ensures var configuring := Then(HandedIn(owned), Logged(TctiConfiguring("owned_handle", "<owned>")));
            IsReady(Monitor(Then(configuring, Logged(TctiConfigured("owned_handle", "<owned>")))))
  {
    hide Monitor, Then;
    NothingMonitored();
  }

  /** A handle that is turned down leaves a settled life, unless dropping it calls a null deleter. */
  lemma DroppedHandleSettles(owned: OwnedHandle, mode: ModeValue, esys: EsysCalls)
    requires !IsValidMode(mode) || !owned.present || !owned.deleter
    ensures var c := CreateFromOwned(owned, mode, esys);
            if DropsNullDeleter(owned, mode) then c.life == [NullDeleterCalled] && c.outcome.Err? else LivesWell(c)
  {
    hide Monitor, CreateFromTcti;
    NothingMonitored();
  }

  lemma OwnedCreationLivesWell(owned: OwnedHandle, mode: ModeValue, esys: EsysCalls)
    ensures var c := CreateFromOwned(owned, mode, esys);
            && (DropsNullDeleter(owned, mode) <==> NullDeleterCalled in c.life)
            && (DropsNullDeleter(owned, mode) <==> !LivesWell(c))
  {
    var c := CreateFromOwned(owned, mode, esys);
    if IsValidMode(mode) && owned.present && owned.deleter {
      hide Monitor, Then, CreateFromTcti;
      OwnedIsReady(owned);
      var configuring := Then(HandedIn(owned), Logged(TctiConfiguring("owned_handle", "<owned>")));
      FromTctiLivesWell(Then(configuring, Logged(TctiConfigured("owned_handle", "<owned>"))), false, mode, esys);
    } else {
      DroppedHandleSettles(owned, mode, esys);
    }
    hide CreateFromOwned, Monitor;
    if DropsNullDeleter(owned, mode) {
      NullDeleterIsOutOfOrder();
    } else {
      OrderedNeverCallsNull(c.life);
    }
  }

  lemma NullDeleterIsOutOfOrder()
    ensures !Monitor([NullDeleterCalled]).inOrder
  {
    assert [] + [NullDeleterCalled] == [NullDeleterCalled];
  }

  predicate LoaderSucceeds(calls: LoaderCalls) {
    calls.infoRc == RC_SUCCESS && calls.sizeRc == RC_SUCCESS && calls.contextSize > 0 && calls.allocates
      && calls.initRc == RC_SUCCESS
  }

  /** A TPM that says it is already initialised counts as started; with startup skipped nothing is asked of it. */
  predicate EsysSucceeds(mode: ModeValue, calls: EsysCalls) {
    calls.initializeRc == RC_SUCCESS
      && (mode == SKIP || calls.startupRc == RC_SUCCESS || calls.startupRc == RC_INITIALIZE)
  }

  /** When exactly a context comes into being; the checks on mode and string are those that the fake context shares. */
  lemma CreationSucceedsExactly(config: string, owned: OwnedHandle, mode: ModeValue, loader: LoaderCalls,
      esys: EsysCalls)
    ensures CreateFromConfig(config, mode, loader, esys).outcome.Ok? <==>
              RealVerdict(config, mode).Ok? && LoaderSucceeds(loader) && EsysSucceeds(mode, esys)
    ensures CreateFromOwned(owned, mode, esys).outcome.Ok? <==>
              IsValidMode(mode) && owned.present && owned.deleter && EsysSucceeds(mode, esys)
  {
    hide Monitor, Then, TranslatedError, ValidateTcti, SanitizedName;
  }

  /** The destructor completes the log and releases both handles, ESYS first. */
  lemma TeardownSettles(life: seq<LifeEvent>, loaded: bool, context: bool)
    requires IsRunning(Monitor(life), context)
    ensures IsSettled(Teardown(life, loaded, context))
    ensures Monitor(Teardown(life, loaded, context)).stage == 6
  {
    hide Monitor, Then;
  }

  // Runs: any number of contexts created by either entry point, moved, and destroyed.

  datatype Input =
    | ByConfig(config: string, mode: ModeValue, loader: LoaderCalls, esys: EsysCalls)
    | ByHandle(owned: OwnedHandle, mode: ModeValue, esys: EsysCalls)

  function CreateFrom(input: Input): Creation<bool> {
    match input
    case ByConfig(config, mode, loader, esys) => CreateFromConfig(config, mode, loader, esys)
    case ByHandle(owned, mode, esys) => CreateFromOwned(owned, mode, esys)
  }

  function DeathOf(loaded: bool, context: bool): seq<LifeEvent> {
    [Logged(ContextFinalized)] + (if context then [EsysFinalized] else []) + [TctiRelease(loaded)]
  }

  function PlanOf(input: Input): Plan<LifeEvent> {
    var c := CreateFrom(input);
    Plan(c.life, c.outcome.Ok?, if c.outcome.Ok? then DeathOf(input.ByConfig?, c.outcome.value) else [])
  }

  lemma TeardownIsDeath(life: seq<LifeEvent>, loaded: bool, context: bool)
    ensures Teardown(life, loaded, context) == life + DeathOf(loaded, context)
  {
  }

  predicate IsAcceptable(input: Input) {
    input.ByHandle? ==> !DropsNullDeleter(input.owned, input.mode)
  }

  /** The births of a run are the creations from the given inputs, one for each creating operation. */
  ghost predicate IsContextRun(trace: seq<World<LifeEvent>>, ops: seq<Op<LifeEvent>>, inputs: seq<Input>) {
    && IsRun(trace, ops)
    && |inputs| == |ops|
    && forall k :: 0 <= k < |ops| && ops[k].Create? ==> ops[k].plan == PlanOf(inputs[k]) && IsAcceptable(inputs[k])
  }

  lemma PlansLiveWell(input: Input)
    requires IsAcceptable(input)
    ensures var plan := PlanOf(input);
            && Monitor(plan.birth).inOrder
            && (plan.owned ==> IsAlive(plan.birth))
            && IsSettled(plan.birth + plan.death)
            && (plan.owned ==> Monitor(plan.birth + plan.death).stage == 6)
  {
    hide CreateFromConfig, CreateFromOwned, Monitor, DeathOf, Teardown;
    match input {
      case ByConfig(config, mode, loader, esys) => ConfigCreationLivesWell(config, mode, loader, esys);
      case ByHandle(owned, mode, esys) => OwnedCreationLivesWell(owned, mode, esys);
    }
    var c := CreateFrom(input);
    if c.outcome.Ok? {
      TeardownIsDeath(c.life, input.ByConfig?, c.outcome.value);
      TeardownSettles(c.life, input.ByConfig?, c.outcome.value);
    } else {
      assert c.life + [] == c.life;
    }
  }

  /**
    In every run, at every moment and for every creation: at most one context owns what it made; while it is owned,
    nothing of it has been released and five documented events are logged; once it is not, everything acquired has been
    released.
   */
  lemma ContextsLiveWell(trace: seq<World<LifeEvent>>, ops: seq<Op<LifeEvent>>, inputs: seq<Input>, k: nat,
      creation: nat)
    requires IsContextRun(trace, ops, inputs) && k <= |ops| && creation < |trace[k].plans|
    ensures OwnersAreUnique(trace[k])
    ensures var life := EventsOf(trace[k].ledger, creation);
            if HasOwner(trace[k], creation) then IsAlive(life) else IsSettled(life)
  {
    hide PlanOf, Monitor, EventsOf, IsSettled, IsAlive, HasOwner;
    RunsKeepInvariant(trace, ops, k);
    PlansComeFromOps(trace, ops, k, creation);
    var j :| 0 <= j < k && ops[j].Create? && ops[j].plan == trace[k].plans[creation];
    PlansLiveWell(inputs[j]);
    UnownedPlansAreOver(inputs[j]);
    assert IsAccounted(trace[k], creation);
    var plan, life := PlanOf(inputs[j]), EventsOf(trace[k].ledger, creation);
    if HasOwner(trace[k], creation) {
      assert life == plan.birth;
    } else {
      assert life == plan.birth + plan.death;
    }
  }

  lemma UnownedPlansAreOver(input: Input)
    ensures !PlanOf(input).owned ==> PlanOf(input).birth + PlanOf(input).death == PlanOf(input).birth
  {
    hide CreateFrom;
  }

  /** A handle that is there and has a deleter. */
  predicate GivesHandle(input: Input) {
    input.ByHandle? && input.owned.present && input.owned.deleter
  }

  /** The life that a given handle starts is never taken back. */
  lemma GivenHandleIsAcquired(input: Input)
    requires GivesHandle(input)
    ensures var life := CreateFrom(input).life; life != [] && life[0] == TctiAcquired
  {
    hide Monitor, TranslatedError;
  }

  /**
    When every context of a run is gone: for every creation, handles and loader info were each released exactly as
    often as they were acquired, at most once, and the log is a prefix of the six documented events, optionally closed
    by one error. A TCTI handle that was given with a deleter was released exactly once.
   */
  lemma EverythingIsReleasedOnce(trace: seq<World<LifeEvent>>, ops: seq<Op<LifeEvent>>, inputs: seq<Input>,
      creation: nat)
    requires IsContextRun(trace, ops, inputs)
    requires trace[|ops|].holders == map[] && creation < |trace[|ops|].plans|
    ensures var life := EventsOf(trace[|ops|].ledger, creation);
            && Count(life, TctiIn) == Count(life, TctiOut) <= 1
            && Count(life, EsysIn) == Count(life, EsysOut) <= 1
            && Count(life, InfoIn) == Count(life, InfoOut)
            && IsDocumentedLog(LogOf(life), Monitor(life).stage, Monitor(life).closed)
    ensures
      forall j :: 0 <= j < |ops| && MadeFrom(trace[|ops|], creation, ops[j], inputs[j]) && GivesHandle(inputs[j]) ==>
        Count(EventsOf(trace[|ops|].ledger, creation), TctiOut) == 1
  {
    var w := trace[|ops|];
    forall holder: nat ensures !Owns(w, holder, creation) {}
    ContextsLiveWell(trace, ops, inputs, |ops|, creation);
    var life := EventsOf(w.ledger, creation);
    hide EventsOf, Count, Monitor, LogOf, IsSettled;
    SettledMeansOnce(life);
    forall j | 0 <= j < |ops| && MadeFrom(w, creation, ops[j], inputs[j]) && GivesHandle(inputs[j])
      ensures Count(life, TctiOut) == 1 {
      LifeStartsWithBirth(trace, ops, creation);
      GivenHandleIsAcquired(inputs[j]);
      hide CreateFrom;
      FirstCounts(life, TctiIn);
    }
  }

  /** Whether a creation of a run is the one of that operation and its input. */
  predicate MadeFrom(w: World<LifeEvent>, creation: nat, op: Op<LifeEvent>, input: Input) {
    creation < |w.plans| && op.Create? && op.plan == w.plans[creation] && op.plan == PlanOf(input)
  }

  lemma LifeStartsWithBirth(trace: seq<World<LifeEvent>>, ops: seq<Op<LifeEvent>>, creation: nat)
    requires IsRun(trace, ops) && creation < |trace[|ops|].plans|
    ensures trace[|ops|].plans[creation].birth <= EventsOf(trace[|ops|].ledger, creation)
  {
    hide EventsOf, HasOwner;
    RunsKeepInvariant(trace, ops, |ops|);
    assert IsAccounted(trace[|ops|], creation);
  }

  /** At every moment of every run, a TCTI handle is only released when the ESYS context on it has been finalised. */
  lemma EsysAlwaysGoesFirst(trace: seq<World<LifeEvent>>, ops: seq<Op<LifeEvent>>, inputs: seq<Input>, k: nat,
      creation: nat, i: nat)
    requires IsContextRun(trace, ops, inputs) && k <= |ops| && creation < |trace[k].plans|
    requires var life := EventsOf(trace[k].ledger, creation); i < |life| && ReleasesTcti(life[i])
    ensures var life := EventsOf(trace[k].ledger, creation);
            && Count(life[..i], EsysOut) == Count(life[..i], EsysIn)
            && Count(life, EsysOut) == Count(life[..i], EsysOut) == Count(life, EsysIn)
            && !HasOwner(trace[k], creation)
  {
    ContextsLiveWell(trace, ops, inputs, k, creation);
    hide EventsOf, Count, Monitor, IsContextRun, HasOwner;
    EsysGoesFirst(EventsOf(trace[k].ledger, creation), i);
  }
}
