/** The events in the life of a TPM context, and the monitor that says when such a life is in order. */
module Lifecycle {
  import opened Common

  datatype LogEvent =
    | TctiConfiguring(kind: string, name: string)
    | TctiConfigured(kind: string, name: string)
    | EsysInitialized
    | StartupInvoked(mode: int)
    | StartupCompleted(mode: int, result: string)
    | ContextFinalized
    | TssErrorLogged(operation: string, rc: TssRc)

  datatype LifeEvent =
    | Logged(entry: LogEvent)
    /** The loader is asked about the TCTI of that name. */
    | InfoQueried(name: string)
    | InfoFreed
    /**
      A TCTI handle comes under tpmkit's control: loader storage is allocated, or a handle with a deleter is handed in.
     */
    | TctiAcquired
    /**
      Tss2_TctiLdr_Finalize on loader storage, which frees the storage if it was initialised and leaves it otherwise.
     */
    | LoaderFinalized(freed: bool)
    | StorageFreed
    | OwnerDeleterCalled
    | NullDeleterCalled
    | HandleForgotten
    | EsysAcquired
    | EsysFinalized
    /** Esys_Startup with that startup type: zero for clear, one for state. */
    | StartupSent(startupType: int)

  predicate ReleasesTcti(e: LifeEvent) {
    e == LoaderFinalized(true) || e.StorageFreed? || e.OwnerDeleterCalled?
  }

  /** The place of a log event among the six documented ones. */
  function Stage(e: LogEvent): Option<nat> {
    match e
    case TctiConfiguring(_, _) => Some(0)
    case TctiConfigured(_, _) => Some(1)
    case EsysInitialized => Some(2)
    case StartupInvoked(_) => Some(3)
    case StartupCompleted(_, _) => Some(4)
    case ContextFinalized => Some(5)
    case TssErrorLogged(_, _) => None
  }

  datatype Phase = Absent | Held | Gone

  /**
    What a monitor of a life knows: the phases of both handles, whether loader info is outstanding, and how far the log
    is.
   */
  datatype Status = Status(tcti: Phase, esys: Phase, infoOpen: bool, stage: nat, closed: bool, inOrder: bool)

  const NOTHING_YET := Status(Absent, Absent, false, 0, false, true)

  /** Records are logged while the log is open, before anything is released and after the loader info is freed. */
  predicate MayLog(s: Status) {
    !s.closed && s.tcti != Gone && s.esys != Gone && !s.infoOpen
  }

  function Observe(s: Status, e: LifeEvent): Status {
    match e
    case Logged(entry) =>
      (match Stage(entry)
       case None => s.(closed := true, inOrder := s.inOrder && MayLog(s))
       case Some(k) => s.(stage := s.stage + 1, inOrder := s.inOrder && MayLog(s) && k == s.stage))
    case StartupSent(_) => s.(inOrder := s.inOrder && MayLog(s) && s.stage == 4)
    case InfoQueried(_) => s.(infoOpen := true, inOrder := s.inOrder && !s.infoOpen)
    case InfoFreed => s.(infoOpen := false, inOrder := s.inOrder && s.infoOpen)
    case TctiAcquired => s.(tcti := Held, inOrder := s.inOrder && s.tcti == Absent)
    case EsysAcquired => s.(esys := Held, inOrder := s.inOrder && s.esys == Absent && s.tcti == Held)
    case EsysFinalized => s.(esys := Gone, inOrder := s.inOrder && s.esys == Held && s.tcti == Held)
    case LoaderFinalized(false) => s.(inOrder := s.inOrder && s.tcti == Held && s.esys != Held)
    case NullDeleterCalled => s.(inOrder := false)
    case HandleForgotten => s
    case _ => s.(tcti := Gone, inOrder := s.inOrder && s.tcti == Held && s.esys != Held)
  }

  function Monitor(life: seq<LifeEvent>): Status {
    if life == [] then NOTHING_YET
    else Observe(Monitor(life[..|life| - 1]), life[|life| - 1])
  }

  /** What is heard of a life from outside: the log, and what it asks of the loader and of the TPM. */
  predicate IsHeard(e: LifeEvent) {
    e.Logged? || e.InfoQueried? || e.StartupSent?
  }

  function Heard(life: seq<LifeEvent>): seq<LifeEvent> {
    if life == [] then []
    else
      var n := |life| - 1;
      Heard(life[..n]) + if IsHeard(life[n]) then [life[n]] else []
  }

  /** A life under construction; each event moves the monitor on. */
  function Then(life: seq<LifeEvent>, e: LifeEvent): (longer: seq<LifeEvent>)
    ensures Monitor(longer) == Observe(Monitor(life), e)
  {
    assert (life + [e])[..|life|] == life;
    life + [e]
  }

  lemma HeardThen(life: seq<LifeEvent>, e: LifeEvent)
    ensures Heard(Then(life, e)) == Heard(life) + if IsHeard(e) then [e] else []
  {
    assert (life + [e])[..|life|] == life;
  }

  lemma NothingMonitored()
    ensures Monitor([]) == NOTHING_YET
  {
  }

  /** A life that is in order and has nothing left to release. */
  predicate IsSettled(life: seq<LifeEvent>) {
    var s := Monitor(life);
    s.inOrder && s.tcti != Held && s.esys != Held && !s.infoOpen
  }

  // What the monitor's verdict means, event by event.

  datatype What = TctiIn | TctiOut | EsysIn | EsysOut | InfoIn | InfoOut

  predicate Is(e: LifeEvent, what: What) {
    match what
    case TctiIn => e.TctiAcquired?
    case TctiOut => ReleasesTcti(e)
    case EsysIn => e.EsysAcquired?
    case EsysOut => e.EsysFinalized?
    case InfoIn => e.InfoQueried?
    case InfoOut => e.InfoFreed?
  }

  function Count(life: seq<LifeEvent>, what: What): nat {
    if life == [] then 0 else Count(life[..|life| - 1], what) + if Is(life[|life| - 1], what) then 1 else 0
  }

  function LogOf(life: seq<LifeEvent>): seq<LogEvent> {
    if life == [] then []
    else
      var n := |life| - 1;
      LogOf(life[..n]) + if life[n].Logged? then [life[n].entry] else []
  }

  /** A log is a prefix of the six documented events in their order, optionally closed by one error. */
  ghost predicate IsDocumentedLog(log: seq<LogEvent>, stage: nat, closed: bool) {
    && |log| == stage + (if closed then 1 else 0)
    && stage <= 6
    && (forall k :: 0 <= k < stage ==> Stage(log[k]) == Some(k))
    && (closed ==> log[stage].TssErrorLogged?)
  }

  function Had(phase: Phase): nat { if phase == Absent then 0 else 1 }

  function Lost(phase: Phase): nat { if phase == Gone then 1 else 0 }

  function One(b: bool): nat { if b then 1 else 0 }

  lemma {:induction false} FirstCounts(life: seq<LifeEvent>, what: What)
    requires life != [] && Is(life[0], what)
    ensures Count(life, what) >= 1
  {
    if |life| > 1 {
      FirstCounts(life[..|life| - 1], what);
    }
  }

  lemma ObserveCounts(s: Status, e: LifeEvent)
    requires Observe(s, e).inOrder
    ensures s.inOrder
    ensures var t := Observe(s, e);
            && Had(t.tcti) == Had(s.tcti) + One(Is(e, TctiIn)) && Lost(t.tcti) == Lost(s.tcti) + One(Is(e, TctiOut))
            && Had(t.esys) == Had(s.esys) + One(Is(e, EsysIn)) && Lost(t.esys) == Lost(s.esys) + One(Is(e, EsysOut))
            && One(t.infoOpen) + One(Is(e, InfoOut)) == One(s.infoOpen) + One(Is(e, InfoIn))
  {
  }

  lemma {:induction false} MonitorCounts(life: seq<LifeEvent>)
    requires Monitor(life).inOrder
    ensures var s := Monitor(life);
            && Count(life, TctiIn) == Had(s.tcti) && Count(life, TctiOut) == Lost(s.tcti)
            && Count(life, EsysIn) == Had(s.esys) && Count(life, EsysOut) == Lost(s.esys)
            && Count(life, InfoIn) == Count(life, InfoOut) + One(s.infoOpen)
  {
    if life != [] {
      hide Observe, Is;
      var n := |life| - 1;
      ObserveCounts(Monitor(life[..n]), life[n]);
      MonitorCounts(life[..n]);
    }
  }

  lemma ObserveLog(log: seq<LogEvent>, s: Status, entry: LogEvent)
    requires IsDocumentedLog(log, s.stage, s.closed) && Observe(s, Logged(entry)).inOrder
    ensures var t := Observe(s, Logged(entry)); IsDocumentedLog(log + [entry], t.stage, t.closed)
  {
  }

  lemma {:induction false} MonitorLog(life: seq<LifeEvent>)
    requires Monitor(life).inOrder
    ensures IsDocumentedLog(LogOf(life), Monitor(life).stage, Monitor(life).closed)
  {
    if life != [] {
      var n := |life| - 1;
      MonitorLog(life[..n]);
      if life[n].Logged? {
        ObserveLog(LogOf(life[..n]), Monitor(life[..n]), life[n].entry);
      }
    }
  }

  lemma ObserveNeverCallsNull(s: Status, e: LifeEvent)
    requires Observe(s, e).inOrder
    ensures s.inOrder && e != NullDeleterCalled
  {
  }

  lemma {:induction false} OrderedNeverCallsNull(life: seq<LifeEvent>)
    requires Monitor(life).inOrder
    ensures NullDeleterCalled !in life
  {
    if life != [] {
      var n := |life| - 1;
      ObserveNeverCallsNull(Monitor(life[..n]), life[n]);
      hide Observe;
      OrderedNeverCallsNull(life[..n]);
      assert life == life[..n] + [life[n]];
    }
  }

  /** Whenever the TCTI handle is released, no ESYS context is alive, and none is made or finalised afterwards. */
  lemma {:induction false} EsysGoesFirst(life: seq<LifeEvent>, i: nat)
    requires Monitor(life).inOrder && i < |life| && ReleasesTcti(life[i])
    ensures Count(life[..i], EsysOut) == Count(life[..i], EsysIn)
    ensures Count(life, EsysOut) == Count(life[..i], EsysOut)
    ensures Count(life, EsysIn) == Count(life[..i], EsysIn)
    ensures Monitor(life).tcti == Gone
  {
    var n := |life| - 1;
    if i == n {
      MonitorCounts(life[..n]);
    } else {
      assert life[..n][..i] == life[..i];
      EsysGoesFirst(life[..n], i);
    }
  }

  /** A settled life in plain words. */
  lemma SettledMeansOnce(life: seq<LifeEvent>)
    requires IsSettled(life)
    ensures Count(life, TctiIn) == Count(life, TctiOut) <= 1
    ensures Count(life, EsysIn) == Count(life, EsysOut) <= 1
    ensures Count(life, InfoIn) == Count(life, InfoOut)
    ensures IsDocumentedLog(LogOf(life), Monitor(life).stage, Monitor(life).closed)
  {
    MonitorCounts(life);
    MonitorLog(life);
  }
}
