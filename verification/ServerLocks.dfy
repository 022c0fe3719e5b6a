// Mutual exclusion: who owns which mutex, in every reachable state.

module ServerLocks {
  import opened Options
  import opened ServerModel

  /** The mutex a dispatcher holds at a program counter. */
  function DispatcherHolds(pc: DispatcherPc): Option<Mutex> {
    match pc
    case DChecking(_, _) | DStored => Some(QueueMutex)
    case _ => None
  }

  function WorkerHolds(pc: WorkerPc): Option<Mutex> {
    match pc
    case WChecking(_) | WTaken(_) => Some(QueueMutex)
    case WLooking(_) | WHit(_, _) | WHitSent(_) | WMissed(_) | WInserting(_, _) | WInserted(_, _) => Some(CacheMutex)
    case WLogging(_, _) | WLogged => Some(LogMutex)
    case _ => None
  }

  function Owner(s: State, m: Mutex): Option<Thread> {
    match m
    case QueueMutex => s.mtx
    case CacheMutex => s.cacheMtx
    case LogMutex => s.logMtx
  }

  function Holds(s: State, t: Thread): Option<Mutex> {
    match t
    case Dispatcher(d) => if d < |s.dpc| then DispatcherHolds(s.dpc[d]) else None
    case Worker(w) => if w < |s.wpc| then WorkerHolds(s.wpc[w]) else None
  }

  /** A mutex is owned by a thread exactly when that thread is in a critical
      section of that mutex. */
  ghost predicate LocksOk(s: State) {
    forall t: Thread, m: Mutex :: Owner(s, m) == Some(t) <==> Holds(s, t) == Some(m)
  }

  /** One thread moved from holding `before` to holding `after`, the owners
      changed accordingly, and nobody else moved. */
  lemma Moved(s: State, s': State, t: Thread)
    requires LocksOk(s)
    requires forall u: Thread | u != t :: Holds(s', u) == Holds(s, u)
    requires forall m: Mutex ::
      && (Holds(s, t) != Some(m) && Holds(s', t) != Some(m) ==> Owner(s', m) == Owner(s, m))
      && (Holds(s, t) != Some(m) && Holds(s', t) == Some(m) ==> Owner(s, m) == None && Owner(s', m) == Some(t))
      && (Holds(s, t) == Some(m) && Holds(s', t) != Some(m) ==> Owner(s', m) == None)
      && (Holds(s, t) == Some(m) && Holds(s', t) == Some(m) ==> Owner(s', m) == Owner(s, m))
    ensures LocksOk(s')
  {}

  lemma WakingMovesNobody(s: State, dwoken: set<nat>, wwoken: set<nat>)
    ensures forall w | 0 <= w < |s.wpc| :: WorkerHolds(WakeWorkers(s.wpc, wwoken)[w]) == WorkerHolds(s.wpc[w])
    ensures forall d | 0 <= d < |s.dpc| ::
              DispatcherHolds(WakeDispatchers(s.dpc, dwoken)[d]) == DispatcherHolds(s.dpc[d])
  {}

  lemma DispatcherKeepsLocks(cfg: Config, s: State, d: nat, woken: set<nat>)
    requires Safe(s) && LocksOk(s) && d < |s.dpc| && CanDispatcher(s, d, woken)
    ensures LocksOk(AfterDispatcher(s, d, woken))
  {
    WakingMovesNobody(s, {}, woken);
    Moved(s, AfterDispatcher(s, d, woken), Dispatcher(d));
  }

  lemma OwnersOf(s: State, t: Thread)
    requires LocksOk(s)
    ensures s.mtx == Some(t) <==> Holds(s, t) == Some(QueueMutex)
    ensures s.cacheMtx == Some(t) <==> Holds(s, t) == Some(CacheMutex)
    ensures s.logMtx == Some(t) <==> Holds(s, t) == Some(LogMutex)
  {}

  lemma QueuePhaseKeepsLocks(cfg: Config, s: State, w: nat, woken: set<nat>, disk: Disk, addr: nat)
    requires Safe(s) && LocksOk(s) && w < |s.wpc| && CanWorker(cfg, s, w, woken, disk, addr)
    requires PhaseOf(s.wpc[w]) == QueuePhase
    ensures LocksOk(AfterWorkerQueue(s, w, woken))
  {
    WakingMovesNobody(s, woken, {});
    OwnersOf(s, Worker(w));
    Moved(s, AfterWorkerQueue(s, w, woken), Worker(w));
  }

  lemma LookupPhaseKeepsLocks(cfg: Config, s: State, w: nat, woken: set<nat>, disk: Disk, addr: nat)
    requires Safe(s) && LocksOk(s) && w < |s.wpc| && CanWorker(cfg, s, w, woken, disk, addr)
    requires PhaseOf(s.wpc[w]) == LookupPhase
    ensures LocksOk(AfterWorkerLookup(s, w))
  {
    OwnersOf(s, Worker(w));
    Moved(s, AfterWorkerLookup(s, w), Worker(w));
  }

  lemma MissPhaseKeepsLocks(cfg: Config, s: State, w: nat, woken: set<nat>, disk: Disk, addr: nat)
    requires Safe(s) && LocksOk(s) && w < |s.wpc| && CanWorker(cfg, s, w, woken, disk, addr)
    requires PhaseOf(s.wpc[w]) == MissPhase
    ensures LocksOk(AfterWorkerMiss(s, w, disk, addr))
  {
    OwnersOf(s, Worker(w));
    Moved(s, AfterWorkerMiss(s, w, disk, addr), Worker(w));
  }

  lemma LogPhaseKeepsLocks(cfg: Config, s: State, w: nat, woken: set<nat>, disk: Disk, addr: nat)
    requires Safe(s) && LocksOk(s) && w < |s.wpc| && CanWorker(cfg, s, w, woken, disk, addr)
    requires PhaseOf(s.wpc[w]) == LogPhase
    ensures LocksOk(AfterWorkerLog(s, w))
  {
    OwnersOf(s, Worker(w));
    Moved(s, AfterWorkerLog(s, w), Worker(w));
  }

  lemma WorkerKeepsLocks(cfg: Config, s: State, w: nat, woken: set<nat>, disk: Disk, addr: nat)
    requires Safe(s) && LocksOk(s) && w < |s.wpc| && CanWorker(cfg, s, w, woken, disk, addr)
    ensures LocksOk(AfterWorker(s, w, woken, disk, addr))
  {
    match PhaseOf(s.wpc[w])
    case QueuePhase => QueuePhaseKeepsLocks(cfg, s, w, woken, disk, addr);
    case LookupPhase => LookupPhaseKeepsLocks(cfg, s, w, woken, disk, addr);
    case MissPhase => MissPhaseKeepsLocks(cfg, s, w, woken, disk, addr);
    case LogPhase => LogPhaseKeepsLocks(cfg, s, w, woken, disk, addr);
  }

  lemma StepKeepsLocks(cfg: Config, s: State, l: Label)
    requires Safe(s) && LocksOk(s) && Can(cfg, s, l)
    ensures LocksOk(After(cfg, s, l))
  {
    match l
    case Arrive(d, _, _) => Moved(s, After(cfg, s, l), Dispatcher(d));
    case SpuriousDispatcher(d) => Moved(s, After(cfg, s, l), Dispatcher(d));
    case SpuriousWorker(w) => Moved(s, After(cfg, s, l), Worker(w));
    case DispatcherRuns(d, woken) => DispatcherKeepsLocks(cfg, s, d, woken);
    case WorkerRuns(w, woken, disk, addr) => WorkerKeepsLocks(cfg, s, w, woken, disk, addr);
  }

  lemma InitialLocks(cfg: Config, s: State)
    requires Initial(cfg, s)
    ensures LocksOk(s)
  {}
}
