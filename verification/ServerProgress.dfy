// Progress: the server never deadlocks, and it cannot run forever on finitely
// many requests and finitely many spurious wakeups.

module ServerProgress {
  import opened Options
  import opened Counting
  import opened RequestRing
  import opened LfuCache
  import opened ServerModel
  import opened ServerLocks
  import opened ServerWakeups

  /** A step of the server itself: neither a new request nor a spurious wakeup. */
  ghost predicate IsMove(l: Label) {
    l.DispatcherRuns? || l.WorkerRuns?
  }

  ghost predicate CanMove(cfg: Config, s: State) {
    exists l :: IsMove(l) && Can(cfg, s, l)
  }

  /** Nothing left to do: dispatchers wait for clients, workers for requests. */
  ghost predicate Quiet(s: State) {
    && (forall d | 0 <= d < |s.dpc| :: s.dpc[d].Accepting?)
    && (forall w | 0 <= w < |s.wpc| :: s.wpc[w].WAsleep?)
    && s.ring.count == 0
  }

  lemma QuietCannotMove(cfg: Config, s: State)
    requires Quiet(s)
    ensures !CanMove(cfg, s)
  {}

  /** What the environment may answer to a worker's step always exists. */
  lemma WorkerCanRun(cfg: Config, s: State, w: nat)
    requires w < |s.wpc| && !s.wpc[w].WAsleep?
    requires s.wpc[w].WWantQueue? || s.wpc[w].WWoken? ==> s.mtx == None
    requires s.wpc[w].WWantLookup? || s.wpc[w].WWantInsert? ==> s.cacheMtx == None
    requires s.wpc[w].WWantLog? ==> s.logMtx == None
    ensures CanMove(cfg, s)
  {
    var disk := if s.wpc[w].WReading? && s.wpc[w].r.name in cfg.stable then cfg.stable[s.wpc[w].r.name] else NotFound;
    HasUnused(s.cache.heap.Keys);
    var addr :| addr !in s.cache.heap;
    assert Can(cfg, s, WorkerRuns(w, SleepingDispatchers(s.dpc), disk, addr));
  }

  lemma DispatcherCanRun(cfg: Config, s: State, d: nat)
    requires d < |s.dpc| && !s.dpc[d].DAsleep? && !s.dpc[d].Accepting?
    requires s.dpc[d].DWantQueue? || s.dpc[d].DWoken? ==> s.mtx == None
    ensures CanMove(cfg, s)
  {
    assert Can(cfg, s, DispatcherRuns(d, SleepingWorkers(s.wpc)));
  }

  /** The owner of a mutex is never blocked: it holds no other and wants none. */
  lemma OwnerCanMove(cfg: Config, s: State, m: Mutex)
    requires LocksOk(s) && Owner(s, m) != None
    ensures CanMove(cfg, s)
  {
    var t := Owner(s, m).value;
    assert Holds(s, t) == Some(m);
    match t
    case Dispatcher(d) => DispatcherCanRun(cfg, s, d);
    case Worker(w) => WorkerCanRun(cfg, s, w);
  }

  /** Deadlock freedom: unless the server is quiet, some thread can take its next
      step without waiting for a client or for a spurious wakeup. */
  lemma MovesUnlessQuiet(cfg: Config, s: State)
    requires Safe(s) && LocksOk(s) && WakeupsOk(s) && s.wpc != []
    ensures CanMove(cfg, s) <==> !Quiet(s)
  {
    if Quiet(s) {
      QuietCannotMove(cfg, s);
    } else if m: Mutex :| Owner(s, m) != None {
      OwnerCanMove(cfg, s, m);
    } else {
      assert Owner(s, QueueMutex) == s.mtx && Owner(s, CacheMutex) == s.cacheMtx && Owner(s, LogMutex) == s.logMtx;
      if d: nat :| d < |s.dpc| && !s.dpc[d].DAsleep? && !s.dpc[d].Accepting? {
        DispatcherCanRun(cfg, s, d);
      } else if w: nat :| w < |s.wpc| && !s.wpc[w].WAsleep? {
        WorkerCanRun(cfg, s, w);
      } else {
        QuietMeansDrained(s);
        assert false;
      }
    }
  }

  // ---------------------------------------------------------------- bounded work

  /** A worker's remaining steps; `k` pays for the threads its signal may wake. */
  ghost function WorkerWork(k: nat): WorkerPc -> nat {
    (pc: WorkerPc) =>
      match pc
      case WAsleep => 0
      case WChecking(_) => 1
      case WWantQueue | WWoken => 2
      case WLogged => 3
      case WLogging(_, _) => 4
      case WWantLog(_, _) => 5
      case WAnswering(_, _) | WHitSent(_) => 6
      case WInserted(_, _) | WHit(_, _) => 7
      case WInserting(_, _) => 8
      case WWantInsert(_, _) | WFailing(_) => 9
      case WReading(_) => 10
      case WMissed(_) => 11
      case WLooking(_) => 12
      case WWantLookup(_) => 13
      case WSignalling(_) => 14 + k
      case WTaken(_) => 15 + k
  }

  ghost function DispatcherWork(k: nat): DispatcherPc -> nat {
    (pc: DispatcherPc) =>
      match pc
      case Accepting => 0
      case DSignalling => k + 1
      case DStored => k + 2
      case DAsleep(_) => 2 * k + 17
      case DChecking(_, _) => 2 * k + 18
      case DWantQueue(_) | DWoken(_) => 2 * k + 19
  }

  ghost function Margin(s: State): nat {
    2 * |s.dpc| + 2 * |s.wpc|
  }

  /** An upper bound on the steps the server can still take by itself. */
  ghost function Work(s: State): nat {
    var k := Margin(s);
    Sum(DispatcherWork(k), s.dpc) + Sum(WorkerWork(k), s.wpc) + (15 + k) * s.ring.count
  }

  /** What a new request adds to it. */
  ghost function RequestWork(s: State): nat {
    2 * Margin(s) + 19
  }

  lemma DispatcherWorks(s: State, d: nat, woken: set<nat>)
    requires Safe(s) && d < |s.dpc| && CanDispatcher(s, d, woken)
    ensures Work(AfterDispatcher(s, d, woken)) < Work(s)
  {
    var k := Margin(s);
    var s' := AfterDispatcher(s, d, woken);
    SumUpdate(DispatcherWork(k), s.dpc, d, s'.dpc[d]);
    if s.dpc[d].DSignalling? {
      SumRaised(WorkerWork(k), s.wpc, s'.wpc, 2);
    } else if s.dpc[d].DChecking? && !Full(s.ring) {
      OneMoreQueued(k, s.ring.count);
    }
  }

  /** When one worker alone moves, only its own part of the work changes. */
  lemma WorkerMovesAlone(s: State, s': State, w: nat, added: int)
    requires w < |s.wpc| && |s'.wpc| == |s.wpc| && s'.wpc == s.wpc[w := s'.wpc[w]]
    requires s'.dpc == s.dpc && s'.ring == s.ring
    requires WorkerWork(Margin(s))(s'.wpc[w]) <= WorkerWork(Margin(s))(s.wpc[w]) + added
    ensures Work(s') <= Work(s) + added
  {
    SumUpdate(WorkerWork(Margin(s)), s.wpc, w, s'.wpc[w]);
  }

  lemma DispatcherMovesAlone(s: State, s': State, d: nat, added: int)
    requires d < |s.dpc| && |s'.dpc| == |s.dpc| && s'.dpc == s.dpc[d := s'.dpc[d]]
    requires s'.wpc == s.wpc && s'.ring == s.ring
    requires DispatcherWork(Margin(s))(s'.dpc[d]) <= DispatcherWork(Margin(s))(s.dpc[d]) + added
    ensures Work(s') <= Work(s) + added
  {
    SumUpdate(DispatcherWork(Margin(s)), s.dpc, d, s'.dpc[d]);
  }

  lemma OneMoreQueued(k: nat, n: nat)
    ensures (15 + k) * (n + 1) == (15 + k) * n + (15 + k)
  {}

  /** Taking a request moves its share of the work from the queue to the worker. */
  lemma TakingWorks(s: State, s': State, w: nat)
    requires w < |s.wpc| && |s'.wpc| == |s.wpc| && s'.wpc == s.wpc[w := s'.wpc[w]] && s'.dpc == s.dpc
    requires s.ring.count > 0 && s'.ring.count == s.ring.count - 1
    requires s.wpc[w].WChecking? && s'.wpc[w].WTaken?
    ensures Work(s') < Work(s)
  {
    var k := Margin(s);
    SumUpdate(WorkerWork(k), s.wpc, w, s'.wpc[w]);
    OneMoreQueued(k, s'.ring.count);
  }

  /** Signalling `freed` pays for the dispatchers it wakes. */
  lemma SignallingFreedWorks(s: State, w: nat, woken: set<nat>)
    requires Safe(s) && w < |s.wpc| && s.wpc[w].WSignalling?
    ensures Work(AfterWorkerQueue(s, w, woken)) < Work(s)
  {
    var k := Margin(s);
    var s' := AfterWorkerQueue(s, w, woken);
    SumUpdate(WorkerWork(k), s.wpc, w, s'.wpc[w]);
    SumRaised(DispatcherWork(k), s.dpc, s'.dpc, 2);
  }

  lemma WorkerWorksOnQueue(s: State, w: nat, woken: set<nat>)
    requires Safe(s) && w < |s.wpc| && PhaseOf(s.wpc[w]) == QueuePhase && !s.wpc[w].WAsleep?
    ensures Work(AfterWorkerQueue(s, w, woken)) < Work(s)
  {
    var s' := AfterWorkerQueue(s, w, woken);
    if s.wpc[w].WSignalling? {
      SignallingFreedWorks(s, w, woken);
    } else if s.wpc[w].WChecking? && !Empty(s.ring) {
      TakingWorks(s, s', w);
    } else {
      WorkerMovesAlone(s, s', w, -1);
    }
  }

  lemma WorkerWorks(cfg: Config, s: State, w: nat, woken: set<nat>, disk: Disk, addr: nat)
    requires Safe(s) && w < |s.wpc| && CanWorker(cfg, s, w, woken, disk, addr)
    ensures Work(AfterWorker(s, w, woken, disk, addr)) < Work(s)
  {
    match PhaseOf(s.wpc[w])
    case QueuePhase => WorkerWorksOnQueue(s, w, woken);
    case LookupPhase => WorkerMovesAlone(s, AfterWorkerLookup(s, w), w, -1);
    case MissPhase => WorkerMovesAlone(s, AfterWorkerMiss(s, w, disk, addr), w, -1);
    case LogPhase => WorkerMovesAlone(s, AfterWorkerLog(s, w), w, -1);
  }

  ghost function Cost(s: State, l: Label): nat {
    match l
    case Arrive(_, _, _) => RequestWork(s)
    case SpuriousDispatcher(_) | SpuriousWorker(_) => 2
    case DispatcherRuns(_, _) | WorkerRuns(_, _, _, _) => 0
  }

  /** An arrival or a spurious wakeup adds no more than its cost. */
  lemma OutsideAddsCost(cfg: Config, s: State, l: Label)
    requires Safe(s) && Can(cfg, s, l) && !IsMove(l)
    ensures Work(After(cfg, s, l)) <= Work(s) + Cost(s, l)
  {
    match l
    case Arrive(d, _, _) => DispatcherMovesAlone(s, After(cfg, s, l), d, RequestWork(s));
    case SpuriousDispatcher(d) => DispatcherMovesAlone(s, After(cfg, s, l), d, 2);
    case SpuriousWorker(w) => WorkerMovesAlone(s, After(cfg, s, l), w, 2);
  }

  lemma StepWorks(cfg: Config, s: State, l: Label)
    requires Safe(s) && Can(cfg, s, l)
    ensures Work(After(cfg, s, l)) + (if IsMove(l) then 1 else 0) <= Work(s) + Cost(s, l)
  {
    match l
    case Arrive(_, _, _) | SpuriousDispatcher(_) | SpuriousWorker(_) => OutsideAddsCost(cfg, s, l);
    case DispatcherRuns(d, woken) => DispatcherWorks(s, d, woken);
    case WorkerRuns(w, woken, disk, addr) => WorkerWorks(cfg, s, w, woken, disk, addr);
  }

  ghost function Moves(ls: seq<Label>): nat {
    if ls == [] then 0 else (if IsMove(ls[0]) then 1 else 0) + Moves(ls[1..])
  }

  ghost function Arrivals(ls: seq<Label>): nat {
    if ls == [] then 0 else (if ls[0].Arrive? then 1 else 0) + Arrivals(ls[1..])
  }

  ghost function SpuriousWakeups(ls: seq<Label>): nat {
    if ls == [] then 0 else (if IsMove(ls[0]) || ls[0].Arrive? then 0 else 1) + SpuriousWakeups(ls[1..])
  }

  /** In any interleaving, the server's own steps are bounded by the requests
      that arrived and the spurious wakeups that happened. */
  lemma {:induction false} RunIsBounded(cfg: Config, s: State, ls: seq<Label>, t: State)
    requires Safe(s) && Reaches(cfg, s, ls, t)
    ensures Moves(ls) + Work(t) <= Work(s) + RequestWork(s) * Arrivals(ls) + 2 * SpuriousWakeups(ls)
    decreases |ls|
  {
    if ls != [] {
      StepKeepsSafe(cfg, s, ls[0]);
      StepWorks(cfg, s, ls[0]);
      RunIsBounded(cfg, After(cfg, s, ls[0]), ls[1..], t);
      assert RequestWork(s) * (Arrivals(ls[1..]) + 1) == RequestWork(s) * Arrivals(ls[1..]) + RequestWork(s);
    } else {
      assert RequestWork(s) * 0 == 0;
    }
  }

  lemma InitialWork(cfg: Config, s: State)
    requires Initial(cfg, s)
    ensures Work(s) <= 2 * cfg.workers
    ensures RequestWork(s) == 4 * (cfg.dispatchers + cfg.workers) + 19
  {
    var k := Margin(s);
    SumZero(DispatcherWork(k), s.dpc);
    SumBounded(WorkerWork(k), s.wpc, 2);
    assert (15 + k) * s.ring.count == 0;
  }
}
