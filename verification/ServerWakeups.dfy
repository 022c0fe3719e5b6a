// The condition-variable protocol: no wakeup is lost, although both sides
// signal after they have unlocked and threads may wake for no reason.

module ServerWakeups {
  import opened Counting
  import opened RequestRing
  import opened ServerModel

  /** 1 for a dispatcher that has stored a request and not yet signalled filled. */
  function OwesFilled(pc: DispatcherPc): nat {
    if pc.DStored? || pc.DSignalling? then 1 else 0
  }

  /** 1 for a dispatcher woken from its wait and not yet back past the loop test. */
  function DispatcherRechecks(pc: DispatcherPc): nat {
    if pc.DWoken? || (pc.DChecking? && pc.woken) then 1 else 0
  }

  /** 1 for a worker that has taken a request and not yet signalled freed. */
  function OwesFreed(pc: WorkerPc): nat {
    if pc.WTaken? || pc.WSignalling? then 1 else 0
  }

  /** 1 for a worker woken from its wait and not yet back past the loop test. */
  function WorkerRechecks(pc: WorkerPc): nat {
    if pc.WWoken? || (pc.WChecking? && pc.woken) then 1 else 0
  }

  /** While a worker sleeps, every queued request is covered by a signal still
      to come or by a worker already on its way. */
  ghost predicate FilledNotLost(s: State) {
    SleepingWorkers(s.wpc) != {} ==>
      s.ring.count <= Sum(OwesFilled, s.dpc) + Sum(WorkerRechecks, s.wpc)
  }

  /** While a dispatcher sleeps, every free slot is covered likewise. */
  ghost predicate FreedNotLost(s: State) {
    SleepingDispatchers(s.dpc) != {} ==>
      s.ring.size - s.ring.count <= Sum(OwesFreed, s.wpc) + Sum(DispatcherRechecks, s.dpc)
  }

  ghost predicate WakeupsOk(s: State) {
    FilledNotLost(s) && FreedNotLost(s)
  }

  // ---------------------------------------------------------------- one thread's step

  /** The effect of moving one dispatcher on both counts. */
  lemma DispatcherMoved(dpc: seq<DispatcherPc>, d: nat, pc: DispatcherPc)
    requires d < |dpc|
    ensures Sum(OwesFilled, dpc[d := pc]) + OwesFilled(dpc[d]) == Sum(OwesFilled, dpc) + OwesFilled(pc)
    ensures Sum(DispatcherRechecks, dpc[d := pc]) + DispatcherRechecks(dpc[d])
         == Sum(DispatcherRechecks, dpc) + DispatcherRechecks(pc)
    ensures SleepingDispatchers(dpc[d := pc]) == SleepingDispatchers(dpc) - {d} + (if pc.DAsleep? then {d} else {})
  {
    SumUpdate(OwesFilled, dpc, d, pc);
    SumUpdate(DispatcherRechecks, dpc, d, pc);
  }

  lemma WorkerMoved(wpc: seq<WorkerPc>, w: nat, pc: WorkerPc)
    requires w < |wpc|
    ensures Sum(OwesFreed, wpc[w := pc]) + OwesFreed(wpc[w]) == Sum(OwesFreed, wpc) + OwesFreed(pc)
    ensures Sum(WorkerRechecks, wpc[w := pc]) + WorkerRechecks(wpc[w]) == Sum(WorkerRechecks, wpc) + WorkerRechecks(pc)
    ensures SleepingWorkers(wpc[w := pc]) == SleepingWorkers(wpc) - {w} + (if pc.WAsleep? then {w} else {})
  {
    SumUpdate(OwesFreed, wpc, w, pc);
    SumUpdate(WorkerRechecks, wpc, w, pc);
  }

  /** A signal on filled puts at least one more worker on its way if any sleeps. */
  lemma WorkersWoken(wpc: seq<WorkerPc>, woken: set<nat>)
    requires MaySignal(SleepingWorkers(wpc), woken)
    ensures SleepingWorkers(WakeWorkers(wpc, woken)) <= SleepingWorkers(wpc)
    ensures Sum(OwesFreed, WakeWorkers(wpc, woken)) == Sum(OwesFreed, wpc)
    ensures Sum(WorkerRechecks, wpc) <= Sum(WorkerRechecks, WakeWorkers(wpc, woken))
    ensures SleepingWorkers(wpc) != {} ==> Sum(WorkerRechecks, wpc) < Sum(WorkerRechecks, WakeWorkers(wpc, woken))
  {
    var next := WakeWorkers(wpc, woken);
    SumMonotone(OwesFreed, wpc, next);
    SumMonotone(OwesFreed, next, wpc);
    SumMonotone(WorkerRechecks, wpc, next);
    if SleepingWorkers(wpc) != {} {
      var w :| w in woken;
      SumStrictlyRaised(WorkerRechecks, wpc, next, w);
    }
  }

  lemma DispatchersWoken(dpc: seq<DispatcherPc>, woken: set<nat>)
    requires MaySignal(SleepingDispatchers(dpc), woken)
    ensures SleepingDispatchers(WakeDispatchers(dpc, woken)) <= SleepingDispatchers(dpc)
    ensures Sum(OwesFilled, WakeDispatchers(dpc, woken)) == Sum(OwesFilled, dpc)
    ensures Sum(DispatcherRechecks, dpc) <= Sum(DispatcherRechecks, WakeDispatchers(dpc, woken))
    ensures SleepingDispatchers(dpc) != {} ==>
              Sum(DispatcherRechecks, dpc) < Sum(DispatcherRechecks, WakeDispatchers(dpc, woken))
  {
    var next := WakeDispatchers(dpc, woken);
    SumMonotone(OwesFilled, dpc, next);
    SumMonotone(OwesFilled, next, dpc);
    SumMonotone(DispatcherRechecks, dpc, next);
    if SleepingDispatchers(dpc) != {} {
      var d :| d in woken;
      SumStrictlyRaised(DispatcherRechecks, dpc, next, d);
    }
  }

  // ---------------------------------------------------------------- preservation

  lemma DispatcherKeepsWakeups(s: State, d: nat, woken: set<nat>)
    requires Safe(s) && WakeupsOk(s) && d < |s.dpc| && CanDispatcher(s, d, woken)
    ensures WakeupsOk(AfterDispatcher(s, d, woken))
  {
    var s' := AfterDispatcher(s, d, woken);
    DispatcherMoved(s.dpc, d, s'.dpc[d]);
    if s.dpc[d].DSignalling? {
      WorkersWoken(s.wpc, woken);
    }
  }

  lemma QueuePhaseKeepsWakeups(s: State, w: nat, woken: set<nat>)
    requires Safe(s) && WakeupsOk(s) && w < |s.wpc| && PhaseOf(s.wpc[w]) == QueuePhase
    requires s.wpc[w].WSignalling? ==> MaySignal(SleepingDispatchers(s.dpc), woken)
    ensures WakeupsOk(AfterWorkerQueue(s, w, woken))
  {
    var s' := AfterWorkerQueue(s, w, woken);
    WorkerMoved(s.wpc, w, s'.wpc[w]);
    if s.wpc[w].WSignalling? {
      DispatchersWoken(s.dpc, woken);
    }
  }

  /** Beyond the queue a worker owes no signal, sleeps not and waits for none. */
  lemma OtherPhasesKeepWakeups(s: State, s': State, w: nat)
    requires WakeupsOk(s) && w < |s.wpc| && |s'.wpc| == |s.wpc| && s'.wpc == s.wpc[w := s'.wpc[w]]
    requires s'.dpc == s.dpc && s'.ring == s.ring
    requires PhaseOf(s.wpc[w]) != QueuePhase && (PhaseOf(s'.wpc[w]) != QueuePhase || s'.wpc[w].WWantQueue?)
    ensures WakeupsOk(s')
  {
    WorkerMoved(s.wpc, w, s'.wpc[w]);
  }

  lemma WorkerKeepsWakeups(cfg: Config, s: State, w: nat, woken: set<nat>, disk: Disk, addr: nat)
    requires Safe(s) && WakeupsOk(s) && w < |s.wpc| && CanWorker(cfg, s, w, woken, disk, addr)
    ensures WakeupsOk(AfterWorker(s, w, woken, disk, addr))
  {
    match PhaseOf(s.wpc[w])
    case QueuePhase => QueuePhaseKeepsWakeups(s, w, woken);
    case LookupPhase => OtherPhasesKeepWakeups(s, AfterWorkerLookup(s, w), w);
    case MissPhase => OtherPhasesKeepWakeups(s, AfterWorkerMiss(s, w, disk, addr), w);
    case LogPhase => OtherPhasesKeepWakeups(s, AfterWorkerLog(s, w), w);
  }

  lemma StepKeepsWakeups(cfg: Config, s: State, l: Label)
    requires Safe(s) && WakeupsOk(s) && Can(cfg, s, l)
    ensures WakeupsOk(After(cfg, s, l))
  {
    match l
    case Arrive(d, fd, name) => DispatcherMoved(s.dpc, d, After(cfg, s, l).dpc[d]);
    case SpuriousDispatcher(d) => DispatcherMoved(s.dpc, d, DWoken(s.dpc[d].r));
    case SpuriousWorker(w) => WorkerMoved(s.wpc, w, WWoken);
    case DispatcherRuns(d, woken) => DispatcherKeepsWakeups(s, d, woken);
    case WorkerRuns(w, woken, disk, addr) => WorkerKeepsWakeups(cfg, s, w, woken, disk, addr);
  }

  lemma InitialWakeups(cfg: Config, s: State)
    requires Initial(cfg, s)
    ensures WakeupsOk(s)
  {}

  // ---------------------------------------------------------------- no deadlock

  ghost predicate AllAsleep(s: State) {
    && (forall d | 0 <= d < |s.dpc| :: s.dpc[d].DAsleep?)
    && (forall w | 0 <= w < |s.wpc| :: s.wpc[w].WAsleep?)
  }

  /** With at least one thread on each side and one slot, not everybody sleeps. */
  lemma NotAllAsleep(s: State)
    requires WakeupsOk(s) && RingOk(s.ring) && s.dpc != [] && s.wpc != []
    ensures !AllAsleep(s)
  {
    assert s.wpc[0].WAsleep? ==> 0 in SleepingWorkers(s.wpc);
    assert s.dpc[0].DAsleep? ==> 0 in SleepingDispatchers(s.dpc);
    if AllAsleep(s) {
      SumZero(OwesFilled, s.dpc);
      SumZero(WorkerRechecks, s.wpc);
      SumZero(OwesFreed, s.wpc);
      SumZero(DispatcherRechecks, s.dpc);
    }
  }

  /** If all workers sleep and every dispatcher accepts or sleeps, then the
      queue is empty and no dispatcher sleeps. */
  lemma QuietMeansDrained(s: State)
    requires WakeupsOk(s) && RingOk(s.ring) && s.wpc != []
    requires forall d | 0 <= d < |s.dpc| :: s.dpc[d].DAsleep? || s.dpc[d].Accepting?
    requires forall w | 0 <= w < |s.wpc| :: s.wpc[w].WAsleep?
    ensures s.ring.count == 0
    ensures forall d | 0 <= d < |s.dpc| :: s.dpc[d].Accepting?
  {
    SumZero(OwesFilled, s.dpc);
    SumZero(WorkerRechecks, s.wpc);
    SumZero(OwesFreed, s.wpc);
    SumZero(DispatcherRechecks, s.dpc);
    assert 0 in SleepingWorkers(s.wpc);
    assert SleepingDispatchers(s.dpc) == {};
    assert forall d | 0 <= d < |s.dpc| :: s.dpc[d].DAsleep? ==> d in SleepingDispatchers(s.dpc);
  }
}
