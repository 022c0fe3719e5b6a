// The multithreaded web server as a labelled transition system.  A step is one
// atomic action of one thread: taking or releasing a mutex, one critical
// section's work, a signal, a disk read, an answer, a log line.

module ServerModel {
  import opened Options
  import opened Requests
  import opened RequestRing
  import opened LfuCache
  import opened LfuHistory

  datatype Thread = Dispatcher(d: nat) | Worker(w: nat)

  /** mtx guards the request queue, cacheMtx the cache, logMtx the log file. */
  datatype Mutex = QueueMutex | CacheMutex | LogMutex

  /** What the disk has for a name: no such file, a file that cannot be read,
      or its bytes. */
  datatype Disk = NotFound | Unreadable | Data(bytes: Bytes)

  /** Where a dispatcher is. */
  datatype DispatcherPc =
    | Accepting                             // in accept_connection or get_request
    | DWantQueue(r: Request)                // blocked on, or about to take, mtx
    | DChecking(r: Request, woken: bool)    // holds mtx, at the head of its wait loop
    | DAsleep(r: Request)                   // blocked on the condition freed, without mtx
    | DWoken(r: Request)                    // unblocked, wants mtx back
    | DStored                               // holds mtx, the request is in the queue
    | DSignalling                           // has released mtx, has not yet signalled filled

  /** Where a worker is. */
  datatype WorkerPc =
    | WWantQueue
    | WChecking(woken: bool)                // holds mtx, at the head of its wait loop
    | WAsleep                               // blocked on the condition filled, without mtx
    | WWoken                                // unblocked, wants mtx back
    | WTaken(r: Request)                    // holds mtx, the request is out of the queue
    | WSignalling(r: Request)               // has released mtx, has not yet signalled freed
    | WWantLookup(r: Request)
    | WLooking(r: Request)                  // holds cacheMtx
    | WHit(r: Request, slot: nat)           // holds cacheMtx, about to copy and send
    | WHitSent(r: Request)                  // holds cacheMtx, answer sent
    | WMissed(r: Request)                   // holds cacheMtx, found nothing
    | WReading(r: Request)                  // in the unlocked gap, before the disk read
    | WFailing(r: Request)                  // no size or no data, about to send the error
    | WWantInsert(r: Request, bytes: Bytes) // in the unlocked gap, after the disk read
    | WInserting(r: Request, bytes: Bytes)  // holds cacheMtx
    | WInserted(r: Request, bytes: Bytes)   // holds cacheMtx, the entry is stored
    | WAnswering(r: Request, bytes: Bytes)  // has released cacheMtx, about to send
    | WWantLog(r: Request, hit: bool)
    | WLogging(r: Request, hit: bool)       // holds logMtx
    | WLogged                               // holds logMtx, line written

  /** return_result with cached bytes, return_result with bytes just read, or return_error. */
  datatype Source = FromCache(bytes: Bytes) | FromDisk(bytes: Bytes) | Failed

  datatype Answer = Answer(r: Request, source: Source)

  datatype LogLine = LogLine(r: Request, hit: bool)

  /** One stat and read of a file. */
  datatype DiskRead = DiskRead(name: string, result: Disk)

  /** What a thread did for a request. */
  datatype Action =
    | Stored                            // put it into the queue
    | Taken                             // took it out
    | Did(op: Op, effect: Effect)       // looked its name up, or inserted what was read
    | Read(result: Disk)                // read its file
    | Sent(source: Source)              // answered it
    | Wrote(hit: bool)                  // wrote its log line

  datatype Note = Note(r: Request, action: Action)

  datatype Config = Config(dispatchers: nat, workers: nat, queueLength: nat, cacheEntries: nat,
                           stable: map<string, Disk>)   // the files that do not change

  /** What happened so far: history, read by no thread. */
  datatype History = History(accepted: seq<Request>, stored: seq<Request>, taken: seq<Request>,
                             answers: seq<Answer>, log: seq<LogLine>,
                             diskReads: seq<DiskRead>, ops: seq<Op>, effects: seq<Effect>,
                             journal: seq<Note>)

  datatype State = State(dpc: seq<DispatcherPc>, wpc: seq<WorkerPc>,
                         mtx: Option<Thread>, cacheMtx: Option<Thread>, logMtx: Option<Thread>,
                         ring: Ring, cache: Cache, history: History)

  /** main refuses every other combination of arguments. */
  ghost predicate ValidConfig(cfg: Config) {
    1 <= cfg.dispatchers && 1 <= cfg.workers && 1 <= cfg.queueLength && 1 <= cfg.cacheEntries
  }

  /** The state in which main has initialised the queue and the cache and
      started every thread. */
  ghost predicate Initial(cfg: Config, s: State)
    ensures Initial(cfg, s) ==> Safe(s)
  {
    && |s.dpc| == cfg.dispatchers && (forall d | 0 <= d < |s.dpc| :: s.dpc[d] == Accepting)
    && |s.wpc| == cfg.workers && (forall w | 0 <= w < |s.wpc| :: s.wpc[w] == WWantQueue)
    && s.mtx == None && s.cacheMtx == None && s.logMtx == None
    && RingOk(s.ring) && s.ring.count == 0 && s.ring.size == cfg.queueLength
    && IsFresh(s.cache) && s.cache.size == cfg.cacheEntries && s.cache.heap == map[]
    && s.history == History([], [], [], [], [], [], [], [], [])
  }

  /** What every step needs of the state it starts from. */
  ghost predicate Safe(s: State) {
    && RingOk(s.ring)
    && CacheOk(s.cache)
    && (forall w | 0 <= w < |s.wpc| && s.wpc[w].WHit? :: s.wpc[w].slot < s.cache.num)
  }

  // ---------------------------------------------------------------- condition variables

  ghost function SleepingDispatchers(dpc: seq<DispatcherPc>): set<nat> {
    set d | 0 <= d < |dpc| && dpc[d].DAsleep?
  }

  ghost function SleepingWorkers(wpc: seq<WorkerPc>): set<nat> {
    set w | 0 <= w < |wpc| && wpc[w].WAsleep?
  }

  /** pthread_cond_signal unblocks at least one of the blocked threads, if any. */
  ghost predicate MaySignal(asleep: set<nat>, woken: set<nat>) {
    woken <= asleep && (asleep != {} ==> woken != {})
  }

  ghost function WakeDispatchers(dpc: seq<DispatcherPc>, woken: set<nat>): (r: seq<DispatcherPc>)
    ensures |r| == |dpc|
  {
    seq(|dpc|, d requires 0 <= d < |dpc| => if d in woken && dpc[d].DAsleep? then DWoken(dpc[d].r) else dpc[d])
  }

  ghost function WakeWorkers(wpc: seq<WorkerPc>, woken: set<nat>): (r: seq<WorkerPc>)
    ensures |r| == |wpc|
  {
    seq(|wpc|, w requires 0 <= w < |wpc| => if w in woken && wpc[w].WAsleep? then WWoken else wpc[w])
  }

  // ---------------------------------------------------------------- steps

  /** A new request reaches a dispatcher; a blocked thread wakes for no reason;
      or a thread takes its next step, in which a signal unblocks `woken`, the
      disk returns `disk` and malloc returns `addr`. */
  datatype Label =
    | Arrive(d: nat, fd: int, name: string)
    | SpuriousDispatcher(d: nat)
    | SpuriousWorker(w: nat)
    | DispatcherRuns(d: nat, woken: set<nat>)
    | WorkerRuns(w: nat, woken: set<nat>, disk: Disk, addr: nat)

  ghost predicate CanDispatcher(s: State, d: nat, woken: set<nat>)
    requires d < |s.dpc|
  {
    match s.dpc[d]
    case Accepting | DAsleep(_) => false
    case DWantQueue(_) | DWoken(_) => s.mtx == None
    case DSignalling => MaySignal(SleepingWorkers(s.wpc), woken)
    case DChecking(_, _) | DStored => true
  }

  ghost predicate CanWorker(cfg: Config, s: State, w: nat, woken: set<nat>, disk: Disk, addr: nat)
    requires w < |s.wpc|
  {
    match s.wpc[w]
    case WAsleep => false
    case WWantQueue | WWoken => s.mtx == None
    case WSignalling(_) => MaySignal(SleepingDispatchers(s.dpc), woken)
    case WWantLookup(_) | WWantInsert(_, _) => s.cacheMtx == None
    case WReading(r) => r.name in cfg.stable ==> disk == cfg.stable[r.name]
    case WInserting(_, _) => addr !in s.cache.heap
    case WWantLog(_, _) => s.logMtx == None
    case _ => true
  }

  ghost predicate Can(cfg: Config, s: State, l: Label) {
    match l
    case Arrive(d, _, _) => d < |s.dpc| && s.dpc[d].Accepting?
    case SpuriousDispatcher(d) => d < |s.dpc| && s.dpc[d].DAsleep?
    case SpuriousWorker(w) => w < |s.wpc| && s.wpc[w].WAsleep?
    case DispatcherRuns(d, woken) => d < |s.dpc| && CanDispatcher(s, d, woken)
    case WorkerRuns(w, woken, disk, addr) => w < |s.wpc| && CanWorker(cfg, s, w, woken, disk, addr)
  }

  /** The history with one more note in the journal. */
  function Noted(h: History, r: Request, action: Action): History {
    h.(journal := h.journal + [Note(r, action)])
  }

  function Received(h: History, fd: int, name: string): Request {
    Request(|h.accepted|, fd, name)
  }

  ghost function AfterArrive(s: State, d: nat, fd: int, name: string): State
    requires d < |s.dpc|
  {
    var r := Received(s.history, fd, name);
    s.(dpc := s.dpc[d := DWantQueue(r)],
       history := s.history.(accepted := s.history.accepted + [r]))
  }

  ghost function AfterDispatcher(s: State, d: nat, woken: set<nat>): State
    requires d < |s.dpc| && Safe(s)
  {
    match s.dpc[d]
    case DWantQueue(r) => s.(dpc := s.dpc[d := DChecking(r, false)], mtx := Some(Dispatcher(d)))
    case DChecking(r, _) =>
      if Full(s.ring) then s.(dpc := s.dpc[d := DAsleep(r)], mtx := None)
      else s.(dpc := s.dpc[d := DStored], ring := Put(s.ring, r),
              history := Noted(s.history.(stored := s.history.stored + [r]), r, Stored))
    case DWoken(r) => s.(dpc := s.dpc[d := DChecking(r, true)], mtx := Some(Dispatcher(d)))
    case DStored => s.(dpc := s.dpc[d := DSignalling], mtx := None)
    case DSignalling => s.(dpc := s.dpc[d := Accepting], wpc := WakeWorkers(s.wpc, woken))
    case Accepting | DAsleep(_) => s
  }

  /** A worker's steps up to and including the signal on freed. */
  ghost function AfterWorkerQueue(s: State, w: nat, woken: set<nat>): State
    requires w < |s.wpc| && Safe(s)
  {
    match s.wpc[w]
    case WWantQueue => s.(wpc := s.wpc[w := WChecking(false)], mtx := Some(Worker(w)))
    case WChecking(_) =>
      if Empty(s.ring) then s.(wpc := s.wpc[w := WAsleep], mtx := None)
      else s.(wpc := s.wpc[w := WTaken(Front(s.ring))], ring := Rest(s.ring),
              history := Noted(s.history.(taken := s.history.taken + [Front(s.ring)]), Front(s.ring), Taken))
    case WWoken => s.(wpc := s.wpc[w := WChecking(true)], mtx := Some(Worker(w)))
    case WTaken(r) => s.(wpc := s.wpc[w := WSignalling(r)], mtx := None)
    case WSignalling(r) => s.(wpc := s.wpc[w := WWantLookup(r)], dpc := WakeDispatchers(s.dpc, woken))
    case _ => s
  }

  /** The cache and its history after one cache operation for a request. */
  ghost function Cached(s: State, r: Request, op: Op): State
    requires CacheOk(s.cache)
  {
    var h := s.history.(ops := s.history.ops + [op], effects := s.history.effects + [EffectOf(s.cache, op)]);
    s.(cache := Apply(s.cache, op), history := Noted(h, r, Did(op, EffectOf(s.cache, op))))
  }

  ghost function Answered(s: State, r: Request, source: Source): State {
    s.(history := Noted(s.history.(answers := s.history.answers + [Answer(r, source)]), r, Sent(source)))
  }

  /** A worker's lookup, and what it does with a hit. */
  ghost function AfterWorkerLookup(s: State, w: nat): State
    requires w < |s.wpc| && Safe(s)
  {
    match s.wpc[w]
    case WWantLookup(r) => s.(wpc := s.wpc[w := WLooking(r)], cacheMtx := Some(Worker(w)))
    case WLooking(r) =>
      var i := Resolve(s.cache, r.name);
      Cached(s, r, Lookup(r.name)).(wpc := s.wpc[w := if i == -1 then WMissed(r) else WHit(r, i)])
    case WHit(r, i) => Answered(s, r, FromCache(Content(s.cache, i))).(wpc := s.wpc[w := WHitSent(r)])
    case WHitSent(r) => s.(wpc := s.wpc[w := WWantLog(r, true)], cacheMtx := None)
    case WMissed(r) => s.(wpc := s.wpc[w := WReading(r)], cacheMtx := None)
    case _ => s
  }

  /** A worker's disk read, and what it does with the bytes or the error. */
  ghost function AfterWorkerMiss(s: State, w: nat, disk: Disk, addr: nat): State
    requires w < |s.wpc| && Safe(s)
  {
    match s.wpc[w]
    case WReading(r) =>
      s.(wpc := s.wpc[w := if disk.Data? then WWantInsert(r, disk.bytes) else WFailing(r)],
         history := Noted(s.history.(diskReads := s.history.diskReads + [DiskRead(r.name, disk)]), r, Read(disk)))
    case WFailing(r) => Answered(s, r, Failed).(wpc := s.wpc[w := WWantLog(r, false)])
    case WWantInsert(r, b) => s.(wpc := s.wpc[w := WInserting(r, b)], cacheMtx := Some(Worker(w)))
    case WInserting(r, b) => Cached(s, r, Insert(r.name, b, addr)).(wpc := s.wpc[w := WInserted(r, b)])
    case WInserted(r, b) => s.(wpc := s.wpc[w := WAnswering(r, b)], cacheMtx := None)
    case WAnswering(r, b) => Answered(s, r, FromDisk(b)).(wpc := s.wpc[w := WWantLog(r, false)])
    case _ => s
  }

  ghost function AfterWorkerLog(s: State, w: nat): State
    requires w < |s.wpc| && Safe(s)
  {
    match s.wpc[w]
    case WWantLog(r, hit) => s.(wpc := s.wpc[w := WLogging(r, hit)], logMtx := Some(Worker(w)))
    case WLogging(r, hit) =>
      s.(wpc := s.wpc[w := WLogged],
         history := Noted(s.history.(log := s.history.log + [LogLine(r, hit)]), r, Wrote(hit)))
    case WLogged => s.(wpc := s.wpc[w := WWantQueue], logMtx := None)
    case _ => s
  }

  /** Which part of the worker's loop a program counter belongs to. */
  datatype Phase = QueuePhase | LookupPhase | MissPhase | LogPhase

  function PhaseOf(pc: WorkerPc): Phase {
    match pc
    case WWantQueue | WChecking(_) | WAsleep | WWoken | WTaken(_) | WSignalling(_) => QueuePhase
    case WWantLookup(_) | WLooking(_) | WHit(_, _) | WHitSent(_) | WMissed(_) => LookupPhase
    case WReading(_) | WFailing(_) | WWantInsert(_, _) | WInserting(_, _) | WInserted(_, _) | WAnswering(_, _) =>
      MissPhase
    case WWantLog(_, _) | WLogging(_, _) | WLogged => LogPhase
  }

  ghost function AfterWorker(s: State, w: nat, woken: set<nat>, disk: Disk, addr: nat): State
    requires w < |s.wpc| && Safe(s)
  {
    match PhaseOf(s.wpc[w])
    case QueuePhase => AfterWorkerQueue(s, w, woken)
    case LookupPhase => AfterWorkerLookup(s, w)
    case MissPhase => AfterWorkerMiss(s, w, disk, addr)
    case LogPhase => AfterWorkerLog(s, w)
  }

  ghost function After(cfg: Config, s: State, l: Label): State
    requires Safe(s) && Can(cfg, s, l)
  {
    match l
    case Arrive(d, fd, name) => AfterArrive(s, d, fd, name)
    case SpuriousDispatcher(d) => s.(dpc := s.dpc[d := DWoken(s.dpc[d].r)])
    case SpuriousWorker(w) => s.(wpc := s.wpc[w := WWoken])
    case DispatcherRuns(d, woken) => AfterDispatcher(s, d, woken)
    case WorkerRuns(w, woken, disk, addr) => AfterWorker(s, w, woken, disk, addr)
  }

  /** The threads and buffers of the server never change in number or size. */
  ghost predicate SameShape(s: State, t: State) {
    |t.dpc| == |s.dpc| && |t.wpc| == |s.wpc| && t.ring.size == s.ring.size
  }

  lemma DispatcherKeepsSafe(s: State, d: nat, woken: set<nat>)
    requires Safe(s) && d < |s.dpc|
    ensures Safe(AfterDispatcher(s, d, woken)) && SameShape(s, AfterDispatcher(s, d, woken))
  {
    if s.dpc[d].DChecking? && !Full(s.ring) {
      PutIsAppend(s.ring, s.dpc[d].r);
    }
  }

  lemma WorkerKeepsSafe(cfg: Config, s: State, w: nat, woken: set<nat>, disk: Disk, addr: nat)
    requires Safe(s) && w < |s.wpc| && CanWorker(cfg, s, w, woken, disk, addr)
    ensures Safe(AfterWorker(s, w, woken, disk, addr)) && SameShape(s, AfterWorker(s, w, woken, disk, addr))
  {
    match PhaseOf(s.wpc[w])
    case QueuePhase =>
      if s.wpc[w].WChecking? && !Empty(s.ring) {
        RestIsTail(s.ring);
      }
    case LookupPhase =>
      LookupKeepsOk(s.cache, s.wpc[w].r.name);
    case MissPhase =>
      if s.wpc[w].WInserting? {
        InsertKeepsOk(s.cache, s.wpc[w].r.name, s.wpc[w].bytes, addr);
      }
    case LogPhase =>
  }

  lemma StepKeepsSafe(cfg: Config, s: State, l: Label)
    requires Safe(s) && Can(cfg, s, l)
    ensures Safe(After(cfg, s, l)) && SameShape(s, After(cfg, s, l))
  {
    match l
    case DispatcherRuns(d, woken) => DispatcherKeepsSafe(s, d, woken);
    case WorkerRuns(w, woken, disk, addr) => WorkerKeepsSafe(cfg, s, w, woken, disk, addr);
    case _ =>
  }

  /** `t` is reached from `s` by the steps `ls`, in any interleaving. */
  ghost predicate Reaches(cfg: Config, s: State, ls: seq<Label>, t: State)
    requires Safe(s)
    decreases |ls|
  {
    if ls == [] then t == s
    else
      && Can(cfg, s, ls[0])
      && (StepKeepsSafe(cfg, s, ls[0]); Reaches(cfg, After(cfg, s, ls[0]), ls[1..], t))
  }

  /** Every state some run of the server can be in. */
  ghost predicate Reachable(cfg: Config, t: State) {
    exists s, ls :: ValidConfig(cfg) && Initial(cfg, s) && Reaches(cfg, s, ls, t)
  }
}
