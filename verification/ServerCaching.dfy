// The cache under concurrency: lookup and insertion are two critical sections
// with an unlocked gap between them, yet the cache agrees with the disk, obeys
// its replacement policy and holds few duplicates.

module ServerCaching {
  import opened Options
  import opened Counting
  import opened Requests
  import opened LfuCache
  import opened LfuHistory
  import opened ServerModel
  import opened ServerLocks

  // ---------------------------------------------------------------- a run of the cache

  /** The cache operations of all workers, in the order of their critical
      sections, form one run of the cache initialised as `c`. */
  ghost predicate IsCacheRun(c: Cache, s: State) {
    IsFresh(c) && Runs(c, s.history.ops, s.history.effects, s.cache)
  }

  lemma StepKeepsCacheRun(cfg: Config, c: Cache, s: State, l: Label)
    requires Safe(s) && IsCacheRun(c, s) && Can(cfg, s, l)
    ensures IsCacheRun(c, After(cfg, s, l))
  {
    if l.WorkerRuns? {
      var pc := s.wpc[l.w];
      if pc.WLooking? {
        RunsExtend(c, s.history.ops, s.history.effects, s.cache, Lookup(pc.r.name));
      } else if pc.WInserting? {
        RunsExtend(c, s.history.ops, s.history.effects, s.cache, Insert(pc.r.name, pc.bytes, l.addr));
      } else {
        OtherStepsSpareCache(s, l.w, l.woken, l.disk, l.addr);
      }
    }
  }

  /** Only a worker looking up or inserting touches the cache. */
  lemma OtherStepsSpareCache(s: State, w: nat, woken: set<nat>, disk: Disk, addr: nat)
    requires Safe(s) && w < |s.wpc| && !s.wpc[w].WLooking? && !s.wpc[w].WInserting?
    ensures AfterWorker(s, w, woken, disk, addr).cache == s.cache
    ensures AfterWorker(s, w, woken, disk, addr).history.ops == s.history.ops
    ensures AfterWorker(s, w, woken, disk, addr).history.effects == s.history.effects
  {
    match PhaseOf(s.wpc[w])
    case QueuePhase =>
    case LookupPhase =>
    case MissPhase =>
    case LogPhase =>
  }

  // ---------------------------------------------------------------- agreement with the disk

  /** The disk once returned these bytes for this name. */
  ghost predicate WasRead(s: State, name: string, bytes: Bytes) {
    DiskRead(name, Data(bytes)) in s.history.diskReads
  }

  /** The disk once had no bytes for this name. */
  ghost predicate WasRefused(s: State, name: string) {
    DiskRead(name, NotFound) in s.history.diskReads || DiskRead(name, Unreadable) in s.history.diskReads
  }

  /** The bytes a worker has read and still carries. */
  function Fetched(pc: WorkerPc): Option<Bytes> {
    match pc
    case WWantInsert(_, b) => Some(b)
    case WInserting(_, b) => Some(b)
    case WInserted(_, b) => Some(b)
    case WAnswering(_, b) => Some(b)
    case _ => None
  }

  function RequestOf(pc: WorkerPc): Option<Request> {
    match pc
    case WWantInsert(r, _) => Some(r)
    case WInserting(r, _) => Some(r)
    case WInserted(r, _) => Some(r)
    case WAnswering(r, _) => Some(r)
    case WHit(r, _) => Some(r)
    case _ => None
  }

  ghost predicate SlotsGenuine(s: State)
    requires CacheOk(s.cache)
  {
    forall i | 0 <= i < s.cache.num :: WasRead(s, s.cache.entries[i].name, Content(s.cache, i))
  }

  /** Carried bytes were read for the carried request, a failing request was
      refused by the disk, and a hit names its slot. */
  ghost predicate WorkerGenuine(s: State, pc: WorkerPc)
    requires CacheOk(s.cache)
  {
    && (Fetched(pc).Some? ==> WasRead(s, RequestOf(pc).value.name, Fetched(pc).value))
    && (pc.WFailing? ==> WasRefused(s, pc.r.name))
    && (pc.WHit? ==> pc.slot < s.cache.num && s.cache.entries[pc.slot].name == pc.r.name)
  }

  ghost predicate AnswerGenuine(s: State, a: Answer) {
    if a.source.Failed? then WasRefused(s, a.r.name) else WasRead(s, a.r.name, a.source.bytes)
  }

  ghost predicate ReadsFaithful(cfg: Config, s: State) {
    forall x | x in s.history.diskReads && x.name in cfg.stable :: x.result == cfg.stable[x.name]
  }

  ghost predicate ContentOk(cfg: Config, s: State)
    requires CacheOk(s.cache)
  {
    && SlotsGenuine(s)
    && (forall w | 0 <= w < |s.wpc| :: WorkerGenuine(s, s.wpc[w]))
    && (forall a | a in s.history.answers :: AnswerGenuine(s, a))
    && ReadsFaithful(cfg, s)
  }

  /** While a worker processes a hit, it owns cacheMtx, so no other worker is in
      a cache critical section. */
  lemma OneInCache(s: State, w: nat, u: nat)
    requires LocksOk(s) && w < |s.wpc| && u < |s.wpc|
    requires WorkerHolds(s.wpc[w]) == Some(CacheMutex) && WorkerHolds(s.wpc[u]) == Some(CacheMutex)
    ensures w == u
  {
    assert Owner(s, CacheMutex) == Some(Worker(w)) <==> Holds(s, Worker(w)) == Some(CacheMutex);
    assert Owner(s, CacheMutex) == Some(Worker(u)) <==> Holds(s, Worker(u)) == Some(CacheMutex);
  }

  /** Steps that leave the cache alone. */
  lemma SameCacheKeepsContent(cfg: Config, s: State, s': State)
    requires CacheOk(s.cache) && ContentOk(cfg, s) && s'.cache == s.cache
    requires s.history.diskReads <= s'.history.diskReads && ReadsFaithful(cfg, s')
    requires forall a | a in s'.history.answers :: a in s.history.answers || AnswerGenuine(s', a)
    requires forall w | 0 <= w < |s'.wpc| :: WorkerGenuine(s', s'.wpc[w])
    ensures ContentOk(cfg, s')
  {}

  /** The other workers keep what they carry. */
  lemma OthersGenuine(s: State, s': State, w: nat)
    requires CacheOk(s.cache) && s'.cache == s.cache && w < |s.wpc| && |s'.wpc| == |s.wpc|
    requires forall u | 0 <= u < |s.wpc| && u != w :: s'.wpc[u] == s.wpc[u]
    requires s.history.diskReads <= s'.history.diskReads
    requires forall u | 0 <= u < |s.wpc| :: WorkerGenuine(s, s.wpc[u])
    ensures forall u | 0 <= u < |s.wpc| && u != w :: WorkerGenuine(s', s'.wpc[u])
  {}

  lemma LookingKeepsContent(cfg: Config, s: State, w: nat)
    requires Safe(s) && ContentOk(cfg, s) && w < |s.wpc| && s.wpc[w].WLooking?
    ensures CacheOk(AfterWorkerLookup(s, w).cache) && ContentOk(cfg, AfterWorkerLookup(s, w))
  {
    var s' := AfterWorkerLookup(s, w);
    LookupKeepsOk(s.cache, s.wpc[w].r.name);
    forall a | a in s'.history.answers
      ensures AnswerGenuine(s', a)
    {
      assert AnswerGenuine(s, a);
    }
    forall u | 0 <= u < |s.wpc|
      ensures WorkerGenuine(s', s'.wpc[u])
    {
      assert WorkerGenuine(s, s.wpc[u]);
    }
    forall i | 0 <= i < s'.cache.num
      ensures WasRead(s', s'.cache.entries[i].name, Content(s'.cache, i))
    {
      assert WasRead(s, s.cache.entries[i].name, Content(s.cache, i));
    }
  }

  lemma InsertingKeepsContent(cfg: Config, s: State, w: nat, disk: Disk, addr: nat)
    requires Safe(s) && LocksOk(s) && ContentOk(cfg, s)
    requires w < |s.wpc| && s.wpc[w].WInserting? && addr !in s.cache.heap
    ensures CacheOk(AfterWorkerMiss(s, w, disk, addr).cache) && ContentOk(cfg, AfterWorkerMiss(s, w, disk, addr))
  {
    var s' := AfterWorkerMiss(s, w, disk, addr);
    InsertEffect(s.cache, s.wpc[w].r.name, s.wpc[w].bytes, addr);
    assert WorkerGenuine(s, s.wpc[w]);
    forall a | a in s'.history.answers
      ensures AnswerGenuine(s', a)
    {
      assert AnswerGenuine(s, a);
    }
    forall u | 0 <= u < |s.wpc|
      ensures WorkerGenuine(s', s'.wpc[u])
    {
      assert WorkerGenuine(s, s.wpc[u]);
      if s.wpc[u].WHit? {
        OneInCache(s, w, u);
      }
    }
    forall i | 0 <= i < s'.cache.num
      ensures WasRead(s', s'.cache.entries[i].name, Content(s'.cache, i))
    {
      if i != Target(s.cache) {
        assert WasRead(s, s.cache.entries[i].name, Content(s.cache, i));
      }
    }
  }

  lemma LookupPhaseKeepsContent(cfg: Config, s: State, w: nat)
    requires Safe(s) && ContentOk(cfg, s) && w < |s.wpc| && PhaseOf(s.wpc[w]) == LookupPhase && !s.wpc[w].WLooking?
    ensures CacheOk(AfterWorkerLookup(s, w).cache) && ContentOk(cfg, AfterWorkerLookup(s, w))
  {
    var s' := AfterWorkerLookup(s, w);
    assert WorkerGenuine(s, s.wpc[w]);
    OthersGenuine(s, s', w);
    assert WorkerGenuine(s', s'.wpc[w]);
    if s.wpc[w].WHit? {
      assert WasRead(s, s.wpc[w].r.name, Content(s.cache, s.wpc[w].slot));
    }
    SameCacheKeepsContent(cfg, s, s');
  }

  lemma MissPhaseKeepsContent(cfg: Config, s: State, w: nat, woken: set<nat>, disk: Disk, addr: nat)
    requires Safe(s) && ContentOk(cfg, s) && w < |s.wpc| && CanWorker(cfg, s, w, woken, disk, addr)
    requires PhaseOf(s.wpc[w]) == MissPhase && !s.wpc[w].WInserting?
    ensures CacheOk(AfterWorkerMiss(s, w, disk, addr).cache) && ContentOk(cfg, AfterWorkerMiss(s, w, disk, addr))
  {
    var s' := AfterWorkerMiss(s, w, disk, addr);
    assert WorkerGenuine(s, s.wpc[w]);
    OthersGenuine(s, s', w);
    if s.wpc[w].WReading? {
      assert s'.history.diskReads[|s.history.diskReads|] == DiskRead(s.wpc[w].r.name, disk);
    }
    assert WorkerGenuine(s', s'.wpc[w]);
    SameCacheKeepsContent(cfg, s, s');
  }

  lemma WorkerKeepsContent(cfg: Config, s: State, w: nat, woken: set<nat>, disk: Disk, addr: nat)
    requires Safe(s) && LocksOk(s) && ContentOk(cfg, s) && w < |s.wpc| && CanWorker(cfg, s, w, woken, disk, addr)
    ensures CacheOk(AfterWorker(s, w, woken, disk, addr).cache)
    ensures ContentOk(cfg, AfterWorker(s, w, woken, disk, addr))
  {
    match PhaseOf(s.wpc[w])
    case QueuePhase =>
      OthersGenuine(s, AfterWorkerQueue(s, w, woken), w);
      SameCacheKeepsContent(cfg, s, AfterWorkerQueue(s, w, woken));
    case LookupPhase =>
      if s.wpc[w].WLooking? {
        LookingKeepsContent(cfg, s, w);
      } else {
        LookupPhaseKeepsContent(cfg, s, w);
      }
    case MissPhase =>
      if s.wpc[w].WInserting? {
        InsertingKeepsContent(cfg, s, w, disk, addr);
      } else {
        MissPhaseKeepsContent(cfg, s, w, woken, disk, addr);
      }
    case LogPhase =>
      OthersGenuine(s, AfterWorkerLog(s, w), w);
      SameCacheKeepsContent(cfg, s, AfterWorkerLog(s, w));
  }

  lemma StepKeepsContent(cfg: Config, s: State, l: Label)
    requires Safe(s) && LocksOk(s) && ContentOk(cfg, s) && Can(cfg, s, l)
    ensures CacheOk(After(cfg, s, l).cache) && ContentOk(cfg, After(cfg, s, l))
  {
    match l
    case WorkerRuns(w, woken, disk, addr) => WorkerKeepsContent(cfg, s, w, woken, disk, addr);
    case _ =>
      var s' := After(cfg, s, l);
      forall w | 0 <= w < |s'.wpc|
        ensures WorkerGenuine(s', s'.wpc[w])
      {
        assert WorkerGenuine(s, s.wpc[w]);
      }
      SameCacheKeepsContent(cfg, s, s');
  }

  /** What the disk has for the name is what was answered. */
  ghost predicate AnswersDisk(a: Answer, disk: Disk) {
    if a.source.Failed? then !disk.Data? else disk == Data(a.source.bytes)
  }

  /** What is answered comes from the disk under that very name; if the file does
      not change, it is what the disk returns for this request too. */
  lemma AnswerEqualsDisk(cfg: Config, s: State, a: Answer)
    requires CacheOk(s.cache) && ContentOk(cfg, s) && a in s.history.answers
    ensures AnswerGenuine(s, a)
    ensures a.r.name in cfg.stable ==> AnswersDisk(a, cfg.stable[a.r.name])
  {
    assert AnswerGenuine(s, a);
  }

  // ---------------------------------------------------------------- duplicates

  ghost function IsFor(name: string): Entry -> nat {
    (e: Entry) => if e.name == name then 1 else 0
  }

  /** 1 for a worker between missing on `name` and inserting it. */
  ghost function InGapFor(name: string): WorkerPc -> nat {
    (pc: WorkerPc) =>
      match pc
      case WMissed(r) => if r.name == name then 1 else 0
      case WReading(r) => if r.name == name then 1 else 0
      case WWantInsert(r, _) => if r.name == name then 1 else 0
      case WInserting(r, _) => if r.name == name then 1 else 0
      case _ => 0
  }

  /** The slots holding `name`. */
  ghost function Copies(c: Cache, name: string): nat
    requires c.num <= |c.entries|
  {
    Sum(IsFor(name), c.entries[..c.num])
  }

  ghost function InGap(s: State, name: string): nat {
    Sum(InGapFor(name), s.wpc)
  }

  ghost predicate FewCopies(s: State)
    requires CacheOk(s.cache)
  {
    forall name :: Copies(s.cache, name) + InGap(s, name) <= |s.wpc|
  }

  lemma LookupKeepsCopies(c: Cache, n: string, name: string)
    requires CacheOk(c)
    ensures Copies(AfterLookup(c, n), name) == Copies(c, name)
    ensures Resolve(c, n) == -1 ==> Copies(c, n) == 0
  {
    var i := Resolve(c, n);
    if i == -1 {
      SumZero(IsFor(n), c.entries[..c.num]);
    } else {
      var e := c.entries[i].(freq := c.entries[i].freq + 1);
      SumUpdate(IsFor(name), c.entries[..c.num], i, e);
      assert AfterLookup(c, n).entries[..c.num] == c.entries[..c.num][i := e];
    }
  }

  lemma InsertAddsCopy(c: Cache, n: string, content: Bytes, addr: nat, name: string)
    requires CacheOk(c) && addr !in c.heap
    ensures CacheOk(AfterInsert(c, n, content, addr))
    ensures Copies(AfterInsert(c, n, content, addr), name) <= Copies(c, name) + (if n == name then 1 else 0)
  {
    InsertEffect(c, n, content, addr);
    var d := AfterInsert(c, n, content, addr);
    var e := NewEntry(n, content, addr);
    if c.num == c.size {
      SumUpdate(IsFor(name), c.entries[..c.num], Target(c), e);
      assert d.entries[..d.num] == c.entries[..c.num][Target(c) := e];
    } else {
      SumAppend(IsFor(name), c.entries[..c.num], e);
      assert d.entries[..d.num] == c.entries[..c.num] + [e];
    }
  }

  lemma LookingKeepsCopies(s: State, w: nat, name: string)
    requires Safe(s) && FewCopies(s) && w < |s.wpc| && s.wpc[w].WLooking?
    ensures CacheOk(AfterWorkerLookup(s, w).cache)
    ensures Copies(AfterWorkerLookup(s, w).cache, name) + InGap(AfterWorkerLookup(s, w), name) <= |s.wpc|
  {
    var s' := AfterWorkerLookup(s, w);
    var r := s.wpc[w].r;
    LookupKeepsOk(s.cache, r.name);
    LookupKeepsCopies(s.cache, r.name, name);
    if s'.wpc[w].WMissed? && r.name == name {
      SumBounded(InGapFor(name), s'.wpc, 1);
    } else {
      assert Copies(s.cache, name) + InGap(s, name) <= |s.wpc|;
      SumUpdate(InGapFor(name), s.wpc, w, s'.wpc[w]);
    }
  }

  lemma InsertingKeepsCopies(s: State, w: nat, disk: Disk, addr: nat, name: string)
    requires Safe(s) && FewCopies(s) && w < |s.wpc| && s.wpc[w].WInserting? && addr !in s.cache.heap
    ensures CacheOk(AfterWorkerMiss(s, w, disk, addr).cache)
    ensures var after := AfterWorkerMiss(s, w, disk, addr); Copies(after.cache, name) + InGap(after, name) <= |s.wpc|
  {
    var s' := AfterWorkerMiss(s, w, disk, addr);
    assert Copies(s.cache, name) + InGap(s, name) <= |s.wpc|;
    InsertAddsCopy(s.cache, s.wpc[w].r.name, s.wpc[w].bytes, addr, name);
    SumUpdate(InGapFor(name), s.wpc, w, s'.wpc[w]);
  }

  lemma WorkerKeepsCopies(cfg: Config, s: State, w: nat, woken: set<nat>, disk: Disk, addr: nat)
    requires Safe(s) && FewCopies(s) && w < |s.wpc| && CanWorker(cfg, s, w, woken, disk, addr)
    ensures CacheOk(AfterWorker(s, w, woken, disk, addr).cache) && FewCopies(AfterWorker(s, w, woken, disk, addr))
  {
    var s' := AfterWorker(s, w, woken, disk, addr);
    if s.wpc[w].WLooking? {
      LookupKeepsOk(s.cache, s.wpc[w].r.name);
      forall name { LookingKeepsCopies(s, w, name); }
    } else if s.wpc[w].WInserting? {
      InsertKeepsOk(s.cache, s.wpc[w].r.name, s.wpc[w].bytes, addr);
      forall name { InsertingKeepsCopies(s, w, disk, addr, name); }
    } else {
      OtherStepsSpareCache(s, w, woken, disk, addr);
      forall name
        ensures Copies(s'.cache, name) + InGap(s', name) <= |s'.wpc|
      {
        assert Copies(s.cache, name) + InGap(s, name) <= |s.wpc|;
        OtherStepsNarrowGap(s, w, woken, disk, addr, name);
      }
    }
  }

  lemma OtherStepsNarrowGap(s: State, w: nat, woken: set<nat>, disk: Disk, addr: nat, name: string)
    requires Safe(s) && w < |s.wpc| && !s.wpc[w].WLooking? && !s.wpc[w].WInserting?
    ensures InGap(AfterWorker(s, w, woken, disk, addr), name) <= InGap(s, name)
    ensures |AfterWorker(s, w, woken, disk, addr).wpc| == |s.wpc|
  {
    OneWorkerMoves(s, w, woken, disk, addr);
    var s' := AfterWorker(s, w, woken, disk, addr);
    SumUpdate(InGapFor(name), s.wpc, w, s'.wpc[w]);
    GapNarrows(s, w, woken, disk, addr, name);
  }

  lemma OneWorkerMoves(s: State, w: nat, woken: set<nat>, disk: Disk, addr: nat)
    requires Safe(s) && w < |s.wpc|
    ensures var after := AfterWorker(s, w, woken, disk, addr).wpc;
            |after| == |s.wpc| && after == s.wpc[w := after[w]]
  {
    match PhaseOf(s.wpc[w])
    case QueuePhase =>
    case LookupPhase =>
    case MissPhase =>
    case LogPhase =>
  }

  /** Only a lookup leads into the gap. */
  lemma GapNarrows(s: State, w: nat, woken: set<nat>, disk: Disk, addr: nat, name: string)
    requires Safe(s) && w < |s.wpc| && !s.wpc[w].WLooking? && |AfterWorker(s, w, woken, disk, addr).wpc| == |s.wpc|
    ensures InGapFor(name)(AfterWorker(s, w, woken, disk, addr).wpc[w]) <= InGapFor(name)(s.wpc[w])
  {
    match PhaseOf(s.wpc[w])
    case QueuePhase =>
    case LookupPhase =>
    case MissPhase =>
    case LogPhase =>
  }

  lemma StepKeepsCopies(cfg: Config, s: State, l: Label)
    requires Safe(s) && FewCopies(s) && Can(cfg, s, l)
    ensures CacheOk(After(cfg, s, l).cache) && FewCopies(After(cfg, s, l))
  {
    match l
    case WorkerRuns(w, woken, disk, addr) => WorkerKeepsCopies(cfg, s, w, woken, disk, addr);
    case _ =>
      var s' := After(cfg, s, l);
      forall name
        ensures Copies(s'.cache, name) + InGap(s', name) <= |s'.wpc|
      {
        assert Copies(s.cache, name) + InGap(s, name) <= |s.wpc|;
        SumMonotone(InGapFor(name), s'.wpc, s.wpc);
      }
  }

  /** With one worker no request is cached twice. */
  lemma OneWorkerNoDuplicates(s: State, i: nat, j: nat)
    requires CacheOk(s.cache) && FewCopies(s) && |s.wpc| == 1 && i < j < s.cache.num
    ensures s.cache.entries[i].name != s.cache.entries[j].name
  {
    var name := s.cache.entries[i].name;
    assert Copies(s.cache, name) + InGap(s, name) <= 1;
    SumOfTwo(IsFor(name), s.cache.entries[..s.cache.num], i, j);
  }

  lemma InitialCaching(cfg: Config, s: State)
    requires Initial(cfg, s)
    ensures IsCacheRun(s.cache, s) && ContentOk(cfg, s) && FewCopies(s)
  {
    forall name
      ensures Copies(s.cache, name) + InGap(s, name) == 0
    {
      SumZero(InGapFor(name), s.wpc);
    }
  }
}
