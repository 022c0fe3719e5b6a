// What holds in every reachable state of the web server, for any number of
// threads, any queue length and cache size, and any interleaving.

module ServerTheorems {
  import opened Options
  import opened Requests
  import opened RequestRing
  import opened LfuCache
  import opened LfuHistory
  import opened ServerModel
  import opened ServerLocks
  import opened ServerWakeups
  import opened ServerProgress
  import opened ServerRequests
  import opened ServerCaching
  import opened ServerJournal
  import opened ServerHits

  /** The joint invariant; `c` is the cache as it was initialised. */
  ghost predicate Inv(cfg: Config, c: Cache, s: State) {
    && Safe(s)
    && |s.dpc| == cfg.dispatchers && |s.wpc| == cfg.workers && s.ring.size == cfg.queueLength
    && LocksOk(s)
    && WakeupsOk(s)
    && RequestsOk(s)
    && IsCacheRun(c, s) && OwnsAllBut(c, {}) && c.size == cfg.cacheEntries
    && ContentOk(cfg, s)
    && FewCopies(s)
    && JournalOk(s) && JournalTells(s.history)
    && HitsOk(s)
  }

  /** Every admissible configuration can be started. */
  lemma ServerStarts(cfg: Config)
    requires ValidConfig(cfg)
    ensures exists s :: Initial(cfg, s)
  {
    var ring := Ring(0, 0, 0, cfg.queueLength, seq(cfg.queueLength, _ => Request(0, 0, "")));
    var cache := Cache(0, 0, cfg.cacheEntries, seq(cfg.cacheEntries, _ => Entry(0, "", 0, 0)), map[]);
    var s := State(seq(cfg.dispatchers, _ => Accepting), seq(cfg.workers, _ => WWantQueue),
                   None, None, None, ring, cache, History([], [], [], [], [], [], [], [], []));
    assert Initial(cfg, s);
  }

  lemma InitialInv(cfg: Config, s: State)
    requires Initial(cfg, s)
    ensures Inv(cfg, s.cache, s)
  {
    InitialLocks(cfg, s);
    InitialWakeups(cfg, s);
    InitialRequests(cfg, s);
    InitialCaching(cfg, s);
    InitialJournal(cfg, s);
    assert Buffers(s.cache.entries, 0) == {};
  }

  lemma StepKeepsInv(cfg: Config, c: Cache, s: State, l: Label)
    requires Inv(cfg, c, s) && Can(cfg, s, l)
    ensures Inv(cfg, c, After(cfg, s, l))
  {
    StepKeepsSafe(cfg, s, l);
    StepKeepsLocks(cfg, s, l);
    StepKeepsWakeups(cfg, s, l);
    StepKeepsRequests(cfg, s, l);
    StepKeepsCacheRun(cfg, c, s, l);
    StepKeepsContent(cfg, s, l);
    StepKeepsCopies(cfg, s, l);
    StepKeepsJournal(cfg, s, l);
    StepTells(cfg, s, l);
    StepKeepsHits(cfg, c, s, l);
  }

  lemma {:induction false} RunKeepsInv(cfg: Config, c: Cache, s: State, ls: seq<Label>, t: State)
    requires Inv(cfg, c, s) && Reaches(cfg, s, ls, t)
    ensures Inv(cfg, c, t)
    decreases |ls|
  {
    if ls != [] {
      StepKeepsInv(cfg, c, s, ls[0]);
      RunKeepsInv(cfg, c, After(cfg, s, ls[0]), ls[1..], t);
    }
  }

  lemma ReachableInv(cfg: Config, t: State) returns (c: Cache)
    requires Reachable(cfg, t)
    ensures Inv(cfg, c, t) && ValidConfig(cfg)
  {
    var s, ls :| ValidConfig(cfg) && Initial(cfg, s) && Reaches(cfg, s, ls, t);
    InitialInv(cfg, s);
    RunKeepsInv(cfg, s.cache, s, ls, t);
    c := s.cache;
  }

  /** No thread ever owns two mutexes, and a mutex is owned exactly by the
      thread inside its critical section. */
  lemma NoThreadHoldsTwo(cfg: Config, t: State, who: Thread, m: Mutex, n: Mutex)
    requires Reachable(cfg, t)
    ensures Owner(t, m) == Some(who) <==> Holds(t, who) == Some(m)
    ensures Owner(t, m) == Some(who) && Owner(t, n) == Some(who) ==> m == n
  {
    var c := ReachableInv(cfg, t);
    assert Owner(t, n) == Some(who) <==> Holds(t, who) == Some(n);
  }

  /** Deadlock freedom.  Not everybody sleeps; and unless every dispatcher waits
      for a client, every worker for a request and the queue is empty, some
      thread can take its next step without outside help. */
  lemma NeverDeadlocks(cfg: Config, t: State)
    requires Reachable(cfg, t)
    ensures !AllAsleep(t)
    ensures CanMove(cfg, t) <==> !Quiet(t)
  {
    var c := ReachableInv(cfg, t);
    NotAllAsleep(t);
    MovesUnlessQuiet(cfg, t);
  }

  /** No wakeup is lost, on either condition variable.  When no thread is inside
      a critical section of the queue, the threads counted are exactly those
      between unlock and signal and those woken but not yet back. */
  lemma NoLostWakeup(cfg: Config, t: State)
    requires Reachable(cfg, t)
    ensures FilledNotLost(t) && FreedNotLost(t)
    ensures t.mtx == None ==>
              && (forall d | 0 <= d < |t.dpc| :: !t.dpc[d].DStored? && !t.dpc[d].DChecking?)
              && (forall w | 0 <= w < |t.wpc| :: !t.wpc[w].WTaken? && !t.wpc[w].WChecking?)
  {
    var c := ReachableInv(cfg, t);
    forall who: Thread
      ensures t.mtx == None ==> Holds(t, who) != Some(QueueMutex)
    {
      OwnersOf(t, who);
    }
    assert forall d | 0 <= d < |t.dpc| :: DispatcherHolds(t.dpc[d]) == Holds(t, Dispatcher(d));
    assert forall w | 0 <= w < |t.wpc| :: WorkerHolds(t.wpc[w]) == Holds(t, Worker(w));
  }

  /** The ring's indices, and first-in first-out over the whole run. */
  lemma QueueIsFifo(cfg: Config, t: State)
    requires Reachable(cfg, t)
    ensures RingOk(t.ring) && t.ring.size == cfg.queueLength
    ensures t.history.stored == t.history.taken + Contents(t.ring)
  {
    var c := ReachableInv(cfg, t);
  }

  /** Who connected, and what each of them asked for, in order. */
  function Clients(ls: seq<Label>): seq<(int, string)> {
    if ls == [] then []
    else (if ls[0].Arrive? then [(ls[0].fd, ls[0].name)] else []) + Clients(ls[1..])
  }

  /** The accepted requests are the arrivals, in order, each with its descriptor
      and its name. */
  lemma {:induction false} AcceptsArrivals(cfg: Config, s: State, ls: seq<Label>, t: State)
    requires Safe(s) && Reaches(cfg, s, ls, t)
    ensures |t.history.accepted| == |s.history.accepted| + |Clients(ls)| && s.history.accepted <= t.history.accepted
    ensures forall k | 0 <= k < |Clients(ls)| ::
              var id := |s.history.accepted| + k;
              t.history.accepted[id] == Request(id, Clients(ls)[k].0, Clients(ls)[k].1)
    decreases |ls|
  {
    if ls != [] {
      StepKeepsSafe(cfg, s, ls[0]);
      var s' := After(cfg, s, ls[0]);
      StepAccepts(cfg, s, ls[0]);
      AcceptsArrivals(cfg, s', ls[1..], t);
    }
  }

  lemma StepAccepts(cfg: Config, s: State, l: Label)
    requires Safe(s) && Can(cfg, s, l)
    ensures After(cfg, s, l).history.accepted
         == s.history.accepted + if l.Arrive? then [Request(|s.history.accepted|, l.fd, l.name)] else []
  {
    if l.WorkerRuns? {
      match PhaseOf(s.wpc[l.w])
      case QueuePhase =>
      case LookupPhase =>
      case MissPhase =>
      case LogPhase =>
    }
  }

  /** Where request `r` is, how often it was answered and what was logged. */
  ghost predicate ServedOnce(t: State, r: Request, p: Place)
    requires RingOk(t.ring)
  {
    && At(t, r, p) && (forall q :: At(t, r, q) ==> q == p)
    && (IsDone(p) <==> exists a :: a in t.history.answers && a.r == r)
    && (p.Logged? <==> exists x :: x in t.history.log && x.r == r)
    && (forall i, j | 0 <= i < j < |t.history.answers| ::
          !(t.history.answers[i].r == r && t.history.answers[j].r == r))
    && (forall i, j | 0 <= i < j < |t.history.log| :: !(t.history.log[i].r == r && t.history.log[j].r == r))
    && (forall a, x | a in t.history.answers && a.r == r && x in t.history.log && x.r == r ::
          x.hit <==> a.source.FromCache?)
  }

  /** Exactly-once service: every accepted request is in exactly one place, is
      answered exactly once when it is done and logged exactly once in the end,
      as HIT exactly when the bytes came from the cache. */
  lemma ExactlyOnce(cfg: Config, t: State, r: Request)
    requires Reachable(cfg, t) && IsAccepted(t.history, r)
    ensures RingOk(t.ring) && exists p :: ServedOnce(t, r, p)
  {
    var c := ReachableInv(cfg, t);
    assert IsSomewhere(t, r);
    var p :| At(t, r, p);
    forall a | a in t.history.answers && a.r == r
      ensures IsDone(p) && (SaysHit(t, p) <==> a.source.FromCache?)
    {
      assert HasLine(t, a);
      var q :| LoggedAs(t, a, q);
    }
    if IsDone(p) {
      assert IsAnswered(t.history, r);
    }
    forall k | 0 <= k < |t.history.log| && t.history.log[k].r == r
      ensures p == Logged(k)
    {
      assert At(t, r, Logged(k));
    }
    if p.Logged? {
      assert t.history.log[p.k] in t.history.log;
    }
    assert ServedOnce(t, r, p);
  }

  /** Nothing is answered or logged that was not accepted. */
  lemma NothingInvented(cfg: Config, t: State, a: Answer)
    requires Reachable(cfg, t) && a in t.history.answers
    ensures IsAccepted(t.history, a.r)
  {
    var c := ReachableInv(cfg, t);
    assert HasLine(t, a);
    var q :| LoggedAs(t, a, q);
  }

  /** The life of a request.  What is done for an accepted request follows one of
      three courses: stored, taken, looked up under its name, and then either a hit,
      answered from the cache and logged as HIT; or a miss, read, inserted under
      its name with the bytes read, answered with these bytes and logged as MISS;
      or a miss without data, answered with an error and logged as MISS.  A logged
      request has completed its course.  The histories of the queue, the cache,
      the disk, the answers and the log are these courses interleaved. */
  lemma RequestLife(cfg: Config, t: State, r: Request)
    requires Reachable(cfg, t) && IsAccepted(t.history, r)
    ensures var tr := Trace(t.history.journal, r);
            && (FollowsHit(tr, r.name) || FollowsMiss(tr, r.name) || FollowsFailure(tr, r.name))
            && (forall x | x in t.history.log && x.r == r :: IsLoggedAs(tr, r.name, x.hit))
            && (forall source :: Answer(r, source) in t.history.answers <==> Sent(source) in tr)
    ensures JournalTells(t.history)
  {
    var c := ReachableInv(cfg, t);
    assert IsSomewhere(t, r);
    var p :| At(t, r, p);
    PlaceFits(t, r, p);
    forall source
      ensures Answer(r, source) in t.history.answers <==> Sent(source) in Trace(t.history.journal, r)
    {
      AnswerInTrace(t.history.journal, Answer(r, source));
    }
  }

  lemma PlaceFits(t: State, r: Request, p: Place)
    requires RingOk(t.ring) && JournalOk(t) && At(t, r, p)
    ensures var tr := Trace(t.history.journal, r);
            FollowsHit(tr, r.name) || FollowsMiss(tr, r.name) || FollowsFailure(tr, r.name)
  {
    match p
    case InHand(d) =>
    case Queued(k) => assert Trace(t.history.journal, Contents(t.ring)[k - |t.history.taken|]) == [Stored];
    case Serving(w) => assert Subject(t.wpc[w]) == Some(r) && FitsPc(t.wpc[w], Trace(t.history.journal, r));
    case Logging(w) => assert Subject(t.wpc[w]) == Some(r) && FitsPc(t.wpc[w], Trace(t.history.journal, r));
    case Logged(k) => assert IsLoggedAs(Trace(t.history.journal, t.history.log[k].r), r.name, t.history.log[k].hit);
  }

  /** The n-th note tells of a cache operation for `r`, the m-th of the run. */
  ghost predicate OpOf(h: History, n: nat, r: Request, m: nat) {
    && n < |h.journal| && h.journal[n].r == r && h.journal[n].action.Did?
    && m == OpsBefore(h.journal, n) < |h.ops| == |h.effects|
    && h.ops[m] == h.journal[n].action.op && h.effects[m] == h.journal[n].action.effect
  }

  /** Operation `m` is the lookup of `r`, and the only operation for it. */
  ghost predicate OnlyLookup(h: History, r: Request, m: nat) {
    && m < |h.ops| == |h.effects| && h.ops[m] == Lookup(r.name)
    && (exists n :: OpOf(h, n, r, m))
    && (forall n, k :: OpOf(h, n, r, k) ==> k == m)
  }

  /** Operation `m` is the lookup of `r`, a miss; operation `k`, later, its
      insertion of `bytes`; and there is no other operation for it. */
  ghost predicate LookupThenInsert(h: History, r: Request, m: nat, k: nat, bytes: Bytes) {
    && m < k < |h.ops| == |h.effects|
    && h.ops[m] == Lookup(r.name) && h.effects[m] == Miss
    && h.ops[k].Insert? && h.ops[k].name == r.name && h.ops[k].content == bytes
    && (exists n :: OpOf(h, n, r, m)) && (exists n :: OpOf(h, n, r, k))
    && (forall n, j :: OpOf(h, n, r, j) ==> j == m || j == k)
  }

  /** The k-th thing done for `r`, a cache operation, is in the run. */
  lemma TracedOp(h: History, r: Request, k: nat) returns (n: nat)
    requires JournalTells(h) && k < |Trace(h.journal, r)| && Trace(h.journal, r)[k].Did?
    ensures n == Where(h.journal, r, k) && OpOf(h, n, r, OpsBefore(h.journal, n))
    ensures h.journal[n] == Note(r, Trace(h.journal, r)[k])
  {
    n := Where(h.journal, r, k);
    WhereIsNote(h.journal, r, k);
    OpAt(h.journal, n);
  }

  /** Every operation for `r` is one of those in its trace. */
  lemma OpIsTraced(h: History, n: nat, r: Request, m: nat) returns (k: nat)
    requires OpOf(h, n, r, m)
    ensures k < |Trace(h.journal, r)| && Trace(h.journal, r)[k] == h.journal[n].action
    ensures n == Where(h.journal, r, k) && m == OpsBefore(h.journal, n)
  {
    k := NoteIsSomewhere(h.journal, n, r);
  }

  lemma {:induction false} OpsBeforeGrows(journal: seq<Note>, n: nat, m: nat)
    requires n < m <= |journal| && journal[n].action.Did?
    ensures OpsBefore(journal, n) < OpsBefore(journal, m)
    decreases m
  {
    assert journal[..m][..m - 1] == journal[..m - 1];
    if n < m - 1 {
      OpsBeforeGrows(journal, n, m - 1);
    }
  }

  /** What an answer says about its request's course. */
  lemma AnswerFollows(cfg: Config, t: State, a: Answer)
    requires Reachable(cfg, t) && a in t.history.answers
    ensures var tr := Trace(t.history.journal, a.r);
            match a.source
            case FromCache(b) => |tr| > 3 && FollowsHit(tr, a.r.name) && tr[3] == Sent(a.source)
            case FromDisk(b) =>
              |tr| > 5 && FollowsMiss(tr, a.r.name) && tr[3] == Read(Data(b)) && tr[5] == Sent(a.source)
            case Failed => |tr| > 4 && FollowsFailure(tr, a.r.name) && tr[4] == Sent(a.source)
    ensures JournalTells(t.history)
  {
    NothingInvented(cfg, t, a);
    RequestLife(cfg, t, a.r);
    var tr := Trace(t.history.journal, a.r);
    assert Answer(a.r, a.source) == a;
    assert Sent(a.source) in tr;
  }

  /** Whatever was read is cached.  A request answered with bytes from the disk
      has exactly two operations on the cache of its own: the lookup of its name,
      a miss, and after it the insertion of these very bytes under its name. */
  lemma MissesAreInserted(cfg: Config, t: State, a: Answer)
    requires Reachable(cfg, t) && a in t.history.answers && a.source.FromDisk?
    ensures exists m, k :: LookupThenInsert(t.history, a.r, m, k, a.source.bytes)
  {
    AnswerFollows(cfg, t, a);
    var h, r := t.history, a.r;
    var tr := Trace(h.journal, r);
    var n2 := TracedOp(h, r, 2);
    var n4 := TracedOp(h, r, 4);
    var m, k := OpsBefore(h.journal, n2), OpsBefore(h.journal, n4);
    WhereIsNote(h.journal, r, 4);
    OpsBeforeGrows(h.journal, n2, n4);
    forall n, j | OpOf(h, n, r, j)
      ensures j == m || j == k
    {
      var i := OpIsTraced(h, n, r, j);
      assert i == 2 || i == 4;
    }
    assert LookupThenInsert(h, r, m, k, a.source.bytes);
  }

  /** A request answered from the cache or with an error has exactly one
      operation on the cache, the lookup of its name. */
  lemma OthersOnlyLookUp(cfg: Config, t: State, a: Answer) returns (m: nat)
    requires Reachable(cfg, t) && a in t.history.answers && !a.source.FromDisk?
    ensures OnlyLookup(t.history, a.r, m)
    ensures a.source.FromCache? <==> t.history.effects[m].Hit?
    ensures a.source.Failed? <==> t.history.effects[m] == Miss
  {
    AnswerFollows(cfg, t, a);
    var h, r := t.history, a.r;
    var n2 := TracedOp(h, r, 2);
    m := OpsBefore(h.journal, n2);
    forall n, j | OpOf(h, n, r, j)
      ensures j == m
    {
      var i := OpIsTraced(h, n, r, j);
      assert i == 2;
    }
  }

  /** Operation `m` is the lookup of the answered request. */
  ghost predicate IsLookupOf(h: History, r: Request, m: nat) {
    && m < |h.ops| == |h.effects| && h.ops[m] == Lookup(r.name) && exists n :: OpOf(h, n, r, m)
  }

  /** When a request is answered from the cache.  Each answered request was looked
      up once; and it is answered from the cache exactly if at that moment some
      slot had last been filled for its name.  The bytes are then those of the
      last fill of the lowest such slot. */
  lemma HitsExactlyIfCached(cfg: Config, t: State, a: Answer) returns (m: nat)
    requires Reachable(cfg, t) && a in t.history.answers
    ensures IsLookupOf(t.history, a.r, m)
    ensures forall k :: IsLookupOf(t.history, a.r, k) ==> k == m
    ensures var ops, effects := t.history.ops[..m], t.history.effects[..m];
            && (a.source.FromCache? <==> exists i: nat :: FilledFor(ops, effects, i, a.r.name))
            && (a.source.FromCache? ==> exists i: nat ::
                  && HeldBefore(t.history, m, i, a.r.name, a.source.bytes)
                  && forall j: nat | j < i :: !FilledFor(ops, effects, j, a.r.name))
  {
    AnswerFollows(cfg, t, a);
    var h, r := t.history, a.r;
    var n2 := TracedOp(h, r, 2);
    m := OpsBefore(h.journal, n2);
    forall k | IsLookupOf(h, r, k)
      ensures k == m
    {
      var n :| OpOf(h, n, r, k);
      var i := OpIsTraced(h, n, r, k);
      assert i == 2 || i == 4;
    }
    var c := ReachableInv(cfg, t);
    EffectsFollowHistory(c, h.ops, h.effects, t.cache, m);
    if a.source.FromCache? {
      CachedBytes(h, a, m);
    }
  }

  lemma CachedBytes(h: History, a: Answer, m: nat)
    requires JournalTells(h) && a.source.FromCache? && FoundHolding(h, a.r, a.source.bytes)
    requires forall k :: IsLookupOf(h, a.r, k) ==> k == m
    requires m < |h.ops| == |h.effects| && h.effects[m].Hit?
    ensures HeldBefore(h, m, h.effects[m].slot, a.r.name, a.source.bytes)
  {
    var n, i :| FoundBy(h, n, a.r, i) && HeldBefore(h, OpsBefore(h.journal, n), i, a.r.name, a.source.bytes);
    OpAt(h.journal, n);
    assert OpOf(h, n, a.r, OpsBefore(h.journal, n));
    assert IsLookupOf(h, a.r, OpsBefore(h.journal, n));
  }

  /** Cache transparency.  Bytes sent, on a hit as on a miss, were read from the
      disk for that very name, and an error is sent only after the disk had no
      bytes for it.  For a file that does not change every answer is therefore
      what the disk has: its bytes, or an error exactly if it has none. */
  lemma CacheIsTransparent(cfg: Config, t: State, a: Answer)
    requires Reachable(cfg, t) && a in t.history.answers
    ensures if a.source.Failed? then WasRefused(t, a.r.name) else WasRead(t, a.r.name, a.source.bytes)
    ensures a.r.name in cfg.stable ==> AnswersDisk(a, cfg.stable[a.r.name])
  {
    var c := ReachableInv(cfg, t);
    AnswerEqualsDisk(cfg, t, a);
  }

  /** For each name, the slots holding it and the workers about to insert it
      are together at most the workers; one worker never caches a name twice. */
  lemma DuplicatesAreBounded(cfg: Config, t: State, name: string)
    requires Reachable(cfg, t)
    ensures CacheOk(t.cache) && Copies(t.cache, name) + InGap(t, name) <= cfg.workers
    ensures cfg.workers == 1 ==>
              forall i, j | 0 <= i < j < t.cache.num :: t.cache.entries[i].name != t.cache.entries[j].name
  {
    var c := ReachableInv(cfg, t);
    if cfg.workers == 1 {
      forall i, j | 0 <= i < j < t.cache.num
        ensures t.cache.entries[i].name != t.cache.entries[j].name
      {
        OneWorkerNoDuplicates(t, i, j);
      }
    }
  }

  /** LFU and ownership in the running server: use counts are the hits since the
      slot was filled, whoever caused them; the live cache buffers are exactly
      those of the occupied slots, one each; the next slot follows the count. */
  lemma CacheFollowsHistory(cfg: Config, t: State)
    requires Reachable(cfg, t)
    ensures CacheOk(t.cache) && t.cache.size == cfg.cacheEntries
    ensures CountsHits(t.cache, t.history.effects)
    ensures t.cache.heap.Keys == Buffers(t.cache.entries, t.cache.num)
  {
    var c := ReachableInv(cfg, t);
    RunsKeepOk(c, t.history.ops, t.history.effects, t.cache);
    RunsCountHits(c, [], t.history.ops, t.history.effects, t.cache);
    assert [] + t.history.effects == t.history.effects;
    RunsOwn(c, t.history.ops, t.history.effects, t.cache, {});
  }

  /** In every interleaving the server's own steps are bounded by the arrivals
      and the spurious wakeups, so it cannot spin; and when it can move no
      further, every accepted request has been answered and logged. */
  lemma EventuallyServesEverything(cfg: Config, s: State, ls: seq<Label>, t: State)
    requires ValidConfig(cfg) && Initial(cfg, s) && Reaches(cfg, s, ls, t)
    ensures Moves(ls) <= 2 * cfg.workers
                         + (4 * (cfg.dispatchers + cfg.workers) + 19) * Arrivals(ls)
                         + 2 * SpuriousWakeups(ls)
    ensures RingOk(t.ring)
    ensures !CanMove(cfg, t) ==>
              forall r | IsAccepted(t.history, r) :: exists k :: At(t, r, Logged(k)) && IsAnswered(t.history, r)
  {
    InitialWork(cfg, s);
    RunIsBounded(cfg, s, ls, t);
    InitialInv(cfg, s);
    RunKeepsInv(cfg, s.cache, s, ls, t);
    MovesUnlessQuiet(cfg, t);
    if !CanMove(cfg, t) {
      forall r | IsAccepted(t.history, r)
        ensures exists k :: At(t, r, Logged(k)) && IsAnswered(t.history, r)
      {
        QuietMeansLogged(t, r);
      }
    }
  }

  lemma QuietMeansLogged(t: State, r: Request)
    requires RingOk(t.ring) && RequestsOk(t) && Quiet(t) && IsAccepted(t.history, r)
    ensures exists k :: At(t, r, Logged(k)) && IsAnswered(t.history, r)
  {}
}
