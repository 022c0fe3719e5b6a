// What a cached answer contains, told by the operations on the cache before the
// request was looked up.

module ServerHits {
  import opened Requests
  import opened LfuCache
  import opened LfuHistory
  import opened ServerModel
  import opened ServerLocks
  import opened ServerCaching
  import opened ServerJournal

  /** How many cache operations the first `n` notes tell of. */
  function OpsBefore(journal: seq<Note>, n: nat): nat
    requires n <= |journal|
  {
    |Collect(journal[..n], OpIn)|
  }

  /** The n-th note is about the cache operation after those before it. */
  lemma {:induction false} OpAt(journal: seq<Note>, n: nat)
    requires n < |journal| && journal[n].action.Did?
    ensures var m := OpsBefore(journal, n);
            && m < |Collect(journal, OpIn)| == |Collect(journal, EffectIn)|
            && Collect(journal, OpIn)[m] == journal[n].action.op
            && Collect(journal, EffectIn)[m] == journal[n].action.effect
    decreases |journal|
  {
    var init := journal[..|journal| - 1];
    SameLength(init);
    if n < |init| {
      OpAt(init, n);
      assert journal[..n] == init[..n];
    }
  }

  lemma {:induction false} SameLength(journal: seq<Note>)
    ensures |Collect(journal, OpIn)| == |Collect(journal, EffectIn)|
    decreases |journal|
  {
    if journal != [] {
      SameLength(journal[..|journal| - 1]);
    }
  }

  /** Before the m-th cache operation slot `i` held these bytes under this name. */
  ghost predicate HeldBefore(h: History, m: nat, i: nat, name: string, bytes: Bytes) {
    && m <= |h.ops| == |h.effects|
    && var op := LastFill(h.ops[..m], h.effects[..m], i);
       op.Some? && op.value.Insert? && op.value.name == name && op.value.content == bytes
  }

  /** The n-th note tells of the lookup of `r`, a hit on slot `i`. */
  ghost predicate FoundBy(h: History, n: nat, r: Request, i: nat) {
    n < |h.journal| && h.journal[n] == Note(r, Did(Lookup(r.name), Hit(i)))
  }

  /** The lookup of `r` was the latest operation on the cache. */
  ghost predicate FoundLast(h: History, r: Request, i: nat) {
    exists n :: FoundBy(h, n, r, i) && OpsBefore(h.journal, n) + 1 == |h.ops|
  }

  /** The lookup of `r` hit a slot that held these bytes. */
  ghost predicate FoundHolding(h: History, r: Request, bytes: Bytes) {
    exists n, i :: FoundBy(h, n, r, i) && HeldBefore(h, OpsBefore(h.journal, n), i, r.name, bytes)
  }

  ghost predicate HitsOk(s: State) {
    && (forall w | 0 <= w < |s.wpc| && s.wpc[w].WHit? :: FoundLast(s.history, s.wpc[w].r, s.wpc[w].slot))
    && (forall a | a in s.history.answers && a.source.FromCache? :: FoundHolding(s.history, a.r, a.source.bytes))
  }

  /** History is only added to. */
  ghost predicate Extends(h: History, h': History) {
    && h.journal <= h'.journal && h.ops <= h'.ops && h.effects <= h'.effects
    && (|h.ops| == |h.effects| ==> |h'.ops| == |h'.effects|)
  }

  lemma FoundStays(h: History, h': History, n: nat, r: Request, i: nat)
    requires Extends(h, h') && FoundBy(h, n, r, i)
    ensures FoundBy(h', n, r, i) && OpsBefore(h'.journal, n) == OpsBefore(h.journal, n)
  {
    assert h'.journal[..n] == h.journal[..n];
  }

  lemma HoldingStays(h: History, h': History, r: Request, bytes: Bytes)
    requires Extends(h, h') && FoundHolding(h, r, bytes)
    ensures FoundHolding(h', r, bytes)
  {
    var n, i :| FoundBy(h, n, r, i) && HeldBefore(h, OpsBefore(h.journal, n), i, r.name, bytes);
    FoundStays(h, h', n, r, i);
    var m := OpsBefore(h.journal, n);
    assert h'.ops[..m] == h.ops[..m] && h'.effects[..m] == h.effects[..m];
    assert HeldBefore(h', m, i, r.name, bytes);
  }

  lemma LastStays(h: History, h': History, r: Request, i: nat)
    requires Extends(h, h') && h'.ops == h.ops && FoundLast(h, r, i)
    ensures FoundLast(h', r, i)
  {
    var n :| FoundBy(h, n, r, i) && OpsBefore(h.journal, n) + 1 == |h.ops|;
    FoundStays(h, h', n, r, i);
  }

  /** A step that answers nothing from the cache and operates on it at most when
      no worker has a hit at hand. */
  lemma AddingKeepsHits(s: State, s': State)
    requires HitsOk(s) && Extends(s.history, s'.history)
    requires forall a | a in s'.history.answers && a.source.FromCache? :: a in s.history.answers
    requires forall w | 0 <= w < |s'.wpc| && s'.wpc[w].WHit? ::
               || (w < |s.wpc| && s.wpc[w] == s'.wpc[w] && s'.history.ops == s.history.ops)
               || FoundLast(s'.history, s'.wpc[w].r, s'.wpc[w].slot)
    ensures HitsOk(s')
  {
    forall w | 0 <= w < |s'.wpc| && s'.wpc[w].WHit?
      ensures FoundLast(s'.history, s'.wpc[w].r, s'.wpc[w].slot)
    {
      if w < |s.wpc| && s.wpc[w] == s'.wpc[w] && s'.history.ops == s.history.ops {
        LastStays(s.history, s'.history, s'.wpc[w].r, s'.wpc[w].slot);
      }
    }
    forall a | a in s'.history.answers && a.source.FromCache?
      ensures FoundHolding(s'.history, a.r, a.source.bytes)
    {
      HoldingStays(s.history, s'.history, a.r, a.source.bytes);
    }
  }

  lemma OtherStepsKeepHits(cfg: Config, s: State, l: Label)
    requires Safe(s) && HitsOk(s) && Can(cfg, s, l)
    requires l.WorkerRuns? ==> !s.wpc[l.w].WLooking? && !s.wpc[l.w].WInserting? && !s.wpc[l.w].WHit?
    ensures HitsOk(After(cfg, s, l))
  {
    if l.WorkerRuns? {
      match PhaseOf(s.wpc[l.w]) {
        case QueuePhase => AddingKeepsHits(s, AfterWorkerQueue(s, l.w, l.woken));
        case LookupPhase => AddingKeepsHits(s, AfterWorkerLookup(s, l.w));
        case MissPhase => AddingKeepsHits(s, AfterWorkerMiss(s, l.w, l.disk, l.addr));
        case LogPhase => AddingKeepsHits(s, AfterWorkerLog(s, l.w));
      }
    } else {
      AddingKeepsHits(s, After(cfg, s, l));
    }
  }

  lemma LookingKeepsHits(s: State, w: nat)
    requires Safe(s) && LocksOk(s) && JournalTells(s.history) && HitsOk(s) && w < |s.wpc| && s.wpc[w].WLooking?
    ensures HitsOk(AfterWorkerLookup(s, w))
  {
    var s' := AfterWorkerLookup(s, w);
    forall u | 0 <= u < |s.wpc| && s'.wpc[u].WHit?
      ensures u == w
    {
      if u != w {
        OneInCache(s, w, u);
      }
    }
    if s'.wpc[w].WHit? {
      var n := |s.history.journal|;
      assert s'.history.journal[..n] == s.history.journal;
      assert FoundBy(s'.history, n, s.wpc[w].r, s'.wpc[w].slot);
      assert OpsBefore(s'.history.journal, n) + 1 == |s'.history.ops|;
    }
    AddingKeepsHits(s, s');
  }

  lemma InsertingKeepsHits(s: State, w: nat, disk: Disk, addr: nat)
    requires Safe(s) && LocksOk(s) && HitsOk(s) && w < |s.wpc| && s.wpc[w].WInserting?
    ensures HitsOk(AfterWorkerMiss(s, w, disk, addr))
  {
    var s' := AfterWorkerMiss(s, w, disk, addr);
    forall u | 0 <= u < |s.wpc|
      ensures !s'.wpc[u].WHit?
    {
      if u != w && s.wpc[u].WHit? {
        OneInCache(s, w, u);
      }
    }
    AddingKeepsHits(s, s');
  }

  /** The bytes a worker with a hit copies are those of the slot's last fill. */
  lemma HitHolds(cfg: Config, c: Cache, s: State, w: nat)
    requires Safe(s) && IsCacheRun(c, s) && ContentOk(cfg, s) && JournalTells(s.history) && HitsOk(s)
    requires w < |s.wpc| && s.wpc[w].WHit?
    ensures FoundHolding(s.history, s.wpc[w].r, Content(s.cache, s.wpc[w].slot))
  {
    var h, r, i := s.history, s.wpc[w].r, s.wpc[w].slot;
    var n :| FoundBy(h, n, r, i) && OpsBefore(h.journal, n) + 1 == |h.ops|;
    SlotsHoldLastFills(c, h.ops, h.effects, s.cache);
    OpAt(h.journal, n);
    assert WorkerGenuine(s, s.wpc[w]);
    assert HeldBefore(h, OpsBefore(h.journal, n), i, r.name, Content(s.cache, i));
  }

  lemma SendingKeepsHits(cfg: Config, c: Cache, s: State, w: nat)
    requires Safe(s) && IsCacheRun(c, s) && ContentOk(cfg, s) && JournalTells(s.history) && HitsOk(s)
    requires w < |s.wpc| && s.wpc[w].WHit?
    ensures HitsOk(AfterWorkerLookup(s, w))
  {
    var s' := AfterWorkerLookup(s, w);
    HitHolds(cfg, c, s, w);
    forall u | 0 <= u < |s'.wpc| && s'.wpc[u].WHit?
      ensures FoundLast(s'.history, s'.wpc[u].r, s'.wpc[u].slot)
    {
      LastStays(s.history, s'.history, s'.wpc[u].r, s'.wpc[u].slot);
    }
    forall a | a in s'.history.answers && a.source.FromCache?
      ensures FoundHolding(s'.history, a.r, a.source.bytes)
    {
      HoldingStays(s.history, s'.history, a.r, a.source.bytes);
    }
  }

  lemma StepKeepsHits(cfg: Config, c: Cache, s: State, l: Label)
    requires Safe(s) && LocksOk(s) && IsCacheRun(c, s) && ContentOk(cfg, s) && JournalTells(s.history)
    requires HitsOk(s) && Can(cfg, s, l)
    ensures HitsOk(After(cfg, s, l))
  {
    if l.WorkerRuns? && s.wpc[l.w].WLooking? {
      LookingKeepsHits(s, l.w);
    } else if l.WorkerRuns? && s.wpc[l.w].WInserting? {
      InsertingKeepsHits(s, l.w, l.disk, l.addr);
    } else if l.WorkerRuns? && s.wpc[l.w].WHit? {
      SendingKeepsHits(cfg, c, s, l.w);
    } else {
      OtherStepsKeepHits(cfg, s, l);
    }
  }
}
