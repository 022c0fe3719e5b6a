// The life of a request: everything the server does for it, in order, in every
// reachable state.

module ServerJournal {
  import opened Options
  import opened Requests
  import opened RequestRing
  import opened LfuCache
  import opened LfuHistory
  import opened ServerModel
  import opened ServerRequests

  /** What was done for one request, oldest first. */
  function Trace(journal: seq<Note>, r: Request): seq<Action> {
    if journal == [] then []
    else
      var last := journal[|journal| - 1];
      Trace(journal[..|journal| - 1], r) + if last.r == r then [last.action] else []
  }

  lemma TraceGrows(journal: seq<Note>, n: Note, r: Request)
    ensures Trace(journal + [n], r) == if n.r == r then Trace(journal, r) + [n.action] else Trace(journal, r)
  {
    assert (journal + [n])[..|journal|] == journal;
  }

  /** The note of the k-th thing done for `r`. */
  function Where(journal: seq<Note>, r: Request, k: nat): (n: nat)
    requires k < |Trace(journal, r)|
    ensures n < |journal|
  {
    var last := |journal| - 1;
    if journal[last].r == r && k == |Trace(journal[..last], r)| then last else Where(journal[..last], r, k)
  }

  lemma {:induction false} WhereIsNote(journal: seq<Note>, r: Request, k: nat)
    requires k < |Trace(journal, r)|
    ensures journal[Where(journal, r, k)] == Note(r, Trace(journal, r)[k])
    ensures forall i: nat | i < k :: Where(journal, r, i) < Where(journal, r, k)
    decreases |journal|
  {
    var last := |journal| - 1;
    if journal[last].r != r || k < |Trace(journal[..last], r)| {
      WhereIsNote(journal[..last], r, k);
    }
  }

  /** Every note about `r` is one of these. */
  lemma {:induction false} NoteIsSomewhere(journal: seq<Note>, n: nat, r: Request) returns (k: nat)
    requires n < |journal| && journal[n].r == r
    ensures k < |Trace(journal, r)| && Trace(journal, r)[k] == journal[n].action && Where(journal, r, k) == n
    decreases |journal|
  {
    var last := |journal| - 1;
    if n < last {
      k := NoteIsSomewhere(journal[..last], n, r);
    } else {
      k := |Trace(journal[..last], r)|;
    }
  }

  // ---------------------------------------------------------------- the three courses

  /** Every course begins like this: stored, taken, looked up under its name. */
  predicate Begins(tr: seq<Action>, name: string) {
    && (|tr| > 0 ==> tr[0] == Stored)
    && (|tr| > 1 ==> tr[1] == Taken)
    && (|tr| > 2 ==> tr[2].Did? && tr[2].op == Lookup(name))
  }

  /** A hit: answered from the cache, logged as HIT. */
  predicate FollowsHit(tr: seq<Action>, name: string) {
    && |tr| <= 5 && Begins(tr, name)
    && (|tr| > 2 ==> tr[2].effect.Hit?)
    && (|tr| > 3 ==> tr[3].Sent? && tr[3].source.FromCache?)
    && (|tr| > 4 ==> tr[4] == Wrote(true))
  }

  /** A miss: read, inserted under its name with the bytes read, answered with
      these bytes, logged as MISS. */
  predicate FollowsMiss(tr: seq<Action>, name: string) {
    && |tr| <= 7 && Begins(tr, name)
    && (|tr| > 2 ==> tr[2].effect == Miss)
    && (|tr| > 3 ==> tr[3].Read? && tr[3].result.Data?)
    && (|tr| > 4 ==> tr[4].Did? && tr[4].op.Insert? && tr[4].op.name == name
                     && tr[4].op.content == tr[3].result.bytes && tr[4].effect.Fill?)
    && (|tr| > 5 ==> tr[5] == Sent(FromDisk(tr[3].result.bytes)))
    && (|tr| > 6 ==> tr[6] == Wrote(false))
  }

  /** A failure: the disk has no data; answered with an error, logged as MISS. */
  predicate FollowsFailure(tr: seq<Action>, name: string) {
    && |tr| <= 6 && Begins(tr, name)
    && (|tr| > 2 ==> tr[2].effect == Miss)
    && (|tr| > 3 ==> tr[3].Read? && !tr[3].result.Data?)
    && (|tr| > 4 ==> tr[4] == Sent(Failed))
    && (|tr| > 5 ==> tr[5] == Wrote(false))
  }

  /** Answered, not yet logged. */
  predicate IsAnsweredAs(tr: seq<Action>, name: string, hit: bool) {
    if hit then |tr| == 4 && FollowsHit(tr, name)
    else (|tr| == 6 && FollowsMiss(tr, name)) || (|tr| == 5 && FollowsFailure(tr, name))
  }

  predicate IsLoggedAs(tr: seq<Action>, name: string, hit: bool) {
    if hit then |tr| == 5 && FollowsHit(tr, name)
    else (|tr| == 7 && FollowsMiss(tr, name)) || (|tr| == 6 && FollowsFailure(tr, name))
  }

  // ---------------------------------------------------------------- where a request is in its course

  /** The request a worker deals with. */
  function Subject(pc: WorkerPc): Option<Request> {
    if Serves(pc).Some? then Serves(pc)
    else if ToLog(pc).Some? then Some(ToLog(pc).value.r)
    else None
  }

  /** How far a worker's request has come. */
  predicate FitsPc(pc: WorkerPc, tr: seq<Action>) {
    match pc
    case WTaken(r) => |tr| == 2 && Begins(tr, r.name)
    case WSignalling(r) => |tr| == 2 && Begins(tr, r.name)
    case WWantLookup(r) => |tr| == 2 && Begins(tr, r.name)
    case WLooking(r) => |tr| == 2 && Begins(tr, r.name)
    case WHit(r, i) => |tr| == 3 && FollowsHit(tr, r.name) && tr[2].effect == Hit(i)
    case WHitSent(r) => IsAnsweredAs(tr, r.name, true)
    case WMissed(r) => |tr| == 3 && FollowsMiss(tr, r.name)
    case WReading(r) => |tr| == 3 && FollowsMiss(tr, r.name)
    case WFailing(r) => |tr| == 4 && FollowsFailure(tr, r.name)
    case WWantInsert(r, b) => |tr| == 4 && FollowsMiss(tr, r.name) && tr[3] == Read(Data(b))
    case WInserting(r, b) => |tr| == 4 && FollowsMiss(tr, r.name) && tr[3] == Read(Data(b))
    case WInserted(r, b) => |tr| == 5 && FollowsMiss(tr, r.name) && tr[3] == Read(Data(b))
    case WAnswering(r, b) => |tr| == 5 && FollowsMiss(tr, r.name) && tr[3] == Read(Data(b))
    case WWantLog(r, hit) => IsAnsweredAs(tr, r.name, hit)
    case WLogging(r, hit) => IsAnsweredAs(tr, r.name, hit)
    case _ => true
  }

  ghost predicate HandsFit(s: State) {
    forall d | 0 <= d < |s.dpc| && Carries(s.dpc[d]).Some? :: Trace(s.history.journal, Carries(s.dpc[d]).value) == []
  }

  ghost predicate QueueFits(s: State)
    requires RingOk(s.ring)
  {
    forall k | 0 <= k < s.ring.count :: Trace(s.history.journal, Contents(s.ring)[k]) == [Stored]
  }

  ghost predicate WorkersFit(s: State) {
    forall w | 0 <= w < |s.wpc| && Subject(s.wpc[w]).Some? ::
      FitsPc(s.wpc[w], Trace(s.history.journal, Subject(s.wpc[w]).value))
  }

  ghost predicate LogFits(s: State) {
    forall k | 0 <= k < |s.history.log| ::
      IsLoggedAs(Trace(s.history.journal, s.history.log[k].r), s.history.log[k].r.name, s.history.log[k].hit)
  }

  /** Nothing was done for a request that was not accepted. */
  ghost predicate OthersFit(s: State) {
    forall r | !IsAccepted(s.history, r) :: Trace(s.history.journal, r) == []
  }

  ghost predicate JournalOk(s: State)
    requires RingOk(s.ring)
  {
    HandsFit(s) && QueueFits(s) && WorkersFit(s) && LogFits(s) && OthersFit(s)
  }

  // ---------------------------------------------------------------- steps

  /** One more note: only its request's trace grows. */
  ghost predicate TracesGrow(s: State, s': State, r: Request, action: Action) {
    forall q :: Trace(s'.history.journal, q)
             == if q == r then Trace(s.history.journal, q) + [action] else Trace(s.history.journal, q)
  }

  lemma NoteGrowsTraces(s: State, s': State, r: Request, action: Action)
    requires s'.history.journal == s.history.journal + [Note(r, action)]
    ensures TracesGrow(s, s', r, action)
  {
    forall q
      ensures Trace(s'.history.journal, q)
           == if q == r then Trace(s.history.journal, q) + [action] else Trace(s.history.journal, q)
    {
      TraceGrows(s.history.journal, Note(r, action), q);
    }
  }

  /** A request is in no second place. */
  lemma NowhereElse(s: State, r: Request, p: Place, q: Place)
    requires RingOk(s.ring) && PlacesOk(s) && At(s, r, p) && q != p
    ensures !At(s, r, q)
  {}

  lemma AtWorker(s: State, w: nat, r: Request)
    requires RingOk(s.ring) && w < |s.wpc| && Subject(s.wpc[w]) == Some(r)
    ensures At(s, r, if Serves(s.wpc[w]).Some? then Serving(w) else Logging(w))
  {}

  /** A request at one worker is with no other worker, no dispatcher, not queued
      and not logged. */
  lemma OnlyAtWorker(s: State, w: nat, r: Request)
    requires RingOk(s.ring) && PlacesOk(s) && w < |s.wpc| && Subject(s.wpc[w]) == Some(r)
    ensures forall u | 0 <= u < |s.wpc| && u != w :: Subject(s.wpc[u]) != Some(r)
    ensures forall d | 0 <= d < |s.dpc| :: Carries(s.dpc[d]) != Some(r)
    ensures forall k | 0 <= k < s.ring.count :: Contents(s.ring)[k] != r
    ensures forall k | 0 <= k < |s.history.log| :: s.history.log[k].r != r
    ensures IsAccepted(s.history, r)
  {
    var p := if Serves(s.wpc[w]).Some? then Serving(w) else Logging(w);
    AtWorker(s, w, r);
    forall u | 0 <= u < |s.wpc| && u != w
      ensures Subject(s.wpc[u]) != Some(r)
    {
      NowhereElse(s, r, p, Serving(u));
      NowhereElse(s, r, p, Logging(u));
    }
    forall d | 0 <= d < |s.dpc|
      ensures Carries(s.dpc[d]) != Some(r)
    {
      NowhereElse(s, r, p, InHand(d));
    }
    forall k | 0 <= k < s.ring.count
      ensures Contents(s.ring)[k] != r
    {
      NowhereElse(s, r, p, Queued(|s.history.taken| + k));
    }
    forall k | 0 <= k < |s.history.log|
      ensures s.history.log[k].r != r
    {
      NowhereElse(s, r, p, Logged(k));
    }
  }

  /** What the dispatchers carry, the queue, the log and the accepted requests are
      as before. */
  ghost predicate OnlyWorkersMove(s: State, s': State) {
    && |s'.dpc| == |s.dpc| && (forall d | 0 <= d < |s.dpc| :: Carries(s'.dpc[d]) == Carries(s.dpc[d]))
    && s'.ring == s.ring && s'.history.log == s.history.log && s'.history.accepted == s.history.accepted
  }

  /** A step that notes nothing. */
  lemma QuietKeepsJournal(s: State, s': State)
    requires RingOk(s.ring) && JournalOk(s) && OnlyWorkersMove(s, s') && |s'.wpc| == |s.wpc|
    requires s'.history.journal == s.history.journal
    requires forall w | 0 <= w < |s.wpc| && Subject(s'.wpc[w]).Some? ::
               && Subject(s.wpc[w]) == Subject(s'.wpc[w])
               && forall tr :: FitsPc(s.wpc[w], tr) ==> FitsPc(s'.wpc[w], tr)
    ensures JournalOk(s')
  {}

  /** The same for a step of worker `w` alone. */
  lemma QuietWorkerKeepsJournal(s: State, s': State, w: nat)
    requires RingOk(s.ring) && JournalOk(s) && OnlyWorkersMove(s, s')
    requires w < |s.wpc| == |s'.wpc| && s'.wpc == s.wpc[w := s'.wpc[w]]
    requires s'.history.journal == s.history.journal
    requires Subject(s'.wpc[w]).Some? ==>
               && Subject(s.wpc[w]) == Subject(s'.wpc[w])
               && forall tr :: FitsPc(s.wpc[w], tr) ==> FitsPc(s'.wpc[w], tr)
    ensures JournalOk(s')
  {
    QuietKeepsJournal(s, s');
  }

  /** A worker that does something for its request and goes on with it. */
  lemma NotingKeepsJournal(s: State, s': State, w: nat, r: Request, action: Action)
    requires RingOk(s.ring) && PlacesOk(s) && JournalOk(s) && OnlyWorkersMove(s, s')
    requires w < |s.wpc| == |s'.wpc| && s'.wpc == s.wpc[w := s'.wpc[w]]
    requires Subject(s.wpc[w]) == Some(r) && Subject(s'.wpc[w]) == Some(r)
    requires s'.history.journal == s.history.journal + [Note(r, action)]
    requires FitsPc(s'.wpc[w], Trace(s.history.journal, r) + [action])
    ensures JournalOk(s')
  {
    OnlyAtWorker(s, w, r);
    NoteGrowsTraces(s, s', r, action);
  }

  lemma LookingKeepsJournal(s: State, w: nat)
    requires Safe(s) && RequestsOk(s) && JournalOk(s) && w < |s.wpc| && s.wpc[w].WLooking?
    ensures RingOk(AfterWorkerLookup(s, w).ring) && JournalOk(AfterWorkerLookup(s, w))
  {
    var r, op := s.wpc[w].r, Lookup(s.wpc[w].r.name);
    FoundFits(r, Trace(s.history.journal, r), EffectOf(s.cache, op));
    NotingKeepsJournal(s, AfterWorkerLookup(s, w), w, r, Did(op, EffectOf(s.cache, op)));
  }

  lemma FoundFits(r: Request, tr: seq<Action>, effect: Effect)
    requires FitsPc(WLooking(r), tr) && !effect.Fill?
    ensures FitsPc(if effect.Hit? then WHit(r, effect.slot) else WMissed(r), tr + [Did(Lookup(r.name), effect)])
  {}

  lemma HitKeepsJournal(s: State, w: nat)
    requires Safe(s) && RequestsOk(s) && JournalOk(s) && w < |s.wpc| && s.wpc[w].WHit?
    ensures RingOk(AfterWorkerLookup(s, w).ring) && JournalOk(AfterWorkerLookup(s, w))
  {
    var r, i := s.wpc[w].r, s.wpc[w].slot;
    HitFits(r, i, Trace(s.history.journal, r), Content(s.cache, i));
    NotingKeepsJournal(s, AfterWorkerLookup(s, w), w, r, Sent(FromCache(Content(s.cache, i))));
  }

  lemma HitFits(r: Request, i: nat, tr: seq<Action>, b: Bytes)
    requires FitsPc(WHit(r, i), tr)
    ensures FitsPc(WHitSent(r), tr + [Sent(FromCache(b))])
  {}

  lemma LookupPhaseKeepsJournal(s: State, w: nat)
    requires Safe(s) && RequestsOk(s) && JournalOk(s) && w < |s.wpc| && PhaseOf(s.wpc[w]) == LookupPhase
    ensures RingOk(AfterWorkerLookup(s, w).ring) && JournalOk(AfterWorkerLookup(s, w))
  {
    if s.wpc[w].WLooking? {
      LookingKeepsJournal(s, w);
    } else if s.wpc[w].WHit? {
      HitKeepsJournal(s, w);
    } else {
      QuietWorkerKeepsJournal(s, AfterWorkerLookup(s, w), w);
    }
  }

  lemma ReadingKeepsJournal(s: State, w: nat, disk: Disk, addr: nat)
    requires Safe(s) && RequestsOk(s) && JournalOk(s) && w < |s.wpc| && s.wpc[w].WReading?
    ensures RingOk(AfterWorkerMiss(s, w, disk, addr).ring) && JournalOk(AfterWorkerMiss(s, w, disk, addr))
  {
    var r := s.wpc[w].r;
    ReadFits(r, Trace(s.history.journal, r), disk);
    NotingKeepsJournal(s, AfterWorkerMiss(s, w, disk, addr), w, r, Read(disk));
  }

  lemma ReadFits(r: Request, tr: seq<Action>, disk: Disk)
    requires FitsPc(WReading(r), tr)
    ensures FitsPc(if disk.Data? then WWantInsert(r, disk.bytes) else WFailing(r), tr + [Read(disk)])
  {}

  lemma FailingKeepsJournal(s: State, w: nat, disk: Disk, addr: nat)
    requires Safe(s) && RequestsOk(s) && JournalOk(s) && w < |s.wpc| && s.wpc[w].WFailing?
    ensures RingOk(AfterWorkerMiss(s, w, disk, addr).ring) && JournalOk(AfterWorkerMiss(s, w, disk, addr))
  {
    var r := s.wpc[w].r;
    FailedFits(r, Trace(s.history.journal, r));
    NotingKeepsJournal(s, AfterWorkerMiss(s, w, disk, addr), w, r, Sent(Failed));
  }

  lemma FailedFits(r: Request, tr: seq<Action>)
    requires FitsPc(WFailing(r), tr)
    ensures FitsPc(WWantLog(r, false), tr + [Sent(Failed)])
  {}

  lemma InsertingKeepsJournal(s: State, w: nat, disk: Disk, addr: nat)
    requires Safe(s) && RequestsOk(s) && JournalOk(s) && w < |s.wpc| && s.wpc[w].WInserting?
    ensures RingOk(AfterWorkerMiss(s, w, disk, addr).ring) && JournalOk(AfterWorkerMiss(s, w, disk, addr))
  {
    var r, b := s.wpc[w].r, s.wpc[w].bytes;
    var op := Insert(r.name, b, addr);
    InsertedFits(r, b, Trace(s.history.journal, r), addr, EffectOf(s.cache, op));
    NotingKeepsJournal(s, AfterWorkerMiss(s, w, disk, addr), w, r, Did(op, EffectOf(s.cache, op)));
  }

  lemma InsertedFits(r: Request, b: Bytes, tr: seq<Action>, addr: nat, effect: Effect)
    requires FitsPc(WInserting(r, b), tr) && effect.Fill?
    ensures FitsPc(WInserted(r, b), tr + [Did(Insert(r.name, b, addr), effect)])
  {}

  lemma AnsweringKeepsJournal(s: State, w: nat, disk: Disk, addr: nat)
    requires Safe(s) && RequestsOk(s) && JournalOk(s) && w < |s.wpc| && s.wpc[w].WAnswering?
    ensures RingOk(AfterWorkerMiss(s, w, disk, addr).ring) && JournalOk(AfterWorkerMiss(s, w, disk, addr))
  {
    var r, b := s.wpc[w].r, s.wpc[w].bytes;
    AnsweredFits(r, b, Trace(s.history.journal, r));
    NotingKeepsJournal(s, AfterWorkerMiss(s, w, disk, addr), w, r, Sent(FromDisk(b)));
  }

  lemma AnsweredFits(r: Request, b: Bytes, tr: seq<Action>)
    requires FitsPc(WAnswering(r, b), tr)
    ensures FitsPc(WWantLog(r, false), tr + [Sent(FromDisk(b))])
  {}

  lemma MissPhaseKeepsJournal(s: State, w: nat, disk: Disk, addr: nat)
    requires Safe(s) && RequestsOk(s) && JournalOk(s) && w < |s.wpc| && PhaseOf(s.wpc[w]) == MissPhase
    ensures RingOk(AfterWorkerMiss(s, w, disk, addr).ring) && JournalOk(AfterWorkerMiss(s, w, disk, addr))
  {
    if s.wpc[w].WReading? {
      ReadingKeepsJournal(s, w, disk, addr);
    } else if s.wpc[w].WFailing? {
      FailingKeepsJournal(s, w, disk, addr);
    } else if s.wpc[w].WInserting? {
      InsertingKeepsJournal(s, w, disk, addr);
    } else if s.wpc[w].WAnswering? {
      AnsweringKeepsJournal(s, w, disk, addr);
    } else {
      QuietWorkerKeepsJournal(s, AfterWorkerMiss(s, w, disk, addr), w);
    }
  }

  /** The log line, after which the worker is free. */
  lemma WritingKeepsJournal(s: State, s': State, w: nat, r: Request, hit: bool)
    requires RingOk(s.ring) && PlacesOk(s) && JournalOk(s) && s'.ring == s.ring
    requires w < |s.wpc| && s.wpc[w] == WLogging(r, hit) && s'.wpc == s.wpc[w := WLogged]
    requires s'.dpc == s.dpc && s'.history.accepted == s.history.accepted
    requires s'.history.log == s.history.log + [LogLine(r, hit)]
    requires s'.history.journal == s.history.journal + [Note(r, Wrote(hit))]
    ensures JournalOk(s')
  {
    OnlyAtWorker(s, w, r);
    NoteGrowsTraces(s, s', r, Wrote(hit));
    LineKeepsLog(s, s', w, r, hit);
    FreeKeepsWorkers(s, s', w, r, Wrote(hit));
  }

  lemma LineKeepsLog(s: State, s': State, w: nat, r: Request, hit: bool)
    requires WorkersFit(s) && LogFits(s) && TracesGrow(s, s', r, Wrote(hit))
    requires w < |s.wpc| && s.wpc[w] == WLogging(r, hit)
    requires s'.history.log == s.history.log + [LogLine(r, hit)]
    requires forall k | 0 <= k < |s.history.log| :: s.history.log[k].r != r
    ensures LogFits(s')
  {
    assert FitsPc(s.wpc[w], Trace(s.history.journal, r));
    LoggedFits(r, hit, Trace(s.history.journal, r));
    forall k | 0 <= k < |s'.history.log|
      ensures var x := s'.history.log[k]; IsLoggedAs(Trace(s'.history.journal, x.r), x.r.name, x.hit)
    {
      if k < |s.history.log| {
        assert s'.history.log[k] == s.history.log[k];
      }
    }
  }

  lemma FreeKeepsWorkers(s: State, s': State, w: nat, r: Request, action: Action)
    requires WorkersFit(s) && TracesGrow(s, s', r, action)
    requires w < |s.wpc| && s'.wpc == s.wpc[w := WLogged]
    requires forall u | 0 <= u < |s.wpc| && u != w :: Subject(s.wpc[u]) != Some(r)
    ensures WorkersFit(s')
  {
    forall u | 0 <= u < |s'.wpc| && Subject(s'.wpc[u]).Some?
      ensures FitsPc(s'.wpc[u], Trace(s'.history.journal, Subject(s'.wpc[u]).value))
    {
      assert u != w && s'.wpc[u] == s.wpc[u];
    }
  }

  lemma LoggedFits(r: Request, hit: bool, tr: seq<Action>)
    requires FitsPc(WLogging(r, hit), tr)
    ensures IsLoggedAs(tr + [Wrote(hit)], r.name, hit)
  {}

  lemma LogPhaseKeepsJournal(s: State, w: nat)
    requires Safe(s) && RequestsOk(s) && JournalOk(s) && w < |s.wpc| && PhaseOf(s.wpc[w]) == LogPhase
    ensures RingOk(AfterWorkerLog(s, w).ring) && JournalOk(AfterWorkerLog(s, w))
  {
    if s.wpc[w].WLogging? {
      WritingKeepsJournal(s, AfterWorkerLog(s, w), w, s.wpc[w].r, s.wpc[w].hit);
    } else {
      QuietWorkerKeepsJournal(s, AfterWorkerLog(s, w), w);
    }
  }

  /** A request leaves the queue. */
  lemma TakingKeepsJournal(s: State, w: nat, woken: set<nat>)
    requires Safe(s) && RequestsOk(s) && JournalOk(s) && w < |s.wpc| && s.wpc[w].WChecking? && !Empty(s.ring)
    ensures RingOk(AfterWorkerQueue(s, w, woken).ring) && JournalOk(AfterWorkerQueue(s, w, woken))
  {
    var s' := AfterWorkerQueue(s, w, woken);
    var r := Front(s.ring);
    RestIsTail(s.ring);
    TakingKeepsRequests(s, w, woken);
    assert Contents(s.ring)[0] == r && Trace(s.history.journal, r) == [Stored];
    OnlyAtWorker(s', w, r);
    assert forall k | 0 <= k < s'.ring.count :: Contents(s'.ring)[k] == Contents(s.ring)[k + 1];
    NoteGrowsTraces(s, s', r, Taken);
  }

  lemma QuietQueuePhaseKeepsJournal(s: State, w: nat, woken: set<nat>)
    requires Safe(s) && RequestsOk(s) && JournalOk(s) && w < |s.wpc| && PhaseOf(s.wpc[w]) == QueuePhase
    requires s.wpc[w].WChecking? ==> Empty(s.ring)
    ensures RingOk(AfterWorkerQueue(s, w, woken).ring) && JournalOk(AfterWorkerQueue(s, w, woken))
  {
    QuietWorkerKeepsJournal(s, AfterWorkerQueue(s, w, woken), w);
  }

  /** A request enters the queue. */
  lemma QueueingKeepsJournal(s: State, s': State, d: nat, r: Request)
    requires RingOk(s.ring) && PlacesOk(s) && JournalOk(s) && RingOk(s'.ring)
    requires d < |s.dpc| == |s'.dpc| && Carries(s.dpc[d]) == Some(r) && s'.dpc == s.dpc[d := DStored]
    requires s'.wpc == s.wpc && s'.history.log == s.history.log && s'.history.accepted == s.history.accepted
    requires s'.ring.count == s.ring.count + 1 && Contents(s'.ring) == Contents(s.ring) + [r]
    requires s'.history.journal == s.history.journal + [Note(r, Stored)]
    ensures JournalOk(s')
  {
    OnlyInHand(s, d, r);
    NoteGrowsTraces(s, s', r, Stored);
    OthersKeepJournal(s, s', r, Stored);
    OtherHandsFit(s, s', d, r);
    assert Trace(s.history.journal, r) == [];
    QueueGrowsFits(s.history.journal, Contents(s.ring), r);
  }

  lemma OthersKeepJournal(s: State, s': State, r: Request, action: Action)
    requires WorkersFit(s) && LogFits(s) && OthersFit(s) && TracesGrow(s, s', r, action)
    requires s'.wpc == s.wpc && s'.history.log == s.history.log && s'.history.accepted == s.history.accepted
    requires forall w | 0 <= w < |s.wpc| :: Subject(s.wpc[w]) != Some(r)
    requires forall k | 0 <= k < |s.history.log| :: s.history.log[k].r != r
    requires IsAccepted(s.history, r)
    ensures WorkersFit(s') && LogFits(s') && OthersFit(s')
  {}

  lemma QueueGrowsFits(journal: seq<Note>, queue: seq<Request>, r: Request)
    requires forall k | 0 <= k < |queue| :: Trace(journal, queue[k]) == [Stored]
    requires Trace(journal, r) == [] && r !in queue
    ensures forall k | 0 <= k < |queue + [r]| :: Trace(journal + [Note(r, Stored)], (queue + [r])[k]) == [Stored]
  {
    forall k | 0 <= k < |queue + [r]|
      ensures Trace(journal + [Note(r, Stored)], (queue + [r])[k]) == [Stored]
    {
      TraceGrows(journal, Note(r, Stored), (queue + [r])[k]);
    }
  }

  lemma OtherHandsFit(s: State, s': State, d: nat, r: Request)
    requires HandsFit(s) && TracesGrow(s, s', r, Stored)
    requires d < |s.dpc| && s'.dpc == s.dpc[d := DStored]
    requires forall e | 0 <= e < |s.dpc| && e != d :: Carries(s.dpc[e]) != Some(r)
    ensures HandsFit(s')
  {}

  lemma StoringKeepsJournal(s: State, d: nat, woken: set<nat>)
    requires Safe(s) && RequestsOk(s) && JournalOk(s) && d < |s.dpc| && s.dpc[d].DChecking? && !Full(s.ring)
    ensures RingOk(AfterDispatcher(s, d, woken).ring) && JournalOk(AfterDispatcher(s, d, woken))
  {
    PutIsAppend(s.ring, s.dpc[d].r);
    QueueingKeepsJournal(s, AfterDispatcher(s, d, woken), d, s.dpc[d].r);
  }

  lemma OnlyInHand(s: State, d: nat, r: Request)
    requires RingOk(s.ring) && PlacesOk(s) && d < |s.dpc| && Carries(s.dpc[d]) == Some(r)
    ensures forall e | 0 <= e < |s.dpc| && e != d :: Carries(s.dpc[e]) != Some(r)
    ensures forall w | 0 <= w < |s.wpc| :: Subject(s.wpc[w]) != Some(r)
    ensures forall k | 0 <= k < s.ring.count :: Contents(s.ring)[k] != r
    ensures forall k | 0 <= k < |s.history.log| :: s.history.log[k].r != r
    ensures IsAccepted(s.history, r)
  {
    assert At(s, r, InHand(d));
    forall e | 0 <= e < |s.dpc| && e != d
      ensures Carries(s.dpc[e]) != Some(r)
    {
      NowhereElse(s, r, InHand(d), InHand(e));
    }
    forall w | 0 <= w < |s.wpc|
      ensures Subject(s.wpc[w]) != Some(r)
    {
      NowhereElse(s, r, InHand(d), Serving(w));
      NowhereElse(s, r, InHand(d), Logging(w));
    }
    forall k | 0 <= k < s.ring.count
      ensures Contents(s.ring)[k] != r
    {
      NowhereElse(s, r, InHand(d), Queued(|s.history.taken| + k));
    }
    forall k | 0 <= k < |s.history.log|
      ensures s.history.log[k].r != r
    {
      NowhereElse(s, r, InHand(d), Logged(k));
    }
  }

  lemma WorkerKeepsJournal(cfg: Config, s: State, w: nat, woken: set<nat>, disk: Disk, addr: nat)
    requires Safe(s) && RequestsOk(s) && JournalOk(s) && w < |s.wpc| && CanWorker(cfg, s, w, woken, disk, addr)
    ensures RingOk(AfterWorker(s, w, woken, disk, addr).ring) && JournalOk(AfterWorker(s, w, woken, disk, addr))
  {
    match PhaseOf(s.wpc[w])
    case QueuePhase =>
      if s.wpc[w].WChecking? && !Empty(s.ring) {
        TakingKeepsJournal(s, w, woken);
      } else {
        QuietQueuePhaseKeepsJournal(s, w, woken);
      }
    case LookupPhase => LookupPhaseKeepsJournal(s, w);
    case MissPhase => MissPhaseKeepsJournal(s, w, disk, addr);
    case LogPhase => LogPhaseKeepsJournal(s, w);
  }

  lemma DispatcherKeepsJournal(s: State, d: nat, woken: set<nat>)
    requires Safe(s) && RequestsOk(s) && JournalOk(s) && d < |s.dpc| && CanDispatcher(s, d, woken)
    ensures RingOk(AfterDispatcher(s, d, woken).ring) && JournalOk(AfterDispatcher(s, d, woken))
  {
    if s.dpc[d].DChecking? && !Full(s.ring) {
      StoringKeepsJournal(s, d, woken);
    } else {
      QuietKeepsJournal(s, AfterDispatcher(s, d, woken));
    }
  }

  lemma ArrivingKeepsJournal(s: State, d: nat, fd: int, name: string)
    requires RingOk(s.ring) && RequestsOk(s) && JournalOk(s) && d < |s.dpc| && s.dpc[d].Accepting?
    ensures JournalOk(AfterArrive(s, d, fd, name))
  {
    var r := Received(s.history, fd, name);
    assert !IsAccepted(s.history, r);
    forall q | IsAccepted(s.history, q)
      ensures IsAccepted(AfterArrive(s, d, fd, name).history, q)
    {
    }
  }

  lemma StepKeepsJournal(cfg: Config, s: State, l: Label)
    requires Safe(s) && RequestsOk(s) && JournalOk(s) && Can(cfg, s, l)
    ensures RingOk(After(cfg, s, l).ring) && JournalOk(After(cfg, s, l))
  {
    match l
    case Arrive(d, fd, name) => ArrivingKeepsJournal(s, d, fd, name);
    case SpuriousDispatcher(d) => QuietKeepsJournal(s, After(cfg, s, l));
    case SpuriousWorker(w) => QuietKeepsJournal(s, After(cfg, s, l));
    case DispatcherRuns(d, woken) => DispatcherKeepsJournal(s, d, woken);
    case WorkerRuns(w, woken, disk, addr) => WorkerKeepsJournal(cfg, s, w, woken, disk, addr);
  }

  // ---------------------------------------------------------------- the journal is the history

  /** One kind of note, collected from the journal. */
  function Collect<T>(journal: seq<Note>, pick: Note -> seq<T>): seq<T> {
    if journal == [] then [] else Collect(journal[..|journal| - 1], pick) + pick(journal[|journal| - 1])
  }

  lemma CollectGrows<T>(journal: seq<Note>, n: Note, pick: Note -> seq<T>)
    ensures Collect(journal + [n], pick) == Collect(journal, pick) + pick(n)
  {
    assert (journal + [n])[..|journal|] == journal;
  }

  function StoredIn(n: Note): seq<Request> {
    if n.action.Stored? then [n.r] else []
  }

  function TakenIn(n: Note): seq<Request> {
    if n.action.Taken? then [n.r] else []
  }

  function OpIn(n: Note): seq<Op> {
    if n.action.Did? then [n.action.op] else []
  }

  function EffectIn(n: Note): seq<Effect> {
    if n.action.Did? then [n.action.effect] else []
  }

  function ReadIn(n: Note): seq<DiskRead> {
    if n.action.Read? then [DiskRead(n.r.name, n.action.result)] else []
  }

  function AnswerIn(n: Note): seq<Answer> {
    if n.action.Sent? then [Answer(n.r, n.action.source)] else []
  }

  function LineIn(n: Note): seq<LogLine> {
    if n.action.Wrote? then [LogLine(n.r, n.action.hit)] else []
  }

  /** The queue's, cache's, disk's, answer and log histories are what the journal
      says, in its order. */
  ghost predicate JournalTells(h: History) {
    && h.stored == Collect(h.journal, StoredIn) && h.taken == Collect(h.journal, TakenIn)
    && h.ops == Collect(h.journal, OpIn) && h.effects == Collect(h.journal, EffectIn)
    && h.diskReads == Collect(h.journal, ReadIn)
    && h.answers == Collect(h.journal, AnswerIn) && h.log == Collect(h.journal, LineIn)
  }

  /** The histories grew by what one note says. */
  lemma NoteTells(h: History, h': History, n: Note)
    requires JournalTells(h) && h'.journal == h.journal + [n]
    requires h'.stored == h.stored + StoredIn(n) && h'.taken == h.taken + TakenIn(n)
    requires h'.ops == h.ops + OpIn(n) && h'.effects == h.effects + EffectIn(n)
    requires h'.diskReads == h.diskReads + ReadIn(n)
    requires h'.answers == h.answers + AnswerIn(n) && h'.log == h.log + LineIn(n)
    ensures JournalTells(h')
  {
    CollectGrows(h.journal, n, StoredIn);
    CollectGrows(h.journal, n, TakenIn);
    CollectGrows(h.journal, n, OpIn);
    CollectGrows(h.journal, n, EffectIn);
    CollectGrows(h.journal, n, ReadIn);
    CollectGrows(h.journal, n, AnswerIn);
    CollectGrows(h.journal, n, LineIn);
  }

  lemma QueuePhaseTells(s: State, w: nat, woken: set<nat>)
    requires Safe(s) && JournalTells(s.history) && w < |s.wpc|
    ensures JournalTells(AfterWorkerQueue(s, w, woken).history)
  {
    var h' := AfterWorkerQueue(s, w, woken).history;
    if h' != s.history {
      NoteTells(s.history, h', h'.journal[|h'.journal| - 1]);
    }
  }

  lemma LookingTells(s: State, w: nat)
    requires Safe(s) && JournalTells(s.history) && w < |s.wpc| && s.wpc[w].WLooking?
    ensures JournalTells(AfterWorkerLookup(s, w).history)
  {
    var op := Lookup(s.wpc[w].r.name);
    NoteTells(s.history, AfterWorkerLookup(s, w).history, Note(s.wpc[w].r, Did(op, EffectOf(s.cache, op))));
  }

  lemma HitTells(s: State, w: nat)
    requires Safe(s) && JournalTells(s.history) && w < |s.wpc| && s.wpc[w].WHit?
    ensures JournalTells(AfterWorkerLookup(s, w).history)
  {
    var bytes := Content(s.cache, s.wpc[w].slot);
    NoteTells(s.history, AfterWorkerLookup(s, w).history, Note(s.wpc[w].r, Sent(FromCache(bytes))));
  }

  lemma LookupPhaseTells(s: State, w: nat)
    requires Safe(s) && JournalTells(s.history) && w < |s.wpc|
    ensures JournalTells(AfterWorkerLookup(s, w).history)
  {
    if s.wpc[w].WLooking? {
      LookingTells(s, w);
    } else if s.wpc[w].WHit? {
      HitTells(s, w);
    }
  }

  lemma ReadingTells(s: State, w: nat, disk: Disk, addr: nat)
    requires Safe(s) && JournalTells(s.history) && w < |s.wpc| && s.wpc[w].WReading?
    ensures JournalTells(AfterWorkerMiss(s, w, disk, addr).history)
  {
    NoteTells(s.history, AfterWorkerMiss(s, w, disk, addr).history, Note(s.wpc[w].r, Read(disk)));
  }

  lemma FailingTells(s: State, w: nat, disk: Disk, addr: nat)
    requires Safe(s) && JournalTells(s.history) && w < |s.wpc| && s.wpc[w].WFailing?
    ensures JournalTells(AfterWorkerMiss(s, w, disk, addr).history)
  {
    NoteTells(s.history, AfterWorkerMiss(s, w, disk, addr).history, Note(s.wpc[w].r, Sent(Failed)));
  }

  lemma InsertingTells(s: State, w: nat, disk: Disk, addr: nat)
    requires Safe(s) && JournalTells(s.history) && w < |s.wpc| && s.wpc[w].WInserting?
    ensures JournalTells(AfterWorkerMiss(s, w, disk, addr).history)
  {
    var op := Insert(s.wpc[w].r.name, s.wpc[w].bytes, addr);
    NoteTells(s.history, AfterWorkerMiss(s, w, disk, addr).history, Note(s.wpc[w].r, Did(op, EffectOf(s.cache, op))));
  }

  lemma AnsweringTells(s: State, w: nat, disk: Disk, addr: nat)
    requires Safe(s) && JournalTells(s.history) && w < |s.wpc| && s.wpc[w].WAnswering?
    ensures JournalTells(AfterWorkerMiss(s, w, disk, addr).history)
  {
    NoteTells(s.history, AfterWorkerMiss(s, w, disk, addr).history, Note(s.wpc[w].r, Sent(FromDisk(s.wpc[w].bytes))));
  }

  lemma MissPhaseTells(s: State, w: nat, disk: Disk, addr: nat)
    requires Safe(s) && JournalTells(s.history) && w < |s.wpc|
    ensures JournalTells(AfterWorkerMiss(s, w, disk, addr).history)
  {
    if s.wpc[w].WReading? {
      ReadingTells(s, w, disk, addr);
    } else if s.wpc[w].WFailing? {
      FailingTells(s, w, disk, addr);
    } else if s.wpc[w].WInserting? {
      InsertingTells(s, w, disk, addr);
    } else if s.wpc[w].WAnswering? {
      AnsweringTells(s, w, disk, addr);
    }
  }

  lemma LogPhaseTells(s: State, w: nat)
    requires Safe(s) && JournalTells(s.history) && w < |s.wpc|
    ensures JournalTells(AfterWorkerLog(s, w).history)
  {
    var h' := AfterWorkerLog(s, w).history;
    if h' != s.history {
      NoteTells(s.history, h', h'.journal[|h'.journal| - 1]);
    }
  }

  lemma WorkerTells(s: State, w: nat, woken: set<nat>, disk: Disk, addr: nat)
    requires Safe(s) && JournalTells(s.history) && w < |s.wpc|
    ensures JournalTells(AfterWorker(s, w, woken, disk, addr).history)
  {
    match PhaseOf(s.wpc[w])
    case QueuePhase => QueuePhaseTells(s, w, woken);
    case LookupPhase => LookupPhaseTells(s, w);
    case MissPhase => MissPhaseTells(s, w, disk, addr);
    case LogPhase => LogPhaseTells(s, w);
  }

  lemma StepTells(cfg: Config, s: State, l: Label)
    requires Safe(s) && JournalTells(s.history) && Can(cfg, s, l)
    ensures JournalTells(After(cfg, s, l).history)
  {
    match l
    case DispatcherRuns(d, woken) =>
      if s.dpc[d].DChecking? && !Full(s.ring) {
        NoteTells(s.history, After(cfg, s, l).history, Note(s.dpc[d].r, Stored));
      }
    case WorkerRuns(w, woken, disk, addr) => WorkerTells(s, w, woken, disk, addr);
    case _ =>
  }

  /** An answer in the history is an answer in its request's course. */
  lemma {:induction false} AnswerInTrace(journal: seq<Note>, a: Answer)
    ensures a in Collect(journal, AnswerIn) <==> Sent(a.source) in Trace(journal, a.r)
    decreases |journal|
  {
    if journal != [] {
      AnswerInTrace(journal[..|journal| - 1], a);
    }
  }

  lemma InitialJournal(cfg: Config, s: State)
    requires Initial(cfg, s)
    ensures JournalOk(s) && JournalTells(s.history)
  {}
}
