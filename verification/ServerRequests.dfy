// Exactly-once service: where every accepted request is, in every reachable
// state, how often it has been answered and what its log line says.

module ServerRequests {
  import opened Options
  import opened Requests
  import opened RequestRing
  import opened LfuCache
  import opened ServerModel

  /** With a dispatcher that has not stored it yet; in the queue, as the k-th
      request ever stored; with a worker that has not answered it yet; answered
      but not logged; or on the k-th line of the log. */
  datatype Place = InHand(d: nat) | Queued(k: nat) | Serving(w: nat) | Logging(w: nat) | Logged(k: nat)

  function Carries(pc: DispatcherPc): Option<Request> {
    match pc
    case DWantQueue(r) => Some(r)
    case DChecking(r, _) => Some(r)
    case DAsleep(r) => Some(r)
    case DWoken(r) => Some(r)
    case Accepting | DStored | DSignalling => None
  }

  function Serves(pc: WorkerPc): Option<Request> {
    match pc
    case WWantQueue | WChecking(_) | WAsleep | WWoken => None
    case WTaken(r) => Some(r)
    case WSignalling(r) => Some(r)
    case WWantLookup(r) => Some(r)
    case WLooking(r) => Some(r)
    case WHit(r, _) => Some(r)
    case WMissed(r) => Some(r)
    case WReading(r) => Some(r)
    case WFailing(r) => Some(r)
    case WWantInsert(r, _) => Some(r)
    case WInserting(r, _) => Some(r)
    case WInserted(r, _) => Some(r)
    case WAnswering(r, _) => Some(r)
    case WHitSent(_) | WWantLog(_, _) | WLogging(_, _) | WLogged => None
  }

  /** The line an answering worker still has to write. */
  function ToLog(pc: WorkerPc): Option<LogLine> {
    match pc
    case WHitSent(r) => Some(LogLine(r, true))
    case WWantLog(r, hit) => Some(LogLine(r, hit))
    case WLogging(r, hit) => Some(LogLine(r, hit))
    case _ => None
  }

  ghost predicate At(s: State, r: Request, p: Place)
    requires RingOk(s.ring)
  {
    match p
    case InHand(d) => d < |s.dpc| && Carries(s.dpc[d]) == Some(r)
    case Queued(k) => |s.history.taken| <= k < |s.history.taken| + s.ring.count
                      && Contents(s.ring)[k - |s.history.taken|] == r
    case Serving(w) => w < |s.wpc| && Serves(s.wpc[w]) == Some(r)
    case Logging(w) => w < |s.wpc| && ToLog(s.wpc[w]).Some? && ToLog(s.wpc[w]).value.r == r
    case Logged(k) => k < |s.history.log| && s.history.log[k].r == r
  }

  predicate IsDone(p: Place) {
    p.Logging? || p.Logged?
  }

  /** Whether the line at, or for, a done place says HIT. */
  ghost predicate SaysHit(s: State, p: Place) {
    match p
    case Logging(w) => w < |s.wpc| && ToLog(s.wpc[w]).Some? && ToLog(s.wpc[w]).value.hit
    case Logged(k) => k < |s.history.log| && s.history.log[k].hit
    case _ => false
  }

  ghost predicate IsAccepted(h: History, r: Request) {
    r.id < |h.accepted| && h.accepted[r.id] == r
  }

  ghost predicate IsSomewhere(s: State, r: Request)
    requires RingOk(s.ring)
  {
    exists p :: At(s, r, p)
  }

  /** Every accepted request is in exactly one place, and nothing else is anywhere. */
  ghost predicate PlacesOk(s: State)
    requires RingOk(s.ring)
  {
    && (forall k | 0 <= k < |s.history.accepted| :: s.history.accepted[k].id == k)
    && (forall r, p :: At(s, r, p) ==> IsAccepted(s.history, r))
    && (forall r | IsAccepted(s.history, r) :: IsSomewhere(s, r))
    && (forall r, p, q :: At(s, r, p) && At(s, r, q) ==> p == q)
  }

  ghost predicate LoggedAs(s: State, a: Answer, p: Place)
    requires RingOk(s.ring)
  {
    IsDone(p) && At(s, a.r, p) && (SaysHit(s, p) <==> a.source.FromCache?)
  }

  ghost predicate IsAnswered(h: History, r: Request) {
    exists a :: a in h.answers && a.r == r
  }

  ghost predicate HasLine(s: State, a: Answer)
    requires RingOk(s.ring)
  {
    exists p :: LoggedAs(s, a, p)
  }

  /** Answers are given once, to exactly the requests that are done, and the log
      tells cached answers from the others. */
  ghost predicate AnswersOk(s: State)
    requires RingOk(s.ring)
  {
    && (forall i, j | 0 <= i < j < |s.history.answers| :: s.history.answers[i].r != s.history.answers[j].r)
    && (forall a | a in s.history.answers :: HasLine(s, a))
    && (forall r, p :: At(s, r, p) && IsDone(p) ==> IsAnswered(s.history, r))
  }

  /** The queue is first-in first-out over the whole run. */
  ghost predicate QueueOk(s: State)
    requires RingOk(s.ring)
  {
    s.history.stored == s.history.taken + Contents(s.ring)
  }

  ghost predicate RequestsOk(s: State)
    requires RingOk(s.ring)
  {
    QueueOk(s) && PlacesOk(s) && AnswersOk(s)
  }

  // ---------------------------------------------------------------- three kinds of step

  /** No request changes place. */
  ghost predicate Stays(s: State, s': State)
    requires RingOk(s.ring) && RingOk(s'.ring)
  {
    && s'.history.accepted == s.history.accepted && s'.history.answers == s.history.answers
    && s'.history.stored == s.history.stored && s'.history.taken == s.history.taken && s'.ring == s.ring
    && (forall r, p :: At(s', r, p) <==> At(s, r, p))
    && (forall p | IsDone(p) :: SaysHit(s', p) <==> SaysHit(s, p))
  }

  lemma StayingKeepsRequests(s: State, s': State)
    requires RingOk(s.ring) && RingOk(s'.ring) && RequestsOk(s) && Stays(s, s')
    ensures RequestsOk(s')
  {
    forall r | IsAccepted(s.history, r)
      ensures IsSomewhere(s', r)
    {
      assert IsSomewhere(s, r);
      var p :| At(s, r, p);
      assert At(s', r, p);
    }
    forall a | a in s.history.answers
      ensures HasLine(s', a)
    {
      assert HasLine(s, a);
      var p :| LoggedAs(s, a, p);
      assert LoggedAs(s', a, p);
    }
    forall q, p | At(s', q, p) && IsDone(p)
      ensures IsAnswered(s'.history, q)
    {
      assert At(s, q, p);
      assert IsAnswered(s.history, q);
    }
  }

  /** The threads' places follow from what each of them carries. */
  lemma SameCarried(s: State, s': State)
    requires RingOk(s.ring) && s'.ring == s.ring
    requires |s'.dpc| == |s.dpc| && |s'.wpc| == |s.wpc|
    requires forall d | 0 <= d < |s.dpc| :: Carries(s'.dpc[d]) == Carries(s.dpc[d])
    requires forall w | 0 <= w < |s.wpc| :: Serves(s'.wpc[w]) == Serves(s.wpc[w]) && ToLog(s'.wpc[w]) == ToLog(s.wpc[w])
    requires s'.history.accepted == s.history.accepted && s'.history.answers == s.history.answers
    requires s'.history.stored == s.history.stored && s'.history.taken == s.history.taken
    requires s'.history.log == s.history.log
    ensures Stays(s, s')
  {}

  /** Request `r` goes from place `from` to the empty place `to`, alone. */
  ghost predicate Relocates(s: State, s': State, r: Request, from: Place, to: Place)
    requires RingOk(s.ring) && RingOk(s'.ring)
  {
    && from != to
    && s'.history.accepted == s.history.accepted
    && At(s, r, from)
    && (forall q :: At(s', q, to) <==> q == r)
    && (forall q :: !At(s', q, from))
    && (forall q :: !At(s, q, to))
    && (forall q, p | p != from && p != to :: At(s', q, p) <==> At(s, q, p))
    && (forall p | IsDone(p) && p != from && p != to :: SaysHit(s', p) <==> SaysHit(s, p))
  }

  lemma RelocatingKeepsPlaces(s: State, s': State, r: Request, from: Place, to: Place)
    requires RingOk(s.ring) && RingOk(s'.ring) && PlacesOk(s) && Relocates(s, s', r, from, to)
    ensures PlacesOk(s')
  {
    forall q | IsAccepted(s.history, q)
      ensures IsSomewhere(s', q)
    {
      assert IsSomewhere(s, q);
      var p :| At(s, q, p);
      if p == from {
        OnlyOneAt(s, q, r, from);
        assert At(s', q, to);
      } else {
        assert At(s', q, p);
      }
    }
    forall q, p | At(s', q, p)
      ensures IsAccepted(s'.history, q)
    {
      assert p == to ==> At(s, q, from);
      assert p != to ==> At(s, q, p);
    }
    forall q, p1, p2 | At(s', q, p1) && At(s', q, p2)
      ensures p1 == p2
    {
      var before1 := if p1 == to then from else p1;
      var before2 := if p2 == to then from else p2;
      assert At(s, q, before1) && At(s, q, before2);
    }
  }

  lemma OnlyOneAt(s: State, q: Request, r: Request, p: Place)
    requires RingOk(s.ring) && At(s, q, p) && At(s, r, p)
    ensures q == r
  {}

  /** Before the answer: neither place is a done one. */
  lemma UnansweredKeepsAnswers(s: State, s': State, r: Request, from: Place, to: Place)
    requires RingOk(s.ring) && RingOk(s'.ring) && AnswersOk(s) && Relocates(s, s', r, from, to)
    requires !IsDone(from) && !IsDone(to) && s'.history.answers == s.history.answers
    ensures AnswersOk(s')
  {
    forall a | a in s.history.answers
      ensures HasLine(s', a)
    {
      assert HasLine(s, a);
      var p :| LoggedAs(s, a, p);
      assert LoggedAs(s', a, p);
    }
    forall q, p | At(s', q, p) && IsDone(p)
      ensures IsAnswered(s'.history, q)
    {
      assert At(s, q, p);
      assert IsAnswered(s.history, q);
    }
  }

  /** The answer itself: one request becomes done and gets its one answer. */
  lemma AnsweringKeepsAnswers(s: State, s': State, r: Request, from: Place, to: Place, source: Source)
    requires RingOk(s.ring) && RingOk(s'.ring) && PlacesOk(s) && AnswersOk(s) && Relocates(s, s', r, from, to)
    requires !IsDone(from) && IsDone(to)
    requires s'.history.answers == s.history.answers + [Answer(r, source)]
    requires SaysHit(s', to) <==> source.FromCache?
    ensures AnswersOk(s')
  {
    var last := Answer(r, source);
    forall a | a in s.history.answers
      ensures a.r != r && HasLine(s', a)
    {
      assert HasLine(s, a);
      var p :| LoggedAs(s, a, p);
      assert p != from;
      assert LoggedAs(s', a, p);
    }
    assert LoggedAs(s', last, to);
    assert HasLine(s', last);
    forall q, p | At(s', q, p) && IsDone(p)
      ensures IsAnswered(s'.history, q)
    {
      if p == to {
        assert last in s'.history.answers && last.r == q;
      } else {
        assert At(s, q, p);
        assert IsAnswered(s.history, q);
        var a :| a in s.history.answers && a.r == q;
        assert a in s'.history.answers;
      }
    }
  }

  /** The log line: a done request stays done and keeps its mark. */
  lemma LoggingKeepsAnswers(s: State, s': State, r: Request, from: Place, to: Place)
    requires RingOk(s.ring) && RingOk(s'.ring) && PlacesOk(s) && AnswersOk(s) && Relocates(s, s', r, from, to)
    requires IsDone(from) && IsDone(to) && s'.history.answers == s.history.answers
    requires SaysHit(s', to) <==> SaysHit(s, from)
    ensures AnswersOk(s')
  {
    forall a | a in s.history.answers
      ensures HasLine(s', a)
    {
      assert HasLine(s, a);
      var p :| LoggedAs(s, a, p);
      if p == from {
        OnlyOneAt(s, a.r, r, from);
        assert LoggedAs(s', a, to);
      } else {
        assert LoggedAs(s', a, p);
      }
    }
    forall q, p | At(s', q, p) && IsDone(p)
      ensures IsAnswered(s'.history, q)
    {
      assert At(s, q, if p == to then from else p);
      assert IsAnswered(s.history, q);
    }
  }

  // ---------------------------------------------------------------- the steps

  lemma ArrivingKeepsRequests(s: State, d: nat, fd: int, name: string)
    requires RingOk(s.ring) && RequestsOk(s) && d < |s.dpc| && s.dpc[d].Accepting?
    ensures RequestsOk(AfterArrive(s, d, fd, name))
  {
    var s' := AfterArrive(s, d, fd, name);
    var r := Received(s.history, fd, name);
    assert forall q, p | p != InHand(d) :: At(s', q, p) <==> At(s, q, p);
    assert forall p | IsDone(p) :: SaysHit(s', p) <==> SaysHit(s, p);
    assert !IsAccepted(s.history, r);
    forall q | IsAccepted(s'.history, q)
      ensures IsSomewhere(s', q)
    {
      if q.id == r.id {
        assert At(s', q, InHand(d));
      } else {
        assert IsAccepted(s.history, q) && IsSomewhere(s, q);
        var p :| At(s, q, p);
        assert At(s', q, p);
      }
    }
    forall q, p | At(s', q, p)
      ensures IsAccepted(s'.history, q)
    {
      assert p != InHand(d) ==> At(s, q, p);
    }
    forall q, p1, p2 | At(s', q, p1) && At(s', q, p2)
      ensures p1 == p2
    {
      if p1 != InHand(d) {
        assert At(s, q, p1);
      }
      if p2 != InHand(d) {
        assert At(s, q, p2);
      }
    }
    forall a | a in s.history.answers
      ensures HasLine(s', a)
    {
      assert HasLine(s, a);
      var p :| LoggedAs(s, a, p);
      assert LoggedAs(s', a, p);
    }
    forall q, p | At(s', q, p) && IsDone(p)
      ensures IsAnswered(s'.history, q)
    {
      assert At(s, q, p);
      assert IsAnswered(s.history, q);
    }
  }

  lemma StoringKeepsRequests(s: State, d: nat, woken: set<nat>)
    requires Safe(s) && RequestsOk(s) && d < |s.dpc| && s.dpc[d].DChecking? && !Full(s.ring)
    ensures RingOk(AfterDispatcher(s, d, woken).ring) && RequestsOk(AfterDispatcher(s, d, woken))
  {
    var s' := AfterDispatcher(s, d, woken);
    var r := s.dpc[d].r;
    PutIsAppend(s.ring, r);
    var to := Queued(|s.history.taken| + s.ring.count);
    assert At(s, r, InHand(d));
    forall q, p | p != InHand(d) && p != to
      ensures At(s', q, p) <==> At(s, q, p)
    {
    }
    assert Relocates(s, s', r, InHand(d), to);
    RelocatingKeepsPlaces(s, s', r, InHand(d), to);
    UnansweredKeepsAnswers(s, s', r, InHand(d), to);
    assert s.history.taken + Contents(s.ring) + [r] == s.history.taken + (Contents(s.ring) + [r]);
  }

  lemma DispatcherKeepsRequests(s: State, d: nat, woken: set<nat>)
    requires Safe(s) && RequestsOk(s) && d < |s.dpc| && CanDispatcher(s, d, woken)
    ensures RingOk(AfterDispatcher(s, d, woken).ring) && RequestsOk(AfterDispatcher(s, d, woken))
  {
    if s.dpc[d].DChecking? && !Full(s.ring) {
      StoringKeepsRequests(s, d, woken);
    } else {
      var s' := AfterDispatcher(s, d, woken);
      SameCarried(s, s');
      StayingKeepsRequests(s, s');
    }
  }

  lemma TakingKeepsRequests(s: State, w: nat, woken: set<nat>)
    requires Safe(s) && RequestsOk(s) && w < |s.wpc| && s.wpc[w].WChecking? && !Empty(s.ring)
    ensures RingOk(AfterWorkerQueue(s, w, woken).ring) && RequestsOk(AfterWorkerQueue(s, w, woken))
  {
    var s' := AfterWorkerQueue(s, w, woken);
    var r := Front(s.ring);
    RestIsTail(s.ring);
    var from := Queued(|s.history.taken|);
    assert At(s, r, from);
    forall q, p | p != from && p != Serving(w)
      ensures At(s', q, p) <==> At(s, q, p)
    {
      if p.Queued? && |s.history.taken| < p.k < |s.history.taken| + s.ring.count {
        assert Contents(s.ring)[p.k - |s.history.taken|] == Contents(s'.ring)[p.k - |s'.history.taken|];
      }
    }
    assert Relocates(s, s', r, from, Serving(w));
    RelocatingKeepsPlaces(s, s', r, from, Serving(w));
    UnansweredKeepsAnswers(s, s', r, from, Serving(w));
    assert s.history.taken + Contents(s.ring) == s.history.taken + [r] + Contents(s'.ring);
  }

  lemma AnsweringKeepsRequests(s: State, s': State, w: nat, r: Request, source: Source)
    requires RingOk(s.ring) && RequestsOk(s) && w < |s.wpc| && Serves(s.wpc[w]) == Some(r) && ToLog(s.wpc[w]) == None
    requires s' == Answered(s, r, source).(wpc := s'.wpc) && |s'.wpc| == |s.wpc| && s'.wpc == s.wpc[w := s'.wpc[w]]
    requires Serves(s'.wpc[w]) == None && ToLog(s'.wpc[w]) == Some(LogLine(r, source.FromCache?))
    ensures RequestsOk(s')
  {
    assert At(s, r, Serving(w));
    assert Relocates(s, s', r, Serving(w), Logging(w));
    RelocatingKeepsPlaces(s, s', r, Serving(w), Logging(w));
    AnsweringKeepsAnswers(s, s', r, Serving(w), Logging(w), source);
  }

  lemma LoggingRelocates(s: State, w: nat)
    requires Safe(s) && RequestsOk(s) && w < |s.wpc| && s.wpc[w].WLogging?
    ensures RingOk(AfterWorkerLog(s, w).ring)
    ensures Relocates(s, AfterWorkerLog(s, w), s.wpc[w].r, Logging(w), Logged(|s.history.log|))
  {
    assert At(s, s.wpc[w].r, Logging(w));
  }

  lemma LoggingKeepsRequests(s: State, w: nat)
    requires Safe(s) && RequestsOk(s) && w < |s.wpc| && s.wpc[w].WLogging?
    ensures RingOk(AfterWorkerLog(s, w).ring) && RequestsOk(AfterWorkerLog(s, w))
  {
    var s' := AfterWorkerLog(s, w);
    var r := s.wpc[w].r;
    var to := Logged(|s.history.log|);
    LoggingRelocates(s, w);
    RelocatingKeepsPlaces(s, s', r, Logging(w), to);
    LoggingKeepsAnswers(s, s', r, Logging(w), to);
  }

  /** In each phase the worker's other steps take locks, release them, signal,
      look up, read and insert: no request changes place. */
  lemma QueuePhaseKeepsRequests(s: State, w: nat, woken: set<nat>)
    requires Safe(s) && RequestsOk(s) && w < |s.wpc| && PhaseOf(s.wpc[w]) == QueuePhase
    ensures RingOk(AfterWorkerQueue(s, w, woken).ring) && RequestsOk(AfterWorkerQueue(s, w, woken))
  {
    if s.wpc[w].WChecking? && !Empty(s.ring) {
      TakingKeepsRequests(s, w, woken);
    } else {
      SameCarried(s, AfterWorkerQueue(s, w, woken));
      StayingKeepsRequests(s, AfterWorkerQueue(s, w, woken));
    }
  }

  lemma LookupPhaseKeepsRequests(s: State, w: nat)
    requires Safe(s) && RequestsOk(s) && w < |s.wpc| && PhaseOf(s.wpc[w]) == LookupPhase
    ensures RingOk(AfterWorkerLookup(s, w).ring) && RequestsOk(AfterWorkerLookup(s, w))
  {
    var s' := AfterWorkerLookup(s, w);
    match s.wpc[w] {
      case WHit(r, i) => AnsweringKeepsRequests(s, s', w, r, FromCache(Content(s.cache, i)));
      case _ =>
        SameCarried(s, s');
        StayingKeepsRequests(s, s');
    }
  }

  lemma MissPhaseKeepsRequests(s: State, w: nat, disk: Disk, addr: nat)
    requires Safe(s) && RequestsOk(s) && w < |s.wpc| && PhaseOf(s.wpc[w]) == MissPhase
    ensures RingOk(AfterWorkerMiss(s, w, disk, addr).ring) && RequestsOk(AfterWorkerMiss(s, w, disk, addr))
  {
    var s' := AfterWorkerMiss(s, w, disk, addr);
    match s.wpc[w] {
      case WFailing(r) => AnsweringKeepsRequests(s, s', w, r, Failed);
      case WAnswering(r, b) => AnsweringKeepsRequests(s, s', w, r, FromDisk(b));
      case _ =>
        SameCarried(s, s');
        StayingKeepsRequests(s, s');
    }
  }

  lemma LogPhaseKeepsRequests(s: State, w: nat)
    requires Safe(s) && RequestsOk(s) && w < |s.wpc| && PhaseOf(s.wpc[w]) == LogPhase
    ensures RingOk(AfterWorkerLog(s, w).ring) && RequestsOk(AfterWorkerLog(s, w))
  {
    if s.wpc[w].WLogging? {
      LoggingKeepsRequests(s, w);
    } else {
      SameCarried(s, AfterWorkerLog(s, w));
      StayingKeepsRequests(s, AfterWorkerLog(s, w));
    }
  }

  lemma WorkerKeepsRequests(cfg: Config, s: State, w: nat, woken: set<nat>, disk: Disk, addr: nat)
    requires Safe(s) && RequestsOk(s) && w < |s.wpc| && CanWorker(cfg, s, w, woken, disk, addr)
    ensures RingOk(AfterWorker(s, w, woken, disk, addr).ring) && RequestsOk(AfterWorker(s, w, woken, disk, addr))
  {
    match PhaseOf(s.wpc[w])
    case QueuePhase => QueuePhaseKeepsRequests(s, w, woken);
    case LookupPhase => LookupPhaseKeepsRequests(s, w);
    case MissPhase => MissPhaseKeepsRequests(s, w, disk, addr);
    case LogPhase => LogPhaseKeepsRequests(s, w);
  }

  lemma StepKeepsRequests(cfg: Config, s: State, l: Label)
    requires Safe(s) && RequestsOk(s) && Can(cfg, s, l)
    ensures RingOk(After(cfg, s, l).ring) && RequestsOk(After(cfg, s, l))
  {
    match l
    case Arrive(d, fd, name) => ArrivingKeepsRequests(s, d, fd, name);
    case SpuriousDispatcher(d) =>
      SameCarried(s, After(cfg, s, l));
      StayingKeepsRequests(s, After(cfg, s, l));
    case SpuriousWorker(w) =>
      SameCarried(s, After(cfg, s, l));
      StayingKeepsRequests(s, After(cfg, s, l));
    case DispatcherRuns(d, woken) => DispatcherKeepsRequests(s, d, woken);
    case WorkerRuns(w, woken, disk, addr) => WorkerKeepsRequests(cfg, s, w, woken, disk, addr);
  }

  lemma InitialRequests(cfg: Config, s: State)
    requires Initial(cfg, s)
    ensures RequestsOk(s)
  {
    assert Contents(s.ring) == [];
  }
}
