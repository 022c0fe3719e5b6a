// Which commands a build runs, and how often.

module MakeCommands {
  import opened MakefileParser
  import opened MakeBuild
  import opened MakeGraph
  import opened MakeTheorems
  import opened MakeVisits
  import opened MakeCallOrder

  // ---------------------------------------------------------------- what may come later

  ghost predicate CalledFrom(calls: seq<Ref>, m: nat, q: Ref) {
    exists n :: m <= n < |calls| && calls[n] == q
  }

  /** From `w` to `v`, while `p` is being built: new calls are for entries that
      were unfinished, and new commands for these or for `p`. */
  ghost predicate IsLater(w: World, v: World, p: Ref) {
    && w.calls <= v.calls
    && |w.runs| <= |v.runs| && v.runs[..|w.runs|] == w.runs
    && (forall n | |w.calls| <= n < |v.calls| ::
          v.calls[n].Entry? && v.calls[n].i < |w.status| && w.status[v.calls[n].i] == Unfinished)
    && (forall n | |w.runs| <= n < |v.runs| ::
          v.runs[n].who == p || CalledFrom(v.calls, |w.calls|, v.runs[n].who))
  }

  lemma LaterTogether(w: World, u: World, v: World, p: Ref)
    requires IsLater(w, u, p) && Onward(w.status, u.status) && IsLater(u, v, p)
    ensures IsLater(w, v, p)
  {
    assert v.runs[..|w.runs|] == v.runs[..|u.runs|][..|w.runs|];
    forall n | |w.runs| <= n < |v.runs|
      ensures v.runs[n].who == p || CalledFrom(v.calls, |w.calls|, v.runs[n].who)
    {
      if n < |u.runs| {
        assert v.runs[..|u.runs|][n] == u.runs[n];
        if u.runs[n].who != p {
          var m :| |w.calls| <= m < |u.calls| && u.calls[m] == u.runs[n].who;
          assert v.calls[m] == u.calls[m];
        }
      } else if v.runs[n].who != p {
        var m :| |u.calls| <= m < |v.calls| && v.calls[m] == v.runs[n].who;
      }
    }
    forall n | |w.calls| <= n < |v.calls|
      ensures v.calls[n].Entry? && v.calls[n].i < |w.status| && w.status[v.calls[n].i] == Unfinished
    {
      if n < |u.calls| {
        assert v.calls[n] == u.calls[n];
      }
    }
  }

  /** A nested call for the unfinished entry `j`, seen from the loop that made it. */
  lemma NestedIsLater(w: World, u: World, v: World, p: Ref, j: nat)
    requires j < |w.status| && w.status[j] == Unfinished && Onward(w.status, u.status)
    requires u.calls == w.calls + [Entry(j)] && u.runs == w.runs && IsLater(u, v, Entry(j))
    ensures IsLater(w, v, p)
  {
    assert v.calls[|w.calls|] == Entry(j);
    assert w.calls <= v.calls;
    forall n | |w.runs| <= n < |v.runs|
      ensures CalledFrom(v.calls, |w.calls|, v.runs[n].who)
    {
      if v.runs[n].who != Entry(j) {
        var m :| |u.calls| <= m < |v.calls| && v.calls[m] == v.runs[n].who;
      }
    }
  }

  lemma FinishIsLater(mk: Makefile, w: World, p: Ref, older: map<nat, Files>, depth: nat)
    requires InRange(mk, w, p)
    ensures IsLater(w, Finish(mk, w, p, older, depth).world, p)
  {}

  lemma {:induction false} StepIsLater(mk: Makefile, w: World, p: Ref, k: nat, older: map<nat, Files>, depth: nat)
    requires InRange(mk, w, p) && k < |TargetOf(mk, p).deps|
    ensures IsLater(w, Step(mk, w, p, k, older, depth).world, p)
    decreases Open(w.status), Rank(w, p), 0, |TargetOf(mk, p).deps| - k, 0
  {
    var target := TargetOf(mk, p);
    var j := Dependency(mk, Index(mk, p), k);
    if j != -1 && w.status[j] == Unfinished && CompareTimes(w.files, target.deps[k], target.name) != 2 {
      MarkingCloses(w, p, NeedsBuilding);
      var u := SetStatus(w, p, NeedsBuilding);
      BuildIsLater(mk, u, Entry(j));
      NestedIsLater(w, u.(calls := u.calls + [Entry(j)]), BuildFrom(mk, u, Entry(j)).world, p, j);
    }
  }

  lemma {:induction false} LoopIsLater(mk: Makefile, w: World, p: Ref, k: nat, older: map<nat, Files>, depth: nat)
    requires InRange(mk, w, p) && k <= |TargetOf(mk, p).deps|
    ensures IsLater(w, Loop(mk, w, p, k, older, depth).world, p)
    decreases Open(w.status), Rank(w, p), 0, |TargetOf(mk, p).deps| - k, 1
  {
    if k == |TargetOf(mk, p).deps| {
      FinishIsLater(mk, w, p, older, depth);
    } else {
      var t := Step(mk, w, p, k, older, depth);
      MeasureFalls(w, t.world, p);
      StepIsLater(mk, w, p, k, older, depth);
      if t.ok {
        LoopIsLater(mk, t.world, p, k + 1, t.older, t.depth);
        LaterTogether(w, t.world, Loop(mk, t.world, p, k + 1, t.older, t.depth).world, p);
      }
    }
  }

  lemma {:induction false} BuildIsLater(mk: Makefile, w: World, p: Ref)
    requires InRange(mk, w, p)
    ensures IsLater(w.(calls := w.calls + [p]), BuildFrom(mk, w, p).world, p)
    decreases Open(w.status), Rank(w, p), 1, 0, 0
  {
    var called := w.(calls := w.calls + [p]);
    if |TargetOf(mk, p).deps| == 0 {
      MarkingCloses(called, p, NeedsBuilding);
      var v := SetStatus(called, p, NeedsBuilding);
      FinishIsLater(mk, v, p, map[], 1);
      LaterTogether(called, v, BuildFrom(mk, w, p).world, p);
    } else {
      LoopIsLater(mk, called, p, 0, map[], 1);
    }
  }

  // ---------------------------------------------------------------- why a command runs

  /** Dependency `k` of target `i` is a file that is no target and was not
      strictly older before the build. */
  ghost predicate IsFollowedFile(mk: Makefile, files: Files, i: nat, k: nat) {
    && i < |mk.targets| && k < |mk.targets[i].deps| && Dependency(mk, i, k) == -1
    && !IsOlder(files, mk.targets[i].deps[k], mk.targets[i].name)
  }

  /** A target without dependencies, or with such a file among them. */
  ghost predicate MustRun(mk: Makefile, files: Files, i: nat) {
    i < |mk.targets| && (mk.targets[i].deps == [] || exists k :: IsFollowedFile(mk, files, i, k))
  }

  ghost predicate CalledAfter(calls: seq<Ref>, p: Ref, j: nat) {
    exists a, b :: 0 <= a < b < |calls| && calls[a] == p && calls[b] == Entry(j)
  }

  ghost predicate IsAskedBy(mk: Makefile, files: Files, p: Ref, calls: seq<Ref>, j: nat) {
    Follows(mk, Under(files), Index(mk, p), j) && CalledAfter(calls, p, j)
  }

  /** A dependency that was not strictly older was called after `p` itself. */
  ghost predicate Asks(mk: Makefile, files: Files, p: Ref, calls: seq<Ref>) {
    exists j :: IsAskedBy(mk, files, p, calls, j)
  }

  ghost predicate HasRun(runs: seq<Run>, q: Ref) {
    exists x :: x in runs && x.who == q
  }

  /** The command of `p` ran if and only if there was a reason. */
  ghost predicate RanForReason(mk: Makefile, files: Files, w: World, p: Ref) {
    HasRun(w.runs, p) <==> MustRun(mk, files, Index(mk, p)) || Asks(mk, files, p, w.calls)
  }

  lemma AsksGrows(mk: Makefile, files: Files, p: Ref, calls: seq<Ref>, more: seq<Ref>)
    requires calls <= more && Asks(mk, files, p, calls)
    ensures Asks(mk, files, p, more)
  {
    var j: nat :| IsAskedBy(mk, files, p, calls, j);
    var a, b :| 0 <= a < b < |calls| && calls[a] == p && calls[b] == Entry(j);
    assert more[a] == p && more[b] == Entry(j);
    assert IsAskedBy(mk, files, p, more, j);
  }

  lemma RunsGrow(a: seq<Run>, b: seq<Run>, q: Ref)
    requires |a| <= |b| && b[..|a|] == a && HasRun(a, q)
    ensures HasRun(b, q)
  {
    var x :| x in a && x.who == q;
    var n :| 0 <= n < |a| && a[n] == x;
    assert b[..|a|][n] == b[n];
    assert b[n] in b;
  }

  /** A finished target's dependencies were all called, so none is called later. */
  lemma FinishedAsksNoMore(mk: Makefile, files: Files, w: World, v: World, p: Ref, i: nat)
    requires IsLater(w, v, p) && Kept(mk, files, w) && i < |w.status| && w.status[i] == Finished
    ensures Asks(mk, files, Entry(i), v.calls) <==> Asks(mk, files, Entry(i), w.calls)
  {
    if Asks(mk, files, Entry(i), w.calls) {
      AsksGrows(mk, files, Entry(i), w.calls, v.calls);
    }
    if Asks(mk, files, Entry(i), v.calls) {
      var j: nat :| IsAskedBy(mk, files, Entry(i), v.calls, j);
      var a, b :| 0 <= a < b < |v.calls| && v.calls[a] == Entry(i) && v.calls[b] == Entry(j);
      assert w.status[j] != Unfinished;
      assert w.calls[a] == Entry(i) && w.calls[b] == Entry(j);
      assert IsAskedBy(mk, files, Entry(i), w.calls, j);
    }
  }

  /** Nor does it run again. */
  lemma FinishedRunsNoMore(w: World, v: World, p: Ref, i: nat)
    requires IsLater(w, v, p) && i < |w.status| && w.status[i] == Finished && p != Entry(i)
    ensures HasRun(v.runs, Entry(i)) <==> HasRun(w.runs, Entry(i))
  {
    if HasRun(w.runs, Entry(i)) {
      RunsGrow(w.runs, v.runs, Entry(i));
    }
    if HasRun(v.runs, Entry(i)) {
      var x :| x in v.runs && x.who == Entry(i);
      var n :| 0 <= n < |v.runs| && v.runs[n] == x;
      assert n < |w.runs|;
      assert v.runs[..|w.runs|][n] == w.runs[n];
    }
  }

  lemma ReasonStays(mk: Makefile, files: Files, w: World, v: World, p: Ref, i: nat)
    requires IsLater(w, v, p) && Kept(mk, files, w) && i < |w.status| && w.status[i] == Finished && p != Entry(i)
    requires RanForReason(mk, files, w, Entry(i))
    ensures RanForReason(mk, files, v, Entry(i))
  {
    FinishedAsksNoMore(mk, files, w, v, p, i);
    FinishedRunsNoMore(w, v, p, i);
  }

  // ---------------------------------------------------------------- what the walk keeps

  /** No command touched a file that is no target. */
  ghost predicate OtherFilesSame(mk: Makefile, files: Files, w: World) {
    forall name | Find(mk.targets, name) == -1 :: ModificationTime(w.files, name) == ModificationTime(files, name)
  }

  ghost predicate FinishedForReason(mk: Makefile, files: Files, w: World) {
    forall i | 0 <= i < |w.status| && w.status[i] == Finished :: RanForReason(mk, files, w, Entry(i))
  }

  ghost predicate RunsKept(mk: Makefile, files: Files, w: World) {
    OtherFilesSame(mk, files, w) && FinishedForReason(mk, files, w)
  }

  /** While `p` is being built: one of its first `n` dependencies, a file, asked
      for it only if it is marked; it is marked only for a reason; and until it is
      marked it has called nobody. */
  ghost predicate MarkedForReason(mk: Makefile, files: Files, w: World, p: Ref, n: nat)
    requires InRange(mk, w, p)
  {
    && (forall k | 0 <= k < n && IsFollowedFile(mk, files, Index(mk, p), k) :: StatusOf(w, p) == NeedsBuilding)
    && (if StatusOf(w, p) == NeedsBuilding
        then MustRun(mk, files, Index(mk, p)) || Asks(mk, files, p, w.calls)
        else w.calls != [] && w.calls[|w.calls| - 1] == p)
  }

  lemma MarkedFinishRuns(mk: Makefile, w: World, p: Ref, older: map<nat, Files>, depth: nat)
    requires InRange(mk, w, p) && StatusOf(w, p) == NeedsBuilding
    ensures var r := Finish(mk, w, p, older, depth); r.ok ==> HasRun(r.world.runs, p)
  {
    var r := Finish(mk, w, p, older, depth);
    if r.ok {
      assert r.world.runs[|w.runs|] in r.world.runs;
    }
  }

  lemma LastAsksNobody(mk: Makefile, files: Files, p: Ref, calls: seq<Ref>)
    requires NoCallTwice(calls) && calls != [] && calls[|calls| - 1] == p
    ensures !Asks(mk, files, p, calls)
  {
    assert forall a | 0 <= a < |calls| - 1 :: calls[a] != p;
  }

  /** At the end of its loop the target runs exactly for a reason. */
  lemma FinishForReason(mk: Makefile, files: Files, w: World, p: Ref, older: map<nat, Files>, depth: nat)
    requires Going(mk, files, w, p) && MarkedForReason(mk, files, w, p, |TargetOf(mk, p).deps|)
    requires TargetOf(mk, p).deps == [] ==> StatusOf(w, p) == NeedsBuilding
    ensures var r := Finish(mk, w, p, older, depth); r.ok ==> RanForReason(mk, files, r.world, p)
  {
    if StatusOf(w, p) == NeedsBuilding {
      MarkedFinishRuns(mk, w, p, older, depth);
    } else {
      assert !HasRun(w.runs, p);
      LastAsksNobody(mk, files, p, w.calls);
    }
  }

  lemma FinishKeepsRuns(mk: Makefile, files: Files, w: World, p: Ref, older: map<nat, Files>, depth: nat)
    requires Going(mk, files, w, p) && RunsKept(mk, files, w)
    requires MarkedForReason(mk, files, w, p, |TargetOf(mk, p).deps|)
    requires TargetOf(mk, p).deps == [] ==> StatusOf(w, p) == NeedsBuilding
    ensures var r := Finish(mk, w, p, older, depth); r.ok ==> RunsKept(mk, files, r.world)
  {
    var r := Finish(mk, w, p, older, depth);
    if r.ok {
      FinishForReason(mk, files, w, p, older, depth);
      FinishIsLater(mk, w, p, older, depth);
      forall i | 0 <= i < |r.world.status| && r.world.status[i] == Finished
        ensures RanForReason(mk, files, r.world, Entry(i))
      {
        if p != Entry(i) {
          ReasonStays(mk, files, w, r.world, p, i);
        }
      }
    }
  }

  /** What a turn of the loop leaves, besides what it visits. */
  ghost predicate TurnKeepsRuns(mk: Makefile, files: Files, p: Ref, k: nat, t: Turn) {
    t.ok ==>
      RunsKept(mk, files, t.world) && InRange(mk, t.world, p) && MarkedForReason(mk, files, t.world, p, k + 1)
  }

  /** A file that is no target is compared as before the build. */
  lemma FileComparesAsBefore(mk: Makefile, files: Files, w: World, p: Ref, k: nat)
    requires Going(mk, files, w, p) && Comparable(mk, w, p) && OtherFilesSame(mk, files, w)
    requires k < |TargetOf(mk, p).deps| && Dependency(mk, Index(mk, p), k) == -1
    ensures IsOlder(w.files, TargetOf(mk, p).deps[k], TargetOf(mk, p).name)
       <==> IsOlder(files, TargetOf(mk, p).deps[k], TargetOf(mk, p).name)
  {
    assert w.status[Index(mk, p)] != Finished;
  }

  lemma MarkingKeepsRuns(mk: Makefile, files: Files, w: World, p: Ref)
    requires InRange(mk, w, p) && RunsKept(mk, files, w)
    ensures RunsKept(mk, files, SetStatus(w, p, NeedsBuilding))
  {
    var v := SetStatus(w, p, NeedsBuilding);
    forall i | 0 <= i < |v.status| && v.status[i] == Finished
      ensures RanForReason(mk, files, v, Entry(i))
    {
      assert RanForReason(mk, files, w, Entry(i));
    }
  }

  /** A turn for a dependency that is no target. */
  lemma FileTurnKeepsRuns(mk: Makefile, files: Files, w: World, p: Ref, k: nat, older: map<nat, Files>, depth: nat)
    requires Going(mk, files, w, p) && Comparable(mk, w, p) && k < |TargetOf(mk, p).deps|
    requires RunsKept(mk, files, w) && MarkedForReason(mk, files, w, p, k)
    requires Dependency(mk, Index(mk, p), k) == -1
    ensures TurnKeepsRuns(mk, files, p, k, Step(mk, w, p, k, older, depth))
  {
    FileComparesAsBefore(mk, files, w, p, k);
    MarkingKeepsRuns(mk, files, w, p);
    assert !IsOlder(files, TargetOf(mk, p).deps[k], TargetOf(mk, p).name)
      ==> IsFollowedFile(mk, files, Index(mk, p), k);
  }

  lemma AsksFirst(mk: Makefile, files: Files, p: Ref, calls: seq<Ref>, j: nat, more: seq<Ref>)
    requires p in calls && calls + [Entry(j)] <= more && Follows(mk, Under(files), Index(mk, p), j)
    ensures Asks(mk, files, p, more)
  {
    var a :| 0 <= a < |calls| && calls[a] == p;
    assert more[a] == (calls + [Entry(j)])[a] && more[|calls|] == (calls + [Entry(j)])[|calls|];
    assert IsAskedBy(mk, files, p, more, j);
  }

  lemma {:induction false} StepKeepsRuns(
      mk: Makefile, files: Files, w: World, p: Ref, k: nat, older: map<nat, Files>, depth: nat)
    requires Going(mk, files, w, p) && Comparable(mk, w, p) && k < |TargetOf(mk, p).deps|
    requires RunsKept(mk, files, w) && MarkedForReason(mk, files, w, p, k)
    ensures TurnKeepsRuns(mk, files, p, k, Step(mk, w, p, k, older, depth))
    decreases Open(w.status), Rank(w, p), 0, |TargetOf(mk, p).deps| - k, 0
  {
    var target := TargetOf(mk, p);
    var j := Dependency(mk, Index(mk, p), k);
    if j == -1 {
      FileTurnKeepsRuns(mk, files, w, p, k, older, depth);
    } else if w.status[j] == Unfinished && CompareTimes(w.files, target.deps[k], target.name) != 2 {
      ComparesAsBefore(mk, files, w, p, j);
      assert Follows(mk, Under(files), Index(mk, p), j);
      ReadyToDescend(mk, files, w, p, j);
      MarkingCloses(w, p, NeedsBuilding);
      var v := SetStatus(w, p, NeedsBuilding);
      MarkingKeepsRuns(mk, files, w, p);
      BuildKeepsRuns(mk, files, v, Entry(j));
      MarkedByCall(mk, files, w, p, k, j);
    }
  }

  /** A nested call is a reason for the command of the target that made it. */
  lemma MarkedByCall(mk: Makefile, files: Files, w: World, p: Ref, k: nat, j: nat)
    requires Going(mk, files, w, p) && k < |TargetOf(mk, p).deps| && Dependency(mk, Index(mk, p), k) == j
    requires w.status[j] == Unfinished && Follows(mk, Under(files), Index(mk, p), j)
    ensures var r := BuildFrom(mk, SetStatus(w, p, NeedsBuilding), Entry(j));
            r.ok ==> InRange(mk, r.world, p) && MarkedForReason(mk, files, r.world, p, k + 1)
  {
    var v := SetStatus(w, p, NeedsBuilding);
    ReadyToDescend(mk, files, w, p, j);
    StaysMarked(mk, v, p, j);
    BuildIsLater(mk, v, Entry(j));
    AsksFirst(mk, files, p, w.calls, j, BuildFrom(mk, v, Entry(j)).world.calls);
  }

  lemma {:induction false} LoopKeepsRuns(
      mk: Makefile, files: Files, w: World, p: Ref, k: nat, older: map<nat, Files>, depth: nat)
    requires Going(mk, files, w, p) && p.Entry? && 0 < |TargetOf(mk, p).deps| && k <= |TargetOf(mk, p).deps|
    requires ExpandedUpTo(mk, files, Index(mk, p), k, w.status)
    requires RunsKept(mk, files, w) && MarkedForReason(mk, files, w, p, k)
    ensures var r := Loop(mk, w, p, k, older, depth); r.ok ==> RunsKept(mk, files, r.world)
    decreases Open(w.status), Rank(w, p), 0, |TargetOf(mk, p).deps| - k, 1
  {
    if k == |TargetOf(mk, p).deps| {
      FinishKeepsRuns(mk, files, w, p, older, depth);
    } else {
      var t := Step(mk, w, p, k, older, depth);
      MeasureFalls(w, t.world, p);
      AlwaysComparable(mk, files, w, p);
      StepVisits(mk, files, w, p, k, older, depth);
      StepKeepsRuns(mk, files, w, p, k, older, depth);
      if t.ok {
        LoopKeepsRuns(mk, files, t.world, p, k + 1, t.older, t.depth);
      }
    }
  }

  /** Calling an unfinished entry gives no finished one a new reason. */
  lemma CallKeepsRuns(mk: Makefile, files: Files, w: World, p: Ref)
    requires p.Entry? && p.i < |w.status| && w.status[p.i] == Unfinished
    requires Kept(mk, files, w) && RunsKept(mk, files, w)
    ensures RunsKept(mk, files, w.(calls := w.calls + [p]))
  {
    var called := w.(calls := w.calls + [p]);
    assert called.runs[..|w.runs|] == w.runs;
    forall i | 0 <= i < |called.status| && called.status[i] == Finished
      ensures RanForReason(mk, files, called, Entry(i))
    {
      ReasonStays(mk, files, w, called, p, i);
    }
  }

  lemma {:induction false} BuildKeepsRuns(mk: Makefile, files: Files, w: World, p: Ref)
    requires Callable(mk, files, w, p) && p.Entry? && RunsKept(mk, files, w)
    ensures var r := BuildFrom(mk, w, p); r.ok ==> RunsKept(mk, files, r.world)
    decreases Open(w.status), Rank(w, p), 1, 0, 0
  {
    var called := w.(calls := w.calls + [p]);
    CalledIsGoing(mk, files, w, p);
    CallKeepsRuns(mk, files, w, p);
    if |TargetOf(mk, p).deps| == 0 {
      MarkedIsGoing(mk, files, called, p);
      MarkingKeepsRuns(mk, files, called, p);
      FinishKeepsRuns(mk, files, SetStatus(called, p, NeedsBuilding), p, map[], 1);
    } else {
      LoopKeepsRuns(mk, files, called, p, 0, map[], 1);
    }
  }

  // ---------------------------------------------------------------- the root's copy

  /** The state between two turns of the loop for main's copy. */
  ghost predicate CopyGoing(mk: Makefile, files: Files, w: World, k: nat) {
    && Going(mk, files, w, Copy) && NoneMarked(w) && RunsKept(mk, files, w)
    && mk.targets[mk.root].deps != [] && k <= |mk.targets[mk.root].deps|
    && ExpandedUpTo(mk, files, mk.root, k, w.status)
    && MarkedForReason(mk, files, w, Copy, k)
    && (w.status[mk.root] == Finished ==> w.copy == NeedsBuilding)
  }

  lemma CopyStep(mk: Makefile, files: Files, w: World, k: nat, older: map<nat, Files>, depth: nat)
    requires CopyGoing(mk, files, w, k) && w.status[mk.root] != Finished && k < |mk.targets[mk.root].deps|
    ensures var t := Step(mk, w, Copy, k, older, depth); t.ok ==> CopyGoing(mk, files, t.world, k + 1)
  {
    var t := Step(mk, w, Copy, k, older, depth);
    StepVisits(mk, files, w, Copy, k, older, depth);
    StepKeepsRuns(mk, files, w, Copy, k, older, depth);
    StepIsOrderly(mk, w, Copy, k, older, depth);
    if t.ok {
      CopyMarkedWhenOthersMove(mk, files, w, k, older, depth);
      forall i | 0 <= i < |t.world.status|
        ensures t.world.status[i] != NeedsBuilding
      {
        assert Known(w, Entry(i)) && StatusOf(t.world, Entry(i)) == t.world.status[i];
      }
    }
  }

  /** The copy is marked before anything else changes. */
  lemma CopyMarkedWhenOthersMove(mk: Makefile, files: Files, w: World, k: nat, older: map<nat, Files>, depth: nat)
    requires Going(mk, files, w, Copy) && k < |mk.targets[mk.root].deps|
    ensures var t := Step(mk, w, Copy, k, older, depth);
            t.ok && t.world.status != w.status ==> t.world.copy == NeedsBuilding
  {
    var j := Dependency(mk, mk.root, k);
    if j != -1 && w.status[j] == Unfinished {
      MarkingIsOrderly(mk, w, Copy);
      StaysMarked(mk, SetStatus(w, Copy, NeedsBuilding), Copy, j);
    }
  }

  // ---------------------------------------------------------------- reasons in the makefile

  ghost predicate IsFollowedLater(mk: Makefile, files: Files, order: seq<nat>, i: nat, j: nat) {
    Follows(mk, Under(files), i, j) && ComesAfter(order, i, j)
  }

  /** Some dependency that was not strictly older comes after `i` in the order. */
  ghost predicate FollowsLater(mk: Makefile, files: Files, order: seq<nat>, i: nat) {
    exists j :: IsFollowedLater(mk, files, order, i, j)
  }

  ghost predicate FollowsAny(mk: Makefile, files: Files, i: nat) {
    exists j :: Follows(mk, Under(files), i, j)
  }

  lemma AsksInOrder(mk: Makefile, files: Files, order: seq<nat>, i: nat)
    ensures Asks(mk, files, Entry(i), CallsOf(order)) <==> FollowsLater(mk, files, order, i)
  {
    var calls := CallsOf(order);
    if Asks(mk, files, Entry(i), calls) {
      var j: nat :| IsAskedBy(mk, files, Entry(i), calls, j);
      var a, b :| 0 <= a < b < |calls| && calls[a] == Entry(i) && calls[b] == Entry(j);
      assert order[a - 1] == i && order[b - 1] == j;
      assert IsFollowedLater(mk, files, order, i, j);
    }
    if FollowsLater(mk, files, order, i) {
      var j: nat :| IsFollowedLater(mk, files, order, i, j);
      var a, b :| 0 <= a < b < |order| && order[a] == i && order[b] == j;
      assert calls[a + 1] == Entry(i) && calls[b + 1] == Entry(j);
      assert IsAskedBy(mk, files, Entry(i), calls, j);
    }
  }

  /** Everything the root depends on comes after its copy. */
  lemma CopyAsksInOrder(mk: Makefile, files: Files, order: seq<nat>)
    requires forall j | Follows(mk, Under(files), mk.root, j) :: j in order
    ensures Asks(mk, files, Copy, CallsOf(order)) <==> FollowsAny(mk, files, mk.root)
  {
    var calls := CallsOf(order);
    if Asks(mk, files, Copy, calls) {
      var j: nat :| IsAskedBy(mk, files, Copy, calls, j);
    }
    if FollowsAny(mk, files, mk.root) {
      var j: nat :| Follows(mk, Under(files), mk.root, j);
      var n :| 0 <= n < |order| && order[n] == j;
      assert calls[0] == Copy && calls[n + 1] == Entry(j);
      assert IsAskedBy(mk, files, Copy, calls, j);
    }
  }

  // ---------------------------------------------------------------- the end of the copy's loop

  /** The entry of `i` ran if and only if the makefile and the times before the
      build gave it a reason. */
  ghost predicate RanAsOrdered(mk: Makefile, files: Files, order: seq<nat>, w: World, i: nat) {
    HasRun(w.runs, Entry(i)) <==> MustRun(mk, files, i) || FollowsLater(mk, files, order, i)
  }

  /** The whole order was called, and of it ran what had a reason. */
  ghost predicate EntriesComplete(mk: Makefile, files: Files, order: seq<nat>, w: World) {
    && CallsOf(order) <= w.calls
    && forall j: nat | Leads(mk, Under(files), mk.root, j) :: RanAsOrdered(mk, files, order, w, j)
  }

  /** And likewise main's copy of the root, which comes first. */
  ghost predicate Complete(mk: Makefile, files: Files, order: seq<nat>, w: World) {
    && EntriesComplete(mk, files, order, w)
    && (HasRun(w.runs, Copy) <==> MustRun(mk, files, mk.root) || FollowsAny(mk, files, mk.root))
  }

  ghost predicate LedToAreFinished(mk: Makefile, files: Files, w: World) {
    forall j: nat | Leads(mk, Under(files), mk.root, j) :: j < |w.status| && w.status[j] == Finished
  }

  lemma LeadsToTarget(mk: Makefile, t: Times, a: nat, b: nat)
    requires Leads(mk, t, a, b)
    ensures a < |mk.targets| && mk.targets[a].deps != [] && b < |mk.targets|
    ensures exists j :: Follows(mk, t, a, j)
  {
    var path :| LeadsAlong(mk, t, a, b, path);
    assert Follows(mk, t, path[0], path[1]);
    assert Follows(mk, t, path[|path| - 2], path[|path| - 1]);
  }

  /** The copy has nothing left to call: its loop is over, or the root's entry was
      built in between. */
  ghost predicate CopyDone(mk: Makefile, files: Files, w: World, k: nat) {
    CopyGoing(mk, files, w, k) && (w.status[mk.root] == Finished || k == |mk.targets[mk.root].deps|)
  }

  lemma LedToFinish(mk: Makefile, files: Files, w: World, k: nat)
    requires CopyDone(mk, files, w, k)
    ensures LedToAreFinished(mk, files, w)
    ensures forall j: nat | Leads(mk, Under(files), mk.root, j) :: Entry(j) in w.calls
  {
    assert ExpandedUpTo(mk, files, mk.root, |mk.targets[mk.root].deps|, w.status);
    ExpandedLeadsToCalls(mk, files, w);
    forall j: nat | Leads(mk, Under(files), mk.root, j)
      ensures j < |w.status| && w.status[j] == Finished
    {
      LeadsToTarget(mk, Under(files), mk.root, j);
    }
  }

  lemma FollowedAreListed(mk: Makefile, files: Files, calls: seq<Ref>, listed: seq<nat>)
    requires calls == CallsOf(listed)
    requires forall j: nat | Leads(mk, Under(files), mk.root, j) :: Entry(j) in calls
    ensures forall j | Follows(mk, Under(files), mk.root, j) :: j in listed
  {
    forall j: nat | Follows(mk, Under(files), mk.root, j)
      ensures j in listed
    {
      LeadsOneStep(mk, Under(files), mk.root, j);
      CallListed(listed, j);
    }
  }

  lemma OrderEnds(mk: Makefile, files: Files, w: World, k: nat, listed: seq<nat>)
    requires CopyDone(mk, files, w, k) && w.calls == CallsOf(listed)
    ensures Order(mk, files, listed, mk.root, k) == listed
  {
    LedToFinish(mk, files, w, k);
    FollowedAreListed(mk, files, w.calls, listed);
    AllListed(mk, files, listed, mk.root, k);
  }

  lemma CopyDoneCompletes(mk: Makefile, files: Files, w: World, k: nat, order: seq<nat>)
    requires CopyDone(mk, files, w, k) && w.calls == CallsOf(order)
    ensures EntriesComplete(mk, files, order, w) && LedToAreFinished(mk, files, w)
  {
    LedToFinish(mk, files, w, k);
    forall j: nat | Leads(mk, Under(files), mk.root, j)
      ensures RanAsOrdered(mk, files, order, w, j)
    {
      AsksInOrder(mk, files, order, j);
      assert RanForReason(mk, files, w, Entry(j));
    }
  }

  lemma EntriesStayComplete(mk: Makefile, files: Files, order: seq<nat>, w: World, v: World)
    requires EntriesComplete(mk, files, order, w) && LedToAreFinished(mk, files, w)
    requires IsLater(w, v, Copy)
    ensures EntriesComplete(mk, files, order, v)
  {
    forall j: nat | Leads(mk, Under(files), mk.root, j)
      ensures RanAsOrdered(mk, files, order, v, j)
    {
      FinishedRunsNoMore(w, v, Copy, j);
    }
  }

  /** `listed` has been called and the rest of `order` is to come. */
  ghost predicate CopyInOrder(mk: Makefile, files: Files, w: World, k: nat, listed: seq<nat>, order: seq<nat>) {
    && CopyGoing(mk, files, w, k) && w.calls == CallsOf(listed)
    && Order(mk, files, listed, mk.root, k) == order
  }

  /** If the rest of the copy's loop succeeds, the build is complete. */
  ghost predicate Completes(
      mk: Makefile, files: Files, w: World, k: nat, older: map<nat, Files>, depth: nat, order: seq<nat>) {
    && InRange(mk, w, Copy) && k <= |mk.targets[mk.root].deps|
    && var r := Loop(mk, w, Copy, k, older, depth); (r.ok ==> Complete(mk, files, order, r.world))
  }

  lemma CopyTurnInOrder(
      mk: Makefile, files: Files, w: World, k: nat, older: map<nat, Files>, depth: nat,
      listed: seq<nat>, order: seq<nat>)
    requires CopyInOrder(mk, files, w, k, listed, order) && !CopyDone(mk, files, w, k)
    ensures InRange(mk, w, Copy) && k < |mk.targets[mk.root].deps|
    ensures var t := Step(mk, w, Copy, k, older, depth);
            t.ok ==> CopyInOrder(mk, files, t.world, k + 1, OrderStep(mk, files, listed, mk.root, k), order)
  {
    CopyStep(mk, files, w, k, older, depth);
    StepFollowsOrder(mk, files, w, Copy, k, older, depth, listed);
  }

  lemma {:induction false} CopyLoopCompletes(
      mk: Makefile, files: Files, w: World, k: nat, older: map<nat, Files>, depth: nat,
      listed: seq<nat>, order: seq<nat>)
    requires mk.root < |mk.targets| && k <= |mk.targets[mk.root].deps|
    requires CopyInOrder(mk, files, w, k, listed, order)
    ensures Completes(mk, files, w, k, older, depth, order)
    decreases |mk.targets[mk.root].deps| - k
  {
    if CopyDone(mk, files, w, k) {
      OrderEnds(mk, files, w, k, listed);
      CopyEndCompletes(mk, files, w, k, older, depth, order);
    } else {
      CopyTurnInOrder(mk, files, w, k, older, depth, listed, order);
      var t := Step(mk, w, Copy, k, older, depth);
      if t.ok {
        var more := OrderStep(mk, files, listed, mk.root, k);
        CopyLoopCompletes(mk, files, t.world, k + 1, t.older, t.depth, more, order);
      }
      CompletesAfterTurn(mk, files, w, k, older, depth, order);
    }
  }

  lemma CompletesAfterTurn(
      mk: Makefile, files: Files, w: World, k: nat, older: map<nat, Files>, depth: nat, order: seq<nat>)
    requires InRange(mk, w, Copy) && k < |mk.targets[mk.root].deps|
    requires var t := Step(mk, w, Copy, k, older, depth);
             t.ok ==> Completes(mk, files, t.world, k + 1, t.older, t.depth, order)
    ensures Completes(mk, files, w, k, older, depth, order)
  {
    LoopUnfolds(mk, w, Copy, k, older, depth);
  }

  /** Whatever the copy's loop still does once the order has been called. */
  lemma CopyEndCompletes(
      mk: Makefile, files: Files, w: World, k: nat, older: map<nat, Files>, depth: nat, order: seq<nat>)
    requires CopyDone(mk, files, w, k) && w.calls == CallsOf(order)
    ensures Completes(mk, files, w, k, older, depth, order)
  {
    CopyDoneCompletes(mk, files, w, k, order);
    LoopIsLater(mk, w, Copy, k, older, depth);
    EntriesStayComplete(mk, files, order, w, Loop(mk, w, Copy, k, older, depth).world);
    LedToFinish(mk, files, w, k);
    FollowedAreListed(mk, files, w.calls, order);
    CopyAsksInOrder(mk, files, order);
    CopyRunsForReason(mk, files, w, k, older, depth);
  }

  /** The copy's reason, if it has one, is known by then. */
  lemma CopyRunsForReason(mk: Makefile, files: Files, w: World, k: nat, older: map<nat, Files>, depth: nat)
    requires CopyDone(mk, files, w, k)
    ensures var r := Loop(mk, w, Copy, k, older, depth);
            r.ok ==> (HasRun(r.world.runs, Copy) <==> MustRun(mk, files, mk.root) || Asks(mk, files, Copy, w.calls))
  {
    if w.copy == NeedsBuilding {
      MarkedRuns(mk, w, Copy, k, older, depth);
    } else {
      assert Loop(mk, w, Copy, k, older, depth) == Finish(mk, w, Copy, older, depth);
      FinishForReason(mk, files, w, Copy, older, depth);
    }
  }

  /** A marked target whose loop and command succeed has run. */
  lemma {:induction false} MarkedRuns(mk: Makefile, w: World, p: Ref, k: nat, older: map<nat, Files>, depth: nat)
    requires NoSelfDependency(mk) && InRange(mk, w, p) && k <= |TargetOf(mk, p).deps|
    requires AllDone(w) && StatusOf(w, p) == NeedsBuilding
    ensures var r := Loop(mk, w, p, k, older, depth); r.ok ==> HasRun(r.world.runs, p)
    decreases Open(w.status), Rank(w, p), 0, |TargetOf(mk, p).deps| - k, 1
  {
    if k == |TargetOf(mk, p).deps| {
      MarkedFinishRuns(mk, w, p, older, depth);
    } else {
      var t := Step(mk, w, p, k, older, depth);
      MeasureFalls(w, t.world, p);
      StepIsOrderly(mk, w, p, k, older, depth);
      if t.ok {
        assert Level(StatusOf(w, p)) <= Level(StatusOf(t.world, p));
        MarkedRuns(mk, t.world, p, k + 1, t.older, t.depth);
      }
    }
  }

  // ---------------------------------------------------------------- the results

  /** Exactly which commands a successful build runs, on cyclic makefiles too,
      from the makefile and the times before the build alone.  It calls at least
      the targets of the preorder, in that order.  Such a target's command runs if
      and only if the target has no dependencies, or depends on a file that is no
      target and was not strictly older, or on a target that was not strictly
      older and comes after it in the order. */
  lemma RunsAreExact(mk: Makefile, files: Files)
    requires Calm(mk) && Make(mk, files).ok
    ensures Complete(mk, files, Preorder(mk, files), Make(mk, files).world)
  {
    var w := Start(mk, files);
    var called := w.(calls := w.calls + [Copy]);
    CalledIsGoing(mk, files, w, Copy);
    assert called.calls == CallsOf([]);
    if mk.targets[mk.root].deps == [] {
      forall j: nat
        ensures !Leads(mk, Under(files), mk.root, j)
      {
        if Leads(mk, Under(files), mk.root, j) {
          LeadsToTarget(mk, Under(files), mk.root, j);
        }
      }
      MarkedFinishRuns(mk, called.(copy := NeedsBuilding), Copy, map[], 1);
    } else {
      CopyLoopCompletes(mk, files, called, 0, map[], 1, [], Preorder(mk, files));
    }
  }

  /** Two runs for the same target, be it the root's copy or its array entry,
      are the same run. */
  ghost predicate EachTargetOnce(mk: Makefile, runs: seq<Run>) {
    forall a, b | 0 <= a < |runs| && 0 <= b < |runs| && Index(mk, runs[a].who) == Index(mk, runs[b].who) :: a == b
  }

  /** Only the copy and called entries run. */
  lemma OnlyCalledRun(mk: Makefile, files: Files)
    requires mk.root < |mk.targets|
    ensures var w := Make(mk, files).world; forall x | x in w.runs :: x.who in w.calls
  {
    var w := Make(mk, files).world;
    BuildIsLater(mk, Start(mk, files), Copy);
    assert [Copy] <= w.calls;
    assert w.calls[0] == [Copy][0];
    forall x | x in w.runs
      ensures x.who in w.calls
    {
      var n :| 0 <= n < |w.runs| && w.runs[n] == x;
      if x.who != Copy {
        var m :| 1 <= m < |w.calls| && w.calls[m] == x.who;
      }
    }
  }

  lemma OnceUnlessRootTwice(mk: Makefile, runs: seq<Run>)
    requires Distinct(runs) && !(HasRun(runs, Copy) && HasRun(runs, Entry(mk.root)))
    ensures EachTargetOnce(mk, runs)
  {
    forall a, b | 0 <= a < |runs| && 0 <= b < |runs| && Index(mk, runs[a].who) == Index(mk, runs[b].who)
      ensures a == b
    {
      assert runs[a] in runs && runs[b] in runs;
    }
  }

  /** If the root is on no cycle that is followed, no target's command runs
      twice, whether the build succeeds or not. */
  lemma EachCommandRunsOnce(mk: Makefile, files: Files)
    requires Calm(mk) && !RootOnCycle(mk, files)
    ensures EachTargetOnce(mk, Make(mk, files).world.runs)
  {
    CommandsRunOnce(mk, files);
    VisitsAreExact(mk, files);
    OnlyCalledRun(mk, files);
    OnceUnlessRootTwice(mk, Make(mk, files).world.runs);
  }

  /** The exact condition for a command to run twice in a successful build, in
      terms of the makefile and the times before it: the root is on a cycle that is
      followed, and it depends on a file that was not strictly older or on a target
      that was not strictly older and comes after the root in the order. */
  lemma TwiceExactlyOnCycle(mk: Makefile, files: Files)
    requires Calm(mk) && Make(mk, files).ok
    ensures !EachTargetOnce(mk, Make(mk, files).world.runs) <==>
              && RootOnCycle(mk, files)
              && (MustRun(mk, files, mk.root) || FollowsLater(mk, files, Preorder(mk, files), mk.root))
  {
    var runs := Make(mk, files).world.runs;
    if RootOnCycle(mk, files) {
      RunsAreExact(mk, files);
      LeadsToTarget(mk, Under(files), mk.root, mk.root);
      CommandsRunOnce(mk, files);
      if HasRun(runs, Entry(mk.root)) {
        RootTwice(mk, runs);
      } else {
        OnceUnlessRootTwice(mk, runs);
      }
    } else {
      EachCommandRunsOnce(mk, files);
    }
  }

  lemma RootTwice(mk: Makefile, runs: seq<Run>)
    requires HasRun(runs, Copy) && HasRun(runs, Entry(mk.root))
    ensures !EachTargetOnce(mk, runs)
  {
    var x :| x in runs && x.who == Copy;
    var y :| y in runs && y.who == Entry(mk.root);
    var a :| 0 <= a < |runs| && runs[a] == x;
    var b :| 0 <= b < |runs| && runs[b] == y;
    assert Index(mk, runs[a].who) == Index(mk, runs[b].who);
  }
}
