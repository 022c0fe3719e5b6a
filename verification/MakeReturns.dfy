// What build returns, for every makefile, every command and every way a
// command can end.

module MakeReturns {
  import opened MakefileParser
  import opened MakeBuild
  import opened MakeTheorems

  ghost predicate AllSucceed(runs: seq<Run>) {
    forall x | x in runs :: Succeeds(x.outcome)
  }

  /** The last command that ran exited with a non-zero status. */
  ghost predicate LastFailed(runs: seq<Run>) {
    runs != [] && !Succeeds(runs[|runs| - 1].outcome)
  }

  /** The next command is due for `p`, and fork fails for it. */
  ghost predicate ForkFailsFor(mk: Makefile, w: World, p: Ref) {
    && InRange(mk, w, p) && StatusOf(w, p) == NeedsBuilding
    && mk.shell(|w.runs|, TargetOf(mk, p), w.files).outcome.ForkFailed?
  }

  ghost predicate ForkFails(mk: Makefile, w: World) {
    exists p :: ForkFailsFor(mk, w, p)
  }

  /** Apart from `p`, nothing is marked that was not marked before. */
  ghost predicate NoNewMarks(w: World, v: World, p: Ref) {
    && |v.status| == |w.status|
    && forall q | Known(w, q) && q != p && StatusOf(v, q) == NeedsBuilding :: StatusOf(w, q) == NeedsBuilding
  }

  /** Success with every command successful and `p` finished, or a reason. */
  ghost predicate Reports(mk: Makefile, w: World, p: Ref, r: Result) {
    && Known(w, p) && Known(r.world, p)
    && (if r.ok then AllSucceed(r.world.runs) && StatusOf(r.world, p) == Finished && NoNewMarks(w, r.world, p)
        else LastFailed(r.world.runs) || ForkFails(mk, r.world))
  }

  ghost predicate TurnReports(mk: Makefile, w: World, p: Ref, t: Turn) {
    if t.ok then AllSucceed(t.world.runs) && NoNewMarks(w, t.world, p)
    else LastFailed(t.world.runs) || ForkFails(mk, t.world)
  }

  lemma FinishReports(mk: Makefile, w: World, p: Ref, older: map<nat, Files>, depth: nat)
    requires InRange(mk, w, p) && AllSucceed(w.runs)
    ensures Reports(mk, w, p, Finish(mk, w, p, older, depth))
  {
    var r := Finish(mk, w, p, older, depth);
    if r.ok {
      forall x | x in r.world.runs
        ensures Succeeds(x.outcome)
      {
        assert x in w.runs || x == r.world.runs[|r.world.runs| - 1];
      }
    } else if mk.shell(|w.runs|, TargetOf(mk, p), w.files).outcome.ForkFailed? {
      assert ForkFailsFor(mk, r.world, p);
    }
  }

  lemma {:induction false} StepReports(mk: Makefile, w: World, p: Ref, k: nat, older: map<nat, Files>, depth: nat)
    requires InRange(mk, w, p) && k < |TargetOf(mk, p).deps| && AllSucceed(w.runs)
    ensures TurnReports(mk, w, p, Step(mk, w, p, k, older, depth))
    decreases Open(w.status), Rank(w, p), 0, |TargetOf(mk, p).deps| - k, 0
  {
    var target := TargetOf(mk, p);
    var j := Dependency(mk, Index(mk, p), k);
    if j != -1 && w.status[j] == Unfinished && CompareTimes(w.files, target.deps[k], target.name) != 2 {
      MarkingCloses(w, p, NeedsBuilding);
      var v := SetStatus(w, p, NeedsBuilding);
      BuildReports(mk, v, Entry(j));
      var r := BuildFrom(mk, v, Entry(j));
      if r.ok {
        forall q | Known(w, q) && q != p && StatusOf(r.world, q) == NeedsBuilding
          ensures StatusOf(w, q) == NeedsBuilding
        {
          assert Known(v, q) && q != Entry(j);
        }
      }
    }
  }

  lemma {:induction false} LoopReports(mk: Makefile, w: World, p: Ref, k: nat, older: map<nat, Files>, depth: nat)
    requires InRange(mk, w, p) && k <= |TargetOf(mk, p).deps| && AllSucceed(w.runs)
    ensures Reports(mk, w, p, Loop(mk, w, p, k, older, depth))
    decreases Open(w.status), Rank(w, p), 0, |TargetOf(mk, p).deps| - k, 1
  {
    if k == |TargetOf(mk, p).deps| {
      FinishReports(mk, w, p, older, depth);
    } else {
      var t := Step(mk, w, p, k, older, depth);
      MeasureFalls(w, t.world, p);
      StepReports(mk, w, p, k, older, depth);
      if t.ok {
        LoopReports(mk, t.world, p, k + 1, t.older, t.depth);
        MarksTogether(mk, w, t.world, p, Loop(mk, t.world, p, k + 1, t.older, t.depth));
      }
    }
  }

  lemma MarksTogether(mk: Makefile, w: World, v: World, p: Ref, r: Result)
    requires Known(w, p) && NoNewMarks(w, v, p) && Reports(mk, v, p, r)
    ensures Reports(mk, w, p, r)
  {
    if r.ok {
      forall q | Known(w, q) && q != p && StatusOf(r.world, q) == NeedsBuilding
        ensures StatusOf(w, q) == NeedsBuilding
      {
        assert Known(v, q) && StatusOf(v, q) == NeedsBuilding;
      }
    }
  }

  lemma {:induction false} BuildReports(mk: Makefile, w: World, p: Ref)
    requires InRange(mk, w, p) && AllSucceed(w.runs)
    ensures Reports(mk, w, p, BuildFrom(mk, w, p))
    decreases Open(w.status), Rank(w, p), 1, 0, 0
  {
    var called := w.(calls := w.calls + [p]);
    if |TargetOf(mk, p).deps| == 0 {
      var v := SetStatus(called, p, NeedsBuilding);
      FinishReports(mk, v, p, map[], 1);
      MarksTogether(mk, w, v, p, BuildFrom(mk, w, p));
    } else {
      LoopReports(mk, called, p, 0, map[], 1);
      MarksTogether(mk, w, called, p, BuildFrom(mk, w, p));
    }
  }

  /** The return value, on every makefile: -1 exactly when the last command that
      ran exited with a non-zero status or fork fails for the target due next. */
  lemma FailureHasReason(mk: Makefile, files: Files)
    requires mk.root < |mk.targets|
    ensures var r := Make(mk, files); !r.ok <==> LastFailed(r.world.runs) || ForkFails(mk, r.world)
    ensures Make(mk, files).ok ==> AllSucceed(Make(mk, files).world.runs)
  {
    var w := Start(mk, files);
    var r := Make(mk, files);
    BuildReports(mk, w, Copy);
    if r.ok {
      forall q
        ensures !ForkFailsFor(mk, r.world, q)
      {
        assert Known(w, q) && q != Copy ==> StatusOf(w, q) == Unfinished;
      }
    }
  }

  // ---------------------------------------------------------------- the documented value

  /** build's description: a target fails to build when its command does not end
      normally with status 0. */
  ghost predicate FailsToBuild(o: Outcome) {
    o != Exited(0)
  }

  /** When the description asks for -1. */
  ghost predicate ShouldFail(mk: Makefile, w: World) {
    (exists x :: x in w.runs && FailsToBuild(x.outcome)) || ForkFails(mk, w)
  }

  ghost predicate NoneSignalled(runs: seq<Run>) {
    forall x | x in runs :: !x.outcome.Signalled?
  }

  /** The code meets its description exactly if it returns -1 anyway or no command
      was killed by a signal; so a return of 0 means that every command that ran
      exited with status 0 if and only if none was killed. */
  lemma MeetsDescription(mk: Makefile, files: Files)
    requires mk.root < |mk.targets|
    ensures var r := Make(mk, files);
            (r.ok <==> !ShouldFail(mk, r.world)) <==> (!r.ok || NoneSignalled(r.world.runs))
    ensures var r := Make(mk, files);
            r.ok ==> ((forall x | x in r.world.runs :: x.outcome == Exited(0)) <==> NoneSignalled(r.world.runs))
  {
    FailureHasReason(mk, files);
    var r := Make(mk, files);
    if LastFailed(r.world.runs) {
      assert r.world.runs[|r.world.runs| - 1] in r.world.runs;
    }
  }

  // ---------------------------------------------------------------- what the shell answers

  /** Whatever the shell is asked, its answers are `good`. */
  ghost predicate Answers(mk: Makefile, good: Outcome -> bool) {
    forall n: nat, t: Target, files: Files :: good(mk.shell(n, t, files).outcome)
  }

  ghost predicate AllAre(runs: seq<Run>, good: Outcome -> bool) {
    forall x | x in runs :: good(x.outcome)
  }

  lemma {:induction false} StepAnswers(
      mk: Makefile, w: World, p: Ref, k: nat, older: map<nat, Files>, depth: nat, good: Outcome -> bool)
    requires InRange(mk, w, p) && k < |TargetOf(mk, p).deps| && Answers(mk, good) && AllAre(w.runs, good)
    ensures AllAre(Step(mk, w, p, k, older, depth).world.runs, good)
    decreases Open(w.status), Rank(w, p), 0, |TargetOf(mk, p).deps| - k, 0
  {
    var target := TargetOf(mk, p);
    var j := Dependency(mk, Index(mk, p), k);
    if j != -1 && w.status[j] == Unfinished && CompareTimes(w.files, target.deps[k], target.name) != 2 {
      MarkingCloses(w, p, NeedsBuilding);
      BuildAnswers(mk, SetStatus(w, p, NeedsBuilding), Entry(j), good);
    }
  }

  lemma {:induction false} LoopAnswers(
      mk: Makefile, w: World, p: Ref, k: nat, older: map<nat, Files>, depth: nat, good: Outcome -> bool)
    requires InRange(mk, w, p) && k <= |TargetOf(mk, p).deps| && Answers(mk, good) && AllAre(w.runs, good)
    ensures AllAre(Loop(mk, w, p, k, older, depth).world.runs, good)
    decreases Open(w.status), Rank(w, p), 0, |TargetOf(mk, p).deps| - k, 1
  {
    if k < |TargetOf(mk, p).deps| {
      var t := Step(mk, w, p, k, older, depth);
      MeasureFalls(w, t.world, p);
      StepAnswers(mk, w, p, k, older, depth, good);
      if t.ok {
        LoopAnswers(mk, t.world, p, k + 1, t.older, t.depth, good);
      }
    }
  }

  /** The commands that ran ended as the shell said. */
  lemma {:induction false} BuildAnswers(mk: Makefile, w: World, p: Ref, good: Outcome -> bool)
    requires InRange(mk, w, p) && Answers(mk, good) && AllAre(w.runs, good)
    ensures AllAre(BuildFrom(mk, w, p).world.runs, good)
    decreases Open(w.status), Rank(w, p), 1, 0, 0
  {
    if |TargetOf(mk, p).deps| > 0 {
      LoopAnswers(mk, w.(calls := w.calls + [p]), p, 0, map[], 1, good);
    }
  }

  predicate IsNotSignalled(o: Outcome) {
    !o.Signalled?
  }

  predicate IsZeroExit(o: Outcome) {
    o == Exited(0)
  }

  /** If no command is ever killed by a signal, the described value is returned,
      on every makefile. */
  lemma DescribedUnlessKilled(mk: Makefile, files: Files)
    requires mk.root < |mk.targets| && Answers(mk, IsNotSignalled)
    ensures Make(mk, files).ok <==> !ShouldFail(mk, Make(mk, files).world)
  {
    BuildAnswers(mk, Start(mk, files), Copy, IsNotSignalled);
    MeetsDescription(mk, files);
  }

  /** If every command exits with status 0, build returns 0. */
  lemma SucceedsIfAllDo(mk: Makefile, files: Files)
    requires mk.root < |mk.targets| && Answers(mk, IsZeroExit)
    ensures Make(mk, files).ok
  {
    BuildAnswers(mk, Start(mk, files), Copy, IsZeroExit);
    FailureHasReason(mk, files);
    var w := Make(mk, files).world;
    assert w.runs != [] ==> w.runs[|w.runs| - 1] in w.runs;
  }

  /** One target without dependencies, whose command is killed. */
  const KILLED := Makefile([Target("a", [], "sleep 9", Unfinished)], 0, (n, t, files) => Reply(Signalled, files))

  lemma KilledCommandSucceeds(files: Files)
    ensures Make(KILLED, files).ok && ShouldFail(KILLED, Make(KILLED, files).world)
  {
    var r := Make(KILLED, files);
    assert r.world.runs[0].outcome.Signalled? && r.world.runs[0] in r.world.runs;
  }
}
