// What a build does, for every makefile: how deep it recurses, which commands
// it runs and in which state it leaves the targets.

module MakeTheorems {
  import opened Counting
  import opened MakefileParser
  import opened MakeBuild

  // ---------------------------------------------------------------- depth

  ghost predicate NoSelfDependency(mk: Makefile) {
    forall i, k | 0 <= i < |mk.targets| && 0 <= k < |mk.targets[i].deps| :: Dependency(mk, i, k) != i
  }

  /** The deepest recursion from a target, by the targets not yet reached. */
  ghost function DepthBound(mk: Makefile, w: World, p: Ref): nat
    requires InRange(mk, w, p)
  {
    if NoSelfDependency(mk) then Open(w.status) + Rank(w, p) else 2 * Open(w.status) + Rank(w, p)
  }

  lemma BoundFalls(mk: Makefile, w: World, w': World, p: Ref)
    requires InRange(mk, w, p) && InRange(mk, w', p) && Onward(w.status, w'.status)
    ensures DepthBound(mk, w', p) <= DepthBound(mk, w, p)
  {
    MeasureFalls(w, w', p);
  }

  lemma BoundPositive(mk: Makefile, w: World, p: Ref)
    requires InRange(mk, w, p)
    ensures DepthBound(mk, w, p) >= 1
  {
    if Rank(w, p) == 0 {
      SumAtLeast(IsUnfinished, w.status, p.i);
    }
  }

  lemma {:induction false} StepDepth(mk: Makefile, w: World, p: Ref, k: nat, older: map<nat, Files>, depth: nat)
    requires InRange(mk, w, p) && k < |TargetOf(mk, p).deps|
    ensures Step(mk, w, p, k, older, depth).depth <= Max(depth, DepthBound(mk, w, p))
    decreases Open(w.status), Rank(w, p), 0, |TargetOf(mk, p).deps| - k, 0
  {
    var target := TargetOf(mk, p);
    var j := Dependency(mk, Index(mk, p), k);
    if j != -1 && w.status[j] == Unfinished && CompareTimes(w.files, target.deps[k], target.name) != 2 {
      MarkingCloses(w, p, NeedsBuilding);
      BuildDepth(mk, SetStatus(w, p, NeedsBuilding), Entry(j));
    }
  }

  lemma {:induction false} LoopDepth(mk: Makefile, w: World, p: Ref, k: nat, older: map<nat, Files>, depth: nat)
    requires InRange(mk, w, p) && k <= |TargetOf(mk, p).deps|
    ensures Loop(mk, w, p, k, older, depth).depth <= Max(depth, DepthBound(mk, w, p))
    decreases Open(w.status), Rank(w, p), 0, |TargetOf(mk, p).deps| - k, 1
  {
    if k < |TargetOf(mk, p).deps| {
      var t := Step(mk, w, p, k, older, depth);
      MeasureFalls(w, t.world, p);
      BoundFalls(mk, w, t.world, p);
      StepDepth(mk, w, p, k, older, depth);
      if t.ok {
        LoopDepth(mk, t.world, p, k + 1, t.older, t.depth);
      }
    }
  }

  lemma {:induction false} BuildDepth(mk: Makefile, w: World, p: Ref)
    requires InRange(mk, w, p)
    ensures BuildFrom(mk, w, p).depth <= DepthBound(mk, w, p)
    decreases Open(w.status), Rank(w, p), 1, 0, 0
  {
    BoundPositive(mk, w, p);
    if |TargetOf(mk, p).deps| > 0 {
      LoopDepth(mk, w.(calls := w.calls + [p]), p, 0, map[], 1);
    }
  }

  /** The walk ends on every makefile, and its recursion is never deeper than one
      more than the number of targets, or than twice that number plus one when
      some target depends on itself. */
  lemma RecursionIsShallow(mk: Makefile, files: Files)
    requires mk.root < |mk.targets|
    ensures NoSelfDependency(mk) ==> Make(mk, files).depth <= |mk.targets| + 1
    ensures Make(mk, files).depth <= 2 * |mk.targets| + 1
  {
    var w := Start(mk, files);
    BuildDepth(mk, w, Copy);
    SumBounded(IsUnfinished, w.status, 1);
  }

  // ---------------------------------------------------------------- commands run once

  function Level(s: Status): nat {
    match s
    case Unfinished => 0
    case NeedsBuilding => 1
    case Finished => 2
  }

  ghost predicate Known(w: World, q: Ref) {
    q.Entry? ==> q.i < |w.status|
  }

  ghost predicate Distinct(runs: seq<Run>) {
    forall a, b | 0 <= a < |runs| && 0 <= b < |runs| && runs[a].who == runs[b].who :: a == b
  }

  /** Every command run so far succeeded, and ran for a target now finished. */
  ghost predicate AllDone(w: World) {
    && Distinct(w.runs)
    && forall x | x in w.runs :: Known(w, x.who) && StatusOf(w, x.who) == Finished && Succeeds(x.outcome)
  }

  /** A failed command is the last one. */
  ghost predicate OnlyLastFails(runs: seq<Run>) {
    forall a | 0 <= a < |runs| - 1 :: Succeeds(runs[a].outcome)
  }

  /** Statuses only move from unfinished over marked to finished. */
  ghost predicate Climbs(w: World, w': World) {
    && |w'.status| == |w.status|
    && forall q | Known(w, q) :: Level(StatusOf(w, q)) <= Level(StatusOf(w', q))
  }

  /** Apart from `p`, a status is as before or went from unfinished to finished. */
  ghost predicate OthersSettled(w: World, w': World, p: Ref) {
    && |w'.status| == |w.status|
    && forall q | Known(w, q) && q != p ::
         StatusOf(w', q) == StatusOf(w, q) || (StatusOf(w, q) == Unfinished && StatusOf(w', q) == Finished)
  }

  /** What a call of build, or the rest of one, does to the history. */
  ghost predicate Orderly(w: World, p: Ref, r: Result) {
    && Known(w, p)
    && |w.runs| <= |r.world.runs| && r.world.runs[..|w.runs|] == w.runs
    && Climbs(w, r.world)
    && Distinct(r.world.runs) && OnlyLastFails(r.world.runs)
    && (r.ok ==> AllDone(r.world) && StatusOf(r.world, p) == Finished && OthersSettled(w, r.world, p))
  }

  /** The command of a target not yet finished is new to the history. */
  lemma RunIsNew(w: World, p: Ref, x: Run)
    requires Known(w, p) && AllDone(w) && StatusOf(w, p) != Finished && x.who == p
    ensures Distinct(w.runs) && Distinct(w.runs + [x]) && OnlyLastFails(w.runs) && OnlyLastFails(w.runs + [x])
  {}

  lemma FinishIsOrderly(mk: Makefile, w: World, p: Ref, older: map<nat, Files>, depth: nat)
    requires InRange(mk, w, p) && AllDone(w) && StatusOf(w, p) != Finished
    ensures Orderly(w, p, Finish(mk, w, p, older, depth))
  {
    var r := Finish(mk, w, p, older, depth);
    RunIsNew(w, p, Run(p, mk.shell(|w.runs|, TargetOf(mk, p), w.files).outcome, w.status, older));
    assert r.world.runs[..|w.runs|] == w.runs;
    if r.ok {
      forall x | x in r.world.runs
        ensures Known(r.world, x.who) && StatusOf(r.world, x.who) == Finished && Succeeds(x.outcome)
      {
        assert x in w.runs || x.who == p;
      }
    }
  }

  /** First `w` to `v`, in which only `p` was marked and others settled, then on. */
  lemma OrderlyTogether(w: World, v: World, p: Ref, r: Result)
    requires Known(w, p) && Orderly(v, p, r) && OthersSettled(w, v, p) && Climbs(w, v)
    requires |w.runs| <= |v.runs| && v.runs[..|w.runs|] == w.runs
    ensures Orderly(w, p, r)
  {}

  /** Marking `p`, which has not run, disturbs nothing. */
  lemma MarkingIsOrderly(mk: Makefile, w: World, p: Ref)
    requires InRange(mk, w, p) && AllDone(w) && StatusOf(w, p) != Finished
    ensures var v := SetStatus(w, p, NeedsBuilding);
            AllDone(v) && OthersSettled(w, v, p) && Climbs(w, v) && v.runs == w.runs
  {}

  /** A turn of the loop: fine as long as it goes on, and a failed nested call
      leaves an orderly history. */
  ghost predicate TurnOrderly(w: World, p: Ref, t: Turn) {
    && Known(w, p)
    && |w.runs| <= |t.world.runs| && t.world.runs[..|w.runs|] == w.runs
    && Climbs(w, t.world)
    && Distinct(t.world.runs) && OnlyLastFails(t.world.runs)
    && (t.ok ==> AllDone(t.world) && StatusOf(t.world, p) != Finished && OthersSettled(w, t.world, p))
  }

  lemma {:induction false} StepIsOrderly(mk: Makefile, w: World, p: Ref, k: nat, older: map<nat, Files>, depth: nat)
    requires NoSelfDependency(mk) && InRange(mk, w, p) && k < |TargetOf(mk, p).deps|
    requires AllDone(w) && StatusOf(w, p) != Finished
    ensures TurnOrderly(w, p, Step(mk, w, p, k, older, depth))
    decreases Open(w.status), Rank(w, p), 0, |TargetOf(mk, p).deps| - k, 0
  {
    var target := TargetOf(mk, p);
    var j := Dependency(mk, Index(mk, p), k);
    forall a | 0 <= a < |w.runs|
      ensures Succeeds(w.runs[a].outcome)
    {
      assert w.runs[a] in w.runs;
    }
    MarkingIsOrderly(mk, w, p);
    assert w.runs[..|w.runs|] == w.runs;
    if j != -1 && w.status[j] == Unfinished && CompareTimes(w.files, target.deps[k], target.name) != 2 {
      MarkingCloses(w, p, NeedsBuilding);
      var v := SetStatus(w, p, NeedsBuilding);
      assert p != Entry(j);
      BuildIsOrderly(mk, v, Entry(j));
      NestedIsOrderly(mk, w, p, j, BuildFrom(mk, v, Entry(j)));
    }
  }

  /** A nested call for another target, seen from the target whose loop made it. */
  lemma NestedIsOrderly(mk: Makefile, w: World, p: Ref, j: nat, r: Result)
    requires InRange(mk, w, p) && AllDone(w) && StatusOf(w, p) != Finished
    requires j < |w.status| && p != Entry(j) && w.status[j] == Unfinished
    requires Orderly(SetStatus(w, p, NeedsBuilding), Entry(j), r)
    ensures Climbs(w, r.world)
    ensures r.ok ==> StatusOf(r.world, p) == NeedsBuilding && OthersSettled(w, r.world, p)
  {}

  lemma {:induction false} LoopIsOrderly(mk: Makefile, w: World, p: Ref, k: nat, older: map<nat, Files>, depth: nat)
    requires NoSelfDependency(mk) && InRange(mk, w, p) && k <= |TargetOf(mk, p).deps|
    requires AllDone(w) && StatusOf(w, p) != Finished
    ensures Orderly(w, p, Loop(mk, w, p, k, older, depth))
    decreases Open(w.status), Rank(w, p), 0, |TargetOf(mk, p).deps| - k, 1
  {
    if k == |TargetOf(mk, p).deps| {
      FinishIsOrderly(mk, w, p, older, depth);
    } else {
      var t := Step(mk, w, p, k, older, depth);
      MeasureFalls(w, t.world, p);
      StepIsOrderly(mk, w, p, k, older, depth);
      if t.ok {
        LoopIsOrderly(mk, t.world, p, k + 1, t.older, t.depth);
        OrderlyTogether(w, t.world, p, Loop(mk, t.world, p, k + 1, t.older, t.depth));
      }
    }
  }

  lemma {:induction false} BuildIsOrderly(mk: Makefile, w: World, p: Ref)
    requires NoSelfDependency(mk) && InRange(mk, w, p)
    requires AllDone(w) && StatusOf(w, p) != Finished
    ensures Orderly(w, p, BuildFrom(mk, w, p))
    decreases Open(w.status), Rank(w, p), 1, 0, 0
  {
    var called := w.(calls := w.calls + [p]);
    assert called.runs[..|w.runs|] == w.runs;
    if |TargetOf(mk, p).deps| == 0 {
      MarkingIsOrderly(mk, called, p);
      var v := SetStatus(called, p, NeedsBuilding);
      FinishIsOrderly(mk, v, p, map[], 1);
      OrderlyTogether(w, v, p, BuildFrom(mk, w, p));
    } else {
      LoopIsOrderly(mk, called, p, 0, map[], 1);
      OrderlyTogether(w, called, p, BuildFrom(mk, w, p));
    }
  }

  // ---------------------------------------------------------------- visited targets

  /** The calls made between `w` and `v` are all for targets finished in `v`. */
  ghost predicate CallsFinished(w: World, v: World) {
    && w.calls <= v.calls
    && forall n | |w.calls| <= n < |v.calls| :: Known(v, v.calls[n]) && StatusOf(v, v.calls[n]) == Finished
  }

  lemma CallsFinishedTogether(w: World, u: World, v: World)
    requires CallsFinished(w, u) && CallsFinished(u, v) && Climbs(u, v)
    ensures CallsFinished(w, v)
  {}

  lemma {:induction false} StepFinishesCalls(mk: Makefile, w: World, p: Ref, k: nat, older: map<nat, Files>, depth: nat)
    requires NoSelfDependency(mk) && InRange(mk, w, p) && k < |TargetOf(mk, p).deps|
    requires AllDone(w) && StatusOf(w, p) != Finished
    ensures Step(mk, w, p, k, older, depth).ok ==> CallsFinished(w, Step(mk, w, p, k, older, depth).world)
    decreases Open(w.status), Rank(w, p), 0, |TargetOf(mk, p).deps| - k, 0
  {
    var j := Dependency(mk, Index(mk, p), k);
    if Step(mk, w, p, k, older, depth).world.calls != w.calls {
      MarkingIsOrderly(mk, w, p);
      MarkingCloses(w, p, NeedsBuilding);
      BuildFinishesCalls(mk, SetStatus(w, p, NeedsBuilding), Entry(j));
    }
  }

  lemma {:induction false} LoopFinishesCalls(mk: Makefile, w: World, p: Ref, k: nat, older: map<nat, Files>, depth: nat)
    requires NoSelfDependency(mk) && InRange(mk, w, p) && k <= |TargetOf(mk, p).deps|
    requires AllDone(w) && StatusOf(w, p) != Finished
    ensures Loop(mk, w, p, k, older, depth).ok ==> CallsFinished(w, Loop(mk, w, p, k, older, depth).world)
    decreases Open(w.status), Rank(w, p), 0, |TargetOf(mk, p).deps| - k, 1
  {
    if k < |TargetOf(mk, p).deps| {
      var t := Step(mk, w, p, k, older, depth);
      StepIsOrderly(mk, w, p, k, older, depth);
      StepFinishesCalls(mk, w, p, k, older, depth);
      MeasureFalls(w, t.world, p);
      if t.ok {
        var r := Loop(mk, t.world, p, k + 1, t.older, t.depth);
        LoopFinishesCalls(mk, t.world, p, k + 1, t.older, t.depth);
        LoopIsOrderly(mk, t.world, p, k + 1, t.older, t.depth);
        if r.ok {
          CallsFinishedTogether(w, t.world, r.world);
        }
      }
    }
  }

  lemma {:induction false} BuildFinishesCalls(mk: Makefile, w: World, p: Ref)
    requires NoSelfDependency(mk) && InRange(mk, w, p)
    requires AllDone(w) && StatusOf(w, p) != Finished
    ensures BuildFrom(mk, w, p).ok ==> CallsFinished(w, BuildFrom(mk, w, p).world)
    decreases Open(w.status), Rank(w, p), 1, 0, 0
  {
    var called := w.(calls := w.calls + [p]);
    var r := BuildFrom(mk, w, p);
    BuildIsOrderly(mk, w, p);
    if |TargetOf(mk, p).deps| > 0 {
      LoopFinishesCalls(mk, called, p, 0, map[], 1);
    }
    if r.ok {
      assert r.world.calls[|w.calls|] == called.calls[|w.calls|];
    }
  }

  /** Without self-dependencies: every target's command runs at most once, a
      failing command is the last one run, and a build that returns 0 leaves
      every target it visited finished, none marked, with every command that
      ran having succeeded. */
  lemma CommandsRunOnce(mk: Makefile, files: Files)
    requires mk.root < |mk.targets| && NoSelfDependency(mk)
    ensures var r := Make(mk, files);
            && Distinct(r.world.runs) && OnlyLastFails(r.world.runs)
            && (r.ok ==>
                  && (forall x | x in r.world.runs :: Succeeds(x.outcome))
                  && (forall q | q in r.world.calls :: Known(r.world, q) && StatusOf(r.world, q) == Finished)
                  && forall i | 0 <= i < |mk.targets| :: r.world.status[i] != NeedsBuilding)
  {
    var w := Start(mk, files);
    BuildIsOrderly(mk, w, Copy);
    BuildFinishesCalls(mk, w, Copy);
    var r := Make(mk, files);
    if r.ok {
      forall i | 0 <= i < |mk.targets|
        ensures r.world.status[i] != NeedsBuilding
      {
        assert Known(w, Entry(i)) && StatusOf(w, Entry(i)) == Unfinished;
        assert StatusOf(r.world, Entry(i)) == r.world.status[i];
      }
    }
  }
}
