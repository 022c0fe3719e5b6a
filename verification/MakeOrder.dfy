// On acyclic makefiles dependencies are dealt with before their dependents.

module MakeOrder {
  import opened MakefileParser
  import opened MakeBuild
  import opened MakeGraph
  import opened MakeTheorems

  lemma AcyclicHasNoSelfDependency(mk: Makefile)
    requires Acyclic(mk)
    ensures NoSelfDependency(mk)
  {
    forall i, k | 0 <= i < |mk.targets| && 0 <= k < |mk.targets[i].deps|
      ensures Dependency(mk, i, k) != i
    {
      if Dependency(mk, i, k) == i {
        LeadsOneStep(mk, Any, i, i);
      }
    }
  }

  /** Dependency `k` of the running target was finished when its command
      started, or was strictly older when the loop inspected it. */
  ghost predicate Settled(mk: Makefile, i: nat, k: nat, status: seq<Status>, older: map<nat, Files>)
    requires i < |mk.targets| && k < |mk.targets[i].deps| && |status| == |mk.targets|
  {
    var j := Dependency(mk, i, k);
    j != -1 ==>
      || status[j] == Finished
      || (k in older && IsOlder(older[k], mk.targets[j].name, mk.targets[i].name))
  }

  ghost predicate SettledUpTo(mk: Makefile, i: nat, n: nat, status: seq<Status>, older: map<nat, Files>)
    requires i < |mk.targets| && n <= |mk.targets[i].deps| && |status| == |mk.targets|
  {
    forall k | 0 <= k < n :: Settled(mk, i, k, status, older)
  }

  ghost predicate RanInOrder(mk: Makefile, x: Run) {
    var i := Index(mk, x.who);
    && i < |mk.targets| && |x.status| == |mk.targets|
    && SettledUpTo(mk, i, |mk.targets[i].deps|, x.status, x.older)
  }

  ghost predicate AllInOrder(mk: Makefile, runs: seq<Run>) {
    forall x | x in runs :: RanInOrder(mk, x)
  }

  /** Every marked target is on the stack: it leads to the one being built. */
  ghost predicate MarkedAreAncestors(mk: Makefile, w: World, i: nat) {
    forall a | 0 <= a < |w.status| && w.status[a] == NeedsBuilding :: a == i || Leads(mk, Any, a, i)
  }

  /** The dependency about to be inspected is not marked, or there is a cycle. */
  lemma DependencyNotMarked(mk: Makefile, w: World, i: nat, k: nat)
    requires Acyclic(mk) && i < |mk.targets| == |w.status| && k < |mk.targets[i].deps| && Dependency(mk, i, k) != -1
    requires MarkedAreAncestors(mk, w, i)
    ensures w.status[Dependency(mk, i, k)] != NeedsBuilding
  {
    var j := Dependency(mk, i, k);
    assert Follows(mk, Any, i, j);
    LeadsOneStep(mk, Any, i, j);
    if w.status[j] == NeedsBuilding {
      assert j == i || Leads(mk, Any, j, i);
      if j != i {
        LeadsOn(mk, Any, j, i, j);
      }
    }
  }

  /** Marking `p` and going down to its dependency `j`. */
  lemma MarkedStayAncestors(mk: Makefile, w: World, p: Ref, j: nat)
    requires InRange(mk, w, p) && MarkedAreAncestors(mk, w, Index(mk, p)) && Follows(mk, Any, Index(mk, p), j)
    ensures MarkedAreAncestors(mk, SetStatus(w, p, NeedsBuilding), j)
  {
    var i := Index(mk, p);
    LeadsOneStep(mk, Any, i, j);
    forall a | 0 <= a < |w.status| && SetStatus(w, p, NeedsBuilding).status[a] == NeedsBuilding
      ensures a == j || Leads(mk, Any, a, j)
    {
      if a != i {
        assert w.status[a] == NeedsBuilding;
        LeadsOn(mk, Any, a, i, j);
      }
    }
  }

  /** When others only settled, no new target is marked. */
  lemma SettlingMarksNone(mk: Makefile, w: World, w': World, p: Ref)
    requires InRange(mk, w, p) && OthersSettled(w, w', p) && MarkedAreAncestors(mk, w, Index(mk, p))
    ensures MarkedAreAncestors(mk, w', Index(mk, p))
  {
    forall a | 0 <= a < |w'.status| && w'.status[a] == NeedsBuilding
      ensures a == Index(mk, p) || Leads(mk, Any, a, Index(mk, p))
    {
      assert Known(w, Entry(a));
      if p != Entry(a) {
        assert StatusOf(w', Entry(a)) == StatusOf(w, Entry(a));
      }
    }
  }

  lemma SettledStays(mk: Makefile, w: World, w': World, i: nat, n: nat, older: map<nat, Files>, older': map<nat, Files>)
    requires i < |mk.targets| == |w.status| && n <= |mk.targets[i].deps| && Climbs(w, w')
    requires SettledUpTo(mk, i, n, w.status, older)
    requires forall k | 0 <= k < n && k in older :: k in older' && older'[k] == older[k]
    ensures SettledUpTo(mk, i, n, w'.status, older')
  {
    forall k | 0 <= k < n
      ensures Settled(mk, i, k, w'.status, older')
    {
      assert Settled(mk, i, k, w.status, older);
      var j := Dependency(mk, i, k);
      if j != -1 {
        assert Known(w, Entry(j));
        assert Level(StatusOf(w, Entry(j))) <= Level(StatusOf(w', Entry(j)));
      }
    }
  }

  /** What the proof needs of the state in which a call or a loop starts. */
  ghost predicate Ready(mk: Makefile, w: World, p: Ref) {
    && Acyclic(mk) && InRange(mk, w, p)
    && AllDone(w) && StatusOf(w, p) != Finished
    && MarkedAreAncestors(mk, w, Index(mk, p)) && AllInOrder(mk, w.runs)
  }

  lemma FinishInOrder(mk: Makefile, w: World, p: Ref, older: map<nat, Files>, depth: nat)
    requires Ready(mk, w, p)
    requires SettledUpTo(mk, Index(mk, p), |TargetOf(mk, p).deps|, w.status, older)
    ensures AllInOrder(mk, Finish(mk, w, p, older, depth).world.runs)
  {}

  lemma {:induction false} StepInOrder(mk: Makefile, w: World, p: Ref, k: nat, older: map<nat, Files>, depth: nat)
    requires Ready(mk, w, p) && k < |TargetOf(mk, p).deps|
    requires SettledUpTo(mk, Index(mk, p), k, w.status, older)
    ensures var t := Step(mk, w, p, k, older, depth);
            && AllInOrder(mk, t.world.runs)
            && (t.ok ==> Ready(mk, t.world, p) && SettledUpTo(mk, Index(mk, p), k + 1, t.world.status, t.older))
    decreases Open(w.status), Rank(w, p), 0, |TargetOf(mk, p).deps| - k, 0
  {
    var i := Index(mk, p);
    var j := Dependency(mk, i, k);
    var t := Step(mk, w, p, k, older, depth);
    AcyclicHasNoSelfDependency(mk);
    StepIsOrderly(mk, w, p, k, older, depth);
    if j != -1 {
      assert Follows(mk, Any, i, j);
      DependencyNotMarked(mk, w, i, k);
      if w.status[j] == Unfinished && CompareTimes(w.files, TargetOf(mk, p).deps[k], TargetOf(mk, p).name) != 2 {
        MarkingCloses(w, p, NeedsBuilding);
        var v := SetStatus(w, p, NeedsBuilding);
        MarkingIsOrderly(mk, w, p);
        MarkedStayAncestors(mk, w, p, j);
        BuildInOrder(mk, v, Entry(j));
        BuildIsOrderly(mk, v, Entry(j));
      }
    }
    if t.ok {
      SettlingMarksNone(mk, w, t.world, p);
      SettledStays(mk, w, t.world, i, k, older, t.older);
      assert Settled(mk, i, k, t.world.status, t.older);
    }
  }

  lemma {:induction false} LoopInOrder(mk: Makefile, w: World, p: Ref, k: nat, older: map<nat, Files>, depth: nat)
    requires Ready(mk, w, p) && k <= |TargetOf(mk, p).deps|
    requires SettledUpTo(mk, Index(mk, p), k, w.status, older)
    ensures AllInOrder(mk, Loop(mk, w, p, k, older, depth).world.runs)
    decreases Open(w.status), Rank(w, p), 0, |TargetOf(mk, p).deps| - k, 1
  {
    if k == |TargetOf(mk, p).deps| {
      FinishInOrder(mk, w, p, older, depth);
    } else {
      var t := Step(mk, w, p, k, older, depth);
      MeasureFalls(w, t.world, p);
      StepInOrder(mk, w, p, k, older, depth);
      if t.ok {
        LoopInOrder(mk, t.world, p, k + 1, t.older, t.depth);
      }
    }
  }

  lemma {:induction false} BuildInOrder(mk: Makefile, w: World, p: Ref)
    requires Ready(mk, w, p)
    ensures AllInOrder(mk, BuildFrom(mk, w, p).world.runs)
    decreases Open(w.status), Rank(w, p), 1, 0, 0
  {
    var called := w.(calls := w.calls + [p]);
    if |TargetOf(mk, p).deps| == 0 {
      MarkingIsOrderly(mk, called, p);
      var v := SetStatus(called, p, NeedsBuilding);
      assert MarkedAreAncestors(mk, v, Index(mk, p));
      FinishInOrder(mk, v, p, map[], 1);
    } else {
      LoopInOrder(mk, called, p, 0, map[], 1);
    }
  }

  /** On an acyclic makefile, whenever a target's command runs, each of its
      dependencies that is itself a target is finished, or was strictly older
      than the target when the loop inspected it.  That holds whether the build
      succeeds or not. */
  lemma DependenciesBeforeDependents(mk: Makefile, files: Files)
    requires mk.root < |mk.targets| && Acyclic(mk)
    ensures AllInOrder(mk, Make(mk, files).world.runs)
  {
    BuildInOrder(mk, Start(mk, files), Copy);
  }
}
