// Exactly which targets a successful build calls itself on.

module MakeVisits {
  import opened MakefileParser
  import opened MakeBuild
  import opened MakeGraph
  import opened MakeTheorems
  import opened MakeOrder

  // ---------------------------------------------------------------- what is assumed

  /** A command leaves the times of all files but its own target's as they were. */
  ghost predicate OwnFilesOnly(mk: Makefile) {
    forall n: nat, t: Target, files: Files, name: string | name != t.name ::
      ModificationTime(mk.shell(n, t, files).files, name) == ModificationTime(files, name)
  }

  /** The target is the one its name is looked up to. */
  predicate IsNamed(mk: Makefile, i: nat) {
    i < |mk.targets| && Find(mk.targets, mk.targets[i].name) == i
  }

  /** The root was looked up by name, no target names itself, and commands keep
      to their own files. */
  ghost predicate Calm(mk: Makefile) {
    IsNamed(mk, mk.root) && NoSelfDependency(mk) && OwnFilesOnly(mk)
  }

  /** The root is on a cycle of edges that are followed. */
  ghost predicate RootOnCycle(mk: Makefile, files: Files) {
    Leads(mk, Under(files), mk.root, mk.root)
  }

  // ---------------------------------------------------------------- what the walk keeps

  /** Only targets the root leads to are touched. */
  ghost predicate Reached(mk: Makefile, files: Files, status: seq<Status>) {
    && |status| == |mk.targets|
    && forall i | 0 <= i < |status| && status[i] != Unfinished :: Leads(mk, Under(files), mk.root, i)
  }

  /** A target that is not finished still has the time it had before the build. */
  ghost predicate Untouched(mk: Makefile, files: Files, w: World) {
    && |w.status| == |mk.targets|
    && forall i | 0 <= i < |mk.targets| && IsNamed(mk, i) && w.status[i] != Finished ::
         ModificationTime(w.files, mk.targets[i].name) == ModificationTime(files, mk.targets[i].name)
  }

  /** What a finished target leads to in one step was touched too. */
  ghost predicate Expanded(mk: Makefile, files: Files, status: seq<Status>) {
    && |status| == |mk.targets|
    && forall i: nat, j: nat | Follows(mk, Under(files), i, j) && status[i] == Finished :: status[j] != Unfinished
  }

  /** What the first `n` dependencies of `i` lead to was touched. */
  ghost predicate ExpandedUpTo(mk: Makefile, files: Files, i: nat, n: nat, status: seq<Status>)
    requires i < |mk.targets| && n <= |mk.targets[i].deps| && |status| == |mk.targets|
  {
    forall k | 0 <= k < n && Dependency(mk, i, k) != -1 ::
      !IsOlder(files, mk.targets[i].deps[k], mk.targets[i].name) ==> status[Dependency(mk, i, k)] != Unfinished
  }

  ghost predicate NoCallTwice(calls: seq<Ref>) {
    forall a, b | 0 <= a < |calls| && 0 <= b < |calls| && calls[a] == calls[b] :: a == b
  }

  /** The entries called are the entries touched, the running `p` aside. */
  ghost predicate CallsMatch(w: World, p: Ref) {
    forall i | 0 <= i < |w.status| && Entry(i) != p :: Entry(i) in w.calls <==> w.status[i] != Unfinished
  }

  /** Calls are made once each, and for entries only if the root leads there. */
  ghost predicate CallsReached(mk: Makefile, files: Files, calls: seq<Ref>) {
    NoCallTwice(calls) && forall i: nat | Entry(i) in calls :: Leads(mk, Under(files), mk.root, i)
  }

  ghost predicate Kept(mk: Makefile, files: Files, w: World) {
    Reached(mk, files, w.status) && Expanded(mk, files, w.status)
  }

  /** The state while `p` is being built. */
  ghost predicate Going(mk: Makefile, files: Files, w: World, p: Ref) {
    && Calm(mk) && InRange(mk, w, p) && AllDone(w) && StatusOf(w, p) != Finished
    && IsNamed(mk, Index(mk, p)) && (p.Entry? ==> Leads(mk, Under(files), mk.root, p.i))
    && Kept(mk, files, w) && Untouched(mk, files, w)
    && p in w.calls && CallsMatch(w, p) && CallsReached(mk, files, w.calls)
  }

  /** The state in which build is called on `p`. */
  ghost predicate Callable(mk: Makefile, files: Files, w: World, p: Ref) {
    && Calm(mk) && InRange(mk, w, p) && AllDone(w) && StatusOf(w, p) == Unfinished
    && IsNamed(mk, Index(mk, p)) && (p.Entry? ==> Leads(mk, Under(files), mk.root, p.i))
    && Kept(mk, files, w) && Untouched(mk, files, w)
    && p !in w.calls && CallsMatch(w, Copy) && CallsReached(mk, files, w.calls)
  }

  /** What a call leaves: always the calls in order, and on success the rest. */
  ghost predicate Visited(mk: Makefile, files: Files, w: World, p: Ref, r: Result) {
    && InRange(mk, r.world, p)
    && w.calls <= r.world.calls && CallsReached(mk, files, r.world.calls)
    && (r.ok ==>
          && Kept(mk, files, r.world) && CallsMatch(r.world, Copy)
          && ExpandedUpTo(mk, files, Index(mk, p), |TargetOf(mk, p).deps|, r.world.status)
          && (p.Entry? ==> Untouched(mk, files, r.world)))
  }

  // ---------------------------------------------------------------- steps

  /** The entry of the target being built is not finished.  That is always so,
      except for main's copy once the root's entry was built in between. */
  ghost predicate Comparable(mk: Makefile, w: World, p: Ref) {
    InRange(mk, w, p) && w.status[Index(mk, p)] != Finished
  }

  lemma AlwaysComparable(mk: Makefile, files: Files, w: World, p: Ref)
    requires Going(mk, files, w, p) && (p.Entry? || !RootOnCycle(mk, files))
    ensures Comparable(mk, w, p)
  {}

  /** The times compared are then still those from before the build. */
  lemma ComparesAsBefore(mk: Makefile, files: Files, w: World, p: Ref, j: nat)
    requires Going(mk, files, w, p) && Comparable(mk, w, p) && IsNamed(mk, j) && w.status[j] != Finished
    ensures IsOlder(w.files, mk.targets[j].name, TargetOf(mk, p).name)
       <==> IsOlder(files, mk.targets[j].name, TargetOf(mk, p).name)
  {}

  lemma ExpandedStays(mk: Makefile, files: Files, i: nat, n: nat, s: seq<Status>, t: seq<Status>)
    requires i < |mk.targets| == |s| && n <= |mk.targets[i].deps| && Onward(s, t)
    requires ExpandedUpTo(mk, files, i, n, s)
    ensures ExpandedUpTo(mk, files, i, n, t)
  {}

  /** A followed edge out of `i` is one of its inspected dependencies. */
  lemma ExpandedFollows(mk: Makefile, files: Files, i: nat, j: nat, status: seq<Status>)
    requires i < |mk.targets| == |status| && ExpandedUpTo(mk, files, i, |mk.targets[i].deps|, status)
    requires Follows(mk, Under(files), i, j)
    ensures status[j] != Unfinished
  {}

  /** Marking or finishing `p` keeps the reached set and its closure. */
  lemma SettingKeeps(mk: Makefile, files: Files, w: World, p: Ref, s: Status)
    requires Calm(mk) && InRange(mk, w, p) && Kept(mk, files, w) && s != Unfinished
    requires p.Entry? ==> Leads(mk, Under(files), mk.root, p.i)
    requires s == Finished ==> ExpandedUpTo(mk, files, Index(mk, p), |TargetOf(mk, p).deps|, w.status)
    ensures Kept(mk, files, SetStatus(w, p, s))
  {}

  /** A command for `p` changes no other target's time. */
  lemma CommandTouchesOwn(mk: Makefile, files: Files, w: World, p: Ref, after: World)
    requires Calm(mk) && InRange(mk, w, p) && p.Entry? && IsNamed(mk, p.i) && Untouched(mk, files, w)
    requires after.status == w.status[p.i := Finished]
    requires after.files == w.files || after.files == mk.shell(|w.runs|, TargetOf(mk, p), w.files).files
    ensures Untouched(mk, files, after)
  {}

  lemma FinishVisits(mk: Makefile, files: Files, w: World, p: Ref, older: map<nat, Files>, depth: nat)
    requires Going(mk, files, w, p)
    requires ExpandedUpTo(mk, files, Index(mk, p), |TargetOf(mk, p).deps|, w.status)
    ensures Visited(mk, files, w, p, Finish(mk, w, p, older, depth))
  {
    var r := Finish(mk, w, p, older, depth);
    SettingKeeps(mk, files, w, p, Finished);
    if r.ok {
      assert r.world.status == SetStatus(w, p, Finished).status;
      ExpandedStays(mk, files, Index(mk, p), |TargetOf(mk, p).deps|, w.status, r.world.status);
      if p.Entry? {
        CommandTouchesOwn(mk, files, w, p, r.world);
      }
    }
  }

  /** What one turn of the loop leaves. */
  ghost predicate TurnVisited(mk: Makefile, files: Files, w: World, p: Ref, k: nat, t: Turn)
    requires mk.root < |mk.targets| && (p.Entry? ==> p.i < |mk.targets|) && k < |TargetOf(mk, p).deps|
  {
    && w.calls <= t.world.calls && CallsReached(mk, files, t.world.calls)
    && (t.ok ==> Going(mk, files, t.world, p) && ExpandedUpTo(mk, files, Index(mk, p), k + 1, t.world.status))
  }

  /** Going down to dependency `j` of `p`. */
  lemma ReadyToDescend(mk: Makefile, files: Files, w: World, p: Ref, j: nat)
    requires Going(mk, files, w, p) && j < |mk.targets| && w.status[j] == Unfinished
    requires Follows(mk, Under(files), Index(mk, p), j)
    ensures p != Entry(j) && IsNamed(mk, j) && Leads(mk, Under(files), mk.root, j)
    ensures var v := SetStatus(w, p, NeedsBuilding);
            Callable(mk, files, v, Entry(j)) && StatusOf(v, p) == NeedsBuilding
  {
    var i := Index(mk, p);
    var v := SetStatus(w, p, NeedsBuilding);
    assert j != i;
    if p.Copy? {
      LeadsOneStep(mk, Under(files), i, j);
    } else {
      LeadsOn(mk, Under(files), mk.root, i, j);
    }
    SettingKeeps(mk, files, w, p, NeedsBuilding);
    MarkingIsOrderly(mk, w, p);
    forall n | 0 <= n < |v.status|
      ensures Entry(n) in v.calls <==> v.status[n] != Unfinished
    {
      if p != Entry(n) {
        assert v.status[n] == w.status[n];
      }
    }
  }

  lemma ExpandedByOne(mk: Makefile, files: Files, i: nat, k: nat, s: seq<Status>, u: seq<Status>, t: seq<Status>)
    requires i < |mk.targets| == |s| && k < |mk.targets[i].deps| && Onward(s, u) && Onward(u, t)
    requires ExpandedUpTo(mk, files, i, k, s)
    requires Dependency(mk, i, k) != -1 ==> t[Dependency(mk, i, k)] != Unfinished
    ensures ExpandedUpTo(mk, files, i, k + 1, t)
  {}

  /** The target stays marked while its dependency `j` is built. */
  lemma StaysMarked(mk: Makefile, v: World, p: Ref, j: nat)
    requires NoSelfDependency(mk) && InRange(mk, v, p) && AllDone(v) && StatusOf(v, p) == NeedsBuilding
    requires j < |mk.targets| && v.status[j] == Unfinished
    ensures var r := BuildFrom(mk, v, Entry(j)); r.ok ==>
              AllDone(r.world) && StatusOf(r.world, p) == NeedsBuilding && r.world.status[j] == Finished
  {
    BuildIsOrderly(mk, v, Entry(j));
    assert Known(v, p);
  }

  /** Back from a successful nested call for target `j`. */
  lemma BackInLoop(mk: Makefile, files: Files, w: World, p: Ref, j: nat, r: Result)
    requires Going(mk, files, w, p) && j < |mk.targets| && p != Entry(j) && r.ok
    requires Visited(mk, files, SetStatus(w, p, NeedsBuilding), Entry(j), r)
    requires AllDone(r.world) && StatusOf(r.world, p) == NeedsBuilding
    ensures Going(mk, files, r.world, p)
  {}

  /** A turn that makes no call: the dependency was touched before, is older, or
      is no target. */
  lemma StayingVisits(mk: Makefile, files: Files, w: World, p: Ref, k: nat, older: map<nat, Files>, depth: nat)
    requires Going(mk, files, w, p) && Comparable(mk, w, p) && k < |TargetOf(mk, p).deps|
    requires ExpandedUpTo(mk, files, Index(mk, p), k, w.status)
    requires var j := Dependency(mk, Index(mk, p), k);
             j != -1 ==> w.status[j] != Unfinished || IsOlder(w.files, mk.targets[j].name, TargetOf(mk, p).name)
    ensures TurnVisited(mk, files, w, p, k, Step(mk, w, p, k, older, depth))
  {
    var i := Index(mk, p);
    var j := Dependency(mk, i, k);
    if j == -1 {
      MarkedIsGoing(mk, files, w, p);
      MarkingCloses(w, p, NeedsBuilding);
      ExpandedStays(mk, files, i, k, w.status, SetStatus(w, p, NeedsBuilding).status);
    } else if w.status[j] == Unfinished {
      ComparesAsBefore(mk, files, w, p, j);
    }
  }

  lemma {:induction false} StepVisits(
      mk: Makefile, files: Files, w: World, p: Ref, k: nat, older: map<nat, Files>, depth: nat)
    requires Going(mk, files, w, p) && Comparable(mk, w, p) && k < |TargetOf(mk, p).deps|
    requires ExpandedUpTo(mk, files, Index(mk, p), k, w.status)
    ensures TurnVisited(mk, files, w, p, k, Step(mk, w, p, k, older, depth))
    decreases Open(w.status), Rank(w, p), 0, |TargetOf(mk, p).deps| - k, 0
  {
    var i := Index(mk, p);
    var target := TargetOf(mk, p);
    var j := Dependency(mk, i, k);
    if j != -1 && w.status[j] == Unfinished && CompareTimes(w.files, target.deps[k], target.name) != 2 {
      ComparesAsBefore(mk, files, w, p, j);
      assert Follows(mk, Under(files), i, j);
      ReadyToDescend(mk, files, w, p, j);
      MarkingCloses(w, p, NeedsBuilding);
      var v := SetStatus(w, p, NeedsBuilding);
      BuildVisits(mk, files, v, Entry(j));
      StaysMarked(mk, v, p, j);
      var r := BuildFrom(mk, v, Entry(j));
      if r.ok {
        BackInLoop(mk, files, w, p, j, r);
        ExpandedByOne(mk, files, i, k, w.status, v.status, r.world.status);
      }
    } else {
      StayingVisits(mk, files, w, p, k, older, depth);
    }
  }

  lemma {:induction false} LoopVisits(
      mk: Makefile, files: Files, w: World, p: Ref, k: nat, older: map<nat, Files>, depth: nat)
    requires Going(mk, files, w, p) && (p.Entry? || !RootOnCycle(mk, files)) && k <= |TargetOf(mk, p).deps|
    requires ExpandedUpTo(mk, files, Index(mk, p), k, w.status)
    ensures Visited(mk, files, w, p, Loop(mk, w, p, k, older, depth))
    decreases Open(w.status), Rank(w, p), 0, |TargetOf(mk, p).deps| - k, 1
  {
    if k == |TargetOf(mk, p).deps| {
      FinishVisits(mk, files, w, p, older, depth);
    } else {
      var t := Step(mk, w, p, k, older, depth);
      MeasureFalls(w, t.world, p);
      AlwaysComparable(mk, files, w, p);
      StepVisits(mk, files, w, p, k, older, depth);
      if t.ok {
        LoopVisits(mk, files, t.world, p, k + 1, t.older, t.depth);
      }
    }
  }

  lemma CallIsNew(mk: Makefile, files: Files, calls: seq<Ref>, p: Ref)
    requires p !in calls && CallsReached(mk, files, calls)
    requires p.Entry? ==> Leads(mk, Under(files), mk.root, p.i)
    ensures CallsReached(mk, files, calls + [p])
  {}

  lemma CalledIsGoing(mk: Makefile, files: Files, w: World, p: Ref)
    requires Callable(mk, files, w, p)
    ensures Going(mk, files, w.(calls := w.calls + [p]), p)
  {
    CallIsNew(mk, files, w.calls, p);
  }

  lemma MarkedIsGoing(mk: Makefile, files: Files, w: World, p: Ref)
    requires Going(mk, files, w, p)
    ensures Going(mk, files, SetStatus(w, p, NeedsBuilding), p)
  {
    MarkingIsOrderly(mk, w, p);
    SettingKeeps(mk, files, w, p, NeedsBuilding);
  }

  lemma {:induction false} BuildVisits(mk: Makefile, files: Files, w: World, p: Ref)
    requires Callable(mk, files, w, p) && (p.Entry? || !RootOnCycle(mk, files))
    ensures Visited(mk, files, w, p, BuildFrom(mk, w, p))
    ensures w.calls + [p] <= BuildFrom(mk, w, p).world.calls
    decreases Open(w.status), Rank(w, p), 1, 0, 0
  {
    var called := w.(calls := w.calls + [p]);
    CalledIsGoing(mk, files, w, p);
    if |TargetOf(mk, p).deps| == 0 {
      MarkedIsGoing(mk, files, called, p);
      FinishVisits(mk, files, SetStatus(called, p, NeedsBuilding), p, map[], 1);
    } else {
      LoopVisits(mk, files, called, p, 0, map[], 1);
    }
  }

  // ---------------------------------------------------------------- the result

  /** main calls build once on its copy of the root; nested calls are made at
      most once per target, only for targets the root leads to along edges whose
      dependency was not strictly older before the build; and a build that
      returns 0 has made one for each of those targets. */
  ghost predicate VisitsExactly(mk: Makefile, files: Files, r: Result) {
    && |r.world.calls| > 0 && r.world.calls[0] == Copy && NoCallTwice(r.world.calls)
    && (forall j: nat | Entry(j) in r.world.calls :: Leads(mk, Under(files), mk.root, j))
    && (r.ok ==> forall j: nat | Leads(mk, Under(files), mk.root, j) :: Entry(j) in r.world.calls)
  }

  ghost predicate NoneMarked(w: World) {
    forall i | 0 <= i < |w.status| :: w.status[i] != NeedsBuilding
  }

  /** Once nothing is marked and the root's dependencies were inspected, every
      target the root leads to was called. */
  lemma ExpandedLeadsToCalls(mk: Makefile, files: Files, w: World)
    requires mk.root < |mk.targets| && Kept(mk, files, w) && NoneMarked(w) && CallsMatch(w, Copy)
    requires ExpandedUpTo(mk, files, mk.root, |mk.targets[mk.root].deps|, w.status)
    ensures forall j: nat | Leads(mk, Under(files), mk.root, j) :: Entry(j) in w.calls
  {
    var touched := set i: nat | i < |mk.targets| && w.status[i] != Unfinished;
    forall j: nat | Leads(mk, Under(files), mk.root, j)
      ensures Entry(j) in w.calls
    {
      var path :| LeadsAlong(mk, Under(files), mk.root, j, path);
      forall n | Follows(mk, Under(files), mk.root, n)
        ensures n in touched
      {
        ExpandedFollows(mk, files, mk.root, n, w.status);
      }
      ClosedHoldsAll(mk, Under(files), mk.root, j, path, touched);
    }
  }

  /** The visits of every build whose root is on no cycle that is followed. */
  lemma VisitsAreExact(mk: Makefile, files: Files)
    requires Calm(mk) && !RootOnCycle(mk, files)
    ensures VisitsExactly(mk, files, Make(mk, files))
  {
    var w := Start(mk, files);
    var r := Make(mk, files);
    BuildVisits(mk, files, w, Copy);
    assert Visited(mk, files, w, Copy, r);
    if r.ok {
      CommandsRunOnce(mk, files);
      ExpandedLeadsToCalls(mk, files, r.world);
    }
  }

  /** And so of every build of an acyclic makefile, whatever the order of its
      dependencies. */
  lemma AcyclicVisitsAreExact(mk: Makefile, files: Files)
    requires IsNamed(mk, mk.root) && Acyclic(mk) && OwnFilesOnly(mk)
    ensures VisitsExactly(mk, files, Make(mk, files))
  {
    AcyclicHasNoSelfDependency(mk);
    if Leads(mk, Under(files), mk.root, mk.root) {
      LeadsWithoutTimes(mk, Under(files), mk.root, mk.root);
    }
    VisitsAreExact(mk, files);
  }
}
