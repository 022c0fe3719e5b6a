// The recorded commands, run again one after another, give the files and the
// outcomes of the build.

module MakeReplay {
  import opened MakefileParser
  import opened MakeBuild
  import opened MakeGraph
  import opened MakeTheorems
  import opened MakeOrder

  ghost predicate AreTargets(mk: Makefile, runs: seq<Run>) {
    forall n | 0 <= n < |runs| :: Index(mk, runs[n].who) < |mk.targets|
  }

  /** The files after the shell has run these commands, oldest first, each for its
      target on the files the one before left. */
  function FilesAfter(mk: Makefile, files: Files, runs: seq<Run>): Files
    requires mk.root < |mk.targets| && AreTargets(mk, runs)
  {
    if runs == [] then files
    else
      var n := |runs| - 1;
      mk.shell(n, mk.targets[Index(mk, runs[n].who)], FilesAfter(mk, files, runs[..n])).files
  }

  /** What the shell answers to the n-th of these commands. */
  function Replayed(mk: Makefile, files: Files, runs: seq<Run>, n: nat): Outcome
    requires mk.root < |mk.targets| && AreTargets(mk, runs) && n < |runs|
  {
    mk.shell(n, mk.targets[Index(mk, runs[n].who)], FilesAfter(mk, files, runs[..n])).outcome
  }

  /** These are the files some of the commands, from the first on, left behind. */
  ghost predicate Seen(mk: Makefile, start: Files, files: Files, runs: seq<Run>) {
    && mk.root < |mk.targets|
    && exists m | 0 <= m <= |runs| :: AreTargets(mk, runs[..m]) && files == FilesAfter(mk, start, runs[..m])
  }

  ghost predicate AllSeen(mk: Makefile, start: Files, runs: seq<Run>, older: map<nat, Files>) {
    forall k | k in older :: Seen(mk, start, older[k], runs)
  }

  /** Every command ended as the shell says, and what it remembers of skipped
      dependencies are files an earlier moment of the build had. */
  ghost predicate RunsReplay(mk: Makefile, files: Files, runs: seq<Run>)
    requires mk.root < |mk.targets| && AreTargets(mk, runs)
  {
    forall n | 0 <= n < |runs| ::
      && runs[n].outcome == Replayed(mk, files, runs, n)
      && !runs[n].outcome.ForkFailed?
      && AllSeen(mk, files, runs[..n], runs[n].older)
  }

  // ---------------------------------------------------------------- an induction over builds

  /** What is said of the files and the commands so far, and of files seen before. */
  type Claim = (Files, seq<Run>) -> bool

  ghost predicate AllAre(seen: Claim, older: map<nat, Files>, runs: seq<Run>) {
    forall k | k in older :: seen(older[k], runs)
  }

  /** A claim that every command keeps. */
  ghost predicate Kept(mk: Makefile, inv: Claim, seen: Claim) {
    forall files: Files, runs: seq<Run>, p: Ref, status: seq<Status>, older: map<nat, Files> ::
      inv(files, runs) && AllAre(seen, older, runs) && Index(mk, p) < |mk.targets| ==>
        var reply := mk.shell(|runs|, mk.targets[Index(mk, p)], files);
        reply.outcome.ForkFailed? || inv(reply.files, runs + [Run(p, reply.outcome, status, older)])
  }

  /** What is claimed now was seen from now on. */
  ghost predicate Remembered(inv: Claim, seen: Claim) {
    && (forall files: Files, runs: seq<Run> :: inv(files, runs) ==> seen(files, runs))
    && (forall files: Files, runs: seq<Run>, more: seq<Run> :: runs <= more && seen(files, runs) ==> seen(files, more))
  }

  ghost predicate GoesOn(inv: Claim, w: World, v: World) {
    w.runs <= v.runs && inv(v.files, v.runs)
  }

  lemma {:induction false} StepKeeps(
      mk: Makefile, inv: Claim, seen: Claim, w: World, p: Ref, k: nat, older: map<nat, Files>, depth: nat)
    requires Kept(mk, inv, seen) && Remembered(inv, seen) && inv(w.files, w.runs)
    requires InRange(mk, w, p) && k < |TargetOf(mk, p).deps| && AllAre(seen, older, w.runs)
    ensures var t := Step(mk, w, p, k, older, depth); GoesOn(inv, w, t.world) && AllAre(seen, t.older, t.world.runs)
    decreases Open(w.status), Rank(w, p), 0, |TargetOf(mk, p).deps| - k, 0
  {
    var target := TargetOf(mk, p);
    var j := Dependency(mk, Index(mk, p), k);
    if j != -1 && w.status[j] == Unfinished && CompareTimes(w.files, target.deps[k], target.name) != 2 {
      MarkingCloses(w, p, NeedsBuilding);
      BuildKeeps(mk, inv, seen, SetStatus(w, p, NeedsBuilding), Entry(j));
    }
  }

  lemma {:induction false} LoopKeeps(
      mk: Makefile, inv: Claim, seen: Claim, w: World, p: Ref, k: nat, older: map<nat, Files>, depth: nat)
    requires Kept(mk, inv, seen) && Remembered(inv, seen) && inv(w.files, w.runs)
    requires InRange(mk, w, p) && k <= |TargetOf(mk, p).deps| && AllAre(seen, older, w.runs)
    ensures GoesOn(inv, w, Loop(mk, w, p, k, older, depth).world)
    decreases Open(w.status), Rank(w, p), 0, |TargetOf(mk, p).deps| - k, 1
  {
    if k < |TargetOf(mk, p).deps| {
      var t := Step(mk, w, p, k, older, depth);
      MeasureFalls(w, t.world, p);
      StepKeeps(mk, inv, seen, w, p, k, older, depth);
      if t.ok {
        LoopKeeps(mk, inv, seen, t.world, p, k + 1, t.older, t.depth);
      }
    }
  }

  /** A claim kept by every command is kept by build. */
  lemma {:induction false} BuildKeeps(mk: Makefile, inv: Claim, seen: Claim, w: World, p: Ref)
    requires Kept(mk, inv, seen) && Remembered(inv, seen) && inv(w.files, w.runs) && InRange(mk, w, p)
    ensures GoesOn(inv, w, BuildFrom(mk, w, p).world)
    decreases Open(w.status), Rank(w, p), 1, 0, 0
  {
    if |TargetOf(mk, p).deps| > 0 {
      LoopKeeps(mk, inv, seen, w.(calls := w.calls + [p]), p, 0, map[], 1);
    }
  }

  // ---------------------------------------------------------------- the replay

  ghost predicate Replays(mk: Makefile, start: Files, files: Files, runs: seq<Run>) {
    && mk.root < |mk.targets| && AreTargets(mk, runs)
    && files == FilesAfter(mk, start, runs) && RunsReplay(mk, start, runs)
  }

  lemma SeenLater(mk: Makefile, start: Files, files: Files, runs: seq<Run>, more: seq<Run>)
    requires runs <= more && Seen(mk, start, files, runs)
    ensures Seen(mk, start, files, more)
  {
    var m :| 0 <= m <= |runs| && AreTargets(mk, runs[..m]) && files == FilesAfter(mk, start, runs[..m]);
    assert more[..m] == runs[..m];
  }

  /** One more command. */
  lemma RunReplays(mk: Makefile, start: Files, files: Files, runs: seq<Run>, x: Run)
    requires Replays(mk, start, files, runs) && Index(mk, x.who) < |mk.targets|
    requires x.outcome == mk.shell(|runs|, mk.targets[Index(mk, x.who)], files).outcome
    requires !x.outcome.ForkFailed? && AllSeen(mk, start, runs, x.older)
    ensures Replays(mk, start, mk.shell(|runs|, mk.targets[Index(mk, x.who)], files).files, runs + [x])
  {
    var more := runs + [x];
    assert more[..|runs|] == runs;
    forall n | 0 <= n < |more|
      ensures more[n].outcome == Replayed(mk, start, more, n)
      ensures !more[n].outcome.ForkFailed? && AllSeen(mk, start, more[..n], more[n].older)
    {
      if n < |runs| {
        assert more[..n] == runs[..n] && more[n] == runs[n];
        assert runs[n].outcome == Replayed(mk, start, runs, n);
      }
    }
  }

  ghost function Replaying(mk: Makefile, start: Files): Claim {
    (files, runs) => Replays(mk, start, files, runs)
  }

  ghost function SeenFrom(mk: Makefile, start: Files): Claim {
    (files, runs) => Seen(mk, start, files, runs)
  }

  lemma ReplayIsKept(mk: Makefile, start: Files)
    ensures Kept(mk, Replaying(mk, start), SeenFrom(mk, start))
  {
    var inv, seen := Replaying(mk, start), SeenFrom(mk, start);
    forall files: Files, runs: seq<Run>, p: Ref, status: seq<Status>, older: map<nat, Files>
      | inv(files, runs) && AllAre(seen, older, runs) && Index(mk, p) < |mk.targets|
      ensures var reply := mk.shell(|runs|, mk.targets[Index(mk, p)], files);
              reply.outcome.ForkFailed? || inv(reply.files, runs + [Run(p, reply.outcome, status, older)])
    {
      var reply := mk.shell(|runs|, mk.targets[Index(mk, p)], files);
      if !reply.outcome.ForkFailed? {
        assert forall k | k in older :: Seen(mk, start, older[k], runs);
        RunReplays(mk, start, files, runs, Run(p, reply.outcome, status, older));
      }
    }
  }

  lemma ReplayIsRemembered(mk: Makefile, start: Files)
    requires mk.root < |mk.targets|
    ensures Remembered(Replaying(mk, start), SeenFrom(mk, start))
  {
    forall files: Files, runs: seq<Run> | Replays(mk, start, files, runs)
      ensures Seen(mk, start, files, runs)
    {
      assert runs[..|runs|] == runs;
    }
    forall files: Files, runs: seq<Run>, more: seq<Run> | runs <= more && Seen(mk, start, files, runs)
      ensures Seen(mk, start, files, more)
    {
      SeenLater(mk, start, files, runs, more);
    }
  }

  /** The build is its commands.  On every makefile the files it leaves are those
      the shell makes of the files before when it runs the recorded commands in
      order, each given its own target and what the one before left; and each
      command ended as the shell then says.  A dependency passed over as older
      was compared in files the build had before that command. */
  lemma BuildIsItsCommands(mk: Makefile, files: Files)
    requires mk.root < |mk.targets|
    ensures var w := Make(mk, files).world;
            && AreTargets(mk, w.runs)
            && w.files == FilesAfter(mk, files, w.runs)
            && RunsReplay(mk, files, w.runs)
  {
    ReplayIsKept(mk, files);
    ReplayIsRemembered(mk, files);
    BuildKeeps(mk, Replaying(mk, files), SeenFrom(mk, files), Start(mk, files), Copy);
  }

  // ---------------------------------------------------------------- statuses and commands

  /** What a command saw of the statuses agrees with the order of the commands: a
      target whose command ran before was finished, one whose command was still to
      run was not. */
  ghost predicate Chronicle(runs: seq<Run>) {
    forall m, n | 0 <= m < |runs| && 0 <= n < |runs| && runs[m].who.Entry? && runs[m].who.i < |runs[n].status| ::
      m < n <==> runs[n].status[runs[m].who.i] == Finished
  }

  /** Statuses seen by a command are behind the present ones. */
  ghost predicate SawEarlier(w: World) {
    forall x | x in w.runs :: |x.status| == |w.status| && forall i | 0 <= i < |w.status| ::
      Level(x.status[i]) <= Level(w.status[i])
  }

  ghost predicate Chronicled(w: World) {
    Chronicle(w.runs) && SawEarlier(w)
  }

  /** The command of an unfinished target comes after all that ran. */
  lemma RunIsChronicled(w: World, x: Run)
    requires Chronicled(w) && AllDone(w) && Known(w, x.who) && StatusOf(w, x.who) != Finished && x.status == w.status
    ensures Chronicle(w.runs + [x])
  {
    var runs := w.runs + [x];
    forall m, n | 0 <= m < |runs| && 0 <= n < |runs| && runs[m].who.Entry? && runs[m].who.i < |runs[n].status|
      ensures m < n <==> runs[n].status[runs[m].who.i] == Finished
    {
      assert m < |w.runs| ==> runs[m] in w.runs;
      assert n < |w.runs| ==> runs[n] in w.runs;
    }
  }

  /** What a command saw stays behind when statuses move on. */
  lemma SawStillEarlier(w: World, x: Run, v: World)
    requires SawEarlier(w) && x.status == w.status && Climbs(w, v) && v.runs == w.runs + [x]
    ensures SawEarlier(v)
  {
    forall y | y in v.runs
      ensures |y.status| == |v.status| && forall i | 0 <= i < |v.status| :: Level(y.status[i]) <= Level(v.status[i])
    {
      assert y in w.runs || y == x;
      forall i | 0 <= i < |v.status|
        ensures Level(y.status[i]) <= Level(v.status[i])
      {
        assert Known(w, Entry(i)) && StatusOf(w, Entry(i)) == w.status[i] && StatusOf(v, Entry(i)) == v.status[i];
      }
    }
  }

  lemma FinishIsChronicled(mk: Makefile, w: World, p: Ref, older: map<nat, Files>, depth: nat)
    requires InRange(mk, w, p) && AllDone(w) && StatusOf(w, p) == NeedsBuilding && Chronicled(w)
    ensures Chronicled(Finish(mk, w, p, older, depth).world)
  {
    var x := Run(p, mk.shell(|w.runs|, TargetOf(mk, p), w.files).outcome, w.status, older);
    var v := Finish(mk, w, p, older, depth).world;
    if !x.outcome.ForkFailed? {
      RunIsChronicled(w, x);
      FinishIsOrderly(mk, w, p, older, depth);
      SawStillEarlier(w, x, v);
    }
  }

  lemma SkippingIsChronicled(mk: Makefile, w: World, p: Ref)
    requires InRange(mk, w, p) && Chronicled(w)
    ensures Chronicled(SetStatus(w, p, Finished))
  {}

  lemma MarkingIsChronicled(mk: Makefile, w: World, p: Ref)
    requires InRange(mk, w, p) && AllDone(w) && StatusOf(w, p) != Finished && Chronicled(w)
    ensures Chronicled(SetStatus(w, p, NeedsBuilding))
  {}

  lemma {:induction false} StepIsChronicled(
      mk: Makefile, w: World, p: Ref, k: nat, older: map<nat, Files>, depth: nat)
    requires NoSelfDependency(mk) && InRange(mk, w, p) && k < |TargetOf(mk, p).deps|
    requires AllDone(w) && StatusOf(w, p) != Finished && Chronicled(w)
    ensures Chronicled(Step(mk, w, p, k, older, depth).world)
    decreases Open(w.status), Rank(w, p), 0, |TargetOf(mk, p).deps| - k, 0
  {
    var target := TargetOf(mk, p);
    var j := Dependency(mk, Index(mk, p), k);
    MarkingIsChronicled(mk, w, p);
    if j != -1 && w.status[j] == Unfinished && CompareTimes(w.files, target.deps[k], target.name) != 2 {
      MarkingCloses(w, p, NeedsBuilding);
      MarkingIsOrderly(mk, w, p);
      BuildIsChronicled(mk, SetStatus(w, p, NeedsBuilding), Entry(j));
    }
  }

  lemma {:induction false} LoopIsChronicled(
      mk: Makefile, w: World, p: Ref, k: nat, older: map<nat, Files>, depth: nat)
    requires NoSelfDependency(mk) && InRange(mk, w, p) && k <= |TargetOf(mk, p).deps|
    requires AllDone(w) && StatusOf(w, p) != Finished && Chronicled(w)
    ensures Chronicled(Loop(mk, w, p, k, older, depth).world)
    decreases Open(w.status), Rank(w, p), 0, |TargetOf(mk, p).deps| - k, 1
  {
    if k == |TargetOf(mk, p).deps| {
      if StatusOf(w, p) == NeedsBuilding {
        FinishIsChronicled(mk, w, p, older, depth);
      } else {
        SkippingIsChronicled(mk, w, p);
      }
    } else {
      var t := Step(mk, w, p, k, older, depth);
      MeasureFalls(w, t.world, p);
      StepIsOrderly(mk, w, p, k, older, depth);
      StepIsChronicled(mk, w, p, k, older, depth);
      if t.ok {
        LoopIsChronicled(mk, t.world, p, k + 1, t.older, t.depth);
      }
    }
  }

  lemma {:induction false} BuildIsChronicled(mk: Makefile, w: World, p: Ref)
    requires NoSelfDependency(mk) && InRange(mk, w, p)
    requires AllDone(w) && StatusOf(w, p) != Finished && Chronicled(w)
    ensures Chronicled(BuildFrom(mk, w, p).world)
    decreases Open(w.status), Rank(w, p), 1, 0, 0
  {
    var called := w.(calls := w.calls + [p]);
    if |TargetOf(mk, p).deps| == 0 {
      MarkingIsOrderly(mk, called, p);
      MarkingIsChronicled(mk, called, p);
      FinishIsChronicled(mk, SetStatus(called, p, NeedsBuilding), p, map[], 1);
    } else {
      LoopIsChronicled(mk, called, p, 0, map[], 1);
    }
  }

  /** Command `n` runs for a target of which `j` is dependency `k`. */
  ghost predicate Needs(mk: Makefile, runs: seq<Run>, n: nat, k: nat, j: nat) {
    && n < |runs| && Index(mk, runs[n].who) < |mk.targets|
    && k < |mk.targets[Index(mk, runs[n].who)].deps| && Dependency(mk, Index(mk, runs[n].who), k) == j
  }

  /** On an acyclic makefile a dependency's command, if it runs at all, runs before
      its dependent's, unless the dependency was strictly older when it was
      inspected. */
  lemma DependenciesRunFirst(mk: Makefile, files: Files, m: nat, n: nat, k: nat, j: nat)
    requires mk.root < |mk.targets| && Acyclic(mk)
    requires Needs(mk, Make(mk, files).world.runs, n, k, j) && m < |Make(mk, files).world.runs|
    requires Make(mk, files).world.runs[m].who == Entry(j)
    ensures var runs := Make(mk, files).world.runs;
            var i := Index(mk, runs[n].who);
            || m < n
            || (k in runs[n].older && IsOlder(runs[n].older[k], mk.targets[j].name, mk.targets[i].name))
  {
    var w := Start(mk, files);
    var runs := Make(mk, files).world.runs;
    AcyclicHasNoSelfDependency(mk);
    DependenciesBeforeDependents(mk, files);
    BuildIsChronicled(mk, w, Copy);
    assert RanInOrder(mk, runs[n]);
    assert Settled(mk, Index(mk, runs[n].who), k, runs[n].status, runs[n].older);
  }
}
