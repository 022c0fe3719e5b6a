// The make clone's build walk: a recursive descent that marks targets through
// pointers, compares timestamps and runs commands.

module MakeBuild {
  import opened Counting
  import opened MakefileParser

  // ---------------------------------------------------------------- the outside world

  /** Modification times; a name without one is a missing file. */
  type Files = map<string, int>

  function ModificationTime(files: Files, name: string): int {
    if name in files then files[name] else -1
  }

  predicate Exists(files: Files, name: string) {
    ModificationTime(files, name) != -1
  }

  /** Both files exist and `a` was modified strictly earlier. */
  predicate IsOlder(files: Files, a: string, b: string) {
    Exists(files, a) && Exists(files, b) && ModificationTime(files, a) < ModificationTime(files, b)
  }

  /** The comparison the program makes; only 2 keeps build from following an edge. */
  function CompareTimes(files: Files, a: string, b: string): (r: int)
    ensures r == 2 <==> IsOlder(files, a, b)
    ensures r == 1 <==> IsOlder(files, b, a)
    ensures r == -1 <==> !Exists(files, a) || !Exists(files, b)
    ensures -1 <= r <= 2
  {
    var s, t := ModificationTime(files, a), ModificationTime(files, b);
    if s == -1 || t == -1 then -1
    else if s == t then 0
    else if s > t then 1
    else 2
  }

  /** fork fails; or the child exits with a code, or is killed by a signal. */
  datatype Outcome = ForkFailed | Exited(code: int) | Signalled

  datatype Reply = Reply(outcome: Outcome, files: Files)

  /** What the n-th command does, run for a target on the given files. */
  type Shell = (nat, Target, Files) -> Reply

  /** Only a non-zero exit status counts as failure of a command that ran. */
  predicate Succeeds(o: Outcome) {
    o.Signalled? || (o.Exited? && o.code == 0)
  }

  // ---------------------------------------------------------------- the walk's state

  /** The targets, the one to build, and the shell. */
  datatype Makefile = Makefile(targets: seq<Target>, root: nat, shell: Shell)

  /** A pointer to a target: main's copy of the root, or an array entry. */
  datatype Ref = Copy | Entry(i: nat)

  /** One executed command: for whom, how it ended, what the statuses were when
      it started, and for each dependency position that was skipped as older,
      the files at the moment it was inspected. */
  datatype Run = Run(who: Ref, outcome: Outcome, status: seq<Status>, older: map<nat, Files>)

  /** The statuses, the files, and the history of commands and calls. */
  datatype World = World(status: seq<Status>, copy: Status, files: Files, runs: seq<Run>, calls: seq<Ref>)

  /** build's return value, 0 or -1, the state it leaves and how deep it recursed. */
  datatype Result = Result(ok: bool, world: World, depth: nat)

  predicate InRange(mk: Makefile, w: World, p: Ref) {
    && mk.root < |mk.targets| == |w.status|
    && (p.Entry? ==> p.i < |mk.targets|)
  }

  function Index(mk: Makefile, p: Ref): nat {
    if p.Copy? then mk.root else p.i
  }

  function TargetOf(mk: Makefile, p: Ref): Target
    requires mk.root < |mk.targets| && (p.Entry? ==> p.i < |mk.targets|)
  {
    mk.targets[Index(mk, p)]
  }

  function StatusOf(w: World, p: Ref): Status
    requires p.Entry? ==> p.i < |w.status|
  {
    if p.Copy? then w.copy else w.status[p.i]
  }

  function SetStatus(w: World, p: Ref, s: Status): World
    requires p.Entry? ==> p.i < |w.status|
  {
    if p.Copy? then w.(copy := s) else w.(status := w.status[p.i := s])
  }

  /** The array index of a dependency, or -1 if it is no target. */
  function Dependency(mk: Makefile, i: nat, k: nat): (j: int)
    requires i < |mk.targets| && k < |mk.targets[i].deps|
    ensures -1 <= j < |mk.targets|
    ensures j != -1 ==> mk.targets[j].name == mk.targets[i].deps[k]
  {
    Find(mk.targets, mk.targets[i].deps[k])
  }

  // ---------------------------------------------------------------- termination

  function IsUnfinished(s: Status): nat {
    if s == Unfinished then 1 else 0
  }

  ghost function Open(status: seq<Status>): nat {
    Sum(IsUnfinished, status)
  }

  /** 0 for an array entry not yet reached, 1 otherwise. */
  function Rank(w: World, p: Ref): nat
    requires p.Entry? ==> p.i < |w.status|
  {
    if p.Entry? && w.status[p.i] == Unfinished then 0 else 1
  }

  /** No target becomes unfinished again. */
  ghost predicate Onward(s: seq<Status>, t: seq<Status>) {
    |s| == |t| && forall i | 0 <= i < |s| && s[i] != Unfinished :: t[i] != Unfinished
  }

  lemma OnwardTogether(s: seq<Status>, t: seq<Status>, u: seq<Status>)
    requires Onward(s, t) && Onward(t, u)
    ensures Onward(s, u)
  {}

  lemma OnwardCloses(s: seq<Status>, t: seq<Status>)
    requires Onward(s, t)
    ensures Open(t) <= Open(s)
  {
    SumMonotone(IsUnfinished, t, s);
  }

  /** Marking moves the measure down, or leaves it where the rank is already 1. */
  lemma MarkingCloses(w: World, p: Ref, s: Status)
    requires (p.Entry? ==> p.i < |w.status|) && s != Unfinished
    ensures Onward(w.status, SetStatus(w, p, s).status)
    ensures Open(SetStatus(w, p, s).status) == if Rank(w, p) == 0 then Open(w.status) - 1 else Open(w.status)
  {
    if p.Entry? {
      SumUpdate(IsUnfinished, w.status, p.i, s);
    }
  }

  /** Going onward never raises the measure. */
  lemma MeasureFalls(w: World, w': World, p: Ref)
    requires (p.Entry? ==> p.i < |w.status|) && Onward(w.status, w'.status)
    ensures Open(w'.status) < Open(w.status) || (Open(w'.status) == Open(w.status) && Rank(w', p) <= Rank(w, p))
  {
    OnwardCloses(w.status, w'.status);
    if Rank(w, p) < Rank(w', p) {
      SumStrictlyRaised(IsUnfinished, w'.status, w.status, p.i);
    }
  }

  // ---------------------------------------------------------------- the walk

  function Max(a: nat, b: nat): nat {
    if a < b then b else a
  }

  /** After the loop: nothing to do, or run the command. */
  ghost function Finish(mk: Makefile, w: World, p: Ref, older: map<nat, Files>, depth: nat): (r: Result)
    requires InRange(mk, w, p)
    ensures InRange(mk, r.world, p) && Onward(w.status, r.world.status)
  {
    if StatusOf(w, p) != NeedsBuilding then Result(true, SetStatus(w, p, Finished), depth)
    else
      var reply := mk.shell(|w.runs|, TargetOf(mk, p), w.files);
      if reply.outcome.ForkFailed? then Result(false, w, depth)
      else
        var ran := w.(files := reply.files, runs := w.runs + [Run(p, reply.outcome, w.status, older)]);
        if Succeeds(reply.outcome) then Result(true, SetStatus(ran, p, Finished), depth)
        else Result(false, ran, depth)
  }

  /** What one turn of the loop leaves; not ok when a nested call failed. */
  datatype Turn = Turn(ok: bool, world: World, older: map<nat, Files>, depth: nat)

  /** One turn of the loop: dependency `k` of `p`. */
  ghost function Step(mk: Makefile, w: World, p: Ref, k: nat, older: map<nat, Files>, depth: nat): (r: Turn)
    requires InRange(mk, w, p) && k < |TargetOf(mk, p).deps|
    ensures InRange(mk, r.world, p) && Onward(w.status, r.world.status)
    decreases Open(w.status), Rank(w, p), 0, |TargetOf(mk, p).deps| - k, 0
  {
    var target := TargetOf(mk, p);
    var j := Dependency(mk, Index(mk, p), k);
    var newer := CompareTimes(w.files, target.deps[k], target.name) != 2;
    if j != -1 then
      if w.status[j] != Unfinished then Turn(true, w, older, depth)
      else if !newer then Turn(true, w, older[k := w.files], depth)
      else
        MarkingCloses(w, p, NeedsBuilding);
        var r := BuildFrom(mk, SetStatus(w, p, NeedsBuilding), Entry(j));
        Turn(r.ok, r.world, older, Max(depth, r.depth + 1))
    else
      MarkingCloses(w, p, NeedsBuilding);
      Turn(true, if StatusOf(w, p) == Unfinished && newer then SetStatus(w, p, NeedsBuilding) else w, older, depth)
  }

  /** The loop over the dependencies of `p` from position `k` on. */
  ghost function Loop(mk: Makefile, w: World, p: Ref, k: nat, older: map<nat, Files>, depth: nat): (r: Result)
    requires InRange(mk, w, p) && k <= |TargetOf(mk, p).deps|
    ensures InRange(mk, r.world, p) && Onward(w.status, r.world.status)
    decreases Open(w.status), Rank(w, p), 0, |TargetOf(mk, p).deps| - k, 1
  {
    if k == |TargetOf(mk, p).deps| then Finish(mk, w, p, older, depth)
    else
      var t := Step(mk, w, p, k, older, depth);
      MeasureFalls(w, t.world, p);
      if t.ok then Loop(mk, t.world, p, k + 1, t.older, t.depth) else Result(false, t.world, t.depth)
  }

  /** One call of build.  That it is defined for every makefile, cyclic ones and
      self-dependencies included, is the termination of the program's walk. */
  ghost function BuildFrom(mk: Makefile, w: World, p: Ref): (r: Result)
    requires InRange(mk, w, p)
    ensures InRange(mk, r.world, p) && Onward(w.status, r.world.status)
    decreases Open(w.status), Rank(w, p), 1, 0, 0
  {
    var called := w.(calls := w.calls + [p]);
    if |TargetOf(mk, p).deps| == 0 then
      MarkingCloses(called, p, NeedsBuilding);
      Finish(mk, SetStatus(called, p, NeedsBuilding), p, map[], 1)
    else
      Loop(mk, called, p, 0, map[], 1)
  }

  /** One turn taken out of the loop. */
  lemma LoopUnfolds(mk: Makefile, w: World, p: Ref, k: nat, older: map<nat, Files>, depth: nat)
    requires InRange(mk, w, p) && k < |TargetOf(mk, p).deps|
    ensures var t := Step(mk, w, p, k, older, depth);
            Loop(mk, w, p, k, older, depth) ==
            if t.ok then Loop(mk, t.world, p, k + 1, t.older, t.depth) else Result(false, t.world, t.depth)
  {
    MeasureFalls(w, Step(mk, w, p, k, older, depth).world, p);
  }

  /** main's state before the call: every status reset, nothing run. */
  function Start(mk: Makefile, files: Files): World {
    World(seq(|mk.targets|, _ => Unfinished), Unfinished, files, [], [])
  }

  /** What main does: build the copy of the root. */
  ghost function Make(mk: Makefile, files: Files): Result
    requires mk.root < |mk.targets|
  {
    BuildFrom(mk, Start(mk, files), Copy)
  }

  // ---------------------------------------------------------------- the program's walk

  /** The target array, main's copy of the root, and the file system. */
  class Walk {
    var targets: array<Target>
    var initialTarget: Target
    var files: Files
    var commandsRun: nat
    ghost var runs: seq<Run>
    ghost var calls: seq<Ref>
    const root: nat
    const shell: Shell

    ghost function Statuses(): seq<Status>
      reads this, targets
    {
      seq(targets.Length, i requires 0 <= i < targets.Length reads this, targets => targets[i].status)
    }

    ghost function State(): World
      reads this, targets
    {
      World(Statuses(), initialTarget.status, files, runs, calls)
    }

    /** The targets are those of the makefile, up to their statuses. */
    ghost predicate Describes(mk: Makefile)
      reads this, targets
    {
      && commandsRun == |runs|
      && mk.root == root && mk.shell == shell && root < |mk.targets| == targets.Length
      && (forall i | 0 <= i < targets.Length :: targets[i] == mk.targets[i].(status := targets[i].status))
      && initialTarget == mk.targets[root].(status := initialTarget.status)
      && (forall i | 0 <= i < |mk.targets| :: mk.targets[i].status == Unfinished)
    }

    /** Reading and writing through the pointer. */
    function Get(p: Ref): Target
      reads this, targets
      requires p.Entry? ==> p.i < targets.Length
    {
      if p.Copy? then initialTarget else targets[p.i]
    }

    method Mark(p: Ref, s: Status, ghost mk: Makefile)
      requires Describes(mk) && (p.Entry? ==> p.i < targets.Length)
      modifies this, targets
      ensures Describes(mk) && targets == old(targets)
      ensures State() == SetStatus(old(State()), p, s)
    {
      if p.Copy? {
        initialTarget := initialTarget.(status := s);
      } else {
        targets[p.i] := targets[p.i].(status := s);
      }
      assert Statuses() == SetStatus(old(State()), p, s).status;
    }

    /** main: copy the root target, reset every status, build the copy. */
    constructor (mk: Makefile, files: Files)
      requires mk.root < |mk.targets|
      requires forall i | 0 <= i < |mk.targets| :: mk.targets[i].status == Unfinished
      ensures fresh(targets) && Describes(mk) && State() == Start(mk, files)
    {
      root := mk.root;
      shell := mk.shell;
      targets := new Target[|mk.targets|](i requires 0 <= i < |mk.targets| => mk.targets[i]);
      initialTarget := mk.targets[mk.root];
      this.files := files;
      commandsRun := 0;
      runs := [];
      calls := [];
      new;
      var i := 0;
      while i < targets.Length
        invariant 0 <= i <= targets.Length && fresh(targets) && targets.Length == |mk.targets|
        invariant forall j | 0 <= j < targets.Length :: targets[j] == mk.targets[j]
        invariant root == mk.root && shell == mk.shell && initialTarget == mk.targets[mk.root]
        invariant this.files == files && commandsRun == 0 && runs == [] && calls == []
      {
        targets[i] := targets[i].(status := Unfinished);
        i := i + 1;
      }
      assert Statuses() == Start(mk, files).status;
    }

    /** build: 0 for success, -1 for failure. */
    method Build(p: Ref, ghost mk: Makefile) returns (rc: int)
      requires Describes(mk) && InRange(mk, State(), p)
      modifies this, targets
      ensures Describes(mk) && targets == old(targets)
      ensures State() == BuildFrom(mk, old(State()), p).world
      ensures rc == if BuildFrom(mk, old(State()), p).ok then 0 else -1
      decreases Open(State().status), Rank(State(), p), 1
    {
      ghost var start := State();
      calls := calls + [p];
      assert State() == start.(calls := start.calls + [p]);
      ghost var older: map<nat, Files> := map[];
      ghost var depth: nat := 1;
      if |Get(p).deps| == 0 {
        Mark(p, NeedsBuilding, mk);
      } else {
        var ok;
        ok, older, depth := VisitDependencies(p, mk);
        if !ok {
          return -1;
        }
      }
      rc := RunCommand(p, older, depth, mk);
    }

    /** build's loop over the dependencies. */
    method VisitDependencies(p: Ref, ghost mk: Makefile)
      returns (ok: bool, ghost older: map<nat, Files>, ghost depth: nat)
      requires Describes(mk) && InRange(mk, State(), p)
      modifies this, targets
      ensures Describes(mk) && targets == old(targets) && InRange(mk, State(), p)
      ensures ok ==> Loop(mk, old(State()), p, 0, map[], 1) == Finish(mk, State(), p, older, depth)
      ensures var r := Loop(mk, old(State()), p, 0, map[], 1); !ok ==> !r.ok && r.world == State()
      decreases Open(State().status), Rank(State(), p), 0, 2
    {
      ghost var start := State();
      ghost var all := Loop(mk, start, p, 0, map[], 1);
      ok, older, depth := true, map[], 1;
      var dependencyCount := |Get(p).deps|;
      var i := 0;
      while i < dependencyCount
        invariant 0 <= i <= dependencyCount == |TargetOf(mk, p).deps|
        invariant Describes(mk) && targets == old(targets) && InRange(mk, State(), p)
        invariant ok && all == Loop(mk, State(), p, i, older, depth)
        invariant Onward(start.status, State().status)
      {
        ghost var here := State();
        MeasureFalls(start, here, p);
        LoopUnfolds(mk, here, p, i, older, depth);
        ok, older, depth := Inspect(p, i, older, depth, mk);
        if !ok {
          return;
        }
        i := i + 1;
        OnwardTogether(start.status, here.status, State().status);
      }
    }

    /** Looks a dependency up in the live array. */
    method DependencyIndex(p: Ref, i: nat, ghost mk: Makefile) returns (j: int)
      requires Describes(mk) && InRange(mk, State(), p) && i < |TargetOf(mk, p).deps|
      ensures j == Dependency(mk, Index(mk, p), i)
    {
      j := FindTarget(Get(p).deps[i], targets, targets.Length);
      SameNamesFind(targets[..], mk.targets, Get(p).deps[i], 0);
    }

    /** The body of build's loop, for dependency `i`. */
    method Inspect(p: Ref, i: nat, ghost older: map<nat, Files>, ghost depth: nat, ghost mk: Makefile)
      returns (ok: bool, ghost older': map<nat, Files>, ghost depth': nat)
      requires Describes(mk) && InRange(mk, State(), p) && i < |TargetOf(mk, p).deps|
      modifies this, targets
      ensures Describes(mk) && targets == old(targets) && InRange(mk, State(), p)
      ensures Onward(old(State()).status, State().status)
      ensures Turn(ok, State(), older', depth') == Step(mk, old(State()), p, i, older, depth)
      decreases Open(State().status), Rank(State(), p), 0, 1
    {
      ok, older', depth' := true, older, depth;
      var dependsOn := DependencyIndex(p, i, mk);
      if dependsOn != -1 {
        if targets[dependsOn].status == Unfinished {
          if CompareTimes(files, targets[dependsOn].name, Get(p).name) != 2 {
            ok, depth' := Descend(p, dependsOn, depth, mk);
          } else {
            older' := older[i := files];
          }
        }
      } else if Get(p).status == Unfinished {
        if CompareTimes(files, Get(p).deps[i], Get(p).name) != 2 {
          MarkingCloses(State(), p, NeedsBuilding);
          Mark(p, NeedsBuilding, mk);
        }
      }
    }

    /** Marks the target and builds the dependency first. */
    method Descend(p: Ref, j: nat, ghost depth: nat, ghost mk: Makefile) returns (ok: bool, ghost depth': nat)
      requires Describes(mk) && InRange(mk, State(), p) && j < targets.Length && targets[j].status == Unfinished
      modifies this, targets
      ensures Describes(mk) && targets == old(targets) && InRange(mk, State(), p)
      ensures Onward(old(State()).status, State().status)
      ensures var r := BuildFrom(mk, SetStatus(old(State()), p, NeedsBuilding), Entry(j));
              ok == r.ok && State() == r.world && depth' == Max(depth, r.depth + 1)
      decreases Open(State().status), Rank(State(), p), 0, 0
    {
      MarkingCloses(State(), p, NeedsBuilding);
      Mark(p, NeedsBuilding, mk);
      depth' := Max(depth, BuildFrom(mk, State(), Entry(j)).depth + 1);
      var rc := Build(Entry(j), mk);
      ok := rc != -1;
    }

    /** The part of build after its loop. */
    method RunCommand(p: Ref, ghost older: map<nat, Files>, ghost depth: nat, ghost mk: Makefile) returns (rc: int)
      requires Describes(mk) && InRange(mk, State(), p)
      modifies this, targets
      ensures Describes(mk) && targets == old(targets)
      ensures State() == Finish(mk, old(State()), p, older, depth).world
      ensures rc == if Finish(mk, old(State()), p, older, depth).ok then 0 else -1
      ensures old(Get(p)).status != NeedsBuilding ==> rc == 0 && files == old(files) && runs == old(runs)
      ensures old(Get(p)).status == NeedsBuilding ==>
                var reply := shell(|old(runs)|, TargetOf(mk, p), old(files));
                if reply.outcome.ForkFailed? then rc == -1 && files == old(files) && runs == old(runs)
                else
                  && files == reply.files && |runs| == |old(runs)| + 1
                  && runs[|old(runs)|].who == p && runs[|old(runs)|].outcome == reply.outcome
                  && rc == if Succeeds(reply.outcome) then 0 else -1
    {
      if Get(p).status != NeedsBuilding {
        Mark(p, Finished, mk);
        return 0;
      }
      ghost var w := State();
      var reply := shell(commandsRun, Get(p).(status := Unfinished), files);
      if reply.outcome.ForkFailed? {
        return -1;
      }
      files := reply.files;
      commandsRun := commandsRun + 1;
      runs := runs + [Run(p, reply.outcome, w.status, older)];
      if reply.outcome.Exited? && reply.outcome.code != 0 {
        return -1;
      }
      Mark(p, Finished, mk);
      return 0;
    }
  }
}
