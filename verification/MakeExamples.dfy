// Small makefiles on which a command runs twice, and one on which it does not.

module MakeExamples {
  import opened MakefileParser
  import opened MakeBuild
  import opened MakeGraph
  import opened MakeReturns
  import opened MakeVisits
  import opened MakeCallOrder
  import opened MakeCommands
  import opened MakeTheorems

  /** A makefile whose only target depends on itself, with a command that
      succeeds and changes nothing. */
  const SELF := Makefile([Target("a", ["a"], "touch a", Unfinished)], 0, (n, t, files) => Reply(Exited(0), files))

  /** The loop over a single dependency. */
  lemma OneDependency(mk: Makefile, w: World, p: Ref, older: map<nat, Files>, depth: nat)
    requires InRange(mk, w, p) && |TargetOf(mk, p).deps| == 1
    ensures var t := Step(mk, w, p, 0, older, depth);
            Loop(mk, w, p, 0, older, depth) ==
            if t.ok then Finish(mk, t.world, p, t.older, t.depth) else Result(false, t.world, t.depth)
  {}

  /** Without the condition on the root the command can run twice, because main
      builds a copy of the root and the walk finds the array entry unfinished. */
  lemma SelfDependencyRunsTwice()
    ensures var r := Make(SELF, map[]);
            r.ok && |r.world.runs| == 2 && r.world.runs[0].who == Entry(0) && r.world.runs[1].who == Copy
            && !EachTargetOnce(SELF, r.world.runs) && r.depth == 2 * |SELF.targets| + 1
  {
    var mk := SELF;
    assert FindFrom(mk.targets, "a", 0) == 0;
    assert Dependency(mk, 0, 0) == 0;
    var w0 := Start(mk, map[]).(calls := [Copy]);
    var w1 := w0.(copy := NeedsBuilding, calls := [Copy, Entry(0)]);
    var w2 := w1.(status := [NeedsBuilding], calls := [Copy, Entry(0), Entry(0)]);
    OneDependency(mk, w0, Copy, map[], 1);
    OneDependency(mk, w1, Entry(0), map[], 1);
    OneDependency(mk, w2, Entry(0), map[], 1);
    var r2 := Loop(mk, w2, Entry(0), 0, map[], 1);
    assert r2.ok && r2.world.status == [Finished] && |r2.world.runs| == 1 && r2.world.runs[0].who == Entry(0);
    assert SetStatus(w1, Entry(0), NeedsBuilding) == w1.(status := [NeedsBuilding]);
    assert r2 == BuildFrom(mk, w1.(status := [NeedsBuilding]), Entry(0));
    assert Step(mk, w1, Entry(0), 0, map[], 1).world == r2.world;
    var r1 := Loop(mk, w1, Entry(0), 0, map[], 1);
    assert r1.ok && r1.world.runs == r2.world.runs && r1.world.copy == NeedsBuilding;
    assert w0.(copy := NeedsBuilding).(calls := [Copy] + [Entry(0)]) == w1;
    assert r1 == BuildFrom(mk, w0.(copy := NeedsBuilding), Entry(0));
    assert Step(mk, w0, Copy, 0, map[], 1).world == r1.world;
    var r := Make(mk, map[]);
    assert Start(mk, map[]).(calls := [] + [Copy]) == w0;
    assert r == Loop(mk, w0, Copy, 0, map[], 1);
    assert Index(mk, r.world.runs[0].who) == Index(mk, r.world.runs[1].who);
  }

  // ---------------------------------------------------------------- the order decides

  /** `a` depends on `deps`, `b` depends on `a`, and `c` on nothing; every command
      succeeds and changes nothing. */
  function Around(deps: seq<string>): Makefile {
    Makefile([Target("b", ["a"], "touch b", Unfinished), Target("c", [], "touch c", Unfinished),
              Target("a", deps, "touch a", Unfinished)], 2, (n, t, files) => Reply(Exited(0), files))
  }

  const B_THEN_C := Around(["b", "c"])
  const C_THEN_B := Around(["c", "b"])

  lemma AroundLookups(deps: seq<string>)
    ensures var ts := Around(deps).targets;
            Find(ts, "b") == 0 && Find(ts, "c") == 1 && Find(ts, "a") == 2
  {
    var ts := Around(deps).targets;
    assert FindFrom(ts, "a", 2) == 2 && FindFrom(ts, "a", 1) == 2;
    assert FindFrom(ts, "c", 1) == 1;
  }

  lemma AroundDependencies(deps: seq<string>)
    requires deps == ["b", "c"] || deps == ["c", "b"]
    ensures var mk := Around(deps);
            && Dependency(mk, 0, 0) == 2
            && Dependency(mk, 2, 0) == (if deps == ["b", "c"] then 0 else 1)
            && Dependency(mk, 2, 1) == (if deps == ["b", "c"] then 1 else 0)
  {
    AroundLookups(deps);
    assert ["b", "c"][0] != ["c", "b"][0];
  }

  /** Both makefiles meet the conditions of the theorem, with no file present. */
  lemma AroundIsCalm(deps: seq<string>)
    requires deps == ["b", "c"] || deps == ["c", "b"]
    ensures Calm(Around(deps)) && RootOnCycle(Around(deps), map[]) && Make(Around(deps), map[]).ok
    ensures !MustRun(Around(deps), map[], 2)
  {
    var mk := Around(deps);
    AroundLookups(deps);
    AroundDependencies(deps);
    assert Follows(mk, Under(map[]), 0, 2);
    var k := if deps == ["b", "c"] then 0 else 1;
    assert Dependency(mk, 2, k) == 0 && Follows(mk, Under(map[]), 2, 0);
    LeadsOneStep(mk, Under(map[]), 2, 0);
    LeadsOn(mk, Under(map[]), 2, 0, 2);
    SucceedsIfAllDo(mk, map[]);
  }

  lemma OrderBThenC()
    ensures Preorder(B_THEN_C, map[]) == [0, 2, 1]
  {
    var mk := B_THEN_C;
    AroundDependencies(["b", "c"]);
    assert Order(mk, map[], [0, 2, 1], 2, 2) == [0, 2, 1];
    assert OrderStep(mk, map[], [0, 2], 2, 1) == Order(mk, map[], [0, 2] + [1], 1, 0) == [0, 2, 1];
    assert Order(mk, map[], [0, 2], 2, 1) == [0, 2, 1];
    assert Order(mk, map[], [0, 2], 2, 0) == [0, 2, 1];
    assert OrderStep(mk, map[], [0], 0, 0) == Order(mk, map[], [0] + [2], 2, 0);
    assert [0] + [2] == [0, 2];
    assert Order(mk, map[], [0], 0, 0) == Order(mk, map[], [0, 2, 1], 0, 1) == [0, 2, 1];
    assert OrderStep(mk, map[], [], 2, 0) == Order(mk, map[], [] + [0], 0, 0);
    assert [] + [0] == [0];
    assert Order(mk, map[], [0, 2, 1], 2, 1) == [0, 2, 1];
  }

  lemma OrderCThenB()
    ensures Preorder(C_THEN_B, map[]) == [1, 0, 2]
  {
    var mk := C_THEN_B;
    AroundDependencies(["c", "b"]);
    assert ["c", "b"][0] != ["b", "c"][0];
    assert OrderStep(mk, map[], [], 2, 0) == Order(mk, map[], [] + [1], 1, 0);
    assert [] + [1] == [1];
    assert Order(mk, map[], [1], 1, 0) == [1];
    assert Order(mk, map[], [1, 0, 2], 2, 1) == Order(mk, map[], [1, 0, 2], 2, 2) == [1, 0, 2];
    assert Order(mk, map[], [1, 0, 2], 2, 0) == [1, 0, 2];
    assert OrderStep(mk, map[], [1, 0], 0, 0) == Order(mk, map[], [1, 0] + [2], 2, 0);
    assert [1, 0] + [2] == [1, 0, 2];
    assert Order(mk, map[], [1, 0], 0, 0) == Order(mk, map[], [1, 0, 2], 0, 1) == [1, 0, 2];
    assert OrderStep(mk, map[], [1], 2, 1) == Order(mk, map[], [1] + [0], 0, 0);
    assert [1] + [0] == [1, 0];
    assert Order(mk, map[], [1], 2, 1) == [1, 0, 2];
  }

  lemma BThenCRunsTwice()
    ensures !EachTargetOnce(B_THEN_C, Make(B_THEN_C, map[]).world.runs)
  {
    AroundIsCalm(["b", "c"]);
    AroundDependencies(["b", "c"]);
    TwiceExactlyOnCycle(B_THEN_C, map[]);
    OrderBThenC();
    var order := [0, 2, 1];
    assert Follows(B_THEN_C, Under(map[]), 2, 1);
    assert order[1] == 2 && order[2] == 1;
    assert IsFollowedLater(B_THEN_C, map[], order, 2, 1);
  }

  lemma CThenBRunsOnce()
    ensures EachTargetOnce(C_THEN_B, Make(C_THEN_B, map[]).world.runs)
  {
    AroundIsCalm(["c", "b"]);
    TwiceExactlyOnCycle(C_THEN_B, map[]);
    OrderCThenB();
    assert forall j: nat :: !ComesAfter([1, 0, 2], 2, j);
  }

  /** With no file present, `a: b c` runs the command of `a` twice and `a: c b` runs
      it once: the walk comes back to `a` before it has seen `c`, or after. */
  lemma DependencyOrderDecides()
    ensures !EachTargetOnce(B_THEN_C, Make(B_THEN_C, map[]).world.runs)
    ensures EachTargetOnce(C_THEN_B, Make(C_THEN_B, map[]).world.runs)
  {
    BThenCRunsTwice();
    CThenBRunsOnce();
  }

  // ---------------------------------------------------------------- the deepest recursion

  function Link(i: nat): string {
    seq(i, _ => 'x')
  }

  /** Each target depends on the next one and the last on the first. */
  function Ring(n: nat): Makefile
    requires 0 < n
  {
    Makefile(seq(n, i requires 0 <= i < n => Target(Link(i), [Link(Next(i, n))], "touch", Unfinished)), 0,
             (k, t, files) => Reply(Exited(0), files))
  }

  function Next(i: nat, n: nat): nat
    requires i < n
  {
    if i + 1 == n then 0 else i + 1
  }

  lemma RingDependency(n: nat, i: nat)
    requires i < n
    ensures |Ring(n).targets[i].deps| == 1 && Dependency(Ring(n), i, 0) == Next(i, n)
  {
    var ts, j := Ring(n).targets, Next(i, n);
    assert ts[j].name == Link(j);
    assert |Link(Find(ts, Link(j)))| == |Link(j)|;
  }

  /** With no file present the walk goes all the way round. */
  lemma {:induction false} RingDepth(n: nat, w: World, i: nat)
    requires 1 < n && i < n && InRange(Ring(n), w, Entry(i)) && w.files == map[]
    requires i != 1 ==> w.status[1] != Unfinished
    requires i != 0 ==> w.status[0] == Unfinished && forall j | i < j < n :: w.status[j] == Unfinished
    ensures BuildFrom(Ring(n), w, Entry(i)).depth == if i == 0 then 1 else n - i + 1
    decreases if i == 0 then 0 else n - i
  {
    var mk, p := Ring(n), Entry(i);
    var called := w.(calls := w.calls + [p]);
    RingDependency(n, i);
    OneDependency(mk, called, p, map[], 1);
    if i != 0 {
      MarkingCloses(called, p, NeedsBuilding);
      RingDepth(n, SetStatus(called, p, NeedsBuilding), Next(i, n));
    }
  }

  /** The bounds on the recursion are attained: without self-dependencies by a ring
      of any number of targets, in general by the target that depends on itself. */
  lemma DepthIsAttained(n: nat)
    requires 1 < n
    ensures |Ring(n).targets| == n && NoSelfDependency(Ring(n)) && Make(Ring(n), map[]).depth == n + 1
    ensures !NoSelfDependency(SELF) && Make(SELF, map[]).depth == 2 * |SELF.targets| + 1
  {
    var mk := Ring(n);
    forall i | 0 <= i < n
      ensures Dependency(mk, i, 0) != i && |mk.targets[i].deps| == 1
    {
      RingDependency(n, i);
    }
    var w := Start(mk, map[]);
    var called := w.(calls := w.calls + [Copy]);
    RingDependency(n, 0);
    OneDependency(mk, called, Copy, map[], 1);
    MarkingCloses(called, Copy, NeedsBuilding);
    RingDepth(n, SetStatus(called, Copy, NeedsBuilding), 1);
    SelfDependencyRunsTwice();
    assert Dependency(SELF, 0, 0) == 0;
  }
}
