// The dependency graph of a makefile, and the part of it the timestamps select.

module MakeGraph {
  import opened MakeBuild

  datatype Times = Any | Under(files: Files)

  /** Target `i` depends on target `j`; under given files, on a `j` that is not
      strictly older. */
  ghost predicate Follows(mk: Makefile, t: Times, i: nat, j: nat) {
    && i < |mk.targets| && j < |mk.targets|
    && (exists k :: 0 <= k < |mk.targets[i].deps| && Dependency(mk, i, k) == j)
    && (t.Under? ==> !IsOlder(t.files, mk.targets[j].name, mk.targets[i].name))
  }

  ghost predicate IsPath(mk: Makefile, t: Times, path: seq<nat>) {
    forall n | 0 <= n < |path| - 1 :: Follows(mk, t, path[n], path[n + 1])
  }

  ghost predicate LeadsAlong(mk: Makefile, t: Times, a: nat, b: nat, path: seq<nat>) {
    |path| >= 2 && path[0] == a && path[|path| - 1] == b && IsPath(mk, t, path)
  }

  /** There is a path of at least one edge. */
  ghost predicate Leads(mk: Makefile, t: Times, a: nat, b: nat) {
    exists path :: LeadsAlong(mk, t, a, b, path)
  }

  ghost predicate Acyclic(mk: Makefile) {
    forall i: nat :: !Leads(mk, Any, i, i)
  }

  lemma LeadsOneStep(mk: Makefile, t: Times, a: nat, b: nat)
    requires Follows(mk, t, a, b)
    ensures Leads(mk, t, a, b)
  {
    assert LeadsAlong(mk, t, a, b, [a, b]);
  }

  lemma LeadsOn(mk: Makefile, t: Times, a: nat, b: nat, c: nat)
    requires Leads(mk, t, a, b) && Follows(mk, t, b, c)
    ensures Leads(mk, t, a, c)
  {
    var path :| LeadsAlong(mk, t, a, b, path);
    var longer := path + [c];
    forall n | 0 <= n < |longer| - 1
      ensures Follows(mk, t, longer[n], longer[n + 1])
    {
      if n < |path| - 1 {
        assert Follows(mk, t, path[n], path[n + 1]);
      }
    }
    assert LeadsAlong(mk, t, a, c, longer);
  }

  lemma LeadsWithoutTimes(mk: Makefile, t: Times, a: nat, b: nat)
    requires Leads(mk, t, a, b)
    ensures Leads(mk, Any, a, b)
  {
    var path :| LeadsAlong(mk, t, a, b, path);
    forall n | 0 <= n < |path| - 1
      ensures Follows(mk, Any, path[n], path[n + 1])
    {
      assert Follows(mk, t, path[n], path[n + 1]);
    }
    assert LeadsAlong(mk, Any, a, b, path);
  }

  /** A set of targets that is entered by one edge from `a` and left by none
      holds everything `a` leads to. */
  lemma {:induction false} ClosedHoldsAll(mk: Makefile, t: Times, a: nat, b: nat, path: seq<nat>, s: set<nat>)
    requires LeadsAlong(mk, t, a, b, path)
    requires forall j | Follows(mk, t, a, j) :: j in s
    requires forall i, j | i in s && Follows(mk, t, i, j) :: j in s
    ensures b in s
    decreases |path|
  {
    assert Follows(mk, t, path[0], path[1]);
    if |path| > 2 {
      var rest := path[1..];
      forall n | 0 <= n < |rest| - 1
        ensures Follows(mk, t, rest[n], rest[n + 1])
      {
        assert Follows(mk, t, path[n + 1], path[n + 2]);
      }
      ClosedHoldsAll(mk, t, path[1], b, rest, s);
    }
  }
}
