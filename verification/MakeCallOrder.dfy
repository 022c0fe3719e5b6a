// In which order build calls itself, computed from the makefile and the times
// before the build alone.

module MakeCallOrder {
  import opened Counting
  import opened MakefileParser
  import opened MakeBuild
  import opened MakeGraph
  import opened MakeVisits

  // ---------------------------------------------------------------- the order

  /** How many targets are not yet listed. */
  ghost function Unlisted(mk: Makefile, listed: seq<nat>): nat {
    |set i: nat | i < |mk.targets| && i !in listed|
  }

  lemma ListingShrinks(mk: Makefile, listed: seq<nat>, more: seq<nat>)
    requires listed <= more
    ensures Unlisted(mk, more) <= Unlisted(mk, listed)
  {
    forall i | i in listed
      ensures i in more
    {
      var n :| 0 <= n < |listed| && listed[n] == i;
      assert more[n] == i;
    }
    SubsetSize(set i: nat | i < |mk.targets| && i !in more, set i: nat | i < |mk.targets| && i !in listed);
  }

  lemma ListingOneShrinks(mk: Makefile, listed: seq<nat>, j: nat)
    requires j < |mk.targets| && j !in listed
    ensures Unlisted(mk, listed + [j]) < Unlisted(mk, listed)
  {
    var before := set i: nat | i < |mk.targets| && i !in listed;
    assert (set i: nat | i < |mk.targets| && i !in listed + [j]) == before - {j};
  }

  /** The targets listed after dependency `k` of target `i`: a target that is new
      and not strictly older is listed, then what it depends on. */
  function OrderStep(mk: Makefile, files: Files, listed: seq<nat>, i: nat, k: nat): (r: seq<nat>)
    requires i < |mk.targets| && k < |mk.targets[i].deps|
    ensures listed <= r
    decreases Unlisted(mk, listed), |mk.targets[i].deps| - k, 0
  {
    var j := Dependency(mk, i, k);
    if j == -1 || j in listed || IsOlder(files, mk.targets[j].name, mk.targets[i].name) then listed
    else
      ListingOneShrinks(mk, listed, j);
      Order(mk, files, listed + [j], j, 0)
  }

  /** The targets listed after the dependencies of target `i` from `k` on. */
  function Order(mk: Makefile, files: Files, listed: seq<nat>, i: nat, k: nat): (r: seq<nat>)
    requires i < |mk.targets| && k <= |mk.targets[i].deps|
    ensures listed <= r
    decreases Unlisted(mk, listed), |mk.targets[i].deps| - k, 1
  {
    if k == |mk.targets[i].deps| then listed
    else
      var more := OrderStep(mk, files, listed, i, k);
      ListingShrinks(mk, listed, more);
      Order(mk, files, more, i, k + 1)
  }

  /** The depth-first order of the targets from the root. */
  function Preorder(mk: Makefile, files: Files): seq<nat>
    requires mk.root < |mk.targets|
  {
    Order(mk, files, [], mk.root, 0)
  }

  ghost predicate ComesAfter(order: seq<nat>, i: nat, j: nat) {
    exists a, b :: 0 <= a < b < |order| && order[a] == i && order[b] == j
  }

  /** When every followed dependency is listed, nothing is added. */
  lemma {:induction false} AllListed(mk: Makefile, files: Files, listed: seq<nat>, i: nat, k: nat)
    requires i < |mk.targets| && k <= |mk.targets[i].deps|
    requires forall j | Follows(mk, Under(files), i, j) :: j in listed
    ensures Order(mk, files, listed, i, k) == listed
    decreases |mk.targets[i].deps| - k
  {
    if k < |mk.targets[i].deps| {
      var j := Dependency(mk, i, k);
      if j != -1 && !IsOlder(files, mk.targets[j].name, mk.targets[i].name) {
        assert Follows(mk, Under(files), i, j);
      }
      AllListed(mk, files, listed, i, k + 1);
    }
  }

  // ---------------------------------------------------------------- what is listed

  ghost predicate ListsOnce(order: seq<nat>) {
    forall a, b | 0 <= a < |order| && 0 <= b < |order| && order[a] == order[b] :: a == b
  }

  /** Every listed target is one the root leads to. */
  ghost predicate ListsLedTo(mk: Makefile, files: Files, order: seq<nat>) {
    forall j | j in order :: Leads(mk, Under(files), mk.root, j)
  }

  /** What a listed target leads to in one step is listed, if it is not open. */
  ghost predicate ClosedBut(mk: Makefile, files: Files, order: seq<nat>, open: set<nat>) {
    forall i: nat, j: nat | Follows(mk, Under(files), i, j) && i in order && i !in open :: j in order
  }

  /** The first `k` dependencies of `i` are listed, if they are followed. */
  ghost predicate ListedUpTo(mk: Makefile, files: Files, order: seq<nat>, i: nat, k: nat)
    requires i < |mk.targets| && k <= |mk.targets[i].deps|
  {
    forall n | 0 <= n < k && Dependency(mk, i, n) != -1 ::
      !IsOlder(files, mk.targets[i].deps[n], mk.targets[i].name) ==> Dependency(mk, i, n) in order
  }

  ghost predicate ListedSoFar(mk: Makefile, files: Files, order: seq<nat>, open: set<nat>) {
    ListsOnce(order) && ListsLedTo(mk, files, order) && ClosedBut(mk, files, order, open)
  }

  lemma ListedStays(mk: Makefile, files: Files, order: seq<nat>, more: seq<nat>, i: nat, k: nat)
    requires i < |mk.targets| && k <= |mk.targets[i].deps| && order <= more && ListedUpTo(mk, files, order, i, k)
    ensures ListedUpTo(mk, files, more, i, k)
  {
    forall j | j in order
      ensures j in more
    {
      var n :| 0 <= n < |order| && order[n] == j;
      assert more[n] == j;
    }
  }

  lemma LedOn(mk: Makefile, files: Files, i: nat, j: nat)
    requires i == mk.root || Leads(mk, Under(files), mk.root, i)
    requires Follows(mk, Under(files), i, j)
    ensures Leads(mk, Under(files), mk.root, j)
  {
    if Leads(mk, Under(files), mk.root, i) {
      LeadsOn(mk, Under(files), mk.root, i, j);
    } else {
      LeadsOneStep(mk, Under(files), i, j);
    }
  }

  lemma {:induction false} OrderStepLists(mk: Makefile, files: Files, listed: seq<nat>, i: nat, k: nat, open: set<nat>)
    requires i < |mk.targets| && k < |mk.targets[i].deps| && i in open
    requires i == mk.root || Leads(mk, Under(files), mk.root, i)
    requires ListedSoFar(mk, files, listed, open) && ListedUpTo(mk, files, listed, i, k)
    ensures var r := OrderStep(mk, files, listed, i, k);
            ListedSoFar(mk, files, r, open) && ListedUpTo(mk, files, r, i, k + 1)
    decreases Unlisted(mk, listed), |mk.targets[i].deps| - k, 0
  {
    var j := Dependency(mk, i, k);
    var r := OrderStep(mk, files, listed, i, k);
    ListedStays(mk, files, listed, r, i, k);
    if j != -1 && j !in listed && !IsOlder(files, mk.targets[j].name, mk.targets[i].name) {
      assert Follows(mk, Under(files), i, j);
      LedOn(mk, files, i, j);
      ListingOneShrinks(mk, listed, j);
      OrderLists(mk, files, listed + [j], j, 0, open);
      assert r[|listed|] == (listed + [j])[|listed|];
    }
  }

  lemma {:induction false} OrderLists(mk: Makefile, files: Files, listed: seq<nat>, i: nat, k: nat, open: set<nat>)
    requires i < |mk.targets| && k <= |mk.targets[i].deps|
    requires i == mk.root || Leads(mk, Under(files), mk.root, i)
    requires ListedSoFar(mk, files, listed, open + {i}) && ListedUpTo(mk, files, listed, i, k)
    ensures var r := Order(mk, files, listed, i, k);
            ListedSoFar(mk, files, r, open) && ListedUpTo(mk, files, r, i, |mk.targets[i].deps|)
    decreases Unlisted(mk, listed), |mk.targets[i].deps| - k, 1
  {
    if k == |mk.targets[i].deps| {
      ListedCloses(mk, files, listed, i, open);
    } else {
      var more := OrderStep(mk, files, listed, i, k);
      ListingShrinks(mk, listed, more);
      OrderStepLists(mk, files, listed, i, k, open + {i});
      OrderLists(mk, files, more, i, k + 1, open);
    }
  }

  /** All of its dependencies are dealt with: the target is no longer open. */
  lemma ListedCloses(mk: Makefile, files: Files, order: seq<nat>, i: nat, open: set<nat>)
    requires i < |mk.targets| && ListedUpTo(mk, files, order, i, |mk.targets[i].deps|)
    requires ClosedBut(mk, files, order, open + {i})
    ensures ClosedBut(mk, files, order, open)
  {
    forall a: nat, b: nat | Follows(mk, Under(files), a, b) && a in order && a !in open
      ensures b in order
    {
      if a == i {
        var k :| 0 <= k < |mk.targets[i].deps| && Dependency(mk, i, k) == b;
      }
    }
  }

  /** The order against the graph: it lists exactly the targets the root leads to
      along edges not strictly older before the build, each of them once. */
  lemma PreorderIsExact(mk: Makefile, files: Files)
    requires mk.root < |mk.targets|
    ensures ListsOnce(Preorder(mk, files))
    ensures forall j: nat :: j in Preorder(mk, files) <==> Leads(mk, Under(files), mk.root, j)
  {
    var order := Preorder(mk, files);
    OrderLists(mk, files, [], mk.root, 0, {});
    forall j: nat | Leads(mk, Under(files), mk.root, j)
      ensures j in order
    {
      var path :| LeadsAlong(mk, Under(files), mk.root, j, path);
      forall b | Follows(mk, Under(files), mk.root, b)
        ensures b in order
      {
        var k :| 0 <= k < |mk.targets[mk.root].deps| && Dependency(mk, mk.root, k) == b;
      }
      ClosedHoldsAll(mk, Under(files), mk.root, j, path, set b: nat | b in order);
    }
  }

  // ---------------------------------------------------------------- the calls

  /** main's call on the copy of the root, then one call on each entry listed. */
  function CallsOf(order: seq<nat>): (calls: seq<Ref>)
    ensures |calls| == |order| + 1 && calls[0] == Copy
    ensures forall n | 0 <= n < |order| :: calls[n + 1] == Entry(order[n])
  {
    [Copy] + seq(|order|, n requires 0 <= n < |order| => Entry(order[n]))
  }

  lemma CallListed(order: seq<nat>, j: nat)
    ensures Entry(j) in CallsOf(order) <==> j in order
  {
    if j in order {
      var n :| 0 <= n < |order| && order[n] == j;
      assert CallsOf(order)[n + 1] == Entry(j);
    }
  }

  lemma OneMoreCall(order: seq<nat>, j: nat)
    ensures CallsOf(order + [j]) == CallsOf(order) + [Entry(j)]
  {}

  lemma CallsOfGrow(order: seq<nat>, more: seq<nat>)
    requires order <= more
    ensures CallsOf(order) <= CallsOf(more)
  {}

  /** A successful turn or call has made exactly the calls listed, and one that
      failed a first part of them. */
  ghost predicate CallsFollow(ok: bool, calls: seq<Ref>, order: seq<nat>) {
    calls <= CallsOf(order) && (ok ==> calls == CallsOf(order))
  }

  /** The entry of a dependency was called exactly if it was touched. */
  lemma ListedIsTouched(mk: Makefile, files: Files, w: World, p: Ref, j: nat, listed: seq<nat>)
    requires Going(mk, files, w, p) && j < |mk.targets| && j != Index(mk, p) && w.calls == CallsOf(listed)
    ensures j in listed <==> w.status[j] != Unfinished
  {
    CallListed(listed, j);
  }

  lemma {:induction false} StepFollowsOrder(
      mk: Makefile, files: Files, w: World, p: Ref, k: nat, older: map<nat, Files>, depth: nat, listed: seq<nat>)
    requires Going(mk, files, w, p) && Comparable(mk, w, p) && k < |TargetOf(mk, p).deps|
    requires w.calls == CallsOf(listed)
    ensures var t := Step(mk, w, p, k, older, depth);
            CallsFollow(t.ok, t.world.calls, OrderStep(mk, files, listed, Index(mk, p), k))
    decreases Open(w.status), Rank(w, p), 0, |TargetOf(mk, p).deps| - k, 0
  {
    var i := Index(mk, p);
    var j := Dependency(mk, i, k);
    if j != -1 {
      ListedIsTouched(mk, files, w, p, j, listed);
      if w.status[j] == Unfinished {
        ComparesAsBefore(mk, files, w, p, j);
        if !IsOlder(w.files, mk.targets[j].name, TargetOf(mk, p).name) {
          assert Follows(mk, Under(files), i, j);
          ReadyToDescend(mk, files, w, p, j);
          MarkingCloses(w, p, NeedsBuilding);
          BuildFollowsOrder(mk, files, SetStatus(w, p, NeedsBuilding), j, listed);
        }
      }
    }
  }

  lemma {:induction false} LoopFollowsOrder(
      mk: Makefile, files: Files, w: World, p: Ref, k: nat, older: map<nat, Files>, depth: nat, listed: seq<nat>)
    requires Going(mk, files, w, p) && (p.Entry? || !RootOnCycle(mk, files)) && k <= |TargetOf(mk, p).deps|
    requires ExpandedUpTo(mk, files, Index(mk, p), k, w.status) && w.calls == CallsOf(listed)
    ensures var r := Loop(mk, w, p, k, older, depth);
            CallsFollow(r.ok, r.world.calls, Order(mk, files, listed, Index(mk, p), k))
    decreases Open(w.status), Rank(w, p), 0, |TargetOf(mk, p).deps| - k, 1
  {
    if k == |TargetOf(mk, p).deps| {
      NothingFollows(mk, files, w, p, k, older, depth, listed);
    } else {
      var t := Step(mk, w, p, k, older, depth);
      var more := OrderStep(mk, files, listed, Index(mk, p), k);
      MeasureFalls(w, t.world, p);
      AlwaysComparable(mk, files, w, p);
      StepVisits(mk, files, w, p, k, older, depth);
      StepFollowsOrder(mk, files, w, p, k, older, depth, listed);
      if t.ok {
        LoopFollowsOrder(mk, files, t.world, p, k + 1, t.older, t.depth, more);
      }
      TurnFollowsOrder(mk, files, w, p, k, older, depth, listed);
    }
  }

  lemma NothingFollows(
      mk: Makefile, files: Files, w: World, p: Ref, k: nat, older: map<nat, Files>, depth: nat, listed: seq<nat>)
    requires InRange(mk, w, p) && k == |TargetOf(mk, p).deps| && w.calls == CallsOf(listed)
    ensures var r := Loop(mk, w, p, k, older, depth);
            CallsFollow(r.ok, r.world.calls, Order(mk, files, listed, Index(mk, p), k))
  {}

  /** A turn and what comes after it. */
  lemma TurnFollowsOrder(
      mk: Makefile, files: Files, w: World, p: Ref, k: nat, older: map<nat, Files>, depth: nat, listed: seq<nat>)
    requires InRange(mk, w, p) && k < |TargetOf(mk, p).deps|
    requires var t := Step(mk, w, p, k, older, depth);
             var more := OrderStep(mk, files, listed, Index(mk, p), k);
             && CallsFollow(t.ok, t.world.calls, more)
             && (t.ok ==>
                   var r := Loop(mk, t.world, p, k + 1, t.older, t.depth);
                   CallsFollow(r.ok, r.world.calls, Order(mk, files, more, Index(mk, p), k + 1)))
    ensures var r := Loop(mk, w, p, k, older, depth);
            CallsFollow(r.ok, r.world.calls, Order(mk, files, listed, Index(mk, p), k))
  {
    var more := OrderStep(mk, files, listed, Index(mk, p), k);
    LoopUnfolds(mk, w, p, k, older, depth);
    CallsOfGrow(more, Order(mk, files, more, Index(mk, p), k + 1));
  }

  lemma {:induction false} BuildFollowsOrder(mk: Makefile, files: Files, w: World, j: nat, listed: seq<nat>)
    requires Callable(mk, files, w, Entry(j)) && w.calls == CallsOf(listed)
    ensures var r := BuildFrom(mk, w, Entry(j));
            CallsFollow(r.ok, r.world.calls, Order(mk, files, listed + [j], j, 0))
    decreases Open(w.status), Rank(w, Entry(j)), 1, 0, 0
  {
    CalledIsGoing(mk, files, w, Entry(j));
    OneMoreCall(listed, j);
    if |mk.targets[j].deps| == 0 {
      LeafFollowsOrder(mk, files, w, j, listed);
    } else {
      LoopFollowsOrder(mk, files, w.(calls := w.calls + [Entry(j)]), Entry(j), 0, map[], 1, listed + [j]);
    }
  }

  lemma LeafFollowsOrder(mk: Makefile, files: Files, w: World, j: nat, listed: seq<nat>)
    requires InRange(mk, w, Entry(j)) && mk.targets[j].deps == [] && w.calls == CallsOf(listed)
    ensures var r := BuildFrom(mk, w, Entry(j));
            CallsFollow(r.ok, r.world.calls, Order(mk, files, listed + [j], j, 0))
  {
    OneMoreCall(listed, j);
  }

  /** When the root is on no cycle that is followed, build calls itself in exactly
      this order: on all of it if it succeeds, on a first part if it fails. */
  lemma CallsAreInOrder(mk: Makefile, files: Files)
    requires Calm(mk) && !RootOnCycle(mk, files)
    ensures var r := Make(mk, files); CallsFollow(r.ok, r.world.calls, Preorder(mk, files))
  {
    var w := Start(mk, files);
    var called := w.(calls := w.calls + [Copy]);
    CalledIsGoing(mk, files, w, Copy);
    assert called.calls == CallsOf([]);
    if mk.targets[mk.root].deps != [] {
      LoopFollowsOrder(mk, files, called, Copy, 0, map[], 1, []);
    }
  }
}
