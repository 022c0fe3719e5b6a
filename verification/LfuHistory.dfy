// Whole runs of the cache: what the recorded history says about every slot,
// which slot goes next, and who owns the buffers.

module LfuHistory {
  import opened Counting
  import opened LfuCache
  import opened Options

  datatype Op =
    | Lookup(name: string)
    | Insert(name: string, content: Bytes, addr: nat)

  /** What an operation did, as an observer of the slots sees it. */
  datatype Effect = Hit(slot: nat) | Miss | Fill(slot: nat)

  /** malloc hands out a buffer that is not live. */
  ghost predicate Allowed(c: Cache, op: Op) {
    op.Insert? ==> op.addr !in c.heap
  }

  function Apply(c: Cache, op: Op): Cache
    requires 0 < c.size == |c.entries| && c.next < c.size && c.num <= c.size
  {
    match op
    case Lookup(name) => AfterLookup(c, name)
    case Insert(name, content, addr) => AfterInsert(c, name, content, addr)
  }

  function EffectOf(c: Cache, op: Op): Effect
    requires 0 < c.size == |c.entries| && c.num <= c.size
  {
    match op
    case Lookup(name) => if Resolve(c, name) == -1 then Miss else Hit(Resolve(c, name))
    case Insert(_, _, _) => Fill(Target(c))
  }

  lemma ApplyKeepsOk(c: Cache, op: Op)
    requires CacheOk(c) && Allowed(c, op)
    ensures CacheOk(Apply(c, op))
    ensures Apply(c, op).size == c.size && c.num <= Apply(c, op).num
  {
    match op
    case Lookup(name) => LookupKeepsOk(c, name);
    case Insert(name, content, addr) => InsertKeepsOk(c, name, content, addr);
  }

  /** The cache reached from `c` by `ops`, oldest first, and the effects on the way. */
  ghost predicate Runs(c: Cache, ops: seq<Op>, trace: seq<Effect>, d: Cache)
    requires CacheOk(c)
    decreases |ops|
  {
    if ops == [] then trace == [] && d == c
    else
      && Allowed(c, ops[0])
      && trace != [] && trace[0] == EffectOf(c, ops[0])
      && (ApplyKeepsOk(c, ops[0]); Runs(Apply(c, ops[0]), ops[1..], trace[1..], d))
  }

  /** The cache as initialised: every slot free, no buffer of its own. */
  ghost predicate IsFresh(c: Cache) {
    CacheOk(c) && c.num == 0
  }

  lemma {:induction false} RunsKeepOk(c: Cache, ops: seq<Op>, trace: seq<Effect>, d: Cache)
    requires CacheOk(c) && Runs(c, ops, trace, d)
    ensures CacheOk(d) && d.size == c.size && c.num <= d.num && |trace| == |ops|
    decreases |ops|
  {
    if ops != [] {
      ApplyKeepsOk(c, ops[0]);
      RunsKeepOk(Apply(c, ops[0]), ops[1..], trace[1..], d);
    }
  }

  lemma {:induction false} RunsExtend(c: Cache, ops: seq<Op>, trace: seq<Effect>, d: Cache, op: Op)
    requires CacheOk(c) && Runs(c, ops, trace, d) && CacheOk(d) && Allowed(d, op)
    ensures Runs(c, ops + [op], trace + [EffectOf(d, op)], Apply(d, op))
    decreases |ops|
  {
    if ops == [] {
      ApplyKeepsOk(c, op);
      assert (ops + [op])[1..] == [] && (trace + [EffectOf(d, op)])[1..] == [];
    } else {
      ApplyKeepsOk(c, ops[0]);
      RunsExtend(Apply(c, ops[0]), ops[1..], trace[1..], d, op);
      assert (ops + [op])[1..] == ops[1..] + [op];
      assert (trace + [EffectOf(d, op)])[1..] == trace[1..] + [EffectOf(d, op)];
    }
  }

  // ---------------------------------------------------------------- use counts

  /** The lookups that ended in slot `i` since it was last filled. */
  function HitsSinceFill(trace: seq<Effect>, i: nat): nat {
    if trace == [] then 0
    else
      var last := trace[|trace| - 1];
      if last == Fill(i) then 0
      else (if last == Hit(i) then 1 else 0) + HitsSinceFill(trace[..|trace| - 1], i)
  }

  /** Every use count is the number of hits since the slot was filled. */
  ghost predicate CountsHits(c: Cache, trace: seq<Effect>) {
    c.num <= |c.entries| && forall i | 0 <= i < c.num :: c.entries[i].freq == HitsSinceFill(trace, i)
  }

  lemma ApplyCountsHits(c: Cache, trace: seq<Effect>, op: Op)
    requires CacheOk(c) && CountsHits(c, trace) && Allowed(c, op)
    ensures CountsHits(Apply(c, op), trace + [EffectOf(c, op)])
  {
    ApplyKeepsOk(c, op);
    assert (trace + [EffectOf(c, op)])[..|trace|] == trace;
    if op.Insert? {
      InsertEffect(c, op.name, op.content, op.addr);
    }
  }

  lemma {:induction false} RunsCountHits(c: Cache, seen: seq<Effect>, ops: seq<Op>, trace: seq<Effect>, d: Cache)
    requires CacheOk(c) && Runs(c, ops, trace, d) && CountsHits(c, seen)
    ensures CountsHits(d, seen + trace)
    decreases |ops|
  {
    if ops == [] {
      assert seen + trace == seen;
    } else {
      ApplyKeepsOk(c, ops[0]);
      ApplyCountsHits(c, seen, ops[0]);
      RunsCountHits(Apply(c, ops[0]), seen + [trace[0]], ops[1..], trace[1..], d);
      assert seen + [trace[0]] + trace[1..] == seen + trace;
    }
  }

  /** LFU against history.  After any run of a fresh cache every use count is
      the number of hits since the slot was filled; and an insertion into the
      full cache goes to the lowest slot among those with fewest such hits,
      leaves every other entry and content unchanged, and frees exactly the
      buffer of the entry it replaces. */
  lemma ReplacesLeastUsedByHistory(
      c: Cache, ops: seq<Op>, trace: seq<Effect>, d: Cache, name: string, content: Bytes, addr: nat)
    requires IsFresh(c) && Runs(c, ops, trace, d) && addr !in d.heap
    ensures CacheOk(d) && CountsHits(d, trace)
    ensures d.num == d.size ==>
              var v := Target(d);
              var e := AfterInsert(d, name, content, addr);
              && CacheOk(e) && v < d.size
              && (forall j | 0 <= j < d.size :: HitsSinceFill(trace, v) <= HitsSinceFill(trace, j))
              && (forall j | 0 <= j < v :: HitsSinceFill(trace, v) < HitsSinceFill(trace, j))
              && (forall j | 0 <= j < d.size && j != v ::
                    e.entries[j] == d.entries[j] && Content(e, j) == Content(d, j))
              && e.entries[v].name == name && Content(e, v) == content
              && e.heap.Keys == (d.heap.Keys + {addr}) - {d.entries[v].addr}
  {
    RunsKeepOk(c, ops, trace, d);
    RunsCountHits(c, [], ops, trace, d);
    assert [] + trace == trace;
    InsertEffect(d, name, content, addr);
  }

  // ---------------------------------------------------------------- slots and effects by history

  /** The operation that last filled slot `i`. */
  function LastFill(ops: seq<Op>, trace: seq<Effect>, i: nat): Option<Op>
    requires |ops| == |trace|
  {
    if trace == [] then None
    else
      var k := |trace| - 1;
      if trace[k] == Fill(i) then Some(ops[k]) else LastFill(ops[..k], trace[..k], i)
  }

  /** Slot `i` was last filled for `name`. */
  predicate FilledFor(ops: seq<Op>, trace: seq<Effect>, i: nat, name: string)
    requires |ops| == |trace|
  {
    LastFill(ops, trace, i).Some? && LastFill(ops, trace, i).value.name == name
  }

  /** Every occupied slot has the name and the content of the insertion that last
      filled it, and no other slot was ever filled. */
  ghost predicate HoldsLastFills(c: Cache, ops: seq<Op>, trace: seq<Effect>)
    requires CacheOk(c) && |ops| == |trace|
  {
    && (forall i: nat :: LastFill(ops, trace, i).Some? <==> i < c.num)
    && (forall i | 0 <= i < c.num ::
          var op := LastFill(ops, trace, i).value;
          op.Insert? && c.entries[i].name == op.name && Content(c, i) == op.content)
  }

  lemma LastFillGrows(ops: seq<Op>, trace: seq<Effect>, op: Op, effect: Effect, i: nat)
    requires |ops| == |trace|
    ensures LastFill(ops + [op], trace + [effect], i) == if effect == Fill(i) then Some(op) else LastFill(ops, trace, i)
  {
    assert (ops + [op])[..|ops|] == ops && (trace + [effect])[..|ops|] == trace;
  }

  lemma ApplyHoldsLastFills(c: Cache, ops: seq<Op>, trace: seq<Effect>, op: Op)
    requires CacheOk(c) && |ops| == |trace| && HoldsLastFills(c, ops, trace) && Allowed(c, op)
    ensures CacheOk(Apply(c, op)) && HoldsLastFills(Apply(c, op), ops + [op], trace + [EffectOf(c, op)])
  {
    ApplyKeepsOk(c, op);
    forall i: nat
      ensures LastFill(ops + [op], trace + [EffectOf(c, op)], i)
           == if EffectOf(c, op) == Fill(i) then Some(op) else LastFill(ops, trace, i)
    {
      LastFillGrows(ops, trace, op, EffectOf(c, op), i);
    }
    match op
    case Lookup(name) => LookupKeepsOk(c, name);
    case Insert(name, content, addr) => InsertEffect(c, name, content, addr);
  }

  lemma {:induction false} RunsHoldLastFills(
      c: Cache, seenOps: seq<Op>, seen: seq<Effect>, ops: seq<Op>, trace: seq<Effect>, d: Cache)
    requires CacheOk(c) && |seenOps| == |seen| && HoldsLastFills(c, seenOps, seen) && Runs(c, ops, trace, d)
    ensures CacheOk(d) && |ops| == |trace| && HoldsLastFills(d, seenOps + ops, seen + trace)
    decreases |ops|
  {
    if ops == [] {
      assert seenOps + ops == seenOps && seen + trace == seen;
    } else {
      ApplyHoldsLastFills(c, seenOps, seen, ops[0]);
      RunsHoldLastFills(Apply(c, ops[0]), seenOps + [ops[0]], seen + [trace[0]], ops[1..], trace[1..], d);
      assert seenOps + [ops[0]] + ops[1..] == seenOps + ops && seen + [trace[0]] + trace[1..] == seen + trace;
    }
  }

  /** The slots after a run of a fresh cache hold what history says. */
  lemma SlotsHoldLastFills(c: Cache, ops: seq<Op>, trace: seq<Effect>, d: Cache)
    requires IsFresh(c) && Runs(c, ops, trace, d)
    ensures CacheOk(d) && |ops| == |trace| && HoldsLastFills(d, ops, trace)
  {
    RunsHoldLastFills(c, [], [], ops, trace, d);
    assert [] + ops == ops && [] + trace == trace;
  }

  /** Among `size` slots, what `op` must do after the operations `ops` with the
      effects `trace`.  A lookup hits the lowest slot last filled for its name and
      misses if there is none.  An insertion goes to the lowest slot never
      filled, or else to the lowest of those with fewest hits since their fill. */
  ghost predicate Explains(size: nat, ops: seq<Op>, trace: seq<Effect>, op: Op, effect: Effect)
    requires |ops| == |trace|
  {
    match op
    case Lookup(name) =>
      if effect.Hit? then
        && effect.slot < size && FilledFor(ops, trace, effect.slot, name)
        && forall j: nat | j < effect.slot :: !FilledFor(ops, trace, j, name)
      else
        effect == Miss && forall j: nat :: !FilledFor(ops, trace, j, name)
    case Insert(_, _, _) =>
      && effect.Fill? && effect.slot < size
      && (forall j: nat | j < effect.slot :: LastFill(ops, trace, j).Some?)
      && (LastFill(ops, trace, effect.slot).Some? ==>
            && (forall j: nat | j < size :: LastFill(ops, trace, j).Some?)
            && (forall j: nat | j < size :: HitsSinceFill(trace, effect.slot) <= HitsSinceFill(trace, j))
            && (forall j: nat | j < effect.slot :: HitsSinceFill(trace, effect.slot) < HitsSinceFill(trace, j)))
  }

  lemma NextIsExplained(c: Cache, ops: seq<Op>, trace: seq<Effect>, op: Op)
    requires CacheOk(c) && |ops| == |trace| && HoldsLastFills(c, ops, trace) && CountsHits(c, trace) && Allowed(c, op)
    ensures Explains(c.size, ops, trace, op, EffectOf(c, op))
  {
    if op.Insert? {
      InsertEffect(c, op.name, op.content, op.addr);
    }
  }

  lemma {:induction false} RunsSplit(c: Cache, ops: seq<Op>, trace: seq<Effect>, d: Cache, k: nat) returns (m: Cache)
    requires CacheOk(c) && Runs(c, ops, trace, d) && k < |ops|
    ensures CacheOk(m) && m.size == c.size && |trace| == |ops|
    ensures Runs(c, ops[..k], trace[..k], m) && Allowed(m, ops[k]) && trace[k] == EffectOf(m, ops[k])
    decreases k
  {
    RunsKeepOk(c, ops, trace, d);
    if k == 0 {
      m := c;
    } else {
      ApplyKeepsOk(c, ops[0]);
      m := RunsSplit(Apply(c, ops[0]), ops[1..], trace[1..], d, k - 1);
      assert ops[..k][1..] == ops[1..][..k - 1] && trace[..k][1..] == trace[1..][..k - 1];
    }
  }

  /** The whole behaviour of the cache, told by its operations alone: every effect
      of a run of a fresh cache is the one the earlier operations call for. */
  lemma EffectsFollowHistory(c: Cache, ops: seq<Op>, trace: seq<Effect>, d: Cache, k: nat)
    requires IsFresh(c) && Runs(c, ops, trace, d) && k < |ops|
    ensures |trace| == |ops| && Explains(c.size, ops[..k], trace[..k], ops[k], trace[k])
  {
    var m := RunsSplit(c, ops, trace, d, k);
    SlotsHoldLastFills(c, ops[..k], trace[..k], m);
    RunsCountHits(c, [], ops[..k], trace[..k], m);
    assert [] + trace[..k] == trace[..k];
    NextIsExplained(m, ops[..k], trace[..k], ops[k]);
  }

  // ---------------------------------------------------------------- the next victim

  /** One operation that does not hit the next victim `v` leaves it the next. */
  lemma VictimStaysOnce(c: Cache, op: Op, v: nat)
    requires CacheOk(c) && c.num == c.size && Allowed(c, op)
    requires v == LeastUsed(c.entries) && EffectOf(c, op) != Hit(v)
    ensures var d := Apply(c, op); CacheOk(d) && d.num == d.size && LeastUsed(d.entries) == v
    ensures EffectOf(c, op).Fill? ==> EffectOf(c, op).slot == v
  {
    ApplyKeepsOk(c, op);
    NextSlot(c.num, c.size);
    var entries := Apply(c, op).entries;
    LeastUsedIsUnique(entries, v, LeastUsed(entries));
  }

  /** Until slot `v` is hit, nothing but `v` is replaced. */
  lemma {:induction false} VictimStays(c: Cache, ops: seq<Op>, trace: seq<Effect>, d: Cache, v: nat)
    requires CacheOk(c) && c.num == c.size && Runs(c, ops, trace, d)
    requires v == LeastUsed(c.entries) && Hit(v) !in trace
    ensures CacheOk(d) && d.num == d.size && LeastUsed(d.entries) == v
    ensures forall k | 0 <= k < |trace| && trace[k].Fill? :: trace[k].slot == v
    decreases |ops|
  {
    if ops != [] {
      assert trace[0] in trace;
      VictimStaysOnce(c, ops[0], v);
      VictimStays(Apply(c, ops[0]), ops[1..], trace[1..], d, v);
    }
  }

  /** The slot just replaced in a full cache is replaced again by every later
      insertion, until a lookup hits it. */
  lemma ReplacedSlotIsNextVictim(
      c: Cache, name: string, content: Bytes, addr: nat, ops: seq<Op>, trace: seq<Effect>, d: Cache)
    requires CacheOk(c) && c.num == c.size && addr !in c.heap
    requires CacheOk(AfterInsert(c, name, content, addr))
    requires Runs(AfterInsert(c, name, content, addr), ops, trace, d)
    requires Hit(Target(c)) !in trace
    ensures CacheOk(d) && Target(d) == Target(c)
    ensures forall k | 0 <= k < |trace| && trace[k].Fill? :: trace[k].slot == Target(c)
  {
    var v := Target(c);
    var c' := AfterInsert(c, name, content, addr);
    LeastUsedIsUnique(c'.entries, v, LeastUsed(c'.entries));
    VictimStays(c', ops, trace, d, v);
  }

  /** The slots written by the insertions of a run. */
  ghost function Filled(trace: seq<Effect>): set<nat> {
    set k | 0 <= k < |trace| && trace[k].Fill? :: trace[k].slot
  }

  ghost function Hits(trace: seq<Effect>): nat {
    if trace == [] then 0 else (if trace[0].Hit? then 1 else 0) + Hits(trace[1..])
  }

  lemma FilledFirst(trace: seq<Effect>)
    requires trace != []
    ensures Filled(trace) == (if trace[0].Fill? then {trace[0].slot} else {}) + Filled(trace[1..])
  {}

  lemma {:induction false} FewSlotsReplacedAfter(c: Cache, ops: seq<Op>, trace: seq<Effect>, d: Cache)
    requires CacheOk(c) && c.num == c.size && Runs(c, ops, trace, d)
    ensures |Filled(trace) + {LeastUsed(c.entries)}| <= Hits(trace) + 1
    decreases |ops|
  {
    var v := LeastUsed(c.entries);
    if ops == [] {
      assert Filled(trace) + {v} == {v};
    } else {
      ApplyKeepsOk(c, ops[0]);
      FewSlotsReplacedAfter(Apply(c, ops[0]), ops[1..], trace[1..], d);
      FilledFirst(trace);
      var later, u := Filled(trace[1..]), LeastUsed(Apply(c, ops[0]).entries);
      if trace[0].Hit? {
        assert Filled(trace) == later;
        AddOne(later, v);
        SubsetSize(later, later + {u});
      } else {
        VictimStaysOnce(c, ops[0], v);
        assert Filled(trace) + {v} == later + {u};
      }
    }
  }

  lemma AddOne(s: set<nat>, v: nat)
    ensures |s + {v}| <= |s| + 1
  {}

  /** However many insertions follow once the cache is full, `h` hits among them
      let at most `h + 1` different slots be replaced. */
  lemma FewSlotsReplaced(c: Cache, ops: seq<Op>, trace: seq<Effect>, d: Cache)
    requires CacheOk(c) && c.num == c.size && Runs(c, ops, trace, d)
    ensures |Filled(trace)| <= Hits(trace) + 1
  {
    FewSlotsReplacedAfter(c, ops, trace, d);
    SubsetSize(Filled(trace), Filled(trace) + {LeastUsed(c.entries)});
  }

  // ---------------------------------------------------------------- buffers

  /** The live buffers are those of the occupied slots and `others`, without overlap. */
  ghost predicate OwnsAllBut(c: Cache, others: set<nat>)
    requires c.num <= |c.entries|
  {
    && c.heap.Keys == Buffers(c.entries, c.num) + others
    && Buffers(c.entries, c.num) !! others
  }

  lemma ApplyOwns(c: Cache, op: Op, others: set<nat>)
    requires CacheOk(c) && Allowed(c, op) && OwnsAllBut(c, others)
    ensures Apply(c, op).num <= |Apply(c, op).entries| && OwnsAllBut(Apply(c, op), others)
  {
    ApplyKeepsOk(c, op);
    var d := Apply(c, op);
    match op
    case Lookup(name) =>
      assert forall i | 0 <= i < c.num :: d.entries[i].addr == c.entries[i].addr;
      assert Buffers(d.entries, d.num) == Buffers(c.entries, c.num);
    case Insert(name, content, addr) =>
      InsertEffect(c, name, content, addr);
      var v := Target(c);
      var gone := if c.num == c.size then {c.entries[v].addr} else {};
      assert Buffers(d.entries, d.num) == Buffers(c.entries, c.num) - gone + {addr} by {
        forall a | a in Buffers(c.entries, c.num) - gone
          ensures a in Buffers(d.entries, d.num)
        {
          var i :| 0 <= i < c.num && c.entries[i].addr == a;
          assert d.entries[i].addr == a;
        }
        assert d.entries[v].addr == addr;
      }
  }

  /** Buffer ownership over a whole run: the cache leaks nothing and never
      touches a buffer it does not own, so freeing its entries at the end leaves
      exactly the buffers of others. */
  lemma {:induction false} RunsOwn(c: Cache, ops: seq<Op>, trace: seq<Effect>, d: Cache, others: set<nat>)
    requires CacheOk(c) && Runs(c, ops, trace, d) && OwnsAllBut(c, others)
    ensures CacheOk(d) && OwnsAllBut(d, others)
    ensures (d.heap - Buffers(d.entries, d.num)).Keys == others
    decreases |ops|
  {
    if ops != [] {
      ApplyKeepsOk(c, ops[0]);
      ApplyOwns(c, ops[0], others);
      RunsOwn(Apply(c, ops[0]), ops[1..], trace[1..], d, others);
    }
  }
}
