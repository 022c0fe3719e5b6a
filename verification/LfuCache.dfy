// The content cache: a table of entries, least frequently used replacement,
// and the heap buffers the entries point to.

module LfuCache {

  type Byte = b: int | 0 <= b < 256
  type Bytes = seq<Byte>

  /** A cache entry; `addr` is the content pointer. */
  datatype Entry = Entry(len: nat, name: string, addr: nat, freq: nat)

  /** The fields of the cache structure together with the live heap buffers. */
  datatype Cache = Cache(next: nat, num: nat, size: nat, entries: seq<Entry>, heap: map<nat, Bytes>)

  /** Occupied slots own pairwise distinct live buffers of the recorded length. */
  ghost predicate Owned(c: Cache)
    requires c.num <= |c.entries|
  {
    && (forall i | 0 <= i < c.num :: c.entries[i].addr in c.heap && c.entries[i].len == |c.heap[c.entries[i].addr]|)
    && (forall i, j | 0 <= i < j < c.num :: c.entries[i].addr != c.entries[j].addr)
  }

  ghost predicate CacheOk(c: Cache) {
    && 0 < c.size == |c.entries|
    && c.num <= c.size
    && c.next == c.num % c.size
    && Owned(c)
  }

  /** The bytes behind an occupied slot. */
  function Content(c: Cache, i: nat): Bytes
    requires i < |c.entries| && c.entries[i].addr in c.heap
  {
    c.heap[c.entries[i].addr]
  }

  /** The buffers owned by the first `n` entries. */
  ghost function Buffers(entries: seq<Entry>, n: nat): set<nat>
    requires n <= |entries|
  {
    set i | 0 <= i < n :: entries[i].addr
  }

  // ---------------------------------------------------------------- lookup

  /** `i` is the lowest of the first `n` slots holding `name`, or -1 when there is none. */
  ghost predicate IsLowestMatch(entries: seq<Entry>, n: nat, name: string, i: int)
    requires n <= |entries|
  {
    && -1 <= i < n
    && (i == -1 ==> forall j | 0 <= j < n :: entries[j].name != name)
    && (i >= 0 ==> entries[i].name == name && forall j | 0 <= j < i :: entries[j].name != name)
  }

  function Find(entries: seq<Entry>, n: nat, name: string): (i: int)
    requires n <= |entries|
    ensures IsLowestMatch(entries, n, name, i)
  {
    if n == 0 then -1
    else
      var earlier := Find(entries, n - 1, name);
      if earlier != -1 then earlier
      else if entries[n - 1].name == name then n - 1
      else -1
  }

  /** The index a lookup returns. */
  function Resolve(c: Cache, name: string): int
    requires c.num <= |c.entries|
  {
    Find(c.entries, c.num, name)
  }

  /** The cache after a lookup: a hit counts one use. */
  function AfterLookup(c: Cache, name: string): Cache
    requires c.num <= |c.entries|
  {
    var i := Resolve(c, name);
    if i == -1 then c
    else c.(entries := c.entries[i := c.entries[i].(freq := c.entries[i].freq + 1)])
  }

  // ---------------------------------------------------------------- insertion

  /** `v` is the lowest slot among those used least. */
  ghost predicate IsLeastUsed(entries: seq<Entry>, v: nat) {
    && v < |entries|
    && (forall j | 0 <= j < |entries| :: entries[v].freq <= entries[j].freq)
    && (forall j | 0 <= j < v :: entries[v].freq < entries[j].freq)
  }

  function LeastUsed(entries: seq<Entry>): (v: nat)
    requires entries != []
    ensures IsLeastUsed(entries, v)
  {
    if |entries| == 1 then 0
    else
      var v := LeastUsed(entries[..|entries| - 1]);
      if entries[|entries| - 1].freq < entries[v].freq then |entries| - 1 else v
  }

  lemma LeastUsedIsUnique(entries: seq<Entry>, v: nat, u: nat)
    requires IsLeastUsed(entries, v) && IsLeastUsed(entries, u)
    ensures v == u
  {
    assert entries[v].freq == entries[u].freq;
  }

  /** The slot an insertion writes. */
  function Target(c: Cache): nat
    requires c.entries != []
  {
    if c.num != c.size then c.next else LeastUsed(c.entries)
  }

  function NewEntry(name: string, content: Bytes, addr: nat): Entry {
    Entry(|content|, name, addr, 0)
  }

  /** The cache after an insertion whose content was copied to the new buffer `addr`. */
  function AfterInsert(c: Cache, name: string, content: Bytes, addr: nat): Cache
    requires 0 < c.size == |c.entries| && c.next < c.size && c.num <= c.size
  {
    var i := Target(c);
    var entries := c.entries[i := NewEntry(name, content, addr)];
    if c.num != c.size then
      Cache((c.next + 1) % c.size, c.num + 1, c.size, entries, c.heap[addr := content])
    else
      c.(entries := entries, heap := c.heap[addr := content] - {c.entries[i].addr})
  }

  // ---------------------------------------------------------------- what they keep

  lemma NextSlot(num: nat, size: nat)
    requires 0 < size && num <= size
    ensures num < size ==> num % size == num && (num + 1) % size == (num % size + 1) % size
    ensures num == size ==> num % size == 0
  {
    assert size == 1 * size + 0;
  }

  lemma LookupKeepsOk(c: Cache, name: string)
    requires CacheOk(c)
    ensures CacheOk(AfterLookup(c, name))
    ensures forall i | 0 <= i < c.num ::
              && AfterLookup(c, name).entries[i].name == c.entries[i].name
              && Content(AfterLookup(c, name), i) == Content(c, i)
  {}

  lemma InsertKeepsOk(c: Cache, name: string, content: Bytes, addr: nat)
    requires CacheOk(c) && addr !in c.heap
    ensures CacheOk(AfterInsert(c, name, content, addr))
    ensures c.num <= AfterInsert(c, name, content, addr).num
  {
    NextSlot(c.num, c.size);
  }

  /** An insertion stores exactly the given content in its slot and leaves the
      name, content and use count of every other occupied slot as they were. */
  lemma InsertEffect(c: Cache, name: string, content: Bytes, addr: nat)
    requires CacheOk(c) && addr !in c.heap
    ensures var d := AfterInsert(c, name, content, addr);
            var v := Target(c);
            && CacheOk(d)
            && v < d.num
            && (v == c.num < c.size || (c.num == c.size && IsLeastUsed(c.entries, v)))
            && d.entries[v].name == name && d.entries[v].freq == 0 && Content(d, v) == content
            && (forall i | 0 <= i < c.num && i != v :: d.entries[i] == c.entries[i] && Content(d, i) == Content(c, i))
            && d.heap.Keys == (c.heap.Keys + {addr}) - (if c.num == c.size then {c.entries[v].addr} else {})
  {
    NextSlot(c.num, c.size);
    InsertKeepsOk(c, name, content, addr);
  }

  // ---------------------------------------------------------------- the program's cache

  /** However many buffers are live, some address is free. */
  lemma {:induction false} HasUnused(used: set<nat>)
    ensures exists a: nat :: a !in used
  {
    var bound := AllBelow(used);
    assert bound !in used;
  }

  lemma {:induction false} AllBelow(used: set<nat>) returns (bound: nat)
    ensures forall a | a in used :: a < bound
  {
    if used == {} {
      bound := 0;
    } else {
      var a :| a in used;
      var rest := AllBelow(used - {a});
      bound := if rest <= a then a + 1 else rest;
      assert forall b | b in used :: b == a || b in used - {a};
    }
  }

  /** The C heap as the cache code sees it. */
  class Heap {
    var live: map<nat, Bytes>

    constructor ()
      ensures live == map[]
    {
      live := map[];
    }

    /** malloc and memcpy: any address not in use may be handed out. */
    method Malloc(content: Bytes) returns (addr: nat)
      modifies this
      ensures addr !in old(live) && live == old(live)[addr := content]
    {
      HasUnused(live.Keys);
      addr :| addr !in live;
      live := live[addr := content];
    }

    /** free: only a live buffer may be freed, so no buffer is freed twice. */
    method Free(addr: nat)
      requires addr in live
      modifies this
      ensures live == old(live) - {addr}
    {
      live := live - {addr};
    }
  }

  class ContentCache {
    var nextSlotToStore: nat
    var numCacheEntries: nat
    var cacheSize: nat
    var entries: array<Entry>
    const heap: Heap

    function Fields(): Cache
      reads this, heap, entries
    {
      Cache(nextSlotToStore, numCacheEntries, cacheSize, entries[..], heap.live)
    }

    ghost predicate Valid()
      reads this, heap, entries
    {
      CacheOk(Fields())
    }

    constructor (cacheEntries: nat, heap: Heap, blank: Entry)
      requires 1 <= cacheEntries
      ensures Valid() && this.heap == heap && fresh(entries)
      ensures numCacheEntries == 0 && cacheSize == cacheEntries
    {
      nextSlotToStore := 0;
      numCacheEntries := 0;
      cacheSize := cacheEntries;
      entries := new Entry[cacheEntries](_ => blank);
      this.heap := heap;
    }

    /** Linear search; a hit counts one use of the lowest matching slot. */
    method GetCacheIndex(request: string) returns (index: int)
      requires Valid()
      modifies entries
      ensures Valid() && heap.live == old(heap.live)
      ensures IsLowestMatch(old(entries[..]), numCacheEntries, request, index)
      ensures index == Resolve(old(Fields()), request)
      ensures Fields() == AfterLookup(old(Fields()), request)
    {
      ghost var before := Fields();
      LookupKeepsOk(before, request);
      var i := 0;
      while i < numCacheEntries
        invariant 0 <= i <= numCacheEntries
        invariant entries[..] == before.entries
        invariant Find(before.entries, i, request) == -1
      {
        var entry := entries[i];
        if entry.name == request {
          FoundAt(before.entries, numCacheEntries, request, i);
          entries[i] := entry.(freq := entry.freq + 1);
          assert Fields() == AfterLookup(before, request);
          return i;
        }
        i := i + 1;
      }
      return -1;
    }

    /** Fills the next free slot, or replaces the least used entry and frees its buffer. */
    method AddIntoCache(request: string, memory: Bytes) returns (addr: nat)
      requires Valid()
      modifies this, heap, entries
      ensures Valid() && entries == old(entries)
      ensures addr !in old(heap.live)
      ensures Fields() == AfterInsert(old(Fields()), request, memory, addr)
    {
      ghost var before := Fields();
      addr := heap.Malloc(memory);
      InsertKeepsOk(before, request, memory, addr);
      NextSlot(numCacheEntries, cacheSize);
      var newEntry := Entry(|memory|, request, addr, 0);
      if numCacheEntries != cacheSize {
        entries[nextSlotToStore] := newEntry;
        numCacheEntries := numCacheEntries + 1;
        nextSlotToStore := (nextSlotToStore + 1) % cacheSize;
        assert Fields() == AfterInsert(before, request, memory, addr);
      } else {
        var evict := entries[0];
        var evictIndex := 0;
        var i := 1;
        while i < cacheSize
          invariant 1 <= i <= cacheSize
          invariant evictIndex < i && evict == entries[evictIndex]
          invariant entries[..] == before.entries
          invariant forall j | 0 <= j < i :: evict.freq <= entries[j].freq
          invariant forall j | 0 <= j < evictIndex :: evict.freq < entries[j].freq
        {
          if entries[i].freq < evict.freq {
            evict := entries[i];
            evictIndex := i;
          }
          i := i + 1;
        }
        LeastUsedIsUnique(before.entries, evictIndex, LeastUsed(before.entries));
        heap.Free(entries[evictIndex].addr);
        entries[evictIndex] := newEntry;
        assert Fields() == AfterInsert(before, request, memory, addr);
      }
    }

    /** Frees every cached buffer, each exactly once, and nothing else. */
    method DeleteCache()
      requires Valid()
      modifies heap
      ensures heap.live == old(heap.live) - Buffers(entries[..], numCacheEntries)
    {
      ghost var before := heap.live;
      var i := 0;
      while i < numCacheEntries
        invariant 0 <= i <= numCacheEntries
        invariant heap.live == before - Buffers(entries[..], i)
        invariant forall j | i <= j < numCacheEntries :: entries[j].addr in heap.live
      {
        assert Buffers(entries[..], i + 1) == Buffers(entries[..], i) + {entries[i].addr};
        heap.Free(entries[i].addr);
        i := i + 1;
      }
    }
  }

  /** A scan that found nothing in the first `i` slots and a match at `i` is the lookup. */
  lemma FoundAt(entries: seq<Entry>, n: nat, name: string, i: nat)
    requires i < n <= |entries|
    requires Find(entries, i, name) == -1 && entries[i].name == name
    ensures Find(entries, n, name) == i
  {}
}
