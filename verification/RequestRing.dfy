// The bounded request buffer shared by the dispatcher and worker threads.

module Requests {

  /** A request as the dispatcher received it: the connection and the file name
      asked for.  `id` numbers the accepted requests, because descriptors are
      reused once a connection is closed. */
  datatype Request = Request(id: nat, fd: int, name: string)
}

module RequestRing {
  import opened Requests

  /** The fields of the request queue structure. */
  datatype Ring = Ring(store: nat, service: nat, count: nat, size: nat, slots: seq<Request>)

  function Full(q: Ring): bool { q.count == q.size }

  function Empty(q: Ring): bool { q.count == 0 }

  /** What a dispatcher does to the queue between its wait loop and its unlock. */
  function Put(q: Ring, r: Request): Ring
    requires 0 < q.size && q.store < |q.slots|
  {
    Ring((q.store + 1) % q.size, q.service, q.count + 1, q.size, q.slots[q.store := r])
  }

  /** The request a worker takes out. */
  function Front(q: Ring): Request
    requires q.service < |q.slots|
  {
    q.slots[q.service]
  }

  /** What a worker leaves of the queue. */
  function Rest(q: Ring): Ring
    requires 0 < q.size && 0 < q.count
  {
    Ring(q.store, (q.service + 1) % q.size, q.count - 1, q.size, q.slots)
  }

  /** The joint invariant of the two indices and the count. */
  ghost predicate RingOk(q: Ring) {
    && 0 < q.size == |q.slots|
    && q.count <= q.size
    && q.service < q.size
    && q.store == (q.service + q.count) % q.size
  }

  /** The queued requests, oldest first. */
  ghost function Contents(q: Ring): (c: seq<Request>)
    requires RingOk(q)
    ensures |c| == q.count
  {
    seq(q.count, k requires 0 <= k < q.count => q.slots[(q.service + k) % q.size])
  }

  /** Modulo on the first two laps, which is all the indices ever need. */
  lemma Wrap(a: nat, n: nat)
    requires 0 < n && a < 2 * n
    ensures a % n == if a < n then a else a - n
  {}

  lemma PutIsAppend(q: Ring, r: Request)
    requires RingOk(q) && !Full(q)
    ensures RingOk(Put(q, r))
    ensures Contents(Put(q, r)) == Contents(q) + [r]
  {
    var p := Put(q, r);
    Wrap(q.service + q.count, q.size);
    Wrap(q.service + q.count + 1, q.size);
    Wrap(q.store + 1, q.size);
    forall k | 0 <= k < p.count
      ensures p.slots[(p.service + k) % p.size] == (Contents(q) + [r])[k]
    {
      Wrap(q.service + k, q.size);
    }
  }

  lemma RestIsTail(q: Ring)
    requires RingOk(q) && !Empty(q)
    ensures RingOk(Rest(q))
    ensures Contents(q) == [Front(q)] + Contents(Rest(q))
  {
    var p := Rest(q);
    Wrap(q.service + q.count, q.size);
    Wrap(q.service + 1, q.size);
    Wrap(p.service + p.count, q.size);
    forall k | 0 <= k < q.count
      ensures q.slots[(q.service + k) % q.size] == ([Front(q)] + Contents(p))[k]
    {
      Wrap(q.service + k, q.size);
      if k > 0 {
        Wrap(p.service + (k - 1), q.size);
      }
    }
  }

  /** The request queue as the program keeps it: an array and four counters. */
  class RequestQueue {
    var nextSlotToStore: nat
    var nextSlotToService: nat
    var numRequestsInQueue: nat
    var requestQueueSize: nat
    var requests: array<Request>

    function Fields(): Ring
      reads this, requests
    {
      Ring(nextSlotToStore, nextSlotToService, numRequestsInQueue, requestQueueSize, requests[..])
    }

    ghost predicate Valid()
      reads this, requests
    {
      RingOk(Fields())
    }

    ghost function Queued(): seq<Request>
      reads this, requests
      requires Valid()
    {
      Contents(Fields())
    }

    constructor (qlen: nat, blank: Request)
      requires 1 <= qlen
      ensures Valid() && fresh(requests)
      ensures requestQueueSize == qlen && Queued() == []
    {
      nextSlotToStore := 0;
      nextSlotToService := 0;
      numRequestsInQueue := 0;
      requestQueueSize := qlen;
      requests := new Request[qlen](_ => blank);
    }

    /** The dispatcher's critical section after its wait loop. */
    method Store(r: Request)
      requires Valid()
      requires numRequestsInQueue < requestQueueSize
      modifies this, requests
      ensures Valid() && requests == old(requests)
      ensures requestQueueSize == old(requestQueueSize)
      ensures Queued() == old(Queued()) + [r]
      ensures Fields() == Put(old(Fields()), r)
    {
      ghost var before := Fields();
      PutIsAppend(before, r);
      Wrap(nextSlotToService + numRequestsInQueue, requestQueueSize);
      requests[nextSlotToStore] := r;
      numRequestsInQueue := numRequestsInQueue + 1;
      nextSlotToStore := (nextSlotToStore + 1) % requestQueueSize;
      assert Fields() == Put(before, r);
    }

    /** The worker's critical section after its wait loop. */
    method Take() returns (r: Request)
      requires Valid()
      requires 0 < numRequestsInQueue
      modifies this
      ensures Valid() && requests == old(requests)
      ensures requestQueueSize == old(requestQueueSize)
      ensures old(Queued()) == [r] + Queued()
      ensures r == Front(old(Fields())) && Fields() == Rest(old(Fields()))
    {
      ghost var before := Fields();
      RestIsTail(before);
      r := requests[nextSlotToService];
      nextSlotToService := (nextSlotToService + 1) % requestQueueSize;
      numRequestsInQueue := numRequestsInQueue - 1;
      assert Fields() == Rest(before);
    }
  }
}
