/** The contract of client-go's delaying work queue, as KeyedController relies on it.
    A queued key waits in `order`; a key handed to a worker is in `processing` until Done;
    `dirty` holds every key that must be handed out (again). */
module WorkQueue {
  import opened Sequences

  type Key = string

  datatype Queue = Queue(order: seq<Key>, dirty: set<Key>, processing: set<Key>, delayed: multiset<Key>)

  const EMPTY := Queue([], {}, {}, multiset{})

  /** The waiting list holds exactly the dirty keys that no worker is processing, each once. */
  ghost predicate Coherent(q: Queue) {
    && NoDuplicates(q.order)
    && forall k :: k in q.order <==> k in q.dirty && k !in q.processing
  }

  function Add(q: Queue, k: Key): (r: Queue)
    ensures k in r.dirty
  {
    if k in q.dirty then q
    else if k in q.processing then q.(dirty := q.dirty + {k})
    else q.(dirty := q.dirty + {k}, order := q.order + [k])
  }

  function Get(q: Queue): (r: Queue)
    requires q.order != []
  {
    var k := q.order[0];
    q.(order := q.order[1..], dirty := q.dirty - {k}, processing := q.processing + {k})
  }

  function Done(q: Queue, k: Key): (r: Queue)
    requires k in q.processing
  {
    q.(processing := q.processing - {k}, order := if k in q.dirty then q.order + [k] else q.order)
  }

  function AddAfter(q: Queue, k: Key): (r: Queue)
  {
    q.(delayed := q.delayed + multiset{k})
  }

  /** A delay elapses. The real queue keeps one timer per key, so it may let `n` delayed adds
      of a key collapse into one. */
  function Fire(q: Queue, k: Key, n: nat): (r: Queue)
    requires 1 <= n <= q.delayed[k]
    ensures k in r.dirty
  {
    Add(q.(delayed := q.delayed[k := q.delayed[k] - n]), k)
  }

  /** Every queue operation keeps the waiting list coherent; a key is never handed out while
      it is being processed. */
  lemma OperationsKeepCoherent(q: Queue, k: Key, n: nat)
    requires Coherent(q)
    ensures Coherent(Add(q, k)) && Coherent(AddAfter(q, k))
    ensures q.order != [] ==> Coherent(Get(q)) && q.order[0] !in q.processing
    ensures k in q.processing ==> Coherent(Done(q, k))
    ensures 1 <= n <= q.delayed[k] ==> Coherent(Fire(q, k, n))
  {
  }

  /** `r` has the waiting list of `q`, or `k` has joined it at the end. */
  ghost predicate Joins(q: Queue, r: Queue, k: Key) {
    r.order == q.order || (k !in q.order && r.order == q.order + [k])
  }

  /** Keys leave the waiting list in the order in which they joined it: Get hands out the first one, and every
      other operation leaves the list alone or puts its key last. */
  lemma WaitingIsFirstInFirstOut(q: Queue, k: Key, n: nat)
    requires Coherent(q)
    ensures Joins(q, Add(q, k), k) && AddAfter(q, k).order == q.order
    ensures q.order != [] ==> Get(q).order == q.order[1..] && Get(q).processing == q.processing + {q.order[0]}
    ensures k in q.processing ==> Joins(q, Done(q, k), k) && Done(q, k).processing == q.processing - {k}
    ensures 1 <= n <= q.delayed[k] ==> Joins(q, Fire(q, k, n), k)
  {
  }
}
