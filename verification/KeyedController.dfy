/** The mutex-protected bodies of KeyedController, and the class that runs them. */
module KeyedController {
  import opened Options
  import opened WorkQueue

  /** What NewKeyedController is given. `zero` is T's zero value, which Go passes to mergeFn
      when the key had no payload. */
  datatype Config<!T> = Config(keyFn: T -> Key, mergeFn: Option<(T, bool, T) -> T>, zero: T)

  /** What a handler call asks for. Forget and AddRateLimited differ only in how long the
      delay is, which is not part of this model. */
  datatype Outcome = Succeeded | Failed | Requeue | RequeueAfter(requeue: bool)

  /** How many delayed adds processNext issues for an outcome. */
  function Adds(o: Outcome): nat {
    match o
    case Succeeded => 0
    case Failed => 1
    case Requeue => 1
    case RequeueAfter(requeue) => if requeue then 2 else 1
  }

  /** stage: the new side map. */
  function Staged<T>(cfg: Config<T>, pending: map<Key, T>, message: T): map<Key, T> {
    var key := cfg.keyFn(message);
    match cfg.mergeFn
    case None => pending[key := message]
    case Some(f) =>
      if key in pending then pending[key := f(pending[key], true, message)]
      else pending[key := f(cfg.zero, false, message)]
  }

  /** restage: the retried message counts as the older one. */
  function Restaged<T>(cfg: Config<T>, pending: map<Key, T>, key: Key, message: T): map<Key, T> {
    if key !in pending then pending[key := message]
    else match cfg.mergeFn
      case None => pending
      case Some(f) => pending[key := f(message, true, pending[key])]
  }

  /** take: the side map without the key. */
  function Taken<T>(pending: map<Key, T>, key: Key): map<Key, T> {
    pending - {key}
  }

  function AddAfterTimes(q: Queue, k: Key, n: nat): Queue
    decreases n
  {
    if n == 0 then q else AddAfterTimes(WorkQueue.AddAfter(q, k), k, n - 1)
  }

  /** Queue and side map after one undisturbed processNext on the first waiting key. */
  function Processed<T>(cfg: Config<T>, handler: T -> Outcome, queue: Queue, pending: map<Key, T>)
    : (Queue, map<Key, T>)
    requires queue.order != []
  {
    var key := queue.order[0];
    var q := WorkQueue.Get(queue);
    if key !in pending then (WorkQueue.Done(q, key), pending)
    else
      var message := pending[key];
      var o := handler(message);
      if o.Succeeded? then (WorkQueue.Done(q, key), Taken(pending, key))
      else
        AddAfterTimesOnlyDelays(q, key, Adds(o));
        (WorkQueue.Done(AddAfterTimes(q, key, Adds(o)), key),
         Restaged(cfg, Taken(pending, key), key, message))
  }

  lemma AddAfterTimesOnlyDelays(q: Queue, k: Key, n: nat)
    ensures AddAfterTimes(q, k, n).processing == q.processing
    ensures AddAfterTimes(q, k, n).dirty == q.dirty && AddAfterTimes(q, k, n).order == q.order
    decreases n
  {
    if n > 0 { AddAfterTimesOnlyDelays(WorkQueue.AddAfter(q, k), k, n - 1); }
  }

  /** What an undisturbed turn leaves behind, for the handler's answer: on success the payload is gone; otherwise it
      is back as it was, and its key is due again once, or twice when both a delay and a requeue are asked for. */
  lemma TurnLeaves<T>(cfg: Config<T>, handler: T -> Outcome, queue: Queue, pending: map<Key, T>)
    requires Coherent(queue) && queue.order != []
    ensures var k := queue.order[0];
            var (q, p) := Processed(cfg, handler, queue, pending);
            && q.order == queue.order[1..] && q.dirty == queue.dirty - {k} && q.processing == queue.processing
            && p - {k} == pending - {k}
            && if k in pending && !handler(pending[k]).Succeeded? then
                 && k in p && p[k] == pending[k]
                 && q.delayed[k] == queue.delayed[k] + (if handler(pending[k]) == RequeueAfter(true) then 2 else 1)
                 && forall j :: j != k ==> q.delayed[j] == queue.delayed[j]
               else k !in p && q.delayed == queue.delayed
  {
    var k := queue.order[0];
    var q := WorkQueue.Get(queue);
    assert k in queue.order;
    if k in pending && !handler(pending[k]).Succeeded? {
      AddAfterTimesOnlyDelays(q, k, Adds(handler(pending[k])));
      AddAfterTimesCounts(q, k, Adds(handler(pending[k])));
    }
  }

  lemma AddAfterTimesCounts(q: Queue, k: Key, n: nat)
    requires 1 <= n <= 2
    ensures AddAfterTimes(q, k, n).delayed == q.delayed + if n == 1 then multiset{k} else multiset{k, k}
  {
    var once := WorkQueue.AddAfter(q, k);
    assert AddAfterTimes(q, k, n) == AddAfterTimes(once, k, n - 1);
    if n == 2 { assert AddAfterTimes(once, k, 1) == AddAfterTimes(WorkQueue.AddAfter(once, k), k, 0); }
  }

  class Controller<T> {
    const cfg: Config<T>
    var queue: Queue
    var pending: map<Key, T>

    constructor (cfg: Config<T>)
      ensures this.cfg == cfg && queue == EMPTY && pending == map[]
    {
      this.cfg := cfg;
      queue, pending := EMPTY, map[];
    }

    method Stage(message: T) returns (key: Key)
      modifies this`pending
      ensures key == cfg.keyFn(message)
      ensures pending == Staged(cfg, old(pending), message)
    {
      key := cfg.keyFn(message);
      if cfg.mergeFn.Some? {
        var existing := if key in pending then pending[key] else cfg.zero;
        pending := pending[key := cfg.mergeFn.value(existing, key in pending, message)];
      } else {
        pending := pending[key := message];
      }
    }

    method Restage(key: Key, message: T)
      modifies this`pending
      ensures pending == Restaged(cfg, old(pending), key, message)
    {
      if key !in pending {
        pending := pending[key := message];
        return;
      }
      if cfg.mergeFn.Some? {
        pending := pending[key := cfg.mergeFn.value(message, true, pending[key])];
      }
    }

    method Take(key: Key) returns (message: Option<T>)
      modifies this`pending
      ensures pending == Taken(old(pending), key)
      ensures message == if key in old(pending) then Some(old(pending)[key]) else None
    {
      message := None;
      if key in pending {
        message := Some(pending[key]);
      }
      pending := pending - {key};
    }

    method Add(message: T)
      modifies this
      ensures pending == Staged(cfg, old(pending), message)
      ensures queue == WorkQueue.Add(old(queue), cfg.keyFn(message))
    {
      var key := Stage(message);
      queue := WorkQueue.Add(queue, key);
    }

    method AddAfter(message: T)
      modifies this
      ensures pending == Staged(cfg, old(pending), message)
      ensures queue == WorkQueue.AddAfter(old(queue), cfg.keyFn(message))
    {
      var key := Stage(message);
      queue := WorkQueue.AddAfter(queue, key);
    }

    /** One turn of the worker loop with no other thread running. Get blocks on an empty queue. */
    method ProcessNext(handler: T -> Outcome)
      requires queue.order != []
      modifies this
      ensures (queue, pending) == Processed(cfg, handler, old(queue), old(pending))
    {
      var key := queue.order[0];
      queue := WorkQueue.Get(queue);
      var message := Take(key);
      if message.Some? {
        var result := handler(message.value);
        if !result.Succeeded? {
          ghost var q := queue;
          Restage(key, message.value);
          AddAfterTimesOnlyDelays(queue, key, Adds(result));
          queue := WorkQueue.AddAfter(queue, key);
          if result.RequeueAfter? && result.requeue {
            queue := WorkQueue.AddAfter(queue, key);
          }
          assert queue == AddAfterTimes(q, key, Adds(result));
        }
      } else {
        assert pending == old(pending);
      }
      queue := WorkQueue.Done(queue, key);
    }
  }
}
