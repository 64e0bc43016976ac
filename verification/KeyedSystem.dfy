/** KeyedController under concurrency: any number of adders, a pool of workers and the queue's
    timers interleave. A step is one mutex-protected body or one queue call. */
module KeyedSystem {
  import opened Options
  import opened WorkQueue
  import opened KeyedController

  // ---------- states and steps ----------

  /** Where a worker is inside processNext. */
  datatype Worker<+T> =
    | Idle
    | Got(key: Key)                                     // between Get and take
    | Running(key: Key, message: T)                     // inside Do
    | Restaging(key: Key, message: T, outcome: Outcome) // between Do and restage
    | Requeueing(key: Key, left: nat)                   // delayed adds still owed
    | Closing(key: Key)                                 // before Done

  /** One call of Do: it was given `payload`, standing for log[lo..hi]. */
  datatype Call<+T> = Call(lo: nat, hi: nat, payload: T)

  /** History of one key: every message staged for it, in order; how many are acknowledged by
      a successful Do; how many have been taken by the worker at work; and every call of Do. */
  datatype Track<+T> = Track(log: seq<T>, acked: nat, taken: nat, calls: seq<Call<T>>)

  datatype Sys<T> = Sys(
    queue: Queue,
    pending: map<Key, T>,
    owed: multiset<Key>,        // adders between stage and their queue call
    workers: seq<Worker<T>>,
    tracks: map<Key, Track<T>>)

  datatype Event<+T> =
    | Stage(message: T)
    | Enqueue(key: Key)         // an adder's queue.Add
    | Delay(key: Key)           // an adder's queue.AddAfter
    | Fire(key: Key, n: nat)
    | Get(w: nat)
    | Take(w: nat)
    | Finish(w: nat, outcome: Outcome)
    | Restage(w: nat)
    | Readd(w: nat)             // a worker's AddRateLimited or AddAfter
    | Close(w: nat)

  function TrackOf<T>(s: Sys<T>, k: Key): Track<T> {
    if k in s.tracks then s.tracks[k] else Track([], 0, 0, [])
  }

  function Init<T>(workers: nat): Sys<T> {
    Sys(EMPTY, map[], multiset{}, seq(workers, _ => Idle), map[])
  }

  predicate Enabled<T>(s: Sys<T>, e: Event<T>) {
    match e
    case Stage(_) => true
    case Enqueue(k) => k in s.owed
    case Delay(k) => k in s.owed
    case Fire(k, n) => 1 <= n <= s.queue.delayed[k]
    case Get(w) => w < |s.workers| && s.workers[w].Idle? && s.queue.order != []
    case Take(w) => w < |s.workers| && s.workers[w].Got?
    case Finish(w, _) => w < |s.workers| && s.workers[w].Running?
    case Restage(w) => w < |s.workers| && s.workers[w].Restaging?
    case Readd(w) => w < |s.workers| && s.workers[w].Requeueing?
    case Close(w) => w < |s.workers| && s.workers[w].Closing? && s.workers[w].key in s.queue.processing
  }

  // The effect of a step, component by component.

  function NextQueue<T>(s: Sys<T>, e: Event<T>): Queue
    requires Enabled(s, e)
  {
    match e
    case Enqueue(k) => WorkQueue.Add(s.queue, k)
    case Delay(k) => WorkQueue.AddAfter(s.queue, k)
    case Fire(k, n) => WorkQueue.Fire(s.queue, k, n)
    case Get(w) => WorkQueue.Get(s.queue)
    case Readd(w) => WorkQueue.AddAfter(s.queue, s.workers[w].key)
    case Close(w) => WorkQueue.Done(s.queue, s.workers[w].key)
    case _ => s.queue
  }

  function NextPending<T>(cfg: Config<T>, s: Sys<T>, e: Event<T>): map<Key, T>
    requires Enabled(s, e)
  {
    match e
    case Stage(m) => Staged(cfg, s.pending, m)
    case Take(w) => Taken(s.pending, s.workers[w].key)
    case Restage(w) => Restaged(cfg, s.pending, s.workers[w].key, s.workers[w].message)
    case _ => s.pending
  }

  function NextOwed<T>(cfg: Config<T>, s: Sys<T>, e: Event<T>): multiset<Key> {
    match e
    case Stage(m) => s.owed + multiset{cfg.keyFn(m)}
    case Enqueue(k) => s.owed - multiset{k}
    case Delay(k) => s.owed - multiset{k}
    case _ => s.owed
  }

  predicate IsWorkerStep<T>(e: Event<T>) {
    e.Get? || e.Take? || e.Finish? || e.Restage? || e.Readd? || e.Close?
  }

  /** Where the step's worker goes. */
  function NextWorker<T>(s: Sys<T>, e: Event<T>): Worker<T>
    requires Enabled(s, e) && IsWorkerStep(e)
  {
    var worker := s.workers[e.w];
    match e
    case Get(_) => Got(s.queue.order[0])
    case Take(_) =>
      if worker.key in s.pending then Running(worker.key, s.pending[worker.key]) else Closing(worker.key)
    case Finish(_, o) =>
      if o.Succeeded? then Closing(worker.key) else Restaging(worker.key, worker.message, o)
    case Restage(_) => Requeueing(worker.key, Adds(worker.outcome))
    case Readd(_) => if worker.left <= 1 then Closing(worker.key) else Requeueing(worker.key, worker.left - 1)
    case Close(_) => Idle
  }

  function NextWorkers<T>(s: Sys<T>, e: Event<T>): seq<Worker<T>>
    requires Enabled(s, e)
  {
    if IsWorkerStep(e) then s.workers[e.w := NextWorker(s, e)] else s.workers
  }

  /** The key a step is about. */
  function Subject<T>(cfg: Config<T>, s: Sys<T>, e: Event<T>): Key
    requires Enabled(s, e)
  {
    match e
    case Stage(m) => cfg.keyFn(m)
    case Enqueue(k) => k
    case Delay(k) => k
    case Fire(k, _) => k
    case Get(_) => s.queue.order[0]
    case _ => s.workers[e.w].key
  }

  /** History: staging extends the log, taking claims everything staged so far and records the
      call of Do, success acknowledges what was taken, restaging gives it back. */
  function NextTrack<T>(cfg: Config<T>, s: Sys<T>, e: Event<T>): Track<T>
    requires Enabled(s, e)
  {
    var k := Subject(cfg, s, e);
    var t := TrackOf(s, k);
    match e
    case Stage(m) => t.(log := t.log + [m])
    case Take(w) =>
      if k !in s.pending then t
      else t.(taken := |t.log|, calls := t.calls + [Call(t.acked, |t.log|, s.pending[k])])
    case Finish(_, o) => if o.Succeeded? then t.(acked := t.taken) else t
    case Restage(_) => t.(taken := t.acked)
    case _ => t
  }

  function Apply<T>(cfg: Config<T>, s: Sys<T>, e: Event<T>): Sys<T>
    requires Enabled(s, e)
  {
    Sys(NextQueue(s, e), NextPending(cfg, s, e), NextOwed(cfg, s, e), NextWorkers(s, e),
        s.tracks[Subject(cfg, s, e) := NextTrack(cfg, s, e)])
  }

  /** The state after a schedule, or None when the schedule takes a step that is not enabled. */
  function Exec<T>(cfg: Config<T>, s: Sys<T>, es: seq<Event<T>>): Option<Sys<T>>
    decreases |es|
  {
    if es == [] then Some(s)
    else if Enabled(s, es[0]) then Exec(cfg, Apply(cfg, s, es[0]), es[1..])
    else None
  }

  /** Some schedule leads from the empty controller with `n` workers to `s`. */
  ghost predicate Reachable<T(!new)>(cfg: Config<T>, n: nat, s: Sys<T>) {
    exists es: seq<Event<T>> :: Exec(cfg, Init(n), es) == Some(s)
  }

  lemma InitReachable<T(!new)>(cfg: Config<T>, n: nat)
    ensures Reachable(cfg, n, Init(n))
  {
    assert Exec(cfg, Init<T>(n), []) == Some(Init(n));
  }

  lemma {:induction false} ExecSnoc<T>(cfg: Config<T>, s: Sys<T>, es: seq<Event<T>>, e: Event<T>)
    requires Exec(cfg, s, es).Some? && Enabled(Exec(cfg, s, es).value, e)
    ensures Exec(cfg, s, es + [e]) == Some(Apply(cfg, Exec(cfg, s, es).value, e))
    decreases |es|
  {
    if es == [] {
      assert [e][1..] == [];
    } else {
      assert (es + [e])[1..] == es[1..] + [e];
      ExecSnoc(cfg, Apply(cfg, s, es[0]), es[1..], e);
    }
  }

  lemma StepReachable<T(!new)>(cfg: Config<T>, n: nat, s: Sys<T>, e: Event<T>)
    requires Reachable(cfg, n, s) && Enabled(s, e)
    ensures Reachable(cfg, n, Apply(cfg, s, e))
  {
    var es: seq<Event<T>> :| Exec(cfg, Init(n), es) == Some(s);
    ExecSnoc(cfg, Init(n), es, e);
  }

  // ---------- what a payload stands for ----------

  /** How mergeFn joins an older payload with a newer one; without mergeFn the newer wins. */
  function Combine<T>(cfg: Config<T>, older: T, newer: T): T {
    match cfg.mergeFn
    case None => newer
    case Some(f) => f(older, true, newer)
  }

  /** The messages merged one by one in arrival order. */
  function Fold<T>(cfg: Config<T>, seg: seq<T>): T
    requires seg != []
  {
    if |seg| == 1 then seg[0]
    else Combine(cfg, Fold(cfg, seg[..|seg| - 1]), seg[|seg| - 1])
  }

  // ---------- structural invariants, for every mergeFn ----------

  ghost predicate Owns<T>(s: Sys<T>, w: nat, k: Key) {
    w < |s.workers| && !s.workers[w].Idle? && s.workers[w].key == k
  }

  predicate HoldsPayload<T>(w: Worker<T>) {
    w.Running? || w.Restaging?
  }

  ghost predicate InFlight<T>(s: Sys<T>, k: Key) {
    exists w: nat :: Owns(s, w, k) && HoldsPayload(s.workers[w])
  }

  /** Do is serialized per key: between Get and Done a key belongs to one worker. */
  ghost predicate Serialized<T>(s: Sys<T>) {
    && Coherent(s.queue)
    && (forall k :: k in s.queue.processing <==> exists w: nat :: Owns(s, w, k))
    && (forall w1: nat, w2: nat, k :: Owns(s, w1, k) && Owns(s, w2, k) ==> w1 == w2)
  }

  /** The messages staged for a key split in arrival order as acknowledged ++ in flight ++ pending. */
  ghost predicate SplitAt<T>(cfg: Config<T>, s: Sys<T>, k: Key) {
    var t := TrackOf(s, k);
    && t.acked <= t.taken <= |t.log|
    && (forall i :: 0 <= i < |t.log| ==> cfg.keyFn(t.log[i]) == k)
    && (t.acked < t.taken <==> InFlight(s, k))
    && (k in s.pending <==> t.taken < |t.log|)
  }

  ghost predicate Split<T>(cfg: Config<T>, s: Sys<T>) {
    forall k :: SplitAt(cfg, s, k)
  }

  /** Someone still has to bring the key to a worker. */
  ghost predicate Driven<T>(s: Sys<T>, k: Key) {
    || k in s.queue.dirty
    || k in s.queue.delayed
    || k in s.owed
    || exists w: nat :: Owns(s, w, k) && (s.workers[w].Got? || s.workers[w].Requeueing?)
  }

  /** No payload is stranded. */
  ghost predicate NotStranded<T>(s: Sys<T>) {
    forall k :: k in s.pending ==> Driven(s, k)
  }

  ghost predicate Structure<T>(cfg: Config<T>, s: Sys<T>) {
    Serialized(s) && Split(cfg, s) && NotStranded(s)
  }

  lemma InitStructure<T>(cfg: Config<T>, n: nat)
    ensures Structure(cfg, Init(n))
  {
    var s := Init<T>(n);
    assert forall w: nat, k :: !Owns(s, w, k);
    assert forall k :: TrackOf(s, k) == Track([], 0, 0, []);
  }

  lemma QueueStepKeepsSerialized<T>(cfg: Config<T>, s: Sys<T>, e: Event<T>)
    requires Serialized(s) && Enabled(s, e) && !IsWorkerStep(e)
    ensures Serialized(Apply(cfg, s, e))
  {
    var s' := Apply(cfg, s, e);
    OperationsKeepCoherent(s.queue, Subject(cfg, s, e), if e.Fire? then e.n else 0);
    assert forall v, k :: Owns(s', v, k) <==> Owns(s, v, k);
  }

  lemma GetKeepsSerialized<T>(cfg: Config<T>, s: Sys<T>, e: Event<T>)
    requires Serialized(s) && Enabled(s, e) && e.Get?
    ensures Serialized(Apply(cfg, s, e))
  {
    var s', k0 := Apply(cfg, s, e), s.queue.order[0];
    OperationsKeepCoherent(s.queue, k0, 0);
    assert forall v, k :: v != e.w ==> (Owns(s', v, k) <==> Owns(s, v, k));
    assert Owns(s', e.w, k0);
    forall k | k in s'.queue.processing && k != k0 ensures exists v :: Owns(s', v, k) {
      var v :| Owns(s, v, k);
      assert Owns(s', v, k);
    }
  }

  lemma WorkKeepsSerialized<T>(cfg: Config<T>, s: Sys<T>, e: Event<T>)
    requires Serialized(s) && Enabled(s, e) && IsWorkerStep(e) && !e.Get?
    ensures Serialized(Apply(cfg, s, e))
  {
    var s', k0 := Apply(cfg, s, e), s.workers[e.w].key;
    OperationsKeepCoherent(s.queue, k0, 0);
    assert forall v, k :: v != e.w ==> (Owns(s', v, k) <==> Owns(s, v, k));
    assert Owns(s, e.w, k0);
    if !e.Close? { assert Owns(s', e.w, k0); }
    forall k | k in s'.queue.processing && k != k0 ensures exists v :: Owns(s', v, k) {
      var v :| Owns(s, v, k);
      assert Owns(s', v, k);
    }
  }

  lemma StepKeepsSerialized<T>(cfg: Config<T>, s: Sys<T>, e: Event<T>)
    requires Serialized(s) && Enabled(s, e)
    ensures Serialized(Apply(cfg, s, e))
  {
    if e.Get? { GetKeepsSerialized(cfg, s, e); }
    else if IsWorkerStep(e) { WorkKeepsSerialized(cfg, s, e); }
    else { QueueStepKeepsSerialized(cfg, s, e); }
  }

  lemma StepQueueIsLocal<T>(cfg: Config<T>, s: Sys<T>, e: Event<T>, k: Key)
    requires Enabled(s, e) && k != Subject(cfg, s, e)
    ensures k in NextQueue(s, e).dirty <==> k in s.queue.dirty
    ensures NextQueue(s, e).delayed[k] == s.queue.delayed[k]
  {
  }

  lemma StepPendingIsLocal<T>(cfg: Config<T>, s: Sys<T>, e: Event<T>, k: Key)
    requires Enabled(s, e) && k != Subject(cfg, s, e)
    ensures var p := NextPending(cfg, s, e); (k in p <==> k in s.pending) && (k in p ==> p[k] == s.pending[k])
  {
  }

  /** A step leaves the payload, the history and the queue entries of every other key alone. */
  lemma StepIsLocal<T>(cfg: Config<T>, s: Sys<T>, e: Event<T>, k: Key)
    requires Enabled(s, e) && k != Subject(cfg, s, e)
    ensures var s' := Apply(cfg, s, e);
      && TrackOf(s', k) == TrackOf(s, k)
      && (k in s'.pending <==> k in s.pending)
      && (k in s.pending ==> s'.pending[k] == s.pending[k])
      && (k in s'.queue.dirty <==> k in s.queue.dirty)
      && s'.queue.delayed[k] == s.queue.delayed[k]
      && s'.owed[k] == s.owed[k]
  {
    StepQueueIsLocal(cfg, s, e, k);
    StepPendingIsLocal(cfg, s, e, k);
  }

  /** A step moves at most its own worker, which works on the step's key. */
  lemma StepMovesOneWorker<T>(cfg: Config<T>, s: Sys<T>, e: Event<T>)
    requires Enabled(s, e)
    ensures var s' := Apply(cfg, s, e);
      && |s'.workers| == |s.workers|
      && (forall v: nat :: v < |s.workers| && (IsWorkerStep(e) ==> v != e.w) ==> s'.workers[v] == s.workers[v])
      && (IsWorkerStep(e) && !e.Get? ==> Owns(s, e.w, Subject(cfg, s, e)))
      && (IsWorkerStep(e) && !e.Close? ==> Owns(s', e.w, Subject(cfg, s, e)))
      && (e.Get? ==> s.workers[e.w].Idle?)
      && (e.Close? ==> s'.workers[e.w].Idle?)
  {
  }

  /** Whether a key is in flight depends on the one worker that moved. */
  lemma StepInFlight<T>(cfg: Config<T>, s: Sys<T>, e: Event<T>, k: Key)
    requires Serialized(s) && Enabled(s, e)
    ensures var s' := Apply(cfg, s, e);
      if IsWorkerStep(e) && k == Subject(cfg, s, e)
      then (InFlight(s, k) <==> HoldsPayload(s.workers[e.w])) && (InFlight(s', k) <==> HoldsPayload(s'.workers[e.w]))
      else InFlight(s', k) <==> InFlight(s, k)
  {
    var s' := Apply(cfg, s, e);
    StepMovesOneWorker(cfg, s, e);
    if IsWorkerStep(e) && k == Subject(cfg, s, e) {
      StepKeepsSerialized(cfg, s, e);
      assert forall v: nat :: v != e.w ==> !Owns(s, v, k) && !Owns(s', v, k);
    } else {
      assert forall v: nat :: Owns(s', v, k) <==> Owns(s, v, k);
      assert forall v: nat :: Owns(s, v, k) ==> s'.workers[v] == s.workers[v];
    }
  }

  predicate MovesMessages<T>(e: Event<T>) {
    e.Stage? || e.Take? || e.Finish? || e.Restage?
  }

  lemma MoveKeepsSplit<T>(cfg: Config<T>, s: Sys<T>, e: Event<T>)
    requires Serialized(s) && Enabled(s, e) && SplitAt(cfg, s, Subject(cfg, s, e)) && MovesMessages(e)
    ensures SplitAt(cfg, Apply(cfg, s, e), Subject(cfg, s, e))
  {
    StepInFlight(cfg, s, e, Subject(cfg, s, e));
  }

  lemma SubjectStaysSplit<T>(cfg: Config<T>, s: Sys<T>, e: Event<T>)
    requires Serialized(s) && Enabled(s, e) && SplitAt(cfg, s, Subject(cfg, s, e))
    ensures SplitAt(cfg, Apply(cfg, s, e), Subject(cfg, s, e))
  {
    if MovesMessages(e) {
      MoveKeepsSplit(cfg, s, e);
    } else {
      var k := Subject(cfg, s, e);
      StepInFlight(cfg, s, e, k);
      assert TrackOf(Apply(cfg, s, e), k) == TrackOf(s, k);
    }
  }

  lemma OtherStaysSplit<T>(cfg: Config<T>, s: Sys<T>, e: Event<T>, k: Key)
    requires Serialized(s) && Enabled(s, e) && k != Subject(cfg, s, e) && SplitAt(cfg, s, k)
    ensures SplitAt(cfg, Apply(cfg, s, e), k)
  {
    StepInFlight(cfg, s, e, k);
    StepIsLocal(cfg, s, e, k);
  }

  lemma StepKeepsSplit<T>(cfg: Config<T>, s: Sys<T>, e: Event<T>)
    requires Serialized(s) && Split(cfg, s) && Enabled(s, e)
    ensures Split(cfg, Apply(cfg, s, e))
  {
    forall k ensures SplitAt(cfg, Apply(cfg, s, e), k) {
      assert SplitAt(cfg, s, k);
      if k == Subject(cfg, s, e) { SubjectStaysSplit(cfg, s, e); } else { OtherStaysSplit(cfg, s, e, k); }
    }
  }

  lemma StepKeepsNotStranded<T>(cfg: Config<T>, s: Sys<T>, e: Event<T>)
    requires Serialized(s) && Split(cfg, s) && NotStranded(s) && Enabled(s, e)
    ensures NotStranded(Apply(cfg, s, e))
  {
    var s' := Apply(cfg, s, e);
    var k0 := Subject(cfg, s, e);
    StepMovesOneWorker(cfg, s, e);
    forall k | k in s'.pending ensures Driven(s', k) {
      if k != k0 { StepIsLocal(cfg, s, e, k); }
      if k in s.pending && exists v: nat :: Owns(s, v, k) && (s.workers[v].Got? || s.workers[v].Requeueing?) {
        var v: nat :| Owns(s, v, k) && (s.workers[v].Got? || s.workers[v].Requeueing?);
        assert IsWorkerStep(e) && k == k0 && !e.Get? ==> v == e.w;
        if !(IsWorkerStep(e) && v == e.w) { assert Owns(s', v, k); }
      }
    }
  }

  lemma StepKeepsStructure<T>(cfg: Config<T>, s: Sys<T>, e: Event<T>)
    requires Structure(cfg, s) && Enabled(s, e)
    ensures Structure(cfg, Apply(cfg, s, e))
  {
    StepKeepsSerialized(cfg, s, e);
    StepKeepsSplit(cfg, s, e);
    StepKeepsNotStranded(cfg, s, e);
  }

  /** In every interleaving: Do is serialized per key, the staged messages split in arrival
      order, and no payload is stranded. */
  lemma {:induction false} RunKeepsStructure<T>(cfg: Config<T>, s: Sys<T>, es: seq<Event<T>>)
    requires Structure(cfg, s) && Exec(cfg, s, es).Some?
    ensures Structure(cfg, Exec(cfg, s, es).value)
    ensures |Exec(cfg, s, es).value.workers| == |s.workers|
    decreases |es|
  {
    if es != [] {
      StepKeepsStructure(cfg, s, es[0]);
      RunKeepsStructure(cfg, Apply(cfg, s, es[0]), es[1..]);
    }
  }

  lemma ReachableStructure<T(!new)>(cfg: Config<T>, n: nat, s: Sys<T>)
    requires Reachable(cfg, n, s)
    ensures Structure(cfg, s) && |s.workers| == n
  {
    var es: seq<Event<T>> :| Exec(cfg, Init(n), es) == Some(s);
    InitStructure(cfg, n);
    RunKeepsStructure(cfg, Init(n), es);
  }
}
