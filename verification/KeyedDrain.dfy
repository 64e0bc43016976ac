/** Once staging stops and handlers succeed, every schedule drains the controller. */
module KeyedDrain {
  import opened Options
  import opened WorkQueue
  import opened KeyedController
  import opened KeyedSystem

  /** A step of the drain phase: nobody stages a message and every call of Do succeeds. */
  predicate IsDrainStep<T>(e: Event<T>) {
    !e.Stage? && (e.Finish? ==> e.outcome.Succeeded?)
  }

  /** Nothing is waiting anywhere. */
  predicate Quiescent<T>(s: Sys<T>) {
    && s.queue.dirty == {} && s.queue.delayed == multiset{} && s.owed == multiset{}
    && forall w :: 0 <= w < |s.workers| ==> s.workers[w].Idle?
  }

  ghost predicate AllAcknowledged<T>(s: Sys<T>) {
    && s.pending == map[]
    && forall k :: TrackOf(s, k).acked == |TrackOf(s, k).log|
  }

  /** A quiescent controller has an empty side map and every staged message was acknowledged. */
  lemma QuiescentIsEmpty<T(!new)>(cfg: Config<T>, n: nat, s: Sys<T>)
    requires Reachable(cfg, n, s) && Quiescent(s)
    ensures AllAcknowledged(s)
  {
    ReachableStructure(cfg, n, s);
    assert forall w: nat, k :: !Owns(s, w, k);
    forall k ensures k !in s.pending && TrackOf(s, k).acked == |TrackOf(s, k).log| {
      assert SplitAt(cfg, s, k);
      assert k in s.pending ==> Driven(s, k);
    }
    assert s.pending.Keys == {};
  }

  /** Between Get and Done a key belongs to one worker, in every interleaving. */
  lemma DoIsSerializedPerKey<T(!new)>(cfg: Config<T>, n: nat, s: Sys<T>, w1: nat, w2: nat)
    requires Reachable(cfg, n, s) && w1 < w2 < n
    ensures |s.workers| == n
    ensures !s.workers[w1].Idle? && !s.workers[w2].Idle? ==> s.workers[w1].key != s.workers[w2].key
  {
    ReachableStructure(cfg, n, s);
    if !s.workers[w1].Idle? && !s.workers[w2].Idle? && s.workers[w1].key == s.workers[w2].key {
      assert Owns(s, w1, s.workers[w1].key) && Owns(s, w2, s.workers[w1].key);
    }
  }

  // ---------- a bound on the steps left ----------

  function Load<T>(worker: Worker<T>): nat {
    match worker
    case Idle => 0
    case Got(_) => 6
    case Running(_, _) => 4
    case Restaging(_, _, _) => 60
    case Requeueing(_, left) => if left <= 1 then 23 else 2 + 21 * left
    case Closing(_) => 1
  }

  /** What a failing call of Do adds to the bound: restaging, up to two delayed adds, and another turn. */
  const RETRY := 57

  function LoadAll<T>(workers: seq<Worker<T>>): nat {
    if workers == [] then 0 else Load(workers[0]) + LoadAll(workers[1..])
  }

  function Measure<T>(s: Sys<T>): nat {
    30 * |s.owed| + 20 * |s.queue.delayed| + 8 * |s.queue.dirty| + LoadAll(s.workers)
  }

  lemma {:induction false} LoadUpdate<T>(workers: seq<Worker<T>>, w: nat, worker: Worker<T>)
    requires w < |workers|
    ensures LoadAll(workers[w := worker]) == LoadAll(workers) - Load(workers[w]) + Load(worker)
    decreases |workers|
  {
    var updated := workers[w := worker];
    if w > 0 {
      assert updated[1..] == workers[1..][w - 1 := worker];
      LoadUpdate(workers[1..], w - 1, worker);
    } else {
      assert updated[1..] == workers[1..];
    }
  }

  lemma AddGrowsDirty(q: Queue, k: Key)
    ensures |Add(q, k).dirty| <= |q.dirty| + 1 && Add(q, k).delayed == q.delayed
  {
  }

  lemma WorkerStepQueue<T>(cfg: Config<T>, s: Sys<T>, e: Event<T>)
    requires Serialized(s) && Enabled(s, e) && IsWorkerStep(e)
    ensures |NextQueue(s, e).dirty| == |s.queue.dirty| - if e.Get? then 1 else 0
    ensures |NextQueue(s, e).delayed| == |s.queue.delayed| + if e.Readd? then 1 else 0
  {
    if e.Get? { assert s.queue.order[0] in s.queue.order; }
  }

  /** A call of Do that asks for a retry. */
  predicate Fails<T>(e: Event<T>) {
    e.Finish? && !e.outcome.Succeeded?
  }

  function FailCount<T>(es: seq<Event<T>>): nat {
    if es == [] then 0 else (if Fails(es[0]) then 1 else 0) + FailCount(es[1..])
  }

  lemma WorkerStepDecreases<T>(cfg: Config<T>, s: Sys<T>, e: Event<T>)
    requires Serialized(s) && Enabled(s, e) && IsWorkerStep(e)
    ensures Measure(Apply(cfg, s, e)) < Measure(s) + if Fails(e) then RETRY else 0
  {
    LoadUpdate(s.workers, e.w, NextWorker(s, e));
    WorkerStepQueue(cfg, s, e);
  }

  lemma QueueStepDecreases<T>(cfg: Config<T>, s: Sys<T>, e: Event<T>)
    requires Enabled(s, e) && (e.Enqueue? || e.Delay? || e.Fire?)
    ensures Measure(Apply(cfg, s, e)) < Measure(s)
  {
    if e.Enqueue? { AddGrowsDirty(s.queue, e.key); }
    else if e.Fire? { FireDecreases(s.queue, e.key, e.n); }
    else { DelayGrowsDelayed(s.queue, e.key); }
    assert NextWorkers(s, e) == s.workers;
    assert !e.Fire? ==> |NextOwed(cfg, s, e)| == |s.owed| - 1;
  }

  lemma DelayGrowsDelayed(q: Queue, k: Key)
    ensures |WorkQueue.AddAfter(q, k).delayed| == |q.delayed| + 1 && WorkQueue.AddAfter(q, k).dirty == q.dirty
  {
  }

  lemma FireDecreases(q: Queue, k: Key, n: nat)
    requires 1 <= n <= q.delayed[k]
    ensures 20 * |WorkQueue.Fire(q, k, n).delayed| + 8 * |WorkQueue.Fire(q, k,
                                                                         n).dirty| < 20 * |q.delayed| + 8 * |q.dirty|
  {
    var left := q.delayed[k := q.delayed[k] - n];
    assert |left| == |q.delayed| - n;
    AddGrowsDirty(q.(delayed := left), k);
  }

  /** Every step but staging uses up some of the bound, whatever the scheduler picks; a failing call of Do
      adds at most RETRY. */
  lemma StepDecreases<T>(cfg: Config<T>, s: Sys<T>, e: Event<T>)
    requires Serialized(s) && Enabled(s, e) && !e.Stage?
    ensures Measure(Apply(cfg, s, e)) < Measure(s) + if Fails(e) then RETRY else 0
  {
    if IsWorkerStep(e) { WorkerStepDecreases(cfg, s, e); } else { QueueStepDecreases(cfg, s, e); }
  }

  /** Unless everything is at rest, some drain step is enabled: the pool never deadlocks. */
  lemma DrainStepExists<T(!new)>(cfg: Config<T>, n: nat, s: Sys<T>) returns (e: Event<T>)
    requires Reachable(cfg, n, s) && n > 0 && !Quiescent(s)
    ensures Enabled(s, e) && IsDrainStep(e)
  {
    ReachableStructure(cfg, n, s);
    if s.owed != multiset{} {
      var k :| k in s.owed;
      e := Enqueue(k);
    } else if s.queue.delayed != multiset{} {
      var k :| k in s.queue.delayed;
      e := Fire(k, 1);
    } else if exists w :: 0 <= w < n && !s.workers[w].Idle? {
      var w: nat :| w < n && !s.workers[w].Idle?;
      assert Owns(s, w, s.workers[w].key);
      e := match s.workers[w]
        case Got(_) => Take(w)
        case Running(_, _) => Finish(w, Succeeded)
        case Restaging(_, _, _) => Restage(w)
        case Requeueing(_, _) => Readd(w)
        case _ => Close(w);
    } else {
      var k :| k in s.queue.dirty;
      assert forall w: nat, key :: !Owns(s, w, key);
      assert k in s.queue.order;
      e := Get(0);
    }
  }

  /** From any reachable state, a schedule that stages nothing takes at most Measure steps and RETRY more for
      every failing call of Do; and where no step that succeeds is left, everything staged has been
      acknowledged. */
  lemma {:induction false} DrainTerminates<T(!new)>(cfg: Config<T>, n: nat, s: Sys<T>, es: seq<Event<T>>)
    requires Reachable(cfg, n, s) && Exec(cfg, s, es).Some?
    requires forall i :: 0 <= i < |es| ==> !es[i].Stage?
    ensures |es| <= Measure(s) + RETRY * FailCount(es)
    ensures n > 0 && (forall e: Event<T> :: IsDrainStep(e) ==> !Enabled(Exec(cfg, s, es).value, e)) ==>
              AllAcknowledged(Exec(cfg, s, es).value)
    decreases |es|
  {
    if es == [] {
      if n > 0 && !Quiescent(s) {
        var e := DrainStepExists(cfg, n, s);
      } else if Quiescent(s) {
        QuiescentIsEmpty(cfg, n, s);
      }
    } else {
      ReachableStructure(cfg, n, s);
      StepDecreases(cfg, s, es[0]);
      StepReachable(cfg, n, s, es[0]);
      DrainTerminates(cfg, n, Apply(cfg, s, es[0]), es[1..]);
    }
  }

  // ---------- processNext on its own ----------

  /** `es` leads from `s` to `t`. */
  ghost predicate Leads<T>(cfg: Config<T>, s: Sys<T>, es: seq<Event<T>>, t: Sys<T>) {
    Exec(cfg, s, es) == Some(t)
  }

  lemma LeadsFurther<T>(cfg: Config<T>, s: Sys<T>, es: seq<Event<T>>, t: Sys<T>, e: Event<T>)
    requires Leads(cfg, s, es, t) && Enabled(t, e)
    ensures Leads(cfg, s, es + [e], Apply(cfg, t, e))
  {
    ExecSnoc(cfg, s, es, e);
  }

  /** Get and take by an idle worker. */
  lemma TurnStart<T>(cfg: Config<T>, s: Sys<T>, w: nat) returns (es: seq<Event<T>>, t: Sys<T>)
    requires w < |s.workers| && s.workers[w].Idle? && s.queue.order != []
    ensures Leads(cfg, s, es, t)
    ensures var k := s.queue.order[0];
      && t.queue == WorkQueue.Get(s.queue) && t.owed == s.owed
      && t.workers == s.workers[w := if k in s.pending then Running(k, s.pending[k]) else Closing(k)]
      && t.pending == Taken(s.pending, k)
  {
    LeadsFurther(cfg, s, [], s, Get(w));
    t := Apply(cfg, s, Get(w));
    LeadsFurther(cfg, s, [] + [Get(w)], t, Take(w));
    es := ([] + [Get(w)]) + [Take(w)];
    t := Apply(cfg, t, Take(w));
  }

  /** Do, restage and the delayed adds of a worker whose handler asks for a retry. */
  lemma TurnRetry<T>(cfg: Config<T>, s: Sys<T>, es0: seq<Event<T>>, t0: Sys<T>, w: nat, o: Outcome)
    returns (es: seq<Event<T>>, t: Sys<T>)
    requires Leads(cfg, s, es0, t0) && w < |t0.workers| && t0.workers[w].Running? && !o.Succeeded?
    ensures Leads(cfg, s, es, t)
    ensures var k := t0.workers[w].key;
      && t.queue == AddAfterTimes(t0.queue, k, Adds(o)) && t.owed == t0.owed
      && t.workers == t0.workers[w := Closing(k)]
      && t.pending == Restaged(cfg, t0.pending, k, t0.workers[w].message)
  {
    LeadsFurther(cfg, s, es0, t0, Finish(w, o));
    es, t := es0 + [Finish(w, o)], Apply(cfg, t0, Finish(w, o));
    LeadsFurther(cfg, s, es, t, Restage(w));
    es, t := es + [Restage(w)], Apply(cfg, t, Restage(w));
    es, t := TurnReadd(cfg, s, es, t, w, Adds(o));
  }

  /** The delayed adds a worker still owes. */
  lemma TurnReadd<T>(cfg: Config<T>, s: Sys<T>, es0: seq<Event<T>>, t0: Sys<T>, w: nat, n: nat)
    returns (es: seq<Event<T>>, t: Sys<T>)
    requires Leads(cfg, s, es0, t0) && w < |t0.workers| && 1 <= n <= 2
    requires t0.workers[w].Requeueing? && t0.workers[w].left == n
    ensures Leads(cfg, s, es, t)
    ensures var k := t0.workers[w].key;
      && t.queue == AddAfterTimes(t0.queue, k, n) && t.owed == t0.owed
      && t.workers == t0.workers[w := Closing(k)] && t.pending == t0.pending
  {
    LeadsFurther(cfg, s, es0, t0, Readd(w));
    es, t := es0 + [Readd(w)], Apply(cfg, t0, Readd(w));
    if n == 2 {
      LeadsFurther(cfg, s, es, t, Readd(w));
      es, t := es + [Readd(w)], Apply(cfg, t, Readd(w));
    }
  }

  lemma TurnEnd<T>(cfg: Config<T>, s: Sys<T>, es0: seq<Event<T>>, t0: Sys<T>, w: nat)
    returns (es: seq<Event<T>>, t: Sys<T>)
    requires Leads(cfg, s, es0, t0) && w < |s.workers| && s.workers[w].Idle?
    requires w < |t0.workers| && t0.workers[w].Closing? && t0.workers[w].key in t0.queue.processing
    requires t0.workers == s.workers[w := t0.workers[w]]
    ensures Leads(cfg, s, es, t) && t.workers == s.workers && t.owed == t0.owed && t.pending == t0.pending
    ensures t.queue == WorkQueue.Done(t0.queue, t0.workers[w].key)
  {
    LeadsFurther(cfg, s, es0, t0, Close(w));
    es, t := es0 + [Close(w)], Apply(cfg, t0, Close(w));
  }

  /** What a worker that holds a message does before Done. */
  lemma TurnMiddle<T>(cfg: Config<T>, s: Sys<T>, es0: seq<Event<T>>, t0: Sys<T>, w: nat, o: Outcome)
    returns (es: seq<Event<T>>, t: Sys<T>)
    requires Leads(cfg, s, es0, t0) && w < |t0.workers| && t0.workers[w].Running?
    ensures Leads(cfg, s, es, t)
    ensures var Running(k, m) := t0.workers[w];
      && t.owed == t0.owed && t.workers == t0.workers[w := Closing(k)]
      && t.queue == AddAfterTimes(t0.queue, k, Adds(o))
      && t.pending == if o.Succeeded? then t0.pending else Restaged(cfg, t0.pending, k, m)
  {
    if o.Succeeded? {
      LeadsFurther(cfg, s, es0, t0, Finish(w, o));
      es, t := es0 + [Finish(w, o)], Apply(cfg, t0, Finish(w, o));
    } else {
      es, t := TurnRetry(cfg, s, es0, t0, w, o);
    }
  }

  lemma TurnFinish<T>(cfg: Config<T>, handler: T -> Outcome, s: Sys<T>, es0: seq<Event<T>>, t0: Sys<T>, w: nat)
    returns (es: seq<Event<T>>, t: Sys<T>)
    requires Leads(cfg, s, es0, t0) && w < |s.workers| && s.workers[w].Idle? && s.queue.order != []
    requires s.queue.order[0] in s.pending
    requires var k := s.queue.order[0];
      t0 == Sys(WorkQueue.Get(s.queue), Taken(s.pending, k), s.owed, s.workers[w := Running(k, s.pending[k])],
                t0.tracks)
    ensures Leads(cfg, s, es, t) && t.workers == s.workers && t.owed == s.owed
    ensures (t.queue, t.pending) == Processed(cfg, handler, s.queue, s.pending)
  {
    var k := s.queue.order[0];
    var o := handler(s.pending[k]);
    AddAfterTimesOnlyDelays(t0.queue, k, Adds(o));
    es, t := TurnMiddle(cfg, s, es0, t0, w, o);
    assert t.workers == s.workers[w := t.workers[w]];
    es, t := TurnEnd(cfg, s, es, t, w);
  }

  /** processNext run without interruption is one schedule of its atomic steps: it ends with the
      queue and side map that Processed describes, and the worker is idle again. */
  lemma TurnRefinesSteps<T>(cfg: Config<T>, handler: T -> Outcome, s: Sys<T>, w: nat)
    returns (es: seq<Event<T>>, t: Sys<T>)
    requires w < |s.workers| && s.workers[w].Idle? && s.queue.order != []
    ensures Leads(cfg, s, es, t) && t.workers == s.workers && t.owed == s.owed
    ensures (t.queue, t.pending) == Processed(cfg, handler, s.queue, s.pending)
  {
    es, t := TurnStart(cfg, s, w);
    if s.queue.order[0] in s.pending {
      es, t := TurnFinish(cfg, handler, s, es, t, w);
    } else {
      assert Taken(s.pending, s.queue.order[0]) == s.pending;
      es, t := TurnEnd(cfg, s, es, t, w);
    }
  }
}
