/** In which order the controller hands its keys to the workers. */
module KeyedOrder {
  import opened Options
  import opened WorkQueue
  import opened KeyedController
  import opened KeyedSystem
  import opened Sequences

  /** The key that a step makes waiting, if any. */
  function Joined<T>(cfg: Config<T>, s: Sys<T>, e: Event<T>): seq<Key>
    requires Enabled(s, e)
  {
    var k := Subject(cfg, s, e);
    if k !in s.queue.order && k in Apply(cfg, s, e).queue.order then [k] else []
  }

  /** The key that a step hands to a worker, if any. */
  function HandedOut<T>(cfg: Config<T>, s: Sys<T>, e: Event<T>): seq<Key>
    requires Enabled(s, e)
  {
    if e.Get? then [Apply(cfg, s, e).workers[e.w].key] else []
  }

  function AllJoined<T>(cfg: Config<T>, s: Sys<T>, es: seq<Event<T>>): seq<Key>
    requires Exec(cfg, s, es).Some?
    decreases |es|
  {
    if es == [] then [] else Joined(cfg, s, es[0]) + AllJoined(cfg, Apply(cfg, s, es[0]), es[1..])
  }

  function AllHandedOut<T>(cfg: Config<T>, s: Sys<T>, es: seq<Event<T>>): seq<Key>
    requires Exec(cfg, s, es).Some?
    decreases |es|
  {
    if es == [] then [] else HandedOut(cfg, s, es[0]) + AllHandedOut(cfg, Apply(cfg, s, es[0]), es[1..])
  }

  lemma StepKeepsOrder<T>(cfg: Config<T>, s: Sys<T>, e: Event<T>)
    requires Serialized(s) && Enabled(s, e)
    ensures s.queue.order + Joined(cfg, s, e) == HandedOut(cfg, s, e) + Apply(cfg, s, e).queue.order
  {
    var k := Subject(cfg, s, e);
    WaitingIsFirstInFirstOut(s.queue, k, if e.Fire? then e.n else 0);
    OperationsKeepCoherent(s.queue, k, if e.Fire? then e.n else 0);
    if e.Get? { assert s.queue.order == [s.queue.order[0]] + s.queue.order[1..]; }
  }

  /** In every interleaving, what was waiting and what joined since is what was handed out, in that order, and
      what is waiting now. */
  lemma {:induction false} HandedOutInOrder<T>(cfg: Config<T>, s: Sys<T>, es: seq<Event<T>>)
    requires Serialized(s) && Exec(cfg, s, es).Some?
    ensures s.queue.order + AllJoined(cfg, s, es) ==
            AllHandedOut(cfg, s, es) + Exec(cfg, s, es).value.queue.order
    decreases |es|
  {
    if es != [] {
      var t := Apply(cfg, s, es[0]);
      StepKeepsOrder(cfg, s, es[0]);
      StepKeepsSerialized(cfg, s, es[0]);
      HandedOutInOrder(cfg, t, es[1..]);
      Regroup(s.queue.order, Joined(cfg, s, es[0]), AllJoined(cfg, t, es[1..]), HandedOut(cfg, s, es[0]),
              t.queue.order, AllHandedOut(cfg, t, es[1..]), Exec(cfg, s, es).value.queue.order);
    }
  }

  function GetCount<T>(es: seq<Event<T>>): nat {
    if es == [] then 0 else (if es[0].Get? then 1 else 0) + GetCount(es[1..])
  }

  lemma {:induction false} EveryGetHandsOut<T>(cfg: Config<T>, s: Sys<T>, es: seq<Event<T>>)
    requires Exec(cfg, s, es).Some?
    ensures |AllHandedOut(cfg, s, es)| == GetCount(es)
    decreases |es|
  {
    if es != [] { EveryGetHandsOut(cfg, Apply(cfg, s, es[0]), es[1..]); }
  }

  /** A waiting key is overtaken by nobody: the key at position i is handed out by the (i + 1)-th Get from now on,
      whatever is staged in the meantime, and until then each Get moves it one place to the front. */
  lemma WaitsItsTurn<T(!new)>(cfg: Config<T>, n: nat, s: Sys<T>, es: seq<Event<T>>, i: nat)
    requires Reachable(cfg, n, s) && Exec(cfg, s, es).Some? && i < |s.queue.order|
    ensures |AllHandedOut(cfg, s, es)| == GetCount(es)
    ensures i < GetCount(es) ==> AllHandedOut(cfg, s, es)[i] == s.queue.order[i]
    ensures i >= GetCount(es) ==>
              var order := Exec(cfg, s, es).value.queue.order;
              i - GetCount(es) < |order| && order[i - GetCount(es)] == s.queue.order[i]
  {
    ReachableStructure(cfg, n, s);
    HandedOutInOrder(cfg, s, es);
    EveryGetHandsOut(cfg, s, es);
    assert (s.queue.order + AllJoined(cfg, s, es))[i] == s.queue.order[i];
  }
}
