/** Which messages a payload stands for, and for which merge functions that is exact. */
module KeyedPayloads {
  import opened Options
  import opened WorkQueue
  import opened KeyedController
  import opened KeyedSystem

  // ---------- the laws of a merge function ----------

  /** With nothing pending, the incoming message is kept as it is. */
  ghost predicate UnitLaw<T(!new)>(cfg: Config<T>) {
    cfg.mergeFn.Some? ==> forall m :: cfg.mergeFn.value(cfg.zero, false, m) == m
  }

  /** Merging two messages of a key gives a message of that key. */
  ghost predicate KeyPreserving<T(!new)>(cfg: Config<T>) {
    forall a, b :: cfg.keyFn(a) == cfg.keyFn(b) ==> cfg.keyFn(Combine(cfg, a, b)) == cfg.keyFn(b)
  }

  ghost predicate AssociativeAt<T>(cfg: Config<T>, a: T, b: T, c: T) {
    cfg.keyFn(a) == cfg.keyFn(b) == cfg.keyFn(c) ==> AssociatesAt(cfg, a, b, c)
  }

  ghost predicate Associative<T(!new)>(cfg: Config<T>) {
    forall a, b, c :: AssociativeAt(cfg, a, b, c)
  }

  ghost predicate AssociatesAt<T>(cfg: Config<T>, a: T, b: T, c: T) {
    Combine(cfg, Combine(cfg, a, b), c) == Combine(cfg, a, Combine(cfg, b, c))
  }

  /** Merging two merged segments of a key merges their concatenation. */
  ghost predicate SegmentLawAt<T>(cfg: Config<T>, k: Key, x: seq<T>, y: seq<T>) {
    x != [] && y != [] && AllOfKey(cfg, x, k) && AllOfKey(cfg, y, k) ==>
      Fold(cfg, x + y) == Combine(cfg, Fold(cfg, x), Fold(cfg, y))
  }

  ghost predicate SegmentLaw<T(!new)>(cfg: Config<T>) {
    forall k, x, y :: SegmentLawAt(cfg, k, x, y)
  }

  // ---------- the claim about payloads ----------

  /** pending[k] is the merge of exactly the pending segment, and the payload a worker holds
      for k is the merge of exactly the segment in flight. */
  ghost predicate FaithfulAt<T>(cfg: Config<T>, s: Sys<T>, k: Key) {
    var t := TrackOf(s, k);
    && (k in s.pending && t.taken < |t.log| ==> s.pending[k] == Fold(cfg, t.log[t.taken..]))
    && (forall w: nat :: Owns(s, w, k) && HoldsPayload(s.workers[w]) && t.acked < t.taken <= |t.log| ==>
         s.workers[w].message == Fold(cfg, t.log[t.acked..t.taken]))
  }

  ghost predicate Faithful<T>(cfg: Config<T>, s: Sys<T>) {
    forall k :: FaithfulAt(cfg, s, k)
  }

  // ---------- merging segments ----------

  ghost predicate AllOfKey<T>(cfg: Config<T>, seg: seq<T>, k: Key) {
    forall i :: 0 <= i < |seg| ==> cfg.keyFn(seg[i]) == k
  }

  lemma {:induction false} FoldKeepsKey<T(!new)>(cfg: Config<T>, seg: seq<T>, k: Key)
    requires KeyPreserving(cfg) && seg != [] && AllOfKey(cfg, seg, k)
    ensures cfg.keyFn(Fold(cfg, seg)) == k
  {
    if |seg| > 1 { FoldKeepsKey(cfg, seg[..|seg| - 1], k); }
  }

  /** Under the laws, merging two folded segments folds their concatenation. */
  lemma {:induction false} FoldConcat<T(!new)>(cfg: Config<T>, x: seq<T>, y: seq<T>, k: Key)
    requires KeyPreserving(cfg) && Associative(cfg)
    requires x != [] && y != [] && AllOfKey(cfg, x, k) && AllOfKey(cfg, y, k)
    ensures Fold(cfg, x + y) == Combine(cfg, Fold(cfg, x), Fold(cfg, y))
    decreases |y|
  {
    var front := y[..|y| - 1];
    var last := y[|y| - 1];
    if front == [] {
      assert (x + y)[..|x + y| - 1] == x;
    } else {
      assert (x + y)[..|x + y| - 1] == x + front;
      FoldConcat(cfg, x, front, k);
      FoldKeepsKey(cfg, x, k);
      FoldKeepsKey(cfg, front, k);
      assert AssociativeAt(cfg, Fold(cfg, x), Fold(cfg, front), last);
    }
  }

  /** The same for a function that is associative on all messages, whatever keys it produces. */
  lemma {:induction false} FoldConcatEverywhere<T(!new)>(cfg: Config<T>, x: seq<T>, y: seq<T>)
    requires (forall a, b, c :: AssociatesAt(cfg, a, b, c)) && x != [] && y != []
    ensures Fold(cfg, x + y) == Combine(cfg, Fold(cfg, x), Fold(cfg, y))
    decreases |y|
  {
    var front, last := y[..|y| - 1], y[|y| - 1];
    assert x + y == (x + front) + [last] && y == front + [last];
    FoldSnoc(cfg, x + front, last);
    FoldSnoc(cfg, front, last);
    if front == [] {
      assert x + front == x;
    } else {
      FoldConcatEverywhere(cfg, x, front);
      assert AssociatesAt(cfg, Fold(cfg, x), Fold(cfg, front), last);
    }
  }

  lemma FoldSnoc<T>(cfg: Config<T>, x: seq<T>, m: T)
    ensures x == [] ==> Fold(cfg, x + [m]) == m
    ensures x != [] ==> Fold(cfg, x + [m]) == Combine(cfg, Fold(cfg, x), m)
  {
    assert (x + [m])[..|x + [m]| - 1] == x;
  }

  /** Without mergeFn a segment is represented by its newest message. */
  lemma FoldLatestWins<T(!new)>(cfg: Config<T>, seg: seq<T>)
    requires cfg.mergeFn.None? && seg != []
    ensures Fold(cfg, seg) == seg[|seg| - 1]
  {
  }

  // ---------- steps keep the claim ----------

  lemma StageKeepsFaithful<T(!new)>(cfg: Config<T>, s: Sys<T>, e: Event<T>)
    requires UnitLaw(cfg) && e.Stage?
    requires SplitAt(cfg, s, cfg.keyFn(e.message)) && FaithfulAt(cfg, s, cfg.keyFn(e.message))
    ensures FaithfulAt(cfg, Apply(cfg, s, e), cfg.keyFn(e.message))
  {
    var k := cfg.keyFn(e.message);
    var t := TrackOf(s, k);
    var log' := t.log + [e.message];
    assert log'[t.taken..] == t.log[t.taken..] + [e.message];
    FoldSnoc(cfg, t.log[t.taken..], e.message);
    assert t.acked < t.taken ==> log'[t.acked..t.taken] == t.log[t.acked..t.taken];
    StepMovesOneWorker(cfg, s, e);
  }

  lemma TakeKeepsFaithful<T(!new)>(cfg: Config<T>, s: Sys<T>, e: Event<T>)
    requires Serialized(s) && e.Take? && Enabled(s, e)
    requires SplitAt(cfg, s, s.workers[e.w].key) && FaithfulAt(cfg, s, s.workers[e.w].key)
    ensures FaithfulAt(cfg, Apply(cfg, s, e), s.workers[e.w].key)
  {
    var k := s.workers[e.w].key;
    var t := TrackOf(s, k);
    var s' := Apply(cfg, s, e);
    StepInFlight(cfg, s, e, k);
    assert t.acked == t.taken;
    assert t.log[t.acked..|t.log|] == t.log[t.taken..];
    StepKeepsSerialized(cfg, s, e);
    StepMovesOneWorker(cfg, s, e);
    assert forall w: nat :: Owns(s', w, k) ==> w == e.w;
  }

  lemma RestageKeepsFaithful<T(!new)>(cfg: Config<T>, s: Sys<T>, e: Event<T>)
    requires SegmentLaw(cfg)
    requires Serialized(s) && e.Restage? && Enabled(s, e)
    requires SplitAt(cfg, s, s.workers[e.w].key) && FaithfulAt(cfg, s, s.workers[e.w].key)
    ensures FaithfulAt(cfg, Apply(cfg, s, e), s.workers[e.w].key)
  {
    var k := s.workers[e.w].key;
    var t := TrackOf(s, k);
    var s' := Apply(cfg, s, e);
    StepInFlight(cfg, s, e, k);
    StepMovesOneWorker(cfg, s, e);
    assert s.workers[e.w].message == Fold(cfg, t.log[t.acked..t.taken]);
    if k in s.pending {
      assert t.log[t.acked..] == t.log[t.acked..t.taken] + t.log[t.taken..];
      assert SegmentLawAt(cfg, k, t.log[t.acked..t.taken], t.log[t.taken..]);
    } else {
      assert t.log[t.acked..] == t.log[t.acked..t.taken];
    }
    assert TrackOf(s', k).taken == t.acked;
  }

  /** The remaining steps change neither payload nor the cuts between the segments, except
      that success empties the segment in flight. */
  lemma OtherKeepsFaithful<T(!new)>(cfg: Config<T>, s: Sys<T>, e: Event<T>)
    requires Serialized(s) && Enabled(s, e) && !e.Stage? && !e.Take? && !e.Restage?
    requires FaithfulAt(cfg, s, Subject(cfg, s, e))
    ensures FaithfulAt(cfg, Apply(cfg, s, e), Subject(cfg, s, e))
  {
    var s' := Apply(cfg, s, e);
    var k := Subject(cfg, s, e);
    StepMovesOneWorker(cfg, s, e);
    assert s'.pending == s.pending;
    if IsWorkerStep(e) {
      StepKeepsSerialized(cfg, s, e);
      assert HoldsPayload(s'.workers[e.w]) ==>
        HoldsPayload(s.workers[e.w]) && s'.workers[e.w].message == s.workers[e.w].message;
    }
  }

  lemma StepKeepsFaithful<T(!new)>(cfg: Config<T>, s: Sys<T>, e: Event<T>)
    requires UnitLaw(cfg) && SegmentLaw(cfg)
    requires Structure(cfg, s) && Faithful(cfg, s) && Enabled(s, e)
    ensures Faithful(cfg, Apply(cfg, s, e))
  {
    var s' := Apply(cfg, s, e);
    var k0 := Subject(cfg, s, e);
    StepMovesOneWorker(cfg, s, e);
    assert FaithfulAt(cfg, s, k0) && SplitAt(cfg, s, k0);
    match e {
      case Stage(_) => StageKeepsFaithful(cfg, s, e);
      case Take(_) => TakeKeepsFaithful(cfg, s, e);
      case Restage(_) => RestageKeepsFaithful(cfg, s, e);
      case _ => OtherKeepsFaithful(cfg, s, e);
    }
    forall k | k != k0 ensures FaithfulAt(cfg, s', k) {
      assert FaithfulAt(cfg, s, k);
      StepIsLocal(cfg, s, e, k);
    }
  }

  lemma {:induction false} RunKeepsFaithful<T(!new)>(cfg: Config<T>, s: Sys<T>, es: seq<Event<T>>)
    requires UnitLaw(cfg) && SegmentLaw(cfg)
    requires Structure(cfg, s) && Faithful(cfg, s) && Exec(cfg, s, es).Some?
    ensures Faithful(cfg, Exec(cfg, s, es).value)
    decreases |es|
  {
    if es != [] {
      StepKeepsStructure(cfg, s, es[0]);
      StepKeepsFaithful(cfg, s, es[0]);
      RunKeepsFaithful(cfg, Apply(cfg, s, es[0]), es[1..]);
    }
  }

  // ---------- exactly which merge functions are faithful ----------

  /** Coalescing and retries never lose, duplicate or reorder a message, in any schedule. */
  ghost predicate AlwaysFaithful<T(!new)>(cfg: Config<T>) {
    forall n: nat, s: Sys<T> :: Reachable(cfg, n, s) ==> Faithful(cfg, s)
  }

  /** One staged message already tells whether mergeFn keeps it when nothing is pending. */
  lemma UnitLawNeeded<T(!new)>(cfg: Config<T>, m: T)
    requires AlwaysFaithful(cfg) && cfg.mergeFn.Some?
    ensures cfg.mergeFn.value(cfg.zero, false, m) == m
  {
    var s := Init<T>(0);
    InitReachable(cfg, 0);
    StepReachable(cfg, 0, s, Stage(m));
    var s' := Apply(cfg, s, Stage(m));
    var k := cfg.keyFn(m);
    assert FaithfulAt(cfg, s', k);
    assert TrackOf(s', k).log[0..] == [m];
  }

  /** t is s with the segment staged for k, which had nothing pending. */
  ghost predicate AllStaged<T>(cfg: Config<T>, s: Sys<T>, t: Sys<T>, seg: seq<T>, k: Key) {
    && t.queue == s.queue && t.workers == s.workers
    && TrackOf(t, k) == TrackOf(s, k).(log := TrackOf(s, k).log + seg)
    && if seg == [] then k !in t.pending else k in t.owed && k in t.pending && t.pending[k] == Fold(cfg, seg)
  }

  lemma StageOne<T(!new)>(cfg: Config<T>, s: Sys<T>, u: Sys<T>, front: seq<T>, m: T, k: Key)
    requires UnitLaw(cfg) && cfg.keyFn(m) == k && AllStaged(cfg, s, u, front, k)
    ensures AllStaged(cfg, s, Apply(cfg, u, Stage(m)), front + [m], k)
  {
    FoldSnoc(cfg, front, m);
    var log := TrackOf(s, k).log;
    assert log + front + [m] == log + (front + [m]);
  }

  /** A property of states that every step keeps; being reachable is one. */
  ghost predicate StepClosed<T(!new)>(cfg: Config<T>, P: Sys<T> -> bool) {
    forall s, e :: P(s) && Enabled(s, e) ==> P(Apply(cfg, s, e))
  }

  lemma ReachableIsStepClosed<T(!new)>(cfg: Config<T>, n: nat)
    ensures StepClosed(cfg, s => Reachable(cfg, n, s))
  {
    forall s, e: Event<T> | Reachable(cfg, n, s) && Enabled(s, e) ensures Reachable(cfg, n, Apply(cfg, s, e)) {
      StepReachable(cfg, n, s, e);
    }
  }

  /** Staging the messages of a segment one after the other. */
  lemma {:induction false} StageAll<T(!new)>(cfg: Config<T>, P: Sys<T> -> bool, s: Sys<T>, seg: seq<T>, k: Key)
    returns (t: Sys<T>)
    requires UnitLaw(cfg) && StepClosed(cfg, P) && P(s) && AllOfKey(cfg, seg, k) && k !in s.pending
    ensures P(t) && AllStaged(cfg, s, t, seg, k)
    decreases |seg|
  {
    if seg == [] {
      StagedNothing(cfg, s, k);
      t := s;
    } else {
      var front, m := seg[..|seg| - 1], seg[|seg| - 1];
      var u := StageAll(cfg, P, s, front, k);
      t := StageMore(cfg, P, s, u, front, m, k);
      assert seg == front + [m];
    }
  }

  lemma StagedNothing<T>(cfg: Config<T>, s: Sys<T>, k: Key)
    requires k !in s.pending
    ensures AllStaged(cfg, s, s, [], k)
  {
    assert TrackOf(s, k).log + [] == TrackOf(s, k).log;
  }

  lemma StageMore<T(!new)>(cfg: Config<T>, P: Sys<T> -> bool, s: Sys<T>, u: Sys<T>, front: seq<T>, m: T, k: Key)
    returns (t: Sys<T>)
    requires UnitLaw(cfg) && cfg.keyFn(m) == k && StepClosed(cfg, P) && P(u) && AllStaged(cfg, s, u, front, k)
    ensures P(t) && AllStaged(cfg, s, t, front + [m], k)
  {
    t := Apply(cfg, u, Stage(m));
    StageOne(cfg, s, u, front, m, k);
  }

  /** A worker is busy with the merge of x, and nothing else of the key is pending. */
  predicate BusyWith<T(==)>(s: Sys<T>, k: Key, x: seq<T>, payload: T) {
    && s.workers == [Running(k, payload)] && k !in s.pending
    && TrackOf(s, k).log == x && TrackOf(s, k).acked == 0 && TrackOf(s, k).taken == |x|
  }

  lemma GetRun<T(!new)>(cfg: Config<T>, P: Sys<T> -> bool, s: Sys<T>, k: Key) returns (t: Sys<T>)
    requires StepClosed(cfg, P) && P(s) && k in s.owed && s.queue == EMPTY && s.workers == [Idle]
    ensures P(t) && t.workers == [Got(k)] && t.pending == s.pending && TrackOf(t, k) == TrackOf(s, k)
  {
    var u := Apply(cfg, s, Enqueue(k));
    assert u.queue.order == [k];
    t := Apply(cfg, u, Get(0));
  }

  lemma TakeRun<T(!new)>(cfg: Config<T>, P: Sys<T> -> bool, s: Sys<T>, k: Key, x: seq<T>) returns (t: Sys<T>)
    requires StepClosed(cfg, P) && P(s) && s.workers == [Got(k)] && k in s.pending &&
            TrackOf(s, k) == Track(x, 0, 0, [])
    ensures P(t) && BusyWith(t, k, x, s.pending[k])
  {
    t := Apply(cfg, s, Take(0));
  }

  lemma StagedFirst<T>(cfg: Config<T>, t: Sys<T>, x: seq<T>, k: Key)
    requires AllStaged(cfg, Init(1), t, x, k)
    ensures t.queue == EMPTY && t.workers == [Idle] && TrackOf(t, k) == Track(x, 0, 0, [])
  {
    assert [] + x == x && Init<T>(1).workers == [Idle];
  }

  lemma BusyRun<T(!new)>(cfg: Config<T>, P: Sys<T> -> bool, k: Key, x: seq<T>) returns (s: Sys<T>)
    requires UnitLaw(cfg) && StepClosed(cfg, P) && P(Init(1)) && x != [] && AllOfKey(cfg, x, k)
    ensures P(s) && BusyWith(s, k, x, Fold(cfg, x))
  {
    var s1 := StageAll(cfg, P, Init<T>(1), x, k);
    StagedFirst(cfg, s1, x, k);
    var s3 := GetRun(cfg, P, s1, k);
    s := TakeRun(cfg, P, s3, k, x);
  }

  /** x is taken and fails while y arrives, so the retry merges x with y. */
  lemma RetryRun<T(!new)>(cfg: Config<T>, P: Sys<T> -> bool, k: Key, x: seq<T>, y: seq<T>) returns (s: Sys<T>)
    requires UnitLaw(cfg) && StepClosed(cfg, P) && P(Init(1)) && x != [] && y != [] && AllOfKey(cfg, x, k) &&
            AllOfKey(cfg, y, k)
    ensures P(s) && TrackOf(s, k).log == x + y && TrackOf(s, k).taken == 0
    ensures k in s.pending && s.pending[k] == Combine(cfg, Fold(cfg, x), Fold(cfg, y))
  {
    var s4 := BusyRun(cfg, P, k, x);
    var s5 := StageAll(cfg, P, s4, y, k);
    var s6 := Apply(cfg, s5, Finish(0, Failed));
    assert s6.workers == [Restaging(k, Fold(cfg, x), Failed)];
    s := Apply(cfg, s6, Restage(0));
  }

  lemma SegmentLawNeeded<T(!new)>(cfg: Config<T>, k: Key, x: seq<T>, y: seq<T>)
    requires AlwaysFaithful(cfg) && UnitLaw(cfg)
    ensures SegmentLawAt(cfg, k, x, y)
  {
    if x != [] && y != [] && AllOfKey(cfg, x, k) && AllOfKey(cfg, y, k) {
      var P := s => Reachable(cfg, 1, s);
      ReachableIsStepClosed(cfg, 1);
      InitReachable(cfg, 1);
      var s := RetryRun(cfg, P, k, x, y);
      assert Reachable(cfg, 1, s);
      assert FaithfulAt(cfg, s, k);
      assert (x + y)[0..] == x + y;
    }
  }

  /** Payloads are exact in every interleaving if and only if mergeFn keeps a first message unchanged and
      merging two merged segments of a key gives the merge of both. */
  lemma FaithfulIffSegments<T(!new)>(cfg: Config<T>)
    ensures AlwaysFaithful(cfg) <==> UnitLaw(cfg) && SegmentLaw(cfg)
  {
    if UnitLaw(cfg) && SegmentLaw(cfg) {
      forall n: nat, s: Sys<T> | Reachable(cfg, n, s) ensures Faithful(cfg, s) {
        var es: seq<Event<T>> :| Exec(cfg, Init(n), es) == Some(s);
        InitStructure(cfg, n);
        RunKeepsFaithful(cfg, Init(n), es);
      }
    }
    if AlwaysFaithful(cfg) {
      if cfg.mergeFn.Some? {
        forall m ensures cfg.mergeFn.value(cfg.zero, false, m) == m { UnitLawNeeded(cfg, m); }
      }
      forall k, x, y ensures SegmentLawAt(cfg, k, x, y) { SegmentLawNeeded(cfg, k, x, y); }
    }
  }

  lemma FoldTriple<T>(cfg: Config<T>, a: T, b: T, c: T)
    ensures Fold(cfg, [a, b, c]) == Combine(cfg, Combine(cfg, a, b), c)
  {
    FoldSnoc(cfg, [a], b);
    FoldSnoc(cfg, [a, b], c);
    assert [a] + [b] == [a, b] && [a, b] + [c] == [a, b, c];
  }

  lemma SegmentsOfThree<T(!new)>(cfg: Config<T>, a: T, b: T, c: T)
    requires SegmentLaw(cfg)
    ensures AssociativeAt(cfg, a, b, c)
  {
    if cfg.keyFn(a) == cfg.keyFn(b) == cfg.keyFn(c) {
      assert SegmentLawAt(cfg, cfg.keyFn(a), [a], [b, c]);
      assert [a] + [b, c] == [a, b, c] && [b, c] == [b] + [c];
      FoldTriple(cfg, a, b, c);
      FoldSnoc(cfg, [b], c);
    }
  }

  /** The segment law implies associativity on messages of one key; the converse holds when merging stays
      within a key, or when mergeFn is associative on all messages. */
  lemma SegmentLawIffAssociative<T(!new)>(cfg: Config<T>)
    ensures SegmentLaw(cfg) ==> Associative(cfg)
    ensures KeyPreserving(cfg) && Associative(cfg) ==> SegmentLaw(cfg)
    ensures (forall a, b, c :: AssociatesAt(cfg, a, b, c)) ==> SegmentLaw(cfg)
  {
    if SegmentLaw(cfg) {
      forall a, b, c ensures AssociativeAt(cfg, a, b, c) { SegmentsOfThree(cfg, a, b, c); }
    }
    if KeyPreserving(cfg) && Associative(cfg) {
      forall k, x, y ensures SegmentLawAt(cfg, k, x, y) {
        if x != [] && y != [] && AllOfKey(cfg, x, k) && AllOfKey(cfg, y, k) { FoldConcat(cfg, x, y, k); }
      }
    }
    if forall a, b, c :: AssociatesAt(cfg, a, b, c) {
      forall k, x, y ensures SegmentLawAt(cfg, k, x, y) {
        if x != [] && y != [] { FoldConcatEverywhere(cfg, x, y); }
      }
    }
  }

  /** For a merge function that stays within a key, payloads are exact in every interleaving if and only if the
      function is associative on messages of one key and keeps a first message unchanged. */
  lemma FaithfulIffAssociative<T(!new)>(cfg: Config<T>)
    requires KeyPreserving(cfg)
    ensures AlwaysFaithful(cfg) <==> UnitLaw(cfg) && Associative(cfg)
  {
    FaithfulIffSegments(cfg);
    SegmentLawIffAssociative(cfg);
  }

  // ---------- what the handler sees ----------

  /** The calls of Do for one key: each covers a stretch of the log and starts either where the
      previous one started (a retry) or right after it (success), and never ends earlier. */
  ghost predicate Chained<T>(t: Track<T>) {
    && ChainedCalls(t.calls, |t.log|)
    && (t.calls == [] ==> t.acked == t.taken == 0)
    && (t.calls != [] ==>
         var last := t.calls[|t.calls| - 1];
         if t.acked < t.taken then t.acked == last.lo && t.taken == last.hi
         else t.acked == last.lo || t.acked == last.hi)
  }

  ghost predicate ChainedCalls<T>(calls: seq<Call<T>>, staged: nat) {
    && (forall i :: 0 <= i < |calls| ==> calls[i].lo < calls[i].hi <= staged)
    && (forall i :: 0 <= i < |calls| - 1 ==>
         && (calls[i + 1].lo == calls[i].lo || calls[i + 1].lo == calls[i].hi)
         && calls[i].hi <= calls[i + 1].hi)
    && (calls != [] ==> calls[0].lo == 0)
  }

  /** Every payload the handler was given is the merge of exactly the stretch it covers. */
  ghost predicate CallsFaithful<T>(cfg: Config<T>, t: Track<T>) {
    CallsCover(cfg, t.calls, t.log)
  }

  ghost predicate CallsCover<T>(cfg: Config<T>, calls: seq<Call<T>>, log: seq<T>) {
    forall i :: 0 <= i < |calls| && calls[i].lo < calls[i].hi <= |log| ==>
      calls[i].payload == Fold(cfg, log[calls[i].lo..calls[i].hi])
  }

  ghost predicate HandlerView<T>(cfg: Config<T>, s: Sys<T>) {
    forall k :: ViewAt(cfg, s, k)
  }

  lemma TakeKeepsView<T>(cfg: Config<T>, t: Track<T>, payload: T)
    requires Chained(t) && CallsFaithful(cfg, t)
    requires t.acked == t.taken < |t.log| && payload == Fold(cfg, t.log[t.taken..])
    ensures var t' := t.(taken := |t.log|, calls := t.calls + [Call(t.acked, |t.log|, payload)]);
      Chained(t') && CallsFaithful(cfg, t')
  {
    TakeKeepsChained(t, payload);
    assert t.log[t.acked..|t.log|] == t.log[t.taken..];
  }

  lemma TakeKeepsChained<T>(t: Track<T>, payload: T)
    requires Chained(t) && t.acked == t.taken < |t.log|
    ensures Chained(t.(taken := |t.log|, calls := t.calls + [Call(t.acked, |t.log|, payload)]))
  {
    if t.calls != [] { assert t.calls[|t.calls| - 1].hi <= |t.log|; }
  }

  lemma StageKeepsView<T>(cfg: Config<T>, t: Track<T>, m: T)
    requires Chained(t) && CallsFaithful(cfg, t)
    ensures Chained(t.(log := t.log + [m])) && CallsFaithful(cfg, t.(log := t.log + [m]))
  {
    forall i | 0 <= i < |t.calls|
      ensures (t.log + [m])[t.calls[i].lo..t.calls[i].hi] == t.log[t.calls[i].lo..t.calls[i].hi]
    {
    }
  }

  ghost predicate ViewAt<T>(cfg: Config<T>, s: Sys<T>, k: Key) {
    Chained(TrackOf(s, k)) && CallsFaithful(cfg, TrackOf(s, k))
  }

  lemma TrackAfter<T>(cfg: Config<T>, s: Sys<T>, e: Event<T>)
    requires Enabled(s, e)
    ensures TrackOf(Apply(cfg, s, e), Subject(cfg, s, e)) == NextTrack(cfg, s, e)
  {
  }

  /** The step's own key: staging and taking extend the history, success and restaging move a cut. */
  lemma SubjectKeepsView<T(!new)>(cfg: Config<T>, s: Sys<T>, e: Event<T>)
    requires Serialized(s) && Enabled(s, e)
    requires var k := Subject(cfg, s, e); SplitAt(cfg, s, k) && FaithfulAt(cfg, s, k) && ViewAt(cfg, s, k)
    ensures ViewAt(cfg, Apply(cfg, s, e), Subject(cfg, s, e))
  {
    var k := Subject(cfg, s, e);
    var t := TrackOf(s, k);
    TrackAfter(cfg, s, e);
    if e.Stage? {
      StageKeepsView(cfg, t, e.message);
    } else if e.Take? && k in s.pending {
      StepInFlight(cfg, s, e, k);
      TakeKeepsView(cfg, t, s.pending[k]);
    } else if e.Finish? || e.Restage? {
      StepInFlight(cfg, s, e, k);
      CutKeepsView(cfg, t);
    }
  }

  lemma CutKeepsView<T>(cfg: Config<T>, t: Track<T>)
    requires Chained(t) && CallsFaithful(cfg, t) && t.acked < t.taken
    ensures Chained(t.(acked := t.taken)) && CallsFaithful(cfg, t.(acked := t.taken))
    ensures Chained(t.(taken := t.acked)) && CallsFaithful(cfg, t.(taken := t.acked))
  {
  }

  lemma StepKeepsHandlerView<T(!new)>(cfg: Config<T>, s: Sys<T>, e: Event<T>)
    requires Structure(cfg, s) && Faithful(cfg, s) && HandlerView(cfg, s) && Enabled(s, e)
    ensures HandlerView(cfg, Apply(cfg, s, e))
  {
    forall k ensures ViewAt(cfg, Apply(cfg, s, e), k) {
      assert SplitAt(cfg, s, k) && FaithfulAt(cfg, s, k) && ViewAt(cfg, s, k);
      if k == Subject(cfg, s, e) { SubjectKeepsView(cfg, s, e); } else { StepIsLocal(cfg, s, e, k); }
    }
  }

  lemma {:induction false} RunKeepsHandlerView<T(!new)>(cfg: Config<T>, s: Sys<T>, es: seq<Event<T>>)
    requires UnitLaw(cfg) && SegmentLaw(cfg)
    requires Structure(cfg, s) && Faithful(cfg, s) && HandlerView(cfg, s) && Exec(cfg, s, es).Some?
    ensures HandlerView(cfg, Exec(cfg, s, es).value)
    decreases |es|
  {
    if es != [] {
      StepKeepsStructure(cfg, s, es[0]);
      StepKeepsFaithful(cfg, s, es[0]);
      StepKeepsHandlerView(cfg, s, es[0]);
      RunKeepsHandlerView(cfg, Apply(cfg, s, es[0]), es[1..]);
    }
  }

  lemma HandlerSeesTheLog<T(!new)>(cfg: Config<T>, n: nat, s: Sys<T>)
    requires UnitLaw(cfg) && SegmentLaw(cfg) && Reachable(cfg, n, s)
    ensures HandlerView(cfg, s)
  {
    var es: seq<Event<T>> :| Exec(cfg, Init(n), es) == Some(s);
    InitStructure(cfg, n);
    RunKeepsHandlerView(cfg, Init(n), es);
  }

  lemma {:induction false} CallEndsGrow<T>(t: Track<T>, i: nat, j: nat)
    requires Chained(t) && i <= j < |t.calls|
    ensures t.calls[i].hi <= t.calls[j].hi
    decreases j - i
  {
    if i < j { CallEndsGrow(t, i, j - 1); }
  }

  lemma LatestWinsSegments<T(!new)>(cfg: Config<T>)
    requires cfg.mergeFn.None?
    ensures UnitLaw(cfg) && SegmentLaw(cfg)
  {
    forall k, x, y ensures SegmentLawAt(cfg, k, x, y) {
      if x != [] && y != [] {
        FoldLatestWins(cfg, x + y);
        FoldLatestWins(cfg, y);
      }
    }
  }

  lemma CallIsNewest<T(!new)>(cfg: Config<T>, t: Track<T>, i: nat)
    requires cfg.mergeFn.None? && Chained(t) && CallsFaithful(cfg, t) && i < |t.calls|
    ensures 0 < t.calls[i].hi <= |t.log| && t.calls[i].payload == t.log[t.calls[i].hi - 1]
  {
    FoldLatestWins(cfg, t.log[t.calls[i].lo..t.calls[i].hi]);
  }

  /** Without mergeFn every call of Do gets the newest message of its stretch, and no call
      gets an older message than a call before it. */
  lemma LatestWinsNeverGoesBack<T(!new)>(cfg: Config<T>, n: nat, s: Sys<T>, k: Key, i: nat, j: nat)
    requires cfg.mergeFn.None? && Reachable(cfg, n, s)
    requires i <= j < |TrackOf(s, k).calls|
    ensures var t := TrackOf(s, k);
      && 0 < t.calls[i].hi <= t.calls[j].hi <= |t.log|
      && t.calls[i].payload == t.log[t.calls[i].hi - 1]
      && t.calls[j].payload == t.log[t.calls[j].hi - 1]
  {
    LatestWinsSegments(cfg);
    HandlerSeesTheLog(cfg, n, s);
    var t := TrackOf(s, k);
    assert ViewAt(cfg, s, k);
    CallEndsGrow(t, i, j);
    CallIsNewest(cfg, t, i);
    CallIsNewest(cfg, t, j);
  }
}
