/** Faulty-node diagnosis in every interleaving: what the pool, the answer and the run length are. */
module DiagnosisRuns {
  import opened Diagnosis
  import opened DiagnosisSteps
  import opened Sequences

  // ---------- every reachable configuration ----------

  /** main gives up on fewer than two nodes. A hosts file may repeat a line. */
  predicate Input(env: Env) {
    env.nodes != []
  }

  ghost predicate Invariant(env: Env, c: Conf) {
    && Shaped(c.task)
    && (forall n :: Conserved(multiset(env.nodes)[n], Total(c, n)))
    && c.g.failed + c.g.passed + Open(c.task) == |env.nodes|
    && Known(c) !! env.faulty && (Known(c) != {} ==> c.g.passed > 0) && (c.g.passed > 0 ==> Circulating(c) != {})
    && (forall n :: n in Accused(c.task) ==> n in env.faulty || c.g.failed >= |env.nodes| || c.g.disturbed)
    && c.g.tests + TestsLeft(c.task) < 3 * |env.nodes|
    && ((c.g.passed > 0 || Promise(env, c.task)) <==> HasCleanGroup(env, env.nodes))
  }

  lemma {:induction false} DistinctCopies(s: seq<Node>, n: Node)
    requires NoDuplicates(s)
    ensures multiset(s)[n] <= 1
    decreases |s|
  {
    if s != [] {
      assert s == [s[0]] + s[1..];
      DistinctCopies(s[1..], n);
      assert s[0] !in multiset(s[1..]);
    }
  }

  lemma StepKeepsInvariant(env: Env, c: Conf, m: Move)
    requires Input(env) && Invariant(env, c) && Enabled(env, c, m)
    ensures Invariant(env, Step(env, c, m))
  {
    forall n ensures Conserved(multiset(env.nodes)[n], Total(Step(env, c, m), n)) {
      assert Conserved(multiset(env.nodes)[n], Total(c, n));
      StepConserves(env, c, m, n);
    }
    StepAccounts(env, c, m);
    StepKeepsPromise(env, c, m);
    StepJudges(env, c, m);
  }

  lemma {:induction false} RunKeepsInvariant(env: Env, c: Conf, ms: seq<Move>, d: Conf)
    requires Input(env) && Invariant(env, c) && Run(env, c, ms, d)
    ensures Invariant(env, d) && |ms| <= Work(c.task) && (c.g.disturbed ==> d.g.disturbed)
    decreases |ms|
  {
    if ms != [] {
      StepKeepsInvariant(env, c, ms[0]);
      StepWorks(env, c, ms[0]);
      StepAccounts(env, c, ms[0]);
      RunKeepsInvariant(env, Step(env, c, ms[0]), ms[1..], d);
    }
  }

  lemma ReachableInvariant(env: Env, c: Conf)
    requires Input(env) && Reachable(env, c)
    ensures Invariant(env, c)
  {
    var ms :| Run(env, Start(env), ms, c);
    assert Known(Start(env)) == {};
    RunKeepsInvariant(env, Start(env), ms, c);
  }

  // ---------- main results ----------

  /** In every interleaving, also with timeouts and exceptions: only healthy nodes are in the
      queue, and fewer than 3n tests are run on n nodes. */
  lemma PoolIsHealthy(env: Env, c: Conf)
    requires Input(env) && Reachable(env, c)
    ensures forall n :: n in c.g.pool ==> n in env.nodes && n !in env.faulty
    ensures c.g.tests < 3 * |env.nodes|
  {
    ReachableInvariant(env, c);
    forall n | n in c.g.pool ensures n in env.nodes && n !in env.faulty {
      assert n in Known(c) && n in multiset(c.g.pool);
      assert Conserved(multiset(env.nodes)[n], Total(c, n));
    }
  }

  /** The give-up test is sound: once the counter reaches the number of nodes, nothing healthy
      is queued, on loan or about to be queued. */
  lemma GiveUpIsSound(env: Env, c: Conf)
    requires Input(env) && Reachable(env, c) && c.g.failed >= |env.nodes|
    ensures Known(c) == {} && c.g.pool == [] && Open(c.task) == 0
  {
    ReachableInvariant(env, c);
    SetOfHolds(c.g.pool);
  }

  /** At the end every input node, and nothing else, is in the answer or in the queue, and every
      faulty node is in the answer, timeouts and exceptions included. */
  lemma AnswerCoversInput(env: Env, c: Conf)
    requires Input(env) && Reachable(env, c) && c.task.Finished?
    ensures forall n :: n in env.nodes <==> n in c.task.bad || n in c.g.pool
    ensures forall n :: n in env.nodes && n in env.faulty ==> n in c.task.bad
  {
    ReachableInvariant(env, c);
    PoolIsHealthy(env, c);
    forall n ensures n in env.nodes <==> n in c.task.bad || n in c.g.pool {
      assert Conserved(multiset(env.nodes)[n], Total(c, n));
      assert n in env.nodes <==> n in multiset(env.nodes);
      assert n in c.g.pool <==> n in multiset(c.g.pool);
    }
  }

  /** Distinct input nodes are each exactly once in the answer or in the queue. */
  lemma AnswerPartitionsInput(env: Env, c: Conf)
    requires Input(env) && NoDuplicates(env.nodes) && Reachable(env, c) && c.task.Finished?
    ensures multiset(c.task.bad) + multiset(c.g.pool) == multiset(env.nodes)
    ensures forall n :: n in env.nodes && n in env.faulty ==> n in c.task.bad
  {
    ReachableInvariant(env, c);
    AnswerCoversInput(env, c);
    forall n ensures (multiset(c.task.bad) + multiset(c.g.pool))[n] == multiset(env.nodes)[n] {
      DistinctCopies(env.nodes, n);
      assert Conserved(multiset(env.nodes)[n], Total(c, n));
    }
  }

  /** The answer of an undisturbed run, for every schedule: exactly the faulty nodes when the
      recursion meets a clean group of its own, and every node otherwise. */
  lemma AnswerIsDetermined(env: Env, c: Conf)
    requires Input(env) && Reachable(env, c) && c.task.Finished? && !c.g.disturbed
    ensures c.task.bad == if HasCleanGroup(env, env.nodes) then set n | n in env.nodes && n in env.faulty
                          else SetOf(env.nodes)
  {
    ReachableInvariant(env, c);
    AnswerCoversInput(env, c);
    if !HasCleanGroup(env, env.nodes) { GiveUpIsSound(env, c); }
  }

  /** So the diagnosis is exact if and only if the recursion meets a clean group or nothing is
      healthy. */
  lemma ExactIffCleanGroup(env: Env, c: Conf)
    requires Input(env) && Reachable(env, c) && c.task.Finished? && !c.g.disturbed
    ensures c.task.bad == (set n | n in env.nodes && n in env.faulty)
       <==> HasCleanGroup(env, env.nodes) || (forall n :: n in env.nodes ==> n in env.faulty)
  {
    AnswerIsDetermined(env, c);
    if !HasCleanGroup(env, env.nodes) && exists n :: n in env.nodes && n !in env.faulty {
      var n :| n in env.nodes && n !in env.faulty;
      assert n in c.task.bad;
    }
  }

  // ---------- no deadlock ----------

  /** A move that is neither a timeout nor an exception. */
  predicate Ordinary(m: Move)
    decreases m
  {
    match m
    case Left(m') => Ordinary(m')
    case Right(m') => Ordinary(m')
    case Act(_, a) => !a.Timeout? && !a.Raise?
    case _ => true
  }

  lemma {:induction false} BusyTester(env: Env, xs: seq<Tester>, g: Shared, i: nat) returns (a: Act)
    requires i < |xs| && !xs[i].Verdict?
    requires g.pool != [] || g.failed >= |env.nodes| || xs[i].Holding?
    ensures CanAct(env, xs[i], g, a) && !a.Timeout? && !a.Raise?
  {
    if xs[i].Holding? { a := RunPair; }
    else if g.pool != [] { a := Borrow; }
    else { a := GiveUp; }
  }

  lemma {:induction false} NothingOnLoan(xs: seq<Tester>)
    requires forall i :: 0 <= i < |xs| ==> !xs[i].Holding?
    ensures TestersOnLoan(xs) == {}
    decreases |xs|
  {
    if xs != [] { NothingOnLoan(xs[1..]); }
  }

  /** A call tree that is not finished has an ordinary move, unless it only waits for the queue:
      then it has no open group and nothing borrowed. */
  lemma {:induction false} MoveOrWait(env: Env, t: Task, g: Shared) returns (ok: bool, m: Move)
    requires !t.Finished?
    ensures ok ==> Enabled(env, Conf(t, g), m) && Ordinary(m)
    ensures !ok ==> Open(t) == 0 && OnLoan(t) == {} && g.pool == [] && g.failed < |env.nodes|
    decreases t
  {
    ok := true;
    match t {
      case Testing(_) => m := RunGroup;
      case Publishing(_) => m := Publish;
      case Counting(_) => m := Count;
      case Checking(_, xs) =>
        if xs == [] || xs[0].Verdict? { m := Collect; return; }
        if g.pool != [] || g.failed >= |env.nodes| {
          var a := BusyTester(env, xs, g, 0);
          m := Act(0, a);
        } else if i :| 0 <= i < |xs| && xs[i].Holding? {
          m := Act(i, RunPair);
        } else {
          ok, m := false, Collect;
          NothingOnLoan(xs);
        }
      case Split(l, r) =>
        m := Join;
        if !l.Finished? {
          ok, m := MoveOrWait(env, l, g);
          if ok { m := Left(m); return; }
        }
        if !r.Finished? {
          ok, m := MoveOrWait(env, r, g);
          if ok { m := Right(m); return; }
        }
      case Finished(_) =>
    }
  }

  /** Every unfinished configuration has an ordinary move: no schedule deadlocks or needs the
      timeout, and no schedule takes more than 12n steps. */
  lemma NeverStuck(env: Env, c: Conf) returns (m: Move)
    requires Input(env) && Reachable(env, c) && !c.task.Finished?
    ensures Enabled(env, c, m) && Ordinary(m)
  {
    ReachableInvariant(env, c);
    var ok;
    ok, m := MoveOrWait(env, c.task, c.g);
    assert c.g.pool == [] && OnLoan(c.task) == {} ==> Circulating(c) == {};
  }

  lemma RunsAreShort(env: Env, ms: seq<Move>, c: Conf)
    requires Input(env) && Run(env, Start(env), ms, c)
    ensures |ms| <= 12 * |env.nodes|
  {
    assert Known(Start(env)) == {};
    RunKeepsInvariant(env, Start(env), ms, c);
  }

  // ---------- what the histories record ----------

  /** A move that runs a bandwidth test, of a group or of a pair. */
  predicate IsTest(m: Move)
    decreases m
  {
    match m
    case Left(m') => IsTest(m')
    case Right(m') => IsTest(m')
    case Act(_, a) => a.RunPair? || a.Raise?
    case _ => m.RunGroup?
  }

  function TestCount(ms: seq<Move>): nat {
    if ms == [] then 0 else (if IsTest(ms[0]) then 1 else 0) + TestCount(ms[1..])
  }

  lemma {:induction false} StepCountsTests(env: Env, c: Conf, m: Move)
    requires Enabled(env, c, m)
    ensures Step(env, c, m).g.tests == c.g.tests + if IsTest(m) then 1 else 0
    decreases m
  {
    match m
    case Left(m') => StepCountsTests(env, Conf(c.task.left, c.g), m');
    case Right(m') => StepCountsTests(env, Conf(c.task.right, c.g), m');
    case _ =>
  }

  lemma {:induction false} RunCountsTests(env: Env, c: Conf, ms: seq<Move>, d: Conf)
    requires Run(env, c, ms, d)
    ensures d.g.tests == c.g.tests + TestCount(ms)
    decreases |ms|
  {
    if ms != [] {
      StepCountsTests(env, c, ms[0]);
      RunCountsTests(env, Step(env, c, ms[0]), ms[1..], d);
    }
  }

  /** In every interleaving, fewer than 3n tests are run on n nodes. */
  lemma FewTests(env: Env, ms: seq<Move>, c: Conf)
    requires Input(env) && Run(env, Start(env), ms, c)
    ensures TestCount(ms) < 3 * |env.nodes|
  {
    assert Reachable(env, c);
    PoolIsHealthy(env, c);
    RunCountsTests(env, Start(env), ms, c);
  }

  // ---------- the order in which healthy nodes are lent ----------

  predicate Borrows(m: Move)
    decreases m
  {
    match m
    case Left(m') => Borrows(m')
    case Right(m') => Borrows(m')
    case Act(_, a) => a.Borrow?
    case _ => false
  }

  /** The partner that the tester of a borrowing move holds afterwards. */
  function Lent(env: Env, c: Conf, m: Move): Node
    requires Enabled(env, c, m) && Borrows(m)
    decreases m
  {
    match m
    case Left(m') => Lent(env, Conf(c.task.left, c.g), m')
    case Right(m') => Lent(env, Conf(c.task.right, c.g), m')
    case Act(i, _) => Step(env, c, m).task.testers[i].partner
  }

  function LentBy(env: Env, c: Conf, m: Move): seq<Node>
    requires Enabled(env, c, m)
  {
    if Borrows(m) then [Lent(env, c, m)] else []
  }

  /** The node by which a step lengthens the queue. */
  function QueuedBy(env: Env, c: Conf, m: Move): seq<Node>
    requires Enabled(env, c, m)
  {
    var d := Step(env, c, m);
    if |d.g.pool| > |c.g.pool| then [d.g.pool[|c.g.pool|]] else []
  }

  function AllLent(env: Env, c: Conf, ms: seq<Move>, d: Conf): seq<Node>
    requires Run(env, c, ms, d)
    decreases |ms|
  {
    if ms == [] then [] else LentBy(env, c, ms[0]) + AllLent(env, Step(env, c, ms[0]), ms[1..], d)
  }

  function AllQueued(env: Env, c: Conf, ms: seq<Move>, d: Conf): seq<Node>
    requires Run(env, c, ms, d)
    decreases |ms|
  {
    if ms == [] then [] else QueuedBy(env, c, ms[0]) + AllQueued(env, Step(env, c, ms[0]), ms[1..], d)
  }

  lemma {:induction false} StepKeepsOrder(env: Env, c: Conf, m: Move)
    requires Enabled(env, c, m)
    ensures c.g.pool + QueuedBy(env, c, m) == LentBy(env, c, m) + Step(env, c, m).g.pool
    decreases m
  {
    match m
    case Left(m') => StepKeepsOrder(env, Conf(c.task.left, c.g), m');
    case Right(m') => StepKeepsOrder(env, Conf(c.task.right, c.g), m');
    case Act(_, a) => if a.Borrow? { assert c.g.pool == [c.g.pool[0]] + c.g.pool[1..]; }
    case _ =>
  }

  /** In every interleaving healthy nodes are lent in the order in which they were queued, returned ones again at
      the end: what was in the queue and was queued since is what was lent, in that order, and what is in it now. */
  lemma {:induction false} LentInOrder(env: Env, c: Conf, ms: seq<Move>, d: Conf)
    requires Run(env, c, ms, d)
    ensures c.g.pool + AllQueued(env, c, ms, d) == AllLent(env, c, ms, d) + d.g.pool
    decreases |ms|
  {
    if ms != [] {
      var e := Step(env, c, ms[0]);
      StepKeepsOrder(env, c, ms[0]);
      LentInOrder(env, e, ms[1..], d);
      Regroup(c.g.pool, QueuedBy(env, c, ms[0]), AllQueued(env, e, ms[1..], d), LentBy(env, c, ms[0]), e.g.pool,
              AllLent(env, e, ms[1..], d), d.g.pool);
    }
  }

  // ---------- the halving ----------

  /** What becomes of a tested group: it is published if it passes; a failed group of more than two is cut into two
      halves that differ by at most one node, tested in turn; a smaller one is counted. */
  lemma GroupIsHalved(env: Env, c: Conf)
    requires c.task.Testing?
    ensures var t, group := Step(env, c, RunGroup).task, c.task.group;
            && (t.Publishing? <==> |group| >= 2 && SetOf(group) !! env.faulty)
            && (t.Publishing? ==> t.rest == group)
            && (!t.Publishing? && |group| <= 2 ==> t == Counting(group))
            && (!t.Publishing? && |group| > 2 ==>
                 && t.Split? && t.left.Testing? && t.right.Testing?
                 && t.left.group + t.right.group == group
                 && 0 < |t.left.group| <= |t.right.group| <= |t.left.group| + 1)
  {
    var group := c.task.group;
    var mid := |group| / 2;
    assert group == group[..mid] + group[mid..];
    assert SetOf(group) !! env.faulty <==> forall n :: n in group ==> n !in env.faulty;
  }

  /** The call that a move advances. */
  function Focus(t: Task, m: Move): Task
    decreases m
  {
    match m
    case Left(m') => if t.Split? then Focus(t.left, m') else t
    case Right(m') => if t.Split? then Focus(t.right, m') else t
    case _ => t
  }

  lemma {:induction false} CountAt(env: Env, c: Conf, m: Move)
    requires Enabled(env, c, m) && Focus(c.task, m).Counting?
    ensures var d, group := Step(env, c, m), Focus(c.task, m).group;
            && d.g == c.g.(failed := c.g.failed + |group|)
            && Focus(d.task, m) == if d.g.failed >= |env.nodes| && c.g.pool == [] then Finished(SetOf(group))
                                   else Checking({}, Testers(group))
    decreases m
  {
    match m
    case Left(m') => CountAt(env, Conf(c.task.left, c.g), m');
    case Right(m') => CountAt(env, Conf(c.task.right, c.g), m');
    case _ =>
  }

  /** A small failed group, wherever it is in the tree of calls, is accused at once exactly when the counter reaches
      the total with it, and the queue is always empty then; otherwise each of its nodes gets a tester of its own. */
  lemma SmallGroupIsChecked(env: Env, c: Conf, m: Move)
    requires Input(env) && Reachable(env, c) && Enabled(env, c, m) && Focus(c.task, m).Counting?
    ensures var d, group := Step(env, c, m), Focus(c.task, m).group;
            && d.g == c.g.(failed := c.g.failed + |group|)
            && (d.g.failed >= |env.nodes| ==> c.g.pool == [] && Focus(d.task, m) == Finished(SetOf(group)))
            && (d.g.failed < |env.nodes| ==> Focus(d.task, m) == Checking({}, Testers(group)))
  {
    ReachableInvariant(env, c);
    StepKeepsInvariant(env, c, m);
    CountAt(env, c, m);
    SetOfHolds(c.g.pool);
  }
}
