/** What one step of the diagnosis does to the nodes, the counters, the healthy pool and the work left. */
module DiagnosisSteps {
  import opened Diagnosis
  import opened Sequences

  // ---------- one step, facet by facet ----------

  /** Replacing one tester changes every sum over the testers by that tester alone. */
  lemma {:induction false} TestersUpdate(xs: seq<Tester>, i: nat, x: Tester)
    requires i < |xs|
    ensures TestersWork(xs[i := x]) == TestersWork(xs) - TesterWork(xs[i]) + TesterWork(x)
    ensures TestersTests(xs[i := x]) + (if xs[i].Verdict? then 0 else 1) ==
            TestersTests(xs) + (if x.Verdict? then 0 else 1)
    decreases |xs|
  {
    var ys := xs[i := x];
    if i > 0 {
      assert ys[1..] == xs[1..][i - 1 := x];
      TestersUpdate(xs[1..], i - 1, x);
    } else {
      assert ys[1..] == xs[1..];
    }
  }

  lemma {:induction false} TestersMoveNode(xs: seq<Tester>, i: nat, x: Tester, n: Node)
    requires i < |xs|
    ensures TestersCopies(xs[i := x], n) + TesterCopies(xs[i], n) == TestersCopies(xs, n) + TesterCopies(x, n)
    decreases |xs|
  {
    var ys := xs[i := x];
    if i > 0 {
      assert ys[1..] == xs[1..][i - 1 := x];
      TestersMoveNode(xs[1..], i - 1, x, n);
    } else {
      assert ys[1..] == xs[1..];
    }
  }

  lemma {:induction false} TestersJudged(xs: seq<Tester>, i: nat, x: Tester)
    requires i < |xs|
    ensures TestersHealthy(xs[i := x]) <= TestersHealthy(xs) + TesterHealthy(x)
    ensures TestersHealthy(xs) <= TestersHealthy(xs[i := x]) + TesterHealthy(xs[i])
    ensures TesterHealthy(xs[i]) <= TestersHealthy(xs) && TesterHealthy(x) <= TestersHealthy(xs[i := x])
    ensures TestersAccused(xs[i := x]) <= TestersAccused(xs) + TesterAccused(x)
    ensures TestersOnLoan(xs) <= TestersOnLoan(xs[i := x]) + (if xs[i].Holding? then {xs[i].partner} else {})
    ensures x.Holding? ==> x.partner in TestersOnLoan(xs[i := x])
    decreases |xs|
  {
    var ys := xs[i := x];
    if i > 0 {
      assert ys[1..] == xs[1..][i - 1 := x];
      TestersJudged(xs[1..], i - 1, x);
    } else {
      assert ys[1..] == xs[1..];
    }
  }

  lemma {:induction false} TestersStart(group: seq<Node>, n: Node)
    ensures TestersCopies(Testers(group), n) == multiset(group)[n]
    ensures TestersWork(Testers(group)) == 3 * |group| && TestersTests(Testers(group)) == |group|
    ensures TestersHealthy(Testers(group)) == TestersOnLoan(Testers(group)) == TestersAccused(Testers(group)) == {}
    decreases |group|
  {
    if group != [] {
      assert Testers(group)[1..] == Testers(group[1..]);
      TestersStart(group[1..], n);
      assert group == [group[0]] + group[1..];
    }
  }

  lemma ActConserves(env: Env, c: Conf, m: Move, n: Node)
    requires m.Act? && Enabled(env, c, m)
    ensures Total(Step(env, c, m), n) == Total(c, n)
  {
    TestersMoveNode(c.task.testers, m.i, Acted(env, c.task.testers[m.i], c.g, m.act).0, n);
    if m.act.Borrow? { assert c.g.pool == [c.g.pool[0]] + c.g.pool[1..]; }
  }

  lemma GroupConserves(env: Env, group: seq<Node>, g: Shared, n: Node)
    ensures Total(GroupTested(env, group, g), n) == multiset(group)[n] + multiset(g.pool)[n]
  {
    var mid := |group| / 2;
    assert group == group[..mid] + group[mid..];
    assert Copies(Split(Testing(group[..mid]), Testing(group[mid..])), n) ==
           Copies(Testing(group[..mid]), n) + Copies(Testing(group[mid..]), n);
  }

  /** What a step may do to a node's copies: an answer is a set, so repeated copies may fall together. */
  predicate Conserved(before: nat, after: nat) {
    after <= before && (before > 0 ==> after > 0) && (before <= 1 ==> after == before)
  }

  lemma CountConserves(env: Env, group: seq<Node>, g: Shared, n: Node)
    ensures Conserved(multiset(group)[n] + multiset(g.pool)[n], Total(Counted(env, group, g), n))
  {
    TestersStart(group, n);
    assert n in SetOf(group) <==> n in multiset(group);
  }

  lemma CollectConserves(env: Env, c: Conf, m: Move, n: Node)
    requires (m.Collect? || m.Join?) && Enabled(env, c, m)
    ensures Conserved(Total(c, n), Total(Step(env, c, m), n))
  {
    if m.Join? { assert Copies(c.task, n) == Copies(c.task.left, n) + Copies(c.task.right, n); }
  }

  /** No step loses, invents or duplicates a node; a node that is there once stays there once. */
  lemma {:induction false} StepConserves(env: Env, c: Conf, m: Move, n: Node)
    requires Enabled(env, c, m)
    ensures Conserved(Total(c, n), Total(Step(env, c, m), n))
    decreases m
  {
    var t, g := c.task, c.g;
    match m
    case Left(m') => StepConserves(env, Conf(t.left, g), m', n);
    case Right(m') => StepConserves(env, Conf(t.right, g), m', n);
    case RunGroup => GroupConserves(env, t.group, g.(tests := g.tests + 1), n);
    case Publish => if t.rest != [] { assert t.rest == [t.rest[0]] + t.rest[1..]; }
    case Count => CountConserves(env, t.group, g.(failed := g.failed + |t.group|), n);
    case Act(_, _) => ActConserves(env, c, m, n);
    case _ => CollectConserves(env, c, m, n);
  }

  /** Groups are accounted for once: as passed, as failed, or still open; and the tests run plus
      those to come never grow. */
  lemma {:induction false} StepAccounts(env: Env, c: Conf, m: Move)
    requires Enabled(env, c, m) && Shaped(c.task)
    ensures var d := Step(env, c, m);
      && Shaped(d.task)
      && d.g.failed + d.g.passed + Open(d.task) == c.g.failed + c.g.passed + Open(c.task)
      && d.g.failed >= c.g.failed && d.g.passed >= c.g.passed && (c.g.disturbed ==> d.g.disturbed)
      && d.g.tests + TestsLeft(d.task) <= c.g.tests + TestsLeft(c.task)
    decreases m
  {
    match m
    case Left(m') => StepAccounts(env, Conf(c.task.left, c.g), m');
    case Right(m') => StepAccounts(env, Conf(c.task.right, c.g), m');
    case Count => TestersStart(c.task.group, "");
    case Act(i, a) => TestersUpdate(c.task.testers, i, Acted(env, c.task.testers[i], c.g, a).0);
    case _ =>
  }

  /** Whether a clean group has been or will be tested does not depend on the schedule. */
  lemma {:induction false} StepKeepsPromise(env: Env, c: Conf, m: Move)
    requires Enabled(env, c, m) && Shaped(c.task)
    ensures var d := Step(env, c, m);
      (d.g.passed > 0 || Promise(env, d.task)) <==> (c.g.passed > 0 || Promise(env, c.task))
    decreases m
  {
    match m
    case Left(m') => StepKeepsPromise(env, Conf(c.task.left, c.g), m');
    case Right(m') => StepKeepsPromise(env, Conf(c.task.right, c.g), m');
    case _ =>
  }

  /** Every step that is not a fruitless poll uses up work. */
  lemma {:induction false} StepWorks(env: Env, c: Conf, m: Move)
    requires Enabled(env, c, m) && Shaped(c.task)
    ensures Work(Step(env, c, m).task) < Work(c.task)
    decreases m
  {
    match m
    case Left(m') => StepWorks(env, Conf(c.task.left, c.g), m');
    case Right(m') => StepWorks(env, Conf(c.task.right, c.g), m');
    case Count => TestersStart(c.task.group, "");
    case Act(i, a) => TestersUpdate(c.task.testers, i, Acted(env, c.task.testers[i], c.g, a).0);
    case _ =>
  }

  /** A step's effect on what is known: healthy nodes stay known, only healthy nodes become
      known, and only once a group has passed. */
  ghost predicate Learns(env: Env, c: Conf, d: Conf) {
    && Known(c) <= Known(d) && Known(d) !! env.faulty
    && (Known(d) != {} ==> Known(c) != {} || d.g.passed > 0)
    && Circulating(c) <= Circulating(d)
    && (d.g.passed > c.g.passed ==> Circulating(d) != {})
  }

  /** ... and on the accusations: a new one is justified, unless the counter says that nothing
      is healthy or a tester was disturbed. */
  ghost predicate Accuses(env: Env, c: Conf, d: Conf) {
    forall n :: n in Accused(d.task) ==>
      n in Accused(c.task) || n in env.faulty || d.g.failed >= |env.nodes| || d.g.disturbed
  }

  lemma ActJudges(env: Env, c: Conf, m: Move)
    requires m.Act? && Enabled(env, c, m) && Known(c) !! env.faulty
    ensures Learns(env, c, Step(env, c, m)) && Accuses(env, c, Step(env, c, m))
  {
    var xs := c.task.testers;
    var x := Acted(env, xs[m.i], c.g, m.act).0;
    TestersJudged(xs, m.i, x);
    if m.act.RunPair? {
      var pair := [xs[m.i].suspect, xs[m.i].partner];
      assert pair[0] == xs[m.i].suspect && pair[1] == xs[m.i].partner;
      assert xs[m.i].partner in TesterHealthy(xs[m.i]);
    }
  }

  lemma GroupJudges(env: Env, group: seq<Node>, g: Shared)
    requires group != []
    ensures var d := GroupTested(env, group, g);
      && Healthy(d.task) == OnLoan(d.task) == (if Clean(env, group) then SetOf(group) else {})
      && Accused(d.task) == {} && d.g.pool == g.pool
      && SetOf(group) != {} && (Clean(env, group) ==> SetOf(group) !! env.faulty && d.g.passed > g.passed)
  {
    assert group[0] in SetOf(group);
    var mid := |group| / 2;
    var l, r := Testing(group[..mid]), Testing(group[mid..]);
    assert Healthy(Split(l, r)) == Healthy(l) + Healthy(r) && Accused(Split(l, r)) == Accused(l) + Accused(r);
    assert OnLoan(Split(l, r)) == OnLoan(l) + OnLoan(r);
  }

  lemma {:induction false} StepJudges(env: Env, c: Conf, m: Move)
    requires Enabled(env, c, m) && Shaped(c.task) && Known(c) !! env.faulty
    ensures Learns(env, c, Step(env, c, m)) && Accuses(env, c, Step(env, c, m))
    decreases m
  {
    var t, g := c.task, c.g;
    match m
    case Left(m') => StepJudges(env, Conf(t.left, g), m');
    case Right(m') => StepJudges(env, Conf(t.right, g), m');
    case Act(_, _) => ActJudges(env, c, m);
    case Count => TestersStart(t.group, "");
    case Publish => if t.rest != [] { assert t.rest == [t.rest[0]] + t.rest[1..]; }
    case RunGroup => GroupJudges(env, t.group, g.(tests := g.tests + 1));
    case Collect =>
    case Join =>
      assert Healthy(t) == Healthy(t.left) + Healthy(t.right) && Accused(t) == Accused(t.left) + Accused(t.right);
      assert OnLoan(t) == OnLoan(t.left) + OnLoan(t.right);
  }
}
