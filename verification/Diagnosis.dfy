/** Recursive group testing for faulty nodes (binary_diagnose.py), run by many threads that share
    a queue of known-healthy nodes and a failure counter. A state is the tree of calls in
    progress plus the shared globals; a step is one access to the shared state or one test. */
module Diagnosis {
  import opened Sequences

  type Node = string

  /** The input and the truth behind the bandwidth test: a test passes if and only if it has at
      least two nodes and none of them is faulty. */
  datatype Env = Env(nodes: seq<Node>, faulty: set<Node>)

  predicate Clean(env: Env, group: seq<Node>) {
    |group| >= 2 && forall n :: n in group ==> n !in env.faulty
  }

  /** One diagnose_single_with_healthy call. */
  datatype Tester =
    | Polling(suspect: Node)
    | Holding(suspect: Node, partner: Node)
    | Verdict(suspect: Node, bad: bool)

  /** One recursive_diagnose call and everything below it. */
  datatype Task =
    | Testing(group: seq<Node>)                         // about to run the group test
    | Publishing(rest: seq<Node>)                       // group passed, nodes still to be queued
    | Counting(group: seq<Node>)                        // group of one or two failed, lock not taken
    | Checking(bad: set<Node>, testers: seq<Tester>)    // futures still to be read, in order
    | Split(left: Task, right: Task)
    | Finished(bad: set<Node>)

  /** The globals, and two histories: how many nodes were in groups that passed, and how many
      tests were run. `disturbed` records a timeout or an exception inside a tester. */
  datatype Shared = Shared(pool: seq<Node>, failed: nat, passed: nat, tests: nat, disturbed: bool)

  datatype Conf = Conf(task: Task, g: Shared)

  datatype Act = Borrow | RunPair | GiveUp | Timeout | Raise

  datatype Move =
    | Left(m: Move)
    | Right(m: Move)
    | RunGroup
    | Publish
    | Count
    | Act(i: nat, act: Act)     // the i-th tester of a failed pair acts
    | Collect                   // the next future is read
    | Join

  function Start(env: Env): Conf {
    Conf(Testing(env.nodes), Shared([], 0, 0, 0, false))
  }

  function Testers(group: seq<Node>): seq<Tester> {
    seq(|group|, i requires 0 <= i < |group| => Polling(group[i]))
  }

  /** What a tester can do next. Timeout and Raise stand for the 600 s limit and for an exception
      out of the test; giving up follows an empty queue and a counter that reached the total. */
  predicate CanAct(env: Env, x: Tester, g: Shared, a: Act) {
    match a
    case Borrow => x.Polling? && g.pool != []
    case RunPair => x.Holding?
    case GiveUp => x.Polling? && g.failed >= |env.nodes|
    case Timeout => x.Polling?
    case Raise => x.Holding?
  }

  function Acted(env: Env, x: Tester, g: Shared, a: Act): (Tester, Shared)
    requires CanAct(env, x, g, a)
  {
    match a
    case Borrow => (Holding(x.suspect, g.pool[0]), g.(pool := g.pool[1..]))
    case RunPair =>
      (Verdict(x.suspect, !Clean(env, [x.suspect, x.partner])),
       g.(pool := g.pool + [x.partner], tests := g.tests + 1))
    case GiveUp => (Verdict(x.suspect, true), g)
    case Timeout => (Verdict(x.suspect, true), g.(disturbed := true))
    case Raise =>
      (Verdict(x.suspect, true), g.(pool := g.pool + [x.partner], tests := g.tests + 1, disturbed := true))
  }

  predicate Enabled(env: Env, c: Conf, m: Move)
    decreases m
  {
    var t := c.task;
    match m
    case Left(m') => t.Split? && Enabled(env, Conf(t.left, c.g), m')
    case Right(m') => t.Split? && Enabled(env, Conf(t.right, c.g), m')
    case Act(i, a) => t.Checking? && i < |t.testers| && CanAct(env, t.testers[i], c.g, a)
    case RunGroup => t.Testing?
    case Publish => t.Publishing?
    case Count => t.Counting?
    case Collect => t.Checking? && (t.testers != [] ==> t.testers[0].Verdict?)
    case Join => t.Split? && t.left.Finished? && t.right.Finished?
  }

  function Step(env: Env, c: Conf, m: Move): Conf
    requires Enabled(env, c, m)
    decreases m
  {
    var t, g := c.task, c.g;
    match m
    case Left(m') =>
      var d := Step(env, Conf(t.left, g), m');
      Conf(Split(d.task, t.right), d.g)
    case Right(m') =>
      var d := Step(env, Conf(t.right, g), m');
      Conf(Split(t.left, d.task), d.g)
    case Act(i, a) =>
      var (x, g') := Acted(env, t.testers[i], g, a);
      Conf(Checking(t.bad, t.testers[i := x]), g')
    case RunGroup => GroupTested(env, t.group, g.(tests := g.tests + 1))
    case Publish =>
      if t.rest == [] then Conf(Finished({}), g)
      else Conf(Publishing(t.rest[1..]), g.(pool := g.pool + [t.rest[0]]))
    case Count => Counted(env, t.group, g.(failed := g.failed + |t.group|))
    case Collect =>
      if t.testers == [] then Conf(Finished(t.bad), g)
      else if t.testers[0].bad then Conf(Checking(t.bad + {t.testers[0].suspect}, t.testers[1..]), g)
      else Conf(Checking(t.bad, t.testers[1..]), g.(pool := g.pool + [t.testers[0].suspect]))
    case Join => Conf(Finished(t.left.bad + t.right.bad), g)
  }

  /** The group test: pass, leaf, or split in the middle. */
  function GroupTested(env: Env, group: seq<Node>, g: Shared): Conf {
    if Clean(env, group) then Conf(Publishing(group), g.(passed := g.passed + |group|))
    else if |group| <= 2 then Conf(Counting(group), g)
    else
      var mid := |group| / 2;
      Conf(Split(Testing(group[..mid]), Testing(group[mid..])), g)
  }

  /** The leaf after its size was added to the counter, still under the lock. */
  function Counted(env: Env, group: seq<Node>, g: Shared): Conf {
    if g.failed >= |env.nodes| && g.pool == [] then Conf(Finished(SetOf(group)), g)
    else Conf(Checking({}, Testers(group)), g)
  }

  /** Some schedule of the threads leads from the start to `c`. */
  ghost predicate Run(env: Env, c: Conf, ms: seq<Move>, d: Conf)
    decreases |ms|
  {
    if ms == [] then c == d
    else Enabled(env, c, ms[0]) && Run(env, Step(env, c, ms[0]), ms[1..], d)
  }

  ghost predicate Reachable(env: Env, c: Conf) {
    exists ms :: Run(env, Start(env), ms, c)
  }

  // ---------- where the nodes are ----------

  function One(b: bool): nat {
    if b then 1 else 0
  }

  function TesterCopies(x: Tester, n: Node): nat {
    One(x.suspect == n) + One(x.Holding? && x.partner == n)
  }

  function TestersCopies(xs: seq<Tester>, n: Node): nat {
    if xs == [] then 0 else TesterCopies(xs[0], n) + TestersCopies(xs[1..], n)
  }

  /** How often a call tree accounts for a node, counting it also where it is on loan. */
  function Copies(t: Task, n: Node): nat {
    match t
    case Testing(group) => multiset(group)[n]
    case Publishing(rest) => multiset(rest)[n]
    case Counting(group) => multiset(group)[n]
    case Checking(bad, testers) => One(n in bad) + TestersCopies(testers, n)
    case Split(l, r) => Copies(l, n) + Copies(r, n)
    case Finished(bad) => One(n in bad)
  }

  /** ... and how often the whole configuration does. */
  function Total(c: Conf, n: Node): nat {
    Copies(c.task, n) + multiset(c.g.pool)[n]
  }

  /** Nodes already known healthy that are not in the queue: still to be published, borrowed,
      or cleared by their own test. */
  function TesterHealthy(x: Tester): set<Node> {
    match x
    case Polling(_) => {}
    case Holding(_, p) => {p}
    case Verdict(s, bad) => if bad then {} else {s}
  }

  function TestersHealthy(xs: seq<Tester>): set<Node> {
    if xs == [] then {} else TesterHealthy(xs[0]) + TestersHealthy(xs[1..])
  }

  function Healthy(t: Task): set<Node> {
    match t
    case Publishing(rest) => SetOf(rest)
    case Checking(_, testers) => TestersHealthy(testers)
    case Split(l, r) => Healthy(l) + Healthy(r)
    case _ => {}
  }

  /** Of these, the nodes on their way to the queue or borrowed from it. */
  function TestersOnLoan(xs: seq<Tester>): set<Node> {
    if xs == [] then {} else (if xs[0].Holding? then {xs[0].partner} else {}) + TestersOnLoan(xs[1..])
  }

  function OnLoan(t: Task): set<Node> {
    match t
    case Publishing(rest) => SetOf(rest)
    case Checking(_, testers) => TestersOnLoan(testers)
    case Split(l, r) => OnLoan(l) + OnLoan(r)
    case _ => {}
  }

  /** Nodes with a verdict against them. */
  function TesterAccused(x: Tester): set<Node> {
    if x.Verdict? && x.bad then {x.suspect} else {}
  }

  function TestersAccused(xs: seq<Tester>): set<Node> {
    if xs == [] then {} else TesterAccused(xs[0]) + TestersAccused(xs[1..])
  }

  function Accused(t: Task): set<Node> {
    match t
    case Checking(bad, testers) => bad + TestersAccused(testers)
    case Split(l, r) => Accused(l) + Accused(r)
    case Finished(bad) => bad
    case _ => {}
  }

  /** Nodes in groups that neither passed nor were counted as failed yet. */
  function Open(t: Task): nat {
    match t
    case Testing(group) => |group|
    case Counting(group) => |group|
    case Split(l, r) => Open(l) + Open(r)
    case _ => 0
  }

  function TestersTests(xs: seq<Tester>): nat {
    if xs == [] then 0 else (if xs[0].Verdict? then 0 else 1) + TestersTests(xs[1..])
  }

  /** An upper bound on the tests still to come. */
  function TestsLeft(t: Task): nat {
    match t
    case Testing(group) => if group == [] then 1 else 3 * |group| - 1
    case Counting(group) => |group|
    case Checking(_, testers) => TestersTests(testers)
    case Split(l, r) => TestsLeft(l) + TestsLeft(r)
    case _ => 0
  }

  /** Some group that the halving recursion tests on its own is clean. */
  predicate HasCleanGroup(env: Env, group: seq<Node>)
    decreases |group|
  {
    Clean(env, group) ||
    (|group| > 2 && var mid := |group| / 2;
      (HasCleanGroup(env, group[..mid]) || HasCleanGroup(env, group[mid..])))
  }

  predicate Promise(env: Env, t: Task) {
    match t
    case Testing(group) => HasCleanGroup(env, group)
    case Split(l, r) => Promise(env, l) || Promise(env, r)
    case _ => false
  }

  /** Sizes the recursion keeps. */
  predicate Shaped(t: Task) {
    match t
    case Testing(group) => group != []
    case Counting(group) => 1 <= |group| <= 2
    case Split(l, r) => Shaped(l) && Shaped(r)
    case _ => true
  }

  /** Steps left, counting everything but fruitless polls. */
  function Work(t: Task): nat {
    match t
    case Testing(group) => if group == [] then 0 else 12 * |group| - 6
    case Publishing(rest) => |rest| + 1
    case Counting(group) => 3 * |group| + 2
    case Checking(_, testers) => 1 + TestersWork(testers)
    case Split(l, r) => 1 + Work(l) + Work(r)
    case Finished(_) => 0
  }

  function TesterWork(x: Tester): nat {
    match x
    case Polling(_) => 3
    case Holding(_, _) => 2
    case Verdict(_, _) => 1
  }

  function TestersWork(xs: seq<Tester>): nat {
    if xs == [] then 0 else TesterWork(xs[0]) + TestersWork(xs[1..])
  }

  /** Every node known to be healthy. */
  function Known(c: Conf): set<Node> {
    SetOf(c.g.pool) + Healthy(c.task)
  }

  /** The healthy nodes that testers can get hold of. */
  function Circulating(c: Conf): set<Node> {
    SetOf(c.g.pool) + OnLoan(c.task)
  }
}
