/** What holds in every run of the key exchange, what torn writes and late node infos lead to, and that every run in
    which nobody fails completes. */
module KeyExchangeRuns {
  import opened KeyExchange

  // ---------- results for every reachable state ----------

  /** Rank 0 finishes only after every rank has written its own authorized_keys and SSH config; with atomic writes
      each then lets rank 0 in. */
  lemma RankZeroFinishesLast(c: Setup, s: Net, r: Rank)
    requires Reachable(c, s) && At(s, 0, Finished) && r < c.n
    ensures r in s.auth && c.key(r) in s.auth[r] && (c.atomic ==> c.key(0) in s.auth[r])
    ensures r in s.config && r in s.config[r]
  {
    ReachableInv(c, s);
    assert RankFits(c, s, 0);
    AllBelow(s.done, c.n);
    assert LinesFit(c, r, {}, s.auth[r]);
    assert Trusted(c, r, r) && (c.atomic ==> Trusted(c, r, 0));
  }

  /** Whatever is torn, nobody is let in but the ranks, and no rank locks itself out. */
  lemma LinesComeFromRanks(c: Setup, s: Net, r: Rank)
    requires Reachable(c, s) && r in s.auth && r < c.n
    ensures c.key(r) in s.auth[r] && forall x :: x in s.auth[r] ==> FromSomeone(c, x)
  {
    ReachableInv(c, s);
    assert LinesFit(c, r, {}, s.auth[r]) && Trusted(c, r, r);
  }

  ghost predicate ListsEveryone(c: Setup, s: Net) {
    forall r, q :: r in s.auth && 0 <= q < c.n ==> c.key(q) in s.auth[r]
  }

  ghost predicate AlwaysListsEveryone(c: Setup) {
    forall s :: Reachable(c, s) ==> ListsEveryone(c, s)
  }

  ghost predicate ConfiguresEveryone(c: Setup, s: Net) {
    forall r, q :: r in s.config && 0 <= q < c.n ==> q in s.config[r]
  }

  ghost predicate AlwaysConfiguresEveryone(c: Setup) {
    forall s :: Reachable(c, s) ==> ConfiguresEveryone(c, s)
  }

  ghost predicate DistinctKeys(c: Setup) {
    && (forall r: Rank :: r < c.n ==> c.key(r) != "")
    && (forall r: Rank, q: Rank :: r < c.n && q < c.n && c.key(r) == c.key(q) ==> r == q)
  }

  // ---------- a run in which rank 0 reads too early ----------

  lemma {:induction false} RunsSnoc(c: Setup, s: Net, es: seq<Event>, e: Event)
    requires Runs(c, s, es) && Enabled(c, After(c, s, es), e)
    ensures Runs(c, s, es + [e]) && After(c, s, es + [e]) == Apply(c, After(c, s, es), e)
    decreases |es|
  {
    if es == [] {
      assert [e][1..] == [];
    } else {
      assert (es + [e])[1..] == es[1..] + [e];
      RunsSnoc(c, Apply(c, s, es[0]), es[1..], e);
    }
  }

  lemma LeadsOn(c: Setup, s: Net, t: Net, e: Event)
    requires Leads(c, s, t) && Enabled(c, t, e)
    ensures Leads(c, s, Apply(c, t, e))
  {
    var es :| Runs(c, s, es) && After(c, s, es) == t;
    RunsSnoc(c, s, es, e);
  }

  /** What a key file holds when it appears, and where its rank is then. */
  function Fresh(c: Setup, q: Rank): string {
    if c.atomic then c.key(q) else ""
  }

  function Opening(c: Setup): Phase {
    if c.atomic then Noting else Filling
  }

  /** The first k ranks have created their key files and done nothing else. */
  predicate Opened(c: Setup, s: Net, k: nat) {
    && k <= c.n && |s.phase| == c.n && |s.keys| == k && s.infos == {} && (forall q :: q in s.keys ==> q < k)
    && (forall q :: 0 <= q < k ==> q in s.keys && s.keys[q] == Fresh(c, q) && s.phase[q] == Opening(c))
    && (forall q :: k <= q < c.n ==> q !in s.keys && s.phase[q] == Creating)
  }

  lemma {:induction false} OpenAll(c: Setup, k: nat) returns (s: Net)
    requires k <= c.n
    ensures Reachable(c, s) && Opened(c, s, k)
    decreases k
  {
    if k == 0 {
      s := Start(c);
      assert Runs(c, s, []) && After(c, s, []) == s;
    } else {
      var t := OpenAll(c, k - 1);
      CreateOpens(c, t, k - 1);
      LeadsOn(c, Start(c), t, Create(k - 1));
      s := Apply(c, t, Create(k - 1));
      OpenOne(c, t, k - 1, s);
    }
  }

  lemma CreateOpens(c: Setup, s: Net, k: Rank)
    requires k < |s.phase| && s.phase[k].Creating?
    ensures Enabled(c, s, Create(k))
    ensures Apply(c, s, Create(k)) == s.(keys := s.keys[k := Fresh(c, k)], phase := s.phase[k := Opening(c)])
  {
  }

  lemma OpenOne(c: Setup, s: Net, k: nat, t: Net)
    requires k < c.n && Opened(c, s, k)
    requires t == s.(keys := s.keys[k := Fresh(c, k)], phase := s.phase[k := Opening(c)])
    ensures Opened(c, t, k + 1)
  {
    assert |t.keys| == |s.keys| + 1;
  }

  /** Rank 0 reads; nobody else has noted its node, nor, where files are torn, written anything. */
  predicate ReadingEarly(c: Setup, s: Net) {
    && IsReading(s, 0) && s.infos == {0}
    && (forall q :: q in s.phase[0].todo ==> q in s.keys)
    && (!c.atomic ==>
         && (forall q :: q in s.keys ==> s.keys[q] == "" || s.keys[q] == c.key(0))
         && (forall x :: x in s.phase[0].got ==> x == "" || x == c.key(0)))
  }

  /** All key files are there; where files are torn, only rank 0 has written to its own. */
  predicate KeysEarly(c: Setup, s: Net) {
    && |s.phase| == c.n > 0 && |s.keys| == c.n
    && (!c.atomic ==> forall q :: q in s.keys ==> s.keys[q] == "" || s.keys[q] == c.key(0))
  }

  /** Rank 0 has written its key file in full. */
  lemma FirstIsWritten(c: Setup) returns (s: Net)
    requires c.n > 0
    ensures Reachable(c, s) && KeysEarly(c, s) && s.infos == {} && s.phase[0].Noting?
  {
    s := OpenAll(c, c.n);
    if !c.atomic {
      LeadsOn(c, Start(c), s, Fill(0));
      var t := Apply(c, s, Fill(0));
      assert t.keys == s.keys[0 := c.key(0)] && t.phase == s.phase[0 := Noting];
      s := t;
    }
  }

  lemma FirstNotes(c: Setup) returns (s: Net)
    requires c.n > 0
    ensures Reachable(c, s) && KeysEarly(c, s) && s.infos == {0} && s.phase[0].AtBarrier?
  {
    var t := FirstIsWritten(c);
    LeadsOn(c, Start(c), t, Note(0));
    s := Apply(c, t, Note(0));
    assert s == t.(infos := {0}, phase := t.phase[0 := AtBarrier]);
  }

  lemma BarrierTooEarly(c: Setup) returns (s: Net)
    requires c.n > 0
    ensures Reachable(c, s) && ReadingEarly(c, s)
  {
    var t := FirstNotes(c);
    LeadsOn(c, Start(c), t, MakeBarrier);
    t := Apply(c, t, MakeBarrier);
    LeadsOn(c, Start(c), t, List(0));
    s := Apply(c, t, List(0));
  }

  lemma {:induction false} ReadOn(c: Setup, s: Net) returns (t: Net)
    requires Reachable(c, s) && ReadingEarly(c, s)
    ensures Reachable(c, t) && ReadingEarly(c, t) && t.phase[0].todo == {}
    decreases |s.phase[0].todo|
  {
    if s.phase[0].todo == {} { return s; }
    var q :| q in s.phase[0].todo;
    LeadsOn(c, Start(c), s, Read(0, q));
    t := ReadOn(c, Apply(c, s, Read(0, q)));
  }

  lemma EarlyRun(c: Setup) returns (s: Net)
    requires c.n > 1
    ensures Reachable(c, s) && 0 in s.config && s.config[0] == {0} && 0 in s.auth
    ensures !c.atomic ==> forall x :: x in s.auth[0] ==> x == "" || x == c.key(0)
  {
    var r := BarrierTooEarly(c);
    var t := ReadOn(c, r);
    LeadsOn(c, Start(c), t, Collect(0));
    t := Apply(c, t, Collect(0));
    LeadsOn(c, Start(c), t, Write(0));
    t := Apply(c, t, Write(0));
    LeadsOn(c, Start(c), t, Configure(0));
    s := Apply(c, t, Configure(0));
  }

  /** Every authorized_keys lists every rank, in all runs, exactly when key files appear with their contents
      or there is only one rank. */
  lemma ListsEveryoneIff(c: Setup)
    requires DistinctKeys(c)
    ensures AlwaysListsEveryone(c) <==> c.atomic || c.n <= 1
  {
    if c.atomic || c.n <= 1 {
      forall s | Reachable(c, s) ensures ListsEveryone(c, s) {
        ReachableInv(c, s);
        forall r, q | r in s.auth && 0 <= q < c.n ensures c.key(q) in s.auth[r] {
          assert LinesFit(c, r, {}, s.auth[r]) && Trusted(c, r, q);
        }
      }
    } else {
      var s := EarlyRun(c);
      assert c.key(1) !in s.auth[0];
      assert !ListsEveryone(c, s);
    }
  }

  /** The barrier counts key files, which are written before the node infos: every SSH config lists every rank, in all
      runs, exactly when there is only one, atomic writes or not. */
  lemma ConfiguresEveryoneIff(c: Setup)
    ensures AlwaysConfiguresEveryone(c) <==> c.n <= 1
  {
    if c.n <= 1 {
      forall s | Reachable(c, s) ensures ConfiguresEveryone(c, s) {
        ReachableInv(c, s);
        forall r, q | r in s.config && 0 <= q < c.n ensures q in s.config[r] {
          assert HostsFit(c, r, s.config[r]);
        }
      }
    } else {
      var s := EarlyRun(c);
      assert 1 !in s.config[0];
      assert !ConfiguresEveryone(c, s);
    }
  }

  /** Rank q's node info is there, and rank r has it, or has not looked yet. */
  predicate WillFind(s: Net, r: Rank, q: Rank) {
    && r < |s.phase| && q in s.infos && (r in s.config ==> q in s.config[r])
    && match s.phase[r]
       case Writing(_, hosts) => q in hosts
       case Configuring(hosts) => q in hosts
       case _ => true
  }

  /** What is noted before a rank looks is in the SSH config it writes, in every run. */
  lemma {:induction false} NotedInTimeIsConfigured(c: Setup, s: Net, es: seq<Event>, r: Rank, q: Rank)
    requires Runs(c, s, es) && WillFind(s, r, q)
    ensures r in After(c, s, es).config ==> q in After(c, s, es).config[r]
    decreases |es|
  {
    if es != [] { NotedInTimeIsConfigured(c, Apply(c, s, es[0]), es[1..], r, q); }
  }

  // ---------- completion ----------

  /** A step that brings its rank forward. */
  predicate Advances(e: Event) {
    !e.Fail? && !e.Flush?
  }

  ghost predicate NobodyFailed(s: Net) {
    forall r :: 0 <= r < |s.phase| ==> !s.phase[r].Failed?
  }

  ghost predicate AllFinished(s: Net) {
    forall r :: 0 <= r < |s.phase| ==> s.phase[r].Finished?
  }

  lemma {:induction false} EveryoneCounts(s: set<Rank>, n: nat)
    requires forall q :: 0 <= q < n ==> q in s
    ensures |s| >= n
    decreases n
  {
    if n > 0 {
      EveryoneCounts(s - {n - 1}, n - 1);
      assert s == (s - {n - 1}) + {n - 1};
    }
  }

  /** A rank that is not waiting for the others can go on. */
  lemma GoesOn(c: Setup, s: Net, r: Rank) returns (e: Event)
    requires Inv(c, s) && r < c.n && !s.phase[r].Failed?
    requires !s.phase[r].AtBarrier? && !Signalled(s.phase[r])
    ensures Enabled(c, s, e) && Advances(e)
  {
    assert ReaderFits(c, s, r);
    match s.phase[r] {
      case Creating => e := Create(r);
      case Filling => e := Fill(r);
      case Noting => e := Note(r);
      case Listing => e := List(r);
      case Reading(todo, _) =>
        if todo == {} { e := Collect(r); } else { var q :| q in todo; e := Read(r, q); }
      case Writing(_, _) => e := Write(r);
      case Configuring(_) => e := Configure(r);
      case _ => e := Signal(r);
    }
  }

  /** Everyone waits at the barrier, or has signalled. */
  ghost predicate AllWait(s: Net) {
    forall q :: 0 <= q < |s.phase| ==> s.phase[q].AtBarrier? || Signalled(s.phase[q])
  }

  lemma WaitersHaveWritten(c: Setup, s: Net)
    requires Inv(c, s) && AllWait(s)
    ensures |s.keys| >= c.n && forall q :: 0 <= q < c.n && s.phase[q].AwaitingAll? ==> q == 0
    ensures forall q :: 0 <= q < c.n && Signalled(s.phase[q]) ==> s.barrier && q in s.done
  {
    forall q | 0 <= q < c.n
      ensures q in s.keys && (Signalled(s.phase[q]) ==> s.barrier && q in s.done)
      ensures s.phase[q].AwaitingAll? ==> q == 0
    {
      assert RankFits(c, s, q) && FileFits(c, s, q) && BarrierFits(s, q) && OutputFits(c, s, q);
    }
    EveryoneCounts(s.keys.Keys, c.n);
  }

  lemma WaitersGoOn(c: Setup, s: Net) returns (e: Event)
    requires |s.phase| == c.n && AllWait(s) && !AllFinished(s)
    requires |s.keys| >= c.n && forall q :: 0 <= q < c.n && s.phase[q].AwaitingAll? ==> q == 0
    requires forall q :: 0 <= q < c.n && Signalled(s.phase[q]) ==> s.barrier && q in s.done
    ensures Enabled(c, s, e) && Advances(e)
  {
    var r: Rank :| r < c.n && !s.phase[r].Finished?;
    if s.phase[0].AtBarrier? {
      e := MakeBarrier;
    } else if q: Rank :| q < c.n && s.phase[q].AtBarrier? {
      assert Signalled(s.phase[0]);
      e := SeeBarrier(q);
    } else {
      assert Signalled(s.phase[r]) && r == 0;
      EveryoneCounts(s.done, c.n);
      e := SeeAll;
    }
  }

  /** Unless everyone has finished, and if nobody has failed, some rank can go on: neither barrier deadlocks. */
  lemma SomeoneGoesOn(c: Setup, s: Net) returns (e: Event)
    requires Reachable(c, s) && NobodyFailed(s) && !AllFinished(s)
    ensures Enabled(c, s, e) && Advances(e)
  {
    ReachableInv(c, s);
    if r: Rank :| r < c.n && !s.phase[r].AtBarrier? && !Signalled(s.phase[r]) {
      e := GoesOn(c, s, r);
    } else {
      WaitersHaveWritten(c, s);
      e := WaitersGoOn(c, s);
    }
  }

  /** How many steps a rank has before it. */
  function Left(n: nat, p: Phase): nat {
    match p
    case Creating => n + 10
    case Filling => n + 9
    case Noting => n + 8
    case AtBarrier => n + 7
    case Listing => n + 6
    case Reading(todo, _) => |todo| + 5
    case Writing(_, _) => 4
    case Configuring(_) => 3
    case Signalling => 2
    case AwaitingAll => 1
    case _ => 0
  }

  function LeftAll(n: nat, phases: seq<Phase>): nat {
    if phases == [] then 0 else Left(n, phases[0]) + LeftAll(n, phases[1..])
  }

  lemma {:induction false} LeftAfter(n: nat, phases: seq<Phase>, r: Rank, p: Phase)
    requires r < |phases|
    ensures LeftAll(n, phases[r := p]) + Left(n, phases[r]) == LeftAll(n, phases) + Left(n, p)
    decreases |phases|
  {
    var next := phases[r := p];
    if r > 0 {
      assert next[1..] == phases[1..][r - 1 := p];
      LeftAfter(n, phases[1..], r - 1, p);
    } else {
      assert next[1..] == phases[1..];
    }
  }

  lemma {:induction false} LeftAtStart(n: nat, k: nat)
    ensures LeftAll(n, seq(k, _ => Creating)) == k * (n + 10)
    decreases k
  {
    if k > 0 {
      assert seq(k, _ => Creating)[1..] == seq(k - 1, _ => Creating);
      LeftAtStart(n, k - 1);
      assert k * (n + 10) == (k - 1) * (n + 10) + (n + 10);
    }
  }

  ghost predicate LeavesLess(c: Setup, s: Net, e: Event)
    requires Enabled(c, s, e)
  {
    var now, next := Left(c.n, s.phase[Caller(e)]), Left(c.n, NextPhase(c, s, e));
    next <= now && (Advances(e) ==> next < now)
  }

  lemma ReadLeavesLess(c: Setup, s: Net, r: Rank, q: Rank)
    requires Enabled(c, s, Read(r, q))
    ensures LeavesLess(c, s, Read(r, q))
  {
    assert s.phase[r].todo == (s.phase[r].todo - {q}) + {q};
  }

  lemma LessIsLeft(c: Setup, s: Net, e: Event)
    requires Enabled(c, s, e) && |s.keys| <= c.n
    ensures LeavesLess(c, s, e)
  {
    if e.Read? { ReadLeavesLess(c, s, e.r, e.q); }
    else if e.List? { assert |s.keys.Keys| == |s.keys|; }
  }

  lemma AdvanceUsesUp(c: Setup, s: Net, e: Event)
    requires Inv(c, s) && Enabled(c, s, e)
    ensures Advances(e) ==> LeftAll(c.n, Apply(c, s, e).phase) < LeftAll(c.n, s.phase)
    ensures LeftAll(c.n, Apply(c, s, e).phase) <= LeftAll(c.n, s.phase)
  {
    Bounded(s.keys.Keys, c.n);
    LessIsLeft(c, s, e);
    LeftAfter(c.n, s.phase, Caller(e), NextPhase(c, s, e));
  }

  function Advanced(es: seq<Event>): nat {
    if es == [] then 0 else (if Advances(es[0]) then 1 else 0) + Advanced(es[1..])
  }

  lemma {:induction false} AdvancesAreBounded(c: Setup, s: Net, es: seq<Event>)
    requires Inv(c, s) && Runs(c, s, es)
    ensures Advanced(es) <= LeftAll(c.n, s.phase)
    decreases |es|
  {
    if es != [] {
      AdvanceUsesUp(c, s, es[0]);
      StepKeepsInv(c, s, es[0]);
      AdvancesAreBounded(c, Apply(c, s, es[0]), es[1..]);
    }
  }

  /** Every run has at most n (n + 10) steps that bring a rank forward; and one in which nobody has failed and nobody
      can go on has brought everyone to the end, with authorized_keys and SSH config written. */
  lemma ExchangeCompletes(c: Setup, es: seq<Event>)
    requires Runs(c, Start(c), es)
    ensures Advanced(es) <= c.n * (c.n + 10)
    ensures var s := After(c, Start(c), es);
            NobodyFailed(s) && (forall e :: Advances(e) ==> !Enabled(c, s, e)) ==>
              AllFinished(s) && forall r :: 0 <= r < c.n ==> r in s.auth && r in s.config
  {
    StartFits(c);
    AdvancesAreBounded(c, Start(c), es);
    LeftAtStart(c.n, c.n);
    var s := After(c, Start(c), es);
    assert Reachable(c, s);
    if NobodyFailed(s) && forall e :: Advances(e) ==> !Enabled(c, s, e) {
      if !AllFinished(s) { var e := SomeoneGoesOn(c, s); }
      ReachableInv(c, s);
      forall r | 0 <= r < c.n ensures r in s.auth && r in s.config { assert RankFits(c, s, r); }
    }
  }
}
