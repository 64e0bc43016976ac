/** One supervision thread beside the event loop: a supervision call starts only when no other is
    unfinished. And what overlapping calls change. */
module ReplicaThreads {

  import opened ReplicaActor
  import opened ReplicaSystem
  import opened ReplicaRuns

  /** An unfinished supervision call. */
  predicate Live(a: Actor) {
    a.kind == Supervisor && !a.pc.End?
  }

  predicate Quiet(s: Sys) {
    forall i :: 0 <= i < |s.actors| ==> !Live(s.actors[i])
  }

  ghost predicate OneAtATime(s: Sys, es: seq<Event>)
    requires Runs(s, es)
    decreases |es|
  {
    es == [] || ((es[0].Supervise? ==> Quiet(s)) && OneAtATime(Apply(s, es[0]), es[1..]))
  }

  /** Some run leads to s; without `overlap`, one whose supervision calls do not overlap. */
  ghost predicate ReachableWith(overlap: bool, s: Sys) {
    exists es :: Runs(START, es) && After(START, es) == s && (overlap || OneAtATime(START, es))
  }

  // ---------- what one supervision thread keeps ----------

  predicate SingleLive(s: Sys) {
    forall i, j :: 0 <= i < |s.actors| && 0 <= j < |s.actors| && Live(s.actors[i]) && Live(s.actors[j]) ==> i == j
  }

  /** From the second generation on, the first start is over. */
  predicate FirstGone(s: Sys)
    requires |s.actors| > 0
  {
    s.generation >= 2 ==> s.actors[0].pc.End?
  }

  /** A restart that has not activated its generation. */
  predicate StartingAgain(a: Actor) {
    a.kind == Restart && (a.pc.Stopping? || StartingUp(a) || a.pc.Failing?)
  }

  predicate DownFor(a: Actor) {
    a.pc.Load? || a.pc.Store? || a.pc.Schedule? || StartingAgain(a)
  }

  /** From Deactivate until the next activation, the flag is down. */
  predicate Down(s: Sys) {
    s.owner.By? && s.owner.i < |s.actors| && DownFor(s.actors[s.owner.i]) ==> !s.active
  }

  /** Supervision calls have read nothing of the generation. */
  predicate AllWaiting(s: Sys) {
    forall i :: 0 <= i < |s.actors| && s.actors[i].kind == Supervisor ==> Waiting(s.actors[i])
  }

  /** From the second restart on, no supervision call reaches into it. */
  predicate Fresh(s: Sys) {
    s.owner.By? && s.owner.i < |s.actors| && StartingAgain(s.actors[s.owner.i]) && s.attempt >= 2 ==> AllWaiting(s)
  }

  /** After an aborted start nothing moves any more. */
  predicate Spent(s: Sys) {
    && s.aborted == 1 && !s.active && s.attempt >= PROC_ATTEMPTS && AllWaiting(s)
    && (s.owner.Nobody? || (s.owner.By? && s.owner.i < |s.actors| && s.actors[s.owner.i].pc.Failing?))
  }

  ghost predicate OneThread(s: Sys) {
    && Inv(s) && SingleLive(s) && FirstGone(s) && Down(s) && Fresh(s) && (s.aborted > 0 ==> Spent(s))
  }

  ghost predicate ThreadCanStep(s: Sys, i: nat, raises: bool) {
    OneThread(s) && Enabled(s, Step(i, raises))
  }

  lemma StepKeepsSingle(s: Sys, i: nat, raises: bool)
    requires ThreadCanStep(s, i, raises)
    ensures SingleLive(Stepped(s, i, raises))
  {
    var t := Stepped(s, i, raises);
    forall j | 0 <= j < |t.actors| && Live(t.actors[j]) ensures j < |s.actors| && Live(s.actors[j]) {
    }
  }

  /** When a restart counts its generation it has the loop, so the first start does not. */
  lemma StepKeepsFirstGone(s: Sys, i: nat, raises: bool)
    requires ThreadCanStep(s, i, raises)
    ensures |Stepped(s, i, raises).actors| > 0 && FirstGone(Stepped(s, i, raises))
  {
    assert ActorFits(s, i) && ActorFits(s, 0);
  }

  lemma StepKeepsDown(s: Sys, i: nat, raises: bool)
    requires ThreadCanStep(s, i, raises)
    ensures Down(Stepped(s, i, raises))
  {
    assert ActorFits(s, i) && ActorFits(s, 0);
  }

  /** Only the first start's own broadcast hands over while a supervision call is under way, and that is
      the first attempt. */
  lemma SecondRestartIsSupervised(s: Sys, i: nat)
    requires OneThread(s) && i < |s.actors| && s.actors[i].pc.Schedule? && s.attempt >= 2
    ensures s.actors[i].kind == Supervisor
  {
    assert ActorFits(s, i) && ActorFits(s, 0);
    assert s.aborted == 0;
    assert Busy(s);
  }

  /** A waiting call stays waiting or ends while the flag is set or training is down. */
  lemma WaitingStays(s: Sys, i: nat, raises: bool)
    requires i < |s.actors| && s.actors[i].kind == Supervisor && Waiting(s.actors[i]) && !s.actors[i].pc.End? &&
             !s.active
    ensures Waiting(Stepped(s, i, raises).actors[i])
  {
  }

  lemma ScheduleKeepsFresh(s: Sys, i: nat, raises: bool)
    requires ThreadCanStep(s, i, raises) && s.actors[i].pc.Schedule?
    ensures Fresh(Stepped(s, i, raises))
  {
    if s.attempt >= 2 {
      SecondRestartIsSupervised(s, i);
      forall j | 0 <= j < |s.actors| && j != i && s.actors[j].kind == Supervisor ensures s.actors[j].pc.End? {
        assert Live(s.actors[i]);
      }
    }
  }

  lemma OtherStepKeepsFresh(s: Sys, i: nat, raises: bool)
    requires ThreadCanStep(s, i, raises) && !s.actors[i].pc.Schedule?
    ensures Fresh(Stepped(s, i, raises))
  {
    var t := Stepped(s, i, raises);
    assert ActorFits(s, i);
    if t.owner.By? && t.owner.i < |t.actors| && StartingAgain(t.actors[t.owner.i]) && t.attempt >= 2 {
      assert s.owner == t.owner && StartingAgain(s.actors[s.owner.i]) && s.attempt == t.attempt;
      assert !s.active && AllWaiting(s);
      if s.actors[i].kind == Supervisor { WaitingStays(s, i, raises); }
    }
  }

  lemma AbortIsSpent(s: Sys, i: nat, raises: bool)
    requires ThreadCanStep(s, i, raises) && s.actors[i].pc.Starting? && raises
    ensures Spent(Stepped(s, i, raises))
  {
    assert ActorFits(s, i) && ActorFits(s, 0);
    assert s.actors[i].kind == Restart && s.owner == By(i) && AllWaiting(s);
  }

  lemma SpentStays(s: Sys, i: nat, raises: bool)
    requires ThreadCanStep(s, i, raises) && s.aborted > 0
    ensures Spent(Stepped(s, i, raises))
  {
    assert ActorFits(s, i) && ActorFits(s, 0);
    assert s.generation >= 2;
    if s.actors[i].kind == Supervisor { WaitingStays(s, i, raises); }
  }

  lemma StepKeepsOneThread(s: Sys, i: nat, raises: bool)
    requires ThreadCanStep(s, i, raises)
    ensures OneThread(Stepped(s, i, raises))
  {
    EventKeepsInv(s, Step(i, raises));
    StepKeepsSingle(s, i, raises);
    StepKeepsFirstGone(s, i, raises);
    StepKeepsDown(s, i, raises);
    if s.actors[i].pc.Schedule? { ScheduleKeepsFresh(s, i, raises); } else { OtherStepKeepsFresh(s, i, raises); }
    if s.aborted > 0 { SpentStays(s, i, raises); }
    else if s.actors[i].pc.Starting? && raises { AbortIsSpent(s, i, raises); }
  }

  lemma CallbackKeepsOneThread(s: Sys, e: Event)
    requires OneThread(s) && Enabled(s, e) && !e.Step? && !e.Supervise?
    ensures OneThread(Apply(s, e))
  {
    EventKeepsInv(s, e);
    assert Apply(s, e).actors == s.actors;
  }

  lemma SuperviseKeepsOneThread(s: Sys)
    requires OneThread(s) && Quiet(s)
    ensures OneThread(Apply(s, Supervise))
  {
    EventKeepsInv(s, Supervise);
    var t := Apply(s, Supervise);
    assert t.actors[0] == s.actors[0];
    assert s.owner.By? ==> t.actors[s.owner.i] == s.actors[s.owner.i];
  }

  lemma {:induction false} RunKeepsOneThread(s: Sys, es: seq<Event>)
    requires OneThread(s) && Runs(s, es) && OneAtATime(s, es)
    ensures OneThread(After(s, es))
    decreases |es|
  {
    if es != [] {
      var e := es[0];
      if e.Step? { StepKeepsOneThread(s, e.i, e.raises); }
      else if e.Supervise? { SuperviseKeepsOneThread(s); }
      else { CallbackKeepsOneThread(s, e); }
      RunKeepsOneThread(Apply(s, e), es[1..]);
    }
  }

  // ---------- results ----------

  /** With one supervision thread, in every run, failed allocations included: attempts are at most one behind
      generations and never ahead, and at most one start is aborted. */
  lemma TwoThreadsKeepStep(s: Sys)
    requires ReachableWith(false, s)
    ensures s.attempt <= s.generation <= s.attempt + 1 && s.aborted <= 1
  {
    var es :| Runs(START, es) && After(START, es) == s && OneAtATime(START, es);
    StartFits();
    RunKeepsOneThread(START, es);
    assert ActorFits(s, 0);
  }

  /** Every run with at most `limit` failed allocations keeps attempts and generations in step. */
  ghost predicate AttemptsFollow(overlap: bool, limit: nat) {
    forall s :: ReachableWith(overlap, s) && s.aborted <= limit ==> s.attempt <= s.generation <= s.attempt + 1
  }

  lemma OverlapIsReachable(s: Sys)
    ensures ReachableWith(true, s) <==> Reachable(s)
  {
    if Reachable(s) {
      var es :| Runs(START, es) && After(START, es) == s;
      assert ReachableWith(true, s);
    }
    if ReachableWith(true, s) { RestrictedIsReachable(true, s); }
  }

  /** Some run with at most `limit` failed allocations counts more attempts than generations exactly when
      supervision calls may overlap and an allocation may fail. */
  lemma AttemptsOutrunIff(overlap: bool, limit: nat)
    ensures (exists s :: ReachableWith(overlap, s) && s.aborted <= limit && s.attempt > s.generation)
            <==> overlap && limit > 0
  {
    if overlap && limit > 0 {
      var s := OutrunningRun();
      OverlapIsReachable(s);
    } else {
      forall s | ReachableWith(overlap, s) && s.aborted <= limit ensures s.attempt <= s.generation {
        if overlap {
          OverlapIsReachable(s);
          BudgetHolds(s);
        } else {
          TwoThreadsKeepStep(s);
        }
      }
    }
  }

  lemma RestrictedIsReachable(overlap: bool, s: Sys)
    requires ReachableWith(overlap, s)
    ensures Reachable(s)
  {
    var es :| Runs(START, es) && After(START, es) == s;
  }

  /** Attempts and generations stay in step in every run exactly when supervision calls do not overlap or no
      allocation fails. */
  lemma AttemptsFollowIff(overlap: bool, limit: nat)
    ensures AttemptsFollow(overlap, limit) <==> !overlap || limit == 0
  {
    AttemptsOutrunIff(overlap, limit);
    forall s | ReachableWith(overlap, s) ensures s.generation <= s.attempt + 1 {
      RestrictedIsReachable(overlap, s);
      BudgetHolds(s);
    }
  }
}
