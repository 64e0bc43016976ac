/** What holds in every run of the replica's threads, and where attempts outrun generations. */
module ReplicaRuns {

  import opened ReplicaActor
  import opened ReplicaSystem

  // ---------- one statement keeps the invariant ----------

  ghost predicate CanStep(s: Sys, i: nat, raises: bool) {
    Inv(s) && Enabled(s, Step(i, raises))
  }

  lemma MoverPlaced(s: Sys, i: nat, raises: bool)
    requires CanStep(s, i, raises)
    ensures var t := Stepped(s, i, raises);
            i < |t.actors| && WellPlaced(t.actors[i]) && t.actors[i].kind == s.actors[i].kind
  {
    assert ActorFits(s, i);
  }

  lemma MoverOwns(s: Sys, i: nat, raises: bool)
    requires CanStep(s, i, raises)
    ensures var t := Stepped(s, i, raises); i < |t.actors| && (Owns(t.actors[i]) <==> t.owner == By(i))
  {
    assert ActorFits(s, i);
  }

  lemma MoverHolds(s: Sys, i: nat, raises: bool)
    requires CanStep(s, i, raises)
    ensures var t := Stepped(s, i, raises); i < |t.actors| && (KeepsLoop(t.actors[i]) <==> t.loop == Held(i))
  {
    assert ActorFits(s, i);
  }

  lemma MoverFits(s: Sys, i: nat, raises: bool)
    requires CanStep(s, i, raises)
    ensures ActorFits(Stepped(s, i, raises), i)
  {
    MoverPlaced(s, i, raises);
    MoverOwns(s, i, raises);
    MoverHolds(s, i, raises);
    var t := Stepped(s, i, raises);
    assert ActorFits(s, i) && t.actors[i] == Actor(s.actors[i].kind, NextPc(s, s.actors[i], raises));
    assert t.actors[i].pc.FailSet? ==> t.resolved == 0;
    assert t.actors[i].pc.Store? ==> t.actors[i].pc.a == t.attempt;
  }

  /** Two actors never own the flag together, nor hold the loop together. */
  lemma OtherFits(s: Sys, i: nat, raises: bool, j: nat)
    requires CanStep(s, i, raises) && j != i && j < |Stepped(s, i, raises).actors|
    ensures ActorFits(Stepped(s, i, raises), j)
  {
    assert ActorFits(s, i);
    assert j < |s.actors| ==> ActorFits(s, j);
  }

  lemma StepKeepsActors(s: Sys, i: nat, raises: bool)
    requires CanStep(s, i, raises)
    ensures forall j :: 0 <= j < |Stepped(s, i, raises).actors| ==> ActorFits(Stepped(s, i, raises), j)
    ensures OwnerPlaced(Stepped(s, i, raises))
  {
    assert ActorFits(s, i);
    forall j | 0 <= j < |Stepped(s, i, raises).actors| ensures ActorFits(Stepped(s, i, raises), j) {
      if j == i { MoverFits(s, i, raises); } else { OtherFits(s, i, raises, j); }
    }
  }

  lemma StepKeepsYoung(s: Sys, i: nat, raises: bool)
    requires CanStep(s, i, raises)
    ensures var t := Stepped(s, i, raises);
            && (StartingUp(t.actors[0]) ==> Young(t))
            && (t.actors[0].pc.End? || KeepsLoop(t.actors[0]) || StartingUp(t.actors[0]))
  {
    assert ActorFits(s, i) && ActorFits(s, 0);
  }

  lemma MultipleBelow(n: nat, k: nat)
    requires n % PROC_ATTEMPTS == 0 && PROC_ATTEMPTS * k < n
    ensures PROC_ATTEMPTS * (k + 1) <= n
  {
  }

  lemma StepKeepsAccount(s: Sys, i: nat, raises: bool)
    requires CanStep(s, i, raises)
    ensures Accounted(Stepped(s, i, raises))
  {
    assert ActorFits(s, i) && ActorFits(s, 0);
  }

  lemma StepKeepsBudget(s: Sys, i: nat, raises: bool)
    requires CanStep(s, i, raises)
    ensures WithinBudget(Stepped(s, i, raises))
  {
    assert ActorFits(s, i) && ActorFits(s, 0);
    var a := s.actors[i];
    if a.pc.Starting? && raises {
      MultipleBelow(s.attempt, s.aborted);
    }
  }

  lemma StepKeepsResolved(s: Sys, i: nat, raises: bool)
    requires CanStep(s, i, raises)
    ensures ResolvedOnce(Stepped(s, i, raises))
  {
    assert ActorFits(s, i);
  }

  lemma CallbackKeepsInv(s: Sys, e: Event)
    requires Inv(s) && Enabled(s, e) && !e.Step? && !e.Supervise?
    ensures Inv(Apply(s, e))
  {
    var t := Apply(s, e);
    assert t.actors == s.actors;
    forall j | 0 <= j < |t.actors| ensures ActorFits(t, j) {
      assert ActorFits(s, j);
    }
  }

  lemma SuperviseKeepsInv(s: Sys)
    requires Inv(s)
    ensures Inv(Apply(s, Supervise))
  {
    var t := Apply(s, Supervise);
    forall j | 0 <= j < |t.actors| ensures ActorFits(t, j) {
      assert j < |s.actors| ==> ActorFits(s, j);
    }
    assert t.actors[0] == s.actors[0];
    assert Busy(t) <==> Busy(s);
  }

  lemma EventKeepsInv(s: Sys, e: Event)
    requires Inv(s) && Enabled(s, e)
    ensures Inv(Apply(s, e))
  {
    if e.Step? {
      StepKeepsActors(s, e.i, e.raises);
      StepKeepsYoung(s, e.i, e.raises);
      StepKeepsAccount(s, e.i, e.raises);
      StepKeepsBudget(s, e.i, e.raises);
      StepKeepsResolved(s, e.i, e.raises);
    } else if e.Supervise? {
      SuperviseKeepsInv(s);
    } else {
      CallbackKeepsInv(s, e);
    }
  }

  lemma {:induction false} RunKeepsInv(s: Sys, es: seq<Event>)
    requires Inv(s) && Runs(s, es)
    ensures Inv(After(s, es))
    decreases |es|
  {
    if es != [] {
      EventKeepsInv(s, es[0]);
      RunKeepsInv(Apply(s, es[0]), es[1..]);
    }
  }

  lemma StartFits()
    ensures Inv(START)
  {
  }

  lemma ReachableInv(s: Sys)
    requires Reachable(s)
    ensures Inv(s)
  {
    var es :| Runs(START, es) && After(START, es) == s;
    StartFits();
    RunKeepsInv(START, es);
  }

  // ---------- results for every reachable state ----------

  /** The retry budget, and how far attempts and generations can drift apart. */
  lemma BudgetHolds(s: Sys)
    requires Reachable(s)
    ensures s.attempt <= MAX_ATTEMPT && s.generation <= MAX_ATTEMPT
    ensures s.generation <= s.attempt + 1 && s.attempt <= s.generation + s.aborted
    ensures PROC_ATTEMPTS * s.aborted <= s.attempt
  {
    ReachableInv(s);
  }

  lemma DoneAtMostOnce(s: Sys)
    requires Reachable(s)
    ensures s.resolved <= 1
    ensures && s.attempt == MAX_ATTEMPT && s.excs == 0 && s.loop.Idle?
            && (forall i :: 0 <= i < |s.actors| ==> !s.actors[i].pc.Schedule?)
            ==> s.resolved == 1
  {
    ReachableInv(s);
  }

  /** _stop_and_restart tasks that have not cleared the flag again. */
  predicate Outstanding(s: Sys, i: nat) {
    i < |s.actors| && s.actors[i].kind == Restart && Owns(s.actors[i])
  }

  /** At most one restart is outstanding, and while it is, nobody is handling a failure. */
  lemma OneRestartAtATime(s: Sys, i: nat, j: nat)
    requires Reachable(s) && Outstanding(s, i) && j < |s.actors| && Owns(s.actors[j])
    ensures i == j && s.restarting
  {
    ReachableInv(s);
    assert ActorFits(s, i) && ActorFits(s, j);
  }

  /** Giving up is final: no later step starts or counts anything. */
  lemma {:induction false} GivingUpIsFinal(s: Sys, es: seq<Event>)
    requires Inv(s) && s.owner.GivenUp? && Runs(s, es)
    ensures var t := After(s, es);
            t.owner.GivenUp? && t.attempt == s.attempt && t.generation == s.generation && t.restarting
    decreases |es|
  {
    if es != [] {
      if es[0].Step? { assert ActorFits(s, es[0].i) && ActorFits(s, 0); }
      EventKeepsInv(s, es[0]);
      GivingUpIsFinal(Apply(s, es[0]), es[1..]);
    }
  }

  // ---------- a supervision event handled without interruption ----------

  function SharedOf(s: Sys): Shared {
    Shared(s.attempt, s.generation, s.restarting, s.active, s.resolved > 0)
  }

  /** The body of the class, seen from the system: fields as it leaves them, and the task it schedules. */
  function Uninterrupted(s: Sys): Sys {
    var (f, o) := Supervised(SharedOf(s));
    Sys(f.attempt, f.generation, f.restarting, f.active, s.resolved, s.excs + (if o.GaveUp? then 1 else 0), s.loop,
        s.actors + [Actor(Supervisor, End)] + (if o.RestartAsked? then [Actor(Restart, Stopping)] else []),
        s.aborted,
        if o.GaveUp? then GivenUp else if o.RestartAsked? then By(|s.actors| + 1) else s.owner)
  }

  /** s with a supervision thread at `pc`. */
  function With(s: Sys, pc: Pc): Sys {
    s.(actors := s.actors + [Actor(Supervisor, pc)])
  }

  lemma {:induction false} RunsJoin(s: Sys, es: seq<Event>, fs: seq<Event>)
    requires Runs(s, es) && Runs(After(s, es), fs)
    ensures Runs(s, es + fs) && After(s, es + fs) == After(After(s, es), fs)
    decreases |es|
  {
    if es == [] {
      assert es + fs == fs;
    } else {
      var all, t := es + fs, Apply(s, es[0]);
      assert all[0] == es[0] && all[1..] == es[1..] + fs;
      assert Runs(t, es[1..]) && After(s, es) == After(t, es[1..]);
      RunsJoin(t, es[1..], fs);
      assert Runs(t, all[1..]);
    }
  }

  lemma RunsOnce(s: Sys, e: Event)
    requires Enabled(s, e)
    ensures Runs(s, [e]) && After(s, [e]) == Apply(s, e)
  {
    var es, t := [e], Apply(s, e);
    assert es[0] == e && es[1..] == [];
    assert Runs(t, []) && After(t, []) == t;
    assert Runs(s, es) && After(s, es) == After(t, es[1..]);
  }

  function Steps(i: nat, n: nat): (es: seq<Event>)
    ensures |es| == n
  {
    seq(n, _ => Step(i, false))
  }

  /** Running actor `i` for n steps, nothing raising. */
  ghost predicate Solo(s: Sys, i: nat, n: nat, t: Sys) {
    Runs(s, Steps(i, n)) && After(s, Steps(i, n)) == t
  }

  lemma SoloJoins(s: Sys, i: nat, n: nat, t: Sys, m: nat, u: Sys)
    requires Solo(s, i, n, t) && Solo(t, i, m, u)
    ensures Solo(s, i, n + m, u)
  {
    RunsJoin(s, Steps(i, n), Steps(i, m));
    assert Steps(i, n) + Steps(i, m) == Steps(i, n + m);
  }

  lemma SoloStep(s: Sys, pc: Pc, t: Sys)
    requires !pc.End?
    requires t == Stepped(With(s, pc), |s.actors|, false)
    ensures Solo(With(s, pc), |s.actors|, 1, t)
  {
    RunsOnce(With(s, pc), Step(|s.actors|, false));
    assert Steps(|s.actors|, 1) == [Step(|s.actors|, false)];
  }

  lemma SoloGuard(s: Sys, pc: Pc)
    requires pc.GuardDone? || pc.GuardRestarting? || pc.GuardActive? || pc.ReadGeneration? || pc.Compare?
    ensures Solo(With(s, pc), |s.actors|, 1, With(s, NextPc(s, Actor(Supervisor, pc), false)))
  {
    SoloStep(s, pc, With(s, NextPc(s, Actor(Supervisor, pc), false)));
  }

  /** s with the lock taken by its next supervision thread and training marked as down. */
  function Taken(s: Sys): Sys {
    s.(restarting := true, owner := By(|s.actors|), active := false)
  }

  lemma LockAlone(s: Sys)
    requires !s.restarting
    ensures Solo(With(s, TestAndSet), |s.actors|, 3, With(Taken(s), Store(s.attempt)))
  {
    var k := |s.actors|;
    var s1 := s.(restarting := true, owner := By(k));
    SoloStep(s, TestAndSet, With(s1, Deactivate));
    SoloStep(s1, Deactivate, With(Taken(s), Load));
    SoloStep(Taken(s), Load, With(Taken(s), Store(s.attempt)));
    SoloJoins(With(s, TestAndSet), k, 1, With(s1, Deactivate), 1, With(Taken(s), Load));
    SoloJoins(With(s, TestAndSet), k, 2, With(Taken(s), Load), 1, With(Taken(s), Store(s.attempt)));
  }

  lemma CountAlone(s: Sys, t: Sys)
    requires !s.restarting && s.active && s.resolved == 0 && t == Taken(s)
    ensures Solo(With(t, Store(s.attempt)), |s.actors|, 2, Uninterrupted(s))
  {
    var u := t.(attempt := s.attempt + 1);
    SoloStep(t, Store(s.attempt), With(u, Schedule));
    SoloStep(u, Schedule, Uninterrupted(s));
    SoloJoins(With(t, Store(s.attempt)), |s.actors|, 1, With(u, Schedule), 1, Uninterrupted(s));
  }

  /** From the lock to the end of _handle_failure. */
  lemma HandlingAlone(s: Sys)
    requires !s.restarting && s.active && s.resolved == 0
    ensures Solo(With(s, TestAndSet), |s.actors|, 5, Uninterrupted(s))
  {
    LockAlone(s);
    CountAlone(s, Taken(s));
    SoloJoins(With(s, TestAndSet), |s.actors|, 3, With(Taken(s), Store(s.attempt)), 2, Uninterrupted(s));
  }

  /** A supervision event that no other thread interrupts does to the shared fields what the body
      of Replica.Supervise does. */
  lemma UninterruptedSupervise(s: Sys) returns (n: nat)
    ensures Solo(With(s, GuardDone), |s.actors|, n, Uninterrupted(s))
  {
    var k := |s.actors|;
    SoloGuard(s, GuardDone);
    if s.resolved > 0 { return 1; }
    SoloGuard(s, GuardRestarting);
    SoloJoins(With(s, GuardDone), k, 1, With(s, GuardRestarting), 1,
              With(s, if s.restarting then End else GuardActive));
    if s.restarting { return 2; }
    SoloGuard(s, GuardActive);
    SoloJoins(With(s, GuardDone), k, 2, With(s, GuardActive), 1, With(s, if s.active then ReadGeneration else End));
    if !s.active { return 3; }
    SoloGuard(s, ReadGeneration);
    SoloGuard(s, Compare(s.generation));
    SoloJoins(With(s, GuardDone), k, 3, With(s, ReadGeneration), 1, With(s, Compare(s.generation)));
    SoloJoins(With(s, GuardDone), k, 4, With(s, Compare(s.generation)), 1, With(s, TestAndSet));
    HandlingAlone(s);
    SoloJoins(With(s, GuardDone), k, 5, With(s, TestAndSet), 5, Uninterrupted(s));
    n := 10;
  }

  // ---------- a completion handled without interruption ----------

  /** `n` statements of a callback that has the loop. */
  function LoopSteps(n: nat): (es: seq<Event>)
    ensures |es| == n
  {
    seq(n, _ => LoopStep)
  }

  lemma RunsLoopStep(s: Sys, t: Sys, n: nat, u: Sys)
    requires Enabled(s, LoopStep) && t == Apply(s, LoopStep)
    requires Runs(t, LoopSteps(n)) && After(t, LoopSteps(n)) == u
    ensures Runs(s, LoopSteps(n + 1)) && After(s, LoopSteps(n + 1)) == u
  {
    RunsOnce(s, LoopStep);
    RunsJoin(s, [LoopStep], LoopSteps(n));
    assert [LoopStep] + LoopSteps(n) == LoopSteps(n + 1);
  }

  /** training_completed for generation g on an idle loop does to the shared fields what the body of
      Replica.TrainingCompleted does: a stale one nothing, and otherwise training is down and the future, if it was
      not resolved before, is resolved once. Then the loop is idle again, and nobody else has moved. */
  lemma UninterruptedComplete(s: Sys, g: nat) returns (n: nat, t: Sys)
    requires s.loop.Idle?
    ensures Enabled(s, Complete(g)) && Runs(Apply(s, Complete(g)), LoopSteps(n))
    ensures t == After(Apply(s, Complete(g)), LoopSteps(n)) && !Enabled(t, LoopStep)
    ensures SharedOf(t) == Completed(SharedOf(s), g)
    ensures g != s.generation ==> t == s
    ensures g == s.generation ==> t == s.(active := false, resolved := if s.resolved > 0 then s.resolved else 1)
  {
    var u := Apply(s, Complete(g));
    n, t := 0, u;
    assert Runs(u, LoopSteps(0)) && After(u, LoopSteps(0)) == u;
    if g == s.generation {
      var v := Apply(u, LoopStep);
      var w := Apply(v, LoopStep);
      assert Runs(w, LoopSteps(0)) && After(w, LoopSteps(0)) == w;
      if s.resolved > 0 {
        n, t := 2, w;
      } else {
        n, t := 3, Apply(w, LoopStep);
        assert Runs(t, LoopSteps(0)) && After(t, LoopSteps(0)) == t;
        RunsLoopStep(w, t, 0, t);
      }
      RunsLoopStep(v, w, n - 2, t);
      RunsLoopStep(u, v, n - 1, t);
    }
  }

  // ---------- a broadcast that raises ----------

  lemma SoloOnce(s: Sys, i: nat, t: Sys)
    requires Enabled(s, Step(i, false)) && t == Apply(s, Step(i, false))
    ensures Solo(s, i, 1, t)
  {
    RunsOnce(s, Step(i, false));
    assert Steps(i, 1) == [Step(i, false)];
  }

  /** s with actor i, which has the loop, at `pc`. */
  function LoopAt(s: Sys, i: nat, pc: Pc): Sys
    requires i < |s.actors|
  {
    s.(actors := s.actors[i := Actor(s.actors[i].kind, pc)])
  }

  lemma LoopGuard(s: Sys, i: nat, pc: Pc, next: Pc)
    requires i < |s.actors| && s.actors[i].kind != Supervisor && s.loop == Held(i)
    requires pc.Compare? || (pc.TestAndSet? && s.restarting)
    requires next == NextPc(s, Actor(s.actors[i].kind, pc), false)
    ensures Solo(LoopAt(s, i, pc), i, 1, LoopAt(s, i, next))
  {
    SoloOnce(LoopAt(s, i, pc), i, LoopAt(s, i, next));
  }

  lemma LoopLocks(s: Sys, i: nat, t: Sys)
    requires i < |s.actors| && s.actors[i].kind != Supervisor && s.loop == Held(i) && !s.restarting
    requires t == s.(restarting := true, owner := By(i), active := false)
    ensures Solo(LoopAt(s, i, TestAndSet), i, 3, LoopAt(t, i, Store(s.attempt)))
  {
    var u := s.(restarting := true, owner := By(i));
    SoloOnce(LoopAt(s, i, TestAndSet), i, LoopAt(u, i, Deactivate));
    SoloOnce(LoopAt(u, i, Deactivate), i, LoopAt(t, i, Load));
    SoloOnce(LoopAt(t, i, Load), i, LoopAt(t, i, Store(s.attempt)));
    SoloJoins(LoopAt(s, i, TestAndSet), i, 1, LoopAt(u, i, Deactivate), 1, LoopAt(t, i, Load));
    SoloJoins(LoopAt(s, i, TestAndSet), i, 2, LoopAt(t, i, Load), 1, LoopAt(t, i, Store(s.attempt)));
  }

  lemma LoopCounts(t: Sys, i: nat) returns (v: Sys)
    requires i < |t.actors| && t.actors[i].kind != Supervisor && t.loop == Held(i)
    ensures Solo(LoopAt(t, i, Store(t.attempt)), i, 2, v)
    ensures SharedOf(v) == SharedOf(t).(attempt := t.attempt + 1)
    ensures i < |v.actors| && v.actors[i] == Actor(t.actors[i].kind, Returning)
  {
    var u := LoopAt(t.(attempt := t.attempt + 1), i, Schedule);
    SoloOnce(LoopAt(t, i, Store(t.attempt)), i, u);
    v := Apply(u, Step(i, false));
    SoloOnce(u, i, v);
    SoloJoins(LoopAt(t, i, Store(t.attempt)), i, 1, u, 1, v);
  }

  lemma LoopRestarts(s: Sys, i: nat) returns (v: Sys)
    requires i < |s.actors| && s.actors[i].kind != Supervisor && s.loop == Held(i) && !s.restarting
    ensures Solo(LoopAt(s, i, TestAndSet), i, 5, v)
    ensures SharedOf(v) == SharedOf(s).(attempt := s.attempt + 1, restarting := true, active := false)
    ensures i < |v.actors| && v.actors[i] == Actor(s.actors[i].kind, Returning)
  {
    var t := s.(restarting := true, owner := By(i), active := false);
    LoopLocks(s, i, t);
    v := LoopCounts(t, i);
    SoloJoins(LoopAt(s, i, TestAndSet), i, 3, LoopAt(t, i, Store(s.attempt)), 2, v);
  }

  /** _handle_failure on the loop, from the comparison of the generation to the return, does to the shared fields what
      the body of Replica.HandleFailure does. */
  lemma LoopHandles(s: Sys, i: nat, g: nat) returns (n: nat, v: Sys)
    requires i < |s.actors| && s.actors[i].kind != Supervisor && s.loop == Held(i)
    ensures Solo(LoopAt(s, i, Compare(g)), i, n, v)
    ensures SharedOf(v) == Handled(SharedOf(s), g).0
    ensures i < |v.actors| && v.actors[i] == Actor(s.actors[i].kind, Returning)
  {
    var s0, s1 := LoopAt(s, i, Compare(g)), LoopAt(s, i, TestAndSet);
    LoopGuard(s, i, Compare(g), if g != s.generation then Returning else TestAndSet);
    if g != s.generation { return 1, LoopAt(s, i, Returning); }
    if s.restarting {
      LoopGuard(s, i, TestAndSet, Returning);
      v := LoopAt(s, i, Returning);
      SoloJoins(s0, i, 1, s1, 1, v);
      n := 2;
    } else {
      v := LoopRestarts(s, i);
      SoloJoins(s0, i, 1, s1, 5, v);
      n := 6;
    }
  }

  /** A broadcast that raises is handled as a failure of its generation, and so counts an attempt exactly when the
      generation is current and no restart is under way. */
  lemma FailedBroadcastCountsIff(s: Sys, i: nat, g: nat) returns (n: nat, v: Sys)
    requires i < |s.actors| && s.actors[i].kind != Supervisor && s.actors[i].pc == Broadcasting(g) && s.loop == Held(i)
    ensures Enabled(s, Step(i, true)) && Solo(Apply(s, Step(i, true)), i, n, v)
    ensures i < |v.actors| && v.actors[i] == Actor(s.actors[i].kind, Returning)
    ensures SharedOf(v) == Handled(SharedOf(s), g).0
    ensures v.attempt == s.attempt + 1 <==> g == s.generation && !s.restarting
  {
    assert Apply(s, Step(i, true)) == LoopAt(s, i, Compare(g));
    n, v := LoopHandles(s, i, g);
  }

  /** In a restart the flag is still set then: the failure changes nothing, and the generation stays marked as active.
      Only the first start's failed broadcast can count. */
  lemma RestartLosesBroadcast(s: Sys, i: nat, g: nat) returns (n: nat, v: Sys)
    requires Reachable(s) && i < |s.actors| && s.actors[i] == Actor(Restart, Broadcasting(g))
    ensures Enabled(s, Step(i, true)) && Solo(Apply(s, Step(i, true)), i, n, v)
    ensures SharedOf(v) == SharedOf(s) && i < |v.actors| && v.actors[i] == Actor(Restart, Returning)
  {
    ReachableInv(s);
    assert ActorFits(s, i);
    n, v := FailedBroadcastCountsIff(s, i, g);
  }

  // ---------- what a failed start and a completion lead to ----------

  predicate FailedStart(a: Actor) {
    a.pc.Failing? || a.pc.FailCheck? || a.pc.FailSet?
  }

  /** A restart whose start has failed has resolved the done future by the time it ends, whatever runs beside it. */
  lemma {:induction false} FailureIsReported(s: Sys, es: seq<Event>, i: nat)
    requires Runs(s, es) && i < |s.actors| && s.actors[i].kind == Restart
    requires FailedStart(s.actors[i]) || (s.actors[i].pc.End? && s.resolved > 0)
    ensures i < |After(s, es).actors|
    ensures After(s, es).actors[i].pc.End? ==> After(s, es).resolved > 0
    decreases |es|
  {
    if es != [] { FailureIsReported(Apply(s, es[0]), es[1..], i); }
  }

  /** Supervision calls that have not passed their first guard, or are over. */
  predicate AtFirstGuard(a: Actor) {
    a.kind == Supervisor && (a.pc.GuardDone? || a.pc.End?)
  }

  /** Nobody restarts anything: every start is over, and no supervision call has passed its first guard. */
  predicate AtRest(s: Sys) {
    forall i :: 0 <= i < |s.actors| ==> s.actors[i].pc.End? || AtFirstGuard(s.actors[i])
  }

  /** Once the future is resolved and nothing is under way, supervision events change nothing any more. */
  lemma {:induction false} DoneIsFinal(s: Sys, es: seq<Event>)
    requires s.resolved > 0 && AtRest(s) && Runs(s, es)
    ensures var t := After(s, es);
            && AtRest(t) && t.resolved > 0
            && t.attempt == s.attempt && t.generation == s.generation && t.restarting == s.restarting
    decreases |es|
  {
    if es != [] { DoneIsFinal(Apply(s, es[0]), es[1..]); }
  }

  // ---------- a run in which attempts outrun generations ----------

  ghost predicate Leads(s: Sys, t: Sys) {
    exists es :: Runs(s, es) && After(s, es) == t
  }

  lemma LeadsJoin(s: Sys, t: Sys, u: Sys)
    requires Leads(s, t) && Leads(t, u)
    ensures Leads(s, u)
  {
    var es :| Runs(s, es) && After(s, es) == t;
    var fs :| Runs(t, fs) && After(t, fs) == u;
    RunsJoin(s, es, fs);
  }

  lemma LeadsBy(s: Sys, e: Event)
    requires Enabled(s, e)
    ensures Leads(s, Apply(s, e))
  {
    RunsOnce(s, e);
  }

  /** Training, after n restarts, with one old supervision event that has passed its guards. */
  predicate Training(s: Sys, n: nat) {
    && s.attempt == n && s.generation == n + 1 && !s.restarting && s.active && s.resolved == 0 && s.excs == 0
    && s.loop.Idle? && s.aborted == 0 && |s.actors| > 1 && s.actors[1] == Actor(Supervisor, ReadGeneration)
  }

  /** The trainers die and the restart reaches its start. */
  lemma DieAndStop(s: Sys, n: nat) returns (t: Sys)
    requires Training(s, n) && n + 1 < MAX_ATTEMPT
    ensures Leads(s, t)
    ensures t == Uninterrupted(s).(actors := s.actors + [Actor(Supervisor, End), Actor(Restart, Starting)])
  {
    var k := UninterruptedSupervise(s);
    LeadsBy(s, Supervise);
    LeadsJoin(s, With(s, GuardDone), Uninterrupted(s));
    var u := Uninterrupted(s);
    var e := Step(|s.actors| + 1, false);
    LeadsBy(u, e);
    t := Apply(u, e);
    assert t.actors == s.actors + [Actor(Supervisor, End), Actor(Restart, Starting)];
    LeadsJoin(s, u, t);
  }

  /** One statement of the last actor, a restart. */
  lemma RestartStep(s: Sys, xs: seq<Actor>, pc: Pc, raises: bool, t: Sys)
    requires s.actors == xs + [Actor(Restart, pc)] && Enabled(s, Step(|xs|, raises)) && !pc.Schedule?
    requires t == Stepped(s, |xs|, raises)
    ensures t.actors == xs + [Actor(Restart, NextPc(s, Actor(Restart, pc), raises))]
    ensures Leads(s, t)
  {
    LeadsBy(s, Step(|xs|, raises));
  }

  lemma LeadsInThree(s: Sys, t: Sys, u: Sys, v: Sys)
    requires Leads(s, t) && Leads(t, u) && Leads(u, v)
    ensures Leads(s, v)
  {
    LeadsJoin(s, t, u);
    LeadsJoin(s, u, v);
  }

  /** A restart reaches the end of the spawning. */
  lemma SpawnAgain(s: Sys, xs: seq<Actor>) returns (t: Sys)
    requires s.actors == xs + [Actor(Restart, Starting)] && s.loop.Idle?
    ensures Leads(s, t)
    ensures t == s.(generation := s.generation + 1, actors := xs + [Actor(Restart, Activating(s.generation + 1))])
  {
    var k := |xs|;
    var s1 := s.(actors := xs + [Actor(Restart, Incrementing)]);
    RestartStep(s, xs, Starting, false, s1);
    var s2 := s.(generation := s.generation + 1, actors := xs + [Actor(Restart, Spawning(s.generation + 1))]);
    RestartStep(s1, xs, Incrementing, false, s2);
    t := s.(generation := s.generation + 1, actors := xs + [Actor(Restart, Activating(s.generation + 1))]);
    RestartStep(s2, xs, Spawning(s.generation + 1), false, t);
    LeadsInThree(s, s1, s2, t);
  }

  lemma BroadcastAgain(s: Sys, xs: seq<Actor>, g: nat) returns (t: Sys)
    requires s.actors == xs + [Actor(Restart, Activating(g))] && s.loop.Idle?
    ensures Leads(s, t)
    ensures t == s.(active := true, restarting := false, owner := Nobody, actors := xs + [Actor(Restart, End)])
  {
    var k := |xs|;
    var s1 := s.(active := true, loop := Held(k), actors := xs + [Actor(Restart, Broadcasting(g))]);
    RestartStep(s, xs, Activating(g), false, s1);
    var s2 := s1.(actors := xs + [Actor(Restart, Returning)]);
    RestartStep(s1, xs, Broadcasting(g), false, s2);
    t := s.(active := true, restarting := false, owner := Nobody, actors := xs + [Actor(Restart, End)]);
    RestartStep(s2, xs, Returning, false, t);
    LeadsInThree(s, s1, s2, t);
  }

  lemma Recover(s: Sys, xs: seq<Actor>, n: nat) returns (t: Sys)
    requires s.actors == xs + [Actor(Restart, Starting)] && s.attempt == n && s.generation == n
    requires s.resolved == 0 && s.excs == 0 && s.loop.Idle? && s.aborted == 0
    requires |xs| > 1 && xs[1] == Actor(Supervisor, ReadGeneration)
    ensures Leads(s, t) && Training(t, n)
  {
    var u := SpawnAgain(s, xs);
    t := BroadcastAgain(u, xs, n + 1);
    LeadsJoin(s, u, t);
  }

  lemma LeadsOnce(s: Sys, e: Event, t: Sys)
    requires Enabled(s, e) && Apply(s, e) == t
    ensures Leads(s, t)
  {
    LeadsBy(s, e);
  }

  /** The first generation comes up, and a supervision event passes its guards. */
  lemma FirstGeneration() returns (t: Sys)
    ensures Leads(START, t) && Training(t, 0)
  {
    var s3 := START.(generation := 1, actors := [Actor(First, Activating(1))]);
    FirstSpawns(s3);
    var s6 := s3.(active := true, actors := [Actor(First, End)]);
    FirstBroadcasts(s3, s6);
    t := PastGuards(s6);
    LeadsInThree(START, s3, s6, t);
  }

  lemma FirstSpawns(t: Sys)
    requires t == START.(generation := 1, actors := [Actor(First, Activating(1))])
    ensures Leads(START, t)
  {
    var s1 := START.(actors := [Actor(First, Incrementing)]);
    var s2 := START.(generation := 1, actors := [Actor(First, Spawning(1))]);
    LeadsOnce(START, Step(0, false), s1);
    LeadsOnce(s1, Step(0, false), s2);
    LeadsOnce(s2, Step(0, false), t);
    LeadsInThree(START, s1, s2, t);
  }

  lemma FirstBroadcasts(s: Sys, t: Sys)
    requires s.actors == [Actor(First, Activating(1))] && s.loop.Idle?
    requires t == s.(active := true, actors := [Actor(First, End)])
    ensures Leads(s, t)
  {
    var s1 := s.(active := true, loop := Held(0), actors := [Actor(First, Broadcasting(1))]);
    var s2 := s1.(actors := [Actor(First, Returning)]);
    LeadsOnce(s, Step(0, false), s1);
    LeadsOnce(s1, Step(0, false), s2);
    LeadsOnce(s2, Step(0, false), t);
    LeadsInThree(s, s1, s2, t);
  }

  lemma PastGuards(s: Sys) returns (t: Sys)
    requires !s.restarting && s.active && s.resolved == 0
    ensures Leads(s, t) && t == With(s, ReadGeneration)
  {
    t := With(s, ReadGeneration);
    SoloGuard(s, GuardDone);
    SoloGuard(s, GuardRestarting);
    SoloGuard(s, GuardActive);
    SoloJoins(With(s, GuardDone), |s.actors|, 1, With(s, GuardRestarting), 1, With(s, GuardActive));
    SoloJoins(With(s, GuardDone), |s.actors|, 2, With(s, GuardActive), 1, t);
    LeadsBy(s, Supervise);
    LeadsJoin(s, With(s, GuardDone), t);
  }

  lemma {:induction false} AfterRestarts(n: nat) returns (t: Sys)
    requires n < MAX_ATTEMPT
    ensures Leads(START, t) && Training(t, n)
    decreases n
  {
    if n == 0 {
      t := FirstGeneration();
    } else {
      var s := AfterRestarts(n - 1);
      var u := DieAndStop(s, n - 1);
      t := Recover(u, s.actors + [Actor(Supervisor, End)], n);
      LeadsJoin(START, s, u);
      LeadsJoin(START, u, t);
    }
  }

  /** The start that needs a new allocation does not get one. */
  lemma AbortStart(s: Sys, xs: seq<Actor>) returns (t: Sys)
    requires s.actors == xs + [Actor(Restart, Starting)] && s.loop.Idle? && MayRaise(s, Starting)
    ensures Leads(s, t) && !t.restarting && t.attempt == s.attempt && t.generation == s.generation
    ensures t.aborted == s.aborted + 1 && t.actors == xs + [Actor(Restart, FailCheck)]
  {
    var s1 := Stepped(s, |xs|, true);
    RestartStep(s, xs, Starting, true, s1);
    t := Stepped(s1, |xs|, false);
    RestartStep(s1, xs, Failing, false, t);
    LeadsJoin(s, s1, t);
  }

  /** The old supervision event then counts one more attempt. */
  lemma StaleEventCounts(s: Sys, i: nat) returns (t: Sys)
    requires i < |s.actors| && s.actors[i] == Actor(Supervisor, ReadGeneration) && !s.restarting
    ensures Leads(s, t) && t.attempt == s.attempt + 1 && t.generation == s.generation && t.aborted == s.aborted
  {
    var e := Step(i, false);
    var s1 := Apply(s, e);
    var s2 := Apply(s1, e);
    var s3 := Apply(s2, e);
    LeadsBy(s, e);
    LeadsBy(s1, e);
    LeadsBy(s2, e);
    LeadsJoin(s, s1, s2);
    LeadsJoin(s, s2, s3);
    assert s3.actors[i] == Actor(Supervisor, Deactivate) && s3.attempt == s.attempt;
    var s4 := Apply(s3, e);
    var s5 := Apply(s4, e);
    t := Apply(s5, e);
    LeadsBy(s3, e);
    LeadsBy(s4, e);
    LeadsBy(s5, e);
    LeadsJoin(s3, s4, s5);
    LeadsJoin(s3, s5, t);
    LeadsJoin(s, s3, t);
  }

  lemma OutrunningRun() returns (t: Sys)
    ensures Reachable(t) && t.aborted == 1 && t.attempt > t.generation
  {
    var s := AfterRestarts(PROC_ATTEMPTS - 1);
    var u := DieAndStop(s, PROC_ATTEMPTS - 1);
    LeadsJoin(START, s, u);
    var v := AbortStart(u, s.actors + [Actor(Supervisor, End)]);
    LeadsJoin(START, u, v);
    t := StaleEventCounts(v, 1);
    LeadsJoin(START, v, t);
  }
}
