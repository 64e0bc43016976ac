/** Every interleaving of the event loop with any number of supervision threads, one statement a step. */
module ReplicaSystem {

  import opened ReplicaActor

  /** __supervise__ on its own thread; the first _start_attempt; a _stop_and_restart task. */
  datatype Kind = Supervisor | First | Restart

  /** The next statement. `g` is the generation a body has read or was called with. */
  datatype Pc =
    // __supervise__
    | GuardDone | GuardRestarting | GuardActive | ReadGeneration
    // _handle_failure
    | Compare(g: nat) | TestAndSet | Deactivate | Load | Store(a: nat) | Schedule
    // _stop_and_restart and _start_attempt
    | Stopping | Starting | Incrementing | Spawning(g: nat) | Activating(g: nat) | Broadcasting(g: nat) | Returning
    | Failing | FailCheck | FailSet
    | End

  datatype Actor = Actor(kind: Kind, pc: Pc)

  /** Who has the event loop: nobody, an actor between two awaits, training_completed about to clear the
      flag, test or set the future, or the callback that sets the exception. */
  datatype Loop = Idle | Held(i: nat) | CompleteClear | CompleteCheck | CompleteSet | ExceptionSet

  /** Bookkeeping only: on whose behalf `restarting` is set. */
  datatype Owner = Nobody | By(i: nat) | GivenUp

  /** `resolved` counts how often the done future was resolved, `excs` the queued _set_exc callbacks,
      `aborted` the starts that raised before they reached the generation counter. */
  datatype Sys = Sys(attempt: nat, generation: nat, restarting: bool, active: bool, resolved: nat, excs: nat,
                     loop: Loop, actors: seq<Actor>, aborted: nat, owner: Owner)

  const START := Sys(0, 0, false, false, 0, 0, Idle, [Actor(First, Starting)], 0, Nobody)

  /** `raises` picks the outcome of a statement that may raise. */
  datatype Event =
    | Supervise
    | Complete(g: nat)
    | LoopStep
    | RunSetExc
    | Step(i: nat, raises: bool)

  // ---------- one statement ----------

  function AfterHandling(k: Kind): Pc {
    if k == Supervisor then End else Returning
  }

  /** Statements that may raise: fetching a new allocation, spawning, broadcasting. */
  predicate MayRaise(s: Sys, pc: Pc) {
    match pc
    case Starting => s.attempt != 0 && s.attempt % PROC_ATTEMPTS == 0
    case Spawning(_) => true
    case Broadcasting(_) => true
    case _ => false
  }

  function NextPc(s: Sys, a: Actor, raises: bool): Pc {
    match a.pc
    case GuardDone => if s.resolved > 0 then End else GuardRestarting
    case GuardRestarting => if s.restarting then End else GuardActive
    case GuardActive => if !s.active then End else ReadGeneration
    case ReadGeneration => Compare(s.generation)
    case Compare(g) => if g != s.generation then AfterHandling(a.kind) else TestAndSet
    case TestAndSet => if s.restarting then AfterHandling(a.kind) else Deactivate
    case Deactivate => Load
    case Load => Store(s.attempt)
    case Store(_) => Schedule
    case Schedule => AfterHandling(a.kind)
    case Stopping => Starting
    case Starting => if raises then Failing else Incrementing
    case Incrementing => Spawning(s.generation + 1)
    case Spawning(g) => if raises then (if a.kind == Restart then Failing else End) else Activating(g)
    case Activating(g) => Broadcasting(g)
    case Broadcasting(g) => if raises then Compare(g) else Returning
    case Returning => End
    case Failing => FailCheck
    case FailCheck => if s.resolved > 0 then End else FailSet
    case FailSet => End
    case End => End
  }

  /** No await between here and the next statement, so the actor keeps the loop. */
  predicate KeepsLoop(a: Actor) {
    && a.kind != Supervisor
    && !(a.pc.Stopping? || a.pc.Starting? || a.pc.Incrementing? || a.pc.Spawning? || a.pc.Activating? || a.pc.End?)
  }

  predicate Clears(a: Actor) {
    a.pc.Failing? || (a.pc.Returning? && a.kind == Restart)
  }

  predicate Grabs(s: Sys, a: Actor) {
    a.pc.TestAndSet? && !s.restarting
  }

  predicate GivesUp(s: Sys, a: Actor) {
    a.pc.Schedule? && s.attempt >= MAX_ATTEMPT
  }

  predicate Restarts(s: Sys, a: Actor) {
    a.pc.Schedule? && s.attempt < MAX_ATTEMPT
  }

  function NextOwner(s: Sys, i: nat, a: Actor): Owner {
    if Grabs(s, a) then By(i)
    else if GivesUp(s, a) then GivenUp
    else if Restarts(s, a) then By(|s.actors|)
    else if Clears(a) then Nobody
    else s.owner
  }

  function NextActors(s: Sys, i: nat, raises: bool): seq<Actor>
    requires i < |s.actors|
  {
    var a := s.actors[i];
    s.actors[i := Actor(a.kind, NextPc(s, a, raises))] + if Restarts(s, a) then [Actor(Restart, Stopping)] else []
  }

  function NextLoop(s: Sys, i: nat, raises: bool): Loop
    requires i < |s.actors|
  {
    var a := s.actors[i];
    if a.kind == Supervisor then s.loop
    else if KeepsLoop(Actor(a.kind, NextPc(s, a, raises))) then Held(i)
    else Idle
  }

  function Stepped(s: Sys, i: nat, raises: bool): Sys
    requires i < |s.actors|
  {
    var a := s.actors[i];
    Sys(if a.pc.Store? then a.pc.a + 1 else s.attempt,
        if a.pc.Incrementing? then s.generation + 1 else s.generation,
        if Grabs(s, a) then true else if Clears(a) then false else s.restarting,
        if a.pc.Deactivate? then false else if a.pc.Activating? then true else s.active,
        if a.pc.FailSet? then s.resolved + 1 else s.resolved,
        if GivesUp(s, a) then s.excs + 1 else s.excs,
        NextLoop(s, i, raises),
        NextActors(s, i, raises),
        if a.pc.Starting? && raises then s.aborted + 1 else s.aborted,
        NextOwner(s, i, a))
  }

  predicate Enabled(s: Sys, e: Event) {
    match e
    case Supervise => true
    case Complete(_) => s.loop.Idle?
    case LoopStep => s.loop.CompleteClear? || s.loop.CompleteCheck? || s.loop.CompleteSet? || s.loop.ExceptionSet?
    case RunSetExc => s.loop.Idle? && s.excs > 0
    case Step(i, raises) =>
      && i < |s.actors| && !s.actors[i].pc.End?
      && (raises ==> MayRaise(s, s.actors[i].pc))
      && (s.actors[i].kind == Supervisor || s.loop == Held(i) || (s.loop.Idle? && !KeepsLoop(s.actors[i])))
  }

  function Apply(s: Sys, e: Event): Sys
    requires Enabled(s, e)
  {
    match e
    case Supervise => s.(actors := s.actors + [Actor(Supervisor, GuardDone)])
    case Complete(g) => if g != s.generation then s else s.(loop := CompleteClear)
    case LoopStep =>
      (match s.loop
       case CompleteClear => s.(active := false, loop := CompleteCheck)
       case CompleteCheck => s.(loop := if s.resolved > 0 then Idle else CompleteSet)
       case _ => s.(resolved := s.resolved + 1, loop := Idle))
    case RunSetExc => s.(excs := s.excs - 1, loop := if s.resolved > 0 then Idle else ExceptionSet)
    case Step(i, raises) => Stepped(s, i, raises)
  }

  ghost predicate Runs(s: Sys, es: seq<Event>)
    decreases |es|
  {
    es == [] || (Enabled(s, es[0]) && Runs(Apply(s, es[0]), es[1..]))
  }

  function After(s: Sys, es: seq<Event>): Sys
    requires Runs(s, es)
    decreases |es|
  {
    if es == [] then s else After(Apply(s, es[0]), es[1..])
  }

  ghost predicate Reachable(s: Sys) {
    exists es :: Runs(START, es) && After(START, es) == s
  }

  // ---------- what every step keeps ----------

  /** The actor on whose behalf `restarting` is set. */
  predicate Owns(a: Actor) {
    || a.pc.Deactivate? || a.pc.Load? || a.pc.Store? || a.pc.Schedule?
    || (a.kind == Restart && !a.pc.FailCheck? && !a.pc.FailSet? && !a.pc.End?)
  }

  /** Statements each kind of actor can be at. */
  predicate WellPlaced(a: Actor) {
    match a.kind
    case Supervisor => !(a.pc.Stopping? || a.pc.Starting? || a.pc.Incrementing? || a.pc.Spawning? || a.pc.Activating?
                         || a.pc.Broadcasting? || a.pc.Returning? || a.pc.Failing? || a.pc.FailCheck? || a.pc.FailSet?)
    case First => !(a.pc.GuardDone? || a.pc.GuardRestarting? || a.pc.GuardActive? || a.pc.ReadGeneration?
                    || a.pc.Stopping? || a.pc.Failing? || a.pc.FailCheck? || a.pc.FailSet?)
    case Restart => !(a.pc.GuardDone? || a.pc.GuardRestarting? || a.pc.GuardActive? || a.pc.ReadGeneration?
                      || a.pc.Deactivate? || a.pc.Load? || a.pc.Store? || a.pc.Schedule?)
  }

  predicate Waiting(a: Actor) {
    a.kind == Supervisor && (a.pc.GuardDone? || a.pc.GuardRestarting? || a.pc.GuardActive? || a.pc.End?)
  }

  predicate BeforeFirstGeneration(a: Actor) {
    a.kind == First && (a.pc.Starting? || a.pc.Incrementing?)
  }

  /** The first start has not made a generation live. */
  predicate Young(s: Sys) {
    && !s.active && s.owner.Nobody? && s.attempt == 0 && s.aborted == 0
    && forall i :: 1 <= i < |s.actors| ==> Waiting(s.actors[i])
  }

  predicate StartingUp(a: Actor) {
    a.pc.Starting? || a.pc.Incrementing? || a.pc.Spawning? || a.pc.Activating?
  }

  ghost predicate ActorFits(s: Sys, i: nat)
    requires i < |s.actors|
  {
    var a := s.actors[i];
    && WellPlaced(a)
    && (a.kind == First <==> i == 0)
    && (Owns(a) <==> s.owner == By(i))
    && (KeepsLoop(a) <==> s.loop == Held(i))
    && (a.pc.FailSet? ==> s.resolved == 0)
    && (a.pc.Store? ==> a.pc.a == s.attempt)
  }

  /** A restart is owed: counted as an attempt, and neither dropped nor past the generation counter. */
  predicate Owed(a: Actor) {
    a.pc.Schedule? || (a.kind == Restart && (a.pc.Stopping? || a.pc.Starting? || a.pc.Incrementing?))
  }

  predicate Busy(s: Sys) {
    || s.owner.GivenUp?
    || (s.owner.By? && s.owner.i < |s.actors| && Owed(s.actors[s.owner.i]))
    || (|s.actors| > 0 && BeforeFirstGeneration(s.actors[0]))
  }

  predicate OwnerPlaced(s: Sys) {
    && (s.restarting <==> !s.owner.Nobody?)
    && (s.owner.By? ==> s.owner.i < |s.actors|)
    && (s.loop.Held? ==> s.loop.i < |s.actors|)
  }

  /** Every attempt has led to a generation, to an aborted start, or is owed. */
  predicate Accounted(s: Sys) {
    s.generation + s.aborted + (if Busy(s) then 1 else 0) == s.attempt + 1
  }

  predicate WithinBudget(s: Sys) {
    && s.attempt <= MAX_ATTEMPT
    && (s.attempt == MAX_ATTEMPT ==>
        s.owner.GivenUp? || (s.owner.By? && s.owner.i < |s.actors| && s.actors[s.owner.i].pc.Schedule?))
    && PROC_ATTEMPTS * s.aborted + (if s.attempt > 0 && Busy(s) then 1 else 0) <= s.attempt
  }

  predicate ResolvedOnce(s: Sys) {
    && s.resolved <= 1
    && (s.loop.CompleteSet? || s.loop.ExceptionSet? ==> s.resolved == 0)
    && (s.owner.GivenUp? ==> s.excs > 0 || s.resolved > 0 || s.loop.ExceptionSet?)
  }

  ghost predicate Inv(s: Sys) {
    && |s.actors| > 0
    && (forall i :: 0 <= i < |s.actors| ==> ActorFits(s, i))
    && (StartingUp(s.actors[0]) ==> Young(s))
    && (s.actors[0].pc.End? || KeepsLoop(s.actors[0]) || StartingUp(s.actors[0]))
    && OwnerPlaced(s) && Accounted(s) && WithinBudget(s) && ResolvedOnce(s)
  }
}
