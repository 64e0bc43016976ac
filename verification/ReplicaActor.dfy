/** The supervision fields of one replica and the bodies that change them (client.py). */
module ReplicaActor {

  const PROC_ATTEMPTS := 64
  const MAX_ATTEMPT := PROC_ATTEMPTS * 64

  /** What the threads of the actor share; `done` says that the done future is resolved. */
  datatype Shared = Shared(attempt: nat, generation: nat, restarting: bool, active: bool, done: bool)

  /** What handling a failure asks of the event loop. */
  datatype Outcome = Dropped | RestartAsked | GaveUp

  /** _handle_failure, run without interruption. */
  function Handled(s: Shared, generation: nat): (Shared, Outcome) {
    if generation != s.generation || s.restarting then (s, Dropped)
    else (Shared(s.attempt + 1, s.generation, true, false, s.done),
          if s.attempt + 1 >= MAX_ATTEMPT then GaveUp else RestartAsked)
  }

  /** __supervise__, run without interruption. */
  function Supervised(s: Shared): (Shared, Outcome) {
    if s.done || s.restarting || !s.active then (s, Dropped) else Handled(s, s.generation)
  }

  /** training_completed. */
  function Completed(s: Shared, generation: nat): Shared {
    if generation != s.generation then s else s.(active := false, done := true)
  }

  class Replica {
    var attempt: nat
    var generation: nat
    var restarting: bool
    var trainingActive: bool
    var done: bool

    function State(): Shared
      reads this
    {
      Shared(attempt, generation, restarting, trainingActive, done)
    }

    constructor ()
      ensures State() == Shared(0, 0, false, false, false)
    {
      attempt, generation, restarting, trainingActive, done := 0, 0, false, false, false;
    }

    method HandleFailure(g: nat) returns (o: Outcome)
      modifies this
      ensures (State(), o) == Handled(old(State()), g)
      ensures g != old(generation) || old(restarting) ==> o.Dropped? && State() == old(State())
      ensures g == old(generation) && !old(restarting) ==>
        && restarting && !trainingActive && attempt == old(attempt) + 1
        && generation == old(generation) && done == old(done)
        && o == if attempt < MAX_ATTEMPT then RestartAsked else GaveUp
    {
      if g != generation { return Dropped; }
      if restarting { return Dropped; }
      restarting := true;
      trainingActive := false;
      attempt := attempt + 1;
      if attempt >= MAX_ATTEMPT { return GaveUp; }
      return RestartAsked;
    }

    method Supervise() returns (o: Outcome)
      modifies this
      ensures (State(), o) == Supervised(old(State()))
      ensures o.Dropped? <==> old(done) || old(restarting) || !old(trainingActive)
      ensures o.Dropped? ==> State() == old(State())
      ensures !o.Dropped? ==> restarting && !trainingActive && attempt == old(attempt) + 1
    {
      if done { return Dropped; }
      if restarting { return Dropped; }
      if !trainingActive { return Dropped; }
      o := HandleFailure(generation);
    }

    method TrainingCompleted(g: nat)
      modifies this
      ensures State() == Completed(old(State()), g)
      ensures g != old(generation) ==> State() == old(State())
      ensures g == old(generation) ==>
        && !trainingActive && done
        && attempt == old(attempt) && generation == old(generation) && restarting == old(restarting)
    {
      if g != generation { return; }
      trainingActive := false;
      if !done { done := true; }
    }
  }
}
