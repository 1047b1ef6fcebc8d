/** From one tick of player input to a direction, a speed and the turbo lock, as the server does it. */
module Control {
  import opened Physics

  const PLAYER_SPEED := 112
  const TURBO_SPEED := 224
  const PROJECTILE_SPEED := 224

  datatype Input = Input(dir: Dir, turbo: bool, fireDir: Dir, clientTick: nat, owtTicks: nat)

  /** The outcome: the direction taken, whether turbo is on, and the direction it is locked to. */
  datatype Steering = Steering(dir: Dir, turbo: bool, lock: Dir)

  function Steer(lock: Dir, inp: Input): Steering {
    if inp.turbo && inp.dir != Idle then
      if lock == Idle then Steering(inp.dir, true, inp.dir) else Steering(lock, true, lock)
    else if inp.turbo then Steering(Idle, false, Idle)
    else Steering(inp.dir, false, Idle)
  }

  function Velocity(s: Steering): (int, int) {
    VelocityFor(s.dir, if s.turbo then TURBO_SPEED else PLAYER_SPEED)
  }

  /** Inputs held in turbo all along. */
  predicate AllTurbo(inputs: seq<Input>) {
    forall i | 0 <= i < |inputs| :: inputs[i].turbo && inputs[i].dir != Idle
  }

  function SteerAll(lock: Dir, inputs: seq<Input>): Dir {
    if inputs == [] then lock else Steer(SteerAll(lock, inputs[..|inputs| - 1]), inputs[|inputs| - 1]).lock
  }

  /** While turbo is held with a direction, the direction taken never changes from the first one. */
  lemma {:induction false} LockHolds(inputs: seq<Input>)
    requires AllTurbo(inputs) && inputs != []
    ensures SteerAll(Idle, inputs) == inputs[0].dir
  {
    var front := inputs[..|inputs| - 1];
    if front != [] {
      assert forall i | 0 <= i < |front| :: front[i] == inputs[i];
      LockHolds(front);
    }
  }

  lemma SpeedBounded(s: Steering)
    ensures -224 <= Velocity(s).0 <= 224 && -224 <= Velocity(s).1 <= 224
  {
    VelocityBounded(s.dir, if s.turbo then TURBO_SPEED else PLAYER_SPEED);
  }
}
