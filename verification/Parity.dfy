/** The client's step is the server's: steps 3 and 4 of a tick, seen from one player. */
module Parity {
  import opened Grid
  import opened Physics
  import opened Entities
  import opened SimState
  import opened Control
  import opened Movement
  import P = Prediction

  /** A player as the client knows it. */
  function AsClient(e: Entity, ps: PlayerState): P.Kinematic {
    P.Kinematic(e.x, e.y, e.vx, e.vy, PLAYER_HALF, ps.lastDir)
  }

  /**
   One input through steering and movement on the server is one step on the client, from the same state and the same
   boxes.
   */
  lemma ServerIsClient(m: Maze, st: Store, inputs: map<ID, Input>, e: Entity, solids: seq<Box>)
    requires Steerable(st, e) && e.id in inputs
    ensures AsClient(Moved(m, solids, Steered(st, inputs, e), Player), SteeredState(inputs, e.id, st.players[e.id]))
            == P.StepPlayer(m, solids, AsClient(e, st.players[e.id]), inputs[e.id])
  {
    var s := Steer(st.players[e.id].lastDir, inputs[e.id]);
    var e1 := Steered(st, inputs, e);
    assert e1.x == e.x && e1.y == e.y && (e1.vx, e1.vy) == Velocity(s);
    hide Slide, Velocity, Steer;
  }
}
