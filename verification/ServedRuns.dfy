/** Whole ticks seen from one player: a client that had the same inputs is where the server says. */
module ServedRuns {
  import opened Options
  import opened Grid
  import opened Physics
  import opened Entities
  import opened Slab
  import opened Ledger
  import opened SimState
  import opened Control
  import opened Movement
  import opened SnipeMind
  import opened Firing
  import opened Emission
  import opened Respawn
  import opened Cleanup
  import opened Samples
  import opened Hits
  import opened Setup
  import opened Stages
  import opened Runs
  import opened Parity
  import P = Prediction
  import J = Projectiles

  // ---- a player in its slot ----

  /** Slot i holds player p, and no other slot does. */
  predicate Held(st: Store, i: int, p: ID) {
    && 0 <= i < |st.slots| && st.slots[i].id == p && st.slots[i].kind == Player
    && 0 < p < st.nextID && p in st.players
    && forall j | 0 <= j < |st.slots| && j != i :: st.slots[j].id != p
  }

  function ClientAt(st: Store, i: int, p: ID): P.Kinematic
    requires 0 <= i < |st.slots| && p in st.players
  {
    AsClient(st.slots[i], st.players[p])
  }

  /** The player is still in its slot; and if it lives now it lived before, and is as the client knew it. */
  predicate Carried(a: Store, b: Store, i: int, p: ID) {
    && Held(a, i, p) && Held(b, i, p)
    && (!b.slots[i].flags.dead ==> !a.slots[i].flags.dead && ClientAt(b, i, p) == ClientAt(a, i, p))
  }

  lemma CarriedOn(a: Store, b: Store, c: Store, i: int, p: ID)
    requires Carried(a, b, i, p) && Carried(b, c, i, p)
    ensures Carried(a, c, i, p)
  {
  }

  // ---- steps 3 to 4.9 ----

  /** Steps 3 and 4 are the client's step. */
  lemma MoveServes(m: Maze, inputs: map<ID, Input>, solids: seq<Box>, st0: Store, steered: Store, moved: Store, i: int,
                   p: ID)
    requires SteeredStore(st0, inputs, steered) && MovedStore(m, solids, Player, steered, moved)
    requires Held(st0, i, p) && !st0.slots[i].flags.dead && p in inputs
    ensures Held(moved, i, p) && !moved.slots[i].flags.dead
    ensures ClientAt(moved, i, p) == P.StepPlayer(m, solids, ClientAt(st0, i, p), inputs[p])
  {
    ServerIsClient(m, st0, inputs, st0.slots[i], solids);
    assert SteerableID(st0, p);
    hide Slide, Velocity, Steer, P.StepPlayer;
    assert moved.slots[i] == Moved(m, solids, Steered(st0, inputs, st0.slots[i]), Player);
    forall j | 0 <= j < |moved.slots|
      ensures moved.slots[j].id == st0.slots[j].id
    {
      assert moved.slots[j] == Moved(m, solids, Steered(st0, inputs, st0.slots[j]), Player);
    }
  }

  /** Gaining entities under fresh IDs leaves the player where it is. */
  lemma GrownCarries(a: Store, b: Store, i: int, p: ID)
    requires Grown(a, b) && Held(a, i, p) && p in b.players && b.players[p].lastDir == a.players[p].lastDir
    requires 0 <= i < |b.slots| && b.slots[i] == a.slots[i]
    ensures Carried(a, b, i, p)
  {
  }

  lemma AdviceCarries(m: Maze, level: Option<Level>, tick: nat, a: Store, advice: map<ID, Advice>, b: Store,
                      exhausted: bool, i: int, p: ID)
    requires AdviceStage(m, level, tick, a, advice, b, exhausted) && Held(a, i, p)
    ensures Carried(a, b, i, p)
  {
    hide Denied, Thoughts, MindsBy, AdvisedShots;
    if level.Some? {
      assert p !in advice;
      assert b.slots[i] == Heeding(a.slots[i], advice, level.value.snipes.speed);
      GrownCarries(a, b, i, p);
    }
  }

  lemma WalkCarries(m: Maze, solids: seq<Box>, a: Store, b: Store, i: int, p: ID)
    requires MovedStore(m, solids, Snipe, a, b) && Held(a, i, p)
    ensures Carried(a, b, i, p)
  {
    hide Slide;
    forall j | 0 <= j < |b.slots|
      ensures b.slots[j].id == a.slots[j].id
    {
      assert b.slots[j] == Moved(m, solids, a.slots[j], Snipe);
    }
    assert b.slots[i] == Moved(m, solids, a.slots[i], Snipe);
  }

  lemma NudgeCarries(m: Maze, a: Store, b: Store, i: int, p: ID)
    requires BlockedStore(m, a, b) && Held(a, i, p)
    ensures Carried(a, b, i, p)
  {
    hide InTurn;
    forall j | 0 <= j < |b.slots|
      ensures b.slots[j].id == a.slots[j].id
    {
      assert Nudged(a.slots[j], b.slots[j]);
    }
    assert Nudged(a.slots[i], b.slots[i]);
  }

  lemma EmissionCarries(m: Maze, level: Option<Level>, tick: nat, a: Store, b: Store, failed: bool, i: int, p: ID)
    requires EmissionStage(m, level, tick, a, b, failed) && Held(a, i, p)
    ensures Carried(a, b, i, p)
  {
    hide EmittedStore, Starved, SnipesKept;
    if level.Some? {
      GrownCarries(a, b, i, p);
    }
  }

  lemma SameCarries(a: Store, b: Store, i: int, p: ID)
    requires b.slots == a.slots && b.players == a.players && b.nextID == a.nextID && Held(a, i, p)
    ensures Carried(a, b, i, p)
  {
  }

  /** Up to the sampling. */
  lemma MovesServe(m: Maze, level: Option<Level>, tick: nat, inputs: map<ID, Input>, st0: Store, t: Moves, st: Store,
                   i: int, p: ID)
    requires Held(st0, i, p) && !st0.slots[i].flags.dead && p in inputs
             && MoveStages(m, level, tick, inputs, st0, t, st)
    ensures Carried(t.moved, st, i, p)
    ensures ClientAt(t.moved, i, p) == P.StepPlayer(m, t.solids, ClientAt(st0, i, p), inputs[p])
  {
    assert t.noted.slots == t.walked.slots && t.noted.players == t.walked.players && t.noted.nextID == t.walked.nextID;
    assert st.slots == t.emitted.slots && st.players == t.emitted.players && st.nextID == t.emitted.nextID;
    hide SteeredStore, MovedStore, AdviceStage, BlockedStore, EmissionStage, RecordedStore, NotedStore, Covers, Held,
         Carried;
    MoveServes(m, inputs, t.solids, st0, t.steered, t.moved, i, p);
    AdviceCarries(m, level, tick, t.moved, t.advice, t.advised, t.exhausted, i, p);
    CarriedHeld(t.moved, t.advised, i, p);
    WalkCarries(m, t.solids, t.advised, t.walked, i, p);
    CarriedHeld(t.advised, t.walked, i, p);
    SameCarries(t.walked, t.noted, i, p);
    CarriedHeld(t.walked, t.noted, i, p);
    NudgeCarries(m, t.noted, t.nudged, i, p);
    CarriedHeld(t.noted, t.nudged, i, p);
    EmissionCarries(m, level, tick, t.nudged, t.emitted, t.emitFailed, i, p);
    CarriedHeld(t.nudged, t.emitted, i, p);
    SameCarries(t.emitted, st, i, p);
    CarriedOn(t.moved, t.advised, t.walked, i, p);
    CarriedOn(t.moved, t.walked, t.noted, i, p);
    CarriedOn(t.moved, t.noted, t.nudged, i, p);
    CarriedOn(t.moved, t.nudged, t.emitted, i, p);
    CarriedOn(t.moved, t.emitted, st, i, p);
  }

  lemma CarriedHeld(a: Store, b: Store, i: int, p: ID)
    requires Carried(a, b, i, p)
    ensures Held(b, i, p)
  {
  }

  // ---- steps 5 and 6 ----

  lemma StruckCarries(st: Store, log: seq<LifeEvent>, target: ID, killer: ID, tick: nat, noRespawn: bool, st': Store,
                      log': seq<LifeEvent>, i: int, p: ID)
    requires Struck(st, log, target, killer, tick, noRespawn, st', log') && Held(st, i, p)
    ensures Carried(st, st', i, p)
  {
  }

  lemma RemovedCarries(st: Store, idx: int, i: int, p: ID)
    requires Held(st, i, p) && 0 <= idx < |st.slots| && idx != i
    ensures Carried(st, Removed(st, idx), i, p)
  {
  }

  lemma AppliedCarries(st: Store, log: seq<LifeEvent>, idx: int, hit: J.ProjHit, tick: nat, noRespawn: bool, st': Store,
                       log': seq<LifeEvent>, i: int, p: ID)
    requires Held(st, i, p) && 0 <= idx < |st.slots| && idx != i && st.slots[idx].id in st.projectiles
    requires st.slots[idx].id != p && Applied(st, log, idx, hit, tick, noRespawn, st', log')
    ensures Carried(st, st', i, p)
  {
    match hit {
      case NoHit(_, _) =>
      case WallHit(_, _) => RemovedCarries(st, idx, i, p);
      case EntityHit(t, _, _) =>
        hide Struck;
        var killer := st.projectiles[st.slots[idx].id].shooter;
        var mid: Store :| Struck(st, log, t, killer, tick, noRespawn, mid, log') && |mid.slots| == |st.slots|
                          && st' == Removed(mid, idx);
        StruckCarries(st, log, t, killer, tick, noRespawn, mid, log', i, p);
        RemovedCarries(mid, idx, i, p);
        CarriedOn(st, mid, st', i, p);
    }
  }

  lemma TurnCarries(m: Maze, tick: nat, noRespawn: bool, st: Store, log: seq<LifeEvent>, pid: ID, st': Store,
                    log': seq<LifeEvent>, i: int, p: ID)
    requires Held(st, i, p) && pid != p && FlightTurn(m, tick, noRespawn, st, log, pid, st', log')
    ensures Carried(st, st', i, p)
  {
    hide J.Resolved, Candidates, KindIs, Applied;
    if Present(st.slots, pid) {
      var idx :| 0 <= idx < |st.slots| && st.slots[idx].id == pid && pid in st.projectiles
        && Flown(m, tick, noRespawn, st, log, idx, st', log');
      var hit :| Applied(st, log, idx, hit, tick, noRespawn, st', log');
      AppliedCarries(st, log, idx, hit, tick, noRespawn, st', log', i, p);
    }
  }

  lemma FlightsCarry(m: Maze, tick: nat, noRespawn: bool, st0: Store, log0: seq<LifeEvent>, pids: seq<ID>, k: nat,
                     st: Store, log: seq<LifeEvent>, i: int, p: ID)
    requires k <= |pids| && p !in pids && Held(st0, i, p)
    requires Flights(m, tick, noRespawn, st0, log0, pids, k, st, log)
    ensures Carried(st0, st, i, p)
  {
    hide FlightTurn;
    if k > 0 {
      var j: nat := k - 1;
      var mid: Store, midLog: seq<LifeEvent> :|
        Flights(m, tick, noRespawn, st0, log0, pids, j, mid, midLog)
          && FlightTurn(m, tick, noRespawn, mid, midLog, pids[j], st, log);
      hide Flights, Held, Carried;
      FlightsCarry(m, tick, noRespawn, st0, log0, pids, j, mid, midLog, i, p);
      CarriedHeld(st0, mid, i, p);
      TurnCarries(m, tick, noRespawn, mid, midLog, pids[j], st, log, i, p);
      CarriedOn(st0, mid, st, i, p);
    }
  }

  lemma NoProjectile(slots: seq<Entity>, pids: seq<ID>, i: int)
    requires ProjectileIDs(slots, pids) && 0 <= i < |slots| && slots[i].kind == Player
    requires forall j | 0 <= j < |slots| && j != i :: slots[j].id != slots[i].id
    ensures slots[i].id !in pids
  {
  }

  lemma HitsCarry(m: Maze, noRespawn: bool, tick: nat, st0: Store, log0: seq<LifeEvent>, t: Flight, st: Store, i: int,
                  p: ID)
    requires Held(st0, i, p) && HitStages(m, noRespawn, tick, st0, log0, t, st)
    ensures Carried(st0, st, i, p)
  {
    NoProjectile(st0.slots, t.pids, i);
    hide Flights, ProjectileIDs, AgedStore;
    FlightsCarry(m, tick, noRespawn, st0, log0, t.pids, |t.pids|, t.flown, t.flownLog, i, p);
    AgedCarries(t.flown, t.pids, st, i, p);
    CarriedOn(st0, t.flown, st, i, p);
  }

  lemma AgedCarries(a: Store, pids: seq<ID>, b: Store, i: int, p: ID)
    requires AgedStore(a, pids, b) && Held(a, i, p) && p !in pids
    ensures Carried(a, b, i, p)
  {
    hide MachinesKept;
    assert p !in Prefix(pids, |pids|);
    forall j | 0 <= j < |b.slots|
      ensures b.slots[j] == FREE || b.slots[j] == a.slots[j]
    {
    }
  }

  // ---- steps 7 to 9 ----

  lemma FiredCarries(a: Store, inputs: map<ID, Input>, tick: nat, b: Store, i: int, p: ID)
    requires FiredStore(a, inputs, tick, b) && Held(a, i, p)
    ensures Carried(a, b, i, p)
  {
    hide OneEach, FiredOrNot, PlayerShot;
    GrownCarries(a, b, i, p);
  }

  /** Somebody else's return, or none. */
  lemma ReturnTurnCarries(m: Maze, tick: nat, a: Store, id: ID, b: Store, i: int, p: ID)
    requires ReturnTurn(m, tick, a, id, b) && Held(a, i, p) && !a.slots[i].flags.dead
    ensures Carried(a, b, i, p) && !b.slots[i].flags.dead
  {
    hide SafeSpawn.Haven, Chosen;
  }

  lemma {:induction false} ReturnsCarry(m: Maze, tick: nat, a: Store, ids: seq<ID>, k: nat, b: Store, i: int, p: ID)
    requires k <= |ids| && Returns(m, tick, a, ids, k, b) && Held(a, i, p) && !a.slots[i].flags.dead
    ensures Carried(a, b, i, p) && !b.slots[i].flags.dead
  {
    hide ReturnTurn;
    if k > 0 {
      var j: nat := k - 1;
      var mid: Store :| Returns(m, tick, a, ids, j, mid) && ReturnTurn(m, tick, mid, ids[j], b);
      ReturnsCarry(m, tick, a, ids, j, mid, i, p);
      ReturnTurnCarries(m, tick, mid, ids[j], b, i, p);
      hide Returns;
    }
  }

  lemma RespawnedCarries(m: Maze, tick: nat, a: Store, b: Store, i: int, p: ID)
    requires RespawnedStore(m, tick, a, b) && Held(a, i, p) && !a.slots[i].flags.dead
    ensures Carried(a, b, i, p)
  {
    var ids :| IDsOf(a.slots, ids) && Returns(m, tick, a, ids, |ids|, b);
    hide RespawnedBy, IDsOf, Returns;
    ReturnsCarry(m, tick, a, ids, |ids|, b, i, p);
  }

  /** Slots keep their IDs and stay as many. */
  lemma RespawnedSlots(m: Maze, tick: nat, a: Store, b: Store, i: int, p: ID)
    requires RespawnedStore(m, tick, a, b) && Held(a, i, p)
    ensures |b.slots| == |a.slots| && forall j | 0 <= j < |a.slots| :: b.slots[j].id == a.slots[j].id
    ensures a.slots[i].flags.dead && !b.slots[i].flags.dead ==> CameBack(a.slots, b.slots, p)
  {
    forall j | 0 <= j < |a.slots|
      ensures b.slots[j].id == a.slots[j].id
    {
      assert Wakes(m, tick, a, b, j);
    }
    hide Wakes, Left;
  }

  lemma UnshieldedCarries(tick: nat, a: Store, b: Store, i: int, p: ID)
    requires UnshieldedStore(tick, a, b) && Held(a, i, p)
    ensures Carried(a, b, i, p)
  {
  }

  /** The player is in the slab, alive and on record. */
  ghost predicate Lives(st: Store, p: ID) {
    exists j :: 0 <= j < |st.slots| && st.slots[j].id == p && !st.slots[j].flags.dead
  }

  lemma CollectedCarries(noRespawn: bool, a: Store, b: Store, i: int, p: ID)
    requires CollectedStore(noRespawn, a, b) && Held(a, i, p) && Lives(b, p)
    ensures Carried(a, b, i, p) && !b.slots[i].flags.dead
  {
    hide MachinesKept, Present;
  }

  /** From there to the end of the tick, for one that lives then and has not just come back. */
  lemma EndCarries(m: Maze, noRespawn: bool, tick: nat, inputs: map<ID, Input>, st0: Store, t: Ending, st: Store,
                   i: int, p: ID)
    requires Held(st0, i, p) && Lives(st, p) && !CameBack(t.fired.slots, t.respawned.slots, p)
    requires EndStages(m, noRespawn, tick, inputs, st0, t, st)
    ensures Carried(st0, st, i, p) && !st.slots[i].flags.dead
  {
    hide FiredStore, RespawnedStore, UnshieldedStore, CollectedStore, CameBack, Lives, Held, Carried;
    FiredCarries(st0, inputs, tick, t.fired, i, p);
    CarriedHeld(st0, t.fired, i, p);
    StillAlive(m, noRespawn, tick, t.fired, t.respawned, t.unshielded, st, i, p);
    RespawnedCarries(m, tick, t.fired, t.respawned, i, p);
    CarriedHeld(t.fired, t.respawned, i, p);
    UnshieldedCarries(tick, t.respawned, t.unshielded, i, p);
    CarriedHeld(t.respawned, t.unshielded, i, p);
    CollectedCarries(noRespawn, t.unshielded, st, i, p);
    CarriedOn(st0, t.fired, t.respawned, i, p);
    CarriedOn(st0, t.respawned, t.unshielded, i, p);
    CarriedOn(st0, t.unshielded, st, i, p);
  }

  /** Alive at the end, it was alive when the dead came back. */
  lemma StillAlive(m: Maze, noRespawn: bool, tick: nat, fired: Store, respawned: Store, unshielded: Store, st: Store,
                   i: int, p: ID)
    requires Held(fired, i, p) && Lives(st, p) && !CameBack(fired.slots, respawned.slots, p)
    requires RespawnedStore(m, tick, fired, respawned) && UnshieldedStore(tick, respawned, unshielded)
             && CollectedStore(noRespawn, unshielded, st)
    ensures !fired.slots[i].flags.dead
  {
    RespawnedSlots(m, tick, fired, respawned, i, p);
    hide RespawnedStore, CameBack, CollectedPlayers, MachinesKept;
    assert st.slots[i].id == p && !st.slots[i].flags.dead;
  }

  // ---- a whole tick ----

  /** The tick took this direction and this turbo from the player. */
  ghost predicate Fed(m: Maze, noRespawn: bool, level: Option<Level>, tick: nat, leg: Leg, p: ID, inp: Input) {
    exists im: map<ID, Input>, log: seq<LifeEvent> ::
      p in im && im[p].dir == inp.dir && im[p].turbo == inp.turbo
        && AllStages(m, noRespawn, level, tick, im, leg.before, log, true, leg.stages, leg.after)
  }

  /** It lives at the end of the tick, and not because it has just come back. */
  ghost predicate Unharmed(leg: Leg, p: ID) { Lives(leg.after, p) && !ReturnsIn(leg, p) }

  /** Only the direction and turbo of an input matter to a step. */
  lemma SameStep(m: Maze, solids: seq<Box>, k: P.Kinematic, a: Input, b: Input)
    requires a.dir == b.dir && a.turbo == b.turbo
    ensures P.StepPlayer(m, solids, k, a) == P.StepPlayer(m, solids, k, b)
  {
    hide Slide;
    assert Steer(k.lastDir, a) == Steer(k.lastDir, b);
  }

  lemma FedStages(m: Maze, noRespawn: bool, level: Option<Level>, tick: nat, leg: Leg, p: ID, inp: Input)
    returns (im: map<ID, Input>, log: seq<LifeEvent>)
    requires Fed(m, noRespawn, level, tick, leg, p, inp)
    ensures p in im && im[p].dir == inp.dir && im[p].turbo == inp.turbo
    ensures MoveStages(m, level, tick, im, leg.before, leg.stages.moves, leg.stages.recorded)
    ensures HitStages(m, noRespawn, tick, leg.stages.recorded, log, leg.stages.flight, leg.stages.aged)
    ensures EndStages(m, noRespawn, tick, im, leg.stages.aged, leg.stages.ending, leg.after)
  {
    im, log :| p in im && im[p].dir == inp.dir && im[p].turbo == inp.turbo
      && AllStages(m, noRespawn, level, tick, im, leg.before, log, true, leg.stages, leg.after);
    hide MoveStages, HitStages, EndStages, BrokenOff;
  }

  /**
   Whatever else happens in a tick, be it shots, scores or the end of its protection, a player that lives through it
   ends it where the client's one step puts it.
   */
  lemma LegServes(m: Maze, noRespawn: bool, level: Option<Level>, tick: nat, leg: Leg, p: ID, inp: Input, i: int)
    requires Held(leg.before, i, p) && !leg.before.slots[i].flags.dead && Unharmed(leg, p)
    requires Fed(m, noRespawn, level, tick, leg, p, inp)
    ensures Held(leg.after, i, p) && !leg.after.slots[i].flags.dead
    ensures ClientAt(leg.after, i, p)
            == P.StepPlayer(m, leg.stages.moves.solids, ClientAt(leg.before, i, p), inp)
  {
    var t := leg.stages;
    hide *;
    UnharmedIs(leg, p);
    var im, log := FedStages(m, noRespawn, level, tick, leg, p, inp);
    MovesServe(m, level, tick, im, leg.before, t.moves, t.recorded, i, p);
    CarriedHeld(t.moves.moved, t.recorded, i, p);
    HitsCarry(m, noRespawn, tick, t.recorded, log, t.flight, t.aged, i, p);
    CarriedHeld(t.recorded, t.aged, i, p);
    EndCarries(m, noRespawn, tick, im, t.aged, t.ending, leg.after, i, p);
    CarriedHeld(t.aged, leg.after, i, p);
    CarriedOn(t.recorded, t.aged, leg.after, i, p);
    CarriedOn(t.moves.moved, t.recorded, leg.after, i, p);
    CarriedClient(t.moves.moved, leg.after, i, p);
    HeldIs(leg.before, i, p);
    SameStep(m, t.moves.solids, ClientAt(leg.before, i, p), im[p], inp);
  }

  lemma UnharmedIs(leg: Leg, p: ID)
    requires Unharmed(leg, p)
    ensures Lives(leg.after, p) && !CameBack(leg.stages.ending.fired.slots, leg.stages.ending.respawned.slots, p)
  {
    hide CameBack;
  }

  lemma CarriedClient(a: Store, b: Store, i: int, p: ID)
    requires Carried(a, b, i, p) && Held(b, i, p) && !b.slots[i].flags.dead
    ensures Held(a, i, p) && ClientAt(b, i, p) == ClientAt(a, i, p)
  {
  }

  lemma HeldIs(st: Store, i: int, p: ID)
    requires Held(st, i, p)
    ensures 0 <= i < |st.slots| && p in st.players
  {
  }

  // ---- a run of ticks ----

  /** What is done between ticks is done to others. */
  predicate LeftAlone(acts: seq<Act>, p: ID) { forall i | 0 <= i < |acts| :: acts[i].id != p }

  lemma ActCarries(st: Store, act: Act, st': Store, i: int, p: ID)
    requires Acted(st, act, st') && act.id != p && Held(st, i, p)
    ensures Carried(st, st', i, p) && st'.slots[i].flags.dead == st.slots[i].flags.dead
  {
  }

  lemma {:induction false} ActsCarry(st: Store, acts: seq<Act>, st': Store, i: int, p: ID)
    requires ActedAll(st, acts, st') && LeftAlone(acts, p) && Held(st, i, p)
    ensures Carried(st, st', i, p) && st'.slots[i].flags.dead == st.slots[i].flags.dead
  {
    if acts != [] {
      var front, act := acts[..|acts| - 1], acts[|acts| - 1];
      var mid: Store :| ActedAll(st, front, mid) && Acted(mid, act, st');
      assert LeftAlone(front, p) by { assert forall i | 0 <= i < |front| :: front[i] == acts[i]; }
      hide Acted, Held, Carried;
      ActsCarry(st, front, mid, i, p);
      CarriedHeld(st, mid, i, p);
      ActCarries(mid, act, st', i, p);
      CarriedOn(st, mid, st', i, p);
    }
  }

  /** The client's step for each of these sets of boxes. */
  ghost function StepsAmong(m: Maze, solids: seq<seq<Box>>): (steps: seq<P.Step>)
    ensures |steps| == |solids| && forall i | 0 <= i < |steps| :: steps[i] == P.Local(m, solids[i])
  {
    seq(|solids|, i requires 0 <= i < |solids| => P.Local(m, solids[i]))
  }

  /**
   Each tick takes the player's next input, and the boxes are those of the tick; the player lives through it and is
   left alone until the next.
   */
  ghost predicate Served(m: Maze, noRespawn: bool, level: Option<Level>, start: nat, run: seq<Leg>,
                         solids: seq<seq<Box>>, p: ID, es: seq<P.Entry>) {
    && |run| == |es| == |solids|
    && (forall k: nat | k < |run| :: solids[k] == run[k].stages.moves.solids && Unharmed(run[k], p))
    && (forall k: nat | k < |run| :: Fed(m, noRespawn, level, start + k, run[k], p, es[k].input))
    && (forall k: nat | k + 1 < |run| :: LeftAlone(run[k].acts, p))
    && IsRun(m, noRespawn, level, start, run)
  }

  /** The state of the player in the slab, as the client knows it. */
  ghost predicate Shown(st: Store, p: ID, k: P.Kinematic) {
    exists i :: 0 <= i < |st.slots| && st.slots[i].id == p && st.slots[i].kind == Player && !st.slots[i].flags.dead
                && p in st.players && k == ClientAt(st, i, p)
  }

  lemma {:induction false} ServedHere(m: Maze, noRespawn: bool, level: Option<Level>, start: nat, run: seq<Leg>,
                                      solids: seq<seq<Box>>, p: ID, es: seq<P.Entry>, i: int, k: nat)
    requires k < |run| && Held(run[0].before, i, p) && !run[0].before.slots[i].flags.dead
    requires Served(m, noRespawn, level, start, run, solids, p, es)
    ensures Held(run[k].after, i, p) && !run[k].after.slots[i].flags.dead
    ensures ClientAt(run[k].after, i, p)
            == P.Replay(StepsAmong(m, solids), ClientAt(run[0].before, i, p), es[..k + 1])
  {
    hide Fed, Unharmed, IsTick, ActedAll, Held, ClientAt, P.StepPlayer, P.Replay;
    HeldIs(run[0].before, i, p);
    if k > 0 {
      ServedHere(m, noRespawn, level, start, run, solids, p, es, i, k - 1);
      ActsCarry(run[k - 1].after, run[k - 1].acts, run[k].before, i, p);
      CarriedClient(run[k - 1].after, run[k].before, i, p);
    }
    LegServes(m, noRespawn, level, start + k, run[k], p, es[k].input, i);
    P.ReplayNext(StepsAmong(m, solids), ClientAt(run[0].before, i, p), es, k);
    ReplayNone(StepsAmong(m, solids), ClientAt(run[0].before, i, p), es[..0]);
  }

  lemma ServedSizes(m: Maze, noRespawn: bool, level: Option<Level>, start: nat, run: seq<Leg>, solids: seq<seq<Box>>,
                    p: ID, es: seq<P.Entry>)
    requires Served(m, noRespawn, level, start, run, solids, p, es)
    ensures |run| == |es| == |solids|
  {
    hide Fed, Unharmed, IsRun;
  }

  lemma ReplayNone(steps: seq<P.Step>, from: P.Kinematic, es: seq<P.Entry>)
    requires es == []
    ensures P.Replay(steps, from, es) == from
  {
  }

  lemma HeldFrom(m: Maze, startLives: nat, st: Store, log: seq<LifeEvent>, p: ID, k: P.Kinematic) returns (i: int)
    requires Inv(m, startLives, st, log) && Shown(st, p, k) && p != 0
    ensures Held(st, i, p) && !st.slots[i].flags.dead && ClientAt(st, i, p) == k
  {
    i :| 0 <= i < |st.slots| && st.slots[i].id == p && st.slots[i].kind == Player && !st.slots[i].flags.dead
      && p in st.players && k == ClientAt(st, i, p);
    assert Registered(st, st.slots[i]);
    forall j | 0 <= j < |st.slots| && st.slots[j].id == p
      ensures j == i
    {
      OneSlot(st.slots, i, j);
    }
  }

  lemma ShownOnce(st: Store, i: int, p: ID, k: P.Kinematic)
    requires Held(st, i, p)
    ensures Shown(st, p, k) <==> !st.slots[i].flags.dead && k == ClientAt(st, i, p)
  {
  }

  /**
   Through any such run of whole ticks, from any state the simulation can be in, the server has the player exactly
   where replaying its inputs puts it.
   */
  lemma ServedReplays(m: Maze, startLives: nat, noRespawn: bool, level: Option<Level>, start: nat, log: seq<LifeEvent>,
                      run: seq<Leg>, solids: seq<seq<Box>>, p: ID, es: seq<P.Entry>, from: P.Kinematic,
                        server: P.Kinematic)
    requires run != [] && p != 0 && Shown(run[0].before, p, from) && Inv(m, startLives, run[0].before, log)
    requires Served(m, noRespawn, level, start, run, solids, p, es)
    ensures Shown(run[|run| - 1].after, p, server) <==> server == P.Replay(StepsAmong(m, solids), from, es)
  {
    hide *;
    ServedSizes(m, noRespawn, level, start, run, solids, p, es);
    var i := HeldFrom(m, startLives, run[0].before, log, p, from);
    ServedHere(m, noRespawn, level, start, run, solids, p, es, i, |run| - 1);
    ShownOnce(run[|run| - 1].after, i, p, server);
    assert es[..|es| - 1 + 1] == es;
  }

  /**
   A server that took the buffered inputs one per tick from the state the client started in, each among the boxes the
   client had for that tick, acknowledges exactly the buffered state, so reconciling changes nothing, whatever boxes
   there are now and whatever else went on in those ticks.
   */
  lemma SameInputsAgree(m: Maze, startLives: nat, noRespawn: bool, level: Option<Level>, start: nat,
                        log: seq<LifeEvent>, run: seq<Leg>, solids: seq<seq<Box>>, p: ID, from: P.Kinematic,
                          server: P.Kinematic, now: seq<Box>, buf: seq<P.Entry>, spawn: P.Kinematic, idx: nat,
                            buf': seq<P.Entry>, spawn': P.Kinematic, diverged: bool)
    requires idx < |buf| == |solids| && |run| == idx + 1 && p != 0
    requires P.Chain(StepsAmong(m, solids), buf) && P.ConsecutiveTicks(buf) && |buf| <= P.RING_CAPACITY
    requires buf[0].state == P.StepPlayer(m, solids[0], from, buf[0].input)
    requires P.Reconciled(P.Local(m, now), buf, spawn, buf[idx].clientTick, server, buf', spawn', diverged)
    requires Shown(run[0].before, p, from) && Shown(run[idx].after, p, server)
    requires Served(m, noRespawn, level, start, run, solids[..idx + 1], p, buf[..idx + 1])
             && Inv(m, startLives, run[0].before, log)
    ensures !diverged && buf' == buf && spawn' == spawn
  {
    hide *;
    ServedReplays(m, startLives, noRespawn, level, start, log, run, solids[..idx + 1], p, buf[..idx + 1], from, server);
    P.ReplayPrefix(StepsAmong(m, solids[..idx + 1]), StepsAmong(m, solids), from, buf[..idx + 1]);
    FirstStep(m, solids, from, buf);
    Agrees(StepsAmong(m, solids), P.Local(m, now), from, buf, spawn, idx, server, buf', spawn', diverged);
  }

  lemma FirstStep(m: Maze, solids: seq<seq<Box>>, from: P.Kinematic, buf: seq<P.Entry>)
    requires |solids| == |buf| > 0 && buf[0].state == P.StepPlayer(m, solids[0], from, buf[0].input)
    ensures buf[0].state == StepsAmong(m, solids)[0](from, buf[0].input)
  {
    hide P.StepPlayer;
  }

  lemma Agrees(steps: seq<P.Step>, step: P.Step, from: P.Kinematic, buf: seq<P.Entry>, spawn: P.Kinematic, idx: nat,
               server: P.Kinematic, buf': seq<P.Entry>, spawn': P.Kinematic, diverged: bool)
    requires P.Chain(steps, buf) && P.ConsecutiveTicks(buf) && |buf| <= P.RING_CAPACITY && idx < |buf|
    requires buf[0].state == steps[0](from, buf[0].input) && server == P.Replay(steps, from, buf[..idx + 1])
    requires P.Reconciled(step, buf, spawn, buf[idx].clientTick, server, buf', spawn', diverged)
    ensures !diverged && buf' == buf && spawn' == spawn
  {
    P.NeverDiverges(steps, from, buf, idx, server);
    var k :| P.FirstAt(buf, buf[idx].clientTick, k)
             && P.ReconciledAt(step, buf, spawn, buf[idx].clientTick, server, k, buf', spawn', diverged);
    if k < idx && k >= 0 { P.LaterIsPositive(buf, k, idx); }
  }
}
