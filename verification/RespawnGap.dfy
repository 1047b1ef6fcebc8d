/** A run in which a player is in the slab at every tick, and yet its sample for the rewound tick is gone. */
module RespawnGap {
  import opened Options
  import opened Grid
  import opened Physics
  import opened Entities
  import opened Slab
  import opened History
  import opened Ledger
  import opened SimState
  import opened Movement
  import opened Firing
  import opened Emission
  import opened SafeSpawn
  import opened Respawn
  import opened Cleanup
  import opened Samples
  import opened Stages
  import opened Simulation
  import opened Runs

  /** Player 2 shot player 1, which has not been back since, and then left the match. */
  const LOG: seq<LifeEvent> := [Killed(1, Player, 2)]

  /** The corpse, on tile d. */
  function Body(d: TilePos): Entity { Entity(1, Player, 0, S, DEAD_FLAGS, TileMid(d.0), TileMid(d.1), 0, 0) }

  /** A life and five points down, and due back in the tick after this one. */
  function Waiting(d: TilePos, tick: nat): PlayerState {
    PlayerState(0, Idle, 0, tick + 1, true, 2, -5, 0, false, TileMid(d.0), TileMid(d.1))
  }

  /** The slab with this player and nobody else. */
  function Alone(e: Entity): seq<Entity> { [e] + seq(MAX_ENTITIES - 1, _ => FREE) }

  function With(e: Entity, ps: PlayerState, h: seq<Sample>): Store {
    Store(Alone(e), map[1 := ps], map[], map[], map[], map[1 := h], 3)
  }

  // ---- where the run begins ----

  lemma AloneCounts(e: Entity, kind: Kind)
    ensures Population(Alone(e), kind) == if IsOf(e, kind) then 1 else 0
  {
    var free := seq(MAX_ENTITIES, _ => FREE);
    NoneFree(free, kind);
    PopulationUpdate(free, 0, e, kind);
    assert Alone(e) == free[0 := e];
  }

  lemma {:induction false} NoneFree(slots: seq<Entity>, kind: Kind)
    requires forall i | 0 <= i < |slots| :: slots[i] == FREE
    ensures Population(slots, kind) == 0
  {
    if slots != [] {
      NoneFree(slots[..|slots| - 1], kind);
    }
  }

  lemma BodyBooks(d: TilePos, h: seq<Sample>, tick: nat)
    ensures Books(With(Body(d), Waiting(d, tick), h), LOG, 3)
  {
    var st := With(Body(d), Waiting(d, tick), h);
    assert st.slots[0] == Body(d);
    assert LOG[..0] == [];
    assert Deaths(LOG, 1) == 1;
    assert Kills(LOG, 1, Player) == 0 && Kills(LOG, 1, Generator) == 0 && Kills(LOG, 1, Snipe) == 0;
    assert forall i | 0 <= i < |st.slots| && st.slots[i].id != 0 :: st.slots[i] == Body(d);
  }

  lemma BodyInv(m: Maze, d: TilePos, h: seq<Sample>, tick: nat)
    ensures Inv(m, 3, With(Body(d), Waiting(d, tick), h), LOG)
  {
    var st := With(Body(d), Waiting(d, tick), h);
    BodyBooks(d, h, tick);
    hide Books;
    assert st.slots[0] == Body(d) && forall i | 0 < i < |st.slots| :: st.slots[i] == FREE;
    forall kind: Kind
      ensures Population(st.slots, kind) <= 1
    {
      AloneCounts(Body(d), kind);
    }
    hide Population;
  }

  /** Between two ticks the simulation may well be in this state. */
  lemma BodyRests(m: Maze, d: TilePos, h: seq<Sample>, tick: nat)
    requires GoodMaze(m) && Traced(h, Player, tick)
    ensures Rest(m, 3, false, None, With(Body(d), Waiting(d, tick), h), tick, false, LOG)
  {
    var st := With(Body(d), Waiting(d, tick), h);
    BodyInv(m, d, h, tick);
    AloneCounts(Body(d), Snipe);
    hide Inv, GoodMaze, Population, Traced;
    assert st.slots[0] == Body(d) && forall i | 0 < i < |st.slots| :: st.slots[i] == FREE;
  }

  // ---- ticks without input ----

  function Still(st: Store): Moves { Moves([], st, st, map[], st, false, st, st, st, st, false) }

  function Sampled1(e: Entity, ps: PlayerState, h: seq<Sample>, tick: nat): Store {
    With(e, ps, h + [SampleOf(tick, e)])
  }

  /** A tick nobody gave any input for, up to step 7. */
  function QuietLeg(e: Entity, ps: PlayerState, h: seq<Sample>, tick: nat, after: Store): Leg {
    var st := Sampled1(e, ps, h, tick);
    Leg(With(e, ps, h), Stages(Still(With(e, ps, h)), st, Flight([], st, []), st, Ending(st, after, after)), after, [])
  }

  predicate AtRest(e: Entity, ps: PlayerState) {
    e.id == 1 && e.kind == Player && e.vx == 0 && e.vy == 0 && ps.fireCooldown == 0
  }

  lemma QuietSteering(e: Entity, ps: PlayerState, h: seq<Sample>)
    requires AtRest(e, ps)
    ensures var st := With(e, ps, h); SteeredStore(st, map[], st) && Covers(st.slots, [])
  {
    var st := With(e, ps, h);
    assert SteerPlayers(st, map[], st.players.Keys) == st.players;
  }

  lemma QuietWalk(m: Maze, e: Entity, ps: PlayerState, h: seq<Sample>)
    requires AtRest(e, ps)
    ensures var st := With(e, ps, h);
            MovedStore(m, [], Player, st, st) && MovedStore(m, [], Snipe, st, st) && NotedStore(st.slots, st, st)
  {
    hide Slide;
  }

  lemma QuietNudge(m: Maze, e: Entity, ps: PlayerState, h: seq<Sample>)
    requires AtRest(e, ps)
    ensures var st := With(e, ps, h); BlockedStore(m, st, st)
  {
    var st := With(e, ps, h);
    assert Blocks(m, st.slots, [], 0, 0) == st.slots;
    assert InTurn(m, st, [], st);
  }

  lemma QuietSampling(e: Entity, ps: PlayerState, h: seq<Sample>, tick: nat)
    requires AtRest(e, ps)
    ensures RecordedStore(tick, With(e, ps, h), Sampled1(e, ps, h, tick))
  {
    assert With(e, ps, h).slots[0] == e;
  }

  lemma QuietMoves(m: Maze, e: Entity, ps: PlayerState, h: seq<Sample>, tick: nat)
    requires AtRest(e, ps)
    ensures var st := With(e, ps, h); MoveStages(m, None, tick, map[], st, Still(st), Sampled1(e, ps, h, tick))
  {
    QuietSteering(e, ps, h);
    QuietWalk(m, e, ps, h);
    QuietNudge(m, e, ps, h);
    QuietSampling(e, ps, h, tick);
    hide AtRest, With, Sampled1, SteeredStore, Covers, MovedStore, NotedStore, BlockedStore, RecordedStore;
  }

  lemma QuietHits(m: Maze, e: Entity, ps: PlayerState, h: seq<Sample>, tick: nat)
    requires AtRest(e, ps)
    ensures var st := With(e, ps, h); HitStages(m, false, tick, st, [], Flight([], st, []), st)
  {
  }

  lemma QuietFire(e: Entity, ps: PlayerState, h: seq<Sample>, tick: nat)
    requires AtRest(e, ps)
    ensures var st := With(e, ps, h); FiredStore(st, map[], tick, st) && !BrokenOff(st, map[], tick, st)
  {
  }

  lemma OnlyOne(e: Entity)
    requires e.id == 1
    ensures IDsOf(Alone(e), [1])
  {
    assert Alone(e)[0] == e;
  }

  lemma NobodyReturns(m: Maze, e: Entity, ps: PlayerState, h: seq<Sample>, tick: nat)
    requires AtRest(e, ps) && !e.flags.dead
    ensures var st := With(e, ps, h); RespawnedStore(m, tick, st, st)
  {
    var st := With(e, ps, h);
    OnlyOne(e);
    assert st.slots[0] == e;
    assert RespawnOutcome(m, tick, st, 0, st, NotDue);
    assert ReturnTurn(m, tick, st, 1, st);
    assert Returns(m, tick, st, [1], 0, st);
    assert Returns(m, tick, st, [1], 1, st);
  }

  lemma NothingToEnd(e: Entity, ps: PlayerState, h: seq<Sample>, tick: nat)
    requires e.id == 1 && !e.flags.dead && tick < ps.spawnInvulnUntil
    ensures var st := With(e, ps, h); UnshieldedStore(tick, st, st) && CollectedStore(false, st, st)
  {
    assert With(e, ps, h).slots[0] == e;
  }

  /** A live player without a turn to come stays as it is. */
  lemma QuietEnd(m: Maze, e: Entity, ps: PlayerState, h: seq<Sample>, tick: nat)
    requires AtRest(e, ps) && !e.flags.dead && tick < ps.spawnInvulnUntil
    ensures var st := With(e, ps, h); EndStages(m, false, tick, map[], st, Ending(st, st, st), st)
  {
    QuietFire(e, ps, h, tick);
    NobodyReturns(m, e, ps, h, tick);
    NothingToEnd(e, ps, h, tick);
    hide With, FiredStore, RespawnedStore, UnshieldedStore, CollectedStore;
  }

  lemma QuietTick(m: Maze, e: Entity, ps: PlayerState, h: seq<Sample>, tick: nat)
    requires AtRest(e, ps) && !e.flags.dead && tick < ps.spawnInvulnUntil
    ensures IsTick(m, false, None, tick, QuietLeg(e, ps, h, tick, Sampled1(e, ps, h, tick)))
  {
    hide MoveStages, HitStages, EndStages, BrokenOff, AtRest, With;
    var h1 := h + [SampleOf(tick, e)];
    QuietMoves(m, e, ps, h, tick);
    QuietHits(m, e, ps, h1, tick);
    QuietFire(e, ps, h1, tick);
    QuietEnd(m, e, ps, h1, tick);
    var leg := QuietLeg(e, ps, h, tick, Sampled1(e, ps, h, tick));
    assert AllStages(m, false, None, tick, map[], leg.before, [], true, leg.stages, leg.after);
  }

  // ---- the tick of the return ----

  /** The run: killed on tile d, due in the tick after `tick`, back on tile t, with these samples so far. */
  datatype Scene = Scene(m: Maze, d: TilePos, t: TilePos, tick: nat, h: seq<Sample>)

  function Corpse0(c: Scene, h: seq<Sample>): Store { With(Body(c.d), Waiting(c.d, c.tick), h) }

  function Back1(c: Scene): Entity { Reborn(Body(c.d), c.t) }

  function Protected(c: Scene): PlayerState { RebornState(Waiting(c.d, c.tick), c.tick + 1) }

  function Revived(c: Scene, h: seq<Sample>): Store { With(Back1(c), Protected(c), h) }

  /** The tile is one that respawning may choose. */
  ghost predicate Fitting(c: Scene) {
    && GoodMaze(c.m) && Traced(c.h, Player, c.tick) && At(c.m, c.t.0, c.t.1) == SpawnPlayer
    && AmongThree(c.m, Alone(Body(c.d)), 1, TileAt(TileMid(c.d.0), TileMid(c.d.1)), c.t)
  }

  lemma SpawnFree(c: Scene, h: seq<Sample>)
    requires Fitting(c)
    ensures var st := Corpse0(c, h); Haven(c.m, st.slots, c.t) && Chosen(c.m, st, 0, c.t)
  {
    var st := Corpse0(c, h);
    hide AmongThree, GoodMaze;
    assert st.slots[0] == Body(c.d);
  }

  lemma ReturnTurns(c: Scene, h: seq<Sample>)
    requires Fitting(c)
    ensures Returns(c.m, c.tick + 1, Corpse0(c, h), [1], 1, Revived(c, []))
  {
    var st, st' := Corpse0(c, h), Revived(c, []);
    SpawnFree(c, h);
    assert st.slots[0] == Body(c.d) && st'.slots[0] == Back1(c);
    assert st' == Returned(st, 0, c.t, c.tick + 1);
    hide Haven, Chosen, Fitting;
    assert RespawnOutcome(c.m, c.tick + 1, st, 0, st', Back(c.t));
    hide RespawnOutcome;
    assert ReturnTurn(c.m, c.tick + 1, st, 1, st');
    assert Returns(c.m, c.tick + 1, st, [1], 0, st);
  }

  lemma WakesOne(c: Scene, h: seq<Sample>, i: int)
    requires Fitting(c) && 0 <= i < MAX_ENTITIES
    ensures var st, st' := Corpse0(c, h), Revived(c, []);
            Wakes(c.m, c.tick + 1, st, st', i) && Left(c.m, c.tick + 1, st, st', i)
  {
    var st, st' := Corpse0(c, h), Revived(c, []);
    hide Haven, AmongThree, GoodMaze, Traced;
    if i == 0 {
      assert st.slots[0] == Body(c.d) && st'.slots[0] == Back1(c);
      assert AloneAt(st'.slots, 0);
    }
  }

  lemma ReturnWakes(c: Scene, h: seq<Sample>)
    requires Fitting(c)
    ensures RespawnedBy(c.m, c.tick + 1, Corpse0(c, h), {1}, Revived(c, []))
  {
    hide Fitting, Wakes, Left;
    var st, st', now := Corpse0(c, h), Revived(c, []), c.tick + 1;
    assert st.slots[0] == Body(c.d) && st'.slots[0] == Back1(c);
    assert CameBack(st.slots, st'.slots, 1);
    forall i | 0 <= i < |st.slots|
      ensures Wakes(c.m, now, st, st', i) && Left(c.m, now, st, st', i)
    {
      WakesOne(c, h, i);
    }
  }

  lemma ReturnStore(c: Scene, h: seq<Sample>)
    requires Fitting(c)
    ensures RespawnedStore(c.m, c.tick + 1, Corpse0(c, h), Revived(c, []))
  {
    ReturnTurns(c, h);
    ReturnWakes(c, h);
    OnlyOne(Body(c.d));
    var st := Corpse0(c, h);
    assert st.players.Keys == {1} && st.slots == Alone(Body(c.d));
    hide RespawnedBy, Returns, IDsOf, With, Fitting;
  }

  lemma ReturnEnd(c: Scene, h: seq<Sample>)
    requires Fitting(c)
    ensures var st, st' := Corpse0(c, h), Revived(c, []);
            EndStages(c.m, false, c.tick + 1, map[], st, Ending(st, st', st'), st')
  {
    hide FiredStore, RespawnedStore, UnshieldedStore, CollectedStore, With, BrokenOff, Fitting;
    QuietFire(Body(c.d), Waiting(c.d, c.tick), h, c.tick + 1);
    ReturnStore(c, h);
    NothingToEnd(Back1(c), Protected(c), [], c.tick + 1);
  }

  function ReturnLeg(c: Scene): Leg {
    QuietLeg(Body(c.d), Waiting(c.d, c.tick), c.h, c.tick + 1, Revived(c, []))
  }

  lemma ReturnsHere(c: Scene)
    ensures GapRun(c) != [] && ReturnsIn(GapRun(c)[0], 1)
  {
    var leg := ReturnLeg(c);
    assert GapRun(c)[0] == leg;
    assert leg.stages.ending.fired.slots[0] == Body(c.d) && leg.stages.ending.respawned.slots[0] == Back1(c);
  }

  lemma ReturnTick(c: Scene)
    requires Fitting(c)
    ensures IsTick(c.m, false, None, c.tick + 1, ReturnLeg(c))
  {
    hide MoveStages, HitStages, EndStages, BrokenOff, With, Fitting;
    var e, ps := Body(c.d), Waiting(c.d, c.tick);
    var h1 := c.h + [SampleOf(c.tick + 1, e)];
    QuietMoves(c.m, e, ps, c.h, c.tick + 1);
    QuietHits(c.m, e, ps, h1, c.tick + 1);
    QuietFire(e, ps, h1, c.tick + 1);
    ReturnEnd(c, h1);
    var leg := ReturnLeg(c);
    assert AllStages(c.m, false, None, c.tick + 1, map[], leg.before, [], true, leg.stages, leg.after);
  }

  // ---- the run ----

  /** The samples of the first k ticks after the return. */
  function Since(c: Scene, k: nat): seq<Sample> {
    if k == 0 then [] else Since(c, k - 1) + [SampleOf(c.tick + 1 + k, Back1(c))]
  }

  function LegAt(c: Scene, k: nat): Leg
    requires k < 4
  {
    if k == 0 then ReturnLeg(c)
    else QuietLeg(Back1(c), Protected(c), Since(c, k - 1), c.tick + 1 + k, Revived(c, Since(c, k)))
  }

  function GapRun(c: Scene): seq<Leg> { [LegAt(c, 0), LegAt(c, 1), LegAt(c, 2), LegAt(c, 3)] }

  lemma LegTick(c: Scene, k: nat)
    requires Fitting(c) && k < 4
    ensures LegAt(c, k).acts == [] && LegAt(c, k).after == Revived(c, Since(c, k)) && Here(LegAt(c, k), 1)
    ensures IsTick(c.m, false, None, c.tick + 1 + k, LegAt(c, k))
  {
    hide IsTick, Here, With, AtRest, Fitting;
    if k == 0 {
      ReturnTick(c);
      HereOne(Body(c.d), LegAt(c, k));
    } else {
      assert Since(c, k) == Since(c, k - 1) + [SampleOf(c.tick + 1 + k, Back1(c))];
      BackAtRest(c, c.tick + 1 + k);
      QuietTick(c.m, Back1(c), Protected(c), Since(c, k - 1), c.tick + 1 + k);
      HereOne(Back1(c), LegAt(c, k));
    }
  }

  lemma BackAtRest(c: Scene, tick: nat)
    requires tick <= c.tick + 4
    ensures AtRest(Back1(c), Protected(c)) && !Back1(c).flags.dead && tick < Protected(c).spawnInvulnUntil
  {
  }

  lemma LegsJoin(c: Scene, k: nat)
    requires Fitting(c) && 0 < k < 4
    ensures ActedAll(LegAt(c, k - 1).after, LegAt(c, k - 1).acts, LegAt(c, k).before)
  {
    hide IsTick, Here, Fitting;
    LegTick(c, k - 1);
  }

  lemma ThreeSince(c: Scene)
    ensures SamplesIn(LegAt(c, 3), 1) == [SampleOf(c.tick + 2, Back1(c)), SampleOf(c.tick + 3, Back1(c)),
                                          SampleOf(c.tick + 4, Back1(c))]
  {
    var e := Back1(c);
    assert Since(c, 1) == [SampleOf(c.tick + 2, e)];
    assert Since(c, 2) == Since(c, 1) + [SampleOf(c.tick + 3, e)];
    hide Since, Back1, Protected;
    assert SamplesIn(LegAt(c, 3), 1) == Since(c, 2) + [SampleOf(c.tick + 4, e)];
  }

  lemma OldestOfThree(t: nat, x: Sample, y: Sample, z: Sample)
    requires x.tick > t && y.tick > t && z.tick > t
    ensures SampleAt([x, y, z], t) == Some(x)
  {
    var log := [x, y, z];
    assert Nth(log, 0) == z && Nth(log, 1) == y && Nth(log, 2) == x && Kept(log) == 3;
    assert Scan(log, t, 2) == x && Scan(log, t, 1) == Scan(log, t, 2);
  }

  lemma GapSamples(c: Scene)
    ensures SampleAt(SamplesIn(LegAt(c, 3), 1), c.tick + 1) == Some(SampleOf(c.tick + 2, Back1(c)))
  {
    hide SamplesIn, LegAt, SampleAt, Back1;
    ThreeSince(c);
    var e := Back1(c);
    OldestOfThree(c.tick + 1, SampleOf(c.tick + 2, e), SampleOf(c.tick + 3, e), SampleOf(c.tick + 4, e));
  }

  /**
   Over this run the entity is in the slab at every sampling since the rewound tick, yet only a later sample is found.
   */
  ghost predicate LostAtView(m: Maze, start: nat, run: seq<Leg>, owtTicks: nat, id: ID) {
    && run != [] && start <= TView(start + |run| - 1, owtTicks)
    && HereSince(run, TView(start + |run| - 1, owtTicks) - start, id)
    && (var s := SampleAt(SamplesIn(run[|run| - 1], id), TView(start + |run| - 1, owtTicks));
        s.Some? && s.value.tick > TView(start + |run| - 1, owtTicks))
    && IsRun(m, false, None, start, run)
  }

  lemma RunJoins(c: Scene)
    requires Fitting(c)
    ensures HereSince(GapRun(c), 0, 1) && IsRun(c.m, false, None, c.tick + 1, GapRun(c))
  {
    hide IsTick, Here, LegAt, ActedAll, Fitting;
    var run := GapRun(c);
    assert |run| == 4 && forall k: nat | k < 4 :: run[k] == LegAt(c, k);
    hide GapRun;
    forall k: nat | k < 4
      ensures IsTick(c.m, false, None, c.tick + 1 + k, run[k]) && Here(run[k], 1)
      ensures k > 0 ==> ActedAll(run[k - 1].after, run[k - 1].acts, run[k].before)
    {
      LegTick(c, k);
      if k > 0 { LegsJoin(c, k); }
    }
  }

  lemma SceneLost(c: Scene)
    requires Fitting(c)
    ensures LostAtView(c.m, c.tick + 1, GapRun(c), 1, 1)
  {
    hide IsRun, HereSince, SampleAt, SamplesIn, LegAt, Fitting;
    assert TView(c.tick + 4, 1) == c.tick + 1 && |GapRun(c)| == 4 && GapRun(c)[3] == LegAt(c, 3);
    RunJoins(c);
    GapSamples(c);
  }

  lemma HereOne(e: Entity, leg: Leg)
    requires e.id == 1 && exists ps, h, tick, after :: leg == QuietLeg(e, ps, h, tick, after)
    ensures Here(leg, 1)
  {
    assert leg.stages.recorded.slots[0] == e;
  }

  // ---- somewhere to come back to ----

  function FarFrom(death: TilePos, t: TilePos): Scored { Scored(t, Chebyshev(t, death)) }

  lemma {:induction false} Safest(w: nat, death: TilePos, tiles: set<TilePos>) returns (t: TilePos)
    requires tiles != {}
    ensures t in tiles && forall h | h in tiles :: !Safer(w, FarFrom(death, h), FarFrom(death, t))
    decreases |tiles|
  {
    t :| t in tiles;
    if tiles != {t} {
      var rest := tiles - {t};
      assert rest != {} by {
        var o :| o in tiles && o != t;
        assert o in rest;
      }
      var u := Safest(w, death, rest);
      hide Safer;
      forall h | h in rest && Safer(w, FarFrom(death, t), FarFrom(death, u))
        ensures !Safer(w, FarFrom(death, h), FarFrom(death, t))
      {
        if Safer(w, FarFrom(death, h), FarFrom(death, t)) {
          SaferChain(w, FarFrom(death, h), FarFrom(death, t), FarFrom(death, u));
        }
      }
      SaferNotSelf(w, FarFrom(death, t));
      if !Safer(w, FarFrom(death, t), FarFrom(death, u)) {
        t := u;
      }
    } else {
      SaferNotSelf(w, FarFrom(death, t));
    }
  }

  lemma SaferNotSelf(w: nat, a: Scored)
    ensures !Safer(w, a, a)
  {
  }

  /** With nobody hostile about, the spawn farthest from the place of death is one to come back to. */
  lemma SomewhereFitting(m: Maze, d: TilePos, death: TilePos) returns (t: TilePos)
    requires At(m, d.0, d.1) == SpawnPlayer
    ensures At(m, t.0, t.1) == SpawnPlayer && AmongThree(m, Alone(Body(d)), 1, death, t)
  {
    var tiles := set x, y | 0 <= x < m.W && 0 <= y < m.H && At(m, x, y) == SpawnPlayer :: (x, y);
    AtInBounds(m, d.0, d.1);
    assert d in tiles;
    t := Safest(m.W, death, tiles);
    var slots := Alone(Body(d));
    forall h | Haven(m, slots, h)
      ensures !SaferTile(m, slots, 1, death, h, t)
    {
      AtInBounds(m, h.0, h.1);
      assert h in tiles;
      NobodyHostile(d);
    }
    hide Haven, SaferTile;
    assert HoldsSafer(m, slots, 1, death, t, []);
  }

  lemma NobodyHostile(d: TilePos)
    ensures forall i | 0 <= i < |Alone(Body(d))| :: !Hostile(Alone(Body(d))[i], 1)
  {
  }

  /** From a state between ticks, a return in the first leg, and the place at its sampling forgotten. */
  ghost predicate ForgotFromRest(m: Maze, tick: nat, run: seq<Leg>) {
    run != [] && ReturnsIn(run[0], 1) && Rest(m, 3, false, None, run[0].before, tick, false, LOG)
      && LostAtView(m, tick + 1, run, 1, 1)
  }

  lemma SceneRests(c: Scene)
    requires Fitting(c)
    ensures GapRun(c) != [] && Rest(c.m, 3, false, None, GapRun(c)[0].before, c.tick, false, LOG)
  {
    assert GapRun(c)[0].before == Corpse0(c, c.h) by { hide Fitting; }
    hide Rest, With, Body, Waiting, LegAt;
    BodyRests(c.m, c.d, c.h, c.tick);
  }

  lemma SceneForgets(c: Scene)
    requires Fitting(c)
    ensures ForgotFromRest(c.m, c.tick, GapRun(c))
  {
    hide *;
    SceneRests(c);
    SceneLost(c);
    ReturnsHere(c);
    ForgotIs(c.m, c.tick, GapRun(c));
  }

  lemma ForgotIs(m: Maze, tick: nat, run: seq<Leg>)
    requires run != [] && ReturnsIn(run[0], 1) && Rest(m, 3, false, None, run[0].before, tick, false, LOG)
    requires LostAtView(m, tick + 1, run, 1, 1)
    ensures ForgotFromRest(m, tick, run)
  {
    hide Rest, LostAtView, ReturnsIn;
  }

  /**
   In any maze, wherever a spawn tile is: from a state the simulation can be in between two ticks, with a player
   killed there and due back, there is a run of four ticks in which the player is in the slab throughout, and its
   shooter sees it as it stood at the first, but it came back in that tick: the oldest sample left is of the second.
   */
  lemma RespawnForgets(m: Maze, d: TilePos, tick: nat, h: seq<Sample>)
    requires At(m, d.0, d.1) == SpawnPlayer && Traced(h, Player, tick) && GoodMaze(m)
    ensures exists run: seq<Leg> :: ForgotFromRest(m, tick, run)
  {
    hide *;
    var t := SomewhereFitting(m, d, TileAt(TileMid(d.0), TileMid(d.1)));
    var c := Scene(m, d, t, tick, h);
    FittingIs(c);
    SceneForgets(c);
  }

  lemma FittingIs(c: Scene)
    requires GoodMaze(c.m) && Traced(c.h, Player, c.tick) && At(c.m, c.t.0, c.t.1) == SpawnPlayer
    requires AmongThree(c.m, Alone(Body(c.d)), 1, TileAt(TileMid(c.d.0), TileMid(c.d.1)), c.t)
    ensures Fitting(c)
  {
  }
}
