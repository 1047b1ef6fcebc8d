/** What one tick did, stage by stage, and what follows from the stages alone. */
module Stages {
  import opened Options
  import opened Grid
  import opened Physics
  import opened Entities
  import opened Slab
  import opened Ledger
  import opened SimState
  import opened Control
  import opened Movement
  import opened SnipeMind
  import opened Firing
  import opened Emission
  import opened Respawn
  import opened Cleanup
  import opened Samples
  import opened Hits
  import opened Setup

  /** The store as steps 3 to 4.9 left it, one after the other, and the generators' boxes at their start. */
  datatype Moves = Moves(
    solids: seq<Box>, steered: Store, moved: Store, advice: map<ID, Advice>, advised: Store, exhausted: bool,
    walked: Store, noted: Store, nudged: Store, emitted: Store, emitFailed: bool)

  datatype Flight = Flight(pids: seq<ID>, flown: Store, flownLog: seq<LifeEvent>)

  datatype Ending = Ending(fired: Store, respawned: Store, unshielded: Store)

  datatype Stages = Stages(moves: Moves, recorded: Store, flight: Flight, aged: Store, ending: Ending)

  /** Step 4.5: without a level there is nobody to decide; with one, a shot in vain shows. */
  ghost predicate AdviceStage(m: Maze, level: Option<Level>, tick: nat, st0: Store, advice: map<ID, Advice>, st: Store,
                              exhausted: bool) {
    if level.None? then st == st0 && !exhausted
    else AdvisedStore(m, st0, tick, level.value.snipes, advice, st) && (exhausted <==> Denied(st0, advice, st))
  }

  /** Step 4.6, likewise. */
  ghost predicate EmissionStage(m: Maze, level: Option<Level>, tick: nat, st0: Store, st: Store, failed: bool) {
    if level.None? then st == st0 && !failed
    else
      && OnlyGrew(st0, st) && (!failed ==> EmittedStore(m, level.value.maxSnipes, tick, st0, st))
      && (failed <==> Starved(m, level.value.maxSnipes, tick, st0, st))
  }

  lemma AdviceStageFits(m: Maze, level: Option<Level>, tick: nat, st0: Store, advice: map<ID, Advice>, st: Store,
                        exhausted: bool)
    requires if level.None? then st == st0 && !exhausted
             else AdvisedStore(m, st0, tick, level.value.snipes, advice, st) && (exhausted <==> Denied(st0, advice, st))
    ensures AdviceStage(m, level, tick, st0, advice, st, exhausted)
  {
  }

  lemma EmissionStageFits(m: Maze, level: Option<Level>, tick: nat, st0: Store, st: Store, failed: bool)
    requires if level.None? then st == st0 && !failed
             else OnlyGrew(st0, st) && (!failed ==> EmittedStore(m, level.value.maxSnipes, tick, st0, st))
                  && (failed <==> Starved(m, level.value.maxSnipes, tick, st0, st))
    ensures EmissionStage(m, level, tick, st0, st, failed)
  {
  }

  /** Steps 3 to 4.9: everyone moves, snipes decide and emerge, and the outcome is sampled. */
  ghost predicate MoveStages(m: Maze, level: Option<Level>, tick: nat, inputs: map<ID, Input>, st0: Store, t: Moves,
                             st: Store) {
    && SteeredStore(st0, inputs, t.steered)
    && Covers(t.steered.slots, t.solids) && MovedStore(m, t.solids, Player, t.steered, t.moved)
    && AdviceStage(m, level, tick, t.moved, t.advice, t.advised, t.exhausted)
    && MovedStore(m, t.solids, Snipe, t.advised, t.walked)
    && NotedStore(t.advised.slots, t.walked, t.noted) && BlockedStore(m, t.noted, t.nudged)
    && EmissionStage(m, level, tick, t.nudged, t.emitted, t.emitFailed)
    && RecordedStore(tick, t.emitted, st)
  }

  /** Steps 5 and 6. */
  ghost predicate HitStages(m: Maze, noRespawn: bool, tick: nat, st0: Store, log0: seq<LifeEvent>, t: Flight,
                            st: Store) {
    && ProjectileIDs(st0.slots, t.pids)
    && Flights(m, tick, noRespawn, st0, log0, t.pids, |t.pids|, t.flown, t.flownLog)
    && AgedStore(t.flown, t.pids, st)
  }

  /** Steps 7 to 9. */
  ghost predicate EndStages(m: Maze, noRespawn: bool, tick: nat, inputs: map<ID, Input>, st0: Store, t: Ending,
                            st: Store) {
    && FiredStore(st0, inputs, tick, t.fired)
    && RespawnedStore(m, tick, t.fired, t.respawned)
    && UnshieldedStore(tick, t.respawned, t.unshielded)
    && CollectedStore(noRespawn, t.unshielded, st)
  }

  /** The whole tick; it fails exactly if it is broken off in step 7, where the store is left as it stands. */
  ghost predicate AllStages(m: Maze, noRespawn: bool, level: Option<Level>, tick: nat, im: map<ID, Input>, st0: Store,
                            log0: seq<LifeEvent>, ok: bool, t: Stages, st: Store) {
    && MoveStages(m, level, tick, im, st0, t.moves, t.recorded)
    && HitStages(m, noRespawn, tick, t.recorded, log0, t.flight, t.aged)
    && (ok <==> !BrokenOff(t.aged, im, tick, t.ending.fired))
    && (if ok then EndStages(m, noRespawn, tick, im, t.aged, t.ending, st) else st == t.ending.fired)
  }

  /** A snipe's shot or an emission found no ID left. */
  predicate Halts(t: Option<Stages>) {
    t.Some? && (t.value.moves.exhausted || t.value.moves.emitFailed)
  }

  // ---- how many snipes there are ----

  function CapOf(level: Option<Level>): nat {
    if level.None? then 0 else level.value.maxSnipes
  }

  /** No snipe is new, and none has changed between alive and dead. */
  predicate Tame(a: seq<Entity>, b: seq<Entity>) {
    |b| == |a|
      && forall i | 0 <= i < |a| :: IsOf(b[i], Snipe) ==> IsOf(a[i], Snipe) && b[i].flags.dead == a[i].flags.dead
  }

  lemma TameCounts(a: seq<Entity>, b: seq<Entity>)
    requires Tame(a, b)
    ensures Population(b, Snipe) <= Population(a, Snipe) && (SnipesLive(a) ==> SnipesLive(b))
  {
    NoMoreOf(a, b, Snipe);
  }

  lemma TameSteered(a: Store, inputs: map<ID, Input>, b: Store)
    requires SteeredStore(a, inputs, b)
    ensures Tame(a.slots, b.slots)
    ensures SnipesLive(a.slots) ==> SnipesLive(b.slots)
  {
  }

  lemma TameMoved(m: Maze, solids: seq<Box>, kind: Kind, a: Store, b: Store)
    requires MovedStore(m, solids, kind, a, b)
    ensures Tame(a.slots, b.slots)
    ensures SnipesLive(a.slots) ==> SnipesLive(b.slots)
  {
    forall i | 0 <= i < |b.slots|
      ensures b.slots[i].id == a.slots[i].id && b.slots[i].kind == a.slots[i].kind
              && b.slots[i].flags == a.slots[i].flags
    {
      assert b.slots[i] == Moved(m, solids, a.slots[i], kind);
    }
  }

  lemma TameNudged(a: Store, b: Store)
    requires NudgedStore(a, b)
    ensures Tame(a.slots, b.slots)
    ensures SnipesLive(a.slots) ==> SnipesLive(b.slots)
  {
    forall i | 0 <= i < |b.slots|
      ensures b.slots[i].id == a.slots[i].id && b.slots[i].kind == a.slots[i].kind
              && b.slots[i].flags == a.slots[i].flags
    {
      assert Nudged(a.slots[i], b.slots[i]);
    }
  }

  lemma TameAdvised(m: Maze, level: Option<Level>, tick: nat, a: Store, advice: map<ID, Advice>, b: Store,
                    exhausted: bool)
    requires AdviceStage(m, level, tick, a, advice, b, exhausted)
    ensures Tame(a.slots, b.slots)
    ensures SnipesLive(a.slots) ==> SnipesLive(b.slots)
  {
    hide Grown, Denied, OneEach, HasShot, Thoughts, MindsBy, Deciders;
    if level.Some? {
      forall i | 0 <= i < |b.slots| && IsOf(b.slots[i], Snipe)
        ensures IsOf(a.slots[i], Snipe) && b.slots[i].flags.dead == a.slots[i].flags.dead
      {
        assert a.slots[i].id == 0 ==> SnipeShot(a, advice, b, b.slots[i]);
        assert a.slots[i].id != 0 ==> b.slots[i] == Heeding(a.slots[i], advice, level.value.snipes.speed);
      }
    }
  }

  lemma EmissionCapped(m: Maze, level: Option<Level>, tick: nat, a: Store, b: Store, failed: bool)
    requires EmissionStage(m, level, tick, a, b, failed) && SnipesLive(a.slots)
             && Population(a.slots, Snipe) <= CapOf(level)
    ensures Population(b.slots, Snipe) <= CapOf(level)
  {
    if level.Some? {
      hide Hatches, Turns, StarvedAt;
      assert Grown(a, b);
      GrownSnipesLive(a, b);
      SnipesAre(a.slots);
      SnipesAre(b.slots);
      hide SnipesLive, Snipes, Population, Grown;
      if failed {
        var cap := level.value.maxSnipes;
        var g :| StarvedAt(m, cap, a, b, g) && EmittedBy(m, cap, tick, a, Below(a.generators.Keys, a.slots[g].id), b);
      }
    }
  }

  lemma MovesCapped(m: Maze, level: Option<Level>, tick: nat, inputs: map<ID, Input>, st0: Store, t: Moves, st: Store)
    requires MoveStages(m, level, tick, inputs, st0, t, st) && SnipesLive(st0.slots)
             && Population(st0.slots, Snipe) <= CapOf(level)
    ensures Population(st.slots, Snipe) <= CapOf(level)
  {
    assert st.slots == t.emitted.slots;
    assert NudgedStore(t.noted, t.nudged) && t.noted.slots == t.walked.slots;
    hide SteeredStore, MovedStore, AdviceStage, NudgedStore, EmissionStage, RecordedStore, NotedStore, Tame, SnipesLive;
    TameSteered(st0, inputs, t.steered);
    TameCounts(st0.slots, t.steered.slots);
    TameMoved(m, t.solids, Player, t.steered, t.moved);
    TameCounts(t.steered.slots, t.moved.slots);
    TameAdvised(m, level, tick, t.moved, t.advice, t.advised, t.exhausted);
    TameCounts(t.moved.slots, t.advised.slots);
    TameMoved(m, t.solids, Snipe, t.advised, t.walked);
    TameCounts(t.advised.slots, t.walked.slots);
    TameNudged(t.noted, t.nudged);
    TameCounts(t.noted.slots, t.nudged.slots);
    EmissionCapped(m, level, tick, t.nudged, t.emitted, t.emitFailed);
  }

  lemma HitsNoMore(m: Maze, noRespawn: bool, tick: nat, st0: Store, log0: seq<LifeEvent>, t: Flight, st: Store)
    requires HitStages(m, noRespawn, tick, st0, log0, t, st)
    ensures Population(st.slots, Snipe) <= Population(st0.slots, Snipe)
  {
    FlightsFrame(m, tick, noRespawn, st0, log0, t.pids, |t.pids|, t.flown, t.flownLog);
    NoMoreOf(st0.slots, t.flown.slots, Snipe);
    hide Flights, Prefix;
    forall i | 0 <= i < |st.slots|
      ensures st.slots[i] == FREE || st.slots[i] == t.flown.slots[i]
    {
    }
    NoMoreOf(t.flown.slots, st.slots, Snipe);
  }

  lemma FiredNoMore(st0: Store, inputs: map<ID, Input>, tick: nat, done: set<ID>, st: Store)
    requires FiredBy(st0, inputs, tick, done, st)
    ensures Population(st.slots, Snipe) <= Population(st0.slots, Snipe)
  {
    hide OneEach, FiredOrNot, Population;
    forall i | 0 <= i < |st.slots| && IsOf(st.slots[i], Snipe)
      ensures IsOf(st0.slots[i], Snipe)
    {
      assert st0.slots[i].id == 0 ==> PlayerShot(st0, inputs, tick, st, st.slots[i]);
    }
    NoMoreOf(st0.slots, st.slots, Snipe);
  }

  lemma EndNoMore(m: Maze, noRespawn: bool, tick: nat, inputs: map<ID, Input>, st0: Store, t: Ending, st: Store)
    requires EndStages(m, noRespawn, tick, inputs, st0, t, st)
    ensures Population(st.slots, Snipe) <= Population(st0.slots, Snipe)
  {
    hide FiredBy;
    FiredNoMore(st0, inputs, tick, st0.players.Keys, t.fired);
    hide AloneAt, Left, Unshielded, Doomed, Population, Due, Reborn;
    forall i | 0 <= i < |t.respawned.slots|
      ensures IsOf(t.respawned.slots[i], Snipe) ==> IsOf(t.fired.slots[i], Snipe)
    {
      assert Wakes(m, tick, t.fired, t.respawned, i);
    }
    NoMoreOf(t.fired.slots, t.respawned.slots, Snipe);
    NoMoreOf(t.respawned.slots, t.unshielded.slots, Snipe);
    NoMoreOf(t.unshielded.slots, st.slots, Snipe);
  }

  /** No tick, whole or broken off, takes the snipes over the level's cap. */
  lemma StagesCapped(m: Maze, noRespawn: bool, level: Option<Level>, tick: nat, im: map<ID, Input>, st0: Store,
                     log0: seq<LifeEvent>, ok: bool, t: Stages, st: Store)
    requires AllStages(m, noRespawn, level, tick, im, st0, log0, ok, t, st)
    requires SnipesLive(st0.slots) && Population(st0.slots, Snipe) <= CapOf(level)
    ensures Population(st.slots, Snipe) <= CapOf(level)
  {
    hide MoveStages, HitStages, EndStages, FiredBy, SnipesLive, Population;
    MovesCapped(m, level, tick, im, st0, t.moves, t.recorded);
    HitsNoMore(m, noRespawn, tick, t.recorded, log0, t.flight, t.aged);
    if ok {
      EndNoMore(m, noRespawn, tick, im, t.aged, t.ending, st);
    } else {
      var i :| Misfires(t.aged, im, tick, st, i)
        && FiredBy(t.aged, im, tick, Below(t.aged.players.Keys, t.aged.slots[i].id), st);
      FiredNoMore(t.aged, im, tick, Below(t.aged.players.Keys, t.aged.slots[i].id), st);
    }
  }

  // ---- IDs ----

  lemma MovesIDs(m: Maze, level: Option<Level>, tick: nat, inputs: map<ID, Input>, st0: Store, t: Moves, st: Store)
    requires MoveStages(m, level, tick, inputs, st0, t, st)
    ensures st0.nextID <= st.nextID
    ensures t.exhausted || t.emitFailed ==> st.nextID >= MAX_ID
  {
    hide Covers, Moved, Steered, Nudged, Hatches, Turns, SnipeShot, OneEach, StarvedAt, Heeding, Thoughts, MindsBy;
    assert t.moved.nextID <= t.advised.nextID by { hide AdvisedShots; }
    if t.exhausted {
      var s :| s in t.advice && t.advice[s].move.Shoot? && !HasShot(t.moved, t.advised, s);
    }
    if t.emitFailed {
      StarvedGrew(m, level.value.maxSnipes, tick, t.nudged, t.emitted);
    }
  }

  lemma FiredIDs(st0: Store, inputs: map<ID, Input>, tick: nat, done: set<ID>, st: Store)
    requires FiredBy(st0, inputs, tick, done, st)
    ensures st0.nextID <= st.nextID
  {
  }

  /** The next ID never goes down, and has reached the end when a tick fails or halts. */
  lemma StagesIDs(m: Maze, noRespawn: bool, level: Option<Level>, tick: nat, im: map<ID, Input>, st0: Store,
                  log0: seq<LifeEvent>, ok: bool, t: Stages, st: Store)
    requires AllStages(m, noRespawn, level, tick, im, st0, log0, ok, t, st)
    ensures st0.nextID <= st.nextID
    ensures !ok || Halts(Some(t)) ==> st.nextID >= MAX_ID
  {
    hide MoveStages, Flights, ProjectileIDs, Prefix, FiredBy;
    MovesIDs(m, level, tick, im, st0, t.moves, t.recorded);
    FlightsFrame(m, tick, noRespawn, t.recorded, log0, t.flight.pids, |t.flight.pids|, t.flight.flown,
                 t.flight.flownLog);
    if ok {
      FiredIDs(t.aged, im, tick, t.aged.players.Keys, t.ending.fired);
      hide Wakes, Left, Unshielded, CollectedSlots, CollectedPlayers, Expired, Returns;
    } else {
      var i :| Misfires(t.aged, im, tick, st, i)
        && FiredBy(t.aged, im, tick, Below(t.aged.players.Keys, t.aged.slots[i].id), st);
      FiredIDs(t.aged, im, tick, Below(t.aged.players.Keys, t.aged.slots[i].id), st);
    }
  }
}
