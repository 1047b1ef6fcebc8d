/** The simulation: one tick at a time from a generated maze, and what every tick keeps. */
module Simulation {
  import opened Options
  import opened Grid
  import opened Physics
  import opened Entities
  import opened Slab
  import opened Ledger
  import opened SimState
  import opened Control
  import opened Movement
  import opened SnipeMind
  import opened Firing
  import opened Emission
  import opened Respawn
  import opened Cleanup
  import opened Samples
  import opened Hits
  import opened Setup
  import opened Stages
  import M = MazeGenerate
  import MazeCarve

  datatype PlayerInput = PlayerInput(player: ID, dir: nat, turbo: bool, fireDir: nat, clientTick: nat, owtTicks: nat)

  /** Direction codes; anything above the last one stands for no direction. */
  function DirOf(code: nat): Dir {
    if code == 1 then N else if code == 2 then NE else if code == 3 then E else if code == 4 then SE
    else if code == 5 then S else if code == 6 then SW else if code == 7 then W else if code == 8 then NW else Idle
  }

  function Sanitized(i: PlayerInput): Input {
    Input(DirOf(i.dir), i.turbo, DirOf(i.fireDir), i.clientTick, i.owtTicks)
  }

  /** Each player's last input of the batch. */
  ghost predicate InputMap(inputs: seq<PlayerInput>, r: map<ID, Input>) {
    && (forall i | 0 <= i < |inputs| :: inputs[i].player in r)
    && (forall p | p in r :: exists i | 0 <= i < |inputs| :: IsLast(inputs, i, p) && r[p] == Sanitized(inputs[i]))
  }

  ghost predicate IsLast(inputs: seq<PlayerInput>, i: int, p: ID)
    requires 0 <= i < |inputs|
  {
    inputs[i].player == p && forall j | i < j < |inputs| :: inputs[j].player != p
  }

  lemma OneInputMore(some: seq<PlayerInput>, r: map<ID, Input>)
    requires some != [] && InputMap(some[..|some| - 1], r)
    ensures InputMap(some, r[some[|some| - 1].player := Sanitized(some[|some| - 1])])
  {
    var k := |some| - 1;
    assert forall j | 0 <= j < k :: some[j] == some[..k][j];
    assert IsLast(some, k, some[k].player);
    forall q | q in r && q != some[k].player
      ensures exists i | 0 <= i < |some| :: IsLast(some, i, q) && r[q] == Sanitized(some[i])
    {
      var i :| 0 <= i < k && IsLast(some[..k], i, q) && r[q] == Sanitized(some[..k][i]);
      assert IsLast(some, i, q);
    }
  }

  const HEADINGS: seq<Dir> := [Idle, N, NE, E, SE, S, SW, W, NW]

  /** The eight directions clockwise from 1, and no direction for any other code. */
  function Heading(code: nat): Dir { if code < 9 then HEADINGS[code] else Idle }

  /** Exactly those who sent anything, each with the last it sent. */
  ghost predicate LastWords(inputs: seq<PlayerInput>, r: map<ID, Input>) {
    && (forall p :: p in r <==> exists i :: 0 <= i < |inputs| && inputs[i].player == p)
    && (forall p | p in r :: exists i ::
          && 0 <= i < |inputs| && inputs[i].player == p && (forall j | i < j < |inputs| :: inputs[j].player != p)
          && r[p] == Input(Heading(inputs[i].dir), inputs[i].turbo, Heading(inputs[i].fireDir), inputs[i].clientTick,
                           inputs[i].owtTicks))
  }

  lemma LastWordsIs(inputs: seq<PlayerInput>, r: map<ID, Input>)
    requires InputMap(inputs, r)
    ensures LastWords(inputs, r)
  {
    assert forall code: nat :: DirOf(code) == Heading(code);
    hide DirOf, Heading;
    forall p | p in r
      ensures exists i ::
                && 0 <= i < |inputs| && inputs[i].player == p && (forall j | i < j < |inputs| :: inputs[j].player != p)
                && r[p] == Input(Heading(inputs[i].dir), inputs[i].turbo, Heading(inputs[i].fireDir),
                                 inputs[i].clientTick, inputs[i].owtTicks)
    {
      var i :| 0 <= i < |inputs| && IsLast(inputs, i, p) && r[p] == Sanitized(inputs[i]);
    }
  }

  method BuildInputs(inputs: seq<PlayerInput>) returns (r: map<ID, Input>)
    ensures InputMap(inputs, r) && LastWords(inputs, r)
  {
    r := map[];
    for k := 0 to |inputs|
      invariant InputMap(inputs[..k], r)
    {
      assert inputs[..k + 1][..k] == inputs[..k];
      OneInputMore(inputs[..k + 1], r);
      r := r[inputs[k].player := Sanitized(inputs[k])];
    }
    assert inputs[..|inputs|] == inputs;
    LastWordsIs(inputs, r);
  }

  function LivePlayers(slots: seq<Entity>): nat {
    if slots == [] then 0
    else
      var e := slots[|slots| - 1];
      LivePlayers(slots[..|slots| - 1]) + if IsPlayer(e) && !e.flags.dead then 1 else 0
  }

  method CountLivePlayers(slots: seq<Entity>) returns (n: nat)
    ensures n == LivePlayers(slots)
  {
    n := 0;
    for i := 0 to |slots|
      invariant n == LivePlayers(slots[..i])
    {
      assert slots[..i + 1][..i] == slots[..i];
      if IsPlayer(slots[i]) && !slots[i].flags.dead {
        n := n + 1;
      }
    }
    assert slots[..|slots|] == slots;
  }

  // ---- what holds between ticks ----

  /**
   Books, slab and geometry in order; and, unless halted, nobody dead but players due back, and every history up to
   date.
   */
  ghost predicate Rest(m: Maze, startLives: nat, noRespawn: bool, level: Option<Level>, st: Store, tick: nat,
                       quiesced: bool, log: seq<LifeEvent>) {
    && GoodMaze(m) && (level.Some? ==> LevelOK(level.value))
    && Inv(m, startLives, st, log) && Population(st.slots, Snipe) <= CapOf(level)
    && (!quiesced ==> Settled(st, noRespawn, tick) && Sampled(st, tick))
    && (quiesced ==> NoIDsLeft(st))
  }

  /** Too few IDs left for every player there may be to fire once. */
  predicate NoIDsLeft(st: Store) { st.nextID + MAX_PLAYERS > MAX_ID }

  /** The waiting list as a tick finds it, the samples up to the one before, and every snipe alive. */
  ghost predicate Early(m: Maze, startLives: nat, noRespawn: bool, tick: nat, st: Store, log: seq<LifeEvent>) {
    && Inv(m, startLives, st, log) && SnipesLive(st.slots)
    && Pending(st, noRespawn, tick, tick + RESPAWN_TICKS) && Sampled(st, tick - 1)
  }

  lemma EarlyInv(m: Maze, startLives: nat, noRespawn: bool, tick: nat, st: Store, log: seq<LifeEvent>)
    requires Early(m, startLives, noRespawn, tick, st, log)
    ensures Inv(m, startLives, st, log) && SnipesLive(st.slots)
  {
  }

  lemma EarlySteered(m: Maze, startLives: nat, noRespawn: bool, tick: nat, log: seq<LifeEvent>, inputs: map<ID, Input>,
                     a: Store, b: Store)
    requires Early(m, startLives, noRespawn, tick, a, log) && Inv(m, startLives, b, log) && SteeredStore(a, inputs, b)
    ensures Early(m, startLives, noRespawn, tick, b, log)
  {
    SteerPending(a, inputs, b, noRespawn, tick, tick + RESPAWN_TICKS);
    TameSteered(a, inputs, b);
    hide SnipesLive;
    hide Inv, Pending, Sampled;
    VitalSampled(a, b, tick - 1);
  }

  lemma EarlyMoved(m: Maze, startLives: nat, noRespawn: bool, tick: nat, log: seq<LifeEvent>, solids: seq<Box>,
                   kind: Kind, a: Store, b: Store)
    requires Early(m, startLives, noRespawn, tick, a, log) && Inv(m, startLives, b, log)
             && MovedStore(m, solids, kind, a, b)
    ensures Early(m, startLives, noRespawn, tick, b, log)
  {
    MovedPending(m, solids, kind, a, b, noRespawn, tick, tick + RESPAWN_TICKS);
    TameMoved(m, solids, kind, a, b);
    hide SnipesLive;
    hide Inv, Pending, Sampled;
    VitalSampled(a, b, tick - 1);
  }

  lemma EarlyNudged(m: Maze, startLives: nat, noRespawn: bool, tick: nat, log: seq<LifeEvent>, a: Store, b: Store)
    requires Early(m, startLives, noRespawn, tick, a, log) && Inv(m, startLives, b, log) && NudgedStore(a, b)
    ensures Early(m, startLives, noRespawn, tick, b, log)
  {
    NudgedPending(a, b, noRespawn, tick, tick + RESPAWN_TICKS);
    TameNudged(a, b);
    hide SnipesLive;
    hide Inv, Pending, Sampled;
    forall i | 0 <= i < |b.slots|
      ensures SameVital(a.slots[i], b.slots[i])
    {
      assert Nudged(a.slots[i], b.slots[i]);
    }
    VitalSampled(a, b, tick - 1);
  }

  lemma EarlyNoted(m: Maze, startLives: nat, noRespawn: bool, tick: nat, log: seq<LifeEvent>, before: seq<Entity>,
                   a: Store, b: Store)
    requires Early(m, startLives, noRespawn, tick, a, log) && Inv(m, startLives, b, log) && NotedStore(before, a, b)
    ensures Early(m, startLives, noRespawn, tick, b, log)
  {
    assert b.slots == a.slots && b.players == a.players && b.histories == a.histories;
    SamePending(a, b, noRespawn, tick, tick + RESPAWN_TICKS);
    hide Inv, Pending, Traced, NotedStore, SnipesLive;
  }

  lemma SameSize(m: Maze, solids: seq<Box>, kind: Kind, a: Store, b: Store)
    requires MovedStore(m, solids, kind, a, b)
    ensures |b.slots| == |a.slots|
  {
  }

  lemma EarlyGrown(m: Maze, startLives: nat, noRespawn: bool, tick: nat, log: seq<LifeEvent>, a: Store, b: Store)
    requires Early(m, startLives, noRespawn, tick, a, log) && Inv(m, startLives, b, log)
    requires Grown(a, b) && b.players == a.players
    ensures Early(m, startLives, noRespawn, tick, b, log)
  {
    GrownPending(a, b, noRespawn, tick, tick + RESPAWN_TICKS);
    GrownSnipesLive(a, b);
    GrownSampled(m, startLives, log, a, b, tick - 1);
  }

  lemma EarlyRecorded(m: Maze, startLives: nat, noRespawn: bool, tick: nat, log: seq<LifeEvent>, a: Store, b: Store)
    requires Early(m, startLives, noRespawn, tick, a, log) && Inv(m, startLives, b, log) && RecordedStore(tick, a, b)
    ensures Mid(m, startLives, noRespawn, tick, b, log)
  {
    RecordedSampled(m, startLives, log, tick, a, b);
    assert b == a.(histories := b.histories);
    hide Inv, Sampled, RecordedStore;
    SamePending(a, b, noRespawn, tick, tick + RESPAWN_TICKS);
  }

  /** Steps 3 and 4: players steer and move. */
  method MovePlayers(m: Maze, ghost startLives: nat, ghost noRespawn: bool, ghost log: seq<LifeEvent>, ghost tick: nat,
                     st0: Store, inputs: map<ID, Input>)
    returns (st: Store, solids: seq<Box>, ghost steered: Store)
    requires GoodMaze(m) && Early(m, startLives, noRespawn, tick, st0, log)
    ensures Early(m, startLives, noRespawn, tick, st, log) && Covers(st.slots, solids)
    ensures SteeredStore(st0, inputs, steered) && Covers(steered.slots, solids)
            && MovedStore(m, solids, Player, steered, st)
  {
    hide *;
    EarlyInv(m, startLives, noRespawn, tick, st0, log);
    st := ApplyInputs(m, startLives, log, st0, inputs);
    EarlySteered(m, startLives, noRespawn, tick, log, inputs, st0, st);
    steered := st;
    InvSlab(m, startLives, st, log);
    solids := CollectGenerators(m, st.slots);
    st := MoveKind(m, startLives, log, st, Player, solids);
    EarlyMoved(m, startLives, noRespawn, tick, log, solids, Player, steered, st);
  }

  lemma AdvisedGrown(m: Maze, a: Store, tick: nat, t: Tuning, advice: map<ID, Advice>, b: Store)
    requires AdvisedStore(m, a, tick, t, advice, b)
    ensures Grown(a, b) && b.players == a.players
  {
  }

  lemma GrewGrown(a: Store, b: Store)
    requires OnlyGrew(a, b)
    ensures Grown(a, b) && b.players == a.players
  {
  }

  /** Steps 4.5 to 4.56: snipes decide, move and push apart. */
  method MoveSnipes(m: Maze, ghost startLives: nat, ghost noRespawn: bool, ghost log: seq<LifeEvent>, tick: nat,
                    level: Option<Level>, st0: Store, solids: seq<Box>)
    returns (st: Store, exhausted: bool, ghost advice: map<ID, Advice>, ghost advised: Store, ghost walked: Store,
             ghost noted: Store)
    requires GoodMaze(m) && Early(m, startLives, noRespawn, tick, st0, log) && Covers(st0.slots, solids)
    requires level.Some? ==> LevelOK(level.value)
    ensures Early(m, startLives, noRespawn, tick, st, log)
    ensures AdviceStage(m, level, tick, st0, advice, advised, exhausted)
    ensures MovedStore(m, solids, Snipe, advised, walked) && NotedStore(advised.slots, walked, noted)
    ensures BlockedStore(m, noted, st)
  {
    st, exhausted, advice := st0, false, map[];
    if level.Some? {
      assert 2 <= level.value.snipes.speed < SUBTILE;
      hide *;
      EarlyInv(m, startLives, noRespawn, tick, st0, log);
      st, exhausted, advice := StepSnipes(m, startLives, log, tick, level.value.snipes, st);
      AdvisedGrown(m, st0, tick, level.value.snipes, advice, st);
      EarlyGrown(m, startLives, noRespawn, tick, log, st0, st);
      GrownCovers(st0, st, solids);
    }
    hide *;
    var decided := st;
    advised := decided;
    AdviceStageFits(m, level, tick, st0, advice, advised, exhausted);
    EarlyInv(m, startLives, noRespawn, tick, st, log);
    st := MoveKind(m, startLives, log, st, Snipe, solids);
    EarlyMoved(m, startLives, noRespawn, tick, log, solids, Snipe, advised, st);
    walked := st;
    SameSize(m, solids, Snipe, advised, walked);
    st := NoteWalls(m, startLives, log, decided.slots, st);
    noted := st;
    EarlyNoted(m, startLives, noRespawn, tick, log, decided.slots, walked, noted);
    st := ApplySnipeWeakBlock(m, startLives, log, st);
    EarlyNudged(m, startLives, noRespawn, tick, log, noted, st);
  }

  /** Steps 4.6 and 4.9: snipes emerge and everyone is sampled. */
  method EmitAndRecord(m: Maze, ghost startLives: nat, ghost noRespawn: bool, ghost log: seq<LifeEvent>, tick: nat,
                       level: Option<Level>, st0: Store)
    returns (st: Store, failed: bool, ghost emitted: Store)
    requires GoodMaze(m) && Early(m, startLives, noRespawn, tick, st0, log)
    ensures Mid(m, startLives, noRespawn, tick, st, log)
    requires level.Some? ==> LevelOK(level.value)
    ensures EmissionStage(m, level, tick, st0, emitted, failed) && RecordedStore(tick, emitted, st)
  {
    assert level.Some? ==> level.value.maxSnipes <= MAX_SNIPES;
    hide *;
    st, failed := st0, false;
    EarlyInv(m, startLives, noRespawn, tick, st0, log);
    if level.Some? {
      st, failed := RunGeneratorEmissions(m, startLives, log, level.value.maxSnipes, tick, st);
      GrewGrown(st0, st);
      EarlyGrown(m, startLives, noRespawn, tick, log, st0, st);
    }
    emitted := st;
    EmissionStageFits(m, level, tick, st0, emitted, failed);
    st := WriteHistorySamples(m, startLives, log, tick, st);
    EarlyRecorded(m, startLives, noRespawn, tick, log, emitted, st);
  }

  method HitSteps(m: Maze, ghost startLives: nat, noRespawn: bool, ghost log0: seq<LifeEvent>, tick: nat, st0: Store)
    returns (st: Store, ghost log: seq<LifeEvent>, ghost t: Flight)
    requires GoodMaze(m) && Mid(m, startLives, noRespawn, tick, st0, log0)
    ensures Mid(m, startLives, noRespawn, tick, st, log) && log0 <= log && RecordsKept(st0.players, st.players)
    ensures HitStages(m, noRespawn, tick, st0, log0, t, st)
  {
    hide *;
    MidInv(m, startLives, noRespawn, tick, st0, log0);
    InvSlab(m, startLives, st0, log0);
    var pids := CollectProjectiles(st0.slots);
    PidsFly(st0.slots, pids);
    st, log := FlyProjectiles(m, startLives, log0, noRespawn, tick, st0, pids);
    t := Flight(pids, st, log);
    st := AgeProjectiles(m, startLives, log, noRespawn, tick, st, pids);
    AgedPlayers(t.flown, pids, st);
    HitStagesFit(m, noRespawn, tick, st0, log0, t, st);
  }

  lemma HitStagesFit(m: Maze, noRespawn: bool, tick: nat, st0: Store, log0: seq<LifeEvent>, t: Flight, st: Store)
    requires ProjectileIDs(st0.slots, t.pids) && AgedStore(t.flown, t.pids, st)
    requires Flights(m, tick, noRespawn, st0, log0, t.pids, |t.pids|, t.flown, t.flownLog)
    ensures HitStages(m, noRespawn, tick, st0, log0, t, st)
  {
    hide ProjectileIDs, AgedStore, Flights;
  }

  lemma AgedPlayers(st0: Store, pids: seq<ID>, st: Store)
    requires AgedStore(st0, pids, st)
    ensures st.players == st0.players
  {
  }

  lemma PidsFly(slots: seq<Entity>, pids: seq<ID>)
    requires ProjectileIDs(slots, pids) && Unique(slots)
    ensures Flying(slots, pids) && 0 !in pids && Ascending(pids)
  {
    forall i | 0 <= i < |slots| && slots[i].id in pids
      ensures slots[i].kind == Projectile
    {
      var j :| 0 <= j < |slots| && slots[j].id == slots[i].id && slots[j].kind == Projectile;
      OneSlot(slots, i, j);
    }
  }

  lemma MidFired(m: Maze, startLives: nat, noRespawn: bool, tick: nat, log: seq<LifeEvent>, inputs: map<ID, Input>,
                 a: Store, b: Store)
    requires Mid(m, startLives, noRespawn, tick, a, log) && Inv(m, startLives, b, log) && FiredStore(a, inputs, tick, b)
    ensures Mid(m, startLives, noRespawn, tick, b, log)
  {
    FiredPending(a, inputs, tick, b, noRespawn, tick, tick + RESPAWN_TICKS);
    FiredGrown(a, inputs, tick, b);
    GrownSampled(m, startLives, log, a, b, tick);
  }

  lemma FiredGrown(a: Store, inputs: map<ID, Input>, tick: nat, b: Store)
    requires FiredStore(a, inputs, tick, b)
    ensures Grown(a, b)
  {
  }

  lemma RespawnedSampled(m: Maze, tick: nat, a: Store, b: Store, now: int)
    requires RespawnedStore(m, tick, a, b) && Sampled(a, now)
    ensures Sampled(b, now)
  {
    forall i | 0 <= i < |b.slots|
      ensures b.slots[i].id == a.slots[i].id && b.slots[i].kind == a.slots[i].kind
    {
      assert Wakes(m, tick, a, b, i);
    }
    hide Wakes, Left;
    SampledKept(a, b, now);
  }

  lemma UnshieldedSampled(tick: nat, a: Store, b: Store, now: int)
    requires UnshieldedStore(tick, a, b) && Sampled(a, now)
    ensures Sampled(b, now)
  {
    VitalSampled(a, b, now);
  }

  lemma MidParts(m: Maze, startLives: nat, noRespawn: bool, tick: nat, st: Store, log: seq<LifeEvent>)
    requires Mid(m, startLives, noRespawn, tick, st, log)
    ensures Inv(m, startLives, st, log) && Pending(st, noRespawn, tick, tick + RESPAWN_TICKS) && Sampled(st, tick)
  {
  }

  /** Steps 8 to 9: players come back, protection ends, the dead are cleared. */
  method EndSteps(m: Maze, ghost startLives: nat, noRespawn: bool, ghost log0: seq<LifeEvent>, tick: nat, st0: Store)
    returns (st: Store, ghost log: seq<LifeEvent>, ghost t: Ending)
    requires GoodMaze(m) && Mid(m, startLives, noRespawn, tick, st0, log0)
    ensures Inv(m, startLives, st, log) && log0 <= log && Settled(st, noRespawn, tick) && Sampled(st, tick)
    ensures RespawnedStore(m, tick, st0, t.respawned) && UnshieldedStore(tick, t.respawned, t.unshielded)
    ensures CollectedStore(noRespawn, t.unshielded, st)
  {
    hide *;
    MidParts(m, startLives, noRespawn, tick, st0, log0);
    st, log := RespawnPlayers(m, startLives, noRespawn, log0, tick, st0);
    ghost var respawned := st;
    RespawnedSampled(m, tick, st0, respawned, tick);
    st := ClearInvuln(m, startLives, log, tick, st);
    ghost var unshielded := st;
    UnshieldPending(tick, respawned, unshielded, noRespawn, tick + 1, tick + RESPAWN_TICKS);
    UnshieldedSampled(tick, respawned, unshielded, tick);
    st := GarbageCollect(m, startLives, log, noRespawn, st);
    CollectSettles(m, startLives, log, noRespawn, unshielded, st, tick);
    CollectSampled(m, startLives, log, noRespawn, unshielded, st, tick);
    t := Ending(st0, respawned, unshielded);
  }

  /** Steps 7 to 9; a shot that finds no ID left breaks the tick off. */
  method FinishTick(m: Maze, ghost startLives: nat, noRespawn: bool, ghost log0: seq<LifeEvent>, tick: nat, st0: Store,
                    inputs: map<ID, Input>)
    returns (st: Store, broken: bool, ghost log: seq<LifeEvent>, ghost t: Ending)
    requires GoodMaze(m) && Mid(m, startLives, noRespawn, tick, st0, log0)
    ensures Inv(m, startLives, st, log) && log0 <= log
    ensures !broken ==> Settled(st, noRespawn, tick) && Sampled(st, tick) && RecordsKept(st0.players, st.players)
    ensures !broken ==> EndStages(m, noRespawn, tick, inputs, st0, t, st)
    ensures broken <==> BrokenOff(st0, inputs, tick, t.fired)
    ensures broken ==> st == t.fired
  {
    hide *;
    log := log0;
    MidInv(m, startLives, noRespawn, tick, st0, log0);
    st, broken := FirePlayers(m, startLives, log, st0, inputs, tick);
    ghost var fired := st;
    t := Ending(fired, fired, fired);
    if !broken {
      MidFired(m, startLives, noRespawn, tick, log, inputs, st0, st);
      st, log, t := EndSteps(m, startLives, noRespawn, log, tick, st);
      t := t.(fired := fired);
      EndStagesFit(m, noRespawn, tick, inputs, st0, t, st);
      EndRecords(m, noRespawn, tick, inputs, st0, t, st);
    }
  }

  lemma EndRecords(m: Maze, noRespawn: bool, tick: nat, inputs: map<ID, Input>, st0: Store, t: Ending, st: Store)
    requires EndStages(m, noRespawn, tick, inputs, st0, t, st)
    ensures RecordsKept(st0.players, st.players)
  {
    hide Grown, PlayerShot, FiredOrNot, Wakes, Left, Unshielded, Doomed;
  }

  lemma EndStagesFit(m: Maze, noRespawn: bool, tick: nat, inputs: map<ID, Input>, st0: Store, t: Ending, st: Store)
    requires FiredStore(st0, inputs, tick, t.fired) && RespawnedStore(m, tick, t.fired, t.respawned)
    requires UnshieldedStore(tick, t.respawned, t.unshielded) && CollectedStore(noRespawn, t.unshielded, st)
    ensures EndStages(m, noRespawn, tick, inputs, st0, t, st)
  {
    hide FiredStore, RespawnedStore, UnshieldedStore, CollectedStore;
  }

  /** Steps 3 to 4.9. */
  method MoveSteps(m: Maze, ghost startLives: nat, ghost noRespawn: bool, ghost log: seq<LifeEvent>, tick: nat,
                   level: Option<Level>, st0: Store, inputs: map<ID, Input>)
    returns (st: Store, halt: bool, ghost t: Moves)
    requires GoodMaze(m) && Early(m, startLives, noRespawn, tick, st0, log) && (level.Some? ==> LevelOK(level.value))
    ensures Mid(m, startLives, noRespawn, tick, st, log) && RecordsKept(st0.players, st.players)
    ensures MoveStages(m, level, tick, inputs, st0, t, st)
    ensures halt <==> t.exhausted || t.emitFailed
  {
    assert level.Some? ==> LevelOK(level.value);
    hide *;
    ghost var steered, advice, advised, walked, noted, emitted;
    var solids, out, failed;
    st, solids, steered := MovePlayers(m, startLives, noRespawn, log, tick, st0, inputs);
    ghost var moved := st;
    st, out, advice, advised, walked, noted := MoveSnipes(m, startLives, noRespawn, log, tick, level, st, solids);
    ghost var nudged := st;
    st, failed, emitted := EmitAndRecord(m, startLives, noRespawn, log, tick, level, st);
    halt := out || failed;
    t := Moves(solids, steered, moved, advice, advised, out, walked, noted, nudged, emitted, failed);
    MoveStagesFit(m, level, tick, inputs, st0, t, st);
    MoveRecords(m, level, tick, inputs, st0, t, st);
  }

  lemma MoveRecords(m: Maze, level: Option<Level>, tick: nat, inputs: map<ID, Input>, st0: Store, t: Moves, st: Store)
    requires MoveStages(m, level, tick, inputs, st0, t, st)
    ensures RecordsKept(st0.players, st.players)
  {
    assert t.steered.players == SteerPlayers(st0, inputs, st0.players.Keys);
    hide Covers, Moved, AdvisedShots, Thoughts, MindsBy, Deciders, Denied, Nudged, Grown, EmittedStore, Starved, Grows;
  }

  lemma MoveStagesFit(m: Maze, level: Option<Level>, tick: nat, inputs: map<ID, Input>, st0: Store, t: Moves, st: Store)
    requires SteeredStore(st0, inputs, t.steered)
    requires Covers(t.steered.slots, t.solids) && MovedStore(m, t.solids, Player, t.steered, t.moved)
    requires AdviceStage(m, level, tick, t.moved, t.advice, t.advised, t.exhausted)
    requires MovedStore(m, t.solids, Snipe, t.advised, t.walked) && NotedStore(t.advised.slots, t.walked, t.noted)
    requires BlockedStore(m, t.noted, t.nudged)
    requires EmissionStage(m, level, tick, t.nudged, t.emitted, t.emitFailed)
    requires RecordedStore(tick, t.emitted, st)
    ensures MoveStages(m, level, tick, inputs, st0, t, st)
  {
    hide SteeredStore, Covers, MovedStore, AdviceStage, NotedStore, BlockedStore, EmissionStage, RecordedStore;
  }

  /** A whole tick on a store. */
  method Advance(m: Maze, ghost startLives: nat, noRespawn: bool, ghost log0: seq<LifeEvent>, tick: nat,
                 level: Option<Level>, st0: Store, inputs: map<ID, Input>)
    returns (st: Store, halt: bool, broken: bool, ghost log: seq<LifeEvent>, ghost t: Stages)
    requires GoodMaze(m) && Early(m, startLives, noRespawn, tick, st0, log0) && (level.Some? ==> LevelOK(level.value))
    ensures Inv(m, startLives, st, log) && log0 <= log
    ensures !broken ==> Settled(st, noRespawn, tick) && Sampled(st, tick) && RecordsKept(st0.players, st.players)
    ensures AllStages(m, noRespawn, level, tick, inputs, st0, log0, !broken, t, st)
    ensures halt <==> t.moves.exhausted || t.moves.emitFailed
  {
    hide Early, Mid, Inv, MoveStages, HitStages, EndStages, RecordsKept, Settled, Sampled, GoodMaze, LevelOK;
    ghost var moves, flight, ending;
    var r, a;
    r, halt, moves := MoveSteps(m, startLives, noRespawn, log0, tick, level, st0, inputs);
    a, log, flight := HitSteps(m, startLives, noRespawn, log0, tick, r);
    RecordsChain(st0.players, r.players, a.players);
    st, broken, log, ending := FinishTick(m, startLives, noRespawn, log, tick, a, inputs);
    if !broken { RecordsChain(st0.players, a.players, st.players); }
    t := Stages(moves, r, flight, a, ending);
  }

  // ---- the simulation ----

  lemma RestEarly(m: Maze, startLives: nat, noRespawn: bool, level: Option<Level>, st: Store, tick: nat,
                  log: seq<LifeEvent>)
    requires Rest(m, startLives, noRespawn, level, st, tick, false, log)
    ensures GoodMaze(m) && Early(m, startLives, noRespawn, tick + 1, st, log) && (level.Some? ==> LevelOK(level.value))
  {
    SettledPending(st, noRespawn, tick);
    hide Inv, Sampled;
    WiderPending(st, noRespawn, tick + 1, tick + RESPAWN_TICKS, tick + 1 + RESPAWN_TICKS);
  }

  lemma RestCapped(m: Maze, startLives: nat, noRespawn: bool, level: Option<Level>, st: Store, tick: nat,
                   log: seq<LifeEvent>)
    requires Rest(m, startLives, noRespawn, level, st, tick, false, log)
    ensures Population(st.slots, Snipe) <= CapOf(level)
  {
  }

  lemma HaltedOut(st: Store, quiesced: bool)
    requires quiesced ==> st.nextID >= MAX_ID
    ensures quiesced ==> NoIDsLeft(st)
  {
  }

  lemma HaltsIs(t: Stages)
    ensures Halts(Some(t)) <==> t.moves.exhausted || t.moves.emitFailed
  {
  }

  lemma WiderPending(st: Store, noRespawn: bool, from: int, upTo: int, later: int)
    requires Pending(st, noRespawn, from, upTo) && upTo <= later
    ensures Pending(st, noRespawn, from, later)
  {
    forall i | 0 <= i < |st.slots|
      ensures Waits(st, noRespawn, from, later, st.slots[i])
    {
      assert Waits(st, noRespawn, from, upTo, st.slots[i]);
    }
  }

  lemma RestAgain(m: Maze, startLives: nat, noRespawn: bool, level: Option<Level>, st: Store, tick: nat, quiesced: bool,
                  log: seq<LifeEvent>)
    requires GoodMaze(m) && (level.Some? ==> LevelOK(level.value)) && Inv(m, startLives, st, log)
    requires Population(st.slots, Snipe) <= CapOf(level)
    requires if quiesced then NoIDsLeft(st) else Settled(st, noRespawn, tick) && Sampled(st, tick)
    ensures Rest(m, startLives, noRespawn, level, st, tick, quiesced, log)
  {
  }

  class Sim {
    const m: Maze
    const startLives: nat
    const noRespawn: bool
    const level: Option<Level>
    var store: Store
    var serverTick: nat
    var quiesced: bool
    ghost var log: seq<LifeEvent>

    ghost predicate Valid()
      reads this
    {
      Rest(m, startLives, noRespawn, level, store, serverTick, quiesced, log)
    }

    constructor (m: Maze, startLives: nat, noRespawn: bool, level: Option<Level>, store: Store)
      requires Rest(m, startLives, noRespawn, level, store, 0, false, [])
      ensures Valid() && !quiesced && serverTick == 0 && log == []
      ensures this.m == m && this.startLives == startLives && this.noRespawn == noRespawn && this.level == level
              && this.store == store
    {
      this.m, this.startLives, this.noRespawn, this.level, this.store := m, startLives, noRespawn, level, store;
      serverTick, quiesced, log := 0, false, [];
    }

    /**
     A simulation on a freshly generated maze: players on its spawns, generators on its generator tiles in row-major
     order. A valid configuration fails only if no maze could be made.
     */
    static method NewSim(cfg: Config) returns (s: Sim?, err: Option<SimError>)
      ensures s == null <==> err.Some?
      ensures s != null ==> fresh(s) && s.Valid() && !s.quiesced && s.serverTick == 0 && s.log == []
      ensures s != null ==>
                ValidConfig(cfg) && s.startLives == StartLives(cfg) && s.noRespawn == cfg.noRespawn
                  && s.level == LevelOf(cfg)
      ensures s != null ==> exists a: M.Attempt, gens: seq<MazeCarve.Cell>, base: ID ::
                Started(cfg, a, gens, base, s.m, s.store)
      ensures err.Some? ==> if ValidConfig(cfg) then err.value == MazeFailed else Complaint(cfg, err.value)
    {
      s := null;
      err := ValidateConfig(cfg);
      if err.Some? {
        return;
      }
      hide *;
      ValidHasPlayers(cfg);
      var a := M.GenerateMaze(cfg.width, cfg.height, |cfg.playerIDs|, cfg.noGenerators);
      if a.Failed? {
        return null, Some(MazeFailed);
      }
      var gens := SortRowMajor(a.gens, cfg.width);
      FewGenerators(|cfg.playerIDs|, M.GridOf(cfg.width, cfg.height), cfg.noGenerators);
      MadeFor(M.GridOf(cfg.width, cfg.height), a, |cfg.playerIDs|);
      var st;
      ghost var base;
      st, base := BuildStore(cfg, a.spawns, gens);
      StartRests(cfg, M.GridOf(cfg.width, cfg.height), a, gens, base, st);
      StartedBy(cfg, a, gens, base, st);
      s := new Sim(a.maze, StartLives(cfg), cfg.noRespawn, LevelOf(cfg), st);
    }

    /**
     One tick. It succeeds unless the simulation has halted, IDs run short before it, or a player's shot finds none
     left. It halts exactly on a failure, or when a snipe's shot or an emission finds no ID left; from then on every
     tick fails.
     */
    method Tick(inputs: seq<PlayerInput>) returns (ok: bool, ghost t: Option<Stages>)
      requires Valid()
      modifies this`store, this`serverTick, this`quiesced, this`log
      ensures Valid() && old(log) <= log
      ensures quiesced <==> !ok || (t.Some? && (t.value.moves.exhausted || t.value.moves.emitFailed))
      ensures Ticked(m, noRespawn, level, inputs, old(store), old(serverTick), old(quiesced), old(log), ok, t, store,
                     serverTick)
      ensures ok ==> Settled(store, noRespawn, serverTick) && Sampled(store, serverTick)
      ensures ok ==> RecordsKept(old(store).players, store.players)
    {
      hide Rest, Ticked, Settled, Sampled, RecordsKept;
      ghost var log';
      ok, store, serverTick, quiesced, log',
        t := TickStore(m, startLives, noRespawn, level, inputs, store, serverTick, quiesced, log);
      log := log';
    }

    /** A disconnected player stands still and forgets its turbo lock. */
    method FreezePlayer(id: ID)
      requires Valid()
      modifies this`store
      ensures Valid() && store == Frozen(old(store), id)
      ensures |store.slots| == |old(store).slots| && store.players.Keys == old(store).players.Keys
      ensures forall i | 0 <= i < |store.slots| ::
                store.slots[i] == if old(store).slots[i].id == id != 0 && old(store).slots[i].kind == Player
                                  then old(store).slots[i].(vx := 0, vy := 0) else old(store).slots[i]
      ensures forall p | p in store.players ::
                store.players[p] == if p == id then old(store).players[p].(fireCooldown := 0, lastDir := Idle)
                                    else old(store).players[p]
      ensures store == old(store).(slots := store.slots, players := store.players)
    {
      FrozenMeans(store, id);
      hide Rest, Frozen;
      var st := store;
      var idx := FindByID(st.slots, id);
      FrozenRests(m, startLives, noRespawn, level, st, serverTick, quiesced, log, id);
      FrozenIs(m, startLives, noRespawn, level, st, serverTick, quiesced, log, id, idx);
      if idx >= 0 && st.slots[idx].kind == Player && id != 0 {
        st := st.(slots := st.slots[idx := st.slots[idx].(vx := 0, vy := 0)]);
      }
      if id in st.players {
        st := st.(players := st.players[id := st.players[id].(fireCooldown := 0, lastDir := Idle)]);
      }
      store := st;
    }

    /** A player whose grace has run out leaves entirely; its history lingers until pruned. */
    method RemovePlayer(id: ID)
      requires Valid() && id != 0
      modifies this`store
      ensures Valid()
      ensures !Present(old(store).slots, id) ==> store == old(store)
      ensures forall k | 0 <= k < |old(store).slots| && old(store).slots[k].id == id :: store == Removed(old(store), k)
    {
      hide Rest, Removed;
      RestInv(m, startLives, noRespawn, level, store, serverTick, quiesced, log);
      RemovedRests(m, startLives, noRespawn, level, store, serverTick, quiesced, log, id);
      var st := Remove(m, startLives, log, store, id);
      store := st;
    }
  }

  lemma RestInv(m: Maze, startLives: nat, noRespawn: bool, level: Option<Level>, st: Store, tick: nat, quiesced: bool,
                log: seq<LifeEvent>)
    requires Rest(m, startLives, noRespawn, level, st, tick, quiesced, log)
    ensures Inv(m, startLives, st, log) && Unique(st.slots)
  {
  }

  ghost function FrozenSlots(slots: seq<Entity>, id: ID): seq<Entity> {
    seq(|slots|, i requires 0 <= i < |slots| =>
      if slots[i].id == id && IsPlayer(slots[i]) then slots[i].(vx := 0, vy := 0) else slots[i])
  }

  function FrozenPlayers(players: map<ID, PlayerState>, id: ID): map<ID, PlayerState> {
    if id in players then players[id := players[id].(fireCooldown := 0, lastDir := Idle)] else players
  }

  ghost function Frozen(st: Store, id: ID): Store {
    st.(slots := FrozenSlots(st.slots, id),
        players := FrozenPlayers(st.players, id))
  }

  lemma FrozenMeans(st: Store, id: ID)
    ensures var st' := Frozen(st, id);
            && |st'.slots| == |st.slots| && st'.players.Keys == st.players.Keys
            && (forall i | 0 <= i < |st'.slots| ::
                  st'.slots[i] == if st.slots[i].id == id != 0 && st.slots[i].kind == Player
                                  then st.slots[i].(vx := 0, vy := 0) else st.slots[i])
            && (forall p | p in st'.players ::
                  st'.players[p] == if p == id then st.players[p].(fireCooldown := 0, lastDir := Idle)
                                    else st.players[p])
            && st' == st.(slots := st'.slots, players := st'.players)
  {
  }

  lemma FrozenIs(m: Maze, startLives: nat, noRespawn: bool, level: Option<Level>, st: Store, tick: nat, quiesced: bool,
                 log: seq<LifeEvent>, id: ID, idx: int)
    requires Rest(m, startLives, noRespawn, level, st, tick, quiesced, log)
    requires -1 <= idx < |st.slots| && if idx < 0 then !Present(st.slots, id) else st.slots[idx].id == id
    ensures var slots := if idx >= 0 && st.slots[idx].kind == Player && id != 0 then
                           st.slots[idx := st.slots[idx].(vx := 0, vy := 0)] else st.slots;
            Frozen(st, id) == st.(slots := slots, players := FrozenPlayers(st.players, id))
  {
    RestInv(m, startLives, noRespawn, level, st, tick, quiesced, log);
    hide Rest, Unique;
    forall i | 0 <= i < |st.slots| && st.slots[i].id == id != 0
      ensures i == idx
    {
      assert Present(st.slots, id);
      OneSlot(st.slots, i, idx);
    }
    var slots := if idx >= 0 && st.slots[idx].kind == Player && id != 0 then
                   st.slots[idx := st.slots[idx].(vx := 0, vy := 0)] else st.slots;
    assert FrozenSlots(st.slots, id) == slots;
  }

  /**
   The effect of a tick: nothing when it is refused at the start, otherwise every stage in turn on a player's last
   input each.
   */
  ghost predicate Ticked(m: Maze, noRespawn: bool, level: Option<Level>, inputs: seq<PlayerInput>, st0: Store,
                         tick0: nat, quiesced0: bool, log0: seq<LifeEvent>, ok: bool, t: Option<Stages>, st: Store,
                           tick: nat) {
    if quiesced0 || st0.nextID + LivePlayers(st0.slots) > MAX_ID then !ok && st == st0 && tick == tick0
    else
      && tick == tick0 + 1 && t.Some?
      && exists im: map<ID, Input> ::
           InputMap(inputs, im) && AllStages(m, noRespawn, level, tick, im, st0, log0, ok, t.value, st)
  }

  method TickStore(m: Maze, ghost startLives: nat, noRespawn: bool, level: Option<Level>, inputs: seq<PlayerInput>,
                   st0: Store, tick0: nat, quiesced0: bool, ghost log0: seq<LifeEvent>)
    returns (ok: bool, st: Store, tick: nat, quiesced: bool, ghost log: seq<LifeEvent>, ghost t: Option<Stages>)
    requires Rest(m, startLives, noRespawn, level, st0, tick0, quiesced0, log0)
    ensures Rest(m, startLives, noRespawn, level, st, tick, quiesced, log) && log0 <= log
            && (quiesced <==> !ok || Halts(t))
    ensures Ticked(m, noRespawn, level, inputs, st0, tick0, quiesced0, log0, ok, t, st, tick)
    ensures ok ==> Settled(st, noRespawn, tick) && Sampled(st, tick) && RecordsKept(st0.players, st.players)
  {
    hide *;
    ok, st, tick, quiesced, log, t := false, st0, tick0, quiesced0, log0, None;
    var live := CountLivePlayers(st0.slots);
    if quiesced0 || st0.nextID + live > MAX_ID {
      HaltRests(m, startLives, noRespawn, level, st0, tick0, quiesced0, log0);
      quiesced := true;
      NotTicked(m, noRespawn, level, inputs, st0, tick0, quiesced0, log0, t);
      return;
    }
    var im := BuildInputs(inputs);
    RestEarly(m, startLives, noRespawn, level, st0, tick0, log0);
    tick := tick0 + 1;
    var halt, broken;
    ghost var stages;
    st, halt, broken, log, stages := Advance(m, startLives, noRespawn, log0, tick, level, st0, im);
    ok, quiesced, t := !broken, halt || broken, Some(stages);
    EarlyInv(m, startLives, noRespawn, tick, st0, log0);
    RestCapped(m, startLives, noRespawn, level, st0, tick0, log0);
    StagesCapped(m, noRespawn, level, tick, im, st0, log0, ok, stages, st);
    StagesIDs(m, noRespawn, level, tick, im, st0, log0, ok, stages, st);
    HaltsIs(stages);
    HaltedOut(st, quiesced);
    RestAgain(m, startLives, noRespawn, level, st, tick, quiesced, log);
    TickedBy(m, noRespawn, level, inputs, im, st0, tick0, log0, ok, stages, st);
  }

  lemma NotTicked(m: Maze, noRespawn: bool, level: Option<Level>, inputs: seq<PlayerInput>, st0: Store, tick0: nat,
                  quiesced0: bool, log0: seq<LifeEvent>, t: Option<Stages>)
    requires quiesced0 || st0.nextID + LivePlayers(st0.slots) > MAX_ID
    ensures Ticked(m, noRespawn, level, inputs, st0, tick0, quiesced0, log0, false, t, st0, tick0)
  {
  }

  lemma TickedBy(m: Maze, noRespawn: bool, level: Option<Level>, inputs: seq<PlayerInput>, im: map<ID, Input>,
                 st0: Store, tick0: nat, log0: seq<LifeEvent>, ok: bool, t: Stages, st: Store)
    requires st0.nextID + LivePlayers(st0.slots) <= MAX_ID && InputMap(inputs, im)
    requires AllStages(m, noRespawn, level, tick0 + 1, im, st0, log0, ok, t, st)
    ensures Ticked(m, noRespawn, level, inputs, st0, tick0, false, log0, ok, Some(t), st, tick0 + 1)
  {
    hide AllStages, InputMap, LivePlayers;
  }

  lemma HaltRests(m: Maze, startLives: nat, noRespawn: bool, level: Option<Level>, st: Store, tick: nat, quiesced: bool,
                  log: seq<LifeEvent>)
    requires Rest(m, startLives, noRespawn, level, st, tick, quiesced, log)
    requires quiesced || st.nextID + LivePlayers(st.slots) > MAX_ID
    ensures Rest(m, startLives, noRespawn, level, st, tick, true, log)
  {
    LivePlayersCounted(st.slots);
  }

  lemma {:induction false} LivePlayersCounted(slots: seq<Entity>)
    ensures LivePlayers(slots) <= Population(slots, Player)
  {
    if slots != [] {
      LivePlayersCounted(slots[..|slots| - 1]);
    }
  }

  lemma FrozenKeeps(m: Maze, startLives: nat, st: Store, log: seq<LifeEvent>, id: ID)
    requires Inv(m, startLives, st, log)
    ensures Inv(m, startLives, Frozen(st, id), log)
  {
    var st1 := st.(slots := FrozenSlots(st.slots, id));
    if idx :| 0 <= idx < |st.slots| && st.slots[idx].id == id && IsPlayer(st.slots[idx]) {
      var e := st.slots[idx].(vx := 0, vy := 0);
      assert Standing(m, st.slots[idx]);
      assert forall j | 0 <= j < |st.slots| :: NoClash(st.slots[idx], st.slots[j]);
      UpdateKeeps(m, startLives, st, log, idx, e);
      forall i | 0 <= i < |st.slots| && i != idx
        ensures FrozenSlots(st.slots, id)[i] == st.slots[i]
      {
        if st.slots[i].id == id { OneSlot(st.slots, i, idx); }
      }
      assert FrozenSlots(st.slots, id) == st.slots[idx := e];
    } else {
      assert FrozenSlots(st.slots, id) == st.slots;
    }
    hide Inv;
    if id in st.players {
      PlayerKeeps(m, startLives, st1, log, id, st.players[id].(fireCooldown := 0, lastDir := Idle));
    }
  }

  lemma FrozenRests(m: Maze, startLives: nat, noRespawn: bool, level: Option<Level>, st: Store, tick: nat,
                    quiesced: bool, log: seq<LifeEvent>, id: ID)
    requires Rest(m, startLives, noRespawn, level, st, tick, quiesced, log)
    ensures Rest(m, startLives, noRespawn, level, Frozen(st, id), tick, quiesced, log)
  {
    FrozenKeeps(m, startLives, st, log, id);
    hide Inv, GoodMaze;
    var st' := Frozen(st, id);
    assert forall i | 0 <= i < |st.slots| :: SameVital(st.slots[i], st'.slots[i]);
    NoMoreOf(st.slots, st'.slots, Snipe);
    if !quiesced { VitalSampled(st, st', tick); }
  }

  lemma RemovedRests(m: Maze, startLives: nat, noRespawn: bool, level: Option<Level>, st: Store, tick: nat,
                     quiesced: bool, log: seq<LifeEvent>, id: ID)
    requires Rest(m, startLives, noRespawn, level, st, tick, quiesced, log) && id != 0
    ensures forall k | 0 <= k < |st.slots| && st.slots[k].id == id ::
              Rest(m, startLives, noRespawn, level, Removed(st, k), tick, quiesced, log)
  {
    forall k | 0 <= k < |st.slots| && st.slots[k].id == id
      ensures Rest(m, startLives, noRespawn, level, Removed(st, k), tick, quiesced, log)
    {
      RemovedOneRests(m, startLives, noRespawn, level, st, tick, quiesced, log, k);
    }
  }

  lemma RemovedOneRests(m: Maze, startLives: nat, noRespawn: bool, level: Option<Level>, st: Store, tick: nat,
                        quiesced: bool, log: seq<LifeEvent>, k: int)
    requires Rest(m, startLives, noRespawn, level, st, tick, quiesced, log) && 0 <= k < |st.slots|
             && st.slots[k].id != 0
    ensures Rest(m, startLives, noRespawn, level, Removed(st, k), tick, quiesced, log)
  {
    var st' := Removed(st, k);
    RemoveKeeps(m, startLives, st, st', log, k);
    ZeroHasNone(m, startLives, st, log);
    RestInv(m, startLives, noRespawn, level, st, tick, quiesced, log);
    NoMoreOf(st.slots, st'.slots, Snipe);
    hide Inv, GoodMaze, LevelOK, Population, Traced;
    if !quiesced {
      SampledKept(st, st', tick);
      forall i | 0 <= i < |st.slots| && i != k && st.slots[i].id != 0
        ensures st.slots[i].id != st.slots[k].id
      {
        if st.slots[i].id == st.slots[k].id { OneSlot(st.slots, i, k); }
      }
    }
  }

  // ---- what every state between ticks has ----

  /** Live players and snipes and all projectiles are clear of walls, and no live player overlaps a live generator. */
  lemma NobodyStuck(m: Maze, startLives: nat, noRespawn: bool, level: Option<Level>, st: Store, tick: nat,
                    quiesced: bool, log: seq<LifeEvent>, i: int, j: int)
    requires Rest(m, startLives, noRespawn, level, st, tick, quiesced, log) && 0 <= i < |st.slots|
             && 0 <= j < |st.slots|
    ensures Live(st.slots[i]) && st.slots[i].kind != Generator ==>
              Free(AlongX(m), st.slots[i].x, st.slots[i].y, HalfExt(st.slots[i].kind))
    ensures Live(st.slots[i]) && st.slots[i].kind == Player && Live(st.slots[j]) && st.slots[j].kind == Generator ==>
              !Overlaps(BoxOf(st.slots[i]), BoxOf(st.slots[j]))
  {
    assert Standing(m, st.slots[i]) && NoClash(st.slots[i], st.slots[j]);
  }

  /**
   Each kind keeps within its limit, so the slab always has a free slot; and only the end of the IDs halts the
   simulation.
   */
  lemma NeverCrowded(m: Maze, startLives: nat, noRespawn: bool, level: Option<Level>, st: Store, tick: nat,
                     quiesced: bool, log: seq<LifeEvent>)
    requires Rest(m, startLives, noRespawn, level, st, tick, quiesced, log)
    ensures Population(st.slots, Player) <= 8 && Population(st.slots, Generator) <= 9
            && Population(st.slots, Projectile) <= 64
    ensures Population(st.slots, Snipe) <= (if level.None? then 0 else level.value.maxSnipes) <= 54
    ensures exists i | 0 <= i < |st.slots| :: st.slots[i].id == 0
    ensures quiesced ==> st.nextID + 8 > MAX_ID
  {
    NeverFull(m, startLives, st, log);
  }

  /** Lives, score and elimination are what the record says. */
  lemma AccountsAgree(m: Maze, startLives: nat, noRespawn: bool, level: Option<Level>, st: Store, tick: nat,
                      quiesced: bool, log: seq<LifeEvent>, p: ID)
    requires Rest(m, startLives, noRespawn, level, st, tick, quiesced, log) && p in st.players
    ensures st.players[p].lives == startLives - Deaths(log, p)
    ensures st.players[p].score == 25 * Kills(log, p, Player) + 10 * Kills(log, p, Generator) + Kills(log, p, Snipe)
            - 5 * Deaths(log, p)
    ensures st.players[p].eliminated <==> st.players[p].lives == 0
  {
    assert Account(log, startLives, p, st.players[p]);
  }

  /** No entity is killed twice without respawning in between. */
  lemma KilledOnce(m: Maze, startLives: nat, noRespawn: bool, level: Option<Level>, st: Store, tick: nat,
                   quiesced: bool, log: seq<LifeEvent>, i: int, j: int)
    requires Rest(m, startLives, noRespawn, level, st, tick, quiesced, log) && 0 <= i < j < |log|
    requires log[i].Killed? && log[j].Killed? && log[i].victim == log[j].victim
    ensures exists k | i < k < j :: log[k] == Respawned(log[i].victim)
  {
    RespawnBetween(log, i, j);
  }

  lemma {:induction false} MoreDeaths(log: seq<LifeEvent>, more: seq<LifeEvent>, p: ID)
    requires log <= more
    ensures Deaths(log, p) <= Deaths(more, p)
    decreases |more|
  {
    if |log| < |more| {
      MoreDeaths(log, more[..|more| - 1], p);
    } else {
      assert log == more;
    }
  }

  /** Out is out: an eliminated player is eliminated in every later state that still knows it. */
  lemma OutForGood(m: Maze, startLives: nat, noRespawn: bool, level: Option<Level>, st: Store, tick: nat,
                   quiesced: bool, log: seq<LifeEvent>, st': Store, tick': nat, quiesced': bool, log': seq<LifeEvent>,
                     p: ID)
    requires Rest(m, startLives, noRespawn, level, st, tick, quiesced, log)
    requires Rest(m, startLives, noRespawn, level, st', tick', quiesced', log')
    requires log <= log' && p in st.players && p in st'.players && st.players[p].eliminated
    ensures st'.players[p].eliminated && st'.players[p].lives == 0
  {
    AccountsAgree(m, startLives, noRespawn, level, st, tick, quiesced, log, p);
    AccountsAgree(m, startLives, noRespawn, level, st', tick', quiesced', log', p);
    MoreDeaths(log, log', p);
  }

  // ---- the start ----

  ghost predicate Started(cfg: Config, a: M.Attempt, gens: seq<MazeCarve.Cell>, base: ID, m: Maze, st: Store) {
    && ValidConfig(cfg) && a.Made? && M.WellMade(M.GridOf(cfg.width, cfg.height), a, |cfg.playerIDs|) && m == a.maze
    && multiset(gens) == multiset(a.gens) && RowMajor(gens, cfg.width)
    && Opening(cfg.playerIDs, a.spawns, gens, GeneratorHP(cfg), StartLives(cfg), base, st)
    && base - 1 in cfg.playerIDs && Roster(cfg.playerIDs, base)
    && Timed(cfg.letter != 0, base, |gens|, st.generators)
    && |a.gens| == M.GeneratorCount(|cfg.playerIDs|, M.GridOf(cfg.width, cfg.height), cfg.noGenerators)
    && m.W == cfg.width && m.H == cfg.height
  }

  lemma StartedBy(cfg: Config, a: M.Attempt, gens: seq<MazeCarve.Cell>, base: ID, st: Store)
    requires ValidConfig(cfg) && a.Made? && M.WellMade(M.GridOf(cfg.width, cfg.height), a, |cfg.playerIDs|)
    requires multiset(gens) == multiset(a.gens) && RowMajor(gens, cfg.width)
    requires Opening(cfg.playerIDs, a.spawns, gens, GeneratorHP(cfg), StartLives(cfg), base, st)
    requires base - 1 in cfg.playerIDs && Roster(cfg.playerIDs, base)
    requires Timed(cfg.letter != 0, base, |gens|, st.generators)
    requires |a.gens| == M.GeneratorCount(|cfg.playerIDs|, M.GridOf(cfg.width, cfg.height), cfg.noGenerators)
    requires a.maze.W == cfg.width && a.maze.H == cfg.height
    ensures Started(cfg, a, gens, base, a.maze, st)
  {
  }

  lemma ValidHasPlayers(cfg: Config)
    requires ValidConfig(cfg)
    ensures 0 < |cfg.playerIDs| <= MAX_PLAYERS && cfg.width >= 0 && cfg.height >= 0
            && ValidLevel(cfg.letter, cfg.number)
  {
  }

  lemma MadeFor(g: MazeCarve.Size, a: M.Attempt, n: nat)
    requires a.Made? && M.WellMade(g, a, n)
    ensures |a.spawns| == n
  {
  }

  lemma StartRests(cfg: Config, g: MazeCarve.Size, a: M.Attempt, gens: seq<MazeCarve.Cell>, base: ID, st: Store)
    requires a.Made? && M.WellMade(g, a, |cfg.playerIDs|) && multiset(gens) == multiset(a.gens)
    requires ValidLevel(cfg.letter, cfg.number)
    requires Opening(cfg.playerIDs, a.spawns, gens, GeneratorHP(cfg), StartLives(cfg), base, st)
    requires Roster(cfg.playerIDs, base) && st.nextID <= MAX_ID
    requires |cfg.playerIDs| <= MAX_PLAYERS && |gens| <= MAX_GENERATORS
    ensures Rest(a.maze, StartLives(cfg), cfg.noRespawn, LevelOf(cfg), st, 0, false, [])
  {
    var hp := GeneratorHP(cfg);
    LevelInBounds(cfg);
    MazePlaces(g, a, |cfg.playerIDs|);
    PlacedPermuted(a.maze, a.spawns, a.gens, gens);
    hide GoodMaze, Placed, M.WellMade;
    OpeningIdentity(cfg.playerIDs, a.spawns, gens, hp, StartLives(cfg), base, st);
    OpeningSafe(a.maze, cfg.playerIDs, a.spawns, gens, hp, StartLives(cfg), base, st);
    OpeningBooks(cfg.playerIDs, a.spawns, gens, hp, StartLives(cfg), base, st);
    NobodyDead(cfg.playerIDs, a.spawns, gens, hp, StartLives(cfg), base, st, cfg.noRespawn);
    OpeningPeopled(cfg.playerIDs, a.spawns, gens, hp, StartLives(cfg), base, st);
    hide Identity, Safe, Books, Settled, Opening, Peopled;
    assert Inv(a.maze, StartLives(cfg), st, []);
  }

  lemma NobodyDead(ids: seq<ID>, spawns: seq<MazeCarve.Cell>, gens: seq<MazeCarve.Cell>, hp: nat, lives: nat, base: ID,
                   st: Store, noRespawn: bool)
    requires Opening(ids, spawns, gens, hp, lives, base, st)
    ensures Settled(st, noRespawn, 0) && Sampled(st, 0)
  {
    forall i: nat | i < |st.slots|
      ensures !st.slots[i].flags.dead
    {
      assert st.slots[i] == OpeningSlot(ids, spawns, gens, hp, base, i);
    }
  }
}
