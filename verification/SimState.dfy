/** The state of the simulation and what every step of a tick keeps. */
module SimState {
  import opened Grid
  import opened Physics
  import opened Entities
  import opened Slab
  import opened History
  import opened Ledger

  const RESPAWN_TICKS := 90

  datatype PlayerState = PlayerState(
    fireCooldown: nat, lastDir: Dir, lastInputTick: nat,
    respawnAt: nat, hasRespawnAt: bool,
    lives: nat, score: int, spawnInvulnUntil: nat, eliminated: bool,
    deathX: int, deathY: int)

  datatype ProjState = ProjState(lifetime: nat, shooter: ID, owtTicks: nat)
  datatype Mood = Resting | Patrolling | Chasing | Attacking

  /** What a snipe remembers from tick to tick. */
  datatype Mind = Mind(mood: Mood, timer: nat, patrolDir: Dir, path: seq<(int, int)>, target: ID, lostTicks: nat,
                       fireCooldown: nat, wallBlocked: bool)

  const NEWBORN := Mind(Resting, 0, Idle, [], 0, 0, 0, false)

  datatype SnipeState = SnipeState(parent: ID, spawnTick: nat, mind: Mind)
  datatype GenState = GenState(cooldown: nat, rotation: nat)

  /** The slab and its sidecar maps; a history is the log of samples its ring has been given since the last reset. */
  datatype Store = Store(
    slots: seq<Entity>,
    players: map<ID, PlayerState>,
    projectiles: map<ID, ProjState>,
    snipes: map<ID, SnipeState>,
    generators: map<ID, GenState>,
    histories: map<ID, seq<Sample>>,
    nextID: nat)

  predicate Live(e: Entity) { e.id != 0 && !e.flags.dead }
  predicate IsPlayer(e: Entity) { e.id != 0 && e.kind == Player }

  // ---- identity ----

  ghost predicate Identity(st: Store) {
    && |st.slots| == MAX_ENTITIES && Unique(st.slots)
    && 0 < st.nextID <= MAX_ID
    && (forall i | 0 <= i < |st.slots| :: Registered(st, st.slots[i]))
    && (forall p | p in st.players :: 0 < p < st.nextID)
    && (forall p | p in st.histories :: 0 < p < st.nextID)
    && (forall p | p in st.projectiles :: 0 < p < st.nextID)
    && (forall p | p in st.snipes :: 0 < p < st.nextID)
  }

  /** An occupied slot has a known kind and the sidecar its kind needs. */
  predicate Registered(st: Store, e: Entity) {
    e.id != 0 ==>
      && e.id < st.nextID && e.kind != NoKind
      && (e.kind == Player <==> e.id in st.players)
      && (e.kind == Projectile ==> e.id in st.projectiles && !e.flags.dead)
  }

  // ---- geometry ----

  /** Slow enough for a sweep, and clear of walls if it is a live player, a live snipe or a projectile. */
  ghost predicate Standing(m: Maze, e: Entity) {
    e.id != 0 ==>
      && -SUBTILE < e.vx < SUBTILE && -SUBTILE < e.vy < SUBTILE
      && (e.kind == Generator ==> IsGenerator(BoxOf(e)))
      && (e.kind != Generator && !e.flags.dead ==> Free(AlongX(m), e.x, e.y, HalfExt(e.kind)))
  }

  /** A live player and a live generator never overlap. */
  predicate NoClash(a: Entity, b: Entity) {
    Live(a) && a.kind == Player && Live(b) && b.kind == Generator ==> !Overlaps(BoxOf(a), BoxOf(b))
  }

  predicate GeneratorsApart(a: Entity, b: Entity) {
    a.id != 0 && a.kind == Generator && b.id != 0 && b.kind == Generator ==> Apart(BoxOf(a), BoxOf(b))
  }

  ghost predicate Safe(m: Maze, slots: seq<Entity>) {
    && (forall i | 0 <= i < |slots| :: Standing(m, slots[i]))
    && (forall i, j | 0 <= i < |slots| && 0 <= j < |slots| :: NoClash(slots[i], slots[j]))
    && (forall i, j | 0 <= i < j < |slots| :: GeneratorsApart(slots[i], slots[j]))
  }

  // ---- lives and scores ----

  /** One player's account agrees with the record. */
  ghost predicate Account(log: seq<LifeEvent>, startLives: nat, p: ID, ps: PlayerState) {
    && ps.lives == startLives - Deaths(log, p)
    && ps.score == Score(log, p)
    && (ps.eliminated <==> ps.lives == 0)
    && (ps.hasRespawnAt ==> ps.lives > 0)
  }

  /** An occupied slot is flagged dead exactly when the record says so, and a live player has lives left. */
  ghost predicate Vitals(st: Store, log: seq<LifeEvent>, e: Entity) {
    e.id != 0 ==>
      && (e.flags.dead <==> !AliveIn(log, e.id))
      && (e.kind == Player && e.id in st.players && !e.flags.dead ==> st.players[e.id].lives > 0)
  }

  ghost predicate Books(st: Store, log: seq<LifeEvent>, startLives: nat) {
    && OnceALife(log)
    && (forall i | 0 <= i < |log| && log[i].Killed? :: log[i].victim < st.nextID)
    && (forall p | p in st.players :: Account(log, startLives, p, st.players[p]))
    && (forall i | 0 <= i < |st.slots| :: Vitals(st, log, st.slots[i]))
  }

  /** A dead player in the slab waits for a respawn due between these ticks, unless it is out for good. */
  ghost predicate Waits(st: Store, noRespawn: bool, from: int, upTo: int, e: Entity) {
    IsPlayer(e) && e.flags.dead && e.id in st.players && !noRespawn ==>
      var ps := st.players[e.id];
      ps.eliminated || (ps.hasRespawnAt && from <= ps.respawnAt <= upTo)
  }

  ghost predicate Pending(st: Store, noRespawn: bool, from: int, upTo: int) {
    forall i | 0 <= i < |st.slots| :: Waits(st, noRespawn, from, upTo, st.slots[i])
  }

  // ---- histories ----

  function HistoryOf(h: map<ID, seq<Sample>>, id: ID): seq<Sample> {
    if id in h then h[id] else []
  }

  /** One sample a tick, the newest at `now`. */
  ghost predicate Consecutive(log: seq<Sample>, now: int) {
    forall i: nat | i < |log| :: Nth(log, i).tick == now - i
  }

  /** A slab entity's history runs tick by tick up to `now`, or is empty, and is all of its own kind. */
  ghost predicate Sampled(st: Store, now: int) {
    forall i | 0 <= i < |st.slots| && st.slots[i].id in st.histories ::
      Traced(st.histories[st.slots[i].id], st.slots[i].kind, now)
  }

  ghost predicate Traced(log: seq<Sample>, kind: Kind, now: int) {
    Consecutive(log, now) && forall i | 0 <= i < |log| :: log[i].kind == kind
  }

  // ---- population ----

  const MAX_PLAYERS := 8
  const MAX_GENERATORS := MAX_PLAYERS + 1
  const MAX_SNIPES := 54
  const MAX_IN_FLIGHT := 64

  /** Few enough of every kind. */
  predicate Peopled(slots: seq<Entity>) {
    && Population(slots, Player) <= MAX_PLAYERS && Population(slots, Generator) <= MAX_GENERATORS
    && Population(slots, Snipe) <= MAX_SNIPES && Population(slots, Projectile) <= MAX_IN_FLIGHT
  }

  /** A newcomer is one of a kind that has not reached its limit. */
  predicate HasRoomFor(slots: seq<Entity>, kind: Kind) {
    && (kind == Player ==> Population(slots, Player) < MAX_PLAYERS)
    && (kind == Generator ==> Population(slots, Generator) < MAX_GENERATORS)
    && (kind == Snipe ==> Population(slots, Snipe) < MAX_SNIPES)
    && (kind == Projectile ==> Population(slots, Projectile) < MAX_IN_FLIGHT)
  }

  lemma PeopledUpdate(slots: seq<Entity>, k: int, e: Entity)
    requires Peopled(slots) && 0 <= k < |slots|
    requires e.id == 0 || (slots[k].id != 0 && slots[k].kind == e.kind) || HasRoomFor(slots, e.kind)
    ensures Peopled(slots[k := e])
  {
    PopulationUpdate(slots, k, e, Player);
    PopulationUpdate(slots, k, e, Generator);
    PopulationUpdate(slots, k, e, Snipe);
    PopulationUpdate(slots, k, e, Projectile);
  }

  // ---- changes that keep all this ----

  ghost predicate Inv(m: Maze, startLives: nat, st: Store, log: seq<LifeEvent>) {
    Identity(st) && Safe(m, st.slots) && Books(st, log, startLives) && Peopled(st.slots)
  }

  /** The slab never fills: all the limits together leave most of it free. */
  lemma NeverFull(m: Maze, startLives: nat, st: Store, log: seq<LifeEvent>)
    requires Inv(m, startLives, st, log)
    ensures Present(st.slots, 0)
  {
    if !Present(st.slots, 0) {
      forall i | 0 <= i < |st.slots|
        ensures st.slots[i].id != 0 && st.slots[i].kind != NoKind
      {
        assert Registered(st, st.slots[i]);
      }
      AllCounted(st.slots);
    }
  }

  /** The entity keeps its place in the books: same ID, kind and dead flag. */
  predicate SameVital(e: Entity, e': Entity) {
    e'.id == e.id && e'.kind == e.kind && e'.flags.dead == e.flags.dead
  }

  lemma UniqueUpdate(slots: seq<Entity>, k: int, e: Entity)
    requires Unique(slots) && 0 <= k < |slots|
    requires e.id == 0 || e.id == slots[k].id || !Present(slots, e.id)
    ensures Unique(slots[k := e])
  {
    var s' := slots[k := e];
    forall i, j | 0 <= i < j < |s'| && s'[i].id != 0
      ensures s'[i].id != s'[j].id
    {
      assert slots[i].id != 0 && slots[j].id != 0 ==> slots[i].id != slots[j].id;
    }
  }

  /** Replacing one slot keeps the geometry when the newcomer stands well and clashes with nothing. */
  lemma SafeUpdate(m: Maze, slots: seq<Entity>, k: int, e: Entity)
    requires Safe(m, slots) && 0 <= k < |slots| && Standing(m, e)
    requires forall j | 0 <= j < |slots| :: NoClash(e, slots[j])
    requires e.id != 0 && e.kind == Generator ==> slots[k].id == e.id && slots[k].kind == Generator
                                                  && BoxOf(e) == BoxOf(slots[k]) && (Live(e) ==> Live(slots[k]))
    ensures Safe(m, slots[k := e])
  {
    hide Standing, Overlaps, Apart;
    var s' := slots[k := e];
    forall i, j | 0 <= i < |s'| && 0 <= j < |s'|
      ensures NoClash(s'[i], s'[j])
    {
      assert NoClash(slots[i], slots[j]);
      assert NoClash(slots[i], slots[k]);
      assert NoClash(e, slots[j]);
    }
    forall i, j | 0 <= i < j < |s'|
      ensures GeneratorsApart(s'[i], s'[j])
    {
      assert GeneratorsApart(slots[i], slots[j]);
    }
  }

  /** The general single-slot update. */
  lemma UpdateKeeps(m: Maze, startLives: nat, st: Store, log: seq<LifeEvent>, k: int, e: Entity)
    requires Inv(m, startLives, st, log) && 0 <= k < |st.slots|
    requires SameVital(st.slots[k], e) && Standing(m, e)
    requires forall j | 0 <= j < |st.slots| :: NoClash(e, st.slots[j])
    requires e.kind == Generator ==> BoxOf(e) == BoxOf(st.slots[k])
    ensures Inv(m, startLives, st.(slots := st.slots[k := e]), log)
  {
    UniqueUpdate(st.slots, k, e);
    PeopledUpdate(st.slots, k, e);
    SafeUpdate(m, st.slots, k, e);
    hide Standing, Safe, Unique, OnceALife, AliveIn, Account;
    var st' := st.(slots := st.slots[k := e]);
    assert Registered(st, st.slots[k]) && Vitals(st, log, st.slots[k]);
    assert forall i | 0 <= i < |st'.slots| :: Registered(st', st'.slots[i]) by {
      assert forall i | 0 <= i < |st.slots| :: Registered(st, st.slots[i]);
    }
    assert forall i | 0 <= i < |st'.slots| :: Vitals(st', log, st'.slots[i]) by {
      assert forall i | 0 <= i < |st.slots| :: Vitals(st, log, st.slots[i]);
    }
  }

  /** A new entity under the next ID, in a free slot. */
  lemma AddKeeps(m: Maze, startLives: nat, st: Store, st': Store, log: seq<LifeEvent>, k: int, e: Entity)
    requires Inv(m, startLives, st, log) && 0 <= k < |st.slots| && st.slots[k].id == 0
    requires st.nextID != MAX_ID && e.id == st.nextID && (e.kind == Projectile || e.kind == Snipe) && !e.flags.dead
    requires Standing(m, e) && HasRoomFor(st.slots, e.kind)
    requires st'.slots == st.slots[k := e] && st'.nextID == st.nextID + 1
    requires st'.players == st.players && st'.histories == st.histories
    requires st'.projectiles.Keys == if e.kind == Projectile then st.projectiles.Keys + {e.id} else st.projectiles.Keys
    requires st'.snipes.Keys <= st.snipes.Keys + {e.id}
    ensures Inv(m, startLives, st', log)
  {
    assert !Present(st.slots, e.id) by {
      assert forall i | 0 <= i < |st.slots| :: Registered(st, st.slots[i]);
    }
    UniqueUpdate(st.slots, k, e);
    PeopledUpdate(st.slots, k, e);
    SafeUpdate(m, st.slots, k, e);
    NeverKilled(log, e.id);
    hide Standing, Safe, Unique, OnceALife, AliveIn, Account;
    assert forall i | 0 <= i < |st'.slots| :: Registered(st', st'.slots[i]) by {
      assert forall i | 0 <= i < |st.slots| :: Registered(st, st.slots[i]);
    }
    assert forall i | 0 <= i < |st'.slots| :: Vitals(st', log, st'.slots[i]) by {
      assert forall i | 0 <= i < |st.slots| :: Vitals(st, log, st.slots[i]);
    }
  }

  lemma {:induction false} NeverKilled(log: seq<LifeEvent>, id: ID)
    requires forall i | 0 <= i < |log| && log[i].Killed? :: log[i].victim < id
    ensures AliveIn(log, id)
  {
    if log != [] {
      assert forall i | 0 <= i < |log| - 1 :: log[..|log| - 1][i] == log[i];
      NeverKilled(log[..|log| - 1], id);
    }
  }

  /** Freeing a slot, with or without its sidecars. */
  lemma RemoveKeeps(m: Maze, startLives: nat, st: Store, st': Store, log: seq<LifeEvent>, k: int)
    requires Inv(m, startLives, st, log) && 0 <= k < |st.slots|
    requires st'.slots == st.slots[k := FREE] && st'.nextID == st.nextID && st'.histories == st.histories
    requires st'.players == st.players || st'.players == st.players - {st.slots[k].id}
    requires st'.projectiles == st.projectiles || st'.projectiles == st.projectiles - {st.slots[k].id}
    requires st'.snipes.Keys <= st.snipes.Keys
    ensures Inv(m, startLives, st', log)
  {
    UniqueUpdate(st.slots, k, FREE);
    PeopledUpdate(st.slots, k, FREE);
    SafeUpdate(m, st.slots, k, FREE);
    hide Standing, Safe, OnceALife, AliveIn, Account;
    forall i | 0 <= i < |st'.slots|
      ensures Registered(st', st'.slots[i]) && Vitals(st', log, st'.slots[i])
    {
      assert Registered(st, st.slots[i]) && Vitals(st, log, st.slots[i]);
      if i != k && st.slots[i].id != 0 {
        assert st.slots[i].id != st.slots[k].id;
      }
    }
  }

  /** What a player's account and pending respawn rest on. */
  predicate SameLife(a: PlayerState, b: PlayerState) {
    a.lives == b.lives && a.score == b.score && a.eliminated == b.eliminated
    && a.respawnAt == b.respawnAt && a.hasRespawnAt == b.hasRespawnAt
  }

  /** Changing anything else about one player keeps everything. */
  lemma PlayerKeeps(m: Maze, startLives: nat, st: Store, log: seq<LifeEvent>, p: ID, ps: PlayerState)
    requires Inv(m, startLives, st, log) && p in st.players
    requires st.players[p].lives == ps.lives && st.players[p].score == ps.score
             && st.players[p].eliminated == ps.eliminated
    requires ps.hasRespawnAt ==> st.players[p].hasRespawnAt
    ensures Inv(m, startLives, st.(players := st.players[p := ps]), log)
  {
    hide Standing, Safe, Unique, OnceALife, AliveIn;
    var st' := st.(players := st.players[p := ps]);
    assert Account(log, startLives, p, st.players[p]);
    assert forall i | 0 <= i < |st'.slots| :: Registered(st', st'.slots[i]) by {
      assert forall i | 0 <= i < |st.slots| :: Registered(st, st.slots[i]);
    }
    assert forall i | 0 <= i < |st'.slots| :: Vitals(st', log, st'.slots[i]) by {
      assert forall i | 0 <= i < |st.slots| :: Vitals(st, log, st.slots[i]);
    }
  }

  const DEAD_FLAGS := Flags(true, false, false)

  function Corpse(e: Entity): Entity {
    e.(flags := DEAD_FLAGS, vx := 0, vy := 0)
  }

  /** A kill, once every account has been brought up to date. */
  lemma KillKeeps(m: Maze, startLives: nat, st: Store, st': Store, log: seq<LifeEvent>, k: int, e: Entity, killer: ID)
    requires Inv(m, startLives, st, log) && 0 <= k < |st.slots|
    requires Live(st.slots[k]) && e.kind != Projectile && SameVital(st.slots[k], e) && BoxOf(e) == BoxOf(st.slots[k])
    requires st'.slots == st.slots[k := Corpse(e)] && st'.nextID == st.nextID
    requires st'.histories == st.histories && st'.projectiles == st.projectiles && st'.players.Keys == st.players.Keys
    requires forall p | p in st.players :: Account(log + [Killed(e.id, e.kind, killer)], startLives, p, st'.players[p])
    requires st'.snipes.Keys <= st.snipes.Keys
    ensures Inv(m, startLives, st', log + [Killed(e.id, e.kind, killer)])
  {
    var log' := log + [Killed(e.id, e.kind, killer)];
    UniqueUpdate(st.slots, k, Corpse(e));
    PeopledUpdate(st.slots, k, Corpse(e));
    assert Standing(m, st.slots[k]);
    SafeUpdate(m, st.slots, k, Corpse(e));
    assert Registered(st, st.slots[k]) && Vitals(st, log, st.slots[k]);
    OneMore(log, Killed(e.id, e.kind, killer), e.id);
    forall i | 0 <= i < |st'.slots|
      ensures Registered(st', st'.slots[i]) && Vitals(st', log', st'.slots[i])
    {
      assert Registered(st, st.slots[i]) && Vitals(st, log, st.slots[i]);
      OneMore(log, Killed(e.id, e.kind, killer), st.slots[i].id);
      if i != k && st.slots[i].id != 0 {
        assert st.slots[i].id != e.id;
        KillAccounts(log, e.id, e.kind, killer, st.slots[i].id);
        if st.slots[i].id in st.players { assert Account(log, startLives, st.slots[i].id, st.players[st.slots[i].id]); }
      }
    }
    hide Standing, Safe, Unique, OnceALife, AliveIn, Vitals, Registered;
  }

  /** A respawn of a dead player with lives left, at a place that suits it. */
  lemma RespawnKeeps(m: Maze, startLives: nat, st: Store, st': Store, log: seq<LifeEvent>, k: int, e: Entity)
    requires Inv(m, startLives, st, log) && 0 <= k < |st.slots|
    requires IsPlayer(st.slots[k]) && st.slots[k].flags.dead && st.players[st.slots[k].id].lives > 0
    requires e.id == st.slots[k].id && e.kind == Player && !e.flags.dead && Standing(m, e)
    requires forall j | 0 <= j < |st.slots| :: NoClash(e, st.slots[j])
    requires st'.slots == st.slots[k := e] && st'.nextID == st.nextID && st'.projectiles == st.projectiles
    requires st'.histories.Keys == st.histories.Keys && st'.players.Keys == st.players.Keys
    requires forall p | p in st.players :: st'.players[p].lives == st.players[p].lives
                                           && st'.players[p].score == st.players[p].score
                                           && st'.players[p].eliminated == st.players[p].eliminated
                                           && (st'.players[p].hasRespawnAt ==> st.players[p].hasRespawnAt)
    requires st'.snipes.Keys <= st.snipes.Keys
    ensures Inv(m, startLives, st', log + [Respawned(e.id)])
  {
    var log' := log + [Respawned(e.id)];
    UniqueUpdate(st.slots, k, e);
    PeopledUpdate(st.slots, k, e);
    SafeUpdate(m, st.slots, k, e);
    assert Registered(st, st.slots[k]);
    OneMore(log, Respawned(e.id), e.id);
    forall p | p in st'.players
      ensures Account(log', startLives, p, st'.players[p])
    {
      assert Account(log, startLives, p, st.players[p]);
      RespawnAccounts(log, e.id, p);
    }
    forall i | 0 <= i < |st'.slots|
      ensures Registered(st', st'.slots[i]) && Vitals(st', log', st'.slots[i])
    {
      assert Registered(st, st.slots[i]) && Vitals(st, log, st.slots[i]);
      OneMore(log, Respawned(e.id), st.slots[i].id);
      if i != k && st.slots[i].id != 0 { assert st.slots[i].id != e.id; }
    }
    hide Standing, Safe, Unique, OnceALife, AliveIn, Vitals, Registered, Account;
  }

  // ---- steps that treat each entity on its own ----

  /** slots0 with f applied to the entities among the first k IDs. */
  ghost predicate Mapped(slots0: seq<Entity>, slots: seq<Entity>, ids: seq<ID>, k: int, f: Entity -> Entity)
    requires 0 <= k <= |ids|
  {
    && |slots| == |slots0|
    && forall i | 0 <= i < |slots| :: slots[i] == if slots0[i].id in ids[..k] then f(slots0[i]) else slots0[i]
  }

  ghost predicate KeepsIDs(f: Entity -> Entity) {
    forall e :: f(e).id == e.id
  }

  /** Every occupied ID once, in order. */
  ghost predicate IDsOf(slots: seq<Entity>, ids: seq<ID>) {
    Ascending(ids) && forall id :: id in ids <==> id != 0 && Present(slots, id)
  }

  lemma AscendingIDs(slots: seq<Entity>, ids: seq<ID>)
    requires IDsOf(slots, ids)
    ensures Ascending(ids)
  {
  }

  /** The slot found for the next ID has not been touched yet. */
  lemma MapNext(slots0: seq<Entity>, slots: seq<Entity>, ids: seq<ID>, k: int, idx: int, f: Entity -> Entity)
    requires Unique(slots0) && IDsOf(slots0, ids) && KeepsIDs(f)
    requires 0 <= k < |ids| && Mapped(slots0, slots, ids, k, f)
    requires 0 <= idx < |slots| && slots[idx].id == ids[k]
    ensures slots[idx] == slots0[idx]
    ensures Mapped(slots0, slots[idx := f(slots0[idx])], ids, k + 1, f)
  {
    assert slots0[idx].id == ids[k] && ids[k] in ids;
    assert ids[..k + 1] == ids[..k] + [ids[k]];
    assert ids[k] !in ids[..k];
    forall i | 0 <= i < |slots| && i != idx
      ensures slots0[i].id != ids[k]
    {
      assert i < idx ==> slots0[i].id == 0 || slots0[i].id != slots0[idx].id;
      assert idx < i ==> slots0[idx].id != slots0[i].id;
    }
  }

  /** An ID found in the slab before a step is found during it. */
  lemma MapFinds(slots0: seq<Entity>, slots: seq<Entity>, ids: seq<ID>, k: int, f: Entity -> Entity)
    requires IDsOf(slots0, ids) && KeepsIDs(f) && 0 <= k < |ids| && Mapped(slots0, slots, ids, k, f)
    ensures Present(slots, ids[k]) && ids[k] != 0
  {
    assert ids[k] in ids;
    var i :| 0 <= i < |slots0| && slots0[i].id == ids[k];
    assert slots[i].id == ids[k];
  }

  lemma MapDone(slots0: seq<Entity>, slots: seq<Entity>, ids: seq<ID>, f: Entity -> Entity)
    requires IDsOf(slots0, ids) && Mapped(slots0, slots, ids, |ids|, f)
    ensures forall i | 0 <= i < |slots| :: slots[i] == if slots0[i].id != 0 then f(slots0[i]) else slots0[i]
  {
    assert ids[..|ids|] == ids;
    forall i | 0 <= i < |slots|
      ensures slots0[i].id in ids <==> slots0[i].id != 0
    {
      assert Present(slots0, slots0[i].id);
    }
  }
}
