/** What the steps of a tick come to, in plain numbers. */
module Effects {
  import opened Grid
  import opened Physics
  import opened Entities
  import opened Slab
  import opened History
  import opened SimState
  import opened Control
  import opened Walking
  import opened Movement
  import opened SnipeMind
  import opened Firing
  import opened Emission
  import opened Respawn
  import opened Cleanup
  import opened Samples
  import opened Hits
  import SafeSpawn

  // ---- shots ----

  /** A projectile of this shooter, at its place, flying 224 subtiles a tick or 158 along each axis, for 90 ticks. */
  predicate FreshShot(st: Store, from: Entity, d: Dir, owt: nat, e: Entity) {
    var (dx, dy) := Paces(d, true);
    && e == Entity(e.id, Projectile, 1, d, Flags(false, false, false), from.x, from.y, dx, dy)
    && e.id in st.projectiles && st.projectiles[e.id] == ProjState(90, from.id, owt)
  }

  lemma BulletIs(st: Store, id: ID, from: Entity, d: Dir, owt: nat)
    requires id in st.projectiles && st.projectiles[id] == ProjState(PROJECTILE_LIFETIME, from.id, owt)
    ensures FreshShot(st, from, d, owt, Bullet(id, from, d))
  {
    PacesAre(d);
  }

  /** What a launch that comes off has done: one projectile under the next ID in a free slot, and nothing else. */
  lemma ShotLeaves(st: Store, from: Entity, d: Dir, owt: nat, st': Store, r: Launch)
    requires Outcome(st, from, d, owt, st', r) && r.Away?
    ensures Population(st.slots, Projectile) < 64 && st'.nextID == st.nextID + 1
    ensures r.slot < |st.slots| == |st'.slots| && st.slots[r.slot].id == 0 && st'.slots[r.slot].id == st.nextID
            && FreshShot(st', from, d, owt, st'.slots[r.slot])
    ensures forall i | 0 <= i < |st.slots| && i != r.slot :: st'.slots[i] == st.slots[i]
    ensures st'.players == st.players && st'.snipes == st.snipes && st'.generators == st.generators
  {
    BulletIs(st', st.nextID, from, d, owt);
    hide Paces, VelocityFor, Population;
  }

  /** A projectile that has flown has a tick less to live, and its last tick is its end. */
  lemma LifeRunsDown(st0: Store, pids: seq<ID>, st: Store, i: int)
    requires AgedStore(st0, pids, st) && 0 <= i < |st0.slots| && st0.slots[i].id != 0
    requires st0.slots[i].id in pids && st0.slots[i].id in st0.projectiles
    ensures |st.slots| == |st0.slots|
    ensures var id := st0.slots[i].id;
            if st0.projectiles[id].lifetime < 2 then st.slots[i].id == 0
            else st.slots[i] == st0.slots[i] && id in st.projectiles
                 && st.projectiles[id].lifetime + 1 == st0.projectiles[id].lifetime
                 && st.projectiles[id].shooter == st0.projectiles[id].shooter
  {
    assert pids[..|pids|] == pids;
    hide MachinesKept;
  }

  /** Wants to shoot, is not running, has reloaded, and is no longer protected. */
  predicate WillFire(st: Store, inputs: map<ID, Input>, tick: nat, e: Entity) {
    && e.id in inputs && inputs[e.id].fireDir != Idle && !e.flags.turbo
    && e.id in st.players && st.players[e.id].fireCooldown == 0 && st.players[e.id].spawnInvulnUntil <= tick
  }

  /** The delay a shot is allowed to make up for: eight ticks at most. */
  function Delay(inp: Input): nat { if inp.owtTicks <= 8 then inp.owtTicks else 8 }

  /**
   Step 7 for one live player: if it will fire it has, and reloads for six ticks, unless there are 64 projectiles; if
   not, nothing of its has been fired.
   */
  lemma WhoFires(st0: Store, inputs: map<ID, Input>, tick: nat, st: Store, i: int)
    requires FiredStore(st0, inputs, tick, st) && 0 <= i < |st0.slots| && Unique(st0.slots)
    requires Live(st0.slots[i]) && st0.slots[i].kind == Player && st0.slots[i].id in st0.players
    ensures |st.slots| == |st0.slots| && st0.slots[i].id in st.players
    ensures var e, ps, ps' := st0.slots[i], st0.players[st0.slots[i].id], st.players[st0.slots[i].id];
            if WillFire(st0, inputs, tick, e) then
              || (ps' == ps.(fireCooldown := 6)
                  && exists k :: 0 <= k < |st.slots| && st0.slots[k].id == 0
                                 && FreshShot(st, e, inputs[e.id].fireDir, Delay(inputs[e.id]), st.slots[k]))
              || (ps' == ps && Population(st.slots, Projectile) >= 64)
            else ps' == ps && !HasShot(st0, st, e.id)
  {
    var e := st0.slots[i];
    assert CanFire(st0, inputs, tick, e) <==> WillFire(st0, inputs, tick, e);
    assert FiredOrNot(st0, inputs, tick, st, e);
    ShotsOf(st0, inputs, tick, st, e.id);
    assert Jammed(st.slots) ==> Population(st.slots, Projectile) >= 64;
    hide FiredBy, Population, FreshShot, PlayerShot, CanFire, WillFire, Jammed;
    if HasShot(st0, st, e.id) {
      var k :| 0 <= k < |st.slots| && ShotInSlot(st0, st, k, e.id);
      var j :| 0 <= j < |st0.slots| && st0.slots[j].id == e.id && CanFire(st0, inputs, tick, st0.slots[j])
               && FreshShot(st, st0.slots[j], inputs[e.id].fireDir, Delay(inputs[e.id]), st.slots[k]);
      OneSlot(st0.slots, i, j);
      assert st0.slots[k].id == 0;
    }
  }

  /** Every new projectile is a fresh shot of somebody who could fire; and a player's, of that player. */
  lemma ShotsOf(st0: Store, inputs: map<ID, Input>, tick: nat, st: Store, p: ID)
    requires FiredStore(st0, inputs, tick, st)
    ensures |st.slots| == |st0.slots|
    ensures forall k | 0 <= k < |st.slots| && ShotInSlot(st0, st, k, p) ::
              exists j :: 0 <= j < |st0.slots| && st0.slots[j].id == p && CanFire(st0, inputs, tick, st0.slots[j])
                          && FreshShot(st, st0.slots[j], inputs[p].fireDir, Delay(inputs[p]), st.slots[k])
  {
    forall k | 0 <= k < |st.slots| && ShotInSlot(st0, st, k, p)
      ensures exists j :: 0 <= j < |st0.slots| && st0.slots[j].id == p && CanFire(st0, inputs, tick, st0.slots[j])
                          && FreshShot(st, st0.slots[j], inputs[p].fireDir, Delay(inputs[p]), st.slots[k])
    {
      assert PlayerShot(st0, inputs, tick, st, st.slots[k]);
      var j :| 0 <= j < |st0.slots| && CanFire(st0, inputs, tick, st0.slots[j])
               && ShotBy(st0.slots[j], inputs, st, st.slots[k]);
      BulletIs(st, st.slots[k].id, st0.slots[j], inputs[p].fireDir, Delay(inputs[p]));
    }
  }

  // ---- snipes ----

  /** A velocity at this speed: up is toward smaller y. */
  predicate Heads(e: Entity, d: Dir, speed: int) {
    var slant := TruncDiv(speed * 181, 256);
    match d
    case Idle => e.vx == 0 && e.vy == 0
    case N => e.vx == 0 && e.vy == -speed
    case S => e.vx == 0 && e.vy == speed
    case E => e.vx == speed && e.vy == 0
    case W => e.vx == -speed && e.vy == 0
    case NE => e.vx == slant && e.vy == -slant
    case SE => e.vx == slant && e.vy == slant
    case SW => e.vx == -slant && e.vy == slant
    case NW => e.vx == -slant && e.vy == -slant
  }

  /** It stays where it is, faces and heads where it has decided to, and may wake. */
  predicate Obeyed(e: Entity, a: Advice, speed: int, e': Entity) {
    && (e'.id, e'.kind, e'.hp, e'.x, e'.y) == (e.id, e.kind, e.hp, e.x, e.y)
    && e'.flags == e.flags.(invuln := e.flags.invuln && !a.wake)
    && match a.move
       case KeepGoing => (e'.vx, e'.vy) == (e.vx, e.vy) && e'.facing == a.facing
       case Halt => (e'.vx, e'.vy) == (0, 0) && e'.facing == a.facing
       case Walk(d) => Heads(e', d, speed) && e'.facing == a.facing
       case Shoot(d) => (e'.vx, e'.vy) == (0, 0) && e'.facing == d
  }

  lemma AdvisedObeys(e: Entity, a: Advice, speed: int)
    ensures Obeyed(e, a, speed, Advised(e, a, speed))
  {
  }

  /** Step 4.5 for one snipe, and for everybody else. */
  lemma SnipeHeeds(m: Maze, st0: Store, tick: nat, t: Tuning, advice: map<ID, Advice>, st: Store, i: int)
    requires AdvisedStore(m, st0, tick, t, advice, st) && 0 <= i < |st0.slots| && st0.slots[i].id != 0
    ensures |st.slots| == |st0.slots|
    ensures if st0.slots[i].id in advice then Obeyed(st0.slots[i], advice[st0.slots[i].id], t.speed, st.slots[i])
            else st.slots[i] == st0.slots[i]
  {
    assert st.slots[i] == Heeding(st0.slots[i], advice, t.speed);
    if st0.slots[i].id in advice { AdvisedObeys(st0.slots[i], advice[st0.slots[i].id], t.speed); }
    hide Grown, Thoughts, MindsBy, AdvisedShots, Deciders, Obeyed, Advised;
  }

  /** What it remembers: the decision, and twenty or fifteen ticks to go, as the level has it, if it has shot. */
  lemma SnipeRemembers(m: Maze, st0: Store, tick: nat, t: Tuning, advice: map<ID, Advice>, st: Store, s: ID)
    requires AdvisedStore(m, st0, tick, t, advice, st) && s in st0.snipes
    ensures s in st.snipes && st.snipes[s].parent == st0.snipes[s].parent
            && st.snipes[s].spawnTick == st0.snipes[s].spawnTick
    ensures s !in advice ==> st.snipes[s].mind == st0.snipes[s].mind
    ensures s in advice && HasShot(st0, st, s) ==> st.snipes[s].mind == advice[s].mind.(fireCooldown := t.fireCooldown)
    ensures s in advice && !HasShot(st0, st, s) ==> st.snipes[s].mind == advice[s].mind
  {
    hide AdvisedBy, Thoughts, Deciders, HasShot;
  }

  // ---- generators ----

  /** The eight places around a generator, in the order they are tried from the first on. */
  const PLACES: seq<(int, int)> := [(0, -2), (2, 0), (0, 2), (-2, 0), (2, -2), (2, 2), (-2, 2), (-2, -2)]

  /** The i-th place tried by a generator that starts from its own one. */
  function Place(gen: Entity, rotation: nat, i: nat): (int, int) {
    var off := PLACES[(rotation + i) % 8];
    (TruncDiv(gen.x, 256) + off.0, TruncDiv(gen.y, 256) + off.1)
  }

  lemma PlaceIs(gen: Entity, rotation: nat, i: nat)
    ensures RingTile(gen, rotation, i) == Place(gen, rotation, i)
  {
    var k := (rotation + i) % 8;
    assert 0 <= k < 8;
    assert k == 0 || k == 1 || k == 2 || k == 3 || k == 4 || k == 5 || k == 6 || k == 7;
  }

  /** Plain floor, nobody alive within, and no wall under a snipe standing in the middle. */
  ghost predicate RoomForSnipe(m: Maze, slots: seq<Entity>, t: (int, int)) {
    var x, y := t.0 * 256 + 128, t.1 * 256 + 128;
    && At(m, t.0, t.1) == Floor && Free(AlongX(m), x, y, 128)
    && forall i | 0 <= i < |slots| && Live(slots[i]) :: !Overlaps(Box(x, y, 128), BoxOf(slots[i]))
  }

  lemma RoomIs(m: Maze, slots: seq<Entity>, t: (int, int))
    ensures Fits(m, slots, t) <==> RoomForSnipe(m, slots, t)
  {
    hide Free, Overlaps;
  }

  /** A newborn at the place: at rest, protected, its mind empty, its parent and birth on record. */
  ghost predicate Newborn(st: Store, gen: Entity, t: (int, int), tick: nat, e: Entity) {
    && e.kind == Snipe && e.hp == 1 && e.flags == Flags(false, true, false) && (e.vx, e.vy) == (0, 0)
    && (e.x, e.y) == (t.0 * 256 + 128, t.1 * 256 + 128)
    && e.id in st.snipes && st.snipes[e.id].parent == gen.id && st.snipes[e.id].spawnTick == tick
    && st.snipes[e.id].mind == Mind(Resting, 0, Idle, [], 0, 0, 0, false)
  }

  lemma HatchlingIs(st: Store, gen: Entity, t: (int, int), tick: nat, e: Entity)
    requires e == Hatchling(e.id, gen, t) && e.id in st.snipes && st.snipes[e.id] == SnipeState(gen.id, tick, NEWBORN)
    ensures Newborn(st, gen, t, tick, e)
  {
    hide Dir8Toward;
  }

  lemma HatchedAt(m: Maze, tick: nat, st: Store, gen: Entity, rotation: nat, k: int)
    requires 0 <= k < |st.slots| && HatchedFrom(m, tick, st, gen, rotation, k)
    ensures exists i: nat ::
              i < 8 && Newborn(st, gen, Place(gen, rotation, i), tick, st.slots[k])
              && At(m, Place(gen, rotation, i).0, Place(gen, rotation, i).1) == Floor
  {
    hide Hatchling, RingTile, Place, Newborn;
    var e := st.slots[k];
    var i: nat :| i < 8 && e == Hatchling(e.id, gen, RingTile(gen, rotation, i))
                  && At(m, RingTile(gen, rotation, i).0, RingTile(gen, rotation, i).1) == Floor;
    PlaceIs(gen, rotation, i);
    HatchlingIs(st, gen, RingTile(gen, rotation, i), tick, e);
  }

  /** Step 4.6: every new snipe is a newborn at a place of floor around a live generator whose count had run out. */
  lemma WhoHatches(m: Maze, cap: nat, tick: nat, st0: Store, st: Store, k: int)
    requires EmittedStore(m, cap, tick, st0, st) && 0 <= k < |st.slots| == |st0.slots|
    requires st0.slots[k].id == 0 && st.slots[k].id != 0
    ensures exists j, i: nat ::
              && 0 <= j < |st0.slots| && Live(st0.slots[j]) && st0.slots[j].kind == Generator && i < 8
              && st0.slots[j].id in st0.generators
              && var t := Place(st0.slots[j], st0.generators[st0.slots[j].id].rotation, i);
                 At(m, t.0, t.1) == Floor && Newborn(st, st0.slots[j], t, tick, st.slots[k])
  {
    assert NewSnipe(m, tick, st0, st, k);
    hide EmittedStore, AloneAt, HatchedFrom, Place, Newborn;
    var j :| 0 <= j < |st0.slots| && Emitter(st0, st0.slots[j])
             && HatchedFrom(m, tick, st, st0.slots[j], st0.generators[st0.slots[j].id].rotation, k);
    HatchedAt(m, tick, st, st0.slots[j], st0.generators[st0.slots[j].id].rotation, k);
  }

  /** One of the eight places has room. */
  ghost predicate SomePlace(m: Maze, slots: seq<Entity>, gen: Entity, rotation: nat) {
    exists i: nat :: i < 8 && RoomForSnipe(m, slots, Place(gen, rotation, i))
  }

  lemma SomePlaceIs(m: Maze, slots: seq<Entity>, gen: Entity, rotation: nat)
    ensures SomePlace(m, slots, gen, rotation) <==> exists i: nat :: i < 8 && Fits(m, slots, RingTile(gen, rotation, i))
  {
    hide Fits, RoomForSnipe, Place, RingTile;
    forall i: nat
      ensures RingTile(gen, rotation, i) == Place(gen, rotation, i)
      ensures Fits(m, slots, RingTile(gen, rotation, i)) <==> RoomForSnipe(m, slots, Place(gen, rotation, i))
    {
      PlaceIs(gen, rotation, i);
      RoomIs(m, slots, Place(gen, rotation, i));
    }
  }

  /**
   A generator counts down; at zero it lets out a snipe and starts again from 120 to 240 ticks, unless there are as
   many as there may be or none of its eight places has room.
   */
  lemma GeneratorTurns(m: Maze, cap: nat, tick: nat, st0: Store, st: Store, j: int)
    requires EmittedStore(m, cap, tick, st0, st) && 0 <= j < |st0.slots|
    requires Live(st0.slots[j]) && st0.slots[j].kind == Generator && st0.slots[j].id in st0.generators
    ensures st0.slots[j].id in st.generators && |st.slots| == |st0.slots|
    ensures var was, now := st0.generators[st0.slots[j].id], st.generators[st0.slots[j].id];
            && now.rotation == was.rotation
            && (was.cooldown > 0 ==> now.cooldown == was.cooldown - 1)
            && (was.cooldown == 0 && Snipes(st.slots) < cap && SomePlace(m, st.slots, st0.slots[j], was.rotation) ==>
                  120 <= now.cooldown <= 240)
            && (was.cooldown == 0 && now.cooldown != 0 ==>
                  exists k, i: nat ::
                    && 0 <= k < |st.slots| && st0.slots[k].id == 0 && i < 8
                    && Newborn(st, st0.slots[j], Place(st0.slots[j], was.rotation, i), tick, st.slots[k]))
  {
    var gen := st0.slots[j];
    assert HadTurn(m, cap, tick, st0, st, gen);
    var was, now := st0.generators[gen.id], st.generators[gen.id];
    hide EmittedStore, Snipes, Fits, RingTile, Place, Newborn, HatchedFrom, SomePlace;
    SomePlaceIs(m, st.slots, gen, was.rotation);
    if was.cooldown == 0 && now != was {
      var k :| 0 <= k < |st.slots| && st0.slots[k].id == 0 && HatchedFrom(m, tick, st, gen, was.rotation, k);
      HatchedAt(m, tick, st, gen, was.rotation, k);
    }
  }

  /** A tile found for a newborn is the first in order that has room. */
  lemma FirstPlace(m: Maze, slots: seq<Entity>, gen: Entity, rotation: nat, t: (int, int))
    requires FirstFit(m, slots, gen, rotation, t)
    ensures exists i: nat :: i < 8 && t == Place(gen, rotation, i) && RoomForSnipe(m, slots, t)
                             && forall j: nat | j < i :: !RoomForSnipe(m, slots, Place(gen, rotation, j))
  {
    hide Fits, RoomForSnipe;
    var i: nat :| i < 8 && t == RingTile(gen, rotation, i) && Fits(m, slots, t)
                  && forall j: nat | j < i :: !Fits(m, slots, RingTile(gen, rotation, j));
    RoomIs(m, slots, t);
    PlaceIs(gen, rotation, i);
    forall j: nat | j < i
      ensures !RoomForSnipe(m, slots, Place(gen, rotation, j))
    {
      PlaceIs(gen, rotation, j);
      RoomIs(m, slots, Place(gen, rotation, j));
    }
  }

  // ---- snipes in each other's way ----

  function Span(a: int): int { if a < 0 then -a else a }

  /**
   Two snipes less than 256 apart on both axes: the one with the higher ID goes to 257 from the other on the axis on
   which they are farther apart, to the side it was on, and stops on it, if no wall is there; otherwise it stays.
   */
  lemma GiveWay(m: Maze, hi: Entity, lo: Entity)
    requires LiveSnipe(hi) && LiveSnipe(lo)
    ensures var e := WeakBlocked(m, hi, lo);
            var near, across := Span(hi.x - lo.x) < 256 && Span(hi.y - lo.y) < 256,
              Span(hi.x - lo.x) >= Span(hi.y - lo.y);
            var x, y := if !across then hi.x else if lo.x < hi.x then lo.x + 257 else lo.x - 257,
              if across then hi.y else if lo.y < hi.y then lo.y + 257 else lo.y - 257;
            if near && Free(AlongX(m), x, y, 128) then
              if across then e == hi.(x := x, vx := 0) else e == hi.(y := y, vy := 0)
            else e == hi
  {
    hide Free;
  }

  /** Nobody gives way to a higher ID: the live snipe with the least ID stays where it is. */
  lemma LeastStays(m: Maze, st0: Store, st: Store, k: int)
    requires BlockedStore(m, st0, st) && 0 <= k < |st0.slots| && LiveSnipe(st0.slots[k])
    requires forall i | 0 <= i < |st0.slots| && LiveSnipe(st0.slots[i]) :: st0.slots[k].id <= st0.slots[i].id
    ensures |st.slots| == |st0.slots| && st.slots[k] == st0.slots[k]
  {
    var ids :| InTurn(m, st0, ids, st);
    assert SnipeIn(st0.slots, st0.slots[k].id);
    var j :| 0 <= j < |ids| && ids[j] == st0.slots[k].id;
    assert ids[0] in ids;
    assert ids[0] == st0.slots[k].id;
    hide InTurn, BlockedStore;
    FirstStays(m, st0.slots, ids, |ids|, 0, k);
  }

  lemma {:induction false} FirstStays(m: Maze, slots: seq<Entity>, ids: seq<ID>, a: nat, b: nat, k: int)
    requires b <= a <= |ids| && (a == |ids| ==> b == 0) && Ascending(ids) && ids != []
    requires 0 <= k < |slots| && slots[k].id == ids[0]
    ensures |Blocks(m, slots, ids, a, b)| == |slots| && Blocks(m, slots, ids, a, b)[k] == slots[k]
    decreases a, b
  {
    hide WeakBlocked;
    if b > 0 {
      FirstStays(m, slots, ids, a, b - 1, k);
    } else if a > 0 {
      FirstStays(m, slots, ids, a - 1, a - 1, k);
    }
  }

  /** A live snipe remembers a wall exactly when this tick's move has stopped it along x or along y. */
  lemma NoticesWall(before: seq<Entity>, st0: Store, st: Store, i: int)
    requires NotedStore(before, st0, st) && 0 <= i < |st0.slots|
    requires LiveSnipe(st0.slots[i]) && st0.slots[i].id in st0.snipes
    ensures |before| == |st0.slots| && st0.slots[i].id in st.snipes
    ensures var was, now := st0.snipes[st0.slots[i].id], st.snipes[st0.slots[i].id];
            && now == was.(mind := was.mind.(wallBlocked := now.mind.wallBlocked))
            && (now.mind.wallBlocked <==>
                !((before[i].vx != 0 ==> st0.slots[i].vx != 0) && (before[i].vy != 0 ==> st0.slots[i].vy != 0)))
  {
  }

  // ---- death and return ----

  /**
   A death: the body lies still; a player loses a life, five points and its turbo lock, leaves the place of its death on
   record, and is back in ninety ticks if it has lives left and the match lets it; whoever killed it, unless itself, has
   25, 10 or 1 points more.
   */
  lemma DeathMeans(st: Store, k: int, e: Entity, killer: ID, tick: nat, noRespawn: bool)
    requires 0 <= k < |st.slots| && st.slots[k].id == e.id != 0 && (e.kind == Player <==> e.id in st.players)
    ensures var st' := Killing(st, k, e, killer, tick, noRespawn);
            && st'.slots == st.slots[k := e.(flags := Flags(true, false, false), vx := 0, vy := 0)]
            && st'.players.Keys == st.players.Keys
            && (forall p | p in st.players && p != e.id ::
                  st'.players[p] == st.players[p].(score := st.players[p].score + if p != killer || killer == 0 then 0
                                                   else if e.kind == Player then 25 else if e.kind == Generator then 10
                                                   else if e.kind == Snipe then 1 else 0))
            && (e.kind == Player ==>
                  var ps, ps' := st.players[e.id], st'.players[e.id];
                  && ps'.lives == (if ps.lives == 0 then 0 else ps.lives - 1) && ps'.score == ps.score - 5
                  && ps'.fireCooldown == 0 && ps'.lastDir == Idle && (ps'.deathX, ps'.deathY) == (e.x, e.y)
                  && (ps'.lives == 0 ==> ps'.eliminated && !ps'.hasRespawnAt)
                  && (ps'.lives > 0 ==> ps'.eliminated == ps.eliminated)
                  && (ps'.lives > 0 && !noRespawn ==> ps'.hasRespawnAt && ps'.respawnAt == tick + 90)
                  && (ps'.lives > 0 && noRespawn ==>
                        ps'.hasRespawnAt == ps.hasRespawnAt && ps'.respawnAt == ps.respawnAt))
  {
  }

  /** A player just back: one point of health, protected for sixty ticks, still, in the middle of a spawn tile. */
  ghost predicate JustBack(m: Maze, tick: nat, e: Entity, ps: PlayerState, e': Entity, ps': PlayerState) {
    && (e'.id, e'.kind, e'.hp, e'.vx, e'.vy, e'.facing) == (e.id, e.kind, 1, 0, 0, S)
    && e'.flags == Flags(false, true, false)
    && (exists tx, ty :: At(m, tx, ty) == SpawnPlayer && (e'.x, e'.y) == (tx * 256 + 128, ty * 256 + 128))
    && ps' == ps.(fireCooldown := 0, lastDir := Idle, hasRespawnAt := false, spawnInvulnUntil := tick + 60)
  }

  /** Somebody to keep away from: any other live player, or a live generator. */
  predicate Threat(e: Entity, player: ID) {
    e.id != 0 && !e.flags.dead && e.id != player && (e.kind == Player || e.kind == Generator)
  }

  /** Tiles between two tiles: the larger of the two distances along the axes. */
  function Off(t: (int, int), x: int, y: int): int {
    var dx, dy := t.0 - x, t.1 - y;
    var a, b := if dx < 0 then -dx else dx, if dy < 0 then -dy else dy;
    if a < b then b else a
  }

  /** The nearest threat is d tiles from t; with no threats at all, the place of death is. */
  ghost predicate Quiet(slots: seq<Entity>, player: ID, death: (int, int), t: (int, int), d: int) {
    && (forall i | 0 <= i < |slots| && Threat(slots[i], player) ::
          d <= Off(t, TruncDiv(slots[i].x, 256), TruncDiv(slots[i].y, 256)))
    && ((exists i | 0 <= i < |slots| ::
           Threat(slots[i], player) && d == Off(t, TruncDiv(slots[i].x, 256), TruncDiv(slots[i].y, 256)))
        || ((forall i | 0 <= i < |slots| :: !Threat(slots[i], player)) && d == Off(t, death.0, death.1)))
  }

  lemma QuietIs(slots: seq<Entity>, player: ID, death: (int, int), t: (int, int), d: int)
    ensures Quiet(slots, player, death, t, d) <==> SafeSpawn.Safety(slots, player, death, t, d)
  {
    hide TruncDiv;
    forall i | 0 <= i < |slots|
      ensures Threat(slots[i], player) <==> SafeSpawn.Hostile(slots[i], player)
      ensures Off(t, TruncDiv(slots[i].x, 256), TruncDiv(slots[i].y, 256))
              == SafeSpawn.Chebyshev(t, SafeSpawn.TileAt(slots[i].x, slots[i].y))
    {
    }
    assert Off(t, death.0, death.1) == SafeSpawn.Chebyshev(t, death);
    hide Off, Threat, SafeSpawn.Hostile, SafeSpawn.Chebyshev, SafeSpawn.TileAt;
  }

  /** A spawn tile with no live body over it. */
  ghost predicate OpenSpawn(m: Maze, slots: seq<Entity>, t: (int, int)) {
    && At(m, t.0, t.1) == SpawnPlayer
    && forall j | 0 <= j < |slots| && Live(slots[j]) ::
         !Overlaps(Box(t.0 * 256 + 128, t.1 * 256 + 128, 256), BoxOf(slots[j]))
  }

  /** Quieter, or as quiet and earlier in row order. */
  ghost predicate Better(m: Maze, slots: seq<Entity>, player: ID, death: (int, int), h: (int, int), t: (int, int)) {
    exists x, y :: Quiet(slots, player, death, h, x) && Quiet(slots, player, death, t, y)
                   && (y < x || (x == y && h.0 + m.W * h.1 < t.0 + m.W * t.1))
  }

  lemma BetterIs(m: Maze, slots: seq<Entity>, player: ID, death: (int, int), h: (int, int), t: (int, int))
    ensures Better(m, slots, player, death, h, t) ==> SafeSpawn.SaferTile(m, slots, player, death, h, t)
  {
    if x, y :| Quiet(slots, player, death, h, x) && Quiet(slots, player, death, t, y)
               && (y < x || (x == y && h.0 + m.W * h.1 < t.0 + m.W * t.1)) {
      QuietIs(slots, player, death, h, x);
      QuietIs(slots, player, death, t, y);
      assert SafeSpawn.Safer(m.W, SafeSpawn.Scored(h, x), SafeSpawn.Scored(t, y));
      hide Quiet, SafeSpawn.Safety, SafeSpawn.Safer;
    }
  }

  /** Of any three other open spawns one is no better than the one chosen. */
  lemma ThreeBest(m: Maze, slots: seq<Entity>, player: ID, death: (int, int), t: (int, int), three: seq<(int, int)>)
    requires SafeSpawn.AmongThree(m, slots, player, death, t)
    requires |three| == 3 && three[0] != three[1] && three[1] != three[2] && three[2] != three[0]
    requires forall i | 0 <= i < 3 :: OpenSpawn(m, slots, three[i])
    ensures exists i | 0 <= i < 3 :: !Better(m, slots, player, death, three[i], t)
  {
    var better: seq<(int, int)> :| |better| < 3 && SafeSpawn.HoldsSafer(m, slots, player, death, t, better);
    assert forall i | 0 <= i < 3 :: SafeSpawn.Haven(m, slots, three[i]);
    hide SafeSpawn.Haven, OpenSpawn, SafeSpawn.SaferTile, Better;
    if forall i | 0 <= i < 3 :: Better(m, slots, player, death, three[i], t) {
      forall i | 0 <= i < 3
        ensures three[i] in better
      {
        BetterIs(m, slots, player, death, three[i], t);
      }
      OnlyTwo(better, three);
    }
  }

  /** Two places do not hold three things. */
  lemma OnlyTwo(few: seq<(int, int)>, three: seq<(int, int)>)
    requires |few| < 3 && |three| == 3 && forall i | 0 <= i < 3 :: three[i] in few
    ensures three[0] == three[1] || three[1] == three[2] || three[2] == three[0]
  {
    assert three[0] in few && three[1] in few && three[2] in few;
  }

  /**
   One player's turn: a dead one whose tick has come is back on an open spawn, or tries again next tick if there is
   none; everything else stays.
   */
  lemma TurnMeans(m: Maze, tick: nat, st: Store, k: int, st': Store, r: Turn)
    requires 0 <= k < |st.slots| && st.slots[k].id != 0 && RespawnOutcome(m, tick, st, k, st', r)
    ensures var e := st.slots[k];
            if !(e.kind == Player && e.flags.dead && e.id in st.players && st.players[e.id].hasRespawnAt
                 && st.players[e.id].respawnAt == tick) then st' == st
            else if forall t :: !OpenSpawn(m, st.slots, t) then
              st' == st.(players := st.players[e.id := st.players[e.id].(respawnAt := tick + 1)])
            else
              && |st'.slots| == |st.slots| && e.id in st'.players
              && r.Back? && OpenSpawn(m, st.slots, r.tile)
              && (st'.slots[k].x, st'.slots[k].y) == (r.tile.0 * 256 + 128, r.tile.1 * 256 + 128)
              && JustBack(m, tick, e, st.players[e.id], st'.slots[k], st'.players[e.id])
              && st' == st.(slots := st.slots[k := st'.slots[k]],
                            players := st.players[e.id := st'.players[e.id]], histories := st'.histories)
              && st'.histories == if e.id in st.histories then st.histories[e.id := []] else st.histories
  {
    forall t
      ensures SafeSpawn.Haven(m, st.slots, t) <==> OpenSpawn(m, st.slots, t)
    {
    }
    hide SafeSpawn.Haven, OpenSpawn, SafeSpawn.AmongThree;
  }

  /** Step 8: a dead player whose tick has come is back, or no spawn tile is free; nobody else's place changes. */
  lemma WhoReturns(m: Maze, tick: nat, st0: Store, st: Store, i: int)
    requires RespawnedStore(m, tick, st0, st) && 0 <= i < |st0.slots| && st0.slots[i].id != 0
    ensures |st.slots| == |st0.slots| && st.players.Keys == st0.players.Keys
    ensures var e, e' := st0.slots[i], st.slots[i];
            var due := e.kind == Player && e.flags.dead && e.id in st0.players && st0.players[e.id].hasRespawnAt
                       && st0.players[e.id].respawnAt == tick;
            && (!due ==> e' == e)
            && (due && e' != e ==> JustBack(m, tick, e, st0.players[e.id], e', st.players[e.id]))
            && (due && e' == e ==> forall t :: !OpenSpawn(m, st.slots, t))
  {
    hide RespawnedStore, AloneAt, OpenSpawn;
    SleepsOrWakes(m, tick, st0, st, i);
    if Due(st0, tick, st0.slots[i]) && st.slots[i] == st0.slots[i] { NoneOpen(m, tick, st0, st, i); }
  }

  lemma SleepsOrWakes(m: Maze, tick: nat, st0: Store, st: Store, i: int)
    requires RespawnedStore(m, tick, st0, st) && 0 <= i < |st0.slots|
    ensures |st.slots| == |st0.slots| && st.players.Keys == st0.players.Keys && Wakes(m, tick, st0, st, i)
  {
  }

  lemma NoneOpen(m: Maze, tick: nat, st0: Store, st: Store, i: int)
    requires RespawnedStore(m, tick, st0, st) && 0 <= i < |st0.slots| && |st.slots| == |st0.slots|
    requires Due(st0, tick, st0.slots[i]) && st.slots[i] == st0.slots[i]
    ensures forall t :: !OpenSpawn(m, st.slots, t)
  {
    assert Left(m, tick, st0, st, i);
    hide RespawnedStore;
    forall t
      ensures SafeSpawn.Haven(m, st.slots, t) <==> OpenSpawn(m, st.slots, t)
    {
    }
  }

  /** Step 8.5: protection is over in the tick it was to last to. */
  lemma ProtectionEnds(tick: nat, st0: Store, st: Store, i: int)
    requires UnshieldedStore(tick, st0, st) && 0 <= i < |st0.slots|
    requires st0.slots[i].id != 0 && st0.slots[i].kind == Player && st0.slots[i].id in st0.players
    ensures |st.slots| == |st0.slots| && st0.slots[i].id in st.players
    ensures var until := st0.players[st0.slots[i].id].spawnInvulnUntil;
            if 0 < until <= tick then
              && st.slots[i] == st0.slots[i].(flags := st0.slots[i].flags.(invuln := false))
              && st.players[st0.slots[i].id].spawnInvulnUntil == 0
            else st.slots[i] == st0.slots[i]
  {
  }

  /**
   Step 9: dead generators and snipes go, and dead players that are out or never come back; all others stay as they
   are. Only those out for good keep their record.
   */
  lemma WhoIsCleared(noRespawn: bool, st0: Store, st: Store, i: int)
    requires CollectedStore(noRespawn, st0, st) && 0 <= i < |st0.slots| && st0.slots[i].id != 0
    ensures |st.slots| == |st0.slots|
    ensures var e := st0.slots[i];
            var out := e.id in st0.players && st0.players[e.id].eliminated;
            && (st.slots[i] == FREE || st.slots[i] == e)
            && (st.slots[i] != e <==>
                  e.flags.dead && (e.kind == Generator || e.kind == Snipe || (e.kind == Player && (noRespawn || out))))
            && (out ==> e.id in st.players && st.players[e.id] == st0.players[e.id])
  {
    hide MachinesKept, Present;
  }

  /** Those that stay keep their timers and their minds. */
  lemma MachinesStay(noRespawn: bool, st0: Store, st: Store, i: int)
    requires CollectedStore(noRespawn, st0, st) && 0 <= i < |st0.slots| && st0.slots[i].id != 0 && Unique(st0.slots)
    requires |st.slots| == |st0.slots| && st.slots[i] == st0.slots[i]
    ensures var id := st0.slots[i].id;
            && (id in st0.generators ==> id in st.generators && st.generators[id] == st0.generators[id])
            && (id in st0.snipes ==> id in st.snipes && st.snipes[id] == st0.snipes[id])
  {
    var id := st0.slots[i].id;
    assert MachinesKept(st0, st);
    if Freed(st0.slots, st.slots, id) {
      var j :| 0 <= j < |st0.slots| && st0.slots[j].id == id && st.slots[j].id == 0;
      OneSlot(st0.slots, i, j);
    }
    hide CollectedStore;
  }

  // ---- samples ----

  /** A shot delayed by owt ticks is judged by how things stood owt + 2 ticks ago, but never more than eight. */
  lemma ViewTick(now: nat, owt: nat)
    ensures var back := if owt + 2 <= 8 then owt + 2 else 8;
            TView(now, owt) == if back <= now then now - back else 0
  {
  }

  /** Nine samples are kept. */
  lemma NineKept(log: seq<Sample>)
    ensures Kept(log) == if |log| < 9 then |log| else 9
  {
  }

  /** Step 4.9: everyone is sampled as it stands; what is left of the departed goes when it is two ticks old. */
  lemma WhoIsSampled(tick: nat, st0: Store, st: Store, p: ID)
    requires RecordedStore(tick, st0, st) && p != 0
    ensures forall i | 0 <= i < |st0.slots| && st0.slots[i].id == p ::
              var e, before := st0.slots[i], if p in st0.histories then st0.histories[p] else [];
              p in st.histories && st.histories[p] == before + [Sample(tick, e.x, e.y, e.kind, e.flags)]
    ensures (forall i | 0 <= i < |st0.slots| :: st0.slots[i].id != p) ==>
              (p in st.histories <==>
                 p in st0.histories && st0.histories[p] != []
                 && st0.histories[p][|st0.histories[p]| - 1].tick + 1 >= tick)
  {
  }
}
