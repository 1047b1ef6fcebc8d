/** Generators letting snipes out. */
module Emission {
  import opened Options
  import opened Grid
  import opened Physics
  import opened Entities
  import opened Slab
  import opened Ledger
  import opened SimState
  import opened Movement
  import opened SnipeMind
  import opened Firing

  const EMIT_RING := (GENERATOR_HALF + SNIPE_HALF) / SUBTILE + 1
  const EMIT_MIN := 120
  const EMIT_MAX := 240

  /** The eight neighbours in their fixed order N, E, S, W, NE, SE, SW, NW, on the emission ring. */
  function Offset(i: int): (int, int) {
    var d := EMIT_RING;
    if i == 0 then (0, -d) else if i == 1 then (d, 0) else if i == 2 then (0, d) else if i == 3 then (-d, 0)
    else if i == 4 then (d, -d) else if i == 5 then (d, d) else if i == 6 then (-d, d) else (-d, -d)
  }

  function RingTile(gen: Entity, rotation: nat, i: nat): (int, int) {
    var (dx, dy) := Offset((rotation + i) % 8);
    (TruncDiv(gen.x, SUBTILE) + dx, TruncDiv(gen.y, SUBTILE) + dy)
  }

  function SnipeBox(t: (int, int)): Box { Box(TileMid(t.0), TileMid(t.1), SNIPE_HALF) }

  ghost predicate Vacant(slots: seq<Entity>, b: Box) {
    forall i | 0 <= i < |slots| && Live(slots[i]) :: !Overlaps(b, BoxOf(slots[i]))
  }

  /** A snipe can be put down here: plain floor, nobody in the way, and no wall touched. */
  ghost predicate Fits(m: Maze, slots: seq<Entity>, t: (int, int)) {
    At(m, t.0, t.1) == Floor && Vacant(slots, SnipeBox(t)) && Free(AlongX(m), TileMid(t.0), TileMid(t.1), SNIPE_HALF)
  }

  method IsVacant(slots: seq<Entity>, b: Box) returns (ok: bool)
    ensures ok <==> Vacant(slots, b)
  {
    for j := 0 to |slots|
      invariant forall i | 0 <= i < j && Live(slots[i]) :: !Overlaps(b, BoxOf(slots[i]))
    {
      if Live(slots[j]) && Overlaps(b, BoxOf(slots[j])) {
        return false;
      }
    }
    return true;
  }

  /** The first ring tile, in the generator's own rotation, where a snipe fits. */
  method FindEmissionSlot(m: Maze, slots: seq<Entity>, gen: Entity, rotation: nat) returns (t: Option<(int, int)>)
    requires WideShape(AlongX(m))
    ensures t.Some? ==> FirstFit(m, slots, gen, rotation, t.value)
    ensures t.None? ==> forall i: nat | i < 8 :: !Fits(m, slots, RingTile(gen, rotation, i))
  {
    hide WideShape, RingTile, Free, Vacant;
    for i := 0 to 8
      invariant forall j: nat | j < i :: !Fits(m, slots, RingTile(gen, rotation, j))
    {
      var n := RingTile(gen, rotation, i);
      if At(m, n.0, n.1) == Floor {
        var ok := IsVacant(slots, SnipeBox(n));
        if ok {
          var hit := HitsWall(m, TileMid(n.0), TileMid(n.1));
          if !hit {
            assert Fits(m, slots, n);
            return Some(n);
          }
        }
      }
    }
    return None;
  }

  function Hatchling(id: ID, gen: Entity, t: (int, int)): Entity {
    var x, y := TileMid(t.0), TileMid(t.1);
    Entity(id, Snipe, 1, Dir8Toward(gen.x, gen.y, x, y), Flags(false, true, false), x, y, 0, 0)
  }

  function Snipes(slots: seq<Entity>): nat {
    if slots == [] then 0
    else Snipes(slots[..|slots| - 1]) + if LiveSnipe(slots[|slots| - 1]) then 1 else 0
  }

  lemma {:induction false} OneMoreSnipe(slots: seq<Entity>, k: int, e: Entity)
    requires 0 <= k < |slots| && slots[k].id == 0 && LiveSnipe(e)
    ensures Snipes(slots[k := e]) == Snipes(slots) + 1
  {
    var last := |slots| - 1;
    if k == last {
      assert slots[k := e][..last] == slots[..last];
    } else {
      OneMoreSnipe(slots[..last], k, e);
      assert slots[k := e][..last] == slots[..last][k := e];
    }
  }

  /** No snipe lies dead in the slab: none does before the shots of a tick are resolved. */
  predicate SnipesLive(slots: seq<Entity>) {
    forall i | 0 <= i < |slots| && IsOf(slots[i], Snipe) :: !slots[i].flags.dead
  }

  lemma {:induction false} SnipesAre(slots: seq<Entity>)
    requires SnipesLive(slots)
    ensures Snipes(slots) == Population(slots, Snipe)
  {
    if slots != [] {
      SnipesAre(slots[..|slots| - 1]);
    }
  }

  lemma GrownSnipesLive(st0: Store, st: Store)
    requires Grown(st0, st) && SnipesLive(st0.slots)
    ensures SnipesLive(st.slots)
  {
  }

  method CountSnipes(slots: seq<Entity>) returns (n: nat)
    ensures n == Snipes(slots)
  {
    n := 0;
    for i := 0 to |slots|
      invariant n == Snipes(slots[..i])
    {
      assert slots[..i + 1][..i] == slots[..i];
      if LiveSnipe(slots[i]) {
        n := n + 1;
      }
    }
    assert slots[..|slots|] == slots;
  }

  // ---- one snipe more ----

  function Hatched(st: Store, k: int, gen: Entity, t: (int, int), tick: nat): Store
    requires 0 <= k < |st.slots|
  {
    st.(slots := st.slots[k := Hatchling(st.nextID, gen, t)],
        snipes := st.snipes[st.nextID := SnipeState(gen.id, tick, NEWBORN)],
        nextID := st.nextID + 1)
  }

  lemma HatchKeeps(m: Maze, startLives: nat, st: Store, log: seq<LifeEvent>, k: int, gen: Entity, t: (int, int),
                   tick: nat)
    requires Inv(m, startLives, st, log) && 0 <= k < |st.slots| && st.slots[k].id == 0 && st.nextID != MAX_ID
    requires Fits(m, st.slots, t) && HasRoomFor(st.slots, Snipe)
    ensures Inv(m, startLives, Hatched(st, k, gen, t, tick), log)
  {
    assert 0 < st.nextID <= MAX_ID;
    assert Standing(m, Hatchling(st.nextID, gen, t));
    hide Inv, Standing, Fits;
    AddKeeps(m, startLives, st, Hatched(st, k, gen, t, tick), log, k, Hatchling(st.nextID, gen, t));
  }

  /**
   Unlike a shot, an emission takes its ID first; with fewer snipes than the cap there is always a slot to go with it.
   */
  method SpawnSnipeAt(ghost m: Maze, ghost startLives: nat, ghost log: seq<LifeEvent>, st: Store, gen: Entity,
                      t: (int, int), tick: nat)
    returns (st': Store, k: int)
    requires Inv(m, startLives, st, log) && Fits(m, st.slots, t) && HasRoomFor(st.slots, Snipe)
    ensures Inv(m, startLives, st', log)
    ensures -1 <= k < |st.slots|
    ensures k >= 0 ==> st.nextID != MAX_ID && st.slots[k].id == 0 && st' == Hatched(st, k, gen, t, tick)
    ensures k == -1 <==> st.nextID == MAX_ID
    ensures k == -1 ==> st' == st
  {
    assert 0 < st.nextID <= MAX_ID;
    NeverFull(m, startLives, st, log);
    hide Inv, Fits;
    var (id, nextID) := AllocID(st.nextID);
    if id == 0 {
      return st, -1;
    }
    k := Alloc(st.slots);
    assert k >= 0;
    HatchKeeps(m, startLives, st, log, k, gen, t, tick);
    st' := st.(slots := st.slots[k := Hatchling(id, gen, t)],
               snipes := st.snipes[id := SnipeState(gen.id, tick, NEWBORN)],
               nextID := nextID);
  }

  // ---- step 4.6 ----

  predicate Emitter(st: Store, e: Entity) {
    Live(e) && e.kind == Generator && e.id in st.generators
  }

  ghost predicate AloneAt(slots: seq<Entity>, k: int)
    requires 0 <= k < |slots|
  {
    forall j | 0 <= j < |slots| && j != k && Live(slots[j]) :: !Overlaps(BoxOf(slots[k]), BoxOf(slots[j]))
  }

  /** Slot k holds a snipe just let out on the ring of this generator. */
  ghost predicate HatchedFrom(m: Maze, tick: nat, st: Store, gen: Entity, rotation: nat, k: int)
    requires 0 <= k < |st.slots|
  {
    var e := st.slots[k];
    && e.id != 0
      && (exists i: nat | i < 8 ::
            e == Hatchling(e.id, gen, RingTile(gen, rotation, i))
              && At(m, RingTile(gen, rotation, i).0, RingTile(gen, rotation, i).1) == Floor)
    && e.id in st.snipes && st.snipes[e.id] == SnipeState(gen.id, tick, NEWBORN)
  }

  ghost predicate NewSnipe(m: Maze, tick: nat, st0: Store, st: Store, k: int)
    requires 0 <= k < |st.slots|
  {
    && AloneAt(st.slots, k)
    && exists j | 0 <= j < |st0.slots| && Emitter(st0, st0.slots[j]) ::
         HatchedFrom(m, tick, st, st0.slots[j], st0.generators[st0.slots[j].id].rotation, k)
  }

  /**
   A generator whose turn is past: it cooled, or let out a snipe and drew a new cooldown, or found the cap reached or
   its ring full.
   */
  ghost predicate HadTurn(m: Maze, cap: nat, tick: nat, st0: Store, st: Store, gen: Entity) {
    && gen.id in st0.generators && gen.id in st.generators && |st.slots| == |st0.slots|
    && var was, now := st0.generators[gen.id], st.generators[gen.id];
       if was.cooldown > 0 then now == was.(cooldown := was.cooldown - 1)
       else if now == was then
              Snipes(st.slots) >= cap || forall i: nat | i < 8 :: !Fits(m, st.slots, RingTile(gen, was.rotation, i))
       else
         && now.rotation == was.rotation && EMIT_MIN <= now.cooldown <= EMIT_MAX
         && exists k | 0 <= k < |st.slots| && st0.slots[k].id == 0 :: HatchedFrom(m, tick, st, gen, was.rotation, k)
  }

  ghost predicate Grows(st0: Store, st: Store) {
    && Grown(st0, st)
    && (forall i | 0 <= i < |st.slots| && st0.slots[i].id != 0 :: st.slots[i] == st0.slots[i])
  }

  ghost predicate Hatches(m: Maze, tick: nat, st0: Store, st: Store) {
    && Grows(st0, st)
    && (forall k | 0 <= k < |st.slots| && st0.slots[k].id == 0 && st.slots[k].id != 0 :: NewSnipe(m, tick, st0, st, k))
  }

  ghost predicate Turns(m: Maze, cap: nat, tick: nat, st0: Store, done: set<ID>, st: Store) {
    forall i | 0 <= i < |st0.slots| && st0.slots[i].id in done && Emitter(st0, st0.slots[i]) ::
      HadTurn(m, cap, tick, st0, st, st0.slots[i])
  }

  /** The snipes there were are as they were, and the new ones go by later IDs. */
  ghost predicate SnipesKept(st0: Store, st: Store) {
    && (forall p | p in st0.snipes :: p in st.snipes && st.snipes[p] == st0.snipes[p])
    && (forall p | p in st.snipes && p !in st0.snipes :: st0.nextID <= p < st.nextID)
  }

  ghost predicate EmittedBy(m: Maze, cap: nat, tick: nat, st0: Store, done: set<ID>, st: Store) {
    && Hatches(m, tick, st0, st) && Turns(m, cap, tick, st0, done, st)
    && st == st0.(slots := st.slots, snipes := st.snipes, generators := st.generators, nextID := st.nextID)
    && SnipesKept(st0, st)
    && st.generators.Keys == st0.generators.Keys
    && (forall g | g in st0.generators && g !in done :: st.generators[g] == st0.generators[g])
    && Snipes(st0.slots) <= Snipes(st.slots) && (Snipes(st.slots) <= Snipes(st0.slots) || Snipes(st.slots) <= cap)
  }

  /** Step 4.6 as a whole. */
  ghost predicate EmittedStore(m: Maze, cap: nat, tick: nat, st0: Store, st: Store) {
    EmittedBy(m, cap, tick, st0, st0.generators.Keys, st)
  }

  lemma HatchGrows(m: Maze, cap: nat, tick: nat, st0: Store, done: set<ID>, st: Store, k: int, gen: Entity,
                   t: (int, int), cooldown: nat)
    requires EmittedBy(m, cap, tick, st0, done, st) && 0 < st0.nextID && gen.id in st.generators
    requires 0 <= k < |st.slots| && st.slots[k].id == 0 && Snipes(st.slots) < cap
    ensures var h := Hatched(st, k, gen, t, tick);
            var st' := h.(generators := h.generators[gen.id := st.generators[gen.id].(cooldown := cooldown)]);
            && Grows(st0, st')
            && Snipes(st'.slots) == Snipes(st.slots) + 1
  {
    OneMoreSnipe(st.slots, k, Hatchling(st.nextID, gen, t));
    hide NewSnipe, HadTurn;
  }

  lemma StillCrowded(m: Maze, a: seq<Entity>, b: seq<Entity>, t: (int, int))
    requires |b| == |a| && forall i | 0 <= i < |a| && a[i].id != 0 :: b[i] == a[i]
    ensures Fits(m, b, t) ==> Fits(m, a, t)
  {
    forall i | 0 <= i < |a| && Live(a[i])
      ensures Vacant(b, SnipeBox(t)) ==> !Overlaps(SnipeBox(t), BoxOf(a[i]))
    {
      assert b[i] == a[i];
    }
  }

  lemma OverlapsBothWays(a: Box, b: Box)
    ensures Overlaps(a, b) <==> Overlaps(b, a)
  {
  }

  /** The store once a snipe is out and its generator has drawn a new cooldown. */
  function Emitted(st: Store, k: int, gen: Entity, t: (int, int), tick: nat, cooldown: nat): Store
    requires 0 <= k < |st.slots| && gen.id in st.generators
  {
    var h := Hatched(st, k, gen, t, tick);
    h.(generators := h.generators[gen.id := st.generators[gen.id].(cooldown := cooldown)])
  }

  lemma StillAlone(st: Store, k: int, e: Entity, j: int)
    requires 0 <= k < |st.slots| && st.slots[k].id == 0 && Vacant(st.slots, BoxOf(e))
    requires 0 <= j < |st.slots| && j != k && Live(st.slots[j]) && AloneAt(st.slots, j)
    ensures AloneAt(st.slots[k := e], j)
  {
    OverlapsBothWays(BoxOf(e), BoxOf(st.slots[j]));
    hide Overlaps, BoxOf;
  }

  lemma StillNew(m: Maze, tick: nat, st0: Store, st: Store, k: int, gen: Entity, t: (int, int), cooldown: nat, j: int)
    requires 0 <= k < |st.slots| && st.slots[k].id == 0 && Vacant(st.slots, SnipeBox(t)) && gen.id in st.generators
    requires 0 <= j < |st.slots| && Live(st.slots[j]) && st.slots[j].id < st.nextID && NewSnipe(m, tick, st0, st, j)
    ensures NewSnipe(m, tick, st0, Emitted(st, k, gen, t, tick, cooldown), j)
  {
    StillAlone(st, k, Hatchling(st.nextID, gen, t), j);
    var st' := Emitted(st, k, gen, t, tick, cooldown);
    var g :| 0 <= g < |st0.slots| && Emitter(st0, st0.slots[g])
             && HatchedFrom(m, tick, st, st0.slots[g], st0.generators[st0.slots[g].id].rotation, j);
    assert HatchedFrom(m, tick, st', st0.slots[g], st0.generators[st0.slots[g].id].rotation, j);
  }

  lemma JustNew(m: Maze, tick: nat, st0: Store, st: Store, k: int, g: int, t: (int, int), cooldown: nat)
    requires 0 <= k < |st.slots| && st.slots[k].id == 0 && Fits(m, st.slots, t)
    requires 0 <= g < |st0.slots| && Emitter(st0, st0.slots[g]) && st0.slots[g].id in st.generators
    requires 0 < st.nextID
             && exists i: nat | i < 8 :: t == RingTile(st0.slots[g], st0.generators[st0.slots[g].id].rotation, i)
    ensures var st' := Emitted(st, k, st0.slots[g], t, tick, cooldown);
            NewSnipe(m, tick, st0, st', k)
              && HatchedFrom(m, tick, st', st0.slots[g], st0.generators[st0.slots[g].id].rotation, k)
  {
    hide RingTile, Dir8Toward, Free, Overlaps;
    var st' := Emitted(st, k, st0.slots[g], t, tick, cooldown);
    assert BoxOf(st'.slots[k]) == SnipeBox(t);
    assert AloneAt(st'.slots, k);
    assert HatchedFrom(m, tick, st', st0.slots[g], st0.generators[st0.slots[g].id].rotation, k);
  }

  lemma StillHatched(m: Maze, tick: nat, st: Store, st': Store, gen: Entity, rotation: nat, k: int)
    requires 0 <= k < |st.slots| == |st'.slots| && HatchedFrom(m, tick, st, gen, rotation, k)
    requires st'.slots[k] == st.slots[k] || st.slots[k].id == 0
    requires st.slots[k].id in st.snipes ==>
               st.slots[k].id in st'.snipes && st'.snipes[st.slots[k].id] == st.snipes[st.slots[k].id]
    ensures HatchedFrom(m, tick, st', gen, rotation, k)
  {
    hide RingTile, Hatchling, At;
  }

  /** A turn already had stays had while the slab only grows. */
  lemma StillHad(m: Maze, cap: nat, tick: nat, st0: Store, st: Store, st': Store, gen: Entity)
    requires gen.id in st0.generators && gen.id in st.generators && |st.slots| == |st0.slots|
             && HadTurn(m, cap, tick, st0, st, gen)
    requires gen.id in st'.generators && st'.generators[gen.id] == st.generators[gen.id]
    requires |st'.slots| == |st.slots|
             && forall i | 0 <= i < |st.slots| && st.slots[i].id != 0 :: st'.slots[i] == st.slots[i]
    requires forall p | p in st.snipes && p != st.nextID :: p in st'.snipes && st'.snipes[p] == st.snipes[p]
    requires forall i | 0 <= i < |st.slots| :: st.slots[i].id < st.nextID
    requires Snipes(st.slots) <= Snipes(st'.slots)
    ensures HadTurn(m, cap, tick, st0, st', gen)
  {
    var was, now := st0.generators[gen.id], st.generators[gen.id];
    hide Fits, HatchedFrom, Snipes, RingTile;
    if was.cooldown == 0 && now == was {
      forall i: nat | i < 8
        ensures Fits(m, st'.slots, RingTile(gen, was.rotation, i)) ==> Fits(m, st.slots, RingTile(gen, was.rotation, i))
      {
        StillCrowded(m, st.slots, st'.slots, RingTile(gen, was.rotation, i));
      }
    } else if was.cooldown == 0 {
      var k :| 0 <= k < |st.slots| && st0.slots[k].id == 0 && HatchedFrom(m, tick, st, gen, was.rotation, k);
      StillHatched(m, tick, st, st', gen, was.rotation, k);
    }
  }

  datatype Emission = Cooling | Blocked | Out(slot: nat, tile: (int, int), cooldown: nat) | Failed

  /** The first tile of the ring, from the rotation on, that a snipe fits on. */
  ghost predicate FirstFit(m: Maze, slots: seq<Entity>, gen: Entity, rotation: nat, t: (int, int)) {
    exists i: nat | i < 8 :: t == RingTile(gen, rotation, i) && Fits(m, slots, t)
                             && forall j: nat | j < i :: !Fits(m, slots, RingTile(gen, rotation, j))
  }

  ghost predicate EmitOutcome(m: Maze, cap: nat, tick: nat, st: Store, gen: Entity, st': Store, r: Emission)
    requires gen.id in st.generators
  {
    var gs := st.generators[gen.id];
    match r
    case Cooling => gs.cooldown > 0
                    && st' == st.(generators := st.generators[gen.id := gs.(cooldown := gs.cooldown - 1)])
    case Blocked => gs.cooldown == 0 && st' == st
                    && (Snipes(st.slots) >= cap || forall i: nat | i < 8 ::
                                                     !Fits(m, st.slots, RingTile(gen, gs.rotation, i)))
    case Out(k, t, c) =>
      && gs.cooldown == 0 && Snipes(st.slots) < cap && k < |st.slots| && st.slots[k].id == 0
      && FirstFit(m, st.slots, gen, gs.rotation, t)
      && EMIT_MIN <= c <= EMIT_MAX && st' == Emitted(st, k, gen, t, tick, c)
    case Failed => Starving(m, cap, st, gen, gs) && st' == st
  }

  /** A generator that is due, has room for its snipe and a tile to put it on, but no ID to give it. */
  ghost predicate Starving(m: Maze, cap: nat, st: Store, gen: Entity, gs: GenState) {
    && gs.cooldown == 0 && Snipes(st.slots) < cap && st.nextID == MAX_ID
    && exists i: nat :: i < 8 && Fits(m, st.slots, RingTile(gen, gs.rotation, i))
  }

  /** The random part of a fresh cooldown. */
  method DrawCooldown() returns (c: nat)
    ensures EMIT_MIN <= c <= EMIT_MAX
  {
    c :| EMIT_MIN <= c <= EMIT_MAX;
  }

  lemma GeneratorsKeep(m: Maze, startLives: nat, st: Store, st': Store, log: seq<LifeEvent>)
    requires Inv(m, startLives, st, log) && st' == st.(generators := st'.generators)
    ensures Inv(m, startLives, st', log)
  {
    hide Safe, OnceALife, Account, AliveIn, Unique;
    forall i | 0 <= i < |st'.slots|
      ensures Registered(st', st'.slots[i]) && Vitals(st', log, st'.slots[i])
    {
      assert Registered(st, st.slots[i]) && Vitals(st, log, st.slots[i]);
    }
  }

  method EmitOne(m: Maze, ghost startLives: nat, ghost log: seq<LifeEvent>, cap: nat, tick: nat, st: Store, gen: Entity,
                 liveSnipes: nat)
    returns (st': Store, r: Emission)
    requires gen.id in st.generators && cap <= MAX_SNIPES && SnipesLive(st.slots) && WideShape(AlongX(m))
    requires liveSnipes == Snipes(st.slots) && Inv(m, startLives, st, log)
    ensures EmitOutcome(m, cap, tick, st, gen, st', r) && Inv(m, startLives, st', log)
  {
    hide Inv, Fits, Snipes, RingTile, WideShape, SnipesLive, Emitted;
    SnipesAre(st.slots);
    var gs := st.generators[gen.id];
    if gs.cooldown > 0 {
      st' := st.(generators := st.generators[gen.id := gs.(cooldown := gs.cooldown - 1)]);
      GeneratorsKeep(m, startLives, st, st', log);
      return st', Cooling;
    }
    if liveSnipes >= cap {
      return st, Blocked;
    }
    var t := FindEmissionSlot(m, st.slots, gen, gs.rotation);
    if t.None? {
      return st, Blocked;
    }
    st', r := EmitAt(m, startLives, log, tick, st, gen, t.value);
  }

  /** Onto a tile found for it; the cooldown is drawn only then. */
  method EmitAt(ghost m: Maze, ghost startLives: nat, ghost log: seq<LifeEvent>, tick: nat, st: Store, gen: Entity,
                t: (int, int))
    returns (st': Store, r: Emission)
    requires gen.id in st.generators && HasRoomFor(st.slots, Snipe) && Fits(m, st.slots, t)
             && Inv(m, startLives, st, log)
    ensures if st.nextID == MAX_ID then st' == st && r == Failed
            else r.Out? && r.slot < |st.slots| && st.slots[r.slot].id == 0 && r.tile == t
                 && EMIT_MIN <= r.cooldown <= EMIT_MAX && st' == Emitted(st, r.slot, gen, t, tick, r.cooldown)
    ensures Inv(m, startLives, st', log)
  {
    hide Inv, Fits, HasRoomFor, Hatchling;
    var k;
    st', k := SpawnSnipeAt(m, startLives, log, st, gen, t, tick);
    if k < 0 {
      return st', Failed;
    }
    var c := DrawCooldown();
    ghost var st1 := st';
    st' := st'.(generators := st'.generators[gen.id := st'.generators[gen.id].(cooldown := c)]);
    GeneratorsKeep(m, startLives, st1, st', log);
    r := Out(k, t, c);
  }

  lemma AwayNew(m: Maze, cap: nat, tick: nat, st0: Store, done: set<ID>, st: Store, g: int, k: int, t: (int, int),
                c: nat)
    requires EmittedBy(m, cap, tick, st0, done, st) && 0 < st.nextID
    requires forall i | 0 <= i < |st.slots| :: st.slots[i].id < st.nextID
    requires 0 <= g < |st0.slots| && Emitter(st0, st0.slots[g]) && 0 <= k < |st.slots| && st.slots[k].id == 0
    requires Fits(m, st.slots, t)
             && exists i: nat | i < 8 :: t == RingTile(st0.slots[g], st0.generators[st0.slots[g].id].rotation, i)
    requires Grows(st0, Emitted(st, k, st0.slots[g], t, tick, c))
    ensures var st' := Emitted(st, k, st0.slots[g], t, tick, c);
            Hatches(m, tick, st0, st')
  {
    var st' := Emitted(st, k, st0.slots[g], t, tick, c);
    JustNew(m, tick, st0, st, k, g, t, c);
    forall i | 0 <= i < |st'.slots| && st0.slots[i].id == 0 && st'.slots[i].id != 0
      ensures NewSnipe(m, tick, st0, st', i)
    {
      if i != k {
        assert NewSnipe(m, tick, st0, st, i) && Live(st.slots[i]);
        hide NewSnipe, EmittedBy, HatchedFrom;
        StillNew(m, tick, st0, st, k, st0.slots[g], t, c, i);
      }
    }
  }

  lemma AwayTurns(m: Maze, cap: nat, tick: nat, st0: Store, done: set<ID>, st: Store, g: int, k: int, t: (int, int),
                  c: nat)
    requires EmittedBy(m, cap, tick, st0, done, st) && Unique(st0.slots)
    requires forall i | 0 <= i < |st.slots| :: st.slots[i].id < st.nextID
    requires 0 <= g < |st0.slots| && Emitter(st0, st0.slots[g]) && st0.slots[g].id !in done
    requires 0 <= k < |st.slots|
             && EmitOutcome(m, cap, tick, st, st0.slots[g], Emitted(st, k, st0.slots[g], t, tick, c), Out(k, t, c))
    requires HatchedFrom(m, tick, Emitted(st, k, st0.slots[g], t, tick, c), st0.slots[g],
                         st0.generators[st0.slots[g].id].rotation, k)
    requires Snipes(Emitted(st, k, st0.slots[g], t, tick, c).slots) == Snipes(st.slots) + 1
    ensures var st' := Emitted(st, k, st0.slots[g], t, tick, c);
            Turns(m, cap, tick, st0, done + {st0.slots[g].id}, st')
  {
    var gen := st0.slots[g];
    var st' := Emitted(st, k, gen, t, tick, c);
    hide NewSnipe, Fits, HatchedFrom, Snipes, RingTile, Hatchling;
    assert st0.slots[k].id == 0 && HadTurn(m, cap, tick, st0, st', gen);
    hide HadTurn;
    forall i | 0 <= i < |st0.slots| && st0.slots[i].id in done + {gen.id} && Emitter(st0, st0.slots[i])
      ensures HadTurn(m, cap, tick, st0, st', st0.slots[i])
    {
      if st0.slots[i].id == gen.id {
        OneSlot(st0.slots, i, g);
      } else {
        StillHad(m, cap, tick, st0, st, st', st0.slots[i]);
      }
    }
  }

  /** The cap, the free slot and the vacant tile behind an emission. */
  lemma AwayGround(m: Maze, cap: nat, tick: nat, st: Store, gen: Entity, k: int, t: (int, int), c: nat)
    requires gen.id in st.generators && 0 <= k < |st.slots|
    requires EmitOutcome(m, cap, tick, st, gen, Emitted(st, k, gen, t, tick, c), Out(k, t, c))
    ensures st.slots[k].id == 0 && Snipes(st.slots) < cap && Fits(m, st.slots, t) && EMIT_MIN <= c <= EMIT_MAX
    ensures exists i: nat | i < 8 :: t == RingTile(gen, st.generators[gen.id].rotation, i)
  {
  }

  lemma AwayFrame(m: Maze, cap: nat, tick: nat, st0: Store, done: set<ID>, st: Store, gen: Entity, k: int,
                  t: (int, int), c: nat)
    requires EmittedBy(m, cap, tick, st0, done, st) && gen.id in st.generators && 0 <= k < |st.slots|
    requires var st' := Emitted(st, k, gen, t, tick, c);
             && Hatches(m, tick, st0, st') && Turns(m, cap, tick, st0, done + {gen.id}, st')
             && Snipes(st.slots) < cap && Snipes(st'.slots) == Snipes(st.slots) + 1
    requires st.nextID !in st.snipes && st0.nextID <= st.nextID
    ensures EmittedBy(m, cap, tick, st0, done + {gen.id}, Emitted(st, k, gen, t, tick, c))
  {
    hide Hatches, Turns, Snipes, Hatchling;
  }

  lemma EmitAway(m: Maze, cap: nat, tick: nat, st0: Store, done: set<ID>, st: Store, g: int, k: int, t: (int, int),
                 c: nat)
    requires EmittedBy(m, cap, tick, st0, done, st) && Unique(st0.slots) && 0 < st0.nextID <= st.nextID
    requires forall i | 0 <= i < |st.slots| :: st.slots[i].id < st.nextID
    requires 0 <= g < |st0.slots| && Emitter(st0, st0.slots[g]) && st0.slots[g].id !in done
    requires 0 <= k < |st.slots|
             && EmitOutcome(m, cap, tick, st, st0.slots[g], Emitted(st, k, st0.slots[g], t, tick, c), Out(k, t, c))
    requires st.nextID !in st.snipes
    ensures EmittedBy(m, cap, tick, st0, done + {st0.slots[g].id}, Emitted(st, k, st0.slots[g], t, tick, c))
  {
    var gen := st0.slots[g];
    assert gen.id in st.generators && gen.id in st0.generators && st.generators[gen.id] == st0.generators[gen.id] by {
      hide Hatches, Turns, Snipes, EmitOutcome;
    }
    hide *;
    AwayGround(m, cap, tick, st, gen, k, t, c);
    HatchGrows(m, cap, tick, st0, done, st, k, gen, t, c);
    JustNew(m, tick, st0, st, k, g, t, c);
    AwayNew(m, cap, tick, st0, done, st, g, k, t, c);
    AwayTurns(m, cap, tick, st0, done, st, g, k, t, c);
    AwayFrame(m, cap, tick, st0, done, st, gen, k, t, c);
  }

  lemma EmitQuiet(m: Maze, cap: nat, tick: nat, st0: Store, done: set<ID>, st: Store, g: int, st': Store, r: Emission)
    requires EmittedBy(m, cap, tick, st0, done, st) && Unique(st0.slots)
    requires forall i | 0 <= i < |st.slots| :: st.slots[i].id < st.nextID
    requires 0 <= g < |st0.slots| && Emitter(st0, st0.slots[g]) && st0.slots[g].id !in done
    requires EmitOutcome(m, cap, tick, st, st0.slots[g], st', r) && (r == Cooling || r == Blocked)
    ensures EmittedBy(m, cap, tick, st0, done + {st0.slots[g].id}, st')
  {
    var gen := st0.slots[g];
    forall i | 0 <= i < |st0.slots| && st0.slots[i].id in done + {gen.id} && Emitter(st0, st0.slots[i])
      ensures HadTurn(m, cap, tick, st0, st', st0.slots[i])
    {
      if st0.slots[i].id == gen.id {
        OneSlot(st0.slots, i, g);
      } else {
        StillHad(m, cap, tick, st0, st, st', st0.slots[i]);
      }
    }
    forall i | 0 <= i < |st'.slots| && st0.slots[i].id == 0 && st'.slots[i].id != 0
      ensures NewSnipe(m, tick, st0, st', i)
    {
      assert NewSnipe(m, tick, st0, st, i);
      SameNew(m, tick, st0, st, st', i);
    }
    hide HadTurn, NewSnipe, Fits, Hatchling, Snipes, RingTile;
  }

  lemma SameNew(m: Maze, tick: nat, st0: Store, st: Store, st': Store, k: int)
    requires 0 <= k < |st.slots| && NewSnipe(m, tick, st0, st, k) && st'.slots == st.slots && st'.snipes == st.snipes
    ensures NewSnipe(m, tick, st0, st', k)
  {
    var j :| 0 <= j < |st0.slots| && Emitter(st0, st0.slots[j])
             && HatchedFrom(m, tick, st, st0.slots[j], st0.generators[st0.slots[j].id].rotation, k);
    assert HatchedFrom(m, tick, st', st0.slots[j], st0.generators[st0.slots[j].id].rotation, k);
  }

  /** A generator's turn finds it, and its cooldown, as they were before the step; nothing else waits for one. */
  lemma TurnFinds(m: Maze, cap: nat, tick: nat, st0: Store, done: set<ID>, st: Store, ids: seq<ID>, k: int, idx: int)
    requires EmittedBy(m, cap, tick, st0, done, st) && Unique(st.slots) && IDsOf(st0.slots, ids) && 0 <= k < |ids|
    requires 0 <= idx < |st.slots| && st.slots[idx].id == ids[k]
    ensures st.slots[idx] == st0.slots[idx] && ids[k] != 0
    ensures Emitter(st, st.slots[idx]) <==> Emitter(st0, st0.slots[idx])
  {
    assert ids[k] in ids;
    var i :| 0 <= i < |st0.slots| && st0.slots[i].id == ids[k];
    assert st.slots[i] == st0.slots[i];
    OneSlot(st.slots, i, idx);
  }

  lemma EmitFinds(m: Maze, cap: nat, tick: nat, st0: Store, done: set<ID>, st: Store, ids: seq<ID>, k: int)
    requires EmittedBy(m, cap, tick, st0, done, st) && IDsOf(st0.slots, ids) && 0 <= k < |ids|
    ensures Present(st.slots, ids[k]) && |st.slots| == |st0.slots|
  {
    assert ids[k] in ids;
    var i :| 0 <= i < |st0.slots| && st0.slots[i].id == ids[k];
    assert st.slots[i] == st0.slots[i];
  }

  lemma NotAnEmitter(m: Maze, cap: nat, tick: nat, st0: Store, done: set<ID>, st: Store, idx: int)
    requires EmittedBy(m, cap, tick, st0, done, st) && Unique(st0.slots)
    requires 0 <= idx < |st0.slots| && st0.slots[idx].id != 0 && !Emitter(st0, st0.slots[idx])
    ensures EmittedBy(m, cap, tick, st0, done + {st0.slots[idx].id}, st)
  {
    forall i | 0 <= i < |st0.slots| && st0.slots[i].id in done + {st0.slots[idx].id} && Emitter(st0, st0.slots[i])
      ensures HadTurn(m, cap, tick, st0, st, st0.slots[i])
    {
      if st0.slots[i].id == st0.slots[idx].id { OneSlot(st0.slots, i, idx); }
    }
    hide HadTurn, NewSnipe, Snipes, Grown;
  }

  lemma AllHadTurn(m: Maze, cap: nat, tick: nat, st0: Store, ids: seq<ID>, st: Store)
    requires IDsOf(st0.slots, ids) && EmittedBy(m, cap, tick, st0, Prefix(ids, |ids|), st)
    ensures EmittedStore(m, cap, tick, st0, st)
  {
    forall i | 0 <= i < |st0.slots| && Emitter(st0, st0.slots[i])
      ensures HadTurn(m, cap, tick, st0, st, st0.slots[i])
    {
      assert Present(st0.slots, st0.slots[i].id);
      assert st0.slots[i].id in ids;
      assert st0.slots[i].id in Prefix(ids, |ids|);
    }
    hide HadTurn, NewSnipe, Snipes, Grown;
  }

  /** What holds even when the step is cut short. */
  ghost predicate OnlyGrew(st0: Store, st: Store) {
    && Grows(st0, st) && SnipesKept(st0, st)
    && st == st0.(slots := st.slots, snipes := st.snipes, generators := st.generators, nextID := st.nextID)
  }

  lemma EmittedGrew(m: Maze, cap: nat, tick: nat, st0: Store, done: set<ID>, st: Store, st': Store)
    requires EmittedBy(m, cap, tick, st0, done, st) && st' == st.(nextID := st'.nextID) && st.nextID <= st'.nextID
    ensures OnlyGrew(st0, st')
  {
  }

  lemma NothingEmitted(m: Maze, cap: nat, tick: nat, st: Store)
    ensures EmittedBy(m, cap, tick, st, {}, st)
  {
  }

  /** The next ID's turn. */
  method EmitTurn(m: Maze, ghost startLives: nat, ghost log: seq<LifeEvent>, cap: nat, tick: nat, ghost st0: Store,
                  ids: seq<ID>, k: int, st: Store, liveSnipes: nat)
    returns (st': Store, live: nat, failed: bool)
    requires 0 <= k < |ids| && EmittedBy(m, cap, tick, st0, Prefix(ids, k), st) && IDsOf(st0.slots, ids)
    requires WideShape(AlongX(m)) && Inv(m, startLives, st, log) && 0 < st0.nextID && Unique(st0.slots)
    requires liveSnipes == Snipes(st.slots) && SnipesLive(st0.slots) && cap <= MAX_SNIPES
    ensures Inv(m, startLives, st', log) && TurnTaken(m, cap, tick, st0, ids, k, st', live, failed)
  {
    hide *;
    AscendingIDs(st0.slots, ids);
    st', live, failed := st, liveSnipes, false;
    PrefixNext(ids, k);
    InvSlab(m, startLives, st, log);
    var idx := FindByID(st.slots, ids[k]);
    EmitFinds(m, cap, tick, st0, Prefix(ids, k), st, ids, k);
    TurnFinds(m, cap, tick, st0, Prefix(ids, k), st, ids, k, idx);
    var e := st.slots[idx];
    if Emitter(st, e) {
      EmitterHas(st, e);
      EmitterHas(st0, e);
      StillLive(m, cap, tick, st0, Prefix(ids, k), st);
      var r;
      st', r := EmitOne(m, startLives, log, cap, tick, st, e, liveSnipes);
      EmitNext(m, startLives, log, cap, tick, st0, Prefix(ids, k), st, idx, st', r);
      failed := r == Failed;
      if failed { StarvesAt(m, cap, tick, st0, ids, k, st, idx, st'); }
      live := if r.Out? then liveSnipes + 1 else liveSnipes;
    } else {
      NotAnEmitter(m, cap, tick, st0, Prefix(ids, k), st, idx);
    }
    TurnIsTaken(m, cap, tick, st0, ids, k, st', live, failed);
  }

  /** The step goes on with this many live snipes, or has failed. */
  ghost predicate TurnTaken(m: Maze, cap: nat, tick: nat, st0: Store, ids: seq<ID>, k: int, st: Store, live: nat,
                            failed: bool) {
    if failed then Starved(m, cap, tick, st0, st)
    else 0 <= k < |ids| && EmittedBy(m, cap, tick, st0, Prefix(ids, k + 1), st) && live == Snipes(st.slots)
  }

  lemma TurnIsTaken(m: Maze, cap: nat, tick: nat, st0: Store, ids: seq<ID>, k: int, st: Store, live: nat, failed: bool)
    requires 0 <= k < |ids|
    requires if failed then Starved(m, cap, tick, st0, st)
             else EmittedBy(m, cap, tick, st0, Prefix(ids, k + 1), st) && live == Snipes(st.slots)
    ensures TurnTaken(m, cap, tick, st0, ids, k, st, live, failed)
  {
  }

  lemma StillLive(m: Maze, cap: nat, tick: nat, st0: Store, done: set<ID>, st: Store)
    requires EmittedBy(m, cap, tick, st0, done, st) && SnipesLive(st0.slots)
    ensures SnipesLive(st.slots)
  {
    GrownSnipesLive(st0, st);
  }

  ghost predicate StarvedAt(m: Maze, cap: nat, st0: Store, st: Store, g: int) {
    && 0 <= g < |st0.slots| && Emitter(st0, st0.slots[g])
    && st0.slots[g].id in st.generators && st.generators[st0.slots[g].id] == st0.generators[st0.slots[g].id]
    && Starving(m, cap, st, st0.slots[g], st0.generators[st0.slots[g].id])
  }

  /** Step 4.6 broken off at such a generator: those before it have had their turn, the others have not. */
  ghost predicate Starved(m: Maze, cap: nat, tick: nat, st0: Store, st: Store) {
    exists g ::
      StarvedAt(m, cap, st0, st, g) && EmittedBy(m, cap, tick, st0, Below(st0.generators.Keys, st0.slots[g].id), st)
  }

  lemma AllOrStarved(m: Maze, cap: nat, tick: nat, st0: Store, st: Store)
    requires EmittedStore(m, cap, tick, st0, st)
    ensures !Starved(m, cap, tick, st0, st)
  {
    hide Hatches, Snipes, RingTile, Fits;
    forall g
      ensures !StarvedAt(m, cap, st0, st, g)
    {
      assert 0 <= g < |st0.slots| && Emitter(st0, st0.slots[g]) ==> HadTurn(m, cap, tick, st0, st, st0.slots[g]);
    }
  }

  lemma StarvesAt(m: Maze, cap: nat, tick: nat, st0: Store, ids: seq<ID>, k: int, st: Store, g: int, st': Store)
    requires IDsOf(st0.slots, ids) && 0 <= k < |ids| && EmittedBy(m, cap, tick, st0, Prefix(ids, k), st)
    requires 0 <= g < |st0.slots| && st0.slots[g].id == ids[k] && Emitter(st0, st0.slots[g]) && ids[k] in st.generators
    requires st.slots[g] == st0.slots[g] && EmitOutcome(m, cap, tick, st, st0.slots[g], st', Failed)
    ensures Starved(m, cap, tick, st0, st')
  {
    var done := Below(st0.generators.Keys, ids[k]);
    PrefixNext(ids, k);
    assert st.generators[ids[k]] == st0.generators[ids[k]] by { hide Hatches, Turns, Snipes, Starving; }
    assert StarvedAt(m, cap, st0, st, g);
    hide StarvedAt, EmitOutcome, Hatches, HadTurn, Snipes;
    forall i | 0 <= i < |st0.slots| && st0.slots[i].id in done && Emitter(st0, st0.slots[i])
      ensures st0.slots[i].id in Prefix(ids, k)
    {
      assert Present(st0.slots, st0.slots[i].id);
      var j :| 0 <= j < |ids| && ids[j] == st0.slots[i].id;
      assert j < k;
    }
    assert EmittedBy(m, cap, tick, st0, done, st);
  }

  lemma EmitterHas(st: Store, e: Entity)
    ensures Emitter(st, e) ==> e.id in st.generators
  {
  }

  lemma StarvedGrew(m: Maze, cap: nat, tick: nat, st0: Store, st: Store)
    requires Starved(m, cap, tick, st0, st)
    ensures OnlyGrew(st0, st) && st.nextID == MAX_ID
  {
    hide Turns, Hatches, Snipes, Fits;
    var g :| StarvedAt(m, cap, st0, st, g)
      && EmittedBy(m, cap, tick, st0, Below(st0.generators.Keys, st0.slots[g].id), st);
    EmittedGrew(m, cap, tick, st0, Below(st0.generators.Keys, st0.slots[g].id), st, st);
  }

  /**
   Step 4.6: every live generator takes its turn in ID order; one that finds no ID left halts the simulation after
   this tick.
   */
  method RunGeneratorEmissions(m: Maze, ghost startLives: nat, ghost log: seq<LifeEvent>, cap: nat, tick: nat,
                               st0: Store)
    returns (st: Store, failed: bool)
    requires GoodMaze(m) && Inv(m, startLives, st0, log) && SnipesLive(st0.slots) && cap <= MAX_SNIPES
    ensures Inv(m, startLives, st, log) && OnlyGrew(st0, st)
    ensures !failed ==> EmittedStore(m, cap, tick, st0, st)
    ensures failed <==> Starved(m, cap, tick, st0, st)
  {
    st, failed := st0, false;
    InvSlab(m, startLives, st, log);
    InvIDs(m, startLives, st, log);
    NothingEmitted(m, cap, tick, st);
    EmittedGrew(m, cap, tick, st0, {}, st, st);
    var liveSnipes := CountSnipes(st.slots);
    var ids := LiveIDsSorted(st0.slots);
    EmptyPrefix(ids);
    hide *;
    for k := 0 to |ids|
      invariant Inv(m, startLives, st, log) && EmittedBy(m, cap, tick, st0, Prefix(ids, k), st)
      invariant liveSnipes == Snipes(st.slots)
    {
      st, liveSnipes, failed := EmitTurn(m, startLives, log, cap, tick, st0, ids, k, st, liveSnipes);
      if failed {
        StarvedGrew(m, cap, tick, st0, st);
        return;
      }
    }
    AllHadTurn(m, cap, tick, st0, ids, st);
    AllOrStarved(m, cap, tick, st0, st);
    EmittedGrew(m, cap, tick, st0, Prefix(ids, |ids|), st, st);
  }

  lemma EmitNext(m: Maze, startLives: nat, log: seq<LifeEvent>, cap: nat, tick: nat, st0: Store, done: set<ID>,
                 st: Store, g: int, st': Store, r: Emission)
    requires EmittedBy(m, cap, tick, st0, done, st) && Unique(st0.slots) && 0 < st0.nextID
             && Inv(m, startLives, st, log)
    requires 0 <= g < |st0.slots| && Emitter(st0, st0.slots[g]) && st0.slots[g].id !in done
             && st.slots[g] == st0.slots[g]
    requires st0.slots[g].id in st.generators && EmitOutcome(m, cap, tick, st, st0.slots[g], st', r)
    ensures r != Failed ==> EmittedBy(m, cap, tick, st0, done + {st0.slots[g].id}, st')
    ensures r != Failed ==> Snipes(st'.slots) == Snipes(st.slots) + if r.Out? then 1 else 0
  {
    assert forall i | 0 <= i < |st.slots| :: st.slots[i].id < st.nextID by {
      assert forall i | 0 <= i < |st.slots| :: Registered(st, st.slots[i]);
    }
    match r
    case Out(k, t, c) =>
      assert st0.nextID <= st.nextID;
      EmitAway(m, cap, tick, st0, done, st, g, k, t, c);
      HatchGrows(m, cap, tick, st0, done, st, k, st0.slots[g], t, c);
    case Failed =>
    case _ =>
      EmitQuiet(m, cap, tick, st0, done, st, g, st', r);
  }
}
