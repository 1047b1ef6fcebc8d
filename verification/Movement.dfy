/** The input and movement steps of a tick. */
module Movement {
  import opened Grid
  import opened Physics
  import opened Entities
  import opened Slab
  import opened Ledger
  import opened SimState
  import opened Control
  import opened Walking

  function TileMid(t: int): int { t * SUBTILE + SUBTILE / 2 }

  /** The maze suits movement, and a player fits on every spawn tile. */
  ghost predicate GoodMaze(m: Maze) {
    && WideShape(AlongX(m))
    && forall x, y | At(m, x, y) == SpawnPlayer :: Free(AlongX(m), TileMid(x), TileMid(y), PLAYER_HALF)
  }

  // ---- single-entity steps ----

  predicate Steerable(st: Store, e: Entity) {
    e.id != 0 && e.kind == Player && !e.flags.dead && e.id in st.players
  }

  /** Step 3 on one slot. */
  function Steered(st: Store, inputs: map<ID, Input>, e: Entity): Entity {
    if e.id == 0 || e.kind != Player then e
    else if e.flags.dead || e.id !in st.players || e.id !in inputs then e.(vx := 0, vy := 0)
    else
      var s := Steer(st.players[e.id].lastDir, inputs[e.id]);
      var (vx, vy) := Velocity(s);
      e.(facing := if s.dir != Idle then s.dir else e.facing,
         flags := e.flags.(turbo := s.turbo), vx := vx, vy := vy)
  }

  function Cooled(n: nat): nat { if n > 0 then n - 1 else 0 }

  /** Step 3 on one player's sidecar. */
  function SteeredState(inputs: map<ID, Input>, p: ID, ps: PlayerState): PlayerState {
    var ps1 := ps.(fireCooldown := Cooled(ps.fireCooldown));
    if p !in inputs then ps1
    else ps1.(lastInputTick := inputs[p].clientTick, lastDir := Steer(ps.lastDir, inputs[p]).lock)
  }

  ghost function Moved(m: Maze, solids: seq<Box>, e: Entity, k: Kind): Entity {
    if e.id == 0 || e.kind != k || e.flags.dead || (e.vx == 0 && e.vy == 0) then e
    else
      var r := Slide(m, Motion(e.x, e.y, e.vx, e.vy), HalfExt(k), solids);
      e.(x := r.x, y := r.y, vx := r.vx, vy := r.vy)
  }

  /** The boxes are exactly those of the live generators. */
  ghost predicate Covers(slots: seq<Entity>, solids: seq<Box>) {
    && Layout(solids)
    && (forall j | 0 <= j < |slots| && Live(slots[j]) && slots[j].kind == Generator :: BoxOf(slots[j]) in solids)
    && (forall s | s in solids ::
          exists j :: 0 <= j < |slots| && Live(slots[j]) && slots[j].kind == Generator && BoxOf(slots[j]) == s)
  }

  method CollectGenerators(m: Maze, slots: seq<Entity>) returns (solids: seq<Box>)
    requires Safe(m, slots)
    ensures Covers(slots, solids)
  {
    solids := [];
    for i := 0 to |slots|
      invariant Layout(solids)
      invariant forall j | 0 <= j < i && Live(slots[j]) && slots[j].kind == Generator :: BoxOf(slots[j]) in solids
      invariant forall s | s in solids ::
                  exists j :: 0 <= j < i && Live(slots[j]) && slots[j].kind == Generator && BoxOf(slots[j]) == s
    {
      var e := slots[i];
      if Live(e) && e.kind == Generator {
        assert Standing(m, e);
        forall k | 0 <= k < |solids|
          ensures Apart(solids[k], BoxOf(e))
        {
          assert solids[k] in solids;
          var j :| 0 <= j < i && Live(slots[j]) && slots[j].kind == Generator && BoxOf(slots[j]) == solids[k];
          assert GeneratorsApart(slots[j], slots[i]);
        }
        solids := solids + [BoxOf(e)];
      }
    }
  }

  /** A live player's box is clear of the collected generators, before and after moving. */
  lemma PlayerMove(m: Maze, slots: seq<Entity>, solids: seq<Box>, k: int)
    requires GoodMaze(m) && Safe(m, slots) && Covers(slots, solids) && 0 <= k < |slots|
    ensures var e := Moved(m, solids, slots[k], Player);
            && SameVital(slots[k], e) && Standing(m, e)
            && (e.kind == Generator ==> BoxOf(e) == BoxOf(slots[k]))
            && forall j | 0 <= j < |slots| :: NoClash(e, slots[j])
  {
    var e0 := slots[k];
    var e := Moved(m, solids, e0, Player);
    assert Standing(m, e0);
    if e != e0 {
      var v := Motion(e0.x, e0.y, e0.vx, e0.vy);
      forall i | 0 <= i < |solids|
        ensures !Overlaps(BoxOf(e0), solids[i])
      {
        assert solids[i] in solids;
        var j :| 0 <= j < |slots| && Live(slots[j]) && slots[j].kind == Generator && BoxOf(slots[j]) == solids[i];
        assert NoClash(slots[k], slots[j]);
      }
      MoveSafe(m, v, PLAYER_HALF, solids);
      SlideVelocity(m, v, PLAYER_HALF, solids);
      ClearOfAll(slots, solids, BoxOf(e));
    } else {
      assert forall j | 0 <= j < |slots| :: NoClash(slots[k], slots[j]);
    }
  }

  lemma ClearOfAll(slots: seq<Entity>, solids: seq<Box>, b: Box)
    requires Covers(slots, solids) && Clear(b, solids)
    ensures forall j | 0 <= j < |slots| && Live(slots[j]) && slots[j].kind == Generator :: !Overlaps(b, BoxOf(slots[j]))
  {
    forall j | 0 <= j < |slots| && Live(slots[j]) && slots[j].kind == Generator
      ensures !Overlaps(b, BoxOf(slots[j]))
    {
      assert BoxOf(slots[j]) in solids;
      var i :| 0 <= i < |solids| && solids[i] == BoxOf(slots[j]);
    }
  }

  lemma SnipeMove(m: Maze, slots: seq<Entity>, solids: seq<Box>, k: int)
    requires GoodMaze(m) && Safe(m, slots) && Layout(solids) && 0 <= k < |slots|
    ensures var e := Moved(m, solids, slots[k], Snipe);
            && SameVital(slots[k], e) && Standing(m, e)
            && (e.kind == Generator ==> BoxOf(e) == BoxOf(slots[k]))
            && forall j | 0 <= j < |slots| :: NoClash(e, slots[j])
  {
    var e0 := slots[k];
    assert Standing(m, e0);
    assert forall j | 0 <= j < |slots| :: NoClash(slots[k], slots[j]);
    if Moved(m, solids, e0, Snipe) != e0 {
      SnipeMoveFree(m, Motion(e0.x, e0.y, e0.vx, e0.vy), solids);
      SlideVelocity(m, Motion(e0.x, e0.y, e0.vx, e0.vy), SNIPE_HALF, solids);
    }
  }

  lemma SteeredStands(m: Maze, st: Store, inputs: map<ID, Input>, k: int)
    requires Safe(m, st.slots) && 0 <= k < |st.slots|
    ensures var e := Steered(st, inputs, st.slots[k]);
            && SameVital(st.slots[k], e) && Standing(m, e) && BoxOf(e) == BoxOf(st.slots[k])
            && forall j | 0 <= j < |st.slots| :: NoClash(e, st.slots[j])
  {
    var e := st.slots[k];
    assert Standing(m, e);
    assert forall j | 0 <= j < |st.slots| :: NoClash(st.slots[k], st.slots[j]);
    if e.id in inputs && e.id in st.players {
      SpeedBounded(Steer(st.players[e.id].lastDir, inputs[e.id]));
    }
  }

  /** The waiting list and the samples rest on IDs, kinds, dead flags and respawn times alone. */
  lemma SamePending(st: Store, st': Store, noRespawn: bool, from: int, upTo: int)
    requires Pending(st, noRespawn, from, upTo) && |st'.slots| == |st.slots|
    requires forall i | 0 <= i < |st.slots| :: SameVital(st.slots[i], st'.slots[i])
    requires st'.players.Keys == st.players.Keys
             && forall p | p in st.players :: SameLife(st.players[p], st'.players[p])
    ensures Pending(st', noRespawn, from, upTo)
  {
    forall i | 0 <= i < |st'.slots|
      ensures Waits(st', noRespawn, from, upTo, st'.slots[i])
    {
      assert Waits(st, noRespawn, from, upTo, st.slots[i]);
    }
  }

  ghost predicate SteerableID(st: Store, p: ID) {
    exists i | 0 <= i < |st.slots| :: st.slots[i].id == p && Steerable(st, st.slots[i])
  }

  /** The players' sidecars once the IDs in done have been steered. */
  ghost function SteerPlayers(st: Store, inputs: map<ID, Input>, done: set<ID>): map<ID, PlayerState> {
    map p | p in st.players :: if p in done && SteerableID(st, p) then SteeredState(inputs, p, st.players[p])
                               else st.players[p]
  }

  lemma SteerPlayersNext(st0: Store, inputs: map<ID, Input>, done: set<ID>, idx: int)
    requires Unique(st0.slots) && 0 <= idx < |st0.slots| && st0.slots[idx].id != 0 && st0.slots[idx].id !in done
    ensures var p, next := st0.slots[idx].id, SteerPlayers(st0, inputs, done + {st0.slots[idx].id});
            next == if Steerable(st0, st0.slots[idx]) then
                      SteerPlayers(st0, inputs, done)[p := SteeredState(inputs, p, st0.players[p])]
                    else SteerPlayers(st0, inputs, done)
  {
    var p := st0.slots[idx].id;
    forall i | 0 <= i < |st0.slots| && i != idx
      ensures st0.slots[i].id != p
    {
      assert i < idx ==> st0.slots[i].id == 0 || st0.slots[i].id != st0.slots[idx].id;
      assert idx < i ==> st0.slots[idx].id != st0.slots[i].id;
    }
    assert SteerableID(st0, p) <==> Steerable(st0, st0.slots[idx]);
  }

  ghost function Prefix(ids: seq<ID>, k: int): set<ID>
    requires 0 <= k <= |ids|
  {
    set i | 0 <= i < k :: ids[i]
  }

  lemma PrefixNext(ids: seq<ID>, k: int)
    requires Ascending(ids) && 0 <= k < |ids|
    ensures Prefix(ids, k + 1) == Prefix(ids, k) + {ids[k]} && ids[k] !in Prefix(ids, k)
  {
  }

  /** Steering one slot mid-way is steering it from the start: nobody else's turn has touched it. */
  lemma SteerNext(st0: Store, st: Store, st': Store, inputs: map<ID, Input>, ids: seq<ID>, k: int, idx: int,
                  f: Entity -> Entity)
    requires Unique(st0.slots) && IDsOf(st0.slots, ids) && (forall e :: f(e) == Steered(st0, inputs, e))
    requires 0 <= k < |ids| && Mapped(st0.slots, st.slots, ids, k, f)
    requires st.players == SteerPlayers(st0, inputs, Prefix(ids, k))
    requires 0 <= idx < |st.slots| && st.slots[idx].id == ids[k]
    requires var e := st.slots[idx];
             && st'.slots == st.slots[idx := Steered(st, inputs, e)]
             && st'.players == if Steerable(st, e) then st.players[e.id := SteeredState(inputs, e.id, st.players[e.id])]
                               else st.players
    ensures Mapped(st0.slots, st'.slots, ids, k + 1, f)
    ensures st'.players == SteerPlayers(st0, inputs, Prefix(ids, k + 1))
  {
    MapNext(st0.slots, st.slots, ids, k, idx, f);
    PrefixNext(ids, k);
    var e := st.slots[idx];
    assert ids[k] in ids;
    SteerPlayersNext(st0, inputs, Prefix(ids, k), idx);
    assert e.id in st.players ==> st.players[e.id] == st0.players[e.id];
    assert Steered(st, inputs, e) == f(e);
  }

  // ---- step 3: input ----

  /** The turbo lock and velocity rules on one live player. */
  method SteerPlayer(e0: Entity, ps0: PlayerState, inputs: map<ID, Input>) returns (e: Entity, ps: PlayerState)
    ensures forall st: Store | Steerable(st, e0) && st.players[e0.id] == ps0 :: e == Steered(st, inputs, e0)
    ensures ps == SteeredState(inputs, e0.id, ps0)
  {
    e, ps := e0, ps0;
    if ps.fireCooldown > 0 {
      ps := ps.(fireCooldown := ps.fireCooldown - 1);
    }
    if e.id !in inputs {
      e := e.(vx := 0, vy := 0);
      return;
    }
    var inp := inputs[e.id];
    ps := ps.(lastInputTick := inp.clientTick);
    var effectiveDir, turboActive := inp.dir, false;
    if inp.turbo && inp.dir != Idle {
      if ps.lastDir == Idle {
        ps := ps.(lastDir := inp.dir);
      } else {
        effectiveDir := ps.lastDir;
      }
      turboActive := true;
    } else if inp.turbo {
      ps, effectiveDir := ps.(lastDir := Idle), Idle;
    } else {
      ps := ps.(lastDir := Idle);
    }
    if effectiveDir != Idle {
      e := e.(facing := effectiveDir);
    }
    var (vx, vy) := VelocityFor(effectiveDir, if turboActive then TURBO_SPEED else PLAYER_SPEED);
    e := e.(flags := e.flags.(turbo := turboActive), vx := vx, vy := vy);
  }

  /** The store after steering the slot. */
  function SteerOne(st: Store, inputs: map<ID, Input>, idx: int): Store
    requires 0 <= idx < |st.slots|
  {
    var e := st.slots[idx];
    st.(slots := st.slots[idx := Steered(st, inputs, e)],
        players := if Steerable(st, e) then st.players[e.id := SteeredState(inputs, e.id, st.players[e.id])]
                   else st.players)
  }

  method SteerSlot(st: Store, inputs: map<ID, Input>, idx: int) returns (st': Store)
    requires 0 <= idx < |st.slots| && st.slots[idx].id != 0
    requires st.slots[idx].kind == Player ==> st.slots[idx].id in st.players
    ensures st' == SteerOne(st, inputs, idx)
  {
    var e := st.slots[idx];
    if e.kind != Player {
      assert st.slots[idx := e] == st.slots;
      return st;
    }
    if e.flags.dead {
      return st.(slots := st.slots[idx := e.(vx := 0, vy := 0)]);
    }
    var e', ps := SteerPlayer(e, st.players[e.id], inputs);
    st' := st.(slots := st.slots[idx := e'], players := st.players[e.id := ps]);
  }

  lemma SteerOneKeeps(m: Maze, startLives: nat, st: Store, log: seq<LifeEvent>, inputs: map<ID, Input>, idx: int)
    requires Inv(m, startLives, st, log) && 0 <= idx < |st.slots|
    ensures Inv(m, startLives, SteerOne(st, inputs, idx), log)
  {
    var e := st.slots[idx];
    SteeredStands(m, st, inputs, idx);
    UpdateKeeps(m, startLives, st, log, idx, Steered(st, inputs, e));
    if Steerable(st, e) {
      hide Inv, Steered;
      PlayerKeeps(m, startLives, st.(slots := st.slots[idx := Steered(st, inputs, e)]), log, e.id,
                  SteeredState(inputs, e.id, st.players[e.id]));
    }
  }

  /** Every live player steered, everyone else as before. */
  ghost predicate SteeredStore(st0: Store, inputs: map<ID, Input>, st: Store) {
    && |st.slots| == |st0.slots|
    && (forall i | 0 <= i < |st.slots| :: st.slots[i] == Steered(st0, inputs, st0.slots[i]))
    && st == st0.(slots := st.slots, players := SteerPlayers(st0, inputs, st0.players.Keys))
  }

  lemma InvSlab(m: Maze, startLives: nat, st: Store, log: seq<LifeEvent>)
    requires Inv(m, startLives, st, log)
    ensures Unique(st.slots) && |st.slots| == MAX_ENTITIES && Safe(m, st.slots)
    ensures forall i | 0 <= i < |st.slots| && IsPlayer(st.slots[i]) :: st.slots[i].id in st.players
    ensures forall i | 0 <= i < |st.slots| && st.slots[i].id != 0 && st.slots[i].kind == Projectile ::
              st.slots[i].id in st.projectiles
  {
    assert forall i | 0 <= i < |st.slots| :: Registered(st, st.slots[i]);
  }

  method ApplyInputs(ghost m: Maze, ghost startLives: nat, ghost log: seq<LifeEvent>, st0: Store,
                     inputs: map<ID, Input>) returns (st: Store)
    requires Inv(m, startLives, st0, log)
    ensures Inv(m, startLives, st, log) && SteeredStore(st0, inputs, st)
  {
    st := st0;
    InvSlab(m, startLives, st, log);
    ghost var f := (e: Entity) => Steered(st0, inputs, e);
    var ids := LiveIDsSorted(st0.slots);
    hide Inv, SteeredState, SteerPlayers, Prefix, Standing, Safe, SteeredStore;
    SteerNobody(st0, inputs, ids);
    KeepsIDsSteered(st0, inputs, f);
    hide Steered, Mapped;
    for k := 0 to |ids|
      invariant Inv(m, startLives, st, log) && |st.slots| == |st0.slots| && Mapped(st0.slots, st.slots, ids, k, f)
      invariant st == st0.(slots := st.slots, players := SteerPlayers(st0, inputs, Prefix(ids, k)))
    {
      MapFinds(st0.slots, st.slots, ids, k, f);
      InvSlab(m, startLives, st, log);
      var idx := FindByID(st.slots, ids[k]);
      SteerOneKeeps(m, startLives, st, log, inputs, idx);
      SteerNext(st0, st, SteerOne(st, inputs, idx), inputs, ids, k, idx, f);
      st := SteerSlot(st, inputs, idx);
    }
    MapDone(st0.slots, st.slots, ids, f);
    SteeredAll(st0, st, inputs, ids, f);
  }

  lemma SteerNobody(st: Store, inputs: map<ID, Input>, ids: seq<ID>)
    ensures SteerPlayers(st, inputs, Prefix(ids, 0)) == st.players
  {
  }

  lemma KeepsIDsSteered(st: Store, inputs: map<ID, Input>, f: Entity -> Entity)
    requires forall e :: f(e) == Steered(st, inputs, e)
    ensures KeepsIDs(f)
  {
  }

  lemma SteeredAll(st0: Store, st: Store, inputs: map<ID, Input>, ids: seq<ID>, f: Entity -> Entity)
    requires IDsOf(st0.slots, ids) && |st.slots| == |st0.slots|
    requires forall i | 0 <= i < |st.slots| ::
               st.slots[i] == if st0.slots[i].id != 0 then f(st0.slots[i]) else st0.slots[i]
    requires forall e :: f(e) == Steered(st0, inputs, e)
    requires st == st0.(slots := st.slots, players := SteerPlayers(st0, inputs, Prefix(ids, |ids|)))
    ensures SteeredStore(st0, inputs, st)
  {
    forall p | SteerableID(st0, p)
      ensures p in Prefix(ids, |ids|) && p in st0.players
    {
      assert Present(st0.slots, p);
      assert p in ids;
    }
    assert SteerPlayers(st0, inputs, Prefix(ids, |ids|)) == SteerPlayers(st0, inputs, st0.players.Keys);
  }

  /** Steering leaves the waiting list and the histories alone. */
  lemma SteerPending(st0: Store, inputs: map<ID, Input>, st: Store, noRespawn: bool, from: int, upTo: int)
    requires SteeredStore(st0, inputs, st) && Pending(st0, noRespawn, from, upTo)
    ensures Pending(st, noRespawn, from, upTo)
  {
    SamePending(st0, st, noRespawn, from, upTo);
  }

  // ---- steps 4 and 4.55: movement ----

  lemma CoversUpdate(slots: seq<Entity>, solids: seq<Box>, k: int, e: Entity)
    requires Covers(slots, solids) && 0 <= k < |slots|
    requires slots[k].kind != Generator && e.kind != Generator
    ensures Covers(slots[k := e], solids)
  {
    hide Layout;
    var s' := slots[k := e];
    forall s | s in solids
      ensures exists j :: 0 <= j < |s'| && Live(s'[j]) && s'[j].kind == Generator && BoxOf(s'[j]) == s
    {
      var j :| 0 <= j < |slots| && Live(slots[j]) && slots[j].kind == Generator && BoxOf(slots[j]) == s;
      assert s'[j] == slots[j];
    }
  }

  lemma MovedKeeps(m: Maze, startLives: nat, st: Store, log: seq<LifeEvent>, solids: seq<Box>, idx: int, kind: Kind)
    requires GoodMaze(m) && Inv(m, startLives, st, log) && Covers(st.slots, solids) && 0 <= idx < |st.slots|
    requires kind == Player || kind == Snipe
    ensures var e := Moved(m, solids, st.slots[idx], kind);
            Inv(m, startLives, st.(slots := st.slots[idx := e]), log) && Covers(st.slots[idx := e], solids)
  {
    var e := Moved(m, solids, st.slots[idx], kind);
    if kind == Player { PlayerMove(m, st.slots, solids, idx); } else { SnipeMove(m, st.slots, solids, idx); }
    UpdateKeeps(m, startLives, st, log, idx, e);
    if e == st.slots[idx] {
      assert st.slots[idx := e] == st.slots;
    } else {
      CoversUpdate(st.slots, solids, idx, e);
    }
  }

  method MoveSlot(m: Maze, e: Entity, kind: Kind, solids: seq<Box>) returns (e': Entity)
    ensures e' == Moved(m, solids, e, kind)
  {
    if e.id == 0 || e.kind != kind || e.flags.dead {
      return e;
    }
    if e.vx == 0 && e.vy == 0 {
      return e;
    }
    var nx, ny, nvx, nvy := MoveAndSlide(m, e.x, e.y, e.vx, e.vy, HalfExt(kind), solids);
    e' := e.(x := nx, y := ny, vx := nvx, vy := nvy);
  }

  ghost predicate MovedStore(m: Maze, solids: seq<Box>, kind: Kind, st0: Store, st: Store) {
    && |st.slots| == |st0.slots|
    && (forall i | 0 <= i < |st.slots| :: st.slots[i] == Moved(m, solids, st0.slots[i], kind))
    && st == st0.(slots := st.slots)
  }

  /** Move every live entity of the kind, in ID order, against walls and the collected generators. */
  method MoveKind(m: Maze, ghost startLives: nat, ghost log: seq<LifeEvent>, st0: Store, kind: Kind, solids: seq<Box>)
    returns (st: Store)
    requires GoodMaze(m) && Inv(m, startLives, st0, log) && Covers(st0.slots, solids)
    requires kind == Player || kind == Snipe
    ensures Inv(m, startLives, st, log) && Covers(st.slots, solids) && MovedStore(m, solids, kind, st0, st)
  {
    st := st0;
    InvSlab(m, startLives, st, log);
    ghost var f := (e: Entity) => Moved(m, solids, e, kind);
    var ids := LiveIDsSorted(st0.slots);
    hide Inv, Moved, Mapped, Standing, Safe, Covers, GoodMaze;
    for k := 0 to |ids|
      invariant Inv(m, startLives, st, log) && Covers(st.slots, solids)
      invariant |st.slots| == |st0.slots| && Mapped(st0.slots, st.slots, ids, k, f) && st == st0.(slots := st.slots)
    {
      KeepsIDsMoved(m, solids, kind, f);
      MapFinds(st0.slots, st.slots, ids, k, f);
      InvSlab(m, startLives, st, log);
      var idx := FindByID(st.slots, ids[k]);
      MovedKeeps(m, startLives, st, log, solids, idx, kind);
      MapNext(st0.slots, st.slots, ids, k, idx, f);
      var e' := MoveSlot(m, st.slots[idx], kind, solids);
      st := st.(slots := st.slots[idx := e']);
    }
    MapDone(st0.slots, st.slots, ids, f);
    forall i | 0 <= i < |st.slots|
      ensures st.slots[i] == Moved(m, solids, st0.slots[i], kind)
    {
      FreeUnmoved(m, solids, st0.slots[i], kind);
    }
  }

  lemma KeepsIDsMoved(m: Maze, solids: seq<Box>, kind: Kind, f: Entity -> Entity)
    requires forall e :: f(e) == Moved(m, solids, e, kind)
    ensures KeepsIDs(f)
  {
  }

  lemma FreeUnmoved(m: Maze, solids: seq<Box>, e: Entity, kind: Kind)
    ensures e.id == 0 ==> Moved(m, solids, e, kind) == e
  {
  }

  lemma MovedPending(m: Maze, solids: seq<Box>, kind: Kind, st0: Store, st: Store, noRespawn: bool, from: int,
                     upTo: int)
    requires MovedStore(m, solids, kind, st0, st) && Pending(st0, noRespawn, from, upTo)
    ensures Pending(st, noRespawn, from, upTo)
  {
    SamePending(st0, st, noRespawn, from, upTo);
  }

  // ---- what an input does ----

  /** From e, in this direction at this speed, and with room all the way there. */
  ghost predicate WalksTo(m: Maze, solids: seq<Box>, e: Entity, d: Dir, turbo: bool, e': Entity) {
    var (dx, dy) := Paces(d, turbo);
    && e'.flags.turbo == turbo && e'.facing == (if d == Idle then e.facing else d)
    && (Roomy(m, e.x, e.y, 256, solids) ==> (e'.x, e'.y, e'.vx, e'.vy) == (e.x + dx, e.y + dy, dx, dy))
  }

  /**
   Without turbo a player walks where it is told; with turbo it runs in the direction it was first told; told nothing,
   it stands where it is.
   */
  ghost predicate Obeys(m: Maze, solids: seq<Box>, inp: Input, e: Entity, ps: PlayerState, e': Entity,
                        ps': PlayerState) {
    && ps'.lastInputTick == inp.clientTick
    && (!inp.turbo ==> ps'.lastDir == Idle && WalksTo(m, solids, e, inp.dir, false, e'))
    && (inp.dir == Idle ==>
          ps'.lastDir == Idle && (e'.x, e'.y, e'.vx, e'.vy, e'.facing) == (e.x, e.y, 0, 0, e.facing))
    && (inp.turbo && inp.dir != Idle ==>
          && ps'.lastDir == (if ps.lastDir == Idle then inp.dir else ps.lastDir)
          && WalksTo(m, solids, e, ps'.lastDir, true, e'))
  }

  lemma SteeredPaces(st: Store, inputs: map<ID, Input>, e: Entity, s: Steering)
    requires Steerable(st, e) && e.id in inputs && s == Steer(st.players[e.id].lastDir, inputs[e.id])
    ensures var (dx, dy) := Paces(s.dir, s.turbo);
            Steered(st, inputs, e) == e.(facing := if s.dir == Idle then e.facing else s.dir,
                                         flags := e.flags.(turbo := s.turbo), vx := dx, vy := dy)
  {
    PacesAre(s.dir);
  }

  lemma IdleStands(m: Maze, solids: seq<Box>, st: Store, inputs: map<ID, Input>, e: Entity, s: Steering)
    requires Steerable(st, e) && e.id in inputs && s == Steer(st.players[e.id].lastDir, inputs[e.id])
    requires s.dir == Idle
    ensures var e' := Moved(m, solids, Steered(st, inputs, e), Player);
            e' == e.(flags := e.flags.(turbo := s.turbo), vx := 0, vy := 0)
  {
    SteeredPaces(st, inputs, e, s);
    hide Slide, Steer, Steered;
  }

  /** Moving with room to go, from a velocity in range. */
  lemma GoesThere(m: Maze, solids: seq<Box>, e: Entity)
    requires e.id != 0 && e.kind == Player && !e.flags.dead && -224 <= e.vx <= 224 && -224 <= e.vy <= 224
    ensures var e' := Moved(m, solids, e, Player);
            && e'.facing == e.facing && e'.flags == e.flags
            && (Roomy(m, e.x, e.y, 256, solids) ==> e' == e.(x := e.x + e.vx, y := e.y + e.vy))
  {
    hide Slide, Roomy;
    if Roomy(m, e.x, e.y, 256, solids) {
      GoesOn(m, e.x, e.y, e.vx, e.vy, 256, solids);
    }
  }

  lemma MovedWalks(m: Maze, solids: seq<Box>, st: Store, inputs: map<ID, Input>, e: Entity, s: Steering)
    requires Steerable(st, e) && e.id in inputs && s == Steer(st.players[e.id].lastDir, inputs[e.id])
    ensures WalksTo(m, solids, e, s.dir, s.turbo, Moved(m, solids, Steered(st, inputs, e), Player))
  {
    SteeredPaces(st, inputs, e, s);
    PacesBounded(s.dir, s.turbo);
    hide Roomy, Steer, Paces, Steered, Moved;
    GoesThere(m, solids, Steered(st, inputs, e));
  }

  lemma SteerObeys(m: Maze, solids: seq<Box>, st: Store, inputs: map<ID, Input>, e: Entity)
    requires Steerable(st, e) && e.id in inputs
    ensures var ps := st.players[e.id];
            Obeys(m, solids, inputs[e.id], e, ps, Moved(m, solids, Steered(st, inputs, e), Player),
                  SteeredState(inputs, e.id, ps))
  {
    MovedWalks(m, solids, st, inputs, e, Steer(st.players[e.id].lastDir, inputs[e.id]));
    if Steer(st.players[e.id].lastDir, inputs[e.id]).dir == Idle {
      IdleStands(m, solids, st, inputs, e, Steer(st.players[e.id].lastDir, inputs[e.id]));
    }
    hide WalksTo, Moved, Steered;
  }

  /** Steps 3 and 4 for a live player; one not heard of stands still. The cooldown goes down by one. */
  lemma InputWalks(m: Maze, solids: seq<Box>, inputs: map<ID, Input>, st0: Store, st1: Store, st2: Store, i: int)
    requires SteeredStore(st0, inputs, st1) && MovedStore(m, solids, Player, st1, st2)
    requires 0 <= i < |st0.slots| && Steerable(st0, st0.slots[i])
    ensures st2.players.Keys == st0.players.Keys
    ensures var p, e, e' := st0.slots[i].id, st0.slots[i], st2.slots[i];
            var ps, ps' := st0.players[p], st2.players[p];
            && ps'.fireCooldown == (if ps.fireCooldown == 0 then 0 else ps.fireCooldown - 1)
            && (p !in inputs ==> e' == e.(vx := 0, vy := 0) && ps'.lastDir == ps.lastDir)
            && (p in inputs ==> Obeys(m, solids, inputs[p], e, ps, e', ps'))
  {
    var e := st0.slots[i];
    assert SteerableID(st0, e.id);
    assert st1.slots[i] == Steered(st0, inputs, e);
    assert st2.slots[i] == Moved(m, solids, st1.slots[i], Player);
    if e.id in inputs {
      SteerObeys(m, solids, st0, inputs, e);
    }
    hide Slide, Roomy, Obeys, Steer;
  }

  // ---- step 4.55: snipes notice walls ----

  /** A component of the velocity was lost. */
  predicate Bumped(before: Entity, after: Entity) {
    (after.vx == 0 && before.vx != 0) || (after.vy == 0 && before.vy != 0)
  }

  function Noticed(ss: SnipeState, bumped: bool): SnipeState { ss.(mind := ss.mind.(wallBlocked := bumped)) }

  predicate IsWalker(slots: seq<Entity>, i: int, s: ID) {
    0 <= i < |slots| && LiveSnipe(slots[i]) && slots[i].id == s
  }

  /** The live snipes among the first n slots have taken note, and nothing else has changed. */
  ghost predicate NotedSome(before: seq<Entity>, st0: Store, n: nat, st: Store) {
    && n <= |before| == |st0.slots|
    && st == st0.(snipes := st.snipes) && st.snipes.Keys == st0.snipes.Keys
    && (forall i | 0 <= i < n && LiveSnipe(st0.slots[i]) && st0.slots[i].id in st0.snipes ::
          st.snipes[st0.slots[i].id] == Noticed(st0.snipes[st0.slots[i].id], Bumped(before[i], st0.slots[i])))
    && (forall s | s in st0.snipes && (forall i | 0 <= i < n :: !IsWalker(st0.slots, i, s)) ::
          st.snipes[s] == st0.snipes[s])
  }

  ghost predicate NotedStore(before: seq<Entity>, st0: Store, st: Store) {
    |before| == |st0.slots| && NotedSome(before, st0, |before|, st)
  }

  lemma NotedKeeps(m: Maze, startLives: nat, log: seq<LifeEvent>, before: seq<Entity>, st0: Store, n: nat, st: Store)
    requires Inv(m, startLives, st0, log) && NotedSome(before, st0, n, st)
    ensures Inv(m, startLives, st, log)
  {
    assert st.slots == st0.slots && st.players == st0.players && st.nextID == st0.nextID;
    hide NotedSome, Account, Standing, NoClash, GeneratorsApart, Score, OnceALife, AliveIn;
    assert forall e :: Registered(st, e) <==> Registered(st0, e);
    assert forall e :: Vitals(st, log, e) <==> Vitals(st0, log, e);
  }

  lemma NotedNext(before: seq<Entity>, st0: Store, n: nat, st: Store)
    requires Unique(st0.slots) && NotedSome(before, st0, n, st) && n < |before|
    ensures var e := st0.slots[n];
            NotedSome(before, st0, n + 1,
                      if LiveSnipe(e) && e.id in st.snipes then
                        st.(snipes := st.snipes[e.id := Noticed(st.snipes[e.id], Bumped(before[n], e))]) else st)
  {
    var e := st0.slots[n];
    forall i | 0 <= i < n && st0.slots[i].id == e.id && LiveSnipe(e)
      ensures false
    {
      OneSlot(st0.slots, i, n);
    }
    forall s | s in st0.snipes && forall i | 0 <= i < n + 1 :: !IsWalker(st0.slots, i, s)
      ensures st.snipes[s] == st0.snipes[s] && (LiveSnipe(e) ==> s != e.id)
    {
      assert !IsWalker(st0.slots, n, s);
    }
  }

  /** Whether its step has just cost it speed is what a snipe goes by when it next patrols. */
  method NoteWalls(ghost m: Maze, ghost startLives: nat, ghost log: seq<LifeEvent>, before: seq<Entity>, st0: Store)
    returns (st: Store)
    requires Inv(m, startLives, st0, log) && |before| == |st0.slots|
    ensures Inv(m, startLives, st, log) && NotedStore(before, st0, st)
  {
    st := st0;
    InvSlab(m, startLives, st, log);
    for n := 0 to |before|
      invariant NotedSome(before, st0, n, st)
    {
      NotedNext(before, st0, n, st);
      var e := st.slots[n];
      if LiveSnipe(e) && e.id in st.snipes {
        st := st.(snipes := st.snipes[e.id := Noticed(st.snipes[e.id], Bumped(before[n], e))]);
      }
    }
    NotedKeeps(m, startLives, log, before, st0, |before|, st);
  }

  // ---- step 4.56: overlapping snipes push apart ----

  /** The four corners of a snipe's box decide whether it touches a wall, even when Go's division rounds toward zero. */
  method HitsWall(m: Maze, cx: int, cy: int) returns (hit: bool)
    requires WideShape(AlongX(m))
    ensures hit <==> !Free(AlongX(m), cx, cy, SNIPE_HALF)
  {
    var he := SNIPE_HALF;
    var l, r := TruncDiv(cx - he, SUBTILE), TruncDiv(cx + he - 1, SUBTILE);
    var t, b := TruncDiv(cy - he, SUBTILE), TruncDiv(cy + he - 1, SUBTILE);
    hit := IsWall(m, l, t) || IsWall(m, r, t) || IsWall(m, l, b) || IsWall(m, r, b);
    CornersDecide(m, cx, cy);
  }

  lemma CornersDecide(m: Maze, cx: int, cy: int)
    requires WideShape(AlongX(m))
    ensures var he := SNIPE_HALF;
            var l, r := TruncDiv(cx - he, SUBTILE), TruncDiv(cx + he - 1, SUBTILE);
            var t, b := TruncDiv(cy - he, SUBTILE), TruncDiv(cy + he - 1, SUBTILE);
            Free(AlongX(m), cx, cy, he) <==> !(IsWall(m, l, t) || IsWall(m, r, t) || IsWall(m, l, b) || IsWall(m, r, b))
  {
    var w := AlongX(m);
    var he := SNIPE_HALF;
    var l, r := TruncDiv(cx - he, SUBTILE), TruncDiv(cx + he - 1, SUBTILE);
    var t, b := TruncDiv(cy - he, SUBTILE), TruncDiv(cy + he - 1, SUBTILE);
    assert w(l, t) == IsWall(m, l, t) && w(r, t) == IsWall(m, r, t) && w(l, b) == IsWall(m, l, b)
           && w(r, b) == IsWall(m, r, b);
    assert Transposed(w)(t, l) == w(l, t) && Transposed(w)(t, r) == w(r, t);
    if !(w(l, t) || w(r, t) || w(l, b) || w(r, b)) {
      assert l >= 1 && t >= 1;
      assert l == Lo(cx, he) && r == Hi(cx, he) <= l + 1 && t == Lo(cy, he) && b == Hi(cy, he) <= t + 1;
    }
    if Free(w, cx, cy, he) {
      FreeIsInside(w, cx, cy, he);
      assert l == Lo(cx, he) && r == Hi(cx, he) && t == Lo(cy, he) && b == Hi(cy, he);
      assert !w(l, t) && !w(r, t) && !w(l, b) && !w(r, b);
    }
  }

  function AbsInt(a: int): nat { if a < 0 then -a else a }

  /** Where hi is pushed off lo: along the axis they are further apart on, and that velocity stops. */
  function Pushed(hi: Entity, lo: Entity): Entity {
    var dx, dy := hi.x - lo.x, hi.y - lo.y;
    if AbsInt(dx) >= AbsInt(dy) then
      hi.(x := if dx > 0 then lo.x + 2 * SNIPE_HALF + 1 else lo.x - 2 * SNIPE_HALF - 1, vx := 0)
    else
      hi.(y := if dy > 0 then lo.y + 2 * SNIPE_HALF + 1 else lo.y - 2 * SNIPE_HALF - 1, vy := 0)
  }

  lemma PushSeparates(hi: Entity, lo: Entity)
    requires hi.kind == Snipe && lo.kind == Snipe
    ensures !Overlaps(BoxOf(Pushed(hi, lo)), BoxOf(lo))
  {
  }

  predicate LiveSnipe(e: Entity) { Live(e) && e.kind == Snipe }

  /** hi after meeting lo: pushed if they overlap and the push ends clear of walls. */
  ghost function WeakBlocked(m: Maze, hi: Entity, lo: Entity): Entity {
    if Overlaps(BoxOf(hi), BoxOf(lo)) && Free(AlongX(m), Pushed(hi, lo).x, Pushed(hi, lo).y, SNIPE_HALF) then
      Pushed(hi, lo) else hi
  }

  lemma WeakBlockKeeps(m: Maze, startLives: nat, st: Store, log: seq<LifeEvent>, i: int, j: int)
    requires Inv(m, startLives, st, log) && 0 <= i < |st.slots| && 0 <= j < |st.slots|
    requires LiveSnipe(st.slots[i]) && LiveSnipe(st.slots[j])
    ensures Inv(m, startLives, st.(slots := st.slots[i := WeakBlocked(m, st.slots[i], st.slots[j])]), log)
  {
    assert Standing(m, st.slots[i]);
    UpdateKeeps(m, startLives, st, log, i, WeakBlocked(m, st.slots[i], st.slots[j]));
  }

  /** Only live snipes may have moved; IDs, kinds, health, flags and facing are as before. */
  predicate Nudged(e: Entity, e': Entity) {
    e' == (if LiveSnipe(e) then e.(x := e'.x, y := e'.y, vx := e'.vx, vy := e'.vy) else e)
  }

  ghost predicate NudgedStore(st0: Store, st: Store) {
    && |st.slots| == |st0.slots|
    && (forall i | 0 <= i < |st.slots| :: Nudged(st0.slots[i], st.slots[i]))
    && st == st0.(slots := st.slots)
  }

  ghost predicate SnipeIn(slots: seq<Entity>, id: ID) {
    exists i | 0 <= i < |slots| :: slots[i].id == id && LiveSnipe(slots[i])
  }

  /** The snipe with ID hi gives way to the one with ID lo. */
  ghost function BlockAt(m: Maze, slots: seq<Entity>, hi: ID, lo: ID): (r: seq<Entity>)
    ensures |r| == |slots|
  {
    if SnipeIn(slots, hi) && SnipeIn(slots, lo) then
      var i :| 0 <= i < |slots| && slots[i].id == hi && LiveSnipe(slots[i]);
      var j :| 0 <= j < |slots| && slots[j].id == lo && LiveSnipe(slots[j]);
      slots[i := WeakBlocked(m, slots[i], slots[j])]
    else slots
  }

  /** Each snipe before the a-th has given way to all before it in turn, and the a-th to the first b. */
  ghost function Blocks(m: Maze, slots: seq<Entity>, ids: seq<ID>, a: nat, b: nat): seq<Entity>
    requires b <= a <= |ids| && (a == |ids| ==> b == 0)
    decreases a, b
  {
    if b > 0 then BlockAt(m, Blocks(m, slots, ids, a, b - 1), ids[a], ids[b - 1])
    else if a > 0 then Blocks(m, slots, ids, a - 1, a - 1)
    else slots
  }

  /** The live snipes gave way pair by pair in ID order. */
  ghost predicate BlockedStore(m: Maze, st0: Store, st: Store) {
    NudgedStore(st0, st) && exists ids :: InTurn(m, st0, ids, st)
  }

  ghost predicate InTurn(m: Maze, st0: Store, ids: seq<ID>, st: Store) {
    Ascending(ids) && (forall id :: id in ids <==> id != 0 && SnipeIn(st0.slots, id))
      && st.slots == Blocks(m, st0.slots, ids, |ids|, 0)
  }

  method SnipeIDs(slots: seq<Entity>) returns (snipes: seq<ID>)
    requires Unique(slots)
    ensures Ascending(snipes)
    ensures forall id :: id in snipes <==> id != 0 && SnipeIn(slots, id)
  {
    var ids := LiveIDsSorted(slots);
    snipes := [];
    for k := 0 to |ids|
      invariant Ascending(snipes) && forall i | 0 <= i < |snipes| :: snipes[i] in ids[..k]
      invariant forall id :: id in snipes <==> id in ids[..k] && SnipeIn(slots, id)
    {
      assert ids[k] in ids;
      var idx := FindByID(slots, ids[k]);
      assert forall x | x in ids[..k] :: x < ids[k];
      OnlySnipe(slots, idx);
      assert ids[..k + 1] == ids[..k] + [ids[k]];
      if LiveSnipe(slots[idx]) {
        snipes := snipes + [ids[k]];
      }
    }
    assert ids[..|ids|] == ids;
    forall id | SnipeIn(slots, id)
      ensures Present(slots, id)
    {
    }
  }

  lemma OnlySnipe(slots: seq<Entity>, i: int)
    requires Unique(slots) && 0 <= i < |slots| && slots[i].id != 0
    ensures SnipeIn(slots, slots[i].id) <==> LiveSnipe(slots[i])
  {
    if SnipeIn(slots, slots[i].id) {
      var j :| 0 <= j < |slots| && slots[j].id == slots[i].id && LiveSnipe(slots[j]);
      OneSlot(slots, i, j);
    }
  }

  /** The pair found by ID is the only such pair. */
  lemma BlockAtIs(m: Maze, slots: seq<Entity>, i: int, j: int)
    requires Unique(slots) && 0 <= i < |slots| && 0 <= j < |slots| && LiveSnipe(slots[i]) && LiveSnipe(slots[j])
    ensures BlockAt(m, slots, slots[i].id, slots[j].id) == slots[i := WeakBlocked(m, slots[i], slots[j])]
  {
    hide WeakBlocked;
    assert SnipeIn(slots, slots[i].id) && SnipeIn(slots, slots[j].id);
    forall k | 0 <= k < |slots|
      ensures slots[k].id == slots[i].id ==> k == i
      ensures slots[k].id == slots[j].id ==> k == j
    {
      if slots[k].id == slots[i].id { OneSlot(slots, k, i); }
      if slots[k].id == slots[j].id { OneSlot(slots, k, j); }
    }
  }

  lemma StillSnipe(slots0: seq<Entity>, slots: seq<Entity>, id: ID, idx: int)
    requires Unique(slots0) && |slots| == |slots0| && id != 0
    requires forall i | 0 <= i < |slots| :: Nudged(slots0[i], slots[i])
    requires SnipeIn(slots0, id)
    requires 0 <= idx < |slots| && slots[idx].id == id
    ensures LiveSnipe(slots[idx])
  {
    var i :| 0 <= i < |slots0| && slots0[i].id == id && LiveSnipe(slots0[i]);
    assert Nudged(slots0[idx], slots[idx]);
    OneSlot(slots0, i, idx);
  }

  /** The slot of a snipe that was live when the pass began. */
  method SnipeSlot(ghost slots0: seq<Entity>, slots: seq<Entity>, id: ID) returns (idx: int)
    requires Unique(slots0) && |slots| == |slots0|
    requires forall i | 0 <= i < |slots| :: Nudged(slots0[i], slots[i])
    requires SnipeIn(slots0, id)
    ensures 0 <= idx < |slots| && slots[idx].id == id && LiveSnipe(slots[idx])
  {
    idx := FindByID(slots, id);
    ghost var i :| 0 <= i < |slots0| && slots0[i].id == id && LiveSnipe(slots0[i]);
    assert Nudged(slots0[i], slots[i]);
    assert Present(slots, id);
    StillSnipe(slots0, slots, id, idx);
  }

  /** One pair: the snipe with the higher ID gives way. */
  method BlockPair(m: Maze, hi: Entity, lo: Entity) returns (e: Entity)
    requires WideShape(AlongX(m)) && LiveSnipe(hi) && LiveSnipe(lo)
    ensures e == WeakBlocked(m, hi, lo)
  {
    if !Overlaps(BoxOf(hi), BoxOf(lo)) {
      return hi;
    }
    var p := Pushed(hi, lo);
    var hit := HitsWall(m, p.x, p.y);
    e := if hit then hi else p;
  }

  method BlockStep(m: Maze, ghost startLives: nat, ghost log: seq<LifeEvent>, ghost st0: Store, st: Store, hi: ID,
                   lo: ID) returns (st': Store)
    requires GoodMaze(m) && Unique(st0.slots) && Inv(m, startLives, st, log) && NudgedStore(st0, st)
    requires hi != 0 && SnipeIn(st0.slots, hi)
    requires lo != 0 && SnipeIn(st0.slots, lo)
    ensures Inv(m, startLives, st', log) && NudgedStore(st0, st') && st'.slots == BlockAt(m, st.slots, hi, lo)
  {
    InvSlab(m, startLives, st, log);
    hide Inv, Overlaps, Free, Unique, Strips;
    var i := SnipeSlot(st0.slots, st.slots, hi);
    var j := SnipeSlot(st0.slots, st.slots, lo);
    WeakBlockKeeps(m, startLives, st, log, i, j);
    var e := BlockPair(m, st.slots[i], st.slots[j]);
    assert Nudged(st0.slots[i], st.slots[i]);
    st' := st.(slots := st.slots[i := e]);
    BlockAtIs(m, st.slots, i, j);
  }

  /** The a-th snipe against all before it. */
  method BlockRow(m: Maze, ghost startLives: nat, ghost log: seq<LifeEvent>, ghost st0: Store, snipes: seq<ID>, a: nat,
                  st1: Store) returns (st: Store)
    requires GoodMaze(m) && Unique(st0.slots) && Inv(m, startLives, st1, log) && NudgedStore(st0, st1) && a < |snipes|
    requires forall id | id in snipes :: id != 0 && SnipeIn(st0.slots, id)
    requires st1.slots == Blocks(m, st0.slots, snipes, a, 0)
    ensures Inv(m, startLives, st, log) && NudgedStore(st0, st) && st.slots == Blocks(m, st0.slots, snipes, a, a)
  {
    st := st1;
    hide *;
    assert snipes[a] in snipes;
    for b := 0 to a
      invariant Inv(m, startLives, st, log) && NudgedStore(st0, st) && st.slots == Blocks(m, st0.slots, snipes, a, b)
    {
      assert snipes[b] in snipes;
      BlocksNext(m, st0.slots, snipes, a, b);
      st := BlockStep(m, startLives, log, st0, st, snipes[a], snipes[b]);
    }
  }

  method ApplySnipeWeakBlock(m: Maze, ghost startLives: nat, ghost log: seq<LifeEvent>, st0: Store) returns (st: Store)
    requires GoodMaze(m) && Inv(m, startLives, st0, log)
    ensures Inv(m, startLives, st, log) && BlockedStore(m, st0, st)
  {
    st := st0;
    InvSlab(m, startLives, st, log);
    assert NudgedStore(st0, st);
    hide *;
    var snipes := SnipeIDs(st0.slots);
    BlocksStart(m, st0.slots, snipes);
    for a := 0 to |snipes|
      invariant Inv(m, startLives, st, log) && NudgedStore(st0, st) && st.slots == Blocks(m, st0.slots, snipes, a, 0)
    {
      st := BlockRow(m, startLives, log, st0, snipes, a, st);
      BlocksRow(m, st0.slots, snipes, a);
    }
    AllInTurn(m, st0, snipes, st);
  }

  lemma AllInTurn(m: Maze, st0: Store, ids: seq<ID>, st: Store)
    requires NudgedStore(st0, st) && Ascending(ids) && st.slots == Blocks(m, st0.slots, ids, |ids|, 0)
    requires forall id :: id in ids <==> id != 0 && SnipeIn(st0.slots, id)
    ensures BlockedStore(m, st0, st)
  {
    hide Blocks, SnipeIn, NudgedStore;
    assert InTurn(m, st0, ids, st);
  }

  lemma BlocksStart(m: Maze, slots: seq<Entity>, ids: seq<ID>)
    ensures Blocks(m, slots, ids, 0, 0) == slots
  {
  }

  lemma BlocksNext(m: Maze, slots: seq<Entity>, ids: seq<ID>, a: nat, b: nat)
    requires b < a < |ids|
    ensures Blocks(m, slots, ids, a, b + 1) == BlockAt(m, Blocks(m, slots, ids, a, b), ids[a], ids[b])
  {
  }

  lemma BlocksRow(m: Maze, slots: seq<Entity>, ids: seq<ID>, a: nat)
    requires a < |ids|
    ensures Blocks(m, slots, ids, a + 1, 0) == Blocks(m, slots, ids, a, a)
  {
  }

  lemma NudgedPending(st0: Store, st: Store, noRespawn: bool, from: int, upTo: int)
    requires NudgedStore(st0, st) && Pending(st0, noRespawn, from, upTo)
    ensures Pending(st, noRespawn, from, upTo)
  {
    forall i | 0 <= i < |st.slots|
      ensures SameVital(st0.slots[i], st.slots[i])
    {
      assert Nudged(st0.slots[i], st.slots[i]);
    }
    SamePending(st0, st, noRespawn, from, upTo);
  }
}
