/** The end of a tick: players come back, their protection runs out, and the dead are cleared away. */
module Respawn {
  import opened Grid
  import opened Physics
  import opened Entities
  import opened Slab
  import opened Ledger
  import opened SimState
  import opened Movement
  import opened Firing
  import opened Emission
  import opened SafeSpawn

  const SPAWN_INVULN_TICKS := 60
  const PLAYER_HP := 1

  // ---- step 8: respawn ----

  predicate Due(st: Store, tick: nat, e: Entity) {
    IsPlayer(e) && e.flags.dead && e.id in st.players && st.players[e.id].hasRespawnAt
      && st.players[e.id].respawnAt == tick
  }

  function Reborn(e: Entity, t: TilePos): Entity {
    e.(flags := Flags(false, true, false), hp := PLAYER_HP, x := TileMid(t.0), y := TileMid(t.1), vx := 0, vy := 0,
       facing := S)
  }

  function RebornState(ps: PlayerState, tick: nat): PlayerState {
    ps.(fireCooldown := 0, lastDir := Idle, hasRespawnAt := false, spawnInvulnUntil := tick + SPAWN_INVULN_TICKS)
  }

  /** The store with the player in this slot back on tile t. */
  function Returned(st: Store, idx: int, t: TilePos, tick: nat): Store
    requires 0 <= idx < |st.slots| && st.slots[idx].id in st.players
  {
    var p := st.slots[idx].id;
    st.(slots := st.slots[idx := Reborn(st.slots[idx], t)],
        players := st.players[p := RebornState(st.players[p], tick)],
        histories := if p in st.histories then st.histories[p := []] else st.histories)
  }

  function Deferred(st: Store, p: ID, tick: nat): Store
    requires p in st.players
  {
    st.(players := st.players[p := st.players[p].(respawnAt := tick + 1)])
  }

  datatype Turn = NotDue | NoHaven | Back(tile: TilePos)

  /** The tile is among the three safest for the player in this slot. */
  ghost predicate Chosen(m: Maze, st: Store, idx: int, t: TilePos)
    requires 0 <= idx < |st.slots|
  {
    var p := st.slots[idx].id;
    p in st.players && AmongThree(m, st.slots, p, TileAt(st.players[p].deathX, st.players[p].deathY), t)
  }

  ghost predicate RespawnOutcome(m: Maze, tick: nat, st: Store, idx: int, st': Store, r: Turn)
    requires 0 <= idx < |st.slots|
  {
    var e := st.slots[idx];
    match r
    case NotDue => !Due(st, tick, e) && st' == st
    case NoHaven => Due(st, tick, e) && (forall t :: !Haven(m, st.slots, t)) && st' == Deferred(st, e.id, tick)
    case Back(t) => Due(st, tick, e) && Haven(m, st.slots, t) && Chosen(m, st, idx, t)
                    && st' == Returned(st, idx, t, tick)
  }

  function LogOf(log: seq<LifeEvent>, id: ID, r: Turn): seq<LifeEvent> {
    if r.Back? then log + [Respawned(id)] else log
  }

  lemma ReturnKeeps(m: Maze, startLives: nat, st: Store, log: seq<LifeEvent>, tick: nat, idx: int, t: TilePos)
    requires GoodMaze(m) && Inv(m, startLives, st, log) && 0 <= idx < |st.slots|
    requires Due(st, tick, st.slots[idx]) && Haven(m, st.slots, t)
    ensures Inv(m, startLives, Returned(st, idx, t, tick), log + [Respawned(st.slots[idx].id)])
  {
    var e := st.slots[idx];
    assert Account(log, startLives, e.id, st.players[e.id]);
    assert Standing(m, Reborn(e, t));
    forall j | 0 <= j < |st.slots|
      ensures NoClash(Reborn(e, t), st.slots[j])
    {
      assert Live(st.slots[j]) ==> !Overlaps(PlayerBox(t), BoxOf(st.slots[j]));
    }
    var st' := Returned(st, idx, t, tick);
    assert st'.histories.Keys == st.histories.Keys;
    hide Inv, Standing, Overlaps, Haven, GoodMaze;
    RespawnKeeps(m, startLives, st, st', log, idx, Reborn(e, t));
  }

  method RespawnOne(m: Maze, ghost startLives: nat, ghost log: seq<LifeEvent>, tick: nat, st: Store, idx: int)
    returns (st': Store, ghost log': seq<LifeEvent>, r: Turn)
    requires GoodMaze(m) && Inv(m, startLives, st, log) && 0 <= idx < |st.slots|
    ensures RespawnOutcome(m, tick, st, idx, st', r) && log' == LogOf(log, st.slots[idx].id, r) && log <= log'
    ensures Inv(m, startLives, st', log')
  {
    hide Inv, Haven, GoodMaze, AmongThree;
    var e := st.slots[idx];
    log' := log;
    if !(IsPlayer(e) && e.flags.dead && e.id in st.players) {
      return st, log, NotDue;
    }
    var ps := st.players[e.id];
    if !ps.hasRespawnAt || ps.respawnAt != tick {
      return st, log, NotDue;
    }
    var t := SelectRespawnTile(m, st.slots, e.id, TileAt(ps.deathX, ps.deathY));
    if t.None? {
      PlayerKeeps(m, startLives, st, log, e.id, ps.(respawnAt := tick + 1));
      return st.(players := st.players[e.id := ps.(respawnAt := tick + 1)]), log, NoHaven;
    }
    ReturnKeeps(m, startLives, st, log, tick, idx, t.value);
    st' := st.(slots := st.slots[idx := Reborn(e, t.value)], players := st.players[e.id := RebornState(ps, tick)],
               histories := if e.id in st.histories then st.histories[e.id := []] else st.histories);
    log' := log + [Respawned(e.id)];
    r := Back(t.value);
  }

  // ---- step 8 over all players ----

  /** Players whose turn is past wait for a later tick, the rest still for this one or later. */
  ghost predicate Split(st: Store, noRespawn: bool, tick: int, done: set<ID>) {
    forall i | 0 <= i < |st.slots| ::
      Waits(st, noRespawn, if st.slots[i].id in done then tick + 1 else tick, tick + RESPAWN_TICKS, st.slots[i])
  }

  ghost predicate Wakes(m: Maze, tick: nat, st0: Store, st: Store, i: int)
    requires 0 <= i < |st.slots| && |st0.slots| == |st.slots|
  {
    || (st.slots[i] == st0.slots[i]
        && HistoryOf(st.histories, st0.slots[i].id) == HistoryOf(st0.histories, st0.slots[i].id))
    || (Due(st0, tick, st0.slots[i]) && AloneAt(st.slots, i)
        && (exists t: TilePos :: At(m, t.0, t.1) == SpawnPlayer && st.slots[i] == Reborn(st0.slots[i], t))
        && st0.slots[i].id in st.players
          && st.players[st0.slots[i].id] == RebornState(st0.players[st0.slots[i].id], tick)
        && (st0.slots[i].id in st.histories ==> st.histories[st0.slots[i].id] == []))
  }

  /** Someone due who is not back found every spawn taken. */
  ghost predicate Left(m: Maze, tick: nat, st0: Store, st: Store, i: int)
    requires 0 <= i < |st.slots| && |st0.slots| == |st.slots|
  {
    Due(st0, tick, st0.slots[i]) && st.slots[i].flags.dead ==> forall t :: !Haven(m, st.slots, t)
  }

  /** The entity with this ID lay dead before and lives after. */
  ghost predicate CameBack(a: seq<Entity>, b: seq<Entity>, p: ID) {
    |b| == |a| && exists i :: 0 <= i < |a| && a[i].id == p && a[i].flags.dead && !b[i].flags.dead
  }

  ghost predicate RespawnedBy(m: Maze, tick: nat, st0: Store, done: set<ID>, st: Store) {
    && |st.slots| == |st0.slots|
    && (forall i | 0 <= i < |st.slots| :: Wakes(m, tick, st0, st, i))
    && (forall i | 0 <= i < |st.slots| && st0.slots[i].id in done :: Left(m, tick, st0, st, i))
    && (forall i | 0 <= i < |st.slots| && st0.slots[i].id !in done :: st.slots[i] == st0.slots[i])
    && st == st0.(slots := st.slots, players := st.players, histories := st.histories)
    && st.players.Keys == st0.players.Keys && st.histories.Keys == st0.histories.Keys
    && (forall p | p in st0.players && p !in done :: st.players[p] == st0.players[p])
    && (forall p | p in st0.players ::
          st.players[p].lives == st0.players[p].lives && st.players[p].score == st0.players[p].score
                                       && st.players[p].eliminated == st0.players[p].eliminated)
    && (forall p | p in st0.histories && st.histories[p] != st0.histories[p] ::
          st.histories[p] == [] && CameBack(st0.slots, st.slots, p))
  }

  /** The entity with this ID has its turn. */
  ghost predicate ReturnTurn(m: Maze, tick: nat, st: Store, id: ID, st': Store) {
    exists idx, r | 0 <= idx < |st.slots| && st.slots[idx].id == id :: RespawnOutcome(m, tick, st, idx, st', r)
  }

  /** The first k have had their turns, each against what the ones before it left. */
  ghost predicate Returns(m: Maze, tick: nat, st0: Store, ids: seq<ID>, k: nat, st: Store)
    requires k <= |ids|
  {
    if k == 0 then st == st0
    else
      var j: nat := k - 1;
      exists mid: Store :: Returns(m, tick, st0, ids, j, mid) && ReturnTurn(m, tick, mid, ids[j], st)
  }

  lemma NoReturns(m: Maze, tick: nat, st: Store, ids: seq<ID>)
    ensures Returns(m, tick, st, ids, 0, st)
  {
  }

  lemma ReturnNext(m: Maze, tick: nat, st0: Store, ids: seq<ID>, k: nat, st: Store, idx: int, st': Store, r: Turn)
    requires k < |ids| && Returns(m, tick, st0, ids, k, st)
    requires 0 <= idx < |st.slots| && st.slots[idx].id == ids[k] && RespawnOutcome(m, tick, st, idx, st', r)
    ensures Returns(m, tick, st0, ids, k + 1, st')
  {
    hide RespawnOutcome;
    assert ReturnTurn(m, tick, st, ids[k], st');
  }

  /** Everyone has had a turn in ID order, and what that comes to. */
  ghost predicate RespawnedStore(m: Maze, tick: nat, st0: Store, st: Store) {
    && RespawnedBy(m, tick, st0, st0.players.Keys, st)
    && exists ids | IDsOf(st0.slots, ids) :: Returns(m, tick, st0, ids, |ids|, st)
  }

  lemma RespawnedIs(m: Maze, tick: nat, st0: Store, ids: seq<ID>, st: Store)
    requires RespawnedBy(m, tick, st0, st0.players.Keys, st) && IDsOf(st0.slots, ids)
             && Returns(m, tick, st0, ids, |ids|, st)
    ensures RespawnedStore(m, tick, st0, st)
  {
    hide RespawnedBy, IDsOf, Returns;
  }

  // ---- one turn, given what the turns before it did ----

  lemma TurnSame(m: Maze, tick: nat, st0: Store, done: set<ID>, st: Store, idx: int)
    requires RespawnedBy(m, tick, st0, done, st) && 0 <= idx < |st.slots|
    requires st0.slots[idx].id !in done
    ensures st.slots[idx] == st0.slots[idx] && (Due(st, tick, st.slots[idx]) <==> Due(st0, tick, st0.slots[idx]))
    ensures forall p | p in st0.players && p !in done :: p in st.players && st.players[p] == st0.players[p]
  {
  }

  lemma NotDueStep(m: Maze, tick: nat, st0: Store, done: set<ID>, st: Store, idx: int)
    requires RespawnedBy(m, tick, st0, done, st) && Unique(st0.slots)
    requires 0 <= idx < |st.slots| && st0.slots[idx].id != 0 && !Due(st0, tick, st0.slots[idx])
    ensures RespawnedBy(m, tick, st0, done + {st0.slots[idx].id}, st)
  {
    hide Wakes, Haven;
    forall i | 0 <= i < |st.slots| && st0.slots[i].id in done + {st0.slots[idx].id}
      ensures Left(m, tick, st0, st, i)
    {
      if st0.slots[i].id == st0.slots[idx].id { OneSlot(st0.slots, i, idx); }
    }
  }

  lemma NoHavenStep(m: Maze, tick: nat, st0: Store, done: set<ID>, st: Store, idx: int)
    requires RespawnedBy(m, tick, st0, done, st) && Unique(st0.slots)
    requires 0 <= idx < |st.slots| && st0.slots[idx].id in st.players && st0.slots[idx].id !in done
             && st0.slots[idx].id != 0
    requires forall t :: !Haven(m, st.slots, t)
    ensures RespawnedBy(m, tick, st0, done + {st0.slots[idx].id}, Deferred(st, st0.slots[idx].id, tick))
  {
    hide Haven, AloneAt;
    var p := st0.slots[idx].id;
    var st' := Deferred(st, p, tick);
    forall i | 0 <= i < |st.slots|
      ensures Wakes(m, tick, st0, st', i)
    {
      assert Wakes(m, tick, st0, st, i);
      if st0.slots[i].id == p && p != 0 { OneSlot(st0.slots, i, idx); }
    }
    forall i | 0 <= i < |st.slots| && st0.slots[i].id in done + {p}
      ensures Left(m, tick, st0, st', i)
    {
    }
  }

  /** One more player on the field leaves the earlier ones as they were, and frees no spawn. */
  lemma BackWakes(m: Maze, tick: nat, st0: Store, st: Store, idx: int, t: TilePos, i: int)
    requires |st0.slots| == |st.slots| && Unique(st.slots) && 0 <= idx < |st.slots| && 0 <= i < |st.slots| && i != idx
    requires st.slots[idx].id in st.players && st.slots[idx].id != 0 && st.slots[idx].flags.dead
             && Vacant(st.slots, PlayerBox(t))
    requires Wakes(m, tick, st0, st, i)
    ensures Wakes(m, tick, st0, Returned(st, idx, t, tick), i)
  {
    var st' := Returned(st, idx, t, tick);
    assert st.slots[i].id != st.slots[idx].id by {
      if st.slots[i].id == st.slots[idx].id { OneSlot(st.slots, i, idx); }
    }
    if st.slots[i] != st0.slots[i] {
      BackAlone(st.slots, idx, Reborn(st.slots[idx], t), i);
    }
  }

  lemma BackAlone(slots: seq<Entity>, k: int, e: Entity, j: int)
    requires 0 <= k < |slots| && 0 <= j < |slots| && j != k && Live(slots[j])
    requires Vacant(slots, BoxOf(e)) && AloneAt(slots, j)
    ensures AloneAt(slots[k := e], j)
  {
    OverlapsBothWays(BoxOf(e), BoxOf(slots[j]));
    hide Overlaps, BoxOf;
  }

  lemma BackFrees(m: Maze, slots: seq<Entity>, k: int, e: Entity, t: TilePos)
    requires 0 <= k < |slots| && slots[k].flags.dead && Haven(m, slots[k := e], t)
    ensures Haven(m, slots, t)
  {
    forall i | 0 <= i < |slots| && Live(slots[i])
      ensures !Overlaps(PlayerBox(t), BoxOf(slots[i]))
    {
      assert slots[k := e][i] == slots[i];
    }
  }

  lemma BackStep(m: Maze, tick: nat, st0: Store, done: set<ID>, st: Store, idx: int, t: TilePos)
    requires RespawnedBy(m, tick, st0, done, st) && Unique(st0.slots) && Unique(st.slots)
    requires 0 <= idx < |st.slots| && st0.slots[idx].id !in done && st0.slots[idx].id in st.players
             && st0.slots[idx].id != 0
    requires Due(st0, tick, st0.slots[idx]) && Haven(m, st.slots, t)
    ensures st.slots[idx] == st0.slots[idx]
    ensures RespawnedBy(m, tick, st0, done + {st0.slots[idx].id}, Returned(st, idx, t, tick))
  {
    var p := st0.slots[idx].id;
    var st' := Returned(st, idx, t, tick);
    forall i | 0 <= i < |st'.slots|
      ensures Wakes(m, tick, st0, st', i)
    {
      if i == idx {
        assert BoxOf(st'.slots[idx]) == PlayerBox(t);
        assert AloneAt(st'.slots, idx);
      } else {
        BackWakes(m, tick, st0, st, idx, t, i);
      }
    }
    BackLeaves(m, tick, st0, done, st, idx, t);
    hide Wakes, Left, Haven, AloneAt, Due;
  }

  lemma BackLeaves(m: Maze, tick: nat, st0: Store, done: set<ID>, st: Store, idx: int, t: TilePos)
    requires RespawnedBy(m, tick, st0, done, st) && Unique(st0.slots)
    requires 0 <= idx < |st.slots| && st0.slots[idx].id in st.players && st0.slots[idx].id != 0
    requires st.slots[idx] == st0.slots[idx] && st.slots[idx].flags.dead
    ensures var st' := Returned(st, idx, t, tick);
            forall i | 0 <= i < |st'.slots| && st0.slots[i].id in done + {st0.slots[idx].id} ::
              Left(m, tick, st0, st', i)
  {
    hide Wakes;
    var st' := Returned(st, idx, t, tick);
    forall i | 0 <= i < |st'.slots| && st0.slots[i].id in done + {st0.slots[idx].id}
      ensures Left(m, tick, st0, st', i)
    {
      if i == idx {
      } else if st0.slots[i].id == st0.slots[idx].id {
        OneSlot(st0.slots, i, idx);
      } else {
        assert Left(m, tick, st0, st, i);
        forall h | Haven(m, st'.slots, h)
          ensures Haven(m, st.slots, h)
        {
          BackFrees(m, st.slots, idx, Reborn(st.slots[idx], t), h);
        }
      }
    }
  }

  /** The waiting list moves on with each turn. */
  lemma SplitNext(st: Store, noRespawn: bool, tick: nat, done: set<ID>, m: Maze, idx: int, st': Store, r: Turn)
    requires Split(st, noRespawn, tick, done) && Unique(st.slots)
    requires 0 <= idx < |st.slots| && st.slots[idx].id != 0 && st.slots[idx].id !in done
    requires RespawnOutcome(m, tick, st, idx, st', r)
    ensures Split(st', noRespawn, tick, done + {st.slots[idx].id})
  {
    hide Haven;
    forall i | 0 <= i < |st'.slots|
      ensures Waits(st', noRespawn, if st'.slots[i].id in done + {st.slots[idx].id} then tick + 1 else tick,
                    tick + RESPAWN_TICKS, st'.slots[i])
    {
      assert Waits(st, noRespawn, if st.slots[i].id in done then tick + 1 else tick, tick + RESPAWN_TICKS, st.slots[i]);
      if i != idx && st.slots[i].id == st.slots[idx].id { OneSlot(st.slots, i, idx); }
    }
  }

  lemma RespawnStep(m: Maze, tick: nat, st0: Store, done: set<ID>, st: Store, idx: int, st': Store, r: Turn)
    requires RespawnedBy(m, tick, st0, done, st) && Unique(st0.slots) && Unique(st.slots)
    requires 0 <= idx < |st.slots| && st0.slots[idx].id !in done && st0.slots[idx].id != 0
    requires RespawnOutcome(m, tick, st, idx, st', r)
    ensures st.slots[idx] == st0.slots[idx] && RespawnedBy(m, tick, st0, done + {st0.slots[idx].id}, st')
  {
    TurnSame(m, tick, st0, done, st, idx);
    hide RespawnedBy, Haven;
    match r
    case NotDue => NotDueStep(m, tick, st0, done, st, idx);
    case NoHaven => NoHavenStep(m, tick, st0, done, st, idx);
    case Back(t) => BackStep(m, tick, st0, done, st, idx, t);
  }

  lemma RespawnFinds(m: Maze, tick: nat, st0: Store, done: set<ID>, st: Store, ids: seq<ID>, k: int)
    requires RespawnedBy(m, tick, st0, done, st) && IDsOf(st0.slots, ids) && 0 <= k < |ids|
    ensures Present(st.slots, ids[k]) && ids[k] != 0 && |st.slots| == |st0.slots|
    ensures forall i | 0 <= i < |st.slots| :: st.slots[i].id == st0.slots[i].id
  {
    SameIDs(m, tick, st0, done, st);
    assert ids[k] in ids;
    var i :| 0 <= i < |st0.slots| && st0.slots[i].id == ids[k];
    assert st.slots[i].id == ids[k];
  }

  lemma NoneRespawned(m: Maze, tick: nat, st: Store, noRespawn: bool)
    ensures RespawnedBy(m, tick, st, {}, st)
    ensures Pending(st, noRespawn, tick, tick + RESPAWN_TICKS) ==> Split(st, noRespawn, tick, {})
  {
    forall i | 0 <= i < |st.slots| && Pending(st, noRespawn, tick, tick + RESPAWN_TICKS)
      ensures Waits(st, noRespawn, tick, tick + RESPAWN_TICKS, st.slots[i])
    {
    }
  }

  lemma AllRespawned(m: Maze, tick: nat, st0: Store, ids: seq<ID>, st: Store, noRespawn: bool)
    requires IDsOf(st0.slots, ids) && RespawnedBy(m, tick, st0, Prefix(ids, |ids|), st)
             && Split(st, noRespawn, tick, Prefix(ids, |ids|))
    requires forall i | 0 <= i < |st.slots| :: st.slots[i].id == st0.slots[i].id
    ensures RespawnedBy(m, tick, st0, st0.players.Keys, st)
    ensures Pending(st, noRespawn, tick + 1, tick + RESPAWN_TICKS)
  {
    hide Wakes, Haven;
    forall i | 0 <= i < |st.slots| && st.slots[i].id != 0
      ensures st.slots[i].id in Prefix(ids, |ids|)
    {
      assert Present(st0.slots, st0.slots[i].id);
      assert st0.slots[i].id in ids;
    }
    forall i | 0 <= i < |st.slots|
      ensures Waits(st, noRespawn, tick + 1, tick + RESPAWN_TICKS, st.slots[i])
    {
      assert Waits(st, noRespawn, if st.slots[i].id in Prefix(ids, |ids|) then tick + 1 else tick, tick + RESPAWN_TICKS,
                   st.slots[i]);
    }
    hide Waits;
    SameButUnseen(m, tick, st0, ids, st);
  }

  /** A slot not taken up is free, and a free slot is as it was. */
  lemma SameButUnseen(m: Maze, tick: nat, st0: Store, ids: seq<ID>, st: Store)
    requires RespawnedBy(m, tick, st0, Prefix(ids, |ids|), st)
    requires forall i | 0 <= i < |st.slots| && st0.slots[i].id != 0 :: st0.slots[i].id in Prefix(ids, |ids|)
    ensures RespawnedBy(m, tick, st0, st0.players.Keys, st)
  {
    hide Haven;
    forall i | 0 <= i < |st.slots| && st0.slots[i].id !in st0.players
      ensures st.slots[i] == st0.slots[i]
    {
      assert Wakes(m, tick, st0, st, i);
    }
    forall i | 0 <= i < |st.slots| && st0.slots[i].id in st0.players
      ensures Left(m, tick, st0, st, i)
    {
      if st0.slots[i].id != 0 { assert st0.slots[i].id in Prefix(ids, |ids|); }
    }
  }

  /** Step 8: everyone due comes back where there is room, or waits one tick more. */
  method RespawnPlayers(m: Maze, ghost startLives: nat, ghost noRespawn: bool, ghost log0: seq<LifeEvent>, tick: nat,
                        st0: Store)
    returns (st: Store, ghost log: seq<LifeEvent>)
    requires GoodMaze(m) && Inv(m, startLives, st0, log0) && Pending(st0, noRespawn, tick, tick + RESPAWN_TICKS)
    ensures Inv(m, startLives, st, log) && log0 <= log
    ensures Pending(st, noRespawn, tick + 1, tick + RESPAWN_TICKS)
    ensures RespawnedStore(m, tick, st0, st)
  {
    st, log := st0, log0;
    InvSlab(m, startLives, st, log);
    NoneRespawned(m, tick, st, noRespawn);
    var ids := LiveIDsSorted(st0.slots);
    EmptyPrefix(ids);
    assert IDsOf(st0.slots, ids);
    NoReturns(m, tick, st, ids);
    hide *;
    for k := 0 to |ids|
      invariant Inv(m, startLives, st, log) && log0 <= log
      invariant RespawnedBy(m, tick, st0, Prefix(ids, k), st) && Split(st, noRespawn, tick, Prefix(ids, k))
      invariant Returns(m, tick, st0, ids, k, st)
    {
      AscendingIDs(st0.slots, ids);
      PrefixNext(ids, k);
      InvSlab(m, startLives, st, log);
      RespawnFinds(m, tick, st0, Prefix(ids, k), st, ids, k);
      var idx := FindByID(st.slots, ids[k]);
      ghost var was := st;
      var r;
      st, log, r := RespawnOne(m, startLives, log, tick, st, idx);
      ReturnNext(m, tick, st0, ids, k, was, idx, st, r);
      RespawnStep(m, tick, st0, Prefix(ids, k), was, idx, st, r);
      SplitNext(was, noRespawn, tick, Prefix(ids, k), m, idx, st, r);
    }
    SameIDs(m, tick, st0, Prefix(ids, |ids|), st);
    AllRespawned(m, tick, st0, ids, st, noRespawn);
    RespawnedIs(m, tick, st0, ids, st);
  }

  lemma SameIDs(m: Maze, tick: nat, st0: Store, done: set<ID>, st: Store)
    requires RespawnedBy(m, tick, st0, done, st)
    ensures |st.slots| == |st0.slots| && forall i | 0 <= i < |st.slots| :: st.slots[i].id == st0.slots[i].id
  {
    forall i | 0 <= i < |st.slots|
      ensures st.slots[i].id == st0.slots[i].id
    {
      assert Wakes(m, tick, st0, st, i);
    }
  }
}
