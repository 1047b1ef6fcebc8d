/** The end of a tick: spawn protection runs out and the dead are cleared away. */
module Cleanup {
  import opened Grid
  import opened Entities
  import opened Slab
  import opened Ledger
  import opened SimState
  import opened Movement

  // ---- step 8.5: protection ----

  predicate Expired(st: Store, tick: nat, e: Entity) {
    IsPlayer(e) && e.id in st.players && st.players[e.id].spawnInvulnUntil != 0
      && tick >= st.players[e.id].spawnInvulnUntil
  }

  function Unshielded(st: Store, tick: nat, e: Entity): Entity {
    if Expired(st, tick, e) then e.(flags := e.flags.(invuln := false)) else e
  }

  function UnshieldOne(st: Store, tick: nat, idx: int): Store
    requires 0 <= idx < |st.slots|
  {
    var e := st.slots[idx];
    st.(slots := st.slots[idx := Unshielded(st, tick, e)],
        players := if Expired(st, tick, e) then st.players[e.id := st.players[e.id].(spawnInvulnUntil := 0)]
                   else st.players)
  }

  lemma UnshieldOneKeeps(m: Maze, startLives: nat, st: Store, log: seq<LifeEvent>, tick: nat, idx: int)
    requires Inv(m, startLives, st, log) && 0 <= idx < |st.slots|
    ensures Inv(m, startLives, UnshieldOne(st, tick, idx), log)
  {
    var e := st.slots[idx];
    assert Standing(m, e);
    assert forall j | 0 <= j < |st.slots| :: NoClash(st.slots[idx], st.slots[j]);
    UpdateKeeps(m, startLives, st, log, idx, Unshielded(st, tick, e));
    hide Inv;
    if Expired(st, tick, e) {
      PlayerKeeps(m, startLives, st.(slots := st.slots[idx := Unshielded(st, tick, e)]), log, e.id,
                  st.players[e.id].(spawnInvulnUntil := 0));
    }
  }

  ghost predicate UnshieldedBy(tick: nat, st0: Store, done: set<ID>, st: Store) {
    && |st.slots| == |st0.slots|
    && (forall i | 0 <= i < |st.slots| ::
          st.slots[i] == if st0.slots[i].id in done then Unshielded(st0, tick, st0.slots[i]) else st0.slots[i])
    && (forall i | 0 <= i < |st.slots| && st0.slots[i].id in done && Expired(st0, tick, st0.slots[i]) ::
          st0.slots[i].id in st.players && st.players[st0.slots[i].id].spawnInvulnUntil == 0)
    && st == st0.(slots := st.slots, players := st.players) && st.players.Keys == st0.players.Keys
    && (forall p | p in st0.players && p !in done :: st.players[p] == st0.players[p])
    && (forall p | p in st0.players ::
          st.players[p] == st0.players[p] || st.players[p] == st0.players[p].(spawnInvulnUntil := 0))
  }

  /** Exactly the players whose protection has run out lose the flag and the mark. */
  ghost predicate UnshieldedStore(tick: nat, st0: Store, st: Store) {
    UnshieldedBy(tick, st0, st0.players.Keys, st)
  }

  lemma UnshieldStep(tick: nat, st0: Store, done: set<ID>, st: Store, idx: int)
    requires UnshieldedBy(tick, st0, done, st) && Unique(st0.slots) && 0 <= idx < |st.slots|
    requires st0.slots[idx].id != 0 && st0.slots[idx].id !in done
    ensures UnshieldedBy(tick, st0, done + {st0.slots[idx].id}, UnshieldOne(st, tick, idx))
  {
    var p := st0.slots[idx].id;
    forall i | 0 <= i < |st.slots| && i != idx
      ensures st0.slots[i].id != p
    {
      if st0.slots[i].id == p { OneSlot(st0.slots, i, idx); }
    }
  }

  lemma UnshieldFinds(tick: nat, st0: Store, done: set<ID>, st: Store, ids: seq<ID>, k: int)
    requires UnshieldedBy(tick, st0, done, st) && IDsOf(st0.slots, ids) && 0 <= k < |ids|
    ensures Present(st.slots, ids[k]) && ids[k] != 0
            && forall i | 0 <= i < |st.slots| :: st.slots[i].id == st0.slots[i].id
    ensures |st.slots| == |st0.slots|
  {
    assert ids[k] in ids;
    var i :| 0 <= i < |st0.slots| && st0.slots[i].id == ids[k];
    assert st.slots[i].id == ids[k];
  }

  lemma UnshieldAll(tick: nat, st0: Store, ids: seq<ID>, st: Store)
    requires UnshieldedBy(tick, st0, Prefix(ids, |ids|), st) && IDsOf(st0.slots, ids)
    ensures UnshieldedStore(tick, st0, st)
  {
    forall i | 0 <= i < |st0.slots|
      ensures st0.slots[i].id != 0 ==> st0.slots[i].id in Prefix(ids, |ids|)
    {
      assert Present(st0.slots, st0.slots[i].id);
      assert st0.slots[i].id in ids || st0.slots[i].id == 0;
    }
  }

  lemma UnshieldNone(tick: nat, st: Store)
    ensures UnshieldedBy(tick, st, {}, st)
  {
  }

  lemma NoneYet(ids: seq<ID>)
    ensures Prefix(ids, 0) == {}
  {
  }

  /** Step 8.5. */
  method ClearInvuln(ghost m: Maze, ghost startLives: nat, ghost log: seq<LifeEvent>, tick: nat, st0: Store)
    returns (st: Store)
    requires Inv(m, startLives, st0, log)
    ensures Inv(m, startLives, st, log) && UnshieldedStore(tick, st0, st)
  {
    st := st0;
    InvSlab(m, startLives, st, log);
    UnshieldNone(tick, st);
    var ids := LiveIDsSorted(st0.slots);
    NoneYet(ids);
    assert IDsOf(st0.slots, ids);
    hide *;
    for k := 0 to |ids|
      invariant Inv(m, startLives, st, log) && UnshieldedBy(tick, st0, Prefix(ids, k), st)
    {
      AscendingIDs(st0.slots, ids);
      PrefixNext(ids, k);
      UnshieldFinds(tick, st0, Prefix(ids, k), st, ids, k);
      var idx := FindByID(st.slots, ids[k]);
      UnshieldOneKeeps(m, startLives, st, log, tick, idx);
      UnshieldStep(tick, st0, Prefix(ids, k), st, idx);
      st := UnshieldOne(st, tick, idx);
    }
    UnshieldAll(tick, st0, ids, st);
  }

  // ---- step 9: garbage ----

  function Removed(st: Store, k: int): Store
    requires 0 <= k < |st.slots|
  {
    var id := st.slots[k].id;
    st.(slots := st.slots[k := FREE], players := st.players - {id}, projectiles := st.projectiles - {id},
        snipes := st.snipes - {id}, generators := st.generators - {id})
  }

  ghost predicate Freed(before: seq<Entity>, after: seq<Entity>, id: ID)
    requires |after| == |before|
  {
    exists i :: 0 <= i < |before| && before[i].id == id && after[i].id == 0
  }

  /** Nothing is new or changed. */
  ghost predicate Within<V>(b: map<ID, V>, a: map<ID, V>) { forall p | p in b :: p in a && b[p] == a[p] }

  /** Records are as they were, or gone with their entity. */
  ghost predicate Trimmed<V>(a: map<ID, V>, b: map<ID, V>, before: seq<Entity>, after: seq<Entity>)
    requires |after| == |before|
  {
    Within(b, a) && forall p | p in a && p !in b :: Freed(before, after, p)
  }

  /** What snipes remember and where generators have got to. */
  ghost predicate MachinesKept(st0: Store, st: Store) {
    && |st.slots| == |st0.slots|
    && Trimmed(st0.snipes, st.snipes, st0.slots, st.slots)
    && Trimmed(st0.generators, st.generators, st0.slots, st.slots)
  }

  lemma FreedStays(before: seq<Entity>, after: seq<Entity>, k: int)
    requires |after| == |before| && 0 <= k < |after|
    ensures forall p | Freed(before, after, p) :: Freed(before, after[k := FREE], p)
    ensures after[k].id == before[k].id ==> Freed(before, after[k := FREE], after[k].id)
  {
    var after' := after[k := FREE];
    forall p | Freed(before, after, p)
      ensures Freed(before, after', p)
    {
      var i :| 0 <= i < |before| && before[i].id == p && after[i].id == 0;
      assert after'[i].id == 0;
    }
    assert after'[k].id == 0;
  }

  lemma RemovedMachines(st0: Store, st: Store, k: int)
    requires MachinesKept(st0, st) && 0 <= k < |st.slots| && st.slots[k].id == st0.slots[k].id
    ensures MachinesKept(st0, Removed(st, k)) && MachinesKept(st0, st.(slots := st.slots[k := FREE]))
  {
    FreedStays(st0.slots, st.slots, k);
    hide Freed;
  }

  /** Free the slot of this ID and drop its sidecars. */
  method Remove(ghost m: Maze, ghost startLives: nat, ghost log: seq<LifeEvent>, st: Store, id: ID) returns (st': Store)
    requires Inv(m, startLives, st, log) && id != 0
    ensures Inv(m, startLives, st', log)
    ensures !Present(st.slots, id) ==> st' == st
    ensures forall k | 0 <= k < |st.slots| && st.slots[k].id == id :: st' == Removed(st, k)
  {
    var idx := FindByID(st.slots, id);
    if idx < 0 {
      assert forall k | 0 <= k < |st.slots| :: st.slots[k].id != id;
      return st;
    }
    RemoveKeeps(m, startLives, st, Removed(st, idx), log, idx);
    st' := st.(slots := st.slots[idx := FREE], players := st.players - {id}, projectiles := st.projectiles - {id},
               snipes := st.snipes - {id}, generators := st.generators - {id});
    forall k | 0 <= k < |st.slots| && st.slots[k].id == id
      ensures k == idx
    {
      OneSlot(st.slots, k, idx);
    }
  }

  predicate Out(st: Store, e: Entity) {
    e.id in st.players && st.players[e.id].eliminated
  }

  /** Dead generators and snipes go at once; dead players only if they are not coming back. */
  predicate Doomed(noRespawn: bool, st: Store, e: Entity) {
    e.id != 0 && e.flags.dead
      && (e.kind == Generator || e.kind == Snipe || (e.kind == Player && (noRespawn || Out(st, e))))
  }

  /** An eliminated player leaves the slab but keeps its record; everyone else leaves entirely. */
  function Swept(noRespawn: bool, st: Store, k: int): Store
    requires 0 <= k < |st.slots|
  {
    var e := st.slots[k];
    if !Doomed(noRespawn, st, e) then st
    else if e.kind == Player && Out(st, e) then st.(slots := st.slots[k := FREE])
    else Removed(st, k)
  }

  ghost predicate CollectedSlots(noRespawn: bool, st0: Store, k: nat, st: Store) {
    && |st.slots| == |st0.slots|
    && (forall i | 0 <= i < |st.slots| ::
          st.slots[i] == if i < k && Doomed(noRespawn, st0, st0.slots[i]) then FREE else st0.slots[i])
  }

  ghost predicate CollectedPlayers(noRespawn: bool, st0: Store, k: nat, st: Store) {
    && st.players.Keys <= st0.players.Keys
    && (forall p | p in st0.players :: if p in st.players then st.players[p] == st0.players[p]
                                       else noRespawn && !st0.players[p].eliminated && Present(st0.slots, p))
    && (forall i | 0 <= i < |st0.slots| && st0.slots[i].id in st0.players && st0.slots[i].id != 0 ::
          (i < k && Doomed(noRespawn, st0, st0.slots[i])) || st0.slots[i].id in st.players)
  }

  ghost predicate CollectedBy(noRespawn: bool, st0: Store, k: nat, st: Store) {
    && CollectedSlots(noRespawn, st0, k, st)
    && CollectedPlayers(noRespawn, st0, k, st)
    && st.histories == st0.histories && st.nextID == st0.nextID && MachinesKept(st0, st)
  }

  ghost predicate CollectedStore(noRespawn: bool, st0: Store, st: Store) {
    CollectedBy(noRespawn, st0, |st0.slots|, st)
  }

  lemma SweptKeeps(m: Maze, startLives: nat, st: Store, log: seq<LifeEvent>, noRespawn: bool, k: int)
    requires Inv(m, startLives, st, log) && 0 <= k < |st.slots|
    ensures Inv(m, startLives, Swept(noRespawn, st, k), log)
  {
    if Doomed(noRespawn, st, st.slots[k]) {
      RemoveKeeps(m, startLives, st, Swept(noRespawn, st, k), log, k);
    }
  }

  /** Slots and records not yet swept are judged as they were at the start. */
  lemma SameDoom(noRespawn: bool, st0: Store, k: nat, st: Store)
    requires CollectedBy(noRespawn, st0, k, st) && k < |st0.slots|
    requires forall i | 0 <= i < |st0.slots| && st0.slots[i].id != 0 ::
               (st0.slots[i].kind == Player <==> st0.slots[i].id in st0.players)
    ensures var e := st0.slots[k];
            st.slots[k] == e && (Doomed(noRespawn, st, e) <==> Doomed(noRespawn, st0, e))
              && (e.id != 0 ==> (Out(st, e) <==> Out(st0, e)))
  {
    hide Present;
  }

  lemma SweptSlots(noRespawn: bool, st0: Store, k: nat, st: Store)
    requires CollectedSlots(noRespawn, st0, k, st) && k < |st0.slots|
    requires Doomed(noRespawn, st, st0.slots[k]) <==> Doomed(noRespawn, st0, st0.slots[k])
    ensures CollectedSlots(noRespawn, st0, k + 1, Swept(noRespawn, st, k))
  {
    hide Doomed, Out;
  }

  lemma SweptPlayers(noRespawn: bool, st0: Store, k: nat, st: Store)
    requires CollectedPlayers(noRespawn, st0, k, st) && Unique(st0.slots) && k < |st0.slots| == |st.slots|
    requires st.slots[k] == st0.slots[k]
    requires st0.slots[k].id != 0 ==> (st0.slots[k].kind == Player <==> st0.slots[k].id in st0.players)
    ensures CollectedPlayers(noRespawn, st0, k + 1, Swept(noRespawn, st, k))
  {
    var e := st0.slots[k];
    var st' := Swept(noRespawn, st, k);
    if st'.players != st.players {
      assert st'.players == st.players - {e.id} && e.id != 0 && Present(st0.slots, e.id);
      forall i | 0 <= i < |st0.slots| && i != k
        ensures st0.slots[i].id != e.id
      {
        if st0.slots[i].id == e.id { OneSlot(st0.slots, i, k); }
      }
    }
    hide Unique, Present;
  }

  lemma SweptStep(noRespawn: bool, st0: Store, k: nat, st: Store)
    requires CollectedBy(noRespawn, st0, k, st) && Unique(st0.slots) && k < |st0.slots|
    requires forall i | 0 <= i < |st0.slots| && st0.slots[i].id != 0 ::
               (st0.slots[i].kind == Player <==> st0.slots[i].id in st0.players)
    ensures CollectedBy(noRespawn, st0, k + 1, Swept(noRespawn, st, k))
  {
    SameDoom(noRespawn, st0, k, st);
    assert |st.slots| == |st0.slots|;
    RemovedMachines(st0, st, k);
    hide CollectedSlots, CollectedPlayers, Unique, Out, Doomed, MachinesKept;
    SweptSlots(noRespawn, st0, k, st);
    SweptPlayers(noRespawn, st0, k, st);
  }

  method SweepSlot(ghost m: Maze, ghost startLives: nat, ghost log: seq<LifeEvent>, noRespawn: bool, st: Store, k: int)
    returns (st': Store)
    requires Inv(m, startLives, st, log) && 0 <= k < |st.slots|
    ensures Inv(m, startLives, st', log) && st' == Swept(noRespawn, st, k)
  {
    SweptKeeps(m, startLives, st, log, noRespawn, k);
    hide Inv;
    st' := st;
    var e := st.slots[k];
    if e.id == 0 || !e.flags.dead {
      return;
    }
    match e.kind
    case Generator | Snipe =>
      st' := Remove(m, startLives, log, st, e.id);
    case Player =>
      var eliminated := e.id in st.players && st.players[e.id].eliminated;
      if noRespawn || eliminated {
        if eliminated {
          st' := st.(slots := st.slots[k := FREE]);
        } else {
          st' := Remove(m, startLives, log, st, e.id);
        }
      }
    case _ =>
  }

  /** Step 9. */
  method GarbageCollect(ghost m: Maze, ghost startLives: nat, ghost log: seq<LifeEvent>, noRespawn: bool, st0: Store)
    returns (st: Store)
    requires Inv(m, startLives, st0, log)
    ensures Inv(m, startLives, st, log) && CollectedStore(noRespawn, st0, st)
  {
    st := st0;
    InvSlab(m, startLives, st, log);
    PlayersByKind(m, startLives, st, log);
    hide Inv, CollectedBy, Swept, Unique;
    NothingCollected(noRespawn, st);
    for k := 0 to |st0.slots|
      invariant Inv(m, startLives, st, log) && CollectedBy(noRespawn, st0, k, st)
    {
      InvSlab(m, startLives, st, log);
      SweptStep(noRespawn, st0, k, st);
      st := SweepSlot(m, startLives, log, noRespawn, st, k);
    }
  }

  lemma NothingCollected(noRespawn: bool, st: Store)
    ensures CollectedBy(noRespawn, st, 0, st)
  {
  }

  lemma PlayersByKind(m: Maze, startLives: nat, st: Store, log: seq<LifeEvent>)
    requires Inv(m, startLives, st, log)
    ensures forall i | 0 <= i < |st.slots| && st.slots[i].id != 0 ::
              (st.slots[i].kind == Player <==> st.slots[i].id in st.players)
    ensures forall i | 0 <= i < |st.slots| && st.slots[i].id != 0 && st.slots[i].kind == Projectile ::
              !st.slots[i].flags.dead
    ensures forall i | 0 <= i < |st.slots| && st.slots[i].id != 0 :: st.slots[i].kind != NoKind
  {
    assert forall i | 0 <= i < |st.slots| :: Registered(st, st.slots[i]);
  }

  // ---- what the end of a tick leaves ----

  /** The only dead left in the slab are players due back within the respawn delay. */
  ghost predicate Settled(st: Store, noRespawn: bool, tick: int) {
    forall i | 0 <= i < |st.slots| && st.slots[i].id != 0 && st.slots[i].flags.dead ::
      && st.slots[i].kind == Player && !noRespawn && st.slots[i].id in st.players
      && var ps := st.players[st.slots[i].id];
         !ps.eliminated && ps.hasRespawnAt && tick < ps.respawnAt <= tick + RESPAWN_TICKS
  }

  lemma UnshieldPending(tick: nat, st0: Store, st: Store, noRespawn: bool, from: int, upTo: int)
    requires UnshieldedStore(tick, st0, st) && Pending(st0, noRespawn, from, upTo)
    ensures Pending(st, noRespawn, from, upTo)
  {
    SamePending(st0, st, noRespawn, from, upTo);
  }

  lemma CollectSettles(m: Maze, startLives: nat, log: seq<LifeEvent>, noRespawn: bool, st0: Store, st: Store, tick: int)
    requires Inv(m, startLives, st, log) && CollectedStore(noRespawn, st0, st)
    requires Pending(st0, noRespawn, tick + 1, tick + RESPAWN_TICKS)
    ensures Settled(st, noRespawn, tick)
  {
    PlayersByKind(m, startLives, st, log);
    hide Inv;
    forall i | 0 <= i < |st.slots| && st.slots[i].id != 0 && st.slots[i].flags.dead
      ensures st.slots[i].kind == Player && st.slots[i].id in st.players && !noRespawn
      ensures var ps := st.players[st.slots[i].id];
              !ps.eliminated && ps.hasRespawnAt && tick < ps.respawnAt <= tick + RESPAWN_TICKS
    {
      assert Waits(st0, noRespawn, tick + 1, tick + RESPAWN_TICKS, st0.slots[i]);
      assert st.slots[i] == st0.slots[i] && !Doomed(noRespawn, st0, st0.slots[i]);
    }
  }

  lemma SettledPending(st: Store, noRespawn: bool, tick: int)
    requires Settled(st, noRespawn, tick)
    ensures Pending(st, noRespawn, tick + 1, tick + RESPAWN_TICKS)
  {
    forall i | 0 <= i < |st.slots|
      ensures Waits(st, noRespawn, tick + 1, tick + RESPAWN_TICKS, st.slots[i])
    {
    }
  }
}
