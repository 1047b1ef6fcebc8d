/** Steps 5 and 6 of a tick: projectiles strike, and the old ones fade. */
module Hits {
  import opened Grid
  import opened Physics
  import opened Entities
  import opened Slab
  import opened History
  import opened Ledger
  import opened SimState
  import opened Movement
  import opened Cleanup
  import opened Samples
  import P = Projectiles

  // ---- a kill ----

  function Reward(kind: Kind): int {
    match kind
    case Snipe => REWARD_SNIPE
    case Generator => REWARD_GENERATOR
    case Player => REWARD_PLAYER
    case _ => 0
  }

  /** No credit goes to nobody, to snipes, or to players no longer on record. */
  function Awarded(players: map<ID, PlayerState>, killer: ID, kind: Kind): map<ID, PlayerState> {
    if killer == 0 || killer !in players then players
    else players[killer := players[killer].(score := players[killer].score + Reward(kind))]
  }

  /** The victim's own record: five points and a life down, then out for good or due back. */
  function Fallen(ps: PlayerState, e: Entity, tick: nat, noRespawn: bool): PlayerState {
    var lives := if ps.lives > 0 then ps.lives - 1 else 0;
    var ps1 := ps.(deathX := e.x, deathY := e.y, fireCooldown := 0, lastDir := Idle, score := ps.score + DEATH_PENALTY,
                   lives := lives);
    if lives == 0 then ps1.(eliminated := true, hasRespawnAt := false)
    else if !noRespawn then ps1.(respawnAt := tick + RESPAWN_TICKS, hasRespawnAt := true)
    else ps1
  }

  function KilledPlayers(players: map<ID, PlayerState>, e: Entity, killer: ID, tick: nat,
                         noRespawn: bool): map<ID, PlayerState> {
    if e.kind == Player && e.id in players then
      var ps := if killer != e.id then Awarded(players, killer, Player) else players;
      ps[e.id := Fallen(ps[e.id], e, tick, noRespawn)]
    else Awarded(players, killer, e.kind)
  }

  function Killing(st: Store, k: int, e: Entity, killer: ID, tick: nat, noRespawn: bool): Store
    requires 0 <= k < |st.slots|
  {
    st.(slots := st.slots[k := Corpse(e)], players := KilledPlayers(st.players, e, killer, tick, noRespawn))
  }

  /** Every account moves exactly as the record does. */
  lemma KillBalances(st: Store, log: seq<LifeEvent>, startLives: nat, e: Entity, killer: ID, tick: nat, noRespawn: bool,
                     p: ID)
    requires e.id != 0 && 0 !in st.players && p in st.players && Account(log, startLives, p, st.players[p])
    requires e.id in st.players <==> e.kind == Player
    requires p == e.id ==> st.players[p].lives > 0
    ensures Account(log + [Killed(e.id, e.kind, killer)], startLives, p,
                    KilledPlayers(st.players, e, killer, tick, noRespawn)[p])
  {
    KillAccounts(log, e.id, e.kind, killer, p);
  }

  lemma InvAccounts(m: Maze, startLives: nat, st: Store, log: seq<LifeEvent>, k: int)
    requires Inv(m, startLives, st, log) && 0 <= k < |st.slots| && Live(st.slots[k])
    ensures 0 !in st.players && forall p | p in st.players :: Account(log, startLives, p, st.players[p])
    ensures st.slots[k].id in st.players <==> st.slots[k].kind == Player
    ensures st.slots[k].id in st.players ==> st.players[st.slots[k].id].lives > 0
  {
    assert Registered(st, st.slots[k]) && Vitals(st, log, st.slots[k]);
  }

  lemma KillingKeeps(m: Maze, startLives: nat, st: Store, log: seq<LifeEvent>, k: int, e: Entity, killer: ID, tick: nat,
                     noRespawn: bool)
    requires Inv(m, startLives, st, log) && 0 <= k < |st.slots|
    requires Live(st.slots[k]) && st.slots[k].kind != Projectile && e == st.slots[k].(hp := e.hp)
    ensures Inv(m, startLives, Killing(st, k, e, killer, tick, noRespawn), log + [Killed(e.id, e.kind, killer)])
  {
    InvAccounts(m, startLives, st, log, k);
    var st' := Killing(st, k, e, killer, tick, noRespawn);
    assert st'.players.Keys == st.players.Keys;
    hide Inv, Account, KilledPlayers;
    forall p | p in st.players
      ensures Account(log + [Killed(e.id, e.kind, killer)], startLives, p, st'.players[p])
    {
      KillBalances(st, log, startLives, e, killer, tick, noRespawn, p);
    }
    KillKeeps(m, startLives, st, st', log, k, e, killer);
  }

  lemma KillingPending(m: Maze, startLives: nat, st: Store, log: seq<LifeEvent>, k: int, e: Entity, killer: ID,
                       tick: nat, noRespawn: bool)
    requires Inv(m, startLives, st, log) && 0 <= k < |st.slots|
    requires Live(st.slots[k]) && e == st.slots[k].(hp := e.hp)
    requires Pending(st, noRespawn, tick, tick + RESPAWN_TICKS)
    ensures Pending(Killing(st, k, e, killer, tick, noRespawn), noRespawn, tick, tick + RESPAWN_TICKS)
  {
    InvSlab(m, startLives, st, log);
    hide Inv;
    var st' := Killing(st, k, e, killer, tick, noRespawn);
    forall i | 0 <= i < |st'.slots|
      ensures Waits(st', noRespawn, tick, tick + RESPAWN_TICKS, st'.slots[i])
    {
      assert Waits(st, noRespawn, tick, tick + RESPAWN_TICKS, st.slots[i]);
      if i != k && st.slots[i].id == e.id { OneSlot(st.slots, i, k); }
    }
  }

  method AwardKill(players: map<ID, PlayerState>, killer: ID, kind: Kind) returns (r: map<ID, PlayerState>)
    ensures r == Awarded(players, killer, kind)
  {
    if killer == 0 || killer !in players {
      return players;
    }
    var score := players[killer].score;
    match kind {
      case Snipe => score := score + REWARD_SNIPE;
      case Generator => score := score + REWARD_GENERATOR;
      case Player => score := score + REWARD_PLAYER;
      case _ =>
    }
    r := players[killer := players[killer].(score := score)];
  }

  method SettlePlayers(players0: map<ID, PlayerState>, e: Entity, killer: ID, tick: nat, noRespawn: bool)
    returns (players: map<ID, PlayerState>)
    requires e.kind == Player ==> e.id in players0
    ensures players == KilledPlayers(players0, e, killer, tick, noRespawn)
  {
    players := players0;
    if e.kind != Player {
      players := AwardKill(players, killer, e.kind);
      return;
    }
    if killer != e.id {
      players := AwardKill(players, killer, Player);
    }
    var ps := players[e.id].(deathX := e.x, deathY := e.y, fireCooldown := 0, lastDir := Idle);
    ps := ps.(score := ps.score + DEATH_PENALTY);
    if ps.lives > 0 {
      ps := ps.(lives := ps.lives - 1);
    }
    if ps.lives == 0 {
      ps := ps.(eliminated := true, hasRespawnAt := false);
    } else if !noRespawn {
      ps := ps.(respawnAt := tick + RESPAWN_TICKS, hasRespawnAt := true);
    }
    players := players[e.id := ps];
  }

  /** Flag the entity in slot k dead and settle everyone's account. */
  method KillEntity(ghost m: Maze, ghost startLives: nat, ghost log: seq<LifeEvent>, noRespawn: bool, tick: nat,
                    st: Store, k: int, e: Entity, killer: ID)
    returns (st': Store)
    requires Inv(m, startLives, st, log) && 0 <= k < |st.slots|
    requires Live(st.slots[k]) && st.slots[k].kind != Projectile && e == st.slots[k].(hp := e.hp)
    ensures Inv(m, startLives, st', log + [Killed(e.id, e.kind, killer)])
    ensures st' == Killing(st, k, e, killer, tick, noRespawn)
  {
    KillingKeeps(m, startLives, st, log, k, e, killer, tick, noRespawn);
    InvSlab(m, startLives, st, log);
    hide Inv, KilledPlayers;
    var players := SettlePlayers(st.players, e, killer, tick, noRespawn);
    st' := st.(slots := st.slots[k := e.(flags := DEAD_FLAGS, vx := 0, vy := 0)], players := players);
  }

  // ---- one projectile ----

  /** Every live entity that is not a projectile, in ID order. */
  method CollectHitCandidates(slots: seq<Entity>) returns (cands: seq<Entity>)
    requires Unique(slots)
    ensures Distinct(cands)
    ensures forall e :: e in cands <==> e in slots && Live(e) && e.kind != Projectile
    ensures forall i, j | 0 <= i < j < |cands| :: cands[i].id < cands[j].id
  {
    var ids := LiveIDsSorted(slots);
    cands := [];
    for k := 0 to |ids|
      invariant forall i, j | 0 <= i < j < |cands| :: cands[i].id < cands[j].id
      invariant forall i | 0 <= i < |cands| :: cands[i].id in ids[..k]
      invariant forall e :: e in cands <==> e in slots && e.id in ids[..k] && !e.flags.dead && e.kind != Projectile
    {
      assert ids[k] in ids;
      var idx := FindByID(slots, ids[k]);
      var e := slots[idx];
      assert forall x | x in ids[..k] :: x < ids[k];
      forall e' | e' in slots && e'.id == ids[k]
        ensures e' == e
      {
        var j :| 0 <= j < |slots| && slots[j] == e';
        OneSlot(slots, j, idx);
      }
      if e.kind != Projectile && !e.flags.dead {
        cands := cands + [e];
      }
    }
    forall e | e in slots && e.id != 0
      ensures e.id in ids
    {
      var j :| 0 <= j < |slots| && slots[j] == e;
      assert Present(slots, e.id);
    }
    assert ids[..|ids|] == ids;
    forall e
      ensures e in cands <==> e in slots && Live(e) && e.kind != Projectile
    {
      assert e.id in ids ==> e.id != 0;
    }
  }

  ghost predicate Candidates(slots: seq<Entity>, cands: seq<Entity>) {
    Distinct(cands) && forall e :: e in cands <==> e in slots && Live(e) && e.kind != Projectile
  }

  /** What holds between the samples being written and players respawning. */
  ghost predicate Mid(m: Maze, startLives: nat, noRespawn: bool, tick: nat, st: Store, log: seq<LifeEvent>) {
    Inv(m, startLives, st, log) && Pending(st, noRespawn, tick, tick + RESPAWN_TICKS) && Sampled(st, tick)
  }

  ghost predicate KindIs(slots: seq<Entity>, id: ID, kind: Kind) {
    if Present(slots, id) then
      exists i | 0 <= i < |slots| :: slots[i].id == id && slots[i].kind == kind else kind == NoKind
  }

  function ShotOf(m: Maze, st: Store, tick: nat, proj: Entity, shooterKind: Kind): P.Shot
    requires proj.id in st.projectiles
  {
    var ps := st.projectiles[proj.id];
    P.Shot(m, proj, ps.shooter, shooterKind, P.LagEnabled(shooterKind, ps.owtTicks), TView(tick, ps.owtTicks),
           st.histories)
  }

  /** Whoever is out stays on record, and out. */
  ghost predicate RecordsKept(a: map<ID, PlayerState>, b: map<ID, PlayerState>) {
    forall p | p in a && a[p].eliminated :: p in b && b[p].eliminated
  }

  predicate Hurtable(e: Entity, id: ID) { e.id == id && Live(e) && e.hp > 0 }

  /** A hit that finds its target alive in the slab costs it a point of health, and the last point its life. */
  ghost predicate Struck(st: Store, log: seq<LifeEvent>, target: ID, killer: ID, tick: nat, noRespawn: bool, st': Store,
                         log': seq<LifeEvent>) {
    if exists k | 0 <= k < |st.slots| :: Hurtable(st.slots[k], target) then
      exists k | 0 <= k < |st.slots| && Hurtable(st.slots[k], target) ::
        var e := st.slots[k].(hp := st.slots[k].hp - 1);
        if e.hp == 0 then
          st' == Killing(st, k, e, killer, tick, noRespawn) && log' == log + [Killed(target, e.kind, killer)]
        else st' == st.(slots := st.slots[k := e]) && log' == log
    else st' == st && log' == log
  }

  lemma NoHitFree(s: P.Shot)
    requires WideShape(AlongX(s.m)) && s.proj.kind == Projectile && s.proj.id != 0 && Standing(s.m, s.proj)
             && !s.proj.flags.dead
    requires !P.HitsWall(s)
    ensures Standing(s.m, s.proj.(x := s.proj.x + s.proj.vx, y := s.proj.y + s.proj.vy))
  {
    var k := Motion(s.proj.x, s.proj.y, s.proj.vx, s.proj.vy);
    WallMoveFree(s.m, k, PROJECTILE_HALF);
    UnstoppedMoves(AlongX(s.m), k.x, k.y, k.vx);
    var x' := Sweep(AlongX(s.m), k.x, k.y, k.vx, PROJECTILE_HALF, []).0;
    UnstoppedMoves(AlongY(s.m), k.y, x', k.vy);
  }

  /** A sweep against walls that keeps its speed has gone the whole way. */
  lemma UnstoppedMoves(wall: WallMap, p: int, q: int, v: int)
    ensures var (p', v') := Sweep(wall, p, q, v, PROJECTILE_HALF, []); v == 0 || v' != 0 ==> p' == p + v
  {
  }

  /** What a shot hits is never another projectile, live or rewound. */
  lemma TargetKind(s: P.Shot, cands: seq<Entity>, st: Store, tick: nat, id: ID, x: int, y: int, k: int)
    requires Candidates(st.slots, cands) && Unique(st.slots) && s.histories == st.histories && Sampled(st, tick)
    requires P.Resolved(s, cands, P.EntityHit(id, x, y))
    requires 0 <= k < |st.slots| && st.slots[k].id == id
    ensures st.slots[k].kind != Projectile
  {
    P.HitIsFirst(s, cands, id, x, y);
    hide P.Resolved, P.EntryOf;
    if Has(cands, id) {
      var e := Lookup(cands, id);
      assert Live(e) && e in st.slots;
      var j :| 0 <= j < |st.slots| && st.slots[j] == e;
      OneSlot(st.slots, j, k);
    } else {
      assert P.GhostHit(s, id).Some?;
      ScanIsWritten(st.histories[id], s.tView, 0);
      assert Traced(st.histories[id], st.slots[k].kind, tick);
    }
  }

  lemma HurtMid(m: Maze, startLives: nat, noRespawn: bool, tick: nat, st: Store, log: seq<LifeEvent>, k: int, hp: nat)
    requires Mid(m, startLives, noRespawn, tick, st, log) && 0 <= k < |st.slots|
    ensures Mid(m, startLives, noRespawn, tick, st.(slots := st.slots[k := st.slots[k].(hp := hp)]), log)
  {
    var e := st.slots[k].(hp := hp);
    var st' := st.(slots := st.slots[k := e]);
    assert Standing(m, st.slots[k]);
    assert forall j | 0 <= j < |st.slots| :: NoClash(st.slots[k], st.slots[j]);
    UpdateKeeps(m, startLives, st, log, k, e);
    hide Inv, Pending, Sampled;
    SamePending(st, st', noRespawn, tick, tick + RESPAWN_TICKS);
    VitalSampled(st, st', tick);
  }

  lemma KillMid(m: Maze, startLives: nat, noRespawn: bool, tick: nat, st: Store, log: seq<LifeEvent>, k: int, e: Entity,
                killer: ID)
    requires Mid(m, startLives, noRespawn, tick, st, log) && 0 <= k < |st.slots|
    requires Live(st.slots[k]) && st.slots[k].kind != Projectile && e == st.slots[k].(hp := e.hp)
    ensures Mid(m, startLives, noRespawn, tick, Killing(st, k, e, killer, tick, noRespawn),
                log + [Killed(e.id, e.kind, killer)])
  {
    hide Inv, Pending, Sampled, KilledPlayers;
    KillingKeeps(m, startLives, st, log, k, e, killer, tick, noRespawn);
    KillingPending(m, startLives, st, log, k, e, killer, tick, noRespawn);
    SampledKept(st, Killing(st, k, e, killer, tick, noRespawn), tick);
  }

  /** The damage step; everything but the target keeps its slot. */
  method Strike(ghost m: Maze, ghost startLives: nat, ghost log: seq<LifeEvent>, noRespawn: bool, tick: nat, st: Store,
                target: ID, killer: ID)
    returns (st': Store, ghost log': seq<LifeEvent>)
    requires Mid(m, startLives, noRespawn, tick, st, log) && target != 0
    requires forall k | 0 <= k < |st.slots| && st.slots[k].id == target :: st.slots[k].kind != Projectile
    ensures Mid(m, startLives, noRespawn, tick, st', log')
            && Struck(st, log, target, killer, tick, noRespawn, st', log')
    ensures |st'.slots| == |st.slots| && st'.projectiles == st.projectiles && log <= log'
    ensures forall i | 0 <= i < |st.slots| && st.slots[i].id != target :: st'.slots[i] == st.slots[i]
    ensures forall i | 0 <= i < |st.slots| :: st'.slots[i].id == st.slots[i].id && st'.slots[i].kind == st.slots[i].kind
    ensures RecordsKept(st.players, st'.players)
  {
    st', log' := st, log;
    InvSlab(m, startLives, st, log);
    hide Mid, Inv, Killing, Unique;
    var k := FindByID(st.slots, target);
    if k < 0 || st.slots[k].flags.dead || st.slots[k].hp == 0 {
      NotHurtable(st.slots, target, k);
      return;
    }
    assert Hurtable(st.slots[k], target);
    var e := st.slots[k].(hp := st.slots[k].hp - 1);
    if e.hp > 0 {
      HurtMid(m, startLives, noRespawn, tick, st, log, k, e.hp);
      st' := st.(slots := st.slots[k := e]);
      return;
    }
    KillMid(m, startLives, noRespawn, tick, st, log, k, e, killer);
    log' := log + [Killed(target, e.kind, killer)];
    MidInv(m, startLives, noRespawn, tick, st, log);
    st' := KillEntity(m, startLives, log, noRespawn, tick, st, k, e, killer);
    KillingFrame(st, k, e, killer, tick, noRespawn);
  }

  lemma MidInv(m: Maze, startLives: nat, noRespawn: bool, tick: nat, st: Store, log: seq<LifeEvent>)
    requires Mid(m, startLives, noRespawn, tick, st, log)
    ensures Inv(m, startLives, st, log)
  {
  }

  lemma KillingFrame(st: Store, k: int, e: Entity, killer: ID, tick: nat, noRespawn: bool)
    requires 0 <= k < |st.slots|
    ensures var st' := Killing(st, k, e, killer, tick, noRespawn);
            && st'.slots == st.slots[k := Corpse(e)] && st'.projectiles == st.projectiles
            && RecordsKept(st.players, st'.players)
  {
  }

  lemma NotHurtable(slots: seq<Entity>, id: ID, k: int)
    requires Unique(slots) && id != 0 && -1 <= k < |slots|
    requires if k < 0 then !Present(slots, id) else slots[k].id == id && !Hurtable(slots[k], id)
    ensures forall i | 0 <= i < |slots| :: !Hurtable(slots[i], id)
  {
    forall i | 0 <= i < |slots|
      ensures !Hurtable(slots[i], id)
    {
      if slots[i].id == id {
        assert Present(slots, id);
        OneSlot(slots, i, k);
      }
    }
  }

  // ---- one projectile's turn ----

  ghost predicate Applied(st: Store, log: seq<LifeEvent>, idx: int, hit: P.ProjHit, tick: nat, noRespawn: bool,
                          st': Store, log': seq<LifeEvent>)
    requires 0 <= idx < |st.slots| && st.slots[idx].id in st.projectiles
  {
    match hit
    case NoHit(x, y) => st' == st.(slots := st.slots[idx := st.slots[idx].(x := x, y := y)]) && log' == log
    case WallHit(_, _) => st' == Removed(st, idx) && log' == log
    case EntityHit(t, _, _) =>
      exists mid: Store ::
        && Struck(st, log, t, st.projectiles[st.slots[idx].id].shooter, tick, noRespawn, mid, log')
        && |mid.slots| == |st.slots| && st' == Removed(mid, idx)
  }

  /** Resolve the projectile in slot idx against everything as it stands now, and apply the outcome. */
  ghost predicate Flown(m: Maze, tick: nat, noRespawn: bool, st: Store, log: seq<LifeEvent>, idx: int, st': Store,
                        log': seq<LifeEvent>)
    requires 0 <= idx < |st.slots| && st.slots[idx].id in st.projectiles
  {
    exists cands: seq<Entity>, kind: Kind, hit: P.ProjHit ::
      && Candidates(st.slots, cands) && KindIs(st.slots, st.projectiles[st.slots[idx].id].shooter, kind)
      && P.Resolved(ShotOf(m, st, tick, st.slots[idx], kind), cands, hit)
      && Applied(st, log, idx, hit, tick, noRespawn, st', log')
  }

  method KindIn(slots: seq<Entity>, id: ID) returns (kind: Kind)
    ensures KindIs(slots, id, kind)
  {
    var i := FindByID(slots, id);
    kind := if i >= 0 then slots[i].kind else NoKind;
  }

  lemma RemovedMid(m: Maze, startLives: nat, noRespawn: bool, tick: nat, st: Store, log: seq<LifeEvent>, idx: int)
    requires Mid(m, startLives, noRespawn, tick, st, log) && 0 <= idx < |st.slots| && st.slots[idx].id != 0
    ensures Mid(m, startLives, noRespawn, tick, Removed(st, idx), log)
  {
    var st' := Removed(st, idx);
    RemoveKeeps(m, startLives, st, st', log, idx);
    InvSlab(m, startLives, st, log);
    ZeroHasNone(m, startLives, st, log);
    hide Inv;
    SampledKept(st, st', tick);
    forall i | 0 <= i < |st'.slots|
      ensures Waits(st', noRespawn, tick, tick + RESPAWN_TICKS, st'.slots[i])
    {
      assert Waits(st, noRespawn, tick, tick + RESPAWN_TICKS, st.slots[i]);
    }
  }

  lemma FliesMid(m: Maze, startLives: nat, noRespawn: bool, tick: nat, st: Store, log: seq<LifeEvent>, idx: int, x: int,
                 y: int)
    requires Mid(m, startLives, noRespawn, tick, st, log) && 0 <= idx < |st.slots|
    requires st.slots[idx].kind == Projectile && Standing(m, st.slots[idx].(x := x, y := y))
    ensures Mid(m, startLives, noRespawn, tick, st.(slots := st.slots[idx := st.slots[idx].(x := x, y := y)]), log)
  {
    var e := st.slots[idx].(x := x, y := y);
    var st' := st.(slots := st.slots[idx := e]);
    UpdateKeeps(m, startLives, st, log, idx, e);
    hide Inv, Pending, Sampled;
    SamePending(st, st', noRespawn, tick, tick + RESPAWN_TICKS);
    VitalSampled(st, st', tick);
  }

  lemma TargetNonzero(s: P.Shot, cands: seq<Entity>, id: ID, x: int, y: int)
    requires P.Resolved(s, cands, P.EntityHit(id, x, y)) && 0 !in s.histories
    ensures id != 0 && id != s.shooter
  {
    P.HitIsFirst(s, cands, id, x, y);
  }

  lemma MissesWall(s: P.Shot, cands: seq<Entity>, x: int, y: int)
    requires P.Resolved(s, cands, P.NoHit(x, y))
    ensures !P.HitsWall(s) && x == s.proj.x + s.proj.vx && y == s.proj.y + s.proj.vy
  {
  }

  lemma ProjectileSlot(m: Maze, startLives: nat, noRespawn: bool, tick: nat, st: Store, log: seq<LifeEvent>, idx: int)
    requires Mid(m, startLives, noRespawn, tick, st, log) && 0 <= idx < |st.slots| && st.slots[idx].id != 0
             && st.slots[idx].kind == Projectile
    ensures st.slots[idx].id in st.projectiles && Live(st.slots[idx]) && Standing(m, st.slots[idx]) && Unique(st.slots)
    ensures 0 !in st.histories && Sampled(st, tick)
  {
    assert Registered(st, st.slots[idx]);
  }

  lemma NotAPlayer(m: Maze, startLives: nat, st: Store, log: seq<LifeEvent>, idx: int)
    requires Inv(m, startLives, st, log) && 0 <= idx < |st.slots| && st.slots[idx].id != 0
             && st.slots[idx].kind == Projectile
    ensures st.slots[idx].id !in st.players && st.slots[idx].id in st.projectiles
  {
    assert Registered(st, st.slots[idx]);
  }

  /** Slots keep their ID and kind or fall free. */
  predicate SlotsKeep(a: seq<Entity>, b: seq<Entity>) {
    |b| == |a| && forall i | 0 <= i < |a| :: b[i].id == 0 || (b[i].id == a[i].id && b[i].kind == a[i].kind)
  }

  lemma RemovedRecords(m: Maze, startLives: nat, noRespawn: bool, tick: nat, st: Store, log: seq<LifeEvent>, idx: int)
    requires Mid(m, startLives, noRespawn, tick, st, log) && 0 <= idx < |st.slots| && st.slots[idx].id != 0
             && st.slots[idx].kind == Projectile
    ensures Mid(m, startLives, noRespawn, tick, Removed(st, idx), log)
    ensures RecordsKept(st.players, Removed(st, idx).players) && SlotsKeep(st.slots, Removed(st, idx).slots)
  {
    RemovedMid(m, startLives, noRespawn, tick, st, log, idx);
    NotAPlayer(m, startLives, st, log, idx);
  }

  lemma RecordsChain(a: map<ID, PlayerState>, b: map<ID, PlayerState>, c: map<ID, PlayerState>)
    requires RecordsKept(a, b) && RecordsKept(b, c)
    ensures RecordsKept(a, c)
  {
  }

  /** The projectile strikes its target and is spent. */
  method StrikeAndEnd(ghost m: Maze, ghost startLives: nat, ghost log: seq<LifeEvent>, noRespawn: bool, tick: nat,
                      st: Store, idx: int, target: ID, killer: ID)
    returns (st': Store, ghost log': seq<LifeEvent>)
    requires Mid(m, startLives, noRespawn, tick, st, log) && 0 <= idx < |st.slots| && target != 0
    requires st.slots[idx].id != 0 && st.slots[idx].kind == Projectile
    requires forall k | 0 <= k < |st.slots| && st.slots[k].id == target :: st.slots[k].kind != Projectile
    ensures Mid(m, startLives, noRespawn, tick, st', log') && log <= log' && SlotsKeep(st.slots, st'.slots)
    ensures RecordsKept(st.players, st'.players)
    ensures exists mid: Store ::
              Struck(st, log, target, killer, tick, noRespawn, mid, log') && |mid.slots| == |st.slots|
                && st' == Removed(mid, idx)
  {
    hide Mid, Struck, RecordsKept;
    var mid;
    mid, log' := Strike(m, startLives, log, noRespawn, tick, st, target, killer);
    RemovedRecords(m, startLives, noRespawn, tick, mid, log', idx);
    RecordsChain(st.players, mid.players, Removed(mid, idx).players);
    MidInv(m, startLives, noRespawn, tick, mid, log');
    st' := Remove(m, startLives, log', mid, st.slots[idx].id);
    assert Struck(st, log, target, killer, tick, noRespawn, mid, log') && st' == Removed(mid, idx);
  }

  lemma FlownRecords(st: Store, idx: int, x: int, y: int)
    requires 0 <= idx < |st.slots|
    ensures SlotsKeep(st.slots, st.slots[idx := st.slots[idx].(x := x, y := y)]) && RecordsKept(st.players, st.players)
  {
  }

  /** Nothing but the projectile moves on, is removed, or strikes. */
  method ApplyHit(ghost m: Maze, ghost startLives: nat, ghost log: seq<LifeEvent>, noRespawn: bool, tick: nat,
                  st: Store, idx: int, hit: P.ProjHit)
    returns (st': Store, ghost log': seq<LifeEvent>)
    requires Mid(m, startLives, noRespawn, tick, st, log) && 0 <= idx < |st.slots|
    requires st.slots[idx].id != 0 && st.slots[idx].kind == Projectile && st.slots[idx].id in st.projectiles
    requires hit.NoHit? ==> Standing(m, st.slots[idx].(x := hit.endX, y := hit.endY))
    requires hit.EntityHit? ==> hit.target != 0
    requires hit.EntityHit? ==>
               forall k | 0 <= k < |st.slots| && st.slots[k].id == hit.target :: st.slots[k].kind != Projectile
    ensures Mid(m, startLives, noRespawn, tick, st', log') && log <= log' && SlotsKeep(st.slots, st'.slots)
    ensures RecordsKept(st.players, st'.players)
    ensures Applied(st, log, idx, hit, tick, noRespawn, st', log')
  {
    hide Mid, Struck, Standing, Unique, RecordsKept, SlotsKeep;
    var e := st.slots[idx];
    match hit
    case NoHit(x, y) =>
      FliesMid(m, startLives, noRespawn, tick, st, log, idx, x, y);
      FlownRecords(st, idx, x, y);
      st', log' := st.(slots := st.slots[idx := e.(x := x, y := y)]), log;
    case WallHit(_, _) =>
      RemovedRecords(m, startLives, noRespawn, tick, st, log, idx);
      MidInv(m, startLives, noRespawn, tick, st, log);
      log' := log;
      st' := Remove(m, startLives, log, st, e.id);
    case EntityHit(target, _, _) =>
      st', log' := StrikeAndEnd(m, startLives, log, noRespawn, tick, st, idx, target, st.projectiles[e.id].shooter);
  }

  method FlyOne(m: Maze, ghost startLives: nat, ghost log: seq<LifeEvent>, noRespawn: bool, tick: nat, st: Store,
                idx: int)
    returns (st': Store, ghost log': seq<LifeEvent>)
    requires GoodMaze(m) && Mid(m, startLives, noRespawn, tick, st, log) && 0 <= idx < |st.slots|
    requires st.slots[idx].id != 0 && st.slots[idx].kind == Projectile
    ensures Mid(m, startLives, noRespawn, tick, st', log') && log <= log' && SlotsKeep(st.slots, st'.slots)
    ensures RecordsKept(st.players, st'.players)
    ensures st.slots[idx].id in st.projectiles && Flown(m, tick, noRespawn, st, log, idx, st', log')
  {
    assert WideShape(AlongX(m));
    hide Mid, P.Resolved, Applied, Standing, WideShape, Sampled, SlotsKeep, P.HitsWall;
    ProjectileSlot(m, startLives, noRespawn, tick, st, log, idx);
    var e := st.slots[idx];
    var kind := KindIn(st.slots, st.projectiles[e.id].shooter);
    var cands := CollectHitCandidates(st.slots);
    var s := ShotOf(m, st, tick, e, kind);
    var hit := P.ResolveProjectile(s, cands);
    match hit {
      case NoHit(x, y) =>
        MissesWall(s, cands, x, y);
        NoHitFree(s);
      case EntityHit(id, x, y) =>
        TargetNonzero(s, cands, id, x, y);
        forall k | 0 <= k < |st.slots| && st.slots[k].id == id
          ensures st.slots[k].kind != Projectile
        {
          TargetKind(s, cands, st, tick, id, x, y, k);
        }
      case _ =>
    }
    st', log' := ApplyHit(m, startLives, log, noRespawn, tick, st, idx, hit);
    FlownBy(m, tick, noRespawn, st, log, idx, cands, kind, hit, st', log');
  }

  lemma FlownBy(m: Maze, tick: nat, noRespawn: bool, st: Store, log: seq<LifeEvent>, idx: int, cands: seq<Entity>,
                kind: Kind, hit: P.ProjHit, st': Store, log': seq<LifeEvent>)
    requires 0 <= idx < |st.slots| && st.slots[idx].id in st.projectiles
    requires Candidates(st.slots, cands) && KindIs(st.slots, st.projectiles[st.slots[idx].id].shooter, kind)
    requires P.Resolved(ShotOf(m, st, tick, st.slots[idx], kind), cands, hit)
    requires Applied(st, log, idx, hit, tick, noRespawn, st', log')
    ensures Flown(m, tick, noRespawn, st, log, idx, st', log')
  {
    hide Candidates, KindIs, P.Resolved, Applied, ShotOf;
  }

  // ---- step 5 ----

  ghost predicate FlightTurn(m: Maze, tick: nat, noRespawn: bool, st: Store, log: seq<LifeEvent>, pid: ID, st': Store,
                             log': seq<LifeEvent>) {
    if Present(st.slots, pid) then
      exists idx | 0 <= idx < |st.slots| && st.slots[idx].id == pid ::
        pid in st.projectiles && Flown(m, tick, noRespawn, st, log, idx, st', log')
    else st' == st && log' == log
  }

  /** The first k of these projectiles have flown, each against what the ones before it left. */
  ghost predicate Flights(m: Maze, tick: nat, noRespawn: bool, st0: Store, log0: seq<LifeEvent>, pids: seq<ID>, k: nat,
                          st: Store, log: seq<LifeEvent>)
    requires k <= |pids|
  {
    if k == 0 then st == st0 && log == log0
    else
      var j: nat := k - 1;
      exists mid: Store, midLog: seq<LifeEvent> ::
        Flights(m, tick, noRespawn, st0, log0, pids, j, mid, midLog)
          && FlightTurn(m, tick, noRespawn, mid, midLog, pids[j], st, log)
  }

  lemma StruckFrame(st: Store, log: seq<LifeEvent>, target: ID, killer: ID, tick: nat, noRespawn: bool, st': Store,
                    log': seq<LifeEvent>)
    requires Struck(st, log, target, killer, tick, noRespawn, st', log')
    ensures SlotsKeep(st.slots, st'.slots) && st'.histories == st.histories && st'.nextID == st.nextID
    ensures st'.snipes == st.snipes
  {
    hide KilledPlayers;
  }

  lemma AppliedFrame(st: Store, log: seq<LifeEvent>, idx: int, hit: P.ProjHit, tick: nat, noRespawn: bool, st': Store,
                     log': seq<LifeEvent>)
    requires 0 <= idx < |st.slots| && st.slots[idx].id in st.projectiles
             && Applied(st, log, idx, hit, tick, noRespawn, st', log')
    ensures SlotsKeep(st.slots, st'.slots) && st'.histories == st.histories && st'.nextID == st.nextID
    ensures Within(st'.snipes, st.snipes)
  {
    hide Struck;
    if hit.EntityHit? {
      var mid: Store :| Struck(st, log, hit.target, st.projectiles[st.slots[idx].id].shooter, tick, noRespawn, mid,
                               log')
                        && |mid.slots| == |st.slots| && st' == Removed(mid, idx);
      StruckFrame(st, log, hit.target, st.projectiles[st.slots[idx].id].shooter, tick, noRespawn, mid, log');
    }
  }

  lemma FlightTurnFrame(m: Maze, tick: nat, noRespawn: bool, st: Store, log: seq<LifeEvent>, pid: ID, st': Store,
                        log': seq<LifeEvent>)
    requires FlightTurn(m, tick, noRespawn, st, log, pid, st', log')
    ensures SlotsKeep(st.slots, st'.slots) && st'.histories == st.histories && st'.nextID == st.nextID
    ensures Within(st'.snipes, st.snipes)
  {
    hide P.Resolved, Candidates, KindIs, Applied;
    if Present(st.slots, pid) {
      var idx :| 0 <= idx < |st.slots| && st.slots[idx].id == pid && pid in st.projectiles
        && Flown(m, tick, noRespawn, st, log, idx, st', log');
      var hit :| Applied(st, log, idx, hit, tick, noRespawn, st', log');
      AppliedFrame(st, log, idx, hit, tick, noRespawn, st', log');
    }
  }

  lemma FrameChain(a: Store, b: Store, c: Store)
    requires SlotsKeep(a.slots, b.slots) && Within(b.snipes, a.snipes)
    requires SlotsKeep(b.slots, c.slots) && Within(c.snipes, b.snipes)
    ensures SlotsKeep(a.slots, c.slots) && Within(c.snipes, a.snipes)
  {
  }

  /** Flights free slots and give nobody a new one, and leave samples and minds alone. */
  lemma {:induction false} FlightsFrame(m: Maze, tick: nat, noRespawn: bool, st0: Store, log0: seq<LifeEvent>,
                                        pids: seq<ID>, k: nat, st: Store, log: seq<LifeEvent>)
    requires k <= |pids| && Flights(m, tick, noRespawn, st0, log0, pids, k, st, log)
    ensures SlotsKeep(st0.slots, st.slots) && st.histories == st0.histories && st.nextID == st0.nextID
    ensures Within(st.snipes, st0.snipes)
  {
    hide FlightTurn;
    if k > 0 {
      var j: nat := k - 1;
      var mid: Store, midLog: seq<LifeEvent> :|
        Flights(m, tick, noRespawn, st0, log0, pids, j, mid, midLog)
          && FlightTurn(m, tick, noRespawn, mid, midLog, pids[j], st, log);
      hide *;
      FlightsFrame(m, tick, noRespawn, st0, log0, pids, j, mid, midLog);
      FlightTurnFrame(m, tick, noRespawn, mid, midLog, pids[j], st, log);
      FrameChain(st0, mid, st);
    }
  }

  /** The IDs of all projectiles in the slab, ascending. */
  ghost predicate ProjectileIDs(slots: seq<Entity>, pids: seq<ID>) {
    Ascending(pids)
      && forall id ::
           id in pids <==> id != 0 && exists i | 0 <= i < |slots| :: slots[i].id == id && slots[i].kind == Projectile
  }

  method CollectProjectiles(slots: seq<Entity>) returns (pids: seq<ID>)
    requires Unique(slots)
    ensures ProjectileIDs(slots, pids)
  {
    var ids := LiveIDsSorted(slots);
    pids := [];
    for k := 0 to |ids|
      invariant Ascending(pids) && forall i | 0 <= i < |pids| :: pids[i] in ids[..k]
      invariant forall id ::
                  id in pids <==>
                      id in ids[..k] && exists i | 0 <= i < |slots| :: slots[i].id == id && slots[i].kind == Projectile
    {
      assert ids[k] in ids;
      var idx := FindByID(slots, ids[k]);
      assert forall x | x in ids[..k] :: x < ids[k];
      forall i | 0 <= i < |slots| && slots[i].id == ids[k]
        ensures i == idx
      {
        OneSlot(slots, i, idx);
      }
      if slots[idx].kind == Projectile {
        pids := pids + [ids[k]];
      }
    }
    assert ids[..|ids|] == ids;
    forall i | 0 <= i < |slots| && slots[i].id != 0
      ensures slots[i].id in ids
    {
      assert Present(slots, slots[i].id);
    }
  }

  predicate Flying(slots: seq<Entity>, pids: seq<ID>) {
    forall i | 0 <= i < |slots| && slots[i].id in pids :: slots[i].id != 0 && slots[i].kind == Projectile
  }

  lemma StillFlying(a: seq<Entity>, b: seq<Entity>, pids: seq<ID>)
    requires SlotsKeep(a, b) && Flying(a, pids) && 0 !in pids
    ensures Flying(b, pids)
  {
  }

  lemma FlightNext(m: Maze, tick: nat, noRespawn: bool, st0: Store, log0: seq<LifeEvent>, pids: seq<ID>, k: nat,
                   st: Store, log: seq<LifeEvent>, st': Store, log': seq<LifeEvent>)
    requires k < |pids| && Flights(m, tick, noRespawn, st0, log0, pids, k, st, log)
    requires FlightTurn(m, tick, noRespawn, st, log, pids[k], st', log')
    ensures Flights(m, tick, noRespawn, st0, log0, pids, k + 1, st', log')
  {
    hide FlightTurn;
  }

  lemma FlewTurn(m: Maze, tick: nat, noRespawn: bool, st: Store, log: seq<LifeEvent>, idx: int, st': Store,
                 log': seq<LifeEvent>)
    requires 0 <= idx < |st.slots| && st.slots[idx].id in st.projectiles
             && Flown(m, tick, noRespawn, st, log, idx, st', log')
    ensures FlightTurn(m, tick, noRespawn, st, log, st.slots[idx].id, st', log')
  {
    hide Flown;
  }

  lemma NoFlight(m: Maze, tick: nat, noRespawn: bool, st: Store, log: seq<LifeEvent>, pids: seq<ID>)
    ensures Flights(m, tick, noRespawn, st, log, pids, 0, st, log)
  {
  }

  lemma AbsentTurn(m: Maze, tick: nat, noRespawn: bool, st: Store, log: seq<LifeEvent>, pid: ID)
    requires !Present(st.slots, pid)
    ensures FlightTurn(m, tick, noRespawn, st, log, pid, st, log)
  {
  }

  /** Step 5: every projectile there was before the step flies, in ID order. */
  method FlyProjectiles(m: Maze, ghost startLives: nat, ghost log0: seq<LifeEvent>, noRespawn: bool, tick: nat,
                        st0: Store, pids: seq<ID>)
    returns (st: Store, ghost log: seq<LifeEvent>)
    requires GoodMaze(m) && Mid(m, startLives, noRespawn, tick, st0, log0) && Flying(st0.slots, pids) && 0 !in pids
    ensures Mid(m, startLives, noRespawn, tick, st, log) && log0 <= log && Flying(st.slots, pids)
    ensures RecordsKept(st0.players, st.players)
    ensures Flights(m, tick, noRespawn, st0, log0, pids, |pids|, st, log)
  {
    st, log := st0, log0;
    NoFlight(m, tick, noRespawn, st, log, pids);
    hide Mid, Flights, FlightTurn, Flown, SlotsKeep, GoodMaze;
    for k := 0 to |pids|
      invariant Mid(m, startLives, noRespawn, tick, st, log) && log0 <= log && Flying(st.slots, pids)
      invariant RecordsKept(st0.players, st.players)
      invariant Flights(m, tick, noRespawn, st0, log0, pids, k, st, log)
    {
      ghost var was, wasLog := st, log;
      var idx := FindByID(st.slots, pids[k]);
      if idx >= 0 {
        st, log := FlyOne(m, startLives, log, noRespawn, tick, st, idx);
        StillFlying(was.slots, st.slots, pids);
        FlewTurn(m, tick, noRespawn, was, wasLog, idx, st, log);
      } else {
        AbsentTurn(m, tick, noRespawn, st, log, pids[k]);
      }
      FlightNext(m, tick, noRespawn, st0, log0, pids, k, was, wasLog, st, log);
    }
  }

  // ---- step 6 ----

  function Aged(st: Store, idx: int): Store
    requires 0 <= idx < |st.slots| && st.slots[idx].id in st.projectiles
  {
    var pid := st.slots[idx].id;
    var ps := st.projectiles[pid];
    if ps.lifetime <= 1 then Removed(st, idx)
    else st.(projectiles := st.projectiles[pid := ps.(lifetime := ps.lifetime - 1)])
  }

  ghost predicate AgedBy(st0: Store, done: set<ID>, st: Store) {
    && |st.slots| == |st0.slots|
    && (forall p | p in st0.projectiles && p !in done :: p in st.projectiles && st.projectiles[p] == st0.projectiles[p])
    && (forall i | 0 <= i < |st.slots| && st0.slots[i].id !in done :: st.slots[i] == st0.slots[i])
    && (forall i | 0 <= i < |st.slots| && st0.slots[i].id !in st0.projectiles :: st.slots[i] == st0.slots[i])
    && (forall i | 0 <= i < |st.slots| && st0.slots[i].id in done && st0.slots[i].id in st0.projectiles ::
          var ps := st0.projectiles[st0.slots[i].id];
          if ps.lifetime <= 1 then st.slots[i] == FREE
          else st.slots[i] == st0.slots[i] && st0.slots[i].id in st.projectiles
               && st.projectiles[st0.slots[i].id] == ps.(lifetime := ps.lifetime - 1))
    && st.players == st0.players && st.histories == st0.histories && st.nextID == st0.nextID && MachinesKept(st0, st)
  }

  /** Every projectile that flew is a tick older, and those that ran out are gone. */
  ghost predicate AgedStore(st0: Store, pids: seq<ID>, st: Store) {
    AgedBy(st0, Prefix(pids, |pids|), st)
  }

  lemma ProjectilesKeep(m: Maze, startLives: nat, st: Store, st': Store, log: seq<LifeEvent>)
    requires Inv(m, startLives, st, log) && st' == st.(projectiles := st'.projectiles)
             && st'.projectiles.Keys == st.projectiles.Keys
    ensures Inv(m, startLives, st', log)
  {
    hide Safe, OnceALife, Account, AliveIn, Unique;
    forall i | 0 <= i < |st'.slots|
      ensures Registered(st', st'.slots[i]) && Vitals(st', log, st'.slots[i])
    {
      assert Registered(st, st.slots[i]) && Vitals(st, log, st.slots[i]);
    }
  }

  lemma AgedMid(m: Maze, startLives: nat, noRespawn: bool, tick: nat, st: Store, log: seq<LifeEvent>, idx: int)
    requires Mid(m, startLives, noRespawn, tick, st, log)
    requires 0 <= idx < |st.slots| && st.slots[idx].id in st.projectiles && st.slots[idx].id != 0
    ensures Mid(m, startLives, noRespawn, tick, Aged(st, idx), log)
  {
    var ps := st.projectiles[st.slots[idx].id];
    if ps.lifetime <= 1 {
      RemovedMid(m, startLives, noRespawn, tick, st, log, idx);
    } else {
      ProjectilesKeep(m, startLives, st, Aged(st, idx), log);
      hide Inv, Pending, Sampled;
      SamePending(st, Aged(st, idx), noRespawn, tick, tick + RESPAWN_TICKS);
      VitalSampled(st, Aged(st, idx), tick);
    }
  }

  lemma AgedMachines(st0: Store, st: Store, idx: int)
    requires MachinesKept(st0, st) && 0 <= idx < |st.slots| && st.slots[idx].id in st.projectiles
    requires st.slots[idx].id == st0.slots[idx].id
    ensures MachinesKept(st0, Aged(st, idx))
  {
    RemovedMachines(st0, st, idx);
    hide Trimmed;
  }

  lemma AgedStep(st0: Store, done: set<ID>, st: Store, idx: int)
    requires AgedBy(st0, done, st) && Unique(st0.slots) && 0 <= idx < |st.slots|
    requires st0.slots[idx].id != 0 && st0.slots[idx].id !in done && st0.slots[idx].id in st0.projectiles
             && st0.slots[idx].id !in st.players
    ensures st.slots[idx] == st0.slots[idx] && st0.slots[idx].id in st.projectiles
    ensures AgedBy(st0, done + {st0.slots[idx].id}, Aged(st, idx))
  {
    hide MachinesKept;
    forall i | 0 <= i < |st0.slots| && i != idx
      ensures st0.slots[i].id != st0.slots[idx].id
    {
      if st0.slots[i].id == st0.slots[idx].id { OneSlot(st0.slots, i, idx); }
    }
    assert st.players - {st0.slots[idx].id} == st.players;
    AgedMachines(st0, st, idx);
  }

  lemma AgedAbsent(st0: Store, done: set<ID>, st: Store, pid: ID)
    requires AgedBy(st0, done, st) && !Present(st.slots, pid) && pid !in done
    ensures AgedBy(st0, done + {pid}, st)
  {
    forall i | 0 <= i < |st0.slots|
      ensures st0.slots[i].id != pid
    {
      assert st.slots[i].id != pid;
    }
  }

  lemma AgedFinds(st0: Store, done: set<ID>, st: Store, idx: int)
    requires AgedBy(st0, done, st) && 0 <= idx < |st.slots| && st.slots[idx].id != 0 && st.slots[idx].id !in done
    ensures st0.slots[idx] == st.slots[idx]
  {
  }

  method AgeOne(ghost m: Maze, ghost startLives: nat, ghost log: seq<LifeEvent>, st: Store, idx: int)
    returns (st': Store)
    requires Inv(m, startLives, st, log) && 0 <= idx < |st.slots| && st.slots[idx].id != 0
             && st.slots[idx].kind == Projectile
    ensures st.slots[idx].id in st.projectiles && st' == Aged(st, idx)
  {
    assert Registered(st, st.slots[idx]);
    hide Inv;
    var pid := st.slots[idx].id;
    var ps := st.projectiles[pid];
    if ps.lifetime > 0 {
      ps := ps.(lifetime := ps.lifetime - 1);
    }
    if ps.lifetime == 0 {
      st' := Remove(m, startLives, log, st, pid);
    } else {
      st' := st.(projectiles := st.projectiles[pid := ps]);
    }
  }

  lemma NoneAged(st: Store, pids: seq<ID>)
    ensures AgedBy(st, Prefix(pids, 0), st)
  {
  }

  lemma AgedFlies(st0: Store, done: set<ID>, st: Store, pids: seq<ID>, idx: int)
    requires AgedBy(st0, done, st) && Flying(st0.slots, pids)
    requires 0 <= idx < |st.slots| && st.slots[idx].id in pids && st.slots[idx].id !in done && st.slots[idx].id != 0
    ensures st.slots[idx].kind == Projectile
  {
  }

  /** Step 6: a tick off the lifetime of every projectile that was there before step 5 and still is. */
  method AgeProjectiles(ghost m: Maze, ghost startLives: nat, ghost log: seq<LifeEvent>, ghost noRespawn: bool,
                        ghost tick: nat, st0: Store, pids: seq<ID>)
    returns (st: Store)
    requires Mid(m, startLives, noRespawn, tick, st0, log) && Flying(st0.slots, pids) && Ascending(pids) && 0 !in pids
    ensures Mid(m, startLives, noRespawn, tick, st, log) && AgedStore(st0, pids, st)
  {
    st := st0;
    InvSlab(m, startLives, st, log);
    NoneAged(st0, pids);
    hide Mid, AgedBy, Prefix, Ascending, Flying, Inv, Aged;
    for k := 0 to |pids|
      invariant Mid(m, startLives, noRespawn, tick, st, log) && AgedBy(st0, Prefix(pids, k), st)
    {
      PrefixNext(pids, k);
      ghost var done := Prefix(pids, k);
      var idx := FindByID(st.slots, pids[k]);
      if idx >= 0 {
        assert pids[k] in pids;
        MidInv(m, startLives, noRespawn, tick, st, log);
        AgedFlies(st0, done, st, pids, idx);
        AgedFinds(st0, done, st, idx);
        NotAPlayer(m, startLives, st, log, idx);
        NotAPlayer(m, startLives, st0, log, idx);
        AgedStep(st0, done, st, idx);
        AgedMid(m, startLives, noRespawn, tick, st, log, idx);
        st := AgeOne(m, startLives, log, st, idx);
      } else {
        AgedAbsent(st0, done, st, pids[k]);
      }
    }
  }
}
