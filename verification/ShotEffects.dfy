/** What a projectile's flight does to those in its way. */
module ShotEffects {
  import opened Grid
  import opened Physics
  import opened Entities
  import opened Slab
  import opened Ledger
  import opened SimState
  import opened Cleanup
  import opened Hits
  import opened Combat
  import opened Strikes
  import P = Projectiles

  /** The shooter is in the slab and of this kind. */
  ghost predicate IsKind(slots: seq<Entity>, id: ID, k: Kind) {
    exists i | 0 <= i < |slots| :: slots[i].id == id && slots[i].kind == k
  }

  /** Nothing is rewound for this projectile: its shooter is no player, or no delay was measured. */
  ghost predicate Plain(st: Store, idx: int)
    requires 0 <= idx < |st.slots| && st.slots[idx].id in st.projectiles
  {
    var ps := st.projectiles[st.slots[idx].id];
    ps.owtTicks == 0 || !IsKind(st.slots, ps.shooter, Player)
  }

  /** Alive, unprotected, not the shooter nor of its kin, and met at time t. */
  ghost predicate InTheWay(st: Store, idx: int, j: int, t: real)
    requires 0 <= idx < |st.slots| && st.slots[idx].id in st.projectiles && 0 <= j < |st.slots|
  {
    var e, shooter := st.slots[j], st.projectiles[st.slots[idx].id].shooter;
    && Live(e) && !e.flags.invuln && e.id != shooter && e.kind in {Player, Generator, Snipe}
    && (IsKind(st.slots, shooter, Snipe) ==> e.kind == Player)
    && Meets(st.slots[idx], e.x, e.y, e.kind, t)
  }

  /** A point of health lost, if there was any; the last one is death. */
  predicate Hurt(e: Entity, e': Entity) {
    if e.hp == 0 then e' == e else e'.id == e.id && e'.hp == e.hp - 1 && (e'.flags.dead <==> e.hp == 1)
  }

  /** The wall that stops this projectile is reached by time t. */
  ghost predicate AtWall(m: Maze, p: Entity, t: real) {
    Arrived(P.Shot(m, p, 0, NoKind, false, 0, map[]), t)
  }

  lemma KindKnown(slots: seq<Entity>, id: ID, kind: Kind, k: Kind)
    requires Unique(slots) && id != 0 && KindIs(slots, id, kind) && k != NoKind
    ensures kind == k <==> IsKind(slots, id, k)
  {
    if Present(slots, id) {
      var i :| 0 <= i < |slots| && slots[i].id == id && slots[i].kind == kind;
      forall j | 0 <= j < |slots| && slots[j].id == id
        ensures j == i
      {
        OneSlot(slots, i, j);
      }
    } else {
      assert forall j | 0 <= j < |slots| :: slots[j].id != id;
    }
  }

  /** Exactly the delayed shots of players are rewound. */
  lemma PlainShot(m: Maze, st: Store, tick: nat, idx: int, kind: Kind)
    requires 0 <= idx < |st.slots| && st.slots[idx].id in st.projectiles && Unique(st.slots)
    requires st.projectiles[st.slots[idx].id].shooter != 0
    requires KindIs(st.slots, st.projectiles[st.slots[idx].id].shooter, kind)
    ensures ShotOf(m, st, tick, st.slots[idx], kind).lagComp <==> !Plain(st, idx)
  {
    KindKnown(st.slots, st.projectiles[st.slots[idx].id].shooter, kind, Player);
  }

  lemma WayIsHit(m: Maze, st: Store, tick: nat, idx: int, cands: seq<Entity>, kind: Kind, j: int, t: real)
    requires 0 <= idx < |st.slots| && st.slots[idx].id in st.projectiles && 0 <= j < |st.slots| && Unique(st.slots)
    requires st.projectiles[st.slots[idx].id].shooter != 0 && st.slots[idx].kind == Projectile
    requires Candidates(st.slots, cands) && KindIs(st.slots, st.projectiles[st.slots[idx].id].shooter, kind)
    requires Plain(st, idx)
    ensures var s := ShotOf(m, st, tick, st.slots[idx], kind);
            InTheWay(st, idx, j, t) ==> HitAt(s, cands, st.slots[j].id, t)
  {
    var e, shooter := st.slots[j], st.projectiles[st.slots[idx].id].shooter;
    KindKnown(st.slots, shooter, kind, Snipe);
    PlainShot(m, st, tick, idx, kind);
    hide Meets, KindIs, Plain, IsKind;
    if InTheWay(st, idx, j, t) {
      assert e in st.slots && e in cands;
      var i :| 0 <= i < |cands| && cands[i] == e;
      LookupAt(cands, i);
      if e.id == st.slots[idx].id { OneSlot(st.slots, j, idx); }
      assert StruckAt(ShotOf(m, st, tick, st.slots[idx], kind), e, t) by {
        assert Sighted(ShotOf(m, st, tick, st.slots[idx], kind), e, e.x, e.y, e.flags);
      }
    }
  }

  lemma HitIsInTheWay(m: Maze, st: Store, tick: nat, idx: int, cands: seq<Entity>, kind: Kind, id: ID, u: real)
    returns (k: int)
    requires 0 <= idx < |st.slots| && st.slots[idx].id in st.projectiles && Unique(st.slots)
    requires st.projectiles[st.slots[idx].id].shooter != 0
    requires Candidates(st.slots, cands) && KindIs(st.slots, st.projectiles[st.slots[idx].id].shooter, kind)
    requires forall i | 0 <= i < |st.slots| && st.slots[i].id != 0 :: st.slots[i].kind != NoKind
    requires Plain(st, idx) && HitAt(ShotOf(m, st, tick, st.slots[idx], kind), cands, id, u)
    ensures 0 <= k < |st.slots| && st.slots[k].id == id && InTheWay(st, idx, k, u)
  {
    KindKnown(st.slots, st.projectiles[st.slots[idx].id].shooter, kind, Snipe);
    PlainShot(m, st, tick, idx, kind);
    hide Meets, KindIs, Plain, IsKind;
    var s := ShotOf(m, st, tick, st.slots[idx], kind);
    var e :| e in cands && e.id == id && StruckAt(s, e, u);
    k :| 0 <= k < |st.slots| && st.slots[k] == e;
  }

  lemma StruckHurts(st: Store, log: seq<LifeEvent>, id: ID, killer: ID, tick: nat, noRespawn: bool, st': Store,
                    log': seq<LifeEvent>, k: int)
    requires Unique(st.slots) && 0 <= k < |st.slots| && st.slots[k].id == id && Live(st.slots[k])
    requires Struck(st, log, id, killer, tick, noRespawn, st', log')
    ensures |st'.slots| == |st.slots| && Hurt(st.slots[k], st'.slots[k])
    ensures forall i | 0 <= i < |st.slots| && i != k :: st'.slots[i] == st.slots[i]
    ensures log' == if st.slots[k].hp == 1 then log + [Killed(id, st.slots[k].kind, killer)] else log
  {
    hide KilledPlayers;
    forall i | 0 <= i < |st.slots| && Hurtable(st.slots[i], id)
      ensures i == k
    {
      OneSlot(st.slots, i, k);
    }
    assert st.slots[k].hp > 0 ==> Hurtable(st.slots[k], id);
  }

  /**
   The flight of this projectile ends on the entity in slot k, a kill if that was its last point, and hurts nobody
   else.
   */
  ghost predicate EndsOn(st: Store, log: seq<LifeEvent>, idx: int, k: int, st': Store, log': seq<LifeEvent>)
    requires 0 <= idx < |st.slots| && 0 <= k < |st.slots| && st.slots[idx].id in st.projectiles
  {
    && |st'.slots| == |st.slots| && k != idx && Hurt(st.slots[k], st'.slots[k]) && st'.slots[idx] == FREE
    && (forall i | 0 <= i < |st.slots| && i != k && i != idx :: st'.slots[i] == st.slots[i])
    && var e := st.slots[k];
       log' == if e.hp == 1 then log + [Killed(e.id, e.kind, st.projectiles[st.slots[idx].id].shooter)] else log
  }

  /** It ends on nobody: it is gone, or it has made its whole step. */
  ghost predicate Harmless(st: Store, log: seq<LifeEvent>, idx: int, st': Store, log': seq<LifeEvent>) {
    && 0 <= idx < |st.slots| == |st'.slots| && log' == log
    && (forall i | 0 <= i < |st.slots| && i != idx :: st'.slots[i] == st.slots[i])
    && var p := st.slots[idx];
       st'.slots[idx] == FREE || st'.slots[idx] == p.(x := p.x + p.vx, y := p.y + p.vy)
  }

  /** A projectile in the slab that somebody fired. */
  ghost predicate Airborne(st: Store, idx: int) {
    && 0 <= idx < |st.slots| && st.slots[idx].id in st.projectiles && st.slots[idx].kind == Projectile
    && st.slots[idx].id != 0 && st.projectiles[st.slots[idx].id].shooter != 0 && Unique(st.slots)
    && forall i | 0 <= i < |st.slots| && st.slots[i].id != 0 :: st.slots[i].kind != NoKind
  }

  lemma MissEnds(m: Maze, tick: nat, noRespawn: bool, st: Store, log: seq<LifeEvent>, idx: int, cands: seq<Entity>,
                 kind: Kind, hit: P.ProjHit, st': Store, log': seq<LifeEvent>)
    requires 0 <= idx < |st.slots| && st.slots[idx].id in st.projectiles && !hit.EntityHit?
    requires P.Resolved(ShotOf(m, st, tick, st.slots[idx], kind), cands, hit)
    requires Applied(st, log, idx, hit, tick, noRespawn, st', log')
    ensures Harmless(st, log, idx, st', log')
  {
    var s := ShotOf(m, st, tick, st.slots[idx], kind);
    assert s.proj == st.slots[idx];
    EndsThere(s, cands, hit);
    hide P.Resolved, ShotOf, P.HitsWall, P.WallMotion;
  }

  lemma HitEnds(m: Maze, tick: nat, noRespawn: bool, st: Store, log: seq<LifeEvent>, idx: int, cands: seq<Entity>,
                kind: Kind, hit: P.ProjHit, st': Store, log': seq<LifeEvent>)
    requires Airborne(st, idx) && Plain(st, idx) && Candidates(st.slots, cands)
    requires KindIs(st.slots, st.projectiles[st.slots[idx].id].shooter, kind)
    requires P.Resolved(ShotOf(m, st, tick, st.slots[idx], kind), cands, hit)
    requires Applied(st, log, idx, hit, tick, noRespawn, st', log')
    ensures if hit.EntityHit? then
              exists k, u ::
                0 <= k < |st.slots| && st.slots[k].id == hit.target && InTheWay(st, idx, k, u)
                  && EndsOn(st, log, idx, k, st', log')
            else Harmless(st, log, idx, st', log')
  {
    hide KindIs, Plain, P.Resolved, Struck, Meets, ShotOf, Harmless;
    var s := ShotOf(m, st, tick, st.slots[idx], kind);
    if !hit.EntityHit? { MissEnds(m, tick, noRespawn, st, log, idx, cands, kind, hit, st', log'); }
    if hit.EntityHit? {
      var f := StruckIsMet(s, cands, hit.target, hit.endX, hit.endY);
      var k := HitIsInTheWay(m, st, tick, idx, cands, kind, hit.target, Value(f));
      hide InTheWay;
      InTheWayIs(st, idx, k, Value(f));
      var shooter := st.projectiles[st.slots[idx].id].shooter;
      var mid: Store :| Struck(st, log, hit.target, shooter, tick, noRespawn, mid, log') && |mid.slots| == |st.slots|
                        && st' == Removed(mid, idx);
      StruckHurts(st, log, hit.target, shooter, tick, noRespawn, mid, log', k);
      assert EndsOn(st, log, idx, k, st', log');
    }
  }

  lemma InTheWayIs(st: Store, idx: int, k: int, u: real)
    requires 0 <= idx < |st.slots| && st.slots[idx].id in st.projectiles && 0 <= k < |st.slots|
    requires InTheWay(st, idx, k, u)
    ensures Live(st.slots[k]) && st.slots[k].kind != Projectile
  {
  }

  lemma SameWall(m: Maze, st: Store, tick: nat, idx: int, kind: Kind, t: real)
    requires 0 <= idx < |st.slots| && st.slots[idx].id in st.projectiles
    ensures Arrived(ShotOf(m, st, tick, st.slots[idx], kind), t) <==> AtWall(m, st.slots[idx], t)
  {
    hide Slide;
  }

  /** Nobody is hurt but by being in the way: at most one, a point of health, and the projectile is gone. */
  lemma OnlyInTheWay(m: Maze, tick: nat, noRespawn: bool, st: Store, log: seq<LifeEvent>, idx: int, st': Store,
                     log': seq<LifeEvent>)
    requires Airborne(st, idx) && Plain(st, idx) && Flown(m, tick, noRespawn, st, log, idx, st', log')
    ensures || Harmless(st, log, idx, st', log')
            || exists k, u ::
                 0 <= k < |st.slots| && InTheWay(st, idx, k, u) && EndsOn(st, log, idx, k, st', log')
  {
    hide Airborne, Plain, Candidates, KindIs, P.Resolved, Applied, InTheWay, EndsOn, Harmless, ShotOf;
    AirborneIs(st, idx);
    var cands, kind, hit :|
      && Candidates(st.slots, cands) && KindIs(st.slots, st.projectiles[st.slots[idx].id].shooter, kind)
      && P.Resolved(ShotOf(m, st, tick, st.slots[idx], kind), cands, hit)
      && Applied(st, log, idx, hit, tick, noRespawn, st', log');
    HitEnds(m, tick, noRespawn, st, log, idx, cands, kind, hit, st', log');
  }

  lemma AirborneIs(st: Store, idx: int)
    requires Airborne(st, idx)
    ensures 0 <= idx < |st.slots| && st.slots[idx].id in st.projectiles && st.slots[idx].kind == Projectile
    ensures Unique(st.slots) && st.projectiles[st.slots[idx].id].shooter != 0
  {
  }

  /** Whoever is in the way is hurt, unless somebody else was no later, or the wall was reached by then. */
  lemma WayIsHurt(m: Maze, tick: nat, noRespawn: bool, st: Store, log: seq<LifeEvent>, idx: int, st': Store,
                  log': seq<LifeEvent>, j: int, t: real)
    requires Airborne(st, idx) && Plain(st, idx) && 0 <= j < |st.slots| && InTheWay(st, idx, j, t)
    requires Flown(m, tick, noRespawn, st, log, idx, st', log')
    ensures || (AtWall(m, st.slots[idx], t) && Harmless(st, log, idx, st', log'))
            || exists k, u ::
                 0 <= k < |st.slots| && u <= t && InTheWay(st, idx, k, u) && EndsOn(st, log, idx, k, st', log')
  {
    hide Airborne, Plain, Candidates, KindIs, P.Resolved, Applied, InTheWay, EndsOn, Harmless, ShotOf, HitAt, Arrived,
         AtWall;
    AirborneIs(st, idx);
    var cands, kind, hit :|
      && Candidates(st.slots, cands) && KindIs(st.slots, st.projectiles[st.slots[idx].id].shooter, kind)
      && P.Resolved(ShotOf(m, st, tick, st.slots[idx], kind), cands, hit)
      && Applied(st, log, idx, hit, tick, noRespawn, st', log');
    var s := ShotOf(m, st, tick, st.slots[idx], kind);
    WayIsHit(m, st, tick, idx, cands, kind, j, t);
    CandidatesApart(st.slots, cands);
    MetIsStruck(s, cands, hit, st.slots[j].id, t);
    HitEnds(m, tick, noRespawn, st, log, idx, cands, kind, hit, st', log');
    SameWall(m, st, tick, idx, kind, t);
    if hit.EntityHit? {
      var u: real :| u <= t && HitAt(s, cands, hit.target, u);
      AirborneKnown(st, idx);
      var k := HitIsInTheWay(m, st, tick, idx, cands, kind, hit.target, u);
      var k', u' :| 0 <= k' < |st.slots| && st.slots[k'].id == hit.target && InTheWay(st, idx, k', u')
                    && EndsOn(st, log, idx, k', st', log');
      InTheWayIs(st, idx, k, u);
      OneSlot(st.slots, k, k');
    }
  }

  lemma AirborneKnown(st: Store, idx: int)
    requires Airborne(st, idx)
    ensures forall i | 0 <= i < |st.slots| && st.slots[i].id != 0 :: st.slots[i].kind != NoKind
  {
  }

  lemma CandidatesApart(slots: seq<Entity>, cands: seq<Entity>)
    requires Candidates(slots, cands)
    ensures Distinct(cands)
  {
  }

  /** Every projectile in flight between the steps of a tick is one of these, if it has a shooter. */
  lemma InvAirborne(m: Maze, startLives: nat, st: Store, log: seq<LifeEvent>, idx: int)
    requires Inv(m, startLives, st, log) && 0 <= idx < |st.slots| && st.slots[idx].id != 0
    requires st.slots[idx].kind == Projectile
    ensures st.slots[idx].id in st.projectiles
    ensures st.projectiles[st.slots[idx].id].shooter != 0 ==> Airborne(st, idx)
  {
    assert forall i | 0 <= i < |st.slots| :: Registered(st, st.slots[i]);
  }

  // ---- everyone's turn ----

  /** The j-th has its turn against what those before it have left. */
  ghost predicate HasTurn(m: Maze, tick: nat, noRespawn: bool, st0: Store, log0: seq<LifeEvent>, pids: seq<ID>, j: nat)
    requires j < |pids|
  {
    exists mid: Store, midLog: seq<LifeEvent>, st: Store, log: seq<LifeEvent> ::
      Flights(m, tick, noRespawn, st0, log0, pids, j, mid, midLog)
        && FlightTurn(m, tick, noRespawn, mid, midLog, pids[j], st, log)
  }

  lemma {:induction false} TurnOf(m: Maze, tick: nat, noRespawn: bool, st0: Store, log0: seq<LifeEvent>, pids: seq<ID>,
                                  k: nat, st: Store, log: seq<LifeEvent>, j: nat)
    requires j < k <= |pids| && Flights(m, tick, noRespawn, st0, log0, pids, k, st, log)
    ensures HasTurn(m, tick, noRespawn, st0, log0, pids, j)
    decreases k
  {
    hide FlightTurn;
    var i: nat := k - 1;
    var mid: Store, midLog: seq<LifeEvent> :|
      Flights(m, tick, noRespawn, st0, log0, pids, i, mid, midLog)
      && FlightTurn(m, tick, noRespawn, mid, midLog, pids[i], st, log);
    if j < i {
      TurnOf(m, tick, noRespawn, st0, log0, pids, i, mid, midLog, j);
    }
  }

  /** Every projectile in the slab before the step has its turn in it. */
  lemma EachFlies(m: Maze, tick: nat, noRespawn: bool, st0: Store, log0: seq<LifeEvent>, pids: seq<ID>, st: Store,
                  log: seq<LifeEvent>, i: int)
    requires ProjectileIDs(st0.slots, pids) && Flights(m, tick, noRespawn, st0, log0, pids, |pids|, st, log)
    requires 0 <= i < |st0.slots| && st0.slots[i].id != 0 && st0.slots[i].kind == Projectile
    ensures exists j :: 0 <= j < |pids| && pids[j] == st0.slots[i].id && HasTurn(m, tick, noRespawn, st0, log0, pids, j)
  {
    hide Flights, HasTurn;
    assert st0.slots[i].id in pids;
    var j :| 0 <= j < |pids| && pids[j] == st0.slots[i].id;
    TurnOf(m, tick, noRespawn, st0, log0, pids, |pids|, st, log, j);
  }
}
