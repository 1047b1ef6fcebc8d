/** Whom a projectile hits, in terms of where everybody is while it flies. */
module Strikes {
  import opened Options
  import opened Grid
  import opened Entities
  import opened History
  import opened Combat
  import opened Projectiles

  /** How far each kind reaches from its middle. */
  function Reaches(k: Kind): nat {
    if k == Player || k == Generator then 256 else if k == Snipe then 128 else 0
  }

  /** At time t of the tick the projectile, 48 subtiles to each side, meets a box of this kind standing here. */
  ghost predicate Meets(p: Entity, x: int, y: int, k: Kind, t: real) {
    var r := Reaches(k) + 48;
    Inside(p.x, p.y, p.vx, p.vy, x - r, x + r, y - r, y + r, t)
  }

  /** Where and how a candidate is taken to be: as sampled at the rewound tick if it was, else as it is. */
  ghost predicate Sighted(s: Shot, e: Entity, x: int, y: int, flags: Flags) {
    if s.lagComp && e.id in s.histories && s.histories[e.id] != [] then
      exists p :: Rewound(s.histories[e.id], s.tView, p) && (x, y, flags) == (p.x, p.y, p.flags)
    else (x, y, flags) == (e.x, e.y, e.flags)
  }

  /** Alive and unprotected in view, met at time u, and not of the shooter's own kin. */
  ghost predicate StruckAt(s: Shot, e: Entity, u: real) {
    && e.id != 0 && e.id != s.proj.id && e.id != s.shooter && e.kind != Projectile
    && (s.shooterKind == Snipe ==> e.kind != Snipe && e.kind != Generator)
    && exists x, y, flags ::
         Sighted(s, e, x, y, flags) && !flags.dead && !flags.invuln && Meets(s.proj, x, y, e.kind, u)
  }

  /** Not among the candidates any more, but alive and unprotected in its sample, and met there. */
  ghost predicate GhostAt(s: Shot, id: ID, u: real) {
    && s.lagComp && id in s.histories && id != s.shooter
    && exists p :: Rewound(s.histories[id], s.tView, p) && !p.flags.dead && !p.flags.invuln
                   && p.kind in {Player, Generator, Snipe} && Meets(s.proj, p.x, p.y, p.kind, u)
  }

  ghost predicate HitAt(s: Shot, cands: seq<Entity>, id: ID, u: real) {
    if Has(cands, id) then exists e :: e in cands && e.id == id && StruckAt(s, e, u) else GhostAt(s, id, u)
  }

  /** By time t the projectile has come as far as the wall that stops it. */
  ghost predicate Arrived(s: Shot, t: real) {
    var p, k := s.proj, WallMotion(s);
    if p.vx != 0 && k.vx == 0 then Ahead1(p.x, p.vx, k.x, t) else p.vy != 0 && k.vy == 0 && Ahead1(p.y, p.vy, k.y, t)
  }

  ghost predicate Ahead1(p0: int, v: int, stop: int, t: real) {
    if v > 0 then stop as real <= Reach(p0, v, t) else Reach(p0, v, t) <= stop as real
  }

  // ---- samples ----

  lemma OneRewound(log: seq<Sample>, t: nat, a: Sample, b: Sample)
    requires Rewound(log, t, a) && Rewound(log, t, b)
    ensures a == b
  {
  }

  lemma SampleIs(log: seq<Sample>, t: nat, p: Sample)
    ensures SampleAt(log, t) == Some(p) <==> Rewound(log, t, p)
  {
    if log != [] {
      ScanRewinds(log, t, 0);
      if Rewound(log, t, p) { OneRewound(log, t, p, Scan(log, t, 0)); }
    }
  }

  lemma SeenSighted(s: Shot, e: Entity, x: int, y: int, flags: Flags)
    ensures Sighted(s, e, x, y, flags) <==> Seen(s, e) == (x, y, flags)
  {
    if s.lagComp && e.id in s.histories && s.histories[e.id] != [] {
      var p := SampleAt(s.histories[e.id], s.tView).value;
      SampleIs(s.histories[e.id], s.tView, p);
      forall q | Rewound(s.histories[e.id], s.tView, q)
        ensures q == p
      {
        OneRewound(s.histories[e.id], s.tView, p, q);
      }
    }
    hide Rewound, SampleAt;
  }

  // ---- one candidate ----

  lemma EntryMeets(s: Shot, x: int, y: int, k: Kind)
    ensures match EntryOf(s, x, y, HalfExt(k))
            case Some(f) => k != Projectile ==> f.d > 0 && Meets(s.proj, x, y, k, Value(f))
                                                && forall t | Meets(s.proj, x, y, k, t) :: Value(f) <= t
            case None => k != Projectile ==> forall t: real :: !Meets(s.proj, x, y, k, t)
  {
    var r := HalfExt(k) + PROJECTILE_HALF;
    SegmentHitExact(s.proj.x, s.proj.y, s.proj.vx, s.proj.vy, x - r, x + r, y - r, y + r);
    hide SegmentHit, Inside, Value;
  }

  /** The entry is the first time it is struck. */
  lemma LiveStruck(s: Shot, e: Entity)
    ensures match LiveHit(s, e)
            case Some(f) => f.d > 0 && StruckAt(s, e, Value(f)) && forall t: real | StruckAt(s, e, t) :: Value(f) <= t
            case None => forall t: real :: !StruckAt(s, e, t)
  {
    var (x, y, flags) := Seen(s, e);
    SeenSighted(s, e, x, y, flags);
    forall x', y', flags' | Sighted(s, e, x', y', flags')
      ensures (x', y', flags') == (x, y, flags)
    {
      SeenSighted(s, e, x', y', flags');
    }
    EntryMeets(s, x, y, e.kind);
    hide Sighted, Seen, EntryOf, Meets, Value;
  }

  lemma GhostStruck(s: Shot, id: ID)
    requires s.lagComp && id in s.histories
    ensures match GhostHit(s, id)
            case Some(f) => f.d > 0 && GhostAt(s, id, Value(f)) && forall t: real | GhostAt(s, id, t) :: Value(f) <= t
            case None => forall t: real :: !GhostAt(s, id, t)
  {
    var log := s.histories[id];
    forall p
      ensures SampleAt(log, s.tView) == Some(p) <==> Rewound(log, s.tView, p)
    {
      SampleIs(log, s.tView, p);
    }
    if SampleAt(log, s.tView).Some? {
      var p := SampleAt(log, s.tView).value;
      EntryMeets(s, p.x, p.y, p.kind);
    }
    hide Rewound, SampleAt, EntryOf, Meets, Value;
  }

  lemma TargetHit(s: Shot, cands: seq<Entity>, id: ID)
    requires Distinct(cands)
    ensures match TargetOf(s, cands, id)
            case Some(f) => f.d > 0 && HitAt(s, cands, id, Value(f)) && forall t: real | HitAt(s, cands, id, t) ::
                                                                          Value(f) <= t
            case None => forall t: real :: !HitAt(s, cands, id, t)
  {
    if Has(cands, id) {
      var e := Lookup(cands, id);
      LiveStruck(s, e);
      forall o | o in cands && o.id == id
        ensures o == e
      {
        var i :| 0 <= i < |cands| && cands[i] == o;
        LookupAt(cands, i);
      }
    } else if s.lagComp && id in s.histories {
      GhostStruck(s, id);
    }
    hide LiveHit, GhostHit, StruckAt, Value;
  }

  // ---- what comes of it ----

  lemma HitIsTarget(s: Shot, cands: seq<Entity>, id: ID, t: real)
    requires Distinct(cands) && HitAt(s, cands, id, t)
    ensures id in Targets(s, cands) && Targets(s, cands)[id].d > 0 && Value(Targets(s, cands)[id]) <= t
  {
    TargetHit(s, cands, id);
    if Has(cands, id) {
      var i :| 0 <= i < |cands| && cands[i].id == id;
      assert cands[i].id in Ids(cands);
    }
    hide TargetOf, Value;
  }

  lemma WallArrives(s: Shot, t: real)
    requires HitsWall(s) && t >= 0.0
    ensures WallFrac(s.proj, WallMotion(s)).d > 0
    ensures Value(WallFrac(s.proj, WallMotion(s))) <= t <==> Arrived(s, t)
  {
    var p, k := s.proj, WallMotion(s);
    hide WallMotion;
    var (p0, v, stop) := if p.vx != 0 && k.vx == 0 then (p.x, p.vx, k.x) else (p.y, p.vy, k.y);
    if v > 0 {
      PassesUp(p0, v, stop, t);
      Clamped(stop - p0, v, t);
    } else {
      PassesDown(p0, v, stop, t);
      Clamped(-(stop - p0), -v, t);
    }
  }

  lemma Clamped(n: int, d: int, t: real)
    requires d > 0 && t >= 0.0
    ensures Value(if n < 0 then Frac(0, d) else Frac(n, d)) <= t <==> Value(Frac(n, d)) <= t
  {
    QuotientCompare(n as real, d as real, t);
  }

  /** Where a projectile that is not stopped, or is stopped by a wall, ends up. */
  lemma EndsThere(s: Shot, cands: seq<Entity>, hit: ProjHit)
    requires Resolved(s, cands, hit)
    ensures hit.NoHit? ==> !HitsWall(s) && hit == NoHit(s.proj.x + s.proj.vx, s.proj.y + s.proj.vy)
    ensures hit.WallHit? ==> HitsWall(s) && hit == WallHit(WallMotion(s).x, WallMotion(s).y)
  {
    hide BestOf, Targets, WallMotion, WallFrac;
  }

  /**
   Whoever may be struck and is met at time t does not get away unless somebody, or a wall, was in the way no later.
   */
  lemma MetIsStruck(s: Shot, cands: seq<Entity>, hit: ProjHit, id: ID, t: real)
    requires Distinct(cands) && HitAt(s, cands, id, t) && Resolved(s, cands, hit)
    ensures !hit.NoHit?
    ensures hit.EntityHit? ==> exists u: real :: u <= t && HitAt(s, cands, hit.target, u)
    ensures hit.WallHit? ==> Arrived(s, t)
  {
    var b: Best :| BestOf(Targets(s, cands), b) && (b.Best? ==> b.f.d > 0) && hit == Outcome(s, b);
    HitIsTarget(s, cands, id, t);
    assert b.Best?;
    if b.id != id { LessIsLess(b.f, Targets(s, cands)[id]); }
    assert Value(b.f) <= t;
    TargetHit(s, cands, b.id);
    assert HitAt(s, cands, b.id, Value(b.f));
    InTime(s, cands, id, t);
    if HitsWall(s) {
      WallArrives(s, t);
      LessIsLess(b.f, WallFrac(s.proj, WallMotion(s)));
    }
    hide HitAt, WallMotion, WallFrac, Value, BestOf, Targets;
  }

  lemma InTime(s: Shot, cands: seq<Entity>, id: ID, t: real)
    requires HitAt(s, cands, id, t)
    ensures 0.0 <= t <= 1.0
  {
    hide Sighted, Rewound;
  }

  /**
   Whoever is hit could be struck, at the moment the projectile stops, with nobody to be struck before and no wall
   come to by then.
   */
  lemma StruckIsMet(s: Shot, cands: seq<Entity>, id: ID, x: int, y: int) returns (f: Frac)
    requires Distinct(cands) && Resolved(s, cands, EntityHit(id, x, y))
    ensures f.d > 0 && HitAt(s, cands, id, Value(f))
    ensures x == s.proj.x + TruncDiv(s.proj.vx * f.n, f.d) && y == s.proj.y + TruncDiv(s.proj.vy * f.n, f.d)
    ensures forall o, t: real | HitAt(s, cands, o, t) :: Value(f) <= t
    ensures HitsWall(s) ==> !Arrived(s, Value(f))
  {
    var b: Best :| BestOf(Targets(s, cands), b) && (b.Best? ==> b.f.d > 0) && EntityHit(id, x, y) == Outcome(s, b);
    f := b.f;
    assert TargetOf(s, cands, id) == Some(f);
    TargetHit(s, cands, id);
    InTime(s, cands, id, Value(f));
    if HitsWall(s) {
      WallArrives(s, Value(f));
      LessIsLess(f, WallFrac(s.proj, WallMotion(s)));
    }
    forall o, t: real | HitAt(s, cands, o, t)
      ensures Value(f) <= t
    {
      HitIsTarget(s, cands, o, t);
      if o != id { LessIsLess(f, Targets(s, cands)[o]); }
    }
    hide HitAt, WallMotion, WallFrac, Value, TruncDiv;
  }

  /** A snipe's shot hurts players only, and nobody is hurt by a shot of its own. */
  lemma OnlyPlayersForSnipes(s: Shot, cands: seq<Entity>, id: ID, x: int, y: int)
    requires Distinct(cands) && Resolved(s, cands, EntityHit(id, x, y)) && s.shooterKind == Snipe && !s.lagComp
    ensures id != s.shooter && exists e :: e in cands && e.id == id && e.kind in {Player, NoKind}
  {
    var f := StruckIsMet(s, cands, id, x, y);
    hide Meets, Value;
  }
}
