/** Resolving one projectile for one tick: the wall it meets, the target it singles out, and which comes first. */
module Projectiles {
  import opened Options
  import opened Grid
  import opened Physics
  import opened Entities
  import opened History
  import opened Combat

  /** All that one resolution reads besides its candidate list. */
  datatype Shot = Shot(m: Maze, proj: Entity, shooter: ID, shooterKind: Kind, lagComp: bool, tView: nat,
                       histories: map<ID, seq<Sample>>)

  /** Only player shots with a measured delay are lag-compensated. */
  predicate LagEnabled(shooterKind: Kind, owtTicks: nat) {
    shooterKind == Player && owtTicks > 0
  }

  function EntryOf(s: Shot, x: int, y: int, he: nat): Option<Frac> {
    var r := he + PROJECTILE_HALF;
    SegmentHit(s.proj.x, s.proj.y, s.proj.vx, s.proj.vy, x - r, x + r, y - r, y + r)
  }

  /** Where a candidate is tested: its rewound sample when there is one, else where it is. */
  function Seen(s: Shot, e: Entity): (int, int, Flags) {
    if s.lagComp && e.id in s.histories then
      match SampleAt(s.histories[e.id], s.tView)
      case Some(p) => (p.x, p.y, p.flags)
      case None => (e.x, e.y, e.flags)
    else (e.x, e.y, e.flags)
  }

  function LiveHit(s: Shot, e: Entity): Option<Frac> {
    if e.id == 0 || e.id == s.proj.id || e.id == s.shooter || e.kind == Projectile then None
    else if s.shooterKind == Snipe && (e.kind == Snipe || e.kind == Generator) then None
    else
      var (x, y, flags) := Seen(s, e);
      if flags.dead || flags.invuln then None else EntryOf(s, x, y, HalfExt(e.kind))
  }

  /** A hit on an entity that is gone or dead now but was alive at the rewound tick. */
  function GhostHit(s: Shot, id: ID): Option<Frac>
    requires id in s.histories
  {
    if id == s.shooter then None
    else
      match SampleAt(s.histories[id], s.tView)
      case None => None
      case Some(p) =>
        if p.flags.dead || p.flags.invuln || p.kind == Projectile || HalfExt(p.kind) == 0 then None
        else EntryOf(s, p.x, p.y, HalfExt(p.kind))
  }

  ghost function TargetOf(s: Shot, cands: seq<Entity>, id: ID): Option<Frac> {
    if Has(cands, id) then LiveHit(s, Lookup(cands, id))
    else if s.lagComp && id in s.histories then GhostHit(s, id)
    else None
  }

  /** Every eligible target, live or ghost, with its entry fraction. */
  ghost function Targets(s: Shot, cands: seq<Entity>): map<ID, Frac> {
    map id | id in Ids(cands) + s.histories.Keys && TargetOf(s, cands, id).Some? :: TargetOf(s, cands, id).value
  }

  ghost function Ids(cands: seq<Entity>): set<ID> {
    set i | 0 <= i < |cands| :: cands[i].id
  }

  // ---- the wall ----

  ghost function WallMotion(s: Shot): Motion {
    Slide(s.m, Motion(s.proj.x, s.proj.y, s.proj.vx, s.proj.vy), PROJECTILE_HALF, [])
  }

  ghost predicate HitsWall(s: Shot) {
    (s.proj.vx != 0 && WallMotion(s).vx == 0) || (s.proj.vy != 0 && WallMotion(s).vy == 0)
  }

  function WallFrac(p: Entity, k: Motion): Frac {
    var f := if p.vx != 0 && k.vx == 0 then Frac(k.x - p.x, p.vx) else Frac(k.y - p.y, p.vy);
    var g := if f.d < 0 then Frac(-f.n, -f.d) else f;
    if g.n < 0 then Frac(0, g.d) else g
  }

  datatype ProjHit = NoHit(endX: int, endY: int) | WallHit(endX: int,
                                                           endY: int) | EntityHit(target: ID, endX: int, endY: int)

  function Along(p: Entity, b: Best): ProjHit
    requires b.Best? && b.f.d > 0
  {
    EntityHit(b.id, p.x + TruncDiv(p.vx * b.f.n, b.f.d), p.y + TruncDiv(p.vy * b.f.n, b.f.d))
  }

  /** The outcome, given the best target: a wall met no later wins. */
  ghost function Outcome(s: Shot, b: Best): ProjHit
    requires b.Best? ==> b.f.d > 0
  {
    var k := WallMotion(s);
    if b == NoBest then
      if HitsWall(s) then WallHit(k.x, k.y) else NoHit(s.proj.x + s.proj.vx, s.proj.y + s.proj.vy)
    else if HitsWall(s) && !Less(b.f, WallFrac(s.proj, k)) then WallHit(k.x, k.y)
    else Along(s.proj, b)
  }

  ghost predicate Resolved(s: Shot, cands: seq<Entity>, hit: ProjHit) {
    exists b: Best :: BestOf(Targets(s, cands), b) && (b.Best? ==> b.f.d > 0) && hit == Outcome(s, b)
  }

  lemma EntryPositive(s: Shot, x: int, y: int, he: nat)
    ensures EntryOf(s, x, y, he).Some? ==> EntryOf(s, x, y, he).value.d > 0
  {
    var r := he + PROJECTILE_HALF;
    SegmentHitExact(s.proj.x, s.proj.y, s.proj.vx, s.proj.vy, x - r, x + r, y - r, y + r);
  }

  lemma TargetsPositive(s: Shot, cands: seq<Entity>)
    ensures Fractions(Targets(s, cands))
  {
    forall id | id in Targets(s, cands)
      ensures Targets(s, cands)[id].d > 0
    {
      if Has(cands, id) {
        var e := Lookup(cands, id);
        EntryPositive(s, Seen(s, e).0, Seen(s, e).1, HalfExt(e.kind));
      } else {
        var p := SampleAt(s.histories[id], s.tView).value;
        EntryPositive(s, p.x, p.y, HalfExt(p.kind));
      }
    }
  }

  // ---- the code ----

  /** found holds the targets among the IDs in done, and best is the best of them. */
  ghost predicate Tracking(s: Shot, cands: seq<Entity>, done: set<ID>, found: map<ID, Frac>, best: Best) {
    && (forall id | id in found :: id in done && id in Targets(s, cands) && found[id] == Targets(s, cands)[id])
    && (forall id | id in done && id in Targets(s, cands) :: id in found)
    && Fractions(found) && BestOf(found, best)
  }

  lemma Track(s: Shot, cands: seq<Entity>, done: set<ID>, found: map<ID, Frac>, best: Best, id: ID)
    requires Tracking(s, cands, done, found, best) && id !in done
    requires id in Ids(cands) + s.histories.Keys
    ensures match TargetOf(s, cands, id)
            case None => Tracking(s, cands, done + {id}, found, best)
            case Some(f) => f.d > 0 && Tracking(s, cands, done + {id}, found[id := f], Improve(best, id, f))
  {
    TargetsPositive(s, cands);
    var t := TargetOf(s, cands, id);
    if t.Some? {
      assert id in Targets(s, cands);
      ImproveBest(found, best, id, t.value);
    } else {
      assert id !in Targets(s, cands);
    }
  }

  lemma AllTracked(s: Shot, cands: seq<Entity>, done: set<ID>, found: map<ID, Frac>, best: Best)
    requires Tracking(s, cands, done, found, best) && Targets(s, cands).Keys <= done
    ensures BestOf(Targets(s, cands), best) && (best.Best? ==> best.f.d > 0)
  {
    assert found == Targets(s, cands);
  }

  /** The sweep over the live candidates, in list order. */
  method LivePass(s: Shot, cands: seq<Entity>) returns (best: Best, ghost found: map<ID, Frac>)
    requires Distinct(cands)
    ensures Tracking(s, cands, Ids(cands), found, best)
  {
    best, found := NoBest, map[];
    ghost var done: set<ID> := {};
    for i := 0 to |cands|
      invariant done == Ids(cands[..i]) && Tracking(s, cands, done, found, best)
    {
      var e := cands[i];
      LookupAt(cands, i);
      NotYet(cands, i);
      Track(s, cands, done, found, best, e.id);
      var hit := LiveEntry(s, e);
      done := done + {e.id};
      if hit.Some? {
        best, found := Improve(best, e.id, hit.value), found[e.id := hit.value];
      }
    }
    assert cands[..|cands|] == cands;
  }

  lemma NotYet(cands: seq<Entity>, i: int)
    requires Distinct(cands) && 0 <= i < |cands|
    ensures cands[i].id !in Ids(cands[..i]) && Ids(cands[..i + 1]) == Ids(cands[..i]) + {cands[i].id}
    ensures cands[i].id in Ids(cands)
  {
    var a, b := cands[..i], cands[..i + 1];
    assert b == a + [cands[i]];
    forall id
      ensures id in Ids(b) <==> id in Ids(a) || id == cands[i].id
    {
      if id in Ids(a) {
        var j :| 0 <= j < |a| && a[j].id == id;
        assert b[j].id == id;
      }
      if id == cands[i].id { assert b[i].id == id; }
    }
  }

  method LiveEntry(s: Shot, e: Entity) returns (hit: Option<Frac>)
    ensures hit == LiveHit(s, e)
  {
    if e.id == 0 || e.id == s.proj.id || e.id == s.shooter || e.kind == Projectile {
      return None;
    }
    if s.shooterKind == Snipe && (e.kind == Snipe || e.kind == Generator) {
      return None;
    }
    var (x, y, flags) := Seen(s, e);
    if flags.dead || flags.invuln {
      return None;
    }
    var r := HalfExt(e.kind) + PROJECTILE_HALF;
    var f, ok := SegmentVsBox(s.proj.x, s.proj.y, s.proj.vx, s.proj.vy, x - r, x + r, y - r, y + r);
    hit := if ok then Some(f) else None;
  }

  method GhostEntry(s: Shot, id: ID) returns (hit: Option<Frac>)
    requires id in s.histories
    ensures hit == GhostHit(s, id)
  {
    if id == s.shooter {
      return None;
    }
    match SampleAt(s.histories[id], s.tView)
    case None => return None;
    case Some(p) =>
      if p.flags.dead || p.flags.invuln || p.kind == Projectile || HalfExt(p.kind) == 0 {
        return None;
      }
      var r := HalfExt(p.kind) + PROJECTILE_HALF;
      var f, ok := SegmentVsBox(s.proj.x, s.proj.y, s.proj.vx, s.proj.vy, p.x - r, p.x + r, p.y - r, p.y + r);
      hit := if ok then Some(f) else None;
  }

  /** The sweep over histories without a live candidate, in whatever order the map yields them. */
  method GhostPass(s: Shot, cands: seq<Entity>, best0: Best, ghost found0: map<ID, Frac>)
    returns (best: Best, ghost found: map<ID, Frac>)
    requires s.lagComp && Tracking(s, cands, Ids(cands), found0, best0)
    ensures Tracking(s, cands, Ids(cands) + s.histories.Keys, found, best)
  {
    best, found := best0, found0;
    var todo := s.histories.Keys - (set i | 0 <= i < |cands| :: cands[i].id);
    ghost var done := Ids(cands);
    ghost var all := Ids(cands) + s.histories.Keys;
    hide Tracking, Targets;
    while todo != {}
      invariant todo !! done && done + todo == all
      invariant todo <= s.histories.Keys && Ids(cands) <= done
      invariant Tracking(s, cands, done, found, best)
      decreases todo
    {
      var id :| id in todo;
      assert !Has(cands, id);
      Track(s, cands, done, found, best, id);
      var hit := GhostEntry(s, id);
      MoveOver(todo, done, id);
      todo, done := todo - {id}, done + {id};
      if hit.Some? {
        best, found := Improve(best, id, hit.value), found[id := hit.value];
      }
    }
  }

  lemma MoveOver(todo: set<ID>, done: set<ID>, id: ID)
    requires todo !! done && id in todo
    ensures todo - {id} !! done + {id} && (done + {id}) + (todo - {id}) == done + todo
  {
  }

  method BestTarget(s: Shot, cands: seq<Entity>) returns (best: Best)
    requires Distinct(cands)
    ensures BestOf(Targets(s, cands), best) && (best.Best? ==> best.f.d > 0)
  {
    hide Tracking, Targets, Ids;
    NoOtherTargets(s, cands);
    ghost var found;
    best, found := LivePass(s, cands);
    ghost var done := Ids(cands);
    if s.lagComp {
      best, found := GhostPass(s, cands, best, found);
      done := done + s.histories.Keys;
    }
    AllTracked(s, cands, done, found, best);
  }

  method ResolveProjectile(s: Shot, cands: seq<Entity>) returns (hit: ProjHit)
    requires Distinct(cands)
    ensures Resolved(s, cands, hit)
  {
    var p := s.proj;
    var best := BestTarget(s, cands);
    hide BestOf, Targets, Slide, TruncDiv, WallFrac, Less;
    var wx, wy, wvx, wvy := MoveAndSlide(s.m, p.x, p.y, p.vx, p.vy, PROJECTILE_HALF, []);
    var wallHit := (p.vx != 0 && wvx == 0) || (p.vy != 0 && wvy == 0);
    if best == NoBest {
      hit := if wallHit then WallHit(wx, wy) else NoHit(p.x + p.vx, p.y + p.vy);
    } else if wallHit && !Less(best.f, WallFrac(p, Motion(wx, wy, wvx, wvy))) {
      hit := WallHit(wx, wy);
    } else {
      hit := EntityHit(best.id, p.x + TruncDiv(p.vx * best.f.n, best.f.d), p.y + TruncDiv(p.vy * best.f.n, best.f.d));
    }
    assert hit == Outcome(s, best);
  }

  lemma NoOtherTargets(s: Shot, cands: seq<Entity>)
    ensures Targets(s, cands).Keys <= Ids(cands) + s.histories.Keys
    ensures !s.lagComp ==> Targets(s, cands).Keys <= Ids(cands)
  {
    forall id | id in Targets(s, cands) && !s.lagComp
      ensures id in Ids(cands)
    {
      var i :| 0 <= i < |cands| && cands[i].id == id;
    }
  }

  // ---- what does not matter ----

  /** Neither the order of the candidates nor the order of the ghost sweep changes the outcome. */
  lemma OrderIndependent(s: Shot, cands: seq<Entity>, cands': seq<Entity>, h: ProjHit, h': ProjHit)
    requires multiset(cands) == multiset(cands') && Distinct(cands) && Distinct(cands')
    requires Resolved(s, cands, h) && Resolved(s, cands', h')
    ensures h == h'
  {
    SameTargets(s, cands, cands');
    TargetsPositive(s, cands);
    hide Targets, BestOf, Outcome;
    var b: Best :| BestOf(Targets(s, cands), b) && (b.Best? ==> b.f.d > 0) && h == Outcome(s, b);
    var b': Best :| BestOf(Targets(s, cands'), b') && (b'.Best? ==> b'.f.d > 0) && h' == Outcome(s, b');
    BestUnique(Targets(s, cands), b, b');
  }

  lemma SameTargets(s: Shot, cands: seq<Entity>, cands': seq<Entity>)
    requires multiset(cands) == multiset(cands') && Distinct(cands) && Distinct(cands')
    ensures Targets(s, cands) == Targets(s, cands')
  {
    forall id
      ensures TargetOf(s, cands, id) == TargetOf(s, cands', id)
      ensures id in Ids(cands) <==> id in Ids(cands')
    {
      SameLookup(cands, cands', id);
      SameLookup(cands', cands, id);
    }
    hide TargetOf, Ids;
  }

  lemma SameLookup(cands: seq<Entity>, cands': seq<Entity>, id: ID)
    requires multiset(cands) == multiset(cands') && Distinct(cands')
    ensures Has(cands, id) ==> Has(cands', id) && Lookup(cands, id) == Lookup(cands', id)
    ensures Has(cands, id) <==> id in Ids(cands)
  {
    if Has(cands, id) {
      var e := Lookup(cands, id);
      assert e in multiset(cands');
      var i :| 0 <= i < |cands'| && cands'[i] == e;
      LookupAt(cands', i);
    }
  }

  /** What an entity hit says: an eligible target, entered no later than any other and strictly before the wall. */
  lemma HitIsFirst(s: Shot, cands: seq<Entity>, id: ID, x: int, y: int)
    requires Resolved(s, cands, EntityHit(id, x, y))
    ensures id != s.shooter && id in Targets(s, cands)
    ensures forall o | o in Targets(s, cands) && o != id :: Ahead(Targets(s, cands)[id], id, Targets(s, cands)[o], o)
    ensures HitsWall(s) ==> Less(Targets(s, cands)[id], WallFrac(s.proj, WallMotion(s)))
  {
    var b: Best :| BestOf(Targets(s, cands), b) && (b.Best? ==> b.f.d > 0) && EntityHit(id, x, y) == Outcome(s, b);
    assert TargetOf(s, cands, id).Some?;
  }
}
