/** How a snipe decides: rest, patrol, chase a player it has seen, and shoot while it sees it. */
module SnipeMind {
  import opened Grid
  import opened Physics
  import opened Entities
  import opened Slab
  import opened SimState
  import opened Control
  import opened Movement
  import L = LineOfSight
  import F = PathFinding

  const REST_TICKS := 15
  const LOST_TICKS := 60
  const REPLAN_EVERY := 15
  const PATROL_MIN := 30
  const PATROL_MAX := 90
  const PLAN_LENGTH := 3
  const PLAN_SLACK := 4
  const ARRIVED := 16

  /** The part of a level that snipes go by: subtiles and ticks, 0 to 2 for the lead, tiles for the sight. */
  datatype Tuning = Tuning(speed: int, fireCooldown: nat, lead: nat, sight: int)

  datatype Move = KeepGoing | Halt | Walk(dir: Dir) | Shoot(dir: Dir)

  /**
   One decision: whether spawn protection ends, where to face, what to do, and what is remembered if no shot comes of
   it.
   */
  datatype Advice = Advice(wake: bool, facing: Dir, move: Move, mind: Mind)

  // ---- looking ----

  function TileOf(e: Entity): (int, int) { (TruncDiv(e.x, SUBTILE), TruncDiv(e.y, SUBTILE)) }

  function TileGap(a: Entity, b: Entity): nat {
    var dx, dy := AbsInt(TileOf(a).0 - TileOf(b).0), AbsInt(TileOf(a).1 - TileOf(b).1);
    if dx > dy then dx else dy
  }

  /** Within range, and no wall between. */
  ghost predicate Sees(m: Maze, e: Entity, o: Entity, sight: int) {
    TileGap(e, o) <= sight && L.Visible(m, TileOf(e).0, TileOf(e).1, TileOf(o).0, TileOf(o).1, sight)
  }

  method Looks(m: Maze, e: Entity, o: Entity, sight: int) returns (seen: bool)
    ensures seen <==> Sees(m, e, o, sight)
  {
    if TileGap(e, o) > sight {
      return false;
    }
    seen := L.HasLOS(m, TileOf(e).0, TileOf(e).1, TileOf(o).0, TileOf(o).1, sight);
  }

  /** Both parties see each other or neither does. */
  lemma SeesBack(m: Maze, a: Entity, b: Entity, sight: int)
    ensures Sees(m, a, b, sight) <==> Sees(m, b, a, sight)
  {
    L.Symmetric(m, TileOf(a).0, TileOf(a).1, TileOf(b).0, TileOf(b).1, sight);
  }

  ghost predicate Spots(m: Maze, slots: seq<Entity>, e: Entity, sight: int, i: int) {
    0 <= i < |slots| && Live(slots[i]) && slots[i].kind == Player && Sees(m, e, slots[i], sight)
  }

  /** The live player in sight with the least ID, or 0 for nobody. */
  ghost predicate FirstInSight(m: Maze, slots: seq<Entity>, e: Entity, sight: int, p: ID) {
    if p == 0 then forall i :: !Spots(m, slots, e, sight, i)
    else (exists i :: Spots(m, slots, e, sight, i) && slots[i].id == p)
         && forall i | Spots(m, slots, e, sight, i) :: p <= slots[i].id
  }

  method FindFirstVisible(m: Maze, slots: seq<Entity>, e: Entity, sight: int) returns (p: ID)
    requires Unique(slots)
    ensures FirstInSight(m, slots, e, sight, p)
  {
    var ids := LiveIDsSorted(slots);
    hide Sees;
    for k := 0 to |ids|
      invariant forall i | Spots(m, slots, e, sight, i) :: slots[i].id !in ids[..k]
    {
      assert ids[k] in ids;
      var idx := FindByID(slots, ids[k]);
      assert ids[..k + 1] == ids[..k] + [ids[k]];
      assert forall i | 0 <= i < |slots| && slots[i].id == ids[k] :: i == idx by {
        forall i | 0 <= i < |slots| && slots[i].id == ids[k]
          ensures i == idx
        {
          OneSlot(slots, i, idx);
        }
      }
      if Live(slots[idx]) && slots[idx].kind == Player {
        var seen := Looks(m, e, slots[idx], sight);
        if seen {
          assert Spots(m, slots, e, sight, idx);
          assert forall j | 0 <= j < k :: ids[..k][j] == ids[j];
          forall i | Spots(m, slots, e, sight, i)
            ensures ids[k] <= slots[i].id
          {
            assert Present(slots, slots[i].id);
            var j :| 0 <= j < |ids| && ids[j] == slots[i].id;
            assert j >= k;
          }
          return ids[k];
        }
      }
    }
    forall i
      ensures !Spots(m, slots, e, sight, i)
    {
      assert 0 <= i < |slots| ==> (slots[i].id in ids <==> slots[i].id != 0 && Present(slots, slots[i].id));
      assert ids[..|ids|] == ids;
      assert 0 <= i < |slots| ==> Present(slots, slots[i].id);
    }
    return 0;
  }

  // ---- aiming ----

  function Dir8Toward(fromX: int, fromY: int, toX: int, toY: int): Dir {
    var dx, dy := toX - fromX, toY - fromY;
    var ax, ay := AbsInt(dx), AbsInt(dy);
    if dx == 0 && dy == 0 then S
    else if ax > 2 * ay then if dx > 0 then E else W
    else if ay > 2 * ax then if dy > 0 then S else N
    else if dx > 0 && dy > 0 then SE
    else if dx > 0 && dy < 0 then NE
    else if dx < 0 && dy > 0 then SW
    else NW
  }

  /** At the target itself, or ahead of it by half or all of what it covers while the projectile flies. */
  function Aim(e: Entity, o: Entity, lead: nat): Dir {
    var dx, dy := AbsInt(o.x - e.x), AbsInt(o.y - e.y);
    var ticks := (if dy > dx then dy else dx) / PROJECTILE_SPEED;
    if lead == 0 || ticks <= 0 then Dir8Toward(e.x, e.y, o.x, o.y)
    else
      var lx, ly := o.vx * ticks, o.vy * ticks;
      if lead == 1 then Dir8Toward(e.x, e.y, o.x + TruncDiv(lx, 2), o.y + TruncDiv(ly, 2))
      else Dir8Toward(e.x, e.y, o.x + lx, o.y + ly)
  }

  function Apart1(a: int, b: int): nat { if a < b then b - a else a - b }

  /**
   A heading never points away: on each axis it goes toward the goal, or not at all if the other axis is more than
   twice as far to go.
   */
  lemma Toward(fromX: int, fromY: int, toX: int, toY: int, speed: int)
    requires 2 <= speed < SUBTILE && (fromX, fromY) != (toX, toY)
    ensures var (vx, vy) := VelocityFor(Dir8Toward(fromX, fromY, toX, toY), speed);
            && (vx > 0 ==> toX > fromX) && (vx < 0 ==> toX < fromX)
            && (vy > 0 ==> toY > fromY) && (vy < 0 ==> toY < fromY)
            && (vx != 0 <==> 2 * Apart1(fromX, toX) >= Apart1(fromY, toY))
            && (vy != 0 <==> 2 * Apart1(fromY, toY) >= Apart1(fromX, toX))
  {
    VelocityBounded(Dir8Toward(fromX, fromY, toX, toY), speed);
    assert Diag(speed) > 0;
  }

  /**
   Where a shot is aimed: at the target; with a half lead, at where it will be in half the time the shot takes to get
   there, in whole ticks of 224 subtiles; with a full lead, in all of it.
   */
  lemma AimLeads(e: Entity, o: Entity, lead: nat)
    requires lead <= 2
    ensures var far := if Apart1(e.x, o.x) > Apart1(e.y, o.y) then Apart1(e.x, o.x) else Apart1(e.y, o.y);
            var ticks := far / 224;
            && (lead == 0 || (o.vx == 0 && o.vy == 0) ==> Aim(e, o, lead) == Dir8Toward(e.x, e.y, o.x, o.y))
            && (lead == 1 ==> Aim(e, o, lead) == Dir8Toward(e.x, e.y, o.x + TruncDiv(o.vx * ticks, 2),
                                                            o.y + TruncDiv(o.vy * ticks, 2)))
            && (lead == 2 ==> Aim(e, o, lead) == Dir8Toward(e.x, e.y, o.x + o.vx * ticks, o.y + o.vy * ticks))
  {
    hide Dir8Toward;
    var dx, dy := AbsInt(o.x - e.x), AbsInt(o.y - e.y);
    var ticks := (if dy > dx then dy else dx) / PROJECTILE_SPEED;
    Products(o.vx, ticks);
    Products(o.vy, ticks);
  }

  lemma Products(v: int, ticks: nat)
    ensures v == 0 || ticks == 0 ==> v * ticks == 0 && TruncDiv(v * ticks, 2) == 0
  {
  }

  lemma AimIsDirection(e: Entity, o: Entity, lead: nat)
    ensures Aim(e, o, lead) != Idle
  {
  }

  // ---- planning ----

  function PosOf(t: (int, int)): F.Pos { F.Pos(t.0, t.1) }

  /** Where the plan has got to after its first i tiles. */
  function Reached(from: (int, int), path: seq<(int, int)>, i: nat): (int, int)
    requires i <= |path|
  {
    if i == 0 then from else path[i - 1]
  }

  ghost predicate Hop(m: Maze, a: (int, int), to: (int, int), limit: nat, b: (int, int)) {
    a != to && F.Answer(m, PosOf(a), PosOf(to), limit, PosOf(b), true)
  }

  /**
   Hop by hop along shortest walks, three tiles at most, stopping short only at the target or where the search fails.
   */
  ghost predicate Planned(m: Maze, from: (int, int), to: (int, int), limit: nat, path: seq<(int, int)>) {
    && |path| <= PLAN_LENGTH
    && (forall i: nat | i < |path| :: Hop(m, Reached(from, path, i), to, limit, path[i]))
    && (|path| < PLAN_LENGTH ==>
          var last := Reached(from, path, |path|);
          last == to || exists none :: F.Answer(m, PosOf(last), PosOf(to), limit, none, false))
  }

  method Plan(m: Maze, from: (int, int), to: (int, int), depth: int) returns (path: seq<(int, int)>)
    ensures Planned(m, from, to, F.Limit(depth), path)
  {
    path := [];
    var c := from;
    hide F.Answer;
    for i := 0 to PLAN_LENGTH
      invariant |path| == i && c == Reached(from, path, i)
      invariant forall j: nat | j < |path| :: Hop(m, Reached(from, path, j), to, F.Limit(depth), path[j])
    {
      var next, ok := F.PathNext(m, PosOf(c), PosOf(to), depth);
      if !ok || (next.x, next.y) == c {
        if ok { NotStuck(m, c, to, F.Limit(depth), next); }
        return;
      }
      if c == to { AlreadyThere(m, c, F.Limit(depth), next, ok); }
      assert PosOf((next.x, next.y)) == next;
      ghost var before := path;
      path := path + [(next.x, next.y)];
      assert forall j: nat | j <= i :: Reached(from, path, j) == Reached(from, before, j);
      c := (next.x, next.y);
      if c == to {
        return;
      }
    }
  }

  /** The search stays where it is only when it is there already. */
  lemma NotStuck(m: Maze, c: (int, int), to: (int, int), limit: nat, next: F.Pos)
    requires F.Answer(m, PosOf(c), PosOf(to), limit, next, true) && (next.x, next.y) == c
    ensures c == to
  {
    assert forall h :: F.Nbr(PosOf(c), h) != PosOf(c);
  }

  lemma AlreadyThere(m: Maze, c: (int, int), limit: nat, next: F.Pos, ok: bool)
    requires F.Answer(m, PosOf(c), PosOf(c), limit, next, ok)
    ensures ok && (next.x, next.y) == c
  {
  }

  predicate Arrived(e: Entity, t: (int, int)) {
    AbsInt(e.x - TileMid(t.0)) <= ARRIVED && AbsInt(e.y - TileMid(t.1)) <= ARRIVED
  }

  /** The plan from the first tile on that the snipe has not arrived at. */
  function Onward(e: Entity, path: seq<(int, int)>): seq<(int, int)> {
    if path != [] && Arrived(e, path[0]) then Onward(e, path[1..]) else path
  }

  // ---- deciding ----

  function Cooling(mind: Mind): Mind { mind.(fireCooldown := Cooled(mind.fireCooldown)) }

  /** Nobody to go after any more. */
  function Forgetting(mind: Mind): Mind { mind.(target := 0, mood := Patrolling, timer := 0) }

  ghost predicate Rests(tick: nat, e: Entity, spawnTick: nat, mind: Mind, a: Advice) {
    a == if tick > spawnTick + REST_TICKS then Advice(true, e.facing, Halt, mind.(mood := Patrolling, timer := 0))
         else Advice(false, e.facing, Halt, mind)
  }

  /** A new heading and a new timer when the old one has run out or led into a wall. */
  predicate Redrawn(mind: Mind, dir: Dir, timer: nat) {
    if mind.timer == 0 || mind.wallBlocked then dir in {N, E, S, W} && PATROL_MIN <= timer <= PATROL_MAX
    else dir == mind.patrolDir && timer == mind.timer
  }

  ghost predicate Patrols(m: Maze, slots: seq<Entity>, t: Tuning, e: Entity, mind: Mind, a: Advice) {
    exists dir: Dir, timer: nat, p: ID ::
      && Redrawn(mind, dir, timer) && timer > 0 && FirstInSight(m, slots, e, t.sight, p)
      && var next := mind.(patrolDir := dir, timer := timer - 1, wallBlocked := false);
         a == if p != 0 then Advice(false, dir, Halt, next.(mood := Chasing, target := p, lostTicks := 0, path := []))
              else Advice(false, dir, Walk(dir), next)
  }

  /** The entity under this ID, alive. */
  ghost predicate Quarry(slots: seq<Entity>, id: ID, o: Entity) {
    !o.flags.dead && exists i :: FirstAt(slots, id, i) && slots[i] == o
  }

  predicate FirstAt(slots: seq<Entity>, id: ID, i: int) {
    0 <= i < |slots| && slots[i].id == id && forall j | 0 <= j < i :: slots[j].id != id
  }

  predicate Replans(tick: nat, e: Entity, mind: Mind) { mind.path == [] || (e.id + tick) % REPLAN_EVERY == 0 }

  /** Out of sight: along the plan, made anew when it is due. */
  ghost predicate Follows(m: Maze, tick: nat, t: Tuning, e: Entity, o: Entity, mind: Mind, a: Advice) {
    exists plan: seq<(int, int)> ::
      && (if Replans(tick, e, mind) then Planned(m, TileOf(e), TileOf(o), F.Limit(t.sight + PLAN_SLACK), plan)
          else plan == mind.path)
      && var rest := Onward(e, plan);
         a == if rest == [] then Advice(false, e.facing, Halt, mind.(path := []))
              else
                var dir := Dir8Toward(e.x, e.y, TileMid(rest[0].0), TileMid(rest[0].1));
                Advice(false, dir, Walk(dir), mind.(path := rest))
  }

  ghost predicate ChasesAfter(m: Maze, tick: nat, t: Tuning, e: Entity, o: Entity, mind: Mind, a: Advice) {
    if Sees(m, e, o, t.sight) then a == Advice(false, e.facing, Halt, mind.(lostTicks := 0, mood := Attacking))
    else
      var lost := mind.(lostTicks := mind.lostTicks + 1);
      if lost.lostTicks >= LOST_TICKS then a == Advice(false, e.facing, Halt, Forgetting(lost))
      else Follows(m, tick, t, e, o, lost, a)
  }

  ghost predicate Chases(m: Maze, slots: seq<Entity>, tick: nat, t: Tuning, e: Entity, mind: Mind, a: Advice) {
    if exists o :: Quarry(slots, mind.target, o) then
      exists o :: Quarry(slots, mind.target, o) && ChasesAfter(m, tick, t, e, o, mind, a)
    else a == Advice(false, e.facing, KeepGoing, Forgetting(mind))
  }

  ghost predicate ShootsAt(m: Maze, t: Tuning, e: Entity, o: Entity, mind: Mind, a: Advice) {
    a == if !Sees(m, e, o, t.sight) then Advice(false, e.facing, KeepGoing, mind.(mood := Chasing, path := []))
         else if mind.fireCooldown > 0 then Advice(false, e.facing, Halt, mind)
         else Advice(false, e.facing, Shoot(Aim(e, o, t.lead)), mind)
  }

  ghost predicate Attacks(m: Maze, slots: seq<Entity>, t: Tuning, e: Entity, mind: Mind, a: Advice) {
    if exists o :: Quarry(slots, mind.target, o) then
      exists o :: Quarry(slots, mind.target, o) && ShootsAt(m, t, e, o, mind, a)
    else a == Advice(false, e.facing, KeepGoing, Forgetting(mind))
  }

  /** What a snipe may decide, seeing these slots: all of it settled but the random heading and timer of a patrol. */
  ghost predicate Thinks(m: Maze, slots: seq<Entity>, tick: nat, t: Tuning, e: Entity, ss: SnipeState, a: Advice) {
    var mind := Cooling(ss.mind);
    match mind.mood
    case Resting => Rests(tick, e, ss.spawnTick, mind, a)
    case Patrolling => Patrols(m, slots, t, e, mind, a)
    case Chasing => Chases(m, slots, tick, t, e, mind, a)
    case Attacking => Attacks(m, slots, t, e, mind, a)
  }

  method Patrol(m: Maze, slots: seq<Entity>, t: Tuning, e: Entity, mind: Mind) returns (a: Advice)
    requires Unique(slots)
    ensures Patrols(m, slots, t, e, mind, a)
  {
    var dir, timer := mind.patrolDir, mind.timer;
    if mind.timer == 0 || mind.wallBlocked {
      dir :| dir in {N, E, S, W};
      timer :| PATROL_MIN <= timer <= PATROL_MAX;
    }
    assert Redrawn(mind, dir, timer) && timer > 0;
    var next := mind.(patrolDir := dir, timer := timer - 1, wallBlocked := false);
    var p := FindFirstVisible(m, slots, e, t.sight);
    if p != 0 {
      a := Advice(false, dir, Halt, next.(mood := Chasing, target := p, lostTicks := 0, path := []));
    } else {
      a := Advice(false, dir, Walk(dir), next);
    }
  }

  /** The entity to go after, if it is there and alive. */
  method FindQuarry(slots: seq<Entity>, id: ID) returns (idx: int)
    ensures -1 <= idx < |slots|
    ensures if idx < 0 then forall o :: !Quarry(slots, id, o) else Quarry(slots, id, slots[idx])
    ensures idx >= 0 ==> forall o | Quarry(slots, id, o) :: o == slots[idx]
  {
    idx := FindByID(slots, id);
    if idx >= 0 {
      assert FirstAt(slots, id, idx);
      assert forall i | FirstAt(slots, id, i) :: i == idx;
      if slots[idx].flags.dead {
        idx := -1;
      }
    } else {
      assert forall i | 0 <= i < |slots| :: slots[i].id != id;
    }
  }

  method Follow(m: Maze, tick: nat, t: Tuning, e: Entity, o: Entity, mind: Mind) returns (a: Advice)
    ensures Follows(m, tick, t, e, o, mind, a)
  {
    var plan := mind.path;
    if Replans(tick, e, mind) {
      plan := Plan(m, TileOf(e), TileOf(o), t.sight + PLAN_SLACK);
    }
    var rest := plan;
    while rest != [] && Arrived(e, rest[0])
      invariant Onward(e, rest) == Onward(e, plan)
    {
      rest := rest[1..];
    }
    if rest == [] {
      a := Advice(false, e.facing, Halt, mind.(path := []));
    } else {
      var dir := Dir8Toward(e.x, e.y, TileMid(rest[0].0), TileMid(rest[0].1));
      a := Advice(false, dir, Walk(dir), mind.(path := rest));
    }
  }

  method Chase(m: Maze, slots: seq<Entity>, tick: nat, t: Tuning, e: Entity, mind: Mind) returns (a: Advice)
    ensures Chases(m, slots, tick, t, e, mind, a)
  {
    var idx := FindQuarry(slots, mind.target);
    hide Quarry, Sees, Follows;
    if idx < 0 {
      return Advice(false, e.facing, KeepGoing, Forgetting(mind));
    }
    var seen := Looks(m, e, slots[idx], t.sight);
    if seen {
      return Advice(false, e.facing, Halt, mind.(lostTicks := 0, mood := Attacking));
    }
    var lost := mind.(lostTicks := mind.lostTicks + 1);
    if lost.lostTicks >= LOST_TICKS {
      a := Advice(false, e.facing, Halt, Forgetting(lost));
    } else {
      a := Follow(m, tick, t, e, slots[idx], lost);
    }
    assert ChasesAfter(m, tick, t, e, slots[idx], mind, a);
  }

  method Attack(m: Maze, slots: seq<Entity>, t: Tuning, e: Entity, mind: Mind) returns (a: Advice)
    ensures Attacks(m, slots, t, e, mind, a)
  {
    var idx := FindQuarry(slots, mind.target);
    hide Quarry, Sees, Aim;
    if idx < 0 {
      return Advice(false, e.facing, KeepGoing, Forgetting(mind));
    }
    var seen := Looks(m, e, slots[idx], t.sight);
    if !seen {
      a := Advice(false, e.facing, KeepGoing, mind.(mood := Chasing, path := []));
    } else if mind.fireCooldown > 0 {
      a := Advice(false, e.facing, Halt, mind);
    } else {
      a := Advice(false, e.facing, Shoot(Aim(e, slots[idx], t.lead)), mind);
    }
    assert ShootsAt(m, t, e, slots[idx], mind, a);
  }

  method Think(m: Maze, slots: seq<Entity>, tick: nat, t: Tuning, e: Entity, ss: SnipeState) returns (a: Advice)
    requires Unique(slots)
    ensures Thinks(m, slots, tick, t, e, ss, a)
  {
    var mind := Cooling(ss.mind);
    match mind.mood
    case Resting =>
      if tick > ss.spawnTick + REST_TICKS {
        a := Advice(true, e.facing, Halt, mind.(mood := Patrolling, timer := 0));
      } else {
        a := Advice(false, e.facing, Halt, mind);
      }
    case Patrolling => a := Patrol(m, slots, t, e, mind);
    case Chasing => a := Chase(m, slots, tick, t, e, mind);
    case Attacking => a := Attack(m, slots, t, e, mind);
    hide Quarry, Follows, FirstInSight, Sees, Aim, Redrawn;
  }

  // ---- what that comes to ----

  /** A newborn rests, protected, for fifteen ticks and no longer; then it patrols. */
  lemma RestsBriefly(m: Maze, slots: seq<Entity>, tick: nat, t: Tuning, e: Entity, ss: SnipeState, a: Advice)
    requires Thinks(m, slots, tick, t, e, ss, a) && ss.mind.mood == Resting
    ensures a.mind.mood == if tick <= ss.spawnTick + 15 then Resting else Patrolling
    ensures a.wake <==> tick > ss.spawnTick + 15
    ensures a.move == Halt && a.facing == e.facing
  {
  }

  /**
   On patrol it walks on in its direction, turning when its 30 to 90 ticks are over or a wall is met, until it sees
   somebody: then it stands, to go after the one with the least ID.
   */
  lemma PatrolSpots(m: Maze, slots: seq<Entity>, tick: nat, t: Tuning, e: Entity, ss: SnipeState, a: Advice)
    requires Thinks(m, slots, tick, t, e, ss, a) && ss.mind.mood == Patrolling
    ensures !a.wake && a.facing == a.mind.patrolDir
    ensures if ss.mind.timer == 0 || ss.mind.wallBlocked
            then a.mind.patrolDir in {N, E, S, W} && 29 <= a.mind.timer <= 89
            else a.mind.patrolDir == ss.mind.patrolDir && a.mind.timer == ss.mind.timer - 1
    ensures (forall i :: !Spots(m, slots, e, t.sight, i)) ==>
              a.mind.mood == Patrolling && a.move == Walk(a.mind.patrolDir)
    ensures forall i | Spots(m, slots, e, t.sight, i) && slots[i].id != 0 ::
              a.mind.mood == Chasing && a.move == Halt && a.mind.target <= slots[i].id && a.mind.lostTicks == 0
    ensures a.mind.mood == Chasing ==> exists i :: Spots(m, slots, e, t.sight, i) && slots[i].id == a.mind.target
  {
    hide Spots;
  }

  /**
   Attacking, it stands and shoots in the very tick its cooldown is over, as long as it sees its target; when it does
   not, it goes after it again, and when its target is gone or dead it patrols.
   */
  lemma AttacksInSight(m: Maze, slots: seq<Entity>, tick: nat, t: Tuning, e: Entity, ss: SnipeState, a: Advice)
    requires Thinks(m, slots, tick, t, e, ss, a) && ss.mind.mood == Attacking
    ensures (forall o :: !Quarry(slots, ss.mind.target, o)) ==>
              a.mind.mood == Patrolling && a.move == KeepGoing && a.mind.target == 0 && a.mind.timer == 0
    ensures forall o | Quarry(slots, ss.mind.target, o) ::
              if !Sees(m, e, o, t.sight) then a.mind.mood == Chasing && a.mind.path == [] && a.move == KeepGoing
              else a.mind.mood == Attacking && if ss.mind.fireCooldown <= 1 then a.move == Shoot(Aim(e, o, t.lead))
                                               else a.move == Halt
    ensures forall o | Quarry(slots, ss.mind.target, o) ::
              a.mind.target == ss.mind.target && a.mind.lostTicks == ss.mind.lostTicks
    ensures !a.wake && a.facing == e.facing
  {
    hide Sees, Quarry, Aim;
    var mind := Cooling(ss.mind);
    forall o | Quarry(slots, ss.mind.target, o)
      ensures ShootsAt(m, t, e, o, mind, a)
    {
      var o' :| Quarry(slots, mind.target, o') && ShootsAt(m, t, e, o', mind, a);
      OneQuarry(slots, mind.target, o, o');
    }
  }

  /** The entity after which a snipe goes is one. */
  lemma OneQuarry(slots: seq<Entity>, id: ID, a: Entity, b: Entity)
    requires Quarry(slots, id, a) && Quarry(slots, id, b)
    ensures a == b
  {
    assert forall i, j | FirstAt(slots, id, i) && FirstAt(slots, id, j) :: i == j;
  }

  /**
   A snipe shoots only at somebody alive whom it sees, having seen it before, and never before its cooldown is over.
   */
  lemma ShotInSight(m: Maze, slots: seq<Entity>, tick: nat, t: Tuning, e: Entity, ss: SnipeState, a: Advice)
    requires Thinks(m, slots, tick, t, e, ss, a) && a.move.Shoot?
    ensures ss.mind.mood == Attacking && ss.mind.fireCooldown <= 1 && a.move.dir != Idle && a.mind.fireCooldown == 0
    ensures exists o :: Quarry(slots, ss.mind.target, o) && Sees(m, e, o, t.sight) && a.move.dir == Aim(e, o, t.lead)
  {
    hide Sees, Quarry, Planned, FirstInSight, Redrawn, Aim;
    var mind := Cooling(ss.mind);
    assert mind.mood != Resting && mind.mood != Patrolling && mind.mood != Chasing;
    var o :| Quarry(slots, mind.target, o) && ShootsAt(m, t, e, o, mind, a);
    AimIsDirection(e, o, t.lead);
  }

  /** Whatever it decides, the cooldown has gone down by one. */
  lemma CooldownCounts(m: Maze, slots: seq<Entity>, tick: nat, t: Tuning, e: Entity, ss: SnipeState, a: Advice)
    requires Thinks(m, slots, tick, t, e, ss, a)
    ensures a.mind.fireCooldown == Cooled(ss.mind.fireCooldown)
  {
    hide Sees, Quarry, FirstInSight, Redrawn, Aim, Planned;
  }

  /** Whatever it decides, a tick of its cooldown is over. */
  lemma CoolsDown(m: Maze, slots: seq<Entity>, tick: nat, t: Tuning, e: Entity, ss: SnipeState, a: Advice)
    requires Thinks(m, slots, tick, t, e, ss, a)
    ensures a.mind.fireCooldown + 1 == ss.mind.fireCooldown || a.mind.fireCooldown == ss.mind.fireCooldown == 0
  {
    hide Sees, Quarry, FirstInSight, Redrawn, Aim, Planned, Arrived;
  }

  /** With its quarry gone or dead a chaser keeps its course for the tick and patrols next. */
  lemma QuarryGone(m: Maze, slots: seq<Entity>, tick: nat, t: Tuning, e: Entity, ss: SnipeState, a: Advice)
    requires Thinks(m, slots, tick, t, e, ss, a) && ss.mind.mood == Chasing
    requires forall i | 0 <= i < |slots| && slots[i].id == ss.mind.target :: slots[i].flags.dead
    ensures (a.mind.mood, a.mind.target, a.mind.timer, a.move) == (Patrolling, 0, 0, KeepGoing)
    ensures !a.wake && a.facing == e.facing
  {
    hide Sees, Planned, Arrived;
  }

  /** Seeing: within so many whole tiles on the longer axis, and in line of sight. */
  lemma SeesInRange(m: Maze, e: Entity, o: Entity, sight: int)
    ensures var (ex, ey, ox, oy) := (TruncDiv(e.x, 256), TruncDiv(e.y, 256), TruncDiv(o.x, 256), TruncDiv(o.y, 256));
            Sees(m, e, o, sight) <==>
              Apart1(ex, ox) <= sight && Apart1(ey, oy) <= sight && L.Visible(m, ex, ey, ox, oy, sight)
  {
    hide L.Visible;
  }

  /** Within 16 subtiles of the middle of the tile on both axes. */
  predicate AtMiddle(e: Entity, t: (int, int)) {
    Apart1(e.x, t.0 * 256 + 128) <= 16 && Apart1(e.y, t.1 * 256 + 128) <= 16
  }

  lemma {:induction false} OnwardIs(e: Entity, path: seq<(int, int)>) returns (k: nat)
    ensures k <= |path| && Onward(e, path) == path[k..] && (forall j | 0 <= j < k :: AtMiddle(e, path[j]))
    ensures k < |path| ==> !AtMiddle(e, path[k])
  {
    if path != [] && Arrived(e, path[0]) {
      k := OnwardIs(e, path[1..]);
      k := k + 1;
      assert path[1..][k - 1..] == path[k..];
      assert forall j | 0 < j < k :: path[j] == path[1..][j - 1];
    } else {
      k := 0;
    }
  }

  lemma FollowsBy(m: Maze, tick: nat, t: Tuning, e: Entity, o: Entity, mind: Mind, a: Advice)
    returns (plan: seq<(int, int)>, k: nat)
    requires Follows(m, tick, t, e, o, mind, a)
    ensures if mind.path == [] || (e.id + tick) % 15 == 0
            then Planned(m, TileOf(e), TileOf(o), F.Limit(t.sight + 4), plan) else plan == mind.path
    ensures k <= |plan| && a.mind.path == plan[k..] && (forall j | 0 <= j < k :: AtMiddle(e, plan[j]))
    ensures if k == |plan| then a.move == Halt && a.facing == e.facing
            else !AtMiddle(e, plan[k]) && a.facing == Dir8Toward(e.x, e.y, plan[k].0 * 256 + 128, plan[k].1 * 256 + 128)
                 && a.move == Walk(a.facing)
  {
    hide Planned, Dir8Toward, Onward, AtMiddle;
    plan :| (if Replans(tick, e, mind) then Planned(m, TileOf(e), TileOf(o), F.Limit(t.sight + PLAN_SLACK), plan)
             else plan == mind.path)
            && var rest := Onward(e, plan);
               a == if rest == [] then Advice(false, e.facing, Halt, mind.(path := []))
                    else
                      var dir := Dir8Toward(e.x, e.y, TileMid(rest[0].0), TileMid(rest[0].1));
                      Advice(false, dir, Walk(dir), mind.(path := rest));
    k := OnwardIs(e, plan);
  }

  lemma PlanShort(m: Maze, from: (int, int), to: (int, int), limit: nat, path: seq<(int, int)>)
    requires Planned(m, from, to, limit, path)
    ensures |path| <= 3
  {
  }

  lemma ChaseIsFollow(m: Maze, slots: seq<Entity>, tick: nat, t: Tuning, e: Entity, ss: SnipeState, a: Advice,
                      o: Entity)
    requires Thinks(m, slots, tick, t, e, ss, a) && ss.mind.mood == Chasing && Quarry(slots, ss.mind.target, o)
    requires !Sees(m, e, o, t.sight) && ss.mind.lostTicks + 1 < 60
    ensures var mind := Cooling(ss.mind); Follows(m, tick, t, e, o, mind.(lostTicks := mind.lostTicks + 1), a)
  {
    var mind := Cooling(ss.mind);
    hide Sees, Quarry, Follows;
    var o' :| Quarry(slots, mind.target, o') && ChasesAfter(m, tick, t, e, o', mind, a);
    OneQuarry(slots, mind.target, o, o');
  }

  /**
   Chasing unseen, it follows its plan: tiles reached are dropped, and it heads for the middle of the next, or stands
   if there is none. The plan is made anew when used up, and every fifteen ticks at a moment of its own: at most three
   tiles of a way to where the target is, searched four tiles farther than it sees.
   */
  lemma ChaseFollows(m: Maze, slots: seq<Entity>, tick: nat, t: Tuning, e: Entity, ss: SnipeState, a: Advice, o: Entity)
    returns (plan: seq<(int, int)>, k: nat)
    requires Thinks(m, slots, tick, t, e, ss, a) && ss.mind.mood == Chasing && Quarry(slots, ss.mind.target, o)
    requires !Sees(m, e, o, t.sight) && ss.mind.lostTicks + 1 < 60
    ensures if ss.mind.path == [] || (e.id + tick) % 15 == 0
            then |plan| <= 3 && Planned(m, TileOf(e), TileOf(o), F.Limit(t.sight + 4), plan) else plan == ss.mind.path
    ensures k <= |plan| && a.mind.path == plan[k..] && (forall j | 0 <= j < k :: AtMiddle(e, plan[j]))
    ensures if k == |plan| then a.move == Halt && a.facing == e.facing
            else !AtMiddle(e, plan[k]) && a.facing == Dir8Toward(e.x, e.y, plan[k].0 * 256 + 128, plan[k].1 * 256 + 128)
                 && a.move == Walk(a.facing)
  {
    var mind := Cooling(ss.mind);
    assert mind.path == ss.mind.path;
    hide *;
    ChaseIsFollow(m, slots, tick, t, e, ss, a, o);
    plan, k := FollowsBy(m, tick, t, e, o, mind.(lostTicks := mind.lostTicks + 1), a);
    if ss.mind.path == [] || (e.id + tick) % 15 == 0 {
      PlanShort(m, TileOf(e), TileOf(o), F.Limit(t.sight + 4), plan);
    }
  }

  /**
   It walks after somebody only while it does not see them; as soon as it does it stands, to shoot from the next tick
   on.
   */
  lemma WalksBlind(m: Maze, slots: seq<Entity>, tick: nat, t: Tuning, e: Entity, ss: SnipeState, a: Advice, o: Entity)
    requires Thinks(m, slots, tick, t, e, ss, a) && ss.mind.mood == Chasing && Quarry(slots, ss.mind.target, o)
    ensures Sees(m, e, o, t.sight) <==> a.mind.mood == Attacking
    ensures a.mind.mood == Attacking ==> a.move == Halt && a.mind.target == ss.mind.target && a.mind.lostTicks == 0
    ensures !a.wake && (a.move.Walk? ==> a.mind.mood == Chasing) && (!a.move.Walk? ==> a.facing == e.facing)
    ensures a.mind.mood == Patrolling <==> !Sees(m, e, o, t.sight) && ss.mind.lostTicks + 1 >= 60
    ensures a.mind.mood == Patrolling ==> a.move == Halt && a.mind.target == 0 && a.mind.timer == 0
    ensures a.mind.mood == Chasing ==> a.mind.lostTicks == ss.mind.lostTicks + 1 && a.mind.target == ss.mind.target
  {
    var mind := Cooling(ss.mind);
    assert Quarry(slots, mind.target, o);
    var o' :| Quarry(slots, mind.target, o') && ChasesAfter(m, tick, t, e, o', mind, a);
    OneQuarry(slots, mind.target, o, o');
    hide Sees, Quarry, Planned;
  }

  /** Ready to shoot is only who sees its target. */
  lemma ReadySees(m: Maze, slots: seq<Entity>, tick: nat, t: Tuning, e: Entity, ss: SnipeState, a: Advice)
    requires Thinks(m, slots, tick, t, e, ss, a) && a.mind.mood == Attacking
    ensures exists o :: Quarry(slots, a.mind.target, o) && Sees(m, e, o, t.sight)
  {
    hide Sees, Quarry, Planned, FirstInSight, Redrawn, Aim;
  }

  /** Each tile of a plan is open, next to the one before, and one step nearer the target than it. */
  lemma PlanCloses(m: Maze, from: (int, int), to: (int, int), limit: nat, path: seq<(int, int)>, i: nat)
    requires Planned(m, from, to, limit, path) && i < |path|
    ensures var a, b := PosOf(Reached(from, path, i)), PosOf(path[i]);
            F.Open(m, b) && exists d: nat, h :: 0 < d <= limit && F.AtDistance(m, a, PosOf(to), d)
                                                && F.AtDistance(m, b, PosOf(to), d - 1) && b == F.Nbr(a, h)
  {
    var a := PosOf(Reached(from, path, i));
    assert Hop(m, Reached(from, path, i), to, limit, path[i]);
    hide Planned, F.AtDistance, F.FirstHop, F.Open, F.Nbr;
    var d, h :| 0 < d <= limit && F.AtDistance(m, a, PosOf(to), d) && F.FirstHop(m, a, PosOf(to), d, h)
                && PosOf(path[i]) == F.Nbr(a, h);
    F.NextIsCloser(m, a, PosOf(to), d, h);
  }
}
