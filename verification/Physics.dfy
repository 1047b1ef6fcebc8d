/**
 Axis-separated swept-box movement against maze walls and generators.

 The specification sweeps one axis at a time. A sweep along y is the sweep along x of the transposed maze, so every
 fact about a sweep is proved once.
 */
module Physics {
  import opened Grid

  datatype Box = Box(cx: int, cy: int, he: int)

  const GENERATOR_HALF := 256

  /** Half-open overlap of two boxes. */
  predicate Overlaps(a: Box, b: Box) {
    && b.cx - b.he < a.cx + a.he
    && a.cx - a.he < b.cx + b.he
    && b.cy - b.he < a.cy + a.he
    && a.cy - a.he < b.cy + b.he
  }

  /** The wall test of a maze, seen along x or (transposed) along y. */
  type WallMap = (int, int) -> bool

  function AlongX(m: Maze): WallMap {
    (x, y) => IsWall(m, x, y)
  }

  function AlongY(m: Maze): WallMap {
    (y, x) => IsWall(m, x, y)
  }

  function Flip(b: Box): Box {
    Box(b.cy, b.cx, b.he)
  }

  function FlipAll(bs: seq<Box>): seq<Box> {
    seq(|bs|, i requires 0 <= i < |bs| => Flip(bs[i]))
  }

  // ---- the sweep of one axis: p moves, q is the fixed coordinate ----

  /** Some tile of column col, in the rows a box centred at q spans, is a wall. */
  ghost predicate Blocked(wall: WallMap, col: int, q: int, he: int) {
    exists r | TruncDiv(q - he, SUBTILE) <= r <= TruncDiv(q + he - 1, SUBTILE) :: wall(col, r)
  }

  /** Position and velocity after the wall test of one axis. */
  ghost function WallStage(wall: WallMap, p: int, q: int, v: int, he: int): (int, int)
  {
    if v > 0 then
      var col := TruncDiv(p + he + v, SUBTILE);
      if Blocked(wall, col, q, he) then (col * SUBTILE - he - 1, 0) else (p + v, v)
    else
      var col := TruncDiv(p - he + v, SUBTILE);
      if Blocked(wall, col, q, he) then ((col + 1) * SUBTILE + he, 0) else (p + v, v)
  }

  /** Where a box of half-extent he stops one subtile short of s, coming with sign v. */
  function Flush(s: Box, v: int, he: int): int {
    if v > 0 then s.cx - s.he - he - 1 else s.cx + s.he + he + 1
  }

  /** Clamp against each solid in turn; v0 is the velocity the sweep started with. */
  function Clamp(p: int, q: int, v: int, v0: int, he: int, solids: seq<Box>): (int, int)
    decreases |solids|
  {
    if solids == [] then (p, v)
    else if Overlaps(Box(p, q, he), solids[0]) then Clamp(Flush(solids[0], v0, he), q, 0, v0, he, solids[1..])
    else Clamp(p, q, v, v0, he, solids[1..])
  }

  ghost function Sweep(wall: WallMap, p: int, q: int, v: int, he: int, solids: seq<Box>): (int, int) {
    if v == 0 then (p, v)
    else
      var (p1, v1) := WallStage(wall, p, q, v, he);
      Clamp(p1, q, v1, v, he, solids)
  }

  datatype Motion = Motion(x: int, y: int, vx: int, vy: int)

  ghost function Slide(m: Maze, k: Motion, he: int, solids: seq<Box>): Motion {
    var (x', vx') := Sweep(AlongX(m), k.x, k.y, k.vx, he, solids);
    var (y', vy') := Sweep(AlongY(m), k.y, x', k.vy, he, FlipAll(solids));
    Motion(x', y', vx', vy')
  }

  // ---- the code: loops over the leading column or row, then the solids ----

  method ColumnBlocked(m: Maze, col: int, rowLo: int, rowHi: int) returns (hit: bool)
    ensures hit <==> exists r | rowLo <= r <= rowHi :: IsWall(m, col, r)
  {
    var r := rowLo;
    while r <= rowHi
      invariant rowLo <= r
      invariant forall r' | rowLo <= r' < r && r' <= rowHi :: !IsWall(m, col, r')
      decreases rowHi - r
    {
      if IsWall(m, col, r) {
        return true;
      }
      r := r + 1;
    }
    return false;
  }

  method RowBlocked(m: Maze, row: int, colLo: int, colHi: int) returns (hit: bool)
    ensures hit <==> exists c | colLo <= c <= colHi :: IsWall(m, c, row)
  {
    var c := colLo;
    while c <= colHi
      invariant colLo <= c
      invariant forall c' | colLo <= c' < c && c' <= colHi :: !IsWall(m, c', row)
      decreases colHi - c
    {
      if IsWall(m, c, row) {
        return true;
      }
      c := c + 1;
    }
    return false;
  }

  method ClampX(x0: int, y: int, v1: int, v0: int, he: int, solids: seq<Box>) returns (x: int, vx: int)
    ensures (x, vx) == Clamp(x0, y, v1, v0, he, solids)
  {
    x, vx := x0, v1;
    for i := 0 to |solids|
      invariant Clamp(x, y, vx, v0, he, solids[i..]) == Clamp(x0, y, v1, v0, he, solids)
    {
      assert solids[i..][0] == solids[i] && solids[i..][1..] == solids[i + 1..];
      if Overlaps(Box(x, y, he), solids[i]) {
        x := if v0 > 0 then solids[i].cx - solids[i].he - he - 1 else solids[i].cx + solids[i].he + he + 1;
        vx := 0;
      }
    }
  }

  method ClampY(x: int, y0: int, v1: int, v0: int, he: int, solids: seq<Box>) returns (y: int, vy: int)
    ensures (y, vy) == Clamp(y0, x, v1, v0, he, FlipAll(solids))
  {
    y, vy := y0, v1;
    ghost var flipped := FlipAll(solids);
    for i := 0 to |solids|
      invariant Clamp(y, x, vy, v0, he, flipped[i..]) == Clamp(y0, x, v1, v0, he, flipped)
    {
      assert flipped[i..][0] == Flip(solids[i]) && flipped[i..][1..] == flipped[i + 1..];
      if Overlaps(Box(x, y, he), solids[i]) {
        y := if v0 > 0 then solids[i].cy - solids[i].he - he - 1 else solids[i].cy + solids[i].he + he + 1;
        vy := 0;
      }
    }
  }

  method StepX(m: Maze, x0: int, y: int, v: int, he: int, solids: seq<Box>) returns (x: int, vx: int)
    ensures (x, vx) == Sweep(AlongX(m), x0, y, v, he, solids)
  {
    if v == 0 {
      return x0, v;
    }
    var col := TruncDiv(if v > 0 then x0 + he + v else x0 - he + v, SUBTILE);
    var hit := ColumnBlocked(m, col, TruncDiv(y - he, SUBTILE), TruncDiv(y + he - 1, SUBTILE));
    assert hit <==> Blocked(AlongX(m), col, y, he) by {
      assert forall r :: AlongX(m)(col, r) == IsWall(m, col, r);
    }
    if hit {
      x, vx := if v > 0 then col * SUBTILE - he - 1 else (col + 1) * SUBTILE + he, 0;
    } else {
      x, vx := x0 + v, v;
    }
    x, vx := ClampX(x, y, vx, v, he, solids);
  }

  method StepY(m: Maze, x: int, y0: int, v: int, he: int, solids: seq<Box>) returns (y: int, vy: int)
    ensures (y, vy) == Sweep(AlongY(m), y0, x, v, he, FlipAll(solids))
  {
    if v == 0 {
      return y0, v;
    }
    var row := TruncDiv(if v > 0 then y0 + he + v else y0 - he + v, SUBTILE);
    var hit := RowBlocked(m, row, TruncDiv(x - he, SUBTILE), TruncDiv(x + he - 1, SUBTILE));
    assert hit <==> Blocked(AlongY(m), row, x, he) by {
      assert forall c :: AlongY(m)(row, c) == IsWall(m, c, row);
    }
    if hit {
      y, vy := if v > 0 then row * SUBTILE - he - 1 else (row + 1) * SUBTILE + he, 0;
    } else {
      y, vy := y0 + v, v;
    }
    y, vy := ClampY(x, y, vy, v, he, solids);
  }

  method MoveAndSlide(m: Maze, x0: int, y0: int, vx0: int, vy0: int, he: int, solids: seq<Box>)
    returns (x: int, y: int, vx: int, vy: int)
    ensures Motion(x, y, vx, vy) == Slide(m, Motion(x0, y0, vx0, vy0), he, solids)
  {
    x, vx := StepX(m, x0, y0, vx0, he, solids);
    y, vy := StepY(m, x, y0, vy0, he, solids);
  }

  // ---- velocities ----

  datatype Dir = Idle | N | NE | E | SE | S | SW | W | NW

  /** Each axis component at cardinal speed s; 181/256 approximates the diagonal. */
  function Diag(s: int): int { TruncDiv(s * 181, 256) }

  function VelocityFor(d: Dir, s: int): (int, int) {
    match d
    case N => (0, -s)
    case NE => (Diag(s), -Diag(s))
    case E => (s, 0)
    case SE => (Diag(s), Diag(s))
    case S => (0, s)
    case SW => (-Diag(s), Diag(s))
    case W => (-s, 0)
    case NW => (-Diag(s), -Diag(s))
    case Idle => (0, 0)
  }

  /** No direction is faster than the cardinal speed, and only Idle stands still at a useful speed. */
  lemma VelocityBounded(d: Dir, s: int)
    requires 2 <= s < SUBTILE
    ensures var (vx, vy) := VelocityFor(d, s);
            && -s <= vx <= s && -s <= vy <= s
            && (vx == 0 && vy == 0 <==> d == Idle)
            && vx * vx + vy * vy <= s * s
  {
    assert 0 < Diag(s) && 256 * Diag(s) <= 181 * s;
    var t := Diag(s);
    assert 65536 * (t * t) <= (181 * s) * (181 * s) by { SquareMonotone(256 * t, 181 * s); }
    assert 2 * (t * t) <= s * s;
  }

  lemma SquareMonotone(a: int, b: int)
    requires 0 <= a <= b
    ensures a * a <= b * b
  {
  }

  // ---- the shape of a wide-corridor maze ----

  /** One orientation of the wide-corridor shape: strips are opened whole, and only between two carved cells. */
  ghost predicate Strips(wall: WallMap) {
    && (forall c, c', r | c % PITCH != 0 && c' % PITCH != 0 && c / PITCH == c' / PITCH :: wall(c, r) == wall(c', r))
    && (forall c, r | c % PITCH == 0 && !wall(c, r) :: !wall(c - 1, r) && !wall(c + 1, r))
    && (forall c, r | c <= 0 :: wall(c, r))
  }

  function Transposed(wall: WallMap): WallMap {
    (a, b) => wall(b, a)
  }

  /** Wide corridors: whole strips both ways, wall pillars where strips cross, and a wall ring. */
  ghost predicate WideShape(wall: WallMap) {
    && Strips(wall)
    && Strips(Transposed(wall))
    && (forall c, r | c % PITCH == 0 && r % PITCH == 0 :: wall(c, r))
  }

  lemma TransposeShape(m: Maze)
    requires WideShape(AlongX(m))
    ensures WideShape(AlongY(m))
  {
    var w, t := AlongX(m), AlongY(m);
    assert forall c, r :: t(c, r) == Transposed(w)(c, r);
    assert forall c, r :: Transposed(t)(c, r) == w(c, r);
  }

  function Lo(p: int, he: int): int { (p - he) / SUBTILE }
  function Hi(p: int, he: int): int { (p + he - 1) / SUBTILE }

  /** No tile under the box centred at (p, q) is a wall. */
  ghost predicate Free(wall: WallMap, p: int, q: int, he: int) {
    forall c, r | Lo(p, he) <= c <= Hi(p, he) && Lo(q, he) <= r <= Hi(q, he) :: !wall(c, r)
  }

  /** A wall beside a floor tile stands on a grid line of the maze. */
  lemma WallsOnGridLines(wall: WallMap, c: int, r: int)
    requires WideShape(wall)
    requires wall(c, r)
    ensures !wall(c - 1, r) || !wall(c + 1, r) ==> c % PITCH == 0
  {
    if c % PITCH != 0 {
      if (c - 1) % PITCH != 0 { assert (c - 1) / PITCH == c / PITCH; }
      if (c + 1) % PITCH != 0 { assert (c + 1) / PITCH == c / PITCH; }
    }
  }

  /** A free box lies beyond the outer ring, so no division in a sweep sees a negative operand. */
  lemma FreeIsInside(wall: WallMap, p: int, q: int, he: int)
    requires WideShape(wall) && Free(wall, p, q, he) && he > 0
    ensures p - he >= SUBTILE && q - he >= SUBTILE
  {
    assert !wall(Lo(p, he), Lo(q, he));
    assert Transposed(wall)(Lo(q, he), Lo(p, he)) == wall(Lo(p, he), Lo(q, he));
  }

  lemma OperandsNonNegative(m: Maze, k: Motion, he: int)
    requires WideShape(AlongX(m)) && Free(AlongX(m), k.x, k.y, he)
    requires 0 < he && -SUBTILE < k.vx < SUBTILE && -SUBTILE < k.vy < SUBTILE
    ensures k.x - he >= 0 && k.y - he >= 0
    ensures k.x - he + k.vx >= 0 && k.x + he + k.vx >= 0
    ensures k.y - he + k.vy >= 0 && k.y + he + k.vy >= 0
  {
    FreeIsInside(AlongX(m), k.x, k.y, he);
  }

  /** With the leading column open, the box may go the whole way. */
  lemma PassFree(wall: WallMap, p: int, q: int, v: int, he: int, col: int)
    requires Free(wall, p, q, he) && 0 < he && v != 0 && -SUBTILE < v < SUBTILE
    requires p - he >= SUBTILE && q - he >= SUBTILE
    requires col == if v > 0 then (p + he + v) / SUBTILE else (p - he + v) / SUBTILE
    requires !Blocked(wall, col, q, he)
    ensures Free(wall, p + v, q, he)
  {
    forall c, r | Lo(p + v, he) <= c <= Hi(p + v, he) && Lo(q, he) <= r <= Hi(q, he)
      ensures !wall(c, r)
    {
      if c != col { assert Lo(p, he) <= c <= Hi(p, he); }
    }
  }

  /** Stopped by a wall to the right, the box ends one subtile short of it. */
  lemma StopRight(wall: WallMap, p: int, q: int, v: int, he: int, col: int)
    requires WideShape(wall) && Free(wall, p, q, he) && 0 < he <= 256 && 0 < v < SUBTILE
    requires p - he >= SUBTILE && q - he >= SUBTILE
    requires col == (p + he + v) / SUBTILE && Blocked(wall, col, q, he)
    ensures var p1 := col * SUBTILE - he - 1;
            && Free(wall, p1, q, he) && p - 1 <= p1 <= p + v
            && (p1 < p ==> (p + he) % SUBTILE == 0)
  {
    var p1 := col * SUBTILE - he - 1;
    var r :| Lo(q, he) <= r <= Hi(q, he) && wall(col, r);
    assert !wall(Hi(p, he), r);
    StopAt(p, v, he, col);
    if Lo(p1, he) < Lo(p, he) {
      StepBackFree(wall, p, q, he, col, r);
    }
    hide Lo, Hi, Strips, WideShape;
  }

  /** The leading column is the next one, and the stop is within a subtile of it. */
  lemma StopAt(p: int, v: int, he: int, col: int)
    requires 0 < he <= 256 && 0 < v < SUBTILE && p - he >= SUBTILE
    requires col == (p + he + v) / SUBTILE && col != Hi(p, he)
    ensures var p1 := col * SUBTILE - he - 1;
            && col == Hi(p, he) + 1 && p - 1 <= p1 <= p + v && (p1 < p ==> p1 == p - 1 && (p + he) % SUBTILE == 0)
            && Hi(p1, he) == Hi(p, he) && Lo(p, he) - 1 <= Lo(p1, he)
  {
  }

  /** Stopped by a wall to the left, the box ends flush with it. */
  lemma StopLeft(wall: WallMap, p: int, q: int, v: int, he: int, col: int)
    requires Free(wall, p, q, he) && 0 < he && -SUBTILE < v < 0
    requires p - he >= SUBTILE && q - he >= SUBTILE
    requires col == (p - he + v) / SUBTILE && Blocked(wall, col, q, he)
    ensures var p1 := (col + 1) * SUBTILE + he;
            Free(wall, p1, q, he) && p + v <= p1 <= p
  {
    var r :| Lo(q, he) <= r <= Hi(q, he) && wall(col, r);
    assert !wall(Lo(p, he), r);
  }

  /** The wall stage keeps the box free; only a rightward hit may step back, by one subtile, from a tile edge. */
  lemma WallStageFree(wall: WallMap, p: int, q: int, v: int, he: int)
    requires WideShape(wall) && Free(wall, p, q, he)
    requires 0 < he <= 256 && v != 0 && -SUBTILE < v < SUBTILE
    ensures var p1 := WallStage(wall, p, q, v, he).0;
            && Free(wall, p1, q, he)
            && (v > 0 ==> p - 1 <= p1 <= p + v)
            && (v < 0 ==> p + v <= p1 <= p)
            && (v > 0 && p1 < p ==> (p + he) % SUBTILE == 0)
  {
    FreeIsInside(wall, p, q, he);
    var col := if v > 0 then TruncDiv(p + he + v, SUBTILE) else TruncDiv(p - he + v, SUBTILE);
    hide Free, WideShape;
    if !Blocked(wall, col, q, he) {
      PassFree(wall, p, q, v, he, col);
    } else if v > 0 {
      StopRight(wall, p, q, v, he, col);
    } else {
      StopLeft(wall, p, q, v, he, col);
    }
  }

  /** A wall to the left of floor and a wall to the right of floor are a whole cell apart. */
  lemma CorridorWidth(wall: WallMap, left: int, r: int, right: int, r': int)
    requires WideShape(wall) && left < right
    requires wall(left, r) && !wall(left + 1, r)
    requires wall(right, r') && !wall(right - 1, r')
    ensures right - left >= PITCH
  {
    WallsOnGridLines(wall, left, r);
    WallsOnGridLines(wall, right, r');
  }

  /** Walls to the left and right of a box at most two tiles wide cannot both touch it. */
  lemma StepBackFree(wall: WallMap, p: int, q: int, he: int, col: int, r: int)
    requires WideShape(wall) && Free(wall, p, q, he)
    requires 0 < he <= 256 && Lo(q, he) <= r <= Hi(q, he)
    requires p + he == col * SUBTILE && wall(col, r)
    requires Lo(p - 1, he) < Lo(p, he)
    ensures Free(wall, p - 1, q, he)
  {
    var left := Lo(p, he) - 1;
    assert !wall(col - 1, r);
    forall c, r' | Lo(p - 1, he) <= c <= Hi(p - 1, he) && Lo(q, he) <= r' <= Hi(q, he)
      ensures !wall(c, r')
    {
      if c == left && wall(left, r') {
        assert !wall(left + 1, r');
        CorridorWidth(wall, left, r', col, r);
        assert false;
      }
    }
  }

  /** A box between two free positions less than a tile apart is free. */
  lemma BetweenFree(wall: WallMap, a: int, b: int, p: int, q: int, he: int)
    requires Free(wall, a, q, he) && Free(wall, b, q, he)
    requires he >= 128 && a <= p <= b < a + SUBTILE
    ensures Free(wall, p, q, he)
  {
    forall c, r | Lo(p, he) <= c <= Hi(p, he) && Lo(q, he) <= r <= Hi(q, he)
      ensures !wall(c, r)
    {
      assert Lo(a, he) <= c <= Hi(a, he) || Lo(b, he) <= c <= Hi(b, he);
    }
  }

  // ---- generators ----

  /** The coordinate of the centre of cell i. */
  function CellMid(i: int): int { (PITCH * i + 4) * SUBTILE + SUBTILE / 2 }

  function GeneratorAt(i: int, j: int): Box { Box(CellMid(i), CellMid(j), GENERATOR_HALF) }

  ghost predicate IsGenerator(s: Box) {
    exists i, j :: s == GeneratorAt(i, j)
  }

  /** At least two cells apart along one axis. */
  predicate Apart(a: Box, b: Box) {
    var gap := 2 * PITCH * SUBTILE;
    a.cx - b.cx >= gap || b.cx - a.cx >= gap || a.cy - b.cy >= gap || b.cy - a.cy >= gap
  }

  /** Generators stand on cell centres, pairwise at least two cells apart. */
  ghost predicate Layout(solids: seq<Box>) {
    && (forall i | 0 <= i < |solids| :: IsGenerator(solids[i]))
    && (forall i, j | 0 <= i < j < |solids| :: Apart(solids[i], solids[j]))
  }

  ghost predicate Clear(b: Box, solids: seq<Box>) {
    forall i | 0 <= i < |solids| :: !Overlaps(b, solids[i])
  }

  lemma FlipLayout(solids: seq<Box>)
    requires Layout(solids)
    ensures Layout(FlipAll(solids))
  {
    var f := FlipAll(solids);
    forall i | 0 <= i < |solids|
      ensures IsGenerator(f[i])
    {
      var a, b :| solids[i] == GeneratorAt(a, b);
      assert f[i] == GeneratorAt(b, a);
    }
    forall i, j | 0 <= i < j < |solids|
      ensures Apart(f[i], f[j])
    {
      assert Apart(solids[i], solids[j]);
    }
  }

  lemma FlipClear(b: Box, solids: seq<Box>)
    ensures Clear(Flip(b), FlipAll(solids)) <==> Clear(b, solids)
  {
    var f := FlipAll(solids);
    assert forall i | 0 <= i < |solids| :: f[i] == Flip(solids[i]) && Overlaps(Flip(b), f[i]) == Overlaps(b, solids[i]);
  }

  /** No box is near two generators. */
  lemma OnlyOneNear(b: Box, s: Box, t: Box)
    requires s.he == t.he == GENERATOR_HALF && Apart(s, t) && b.he <= 256
    requires -514 < b.cx - s.cx < 514 && -514 < b.cy - s.cy < 514
    ensures !Overlaps(b, t)
  {
  }

  /** Clamping either leaves the box alone or stops it flush with the one generator it ran into. */
  lemma {:induction false} ClampResult(p: int, q: int, v: int, v0: int, he: int, solids: seq<Box>)
    requires Layout(solids) && 0 < he <= 256
    decreases |solids|
    ensures var p' := Clamp(p, q, v, v0, he, solids).0;
            && Clear(Box(p', q, he), solids)
            && (p' == p || exists s | s in solids :: Overlaps(Box(p, q, he), s) && p' == Flush(s, v0, he))
  {
    if solids != [] {
      var s, rest := solids[0], solids[1..];
      assert forall i | 0 <= i < |rest| :: rest[i] == solids[i + 1];
      if Overlaps(Box(p, q, he), s) {
        var p1 := Flush(s, v0, he);
        forall i | 0 <= i < |rest|
          ensures !Overlaps(Box(p1, q, he), rest[i])
        {
          assert Apart(solids[0], solids[i + 1]);
          OnlyOneNear(Box(p1, q, he), s, rest[i]);
        }
        NoClamp(p1, q, 0, v0, he, rest);
      } else {
        ClampResult(p, q, v, v0, he, rest);
        var p' := Clamp(p, q, v, v0, he, rest).0;
        if p' != p {
          var t :| t in rest && Overlaps(Box(p, q, he), t) && p' == Flush(t, v0, he);
          var i :| 0 <= i < |rest| && rest[i] == t;
          assert Apart(solids[0], solids[i + 1]);
          OnlyOneNear(Box(p', q, he), t, s);
        }
      }
    }
  }

  lemma {:induction false} NoClamp(p: int, q: int, v: int, v0: int, he: int, solids: seq<Box>)
    requires Clear(Box(p, q, he), solids)
    ensures Clamp(p, q, v, v0, he, solids) == (p, v)
  {
    if solids != [] {
      assert forall i | 0 <= i < |solids| - 1 :: solids[1..][i] == solids[i + 1];
      NoClamp(p, q, v, v0, he, solids[1..]);
    }
  }

  /** Where a sweep may have brought a box by the time the generators are tested. */
  predicate AfterWalls(p: int, p1: int, v: int, he: int) {
    && (v > 0 ==> p - 1 <= p1 <= p + v && (p1 < p ==> (p + he) % SUBTILE == 0))
    && (v < 0 ==> p + v <= p1 <= p)
  }

  /** A generator run into lies ahead: the box stops short of it and has not been thrown back past its start. */
  lemma FlushAhead(p: int, p1: int, q: int, v: int, he: int, s: Box)
    requires he == 128 || he == 256
    requires -SUBTILE < v < SUBTILE && v != 0 && AfterWalls(p, p1, v, he)
    requires IsGenerator(s) && !Overlaps(Box(p, q, he), s) && Overlaps(Box(p1, q, he), s)
    ensures var p' := Flush(s, v, he);
            && (v > 0 ==> p - 1 <= p' < p1 && (p' < p ==> (p + he) % SUBTILE == 128))
            && (v < 0 ==> p1 < p' <= p + 1 && (p' > p ==> (p + he) % SUBTILE == 128))
  {
    EdgesOf(p, p1, q, he, s);
    WallsLeave(p, p1, v, he);
    hide IsGenerator, Overlaps, AfterWalls;
    if v > 0 {
      AheadRight(p, p1, he, s.cx - s.he, s.cx + s.he);
    } else {
      AheadLeft(p, p1, he, s.cx - s.he, s.cx + s.he);
    }
  }

  lemma EdgesOf(p: int, p1: int, q: int, he: int, s: Box)
    requires IsGenerator(s) && !Overlaps(Box(p, q, he), s) && Overlaps(Box(p1, q, he), s)
    ensures (p + he <= s.cx - s.he || s.cx + s.he <= p - he) && s.cx - s.he < p1 + he && p1 - he < s.cx + s.he
    ensures (s.cx - s.he) % SUBTILE == 128 && (s.cx + s.he) % SUBTILE == 128 && s.he > 0
  {
    OffTileEdge(s);
  }

  lemma WallsLeave(p: int, p1: int, v: int, he: int)
    requires AfterWalls(p, p1, v, he)
    ensures v > 0 ==> p - 1 <= p1 && (p1 < p ==> (p + he) % SUBTILE == 0)
    ensures v < 0 ==> p1 <= p
  {
  }

  /** Given back one subtile at most, and only from a tile edge, a box does not reach back to a generator. */
  lemma NotBehind(p: int, p1: int, he: int, edge: int)
    requires (he == 128 || he == 256) && p - 1 <= p1 && (p1 < p ==> (p + he) % SUBTILE == 0)
    requires p1 - he < edge && edge % SUBTILE == 128
    ensures edge > p - he
  {
    assert (edge + 2 * he) % SUBTILE == 128;
  }

  /** One subtile short of an edge that does not lie behind is behind the start only from the edge itself. */
  lemma AheadRight(p: int, p1: int, he: int, lo: int, hi: int)
    requires (he == 128 || he == 256) && p - 1 <= p1 && (p1 < p ==> (p + he) % SUBTILE == 0)
    requires lo % SUBTILE == 128 && hi % SUBTILE == 128 && lo < p1 + he && p1 - he < hi
             && (p + he <= lo || hi <= p - he)
    ensures p - 1 <= lo - he - 1 < p1 && (lo - he - 1 < p ==> (p + he) % SUBTILE == 128)
  {
    NotBehind(p, p1, he, hi);
  }

  lemma AheadLeft(p: int, p1: int, he: int, lo: int, hi: int)
    requires (he == 128 || he == 256) && p1 <= p && lo < hi
    requires hi % SUBTILE == 128 && lo < p1 + he && p1 - he < hi && (p + he <= lo || hi <= p - he)
    ensures p1 < hi + he + 1 <= p + 1 && (hi + he + 1 > p ==> (p + he) % SUBTILE == 128)
  {
    assert (hi + 2 * he) % SUBTILE == 128;
  }

  /** Stopped flush with a generator, a box coming from a free and clear position is still free. */
  lemma FlushFree(wall: WallMap, p: int, p1: int, q: int, v: int, he: int, s: Box)
    requires Free(wall, p, q, he) && Free(wall, p1, q, he)
    requires he == 128 || he == 256
    requires -SUBTILE < v < SUBTILE && v != 0 && AfterWalls(p, p1, v, he)
    requires IsGenerator(s) && !Overlaps(Box(p, q, he), s) && Overlaps(Box(p1, q, he), s)
    ensures var p' := Flush(s, v, he);
            && Free(wall, p', q, he)
            && (v > 0 ==> p - 1 <= p' <= p + v)
            && (v < 0 ==> p + v <= p' <= p + 1)
  {
    var p' := Flush(s, v, he);
    FlushAhead(p, p1, q, v, he, s);
    if v > 0 && p' < p {
      ShiftFree(wall, p, q, he, -1);
    } else if v > 0 {
      BetweenFree(wall, p, p1, p', q, he);
    } else if p' > p {
      ShiftFree(wall, p, q, he, 1);
    } else {
      BetweenFree(wall, p1, p, p', q, he);
    }
  }

  lemma OffTileEdge(s: Box)
    requires IsGenerator(s)
    ensures s.he == GENERATOR_HALF && s.cx % SUBTILE == 128
  {
    var i, j :| s == GeneratorAt(i, j);
    assert s.cx == SUBTILE * (PITCH * i + 4) + 128;
  }

  /** One subtile either way changes no tile when the box does not end on a tile edge. */
  lemma ShiftFree(wall: WallMap, p: int, q: int, he: int, d: int)
    requires Free(wall, p, q, he)
    requires (he == 128 || he == 256) && -1 <= d <= 1 && (p + he) % SUBTILE == 128
    ensures Free(wall, p + d, q, he)
  {
    assert Lo(p + d, he) == Lo(p, he) && Hi(p + d, he) == Hi(p, he);
  }

  lemma SweepSafe(wall: WallMap, p: int, q: int, v: int, he: int, solids: seq<Box>)
    requires WideShape(wall) && Layout(solids) && (he == 128 || he == 256)
    requires Free(wall, p, q, he) && Clear(Box(p, q, he), solids)
    requires -SUBTILE < v < SUBTILE
    ensures var p' := Sweep(wall, p, q, v, he, solids).0;
            && Free(wall, p', q, he)
            && Clear(Box(p', q, he), solids)
            && (v >= 0 ==> p - 1 <= p' <= p + v)
            && (v <= 0 ==> p + v <= p' <= p + 1)
  {
    if v != 0 {
      WallStageFree(wall, p, q, v, he);
      var (p1, v1) := WallStage(wall, p, q, v, he);
      ClampResult(p1, q, v1, v, he, solids);
      var p' := Clamp(p1, q, v1, v, he, solids).0;
      if p' != p1 {
        var s :| s in solids && Overlaps(Box(p1, q, he), s) && p' == Flush(s, v, he);
        FlushFree(wall, p, p1, q, v, he, s);
      }
    }
  }

  /**
   A sweep that keeps its velocity goes the full distance; one that loses it stands within one subtile of the wall or
   generator that stopped it.
   */
  lemma StopsOnlyAtContact(wall: WallMap, p: int, q: int, v: int, he: int, solids: seq<Box>)
    requires WideShape(wall) && Layout(solids) && (he == 128 || he == 256)
    requires Free(wall, p, q, he) && Clear(Box(p, q, he), solids)
    requires -SUBTILE < v < SUBTILE && v != 0
    ensures var (p', v') := Sweep(wall, p, q, v, he, solids);
            && (v' != 0 ==> v' == v && p' == p + v)
            && (v' == 0 ==>
                  var beyond := if v > 0 then p' + 2 else p' - 2;
                  !Free(wall, beyond, q, he) || !Clear(Box(beyond, q, he), solids))
  {
    var (p1, v1) := WallStage(wall, p, q, v, he);
    ClampResult(p1, q, v1, v, he, solids);
    if Clear(Box(p1, q, he), solids) {
      NoClamp(p1, q, v1, v, he, solids);
      WallContact(wall, p, q, v, he);
    } else {
      var p' := Clamp(p1, q, v1, v, he, solids).0;
      ClampStops(p1, q, v1, v, he, solids);
      var s :| s in solids && Overlaps(Box(p1, q, he), s) && p' == Flush(s, v, he);
      var beyond := if v > 0 then p' + 2 else p' - 2;
      assert Overlaps(Box(beyond, q, he), s);
    }
  }

  lemma WallContact(wall: WallMap, p: int, q: int, v: int, he: int)
    requires WideShape(wall) && Free(wall, p, q, he)
    requires 0 < he <= 256 && v != 0 && -SUBTILE < v < SUBTILE
    ensures var (p1, v1) := WallStage(wall, p, q, v, he);
            && (v1 != 0 ==> v1 == v && p1 == p + v)
            && (v1 == 0 ==> !Free(wall, if v > 0 then p1 + 2 else p1 - 2, q, he))
  {
    FreeIsInside(wall, p, q, he);
    var (p1, v1) := WallStage(wall, p, q, v, he);
    if v1 == 0 {
      var col := if v > 0 then TruncDiv(p + he + v, SUBTILE) else TruncDiv(p - he + v, SUBTILE);
      var r :| Lo(q, he) <= r <= Hi(q, he) && wall(col, r);
      var beyond := if v > 0 then p1 + 2 else p1 - 2;
      assert Lo(beyond, he) <= col <= Hi(beyond, he);
    }
  }

  lemma {:induction false} ClampStops(p: int, q: int, v: int, v0: int, he: int, solids: seq<Box>)
    requires !Clear(Box(p, q, he), solids)
    decreases |solids|
    ensures Clamp(p, q, v, v0, he, solids).1 == 0
  {
    if Overlaps(Box(p, q, he), solids[0]) {
      ClampFromRest(Flush(solids[0], v0, he), q, v0, he, solids[1..]);
    } else {
      assert forall i | 0 <= i < |solids| - 1 :: solids[1..][i] == solids[i + 1];
      ClampStops(p, q, v, v0, he, solids[1..]);
    }
  }

  lemma {:induction false} ClampFromRest(p: int, q: int, v0: int, he: int, solids: seq<Box>)
    decreases |solids|
    ensures Clamp(p, q, 0, v0, he, solids).1 == 0
  {
    if solids != [] {
      ClampFromRest(p, q, v0, he, solids[1..]);
      ClampFromRest(Flush(solids[0], v0, he), q, v0, he, solids[1..]);
    }
  }

  /**
   A player or snipe that touches no wall and no generator still touches none after a step, and each coordinate moves
   by at most its velocity, or back by one subtile.
   */
  lemma MoveSafe(m: Maze, k: Motion, he: int, solids: seq<Box>)
    requires WideShape(AlongX(m)) && Layout(solids) && (he == 128 || he == 256)
    requires Free(AlongX(m), k.x, k.y, he) && Clear(Box(k.x, k.y, he), solids)
    requires -SUBTILE < k.vx < SUBTILE && -SUBTILE < k.vy < SUBTILE
    ensures var k' := Slide(m, k, he, solids);
            && Free(AlongX(m), k'.x, k'.y, he)
            && Clear(Box(k'.x, k'.y, he), solids)
            && (k.vx >= 0 ==> k.x - 1 <= k'.x <= k.x + k.vx)
            && (k.vx <= 0 ==> k.x + k.vx <= k'.x <= k.x + 1)
            && (k.vy >= 0 ==> k.y - 1 <= k'.y <= k.y + k.vy)
            && (k.vy <= 0 ==> k.y + k.vy <= k'.y <= k.y + 1)
  {
    var k' := Slide(m, k, he, solids);
    SweepSafe(AlongX(m), k.x, k.y, k.vx, he, solids);
    FreeFlip(m, k'.x, k.y, he);
    FlipClear(Box(k'.x, k.y, he), solids);
    TransposeShape(m);
    FlipLayout(solids);
    SweepSafe(AlongY(m), k.y, k'.x, k.vy, he, FlipAll(solids));
    FreeFlip(m, k'.x, k'.y, he);
    FlipClear(Box(k'.x, k'.y, he), solids);
  }

  lemma FreeFlip(m: Maze, x: int, y: int, he: int)
    ensures Free(AlongX(m), x, y, he) <==> Free(AlongY(m), y, x, he)
  {
    assert forall a, b :: AlongX(m)(a, b) == AlongY(m)(b, a);
  }

  /** A sweep only ever keeps its velocity or loses it. */
  lemma {:induction false} ClampVelocity(p: int, q: int, v: int, v0: int, he: int, solids: seq<Box>)
    decreases |solids|
    ensures Clamp(p, q, v, v0, he, solids).1 == v || Clamp(p, q, v, v0, he, solids).1 == 0
  {
    if solids != [] {
      ClampVelocity(p, q, v, v0, he, solids[1..]);
      ClampVelocity(Flush(solids[0], v0, he), q, 0, v0, he, solids[1..]);
    }
  }

  lemma SlideVelocity(m: Maze, k: Motion, he: int, solids: seq<Box>)
    ensures var k' := Slide(m, k, he, solids);
            && (k'.vx == k.vx || k'.vx == 0) && (k'.vy == k.vy || k'.vy == 0)
  {
    var (x1, v1) := WallStage(AlongX(m), k.x, k.y, k.vx, he);
    ClampVelocity(x1, k.y, v1, k.vx, he, solids);
    var x' := Sweep(AlongX(m), k.x, k.y, k.vx, he, solids).0;
    var (y1, w1) := WallStage(AlongY(m), k.y, x', k.vy, he);
    ClampVelocity(y1, x', w1, k.vy, he, FlipAll(solids));
  }

  /** A free box contains no wall, so neither does a smaller one at the same place. */
  lemma SmallerFree(wall: WallMap, p: int, q: int, big: int, small: int)
    requires Free(wall, p, q, big) && 0 <= small <= big
    ensures Free(wall, p, q, small)
  {
  }

  // ---- a snipe pushed onto a generator, and projectiles ----

  /** A snipe-sized box stopped flush with a generator stays inside that generator's own cell. */
  lemma SmallFlushFree(wall: WallMap, p: int, q: int, v: int, s: Box)
    requires WideShape(wall) && Free(wall, p, q, 128)
    requires IsGenerator(s) && Overlaps(Box(p, q, 128), s)
    ensures Free(wall, Flush(s, v, 128), q, 128)
  {
    var i, j :| s == GeneratorAt(i, j);
    var p' := Flush(s, v, 128);
    var c0 := if Lo(p, 128) >= PITCH * i + 3 then Lo(p, 128) else PITCH * i + 3;
    assert Lo(p, 128) <= c0 <= Hi(p, 128);
    assert PITCH * i + 3 <= c0 <= PITCH * i + 5;
    forall c, r | Lo(p', 128) <= c <= Hi(p', 128) && Lo(q, 128) <= r <= Hi(q, 128)
      ensures !wall(c, r)
    {
      assert PITCH * i + 1 <= c <= PITCH * i + 6;
      assert c / PITCH == i && c0 / PITCH == i && c % PITCH != 0 && c0 % PITCH != 0;
      assert !wall(c0, r);
    }
  }

  lemma SmallSweepFree(wall: WallMap, p: int, q: int, v: int, solids: seq<Box>)
    requires WideShape(wall) && Layout(solids)
    requires Free(wall, p, q, 128) && -SUBTILE < v < SUBTILE
    ensures Free(wall, Sweep(wall, p, q, v, 128, solids).0, q, 128)
  {
    if v != 0 {
      WallStageFree(wall, p, q, v, 128);
      var (p1, v1) := WallStage(wall, p, q, v, 128);
      ClampResult(p1, q, v1, v, 128, solids);
      var p' := Clamp(p1, q, v1, v, 128, solids).0;
      if p' != p1 {
        var s :| s in solids && Overlaps(Box(p1, q, 128), s) && p' == Flush(s, v, 128);
        SmallFlushFree(wall, p1, q, v, s);
      }
    }
  }

  /** A snipe never ends a step in a wall, even one that starts on top of a generator. */
  lemma SnipeMoveFree(m: Maze, k: Motion, solids: seq<Box>)
    requires WideShape(AlongX(m)) && Layout(solids)
    requires Free(AlongX(m), k.x, k.y, 128)
    requires -SUBTILE < k.vx < SUBTILE && -SUBTILE < k.vy < SUBTILE
    ensures var k' := Slide(m, k, 128, solids); Free(AlongX(m), k'.x, k'.y, 128)
  {
    var k' := Slide(m, k, 128, solids);
    SmallSweepFree(AlongX(m), k.x, k.y, k.vx, solids);
    FreeFlip(m, k'.x, k.y, 128);
    TransposeShape(m);
    FlipLayout(solids);
    SmallSweepFree(AlongY(m), k.y, k'.x, k.vy, FlipAll(solids));
    FreeFlip(m, k'.x, k'.y, 128);
  }

  /** Against walls alone, any box at most two tiles wide stays free. */
  lemma WallMoveFree(m: Maze, k: Motion, he: int)
    requires WideShape(AlongX(m)) && 0 < he <= 256
    requires Free(AlongX(m), k.x, k.y, he)
    requires -SUBTILE < k.vx < SUBTILE && -SUBTILE < k.vy < SUBTILE
    ensures var k' := Slide(m, k, he, []); Free(AlongX(m), k'.x, k'.y, he)
  {
    var k' := Slide(m, k, he, []);
    if k.vx != 0 { WallStageFree(AlongX(m), k.x, k.y, k.vx, he); }
    FreeFlip(m, k'.x, k.y, he);
    TransposeShape(m);
    if k.vy != 0 { WallStageFree(AlongY(m), k.y, k'.x, k.vy, he); }
    FreeFlip(m, k'.x, k'.y, he);
  }
}
