/** Line of sight: the integer supercover walk, and what it decides. */
module LineOfSight {
  import opened Grid

  function Abs(a: int): nat { if a < 0 then -a else a }
  function Max(a: int, b: int): int { if a < b then b else a }
  function Min(a: int, b: int): int { if a < b then a else b }
  function Sign(a: int): int { if a < 0 then -1 else if a == 0 then 0 else 1 }

  /** Cross product of the offset (i, j) with the segment (ax, ay): zero on the line. */
  function Cross(i: int, j: int, ax: int, ay: int): int { i * ay - j * ax }

  /** The tile at offset (i, j) meets the segment from tile centre to tile centre, edges and corners included. */
  predicate Meets(i: int, j: int, ax: int, ay: int) {
    -(ax + ay) <= 2 * Cross(i, j, ax, ay) <= ax + ay
  }

  /** A tile of the bounding box, not an endpoint, that the segment meets. */
  predicate Between(sx: int, sy: int, tx: int, ty: int, x: int, y: int) {
    && Min(sx, tx) <= x <= Max(sx, tx)
    && Min(sy, ty) <= y <= Max(sy, ty)
    && (x, y) != (sx, sy) && (x, y) != (tx, ty)
    && Meets(Abs(x - sx), Abs(y - sy), Abs(tx - sx), Abs(ty - sy))
  }

  ghost predicate Visible(m: Maze, sx: int, sy: int, tx: int, ty: int, maxRange: int) {
    || (sx == tx && sy == ty)
    || (&& Max(Abs(tx - sx), Abs(ty - sy)) <= maxRange
        && forall x, y | Between(sx, sy, tx, ty, x, y) :: !IsWall(m, x, y))
  }

  // ---- one anti-diagonal of the box holds one strict tile or two edge tiles ----

  predicate Strict(i: int, j: int, ax: int, ay: int) {
    -(ax + ay) < 2 * Cross(i, j, ax, ay) < ax + ay
  }

  /** Moving along an anti-diagonal changes the cross product by ax + ay a step. */
  lemma AntiDiagonal(i: int, j: int, p: int, q: int, ax: int, ay: int)
    requires i + j == p + q
    ensures Cross(p, q, ax, ay) == Cross(i, j, ax, ay) + (p - i) * (ax + ay)
  {
    var d := p - i;
    assert q == j - d;
    assert (i + d) * ay == i * ay + d * ay;
    assert (j - d) * ax == j * ax - d * ax;
    assert d * (ax + ay) == d * ax + d * ay;
  }

  lemma StrictIsAlone(i: int, j: int, p: int, q: int, ax: nat, ay: nat)
    requires i + j == p + q && Strict(i, j, ax, ay) && Meets(p, q, ax, ay)
    ensures p == i && q == j
  {
    AntiDiagonal(i, j, p, q, ax, ay);
    var d, n := p - i, ax + ay;
    if d >= 1 { Monotone(1, d, n); assert false; }
    if d <= -1 { Monotone(d, -1, n); assert false; }
  }

  lemma EdgePair(i: int, j: int, p: int, q: int, ax: nat, ay: nat)
    requires i + j == p + q && 2 * Cross(i, j, ax, ay) == ax + ay && ax + ay > 0 && Meets(p, q, ax, ay)
    ensures (p == i && q == j) || (p == i - 1 && q == j + 1)
  {
    AntiDiagonal(i, j, p, q, ax, ay);
    var d, n := p - i, ax + ay;
    if d >= 1 { Monotone(1, d, n); assert false; }
    if d <= -2 { Monotone(d, -2, n); assert false; }
  }

  /** Stepping one tile changes the cross product by ay along x and by -ax along y. */
  lemma CrossStep(i: int, j: int, ax: int, ay: int)
    ensures Cross(i + 1, j, ax, ay) == Cross(i, j, ax, ay) + ay
    ensures Cross(i, j + 1, ax, ay) == Cross(i, j, ax, ay) - ax
  {
    assert (i + 1) * ay == i * ay + ay;
    assert (j + 1) * ax == j * ax + ax;
  }

  /** The walk steps along an axis only while there is distance left on it. */
  lemma RoomToStep(i: nat, j: nat, ax: nat, ay: nat)
    requires i <= ax && j <= ay && ax + ay > 0 && (i, j) != (ax, ay)
    ensures 2 * Cross(i, j, ax, ay) <= ax - ay ==> i < ax
    ensures 2 * Cross(i, j, ax, ay) >= ax - ay ==> j < ay
  {
    if i == ax {
      assert Cross(i, j, ax, ay) == ax * (ay - j);
      assert j < ay;
      assert ax * (ay - j) >= ax by { Monotone(1, ay - j, ax); }
    }
    if j == ay {
      assert Cross(i, j, ax, ay) == -(ay * (ax - i));
      assert i < ax;
      assert ay * (ax - i) >= ay by { Monotone(1, ax - i, ay); }
    }
  }

  // ---- the walk ----

  function Steps(sx: int, sy: int, x: int, y: int): nat { Abs(x - sx) + Abs(y - sy) }

  /** Every tile the segment meets on the first n anti-diagonals, endpoints aside, is open. */
  ghost predicate OpenUpTo(m: Maze, sx: int, sy: int, tx: int, ty: int, n: int) {
    forall x, y | Between(sx, sy, tx, ty, x, y) && Steps(sx, sy, x, y) <= n :: !IsWall(m, x, y)
  }

  /** Twice the cross product of (x, y), relative to where a straight step is due. */
  function Lean(sx: int, sy: int, tx: int, ty: int, x: int, y: int): int {
    2 * Cross(Abs(x - sx), Abs(y - sy), Abs(tx - sx), Abs(ty - sy)) + Abs(ty - sy) - Abs(tx - sx)
  }

  /** Where the walk may stand: in the box, strictly inside the segment's band. */
  predicate OnWalk(sx: int, sy: int, tx: int, ty: int, x: int, y: int) {
    && Min(sx, tx) <= x <= Max(sx, tx)
    && Min(sy, ty) <= y <= Max(sy, ty)
    && Strict(Abs(x - sx), Abs(y - sy), Abs(tx - sx), Abs(ty - sy))
  }

  lemma StepsX(sx: int, sy: int, tx: int, ty: int, x: int, y: int)
    requires OnWalk(sx, sy, tx, ty, x, y) && (x, y) != (tx, ty) && Lean(sx, sy, tx, ty, x, y) < 0
    ensures var x' := x + Sign(tx - sx);
            && OnWalk(sx, sy, tx, ty, x', y)
            && Steps(sx, sy, x', y) == Steps(sx, sy, x, y) + 1
            && Lean(sx, sy, tx, ty, x', y) == Lean(sx, sy, tx, ty, x, y) + 2 * Abs(ty - sy)
  {
    RoomToStep(Abs(x - sx), Abs(y - sy), Abs(tx - sx), Abs(ty - sy));
    CrossStep(Abs(x - sx), Abs(y - sy), Abs(tx - sx), Abs(ty - sy));
    assert Abs(x + Sign(tx - sx) - sx) == Abs(x - sx) + 1;
  }

  lemma StepsY(sx: int, sy: int, tx: int, ty: int, x: int, y: int)
    requires OnWalk(sx, sy, tx, ty, x, y) && (x, y) != (tx, ty) && Lean(sx, sy, tx, ty, x, y) > 0
    ensures var y' := y + Sign(ty - sy);
            && OnWalk(sx, sy, tx, ty, x, y')
            && Steps(sx, sy, x, y') == Steps(sx, sy, x, y) + 1
            && Lean(sx, sy, tx, ty, x, y') == Lean(sx, sy, tx, ty, x, y) - 2 * Abs(tx - sx)
  {
    RoomToStep(Abs(x - sx), Abs(y - sy), Abs(tx - sx), Abs(ty - sy));
    CrossStep(Abs(x - sx), Abs(y - sy), Abs(tx - sx), Abs(ty - sy));
    assert Abs(y + Sign(ty - sy) - sy) == Abs(y - sy) + 1;
  }

  lemma StepsDiagonally(sx: int, sy: int, tx: int, ty: int, x: int, y: int)
    requires OnWalk(sx, sy, tx, ty, x, y) && (x, y) != (tx, ty) && Lean(sx, sy, tx, ty, x, y) == 0
    ensures var x', y' := x + Sign(tx - sx), y + Sign(ty - sy);
            && OnWalk(sx, sy, tx, ty, x', y')
            && Steps(sx, sy, x', y') == Steps(sx, sy, x, y) + 2
            && Lean(sx, sy, tx, ty, x', y') == 2 * Abs(ty - sy) - 2 * Abs(tx - sx)
            && Between(sx, sy, tx, ty, x', y) && Between(sx, sy, tx, ty, x, y')
            && Steps(sx, sy, x', y) == Steps(sx, sy, x, y') == Steps(sx, sy, x, y) + 1
            && 2 * Cross(Abs(x' - sx), Abs(y - sy), Abs(tx - sx), Abs(ty - sy)) == Abs(tx - sx) + Abs(ty - sy)
  {
    var i, j, ax, ay := Abs(x - sx), Abs(y - sy), Abs(tx - sx), Abs(ty - sy);
    RoomToStep(i, j, ax, ay);
    CrossStep(i, j, ax, ay);
    CrossStep(i + 1, j, ax, ay);
    assert Abs(x + Sign(tx - sx) - sx) == i + 1 && Abs(y + Sign(ty - sy) - sy) == j + 1;
    assert Cross(ax, ay, ax, ay) == 0;
  }

  /** Landing on the next tile leaves only that tile of its anti-diagonal to check. */
  lemma Land(m: Maze, sx: int, sy: int, tx: int, ty: int, x: int, y: int)
    requires OnWalk(sx, sy, tx, ty, x, y) && (x, y) != (sx, sy)
    requires OpenUpTo(m, sx, sy, tx, ty, Steps(sx, sy, x, y) - 1)
    ensures (x, y) != (tx, ty) ==> Between(sx, sy, tx, ty, x, y)
    ensures (x, y) == (tx, ty) || !IsWall(m, x, y) ==> OpenUpTo(m, sx, sy, tx, ty, Steps(sx, sy, x, y))
  {
    forall x', y' | Between(sx, sy, tx, ty, x', y') && Steps(sx, sy, x', y') == Steps(sx, sy, x, y)
      ensures x' == x && y' == y
    {
      StrictIsAlone(Abs(x - sx), Abs(y - sy), Abs(x' - sx), Abs(y' - sy), Abs(tx - sx), Abs(ty - sy));
    }
  }

  /** At a corner the two side tiles are all there is to check on the anti-diagonal between. */
  lemma PassCorner(m: Maze, sx: int, sy: int, tx: int, ty: int, x: int, y: int)
    requires OnWalk(sx, sy, tx, ty, x, y) && (x, y) != (tx, ty) && Lean(sx, sy, tx, ty, x, y) == 0
    requires OpenUpTo(m, sx, sy, tx, ty, Steps(sx, sy, x, y))
    requires !IsWall(m, x + Sign(tx - sx), y) && !IsWall(m, x, y + Sign(ty - sy))
    ensures OpenUpTo(m, sx, sy, tx, ty, Steps(sx, sy, x, y) + 1)
  {
    StepsDiagonally(sx, sy, tx, ty, x, y);
    var nx, ny := x + Sign(tx - sx), y + Sign(ty - sy);
    forall x', y' | Between(sx, sy, tx, ty, x', y') && Steps(sx, sy, x', y') == Steps(sx, sy, x, y) + 1
      ensures (x', y') == (nx, y) || (x', y') == (x, ny)
    {
      EdgePair(Abs(nx - sx), Abs(y - sy), Abs(x' - sx), Abs(y' - sy), Abs(tx - sx), Abs(ty - sy));
    }
  }

  lemma InBox(sx: int, sy: int, tx: int, ty: int, x: int, y: int)
    requires OnWalk(sx, sy, tx, ty, x, y)
    ensures Steps(sx, sy, x, y) <= Abs(tx - sx) + Abs(ty - sy)
  {
  }

  /** What each exit of the walk establishes. */
  lemma WalkBegins(m: Maze, sx: int, sy: int, tx: int, ty: int)
    requires (sx, sy) != (tx, ty)
    ensures OnWalk(sx, sy, tx, ty, sx, sy)
    ensures Lean(sx, sy, tx, ty, sx, sy) == Abs(ty - sy) - Abs(tx - sx)
    ensures OpenUpTo(m, sx, sy, tx, ty, Steps(sx, sy, sx, sy))
  {
  }

  lemma Hidden(m: Maze, sx: int, sy: int, tx: int, ty: int, maxRange: int)
    requires (sx, sy) != (tx, ty)
    ensures Max(Abs(tx - sx), Abs(ty - sy)) > maxRange ==> !Visible(m, sx, sy, tx, ty, maxRange)
    ensures forall x, y | Between(sx, sy, tx, ty, x, y) && IsWall(m, x, y) :: !Visible(m, sx, sy, tx, ty, maxRange)
  {
  }

  lemma Reached(m: Maze, sx: int, sy: int, tx: int, ty: int, maxRange: int)
    ensures sx == tx && sy == ty ==> Visible(m, sx, sy, tx, ty, maxRange)
    ensures OpenUpTo(m, sx, sy, tx, ty, Steps(sx, sy, tx, ty)) && Max(Abs(tx - sx), Abs(ty - sy)) <= maxRange
            ==> Visible(m, sx, sy, tx, ty, maxRange)
  {
  }

  method HasLOS(m: Maze, sx: int, sy: int, tx: int, ty: int, maxRange: int) returns (clear: bool)
    ensures clear <==> Visible(m, sx, sy, tx, ty, maxRange)
  {
    Reached(m, sx, sy, tx, ty, maxRange);
    hide *;
    if sx == tx && sy == ty {
      return true;
    }
    Hidden(m, sx, sy, tx, ty, maxRange);
    WalkBegins(m, sx, sy, tx, ty);
    var ax, ay := Abs(tx - sx), Abs(ty - sy);
    if Max(ax, ay) > maxRange {
      return false;
    }
    var stepX, stepY := Sign(tx - sx), Sign(ty - sy);
    var x, y, tMaxX, tMaxY := sx, sy, ay, ax;
    while !(x == tx && y == ty)
      invariant OnWalk(sx, sy, tx, ty, x, y)
      invariant tMaxX - tMaxY == Lean(sx, sy, tx, ty, x, y)
      invariant OpenUpTo(m, sx, sy, tx, ty, Steps(sx, sy, x, y))
      decreases ax + ay - Steps(sx, sy, x, y)
    {
      if tMaxX < tMaxY {
        StepsX(sx, sy, tx, ty, x, y);
        x := x + stepX;
        tMaxX := tMaxX + 2 * ay;
      } else if tMaxY < tMaxX {
        StepsY(sx, sy, tx, ty, x, y);
        y := y + stepY;
        tMaxY := tMaxY + 2 * ax;
      } else {
        StepsDiagonally(sx, sy, tx, ty, x, y);
        if IsWall(m, x + stepX, y) || IsWall(m, x, y + stepY) {
          return false;
        }
        PassCorner(m, sx, sy, tx, ty, x, y);
        x, y := x + stepX, y + stepY;
        tMaxX, tMaxY := tMaxX + 2 * ay, tMaxY + 2 * ax;
      }
      InBox(sx, sy, tx, ty, x, y);
      Land(m, sx, sy, tx, ty, x, y);
      if !(x == tx && y == ty) && IsWall(m, x, y) {
        return false;
      }
    }
    return true;
  }

  /** Seen from either end, the segment meets the same tiles. */
  lemma Symmetric(m: Maze, sx: int, sy: int, tx: int, ty: int, maxRange: int)
    ensures Visible(m, sx, sy, tx, ty, maxRange) <==> Visible(m, tx, ty, sx, sy, maxRange)
  {
    forall x, y
      ensures Between(sx, sy, tx, ty, x, y) == Between(tx, ty, sx, sy, x, y)
    {
      SameFromBothEnds(sx, sy, tx, ty, x, y);
    }
  }

  lemma SameFromBothEnds(sx: int, sy: int, tx: int, ty: int, x: int, y: int)
    ensures Between(sx, sy, tx, ty, x, y) == Between(tx, ty, sx, sy, x, y)
  {
    if Min(sx, tx) <= x <= Max(sx, tx) && Min(sy, ty) <= y <= Max(sy, ty) {
      var i: int, j: int, ax: int, ay: int := Abs(x - sx), Abs(y - sy), Abs(tx - sx), Abs(ty - sy);
      assert Abs(x - tx) == ax - i && Abs(y - ty) == ay - j;
      assert (ax - i) * ay - (ay - j) * ax == -(i * ay - j * ax);
    }
  }
}
