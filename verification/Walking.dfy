/** Where a player gets to in one tick with nothing in its way. */
module Walking {
  import opened Grid
  import opened Physics

  /** How far one tick takes a player, in subtiles east and south. */
  function Paces(d: Dir, turbo: bool): (int, int) {
    var (straight, slant) := if turbo then (224, 158) else (112, 79);
    match d
    case Idle => (0, 0)
    case N => (0, -straight)
    case E => (straight, 0)
    case S => (0, straight)
    case W => (-straight, 0)
    case NE => (slant, -slant)
    case SE => (slant, slant)
    case SW => (-slant, slant)
    case NW => (-slant, -slant)
  }

  lemma PacesAre(d: Dir)
    ensures VelocityFor(d, 112) == Paces(d, false) && VelocityFor(d, 224) == Paces(d, true)
  {
  }

  lemma PacesBounded(d: Dir, turbo: bool)
    ensures var (dx, dy) := Paces(d, turbo);
            -224 <= dx <= 224 && -224 <= dy <= 224 && (dx == 0 && dy == 0 <==> d == Idle)
  {
  }

  /** No wall and no solid box within a full stride of a box that reaches this far. */
  ghost predicate Roomy(m: Maze, x: int, y: int, he: nat, solids: seq<Box>) {
    Free(AlongX(m), x, y, he + 225) && Clear(Box(x, y, he + 225), solids)
  }

  lemma FreeInBounds(m: Maze, x: int, y: int, big: int)
    requires Free(AlongX(m), x, y, big) && big > 0
    ensures x >= big && y >= big
  {
    assert !AlongX(m)(Lo(x, big), Lo(y, big));
  }

  /** Inside a box without walls the wall test finds none. */
  lemma NoWallInside(wall: WallMap, x: int, y: int, big: int, p: int, q: int, v: int, he: int)
    requires Free(wall, x, y, big) && x >= big && y >= big && he > 0
    requires x - big <= p - he + v && p + he + v <= x + big - 1 && y - big <= q - he && q + he <= y + big
    ensures WallStage(wall, p, q, v, he) == (p + v, v)
  {
    var col := if v > 0 then TruncDiv(p + he + v, SUBTILE) else TruncDiv(p - he + v, SUBTILE);
    assert Lo(x, big) <= col <= Hi(x, big);
    assert Lo(y, big) <= TruncDiv(q - he, SUBTILE) && TruncDiv(q + he - 1, SUBTILE) <= Hi(y, big);
  }

  lemma ClearInside(x: int, y: int, big: int, p: int, q: int, he: int, solids: seq<Box>)
    requires Clear(Box(x, y, big), solids)
    requires x - big <= p - he && p + he <= x + big && y - big <= q - he && q + he <= y + big
    ensures Clear(Box(p, q, he), solids)
  {
    forall i | 0 <= i < |solids|
      ensures !Overlaps(Box(p, q, he), solids[i])
    {
      assert !Overlaps(Box(x, y, big), solids[i]);
    }
  }

  lemma SweepsOn(wall: WallMap, x: int, y: int, big: int, p: int, q: int, v: int, he: int, solids: seq<Box>)
    requires Free(wall, x, y, big) && x >= big && y >= big && he > 0 && Clear(Box(x, y, big), solids)
    requires x - big <= p - he + v && p + he + v <= x + big - 1 && y - big <= q - he && q + he <= y + big
    ensures Sweep(wall, p, q, v, he, solids) == (p + v, v)
  {
    if v != 0 {
      NoWallInside(wall, x, y, big, p, q, v, he);
      ClearInside(x, y, big, p + v, q, he, solids);
      NoClamp(p + v, q, v, v, he, solids);
    }
  }

  /** With room around, a box goes its whole way. */
  lemma GoesOn(m: Maze, x: int, y: int, vx: int, vy: int, he: nat, solids: seq<Box>)
    requires Roomy(m, x, y, he, solids) && he > 0 && -224 <= vx <= 224 && -224 <= vy <= 224
    ensures Slide(m, Motion(x, y, vx, vy), he, solids) == Motion(x + vx, y + vy, vx, vy)
  {
    var big := he + 225;
    FreeInBounds(m, x, y, big);
    SweepsOn(AlongX(m), x, y, big, x, y, vx, he, solids);
    FreeFlip(m, x, y, big);
    FlipClear(Box(x, y, big), solids);
    assert Flip(Box(x, y, big)) == Box(y, x, big);
    SweepsOn(AlongY(m), y, x, big, y, x + vx, vy, he, FlipAll(solids));
  }
}
