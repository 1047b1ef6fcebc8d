/**
 Movement as the client computes it: its own division on JavaScript numbers, its own overlap test and its own sweep.
 Each is shown to be the server's, so the two cannot drift apart.
 */
module ClientPhysics {
  import opened Grid
  import opened Physics

  // ---- arithmetic on JavaScript numbers; quotients by 256 are exact ----

  function Ceil(r: real): (n: int)
    ensures n as real - 1.0 < r <= n as real
  {
    -((-r).Floor)
  }

  /** Toward zero: the floor or the ceiling of the real quotient. */
  function Div(a: int, b: int): int
    requires b > 0
  {
    var r := a as real / b as real;
    if r >= 0.0 then r.Floor else Ceil(r)
  }

  lemma FloorIs(r: real, n: int)
    requires n as real <= r < n as real + 1.0
    ensures r.Floor == n
  {
  }

  /** A quotient of naturals lies between its integer part and the next. */
  lemma QuotientFloor(a: nat, b: int)
    requires b > 0
    ensures (a as real / b as real).Floor == a / b
  {
    var q, r := a / b, a % b;
    assert a == q * b + r;
    assert a as real == q as real * b as real + r as real;
    var d := a as real / b as real;
    assert d * b as real == a as real;
    assert d - q as real == r as real / b as real;
    assert 0.0 <= r as real / b as real < 1.0;
    FloorIs(d, q);
  }

  lemma DivTruncates(a: int, b: int)
    requires b > 0
    ensures Div(a, b) == TruncDiv(a, b)
  {
    if a >= 0 {
      QuotientFloor(a, b);
    } else {
      QuotientFloor(-a, b);
      assert -(a as real / b as real) == (-a) as real / b as real;
      assert (-a) / b == 0 || (-a) / b > 0;
    }
  }

  function ClientDiag(s: int): int {
    var product := s * 181;
    if product >= 0 then (product as real / 256.0).Floor else -((-product) as real / 256.0).Floor
  }

  lemma DiagTruncates(s: int)
    ensures ClientDiag(s) == Diag(s)
  {
    var product := s * 181;
    QuotientFloor(if product >= 0 then product else -product, 256);
  }

  function ClientVelocity(d: Dir, speed: int): (int, int) {
    match d
    case N => (0, -speed)
    case NE => (ClientDiag(speed), -ClientDiag(speed))
    case E => (speed, 0)
    case SE => (ClientDiag(speed), ClientDiag(speed))
    case S => (0, speed)
    case SW => (-ClientDiag(speed), ClientDiag(speed))
    case W => (-speed, 0)
    case NW => (-ClientDiag(speed), -ClientDiag(speed))
    case Idle => (0, 0)
  }

  lemma SameVelocity(d: Dir, speed: int)
    ensures ClientVelocity(d, speed) == VelocityFor(d, speed)
  {
    DiagTruncates(speed);
    hide ClientDiag, Diag;
  }

  /** Four separations, each ruling an overlap out. */
  predicate ClientOverlaps(x: int, y: int, he: int, cx: int, cy: int, che: int) {
    if x + he <= cx - che then false
    else if cx + che <= x - he then false
    else if y + he <= cy - che then false
    else !(cy + che <= y - he)
  }

  lemma SameOverlaps(x: int, y: int, he: int, s: Box)
    ensures ClientOverlaps(x, y, he, s.cx, s.cy, s.he) <==> Overlaps(Box(x, y, he), s)
  {
  }

  // ---- the sweep ----

  method ScanColumn(m: Maze, col: int, rowLo: int, rowHi: int) returns (hit: bool)
    ensures hit <==> exists r | rowLo <= r <= rowHi :: AlongX(m)(col, r)
  {
    hit := false;
    var r := rowLo;
    while r <= rowHi
      invariant rowLo <= r && !hit
      invariant forall r' | rowLo <= r' < r && r' <= rowHi :: !AlongX(m)(col, r')
      decreases rowHi - r
    {
      if At(m, col, r) == Wall {
        assert AlongX(m)(col, r);
        hit := true;
        break;
      }
      r := r + 1;
    }
  }

  method ScanRow(m: Maze, row: int, colLo: int, colHi: int) returns (hit: bool)
    ensures hit <==> exists c | colLo <= c <= colHi :: AlongY(m)(row, c)
  {
    hit := false;
    var c := colLo;
    while c <= colHi
      invariant colLo <= c && !hit
      invariant forall c' | colLo <= c' < c && c' <= colHi :: !AlongY(m)(row, c')
      decreases colHi - c
    {
      if At(m, c, row) == Wall {
        assert AlongY(m)(row, c);
        hit := true;
        break;
      }
      c := c + 1;
    }
  }

  /** The span of rows or columns tested is the server's. */
  lemma SameSpan(q: int, he: int)
    ensures Div(q - he, SUBTILE) == TruncDiv(q - he, SUBTILE)
            && Div(q + he - 1, SUBTILE) == TruncDiv(q + he - 1, SUBTILE)
  {
    DivTruncates(q - he, SUBTILE);
    DivTruncates(q + he - 1, SUBTILE);
  }

  method MoveRight(m: Maze, x0: int, y: int, vx0: int, he: int, solids: seq<Box>) returns (x: int, vx: int)
    requires vx0 > 0
    ensures (x, vx) == Sweep(AlongX(m), x0, y, vx0, he, solids)
  {
    SameSpan(y, he);
    DivTruncates(x0 + he + vx0, SUBTILE);
    hide Div;
    x, vx := x0, vx0;
    var col := Div(x + he + vx, SUBTILE);
    var hit := ScanColumn(m, col, Div(y - he, SUBTILE), Div(y + he - 1, SUBTILE));
    if hit {
      x := col * SUBTILE - he - 1;
      vx := 0;
    } else {
      x := x + vx;
    }
    ghost var x1, v1 := x, vx;
    for i := 0 to |solids|
      invariant Clamp(x, y, vx, vx0, he, solids[i..]) == Clamp(x1, y, v1, vx0, he, solids)
    {
      var s := solids[i];
      assert solids[i..][0] == s && solids[i..][1..] == solids[i + 1..];
      SameOverlaps(x, y, he, s);
      if ClientOverlaps(x, y, he, s.cx, s.cy, s.he) {
        x := s.cx - s.he - he - 1;
        vx := 0;
      }
    }
  }

  method MoveLeft(m: Maze, x0: int, y: int, vx0: int, he: int, solids: seq<Box>) returns (x: int, vx: int)
    requires vx0 < 0
    ensures (x, vx) == Sweep(AlongX(m), x0, y, vx0, he, solids)
  {
    SameSpan(y, he);
    DivTruncates(x0 - he + vx0, SUBTILE);
    hide Div;
    x, vx := x0, vx0;
    var col := Div(x - he + vx, SUBTILE);
    var hit := ScanColumn(m, col, Div(y - he, SUBTILE), Div(y + he - 1, SUBTILE));
    if hit {
      x := (col + 1) * SUBTILE + he;
      vx := 0;
    } else {
      x := x + vx;
    }
    ghost var x1, v1 := x, vx;
    for i := 0 to |solids|
      invariant Clamp(x, y, vx, vx0, he, solids[i..]) == Clamp(x1, y, v1, vx0, he, solids)
    {
      var s := solids[i];
      assert solids[i..][0] == s && solids[i..][1..] == solids[i + 1..];
      SameOverlaps(x, y, he, s);
      if ClientOverlaps(x, y, he, s.cx, s.cy, s.he) {
        x := s.cx + s.he + he + 1;
        vx := 0;
      }
    }
  }

  /** Overlap does not depend on which axis is called which. */
  lemma FlippedOverlaps(x: int, y: int, he: int, s: Box)
    ensures ClientOverlaps(x, y, he, s.cx, s.cy, s.he) <==> Overlaps(Box(y, x, he), Flip(s))
  {
  }

  method MoveDown(m: Maze, x: int, y0: int, vy0: int, he: int, solids: seq<Box>) returns (y: int, vy: int)
    requires vy0 > 0
    ensures (y, vy) == Sweep(AlongY(m), y0, x, vy0, he, FlipAll(solids))
  {
    SameSpan(x, he);
    DivTruncates(y0 + he + vy0, SUBTILE);
    hide Div;
    ghost var flipped := FlipAll(solids);
    y, vy := y0, vy0;
    var row := Div(y + he + vy, SUBTILE);
    var hit := ScanRow(m, row, Div(x - he, SUBTILE), Div(x + he - 1, SUBTILE));
    if hit {
      y := row * SUBTILE - he - 1;
      vy := 0;
    } else {
      y := y + vy;
    }
    ghost var y1, v1 := y, vy;
    for i := 0 to |solids|
      invariant Clamp(y, x, vy, vy0, he, flipped[i..]) == Clamp(y1, x, v1, vy0, he, flipped)
    {
      var s := solids[i];
      assert flipped[i..][0] == Flip(s) && flipped[i..][1..] == flipped[i + 1..];
      FlippedOverlaps(x, y, he, s);
      if ClientOverlaps(x, y, he, s.cx, s.cy, s.he) {
        y := s.cy - s.he - he - 1;
        vy := 0;
      }
    }
  }

  method MoveUp(m: Maze, x: int, y0: int, vy0: int, he: int, solids: seq<Box>) returns (y: int, vy: int)
    requires vy0 < 0
    ensures (y, vy) == Sweep(AlongY(m), y0, x, vy0, he, FlipAll(solids))
  {
    SameSpan(x, he);
    DivTruncates(y0 - he + vy0, SUBTILE);
    hide Div;
    ghost var flipped := FlipAll(solids);
    y, vy := y0, vy0;
    var row := Div(y - he + vy, SUBTILE);
    var hit := ScanRow(m, row, Div(x - he, SUBTILE), Div(x + he - 1, SUBTILE));
    if hit {
      y := (row + 1) * SUBTILE + he;
      vy := 0;
    } else {
      y := y + vy;
    }
    ghost var y1, v1 := y, vy;
    for i := 0 to |solids|
      invariant Clamp(y, x, vy, vy0, he, flipped[i..]) == Clamp(y1, x, v1, vy0, he, flipped)
    {
      var s := solids[i];
      assert flipped[i..][0] == Flip(s) && flipped[i..][1..] == flipped[i + 1..];
      FlippedOverlaps(x, y, he, s);
      if ClientOverlaps(x, y, he, s.cx, s.cy, s.he) {
        y := s.cy + s.he + he + 1;
        vy := 0;
      }
    }
  }

  /**
   The client's moveAndSlide ends exactly where the server's does, with the same velocity, from any state and any
   boxes.
   */
  method ClientMove(m: Maze, x0: int, y0: int, vx0: int, vy0: int, he: int, solids: seq<Box>)
    returns (x: int, y: int, vx: int, vy: int)
    ensures Motion(x, y, vx, vy) == Slide(m, Motion(x0, y0, vx0, vy0), he, solids)
  {
    hide WallStage, Clamp;
    x, y, vx, vy := x0, y0, vx0, vy0;
    if vx > 0 {
      x, vx := MoveRight(m, x, y, vx, he, solids);
    } else if vx < 0 {
      x, vx := MoveLeft(m, x, y, vx, he, solids);
    }
    if vy > 0 {
      y, vy := MoveDown(m, x, y, vy, he, solids);
    } else if vy < 0 {
      y, vy := MoveUp(m, x, y, vy, he, solids);
    }
  }
}
