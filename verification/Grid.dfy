/** The tile grid shared by every part of the simulation, in tile and subtile units. */
module Grid {
  const SUBTILE := 256   // subtile units along one tile edge
  const CORRIDOR := 6    // floor tiles across one maze cell
  const PITCH := 7       // one cell plus its one-tile wall

  datatype Tile = Wall | Floor | SpawnPlayer | SpawnGenerator

  /** A tile array of W*H entries, row-major. */
  datatype RawMaze = RawMaze(W: nat, H: nat, tiles: seq<Tile>)

  type Maze = m: RawMaze | |m.tiles| == m.W * m.H witness RawMaze(0, 0, [])

  lemma IndexInRange(x: int, y: int, w: nat, h: nat)
    requires 0 <= x < w && 0 <= y < h
    ensures 0 <= y * w + x < w * h
  {
    assert y * w <= (h - 1) * w by { Monotone(y, h - 1, w); }
    assert (h - 1) * w == h * w - w;
  }

  lemma Monotone(a: int, b: int, w: nat)
    requires a <= b
    ensures a * w <= b * w
  {
  }

  lemma IndexInjective(x: int, y: int, x': int, y': int, w: nat)
    requires 0 <= x < w && 0 <= x' < w
    requires y * w + x == y' * w + x'
    ensures x == x' && y == y'
  {
    if y < y' {
      Monotone(y + 1, y', w);
      assert false;
    } else if y' < y {
      Monotone(y' + 1, y, w);
      assert false;
    }
  }

  predicate InBounds(m: RawMaze, x: int, y: int) {
    0 <= x < m.W && 0 <= y < m.H
  }

  /** Out-of-bounds reads are walls. */
  function At(m: Maze, x: int, y: int): Tile {
    if InBounds(m, x, y) then
      IndexInRange(x, y, m.W, m.H);
      m.tiles[y * m.W + x]
    else Wall
  }

  predicate IsWall(m: Maze, x: int, y: int) {
    At(m, x, y) == Wall
  }

  /** Integer division as Go does it: truncation toward zero. */
  function TruncDiv(a: int, b: int): int
    requires b > 0
  {
    if a >= 0 then a / b else -((-a) / b)
  }
}
