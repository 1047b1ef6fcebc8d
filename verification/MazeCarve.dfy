/**
 Carving a wide-corridor maze: a recursive backtracker over a coarse cell grid, then braiding and chambers, each
 opening whole one-tile strips.
 */
module MazeCarve {
  import opened Grid
  import Physics

  const BRAID_PERCENT := 18
  const ROOM_COUNT := 5

  datatype Cell = Cell(cx: int, cy: int)

  /** The strip east or south of a cell. */
  datatype Link = East(c: Cell) | South(c: Cell)

  datatype Size = Size(nx: nat, ny: nat)

  predicate InGrid(g: Size, c: Cell) { 0 <= c.cx < g.nx && 0 <= c.cy < g.ny }

  function Other(l: Link): Cell {
    match l
    case East(c) => Cell(c.cx + 1, c.cy)
    case South(c) => Cell(c.cx, c.cy + 1)
  }

  // ---- what the tiles of a carved maze are ----

  /** Cell interiors and open strips are floor; everything else, grid-line crossings included, is wall. */
  ghost function TileOf(cells: set<Cell>, links: set<Link>, x: int, y: int): Tile {
    var c := Cell(x / PITCH, y / PITCH);
    if x % PITCH != 0 && y % PITCH != 0 then
      if c in cells then Floor else Wall
    else if y % PITCH != 0 then
      if East(Cell(c.cx - 1, c.cy)) in links then Floor else Wall
    else if x % PITCH != 0 then
      if South(Cell(c.cx, c.cy - 1)) in links then Floor else Wall
    else Wall
  }

  ghost predicate Carved(m: Maze, cells: set<Cell>, links: set<Link>) {
    forall x, y :: At(m, x, y) == TileOf(cells, links, x, y)
  }

  /** Cells lie in the grid, and a strip is open only between two carved cells. */
  ghost predicate WellLinked(g: Size, cells: set<Cell>, links: set<Link>) {
    && (forall c | c in cells :: InGrid(g, c))
    && (forall l | l in links :: l.c in cells && Other(l) in cells)
  }

  lemma CarvedIsWide(g: Size, m: Maze, cells: set<Cell>, links: set<Link>)
    requires Carved(m, cells, links) && WellLinked(g, cells, links)
    ensures Physics.WideShape(Physics.AlongX(m))
  {
    var w := Physics.AlongX(m);
    var t := Physics.Transposed(w);
    assert forall c, r :: w(c, r) == (TileOf(cells, links, c, r) == Wall);
    assert forall c, r :: t(c, r) == (TileOf(cells, links, r, c) == Wall);
    forall c, r | c % PITCH == 0 && !w(c, r)
      ensures !w(c - 1, r) && !w(c + 1, r)
    {
      var l := East(Cell(c / PITCH - 1, r / PITCH));
      assert l in links;
      assert (c - 1) / PITCH == c / PITCH - 1 && (c + 1) / PITCH == c / PITCH;
    }
    forall c, r | c % PITCH == 0 && !t(c, r)
      ensures !t(c - 1, r) && !t(c + 1, r)
    {
      var l := South(Cell(r / PITCH, c / PITCH - 1));
      assert l in links;
      assert (c - 1) / PITCH == c / PITCH - 1 && (c + 1) / PITCH == c / PITCH;
    }
  }

  // ---- the board being carved ----

  /** m with tile t at (x, y). */
  function Put(m: Maze, x: int, y: int, t: Tile): Maze
    requires InBounds(m, x, y)
  {
    IndexInRange(x, y, m.W, m.H);
    RawMaze(m.W, m.H, m.tiles[y * m.W + x := t])
  }

  lemma PutAt(m: Maze, x: int, y: int, t: Tile, a: int, b: int)
    requires InBounds(m, x, y)
    ensures At(Put(m, x, y, t), a, b) == if a == x && b == y then t else At(m, a, b)
  {
    if InBounds(m, a, b) {
      IndexInRange(x, y, m.W, m.H);
      IndexInRange(a, b, m.W, m.H);
      if b * m.W + a == y * m.W + x {
        IndexInjective(a, b, x, y, m.W);
      }
    }
  }

  class Board {
    const W: nat
    const H: nat
    const tiles: array<Tile>

    constructor (w: nat, h: nat)
      ensures W == w && H == h && Valid() && fresh(tiles)
      ensures forall x, y :: At(View(), x, y) == Wall
    {
      W, H := w, h;
      tiles := new Tile[w * h](_ => Wall);
      new;
      forall x, y
        ensures At(View(), x, y) == Wall
      {
        if InBounds(View(), x, y) { IndexInRange(x, y, w, h); }
      }
    }

    predicate Valid() {
      tiles.Length == W * H
    }

    function View(): Maze
      requires Valid()
      reads tiles
    {
      RawMaze(W, H, tiles[..])
    }

    method Set(x: int, y: int, t: Tile)
      requires Valid() && 0 <= x < W && 0 <= y < H
      modifies tiles
      ensures View() == Put(old(View()), x, y, t)
      ensures forall a, b :: At(View(), a, b) == if a == x && b == y then t else old(At(View(), a, b))
    {
      IndexInRange(x, y, W, H);
      ghost var m := View();
      tiles[y * W + x] := t;
      assert View() == Put(m, x, y, t);
      forall a, b
        ensures At(View(), a, b) == if a == x && b == y then t else At(m, a, b)
      {
        PutAt(m, x, y, t, a, b);
      }
    }

    function Get(x: int, y: int): Tile
      requires Valid()
      reads tiles
      ensures Get(x, y) == At(View(), x, y)
    {
      if 0 <= x < W && 0 <= y < H then
        IndexInRange(x, y, W, H);
        tiles[y * W + x]
      else Wall
    }
  }

  /** The grid fits the board, with the closing wall. */
  predicate Fits(b: Board, g: Size) {
    b.Valid() && PITCH * g.nx < b.W && PITCH * g.ny < b.H
  }

  predicate InBlock(c: Cell, x: int, y: int) {
    && PITCH * c.cx + 1 <= x <= PITCH * c.cx + CORRIDOR
    && PITCH * c.cy + 1 <= y <= PITCH * c.cy + CORRIDOR
  }

  method CarveCell(b: Board, g: Size, c: Cell)
    requires Fits(b, g) && InGrid(g, c)
    modifies b.tiles
    ensures forall x, y :: At(b.View(), x, y) == if InBlock(c, x, y) then Floor else old(At(b.View(), x, y))
  {
    var ox, oy := c.cx * PITCH + 1, c.cy * PITCH + 1;
    for yy := 0 to CORRIDOR
      invariant forall x, y ::
                  At(b.View(), x, y) == if InBlock(c, x, y) && y < oy + yy then Floor else old(At(b.View(), x, y))
    {
      for xx := 0 to CORRIDOR
        invariant forall x, y ::
                    At(b.View(), x, y) == if InBlock(c, x, y) && (y < oy + yy || (y == oy + yy && x < ox + xx)) then
                                            Floor else old(At(b.View(), x, y))
      {
        b.Set(ox + xx, oy + yy, Floor);
      }
    }
  }

  /** The six tiles of a strip. */
  predicate InStrip(l: Link, x: int, y: int) {
    match l
    case East(c) => x == PITCH * c.cx + PITCH && PITCH * c.cy + 1 <= y <= PITCH * c.cy + CORRIDOR
    case South(c) => y == PITCH * c.cy + PITCH && PITCH * c.cx + 1 <= x <= PITCH * c.cx + CORRIDOR
  }

  /** The strip between two neighbouring cells, whichever way round they are given. */
  function LinkOf(a: Cell, b: Cell): Link {
    if b.cx == a.cx + 1 then East(a)
    else if b.cx == a.cx - 1 then East(b)
    else if b.cy == a.cy + 1 then South(a)
    else South(b)
  }

  predicate Neighbours(a: Cell, b: Cell) {
    || (a.cy == b.cy && (b.cx == a.cx + 1 || b.cx == a.cx - 1))
    || (a.cx == b.cx && (b.cy == a.cy + 1 || b.cy == a.cy - 1))
  }

  method CarveLink(b: Board, g: Size, a: Cell, n: Cell)
    requires Fits(b, g) && InGrid(g, a) && InGrid(g, n) && Neighbours(a, n)
    modifies b.tiles
    ensures forall x, y :: At(b.View(), x, y) == if InStrip(LinkOf(a, n), x, y) then Floor else old(At(b.View(), x, y))
  {
    var ax, ay := a.cx * PITCH + 1, a.cy * PITCH + 1;
    var vertical := n.cx != a.cx;
    var line := if n.cx == a.cx + 1 then ax + CORRIDOR else if n.cx == a.cx - 1 then ax - 1
                else if n.cy == a.cy + 1 then ay + CORRIDOR else ay - 1;
    for k := 0 to CORRIDOR
      invariant forall x, y ::
                  At(b.View(), x, y) == if InStrip(LinkOf(a, n), x, y)
                                          && (if vertical then y < ay + k else x < ax + k) then
                                            Floor else old(At(b.View(), x, y))
    {
      if vertical {
        b.Set(line, ay + k, Floor);
      } else {
        b.Set(ax + k, line, Floor);
      }
    }
  }

  /** The code looks at one tile of the strip. */
  method Linked(b: Board, a: Cell, n: Cell) returns (open: bool)
    requires b.Valid() && Neighbours(a, n)
    ensures forall cells, links | Carved(b.View(), cells, links) :: open <==> LinkOf(a, n) in links
  {
    var ax, ay := a.cx * PITCH + 1, a.cy * PITCH + 1;
    var x := if n.cx == a.cx + 1 then ax + CORRIDOR else if n.cx == a.cx - 1 then ax - 1 else ax;
    var y := if n.cx != a.cx then ay else if n.cy == a.cy + 1 then ay + CORRIDOR else ay - 1;
    open := b.Get(x, y) == Floor;
    forall cells, links | Carved(b.View(), cells, links)
      ensures open <==> LinkOf(a, n) in links
    {
      assert b.Get(x, y) == TileOf(cells, links, x, y);
    }
  }

  lemma CarvedCell(m: Maze, m': Maze, cells: set<Cell>, links: set<Link>, c: Cell)
    requires Carved(m, cells, links)
    requires forall x, y :: At(m', x, y) == if InBlock(c, x, y) then Floor else At(m, x, y)
    ensures Carved(m', cells + {c}, links)
  {
    forall x, y
      ensures At(m', x, y) == TileOf(cells + {c}, links, x, y)
    {
      assert InBlock(c, x, y) <==> x % PITCH != 0 && y % PITCH != 0 && x / PITCH == c.cx && y / PITCH == c.cy;
    }
  }

  lemma CarvedLink(m: Maze, m': Maze, cells: set<Cell>, links: set<Link>, l: Link)
    requires Carved(m, cells, links)
    requires forall x, y :: At(m', x, y) == if InStrip(l, x, y) then Floor else At(m, x, y)
    ensures Carved(m', cells, links + {l})
  {
    forall x, y
      ensures At(m', x, y) == TileOf(cells, links + {l}, x, y)
    {
      if l.East? {
        assert InStrip(l, x, y) <==> x % PITCH == 0 && y % PITCH != 0 && x / PITCH - 1 == l.c.cx && y / PITCH == l.c.cy;
      } else {
        assert InStrip(l, x, y) <==> y % PITCH == 0 && x % PITCH != 0 && y / PITCH - 1 == l.c.cy && x / PITCH == l.c.cx;
      }
    }
  }

  // ---- the cell graph ----

  /** A walk of k open links from a to b. */
  ghost predicate LinkWalk(links: set<Link>, a: Cell, b: Cell, k: nat)
    decreases k
  {
    if k == 0 then a == b
    else exists c: Cell :: Neighbours(c, b) && LinkOf(c, b) in links && LinkWalk(links, a, c, k - 1)
  }

  ghost predicate Joined(links: set<Link>, a: Cell, b: Cell) {
    exists k: nat :: LinkWalk(links, a, b, k)
  }

  lemma {:induction false} LinkWalkMonotone(links: set<Link>, more: set<Link>, a: Cell, b: Cell, k: nat)
    requires LinkWalk(links, a, b, k) && links <= more
    ensures LinkWalk(more, a, b, k)
    decreases k
  {
    if k > 0 {
      var c :| Neighbours(c, b) && LinkOf(c, b) in links && LinkWalk(links, a, c, k - 1);
      LinkWalkMonotone(links, more, a, c, k - 1);
    }
  }

  lemma JoinedMonotone(links: set<Link>, more: set<Link>, a: Cell, b: Cell)
    requires Joined(links, a, b) && links <= more
    ensures Joined(more, a, b)
  {
    var k: nat :| LinkWalk(links, a, b, k);
    LinkWalkMonotone(links, more, a, b, k);
  }

  /**
   A spanning tree of the cells, rooted at `root`: every cell is joined to the root, by one link fewer than there are
   cells, so no link can be spared.
   */
  ghost predicate SpanningTree(cells: set<Cell>, tree: set<Link>, root: Cell) {
    && root in cells
    && (forall c | c in cells :: Joined(tree, root, c))
    && |tree| == |cells| - 1
  }

  lemma JoinedStep(links: set<Link>, a: Cell, c: Cell, n: Cell)
    requires Joined(links, a, c) && Neighbours(c, n) && LinkOf(c, n) in links
    ensures Joined(links, a, n)
  {
    var k: nat :| LinkWalk(links, a, c, k);
    assert LinkWalk(links, a, n, k + 1);
  }

  lemma GrowTree(g: Size, cells: set<Cell>, tree: set<Link>, root: Cell, cur: Cell, pick: Cell)
    requires SpanningTree(cells, tree, root) && WellLinked(g, cells, tree)
    requires cur in cells && pick !in cells && Neighbours(cur, pick) && InGrid(g, pick)
    ensures SpanningTree(cells + {pick}, tree + {LinkOf(cur, pick)}, root)
    ensures WellLinked(g, cells + {pick}, tree + {LinkOf(cur, pick)})
  {
    var l := LinkOf(cur, pick);
    var tree' := tree + {l};
    assert (l.c == pick && Other(l) == cur) || (l.c == cur && Other(l) == pick);
    assert l !in tree;
    hide Joined, LinkOf, InGrid, Neighbours, Other;
    forall c | c in cells
      ensures Joined(tree', root, c)
    {
      JoinedMonotone(tree, tree', root, c);
    }
    JoinedStep(tree', root, cur, pick);
  }

  ghost function AllCells(g: Size): set<Cell> {
    set x, y | 0 <= x < g.nx && 0 <= y < g.ny :: Cell(x, y)
  }

  ghost predicate ClosedIn(g: Size, cells: set<Cell>, c: Cell) {
    forall n | Neighbours(c, n) && InGrid(g, n) :: n in cells
  }

  /** A non-empty set of cells that no step leaves is the whole grid. */
  lemma {:induction false} ClosedIsAll(g: Size, cells: set<Cell>, a: Cell, b: Cell)
    requires a in cells && InGrid(g, a) && InGrid(g, b)
    requires forall c | c in cells :: InGrid(g, c) && ClosedIn(g, cells, c)
    ensures b in cells
    decreases (if a.cx < b.cx then b.cx - a.cx else a.cx - b.cx) + (if a.cy < b.cy then b.cy - a.cy else a.cy - b.cy)
  {
    if a != b {
      var n := if a.cx < b.cx then Cell(a.cx + 1, a.cy) else if a.cx > b.cx then Cell(a.cx - 1, a.cy)
               else if a.cy < b.cy then Cell(a.cx, a.cy + 1) else Cell(a.cx, a.cy - 1);
      assert ClosedIn(g, cells, a) && Neighbours(a, n);
      ClosedIsAll(g, cells, n, b);
    }
  }

  // ---- carving ----

  /** A random draw below n; nothing more is known of it. */
  method IntN(n: int) returns (k: int)
    requires n > 0
    ensures 0 <= k < n
  {
    k :| 0 <= k < n;
  }

  function DirCell(c: Cell, i: int): Cell {
    if i == 0 then Cell(c.cx, c.cy - 1)
    else if i == 1 then Cell(c.cx + 1, c.cy)
    else if i == 2 then Cell(c.cx, c.cy + 1)
    else Cell(c.cx - 1, c.cy)
  }

  /** The visited flags record the carved cells. */
  ghost predicate Flags(g: Size, visited: array2<bool>, cells: set<Cell>)
    reads visited
  {
    && visited.Length0 == g.nx && visited.Length1 == g.ny
    && (forall c: Cell | InGrid(g, c) :: visited[c.cx, c.cy] <==> c in cells)
  }

  method UnvisitedNeighbours(g: Size, visited: array2<bool>, cur: Cell, ghost cells: set<Cell>)
    returns (nbrs: seq<Cell>)
    requires Flags(g, visited, cells)
    ensures forall n :: n in nbrs <==> Neighbours(cur, n) && InGrid(g, n) && n !in cells
  {
    nbrs := [];
    for i := 0 to 4
      invariant forall n ::
                  n in nbrs <==> (exists j | 0 <= j < i :: n == DirCell(cur, j)) && InGrid(g, n) && n !in cells
    {
      var n := DirCell(cur, i);
      if InGrid(g, n) && !visited[n.cx, n.cy] {
        nbrs := nbrs + [n];
      }
    }
    forall n
      ensures Neighbours(cur, n) <==> exists j | 0 <= j < 4 :: n == DirCell(cur, j)
    {
      assert n == DirCell(cur, 0) || n == DirCell(cur, 1) || n == DirCell(cur, 2) || n == DirCell(cur, 3) <==>
               Neighbours(cur, n);
    }
  }

  /** Stacked cells are carved, and a carved cell off the stack has no uncarved neighbour. */
  ghost predicate Frontier(g: Size, cells: set<Cell>, stack: seq<Cell>) {
    && (forall i | 0 <= i < |stack| :: stack[i] in cells)
    && (forall c | c in cells && c !in stack :: ClosedIn(g, cells, c))
  }

  lemma PopFrontier(g: Size, cells: set<Cell>, stack: seq<Cell>)
    requires |stack| > 0 && Frontier(g, cells, stack)
    requires ClosedIn(g, cells, stack[|stack| - 1])
    ensures Frontier(g, cells, stack[..|stack| - 1])
  {
    hide ClosedIn;
    var rest := stack[..|stack| - 1];
    assert stack == rest + [stack[|stack| - 1]];
    assert forall c | c in stack && c != stack[|stack| - 1] :: c in rest;
  }

  lemma PushFrontier(g: Size, cells: set<Cell>, stack: seq<Cell>, pick: Cell)
    requires Frontier(g, cells, stack)
    ensures Frontier(g, cells + {pick}, stack + [pick])
  {
    forall c | c in cells + {pick} && c !in stack + [pick]
      ensures ClosedIn(g, cells + {pick}, c)
    {
      assert c !in stack && c != pick;
      assert ClosedIn(g, cells, c);
    }
  }

  lemma FrontierDone(g: Size, cells: set<Cell>, root: Cell)
    requires root in cells && Frontier(g, cells, [])
    requires forall c | c in cells :: InGrid(g, c)
    ensures cells == AllCells(g)
  {
    forall c: Cell | InGrid(g, c)
      ensures c in cells
    {
      assert forall a | a in cells :: a !in [];
      ClosedIsAll(g, cells, root, c);
    }
    assert forall c | c in cells :: c == Cell(c.cx, c.cy) && c in AllCells(g);
  }

  lemma Smaller(g: Size, cells: set<Cell>, pick: Cell)
    requires InGrid(g, pick) && pick !in cells
    ensures AllCells(g) - (cells + {pick}) < AllCells(g) - cells
  {
    assert pick == Cell(pick.cx, pick.cy) && pick in AllCells(g);
  }

  /** Carve the picked neighbour of cur and the strip between them. */
  method Advance(b: Board, g: Size, cur: Cell, pick: Cell, ghost cells: set<Cell>, ghost tree: set<Link>,
                 ghost root: Cell)
    requires Fits(b, g) && Carved(b.View(), cells, tree)
    requires SpanningTree(cells, tree, root) && WellLinked(g, cells, tree)
    requires cur in cells && pick !in cells && Neighbours(cur, pick) && InGrid(g, pick)
    modifies b.tiles
    ensures Carved(b.View(), cells + {pick}, tree + {LinkOf(cur, pick)})
    ensures SpanningTree(cells + {pick}, tree + {LinkOf(cur, pick)}, root)
    ensures WellLinked(g, cells + {pick}, tree + {LinkOf(cur, pick)})
  {
    ghost var m1 := b.View();
    CarveCell(b, g, pick);
    ghost var m2 := b.View();
    CarveLink(b, g, cur, pick);
    hide *;
    CarvedCell(m1, m2, cells, tree, pick);
    CarvedLink(m2, b.View(), cells + {pick}, tree, LinkOf(cur, pick));
    GrowTree(g, cells, tree, root, cur, pick);
  }

  method Visit(g: Size, visited: array2<bool>, c: Cell, ghost cells: set<Cell>)
    requires Flags(g, visited, cells) && InGrid(g, c)
    modifies visited
    ensures Flags(g, visited, cells + {c})
  {
    visited[c.cx, c.cy] := true;
  }

  method Begin(b: Board, g: Size) returns (visited: array2<bool>, start: Cell)
    requires Fits(b, g) && g.nx > 0 && g.ny > 0
    requires Carved(b.View(), {}, {})
    modifies b.tiles
    ensures fresh(visited) && Flags(g, visited, {start}) && InGrid(g, start)
    ensures Carved(b.View(), {start}, {}) && SpanningTree({start}, {}, start)
    ensures Frontier(g, {start}, [start])
  {
    visited := new bool[g.nx, g.ny]((i, j) => false);
    var sx := IntN(g.nx);
    var sy := IntN(g.ny);
    start := Cell(sx, sy);
    Visit(g, visited, start, {});
    assert {} + {start} == {start};
    ghost var m0 := b.View();
    CarveCell(b, g, start);
    CarvedCell(m0, b.View(), {}, {}, start);
    assert LinkWalk({}, start, start, 0);
  }

  /** The recursive backtracker: every cell carved, joined by a spanning tree of open strips and nothing else. */
  method Backtrack(b: Board, g: Size) returns (ghost tree: set<Link>, ghost root: Cell)
    requires Fits(b, g) && g.nx > 0 && g.ny > 0
    requires Carved(b.View(), {}, {})
    modifies b.tiles
    ensures Carved(b.View(), AllCells(g), tree) && WellLinked(g, AllCells(g), tree)
    ensures SpanningTree(AllCells(g), tree, root)
  {
    var visited, start := Begin(b, g);
    var stack := [start];
    ghost var cells := {start};
    tree, root := {}, start;
    hide SpanningTree, Carved, Frontier, ClosedIn, Flags;
    while |stack| > 0
      invariant Flags(g, visited, cells) && fresh(visited)
      invariant Carved(b.View(), cells, tree) && WellLinked(g, cells, tree) && SpanningTree(cells, tree, root)
      invariant root in cells && Frontier(g, cells, stack) && forall i | 0 <= i < |stack| :: stack[i] in cells
      decreases AllCells(g) - cells, |stack|
    {
      var cur := stack[|stack| - 1];
      var nbrs := UnvisitedNeighbours(g, visited, cur, cells);
      if |nbrs| == 0 {
        NoNeighbours(g, cells, cur, nbrs);
        PopFrontier(g, cells, stack);
        stack := stack[..|stack| - 1];
        continue;
      }
      var k := IntN(|nbrs|);
      var pick := nbrs[k];
      assert pick in nbrs;
      Visit(g, visited, pick, cells);
      Advance(b, g, cur, pick, cells, tree, root);
      Smaller(g, cells, pick);
      PushFrontier(g, cells, stack, pick);
      stack := stack + [pick];
      cells, tree := cells + {pick}, tree + {LinkOf(cur, pick)};
    }
    FrontierDone(g, cells, root);
  }

  lemma NoNeighbours(g: Size, cells: set<Cell>, cur: Cell, nbrs: seq<Cell>)
    requires nbrs == [] && forall n :: n in nbrs <==> Neighbours(cur, n) && InGrid(g, n) && n !in cells
    ensures ClosedIn(g, cells, cur)
  {
    forall n | Neighbours(cur, n) && InGrid(g, n)
      ensures n in cells
    {
      assert n !in nbrs;
    }
  }

  /** A fully carved maze: the open strips include a spanning tree of all the cells. */
  ghost predicate Spanned(g: Size, m: Maze, links: set<Link>, tree: set<Link>, root: Cell) {
    && Carved(m, AllCells(g), links) && WellLinked(g, AllCells(g), links)
    && tree <= links && SpanningTree(AllCells(g), tree, root)
  }

  lemma InAllCells(g: Size, c: Cell)
    ensures c in AllCells(g) <==> InGrid(g, c)
  {
    assert c == Cell(c.cx, c.cy);
  }

  /** Open one more strip. */
  method OpenStrip(b: Board, g: Size, a: Cell, n: Cell, ghost links: set<Link>, ghost tree: set<Link>, ghost root: Cell)
    requires Fits(b, g) && InGrid(g, a) && InGrid(g, n) && Neighbours(a, n)
    requires Spanned(g, b.View(), links, tree, root)
    modifies b.tiles
    ensures Spanned(g, b.View(), links + {LinkOf(a, n)}, tree, root)
  {
    ghost var m0 := b.View();
    CarveLink(b, g, a, n);
    SpannedMore(g, m0, b.View(), links, tree, root, a, n);
  }

  lemma SpannedMore(g: Size, m: Maze, m': Maze, links: set<Link>, tree: set<Link>, root: Cell, a: Cell, n: Cell)
    requires Spanned(g, m, links, tree, root)
    requires InGrid(g, a) && InGrid(g, n) && Neighbours(a, n)
    requires forall x, y :: At(m', x, y) == if InStrip(LinkOf(a, n), x, y) then Floor else At(m, x, y)
    ensures Spanned(g, m', links + {LinkOf(a, n)}, tree, root)
  {
    var l := LinkOf(a, n);
    assert (l.c == a && Other(l) == n) || (l.c == n && Other(l) == a);
    InAllCells(g, a);
    InAllCells(g, n);
    hide Carved, SpanningTree, AllCells, InStrip, LinkOf, Neighbours, Other, InGrid;
    CarvedLink(m, m', AllCells(g), links, l);
  }

  /** Reopen some closed strips, so that the maze has loops. */
  method Braid(b: Board, g: Size, ghost links0: set<Link>, ghost tree: set<Link>, ghost root: Cell)
    returns (ghost links: set<Link>)
    requires Fits(b, g) && Spanned(g, b.View(), links0, tree, root)
    modifies b.tiles
    ensures links0 <= links && Spanned(g, b.View(), links, tree, root)
  {
    links := links0;
    for cy := 0 to g.ny
      invariant links0 <= links && Spanned(g, b.View(), links, tree, root)
    {
      for cx := 0 to g.nx
        invariant links0 <= links && Spanned(g, b.View(), links, tree, root)
      {
        var a := Cell(cx, cy);
        var around := [Cell(cx + 1, cy), Cell(cx, cy + 1)];
        for i := 0 to |around|
          invariant links0 <= links && Spanned(g, b.View(), links, tree, root)
        {
          if InGrid(g, around[i]) {
            var open := Linked(b, a, around[i]);
            var draw := IntN(100);
            if !open && draw < BRAID_PERCENT {
              OpenStrip(b, g, a, around[i], links, tree, root);
              links := links + {LinkOf(a, around[i])};
            }
          }
        }
      }
    }
  }

  /** Recarving a cell of a full maze changes nothing. */
  lemma CarvedAgain(g: Size, m: Maze, m': Maze, links: set<Link>, tree: set<Link>, root: Cell, c: Cell)
    requires Spanned(g, m, links, tree, root) && InGrid(g, c)
    requires forall x, y :: At(m', x, y) == if InBlock(c, x, y) then Floor else At(m, x, y)
    ensures Spanned(g, m', links, tree, root)
  {
    CarvedCell(m, m', AllCells(g), links, c);
    InAllCells(g, c);
    assert AllCells(g) + {c} == AllCells(g);
  }

  /** Merge some two-by-two blocks of cells into chambers. */
  method Chambers(b: Board, g: Size, ghost links0: set<Link>, ghost tree: set<Link>, ghost root: Cell)
    returns (ghost links: set<Link>)
    requires Fits(b, g) && g.nx >= 2 && g.ny >= 2 && Spanned(g, b.View(), links0, tree, root)
    modifies b.tiles
    ensures links0 <= links && Spanned(g, b.View(), links, tree, root)
  {
    links := links0;
    hide Spanned;
    for i := 0 to ROOM_COUNT
      invariant links0 <= links && Spanned(g, b.View(), links, tree, root)
    {
      var cx := IntN(g.nx - 1);
      var cy := IntN(g.ny - 1);
      var tl, tr, bl, br := Cell(cx, cy), Cell(cx + 1, cy), Cell(cx, cy + 1), Cell(cx + 1, cy + 1);
      var block := [tl, tr, bl, br];
      for j := 0 to 4
        invariant Spanned(g, b.View(), links, tree, root)
      {
        ghost var m0 := b.View();
        CarveCell(b, g, block[j]);
        CarvedAgain(g, m0, b.View(), links, tree, root, block[j]);
      }
      OpenStrip(b, g, tl, tr, links, tree, root);
      links := links + {LinkOf(tl, tr)};
      OpenStrip(b, g, bl, br, links, tree, root);
      links := links + {LinkOf(bl, br)};
      OpenStrip(b, g, tl, bl, links, tree, root);
      links := links + {LinkOf(tl, bl)};
      OpenStrip(b, g, tr, br, links, tree, root);
      links := links + {LinkOf(tr, br)};
    }
  }

  /** The whole carve: a spanning tree, then only more whole strips. */
  method CarveWideMaze(b: Board, g: Size) returns (ghost links: set<Link>, ghost tree: set<Link>, ghost root: Cell)
    requires Fits(b, g) && g.nx >= 2 && g.ny >= 2
    requires forall x, y :: At(b.View(), x, y) == Wall
    modifies b.tiles
    ensures Spanned(g, b.View(), links, tree, root)
    ensures Physics.WideShape(Physics.AlongX(b.View()))
  {
    assert Carved(b.View(), {}, {});
    tree, root := Backtrack(b, g);
    links := Braid(b, g, tree, tree, root);
    links := Chambers(b, g, links, tree, root);
    CarvedIsWide(g, b.View(), AllCells(g), links);
  }
}
