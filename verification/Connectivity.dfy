/** All floor of a carved maze is connected, and the flood fill that checks this decides it exactly. */
module Connectivity {
  import opened Grid
  import opened PathFinding
  import opened MazeCarve

  ghost predicate Reaches(m: Maze, a: Pos, b: Pos) {
    exists k: nat :: Walk(m, a, b, k)
  }

  lemma ReachRefl(m: Maze, a: Pos)
    ensures Reaches(m, a, a)
  {
    assert Walk(m, a, a, 0);
  }

  lemma ReachStep(m: Maze, a: Pos, b: Pos, i: int)
    requires Reaches(m, a, b) && 0 <= i < 4 && Open(m, Nbr(b, i))
    ensures Reaches(m, a, Nbr(b, i))
  {
    var k: nat :| Walk(m, a, b, k);
    WalkStep(m, a, b, k, i);
  }

  lemma {:induction false} WalkTrans(m: Maze, a: Pos, b: Pos, c: Pos, k: nat, j: nat)
    requires Walk(m, a, b, k) && Walk(m, b, c, j)
    ensures Reaches(m, a, c)
    decreases j
  {
    hide Open, Nbr;
    if j > 0 {
      var u, i := LastStep(m, b, c, j);
      WalkTrans(m, a, b, u, k, j - 1);
      ReachStep(m, a, u, i);
    }
  }

  lemma ReachTrans(m: Maze, a: Pos, b: Pos, c: Pos)
    requires Reaches(m, a, b) && Reaches(m, b, c)
    ensures Reaches(m, a, c)
  {
    var k: nat :| Walk(m, a, b, k);
    var j: nat :| Walk(m, b, c, j);
    WalkTrans(m, a, b, c, k, j);
  }

  lemma {:induction false} WalkBack(m: Maze, a: Pos, b: Pos, k: nat)
    requires Walk(m, a, b, k) && Open(m, a)
    ensures Reaches(m, b, a)
    decreases k
  {
    hide Open, Nbr;
    ReachRefl(m, b);
    if k > 0 {
      var i :| 0 <= i < 4 && Walk(m, a, Nbr(b, i), k - 1);
      var u := Nbr(b, i);
      assert Open(m, u);
      WalkBack(m, a, u, k - 1);
      ReachStep(m, b, b, i);
      ReachTrans(m, b, u, a);
    }
  }

  lemma ReachSym(m: Maze, a: Pos, b: Pos)
    requires Reaches(m, a, b) && Open(m, a)
    ensures Reaches(m, b, a)
  {
    var k: nat :| Walk(m, a, b, k);
    WalkBack(m, a, b, k);
  }

  // ---- the floor of a carved maze ----

  function Origin(c: Cell): Pos { Pos(PITCH * c.cx + 1, PITCH * c.cy + 1) }

  lemma BlockOpen(m: Maze, cells: set<Cell>, links: set<Link>, c: Cell, p: Pos)
    requires Carved(m, cells, links) && c in cells && InBlock(c, p.x, p.y)
    ensures Open(m, p)
  {
    assert p.x / PITCH == c.cx && p.y / PITCH == c.cy && p.x % PITCH != 0 && p.y % PITCH != 0;
    assert At(m, p.x, p.y) == TileOf(cells, links, p.x, p.y);
  }

  /** Within a cell one can walk straight to the origin. */
  lemma {:induction false} BlockReach(m: Maze, cells: set<Cell>, links: set<Link>, c: Cell, p: Pos)
    requires Carved(m, cells, links) && c in cells && InBlock(c, p.x, p.y)
    ensures Reaches(m, Origin(c), p)
    decreases p.x + p.y - PITCH * (c.cx + c.cy)
  {
    hide Carved, Open;
    BlockOpen(m, cells, links, c, p);
    if p.x > PITCH * c.cx + 1 {
      BlockReach(m, cells, links, c, Pos(p.x - 1, p.y));
      ReachStep(m, Origin(c), Pos(p.x - 1, p.y), 1);
    } else if p.y > PITCH * c.cy + 1 {
      BlockReach(m, cells, links, c, Pos(p.x, p.y - 1));
      ReachStep(m, Origin(c), Pos(p.x, p.y - 1), 2);
    } else {
      ReachRefl(m, p);
    }
  }

  lemma StripOpen(m: Maze, cells: set<Cell>, links: set<Link>, l: Link, p: Pos)
    requires Carved(m, cells, links) && l in links && InStrip(l, p.x, p.y)
    ensures Open(m, p)
  {
    assert At(m, p.x, p.y) == TileOf(cells, links, p.x, p.y);
    if l.East? {
      assert p.x % PITCH == 0 && p.x / PITCH - 1 == l.c.cx && p.y % PITCH != 0 && p.y / PITCH == l.c.cy;
    } else {
      assert p.y % PITCH == 0 && p.y / PITCH - 1 == l.c.cy && p.x % PITCH != 0 && p.x / PITCH == l.c.cx;
    }
  }

  /** A tile of an open strip is a step from the cell on its west or north side. */
  lemma StripReach(m: Maze, cells: set<Cell>, links: set<Link>, l: Link, p: Pos)
    requires Carved(m, cells, links) && l in links && l.c in cells && InStrip(l, p.x, p.y)
    ensures Reaches(m, Origin(l.c), p)
  {
    hide Carved, Open;
    StripOpen(m, cells, links, l, p);
    if l.East? {
      BlockReach(m, cells, links, l.c, Pos(p.x - 1, p.y));
      ReachStep(m, Origin(l.c), Pos(p.x - 1, p.y), 1);
    } else {
      BlockReach(m, cells, links, l.c, Pos(p.x, p.y - 1));
      ReachStep(m, Origin(l.c), Pos(p.x, p.y - 1), 2);
    }
  }

  /** An open strip joins the origins of its two cells. */
  lemma LinkReach(m: Maze, cells: set<Cell>, links: set<Link>, l: Link)
    requires Carved(m, cells, links) && l in links && l.c in cells && Other(l) in cells
    ensures Reaches(m, Origin(l.c), Origin(Other(l))) && Reaches(m, Origin(Other(l)), Origin(l.c))
  {
    hide Carved, Open;
    var o := Origin(Other(l));
    var p := if l.East? then Pos(o.x - 1, o.y) else Pos(o.x, o.y - 1);
    StripReach(m, cells, links, l, p);
    BlockOpen(m, cells, links, Other(l), o);
    BlockOpen(m, cells, links, l.c, Origin(l.c));
    ReachStep(m, Origin(l.c), p, if l.East? then 1 else 2);
    ReachSym(m, Origin(l.c), o);
  }

  lemma {:induction false} JoinedReach(g: Size, m: Maze, cells: set<Cell>, links: set<Link>, a: Cell, b: Cell, k: nat)
    requires Carved(m, cells, links) && WellLinked(g, cells, links) && LinkWalk(links, a, b, k)
    ensures Reaches(m, Origin(a), Origin(b))
    decreases k
  {
    hide Carved, Open, InGrid;
    if k == 0 {
      ReachRefl(m, Origin(a));
    } else {
      var c: Cell :| Neighbours(c, b) && LinkOf(c, b) in links && LinkWalk(links, a, c, k - 1);
      JoinedReach(g, m, cells, links, a, c, k - 1);
      var l := LinkOf(c, b);
      assert (l.c == c && Other(l) == b) || (l.c == b && Other(l) == c);
      LinkReach(m, cells, links, l);
      ReachTrans(m, Origin(a), Origin(c), Origin(b));
    }
  }

  /** Every open tile lies in a carved cell or in an open strip. */
  lemma OpenTile(m: Maze, cells: set<Cell>, links: set<Link>, p: Pos) returns (c: Cell, l: Link)
    requires Carved(m, cells, links) && Open(m, p)
    ensures (c in cells && InBlock(c, p.x, p.y)) || (l in links && InStrip(l, p.x, p.y))
  {
    assert At(m, p.x, p.y) == TileOf(cells, links, p.x, p.y);
    c := Cell(p.x / PITCH, p.y / PITCH);
    l := if p.x % PITCH == 0 then East(Cell(c.cx - 1, c.cy)) else South(Cell(c.cx, c.cy - 1));
  }

  lemma RootReaches(g: Size, m: Maze, links: set<Link>, tree: set<Link>, root: Cell, p: Pos)
    requires Spanned(g, m, links, tree, root) && Open(m, p)
    ensures Reaches(m, Origin(root), p)
  {
    var cells := AllCells(g);
    var c, l := OpenTile(m, cells, links, p);
    hide Carved, Open, AllCells, InGrid;
    if c in cells && InBlock(c, p.x, p.y) {
      BlockReach(m, cells, links, c, p);
    } else {
      StripReach(m, cells, links, l, p);
      c := l.c;
    }
    assert Joined(tree, root, c);
    JoinedMonotone(tree, links, root, c);
    var k: nat :| LinkWalk(links, root, c, k);
    JoinedReach(g, m, cells, links, root, c, k);
    ReachTrans(m, Origin(root), Origin(c), p);
  }

  /** Between any two open tiles of a carved maze there is a walk over open tiles. */
  lemma FloorConnected(g: Size, m: Maze, links: set<Link>, tree: set<Link>, root: Cell, p: Pos, q: Pos)
    requires Spanned(g, m, links, tree, root) && Open(m, p) && Open(m, q)
    ensures Reaches(m, p, q)
  {
    RootReaches(g, m, links, tree, root, p);
    RootReaches(g, m, links, tree, root, q);
    BlockOpen(m, AllCells(g), links, root, Origin(root));
    ReachSym(m, Origin(root), p);
    ReachTrans(m, p, Origin(root), q);
  }

  // ---- the flood fill ----

  /** Every open tile can be walked to from s. */
  ghost predicate AllReached(m: Maze, s: Pos) {
    forall p | Open(m, p) :: Reaches(m, s, p)
  }

  ghost predicate Frontier(m: Maze, s: Pos, queue: seq<Pos>, seen: set<Pos>) {
    && s in seen
    && (forall p | p in seen :: Reaches(m, s, p))
    && (forall i | 0 <= i < |queue| :: queue[i] in seen)
    && (forall p, i | p in seen && p !in queue && 0 <= i < 4 && Open(m, Nbr(p, i)) :: Nbr(p, i) in seen)
  }

  lemma {:induction false} SeenAll(m: Maze, s: Pos, seen: set<Pos>, p: Pos, k: nat)
    requires Frontier(m, s, [], seen) && Walk(m, s, p, k)
    ensures p in seen
    decreases k
  {
    hide Open, Nbr;
    if k > 0 {
      var u, i := LastStep(m, s, p, k);
      SeenAll(m, s, seen, u, k - 1);
      assert u !in [];
    }
  }

  lemma FloodDone(m: Maze, s: Pos, seen: set<Pos>, p: Pos)
    requires Frontier(m, s, [], seen)
    ensures p in seen <==> Reaches(m, s, p)
  {
    if Reaches(m, s, p) {
      var k: nat :| Walk(m, s, p, k);
      SeenAll(m, s, seen, p, k);
    }
  }

  /** The flood while the first i neighbours of a popped tile have been tried. */
  ghost predicate Flooding(m: Maze, s: Pos, queue: seq<Pos>, seen: set<Pos>, c: Pos, i: int) {
    && s in seen && c in seen
    && (forall p | p in seen :: Reaches(m, s, p))
    && (forall j | 0 <= j < |queue| :: queue[j] in seen)
    && (forall p, j | p in seen && p != c && p !in queue && 0 <= j < 4 && Open(m, Nbr(p, j)) :: Nbr(p, j) in seen)
    && (forall j | 0 <= j < i && Open(m, Nbr(c, j)) :: Nbr(c, j) in seen)
  }

  lemma FloodPop(m: Maze, s: Pos, queue: seq<Pos>, seen: set<Pos>)
    requires |queue| > 0 && Frontier(m, s, queue, seen)
    ensures Flooding(m, s, queue[1..], seen, queue[0], 0)
  {
    hide Open, Nbr, Reaches;
    assert queue == [queue[0]] + queue[1..];
    assert forall p | p != queue[0] && p !in queue[1..] :: p !in queue;
  }

  lemma FloodAdd(m: Maze, s: Pos, queue: seq<Pos>, seen: set<Pos>, c: Pos, i: int)
    requires Flooding(m, s, queue, seen, c, i) && 0 <= i < 4 && Open(m, Nbr(c, i))
    ensures Flooding(m, s, queue + [Nbr(c, i)], seen + {Nbr(c, i)}, c, i + 1)
  {
    ReachStep(m, s, c, i);
    hide Open, Nbr, Reaches;
    var q' := queue + [Nbr(c, i)];
    assert forall p | p !in q' :: p !in queue && p != Nbr(c, i);
  }

  method ConnectivityOK(m: Maze, spawns: seq<Pos>) returns (ok: bool)
    requires spawns != [] ==> InBounds(m, spawns[0].x, spawns[0].y)
    ensures ok <==> spawns != [] && AllReached(m, spawns[0])
  {
    if spawns == [] {
      return false;
    }
    var start := spawns[0];
    var visited, queue := seq(|m.tiles|, _ => 0), [start];
    ghost var seen: map<Pos, nat> := map[];
    MarkOne(m, visited, seen, start, 1, 0);
    visited, seen := visited[Index(m, start) := 1], seen[start := 0];
    ReachRefl(m, start);
    while |queue| > 0
      invariant Marks(m, visited, seen) && Frontier(m, start, queue, seen.Keys)
      decreases AllTiles(m) - seen.Keys, |queue|
    {
      FloodPop(m, start, queue, seen.Keys);
      ghost var seen0 := seen;
      visited, queue, seen := FloodFrom(m, start, queue[0], visited, queue[1..], seen);
      FewerUndiscovered(m, visited, seen0, seen);
    }
    ok := AllMarked(m, start, visited, seen);
  }

  method FloodFrom(m: Maze, ghost start: Pos, c: Pos, visited0: seq<int>, queue0: seq<Pos>, ghost seen0: map<Pos, nat>)
    returns (visited: seq<int>, queue: seq<Pos>, ghost seen: map<Pos, nat>)
    requires Marks(m, visited0, seen0) && Flooding(m, start, queue0, seen0.Keys, c, 0)
    ensures Marks(m, visited, seen) && Frontier(m, start, queue, seen.Keys)
    ensures seen.Keys >= seen0.Keys && (seen.Keys == seen0.Keys ==> queue == queue0)
  {
    visited, queue, seen := visited0, queue0, seen0;
    for i := 0 to 4
      invariant Marks(m, visited, seen) && Flooding(m, start, queue, seen.Keys, c, i)
      invariant seen.Keys >= seen0.Keys && (seen.Keys == seen0.Keys ==> queue == queue0)
    {
      hide Flooding, Marks, Nbr, Open;
      var n := Nbr(c, i);
      if Unseen(m, visited, seen, n) {
        FloodAdd(m, start, queue, seen.Keys, c, i);
        MarkOne(m, visited, seen, n, 1, 0);
        assert seen[n := 0].Keys == seen.Keys + {n};
        visited, queue, seen := visited[Index(m, n) := 1], queue + [n], seen[n := 0];
      } else {
        FloodSkip(m, start, queue, seen.Keys, c, i);
      }
    }
  }

  lemma FloodSkip(m: Maze, s: Pos, queue: seq<Pos>, seen: set<Pos>, c: Pos, i: int)
    requires Flooding(m, s, queue, seen, c, i)
    requires Open(m, Nbr(c, i)) ==> Nbr(c, i) in seen
    ensures Flooding(m, s, queue, seen, c, i + 1)
  {
    hide Open, Nbr, Reaches;
  }

  method AllMarked(m: Maze, start: Pos, visited: seq<int>, ghost seen: map<Pos, nat>) returns (ok: bool)
    requires Marks(m, visited, seen) && Frontier(m, start, [], seen.Keys)
    ensures ok <==> AllReached(m, start)
  {
    assert forall p: Pos | Open(m, p) :: InBounds(m, p.x, p.y);
    hide Open, Marks, Reaches;
    for y := 0 to m.H
      invariant forall p: Pos | Open(m, p) && p.y < y :: p in seen
    {
      for x := 0 to m.W
        invariant forall p: Pos | Open(m, p) && (p.y < y || (p.y == y && p.x < x)) :: p in seen
      {
        if Unseen(m, visited, seen, Pos(x, y)) {
          FloodDone(m, start, seen.Keys, Pos(x, y));
          return false;
        }
      }
    }
    forall p | Open(m, p)
      ensures Reaches(m, start, p)
    {
      FloodDone(m, start, seen.Keys, p);
    }
    return true;
  }
}
