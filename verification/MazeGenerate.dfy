/** One maze generation attempt: carve, place generators, place spawns, check connectivity. */
module MazeGenerate {
  import opened Grid
  import opened PathFinding
  import opened MazeCarve
  import opened Connectivity
  import Physics

  const GEN_CELL_GAP := 2
  const SPAWN_CELL_GAP := 2

  function CellCenter(c: Cell): Pos {
    Pos(c.cx * PITCH + 1 + CORRIDOR / 2, c.cy * PITCH + 1 + CORRIDOR / 2)
  }

  function TileToCell(t: Pos): Cell {
    Cell((t.x - 1) / PITCH, (t.y - 1) / PITCH)
  }

  lemma CenterRoundTrip(c: Cell)
    ensures TileToCell(CellCenter(c)) == c
  {
    assert (PITCH * c.cx + 3) / PITCH == c.cx && (PITCH * c.cy + 3) / PITCH == c.cy;
  }

  function Abs(a: int): nat { if a < 0 then -a else a }

  function Chebyshev(a: Cell, b: Cell): nat {
    var dx, dy := Abs(a.cx - b.cx), Abs(a.cy - b.cy);
    if dx > dy then dx else dy
  }

  // ---- shuffling ----

  /** Fisher-Yates: any outcome, but always a permutation. */
  method ShuffleCells(s: array<Cell>)
    modifies s
    ensures multiset(s[..]) == old(multiset(s[..]))
  {
    var i := s.Length - 1;
    while i > 0
      invariant i < s.Length
      invariant multiset(s[..]) == old(multiset(s[..]))
    {
      var j := IntN(i + 1);
      s[i], s[j] := s[j], s[i];
      i := i - 1;
    }
  }

  method Shuffled(cands: seq<Cell>) returns (r: seq<Cell>)
    ensures multiset(r) == multiset(cands)
    ensures forall c :: c in r <==> c in cands
  {
    var a := new Cell[|cands|](i requires 0 <= i < |cands| => cands[i]);
    assert a[..] == cands;
    ShuffleCells(a);
    r := a[..];
    forall c
      ensures c in r <==> c in cands
    {
      assert c in r <==> c in multiset(r);
      assert c in cands <==> c in multiset(cands);
    }
  }

  // ---- greedy placement ----

  /** Pairwise at least gap cells apart. */
  ghost predicate Spread(cells: seq<Cell>, gap: int) {
    forall i, j | 0 <= i < j < |cells| :: Chebyshev(cells[i], cells[j]) >= gap
  }

  ghost predicate Avoids(cells: seq<Cell>, others: seq<Cell>, gap: int) {
    forall i, j | 0 <= i < |cells| && 0 <= j < |others| :: Chebyshev(cells[i], others[j]) >= gap
  }

  method FarFrom(c: Cell, others: seq<Cell>, gap: int) returns (ok: bool)
    ensures ok <==> forall j | 0 <= j < |others| :: Chebyshev(c, others[j]) >= gap
  {
    for j := 0 to |others|
      invariant forall k | 0 <= k < j :: Chebyshev(c, others[k]) >= gap
    {
      if Chebyshev(c, others[j]) < gap {
        return false;
      }
    }
    return true;
  }

  /** c is too close to an accepted cell or to one of the others. */
  ghost predicate Crowded(c: Cell, accepted: seq<Cell>, gap: int, others: seq<Cell>, otherGap: int) {
    || (exists i | 0 <= i < |accepted| :: Chebyshev(c, accepted[i]) < gap)
    || (exists j | 0 <= j < |others| :: Chebyshev(c, others[j]) < otherGap)
  }

  /**
   Candidates accepted at these places, each only once all before it were accepted or too close to those that were.
   */
  ghost predicate InOrder(cands: seq<Cell>, at: seq<nat>, accepted: seq<Cell>, gap: int, others: seq<Cell>,
                          otherGap: int) {
    && |at| == |accepted| && (forall j | 0 <= j < |at| :: at[j] < |cands| && cands[at[j]] == accepted[j])
    && (forall i, j | 0 <= i < j < |at| :: at[i] < at[j])
    && (forall j | 0 <= j < |at| :: AllCrowded(cands[..at[j]], accepted[..j], gap, others, otherGap))
  }

  ghost predicate AllCrowded(cands: seq<Cell>, accepted: seq<Cell>, gap: int, others: seq<Cell>, otherGap: int) {
    forall c | c in cands :: Crowded(c, accepted, gap, others, otherGap)
  }

  lemma InOrderMore(cands: seq<Cell>, at: seq<nat>, accepted: seq<Cell>, gap: int, others: seq<Cell>, otherGap: int,
                    i: nat)
    requires InOrder(cands, at, accepted, gap, others, otherGap) && i < |cands|
             && (forall j | 0 <= j < |at| :: at[j] < i)
    requires AllCrowded(cands[..i], accepted, gap, others, otherGap)
    ensures InOrder(cands, at + [i], accepted + [cands[i]], gap, others, otherGap)
  {
    hide AllCrowded;
    var at', accepted' := at + [i], accepted + [cands[i]];
    forall j | 0 <= j < |at'|
      ensures AllCrowded(cands[..at'[j]], accepted'[..j], gap, others, otherGap)
    {
      if j < |at| { assert accepted'[..j] == accepted[..j]; } else { assert accepted'[..j] == accepted; }
    }
  }

  /** Take candidates in order while they keep their distances; stops short of target only when no candidate is left. */
  method Greedy(cands: seq<Cell>, gap: int, others: seq<Cell>, otherGap: int, target: nat)
    returns (accepted: seq<Cell>, ghost at: seq<nat>)
    requires target > 0 && gap > 0
    ensures |accepted| <= target
    ensures Spread(accepted, gap) && Avoids(accepted, others, otherGap)
    ensures forall i | 0 <= i < |accepted| :: accepted[i] in cands
    ensures |accepted| < target ==> forall c | c in cands :: Crowded(c, accepted, gap, others, otherGap)
    ensures InOrder(cands, at, accepted, gap, others, otherGap)
  {
    accepted, at := [], [];
    assert Spread(accepted, gap) && Avoids(accepted, others, otherGap);
    assert InOrder(cands, at, accepted, gap, others, otherGap);
    hide Chebyshev, Crowded, Spread, Avoids, InOrder;
    for i := 0 to |cands|
      invariant |accepted| < target
      invariant Spread(accepted, gap) && Avoids(accepted, others, otherGap)
      invariant forall k | 0 <= k < |accepted| :: accepted[k] in cands
      invariant forall k | 0 <= k < i :: Crowded(cands[k], accepted, gap, others, otherGap)
      invariant InOrder(cands, at, accepted, gap, others, otherGap) && forall j | 0 <= j < |at| :: at[j] < i
    {
      var c := cands[i];
      var apart := FarFrom(c, accepted, gap);
      var clear := FarFrom(c, others, otherGap);
      CrowdedIs(c, accepted, gap, others, otherGap);
      if apart && clear {
        SpreadMore(accepted, c, gap);
        AvoidsMore(accepted, c, others, otherGap);
        ghost var before := accepted;
        assert AllCrowded(cands[..i], accepted, gap, others, otherGap);
        InOrderMore(cands, at, accepted, gap, others, otherGap, i);
        accepted, at := accepted + [c], at + [i];
        TakenCrowds(c, before, gap, others, otherGap);
        forall k | 0 <= k < i
          ensures Crowded(cands[k], accepted, gap, others, otherGap)
        {
          CrowdedMore(cands[k], before, c, gap, others, otherGap);
        }
        if |accepted| == target {
          return;
        }
      }
    }
  }

  lemma CrowdedIs(c: Cell, accepted: seq<Cell>, gap: int, others: seq<Cell>, otherGap: int)
    ensures Crowded(c, accepted, gap, others, otherGap)
            <==> !((forall j | 0 <= j < |accepted| :: Chebyshev(c, accepted[j]) >= gap)
                   && (forall j | 0 <= j < |others| :: Chebyshev(c, others[j]) >= otherGap))
  {
  }

  lemma TakenCrowds(c: Cell, accepted: seq<Cell>, gap: int, others: seq<Cell>, otherGap: int)
    requires gap > 0
    ensures Crowded(c, accepted + [c], gap, others, otherGap)
  {
    assert (accepted + [c])[|accepted|] == c && Chebyshev(c, c) == 0;
  }

  lemma AvoidsMore(cells: seq<Cell>, c: Cell, others: seq<Cell>, gap: int)
    requires Avoids(cells, others, gap) && forall j | 0 <= j < |others| :: Chebyshev(c, others[j]) >= gap
    ensures Avoids(cells + [c], others, gap)
  {
  }

  lemma SpreadMore(accepted: seq<Cell>, c: Cell, gap: int)
    requires Spread(accepted, gap) && forall j | 0 <= j < |accepted| :: Chebyshev(c, accepted[j]) >= gap
    ensures Spread(accepted + [c], gap)
  {
    var more := accepted + [c];
    forall i, j | 0 <= i < j < |more|
      ensures Chebyshev(more[i], more[j]) >= gap
    {
      if j == |accepted| { assert Chebyshev(c, accepted[i]) >= gap; }
    }
  }

  lemma CrowdedMore(c: Cell, accepted: seq<Cell>, d: Cell, gap: int, others: seq<Cell>, otherGap: int)
    requires Crowded(c, accepted, gap, others, otherGap)
    ensures Crowded(c, accepted + [d], gap, others, otherGap)
  {
    if i :| 0 <= i < |accepted| && Chebyshev(c, accepted[i]) < gap {
      assert (accepted + [d])[i] == accepted[i];
    }
  }

  function Centers(cells: seq<Cell>): seq<Pos> {
    seq(|cells|, i requires 0 <= i < |cells| => CellCenter(cells[i]))
  }

  predicate Interior(g: Size, c: Cell) {
    if g.nx >= 3 && g.ny >= 3 then 1 <= c.cx <= g.nx - 2 && 1 <= c.cy <= g.ny - 2 else InGrid(g, c)
  }

  method CellsWhere(g: Size, which: Cell -> bool) returns (cands: seq<Cell>)
    ensures forall c :: c in cands <==> InGrid(g, c) && which(c)
  {
    cands := [];
    for cy := 0 to g.ny
      invariant forall c :: c in cands <==> InGrid(g, c) && which(c) && c.cy < cy
    {
      for cx := 0 to g.nx
        invariant forall c :: c in cands <==> InGrid(g, c) && which(c) && (c.cy < cy || (c.cy == cy && c.cx < cx))
      {
        if which(Cell(cx, cy)) {
          cands := cands + [Cell(cx, cy)];
        }
      }
    }
  }

  /**
   Generators: interior cell centres at least two cells apart, or none when the greedy choice is stuck short of count.
   */
  method PlaceGenerators(g: Size, count: nat) returns (gens: seq<Cell>, ok: bool)
    ensures ok ==> |gens| == count && Spread(gens, 2)
    ensures ok ==> forall i | 0 <= i < |gens| :: InGrid(g, gens[i]) && Interior(g, gens[i])
    ensures !ok ==> exists stuck: seq<Cell> ::
              && |stuck| < count && Spread(stuck, 2)
              && (forall c | InGrid(g, c) && Interior(g, c) :: Crowded(c, stuck, 2, [], 0))
  {
    if count == 0 {
      return [], true;
    }
    var cands := CellsWhere(g, c => Interior(g, c));
    cands := Shuffled(cands);
    ghost var at;
    gens, at := Greedy(cands, GEN_CELL_GAP, [], 0, count);
    ok := |gens| == count;
  }

  predicate OnRing(g: Size, c: Cell) {
    c.cx == 0 || c.cy == 0 || c.cx == g.nx - 1 || c.cy == g.ny - 1
  }

  /** Ring cells come first, and an inner one only when no ring cell is left that keeps its distances. */
  ghost predicate RingFirst(g: Size, cells: seq<Cell>, gens: seq<Cell>, genGap: int) {
    exists k: nat :: RingUpTo(g, cells, gens, genGap, k)
  }

  ghost predicate RingUpTo(g: Size, cells: seq<Cell>, gens: seq<Cell>, genGap: int, k: nat) {
    && k <= |cells| && (forall i | 0 <= i < |cells| :: OnRing(g, cells[i]) <==> i < k)
    && (k < |cells| ==> forall c | InGrid(g, c) && OnRing(g, c) :: Crowded(c, cells[..k], SPAWN_CELL_GAP, gens, genGap))
  }

  /** Not even all the players find a place two cells from every generator, whichever cells are tried after these. */
  ghost predicate StrictStuck(g: Size, playerCount: nat, gens: seq<Cell>, genGap: int) {
    exists stuck: seq<Cell> :: |stuck| < playerCount && Spread(stuck, SPAWN_CELL_GAP) && Avoids(stuck, gens, genGap)
                               && forall c | InGrid(g, c) :: Crowded(c, stuck, SPAWN_CELL_GAP, gens, genGap)
  }

  lemma RingPrefix(g: Size, cands: seq<Cell>, ring: nat, at: seq<nat>, accepted: seq<Cell>, gens: seq<Cell>,
                   genGap: int)
    requires InOrder(cands, at, accepted, SPAWN_CELL_GAP, gens, genGap) && ring <= |cands|
    requires forall i | 0 <= i < |cands| :: OnRing(g, cands[i]) <==> i < ring
    requires forall c | InGrid(g, c) :: c in cands
    ensures RingFirst(g, accepted, gens, genGap)
  {
    hide Crowded;
    var k: nat := 0;
    while k < |at| && at[k] < ring
      invariant k <= |at| && forall j | 0 <= j < k :: at[j] < ring
    {
      k := k + 1;
    }
    if k < |at| {
      forall c | InGrid(g, c) && OnRing(g, c)
        ensures Crowded(c, accepted[..k], SPAWN_CELL_GAP, gens, genGap)
      {
        var i :| 0 <= i < |cands| && cands[i] == c;
        assert c == cands[..at[k]][i];
        assert AllCrowded(cands[..at[k]], accepted[..k], SPAWN_CELL_GAP, gens, genGap);
      }
      assert forall j | k <= j < |at| :: at[j] >= at[k];
    }
    assert RingUpTo(g, accepted, gens, genGap, k);
  }

  /**
   One greedy choice: what is taken keeps its distances, ring cells first, and less than asked for means nothing more
   fits.
   */
  method ChooseSpawns(g: Size, cands: seq<Cell>, ghost ring: nat, gens: seq<Cell>, genGap: int, target: nat)
    returns (out: seq<Cell>)
    requires target > 0 && ring <= |cands| && (forall i | 0 <= i < |cands| :: OnRing(g, cands[i]) <==> i < ring)
    requires forall c :: c in cands <==> InGrid(g, c)
    ensures |out| <= target && Spread(out, SPAWN_CELL_GAP) && Avoids(out, gens, genGap)
            && RingFirst(g, out, gens, genGap)
    ensures forall i | 0 <= i < |out| :: InGrid(g, out[i])
    ensures |out| < target ==> forall c | InGrid(g, c) :: Crowded(c, out, SPAWN_CELL_GAP, gens, genGap)
  {
    ghost var at;
    out, at := Greedy(cands, SPAWN_CELL_GAP, gens, genGap, target);
    RingPrefix(g, cands, ring, at, out, gens, genGap);
    hide Spread, Avoids, Crowded, InOrder, RingFirst;
  }

  /** The spawns are two cells from every generator or, only if that is impossible, in none's cell; ring cells first. */
  ghost predicate SpawnsApart(g: Size, cells: seq<Cell>, playerCount: nat, gens: seq<Cell>) {
    || (Avoids(cells, gens, SPAWN_CELL_GAP) && RingFirst(g, cells, gens, SPAWN_CELL_GAP))
    || (RingFirst(g, cells, gens, 1) && StrictStuck(g, playerCount, gens, SPAWN_CELL_GAP))
  }

  /**
   Spawns: cell centres at least two cells apart, ring cells first, two cells from every generator or, only if the
   greedy choice is stuck short of the players, merely never in a generator's cell; up to two spares.
   */
  method PlacePlayerSpawns(g: Size, playerCount: nat, gens: seq<Cell>)
    returns (spawns: seq<Cell>, extras: seq<Cell>, ok: bool)
    ensures ok ==> |spawns| == playerCount && |extras| <= 2
    ensures ok ==> Spread(spawns + extras, 2) && Avoids(spawns + extras, gens, 1)
    ensures ok ==> SpawnsApart(g, spawns + extras, playerCount, gens)
    ensures ok ==> forall i | 0 <= i < |spawns + extras| :: InGrid(g, (spawns + extras)[i])
    ensures !ok ==> StrictStuck(g, playerCount, gens, 2) && StrictStuck(g, playerCount, gens, 1)
  {
    var cands, ring := SpawnCandidates(g);
    hide Spread, Avoids, Crowded, InGrid, RingFirst;
    var out := ChooseSpawns(g, cands, ring, gens, SPAWN_CELL_GAP, playerCount + 2);
    AvoidsLess(out, gens, SPAWN_CELL_GAP, 1);
    if |out| < playerCount {
      assert StrictStuck(g, playerCount, gens, SPAWN_CELL_GAP);
      out := ChooseSpawns(g, cands, ring, gens, 1, playerCount + 2);
      if |out| < playerCount {
        return [], [], false;
      }
    }
    spawns, extras, ok := out[..playerCount], out[playerCount..], true;
    assert spawns + extras == out;
  }

  lemma AvoidsLess(cells: seq<Cell>, others: seq<Cell>, gap: int, less: int)
    requires Avoids(cells, others, gap) && less <= gap
    ensures Avoids(cells, others, less)
  {
  }

  /** All cells, the perimeter ring first, each part in random order. */
  method SpawnCandidates(g: Size) returns (cands: seq<Cell>, ghost onRing: nat)
    ensures forall c :: c in cands <==> InGrid(g, c)
    ensures onRing <= |cands| && forall i | 0 <= i < |cands| :: OnRing(g, cands[i]) <==> i < onRing
  {
    var ring := CellsWhere(g, c => OnRing(g, c));
    var inner := CellsWhere(g, c => !OnRing(g, c));
    ring := Shuffled(ring);
    inner := Shuffled(inner);
    cands, onRing := ring + inner, |ring|;
    assert forall i | 0 <= i < |ring| :: ring[i] in ring;
    assert forall i | 0 <= i < |inner| :: inner[i] in inner;
  }

  // ---- a whole attempt ----

  datatype Failure = TooSmall | NoRoomForGenerators | NoRoomForSpawns | Disconnected

  datatype Attempt =
    | Made(maze: Maze, spawns: seq<Cell>, extras: seq<Cell>, gens: seq<Cell>)
    | Failed(why: Failure)

  function GridOf(w: nat, h: nat): Size {
    Size(if w == 0 then 0 else (w - 1) / PITCH, if h == 0 then 0 else (h - 1) / PITCH)
  }

  function MaxOf(a: int, b: int): int { if a > b then a else b }
  function MinOf(a: int, b: int): int { if a < b then a else b }

  function GeneratorCount(playerCount: nat, g: Size, noGen: bool): nat {
    if noGen then 0
    else
      var genCap := MaxOf(2, MaxOf(0, g.nx - 2) * MaxOf(0, g.ny - 2) / 4);
      MaxOf(2, MinOf(MaxOf(2, playerCount) + 1, genCap))
  }

  /** m differs from m0 only by markers on floor. */
  ghost predicate MarkedOnly(m0: Maze, m: Maze) {
    m.W == m0.W && m.H == m0.H && forall x, y :: IsWall(m, x, y) <==> IsWall(m0, x, y)
  }

  lemma {:induction false} SameWalks(m0: Maze, m: Maze, a: Pos, b: Pos, k: nat)
    requires MarkedOnly(m0, m) && Walk(m0, a, b, k)
    ensures Walk(m, a, b, k)
    decreases k
  {
    if k > 0 {
      var i :| 0 <= i < 4 && Walk(m0, a, Nbr(b, i), k - 1);
      SameWalks(m0, m, a, Nbr(b, i), k - 1);
      assert IsWall(m, b.x, b.y) <==> IsWall(m0, b.x, b.y);
    }
  }

  /** (x, y) is the centre of one of the cells. */
  ghost predicate CenterOf(cells: seq<Cell>, x: int, y: int) {
    exists i | 0 <= i < |cells| :: CellCenter(cells[i]) == Pos(x, y)
  }

  lemma CenterOfMore(cells: seq<Cell>, c: Cell, x: int, y: int)
    ensures CenterOf(cells + [c], x, y) <==> CenterOf(cells, x, y) || CellCenter(c) == Pos(x, y)
  {
    hide CellCenter;
    var more := cells + [c];
    assert more[|cells|] == c && forall i | 0 <= i < |cells| :: more[i] == cells[i];
  }

  /** m is m0 with marker t on the centre of each of the cells. */
  ghost predicate Stamped(m0: Maze, m: Maze, cells: seq<Cell>, t: Tile) {
    && m.W == m0.W && m.H == m0.H
    && (forall x, y :: At(m, x, y) == if CenterOf(cells, x, y) then t else At(m0, x, y))
  }

  /** The centre of a grid cell is on the board. */
  lemma CenterOnBoard(b: Board, g: Size, c: Cell)
    requires Fits(b, g) && InGrid(g, c)
    ensures 0 <= CellCenter(c).x < b.W && 0 <= CellCenter(c).y < b.H
  {
  }

  method Stamp(b: Board, g: Size, cells: seq<Cell>, t: Tile)
    requires Fits(b, g) && forall i | 0 <= i < |cells| :: InGrid(g, cells[i])
    modifies b.tiles
    ensures Stamped(old(b.View()), b.View(), cells, t)
  {
    ghost var m0 := b.View();
    hide CenterOf;
    assert Stamped(m0, b.View(), cells[..0], t) by { NoCenters(); }
    for i := 0 to |cells|
      invariant Stamped(m0, b.View(), cells[..i], t)
    {
      CenterOnBoard(b, g, cells[i]);
      var p := CellCenter(cells[i]);
      b.Set(p.x, p.y, t);
      assert cells[..i + 1] == cells[..i] + [cells[i]];
      forall x, y
        ensures CenterOf(cells[..i + 1], x, y) <==> CenterOf(cells[..i], x, y) || p == Pos(x, y)
      {
        CenterOfMore(cells[..i], cells[i], x, y);
      }
    }
    assert cells[..|cells|] == cells;
  }

  lemma NoCenters()
    ensures forall x, y :: !CenterOf([], x, y)
  {
  }

  /** Stamping markers over floor leaves every wall and every walk as it was. */
  lemma StampKeepsWalls(g: Size, m0: Maze, m: Maze, cells: seq<Cell>, t: Tile)
    requires Stamped(m0, m, cells, t) && t != Wall
    requires forall i | 0 <= i < |cells| :: InGrid(g, cells[i])
    requires forall c: Cell | InGrid(g, c) :: !IsWall(m0, CellCenter(c).x, CellCenter(c).y)
    ensures MarkedOnly(m0, m)
    ensures forall c: Cell | InGrid(g, c) :: !IsWall(m, CellCenter(c).x, CellCenter(c).y)
  {
    hide CellCenter;
    forall x, y
      ensures IsWall(m, x, y) <==> IsWall(m0, x, y)
    {
      if CenterOf(cells, x, y) {
        var i :| 0 <= i < |cells| && CellCenter(cells[i]) == Pos(x, y);
        assert InGrid(g, cells[i]);
      }
    }
  }

  /** The centres of a carved maze are floor. */
  lemma CentersOpen(g: Size, m: Maze, links: set<Link>, tree: set<Link>, root: Cell)
    requires Spanned(g, m, links, tree, root)
    ensures forall c: Cell | InGrid(g, c) :: !IsWall(m, CellCenter(c).x, CellCenter(c).y)
  {
    forall c: Cell | InGrid(g, c)
      ensures !IsWall(m, CellCenter(c).x, CellCenter(c).y)
    {
      InAllCells(g, c);
      BlockOpen(m, AllCells(g), links, c, CellCenter(c));
    }
  }

  lemma SameShape(m0: Maze, m: Maze)
    requires MarkedOnly(m0, m) && Physics.WideShape(Physics.AlongX(m0))
    ensures Physics.WideShape(Physics.AlongX(m))
  {
    var w0, w := Physics.AlongX(m0), Physics.AlongX(m);
    assert forall c, r :: w(c, r) == w0(c, r);
    assert forall c, r :: Physics.Transposed(w)(c, r) == Physics.Transposed(w0)(c, r);
  }

  /** Marking a carved maze keeps all of its floor connected. */
  lemma StillConnected(g: Size, m0: Maze, m: Maze, links: set<Link>, tree: set<Link>, root: Cell, s: Pos)
    requires Spanned(g, m0, links, tree, root) && MarkedOnly(m0, m) && Open(m, s)
    ensures AllReached(m, s)
  {
    forall p: Pos | Open(m, p)
      ensures Reaches(m, s, p)
    {
      assert IsWall(m, p.x, p.y) <==> IsWall(m0, p.x, p.y);
      assert IsWall(m, s.x, s.y) <==> IsWall(m0, s.x, s.y);
      FloorConnected(g, m0, links, tree, root, s, p);
      var k: nat :| Walk(m0, s, p, k);
      SameWalks(m0, m, s, p, k);
    }
  }

  /** What every generated maze is. */
  ghost predicate WellMade(g: Size, a: Attempt, playerCount: nat)
    requires a.Made?
  {
    && Physics.WideShape(Physics.AlongX(a.maze))
    && |a.spawns| == playerCount
    && Spread(a.gens, GEN_CELL_GAP) && Spread(a.spawns + a.extras, SPAWN_CELL_GAP)
    && Avoids(a.spawns + a.extras, a.gens, 1) && SpawnsApart(g, a.spawns + a.extras, playerCount, a.gens)
    && (forall i | 0 <= i < |a.gens| :: InGrid(g, a.gens[i]) && Interior(g, a.gens[i]))
    && (forall i | 0 <= i < |a.spawns + a.extras| :: InGrid(g, (a.spawns + a.extras)[i]))
    && (forall c: Cell | InGrid(g, c) :: !IsWall(a.maze, CellCenter(c).x, CellCenter(c).y))
    && (forall x, y :: At(a.maze, x, y) == SpawnPlayer <==> CenterOf(a.spawns + a.extras, x, y))
    && (forall x, y :: At(a.maze, x, y) == SpawnGenerator <==> CenterOf(a.gens, x, y))
    && (forall p, q | Open(a.maze, p) && Open(a.maze, q) :: Reaches(a.maze, p, q))
  }

  /** Distinct cells have distinct centres, so no spawn marker covers a generator marker. */
  lemma NoSharedCenter(cells: seq<Cell>, gens: seq<Cell>, x: int, y: int)
    requires Avoids(cells, gens, 1)
    ensures !(CenterOf(cells, x, y) && CenterOf(gens, x, y))
  {
    forall i, j | 0 <= i < |cells| && 0 <= j < |gens|
      ensures CellCenter(cells[i]) != CellCenter(gens[j])
    {
      CenterRoundTrip(cells[i]);
      CenterRoundTrip(gens[j]);
      assert Chebyshev(cells[i], gens[j]) >= 1;
    }
  }

  lemma MarkersExact(m0: Maze, m1: Maze, m: Maze, gens: seq<Cell>, cells: seq<Cell>)
    requires forall x, y :: At(m0, x, y) == Floor || At(m0, x, y) == Wall
    requires Stamped(m0, m1, gens, SpawnGenerator) && Stamped(m1, m, cells, SpawnPlayer)
    requires Avoids(cells, gens, 1)
    ensures forall x, y :: At(m, x, y) == SpawnPlayer <==> CenterOf(cells, x, y)
    ensures forall x, y :: At(m, x, y) == SpawnGenerator <==> CenterOf(gens, x, y)
  {
    hide CenterOf, Avoids;
    forall x, y
      ensures At(m, x, y) == SpawnPlayer <==> CenterOf(cells, x, y)
      ensures At(m, x, y) == SpawnGenerator <==> CenterOf(gens, x, y)
    {
      NoSharedCenter(cells, gens, x, y);
    }
  }

  lemma CarvedPlain(m: Maze, cells: set<Cell>, links: set<Link>)
    requires Carved(m, cells, links)
    ensures forall x, y :: At(m, x, y) == Floor || At(m, x, y) == Wall
  {
    forall x, y
      ensures At(m, x, y) == Floor || At(m, x, y) == Wall
    {
      assert At(m, x, y) == TileOf(cells, links, x, y);
    }
  }

  /** Everything the finished maze owes, from the carve and the two stampings. */
  lemma Finished(g: Size, m0: Maze, m1: Maze, a: Attempt, playerCount: nat, links: set<Link>, tree: set<Link>,
                 root: Cell)
    requires a.Made? && Spanned(g, m0, links, tree, root) && Physics.WideShape(Physics.AlongX(m0))
    requires Stamped(m0, m1, a.gens, SpawnGenerator) && Stamped(m1, a.maze, a.spawns + a.extras, SpawnPlayer)
    requires |a.spawns| == playerCount
    requires Spread(a.gens, GEN_CELL_GAP) && Spread(a.spawns + a.extras, SPAWN_CELL_GAP)
    requires Avoids(a.spawns + a.extras, a.gens, 1) && SpawnsApart(g, a.spawns + a.extras, playerCount, a.gens)
    requires forall i | 0 <= i < |a.gens| :: InGrid(g, a.gens[i]) && Interior(g, a.gens[i])
    requires forall i | 0 <= i < |a.spawns + a.extras| :: InGrid(g, (a.spawns + a.extras)[i])
    ensures WellMade(g, a, playerCount)
  {
    hide Spread, Avoids, SpawnsApart, Interior, CenterOf, Stamped, Spanned, InGrid, CellCenter, Open, Reaches;
    CentersOpen(g, m0, links, tree, root);
    StampKeepsWalls(g, m0, m1, a.gens, SpawnGenerator);
    StampKeepsWalls(g, m1, a.maze, a.spawns + a.extras, SpawnPlayer);
    assert MarkedOnly(m0, a.maze);
    hide MarkedOnly;
    SameShape(m0, a.maze);
    assert Carved(m0, AllCells(g), links) by { SpannedIsCarved(g, m0, links, tree, root); }
    CarvedPlain(m0, AllCells(g), links);
    MarkersExact(m0, m1, a.maze, a.gens, a.spawns + a.extras);
    forall p, q | Open(a.maze, p) && Open(a.maze, q)
      ensures Reaches(a.maze, p, q)
    {
      StillConnected(g, m0, a.maze, links, tree, root, p);
      Reached(a.maze, p, q);
    }
  }

  lemma SpannedIsCarved(g: Size, m: Maze, links: set<Link>, tree: set<Link>, root: Cell)
    requires Spanned(g, m, links, tree, root)
    ensures Carved(m, AllCells(g), links)
  {
  }

  lemma Reached(m: Maze, p: Pos, q: Pos)
    requires AllReached(m, p) && Open(m, q)
    ensures Reaches(m, p, q)
  {
  }

  /**
   One attempt. A map of at least two by two cells fails only for want of room to place generators or spawns: the
   connectivity check never sends it back.
   */
  method GenerateOnce(w: nat, h: nat, playerCount: nat, noGenerators: bool) returns (a: Attempt)
    requires playerCount > 0
    ensures a.Made? ==> WellMade(GridOf(w, h), a, playerCount) && a.maze.W == w && a.maze.H == h
    ensures a.Made? ==> |a.gens| == GeneratorCount(playerCount, GridOf(w, h), noGenerators) && |a.extras| <= 2
    ensures a != Failed(Disconnected)
    ensures a == Failed(TooSmall) <==> GridOf(w, h).nx < 2 || GridOf(w, h).ny < 2
  {
    var g := GridOf(w, h);
    var b := new Board(w, h);
    if g.nx < 2 || g.ny < 2 {
      return Failed(TooSmall);
    }
    ghost var links, tree, root := CarveWideMaze(b, g);
    ghost var m0 := b.View();
    var gens, okG := PlaceGenerators(g, GeneratorCount(playerCount, g, noGenerators));
    if !okG {
      return Failed(NoRoomForGenerators);
    }
    Stamp(b, g, gens, SpawnGenerator);
    ghost var m1 := b.View();
    var spawns, extras, okS := PlacePlayerSpawns(g, playerCount, gens);
    if !okS {
      return Failed(NoRoomForSpawns);
    }
    Stamp(b, g, spawns + extras, SpawnPlayer);
    a := Made(b.View(), spawns, extras, gens);
    Finished(g, m0, m1, a, playerCount, links, tree, root);
    var first := SpawnTile(g, a, playerCount);
    var ok := ConnectivityOK(a.maze, Centers(spawns));
    if !ok {
      return Failed(Disconnected);
    }
  }

  /** The first spawn, an open tile of the map. */
  method SpawnTile(ghost g: Size, a: Attempt, ghost playerCount: nat) returns (p: Pos)
    requires a.Made? && WellMade(g, a, playerCount) && |a.spawns| > 0
    ensures p == CellCenter(a.spawns[0]) == Centers(a.spawns)[0] && Open(a.maze, p)
  {
    assert (a.spawns + a.extras)[0] == a.spawns[0];
    p := CellCenter(a.spawns[0]);
  }

  const MAX_ATTEMPTS := 4

  /** Up to four attempts, each on its own draws. */
  method GenerateMaze(w: nat, h: nat, playerCount: nat, noGenerators: bool) returns (a: Attempt)
    requires playerCount > 0
    ensures a.Made? ==> WellMade(GridOf(w, h), a, playerCount) && a.maze.W == w && a.maze.H == h
    ensures a.Made? ==> |a.gens| == GeneratorCount(playerCount, GridOf(w, h), noGenerators)
    ensures a != Failed(Disconnected)
  {
    a := GenerateOnce(w, h, playerCount, noGenerators);
    for attempt := 1 to MAX_ATTEMPTS
      invariant a.Made? ==> WellMade(GridOf(w, h), a, playerCount) && a.maze.W == w && a.maze.H == h
      invariant a.Made? ==> |a.gens| == GeneratorCount(playerCount, GridOf(w, h), noGenerators)
      invariant a != Failed(Disconnected)
    {
      if a.Made? {
        return;
      }
      a := GenerateOnce(w, h, playerCount, noGenerators);
    }
  }

  // ---- the generators and spawns as boxes ----

  function GeneratorBoxes(gens: seq<Cell>): seq<Physics.Box> {
    seq(|gens|, i requires 0 <= i < |gens| => Physics.GeneratorAt(gens[i].cx, gens[i].cy))
  }

  /** Placed generators meet the layout that movement relies on. */
  lemma PlacedLayout(gens: seq<Cell>)
    requires Spread(gens, GEN_CELL_GAP)
    ensures Physics.Layout(GeneratorBoxes(gens))
  {
    var boxes := GeneratorBoxes(gens);
    assert forall i | 0 <= i < |boxes| :: boxes[i] == Physics.GeneratorAt(gens[i].cx, gens[i].cy);
    forall i, j | 0 <= i < j < |boxes|
      ensures Physics.Apart(boxes[i], boxes[j])
    {
      assert Chebyshev(gens[i], gens[j]) >= 2;
    }
  }

  /** A player standing on a spawn touches no wall and no generator. */
  lemma SpawnFree(g: Size, a: Attempt, playerCount: nat, i: int)
    requires a.Made? && WellMade(g, a, playerCount) && 0 <= i < |a.spawns + a.extras|
    ensures var c := (a.spawns + a.extras)[i];
            var p := Physics.GeneratorAt(c.cx, c.cy);
            && p.cx == CellCenter(c).x * SUBTILE + SUBTILE / 2 && p.cy == CellCenter(c).y * SUBTILE + SUBTILE / 2
            && Physics.Free(Physics.AlongX(a.maze), p.cx, p.cy, 256)
            && Physics.Clear(p, GeneratorBoxes(a.gens))
  {
    var c := (a.spawns + a.extras)[i];
    var p := Physics.GeneratorAt(c.cx, c.cy);
    CenterFree(a.maze, c);
    forall j | 0 <= j < |a.gens|
      ensures !Physics.Overlaps(p, GeneratorBoxes(a.gens)[j])
    {
      assert Chebyshev(c, a.gens[j]) >= 1;
    }
  }

  /** A two-tile box on the centre of a cell with an open centre lies inside the cell. */
  lemma CenterFree(m: Maze, c: Cell)
    requires Physics.WideShape(Physics.AlongX(m)) && !IsWall(m, CellCenter(c).x, CellCenter(c).y)
    ensures Physics.Free(Physics.AlongX(m), Physics.CellMid(c.cx), Physics.CellMid(c.cy), 256)
  {
    var w := Physics.AlongX(m);
    var t := Physics.Transposed(w);
    var o := CellCenter(c);
    forall x, y | PITCH * c.cx + 1 <= x <= PITCH * c.cx + 6 && PITCH * c.cy + 1 <= y <= PITCH * c.cy + 6
      ensures !w(x, y)
    {
      assert x / PITCH == c.cx == o.x / PITCH && y / PITCH == c.cy == o.y / PITCH;
      assert w(x, o.y) == w(o.x, o.y);
      assert t(y, x) == t(o.y, x);
    }
  }
}
