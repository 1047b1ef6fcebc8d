/** Breadth-first search over open tiles: the next tile on a shortest path. */
module PathFinding {
  import opened Grid

  datatype Pos = Pos(x: int, y: int)

  /** The four neighbours in the order the search tries them: north, east, south, west. */
  function Nbr(p: Pos, i: int): Pos {
    if i == 0 then Pos(p.x, p.y - 1)
    else if i == 1 then Pos(p.x + 1, p.y)
    else if i == 2 then Pos(p.x, p.y + 1)
    else Pos(p.x - 1, p.y)
  }

  predicate Open(m: Maze, p: Pos) {
    InBounds(m, p.x, p.y) && !IsWall(m, p.x, p.y)
  }

  /** A walk of k steps from a to b; every tile after a is open. */
  ghost predicate Walk(m: Maze, a: Pos, b: Pos, k: nat)
    decreases k
  {
    if k == 0 then a == b
    else Open(m, b) && exists i | 0 <= i < 4 :: Walk(m, a, Nbr(b, i), k - 1)
  }

  ghost predicate AtDistance(m: Maze, a: Pos, b: Pos, d: nat) {
    Walk(m, a, b, d) && forall j: nat | j < d :: !Walk(m, a, b, j)
  }

  /** Going from s through its i-th neighbour reaches v in k steps. */
  ghost predicate Via(m: Maze, s: Pos, v: Pos, k: nat, i: int)
    requires k > 0
  {
    Open(m, Nbr(s, i)) && Walk(m, Nbr(s, i), v, k - 1)
  }

  /** i is the first neighbour of s, in search order, that starts a k-step walk to v. */
  ghost predicate FirstHop(m: Maze, s: Pos, v: Pos, k: nat, i: int)
    requires k > 0
  {
    0 <= i < 4 && Via(m, s, v, k, i) && forall i' | 0 <= i' < i :: !Via(m, s, v, k, i')
  }

  function Limit(maxDepth: int): nat { if maxDepth < 1 then 1 else maxDepth }

  // ---- walks ----

  lemma NbrBack(p: Pos, i: int)
    requires 0 <= i < 4
    ensures exists j | 0 <= j < 4 :: Nbr(Nbr(p, i), j) == p
  {
    assert Nbr(Nbr(p, i), (i + 2) % 4) == p;
  }

  lemma WalkStep(m: Maze, a: Pos, b: Pos, k: nat, i: int)
    requires Walk(m, a, b, k) && 0 <= i < 4 && Open(m, Nbr(b, i))
    ensures Walk(m, a, Nbr(b, i), k + 1)
  {
    hide Open;
    NbrBack(b, i);
    var j :| 0 <= j < 4 && Nbr(Nbr(b, i), j) == b;
  }

  lemma {:induction false} ViaWalk(m: Maze, s: Pos, v: Pos, k: nat, i: int)
    requires k > 0 && 0 <= i < 4 && Via(m, s, v, k, i)
    ensures Walk(m, s, v, k)
    decreases k
  {
    hide Open;
    if k == 1 {
      assert Walk(m, s, s, 0);
      WalkStep(m, s, s, 0, i);
    } else {
      var j :| 0 <= j < 4 && Walk(m, Nbr(s, i), Nbr(v, j), k - 2);
      ViaWalk(m, s, Nbr(v, j), k - 1, i);
    }
  }

  // ---- the search state ----

  datatype Entry = Entry(p: Pos, depth: nat, first: int)

  /** Entries leave the queue by depth, and within a depth by first hop; a child is never ahead of a later parent. */
  predicate InOrder(a: Entry, b: Entry) {
    && a.depth <= b.depth <= a.depth + 1
    && (a.depth == b.depth ==> a.first <= b.first)
    && (a.depth < b.depth ==> b.first <= a.first)
  }

  /** What is known of a discovered tile v, at dist[v] steps with recorded first hop. */
  ghost predicate Known(m: Maze, s: Pos, dist: map<Pos, nat>, hop: map<Pos, int>) {
    && s in dist && dist[s] == 0
    && hop.Keys == dist.Keys - {s}
    && (forall v | v in dist :: AtDistance(m, s, v, dist[v]))
    && (forall v | v in hop :: dist[v] > 0 && FirstHop(m, s, v, dist[v], hop[v]))
  }

  ghost predicate Queued(queue: seq<Entry>, dist: map<Pos, nat>, hop: map<Pos, int>) {
    && (forall i | 0 <= i < |queue| :: queue[i].p in hop && queue[i].p in dist
                                       && queue[i].depth == dist[queue[i].p] && queue[i].first == hop[queue[i].p])
    && (forall i, j | 0 <= i < j < |queue| :: InOrder(queue[i], queue[j]))
  }

  predicate Waiting(queue: seq<Entry>, v: Pos) {
    exists i | 0 <= i < |queue| :: queue[i].p == v
  }

  /** Every tile below the limit that has left the queue (but for `busy`) has all its open neighbours discovered. */
  ghost predicate Expanded(m: Maze, queue: seq<Entry>, dist: map<Pos, nat>, limit: nat, busy: Pos) {
    forall v, i | v in dist && dist[v] < limit && v != busy && !Waiting(queue, v) && 0 <= i < 4 && Open(m, Nbr(v, i))
      :: Nbr(v, i) in dist
  }

  lemma Shortest(m: Maze, s: Pos, u: Pos, d: nat, j: nat)
    requires AtDistance(m, s, u, d) && Walk(m, s, u, j)
    ensures d <= j
  {
  }

  /** The last step of a walk comes from a neighbour that leads back to its end. */
  lemma LastStep(m: Maze, a: Pos, v: Pos, j: nat) returns (u: Pos, b: int)
    requires j > 0 && Walk(m, a, v, j)
    ensures Open(m, v) && Walk(m, a, u, j - 1) && 0 <= b < 4 && Nbr(u, b) == v
  {
    hide Open;
    var i :| 0 <= i < 4 && Walk(m, a, Nbr(v, i), j - 1);
    u := Nbr(v, i);
    NbrBack(v, i);
    b :| 0 <= b < 4 && Nbr(u, b) == v;
  }

  /** No waiting tile, nor the busy one, is closer than k. */
  ghost predicate NoneCloser(queue: seq<Entry>, dist: map<Pos, nat>, busy: Pos, k: nat) {
    && (forall i | 0 <= i < |queue| :: queue[i].p in dist && dist[queue[i].p] >= k)
    && (busy in dist ==> dist[busy] >= k)
  }

  /** Everything within k steps is discovered, when nothing closer than k is still waiting. */
  lemma {:induction false} AllNearKnown(m: Maze, s: Pos, queue: seq<Entry>, dist: map<Pos, nat>, hop: map<Pos, int>,
                                        limit: nat, busy: Pos, v: Pos, k: nat, j: nat)
    requires Known(m, s, dist, hop) && Expanded(m, queue, dist, limit, busy) && NoneCloser(queue, dist, busy, k)
    requires j <= k <= limit && Walk(m, s, v, j)
    ensures v in dist && dist[v] <= j
    decreases j
  {
    hide Open, AtDistance, Nbr, FirstHop;
    if j > 0 {
      var u, b := LastStep(m, s, v, j);
      AllNearKnown(m, s, queue, dist, hop, limit, busy, u, k, j - 1);
      assert Nbr(u, b) in dist;
    }
    Shortest(m, s, v, dist[v], j);
  }

  /** A tile first seen from f, one level on, is exactly one step further. */
  lemma DiscoverDistance(m: Maze, s: Pos, queue: seq<Entry>, dist: map<Pos, nat>, hop: map<Pos, int>, limit: nat,
                         f: Pos, i: int)
    requires Known(m, s, dist, hop) && Expanded(m, queue, dist, limit, f)
    requires f in dist && NoneCloser(queue, dist, f, dist[f])
    requires dist[f] < limit && 0 <= i < 4 && Open(m, Nbr(f, i)) && Nbr(f, i) !in dist
    ensures AtDistance(m, s, Nbr(f, i), dist[f] + 1)
  {
    hide Open, Nbr, FirstHop;
    assert AtDistance(m, s, f, dist[f]);
    WalkStep(m, s, f, dist[f], i);
    forall j: nat | j <= dist[f]
      ensures !Walk(m, s, Nbr(f, i), j)
    {
      if Walk(m, s, Nbr(f, i), j) {
        AllNearKnown(m, s, queue, dist, hop, limit, f, Nbr(f, i), dist[f], j);
      }
    }
  }

  /** ... and it inherits f's first hop: an earlier one would have discovered it already. */
  lemma DiscoverHop(m: Maze, s: Pos, queue: seq<Entry>, dist: map<Pos, nat>, hop: map<Pos, int>, limit: nat, f: Pos,
                    i: int)
    requires Known(m, s, dist, hop) && Expanded(m, queue, dist, limit, f)
    requires f in hop && f in dist && NoneCloser(queue, dist, f, dist[f])
    requires forall x | 0 <= x < |queue| ::
               queue[x].p in hop && (dist[queue[x].p] == dist[f] ==> hop[f] <= hop[queue[x].p])
    requires 0 < dist[f] < limit && 0 <= i < 4 && Open(m, Nbr(f, i)) && Nbr(f, i) !in dist
    ensures FirstHop(m, s, Nbr(f, i), dist[f] + 1, hop[f])
  {
    hide Open, Nbr, AtDistance;
    var n, k1 := Nbr(f, i), dist[f] + 1;
    assert FirstHop(m, s, f, dist[f], hop[f]);
    WalkStep(m, Nbr(s, hop[f]), f, dist[f] - 1, i);
    forall h | 0 <= h < hop[f]
      ensures !Via(m, s, n, k1, h)
    {
      if Via(m, s, n, k1, h) {
        NoEarlierHop(m, s, queue, dist, hop, limit, f, n, h);
      }
    }
  }

  lemma NoEarlierHop(m: Maze, s: Pos, queue: seq<Entry>, dist: map<Pos, nat>, hop: map<Pos, int>, limit: nat, f: Pos,
                     n: Pos, h: int)
    requires Known(m, s, dist, hop) && Expanded(m, queue, dist, limit, f)
    requires f in hop && f in dist && NoneCloser(queue, dist, f, dist[f])
    requires forall x | 0 <= x < |queue| ::
               queue[x].p in hop && (dist[queue[x].p] == dist[f] ==> hop[f] <= hop[queue[x].p])
    requires 0 < dist[f] < limit && n !in dist
    requires 0 <= h < 4 && Via(m, s, n, dist[f] + 1, h)
    ensures h >= hop[f]
  {
    hide Open, Nbr, AtDistance;
    var k := dist[f];
    var u, b := LastStep(m, Nbr(s, h), n, k);
    assert Via(m, s, u, k, h);
    ViaWalk(m, s, u, k, h);
    AllNearKnown(m, s, queue, dist, hop, limit, f, u, k, k);
    assert Nbr(u, b) !in dist;
    if u != f {
      assert Waiting(queue, u);
      assert dist[u] == k;
    }
    assert u in hop && FirstHop(m, s, u, k, hop[u]);
    assert hop[u] <= h;
  }

  // ---- the search ----

  function Index(m: Maze, p: Pos): (i: nat)
    requires InBounds(m, p.x, p.y)
    ensures i < |m.tiles|
  {
    IndexInRange(p.x, p.y, m.W, m.H);
    p.y * m.W + p.x
  }

  /** The marks of the search are non-zero on exactly the discovered tiles. */
  ghost predicate Marks(m: Maze, visited: seq<int>, dist: map<Pos, nat>) {
    && |visited| == |m.tiles|
    && (forall p: Pos | InBounds(m, p.x, p.y) :: visited[Index(m, p)] != 0 <==> p in dist)
    && (forall p | p in dist :: InBounds(m, p.x, p.y))
  }

  lemma MarkOne(m: Maze, visited: seq<int>, dist: map<Pos, nat>, p: Pos, mark: int, d: nat)
    requires Marks(m, visited, dist) && InBounds(m, p.x, p.y) && mark != 0
    ensures Marks(m, visited[Index(m, p) := mark], dist[p := d])
  {
    forall q: Pos | InBounds(m, q.x, q.y) && q != p
      ensures Index(m, q) != Index(m, p)
    {
      if Index(m, q) == Index(m, p) {
        IndexInjective(p.x, p.y, q.x, q.y, m.W);
      }
    }
  }

  ghost function AllTiles(m: Maze): set<Pos> {
    set x, y | 0 <= x < m.W && 0 <= y < m.H :: Pos(x, y)
  }

  const NOBODY := Pos(-1, -1)

  /** All that is known between two steps of the search; `busy` is the tile being expanded. */
  ghost predicate Searching(m: Maze, s: Pos, t: Pos, limit: nat, queue: seq<Entry>, dist: map<Pos, nat>,
                            hop: map<Pos, int>, busy: Pos) {
    && Known(m, s, dist, hop) && Queued(queue, dist, hop) && Expanded(m, queue, dist, limit, busy)
    && t !in dist && NOBODY !in dist
  }

  /** Recording a newly discovered tile at the tail keeps the search state. */
  lemma Record(m: Maze, s: Pos, t: Pos, limit: nat, queue: seq<Entry>, dist: map<Pos, nat>, hop: map<Pos, int>, f: Pos,
               n: Pos, d: nat, h: int)
    requires Searching(m, s, t, limit, queue, dist, hop, f)
    requires n !in dist && n != t && n != NOBODY && d > 0
    requires AtDistance(m, s, n, d) && FirstHop(m, s, n, d, h)
    requires forall i | 0 <= i < |queue| :: InOrder(queue[i], Entry(n, d, h))
    ensures Searching(m, s, t, limit, queue + [Entry(n, d, h)], dist[n := d], hop[n := h], f)
  {
    hide Open, AtDistance, Nbr, FirstHop;
    var q' := queue + [Entry(n, d, h)];
    forall v | v == n || Waiting(queue, v)
      ensures Waiting(q', v)
    {
      if v == n {
        assert q'[|queue|].p == v;
      } else {
        var i :| 0 <= i < |queue| && queue[i].p == v;
        assert q'[i].p == v;
      }
    }
  }

  /** The state while f, just popped, has had its first i neighbours tried. */
  ghost predicate Expanding(m: Maze, s: Pos, t: Pos, limit: nat, queue: seq<Entry>, dist: map<Pos, nat>,
                            hop: map<Pos, int>, f: Entry, i: int) {
    && Searching(m, s, t, limit, queue, dist, hop, f.p)
    && f.p in hop && f.depth == dist[f.p] && f.first == hop[f.p]
    && (forall x | 0 <= x < |queue| :: InOrder(f, queue[x]))
    && (forall j | 0 <= j < i && Open(m, Nbr(f.p, j)) :: Nbr(f.p, j) in dist)
  }

  lemma Pop(m: Maze, s: Pos, t: Pos, limit: nat, queue: seq<Entry>, dist: map<Pos, nat>, hop: map<Pos, int>)
    requires |queue| > 0 && Searching(m, s, t, limit, queue, dist, hop, NOBODY)
    ensures Expanding(m, s, t, limit, queue[1..], dist, hop, queue[0], 0)
    ensures queue[0].depth >= limit ==> Searching(m, s, t, limit, queue[1..], dist, hop, NOBODY)
  {
    hide Open, AtDistance, Nbr, FirstHop;
    var f, rest := queue[0], queue[1..];
    assert forall x | 0 <= x < |rest| :: rest[x] == queue[x + 1];
    forall v | v in dist && Waiting(queue, v) && v != f.p
      ensures Waiting(rest, v)
    {
      var x :| 0 <= x < |queue| && queue[x].p == v;
      assert rest[x - 1].p == v;
    }
    forall x | 0 <= x < |rest|
      ensures InOrder(f, rest[x])
    {
      assert InOrder(queue[0], queue[x + 1]);
    }
    assert forall v | v in dist && !Waiting(rest, v) && v != f.p :: !Waiting(queue, v);
  }

  /** Whatever waits behind f is no closer than f, no earlier in hop order, and comes before f's children. */
  lemma Behind(m: Maze, s: Pos, t: Pos, limit: nat, queue: seq<Entry>, dist: map<Pos, nat>, hop: map<Pos, int>,
               f: Entry, i: int, n: Pos)
    requires Expanding(m, s, t, limit, queue, dist, hop, f, i)
    ensures NoneCloser(queue, dist, f.p, dist[f.p]) && dist[f.p] > 0
    ensures forall x | 0 <= x < |queue| ::
              queue[x].p in hop && (dist[queue[x].p] == dist[f.p] ==> hop[f.p] <= hop[queue[x].p])
    ensures forall x | 0 <= x < |queue| :: InOrder(queue[x], Entry(n, f.depth + 1, f.first))
  {
    hide Open, AtDistance, Nbr, FirstHop, Expanded;
    forall x | 0 <= x < |queue|
      ensures queue[x].p in hop && queue[x].p in dist && dist[queue[x].p] >= dist[f.p]
      ensures dist[queue[x].p] == dist[f.p] ==> hop[f.p] <= hop[queue[x].p]
      ensures InOrder(queue[x], Entry(n, f.depth + 1, f.first))
    {
      assert InOrder(f, queue[x]);
    }
  }

  /** The next neighbour of f, open and unseen, joins at the tail one level down. */
  lemma ExpandOne(m: Maze, s: Pos, t: Pos, limit: nat, queue: seq<Entry>, dist: map<Pos, nat>, hop: map<Pos, int>,
                  f: Entry, i: int)
    requires Expanding(m, s, t, limit, queue, dist, hop, f, i) && 0 <= i < 4 && f.depth < limit
    requires Open(m, Nbr(f.p, i)) && Nbr(f.p, i) !in dist
    ensures var n := Nbr(f.p, i);
            && AtDistance(m, s, n, f.depth + 1) && FirstHop(m, s, n, f.depth + 1, f.first)
            && (n != t ==>
                  Expanding(m, s, t, limit, queue + [Entry(n, f.depth + 1, f.first)], dist[n := f.depth + 1],
                            hop[n := f.first], f, i + 1))
  {
    var n := Nbr(f.p, i);
    assert InBounds(m, n.x, n.y);
    hide Open, AtDistance, Nbr, FirstHop, Expanded, Queued, InOrder, Known, NoneCloser;
    Behind(m, s, t, limit, queue, dist, hop, f, i, n);
    DiscoverDistance(m, s, queue, dist, hop, limit, f.p, i);
    DiscoverHop(m, s, queue, dist, hop, limit, f.p, i);
    if n != t {
      Record(m, s, t, limit, queue, dist, hop, f.p, n, f.depth + 1, f.first);
    }
  }

  lemma SkipOne(m: Maze, s: Pos, t: Pos, limit: nat, queue: seq<Entry>, dist: map<Pos, nat>, hop: map<Pos, int>,
                f: Entry, i: int)
    requires Expanding(m, s, t, limit, queue, dist, hop, f, i)
    requires Open(m, Nbr(f.p, i)) ==> Nbr(f.p, i) in dist
    ensures Expanding(m, s, t, limit, queue, dist, hop, f, i + 1)
  {
    hide Searching, Open, Nbr;
  }

  lemma DoneExpanding(m: Maze, s: Pos, t: Pos, limit: nat, queue: seq<Entry>, dist: map<Pos, nat>, hop: map<Pos, int>,
                      f: Entry)
    requires Expanding(m, s, t, limit, queue, dist, hop, f, 4)
    ensures Searching(m, s, t, limit, queue, dist, hop, NOBODY)
  {
  }

  /** The state while the first i neighbours of the source have been queued. */
  ghost predicate Seeding(m: Maze, s: Pos, t: Pos, limit: nat, queue: seq<Entry>, dist: map<Pos, nat>,
                          hop: map<Pos, int>, i: int) {
    && Searching(m, s, t, limit, queue, dist, hop, s)
    && (forall k | 0 <= k < |queue| :: queue[k].depth == 1 && queue[k].first < i)
    && (forall v | v in dist && v != s :: Waiting(queue, v))
    && (forall j | 0 <= j < i && Open(m, Nbr(s, j)) :: Nbr(s, j) in dist)
  }

  lemma StartSeeding(m: Maze, s: Pos, t: Pos, limit: nat)
    requires s != t && s != NOBODY
    ensures Seeding(m, s, t, limit, [], map[s := 0], map[], 0)
  {
    assert Walk(m, s, s, 0);
  }

  lemma SeedOne(m: Maze, s: Pos, t: Pos, limit: nat, queue: seq<Entry>, dist: map<Pos, nat>, hop: map<Pos, int>, i: int)
    requires Seeding(m, s, t, limit, queue, dist, hop, i) && 0 <= i < 4 && limit > 0
    requires Open(m, Nbr(s, i)) && Nbr(s, i) !in dist
    ensures AtDistance(m, s, Nbr(s, i), 1) && FirstHop(m, s, Nbr(s, i), 1, i)
  {
    DiscoverDistance(m, s, queue, dist, hop, limit, s, i);
    assert Walk(m, Nbr(s, i), Nbr(s, i), 0);
  }

  lemma SeedKeeps(m: Maze, s: Pos, t: Pos, limit: nat, queue: seq<Entry>, dist: map<Pos, nat>, hop: map<Pos, int>,
                  i: int)
    requires Seeding(m, s, t, limit, queue, dist, hop, i) && 0 <= i < 4 && limit > 0
    requires Open(m, Nbr(s, i)) && Nbr(s, i) !in dist && Nbr(s, i) != t
    ensures Seeding(m, s, t, limit, queue + [Entry(Nbr(s, i), 1, i)], dist[Nbr(s, i) := 1], hop[Nbr(s, i) := i], i + 1)
  {
    var n := Nbr(s, i);
    var q' := queue + [Entry(n, 1, i)];
    assert n != NOBODY;
    SeedOne(m, s, t, limit, queue, dist, hop, i);
    hide Open, AtDistance, Nbr, FirstHop, Expanded, Known;
    Record(m, s, t, limit, queue, dist, hop, s, n, 1, i);
    forall v | v in dist[n := 1] && v != s
      ensures Waiting(q', v)
    {
      if v == n {
        assert q'[|queue|].p == v;
      } else {
        var k :| 0 <= k < |queue| && queue[k].p == v;
        assert q'[k].p == v;
      }
    }
  }

  lemma SeedSkips(m: Maze, s: Pos, t: Pos, limit: nat, queue: seq<Entry>, dist: map<Pos, nat>, hop: map<Pos, int>,
                  i: int)
    requires Seeding(m, s, t, limit, queue, dist, hop, i)
    requires Open(m, Nbr(s, i)) ==> Nbr(s, i) in dist
    ensures Seeding(m, s, t, limit, queue, dist, hop, i + 1)
  {
    hide Searching, Open, Nbr;
  }

  lemma DoneSeeding(m: Maze, s: Pos, t: Pos, limit: nat, queue: seq<Entry>, dist: map<Pos, nat>, hop: map<Pos, int>)
    requires Seeding(m, s, t, limit, queue, dist, hop, 4)
    ensures Searching(m, s, t, limit, queue, dist, hop, NOBODY)
  {
  }

  lemma Exhausted(m: Maze, s: Pos, t: Pos, limit: nat, dist: map<Pos, nat>, hop: map<Pos, int>)
    requires Searching(m, s, t, limit, [], dist, hop, NOBODY)
    ensures forall d: nat | d <= limit :: !AtDistance(m, s, t, d)
  {
    forall d: nat | d <= limit
      ensures !AtDistance(m, s, t, d)
    {
      if AtDistance(m, s, t, d) {
        AllNearKnown(m, s, [], dist, hop, limit, NOBODY, t, limit, d);
      }
    }
  }

  /** The answer the search owes: a first hop of a shortest walk, exactly when one is short enough. */
  ghost predicate Answer(m: Maze, s: Pos, t: Pos, limit: nat, next: Pos, ok: bool) {
    if s == t then ok && next == s
    else if !ok then
      next == Pos(0, 0) && (InBounds(m, s.x, s.y) ==> forall d: nat | d <= limit :: !AtDistance(m, s, t, d))
    else
      && InBounds(m, s.x, s.y)
      && exists d, h | 0 < d <= limit :: AtDistance(m, s, t, d) && FirstHop(m, s, t, d, h) && next == Nbr(s, h)
  }

  lemma Found(m: Maze, s: Pos, t: Pos, limit: nat, d: nat, h: int)
    requires s != t && InBounds(m, s.x, s.y) && 0 < d <= limit
    requires AtDistance(m, s, t, d) && FirstHop(m, s, t, d, h)
    ensures Answer(m, s, t, limit, Nbr(s, h), true)
  {
  }

  /** A closed target is never reached. */
  lemma ClosedTarget(m: Maze, s: Pos, t: Pos, limit: nat)
    requires s != t && !Open(m, t)
    ensures Answer(m, s, t, limit, Pos(0, 0), false)
  {
  }

  /** Queue the open neighbours of the source. */
  method SeedQueue(m: Maze, s: Pos, t: Pos, ghost limit: nat)
    returns (visited: seq<int>, queue: seq<Entry>, ghost dist: map<Pos, nat>, ghost hop: map<Pos, int>, hit: int)
    requires s != t && InBounds(m, s.x, s.y) && limit > 0
    ensures 0 <= hit <= 4
    ensures hit < 4 ==> Answer(m, s, t, limit, Nbr(s, hit), true)
    ensures hit == 4 ==> Searching(m, s, t, limit, queue, dist, hop, NOBODY) && Marks(m, visited, dist)
  {
    visited, queue, dist, hop := seq(|m.tiles|, _ => 0), [], map[], map[];
    MarkOne(m, visited, dist, s, 1, 0);
    visited, dist := visited[Index(m, s) := 1], dist[s := 0];
    StartSeeding(m, s, t, limit);
    hide Seeding, Searching, Marks, Open, Nbr, AtDistance, FirstHop, Answer;
    for i := 0 to 4
      invariant Seeding(m, s, t, limit, queue, dist, hop, i) && Marks(m, visited, dist)
    {
      var n := Nbr(s, i);
      if Unseen(m, visited, dist, n) {
        SeedOne(m, s, t, limit, queue, dist, hop, i);
        if n == t {
          Found(m, s, t, limit, 1, i);
          hit := i;
          return;
        }
        SeedKeeps(m, s, t, limit, queue, dist, hop, i);
        MarkOne(m, visited, dist, n, i + 1, 1);
        visited := visited[Index(m, n) := i + 1];
        queue, dist, hop := queue + [Entry(n, 1, i)], dist[n := 1], hop[n := i];
      } else {
        SeedSkips(m, s, t, limit, queue, dist, hop, i);
      }
    }
    DoneSeeding(m, s, t, limit, queue, dist, hop);
    hit := 4;
  }

  /** Open and not yet marked. */
  predicate Unseen(m: Maze, visited: seq<int>, ghost dist: map<Pos, nat>, n: Pos): (r: bool)
    requires Marks(m, visited, dist)
    ensures r <==> Open(m, n) && n !in dist
    ensures r ==> InBounds(m, n.x, n.y) && |visited| == |m.tiles|
  {
    Open(m, n) && visited[Index(m, n)] == 0
  }

  /** Queue the unseen neighbours of f, which has just been popped. */
  method Expand(m: Maze, s: Pos, t: Pos, ghost limit: nat, f: Entry, visited0: seq<int>, queue0: seq<Entry>,
                ghost dist0: map<Pos, nat>, ghost hop0: map<Pos, int>)
    returns (visited: seq<int>, queue: seq<Entry>, ghost dist: map<Pos, nat>, ghost hop: map<Pos, int>, hit: bool)
    requires s != t && InBounds(m, s.x, s.y) && f.depth < limit
    requires Expanding(m, s, t, limit, queue0, dist0, hop0, f, 0) && Marks(m, visited0, dist0)
    ensures hit ==> 0 <= f.first < 4 && Answer(m, s, t, limit, Nbr(s, f.first), true)
    ensures !hit ==> Searching(m, s, t, limit, queue, dist, hop, NOBODY) && Marks(m, visited, dist)
    ensures !hit ==> dist.Keys >= dist0.Keys && (dist.Keys == dist0.Keys ==> queue == queue0)
  {
    visited, queue, dist, hop := visited0, queue0, dist0, hop0;
    hide Expanding, Searching, Marks, Open, Nbr, AtDistance, Answer;
    for i := 0 to 4
      invariant Expanding(m, s, t, limit, queue, dist, hop, f, i) && Marks(m, visited, dist)
      invariant dist.Keys >= dist0.Keys && (dist.Keys == dist0.Keys ==> queue == queue0)
    {
      var n := Nbr(f.p, i);
      if Unseen(m, visited, dist, n) {
        ExpandOne(m, s, t, limit, queue, dist, hop, f, i);
        if n == t {
          Found(m, s, t, limit, f.depth + 1, f.first);
          hit := true;
          return;
        }
        MarkOne(m, visited, dist, n, f.first + 1, f.depth + 1);
        visited := visited[Index(m, n) := f.first + 1];
        assert n in dist[n := f.depth + 1].Keys && n !in dist0.Keys;
        queue, dist, hop := queue + [Entry(n, f.depth + 1, f.first)], dist[n := f.depth + 1], hop[n := f.first];
      } else {
        SkipOne(m, s, t, limit, queue, dist, hop, f, i);
      }
    }
    DoneExpanding(m, s, t, limit, queue, dist, hop, f);
    hit := false;
  }

  method PathNext(m: Maze, s: Pos, t: Pos, maxDepth: int) returns (next: Pos, ok: bool)
    ensures Answer(m, s, t, Limit(maxDepth), next, ok)
  {
    if s == t {
      return s, true;
    }
    if !InBounds(m, s.x, s.y) {
      return Pos(0, 0), false;
    }
    if !InBounds(m, t.x, t.y) || IsWall(m, t.x, t.y) {
      ClosedTarget(m, s, t, Limit(maxDepth));
      return Pos(0, 0), false;
    }
    ghost var limit := Limit(maxDepth);
    var visited, queue, dist, hop, first := SeedQueue(m, s, t, limit);
    if first < 4 {
      next, ok := FirstStep(s, first);
      return;
    }
    while |queue| > 0
      invariant Searching(m, s, t, limit, queue, dist, hop, NOBODY) && Marks(m, visited, dist)
      decreases AllTiles(m) - dist.Keys, |queue|
    {
      var f := queue[0];
      Pop(m, s, t, limit, queue, dist, hop);
      ghost var dist0 := dist;
      if f.depth >= maxDepth {
        queue := queue[1..];
        continue;
      }
      var hit;
      visited, queue, dist, hop, hit := Expand(m, s, t, limit, f, visited, queue[1..], dist, hop);
      if hit {
        next, ok := FirstStep(s, f.first);
        return;
      }
      FewerUndiscovered(m, visited, dist0, dist);
    }
    Exhausted(m, s, t, limit, dist, hop);
    return Pos(0, 0), false;
  }

  lemma FewerUndiscovered(m: Maze, visited: seq<int>, dist0: map<Pos, nat>, dist: map<Pos, nat>)
    requires Marks(m, visited, dist) && dist.Keys >= dist0.Keys
    ensures AllTiles(m) - dist.Keys <= AllTiles(m) - dist0.Keys
    ensures dist.Keys != dist0.Keys ==> AllTiles(m) - dist.Keys < AllTiles(m) - dist0.Keys
  {
    if dist.Keys != dist0.Keys {
      var p :| p in dist.Keys && p !in dist0.Keys;
      assert p == Pos(p.x, p.y) && p in AllTiles(m);
    }
  }

  /** The neighbour of s that a recorded first hop stands for. */
  method FirstStep(s: Pos, first: int) returns (next: Pos, ok: bool)
    requires 0 <= first < 4
    ensures ok && next == Nbr(s, first)
  {
    match first
    case 0 => return Pos(s.x, s.y - 1), true;
    case 1 => return Pos(s.x + 1, s.y), true;
    case 2 => return Pos(s.x, s.y + 1), true;
    case _ => return Pos(s.x - 1, s.y), true;
  }

  /** Taking the answered step leaves exactly one step less to go, so repeating it walks a shortest path. */
  lemma NextIsCloser(m: Maze, s: Pos, t: Pos, d: nat, h: int)
    requires d > 0 && AtDistance(m, s, t, d) && FirstHop(m, s, t, d, h)
    ensures Open(m, Nbr(s, h)) && AtDistance(m, Nbr(s, h), t, d - 1)
  {
    hide Open, Nbr;
    forall j: nat | j < d - 1
      ensures !Walk(m, Nbr(s, h), t, j)
    {
      if Walk(m, Nbr(s, h), t, j) {
        ViaWalk(m, s, t, j + 1, h);
      }
    }
  }
}
