/** Where a player comes back: one of the three free spawn tiles farthest from anything hostile. */
module SafeSpawn {
  import opened Sequences
  import opened Options
  import opened Grid
  import opened Physics
  import opened Entities
  import opened SimState
  import opened Movement
  import opened Emission

  type TilePos = (int, int)

  function TileAt(x: int, y: int): TilePos { (TruncDiv(x, SUBTILE), TruncDiv(y, SUBTILE)) }

  function Chebyshev(a: TilePos, b: TilePos): nat {
    var dx := if a.0 < b.0 then b.0 - a.0 else a.0 - b.0;
    var dy := if a.1 < b.1 then b.1 - a.1 else a.1 - b.1;
    if dx > dy then dx else dy
  }

  // ---- free spawns ----

  function PlayerBox(t: (int, int)): Box { Box(TileMid(t.0), TileMid(t.1), PLAYER_HALF) }

  /** A player may come back here: a player spawn with nobody alive on it. */
  ghost predicate Haven(m: Maze, slots: seq<Entity>, t: (int, int)) {
    At(m, t.0, t.1) == SpawnPlayer && Vacant(slots, PlayerBox(t))
  }

  lemma AtInBounds(m: Maze, x: int, y: int)
    requires At(m, x, y) != Wall
    ensures 0 <= x < m.W && 0 <= y < m.H
  {
  }

  method FreeSpawns(m: Maze, slots: seq<Entity>) returns (free: seq<(int, int)>)
    ensures forall t :: t in free <==> Haven(m, slots, t)
    ensures NoRepeat(free)
  {
    free := [];
    hide Vacant, At;
    for y := 0 to m.H
      invariant NoRepeat(free)
      invariant forall t :: t in free <==> 0 <= t.1 < y && 0 <= t.0 < m.W && Haven(m, slots, t)
    {
      for x := 0 to m.W
        invariant NoRepeat(free)
        invariant forall t ::
                    t in free <==> (0 <= t.1 < y || (t.1 == y && t.0 < x)) && 0 <= t.0 < m.W && Haven(m, slots, t)
      {
        if At(m, x, y) == SpawnPlayer {
          var ok := IsVacant(slots, PlayerBox((x, y)));
          if ok {
            assert (x, y) !in free;
            free := free + [(x, y)];
          }
        }
      }
    }
    forall t | Haven(m, slots, t)
      ensures 0 <= t.0 < m.W && 0 <= t.1 < m.H
    {
      AtInBounds(m, t.0, t.1);
    }
  }

  // ---- how safe a tile is ----

  predicate Hostile(e: Entity, player: ID) {
    Live(e) && e.id != player && (e.kind == Player || e.kind == Generator)
  }

  /**
   No hostile is closer than d, and one is exactly that far; with no hostiles, d is the distance to the place of
   death.
   */
  ghost predicate Safety(slots: seq<Entity>, player: ID, death: TilePos, t: TilePos, d: int) {
    && (forall i | 0 <= i < |slots| && Hostile(slots[i], player) :: d <= Chebyshev(t, TileAt(slots[i].x, slots[i].y)))
    && if exists i | 0 <= i < |slots| :: Hostile(slots[i], player)
       then exists i | 0 <= i < |slots| ::
              Hostile(slots[i], player) && d == Chebyshev(t, TileAt(slots[i].x, slots[i].y))
       else d == Chebyshev(t, death)
  }

  method SafetyOf(slots: seq<Entity>, player: ID, death: TilePos, t: TilePos) returns (d: int)
    ensures Safety(slots, player, death, t, d)
  {
    ghost var nearest := 0;
    var any := false;
    d := Chebyshev(t, death);
    for j := 0 to |slots|
      invariant !any ==> d == Chebyshev(t, death) && forall i | 0 <= i < j :: !Hostile(slots[i], player)
      invariant any ==>
                  0 <= nearest < j && Hostile(slots[nearest], player)
                    && d == Chebyshev(t, TileAt(slots[nearest].x, slots[nearest].y))
      invariant any ==>
                  forall i | 0 <= i < j && Hostile(slots[i], player) ::
                    d <= Chebyshev(t, TileAt(slots[i].x, slots[i].y))
    {
      if Hostile(slots[j], player) {
        var far := Chebyshev(t, TileAt(slots[j].x, slots[j].y));
        if !any || far < d {
          d, nearest := far, j;
        }
        any := true;
      }
    }
  }

  // ---- the safest few ----

  datatype Scored = Scored(t: TilePos, score: int)

  /** Farther from danger first; among equals, in row order. */
  predicate Safer(w: nat, a: Scored, b: Scored) {
    a.score > b.score || (a.score == b.score && a.t.1 * w + a.t.0 < b.t.1 * w + b.t.0)
  }

  /** A tile's score is settled by the state, so "safer" compares tiles. */
  ghost predicate SaferTile(m: Maze, slots: seq<Entity>, player: ID, death: TilePos, a: TilePos, b: TilePos) {
    exists x, y ::
      Safety(slots, player, death, a, x) && Safety(slots, player, death, b, y) && Safer(m.W, Scored(a, x), Scored(b, y))
  }

  lemma OneSafety(slots: seq<Entity>, player: ID, death: TilePos, t: TilePos, d: int, e: int)
    requires Safety(slots, player, death, t, d) && Safety(slots, player, death, t, e)
    ensures d == e
  {
  }

  ghost predicate Ranked(w: nat, s: seq<Scored>) {
    forall i, j | 0 <= i < j < |s| :: Safer(w, s[i], s[j])
  }

  ghost predicate Within(m: Maze, s: seq<Scored>) {
    forall i | 0 <= i < |s| :: InBounds(m, s[i].t.0, s[i].t.1)
  }

  /** Distinct tiles are never level. */
  lemma SaferTotal(w: nat, h: nat, a: Scored, b: Scored)
    requires 0 <= a.t.0 < w && 0 <= b.t.0 < w && a.t != b.t
    ensures Safer(w, a, b) || Safer(w, b, a)
  {
    if a.t.1 * w + a.t.0 == b.t.1 * w + b.t.0 {
      IndexInjective(a.t.0, a.t.1, b.t.0, b.t.1, w);
    }
  }

  ghost predicate Lists(s: seq<Scored>, t: TilePos) {
    exists i | 0 <= i < |s| :: s[i].t == t
  }

  lemma SaferChain(w: nat, a: Scored, b: Scored, c: Scored)
    requires Safer(w, a, b) && Safer(w, b, c)
    ensures Safer(w, a, c)
  {
  }

  lemma RankedAt(w: nat, s: seq<Scored>, i: nat, j: nat)
    requires Ranked(w, s) && i < j < |s|
    ensures Safer(w, s[i], s[j])
  {
  }

  lemma NotBoth(w: nat, a: Scored, b: Scored)
    requires Safer(w, a, b)
    ensures !Safer(w, b, a)
  {
  }

  lemma InsertedRanked(w: nat, s: seq<Scored>, c: Scored, k: nat)
    requires Ranked(w, s) && k <= |s|
    requires (forall i | 0 <= i < k :: Safer(w, s[i], c)) && (forall i | k <= i < |s| :: Safer(w, c, s[i]))
    ensures Ranked(w, s[..k] + [c] + s[k..])
  {
    hide Safer;
    var r := s[..k] + [c] + s[k..];
    forall i, j | 0 <= i < j < |r|
      ensures Safer(w, r[i], r[j])
    {
      if i < k < j {
        assert r[i] == s[i] && r[j] == s[j - 1];
      } else if j < k {
        assert r[i] == s[i] && r[j] == s[j];
      } else if k < i {
        assert r[i] == s[i - 1] && r[j] == s[j - 1];
      }
    }
  }

  method InsertRanked(m: Maze, s: seq<Scored>, c: Scored) returns (r: seq<Scored>)
    requires Ranked(m.W, s) && Within(m, s) && InBounds(m, c.t.0, c.t.1) && forall i | 0 <= i < |s| :: s[i].t != c.t
    ensures Ranked(m.W, r) && Within(m, r) && forall x :: x in r <==> x in s || x == c
  {
    hide Safer, Ranked;
    var k := |s|;
    while k > 0 && Safer(m.W, c, s[k - 1])
      invariant 0 <= k <= |s|
      invariant forall i | k <= i < |s| :: Safer(m.W, c, s[i])
    {
      k := k - 1;
    }
    forall i | 0 <= i < k
      ensures Safer(m.W, s[i], c)
    {
      SaferTotal(m.W, m.H, c, s[k - 1]);
      if i < k - 1 {
        RankedAt(m.W, s, i, k - 1);
        SaferChain(m.W, s[i], s[k - 1], c);
      }
    }
    r := s[..k] + [c] + s[k..];
    assert s == s[..k] + s[k..];
    InsertedRanked(m.W, s, c, k);
  }

  method RankBySafety(m: Maze, slots: seq<Entity>, player: ID, death: TilePos, free: seq<TilePos>)
    returns (s: seq<Scored>)
    requires NoRepeat(free) && forall i | 0 <= i < |free| :: InBounds(m, free[i].0, free[i].1)
    ensures Ranked(m.W, s) && (s == [] <==> free == [])
    ensures forall x | x in s :: x.t in free && Safety(slots, player, death, x.t, x.score)
    ensures forall t | t in free :: Lists(s, t)
  {
    s := [];
    hide Safety, Safer;
    for i := 0 to |free|
      invariant Ranked(m.W, s) && Within(m, s)
      invariant forall x | x in s :: x.t in free[..i] && Safety(slots, player, death, x.t, x.score)
      invariant forall t | t in free[..i] :: Lists(s, t)
    {
      var d := SafetyOf(slots, player, death, free[i]);
      var c := Scored(free[i], d);
      ghost var s0 := s;
      s := InsertRanked(m, s, c);
      assert free[..i + 1] == free[..i] + [free[i]];
      ghost var seen := free[..i + 1];
      forall t | t in seen
        ensures Lists(s, t)
      {
        if t != free[i] {
          var j :| 0 <= j < |s0| && s0[j].t == t;
          assert s0[j] in s;
        } else {
          assert c in s;
        }
      }
    }
    assert free[..|free|] == free;
    if free != [] { assert free[0] in free; }
    if s != [] { assert s[0] in s; }
  }

  /** At most two free spawns are safer than t. */
  ghost predicate AmongThree(m: Maze, slots: seq<Entity>, player: ID, death: TilePos, t: TilePos) {
    exists better: seq<TilePos> :: |better| < 3 && HoldsSafer(m, slots, player, death, t, better)
  }

  ghost predicate HoldsSafer(m: Maze, slots: seq<Entity>, player: ID, death: TilePos, t: TilePos,
                             better: seq<TilePos>) {
    forall h | Haven(m, slots, h) && SaferTile(m, slots, player, death, h, t) :: h in better
  }

  /** A safer tile is ranked earlier. */
  lemma SaferIsEarlier(m: Maze, slots: seq<Entity>, player: ID, death: TilePos, s: seq<Scored>, i: nat, k: nat)
    requires Ranked(m.W, s) && i < |s| && k < |s|
    requires Safety(slots, player, death, s[i].t, s[i].score) && Safety(slots, player, death, s[k].t, s[k].score)
    requires SaferTile(m, slots, player, death, s[i].t, s[k].t)
    ensures i < k
  {
    hide Safety, Safer, Ranked;
    var d, e :| Safety(slots, player, death, s[i].t, d) && Safety(slots, player, death, s[k].t, e)
      && Safer(m.W, Scored(s[i].t, d), Scored(s[k].t, e));
    OneSafety(slots, player, death, s[i].t, d, s[i].score);
    OneSafety(slots, player, death, s[k].t, e, s[k].score);
    NotBoth(m.W, s[i], s[k]);
    if i > k { RankedAt(m.W, s, k, i); }
  }

  lemma TopThree(m: Maze, slots: seq<Entity>, player: ID, death: TilePos, s: seq<Scored>, k: nat)
    requires Ranked(m.W, s) && k < |s| && k < 3
    requires forall x | x in s :: Safety(slots, player, death, x.t, x.score)
    requires forall h | Haven(m, slots, h) :: Lists(s, h)
    ensures AmongThree(m, slots, player, death, s[k].t)
  {
    var better := seq(k, i requires 0 <= i < k => s[i].t);
    hide Safety, Haven, Safer, Ranked, SaferTile;
    forall h | Haven(m, slots, h) && SaferTile(m, slots, player, death, h, s[k].t)
      ensures h in better
    {
      var i :| 0 <= i < |s| && s[i].t == h;
      assert s[k] in s && s[i] in s;
      SaferIsEarlier(m, slots, player, death, s, i, k);
      assert better[i] == h;
    }
    assert HoldsSafer(m, slots, player, death, s[k].t, better);
  }

  /** A free spawn if there is one, with at most two free spawns safer than it. */
  method SelectRespawnTile(m: Maze, slots: seq<Entity>, player: ID, death: TilePos) returns (t: Option<TilePos>)
    ensures t.None? <==> forall h :: !Haven(m, slots, h)
    ensures t.Some? ==> Haven(m, slots, t.value)
    ensures t.Some? ==> AmongThree(m, slots, player, death, t.value)
  {
    var free := FreeSpawns(m, slots);
    if free == [] {
      return None;
    }
    assert forall i | 0 <= i < |free| :: free[i] in free;
    hide Vacant, Safety, Safer;
    var s := RankBySafety(m, slots, player, death, free);
    assert s != [];
    var bound := if |s| > 3 then 3 else |s|;
    var k :| 0 <= k < bound;
    assert s[k] in s;
    TopThree(m, slots, player, death, s, k);
    return Some(s[k].t);
  }
}
