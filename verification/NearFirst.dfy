/** Who is left out of a crowded snapshot: never the nearer, never the more important. */
module NearFirst {
  import opened Entities
  import opened Ranking
  import opened Aoi

  function Abs(a: int): nat { if a < 0 then -a else a }

  /** How many whole tiles away, by the longer axis. */
  function TilesOff(rx: int, ry: int, e: Entity): nat {
    if Abs(e.x - rx) >= Abs(e.y - ry) then Abs(e.x - rx) / 256 else Abs(e.y - ry) / 256
  }

  /** The recipient looks from where it stands, or from the middle of the map if it does not live. */
  ghost predicate LooksFrom(s: Scene, rx: int, ry: int) {
    if exists e :: e in s.entities && e.id == s.me && !e.flags.dead then
      exists e :: e in s.entities && e.id == s.me && !e.flags.dead && (rx, ry) == (e.x, e.y)
    else (rx, ry) == (s.width * 128, s.height * 128)
  }

  /** This near, or at most a little farther and shown last time. */
  ghost predicate Close(s: Scene, rx: int, ry: int, e: Entity, inner: nat, outer: nat) {
    TilesOff(rx, ry, e) <= inner || (e.id in s.prev && TilesOff(rx, ry, e) <= outer)
  }

  /** Who counts on each of the seven levels. */
  ghost predicate OnLevel(s: Scene, rx: int, ry: int, e: Entity, k: nat) {
    && !e.flags.dead && 1 <= k <= 7
    && (k == 1 ==> e.id == s.me)
    && (k == 2 ==> e.id != s.me && e.kind == Player)
    && (k == 3 ==> e.kind == Projectile && if e.id in s.shooters then s.shooters[e.id] == s.me else s.me == 0)
    && (k == 4 ==> e.id != s.me && e.kind == Projectile && Close(s, rx, ry, e, 20, 24))
    && (k == 5 ==> e.id != s.me && e.kind == Generator && Close(s, rx, ry, e, 40, 44))
    && (k == 6 ==> e.id != s.me && e.kind == Snipe && Close(s, rx, ry, e, 40, 44))
  }

  // ---- the lists the snapshot is made of ----

  function ListOf(s: Scene, k: nat): seq<Entity> {
    if k == 1 then
      Self(s) else if k == 2 then Players(s) else if k == 3 then OwnShots(s) else if k == 4 then NearShots(s)
    else if k == 5 then NearGenerators(s) else if k == 6 then NearSnipes(s) else if k == 7 then Filler(s) else []
  }

  /** The first k lists on end. */
  function FirstLists(s: Scene, k: nat): seq<Entity> {
    if k == 0 then [] else FirstLists(s, k - 1) + ListOf(s, k)
  }

  lemma SevenLists(s: Scene)
    ensures FirstLists(s, 7) == Priority(s)
  {
    hide Self, Players, OwnShots, NearShots, NearGenerators, NearSnipes, Filler;
    assert FirstLists(s, 1) == Self(s);
    assert FirstLists(s, 2) == Self(s) + Players(s);
    assert FirstLists(s, 3) == Self(s) + Players(s) + OwnShots(s);
    assert FirstLists(s, 4) == Self(s) + Players(s) + OwnShots(s) + NearShots(s);
    assert FirstLists(s, 5) == FirstLists(s, 4) + NearGenerators(s);
    assert FirstLists(s, 6) == FirstLists(s, 5) + NearSnipes(s);
  }

  lemma {:induction false} ListsBegin(s: Scene, k: nat, n: nat)
    requires k <= n
    ensures FirstLists(s, k) <= FirstLists(s, n)
    decreases n
  {
    hide ListOf;
    if k < n {
      ListsBegin(s, k, n - 1);
    }
  }

  lemma EyeIs(s: Scene, rx: int, ry: int)
    requires Distinct(s.entities) && LooksFrom(s, rx, ry)
    ensures Eye(s) == (rx, ry)
  {
    var mine := Filter(s.entities, (e: Entity) => IsMe(s, e));
    FilterIs(s.entities, (e: Entity) => IsMe(s, e));
    if mine != [] {
      assert mine[0] in mine;
      forall e | e in s.entities && e.id == s.me
        ensures e == mine[0]
      {
        SameEntity(s, e, mine[0]);
      }
    } else {
      forall e | e in s.entities
        ensures !(e.id == s.me && !e.flags.dead)
      {
        assert e !in mine;
      }
    }
    hide Filter;
  }

  lemma OffIs(s: Scene, rx: int, ry: int, e: Entity)
    ensures Tiles(rx, ry, e.x, e.y) == TilesOff(rx, ry, e)
  {
  }

  lemma {:induction false} OnList(s: Scene, rx: int, ry: int, k: nat, e: Entity)
    requires Eye(s) == (rx, ry)
    ensures e in ListOf(s, k) <==> e in s.entities && OnLevel(s, rx, ry, e, k)
  {
    OffIs(s, rx, ry, e);
    hide Tiles, TilesOff, Eye;
    FilterIs(s.entities, (x: Entity) => IsMe(s, x));
    FilterIs(s.entities, (x: Entity) => OwnShot(s, x));
    RankedIs(s, (x: Entity) => OtherPlayer(s, x));
    RankedIs(s, (x: Entity) => InBand(s, Projectile, PROJ_INNER, PROJ_OUTER, x));
    RankedIs(s, (x: Entity) => InBand(s, Generator, SNIPE_GEN_INNER, SNIPE_GEN_OUTER, x));
    RankedIs(s, (x: Entity) => InBand(s, Snipe, SNIPE_GEN_INNER, SNIPE_GEN_OUTER, x));
    RankedIs(s, (x: Entity) => Living(x));
    hide Ranked, Filter;
  }

  /** The nearer, or of two as near the one with the lower ID. */
  ghost predicate NotFarther(rx: int, ry: int, a: Entity, b: Entity) {
    TilesOff(rx, ry, a) < TilesOff(rx, ry, b) || (TilesOff(rx, ry, a) == TilesOff(rx, ry, b) && a.id <= b.id)
  }

  lemma RankedNear(s: Scene, rx: int, ry: int, p: Entity -> bool)
    requires Eye(s) == (rx, ry)
    ensures forall i, j | 0 <= i < j < |Ranked(s, p)| :: NotFarther(rx, ry, Ranked(s, p)[i], Ranked(s, p)[j])
  {
    OrdersTotal(rx, ry);
    SortIs(ByDistance(rx, ry), Filter(s.entities, p));
    var l := Ranked(s, p);
    hide Sort, Filter, Eye;
    forall i, j | 0 <= i < j < |l|
      ensures NotFarther(rx, ry, l[i], l[j])
    {
      assert ByDistance(rx, ry)(l[i], l[j]);
      OffIs(s, rx, ry, l[i]);
      OffIs(s, rx, ry, l[j]);
    }
  }

  lemma ListNear(s: Scene, rx: int, ry: int, k: nat)
    requires Eye(s) == (rx, ry) && k in {2, 4, 5, 6, 7}
    ensures forall i, j | 0 <= i < j < |ListOf(s, k)| :: NotFarther(rx, ry, ListOf(s, k)[i], ListOf(s, k)[j])
  {
    hide Ranked, Eye, NotFarther;
    RankedNear(s, rx, ry, (x: Entity) => OtherPlayer(s, x));
    RankedNear(s, rx, ry, (x: Entity) => InBand(s, Projectile, PROJ_INNER, PROJ_OUTER, x));
    RankedNear(s, rx, ry, (x: Entity) => InBand(s, Generator, SNIPE_GEN_INNER, SNIPE_GEN_OUTER, x));
    RankedNear(s, rx, ry, (x: Entity) => InBand(s, Snipe, SNIPE_GEN_INNER, SNIPE_GEN_OUTER, x));
    RankedNear(s, rx, ry, (x: Entity) => Living(x));
  }

  /** a stands before b in the list. */
  ghost predicate Before(l: seq<Entity>, a: Entity, b: Entity) {
    exists i, j :: 0 <= i < j < |l| && l[i] == a && l[j] == b
  }

  lemma {:induction false} FilterKeepsOrder(l: seq<Entity>, p: Entity -> bool, i: int, j: int)
    requires 0 <= i < j < |Filter(l, p)|
    ensures Before(l, Filter(l, p)[i], Filter(l, p)[j])
  {
    var front, last := l[..|l| - 1], l[|l| - 1];
    var f := Filter(front, p);
    if j < |f| {
      FilterKeepsOrder(front, p, i, j);
      var x, y :| 0 <= x < y < |front| && front[x] == f[i] && front[y] == f[j];
      assert l[x] == f[i] && l[y] == f[j];
    } else {
      FilterIs(front, p);
      assert f[i] in front;
      var x :| 0 <= x < |front| && front[x] == f[i];
      assert l[x] == f[i] && l[|l| - 1] == Filter(l, p)[j];
    }
  }

  // ---- the first 64 of the list ----

  lemma DedupLast(l: seq<Entity>)
    requires l != []
    ensures Dedup(l) == Dedup(l[..|l| - 1]) || Dedup(l) == Dedup(l[..|l| - 1]) + [l[|l| - 1]]
  {
  }

  lemma TakePrefix(a: seq<Entity>, d: seq<Entity>, cap: nat, p: nat, q: nat)
    requires a <= d && p < |a| && q < |Take(d, cap)| && !Carries(Take(d, cap), a[p].id)
    ensures p >= cap && q < |a| - 1 && a[q] == Take(d, cap)[q]
  {
    assert a[p] == d[p];
    assert forall i | 0 <= i < |Take(d, cap)| :: Take(d, cap)[i].id != a[p].id;
    assert forall i | 0 <= i < |Take(d, cap)| :: Take(d, cap)[i] == d[i];
  }

  lemma FirstOnes(l: seq<Entity>, a: seq<Entity>, b: seq<Entity>)
    requires a <= l && a != [] && b == a[..|a| - 1]
    ensures Dedup(a) <= Dedup(l) && Carries(Dedup(a), a[|a| - 1].id)
    ensures forall e | e in Dedup(b) :: e in b
    ensures Dedup(a) == Dedup(b) || Dedup(a) == Dedup(b) + [a[|a| - 1]]
  {
    assert a + l[|a|..] == l;
    DedupPrefix(a, l[|a|..]);
    DedupIs(a);
    DedupIs(b);
    DedupLast(a);
    hide Dedup, Carries;
    assert a[|a| - 1] in a;
  }

  /** Everything kept stands before every occurrence of anything left out. */
  lemma KeptEarlier(l: seq<Entity>, cap: nat, o: Entity, y: nat)
    requires y < |l| && o in Take(Dedup(l), cap) && !Carries(Take(Dedup(l), cap), l[y].id)
    ensures exists x :: 0 <= x < y && l[x] == o
  {
    hide Dedup, Take, Distinct;
    var a := l[..y + 1];
    var b, d := a[..|a| - 1], Dedup(l);
    FirstOnes(l, a, b);
    var p :| 0 <= p < |Dedup(a)| && Dedup(a)[p].id == l[y].id;
    hide Carries;
    var q :| 0 <= q < |Take(d, cap)| && Take(d, cap)[q] == o;
    TakePrefix(Dedup(a), d, cap, p, q);
    assert Dedup(b)[q] == o && o in Dedup(b) && o in b;
    var x :| 0 <= x < |b| && b[x] == o;
    assert l[x] == o;
  }

  lemma KeptFirst(s: Scene, o: Entity, y: nat)
    requires y < |Priority(s)| && o in Chosen(s) && !Carries(Chosen(s), Priority(s)[y].id)
    ensures exists x :: 0 <= x < y && Priority(s)[x] == o
  {
    hide Priority, Take, Dedup, Carries;
    KeptEarlier(Priority(s), CAP, o, y);
  }

  /** On one list the order is by distance, or that of the slab. */
  lemma InList(s: Scene, rx: int, ry: int, k: nat, i: int, p: int)
    requires Eye(s) == (rx, ry) && 0 <= i < p < |ListOf(s, k)|
    ensures k in {2, 4, 5, 6, 7} ==> NotFarther(rx, ry, ListOf(s, k)[i], ListOf(s, k)[p])
    ensures k == 3 ==> Before(s.entities, ListOf(s, k)[i], ListOf(s, k)[p])
  {
    if k in {2, 4, 5, 6, 7} {
      ListNear(s, rx, ry, k);
    } else if k == 3 {
      FilterKeepsOrder(s.entities, (z: Entity) => OwnShot(s, z), i, p);
    }
    hide NotFarther, Before, Filter, Eye;
  }

  /** Where in the first k lists the left-out entity is, and somebody shown before it. */
  lemma ShownEarlier(s: Scene, rx: int, ry: int, e: Entity, o: Entity, k: nat) returns (p: nat, x: nat)
    requires Distinct(s.entities) && Eye(s) == (rx, ry)
    requires e in s.entities && OnLevel(s, rx, ry, e, k) && e !in View(s) && o in View(s)
    ensures 1 <= k <= 7 && p < |ListOf(s, k)| && ListOf(s, k)[p] == e
    ensures x < |FirstLists(s, k - 1)| + p && FirstLists(s, k)[x] == o
  {
    hide *;
    LevelRange(s, rx, ry, e, k);
    InView(s, e);
    InView(s, o);
    OnList(s, rx, ry, k, e);
    p :| 0 <= p < |ListOf(s, k)| && ListOf(s, k)[p] == e;
    SevenLists(s);
    ListsBegin(s, k, 7);
    NextList(s, k);
    NotCarried(s, e);
    KeptFirst(s, o, |FirstLists(s, k - 1)| + p);
    x :| 0 <= x < |FirstLists(s, k - 1)| + p && Priority(s)[x] == o;
  }

  lemma NextList(s: Scene, k: nat)
    requires k > 0
    ensures FirstLists(s, k) == FirstLists(s, k - 1) + ListOf(s, k)
  {
    hide ListOf;
  }

  /**
   If somebody on level k is left out, everybody shown is on level k or one before. And somebody shown for level k
   alone is no farther off, or, among the recipient's own shots, comes first in the slab.
   */
  lemma NearerFirst(s: Scene, rx: int, ry: int, e: Entity, o: Entity, k: nat)
    requires Distinct(s.entities) && LooksFrom(s, rx, ry)
    requires e in s.entities && OnLevel(s, rx, ry, e, k) && e !in View(s) && o in View(s)
    ensures exists j :: 1 <= j <= k && OnLevel(s, rx, ry, o, j)
    ensures (forall j | 1 <= j < k :: !OnLevel(s, rx, ry, o, j)) && k in {2, 4, 5, 6, 7} ==> NotFarther(rx, ry, o, e)
    ensures (forall j | 1 <= j < k :: !OnLevel(s, rx, ry, o, j)) && k == 3 ==> Before(s.entities, o, e)
  {
    hide *;
    EyeIs(s, rx, ry);
    var p, x := ShownEarlier(s, rx, ry, e, o, k);
    NextList(s, k);
    if x < |FirstLists(s, k - 1)| {
      EarlierLevel(s, rx, ry, k - 1, o, x);
    } else {
      OnList(s, rx, ry, k, o);
      InList(s, rx, ry, k, x - |FirstLists(s, k - 1)|, p);
    }
  }

  lemma LevelRange(s: Scene, rx: int, ry: int, e: Entity, k: nat)
    requires OnLevel(s, rx, ry, e, k)
    ensures 1 <= k <= 7
  {
  }


  lemma NotCarried(s: Scene, e: Entity)
    requires Distinct(s.entities) && e in s.entities && e !in Chosen(s)
    ensures !Carries(Chosen(s), e.id)
  {
    ChosenCount(s);
    if Carries(Chosen(s), e.id) {
      OnItsOwnID(s, Chosen(s), e);
    }
    hide Dedup, Take, Priority, Distinct;
  }

  lemma {:induction false} EarlierLevel(s: Scene, rx: int, ry: int, k: nat, o: Entity, x: nat)
    requires Eye(s) == (rx, ry) && k <= 7 && x < |FirstLists(s, k)| && FirstLists(s, k)[x] == o
    ensures exists j :: 1 <= j <= k && OnLevel(s, rx, ry, o, j)
  {
    hide ListOf, OnLevel, Eye;
    if x < |FirstLists(s, k - 1)| {
      EarlierLevel(s, rx, ry, k - 1, o, x);
      var j :| 1 <= j <= k - 1 && OnLevel(s, rx, ry, o, j);
    } else {
      assert o in ListOf(s, k);
      OnList(s, rx, ry, k, o);
    }
  }
}
