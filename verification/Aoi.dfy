/** What each player is sent of the world: a priority order, a cap of 64, and ID order on the wire. */
module Aoi {
  import opened Entities
  import opened Ranking
  import Physics
  import W = SnapshotCodec

  const PROJ_INNER := 20
  const PROJ_OUTER := 24
  const SNIPE_GEN_INNER := 40
  const SNIPE_GEN_OUTER := 44
  const CAP := 64

  function Gap(a: int, b: int): nat { if a < b then b - a else a - b }

  function Larger(a: nat, b: nat): nat { if a < b then b else a }

  /** Distance in whole tiles along the longer axis. */
  function Tiles(px: int, py: int, qx: int, qy: int): nat {
    Larger(Gap(px, qx), Gap(py, qy)) / 256
  }

  function ByDistance(rx: int, ry: int): Order {
    (a: Entity, b: Entity) => Tiles(rx, ry, a.x, a.y) < Tiles(rx, ry, b.x, b.y)
                              || (Tiles(rx, ry, a.x, a.y) == Tiles(rx, ry, b.x, b.y) && a.id <= b.id)
  }

  function ByID(): Order { (a: Entity, b: Entity) => a.id <= b.id }

  lemma OrdersTotal(rx: int, ry: int)
    ensures Total(ByDistance(rx, ry)) && Total(ByID())
  {
    hide Tiles;
  }

  // ---- the seven levels ----

  /**
   What a snapshot is built from: the slab in ID order, who fired what, the recipient, and what it was sent last time.
   */
  datatype Scene = Scene(entities: seq<Entity>, shooters: map<ID, ID>, me: ID, prev: set<ID>, width: nat, height: nat)

  predicate Living(e: Entity) { !e.flags.dead }

  predicate IsMe(s: Scene, e: Entity) { e.id == s.me && Living(e) }

  predicate HasSelf(s: Scene) { exists i | 0 <= i < |s.entities| :: IsMe(s, s.entities[i]) }

  /** Where the recipient stands, or the middle of the map. */
  function Eye(s: Scene): (int, int) {
    var mine := Filter(s.entities, (e: Entity) => IsMe(s, e));
    if mine != [] then (mine[0].x, mine[0].y) else (s.width * 256 / 2, s.height * 256 / 2)
  }

  predicate OtherPlayer(s: Scene, e: Entity) { e.id != s.me && e.kind == Player && Living(e) }

  predicate OwnShot(s: Scene, e: Entity) {
    e.kind == Projectile && Living(e) && (if e.id in s.shooters then s.shooters[e.id] else 0) == s.me
  }

  /** Close enough, or close enough to keep what was there last time. */
  predicate InBand(s: Scene, kind: Kind, inner: nat, outer: nat, e: Entity) {
    var d := Tiles(Eye(s).0, Eye(s).1, e.x, e.y);
    e.id != s.me && e.kind == kind && Living(e) && (d <= inner || (e.id in s.prev && d <= outer))
  }

  function Ranked(s: Scene, p: Entity -> bool): seq<Entity> {
    Sort(ByDistance(Eye(s).0, Eye(s).1), Filter(s.entities, p))
  }

  function Self(s: Scene): seq<Entity> { Filter(s.entities, (e: Entity) => IsMe(s, e)) }
  function Players(s: Scene): seq<Entity> { Ranked(s, (e: Entity) => OtherPlayer(s, e)) }
  function OwnShots(s: Scene): seq<Entity> { Filter(s.entities, (e: Entity) => OwnShot(s, e)) }
  function Band(s: Scene, kind: Kind, inner: nat, outer: nat): seq<Entity> {
    Ranked(s, (e: Entity) => InBand(s, kind, inner, outer, e))
  }
  function NearShots(s: Scene): seq<Entity> { Band(s, Projectile, PROJ_INNER, PROJ_OUTER) }
  function NearGenerators(s: Scene): seq<Entity> { Band(s, Generator, SNIPE_GEN_INNER, SNIPE_GEN_OUTER) }
  function NearSnipes(s: Scene): seq<Entity> { Band(s, Snipe, SNIPE_GEN_INNER, SNIPE_GEN_OUTER) }
  function Filler(s: Scene): seq<Entity> { Ranked(s, (e: Entity) => Living(e)) }

  /** All seven levels in order, repeats and all. */
  function Priority(s: Scene): seq<Entity> {
    Self(s) + Players(s) + OwnShots(s) + NearShots(s) + NearGenerators(s) + NearSnipes(s) + Filler(s)
  }

  /** The first 64 of the priority list without repeats, in ID order. */
  function Chosen(s: Scene): seq<Entity> { Take(Dedup(Priority(s)), CAP) }

  function View(s: Scene): seq<Entity> { Sort(ByID(), Chosen(s)) }

  // ---- the code ----

  lemma FullStays(out: seq<Entity>, l: seq<Entity>)
    requires |out| >= CAP
    ensures AddAll(out, l, CAP) == out
  {
    if l != [] { FullStays(out, l[..|l| - 1]); }
  }

  lemma AddNext(out0: seq<Entity>, l: seq<Entity>, i: nat)
    requires i < |l|
    ensures AddAll(out0, l[..i + 1], CAP) == Add(AddAll(out0, l[..i], CAP), l[i], CAP)
  {
    assert l[..i + 1][..i] == l[..i];
  }

  lemma AddRest(out0: seq<Entity>, l: seq<Entity>, i: nat)
    requires i <= |l| && |AddAll(out0, l[..i], CAP)| >= CAP
    ensures AddAll(out0, l, CAP) == AddAll(out0, l[..i], CAP)
  {
    AddAllConcat(out0, l[..i], l[i..], CAP);
    assert l[..i] + l[i..] == l;
    FullStays(AddAll(out0, l[..i], CAP), l[i..]);
  }

  /** Add the candidates in order until one does not fit. */
  method AddInOrder(out0: seq<Entity>, included0: set<ID>, l: seq<Entity>) returns (out: seq<Entity>, included: set<ID>)
    requires forall id :: id in included0 <==> Carries(out0, id)
    ensures out == AddAll(out0, l, CAP) && forall id :: id in included <==> Carries(out, id)
  {
    out, included := out0, included0;
    hide AddAll;
    assert AddAll(out0, l[..0], CAP) == out0 by { NothingAdded(out0, l); }
    for i := 0 to |l|
      invariant out == AddAll(out0, l[..i], CAP) && forall id :: id in included <==> Carries(out, id)
    {
      AddNext(out0, l, i);
      var e := l[i];
      if e.id !in included {
        if |out| >= CAP {
          AddRest(out0, l, i);
          return;
        }
        ghost var was := out;
        out, included := out + [e], included + {e.id};
        MoreCarried(was, e);
      }
    }
    assert l[..|l|] == l;
  }

  lemma NothingAdded(out: seq<Entity>, l: seq<Entity>)
    ensures AddAll(out, l[..0], CAP) == out
  {
  }

  lemma MoreCarried(out: seq<Entity>, e: Entity)
    ensures forall id :: Carries(out + [e], id) <==> Carries(out, id) || id == e.id
  {
    var more := out + [e];
    forall id
      ensures Carries(more, id) <==> Carries(out, id) || id == e.id
    {
      if Carries(out, id) {
        var i :| 0 <= i < |out| && out[i].id == id;
        assert more[i].id == id;
      }
      if id == e.id { assert more[|out|].id == id; }
    }
  }

  /** Pass by pass, the filler looking only at what is not in yet; and the recipient's memory for next time. */
  method BuildView(s: Scene) returns (wire: seq<Entity>, prev: set<ID>, you: ID)
    requires Distinct(s.entities)
    ensures wire == View(s) && (forall id :: id in prev <==> Carries(Chosen(s), id))
    ensures you == if HasSelf(s) then s.me else 0
  {
    var out: seq<Entity>, included: set<ID> := [], {};
    hide AddAll, Self, Players, OwnShots, NearShots, NearGenerators, NearSnipes, Filler, Ranked;
    hide Priority, Chosen, View, Carries, Sort, HasSelf, ByID, Distinct;
    NobodyCarried();
    ghost var a := Self(s);
    out, included := AddInOrder(out, included, Self(s));
    you := if out == [] then 0 else s.me;
    SelfShown(s, out);
    out, included := AddInOrder(out, included, Players(s));
    AddAllConcat([], a, Players(s), CAP);
    a := a + Players(s);
    out, included := AddInOrder(out, included, OwnShots(s));
    AddAllConcat([], a, OwnShots(s), CAP);
    a := a + OwnShots(s);
    out, included := AddInOrder(out, included, NearShots(s));
    AddAllConcat([], a, NearShots(s), CAP);
    a := a + NearShots(s);
    out, included := AddInOrder(out, included, NearGenerators(s));
    AddAllConcat([], a, NearGenerators(s), CAP);
    a := a + NearGenerators(s);
    out, included := AddInOrder(out, included, NearSnipes(s));
    AddAllConcat([], a, NearSnipes(s), CAP);
    a := a + NearSnipes(s);
    var left := Ranked(s, (e: Entity) => !e.flags.dead && e.id !in included);
    FillerSame(s, out, included, left);
    out, included := AddInOrder(out, included, left);
    AddAllConcat([], a, Filler(s), CAP);
    ChosenIs(s, a, out);
    prev := included;
    wire := Sort(ByID(), out);
    ViewIs(s);
  }

  lemma NobodyCarried()
    ensures forall id :: !Carries([], id)
  {
  }

  lemma ViewIs(s: Scene)
    ensures View(s) == Sort(ByID(), Chosen(s))
  {
  }

  lemma SelfShown(s: Scene, out: seq<Entity>)
    requires out == AddAll([], Self(s), CAP)
    ensures out == [] <==> !HasSelf(s)
  {
    AddAllIs(Self(s), CAP);
    DedupIs(Self(s));
    FilterIs(s.entities, (e: Entity) => IsMe(s, e));
    if HasSelf(s) {
      var i :| 0 <= i < |s.entities| && IsMe(s, s.entities[i]);
      assert s.entities[i] in Self(s);
      assert Carries(Dedup(Self(s)), s.me);
    }
  }

  /** The filler that skips what is in already adds what the whole filler would. */
  lemma FillerSame(s: Scene, out: seq<Entity>, included: set<ID>, left: seq<Entity>)
    requires (forall id :: id in included <==> Carries(out, id))
    requires left == Ranked(s, (e: Entity) => !e.flags.dead && e.id !in included)
    ensures AddAll(out, left, CAP) == AddAll(out, Filler(s), CAP)
  {
    var le := ByDistance(Eye(s).0, Eye(s).1);
    OrdersTotal(Eye(s).0, Eye(s).1);
    var p := (e: Entity) => Living(e);
    var q := (e: Entity) => e.id !in included;
    var both := (e: Entity) => !e.flags.dead && e.id !in included;
    FilterTwice(s.entities, p, q, both);
    FilterSort(le, Filter(s.entities, p), q);
    AddAllFresh(out, Filler(s), CAP, q);
  }

  lemma {:induction false} FilterTwice(l: seq<Entity>, p: Entity -> bool, q: Entity -> bool, both: Entity -> bool)
    requires forall e :: both(e) <==> p(e) && q(e)
    ensures Filter(Filter(l, p), q) == Filter(l, both)
  {
    if l != [] {
      var front, last := l[..|l| - 1], l[|l| - 1];
      FilterTwice(front, p, q, both);
      if p(last) { assert (Filter(front, p) + [last])[..|Filter(front, p)|] == Filter(front, p); }
    }
  }

  lemma ChosenIs(s: Scene, a: seq<Entity>, out: seq<Entity>)
    requires a == Self(s) + Players(s) + OwnShots(s) + NearShots(s) + NearGenerators(s) + NearSnipes(s)
    requires out == AddAll([], a + Filler(s), CAP)
    ensures out == Chosen(s)
  {
    assert a + Filler(s) == Priority(s);
    AddAllIs(Priority(s), CAP);
  }

  // ---- what the snapshot holds ----

  function LiveOnes(s: Scene): seq<Entity> { Filter(s.entities, (e: Entity) => Living(e)) }

  lemma RankedIs(s: Scene, p: Entity -> bool)
    ensures forall e :: e in Ranked(s, p) <==> e in s.entities && p(e)
    ensures |Ranked(s, p)| == |Filter(s.entities, p)|
  {
    OrdersTotal(Eye(s).0, Eye(s).1);
    SortIs(ByDistance(Eye(s).0, Eye(s).1), Filter(s.entities, p));
    SameMembers(Ranked(s, p), Filter(s.entities, p));
    FilterIs(s.entities, p);
  }

  /** Every level holds live entities only, and the last holds them all. */
  lemma PriorityLive(s: Scene)
    ensures forall e | e in Priority(s) :: e in s.entities && Living(e)
    ensures forall e | e in s.entities && Living(e) :: e in Priority(s)
  {
    FilterIs(s.entities, (e: Entity) => IsMe(s, e));
    FilterIs(s.entities, (e: Entity) => OwnShot(s, e));
    RankedIs(s, (e: Entity) => OtherPlayer(s, e));
    RankedIs(s, (e: Entity) => InBand(s, Projectile, PROJ_INNER, PROJ_OUTER, e));
    RankedIs(s, (e: Entity) => InBand(s, Generator, SNIPE_GEN_INNER, SNIPE_GEN_OUTER, e));
    RankedIs(s, (e: Entity) => InBand(s, Snipe, SNIPE_GEN_INNER, SNIPE_GEN_OUTER, e));
    RankedIs(s, (e: Entity) => Living(e));
    hide Ranked, Filter, Tiles, Eye;
  }

  lemma SameEntity(s: Scene, a: Entity, b: Entity)
    requires Distinct(s.entities) && a in s.entities && b in s.entities && a.id == b.id
    ensures a == b
  {
    var i :| 0 <= i < |s.entities| && s.entities[i] == a;
    var j :| 0 <= j < |s.entities| && s.entities[j] == b;
    assert !(i < j) && !(j < i);
  }

  /** A list without repeated IDs, all of them from another such list, is no longer than it. */
  lemma {:induction false} NoLonger(a: seq<Entity>, b: seq<Entity>)
    requires Distinct(a) && forall e | e in a :: Carries(b, e.id)
    ensures |a| <= |b|
  {
    var ia := set i | 0 <= i < |a| :: a[i].id;
    var ib := set i | 0 <= i < |b| :: b[i].id;
    CountIDs(a);
    CountIDs(b);
    forall id | id in ia
      ensures id in ib
    {
      var i :| 0 <= i < |a| && a[i].id == id;
      assert a[i] in a;
      var j :| 0 <= j < |b| && b[j].id == id;
    }
    SubsetSize(ia, ib);
  }

  lemma SubsetSize(a: set<ID>, b: set<ID>)
    requires a <= b
    ensures |a| <= |b|
  {
    assert b == a + (b - a);
    assert |b| == |a| + |b - a|;
  }

  lemma {:induction false} CountIDs(l: seq<Entity>)
    ensures var ids := set i | 0 <= i < |l| :: l[i].id; |ids| <= |l| && (Distinct(l) ==> |ids| == |l|)
  {
    if l != [] {
      var front := l[..|l| - 1];
      CountIDs(front);
      var a, b := set i | 0 <= i < |front| :: front[i].id, set i | 0 <= i < |l| :: l[i].id;
      assert b == a + {l[|l| - 1].id} by {
        assert forall i | 0 <= i < |front| :: front[i] == l[i];
        assert forall i | 0 <= i < |l| :: i < |front| || l[i].id == l[|l| - 1].id;
      }
      if Distinct(l) { assert Distinct(front) && l[|l| - 1].id !in a; }
    }
  }

  lemma LiveOnesIs(s: Scene)
    ensures forall e :: e in LiveOnes(s) <==> e in s.entities && Living(e)
    ensures Distinct(s.entities) ==> Distinct(LiveOnes(s))
  {
    FilterIs(s.entities, (e: Entity) => Living(e));
  }

  lemma CarriesMember(l: seq<Entity>, e: Entity)
    requires e in l
    ensures Carries(l, e.id)
  {
    var i :| 0 <= i < |l| && l[i] == e;
    assert l[i].id == e.id;
  }

  /** Without repeats the priority list is every live entity once. */
  lemma DedupLive(s: Scene)
    requires Distinct(s.entities)
    ensures var d := Dedup(Priority(s));
            Distinct(d) && (forall e | e in d :: e in s.entities && Living(e)) && |d| == |LiveOnes(s)|
  {
    PriorityLive(s);
    LiveOnesIs(s);
    DedupIs(Priority(s));
    hide Dedup, Priority, LiveOnes;
    var d := Dedup(Priority(s));
    forall e | e in d
      ensures Carries(LiveOnes(s), e.id)
    {
      CarriesMember(LiveOnes(s), e);
    }
    forall e | e in LiveOnes(s)
      ensures Carries(d, e.id)
    {
      assert e in Priority(s);
    }
    hide Carries, Distinct;
    NoLonger(d, LiveOnes(s));
    NoLonger(LiveOnes(s), d);
  }

  lemma TakeIs(d: seq<Entity>, cap: nat)
    ensures (forall e | e in Take(d, cap) :: e in d) && (Distinct(d) ==> Distinct(Take(d, cap)))
    ensures |Take(d, cap)| == if |d| <= cap then |d| else cap
  {
  }

  /** As many entities as there are, or 64; none dead, none twice. */
  lemma ChosenCount(s: Scene)
    requires Distinct(s.entities)
    ensures Distinct(Chosen(s)) && (forall e | e in Chosen(s) :: e in s.entities && Living(e))
    ensures |Chosen(s)| == if |LiveOnes(s)| <= CAP then |LiveOnes(s)| else CAP
  {
    DedupLive(s);
    hide Dedup, Priority, LiveOnes, Distinct, Take;
    TakeIs(Dedup(Priority(s)), CAP);
  }

  /** A candidate among the first occurrences is the entity itself. */
  lemma OnItsOwnID(s: Scene, l: seq<Entity>, e: Entity)
    requires Distinct(s.entities) && e in s.entities && Carries(l, e.id) && forall x | x in l :: x in s.entities
    ensures e in l
  {
    var i :| 0 <= i < |l| && l[i].id == e.id;
    assert l[i] in l;
    SameEntity(s, l[i], e);
  }

  /** When everything alive fits, everything alive is there. */
  lemma AllIfItFits(s: Scene, e: Entity)
    requires Distinct(s.entities) && e in s.entities && Living(e) && |LiveOnes(s)| <= CAP
    ensures e in View(s)
  {
    DedupLive(s);
    PriorityLive(s);
    DedupIs(Priority(s));
    InView(s, e);
    hide Dedup, Priority, LiveOnes, Distinct, View;
    OnItsOwnID(s, Dedup(Priority(s)), e);
  }

  lemma InView(s: Scene, e: Entity)
    ensures e in View(s) <==> e in Chosen(s)
  {
    OrdersTotal(0, 0);
    SortIs(ByID(), Chosen(s));
    SameMembers(View(s), Chosen(s));
  }

  lemma FirstShown(s: Scene, first: seq<Entity>, rest: seq<Entity>, e: Entity)
    requires Distinct(s.entities) && Priority(s) == first + rest && e in first && |first| <= CAP
             && (forall x | x in first :: x in s.entities)
    ensures e in View(s)
  {
    DedupIs(first);
    DedupPrefix(first, rest);
    InView(s, e);
    hide Dedup, Priority, Distinct, View, Carries;
    var d, all := Dedup(first), Dedup(Priority(s));
    OnItsOwnID(s, d, e);
    var i :| 0 <= i < |d| && d[i] == e;
    assert all[i] == e && i < CAP;
    assert Chosen(s)[i] == e;
  }

  /** The live recipient and every other live player are always there, however crowded the map. */
  lemma PlayersAlwaysShown(s: Scene, e: Entity)
    requires Distinct(s.entities) && e in s.entities && Living(e) && (e.id == s.me || e.kind == Player)
    requires |Self(s)| + |Players(s)| <= CAP
    ensures e in View(s)
  {
    var first := Self(s) + Players(s);
    var rest := OwnShots(s) + NearShots(s) + NearGenerators(s) + NearSnipes(s) + Filler(s);
    assert Priority(s) == first + rest;
    FilterIs(s.entities, (x: Entity) => IsMe(s, x));
    RankedIs(s, (x: Entity) => OtherPlayer(s, x));
    assert forall x :: x in Self(s) <==> x in s.entities && IsMe(s, x);
    assert forall x :: x in Players(s) <==> x in s.entities && OtherPlayer(s, x);
    hide Priority, Self, Players, View;
    assert e in Self(s) || e in Players(s);
    FirstShown(s, first, rest, e);
  }

  /** The slab never holds more players than a match admits, so the bound above is met. */
  lemma FewPlayers(s: Scene, max: nat)
    requires Distinct(s.entities) && max + 1 <= CAP
    requires |Filter(s.entities, (e: Entity) => e.kind == Player)| <= max
    ensures |Self(s)| + |Players(s)| <= CAP
  {
    FilterIs(s.entities, (e: Entity) => IsMe(s, e));
    FilterIs(s.entities, (e: Entity) => e.kind == Player);
    FilterIs(s.entities, (e: Entity) => OtherPlayer(s, e));
    RankedIs(s, (e: Entity) => OtherPlayer(s, e));
    var others := Filter(s.entities, (e: Entity) => OtherPlayer(s, e));
    forall e | e in others
      ensures Carries(Filter(s.entities, (x: Entity) => x.kind == Player), e.id)
    {
      assert e in Filter(s.entities, (x: Entity) => x.kind == Player);
    }
    NoLonger(others, Filter(s.entities, (e: Entity) => e.kind == Player));
    AtMostOne(Self(s), s.me);
  }

  lemma AtMostOne(l: seq<Entity>, id: ID)
    requires Distinct(l) && forall e | e in l :: e.id == id
    ensures |l| <= 1
  {
    if l != [] {
      forall e | e in l
        ensures Carries([l[0]], e.id)
      {
        assert l[0] in l && [l[0]][0].id == e.id;
      }
      NoLonger(l, [l[0]]);
    }
  }

  // ---- on the wire ----

  function FlagBits(f: Flags): nat {
    (if f.dead then 1 else 0) + (if f.invuln then 2 else 0) + if f.turbo then 4 else 0
  }

  function KindCode(k: Kind): nat {
    match k
    case NoKind => 0
    case Player => 1
    case Generator => 2
    case Projectile => 3
    case Snipe => 4
  }

  function FacingCode(d: Physics.Dir): nat {
    match d
    case Idle => 0
    case N => 1
    case NE => 2
    case E => 3
    case SE => 4
    case S => 5
    case SW => 6
    case W => 7
    case NW => 8
  }

  /** Within the widths of the fields it travels in. */
  predicate Sized(e: Entity) {
    && e.id < 0x1_0000_0000 && e.hp < 256 && -0x8000_0000 <= e.x < 0x8000_0000 && -0x8000_0000 <= e.y < 0x8000_0000
    && -0x8000 <= e.vx < 0x8000 && -0x8000 <= e.vy < 0x8000
  }

  function Wire(e: Entity): W.WireEntity
    requires Sized(e)
  {
    W.WireEntity(e.id, KindCode(e.kind), e.hp, FacingCode(e.facing), FlagBits(e.flags), e.x, e.y, e.vx, e.vy)
  }

  const KINDS := [NoKind, Player, Generator, Projectile, Snipe]
  const FACINGS := [Physics.Idle, Physics.N, Physics.NE, Physics.E, Physics.SE, Physics.S, Physics.SW, Physics.W,
                    Physics.NW]

  /** Everything about an entity can be read off again: the codes index the lists, the flags are the three low bits. */
  lemma ReadsBack(e: Entity)
    requires Sized(e)
    ensures var w := Wire(e);
            && (w.id, w.hp, w.x, w.y, w.vx, w.vy) == (e.id, e.hp, e.x, e.y, e.vx, e.vy)
            && w.kind < 5 && KINDS[w.kind] == e.kind && w.facing < 9 && FACINGS[w.facing] == e.facing
            && w.flags < 8 && e.flags == Flags(w.flags % 2 == 1, w.flags / 2 % 2 == 1, w.flags / 4 == 1)
  {
  }

  function WireAll(es: seq<Entity>): seq<W.WireEntity>
    requires forall i | 0 <= i < |es| :: Sized(es[i])
  {
    seq(|es|, i requires 0 <= i < |es| => Wire(es[i]))
  }

  /** Putting distinct entities in ID order makes the IDs strictly ascending. */
  lemma AscendByID(l: seq<Entity>)
    requires Distinct(l)
    ensures forall i, j | 0 <= i < j < |Sort(ByID(), l)| :: Sort(ByID(), l)[i].id < Sort(ByID(), l)[j].id
    ensures |Sort(ByID(), l)| == |l| && forall e :: e in Sort(ByID(), l) <==> e in l
  {
    OrdersTotal(0, 0);
    SortIs(ByID(), l);
    SameMembers(Sort(ByID(), l), l);
    StillDistinct(l, Sort(ByID(), l));
    var v := Sort(ByID(), l);
    hide Sort;
    forall i, j | 0 <= i < j < |v|
      ensures v[i].id < v[j].id
    {
      assert ByID()(v[i], v[j]);
    }
  }

  /** Strictly ascending IDs, at most 64 of them, and only known flags: the snapshot always encodes. */
  lemma AlwaysEncodes(s: Scene, tick: nat, lastInput: nat, you: nat)
    requires Distinct(s.entities) && forall i | 0 <= i < |s.entities| :: Sized(s.entities[i])
    requires tick < 0x1_0000_0000 && lastInput < 0x1_0000 && you < 0x1_0000_0000
    ensures forall i, j | 0 <= i < j < |View(s)| :: View(s)[i].id < View(s)[j].id
    ensures forall i | 0 <= i < |View(s)| :: Sized(View(s)[i])
    ensures W.SnapshotOK(W.Snapshot(tick, lastInput, you, WireAll(View(s))))
  {
    ChosenCount(s);
    AscendByID(Chosen(s));
    var v := View(s);
    assert |v| <= CAP && forall e | e in v :: e in s.entities;
    assert forall i, j | 0 <= i < j < |v| :: v[i].id < v[j].id;
    hide View, Chosen, Distinct;
    forall i | 0 <= i < |v|
      ensures Sized(v[i])
    {
      assert v[i] in v;
      var k :| 0 <= k < |s.entities| && s.entities[k] == v[i];
    }
  }

  // ---- the dead watch everything ----

  /** Closeness to the middle of the map, in subtiles. */
  function FromMiddle(w: nat, h: nat): Order {
    (a: Entity, b: Entity) =>
      var da, db := Larger(Gap(a.x, w * 256 / 2), Gap(a.y, h * 256 / 2)),
        Larger(Gap(b.x, w * 256 / 2), Gap(b.y, h * 256 / 2));
      da < db || (da == db && a.id <= b.id)
  }

  function DeadCam(s: Scene): seq<Entity> {
    Sort(ByID(), Take(Sort(FromMiddle(s.width, s.height), LiveOnes(s)), CAP))
  }

  /** The first of a sorted list: from the list, and none left out comes before one kept. */
  lemma TopIs(le: Order, l: seq<Entity>, cap: nat)
    requires Total(le) && Distinct(l)
    ensures var top := Take(Sort(le, l), cap);
            && Distinct(top) && |top| == (if |l| <= cap then |l| else cap) && (forall e | e in top :: e in l)
            && (forall e, f | e in top && f in l && f !in top :: le(e, f))
            && (|l| <= cap ==> forall e | e in l :: e in top)
  {
    var ranked := Sort(le, l);
    SortIs(le, l);
    SameMembers(ranked, l);
    StillDistinct(l, ranked);
    hide Sort;
    TakeIs(ranked, cap);
    var top := Take(ranked, cap);
    assert forall k | 0 <= k < |top| :: top[k] == ranked[k] && ranked[k] in top;
    forall e, f | e in top && f in l && f !in top
      ensures le(e, f)
    {
      var i :| 0 <= i < |top| && top[i] == e;
      var j :| 0 <= j < |ranked| && ranked[j] == f;
      assert ranked[i] == e;
    }
  }

  /** How far from the middle of the map, by the axis on which it is farther. */
  function OffMiddle(s: Scene, e: Entity): int {
    var dx, dy := e.x - 128 * s.width, e.y - 128 * s.height;
    var a, b := if dx < 0 then -dx else dx, if dy < 0 then -dy else dy;
    if a > b then a else b
  }

  lemma MiddleIs(s: Scene, e: Entity, f: Entity)
    ensures FromMiddle(s.width, s.height)(e, f)
            <==> OffMiddle(s, e) < OffMiddle(s, f) || (OffMiddle(s, e) == OffMiddle(s, f) && e.id <= f.id)
  {
    OffMiddleIs(s, e);
    OffMiddleIs(s, f);
    hide OffMiddle, Larger, Gap;
  }

  lemma OffMiddleIs(s: Scene, e: Entity)
    ensures Larger(Gap(e.x, s.width * 256 / 2), Gap(e.y, s.height * 256 / 2)) == OffMiddle(s, e)
  {
    assert s.width * 256 / 2 == 128 * s.width && s.height * 256 / 2 == 128 * s.height;
  }

  lemma MiddleTotal(w: nat, h: nat)
    ensures Total(FromMiddle(w, h))
  {
  }

  /** Every live entity if they fit, otherwise the 64 nearest the middle; ascending IDs either way. */
  lemma DeadCamShows(s: Scene, e: Entity, f: Entity)
    requires Distinct(s.entities)
    ensures forall i, j | 0 <= i < j < |DeadCam(s)| :: DeadCam(s)[i].id < DeadCam(s)[j].id
    ensures |DeadCam(s)| == if |LiveOnes(s)| <= 64 then |LiveOnes(s)| else 64
    ensures e in DeadCam(s) ==> e in s.entities && !e.flags.dead
    ensures |LiveOnes(s)| <= 64 ==> (e in DeadCam(s) <==> e in s.entities && !e.flags.dead)
    ensures e in DeadCam(s) && f in s.entities && !f.flags.dead && f !in DeadCam(s) ==>
              OffMiddle(s, e) < OffMiddle(s, f) || (OffMiddle(s, e) == OffMiddle(s, f) && e.id <= f.id)
  {
    var le := FromMiddle(s.width, s.height);
    hide LiveOnes, Sort, Take, FromMiddle, OffMiddle;
    assert Total(le) by { MiddleTotal(s.width, s.height); }
    MiddleIs(s, e, f);
    LiveOnesIs(s);
    TopIs(le, LiveOnes(s), CAP);
    AscendByID(Take(Sort(le, LiveOnes(s)), CAP));
  }
}
