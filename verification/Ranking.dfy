/** Sorting by a total order, filtering, and taking first occurrences. */
module Ranking {
  import opened Sequences
  import opened Entities

  type Order = (Entity, Entity) -> bool

  ghost predicate Total(le: Order) {
    && (forall a: Entity, b: Entity :: le(a, b) || le(b, a))
    && (forall a: Entity, b: Entity, c: Entity :: le(a, b) && le(b, c) ==> le(a, c))
  }

  function Insert(le: Order, l: seq<Entity>, e: Entity): seq<Entity> {
    if l == [] || le(l[|l| - 1], e) then l + [e] else Insert(le, l[..|l| - 1], e) + [l[|l| - 1]]
  }

  function Sort(le: Order, l: seq<Entity>): seq<Entity> {
    if l == [] then [] else Insert(le, Sort(le, l[..|l| - 1]), l[|l| - 1])
  }

  ghost predicate InOrder(le: Order, l: seq<Entity>) {
    forall i, j | 0 <= i < j < |l| :: le(l[i], l[j])
  }

  lemma {:induction false} InsertPermutes(le: Order, l: seq<Entity>, e: Entity)
    ensures multiset(Insert(le, l, e)) == multiset(l) + multiset{e}
  {
    if l != [] && !le(l[|l| - 1], e) {
      InsertPermutes(le, l[..|l| - 1], e);
      assert l == l[..|l| - 1] + [l[|l| - 1]];
    }
  }

  lemma AppendOrdered(le: Order, l: seq<Entity>, e: Entity)
    requires InOrder(le, l) && forall i | 0 <= i < |l| :: le(l[i], e)
    ensures InOrder(le, l + [e])
  {
  }

  lemma InsertBelow(le: Order, l: seq<Entity>, e: Entity, top: Entity)
    requires (forall i | 0 <= i < |l| :: le(l[i], top)) && le(e, top)
    ensures forall i | 0 <= i < |Insert(le, l, e)| :: le(Insert(le, l, e)[i], top)
  {
    var r := Insert(le, l, e);
    InsertPermutes(le, l, e);
    forall i | 0 <= i < |r|
      ensures le(r[i], top)
    {
      assert r[i] in multiset(r);
      assert r[i] in l || r[i] == e;
    }
  }

  lemma {:induction false} InsertIs(le: Order, l: seq<Entity>, e: Entity)
    requires Total(le) && InOrder(le, l)
    ensures InOrder(le, Insert(le, l, e)) && multiset(Insert(le, l, e)) == multiset(l) + multiset{e}
  {
    InsertPermutes(le, l, e);
    if l == [] {
    } else if le(l[|l| - 1], e) {
      forall i | 0 <= i < |l|
        ensures le(l[i], e)
      {
        assert i < |l| - 1 ==> le(l[i], l[|l| - 1]);
      }
      AppendOrdered(le, l, e);
    } else {
      var front, last := l[..|l| - 1], l[|l| - 1];
      InsertIs(le, front, e);
      assert le(e, last);
      InsertBelow(le, front, e, last);
      AppendOrdered(le, Insert(le, front, e), last);
    }
  }

  lemma {:induction false} SortIs(le: Order, l: seq<Entity>)
    requires Total(le)
    ensures InOrder(le, Sort(le, l)) && multiset(Sort(le, l)) == multiset(l)
  {
    if l != [] {
      SortIs(le, l[..|l| - 1]);
      InsertIs(le, Sort(le, l[..|l| - 1]), l[|l| - 1]);
      assert l == l[..|l| - 1] + [l[|l| - 1]];
    }
  }

  lemma SameMembers(a: seq<Entity>, b: seq<Entity>)
    requires multiset(a) == multiset(b)
    ensures |a| == |b| && forall e :: e in a <==> e in b
  {
    assert |multiset(a)| == |multiset(b)|;
    forall e
      ensures e in a <==> e in b
    {
      assert e in a <==> e in multiset(a);
      assert e in b <==> e in multiset(b);
    }
  }

  /** Distinct IDs stay distinct under any reordering. */
  lemma StillDistinct(a: seq<Entity>, b: seq<Entity>)
    requires multiset(a) == multiset(b) && Distinct(a)
    ensures Distinct(b)
  {
    forall i, j | 0 <= i < j < |b|
      ensures b[i].id != b[j].id
    {
      if b[i].id == b[j].id {
        SameMembers(a, b);
        assert b[i] in a && b[j] in a;
        var x :| 0 <= x < |a| && a[x] == b[i];
        var y :| 0 <= y < |a| && a[y] == b[j];
        assert x == y;
        Twice(b, i, j);
        Once(a, x);
      }
    }
  }

  lemma Once(a: seq<Entity>, x: int)
    requires Distinct(a) && 0 <= x < |a|
    ensures multiset(a)[a[x]] == 1
  {
    var l, r := a[..x], a[x + 1..];
    assert a == l + [a[x]] + r;
    assert a[x] !in multiset(l) && a[x] !in multiset(r);
  }

  // ---- filtering ----

  function Filter(l: seq<Entity>, p: Entity -> bool): seq<Entity> {
    if l == [] then []
    else
      var rest := Filter(l[..|l| - 1], p);
      if p(l[|l| - 1]) then rest + [l[|l| - 1]] else rest
  }

  lemma {:induction false} FilterIs(l: seq<Entity>, p: Entity -> bool)
    ensures forall e :: e in Filter(l, p) <==> e in l && p(e)
    ensures Distinct(l) ==> Distinct(Filter(l, p))
    ensures |Filter(l, p)| <= |l|
  {
    if l != [] {
      var front := l[..|l| - 1];
      FilterIs(front, p);
      assert l == front + [l[|l| - 1]];
      if Distinct(l) {
        assert Distinct(front);
        forall i | 0 <= i < |Filter(front, p)|
          ensures Filter(front, p)[i].id != l[|l| - 1].id
        {
          assert Filter(front, p)[i] in front;
        }
      }
    }
  }

  lemma {:induction false} FilterInsert(le: Order, l: seq<Entity>, e: Entity, p: Entity -> bool)
    requires Total(le) && InOrder(le, l)
    ensures Filter(Insert(le, l, e), p) == if p(e) then Insert(le, Filter(l, p), e) else Filter(l, p)
  {
    if l == [] || le(l[|l| - 1], e) {
      assert (l + [e])[..|l|] == l;
      FilterIs(l, p);
      if Filter(l, p) != [] {
        var f := Filter(l, p);
        var x := f[|f| - 1];
        assert x in l;
        var i :| 0 <= i < |l| && l[i] == x;
        assert i < |l| - 1 ==> le(l[i], l[|l| - 1]);
      }
    } else {
      var front, last := l[..|l| - 1], l[|l| - 1];
      FilterInsert(le, front, e, p);
      var r := Insert(le, front, e);
      assert (r + [last])[..|r|] == r;
      if p(last) && p(e) {
        var f := Filter(front, p);
        assert (f + [last])[..|f|] == f;
      }
    }
  }

  /** Filtering before sorting is filtering after it. */
  lemma {:induction false} FilterSort(le: Order, l: seq<Entity>, p: Entity -> bool)
    requires Total(le)
    ensures Sort(le, Filter(l, p)) == Filter(Sort(le, l), p)
  {
    if l != [] {
      var front, last := l[..|l| - 1], l[|l| - 1];
      FilterSort(le, front, p);
      SortIs(le, front);
      FilterInsert(le, Sort(le, front), last, p);
      if p(last) { assert (Filter(front, p) + [last])[..|Filter(front, p)|] == Filter(front, p); }
    }
  }

  // ---- first occurrences ----

  predicate Carries(l: seq<Entity>, id: ID) {
    exists i | 0 <= i < |l| :: l[i].id == id
  }

  function Dedup(l: seq<Entity>): seq<Entity> {
    if l == [] then []
    else
      var d := Dedup(l[..|l| - 1]);
      if Carries(d, l[|l| - 1].id) then d else d + [l[|l| - 1]]
  }

  function Take(l: seq<Entity>, cap: nat): seq<Entity> {
    if |l| <= cap then l else l[..cap]
  }

  /** One candidate, unless it is there already or there is no room. */
  function Add(out: seq<Entity>, e: Entity, cap: nat): seq<Entity> {
    if Carries(out, e.id) || |out| >= cap then out else out + [e]
  }

  function AddAll(out: seq<Entity>, l: seq<Entity>, cap: nat): seq<Entity> {
    if l == [] then out else Add(AddAll(out, l[..|l| - 1], cap), l[|l| - 1], cap)
  }

  lemma {:induction false} AddAllConcat(out: seq<Entity>, a: seq<Entity>, b: seq<Entity>, cap: nat)
    ensures AddAll(out, a + b, cap) == AddAll(AddAll(out, a, cap), b, cap)
  {
    if b == [] {
      assert a + b == a;
    } else {
      AddAllConcat(out, a, b[..|b| - 1], cap);
      assert (a + b)[..|a + b| - 1] == a + b[..|b| - 1];
    }
  }

  /** Adding in turn under a cap keeps the first occurrences, as many as fit. */
  lemma {:induction false} AddAllIs(l: seq<Entity>, cap: nat)
    ensures AddAll([], l, cap) == Take(Dedup(l), cap)
  {
    if l != [] {
      var front := l[..|l| - 1];
      AddAllIs(front, cap);
      var d := Dedup(front);
      if Carries(Take(d, cap), l[|l| - 1].id) {
        var i :| 0 <= i < |Take(d, cap)| && Take(d, cap)[i].id == l[|l| - 1].id;
        assert d[i].id == l[|l| - 1].id;
      }
    }
  }

  /** Candidates already there change nothing. */
  lemma {:induction false} AddAllFresh(out: seq<Entity>, l: seq<Entity>, cap: nat, p: Entity -> bool)
    requires forall e | e in l :: p(e) <==> !Carries(out, e.id)
    ensures AddAll(out, Filter(l, p), cap) == AddAll(out, l, cap)
    ensures out <= AddAll(out, l, cap)
  {
    if l != [] {
      var front, last := l[..|l| - 1], l[|l| - 1];
      AddAllFresh(out, front, cap, p);
      assert last in l;
      if p(last) {
        assert (Filter(front, p) + [last])[..|Filter(front, p)|] == Filter(front, p);
      } else {
        var i :| 0 <= i < |out| && out[i].id == last.id;
        assert AddAll(out, front, cap)[i] == out[i];
        assert Carries(AddAll(out, front, cap), last.id);
      }
    }
  }

  lemma {:induction false} DedupIs(l: seq<Entity>)
    ensures Distinct(Dedup(l)) && (forall e | e in Dedup(l) :: e in l) && |Dedup(l)| <= |l|
    ensures forall e | e in l :: Carries(Dedup(l), e.id)
  {
    if l != [] {
      var front, last := l[..|l| - 1], l[|l| - 1];
      DedupIs(front);
      var d := Dedup(front);
      assert l == front + [last];
      forall e | e in l
        ensures Carries(Dedup(l), e.id)
      {
        if e in front {
          var i :| 0 <= i < |d| && d[i].id == e.id;
          assert Dedup(l)[i].id == e.id;
        } else if !Carries(d, last.id) {
          assert Dedup(l)[|d|].id == e.id;
        }
      }
    }
  }

  lemma {:induction false} DedupPrefix(a: seq<Entity>, b: seq<Entity>)
    ensures Dedup(a) <= Dedup(a + b)
  {
    if b == [] {
      assert a + b == a;
    } else {
      DedupPrefix(a, b[..|b| - 1]);
      assert (a + b)[..|a + b| - 1] == a + b[..|b| - 1];
    }
  }
}
