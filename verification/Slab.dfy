/** The fixed slab of entities: first-free allocation, monotonic IDs, and iteration in ID order. */
module Slab {
  import opened Sequences
  import opened Entities
  import Physics

  const MAX_ENTITIES := 256
  const MAX_ID := 0xFFFF_FFFF

  const FREE := Entity(0, NoKind, 0, Physics.Idle, NO_FLAGS, 0, 0, 0, 0)

  /** Occupied slots carry pairwise different IDs. */
  ghost predicate Unique(slots: seq<Entity>) {
    forall i, j | 0 <= i < j < |slots| && slots[i].id != 0 :: slots[i].id != slots[j].id
  }

  ghost predicate Present(slots: seq<Entity>, id: ID) {
    exists i | 0 <= i < |slots| :: slots[i].id == id
  }

  lemma OneSlot(slots: seq<Entity>, i: int, j: int)
    requires Unique(slots) && 0 <= i < |slots| && 0 <= j < |slots|
    requires slots[i].id == slots[j].id != 0
    ensures i == j
  {
  }

  /** The first free slot, or -1. */
  method Alloc(slots: seq<Entity>) returns (k: int)
    ensures -1 <= k < |slots|
    ensures k >= 0 ==> slots[k].id == 0 && forall i | 0 <= i < k :: slots[i].id != 0
    ensures k == -1 ==> !Present(slots, 0)
  {
    for i := 0 to |slots|
      invariant forall j | 0 <= j < i :: slots[j].id != 0
    {
      if slots[i].id == 0 {
        return i;
      }
    }
    return -1;
  }

  method FindByID(slots: seq<Entity>, id: ID) returns (k: int)
    ensures -1 <= k < |slots|
    ensures k >= 0 ==> slots[k].id == id && forall i | 0 <= i < k :: slots[i].id != id
    ensures k == -1 <==> !Present(slots, id)
  {
    for i := 0 to |slots|
      invariant forall j | 0 <= j < i :: slots[j].id != id
    {
      if slots[i].id == id {
        return i;
      }
    }
    return -1;
  }

  // ---- how many of each kind ----

  predicate IsOf(e: Entity, kind: Kind) { e.id != 0 && e.kind == kind }

  /** How many occupied slots hold an entity of this kind. */
  function Population(slots: seq<Entity>, kind: Kind): nat {
    if slots == [] then 0
    else Population(slots[..|slots| - 1], kind) + if IsOf(slots[|slots| - 1], kind) then 1 else 0
  }

  lemma {:induction false} PopulationUpdate(slots: seq<Entity>, k: int, e: Entity, kind: Kind)
    requires 0 <= k < |slots|
    ensures Population(slots[k := e], kind)
         == Population(slots, kind) - (if IsOf(slots[k], kind) then 1 else 0) + if IsOf(e, kind) then 1 else 0
  {
    var last := |slots| - 1;
    if k == last {
      assert slots[k := e][..last] == slots[..last];
    } else {
      PopulationUpdate(slots[..last], k, e, kind);
      assert slots[k := e][..last] == slots[..last][k := e];
    }
  }

  /** Where no slot newly holds one of a kind, there are no more of it. */
  lemma {:induction false} NoMoreOf(a: seq<Entity>, b: seq<Entity>, kind: Kind)
    requires |b| == |a| && forall i | 0 <= i < |a| :: IsOf(b[i], kind) ==> IsOf(a[i], kind)
    ensures Population(b, kind) <= Population(a, kind)
  {
    if a != [] {
      NoMoreOf(a[..|a| - 1], b[..|b| - 1], kind);
    }
  }

  /** A kind found only from slot a to slot b has no more members than there are slots between. */
  lemma {:induction false} PopulationWithin(slots: seq<Entity>, kind: Kind, a: nat, b: nat)
    requires a <= b && forall i | 0 <= i < |slots| && IsOf(slots[i], kind) :: a <= i < b
    ensures Population(slots, kind) <= if |slots| <= a then 0 else if |slots| < b then |slots| - a else b - a
  {
    if slots != [] {
      var front := slots[..|slots| - 1];
      assert forall i | 0 <= i < |front| :: front[i] == slots[i];
      PopulationWithin(front, kind, a, b);
    }
  }

  /** With no slot free, every one of them counts under its kind. */
  lemma {:induction false} AllCounted(slots: seq<Entity>)
    requires forall i | 0 <= i < |slots| :: slots[i].id != 0 && slots[i].kind != NoKind
    ensures Population(slots, Player) + Population(slots, Generator) + Population(slots, Snipe) +
            Population(slots, Projectile)
         == |slots|
  {
    if slots != [] {
      AllCounted(slots[..|slots| - 1]);
    }
  }

  /** An ID is handed out once, in increasing order, until the last one below the maximum is gone. */
  function AllocID(nextID: nat): (ID, nat) {
    if nextID == 0 || nextID == MAX_ID then (0, nextID) else (nextID, nextID + 1)
  }

  // ---- iteration in ID order ----

  predicate Ascending(ids: seq<ID>) {
    forall i, j | 0 <= i < j < |ids| :: ids[i] < ids[j]
  }

  predicate NonDescending(ids: seq<ID>) {
    forall i, j | 0 <= i < j < |ids| :: ids[i] <= ids[j]
  }

  /** ids with v put in after everything not above it. */
  function Insert(ids: seq<ID>, v: ID): seq<ID> {
    if ids == [] || ids[|ids| - 1] <= v then ids + [v] else Insert(ids[..|ids| - 1], v) + [ids[|ids| - 1]]
  }

  function Sorted(ids: seq<ID>): seq<ID> {
    if ids == [] then [] else Insert(Sorted(ids[..|ids| - 1]), ids[|ids| - 1])
  }

  /** Inserting splits the list just after the last entry not above v. */
  lemma {:induction false} InsertSplit(ids: seq<ID>, v: ID) returns (k: nat)
    ensures k <= |ids| && Insert(ids, v) == ids[..k] + [v] + ids[k..]
    ensures (k > 0 ==> ids[k - 1] <= v) && forall j | k <= j < |ids| :: ids[j] > v
  {
    k := |ids|;
    if ids != [] && ids[|ids| - 1] > v {
      var front := ids[..|ids| - 1];
      k := InsertSplit(front, v);
      assert ids == front + [ids[|ids| - 1]];
      assert front[..k] == ids[..k];
      assert front[k..] + [ids[|ids| - 1]] == ids[k..];
    }
  }

  lemma JoinOrdered(a: seq<ID>, v: ID, b: seq<ID>)
    requires NonDescending(a) && NonDescending(b)
    requires (forall i | 0 <= i < |a| :: a[i] <= v) && (forall i | 0 <= i < |b| :: v <= b[i])
    ensures NonDescending(a + [v] + b)
  {
    var r := a + [v] + b;
    forall i, j | 0 <= i < j < |r|
      ensures r[i] <= r[j]
    {
      assert r[i] <= v <= r[j] || (j < |a| && r[i] == a[i] && r[j] == a[j])
          || (i > |a| && r[i] == b[i - |a| - 1] && r[j] == b[j - |a| - 1]);
    }
  }

  lemma InsertPermutes(ids: seq<ID>, v: ID)
    ensures multiset(Insert(ids, v)) == multiset(ids) + multiset{v}
  {
    var k := InsertSplit(ids, v);
    var a, b := ids[..k], ids[k..];
    assert ids == a + b;
    assert multiset(a + [v] + b) == multiset(a) + multiset([v]) + multiset(b);
  }

  lemma InsertOrdered(ids: seq<ID>, v: ID)
    requires NonDescending(ids)
    ensures NonDescending(Insert(ids, v))
  {
    var k := InsertSplit(ids, v);
    JoinOrdered(ids[..k], v, ids[k..]);
  }

  lemma {:induction false} SortedOrdered(ids: seq<ID>)
    ensures NonDescending(Sorted(ids)) && multiset(Sorted(ids)) == multiset(ids)
  {
    if ids != [] {
      SortedOrdered(ids[..|ids| - 1]);
      InsertOrdered(Sorted(ids[..|ids| - 1]), ids[|ids| - 1]);
      InsertPermutes(Sorted(ids[..|ids| - 1]), ids[|ids| - 1]);
      assert ids == ids[..|ids| - 1] + [ids[|ids| - 1]];
    }
  }

  /** Shift the entries above ids[i] one place right and drop it into the gap. */
  method SinkInto(ids: array<ID>, i: nat)
    requires i < ids.Length
    modifies ids
    ensures ids[..i + 1] == Insert(old(ids[..i]), old(ids[i]))
    ensures ids[i + 1..] == old(ids[i + 1..])
  {
    ghost var front, rest := ids[..i], ids[i + 1..];
    var v := ids[i];
    var j: int := i - 1;
    while j >= 0 && ids[j] > v
      invariant -1 <= j < i
      invariant forall k | 0 <= k <= j :: ids[k] == front[k]
      invariant forall k | j < k < i :: ids[k + 1] == front[k] > v
      invariant ids[i + 1..] == rest
    {
      ids[j + 1] := ids[j];
      j := j - 1;
    }
    ids[j + 1] := v;
    var k := InsertSplit(front, v);
    assert k == j + 1;
    ghost var r := front[..k] + [v] + front[k..];
    forall x | 0 <= x <= i
      ensures ids[x] == r[x]
    {
      if x > k {
        assert ids[x - 1 + 1] == front[x - 1] == front[k..][x - 1 - k];
      }
    }
    assert ids[..i + 1] == r;
  }

  /** Insertion sort in place. */
  method SortEntityIDs(ids: array<ID>)
    modifies ids
    ensures ids[..] == Sorted(old(ids[..]))
  {
    ghost var was := ids[..];
    for i := 0 to ids.Length
      invariant ids[..i] == Sorted(was[..i]) && ids[i..] == was[i..]
    {
      assert ids[i] == ids[i..][0] == was[i] && ids[i + 1..] == ids[i..][1..];
      SinkInto(ids, i);
      assert was[..i + 1][..i] == was[..i] && was[i..][1..] == was[i + 1..];
    }
    assert was[..ids.Length] == was && ids[..ids.Length] == ids[..];
  }

  /** The occupied IDs in slab order. */
  function Occupied(slots: seq<Entity>): seq<ID> {
    if slots == [] then []
    else
      var rest := Occupied(slots[..|slots| - 1]);
      if slots[|slots| - 1].id != 0 then rest + [slots[|slots| - 1].id] else rest
  }

  lemma PresentLast(slots: seq<Entity>, id: ID)
    requires slots != []
    ensures Present(slots, id) <==> Present(slots[..|slots| - 1], id) || id == slots[|slots| - 1].id
  {
    var front := slots[..|slots| - 1];
    if Present(front, id) {
      var i :| 0 <= i < |front| && front[i].id == id;
      assert slots[i].id == id;
    }
    if id == slots[|slots| - 1].id { assert slots[|slots| - 1].id == id; }
    if Present(slots, id) && id != slots[|slots| - 1].id {
      var i :| 0 <= i < |slots| && slots[i].id == id;
      assert front[i].id == id;
    }
  }

  lemma {:induction false} OccupiedIds(slots: seq<Entity>, id: ID)
    requires Unique(slots)
    ensures id in Occupied(slots) <==> id != 0 && Present(slots, id)
    ensures multiset(Occupied(slots))[id] <= 1
  {
    if slots != [] {
      var front, last := slots[..|slots| - 1], slots[|slots| - 1].id;
      assert forall i | 0 <= i < |front| :: front[i] == slots[i];
      OccupiedIds(front, id);
      PresentLast(slots, id);
      assert id == last && id != 0 ==> !Present(front, id);
      assert id in Occupied(front) <==> id in multiset(Occupied(front));
    }
  }

  /** Every occupied ID once, ascending. */
  method LiveIDsSorted(slots: seq<Entity>) returns (ids: seq<ID>)
    requires Unique(slots)
    ensures Ascending(ids)
    ensures forall id :: id in ids <==> id != 0 && Present(slots, id)
  {
    var found: seq<ID> := [];
    for i := 0 to |slots|
      invariant found == Occupied(slots[..i])
    {
      assert slots[..i + 1][..i] == slots[..i];
      if slots[i].id != 0 {
        found := found + [slots[i].id];
      }
    }
    assert slots[..|slots|] == slots;
    var a := new ID[|found|](i requires 0 <= i < |found| => found[i]);
    assert a[..] == found;
    SortEntityIDs(a);
    ids := a[..];
    SortedOrdered(found);
    forall id
      ensures id in ids <==> id != 0 && Present(slots, id)
      ensures multiset(ids)[id] <= 1
    {
      OccupiedIds(slots, id);
      assert id in ids <==> id in multiset(ids);
      assert id in found <==> id in multiset(found);
    }
    OnceAscending(ids);
  }

  lemma OnceAscending(ids: seq<ID>)
    requires NonDescending(ids) && forall id :: multiset(ids)[id] <= 1
    ensures Ascending(ids)
  {
    forall i, j | 0 <= i < j < |ids|
      ensures ids[i] < ids[j]
    {
      if ids[i] == ids[j] { Twice(ids, i, j); }
    }
  }
}
