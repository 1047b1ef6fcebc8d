/** Snapshot payloads. */
module SnapshotCodec {
  import opened Options
  import opened Bytes

  const MAX_ENTITIES_PER_SNAPSHOT := 64

  datatype WireEntity = WireEntity(id: U32, kind: Byte, hp: Byte, facing: Byte, flags: Byte, x: I32, y: I32, vx: I16,
                                   vy: I16)

  const ENTITY_LEN := 20

  function EntityWire(e: WireEntity): (b: seq<Byte>)
    ensures |b| == ENTITY_LEN
  {
    LE32(e.id) + [e.kind, e.hp, e.facing, e.flags] + LE32(Unsigned32(e.x)) + LE32(Unsigned32(e.y)) +
      LE16(Unsigned16(e.vx)) + LE16(Unsigned16(e.vy))
  }

  function EntityOf(b: seq<Byte>): WireEntity {
    if |b| != ENTITY_LEN then WireEntity(0, 0, 0, 0, 0, 0, 0, 0, 0)
    else WireEntity(U32Of(b[0..4]), b[4], b[5], b[6], b[7], Signed32(U32Of(b[8..12])), Signed32(U32Of(b[12..16])),
                    Signed16(U16Of(b[16..18])), Signed16(U16Of(b[18..20])))
  }

  lemma EntityThere(e: WireEntity)
    ensures EntityOf(EntityWire(e)) == e
  {
    var b := EntityWire(e);
    assert b[0..4] == LE32(e.id) && b[8..12] == LE32(Unsigned32(e.x)) && b[12..16] == LE32(Unsigned32(e.y));
    assert b[16..18] == LE16(Unsigned16(e.vx)) && b[18..20] == LE16(Unsigned16(e.vy));
    RoundTrip32(e.id, [0, 0, 0, 0]);
    RoundTrip32(Unsigned32(e.x), [0, 0, 0, 0]);
    RoundTrip32(Unsigned32(e.y), [0, 0, 0, 0]);
    RoundTrip16(Unsigned16(e.vx), [0, 0]);
    RoundTrip16(Unsigned16(e.vy), [0, 0]);
    Signs(e.x, 0, e.vx, 0);
    Signs(e.y, 0, e.vy, 0);
  }

  lemma EntityBack(b: seq<Byte>)
    requires |b| == ENTITY_LEN
    ensures EntityWire(EntityOf(b)) == b
  {
    RoundTrip32(0, b[0..4]);
    RoundTrip32(0, b[8..12]);
    RoundTrip32(0, b[12..16]);
    RoundTrip16(0, b[16..18]);
    RoundTrip16(0, b[18..20]);
    Signs(0, U32Of(b[8..12]), 0, U16Of(b[16..18]));
    Signs(0, U32Of(b[12..16]), 0, U16Of(b[18..20]));
    assert b == b[0..4] + [b[4], b[5], b[6], b[7]] + b[8..12] + b[12..16] + b[16..18] + b[18..20];
  }

  datatype Snapshot = Snapshot(serverTick: U32, yourLastInputTick: U16, yourEntityID: U32, entities: seq<WireEntity>)

  const SNAPSHOT_PREFIX := 11

  /** Few enough entities, IDs ascending, and only the three flags that are in use. */
  predicate SnapshotOK(m: Snapshot) {
    && |m.entities| <= MAX_ENTITIES_PER_SNAPSHOT
    && (forall i, j | 0 <= i < j < |m.entities| :: m.entities[i].id < m.entities[j].id)
    && (forall i | 0 <= i < |m.entities| :: m.entities[i].flags < 8)
  }

  function SnapshotPrefix(m: Snapshot): (b: seq<Byte>)
    requires |m.entities| <= MAX_ENTITIES_PER_SNAPSHOT
    ensures |b| == SNAPSHOT_PREFIX
  {
    LE32(m.serverTick) + LE16(m.yourLastInputTick) + LE32(m.yourEntityID) + [|m.entities|]
  }

  function SnapshotWire(m: Snapshot): seq<Byte>
    requires |m.entities| <= MAX_ENTITIES_PER_SNAPSHOT
  {
    SnapshotPrefix(m) + Flat(EntityWire, m.entities)
  }

  /** The checks of the encoder, each entity against the one before it. */
  method CheckSnapshot(m: Snapshot) returns (ok: bool)
    ensures ok <==> SnapshotOK(m)
  {
    if |m.entities| > MAX_ENTITIES_PER_SNAPSHOT {
      return false;
    }
    for i := 0 to |m.entities|
      invariant forall j, k | 0 <= j < k < i :: m.entities[j].id < m.entities[k].id
      invariant forall j | 0 <= j < i :: m.entities[j].flags < 8
    {
      if i > 0 && m.entities[i].id <= m.entities[i - 1].id {
        return false;
      }
      if m.entities[i].flags >= 8 {
        return false;
      }
      assert forall j | 0 <= j < i :: m.entities[j].id <= m.entities[i - 1].id;
    }
    return true;
  }

  lemma FlatNext(es: seq<WireEntity>, i: nat)
    requires i < |es|
    ensures Flat(EntityWire, es[..i + 1]) == Flat(EntityWire, es[..i]) + EntityWire(es[i])
  {
    assert es[..i + 1][..i] == es[..i];
  }

  method AppendEntities(dst0: seq<Byte>, es: seq<WireEntity>) returns (dst: seq<Byte>)
    ensures dst == dst0 + Flat(EntityWire, es)
  {
    dst := dst0;
    hide *;
    assert Flat(EntityWire, es[..0]) == [] by { NothingFlat(es); }
    for i := 0 to |es|
      invariant dst == dst0 + Flat(EntityWire, es[..i])
    {
      FlatNext(es, i);
      dst := dst + EntityWire(es[i]);
    }
    assert es[..|es|] == es;
  }

  lemma NothingFlat(es: seq<WireEntity>)
    ensures Flat(EntityWire, es[..0]) == []
  {
  }

  method EncodeSnapshot(m: Snapshot) returns (r: Option<seq<Byte>>)
    ensures r.Some? <==>
            && |m.entities| <= 64 && (forall i, j | 0 <= i < j < |m.entities| :: m.entities[i].id < m.entities[j].id)
            && forall i | 0 <= i < |m.entities| :: m.entities[i].flags < 8
    ensures if SnapshotOK(m) then r == Some(SnapshotWire(m)) else r == None
  {
    hide EntityWire, Flat;
    var ok := CheckSnapshot(m);
    if !ok {
      return None;
    }
    var dst := AppendEntities(SnapshotPrefix(m), m.entities);
    r := Some(dst);
  }

  lemma ReadNext(es: seq<WireEntity>, p: seq<Byte>, off: nat)
    requires SNAPSHOT_PREFIX <= off && off + ENTITY_LEN <= |p| && Flat(EntityWire, es) == p[SNAPSHOT_PREFIX..off]
    ensures Flat(EntityWire, es + [EntityOf(p[off..off + ENTITY_LEN])]) == p[SNAPSHOT_PREFIX..off + ENTITY_LEN]
  {
    var b := p[off..off + ENTITY_LEN];
    EntityBack(b);
    hide EntityOf, EntityWire;
    var more := es + [EntityOf(b)];
    assert more[..|more| - 1] == es;
    assert p[SNAPSHOT_PREFIX..off + ENTITY_LEN] == p[SNAPSHOT_PREFIX..off] + b;
  }

  method ReadEntities(p: seq<Byte>, n: nat) returns (es: seq<WireEntity>)
    requires |p| == SNAPSHOT_PREFIX + n * ENTITY_LEN
    ensures |es| == n && Flat(EntityWire, es) == p[SNAPSHOT_PREFIX..]
  {
    es := [];
    var off := SNAPSHOT_PREFIX;
    hide EntityWire, EntityOf;
    for i := 0 to n
      invariant off == SNAPSHOT_PREFIX + i * ENTITY_LEN && |es| == i && Flat(EntityWire, es) == p[SNAPSHOT_PREFIX..off]
    {
      ReadNext(es, p, off);
      es := es + [EntityOf(p[off..off + ENTITY_LEN])];
      off := off + ENTITY_LEN;
    }
    assert p[SNAPSHOT_PREFIX..off] == p[SNAPSHOT_PREFIX..];
  }

  lemma SnapshotIs(p: seq<Byte>, es: seq<WireEntity>)
    requires |p| >= SNAPSHOT_PREFIX && p[10] == |es| <= MAX_ENTITIES_PER_SNAPSHOT
             && Flat(EntityWire, es) == p[SNAPSHOT_PREFIX..]
    ensures SnapshotWire(Snapshot(U32Of(p[0..4]), U16Of(p[4..6]), U32Of(p[6..10]), es)) == p
  {
    RoundTrip32(0, p[0..4]);
    RoundTrip16(0, p[4..6]);
    RoundTrip32(0, p[6..10]);
    hide EntityWire, Flat;
    assert p == p[0..4] + p[4..6] + p[6..10] + [p[10]] + p[SNAPSHOT_PREFIX..];
  }

  /**
   The decoder takes any IDs and flags, since length and count are all it checks; and it gives back what was encoded.
   */
  method DecodeSnapshot(p: seq<Byte>) returns (r: Option<Snapshot>)
    ensures r.Some? ==> |r.value.entities| <= MAX_ENTITIES_PER_SNAPSHOT && SnapshotWire(r.value) == p
    ensures forall m: Snapshot | |m.entities| <= MAX_ENTITIES_PER_SNAPSHOT && SnapshotWire(m) == p :: r == Some(m)
    ensures r.None? ==>
              |p| < SNAPSHOT_PREFIX || p[10] > MAX_ENTITIES_PER_SNAPSHOT || |p| != SNAPSHOT_PREFIX + p[10] * ENTITY_LEN
  {
    forall m: Snapshot | |m.entities| <= MAX_ENTITIES_PER_SNAPSHOT && SnapshotWire(m) == p
      ensures |p| == SNAPSHOT_PREFIX + |m.entities| * ENTITY_LEN && p[10] == |m.entities|
    {
      SnapshotLength(m);
    }
    hide EntityWire, SnapshotWire, Flat;
    if |p| < SNAPSHOT_PREFIX {
      return None;
    }
    var n: nat := p[10];
    if n > MAX_ENTITIES_PER_SNAPSHOT || |p| != SNAPSHOT_PREFIX + n * ENTITY_LEN {
      return None;
    }
    var es := ReadEntities(p, n);
    SnapshotIs(p, es);
    r := Some(Snapshot(U32Of(p[0..4]), U16Of(p[4..6]), U32Of(p[6..10]), es));
    forall m: Snapshot | |m.entities| <= MAX_ENTITIES_PER_SNAPSHOT && SnapshotWire(m) == p
      ensures r == Some(m)
    {
      SnapshotInjective(m, r.value);
    }
  }

  lemma SnapshotLength(m: Snapshot)
    requires |m.entities| <= MAX_ENTITIES_PER_SNAPSHOT
    ensures |SnapshotWire(m)| == SNAPSHOT_PREFIX + |m.entities| * ENTITY_LEN && SnapshotWire(m)[10] == |m.entities|
  {
    FlatLength(EntityWire, ENTITY_LEN, m.entities);
  }

  /** Two snapshots on the same bytes are the same snapshot, so decoding an encoded one gives it back. */
  lemma SnapshotInjective(a: Snapshot, b: Snapshot)
    requires |a.entities| <= MAX_ENTITIES_PER_SNAPSHOT && |b.entities| <= MAX_ENTITIES_PER_SNAPSHOT
    requires SnapshotWire(a) == SnapshotWire(b)
    ensures a == b
  {
    var p := SnapshotWire(a);
    forall m: Snapshot | (m == a || m == b)
      ensures p[0..4] == LE32(m.serverTick) && p[4..6] == LE16(m.yourLastInputTick) && p[6..10] == LE32(m.yourEntityID)
      ensures p[10] == |m.entities| && p[SNAPSHOT_PREFIX..] == Flat(EntityWire, m.entities)
      ensures U32Of(p[0..4]) == m.serverTick && U16Of(p[4..6]) == m.yourLastInputTick
              && U32Of(p[6..10]) == m.yourEntityID
    {
      assert SnapshotPrefix(m) == p[..SNAPSHOT_PREFIX];
      RoundTrip32(m.serverTick, [0, 0, 0, 0]);
      RoundTrip16(m.yourLastInputTick, [0, 0]);
      RoundTrip32(m.yourEntityID, [0, 0, 0, 0]);
    }
    forall e: WireEntity
      ensures |EntityWire(e)| == ENTITY_LEN && EntityOf(EntityWire(e)) == e
    {
      EntityThere(e);
    }
    hide EntityWire, EntityOf;
    FlatInjective(EntityWire, EntityOf, ENTITY_LEN, a.entities, b.entities);
  }

  /**
   Bytes the decoder accepts come back from the encoder exactly when their entities are in ID order with known flags.
   */
  lemma SnapshotCanonical(p: seq<Byte>, m: Snapshot)
    requires |m.entities| <= MAX_ENTITIES_PER_SNAPSHOT && SnapshotWire(m) == p
    ensures (exists e: Snapshot :: SnapshotOK(e) && SnapshotWire(e) == p) <==>
              && (forall i, j | 0 <= i < j < |m.entities| :: m.entities[i].id < m.entities[j].id)
              && (forall i | 0 <= i < |m.entities| :: m.entities[i].flags < 8)
  {
    if e: Snapshot :| SnapshotOK(e) && SnapshotWire(e) == p { SnapshotInjective(e, m); }
  }

  const TWIN := WireEntity(7, 1, 1, 5, 0, 128, 128, 0, 0)
  const TWINS := Snapshot(0, 0, 0, [TWIN, TWIN])

  /** The decoder takes two entities with one ID for a snapshot, and no encoder makes such bytes. */
  method DecodeTwins() returns (r: Option<Snapshot>)
    ensures r == Some(TWINS)
    ensures forall m: Snapshot | SnapshotOK(m) :: SnapshotWire(m) != SnapshotWire(TWINS)
  {
    r := DecodeSnapshot(SnapshotWire(TWINS));
    SnapshotCanonical(SnapshotWire(TWINS), TWINS);
    assert TWINS.entities[0].id == TWINS.entities[1].id;
  }
}
