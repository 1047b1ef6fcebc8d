/** The browser's side of the match socket: fields read and written at fixed places, least significant byte first. */
module ClientWire {
  import opened Options
  import opened Bytes
  import C = Codec
  import S = SnapshotCodec
  import O = MatchOverCodec
  import B = ScoreboardCodec

  // ---- a view of bytes ----

  function GetU16(p: seq<Byte>, at: nat): int
    requires at + 2 <= |p|
  {
    p[at] as int + 256 * p[at + 1] as int
  }

  function GetU32(p: seq<Byte>, at: nat): int
    requires at + 4 <= |p|
  {
    p[at] as int + 256 * p[at + 1] as int + 65536 * p[at + 2] as int + 16777216 * p[at + 3] as int
  }

  function GetI16(p: seq<Byte>, at: nat): int
    requires at + 2 <= |p|
  {
    if GetU16(p, at) >= 32768 then GetU16(p, at) - 65536 else GetU16(p, at)
  }

  function GetI32(p: seq<Byte>, at: nat): int
    requires at + 4 <= |p|
  {
    if GetU32(p, at) >= 2147483648 then GetU32(p, at) - 4294967296 else GetU32(p, at)
  }

  lemma Views(p: seq<Byte>, at: nat)
    ensures at + 2 <= |p| ==> GetU16(p, at) == U16Of(p[at..at + 2]) && GetI16(p, at) == Signed16(U16Of(p[at..at + 2]))
    ensures at + 4 <= |p| ==> GetU32(p, at) == U32Of(p[at..at + 4]) && GetI32(p, at) == Signed32(U32Of(p[at..at + 4]))
  {
  }

  lemma Views16(p: seq<Byte>, at: nat, v: U16)
    requires at + 2 <= |p| && p[at..at + 2] == LE16(v)
    ensures GetU16(p, at) == v
  {
    Views(p, at);
    RoundTrip16(v, [0, 0]);
  }

  lemma Views32(p: seq<Byte>, at: nat, v: U32)
    requires at + 4 <= |p| && p[at..at + 4] == LE32(v)
    ensures GetU32(p, at) == v
  {
    Views(p, at);
    RoundTrip32(v, [0, 0, 0, 0]);
  }

  // ---- snapshots ----

  function EntityAt(p: seq<Byte>, at: nat): S.WireEntity
    requires at + 20 <= |p|
  {
    S.WireEntity(GetU32(p, at), p[at + 4], p[at + 5], p[at + 6], p[at + 7], GetI32(p, at + 8), GetI32(p, at + 12),
                 GetI16(p, at + 16), GetI16(p, at + 18))
  }

  lemma EntityAtIs(p: seq<Byte>, at: nat)
    requires at + 20 <= |p|
    ensures EntityAt(p, at) == S.EntityOf(p[at..at + 20])
  {
    var b := p[at..at + 20];
    Views(p, at);
    Views(p, at + 8);
    Views(p, at + 12);
    Views(p, at + 16);
    Views(p, at + 18);
    hide GetU16, GetU32, GetI16, GetI32, U16Of, U32Of, Signed16, Signed32;
    assert b[0..4] == p[at..at + 4] && b[8..12] == p[at + 8..at + 12] && b[12..16] == p[at + 12..at + 16];
    assert b[16..18] == p[at + 16..at + 18] && b[18..20] == p[at + 18..at + 20];
  }

  /** Entity by entity, as the server wrote them. */
  method ReadSnapshot(p: seq<Byte>) returns (r: Option<S.Snapshot>)
    ensures r.Some? <==> |p| >= 11 && p[10] <= 64 && |p| == 11 + 20 * (p[10] as int)
    ensures forall m | S.SnapshotOK(m) && S.SnapshotWire(m) == p :: r == Some(m)
  {
    forall m | S.SnapshotOK(m) && S.SnapshotWire(m) == p
      ensures |p| == 11 + 20 * |m.entities| && p[10] == |m.entities| <= 64
      ensures GetU32(p, 0) == m.serverTick && GetU16(p, 4) == m.yourLastInputTick && GetU32(p, 6) == m.yourEntityID
      ensures forall i: nat | i < |m.entities| :: EntityAt(p, 11 + 20 * i) == m.entities[i]
    {
      SnapshotAt(m, p);
    }
    hide GetU16, GetU32, EntityAt, S.SnapshotOK, S.SnapshotWire;
    if |p| < 11 {
      return None;
    }
    var n: nat := p[10];
    if n > 64 {
      return None;
    }
    if |p| != 11 + 20 * n {
      return None;
    }
    var es: seq<S.WireEntity> := [];
    var off := 11;
    for i := 0 to n
      invariant off == 11 + 20 * i && |es| == i && forall j: nat | j < i :: es[j] == EntityAt(p, 11 + 20 * j)
    {
      es := es + [EntityAt(p, off)];
      off := off + 20;
    }
    HeaderFits(p);
    r := Some(S.Snapshot(GetU32(p, 0), GetU16(p, 4), GetU32(p, 6), es));
    forall m | S.SnapshotOK(m) && S.SnapshotWire(m) == p
      ensures r == Some(m)
    {
      assert es == m.entities;
    }
  }

  lemma HeaderFits(p: seq<Byte>)
    requires |p| >= 11
    ensures 0 <= GetU32(p, 0) < 0x1_0000_0000 && 0 <= GetU16(p, 4) < 0x1_0000 && 0 <= GetU32(p, 6) < 0x1_0000_0000
  {
  }

  lemma {:induction false} FlatPrefix<T>(enc: T -> seq<Byte>, es: seq<T>, n: nat)
    requires n <= |es|
    ensures Flat(enc, es[..n]) <= Flat(enc, es)
  {
    if n < |es| {
      var front := es[..|es| - 1];
      FlatPrefix(enc, front, n);
      assert front[..n] == es[..n];
    } else {
      assert es[..n] == es;
    }
  }

  lemma FlatAt<T>(enc: T -> seq<Byte>, k: nat, es: seq<T>, i: nat)
    requires (forall e :: |enc(e)| == k) && i < |es|
    ensures k * i + k <= |Flat(enc, es)| && Flat(enc, es)[k * i..k * i + k] == enc(es[i])
  {
    var upTo := es[..i + 1];
    FlatPrefix(enc, es, i + 1);
    assert upTo[..i] == es[..i] && upTo[i] == es[i];
    assert Flat(enc, upTo) == Flat(enc, es[..i]) + enc(es[i]);
    FlatLength(enc, k, es[..i]);
  }

  lemma SnapshotHeader(m: S.Snapshot, p: seq<Byte>)
    requires S.SnapshotOK(m) && S.SnapshotWire(m) == p
    ensures |p| == 11 + 20 * |m.entities| && p[10] == |m.entities| <= 64 && p[11..] == Flat(S.EntityWire, m.entities)
    ensures GetU32(p, 0) == m.serverTick && GetU16(p, 4) == m.yourLastInputTick && GetU32(p, 6) == m.yourEntityID
  {
    S.SnapshotLength(m);
    Pieces(LE32(m.serverTick), LE16(m.yourLastInputTick), LE32(m.yourEntityID), [|m.entities|],
           Flat(S.EntityWire, m.entities));
    hide GetU16, GetU32, LE16, LE32;
    Views32(p, 0, m.serverTick);
    Views16(p, 4, m.yourLastInputTick);
    Views32(p, 6, m.yourEntityID);
  }

  lemma Pieces(a: seq<Byte>, b: seq<Byte>, c: seq<Byte>, d: seq<Byte>, e: seq<Byte>)
    requires |a| == 4 && |b| == 2 && |c| == 4 && |d| == 1
    ensures var p := a + b + c + d + e; p[0..4] == a && p[4..6] == b && p[6..10] == c && [p[10]] == d && p[11..] == e
  {
  }

  lemma SnapshotAt(m: S.Snapshot, p: seq<Byte>)
    requires S.SnapshotOK(m) && S.SnapshotWire(m) == p
    ensures |p| == 11 + 20 * |m.entities| && p[10] == |m.entities| <= 64
    ensures GetU32(p, 0) == m.serverTick && GetU16(p, 4) == m.yourLastInputTick && GetU32(p, 6) == m.yourEntityID
    ensures forall i: nat | i < |m.entities| :: EntityAt(p, 11 + 20 * i) == m.entities[i]
  {
    SnapshotHeader(m, p);
    hide *;
    forall i: nat | i < |m.entities|
      ensures EntityAt(p, 11 + 20 * i) == m.entities[i]
    {
      EntityRead(p, m.entities, i);
    }
  }

  lemma EntityRead(p: seq<Byte>, es: seq<S.WireEntity>, i: nat)
    requires i < |es| && |p| == 11 + 20 * |es| && p[11..] == Flat(S.EntityWire, es)
    ensures EntityAt(p, 11 + 20 * i) == es[i]
  {
    var at := 11 + 20 * i;
    FlatAt(S.EntityWire, 20, es, i);
    EntityAtIs(p, at);
    S.EntityThere(es[i]);
    hide *;
    assert p[at..at + 20] == p[11..][20 * i..20 * i + 20];
  }

  // ---- what the browser sends ----

  /** The five bytes of an input; the server takes exactly what the browser agrees to send. */
  method WriteInput(m: C.Input) returns (r: Option<seq<Byte>>)
    ensures r.None? <==> m.dir > 8 || m.fireDir > 8 || m.turbo > 1
    ensures r.Some? ==> C.DecodeInput(r.value) == Some(m)
  {
    if m.dir > 8 || m.fireDir > 8 || m.turbo > 1 {
      return None;
    }
    var b: seq<Byte> := [m.clientTick % 256, m.clientTick / 256, m.dir, m.turbo, m.fireDir];
    assert GetU16(b, 0) == m.clientTick;
    Views(b, 0);
    r := Some(b);
  }

  method WriteMatchJoin(m: C.MatchJoin) returns (r: Option<seq<Byte>>)
    ensures r.None? <==> |m.token| == 0 || |m.token| > 32
    ensures r.Some? ==> C.DecodeMatchJoin(r.value) == Some(m)
  {
    if |m.token| == 0 || |m.token| > 32 {
      return None;
    }
    var c: int := m.schemaChecksum;
    var b: seq<Byte> := [c % 256, c / 256 % 256, c / 65536 % 256, c / 16777216, |m.token|] + m.token;
    Digits(m.schemaChecksum);
    assert GetU32(b, 0) == m.schemaChecksum;
    Views(b, 0);
    assert b[5..] == m.token;
    r := Some(b);
  }

  /**
   A frame around a payload. The length field wraps, so that the server takes exactly the frames of payloads that fit,
   and finds trailing bytes in the others.
   */
  method WriteFrame(h: C.Header, payload: seq<Byte>) returns (b: seq<Byte>)
    ensures C.DecodeFrame(b) == if |payload| <= 65535 then C.Ok((h.(len := |payload|), payload)) else C.Err(C.Malformed)
  {
    var n := |payload| % 65536;
    b := [h.kind, h.flags, h.seqNo % 256, h.seqNo / 256, h.ack % 256, h.ack / 256, n % 256, n / 256] + payload;
    assert GetU16(b, 2) == h.seqNo && GetU16(b, 4) == h.ack && GetU16(b, 6) == n;
    Views(b, 2);
    Views(b, 4);
    Views(b, 6);
    assert |b| == 8 + |payload| && b[8..8 + n] == payload[..n];
    if |payload| <= 65535 {
      assert n == |payload| && payload[..n] == payload;
    } else {
      assert n < |payload|;
    }
  }

  // ---- what else it reads ----

  method ReadFrame(src: seq<Byte>) returns (r: Option<(C.Header, seq<Byte>)>)
    ensures forall h, payload | C.EncodeFrame(h, payload) == C.Ok(src) :: r == Some((h.(len := |payload|), payload))
    ensures r.Some? <==> C.DecodeFrame(src).Ok?
  {
    forall h, payload | C.EncodeFrame(h, payload) == C.Ok(src)
      ensures C.DecodeFrame(src) == C.Ok((h.(len := |payload|), payload))
    {
      C.FrameRoundTrip(h, payload);
    }
    if |src| < 8 {
      return None;
    }
    Views(src, 2);
    Views(src, 4);
    Views(src, 6);
    hide GetU16, U16Of;
    var h := C.Header(src[0], src[1], GetU16(src, 2), GetU16(src, 4), GetU16(src, 6));
    var end := 8 + h.len;
    if |src| < end || |src| > end {
      return None;
    }
    r := Some((h, src[8..end]));
  }

  method ReadMapInit(p: seq<Byte>) returns (r: Option<C.MapInit>)
    ensures r.Some? <==> |p| >= 9
    ensures forall m | C.EncodeMapInit(m) == Some(p) :: r == Some(m)
  {
    forall m | C.EncodeMapInit(m) == Some(p)
      ensures C.DecodeMapInit(p) == Some(m)
    {
      C.MapInitInverse(m, p);
    }
    if |p| < 9 {
      return None;
    }
    Views(p, 0);
    Views(p, 4);
    Views(p, 6);
    hide GetU16, GetU32, U16Of, U32Of;
    r := Some(C.MapInit(GetU32(p, 0), GetU16(p, 4), GetU16(p, 6), p[8], p[9..]));
  }

  // ---- the end of a match ----

  method ReadMatchOver(p: seq<Byte>) returns (r: Option<O.MatchOver>)
    ensures forall m: O.MatchOver | |m.entries| <= 255 && O.MatchOverWire(m) == p :: r == Some(m)
    ensures r.Some? <==> |p| >= 10 && |p| == 10 + 9 * (p[9] as int)
  {
    forall m: O.MatchOver | |m.entries| <= 255 && O.MatchOverWire(m) == p
      ensures |p| == 10 + 9 * |m.entries| && p[9] == |m.entries|
      ensures GetU32(p, 0) == m.finalTick && p[4] == m.reason && GetU32(p, 5) == m.winner
      ensures forall i: nat | i < |m.entries| :: OverAt(p, 10 + 9 * i) == m.entries[i]
    {
      MatchOverAt(m, p);
    }
    hide GetU32, OverAt, O.MatchOverWire;
    if |p| < 10 {
      return None;
    }
    var es: seq<O.MatchOverEntry> := [];
    var off := 10;
    var n: nat := p[9];
    for i := 0 to n
      invariant off == 10 + 9 * i <= |p| && |es| == i && forall j: nat | j < i :: es[j] == OverAt(p, 10 + 9 * j)
    {
      if off + 9 > |p| {
        return None;
      }
      es := es + [OverAt(p, off)];
      off := off + 9;
    }
    if off != |p| {
      return None;
    }
    OverFits(p);
    r := Some(O.MatchOver(GetU32(p, 0), p[4], GetU32(p, 5), es));
    forall m: O.MatchOver | |m.entries| <= 255 && O.MatchOverWire(m) == p
      ensures r == Some(m)
    {
      assert es == m.entries;
    }
  }

  function OverAt(p: seq<Byte>, at: nat): O.MatchOverEntry
    requires at + 9 <= |p|
  {
    O.MatchOverEntry(GetU32(p, at), GetI32(p, at + 4), p[at + 8])
  }

  lemma OverFits(p: seq<Byte>)
    requires |p| >= 10
    ensures 0 <= GetU32(p, 0) < 0x1_0000_0000 && 0 <= GetU32(p, 5) < 0x1_0000_0000
  {
  }

  lemma OverAtIs(p: seq<Byte>, at: nat)
    requires at + 9 <= |p|
    ensures OverAt(p, at) == O.OverOf(p[at..at + 9])
  {
    var b := p[at..at + 9];
    Views(p, at);
    Views(p, at + 4);
    hide GetU32, GetI32, U32Of, Signed32;
    assert b[0..4] == p[at..at + 4] && b[4..8] == p[at + 4..at + 8];
  }

  lemma OverHeader(m: O.MatchOver, p: seq<Byte>)
    requires |m.entries| <= 255 && O.MatchOverWire(m) == p
    ensures |p| == 10 + 9 * |m.entries| && p[9] == |m.entries| && p[10..] == Flat(O.OverWire, m.entries)
    ensures GetU32(p, 0) == m.finalTick && p[4] == m.reason && GetU32(p, 5) == m.winner
  {
    O.MatchOverLength(m);
    assert p[0..4] == LE32(m.finalTick) && p[5..9] == LE32(m.winner);
    hide GetU32;
    Views32(p, 0, m.finalTick);
    Views32(p, 5, m.winner);
  }

  lemma MatchOverAt(m: O.MatchOver, p: seq<Byte>)
    requires |m.entries| <= 255 && O.MatchOverWire(m) == p
    ensures |p| == 10 + 9 * |m.entries| && p[9] == |m.entries|
    ensures GetU32(p, 0) == m.finalTick && p[4] == m.reason && GetU32(p, 5) == m.winner
    ensures forall i: nat | i < |m.entries| :: OverAt(p, 10 + 9 * i) == m.entries[i]
  {
    OverHeader(m, p);
    hide *;
    forall i: nat | i < |m.entries|
      ensures OverAt(p, 10 + 9 * i) == m.entries[i]
    {
      OverRead(p, m.entries, i);
    }
  }

  lemma OverRead(p: seq<Byte>, es: seq<O.MatchOverEntry>, i: nat)
    requires i < |es| && |p| == 10 + 9 * |es| && p[10..] == Flat(O.OverWire, es)
    ensures OverAt(p, 10 + 9 * i) == es[i]
  {
    var at := 10 + 9 * i;
    FlatAt(O.OverWire, 9, es, i);
    OverAtIs(p, at);
    O.OverThere(es[i]);
    hide *;
    assert p[at..at + 9] == p[10..][9 * i..9 * i + 9];
  }

  // ---- the scoreboard ----

  ghost predicate From(m: B.Scoreboard, p: seq<Byte>) { B.ScoreboardOK(m) && B.ScoreboardWire(m) == p }

  /** The cursor stands before the rows not read yet. */
  ghost predicate ReadUpTo(m: B.Scoreboard, p: seq<Byte>, i: nat, off: nat, es: seq<B.ScoreEntry>) {
    && i <= |m.entries| && off <= |p| && es == m.entries[..i]
    && B.EntriesOK(m.entries[i..]) && p[off..] == B.EntriesWire(m.entries[i..])
  }

  /** Row by row, as the server wrote them; a row without a name is read too. */
  method ReadScoreboard(p: seq<Byte>) returns (r: Option<B.Scoreboard>)
    ensures forall m | From(m, p) :: r == Some(m)
  {
    forall m | From(m, p)
      ensures |p| >= 5 && GetU32(p, 0) == m.serverTick && p[4] == |m.entries| && ReadUpTo(m, p, 0, 5, [])
    {
      ScoresStart(m, p);
    }
    hide GetU32, From, ReadUpTo;
    if |p| < 5 {
      return None;
    }
    var es: seq<B.ScoreEntry>, off: nat, n: nat := [], 5, p[4];
    for i := 0 to n
      invariant off <= |p|
      invariant forall m | From(m, p) :: |m.entries| == n && ReadUpTo(m, p, i, off, es)
    {
      forall m | From(m, p)
        ensures RowAt(p, off).Some?
        ensures ReadUpTo(m, p, i + 1, RowAt(p, off).value.1, es + [RowAt(p, off).value.0])
      {
        OneRow(m, p, i, off, es);
      }
      if off + 5 > |p| || off + 5 + p[off + 4] as int + 5 > |p| {
        return None;
      }
      es, off := es + [RowAt(p, off).value.0], RowAt(p, off).value.1;
    }
    forall m | From(m, p)
      ensures off == |p| && es == m.entries
    {
      ScoresEnd(m, p, off, es);
    }
    if off != |p| {
      return None;
    }
    Fits32(p);
    r := Some(B.Scoreboard(GetU32(p, 0), es));
  }

  function RowAt(p: seq<Byte>, off: nat): (r: Option<(B.ScoreEntry, nat)>)
    ensures r.None? <==> off + 5 > |p| || off + 5 + p[off + 4] as int + 5 > |p|
    ensures r.Some? ==> off < r.value.1 <= |p|
  {
    if off + 5 > |p| || off + 5 + p[off + 4] as int + 5 > |p| then None
    else
      var n: nat := p[off + 4];
      Some((B.ScoreEntry(GetU32(p, off), p[off + 5..off + 5 + n], p[off + 5 + n], GetI32(p, off + 6 + n)),
            off + 10 + n))
  }

  lemma Fits32(p: seq<Byte>)
    requires |p| >= 4
    ensures 0 <= GetU32(p, 0) < 0x1_0000_0000
  {
  }

  lemma ScoresStart(m: B.Scoreboard, p: seq<Byte>)
    requires From(m, p)
    ensures |p| >= 5 && GetU32(p, 0) == m.serverTick && p[4] == |m.entries| && ReadUpTo(m, p, 0, 5, [])
  {
    assert p[0..4] == LE32(m.serverTick) && p[5..] == B.EntriesWire(m.entries) && m.entries[0..] == m.entries;
    Views32(p, 0, m.serverTick);
  }

  lemma ScoresEnd(m: B.Scoreboard, p: seq<Byte>, off: nat, es: seq<B.ScoreEntry>)
    requires ReadUpTo(m, p, |m.entries|, off, es)
    ensures off == |p| && es == m.entries
  {
    assert m.entries[|m.entries|..] == [];
  }

  lemma RowIsTaken(p: seq<Byte>, off: nat)
    requires off <= |p| && B.TakeEntry(p[off..]).Some?
    ensures RowAt(p, off).Some?
    ensures var (row, next) := RowAt(p, off).value; B.TakeEntry(p[off..]) == Some((row, p[next..]))
  {
    var q := p[off..];
    var n: nat := q[4];
    Views(p, off);
    Views(p, off + 6 + n);
    hide GetU32, GetI32, U32Of, Signed32;
    assert q[0..4] == p[off..off + 4] && q[6 + n..10 + n] == p[off + 6 + n..off + 10 + n];
    assert q[5..5 + n] == p[off + 5..off + 5 + n] && q[10 + n..] == p[off + 10 + n..];
  }

  lemma OneRow(m: B.Scoreboard, p: seq<Byte>, i: nat, off: nat, es: seq<B.ScoreEntry>)
    requires i < |m.entries| && ReadUpTo(m, p, i, off, es)
    ensures RowAt(p, off).Some?
    ensures ReadUpTo(m, p, i + 1, RowAt(p, off).value.1, es + [RowAt(p, off).value.0])
  {
    var rest := m.entries[i..];
    assert rest[1..] == m.entries[i + 1..] && rest[0] == m.entries[i];
    assert p[off..] == B.EntryWire(rest[0]) + B.EntriesWire(rest[1..]);
    B.EntryThere(rest[0], B.EntriesWire(rest[1..]));
    RowIsTaken(p, off);
    hide RowAt, B.TakeEntry;
  }
}
