/** MatchOver payloads. */
module MatchOverCodec {
  import opened Options
  import opened Bytes

  datatype MatchOverEntry = MatchOverEntry(playerID: U32, score: I32, livesRemaining: Byte)

  const OVER_LEN := 9
  const OVER_PREFIX := 10

  function OverWire(e: MatchOverEntry): (b: seq<Byte>)
    ensures |b| == OVER_LEN
  {
    LE32(e.playerID) + LE32(Unsigned32(e.score)) + [e.livesRemaining]
  }

  function OverOf(b: seq<Byte>): MatchOverEntry {
    if |b| != OVER_LEN then MatchOverEntry(0, 0, 0) else MatchOverEntry(U32Of(b[0..4]), Signed32(U32Of(b[4..8])), b[8])
  }

  lemma OverThere(e: MatchOverEntry)
    ensures OverOf(OverWire(e)) == e
  {
    assert OverWire(e)[0..4] == LE32(e.playerID) && OverWire(e)[4..8] == LE32(Unsigned32(e.score));
    RoundTrip32(e.playerID, [0, 0, 0, 0]);
    RoundTrip32(Unsigned32(e.score), [0, 0, 0, 0]);
    Signs(e.score, 0, 0, 0);
  }

  lemma OverBack(b: seq<Byte>)
    requires |b| == OVER_LEN
    ensures OverWire(OverOf(b)) == b
  {
    RoundTrip32(0, b[0..4]);
    RoundTrip32(0, b[4..8]);
    Signs(0, U32Of(b[4..8]), 0, 0);
    assert b == b[0..4] + b[4..8] + [b[8]];
  }

  datatype MatchOver = MatchOver(finalTick: U32, reason: Byte, winner: U32, entries: seq<MatchOverEntry>)

  function MatchOverWire(m: MatchOver): seq<Byte>
    requires |m.entries| <= 255
  {
    LE32(m.finalTick) + [m.reason] + LE32(m.winner) + [|m.entries|] + Flat(OverWire, m.entries)
  }

  method EncodeMatchOver(m: MatchOver) returns (r: Option<seq<Byte>>)
    ensures if |m.entries| <= 255 then r == Some(MatchOverWire(m)) else r == None
  {
    if |m.entries| > 255 {
      return None;
    }
    var dst := LE32(m.finalTick) + [m.reason] + LE32(m.winner) + [|m.entries|];
    ghost var prefix := dst;
    hide OverWire;
    for i := 0 to |m.entries|
      invariant dst == prefix + Flat(OverWire, m.entries[..i])
    {
      assert m.entries[..i + 1][..i] == m.entries[..i];
      dst := dst + OverWire(m.entries[i]);
    }
    assert m.entries[..|m.entries|] == m.entries;
    r := Some(dst);
  }

  lemma ReadNext(es: seq<MatchOverEntry>, p: seq<Byte>, off: nat)
    requires OVER_PREFIX <= off && off + OVER_LEN <= |p| && Flat(OverWire, es) == p[OVER_PREFIX..off]
    ensures Flat(OverWire, es + [OverOf(p[off..off + OVER_LEN])]) == p[OVER_PREFIX..off + OVER_LEN]
  {
    var b := p[off..off + OVER_LEN];
    OverBack(b);
    hide OverOf, OverWire;
    var more := es + [OverOf(b)];
    assert more[..|more| - 1] == es;
    assert p[OVER_PREFIX..off + OVER_LEN] == p[OVER_PREFIX..off] + b;
  }

  method ReadEntries(p: seq<Byte>, n: nat) returns (es: seq<MatchOverEntry>)
    requires |p| == OVER_PREFIX + n * OVER_LEN
    ensures |es| == n && Flat(OverWire, es) == p[OVER_PREFIX..]
  {
    es := [];
    var off := OVER_PREFIX;
    hide OverWire, OverOf;
    for i := 0 to n
      invariant off == OVER_PREFIX + i * OVER_LEN && |es| == i && Flat(OverWire, es) == p[OVER_PREFIX..off]
    {
      ReadNext(es, p, off);
      es := es + [OverOf(p[off..off + OVER_LEN])];
      off := off + OVER_LEN;
    }
    assert p[OVER_PREFIX..off] == p[OVER_PREFIX..];
  }

  lemma MatchOverIs(p: seq<Byte>, es: seq<MatchOverEntry>)
    requires |p| >= OVER_PREFIX && p[9] == |es| && Flat(OverWire, es) == p[OVER_PREFIX..]
    ensures MatchOverWire(MatchOver(U32Of(p[0..4]), p[4], U32Of(p[5..9]), es)) == p
  {
    RoundTrip32(0, p[0..4]);
    RoundTrip32(0, p[5..9]);
    hide OverWire, Flat;
    assert p == p[0..4] + [p[4]] + p[5..9] + [p[9]] + p[OVER_PREFIX..];
  }

  lemma MatchOverLength(m: MatchOver)
    requires |m.entries| <= 255
    ensures |MatchOverWire(m)| == OVER_PREFIX + |m.entries| * OVER_LEN && MatchOverWire(m)[9] == |m.entries|
  {
    FlatLength(OverWire, OVER_LEN, m.entries);
  }

  /** Accepts exactly the encoder's output, and gives back what was encoded. */
  method DecodeMatchOver(p: seq<Byte>) returns (r: Option<MatchOver>)
    ensures r.Some? ==> |r.value.entries| <= 255 && MatchOverWire(r.value) == p
    ensures forall m: MatchOver | |m.entries| <= 255 && MatchOverWire(m) == p :: r == Some(m)
  {
    forall m: MatchOver | |m.entries| <= 255 && MatchOverWire(m) == p
      ensures |p| == OVER_PREFIX + |m.entries| * OVER_LEN && p[9] == |m.entries|
    {
      MatchOverLength(m);
    }
    hide OverWire, MatchOverWire, Flat;
    if |p| < OVER_PREFIX {
      return None;
    }
    var n: nat := p[9];
    if |p| != OVER_PREFIX + n * OVER_LEN {
      return None;
    }
    var es := ReadEntries(p, n);
    MatchOverIs(p, es);
    r := Some(MatchOver(U32Of(p[0..4]), p[4], U32Of(p[5..9]), es));
    forall m: MatchOver | |m.entries| <= 255 && MatchOverWire(m) == p
      ensures r == Some(m)
    {
      MatchOverInjective(m, r.value);
    }
  }

  lemma MatchOverInjective(a: MatchOver, b: MatchOver)
    requires |a.entries| <= 255 && |b.entries| <= 255 && MatchOverWire(a) == MatchOverWire(b)
    ensures a == b
  {
    var p := MatchOverWire(a);
    forall m: MatchOver | (m == a || m == b)
      ensures U32Of(p[0..4]) == m.finalTick && p[4] == m.reason && U32Of(p[5..9]) == m.winner
      ensures p[9] == |m.entries| && p[OVER_PREFIX..] == Flat(OverWire, m.entries)
    {
      assert p[0..4] == LE32(m.finalTick) && p[5..9] == LE32(m.winner);
      RoundTrip32(m.finalTick, [0, 0, 0, 0]);
      RoundTrip32(m.winner, [0, 0, 0, 0]);
    }
    forall e: MatchOverEntry
      ensures |OverWire(e)| == OVER_LEN && OverOf(OverWire(e)) == e
    {
      OverThere(e);
    }
    hide OverWire, OverOf;
    FlatInjective(OverWire, OverOf, OVER_LEN, a.entries, b.entries);
  }
}
