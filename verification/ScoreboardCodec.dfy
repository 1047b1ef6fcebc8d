/** Scoreboard payloads: records of varying length. */
module ScoreboardCodec {
  import opened Options
  import opened Bytes

  datatype ScoreEntry = ScoreEntry(playerID: U32, nick: seq<Byte>, lives: Byte, score: I32)

  predicate EntryOK(e: ScoreEntry) { 1 <= |e.nick| <= 255 }

  predicate EntriesOK(es: seq<ScoreEntry>) { forall i | 0 <= i < |es| :: EntryOK(es[i]) }

  function EntryWire(e: ScoreEntry): seq<Byte>
    requires EntryOK(e)
  {
    LE32(e.playerID) + [|e.nick|] + e.nick + [e.lives] + LE32(Unsigned32(e.score))
  }

  function EntriesWire(es: seq<ScoreEntry>): seq<Byte>
    requires EntriesOK(es)
  {
    if es == [] then [] else EntryWire(es[0]) + EntriesWire(es[1..])
  }

  /** One record off the front. */
  function TakeEntry(p: seq<Byte>): Option<(ScoreEntry, seq<Byte>)> {
    if |p| < 5 || p[4] == 0 || |p| < 5 + p[4] as int + 5 then None
    else
      var n: nat := p[4];
      Some((ScoreEntry(U32Of(p[0..4]), p[5..5 + n], p[5 + n], Signed32(U32Of(p[6 + n..10 + n]))), p[10 + n..]))
  }

  function TakeEntries(p: seq<Byte>, n: nat): Option<(seq<ScoreEntry>, seq<Byte>)> {
    if n == 0 then Some(([], p))
    else
      match TakeEntry(p)
      case None => None
      case Some((e, rest)) =>
        match TakeEntries(rest, n - 1)
        case None => None
        case Some((es, rest')) => Some(([e] + es, rest'))
  }

  lemma EntryThere(e: ScoreEntry, rest: seq<Byte>)
    requires EntryOK(e)
    ensures TakeEntry(EntryWire(e) + rest) == Some((e, rest))
  {
    var p, n := EntryWire(e) + rest, |e.nick|;
    assert p[0..4] == LE32(e.playerID) && p[4] == n && p[5..5 + n] == e.nick && p[5 + n] == e.lives;
    assert p[6 + n..10 + n] == LE32(Unsigned32(e.score)) && p[10 + n..] == rest;
    RoundTrip32(e.playerID, [0, 0, 0, 0]);
    RoundTrip32(Unsigned32(e.score), [0, 0, 0, 0]);
    Signs(e.score, 0, 0, 0);
  }

  lemma EntryBack(p: seq<Byte>)
    requires TakeEntry(p).Some?
    ensures var (e, rest) := TakeEntry(p).value; EntryOK(e) && p == EntryWire(e) + rest
  {
    var n: nat := p[4];
    RoundTrip32(0, p[0..4]);
    RoundTrip32(0, p[6 + n..10 + n]);
    Signs(0, U32Of(p[6 + n..10 + n]), 0, 0);
    assert p == p[0..4] + [p[4]] + p[5..5 + n] + [p[5 + n]] + p[6 + n..10 + n] + p[10 + n..];
  }

  lemma {:induction false} EntriesThere(es: seq<ScoreEntry>, rest: seq<Byte>)
    requires EntriesOK(es)
    ensures TakeEntries(EntriesWire(es) + rest, |es|) == Some((es, rest))
  {
    if es == [] {
      assert EntriesWire(es) + rest == rest;
    } else {
      hide EntryWire, TakeEntry;
      EntriesThere(es[1..], rest);
      EntryThere(es[0], EntriesWire(es[1..]) + rest);
      assert EntriesWire(es) + rest == EntryWire(es[0]) + (EntriesWire(es[1..]) + rest);
      assert es == [es[0]] + es[1..];
    }
  }

  lemma {:induction false} EntriesBack(p: seq<Byte>, n: nat)
    requires TakeEntries(p, n).Some?
    ensures var (es, rest) := TakeEntries(p, n).value; EntriesOK(es) && |es| == n && p == EntriesWire(es) + rest
  {
    if n > 0 {
      hide EntryWire, TakeEntry;
      var (e, rest) := TakeEntry(p).value;
      EntryBack(p);
      EntriesBack(rest, n - 1);
      var (es, end) := TakeEntries(rest, n - 1).value;
      assert ([e] + es)[1..] == es;
      JoinedWires(EntryWire(e), EntriesWire(es), end);
      hide TakeEntries;
    }
  }

  lemma JoinedWires(a: seq<Byte>, b: seq<Byte>, c: seq<Byte>)
    ensures a + (b + c) == a + b + c
  {
  }

  datatype Scoreboard = Scoreboard(serverTick: U32, entries: seq<ScoreEntry>)

  predicate ScoreboardOK(m: Scoreboard) { |m.entries| <= 255 && EntriesOK(m.entries) }

  function ScoreboardWire(m: Scoreboard): seq<Byte>
    requires ScoreboardOK(m)
  {
    LE32(m.serverTick) + [|m.entries|] + EntriesWire(m.entries)
  }

  lemma {:induction false} EntriesMore(es: seq<ScoreEntry>, e: ScoreEntry)
    requires EntriesOK(es) && EntryOK(e)
    ensures EntriesOK(es + [e]) && EntriesWire(es + [e]) == EntriesWire(es) + EntryWire(e)
  {
    var more := es + [e];
    if es == [] {
      assert more[1..] == [];
    } else {
      EntriesMore(es[1..], e);
      assert more[1..] == es[1..] + [e];
    }
  }

  method AppendEntries(dst0: seq<Byte>, es: seq<ScoreEntry>) returns (r: Option<seq<Byte>>)
    ensures if EntriesOK(es) then r == Some(dst0 + EntriesWire(es)) else r == None
  {
    var dst := dst0;
    assert EntriesOK(es[..0]) && EntriesWire(es[..0]) == [];
    hide EntryWire, EntriesWire;
    for i := 0 to |es|
      invariant EntriesOK(es[..i]) && dst == dst0 + EntriesWire(es[..i])
    {
      var e := es[i];
      if |e.nick| == 0 || |e.nick| > 255 {
        assert !EntryOK(es[i]);
        return None;
      }
      EntriesMore(es[..i], e);
      assert es[..i + 1] == es[..i] + [e];
      dst := dst + EntryWire(e);
    }
    assert es[..|es|] == es;
    r := Some(dst);
  }

  method EncodeScoreboard(m: Scoreboard) returns (r: Option<seq<Byte>>)
    ensures if ScoreboardOK(m) then r == Some(ScoreboardWire(m)) else r == None
  {
    hide EntriesWire, LE32;
    if |m.entries| > 255 {
      return None;
    }
    r := AppendEntries(LE32(m.serverTick) + [|m.entries|], m.entries);
  }

  /** The next record, if there is a whole one. */
  method ReadEntry(p: seq<Byte>, off: nat) returns (r: Option<(ScoreEntry, nat)>)
    requires off <= |p|
    ensures r.None? ==> TakeEntry(p[off..]).None?
    ensures r.Some? ==> off <= r.value.1 <= |p| && TakeEntry(p[off..]) == Some((r.value.0, p[r.value.1..]))
  {
    if off + 5 > |p| {
      return None;
    }
    var nl: nat := p[off + 4];
    assert p[off..][4] == p[off + 4];
    if nl == 0 {
      return None;
    }
    if off + 5 + nl + 5 > |p| {
      return None;
    }
    EntryAt(p, off);
    r := Some((ScoreEntry(U32Of(p[off..off + 4]), p[off + 5..off + 5 + nl], p[off + 5 + nl],
                          Signed32(U32Of(p[off + 6 + nl..off + 10 + nl]))), off + 10 + nl));
  }

  lemma TakeNext(q: seq<Byte>, n: nat)
    requires n > 0
    ensures TakeEntry(q).None? ==> TakeEntries(q, n).None?
    ensures TakeEntry(q).Some? ==>
              TakeEntries(q, n) == Prepend([TakeEntry(q).value.0], TakeEntries(TakeEntry(q).value.1, n - 1))
  {
    hide TakeEntry;
  }

  method ReadEntries(p: seq<Byte>, n: nat) returns (r: Option<(seq<ScoreEntry>, nat)>)
    requires |p| >= 5
    ensures r.None? ==> TakeEntries(p[5..], n).None?
    ensures r.Some? ==> 5 <= r.value.1 <= |p| && TakeEntries(p[5..], n) == Some((r.value.0, p[r.value.1..]))
  {
    var off := 5;
    var es: seq<ScoreEntry> := [];
    PrependNothing(TakeEntries(p[5..], n));
    hide TakeEntry, TakeEntries;
    for i := 0 to n
      invariant 5 <= off <= |p| && TakeEntries(p[5..], n) == Prepend(es, TakeEntries(p[off..], n - i))
    {
      TakeNext(p[off..], n - i);
      var e := ReadEntry(p, off);
      if e.None? {
        return None;
      }
      PrependMore(es, e.value.0, TakeEntries(p[e.value.1..], n - i - 1));
      es, off := es + [e.value.0], e.value.1;
    }
    TakeNone(p[off..]);
    r := Some((es, off));
    assert es + [] == es;
  }

  lemma TakeNone(q: seq<Byte>)
    ensures TakeEntries(q, 0) == Some(([], q))
  {
  }

  lemma WireIsTaken(m: Scoreboard)
    requires ScoreboardOK(m)
    ensures var p := ScoreboardWire(m);
            |p| >= 5 && p[4] == |m.entries| && U32Of(p[0..4]) == m.serverTick
              && TakeEntries(p[5..], |m.entries|) == Some((m.entries, []))
  {
    var p := ScoreboardWire(m);
    EntriesThere(m.entries, []);
    assert p[0..4] == LE32(m.serverTick) && p[5..] == EntriesWire(m.entries) + [];
    RoundTrip32(m.serverTick, [0, 0, 0, 0]);
  }

  /** Accepts exactly what the encoder can produce, and gives back what was encoded. */
  method DecodeScoreboard(p: seq<Byte>) returns (r: Option<Scoreboard>)
    ensures r.Some? ==> ScoreboardOK(r.value) && ScoreboardWire(r.value) == p
    ensures forall m | ScoreboardOK(m) && ScoreboardWire(m) == p :: r == Some(m)
  {
    forall m | ScoreboardOK(m) && ScoreboardWire(m) == p
      ensures |p| >= 5 && p[4] == |m.entries| && U32Of(p[0..4]) == m.serverTick
      ensures TakeEntries(p[5..], |m.entries|) == Some((m.entries, []))
    {
      WireIsTaken(m);
    }
    hide EntryWire, ScoreboardWire, EntriesWire, TakeEntry, TakeEntries, U32Of;
    if |p| < 5 {
      return None;
    }
    var es := ReadEntries(p, p[4]);
    if es.None? || es.value.1 != |p| {
      return None;
    }
    EntriesBack(p[5..], p[4]);
    r := Some(Scoreboard(U32Of(p[0..4]), es.value.0));
    ScoreboardIs(p, r.value);
  }

  function Prepend(es: seq<ScoreEntry>, r: Option<(seq<ScoreEntry>, seq<Byte>)>): Option<(seq<ScoreEntry>, seq<Byte>)> {
    match r
    case None => None
    case Some((fs, rest)) => Some((es + fs, rest))
  }

  lemma PrependNothing(r: Option<(seq<ScoreEntry>, seq<Byte>)>)
    ensures Prepend([], r) == r
  {
    if r.Some? { assert [] + r.value.0 == r.value.0; }
  }

  lemma PrependMore(es: seq<ScoreEntry>, e: ScoreEntry, r: Option<(seq<ScoreEntry>, seq<Byte>)>)
    ensures Prepend(es, Prepend([e], r)) == Prepend(es + [e], r)
  {
    if r.Some? { assert es + ([e] + r.value.0) == es + [e] + r.value.0; }
  }

  /** The record at an offset is the record off the front of what is left there. */
  lemma EntryAt(p: seq<Byte>, off: nat)
    requires off + 5 <= |p| && p[off + 4] != 0 && off + 10 + p[off + 4] as int <= |p|
    ensures var n: nat := p[off + 4];
            TakeEntry(p[off..])
              == Some((ScoreEntry(U32Of(p[off..off + 4]), p[off + 5..off + 5 + n], p[off + 5 + n],
                                  Signed32(U32Of(p[off + 6 + n..off + 10 + n]))),
                                         p[off + 10 + n..]))
  {
    var q, n: nat := p[off..], p[off + 4];
    assert q[4] == p[off + 4] && q[0..4] == p[off..off + 4] && q[5..5 + n] == p[off + 5..off + 5 + n];
    assert q[6 + n..10 + n] == p[off + 6 + n..off + 10 + n] && q[10 + n..] == p[off + 10 + n..];
  }

  lemma ScoreboardIs(p: seq<Byte>, m: Scoreboard)
    requires |p| >= 5 && m.serverTick == U32Of(p[0..4]) && p[4] == |m.entries| && EntriesOK(m.entries)
    requires p[5..] == EntriesWire(m.entries) + []
    ensures ScoreboardOK(m) && ScoreboardWire(m) == p
  {
    RoundTrip32(0, p[0..4]);
    assert p == p[0..4] + [p[4]] + p[5..];
  }
}
