/** Bytes and the little-endian integers made of them. */
module Bytes {

  type Byte = x: int | 0 <= x < 0x100 witness 0
  type U16 = x: int | 0 <= x < 0x1_0000 witness 0
  type U32 = x: int | 0 <= x < 0x1_0000_0000 witness 0
  type I16 = x: int | -0x8000 <= x < 0x8000 witness 0
  type I32 = x: int | -0x8000_0000 <= x < 0x8000_0000 witness 0

  function LE16(v: U16): (b: seq<Byte>)
    ensures |b| == 2
  {
    [v % 0x100, v / 0x100]
  }

  function U16Of(b: seq<Byte>): U16
    requires |b| == 2
  {
    b[0] as int + 0x100 * (b[1] as int)
  }

  function LE32(v: U32): (b: seq<Byte>)
    ensures |b| == 4
  {
    [v % 0x100, v / 0x100 % 0x100, v / 0x1_0000 % 0x100, v / 0x100_0000]
  }

  function U32Of(b: seq<Byte>): U32
    requires |b| == 4
  {
    b[0] as int + 0x100 * (b[1] as int) + 0x1_0000 * (b[2] as int) + 0x100_0000 * (b[3] as int)
  }

  /** Two's complement. */
  function Unsigned32(i: I32): U32 { if i < 0 then i + 0x1_0000_0000 else i }
  function Signed32(u: U32): I32 { if u >= 0x8000_0000 then u - 0x1_0000_0000 else u }
  function Unsigned16(i: I16): U16 { if i < 0 then i + 0x1_0000 else i }
  function Signed16(u: U16): I16 { if u >= 0x8000 then u - 0x1_0000 else u }

  lemma RoundTrip16(v: U16, b: seq<Byte>)
    requires |b| == 2
    ensures U16Of(LE16(v)) == v && LE16(U16Of(b)) == b
  {
    assert v == v % 0x100 + 0x100 * (v / 0x100);
    assert U16Of(b) / 0x100 == b[1] && U16Of(b) % 0x100 == b[0];
  }

  lemma RoundTrip32(v: U32, b: seq<Byte>)
    requires |b| == 4
    ensures U32Of(LE32(v)) == v && LE32(U32Of(b)) == b
  {
    Digits(v);
    var u: int, x: int, y: int, z: int := U32Of(b), b[1], b[2], b[3];
    assert u % 0x100 == b[0] && u / 0x100 == x + 0x100 * y + 0x1_0000 * z;
    assert u / 0x1_0000 == y + 0x100 * z && u / 0x100_0000 == z;
  }

  lemma Digits(v: U32)
    ensures v == v % 0x100 + 0x100 * (v / 0x100 % 0x100) + 0x1_0000 * (v / 0x1_0000 % 0x100) +
            0x100_0000 * (v / 0x100_0000)
  {
    var a, b, c := v / 0x100, v / 0x1_0000, v / 0x100_0000;
    assert v == 0x100 * a + v % 0x100;
    assert a / 0x100 == b && a == 0x100 * b + a % 0x100;
    assert b / 0x100 == c && b == 0x100 * c + b % 0x100;
  }

  lemma Signs(i: I32, u: U32, j: I16, w: U16)
    ensures Signed32(Unsigned32(i)) == i && Unsigned32(Signed32(u)) == u
    ensures Signed16(Unsigned16(j)) == j && Unsigned16(Signed16(w)) == w
  {
  }

  // ---- records of one size, one after the other ----

  function Flat<T>(enc: T -> seq<Byte>, es: seq<T>): seq<Byte> {
    if es == [] then [] else Flat(enc, es[..|es| - 1]) + enc(es[|es| - 1])
  }

  lemma OneMore(k: nat, n: nat)
    ensures k * n + k == k * (n + 1)
  {
  }

  lemma {:induction false} FlatLength<T>(enc: T -> seq<Byte>, k: nat, es: seq<T>)
    requires forall e :: |enc(e)| == k
    ensures |Flat(enc, es)| == k * |es|
  {
    if es != [] {
      var n := |es| - 1;
      FlatLength(enc, k, es[..n]);
      assert |enc(es[n])| == k && |Flat(enc, es[..n])| == k * n;
      OneMore(k, n);
      assert |Flat(enc, es)| == |Flat(enc, es[..n])| + |enc(es[n])|;
    }
  }

  /** What was laid down in records of one size can be read back in one way only. */
  lemma {:induction false} FlatInjective<T>(enc: T -> seq<Byte>, dec: seq<Byte> -> T, k: nat, a: seq<T>, b: seq<T>)
    requires forall e :: |enc(e)| == k && dec(enc(e)) == e
    requires |a| == |b| && Flat(enc, a) == Flat(enc, b)
    ensures a == b
  {
    if a != [] {
      var n := |a| - 1;
      FlatLength(enc, k, a[..n]);
      FlatLength(enc, k, b[..n]);
      var fa, fb := Flat(enc, a[..n]), Flat(enc, b[..n]);
      assert Flat(enc, a)[..k * n] == fa && Flat(enc, b)[..k * n] == fb;
      assert Flat(enc, a)[k * n..] == enc(a[n]) && Flat(enc, b)[k * n..] == enc(b[n]);
      FlatInjective(enc, dec, k, a[..n], b[..n]);
      assert a == a[..n] + [a[n]] && b == b[..n] + [b[n]];
    }
  }
}
