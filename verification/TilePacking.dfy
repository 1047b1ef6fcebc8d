/** The maze on the wire: four tiles to a byte, packed by the server and unpacked by the client. */
module TilePacking {
  import opened Options
  import opened Grid

  const MAX_WIDTH := 120
  const MAX_HEIGHT := 80

  function Code(t: Tile): bv8 {
    match t
    case Wall => 0
    case Floor => 1
    case SpawnPlayer => 2
    case SpawnGenerator => 3
  }

  function Codes(tiles: seq<Tile>): seq<bv8> {
    seq(|tiles|, i requires 0 <= i < |tiles| => Code(tiles[i]))
  }

  /** A tile is read off its code, so different tiles have different codes. */
  lemma CodeInjective(a: Tile, b: Tile)
    ensures Code(a) as int < 4 && [Wall, Floor, SpawnPlayer, SpawnGenerator][Code(a) as int] == a
    ensures Code(a) == Code(b) ==> a == b
  {
  }

  /** The j-th two bits of a byte, lowest first. */
  function Field(b: bv8, j: nat): bv8
    requires j < 4
  {
    if j == 0 then b & 3 else if j == 1 then (b >> 2) & 3 else if j == 2 then (b >> 4) & 3 else (b >> 6) & 3
  }

  /** The byte holds its four fields as the digits of base four, lowest first. */
  lemma FieldDigits(b: bv8)
    ensures b as int
            == Field(b, 0) as int + 4 * Field(b, 1) as int + 16 * Field(b, 2) as int + 64 * Field(b, 3) as int
    ensures forall j: nat | j < 4 :: Field(b, j) as int < 4
  {
  }

  function Shifted(v: bv8, j: nat): bv8
    requires j < 4
  {
    if j == 0 then v else if j == 1 then v << 2 else if j == 2 then v << 4 else v << 6
  }

  /** Or-ing a tile into an empty place fills that place alone. */
  lemma OrField(b: bv8, v: bv8, j: nat, k: nat)
    requires j < 4 && k < 4 && v <= 3 && Field(b, j) == 0
    ensures Field(b | Shifted(v, j), k) == if k == j then v else Field(b, k)
  {
  }

  function PackedLength(n: nat): nat { (n * 2 + 7) / 8 }

  /** Tile i sits in byte i / 4 at place i % 4, and the places past the last tile are zero. */
  ghost predicate Packed(codes: seq<bv8>, bytes: seq<bv8>) {
    && |bytes| == PackedLength(|codes|)
    && forall i: nat | i < 4 * |bytes| :: Field(bytes[i / 4], i % 4) == if i < |codes| then codes[i] else 0
  }

  ghost predicate PackedSoFar(codes: seq<bv8>, n: nat, bytes: seq<bv8>)
    requires n <= |codes|
  {
    forall i: nat | i < 4 * |bytes| :: Field(bytes[i / 4], i % 4) == if i < n then codes[i] else 0
  }

  lemma PlaceIn(n: nat, i: nat)
    requires i < n
    ensures i / 4 < PackedLength(n) && 4 * PackedLength(n) < n + 4
    ensures (i * 2) / 8 == i / 4 && (i * 2) % 8 == 2 * (i % 4)
  {
  }

  lemma PackNext(codes: seq<bv8>, n: nat, bytes: seq<bv8>)
    requires n < |codes| && |bytes| == PackedLength(|codes|) && PackedSoFar(codes, n, bytes) && codes[n] <= 3
    ensures n / 4 < |bytes| && PackedSoFar(codes, n + 1, bytes[n / 4 := bytes[n / 4] | Shifted(codes[n], n % 4)])
  {
    PlaceIn(|codes|, n);
    var b, b' := bytes[n / 4], bytes[n / 4] | Shifted(codes[n], n % 4);
    var next := bytes[n / 4 := b'];
    assert Field(bytes[n / 4], n % 4) == 0;
    forall i: nat | i < 4 * |next|
      ensures Field(next[i / 4], i % 4) == if i < n + 1 then codes[i] else 0
    {
      assert Field(bytes[i / 4], i % 4) == if i < n then codes[i] else 0;
      if i / 4 == n / 4 {
        OrField(b, codes[n], n % 4, i % 4);
        assert i % 4 == n % 4 ==> i == n;
      }
    }
  }

  lemma ZeroField(j: nat)
    requires j < 4
    ensures Field(0, j) == 0
  {
  }

  method PackTiles(m: Maze) returns (out: array<bv8>)
    ensures fresh(out) && Packed(Codes(m.tiles), out[..])
  {
    var n := m.W * m.H;
    out := new bv8[PackedLength(n)](_ => 0);
    ghost var codes := Codes(m.tiles);
    forall i: nat | i < 4 * out.Length
      ensures Field(out[..][i / 4], i % 4) == 0
    {
      ZeroField(i % 4);
    }
    hide Field, Shifted, Codes, PackedLength;
    for i := 0 to n
      invariant PackedSoFar(codes, i, out[..])
    {
      CodeSmall(m.tiles, i);
      PackNext(codes, i, out[..]);
      PlaceIn(n, i);
      ghost var was := out[..];
      out[i / 4] := out[i / 4] | Shifted(Code(m.tiles[i]), i % 4);
      assert out[..] == was[i / 4 := was[i / 4] | Shifted(codes[i], i % 4)];
    }
  }

  lemma CodeSmall(tiles: seq<Tile>, i: nat)
    requires i < |tiles|
    ensures |Codes(tiles)| == |tiles| && Codes(tiles)[i] == Code(tiles[i]) <= 3
  {
  }

  /** Refuses empty or oversized grids and short buffers; otherwise reads every tile back. */
  method UnpackTiles(packed: seq<bv8>, w: int, h: int) returns (r: Option<seq<bv8>>)
    ensures r.Some? <==> 0 < w <= 120 && 0 < h <= 80 && 4 * |packed| >= w * h
    ensures r.Some? ==>
              |r.value| == w * h
                && forall i | 0 <= i < w * h :: i / 4 < |packed| && r.value[i] == Field(packed[i / 4], i % 4)
  {
    if w <= 0 || h <= 0 || w > MAX_WIDTH || h > MAX_HEIGHT {
      return None;
    }
    var n := w * h;
    if |packed| < (n + 3) / 4 {
      return None;
    }
    var out := new bv8[n](_ => 0);
    hide Field;
    for i := 0 to n
      invariant forall j | 0 <= j < i :: j / 4 < |packed| && out[j] == Field(packed[j / 4], j % 4)
    {
      out[i] := Field(packed[i / 4], i % 4);
    }
    r := Some(out[..]);
  }

  /** What the client reads back is what the server packed, for every grid within bounds. */
  method Transfer(m: Maze) returns (r: Option<seq<bv8>>)
    requires 0 < m.W <= MAX_WIDTH && 0 < m.H <= MAX_HEIGHT
    ensures r == Some(Codes(m.tiles))
  {
    var out := PackTiles(m);
    EnoughBytes(m.W * m.H);
    r := UnpackTiles(out[..], m.W, m.H);
    ghost var codes := Codes(m.tiles);
    forall i: nat | i < |codes|
      ensures r.value[i] == codes[i]
    {
      PlaceIn(|codes|, i);
      assert Field(out[..][i / 4], i % 4) == codes[i];
    }
    assert r.value == codes;
  }

  lemma EnoughBytes(n: nat)
    ensures PackedLength(n) == (n + 3) / 4
  {
  }

  /** Nothing else packs to the same bytes. */
  lemma PackedInjective(a: seq<Tile>, b: seq<Tile>, bytes: seq<bv8>)
    requires |a| == |b| && Packed(Codes(a), bytes) && Packed(Codes(b), bytes)
    ensures a == b
  {
    forall i: nat | i < |a|
      ensures a[i] == b[i]
    {
      PlaceIn(|a|, i);
      assert Field(bytes[i / 4], i % 4) == Code(a[i]) == Code(b[i]);
      CodeInjective(a[i], b[i]);
    }
  }
}
