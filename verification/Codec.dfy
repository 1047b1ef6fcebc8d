/** Frames and payloads on the match socket. */
module Codec {
  import opened Options
  import opened Bytes

  const MAX_FRAME_LEN := 65535
  const HEADER_LEN := 8

  // ---- frames ----

  datatype Header = Header(kind: Byte, flags: Byte, seqNo: U16, ack: U16, len: U16)

  datatype FrameError = Truncated | Malformed | TooLong

  datatype Result<T> = Ok(value: T) | Err(error: FrameError)

  /** The payload's length is stamped into the header, whatever the header said. */
  function EncodeFrame(h: Header, payload: seq<Byte>): Result<seq<Byte>> {
    if |payload| > MAX_FRAME_LEN then Err(TooLong)
    else Ok([h.kind, h.flags] + LE16(h.seqNo) + LE16(h.ack) + LE16(|payload|) + payload)
  }

  function DecodeFrame(src: seq<Byte>): Result<(Header, seq<Byte>)> {
    if |src| < HEADER_LEN then Err(Truncated)
    else
      var h := Header(src[0], src[1], U16Of(src[2..4]), U16Of(src[4..6]), U16Of(src[6..8]));
      var end := HEADER_LEN + h.len;
      if |src| < end then Err(Truncated) else if |src| > end then Err(Malformed) else Ok((h, src[HEADER_LEN..end]))
  }

  /** Decoding gives back what was framed, with the length filled in. */
  lemma FrameRoundTrip(h: Header, payload: seq<Byte>)
    ensures EncodeFrame(h, payload).Ok? <==> |payload| <= 65535
    ensures |payload| <= 65535 ==>
              DecodeFrame(EncodeFrame(h, payload).value) == Ok((h.(len := |payload|), payload))
  {
    if |payload| <= MAX_FRAME_LEN {
      var f := EncodeFrame(h, payload).value;
      assert f[2..4] == LE16(h.seqNo) && f[4..6] == LE16(h.ack) && f[6..8] == LE16(|payload|) && f[8..] == payload;
      RoundTrip16(h.seqNo, [0, 0]);
      RoundTrip16(h.ack, [0, 0]);
      RoundTrip16(|payload|, [0, 0]);
      assert f[HEADER_LEN..HEADER_LEN + |payload|] == payload;
    }
  }

  /** A frame is accepted only if it is exactly what framing its parts gives. */
  lemma FrameCanonical(src: seq<Byte>)
    ensures DecodeFrame(src).Ok? ==>
              var (h, payload) := DecodeFrame(src).value;
              h.len == |payload| && EncodeFrame(h, payload) == Ok(src)
    ensures DecodeFrame(src) == Err(Truncated) <==> |src| < HEADER_LEN || |src| < HEADER_LEN + U16Of(src[6..8])
  {
    if DecodeFrame(src).Ok? {
      RoundTrip16(0, src[2..4]);
      RoundTrip16(0, src[4..6]);
      RoundTrip16(0, src[6..8]);
      assert src[HEADER_LEN..HEADER_LEN + U16Of(src[6..8])] == src[8..];
      assert src == [src[0], src[1]] + src[2..4] + src[4..6] + src[6..8] + src[8..];
    }
  }

  // ---- messages of fixed shape ----

  datatype Input = Input(clientTick: U16, dir: Byte, turbo: Byte, fireDir: Byte)

  predicate InputOK(m: Input) { m.dir <= 8 && m.fireDir <= 8 && m.turbo <= 1 }

  function EncodeInput(m: Input): Option<seq<Byte>> {
    if InputOK(m) then Some(LE16(m.clientTick) + [m.dir, m.turbo, m.fireDir]) else None
  }

  function DecodeInput(p: seq<Byte>): Option<Input> {
    if |p| != 5 then None
    else
      var m := Input(U16Of(p[0..2]), p[2], p[3], p[4]);
      if InputOK(m) then Some(m) else None
  }

  lemma InputInverse(m: Input, p: seq<Byte>)
    ensures EncodeInput(m).Some? <==> m.dir <= 8 && m.fireDir <= 8 && m.turbo <= 1
    ensures EncodeInput(m).Some? ==> DecodeInput(EncodeInput(m).value) == Some(m)
    ensures DecodeInput(p).Some? <==> |p| == 5 && p[2] <= 8 && p[3] <= 1 && p[4] <= 8
    ensures DecodeInput(p).Some? ==> EncodeInput(DecodeInput(p).value) == Some(p)
  {
    if InputOK(m) {
      assert EncodeInput(m).value[0..2] == LE16(m.clientTick);
      RoundTrip16(m.clientTick, [0, 0]);
    }
    if DecodeInput(p).Some? {
      RoundTrip16(0, p[0..2]);
      assert p == p[0..2] + [p[2], p[3], p[4]];
    }
  }

  datatype Event = Event(kind: Byte, actor: U32, target: U32, reason: Byte)

  function EncodeEvent(m: Event): seq<Byte> { [m.kind] + LE32(m.actor) + LE32(m.target) + [m.reason] }

  function DecodeEvent(p: seq<Byte>): Option<Event> {
    if |p| != 10 then None else Some(Event(p[0], U32Of(p[1..5]), U32Of(p[5..9]), p[9]))
  }

  lemma EventInverse(m: Event, p: seq<Byte>)
    ensures DecodeEvent(EncodeEvent(m)) == Some(m)
    ensures DecodeEvent(p).Some? ==> EncodeEvent(DecodeEvent(p).value) == p
  {
    var e := EncodeEvent(m);
    assert e[1..5] == LE32(m.actor) && e[5..9] == LE32(m.target);
    RoundTrip32(m.actor, [0, 0, 0, 0]);
    RoundTrip32(m.target, [0, 0, 0, 0]);
    if |p| == 10 {
      RoundTrip32(0, p[1..5]);
      RoundTrip32(0, p[5..9]);
      assert p == [p[0]] + p[1..5] + p[5..9] + [p[9]];
    }
  }

  datatype Pong = Pong(tsOrigin: U32, tsResponder: U32)

  function EncodePong(m: Pong): seq<Byte> { LE32(m.tsOrigin) + LE32(m.tsResponder) }

  function DecodePong(p: seq<Byte>): Option<Pong> {
    if |p| != 8 then None else Some(Pong(U32Of(p[0..4]), U32Of(p[4..8])))
  }

  /** Ping and Resync are a single word. */
  function DecodeWord(p: seq<Byte>): Option<U32> {
    if |p| != 4 then None else Some(U32Of(p))
  }

  lemma PongInverse(m: Pong, v: U32, p: seq<Byte>)
    ensures DecodePong(EncodePong(m)) == Some(m) && DecodeWord(LE32(v)) == Some(v)
    ensures DecodePong(p).Some? ==> EncodePong(DecodePong(p).value) == p
    ensures DecodeWord(p).Some? ==> LE32(DecodeWord(p).value) == p
  {
    assert EncodePong(m)[0..4] == LE32(m.tsOrigin) && EncodePong(m)[4..8] == LE32(m.tsResponder);
    RoundTrip32(m.tsOrigin, [0, 0, 0, 0]);
    RoundTrip32(m.tsResponder, [0, 0, 0, 0]);
    RoundTrip32(v, [0, 0, 0, 0]);
    if |p| == 8 {
      RoundTrip32(0, p[0..4]);
      RoundTrip32(0, p[4..8]);
      assert p == p[0..4] + p[4..8];
    }
    if |p| == 4 { RoundTrip32(0, p); }
  }

  // ---- messages with a tail ----

  datatype MatchJoin = MatchJoin(schemaChecksum: U32, token: seq<Byte>)

  function EncodeMatchJoin(m: MatchJoin): Option<seq<Byte>> {
    if 1 <= |m.token| <= 32 then Some(LE32(m.schemaChecksum) + [|m.token|] + m.token) else None
  }

  function DecodeMatchJoin(p: seq<Byte>): Option<MatchJoin> {
    if |p| < 5 || p[4] == 0 || p[4] > 32 || |p| != 5 + p[4] then None else Some(MatchJoin(U32Of(p[0..4]), p[5..]))
  }

  lemma MatchJoinInverse(m: MatchJoin, p: seq<Byte>)
    ensures 1 <= |m.token| <= 32 ==> DecodeMatchJoin(EncodeMatchJoin(m).value) == Some(m)
    ensures DecodeMatchJoin(p).Some? ==> EncodeMatchJoin(DecodeMatchJoin(p).value) == Some(p)
  {
    if 1 <= |m.token| <= 32 {
      var e := EncodeMatchJoin(m).value;
      assert e[0..4] == LE32(m.schemaChecksum) && e[5..] == m.token;
      RoundTrip32(m.schemaChecksum, [0, 0, 0, 0]);
    }
    if DecodeMatchJoin(p).Some? {
      RoundTrip32(0, p[0..4]);
      assert p == p[0..4] + [p[4]] + p[5..];
    }
  }

  datatype MapInit = MapInit(seed: U32, width: U16, height: U16, packing: Byte, packedTiles: seq<Byte>)

  function EncodeMapInit(m: MapInit): Option<seq<Byte>> {
    if |m.packedTiles| + 9 > MAX_FRAME_LEN then None
    else Some(LE32(m.seed) + LE16(m.width) + LE16(m.height) + [m.packing] + m.packedTiles)
  }

  function DecodeMapInit(p: seq<Byte>): Option<MapInit> {
    if |p| < 9 then None else Some(MapInit(U32Of(p[0..4]), U16Of(p[4..6]), U16Of(p[6..8]), p[8], p[9..]))
  }

  /** The decoder has no upper limit: what it accepts re-encodes exactly when it would fit in a frame. */
  lemma MapInitInverse(m: MapInit, p: seq<Byte>)
    ensures EncodeMapInit(m).Some? ==> DecodeMapInit(EncodeMapInit(m).value) == Some(m)
    ensures DecodeMapInit(p).Some? ==> (EncodeMapInit(DecodeMapInit(p).value) == Some(p) <==> |p| <= MAX_FRAME_LEN)
  {
    if EncodeMapInit(m).Some? {
      var e := EncodeMapInit(m).value;
      assert e[0..4] == LE32(m.seed) && e[4..6] == LE16(m.width) && e[6..8] == LE16(m.height)
             && e[9..] == m.packedTiles;
      RoundTrip32(m.seed, [0, 0, 0, 0]);
      RoundTrip16(m.width, [0, 0]);
      RoundTrip16(m.height, [0, 0]);
    }
    if |p| >= 9 {
      RoundTrip32(0, p[0..4]);
      RoundTrip16(0, p[4..6]);
      RoundTrip16(0, p[6..8]);
      assert p == p[0..4] + p[4..6] + p[6..8] + [p[8]] + p[9..];
    }
  }

  /** One byte more than a frame holds: decoded all the same, though no encoder makes it. */
  lemma OversizeMapInit(p: seq<Byte>, m: MapInit)
    requires |p| == 65536
    ensures DecodeMapInit(p).Some? && EncodeMapInit(m) != Some(p) && EncodeMapInit(DecodeMapInit(p).value) == None
  {
    MapInitInverse(m, p);
  }
}
