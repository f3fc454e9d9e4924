/** The WAIF frame format (wire.go): one printer, a full parser, and a parser of the header alone. Floats travel as their
    64-bit patterns. */
module Waif {
  import opened Common

  type byte = x: int | 0 <= x < 0x100
  type u16 = x: int | 0 <= x < 0x1_0000
  type u32 = x: int | 0 <= x < 0x1_0000_0000
  type u64 = x: int | 0 <= x < 0x1_0000_0000_0000_0000
  type i64 = x: int | -0x8000_0000_0000_0000 <= x < 0x8000_0000_0000_0000

  const HEADER_SIZE := 25
  const FINAL_EXTRA := 28
  const MAGIC: seq<byte> := [0x57, 0x41, 0x49, 0x46]

  datatype AudioFrame = AudioFrame(
    intervalIndex: i64, streamID: u16, frameNumber: u32, frameSeq: u32, channels: u16, opusData: seq<byte>, isFinal: bool,
    sampleRate: u32, totalFrames: u32, bpmBits: u64, quantumBits: u64, bars: u32)

  datatype Header = Header(intervalIndex: i64, streamID: u16, frameNumber: u32, frameSeq: u32, isFinal: bool, totalFrames: u32)

  datatype Error = TooShort | BadMagic | OpusTruncated | FinalTruncated

  datatype Result<+T> = Ok(value: T) | Err(error: Error)

  // ---------------------------------------------------------------- little-endian integers

  function Pow256(n: nat): (p: nat)
    ensures p > 0
  {
    if n == 0 then 1 else 256 * Pow256(n - 1)
  }

  function PutLE(v: nat, n: nat): (s: seq<byte>)
    ensures |s| == n
    decreases n
  {
    if n == 0 then [] else [v % 256] + PutLE(v / 256, n - 1)
  }

  function GetLE(s: seq<byte>): (v: nat)
    ensures v < Pow256(|s|)
    decreases |s|
  {
    if s == [] then 0 else s[0] + 256 * GetLE(s[1..])
  }

  lemma {:induction false} GetPut(v: nat, n: nat)
    requires v < Pow256(n)
    ensures GetLE(PutLE(v, n)) == v
    decreases n
  {
    if n > 0 {
      assert PutLE(v, n)[1..] == PutLE(v / 256, n - 1);
      GetPut(v / 256, n - 1);
    }
  }

  lemma {:induction false} PutGet(s: seq<byte>)
    ensures PutLE(GetLE(s), |s|) == s
    decreases |s|
  {
    if s != [] {
      var v, rest := GetLE(s), GetLE(s[1..]);
      assert v % 256 == s[0] && v / 256 == rest;
      PutGet(s[1..]);
    }
  }

  lemma Widths()
    ensures Pow256(2) == 0x1_0000 && Pow256(4) == 0x1_0000_0000 && Pow256(8) == 0x1_0000_0000_0000_0000
  {
    assert Pow256(0) == 1 && Pow256(1) == 256 && Pow256(2) == 0x1_0000 && Pow256(3) == 0x100_0000 && Pow256(4) == 0x1_0000_0000;
    assert Pow256(5) == 0x100_0000_0000 && Pow256(6) == 0x1_0000_0000_0000 && Pow256(7) == 0x100_0000_0000_0000;
  }

  function Get16(s: seq<byte>): (v: u16)
    requires |s| == 2
  {
    Widths();
    GetLE(s)
  }

  function Get32(s: seq<byte>): (v: u32)
    requires |s| == 4
  {
    Widths();
    GetLE(s)
  }

  function Get64(s: seq<byte>): (v: u64)
    requires |s| == 8
  {
    Widths();
    GetLE(s)
  }

  /** Go's conversions between int64 and uint64: the same bits. */
  function ToU64(i: i64): u64 {
    if i < 0 then i + 0x1_0000_0000_0000_0000 else i
  }

  function ToI64(u: u64): i64 {
    if u < 0x8000_0000_0000_0000 then u else u - 0x1_0000_0000_0000_0000
  }

  // ---------------------------------------------------------------- the printer

  function Flags(f: AudioFrame): byte {
    (if f.channels == 2 then 1 else 0) + (if f.isFinal then 2 else 0)
  }

  function Trailer(f: AudioFrame): (s: seq<byte>)
    ensures |s| == if f.isFinal then FINAL_EXTRA else 0
  {
    if f.isFinal then
      PutLE(f.sampleRate, 4) + PutLE(f.totalFrames, 4) + PutLE(f.bpmBits, 8) + PutLE(f.quantumBits, 8) + PutLE(f.bars, 4)
    else []
  }

  function HeaderOf(f: AudioFrame): (s: seq<byte>)
    ensures |s| == HEADER_SIZE
  {
    MAGIC + [Flags(f)] + PutLE(f.streamID, 2) + PutLE(ToU64(f.intervalIndex), 8) + PutLE(f.frameNumber, 4)
      + PutLE(f.frameSeq, 4) + PutLE(|f.opusData| % 0x1_0000, 2)
  }

  /** The bytes of a frame. The payload's length is written in 16 bits, whatever it is. */
  function Encoded(f: AudioFrame): seq<byte> {
    HeaderOf(f) + f.opusData + Trailer(f)
  }

  /** Store bytes at an offset of a buffer. */
  method Store(buf: array<byte>, off: nat, s: seq<byte>)
    requires off + |s| <= buf.Length
    modifies buf
    ensures buf[..off + |s|] == old(buf[..off]) + s
  {
    for i := 0 to |s|
      invariant buf[..off + i] == old(buf[..off]) + s[..i]
    {
      buf[off + i] := s[i];
      assert s[..i + 1] == s[..i] + [s[i]];
    }
    assert s[..|s|] == s;
  }

  /** EncodeAudioFrameWire: fields are put into the buffer at their offsets. */
  method Encode(f: AudioFrame) returns (out: seq<byte>)
    ensures out == Encoded(f)
  {
    hide PutLE;
    var n := |f.opusData|;
    var extra := if f.isFinal then FINAL_EXTRA else 0;
    var buf := new byte[HEADER_SIZE + n + extra](_ => 0);
    PutHeader(buf, f);
    Store(buf, HEADER_SIZE, f.opusData);
    if f.isFinal {
      PutTrailer(buf, f, HEADER_SIZE + n);
    }
    out := buf[..];
  }

  method PutHeader(buf: array<byte>, f: AudioFrame)
    requires buf.Length >= HEADER_SIZE
    modifies buf
    ensures buf[..HEADER_SIZE] == HeaderOf(f)
  {
    hide PutLE, Flags;
    Store(buf, 0, MAGIC);
    assert buf[..4] == MAGIC;
    Store(buf, 4, [Flags(f)]);
    Store(buf, 5, PutLE(f.streamID, 2));
    Store(buf, 7, PutLE(ToU64(f.intervalIndex), 8));
    Store(buf, 15, PutLE(f.frameNumber, 4));
    Store(buf, 19, PutLE(f.frameSeq, 4));
    Store(buf, 23, PutLE(|f.opusData| % 0x1_0000, 2));
  }

  method PutTrailer(buf: array<byte>, f: AudioFrame, off: nat)
    requires f.isFinal && buf.Length == off + FINAL_EXTRA
    modifies buf
    ensures buf[..] == old(buf[..off]) + Trailer(f)
  {
    hide PutLE;
    ghost var head := buf[..off];
    Store(buf, off, PutLE(f.sampleRate, 4));
    Store(buf, off + 4, PutLE(f.totalFrames, 4));
    Store(buf, off + 8, PutLE(f.bpmBits, 8));
    Store(buf, off + 16, PutLE(f.quantumBits, 8));
    Store(buf, off + 24, PutLE(f.bars, 4));
    assert buf[..] == head + Trailer(f);
  }

  // ---------------------------------------------------------------- the parsers

  predicate Stereo(flags: byte) {
    flags % 2 == 1
  }

  predicate Final(flags: byte) {
    flags / 2 % 2 == 1
  }

  function Decode(data: seq<byte>): Result<AudioFrame> {
    if |data| < HEADER_SIZE then Err(TooShort)
    else if data[..4] != MAGIC then Err(BadMagic)
    else
      var opusLen := Get16(data[23..25]);
      if |data| < HEADER_SIZE + opusLen then Err(OpusTruncated) else
        var f := AudioFrame(ToI64(Get64(data[7..15])), Get16(data[5..7]), Get32(data[15..19]), Get32(data[19..23]),
                            if Stereo(data[4]) then 2 else 1, data[HEADER_SIZE..HEADER_SIZE + opusLen], Final(data[4]), 0, 0, 0, 0, 0);
        if !f.isFinal then Ok(f) else
          var m := HEADER_SIZE + opusLen;
          if |data| < m + FINAL_EXTRA then Err(FinalTruncated) else
            Ok(f.(sampleRate := Get32(data[m..m + 4]), totalFrames := Get32(data[m + 4..m + 8]), bpmBits := Get64(data[m + 8..m + 16]),
                  quantumBits := Get64(data[m + 16..m + 24]), bars := Get32(data[m + 24..m + 28])))
  }

  function Peek(data: seq<byte>): Option<Header> {
    if |data| < HEADER_SIZE || data[..4] != MAGIC then None else
      var h := Header(ToI64(Get64(data[7..15])), Get16(data[5..7]), Get32(data[15..19]), Get32(data[19..23]), Final(data[4]), 0);
      if !h.isFinal then Some(h) else
        var m := HEADER_SIZE + Get16(data[23..25]);
        if |data| < m + FINAL_EXTRA then None else Some(h.(totalFrames := Get32(data[m + 4..m + 8])))
  }

  function HeaderFields(f: AudioFrame): Header {
    Header(f.intervalIndex, f.streamID, f.frameNumber, f.frameSeq, f.isFinal, f.totalFrames)
  }

  // ---------------------------------------------------------------- the two parsers agree

  /** Whenever the full parser succeeds the header parser does, with the same header. */
  lemma PeekAgrees(data: seq<byte>)
    requires Decode(data).Ok?
    ensures Peek(data) == Some(HeaderFields(Decode(data).value))
  {
  }

  /** The header parser accepts more in exactly one case: a non-final frame whose payload is cut short. */
  lemma PeekAcceptsMoreIff(data: seq<byte>)
    ensures Peek(data).Some? && Decode(data).Err?
            <==> |data| >= HEADER_SIZE && data[..4] == MAGIC && !Final(data[4]) && |data| < HEADER_SIZE + Get16(data[23..25])
  {
  }

  /** A header that promises five bytes of payload, and nothing after it. */
  const CUT_SHORT: seq<byte> := MAGIC + [0, 7, 0] + [0, 0, 0, 0, 0, 0, 0, 0] + [1, 0, 0, 0] + [2, 0, 0, 0] + [5, 0]

  /** So the header parser accepts a frame that the full parser refuses. */
  lemma PeekAcceptsCutShort()
    ensures Peek(CUT_SHORT).Some? && Decode(CUT_SHORT).Err?
  {
    assert CUT_SHORT[23..25] == [5, 0];
    assert GetLE([0]) == 0 && [5, 0][1..] == [0];
    assert Get16([5, 0]) == 5;
    PeekAcceptsMoreIff(CUT_SHORT);
  }

  // ---------------------------------------------------------------- round trips

  /** What the format can carry: mono or stereo, a payload whose length fits 16 bits, and a trailer only on a final frame. */
  predicate Carriable(f: AudioFrame) {
    && (f.channels == 1 || f.channels == 2)
    && |f.opusData| < 0x1_0000
    && (!f.isFinal ==> f.sampleRate == 0 && f.totalFrames == 0 && f.bpmBits == 0 && f.quantumBits == 0 && f.bars == 0)
  }

  lemma FlagsRead(f: AudioFrame)
    ensures Stereo(Flags(f)) <==> f.channels == 2
    ensures Final(Flags(f)) <==> f.isFinal
  {
  }

  /** Fixed-width integers read back. */
  lemma IntsRead(x: u16, y: u32, z: u64)
    ensures Get16(PutLE(x, 2)) == x && Get32(PutLE(y, 4)) == y && Get64(PutLE(z, 8)) == z
  {
    Widths();
    GetPut(x, 2);
    GetPut(y, 4);
    GetPut(z, 8);
  }

  lemma HeaderSlices(data: seq<byte>, flags: byte, a: seq<byte>, b: seq<byte>, c: seq<byte>, d: seq<byte>, e: seq<byte>, rest: seq<byte>)
    requires |a| == 2 && |b| == 8 && |c| == 4 && |d| == 4 && |e| == 2
    requires data == MAGIC + [flags] + a + b + c + d + e + rest
    ensures data[..4] == MAGIC && data[4] == flags && data[5..7] == a && data[7..15] == b && data[15..19] == c
    ensures data[19..23] == d && data[23..25] == e
  {
  }

  /** The header fields of an encoded frame read back. */
  lemma HeaderReads(f: AudioFrame, rest: seq<byte>)
    ensures var data := HeaderOf(f) + rest;
            && data[..4] == MAGIC && data[4] == Flags(f) && Get16(data[5..7]) == f.streamID
            && ToI64(Get64(data[7..15])) == f.intervalIndex && Get32(data[15..19]) == f.frameNumber
            && Get32(data[19..23]) == f.frameSeq && Get16(data[23..25]) == |f.opusData| % 0x1_0000
  {
    hide PutLE, Get16, Get32, Get64, Flags;
    IntsRead(f.streamID, f.frameNumber, ToU64(f.intervalIndex));
    IntsRead(|f.opusData| % 0x1_0000, f.frameSeq, 0);
    HeaderSlices(HeaderOf(f) + rest, Flags(f), PutLE(f.streamID, 2), PutLE(ToU64(f.intervalIndex), 8), PutLE(f.frameNumber, 4),
                 PutLE(f.frameSeq, 4), PutLE(|f.opusData| % 0x1_0000, 2), rest);
  }

  lemma TrailerParts(t: seq<byte>, a: seq<byte>, b: seq<byte>, c: seq<byte>, d: seq<byte>, e: seq<byte>)
    requires |a| == 4 && |b| == 4 && |c| == 8 && |d| == 8 && |e| == 4 && t == a + b + c + d + e
    ensures t[0..4] == a && t[4..8] == b && t[8..16] == c && t[16..24] == d && t[24..28] == e
  {
  }

  lemma TrailerReads(f: AudioFrame)
    requires f.isFinal
    ensures var t := Trailer(f);
            && Get32(t[0..4]) == f.sampleRate && Get32(t[4..8]) == f.totalFrames && Get64(t[8..16]) == f.bpmBits
            && Get64(t[16..24]) == f.quantumBits && Get32(t[24..28]) == f.bars
  {
    hide PutLE, Get16, Get32, Get64;
    IntsRead(0, f.sampleRate, f.bpmBits);
    IntsRead(0, f.totalFrames, f.quantumBits);
    IntsRead(0, f.bars, 0);
    TrailerParts(Trailer(f), PutLE(f.sampleRate, 4), PutLE(f.totalFrames, 4), PutLE(f.bpmBits, 8), PutLE(f.quantumBits, 8),
                 PutLE(f.bars, 4));
  }

  lemma RoundTrip(f: AudioFrame)
    requires Carriable(f)
    ensures Decode(Encoded(f)) == Ok(f)
  {
    hide PutLE, GetLE, HeaderOf, Trailer, Flags, Get16, Get32, Get64;
    var data := Encoded(f);
    assert data == HeaderOf(f) + (f.opusData + Trailer(f));
    HeaderReads(f, f.opusData + Trailer(f));
    FlagsRead(f);
    var m := HEADER_SIZE + |f.opusData|;
    assert data[HEADER_SIZE..m] == f.opusData;
    assert Trailer(f) == data[m..];
    if f.isFinal {
      TrailerReads(f);
      TrailerSlices(data, m, Trailer(f));
    }
  }

  lemma TrailerSlices(data: seq<byte>, m: nat, t: seq<byte>)
    requires m + FINAL_EXTRA <= |data| && t == data[m..] && |t| == FINAL_EXTRA
    ensures data[m..m + 4] == t[0..4] && data[m + 4..m + 8] == t[4..8] && data[m + 8..m + 16] == t[8..16]
    ensures data[m + 16..m + 24] == t[16..24] && data[m + 24..m + 28] == t[24..28]
  {
  }

  /** What the parser returns is always carriable. */
  lemma DecodedIsCarriable(data: seq<byte>)
    requires Decode(data).Ok?
    ensures Carriable(Decode(data).value)
  {
  }

  /** THE CODEC. Decoding an encoded frame returns it if and only if the format can carry it. */
  lemma RoundTripIff(f: AudioFrame)
    ensures Decode(Encoded(f)) == Ok(f) <==> Carriable(f)
  {
    if Carriable(f) {
      RoundTrip(f);
    }
    if Decode(Encoded(f)) == Ok(f) {
      DecodedIsCarriable(Encoded(f));
    }
  }

  /** The flags byte as the printer would write it. */
  function Canonical(data: seq<byte>): seq<byte>
    requires |data| >= HEADER_SIZE
  {
    data[4 := data[4] % 4]
  }

  /** Conversely, re-encoding what was decoded gives back the bytes read, but for flag bits no one has defined. */
  lemma ReEncodes(data: seq<byte>)
    requires Decode(data).Ok?
    ensures |data| >= HEADER_SIZE && Encoded(Decode(data).value) <= Canonical(data)
  {
    hide HeaderOf, Trailer, Get32, Get64;
    var f := Decode(data).value;
    var m, c := HEADER_SIZE + |f.opusData|, Canonical(data);
    HeaderWrites(data);
    assert f.opusData == c[HEADER_SIZE..m];
    if f.isFinal {
      TrailerWrites(f, data, m);
      assert Trailer(f) == c[m..m + FINAL_EXTRA];
      assert Encoded(f) == c[..m + FINAL_EXTRA];
    } else {
      NoTrailer(f);
      assert Encoded(f) == c[..m];
    }
  }

  lemma NoTrailer(f: AudioFrame)
    requires !f.isFinal
    ensures Trailer(f) == []
  {
  }

  lemma IntsWrite(a: seq<byte>, b: seq<byte>, c: seq<byte>)
    requires |a| == 2 && |b| == 4 && |c| == 8
    ensures PutLE(Get16(a), 2) == a && PutLE(Get32(b), 4) == b && PutLE(Get64(c), 8) == c
  {
    PutGet(a);
    PutGet(b);
    PutGet(c);
  }

  lemma HeaderWrites(data: seq<byte>)
    requires Decode(data).Ok?
    ensures HeaderOf(Decode(data).value) == Canonical(data)[..HEADER_SIZE]
  {
    hide PutLE, Get16, Get32, Get64, Flags, Stereo, Final;
    var f := Decode(data).value;
    FlagsAre(f, data[4]);
    IntsWrite(data[5..7], data[15..19], data[7..15]);
    IntsWrite(data[23..25], data[19..23], data[7..15]);
    SameBits(Get64(data[7..15]));
    var n := Get16(data[23..25]);
    assert |f.opusData| == n;
    assert n % 0x1_0000 == n;
    HeaderJoins(data, data[4] % 4);
  }

  lemma SameBits(u: u64)
    ensures ToU64(ToI64(u)) == u
  {
  }

  lemma HeaderJoins(data: seq<byte>, flags: byte)
    requires |data| >= HEADER_SIZE && data[..4] == MAGIC
    ensures data[4 := flags][..HEADER_SIZE]
         == MAGIC + [flags] + data[5..7] + data[7..15] + data[15..19] + data[19..23] + data[23..25]
  {
  }

  lemma FlagsAre(f: AudioFrame, flags: byte)
    requires (f.channels == 2 <==> Stereo(flags)) && (f.isFinal <==> Final(flags))
    ensures Flags(f) == flags % 4
  {
  }

  lemma TrailerWrites(f: AudioFrame, data: seq<byte>, m: nat)
    requires f.isFinal && m + FINAL_EXTRA <= |data|
    requires f.sampleRate == Get32(data[m..m + 4]) && f.totalFrames == Get32(data[m + 4..m + 8])
    requires f.bpmBits == Get64(data[m + 8..m + 16]) && f.quantumBits == Get64(data[m + 16..m + 24])
    requires f.bars == Get32(data[m + 24..m + 28])
    ensures Trailer(f) == data[m..m + FINAL_EXTRA]
  {
    hide PutLE, Get16, Get32, Get64;
    IntsWrite([0, 0], data[m..m + 4], data[m + 8..m + 16]);
    IntsWrite([0, 0], data[m + 4..m + 8], data[m + 16..m + 24]);
    IntsWrite([0, 0], data[m + 24..m + 28], data[m + 8..m + 16]);
    TrailerJoins(data, m);
  }

  lemma TrailerJoins(data: seq<byte>, m: nat)
    requires m + FINAL_EXTRA <= |data|
    ensures data[m..m + 4] + data[m + 4..m + 8] + data[m + 8..m + 16] + data[m + 16..m + 24] + data[m + 24..m + 28]
         == data[m..m + FINAL_EXTRA]
  {
  }
}
