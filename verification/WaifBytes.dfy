/** Every byte of a WAIF frame on the wire (wire.go), by plain arithmetic: little-endian fields at fixed offsets. */
module WaifBytes {
  import opened Interval
  import opened Waif

  /** Byte i of a number, the lowest first; of a negative one, of its two's complement. */
  function ByteOf(v: int, i: nat): byte {
    v / Pow256(i) % 256
  }

  /** n bytes of v stand at an offset. */
  predicate Stands(s: seq<byte>, off: nat, v: int, n: nat) {
    off + n <= |s| && forall i :: 0 <= i < n ==> s[off + i] == ByteOf(v, i)
  }

  lemma DivTwice(v: int, m: nat)
    requires m > 0
    ensures v / 256 / m == v / (256 * m)
  {
    var q, r := v / 256, v % 256;
    var p, t := q / m, q % m;
    assert v == 256 * q + r && q == m * p + t;
    var d := 256 * m;
    assert v == d * p + (256 * t + r) by {
      assert 256 * (m * p) == d * p;
    }
    assert 0 <= 256 * t + r < d by {
      assert t <= m - 1;
    }
    DivUnique(v, d, p, 256 * t + r);
  }

  lemma {:induction false} PutLEStands(v: nat, n: nat, i: nat)
    requires i < n
    ensures PutLE(v, n)[i] == ByteOf(v, i)
    decreases n
  {
    if i == 0 {
      assert Pow256(0) == 1;
    } else {
      PutLEStands(v / 256, n - 1, i - 1);
      DivTwice(v, Pow256(i - 1));
      assert Pow256(i) == 256 * Pow256(i - 1);
    }
  }

  lemma {:induction false} PowersAdd(i: nat, j: nat)
    ensures Pow256(i + j) == Pow256(i) * Pow256(j)
    decreases i
  {
    if i > 0 {
      PowersAdd(i - 1, j);
      assert 256 * (Pow256(i - 1) * Pow256(j)) == (256 * Pow256(i - 1)) * Pow256(j);
    } else {
      assert Pow256(0) == 1;
    }
  }

  /** Adding a multiple of 256 times a place's weight does not change the byte there. */
  lemma SameByte(v: int, i: nat, k: int)
    ensures ByteOf(v + Pow256(i) * (256 * k), i) == ByteOf(v, i)
  {
    var d := Pow256(i);
    ShiftedQuotient(v, d, 256 * k);
    hide Pow256;
    assert (v / d + 256 * k) % 256 == v / d % 256;
  }

  lemma ShiftedQuotient(v: int, d: nat, k: int)
    requires d > 0
    ensures (v + d * k) / d == v / d + k
  {
    var q, r := v / d, v % d;
    assert v == q * d + r;
    assert (q + k) * d == q * d + d * k;
    DivUnique(v + d * k, d, q + k, r);
  }

  /** Adding 2^64 changes none of the lowest eight bytes. */
  lemma SameLowBytes(v: int, i: nat)
    requires i < 8
    ensures ByteOf(v + 0x1_0000_0000_0000_0000, i) == ByteOf(v, i)
  {
    Widths();
    PowersAdd(i, 8 - i);
    assert Pow256(8 - i) == 256 * Pow256(7 - i);
    SameByte(v, i, Pow256(7 - i));
  }

  lemma FieldStands(s: seq<byte>, off: nat, v: int, u: nat, n: nat)
    requires off + n <= |s| && s[off..off + n] == PutLE(u, n)
    requires u == v || (u == v + 0x1_0000_0000_0000_0000 && n <= 8)
    ensures Stands(s, off, v, n)
  {
    forall i | 0 <= i < n
      ensures s[off + i] == ByteOf(v, i)
    {
      PutLEStands(u, n, i);
      assert s[off + i] == s[off..off + n][i];
      if u != v {
        SameLowBytes(v, i);
      }
    }
  }

  /** The length field is the payload's length, its two lowest bytes. */
  lemma LowBytes(v: nat, i: nat)
    requires i < 2
    ensures ByteOf(v % 0x1_0000, i) == ByteOf(v, i)
  {
    var q, r := v / 0x1_0000, v % 0x1_0000;
    assert Pow256(0) == 1 && Pow256(1) == 256;
    if i == 0 {
      SameByte(r, 0, 256 * q);
    } else {
      SameByte(r, 1, q);
    }
  }

  /** THE FRAME, BYTE BY BYTE. */
  lemma FrameBytes(f: AudioFrame)
    ensures var s, n := Encoded(f), |f.opusData|;
            && |s| == 25 + n + (if f.isFinal then 28 else 0)
            && s[..4] == [0x57, 0x41, 0x49, 0x46]
            && s[4] == (if f.channels == 2 then 0x01 else 0) + (if f.isFinal then 0x02 else 0)
            && Stands(s, 5, f.streamID, 2) && Stands(s, 7, f.intervalIndex, 8)
            && Stands(s, 15, f.frameNumber, 4) && Stands(s, 19, f.frameSeq, 4) && Stands(s, 23, n, 2)
            && s[25..25 + n] == f.opusData
            && (f.isFinal ==>
                  && Stands(s, 25 + n, f.sampleRate, 4) && Stands(s, 29 + n, f.totalFrames, 4)
                  && Stands(s, 33 + n, f.bpmBits, 8) && Stands(s, 41 + n, f.quantumBits, 8) && Stands(s, 49 + n, f.bars, 4))
  {
    hide PutLE, ByteOf;
    var s, n := Encoded(f), |f.opusData|;
    FieldStands(s, 5, f.streamID, f.streamID, 2);
    FieldStands(s, 7, f.intervalIndex, ToU64(f.intervalIndex), 8);
    FieldStands(s, 15, f.frameNumber, f.frameNumber, 4);
    FieldStands(s, 19, f.frameSeq, f.frameSeq, 4);
    FieldStands(s, 23, n % 0x1_0000, n % 0x1_0000, 2);
    forall i | 0 <= i < 2
      ensures s[23 + i] == ByteOf(n, i)
    {
      LowBytes(n, i);
    }
    if f.isFinal {
      TrailerBytes(f);
    }
  }

  lemma TrailerBytes(f: AudioFrame)
    requires f.isFinal
    ensures var s, m := Encoded(f), 25 + |f.opusData|;
            && Stands(s, m, f.sampleRate, 4) && Stands(s, m + 4, f.totalFrames, 4)
            && Stands(s, m + 8, f.bpmBits, 8) && Stands(s, m + 16, f.quantumBits, 8) && Stands(s, m + 24, f.bars, 4)
  {
    hide PutLE, ByteOf, HeaderOf;
    var s, m := Encoded(f), 25 + |f.opusData|;
    assert s[m..] == Trailer(f);
    FieldStands(s, m, f.sampleRate, f.sampleRate, 4);
    FieldStands(s, m + 4, f.totalFrames, f.totalFrames, 4);
    FieldStands(s, m + 8, f.bpmBits, f.bpmBits, 8);
    FieldStands(s, m + 16, f.quantumBits, f.quantumBits, 8);
    FieldStands(s, m + 24, f.bars, f.bars, 4);
  }
}
