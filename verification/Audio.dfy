/** PCM as sequences of frames, and the linear resampler (dsp/resample.go). */
module Audio {
  import opened Interval

  /** One sample per channel. Samples are int16 values; a mono stream leaves `right` at zero. */
  datatype Frame = Frame(left: int, right: int)

  const SILENT := Frame(0, 0)

  /** `n` frames of digital silence: what make([]int16, n*channels) holds. */
  function Silence(n: nat): (s: seq<Frame>)
    ensures |s| == n
    ensures forall i :: 0 <= i < n ==> s[i] == SILENT
  {
    seq(n, _ => SILENT)
  }

  /** Exactly `n` frames: the head of `s`, followed by silence where `s` is shorter. */
  function Fit(s: seq<Frame>, n: nat): (r: seq<Frame>)
    ensures |r| == n
    ensures forall i :: 0 <= i < n ==> r[i] == if i < |s| then s[i] else SILENT
  {
    if |s| >= n then s[..n] else s + Silence(n - |s|)
  }

  /** `dst` with `src` copied over it from `off` on. */
  function Overwrite(dst: seq<Frame>, off: nat, src: seq<Frame>): (r: seq<Frame>)
    requires off + |src| <= |dst|
    ensures |r| == |dst|
    ensures forall i :: 0 <= i < |dst| ==> r[i] == if off <= i < off + |src| then src[i - off] else dst[i]
  {
    dst[..off] + src + dst[off + |src|..]
  }

  // ---------------------------------------------------------------- resampling

  /** Go's conversion to an integer: truncation toward zero. */
  function Trunc(x: real): (r: int)
    ensures x >= 0.0 ==> r as real <= x < r as real + 1.0
    ensures x <= 0.0 ==> r as real - 1.0 < x <= r as real
  {
    if x >= 0.0 then x.Floor else -((-x).Floor)
  }

  /** A fraction of a difference. */
  function Share(frac: real, d: real): real {
    frac * d
  }

  function Blend(a: int, b: int, frac: real): int {
    Trunc(a as real + Share(frac, (b - a) as real))
  }

  /** Interpolation never leaves the interval between its two samples, so it cannot overflow int16. */
  lemma BlendStaysBetween(a: int, b: int, frac: real)
    requires 0.0 <= frac < 1.0
    ensures a <= b ==> a <= Blend(a, b, frac) <= b
    ensures b <= a ==> b <= Blend(a, b, frac) <= a
  {
    hide Trunc, Share;
    ShareWithin(frac, (b - a) as real);
    var x := a as real + Share(frac, (b - a) as real);
    if a <= b {
      TruncBetween(a, b, x);
    }
    if b <= a {
      TruncBetween(b, a, x);
    }
  }

  lemma ShareWithin(frac: real, d: real)
    requires 0.0 <= frac < 1.0
    ensures d >= 0.0 ==> 0.0 <= Share(frac, d) <= d
    ensures d <= 0.0 ==> d <= Share(frac, d) <= 0.0
  {
    if d >= 0.0 {
      ShareOf(frac, d, frac * d);
    } else {
      assert frac * -d == -(frac * d);
      ShareOf(frac, -d, -(frac * d));
    }
  }

  lemma ShareOf(frac: real, d: real, p: real)
    requires 0.0 <= frac < 1.0 && d >= 0.0 && p == frac * d
    ensures 0.0 <= p <= d
  {
    var q := (1.0 - frac) * d;
    NonNegative(frac, d);
    NonNegative(1.0 - frac, d);
    assert p + q == d;
  }

  lemma NonNegative(x: real, y: real)
    requires x >= 0.0 && y >= 0.0
    ensures x * y >= 0.0
  {
  }

  lemma TruncBetween(lo: int, hi: int, x: real)
    requires lo as real <= x <= hi as real
    ensures lo <= Trunc(x) <= hi
  {
  }

  function OutFrames(srcFrames: nat, srcRate: nat, dstRate: nat): nat
    requires srcRate > 0
  {
    srcFrames * dstRate / srcRate
  }

  function Pos(i: nat, srcRate: nat, dstRate: nat): real
    requires dstRate > 0
  {
    i as real * (srcRate as real / dstRate as real)
  }

  /** Every source read is in bounds: the position of each output frame falls inside the source. */
  lemma {:induction false} ReadsInBounds(i: nat, srcFrames: nat, srcRate: nat, dstRate: nat)
    requires srcRate > 0 && dstRate > 0
    requires i < OutFrames(srcFrames, srcRate, dstRate)
    ensures 0 <= Pos(i, srcRate, dstRate).Floor < srcFrames
  {
    ReadsBelow(i, srcFrames, srcRate, dstRate);
    hide OutFrames;
    QuotientBelow(i, srcRate, dstRate, srcFrames);
  }

  lemma ReadsBelow(i: nat, srcFrames: nat, srcRate: nat, dstRate: nat)
    requires srcRate > 0 && dstRate > 0 && i < OutFrames(srcFrames, srcRate, dstRate)
    ensures i * srcRate < srcFrames * dstRate
  {
    var d := OutFrames(srcFrames, srcRate, dstRate);
    assert d * srcRate <= srcFrames * dstRate;
    assert (i + 1) * srcRate <= d * srcRate;
  }

  /** A quotient of integers below an integer bound. */
  lemma QuotientBelow(i: nat, n: nat, m: nat, bound: nat)
    requires n > 0 && m > 0 && i * n < bound * m
    ensures 0 <= Pos(i, n, m).Floor < bound
  {
    var p, dr := Pos(i, n, m), m as real;
    assert i as real * n as real == (i * n) as real;
    assert p * dr == (i * n) as real;
    assert bound as real * dr == (bound * m) as real;
    LessFactor(p, bound as real, dr);
    assert p >= 0.0;
  }

  lemma LessFactor(x: real, y: real, k: real)
    requires k > 0.0 && x * k < y * k
    ensures x < y
  {
  }

  /** The output frame at a fractional source position: its two neighbours, blended per channel. */
  function Mix(src: seq<Frame>, pos: real): Frame
    requires 0 <= pos.Floor < |src|
  {
    var j := pos.Floor;
    var frac := pos - j as real;
    var a := src[j];
    var b := if j + 1 < |src| then src[j + 1] else a;
    Frame(Blend(a.left, b.left, frac), Blend(a.right, b.right, frac))
  }

  function ResampleAt(src: seq<Frame>, srcRate: nat, dstRate: nat, i: nat): Frame
    requires srcRate > 0 && dstRate > 0
    requires i < OutFrames(|src|, srcRate, dstRate)
  {
    ReadsInBounds(i, |src|, srcRate, dstRate);
    Mix(src, Pos(i, srcRate, dstRate))
  }

  /** What the resampler returns: the source itself for equal rates, a non-positive source rate or empty input. */
  function Resampled(src: seq<Frame>, srcRate: int, dstRate: nat): (r: seq<Frame>)
    ensures |r| == if srcRate == dstRate || srcRate <= 0 || |src| == 0 then |src| else OutFrames(|src|, srcRate, dstRate)
  {
    if srcRate == dstRate || srcRate <= 0 || |src| == 0 then
      src
    else if dstRate == 0 then
      []
    else
      seq(OutFrames(|src|, srcRate, dstRate),
        i requires 0 <= i < OutFrames(|src|, srcRate, dstRate) => ResampleAt(src, srcRate, dstRate, i))
  }

  // ---------------------------------------------------------------- what the output is, in whole numbers

  /** y is num / m, truncated toward zero. */
  predicate IsQuotient(y: int, num: int, m: nat) {
    if num >= 0 then y * m <= num < y * m + m else y * m - m < num <= y * m
  }

  /** y lies between a and b, part / whole of the way, truncated toward zero; it is a itself at the start. */
  predicate Interpolates(y: int, a: int, b: int, part: nat, whole: nat) {
    && (a <= y <= b || b <= y <= a)
    && (part == 0 ==> y == a)
    && IsQuotient(y, a * whole + (b - a) * part, whole)
  }

  /** f is, channel by channel, the interpolation of src at the position i * srcRate / dstRate, the last frame held. */
  predicate ReadsAt(f: Frame, src: seq<Frame>, srcRate: nat, dstRate: nat, i: nat)
    requires dstRate > 0
  {
    var j, part := i * srcRate / dstRate, i * srcRate % dstRate;
    0 <= j < |src|
    && var a, b := src[j], src[if j + 1 < |src| then j + 1 else j];
       Interpolates(f.left, a.left, b.left, part, dstRate) && Interpolates(f.right, a.right, b.right, part, dstRate)
  }

  /** The real position splits into the integer quotient and remainder. */
  lemma PosSplits(i: nat, srcRate: nat, dstRate: nat)
    requires dstRate > 0
    ensures var p := Pos(i, srcRate, dstRate);
            && p.Floor == i * srcRate / dstRate
            && (p - p.Floor as real) * dstRate as real == (i * srcRate % dstRate) as real
  {
    var p, m, n := Pos(i, srcRate, dstRate), dstRate as real, i * srcRate;
    assert p * m == n as real by {
      assert i as real * srcRate as real == n as real;
      assert (srcRate as real / m) * m == srcRate as real;
      assert p * m == i as real * ((srcRate as real / m) * m);
    }
    var q, r := n / dstRate, n % dstRate;
    assert n == q * dstRate + r;
    assert q as real * m == (q * dstRate) as real;
    var x := p - q as real;
    assert x * m == r as real;
    assert 0.0 <= x < 1.0 by {
      if x < 0.0 {
        LessScaled(x, 0.0, m);
      } else if x >= 1.0 {
        MulMonotone(1.0, x, m);
      }
    }
  }

  lemma LessScaled(x: real, y: real, k: real)
    requires k > 0.0 && x < y
    ensures x * k < y * k
  {
    assert (y - x) * k > 0.0;
  }

  /** A blend is the whole-number interpolation. */
  lemma BlendInterpolates(a: int, b: int, frac: real, part: nat, whole: nat)
    requires whole > 0 && 0.0 <= frac < 1.0 && frac * whole as real == part as real
    ensures Interpolates(Blend(a, b, frac), a, b, part, whole)
  {
    BlendStaysBetween(a, b, frac);
    var m, y := whole as real, Blend(a, b, frac);
    var x := a as real + Share(frac, (b - a) as real);
    var num := a * whole + (b - a) * part;
    ShareScaled(a, b, frac, part, whole);
    if part == 0 {
      assert frac == 0.0 by {
        if frac > 0.0 {
          LessScaled(0.0, frac, m);
        }
      }
      assert x == a as real;
    }
    TruncScaled(x, y, num, whole);
  }

  lemma ShareScaled(a: int, b: int, frac: real, part: nat, whole: nat)
    requires whole > 0 && frac * whole as real == part as real
    ensures (a as real + Share(frac, (b - a) as real)) * whole as real == (a * whole + (b - a) * part) as real
  {
    var m, d := whole as real, (b - a) as real;
    assert frac * d * m == d * (frac * m);
    assert d * part as real == ((b - a) * part) as real;
    assert a as real * m == (a * whole) as real;
  }

  lemma TruncScaled(x: real, y: int, num: int, whole: nat)
    requires whole > 0 && y == Trunc(x) && x * whole as real == num as real
    ensures IsQuotient(y, num, whole)
  {
    var m := whole as real;
    if x >= 0.0 {
      NonNegative(x, m);
      QuotientOf(x, y, num, whole);
    } else {
      LessScaled(x, 0.0, m);
      NegatedProduct(x, m, num as real);
      QuotientOf(-x, -y, -num, whole);
      NegatedQuotient(y, num, whole);
    }
  }

  lemma NegatedProduct(x: real, m: real, p: real)
    requires x * m == p
    ensures -x * m == -p
  {
  }

  lemma NegatedQuotient(y: int, num: int, whole: nat)
    requires -y * whole <= -num < -y * whole + whole
    ensures y * whole - whole < num <= y * whole
  {
    assert -y * whole == -(y * whole);
  }

  lemma QuotientOf(x: real, y: int, num: int, whole: nat)
    requires whole > 0 && y as real <= x < y as real + 1.0 && x * whole as real == num as real
    ensures y * whole <= num < y * whole + whole
  {
    assert y as real * whole as real == (y * whole) as real;
    ScaledNext(x, y as real, whole as real, num as real, (y * whole) as real);
  }

  lemma ScaledNext(x: real, y: real, k: real, xk: real, yk: real)
    requires k > 0.0 && y <= x < y + 1.0 && xk == x * k && yk == y * k
    ensures yk <= xk < yk + k
  {
    var up, down := y + 1.0 - x, x - y;
    var upK, downK := up * k, down * k;
    Positive(up, k);
    NonNegative(down, k);
    assert downK == xk - yk;
    assert upK == yk + k - xk;
  }

  lemma Positive(x: real, y: real)
    requires x > 0.0 && y > 0.0
    ensures x * y > 0.0
  {
  }

  lemma ResampledReads(src: seq<Frame>, srcRate: nat, dstRate: nat, i: nat)
    requires srcRate > 0 && dstRate > 0 && i < OutFrames(|src|, srcRate, dstRate)
    ensures ReadsAt(ResampleAt(src, srcRate, dstRate, i), src, srcRate, dstRate, i)
  {
    hide Pos, Blend, OutFrames;
    ReadsInBounds(i, |src|, srcRate, dstRate);
    PosSplits(i, srcRate, dstRate);
    var p := Pos(i, srcRate, dstRate);
    var j, frac := p.Floor, p - p.Floor as real;
    var a, b := src[j], src[if j + 1 < |src| then j + 1 else j];
    BlendInterpolates(a.left, b.left, frac, i * srcRate % dstRate, dstRate);
    BlendInterpolates(a.right, b.right, frac, i * srcRate % dstRate, dstRate);
  }

  /** out is src resampled: src itself where there is nothing to do, else src read at every output frame's position. */
  predicate IsResampling(out: seq<Frame>, src: seq<Frame>, srcRate: int, dstRate: nat) {
    if srcRate == dstRate || srcRate <= 0 || |src| == 0 then
      out == src
    else
      |out| == |src| * dstRate / srcRate
      && (dstRate > 0 ==> forall i :: 0 <= i < |out| ==> ReadsAt(out[i], src, srcRate, dstRate, i))
  }

  /** Every output frame is the truncated linear interpolation of the two source frames around its position. */
  lemma ResampledIsInterpolation(src: seq<Frame>, srcRate: int, dstRate: nat)
    ensures IsResampling(Resampled(src, srcRate, dstRate), src, srcRate, dstRate)
  {
    if !(srcRate == dstRate || srcRate <= 0 || |src| == 0) {
      NothingAtRateZero(|src|, srcRate, dstRate);
      if dstRate > 0 {
        var out := Resampled(src, srcRate, dstRate);
        hide ReadsAt, ResampleAt;
        forall i | 0 <= i < |out|
          ensures ReadsAt(out[i], src, srcRate, dstRate, i)
        {
          ResampledReads(src, srcRate, dstRate, i);
        }
      }
    }
  }

  /** The resampling loop. */
  method ResampleLinear(src: seq<Frame>, srcRate: int, dstRate: nat) returns (out: seq<Frame>)
    ensures out == Resampled(src, srcRate, dstRate)
    ensures IsResampling(out, src, srcRate, dstRate)
  {
    hide IsResampling;
    ResampledIsInterpolation(src, srcRate, dstRate);
    if srcRate == dstRate || srcRate <= 0 || |src| == 0 {
      return src;
    }
    var dstFrames := OutFrames(|src|, srcRate, dstRate);
    ghost var want := Resampled(src, srcRate, dstRate);
    var buf := new Frame[dstFrames](_ => SILENT);
    for i := 0 to dstFrames
      invariant forall m :: 0 <= m < i ==> buf[m] == want[m]
    {
      NothingAtRateZero(|src|, srcRate, dstRate);
      ReadsInBounds(i, |src|, srcRate, dstRate);
      buf[i] := Mix(src, Pos(i, srcRate, dstRate));
    }
    out := buf[..];
  }

  lemma NothingAtRateZero(srcFrames: nat, srcRate: nat, dstRate: nat)
    requires srcRate > 0
    ensures dstRate == 0 ==> OutFrames(srcFrames, srcRate, dstRate) == 0
  {
  }

  /** Resampling exactly `n` frames from rate n to rate m yields exactly m frames. */
  lemma ResampleExactLength(src: seq<Frame>, m: nat)
    requires |src| > 0 && m > 0
    ensures |Resampled(src, |src|, m)| == m
  {
    assert |src| * m == m * |src| + 0;
    DivUnique(|src| * m, |src|, m, 0);
  }

  // ---------------------------------------------------------------- loudness of a padding region

  const PAD_AUDIO_FLOOR := 256

  predicate Loud(f: Frame) {
    f.left > PAD_AUDIO_FLOOR || f.left < -PAD_AUDIO_FLOOR || f.right > PAD_AUDIO_FLOOR || f.right < -PAD_AUDIO_FLOOR
  }

  /** interval_codec.go: whether s holds real audio in [from, to). */
  predicate PadCarriesAudio(s: seq<Frame>, from: int, to: int) {
    0 <= from && to <= |s| && exists i :: from <= i < to && Loud(s[i])
  }
}
