/** Interval timing (internal/interval/interval.go, interval_codec.go): beats to interval indices and frames. */
module Interval {

  const MIN_TEMPO := 1.0
  const MIN_QUANTUM := 1.0

  /** Go's math.Round: to the nearest integer, halves away from zero. */
  function Round(x: real): (r: int)
    ensures -0.5 <= r as real - x <= 0.5
    ensures x >= 0.0 ==> r >= 0 && -0.5 < r as real - x
    ensures x <= 0.0 ==> r <= 0 && r as real - x < 0.5
  {
    if x >= 0.0 then (x + 0.5).Floor else -((-x + 0.5).Floor)
  }

  lemma RoundMonotone(x: real, y: real)
    requires x <= y
    ensures Round(x) <= Round(y)
  {
  }

  lemma RoundInt(n: int)
    ensures Round(n as real) == n
  {
  }

  function ClampTempo(tempo: real): (t: real)
    ensures t >= 1.0
  {
    if tempo > MIN_TEMPO then tempo else MIN_TEMPO
  }

  /** Frames spanned by `beats` at a tempo, before rounding. */
  function FramesIn(beats: real, rate: nat, tempo: real): real {
    beats * 60.0 / ClampTempo(tempo) * rate as real
  }

  lemma FramesInMonotone(b: real, c: real, rate: nat, tempo: real)
    requires b <= c
    ensures FramesIn(b, rate, tempo) <= FramesIn(c, rate, tempo)
  {
    var t := ClampTempo(tempo);
    assert b * 60.0 / t <= c * 60.0 / t;
    MulMonotone(b * 60.0 / t, c * 60.0 / t, rate as real);
  }

  lemma MulMonotone(x: real, y: real, k: real)
    requires x <= y && k >= 0.0
    ensures x * k <= y * k
  {
  }

  datatype Config = Config(bars: nat, quantum: real) {

    function BeatsPerInterval(): (b: real)
      ensures b >= 1.0
    {
      var q := if quantum < MIN_QUANTUM then MIN_QUANTUM else quantum;
      var n := if bars < 1 then 1 else bars;
      MulMonotone(1.0, n as real, q);
      n as real * q
    }

    function IndexAtBeat(beat: real): int {
      (beat / BeatsPerInterval()).Floor
    }

    function WindowStart(index: int): real {
      index as real * BeatsPerInterval()
    }

    function WindowEnd(index: int): real {
      WindowStart(index) + BeatsPerInterval()
    }

    function IntervalSamples(rate: nat, tempo: real): (n: nat)
    {
      FramesInMonotone(0.0, BeatsPerInterval(), rate, tempo);
      Round(FramesIn(BeatsPerInterval(), rate, tempo))
    }

    function FrameOffset(beat: real, index: int, rate: nat, tempo: real): (off: nat)
      ensures off <= IntervalSamples(rate, tempo)
    {
      var offsetBeats := beat - WindowStart(index);
      var b := if offsetBeats < 0.0 then 0.0 else offsetBeats;
      FramesInMonotone(0.0, b, rate, tempo);
      var off := Round(FramesIn(b, rate, tempo));
      var max := IntervalSamples(rate, tempo);
      if off > max then max else off
    }

    /** The index found for a beat is the interval whose window holds that beat, and no other is. */
    lemma IndexIsTheWindowHoldingTheBeat(beat: real, index: int)
      ensures IndexAtBeat(beat) == index <==> WindowStart(index) <= beat < WindowEnd(index)
    {
      var b := BeatsPerInterval();
      assert WindowEnd(index) == (index as real + 1.0) * b;
      FloorScales(beat / b, b, beat, index, WindowStart(index), WindowEnd(index));
    }

    /** Inside its own interval a beat's offset is never cut by the clamp. */
    lemma OffsetIsRoundedPosition(beat: real, rate: nat, tempo: real)
      ensures FrameOffset(beat, IndexAtBeat(beat), rate, tempo)
              == Round(FramesIn(beat - WindowStart(IndexAtBeat(beat)), rate, tempo))
    {
      var i := IndexAtBeat(beat);
      IndexIsTheWindowHoldingTheBeat(beat, i);
      var b := beat - WindowStart(i);
      assert 0.0 <= b <= BeatsPerInterval();
      FramesInMonotone(b, BeatsPerInterval(), rate, tempo);
      RoundMonotone(FramesIn(b, rate, tempo), FramesIn(BeatsPerInterval(), rate, tempo));
    }
  }

  lemma FloorScales(q: real, b: real, beat: real, index: int, lo: real, hi: real)
    requires b > 0.0 && q * b == beat
    requires lo == index as real * b && hi == (index as real + 1.0) * b
    ensures q.Floor == index <==> lo <= beat < hi
  {
    OrderScales(q, index as real, b, beat, lo);
    OrderScales(q, index as real + 1.0, b, beat, hi);
  }

  lemma OrderScales(x: real, y: real, k: real, xk: real, yk: real)
    requires k > 0.0 && xk == x * k && yk == y * k
    ensures x < y <==> xk < yk
  {
    assert yk - xk == (y - x) * k;
    if x < y {
      Positive(y - x, k);
    } else if y < x {
      Positive(x - y, k);
      assert (x - y) * k == xk - yk;
    }
  }

  lemma Positive(x: real, k: real)
    requires x > 0.0 && k > 0.0
    ensures x * k > 0.0
  {
  }

  lemma StrictMul(x: real, y: real, k: real)
    requires x < y && k > 0.0
    ensures x * k < y * k
  {
  }

  // ---------------------------------------------------------------- WAIF granularity

  const WAIF_FRAME_MS := 20

  function SamplesPerWaifFrame(rate: nat): nat {
    rate * WAIF_FRAME_MS / 1000
  }

  function RoundUp(n: nat, multiple: int): (r: nat) {
    if multiple <= 0 then n else Ceil(n, multiple) * multiple
  }

  function Ceil(n: nat, m: nat): nat
    requires m > 0
  {
    (n + m - 1) / m
  }

  /** The number of whole windows covering n frames, and how far they overhang. */
  lemma CeilBounds(n: nat, m: nat)
    requires m > 0
    ensures n <= Ceil(n, m) * m < n + m
    ensures n % m == 0 ==> Ceil(n, m) * m == n && Ceil(n, m) == n / m
    ensures n % m != 0 ==> Ceil(n, m) * m > n && Ceil(n, m) == n / m + 1
    ensures n > 0 ==> Ceil(n, m) >= 1
  {
    var q, r := n / m, n % m;
    assert n == q * m + r;
    if r == 0 {
      assert n + m - 1 == q * m + (m - 1);
      DivUnique(n + m - 1, m, q, m - 1);
    } else {
      assert n + m - 1 == (q + 1) * m + (r - 1);
      DivUnique(n + m - 1, m, q + 1, r - 1);
    }
  }

  lemma DivUnique(x: int, m: int, q: int, r: int)
    requires m > 0 && x == q * m + r && 0 <= r < m
    ensures x / m == q && x % m == r
  {
    var q', r' := x / m, x % m;
    assert x == q' * m + r';
    assert (q + 1) * m == q * m + m && (q' + 1) * m == q' * m + m;
    LessByFactor(q, q' + 1, m);
    LessByFactor(q', q + 1, m);
  }

  lemma LessByFactor(x: int, y: int, m: int)
    requires m > 0 && x * m < y * m
    ensures x < y
  {
    if x >= y {
      MulIncreasing(y, x, m);
    }
  }

  lemma MulIncreasing(x: int, y: int, m: int)
    requires x <= y && m >= 0
    ensures x * m <= y * m
  {
    assert y * m - x * m == (y - x) * m;
    assert (y - x) * m >= 0;
  }

  lemma DivMonotone(x: int, y: int, m: int)
    requires m > 0 && x <= y
    ensures x / m <= y / m
  {
    var p, q := x / m, y / m;
    assert p * m <= x && y < q * m + m;
    assert (q + 1) * m == q * m + m;
    LessByFactor(p, q + 1, m);
  }
}
