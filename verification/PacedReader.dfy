/** The paced reader (internal/emit/pacedreader.go): an interval's PCM in sink-sized chunks, each stamped with the
    beat it begins at. The values and what holds of any sequence of operations on them; then the object itself. */
module PacedReader {
  import opened Audio
  import opened Interval

  datatype Reader = Reader(rate: nat, tempoBPM: real, baseBeat: real, baseFrame: int, total: nat, cursor: nat) {

    predicate Ok() {
      rate > 0
    }

    function Tempo(): (t: real)
      ensures t > 0.0
    {
      if tempoBPM <= 0.0 then 120.0 else tempoBPM
    }

    function BeatAt(frame: int): real
      requires Ok()
    {
      baseBeat + (frame - baseFrame) as real / rate as real * Tempo() / 60.0
    }

    function FrameAtBeat(beat: real): int {
      baseFrame + Round((beat - baseBeat) * 60.0 / Tempo() * rate as real)
    }

    /** How many frames the next chunk holds. */
    function ChunkLen(chunkFrames: nat): nat {
      if cursor >= total then 0 else if cursor + chunkFrames > total then total - cursor else chunkFrames
    }

    function Skip(toFrame: int): Reader {
      var to := if toFrame > total then total else toFrame;
      if to > cursor then this.(cursor := to) else this
    }

    function SetTotalFrames(n: int): Reader {
      this.(total := if n < cursor then cursor else n)
    }

    function Rebase(bpm: real, totalFrames: int): Reader
      requires Ok()
    {
      this.(baseBeat := BeatAt(cursor), baseFrame := cursor,
            tempoBPM := if bpm > 0.0 then bpm else tempoBPM,
            total := if totalFrames > 0 then totalFrames else total)
    }
  }

  function New(rate: nat, tempoBPM: real, startBeat: real, totalFrames: nat): Reader {
    Reader(rate, tempoBPM, startBeat, 0, totalFrames, 0)
  }

  /** Frames [from, to) of an interval's buffer, silence where they have not arrived. */
  function Region(src: seq<Frame>, from: nat, to: nat): (r: seq<Frame>)
    requires from <= to
    ensures |r| == to - from
    ensures forall i :: 0 <= i < to - from ==> r[i] == if from + i < |src| then src[from + i] else SILENT
  {
    seq(to - from, i requires 0 <= i => if from + i < |src| then src[from + i] else SILENT)
  }

  // ---------------------------------------------------------------- beat stamps

  /** The beat span of d frames. */
  function Span(r: Reader, d: int): real
    requires r.Ok()
  {
    d as real / r.rate as real * r.Tempo() / 60.0
  }

  lemma SpanInverts(r: Reader, d: int)
    requires r.Ok()
    ensures Span(r, d) * 60.0 / r.Tempo() * r.rate as real == d as real
  {
    var n, t := r.rate as real, r.Tempo();
    var x := d as real / n;
    assert x * n == d as real;
    var y := x * t / 60.0;
    assert y * 60.0 == x * t;
    assert x * t / t == x;
    assert Span(r, d) == y;
  }

  lemma SpanGrows(r: Reader, c: int, d: int)
    requires r.Ok() && c < d
    ensures Span(r, c) < Span(r, d)
  {
    var n, t := r.rate as real, r.Tempo();
    var x, y := c as real / n, d as real / n;
    OrderScales(x, y, n, c as real, d as real);
    StrictMul(x, y, t);
  }

  /** FrameAtBeat inverts BeatAt exactly. */
  lemma FrameAtBeatInverts(r: Reader, frame: int)
    requires r.Ok()
    ensures r.FrameAtBeat(r.BeatAt(frame)) == frame
  {
    var d := frame - r.baseFrame;
    SpanInverts(r, d);
    assert r.BeatAt(frame) - r.baseBeat == Span(r, d);
    RoundInt(d);
  }

  lemma BeatAtGrows(r: Reader, f: int, g: int)
    requires r.Ok() && f < g
    ensures r.BeatAt(f) < r.BeatAt(g)
  {
    SpanGrows(r, f - r.baseFrame, g - r.baseFrame);
  }

  /** Rebase moves the anchor without moving the stamp at the cursor. */
  lemma RebaseKeepsStamp(r: Reader, bpm: real, totalFrames: int)
    requires r.Ok()
    ensures r.Rebase(bpm, totalFrames).Ok()
    ensures r.Rebase(bpm, totalFrames).BeatAt(r.cursor) == r.BeatAt(r.cursor)
  {
    var q := r.Rebase(bpm, totalFrames);
    assert Span(q, 0) == 0.0 by {
      assert 0 as real / q.rate as real == 0.0;
    }
  }

  datatype Op = Next(chunkFrames: nat) | Skip(toFrame: int) | SetTotal(n: int) | Rebase(bpm: real, totalFrames: int)

  /** The reader after an operation, and the stamp of the chunk it emitted, if it emitted any frames. */
  function Apply(r: Reader, op: Op): (Reader, seq<real>)
    requires r.Ok()
  {
    match op
    case Next(n) => (r.(cursor := r.cursor + r.ChunkLen(n)), if r.ChunkLen(n) > 0 then [r.BeatAt(r.cursor)] else [])
    case Skip(to) => (r.Skip(to), [])
    case SetTotal(n) => (r.SetTotalFrames(n), [])
    case Rebase(bpm, n) => (r.Rebase(bpm, n), [])
  }

  function Stamps(r: Reader, ops: seq<Op>): seq<real>
    requires r.Ok()
    decreases |ops|
  {
    if ops == [] then [] else
      var (r1, s) := Apply(r, ops[0]);
      s + Stamps(r1, ops[1..])
  }

  lemma ApplyNeverStampsBack(r: Reader, op: Op)
    requires r.Ok()
    ensures var (r1, s) := Apply(r, op);
            && r1.Ok()
            && r.BeatAt(r.cursor) <= r1.BeatAt(r1.cursor)
            && (s != [] ==> s == [r.BeatAt(r.cursor)] && r.BeatAt(r.cursor) < r1.BeatAt(r1.cursor))
  {
    var r1 := Apply(r, op).0;
    match op {
      case Rebase(bpm, n) => RebaseKeepsStamp(r, bpm, n);
      case _ =>
        if r.cursor < r1.cursor {
          BeatAtGrows(r, r.cursor, r1.cursor);
        }
    }
  }

  /** Through any mix of reads, skips, resizes and rebases, emitted beat stamps strictly increase. */
  lemma {:induction false} StampsIncrease(r: Reader, ops: seq<Op>)
    requires r.Ok()
    ensures forall i :: 0 <= i < |Stamps(r, ops)| ==> r.BeatAt(r.cursor) <= Stamps(r, ops)[i]
    ensures forall i, j :: 0 <= i < j < |Stamps(r, ops)| ==> Stamps(r, ops)[i] < Stamps(r, ops)[j]
    decreases |ops|
  {
    hide Apply, Reader.BeatAt;
    if ops != [] {
      ApplyNeverStampsBack(r, ops[0]);
      StampsIncrease(Apply(r, ops[0]).0, ops[1..]);
    }
  }

  // ---------------------------------------------------------------- boundaries

  /** The reader that plays local interval `index`, as onBoundary builds it. */
  function IntervalReader(cfg: Config, rate: nat, tempo: real, index: int): Reader {
    New(rate, tempo, cfg.WindowStart(index), cfg.IntervalSamples(rate, tempo))
  }

  lemma SpanAdds(r: Reader, c: int, d: int)
    requires r.Ok()
    ensures Span(r, c + d) == Span(r, c) + Span(r, d)
  {
    var n, t := r.rate as real, r.Tempo();
    var x, y, z := c as real / n, d as real / n, (c + d) as real / n;
    assert x * n == c as real && y * n == d as real && z * n == (c + d) as real;
    assert (x + y) * n == x * n + y * n;
    DivideLe(x + y, z, n);
    DivideLe(z, x + y, n);
    assert (x + y) * t == x * t + y * t;
  }

  /** For tempos of at least 1 BPM, the beat at which one interval's frames run out and the beat at which the next reader
      takes over differ by at most half a frame: at every boundary alike, and whether the current reader stops at its
      interval's end (`pad` 0) or plays on through the padding. */
  lemma BoundaryStampsMeet(cfg: Config, rate: nat, tempo: real, index: int, pad: nat)
    requires rate > 0 && tempo >= 1.0
    ensures var r := IntervalReader(cfg, rate, tempo, index); var s := IntervalReader(cfg, rate, tempo, index + 1);
            var half := 0.5 / rate as real * tempo / 60.0;
            -half <= r.BeatAt(r.total + pad) - s.BeatAt(pad) <= half
  {
    var r, s := IntervalReader(cfg, rate, tempo, index), IntervalReader(cfg, rate, tempo, index + 1);
    var b := cfg.BeatsPerInterval();
    assert s.baseBeat == r.baseBeat + b by {
      assert (index + 1) as real * b == index as real * b + b;
    }
    hide Config.BeatsPerInterval;
    assert r.BeatAt(r.total + pad) == r.baseBeat + Span(r, r.total + pad);
    assert s.BeatAt(pad) == s.baseBeat + Span(s, pad);
    assert Span(s, pad) == Span(r, pad);
    SpanAdds(r, r.total, pad);
    SpanOfRounded(b, rate, tempo, r.total);
  }

  lemma SpanOfRounded(b: real, rate: nat, tempo: real, total: int)
    requires rate > 0 && tempo >= 1.0
    requires total == Round(FramesIn(b, rate, tempo))
    ensures var half := 0.5 / rate as real * tempo / 60.0;
            -half <= total as real / rate as real * tempo / 60.0 - b <= half
  {
    var n := rate as real;
    var exact := FramesIn(b, rate, tempo);
    assert ClampTempo(tempo) == tempo;
    var c := b * 60.0 / tempo;
    assert c * tempo == b * 60.0;
    assert exact == c * n;
    assert exact / n == c;
    assert exact / n * tempo / 60.0 == b;
    ScaledWithin(total as real, exact, n, tempo);
  }

  lemma ScaledWithin(x: real, y: real, n: real, t: real)
    requires n > 0.0 && t > 0.0 && -0.5 <= x - y <= 0.5
    ensures var half := 0.5 / n * t / 60.0;
            -half <= x / n * t / 60.0 - y / n * t / 60.0 <= half
  {
    var p, q, h := x / n, y / n, 0.5 / n;
    assert p * n == x && q * n == y && h * n == 0.5;
    assert (p - q) * n == x - y;
    DivideLe(p - q, h, n);
    DivideLe(-h, p - q, n);
    MulMonotone(p - q, h, t);
    MulMonotone(-h, p - q, t);
  }

  lemma DivideLe(a: real, b: real, n: real)
    requires n > 0.0 && a * n <= b * n
    ensures a <= b
  {
    if a > b {
      StrictMul(b, a, n);
    }
  }
}
