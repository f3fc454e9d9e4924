/** The drift corrector: while the stamps drift by at most one slew step per buffer, the cursor follows the beat
    grid and no buffer ever re-anchors. */
module DriftControl {
  import opened Common
  import opened Audio
  import opened Interval
  import opened AssemblerModel
  import opened AssemblerStream
  import opened AssemblerRuns
  import opened AssemblerOrder

  /** Where a stamp falls on the grid of whole intervals, in frames. */
  function StampPos(a: Asm, beat: real, tempo: real): int {
    var i := a.cfg.IndexAtBeat(beat);
    i * FramesAt(a, tempo) + a.cfg.FrameOffset(beat, i, a.rate, tempo)
  }

  predicate ConstantFrames(ivs: seq<Iv>, frames: nat) {
    forall j :: 0 <= j < |ivs| ==> ivs[j].frames == frames
  }

  lemma {:induction false} ConstantStarts(ivs: seq<Iv>, w: nat, frames: nat, j: nat)
    requires Chain(ivs, w) && ConstantFrames(ivs, frames) && j < |ivs|
    ensures ivs[j].start == ivs[0].start + j * frames && ivs[j].index == ivs[0].index + j
  {
    if j > 0 {
      ConstantStarts(ivs, w, frames, j - 1);
      assert j * frames == (j - 1) * frames + frames;
    }
  }

  lemma {:induction false} OpenedConstant(ivs: seq<Iv>, len: nat, frames: nat)
    requires |ivs| > 0 && frames > 0 && ConstantFrames(ivs, frames)
    ensures ConstantFrames(Opened(ivs, len, frames), frames)
    decreases len - (ivs[|ivs| - 1].start + ivs[|ivs| - 1].frames)
  {
    if len > ivs[|ivs| - 1].start + ivs[|ivs| - 1].frames {
      OpenedConstant(ivs + [NextIv(ivs, frames)], len, frames);
    }
  }

  /** On a constant grid the divergence is the stamp's position minus the length of the stream so far. */
  lemma DivergenceIsPosition(a: Asm, s: seq<Frame>, ivs: seq<Iv>, b: In)
    requires Tracks(a, s, ivs) && ConstantFrames(ivs, FramesAt(a, b.tempo))
    ensures Divergence(a, b.beat, b.tempo)
         == StampPos(a, b.beat, b.tempo) - (ivs[0].index * FramesAt(a, b.tempo) + |s| - ivs[0].start)
  {
    hide OkMidCall, PendingTracks, Config.FrameOffset, Config.IndexAtBeat, Config.IntervalSamples;
    var frames := FramesAt(a, b.tempo);
    var n := |ivs| - 1;
    ConstantStarts(ivs, a.window, frames, n);
    var i := a.cfg.IndexAtBeat(b.beat);
    var last := ivs[n];
    assert (i - last.index) * frames == i * frames - last.index * frames;
    assert (ivs[0].index + n) * frames == ivs[0].index * frames + n * frames;
  }

  /** A slewed buffer has exactly k frames more (or fewer) than it came with. */
  lemma SlewedLength(samples: seq<Frame>, k: int)
    requires -SLEW_MAX_PER_BUFFER <= k <= SLEW_MAX_PER_BUFFER && |samples| >= SLEW_WINDOW + SLEW_MAX_PER_BUFFER
    ensures |Slewed(samples, k)| == |samples| + k
  {
    if k != 0 {
      ResampleExactLength(samples[|samples| - SLEW_WINDOW..], SLEW_WINDOW + k);
    }
  }

  /** The largest divergence the corrector lets build up. */
  function Bound(a: Asm): int {
    SlewDeadband(a) + SLEW_MAX_PER_BUFFER
  }

  /** One correction: a divergence within the bound, changed by at most one slew step, stays within it. */
  lemma CorrectionHoldsBound(a: Asm, div: int, d: int)
    requires -Bound(a) <= div <= Bound(a) && -SLEW_MAX_PER_BUFFER <= d <= SLEW_MAX_PER_BUFFER
    requires a.pendingSlew == 0
    ensures -Bound(a) <= div + d - SlewFor(a, div) <= Bound(a)
  {
  }

  /** The stamp after buffer i advances by that buffer's own length, give or take one slew step. */
  predicate SlowAt(a: Asm, ins: seq<In>, i: nat)
    requires i + 1 < |ins|
  {
    -SLEW_MAX_PER_BUFFER
      <= StampPos(a, ins[i + 1].beat, ins[i + 1].tempo) - StampPos(a, ins[i].beat, ins[i].tempo) - |ins[i].samples|
      <= SLEW_MAX_PER_BUFFER
  }

  predicate DriftsSlowly(a: Asm, ins: seq<In>) {
    forall i :: 0 <= i < |ins| - 1 ==> SlowAt(a, ins, i)
  }

  predicate Smearable(ins: seq<In>) {
    forall i :: 0 <= i < |ins| ==> |ins[i].samples| >= SLEW_WINDOW + SLEW_MAX_PER_BUFFER
  }

  /** Along the run every divergence stays within the bound, and every buffer is lengthened by exactly its slew. */
  predicate Bounded(a: Asm, ins: seq<In>)
    requires Ok(a) && a.window > 0 && TemposOk(a, ins) && NoReanchor(a, ins)
    decreases |ins|
  {
    if ins == [] then
      true
    else
      SameTempos(a, a, ins);
      var a1 := Step(a, ins[0]).0;
      SameTempos(a, a1, ins);
      var div := Divergence(a, ins[0].beat, ins[0].tempo);
      && -Bound(a) <= div <= Bound(a)
      && |LaidBy(a, ins[0])| == |ins[0].samples| + SlewFor(a, div)
      && Bounded(a1, ins[1..])
  }

  lemma {:induction false} DriftRun(a: Asm, s: seq<Frame>, ivs: seq<Iv>, ins: seq<In>, tempo: real)
    requires Ok(a) && a.anchored && Tracks(a, s, ivs) && TemposOk(a, ins)
    requires ConstantTempo(ins, tempo) && ConstantFrames(ivs, FramesAt(a, tempo))
    requires Smearable(ins) && DriftsSlowly(a, ins) && Bound(a) <= ReanchorThreshold(a)
    requires ins != [] ==> -Bound(a) <= Divergence(a, ins[0].beat, tempo) <= Bound(a)
    ensures NoReanchor(a, ins) && Bounded(a, ins)
    decreases |ins|
  {
    hide Step, Tracks, OkMidCall, TemposOk, Divergence, StampPos, LaidBy, Config.IntervalSamples, FramesAt;
    TracksRunning(a, s, ivs);
    if ins != [] {
      SameTempos(a, a, ins);
      var b := ins[0];
      var a1 := Step(a, b).0;
      SameTempos(a, a1, ins);
      var div := Divergence(a, b.beat, tempo);
      StepKeepsAnchor(a, b);
      OneDriftStep(a, s, ivs, b);
      var s1 := s + LaidBy(a, b);
      var ivs1 := Opened(ivs, |s1|, FramesAt(a, tempo));
      TailDrifts(a, a1, ins);
      if |ins| > 1 {
        NextDivergence(a, s, ivs, b, ins[1]);
        assert SlowAt(a, ins, 0);
        CorrectionHoldsBound(a, div, StampPos(a, ins[1].beat, tempo) - StampPos(a, b.beat, tempo) - |b.samples|);
      }
      SameFrames(a, a1, tempo);
      DriftRun(a1, s1, ivs1, ins[1..], tempo);
    }
  }

  lemma SameFrames(a: Asm, b: Asm, tempo: real)
    requires SameSetup(a, b)
    ensures FramesAt(a, tempo) == FramesAt(b, tempo) && Bound(a) == Bound(b)
    ensures ReanchorThreshold(a) == ReanchorThreshold(b)
  {
  }

  lemma TailDrifts(a: Asm, a1: Asm, ins: seq<In>)
    requires SameSetup(a, a1) && ins != [] && DriftsSlowly(a, ins)
    ensures DriftsSlowly(a1, ins[1..])
  {
    hide Config.IntervalSamples, Config.FrameOffset, Config.IndexAtBeat;
    var t := ins[1..];
    forall i | 0 <= i < |t| - 1
      ensures SlowAt(a1, t, i)
    {
      assert SlowAt(a, ins, i + 1);
    }
  }

  /** What one buffer does to the tracked stream. */
  lemma OneDriftStep(a: Asm, s: seq<Frame>, ivs: seq<Iv>, b: In)
    requires Ok(a) && Tracks(a, s, ivs) && TempoOk(a, b) && Stays(a, b)
    requires |b.samples| >= SLEW_WINDOW + SLEW_MAX_PER_BUFFER
    requires ConstantFrames(ivs, FramesAt(a, b.tempo))
    ensures var s1 := s + LaidBy(a, b); var ivs1 := Opened(ivs, |s1|, FramesAt(a, b.tempo));
            && Tracks(Step(a, b).0, s1, ivs1)
            && ConstantFrames(ivs1, FramesAt(a, b.tempo))
            && ivs1[0] == ivs[0]
    ensures |LaidBy(a, b)| == |b.samples| + SlewFor(a, Divergence(a, b.beat, b.tempo))
  {
    hide Step, OkMidCall, Config.IntervalSamples, StaysContiguous, Divergence;
    BufferKeepsTracking(a, s, ivs, b);
    SlewedLength(b.samples, SlewFor(a, Divergence(a, b.beat, b.tempo)));
    OpenedConstant(ivs, |s + LaidBy(a, b)|, FramesAt(a, b.tempo));
    var ivs1 := Opened(ivs, |s + LaidBy(a, b)|, FramesAt(a, b.tempo));
    assert ivs1[..|ivs|][0] == ivs[0];
  }

  lemma NextDivergence(a: Asm, s: seq<Frame>, ivs: seq<Iv>, b: In, c: In)
    requires Ok(a) && Tracks(a, s, ivs) && TempoOk(a, b) && Stays(a, b)
    requires |b.samples| >= SLEW_WINDOW + SLEW_MAX_PER_BUFFER
    requires ConstantFrames(ivs, FramesAt(a, b.tempo)) && c.tempo == b.tempo
    ensures Step(a, b).0.cur.Some?
    ensures Divergence(Step(a, b).0, c.beat, c.tempo)
         == Divergence(a, b.beat, b.tempo)
            + (StampPos(a, c.beat, c.tempo) - StampPos(a, b.beat, b.tempo) - |b.samples|)
            - SlewFor(a, Divergence(a, b.beat, b.tempo))
  {
    hide Step, Tracks, Config.IntervalSamples, Config.FrameOffset, Config.IndexAtBeat, Divergence, StaysContiguous, SlewFor, OkMidCall;
    TracksRunning(a, s, ivs);
    OneDriftStep(a, s, ivs, b);
    var a1 := Step(a, b).0;
    var s1 := s + LaidBy(a, b);
    var ivs1 := Opened(ivs, |s1|, FramesAt(a, b.tempo));
    TracksRunning(a1, s1, ivs1);
    DivergenceIsPosition(a, s, ivs, b);
    DivergenceIsPosition(a1, s1, ivs1, c);
  }

  /** THE DRIFT BOUND. From the first buffer on, wherever its stamp falls, at a constant tempo: if every buffer is long
      enough to smear a correction over, and each stamp advances by its buffer's length to within 4 frames, then no buffer
      re-anchors, no divergence ever exceeds the deadband plus 4, and every slewed buffer has exactly k more frames. */
  lemma DriftStaysBounded(a: Asm, first: In, rest: seq<In>)
    requires Cold(a) && TempoOk(a, first) && TemposOk(a, rest)
    requires ConstantTempo(rest, first.tempo) && Smearable([first] + rest) && DriftsSlowly(a, [first] + rest)
    requires Bound(a) <= ReanchorThreshold(a)
    ensures var a1 := Step(a, first).0;
            TemposOk(a1, rest) && NoReanchor(a1, rest) && Bounded(a1, rest)
  {
    hide Step, Tracks, Running, Emitted, TemposOk, Divergence, StampPos, Config.IntervalSamples,
      Config.FrameOffset, Config.IndexAtBeat, Chain, AnchorsInside, Lead;
    var a1 := Step(a, first).0;
    SameTempos(a, a1, rest);
    SameFrames(a, a1, first.tempo);
    assert |([first] + rest)[0].samples| >= SLEW_WINDOW;
    ColdBuffer(a, first);
    ColdKeepsAnchor(a, first);
    var frames := FramesAt(a, first.tempo);
    var s := Silence(AnchorOffset(a, first)) + first.samples;
    var ivs := Opened([OriginIv(a, first)], |s|, frames);
    OpenedConstant([OriginIv(a, first)], |s|, frames);
    assert ([first] + rest)[1..] == rest;
    TailDrifts(a, a1, [first] + rest);
    forall i | 0 <= i < |rest|
      ensures |rest[i].samples| >= SLEW_WINDOW + SLEW_MAX_PER_BUFFER
    {
      assert rest[i] == ([first] + rest)[i + 1];
    }
    if rest != [] {
      FirstDivergence(a, a1, s, ivs, first, rest[0]);
      assert SlowAt(a, [first] + rest, 0);
    }
    DriftRun(a1, s, ivs, rest, first.tempo);
  }

  lemma FirstDivergence(a: Asm, a1: Asm, s: seq<Frame>, ivs: seq<Iv>, first: In, b: In)
    requires a.window > 0 && SameSetup(a, a1) && Tracks(a1, s, ivs)
    requires ivs[0] == OriginIv(a, first) && ConstantFrames(ivs, FramesAt(a, first.tempo)) && b.tempo == first.tempo
    requires |s| == AnchorOffset(a, first) + |first.samples|
    ensures Divergence(a1, b.beat, b.tempo)
         == StampPos(a, b.beat, b.tempo) - StampPos(a, first.beat, first.tempo) - |first.samples|
  {
    hide Tracks, Config.IntervalSamples, Config.FrameOffset, Config.IndexAtBeat, Divergence;
    DivergenceIsPosition(a1, s, ivs, b);
  }
}
