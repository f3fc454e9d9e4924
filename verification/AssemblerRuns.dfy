/** Whole runs of the windowed assembler between anchors: the windows are the stream, in order, each once. */
module AssemblerRuns {
  import opened Common
  import opened Audio
  import opened Interval
  import opened AssemblerModel
  import opened AssemblerStream

  /** One captured buffer: its beat stamp, the tempo it was captured at, its frames. */
  datatype In = In(beat: real, tempo: real, samples: seq<Frame>)

  predicate TempoOk(a: Asm, b: In) {
    LongEnough(FramesAt(a, b.tempo), a.window)
  }

  predicate TemposOk(a: Asm, ins: seq<In>) {
    forall i :: 0 <= i < |ins| ==> TempoOk(a, ins[i])
  }

  lemma SameTempos(a: Asm, b: Asm, ins: seq<In>)
    requires SameSetup(a, b) && TemposOk(a, ins)
    ensures TemposOk(b, ins)
    ensures |ins| > 0 ==> TempoOk(a, ins[0]) && TemposOk(b, ins[1..])
  {
    hide Config.IntervalSamples;
    forall i | 0 <= i < |ins|
      ensures TempoOk(b, ins[i])
    {
      assert TempoOk(a, ins[i]);
    }
  }

  /** The state after one buffer, and the windows it released. */
  function Step(a: Asm, b: In): (r: (Asm, seq<Window>))
    requires Ok(a) && a.window > 0 && TempoOk(a, b)
    ensures Ok(r.0) && SameSetup(a, r.0)
  {
    AddWindows(a, b.beat, b.tempo, b.samples)
  }

  function RunWindows(a: Asm, ins: seq<In>): (r: (Asm, seq<Window>))
    requires Ok(a) && a.window > 0 && TemposOk(a, ins)
    ensures Ok(r.0) && SameSetup(a, r.0)
    decreases |ins|
  {
    if ins == [] then
      (a, [])
    else
      SameTempos(a, a, ins);
      var (a1, w1) := Step(a, ins[0]);
      SameTempos(a, a1, ins);
      var (a2, w2) := RunWindows(a1, ins[1..]);
      (a2, w1 + w2)
  }

  predicate Stays(a: Asm, b: In) {
    a.cur.Some? && StaysContiguous(a, b.beat, b.tempo)
  }

  /** The stamp lies in an interval already left behind: the buffer is counted and dropped. */
  predicate DroppedLate(a: Asm, b: In) {
    a.cur.Some? && !StaysContiguous(a, b.beat, b.tempo) && a.cfg.IndexAtBeat(b.beat) < a.cur.value.index
  }

  /** The buffer does not move the anchor. */
  predicate Keeps(a: Asm, b: In) {
    Stays(a, b) || DroppedLate(a, b)
  }

  /** No buffer of the run re-anchors. */
  predicate NoReanchor(a: Asm, ins: seq<In>)
    requires Ok(a) && a.window > 0 && TemposOk(a, ins)
    decreases |ins|
  {
    if ins == [] then
      true
    else
      SameTempos(a, a, ins);
      var a1 := Step(a, ins[0]).0;
      SameTempos(a, a1, ins);
      Keeps(a, ins[0]) && NoReanchor(a1, ins[1..])
  }

  /** The frames a buffer puts into the stream: itself, micro-slewed if its stamp has drifted out of the deadband; none
      if it is dropped. */
  function LaidBy(a: Asm, b: In): seq<Frame>
    requires Ok(a) && a.cur.Some?
  {
    if Stays(a, b) then Slewed(b.samples, SlewFor(a, Divergence(a, b.beat, b.tempo))) else []
  }

  function Laid(a: Asm, ins: seq<In>): seq<Frame>
    requires Ok(a) && a.window > 0 && TemposOk(a, ins) && NoReanchor(a, ins)
    decreases |ins|
  {
    if ins == [] then
      []
    else
      SameTempos(a, a, ins);
      var a1 := Step(a, ins[0]).0;
      SameTempos(a, a1, ins);
      LaidBy(a, ins[0]) + Laid(a1, ins[1..])
  }

  /** The intervals a run opens: each as long as the tempo of the buffer that reached it makes it. */
  function OpenedBy(a: Asm, ivs: seq<Iv>, len: nat, ins: seq<In>): (r: seq<Iv>)
    requires Ok(a) && a.window > 0 && TemposOk(a, ins) && NoReanchor(a, ins) && |ivs| > 0
    ensures |r| >= |ivs| && r[..|ivs|] == ivs
    decreases |ins|
  {
    if ins == [] then
      ivs
    else
      SameTempos(a, a, ins);
      var a1 := Step(a, ins[0]).0;
      SameTempos(a, a1, ins);
      var len' := len + |LaidBy(a, ins[0])|;
      OpenedBy(a1, Opened(ivs, len', FramesAt(a, ins[0].tempo)), len', ins[1..])
  }

  lemma CountersDoNotMatter(a: Asm, b: Asm, s: seq<Frame>, ivs: seq<Iv>)
    requires Running(a, s, ivs)
    requires b == a.(pendingSlew := b.pendingSlew, slewed := b.slewed, anchored := b.anchored, droppedLate := b.droppedLate)
    ensures Running(b, s, ivs) && Emitted(b, s, ivs) == Emitted(a, s, ivs)
  {
  }

  /** A late buffer emits nothing and changes nothing but its counter. */
  lemma LateStep(a: Asm, b: In)
    requires Ok(a) && a.window > 0 && TempoOk(a, b) && DroppedLate(a, b)
    ensures Step(a, b) == (a.(droppedLate := a.droppedLate + 1), [])
  {
    hide StaysContiguous, FillWindows, FramesAt;
  }

  /** The intervals opened so far already hold the stream. */
  lemma NothingOpened(ivs: seq<Iv>, len: nat, frames: nat)
    requires |ivs| > 0 && frames > 0 && len <= ivs[|ivs| - 1].start + ivs[|ivs| - 1].frames
    ensures Opened(ivs, len, frames) == ivs
  {
  }

  /** A buffer that does not re-anchor only lengthens the stream, or leaves it as it is. */
  lemma ContiguousBuffer(a: Asm, s: seq<Frame>, ivs: seq<Iv>, b: In)
    requires Ok(a) && Running(a, s, ivs) && TempoOk(a, b) && Keeps(a, b)
    ensures var r := Step(a, b); var s' := s + LaidBy(a, b);
            var ivs' := Opened(ivs, |s'|, FramesAt(a, b.tempo));
            Running(r.0, s', ivs') && Emitted(a, s, ivs) + r.1 == Emitted(r.0, s', ivs')
  {
    hide Running, Emitted, Stays, DroppedLate, Step, FramesAt, OkMidCall, Slewed;
    RunningOk(a, s, ivs);
    if Stays(a, b) {
      StayingBuffer(a, s, ivs, b);
    } else {
      LateStep(a, b);
      CountersDoNotMatter(a, Step(a, b).0, s, ivs);
      NothingOpened(ivs, |s|, FramesAt(a, b.tempo));
      assert s + [] == s && Emitted(a, s, ivs) + [] == Emitted(a, s, ivs);
    }
  }

  lemma StayingBuffer(a: Asm, s: seq<Frame>, ivs: seq<Iv>, b: In)
    requires Ok(a) && Running(a, s, ivs) && TempoOk(a, b) && Stays(a, b)
    ensures var r := Step(a, b); var s' := s + LaidBy(a, b);
            var ivs' := Opened(ivs, |s'|, FramesAt(a, b.tempo));
            Running(r.0, s', ivs') && Emitted(a, s, ivs) + r.1 == Emitted(r.0, s', ivs')
  {
    hide Tracks, Anchored, OkMidCall, Emitted, Out, FillWindows, StaysContiguous, Slewed;
    var frames := FramesAt(a, b.tempo);
    hide FramesAt;
    RunningOk(a, s, ivs);
    var p := Place(a, b.beat, b.tempo, true);
    var a1 := SlewCounted(p.asm, |b.samples|);
    CountersDoNotMatter(a, a1, s, ivs);
    var x := LaidBy(a, b);
    assert SlewFor(a, Divergence(a, b.beat, b.tempo)) == p.asm.pendingSlew;
    FillTracks(a1, s, ivs, x, frames);
    RunningOk(a1, s, ivs);
    var r := FillWindows(a1, x, frames);
    assert Step(a, b) == (r.0, [] + r.1);
    if |x| > 0 {
      TracksRunning(r.0, s + x, Opened(ivs, |s + x|, frames));
      TracksEmitted(r.0, s + x, Opened(ivs, |s + x|, frames));
    } else {
      assert s + x == s;
    }
  }

  lemma StepKeepsAnchor(a: Asm, b: In)
    requires Ok(a) && a.window > 0 && TempoOk(a, b) && Keeps(a, b)
    ensures Step(a, b).0.anchored == a.anchored
  {
    if Stays(a, b) {
      FillKeepsAnchor(SlewCounted(Place(a, b.beat, b.tempo, true).asm, |b.samples|), LaidBy(a, b), FramesAt(a, b.tempo));
    } else {
      LateStep(a, b);
    }
  }

  lemma {:induction false} FillKeepsAnchor(a: Asm, x: seq<Frame>, frames: nat)
    requires OkMidCall(a) && a.cur.Some? && a.window > 0 && LongEnough(frames, a.window)
    ensures FillWindows(a, x, frames).0.anchored == a.anchored
    decreases |x|
  {
    if x != [] {
      PassKeepsAnchor(a, x, frames);
      hide Pass;
      FillKeepsAnchor(Pass(a, x, frames).0, Pass(a, x, frames).1, frames);
    }
  }

  lemma PassKeepsAnchor(a: Asm, x: seq<Frame>, frames: nat)
    requires OkMidCall(a) && a.cur.Some? && a.window > 0 && LongEnough(frames, a.window) && x != []
    ensures Pass(a, x, frames).0.anchored == a.anchored
  {
  }

  /** Every run without a re-anchor: what came out before, plus what the run emits, is the longer stream's windows. */
  lemma {:induction false} ContiguousRun(a: Asm, s: seq<Frame>, ivs: seq<Iv>, ins: seq<In>)
    requires Ok(a) && a.window > 0 && TemposOk(a, ins) && NoReanchor(a, ins) && Running(a, s, ivs)
    ensures var r := RunWindows(a, ins); var s' := s + Laid(a, ins); var ivs' := OpenedBy(a, ivs, |s|, ins);
            Running(r.0, s', ivs') && Emitted(a, s, ivs) + r.1 == Emitted(r.0, s', ivs')
    decreases |ins|
  {
    hide Running, Emitted, Step, OkMidCall, StaysContiguous, LaidBy, TemposOk, FramesAt;
    RunningOk(a, s, ivs);
    if ins == [] {
      assert s + [] == s;
      assert Emitted(a, s, ivs) + [] == Emitted(a, s, ivs);
    } else {
      SameTempos(a, a, ins);
      var (a1, w1) := Step(a, ins[0]);
      SameTempos(a, a1, ins);
      var x := LaidBy(a, ins[0]);
      var ivs1 := Opened(ivs, |s + x|, FramesAt(a, ins[0].tempo));
      ContiguousBuffer(a, s, ivs, ins[0]);
      ContiguousRun(a1, s + x, ivs1, ins[1..]);
      var w2 := RunWindows(a1, ins[1..]).1;
      assert Emitted(a, s, ivs) + (w1 + w2) == Emitted(a, s, ivs) + w1 + w2;
      var rest := Laid(a1, ins[1..]);
      assert s + (x + rest) == s + x + rest;
    }
  }

  // ---------------------------------------------------------------- from the first buffer on

  /** No interval open and nothing held: a new assembler, or one after SetConfig or FlushWindows. */
  predicate Cold(a: Asm) {
    Ok(a) && a.window > 0 && a.cur.None? && a.pending.None?
  }

  function AnchorOffset(a: Asm, b: In): nat {
    a.cfg.FrameOffset(b.beat, a.cfg.IndexAtBeat(b.beat), a.rate, b.tempo)
  }

  function FirstIv(a: Asm, b: In): Iv {
    Iv(a.cfg.IndexAtBeat(b.beat), 0, FramesAt(a, b.tempo))
  }

  /** The first buffer lands inside its interval, or the interval is a whole number of windows. A stamp can also
      round to the very end of an interval whose final window is short. */
  predicate AnchorsInside(a: Asm, b: In)
    requires a.window > 0
  {
    AnchorOffset(a, b) < FramesAt(a, b.tempo) || FramesAt(a, b.tempo) % a.window == 0
  }

  /** The first interval that takes frames: the anchor's, or the one after it when the stamp is at its end. */
  function OriginIv(a: Asm, b: In): Iv
    requires a.window > 0
  {
    var iv := FirstIv(a, b);
    if AnchorsInside(a, b) then iv else Iv(iv.index + 1, iv.frames, iv.frames)
  }

  /** What such an anchor at the very end flushes at once: every window of the anchor's interval, zero-padded. */
  function Lead(a: Asm, b: In): seq<Window>
    requires a.window > 0 && TempoOk(a, b)
  {
    if AnchorsInside(a, b) then []
    else Remaining(NewBuf(a.window, FirstIv(a, b).index, FramesAt(a, b.tempo)), a.window)
  }

  /** The stream a cold run lays down: silence up to the anchor's offset, then the frames of every buffer. */
  function StreamOf(a: Asm, first: In, rest: seq<In>): seq<Frame>
    requires Cold(a) && TempoOk(a, first) && TemposOk(Step(a, first).0, rest) && NoReanchor(Step(a, first).0, rest)
  {
    Silence(AnchorOffset(a, first)) + first.samples + Laid(Step(a, first).0, rest)
  }

  function IntervalsOf(a: Asm, first: In, rest: seq<In>): (ivs: seq<Iv>)
    requires Cold(a) && TempoOk(a, first) && TemposOk(Step(a, first).0, rest) && NoReanchor(Step(a, first).0, rest)
    ensures |ivs| > 0 && ivs[0] == OriginIv(a, first)
  {
    var len := AnchorOffset(a, first) + |first.samples|;
    OpenedBy(Step(a, first).0, Opened([OriginIv(a, first)], len, FramesAt(a, first.tempo)), len, rest)
  }

  lemma AnchorHolds(a: Asm, b: In)
    requires Cold(a) && TempoOk(a, b) && AnchorsInside(a, b)
    ensures var a1 := Place(a, b.beat, b.tempo, true).asm; var s := Silence(AnchorOffset(a, b)); var ivs := [FirstIv(a, b)];
            Running(a1, s, ivs) && Emitted(a1, s, ivs) == [] && Place(a, b.beat, b.tempo, true).ok
            && a1.pendingSlew == 0 && SameSetup(a, a1) && Place(a, b.beat, b.tempo, true).windows == []
  {
    hide Config.FrameOffset, Config.IntervalSamples, Config.IndexAtBeat;
    var frames := FramesAt(a, b.tempo);
    var off := AnchorOffset(a, b);
    var a1 := Place(a, b.beat, b.tempo, true).asm;
    assert off <= frames;
    assert Fit(Silence(off)[0..], frames) == Silence(frames);
    assert HoldsTail(a1.cur.value, Silence(off), FirstIv(a, b));
  }

  lemma ColdInside(a: Asm, b: In)
    requires Cold(a) && TempoOk(a, b) && AnchorsInside(a, b) && |b.samples| > 0
    ensures var r := Step(a, b); var s := Silence(AnchorOffset(a, b)) + b.samples;
            var ivs := Opened([FirstIv(a, b)], |s|, FramesAt(a, b.tempo));
            Tracks(r.0, s, ivs) && r.1 == Emitted(r.0, s, ivs)
  {
    hide Running, Tracks, Emitted, Out, OkMidCall, FillWindows, Config.FrameOffset, Config.IntervalSamples, Config.IndexAtBeat;
    AnchorHolds(a, b);
    var p := Place(a, b.beat, b.tempo, true);
    var s0, ivs0 := Silence(AnchorOffset(a, b)), [FirstIv(a, b)];
    RunningOk(p.asm, s0, ivs0);
    CountersDoNotMatter(p.asm, SlewCounted(p.asm, |b.samples|), s0, ivs0);
    var a1 := SlewCounted(p.asm, |b.samples|);
    RunningOk(a1, s0, ivs0);
    FillTracks(a1, s0, ivs0, b.samples, FramesAt(a, b.tempo));
    var r := FillWindows(a1, b.samples, FramesAt(a, b.tempo));
    assert Slewed(b.samples, 0) == b.samples;
    assert Step(a, b) == (r.0, [] + r.1);
    var s := s0 + b.samples;
    TracksEmitted(r.0, s, Opened(ivs0, |s|, FramesAt(a, b.tempo)));
  }

  /** Anchored at the end of an interval whose final window is short, nothing of which is out: the first pass flushes
      it whole, and goes on as from the start of the next interval. */
  lemma EndAnchorFlushes(a: Asm, x: seq<Frame>, index: int, frames: nat)
    requires OkMidCall(a) && a.window > 0 && LongEnough(frames, a.window) && |x| > 0
    requires frames % a.window != 0 && a.pending == None
    requires a.cur == Some(NewBuf(a.window, index, frames)) && a.nextOff == frames
    ensures var t := Turn(a, frames).0; var r := FillWindows(t, x, frames);
            && Tracks(t, Silence(frames), [Iv(index + 1, frames, frames)])
            && FillWindows(a, x, frames) == (r.0, Remaining(a.cur.value, a.window) + r.1)
  {
    hide Tracks, FillWindows, Remaining, OkMidCall, LongEnough;
    EndAnchorTurns(a, index, frames);
    FillsAgree(a, x, frames);
  }

  lemma EndAnchorTurns(a: Asm, index: int, frames: nat)
    requires OkMidCall(a) && a.window > 0 && LongEnough(frames, a.window)
    requires frames % a.window != 0 && a.pending == None
    requires a.cur == Some(NewBuf(a.window, index, frames)) && a.nextOff == frames
    ensures Tracks(Turn(a, frames).0, Silence(frames), [Iv(index + 1, frames, frames)])
    ensures Turn(a, frames).1 == Remaining(a.cur.value, a.window)
  {
    CeilBounds(frames, a.window);
    LessByFactor(1, a.cur.value.total, a.window);
    DivUnique(0, a.window, 0, 0);
    assert Silence(frames)[frames..] == [] && Fit([], frames) == Silence(frames);
  }

  /** Crossing an end first, or as part of the loop, is the same. */
  lemma FillsAgree(a: Asm, x: seq<Frame>, frames: nat)
    requires OkMidCall(a) && a.cur.Some? && a.window > 0 && LongEnough(frames, a.window) && |x| > 0
    ensures var (t, w1) := Turn(a, frames); var r := FillWindows(t, x, frames);
            FillWindows(a, x, frames) == (r.0, w1 + r.1)
  {
    hide Turn, Pass, OkMidCall, FillWindows, LongEnough;
    PassesAgree(a, x, frames);
    var (t, w1) := Turn(a, frames);
    FillUnfolds(a, x, frames);
    FillUnfolds(t, x, frames);
    var p := Pass(t, x, frames);
    var us := FillWindows(p.0, p.1, frames).1;
    assert w1 + p.2 + us == w1 + (p.2 + us);
  }

  lemma FillUnfolds(a: Asm, x: seq<Frame>, frames: nat)
    requires OkMidCall(a) && a.cur.Some? && a.window > 0 && LongEnough(frames, a.window) && |x| > 0
    ensures var p := Pass(a, x, frames); var r := FillWindows(p.0, p.1, frames);
            FillWindows(a, x, frames) == (r.0, p.2 + r.1)
  {
    hide Pass, OkMidCall;
  }

  lemma PassesAgree(a: Asm, x: seq<Frame>, frames: nat)
    requires OkMidCall(a) && a.cur.Some? && a.window > 0 && LongEnough(frames, a.window) && |x| > 0
    ensures var (t, w1) := Turn(a, frames); var r := Pass(t, x, frames);
            Pass(a, x, frames) == (r.0, r.1, w1 + r.2)
  {
    hide Lay, TrimBehind, OkMidCall;
    var (t, w1) := Turn(a, frames);
    TurnInside(t, frames);
    hide Turn;
    assert w1 + [] == w1;
    var (a2, rest) := TrimBehind(t, x);
    if rest != [] {
      var w2 := Lay(a2, rest[..Chunk(a2, |rest|)]).1;
      assert [] + w2 == w2;
    }
  }

  lemma TurnInside(t: Asm, frames: nat)
    requires OkMidCall(t) && t.cur.Some? && t.window > 0 && LongEnough(frames, t.window)
    requires t.nextOff < |t.cur.value.pcm|
    ensures Turn(t, frames) == (t, [])
  {
  }

  lemma ColdAtEnd(a: Asm, b: In)
    requires Cold(a) && TempoOk(a, b) && !AnchorsInside(a, b) && |b.samples| > 0
    ensures var r := Step(a, b); var s := Silence(AnchorOffset(a, b)) + b.samples;
            var ivs := Opened([OriginIv(a, b)], |s|, FramesAt(a, b.tempo));
            Tracks(r.0, s, ivs) && r.1 == Lead(a, b) + Emitted(r.0, s, ivs)
  {
    hide Tracks, Emitted, Out, FillWindows, Turn, Config.FrameOffset, Config.IntervalSamples, Config.IndexAtBeat, Running;
    var frames, index := FramesAt(a, b.tempo), FirstIv(a, b).index;
    var p := Place(a, b.beat, b.tempo, true);
    var a1 := SlewCounted(p.asm, |b.samples|);
    assert AnchorOffset(a, b) == frames;
    EndAnchorFlushes(a1, b.samples, index, frames);
    var t := Turn(a1, frames).0;
    var s0, ivs0 := Silence(frames), [OriginIv(a, b)];
    TracksRunning(t, s0, ivs0);
    TracksEmitted(t, s0, ivs0);
    NothingOut(s0, ivs0[0], a.window);
    FillTracks(t, s0, ivs0, b.samples, frames);
    var r := FillWindows(t, b.samples, frames);
    assert Slewed(b.samples, 0) == b.samples;
    assert Step(a, b) == (r.0, [] + (Lead(a, b) + r.1));
    var s := s0 + b.samples;
    TracksEmitted(r.0, s, Opened(ivs0, |s|, frames));
  }

  lemma NothingOut(s: seq<Frame>, iv: Iv, w: nat)
    requires w > 0 && |s| <= iv.start
    ensures Out(s, [iv], w) == []
  {
    assert [iv][..0] == [];
  }

  /** The first buffer: whatever the anchor flushed at once, then the stream's own windows. */
  lemma ColdBuffer(a: Asm, b: In)
    requires Cold(a) && TempoOk(a, b) && |b.samples| > 0
    ensures var r := Step(a, b); var s := Silence(AnchorOffset(a, b)) + b.samples;
            var ivs := Opened([OriginIv(a, b)], |s|, FramesAt(a, b.tempo));
            Tracks(r.0, s, ivs) && r.1 == Lead(a, b) + Emitted(r.0, s, ivs)
  {
    hide Tracks, Emitted, Step, FramesAt, AnchorOffset, AnchorsInside;
    if AnchorsInside(a, b) {
      ColdInside(a, b);
    } else {
      ColdAtEnd(a, b);
    }
  }

  lemma ColdKeepsAnchor(a: Asm, b: In)
    requires Cold(a) && TempoOk(a, b)
    ensures Step(a, b).0.anchored
  {
    hide Config.IntervalSamples, Config.FrameOffset, Config.IndexAtBeat, FillWindows;
    var p := Place(a, b.beat, b.tempo, true).asm;
    assert p.anchored;
    FillKeepsAnchor(SlewCounted(p, |b.samples|), Slewed(b.samples, p.pendingSlew), FramesAt(a, b.tempo));
  }

  lemma {:induction false} TracksForever(a: Asm, s: seq<Frame>, ivs: seq<Iv>, ins: seq<In>)
    requires Ok(a) && a.window > 0 && TemposOk(a, ins) && NoReanchor(a, ins) && Tracks(a, s, ivs)
    ensures Tracks(RunWindows(a, ins).0, s + Laid(a, ins), OpenedBy(a, ivs, |s|, ins))
    decreases |ins|
  {
    hide Running, Step, OkMidCall, StaysContiguous, LaidBy, TemposOk, FramesAt, Tracks;
    TracksRunning(a, s, ivs);
    if ins == [] {
      assert s + [] == s;
    } else {
      SameTempos(a, a, ins);
      var a1 := Step(a, ins[0]).0;
      SameTempos(a, a1, ins);
      var x := LaidBy(a, ins[0]);
      var ivs1 := Opened(ivs, |s + x|, FramesAt(a, ins[0].tempo));
      BufferKeepsTracking(a, s, ivs, ins[0]);
      TracksForever(a1, s + x, ivs1, ins[1..]);
      var rest := Laid(a1, ins[1..]);
      assert s + (x + rest) == s + x + rest;
    }
  }

  lemma BufferKeepsTracking(a: Asm, s: seq<Frame>, ivs: seq<Iv>, b: In)
    requires Ok(a) && Tracks(a, s, ivs) && TempoOk(a, b) && Keeps(a, b)
    ensures var s' := s + LaidBy(a, b);
            Tracks(Step(a, b).0, s', Opened(ivs, |s'|, FramesAt(a, b.tempo)))
  {
    hide Tracks, Stays, DroppedLate, Step, FramesAt, OkMidCall, Slewed;
    TracksRunning(a, s, ivs);
    if Stays(a, b) {
      StayingBufferTracks(a, s, ivs, b);
    } else {
      LateStep(a, b);
      TracksIgnoresCounters(a, Step(a, b).0, s, ivs);
      NothingOpened(ivs, |s|, FramesAt(a, b.tempo));
      assert s + [] == s;
    }
  }

  lemma StayingBufferTracks(a: Asm, s: seq<Frame>, ivs: seq<Iv>, b: In)
    requires Ok(a) && Tracks(a, s, ivs) && TempoOk(a, b) && Stays(a, b)
    ensures var s' := s + LaidBy(a, b);
            Tracks(Step(a, b).0, s', Opened(ivs, |s'|, FramesAt(a, b.tempo)))
  {
    hide OkMidCall, Emitted, Out, FillWindows, StaysContiguous, Slewed, Holds, Config.FrameOffset, Config.IntervalSamples;
    TracksRunning(a, s, ivs);
    var p := Place(a, b.beat, b.tempo, true);
    var a1 := SlewCounted(p.asm, |b.samples|);
    CountersDoNotMatter(a, a1, s, ivs);
    var x := LaidBy(a, b);
    assert Tracks(a1, s, ivs) by {
      TracksIgnoresCounters(a, a1, s, ivs);
    }
    FillTracks(a1, s, ivs, x, FramesAt(a, b.tempo));
    if x == [] {
      assert s + x == s;
    }
  }

  lemma TracksIgnoresCounters(a: Asm, b: Asm, s: seq<Frame>, ivs: seq<Iv>)
    requires Tracks(a, s, ivs)
    requires b == a.(pendingSlew := b.pendingSlew, slewed := b.slewed, anchored := b.anchored, droppedLate := b.droppedLate)
    ensures Tracks(b, s, ivs)
  {
  }

  lemma TracksSpan(a: Asm, s: seq<Frame>, ivs: seq<Iv>)
    requires Tracks(a, s, ivs)
    ensures Chain(ivs, a.window)
    ensures ivs[|ivs| - 1].start <= |s| <= ivs[|ivs| - 1].start + ivs[|ivs| - 1].frames
  {
  }

  /** THE STREAM THEOREM. In any run from the first buffer on in which nothing re-anchors, whatever the tempos and
      wherever the first stamp falls, the windows that come out are the stream's own windows on the chain of opened
      intervals, after the zero-padded interval that an anchor at an interval's end flushes at once. */
  lemma WindowsAreTheStream(a: Asm, first: In, rest: seq<In>)
    requires Cold(a) && TempoOk(a, first) && |first.samples| > 0
    requires TemposOk(Step(a, first).0, rest) && NoReanchor(Step(a, first).0, rest)
    ensures var r := RunWindows(Step(a, first).0, rest); var s := StreamOf(a, first, rest);
            var ivs := IntervalsOf(a, first, rest);
            && Tracks(r.0, s, ivs)
            && Step(a, first).1 + r.1 == Lead(a, first) + Out(s, ivs, a.window)
            && Chain(ivs, a.window)
            && ivs[|ivs| - 1].start <= |s| <= ivs[|ivs| - 1].start + ivs[|ivs| - 1].frames
  {
    hide Running, Emitted, Out, OkMidCall, NoReanchor, TemposOk, FramesAt, Laid, OpenedBy, Step,
      RunWindows, Tracks, Chain, AnchorOffset, OriginIv, Lead;
    ColdBuffer(a, first);
    var (a1, w1) := Step(a, first);
    var s1 := Silence(AnchorOffset(a, first)) + first.samples;
    var ivs1 := Opened([OriginIv(a, first)], |s1|, FramesAt(a, first.tempo));
    TracksRunning(a1, s1, ivs1);
    ContiguousRun(a1, s1, ivs1, rest);
    TracksForever(a1, s1, ivs1, rest);
    var (a2, w2) := RunWindows(a1, rest);
    var s, ivs := StreamOf(a, first, rest), IntervalsOf(a, first, rest);
    assert s == s1 + Laid(a1, rest);
    assert ivs == OpenedBy(a1, ivs1, |s1|, rest);
    TracksEmitted(a2, s, ivs);
    TracksSpan(a2, s, ivs);
    assert w1 + w2 == Lead(a, first) + (Emitted(a1, s1, ivs1) + w2);
  }
}
