/** Streaming refines batch: fed the same buffers, AddWindows and Add carry the same audio interval by interval. */
module AssemblerBatch {
  import opened Common
  import opened Audio
  import opened Interval
  import opened AssemblerModel
  import opened AssemblerStream
  import opened AssemblerRuns
  import opened AssemblerOrder

  /** A batch assembler that has laid down s and opened ivs. */
  ghost predicate BatchTracks(a: Asm, s: seq<Frame>, ivs: seq<Iv>) {
    && Ok(a) && a.cur.Some? && Chain(ivs, a.window)
    && HoldsTail(a.cur.value, s, ivs[|ivs| - 1])
    && a.nextOff == |s| - ivs[|ivs| - 1].start
  }

  /** The batch result for an interval of the stream, whatever was recorded as its coverage. */
  predicate IsCompletion(c: Completed, s: seq<Frame>, iv: Iv) {
    && c.index == iv.index && c.frames == iv.frames
    && iv.start + iv.frames <= |s| && c.samples == s[iv.start..iv.start + iv.frames]
  }

  lemma IsCompletionStable(c: Completed, s: seq<Frame>, x: seq<Frame>, iv: Iv)
    requires IsCompletion(c, s, iv)
    ensures IsCompletion(c, s + x, iv)
  {
    assert (s + x)[iv.start..iv.start + iv.frames] == s[iv.start..iv.start + iv.frames];
  }

  lemma BatchWrite(a: Asm, s: seq<Frame>, ivs: seq<Iv>, x: seq<Frame>)
    requires BatchTracks(a, s, ivs) && |x| > 0 && a.nextOff + |x| <= |a.cur.value.pcm|
    ensures Ok(Write(a, x)) && BatchTracks(Write(a, x), s + x, ivs)
  {
    var iv, b := ivs[|ivs| - 1], a.cur.value;
    assert (s + x)[iv.start..] == s[iv.start..] + x;
    assert Overwrite(b.pcm, a.nextOff, x) == Fit((s + x)[iv.start..], iv.frames);
  }

  function BatchTurned(a: Asm, frames: nat): Asm
    requires a.cur.Some? && LongEnough(frames, a.window)
  {
    a.(cur := Some(NewBuf(a.window, a.cur.value.index + 1, frames)), nextOff := 0)
  }

  lemma BatchTurn(a: Asm, s: seq<Frame>, ivs: seq<Iv>, frames: nat)
    requires BatchTracks(a, s, ivs) && LongEnough(frames, a.window) && a.nextOff == |a.cur.value.pcm|
    ensures BatchTracks(BatchTurned(a, frames), s, ivs + [NextIv(ivs, frames)])
    ensures IsCompletion(Finish(a.cur.value), s, ivs[|ivs| - 1])
  {
    ChainGrows(ivs, a.window, frames);
    var iv := ivs[|ivs| - 1];
    assert a.cur.value.pcm == s[iv.start..iv.start + iv.frames];
    assert Fit(s[|s|..], frames) == Silence(frames);
  }

  /** Frames that fit the current interval are just written. */
  lemma FillFits(a: Asm, s: seq<Frame>, ivs: seq<Iv>, x: seq<Frame>, frames: nat, done: Option<Completed>)
    requires BatchTracks(a, s, ivs) && LongEnough(frames, a.window) && a.nextOff + |x| <= |a.cur.value.pcm|
    ensures var r := FillBatch(a, x, frames, done);
            BatchTracks(r.0, s + x, ivs) && r.1 == done
  {
    if x == [] {
      assert s + x == s;
    } else {
      BatchWrite(a, s, ivs, x);
      assert x[..|x|] == x && x[|x|..] == [];
      hide BatchTracks, Write;
      assert FillBatch(a, x, frames, done) == FillBatch(Write(a, x), [], frames, done);
    }
  }

  lemma FillFromEnd(a: Asm, s: seq<Frame>, ivs: seq<Iv>, x: seq<Frame>, frames: nat)
    requires BatchTracks(a, s, ivs) && LongEnough(frames, a.window) && 0 < |x| <= frames
    requires a.nextOff == |a.cur.value.pcm|
    ensures var r := FillBatch(a, x, frames, None); var ivs' := ivs + [NextIv(ivs, frames)];
            BatchTracks(r.0, s + x, ivs') && r.1.Some? && IsCompletion(r.1.value, s, ivs[|ivs| - 1])
  {
    BatchTurn(a, s, ivs, frames);
    var a1 := BatchTurned(a, frames);
    var done := Some(Finish(a.cur.value));
    FillFits(a1, s, ivs + [NextIv(ivs, frames)], x, frames, done);
    assert FillBatch(a, x, frames, None) == FillBatch(a1, x, frames, done);
  }

  /** A buffer no longer than an interval closes at most one interval, and reports it. */
  lemma FillOne(a: Asm, s: seq<Frame>, ivs: seq<Iv>, x: seq<Frame>, frames: nat)
    requires BatchTracks(a, s, ivs) && LongEnough(frames, a.window) && |x| <= frames
    ensures var r := FillBatch(a, x, frames, None); var ivs' := Opened(ivs, |s + x|, frames);
            && BatchTracks(r.0, s + x, ivs')
            && |ivs| <= |ivs'| <= |ivs| + 1
            && (r.1.Some? <==> |ivs'| == |ivs| + 1)
            && (r.1.Some? ==> IsCompletion(r.1.value, s + x, ivs[|ivs| - 1]))
  {
    hide OkMidCall;
    var room := |a.cur.value.pcm| - a.nextOff;
    if |x| <= room {
      FillFits(a, s, ivs, x, frames, None);
    } else if room == 0 {
      FillFromEnd(a, s, ivs, x, frames);
      IsCompletionStable(FillBatch(a, x, frames, None).1.value, s, x, ivs[|ivs| - 1]);
    } else {
      var head, rest := x[..room], x[room..];
      BatchWrite(a, s, ivs, head);
      var a1 := Write(a, head);
      assert s + head + rest == s + x;
      FillFromEnd(a1, s + head, ivs, rest, frames);
      IsCompletionStable(FillBatch(a1, rest, frames, None).1.value, s + head, rest, ivs[|ivs| - 1]);
      assert FillBatch(a, x, frames, None) == FillBatch(a1, rest, frames, None);
    }
  }

  // ---------------------------------------------------------------- side by side

  /** The batch assembler's run: the intervals Add reported, in order. */
  function RunBatch(a: Asm, ins: seq<In>): (r: (Asm, seq<Completed>))
    requires Ok(a) && TemposOk(a, ins)
    ensures Ok(r.0) && SameSetup(a, r.0)
    decreases |ins|
  {
    if ins == [] then
      (a, [])
    else
      SameTempos(a, a, ins);
      var (a1, c1) := Add(a, ins[0].beat, ins[0].tempo, ins[0].samples);
      SameTempos(a, a1, ins);
      var (a2, c2) := RunBatch(a1, ins[1..]);
      (a2, (if c1.Some? then [c1.value] else []) + c2)
  }

  /** Same grid, same anchoring; one streams windows of its own size, the other does not. */
  predicate Paired(w: Asm, b: Asm) {
    w.cfg == b.cfg && w.rate == b.rate && w.window > 0 && b.window == 0 && w.anchored == b.anchored
  }

  /** Every buffer, as laid down, is no longer than an interval at its tempo. */
  predicate NoLongerThanIntervals(a: Asm, ins: seq<In>)
    requires Ok(a) && a.window > 0 && TemposOk(a, ins) && NoReanchor(a, ins)
    decreases |ins|
  {
    if ins == [] then
      true
    else
      SameTempos(a, a, ins);
      var a1 := Step(a, ins[0]).0;
      SameTempos(a, a1, ins);
      |LaidBy(a, ins[0])| <= FramesAt(a, ins[0].tempo) && NoLongerThanIntervals(a1, ins[1..])
  }

  lemma PairedTempos(w: Asm, b: Asm, ins: seq<In>)
    requires Paired(w, b) && TemposOk(w, ins)
    ensures TemposOk(b, ins)
  {
    hide Config.IntervalSamples;
    forall i | 0 <= i < |ins|
      ensures TempoOk(b, ins[i])
    {
      assert TempoOk(w, ins[i]);
    }
  }

  /** Both assemblers read the same divergence off a stamp. */
  lemma PairedDivergence(w: Asm, b: Asm, s: seq<Frame>, ivs: seq<Iv>, i: In)
    requires Paired(w, b) && Tracks(w, s, ivs) && BatchTracks(b, s, ivs)
    ensures Divergence(w, i.beat, i.tempo) == Divergence(b, i.beat, i.tempo)
    ensures Stays(w, i) == Stays(b, i) && DroppedLate(w, i) == DroppedLate(b, i)
    ensures forall div :: w.pendingSlew == b.pendingSlew ==> SlewFor(w, div) == SlewFor(b, div)
  {
    hide OkMidCall, Config.IntervalSamples, Config.FrameOffset, Config.IndexAtBeat;
  }

  lemma BatchBuffer(b: Asm, s: seq<Frame>, ivs: seq<Iv>, i: In)
    requires BatchTracks(b, s, ivs) && TempoOk(b, i) && Keeps(b, i)
    requires |LaidBy(b, i)| <= FramesAt(b, i.tempo)
    ensures var r := Add(b, i.beat, i.tempo, i.samples); var s' := s + LaidBy(b, i);
            var ivs' := Opened(ivs, |s'|, FramesAt(b, i.tempo));
            && BatchTracks(r.0, s', ivs')
            && r.0.anchored == b.anchored && SameSetup(b, r.0)
            && |ivs| <= |ivs'| <= |ivs| + 1
            && (r.1.Some? <==> |ivs'| == |ivs| + 1)
            && (r.1.Some? ==> IsCompletion(r.1.value, s', ivs[|ivs| - 1]))
  {
    hide BatchTracks, Stays, DroppedLate, FramesAt, Slewed, Add, IsCompletion;
    if Stays(b, i) {
      StayingBatchBuffer(b, s, ivs, i);
    } else {
      LateBatchBuffer(b, s, ivs, i);
      assert s + [] == s;
    }
  }

  lemma LateBatchBuffer(b: Asm, s: seq<Frame>, ivs: seq<Iv>, i: In)
    requires BatchTracks(b, s, ivs) && TempoOk(b, i) && DroppedLate(b, i)
    ensures var r := Add(b, i.beat, i.tempo, i.samples);
            && BatchTracks(r.0, s, ivs) && r.1 == None && r.0.anchored == b.anchored
            && Opened(ivs, |s|, FramesAt(b, i.tempo)) == ivs
  {
    hide Config.IntervalSamples, Config.FrameOffset, Config.IndexAtBeat, StaysContiguous, FillBatch;
    NothingOpened(ivs, |s|, FramesAt(b, i.tempo));
  }

  lemma StayingBatchBuffer(b: Asm, s: seq<Frame>, ivs: seq<Iv>, i: In)
    requires BatchTracks(b, s, ivs) && TempoOk(b, i) && Stays(b, i)
    requires |LaidBy(b, i)| <= FramesAt(b, i.tempo)
    ensures var r := Add(b, i.beat, i.tempo, i.samples); var s' := s + LaidBy(b, i);
            var ivs' := Opened(ivs, |s'|, FramesAt(b, i.tempo));
            && BatchTracks(r.0, s', ivs')
            && r.0.anchored == b.anchored && SameSetup(b, r.0)
            && |ivs| <= |ivs'| <= |ivs| + 1
            && (r.1.Some? <==> |ivs'| == |ivs| + 1)
            && (r.1.Some? ==> IsCompletion(r.1.value, s', ivs[|ivs| - 1]))
  {
    hide Config.IntervalSamples, Config.FrameOffset, Config.IndexAtBeat, Slewed, FillBatch, Divergence, StaysContiguous;
    var p := Place(b, i.beat, i.tempo, false);
    var b1 := SlewCounted(p.asm, |i.samples|);
    assert Ok(b1) && BatchTracks(b1, s, ivs);
    var x := LaidBy(b, i);
    assert Slewed(i.samples, p.asm.pendingSlew) == x;
    FillOne(b1, s, ivs, x, FramesAt(b, i.tempo));
  }

  ghost predicate CompletionsOf(cs: seq<Completed>, s: seq<Frame>, ivs: seq<Iv>, from: nat) {
    && from <= |ivs| && |cs| == |ivs| - from
    && forall j :: 0 <= j < |cs| ==> IsCompletion(cs[j], s, ivs[from + j])
  }

  /** One buffer, both ways. */
  lemma PairedBuffer(w: Asm, b: Asm, s: seq<Frame>, ivs: seq<Iv>, i: In)
    requires Ok(w) && Tracks(w, s, ivs) && BatchTracks(b, s, ivs) && Paired(w, b)
    requires TempoOk(w, i) && TempoOk(b, i) && Keeps(w, i)
    requires |LaidBy(w, i)| <= FramesAt(w, i.tempo)
    ensures var r := Add(b, i.beat, i.tempo, i.samples); var s' := s + LaidBy(w, i);
            var ivs' := Opened(ivs, |s'|, FramesAt(w, i.tempo));
            && Tracks(Step(w, i).0, s', ivs') && BatchTracks(r.0, s', ivs') && Paired(Step(w, i).0, r.0)
            && |ivs| <= |ivs'| <= |ivs| + 1
            && (r.1.Some? <==> |ivs'| == |ivs| + 1)
            && (r.1.Some? ==> IsCompletion(r.1.value, s', ivs[|ivs| - 1]))
  {
    hide Tracks, BatchTracks, Config.IntervalSamples, Slewed, Divergence, Stays, DroppedLate, Step, Add, OkMidCall;
    TracksRunning(w, s, ivs);
    BatchOk(b, s, ivs);
    PairedDivergence(w, b, s, ivs, i);
    assert LaidBy(w, i) == LaidBy(b, i);
    assert FramesAt(w, i.tempo) == FramesAt(b, i.tempo);
    BufferKeepsTracking(w, s, ivs, i);
    StepKeepsAnchor(w, i);
    BatchBuffer(b, s, ivs, i);
  }

  lemma BatchOk(b: Asm, s: seq<Frame>, ivs: seq<Iv>)
    requires BatchTracks(b, s, ivs)
    ensures Ok(b) && b.cur.Some? && |ivs| > 0
  {
  }

  /** One buffer off the front of both runs. */
  lemma RunsUnroll(w: Asm, b: Asm, ivs: seq<Iv>, len: nat, ins: seq<In>)
    requires Ok(w) && w.window > 0 && Ok(b) && TemposOk(w, ins) && TemposOk(b, ins) && NoReanchor(w, ins)
    requires NoLongerThanIntervals(w, ins)
    requires ins != [] && |ivs| > 0
    ensures TempoOk(w, ins[0]) && TempoOk(b, ins[0]) && Keeps(w, ins[0]) && |LaidBy(w, ins[0])| <= FramesAt(w, ins[0].tempo)
    ensures var w1 := Step(w, ins[0]).0; var (b1, c1) := Add(b, ins[0].beat, ins[0].tempo, ins[0].samples);
            var x := LaidBy(w, ins[0]); var ivs1 := Opened(ivs, len + |x|, FramesAt(w, ins[0].tempo));
            && TemposOk(w1, ins[1..]) && TemposOk(b1, ins[1..]) && NoReanchor(w1, ins[1..]) && NoLongerThanIntervals(w1, ins[1..])
            && Laid(w, ins) == x + Laid(w1, ins[1..])
            && OpenedBy(w, ivs, len, ins) == OpenedBy(w1, ivs1, len + |x|, ins[1..])
            && RunBatch(b, ins) == (RunBatch(b1, ins[1..]).0, (if c1.Some? then [c1.value] else []) + RunBatch(b1, ins[1..]).1)
  {
    hide Step, Add, OkMidCall, Keeps, LaidBy, TemposOk, FramesAt, Opened;
    SameTempos(w, w, ins);
    SameTempos(b, b, ins);
    SameTempos(w, Step(w, ins[0]).0, ins);
    SameTempos(b, Add(b, ins[0].beat, ins[0].tempo, ins[0].samples).0, ins);
  }

  lemma RunsEmpty(w: Asm, b: Asm, s: seq<Frame>, ivs: seq<Iv>)
    requires Ok(w) && w.window > 0 && Ok(b) && TemposOk(w, []) && TemposOk(b, []) && NoReanchor(w, []) && |ivs| > 0
    ensures s + Laid(w, []) == s && OpenedBy(w, ivs, |s|, []) == ivs && RunBatch(b, []) == (b, [])
    ensures CompletionsOf([], s, ivs[..|ivs| - 1], |ivs| - 1)
  {
    assert s + [] == s;
  }

  /** The batch run reports, in order, every interval the stream has moved past. */
  lemma {:induction false} PairedRun(w: Asm, b: Asm, s: seq<Frame>, ivs: seq<Iv>, ins: seq<In>)
    requires Ok(w) && Tracks(w, s, ivs) && BatchTracks(b, s, ivs) && Paired(w, b)
    requires TemposOk(w, ins) && NoReanchor(w, ins) && NoLongerThanIntervals(w, ins)
    ensures Ok(b) && TemposOk(b, ins)
    ensures var s' := s + Laid(w, ins); var ivs' := OpenedBy(w, ivs, |s|, ins); var r := RunBatch(b, ins);
            && |ivs'| >= |ivs| > 0
            && BatchTracks(r.0, s', ivs')
            && CompletionsOf(r.1, s', ivs'[..|ivs'| - 1], |ivs| - 1)
    decreases |ins|
  {
    hide Tracks, BatchTracks, Step, Add, OkMidCall, StaysContiguous, LaidBy, TemposOk, FramesAt, IsCompletion, Chain,
      Laid, OpenedBy, RunBatch, NoReanchor, NoLongerThanIntervals, CompletionsOf, Opened;
    TracksRunning(w, s, ivs);
    BatchOk(b, s, ivs);
    PairedTempos(w, b, ins);
    if ins == [] {
      RunsEmpty(w, b, s, ivs);
    } else {
      var i := ins[0];
      RunsUnroll(w, b, ivs, |s|, ins);
      PairedBuffer(w, b, s, ivs, i);
      var w1 := Step(w, i).0;
      var (b1, c1) := Add(b, i.beat, i.tempo, i.samples);
      var x := LaidBy(w, i);
      var ivs1 := Opened(ivs, |s + x|, FramesAt(w, i.tempo));
      PairedRun(w1, b1, s + x, ivs1, ins[1..]);
      Continue(c1, RunBatch(b1, ins[1..]).1, s + x, Laid(w1, ins[1..]), ivs, ivs1, OpenedBy(w, ivs, |s|, ins));
      assert s + (x + Laid(w1, ins[1..])) == s + x + Laid(w1, ins[1..]);
    }
  }

  /** The first buffer's completion, if any, in front of those that follow. */
  lemma Continue(c: Option<Completed>, cs: seq<Completed>, s: seq<Frame>, rest: seq<Frame>, ivs: seq<Iv>, ivs1: seq<Iv>, ivs': seq<Iv>)
    requires 0 < |ivs| <= |ivs1| <= |ivs'| && ivs1[..|ivs|] == ivs && ivs'[..|ivs1|] == ivs1
    requires |ivs1| == |ivs| + (if c.Some? then 1 else 0)
    requires c.Some? ==> IsCompletion(c.value, s, ivs[|ivs| - 1])
    requires CompletionsOf(cs, s + rest, ivs'[..|ivs'| - 1], |ivs1| - 1)
    ensures CompletionsOf((if c.Some? then [c.value] else []) + cs, s + rest, ivs'[..|ivs'| - 1], |ivs| - 1)
  {
    hide IsCompletion;
    if c.Some? {
      assert ivs'[..|ivs1|][|ivs| - 1] == ivs1[..|ivs|][|ivs| - 1] == ivs[|ivs| - 1];
      IsCompletionStable(c.value, s, rest, ivs[|ivs| - 1]);
      CompletionsCons(c.value, cs, s + rest, ivs'[..|ivs'| - 1], |ivs| - 1);
    } else {
      assert [] + cs == cs;
    }
  }

  lemma CompletionsCons(c: Completed, cs: seq<Completed>, s: seq<Frame>, ivs: seq<Iv>, from: nat)
    requires from < |ivs| && IsCompletion(c, s, ivs[from]) && CompletionsOf(cs, s, ivs, from + 1)
    ensures CompletionsOf([c] + cs, s, ivs, from)
  {
    var r := [c] + cs;
    forall j | 0 <= j < |r|
      ensures IsCompletion(r[j], s, ivs[from + j])
    {
      if j > 0 {
        assert r[j] == cs[j - 1];
        assert IsCompletion(cs[j - 1], s, ivs[from + 1 + (j - 1)]);
      }
    }
  }

  // ---------------------------------------------------------------- the windows of one interval, joined

  function Joined(ws: seq<Window>): seq<Frame>
    decreases |ws|
  {
    if ws == [] then [] else Joined(ws[..|ws| - 1]) + ws[|ws| - 1].samples
  }

  function OfInterval(ws: seq<Window>, index: int): seq<Window>
    decreases |ws|
  {
    if ws == [] then
      []
    else
      var before := OfInterval(ws[..|ws| - 1], index);
      if ws[|ws| - 1].interval == index then before + [ws[|ws| - 1]] else before
  }

  lemma {:induction false} OfIntervalJoin(u: seq<Window>, v: seq<Window>, index: int)
    ensures OfInterval(u + v, index) == OfInterval(u, index) + OfInterval(v, index)
    decreases |v|
  {
    if v == [] {
      assert u + v == u;
    } else {
      assert (u + v)[..|u + v| - 1] == u + v[..|v| - 1];
      OfIntervalJoin(u, v[..|v| - 1], index);
    }
  }

  lemma {:induction false} OfIntervalAll(ws: seq<Window>, index: int, own: int)
    requires forall m :: 0 <= m < |ws| ==> ws[m].interval == own
    ensures OfInterval(ws, index) == if own == index then ws else []
    decreases |ws|
  {
    if ws != [] {
      OfIntervalAll(ws[..|ws| - 1], index, own);
      assert ws == ws[..|ws| - 1] + [ws[|ws| - 1]];
    }
  }

  lemma {:induction false} IndicesIncrease(ivs: seq<Iv>, w: nat, i: nat, j: nat)
    requires Chain(ivs, w) && i < j < |ivs|
    ensures ivs[i].index < ivs[j].index
    decreases j
  {
    if i < j - 1 {
      IndicesIncrease(ivs, w, i, j - 1);
    }
  }

  /** The emitted windows that carry an interval's index are exactly its own due windows. */
  lemma {:induction false} OutOfInterval(s: seq<Frame>, ivs: seq<Iv>, w: nat, j: nat)
    requires w > 0 && Chain(ivs, w) && j < |ivs|
    ensures OfInterval(Out(s, ivs, w), ivs[j].index) == IvWindows(s, ivs[j], w, Due(|s|, ivs[j], w))
    decreases |ivs|
  {
    hide IvWindows, Due, Out, OfInterval, Chain;
    var n := |ivs|;
    var last, index := ivs[n - 1], ivs[j].index;
    OutSplits(s, ivs, w);
    OwnOnly(s, ivs, w, index);
    if j < n - 1 {
      ChainPrefix(ivs, w, n - 1);
      assert ivs[..n - 1][j] == ivs[j];
      OutOfInterval(s, ivs[..n - 1], w, j);
      IndicesIncrease(ivs, w, j, n - 1);
    } else {
      var before := ivs[..n - 1];
      forall m | 0 <= m < |before|
        ensures before[m].index != index
      {
        IndicesIncrease(ivs, w, m, n - 1);
      }
      NoneBefore(s, before, w, index);
    }
  }

  /** The last interval adds its own windows, or nothing. */
  lemma OwnOnly(s: seq<Frame>, ivs: seq<Iv>, w: nat, index: int)
    requires w > 0 && |ivs| > 0
    ensures var last := ivs[|ivs| - 1]; var own := IvWindows(s, last, w, Due(|s|, last, w));
            OfInterval(Out(s, ivs, w), index)
            == OfInterval(Out(s, ivs[..|ivs| - 1], w), index) + (if last.index == index then own else [])
  {
    hide IvWindows, Due, Out, OfInterval;
    var last := ivs[|ivs| - 1];
    var own := IvWindows(s, last, w, Due(|s|, last, w));
    OutSplits(s, ivs, w);
    OwnIndex(s, last, w, Due(|s|, last, w));
    OfIntervalAll(own, index, last.index);
    OfIntervalJoin(Out(s, ivs[..|ivs| - 1], w), own, index);
  }

  lemma {:induction false} NoneBefore(s: seq<Frame>, ivs: seq<Iv>, w: nat, index: int)
    requires w > 0 && forall m :: 0 <= m < |ivs| ==> ivs[m].index != index
    ensures OfInterval(Out(s, ivs, w), index) == []
    decreases |ivs|
  {
    hide IvWindows, Due;
    if ivs != [] {
      OwnOnly(s, ivs, w, index);
      NoneBefore(s, ivs[..|ivs| - 1], w, index);
    }
  }

  lemma OwnIndex(s: seq<Frame>, iv: Iv, w: nat, n: nat)
    requires w > 0
    ensures forall m :: 0 <= m < |IvWindows(s, iv, w, n)| ==> IvWindows(s, iv, w, n)[m].interval == iv.index
  {
  }

  lemma {:induction false} JoinedWindows(s: seq<Frame>, iv: Iv, w: nat, n: nat)
    requires w > 0 && iv.start + n * w <= |s|
    ensures Joined(IvWindows(s, iv, w, n)) == s[iv.start..iv.start + n * w]
    decreases n
  {
    hide StreamWindow, IvWindows;
    if n > 0 {
      var m := (n - 1) * w;
      assert n * w == m + w;
      var ws := IvWindows(s, iv, w, n);
      IvWindowsPrefix(s, iv, w, n);
      JoinedWindows(s, iv, w, n - 1);
      StreamWindowSamples(s, iv, w, n - 1, m);
      JoinedLast(s, iv.start, m, w);
    } else {
      assert n * w == 0;
    }
  }

  lemma IvWindowsPrefix(s: seq<Frame>, iv: Iv, w: nat, n: nat)
    requires w > 0 && n > 0
    ensures IvWindows(s, iv, w, n)[..n - 1] == IvWindows(s, iv, w, n - 1)
    ensures IvWindows(s, iv, w, n)[n - 1] == StreamWindow(s, iv, w, n - 1)
  {
    hide StreamWindow;
  }

  lemma StreamWindowSamples(s: seq<Frame>, iv: Iv, w: nat, k: nat, m: nat)
    requires w > 0 && m == k * w && iv.start + m + w <= |s|
    ensures StreamWindow(s, iv, w, k).samples == s[iv.start + m..iv.start + m + w]
  {
  }

  lemma JoinedLast(s: seq<Frame>, from: nat, m: nat, w: nat)
    requires from + m + w <= |s|
    ensures s[from..from + m] + s[from + m..from + m + w] == s[from..from + (m + w)]
  {
  }

  /** A batch result, as the streamed windows carry it: all of the interval's windows are out, or all but a final window
      that overhangs the stream so far; joined, they are the batch samples, as far as they reach. */
  ghost predicate Refined(ws: seq<Window>, c: Completed, s: seq<Frame>, iv: Iv, w: nat, flushed: bool)
    requires w > 0
  {
    var own := OfInterval(ws, iv.index);
    var total := Ceil(iv.frames, w);
    && IsCompletion(c, s, iv)
    && |own| == (if flushed || !Held(|s|, iv, w) then total else total - 1)
    && (|own| == total ==> |Joined(own)| >= iv.frames)
    && Agree(Joined(own), c.samples, iv.frames)
  }

  /** Equal as far as both of them and the first n frames go. */
  predicate Agree(u: seq<Frame>, v: seq<Frame>, n: nat)
  {
    forall k :: 0 <= k < |u| && k < |v| && k < n ==> u[k] == v[k]
  }

  /** STREAMING REFINES BATCH. A windowed and a batch assembler on one grid, fed the same buffers without a
      re-anchor, none longer than an interval, wherever the first stamp falls: Add reports exactly the intervals the
      stream has moved past, and each one's samples are that interval's windows, joined and cut at its frame count. */
  lemma StreamingRefinesBatch(w: Asm, b: Asm, first: In, rest: seq<In>)
    requires Cold(w) && TempoOk(w, first) && 0 < |first.samples| <= FramesAt(w, first.tempo)
    requires TemposOk(Step(w, first).0, rest) && NoReanchor(Step(w, first).0, rest)
    requires NoLongerThanIntervals(Step(w, first).0, rest)
    requires Ok(b) && b.cur.None? && b.cfg == w.cfg && b.rate == w.rate && b.window == 0 && TempoOk(b, first)
    ensures TemposOk(Add(b, first.beat, first.tempo, first.samples).0, rest)
    ensures var s := StreamOf(w, first, rest); var ivs := WithAnchors(w, first, IntervalsOf(w, first, rest));
            var ws := Step(w, first).1 + RunWindows(Step(w, first).0, rest).1;
            var (b1, c) := Add(b, first.beat, first.tempo, first.samples);
            var cs := (if c.Some? then [c.value] else []) + RunBatch(b1, rest).1;
            && |cs| == |ivs| - 1
            && forall j :: 0 <= j < |cs| ==>
                 Refined(ws, cs[j], s, ivs[j], w.window, j == 0 && !AnchorsInside(w, first))
  {
    hide Step, Add, Tracks, BatchTracks, NoReanchor, NoLongerThanIntervals, TemposOk, AnchorsInside, FramesAt, Out,
      OkMidCall, Chain, RunBatch, RunWindows, Laid, OpenedBy, AnchorOffset, IsCompletion, Held, Joined, Refined, Lead, OriginIv,
      WithAnchors, CompletionsOf, Opened;
    WindowsAreTheStream(w, first, rest);
    PairedFirst(w, b, first);
    var w1 := Step(w, first).0;
    var (b1, c) := Add(b, first.beat, first.tempo, first.samples);
    var s1 := Silence(AnchorOffset(w, first)) + first.samples;
    var ivs1 := Opened([OriginIv(w, first)], |s1|, FramesAt(w, first.tempo));
    PairedRun(w1, b1, s1, ivs1, rest);
    var s, live := StreamOf(w, first, rest), IntervalsOf(w, first, rest);
    FirstCompletion(w, first, c, RunBatch(b1, rest).1, s1, Laid(w1, rest), ivs1, live);
    var ivs := WithAnchors(w, first, live);
    var cs := (if c.Some? then [c.value] else []) + RunBatch(b1, rest).1;
    CompletionCount(cs, s, ivs);
    if !AnchorsInside(w, first) {
      EndAnchorFacts(w, first);
      SilentHead(FramesAt(w, first.tempo), first.samples, Laid(w1, rest));
    }
    forall j | 0 <= j < |cs|
      ensures Refined(Lead(w, first) + Out(s, live, w.window), cs[j], s, ivs[j], w.window,
                      j == 0 && !AnchorsInside(w, first))
    {
      CompletionAt(cs, s, ivs, j);
      AllRefined(w, first, s, live, j, cs[j]);
    }
  }

  lemma SilentHead(n: nat, x: seq<Frame>, y: seq<Frame>)
    ensures (Silence(n) + x + y)[..n] == Silence(n)
  {
  }

  lemma CompletionCount(cs: seq<Completed>, s: seq<Frame>, ivs: seq<Iv>)
    requires |ivs| > 0 && CompletionsOf(cs, s, ivs[..|ivs| - 1], 0)
    ensures |cs| == |ivs| - 1
  {
  }

  lemma CompletionAt(cs: seq<Completed>, s: seq<Frame>, ivs: seq<Iv>, j: nat)
    requires |ivs| > 0 && CompletionsOf(cs, s, ivs[..|ivs| - 1], 0) && j < |cs|
    ensures |cs| == |ivs| - 1 && IsCompletion(cs[j], s, ivs[j])
  {
    hide IsCompletion;
    assert IsCompletion(cs[j], s, ivs[..|ivs| - 1][0 + j]);
  }

  /** What the first buffer closed, in front of what the rest close. */
  lemma FirstCompletion(w: Asm, first: In, c: Option<Completed>, cs: seq<Completed>, s: seq<Frame>, x: seq<Frame>, ivs: seq<Iv>,
                        live: seq<Iv>)
    requires w.window > 0 && 0 < |ivs| <= |live| && live[..|ivs|] == ivs
    requires var all := WithAnchors(w, first, ivs);
             && 1 <= |all| <= 2 && (c.Some? <==> |all| == 2) && (c.Some? ==> IsCompletion(c.value, s, all[0]))
    requires CompletionsOf(cs, s + x, live[..|live| - 1], |ivs| - 1)
    ensures var all := WithAnchors(w, first, live);
            && |all| > 0
            && CompletionsOf((if c.Some? then [c.value] else []) + cs, s + x, all[..|all| - 1], 0)
  {
    hide IsCompletion, AnchorsInside, FirstIv;
    if AnchorsInside(w, first) {
      assert [] + live == live && [] + ivs == ivs;
      if c.Some? {
        assert live[..|ivs|][0] == ivs[0];
        IsCompletionStable(c.value, s, x, ivs[0]);
        CompletionsCons(c.value, cs, s + x, live[..|live| - 1], 0);
      } else {
        assert [] + cs == cs;
      }
    } else {
      var iv := FirstIv(w, first);
      var all := [iv] + live;
      IsCompletionStable(c.value, s, x, iv);
      assert all[..|all| - 1] == [iv] + live[..|live| - 1];
      CompletionsShift(cs, s + x, iv, live[..|live| - 1]);
      CompletionsCons(c.value, cs, s + x, all[..|all| - 1], 0);
    }
  }

  lemma CompletionsShift(cs: seq<Completed>, s: seq<Frame>, iv: Iv, ivs: seq<Iv>)
    requires CompletionsOf(cs, s, ivs, 0)
    ensures CompletionsOf(cs, s, [iv] + ivs, 1)
  {
    hide IsCompletion;
    forall j | 0 <= j < |cs|
      ensures IsCompletion(cs[j], s, ([iv] + ivs)[1 + j])
    {
      assert IsCompletion(cs[j], s, ivs[0 + j]);
    }
  }

  /** Each reported interval against its streamed windows. */
  lemma AllRefined(a: Asm, first: In, s: seq<Frame>, live: seq<Iv>, j: nat, c: Completed)
    requires a.window > 0 && TempoOk(a, first) && Chain(live, a.window) && live[0] == OriginIv(a, first)
    requires var all := WithAnchors(a, first, live); j < |all| && IsCompletion(c, s, all[j])
    requires !AnchorsInside(a, first) ==> var n := FramesAt(a, first.tempo); n <= |s| && s[..n] == Silence(n)
    ensures Refined(Lead(a, first) + Out(s, live, a.window), c, s, WithAnchors(a, first, live)[j], a.window,
                    j == 0 && !AnchorsInside(a, first))
  {
    hide Out, FramesAt, AnchorOffset, IsCompletion, Refined, Chain, AnchorsInside, Config.IndexAtBeat;
    var w, out := a.window, Out(s, live, a.window);
    if AnchorsInside(a, first) {
      assert [] + live == live && [] + out == out;
      CompletedIsJoined(s, live, w, j, c, []);
    } else if j == 0 {
      LeadIsJoined(a, first, s, live, c);
    } else {
      EndAnchorFacts(a, first);
      IndexOf(live, w, j - 1);
      LeadOnly(a, first, live[j - 1].index);
      CompletedIsJoined(s, live, w, j - 1, c, Lead(a, first));
    }
  }

  lemma IndexOf(ivs: seq<Iv>, w: nat, j: nat)
    requires Chain(ivs, w) && j < |ivs|
    ensures ivs[0].index <= ivs[j].index
  {
    if j > 0 {
      IndicesIncrease(ivs, w, 0, j);
    }
  }

  /** The flushed windows are all the anchor's own interval's. */
  lemma LeadOnly(a: Asm, first: In, index: int)
    requires a.window > 0 && TempoOk(a, first)
    ensures OfInterval(Lead(a, first), index) == if index == FirstIv(a, first).index then Lead(a, first) else []
  {
    hide FramesAt, AnchorOffset, Config.IndexAtBeat, OfInterval;
    OfIntervalAll(Lead(a, first), index, FirstIv(a, first).index);
  }

  lemma CompletedIsJoined(s: seq<Frame>, ivs: seq<Iv>, w: nat, j: nat, c: Completed, lead: seq<Window>)
    requires w > 0 && Chain(ivs, w) && j < |ivs| && IsCompletion(c, s, ivs[j])
    requires OfInterval(lead, ivs[j].index) == []
    ensures Refined(lead + Out(s, ivs, w), c, s, ivs[j], w, false)
  {
    var iv := ivs[j];
    var own := IvWindows(s, iv, w, Due(|s|, iv, w));
    hide Out, OfInterval, Joined, Chain, IvWindows, Due, Held, Ceil, Agree;
    LongEnoughAt(ivs, w, j);
    OutOfInterval(s, ivs, w, j);
    OfIntervalJoin(lead, Out(s, ivs, w), iv.index);
    assert [] + own == own;
    DueIsRefined(s, iv, w, c);
  }

  lemma DueIsRefined(s: seq<Frame>, iv: Iv, w: nat, c: Completed)
    requires w > 0 && LongEnough(iv.frames, w) && IsCompletion(c, s, iv)
    ensures var own, total := IvWindows(s, iv, w, Due(|s|, iv, w)), Ceil(iv.frames, w);
            && |own| == (if Held(|s|, iv, w) then total - 1 else total)
            && (|own| == total ==> |Joined(own)| >= iv.frames)
            && Agree(Joined(own), c.samples, iv.frames)
  {
    hide Joined, Due, Held, Ceil;
    var due := Due(|s|, iv, w);
    DueOfCompleted(|s|, iv, w);
    JoinedWindows(s, iv, w, due);
    StretchesAgree(s, iv.start, due * w, iv.frames);
  }

  lemma DueOfCompleted(len: nat, iv: Iv, w: nat)
    requires w > 0 && LongEnough(iv.frames, w) && iv.start + iv.frames <= len
    ensures var due, total := Due(len, iv, w), Ceil(iv.frames, w);
            && due == (if Held(len, iv, w) then total - 1 else total)
            && 0 <= due * w && iv.start + due * w <= len
            && (due == total ==> due * w >= iv.frames)
  {
    DueBound(len, iv, w);
    CeilBounds(iv.frames, w);
    if Held(len, iv, w) {
      HeldDue(len, iv, w);
    }
  }

  lemma LongEnoughAt(ivs: seq<Iv>, w: nat, j: nat)
    requires Chain(ivs, w) && j < |ivs|
    ensures LongEnough(ivs[j].frames, w)
  {
  }

  lemma StretchesAgree(s: seq<Frame>, from: nat, m: nat, n: nat)
    requires from + m <= |s| && from + n <= |s|
    ensures Agree(s[from..from + m], s[from..from + n], n)
  {
  }

  lemma LeadIsJoined(a: Asm, first: In, s: seq<Frame>, live: seq<Iv>, c: Completed)
    requires a.window > 0 && TempoOk(a, first) && Chain(live, a.window) && live[0] == OriginIv(a, first)
    requires !AnchorsInside(a, first) && IsCompletion(c, s, FirstIv(a, first))
    requires var n := FramesAt(a, first.tempo); n <= |s| && s[..n] == Silence(n)
    ensures Refined(Lead(a, first) + Out(s, live, a.window), c, s, FirstIv(a, first), a.window, true)
  {
    hide Out, FramesAt, AnchorOffset, AnchorsInside, Config.IndexAtBeat, OfInterval, Joined, Chain;
    var w, iv, lead := a.window, FirstIv(a, first), Lead(a, first);
    EndAnchorFacts(a, first);
    forall m | 0 <= m < |live|
      ensures live[m].index != iv.index
    {
      IndexOf(live, w, m);
    }
    NoneBefore(s, live, w, iv.index);
    LeadOnly(a, first, iv.index);
    OfIntervalJoin(lead, Out(s, live, w), iv.index);
    assert lead + [] == lead;
    CeilBounds(iv.frames, w);
    JoinedSilence(NewBuf(w, iv.index, iv.frames), w, |lead|);
    assert |lead| == Ceil(iv.frames, w);
    assert c.samples == Silence(iv.frames);
  }

  lemma {:induction false} JoinedSilence(b: Buf, w: nat, n: nat)
    requires w > 0 && b.pcm == Silence(|b.pcm|) && n <= b.total
    ensures n * w >= 0 && Joined(WindowsOf(b, w, 0, n)) == Silence(n * w)
    decreases n
  {
    hide WindowOf;
    if n > 0 {
      JoinedSilence(b, w, n - 1);
      assert WindowsOf(b, w, 0, n)[..n - 1] == WindowsOf(b, w, 0, n - 1);
      SilentWindow(b, w, n - 1);
      assert n * w == (n - 1) * w + w;
      assert Silence((n - 1) * w) + Silence(w) == Silence(n * w);
    }
  }

  lemma SilentWindow(b: Buf, w: nat, k: nat)
    requires w > 0 && b.pcm == Silence(|b.pcm|)
    ensures WindowOf(b, w, k).samples == Silence(w)
  {
  }

  lemma DropFirst(b: Asm, s: seq<Frame>, ivs: seq<Iv>)
    requires BatchTracks(b, s, ivs) && |ivs| == 2
    ensures BatchTracks(b, s, [ivs[1]])
  {
  }

  lemma BatchAnchors(w: Asm, b: Asm, i: In)
    requires Cold(w) && TempoOk(w, i)
    requires Ok(b) && b.cur.None? && b.cfg == w.cfg && b.rate == w.rate && b.window == 0 && TempoOk(b, i)
    ensures var p := Place(b, i.beat, i.tempo, false); var b1 := SlewCounted(p.asm, |i.samples|);
            && p.ok && p.asm.pendingSlew == 0 && p.completed == None && b1.anchored && SameSetup(b, b1)
            && BatchTracks(b1, Silence(AnchorOffset(w, i)), [FirstIv(w, i)])
            && b1.nextOff == AnchorOffset(w, i) && |b1.cur.value.pcm| == FramesAt(w, i.tempo)
            && FramesAt(b, i.tempo) == FramesAt(w, i.tempo)
  {
    hide Config.IntervalSamples, Config.FrameOffset, Config.IndexAtBeat;
    var off, frames := AnchorOffset(w, i), FramesAt(w, i.tempo);
    assert off <= frames;
    assert Fit(Silence(off)[0..], frames) == Silence(frames);
  }

  /** The first buffer, both ways. */
  lemma PairedFirst(w: Asm, b: Asm, i: In)
    requires Cold(w) && TempoOk(w, i) && 0 < |i.samples| <= FramesAt(w, i.tempo)
    requires Ok(b) && b.cur.None? && b.cfg == w.cfg && b.rate == w.rate && b.window == 0 && TempoOk(b, i)
    ensures var r := Add(b, i.beat, i.tempo, i.samples); var s := Silence(AnchorOffset(w, i)) + i.samples;
            var ivs := Opened([OriginIv(w, i)], |s|, FramesAt(w, i.tempo)); var all := WithAnchors(w, i, ivs);
            && Tracks(Step(w, i).0, s, ivs) && BatchTracks(r.0, s, ivs) && Paired(Step(w, i).0, r.0)
            && 1 <= |all| <= 2 && (r.1.Some? <==> |all| == 2) && (r.1.Some? ==> IsCompletion(r.1.value, s, all[0]))
  {
    hide Step, Tracks, BatchTracks, FillBatch, Place, Config.IntervalSamples, Config.FrameOffset, Config.IndexAtBeat, Emitted,
      IsCompletion, AnchorOffset, FramesAt, AnchorsInside, Lead, OkMidCall;
    ColdBuffer(w, i);
    ColdKeepsAnchor(w, i);
    BatchAnchors(w, b, i);
    var b1 := SlewCounted(Place(b, i.beat, i.tempo, false).asm, |i.samples|);
    assert Slewed(i.samples, 0) == i.samples;
    var frames := FramesAt(w, i.tempo);
    assert Add(b, i.beat, i.tempo, i.samples) == FillBatch(b1, i.samples, frames, None);
    if AnchorsInside(w, i) {
      FillOne(b1, Silence(AnchorOffset(w, i)), [FirstIv(w, i)], i.samples, frames);
      var ivs := Opened([FirstIv(w, i)], AnchorOffset(w, i) + |i.samples|, frames);
      assert [] + ivs == ivs && ivs[..1][0] == FirstIv(w, i);
    } else {
      EndAnchorFacts(w, i);
      var s0, iv, next := Silence(frames), FirstIv(w, i), OriginIv(w, i);
      FillFromEnd(b1, s0, [iv], i.samples, frames);
      var r := FillBatch(b1, i.samples, frames, None);
      assert [iv] + [NextIv([iv], frames)] == [iv, next];
      DropFirst(r.0, s0 + i.samples, [iv, next]);
      IsCompletionStable(r.1.value, s0, i.samples, iv);
    }
  }
}
