/** What the batch operations report, whatever the stamps; and what a flush or a new grid leaves behind. */
module AssemblerAdd {
  import opened Common
  import opened Audio
  import opened Interval
  import opened AssemblerModel
  import opened AssemblerRuns
  import opened AssemblerContent

  /** The interval at hand once the head of x has been copied in from the cursor on. */
  function Topped(b: Buf, off: nat, x: seq<Frame>): (pcm: seq<Frame>)
    ensures |pcm| == |b.pcm|
    ensures forall i :: 0 <= i < |pcm| ==> pcm[i] == if off <= i && i - off < |x| then x[i - off] else b.pcm[i]
  {
    seq(|b.pcm|, i requires 0 <= i < |b.pcm| => if off <= i && i - off < |x| then x[i - off] else b.pcm[i])
  }

  /** What is known of an interval topped up so: all of it, and how far it has been covered. */
  predicate IsReport(c: Completed, b: Buf, off: nat, x: seq<Frame>) {
    && c.index == b.index && c.frames == |b.pcm| && c.samples == Topped(b, off, x)
    && c.written == Max(b.written, if off < |b.pcm| && x != [] then Min(off + |x|, |b.pcm|) else 0)
  }

  lemma TopFully(a: Asm, x: seq<Frame>)
    requires OkMidCall(a) && a.cur.Some? && a.nextOff < |a.cur.value.pcm| && x != []
    ensures var n := Min(|a.cur.value.pcm| - a.nextOff, |x|); var b := Write(a, x[..n]).cur.value;
            b.pcm == Topped(a.cur.value, a.nextOff, x) && b.written == Max(a.cur.value.written, a.nextOff + n)
  {
  }

  lemma {:induction false} ReportedStays(a: Asm, x: seq<Frame>, frames: nat, done: Option<Completed>)
    requires OkMidCall(a) && a.cur.Some? && LongEnough(frames, a.window)
    ensures var (r, c) := FillBatch(a, x, frames, done);
            && (done.Some? ==> c == done) && r.cur.value.index >= a.cur.value.index
    decreases |x|
  {
    hide OkMidCall, Write;
    if x != [] {
      var (a1, done') := Close(a, frames, done);
      var n := Min(|a1.cur.value.pcm| - a1.nextOff, |x|);
      WriteHere(a1, x[..n]);
      ReportedStays(Write(a1, x[..n]), x[n..], frames, done');
    }
  }

  lemma WriteHere(a: Asm, x: seq<Frame>)
    requires OkMidCall(a) && a.cur.Some? && a.nextOff + |x| <= |a.cur.value.pcm|
    ensures var r := Write(a, x);
            && r.cur.value.index == a.cur.value.index && |r.cur.value.pcm| == |a.cur.value.pcm| && r.nextOff == a.nextOff + |x|
            && SameSetup(a, r)
  {
  }

  /** The loop reports the interval it found at hand if and only if it leaves it. */
  lemma FillReports(a: Asm, x: seq<Frame>, frames: nat)
    requires OkMidCall(a) && a.cur.Some? && LongEnough(frames, a.window)
    ensures var (r, c) := FillBatch(a, x, frames, None);
            && (c.Some? <==> r.cur.value.index > a.cur.value.index)
            && (c.Some? ==> IsReport(c.value, a.cur.value, a.nextOff, x))
  {
    hide OkMidCall, IsReport;
    if x != [] {
      if a.nextOff >= |a.cur.value.pcm| {
        FillFromTheEnd(a, x, frames);
      } else {
        var n := Min(|a.cur.value.pcm| - a.nextOff, |x|);
        var b := Write(a, x[..n]);
        WriteHere(a, x[..n]);
        if x[n..] == [] {
        } else {
          FillFromTheEnd(b, x[n..], frames);
          ReportOfTopped(a, x);
        }
      }
    }
  }

  lemma ReportOfTopped(a: Asm, x: seq<Frame>)
    requires OkMidCall(a) && a.cur.Some? && a.nextOff < |a.cur.value.pcm| && x != []
    ensures var n := Min(|a.cur.value.pcm| - a.nextOff, |x|); var b := Write(a, x[..n]).cur.value;
            forall c :: IsReport(c, b, |b.pcm|, x[n..]) ==> IsReport(c, a.cur.value, a.nextOff, x)
  {
    TopFully(a, x);
    hide Write;
  }

  lemma FillFromTheEnd(a: Asm, x: seq<Frame>, frames: nat)
    requires OkMidCall(a) && a.cur.Some? && LongEnough(frames, a.window) && x != [] && a.nextOff >= |a.cur.value.pcm|
    ensures var (r, c) := FillBatch(a, x, frames, None);
            && r.cur.value.index > a.cur.value.index && c.Some?
            && IsReport(c.value, a.cur.value, a.nextOff, x) && IsReport(c.value, a.cur.value, |a.cur.value.pcm|, x)
  {
    hide OkMidCall, Write;
    var (a1, done) := Close(a, frames, None);
    var n := Min(|a1.cur.value.pcm| - a1.nextOff, |x|);
    WriteHere(a1, x[..n]);
    ReportedStays(Write(a1, x[..n]), x[n..], frames, done);
  }

  /** ADD REPORTS WHAT IT LEAVES, whatever the stamp: it reports an interval if and only if it leaves the one at hand, and then
      that one, its samples, its length and how far it was covered: with the buffer's head on it where the buffer went on from
      the cursor, as it stood where a stamp in a later interval cut it short. */
  lemma AddReportsWhatItLeaves(a: Asm, b: In)
    requires Ok(a) && TempoOk(a, b) && a.cur.Some?
    ensures var (r, c) := Add(a, b.beat, b.tempo, b.samples); var s := Belongs(a, b);
            && r.cur.Some? && (c.Some? <==> r.cur.value.index > a.cur.value.index)
            && (TooLate(a, b) ==> c.None?)
            && (c.Some? ==>
                  if s.interval > a.cur.value.index then IsReport(c.value, a.cur.value, 0, [])
                  else IsReport(c.value, a.cur.value, s.at, Slewed(b.samples, Correction(a, b))))
  {
    hide OkMidCall, Config.IntervalSamples, Config.FrameOffset, Config.IndexAtBeat, Divergence, Slewed, FillBatch, IsReport;
    BatchPlacement(a, b);
    var p := Place(a, b.beat, b.tempo, false);
    if p.ok {
      var a1, x := SlewCounted(p.asm, |b.samples|), Slewed(b.samples, p.asm.pendingSlew);
      SlewCountedOk(p.asm, |b.samples|);
      if p.completed.Some? {
        ReportedStays(a1, x, FramesAt(a, b.tempo), p.completed);
      } else {
        FillReports(a1, x, FramesAt(a, b.tempo));
      }
    }
  }

  lemma SlewCountedOk(a: Asm, n: nat)
    requires OkMidCall(a)
    ensures OkMidCall(SlewCounted(a, n)) && SameSetup(a, SlewCounted(a, n))
    ensures SlewCounted(a, n).cur == a.cur && SlewCounted(a, n).nextOff == a.nextOff
  {
  }

  lemma BatchPlacement(a: Asm, b: In)
    requires Ok(a) && TempoOk(a, b) && a.cur.Some?
    ensures var p := Place(a, b.beat, b.tempo, false); var s := Belongs(a, b);
            && (p.ok <==> !TooLate(a, b)) && (!p.ok ==> p.asm.cur == a.cur)
            && (p.ok ==>
                  && p.asm.cur.value.index == s.interval && p.asm.nextOff == s.at
                  && p.asm.pendingSlew == Correction(a, b)
                  && (p.completed.Some? <==> s.interval > a.cur.value.index)
                  && (p.completed.Some? ==> IsReport(p.completed.value, a.cur.value, 0, []))
                  && (p.completed.None? ==> p.asm.cur == a.cur))
  {
    hide Config.IntervalSamples, Config.FrameOffset, Config.IndexAtBeat, Divergence;
    assert Topped(a.cur.value, 0, []) == a.cur.value.pcm;
  }

  /** What is still open comes out of a flush, as it stands, and nothing else does; then nothing is open. */
  lemma FlushReportsTheRest(a: Asm)
    ensures var (r, c) := Flush(a);
            && (c.Some? <==> a.cur.Some?) && r.cur.None? && r == a.(cur := None)
            && (c.Some? ==> IsReport(c.value, a.cur.value, 0, []))
  {
    if a.cur.Some? {
      assert Topped(a.cur.value, 0, []) == a.cur.value.pcm;
    }
  }

  /** After a final flush, or under a new grid, the assembler is as cold as a new one: what the theorems say of runs from a
      cold start holds again. The same grid changes nothing. */
  lemma ColdAgain(a: Asm, cfg: Config)
    requires Ok(a) && a.window > 0
    ensures Cold(FlushWindows(a).0) && FlushWindows(a).0.anchored == a.anchored
    ensures if cfg == a.cfg then SetConfig(a, cfg) == a
            else Cold(SetConfig(a, cfg)) && SetConfig(a, cfg).cfg == cfg && !SetConfig(a, cfg).anchored
  {
  }
}
