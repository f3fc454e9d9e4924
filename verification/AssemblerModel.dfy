/** What each operation of the capture assembler computes (internal/capture/assembler.go), on values.
    The class in Assembler.dfy is proved to compute exactly these functions; the theorems about whole
    runs (AssemblerRuns.dfy, AssemblerStream.dfy, DriftControl.dfy) are about them. */
module AssemblerModel {
  import opened Common
  import opened Audio
  import opened Interval

  const SLEW_MAX_PER_BUFFER := 4
  const SLEW_WINDOW := 64

  /** One encode-ready chunk of an interval; `number` is its WAIF frame number. */
  datatype Window = Window(interval: int, number: nat, total: nat, isFinal: bool, samples: seq<Frame>)

  datatype Completed = Completed(index: int, samples: seq<Frame>, frames: nat, written: nat)

  /** An interval under assembly. Its length in frames is |pcm|. */
  datatype Buf = Buf(index: int, pcm: seq<Frame>, written: nat, emitted: nat, total: nat)

  datatype Asm = Asm(
    cfg: Config,
    rate: nat,
    window: nat,
    cur: Option<Buf>,
    nextOff: nat,
    anchored: bool,
    pendingSlew: int,
    pending: Option<Buf>,
    resnaps: nat,
    slewed: nat,
    droppedLate: nat,
    droppedBackfill: nat)

  function New(cfg: Config, rate: nat, window: nat): Asm {
    Asm(cfg, rate, window, None, 0, false, 0, None, 0, 0, 0, 0)
  }

  function ReanchorThreshold(a: Asm): int {
    a.rate / 4
  }

  function SlewDeadband(a: Asm): int {
    if a.rate / 100 > 1 then a.rate / 100 else 1
  }

  // ---------------------------------------------------------------- well-formedness

  /** Frames in an interval opened at this tempo. */
  function FramesAt(a: Asm, tempo: real): nat {
    a.cfg.IntervalSamples(a.rate, tempo)
  }

  /** Intervals of this length hold at least one frame and at least one window. */
  predicate LongEnough(frames: nat, window: nat) {
    1 <= frames && window <= frames
  }

  /** What no step of a call changes. */
  predicate SameSetup(a: Asm, b: Asm) {
    a.cfg == b.cfg && a.rate == b.rate && a.window == b.window
  }

  predicate BufOk(b: Buf, window: nat) {
    && 1 <= |b.pcm|
    && window <= |b.pcm|
    && b.written <= |b.pcm|
    && b.emitted <= b.total
    && (window > 0 ==> b.total == Ceil(|b.pcm|, window) && b.emitted * window <= |b.pcm|)
  }

  predicate PendingOk(b: Buf, window: nat) {
    && window > 0
    && BufOk(b, window)
    && |b.pcm| % window != 0
    && b.emitted == b.total - 1
  }

  /** What holds of an assembler between calls. */
  predicate Ok(a: Asm) {
    && a.pendingSlew == 0
    && OkMidCall(a)
  }

  predicate OkMidCall(a: Asm) {
    && (a.cur.Some? ==> BufOk(a.cur.value, a.window))
    && (a.pending.Some? ==> PendingOk(a.pending.value, a.window))
  }

  // ---------------------------------------------------------------- single-interval operations

  function NewBuf(window: nat, index: int, frames: nat): (b: Buf)
    requires LongEnough(frames, window)
    ensures BufOk(b, window)
  {
    Buf(index, Silence(frames), 0, 0, if window > 0 then Ceil(frames, window) else 0)
  }

  predicate ShortFinal(b: Buf, window: nat) {
    window > 0 && |b.pcm| % window != 0
  }

  /** The k-th window of b as it would be cut right now, zero-padded past the interval's end. */
  function WindowOf(b: Buf, window: nat, k: nat): Window {
    Window(b.index, k, b.total, k == b.total - 1,
      if k * window <= |b.pcm| then Fit(b.pcm[k * window..], window) else Silence(window))
  }

  /** b's last window: its tail, then `cont`, then silence. */
  function FinalWindow(b: Buf, window: nat, cont: seq<Frame>): Window
    requires PendingOk(b, window)
  {
    CeilBounds(|b.pcm|, window);
    assert (b.total - 1) * window == b.total * window - window;
    Window(b.index, b.total - 1, b.total, true, Fit(b.pcm[(b.total - 1) * window..] + cont, window))
  }

  function WindowsOf(b: Buf, window: nat, from: nat, to: nat): (ws: seq<Window>)
    requires from <= to
    ensures |ws| == to - from
    ensures forall i :: 0 <= i < |ws| ==> ws[i] == WindowOf(b, window, from + i)
  {
    seq(to - from, i requires 0 <= i < to - from => WindowOf(b, window, from + i))
  }

  /** How many windows of b are covered by what has been written. */
  function ReadyCount(b: Buf, window: nat): nat
    requires window > 0
    requires BufOk(b, window)
  {
    CeilBounds(|b.pcm|, window);
    var full := if ShortFinal(b, window) then b.total - 1 else b.total;
    var ready := b.written / window;
    if b.written >= |b.pcm| || ready > full then full else ready
  }

  lemma ReadyCountOk(b: Buf, window: nat)
    requires window > 0
    requires BufOk(b, window)
    ensures ReadyCount(b, window) <= b.total
    ensures ReadyCount(b, window) * window <= |b.pcm|
  {
    CeilBounds(|b.pcm|, window);
    var ready := ReadyCount(b, window);
    var q := |b.pcm| / window;
    assert q * window <= |b.pcm|;
    assert ready <= q by {
      if b.written < |b.pcm| {
        DivMonotone(b.written, |b.pcm|, window);
      }
    }
    MulIncreasing(ready, q, window);
  }

  function Ready(b: Buf, window: nat): (r: (Buf, seq<Window>))
    requires window > 0
    requires BufOk(b, window)
    ensures BufOk(r.0, window)
  {
    ReadyCountOk(b, window);
    var ready := ReadyCount(b, window);
    if ready > b.emitted then (b.(emitted := ready), WindowsOf(b, window, b.emitted, ready)) else (b, [])
  }

  function Remaining(b: Buf, window: nat): (ws: seq<Window>)
    requires b.emitted <= b.total
  {
    WindowsOf(b, window, b.emitted, b.total)
  }

  function Finish(b: Buf): Completed {
    Completed(b.index, b.pcm, |b.pcm|, b.written)
  }

  // ---------------------------------------------------------------- held final window

  function PadOf(p: Buf, window: nat): (n: nat)
    requires PendingOk(p, window)
    ensures 0 < n < window
  {
    CeilBounds(|p.pcm|, window);
    p.total * window - |p.pcm|
  }

  function ReleasePending(a: Asm): (r: (Asm, seq<Window>))
    requires OkMidCall(a)
    ensures OkMidCall(r.0)
  {
    if a.pending.None? then
      (a, [])
    else
      var p := a.pending.value;
      var pad := PadOf(p, a.window);
      if a.cur.None? || a.cur.value.index != p.index + 1 || a.cur.value.written < pad then
        (a, [])
      else
        (a.(pending := None), [FinalWindow(p, a.window, a.cur.value.pcm[..pad])])
  }

  function FlushPending(a: Asm): (r: (Asm, seq<Window>))
    requires OkMidCall(a)
    ensures OkMidCall(r.0)
  {
    if a.pending.None? then (a, []) else (a.(pending := None), [FinalWindow(a.pending.value, a.window, [])])
  }

  // ---------------------------------------------------------------- placement

  datatype Placed = Placed(asm: Asm, completed: Option<Completed>, windows: seq<Window>, ok: bool)

  /** Stamp position minus cursor position, in frames. */
  function Divergence(a: Asm, beat: real, tempo: real): int
    requires a.cur.Some?
  {
    var beatIdx := a.cfg.IndexAtBeat(beat);
    (beatIdx - a.cur.value.index) * |a.cur.value.pcm| + (a.cfg.FrameOffset(beat, beatIdx, a.rate, tempo) - a.nextOff)
  }

  predicate StaysContiguous(a: Asm, beat: real, tempo: real)
    requires a.cur.Some?
  {
    a.anchored && -ReanchorThreshold(a) <= Divergence(a, beat, tempo) <= ReanchorThreshold(a)
  }

  /** The micro-slew armed for a divergence. */
  function SlewFor(a: Asm, div: int): int {
    var db := SlewDeadband(a);
    if div > db then Min(div, SLEW_MAX_PER_BUFFER) else if div < -db then -Min(-div, SLEW_MAX_PER_BUFFER) else a.pendingSlew
  }

  function Place(a: Asm, beat: real, tempo: real, windowed: bool): (r: Placed)
    requires Ok(a) && LongEnough(FramesAt(a, tempo), a.window)
    requires windowed ==> a.window > 0
    ensures OkMidCall(r.asm)
    ensures r.ok ==> r.asm.cur.Some?
    ensures SameSetup(a, r.asm) && -SLEW_MAX_PER_BUFFER <= r.asm.pendingSlew <= SLEW_MAX_PER_BUFFER
    ensures !r.ok ==> r.asm.pendingSlew == 0
  {
    var beatIdx := a.cfg.IndexAtBeat(beat);
    var beatOff := a.cfg.FrameOffset(beat, beatIdx, a.rate, tempo);
    if a.cur.None? then
      Placed(a.(cur := Some(NewBuf(a.window, beatIdx, FramesAt(a, tempo))), nextOff := beatOff, anchored := true), None, [], true)
    else if StaysContiguous(a, beat, tempo) then
      Placed(a.(pendingSlew := SlewFor(a, Divergence(a, beat, tempo))), None, [], true)
    else if beatIdx < a.cur.value.index then
      Placed(a.(droppedLate := a.droppedLate + 1), None, [], false)
    else
      Reanchored(a, beatIdx, beatOff, FramesAt(a, tempo), windowed)
  }

  /** The re-anchor noted. */
  function Counted(a: Asm): (a1: Asm)
    ensures OkMidCall(a) ==> OkMidCall(a1)
  {
    a.(resnaps := if a.anchored then a.resnaps + 1 else a.resnaps, anchored := true)
  }

  /** A genuine discontinuity: the stamp wins, flushing the current interval if it lies in a later one. */
  function Reanchored(a: Asm, beatIdx: int, beatOff: nat, frames: nat, windowed: bool): (r: Placed)
    requires Ok(a) && LongEnough(frames, a.window) && a.cur.Some?
    requires windowed ==> a.window > 0
    requires beatIdx >= a.cur.value.index
    ensures OkMidCall(r.asm)
    ensures r.ok && r.asm.cur.Some?
    ensures SameSetup(a, r.asm) && -SLEW_MAX_PER_BUFFER <= r.asm.pendingSlew <= SLEW_MAX_PER_BUFFER
    ensures !r.ok ==> r.asm.pendingSlew == 0
  {
    var a1 := Counted(a);
    if beatIdx > a.cur.value.index then
      var nb := NewBuf(a.window, beatIdx, frames);
      if windowed then
        var (a2, held) := FlushPending(a1);
        Placed(a2.(cur := Some(nb), nextOff := beatOff), None, held + Remaining(a.cur.value, a.window), true)
      else
        Placed(a1.(cur := Some(nb), nextOff := beatOff), Some(Finish(a.cur.value)), [], true)
    else
      // The tempo may have changed since this interval was opened, so the offset can lie past its end.
      Placed(a1.(nextOff := beatOff), None, [], true)
  }

  // ---------------------------------------------------------------- laying frames down

  /** slewAdjust: stretch or compress the buffer's tail by k frames; short buffers pass through. */
  function Slewed(samples: seq<Frame>, k: int): (r: seq<Frame>)
    requires -SLEW_MAX_PER_BUFFER <= k <= SLEW_MAX_PER_BUFFER
  {
    if k == 0 || |samples| < SLEW_WINDOW + SLEW_MAX_PER_BUFFER then
      samples
    else
      var head := |samples| - SLEW_WINDOW;
      samples[..head] + Resampled(samples[head..], SLEW_WINDOW, SLEW_WINDOW + k)
  }

  /** out is the buffer, all but its last 64 frames where they were, with those read at 64 + k positions evenly between
      the first and the last of them: k frames more. */
  predicate IsSlewed(out: seq<Frame>, samples: seq<Frame>, k: int)
    requires -SLEW_MAX_PER_BUFFER <= k <= SLEW_MAX_PER_BUFFER
  {
    var head := |samples| - SLEW_WINDOW;
    if k == 0 || head < SLEW_MAX_PER_BUFFER then
      out == samples
    else
      && |out| == |samples| + k
      && out[..head] == samples[..head]
      && IsResampling(out[head..], samples[head..], SLEW_WINDOW, SLEW_WINDOW + k)
  }

  lemma SlewedIs(samples: seq<Frame>, k: int)
    requires -SLEW_MAX_PER_BUFFER <= k <= SLEW_MAX_PER_BUFFER
    ensures IsSlewed(Slewed(samples, k), samples, k)
  {
    hide IsResampling, Resampled;
    var head := |samples| - SLEW_WINDOW;
    if k != 0 && head >= SLEW_MAX_PER_BUFFER {
      ResampledIsInterpolation(samples[head..], SLEW_WINDOW, SLEW_WINDOW + k);
      var tail := Resampled(samples[head..], SLEW_WINDOW, SLEW_WINDOW + k);
      assert |tail| == SLEW_WINDOW + k by {
        ResampledLength(samples[head..], k);
      }
      assert Slewed(samples, k)[head..] == tail && Slewed(samples, k)[..head] == samples[..head];
    }
  }

  lemma ResampledLength(tail: seq<Frame>, k: int)
    requires |tail| == SLEW_WINDOW && -SLEW_MAX_PER_BUFFER <= k <= SLEW_MAX_PER_BUFFER && k != 0
    ensures |Resampled(tail, SLEW_WINDOW, SLEW_WINDOW + k)| == SLEW_WINDOW + k
  {
    ResampleExactLength(tail, SLEW_WINDOW + k);
  }

  /** Counters after consuming the armed slew k on a buffer of n frames. */
  function SlewCounted(a: Asm, n: nat): Asm
  {
    var k := a.pendingSlew;
    if k == 0 || n < SLEW_WINDOW + SLEW_MAX_PER_BUFFER then
      a.(pendingSlew := 0)
    else
      a.(pendingSlew := 0, slewed := a.slewed + if k < 0 then -k else k)
  }

  /** write: copy x into the current interval at the cursor, and move the cursor past it. */
  function Write(a: Asm, x: seq<Frame>): (r: Asm)
    requires OkMidCall(a) && a.cur.Some?
    requires a.nextOff + |x| <= |a.cur.value.pcm|
    ensures OkMidCall(r) && r.cur.Some?
  {
    var b := a.cur.value;
    var end := a.nextOff + |x|;
    var b' := b.(pcm := Overwrite(b.pcm, a.nextOff, x),
                 written := if a.nextOff < |b.pcm| && end > b.written then end else b.written);
    a.(cur := Some(b'), nextOff := end)
  }

  /** The head of the loop in AddWindows: cross into the next interval once the cursor has reached the end. */
  function Turn(a: Asm, frames: nat): (r: (Asm, seq<Window>))
    requires OkMidCall(a) && a.cur.Some? && a.window > 0 && LongEnough(frames, a.window)
    ensures OkMidCall(r.0) && r.0.cur.Some? && r.0.nextOff < |r.0.cur.value.pcm|
    ensures SameSetup(a, r.0) && r.0.pendingSlew == a.pendingSlew
  {
    var b := a.cur.value;
    if a.nextOff >= |b.pcm| then
      var next := Some(NewBuf(a.window, b.index + 1, frames));
      if ShortFinal(b, a.window) && b.emitted == b.total - 1 then
        (a.(pending := Some(b), cur := next, nextOff := 0), [])
      else
        (a.(cur := next, nextOff := 0), Remaining(b, a.window))
    else
      (a, [])
  }

  /** The tail of the loop: write, then release what became ready. */
  function Lay(a: Asm, x: seq<Frame>): (r: (Asm, seq<Window>))
    requires OkMidCall(a) && a.cur.Some? && a.window > 0
    requires a.nextOff + |x| <= |a.cur.value.pcm|
    ensures OkMidCall(r.0) && r.0.cur.Some?
    ensures SameSetup(a, r.0) && r.0.pendingSlew == a.pendingSlew
  {
    var a1 := Write(a, x);
    var (a2, held) := ReleasePending(a1);
    var (b, ready) := Ready(a2.cur.value, a.window);
    (a2.(cur := Some(b)), held + ready)
  }

  /** The frames of a buffer that fall behind the emitted-window boundary. */
  function Behind(a: Asm): nat
    requires a.cur.Some?
  {
    var lim := a.cur.value.emitted * a.window;
    if a.nextOff < lim then lim - a.nextOff else 0
  }

  /** Emitted windows are immutable: drop the frames that fall behind them. A buffer wholly behind leaves
      the cursor where it was. */
  function TrimBehind(a: Asm, samples: seq<Frame>): (r: (Asm, seq<Frame>))
    requires OkMidCall(a) && a.cur.Some? && samples != []
    ensures OkMidCall(r.0) && r.0.cur == a.cur
    ensures SameSetup(a, r.0) && r.0.pendingSlew == a.pendingSlew
    ensures |r.1| <= |samples| && (|r.1| < |samples| || r.0 == a)
    ensures r.1 != [] ==> a.cur.value.emitted * a.window <= r.0.nextOff
    ensures a.nextOff < |a.cur.value.pcm| ==> r.0.nextOff <= |a.cur.value.pcm|
  {
    var skip := Behind(a);
    if skip == 0 then
      (a, samples)
    else if skip >= |samples| then
      (a.(droppedBackfill := a.droppedBackfill + 1), [])
    else
      (a.(droppedBackfill := a.droppedBackfill + 1, nextOff := a.nextOff + skip), samples[skip..])
  }

  /** How many frames fit before the current interval's end. */
  function Chunk(a: Asm, n: nat): nat
    requires a.cur.Some? && a.nextOff <= |a.cur.value.pcm|
  {
    Min(|a.cur.value.pcm| - a.nextOff, n)
  }

  /** One iteration of the loop of AddWindows: the new state, the frames still to place, the windows out. */
  function Pass(a: Asm, samples: seq<Frame>, frames: nat): (r: (Asm, seq<Frame>, seq<Window>))
    requires OkMidCall(a) && a.cur.Some? && a.window > 0 && LongEnough(frames, a.window) && samples != []
    ensures OkMidCall(r.0) && r.0.cur.Some?
    ensures SameSetup(a, r.0) && r.0.pendingSlew == a.pendingSlew
    ensures |r.1| < |samples|
  {
    var (a1, w1) := Turn(a, frames);
    var (a2, rest) := TrimBehind(a1, samples);
    if rest == [] then
      (a2, [], w1)
    else
      var n := Chunk(a2, |rest|);
      var (a3, w2) := Lay(a2, rest[..n]);
      (a3, rest[n..], w1 + w2)
  }

  /** The loop of AddWindows. */
  function FillWindows(a: Asm, samples: seq<Frame>, frames: nat): (r: (Asm, seq<Window>))
    requires OkMidCall(a) && a.cur.Some? && a.window > 0 && LongEnough(frames, a.window)
    ensures OkMidCall(r.0) && r.0.cur.Some?
    ensures SameSetup(a, r.0) && r.0.pendingSlew == a.pendingSlew
    decreases |samples|
  {
    if samples == [] then
      (a, [])
    else
      var (a1, rest, w1) := Pass(a, samples, frames);
      var (a2, w2) := FillWindows(a1, rest, frames);
      (a2, w1 + w2)
  }

  /** Head of the loop of Add: at its end an interval is closed and the next one opened. Only the first interval closed
      by a buffer is reported. */
  function Close(a: Asm, frames: nat, done: Option<Completed>): (r: (Asm, Option<Completed>))
    requires OkMidCall(a) && a.cur.Some? && LongEnough(frames, a.window)
    ensures OkMidCall(r.0) && r.0.cur.Some? && r.0.nextOff < |r.0.cur.value.pcm|
    ensures r.0 == a.(cur := r.0.cur, nextOff := r.0.nextOff)
  {
    if a.nextOff >= |a.cur.value.pcm|
    then (a.(cur := Some(NewBuf(a.window, a.cur.value.index + 1, frames)), nextOff := 0),
          if done.None? then Some(Finish(a.cur.value)) else done)
    else (a, done)
  }

  /** The loop of Add. */
  function FillBatch(a: Asm, samples: seq<Frame>, frames: nat, done: Option<Completed>): (r: (Asm, Option<Completed>))
    requires OkMidCall(a) && a.cur.Some? && LongEnough(frames, a.window)
    ensures OkMidCall(r.0) && r.0.cur.Some?
    ensures SameSetup(a, r.0) && r.0.pendingSlew == a.pendingSlew && r.0.anchored == a.anchored
    decreases |samples|
  {
    if samples == [] then
      (a, done)
    else
      var (a1, done') := Close(a, frames, done);
      var n := Min(|a1.cur.value.pcm| - a1.nextOff, |samples|);
      FillBatch(Write(a1, samples[..n]), samples[n..], frames, done')
  }

  // ---------------------------------------------------------------- the public operations

  function AddWindows(a: Asm, beat: real, tempo: real, samples: seq<Frame>): (r: (Asm, seq<Window>))
    requires Ok(a) && a.window > 0 && LongEnough(FramesAt(a, tempo), a.window)
    ensures Ok(r.0)
    ensures SameSetup(a, r.0)
  {
    var p := Place(a, beat, tempo, true);
    if !p.ok then
      (p.asm, [])
    else
      var (a1, ws) := FillWindows(SlewCounted(p.asm, |samples|), Slewed(samples, p.asm.pendingSlew), FramesAt(a, tempo));
      (a1, p.windows + ws)
  }

  function Add(a: Asm, beat: real, tempo: real, samples: seq<Frame>): (r: (Asm, Option<Completed>))
    requires Ok(a) && LongEnough(FramesAt(a, tempo), a.window)
    ensures Ok(r.0)
    ensures SameSetup(a, r.0)
  {
    var p := Place(a, beat, tempo, false);
    if !p.ok then
      (p.asm, None)
    else
      FillBatch(SlewCounted(p.asm, |samples|), Slewed(samples, p.asm.pendingSlew), FramesAt(a, tempo), p.completed)
  }

  function Flush(a: Asm): (Asm, Option<Completed>) {
    if a.cur.None? then (a, None) else (a.(cur := None), Some(Finish(a.cur.value)))
  }

  function FlushWindows(a: Asm): (r: (Asm, seq<Window>))
    requires Ok(a)
    ensures Ok(r.0)
  {
    var (a1, held) := FlushPending(a);
    if a1.cur.None? then (a1, held) else (a1.(cur := None), held + Remaining(a1.cur.value, a.window))
  }

  function SetConfig(a: Asm, cfg: Config): (r: Asm)
    requires Ok(a)
    ensures Ok(r)
  {
    if cfg == a.cfg then a else a.(cfg := cfg, cur := None, pending := None, anchored := false)
  }

  function Reanchor(a: Asm): Asm {
    a.(anchored := false)
  }
}
