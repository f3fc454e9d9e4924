/** With re-anchors: whatever jumps the stamps make, an emitted window holds at each place of its interval the frame
    last laid there, or silence where none was; past its interval's end it is silent, or continues with the head of
    the next interval as it stood when the window left. */
module AssemblerContent {
  import opened Common
  import opened Audio
  import opened Interval
  import opened AssemblerModel
  import opened AssemblerRuns
  import opened AssemblerReanchor

  /** One copy into an interval's buffer: `frames` from the place `at` on. */
  datatype Put = Put(interval: int, at: nat, frames: seq<Frame>)

  predicate Covers(e: Put, interval: int, pos: int) {
    e.interval == interval && e.at <= pos < e.at + |e.frames|
  }

  /** The frame last laid at a place of an interval, or silence. */
  function LastAt(log: seq<Put>, interval: int, pos: int): Frame
    decreases |log|
  {
    if log == [] then
      SILENT
    else
      var e := log[|log| - 1];
      if Covers(e, interval, pos) then e.frames[pos - e.at] else LastAt(log[..|log| - 1], interval, pos)
  }

  // ---------------------------------------------------------------- the copies a run makes

  function PassPuts(a: Asm, samples: seq<Frame>, frames: nat): seq<Put>
    requires OkMidCall(a) && a.cur.Some? && a.window > 0 && LongEnough(frames, a.window) && samples != []
  {
    var (a1, _) := Turn(a, frames);
    var (a2, rest) := TrimBehind(a1, samples);
    if rest == [] then [] else [Put(a2.cur.value.index, a2.nextOff, rest[..Chunk(a2, |rest|)])]
  }

  function FillPuts(a: Asm, samples: seq<Frame>, frames: nat): seq<Put>
    requires OkMidCall(a) && a.cur.Some? && a.window > 0 && LongEnough(frames, a.window)
    decreases |samples|
  {
    if samples == [] then
      []
    else
      var (a1, rest, _) := Pass(a, samples, frames);
      PassPuts(a, samples, frames) + FillPuts(a1, rest, frames)
  }

  function StepPuts(a: Asm, b: In): seq<Put>
    requires Ok(a) && a.window > 0 && TempoOk(a, b)
  {
    var p := Place(a, b.beat, b.tempo, true);
    if !p.ok then
      []
    else
      FillPuts(SlewCounted(p.asm, |b.samples|), Slewed(b.samples, p.asm.pendingSlew), FramesAt(a, b.tempo))
  }

  /** Every copy a run of buffers and losses makes, in order. */
  function RunPuts(a: Asm, ops: seq<Op>): seq<Put>
    requires Ok(a) && a.window > 0 && OpsOk(a, ops)
    decreases |ops|
  {
    if ops == [] then
      []
    else
      SameOps(a, a, ops);
      var (a1, puts) := match ops[0] case Feed(b) => (Step(a, b).0, StepPuts(a, b)) case Lost => (Reanchor(a), []);
      SameOps(a, a1, ops);
      puts + RunPuts(a1, ops[1..])
  }

  function Joined(puts: seq<Put>): seq<Frame>
    decreases |puts|
  {
    if puts == [] then [] else puts[0].frames + Joined(puts[1..])
  }

  /** Each copy after the first opens the next interval. */
  predicate Successive(puts: seq<Put>) {
    forall i :: 0 < i < |puts| ==> puts[i].interval == puts[i - 1].interval + 1 && puts[i].at == 0
  }

  /** How many of the frames x fall behind what has been emitted, at the place they are laid. */
  function Late(a: Asm, x: seq<Frame>, frames: nat): (k: nat)
    requires OkMidCall(a) && a.cur.Some? && a.window > 0 && LongEnough(frames, a.window)
    ensures k <= |x|
  {
    Min(AssemblerModel.Behind(Turn(a, frames).0), |x|)
  }

  /** The copies `puts` lay exactly x without its late head, gapless from the cursor on. */
  ghost predicate Lays(puts: seq<Put>, a: Asm, x: seq<Frame>, frames: nat)
    requires OkMidCall(a) && a.cur.Some? && a.window > 0 && LongEnough(frames, a.window)
  {
    var k, a1 := Late(a, x, frames), Turn(a, frames).0;
    && Joined(puts) == x[k..] && Successive(puts)
    && (puts != [] ==> puts[0].interval == a1.cur.value.index && puts[0].at == a1.nextOff + k)
  }

  lemma LayMovesOn(a: Asm, x: seq<Frame>)
    requires OkMidCall(a) && a.cur.Some? && a.window > 0 && a.nextOff + |x| <= |a.cur.value.pcm|
    ensures var r := Lay(a, x).0;
            r.cur.value.index == a.cur.value.index && |r.cur.value.pcm| == |a.cur.value.pcm| && r.nextOff == a.nextOff + |x|
  {
    hide OkMidCall, FinalWindow, ReadyCount;
  }

  /** One pass drops the late head and lays one stretch; what it leaves opens the next interval. */
  lemma PassLays(a: Asm, x: seq<Frame>, frames: nat)
    requires OkMidCall(a) && a.cur.Some? && a.window > 0 && LongEnough(frames, a.window) && x != []
    ensures var (a', rest, _) := Pass(a, x, frames); var k, n, a1 := Late(a, x, frames), |x| - |rest|, Turn(a, frames).0;
            && k <= n && rest == x[n..]
            && PassPuts(a, x, frames) == (if k == |x| then [] else [Put(a1.cur.value.index, a1.nextOff + k, x[k..n])])
            && (rest != [] ==> k < |x| && a'.cur.value.index == a1.cur.value.index && a'.nextOff >= |a'.cur.value.pcm|)
  {
    hide OkMidCall, Turn, Lay, LongEnough;
    var a1 := Turn(a, frames).0;
    var (a2, rest) := TrimBehind(a1, x);
    if rest != [] {
      var n := Chunk(a2, |rest|);
      LayMovesOn(a2, rest[..n]);
      assert rest[..n] == x[Late(a, x, frames)..|x| - |rest[n..]|];
    }
  }

  lemma TurnOpens(a: Asm, x: seq<Frame>, frames: nat)
    requires OkMidCall(a) && a.cur.Some? && a.window > 0 && LongEnough(frames, a.window)
    requires a.nextOff >= |a.cur.value.pcm|
    ensures var a1 := Turn(a, frames).0; a1.nextOff == 0 && a1.cur.value.index == a.cur.value.index + 1
    ensures Late(a, x, frames) == 0
  {
  }

  /** The loop lays the buffer it is given, less what falls behind what has been emitted, in order and without a gap. */
  lemma {:induction false} FillLays(a: Asm, x: seq<Frame>, frames: nat)
    requires OkMidCall(a) && a.cur.Some? && a.window > 0 && LongEnough(frames, a.window)
    ensures Lays(FillPuts(a, x, frames), a, x, frames)
    decreases |x|
  {
    hide Pass, PassPuts, Turn, Late, OkMidCall, LongEnough;
    if x != [] {
      PassLays(a, x, frames);
      var (a', rest, _) := Pass(a, x, frames);
      var k, p1, p2 := Late(a, x, frames), PassPuts(a, x, frames), FillPuts(a', rest, frames);
      if rest == [] {
        assert p2 == [] && p1 + [] == p1;
        assert Joined(p1) == x[k..] by {
          if p1 != [] {
            assert p1[1..] == [] && p1[0].frames + [] == x[k..];
          }
        }
      } else {
        FillLays(a', rest, frames);
        TurnOpens(a', rest, frames);
        assert (p1 + p2)[1..] == p2;
        assert x[k..|x| - |rest|] + rest == x[k..];
      }
    }
  }

  // ---------------------------------------------------------------- what a window carries

  /** x holds its interval of n frames as laid by the whole log, and past its end what the first m copies laid in the
      next one (nothing, when m is 0). */
  ghost predicate CarriesFrom(x: Window, log: seq<Put>, w: nat, n: nat, m: nat) {
    && m <= |log| && |x.samples| == w
    && forall j :: 0 <= j < w ==>
         x.samples[j] == var pos := x.number * w + j;
                         if pos < n then LastAt(log, x.interval, pos) else LastAt(log[..m], x.interval + 1, pos - n)
  }

  /** The interval's length n is one its window count allows; its last window, and no other, is marked final. */
  ghost predicate Carries(x: Window, log: seq<Put>, w: nat) {
    w > 0 && (x.isFinal <==> x.number == x.total - 1)
    && exists n: nat, m: nat :: x.total == Ceil(n, w) && CarriesFrom(x, log, w, n, m)
  }

  /** A buffer holds at each place what was last laid there. */
  ghost predicate Holds(b: Buf, log: seq<Put>) {
    forall p :: 0 <= p < |b.pcm| ==> b.pcm[p] == LastAt(log, b.index, p)
  }

  ghost predicate UpTo(log: seq<Put>, interval: int) {
    forall e <- log :: e.interval <= interval
  }

  ghost predicate AllCarry(ws: seq<Window>, log: seq<Put>, w: nat) {
    forall x <- ws :: Carries(x, log, w)
  }

  ghost predicate Shows(a: Asm, log: seq<Put>, ws: seq<Window>) {
    && a.cur.Some? && Holds(a.cur.value, log) && UpTo(log, a.cur.value.index)
    && (a.pending.Some? ==> Holds(a.pending.value, log))
    && AllCarry(ws, log, a.window)
  }

  // ---------------------------------------------------------------- the log grows

  lemma LastAfter(log: seq<Put>, e: Put, interval: int, pos: int)
    ensures LastAt(log + [e], interval, pos) == if Covers(e, interval, pos) then e.frames[pos - e.at] else LastAt(log, interval, pos)
  {
    assert (log + [e])[..|log|] == log;
  }

  lemma {:induction false} NothingLaidBeyond(log: seq<Put>, interval: int, pos: int)
    requires forall e <- log :: e.interval < interval
    ensures LastAt(log, interval, pos) == SILENT
    decreases |log|
  {
    if log != [] {
      assert log[|log| - 1] in log;
      NothingLaidBeyond(log[..|log| - 1], interval, pos);
    }
  }

  lemma FreshHolds(log: seq<Put>, index: int, window: nat, frames: nat, below: int)
    requires UpTo(log, below) && below < index && LongEnough(frames, window)
    ensures Holds(NewBuf(window, index, frames), log) && UpTo(log, index)
  {
    forall p | 0 <= p < frames
      ensures LastAt(log, index, p) == SILENT
    {
      NothingLaidBeyond(log, index, p);
    }
  }

  /** A copy behind which a window already lies does not change what the window carries. */
  lemma CarriesOn(x: Window, log: seq<Put>, w: nat, e: Put)
    requires Carries(x, log, w)
    requires x.interval < e.interval || (x.interval == e.interval && (x.number + 1) * w <= e.at)
    ensures Carries(x, log + [e], w)
  {
    var n: nat, m: nat :| x.total == Ceil(n, w) && CarriesFrom(x, log, w, n, m);
    var log' := log + [e];
    assert log'[..m] == log[..m];
    var start := x.number * w;
    assert (x.number + 1) * w == start + w;
    forall pos | start <= pos < start + w
      ensures LastAt(log', x.interval, pos) == LastAt(log, x.interval, pos)
    {
      LastAfter(log, e, x.interval, pos);
    }
    assert CarriesFrom(x, log', w, n, m);
  }

  lemma AllCarryOn(ws: seq<Window>, log: seq<Put>, b: Buf, w: nat, e: Put)
    requires AllCarry(ws, log, w) && e.interval == b.index && b.emitted * w <= e.at
    requires forall x <- ws :: AssemblerReanchor.Behind(x, b)
    ensures AllCarry(ws, log + [e], w)
  {
    forall x | x in ws
      ensures Carries(x, log + [e], w)
    {
      if x.interval == b.index {
        MulIncreasing(x.number + 1, b.emitted, w);
      }
      CarriesOn(x, log, w, e);
    }
  }

  lemma OtherHolds(b: Buf, log: seq<Put>, e: Put)
    requires Holds(b, log) && e.interval != b.index
    ensures Holds(b, log + [e])
  {
    forall p | 0 <= p < |b.pcm|
      ensures b.pcm[p] == LastAt(log + [e], b.index, p)
    {
      LastAfter(log, e, b.index, p);
    }
  }

  lemma WriteShows(a: Asm, log: seq<Put>, ws: seq<Window>, x: seq<Frame>)
    requires Past(a, ws) && Shows(a, log, ws)
    requires a.cur.value.emitted * a.window <= a.nextOff && a.nextOff + |x| <= |a.cur.value.pcm|
    ensures Shows(Write(a, x), log + [Put(a.cur.value.index, a.nextOff, x)], ws)
  {
    var b, e := a.cur.value, Put(a.cur.value.index, a.nextOff, x);
    AllCarryOn(ws, log, b, a.window, e);
    if a.pending.Some? {
      OtherHolds(a.pending.value, log, e);
    }
    var b' := Write(a, x).cur.value;
    forall p | 0 <= p < |b'.pcm|
      ensures b'.pcm[p] == LastAt(log + [e], b.index, p)
    {
      LastAfter(log, e, b.index, p);
    }
  }

  // ---------------------------------------------------------------- windows leave

  lemma WindowCarries(b: Buf, log: seq<Put>, w: nat, k: nat)
    requires w > 0 && Holds(b, log) && b.total == Ceil(|b.pcm|, w)
    ensures Carries(WindowOf(b, w, k), log, w)
  {
    var x, start, n, none := WindowOf(b, w, k), k * w, |b.pcm|, log[..0];
    assert none == [];
    var next := b.index + 1;
    assert forall q :: LastAt(none, next, q) == SILENT;
    forall j | 0 <= j < w
      ensures x.samples[j] == if start + j < n then LastAt(log, b.index, start + j) else LastAt(none, next, start + j - n)
    {
      if start + j < n {
        assert x.samples[j] == b.pcm[start..][j];
      }
    }
    assert CarriesFrom(x, log, w, n, 0);
  }

  lemma RangeCarries(b: Buf, log: seq<Put>, w: nat, from: nat, to: nat)
    requires w > 0 && Holds(b, log) && b.total == Ceil(|b.pcm|, w) && from <= to
    ensures AllCarry(WindowsOf(b, w, from, to), log, w)
  {
    var r := WindowsOf(b, w, from, to);
    forall x | x in r
      ensures Carries(x, log, w)
    {
      var i :| 0 <= i < |r| && r[i] == x;
      WindowCarries(b, log, w, from + i);
    }
  }

  /** The final window with a continuation that holds what the first m copies laid in the next interval. */
  lemma FinalCarries(p: Buf, log: seq<Put>, w: nat, cont: seq<Frame>, m: nat)
    requires PendingOk(p, w) && Holds(p, log) && m <= |log|
    requires forall q :: 0 <= q < PadOf(p, w) ==>
               LastAt(log[..m], p.index + 1, q) == if q < |cont| then cont[q] else SILENT
    ensures Carries(FinalWindow(p, w, cont), log, w)
  {
    FinalHead(p, w, cont);
    var x, n, pad := FinalWindow(p, w, cont), |p.pcm|, PadOf(p, w);
    hide FinalWindow;
    var start := x.number * w;
    CeilBounds(n, w);
    assert start == p.total * w - w;
    forall j | 0 <= j < w
      ensures x.samples[j] == if start + j < n then LastAt(log, x.interval, start + j)
                              else LastAt(log[..m], x.interval + 1, start + j - n)
    {
      FinalSample(p, w, cont, j);
      assert start + j - n < pad;
    }
    assert CarriesFrom(x, log, w, n, m);
  }

  lemma FinalHead(p: Buf, w: nat, cont: seq<Frame>)
    requires PendingOk(p, w)
    ensures var x := FinalWindow(p, w, cont);
            x.interval == p.index && x.total == p.total && x.number == p.total - 1 && x.isFinal && |x.samples| == w
  {
    hide Fit;
  }

  lemma FinalSample(p: Buf, w: nat, cont: seq<Frame>, j: nat)
    requires PendingOk(p, w) && j < w
    ensures var pos := (p.total - 1) * w + j;
            FinalWindow(p, w, cont).samples[j]
            == if pos < |p.pcm| then p.pcm[pos] else if pos - |p.pcm| < |cont| then cont[pos - |p.pcm|] else SILENT
  {
    CeilBounds(|p.pcm|, w);
    var start := (p.total - 1) * w;
    assert start == p.total * w - w;
    var tail := p.pcm[start..] + cont;
    assert FinalWindow(p, w, cont).samples == Fit(tail, w);
  }

  lemma ReleaseShows(a: Asm, log: seq<Put>, ws: seq<Window>)
    requires Past(a, ws) && Shows(a, log, ws)
    ensures Shows(ReleasePending(a).0, log, ws + ReleasePending(a).1)
  {
    var (a1, held) := ReleasePending(a);
    if held == [] {
      assert ws + held == ws;
    } else {
      var p, b := a.pending.value, a.cur.value;
      var pad := PadOf(p, a.window);
      CeilBounds(|p.pcm|, a.window);
      assert (p.total - 1) * a.window == p.total * a.window - a.window;
      assert log[..|log|] == log;
      FinalCarries(p, log, a.window, b.pcm[..pad], |log|);
    }
  }

  lemma FlushShows(a: Asm, log: seq<Put>, ws: seq<Window>)
    requires Past(a, ws) && Shows(a, log, ws)
    ensures Shows(FlushPending(a).0, log, ws + FlushPending(a).1)
  {
    if a.pending.None? {
      assert ws + [] == ws;
    } else {
      var p, none, next := a.pending.value, log[..0], a.pending.value.index + 1;
      assert none == [];
      assert forall q :: LastAt(none, next, q) == SILENT;
      FinalCarries(p, log, a.window, [], 0);
    }
  }

  lemma ReadyShows(a: Asm, log: seq<Put>, ws: seq<Window>)
    requires Past(a, ws) && Shows(a, log, ws)
    ensures Shows(a.(cur := Some(Ready(a.cur.value, a.window).0)), log, ws + Ready(a.cur.value, a.window).1)
  {
    var b := a.cur.value;
    var (b', r) := Ready(b, a.window);
    if r == [] {
      assert ws + r == ws;
    } else {
      RangeCarries(b, log, a.window, b.emitted, b'.emitted);
    }
  }

  lemma LayShows(a: Asm, log: seq<Put>, ws: seq<Window>, x: seq<Frame>)
    requires Past(a, ws) && Shows(a, log, ws)
    requires a.cur.value.emitted * a.window <= a.nextOff && a.nextOff + |x| <= |a.cur.value.pcm|
    ensures Shows(Lay(a, x).0, log + [Put(a.cur.value.index, a.nextOff, x)], ws + Lay(a, x).1)
  {
    var log' := log + [Put(a.cur.value.index, a.nextOff, x)];
    var a1 := Write(a, x);
    WriteShows(a, log, ws, x);
    assert Past(a1, ws);
    hide Shows, Write, Past, OkMidCall;
    ReleaseShows(a1, log', ws);
    ReleaseKeepsPast(a1, ws);
    var (a2, held) := ReleasePending(a1);
    PastOk(a2, ws + held);
    ReadyShows(a2, log', ws + held);
    var ready := Ready(a2.cur.value, a.window).1;
    assert ws + (held + ready) == ws + held + ready;
  }

  /** Leaving an interval for a later one, flushing what it has not emitted. */
  lemma LeaveShows(a: Asm, log: seq<Put>, ws: seq<Window>, index: int, frames: nat, off: nat)
    requires Past(a, ws) && Shows(a, log, ws) && index > a.cur.value.index && LongEnough(frames, a.window)
    ensures Shows(a.(cur := Some(NewBuf(a.window, index, frames)), nextOff := off), log, ws + Remaining(a.cur.value, a.window))
  {
    var b := a.cur.value;
    RangeCarries(b, log, a.window, b.emitted, b.total);
    FreshHolds(log, index, a.window, frames, b.index);
  }

  lemma TurnShows(a: Asm, log: seq<Put>, ws: seq<Window>, frames: nat)
    requires Past(a, ws) && Shows(a, log, ws) && LongEnough(frames, a.window)
    ensures Shows(Turn(a, frames).0, log, ws + Turn(a, frames).1)
  {
    var b := a.cur.value;
    if a.nextOff >= |b.pcm| {
      if ShortFinal(b, a.window) && b.emitted == b.total - 1 {
        FreshHolds(log, b.index + 1, a.window, frames, b.index);
        assert ws + [] == ws;
      } else {
        LeaveShows(a, log, ws, b.index + 1, frames, 0);
      }
    } else {
      assert ws + [] == ws;
    }
  }

  lemma PassShows(a: Asm, log: seq<Put>, ws: seq<Window>, x: seq<Frame>, frames: nat)
    requires Past(a, ws) && Shows(a, log, ws) && LongEnough(frames, a.window) && x != []
    ensures Shows(Pass(a, x, frames).0, log + PassPuts(a, x, frames), ws + Pass(a, x, frames).2)
  {
    hide Turn, Lay, BufOk, PendingOk, Holds, UpTo, AllCarry;
    TurnShows(a, log, ws, frames);
    TurnKeepsPast(a, ws, frames);
    var (a1, w1) := Turn(a, frames);
    var (a2, rest) := TrimBehind(a1, x);
    assert Past(a2, ws + w1) && Shows(a2, log, ws + w1);
    if rest == [] {
      assert log + [] == log;
    } else {
      var n := Chunk(a2, |rest|);
      LayShows(a2, log, ws + w1, rest[..n]);
      var w2 := Lay(a2, rest[..n]).1;
      assert ws + (w1 + w2) == ws + w1 + w2;
    }
  }

  lemma {:induction false} FillShows(a: Asm, log: seq<Put>, ws: seq<Window>, x: seq<Frame>, frames: nat)
    requires Past(a, ws) && Shows(a, log, ws) && LongEnough(frames, a.window)
    ensures Shows(FillWindows(a, x, frames).0, log + FillPuts(a, x, frames), ws + FillWindows(a, x, frames).1)
    decreases |x|
  {
    hide Pass, Past, OkMidCall, Shows, PassPuts;
    PastOk(a, ws);
    if x == [] {
      assert ws + [] == ws && log + [] == log;
    } else {
      var (a1, rest, w1) := Pass(a, x, frames);
      var p1 := PassPuts(a, x, frames);
      PassKeepsPast(a, ws, x, frames);
      PassShows(a, log, ws, x, frames);
      PastOk(a1, ws + w1);
      FillShows(a1, log + p1, ws + w1, rest, frames);
      var w2, p2 := FillWindows(a1, rest, frames).1, FillPuts(a1, rest, frames);
      assert ws + (w1 + w2) == ws + w1 + w2 && log + (p1 + p2) == log + p1 + p2;
    }
  }

  lemma ReanchoredShows(a: Asm, log: seq<Put>, ws: seq<Window>, beatIdx: int, beatOff: nat, frames: nat)
    requires Ok(a) && Past(a, ws) && Shows(a, log, ws) && LongEnough(frames, a.window) && beatIdx >= a.cur.value.index
    ensures var p := Reanchored(a, beatIdx, beatOff, frames, true); Shows(p.asm, log, ws + p.windows)
  {
    var a1 := a.(resnaps := if a.anchored then a.resnaps + 1 else a.resnaps, anchored := true);
    assert Past(a1, ws) && Shows(a1, log, ws);
    if beatIdx > a.cur.value.index {
      FlushShows(a1, log, ws);
      FlushKeepsPast(a1, ws);
      var (a2, held) := FlushPending(a1);
      LeaveShows(a2, log, ws + held, beatIdx, frames, beatOff);
      assert ws + (held + Remaining(a.cur.value, a.window)) == ws + held + Remaining(a.cur.value, a.window);
    } else {
      assert ws + [] == ws;
    }
  }

  lemma PlaceShows(a: Asm, log: seq<Put>, ws: seq<Window>, beat: real, tempo: real)
    requires Ok(a) && Past(a, ws) && Shows(a, log, ws) && LongEnough(FramesAt(a, tempo), a.window)
    ensures var p := Place(a, beat, tempo, true); Shows(p.asm, log, ws + p.windows)
  {
    hide Config.IntervalSamples, Config.FrameOffset, Config.IndexAtBeat, StaysContiguous, Reanchored;
    var beatIdx := a.cfg.IndexAtBeat(beat);
    if !StaysContiguous(a, beat, tempo) && beatIdx >= a.cur.value.index {
      ReanchoredShows(a, log, ws, beatIdx, a.cfg.FrameOffset(beat, beatIdx, a.rate, tempo), FramesAt(a, tempo));
    } else {
      assert ws + [] == ws;
    }
  }

  // ---------------------------------------------------------------- runs

  /** The stamp agrees with the cursor to within a quarter of a second: the buffer goes on where the last one ended. */
  predicate OnCourse(a: Asm, b: In) {
    a.cur.Some? && a.anchored && -(a.rate / 4) <= Divergence(a, b.beat, b.tempo) <= a.rate / 4
  }

  /** It does not, and lies in an interval already left. */
  predicate TooLate(a: Asm, b: In) {
    a.cur.Some? && !OnCourse(a, b) && a.cfg.IndexAtBeat(b.beat) < a.cur.value.index
  }

  /** How many frames the drift correction adds to a buffer: towards the stamp, at most 4, and none within 10 ms. */
  function Correction(a: Asm, b: In): (k: int)
    ensures -SLEW_MAX_PER_BUFFER <= k <= SLEW_MAX_PER_BUFFER
  {
    if !OnCourse(a, b) then 0 else
      var d := Divergence(a, b.beat, b.tempo);
      if -Max(a.rate / 100, 1) <= d <= Max(a.rate / 100, 1) then 0 else Max(-4, Min(d, 4))
  }

  /** A place in an interval of some length, of which the first `out` frames have been emitted. */
  datatype Spot = Spot(interval: int, at: nat, length: nat, out: nat)

  /** Where a buffer belongs: at the cursor while on course, else where its stamp says. */
  function Belongs(a: Asm, b: In): Spot {
    var idx := a.cfg.IndexAtBeat(b.beat);
    var off := a.cfg.FrameOffset(b.beat, idx, a.rate, b.tempo);
    if a.cur.None? then Spot(idx, off, FramesAt(a, b.tempo), 0) else
      var c := a.cur.value;
      var out := if c.emitted * a.window >= 0 then c.emitted * a.window else 0;
      if OnCourse(a, b) then Spot(c.index, a.nextOff, |c.pcm|, out)
      else if idx == c.index then Spot(c.index, off, |c.pcm|, out)
      else Spot(idx, off, FramesAt(a, b.tempo), 0)
  }

  /** From the end of an interval on, the next one begins. */
  function Over(s: Spot): Spot {
    if s.at >= s.length then Spot(s.interval + 1, 0, s.length, 0) else s
  }

  /** How many of n frames laid there fall behind what has been emitted. */
  function Behindhand(s: Spot, n: nat): nat {
    Min(Max(s.out - s.at, 0), n)
  }

  /** The copies lay x from the spot on, in order and without a gap, less a head that falls behind what has been emitted. */
  ghost predicate LaysFrom(puts: seq<Put>, s: Spot, x: seq<Frame>) {
    var k := Behindhand(s, |x|);
    && Joined(puts) == x[k..] && Successive(puts)
    && (puts != [] ==> puts[0].interval == s.interval && puts[0].at == s.at + k)
  }

  lemma TurnGoesOver(a: Asm, x: seq<Frame>, frames: nat)
    requires OkMidCall(a) && a.cur.Some? && a.window > 0 && LongEnough(frames, a.window)
    ensures a.cur.value.emitted * a.window >= 0
    ensures var s := Over(Spot(a.cur.value.index, a.nextOff, |a.cur.value.pcm|, a.cur.value.emitted * a.window));
            var a1 := Turn(a, frames).0;
            a1.cur.value.index == s.interval && a1.nextOff == s.at && Late(a, x, frames) == Behindhand(s, |x|)
  {
    MulIncreasing(0, a.cur.value.emitted, a.window);
    hide OkMidCall;
  }

  /** Where placement leaves the assembler, and what correction it arms. */
  lemma PlacementIs(a: Asm, b: In)
    requires Ok(a) && a.window > 0 && TempoOk(a, b)
    ensures var p := Place(a, b.beat, b.tempo, true); var s := Belongs(a, b);
            && (p.ok <==> !TooLate(a, b))
            && (p.ok ==> var c := p.asm.cur.value;
                  && Spot(c.index, p.asm.nextOff, |c.pcm|, s.out) == s && s.out == c.emitted * a.window
                  && p.asm.pendingSlew == Correction(a, b) && p.asm.anchored)
            && (if p.ok then p.asm.droppedLate == a.droppedLate else p.asm == a.(droppedLate := a.droppedLate + 1) && p.windows == [])
            && p.asm.resnaps == (if p.ok && a.cur.Some? && a.anchored && !OnCourse(a, b) then a.resnaps + 1 else a.resnaps)
            && p.asm.slewed == a.slewed && p.asm.droppedBackfill == a.droppedBackfill
  {
    hide Config.IntervalSamples, Config.FrameOffset, Config.IndexAtBeat, Divergence, FinalWindow;
    if a.cur.Some? {
      MulIncreasing(0, a.cur.value.emitted, a.window);
    }
    assert 0 * a.window == 0;
  }

  /** The state a buffer is laid from. */
  function PlacedFor(a: Asm, b: In): (a1: Asm)
    requires Ok(a) && a.window > 0 && TempoOk(a, b) && Place(a, b.beat, b.tempo, true).ok
    ensures OkMidCall(a1) && a1.cur.Some? && SameSetup(a, a1)
  {
    SlewCounted(Place(a, b.beat, b.tempo, true).asm, |b.samples|)
  }

  /** A BUFFER LIES WHERE IT BELONGS: at the cursor while its stamp is on course, else where the stamp says; slewed, and less
      what falls behind what has been emitted. One that comes too late lays nothing. */
  lemma BufferIsLaid(a: Asm, b: In)
    requires Ok(a) && a.window > 0 && TempoOk(a, b)
    ensures if TooLate(a, b) then StepPuts(a, b) == []
            else LaysFrom(StepPuts(a, b), Over(Belongs(a, b)), Slewed(b.samples, Correction(a, b)))
  {
    hide Place, OkMidCall, Config.IntervalSamples, Slewed, Belongs, Turn, Late, Correction, TooLate, OnCourse, Over, Behindhand;
    PlacementIs(a, b);
    var p := Place(a, b.beat, b.tempo, true);
    if p.ok {
      var a1, x := PlacedFor(a, b), Slewed(b.samples, p.asm.pendingSlew);
      FillLays(a1, x, FramesAt(a, b.tempo));
      TurnGoesOver(a1, x, FramesAt(a, b.tempo));
    }
  }

  /** After the capture hop has lost buffers the next one lies where its stamp says, wherever the cursor stands. */
  lemma StampWinsAfterALoss(a: Asm, b: In)
    requires Ok(a) && a.window > 0 && TempoOk(a, b) && !TooLate(Reanchor(a), b)
    ensures var idx := a.cfg.IndexAtBeat(b.beat); var s := Belongs(Reanchor(a), b);
            s.interval == idx && s.at == a.cfg.FrameOffset(b.beat, idx, a.rate, b.tempo) && Correction(Reanchor(a), b) == 0
  {
    hide Config.IntervalSamples, Config.FrameOffset, Config.IndexAtBeat;
  }

  predicate SameCounts(r: Asm, a: Asm) {
    r.resnaps == a.resnaps && r.slewed == a.slewed && r.droppedLate == a.droppedLate && r.anchored == a.anchored
  }

  lemma LayCounts(a: Asm, x: seq<Frame>)
    requires OkMidCall(a) && a.cur.Some? && a.window > 0 && a.nextOff + |x| <= |a.cur.value.pcm|
    ensures SameCounts(Lay(a, x).0, a) && Lay(a, x).0.droppedBackfill == a.droppedBackfill
  {
    hide OkMidCall, FinalWindow, ReadyCount, Overwrite;
  }

  lemma PassCounts(a: Asm, x: seq<Frame>, frames: nat)
    requires OkMidCall(a) && a.cur.Some? && a.window > 0 && LongEnough(frames, a.window) && x != []
    ensures var r := Pass(a, x, frames).0;
            SameCounts(r, a) && r.droppedBackfill == a.droppedBackfill + if Late(a, x, frames) > 0 then 1 else 0
  {
    hide OkMidCall, Lay, Remaining;
    var (a2, rest) := TrimBehind(Turn(a, frames).0, x);
    if rest != [] {
      LayCounts(a2, rest[..Chunk(a2, |rest|)]);
    }
  }

  lemma {:induction false} FillCounts(a: Asm, x: seq<Frame>, frames: nat)
    requires OkMidCall(a) && a.cur.Some? && a.window > 0 && LongEnough(frames, a.window)
    ensures var r := FillWindows(a, x, frames).0;
            SameCounts(r, a) && r.droppedBackfill == a.droppedBackfill + if Late(a, x, frames) > 0 then 1 else 0
    decreases |x|
  {
    hide Pass, PassPuts, Turn, Late, OkMidCall, LongEnough;
    if x != [] {
      PassLays(a, x, frames);
      PassCounts(a, x, frames);
      var (a', rest, _) := Pass(a, x, frames);
      FillCounts(a', rest, frames);
      if rest != [] {
        TurnOpens(a', rest, frames);
      }
    }
  }

  /** The counters tell what happened: a buffer too late, a re-anchor, the frames a correction added or took, a head dropped
      behind what had been emitted. */
  lemma CountersTell(a: Asm, b: In)
    requires Ok(a) && a.window > 0 && TempoOk(a, b)
    ensures var r := Step(a, b).0; var x := Slewed(b.samples, Correction(a, b));
            if TooLate(a, b) then
              r == a.(droppedLate := a.droppedLate + 1)
            else
              && r.anchored && r.droppedLate == a.droppedLate
              && r.resnaps == a.resnaps + (if a.cur.Some? && a.anchored && !OnCourse(a, b) then 1 else 0)
              && r.slewed == a.slewed + Max(|x| - |b.samples|, |b.samples| - |x|)
              && r.droppedBackfill == a.droppedBackfill + if Behindhand(Over(Belongs(a, b)), |x|) > 0 then 1 else 0
  {
    hide Place, OkMidCall, Config.IntervalSamples, Slewed, Belongs, Turn, Late, Correction, TooLate, OnCourse, Over, Behindhand;
    PlacementIs(a, b);
    var p := Place(a, b.beat, b.tempo, true);
    if p.ok {
      var a1, x := PlacedFor(a, b), Slewed(b.samples, p.asm.pendingSlew);
      FillCounts(a1, x, FramesAt(a, b.tempo));
      TurnGoesOver(a1, x, FramesAt(a, b.tempo));
      SlewLength(b.samples, p.asm.pendingSlew);
    }
  }

  lemma SlewLength(samples: seq<Frame>, k: int)
    requires -SLEW_MAX_PER_BUFFER <= k <= SLEW_MAX_PER_BUFFER
    ensures |Slewed(samples, k)| == if |samples| < SLEW_WINDOW + SLEW_MAX_PER_BUFFER then |samples| else |samples| + k
  {
    SlewedIs(samples, k);
    hide Slewed, IsResampling;
  }

  /** Between operations: nothing heard yet, or every window as the log has it. */
  ghost predicate Kept(a: Asm, log: seq<Put>, ws: seq<Window>) {
    (a.cur.Some? && Past(a, ws) && Shows(a, log, ws)) || (a.cur.None? && a.pending.None? && ws == [] && log == [])
  }

  lemma BufferShows(a: Asm, log: seq<Put>, ws: seq<Window>, b: In)
    requires Ok(a) && TempoOk(a, b) && a.window > 0 && Kept(a, log, ws)
    ensures Kept(Step(a, b).0, log + StepPuts(a, b), ws + Step(a, b).1)
  {
    hide Config.IntervalSamples, Config.FrameOffset, Config.IndexAtBeat, FillWindows, FillPuts, Slewed;
    BufferKeepsPast(a, ws, b);
    var p := Place(a, b.beat, b.tempo, true);
    if a.cur.Some? {
      hide Place, Past, Shows;
      PlaceKeepsPast(a, ws, b.beat, b.tempo);
      PlaceShows(a, log, ws, b.beat, b.tempo);
    } else {
      FreshHolds([], p.asm.cur.value.index, a.window, FramesAt(a, b.tempo), p.asm.cur.value.index - 1);
    }
    assert log + [] == log;
    if p.ok {
      var a1 := SlewCounted(p.asm, |b.samples|);
      var x := Slewed(b.samples, p.asm.pendingSlew);
      assert Past(a1, ws + p.windows) && Shows(a1, log, ws + p.windows);
      FillShows(a1, log, ws + p.windows, x, FramesAt(a, b.tempo));
      var w2 := FillWindows(a1, x, FramesAt(a, b.tempo)).1;
      assert ws + (p.windows + w2) == ws + p.windows + w2;
    }
  }

  lemma {:induction false} RunShows(a: Asm, log: seq<Put>, ws: seq<Window>, ops: seq<Op>)
    requires Ok(a) && a.window > 0 && OpsOk(a, ops) && Kept(a, log, ws)
    ensures Kept(RunOps(a, ops).0, log + RunPuts(a, ops), ws + RunOps(a, ops).1)
    decreases |ops|
  {
    hide Step, StepPuts, BufOk, PendingOk, TempoOk, FramesAt, Holds, UpTo, AllCarry;
    if ops == [] {
      assert ws + [] == ws && log + [] == log;
    } else {
      SameOps(a, a, ops);
      match ops[0] {
        case Feed(b) =>
          var (a1, w1) := Step(a, b);
          var p1 := StepPuts(a, b);
          SameOps(a, a1, ops);
          BufferShows(a, log, ws, b);
          hide Kept;
          RunShows(a1, log + p1, ws + w1, ops[1..]);
          var w2, p2 := RunOps(a1, ops[1..]).1, RunPuts(a1, ops[1..]);
          assert ws + (w1 + w2) == ws + w1 + w2 && log + (p1 + p2) == log + p1 + p2;
        case Lost =>
          var a1 := Reanchor(a);
          SameOps(a, a1, ops);
          assert Kept(a1, log, ws);
          hide Kept;
          RunShows(a1, log, ws, ops[1..]);
          var w2, p2 := RunOps(a1, ops[1..]).1, RunPuts(a1, ops[1..]);
          assert ws + ([] + w2) == ws + w2 && log + ([] + p2) == log + p2;
      }
    }
  }

  lemma FlushCarries(a: Asm, log: seq<Put>, ws: seq<Window>)
    requires Ok(a) && a.window > 0 && Kept(a, log, ws)
    ensures AllCarry(ws + FlushWindows(a).1, log, a.window)
  {
    if a.cur.None? {
      assert ws + [] == ws;
    } else {
      FlushShows(a, log, ws);
      var (a1, held) := FlushPending(a);
      RangeCarries(a.cur.value, log, a.window, a.cur.value.emitted, a.cur.value.total);
    }
  }

  /** Any run of buffers and losses, whatever the stamps and tempos, and the flush that ends it: every window emitted
      carries what was last laid at its places. */
  lemma WindowsCarryWhatWasLaid(a: Asm, ops: seq<Op>)
    requires Cold(a) && OpsOk(a, ops)
    ensures forall x <- RunOps(a, ops).1 + FlushWindows(RunOps(a, ops).0).1 :: Carries(x, RunPuts(a, ops), a.window)
  {
    RunShows(a, [], [], ops);
    assert [] + RunOps(a, ops).1 == RunOps(a, ops).1 && [] + RunPuts(a, ops) == RunPuts(a, ops);
    FlushCarries(RunOps(a, ops).0, RunPuts(a, ops), RunOps(a, ops).1);
  }
}
