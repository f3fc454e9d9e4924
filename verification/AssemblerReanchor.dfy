/** With re-anchors: whatever jumps the stamps make, no (interval, number) pair is ever emitted twice. */
module AssemblerReanchor {
  import opened Common
  import opened Audio
  import opened Interval
  import opened AssemblerModel
  import opened AssemblerRuns

  predicate SameSlot(p: Window, q: Window) {
    p.interval == q.interval && p.number == q.number
  }

  predicate Unique(ws: seq<Window>) {
    forall i, j :: 0 <= i < j < |ws| ==> !SameSlot(ws[i], ws[j])
  }

  /** Everything emitted lies before what the current interval will emit next. */
  predicate Behind(x: Window, b: Buf) {
    x.interval < b.index || (x.interval == b.index && x.number < b.emitted)
  }

  predicate IsFinalOf(x: Window, p: Buf) {
    x.interval == p.index && x.number == p.total - 1
  }

  /** The emission state after the windows `ws`: nothing they hold can be emitted again. */
  ghost predicate Past(a: Asm, ws: seq<Window>) {
    && OkMidCall(a) && a.window > 0 && a.cur.Some?
    && Unique(ws)
    && (forall x <- ws :: Behind(x, a.cur.value))
    && (a.pending.Some? ==>
          && a.pending.value.index < a.cur.value.index
          && forall x <- ws :: !IsFinalOf(x, a.pending.value))
  }

  lemma UniqueJoin(u: seq<Window>, v: seq<Window>)
    requires Unique(u) && Unique(v)
    requires forall x, y :: x in u && y in v ==> !SameSlot(x, y)
    ensures Unique(u + v)
  {
    var ws := u + v;
    forall i, j | 0 <= i < j < |ws|
      ensures !SameSlot(ws[i], ws[j])
    {
      if i < |u| <= j {
        assert ws[i] in u && ws[j] in v;
      } else if |u| <= i {
        assert ws[i] == v[i - |u|] && ws[j] == v[j - |u|];
      }
    }
  }

  lemma RangeIsFresh(ws: seq<Window>, b: Buf, w: nat, to: nat)
    requires Unique(ws) && b.emitted <= to && forall x <- ws :: Behind(x, b)
    ensures Unique(ws + WindowsOf(b, w, b.emitted, to))
    ensures forall x <- ws + WindowsOf(b, w, b.emitted, to) :: Behind(x, b.(emitted := to))
  {
    UniqueJoin(ws, WindowsOf(b, w, b.emitted, to));
  }

  lemma RangeSparesPending(ws: seq<Window>, b: Buf, w: nat, to: nat, p: Buf)
    requires b.emitted <= to && p.index < b.index && forall x <- ws :: !IsFinalOf(x, p)
    ensures forall x <- ws + WindowsOf(b, w, b.emitted, to) :: !IsFinalOf(x, p)
  {
  }

  lemma FinalIsFresh(a: Asm, ws: seq<Window>, f: Window)
    requires Past(a, ws) && a.pending.Some? && IsFinalOf(f, a.pending.value)
    ensures Past(a.(pending := None), ws + [f])
  {
    UniqueJoin(ws, [f]);
  }

  lemma ReleaseKeepsPast(a: Asm, ws: seq<Window>)
    requires Past(a, ws)
    ensures Past(ReleasePending(a).0, ws + ReleasePending(a).1)
  {
    if ReleasePending(a).1 == [] {
      assert ws + [] == ws;
    } else {
      FinalIsFresh(a, ws, ReleasePending(a).1[0]);
    }
  }

  lemma FlushKeepsPast(a: Asm, ws: seq<Window>)
    requires Past(a, ws)
    ensures Past(FlushPending(a).0, ws + FlushPending(a).1)
  {
    if a.pending.None? {
      assert ws + [] == ws;
    } else {
      FinalIsFresh(a, ws, FlushPending(a).1[0]);
    }
  }

  lemma LayKeepsPast(a: Asm, ws: seq<Window>, x: seq<Frame>)
    requires Past(a, ws) && a.nextOff + |x| <= |a.cur.value.pcm|
    ensures Past(Lay(a, x).0, ws + Lay(a, x).1)
  {
    var a1 := Write(a, x);
    assert Past(a1, ws);
    ReleaseKeepsPast(a1, ws);
    var (a2, held) := ReleasePending(a1);
    ReadyKeepsPast(a2, ws + held);
    var ready := Ready(a2.cur.value, a.window).1;
    assert ws + (held + ready) == ws + held + ready;
  }

  lemma ReadyKeepsPast(a: Asm, ws: seq<Window>)
    requires Past(a, ws)
    ensures Past(a.(cur := Some(Ready(a.cur.value, a.window).0)), ws + Ready(a.cur.value, a.window).1)
  {
    var b := a.cur.value;
    var (b', r) := Ready(b, a.window);
    if r == [] {
      assert ws + r == ws;
    } else {
      RangeIsFresh(ws, b, a.window, b'.emitted);
      if a.pending.Some? {
        RangeSparesPending(ws, b, a.window, b'.emitted, a.pending.value);
      }
    }
  }

  /** Leaving an interval for a later one, flushing what it has not emitted. */
  lemma LeaveKeepsPast(a: Asm, ws: seq<Window>, nb: Buf, off: nat)
    requires Past(a, ws) && nb.index > a.cur.value.index && BufOk(nb, a.window)
    ensures Past(a.(cur := Some(nb), nextOff := off), ws + Remaining(a.cur.value, a.window))
  {
    var b := a.cur.value;
    RangeIsFresh(ws, b, a.window, b.total);
    if a.pending.Some? {
      RangeSparesPending(ws, b, a.window, b.total, a.pending.value);
    }
  }

  lemma TurnKeepsPast(a: Asm, ws: seq<Window>, frames: nat)
    requires Past(a, ws) && LongEnough(frames, a.window)
    ensures Past(Turn(a, frames).0, ws + Turn(a, frames).1)
  {
    var b := a.cur.value;
    if a.nextOff >= |b.pcm| {
      if ShortFinal(b, a.window) && b.emitted == b.total - 1 {
        assert ws + [] == ws;
      } else {
        LeaveKeepsPast(a, ws, NewBuf(a.window, b.index + 1, frames), 0);
      }
    } else {
      assert ws + [] == ws;
    }
  }

  lemma PassKeepsPast(a: Asm, ws: seq<Window>, x: seq<Frame>, frames: nat)
    requires Past(a, ws) && LongEnough(frames, a.window) && x != []
    ensures Past(Pass(a, x, frames).0, ws + Pass(a, x, frames).2)
  {
    hide Turn, Lay, BufOk, PendingOk;
    TurnKeepsPast(a, ws, frames);
    var (a1, w1) := Turn(a, frames);
    var (a2, rest) := TrimBehind(a1, x);
    assert Past(a2, ws + w1);
    if rest != [] {
      var n := Chunk(a2, |rest|);
      LayKeepsPast(a2, ws + w1, rest[..n]);
      var w2 := Lay(a2, rest[..n]).1;
      assert ws + (w1 + w2) == ws + w1 + w2;
    }
  }

  lemma PastOk(a: Asm, ws: seq<Window>)
    requires Past(a, ws)
    ensures OkMidCall(a) && a.window > 0 && a.cur.Some?
  {
  }

  lemma {:induction false} FillKeepsPast(a: Asm, ws: seq<Window>, x: seq<Frame>, frames: nat)
    requires Past(a, ws) && LongEnough(frames, a.window)
    ensures Past(FillWindows(a, x, frames).0, ws + FillWindows(a, x, frames).1)
    decreases |x|
  {
    hide Pass, Past, OkMidCall;
    PastOk(a, ws);
    if x == [] {
      assert ws + [] == ws;
    } else {
      var (a1, rest, w1) := Pass(a, x, frames);
      PassKeepsPast(a, ws, x, frames);
      PastOk(a1, ws + w1);
      FillKeepsPast(a1, ws + w1, rest, frames);
      var w2 := FillWindows(a1, rest, frames).1;
      assert ws + (w1 + w2) == ws + w1 + w2;
    }
  }

  lemma ReanchoredKeepsPast(a: Asm, ws: seq<Window>, beatIdx: int, beatOff: nat, frames: nat)
    requires Ok(a) && Past(a, ws) && LongEnough(frames, a.window) && beatIdx >= a.cur.value.index
    ensures var p := Reanchored(a, beatIdx, beatOff, frames, true); Past(p.asm, ws + p.windows)
  {
    var a1 := a.(resnaps := if a.anchored then a.resnaps + 1 else a.resnaps, anchored := true);
    assert Past(a1, ws);
    if beatIdx > a.cur.value.index {
      FlushKeepsPast(a1, ws);
      var (a2, held) := FlushPending(a1);
      LeaveKeepsPast(a2, ws + held, NewBuf(a.window, beatIdx, frames), beatOff);
      assert ws + (held + Remaining(a.cur.value, a.window)) == ws + held + Remaining(a.cur.value, a.window);
    } else {
      assert ws + [] == ws;
    }
  }

  lemma PlaceKeepsPast(a: Asm, ws: seq<Window>, beat: real, tempo: real)
    requires Ok(a) && Past(a, ws) && LongEnough(FramesAt(a, tempo), a.window)
    ensures var p := Place(a, beat, tempo, true); Past(p.asm, ws + p.windows)
  {
    hide Config.IntervalSamples, Config.FrameOffset, Config.IndexAtBeat, StaysContiguous, Reanchored;
    var beatIdx := a.cfg.IndexAtBeat(beat);
    var p := Place(a, beat, tempo, true);
    if !StaysContiguous(a, beat, tempo) && beatIdx >= a.cur.value.index {
      ReanchoredKeepsPast(a, ws, beatIdx, a.cfg.FrameOffset(beat, beatIdx, a.rate, tempo), FramesAt(a, tempo));
    } else {
      assert ws + [] == ws;
    }
  }

  /** Between operations: nothing heard yet, or past what was emitted. */
  ghost predicate Stands(a: Asm, ws: seq<Window>) {
    (a.cur.Some? && Past(a, ws)) || (a.cur.None? && a.pending.None? && ws == [])
  }

  /** One buffer, re-anchoring or not, emits only windows that were never emitted before. */
  lemma BufferKeepsPast(a: Asm, ws: seq<Window>, b: In)
    requires Ok(a) && TempoOk(a, b) && a.window > 0
    requires Stands(a, ws)
    ensures Step(a, b).0.cur.Some? && Past(Step(a, b).0, ws + Step(a, b).1)
  {
    hide Config.IntervalSamples, Config.FrameOffset, Config.IndexAtBeat, FillWindows, Slewed;
    var p := Place(a, b.beat, b.tempo, true);
    if a.cur.Some? {
      hide Place, Past;
      PlaceKeepsPast(a, ws, b.beat, b.tempo);
      PastCur(p.asm, ws + p.windows);
    }
    if p.ok {
      var a1 := SlewCounted(p.asm, |b.samples|);
      PastIgnoresCounters(p.asm, a1, ws + p.windows);
      FillKeepsPast(a1, ws + p.windows, Slewed(b.samples, p.asm.pendingSlew), FramesAt(a, b.tempo));
      var w2 := FillWindows(a1, Slewed(b.samples, p.asm.pendingSlew), FramesAt(a, b.tempo)).1;
      assert ws + (p.windows + w2) == ws + p.windows + w2;
    }
  }

  lemma PastCur(a: Asm, ws: seq<Window>)
    requires Past(a, ws)
    ensures a.cur.Some?
  {
  }

  lemma PastIgnoresCounters(a: Asm, b: Asm, ws: seq<Window>)
    requires Past(a, ws) && b == a.(pendingSlew := b.pendingSlew, slewed := b.slewed, anchored := b.anchored)
    ensures Past(b, ws)
  {
  }

  // ---------------------------------------------------------------- runs

  /** What the drain loop does to its assembler: feed a buffer, or note that the capture hop lost some. */
  datatype Op = Feed(buffer: In) | Lost

  predicate OpsOk(a: Asm, ops: seq<Op>) {
    forall i :: 0 <= i < |ops| && ops[i].Feed? ==> TempoOk(a, ops[i].buffer)
  }

  lemma SameOps(a: Asm, b: Asm, ops: seq<Op>)
    requires SameSetup(a, b) && OpsOk(a, ops)
    ensures OpsOk(b, ops)
    ensures |ops| > 0 ==> (ops[0].Feed? ==> TempoOk(a, ops[0].buffer)) && OpsOk(b, ops[1..])
  {
    hide Config.IntervalSamples;
    forall i | 0 <= i < |ops| && ops[i].Feed?
      ensures TempoOk(b, ops[i].buffer)
    {
      assert TempoOk(a, ops[i].buffer);
    }
  }

  function RunOps(a: Asm, ops: seq<Op>): (r: (Asm, seq<Window>))
    requires Ok(a) && a.window > 0 && OpsOk(a, ops)
    ensures Ok(r.0) && SameSetup(a, r.0)
    decreases |ops|
  {
    if ops == [] then
      (a, [])
    else
      SameOps(a, a, ops);
      var (a1, w1) := match ops[0] case Feed(b) => Step(a, b) case Lost => (Reanchor(a), []);
      SameOps(a, a1, ops);
      var (a2, w2) := RunOps(a1, ops[1..]);
      (a2, w1 + w2)
  }

  lemma {:induction false} RunKeepsPast(a: Asm, ws: seq<Window>, ops: seq<Op>)
    requires Ok(a) && a.window > 0 && OpsOk(a, ops)
    requires Stands(a, ws)
    ensures Stands(RunOps(a, ops).0, ws + RunOps(a, ops).1)
    decreases |ops|
  {
    hide Step, BufOk, PendingOk, TempoOk, FramesAt;
    if ops == [] {
      assert ws + [] == ws;
    } else {
      SameOps(a, a, ops);
      match ops[0] {
        case Feed(b) =>
          var (a1, w1) := Step(a, b);
          SameOps(a, a1, ops);
          BufferKeepsPast(a, ws, b);
          RunKeepsPast(a1, ws + w1, ops[1..]);
          var w2 := RunOps(a1, ops[1..]).1;
          assert ws + (w1 + w2) == ws + w1 + w2;
        case Lost =>
          var a1 := Reanchor(a);
          SameOps(a, a1, ops);
          if a.cur.Some? {
            PastIgnoresCounters(a, a1, ws);
          }
          RunKeepsPast(a1, ws, ops[1..]);
          var w2 := RunOps(a1, ops[1..]).1;
          assert ws + ([] + w2) == ws + w2;
      }
    }
  }

  /** The final flush emits only windows that were never emitted before. */
  lemma FlushStaysUnique(a: Asm, ws: seq<Window>)
    requires Ok(a) && Stands(a, ws)
    ensures Unique(ws + FlushWindows(a).1)
  {
    if a.cur.None? {
      assert ws + [] == ws;
    } else {
      FlushKeepsPast(a, ws);
      var (a1, held) := FlushPending(a);
      RangeIsFresh(ws + held, a.cur.value, a.window, a.cur.value.total);
      assert ws + (held + Remaining(a.cur.value, a.window)) == ws + held + Remaining(a.cur.value, a.window);
    }
  }

  /** Any run of buffers and losses, whatever the stamps and tempos, and the flush that ends it: every emitted
      (interval, number) is new. */
  lemma NeverTwice(a: Asm, ops: seq<Op>)
    requires Cold(a) && OpsOk(a, ops)
    ensures Unique(RunOps(a, ops).1 + FlushWindows(RunOps(a, ops).0).1)
  {
    RunKeepsPast(a, [], ops);
    assert [] + RunOps(a, ops).1 == RunOps(a, ops).1;
    FlushStaysUnique(RunOps(a, ops).0, RunOps(a, ops).1);
  }
}
