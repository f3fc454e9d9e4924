/** What every call emits comes out in order, whatever the stamps; and when no held window is ever lost. */
module AssemblerCalls {
  import opened Common
  import opened Audio
  import opened Interval
  import opened AssemblerModel
  import opened AssemblerRuns
  import opened AssemblerReanchor
  import opened AssemblerOwed

  predicate Before(x: Window, y: Window) {
    x.interval < y.interval || (x.interval == y.interval && x.number < y.number)
  }

  predicate Ascending(ws: seq<Window>) {
    forall i, j :: 0 <= i < j < |ws| ==> Before(ws[i], ws[j])
  }

  lemma AscendingJoin(u: seq<Window>, v: seq<Window>)
    requires Ascending(u) && Ascending(v) && forall x, y :: x in u && y in v ==> Before(x, y)
    ensures Ascending(u + v)
  {
    var ws := u + v;
    forall i, j | 0 <= i < j < |ws|
      ensures Before(ws[i], ws[j])
    {
      if i < |u| <= j {
        assert ws[i] in u && ws[j] in v;
      } else if |u| <= i {
        assert ws[i] == v[i - |u|] && ws[j] == v[j - |u|];
      }
    }
  }

  /** The held window's turn is still to come: the interval after its own is at hand, and has not covered its padding. */
  predicate Waits(a: Asm) {
    a.pending.Some? && a.cur.Some? && a.cur.value.index == a.pending.value.index + 1
  }

  /** While it waits, the interval at hand has emitted nothing. */
  predicate Tidy(a: Asm) {
    && OkMidCall(a) && a.window > 0
    && (a.pending.Some? ==> a.cur.Some? && a.pending.value.index < a.cur.value.index)
    && (Waits(a) ==> a.cur.value.emitted == 0 && a.cur.value.written < PadOf(a.pending.value, a.window))
  }

  predicate AllBefore(ws: seq<Window>, index: int, number: int) {
    forall x <- ws :: x.interval < index || (x.interval == index && x.number < number)
  }

  /** What a call has emitted so far is in order, and before all it can still emit. */
  predicate InStep(a: Asm, ws: seq<Window>) {
    && Tidy(a) && a.cur.Some? && Ascending(ws) && AllBefore(ws, a.cur.value.index, a.cur.value.emitted)
    && (Waits(a) ==> AllBefore(ws, a.pending.value.index, a.pending.value.total - 1))
  }

  lemma RangeInStep(ws: seq<Window>, b: Buf, w: nat, to: nat)
    requires Ascending(ws) && AllBefore(ws, b.index, b.emitted) && b.emitted <= to
    ensures Ascending(ws + WindowsOf(b, w, b.emitted, to)) && AllBefore(ws + WindowsOf(b, w, b.emitted, to), b.index, to)
  {
    AscendingJoin(ws, WindowsOf(b, w, b.emitted, to));
  }

  lemma OneInStep(ws: seq<Window>, f: Window)
    requires Ascending(ws) && AllBefore(ws, f.interval, f.number)
    ensures Ascending(ws + [f]) && AllBefore(ws + [f], f.interval, f.number + 1)
  {
    AscendingJoin(ws, [f]);
  }

  lemma Later(ws: seq<Window>, index: int, number: int, next: int, m: int)
    requires AllBefore(ws, index, number) && index < next
    ensures AllBefore(ws, next, m)
  {
  }

  /** In order but for the interval at hand, whose frames just written may make a waiting window due. */
  predicate Written(a: Asm, ws: seq<Window>) {
    && OkMidCall(a) && a.window > 0 && a.cur.Some?
    && (a.pending.Some? ==> a.pending.value.index < a.cur.value.index)
    && Ascending(ws) && AllBefore(ws, a.cur.value.index, a.cur.value.emitted)
    && (Waits(a) ==> a.cur.value.emitted == 0 && AllBefore(ws, a.pending.value.index, a.pending.value.total - 1))
  }

  lemma WriteInStep(a: Asm, ws: seq<Window>, x: seq<Frame>)
    requires InStep(a, ws) && a.nextOff + |x| <= |a.cur.value.pcm|
    ensures Written(Write(a, x), ws) && SameSetup(a, Write(a, x))
  {
    hide Ascending, AllBefore, Overwrite;
  }

  lemma ReleaseInStep(a: Asm, ws: seq<Window>)
    requires Written(a, ws)
    ensures InStep(ReleasePending(a).0, ws + ReleasePending(a).1) && SameSetup(a, ReleasePending(a).0)
  {
    hide Ascending, AllBefore, FinalWindow;
    var (a2, held) := ReleasePending(a);
    var b := a2.cur.value;
    if held != [] {
      assert held == [held[0]];
      HeldIsFinal(a);
      OneInStep(ws, held[0]);
      Later(ws + held, a.pending.value.index, a.pending.value.total, b.index, b.emitted);
    } else {
      assert ws + held == ws;
    }
  }

  lemma ReadyInStep(a: Asm, ws: seq<Window>)
    requires InStep(a, ws)
    ensures InStep(a.(cur := Some(Ready(a.cur.value, a.window).0)), ws + Ready(a.cur.value, a.window).1)
  {
    hide Ascending, AllBefore;
    var b := a.cur.value;
    var (b', ready) := Ready(b, a.window);
    if Waits(a) {
      NoneReady(b, a.window, PadOf(a.pending.value, a.window));
    }
    if ready == [] {
      assert ws + ready == ws;
    } else {
      RangeInStep(ws, b, a.window, b'.emitted);
    }
  }

  lemma LayInStep(a: Asm, ws: seq<Window>, x: seq<Frame>)
    requires InStep(a, ws) && a.nextOff + |x| <= |a.cur.value.pcm|
    ensures InStep(Lay(a, x).0, ws + Lay(a, x).1)
  {
    hide Ascending, AllBefore, InStep, Written, Write, OkMidCall, ReleasePending, Ready, BufOk, Tidy;
    InStepOk(a, ws);
    var a1 := Write(a, x);
    WriteInStep(a, ws, x);
    ReleaseInStep(a1, ws);
    var (a2, held) := ReleasePending(a1);
    InStepOk(a2, ws + held);
    ReadyInStep(a2, ws + held);
    var ready := Ready(a2.cur.value, a.window).1;
    assert ws + (held + ready) == ws + held + ready;
  }

  /** A write up to the interval's end makes a waiting window due. */
  lemma LayToTheEnd(a: Asm, x: seq<Frame>)
    requires OkMidCall(a) && a.window > 0 && a.cur.Some? && a.nextOff + |x| == |a.cur.value.pcm| && x != []
    ensures !Waits(Lay(a, x).0)
  {
    hide FinalWindow, ReadyCount;
  }

  lemma HeldIsFinal(a: Asm)
    requires OkMidCall(a) && ReleasePending(a).1 != []
    ensures var f, p := ReleasePending(a).1[0], a.pending.value;
            f.interval == p.index && f.number == p.total - 1 && a.cur.Some? && a.cur.value.index == p.index + 1
  {
  }

  lemma NoneReady(b: Buf, window: nat, pad: nat)
    requires window > 0 && BufOk(b, window) && b.written < pad < window
    ensures ReadyCount(b, window) == 0
  {
  }

  lemma TurnInStep(a: Asm, ws: seq<Window>, frames: nat)
    requires InStep(a, ws) && LongEnough(frames, a.window)
    ensures InStep(Turn(a, frames).0, ws + Turn(a, frames).1)
  {
    hide Ascending;
    var b := a.cur.value;
    if a.nextOff >= |b.pcm| && !(ShortFinal(b, a.window) && b.emitted == b.total - 1) {
      RangeInStep(ws, b, a.window, b.total);
    } else {
      assert ws + [] == ws;
    }
  }

  lemma TrimInStep(a: Asm, ws: seq<Window>, x: seq<Frame>)
    requires InStep(a, ws) && x != []
    ensures InStep(TrimBehind(a, x).0, ws)
  {
    hide Ascending, AllBefore;
  }

  lemma PassInStep(a: Asm, ws: seq<Window>, x: seq<Frame>, frames: nat)
    requires InStep(a, ws) && LongEnough(frames, a.window) && x != []
    ensures InStep(Pass(a, x, frames).0, ws + Pass(a, x, frames).2)
  {
    hide Turn, Lay, InStep, OkMidCall;
    InStepOk(a, ws);
    TurnInStep(a, ws, frames);
    var (a1, w1) := Turn(a, frames);
    TrimInStep(a1, ws + w1, x);
    var (a2, rest) := TrimBehind(a1, x);
    if rest != [] {
      var n := Chunk(a2, |rest|);
      LayInStep(a2, ws + w1, rest[..n]);
      var w2 := Lay(a2, rest[..n]).1;
      assert ws + (w1 + w2) == ws + w1 + w2;
    }
  }

  lemma InStepOk(a: Asm, ws: seq<Window>)
    requires InStep(a, ws)
    ensures OkMidCall(a) && a.window > 0 && a.cur.Some? && BufOk(a.cur.value, a.window) && Ascending(ws) && Tidy(a)
  {
  }

  lemma {:induction false} FillInStep(a: Asm, ws: seq<Window>, x: seq<Frame>, frames: nat)
    requires InStep(a, ws) && LongEnough(frames, a.window)
    ensures InStep(FillWindows(a, x, frames).0, ws + FillWindows(a, x, frames).1)
    decreases |x|
  {
    hide Pass, InStep, OkMidCall;
    InStepOk(a, ws);
    if x == [] {
      assert ws + [] == ws;
    } else {
      var (a1, rest, w1) := Pass(a, x, frames);
      PassInStep(a, ws, x, frames);
      InStepOk(a1, ws + w1);
      FillInStep(a1, ws + w1, rest, frames);
      var w2 := FillWindows(a1, rest, frames).1;
      assert ws + (w1 + w2) == ws + w1 + w2;
    }
  }

  lemma PlaceInStep(a: Asm, beat: real, tempo: real)
    requires Ok(a) && Tidy(a) && LongEnough(FramesAt(a, tempo), a.window)
    ensures var p := Place(a, beat, tempo, true);
            Tidy(p.asm) && Ascending(p.windows) && (p.ok ==> InStep(p.asm, p.windows)) && (!p.ok ==> p.windows == [])
  {
    hide Config.IntervalSamples, Config.FrameOffset, Config.IndexAtBeat, StaysContiguous, FinalWindow;
    var p := Place(a, beat, tempo, true);
    var beatIdx := a.cfg.IndexAtBeat(beat);
    if a.cur.Some? && !StaysContiguous(a, beat, tempo) && beatIdx > a.cur.value.index {
      var b := a.cur.value;
      var held := FlushPending(a).1;
      if a.pending.Some? {
        FlushedIsFinal(a);
      }
      RangeInStep(held, b, a.window, b.total);
    }
  }

  lemma FlushedIsFinal(a: Asm)
    requires OkMidCall(a) && a.pending.Some?
    ensures var held, p := FlushPending(a).1, a.pending.value;
            |held| == 1 && held[0].interval == p.index && held[0].number == p.total - 1
  {
  }

  /** One buffer, whatever its stamp. */
  lemma BufferInStep(a: Asm, b: In)
    requires Ok(a) && TempoOk(a, b) && Tidy(a)
    ensures Tidy(Step(a, b).0) && Ascending(Step(a, b).1)
  {
    hide Config.IntervalSamples, Place, FillWindows, Slewed, InStep, OkMidCall, Ascending;
    var p := Place(a, b.beat, b.tempo, true);
    PlaceInStep(a, b.beat, b.tempo);
    if p.ok {
      var a1, x := SlewCounted(p.asm, |b.samples|), Slewed(b.samples, p.asm.pendingSlew);
      SlewInStep(p.asm, a1, p.windows);
      FillInStep(a1, p.windows, x, FramesAt(a, b.tempo));
      InStepOk(Step(a, b).0, Step(a, b).1);
    }
  }

  lemma SlewInStep(a: Asm, b: Asm, ws: seq<Window>)
    requires InStep(a, ws) && b == a.(pendingSlew := b.pendingSlew, slewed := b.slewed, anchored := b.anchored)
    ensures InStep(b, ws)
  {
    hide Ascending;
  }

  // ---------------------------------------------------------------- runs

  lemma {:induction false} RunTidy(a: Asm, ops: seq<Op>)
    requires Ok(a) && OpsOk(a, ops) && Tidy(a)
    ensures Tidy(RunOps(a, ops).0)
    decreases |ops|
  {
    hide Step, Tidy, TempoOk, OkMidCall, Ascending;
    TidyOk(a);
    if ops != [] {
      SameOps(a, a, ops);
      match ops[0] {
        case Feed(b) =>
          BufferInStep(a, b);
          SameOps(a, Step(a, b).0, ops);
          RunTidy(Step(a, b).0, ops[1..]);
        case Lost =>
          TidyAnyway(a, Reanchor(a));
          SameOps(a, Reanchor(a), ops);
          RunTidy(Reanchor(a), ops[1..]);
      }
    }
  }

  lemma TidyOk(a: Asm)
    requires Tidy(a)
    ensures a.window > 0
  {
  }

  lemma TidyAnyway(a: Asm, b: Asm)
    requires Ok(a) && Tidy(a) && b == a.(anchored := b.anchored)
    ensures Ok(b) && Tidy(b)
  {
  }

  /** EVERY CALL EMITS IN ORDER: after any run of buffers and losses, whatever the stamps and tempos, what the next buffer
      releases comes out interval by interval, number by number. */
  lemma EveryCallIsInOrder(a: Asm, ops: seq<Op>, b: In)
    requires Cold(a) && OpsOk(a, ops) && TempoOk(RunOps(a, ops).0, b)
    ensures Ascending(Step(RunOps(a, ops).0, b).1)
  {
    hide Ascending, TempoOk;
    RunTidy(a, ops);
    BufferInStep(RunOps(a, ops).0, b);
  }

  // ---------------------------------------------------------------- when nothing is lost

  /** The stamp puts the cursor at or past the end of the interval at hand while a final window is held. */
  predicate Strands(a: Asm, b: In)
    requires Ok(a) && a.window > 0 && TempoOk(a, b)
  {
    var p := Place(a, b.beat, b.tempo, true);
    p.ok && p.asm.pending.Some? && p.asm.nextOff >= |p.asm.cur.value.pcm|
  }

  predicate NeverStrands(a: Asm, ops: seq<Op>)
    requires Ok(a) && a.window > 0 && OpsOk(a, ops)
    decreases |ops|
  {
    ops == [] || (
      SameOps(a, a, ops);
      var a1 := match ops[0] case Feed(b) => Step(a, b).0 case Lost => Reanchor(a);
      SameOps(a, a1, ops);
      (ops[0].Feed? ==> !Strands(a, ops[0].buffer)) && NeverStrands(a1, ops[1..]))
  }

  /** A held window waits for the interval at hand, which the cursor has not left. */
  predicate Snug(a: Asm) {
    Tidy(a) && (a.pending.Some? ==> Waits(a) && a.nextOff < |a.cur.value.pcm|)
  }

  lemma PassSnug(a: Asm, x: seq<Frame>, frames: nat)
    requires Snug(a) && a.cur.Some? && LongEnough(frames, a.window) && x != []
    ensures Snug(Pass(a, x, frames).0) && Replaced(a) == {}
  {
    hide Turn, Lay, Ascending;
    TurnSnug(a, frames);
    var (a1, w1) := Turn(a, frames);
    var (a2, rest) := TrimBehind(a1, x);
    if rest != [] {
      var n := Chunk(a2, |rest|);
      assert Snug(a2) by {
        if a1.pending.Some? {
          assert a1.cur.value.emitted * a1.window == 0;
        }
      }
      LaySnug(a2, rest[..n]);
    }
  }

  lemma TurnSnug(a: Asm, frames: nat)
    requires Snug(a) && a.cur.Some? && LongEnough(frames, a.window)
    ensures Snug(Turn(a, frames).0)
  {
  }

  lemma LaySnug(a: Asm, x: seq<Frame>)
    requires Snug(a) && a.cur.Some? && a.nextOff + |x| <= |a.cur.value.pcm|
    ensures Snug(Lay(a, x).0)
  {
    hide Ascending, AllBefore, FinalWindow;
    assert InStep(a, []) by {
      NothingBefore(a);
    }
    LayInStep(a, [], x);
    if a.nextOff + |x| == |a.cur.value.pcm| && x != [] {
      LayToTheEnd(a, x);
    }
    LayLeaves(a, x);
  }

  lemma LayLeaves(a: Asm, x: seq<Frame>)
    requires OkMidCall(a) && a.cur.Some? && a.window > 0 && a.nextOff + |x| <= |a.cur.value.pcm|
    ensures var r := Lay(a, x).0;
            && r.cur.value.index == a.cur.value.index && |r.cur.value.pcm| == |a.cur.value.pcm| && r.nextOff == a.nextOff + |x|
            && (r.pending.Some? ==> r.pending == a.pending)
  {
    hide OkMidCall, FinalWindow, ReadyCount;
  }

  lemma NothingBefore(a: Asm)
    requires Tidy(a) && a.cur.Some?
    ensures InStep(a, [])
  {
  }

  lemma {:induction false} FillSnug(a: Asm, x: seq<Frame>, frames: nat)
    requires Snug(a) && a.cur.Some? && LongEnough(frames, a.window)
    ensures Snug(FillWindows(a, x, frames).0) && FillLedger(a, x, frames).lost == {}
    decreases |x|
  {
    hide Pass, Snug, Entered, Replaced;
    SnugOk(a);
    if x != [] {
      PassSnug(a, x, frames);
      var a1 := Pass(a, x, frames).0;
      SnugOk(a1);
      FillSnug(a1, Pass(a, x, frames).1, frames);
    }
  }

  lemma SnugOk(a: Asm)
    requires Snug(a)
    ensures OkMidCall(a) && a.window > 0 && Tidy(a)
  {
  }

  lemma BufferSnug(a: Asm, b: In)
    requires Ok(a) && TempoOk(a, b) && Snug(a) && !Strands(a, b)
    ensures Snug(Step(a, b).0) && StepLedger(a, b).lost == {}
  {
    hide Config.IntervalSamples, FillWindows, FillLedger, Slewed, Ascending, AllBefore, Place, Entered;
    var p := Place(a, b.beat, b.tempo, true);
    PlaceInStep(a, b.beat, b.tempo);
    PlaceKeepsHeld(a, b.beat, b.tempo);
    assert Snug(p.asm);
    if p.ok {
      FillSnug(SlewCounted(p.asm, |b.samples|), Slewed(b.samples, p.asm.pendingSlew), FramesAt(a, b.tempo));
    }
  }

  /** A stamp keeps the held window only by keeping the interval, and moves the cursor only where it is accepted. */
  lemma PlaceKeepsHeld(a: Asm, beat: real, tempo: real)
    requires Ok(a) && Tidy(a) && LongEnough(FramesAt(a, tempo), a.window)
    ensures var q := Place(a, beat, tempo, true);
            && (q.asm.pending.Some? ==> q.asm.pending == a.pending && q.asm.cur == a.cur)
            && (!q.ok ==> q.asm.nextOff == a.nextOff)
  {
    hide Config.IntervalSamples, Config.FrameOffset, Config.IndexAtBeat, StaysContiguous, FinalWindow;
  }

  lemma {:induction false} RunSnug(a: Asm, ops: seq<Op>)
    requires Ok(a) && a.window > 0 && OpsOk(a, ops) && Snug(a) && NeverStrands(a, ops)
    ensures RunLedger(a, ops).lost == {}
    decreases |ops|
  {
    hide Step, StepLedger, Snug, TempoOk, OkMidCall, Strands;
    if ops != [] {
      SameOps(a, a, ops);
      match ops[0] {
        case Feed(b) =>
          BufferSnug(a, b);
          SameOps(a, Step(a, b).0, ops);
          RunSnug(Step(a, b).0, ops[1..]);
        case Lost =>
          SnugAnyway(a, Reanchor(a));
          SameOps(a, Reanchor(a), ops);
          RunSnug(Reanchor(a), ops[1..]);
      }
    }
  }

  lemma SnugAnyway(a: Asm, b: Asm)
    requires Ok(a) && Snug(a) && b == a.(anchored := b.anchored)
    ensures Ok(b) && Snug(b)
  {
  }

  /** NOTHING IS LOST while no stamp puts the cursor at an interval's end with a window held: every window of every interval
      opened comes out. */
  lemma NothingIsLost(a: Asm, ops: seq<Op>)
    requires Cold(a) && OpsOk(a, ops) && NeverStrands(a, ops)
    ensures Keys(RunOps(a, ops).1 + FlushWindows(RunOps(a, ops).0).1) == RunLedger(a, ops).begun
  {
    hide Keys;
    EveryWindowComesOut(a, ops);
    RunSnug(a, ops);
  }
}
