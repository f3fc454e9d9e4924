/** Nothing owed is lost: whatever jumps the stamps make, every window of every interval opened comes out, except a held
    final window that a later one replaces; exactly when that happens, and from which stamps it never can. */
module AssemblerOwed {
  import opened Common
  import opened Audio
  import opened Interval
  import opened AssemblerModel
  import opened AssemblerRuns
  import opened AssemblerReanchor

  /** A window by its interval and number. */
  type Key = (int, int)

  function Keys(ws: seq<Window>): set<Key> {
    set x | x in ws :: (x.interval, x.number)
  }

  /** Numbers [from, to) of an interval. */
  function Numbers(index: int, from: int, to: int): set<Key> {
    set n | from <= n < to :: (index, n)
  }

  /** What an assembler has still to emit: the rest of its interval, and the window it holds. */
  function Owed(a: Asm): set<Key> {
    (if a.cur.Some? then Numbers(a.cur.value.index, a.cur.value.emitted, a.cur.value.total) else {})
    + (if a.pending.Some? then {(a.pending.value.index, a.pending.value.total - 1)} else {})
  }

  /** All windows of the interval at hand, where it was not at hand before. */
  function Entered(a: Asm, b: Asm): set<Key> {
    if b.cur.Some? && (a.cur.None? || a.cur.value.index != b.cur.value.index)
    then Numbers(b.cur.value.index, 0, b.cur.value.total)
    else {}
  }

  /** At an interval's end, its short final window being all it still owes, that window is held back. */
  predicate Holds(a: Asm) {
    a.cur.Some? && a.nextOff >= |a.cur.value.pcm| && ShortFinal(a.cur.value, a.window) && a.cur.value.emitted == a.cur.value.total - 1
  }

  /** Only one can be: holding another loses the one already held. */
  function Replaced(a: Asm): set<Key> {
    if Holds(a) && a.pending.Some? then {(a.pending.value.index, a.pending.value.total - 1)} else {}
  }

  // ---------------------------------------------------------------- over a call and over a run

  datatype Ledger = Ledger(begun: set<Key>, lost: set<Key>)

  function Plus(x: Ledger, y: Ledger): Ledger {
    Ledger(x.begun + y.begun, x.lost + y.lost)
  }

  const NOTHING := Ledger({}, {})

  function FillLedger(a: Asm, samples: seq<Frame>, frames: nat): Ledger
    requires OkMidCall(a) && a.cur.Some? && a.window > 0 && LongEnough(frames, a.window)
    decreases |samples|
  {
    if samples == [] then
      NOTHING
    else
      var (a1, rest, _) := Pass(a, samples, frames);
      Plus(Ledger(Entered(a, a1), Replaced(a)), FillLedger(a1, rest, frames))
  }

  function StepLedger(a: Asm, b: In): Ledger
    requires Ok(a) && a.window > 0 && TempoOk(a, b)
  {
    var p := Place(a, b.beat, b.tempo, true);
    if !p.ok then
      NOTHING
    else
      Plus(Ledger(Entered(a, p.asm), {}),
           FillLedger(SlewCounted(p.asm, |b.samples|), Slewed(b.samples, p.asm.pendingSlew), FramesAt(a, b.tempo)))
  }

  /** Every window of every interval a run opens, and those it loses. */
  function RunLedger(a: Asm, ops: seq<Op>): Ledger
    requires Ok(a) && a.window > 0 && OpsOk(a, ops)
    decreases |ops|
  {
    if ops == [] then
      NOTHING
    else
      SameOps(a, a, ops);
      var (a1, x) := match ops[0] case Feed(b) => (Step(a, b).0, StepLedger(a, b)) case Lost => (Reanchor(a), NOTHING);
      SameOps(a, a1, ops);
      Plus(x, RunLedger(a1, ops[1..]))
  }

  // ---------------------------------------------------------------- the books

  /** Every window begun is out, owed or lost, and only one of them. */
  ghost predicate Books(a: Asm, ws: seq<Window>, x: Ledger) {
    && OkMidCall(a) && a.window > 0 && a.cur.Some?
    && (a.pending.Some? ==> a.pending.value.index < a.cur.value.index)
    && x.begun == Keys(ws) + Owed(a) + x.lost
    && Keys(ws) !! Owed(a) !! x.lost
    && (forall k <- x.begun :: k.0 <= a.cur.value.index)
  }

  lemma KeysJoin(u: seq<Window>, v: seq<Window>)
    ensures Keys(u + v) == Keys(u) + Keys(v)
  {
    forall k | k in Keys(u) + Keys(v)
      ensures k in Keys(u + v)
    {
      var x :| x in u + v && k == (x.interval, x.number);
    }
  }

  lemma KeysOfRange(b: Buf, w: nat, from: nat, to: nat)
    requires from <= to
    ensures Keys(WindowsOf(b, w, from, to)) == Numbers(b.index, from, to)
  {
    var r := WindowsOf(b, w, from, to);
    forall k | k in Numbers(b.index, from, to)
      ensures k in Keys(r)
    {
      assert r[k.1 - from] in r;
    }
  }

  /** What leaves moves from owed to out. */
  lemma EmitKeepsBooks(a: Asm, ws: seq<Window>, x: Ledger, b: Asm, e: seq<Window>)
    requires Books(a, ws, x) && OkMidCall(b) && SameSetup(a, b)
    requires b.cur.Some? && b.cur.value.index == a.cur.value.index
    requires b.pending.Some? ==> b.pending == a.pending
    requires Owed(a) == Owed(b) + Keys(e) && Owed(b) !! Keys(e)
    ensures Books(b, ws + e, x)
  {
    hide Owed, Keys, OkMidCall;
    KeysJoin(ws, e);
  }

  lemma ReleaseBooks(a: Asm, ws: seq<Window>, x: Ledger)
    requires Books(a, ws, x)
    ensures Books(ReleasePending(a).0, ws + ReleasePending(a).1, x)
  {
    var (b, e) := ReleasePending(a);
    assert e != [] ==> Keys(e) == {(a.pending.value.index, a.pending.value.total - 1)} by {
      if e != [] {
        assert e == [e[0]];
      }
    }
    assert Owed(a) == Owed(b) + Keys(e) && Owed(b) !! Keys(e);
    EmitKeepsBooks(a, ws, x, b, e);
  }

  lemma FlushBooks(a: Asm, ws: seq<Window>, x: Ledger)
    requires Books(a, ws, x)
    ensures Books(FlushPending(a).0, ws + FlushPending(a).1, x)
  {
    var (b, e) := FlushPending(a);
    assert e != [] ==> Keys(e) == {(a.pending.value.index, a.pending.value.total - 1)} by {
      if e != [] {
        assert e == [e[0]];
      }
    }
    assert Owed(a) == Owed(b) + Keys(e) && Owed(b) !! Keys(e);
    EmitKeepsBooks(a, ws, x, b, e);
  }

  lemma NumbersSplit(index: int, from: int, mid: int, to: int)
    requires from <= mid <= to
    ensures Numbers(index, from, to) == Numbers(index, from, mid) + Numbers(index, mid, to)
    ensures Numbers(index, from, mid) !! Numbers(index, mid, to)
  {
  }

  lemma ReadyBooks(a: Asm, ws: seq<Window>, x: Ledger)
    requires Books(a, ws, x)
    ensures Books(a.(cur := Some(Ready(a.cur.value, a.window).0)), ws + Ready(a.cur.value, a.window).1, x)
  {
    var b := a.cur.value;
    var (b', e) := Ready(b, a.window);
    var a' := a.(cur := Some(b'));
    if e == [] {
      assert ws + e == ws;
    } else {
      hide Numbers;
      KeysOfRange(b, a.window, b.emitted, b'.emitted);
      NumbersSplit(b.index, b.emitted, b'.emitted, b.total);
      HeldApart(a);
      assert Owed(a) == Owed(a') + Keys(e) && Owed(a') !! Keys(e);
      EmitKeepsBooks(a, ws, x, a', e);
    }
  }

  /** The held window is no window of the current interval. */
  lemma HeldApart(a: Asm)
    requires a.cur.Some? && (a.pending.Some? ==> a.pending.value.index < a.cur.value.index)
    ensures a.pending.Some? ==>
              forall from, to :: (a.pending.value.index, a.pending.value.total - 1) !in Numbers(a.cur.value.index, from, to)
  {
  }

  /** What the books do not see: the cursor, the PCM, the counters. */
  lemma SameBooks(a: Asm, b: Asm, ws: seq<Window>, x: Ledger)
    requires Books(a, ws, x) && OkMidCall(b) && SameSetup(a, b) && b.pending == a.pending && b.cur.Some?
    requires var c, d := a.cur.value, b.cur.value; c.index == d.index && c.emitted == d.emitted && c.total == d.total
    ensures Books(b, ws, x)
  {
    hide OkMidCall, Keys, Numbers;
    assert Owed(b) == Owed(a);
  }

  lemma WriteStays(a: Asm, s: seq<Frame>)
    requires OkMidCall(a) && a.cur.Some? && a.nextOff + |s| <= |a.cur.value.pcm|
    ensures SameSetup(a, Write(a, s)) && Write(a, s).pending == a.pending
    ensures var c, d := a.cur.value, Write(a, s).cur.value; c.index == d.index && c.emitted == d.emitted && c.total == d.total
  {
  }

  lemma LayBooks(a: Asm, ws: seq<Window>, x: Ledger, s: seq<Frame>)
    requires Books(a, ws, x) && a.nextOff + |s| <= |a.cur.value.pcm|
    ensures Books(Lay(a, s).0, ws + Lay(a, s).1, x)
  {
    hide Books, Write, OkMidCall;
    BooksOk(a, ws, x);
    var a1 := Write(a, s);
    WriteStays(a, s);
    SameBooks(a, a1, ws, x);
    ReleaseBooks(a1, ws, x);
    var (a2, held) := ReleasePending(a1);
    BooksOk(a2, ws + held, x);
    ReadyBooks(a2, ws + held, x);
    var ready := Ready(a2.cur.value, a.window).1;
    assert ws + (held + ready) == ws + held + ready;
  }

  lemma BooksOk(a: Asm, ws: seq<Window>, x: Ledger)
    requires Books(a, ws, x)
    ensures OkMidCall(a) && a.window > 0 && a.cur.Some?
  {
  }

  /** A later interval is entered: of what was owed, some leaves, some is lost, and the rest is owed still. */
  lemma OpenKeepsBooks(a: Asm, ws: seq<Window>, x: Ledger, b: Asm, e: seq<Window>, entered: set<Key>, lost: set<Key>, rest: set<Key>)
    requires Books(a, ws, x) && OkMidCall(b) && SameSetup(a, b) && b.cur.Some? && b.cur.value.index > a.cur.value.index
    requires b.pending.Some? ==> b.pending.value.index < b.cur.value.index
    requires forall k <- entered :: k.0 == b.cur.value.index
    requires Owed(b) == entered + rest && Owed(a) == rest + Keys(e) + lost && rest !! Keys(e) !! lost
    ensures Books(b, ws + e, Plus(x, Ledger(entered, lost)))
  {
    hide Owed, Keys, OkMidCall;
    KeysJoin(ws, e);
  }

  lemma NumbersIndex(index: int, from: int, to: int)
    ensures forall k <- Numbers(index, from, to) :: k.0 == index
    ensures from + 1 == to ==> Numbers(index, from, to) == {(index, from)}
  {
    if from + 1 == to {
      assert forall k <- Numbers(index, from, to) :: k == (index, from);
      assert (index, from) in Numbers(index, from, to);
    }
  }

  /** The window held, as a set. */
  function Held(a: Asm): set<Key> {
    if a.pending.Some? then {(a.pending.value.index, a.pending.value.total - 1)} else {}
  }

  /** Giving up an interval for a later one, all it still owes flushed. */
  lemma LeaveBooks(a: Asm, ws: seq<Window>, x: Ledger, index: int, frames: nat, off: nat)
    requires Books(a, ws, x) && index > a.cur.value.index && LongEnough(frames, a.window)
    ensures var b := a.(cur := Some(NewBuf(a.window, index, frames)), nextOff := off);
            Books(b, ws + Remaining(a.cur.value, a.window), Plus(x, Ledger(Entered(a, b), {})))
  {
    hide Numbers;
    var c, nb := a.cur.value, NewBuf(a.window, index, frames);
    var b := a.(cur := Some(nb), nextOff := off);
    KeysOfRange(c, a.window, c.emitted, c.total);
    HeldApart(a);
    NumbersIndex(index, 0, nb.total);
    OpenKeepsBooks(a, ws, x, b, Remaining(c, a.window), Numbers(index, 0, nb.total), {}, Held(a));
  }

  /** Holding its final window back, at the price of one already held. */
  lemma HoldBooks(a: Asm, ws: seq<Window>, x: Ledger, frames: nat)
    requires Books(a, ws, x) && LongEnough(frames, a.window) && Holds(a)
    ensures Books(Turn(a, frames).0, ws + Turn(a, frames).1, Plus(x, Ledger(Entered(a, Turn(a, frames).0), Replaced(a))))
  {
    hide Numbers;
    var c, b := a.cur.value, Turn(a, frames).0;
    HeldApart(a);
    NumbersIndex(c.index, c.emitted, c.total);
    NumbersIndex(c.index + 1, 0, b.cur.value.total);
    HeldAlone(a);
    assert Keys([]) == {};
    OpenKeepsBooks(a, ws, x, b, [], Numbers(c.index + 1, 0, b.cur.value.total), Replaced(a), {(c.index, c.total - 1)});
  }

  lemma HeldAlone(a: Asm)
    requires a.cur.Some? && (a.pending.Some? ==> a.pending.value.index < a.cur.value.index)
    ensures Replaced(a) !! {(a.cur.value.index, a.cur.value.total - 1)}
  {
  }

  lemma TurnBooks(a: Asm, ws: seq<Window>, x: Ledger, frames: nat)
    requires Books(a, ws, x) && LongEnough(frames, a.window)
    ensures Books(Turn(a, frames).0, ws + Turn(a, frames).1, Plus(x, Ledger(Entered(a, Turn(a, frames).0), Replaced(a))))
  {
    hide Owed, Keys, Numbers;
    if Holds(a) {
      HoldBooks(a, ws, x, frames);
    } else if a.nextOff >= |a.cur.value.pcm| {
      LeaveBooks(a, ws, x, a.cur.value.index + 1, frames, 0);
    } else {
      assert ws + [] == ws;
      PlusNothing(x);
    }
  }

  lemma PlusNothing(x: Ledger)
    ensures Plus(x, NOTHING) == x
  {
  }

  lemma PassBooks(a: Asm, ws: seq<Window>, x: Ledger, s: seq<Frame>, frames: nat)
    requires Books(a, ws, x) && LongEnough(frames, a.window) && s != []
    ensures var (a', _, e) := Pass(a, s, frames); Books(a', ws + e, Plus(x, Ledger(Entered(a, a'), Replaced(a))))
  {
    hide Turn, Lay, BufOk, PendingOk, Owed, Keys, Numbers, Plus, Replaced;
    TurnBooks(a, ws, x, frames);
    var (a1, w1) := Turn(a, frames);
    var y := Plus(x, Ledger(Entered(a, a1), Replaced(a)));
    var (a2, rest) := TrimBehind(a1, s);
    SameBooks(a1, a2, ws + w1, y);
    if rest != [] {
      var n := Chunk(a2, |rest|);
      LayBooks(a2, ws + w1, y, rest[..n]);
      LayStays(a2, rest[..n]);
      var w2 := Lay(a2, rest[..n]).1;
      assert ws + (w1 + w2) == ws + w1 + w2;
    }
  }

  lemma LayStays(a: Asm, s: seq<Frame>)
    requires OkMidCall(a) && a.cur.Some? && a.window > 0 && a.nextOff + |s| <= |a.cur.value.pcm|
    ensures var r := Lay(a, s).0; r.cur.value.index == a.cur.value.index && r.cur.value.total == a.cur.value.total
  {
    hide OkMidCall, FinalWindow, ReadyCount;
  }

  lemma PlusPlus(x: Ledger, y: Ledger, z: Ledger)
    ensures Plus(x, Plus(y, z)) == Plus(Plus(x, y), z)
  {
  }

  lemma {:induction false} FillBooks(a: Asm, ws: seq<Window>, x: Ledger, s: seq<Frame>, frames: nat)
    requires Books(a, ws, x) && LongEnough(frames, a.window)
    ensures Books(FillWindows(a, s, frames).0, ws + FillWindows(a, s, frames).1, Plus(x, FillLedger(a, s, frames)))
    decreases |s|
  {
    hide Pass, Books, OkMidCall, Entered, Replaced, Plus;
    BooksOk(a, ws, x);
    if s == [] {
      assert ws + [] == ws;
      PlusNothing(x);
    } else {
      var (a1, rest, w1) := Pass(a, s, frames);
      var y := Ledger(Entered(a, a1), Replaced(a));
      PassBooks(a, ws, x, s, frames);
      BooksOk(a1, ws + w1, Plus(x, y));
      FillBooks(a1, ws + w1, Plus(x, y), rest, frames);
      PlusPlus(x, y, FillLedger(a1, rest, frames));
      var w2 := FillWindows(a1, rest, frames).1;
      assert ws + (w1 + w2) == ws + w1 + w2;
    }
  }

  lemma ReanchoredBooks(a: Asm, ws: seq<Window>, x: Ledger, beatIdx: int, beatOff: nat, frames: nat)
    requires Ok(a) && Books(a, ws, x) && LongEnough(frames, a.window) && beatIdx >= a.cur.value.index
    ensures var p := Reanchored(a, beatIdx, beatOff, frames, true);
            Books(p.asm, ws + p.windows, Plus(x, Ledger(Entered(a, p.asm), {})))
  {
    hide Books, Numbers, Keys, Remaining, FlushPending, NewBuf, OkMidCall;
    BooksOk(a, ws, x);
    var a1 := Moved(a, beatOff);
    SameBooks(a, a1, ws, x);
    if beatIdx > a.cur.value.index {
      MoveBooks(a1, ws, x, beatIdx, beatOff, frames);
      var p := Reanchored(a, beatIdx, beatOff, frames, true);
      assert Entered(a, p.asm) == Entered(a1, p.asm);
      FlushIsFree(a1, a.(resnaps := a1.resnaps, anchored := true));
    } else {
      assert ws + [] == ws;
      PlusNothing(x);
    }
  }

  function Moved(a: Asm, beatOff: nat): (a1: Asm)
    ensures OkMidCall(a) ==> OkMidCall(a1)
  {
    Counted(a).(nextOff := beatOff)
  }

  /** Flushing does not look at the cursor. */
  lemma FlushIsFree(a: Asm, b: Asm)
    requires OkMidCall(a) && OkMidCall(b) && a == b.(nextOff := a.nextOff)
    ensures FlushPending(a).1 == FlushPending(b).1 && FlushPending(a).0 == FlushPending(b).0.(nextOff := a.nextOff)
  {
  }

  lemma MoveBooks(a: Asm, ws: seq<Window>, x: Ledger, index: int, off: nat, frames: nat)
    requires Books(a, ws, x) && OkMidCall(a) && a.cur.Some? && index > a.cur.value.index && LongEnough(frames, a.window)
    ensures a.cur.value.emitted <= a.cur.value.total
    ensures var (a2, held) := FlushPending(a);
            var b := a2.(cur := Some(NewBuf(a.window, index, frames)), nextOff := off);
            Books(b, ws + (held + Remaining(a.cur.value, a.window)), Plus(x, Ledger(Entered(a, b), {})))
  {
    hide Books, Numbers, Keys, Remaining, NewBuf;
    FlushBooks(a, ws, x);
    var (a2, held) := FlushPending(a);
    LeaveBooks(a2, ws + held, x, index, frames, off);
    assert ws + (held + Remaining(a.cur.value, a.window)) == ws + held + Remaining(a.cur.value, a.window);
  }

  /** Between operations: nothing heard yet, or the books balance. */
  ghost predicate Balanced(a: Asm, ws: seq<Window>, x: Ledger) {
    (a.cur.Some? && Books(a, ws, x)) || (a.cur.None? && a.pending.None? && ws == [] && x == NOTHING)
  }

  lemma PlaceBooks(a: Asm, ws: seq<Window>, x: Ledger, beat: real, tempo: real)
    requires Ok(a) && a.window > 0 && Balanced(a, ws, x) && LongEnough(FramesAt(a, tempo), a.window)
    ensures var p := Place(a, beat, tempo, true);
            && Balanced(p.asm, ws + p.windows, Plus(x, Ledger(Entered(a, p.asm), {})))
            && (!p.ok ==> Entered(a, p.asm) == {} && p.windows == [])
  {
    hide Config.IntervalSamples, Config.FrameOffset, Config.IndexAtBeat, StaysContiguous, Reanchored, Numbers, Keys;
    var p := Place(a, beat, tempo, true);
    var beatIdx := a.cfg.IndexAtBeat(beat);
    PlusNothing(x);
    assert ws + [] == ws;
    if a.cur.None? {
      FirstBooks(p.asm);
    } else if !StaysContiguous(a, beat, tempo) && beatIdx >= a.cur.value.index {
      hide Books;
      ReanchoredBooks(a, ws, x, beatIdx, a.cfg.FrameOffset(beat, beatIdx, a.rate, tempo), FramesAt(a, tempo));
    }
  }

  lemma FirstBooks(a: Asm)
    requires OkMidCall(a) && a.window > 0 && a.cur.Some? && a.cur.value.emitted == 0 && a.pending.None?
    ensures Books(a, [], Ledger(Numbers(a.cur.value.index, 0, a.cur.value.total), {}))
  {
    assert Keys([]) == {};
  }

  lemma BufferBooks(a: Asm, ws: seq<Window>, x: Ledger, b: In)
    requires Ok(a) && TempoOk(a, b) && a.window > 0 && Balanced(a, ws, x)
    ensures Balanced(Step(a, b).0, ws + Step(a, b).1, Plus(x, StepLedger(a, b)))
  {
    hide Config.IntervalSamples, Place, FillWindows, FillLedger, Slewed, Books, Entered, Plus;
    var p := Place(a, b.beat, b.tempo, true);
    var y := Ledger(Entered(a, p.asm), {});
    PlaceBooks(a, ws, x, b.beat, b.tempo);
    if p.ok {
      var a1, s := SlewCounted(p.asm, |b.samples|), Slewed(b.samples, p.asm.pendingSlew);
      SameBooks(p.asm, a1, ws + p.windows, Plus(x, y));
      FillBooks(a1, ws + p.windows, Plus(x, y), s, FramesAt(a, b.tempo));
      PlusPlus(x, y, FillLedger(a1, s, FramesAt(a, b.tempo)));
      var w2 := FillWindows(a1, s, FramesAt(a, b.tempo)).1;
      assert ws + (p.windows + w2) == ws + p.windows + w2;
    }
  }

  lemma {:induction false} RunBooks(a: Asm, ws: seq<Window>, x: Ledger, ops: seq<Op>)
    requires Ok(a) && a.window > 0 && OpsOk(a, ops) && Balanced(a, ws, x)
    ensures Balanced(RunOps(a, ops).0, ws + RunOps(a, ops).1, Plus(x, RunLedger(a, ops)))
    decreases |ops|
  {
    hide Step, StepLedger, BufOk, PendingOk, TempoOk, FramesAt, Owed, Keys, Plus;
    if ops == [] {
      assert ws + [] == ws;
      PlusNothing(x);
    } else {
      SameOps(a, a, ops);
      match ops[0] {
        case Feed(b) =>
          var (a1, w1) := Step(a, b);
          var y := StepLedger(a, b);
          SameOps(a, a1, ops);
          BufferBooks(a, ws, x, b);
          hide Balanced;
          RunBooks(a1, ws + w1, Plus(x, y), ops[1..]);
          PlusPlus(x, y, RunLedger(a1, ops[1..]));
          var w2 := RunOps(a1, ops[1..]).1;
          assert ws + (w1 + w2) == ws + w1 + w2;
        case Lost =>
          var a1 := Reanchor(a);
          SameOps(a, a1, ops);
          if a.cur.Some? {
            SameBooks(a, a1, ws, x);
          }
          assert Balanced(a1, ws, x);
          hide Balanced;
          PlusNothing(x);
          RunBooks(a1, ws, x, ops[1..]);
          PlusPlus(x, NOTHING, RunLedger(a1, ops[1..]));
          var w2 := RunOps(a1, ops[1..]).1;
          assert ws + ([] + w2) == ws + w2;
      }
    }
  }

  /** After the final flush nothing is owed. */
  lemma FlushSettles(a: Asm, ws: seq<Window>, x: Ledger)
    requires Ok(a) && a.window > 0 && Balanced(a, ws, x)
    ensures x.begun == Keys(ws + FlushWindows(a).1) + x.lost && Keys(ws + FlushWindows(a).1) !! x.lost
  {
    if a.cur.None? {
      assert ws + [] == ws && Keys(ws) == {};
    } else {
      FlushBooks(a, ws, x);
      var (a1, held) := FlushPending(a);
      var c := a1.cur.value;
      var rest := Remaining(c, a.window);
      assert ws + (held + rest) == ws + held + rest;
      KeysJoin(ws + held, rest);
      KeysOfRange(c, a.window, c.emitted, c.total);
      hide Keys, Numbers;
      assert Owed(a1) == Keys(rest);
    }
  }

  /** EVERY WINDOW COMES OUT, OR IS LOST AS SAID. Any run of buffers and losses, whatever the stamps and tempos, and the
      flush that ends it: the windows emitted are exactly those of the intervals opened, less the held ones replaced. */
  lemma EveryWindowComesOut(a: Asm, ops: seq<Op>)
    requires Cold(a) && OpsOk(a, ops)
    ensures var out, x := Keys(RunOps(a, ops).1 + FlushWindows(RunOps(a, ops).0).1), RunLedger(a, ops);
            out == x.begun - x.lost && x.lost <= x.begun
  {
    hide Keys;
    RunBooks(a, [], NOTHING, ops);
    assert [] + RunOps(a, ops).1 == RunOps(a, ops).1;
    NothingPlus(RunLedger(a, ops));
    FlushSettles(RunOps(a, ops).0, RunOps(a, ops).1, RunLedger(a, ops));
  }

  lemma NothingPlus(x: Ledger)
    ensures Plus(NOTHING, x) == x
  {
  }
}
