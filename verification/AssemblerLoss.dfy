/** A held window can be lost: a run of two buffers, and a capture loss between them, in which it is. */
module AssemblerLoss {
  import opened Common
  import opened Audio
  import opened Interval
  import opened AssemblerModel
  import opened AssemblerRuns
  import opened AssemblerReanchor
  import opened AssemblerOwed

  /** Intervals of one beat, four frames a beat, windows of three: every final window is one frame short of two. */
  const QUIET := New(Config(1, 1.0), 4, 3)
  const FIVE := Silence(5)

  /** The whole of interval 0 and one frame of interval 1; then, after a loss, a stamp that rounds to interval 1's end. */
  const FIRST := In(0.0, 60.0, FIVE)
  const SECOND := In(1.95, 60.0, FIVE)
  const LOSING := [Feed(FIRST), Lost, Feed(SECOND)]

  function Four(index: int, written: nat, emitted: nat): Buf {
    Buf(index, Silence(4), written, emitted, 2)
  }

  lemma Numbers60(a: Asm)
    requires a.cfg == Config(1, 1.0) && a.rate == 4
    ensures FramesAt(a, 60.0) == 4
    ensures a.cfg.IndexAtBeat(0.0) == 0 && a.cfg.FrameOffset(0.0, 0, 4, 60.0) == 0
    ensures a.cfg.IndexAtBeat(1.95) == 1 && a.cfg.FrameOffset(1.95, 1, 4, 60.0) == 4
  {
    var c := Config(1, 1.0);
    assert c.BeatsPerInterval() == 1.0;
    assert FramesIn(1.0, 4, 60.0) == 4.0 && FramesIn(0.0, 4, 60.0) == 0.0;
    assert c.WindowStart(1) == 1.0;
    assert 1.95 - 1.0 == 0.95;
    assert FramesIn(0.95, 4, 60.0) == 3.8;
  }

  lemma NewInterval(index: int)
    ensures NewBuf(3, index, 4) == Four(index, 0, 0)
  {
  }

  /** An interval opened and filled in one pass, its final window withheld; a frame is left over. */
  lemma FillsInterval(a: Asm, index: int)
    requires a.pending.Some? ==> a.pending.value.index + 1 != index
    requires OkMidCall(a) && a.window == 3 && a.cur == Some(Four(index, 0, 0)) && a.nextOff == 0
    ensures var (a1, rest, _) := Pass(a, FIVE, 4);
            a1 == a.(cur := Some(Four(index, 4, 1)), nextOff := 4) && rest == Silence(1)
  {
    assert FIVE[..4] == Silence(4) && FIVE[4..] == Silence(1);
    assert Overwrite(Silence(4), 0, Silence(4)) == Silence(4);
    hide FinalWindow, WindowOf;
  }

  /** The frame left over opens the next interval, the final window of the one left being held. */
  lemma HoldsFinal(a: Asm)
    requires OkMidCall(a) && a.window == 3 && a.cur == Some(Four(0, 4, 1)) && a.nextOff == 4 && a.pending.None?
    ensures var (a1, rest, _) := Pass(a, Silence(1), 4);
            a1 == a.(pending := a.cur, cur := Some(Four(1, 1, 0)), nextOff := 1) && rest == []
  {
    NewInterval(1);
    assert Overwrite(Silence(4), 0, Silence(1)) == Silence(4);
    assert Silence(1)[..1] == Silence(1) && Silence(1)[1..] == [];
    hide FinalWindow, WindowOf;
  }

  /** From a cursor at the end of an interval whose window the stamp has kept from being due. */
  lemma LeavesInterval(a: Asm)
    requires OkMidCall(a) && a.window == 3 && a.cur == Some(Four(1, 1, 0)) && a.nextOff == 4
    requires a.pending.Some? && a.pending.value.index == 0
    ensures var (a1, rest, _) := Pass(a, FIVE, 4);
            a1 == a.(cur := Some(Four(2, 4, 1)), nextOff := 4) && rest == Silence(1)
  {
    NewInterval(2);
    var (b, _) := Turn(a, 4);
    assert b == a.(cur := Some(Four(2, 0, 0)), nextOff := 0);
    FillsInterval(b, 2);
    hide FinalWindow, WindowOf, Lay, Turn;
  }

  function AfterFirst(): Asm {
    QUIET.(cur := Some(Four(1, 1, 0)), nextOff := 1, anchored := true, pending := Some(Four(0, 4, 1)))
  }

  lemma FirstStep()
    ensures TempoOk(QUIET, FIRST) && Step(QUIET, FIRST).0 == AfterFirst()
  {
    Numbers60(QUIET);
    NewInterval(0);
    var a := QUIET.(cur := Some(Four(0, 0, 0)), anchored := true);
    FillsInterval(a, 0);
    HoldsFinal(Pass(a, FIVE, 4).0);
    hide Pass, Config.IntervalSamples, Config.FrameOffset, Config.IndexAtBeat;
    assert Place(QUIET, 0.0, 60.0, true) == Placed(a, None, [], true);
    assert FillWindows(a, FIVE, 4).0 == AfterFirst();
  }

  /** The third op, after the loss. */
  lemma SecondStep()
    ensures var a := Reanchor(AfterFirst()); Ok(a) && TempoOk(a, SECOND) && (0, 1) in StepLedger(a, SECOND).lost
  {
    var a := Reanchor(AfterFirst());
    Numbers60(a);
    var b := a.(nextOff := 4, anchored := true);
    LeavesInterval(b);
    hide Pass, Config.IntervalSamples, Config.FrameOffset, Config.IndexAtBeat, Entered;
    assert Place(a, 1.95, 60.0, true) == Placed(b, None, [], true);
    var b1 := Pass(b, FIVE, 4).0;
    assert Replaced(b1) == {(0, 1)};
    assert FIVE != [] && Silence(1) != [];
    assert (0, 1) in FillLedger(b1, Silence(1), 4).lost;
    assert (0, 1) in FillLedger(b, FIVE, 4).lost;
  }

  /** So the last window of interval 0 never comes out, though all its frames were captured. */
  lemma HeldWindowIsLost()
    ensures Cold(QUIET) && OpsOk(QUIET, LOSING)
    ensures var r := RunOps(QUIET, LOSING);
            (0, 1) in RunLedger(QUIET, LOSING).begun && (0, 1) !in Keys(r.1 + FlushWindows(r.0).1)
  {
    hide Keys, RunLedger, RunOps, OpsOk;
    LosingOk();
    LedgerLoses();
    EveryWindowComesOut(QUIET, LOSING);
  }

  lemma LosingOk()
    ensures OpsOk(QUIET, LOSING) && OpsOk(AfterFirst(), LOSING[1..]) && OpsOk(Reanchor(AfterFirst()), LOSING[2..])
  {
    Numbers60(QUIET);
    hide FramesAt;
  }

  lemma LedgerLoses()
    requires OpsOk(QUIET, LOSING)
    ensures (0, 1) in RunLedger(QUIET, LOSING).lost
  {
    LosingOk();
    FirstStep();
    LastLedger();
    hide Step, StepLedger, TempoOk, OkMidCall, OpsOk;
    var rest := LOSING[1..];
    assert rest[0] == Lost && rest[1..] == LOSING[2..];
    assert (0, 1) in RunLedger(AfterFirst(), rest).lost;
  }

  lemma LastLedger()
    ensures var a := Reanchor(AfterFirst()); Ok(a) && OpsOk(a, LOSING[2..]) && (0, 1) in RunLedger(a, LOSING[2..]).lost
  {
    LosingOk();
    SecondStep();
    hide Step, StepLedger, TempoOk, OkMidCall, OpsOk;
    assert LOSING[2..][0] == Feed(SECOND);
  }
}
