/** A run that meets every hypothesis of the end-to-end theorem: one boundary crossed, over a padding that holds audio. */
module EndToEndExample {
  import opened Common
  import opened Audio
  import opened Interval
  import A = AssemblerModel
  import opened AssemblerStream
  import opened AssemblerRuns
  import opened AssemblerOrder
  import opened Reassembly
  import FeederModel
  import opened Playback
  import opened PlaybackRuns
  import opened EndToEnd

  /** At 1000 Hz and 96 BPM one-beat intervals hold 625 frames: 32 windows of 20 overhang by 15. */
  const SMALL_GRID := Grid(Config(1, 1.0), 1000, 96.0)
  const SMALL_SENDER := A.New(Config(1, 1.0), 1000, 20)
  const SMALL_BUFFER := In(0.0, 96.0, SmallSource())
  const SMALL_FEEDER := FeederModel.NewFeeder(50, 10)

  /** 700 frames of audio, no two alike. */
  function SmallSource(): (s: seq<Frame>)
    ensures |s| == 700 && forall i :: 0 <= i < 700 ==> s[i] == Frame(1000 + i, 0)
  {
    seq(700, i requires 0 <= i => Frame(1000 + i, 0))
  }

  function SmallWindowAt(from: nat): seq<Frame>
    requires from + 20 <= 700
  {
    SmallSource()[from..from + 20]
  }

  /** The first n windows of a round, as they are delivered. */
  function Delivered(base: nat, n: nat): (es: seq<Arrival>)
    requires base + n * 20 <= 700 && n <= 32
    ensures |es| == n && forall k :: 0 <= k < n ==> es[k] == Add(k, SmallWindowAt(base + k * 20), k == 31, 32)
  {
    seq(n, k requires 0 <= k < n => Add(k, SmallWindowAt(base + k * 20), k == 31, 32))
  }

  /** Round 0 is there whole, round 1 as far as it has been captured. */
  const SMALL_NET: Net := map[0 := Delivered(0, 32), 1 := Delivered(625, 3)]
  const SMALL_FIRST := NetTick(600.0 / 625.0, SMALL_NET)
  const SMALL_SECOND := NetTick(630.0 / 625.0, SMALL_NET)

  lemma SmallGridFacts()
    ensures SMALL_GRID.Ok() && SMALL_GRID.Frames() == 625 && SMALL_GRID.Padded() == 640 && SamplesPerWaifFrame(1000) == 20
    ensures SMALL_GRID.cfg.IndexAtBeat(600.0 / 625.0) == 0 && SMALL_GRID.cfg.IndexAtBeat(630.0 / 625.0) == 1
    ensures SMALL_GRID.PlayAt(600.0 / 625.0, 0) == 600 && SMALL_GRID.PlayAt(630.0 / 625.0, 1) == 5
    ensures SMALL_GRID.cfg.IndexAtBeat(0.0) == 0 && SMALL_GRID.cfg.FrameOffset(0.0, 0, 1000, 96.0) == 0
  {
    assert SMALL_GRID.cfg.BeatsPerInterval() == 1.0;
    assert SMALL_GRID.cfg.WindowStart(0) == 0.0 && SMALL_GRID.cfg.WindowStart(1) == 1.0;
    assert SMALL_GRID.Exact(600.0 / 625.0, 0) == 600.0 && SMALL_GRID.Exact(630.0 / 625.0, 1) == 5.0;
    assert FramesIn(0.0, 1000, 96.0) == 0.0;
  }

  lemma SmallSends()
    ensures Sends(SMALL_SENDER, SMALL_GRID, SMALL_BUFFER, []) && AnchorsInside(SMALL_SENDER, SMALL_BUFFER)
  {
    SmallGridFacts();
    hide Config.FrameOffset, Config.IndexAtBeat, Step, Grid.Padded;
  }

  lemma SmallIntervals()
    ensures Opened([Iv(0, 0, 625)], 700, 625) == [Iv(0, 0, 625), Iv(1, 625, 625)]
    ensures Due(700, Iv(0, 0, 625), 20) == 32 && Due(700, Iv(1, 625, 625), 20) == 3 && Ceil(625, 20) == 32
  {
    assert [Iv(0, 0, 625)] + [NextIv([Iv(0, 0, 625)], 625)] == [Iv(0, 0, 625), Iv(1, 625, 625)];
  }

  /** What the sender sends: 32 windows of round 0 and three of round 1, as they are delivered. */
  lemma SmallWindows()
    ensures Sends(SMALL_SENDER, SMALL_GRID, SMALL_BUFFER, [])
    ensures NetFrom(SMALL_NET, WindowsOf(SMALL_SENDER, SMALL_BUFFER, []))
  {
    SmallSends();
    SmallGridFacts();
    SmallIntervals();
    hide Step, Out, Sends, Opened, AnchorsInside, Config.FrameOffset, Config.IndexAtBeat, IntervalsOf, StreamOf, Due, Ceil;
    var a, first := SMALL_SENDER, SMALL_BUFFER;
    SendsOk(a, SMALL_GRID, first, []);
    SmallStream();
    WindowsAreTheStream(a, first, []);
    var s, ivs := SmallSource(), [Iv(0, 0, 625), Iv(1, 625, 625)];
    assert [] + Out(s, ivs, 20) == Out(s, ivs, 20);
    forall k: nat | k < 32
      ensures IsWindow(Delivered(0, 32)[k], Out(s, ivs, 20), 0)
    {
      OutContains(s, ivs, 20, 0, k);
      SmallWindow(ivs[0], k);
    }
    forall k: nat | k < 3
      ensures IsWindow(Delivered(625, 3)[k], Out(s, ivs, 20), 1)
    {
      OutContains(s, ivs, 20, 1, k);
      SmallWindow(ivs[1], k);
    }
  }

  lemma SmallWindow(iv: Iv, k: nat)
    requires iv.frames == 625 && iv.start + k * 20 + 20 <= 700
    ensures StreamWindow(SmallSource(), iv, 20, k)
         == A.Window(iv.index, k, 32, k == 31, SmallWindowAt(iv.start + k * 20))
  {
  }

  lemma SmallStream()
    requires Sends(SMALL_SENDER, SMALL_GRID, SMALL_BUFFER, [])
    ensures Cold(SMALL_SENDER) && TempoOk(SMALL_SENDER, SMALL_BUFFER) && TemposOk(Step(SMALL_SENDER, SMALL_BUFFER).0, [])
    ensures NoReanchor(Step(SMALL_SENDER, SMALL_BUFFER).0, [])
    ensures StreamOf(SMALL_SENDER, SMALL_BUFFER, []) == SmallSource()
    ensures IntervalsOf(SMALL_SENDER, SMALL_BUFFER, []) == [Iv(0, 0, 625), Iv(1, 625, 625)]
    ensures Lead(SMALL_SENDER, SMALL_BUFFER) == []
  {
    SmallGridFacts();
    SmallIntervals();
    hide Step, Config.FrameOffset, Config.IndexAtBeat, Opened;
    assert Silence(0) + SmallSource() + [] == SmallSource();
  }

  lemma AllDelivered(base: nat, n: nat)
    requires base + n * 20 <= 700 && n <= 32
    ensures forall k: nat :: k < n ==> k in Reals(Delivered(base, n))
  {
    forall k: nat | k < n
      ensures k in Reals(Delivered(base, n))
    {
      assert Delivered(base, n)[k] in Delivered(base, n);
    }
  }

  lemma SmallInTime()
    ensures InTime(SMALL_NET, SMALL_GRID, 0, 650, 20) && InTime(SMALL_NET, SMALL_GRID, 1, 55, 20)
  {
    SmallGridFacts();
    AllDelivered(0, 32);
    AllDelivered(625, 3);
    hide Reals, Delivered;
  }

  /** The theorem's hypotheses can be met with a padded interval and a boundary: this sender, its windows delivered, a
      cushion of 50 frames and ticks at frame 600 of round 0 and frame 5 of round 1. */
  lemma HypothesesAreMet()
    ensures var a, g, first, f := SMALL_SENDER, SMALL_GRID, SMALL_BUFFER, SMALL_FEEDER;
            && Sends(a, g, first, []) && g.Pad() == 15 && FeederModel.Ok(f) && !FeederModel.Promotes(f, 0) && f.cushion == 50
            && var ws := WindowsOf(a, first, []); var i := g.cfg.IndexAtBeat(SMALL_FIRST.beat);
            && i == 0 && g.cfg.IndexAtBeat(SMALL_SECOND.beat) == 1
            && NetFrom(SMALL_NET, ws) && InTime(SMALL_NET, g, 0, Max(g.PlayAt(SMALL_FIRST.beat, i), 0) + f.cushion, 20)
            && OnTime(g, f.cushion, ws, 20, 0, i, [SMALL_SECOND])
            && Cadence(Started(f, g, 0, TickOf(SMALL_FIRST, 20)).0, g, SMALL_FIRST.beat, TicksOf([SMALL_SECOND], 20))
  {
    hide Sends, WindowsOf, NetFrom, InTime, Started, Config.IndexAtBeat, Grid.PlayAt, StoreOf, Grid.Frames, Grid.Padded, InReach;
    SmallGridFacts();
    SmallWindows();
    SmallInTime();
    assert [SMALL_SECOND][1..] == [];
    SmallReach();
    assert TicksOf([SMALL_SECOND], 20)[0] == TickOf(SMALL_SECOND, 20);
  }

  lemma SmallReach()
    ensures SMALL_GRID.Ok() && FeederModel.Ok(SMALL_FEEDER)
    ensures var p := Started(SMALL_FEEDER, SMALL_GRID, 0, TickOf(SMALL_FIRST, 20)).0;
            p.index == 0 && InReach(p.f, SMALL_GRID, p.index, SMALL_FIRST.beat, SMALL_SECOND.beat)
  {
    hide Config.IndexAtBeat, Grid.PlayAt, Grid.Frames, Grid.Padded, WindowsOf, Started, StoreOf, Sends, OnGrid, NetFrom, InTime,
      StreamOf, Quiet, FirstSupplied, Config.WindowStart, Config.WindowEnd, AnchorsInside, Grid.Ok;
    SmallGridFacts();
    SmallWindows();
    SmallInTime();
    var a, g, first := SMALL_SENDER, SMALL_GRID, SMALL_BUFFER;
    SendsOk(a, g, first, []);
    SentOnTheGrid(a, g, first, []);
    FirstIsSupplied(SMALL_FEEDER, g, 0, SMALL_FIRST, WindowsOf(a, first, []), StreamOf(a, first, []), 20, 0,
                    !AnchorsInside(a, first));
  }
}
