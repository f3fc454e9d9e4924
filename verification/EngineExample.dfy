/** An engine run that meets every hypothesis of the theorem of EngineEndToEnd.dfy, across one boundary. */
module EngineExample {
  import opened Common
  import opened Audio
  import opened Interval
  import A = AssemblerModel
  import opened AssemblerStream
  import opened AssemblerRuns
  import opened AssemblerOrder
  import opened Reassembly
  import FeederModel
  import Playout
  import Playback
  import PlaybackRuns
  import opened EndToEnd
  import R = Rounds
  import RoundRuns
  import opened RoundPlayback
  import opened EngineEndToEnd

  /** At 48 kHz and 3000 BPM a one-beat interval is a single window of 960 frames. */
  const GRID := Playback.Grid(Config(1, 1.0), 48000, 3000.0)
  const SENDER := A.New(Config(1, 1.0), 48000, 960)

  function Source(): (s: seq<Frame>)
    ensures |s| == 1920 && forall i :: 0 <= i < 1920 ==> s[i] == Frame(1 + i, 0)
  {
    seq(1920, i requires 0 <= i => Frame(1 + i, 0))
  }

  function Part(round: nat): (s: seq<Frame>)
    requires round < 2
    ensures |s| == 960
  {
    Source()[960 * round..960 * round + 960]
  }

  function Whole(round: nat): Arrival
    requires round < 2
  {
    Add(0, Part(round), true, 1)
  }

  const BUFFER := In(0.0, 3000.0, Source())

  /** The stream has been published; nothing has arrived. */
  const QUIET := R.Sender(Playout.Cursor(None, None), map[], map[0 := R.Stream(0, map[], FeederModel.NewFeeder(50, 10), 0, 0, 0)],
                          R.NoNews, 1)

  function Deliver(round: nat, mark: int): R.Event
    requires round < 2
  {
    R.Frames(0, 0, mark, [(round as int, Whole(round))])
  }

  /** Round 0 arrives before local interval 1 and is released in it; round 1 arrives before its end, at which it is due. */
  const FIRST_TICK := EngineTick([Deliver(0, 0)], 1870.0 / 960.0, 0, R.Graces(0, 0))
  const SECOND_TICK := EngineTick([Deliver(1, 1)], 2.0, 0, R.Graces(0, 0))

  lemma GridFacts()
    ensures GRID.Ok() && GRID.Frames() == 960 && GRID.Padded() == 960 && SamplesPerWaifFrame(48000) == 960
    ensures GRID.cfg.IndexAtBeat(1870.0 / 960.0) == 1 && GRID.cfg.IndexAtBeat(2.0) == 2 && GRID.cfg.IndexAtBeat(0.0) == 0
    ensures GRID.PlayAt(1870.0 / 960.0, 1) == 910 && GRID.PlayAt(2.0, 2) == 0 && GRID.cfg.FrameOffset(0.0, 0, 48000, 3000.0) == 0
  {
    assert GRID.cfg.BeatsPerInterval() == 1.0;
    assert GRID.cfg.WindowStart(0) == 0.0 && GRID.cfg.WindowStart(1) == 1.0 && GRID.cfg.WindowStart(2) == 2.0;
    assert GRID.Exact(1870.0 / 960.0, 1) == 910.0 && GRID.Exact(2.0, 2) == 0.0;
    assert FramesIn(0.0, 48000, 3000.0) == 0.0;
  }

  // ---------------------------------------------------------------- the sender

  lemma SenderSends()
    ensures Sends(SENDER, GRID, BUFFER, []) && AnchorsInside(SENDER, BUFFER)
  {
    GridFacts();
    hide Config.FrameOffset, Config.IndexAtBeat, Step, Playback.Grid.Padded;
  }

  lemma SenderStream()
    requires Sends(SENDER, GRID, BUFFER, [])
    ensures Cold(SENDER) && TempoOk(SENDER, BUFFER) && TemposOk(Step(SENDER, BUFFER).0, [])
    ensures NoReanchor(Step(SENDER, BUFFER).0, [])
    ensures StreamOf(SENDER, BUFFER, []) == Source() && Lead(SENDER, BUFFER) == []
    ensures IntervalsOf(SENDER, BUFFER, []) == [Iv(0, 0, 960), Iv(1, 960, 960)]
  {
    GridFacts();
    assert [Iv(0, 0, 960)] + [NextIv([Iv(0, 0, 960)], 960)] == [Iv(0, 0, 960), Iv(1, 960, 960)];
    assert Opened([Iv(0, 0, 960)], 1920, 960) == [Iv(0, 0, 960), Iv(1, 960, 960)];
    hide Step, Config.FrameOffset, Config.IndexAtBeat, Opened;
    assert Silence(0) + Source() + [] == Source();
  }

  /** Both deliveries are windows of the sender. */
  lemma SentWhole(round: nat)
    requires round < 2
    ensures Sends(SENDER, GRID, BUFFER, []) && IsWindow(Whole(round), WindowsOf(SENDER, BUFFER, []), round)
  {
    SenderSends();
    hide Step, Out, Sends, AnchorsInside, Config.FrameOffset, Config.IndexAtBeat, IntervalsOf, StreamOf;
    SendsOk(SENDER, GRID, BUFFER, []);
    SenderStream();
    WindowsAreTheStream(SENDER, BUFFER, []);
    var ivs := [Iv(0, 0, 960), Iv(1, 960, 960)];
    assert [] + Out(Source(), ivs, 960) == Out(Source(), ivs, 960);
    assert Due(1920, ivs[round], 960) == 1 && Ceil(960, 960) == 1;
    OutContains(Source(), ivs, 960, round, 0);
    assert StreamWindow(Source(), ivs[round], 960, 0) == A.Window(round, 0, 1, true, Part(round));
  }

  // ---------------------------------------------------------------- the engine

  /** One stream, holding these rounds whole, with nothing said about leaving. */
  ghost predicate Holding(s: R.Sender, rounds: set<int>, cursor: Playout.Cursor) {
    && s.cursor == cursor && s.streams.Keys == {0} && s.intent == R.NoNews && s.streams[0].born == 0
    && s.streams[0].rounds.Keys == rounds && forall r <- s.streams[0].rounds :: Complete(s.streams[0].rounds[r])
  }

  lemma HoldingBuffers(s: R.Sender, rounds: set<int>, c: Playout.Cursor)
    requires Holding(s, rounds, c)
    ensures forall r :: R.Buffered(s, r) <==> r in rounds
    ensures forall r, b :: Playout.Ready(R.StateOf(s, r, b), b)
  {
    hide Complete;
    assert 0 in s.streams.Keys;
    forall r
      ensures R.Buffered(s, r) <==> r in rounds
    {
      if r in rounds {
        assert r in s.streams[0].rounds.Keys;
      }
    }
  }

  /** A whole round delivered is held, unless its time has passed. */
  lemma DeliverHolds(s: R.Sender, rounds: set<int>, c: Playout.Cursor, round: nat, mark: int)
    requires round < 2 && Holding(s, rounds, c) && round !in rounds && Playout.OnFrame(c, round) != Playout.TooLate && R.StreamsOk(s)
    ensures Holding(R.Step(s, Deliver(round, mark)), rounds + {round as int}, c)
  {
    hide FeederModel.Ok, Place;
    assert 0 in s.streams.Keys;
    var frames := [(round as int, Whole(round))];
    assert frames[1..] == [];
    WholeCompletes(round);
    var t := R.PlaceOne(s, 0, mark, round, Whole(round));
    assert R.PlaceAll(s, 0, mark, frames) == R.PlaceAll(t, 0, mark, []);
    hide Complete, Apply;
    assert t.streams[0].rounds.Keys == rounds + {round as int};
    assert round !in s.streams[0].rounds.Keys;
  }

  lemma WholeCompletes(round: nat)
    requires round < 2
    ensures Complete(Apply(FRESH, R.WINDOW, Whole(round)))
  {
    hide Part;
  }

  /** Nobody has said anything about leaving, so nothing is swept. */
  lemma SweepKeepsAll(s: R.Sender, now: int, g: R.Graces)
    requires s.intent == R.NoNews && s.streams != map[]
    ensures R.Swept(s, now, g) == s
  {
    assert (map k | k in s.streams && !R.Retires(s, k, now, g) :: s.streams[k]) == s.streams;
  }

  lemma AfterOne(s: R.Sender, e: R.Event)
    requires R.Inv(s) && RoundRuns.RatesOk([e])
    ensures R.StreamsOk(s) && (e.Boundary? ==> e.l.rate > 0) && RoundRuns.After(s, [e]) == R.Step(s, e)
  {
    hide R.Step, R.Inv;
    RoundRuns.InvOk(s);
    assert [e][..0] == [] && [e][0] == e;
    assert RoundRuns.After(s, []) == s;
  }

  lemma TicksOk()
    ensures TickOk(FIRST_TICK) && TickOk(SECOND_TICK)
  {
  }

  /** The history a delivery leaves. */
  lemma DeliverHeard(s: R.Sender, rounds: set<int>, c: Playout.Cursor, net: Net, round: nat, mark: int)
    requires round < 2 && R.Inv(s) && RoundRuns.RatesOk([Deliver(round, mark)]) && Holding(s, rounds, c) && round !in net
    requires Playout.OnFrame(c, round) != Playout.TooLate
    ensures HeardAfter(s, 0, net, [Deliver(round, mark)]) == net[round as int := [Whole(round)]]
  {
    hide R.Inv, Complete;
    var e := Deliver(round, mark);
    assert [e][..0] == [] && RoundRuns.After(s, []) == s && HeardAfter(s, 0, net, []) == net;
    assert 0 in s.streams.Keys;
    assert e.frames[1..] == [];
    assert HeardAll(net, c, e.frames) == HeardAll(HeardOne(net, c, round, Whole(round)), c, []);
    assert [] + [Whole(round)] == [Whole(round)];
  }

  lemma WholeIsReal(round: nat)
    requires round < 2
    ensures 0 in Reals([Whole(round)])
  {
    assert Whole(round) in [Whole(round)];
  }

  // ---------------------------------------------------------------- one tick

  lemma HoldingFacts(s: R.Sender, rounds: set<int>, c: Playout.Cursor)
    requires Holding(s, rounds, c)
    ensures s.streams != map[] && 0 in s.streams && s.intent == R.NoNews && s.cursor == c
  {
    assert 0 in s.streams.Keys;
  }

  /** The highest round held, if it lies above the cursor, is what a new boundary releases. */
  lemma HighestReleases(s: R.Sender, rounds: set<int>, c: Playout.Cursor, boundary: int, round: int)
    requires Holding(s, rounds, c) && round in rounds && (forall r <- rounds :: r <= round)
    requires (c.playing.Some? ==> c.playing.value < round) && !Playout.Ignored(c, boundary)
    ensures Playout.Releases(c, boundary, R.StatesOf(s, boundary), R.StateOf(s, round, boundary))
    ensures Playout.Outcome(c, boundary, R.StatesOf(s, boundary)) == Some(round)
  {
    hide Holding, R.Buffered, R.RoundDone, Playout.Ready, Playout.Outcome;
    HoldingBuffers(s, rounds, c);
    var qs, q := R.StatesOf(s, boundary), R.StateOf(s, round, boundary);
    assert q in qs && Playout.Above(c, q);
    assert Playout.Releases(c, boundary, qs, q);
    Playout.OutcomeIs(c, boundary, qs, q);
  }

  /** After the release only that round is left of those held. */
  lemma ReleaseHolds(s: R.Sender, rounds: set<int>, c: Playout.Cursor, l: R.Local, round: int)
    requires Holding(s, rounds, c) && R.StreamsOk(s) && round in rounds && (forall r <- rounds :: r <= round)
    requires (c.playing.Some? ==> c.playing.value < round) && !Playout.Ignored(c, l.boundary)
    ensures Holding(R.AtBoundary(s, l), {round}, Playout.Cursor(Some(round), Some(l.boundary)))
  {
    hide FeederModel.Ok, Complete, R.HandedOver, R.StatesOf, Playout.Outcome, R.Unheard;
    HighestReleases(s, rounds, c, l.boundary, round);
    HoldingFacts(s, rounds, c);
    var t := R.AtBoundary(s, l);
    assert t.streams.Keys == {0};
    assert forall r :: r in t.streams[0].rounds <==> r == round by {
      assert forall r :: r in s.streams[0].rounds <==> r in s.streams[0].rounds.Keys;
    }
    assert t.streams[0].rounds.Keys == {round};
  }

  lemma TopUpHolds(s: R.Sender, rounds: set<int>, c: Playout.Cursor, beat: real)
    requires Holding(s, rounds, c) && R.StreamsOk(s)
    ensures Holding(R.Step(s, R.TopUp(beat)), rounds, c)
  {
    hide FeederModel.Ok, Complete, FeederModel.Advance;
  }

  /** A tick that delivers the next round and crosses a boundary finds it the newest ready one, and releases it. */
  ghost predicate Advances(s: R.Sender, rounds: set<int>, net: Net, round: nat, mark: int, index: int, t: EngineTick)
    requires R.Inv(s) && TickOk(t) && round < 2
  {
    var i, m := GRID.cfg.IndexAtBeat(t.beat), R.Swept(RoundRuns.After(s, t.between), t.now, t.graces);
    && R.StreamsOk(m) && Holding(m, rounds + {round as int}, s.cursor)
    && 0 in m.streams && 0 in s.streams && m.streams[0].feeder == s.streams[0].feeder
    && Holding(EngineStep(s, GRID, index, t), {round as int}, Playout.Cursor(Some(round), Some(i)))
    && NetSeen(s, GRID, 0, index, t, net) == map[round as int := [Whole(round)]]
  }

  lemma TickAdvances(s: R.Sender, rounds: set<int>, net: Net, round: nat, mark: int, index: int, t: EngineTick)
    requires R.Inv(s) && TickOk(t) && round < 2 && Holding(s, rounds, s.cursor) && Records(s, 0, net)
    requires t.between == [Deliver(round, mark)] && GRID.cfg.IndexAtBeat(t.beat) > index
    requires (forall r <- rounds :: r < round) && !Playout.Ignored(s.cursor, GRID.cfg.IndexAtBeat(t.beat))
    requires s.cursor.playing.Some? ==> s.cursor.playing.value < round
    ensures 0 in s.streams && Advances(s, rounds, net, round, mark, index, t)
  {
    hide R.Inv, Holding, R.Swept, R.AtBoundary, Config.IndexAtBeat, FeederModel.Ok, R.Step, Records, HeardAfter, Rebuilt;
    var i, c, l := GRID.cfg.IndexAtBeat(t.beat), s.cursor, LocalOf(GRID, GRID.cfg.IndexAtBeat(t.beat));
    var all := rounds + {round as int};
    HoldingFacts(s, rounds, c);
    AfterOne(s, Deliver(round, mark));
    DeliverHolds(s, rounds, c, round, mark);
    RecordsKeys(s, rounds, c, net);
    DeliverHeard(s, rounds, c, net, round, mark);
    EventsAreHeard(s, 0, net, t.between);
    var s1 := RoundRuns.After(s, t.between);
    HoldingFacts(s1, all, c);
    SweepKeepsAll(s1, t.now, t.graces);
    RoundRuns.InvOk(s1);
    ReleaseHolds(s1, all, c, l, round);
    var s2 := Crossing(s, GRID, index, t);
    CrossingIs(s, index, t);
    RoundRuns.InvOk(s2);
    TopUpHolds(s2, {round as int}, Playout.Cursor(Some(round), Some(i)), t.beat);
    OneRoundLeft(s2, round, Playout.Cursor(Some(round), Some(i)), HeardAfter(s, 0, net, t.between));
  }

  lemma CrossingIs(s: R.Sender, index: int, t: EngineTick)
    requires R.Inv(s) && TickOk(t) && GRID.cfg.IndexAtBeat(t.beat) > index
    requires R.StreamsOk(R.Swept(RoundRuns.After(s, t.between), t.now, t.graces))
    ensures Crossing(s, GRID, index, t)
         == R.AtBoundary(R.Swept(RoundRuns.After(s, t.between), t.now, t.graces), LocalOf(GRID, GRID.cfg.IndexAtBeat(t.beat)))
  {
    hide R.Inv, R.AtBoundary, R.Swept, Config.IndexAtBeat, FeederModel.Ok, RoundRuns.After, LocalOf, R.StreamsOk;
    var s1, l := RoundRuns.After(s, t.between), LocalOf(GRID, GRID.cfg.IndexAtBeat(t.beat));
    RoundRuns.InvOk(s1);
    LocalRate(GRID.cfg.IndexAtBeat(t.beat));
    BoundaryStep(s1, l, t.now, t.graces);
  }

  lemma LocalRate(index: int)
    ensures LocalOf(GRID, index).rate == 48000
  {
    hide Config.WindowStart, Config.WindowEnd, Playback.Grid.Frames, Playback.Grid.Padded;
  }

  lemma BoundaryStep(s: R.Sender, l: R.Local, now: int, graces: R.Graces)
    requires R.StreamsOk(s) && l.rate > 0 && R.StreamsOk(R.Swept(s, now, graces))
    ensures R.Step(s, R.Boundary(l, now, graces)) == R.AtBoundary(R.Swept(s, now, graces), l)
  {
    hide R.AtBoundary, R.Swept, R.StreamsOk;
  }

  lemma RecordsKeys(s: R.Sender, rounds: set<int>, c: Playout.Cursor, net: Net)
    requires Holding(s, rounds, c) && Records(s, 0, net)
    ensures forall r :: r in net <==> r in rounds
  {
    hide Complete, Rebuilt;
    assert forall r :: r in net <==> r in net.Keys;
  }

  lemma OneRoundLeft(s: R.Sender, round: nat, c: Playout.Cursor, heard: Net)
    requires round < 2 && Holding(s, {round as int}, c) && round in heard && heard[round] == [Whole(round)]
    ensures (map r | r in heard && 0 in s.streams && r in s.streams[0].rounds :: heard[r]) == map[round as int := [Whole(round)]]
  {
    hide Complete;
    assert 0 in s.streams.Keys && round in s.streams[0].rounds.Keys;
    assert forall r :: r in s.streams[0].rounds <==> r in s.streams[0].rounds.Keys;
  }

  // ---------------------------------------------------------------- the run

  lemma QuietInv()
    ensures R.Inv(QUIET) && R.StreamsOk(QUIET) && Holding(QUIET, {}, Playout.Cursor(None, None)) && Records(QUIET, 0, map[])
  {
    assert forall r :: !R.Buffered(QUIET, r);
  }

  /** Round 0 starts the stream. */
  lemma FirstStarts()
    ensures R.Inv(QUIET) && TickOk(FIRST_TICK)
    ensures Starts(QUIET, GRID, 0, 0, 0, FIRST_TICK) && NetSeen(QUIET, GRID, 0, 0, FIRST_TICK, map[]) == map[0 := [Whole(0)]]
    ensures var s1 := EngineStep(QUIET, GRID, 0, FIRST_TICK);
            Holding(s1, {0}, Playout.Cursor(Some(0), Some(1))) && Records(s1, 0, map[0 := [Whole(0)]])
  {
    hide R.Inv, Holding, R.Swept, Config.IndexAtBeat, Playout.Releases, R.StatesOf, R.StateOf, Deliver, Records, NetSeen, EngineStep,
      RoundRuns.After;
    GridFacts();
    QuietInv();
    TicksOk();
    TickAdvances(QUIET, {}, map[], 0, 0, 0, FIRST_TICK);
    var m, none := R.Swept(RoundRuns.After(QUIET, FIRST_TICK.between), 0, R.Graces(0, 0)), Playout.Cursor(None, None);
    assert {} + {0} == {0};
    HoldingFacts(m, {0}, none);
    HighestReleases(m, {0}, none, 1, 0);
    CrossingIsRecorded(QUIET, GRID, 0, 0, FIRST_TICK, map[]);
  }

  /** Round 1 is due at the next boundary. */
  lemma SecondInTurn(s: R.Sender)
    requires R.Inv(s) && Holding(s, {0}, Playout.Cursor(Some(0), Some(1))) && Records(s, 0, map[0 := [Whole(0)]])
    ensures TickOk(SECOND_TICK) && InTurn(s, GRID, 0, 0, 1, SECOND_TICK)
    ensures NetSeen(s, GRID, 0, 1, SECOND_TICK, map[0 := [Whole(0)]]) == map[1 := [Whole(1)]]
  {
    hide R.Inv, Holding, R.Swept, Config.IndexAtBeat, R.StateOf, Deliver, Records, NetSeen, EngineStep, RoundRuns.After,
      R.Buffered, Playout.Ready;
    GridFacts();
    TicksOk();
    var c := Playout.Cursor(Some(0), Some(1));
    HoldingFacts(s, {0}, c);
    TickAdvances(s, {0}, map[0 := [Whole(0)]], 1, 1, 1, SECOND_TICK);
    var m := R.Swept(RoundRuns.After(s, SECOND_TICK.between), 0, R.Graces(0, 0));
    assert {0} + {1} == {0, 1};
    HoldingFacts(m, {0, 1}, c);
    HoldingBuffers(m, {0, 1}, c);
  }

  lemma TicksDeliver()
    ensures Sends(SENDER, GRID, BUFFER, [])
    ensures var ws := WindowsOf(SENDER, BUFFER, []);
            (forall e <- FIRST_TICK.between :: Delivers(e, 0, ws)) && AllDeliver([SECOND_TICK], 0, ws)
  {
    hide Sends, WindowsOf, IsWindow;
    SentWhole(0);
    SentWhole(1);
  }

  lemma RunFeeds()
    ensures Sends(SENDER, GRID, BUFFER, [])
    ensures Feeds(QUIET, GRID, 0, map[], 0, 0, FIRST_TICK, [SECOND_TICK], WindowsOf(SENDER, BUFFER, []))
  {
    hide Sends, WindowsOf, R.Inv, Holding, Starts, InTurn, EngineStep, Config.IndexAtBeat, Records, Delivers, TickOk, NetSeen;
    GridFacts();
    QuietInv();
    FirstStarts();
    TicksOk();
    TicksDeliver();
    var s1 := EngineStep(QUIET, GRID, 0, FIRST_TICK);
    SecondInTurn(s1);
    OneInTurn(s1, SECOND_TICK);
    QuietFeeder();
  }

  lemma QuietFeeder()
    ensures 0 in QUIET.streams && FeederModel.Ok(QUIET.streams[0].feeder) && QUIET.streams[0].feeder == FeederModel.NewFeeder(50, 10)
  {
  }

  lemma OneInTurn(s: R.Sender, t: EngineTick)
    requires R.Inv(s) && TickOk(t) && InTurn(s, GRID, 0, 0, 1, t)
    ensures (forall x <- [t] :: TickOk(x)) && AllInTurn(s, GRID, 0, 0, 1, [t])
  {
    hide R.Inv, InTurn, EngineStep, TickOk, Config.IndexAtBeat;
    assert [t][0] == t && [t][1..] == [];
    var i, s1 := GRID.cfg.IndexAtBeat(t.beat), EngineStep(s, GRID, 1, t);
    assert AllInTurn(s1, GRID, 0, if i > 1 then 1 else 0, Max(i, 1), []);
  }

  /** What a single later tick sees. */
  lemma OneSeen(s: R.Sender, t: EngineTick, net: Net, seen: Net)
    requires R.Inv(s) && TickOk(t) && seen == NetSeen(s, GRID, 0, 1, t, net)
    ensures (forall x <- [t] :: TickOk(x))
    ensures NetsSeen(s, GRID, 0, 1, [t], net) == [NetTick(t.beat, seen)]
    ensures TicksSeen(s, GRID, 0, 1, [t]) == [TickSeen(s, GRID, 0, 1, t)]
  {
    hide R.Inv, NetSeen, EngineStep, TickOk, Config.IndexAtBeat, TickSeen;
    assert [t][0] == t && [t][1..] == [];
    var i, s1 := GRID.cfg.IndexAtBeat(t.beat), EngineStep(s, GRID, 1, t);
    assert NetsSeen(s1, GRID, 0, Max(i, 1), [], seen) == [] && TicksSeen(s1, GRID, 0, Max(i, 1), []) == [];
  }

  lemma OnePunctual(t: NetTick)
    requires InTime(t.net, GRID, GRID.cfg.IndexAtBeat(t.beat) - 1, Max(GRID.PlayAt(t.beat, GRID.cfg.IndexAtBeat(t.beat)), 0) + 50, R.WINDOW)
    ensures Punctual(GRID, 50, 0, 1, [t])
  {
    hide InTime, Config.IndexAtBeat, Playback.Grid.PlayAt;
    assert [t][0] == t && [t][1..] == [];
    var r, i := GRID.cfg.IndexAtBeat(t.beat) - 1, GRID.cfg.IndexAtBeat(t.beat);
    assert Punctual(GRID, 50, r, i, []);
  }

  lemma OneInReach(p: Playback.Player, b: real, t: Playback.Tick)
    requires GRID.Ok() && FeederModel.Ok(p.f) && p.f.cur.Some? && PlaybackRuns.InReach(p.f, GRID, p.index, b, t.beat)
    ensures PlaybackRuns.Cadence(p, GRID, b, [t])
  {
    hide PlaybackRuns.InReach, PlaybackRuns.TickStep, Playback.Grid.Ok;
    assert [t][0] == t && [t][1..] == [];
    assert PlaybackRuns.Cadence(PlaybackRuns.TickStep(p, GRID, t).0, GRID, t.beat, []);
  }

  /** What the first tick needs, and the second. */
  lemma NetsInTime()
    ensures InTime(map[0 := [Whole(0)]], GRID, 0, 960, 960) && InTime(map[1 := [Whole(1)]], GRID, 1, 50, 960)
  {
    GridFacts();
    WholeIsReal(0);
    WholeIsReal(1);
    hide Reals, Whole;
    assert forall k: nat :: k * 960 < 960 ==> k == 0;
  }

  /** The second tick comes at the very frame the cushion of the first one reaches. */
  lemma SecondInReach(nt: NetTick)
    requires nt == NetTick(FIRST_TICK.beat, map[0 := [Whole(0)]])
    ensures GRID.Ok() && FeederModel.Ok(FeederModel.NewFeeder(50, 10))
    ensures var p := PlaybackRuns.Started(FeederModel.NewFeeder(50, 10), GRID, 0, TickOf(nt, R.WINDOW)).0;
            p.index == 1 && PlaybackRuns.InReach(p.f, GRID, 1, FIRST_TICK.beat, 2.0)
  {
    hide Config.IndexAtBeat, Playback.Grid.PlayAt, Playback.Grid.Frames, Playback.Grid.Padded, WindowsOf, PlaybackRuns.Started,
      Sends, OnGrid,
      NetFrom, InTime, StreamOf, Quiet, PlaybackRuns.FirstSupplied, Config.WindowStart, Config.WindowEnd, AnchorsInside, Playback.Grid.Ok,
      EndToEnd.StoreOf, Whole;
    GridFacts();
    NetsInTime();
    SenderSends();
    SendsOk(SENDER, GRID, BUFFER, []);
    SentOnTheGrid(SENDER, GRID, BUFFER, []);
    FirstFrom();
    FirstIsSupplied(FeederModel.NewFeeder(50, 10), GRID, 0, nt, WindowsOf(SENDER, BUFFER, []), StreamOf(SENDER, BUFFER, []), 960, 0,
                    !AnchorsInside(SENDER, BUFFER));
  }

  lemma FirstFrom()
    ensures Sends(SENDER, GRID, BUFFER, []) && NetFrom(map[0 := [Whole(0)]], WindowsOf(SENDER, BUFFER, []))
  {
    hide Sends, WindowsOf, IsWindow;
    SentWhole(0);
  }

  /** Every hypothesis of the theorem can be met, a boundary included. */
  lemma EngineHypothesesAreMet()
    ensures Sends(SENDER, GRID, BUFFER, []) && SENDER.window == R.WINDOW
    ensures Feeds(QUIET, GRID, 0, map[], 0, 0, FIRST_TICK, [SECOND_TICK], WindowsOf(SENDER, BUFFER, []))
    ensures R.Inv(QUIET) && GRID.rate > 0 && GRID.Ok() && TickOk(FIRST_TICK) && TickOk(SECOND_TICK)
    ensures KeepsUp(QUIET, GRID, 0, map[], 0, 0, FIRST_TICK, [SECOND_TICK])
  {
    hide Sends, WindowsOf, R.Inv, Holding, Starts, InTurn, EngineStep, Config.IndexAtBeat, Records, Delivers, TickOk, NetSeen, Feeds,
      FeederModel.Ok, Playback.Grid.Ok, Playback.Grid.PlayAt, InTime, TickSeen, PlaybackRuns.Started, PlaybackRuns.InReach,
      EndToEnd.StoreOf, Whole;
    GridFacts();
    RunFeeds();
    QuietInv();
    FirstStarts();
    TicksOk();
    var s1, ts := EngineStep(QUIET, GRID, 0, FIRST_TICK), [SECOND_TICK];
    SecondInTurn(s1);
    NetsInTime();
    QuietFeeder();
    FirstSeen();
    OneSeen(s1, SECOND_TICK, map[0 := [Whole(0)]], map[1 := [Whole(1)]]);
    OnePunctual(NetTick(2.0, map[1 := [Whole(1)]]));
    var nt := NetTick(FIRST_TICK.beat, map[0 := [Whole(0)]]);
    SecondInReach(nt);
    SeenStore(s1, GRID, 0, 1, SECOND_TICK);
    OneInReach(PlaybackRuns.Started(FeederModel.NewFeeder(50, 10), GRID, 0, TickOf(nt, R.WINDOW)).0, FIRST_TICK.beat,
               TickSeen(s1, GRID, 0, 1, SECOND_TICK));
  }

  lemma FirstSeen()
    ensures R.Inv(QUIET) && TickOk(FIRST_TICK)
    ensures TickSeen(QUIET, GRID, 0, 0, FIRST_TICK) == TickOf(NetTick(FIRST_TICK.beat, map[0 := [Whole(0)]]), R.WINDOW)
  {
    hide R.Inv, Starts, EngineStep, Config.IndexAtBeat, Records, TickOk, NetSeen, TickSeen, EndToEnd.StoreOf, Whole, Holding;
    QuietInv();
    FirstStarts();
    StartsStays(QUIET, GRID, 0, 0, 0, FIRST_TICK);
    CrossingIsRecorded(QUIET, GRID, 0, 0, FIRST_TICK, map[]);
  }
}
