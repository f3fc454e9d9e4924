/** End to end through the engine itself (audio_engine_real.go): what a stream's reader finds at each tick is what the
    engine has placed of the sender's windows, too-late frames dropped and released rounds forgotten. */
module EngineEndToEnd {
  import opened Common
  import opened Audio
  import opened Interval
  import A = AssemblerModel
  import opened AssemblerStream
  import opened AssemblerRuns
  import opened Reassembly
  import FeederModel
  import Playout
  import Playback
  import PlaybackRuns
  import PlaybackStamps
  import opened EndToEnd
  import R = Rounds
  import RoundRuns
  import opened RoundPlayback

  // ---------------------------------------------------------------- what the engine has placed

  /** The history behind stream k: each buffered round is what its arrivals, in order, rebuild. */
  ghost predicate Records(s: R.Sender, k: nat, net: Net) {
    && k in s.streams && s.streams[k].rounds.Keys == net.Keys
    && forall r <- net :: s.streams[k].rounds[r] == Rebuilt(net[r], R.WINDOW)
  }

  lemma RecordsStore(s: R.Sender, k: nat, net: Net)
    requires Records(s, k, net)
    ensures R.StoreOf(s.streams[k]) == EndToEnd.StoreOf(net, R.WINDOW)
  {
    hide Rebuilt, Sized;
    var rounds := s.streams[k].rounds;
    assert forall r :: r in rounds <==> r in net by {
      assert forall r :: r in rounds.Keys <==> r in net.Keys;
    }
    var x, y := R.StoreOf(s.streams[k]), EndToEnd.StoreOf(net, R.WINDOW);
    assert x.Keys == y.Keys;
    forall r | r in x
      ensures x[r] == y[r]
    {
      assert r in net && x[r] == Sized(rounds[r], R.WINDOW) && y[r] == Sized(Rebuilt(net[r], R.WINDOW), R.WINDOW);
    }
  }

  /** One frame: dropped if too late, else the next arrival of its round. */
  function HeardOne(net: Net, c: Playout.Cursor, round: int, e: Arrival): Net {
    if Playout.OnFrame(c, round) == Playout.TooLate then net else net[round := ArrivalsOf(net, round) + [e]]
  }

  function HeardAll(net: Net, c: Playout.Cursor, frames: seq<(int, Arrival)>): Net
    decreases |frames|
  {
    if frames == [] then net else HeardAll(HeardOne(net, c, frames[0].0, frames[0].1), c, frames[1..])
  }

  /** What an event between ticks adds to the history of stream k. */
  function HeardBy(s: R.Sender, k: nat, net: Net, e: R.Event): Net {
    if e.Frames? && e.k == k && k in s.streams && s.streams[k].born == e.born then HeardAll(net, s.cursor, e.frames) else net
  }

  ghost function HeardAfter(s: R.Sender, k: nat, net: Net, es: seq<R.Event>): Net
    requires R.Inv(s) && RoundRuns.RatesOk(es)
    decreases |es|
  {
    if es == [] then net else
      var before := es[..|es| - 1];
      HeardBy(RoundRuns.After(s, before), k, HeardAfter(s, k, net, before), es[|es| - 1])
  }

  lemma RebuiltGrows(es: seq<Arrival>, e: Arrival, w: nat)
    ensures Rebuilt(es + [e], w) == Apply(Rebuilt(es, w), w, e)
  {
    assert (es + [e])[..|es|] == es;
  }

  lemma PlacedIsHeard(s: R.Sender, k: nat, net: Net, mark: int, round: int, e: Arrival)
    requires Records(s, k, net)
    ensures Records(R.PlaceOne(s, k, mark, round, e), k, HeardOne(net, s.cursor, round, e))
    ensures R.PlaceOne(s, k, mark, round, e).cursor == s.cursor
  {
    hide Rebuilt, Apply;
    RebuiltGrows(ArrivalsOf(net, round), e, R.WINDOW);
    NothingRebuilt();
  }

  lemma NothingRebuilt()
    ensures Rebuilt([], R.WINDOW) == FRESH
  {
  }

  lemma {:induction false} AllPlacedIsHeard(s: R.Sender, k: nat, net: Net, mark: int, frames: seq<(int, Arrival)>)
    requires Records(s, k, net)
    ensures Records(R.PlaceAll(s, k, mark, frames), k, HeardAll(net, s.cursor, frames))
    decreases |frames|
  {
    hide Records, R.PlaceOne, HeardOne;
    if frames != [] {
      RecordsStream(s, k, net);
      PlacedIsHeard(s, k, net, mark, frames[0].0, frames[0].1);
      var t := R.PlaceOne(s, k, mark, frames[0].0, frames[0].1);
      RecordsStream(t, k, HeardOne(net, s.cursor, frames[0].0, frames[0].1));
      AllPlacedIsHeard(t, k, HeardOne(net, s.cursor, frames[0].0, frames[0].1), mark, frames[1..]);
    }
  }

  lemma RecordsStream(s: R.Sender, k: nat, net: Net)
    requires Records(s, k, net)
    ensures k in s.streams
  {
  }

  /** Frames of another stream leave this one alone. */
  lemma {:induction false} OthersPlaced(s: R.Sender, k: nat, j: nat, mark: int, frames: seq<(int, Arrival)>)
    requires j in s.streams && k in s.streams && k != j
    ensures var t := R.PlaceAll(s, j, mark, frames); k in t.streams && t.streams[k] == s.streams[k]
    decreases |frames|
  {
    if frames != [] {
      OthersPlaced(R.PlaceOne(s, j, mark, frames[0].0, frames[0].1), k, j, mark, frames[1..]);
    }
  }

  /** An event between ticks adds to the history what it adds to the stream, and leaves its feeder alone. */
  lemma EventIsHeard(s: R.Sender, k: nat, net: Net, e: R.Event)
    requires R.StreamsOk(s) && Records(s, k, net) && Arriving(e)
    ensures Records(R.Step(s, e), k, HeardBy(s, k, net, e))
    ensures R.Step(s, e).streams[k].feeder == s.streams[k].feeder
  {
    hide Rebuilt, R.PlaceAll, HeardAll;
    if e.Frames? && e.k in s.streams {
      PlacingKeepsFeeders(s, e.k, e.mark, e.frames);
      if e.k != k {
        OthersPlaced(s, k, e.k, e.mark, e.frames);
      } else if s.streams[k].born == e.born {
        AllPlacedIsHeard(s, k, net, e.mark, e.frames);
      }
    }
  }

  lemma {:induction false} EventsAreHeard(s: R.Sender, k: nat, net: Net, es: seq<R.Event>)
    requires R.Inv(s) && RoundRuns.RatesOk(es) && Records(s, k, net) && forall e <- es :: Arriving(e)
    ensures Records(RoundRuns.After(s, es), k, HeardAfter(s, k, net, es))
    ensures k in s.streams && RoundRuns.After(s, es).streams[k].feeder == s.streams[k].feeder
    decreases |es|
  {
    hide R.Inv, R.Step, Records, Arriving, HeardBy;
    RecordsStream(s, k, net);
    if es != [] {
      var before, e := es[..|es| - 1], es[|es| - 1];
      EventsAreHeard(s, k, net, before);
      assert Arriving(e);
      var m := RoundRuns.After(s, before);
      RoundRuns.InvOk(m);
      RecordsStream(m, k, HeardAfter(s, k, net, before));
      EventIsHeard(m, k, HeardAfter(s, k, net, before), e);
      RecordsStream(RoundRuns.After(s, es), k, HeardAfter(s, k, net, es));
    }
  }

  // ---------------------------------------------------------------- one tick

  /** The history once a tick has processed its boundary: rounds the stream has let go of are forgotten. */
  ghost function NetSeen(s: R.Sender, g: Playback.Grid, k: nat, index: int, t: EngineTick, net: Net): Net
    requires R.Inv(s) && TickOk(t) && g.rate > 0
  {
    var heard, s2 := HeardAfter(s, k, net, t.between), Crossing(s, g, index, t);
    map r | r in heard && k in s2.streams && r in s2.streams[k].rounds :: heard[r]
  }

  lemma BoundaryKeepsRecords(s: R.Sender, k: nat, net: Net, l: R.Local)
    requires R.StreamsOk(s) && Records(s, k, net)
    ensures var t := R.AtBoundary(s, l);
            && k in t.streams && Records(t, k, map r | r in net && r in t.streams[k].rounds :: net[r])
  {
    hide Rebuilt, FeederModel.Ok, R.HandedOver, Playout.Outcome, R.StatesOf, R.Unheard;
  }

  lemma SameRecords(s: R.Sender, k: nat, net: Net)
    requires Records(s, k, net)
    ensures (map r | r in net && r in s.streams[k].rounds :: net[r]) == net
  {
  }

  /** The tick's view of stream k is its history rebuilt. */
  lemma CrossingIsRecorded(s: R.Sender, g: Playback.Grid, k: nat, index: int, t: EngineTick, net: Net)
    requires R.Inv(s) && TickOk(t) && g.rate > 0 && Records(s, k, net)
    requires var i := g.cfg.IndexAtBeat(t.beat);
             i > index ==> k in R.Swept(RoundRuns.After(s, t.between), t.now, t.graces).streams
    ensures Records(Crossing(s, g, index, t), k, NetSeen(s, g, k, index, t, net))
    ensures TickSeen(s, g, k, index, t) == TickOf(NetTick(t.beat, NetSeen(s, g, k, index, t, net)), R.WINDOW)
    ensures Records(EngineStep(s, g, index, t), k, NetSeen(s, g, k, index, t, net))
  {
    hide R.Inv, FeederModel.Ok, Records, R.Swept, R.AtBoundary, Config.IndexAtBeat, R.StoreOf, EndToEnd.StoreOf, FeederModel.Advance;
    EventsAreHeard(s, k, net, t.between);
    var s1, heard, i := RoundRuns.After(s, t.between), HeardAfter(s, k, net, t.between), g.cfg.IndexAtBeat(t.beat);
    RoundRuns.InvOk(s1);
    RecordsStream(s1, k, heard);
    if i > index {
      var m := R.Swept(s1, t.now, t.graces);
      R.SweepSparesWhatIsDue(s1, t.now, t.graces);
      RoundRuns.InvOk(m);
      SameStreamRecords(s1, m, k, heard);
      BoundaryKeepsRecords(m, k, heard, LocalOf(g, i));
    } else {
      SameRecords(s1, k, heard);
    }
    var s2 := Crossing(s, g, index, t);
    assert NetSeen(s, g, k, index, t, net) == (map r | r in heard && r in s2.streams[k].rounds :: heard[r]);
    RecordsStream(s2, k, NetSeen(s, g, k, index, t, net));
    RecordsStore(s2, k, NetSeen(s, g, k, index, t, net));
    RoundRuns.InvOk(s2);
    TopUpKeepsRecords(s2, k, NetSeen(s, g, k, index, t, net), t.beat);
  }

  lemma SameStreamRecords(s: R.Sender, m: R.Sender, k: nat, net: Net)
    requires Records(s, k, net) && k in m.streams && m.streams[k].rounds == s.streams[k].rounds
    ensures Records(m, k, net)
  {
  }

  lemma TopUpKeepsRecords(s: R.Sender, k: nat, net: Net, beat: real)
    requires R.StreamsOk(s) && Records(s, k, net)
    ensures Records(R.Step(s, R.TopUp(beat)), k, net)
  {
    hide Rebuilt, FeederModel.Ok, FeederModel.Advance;
  }

  // ---------------------------------------------------------------- runs

  /** What each tick of a run sees of stream k, as the history of its arrivals. */
  ghost function NetsSeen(s: R.Sender, g: Playback.Grid, k: nat, index: int, ts: seq<EngineTick>, net: Net): (r: seq<NetTick>)
    requires R.Inv(s) && g.rate > 0 && forall t <- ts :: TickOk(t)
    ensures |r| == |ts|
    decreases |ts|
  {
    if ts == [] then
      []
    else
      var seen := NetSeen(s, g, k, index, ts[0], net);
      [NetTick(ts[0].beat, seen)]
      + NetsSeen(EngineStep(s, g, index, ts[0]), g, k, Max(g.cfg.IndexAtBeat(ts[0].beat), index), ts[1..], seen)
  }

  lemma {:induction false} TicksAreRecorded(s: R.Sender, g: Playback.Grid, k: nat, round: int, index: int, ts: seq<EngineTick>, net: Net)
    requires R.Inv(s) && g.rate > 0 && (forall t <- ts :: TickOk(t)) && Records(s, k, net)
    requires AllInTurn(s, g, k, round, index, ts)
    ensures TicksSeen(s, g, k, index, ts) == TicksOf(NetsSeen(s, g, k, index, ts, net), R.WINDOW)
    decreases |ts|
  {
    hide R.Inv, Records, EngineStep, TickSeen, NetSeen, Config.IndexAtBeat, TickOk, EndToEnd.StoreOf;
    if ts != [] {
      var t, i := ts[0], g.cfg.IndexAtBeat(ts[0].beat);
      assert TickOk(t);
      InTurnStays(s, g, k, round, index, t);
      CrossingIsRecorded(s, g, k, index, t, net);
      var s1, seen := EngineStep(s, g, index, t), NetSeen(s, g, k, index, t, net);
      TicksAreRecorded(s1, g, k, if i > index then round + 1 else round, Max(i, index), ts[1..], seen);
      var nets := NetsSeen(s, g, k, index, ts, net);
      assert nets[0] == NetTick(t.beat, seen) && nets[1..] == NetsSeen(s1, g, k, Max(i, index), ts[1..], seen);
      assert TicksOf(nets, R.WINDOW)[0] == TickOf(nets[0], R.WINDOW);
      assert TicksOf(nets, R.WINDOW)[1..] == TicksOf(nets[1..], R.WINDOW);
      assert TicksSeen(s, g, k, index, ts)[1..] == TicksSeen(s1, g, k, Max(i, index), ts[1..]);
    }
  }

  lemma InTurnStays(s: R.Sender, g: Playback.Grid, k: nat, round: int, index: int, t: EngineTick)
    requires R.Inv(s) && TickOk(t) && InTurn(s, g, k, round, index, t)
    ensures var i := g.cfg.IndexAtBeat(t.beat);
            i > index ==> k in R.Swept(RoundRuns.After(s, t.between), t.now, t.graces).streams
  {
  }

  // ---------------------------------------------------------------- frames come from the sender

  /** Every real frame of stream k that an event delivers is one of the sender's windows. */
  ghost predicate Delivers(e: R.Event, k: nat, ws: seq<A.Window>) {
    e.Frames? && e.k == k ==> forall x <- e.frames :: x.1.Add? ==> IsWindow(x.1, ws, x.0)
  }

  ghost predicate AllDeliver(ts: seq<EngineTick>, k: nat, ws: seq<A.Window>) {
    forall t <- ts :: forall e <- t.between :: Delivers(e, k, ws)
  }

  lemma HeardOneFrom(net: Net, c: Playout.Cursor, round: int, e: Arrival, ws: seq<A.Window>)
    requires NetFrom(net, ws) && (e.Add? ==> IsWindow(e, ws, round))
    ensures NetFrom(HeardOne(net, c, round, e), ws)
  {
    hide IsWindow;
    var before, after := ArrivalsOf(net, round), ArrivalsOf(net, round) + [e];
    assert FromWindows(before, ws, round);
    forall x | x in after && x.Add?
      ensures IsWindow(x, ws, round)
    {
      if x != e {
        assert x in before;
      }
    }
  }

  lemma {:induction false} HeardAllFrom(net: Net, c: Playout.Cursor, frames: seq<(int, Arrival)>, ws: seq<A.Window>)
    requires NetFrom(net, ws) && forall x <- frames :: x.1.Add? ==> IsWindow(x.1, ws, x.0)
    ensures NetFrom(HeardAll(net, c, frames), ws)
    decreases |frames|
  {
    hide IsWindow, NetFrom, HeardOne;
    if frames != [] {
      assert frames[0] in frames;
      HeardOneFrom(net, c, frames[0].0, frames[0].1, ws);
      HeardAllFrom(HeardOne(net, c, frames[0].0, frames[0].1), c, frames[1..], ws);
    }
  }

  lemma {:induction false} HeardAfterFrom(s: R.Sender, k: nat, net: Net, es: seq<R.Event>, ws: seq<A.Window>)
    requires R.Inv(s) && RoundRuns.RatesOk(es) && NetFrom(net, ws) && forall e <- es :: Delivers(e, k, ws)
    ensures NetFrom(HeardAfter(s, k, net, es), ws)
    decreases |es|
  {
    hide R.Inv, NetFrom, IsWindow, RoundRuns.After, HeardAll;
    if es != [] {
      var before, e := es[..|es| - 1], es[|es| - 1];
      HeardAfterFrom(s, k, net, before, ws);
      assert Delivers(e, k, ws);
      var m, heard := RoundRuns.After(s, before), HeardAfter(s, k, net, before);
      if e.Frames? && e.k == k {
        HeardAllFrom(heard, m.cursor, e.frames, ws);
      }
    }
  }

  lemma NetSeenFrom(s: R.Sender, g: Playback.Grid, k: nat, index: int, t: EngineTick, net: Net, ws: seq<A.Window>)
    requires R.Inv(s) && TickOk(t) && g.rate > 0 && NetFrom(net, ws) && forall e <- t.between :: Delivers(e, k, ws)
    ensures NetFrom(NetSeen(s, g, k, index, t, net), ws)
  {
    hide R.Inv, FromWindows, Crossing, HeardAfter, Delivers;
    HeardAfterFrom(s, k, net, t.between, ws);
  }

  /** At each tick, everything it may need is among what has been placed. */
  ghost predicate Punctual(g: Playback.Grid, cushion: nat, round: int, index: int, ts: seq<NetTick>)
    decreases |ts|
  {
    ts == [] ||
    var t := ts[0];
    var i := g.cfg.IndexAtBeat(t.beat);
    && InTime(t.net, g, round + (i - index), Max(g.PlayAt(t.beat, i), 0) + cushion, R.WINDOW)
    && Punctual(g, cushion, round + (i - index), i, ts[1..])
  }

  lemma {:induction false} PunctualIsOnTime(g: Playback.Grid, cushion: nat, round: int, index: int, ts: seq<NetTick>, ws: seq<A.Window>)
    requires Punctual(g, cushion, round, index, ts) && forall t <- ts :: NetFrom(t.net, ws)
    ensures OnTime(g, cushion, ws, R.WINDOW, round, index, ts)
    decreases |ts|
  {
    hide InTime, NetFrom, Config.IndexAtBeat;
    if ts != [] {
      var i := g.cfg.IndexAtBeat(ts[0].beat);
      PunctualIsOnTime(g, cushion, round + (i - index), i, ts[1..], ws);
    }
  }

  lemma {:induction false} NetsSeenFrom(s: R.Sender, g: Playback.Grid, k: nat, index: int, ts: seq<EngineTick>, net: Net, ws: seq<A.Window>)
    requires R.Inv(s) && g.rate > 0 && (forall t <- ts :: TickOk(t)) && NetFrom(net, ws) && AllDeliver(ts, k, ws)
    ensures forall x <- NetsSeen(s, g, k, index, ts, net) :: NetFrom(x.net, ws)
    decreases |ts|
  {
    hide R.Inv, NetFrom, EngineStep, NetSeen, Delivers, TickOk, Config.IndexAtBeat;
    if ts != [] {
      var t := ts[0];
      assert TickOk(t) && t in ts;
      NetSeenFrom(s, g, k, index, t, net, ws);
      NetsSeenFrom(EngineStep(s, g, index, t), g, k, Max(g.cfg.IndexAtBeat(t.beat), index), ts[1..], NetSeen(s, g, k, index, t, net), ws);
    }
  }

  // ---------------------------------------------------------------- the first release

  /** The tick crosses a boundary at which `round` is the newest ready candidate, and stream k, still published, has not
      pre-rolled it. */
  ghost predicate Starts(s: R.Sender, g: Playback.Grid, k: nat, round: int, index: int, t: EngineTick)
    requires R.Inv(s) && TickOk(t)
  {
    var i, m := g.cfg.IndexAtBeat(t.beat), R.Swept(RoundRuns.After(s, t.between), t.now, t.graces);
    && i > index && k in m.streams && R.StreamsOk(m) && !Playout.Ignored(m.cursor, i)
    && Playout.Releases(m.cursor, i, R.StatesOf(m, i), R.StateOf(m, round, i))
    && !FeederModel.Promotes(m.streams[k].feeder, round)
  }

  /** The boundary of a start installs a fresh reader of the round in stream k. */
  lemma StartReleases(s: R.Sender, g: Playback.Grid, k: nat, round: int, index: int, t: EngineTick)
    requires R.Inv(s) && TickOk(t) && g.rate > 0 && Starts(s, g, k, round, index, t) && k in s.streams
    requires RoundRuns.After(s, t.between).streams.Keys >= {k}
    requires RoundRuns.After(s, t.between).streams[k].feeder == s.streams[k].feeder
    ensures FeederModel.Ok(s.streams[k].feeder) && !FeederModel.Promotes(s.streams[k].feeder, round)
    ensures var i, s2 := g.cfg.IndexAtBeat(t.beat), Crossing(s, g, index, t);
            && s2.cursor == Playout.Cursor(Some(round), Some(i)) && k in s2.streams
            && s2.streams[k].feeder == Playback.Boundary(s.streams[k].feeder, g, round, i)
  {
    hide R.Inv, FeederModel.Ok, R.HandedOver, Playout.Releases, R.StatesOf, R.StateOf, R.Swept, Config.IndexAtBeat, RoundRuns.After,
      R.Unheard, Playback.Boundary;
    var i, s1 := g.cfg.IndexAtBeat(t.beat), RoundRuns.After(s, t.between);
    var m := R.Swept(s1, t.now, t.graces);
    R.SweepSparesWhatIsDue(s1, t.now, t.graces);
    Playout.OutcomeIs(m.cursor, i, R.StatesOf(m, i), R.StateOf(m, round, i));
    StateRound(m, round, i);
    HandsOverAsOne(m.streams[k].feeder, g, round, i);
    RoundRuns.InvOk(s1);
  }

  lemma StateRound(m: R.Sender, round: int, boundary: int)
    ensures R.StateOf(m, round, boundary).index == round
  {
    hide R.RoundDone;
  }

  /** So the first tick is the single-stream loop's start, and the stream is its player from then on. */
  lemma StartPlays(s: R.Sender, g: Playback.Grid, k: nat, round: int, index: int, t: EngineTick, net: Net)
    requires R.Inv(s) && TickOk(t) && g.Ok() && g.rate > 0 && Starts(s, g, k, round, index, t) && Records(s, k, net)
    ensures k in s.streams && FeederModel.Ok(s.streams[k].feeder) && !FeederModel.Promotes(s.streams[k].feeder, round)
    ensures var seen := NetTick(t.beat, NetSeen(s, g, k, index, t, net));
            var r := PlaybackRuns.Started(s.streams[k].feeder, g, round, TickOf(seen, R.WINDOW));
            && Plays(EngineStep(s, g, index, t), k, r.0) && StepSent(s, g, k, index, t) == r.1
            && Records(EngineStep(s, g, index, t), k, seen.net)
  {
    hide R.Inv, FeederModel.Ok, Records, Config.IndexAtBeat, NetSeen, FeederModel.Advance, Playback.Boundary, TickSeen, Starts, Crossing,
      R.StoreOf, EndToEnd.StoreOf, Playback.Grid.Ok;
    RecordsStream(s, k, net);
    EventsAreHeard(s, k, net, t.between);
    RecordsStream(RoundRuns.After(s, t.between), k, HeardAfter(s, k, net, t.between));
    StartReleases(s, g, k, round, index, t);
    StartsStays(s, g, k, round, index, t);
    CrossingIsRecorded(s, g, k, index, t, net);
    var s2 := Crossing(s, g, index, t);
    RoundRuns.InvOk(s2);
    R.StepKeepsInv(s2, R.TopUp(t.beat));
    SeenStore(s, g, k, index, t);
    StartOk(s.streams[k].feeder, g, round, TickOf(NetTick(t.beat, NetSeen(s, g, k, index, t, net)), R.WINDOW));
  }

  lemma StartsStays(s: R.Sender, g: Playback.Grid, k: nat, round: int, index: int, t: EngineTick)
    requires R.Inv(s) && TickOk(t) && Starts(s, g, k, round, index, t)
    ensures k in R.Swept(RoundRuns.After(s, t.between), t.now, t.graces).streams
  {
  }

  lemma SeenStore(s: R.Sender, g: Playback.Grid, k: nat, index: int, t: EngineTick)
    requires R.Inv(s) && TickOk(t) && g.rate > 0
    ensures var s2 := Crossing(s, g, index, t);
            TickSeen(s, g, k, index, t).beat == t.beat
            && (k in s2.streams ==> TickSeen(s, g, k, index, t).store == R.StoreOf(s2.streams[k]))
  {
  }

  lemma StartOk(f: FeederModel.Feeder, g: Playback.Grid, round: int, t: Playback.Tick)
    requires g.Ok() && FeederModel.Ok(f)
    ensures var p := PlaybackRuns.Started(f, g, round, t).0;
            p.round == round && p.index == g.cfg.IndexAtBeat(t.beat) && FeederModel.Ok(p.f) && p.f.cur.Some?
  {
    hide Playback.Boundary, FeederModel.Advance, Config.IndexAtBeat;
  }

  // ---------------------------------------------------------------- the theorem

  /** The engine's run as one sender's windows feed it: from a history of them on, real frames of stream k are the
      sender's windows; one boundary starts the stream at `round`, and every later one finds the next round due. */
  ghost predicate Feeds(s: R.Sender, g: Playback.Grid, k: nat, net: Net, round: int, index: int, t: EngineTick, ts: seq<EngineTick>,
                        ws: seq<A.Window>)
  {
    && R.Inv(s) && g.rate > 0 && g.Ok() && TickOk(t) && (forall x <- ts :: TickOk(x))
    && Records(s, k, net) && NetFrom(net, ws) && (forall e <- t.between :: Delivers(e, k, ws)) && AllDeliver(ts, k, ws)
    && Starts(s, g, k, round, index, t)
    && AllInTurn(EngineStep(s, g, index, t), g, k, round, g.cfg.IndexAtBeat(t.beat), ts)
    && FeederModel.Ok(s.streams[k].feeder)
  }

  lemma FeedsOk(s: R.Sender, g: Playback.Grid, k: nat, net: Net, round: int, index: int, t: EngineTick, ts: seq<EngineTick>,
                ws: seq<A.Window>)
    requires Feeds(s, g, k, net, round, index, t, ts, ws)
    ensures R.Inv(s) && g.rate > 0 && g.Ok() && TickOk(t) && (forall x <- ts :: TickOk(x)) && k in s.streams
    ensures Records(s, k, net) && NetFrom(net, ws) && (forall e <- t.between :: Delivers(e, k, ws)) && AllDeliver(ts, k, ws)
    ensures Starts(s, g, k, round, index, t) && FeederModel.Ok(s.streams[k].feeder)
    ensures AllInTurn(EngineStep(s, g, index, t), g, k, round, g.cfg.IndexAtBeat(t.beat), ts)
  {
  }

  /** No tick of the run is out of reach, and each finds what it needs among what has been placed and not yet dropped. */
  ghost predicate KeepsUp(s: R.Sender, g: Playback.Grid, k: nat, net: Net, round: int, index: int, t: EngineTick, ts: seq<EngineTick>)
    requires R.Inv(s) && g.rate > 0 && g.Ok() && TickOk(t) && (forall x <- ts :: TickOk(x))
    requires k in s.streams && FeederModel.Ok(s.streams[k].feeder)
  {
    var f, i, s1 := s.streams[k].feeder, g.cfg.IndexAtBeat(t.beat), EngineStep(s, g, index, t);
    var seen := NetSeen(s, g, k, index, t, net);
    && InTime(seen, g, round, Max(g.PlayAt(t.beat, i), 0) + f.cushion, R.WINDOW)
    && Punctual(g, f.cushion, round, i, NetsSeen(s1, g, k, i, ts, seen))
    && PlaybackRuns.Cadence(PlaybackRuns.Started(f, g, round, TickSeen(s, g, k, index, t)).0, g, t.beat, TicksSeen(s1, g, k, i, ts))
  }

  /** Everything stream k's sink gets, from its first tick on. */
  ghost function AllSent(s: R.Sender, g: Playback.Grid, k: nat, index: int, t: EngineTick, ts: seq<EngineTick>): seq<FeederModel.Chunk>
    requires R.Inv(s) && g.rate > 0 && TickOk(t) && forall x <- ts :: TickOk(x)
  {
    StepSent(s, g, k, index, t) + EngineSent(EngineStep(s, g, index, t), g, k, g.cfg.IndexAtBeat(t.beat), ts)
  }

  /** Such a run is the single-stream loop's: its first tick and its later ones, as the history of arrivals sees them. */
  lemma FeedsTicks(s: R.Sender, g: Playback.Grid, k: nat, net: Net, round: int, index: int, t: EngineTick, ts: seq<EngineTick>,
                   ws: seq<A.Window>)
    returns (nt: NetTick, nets: seq<NetTick>)
    requires Feeds(s, g, k, net, round, index, t, ts, ws)
    ensures R.Inv(s) && g.rate > 0 && g.Ok() && TickOk(t) && (forall x <- ts :: TickOk(x)) && k in s.streams
    ensures var i, s1, f := g.cfg.IndexAtBeat(t.beat), EngineStep(s, g, index, t), s.streams[k].feeder;
            && nt == NetTick(t.beat, NetSeen(s, g, k, index, t, net)) && nets == NetsSeen(s1, g, k, i, ts, nt.net)
            && NetFrom(nt.net, ws) && (forall x <- nets :: NetFrom(x.net, ws))
            && TickSeen(s, g, k, index, t) == TickOf(nt, R.WINDOW) && TicksSeen(s1, g, k, i, ts) == TicksOf(nets, R.WINDOW)
            && FeederModel.Ok(f) && !FeederModel.Promotes(f, round)
            && var (p, cs) := PlaybackRuns.Started(f, g, round, TickOf(nt, R.WINDOW));
            && p.index == i && Plays(s1, k, p) && StepSent(s, g, k, index, t) == cs
  {
    hide R.Inv, FeederModel.Ok, Records, NetFrom, Starts, AllInTurn, EngineStep, StepSent, NetSeen, NetsSeen, TickSeen, TicksSeen,
      PlaybackRuns.Started, Playback.Grid.Ok, Config.IndexAtBeat, Plays, Delivers, TickOk, EndToEnd.StoreOf, Feeds;
    FeedsOk(s, g, k, net, round, index, t, ts, ws);
    var i, s1, seen := g.cfg.IndexAtBeat(t.beat), EngineStep(s, g, index, t), NetSeen(s, g, k, index, t, net);
    nt, nets := NetTick(t.beat, seen), NetsSeen(s1, g, k, i, ts, seen);
    StartPlays(s, g, k, round, index, t, net);
    StartsStays(s, g, k, round, index, t);
    CrossingIsRecorded(s, g, k, index, t, net);
    TicksAreRecorded(s1, g, k, round, i, ts, seen);
    NetSeenFrom(s, g, k, index, t, net, ws);
    NetsSeenFrom(s1, g, k, i, ts, seen, ws);
    StartOk(s.streams[k].feeder, g, round, TickOf(nt, R.WINDOW));
  }

  /** And what it sends is what that loop sends. */
  lemma FeedsPlayed(s: R.Sender, g: Playback.Grid, k: nat, net: Net, round: int, index: int, t: EngineTick, ts: seq<EngineTick>,
                    ws: seq<A.Window>, nt: NetTick, nets: seq<NetTick>)
    requires Feeds(s, g, k, net, round, index, t, ts, ws)
    requires R.Inv(s) && g.rate > 0 && g.Ok() && TickOk(t) && (forall x <- ts :: TickOk(x)) && k in s.streams
    requires var i, s1, f := g.cfg.IndexAtBeat(t.beat), EngineStep(s, g, index, t), s.streams[k].feeder;
             && TicksSeen(s1, g, k, i, ts) == TicksOf(nets, R.WINDOW) && FeederModel.Ok(f)
             && var (p, cs) := PlaybackRuns.Started(f, g, round, TickOf(nt, R.WINDOW));
             && p.index == i && Plays(s1, k, p) && StepSent(s, g, k, index, t) == cs
    ensures var (p, cs) := PlaybackRuns.Started(s.streams[k].feeder, g, round, TickOf(nt, R.WINDOW));
            var (q, ds) := PlaybackRuns.Played(p, g, TicksOf(nets, R.WINDOW));
            var last := EngineRun(EngineStep(s, g, index, t), g, p.index, ts);
            && AllSent(s, g, k, index, t, ts) == cs + ds && k in last.streams && last.streams[k].feeder == q.f
  {
    hide R.Inv, FeederModel.Ok, AllInTurn, EngineStep, EngineRun, EngineSent, StepSent, TicksSeen, PlaybackRuns.Started,
      PlaybackRuns.Played,
      Playback.Grid.Ok, Config.IndexAtBeat, Plays, TickOk, Feeds;
    FeedsOk(s, g, k, net, round, index, t, ts, ws);
    var s1, p := EngineStep(s, g, index, t), PlaybackRuns.Started(s.streams[k].feeder, g, round, TickOf(nt, R.WINDOW)).0;
    StartOk(s.streams[k].feeder, g, round, TickOf(nt, R.WINDOW));
    StreamsPlayRoundAfterRound(s1, g, k, p, ts);
    PlaysFeeder(EngineRun(s1, g, p.index, ts), k, PlaybackRuns.Played(p, g, TicksOf(nets, R.WINDOW)).0);
  }

  /** END TO END THROUGH THE ENGINE. A sender's windows reach a stream of the engine in any order, duplicated, with any
      concealment and among any other events; one boundary releases `round` first, and every later one finds the next
      round due; no tick is out of reach, and each finds what it needs among what has been placed and not yet dropped.
      Then everything the engine sends to the stream's sink is one contiguous piece of the stream the sender laid down,
      stamped without a splice, and no underrun is counted. */
  lemma EnginePlaysTheSource(a: A.Asm, g: Playback.Grid, first: In, rest: seq<In>, s: R.Sender, k: nat, net: Net, round: int, index: int,
                             t: EngineTick, ts: seq<EngineTick>)
    returns (from: nat, end: nat)
    requires Sends(a, g, first, rest) && a.window == R.WINDOW
    requires Feeds(s, g, k, net, round, index, t, ts, WindowsOf(a, first, rest)) && KeepsUp(s, g, k, net, round, index, t, ts)
    ensures var src, sent := StreamOf(a, first, rest), AllSent(s, g, k, index, t, ts);
            && from <= end <= |src| && FeederModel.Joined(sent) == src[from..end] && PlaybackStamps.Meeting(g, sent)
            && from == Base(round, a.cfg.IndexAtBeat(first.beat), g.Frames()) + g.PlayAt(t.beat, g.cfg.IndexAtBeat(t.beat))
    ensures var last := EngineRun(EngineStep(s, g, index, t), g, g.cfg.IndexAtBeat(t.beat), ts);
            && k in last.streams && last.streams[k].feeder.underrunFrames == s.streams[k].feeder.underrunFrames
            && last.streams[k].feeder.underrunEvents == s.streams[k].feeder.underrunEvents
  {
    hide R.Inv, FeederModel.Ok, NetFrom, InTime, Punctual, OnTime, EngineStep, EngineRun, AllSent, StepSent, NetSeen, NetsSeen, TickSeen,
      TicksSeen, Sends, WindowsOf, StreamOf, PlaybackRuns.Cadence, PlaybackRuns.Started, PlaybackRuns.Played, Playback.Grid.Ok,
      Playback.Grid.Frames, Playback.Grid.PlayAt, Config.IndexAtBeat, PlaybackStamps.Meeting, FeederModel.Joined, Plays, TickOk,
      EndToEnd.StoreOf, Base, Feeds;
    SendsOk(a, g, first, rest);
    var ws := WindowsOf(a, first, rest);
    var nt, nets := FeedsTicks(s, g, k, net, round, index, t, ts, ws);
    FeedsPlayed(s, g, k, net, round, index, t, ts, ws, nt, nets);
    PunctualIsOnTime(g, s.streams[k].feeder.cushion, round, g.cfg.IndexAtBeat(t.beat), nets, ws);
    from, end := WhatComesOutIsWhatWentIn(a, g, first, rest, s.streams[k].feeder, round, nt, nets);
  }

  lemma PlaysFeeder(s: R.Sender, k: nat, p: Playback.Player)
    requires Plays(s, k, p)
    ensures k in s.streams && s.streams[k].feeder == p.f
  {
  }
}
