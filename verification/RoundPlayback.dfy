/** The cursor and the feeders together (audio_engine_real.go, emitLoop): while each boundary finds the next round ready and
    nothing newer, every stream plays round after round, exactly as the single-stream emit loop of PlaybackRuns.dfy. */
module RoundPlayback {
  import opened Common
  import opened Audio
  import opened Interval
  import opened PacedReader
  import FeederModel
  import opened Reassembly
  import opened Playout
  import opened Rounds
  import opened RoundRuns
  import Playback
  import PlaybackRuns

  // ---------------------------------------------------------------- one boundary

  /** The next round is ready and is the newest that is. */
  ghost predicate NextIsDue(s: Sender, boundary: int, round: int) {
    && s.cursor.playing == Some(round) && !Ignored(s.cursor, boundary)
    && Buffered(s, round + 1) && Ready(StateOf(s, round + 1, boundary), boundary)
    && forall r :: Buffered(s, r) && r > round + 1 ==> !Ready(StateOf(s, r, boundary), boundary)
  }

  /** Then exactly the next round is released, to every stream. */
  lemma NextIsReleased(s: Sender, l: Local, round: int)
    requires Inv(s) && StreamsOk(s) && NextIsDue(s, l.boundary, round)
    ensures var t := AtBoundary(s, l);
            && t.cursor == Cursor(Some(round + 1), Some(l.boundary)) && t.streams.Keys == s.streams.Keys
            && forall k <- s.streams :: t.streams[k].feeder == HandedOver(s.streams[k].feeder, round + 1, l)
  {
    hide FeederModel.Ok, HandedOver, StatesOf, RoundDone, Inv, Ready, Unheard;
    var qs, q := StatesOf(s, l.boundary), StateOf(s, round + 1, l.boundary);
    var k :| k in s.streams && round + 1 in s.streams[k].rounds;
    assert q in qs && Above(s.cursor, q);
    assert Releases(s.cursor, l.boundary, qs, q);
    OutcomeIs(s.cursor, l.boundary, qs, q);
  }

  // ---------------------------------------------------------------- the grid

  /** What a boundary of the grid hands to every stream. */
  function LocalOf(g: Playback.Grid, index: int): Local {
    Local(index, g.cfg.WindowStart(index), g.cfg.WindowEnd(index), g.tempo, g.Frames(), g.Padded(), g.rate)
  }

  lemma HandsOverAsOne(f: FeederModel.Feeder, g: Playback.Grid, round: int, index: int)
    requires FeederModel.Ok(f)
    ensures HandedOver(f, round, LocalOf(g, index)) == Playback.Boundary(f, g, round, index)
  {
    hide Playback.Grid.Frames, Playback.Grid.Padded, Config.WindowStart, Config.WindowEnd;
  }

  // ---------------------------------------------------------------- one tick of the emit loop

  /** What happens between two ticks: frames and announcements. */
  predicate Arriving(e: Event) {
    e.Mint? || e.Frames? || e.Announce?
  }

  datatype EngineTick = EngineTick(between: seq<Event>, beat: real, now: int, graces: Graces)

  predicate TickOk(t: EngineTick) {
    RatesOk(t.between) && forall e <- t.between :: Arriving(e)
  }

  /** After what arrived, and the boundary if the tick crosses one. */
  ghost function Crossing(s: Sender, g: Playback.Grid, index: int, t: EngineTick): (r: Sender)
    requires Inv(s) && TickOk(t) && g.rate > 0
    ensures Inv(r)
  {
    var s1 := After(s, t.between);
    var i := g.cfg.IndexAtBeat(t.beat);
    if i > index then
      var e := Boundary(LocalOf(g, i), t.now, t.graces);
      InvOk(s1);
      StepKeepsInv(s1, e);
      Step(s1, e)
    else s1
  }

  ghost function EngineStep(s: Sender, g: Playback.Grid, index: int, t: EngineTick): (r: Sender)
    requires Inv(s) && TickOk(t) && g.rate > 0
    ensures Inv(r)
  {
    var s2 := Crossing(s, g, index, t);
    InvOk(s2);
    StepKeepsInv(s2, TopUp(t.beat));
    Step(s2, TopUp(t.beat))
  }

  /** If the tick crosses a boundary, it finds stream k unretired and the next round due. */
  ghost predicate InTurn(s: Sender, g: Playback.Grid, k: nat, round: int, index: int, t: EngineTick)
    requires Inv(s) && TickOk(t)
  {
    var i := g.cfg.IndexAtBeat(t.beat);
    i > index ==> var m := Swept(After(s, t.between), t.now, t.graces); k in m.streams && NextIsDue(m, i, round)
  }

  /** Stream k is the player p. */
  ghost predicate Plays(s: Sender, k: nat, p: Playback.Player) {
    && Inv(s) && k in s.streams && s.streams[k].feeder == p.f && FeederModel.Ok(p.f) && p.f.cur.Some?
    && s.cursor.playing == Some(p.round) && s.cursor.boundary == Some(p.index)
  }

  lemma ArrivalKeepsPlaying(s: Sender, e: Event, k: nat, p: Playback.Player)
    requires Plays(s, k, p) && Arriving(e)
    ensures StreamsOk(s) && Plays(Step(s, e), k, p)
  {
    hide Inv, FeederModel.Ok, PlaceAll;
    InvOk(s);
    StepKeepsInv(s, e);
    if e.Frames? && e.k in s.streams {
      PlacingKeepsFeeders(s, e.k, e.mark, e.frames);
    }
  }

  lemma {:induction false} PlacingKeepsFeeders(s: Sender, k: nat, mark: int, frames: seq<(int, Arrival)>)
    requires k in s.streams
    ensures var t := PlaceAll(s, k, mark, frames);
            && t.cursor == s.cursor && t.streams.Keys == s.streams.Keys
            && forall j <- s.streams :: t.streams[j].feeder == s.streams[j].feeder
    decreases |frames|
  {
    if frames != [] {
      PlacingKeepsFeeders(PlaceOne(s, k, mark, frames[0].0, frames[0].1), k, mark, frames[1..]);
    }
  }

  lemma {:induction false} ArrivalsKeepPlaying(s: Sender, es: seq<Event>, k: nat, p: Playback.Player)
    requires Plays(s, k, p) && RatesOk(es) && forall e <- es :: Arriving(e)
    ensures Inv(s) && Plays(After(s, es), k, p)
    decreases |es|
  {
    hide Inv, Plays, Step, Arriving;
    assert Inv(s) by {
      PlaysInv(s, k, p);
    }
    if es != [] {
      var before := es[..|es| - 1];
      ArrivalsKeepPlaying(s, before, k, p);
      assert Arriving(es[|es| - 1]);
      ArrivalKeepsPlaying(After(s, before), es[|es| - 1], k, p);
    }
  }

  lemma PlaysInv(s: Sender, k: nat, p: Playback.Player)
    requires Plays(s, k, p)
    ensures Inv(s) && k in s.streams && FeederModel.Ok(p.f) && p.f.cur.Some?
  {
  }

  /** The tick as the single-stream loop sees it: the beat, and what stream k has reassembled by then. */
  ghost function TickSeen(s: Sender, g: Playback.Grid, k: nat, index: int, t: EngineTick): Playback.Tick
    requires Inv(s) && TickOk(t) && g.rate > 0
  {
    var s2 := Crossing(s, g, index, t);
    Playback.Tick.Tick(t.beat, if k in s2.streams then Rounds.StoreOf(s2.streams[k]) else map[])
  }

  /** The chunks stream k's top-up sends to its sink at a tick. */
  ghost function StepSent(s: Sender, g: Playback.Grid, k: nat, index: int, t: EngineTick): seq<FeederModel.Chunk>
    requires Inv(s) && TickOk(t) && g.rate > 0
  {
    var s2 := Crossing(s, g, index, t);
    InvOk(s2);
    if k in s2.streams then FeederModel.Advance(s2.streams[k].feeder, t.beat, Rounds.StoreOf(s2.streams[k])).1 else []
  }

  lemma CrossingPlays(s: Sender, g: Playback.Grid, k: nat, p: Playback.Player, t: EngineTick)
    requires Plays(s, k, p) && g.Ok() && g.rate > 0 && TickOk(t) && Inv(s) && InTurn(s, g, k, p.round, p.index, t)
    ensures Plays(Crossing(s, g, p.index, t), k, Playback.AtTick(p, g, t.beat))
  {
    hide Inv, FeederModel.Ok, HandedOver, NextIsDue, Swept, AtBoundary, Config.IndexAtBeat, Playback.Boundary, After,
      Playback.Grid.Frames, Playback.Grid.Padded, Playback.Grid.Ok;
    ArrivalsKeepPlaying(s, t.between, k, p);
    var s1, i := After(s, t.between), g.cfg.IndexAtBeat(t.beat);
    InvOk(s1);
    if i > p.index {
      var m, l := Swept(s1, t.now, t.graces), LocalOf(g, i);
      SweepSparesWhatIsDue(s1, t.now, t.graces);
      InvOk(m);
      NextIsReleased(m, l, p.round);
      HandsOverAsOne(p.f, g, p.round + 1, i);
      StepKeepsInv(s1, Boundary(l, t.now, t.graces));
      PlaybackRuns.AtTickOk(p, g, t.beat);
    }
  }

  /** One tick of the engine is one tick of the single-stream loop. */
  lemma EngineStepPlays(s: Sender, g: Playback.Grid, k: nat, p: Playback.Player, t: EngineTick)
    requires Plays(s, k, p) && g.Ok() && g.rate > 0 && FeederModel.Ok(p.f) && p.f.cur.Some? && TickOk(t) && Inv(s)
    requires InTurn(s, g, k, p.round, p.index, t)
    ensures var r := PlaybackRuns.TickStep(p, g, TickSeen(s, g, k, p.index, t));
            Plays(EngineStep(s, g, p.index, t), k, r.0) && StepSent(s, g, k, p.index, t) == r.1
  {
    hide Inv, FeederModel.Ok, InTurn, Crossing, FeederModel.Advance, Playback.AtTick, Rounds.StoreOf, Playback.Grid.Ok;
    CrossingPlays(s, g, k, p, t);
    var s2, q := Crossing(s, g, p.index, t), Playback.AtTick(p, g, t.beat);
    InvOk(s2);
    StepKeepsInv(s2, TopUp(t.beat));
  }

  // ---------------------------------------------------------------- runs

  ghost predicate AllInTurn(s: Sender, g: Playback.Grid, k: nat, round: int, index: int, ts: seq<EngineTick>)
    requires Inv(s) && g.rate > 0 && forall t <- ts :: TickOk(t)
    decreases |ts|
  {
    ts == []
    || var i := g.cfg.IndexAtBeat(ts[0].beat);
       && InTurn(s, g, k, round, index, ts[0])
       && AllInTurn(EngineStep(s, g, index, ts[0]), g, k, if i > index then round + 1 else round, Max(i, index), ts[1..])
  }

  ghost function EngineRun(s: Sender, g: Playback.Grid, index: int, ts: seq<EngineTick>): (r: Sender)
    requires Inv(s) && g.rate > 0 && forall t <- ts :: TickOk(t)
    ensures Inv(r)
    decreases |ts|
  {
    if ts == [] then s else EngineRun(EngineStep(s, g, index, ts[0]), g, Max(g.cfg.IndexAtBeat(ts[0].beat), index), ts[1..])
  }

  ghost function TicksSeen(s: Sender, g: Playback.Grid, k: nat, index: int, ts: seq<EngineTick>): (r: seq<Playback.Tick>)
    requires Inv(s) && g.rate > 0 && forall t <- ts :: TickOk(t)
    ensures |r| == |ts|
    decreases |ts|
  {
    if ts == [] then
      []
    else
      [TickSeen(s, g, k, index, ts[0])]
      + TicksSeen(EngineStep(s, g, index, ts[0]), g, k, Max(g.cfg.IndexAtBeat(ts[0].beat), index), ts[1..])
  }

  /** Everything stream k sends to its sink over the run. */
  ghost function EngineSent(s: Sender, g: Playback.Grid, k: nat, index: int, ts: seq<EngineTick>): seq<FeederModel.Chunk>
    requires Inv(s) && g.rate > 0 && forall t <- ts :: TickOk(t)
    decreases |ts|
  {
    if ts == [] then
      []
    else
      StepSent(s, g, k, index, ts[0])
      + EngineSent(EngineStep(s, g, index, ts[0]), g, k, Max(g.cfg.IndexAtBeat(ts[0].beat), index), ts[1..])
  }

  /** ROUND AFTER ROUND. Over any run of the engine in which every boundary finds the next round ready and none newer, the
      cursor moves by one round at a time, and every stream sends to its sink exactly what the single-stream loop sends. */
  lemma {:induction false} StreamsPlayRoundAfterRound(s: Sender, g: Playback.Grid, k: nat, p: Playback.Player, ts: seq<EngineTick>)
    requires Plays(s, k, p) && g.Ok() && g.rate > 0 && FeederModel.Ok(p.f) && p.f.cur.Some? && Inv(s)
    requires (forall t <- ts :: TickOk(t)) && AllInTurn(s, g, k, p.round, p.index, ts)
    ensures var q := PlaybackRuns.Played(p, g, TicksSeen(s, g, k, p.index, ts)).0;
            Plays(EngineRun(s, g, p.index, ts), k, q)
    ensures EngineSent(s, g, k, p.index, ts) == PlaybackRuns.Played(p, g, TicksSeen(s, g, k, p.index, ts)).1
    decreases |ts|
  {
    hide Inv, FeederModel.Ok, InTurn, EngineStep, StepSent, PlaybackRuns.TickStep, TickSeen, Plays, Config.IndexAtBeat, TickOk,
      Playback.Grid.Ok;
    if ts != [] {
      var t := ts[0];
      assert TickOk(t);
      EngineStepPlays(s, g, k, p, t);
      var seen := TickSeen(s, g, k, p.index, t);
      var p1 := PlaybackRuns.TickStep(p, g, seen).0;
      StepMoves(p, g, seen, t.beat);
      SeenBeat(s, g, k, p.index, t);
      var ticks := TicksSeen(s, g, k, p.index, ts);
      StreamsPlayRoundAfterRound(EngineStep(s, g, p.index, t), g, k, p1, ts[1..]);
      assert ticks[0] == seen && ticks[1..] == TicksSeen(EngineStep(s, g, p.index, t), g, k, p1.index, ts[1..]);
    }
  }

  /** So whatever the engine's ticks, if none is out of reach and each finds what it reads, what stream k sends is one
      contiguous piece of its source, with no underrun counted. */
  lemma StreamsPlayContiguously(s: Sender, g: Playback.Grid, k: nat, p: Playback.Player, ts: seq<EngineTick>, src: seq<Frame>, base: int,
                                b: real)
    returns (d: int)
    requires Plays(s, k, p) && PlaybackRuns.At(p, g, src, base, b) && g.rate > 0 && FeederModel.Ok(p.f) && p.f.cur.Some? && Inv(s)
    requires g.Ok() && (forall t <- ts :: TickOk(t)) && AllInTurn(s, g, k, p.round, p.index, ts)
    requires PlaybackRuns.Cadence(p, g, b, TicksSeen(s, g, k, p.index, ts))
    requires PlaybackRuns.Supplied(p, g, src, base, TicksSeen(s, g, k, p.index, ts))
    ensures var t := EngineRun(s, g, p.index, ts);
            && k in t.streams && t.cursor.playing.Some?
            && d == base + (t.cursor.playing.value - p.round) * g.Frames()
            && var f := t.streams[k].feeder;
            && f.cur.Some? && f.underrunFrames == p.f.underrunFrames && f.underrunEvents == p.f.underrunEvents
            && 0 <= Playback.Front(p.f, g, base) <= Playback.Front(f, g, d) <= |src|
            && FeederModel.Joined(EngineSent(s, g, k, p.index, ts)) == src[Playback.Front(p.f, g, base)..Playback.Front(f, g, d)]
  {
    hide Inv, FeederModel.Ok, AllInTurn, EngineRun, EngineSent, TicksSeen, PlaybackRuns.Cadence, PlaybackRuns.Supplied,
      PlaybackRuns.Played,
      PlaybackRuns.At, Playback.Front, Playback.Grid.Ok, Playback.Grid.Frames, FeederModel.Joined;
    StreamsPlayRoundAfterRound(s, g, k, p, ts);
    var ticks := TicksSeen(s, g, k, p.index, ts);
    d := PlaybackRuns.PlaybackIsContiguous(p, g, src, base, b, ticks);
    PlaybackRuns.AtOk(p, g, src, base, b);
    PlaybackRuns.AtOk(PlaybackRuns.Played(p, g, ticks).0, g, src, d, if ticks == [] then b else ticks[|ticks| - 1].beat);
  }

  lemma SeenBeat(s: Sender, g: Playback.Grid, k: nat, index: int, t: EngineTick)
    requires Inv(s) && TickOk(t) && g.rate > 0
    ensures TickSeen(s, g, k, index, t).beat == t.beat
  {
  }

  lemma StepMoves(p: Playback.Player, g: Playback.Grid, seen: Playback.Tick, beat: real)
    requires g.Ok() && FeederModel.Ok(p.f) && p.f.cur.Some?
    ensures seen.beat == beat ==>
              var p1, i := PlaybackRuns.TickStep(p, g, seen).0, g.cfg.IndexAtBeat(beat);
              p1.index == Max(i, p.index) && p1.round == (if i > p.index then p.round + 1 else p.round)
  {
    hide FeederModel.Advance, Playback.Boundary, Config.IndexAtBeat, Playback.Grid.Ok;
  }
}
