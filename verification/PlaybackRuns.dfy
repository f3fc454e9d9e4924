/** Consecutive rounds through the feeder, driven as the emit loop drives it: at a constant tempo what reaches the sink
    is one contiguous run of the stream, so long as no tick outruns the cushion. */
module PlaybackRuns {
  import opened Common
  import opened Audio
  import opened Interval
  import opened PacedReader
  import opened FeederModel
  import opened FeederRuns
  import opened Playback

  // ---------------------------------------------------------------- from one tick to the next

  /** The tick at beat c is in reach of the one at b: inside an interval the playhead has not passed the cushion; at a
      boundary the cushion reached the end of the round, its padding included where played through, and the playhead
      of the tick that hands over. */
  predicate InReach(f: Feeder, g: Grid, index: int, b: real, c: real) {
    var i := g.cfg.IndexAtBeat(c);
    if i == index then
      g.PlayAt(b, index) <= g.PlayAt(c, index) <= g.PlayAt(b, index) + f.cushion
    else
      i == index + 1 && g.PlayAt(b, index) + f.cushion >= g.Frames() + Max(f.nextStart, g.PlayAt(c, i))
  }

  /** Ticks follow each other within the cushion, less the padding and two frames of rounding: enough to be in reach,
      whatever the padding holds. */
  predicate SoonAfter(g: Grid, cushion: nat, b: real, c: real) {
    b <= c && Elapsed(g, b, c) + (g.Pad() + 2) as real <= cushion as real
  }

  /** Within an interval the playhead cannot pass the cushion laid at the previous tick. */
  lemma SameIntervalPlay(g: Grid, cushion: nat, b: real, c: real, index: int)
    requires g.Ok() && SoonAfter(g, cushion, b, c)
    ensures g.PlayAt(b, index) <= g.PlayAt(c, index) <= g.PlayAt(b, index) + cushion
  {
    hide Config.WindowStart, Grid.Padded, Config.IntervalSamples;
    GridFacts(g);
    FramesInMonotone(0.0, c - b, g.rate, g.tempo);
    ExactAdvances(g, b, c, index);
    RoundMonotone(g.Exact(b, index), g.Exact(c, index));
  }

  /** At a boundary: the previous tick's cushion reached past the current round's padding, and the playhead, read
      on the next round, lies behind what the pre-roll has already laid down. */
  lemma NextIntervalPlay(g: Grid, cushion: nat, b: real, c: real, index: int)
    requires g.Ok() && SoonAfter(g, cushion, b, c) && g.cfg.IndexAtBeat(c) == index + 1
    ensures g.PlayAt(b, index) + cushion > g.Padded()
    ensures g.PlayAt(c, index + 1) <= g.PlayAt(b, index) + cushion - g.Frames()
  {
    GridFacts(g);
    ExactInside(g, c, index + 1);
    var whole := FramesIn(g.cfg.BeatsPerInterval(), g.rate, g.tempo);
    assert g.Frames() == Round(whole);
    hide Config.WindowStart, Grid.Padded, Config.IntervalSamples, Config.BeatsPerInterval, FramesIn, Config.IndexAtBeat;
    ExactAdvances(g, b, c, index);
    ExactNext(g, c, index);
    assert g.Exact(b, index) + Elapsed(g, b, c) - whole == g.Exact(c, index + 1);
  }

  lemma SoonIsInReach(f: Feeder, g: Grid, round: int, index: int, b: real, c: real)
    requires g.Ok() && Shape(f, g, round, index) && SoonAfter(g, f.cushion, b, c)
    requires var i := g.cfg.IndexAtBeat(c); i == index || i == index + 1
    ensures InReach(f, g, index, b, c)
  {
    hide Config.IntervalSamples, Config.WindowStart, Config.WindowEnd, Config.IndexAtBeat, Grid.PlayAt, Grid.Exact, SoonAfter,
      Grid.Padded;
    GridFacts(g);
    if g.cfg.IndexAtBeat(c) == index {
      SameIntervalPlay(g, f.cushion, b, c, index);
    } else {
      NextIntervalPlay(g, f.cushion, b, c, index);
    }
  }

  /** The next tick falls in the same interval. */
  lemma StaysReady(f: Feeder, g: Grid, round: int, index: int, b: real, c: real)
    requires g.Ok() && g.cfg.IndexAtBeat(b) == index && g.cfg.IndexAtBeat(c) == index && InReach(f, g, index, b, c)
    requires Topped(f, g, round, index, g.PlayAt(b, index))
    ensures Ready(f, g, round, index, g.PlayAt(c, index))
  {
    hide Config.IntervalSamples, Config.WindowStart, Grid.Padded, Config.WindowEnd, Config.IndexAtBeat, Grid.PlayAt, Grid.Exact,
      Topped, Ready, Grid.Ok;
    ExactInside(g, b, index);
    ExactInside(g, c, index);
    ToppedIsReady(f, g, round, index, g.PlayAt(b, index), g.PlayAt(c, index));
  }

  lemma ToppedIsReady(f: Feeder, g: Grid, round: int, index: int, play: nat, later: nat)
    requires g.Ok() && Topped(f, g, round, index, play) && play <= later <= Min(play + f.cushion, g.Frames())
    ensures Ready(f, g, round, index, later)
  {
    hide Config.IntervalSamples, Config.WindowStart, Grid.Padded, Config.WindowEnd, Grid.Frames;
  }

  /** Consecutive local intervals share a boundary. */
  lemma WindowsAbut(g: Grid, index: int)
    ensures g.cfg.WindowStart(index + 1) == g.cfg.WindowEnd(index)
  {
    var b := g.cfg.BeatsPerInterval();
    assert (index + 1) as real * b == index as real * b + b;
  }

  /** The next tick falls in the next interval and in reach: the pre-rolled reader is adopted, or at the very frame the
      round ends a fresh one is installed, with nothing lost or repeated. */
  lemma HandsOver(f: Feeder, g: Grid, round: int, index: int, b: real, c: real, base: int)
    requires g.Ok() && g.cfg.IndexAtBeat(b) == index && g.cfg.IndexAtBeat(c) == index + 1 && InReach(f, g, index, b, c)
    requires Topped(f, g, round, index, g.PlayAt(b, index))
    ensures var f1 := Boundary(f, g, round + 1, index + 1); var play := g.PlayAt(c, index + 1);
            && Ready(f1, g, round + 1, index + 1, play) && f1.next.None?
            && f1.cushion == f.cushion && f1.underrunEvents == f.underrunEvents && f1.underrunFrames == f.underrunFrames
            && StartOf(f1, g, base + g.Frames(), play) == Front(f, g, base)
            && (f1.cur.value.cursor == 0 ==> play == 0)
  {
    hide Config.IntervalSamples, Config.WindowStart, Config.WindowEnd, Config.IndexAtBeat, Grid.PlayAt, Grid.Exact,
      Topped, Ready, Grid.Ok, Boundary, Front, Promotes, StartOf;
    ExactInside(g, b, index);
    ExactInside(g, c, index + 1);
    Adopts(f, g, round, index, g.PlayAt(b, index), g.PlayAt(c, index + 1), base);
  }

  lemma Adopts(f: Feeder, g: Grid, round: int, index: int, play: nat, later: nat, base: int)
    requires g.Ok() && Topped(f, g, round, index, play) && play <= g.Frames() && later <= g.Frames()
    requires play + f.cushion >= g.Frames() + Max(f.nextStart, later)
    ensures var f1 := Boundary(f, g, round + 1, index + 1);
            && Ready(f1, g, round + 1, index + 1, later) && f1.next.None?
            && f1.cushion == f.cushion && f1.underrunEvents == f.underrunEvents && f1.underrunFrames == f.underrunFrames
            && StartOf(f1, g, base + g.Frames(), later) == Front(f, g, base)
            && (f1.cur.value.cursor == 0 ==> later == 0)
  {
    hide Config.IntervalSamples, Config.WindowStart, Config.WindowEnd, Grid.Frames, Grid.Padded, Reader.Rebase;
    GridFacts(g);
    WindowsAbut(g, index);
  }

  // ---------------------------------------------------------------- runs

  /** One tick of the emit loop: the boundary it may process, then the top-up. */
  function TickStep(p: Player, g: Grid, t: Tick): (r: (Player, seq<Chunk>))
    requires g.Ok() && Ok(p.f) && p.f.cur.Some?
    ensures Ok(r.0.f) && r.0.f.cur.Some?
  {
    AtTickOk(p, g, t.beat);
    var q := AtTick(p, g, t.beat);
    AdvanceKeepsOk(q.f, t.beat, t.store);
    var (f1, cs) := Advance(q.f, t.beat, t.store);
    (Player(f1, q.round, q.index), cs)
  }

  lemma AtTickOk(p: Player, g: Grid, beat: real)
    requires g.Ok() && Ok(p.f) && p.f.cur.Some?
    ensures Ok(AtTick(p, g, beat).f) && AtTick(p, g, beat).f.cur.Some?
  {
    hide Config.IndexAtBeat, Config.IntervalSamples, Config.WindowStart;
    GridFacts(g);
  }

  /** Everything the emit loop sends to the sink over a run of ticks, and where it leaves the player. */
  function Played(p: Player, g: Grid, ticks: seq<Tick>): (r: (Player, seq<Chunk>))
    requires g.Ok() && Ok(p.f) && p.f.cur.Some?
    ensures Ok(r.0.f) && r.0.f.cur.Some?
    decreases |ticks|
  {
    if ticks == [] then
      (p, [])
    else
      var (p1, cs) := TickStep(p, g, ticks[0]);
      var (last, rest) := Played(p1, g, ticks[1..]);
      (last, cs + rest)
  }

  /** No tick of the run is out of reach of the one before it; the first is judged from beat b. */
  predicate Cadence(p: Player, g: Grid, b: real, ticks: seq<Tick>)
    requires g.Ok() && Ok(p.f) && p.f.cur.Some?
    decreases |ticks|
  {
    ticks == []
    || (InReach(p.f, g, p.index, b, ticks[0].beat)
        && Cadence(TickStep(p, g, ticks[0]).0, g, ticks[0].beat, ticks[1..]))
  }

  /** Where the playing round's frame 0 lies in the stream after a tick. */
  function BaseAt(p: Player, g: Grid, base: int, beat: real): int
    requires Ok(p.f)
  {
    base + (AtTick(p, g, beat).round - p.round) * g.Frames()
  }

  /** A tick finds everything it reads already reassembled. */
  predicate SuppliedAt(p: Player, g: Grid, s: seq<Frame>, base: int, t: Tick)
    requires Ok(p.f)
  {
    var q := AtTick(p, g, t.beat);
    Arrived(t.store, s, g, q.round, BaseAt(p, g, base, t.beat), Max(g.PlayAt(t.beat, q.index), 0) + q.f.cushion,
            Extent(q.f, g, q.round, q.index, t.store))
  }

  /** So does every tick of the run. `base` is the stream position of the playing round's frame 0. */
  predicate Supplied(p: Player, g: Grid, s: seq<Frame>, base: int, ticks: seq<Tick>)
    requires g.Ok() && Ok(p.f) && p.f.cur.Some?
    decreases |ticks|
  {
    ticks == []
    || (SuppliedAt(p, g, s, base, ticks[0])
        && Supplied(TickStep(p, g, ticks[0]).0, g, s, BaseAt(p, g, base, ticks[0].beat), ticks[1..]))
  }

  /** A player topped up at beat b, with everything up to `Front` in the stream. */
  ghost predicate At(p: Player, g: Grid, s: seq<Frame>, base: int, b: real) {
    && g.Ok() && g.cfg.IndexAtBeat(b) == p.index && 0 <= g.PlayAt(b, p.index)
    && Topped(p.f, g, p.round, p.index, g.PlayAt(b, p.index)) && p.f.cur.value.cursor > 0
    && 0 <= Front(p.f, g, base) <= |s|
  }

  lemma AtOk(p: Player, g: Grid, s: seq<Frame>, base: int, b: real)
    requires At(p, g, s, base, b)
    ensures Ok(p.f) && p.f.cur.Some? && g.Ok() && 0 <= Front(p.f, g, base) <= |s|
  {
  }

  /** A tick's emission takes up where the last one ended. */
  ghost predicate GoesOn(f: Feeder, p: Player, cs: seq<Chunk>, g: Grid, s: seq<Frame>, base: int, d: int, beat: real)
    requires f.cur.Some?
  {
    && At(p, g, s, d, beat)
    && p.f.cushion == f.cushion && p.f.underrunEvents == f.underrunEvents && p.f.underrunFrames == f.underrunFrames
    && 0 <= Front(f, g, base) <= Front(p.f, g, d) && Joined(cs) == s[Front(f, g, base)..Front(p.f, g, d)]
  }

  /** One tick, in this interval or across its boundary. */
  lemma TickGoesOn(p: Player, g: Grid, s: seq<Frame>, base: int, b: real, t: Tick)
    requires At(p, g, s, base, b) && g.Ok() && Ok(p.f) && p.f.cur.Some?
    requires InReach(p.f, g, p.index, b, t.beat) && SuppliedAt(p, g, s, base, t)
    ensures var (q, cs) := TickStep(p, g, t);
            && q.index == g.cfg.IndexAtBeat(t.beat) && q.round - p.round == q.index - p.index
            && GoesOn(p.f, q, cs, g, s, base, BaseAt(p, g, base, t.beat), t.beat)
  {
    hide Config.IntervalSamples, Config.WindowStart, Grid.Padded, Config.WindowEnd, Arrived, Joined, Advance, Config.IndexAtBeat,
      Grid.PlayAt, Boundary, Front, Grid.Exact, Topped, Ready, Extent, InReach, StartOf;
    var i := g.cfg.IndexAtBeat(t.beat);
    ReachIndex(p.f, g, p.index, b, t.beat);
    ExactInside(g, t.beat, i);
    if i == p.index {
      StaysReady(p.f, g, p.round, p.index, b, t.beat);
      StartsAtFront(p.f, g, base, g.PlayAt(t.beat, i));
      TickEmits(p.f, g, p.round, p.index, t.beat, t.store, s, base);
    } else {
      HandsOver(p.f, g, p.round, p.index, b, t.beat, base);
      var f1, d := Boundary(p.f, g, p.round + 1, i), base + g.Frames();
      BoundaryOk(p.f, g, p.round + 1, i);
      StartsInStream(f1, g, s, d, g.PlayAt(t.beat, i));
      TickEmits(f1, g, p.round + 1, i, t.beat, t.store, s, d);
    }
  }

  lemma ReachIndex(f: Feeder, g: Grid, index: int, b: real, c: real)
    requires InReach(f, g, index, b, c)
    ensures var i := g.cfg.IndexAtBeat(c); i == index || i == index + 1
  {
  }

  lemma StartsAtFront(f: Feeder, g: Grid, base: int, play: nat)
    requires f.cur.Some? && f.cur.value.cursor > 0
    ensures StartOf(f, g, base, play) == Front(f, g, base)
  {
  }

  lemma StartsInStream(f: Feeder, g: Grid, s: seq<Frame>, base: int, play: nat)
    requires f.cur.Some? && f.next.None? && (f.cur.value.cursor == 0 ==> play == 0)
    requires 0 <= StartOf(f, g, base, play) <= |s|
    ensures InStream(f, g, s, base)
  {
  }

  /** CONTIGUOUS PLAYBACK. Over any number of ticks and interval boundaries, whether a boundary plays through the
      pad or truncates, if no tick is out of reach of the one before, what is emitted is one contiguous run of the
      stream, nothing is skipped as an underrun, and the sink ends topped up to the cushion. */
  lemma {:induction false} PlaybackIsContiguous(p: Player, g: Grid, s: seq<Frame>, base: int, b: real, ticks: seq<Tick>)
    returns (d: int)
    requires At(p, g, s, base, b) && g.Ok() && Ok(p.f) && p.f.cur.Some?
    requires Cadence(p, g, b, ticks) && Supplied(p, g, s, base, ticks)
    ensures var (q, cs) := Played(p, g, ticks);
            && At(q, g, s, d, if ticks == [] then b else ticks[|ticks| - 1].beat)
            && d == base + (q.round - p.round) * g.Frames() && q.round - p.round == q.index - p.index
            && Front(p.f, g, base) <= Front(q.f, g, d) && Joined(cs) == s[Front(p.f, g, base)..Front(q.f, g, d)]
            && q.f.underrunEvents == p.f.underrunEvents && q.f.underrunFrames == p.f.underrunFrames && q.f.cushion == p.f.cushion
    decreases |ticks|
  {
    hide Config.IntervalSamples, TickStep, Config.IndexAtBeat, AtTick, Front, At, InReach, SuppliedAt, Joined;
    AtOk(p, g, s, base, b);
    d := base;
    NothingJoined();
    if ticks != [] {
      var t := ticks[0];
      TickGoesOn(p, g, s, base, b, t);
      var (p1, cs) := TickStep(p, g, t);
      var d1 := BaseAt(p, g, base, t.beat);
      StepRound(p, g, t);
      AtOk(p1, g, s, d1, t.beat);
      d := PlaybackIsContiguous(p1, g, s, d1, t.beat, ticks[1..]);
      var (last, rest) := Played(p1, g, ticks[1..]);
      AtOk(last, g, s, d, if |ticks| == 1 then t.beat else ticks[|ticks| - 1].beat);
      JoinedAppend(cs, rest);
      Distribute(p1.round - p.round, last.round - p1.round, g.Frames());
      assert s[Front(p.f, g, base)..Front(p1.f, g, d1)] + s[Front(p1.f, g, d1)..Front(last.f, g, d)]
          == s[Front(p.f, g, base)..Front(last.f, g, d)];
    }
  }

  lemma StepRound(p: Player, g: Grid, t: Tick)
    requires g.Ok() && Ok(p.f) && p.f.cur.Some?
    ensures AtTick(p, g, t.beat).round == TickStep(p, g, t).0.round
  {
    hide AtTick, Advance;
  }

  lemma Distribute(x: int, y: int, n: int)
    ensures x * n + y * n == (x + y) * n
  {
  }

  /** Ticks that all follow soon enough and miss no boundary. */
  predicate SoonTicks(g: Grid, cushion: nat, index: int, b: real, ticks: seq<Tick>)
    decreases |ticks|
  {
    ticks == []
    || var i := g.cfg.IndexAtBeat(ticks[0].beat);
       && SoonAfter(g, cushion, b, ticks[0].beat) && (i == index || i == index + 1)
       && SoonTicks(g, cushion, i, ticks[0].beat, ticks[1..])
  }

  /** Such ticks keep the cadence, whatever the padding of each round turns out to hold. */
  lemma {:induction false} SoonTicksKeepCadence(p: Player, g: Grid, s: seq<Frame>, base: int, b: real, ticks: seq<Tick>)
    requires At(p, g, s, base, b) && g.Ok() && Ok(p.f) && p.f.cur.Some?
    requires SoonTicks(g, p.f.cushion, p.index, b, ticks) && Supplied(p, g, s, base, ticks)
    ensures Cadence(p, g, b, ticks)
    decreases |ticks|
  {
    hide Config.IntervalSamples, TickStep, Config.IndexAtBeat, AtTick, Front, InReach, SuppliedAt, Joined, SoonAfter, Shape,
      Grid.PlayAt;
    if ticks != [] {
      var t := ticks[0];
      SoonIsInReach(p.f, g, p.round, p.index, b, t.beat);
      TickGoesOn(p, g, s, base, b, t);
      SoonTicksKeepCadence(TickStep(p, g, t).0, g, s, BaseAt(p, g, base, t.beat), t.beat, ticks[1..]);
    }
  }

  /** The first boundary installs a fresh reader; playback joins the stream at the playhead. */
  lemma FirstTick(f: Feeder, g: Grid, round: int, t: Tick, s: seq<Frame>, base: int)
    requires g.Ok() && Ok(f) && !Promotes(f, round) && 0 <= base
    requires FirstSupplied(f, g, round, t, s, base)
    ensures var i := g.cfg.IndexAtBeat(t.beat); var f1 := Boundary(f, g, round, i);
            && Ok(f1)
            && var (f2, cs) := Advance(f1, t.beat, t.store); var from := base + g.PlayAt(t.beat, i);
            && At(Player(f2, round, i), g, s, base, t.beat) && f2.cushion == f.cushion
            && f2.underrunEvents == f.underrunEvents && f2.underrunFrames == f.underrunFrames
            && 0 <= from <= Front(f2, g, base) && Joined(cs) == s[from..Front(f2, g, base)]
  {
    hide Config.IntervalSamples, Config.WindowStart, Grid.Padded, Config.WindowEnd, Arrived, Joined, Advance, Config.IndexAtBeat,
      Grid.PlayAt, HandoffStart;
    var i := g.cfg.IndexAtBeat(t.beat);
    ExactInside(g, t.beat, i);
    GridFacts(g);
    TickEmits(Boundary(f, g, round, i), g, round, i, t.beat, t.store, s, base);
  }

  /** The tick that starts a stream finds everything it reads already reassembled. */
  predicate FirstSupplied(f: Feeder, g: Grid, round: int, t: Tick, s: seq<Frame>, base: int) {
    var i := g.cfg.IndexAtBeat(t.beat);
    Arrived(t.store, s, g, round, base, Max(g.PlayAt(t.beat, i), 0) + f.cushion,
            g.Frames() + HandoffStart(HandoffAt(g, round, i), t.store))
  }

  /** The player once a stream's first boundary and its top-up are done, and what it has sent. */
  function Started(f: Feeder, g: Grid, round: int, t: Tick): (r: (Player, seq<Chunk>))
    requires g.Ok() && Ok(f)
    ensures Ok(r.0.f) && r.0.f.cur.Some?
  {
    var i := g.cfg.IndexAtBeat(t.beat);
    BoundaryOk(f, g, round, i);
    var f1 := Boundary(f, g, round, i);
    AdvanceKeepsOk(f1, t.beat, t.store);
    var (f2, cs) := Advance(f1, t.beat, t.store);
    (Player(f2, round, i), cs)
  }

  lemma BoundaryOk(f: Feeder, g: Grid, round: int, index: int)
    requires g.Ok() && Ok(f)
    ensures Ok(Boundary(f, g, round, index)) && Boundary(f, g, round, index).cur.Some?
  {
    hide Config.IntervalSamples, Config.WindowStart;
    GridFacts(g);
  }

  /** The whole run, from a stream's first boundary on: one contiguous piece of the source, starting at the
      playhead of the first tick and ending at the cushion of the last. */
  lemma WholeRunIsContiguous(f: Feeder, g: Grid, round: int, t: Tick, rest: seq<Tick>, s: seq<Frame>, base: int)
    returns (d: int, play: nat)
    requires g.Ok() && Ok(f) && !Promotes(f, round) && 0 <= base && FirstSupplied(f, g, round, t, s, base)
    requires var p := Started(f, g, round, t).0; Cadence(p, g, t.beat, rest) && Supplied(p, g, s, base, rest)
    ensures var (p, cs) := Started(f, g, round, t);
            && var (q, ds) := Played(p, g, rest); var from := base + g.PlayAt(t.beat, p.index);
            && d == base + (q.round - round) * g.Frames()
            && play == g.PlayAt((if rest == [] then t else rest[|rest| - 1]).beat, q.index)
            && 0 <= from <= Front(q.f, g, d) <= |s| && Joined(cs + ds) == s[from..Front(q.f, g, d)]
            && d + Min(play + f.cushion, g.Frames()) <= Front(q.f, g, d) <= d + play + f.cushion
            && q.f.underrunEvents == f.underrunEvents && q.f.underrunFrames == f.underrunFrames
  {
    hide Config.IntervalSamples, Config.WindowStart, Grid.Padded, Config.WindowEnd, Arrived, Joined, Advance, Config.IndexAtBeat,
      Grid.PlayAt, Boundary, At, Front, Cadence, Supplied, FirstSupplied, Played;
    FirstTick(f, g, round, t, s, base);
    var (p, cs) := Started(f, g, round, t);
    AtOk(p, g, s, base, t.beat);
    d := PlaybackIsContiguous(p, g, s, base, t.beat, rest);
    var (q, ds) := Played(p, g, rest);
    var last := (if rest == [] then t else rest[|rest| - 1]).beat;
    AtOk(q, g, s, d, last);
    play := AtCushion(q, g, s, d, last);
    JoinedAppend(cs, ds);
    var from := base + g.PlayAt(t.beat, p.index);
    assert s[from..Front(p.f, g, base)] + s[Front(p.f, g, base)..Front(q.f, g, d)] == s[from..Front(q.f, g, d)];
  }

  /** Topped up: committed to the cushion's end, or to the end of everything a pre-roll can reach. */
  lemma AtCushion(p: Player, g: Grid, s: seq<Frame>, base: int, b: real) returns (play: nat)
    requires At(p, g, s, base, b)
    ensures play == g.PlayAt(b, p.index) && p.f.cur.Some?
    ensures base + Min(play + p.f.cushion, g.Frames()) <= Front(p.f, g, base) <= base + play + p.f.cushion
  {
    hide Config.IntervalSamples, Config.WindowStart, Grid.Padded, Config.WindowEnd, Config.IndexAtBeat, Grid.PlayAt;
    GridFacts(g);
    play := g.PlayAt(b, p.index);
  }
}
