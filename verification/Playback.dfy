/** One tick of the emit loop (audio_engine_real.go, emitLoop, onBoundary, topUpSinks) at a constant tempo: the boundary
    handover it may make, and what its top-up sends to the sink. */
module Playback {
  import opened Common
  import opened Audio
  import opened Interval
  import opened PacedReader
  import opened FeederModel
  import opened FeederRuns

  /** The grid everything plays on: tempo and interval length do not change during a run. */
  datatype Grid = Grid(cfg: Config, rate: nat, tempo: real) {
    predicate Ok() {
      tempo >= 1.0 && SamplesPerWaifFrame(rate) > 0 && Frames() >= SamplesPerWaifFrame(rate)
    }

    /** intervalPlayoutFrames */
    function Frames(): nat {
      cfg.IntervalSamples(rate, tempo)
    }

    /** intervalPaddedFrames */
    function Padded(): nat {
      RoundUp(Frames(), SamplesPerWaifFrame(rate))
    }

    function Pad(): int {
      Padded() - Frames()
    }

    /** Unrounded position of a beat in local interval `index`. */
    function Exact(beat: real, index: int): real {
      FramesIn(beat - cfg.WindowStart(index), rate, tempo)
    }

    function PlayAt(beat: real, index: int): int {
      Round(Exact(beat, index))
    }
  }

  function HandoffAt(g: Grid, round: int, index: int): Handoff {
    Handoff(round, g.Frames(), g.Padded(), g.rate, g.tempo, g.cfg.WindowEnd(index))
  }

  /** onBoundary's reader handover for one stream: promote the pre-rolled reader, or install a fresh one. */
  function Boundary(f: Feeder, g: Grid, round: int, index: int): Feeder
    requires Ok(f)
  {
    if Promotes(f, round) then
      Adopted(f, round, HandoffAt(g, round, index))
    else
      SetCurrent(f, round, New(g.rate, g.tempo, g.cfg.WindowStart(index), g.Frames()), Some(HandoffAt(g, round, index)))
  }

  /** One tick of the emit loop: the local beat, and what has been reassembled by then. */
  datatype Tick = Tick(beat: real, store: Store)

  /** The feeder, the round it plays, and the last local boundary processed. */
  datatype Player = Player(f: Feeder, round: int, index: int)

  /** A tick crossing into a later local interval first releases the next round. */
  function AtTick(p: Player, g: Grid, beat: real): Player
    requires Ok(p.f)
  {
    var i := g.cfg.IndexAtBeat(beat);
    if i > p.index then Player(Boundary(p.f, g, p.round + 1, i), p.round + 1, i) else p
  }

  // ---------------------------------------------------------------- arithmetic of the grid

  lemma GridFacts(g: Grid)
    requires g.Ok()
    ensures 0 <= g.Pad() < SamplesPerWaifFrame(g.rate) <= g.Frames()
    ensures g.rate > 0
  {
    hide Config.IntervalSamples;
    CeilBounds(g.Frames(), SamplesPerWaifFrame(g.rate));
  }

  lemma FramesInAdds(a: real, b: real, rate: nat, tempo: real)
    ensures FramesIn(a + b, rate, tempo) == FramesIn(a, rate, tempo) + FramesIn(b, rate, tempo)
  {
    var t, n := ClampTempo(tempo), rate as real;
    var x, y, z := (a + b) * 60.0 / t, a * 60.0 / t, b * 60.0 / t;
    assert x * t == (a + b) * 60.0 && y * t == a * 60.0 && z * t == b * 60.0;
    assert (y + z) * t == x * t;
    SameFactor(y + z, x, t);
    assert (y + z) * n == y * n + z * n;
  }

  lemma SameFactor(a: real, b: real, k: real)
    requires k > 0.0 && a * k == b * k
    ensures a == b
  {
    if a < b {
      StrictMul(a, b, k);
    } else if b < a {
      StrictMul(b, a, k);
    }
  }

  /** A reader built for local interval `index` reads the playhead off a beat as the grid does. */
  lemma PlayIsGridPlay(g: Grid, r: Reader, beat: real, index: int)
    requires g.Ok() && r.rate == g.rate && r.tempoBPM == g.tempo && r.baseFrame == 0
    requires r.baseBeat == g.cfg.WindowStart(index)
    ensures r.FrameAtBeat(beat) == g.PlayAt(beat, index)
  {
    hide Config.WindowStart;
  }

  lemma ExactInside(g: Grid, beat: real, index: int)
    requires g.Ok() && g.cfg.IndexAtBeat(beat) == index
    ensures 0.0 <= g.Exact(beat, index) && 0 <= g.PlayAt(beat, index) <= g.Frames()
  {
    g.cfg.IndexIsTheWindowHoldingTheBeat(beat, index);
    var b := beat - g.cfg.WindowStart(index);
    hide Config.WindowStart, Config.BeatsPerInterval, Config.IndexAtBeat;
    FramesInMonotone(0.0, b, g.rate, g.tempo);
    FramesInMonotone(b, g.cfg.BeatsPerInterval(), g.rate, g.tempo);
    RoundMonotone(FramesIn(b, g.rate, g.tempo), FramesIn(g.cfg.BeatsPerInterval(), g.rate, g.tempo));
  }

  /** Real frames elapsed between two beats. */
  function Elapsed(g: Grid, from: real, to: real): real {
    FramesIn(to - from, g.rate, g.tempo)
  }

  lemma ExactAdvances(g: Grid, b: real, c: real, index: int)
    ensures g.Exact(c, index) == g.Exact(b, index) + Elapsed(g, b, c)
  {
    FramesInAdds(b - g.cfg.WindowStart(index), c - b, g.rate, g.tempo);
    assert b - g.cfg.WindowStart(index) + (c - b) == c - g.cfg.WindowStart(index);
  }

  lemma ExactNext(g: Grid, c: real, index: int)
    ensures g.Exact(c, index + 1) == g.Exact(c, index) - FramesIn(g.cfg.BeatsPerInterval(), g.rate, g.tempo)
  {
    var b := g.cfg.BeatsPerInterval();
    assert g.cfg.WindowStart(index + 1) == g.cfg.WindowStart(index) + b by {
      assert (index + 1) as real * b == index as real * b + b;
    }
    var x := c - g.cfg.WindowStart(index + 1);
    FramesInAdds(x, b, g.rate, g.tempo);
    assert x + b == c - g.cfg.WindowStart(index);
  }

  // ---------------------------------------------------------------- what one tick emits

  /** A round's buffer holds its first n frames, and they are the stream's from `base` on. */
  predicate Carries(pcm: seq<Frame>, s: seq<Frame>, base: int, n: int) {
    0 <= n ==> n <= |pcm| && 0 <= base && base + n <= |s| && pcm[..n] == s[base..base + n]
  }

  /** How many frames of the playing round a tick may read: its interval's, and the padding past them where it plays
      through it, as decided at pre-roll. */
  function Extent(f: Feeder, g: Grid, round: int, index: int, store: Store): nat {
    g.Frames() + if f.next.Some? then f.nextStart else HandoffStart(HandoffAt(g, round, index), store)
  }

  /** Everything a tick reads has arrived: the playing round up to `reach`, the next one for what lies beyond. */
  predicate Arrived(store: Store, s: seq<Frame>, g: Grid, round: int, base: int, reach: nat, extent: nat) {
    && Carries(Pcm(store, round), s, base, Min(reach, extent))
    && Carries(Pcm(store, round + 1), s, base + g.Frames(), Min(reach - g.Frames(), g.Frames()))
  }

  /** The readers of a round in local interval `index`, and how far they have got. */
  predicate Shape(f: Feeder, g: Grid, round: int, index: int) {
    && Ok(f) && f.cur.Some? && f.curIdx == round
    && f.makeNext == Some(HandoffAt(g, round, index))
    && (f.next.None? ==> f.nextStart == 0)
    && (f.nextStart == 0 || f.nextStart == g.Pad())
    && f.cur.value == New(g.rate, g.tempo, g.cfg.WindowStart(index), g.Frames()).(cursor := f.cur.value.cursor,
                                                                                 total := g.Frames() + f.nextStart)
    && (f.next.Some? ==>
          && f.nextIdx == round + 1
          && f.next.value == New(g.rate, g.tempo, g.cfg.WindowEnd(index), g.Frames()).(cursor := f.next.value.cursor))
  }

  /** After a tick at playhead `play` both readers stand exactly at the cushion's end. */
  predicate Topped(f: Feeder, g: Grid, round: int, index: int, play: int) {
    && Shape(f, g, round, index)
    && 0 <= play
    && (f.next.None? ==> play + f.cushion <= g.Frames())
    && f.cur.value.cursor == Min(play + f.cushion, f.cur.value.total)
    && (f.next.Some? ==>
          && play + f.cushion > g.Frames()
          && f.next.value.cursor == Max(f.nextStart, Min(play + f.cushion - g.Frames(), g.Frames())))
  }

  /** Ready for a tick at playhead `play`: nothing needed has been missed, nothing is ahead of the cushion. */
  predicate Ready(f: Feeder, g: Grid, round: int, index: int, play: int) {
    && Shape(f, g, round, index)
    && 0 <= play <= g.Frames()
    && (play <= f.cur.value.cursor || f.cur.value.cursor == 0)
    && f.cur.value.cursor <= Min(play + f.cushion, f.cur.value.total)
    && (f.next.Some? ==>
          && play + f.cushion > g.Frames()
          && f.nextStart <= f.next.value.cursor <= Max(f.nextStart, Min(play + f.cushion - g.Frames(), g.Frames()))
          && (f.next.value.cursor > f.nextStart ==> f.cur.value.cursor == f.cur.value.total))
  }

  lemma RegionIsStream(pcm: seq<Frame>, s: seq<Frame>, base: int, n: int, from: nat, to: nat)
    requires Carries(pcm, s, base, n) && from <= to <= n
    ensures Region(pcm, from, to) == s[base + from..base + to]
  {
    forall i | 0 <= i < to - from
      ensures Region(pcm, from, to)[i] == s[base + from + i]
    {
      assert pcm[..n][from + i] == s[base..base + n][from + i];
    }
  }

  /** Filling a reader without losing anything on the way. */
  lemma FillEmits(r: Reader, round: int, play: nat, target: nat, n: nat, pcm: seq<Frame>, s: seq<Frame>, base: int, have: int)
    requires r.Ok() && n >= 1 && r.cursor <= Min(target, r.total) && play <= Min(target, r.total)
    requires play <= r.cursor || r.cursor == 0
    requires Carries(pcm, s, base, have) && Min(target, r.total) <= have
    ensures var d := Fill(r, round, play, target, n, pcm); var from := Max(r.cursor, play); var to := Min(target, r.total);
            && d.reader == r.(cursor := to) && d.events == 0 && d.skipped == 0
            && 0 <= base + from <= base + to <= |s| && Joined(d.chunks) == s[base + from..base + to]
  {
    hide Reader.BeatAt;
    var from, to := FillFrom(r, play), FillTo(r, play, target);
    assert from == Max(r.cursor, play);
    ChunksCover(r, round, from, to, n, pcm);
    RegionIsStream(pcm, s, base, have, from, to);
  }

  lemma CurEmits(f: Feeder, g: Grid, round: int, index: int, play: nat, store: Store, s: seq<Frame>, base: int, ext: nat)
    requires g.Ok() && Shape(f, g, round, index) && Arrived(store, s, g, round, base, play + f.cushion, ext)
    requires f.cur.value.total <= ext
    requires play <= g.Frames() && (play <= f.cur.value.cursor || f.cur.value.cursor == 0)
    requires f.cur.value.cursor <= Min(play + f.cushion, f.cur.value.total)
    ensures var (f1, cs) := FillCur(f, play, store);
            var from := Max(f.cur.value.cursor, play); var to := Min(play + f.cushion, f.cur.value.total);
            && f1 == f.(cur := Some(f.cur.value.(cursor := to)))
            && 0 <= base + from <= base + to <= |s| && Joined(cs) == s[base + from..base + to]
  {
    hide Config.IntervalSamples, Config.WindowStart, Grid.Padded, Fill, Carries;
    GridFacts(g);
    FillEmits(f.cur.value, f.curIdx, play, play + f.cushion, f.chunk, Pcm(store, f.curIdx), s, base,
              Min(play + f.cushion, ext));
  }

  lemma NextEmits(f: Feeder, g: Grid, round: int, index: int, play: nat, store: Store, s: seq<Frame>, base: int, ext: nat)
    requires g.Ok() && Shape(f, g, round, index) && Arrived(store, s, g, round, base, play + f.cushion, ext)
    requires f.next.Some? && play <= g.Frames() && play + f.cushion > g.Frames()
    requires f.nextStart <= f.next.value.cursor <= Max(f.nextStart, Min(play + f.cushion - g.Frames(), g.Frames()))
    ensures var (f1, cs) := FillNext(f, play, store); var b := base + g.Frames();
            var from := f.next.value.cursor; var to := Max(f.nextStart, Min(play + f.cushion - g.Frames(), g.Frames()));
            && f1 == f.(next := Some(f.next.value.(cursor := to)))
            && (from < to ==> 0 <= b + from <= b + to <= |s| && Joined(cs) == s[b + from..b + to])
            && (from == to ==> cs == [])
  {
    hide Config.IntervalSamples, Config.WindowStart, Grid.Padded, Config.WindowEnd, Fill, Joined, Carries;
    GridFacts(g);
    var over := play + f.cushion - f.cur.value.total;
    if over > 0 {
      var r := f.next.value;
      var pcm, have := Pcm(store, f.nextIdx), Min(play + f.cushion - g.Frames(), g.Frames());
      FillEmits(r, f.nextIdx, f.nextStart, f.nextStart + over, f.chunk, pcm, s, base + g.Frames(), have);
      NothingToFill(r, f.nextIdx, f.nextStart, f.nextStart + over, f.chunk, pcm);
    }
  }

  /** A reader already at its target sends nothing. */
  lemma NothingToFill(r: Reader, round: int, play: nat, target: nat, n: nat, pcm: seq<Frame>)
    requires r.Ok() && n >= 1 && play <= r.cursor
    ensures r.cursor == Min(target, r.total) ==> Fill(r, round, play, target, n, pcm).chunks == []
  {
    hide Reader.BeatAt;
  }

  /** The end of what has been committed, in stream positions. */
  function Front(f: Feeder, g: Grid, base: int): int
    requires f.cur.Some?
  {
    if f.next.Some? && f.next.value.cursor > f.nextStart
    then base + g.Frames() + f.next.value.cursor
    else base + f.cur.value.cursor
  }

  /** What a tick must achieve, from a state whose stream is committed up to `from`. */
  ghost predicate Contiguous(f: Feeder, t: Steps, g: Grid, round: int, index: int, play: nat, s: seq<Frame>, base: int, from: int) {
    && Topped(t.f3, g, round, index, play)
    && t.f3.cushion == f.cushion && t.f3.underrunFrames == f.underrunFrames && t.f3.underrunEvents == f.underrunEvents
    && 0 <= from <= Front(t.f3, g, base) <= |s|
    && Joined(t.c1 + t.c2 + t.c3) == s[from..Front(t.f3, g, base)]
    && t.f3.cur.value.cursor > 0
  }

  /** The first frame a tick emits. */
  function StartOf(f: Feeder, g: Grid, base: int, play: nat): int
    requires f.cur.Some?
  {
    if f.cur.value.cursor == 0 then base + play else Front(f, g, base)
  }

  /** The cushion stays inside the current interval. */
  lemma TickInside(f: Feeder, g: Grid, round: int, index: int, play: nat, store: Store, s: seq<Frame>, base: int, ext: nat)
    requires g.Ok() && Ready(f, g, round, index, play) && Arrived(store, s, g, round, base, play + f.cushion, ext)
    requires g.Frames() <= ext
    requires f.next.None? && play + f.cushion <= g.Frames()
    ensures Contiguous(f, StepsOf(f, play, store), g, round, index, play, s, base, StartOf(f, g, base, play))
  {
    hide Config.IntervalSamples, Config.WindowStart, Grid.Padded, Config.WindowEnd, FillCur, FillNext, Arrived, Joined;
    GridFacts(g);
    CurEmits(f, g, round, index, play, store, s, base, ext);
    var t := StepsOf(f, play, store);
    assert t.c1 + [] + [] == t.c1;
  }

  lemma PreRollShape(f: Feeder, g: Grid, round: int, index: int, store: Store)
    requires g.Ok() && Shape(f, g, round, index) && f.next.None? && f.cur.value.cursor <= g.Frames()
    ensures var f1 := PreRoll(f, f.makeNext.value, store);
            && Shape(f1, g, round, index) && f1.next.Some? && f1.next.value.cursor == f1.nextStart
            && f1.cur.value.cursor == f.cur.value.cursor
            && f1.nextStart == HandoffStart(HandoffAt(g, round, index), store)
            && f1 == f.(cur := f1.cur, next := f1.next, nextIdx := f1.nextIdx, nextStart := f1.nextStart)
  {
    hide Config.IntervalSamples, Config.WindowStart, Config.WindowEnd, PadCarriesAudio;
    GridFacts(g);
  }

  /** An emission that goes on from b: nothing, or the stream's frames from b. */
  lemma Meet(c: seq<Chunk>, d: seq<Chunk>, s: seq<Frame>, a: int, b: int, to: int)
    requires 0 <= a <= b <= to && b <= |s| && Joined(c) == s[a..b]
    requires b < to ==> to <= |s| && Joined(d) == s[b..to]
    requires b == to ==> Joined(d) == []
    ensures to <= |s| && Joined(c + d) == s[a..to]
  {
    hide Joined;
    JoinedAppend(c, d);
    if b < to {
      assert s[a..b] + s[b..to] == s[a..to];
    } else {
      assert s[a..b] + [] == s[a..to];
    }
  }

  lemma NothingJoined()
    ensures Joined([]) == []
  {
  }

  /** With the next reader rolling: what the current reader has left, then the next one. */
  ghost predicate Rolling(f: Feeder, g: Grid, round: int, index: int, play: nat) {
    && Ready(f, g, round, index, play) && f.next.Some? && f.cur.value.cursor > 0
  }

  lemma RollingCur(f: Feeder, g: Grid, round: int, index: int, play: nat, store: Store, s: seq<Frame>, base: int, ext: nat)
    requires g.Ok() && Rolling(f, g, round, index, play) && Arrived(store, s, g, round, base, play + f.cushion, ext)
    requires f.cur.value.total <= ext
    requires 0 <= Front(f, g, base) <= |s|
    ensures var (f1, c1) := FillCur(f, play, store);
            && Rolling(f1, g, round, index, play) && f1.cur.value.cursor == Min(play + f.cushion, f.cur.value.total)
            && f1 == f.(cur := f1.cur)
            && Front(f, g, base) <= Front(f1, g, base) <= |s| && Joined(c1) == s[Front(f, g, base)..Front(f1, g, base)]
  {
    hide Config.IntervalSamples, Config.WindowStart, Grid.Padded, Config.WindowEnd, FillCur, Arrived, Joined;
    GridFacts(g);
    CurEmits(f, g, round, index, play, store, s, base, ext);
  }

  lemma RollingNext(f: Feeder, g: Grid, round: int, index: int, play: nat, store: Store, s: seq<Frame>, base: int, ext: nat)
    requires g.Ok() && Rolling(f, g, round, index, play) && Arrived(store, s, g, round, base, play + f.cushion, ext)
    requires f.cur.value.total <= ext
    requires f.cur.value.cursor == Min(play + f.cushion, f.cur.value.total)
    requires 0 <= Front(f, g, base) <= |s|
    ensures var (f1, c1) := FillNext(f, play, store);
            && Topped(f1, g, round, index, play) && f1 == f.(next := f1.next)
            && Front(f, g, base) <= Front(f1, g, base) <= |s| && Joined(c1) == s[Front(f, g, base)..Front(f1, g, base)]
  {
    hide Config.IntervalSamples, Config.WindowStart, Grid.Padded, Config.WindowEnd, FillNext, Arrived, Joined;
    GridFacts(g);
    NextEmits(f, g, round, index, play, store, s, base, ext);
    NothingJoined();
  }

  /** The next reader is already rolling. */
  lemma TickContinues(f: Feeder, g: Grid, round: int, index: int, play: nat, store: Store, s: seq<Frame>, base: int, ext: nat)
    requires g.Ok() && Rolling(f, g, round, index, play) && Arrived(store, s, g, round, base, play + f.cushion, ext)
    requires f.cur.value.total <= ext
    requires 0 <= Front(f, g, base) <= |s|
    ensures Contiguous(f, StepsOf(f, play, store), g, round, index, play, s, base, StartOf(f, g, base, play))
  {
    hide Grid.Frames, Grid.Padded, Config.WindowEnd, Config.WindowStart, FillCur, FillNext, Arrived, Joined, PreRoll, Front;
    RollingCur(f, g, round, index, play, store, s, base, ext);
    var t := StepsOf(f, play, store);
    if play + f.cushion > t.f1.cur.value.total {
      RollingNext(t.f1, g, round, index, play, store, s, base, ext);
      Meet(t.c1, t.c3, s, Front(f, g, base), Front(t.f1, g, base), Front(t.f3, g, base));
      assert t.c1 + [] + t.c3 == t.c1 + t.c3;
    } else {
      assert t.c1 + [] + [] == t.c1;
    }
  }

  /** Crossing the interval's end: the current reader is filled to its end, then the next one is built. */
  lemma PreRolls(f: Feeder, g: Grid, round: int, index: int, play: nat, store: Store, s: seq<Frame>, base: int, ext: nat)
    requires g.Ok() && Ready(f, g, round, index, play) && Arrived(store, s, g, round, base, play + f.cushion, ext)
    requires ext == g.Frames() + HandoffStart(HandoffAt(g, round, index), store)
    requires f.next.None? && play + f.cushion > g.Frames()
    ensures Ok(f) && f.cur.Some?
    ensures var (f1, c1) := FillCur(f, play, store); var a, b := base + Max(f.cur.value.cursor, play), base + g.Frames();
            && f1 == f.(cur := f1.cur) && f1.cur.Some? && f1.makeNext.Some? && f1.cur.value.total == g.Frames()
            && 0 <= a <= b <= |s| && Joined(c1) == s[a..b]
            && var f2 := PreRoll(f1, f1.makeNext.value, store);
            && Rolling(f2, g, round, index, play) && Front(f2, g, base) == b
            && f2.cur.value.total == ext
            && f2 == f.(cur := f2.cur, next := f2.next, nextIdx := f2.nextIdx, nextStart := f2.nextStart)
  {
    hide Config.IntervalSamples, Config.WindowStart, Grid.Padded, Config.WindowEnd, FillCur, Arrived, Joined, PreRoll;
    GridFacts(g);
    CurEmits(f, g, round, index, play, store, s, base, ext);
    PreRollShape(FillCur(f, play, store).0, g, round, index, store);
  }

  /** The cushion crosses the interval's end for the first time. */
  lemma TickPreRolls(f: Feeder, g: Grid, round: int, index: int, play: nat, store: Store, s: seq<Frame>, base: int, ext: nat)
    requires g.Ok() && Ready(f, g, round, index, play) && Arrived(store, s, g, round, base, play + f.cushion, ext)
    requires ext == g.Frames() + HandoffStart(HandoffAt(g, round, index), store)
    requires f.next.None? && play + f.cushion > g.Frames()
    ensures Contiguous(f, StepsOf(f, play, store), g, round, index, play, s, base, StartOf(f, g, base, play))
  {
    hide Grid.Frames, Grid.Padded, Config.WindowEnd, Config.WindowStart, FillCur, FillNext, Arrived, Joined, PreRoll;
    PreRolls(f, g, round, index, play, store, s, base, ext);
    var t := StepsOf(f, play, store);
    var f1 := PreRoll(t.f1, t.f1.makeNext.value, store);
    RollingCur(f1, g, round, index, play, store, s, base, ext);
    RollingNext(t.f2, g, round, index, play, store, s, base, ext);
    hide Front;
    var a := base + Max(f.cur.value.cursor, play);
    Meet(t.c1, t.c2, s, a, Front(f1, g, base), Front(t.f2, g, base));
    Meet(t.c1 + t.c2, t.c3, s, a, Front(t.f2, g, base), Front(t.f3, g, base));
    assert a == StartOf(f, g, base, play) by {
      StartIsLaterOf(f, g, round, index, play, base);
    }
  }

  lemma StartIsLaterOf(f: Feeder, g: Grid, round: int, index: int, play: nat, base: int)
    requires Ready(f, g, round, index, play) && f.next.None?
    ensures StartOf(f, g, base, play) == base + Max(f.cur.value.cursor, play)
  {
  }

  /** What a feeder has committed lies inside the stream. */
  predicate InStream(f: Feeder, g: Grid, s: seq<Frame>, base: int)
    requires f.cur.Some?
  {
    if f.cur.value.cursor == 0 then 0 <= base && f.next.None? else 0 <= Front(f, g, base) <= |s|
  }

  /** One tick inside a local interval: the emission goes on exactly where the last one ended, and ends with the
      sink topped up to the cushion. */
  lemma TickEmits(f: Feeder, g: Grid, round: int, index: int, beat: real, store: Store, s: seq<Frame>, base: int)
    requires g.Ok() && g.cfg.IndexAtBeat(beat) == index && Ready(f, g, round, index, g.PlayAt(beat, index))
    requires InStream(f, g, s, base)
    requires Arrived(store, s, g, round, base, g.PlayAt(beat, index) + f.cushion, Extent(f, g, round, index, store))
    ensures Ok(f) && f.cur.Some?
    ensures var (f1, cs) := Advance(f, beat, store); var play := g.PlayAt(beat, index);
            && Topped(f1, g, round, index, play) && f1.cushion == f.cushion && f1.cur.value.cursor > 0
            && f1.underrunEvents == f.underrunEvents && f1.underrunFrames == f.underrunFrames
            && 0 <= StartOf(f, g, base, play) <= Front(f1, g, base) <= |s|
            && Joined(cs) == s[StartOf(f, g, base, play)..Front(f1, g, base)]
  {
    hide Config.IntervalSamples, Config.WindowStart, Grid.Padded, Config.WindowEnd, FillCur, FillNext, Arrived, Joined, PreRoll,
      StepsOf, Advance, Config.IndexAtBeat, Grid.PlayAt, Reader.FrameAtBeat;
    ExactInside(g, beat, index);
    PlayIsGridPlay(g, f.cur.value, beat, index);
    var play := g.PlayAt(beat, index);
    AdvanceIsSteps(f, beat, store);
    var ext := Extent(f, g, round, index, store);
    if f.next.Some? {
      TickContinues(f, g, round, index, play, store, s, base, ext);
    } else if play + f.cushion > g.Frames() {
      TickPreRolls(f, g, round, index, play, store, s, base, ext);
    } else {
      TickInside(f, g, round, index, play, store, s, base, ext);
    }
  }
}
