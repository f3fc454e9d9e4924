/** What a tick out of reach costs: when exactly an emission goes on without a gap, and that what falls into a gap is
    lost for good, whatever the later ticks. */
module PlaybackLoss {
  import opened Common
  import opened Audio
  import opened Interval
  import opened PacedReader
  import opened FeederModel
  import opened FeederRuns
  import opened Playback
  import opened PlaybackRuns

  // ---------------------------------------------------------------- the emit loop under any ticks at all

  /** The readers of a playing round at the grid's tempo, wherever they have got to. */
  predicate Rolls(f: Feeder, g: Grid) {
    && f.cur.Some? && f.cur.value.cursor <= f.cur.value.total == g.Frames() + f.nextStart
    && f.cur.value.tempoBPM == g.tempo
    && (f.next.None? ==> f.nextStart == 0)
    && (f.next.Some? ==> f.next.value.tempoBPM == g.tempo && f.next.value.total == g.Frames())
    && f.makeNext.Some?
    && var h := f.makeNext.value;
       h.rate == g.rate && h.tempo == g.tempo && h.totalFrames == g.Frames() && h.paddedFrames == g.Padded()
  }

  ghost predicate Sound(p: Player, g: Grid, base: int) {
    g.Ok() && Inv(State(p.f, base)) && p.f.curIdx == p.round && Rolls(p.f, g)
  }

  lemma SoundOk(p: Player, g: Grid, base: int)
    requires Sound(p, g, base)
    ensures g.Ok() && Ok(p.f) && p.f.cur.Some? && p.f.cur.value.total >= g.Frames()
  {
  }

  lemma AtIsSound(p: Player, g: Grid, s: seq<Frame>, base: int, b: real)
    requires At(p, g, s, base, b)
    ensures Sound(p, g, base) && Committed(State(p.f, base)) == Front(p.f, g, base)
  {
    hide Config.IntervalSamples, Config.WindowStart, Config.WindowEnd, Grid.Padded, Config.IndexAtBeat, Grid.PlayAt;
    GridFacts(g);
  }

  /** The boundary a tick may process keeps everything committed so far behind it. */
  lemma BoundaryIsSound(p: Player, g: Grid, base: int, beat: real)
    requires Sound(p, g, base) && Ok(p.f) && p.f.cur.Some?
    ensures var q, d := AtTick(p, g, beat), BaseAt(p, g, base, beat);
            && Sound(q, g, d) && Committed(State(p.f, base)) <= Committed(State(q.f, d))
            && q.f.underrunFrames == p.f.underrunFrames && q.f.cushion == p.f.cushion
            && (q.index != p.index ==> q.f.next.None?)
  {
    hide Inv, Rolls, Committed, Boundary, Grid.Ok, Config.IndexAtBeat, Grid.Frames;
    if g.cfg.IndexAtBeat(beat) > p.index {
      if p.f.next.Some? {
        PromotionIsSound(p.f, g, p.round, g.cfg.IndexAtBeat(beat), base);
      } else {
        FreshIsSound(p.f, g, p.round, g.cfg.IndexAtBeat(beat), base);
      }
    }
  }

  lemma PromotionIsSound(f: Feeder, g: Grid, round: int, index: int, base: int)
    requires g.Ok() && Inv(State(f, base)) && Rolls(f, g) && f.curIdx == round && Ok(f) && f.next.Some?
    ensures var f1, d := Boundary(f, g, round + 1, index), base + g.Frames();
            && Inv(State(f1, d)) && Rolls(f1, g) && f1.curIdx == round + 1 && f1.next.None?
            && Committed(State(f, base)) <= Committed(State(f1, d))
            && f1.underrunFrames == f.underrunFrames && f1.cushion == f.cushion
  {
    hide Grid.Frames, Grid.Padded, Config.WindowStart, Config.WindowEnd, Reader.Rebase;
    GridFacts(g);
  }

  lemma FreshIsSound(f: Feeder, g: Grid, round: int, index: int, base: int)
    requires g.Ok() && Inv(State(f, base)) && Rolls(f, g) && f.curIdx == round && Ok(f) && f.next.None?
    ensures var f1, d := Boundary(f, g, round + 1, index), base + g.Frames();
            && Inv(State(f1, d)) && Rolls(f1, g) && f1.curIdx == round + 1 && f1.next.None?
            && Committed(State(f, base)) <= Committed(State(f1, d))
            && f1.underrunFrames == f.underrunFrames && f1.cushion == f.cushion
  {
    hide Grid.Frames, Grid.Padded, Config.WindowStart, Config.WindowEnd, Adopted;
    GridFacts(g);
  }

  lemma {:induction false} ChunkRounds(r: Reader, round: int, from: nat, to: nat, n: nat, src: seq<Frame>)
    requires r.Ok() && n >= 1 && from <= to
    ensures var cs := Chunks(r, round, from, to, n, src);
            (cs == [] <==> from == to) && (cs != [] ==> cs[0].round == round && cs[0].frame == from)
  {
    hide Reader.BeatAt;
  }

  /** Where the next frame a feeder sends comes from: the end of what it has committed, or the playhead past that. */
  function Resumes(f: Feeder, base: int, play: int): int
    requires f.cur.Some?
  {
    Max(Committed(State(f, base)), base + play)
  }

  /** Filling the current reader: what it sends first, and what it counts as skipped. */
  lemma CurResumes(s: State, play: nat, store: Store)
    requires Inv(s) && Ok(s.f) && s.f.cur.Some? && play <= s.f.cur.value.total
    ensures var (f1, cs) := FillCur(s.f, play, store);
            && f1.cur.Some? && f1.cur.value.cursor >= Min(play + 1, s.f.cur.value.total)
            && (cs != [] ==> cs[0].round == s.f.curIdx && s.base + cs[0].frame == Resumes(s.f, s.base, play))
            && (cs == [] ==> Committed(State(f1, s.base)) == Resumes(s.f, s.base, play))
            && f1.underrunFrames - s.f.underrunFrames
               == (if s.f.cur.value.cursor > 0 then Resumes(s.f, s.base, play) - Committed(s) else 0)
  {
    hide Reader.BeatAt, Chunks;
    var r := s.f.cur.value;
    ChunkRounds(r, s.f.curIdx, FillFrom(r, play), FillTo(r, play, play + s.f.cushion), s.f.chunk, Pcm(store, s.f.curIdx));
  }

  /** Going on into the next reader: it starts where it stands, and skips nothing. */
  lemma NextResumes(s: State, play: nat, store: Store)
    requires Inv(s) && Ok(s.f) && s.f.cur.Some? && s.f.next.Some? && play <= s.f.cur.value.total
    requires s.f.cur.value.cursor >= Min(play + s.f.cushion, s.f.cur.value.total)
    ensures var (f1, cs) := FillNext(s.f, play, store);
            && (cs != [] ==> cs[0].round == s.f.nextIdx && NextBase(s) + cs[0].frame == Committed(s))
            && f1.underrunFrames == s.f.underrunFrames
  {
    hide Reader.BeatAt, Chunks;
    var f, r := s.f, s.f.next.value;
    var over := play + f.cushion - f.cur.value.total;
    if over > 0 {
      ChunkRounds(r, f.nextIdx, FillFrom(r, f.nextStart), FillTo(r, f.nextStart, f.nextStart + over), f.chunk, Pcm(store, f.nextIdx));
    }
  }

  /** The first frame of a tick's top-up, and what the top-up counts as an underrun. */
  lemma AdvanceResumes(s: State, beat: real, store: Store)
    requires Inv(s) && Ok(s.f) && s.f.cur.Some? && Play(s.f, beat) <= s.f.cur.value.total
    ensures var (f1, cs) := Advance(s.f, beat, store); var resumes := Resumes(s.f, s.base, Play(s.f, beat));
            && f1.cur.Some?
            && (cs != [] ==> SpanOf(cs[0], State(f1, s.base)).from == resumes)
            && f1.underrunFrames - s.f.underrunFrames == (if s.f.cur.value.cursor > 0 then resumes - Committed(s) else 0)
  {
    hide Advance, Play, StepsOf, Inv, Committed;
    var play := Play(s.f, beat);
    AdvanceIsSteps(s.f, beat, store);
    StepsSafe(s, play, store);
    StepsResume(s, play, store);
    InvOk(State(StepsOf(s.f, play, store).f3, s.base));
    FirstOfThree(StepsOf(s.f, play, store));
  }

  /** The first chunk of three steps is the first of the first that sends anything. */
  function FirstStep(t: Steps): seq<Chunk> {
    if t.c1 != [] then t.c1 else if t.c2 != [] then t.c2 else t.c3
  }

  lemma FirstOfThree(t: Steps)
    ensures var cs := t.c1 + t.c2 + t.c3;
            (cs == [] <==> FirstStep(t) == []) && (cs != [] ==> cs[0] == FirstStep(t)[0])
  {
  }

  lemma StepsResume(s: State, play: nat, store: Store)
    requires Inv(s) && Ok(s.f) && s.f.cur.Some? && play <= s.f.cur.value.total
    ensures var t := StepsOf(s.f, play, store); var resumes := Resumes(s.f, s.base, play); var first := FirstStep(t);
            && t.f3.cur.Some?
            && (first != [] ==> SpanOf(first[0], State(t.f3, s.base)).from == resumes)
            && t.f3.underrunFrames - s.f.underrunFrames == (if s.f.cur.value.cursor > 0 then resumes - Committed(s) else 0)
  {
    hide FillCur, FillNext, PreRoll, Inv, Committed, NextBase;
    CurResumes(s, play, store);
    FillCurSafe(s, play, store, 0);
    var t := StepsOf(s.f, play, store);
    var s1 := State(t.f1, s.base);
    InvOk(s1);
    CommittedReaches(s1);
    if play + s.f.cushion <= t.f1.cur.value.total || (t.f1.next.None? && t.f1.makeNext.None?) {
    } else if t.f1.next.Some? {
      InvNext(s1);
      NextResumes(s1, play, store);
      FillNextSafe(s1, play, store, Past(s1.f));
      InvOk(State(t.f3, s.base));
      SameNextBase(s1, t.f3);
    } else {
      PreRollSafe(s1, store);
      var rolled := State(PreRoll(t.f1, t.f1.makeNext.value, store), s.base);
      InvOk(rolled);
      FillCurSafe(rolled, play, store, 0);
      InvOk(State(t.f2, s.base));
      PreRolledResume(s1, play, store, t);
    }
  }

  lemma SameNextBase(s: State, f: Feeder)
    requires s.f.cur.Some? && f.cur == s.f.cur && f.nextStart == s.f.nextStart
    ensures NextBase(State(f, s.base)) == NextBase(s)
  {
  }

  lemma PreRolledResume(s1: State, play: nat, store: Store, t: Steps)
    requires Inv(s1) && Ok(s1.f) && s1.f.cur.Some? && s1.f.next.None? && s1.f.makeNext.Some?
    requires play <= s1.f.cur.value.total < play + s1.f.cushion && s1.f.cur.value.cursor >= Min(play + 1, s1.f.cur.value.total)
    requires var f := PreRoll(s1.f, s1.f.makeNext.value, store);
             Ok(f) && f.cur.Some? && (t.f2, t.c2) == FillCur(f, play, store) && Ok(t.f2) && t.f2.cur.Some? && t.f2.next.Some?
             && (t.f3, t.c3) == FillNext(t.f2, play, store)
    ensures t.f3.cur.Some? && t.f3.curIdx == s1.f.curIdx && t.f3.underrunFrames == s1.f.underrunFrames
    ensures t.c2 != [] ==> SpanOf(t.c2[0], State(t.f3, s1.base)).from == Committed(s1)
    ensures t.c2 == [] && t.c3 != [] ==> SpanOf(t.c3[0], State(t.f3, s1.base)).from == Committed(s1)
  {
    hide FillCur, FillNext, PreRoll, Inv, Committed, NextBase;
    var s := State(PreRoll(s1.f, s1.f.makeNext.value, store), s1.base);
    PreRollSafe(s1, store);
    PreRollCounts(s1.f, s1.f.makeNext.value, store);
    CommittedReaches(s1);
    CurResumes(s, play, store);
    FillCurSafe(s, play, store, Past(s.f));
    var s2 := State(t.f2, s1.base);
    InvNext(s2);
    NextResumes(s2, play, store);
    FillNextSafe(s2, play, store, Past(s2.f));
    SameNextBase(s2, t.f3);
  }

  lemma PreRollCounts(f: Feeder, h: Handoff, store: Store)
    requires f.cur.Some?
    ensures var f1 := PreRoll(f, h, store);
            && f1.underrunFrames == f.underrunFrames && f1.cur.value.cursor == f.cur.value.cursor
            && (f1.cur.value.total == f.cur.value.total || f1.cur.value.total >= f1.cur.value.cursor)
  {
  }

  // ---------------------------------------------------------------- one tick, exactly

  /** The tick at beat c is in the same local interval as the one at b, or the next, and not before it. */
  predicate Follows(g: Grid, index: int, b: real, c: real) {
    var i := g.cfg.IndexAtBeat(c);
    (i == index && g.PlayAt(b, index) <= g.PlayAt(c, index)) || i == index + 1
  }

  /** Where a tick resumes the emission, in stream positions. */
  function ResumesAt(p: Player, g: Grid, base: int, t: Tick): int
    requires g.Ok() && Ok(p.f) && p.f.cur.Some?
  {
    AtTickOk(p, g, t.beat);
    var q := AtTick(p, g, t.beat);
    Resumes(q.f, BaseAt(p, g, base, t.beat), g.PlayAt(t.beat, q.index))
  }

  /** The playing reader at a tick reads the playhead as the grid does. */
  lemma TickPlay(p: Player, g: Grid, s: seq<Frame>, base: int, b: real, c: real)
    requires At(p, g, s, base, b) && Ok(p.f) && p.f.cur.Some? && Follows(g, p.index, b, c)
    ensures var q := AtTick(p, g, c);
            && Ok(q.f) && q.f.cur.Some? && q.index == g.cfg.IndexAtBeat(c) && q.round - p.round == q.index - p.index
            && 0 <= g.PlayAt(c, q.index) == Play(q.f, c) <= g.Frames()
  {
    hide Config.IntervalSamples, Config.WindowStart, Config.WindowEnd, Config.IndexAtBeat, Grid.PlayAt, Grid.Padded,
      Reader.FrameAtBeat;
    var q := AtTick(p, g, c);
    AtTickOk(p, g, c);
    ExactInside(g, c, q.index);
    WindowsAbut(g, p.index);
    PlayIsGridPlay(g, q.f.cur.value, c, q.index);
  }

  /** EXACTLY WHEN A TICK LEAVES NO GAP. The first frame a tick sends lies at `ResumesAt`; that is where the last tick's
      emission ended exactly when the tick is in reach; otherwise it lies past it. The underrun counter rises by what
      the playhead overtook, and not by what a boundary cut off. */
  lemma SeamlessIff(p: Player, g: Grid, s: seq<Frame>, base: int, b: real, t: Tick)
    requires At(p, g, s, base, b) && g.Ok() && Ok(p.f) && p.f.cur.Some? && Follows(g, p.index, b, t.beat)
    ensures Ok(AtTick(p, g, t.beat).f) && AtTick(p, g, t.beat).f.cur.Some?
    ensures var q, d := AtTick(p, g, t.beat), BaseAt(p, g, base, t.beat);
            var (p1, cs) := TickStep(p, g, t); var resumes := ResumesAt(p, g, base, t);
            && (cs != [] ==> SpanOf(cs[0], State(p1.f, d)).from == resumes)
            && Front(p.f, g, base) <= resumes
            && (resumes == Front(p.f, g, base) <==> InReach(p.f, g, p.index, b, t.beat))
            && p1.f.underrunFrames - p.f.underrunFrames
               == (if q.f.cur.value.cursor > 0 then resumes - Committed(State(q.f, d)) else 0)
  {
    hide Config.IndexAtBeat, Grid.PlayAt, Advance, AtTick, Inv, Committed, Front, Resumes, At, Rolls, Grid.Frames, Play,
      InReach, Grid.Ok;
    AtIsSound(p, g, s, base, b);
    BoundaryIsSound(p, g, base, t.beat);
    var q, d := AtTick(p, g, t.beat), BaseAt(p, g, base, t.beat);
    SoundOk(q, g, d);
    TickPlay(p, g, s, base, b, t.beat);
    AdvanceResumes(State(q.f, d), t.beat, t.store);
    ReachIsSeamless(p, g, s, base, b, t.beat);
  }

  lemma ReachIsSeamless(p: Player, g: Grid, s: seq<Frame>, base: int, b: real, c: real)
    requires At(p, g, s, base, b) && g.Ok() && Ok(p.f) && p.f.cur.Some? && Follows(g, p.index, b, c)
    ensures var q, d := AtTick(p, g, c), BaseAt(p, g, base, c);
            && q.f.cur.Some?
            && var resumes := Resumes(q.f, d, g.PlayAt(c, q.index));
            && Front(p.f, g, base) <= resumes
            && (resumes == Front(p.f, g, base) <==> InReach(p.f, g, p.index, b, c))
  {
    hide Grid.Frames, Config.IndexAtBeat, Grid.PlayAt, Topped, Front, Resumes, Boundary, Grid.Ok;
    ExactInside(g, b, p.index);
    AtTickOk(p, g, c);
    if g.cfg.IndexAtBeat(c) == p.index {
      ExactInside(g, c, p.index);
      assert AtTick(p, g, c) == p && BaseAt(p, g, base, c) == base;
      InsideIsSeamless(p.f, g, p.round, p.index, g.PlayAt(b, p.index), g.PlayAt(c, p.index), base);
    } else {
      ExactInside(g, c, p.index + 1);
      assert AtTick(p, g, c) == Player(Boundary(p.f, g, p.round + 1, p.index + 1), p.round + 1, p.index + 1);
      assert BaseAt(p, g, base, c) == base + g.Frames();
      AcrossIsSeamless(p.f, g, p.round, p.index, g.PlayAt(b, p.index), g.PlayAt(c, p.index + 1), base);
    }
  }

  lemma InsideIsSeamless(f: Feeder, g: Grid, round: int, index: int, play: nat, later: nat, base: int)
    requires g.Ok() && Topped(f, g, round, index, play) && play <= later <= g.Frames()
    ensures var resumes := Resumes(f, base, later);
            Front(f, g, base) <= resumes && (resumes == Front(f, g, base) <==> later <= play + f.cushion)
  {
    hide Grid.Frames, Grid.Padded, Config.WindowStart, Config.WindowEnd;
  }

  lemma AcrossIsSeamless(f: Feeder, g: Grid, round: int, index: int, play: nat, later: nat, base: int)
    requires g.Ok() && Topped(f, g, round, index, play) && play <= g.Frames() && later <= g.Frames()
    ensures var f1 := Boundary(f, g, round + 1, index + 1);
            && f1.cur.Some?
            && var resumes := Resumes(f1, base + g.Frames(), later);
            && Front(f, g, base) <= resumes
            && (resumes == Front(f, g, base) <==> play + f.cushion >= g.Frames() + Max(f.nextStart, later))
  {
    hide Grid.Frames, Grid.Padded, Config.WindowStart, Config.WindowEnd, Reader.Rebase;
    GridFacts(g);
  }

  // ---------------------------------------------------------------- what is lost stays lost

  /** The stream positions a run of ticks sends, in order. */
  function PlayedSpans(p: Player, g: Grid, base: int, ticks: seq<Tick>): seq<Span>
    requires g.Ok() && Ok(p.f) && p.f.cur.Some?
    decreases |ticks|
  {
    if ticks == [] then
      []
    else
      var (p1, cs) := TickStep(p, g, ticks[0]);
      var d := BaseAt(p, g, base, ticks[0].beat);
      SpansOf(cs, State(p1.f, d)) + PlayedSpans(p1, g, d, ticks[1..])
  }

  lemma AdvanceKeepsRolling(f: Feeder, g: Grid, base: int, beat: real, store: Store)
    requires g.Ok() && Inv(State(f, base)) && Rolls(f, g) && Ok(f)
    ensures var f1 := Advance(f, beat, store).0; f1.curIdx == f.curIdx && Rolls(f1, g)
  {
    hide Config.IntervalSamples, Config.WindowStart, PadCarriesAudio, Chunks, Reader.FrameAtBeat, Grid.Frames, Grid.Padded;
    GridFacts(g);
  }

  /** One tick, whenever it comes and whatever has arrived. */
  lemma TickIsSafe(p: Player, g: Grid, base: int, t: Tick)
    requires Sound(p, g, base) && g.Ok() && Ok(p.f) && p.f.cur.Some?
    ensures var (p1, cs) := TickStep(p, g, t); var d := BaseAt(p, g, base, t.beat);
            && Sound(p1, g, d) && Committed(State(p.f, base)) <= Committed(State(p1.f, d))
            && Ordered(SpansOf(cs, State(p1.f, d)), Committed(State(p.f, base)), Committed(State(p1.f, d)))
  {
    hide Advance, AtTick, Inv, Committed, Rolls, Ordered, SpansOf, Grid.Ok, Play;
    BoundaryIsSound(p, g, base, t.beat);
    var q, d := AtTick(p, g, t.beat), BaseAt(p, g, base, t.beat);
    SoundOk(q, g, d);
    AdvanceIsSafe(State(q.f, d), t.beat, t.store);
    AdvanceKeepsRolling(q.f, g, d, t.beat, t.store);
    var (p1, cs) := TickStep(p, g, t);
    Widen(SpansOf(cs, State(p1.f, d)), Committed(State(p.f, base)), Committed(State(q.f, d)), Committed(State(p1.f, d)));
  }

  lemma Widen(spans: seq<Span>, a: int, b: int, c: int)
    requires a <= b && Ordered(spans, b, c)
    ensures Ordered(spans, a, c)
  {
  }

  /** THE EMIT LOOP NEVER GOES BACK. Under any ticks at all, late or early, across any number of boundaries, each stream
      position is sent at most once and positions only increase. */
  lemma {:induction false} TicksNeverGoBack(p: Player, g: Grid, base: int, ticks: seq<Tick>) returns (d: int)
    requires Sound(p, g, base) && g.Ok() && Ok(p.f) && p.f.cur.Some?
    ensures var q := Played(p, g, ticks).0;
            && Sound(q, g, d) && d == base + (q.round - p.round) * g.Frames()
            && Committed(State(p.f, base)) <= Committed(State(q.f, d))
            && Ordered(PlayedSpans(p, g, base, ticks), Committed(State(p.f, base)), Committed(State(q.f, d)))
    decreases |ticks|
  {
    hide TickStep, Sound, Committed, Ordered, SpansOf, Grid.Ok, Grid.Frames, BaseAt;
    d := base;
    if ticks == [] {
      NothingOrdered(Committed(State(p.f, base)));
    } else {
      var t := ticks[0];
      TickIsSafe(p, g, base, t);
      var (p1, cs) := TickStep(p, g, t);
      var d1 := BaseAt(p, g, base, t.beat);
      BaseMoves(p, g, base, t);
      d := TicksNeverGoBack(p1, g, d1, ticks[1..]);
      var q := Played(p1, g, ticks[1..]).0;
      OrderedJoin(SpansOf(cs, State(p1.f, d1)), PlayedSpans(p1, g, d1, ticks[1..]), Committed(State(p.f, base)),
                  Committed(State(p1.f, d1)), Committed(State(q.f, d)));
      Distribute(p1.round - p.round, q.round - p1.round, g.Frames());
    }
  }

  lemma BaseMoves(p: Player, g: Grid, base: int, t: Tick)
    requires g.Ok() && Ok(p.f) && p.f.cur.Some?
    ensures BaseAt(p, g, base, t.beat) == base + (TickStep(p, g, t).0.round - p.round) * g.Frames()
  {
    StepRound(p, g, t);
  }

  /** Everything from a tick out of reach on lies at or past where it resumes. */
  lemma ResumesForGood(p: Player, g: Grid, s: seq<Frame>, base: int, b: real, t: Tick, more: seq<Tick>)
    requires At(p, g, s, base, b) && g.Ok() && Ok(p.f) && p.f.cur.Some? && Follows(g, p.index, b, t.beat)
    ensures forall x <- PlayedSpans(p, g, base, [t] + more) :: x.from >= ResumesAt(p, g, base, t)
  {
    hide Config.IndexAtBeat, Grid.PlayAt, Advance, AtTick, Inv, Front, At, Rolls, Grid.Frames, Play, Grid.Ok, SpansOf, Committed;
    AtIsSound(p, g, s, base, b);
    BoundaryIsSound(p, g, base, t.beat);
    var q, d := AtTick(p, g, t.beat), BaseAt(p, g, base, t.beat);
    SoundOk(q, g, d);
    TickPlay(p, g, s, base, b, t.beat);
    AdvanceIsSafe(State(q.f, d), t.beat, t.store);
    var (p1, cs) := TickStep(p, g, t);
    TickIsSafe(p, g, base, t);
    var _ := TicksNeverGoBack(p1, g, d, more);
    assert ([t] + more)[1..] == more;
    var spans, resumes := SpansOf(cs, State(p1.f, d)), ResumesAt(p, g, base, t);
    SpansFrom(cs, State(p1.f, d), resumes);
    var rest := PlayedSpans(p1, g, d, more);
    forall x: Span | x in spans + rest
      ensures x.from >= resumes
    {
      if x !in spans {
        assert x in rest;
      }
    }
  }

  lemma SpansFrom(cs: seq<Chunk>, s: State, lo: int)
    requires s.f.cur.Some? && forall c <- cs :: SpanOf(c, s).from >= lo
    ensures forall x <- SpansOf(cs, s) :: x.from >= lo
  {
  }

  /** A BROKEN CADENCE LOSES FRAMES FOR GOOD. A run in cadence up to a tick that is out of reach: the stretch of the
      stream between where the emission ended and where that tick resumes it is nonempty, and nothing the run sent
      before or will ever send after overlaps it. */
  lemma BrokenCadenceLosesFrames(p: Player, g: Grid, s: seq<Frame>, base: int, b: real, before: seq<Tick>, t: Tick, more: seq<Tick>)
    returns (lost: Span)
    requires At(p, g, s, base, b) && g.Ok() && Ok(p.f) && p.f.cur.Some?
    requires Cadence(p, g, b, before) && Supplied(p, g, s, base, before)
    requires var q := Played(p, g, before).0; var last := if before == [] then b else before[|before| - 1].beat;
             Follows(g, q.index, last, t.beat) && !InReach(q.f, g, q.index, last, t.beat)
    ensures lost.from < lost.to
    ensures var (q, cs) := Played(p, g, before); var d := base + (q.round - p.round) * g.Frames();
            && lost == Span(Front(q.f, g, d), ResumesAt(q, g, d, t)) && Front(p.f, g, base) <= lost.from <= |s|
            && Joined(cs) == s[Front(p.f, g, base)..lost.from]
    ensures forall x <- PlayedSpans(p, g, base, before + ([t] + more)) :: x.to <= lost.from || lost.to <= x.from
  {
    hide Config.IndexAtBeat, Grid.PlayAt, TickStep, Front, At, Grid.Frames, Grid.Ok, Committed, Sound, Cadence, Supplied, Joined,
      Follows, InReach, ResumesAt;
    var d := PlaybackIsContiguous(p, g, s, base, b, before);
    var q := Played(p, g, before).0;
    var last := if before == [] then b else before[|before| - 1].beat;
    AtOk(p, g, s, base, b);
    AtOk(q, g, s, d, last);
    AtIsSound(p, g, s, base, b);
    AtIsSound(q, g, s, d, last);
    SeamlessIff(q, g, s, d, last, t);
    lost := Span(Front(q.f, g, d), ResumesAt(q, g, d, t));
    var e := TicksNeverGoBack(p, g, base, before);
    ResumesForGood(q, g, s, d, last, t, more);
    SpansSplit(p, g, base, before, [t] + more);
  }

  lemma {:induction false} SpansSplit(p: Player, g: Grid, base: int, u: seq<Tick>, v: seq<Tick>)
    requires g.Ok() && Ok(p.f) && p.f.cur.Some?
    ensures var q := Played(p, g, u).0;
            PlayedSpans(p, g, base, u + v)
            == PlayedSpans(p, g, base, u) + PlayedSpans(q, g, base + (q.round - p.round) * g.Frames(), v)
    decreases |u|
  {
    hide TickStep, SpansOf, Grid.Ok, Grid.Frames, BaseAt;
    if u == [] {
      assert u + v == v;
    } else {
      var t := u[0];
      var (p1, cs) := TickStep(p, g, t);
      var d := BaseAt(p, g, base, t.beat);
      BaseMoves(p, g, base, t);
      SpansSplit(p1, g, d, u[1..], v);
      assert (u + v)[1..] == u[1..] + v;
      var q := Played(p1, g, u[1..]).0;
      Distribute(p1.round - p.round, q.round - p1.round, g.Frames());
      var own := SpansOf(cs, State(p1.f, d));
      assert own + (PlayedSpans(p1, g, d, u[1..]) + PlayedSpans(q, g, d + (q.round - p1.round) * g.Frames(), v))
          == own + PlayedSpans(p1, g, d, u[1..]) + PlayedSpans(q, g, d + (q.round - p1.round) * g.Frames(), v);
    }
  }

  // ---------------------------------------------------------------- a tick shorter than the cushion that loses frames

  /** At 1000 Hz and 96 BPM one-beat intervals hold 625 frames, padded to 640. */
  const LATE_GRID := Grid(Config(1, 1.0), 1000, 96.0)
  const LATE_STREAM := seq(1300, i requires 0 <= i => Frame(1000 + i, 0))
  const LATE_STORE: Store := map[7 := LATE_STREAM[..640], 8 := LATE_STREAM[625..1265]]
  const LATE_FIRST := Tick.Tick(600.0 / 625.0, LATE_STORE)
  const LATE_SECOND := Tick.Tick(627.0 / 625.0, LATE_STORE)

  lemma LateGridFacts()
    ensures LATE_GRID.Ok() && LATE_GRID.Frames() == 625 && LATE_GRID.Padded() == 640
    ensures LATE_GRID.cfg.IndexAtBeat(600.0 / 625.0) == 0 && LATE_GRID.cfg.IndexAtBeat(627.0 / 625.0) == 1
    ensures LATE_GRID.PlayAt(600.0 / 625.0, 0) == 600 && LATE_GRID.PlayAt(627.0 / 625.0, 1) == 2
    ensures Elapsed(LATE_GRID, 600.0 / 625.0, 627.0 / 625.0) == 27.0
  {
    assert LATE_GRID.cfg.BeatsPerInterval() == 1.0;
    assert SamplesPerWaifFrame(1000) == 20;
    assert LATE_GRID.cfg.WindowStart(0) == 0.0 && LATE_GRID.cfg.WindowStart(1) == 1.0;
    assert LATE_GRID.Exact(600.0 / 625.0, 0) == 600.0;
    assert LATE_GRID.Exact(627.0 / 625.0, 1) == 2.0;
  }

  /** Where a tick's pre-roll starts the next reader. */
  lemma AdvanceStart(f: Feeder, beat: real, store: Store)
    requires Ok(f) && f.cur.Some?
    ensures var f1 := Advance(f, beat, store).0;
            && (f.next.Some? ==> f1.next.Some? && f1.nextStart == f.nextStart)
            && (f.next.None? && f1.next.Some? ==> f.makeNext.Some? && f1.nextStart == HandoffStart(f.makeNext.value, store))
  {
    hide PadCarriesAudio, Chunks, Reader.FrameAtBeat, PlaysThroughPad;
  }

  lemma LateFirst()
    ensures LATE_GRID.Ok() && Ok(NewFeeder(30, 10))
    ensures var (p, cs) := Started(NewFeeder(30, 10), LATE_GRID, 7, LATE_FIRST);
            && At(p, LATE_GRID, LATE_STREAM, 0, LATE_FIRST.beat) && p.round == 7 && p.index == 0
            && p.f.cushion == 30 && p.f.underrunFrames == 0 && p.f.underrunEvents == 0 && p.f.nextStart == 15
            && Front(p.f, LATE_GRID, 0) == 630 && Joined(cs) == LATE_STREAM[600..630]
  {
    hide Config.IndexAtBeat, Grid.PlayAt, Grid.Frames, Grid.Padded, Advance, Joined, Config.WindowStart, Config.WindowEnd, Grid.Ok;
    LateGridFacts();
    var f, g, s := NewFeeder(30, 10), LATE_GRID, LATE_STREAM;
    LatePad(7, 0, 0);
    assert Carries(LATE_STORE[7], s, 0, 630) && Carries(LATE_STORE[8], s, 625, 5);
    FirstTick(f, g, 7, LATE_FIRST, s, 0);
    var f1 := Boundary(f, g, 7, 0);
    AdvanceStart(f1, LATE_FIRST.beat, LATE_STORE);
  }

  /** Both rounds play through their padding. */
  lemma LatePad(round: int, index: int, base: nat)
    requires (round == 7 && base == 0) || (round == 8 && base == 625)
    ensures HandoffStart(HandoffAt(LATE_GRID, round, index), LATE_STORE) == 15
  {
    LateGridFacts();
    hide Config.IndexAtBeat, Grid.PlayAt, Grid.Frames, Grid.Padded, Config.WindowEnd;
    assert LATE_STORE[round][625] == LATE_STREAM[base + 625];
    assert PadCarriesAudio(LATE_STORE[round], 625, 640);
  }

  /** Ticks shorter than the cushion are not enough. With a cushion of 30 and a tick of 27 frames, the first top-up sends
      frames 600 to 630; the next boundary drops the ten frames left in the pad, so the second top-up goes on from frame
      640, and no underrun is counted. */
  lemma TicksWithinTheCushionCanLoseFrames()
    ensures LATE_GRID.Ok() && Ok(NewFeeder(30, 10))
    ensures var (p, cs) := Started(NewFeeder(30, 10), LATE_GRID, 7, LATE_FIRST); var (q, ds) := TickStep(p, LATE_GRID, LATE_SECOND);
            && Elapsed(LATE_GRID, LATE_FIRST.beat, LATE_SECOND.beat) < p.f.cushion as real
            && !InReach(p.f, LATE_GRID, p.index, LATE_FIRST.beat, LATE_SECOND.beat)
            && Joined(cs) == LATE_STREAM[600..630] && Joined(ds) == LATE_STREAM[640..657]
            && q.round == 8 && q.f.underrunFrames == 0 && q.f.underrunEvents == 0
  {
    hide Config.IndexAtBeat, Grid.PlayAt, Grid.Frames, Grid.Padded, Advance, Joined, Config.WindowStart, Config.WindowEnd, Grid.Ok,
      Boundary, Ready;
    LateFirst();
    LateGridFacts();
    var g, s := LATE_GRID, LATE_STREAM;
    var p := Started(NewFeeder(30, 10), g, 7, LATE_FIRST).0;
    var f1 := Boundary(p.f, g, 8, 1);
    LateAdopts(p.f);
    LatePad(8, 1, 625);
    assert Carries(LATE_STORE[8], s, 625, 32);
    TickEmits(f1, g, 8, 1, LATE_SECOND.beat, LATE_STORE, s, 625);
    LateFront(Advance(f1, LATE_SECOND.beat, LATE_STORE).0);
  }

  /** The boundary promotes a reader standing at frame 15, past the playhead of frame 2. */
  lemma LateAdopts(f: Feeder)
    requires Topped(f, LATE_GRID, 7, 0, 600) && f.cushion == 30 && f.nextStart == 15
    ensures var f1 := Boundary(f, LATE_GRID, 8, 1);
            && Ready(f1, LATE_GRID, 8, 1, 2) && f1.next.None? && f1.cur.value.cursor == 15 && f1.cushion == 30
            && f1.underrunFrames == f.underrunFrames && f1.underrunEvents == f.underrunEvents
            && InStream(f1, LATE_GRID, LATE_STREAM, 625) && StartOf(f1, LATE_GRID, 625, 2) == 640
  {
    LateGridFacts();
    WindowsAbut(LATE_GRID, 0);
    hide Grid.Frames, Grid.Padded, Config.WindowStart, Config.WindowEnd, Reader.Rebase;
  }

  lemma LateFront(f: Feeder)
    requires Topped(f, LATE_GRID, 8, 1, 2) && f.cushion == 30
    ensures Front(f, LATE_GRID, 625) == 657
  {
    LateGridFacts();
    hide Grid.Frames, Grid.Padded, Config.WindowStart, Config.WindowEnd;
  }
}
