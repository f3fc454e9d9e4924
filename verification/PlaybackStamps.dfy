/** The beat stamps of a whole playback (audio_engine_real.go, topUpSinks; feeder.go, pacedreader.go): chunk after chunk,
    across every boundary, each stamp continues the last to within half a frame. */
module PlaybackStamps {
  import opened Common
  import opened Audio
  import opened Interval
  import opened PacedReader
  import opened FeederModel
  import opened FeederRuns
  import opened FeederBooks
  import opened Playback
  import opened PlaybackRuns
  import opened PlaybackLoss

  /** The beat of a frame of the round played in local interval i. */
  function Stamp(g: Grid, i: int, frame: int): real
    requires g.rate > 0
  {
    IntervalReader(g.cfg, g.rate, g.tempo, i).BeatAt(frame)
  }

  /** The beats that n frames last. */
  function Beats(g: Grid, n: int): real
    requires g.rate > 0
  {
    n as real / g.rate as real * g.tempo / 60.0
  }

  function EndOf(c: Chunk): nat {
    c.frame + |c.samples|
  }

  /** d begins, to within half a frame, at the beat where c ends. */
  predicate Meets(g: Grid, c: Chunk, d: Chunk)
    requires g.rate > 0
  {
    var half := 0.5 / g.rate as real * g.tempo / 60.0;
    -half <= d.beat - (c.beat + Beats(g, |c.samples|)) <= half
  }

  predicate Meeting(g: Grid, cs: seq<Chunk>)
    requires g.rate > 0
  {
    forall j :: 0 < j < |cs| ==> Meets(g, cs[j - 1], cs[j])
  }

  /** A chunk of a round played k local intervals after its own index, stamped with the beat of its first frame. */
  predicate Stamped(c: Chunk, g: Grid, k: int)
    requires g.rate > 0
  {
    c.beat == Stamp(g, c.round + k, c.frame) && 0 < |c.samples| && EndOf(c) <= g.Padded()
  }

  // ---------------------------------------------------------------- two chunks

  lemma StampAdds(g: Grid, i: int, frame: int, n: int)
    requires g.Ok() && g.rate > 0
    ensures Stamp(g, i, frame + n) == Stamp(g, i, frame) + Beats(g, n)
  {
    hide Config.WindowStart, Config.IntervalSamples;
    var r := IntervalReader(g.cfg, g.rate, g.tempo, i);
    SpanAdds(r, frame, n);
    assert r.BeatAt(frame + n) == r.baseBeat + PacedReader.Span(r, frame + n) && r.BeatAt(frame) == r.baseBeat + PacedReader.Span(r, frame);
  }

  /** Frame Frames + pad of one interval and frame pad of the next are stamped alike, to within half a frame. */
  lemma StampsAcross(g: Grid, i: int, pad: nat)
    requires g.Ok() && g.rate > 0
    ensures var half := 0.5 / g.rate as real * g.tempo / 60.0;
            -half <= Stamp(g, i, g.Frames() + pad) - Stamp(g, i + 1, pad) <= half
  {
    hide Config.WindowStart, Config.IntervalSamples, Reader.BeatAt;
    BoundaryStampsMeet(g.cfg, g.rate, g.tempo, i, pad);
  }

  /** Two chunks that follow each other in the stream lie in the same round or in neighbouring ones. */
  lemma NeighbouringRounds(frames: nat, padded: nat, delta: int, a: nat, b: nat)
    requires padded < 2 * frames && a <= padded && b <= padded && delta * frames + b == a
    ensures -1 <= delta <= 1
  {
    assert (-delta) * frames == -(delta * frames);
    if delta >= 2 {
      MulIncreasing(2, delta, frames);
    } else if delta <= -2 {
      MulIncreasing(2, -delta, frames);
    }
  }

  lemma PaddedBelowTwo(g: Grid)
    requires g.Ok()
    ensures g.Padded() < 2 * g.Frames() && g.rate > 0
  {
    hide Config.IntervalSamples;
    GridFacts(g);
  }

  /** So they meet. */
  lemma NextMeets(c: Chunk, d: Chunk, g: Grid, k: int)
    requires g.Ok() && g.rate > 0 && Stamped(c, g, k) && Stamped(d, g, k)
    requires (d.round - c.round) * g.Frames() + d.frame == EndOf(c)
    ensures Meets(g, c, d)
  {
    hide Stamp, Beats, Grid.Frames, Grid.Padded;
    PaddedBelowTwo(g);
    var delta := d.round - c.round;
    NeighbouringRounds(g.Frames(), g.Padded(), delta, EndOf(c), d.frame);
    StampAdds(g, c.round + k, c.frame, |c.samples|);
    NoBeats(g);
    if delta == 1 {
      assert g.Frames() + d.frame == c.frame + |c.samples|;
      StampsAcross(g, c.round + k, d.frame);
    } else if delta == -1 {
      assert d.frame == g.Frames() + EndOf(c);
      StampsAcross(g, d.round + k, EndOf(c));
    } else {
      assert delta * g.Frames() == 0;
    }
  }

  lemma NoBeats(g: Grid)
    requires g.Ok() && g.rate > 0
    ensures 0.5 / g.rate as real * g.tempo / 60.0 >= 0.0
  {
    var h := 0.5 / g.rate as real;
    assert h * g.rate as real == 0.5;
    assert h > 0.0;
    MulMonotone(0.0, h, g.tempo);
  }

  // ---------------------------------------------------------------- a run of chunks

  /** Where a chunk lies in the stream, frame 0 of round 0 being at o. */
  function PosOf(c: Chunk, g: Grid, o: int): int {
    o + c.round * g.Frames() + c.frame
  }

  /** Stamped chunks that cover stream positions [lo, hi) in order, without gap or overlap. */
  predicate Chained(cs: seq<Chunk>, g: Grid, k: int, o: int, lo: int, hi: int)
    requires g.rate > 0
    decreases |cs|
  {
    if cs == [] then
      lo == hi
    else
      Stamped(cs[0], g, k) && PosOf(cs[0], g, o) == lo && Chained(cs[1..], g, k, o, lo + |cs[0].samples|, hi)
  }

  lemma {:induction false} ChainedJoin(u: seq<Chunk>, v: seq<Chunk>, g: Grid, k: int, o: int, lo: int, mid: int, hi: int)
    requires g.rate > 0 && Chained(u, g, k, o, lo, mid) && Chained(v, g, k, o, mid, hi)
    ensures Chained(u + v, g, k, o, lo, hi)
    decreases |u|
  {
    hide Stamped, PosOf;
    if u == [] {
      assert u + v == v;
    } else {
      assert (u + v)[1..] == u[1..] + v;
      ChainedJoin(u[1..], v, g, k, o, lo + |u[0].samples|, mid, hi);
    }
  }

  lemma {:induction false} ChainedMeets(cs: seq<Chunk>, g: Grid, k: int, o: int, lo: int, hi: int)
    requires g.Ok() && g.rate > 0 && Chained(cs, g, k, o, lo, hi)
    ensures Meeting(g, cs)
    decreases |cs|
  {
    hide Stamped, Meets, Grid.Frames;
    if |cs| > 1 {
      var c, d := cs[0], cs[1];
      ChainedMeets(cs[1..], g, k, o, lo + |c.samples|, hi);
      assert cs[1..][0] == d;
      assert (d.round - c.round) * g.Frames() == d.round * g.Frames() - c.round * g.Frames();
      NextMeets(c, d, g, k);
      forall j | 0 < j < |cs|
        ensures Meets(g, cs[j - 1], cs[j])
      {
        if j > 1 {
          assert cs[j - 1] == cs[1..][j - 2] && cs[j] == cs[1..][j - 1];
        }
      }
    }
  }

  // ---------------------------------------------------------------- one tick

  lemma {:induction false} LengthBound(spans: seq<Span>, lo: int, hi: int)
    requires Ordered(spans, lo, hi) && lo <= hi
    ensures Length(spans) <= hi - lo
    decreases |spans|
  {
    if spans != [] {
      RestOrdered(spans, lo, hi);
      LengthBound(spans[1..], spans[0].to, hi);
    }
  }

  lemma RestOrdered(spans: seq<Span>, lo: int, hi: int)
    requires Ordered(spans, lo, hi) && spans != []
    ensures Ordered(spans[1..], spans[0].to, hi) && lo <= spans[0].from < spans[0].to <= hi
  {
    var rest := spans[1..];
    forall i | 0 <= i < |rest|
      ensures spans[0].to <= rest[i].from
    {
      assert rest[i] == spans[i + 1];
    }
  }

  /** Ordered spans as long together as the stretch they lie in leave no gap. */
  lemma {:induction false} TilesChain(cs: seq<Chunk>, st: State, g: Grid, k: int, o: int, lo: int, hi: int)
    requires g.rate > 0 && st.f.cur.Some? && lo <= hi
    requires Ordered(SpansOf(cs, st), lo, hi) && Length(SpansOf(cs, st)) == hi - lo
    requires forall c <- cs :: Stamped(c, g, k) && SpanOf(c, st).from == PosOf(c, g, o)
    ensures Chained(cs, g, k, o, lo, hi)
    decreases |cs|
  {
    hide Stamped, PosOf;
    if cs != [] {
      var spans := SpansOf(cs, st);
      RestOrdered(spans, lo, hi);
      assert spans[1..] == SpansOf(cs[1..], st);
      LengthBound(spans[1..], spans[0].to, hi);
      assert spans[0] == SpanOf(cs[0], st) && spans[0].to == spans[0].from + |cs[0].samples|;
      TilesChain(cs[1..], st, g, k, o, spans[0].to, hi);
    }
  }

  /** What a reader of a round sends is stamped on the grid. */
  lemma FillStamped(r: Reader, g: Grid, round: int, index: int, play: int, target: int, n: nat, src: seq<Frame>)
    requires g.Ok() && g.rate > 0 && n >= 1
    requires r == New(g.rate, g.tempo, g.cfg.WindowStart(index), r.total).(cursor := r.cursor) && r.total <= g.Padded()
    ensures forall c <- Fill(r, round, play, target, n, src).chunks :: c.round == round && Stamped(c, g, index - round)
  {
    hide Config.WindowStart, Config.IntervalSamples, Grid.Padded, Chunks;
    var from, to := FillFrom(r, play), FillTo(r, play, target);
    ChunksCover(r, round, from, to, n, src);
    forall c | c in Chunks(r, round, from, to, n, src)
      ensures c.round == round && Stamped(c, g, index - round)
    {
      assert ChunkOk(c, r, round, from, to, n, src);
      SameStamp(r, g, index, c.frame);
    }
  }

  lemma SameStamp(r: Reader, g: Grid, index: int, frame: int)
    requires g.rate > 0 && r.rate == g.rate && r.tempoBPM == g.tempo && r.baseBeat == g.cfg.WindowStart(index) && r.baseFrame == 0
    ensures r.BeatAt(frame) == Stamp(g, index, frame)
  {
    hide Config.WindowStart, Config.IntervalSamples;
  }

  predicate AllStamped(cs: seq<Chunk>, g: Grid, round: int, index: int)
    requires g.rate > 0
  {
    forall c <- cs :: (c.round == round || c.round == round + 1) && Stamped(c, g, index - round)
  }

  lemma CurStamped(f: Feeder, g: Grid, round: int, index: int, play: nat, store: Store)
    requires g.Ok() && g.rate > 0 && Shape(f, g, round, index)
    ensures var (f1, cs) := FillCur(f, play, store);
            && AllStamped(cs, g, round, index) && Shape(f1, g, round, index)
            && f1.next == f.next && f1.nextStart == f.nextStart && f1.makeNext == f.makeNext && f1.cushion == f.cushion
  {
    hide Config.WindowStart, Config.WindowEnd, Config.IntervalSamples, Grid.Padded, Stamped, Chunks, FillFrom, FillTo;
    PadFitsIn(g);
    FillStamped(f.cur.value, g, round, index, play, play + f.cushion, f.chunk, Pcm(store, round));
  }

  lemma PadFitsIn(g: Grid)
    requires g.Ok()
    ensures g.Frames() <= g.Padded() == g.Frames() + g.Pad()
  {
    hide Config.IntervalSamples;
    GridFacts(g);
  }

  lemma NextStamped(f: Feeder, g: Grid, round: int, index: int, play: nat, store: Store)
    requires g.Ok() && g.rate > 0 && Shape(f, g, round, index) && f.next.Some?
    ensures AllStamped(FillNext(f, play, store).1, g, round, index)
  {
    hide Config.WindowStart, Config.WindowEnd, Config.IntervalSamples, Grid.Padded, Stamped, Chunks, FillFrom, FillTo;
    PadFitsIn(g);
    WindowsAbut(g, index);
    var over := play + f.cushion - f.cur.value.total;
    if over > 0 {
      var overPlay := Max(play - f.cur.value.total, 0);
      FillStamped(f.next.value, g, round + 1, index + 1, f.nextStart + overPlay, f.nextStart + over, f.chunk, Pcm(store, round + 1));
    }
  }

  lemma PreRollKeepsShape(f: Feeder, g: Grid, round: int, index: int, store: Store)
    requires g.Ok() && Shape(f, g, round, index) && f.next.None? && f.cur.value.cursor <= g.Frames()
    ensures var f1 := PreRoll(f, f.makeNext.value, store); Shape(f1, g, round, index) && f1.next.Some? && f1.cushion == f.cushion
  {
    hide HandoffStart;
    PreRollShape(f, g, round, index, store);
  }

  /** Everything a tick sends is stamped on the grid. */
  lemma AdvanceStamped(f: Feeder, g: Grid, round: int, index: int, beat: real, store: Store)
    requires g.Ok() && g.rate > 0 && Shape(f, g, round, index) && f.cur.value.cursor <= f.cur.value.total
    ensures AllStamped(Advance(f, beat, store).1, g, round, index)
  {
    hide Shape, FillCur, FillNext, PreRoll, Stamped, Play, Advance, Grid.Frames, Grid.Ok;
    ShapeOk(f, g, round, index);
    var play := Play(f, beat);
    AdvanceIsSteps(f, beat, store);
    var t := StepsOf(f, play, store);
    CurStamped(f, g, round, index, play, store);
    ShapeOk(t.f1, g, round, index);
    if play + f.cushion <= t.f1.cur.value.total || (t.f1.next.None? && t.f1.makeNext.None?) {
    } else if t.f1.next.Some? {
      NextStamped(t.f1, g, round, index, play, store);
    } else {
      CurStays(f, play, store);
      PreRollKeepsShape(t.f1, g, round, index, store);
      var f2 := PreRoll(t.f1, t.f1.makeNext.value, store);
      ShapeOk(f2, g, round, index);
      CurStamped(f2, g, round, index, play, store);
      ShapeOk(t.f2, g, round, index);
      NextStamped(t.f2, g, round, index, play, store);
    }
  }

  lemma CurStays(f: Feeder, play: nat, store: Store)
    requires Ok(f) && f.cur.Some? && f.cur.value.cursor <= f.cur.value.total
    ensures var f1 := FillCur(f, play, store).0;
            f1.cur.Some? && f1.cur.value.cursor <= f1.cur.value.total == f.cur.value.total
  {
    hide Chunks, Reader.BeatAt;
  }

  lemma ShapeOk(f: Feeder, g: Grid, round: int, index: int)
    requires Shape(f, g, round, index)
    ensures Ok(f) && f.cur.Some? && f.curIdx == round && (f.next.None? ==> f.cur.value.total == g.Frames())
  {
  }

  /** A tick's chunks, given where its spans lie and how long they are together, chain. */
  lemma SpansChain(p1: Player, cs: seq<Chunk>, g: Grid, index: int, d: int, lo: int)
    requires Sound(p1, g, d) && g.Ok() && g.rate > 0 && p1.f.cur.Some? && AllStamped(cs, g, p1.round, index)
    requires lo <= Committed(State(p1.f, d)) && Ordered(SpansOf(cs, State(p1.f, d)), lo, Committed(State(p1.f, d)))
    requires |Joined(cs)| == Committed(State(p1.f, d)) - lo
    ensures Chained(cs, g, index - p1.round, d - p1.round * g.Frames(), lo, Committed(State(p1.f, d)))
  {
    hide Stamped, Grid.Frames, Ordered, SpansOf, Committed, Grid.Ok, Joined, Inv;
    var st, o := State(p1.f, d), d - p1.round * g.Frames();
    SpansLength(cs, st);
    forall c | c in cs
      ensures Stamped(c, g, index - p1.round) && SpanOf(c, st).from == PosOf(c, g, o)
    {
      assert (p1.round + 1) * g.Frames() == p1.round * g.Frames() + g.Frames();
    }
    TilesChain(cs, st, g, index - p1.round, o, lo, Committed(st));
  }

  /** One tick of a run in cadence. */
  lemma TickChained(p: Player, g: Grid, s: seq<Frame>, base: int, b: real, t: Tick)
    requires At(p, g, s, base, b) && g.Ok() && g.rate > 0 && Ok(p.f) && p.f.cur.Some?
    requires InReach(p.f, g, p.index, b, t.beat) && SuppliedAt(p, g, s, base, t)
    ensures var (q, cs) := TickStep(p, g, t);
            Chained(cs, g, p.index - p.round, base - p.round * g.Frames(),
                    Front(p.f, g, base), Front(q.f, g, BaseAt(p, g, base, t.beat)))
  {
    hide Grid.Frames, Grid.Ok, Config.IndexAtBeat, Grid.PlayAt, At, Sound, Front, Advance, AtTick, InReach, SuppliedAt, Joined, Committed,
      Ordered, SpansOf, AllStamped, Chained;
    TickGoesOn(p, g, s, base, b, t);
    AtIsSound(p, g, s, base, b);
    TickIsSafe(p, g, base, t);
    var (q, cs) := TickStep(p, g, t);
    var d := BaseAt(p, g, base, t.beat);
    AtIsSound(q, g, s, d, t.beat);
    TickAllStamped(p, g, s, base, b, t);
    AtOk(q, g, s, d, t.beat);
    StepRound(p, g, t);
    assert d - q.round * g.Frames() == base - p.round * g.Frames() by {
      Distribute(q.round - p.round, p.round, g.Frames());
    }
    SpansChain(q, cs, g, q.index, d, Front(p.f, g, base));
  }

  lemma TickAllStamped(p: Player, g: Grid, s: seq<Frame>, base: int, b: real, t: Tick)
    requires At(p, g, s, base, b) && g.Ok() && g.rate > 0 && Ok(p.f) && p.f.cur.Some?
    requires InReach(p.f, g, p.index, b, t.beat) && SuppliedAt(p, g, s, base, t)
    ensures var (q, cs) := TickStep(p, g, t); AllStamped(cs, g, q.round, q.index)
  {
    hide Grid.Frames, Grid.Ok, Config.IndexAtBeat, Grid.PlayAt, Advance, InReach, SuppliedAt, AllStamped, Boundary, Topped, Ready, Shape,
      Front, StartOf;
    ReachIndex(p.f, g, p.index, b, t.beat);
    var i := g.cfg.IndexAtBeat(t.beat);
    ExactInside(g, t.beat, i);
    AtTickOk(p, g, t.beat);
    if i == p.index {
      StaysReady(p.f, g, p.round, p.index, b, t.beat);
      ReadyShape(p.f, g, p.round, p.index, g.PlayAt(t.beat, i));
      AdvanceStamped(p.f, g, p.round, p.index, t.beat, t.store);
    } else {
      HandsOver(p.f, g, p.round, p.index, b, t.beat, base);
      var f1 := Boundary(p.f, g, p.round + 1, i);
      ReadyShape(f1, g, p.round + 1, i, g.PlayAt(t.beat, i));
      AdvanceStamped(f1, g, p.round + 1, i, t.beat, t.store);
    }
  }

  lemma ReadyShape(f: Feeder, g: Grid, round: int, index: int, play: int)
    requires Ready(f, g, round, index, play)
    ensures Shape(f, g, round, index) && f.cur.value.cursor <= f.cur.value.total
  {
  }

  // ---------------------------------------------------------------- runs

  lemma {:induction false} RunChained(p: Player, g: Grid, s: seq<Frame>, base: int, b: real, ticks: seq<Tick>) returns (d: int)
    requires At(p, g, s, base, b) && g.Ok() && g.rate > 0 && Ok(p.f) && p.f.cur.Some?
    requires Cadence(p, g, b, ticks) && Supplied(p, g, s, base, ticks)
    ensures var (q, cs) := Played(p, g, ticks);
            Chained(cs, g, p.index - p.round, base - p.round * g.Frames(), Front(p.f, g, base), Front(q.f, g, d))
    decreases |ticks|
  {
    hide Grid.Frames, Grid.Ok, At, Front, TickStep, InReach, SuppliedAt, BaseAt, Stamped, PosOf;
    d := base;
    if ticks != [] {
      var t := ticks[0];
      TickGoesOn(p, g, s, base, b, t);
      TickChained(p, g, s, base, b, t);
      var (p1, cs) := TickStep(p, g, t);
      var d1 := BaseAt(p, g, base, t.beat);
      BaseMoves(p, g, base, t);
      d := RunChained(p1, g, s, d1, t.beat, ticks[1..]);
      Distribute(p1.round - p.round, p.round, g.Frames());
      var (q, rest) := Played(p1, g, ticks[1..]);
      ChainedJoin(cs, rest, g, p.index - p.round, base - p.round * g.Frames(), Front(p.f, g, base), Front(p1.f, g, d1), Front(q.f, g, d));
    }
  }

  /** The first top-up, from the playhead on. */
  lemma StartChained(f: Feeder, g: Grid, round: int, t: Tick, s: seq<Frame>, base: int)
    requires g.Ok() && g.rate > 0 && Ok(f) && !Promotes(f, round) && 0 <= base && FirstSupplied(f, g, round, t, s, base)
    ensures var (p, cs) := Started(f, g, round, t);
            Chained(cs, g, p.index - round, base - round * g.Frames(), base + g.PlayAt(t.beat, p.index), Front(p.f, g, base))
  {
    hide Grid.Ok, Config.IndexAtBeat, Grid.PlayAt, At, Sound, Front, Advance, Boundary, FirstSupplied, Joined, Committed,
      Ordered, SpansOf,
      AllStamped, Chained, Shape, Play;
    FirstTick(f, g, round, t, s, base);
    var (p, cs) := Started(f, g, round, t);
    var i := p.index;
    var f1 := Boundary(f, g, round, i);
    AtIsSound(p, g, s, base, t.beat);
    AtOk(p, g, s, base, t.beat);
    FreshFacts(f, g, round, t.beat, base);
    AdvanceStamped(f1, g, round, i, t.beat, t.store);
    AdvanceIsSafe(State(f1, base), t.beat, t.store);
    FromPlayhead(cs, State(p.f, base), g.PlayAt(t.beat, i), base);
    SpansChain(p, cs, g, i, base, base + g.PlayAt(t.beat, i));
  }

  lemma FreshFacts(f: Feeder, g: Grid, round: int, beat: real, base: int)
    requires g.Ok() && Ok(f) && !Promotes(f, round)
    ensures var i := g.cfg.IndexAtBeat(beat); var f1 := Boundary(f, g, round, i);
            && Shape(f1, g, round, i) && f1.cur.value.cursor <= f1.cur.value.total && Past(f1) == 0
            && Inv(State(f1, base)) && Play(f1, beat) == g.PlayAt(beat, i) && 0 <= g.PlayAt(beat, i)
  {
    hide Config.IndexAtBeat, Config.IntervalSamples, Config.WindowStart, Config.WindowEnd, Grid.Padded, Grid.PlayAt, Reader.FrameAtBeat;
    var i := g.cfg.IndexAtBeat(beat);
    GridFacts(g);
    ExactInside(g, beat, i);
    PlayIsGridPlay(g, Boundary(f, g, round, i).cur.value, beat, i);
  }

  lemma FromPlayhead(cs: seq<Chunk>, st: State, play: nat, base: int)
    requires st.f.cur.Some? && st.base == base && InCushion(cs, st, play, 0)
    requires exists lo :: Ordered(SpansOf(cs, st), lo, Committed(st))
    ensures Ordered(SpansOf(cs, st), base + play, Committed(st))
  {
    var spans := SpansOf(cs, st);
    forall i | 0 <= i < |spans|
      ensures base + play <= spans[i].from
    {
      assert spans[i] == SpanOf(cs[i], st);
    }
  }

  /** NO SPLICE ON THE TIMELINE. In a whole playback in cadence, over any number of boundaries, every chunk is stamped to
      within half a frame with the beat at which the chunk before it ends. */
  lemma WholeRunStampsMeet(f: Feeder, g: Grid, round: int, t: Tick, rest: seq<Tick>, s: seq<Frame>, base: int)
    requires g.Ok() && g.rate > 0 && Ok(f) && !Promotes(f, round) && 0 <= base && FirstSupplied(f, g, round, t, s, base)
    requires var p := Started(f, g, round, t).0; Cadence(p, g, t.beat, rest) && Supplied(p, g, s, base, rest)
    ensures var (p, cs) := Started(f, g, round, t); Meeting(g, cs + Played(p, g, rest).1)
  {
    hide Grid.Ok, Grid.Frames, Grid.PlayAt, Config.IndexAtBeat, At, Front, Advance, Boundary, FirstSupplied, Cadence, Supplied,
      Played, Chained,
      Meeting;
    FirstTick(f, g, round, t, s, base);
    StartChained(f, g, round, t, s, base);
    var (p, cs) := Started(f, g, round, t);
    var d := RunChained(p, g, s, base, t.beat, rest);
    var (q, ds) := Played(p, g, rest);
    var k, o := p.index - round, base - round * g.Frames();
    ChainedJoin(cs, ds, g, k, o, base + g.PlayAt(t.beat, p.index), Front(p.f, g, base), Front(q.f, g, d));
    ChainedMeets(cs + ds, g, k, o, base + g.PlayAt(t.beat, p.index), Front(q.f, g, d));
  }
}
