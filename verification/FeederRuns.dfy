/** Safety of the feeder over any run: every stream position goes to the sink at most once, in increasing order, and
    never outside the cushion ahead of the playhead. */
module FeederRuns {
  import opened Common
  import opened Audio
  import opened Interval
  import opened PacedReader
  import opened FeederModel

  /** What drives a feeder between SetCurrent calls: ticks, boundaries that adopt the pre-rolled reader (re-anchored
      if the tempo has moved since pre-roll), and live cushion changes. */
  datatype Event =
    | Tick(nowBeat: real, store: Store)
    | Adopt(idx: int, makeNext: Handoff)
    | Cushion(frames: int)

  /** The promoted reader, rebased when the tempo has changed since it was built. */
  function Adopted(f: Feeder, idx: int, h: Handoff): Feeder
    requires Ok(f)
  {
    var g := Promote(f, idx, Some(h));
    if Promotes(f, idx) && g.cur.value.tempoBPM != h.tempo
    then g.(cur := Some(g.cur.value.Rebase(h.tempo, h.totalFrames)))
    else g
  }

  /** q goes on for r at a handover: nothing it has still to send is lost or sent again, and the stamp where it stands is
      the one r had reached; from there its stamps run at h's tempo. Where that is a new tempo, h's length holds too. */
  ghost predicate TakesOver(q: Reader, r: Reader, h: Handoff)
    requires q.Ok() && r.Ok()
  {
    && q.rate == r.rate && q.cursor == r.cursor && q.BeatAt(q.cursor) == r.BeatAt(r.cursor)
    && (h.tempo > 0.0 ==>
          && q.tempoBPM == h.tempo
          && forall frame: int :: q.BeatAt(frame)
               == r.BeatAt(r.cursor) + (frame - r.cursor) as real / r.rate as real * h.tempo / 60.0)
    && (if r.tempoBPM == h.tempo then q == r else q.total == if h.totalFrames > 0 then h.totalFrames else r.total)
  }

  lemma RebaseTakesOver(r: Reader, h: Handoff)
    requires r.Ok()
    ensures TakesOver(if r.tempoBPM != h.tempo then r.Rebase(h.tempo, h.totalFrames) else r, r, h)
  {
    if r.tempoBPM != h.tempo {
      RebaseKeepsStamp(r, h.tempo, h.totalFrames);
    } else if h.tempo > 0.0 {
      forall frame: int
        ensures r.BeatAt(frame) == r.BeatAt(r.cursor) + (frame - r.cursor) as real / r.rate as real * h.tempo / 60.0
      {
        SpanAdds(r, r.cursor - r.baseFrame, frame - r.cursor);
      }
    }
  }

  /** An adopting handover: the pre-rolled reader goes on for itself at the boundary's tempo. */
  lemma AdoptionTakesOver(f: Feeder, idx: int, h: Handoff)
    requires Ok(f) && Promotes(f, idx)
    ensures var g := Adopted(f, idx, h);
            && g.cur.Some? && g.cur.value.Ok() && TakesOver(g.cur.value, f.next.value, h)
            && g.curIdx == idx && g.next.None? && g.makeNext == Some(h)
            && g.cushion == f.cushion && g.underrunFrames == f.underrunFrames && g.underrunEvents == f.underrunEvents
  {
    hide TakesOver;
    RebaseTakesOver(f.next.value, h);
  }

  // ---------------------------------------------------------------- stream positions

  /** A feeder with the stream position of frame 0 of its current round. */
  datatype State = State(f: Feeder, base: int)

  /** The stream position of frame 0 of the next round: its start frame follows the current round's last one, or the
      cursor, where a rebase has shortened the round to less than what is already out. */
  function NextBase(s: State): int
    requires s.f.cur.Some?
  {
    s.base + Max(s.f.cur.value.total, s.f.cur.value.cursor) - s.f.nextStart
  }

  datatype Span = Span(from: int, to: int)

  /** Where a chunk lies in the stream. */
  function SpanOf(c: Chunk, s: State): Span
    requires s.f.cur.Some?
  {
    var b := if c.round == s.f.curIdx then s.base else NextBase(s);
    Span(b + c.frame, b + c.frame + |c.samples|)
  }

  function SpansOf(cs: seq<Chunk>, s: State): (r: seq<Span>)
    requires s.f.cur.Some?
    ensures |r| == |cs|
    ensures forall i :: 0 <= i < |cs| ==> r[i] == SpanOf(cs[i], s)
  {
    seq(|cs|, i requires 0 <= i < |cs| => SpanOf(cs[i], s))
  }

  /** Nonempty stretches within [lo, hi), each starting no earlier than the one before it ended. */
  predicate Ordered(spans: seq<Span>, lo: int, hi: int) {
    && (forall i :: 0 <= i < |spans| ==> lo <= spans[i].from < spans[i].to <= hi)
    && (forall i, j :: 0 <= i < j < |spans| ==> spans[i].to <= spans[j].from)
  }

  lemma OrderedJoin(u: seq<Span>, v: seq<Span>, lo: int, mid: int, hi: int)
    requires Ordered(u, lo, mid) && Ordered(v, mid, hi) && lo <= mid <= hi
    ensures Ordered(u + v, lo, hi)
  {
    var w := u + v;
    forall i, j | 0 <= i < j < |w|
      ensures w[i].to <= w[j].from
    {
      if i >= |u| {
        assert w[i] == v[i - |u|] && w[j] == v[j - |u|];
      }
    }
  }

  lemma {:induction false} CoversOrdered(cs: seq<Chunk>, round: int, from: nat, to: nat, s: State, b: int)
    requires Covers(cs, round, from, to) && s.f.cur.Some? && from <= to
    requires b == if round == s.f.curIdx then s.base else NextBase(s)
    ensures Ordered(SpansOf(cs, s), b + from, b + to)
    decreases |cs|
  {
    if cs != [] {
      var mid := from + |cs[0].samples|;
      CoversOrdered(cs[1..], round, mid, to, s, b);
      assert SpansOf(cs, s) == [SpanOf(cs[0], s)] + SpansOf(cs[1..], s);
      OrderedJoin([SpanOf(cs[0], s)], SpansOf(cs[1..], s), b + from, b + mid, b + to);
    }
  }

  // ---------------------------------------------------------------- the invariant

  /** The pre-rolled reader has moved past its start frame. */
  predicate NextMoved(f: Feeder) {
    f.next.Some? && f.next.value.cursor > f.nextStart
  }

  /** The end of what has been committed to the sink. */
  function Committed(s: State): int
    requires s.f.cur.Some?
  {
    if NextMoved(s.f) then NextBase(s) + s.f.next.value.cursor else s.base + s.f.cur.value.cursor
  }

  /** The padding is no longer than an interval: so it is whenever intervals hold at least one window. */
  predicate PadFits(h: Handoff) {
    h.paddedFrames <= 2 * h.totalFrames
  }

  ghost predicate Inv(s: State) {
    var f := s.f;
    && Ok(f) && f.cur.Some?
    && (f.makeNext.Some? ==> f.makeNext.value.round == f.curIdx && PadFits(f.makeNext.value))
    && (f.next.Some? ==>
          && f.nextIdx == f.curIdx + 1
          && f.next.value.cursor <= f.next.value.total
          && f.nextStart <= f.next.value.cursor)
    && (NextMoved(f) ==> f.cur.value.cursor >= f.cur.value.total)
  }

  /** How far the current reader stands past its own end, as a rebase can leave it. */
  function Past(f: Feeder): nat
    requires f.cur.Some?
  {
    Max(f.cur.value.cursor - f.cur.value.total, 0)
  }

  predicate Within(x: Span, lo: int, hi: int) {
    lo <= x.from && x.to <= hi
  }

  /** The output lies in [play, play + cushion) of the stream, shifted on by at most `past`. */
  predicate InCushion(cs: seq<Chunk>, s: State, play: nat, past: nat)
    requires s.f.cur.Some?
  {
    forall c <- cs :: Within(SpanOf(c, s), s.base + play, s.base + play + s.f.cushion + past)
  }

  predicate AllOf(cs: seq<Chunk>, round: int) {
    forall c <- cs :: c.round == round
  }

  lemma FillCurSafe(s: State, play: nat, store: Store, past: nat)
    requires Inv(s)
    ensures var (f1, cs) := FillCur(s.f, play, store); var s1 := State(f1, s.base);
            && Inv(s1) && Committed(s) <= Committed(s1) && AllOf(cs, s.f.curIdx)
            && Ordered(SpansOf(cs, s1), Committed(s), Committed(s1)) && InCushion(cs, s1, play, past)
            && f1 == s.f.(cur := f1.cur, underrunEvents := f1.underrunEvents, underrunFrames := f1.underrunFrames)
            && f1.cur.value == s.f.cur.value.(cursor := f1.cur.value.cursor)
            && f1.cur.value.cursor >= Min(play + s.f.cushion, s.f.cur.value.total)
            && Past(f1) == Past(s.f)
  {
    hide Reader.BeatAt, Inv, Committed, Ordered, SpansOf, Chunks, FillFrom, FillTo;
    InvCur(s);
    var r := s.f.cur.value;
    var from, to := FillFrom(r, play), FillTo(r, play, play + s.f.cushion);
    CurRange(s, play);
    ChunksCover(r, s.f.curIdx, from, to, s.f.chunk, Pcm(store, s.f.curIdx));
    var (f1, cs) := FillCur(s.f, play, store);
    var s1 := State(f1, s.base);
    CurMovedSafe(s, to, f1.underrunEvents, f1.underrunFrames);
    CoversOrdered(cs, s.f.curIdx, from, to, s1, s.base);
    CurOrdered(cs, s, s1, from, to, play, past);
  }

  lemma InvCur(s: State)
    requires Inv(s)
    ensures Ok(s.f) && s.f.cur.Some?
  {
  }

  /** Where filling the current reader starts and ends. */
  lemma CurRange(s: State, play: nat)
    requires Inv(s)
    ensures var f, r := s.f, s.f.cur.value; var from, to := FillFrom(r, play), FillTo(r, play, play + s.f.cushion);
            && r.cursor <= from <= to <= Max(r.total, r.cursor) && to >= Min(play + f.cushion, r.total)
            && (from < to ==> to <= r.total && Committed(s) <= s.base + from && play <= from && to <= play + f.cushion)
  {
  }

  /** The state after the current reader has moved to `to`. */
  lemma CurMovedSafe(s: State, to: nat, events: nat, frames: nat)
    requires Inv(s) && s.f.cur.value.cursor <= to <= Max(s.f.cur.value.total, s.f.cur.value.cursor)
    ensures var f1 := s.f.(cur := Some(s.f.cur.value.(cursor := to)), underrunEvents := events, underrunFrames := frames);
            Inv(State(f1, s.base)) && Committed(s) <= Committed(State(f1, s.base))
            && (s.f.cur.value.cursor < to ==> Committed(State(f1, s.base)) == s.base + to)
  {
  }

  lemma CurOrdered(cs: seq<Chunk>, s: State, s1: State, from: nat, to: nat, play: nat, past: nat)
    requires s.f.cur.Some? && s1.f.cur.Some? && from <= to && s1.base == s.base && s1.f.cushion == s.f.cushion
    requires Ordered(SpansOf(cs, s1), s.base + from, s.base + to) && Committed(s) <= Committed(s1)
    requires from < to ==> Committed(s) <= s.base + from && s.base + to <= Committed(s1) && play <= from && to <= play + s.f.cushion
    ensures Ordered(SpansOf(cs, s1), Committed(s), Committed(s1)) && InCushion(cs, s1, play, past)
  {
    var spans := SpansOf(cs, s1);
    if cs != [] {
      assert spans[0].from < spans[0].to;
    }
    forall c | c in cs
      ensures from < to && exists i :: 0 <= i < |spans| && SpanOf(c, s1) == spans[i]
    {
      var i :| 0 <= i < |cs| && cs[i] == c;
      assert spans[0].from < spans[0].to && SpanOf(c, s1) == spans[i];
    }
  }

  /** Where filling the next reader starts and ends. */
  lemma NextRange(s: State, play: nat)
    requires Inv(s) && s.f.next.Some? && play + s.f.cushion > s.f.cur.value.total
    requires s.f.cur.value.cursor >= Min(play + s.f.cushion, s.f.cur.value.total)
    ensures var f, r := s.f, s.f.next.value; var total := f.cur.value.total;
            var p := f.nextStart + Max(play - total, 0); var q := f.nextStart + (play + f.cushion - total);
            && r.cursor <= FillFrom(r, p) <= FillTo(r, p, q) <= r.total
            && f.cur.value.cursor >= total
            && (FillFrom(r, p) < FillTo(r, p, q) ==>
                  && Committed(s) <= NextBase(s) + FillFrom(r, p)
                  && s.base + play <= NextBase(s) + FillFrom(r, p)
                  && NextBase(s) + FillTo(r, p, q) <= s.base + play + f.cushion + Past(f)
                  && f.nextStart <= r.cursor)
  {
  }

  /** The state after the next reader has moved to `to`. */
  lemma NextMovedSafe(s: State, to: nat, events: nat, frames: nat)
    requires Inv(s) && s.f.next.Some? && s.f.next.value.cursor <= to <= s.f.next.value.total
    requires s.f.cur.value.cursor >= s.f.cur.value.total
    ensures var f1 := s.f.(next := Some(s.f.next.value.(cursor := to)), underrunEvents := events, underrunFrames := frames);
            Inv(State(f1, s.base)) && Committed(s) <= Committed(State(f1, s.base))
            && NextBase(State(f1, s.base)) == NextBase(s)
            && (to > s.f.nextStart ==> Committed(State(f1, s.base)) == NextBase(s) + to)
  {
  }

  lemma FillNextSafe(s: State, play: nat, store: Store, past: nat)
    requires Inv(s) && s.f.next.Some? && Past(s.f) <= past
    requires s.f.cur.value.cursor >= Min(play + s.f.cushion, s.f.cur.value.total)
    ensures var (f1, cs) := FillNext(s.f, play, store); var s1 := State(f1, s.base);
            && Inv(s1) && Committed(s) <= Committed(s1) && AllOf(cs, s.f.nextIdx)
            && f1.cur == s.f.cur && f1.nextStart == s.f.nextStart && f1.curIdx == s.f.curIdx && f1.cushion == s.f.cushion
            && Ordered(SpansOf(cs, s1), Committed(s), Committed(s1)) && InCushion(cs, s1, play, past)
  {
    hide Reader.BeatAt, Inv, Committed, Ordered, SpansOf, Chunks, FillFrom, FillTo;
    InvNext(s);
    var f := s.f;
    var total := f.cur.value.total;
    if play + f.cushion > total {
      var r := f.next.value;
      var p, q := f.nextStart + Max(play - total, 0), f.nextStart + (play + f.cushion - total);
      var from, to := FillFrom(r, p), FillTo(r, p, q);
      NextRange(s, play);
      ChunksCover(r, f.nextIdx, from, to, f.chunk, Pcm(store, f.nextIdx));
      var (f1, cs) := FillNext(f, play, store);
      var s1 := State(f1, s.base);
      NextMovedSafe(s, to, f1.underrunEvents, f1.underrunFrames);
      CoversOrdered(cs, f.nextIdx, from, to, s1, NextBase(s1));
      NextOrdered(cs, s, s1, from, to, play, past);
    } else {
      EmptySpans(s);
    }
  }

  lemma NextOrdered(cs: seq<Chunk>, s: State, s1: State, from: nat, to: nat, play: nat, past: nat)
    requires s.f.cur.Some? && s1.f.cur.Some? && from <= to && s1.base == s.base && s1.f.cushion == s.f.cushion
    requires Ordered(SpansOf(cs, s1), NextBase(s1) + from, NextBase(s1) + to)
    requires Committed(s) <= Committed(s1)
    requires from < to ==> Committed(s) <= NextBase(s1) + from && NextBase(s1) + to <= Committed(s1)
    requires from < to ==> s.base + play <= NextBase(s1) + from && NextBase(s1) + to <= s.base + play + s.f.cushion + past
    ensures Ordered(SpansOf(cs, s1), Committed(s), Committed(s1)) && InCushion(cs, s1, play, past)
  {
    var spans := SpansOf(cs, s1);
    if cs != [] {
      assert spans[0].from < spans[0].to;
    }
    forall c | c in cs
      ensures from < to && exists i :: 0 <= i < |spans| && SpanOf(c, s1) == spans[i]
    {
      var i :| 0 <= i < |cs| && cs[i] == c;
      assert spans[0].from < spans[0].to && SpanOf(c, s1) == spans[i];
    }
  }

  lemma InvNext(s: State)
    requires Inv(s)
    ensures Ok(s.f) && s.f.cur.Some? && (s.f.next.Some? ==> s.f.nextIdx == s.f.curIdx + 1)
  {
  }

  lemma PreRollSafe(s: State, store: Store)
    requires Inv(s) && s.f.next.None? && s.f.makeNext.Some?
    ensures var f1 := PreRoll(s.f, s.f.makeNext.value, store);
            && Inv(State(f1, s.base)) && Committed(State(f1, s.base)) == Committed(s)
            && f1.cushion == s.f.cushion && f1.curIdx == s.f.curIdx && f1.next.Some?
            && f1.cur.value == s.f.cur.value.(total := f1.cur.value.total)
            && Past(f1) <= Past(s.f)
  {
    hide PadCarriesAudio;
  }

  /** Advance in three steps: what came out, by the state it came out of. */
  datatype Steps = Steps(f1: Feeder, c1: seq<Chunk>, f2: Feeder, c2: seq<Chunk>, f3: Feeder, c3: seq<Chunk>)

  function StepsOf(f: Feeder, play: nat, store: Store): Steps
    requires Ok(f) && f.cur.Some?
  {
    var (f1, c1) := FillCur(f, play, store);
    if play + f.cushion <= f1.cur.value.total || (f1.next.None? && f1.makeNext.None?) then
      Steps(f1, c1, f1, [], f1, [])
    else
      var (f2, c2) := if f1.next.None? then FillCur(PreRoll(f1, f1.makeNext.value, store), play, store) else (f1, []);
      var (f3, c3) := FillNext(f2, play, store);
      Steps(f1, c1, f2, c2, f3, c3)
  }

  lemma AdvanceIsSteps(f: Feeder, nowBeat: real, store: Store)
    requires Ok(f) && f.cur.Some?
    ensures var t := StepsOf(f, Play(f, nowBeat), store);
            Advance(f, nowBeat, store) == (t.f3, t.c1 + t.c2 + t.c3)
  {
    hide FillCur, FillNext, PreRoll, Play;
    var t := StepsOf(f, Play(f, nowBeat), store);
    assert t.c1 + [] + [] == t.c1 == t.c1 + [];
    assert t.c1 + t.c2 + t.c3 == t.c1 + (t.c2 + t.c3);
  }

  lemma SameSpans(cs: seq<Chunk>, s: State, t: State)
    requires s.f.cur.Some? && t.f.cur.Some? && s.base == t.base && s.f.curIdx == t.f.curIdx
    requires AllOf(cs, s.f.curIdx) || NextBase(s) == NextBase(t)
    ensures SpansOf(cs, s) == SpansOf(cs, t)
  {
  }

  lemma StepsSafe(s: State, play: nat, store: Store)
    requires Inv(s)
    ensures var t := StepsOf(s.f, play, store); var s3 := State(t.f3, s.base);
            && Inv(s3) && Committed(s) <= Committed(s3)
            && t.f3.curIdx == s.f.curIdx && t.f3.cushion == s.f.cushion
            && Ordered(SpansOf(t.c1 + t.c2 + t.c3, s3), Committed(s), Committed(s3))
            && InCushion(t.c1 + t.c2 + t.c3, s3, play, Past(s.f))
            && Committed(s3) >= s.base + Min(play + s.f.cushion, s.f.cur.value.total)
  {
    hide FillCur, FillNext, PreRoll, Committed, NextMoved, Ordered, SpansOf;
    var past := Past(s.f);
    var t := StepsOf(s.f, play, store);
    var s1, s2, s3 := State(t.f1, s.base), State(t.f2, s.base), State(t.f3, s.base);
    FillCurSafe(s, play, store, past);
    CommittedReaches(s1);
    if play + s.f.cushion <= t.f1.cur.value.total || (t.f1.next.None? && t.f1.makeNext.None?) {
      EmptySpans(s1);
    } else {
      if t.f1.next.None? {
        PreRollSafe(s1, store);
        FillCurSafe(State(PreRoll(t.f1, t.f1.makeNext.value, store), s.base), play, store, past);
      } else {
        EmptySpans(s1);
      }
      FillNextSafe(s2, play, store, past);
    }
    SameSpans(t.c1, s1, s3);
    SameSpans(t.c2, s2, s3);
    JoinThree(t.c1, t.c2, t.c3, s3, Committed(s), Committed(s1), Committed(s2), Committed(s3), play, past);
  }

  lemma CommittedReaches(s: State)
    requires Inv(s)
    ensures Committed(s) >= s.base + s.f.cur.value.cursor
  {
  }

  lemma EmptySpans(s: State)
    requires s.f.cur.Some?
    ensures Ordered(SpansOf([], s), Committed(s), Committed(s))
  {
  }

  lemma JoinThree(u: seq<Chunk>, v: seq<Chunk>, w: seq<Chunk>, s: State, a: int, b: int, c: int, d: int, play: nat, past: nat)
    requires s.f.cur.Some? && a <= b <= c <= d
    requires Ordered(SpansOf(u, s), a, b) && Ordered(SpansOf(v, s), b, c) && Ordered(SpansOf(w, s), c, d)
    requires InCushion(u, s, play, past) && InCushion(v, s, play, past) && InCushion(w, s, play, past)
    ensures Ordered(SpansOf(u + v + w, s), a, d) && InCushion(u + v + w, s, play, past)
  {
    assert SpansOf(u + v + w, s) == SpansOf(u, s) + SpansOf(v, s) + SpansOf(w, s);
    OrderedJoin(SpansOf(u, s), SpansOf(v, s), a, b, c);
    OrderedJoin(SpansOf(u, s) + SpansOf(v, s), SpansOf(w, s), a, c, d);
  }

  /** One Advance: it commits stream positions past everything committed so far, in order, all of them in
      [play, play + cushion), shifted on by what the current reader stands past its own end. */
  lemma AdvanceIsSafe(s: State, nowBeat: real, store: Store)
    requires Inv(s)
    ensures var (f1, cs) := Advance(s.f, nowBeat, store); var s1 := State(f1, s.base); var play := Play(s.f, nowBeat);
            && Inv(s1) && Committed(s) <= Committed(s1)
            && Ordered(SpansOf(cs, s1), Committed(s), Committed(s1))
            && InCushion(cs, s1, play, Past(s.f))
            && Committed(s1) >= s.base + Min(play + s.f.cushion, s.f.cur.value.total)
  {
    hide StepsOf, Advance, Play;
    AdvanceIsSteps(s.f, nowBeat, store);
    StepsSafe(s, Play(s.f, nowBeat), store);
  }

  // ---------------------------------------------------------------- runs

  /** The boundary hands over at the pre-rolled reader's round, for which the next handoff is captured. */
  predicate AdoptOk(f: Feeder, idx: int, h: Handoff)
    requires Ok(f)
  {
    Promotes(f, idx) ==> h.round == idx && h.rate > 0 && PadFits(h)
  }

  /** The state after an event, and the stretches of the stream it sent to the sink. */
  function Step(s: State, e: Event): (State, seq<Span>)
    requires Ok(s.f) && s.f.cur.Some?
  {
    match e
    case Tick(now, store) =>
      AdvanceKeepsOk(s.f, now, store);
      var (f1, cs) := Advance(s.f, now, store);
      (State(f1, s.base), SpansOf(cs, State(f1, s.base)))
    case Adopt(idx, h) =>
      (State(Adopted(s.f, idx, h), if Promotes(s.f, idx) then NextBase(s) else s.base), [])
    case Cushion(n) =>
      (State(SetCushion(s.f, n), s.base), [])
  }

  lemma AdvanceKeepsOk(f: Feeder, nowBeat: real, store: Store)
    requires Ok(f) && f.cur.Some?
    ensures Ok(Advance(f, nowBeat, store).0) && Advance(f, nowBeat, store).0.cur.Some?
  {
    hide PadCarriesAudio, Chunks, Reader.FrameAtBeat;
  }

  lemma AdoptIsSafe(s: State, idx: int, h: Handoff)
    requires Inv(s) && AdoptOk(s.f, idx, h)
    ensures var s1 := State(Adopted(s.f, idx, h), if Promotes(s.f, idx) then NextBase(s) else s.base);
            Inv(s1) && Committed(s) <= Committed(s1)
  {
    hide Reader.BeatAt;
  }

  lemma StepIsSafe(s: State, e: Event)
    requires Inv(s) && (e.Adopt? ==> AdoptOk(s.f, e.idx, e.makeNext))
    ensures var (s1, spans) := Step(s, e);
            Inv(s1) && Committed(s) <= Committed(s1) && Ordered(spans, Committed(s), Committed(s1))
  {
    match e {
      case Tick(now, store) =>
        hide Advance, Inv, Committed, Ordered, SpansOf;
        AdvanceIsSafe(s, now, store);
      case Adopt(idx, h) =>
        hide Adopted, Inv, Committed;
        AdoptIsSafe(s, idx, h);
      case Cushion(n) =>
    }
  }

  /** Every adoption of the run is one onBoundary could make. */
  predicate RunOk(s: State, es: seq<Event>)
    requires Ok(s.f) && s.f.cur.Some?
    decreases |es|
  {
    es == [] || ((es[0].Adopt? ==> AdoptOk(s.f, es[0].idx, es[0].makeNext))
                 && Ok(Step(s, es[0]).0.f) && Step(s, es[0]).0.f.cur.Some?
                 && RunOk(Step(s, es[0]).0, es[1..]))
  }

  function Sent(s: State, es: seq<Event>): seq<Span>
    requires Ok(s.f) && s.f.cur.Some? && RunOk(s, es)
    decreases |es|
  {
    if es == [] then [] else Step(s, es[0]).1 + Sent(Step(s, es[0]).0, es[1..])
  }

  function Final(s: State, es: seq<Event>): State
    requires Ok(s.f) && s.f.cur.Some? && RunOk(s, es)
    decreases |es|
  {
    if es == [] then s else Final(Step(s, es[0]).0, es[1..])
  }

  /** FEEDER SAFETY. Over any run of ticks, handovers, tempo changes and cushion changes, each stream position is
      sent to the sink at most once, and positions only ever increase. */
  lemma {:induction false} NeverTwiceNeverBack(s: State, es: seq<Event>)
    requires Inv(s) && RunOk(s, es)
    ensures Final(s, es).f.cur.Some? && Committed(s) <= Committed(Final(s, es))
    ensures Ordered(Sent(s, es), Committed(s), Committed(Final(s, es)))
    decreases |es|
  {
    hide Step, Inv, Committed, Ordered, AdoptOk;
    InvOk(s);
    if es == [] {
      NothingOrdered(Committed(s));
    } else {
      StepIsSafe(s, es[0]);
      var (s1, spans) := Step(s, es[0]);
      InvOk(s1);
      NeverTwiceNeverBack(s1, es[1..]);
      OrderedJoin(spans, Sent(s1, es[1..]), Committed(s), Committed(s1), Committed(Final(s, es)));
    }
  }

  lemma InvOk(s: State)
    requires Inv(s)
    ensures Ok(s.f) && s.f.cur.Some?
  {
  }

  lemma NothingOrdered(c: int)
    ensures Ordered([], c, c)
  {
  }

  /** A feeder just given its first reader satisfies the invariant, so the run theorem covers everything after. */
  lemma SetCurrentStartsARun(f: Feeder, idx: int, r: Reader, h: Option<Handoff>, base: int)
    requires Ok(f) && r.Ok()
    requires h.Some? ==> h.value.round == idx && h.value.rate > 0 && PadFits(h.value)
    ensures Inv(State(SetCurrent(f, idx, r, h), base))
    ensures Committed(State(SetCurrent(f, idx, r, h), base)) == base + r.cursor
  {
  }
}
