/** The books of a feeder over any run (internal/emit/feeder.go, Underruns): every stream position it moves past was
    sent to the sink, counted as an underrun, skipped in a reader that had sent nothing yet, or cut off at a boundary. */
module FeederBooks {
  import opened Common
  import opened PacedReader
  import opened FeederModel
  import opened FeederRuns

  /** What filling a reader still at frame 0 skips: setup, by design not an underrun. */
  function SetupSkip(r: Reader, play: int): nat {
    if r.cursor == 0 then FillFrom(r, play) else 0
  }

  /** What is left of the current round when its successor is adopted: the part that is never played. */
  function Cut(f: Feeder): nat
    requires f.cur.Some?
  {
    if NextMoved(f) then 0 else Max(f.cur.value.total - f.cur.value.cursor, 0)
  }

  /** The skips of one tick in readers that had sent nothing yet. */
  function TickSetup(f: Feeder, play: nat, store: Store): nat
    requires Ok(f) && f.cur.Some?
  {
    var f1 := FillCur(f, play, store).0;
    SetupSkip(f.cur.value, play)
    + if play + f.cushion <= f1.cur.value.total || (f1.next.None? && f1.makeNext.None?) then 0
      else
        var f2 := if f1.next.None? then PreRoll(f1, f1.makeNext.value, store) else f1;
        var f3 := if f1.next.None? then FillCur(f2, play, store).0 else f1;
        (if f1.next.None? then SetupSkip(f2.cur.value, play) else 0) + NextSetup(f3, play)
  }

  function NextSetup(f: Feeder, play: nat): nat
    requires f.cur.Some? && f.next.Some?
  {
    if play + f.cushion <= f.cur.value.total then 0
    else SetupSkip(f.next.value, f.nextStart + Max(play - f.cur.value.total, 0))
  }

  // ---------------------------------------------------------------- one step

  /** Moving from committed position c to d sent these chunks and left `lost` positions unsent. */
  predicate Balances(c: int, d: int, cs: seq<Chunk>, lost: int) {
    d - c == |Joined(cs)| + lost
  }

  lemma CurBooks(s: State, play: nat, store: Store)
    requires Inv(s)
    ensures var (f1, cs) := FillCur(s.f, play, store);
            && Inv(State(f1, s.base))
            && Balances(Committed(s), Committed(State(f1, s.base)), cs,
                        f1.underrunFrames - s.f.underrunFrames + SetupSkip(s.f.cur.value, play))
            && f1.cushion == s.f.cushion && f1.makeNext == s.f.makeNext && f1.next == s.f.next && f1.nextStart == s.f.nextStart
            && f1.cur.value.cursor >= Min(play + s.f.cushion, f1.cur.value.total)
  {
    hide Reader.BeatAt, Chunks, FillFrom, FillTo, Joined, Inv, Ordered, SpansOf;
    InvCur(s);
    FillCurSafe(s, play, store, 0);
    FillBalances(s.f.cur.value, s.f.curIdx, play, play + s.f.cushion, s.f.chunk, Pcm(store, s.f.curIdx));
    CurCommits(s, FillCur(s.f, play, store).0);
  }

  /** Moving the current reader commits exactly its move: once the next one has moved it cannot move any more. */
  lemma CurCommits(s: State, f1: Feeder)
    requires Inv(s) && f1.cur.Some?
    requires f1 == s.f.(cur := f1.cur, underrunEvents := f1.underrunEvents, underrunFrames := f1.underrunFrames)
    requires f1.cur.value == s.f.cur.value.(cursor := f1.cur.value.cursor)
    requires s.f.cur.value.cursor <= f1.cur.value.cursor <= Max(s.f.cur.value.total, s.f.cur.value.cursor)
    ensures Committed(State(f1, s.base)) - Committed(s) == f1.cur.value.cursor - s.f.cur.value.cursor
  {
  }

  lemma NextBooks(s: State, play: nat, store: Store)
    requires Inv(s) && s.f.next.Some? && s.f.cur.value.cursor >= Min(play + s.f.cushion, s.f.cur.value.total)
    ensures var (f1, cs) := FillNext(s.f, play, store);
            && Inv(State(f1, s.base))
            && Balances(Committed(s), Committed(State(f1, s.base)), cs,
                        f1.underrunFrames - s.f.underrunFrames + NextSetup(s.f, play))
  {
    hide Reader.BeatAt, Chunks, FillFrom, FillTo, Inv, Ordered, SpansOf;
    InvNext(s);
    FillNextSafe(s, play, store, Past(s.f));
    var f, total := s.f, s.f.cur.value.total;
    if play + f.cushion > total {
      hide Joined;
      var p, q := f.nextStart + Max(play - total, 0), f.nextStart + (play + f.cushion - total);
      NextRange(s, play);
      FillBalances(f.next.value, f.nextIdx, p, q, f.chunk, Pcm(store, f.nextIdx));
      NextCommits(s, FillNext(f, play, store).0);
    }
  }

  lemma NextCommits(s: State, f1: Feeder)
    requires Inv(s) && s.f.next.Some? && f1.next.Some? && s.f.cur.value.cursor >= s.f.cur.value.total
    requires f1 == s.f.(next := f1.next, underrunEvents := f1.underrunEvents, underrunFrames := f1.underrunFrames)
    requires f1.next.value == s.f.next.value.(cursor := f1.next.value.cursor)
    requires s.f.next.value.cursor <= f1.next.value.cursor
    ensures Committed(State(f1, s.base)) - Committed(s) == f1.next.value.cursor - s.f.next.value.cursor
  {
  }

  /** One tick. */
  lemma TickBooks(s: State, nowBeat: real, store: Store)
    requires Inv(s)
    ensures var (f1, cs) := Advance(s.f, nowBeat, store);
            && f1.cur.Some?
            && Balances(Committed(s), Committed(State(f1, s.base)), cs,
                        f1.underrunFrames - s.f.underrunFrames + TickSetup(s.f, Play(s.f, nowBeat), store))
  {
    hide Advance, FillCur, FillNext, PreRoll, Play, Inv, Committed, SetupSkip, NextSetup, Joined, StepsOf;
    InvCur(s);
    var play := Play(s.f, nowBeat);
    AdvanceIsSteps(s.f, nowBeat, store);
    CurBooks(s, play, store);
    var f1 := FillCur(s.f, play, store).0;
    InvCur(State(f1, s.base));
    if f1.next.Some? || f1.makeNext.None? || play + f1.cushion <= f1.cur.value.total {
      RollingBooks(s, play, store);
    } else {
      PreRollBooks(s, play, store);
    }
    SumThree(StepsOf(s.f, play, store));
  }

  lemma SumThree(t: Steps)
    ensures |Joined(t.c1 + t.c2 + t.c3)| == |Joined(t.c1)| + |Joined(t.c2)| + |Joined(t.c3)|
  {
    hide Joined;
    JoinedAppend(t.c1 + t.c2, t.c3);
    JoinedAppend(t.c1, t.c2);
  }

  /** What three steps sent. */
  function SentBy(t: Steps): nat {
    |Joined(t.c1)| + |Joined(t.c2)| + |Joined(t.c3)|
  }

  ghost predicate StepsBalance(s: State, play: nat, store: Store)
    requires Ok(s.f) && s.f.cur.Some?
  {
    var t := StepsOf(s.f, play, store);
    && t.f3.cur.Some?
    && Committed(State(t.f3, s.base)) - Committed(s)
       == SentBy(t) + (t.f3.underrunFrames - s.f.underrunFrames) + TickSetup(s.f, play, store)
  }

  lemma NothingSent()
    ensures |Joined([])| == 0
  {
  }

  lemma RollingBooks(s: State, play: nat, store: Store)
    requires Inv(s) && Ok(s.f) && s.f.cur.Some?
    requires var f1 := FillCur(s.f, play, store).0;
             f1.cur.Some? && (f1.next.Some? || f1.makeNext.None? || play + f1.cushion <= f1.cur.value.total)
    ensures StepsBalance(s, play, store)
  {
    hide FillCur, FillNext, PreRoll, Inv, Committed, SetupSkip, Joined;
    CurBooks(s, play, store);
    NothingSent();
    var f1 := FillCur(s.f, play, store).0;
    InvCur(State(f1, s.base));
    if f1.next.Some? && play + f1.cushion > f1.cur.value.total {
      NextBooks(State(f1, s.base), play, store);
      InvCur(State(FillNext(f1, play, store).0, s.base));
    }
  }

  lemma PreRollBooks(s: State, play: nat, store: Store)
    requires Inv(s) && Ok(s.f) && s.f.cur.Some?
    requires var f1 := FillCur(s.f, play, store).0;
             f1.cur.Some? && f1.next.None? && f1.makeNext.Some? && play + f1.cushion > f1.cur.value.total
    ensures StepsBalance(s, play, store)
  {
    hide FillCur, FillNext, PreRoll, Inv, Committed, SetupSkip, NextSetup, Joined;
    CurBooks(s, play, store);
    var f1 := FillCur(s.f, play, store).0;
    InvCur(State(f1, s.base));
    PreRollSafe(State(f1, s.base), store);
    var f2 := PreRoll(f1, f1.makeNext.value, store);
    PreRollKeepsCounters(f1, f1.makeNext.value, store);
    InvCur(State(f2, s.base));
    CurBooks(State(f2, s.base), play, store);
    var f3 := FillCur(f2, play, store).0;
    InvCur(State(f3, s.base));
    NextBooks(State(f3, s.base), play, store);
    InvCur(State(FillNext(f3, play, store).0, s.base));
  }

  lemma PreRollKeepsCounters(f: Feeder, h: Handoff, store: Store)
    requires f.cur.Some?
    ensures PreRoll(f, h, store).underrunFrames == f.underrunFrames && PreRoll(f, h, store).next.Some?
  {
  }

  // ---------------------------------------------------------------- runs

  function Length(spans: seq<Span>): int
    decreases |spans|
  {
    if spans == [] then 0 else spans[0].to - spans[0].from + Length(spans[1..])
  }

  lemma {:induction false} LengthJoin(u: seq<Span>, v: seq<Span>)
    ensures Length(u + v) == Length(u) + Length(v)
    decreases |u|
  {
    if u == [] {
      assert u + v == v;
    } else {
      assert (u + v)[1..] == u[1..] + v;
      LengthJoin(u[1..], v);
    }
  }

  /** The spans of a tick are as long as its samples. */
  lemma {:induction false} SpansLength(cs: seq<Chunk>, s: State)
    requires s.f.cur.Some?
    ensures Length(SpansOf(cs, s)) == |Joined(cs)|
    decreases |cs|
  {
    if cs != [] {
      SpansLength(cs[1..], s);
      assert SpansOf(cs, s)[1..] == SpansOf(cs[1..], s);
    }
  }

  /** What one event gives up without counting it. */
  function Uncounted(s: State, e: Event): nat
    requires Ok(s.f) && s.f.cur.Some?
  {
    match e
    case Tick(now, store) => TickSetup(s.f, Play(s.f, now), store)
    case Adopt(idx, h) => if Promotes(s.f, idx) then Cut(s.f) else 0
    case Cushion(_) => 0
  }

  function AllUncounted(s: State, es: seq<Event>): nat
    requires Ok(s.f) && s.f.cur.Some? && RunOk(s, es)
    decreases |es|
  {
    if es == [] then 0 else Uncounted(s, es[0]) + AllUncounted(Step(s, es[0]).0, es[1..])
  }

  ghost predicate EventBalances(s: State, e: Event)
    requires Ok(s.f) && s.f.cur.Some? && Step(s, e).0.f.cur.Some?
  {
    var (s1, spans) := Step(s, e);
    Committed(s1) - Committed(s) == Length(spans) + (s1.f.underrunFrames - s.f.underrunFrames) + Uncounted(s, e)
  }

  lemma EventBooks(s: State, e: Event)
    requires Inv(s) && Ok(s.f) && s.f.cur.Some? && Step(s, e).0.f.cur.Some? && (e.Adopt? ==> AdoptOk(s.f, e.idx, e.makeNext))
    ensures EventBalances(s, e)
  {
    match e {
      case Tick(now, store) =>
        hide Advance, Committed, Joined, SpansOf, TickSetup, Length, Play, Inv;
        TickBooks(s, now, store);
        var (f1, cs) := Advance(s.f, now, store);
        SpansLength(cs, State(f1, s.base));
      case Adopt(idx, h) => AdoptBooks(s, idx, h);
      case Cushion(n) => CushionBooks(s, n);
    }
  }

  lemma AdoptBooks(s: State, idx: int, h: Handoff)
    requires Inv(s) && Ok(s.f) && s.f.cur.Some? && AdoptOk(s.f, idx, h) && Step(s, Adopt(idx, h)).0.f.cur.Some?
    ensures EventBalances(s, Adopt(idx, h))
  {
    hide Reader.BeatAt, Advance, Play, TickSetup;
  }

  lemma CushionBooks(s: State, n: int)
    requires Inv(s) && Ok(s.f) && s.f.cur.Some? && Step(s, Cushion(n)).0.f.cur.Some?
    ensures EventBalances(s, Cushion(n))
  {
    hide Advance, Play, TickSetup;
  }

  /** THE UNDERRUN COUNTER IS EXACT. Over any run of ticks, handovers, tempo changes and cushion changes, the positions
      moved past are those sent plus those the counter counts plus those given up by design: skipped by a reader that
      had sent nothing yet, or still unsent in a round when the next one takes over. */
  lemma {:induction false} UnderrunsAreExact(s: State, es: seq<Event>)
    requires Inv(s) && Ok(s.f) && s.f.cur.Some? && RunOk(s, es)
    ensures Final(s, es).f.cur.Some?
    ensures Final(s, es).f.underrunFrames - s.f.underrunFrames
         == Committed(Final(s, es)) - Committed(s) - Length(Sent(s, es)) - AllUncounted(s, es)
    decreases |es|
  {
    hide Step, Inv, Committed, AdoptOk, Uncounted, Length, Ordered;
    if es == [] {
      NoLength();
    } else {
      StepIsSafe(s, es[0]);
      EventBooks(s, es[0]);
      var (s1, spans) := Step(s, es[0]);
      UnderrunsAreExact(s1, es[1..]);
      LengthJoin(spans, Sent(s1, es[1..]));
    }
  }

  lemma NoLength()
    ensures Length([]) == 0
  {
  }
}
