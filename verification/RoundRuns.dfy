/** What holds of one sender's playout over any run: where the cursor may go, and that nothing waits forever. */
module RoundRuns {
  import opened Common
  import opened Audio
  import opened FeederModel
  import opened Reassembly
  import opened Playout
  import opened Rounds

  /** A boundary released a round: the cursor now stands on it, and every stream plays it. */
  ghost predicate ReleasedAt(s: Sender, l: Local, t: Sender) {
    && !Ignored(s.cursor, l.boundary)
    && t.cursor.playing.Some?
    && (exists q :: Releases(s.cursor, l.boundary, StatesOf(s, l.boundary), q) && q.index == t.cursor.playing.value)
    && (forall k <- t.streams :: t.streams[k].feeder.cur.Some? && t.streams[k].feeder.curIdx == t.cursor.playing.value)
  }

  /** Everything buffered lies at or below the playing round. */
  ghost predicate NoneAbove(s: Sender) {
    s.cursor.playing.Some? && forall r :: Buffered(s, r) ==> r <= s.cursor.playing.value
  }

  /** The law of the cursor: it stays, is forgotten with its sender, starts, rises, or drops by at least the restart
      gap; it drops only when nothing above it is buffered, and then nothing but the released round stays buffered. */
  ghost predicate Lawful(s: Sender, t: Sender) {
    || t.cursor.playing == s.cursor.playing
    || (t.cursor.playing.None? && t.streams == map[])
    || (s.cursor.playing.None? && t.cursor.playing.Some?)
    || (s.cursor.playing.Some? && t.cursor.playing.Some? && t.cursor.playing.value > s.cursor.playing.value)
    || (&& s.cursor.playing.Some? && t.cursor.playing.Some?
        && t.cursor.playing.value <= s.cursor.playing.value - RESTART_GAP
        && NoneAbove(s)
        && forall r :: Buffered(t, r) ==> r == t.cursor.playing.value)
  }

  /** The candidate states seen by the cursor are exactly the buffered rounds. */
  lemma NothingAboveIsNoneAbove(s: Sender, boundary: int)
    requires s.cursor.playing.Some?
    ensures NothingAbove(s.cursor, StatesOf(s, boundary)) <==> NoneAbove(s)
  {
    hide Buffered, RoundDone;
    if NothingAbove(s.cursor, StatesOf(s, boundary)) {
      forall r | Buffered(s, r)
        ensures r <= s.cursor.playing.value
      {
        assert StateOf(s, r, boundary) in StatesOf(s, boundary);
      }
    }
  }

  lemma BoundaryIsLawful(s: Sender, l: Local)
    requires Inv(s) && l.rate > 0
    ensures Lawful(s, AtBoundary(s, l))
    ensures AtBoundary(s, l).cursor.playing != s.cursor.playing ==> ReleasedAt(s, l, AtBoundary(s, l))
  {
    hide FeederModel.Ok, Released, StatesOf, Buffered, BufferedRounds, Inv, Candidate, NothingAbove;
    InvOk(s);
    var o := Outcome(s.cursor, l.boundary, StatesOf(s, l.boundary));
    if s.streams != map[] && o.Some? {
      BufferedAfter(s, l);
      ReleaseFeeders(s, l);
      if s.cursor.playing.Some? {
        ReleaseMovesLawfully(s.cursor, l.boundary, StatesOf(s, l.boundary));
        NothingAboveIsNoneAbove(s, l.boundary);
      }
    }
  }

  lemma InvOk(s: Sender)
    requires Inv(s)
    ensures StreamsOk(s)
  {
  }

  /** Sweeping only removes rounds at or below the cursor. */
  lemma SweepKeepsAbove(s: Sender, now: int, g: Graces, r: int)
    requires Inv(s) && Buffered(s, r) && (s.cursor.playing.Some? ==> r > s.cursor.playing.value)
    ensures var t := Swept(s, now, g); Buffered(t, r) && t == s.(streams := t.streams)
  {
    hide Inv, Swept;
    SweepSparesWhatIsDue(s, now, g);
    var t := Swept(s, now, g);
    var k :| k in s.streams && r in s.streams[k].rounds;
    assert k in t.streams;
  }

  /** Retirement may forget a sender, but never changes where a remembered one stands. */
  lemma SweptBoundaryIsLawful(s: Sender, l: Local, now: int, g: Graces)
    requires Inv(s) && l.rate > 0
    ensures Inv(Swept(s, now, g)) && Lawful(s, AtBoundary(Swept(s, now, g), l))
  {
    hide Inv, AtBoundary, Swept, Buffered;
    SweepSparesWhatIsDue(s, now, g);
    var m := Swept(s, now, g);
    InvOk(m);
    BoundaryIsLawful(m, l);
    if m.streams == map[] {
      EmptyBoundary(m, l);
    } else if NoneAbove(m) {
      forall r | Buffered(s, r)
        ensures r <= s.cursor.playing.value
      {
        if r > s.cursor.playing.value {
          SweepKeepsAbove(s, now, g, r);
        }
      }
    }
  }

  lemma EmptyBoundary(m: Sender, l: Local)
    requires m.streams == map[] && StreamsOk(m)
    ensures AtBoundary(m, l) == m
  {
  }

  lemma StepIsLawful(s: Sender, e: Event)
    requires Inv(s) && (e.Boundary? ==> e.l.rate > 0)
    ensures StreamsOk(s) && Lawful(s, Step(s, e))
  {
    hide Inv, AtBoundary, Swept, Buffered, Minted, PlaceAll;
    InvOk(s);
    match e {
      case Frames(k, born, mark, frames) =>
        if k in s.streams {
          PlaceAllKeeps(s, k, mark, frames);
        }
      case Boundary(l, now, graces) => SweptBoundaryIsLawful(s, l, now, graces);
      case Mint(k, now, cushion, chunk) => MintKeepsCursor(s, k, now, cushion, chunk);
      case _ =>
    }
  }

  lemma MintKeepsCursor(s: Sender, k: nat, now: int, cushion: int, chunk: int)
    ensures Minted(s, k, now, cushion, chunk).cursor == s.cursor && Minted(s, k, now, cushion, chunk).firstSeen == s.firstSeen
  {
  }

  // ---------------------------------------------------------------- runs

  predicate RatesOk(es: seq<Event>) {
    forall i :: 0 <= i < |es| ==> es[i].Boundary? ==> es[i].l.rate > 0
  }

  /** The state after a run. */
  ghost function After(s: Sender, es: seq<Event>): (t: Sender)
    requires Inv(s) && RatesOk(es)
    ensures Inv(t)
    decreases |es|
  {
    hide Inv, Step;
    if es == [] then s else
      var before := After(s, es[..|es| - 1]);
      StepKeepsInv(before, es[|es| - 1]);
      InvOk(before);
      Step(before, es[|es| - 1])
  }

  /** THE CURSOR LAW, over every run and at every step of it. */
  lemma CursorLaw(s: Sender, es: seq<Event>, i: nat)
    requires Inv(s) && RatesOk(es) && i < |es|
    ensures Lawful(After(s, es[..i]), After(s, es[..i + 1]))
  {
    hide Inv, Step, Lawful;
    assert es[..i + 1][..i] == es[..i];
    StepIsLawful(After(s, es[..i]), es[i]);
  }

  // ---------------------------------------------------------------- no starvation

  /** Round r is buffered above the cursor, first seen no later than boundary b. */
  ghost predicate Waits(s: Sender, r: int, b: int) {
    && Buffered(s, r)
    && (s.cursor.playing.Some? ==> r > s.cursor.playing.value)
    && r in s.firstSeen && s.firstSeen[r] <= b
  }

  predicate Reached(s: Sender, r: int) {
    s.cursor.playing.Some? && s.cursor.playing.value >= r
  }

  lemma BoundaryServes(s: Sender, l: Local, r: int, b: int)
    requires Inv(s) && l.rate > 0 && Waits(s, r, b)
    ensures Waits(AtBoundary(s, l), r, b) || Reached(AtBoundary(s, l), r)
    ensures l.boundary > b && !Ignored(s.cursor, l.boundary) ==> Reached(AtBoundary(s, l), r)
  {
    hide FeederModel.Ok, Released, StatesOf, BufferedRounds, Inv, RoundDone;
    InvOk(s);
    var qs := StatesOf(s, l.boundary);
    var q := StateOf(s, r, l.boundary);
    assert q in qs && Above(s.cursor, q);
    assert Candidate(s.cursor, qs, q);
    hide Candidate, Outcome;
    var o := Outcome(s.cursor, l.boundary, qs);
    if !Ignored(s.cursor, l.boundary) && l.boundary > b {
      OutcomeIsNewestReady(s.cursor, l.boundary, qs);
    }
    var k :| k in s.streams && r in s.streams[k].rounds;
    if o.Some? {
      BufferedAfter(s, l);
      if s.cursor.playing.Some? {
        ReleaseMovesLawfully(s.cursor, l.boundary, qs);
      }
    } else {
      SameBuffered(s, AtBoundary(s, l));
    }
  }

  lemma StepServes(s: Sender, e: Event, r: int, b: int)
    requires Inv(s) && (e.Boundary? ==> e.l.rate > 0) && Waits(s, r, b)
    ensures StreamsOk(s)
    ensures Waits(Step(s, e), r, b) || Reached(Step(s, e), r)
    ensures e.Boundary? && e.l.boundary > b && !Ignored(s.cursor, e.l.boundary) ==> Reached(Step(s, e), r)
  {
    hide Inv, AtBoundary, Swept, Buffered, Minted, PlaceAll;
    InvOk(s);
    match e {
      case Mint(k, now, cushion, chunk) =>
        MintKeeps(s, k, now, cushion, chunk);
        MintKeepsCursor(s, k, now, cushion, chunk);
      case Frames(k, born, mark, frames) =>
        if k in s.streams {
          PlaceAllKeeps(s, k, mark, frames);
        }
      case Boundary(l, now, graces) =>
        SweepKeepsAbove(s, now, graces, r);
        SweepSparesWhatIsDue(s, now, graces);
        BoundaryServes(Swept(s, now, graces), l, r, b);
      case TopUp(beat) => TopUpKeeps(s, beat);
      case Announce(intent) => SameBuffered(s, s.(intent := intent));
    }
  }

  /** NO STARVATION. A round buffered above the cursor and first seen at boundary b is played or passed by the time
      the first processed boundary after b is over, whatever else happens in between: frames, sweeps, announcements,
      other boundaries. */
  lemma {:induction false} NothingStarves(s: Sender, es: seq<Event>, r: int, b: int, m: nat) returns (j: nat)
    requires Inv(s) && RatesOk(es) && Waits(s, r, b)
    requires m < |es| && es[m].Boundary? && es[m].l.boundary > b && !Ignored(After(s, es[..m]).cursor, es[m].l.boundary)
    ensures j <= m + 1 && Reached(After(s, es[..j]), r)
  {
    hide Inv, Step, Waits, Reached;
    assert es[..0] == [];
    j := 0;
    while j < m && !Reached(After(s, es[..j]), r)
      invariant j <= m
      invariant Waits(After(s, es[..j]), r, b) || Reached(After(s, es[..j]), r)
    {
      StepServes(After(s, es[..j]), es[j], r, b);
      assert es[..j + 1][..j] == es[..j];
      j := j + 1;
    }
    if !Reached(After(s, es[..j]), r) {
      StepServes(After(s, es[..m]), es[m], r, b);
      assert es[..m + 1][..m] == es[..m];
      j := m + 1;
    }
  }

  // ---------------------------------------------------------------- what a release counts as unheard

  /** A boundary finds a round to release: it is new, and some candidate is ready. */
  ghost predicate ReleaseDue(s: Sender, boundary: int) {
    var qs := StatesOf(s, boundary);
    !Ignored(s.cursor, boundary) && exists q <- qs :: Candidate(s.cursor, qs, q) && Playout.Ready(q, boundary)
  }

  /** The slots of a round that never held anything. */
  function HolesOf(p: Partial): nat {
    Holes(p, Reassembly.Frames(p))
  }

  /** A release counts every slot still empty in the round that was playing exactly when something above that round is
      buffered, or there is nothing to count. Otherwise the sender has restarted: its old round is taken out before it
      is measured, and none of its losses are counted. */
  lemma UnheardIsCountedIff(s: Sender, l: Local, k: nat)
    requires Inv(s) && StreamsOk(s) && ReleaseDue(s, l.boundary)
    requires k in s.streams && s.cursor.playing.Some? && s.cursor.playing.value in s.streams[k].rounds
    ensures k in AtBoundary(s, l).streams
    ensures var counted := AtBoundary(s, l).streams[k].missedAtPlay - s.streams[k].missedAtPlay;
            var holes := HolesOf(s.streams[k].rounds[s.cursor.playing.value]);
            && (counted == holes <==> !NoneAbove(s) || holes == 0)
            && (NoneAbove(s) ==> counted == 0)
  {
    hide FeederModel.Ok, Inv, StatesOf, HandedOver, Candidate, NothingAbove, NoneAbove, Playout.Ready;
    OutcomeIsNewestReady(s.cursor, l.boundary, StatesOf(s, l.boundary));
    ReleaseMovesLawfully(s.cursor, l.boundary, StatesOf(s, l.boundary));
    NothingAboveIsNoneAbove(s, l.boundary);
    UnheardIsCountedUnlessRestarted(s, l);
  }

  /** Round 60 is playing with its first frame missing; the restarted sender's round 3 is there whole. */
  const OLD_ROUND := Partial(Silence(2 * WINDOW), [Empty, Real], 1, 0, -1, 2)
  const NEW_ROUND := Partial(Silence(WINDOW), [Real], 1, 0, 1, 1)
  const RESTARTED := Sender(Cursor(Some(60), Some(0)), map[3 := 0],
                            map[0 := Stream(0, map[60 := OLD_ROUND, 3 := NEW_ROUND], NewFeeder(1, 1), 0, 0, 0)], NoNews, 1)

  /** So it happens that a missed frame is never counted. */
  lemma RestartHidesLosses(l: Local)
    requires l.boundary == 1
    ensures Inv(RESTARTED) && StreamsOk(RESTARTED) && HolesOf(OLD_ROUND) == 1
    ensures var t := AtBoundary(RESTARTED, l);
            t.cursor.playing == Some(3) && 0 in t.streams && t.streams[0].missedAtPlay == 0
  {
    var s := RESTARTED;
    RestartedRounds();
    hide HandedOver;
    assert forall r :: Buffered(s, r) <==> r == 60 || r == 3 by {
      assert 60 in s.streams[0].rounds && 3 in s.streams[0].rounds;
    }
    var qs, q := StatesOf(s, 1), StateOf(s, 3, 1);
    assert q in qs && NothingAbove(s.cursor, qs);
    assert Releases(s.cursor, 1, qs, q);
    OutcomeIs(s.cursor, 1, qs, q);
  }

  lemma RestartedRounds()
    ensures HolesOf(OLD_ROUND) == 1 && Complete(NEW_ROUND)
  {
    assert Holes(OLD_ROUND, 0) == 0 && Holes(OLD_ROUND, 1) == 1;
  }
}
