/** The lives of a sender's streams: when one ends, that an ended one never comes back, and what a release leaves of those
    that go on. */
module StreamLives {
  import opened Common
  import opened Reassembly
  import opened FeederModel
  import opened Playout
  import opened Rounds
  import opened RoundRuns

  /** Whoever publishes the stream has let go of it, and its grace is over. */
  predicate LetGo(s: Sender, k: nat, now: int, g: Graces)
    requires k in s.streams
  {
    var idle := now - s.streams[k].lastFrameAt;
    || (s.intent.Gone? && idle >= g.gone)
    || (s.intent.Keep? && k !in s.intent.streams && idle >= g.dropped)
  }

  /** Nothing of it is still to be played. */
  predicate PlayedOut(s: Sender, k: nat)
    requires k in s.streams
  {
    forall r <- s.streams[k].rounds :: s.cursor.playing.Some? && r <= s.cursor.playing.value
  }

  /** A STREAM ENDS at a boundary if and only if it has been let go and played out; the others go on untouched, and with the
      last one the sender is forgotten. */
  lemma StreamEndsIff(s: Sender, now: int, g: Graces)
    ensures var t := Swept(s, now, g);
            && (forall k <- s.streams :: k !in t.streams <==> LetGo(s, k, now, g) && PlayedOut(s, k))
            && (forall k <- t.streams :: k in s.streams && t.streams[k] == s.streams[k])
            && t.births == s.births
            && (if t.streams == map[] then t.cursor == Cursor(None, None) && t.firstSeen == map[] && t.intent == NoNews
                else t == s.(streams := t.streams))
  {
    var t := Swept(s, now, g);
    forall k | k in s.streams
      ensures k !in t.streams <==> LetGo(s, k, now, g) && PlayedOut(s, k)
    {
      DueIff(s, k);
    }
  }

  lemma DueIff(s: Sender, k: nat)
    requires k in s.streams
    ensures Due(s, k) <==> !PlayedOut(s, k)
  {
    var rounds, c := s.streams[k].rounds, s.cursor.playing;
    if rounds != map[] {
      var item :| item in rounds.Items;
      var r := item.0;
      assert r in rounds;
      if c.None? {
        assert !PlayedOut(s, k);
      } else {
        assert PlayedOut(s, k) <==> !exists q <- rounds :: q > c.value;
      }
    }
  }

  /** A frame keeps its stream alive: its idle clock starts anew, and only if it had no stream is one published, empty, under
      the next birth number, with the cushion asked for. Nothing else changes. */
  lemma FrameKeepsAlive(s: Sender, k: nat, now: int, cushion: int, chunk: int)
    ensures var t := Minted(s, k, now, cushion, chunk);
            && t.streams.Keys == s.streams.Keys + {k} && t == s.(streams := t.streams, births := t.births)
            && (forall j <- s.streams :: j != k ==> t.streams[j] == s.streams[j])
            && var u := t.streams[k];
               && u.lastFrameAt == now
               && (if k in s.streams then u == s.streams[k].(lastFrameAt := now) && t.births == s.births
                   else && u.rounds == map[] && u.born == s.births && t.births == s.births + 1
                        && u.missedAtPlay == 0 && u.incomplete == 0
                        && u.feeder.cur.None? && u.feeder.next.None?
                        && u.feeder.chunk == Max(chunk, 1) && u.feeder.cushion == Max(cushion, u.feeder.chunk))
  {
  }

  // ---------------------------------------------------------------- births

  /** Births are numbered: every stream's is below the next, and stream k is not, or never again, the one born as b. */
  predicate Past(s: Sender, k: nat, b: nat) {
    b < s.births && (forall j <- s.streams :: s.streams[j].born < s.births) && (k in s.streams ==> s.streams[k].born != b)
  }

  predicate Numbered(s: Sender) {
    forall j <- s.streams :: s.streams[j].born < s.births
  }

  lemma {:induction false} PlaceAllSameBirths(s: Sender, k: nat, mark: int, frames: seq<(int, Arrival)>)
    requires k in s.streams
    ensures var t := PlaceAll(s, k, mark, frames);
            && t.streams.Keys == s.streams.Keys && t.births == s.births
            && forall j <- s.streams :: t.streams[j].born == s.streams[j].born
    decreases |frames|
  {
    hide Apply;
    if frames != [] {
      PlaceAllSameBirths(PlaceOne(s, k, mark, frames[0].0, frames[0].1), k, mark, frames[1..]);
    }
  }

  /** Streams only ever come with a new birth number. */
  lemma StepBirths(s: Sender, e: Event)
    requires Inv(s) && Numbered(s) && (e.Boundary? ==> e.l.rate > 0)
    ensures var t := Step(s, e);
            && t.births >= s.births && Numbered(t)
            && forall j <- t.streams :: (j in s.streams && t.streams[j].born == s.streams[j].born) || t.streams[j].born >= s.births
  {
    hide FeederModel.Ok, Marked, NoStragglers, InStep, Released, Outcome, StatesOf, Buffered, PlaceAll, ToppedUp;
    match e {
      case Frames(k, born, mark, frames) =>
        if k in s.streams {
          PlaceAllSameBirths(s, k, mark, frames);
        }
      case Boundary(l, now, g) =>
        SweepSparesWhatIsDue(s, now, g);
        BoundaryBirths(Swept(s, now, g), l);
      case TopUp(beat) =>
        TopUpBirths(s, beat);
      case _ =>
    }
  }

  lemma TopUpBirths(s: Sender, beat: real)
    requires StreamsOk(s)
    ensures var t := Step(s, TopUp(beat));
            t.streams.Keys == s.streams.Keys && t.births == s.births && forall j <- s.streams :: t.streams[j].born == s.streams[j].born
  {
    hide FeederModel.Ok, Advance;
  }

  lemma BoundaryBirths(s: Sender, l: Local)
    requires StreamsOk(s)
    ensures var t := AtBoundary(s, l);
            && t.streams.Keys == s.streams.Keys && t.births == s.births
            && forall j <- s.streams :: t.streams[j].born == s.streams[j].born
  {
    hide FeederModel.Ok, HandedOver, Outcome, StatesOf, Buffered;
  }

  /** AN ENDED STREAM STAYS ENDED: once stream k is gone or someone else's, no later run brings back the one born as b, so a
      frame that was still being decoded for it is dropped, whatever has been published under its number since. */
  lemma {:induction false} EndedStaysEnded(s: Sender, es: seq<Event>, k: nat, b: nat, mark: int, frames: seq<(int, Arrival)>)
    requires Inv(s) && RatesOk(es) && Past(s, k, b)
    ensures Past(After(s, es), k, b) && Received(After(s, es), k, b, mark, frames) == After(s, es)
    decreases |es|
  {
    hide Inv, Step;
    if es != [] {
      var n := |es| - 1;
      var t := After(s, es[..n]);
      EndedStaysEnded(s, es[..n], k, b, mark, frames);
      StepBirths(t, es[n]);
    }
  }

  // ---------------------------------------------------------------- what arrives, and what a release leaves

  /** The frame is for a round still to come: above the playing one, or so far below that its sender must have restarted. */
  predicate ToCome(s: Sender, r: int) {
    s.cursor.playing.Some? ==> r > s.cursor.playing.value || r <= s.cursor.playing.value - 8
  }

  /** A round is marked when its first frame arrives, with the boundary count of that moment, and keeps that mark; no other
      stream is touched. */
  lemma {:induction false} FirstSeenIsFirst(s: Sender, k: nat, mark: int, frames: seq<(int, Arrival)>)
    requires k in s.streams
    ensures var t := PlaceAll(s, k, mark, frames);
            && t.cursor == s.cursor && t.intent == s.intent && t.streams.Keys == s.streams.Keys
            && (forall j <- s.streams :: j != k ==> t.streams[j] == s.streams[j])
            && (forall r :: r in t.firstSeen <==> r in s.firstSeen || (ToCome(s, r) && exists i :: 0 <= i < |frames| && frames[i].0 == r))
            && (forall r <- t.firstSeen :: t.firstSeen[r] == if r in s.firstSeen then s.firstSeen[r] else mark)
    decreases |frames|
  {
    hide Apply;
    if frames != [] {
      var s1 := PlaceOne(s, k, mark, frames[0].0, frames[0].1);
      FirstSeenIsFirst(s1, k, mark, frames[1..]);
      var t := PlaceAll(s, k, mark, frames);
      forall r
        ensures r in t.firstSeen <==> r in s.firstSeen || (ToCome(s, r) && exists i :: 0 <= i < |frames| && frames[i].0 == r)
      {
        if i :| 0 <= i < |frames| && frames[i].0 == r {
          if i > 0 {
            assert frames[1..][i - 1].0 == r;
          }
        }
        if i :| 0 <= i < |frames[1..]| && frames[1..][i].0 == r {
          assert frames[i + 1].0 == r;
        }
      }
    }
  }

  predicate AllThere(st: Stream, r: int) {
    r in st.rounds && st.rounds[r].total > 0 && st.rounds[r].received >= st.rounds[r].total
  }

  /** What a stream keeps when round q is released: q itself and, unless the cursor has dropped to a restarted sender's
      rounds, what lies above it. It counts q as incomplete unless it has all of it. */
  ghost predicate LeftOf(u: Stream, st: Stream, q: int, dropped: bool) {
    && (forall r :: r in u.rounds <==> r in st.rounds && (r == q || (r > q && !dropped)))
    && (forall r <- u.rounds :: u.rounds[r] == st.rounds[r])
    && u.incomplete == st.incomplete + (if AllThere(st, q) then 0 else 1)
    && u.born == st.born && u.lastFrameAt == st.lastFrameAt
  }

  /** WHAT A RELEASE LEAVES, of every stream, and of the marks: none at or below the release, nor any of an old era. A boundary
      with nothing to release leaves all of it alone. */
  lemma ReleaseLeaves(s: Sender, l: Local)
    requires Inv(s) && l.rate > 0 && s.streams != map[]
    ensures var t := AtBoundary(s, l);
            && t.streams.Keys == s.streams.Keys
            && (if ReleaseDue(s, l.boundary) then
                  && t.cursor.playing.Some?
                  && var q := t.cursor.playing.value; var dropped := s.cursor.playing.Some? && q < s.cursor.playing.value;
                     && (forall k <- s.streams :: LeftOf(t.streams[k], s.streams[k], q, dropped))
                     && (forall r :: r in t.firstSeen <==> r in s.firstSeen && r > q && !(dropped && Buffered(s, r)))
                     && (forall r <- t.firstSeen :: t.firstSeen[r] == s.firstSeen[r])
                else t.streams == s.streams && t.firstSeen == s.firstSeen && t.cursor.playing == s.cursor.playing)
  {
    hide FeederModel.Ok, Released, StatesOf, Candidate, Buffered, Marked, NoStragglers, InStep, Playout.Ready, LeftOf;
    if !Ignored(s.cursor, l.boundary) {
      OutcomeIsNewestReady(s.cursor, l.boundary, StatesOf(s, l.boundary));
    }
    if ReleaseDue(s, l.boundary) {
      var q := AtBoundary(s, l).cursor.playing.value;
      forall k | k in s.streams
        ensures LeftOf(AtBoundary(s, l).streams[k], s.streams[k], q, Repins(s.cursor, q))
      {
        ReleasedLeaves(s.streams[k], s.cursor.playing, q, Repins(s.cursor, q), l);
      }
    }
  }

  lemma ReleasedLeaves(st: Stream, prev: Option<int>, q: int, repin: bool, l: Local)
    requires FeederModel.Ok(st.feeder)
    ensures LeftOf(Released(st, prev, q, repin, l), st, q, repin)
  {
    hide FeederModel.Ok, HandedOver, Unheard;
  }

  /** A round the cursor may go to: above the playing one or, when nothing is, so far below that the sender must have
      restarted. */
  ghost predicate Eligible(s: Sender, r: int) {
    Buffered(s, r) && (s.cursor.playing.Some? ==> r > s.cursor.playing.value || (NoneAbove(s) && r <= s.cursor.playing.value - 8))
  }

  /** Every stream holding it has all of it, or it was first seen at an earlier boundary. */
  predicate MayPlay(s: Sender, r: int, boundary: int) {
    || (r in s.firstSeen && s.firstSeen[r] < boundary)
    || (forall k <- s.streams :: r in s.streams[k].rounds ==> AllThere(s.streams[k], r))
  }

  /** THE FRESHEST ROUND THAT MAY PLAY: a boundary not processed before moves the cursor to the newest eligible round that may
      play, and leaves it if there is none; one processed before changes nothing. */
  lemma BoundaryPicksTheFreshest(s: Sender, l: Local)
    requires Inv(s) && l.rate > 0 && s.streams != map[]
    ensures var t := AtBoundary(s, l); var q := t.cursor.playing;
            if s.cursor.boundary.Some? && l.boundary <= s.cursor.boundary.value then
              t == s
            else
              && t.cursor.boundary == Some(l.boundary)
              && (forall r :: Eligible(s, r) && MayPlay(s, r, l.boundary) ==> q.Some? && r <= q.value)
              && (q != s.cursor.playing ==> q.Some? && Eligible(s, q.value) && MayPlay(s, q.value, l.boundary))
  {
    hide FeederModel.Ok, Released, Marked, NoStragglers, InStep, Candidate, NothingAbove, Playout.Ready, Eligible, MayPlay, NoneAbove,
      Buffered, StatesOf;
    var qs := StatesOf(s, l.boundary);
    if !Ignored(s.cursor, l.boundary) {
      OutcomeIsNewestReady(s.cursor, l.boundary, qs);
      forall r | Eligible(s, r) && MayPlay(s, r, l.boundary)
        ensures var o := Outcome(s.cursor, l.boundary, qs); o.Some? && r <= o.value
      {
        EligibleIsCandidate(s, r, l.boundary);
      }
      var o := Outcome(s.cursor, l.boundary, qs);
      if o.Some? {
        var r :| Releases(s.cursor, l.boundary, qs, r) && r.index == o.value;
        CandidateIsEligible(s, r, l.boundary);
      }
    }
  }

  lemma MayPlayIsReady(s: Sender, r: int, boundary: int)
    ensures MayPlay(s, r, boundary) <==> Playout.Ready(StateOf(s, r, boundary), boundary)
  {
  }

  lemma EligibleIsCandidate(s: Sender, r: int, boundary: int)
    requires Eligible(s, r) && MayPlay(s, r, boundary)
    ensures var q := StateOf(s, r, boundary);
            q in StatesOf(s, boundary) && Candidate(s.cursor, StatesOf(s, boundary), q) && Playout.Ready(q, boundary)
  {
    MayPlayIsReady(s, r, boundary);
    hide MayPlay, Playout.Ready, RoundDone;
    if s.cursor.playing.Some? {
      NothingAboveIsNoneAbove(s, boundary);
    }
  }

  lemma CandidateIsEligible(s: Sender, q: RoundState, boundary: int)
    requires Candidate(s.cursor, StatesOf(s, boundary), q) && Playout.Ready(q, boundary)
    ensures Eligible(s, q.index) && MayPlay(s, q.index, boundary)
  {
    MayPlayIsReady(s, q.index, boundary);
    hide MayPlay, Playout.Ready, RoundDone;
    if s.cursor.playing.Some? {
      NothingAboveIsNoneAbove(s, boundary);
    }
  }
}
