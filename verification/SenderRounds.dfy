/** The object behind Rounds.dfy: what the engine keeps for one sender identity, updated in place as frames arrive and
    boundaries pass. Each method is proved to take the step of the same name. */
module SenderRounds {
  import opened Common
  import opened Audio
  import opened FeederModel
  import opened Reassembly
  import opened Playout
  import opened Rounds

  class SenderState {
    var adaptive: Adaptive
    var firstSeen: map<int, int>
    var streams: map<nat, Stream>
    var intent: Intent
    var births: nat

    ghost function Value(): Sender
      reads this, adaptive
    {
      Sender(adaptive.Value(), firstSeen, streams, intent, births)
    }

    constructor ()
      ensures Value() == NOBODY && fresh(adaptive)
    {
      adaptive := new Adaptive();
      firstSeen, streams, intent, births := map[], map[], NoNews, 0;
    }

    method Mint(k: nat, now: int, cushionFrames: int, chunkFrames: int)
      modifies this
      ensures Value() == Minted(old(Value()), k, now, cushionFrames, chunkFrames)
    {
      if k !in streams {
        var f := NewFeeder(cushionFrames, chunkFrames);
        streams := streams[k := Stream(births, map[], f, now, 0, 0)];
        births := births + 1;
      } else {
        streams := streams[k := streams[k].(lastFrameAt := now)];
      }
    }

    method NoteFirstSeen(idx: int, boundary: int)
      modifies this`firstSeen
      ensures firstSeen == Noted(old(firstSeen), idx, boundary)
    {
      if idx !in firstSeen {
        firstSeen := firstSeen[idx := boundary];
      }
    }

    /** Place decoded and concealed frames, in stream order, under the boundary count of the moment. */
    method Place(k: nat, born: nat, mark: int, frames: seq<(int, Arrival)>)
      modifies this
      ensures Value() == Received(old(Value()), k, born, mark, frames)
    {
      hide Reassembly.Apply;
      if k !in streams || streams[k].born != born {
        return;
      }
      ghost var s0 := Value();
      for i := 0 to |frames|
        invariant k in streams
        invariant PlaceAll(Value(), k, mark, frames[i..]) == PlaceAll(s0, k, mark, frames)
      {
        var (round, a) := frames[i];
        var d := adaptive.Dispose(round);
        if d != TooLate {
          if d == Buffer {
            NoteFirstSeen(round, mark);
          }
          var st := streams[k];
          streams := streams[k := st.(rounds := st.rounds[round := Reassembly.Apply(PartialAt(st.rounds, round), WINDOW, a)])];
        }
        assert frames[i..][1..] == frames[i + 1..];
      }
    }

    method Announce(what: Intent)
      modifies this`intent
      ensures Value() == old(Value()).(intent := what)
      ensures StreamsOk(old(Value())) ==> Value() == Step(old(Value()), Event.Announce(what))
    {
      intent := what;
    }

    /** The highest buffered round lies above the cursor, or nothing has played yet. */
    method IsDue(st: Stream) returns (due: bool)
      ensures due <==> st.rounds != map[]
                       && (Value().cursor.playing.None? || exists r <- st.rounds :: r > Value().cursor.playing.value)
    {
      if |st.rounds| == 0 {
        return false;
      }
      if !adaptive.hasPlaying {
        return true;
      }
      due := exists r <- st.rounds :: r > adaptive.playing;
    }

    /** Close idle streams whose sender no longer claims them, unless audio of theirs is still due. */
    method CloseIdle(now: int, g: Graces)
      modifies this`streams
      ensures streams == map k | k in old(streams) && !Retires(old(Value()), k, now, g) :: old(streams)[k]
    {
      ghost var s0 := Value();
      var before := streams;
      var left := streams.Items;
      while left != {}
        invariant left <= before.Items && streams.Keys <= before.Keys
        invariant forall k <- streams :: streams[k] == before[k]
        invariant forall k <- before :: k !in streams <==> Retires(s0, k, now, g) && (k, before[k]) !in left
        decreases |left|
      {
        var item :| item in left;
        var (k, st) := item;
        assert k in before && before[k] == st;
        var unclaimed := match intent
          case NoNews => false
          case Gone => now - st.lastFrameAt >= g.gone
          case Keep(own) => k !in own && now - st.lastFrameAt >= g.dropped;
        var due := IsDue(st);
        if unclaimed && !due {
          streams := streams - {k};
        }
        left := left - {item};
      }
    }

    /** The boundary sweep: a sender with nothing published left is forgotten altogether. */
    method Sweep(now: int, g: Graces)
      modifies this
      ensures Value() == Swept(old(Value()), now, g)
      ensures adaptive == old(adaptive) || fresh(adaptive)
    {
      CloseIdle(now, g);
      if |streams| == 0 {
        assert streams == map[];
        adaptive := new Adaptive();
        firstSeen, intent := map[], NoNews;
      }
    }

    // ---------------------------------------------------------------- candidates

    /** One stream's share in the union of buffered rounds: complete only if complete everywhere it is held. */
    method MergeStream(complete: map<int, bool>, rounds: map<int, Partial>) returns (merged: map<int, bool>)
      ensures forall r :: r in merged <==> r in complete || r in rounds
      ensures forall r <- merged :: merged[r] <==> (r in complete ==> complete[r]) && (r in rounds ==> Complete(rounds[r]))
    {
      merged := complete;
      var left := rounds.Items;
      while left != {}
        invariant left <= rounds.Items
        invariant forall r :: r in merged <==> r in complete || (r in rounds && (r, rounds[r]) !in left)
        invariant forall r <- merged ::
                    merged[r] <==> (r in complete ==> complete[r]) && (r in rounds && (r, rounds[r]) !in left ==> Complete(rounds[r]))
        decreases |left|
      {
        var item :| item in left;
        var (r, p) := item;
        assert r in rounds && rounds[r] == p;
        merged := merged[r := (r !in merged || merged[r]) && p.total > 0 && p.received >= p.total];
        left := left - {item};
      }
    }

    method CompleteByRound() returns (complete: map<int, bool>)
      ensures forall r :: r in complete <==> Buffered(Value(), r)
      ensures forall r <- complete :: complete[r] <==> RoundDone(Value(), r)
    {
      hide Complete;
      complete := map[];
      var left := streams.Items;
      while left != {}
        invariant left <= streams.Items
        invariant forall r :: r in complete <==> exists k <- streams :: (k, streams[k]) !in left && r in streams[k].rounds
        invariant forall r <- complete :: complete[r] <==>
                    forall k <- streams :: (k, streams[k]) !in left && r in streams[k].rounds ==> Complete(streams[k].rounds[r])
        decreases |left|
      {
        var item :| item in left;
        var (k, st) := item;
        assert k in streams && streams[k] == st;
        ghost var before, seen := complete, left;
        complete := MergeStream(complete, st.rounds);
        left := left - {item};
        OneMore(seen, left, k, before, complete);
      }
    }

    lemma OneMore(seen: set<(nat, Stream)>, left: set<(nat, Stream)>, k: nat, before: map<int, bool>, complete: map<int, bool>)
      requires k in streams && (k, streams[k]) in seen && left == seen - {(k, streams[k])}
      requires forall r :: r in before <==> exists k <- streams :: (k, streams[k]) !in seen && r in streams[k].rounds
      requires forall r <- before :: before[r] <==>
                 forall k <- streams :: (k, streams[k]) !in seen && r in streams[k].rounds ==> Complete(streams[k].rounds[r])
      requires forall r :: r in complete <==> r in before || r in streams[k].rounds
      requires forall r <- complete ::
                 complete[r] <==> (r in before ==> before[r]) && (r in streams[k].rounds ==> Complete(streams[k].rounds[r]))
      ensures forall r :: r in complete <==> exists k <- streams :: (k, streams[k]) !in left && r in streams[k].rounds
      ensures forall r <- complete :: complete[r] <==>
                forall k <- streams :: (k, streams[k]) !in left && r in streams[k].rounds ==> Complete(streams[k].rounds[r])
    {
      hide Complete;
      forall r
        ensures r in complete <==> exists k <- streams :: (k, streams[k]) !in left && r in streams[k].rounds
      {
        if r in streams[k].rounds {
          assert (k, streams[k]) !in left;
        }
        if r in before {
          var j :| j in streams && (j, streams[j]) !in seen && r in streams[j].rounds;
          assert (j, streams[j]) !in left;
        }
      }
      forall r | r in complete
        ensures complete[r] <==>
                forall k <- streams :: (k, streams[k]) !in left && r in streams[k].rounds ==> Complete(streams[k].rounds[r])
      {
        assert forall j <- streams :: (j, streams[j]) !in left <==> j == k || (j, streams[j]) !in seen;
      }
    }

    /** What the cursor chooses from at this boundary. */
    method States(boundary: int) returns (states: seq<RoundState>)
      ensures SetOf(states) == StatesOf(Value(), boundary)
    {
      var complete := CompleteByRound();
      states := [];
      var left := complete.Items;
      while left != {}
        invariant left <= complete.Items
        invariant forall q :: q in states <==> q.index in complete && (q.index, complete[q.index]) !in left
                                               && q == StateOf(Value(), q.index, boundary)
        decreases |left|
      {
        var item :| item in left;
        var (r, c) := item;
        assert r in complete && complete[r] == c;
        var seen := if r in firstSeen then firstSeen[r] else boundary;
        var q := RoundState(r, c, seen);
        assert q == StateOf(Value(), r, boundary);
        states := states + [q];
        left := left - {item};
      }
    }

    // ---------------------------------------------------------------- the release

    /** Forget the marks of rounds at or below the release. */
    method DropFirstSeenThrough(release: int)
      modifies this`firstSeen
      ensures firstSeen == map r | r in old(firstSeen) && r > release :: old(firstSeen)[r]
    {
      var before := firstSeen;
      var left := firstSeen.Items;
      while left != {}
        invariant left <= before.Items && firstSeen.Keys <= before.Keys
        invariant forall r <- firstSeen :: firstSeen[r] == before[r]
        invariant forall r <- before :: r !in firstSeen <==> r <= release && (r, before[r]) !in left
        decreases |left|
      {
        var item :| item in left;
        var (r, mark) := item;
        if r <= release {
          firstSeen := firstSeen - {r};
        }
        left := left - {item};
      }
    }

    static function Without(streams: map<nat, Stream>, gone: set<int>): map<nat, Stream> {
      map k | k in streams :: streams[k].(rounds := streams[k].rounds - gone)
    }

    /** Rounds passed over above the release are an old era's: take them out of every stream. */
    method TakeOldEra(skipped: seq<int>, release: int) returns (ghost gone: set<int>)
      modifies this`firstSeen, this`streams
      ensures forall r :: r in gone <==> r in skipped && r > release
      ensures firstSeen == old(firstSeen) - gone && streams == Without(old(streams), gone)
    {
      gone := {};
      assert streams == Without(streams, {}) by {
        NoneTaken(streams);
      }
      for i := 0 to |skipped|
        invariant forall r :: r in gone <==> r in skipped[..i] && r > release
        invariant firstSeen == old(firstSeen) - gone && streams == Without(old(streams), gone)
      {
        var r := skipped[i];
        if r > release {
          firstSeen := firstSeen - {r};
          streams := Without(streams, {r});
          TakenTwice(old(streams), gone, {r});
          gone := gone + {r};
        }
      }
    }

    static lemma NoneTaken(streams: map<nat, Stream>)
      ensures Without(streams, {}) == streams
    {
      forall k | k in streams
        ensures streams[k].rounds - {} == streams[k].rounds
      {
      }
    }

    static lemma TakenTwice(streams: map<nat, Stream>, a: set<int>, b: set<int>)
      ensures Without(Without(streams, a), b) == Without(streams, a + b)
    {
      forall k | k in streams
        ensures streams[k].rounds - a - b == streams[k].rounds - (a + b)
      {
      }
    }

    /** Every stream measures the round it just played, drops what lies below the release and hands its reader over. */
    method ReleaseAll(prev: Option<int>, release: int, l: Local)
      requires forall k <- streams :: FeederModel.Ok(streams[k].feeder)
      modifies this`streams
      ensures streams == map k | k in old(streams) :: Released(old(streams)[k], prev, release, false, l)
    {
      hide FeederModel.Ok, Released;
      var before := streams;
      var left := streams.Items;
      while left != {}
        invariant left <= before.Items && streams.Keys == before.Keys
        invariant forall k <- before ::
                    streams[k] == if (k, before[k]) in left then before[k] else Released(before[k], prev, release, false, l)
        decreases |left|
      {
        var item :| item in left;
        var (k, st) := item;
        assert k in before && before[k] == st;
        streams := streams[k := Released(st, prev, release, false, l)];
        left := left - {item};
      }
    }

    /** What the rounds passed over are, and so what a release leaves of each stream. */
    lemma ReleaseIs(s: Sender, l: Local, release: int, skipped: seq<int>, gone: set<int>)
      requires StreamsOk(s) && s.streams != map[]
      requires Outcome(s.cursor, l.boundary, StatesOf(s, l.boundary)) == Some(release)
      requires forall i :: i != release ==> (i in skipped <==> Skips(s.cursor, StatesOf(s, l.boundary), release, i))
      requires forall r :: r in gone <==> r in skipped && r > release
      ensures var repin := Repins(s.cursor, release);
              && (map r | r in s.firstSeen && r > release :: s.firstSeen[r]) - gone
                 == (map r | r in s.firstSeen && r > release && !(repin && Buffered(s, r)) :: s.firstSeen[r])
              && (forall k <- s.streams ::
                    Released(s.streams[k].(rounds := s.streams[k].rounds - gone), s.cursor.playing, release, false, l)
                    == Released(s.streams[k], s.cursor.playing, release, repin, l))
    {
      hide FeederModel.Ok, Outcome, StatesOf, Skips, Repins, Released, Buffered;
      GoneIs(s, l, release, skipped, gone);
      var repin := Repins(s.cursor, release);
      forall k | k in s.streams
        ensures Released(s.streams[k].(rounds := s.streams[k].rounds - gone), s.cursor.playing, release, false, l)
             == Released(s.streams[k], s.cursor.playing, release, repin, l)
      {
        assert forall r <- s.streams[k].rounds :: Buffered(s, r) by {
          HeldIsBuffered(s, k);
        }
        RoundsLeft(s.streams[k], s.cursor.playing, gone, release, repin, l);
      }
    }

    lemma HeldIsBuffered(s: Sender, k: nat)
      requires k in s.streams
      ensures forall r <- s.streams[k].rounds :: Buffered(s, r)
    {
    }

    lemma RoundsLeft(st: Stream, prev: Option<int>, gone: set<int>, release: int, repin: bool, l: Local)
      requires FeederModel.Ok(st.feeder)
      requires forall r <- st.rounds :: r in gone <==> repin && r > release
      ensures Released(st.(rounds := st.rounds - gone), prev, release, false, l) == Released(st, prev, release, repin, l)
    {
      hide FeederModel.Ok, HandedOver, Complete, Reassembly.Holes;
      var rs := st.rounds;
      var u := st.(rounds := rs - gone);
      assert Unheard(u, prev, release, false) == Unheard(st, prev, release, repin);
      assert release in u.rounds <==> release in rs;
      assert (map r | r in (rs - gone) && Kept(r, release, false) :: (rs - gone)[r])
          == (map r | r in rs && Kept(r, release, repin) :: rs[r]);
    }

    lemma GoneIs(s: Sender, l: Local, release: int, skipped: seq<int>, gone: set<int>)
      requires StreamsOk(s)
      requires Outcome(s.cursor, l.boundary, StatesOf(s, l.boundary)) == Some(release)
      requires forall i :: i != release ==> (i in skipped <==> Skips(s.cursor, StatesOf(s, l.boundary), release, i))
      requires forall r :: r in gone <==> r in skipped && r > release
      ensures forall r :: r in gone <==> Repins(s.cursor, release) && Buffered(s, r) && r > release
    {
      hide FeederModel.Ok, RoundDone, Buffered;
      var qs := StatesOf(s, l.boundary);
      forall r | r > release
        ensures Skips(s.cursor, qs, release, r) <==> Repins(s.cursor, release) && Buffered(s, r)
      {
        if Buffered(s, r) {
          assert StateOf(s, r, l.boundary) in qs;
        }
      }
    }

    /** Forget what the release leaves behind, and hand every stream over. */
    method ReleaseRound(ghost s: Sender, prev: Option<int>, release: int, skipped: seq<int>, l: Local)
      requires StreamsOk(s) && s.streams == streams && s.firstSeen == firstSeen && streams != map[] && prev == s.cursor.playing
      requires Outcome(s.cursor, l.boundary, StatesOf(s, l.boundary)) == Some(release)
      requires forall i :: i != release ==> (i in skipped <==> Skips(s.cursor, StatesOf(s, l.boundary), release, i))
      modifies this`firstSeen, this`streams
      ensures var repin := Repins(s.cursor, release);
              && firstSeen == (map r | r in s.firstSeen && r > release && !(repin && Buffered(s, r)) :: s.firstSeen[r])
              && streams == (map k | k in s.streams :: Released(s.streams[k], s.cursor.playing, release, repin, l))
    {
      hide FeederModel.Ok, Released, Outcome, StatesOf, Repins, Skips, Buffered, Without;
      DropFirstSeenThrough(release);
      ghost var gone := TakeOldEra(skipped, release);
      ReleaseIs(s, l, release, skipped, gone);
      WithoutOk(s.streams, gone);
      ReleaseAll(prev, release, l);
      SameRelease(s.streams, s.cursor.playing, gone, release, Repins(s.cursor, release), l);
    }

    /** A local boundary: sweep, let the cursor choose, and hand every stream over to the released round. */
    method OnBoundary(l: Local, now: int, g: Graces)
      requires StreamsOk(Value()) && l.rate > 0
      modifies this, adaptive
      ensures Value() == Step(old(Value()), Boundary(l, now, g))
    {
      hide FeederModel.Ok, Released, Outcome, StatesOf, Repins, Skips, Buffered, Swept, AtBoundary;
      SweptOk(Value(), now, g);
      Sweep(now, g);
      ghost var s := Value();
      BoundaryIs(s, l);
      if |streams| == 0 {
        return;
      }
      var states := States(l.boundary);
      var prev := if adaptive.hasPlaying then Some(adaptive.playing) else None;
      var release, skipped, advanced := adaptive.OnBoundary(l.boundary, states);
      if advanced {
        ReleaseRound(s, prev, release, skipped, l);
      }
    }

    static lemma SweptOk(s: Sender, now: int, g: Graces)
      requires StreamsOk(s)
      ensures StreamsOk(Swept(s, now, g))
    {
      hide FeederModel.Ok;
    }

    static lemma BoundaryIs(s: Sender, l: Local)
      requires StreamsOk(s)
      ensures var o := Outcome(s.cursor, l.boundary, StatesOf(s, l.boundary)); var t := AtBoundary(s, l);
              && (s.streams == map[] ==> t == s)
              && (s.streams != map[] ==> t.cursor == Moved(s.cursor, l.boundary, o) && t.intent == s.intent && t.births == s.births)
              && (o.None? ==> t.firstSeen == s.firstSeen && t.streams == s.streams)
              && (s.streams != map[] && o.Some? ==>
                    var repin := Repins(s.cursor, o.value);
                    && t.firstSeen == (map r | r in s.firstSeen && r > o.value && !(repin && Buffered(s, r)) :: s.firstSeen[r])
                    && t.streams == (map k | k in s.streams :: Released(s.streams[k], s.cursor.playing, o.value, repin, l)))
    {
      hide FeederModel.Ok, Released, Outcome, StatesOf, Repins, Buffered;
    }

    static lemma WithoutOk(streams: map<nat, Stream>, gone: set<int>)
      ensures Without(streams, gone).Keys == streams.Keys
      ensures forall k <- streams :: Without(streams, gone)[k].feeder == streams[k].feeder
    {
    }

    static lemma SameRelease(streams: map<nat, Stream>, prev: Option<int>, gone: set<int>, release: int, repin: bool, l: Local)
      requires forall k <- streams :: FeederModel.Ok(streams[k].feeder)
      requires forall k <- streams :: Released(streams[k].(rounds := streams[k].rounds - gone), prev, release, false, l)
                                      == Released(streams[k], prev, release, repin, l)
      ensures (map k | k in Without(streams, gone) :: Released(Without(streams, gone)[k], prev, release, false, l))
           == (map k | k in streams :: Released(streams[k], prev, release, repin, l))
    {
      hide FeederModel.Ok, Released;
    }

    /** Top every stream's sink up to the cushion. */
    method TopUpAll(beat: real)
      requires StreamsOk(Value())
      modifies this`streams
      ensures Value() == Step(old(Value()), TopUp(beat))
    {
      hide FeederModel.Ok, ToppedUp;
      var before := streams;
      var left := streams.Items;
      while left != {}
        invariant left <= before.Items && streams.Keys == before.Keys
        invariant forall k <- before :: streams[k] == if (k, before[k]) in left then before[k] else ToppedUp(before[k], beat)
        decreases |left|
      {
        var item :| item in left;
        var (k, st) := item;
        assert k in before && before[k] == st;
        streams := streams[k := ToppedUp(st, beat)];
        left := left - {item};
      }
    }
  }
}
