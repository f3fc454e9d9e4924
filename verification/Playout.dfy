/** The adaptive playout cursor (internal/playout/adaptive.go): one per sender, picking at each local boundary the
    freshest round that is ready. */
module Playout {
  import opened Common

  /** How far below the playing round a round must lie to read as a sender restart. */
  const RESTART_GAP := 8

  datatype RoundState = RoundState(index: int, complete: bool, firstSeen: int)

  datatype Disposition = Buffer | LiveAppend | TooLate

  /** The cursor as a value: the round being played and the last boundary processed. */
  datatype Cursor = Cursor(playing: Option<int>, boundary: Option<int>)

  function OnFrame(c: Cursor, idx: int): (d: Disposition)
    ensures d == TooLate <==> c.playing.Some? && c.playing.value - RESTART_GAP < idx < c.playing.value
    ensures d == LiveAppend <==> c.playing == Some(idx)
  {
    if c.playing.None? || idx > c.playing.value then Buffer
    else if idx == c.playing.value then LiveAppend
    else if idx <= c.playing.value - RESTART_GAP then Buffer
    else TooLate
  }

  predicate Above(c: Cursor, r: RoundState) {
    c.playing.None? || r.index > c.playing.value
  }

  predicate FarBelow(c: Cursor, r: RoundState) {
    c.playing.Some? && r.index <= c.playing.value - RESTART_GAP
  }

  /** Nothing above the playing round is buffered: the only way on is down. */
  predicate NothingAbove(c: Cursor, buf: set<RoundState>) {
    forall r <- buf :: !Above(c, r)
  }

  predicate Candidate(c: Cursor, buf: set<RoundState>, r: RoundState) {
    r in buf && if NothingAbove(c, buf) then FarBelow(c, r) else Above(c, r)
  }

  predicate Ready(r: RoundState, boundary: int) {
    r.complete || r.firstSeen < boundary
  }

  /** r is the newest ready candidate. */
  predicate Releases(c: Cursor, boundary: int, buf: set<RoundState>, r: RoundState) {
    && Candidate(c, buf, r) && Ready(r, boundary)
    && forall q <- buf :: Candidate(c, buf, q) && Ready(q, boundary) ==> q.index <= r.index
  }

  /** A boundary is processed once: one at or before the last is ignored. */
  predicate Ignored(c: Cursor, boundary: int) {
    c.boundary.Some? && boundary <= c.boundary.value
  }

  /** Rounds passed over for good: candidates older than the release and, when the cursor moves down to a restarted
      sender's sequence, everything of the old era above it. */
  predicate Skips(c: Cursor, buf: set<RoundState>, release: int, i: int) {
    exists q <- buf :: q.index == i && ((Candidate(c, buf, q) && i < release) || (NothingAbove(c, buf) && i > release))
  }

  /** The round released at a boundary, if one is. */
  ghost function Outcome(c: Cursor, boundary: int, buf: set<RoundState>): (o: Option<int>)
    ensures o.Some? ==> exists r :: Releases(c, boundary, buf, r) && r.index == o.value
    ensures o.Some? ==> !Ignored(c, boundary)
  {
    if !Ignored(c, boundary) && exists r :: Releases(c, boundary, buf, r) then
      var r :| Releases(c, boundary, buf, r);
      Some(r.index)
    else
      None
  }

  function Moved(c: Cursor, boundary: int, release: Option<int>): Cursor {
    if Ignored(c, boundary) then c
    else Cursor(if release.Some? then release else c.playing, Some(boundary))
  }

  /** The newest of a nonempty set of rounds. */
  lemma {:induction false} HasNewest(rs: set<RoundState>) returns (r: RoundState)
    requires rs != {}
    ensures r in rs && forall q <- rs :: q.index <= r.index
    decreases |rs|
  {
    r :| r in rs;
    var rest := rs - {r};
    if rest != {} {
      var q := HasNewest(rest);
      if q.index > r.index {
        r := q;
      }
    }
  }

  /** Something is released exactly when some candidate is ready, and it is the newest of the ready ones. */
  lemma OutcomeIsNewestReady(c: Cursor, boundary: int, buf: set<RoundState>)
    requires !Ignored(c, boundary)
    ensures Outcome(c, boundary, buf).Some? <==> exists r <- buf :: Candidate(c, buf, r) && Ready(r, boundary)
    ensures forall r <- buf :: Candidate(c, buf, r) && Ready(r, boundary)
                               ==> Outcome(c, boundary, buf).Some? && Outcome(c, boundary, buf).value >= r.index
  {
    var ready := set r | r in buf && Candidate(c, buf, r) && Ready(r, boundary);
    if ready != {} {
      var r := HasNewest(ready);
      assert Releases(c, boundary, buf, r);
    }
    if Outcome(c, boundary, buf).Some? {
      var r :| Releases(c, boundary, buf, r);
      assert r in ready;
    }
    if r :| r in buf && Candidate(c, buf, r) && Ready(r, boundary) {
      assert r in ready;
    }
  }

  /** The newest ready candidate is what is released. */
  lemma OutcomeIs(c: Cursor, boundary: int, buf: set<RoundState>, r: RoundState)
    requires !Ignored(c, boundary) && Releases(c, boundary, buf, r)
    ensures Outcome(c, boundary, buf) == Some(r.index)
  {
    OutcomeIsNewestReady(c, boundary, buf);
    var q :| Releases(c, boundary, buf, q) && q.index == Outcome(c, boundary, buf).value;
  }

  /** A release moves the cursor up, or down by at least the restart gap; down only when nothing lies above. */
  lemma ReleaseMovesLawfully(c: Cursor, boundary: int, buf: set<RoundState>)
    requires Outcome(c, boundary, buf).Some? && c.playing.Some?
    ensures var q := Outcome(c, boundary, buf).value; var p := c.playing.value;
            || (q > p && !NothingAbove(c, buf))
            || (q <= p - RESTART_GAP && NothingAbove(c, buf))
  {
  }

  // ---------------------------------------------------------------- the object

  predicate Sorted(rs: seq<RoundState>) {
    forall i, j :: 0 <= i < j < |rs| ==> rs[i].index <= rs[j].index
  }

  /** Put one round in its place. */
  function Inserted(rs: seq<RoundState>, r: RoundState): seq<RoundState>
    decreases |rs|
  {
    if rs == [] || r.index < rs[0].index then [r] + rs else [rs[0]] + Inserted(rs[1..], r)
  }

  lemma {:induction false} InsertedSorts(rs: seq<RoundState>, r: RoundState)
    requires Sorted(rs)
    ensures Sorted(Inserted(rs, r))
    ensures forall q :: q in Inserted(rs, r) <==> q == r || q in rs
    decreases |rs|
  {
    if rs != [] && r.index >= rs[0].index {
      InsertedSorts(rs[1..], r);
      assert rs == [rs[0]] + rs[1..];
      var rest := Inserted(rs[1..], r);
      forall j | 0 <= j < |rest|
        ensures rs[0].index <= rest[j].index
      {
        assert rest[j] in rest;
      }
    }
  }

  method SortByIndex(rs: seq<RoundState>) returns (sorted: seq<RoundState>)
    ensures Sorted(sorted)
    ensures forall q :: q in sorted <==> q in rs
  {
    sorted := [];
    for i := 0 to |rs|
      invariant Sorted(sorted)
      invariant forall q :: q in sorted <==> q in rs[..i]
    {
      InsertedSorts(sorted, rs[i]);
      sorted := Inserted(sorted, rs[i]);
    }
  }

  function SetOf(rs: seq<RoundState>): (s: set<RoundState>)
    ensures forall r :: r in s <==> r in rs
  {
    set r | r in rs
  }

  predicate Ascending(xs: seq<int>) {
    forall i, j :: 0 <= i < j < |xs| ==> xs[i] <= xs[j]
  }

  /** The rounds above the release, in the order they were listed. */
  function AboveIn(rs: seq<RoundState>, release: int): (xs: seq<int>)
    ensures forall i :: i in xs <==> i > release && exists q <- rs :: q.index == i
    decreases |rs|
  {
    if rs == [] then [] else
      var before := AboveIn(rs[..|rs| - 1], release);
      var last := rs[|rs| - 1];
      assert rs == rs[..|rs| - 1] + [last];
      if last.index > release then before + [last.index] else before
  }

  /** The skip list: rounds up to the release oldest first, then, if the cursor has gone down, the old era's rounds as
      listed. */
  predicate SkipOrder(skipped: seq<int>, tail: seq<int>, release: int) {
    && |tail| <= |skipped|
    && var n := |skipped| - |tail|;
    && skipped[n..] == tail && Ascending(skipped[..n]) && forall i <- skipped[..n] :: i <= release
  }

  /** The list of what a release of q skips is oldest first throughout exactly when the cursor does not go down, or the old
      era's rounds happen to be listed oldest first themselves. */
  lemma SkippedOldestFirstIff(c: Cursor, boundary: int, buffered: seq<RoundState>, q: RoundState, skipped: seq<int>)
    requires !Ignored(c, boundary) && Releases(c, boundary, SetOf(buffered), q)
    requires SkipOrder(skipped, if NothingAbove(c, SetOf(buffered)) then AboveIn(buffered, q.index) else [], q.index)
    ensures Ascending(skipped) <==> !NothingAbove(c, SetOf(buffered)) || Ascending(AboveIn(buffered, q.index))
  {
    hide NothingAbove, Releases;
    var tail := if NothingAbove(c, SetOf(buffered)) then AboveIn(buffered, q.index) else [];
    var n := |skipped| - |tail|;
    var older := skipped[..n];
    assert skipped == older + tail;
    if Ascending(tail) {
      forall i, j | 0 <= i < j < |skipped|
        ensures skipped[i] <= skipped[j]
      {
        assert i < n ==> skipped[i] == older[i] && older[i] in older;
        assert j < n ==> skipped[j] == older[j];
        assert j >= n ==> skipped[j] == tail[j - n] && tail[j - n] in tail;
        assert i >= n ==> skipped[i] == tail[i - n];
      }
    } else {
      var i, j :| 0 <= i < j < |tail| && tail[i] > tail[j];
      assert skipped[n + i] == tail[i] && skipped[n + j] == tail[j];
    }
  }

  /** So the whole list need not be oldest first: a sender that restarts at round 3 with rounds 50 and 40 of its old era
      still buffered. */
  lemma OldEraIsListedAsFound()
    ensures var c, rs := Cursor(Some(60), None), [RoundState(50, false, 1), RoundState(40, false, 1), RoundState(3, true, 0)];
            && Outcome(c, 1, SetOf(rs)) == Some(3) && NothingAbove(c, SetOf(rs))
            && AboveIn(rs, 3) == [50, 40] && !Ascending(AboveIn(rs, 3))
  {
    var c, rs := Cursor(Some(60), None), [RoundState(50, false, 1), RoundState(40, false, 1), RoundState(3, true, 0)];
    assert rs[2] in SetOf(rs) && Candidate(c, SetOf(rs), rs[2]);
    OutcomeIsNewestReady(c, 1, SetOf(rs));
    assert rs[..2][..1] == [rs[0]] && rs[..1][..0] == [];
    assert AboveIn(rs[..1], 3) == [50];
    assert rs[..2][..1] == rs[..1];
    assert AboveIn(rs[..2], 3) == [50, 40];
    assert AboveIn(rs, 3)[0] == 50 && AboveIn(rs, 3)[1] == 40;
  }

  class Adaptive {
    var playing: int
    var hasPlaying: bool
    var boundary: int
    var hasBound: bool
    var skippedTotal: nat

    ghost function Value(): Cursor
      reads this
    {
      Cursor(if hasPlaying then Some(playing) else None, if hasBound then Some(boundary) else None)
    }

    constructor ()
      ensures Value() == Cursor(None, None) && skippedTotal == 0
    {
      playing, hasPlaying, boundary, hasBound, skippedTotal := 0, false, 0, false, 0;
    }

    method Dispose(idx: int) returns (d: Disposition)
      ensures d == OnFrame(Value(), idx)
    {
      if !hasPlaying || idx > playing {
        return Buffer;
      }
      if idx == playing {
        return LiveAppend;
      }
      if idx <= playing - RESTART_GAP {
        return Buffer;
      }
      d := TooLate;
    }

    /** The rounds above the playing one. */
    method Candidates(buffered: seq<RoundState>) returns (cands: seq<RoundState>)
      ensures forall r :: r in cands <==> r in buffered && Above(Value(), r)
    {
      cands := [];
      for i := 0 to |buffered|
        invariant forall r :: r in cands <==> r in buffered[..i] && Above(Value(), r)
      {
        if !hasPlaying || buffered[i].index > playing {
          cands := cands + [buffered[i]];
        }
      }
    }

    /** The rounds far enough below the playing one to be a restarted sender's. */
    method Restarted(buffered: seq<RoundState>) returns (cands: seq<RoundState>)
      requires hasPlaying
      ensures forall r :: r in cands <==> r in buffered && FarBelow(Value(), r)
    {
      cands := [];
      for i := 0 to |buffered|
        invariant forall r :: r in cands <==> r in buffered[..i] && FarBelow(Value(), r)
      {
        if buffered[i].index <= playing - RESTART_GAP {
          cands := cands + [buffered[i]];
        }
      }
    }

    /** The last ready entry, or -1. */
    method LastReady(cands: seq<RoundState>, boundary: int) returns (chosen: int)
      ensures -1 <= chosen < |cands|
      ensures chosen >= 0 ==> Ready(cands[chosen], boundary)
      ensures forall j :: chosen < j < |cands| ==> !Ready(cands[j], boundary)
    {
      chosen := -1;
      for i := 0 to |cands|
        invariant -1 <= chosen < i
        invariant chosen >= 0 ==> Ready(cands[chosen], boundary)
        invariant forall j :: chosen < j < i ==> !Ready(cands[j], boundary)
      {
        if cands[i].complete || cands[i].firstSeen < boundary {
          chosen := i;
        }
      }
    }

    /** The rounds passed over. */
    method PassedOver(cands: seq<RoundState>, chosen: nat, repin: bool, buffered: seq<RoundState>) returns (skipped: seq<int>)
      requires chosen < |cands| && Sorted(cands)
      ensures forall i :: i in skipped <==> (exists j :: 0 <= j < chosen && cands[j].index == i)
                                            || (repin && i in AboveIn(buffered, cands[chosen].index))
      ensures SkipOrder(skipped, if repin then AboveIn(buffered, cands[chosen].index) else [], cands[chosen].index)
    {
      skipped := [];
      for j := 0 to chosen
        invariant |skipped| == j && forall m :: 0 <= m < j ==> skipped[m] == cands[m].index
      {
        skipped := skipped + [cands[j].index];
      }
      ghost var older := skipped;
      assert forall i :: i in older <==> exists m :: 0 <= m < chosen && cands[m].index == i;
      assert older + [] == older;
      if repin {
        for j := 0 to |buffered|
          invariant skipped == older + AboveIn(buffered[..j], cands[chosen].index)
        {
          assert buffered[..j + 1][..j] == buffered[..j];
          if buffered[j].index > cands[chosen].index {
            skipped := skipped + [buffered[j].index];
          }
        }
        assert buffered[..|buffered|] == buffered;
      }
    }

    method OnBoundary(n: int, buffered: seq<RoundState>) returns (release: int, skipped: seq<int>, advanced: bool)
      modifies this
      ensures var c, buf := old(Value()), SetOf(buffered); var o := Outcome(c, n, buf);
              && Value() == Moved(c, n, o)
              && (advanced <==> o.Some?)
              && (advanced ==> release == o.value && forall i :: i != release ==> (i in skipped <==> Skips(c, buf, release, i)))
              && (advanced ==> SkipOrder(skipped, if NothingAbove(c, buf) then AboveIn(buffered, release) else [], release))
              && (advanced ==> (Ascending(skipped) <==> !NothingAbove(c, buf) || Ascending(AboveIn(buffered, release))))
              && (!advanced ==> skipped == [] && release == old(playing))
              && skippedTotal == old(skippedTotal) + |skipped|
    {
      hide SkipOrder, AboveIn, Outcome, SetOf, Ascending;
      ghost var c, buf := Value(), SetOf(buffered);
      if hasBound && n <= boundary {
        return playing, [], false;
      }
      OutcomeIsNewestReady(c, n, buf);
      boundary, hasBound := n, true;
      var cands := Candidates(buffered);
      var repin := false;
      AnyAbove(c, buffered, cands);
      if |cands| == 0 && hasPlaying {
        cands := Restarted(buffered);
        if |cands| == 0 {
          return playing, [], false;
        }
        repin := true;
      }
      assert forall r :: r in cands <==> Candidate(c, buf, r);
      var unsorted := cands;
      cands := SortByIndex(unsorted);
      var chosen := LastReady(cands, n);
      if chosen == -1 {
        return playing, [], false;
      }
      assert Releases(c, n, buf, cands[chosen]);
      OutcomeIs(c, n, buf, cands[chosen]);
      skipped := PassedOver(cands, chosen, repin, buffered);
      skippedTotal := skippedTotal + |skipped|;
      playing, hasPlaying := cands[chosen].index, true;
      release, advanced := playing, true;
      SkippedIs(c, buf, buffered, cands, chosen, repin, skipped);
      SkippedOldestFirstIff(c, n, buffered, cands[chosen], skipped);
    }

    /** Whether anything lies above is whether the candidate list is nonempty. */
    lemma AnyAbove(c: Cursor, buffered: seq<RoundState>, cands: seq<RoundState>)
      requires forall r :: r in cands <==> r in buffered && Above(c, r)
      ensures NothingAbove(c, SetOf(buffered)) <==> cands == []
    {
      if cands != [] {
        assert cands[0] in SetOf(buffered) && Above(c, cands[0]);
      }
    }

    lemma SkippedIs(c: Cursor, buf: set<RoundState>, buffered: seq<RoundState>, cands: seq<RoundState>, chosen: nat, repin: bool,
                    skipped: seq<int>)
      requires buf == SetOf(buffered) && Sorted(cands) && chosen < |cands|
      requires forall r :: r in cands <==> Candidate(c, buf, r)
      requires repin <==> NothingAbove(c, buf)
      requires forall i :: i in skipped <==> (exists j :: 0 <= j < chosen && cands[j].index == i)
                                             || (repin && i in AboveIn(buffered, cands[chosen].index))
      ensures forall i :: i != cands[chosen].index ==> (i in skipped <==> Skips(c, buf, cands[chosen].index, i))
    {
      var release := cands[chosen].index;
      forall i | i != release
        ensures i in skipped <==> Skips(c, buf, release, i)
      {
        if j :| 0 <= j < chosen && cands[j].index == i {
          assert Candidate(c, buf, cands[j]);
        }
        if Skips(c, buf, release, i) && i < release {
          var q :| q in buf && q.index == i && Candidate(c, buf, q);
          var j :| 0 <= j < |cands| && cands[j] == q;
          assert j < chosen;
        }
      }
    }
  }
}
