/** A round keeps the tempo its handover gave it: whatever ticks follow, everything sent of the round carries the round's
    own frames and stamps that run at that tempo from the frame at which the boundary found it. */
module FeederTempo {
  import opened Common
  import opened Audio
  import opened PacedReader
  import opened FeederModel
  import opened FeederRuns

  /** Two states of one reader between handovers: only cursor and length differ. */
  predicate SameClock(q: Reader, r: Reader) {
    q == r.(cursor := q.cursor, total := q.total)
  }

  lemma SameClockStamps(q: Reader, r: Reader, frame: int)
    requires SameClock(q, r) && r.Ok()
    ensures q.Ok() && q.BeatAt(frame) == r.BeatAt(frame)
  {
  }

  /** What is sent of the reader's round is that round's frames, stamped by the reader. */
  predicate Faithful(cs: seq<Chunk>, r: Reader, round: int, store: Store)
    requires r.Ok()
  {
    forall c <- cs :: c.round == round ==>
      c.beat == r.BeatAt(c.frame) && c.samples == Region(Pcm(store, round), c.frame, c.frame + |c.samples|)
  }

  /** The handoff captured and the reader rolled are the next round's. */
  predicate NextIsOther(f: Feeder) {
    (f.next.Some? ==> f.nextIdx == f.curIdx + 1) && (f.makeNext.Some? ==> f.makeNext.value.round == f.curIdx)
  }

  ghost predicate Keeps(f: Feeder, r: Reader, round: int) {
    Ok(f) && f.cur.Some? && r.Ok() && SameClock(f.cur.value, r) && f.curIdx == round && NextIsOther(f)
  }

  lemma CurFaithful(f: Feeder, r: Reader, round: int, play: nat, store: Store)
    requires Keeps(f, r, round)
    ensures var (f1, cs) := FillCur(f, play, store); Keeps(f1, r, round) && Faithful(cs, r, round, store)
  {
    hide Reader.BeatAt, Chunks, FillFrom, FillTo;
    var q := f.cur.value;
    var from, to := FillFrom(q, play), FillTo(q, play, play + f.cushion);
    ChunksCover(q, round, from, to, f.chunk, Pcm(store, round));
    forall c | c in Chunks(q, round, from, to, f.chunk, Pcm(store, round))
      ensures c.beat == r.BeatAt(c.frame) && c.samples == Region(Pcm(store, round), c.frame, c.frame + |c.samples|)
    {
      assert ChunkOk(c, q, round, from, to, f.chunk, Pcm(store, round));
      SameClockStamps(q, r, c.frame);
    }
  }

  lemma NextFaithful(f: Feeder, r: Reader, round: int, play: nat, store: Store)
    requires Keeps(f, r, round) && f.next.Some?
    ensures var (f1, cs) := FillNext(f, play, store); Keeps(f1, r, round) && Faithful(cs, r, round, store)
  {
    hide Reader.BeatAt, Chunks, FillFrom, FillTo;
    var over, q := play + f.cushion - f.cur.value.total, f.next.value;
    if over > 0 {
      var overPlay := Max(play - f.cur.value.total, 0);
      var p, t, src := f.nextStart + overPlay, f.nextStart + over, Pcm(store, f.nextIdx);
      ChunksCover(q, f.nextIdx, FillFrom(q, p), FillTo(q, p, t), f.chunk, src);
      forall c | c in Chunks(q, f.nextIdx, FillFrom(q, p), FillTo(q, p, t), f.chunk, src)
        ensures c.round != round
      {
        assert ChunkOk(c, q, f.nextIdx, FillFrom(q, p), FillTo(q, p, t), f.chunk, src);
      }
    }
  }

  lemma PreRollKeeps(f: Feeder, r: Reader, round: int, store: Store)
    requires Keeps(f, r, round) && f.next.None? && f.makeNext.Some?
    ensures var f1 := PreRoll(f, f.makeNext.value, store); Keeps(f1, r, round) && f1.next.Some?
  {
    hide PadCarriesAudio, Reader.BeatAt;
  }

  lemma KeepsOk(f: Feeder, r: Reader, round: int)
    requires Keeps(f, r, round)
    ensures Ok(f) && f.cur.Some? && r.Ok()
  {
  }

  /** One tick, whatever it has to do. */
  lemma AdvanceFaithful(f: Feeder, r: Reader, round: int, beat: real, store: Store)
    requires Keeps(f, r, round)
    ensures var (f1, cs) := Advance(f, beat, store); Keeps(f1, r, round) && Faithful(cs, r, round, store)
  {
    hide Keeps, FillCur, FillNext, PreRoll, Play, Advance, Reader.BeatAt, Region;
    KeepsOk(f, r, round);
    var play := Play(f, beat);
    AdvanceIsSteps(f, beat, store);
    var t := StepsOf(f, play, store);
    CurFaithful(f, r, round, play, store);
    KeepsOk(t.f1, r, round);
    if play + f.cushion <= t.f1.cur.value.total || (t.f1.next.None? && t.f1.makeNext.None?) {
    } else {
      if t.f1.next.None? {
        PreRollKeeps(t.f1, r, round, store);
        var f2 := PreRoll(t.f1, t.f1.makeNext.value, store);
        KeepsOk(f2, r, round);
        CurFaithful(f2, r, round, play, store);
        FillCurKeepsNext(f2, play, store);
      }
      KeepsOk(t.f2, r, round);
      NextFaithful(t.f2, r, round, play, store);
    }
  }

  lemma FillCurKeepsNext(f: Feeder, play: nat, store: Store)
    requires Ok(f) && f.cur.Some?
    ensures FillCur(f, play, store).0.next == f.next
  {
  }

  // ---------------------------------------------------------------- the ticks of one round

  datatype Beat = Beat(now: real, store: Store)

  /** Everything a feeder sends over a run of ticks, each with the rounds as it found them. */
  function Ticked(f: Feeder, ticks: seq<Beat>): seq<(Chunk, Store)>
    requires Ok(f) && f.cur.Some?
    decreases |ticks|
  {
    if ticks == [] then [] else
      AdvanceKeepsOk(f, ticks[0].now, ticks[0].store);
      var (f1, cs) := Advance(f, ticks[0].now, ticks[0].store);
      seq(|cs|, i requires 0 <= i < |cs| => (cs[i], ticks[0].store)) + Ticked(f1, ticks[1..])
  }

  lemma {:induction false} TicksFaithful(f: Feeder, r: Reader, round: int, ticks: seq<Beat>)
    requires Keeps(f, r, round)
    ensures Ok(f) && f.cur.Some? && r.Ok()
    ensures forall x <- Ticked(f, ticks) :: x.0.round == round ==>
              x.0.beat == r.BeatAt(x.0.frame)
              && x.0.samples == Region(Pcm(x.1, round), x.0.frame, x.0.frame + |x.0.samples|)
    decreases |ticks|
  {
    hide Keeps, Advance, Reader.BeatAt, Region;
    KeepsOk(f, r, round);
    if ticks != [] {
      var (f1, cs) := Advance(f, ticks[0].now, ticks[0].store);
      AdvanceFaithful(f, r, round, ticks[0].now, ticks[0].store);
      TicksFaithful(f1, r, round, ticks[1..]);
      AdvanceKeepsOk(f, ticks[0].now, ticks[0].store);
      forall x | x in Ticked(f, ticks) && x !in Ticked(f1, ticks[1..])
        ensures x.0 in cs && x.1 == ticks[0].store
      {
      }
    }
  }

  /** A NEW TEMPO HOLDS FROM THE HANDOVER ON. Whatever the ticks after a boundary that adopts the pre-rolled reader, every
      chunk sent of the round carries the round's own frames, and is stamped at the boundary's tempo, counted from the
      frame at which the boundary found the reader and the stamp it had reached there. */
  lemma TempoHoldsFromTheHandoverOn(s: State, idx: int, h: Handoff, ticks: seq<Beat>)
    requires Inv(s) && AdoptOk(s.f, idx, h) && Promotes(s.f, idx) && h.tempo > 0.0
    ensures var f, r := Adopted(s.f, idx, h), s.f.next.value;
            && Ok(f) && f.cur.Some? && r.Ok()
            && forall x <- Ticked(f, ticks) :: x.0.round == idx ==>
                 && x.0.beat == r.BeatAt(r.cursor) + (x.0.frame - r.cursor) as real / r.rate as real * h.tempo / 60.0
                 && x.0.samples == Region(Pcm(x.1, idx), x.0.frame, x.0.frame + |x.0.samples|)
  {
    hide Reader.BeatAt, Region, Ticked, TakesOver, Adopted;
    var f := Adopted(s.f, idx, h);
    AdoptIsSafe(s, idx, h);
    AdoptionTakesOver(s.f, idx, h);
    InvOk(s);
    var q, r := f.cur.value, s.f.next.value;
    assert Keeps(f, q, idx);
    TicksFaithful(f, q, idx, ticks);
    forall x | x in Ticked(f, ticks) && x.0.round == idx
      ensures x.0.beat == r.BeatAt(r.cursor) + (x.0.frame - r.cursor) as real / r.rate as real * h.tempo / 60.0
    {
      StampsFrom(q, r, h, x.0.frame);
    }
  }

  lemma StampsFrom(q: Reader, r: Reader, h: Handoff, frame: int)
    requires q.Ok() && r.Ok() && TakesOver(q, r, h) && h.tempo > 0.0
    ensures q.BeatAt(frame) == r.BeatAt(r.cursor) + (frame - r.cursor) as real / r.rate as real * h.tempo / 60.0
  {
    hide Reader.BeatAt;
  }
}
