/** What the feeder computes (internal/emit/feeder.go), on values: a bounded cushion ahead of the playhead, carried
    across the interval end by a pre-rolled reader. */
module FeederModel {
  import opened Common
  import opened Audio
  import opened Interval
  import opened PacedReader

  /** The reassembled PCM of each round, as it stands when it is read. */
  type Store = map<int, seq<Frame>>

  function Pcm(store: Store, round: int): seq<Frame> {
    if round in store then store[round] else []
  }

  /** One emitted chunk: frames [frame, frame + |samples|) of a round, stamped. */
  datatype Chunk = Chunk(round: int, frame: nat, samples: seq<Frame>, beat: real)

  /** onBoundary's makeNext, as the values it captures: how to build the reader for the round after `round`. */
  datatype Handoff = Handoff(round: int, totalFrames: nat, paddedFrames: nat, rate: nat, tempo: real, endBeat: real)

  datatype Feeder = Feeder(
    cur: Option<Reader>, curIdx: int,
    next: Option<Reader>, nextIdx: int, nextStart: nat,
    makeNext: Option<Handoff>,
    cushion: nat, chunk: nat,
    underrunEvents: nat, underrunFrames: nat)

  function NewFeeder(cushionFrames: int, chunkFrames: int): (f: Feeder)
    ensures 1 <= f.chunk <= f.cushion
  {
    var chunk := Max(chunkFrames, 1);
    Feeder(None, 0, None, 0, 0, None, Max(cushionFrames, chunk), chunk, 0, 0)
  }

  function SetCushion(f: Feeder, cushionFrames: int): Feeder {
    f.(cushion := Max(cushionFrames, f.chunk))
  }

  function SetCurrent(f: Feeder, idx: int, r: Reader, makeNext: Option<Handoff>): Feeder {
    f.(cur := Some(r), curIdx := idx, next := None, nextIdx := 0, nextStart := 0, makeNext := makeNext)
  }

  predicate Promotes(f: Feeder, idx: int) {
    f.next.Some? && f.nextIdx == idx
  }

  function Promote(f: Feeder, idx: int, makeNext: Option<Handoff>): Feeder {
    if Promotes(f, idx)
    then f.(cur := f.next, curIdx := f.nextIdx, next := None, nextIdx := 0, nextStart := 0, makeNext := makeNext)
    else f
  }

  predicate ReaderOk(r: Option<Reader>) {
    r.Some? ==> r.value.Ok()
  }

  predicate Ok(f: Feeder) {
    && 1 <= f.chunk <= f.cushion
    && ReaderOk(f.cur) && ReaderOk(f.next)
    && (f.makeNext.Some? ==> f.makeNext.value.rate > 0)
  }

  // ---------------------------------------------------------------- fill

  /** Where filling starts: the cursor, or the playhead if that has overtaken it mid-interval. */
  function FillFrom(r: Reader, play: int): (c: nat)
    ensures c >= r.cursor
  {
    if play > r.cursor && r.cursor < r.total then Min(play, r.total) else r.cursor
  }

  /** Where filling ends. */
  function FillTo(r: Reader, play: int, target: int): (c: nat)
    ensures c >= FillFrom(r, play)
  {
    Max(FillFrom(r, play), Min(target, r.total))
  }

  /** A stretch of frames [from, to) of one round, cut into chunks. */
  function Chunks(r: Reader, round: int, from: nat, to: nat, n: nat, src: seq<Frame>): seq<Chunk>
    requires r.Ok() && n >= 1 && from <= to
    decreases (to - from)
  {
    if from >= to then
      []
    else
      var end := Min(from + n, to);
      [Chunk(round, from, Region(src, from, end), r.BeatAt(from))] + Chunks(r, round, end, to, n, src)
  }

  datatype Filled = Filled(reader: Reader, chunks: seq<Chunk>, events: nat, skipped: nat)

  /** Bring one reader up to `target`, first skipping any shortfall behind `play`. Only a skip from a nonzero
      cursor counts as an underrun. */
  function Fill(r: Reader, round: int, play: int, target: int, n: nat, src: seq<Frame>): Filled
    requires r.Ok() && n >= 1
  {
    var from, to := FillFrom(r, play), FillTo(r, play, target);
    var late := from > r.cursor && r.cursor > 0;
    Filled(r.(cursor := to), Chunks(r, round, from, to, n, src),
      if late then 1 else 0, if late then from - r.cursor else 0)
  }

  function FillCur(f: Feeder, play: int, store: Store): (Feeder, seq<Chunk>)
    requires Ok(f) && f.cur.Some?
  {
    var d := Fill(f.cur.value, f.curIdx, play, play + f.cushion, f.chunk, Pcm(store, f.curIdx));
    (f.(cur := Some(d.reader), underrunEvents := f.underrunEvents + d.events,
        underrunFrames := f.underrunFrames + d.skipped), d.chunks)
  }

  /** What lies past the current reader's end, out of the next one. */
  function FillNext(f: Feeder, play: int, store: Store): (Feeder, seq<Chunk>)
    requires Ok(f) && f.cur.Some? && f.next.Some?
  {
    var over := play + f.cushion - f.cur.value.total;
    if over <= 0 then
      (f, [])
    else
      var overPlay := Max(play - f.cur.value.total, 0);
      var d := Fill(f.next.value, f.nextIdx, f.nextStart + overPlay, f.nextStart + over, f.chunk, Pcm(store, f.nextIdx));
      (f.(next := Some(d.reader), underrunEvents := f.underrunEvents + d.events,
          underrunFrames := f.underrunFrames + d.skipped), d.chunks)
  }

  // ---------------------------------------------------------------- the handoff

  /** The final window's padding carries the next round's head: play through it. */
  predicate PlaysThroughPad(h: Handoff, store: Store) {
    h.paddedFrames > h.totalFrames && h.round in store
    && PadCarriesAudio(store[h.round], h.totalFrames, h.paddedFrames)
  }

  function HandoffStart(h: Handoff, store: Store): nat {
    if PlaysThroughPad(h, store) then h.paddedFrames - h.totalFrames else 0
  }

  /** Build the next round's reader, extending the current one when it plays through its pad. */
  function PreRoll(f: Feeder, h: Handoff, store: Store): Feeder
    requires f.cur.Some?
  {
    var start := HandoffStart(h, store);
    var cur := if PlaysThroughPad(h, store) then f.cur.value.SetTotalFrames(h.paddedFrames) else f.cur.value;
    var next := New(h.rate, h.tempo, h.endBeat, h.totalFrames);
    f.(cur := Some(cur), next := Some(if next.cursor < start then next.Skip(start) else next),
       nextIdx := h.round + 1, nextStart := start)
  }

  function Peak(x: Frame): int {
    Max(Max(x.left, -x.left), Max(x.right, -x.right))
  }

  /** Some frame of the round's padding is louder than the floor, and all of the padding has been laid out. */
  predicate PadIsAudible(h: Handoff, store: Store) {
    h.round in store && h.paddedFrames <= |store[h.round]|
    && exists i :: h.totalFrames <= i < h.paddedFrames && Peak(store[h.round][i]) > 256
  }

  /** THE PAD IS PLAYED IF AND ONLY IF IT IS HEARD: then the current reader goes on to the padding's end and the next one
      starts past as many frames of its own round; else the current reader stays as it is and the next starts at its first
      frame. Either way the next one is the next round's, as long as it, at its tempo, from the beat it begins at. */
  lemma PadIsPlayedIff(f: Feeder, h: Handoff, store: Store)
    requires Ok(f) && f.cur.Some? && h.rate > 0
    ensures var g := PreRoll(f, h, store); var pad := if PadIsAudible(h, store) then h.paddedFrames - h.totalFrames else 0;
            && g.cur.Some? && g.next.Some? && g.next.value.Ok()
            && g.cur.value == f.cur.value.(total := if PadIsAudible(h, store) then Max(h.paddedFrames, f.cur.value.cursor)
                                                    else f.cur.value.total)
            && g.nextIdx == h.round + 1 && g.nextStart == pad
            && g.next.value.cursor == Min(pad, h.totalFrames) && g.next.value.total == h.totalFrames
            && g.next.value.tempoBPM == h.tempo && g.next.value.BeatAt(0) == h.endBeat
  {
    assert PlaysThroughPad(h, store) <==> PadIsAudible(h, store) by {
      assert forall x: Frame :: Loud(x) <==> Peak(x) > PAD_AUDIO_FLOOR;
      if PadIsAudible(h, store) {
        var i :| h.totalFrames <= i < h.paddedFrames && Peak(store[h.round][i]) > PAD_AUDIO_FLOOR;
        assert Loud(store[h.round][i]);
      }
      if PlaysThroughPad(h, store) {
        var i :| h.totalFrames <= i < h.paddedFrames && Loud(store[h.round][i]);
        assert Peak(store[h.round][i]) > PAD_AUDIO_FLOOR;
      }
    }
    assert 0 as real / h.rate as real == 0.0;
  }

  /** A cushion set is the cushion kept: a later fill of the current reader goes as far ahead of the playhead as it says. */
  lemma CushionTakesEffect(f: Feeder, frames: int, play: nat, store: Store)
    requires Ok(f) && f.cur.Some?
    ensures var g := SetCushion(f, frames); var r := FillCur(g, play, store).0.cur;
            && Ok(g) && r.Some? && (r.value.cursor >= Min(play + Max(frames, f.chunk), f.cur.value.total))
            && (f.cur.value.cursor <= play ==> r.value.cursor <= Max(f.cur.value.cursor, play + Max(frames, f.chunk)))
  {
    hide Reader.BeatAt, Chunks;
  }

  /** The playhead's frame in the current reader. */
  function Play(f: Feeder, nowBeat: real): nat
    requires f.cur.Some?
  {
    Max(f.cur.value.FrameAtBeat(nowBeat), 0)
  }

  /** Past the end of the current reader: pre-roll the next one, top the current one up again, go on into the next. */
  function Beyond(f: Feeder, play: int, store: Store): (Feeder, seq<Chunk>)
    requires Ok(f) && f.cur.Some?
  {
    if f.next.None? && f.makeNext.None? then
      (f, [])
    else
      var (f2, c2) := if f.next.None? then FillCur(PreRoll(f, f.makeNext.value, store), play, store) else (f, []);
      var (f3, c3) := FillNext(f2, play, store);
      (f3, c2 + c3)
  }

  /** Top the sink up to playhead + cushion. */
  function Advance(f: Feeder, nowBeat: real, store: Store): (Feeder, seq<Chunk>)
    requires Ok(f)
  {
    if f.cur.None? then
      (f, [])
    else
      var play := Play(f, nowBeat);
      var (f1, c1) := FillCur(f, play, store);
      if play + f.cushion <= f1.cur.value.total then
        (f1, c1)
      else
        var (f2, c2) := Beyond(f1, play, store);
        (f2, c1 + c2)
  }

  /** Re-anchor both readers after a grid snap, without counting underruns. */
  function SkipFrames(f: Feeder, frames: int): Feeder {
    if frames <= 0 then f else
      f.(cur := if f.cur.Some? then Some(f.cur.value.Skip(f.cur.value.cursor + frames)) else None,
         next := if f.next.Some? then Some(f.next.value.Skip(f.next.value.cursor + frames)) else None)
  }

  // ---------------------------------------------------------------- what a fill emits

  function Joined(cs: seq<Chunk>): seq<Frame>
    decreases |cs|
  {
    if cs == [] then [] else cs[0].samples + Joined(cs[1..])
  }

  lemma {:induction false} JoinedAppend(u: seq<Chunk>, v: seq<Chunk>)
    ensures Joined(u + v) == Joined(u) + Joined(v)
    decreases |u|
  {
    if u == [] {
      assert u + v == v;
    } else {
      assert (u + v)[1..] == u[1..] + v;
      JoinedAppend(u[1..], v);
    }
  }

  /** cs covers exactly frames [from, to) of a round, in order, without gap or overlap. */
  predicate Covers(cs: seq<Chunk>, round: int, from: nat, to: nat)
    decreases |cs|
  {
    if cs == [] then
      from == to
    else
      && cs[0].round == round && cs[0].frame == from && |cs[0].samples| > 0 && from + |cs[0].samples| <= to
      && Covers(cs[1..], round, from + |cs[0].samples|, to)
  }

  /** A chunk of [from, to): at most n frames, the buffer's own, stamped with the beat of its first. */
  predicate ChunkOk(c: Chunk, r: Reader, round: int, from: nat, to: nat, n: nat, src: seq<Frame>)
    requires r.Ok()
  {
    && from <= c.frame && c.frame + |c.samples| <= to && 0 < |c.samples| <= n
    && c.round == round && c.beat == r.BeatAt(c.frame)
    && c.samples == Region(src, c.frame, c.frame + |c.samples|)
  }

  /** A stretch is emitted gaplessly, in chunks of at most n frames carrying the buffer's own frames, each stamped
      with the beat of its first frame. */
  lemma {:induction false} ChunksCover(r: Reader, round: int, from: nat, to: nat, n: nat, src: seq<Frame>)
    requires r.Ok() && n >= 1 && from <= to
    ensures Covers(Chunks(r, round, from, to, n, src), round, from, to)
    ensures Joined(Chunks(r, round, from, to, n, src)) == Region(src, from, to)
    ensures forall c <- Chunks(r, round, from, to, n, src) :: ChunkOk(c, r, round, from, to, n, src)
    decreases (to - from)
  {
    hide Reader.BeatAt;
    if from < to {
      var end := Min(from + n, to);
      ChunksCover(r, round, end, to, n, src);
      assert Region(src, from, to) == Region(src, from, end) + Region(src, end, to);
      var cs := Chunks(r, round, from, to, n, src);
      assert cs[1..] == Chunks(r, round, end, to, n, src);
    }
  }

  /** A stretch's chunks, one off the front. */
  lemma ChunksUnroll(r: Reader, round: int, from: nat, to: nat, n: nat, src: seq<Frame>)
    requires r.Ok() && n >= 1 && from <= to
    ensures from == to ==> Chunks(r, round, from, to, n, src) == []
    ensures from < to ==> var end := Min(from + n, to);
              Chunks(r, round, from, to, n, src)
              == [Chunk(round, from, Region(src, from, end), r.BeatAt(from))] + Chunks(r, round, end, to, n, src)
  {
    hide Reader.BeatAt;
  }

  /** The books of a fill: the cursor moves by what was emitted plus what was skipped, and the underrun counters
      record exactly the skips made away from frame 0. */
  lemma FillBalances(r: Reader, round: int, play: int, target: int, n: nat, src: seq<Frame>)
    requires r.Ok() && n >= 1
    ensures var d := Fill(r, round, play, target, n, src); var from := FillFrom(r, play);
            && d.reader == r.(cursor := d.reader.cursor)
            && d.reader.cursor - r.cursor == (from - r.cursor) + |Joined(d.chunks)|
            && d.skipped == (if r.cursor > 0 then from - r.cursor else 0)
            && (d.events == 1 <==> d.skipped > 0)
            && (r.cursor <= r.total ==> d.reader.cursor <= r.total)
  {
    hide Reader.BeatAt, Chunks;
    ChunksCover(r, round, FillFrom(r, play), FillTo(r, play, target), n, src);
  }
}
