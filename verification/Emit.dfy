/** The emit path's objects (internal/emit/pacedreader.go, internal/emit/feeder.go), as they are updated in place, each method
    proved to compute the corresponding function on values. Sample getters and the sink callback become a parameter
    and a result: the reassembled rounds as they stand, and the chunks sent. */
module Emit {
  import opened Common
  import opened Audio
  import opened Interval
  import opened P = PacedReader
  import opened FeederModel
  import opened FeederRuns

  class PacedReader {
    const rate: nat
    var tempoBPM: real
    var baseBeat: real
    var baseFrame: int
    var totalFrames: nat
    var cursor: nat

    ghost predicate Valid() {
      rate > 0
    }

    /** The reader as a value. */
    ghost function Value(): (r: Reader)
      reads this
      requires Valid()
      ensures r.Ok()
    {
      Reader(rate, tempoBPM, baseBeat, baseFrame, totalFrames, cursor)
    }

    constructor (rate: nat, tempoBPM: real, startBeat: real, totalFrames: nat)
      requires rate > 0
      ensures Valid() && Value() == New(rate, tempoBPM, startBeat, totalFrames)
    {
      this.rate, this.tempoBPM, this.totalFrames := rate, tempoBPM, totalFrames;
      baseBeat, baseFrame, cursor := startBeat, 0, 0;
    }

    method Tempo() returns (t: real)
      ensures Valid() ==> t == Value().Tempo()
    {
      t := if tempoBPM <= 0.0 then 120.0 else tempoBPM;
    }

    method BeatAt(frame: int) returns (beat: real)
      requires Valid()
      ensures beat == Value().BeatAt(frame)
    {
      var seconds := (frame - baseFrame) as real / rate as real;
      var tempo := Tempo();
      beat := baseBeat + seconds * tempo / 60.0;
    }

    method FrameAtBeat(beat: real) returns (frame: int)
      requires Valid()
      ensures frame == Value().FrameAtBeat(beat)
    {
      var tempo := Tempo();
      var seconds := (beat - baseBeat) * 60.0 / tempo;
      frame := baseFrame + Round(seconds * rate as real);
    }

    /** The next chunk, stamped with the beat of its first frame; frames that have not arrived are silent. */
    method Next(chunkFrames: nat, src: seq<Frame>) returns (samples: seq<Frame>, beat: real, done: bool)
      requires Valid()
      modifies this`cursor
      ensures Value() == old(Value()).(cursor := old(cursor) + old(Value()).ChunkLen(chunkFrames))
      ensures samples == Region(src, old(cursor), cursor)
      ensures beat == old(Value()).BeatAt(old(cursor))
      ensures cursor == (if old(cursor) >= totalFrames then old(cursor) else Min(old(cursor) + chunkFrames, totalFrames))
      ensures done <==> cursor >= totalFrames
    {
      beat := BeatAt(cursor);
      if cursor >= totalFrames {
        return [], beat, true;
      }
      var n := chunkFrames;
      if cursor + n > totalFrames {
        n := totalFrames - cursor;
      }
      var out := new Frame[n](_ => SILENT);
      if cursor < |src| {
        var end := cursor + n;
        if end > |src| {
          end := |src|;
        }
        forall i | 0 <= i < end - cursor {
          out[i] := src[cursor + i];
        }
      }
      cursor := cursor + n;
      samples := out[..];
      done := cursor >= totalFrames;
    }

    method SetTotalFrames(n: int)
      requires Valid()
      modifies this`totalFrames
      ensures Value() == old(Value()).SetTotalFrames(n) && totalFrames == Max(n, cursor)
    {
      totalFrames := if n < cursor then cursor else n;
    }

    method Skip(toFrame: int)
      requires Valid()
      modifies this`cursor
      ensures Value() == old(Value()).Skip(toFrame) && cursor == Max(old(cursor), Min(toFrame, totalFrames))
    {
      var to := toFrame;
      if to > totalFrames {
        to := totalFrames;
      }
      if to > cursor {
        cursor := to;
      }
    }

    method Rebase(bpm: real, totalFrames: int)
      requires Valid()
      modifies this
      ensures Valid() && Value() == old(Value()).Rebase(bpm, totalFrames)
      ensures cursor == old(cursor) && Value().BeatAt(cursor) == old(Value().BeatAt(cursor))
      ensures bpm > 0.0 ==> tempoBPM == bpm
      ensures this.totalFrames == if totalFrames > 0 then totalFrames else old(this.totalFrames)
    {
      RebaseKeepsStamp(Value(), bpm, totalFrames);
      baseBeat := BeatAt(cursor);
      baseFrame := cursor;
      if bpm > 0.0 {
        tempoBPM := bpm;
      }
      if totalFrames > 0 {
        this.totalFrames := totalFrames;
      }
    }
  }

  class Feeder {
    var cur: PacedReader?
    var curIdx: int
    var next: PacedReader?
    var nextIdx: int
    var nextStart: nat
    var makeNext: Option<Handoff>
    var cushionFrames: nat
    var chunkFrames: nat
    var underrunEvents: nat
    var underrunFrames: nat

    ghost predicate Valid()
      reads this
    {
      && 1 <= chunkFrames <= cushionFrames
      && (cur != null ==> cur.Valid() && cur != next)
      && (next != null ==> next.Valid())
      && (makeNext.Some? ==> makeNext.value.rate > 0)
    }

    ghost function ReaderOf(r: PacedReader?): (o: Option<Reader>)
      reads r
      requires r != null ==> r.Valid()
    {
      if r == null then None else Some(r.Value())
    }

    /** The feeder as a value. */
    ghost function Value(): (f: FeederModel.Feeder)
      reads this, cur, next
      requires Valid()
      ensures Ok(f)
    {
      FeederModel.Feeder(ReaderOf(cur), curIdx, ReaderOf(next), nextIdx, nextStart, makeNext, cushionFrames, chunkFrames,
                         underrunEvents, underrunFrames)
    }

    constructor (cushionFrames: int, chunkFrames: int)
      ensures Valid() && Value() == NewFeeder(cushionFrames, chunkFrames)
      ensures this.chunkFrames == Max(chunkFrames, 1) && this.cushionFrames == Max(cushionFrames, this.chunkFrames) && cur == null
    {
      var chunk := if chunkFrames < 1 then 1 else chunkFrames;
      var cushion := if cushionFrames < chunk then chunk else cushionFrames;
      cur, curIdx, next, nextIdx, nextStart, makeNext := null, 0, null, 0, 0, None;
      this.cushionFrames, this.chunkFrames := cushion, chunk;
      underrunEvents, underrunFrames := 0, 0;
    }

    method SetCushion(cushionFrames: int)
      requires Valid()
      modifies this`cushionFrames
      ensures Valid() && Value() == FeederModel.SetCushion(old(Value()), cushionFrames)
      ensures this.cushionFrames == Max(cushionFrames, chunkFrames)
    {
      this.cushionFrames := if cushionFrames < chunkFrames then chunkFrames else cushionFrames;
    }

    method SetCurrent(idx: int, r: PacedReader, makeNext: Option<Handoff>)
      requires Valid() && r.Valid() && (makeNext.Some? ==> makeNext.value.rate > 0)
      modifies this
      ensures Valid() && cur == r && next == null
      ensures Value() == FeederModel.SetCurrent(old(Value()), idx, old(r.Value()), makeNext)
    {
      cur, curIdx := r, idx;
      next, nextIdx, nextStart := null, 0, 0;
      this.makeNext := makeNext;
    }

    method Promote(idx: int, makeNext: Option<Handoff>) returns (adopted: bool)
      requires Valid() && (makeNext.Some? ==> makeNext.value.rate > 0)
      modifies this
      ensures Valid() && Value() == FeederModel.Promote(old(Value()), idx, makeNext)
      ensures adopted <==> Promotes(old(Value()), idx)
      ensures if adopted then cur == old(next) && next == null else cur == old(cur) && next == old(next)
    {
      if next == null || nextIdx != idx {
        return false;
      }
      cur, curIdx := next, nextIdx;
      next, nextIdx, nextStart := null, 0, 0;
      this.makeNext := makeNext;
      adopted := true;
    }

    /** What a boundary does to one stream's reader (audio_engine_real.go, onBoundary): adopt the pre-rolled one,
        re-anchored if the tempo has moved since, or install a fresh one. */
    method HandOver(idx: int, h: Handoff, startBeat: real)
      requires Valid() && h.rate > 0
      modifies this, next
      ensures Valid()
      ensures Value() == if Promotes(old(Value()), idx) then Adopted(old(Value()), idx, h)
                         else FeederModel.SetCurrent(old(Value()), idx, New(h.rate, h.tempo, startBeat, h.totalFrames), Some(h))
      ensures Promotes(old(Value()), idx) ==> cur != null && cur == old(next) && TakesOver(cur.Value(), old(next.Value()), h)
    {
      ghost var f0 := Value();
      if Promotes(f0, idx) {
        AdoptionTakesOver(f0, idx, h);
      }
      hide TakesOver;
      var adopted := Promote(idx, Some(h));
      if adopted {
        if cur.tempoBPM != h.tempo {
          cur.Rebase(h.tempo, h.totalFrames);
        }
      } else {
        var r := new PacedReader(h.rate, h.tempo, startBeat, h.totalFrames);
        SetCurrent(idx, r, Some(h));
      }
    }

    method SkipFrames(frames: int)
      requires Valid()
      modifies this, cur, next
      ensures Valid() && Value() == FeederModel.SkipFrames(old(Value()), frames)
      ensures cur == old(cur) && next == old(next)
      ensures cur != null ==> Skips(cur.Value(), old(cur.Value()), frames)
      ensures next != null ==> Skips(next.Value(), old(next.Value()), frames)
    {
      if frames <= 0 {
        return;
      }
      if cur != null {
        cur.Skip(cur.cursor + frames);
      }
      if next != null {
        next.Skip(next.cursor + frames);
      }
    }

    /** q is r moved on by `frames`, if any, but not past its end; its length and its stamps stay. */
    ghost predicate Skips(q: Reader, r: Reader, frames: int) {
      q == r.(cursor := q.cursor) && q.cursor - r.cursor == Max(0, Min(frames, r.total - r.cursor))
    }

    /** fill's loop: frames up to `end`, chunk by chunk. */
    method Send(r: PacedReader, round: int, end: int, src: seq<Frame>) returns (sent: seq<Chunk>)
      requires Valid() && r.Valid() && end <= r.totalFrames
      modifies r`cursor
      ensures r.Value() == old(r.Value()).(cursor := Max(old(r.cursor), end))
      ensures sent == Chunks(old(r.Value()), round, old(r.cursor), r.cursor, old(chunkFrames), src)
    {
      hide Reader.BeatAt, Chunks, Region;
      ghost var r0 := r.Value();
      ghost var from, to := r.cursor, Max(r.cursor, end);
      var chunk := chunkFrames;
      sent := [];
      ChunksUnroll(r0, round, to, to, chunk, src);
      while r.cursor < end
        invariant from <= r.cursor <= to
        invariant r.Value() == r0.(cursor := r.cursor)
        invariant sent + Chunks(r0, round, r.cursor, to, chunk, src) == Chunks(r0, round, from, to, chunk, src)
      {
        var n := chunk;
        if r.cursor + n > end {
          n := end - r.cursor;
        }
        var at := r.cursor;
        var samples, beat, _ := r.Next(n, src);
        StampIgnoresCursor(r0, at);
        ChunksUnroll(r0, round, at, to, chunk, src);
        sent := sent + [Chunk(round, at, samples, beat)];
      }
    }

    /** Bring one reader's cursor up to `target`, counting the shortfall behind `play` as an underrun mid-stream. */
    method FillReader(r: PacedReader, round: int, play: int, target: int, src: seq<Frame>) returns (sent: seq<Chunk>)
      requires Valid() && r.Valid()
      modifies this`underrunEvents, this`underrunFrames, r
      ensures var d := Fill(old(r.Value()), round, play, target, chunkFrames, src);
              && r.Value() == d.reader && sent == d.chunks
              && underrunEvents == old(underrunEvents) + d.events
              && underrunFrames == old(underrunFrames) + d.skipped
    {
      hide Reader.BeatAt;
      ghost var r0 := r.Value();
      if play > r.cursor && r.cursor < r.totalFrames {
        var skipTo := play;
        if skipTo > r.totalFrames {
          skipTo := r.totalFrames;
        }
        if r.cursor > 0 {
          underrunEvents := underrunEvents + 1;
          underrunFrames := underrunFrames + (skipTo - r.cursor);
        }
        r.Skip(skipTo);
      }
      ghost var from := r.cursor;
      assert from == FillFrom(r0, play) && r.Value() == r0.(cursor := from);
      var end := target;
      if end > r.totalFrames {
        end := r.totalFrames;
      }
      sent := Send(r, round, end, src);
      ChunksIgnoreCursor(r0, from, round, from, r.cursor, chunkFrames, src);
    }

    /** Chunks depend on a reader only through its stamps. */
    lemma {:induction false} ChunksIgnoreCursor(r: Reader, c: nat, round: int, from: nat, to: nat, n: nat, src: seq<Frame>)
      requires r.Ok() && n >= 1 && from <= to
      ensures Chunks(r.(cursor := c), round, from, to, n, src) == Chunks(r, round, from, to, n, src)
      decreases (to - from)
    {
      if from < to {
        ChunksIgnoreCursor(r, c, round, Min(from + n, to), to, n, src);
      }
    }

    lemma StampIgnoresCursor(r: Reader, c: nat)
      requires r.Ok()
      ensures r.(cursor := c).BeatAt(c) == r.BeatAt(c)
    {
    }

    /** makeNext: build the next round's reader; when the final window's padding carries the next round's head,
        the current reader plays through it and the next one starts past it. */
    method RollNext(h: Handoff, store: Store)
      requires Valid() && cur != null && h.rate > 0
      modifies this, cur
      ensures Valid() && cur == old(cur) && next != null && fresh(next)
      ensures Value() == PreRoll(old(Value()), h, store)
    {
      hide Reader.BeatAt, Reader.FrameAtBeat;
      var start := 0;
      if PlaysThroughPad(h, store) {
        cur.SetTotalFrames(h.paddedFrames);
        start := h.paddedFrames - h.totalFrames;
      }
      var r := new PacedReader(h.rate, h.tempo, h.endBeat, h.totalFrames);
      if r.cursor < start {
        r.Skip(start);
      }
      next, nextIdx, nextStart := r, h.round + 1, start;
    }

    /** Past the end of the current reader: pre-roll, top up again, go on into the next reader. */
    method CrossEnd(play: nat, store: Store) returns (sent: seq<Chunk>)
      requires Valid() && cur != null
      modifies this, cur, next
      ensures Valid() && cur == old(cur) && (next == old(next) || fresh(next))
      ensures (Value(), sent) == Beyond(old(Value()), play, store)
    {
      hide Fill, PreRoll, Reader.FrameAtBeat, Reader.BeatAt;
      sent := [];
      if next == null {
        if makeNext.None? {
          return;
        }
        RollNext(makeNext.value, store);
        sent := FillReader(cur, curIdx, play, play + cushionFrames, Pcm(store, curIdx));
      }
      var rest := FillBeyond(play, store);
      sent := sent + rest;
    }

    /** What lies past the current reader's end, out of the next one. */
    method FillBeyond(play: nat, store: Store) returns (sent: seq<Chunk>)
      requires Valid() && cur != null && next != null
      modifies this`underrunEvents, this`underrunFrames, next
      ensures Valid()
      ensures (Value(), sent) == FillNext(old(Value()), play, store)
    {
      hide Fill, Reader.FrameAtBeat, Reader.BeatAt;
      sent := [];
      var over := play + cushionFrames - cur.totalFrames;
      if over > 0 {
        var overPlay := play - cur.totalFrames;
        if overPlay < 0 {
          overPlay := 0;
        }
        sent := FillReader(next, nextIdx, nextStart + overPlay, nextStart + over, Pcm(store, nextIdx));
      }
    }

    /** Top the sink up to playhead + cushion. */
    method Advance(nowBeat: real, store: Store) returns (sent: seq<Chunk>)
      requires Valid()
      modifies this, cur, next
      ensures Valid() && cur == old(cur) && (next == old(next) || fresh(next))
      ensures (Value(), sent) == FeederModel.Advance(old(Value()), nowBeat, store)
    {
      hide Fill, Beyond, Reader.FrameAtBeat, Reader.BeatAt;
      if cur == null {
        return [];
      }
      var play := cur.FrameAtBeat(nowBeat);
      if play < 0 {
        play := 0;
      }
      sent := FillReader(cur, curIdx, play, play + cushionFrames, Pcm(store, curIdx));
      if play + cushionFrames > cur.totalFrames {
        var rest := CrossEnd(play, store);
        sent := sent + rest;
      }
    }
  }
}
