/** The capture assembler as it runs (internal/capture/assembler.go): one object whose fields and interval buffers
    are updated in place. Every method computes exactly its function in AssemblerModel. */
module Assembler {
  import opened Common
  import opened Audio
  import opened Interval
  import M = AssemblerModel

  class IntervalBuf {
    const index: int
    const frames: nat
    const totalWindows: nat
    const pcm: array<Frame>
    var writtenFrames: nat
    var emitted: nat

    ghost function View(): M.Buf
      reads this, pcm
    {
      M.Buf(index, pcm[..], writtenFrames, emitted, totalWindows)
    }

    ghost predicate Valid() {
      frames == pcm.Length
    }

    constructor (index: int, frames: nat, window: nat)
      requires M.LongEnough(frames, window)
      ensures Valid() && fresh(pcm)
      ensures View() == M.NewBuf(window, index, frames)
    {
      this.index := index;
      this.frames := frames;
      this.totalWindows := if window > 0 then (frames + window - 1) / window else 0;
      this.pcm := new Frame[frames](_ => SILENT);
      this.writtenFrames := 0;
      this.emitted := 0;
      new;
      assert pcm[..] == Silence(frames);
    }
  }

  class CaptureAssembler {
    var cfg: Config
    const sampleRate: nat
    const windowFrames: nat
    var cur: IntervalBuf?
    var nextOff: nat
    var anchored: bool
    var resnaps: nat
    var pendingSlew: int
    var slewedFrames: nat
    var droppedLate: nat
    var droppedBackfill: nat
    var pending: IntervalBuf?

    ghost function Repr(): set<object>
      reads this
    {
      {this}
      + (if cur != null then {cur, cur.pcm} else {})
      + (if pending != null then {pending, pending.pcm} else {})
    }

    ghost predicate Valid()
      reads Repr()
    {
      && (cur != null ==> cur.Valid())
      && (pending != null ==> pending.Valid())
      && (cur != null && pending != null ==> cur != pending && cur.pcm != pending.pcm)
    }

    ghost function View(): M.Asm
      reads Repr()
    {
      M.Asm(cfg, sampleRate, windowFrames,
        if cur == null then None else Some(cur.View()),
        nextOff, anchored, pendingSlew,
        if pending == null then None else Some(pending.View()),
        resnaps, slewedFrames, droppedLate, droppedBackfill)
    }

    constructor (cfg: Config, sampleRate: nat, windowFrames: nat)
      ensures Valid() && fresh(Repr())
      ensures View() == M.New(cfg, sampleRate, windowFrames)
    {
      this.cfg := cfg;
      this.sampleRate := sampleRate;
      this.windowFrames := windowFrames;
      cur, pending := null, null;
      nextOff, anchored, resnaps, pendingSlew, slewedFrames := 0, false, 0, 0, 0;
      droppedLate, droppedBackfill := 0, 0;
    }

    // -------------------------------------------------------------- windows of the current interval

    /** window(k): one encode-ready chunk of the current interval. */
    method WindowAt(k: nat) returns (w: M.Window)
      requires Valid() && cur != null && M.OkMidCall(View())
      ensures w == M.WindowOf(cur.View(), windowFrames, k)
    {
      var start := k * windowFrames;
      var s: seq<Frame>;
      if start + windowFrames <= cur.pcm.Length {
        s := cur.pcm[start..start + windowFrames];
        assert s == Fit(cur.pcm[..][start..], windowFrames);
      } else if start <= cur.pcm.Length {
        s := Fit(cur.pcm[start..], windowFrames);
        assert cur.pcm[start..] == cur.pcm[..][start..];
      } else {
        s := Silence(windowFrames);
      }
      w := M.Window(cur.index, k, cur.totalWindows, k == cur.totalWindows - 1, s);
    }

    method WindowRange(from: nat, to: nat) returns (out: seq<M.Window>)
      requires Valid() && cur != null && M.OkMidCall(View()) && from <= to
      ensures out == M.WindowsOf(cur.View(), windowFrames, from, to)
    {
      out := [];
      for k := from to to
        invariant out == M.WindowsOf(cur.View(), windowFrames, from, k)
      {
        var w := WindowAt(k);
        out := out + [w];
      }
    }

    method ReadyWindows() returns (out: seq<M.Window>)
      requires Valid() && cur != null && M.OkMidCall(View()) && windowFrames > 0
      modifies cur`emitted
      ensures Valid() && View() == old(View()).(cur := Some(M.Ready(old(View()).cur.value, windowFrames).0))
      ensures out == M.Ready(old(View()).cur.value, windowFrames).1
    {
      ghost var b := cur.View();
      CeilBounds(cur.frames, windowFrames);
      var full := if cur.frames % windowFrames != 0 then cur.totalWindows - 1 else cur.totalWindows;
      var ready := cur.writtenFrames / windowFrames;
      if cur.writtenFrames >= cur.frames || ready > full {
        ready := full;
      }
      assert ready == M.ReadyCount(b, windowFrames);
      out := [];
      if ready > cur.emitted {
        out := WindowRange(cur.emitted, ready);
        cur.emitted := ready;
      }
    }

    /** Flush every window of the current interval not emitted yet. */
    method RemainingWindows() returns (out: seq<M.Window>)
      requires Valid() && cur != null && M.OkMidCall(View())
      modifies cur`emitted
      ensures Valid()
      ensures var b := old(View()).cur.value; View() == old(View()).(cur := Some(b.(emitted := b.total)))
      ensures out == M.Remaining(old(View()).cur.value, windowFrames)
    {
      out := WindowRange(cur.emitted, cur.totalWindows);
      cur.emitted := cur.totalWindows;
    }

    method FinalWindow(b: IntervalBuf, cont: seq<Frame>) returns (w: M.Window)
      requires b.Valid() && M.PendingOk(b.View(), windowFrames)
      ensures w == M.FinalWindow(b.View(), windowFrames, cont)
    {
      CeilBounds(b.frames, windowFrames);
      var k := b.totalWindows - 1;
      assert k * windowFrames == b.totalWindows * windowFrames - windowFrames;
      var start := k * windowFrames;
      var tail := b.pcm[start..];
      assert tail == b.pcm[..][start..];
      w := M.Window(b.index, k, b.totalWindows, true, Fit(tail + cont, windowFrames));
    }

    // -------------------------------------------------------------- the held final window

    method ReleasePending() returns (out: seq<M.Window>)
      requires Valid() && M.OkMidCall(View())
      modifies `pending
      ensures Valid() && Repr() <= old(Repr())
      ensures (View(), out) == M.ReleasePending(old(View()))
    {
      out := [];
      if pending != null {
        var p := pending;
        ghost var pad' := M.PadOf(p.View(), windowFrames);
        var pad := p.totalWindows * windowFrames - p.frames;
        assert pad == pad';
        if cur != null && cur.index == p.index + 1 && cur.writtenFrames >= pad {
          var cont := cur.pcm[..pad];
          assert cont == cur.pcm[..][..pad];
          var w := FinalWindow(p, cont);
          pending := null;
          out := [w];
        }
      }
    }

    method FlushPending() returns (out: seq<M.Window>)
      requires Valid() && M.OkMidCall(View())
      modifies `pending
      ensures Valid() && Repr() <= old(Repr())
      ensures (View(), out) == M.FlushPending(old(View()))
    {
      out := [];
      if pending != null {
        var w := FinalWindow(pending, []);
        pending := null;
        out := [w];
      }
    }

    // -------------------------------------------------------------- placement

    method FinishCurrent() returns (c: M.Completed)
      requires Valid() && cur != null
      ensures c == M.Finish(cur.View())
    {
      c := M.Completed(cur.index, cur.pcm[..], cur.frames, cur.writtenFrames);
    }

    method Place(beat: real, tempo: real, windowed: bool)
      returns (flushedC: Option<M.Completed>, flushedW: seq<M.Window>, ok: bool)
      requires Valid() && M.Ok(View()) && M.LongEnough(M.FramesAt(View(), tempo), windowFrames)
      requires windowed ==> windowFrames > 0
      modifies Repr()
      ensures Valid() && fresh(Repr() - old(Repr()))
      ensures M.Placed(View(), flushedC, flushedW, ok) == M.Place(old(View()), beat, tempo, windowed)
    {
      hide Config.IntervalSamples, Config.FrameOffset, Config.IndexAtBeat, M.BufOk, M.PendingOk;
      flushedC, flushedW, ok := None, [], true;
      var beatIdx := cfg.IndexAtBeat(beat);
      var beatOff := cfg.FrameOffset(beat, beatIdx, sampleRate, tempo);
      var frames := cfg.IntervalSamples(sampleRate, tempo);
      if cur == null {
        cur := new IntervalBuf(beatIdx, frames, windowFrames);
        nextOff := beatOff;
        anchored := true;
        return;
      }
      var div := (beatIdx - cur.index) * cur.frames + (beatOff - nextOff);
      assert div == M.Divergence(View(), beat, tempo);
      var threshold := sampleRate / 4;
      if anchored && -threshold <= div <= threshold {
        var db := if sampleRate / 100 > 1 then sampleRate / 100 else 1;
        if div > db {
          pendingSlew := Min(div, M.SLEW_MAX_PER_BUFFER);
        } else if div < -db {
          pendingSlew := -Min(-div, M.SLEW_MAX_PER_BUFFER);
        }
        return;
      }
      if beatIdx < cur.index {
        droppedLate := droppedLate + 1;
        ok := false;
        return;
      }
      flushedC, flushedW := PlaceAnew(beatIdx, beatOff, frames, windowed);
    }

    /** Give up the current interval: its windows, or its completion. */
    method LeaveCurrent(windowed: bool) returns (flushedC: Option<M.Completed>, flushedW: seq<M.Window>)
      requires Valid() && M.OkMidCall(View()) && cur != null
      modifies `pending, cur`emitted
      ensures Valid() && cur == old(cur) && Repr() <= old(Repr())
      ensures var a, b := old(View()), old(View()).cur.value;
              if windowed
              then View() == M.FlushPending(a).0.(cur := Some(b.(emitted := b.total)))
                   && flushedW == M.FlushPending(a).1 + M.Remaining(b, windowFrames) && flushedC == None
              else View() == a && flushedC == Some(M.Finish(b)) && flushedW == []
    {
      hide M.BufOk, M.PendingOk, M.WindowsOf;
      flushedC, flushedW := None, [];
      if windowed {
        var held := FlushPending();
        var rest := RemainingWindows();
        flushedW := held + rest;
      } else {
        var c := FinishCurrent();
        flushedC := Some(c);
      }
    }

    /** Give up the current interval and open the stamp's. */
    method MoveTo(beatIdx: int, frames: nat, windowed: bool) returns (flushedC: Option<M.Completed>, flushedW: seq<M.Window>)
      requires Valid() && M.OkMidCall(View()) && M.LongEnough(frames, windowFrames) && cur != null
      modifies Repr()
      ensures Valid() && fresh(Repr() - old(Repr()))
      ensures var a, b, nb := old(View()), old(View()).cur.value, Some(M.NewBuf(windowFrames, beatIdx, frames));
              if windowed
              then View() == M.FlushPending(a).0.(cur := nb)
                   && flushedW == M.FlushPending(a).1 + M.Remaining(b, windowFrames) && flushedC == None
              else View() == a.(cur := nb) && flushedC == Some(M.Finish(b)) && flushedW == []
    {
      hide M.BufOk, M.PendingOk, M.WindowsOf, M.Remaining, M.Finish, M.NewBuf, M.FlushPending, M.LongEnough;
      flushedC, flushedW := LeaveCurrent(windowed);
      cur := new IntervalBuf(beatIdx, frames, windowFrames);
    }

    /** Put the cursor where the stamp says, moving on to its interval if that is a later one. */
    method GoTo(beatIdx: int, beatOff: nat, frames: nat, windowed: bool)
      returns (flushedC: Option<M.Completed>, flushedW: seq<M.Window>)
      requires Valid() && M.OkMidCall(View()) && M.LongEnough(frames, windowFrames) && cur != null && beatIdx >= cur.index
      modifies Repr()
      ensures Valid() && fresh(Repr() - old(Repr()))
      ensures WentTo(old(View()), View(), beatIdx, beatOff, frames, windowed, flushedC, flushedW)
    {
      hide M.BufOk, M.PendingOk, M.WindowsOf, M.Remaining, M.Finish, M.NewBuf, M.LongEnough, M.FlushPending;
      flushedC, flushedW := None, [];
      if beatIdx > cur.index {
        flushedC, flushedW := MoveTo(beatIdx, frames, windowed);
      }
      nextOff := beatOff;
    }

    static predicate WentTo(a: M.Asm, r: M.Asm, beatIdx: int, beatOff: nat, frames: nat, windowed: bool,
                            c: Option<M.Completed>, ws: seq<M.Window>)
      requires M.OkMidCall(a) && M.LongEnough(frames, a.window) && a.cur.Some?
    {
      var b, nb := a.cur.value, Some(M.NewBuf(a.window, beatIdx, frames));
      if beatIdx <= b.index then r == a.(nextOff := beatOff) && c == None && ws == []
      else if windowed then r == M.FlushPending(a).0.(cur := nb, nextOff := beatOff)
                            && ws == M.FlushPending(a).1 + M.Remaining(b, a.window) && c == None
      else r == a.(cur := nb, nextOff := beatOff) && c == Some(M.Finish(b)) && ws == []
    }

    /** The tail of place: re-anchor from the stamp. */
    method PlaceAnew(beatIdx: int, beatOff: nat, frames: nat, windowed: bool)
      returns (flushedC: Option<M.Completed>, flushedW: seq<M.Window>)
      requires Valid() && M.Ok(View()) && M.LongEnough(frames, windowFrames) && cur != null && beatIdx >= cur.index
      requires windowed ==> windowFrames > 0
      modifies Repr()
      ensures Valid() && fresh(Repr() - old(Repr()))
      ensures M.Placed(View(), flushedC, flushedW, true) == M.Reanchored(old(View()), beatIdx, beatOff, frames, windowed)
    {
      hide M.BufOk, M.PendingOk, M.WindowsOf, M.Remaining, M.Finish, M.NewBuf, M.LongEnough, M.FlushPending, M.Reanchored, WentTo;
      if anchored {
        resnaps := resnaps + 1;
      }
      anchored := true;
      assert View() == M.Counted(old(View()));
      flushedC, flushedW := GoTo(beatIdx, beatOff, frames, windowed);
      ReanchoredIs(old(View()), View(), beatIdx, beatOff, frames, windowed, flushedC, flushedW);
    }

    static lemma ReanchoredIs(a: M.Asm, r: M.Asm, beatIdx: int, beatOff: nat, frames: nat, windowed: bool,
                       c: Option<M.Completed>, ws: seq<M.Window>)
      requires M.Ok(a) && M.LongEnough(frames, a.window) && a.cur.Some? && beatIdx >= a.cur.value.index && (windowed ==> a.window > 0)
      requires WentTo(M.Counted(a), r, beatIdx, beatOff, frames, windowed, c, ws)
      ensures M.Placed(r, c, ws, true) == M.Reanchored(a, beatIdx, beatOff, frames, windowed)
    {
      hide M.BufOk, M.PendingOk, M.WindowsOf, M.Remaining, M.Finish, M.NewBuf, M.LongEnough, M.FlushPending;
    }

    /** slewAdjust for the armed correction, which it consumes. */
    method SlewAdjust(samples: seq<Frame>) returns (out: seq<Frame>)
      requires Valid() && -M.SLEW_MAX_PER_BUFFER <= pendingSlew <= M.SLEW_MAX_PER_BUFFER
      modifies `pendingSlew, `slewedFrames
      ensures Valid() && View() == M.SlewCounted(old(View()), |samples|)
      ensures out == M.Slewed(samples, old(pendingSlew)) && M.IsSlewed(out, samples, old(pendingSlew))
    {
      hide M.BufOk, M.PendingOk, Resampled, M.IsSlewed, IsResampling;
      M.SlewedIs(samples, pendingSlew);
      var k := pendingSlew;
      pendingSlew := 0;
      if k == 0 || |samples| < M.SLEW_WINDOW + M.SLEW_MAX_PER_BUFFER {
        return samples;
      }
      var headFrames := |samples| - M.SLEW_WINDOW;
      var tail := ResampleLinear(samples[headFrames..], M.SLEW_WINDOW, M.SLEW_WINDOW + k);
      out := samples[..headFrames] + tail;
      slewedFrames := slewedFrames + if k < 0 then -k else k;
    }

    /** Copy frames into the current interval at the cursor, and move the cursor. */
    method Write(samples: seq<Frame>)
      requires Valid() && M.OkMidCall(View()) && cur != null
      requires nextOff + |samples| <= |cur.pcm[..]|
      modifies `nextOff, cur`writtenFrames, cur.pcm
      ensures Valid() && Repr() == old(Repr())
      ensures View() == M.Write(old(View()), samples)
    {
      ghost var before := cur.pcm[..];
      var off := nextOff;
      forall i | 0 <= i < |samples| {
        cur.pcm[off + i] := samples[i];
      }
      assert cur.pcm[..] == Overwrite(before, off, samples);
      if off < cur.frames && off + |samples| > cur.writtenFrames {
        cur.writtenFrames := off + |samples|;
      }
      nextOff := off + |samples|;
    }

    // -------------------------------------------------------------- the public operations

    method Add(beat: real, tempo: real, samples: seq<Frame>) returns (completed: Option<M.Completed>)
      requires Valid() && M.Ok(View()) && M.LongEnough(M.FramesAt(View(), tempo), windowFrames)
      modifies Repr()
      ensures Valid() && fresh(Repr() - old(Repr()))
      ensures (View(), completed) == M.Add(old(View()), beat, tempo, samples)
    {
      hide Config.IntervalSamples, M.Place, M.BufOk, M.PendingOk, M.Slewed, M.FillBatch;
      var flushedC, _, ok := Place(beat, tempo, false);
      if !ok {
        assert flushedC == None by { PlaceRefusesSilently(old(View()), beat, tempo, false); }
        return None;
      }
      var rest := SlewAdjust(samples);
      completed := FillInterval(tempo, rest, flushedC);
    }

    /** Head of the loop of Add: close the interval once the cursor stands at its end. */
    method CloseInterval(tempo: real, done: Option<M.Completed>) returns (completed: Option<M.Completed>)
      requires Valid() && M.OkMidCall(View()) && cur != null
      requires M.LongEnough(M.FramesAt(View(), tempo), windowFrames)
      modifies Repr()
      ensures Valid() && fresh(Repr() - old(Repr())) && cur != null
      ensures (View(), completed) == M.Close(old(View()), M.FramesAt(old(View()), tempo), done)
    {
      hide Config.IntervalSamples, M.BufOk, M.PendingOk;
      completed := done;
      if nextOff >= cur.frames {
        var c := FinishCurrent();
        if completed == None {
          completed := Some(c);
        }
        cur := new IntervalBuf(cur.index + 1, cfg.IntervalSamples(sampleRate, tempo), windowFrames);
        nextOff := 0;
      }
    }

    /** One iteration of the loop of Add. */
    method PlaceBatchChunk(tempo: real, samples: seq<Frame>, done: Option<M.Completed>)
      returns (rest: seq<Frame>, completed: Option<M.Completed>)
      requires Valid() && M.OkMidCall(View()) && cur != null && samples != []
      requires M.LongEnough(M.FramesAt(View(), tempo), windowFrames)
      modifies Repr()
      ensures Valid() && fresh(Repr() - old(Repr())) && M.OkMidCall(View()) && cur != null
      ensures M.SameSetup(old(View()), View()) && |rest| < |samples|
      ensures M.FillBatch(old(View()), samples, M.FramesAt(old(View()), tempo), done)
           == M.FillBatch(View(), rest, M.FramesAt(old(View()), tempo), completed)
    {
      hide Config.IntervalSamples, M.BufOk, M.PendingOk, M.Write, M.Close;
      completed := CloseInterval(tempo, done);
      var n := cur.frames - nextOff;
      if n > |samples| {
        n := |samples|;
      }
      Write(samples[..n]);
      rest := samples[n..];
    }

    /** The loop of Add. */
    method FillInterval(tempo: real, samples: seq<Frame>, done: Option<M.Completed>)
      returns (completed: Option<M.Completed>)
      requires Valid() && M.OkMidCall(View()) && cur != null
      requires M.LongEnough(M.FramesAt(View(), tempo), windowFrames)
      modifies Repr()
      ensures Valid() && fresh(Repr() - old(Repr()))
      ensures (View(), completed) == M.FillBatch(old(View()), samples, M.FramesAt(old(View()), tempo), done)
    {
      hide Config.IntervalSamples, M.BufOk, M.PendingOk, M.Write;
      completed := done;
      var rest := samples;
      ghost var v0, frames := View(), cfg.IntervalSamples(sampleRate, tempo);
      while |rest| > 0
        invariant Valid() && fresh(Repr() - old(Repr())) && M.OkMidCall(View()) && cur != null
        invariant M.SameSetup(v0, View())
        invariant M.FillBatch(v0, samples, frames, done) == M.FillBatch(View(), rest, frames, completed)
        decreases |rest|
      {
        rest, completed := PlaceBatchChunk(tempo, rest, completed);
      }
    }

    /** The head of the AddWindows loop: cross into the next interval once the cursor stands at the end. */
    method CrossEnd(tempo: real) returns (out: seq<M.Window>)
      requires Valid() && M.OkMidCall(View()) && cur != null && windowFrames > 0
      requires M.LongEnough(M.FramesAt(View(), tempo), windowFrames)
      modifies Repr()
      ensures Valid() && fresh(Repr() - old(Repr()))
      ensures (View(), out) == M.Turn(old(View()), M.FramesAt(old(View()), tempo))
    {
      hide Config.IntervalSamples;
      out := [];
      if nextOff >= cur.frames {
        var next := cur.index + 1;
        if cur.frames % windowFrames != 0 && cur.emitted == cur.totalWindows - 1 {
          pending := cur;
        } else {
          out := RemainingWindows();
        }
        cur := new IntervalBuf(next, cfg.IntervalSamples(sampleRate, tempo), windowFrames);
        nextOff := 0;
      }
    }

    method Lay(samples: seq<Frame>) returns (out: seq<M.Window>)
      requires Valid() && M.OkMidCall(View()) && cur != null && windowFrames > 0
      requires nextOff + |samples| <= |cur.pcm[..]|
      modifies Repr()
      ensures Valid() && Repr() <= old(Repr())
      ensures (View(), out) == M.Lay(old(View()), samples)
    {
      hide M.BufOk, M.PendingOk, M.Write;
      Write(samples);
      var held := ReleasePending();
      var ready := ReadyWindows();
      out := held + ready;
    }

    /** Frames that fall behind windows already emitted are dropped. */
    method DropBackfill(samples: seq<Frame>) returns (rest: seq<Frame>)
      requires Valid() && M.OkMidCall(View()) && cur != null && windowFrames > 0 && samples != []
      modifies `nextOff, `droppedBackfill
      ensures Valid() && Repr() == old(Repr())
      ensures (View(), rest) == M.TrimBehind(old(View()), samples)
    {
      hide M.BufOk, M.PendingOk;
      rest := samples;
      EmittedFits(View());
      var lim := cur.emitted * windowFrames;
      if nextOff < lim {
        droppedBackfill := droppedBackfill + 1;
        var skip := lim - nextOff;
        if skip >= |rest| {
          return [];
        }
        rest := rest[skip..];
        nextOff := lim;
      }
    }

    /** One iteration of the AddWindows loop: the frames still to place, and the windows it released. */
    method PlaceChunk(tempo: real, samples: seq<Frame>) returns (rest: seq<Frame>, out: seq<M.Window>)
      requires Valid() && M.OkMidCall(View()) && cur != null && windowFrames > 0 && samples != []
      requires M.LongEnough(M.FramesAt(View(), tempo), windowFrames)
      modifies Repr()
      ensures Valid() && fresh(Repr() - old(Repr()))
      ensures (View(), rest, out) == M.Pass(old(View()), samples, M.FramesAt(old(View()), tempo))
    {
      hide Config.IntervalSamples, M.BufOk, M.PendingOk, M.Turn, M.Lay, M.TrimBehind;
      out := CrossEnd(tempo);
      rest := DropBackfill(samples);
      if |rest| == 0 {
        return [], out;
      }
      var n := cur.frames - nextOff;
      if n > |rest| {
        n := |rest|;
      }
      var laid := Lay(rest[..n]);
      rest := rest[n..];
      out := out + laid;
    }

    /** The loop of AddWindows. */
    method FillCurrent(tempo: real, samples: seq<Frame>) returns (out: seq<M.Window>)
      requires Valid() && M.OkMidCall(View()) && cur != null && windowFrames > 0
      requires M.LongEnough(M.FramesAt(View(), tempo), windowFrames)
      modifies Repr()
      ensures Valid() && fresh(Repr() - old(Repr()))
      ensures (View(), out) == M.FillWindows(old(View()), samples, M.FramesAt(old(View()), tempo))
    {
      hide Config.IntervalSamples, M.BufOk, M.PendingOk, M.Pass;
      out := [];
      var rest := samples;
      ghost var v0, frames := View(), cfg.IntervalSamples(sampleRate, tempo);
      ghost var all := M.FillWindows(v0, samples, frames);
      while |rest| > 0
        invariant Valid() && fresh(Repr() - old(Repr())) && M.OkMidCall(View()) && cur != null
        invariant M.SameSetup(v0, View())
        invariant var r := M.FillWindows(View(), rest, frames); all.0 == r.0 && all.1 == out + r.1
        decreases |rest|
      {
        ghost var out1 := out;
        var more, released := PlaceChunk(tempo, rest);
        rest := more;
        out := out + released;
        ghost var r := M.FillWindows(View(), rest, frames).1;
        assert out1 + (released + r) == out + r;
      }
      assert out + [] == out;
    }

    method AddWindows(beat: real, tempo: real, samples: seq<Frame>) returns (out: seq<M.Window>)
      requires Valid() && M.Ok(View()) && windowFrames > 0 && M.LongEnough(M.FramesAt(View(), tempo), windowFrames)
      modifies Repr()
      ensures Valid() && fresh(Repr() - old(Repr()))
      ensures (View(), out) == M.AddWindows(old(View()), beat, tempo, samples)
    {
      hide Config.IntervalSamples, M.Place, M.BufOk, M.PendingOk, M.FillWindows, M.Slewed;
      var _, flushed, ok := Place(beat, tempo, true);
      if !ok {
        assert flushed == [] by { PlaceRefusesSilently(old(View()), beat, tempo, true); }
        return [];
      }
      var rest := SlewAdjust(samples);
      var ws := FillCurrent(tempo, rest);
      out := flushed + ws;
    }

    method Flush() returns (c: Option<M.Completed>)
      requires Valid()
      modifies `cur
      ensures Valid() && Repr() <= old(Repr())
      ensures (View(), c) == M.Flush(old(View()))
    {
      if cur == null {
        return None;
      }
      var done := FinishCurrent();
      cur := null;
      c := Some(done);
    }

    method FlushWindows() returns (out: seq<M.Window>)
      requires Valid() && M.Ok(View())
      modifies Repr()
      ensures Valid() && Repr() <= old(Repr())
      ensures (View(), out) == M.FlushWindows(old(View()))
    {
      out := FlushPending();
      if cur != null {
        var rest := RemainingWindows();
        out := out + rest;
        cur := null;
      }
    }

    method SetConfig(c: Config)
      requires Valid() && M.Ok(View())
      modifies this
      ensures Valid() && Repr() <= old(Repr())
      ensures View() == M.SetConfig(old(View()), c)
    {
      if c == cfg {
        return;
      }
      cfg := c;
      cur := null;
      pending := null;
      anchored := false;
    }

    method Reanchor()
      requires Valid()
      modifies `anchored
      ensures Valid() && View() == M.Reanchor(old(View()))
    {
      anchored := false;
    }
  }

  lemma EmittedFits(a: M.Asm)
    requires M.OkMidCall(a) && a.cur.Some? && a.window > 0
    ensures a.cur.value.emitted * a.window <= |a.cur.value.pcm|
  {
  }

  lemma PlaceRefusesSilently(a: M.Asm, beat: real, tempo: real, windowed: bool)
    requires M.Ok(a) && M.LongEnough(M.FramesAt(a, tempo), a.window)
    requires windowed ==> a.window > 0
    ensures var p := M.Place(a, beat, tempo, windowed); !p.ok ==> p.completed == None && p.windows == []
  {
  }
}
