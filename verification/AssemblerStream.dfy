/** From an anchor on, the windows the assembler emits are the laid-down stream cut on the interval grid. */
module AssemblerStream {
  import opened Common
  import opened Audio
  import opened Interval
  import opened AssemblerModel

  /** An opened interval: its index, where it starts in the stream, and its length. */
  datatype Iv = Iv(index: int, start: nat, frames: nat)

  /** Consecutive intervals laid end to end. */
  ghost predicate Chain(ivs: seq<Iv>, w: nat) {
    && |ivs| >= 1
    && (forall j :: 0 <= j < |ivs| ==> LongEnough(ivs[j].frames, w))
    && (forall j :: 1 <= j < |ivs| ==> ivs[j].index == ivs[j - 1].index + 1)
    && (forall j :: 1 <= j < |ivs| ==> ivs[j].start == ivs[j - 1].start + ivs[j - 1].frames)
  }

  function Cut(s: seq<Frame>, from: nat, n: nat): seq<Frame> {
    if from + n <= |s| then s[from..from + n] else []
  }

  /** Window k of an interval, as the stream alone determines it. A final window that overhangs its interval
      runs on into the stream: its padding is the next interval's head. */
  function StreamWindow(s: seq<Frame>, iv: Iv, w: nat, k: nat): Window
    requires w > 0
  {
    var total := Ceil(iv.frames, w);
    Window(iv.index, k, total, k == total - 1, Cut(s, iv.start + k * w, w))
  }

  /** How many windows of iv end within the first `len` frames of the stream. */
  function Due(len: nat, iv: Iv, w: nat): nat
    requires w > 0
  {
    if len <= iv.start then 0 else Min((len - iv.start) / w, Ceil(iv.frames, w))
  }

  function IvWindows(s: seq<Frame>, iv: Iv, w: nat, n: nat): (ws: seq<Window>)
    requires w > 0
    ensures |ws| == n
    ensures forall k :: 0 <= k < n ==> ws[k] == StreamWindow(s, iv, w, k)
  {
    seq(n, k requires 0 <= k < n => StreamWindow(s, iv, w, k))
  }

  /** Every window that ends within the stream, interval by interval. */
  function Out(s: seq<Frame>, ivs: seq<Iv>, w: nat): seq<Window>
    requires w > 0
  {
    if ivs == [] then
      []
    else
      var last := ivs[|ivs| - 1];
      Out(s, ivs[..|ivs| - 1], w) + IvWindows(s, last, w, Due(|s|, last, w))
  }

  // ---------------------------------------------------------------- the state that a stream leaves behind

  /** iv's final window overhangs the stream written so far. */
  predicate Held(len: nat, iv: Iv, w: nat)
    requires w > 0
  {
    len < iv.start + Ceil(iv.frames, w) * w
  }

  function Closed(s: seq<Frame>, iv: Iv, w: nat): Buf
    requires w > 0
  {
    var total := Ceil(iv.frames, w);
    Buf(iv.index, Cut(s, iv.start, iv.frames), iv.frames, if total > 0 then total - 1 else 0, total)
  }

  ghost predicate PendingTracks(a: Asm, s: seq<Frame>, ivs: seq<Iv>)
    requires a.window > 0
  {
    if |ivs| >= 2 && Held(|s|, ivs[|ivs| - 2], a.window)
    then a.pending == Some(Closed(s, ivs[|ivs| - 2], a.window))
    else a.pending == None
  }

  /** a has opened exactly ivs and holds the part of s that falls in the last of them. */
  ghost predicate Holds(a: Asm, s: seq<Frame>, ivs: seq<Iv>) {
    && a.window > 0 && a.cur.Some? && OkMidCall(a) && Chain(ivs, a.window)
    && HoldsTail(a.cur.value, s, ivs[|ivs| - 1])
    && a.nextOff == |s| - ivs[|ivs| - 1].start
  }

  ghost predicate HoldsTail(b: Buf, s: seq<Frame>, iv: Iv) {
    && b.index == iv.index
    && |b.pcm| == iv.frames
    && iv.start <= |s| <= iv.start + iv.frames
    && b.pcm == Fit(s[iv.start..], iv.frames)
  }

  /** Mid-stream: a has laid down exactly s, and of the last interval it has emitted every covered window. */
  ghost predicate Tracks(a: Asm, s: seq<Frame>, ivs: seq<Iv>) {
    && Holds(a, s, ivs)
    && PendingTracks(a, s, ivs)
    && a.cur.value.written == a.nextOff
    && a.cur.value.emitted == a.nextOff / a.window
  }

  /** Just anchored: the offset before the first frame counts as silence, but nothing is emitted yet. */
  ghost predicate Anchored(a: Asm, s: seq<Frame>, ivs: seq<Iv>) {
    && Holds(a, s, ivs)
    && PendingTracks(a, s, ivs)
    && a.cur.value.written == 0
    && a.cur.value.emitted == 0
    && |ivs| == 1
    && s == Silence(|s|)
  }

  // ---------------------------------------------------------------- stability of what is already out

  lemma {:induction false} StreamWindowStable(s: seq<Frame>, x: seq<Frame>, iv: Iv, w: nat, n: nat)
    requires w > 0 && iv.start + n * w <= |s|
    ensures IvWindows(s + x, iv, w, n) == IvWindows(s, iv, w, n)
  {
    forall k | 0 <= k < n
      ensures StreamWindow(s + x, iv, w, k) == StreamWindow(s, iv, w, k)
    {
      MulIncreasing(k + 1, n, w);
      assert (k + 1) * w == k * w + w;
      assert Cut(s + x, iv.start + k * w, w) == Cut(s, iv.start + k * w, w);
    }
  }

  lemma DueBound(len: nat, iv: Iv, w: nat)
    requires w > 0
    ensures len > iv.start ==> iv.start + Due(len, iv, w) * w <= len
    ensures Due(len, iv, w) <= Ceil(iv.frames, w)
    ensures len >= iv.start + Ceil(iv.frames, w) * w && iv.frames > 0 ==> Due(len, iv, w) == Ceil(iv.frames, w)
  {
    if len > iv.start {
      var q := (len - iv.start) / w;
      MulIncreasing(Due(len, iv, w), q, w);
      assert q * w <= len - iv.start;
      CeilBounds(iv.frames, w);
      if len >= iv.start + Ceil(iv.frames, w) * w {
        DivMonotone(Ceil(iv.frames, w) * w, len - iv.start, w);
        DivUnique(Ceil(iv.frames, w) * w, w, Ceil(iv.frames, w), 0);
      }
    } else {
      CeilBounds(iv.frames, w);
    }
  }

  /** Once all of ivs has been emitted, laying more down changes none of it. */
  lemma {:induction false} OutStable(s: seq<Frame>, x: seq<Frame>, ivs: seq<Iv>, w: nat)
    requires w > 0
    requires forall j :: 0 <= j < |ivs| ==> ivs[j].frames > 0 && !Held(|s|, ivs[j], w)
    ensures Out(s + x, ivs, w) == Out(s, ivs, w)
  {
    if |ivs| > 0 {
      var last := ivs[|ivs| - 1];
      OutStable(s, x, ivs[..|ivs| - 1], w);
      DueBound(|s|, last, w);
      DueBound(|s + x|, last, w);
      CeilBounds(last.frames, w);
      StreamWindowStable(s, x, last, w, Ceil(last.frames, w));
    }
  }

  /** Two intervals back, everything is out: a final window overhangs by less than one window. */
  lemma {:induction false} OldIntervalsAreOut(len: nat, ivs: seq<Iv>, w: nat, j: nat)
    requires w > 0 && Chain(ivs, w) && j + 2 < |ivs| && ivs[|ivs| - 1].start <= len
    ensures !Held(len, ivs[j], w)
  {
    CeilBounds(ivs[j].frames, w);
    StartsIncrease(ivs, w, j + 2, |ivs| - 1);
    assert ivs[j + 1].start == ivs[j].start + ivs[j].frames;
    assert ivs[j + 2].start == ivs[j + 1].start + ivs[j + 1].frames;
  }

  lemma {:induction false} StartsIncrease(ivs: seq<Iv>, w: nat, i: nat, j: nat)
    requires Chain(ivs, w) && i <= j < |ivs|
    ensures ivs[i].start <= ivs[j].start
    decreases j
  {
    if i < j {
      StartsIncrease(ivs, w, i, j - 1);
    }
  }

  // ---------------------------------------------------------------- one write

  /** After a write, before the releases that follow it. */
  ghost predicate Written(a: Asm, s: seq<Frame>, ivs: seq<Iv>) {
    && Holds(a, s, ivs)
    && a.cur.value.written == a.nextOff
  }

  lemma WriteTracks(a: Asm, s: seq<Frame>, ivs: seq<Iv>, x: seq<Frame>)
    requires Holds(a, s, ivs) && a.cur.value.written <= a.nextOff
    requires |x| > 0 && a.nextOff + |x| <= ivs[|ivs| - 1].frames
    ensures Written(Write(a, x), s + x, ivs)
  {
    var iv, b := ivs[|ivs| - 1], a.cur.value;
    var after := Fit((s + x)[iv.start..], iv.frames);
    assert (s + x)[iv.start..] == s[iv.start..] + x;
    assert Overwrite(b.pcm, a.nextOff, x) == after;
  }

  /** The held final window, once padded by the next interval's head, is the stream's own window. */
  lemma FinalWindowIsStream(s: seq<Frame>, iv: Iv, w: nat, pad: nat, head: seq<Frame>)
    requires w > 0 && LongEnough(iv.frames, w) && iv.frames % w != 0
    requires pad == Ceil(iv.frames, w) * w - iv.frames && |head| >= pad
    requires iv.start + iv.frames + pad <= |s|
    requires head[..pad] == s[iv.start + iv.frames..iv.start + iv.frames + pad]
    ensures PendingOk(Closed(s, iv, w), w)
    ensures FinalWindow(Closed(s, iv, w), w, head[..pad]) == StreamWindow(s, iv, w, Ceil(iv.frames, w) - 1)
  {
    ClosedOk(s, iv, w);
    var total := Ceil(iv.frames, w);
    CeilBounds(iv.frames, w);
    var p := Closed(s, iv, w);
    assert (total - 1) * w == total * w - w;
    var from := (total - 1) * w;
    assert from + w == iv.frames + pad;
    hide Ceil, PendingOk;
    TailAndHead(s, p.pcm, iv.start, iv.frames, from, w, head[..pad]);
  }

  lemma TailAndHead(s: seq<Frame>, pcm: seq<Frame>, start: nat, frames: nat, from: nat, w: nat, head: seq<Frame>)
    requires from <= frames && from + w == frames + |head| && start + frames + |head| <= |s|
    requires pcm == s[start..start + frames] && head == s[start + frames..start + frames + |head|]
    ensures Fit(pcm[from..] + head, w) == s[start + from..start + from + w]
  {
    assert pcm[from..] == s[start + from..start + frames];
  }

  lemma ClosedOk(s: seq<Frame>, iv: Iv, w: nat)
    requires w > 0 && LongEnough(iv.frames, w) && iv.frames % w != 0 && iv.start + iv.frames <= |s|
    ensures PendingOk(Closed(s, iv, w), w)
  {
    CeilBounds(iv.frames, w);
    var total := Ceil(iv.frames, w);
    assert (total - 1) * w == total * w - w;
  }

  lemma CutStable(s: seq<Frame>, x: seq<Frame>, from: nat, n: nat)
    requires from + n <= |s|
    ensures Cut(s + x, from, n) == Cut(s, from, n)
  {
  }

  /** An overhanging final window has left exactly its predecessors out. */
  lemma HeldDue(len: nat, iv: Iv, w: nat)
    requires w > 0 && LongEnough(iv.frames, w) && iv.start + iv.frames <= len && Held(len, iv, w)
    ensures iv.frames % w != 0
    ensures Due(len, iv, w) == Ceil(iv.frames, w) - 1
  {
    CeilBounds(iv.frames, w);
    var total := Ceil(iv.frames, w);
    assert (total - 1) * w == total * w - w;
    DivUnique(len - iv.start, w, total - 1, len - iv.start - (total - 1) * w);
  }

  /** What laying x down adds to the windows of the last-but-one interval: its final window, once covered. */
  ghost function PrevGain(s: seq<Frame>, x: seq<Frame>, prev: Iv, w: nat): seq<Window>
    requires w > 0
  {
    if Held(|s|, prev, w) && !Held(|s + x|, prev, w)
    then [StreamWindow(s + x, prev, w, if Ceil(prev.frames, w) > 0 then Ceil(prev.frames, w) - 1 else 0)]
    else []
  }

  lemma PrevWindowsGrow(s: seq<Frame>, x: seq<Frame>, prev: Iv, w: nat)
    requires w > 0 && LongEnough(prev.frames, w) && prev.start + prev.frames <= |s|
    ensures IvWindows(s + x, prev, w, Due(|s + x|, prev, w))
         == IvWindows(s, prev, w, Due(|s|, prev, w)) + PrevGain(s, x, prev, w)
  {
    hide StreamWindow, Due, IvWindows, LongEnough, Ceil, PrevGain;
    if !Held(|s|, prev, w) {
      PrevWasOut(s, x, prev, w);
    } else if Held(|s + x|, prev, w) {
      PrevStaysHeld(s, x, prev, w);
    } else {
      PrevComesOut(s, x, prev, w);
    }
  }

  lemma PrevWasOut(s: seq<Frame>, x: seq<Frame>, prev: Iv, w: nat)
    requires w > 0 && LongEnough(prev.frames, w) && !Held(|s|, prev, w)
    ensures PrevGain(s, x, prev, w) == []
    ensures IvWindows(s + x, prev, w, Due(|s + x|, prev, w)) == IvWindows(s, prev, w, Due(|s|, prev, w)) + []
  {
    hide StreamWindow, Due, IvWindows, Ceil;
    DueBound(|s|, prev, w);
    DueBound(|s + x|, prev, w);
    StreamWindowStable(s, x, prev, w, Ceil(prev.frames, w));
  }

  lemma PrevStaysHeld(s: seq<Frame>, x: seq<Frame>, prev: Iv, w: nat)
    requires w > 0 && LongEnough(prev.frames, w) && prev.start + prev.frames <= |s|
    requires Held(|s|, prev, w) && Held(|s + x|, prev, w)
    ensures PrevGain(s, x, prev, w) == []
    ensures IvWindows(s + x, prev, w, Due(|s + x|, prev, w)) == IvWindows(s, prev, w, Due(|s|, prev, w)) + []
  {
    hide StreamWindow, Due, IvWindows;
    AllButLastFit(|s|, prev, w);
    HeldDue(|s|, prev, w);
    HeldDue(|s + x|, prev, w);
    StreamWindowStable(s, x, prev, w, Ceil(prev.frames, w) - 1);
  }

  lemma PrevComesOut(s: seq<Frame>, x: seq<Frame>, prev: Iv, w: nat)
    requires w > 0 && LongEnough(prev.frames, w) && prev.start + prev.frames <= |s|
    requires Held(|s|, prev, w) && !Held(|s + x|, prev, w)
    ensures IvWindows(s + x, prev, w, Due(|s + x|, prev, w))
         == IvWindows(s, prev, w, Due(|s|, prev, w)) + PrevGain(s, x, prev, w)
  {
    hide StreamWindow, Due;
    var total := Ceil(prev.frames, w);
    AllButLastFit(|s|, prev, w);
    HeldDue(|s|, prev, w);
    DueBound(|s + x|, prev, w);
    hide Ceil;
    StreamWindowStable(s, x, prev, w, total - 1);
    assert IvWindows(s + x, prev, w, total) == IvWindows(s + x, prev, w, total - 1) + PrevGain(s, x, prev, w);
  }

  /** Every window of an interval but its last ends inside it. */
  lemma AllButLastFit(len: nat, iv: Iv, w: nat)
    requires w > 0 && LongEnough(iv.frames, w) && iv.start + iv.frames <= len
    ensures Ceil(iv.frames, w) >= 1 && iv.start + (Ceil(iv.frames, w) - 1) * w <= len
  {
    CeilBounds(iv.frames, w);
    var total := Ceil(iv.frames, w);
    assert (total - 1) * w == total * w - w;
  }

  lemma OlderWindowsStay(s: seq<Frame>, x: seq<Frame>, ivs: seq<Iv>, w: nat)
    requires w > 0 && Chain(ivs, w) && |ivs| >= 2 && ivs[|ivs| - 1].start <= |s|
    ensures Out(s + x, ivs[..|ivs| - 2], w) == Out(s, ivs[..|ivs| - 2], w)
  {
    var older := ivs[..|ivs| - 2];
    forall j | 0 <= j < |older|
      ensures older[j].frames > 0 && !Held(|s|, older[j], w)
    {
      OldIntervalsAreOut(|s|, ivs, w, j);
    }
    OutStable(s, x, older, w);
  }

  /** Everything before the last interval gains exactly the released final window. */
  lemma EarlierWindowsGrow(s: seq<Frame>, x: seq<Frame>, ivs: seq<Iv>, w: nat)
    requires w > 0 && Chain(ivs, w) && ivs[|ivs| - 1].start <= |s|
    ensures Out(s + x, ivs[..|ivs| - 1], w) == Out(s, ivs[..|ivs| - 1], w)
              + if |ivs| >= 2 then PrevGain(s, x, ivs[|ivs| - 2], w) else []
  {
    var n := |ivs|;
    if n >= 2 {
      var before := ivs[..n - 1];
      assert before[..n - 2] == ivs[..n - 2];
      OlderWindowsStay(s, x, ivs, w);
      PrevWindowsGrow(s, x, ivs[n - 2], w);
    }
  }

  lemma ReleaseIsPrevGain(a: Asm, s: seq<Frame>, ivs: seq<Iv>, x: seq<Frame>)
    requires Written(a, s + x, ivs) && ivs[|ivs| - 1].start <= |s|
    requires PendingTracks(a, s, ivs)
    ensures ReleasePending(a).1 == if |ivs| >= 2 then PrevGain(s, x, ivs[|ivs| - 2], a.window) else []
    ensures ReleasePending(a).0 == a.(pending := ReleasePending(a).0.pending)
    ensures PendingTracks(ReleasePending(a).0, s + x, ivs)
  {
    var w, n := a.window, |ivs|;
    if n >= 2 && Held(|s|, ivs[n - 2], w) {
      hide OkMidCall, StreamWindow, Closed, HoldsTail;
      HeldReleases(a, s, x, ivs[n - 2], ivs[n - 1]);
    }
  }

  /** A held final window leaves exactly when the successor's frames reach the end of it. */
  lemma HeldReleases(a: Asm, s: seq<Frame>, x: seq<Frame>, prev: Iv, iv: Iv)
    requires a.window > 0 && OkMidCall(a) && LongEnough(prev.frames, a.window) && Held(|s|, prev, a.window)
    requires iv.start == prev.start + prev.frames <= |s| && iv.index == prev.index + 1
    requires a.cur.Some? && HoldsTail(a.cur.value, s + x, iv) && a.cur.value.written == |s + x| - iv.start
    requires a.pending == Some(Closed(s, prev, a.window))
    ensures Closed(s + x, prev, a.window) == Closed(s, prev, a.window)
    ensures ReleasePending(a)
         == if Held(|s + x|, prev, a.window) then (a, [])
            else (a.(pending := None), [StreamWindow(s + x, prev, a.window, Ceil(prev.frames, a.window) - 1)])
  {
    hide BufOk, StreamWindow;
    var w := a.window;
    HeldDue(|s|, prev, w);
    CutStable(s, x, prev.start, prev.frames);
    var pad := PadOf(a.pending.value, w);
    assert pad == Ceil(prev.frames, w) * w - prev.frames;
    if !Held(|s + x|, prev, w) {
      var head := a.cur.value.pcm;
      HeadReads(head, s + x, iv, pad);
      FinalWindowIsStream(s + x, prev, w, pad, head);
    }
  }

  lemma HeadReads(pcm: seq<Frame>, s: seq<Frame>, iv: Iv, n: nat)
    requires iv.start + n <= |s| && n <= |pcm| && pcm == Fit(s[iv.start..], |pcm|)
    ensures pcm[..n] == s[iv.start..iv.start + n]
  {
  }

  /** With frames [0, written) laid down, exactly written / w windows are ready. */
  lemma ReadyIsQuotient(b: Buf, w: nat)
    requires w > 0 && BufOk(b, w)
    ensures ReadyCount(b, w) == b.written / w
  {
    CeilBounds(|b.pcm|, w);
    DivMonotone(b.written, |b.pcm|, w);
  }

  lemma ReadyWindowIsStream(b: Buf, s: seq<Frame>, iv: Iv, w: nat, k: nat)
    requires w > 0 && b.index == iv.index && |b.pcm| == iv.frames && b.total == Ceil(iv.frames, w)
    requires iv.start <= |s| <= iv.start + iv.frames && b.pcm == Fit(s[iv.start..], iv.frames)
    requires (k + 1) * w <= |s| - iv.start
    ensures WindowOf(b, w, k) == StreamWindow(s, iv, w, k)
  {
    var from := k * w;
    assert (k + 1) * w == from + w;
    hide Ceil, Fit, Cut;
    FittedCut(b.pcm, s, iv.start, from, w);
  }

  lemma FittedCut(pcm: seq<Frame>, s: seq<Frame>, start: nat, from: nat, w: nat)
    requires start + from + w <= |s| && from + w <= |pcm| && pcm == Fit(s[start..], |pcm|)
    ensures Fit(pcm[from..], w) == Cut(s, start + from, w)
  {
  }

  lemma DueIsQuotient(len: nat, iv: Iv, w: nat)
    requires w > 0 && iv.start <= len <= iv.start + iv.frames
    ensures Due(len, iv, w) == (len - iv.start) / w
  {
    CeilBounds(iv.frames, w);
    DivMonotone(len - iv.start, iv.frames, w);
    if len == iv.start {
      DivUnique(0, w, 0, 0);
    }
  }

  lemma ReadyIsStream(b: Buf, s: seq<Frame>, iv: Iv, w: nat)
    requires w > 0 && BufOk(b, w) && HoldsTail(b, s, iv)
    requires b.written == |s| - iv.start && b.emitted <= b.written / w
    ensures IvWindows(s, iv, w, b.emitted) + Ready(b, w).1 == IvWindows(s, iv, w, Due(|s|, iv, w))
    ensures Ready(b, w).0 == b.(emitted := b.written / w)
  {
    hide StreamWindow, WindowOf, Due, Ceil, ReadyCount;
    ReadyIsQuotient(b, w);
    DueIsQuotient(|s|, iv, w);
    var q := b.written / w;
    forall k | 0 <= k < q
      ensures WindowOf(b, w, k) == StreamWindow(s, iv, w, k)
    {
      MulIncreasing(k + 1, q, w);
      ReadyWindowIsStream(b, s, iv, w, k);
    }
    assert IvWindows(s, iv, w, q) == IvWindows(s, iv, w, b.emitted) + WindowsOf(b, w, b.emitted, q);
  }

  lemma ReadyTracks(a: Asm, s: seq<Frame>, ivs: seq<Iv>)
    requires Written(a, s, ivs) && PendingTracks(a, s, ivs)
    requires a.cur.value.emitted <= a.nextOff / a.window
    ensures Tracks(a.(cur := Some(Ready(a.cur.value, a.window).0)), s, ivs)
  {
    ReadyIsStream(a.cur.value, s, ivs[|ivs| - 1], a.window);
  }

  /** A pending final window overhangs by less than a window, so nothing of its successor can be out yet. */
  lemma NothingOverflows(s: seq<Frame>, ivs: seq<Iv>, x: seq<Frame>, w: nat)
    requires w > 0 && Chain(ivs, w) && ivs[|ivs| - 1].start <= |s|
    requires |ivs| >= 2 && PrevGain(s, x, ivs[|ivs| - 2], w) != []
    ensures (|s| - ivs[|ivs| - 1].start) / w == 0
  {
    CeilBounds(ivs[|ivs| - 2].frames, w);
    DivUnique(|s| - ivs[|ivs| - 1].start, w, 0, |s| - ivs[|ivs| - 1].start);
  }

  /** What is out once x has been laid down, split at the windows the step itself emits. */
  lemma OutGrows(s: seq<Frame>, ivs: seq<Iv>, x: seq<Frame>, w: nat, e: nat, held: seq<Window>, ready: seq<Window>)
    requires w > 0 && Chain(ivs, w) && ivs[|ivs| - 1].start <= |s|
    requires e <= (|s| - ivs[|ivs| - 1].start) / w
    requires held == if |ivs| >= 2 then PrevGain(s, x, ivs[|ivs| - 2], w) else []
    requires var last := ivs[|ivs| - 1];
             IvWindows(s + x, last, w, e) + ready == IvWindows(s + x, last, w, Due(|s + x|, last, w))
    ensures Out(s, ivs[..|ivs| - 1], w) + IvWindows(s, ivs[|ivs| - 1], w, e) + (held + ready) == Out(s + x, ivs, w)
  {
    var last := ivs[|ivs| - 1];
    var before, out := Out(s, ivs[..|ivs| - 1], w), IvWindows(s, last, w, e);
    EarlierWindowsGrow(s, x, ivs, w);
    QuotientStable(s, x, last, w, e);
    if held != [] {
      NothingOverflows(s, ivs, x, w);
    }
    Regroup(before, out, held, ready);
  }

  lemma QuotientStable(s: seq<Frame>, x: seq<Frame>, iv: Iv, w: nat, e: nat)
    requires w > 0 && iv.start <= |s| && e <= (|s| - iv.start) / w
    ensures IvWindows(s + x, iv, w, e) == IvWindows(s, iv, w, e)
  {
    MulIncreasing(e, (|s| - iv.start) / w, w);
    StreamWindowStable(s, x, iv, w, e);
  }

  lemma Regroup<T>(before: seq<T>, out: seq<T>, held: seq<T>, ready: seq<T>)
    requires held == [] || out == []
    ensures before + out + (held + ready) == before + held + (out + ready)
  {
  }

  /** One pass through the write-and-release half of the loop. */
  lemma LayTracks(a: Asm, s: seq<Frame>, ivs: seq<Iv>, x: seq<Frame>)
    requires Holds(a, s, ivs) && PendingTracks(a, s, ivs) && a.cur.value.written <= a.nextOff
    requires a.cur.value.emitted <= a.nextOff / a.window
    requires |x| > 0 && a.nextOff + |x| <= ivs[|ivs| - 1].frames
    ensures Tracks(Lay(a, x).0, s + x, ivs)
    ensures Out(s, ivs[..|ivs| - 1], a.window) + IvWindows(s, ivs[|ivs| - 1], a.window, a.cur.value.emitted) + Lay(a, x).1
         == Out(s + x, ivs, a.window)
  {
    var a1 := Write(a, x);
    WriteTracks(a, s, ivs, x);
    ReleaseIsPrevGain(a1, s, ivs, x);
    var (a2, held) := ReleasePending(a1);
    DivMonotone(a.nextOff, a1.nextOff, a.window);
    ReadyTracks(a2, s + x, ivs);
    ReadyIsStream(a2.cur.value, s + x, ivs[|ivs| - 1], a.window);
    OutGrows(s, ivs, x, a.window, a.cur.value.emitted, held, Ready(a2.cur.value, a.window).1);
  }

  // ---------------------------------------------------------------- crossing into the next interval

  function NextIv(ivs: seq<Iv>, frames: nat): Iv
    requires |ivs| > 0
  {
    var last := ivs[|ivs| - 1];
    Iv(last.index + 1, last.start + last.frames, frames)
  }

  /** ivs, continued with intervals of the given length until a stream of `len` frames fits. */
  function Opened(ivs: seq<Iv>, len: nat, frames: nat): (r: seq<Iv>)
    requires |ivs| > 0 && frames > 0
    ensures |r| >= |ivs| && r[..|ivs|] == ivs
    decreases len - (ivs[|ivs| - 1].start + ivs[|ivs| - 1].frames)
  {
    if len <= ivs[|ivs| - 1].start + ivs[|ivs| - 1].frames then ivs else Opened(ivs + [NextIv(ivs, frames)], len, frames)
  }

  /** The windows of s that a has emitted: everything due but for an anchor's still unemitted lead-in. */
  ghost function Emitted(a: Asm, s: seq<Frame>, ivs: seq<Iv>): seq<Window>
    requires a.window > 0 && a.cur.Some? && |ivs| > 0
  {
    Out(s, ivs[..|ivs| - 1], a.window) + IvWindows(s, ivs[|ivs| - 1], a.window, a.cur.value.emitted)
  }

  lemma TracksEmitted(a: Asm, s: seq<Frame>, ivs: seq<Iv>)
    requires Tracks(a, s, ivs)
    ensures Emitted(a, s, ivs) == Out(s, ivs, a.window)
  {
    hide OkMidCall, IvWindows, PendingTracks, Due, LongEnough, Tracks, Holds, Chain, Out;
    TracksLast(a, s, ivs);
    DueIsQuotient(|s|, ivs[|ivs| - 1], a.window);
    OutLast(s, ivs, a.window);
  }

  lemma TracksLast(a: Asm, s: seq<Frame>, ivs: seq<Iv>)
    requires Tracks(a, s, ivs)
    ensures a.window > 0 && a.cur.Some? && |ivs| > 0
    ensures var last := ivs[|ivs| - 1];
            last.start <= |s| <= last.start + last.frames && a.cur.value.emitted == (|s| - last.start) / a.window
  {
    hide OkMidCall, PendingTracks, LongEnough;
  }

  lemma ChainGrows(ivs: seq<Iv>, w: nat, frames: nat)
    requires Chain(ivs, w) && LongEnough(frames, w)
    ensures Chain(ivs + [NextIv(ivs, frames)], w)
  {
  }

  /** At the end of an interval, the last-but-one interval has long been completed. */
  lemma PreviousIsOut(len: nat, ivs: seq<Iv>, w: nat)
    requires w > 0 && Chain(ivs, w) && |ivs| >= 2 && len == ivs[|ivs| - 1].start + ivs[|ivs| - 1].frames
    ensures !Held(len, ivs[|ivs| - 2], w)
  {
    CeilBounds(ivs[|ivs| - 2].frames, w);
  }

  lemma TurnHolds(a: Asm, s: seq<Frame>, ivs: seq<Iv>, frames: nat)
    requires Holds(a, s, ivs) && PendingTracks(a, s, ivs) && LongEnough(frames, a.window)
    requires a.nextOff == |a.cur.value.pcm|
    requires a.cur.value.written == a.nextOff || |a.cur.value.pcm| % a.window == 0
    requires a.cur.value.emitted == a.nextOff / a.window || |a.cur.value.pcm| % a.window == 0
    ensures Tracks(Turn(a, frames).0, s, ivs + [NextIv(ivs, frames)])
  {
    var w, b, last := a.window, a.cur.value, ivs[|ivs| - 1];
    var ivs' := ivs + [NextIv(ivs, frames)];
    ChainGrows(ivs, w, frames);
    CeilBounds(last.frames, w);
    assert ivs'[|ivs'| - 2] == last;
    DivUnique(0, w, 0, 0);
    if |ivs| >= 2 {
      PreviousIsOut(|s|, ivs, w);
    }
    assert b.pcm == Cut(s, last.start, last.frames);
    var a' := Turn(a, frames).0;
    assert HoldsTail(a'.cur.value, s, NextIv(ivs, frames));
  }

  lemma TurnEmits(a: Asm, s: seq<Frame>, ivs: seq<Iv>, frames: nat)
    requires Holds(a, s, ivs) && PendingTracks(a, s, ivs) && LongEnough(frames, a.window)
    requires a.nextOff == |a.cur.value.pcm|
    requires a.cur.value.emitted <= a.nextOff / a.window
    requires a.cur.value.emitted == a.nextOff / a.window || |a.cur.value.pcm| % a.window == 0
    ensures Emitted(a, s, ivs) + Turn(a, frames).1 == Out(s, ivs, a.window)
    ensures Out(s, ivs + [NextIv(ivs, frames)], a.window) == Out(s, ivs, a.window)
  {
    hide Out, IvWindows, Turn, StreamWindow, Due;
    var w, b, last := a.window, a.cur.value, ivs[|ivs| - 1];
    OutLast(s, ivs, w);
    NothingOfNext(s, ivs, frames, w);
    LastWindows(a, s, ivs, frames);
    assert Emitted(a, s, ivs) + Turn(a, frames).1
        == Out(s, ivs[..|ivs| - 1], w) + (IvWindows(s, last, w, b.emitted) + Turn(a, frames).1);
  }

  lemma OutLast(s: seq<Frame>, ivs: seq<Iv>, w: nat)
    requires w > 0 && |ivs| > 0
    ensures var last := ivs[|ivs| - 1]; Out(s, ivs, w) == Out(s, ivs[..|ivs| - 1], w) + IvWindows(s, last, w, Due(|s|, last, w))
  {
  }

  /** An interval that starts where the stream ends has no windows yet. */
  lemma NothingOfNext(s: seq<Frame>, ivs: seq<Iv>, frames: nat, w: nat)
    requires w > 0 && |ivs| > 0 && |s| == ivs[|ivs| - 1].start + ivs[|ivs| - 1].frames
    ensures Out(s, ivs + [NextIv(ivs, frames)], w) == Out(s, ivs, w)
  {
    hide Out;
    var ivs' := ivs + [NextIv(ivs, frames)];
    assert ivs'[..|ivs|] == ivs;
    OutLast(s, ivs', w);
    assert IvWindows(s, NextIv(ivs, frames), w, 0) == [];
  }

  /** Crossing an interval's end completes its windows. */
  lemma LastWindows(a: Asm, s: seq<Frame>, ivs: seq<Iv>, frames: nat)
    requires Holds(a, s, ivs) && LongEnough(frames, a.window)
    requires a.nextOff == |a.cur.value.pcm|
    requires a.cur.value.emitted <= a.nextOff / a.window
    requires a.cur.value.emitted == a.nextOff / a.window || |a.cur.value.pcm| % a.window == 0
    ensures var last := ivs[|ivs| - 1];
            IvWindows(s, last, a.window, a.cur.value.emitted) + Turn(a, frames).1
            == IvWindows(s, last, a.window, Due(|s|, last, a.window))
  {
    var w, b, last := a.window, a.cur.value, ivs[|ivs| - 1];
    CeilBounds(last.frames, w);
    DueIsQuotient(|s|, last, w);
    var total := Ceil(last.frames, w);
    hide StreamWindow, Due, WindowOf, Ceil;
    if b.emitted == a.nextOff / w {
      assert Turn(a, frames).1 == [];
    } else {
      forall k | 0 <= k < total
        ensures WindowOf(b, w, k) == StreamWindow(s, last, w, k)
      {
        MulIncreasing(k + 1, total, w);
        ReadyWindowIsStream(b, s, last, w, k);
      }
      assert IvWindows(s, last, w, total) == IvWindows(s, last, w, b.emitted) + Remaining(b, w);
    }
  }

  /** Ready to take frames: mid-stream, or anchored anywhere but at the very end of an interval whose
      final window is short. */
  ghost predicate Running(a: Asm, s: seq<Frame>, ivs: seq<Iv>) {
    || Tracks(a, s, ivs)
    || (Anchored(a, s, ivs) && (a.nextOff < |a.cur.value.pcm| || !ShortFinal(a.cur.value, a.window)))
  }

  lemma RunningTurn(a: Asm, s: seq<Frame>, ivs: seq<Iv>, frames: nat)
    requires Running(a, s, ivs) && LongEnough(frames, a.window) && a.nextOff >= |a.cur.value.pcm|
    ensures var ivs' := ivs + [NextIv(ivs, frames)];
            && Tracks(Turn(a, frames).0, s, ivs')
            && Emitted(a, s, ivs) + Turn(a, frames).1 == Out(s, ivs', a.window)
  {
    TurnHolds(a, s, ivs, frames);
    TurnEmits(a, s, ivs, frames);
  }

  lemma NothingBehind(a: Asm, s: seq<Frame>, ivs: seq<Iv>)
    requires Running(a, s, ivs)
    ensures Behind(a) == 0 && a.cur.value.emitted <= a.nextOff / a.window
  {
    hide OkMidCall, PendingTracks, Chain, HoldsTail, ShortFinal;
    QuotientFits(a.nextOff, a.window, a.cur.value.emitted);
  }

  lemma QuotientFits(n: nat, w: nat, e: nat)
    requires w > 0 && (e == n / w || e == 0)
    ensures e * w <= n && e <= n / w
  {
    if e == n / w {
      assert e * w == n - n % w;
    }
  }

  /** The intervals open once the cursor has crossed an end it stands at. */
  function Crossed(a: Asm, ivs: seq<Iv>, frames: nat): seq<Iv>
    requires a.cur.Some? && |ivs| > 0
  {
    if a.nextOff >= |a.cur.value.pcm| then ivs + [NextIv(ivs, frames)] else ivs
  }

  lemma TurnKeepsRunning(a: Asm, s: seq<Frame>, ivs: seq<Iv>, frames: nat)
    requires Running(a, s, ivs) && LongEnough(frames, a.window)
    ensures var ivs1 := Crossed(a, ivs, frames); var a1 := Turn(a, frames).0;
            && Running(a1, s, ivs1)
            && a1.nextOff < |a1.cur.value.pcm|
            && Emitted(a, s, ivs) + Turn(a, frames).1 == Emitted(a1, s, ivs1)
            && (forall len :: len > |s| ==> Opened(ivs, len, frames) == Opened(ivs1, len, frames))
  {
    if a.nextOff >= |a.cur.value.pcm| {
      RunningTurn(a, s, ivs, frames);
      TracksEmitted(Turn(a, frames).0, s, Crossed(a, ivs, frames));
    }
  }

  lemma RunningLay(a: Asm, s: seq<Frame>, ivs: seq<Iv>, x: seq<Frame>)
    requires Running(a, s, ivs)
    requires |x| > 0 && a.nextOff + |x| <= |a.cur.value.pcm|
    ensures Tracks(Lay(a, x).0, s + x, ivs)
    ensures Emitted(a, s, ivs) + Lay(a, x).1 == Out(s + x, ivs, a.window)
  {
    NothingBehind(a, s, ivs);
    LayTracks(a, s, ivs, x);
  }

  lemma RunningOk(a: Asm, s: seq<Frame>, ivs: seq<Iv>)
    requires Running(a, s, ivs)
    ensures a.window > 0 && a.cur.Some? && OkMidCall(a) && Chain(ivs, a.window)
    ensures |s| <= ivs[|ivs| - 1].start + ivs[|ivs| - 1].frames
    ensures a.nextOff <= |a.cur.value.pcm|
  {
  }

  /** One pass takes a nonempty head of the buffer into the stream. */
  lemma PassTracks(a: Asm, s: seq<Frame>, ivs: seq<Iv>, x: seq<Frame>, frames: nat)
    requires Running(a, s, ivs) && LongEnough(frames, a.window) && |x| > 0
    ensures var ivs1 := Crossed(a, ivs, frames); var (a1, rest, ws) := Pass(a, x, frames);
            && |rest| < |x| && rest == x[|x| - |rest|..]
            && var s1 := s + x[..|x| - |rest|];
            && Tracks(a1, s1, ivs1)
            && Emitted(a, s, ivs) + ws == Out(s1, ivs1, a.window)
            && (forall len :: len > |s| ==> Opened(ivs, len, frames) == Opened(ivs1, len, frames))
  {
    hide Running, Tracks, OkMidCall, Emitted, Turn, Lay, Out, Opened;
    RunningOk(a, s, ivs);
    var (a1, w1) := Turn(a, frames);
    var ivs1 := Crossed(a, ivs, frames);
    TurnKeepsRunning(a, s, ivs, frames);
    RunningOk(a1, s, ivs1);
    NothingBehind(a1, s, ivs1);
    assert TrimBehind(a1, x) == (a1, x);
    var n := Chunk(a1, |x|);
    RunningLay(a1, s, ivs1, x[..n]);
    var w2 := Lay(a1, x[..n]).1;
    assert Emitted(a, s, ivs) + (w1 + w2) == Emitted(a, s, ivs) + w1 + w2;
  }

  /** The whole loop: a buffer's frames extend the stream, and exactly the newly covered windows come out. */
  lemma {:induction false} FillTracks(a: Asm, s: seq<Frame>, ivs: seq<Iv>, x: seq<Frame>, frames: nat)
    requires Running(a, s, ivs) && LongEnough(frames, a.window)
    ensures var ivs' := Opened(ivs, |s| + |x|, frames); var r := FillWindows(a, x, frames);
            && (|x| > 0 ==> Tracks(r.0, s + x, ivs') && Emitted(a, s, ivs) + r.1 == Out(s + x, ivs', a.window))
            && (x == [] ==> r == (a, []) && ivs' == ivs)
    decreases |x|
  {
    hide Running, Tracks, OkMidCall, Emitted, Out, Pass;
    RunningOk(a, s, ivs);
    if |x| > 0 {
      var (a1, rest, w1) := Pass(a, x, frames);
      var ivs1 := Crossed(a, ivs, frames);
      PassTracks(a, s, ivs, x, frames);
      var s1 := s + x[..|x| - |rest|];
      assert s1 + rest == s + x;
      TracksRunning(a1, s1, ivs1);
      TracksEmitted(a1, s1, ivs1);
      FillTracks(a1, s1, ivs1, rest, frames);
      assert Opened(ivs, |s| + |x|, frames) == Opened(ivs1, |s1| + |rest|, frames);
      if rest == [] {
        assert s1 == s + x;
      }
      var w2 := FillWindows(a1, rest, frames).1;
      assert Emitted(a, s, ivs) + (w1 + w2) == Emitted(a, s, ivs) + w1 + w2;
    }
  }

  lemma TracksRunning(a: Asm, s: seq<Frame>, ivs: seq<Iv>)
    requires Tracks(a, s, ivs)
    ensures Running(a, s, ivs)
    ensures a.window > 0 && a.cur.Some? && OkMidCall(a) && Chain(ivs, a.window)
    ensures |s| <= ivs[|ivs| - 1].start + ivs[|ivs| - 1].frames
  {
  }
}
