/** What the stream theorem means for the sequence of windows: order, uniqueness, independence of buffering,
    and the one anchor position at which a final window's padding is not the next interval's head. */
module AssemblerOrder {
  import opened Common
  import opened Audio
  import opened Interval
  import opened AssemblerModel
  import opened AssemblerStream
  import opened AssemblerRuns

  // ---------------------------------------------------------------- in order, each exactly once

  /** q is the window that comes right after p: the next number, or window 0 of the next interval. */
  predicate Follows(p: Window, q: Window) {
    if p.number + 1 < p.total
    then q.interval == p.interval && q.number == p.number + 1 && q.total == p.total
    else q.interval == p.interval + 1 && q.number == 0
  }

  predicate InOrder(ws: seq<Window>) {
    && (forall m :: 0 <= m < |ws| ==> ws[m].number < ws[m].total && (ws[m].isFinal <==> ws[m].number == ws[m].total - 1))
    && (forall m :: 1 <= m < |ws| ==> FollowsAt(ws, m))
  }

  predicate FollowsAt(ws: seq<Window>, m: nat)
    requires 1 <= m < |ws|
  {
    Follows(ws[m - 1], ws[m])
  }

  lemma InOrderJoin(u: seq<Window>, v: seq<Window>)
    requires InOrder(u) && InOrder(v)
    requires u != [] && v != [] ==> Follows(u[|u| - 1], v[0])
    ensures InOrder(u + v)
  {
    var ws := u + v;
    forall m | 1 <= m < |ws|
      ensures FollowsAt(ws, m)
    {
      if m > |u| {
        assert FollowsAt(v, m - |u|);
      } else if m < |u| {
        assert FollowsAt(u, m);
      }
    }
  }

  lemma IvWindowsInOrder(s: seq<Frame>, iv: Iv, w: nat, n: nat)
    requires w > 0 && n <= Ceil(iv.frames, w)
    ensures InOrder(IvWindows(s, iv, w, n))
  {
    var ws := IvWindows(s, iv, w, n);
    forall m | 1 <= m < |ws|
      ensures FollowsAt(ws, m)
    {
    }
  }

  lemma ChainPrefix(ivs: seq<Iv>, w: nat, n: nat)
    requires Chain(ivs, w) && 1 <= n <= |ivs|
    ensures Chain(ivs[..n], w)
  {
    var r := ivs[..n];
    assert forall j :: 0 <= j < n ==> r[j] == ivs[j];
  }

  /** If `done`, ws ends with the final window of the given interval. */
  predicate EndsWith(ws: seq<Window>, done: bool, index: int) {
    done ==> ws != [] && var q := ws[|ws| - 1]; q.interval == index && q.number + 1 == q.total
  }

  /** The windows run 0..Total-1 through every interval, interval after interval. */
  lemma {:induction false} OutInOrder(s: seq<Frame>, ivs: seq<Iv>, w: nat)
    requires w > 0 && Chain(ivs, w) && ivs[|ivs| - 1].start <= |s|
    ensures InOrder(Out(s, ivs, w))
    ensures Out(s, ivs, w) != [] ==> Out(s, ivs, w)[0].interval == ivs[0].index && Out(s, ivs, w)[0].number == 0
    ensures EndsWith(Out(s, ivs, w), !Held(|s|, ivs[|ivs| - 1], w), ivs[|ivs| - 1].index)
    decreases |ivs|
  {
    hide InOrder, Out, IvWindows, StreamWindow, Due, Held;
    var n := |ivs|;
    var last := ivs[n - 1];
    var due := Due(|s|, last, w);
    var own := IvWindows(s, last, w, due);
    LastWindowNumber(|s|, ivs, w);
    IvWindowsInOrder(s, last, w, due);
    IvWindowsEnds(s, last, w, due);
    OutSplits(s, ivs, w);
    if n > 1 {
      ChainPrefix(ivs, w, n - 1);
      var before := ivs[..n - 1];
      assert before[n - 2] == ivs[n - 2] && before[0] == ivs[0];
      StartsIncrease(ivs, w, n - 2, n - 1);
      OutInOrder(s, before, w);
      if due > 0 {
        DueMeansPreviousDone(|s|, ivs, w);
      }
      InOrderJoin(Out(s, before, w), own);
    } else {
      assert [] + own == own;
    }
  }

  lemma OutSplits(s: seq<Frame>, ivs: seq<Iv>, w: nat)
    requires w > 0 && |ivs| > 0
    ensures var last := ivs[|ivs| - 1];
            Out(s, ivs, w) == Out(s, ivs[..|ivs| - 1], w) + IvWindows(s, last, w, Due(|s|, last, w))
    ensures |ivs| == 1 ==> Out(s, ivs[..|ivs| - 1], w) == []
  {
  }

  lemma IvWindowsEnds(s: seq<Frame>, iv: Iv, w: nat, n: nat)
    requires w > 0
    ensures var o := IvWindows(s, iv, w, n);
            |o| == n && (n > 0 ==>
              && o[0].interval == o[n - 1].interval == iv.index && o[0].number == 0
              && o[n - 1].total == Ceil(iv.frames, w) && o[n - 1].number == n - 1
              && (n == Ceil(iv.frames, w) ==> o[n - 1].isFinal))
  {
  }

  lemma LastWindowNumber(len: nat, ivs: seq<Iv>, w: nat)
    requires w > 0 && Chain(ivs, w)
    ensures var last := ivs[|ivs| - 1];
            !Held(len, last, w) ==> Due(len, last, w) == Ceil(last.frames, w) >= 1
    ensures Due(len, ivs[|ivs| - 1], w) <= Ceil(ivs[|ivs| - 1].frames, w)
    ensures |ivs| >= 2 ==> ivs[|ivs| - 1].index == ivs[|ivs| - 2].index + 1
  {
    DueBound(len, ivs[|ivs| - 1], w);
    CeilBounds(ivs[|ivs| - 1].frames, w);
  }

  /** A window of an interval can be due only once its predecessor's final window is. */
  lemma DueMeansPreviousDone(len: nat, ivs: seq<Iv>, w: nat)
    requires w > 0 && Chain(ivs, w) && |ivs| >= 2
    requires Due(len, ivs[|ivs| - 1], w) > 0
    ensures !Held(len, ivs[|ivs| - 2], w)
  {
    var last := ivs[|ivs| - 1];
    CeilBounds(ivs[|ivs| - 2].frames, w);
    if len - last.start < w {
      DivUnique(len - last.start, w, 0, len - last.start);
    }
  }

  /** Strictly later in (interval, number) order. */
  predicate Later(p: Window, q: Window) {
    p.interval < q.interval || (p.interval == q.interval && p.number < q.number)
  }

  lemma {:induction false} InOrderIsStrict(ws: seq<Window>, i: nat, j: nat)
    requires InOrder(ws) && i < j < |ws|
    ensures Later(ws[i], ws[j])
    decreases j
  {
    assert FollowsAt(ws, j);
    if i < j - 1 {
      InOrderIsStrict(ws, i, j - 1);
    }
  }

  /** The flushed interval's windows are all of it, in order. */
  lemma LeadInOrder(a: Asm, first: In)
    requires a.window > 0 && TempoOk(a, first)
    ensures var ws := Lead(a, first); var iv := FirstIv(a, first);
            && InOrder(ws) && EndsWith(ws, ws != [], iv.index)
            && (ws == [] <==> AnchorsInside(a, first))
            && (ws != [] ==> ws[0].interval == iv.index && ws[0].number == 0)
  {
    hide Config.IntervalSamples, AnchorOffset, WindowOf;
    var ws := Lead(a, first);
    CeilBounds(FramesAt(a, first.tempo), a.window);
    if ws != [] {
      var b := NewBuf(a.window, FirstIv(a, first).index, FramesAt(a, first.tempo));
      forall k | 0 <= k < |ws|
        ensures ws[k].interval == b.index && ws[k].number == k && ws[k].total == |ws|
        ensures ws[k].isFinal <==> k == |ws| - 1
      {
        WindowHeader(b, a.window, k);
      }
    }
  }

  lemma WindowHeader(b: Buf, w: nat, k: nat)
    ensures var x := WindowOf(b, w, k);
            x.interval == b.index && x.number == k && x.total == b.total && (x.isFinal <==> k == b.total - 1)
  {
  }

  /** In any run without a re-anchor the windows come out in order from window 0 of the anchor's interval,
      so no (interval, number) pair is ever emitted twice. */
  lemma RunIsInOrder(a: Asm, first: In, rest: seq<In>)
    requires Cold(a) && TempoOk(a, first) && |first.samples| > 0
    requires TemposOk(Step(a, first).0, rest) && NoReanchor(Step(a, first).0, rest)
    ensures var ws := Step(a, first).1 + RunWindows(Step(a, first).0, rest).1;
            && InOrder(ws)
            && (ws != [] ==> ws[0].interval == a.cfg.IndexAtBeat(first.beat) && ws[0].number == 0)
            && (forall i, j :: 0 <= i < j < |ws| ==> Later(ws[i], ws[j]))
  {
    hide Out, Chain, Tracks, Step, RunWindows, NoReanchor, TemposOk, AnchorsInside, StreamOf, FramesAt, InOrder, Lead;
    WindowsAreTheStream(a, first, rest);
    var s, ivs := StreamOf(a, first, rest), IntervalsOf(a, first, rest);
    assert |ivs| > 0;
    OutInOrder(s, ivs, a.window);
    LeadInOrder(a, first);
    var lead, out := Lead(a, first), Out(s, ivs, a.window);
    InOrderJoin(lead, out);
    var ws := lead + out;
    forall i, j | 0 <= i < j < |ws|
      ensures Later(ws[i], ws[j])
    {
      InOrderIsStrict(ws, i, j);
    }
  }

  // ---------------------------------------------------------------- membership

  /** Exactly the due windows are out. */
  lemma {:induction false} OutContains(s: seq<Frame>, ivs: seq<Iv>, w: nat, j: nat, k: nat)
    requires w > 0 && j < |ivs| && k < Due(|s|, ivs[j], w)
    ensures StreamWindow(s, ivs[j], w, k) in Out(s, ivs, w)
    decreases |ivs|
  {
    var n := |ivs|;
    var last := ivs[n - 1];
    if j == n - 1 {
      assert IvWindows(s, last, w, Due(|s|, last, w))[k] == StreamWindow(s, last, w, k);
    } else {
      assert ivs[..n - 1][j] == ivs[j];
      OutContains(s, ivs[..n - 1], w, j, k);
    }
  }

  lemma {:induction false} OutContainsOnly(s: seq<Frame>, ivs: seq<Iv>, w: nat, m: nat) returns (j: nat, k: nat)
    requires w > 0 && m < |Out(s, ivs, w)|
    ensures j < |ivs| && k < Due(|s|, ivs[j], w) && Out(s, ivs, w)[m] == StreamWindow(s, ivs[j], w, k)
    decreases |ivs|
  {
    var n := |ivs|;
    var before := Out(s, ivs[..n - 1], w);
    if m < |before| {
      j, k := OutContainsOnly(s, ivs[..n - 1], w, m);
    } else {
      j, k := n - 1, m - |before|;
    }
  }

  // ---------------------------------------------------------------- independence of buffering

  predicate ConstantTempo(ins: seq<In>, tempo: real) {
    forall i :: 0 <= i < |ins| ==> ins[i].tempo == tempo
  }

  lemma {:induction false} OpenedTwice(ivs: seq<Iv>, len: nat, len': nat, frames: nat)
    requires |ivs| > 0 && frames > 0 && len <= len'
    ensures Opened(Opened(ivs, len, frames), len', frames) == Opened(ivs, len', frames)
    decreases len - (ivs[|ivs| - 1].start + ivs[|ivs| - 1].frames)
  {
    if len > ivs[|ivs| - 1].start + ivs[|ivs| - 1].frames {
      OpenedTwice(ivs + [NextIv(ivs, frames)], len, len', frames);
    }
  }

  /** At a constant tempo the opened intervals depend only on how long the stream is. */
  lemma {:induction false} OpenedByLength(a: Asm, ivs: seq<Iv>, len: nat, ins: seq<In>, tempo: real)
    requires Ok(a) && a.window > 0 && TemposOk(a, ins) && NoReanchor(a, ins) && |ivs| > 0
    requires ConstantTempo(ins, tempo) && FramesAt(a, tempo) > 0
    requires len <= ivs[|ivs| - 1].start + ivs[|ivs| - 1].frames
    ensures OpenedBy(a, ivs, len, ins) == Opened(ivs, len + |Laid(a, ins)|, FramesAt(a, tempo))
    decreases |ins|
  {
    hide Step, OkMidCall, StaysContiguous, LaidBy, TemposOk, Config.IntervalSamples;
    if ins != [] {
      SameTempos(a, a, ins);
      var a1 := Step(a, ins[0]).0;
      SameTempos(a, a1, ins);
      assert FramesAt(a1, tempo) == FramesAt(a, tempo);
      var len' := len + |LaidBy(a, ins[0])|;
      var ivs' := Opened(ivs, len', FramesAt(a, tempo));
      OpenedReaches(ivs, len', FramesAt(a, tempo));
      OpenedByLength(a1, ivs', len', ins[1..], tempo);
      OpenedTwice(ivs, len', len + |Laid(a, ins)|, FramesAt(a, tempo));
    }
  }

  lemma {:induction false} OpenedReaches(ivs: seq<Iv>, len: nat, frames: nat)
    requires |ivs| > 0 && frames > 0
    ensures var r := Opened(ivs, len, frames); len <= r[|r| - 1].start + r[|r| - 1].frames
    decreases len - (ivs[|ivs| - 1].start + ivs[|ivs| - 1].frames)
  {
    if len > ivs[|ivs| - 1].start + ivs[|ivs| - 1].frames {
      OpenedReaches(ivs + [NextIv(ivs, frames)], len, frames);
    }
  }

  /** The intervals a constant-tempo run opens, as a function of its anchor and the length of its stream. */
  lemma ConstantGrid(a: Asm, first: In, rest: seq<In>)
    requires Cold(a) && TempoOk(a, first)
    requires TemposOk(Step(a, first).0, rest) && NoReanchor(Step(a, first).0, rest)
    requires ConstantTempo(rest, first.tempo)
    ensures IntervalsOf(a, first, rest)
         == Opened([OriginIv(a, first)], |StreamOf(a, first, rest)|, FramesAt(a, first.tempo))
  {
    hide Step, AnchorsInside, NoReanchor, Laid, OpenedBy, TemposOk, Config.IntervalSamples, Config.FrameOffset,
      Config.IndexAtBeat, StaysContiguous;
    var len := AnchorOffset(a, first) + |first.samples|;
    var frames := FramesAt(a, first.tempo);
    var ivs := Opened([OriginIv(a, first)], len, frames);
    var a1 := Step(a, first).0;
    assert FramesAt(a1, first.tempo) == frames;
    OpenedReaches([OriginIv(a, first)], len, frames);
    OpenedByLength(a1, ivs, len, rest, first.tempo);
    OpenedTwice([OriginIv(a, first)], len, |StreamOf(a, first, rest)|, frames);
  }

  function Source(ins: seq<In>): seq<Frame>
    decreases |ins|
  {
    if ins == [] then [] else ins[0].samples + Source(ins[1..])
  }

  /** No buffer of the run is dropped, and every stamp stays within the deadband of the cursor. */
  predicate InDeadband(a: Asm, ins: seq<In>)
    requires Ok(a) && a.window > 0 && TemposOk(a, ins) && NoReanchor(a, ins)
    decreases |ins|
  {
    if ins == [] then
      true
    else
      SameTempos(a, a, ins);
      var a1 := Step(a, ins[0]).0;
      SameTempos(a, a1, ins);
      && Stays(a, ins[0]) && -SlewDeadband(a) <= Divergence(a, ins[0].beat, ins[0].tempo) <= SlewDeadband(a)
      && InDeadband(a1, ins[1..])
  }

  lemma {:induction false} DeadbandLaysSource(a: Asm, ins: seq<In>)
    requires Ok(a) && a.window > 0 && TemposOk(a, ins) && NoReanchor(a, ins) && InDeadband(a, ins)
    ensures Laid(a, ins) == Source(ins)
    decreases |ins|
  {
    hide Step, StaysContiguous, Divergence, OkMidCall;
    if ins != [] {
      SameTempos(a, a, ins);
      var a1 := Step(a, ins[0]).0;
      SameTempos(a, a1, ins);
      DeadbandLaysSource(a1, ins[1..]);
    }
  }

  /** Two constant-tempo runs anchored alike whose stamps stay in the deadband emit the same windows whenever
      their buffers carry the same frames, however those frames were cut into buffers. */
  lemma WindowsDependOnlyOnTheStream(a: Asm, b: Asm, p: In, ps: seq<In>, q: In, qs: seq<In>)
    requires Cold(a) && TempoOk(a, p) && |p.samples| > 0
    requires TemposOk(Step(a, p).0, ps) && NoReanchor(Step(a, p).0, ps) && InDeadband(Step(a, p).0, ps)
    requires Cold(b) && TempoOk(b, q) && |q.samples| > 0
    requires TemposOk(Step(b, q).0, qs) && NoReanchor(Step(b, q).0, qs) && InDeadband(Step(b, q).0, qs)
    requires SameSetup(a, b) && p.beat == q.beat && p.tempo == q.tempo
    requires ConstantTempo(ps, p.tempo) && ConstantTempo(qs, p.tempo)
    requires Source([p] + ps) == Source([q] + qs)
    ensures Step(a, p).1 + RunWindows(Step(a, p).0, ps).1 == Step(b, q).1 + RunWindows(Step(b, q).0, qs).1
  {
    hide Step, NoReanchor, Laid, OpenedBy, TemposOk, Config.IntervalSamples, Config.FrameOffset, Config.IndexAtBeat,
      StaysContiguous, Out, Tracks, RunWindows, InDeadband, OkMidCall, Chain, Lead, OriginIv;
    WindowsAreTheStream(a, p, ps);
    WindowsAreTheStream(b, q, qs);
    ConstantGrid(a, p, ps);
    ConstantGrid(b, q, qs);
    DeadbandLaysSource(Step(a, p).0, ps);
    DeadbandLaysSource(Step(b, q).0, qs);
    assert ([p] + ps)[1..] == ps && ([q] + qs)[1..] == qs;
    assert Silence(AnchorOffset(a, p)) + p.samples + Source(ps) == Silence(AnchorOffset(a, p)) + Source([p] + ps);
    assert Silence(AnchorOffset(b, q)) + q.samples + Source(qs) == Silence(AnchorOffset(b, q)) + Source([q] + qs);
    assert StreamOf(a, p, ps) == StreamOf(b, q, qs);
    SameAnchor(a, p, b, q);
  }

  lemma SameAnchor(a: Asm, p: In, b: Asm, q: In)
    requires a.window > 0 && TempoOk(a, p) && SameSetup(a, b) && p.beat == q.beat && p.tempo == q.tempo
    ensures TempoOk(b, q) && OriginIv(a, p) == OriginIv(b, q) && Lead(a, p) == Lead(b, q)
  {
    hide Config.FrameOffset, Config.IntervalSamples, Config.IndexAtBeat, WindowsOf;
  }

  // ---------------------------------------------------------------- the anchor position that breaks the padding

  /** Every interval of a run, the one an anchor at its end flushed included. */
  function WithAnchors(a: Asm, first: In, ivs: seq<Iv>): seq<Iv>
    requires a.window > 0
  {
    (if AnchorsInside(a, first) then [] else [FirstIv(a, first)]) + ivs
  }

  /** The stream has covered iv's final window, and is silent past iv's end to the end of that window. */
  predicate SilentPad(s: seq<Frame>, iv: Iv, w: nat)
    requires w > 0
  {
    var end, to := iv.start + iv.frames, iv.start + Ceil(iv.frames, w) * w;
    end <= to <= |s| && s[end..to] == Silence(to - end)
  }

  /** The windows of a run are the stream's own windows on every one of its intervals exactly when the anchor lies
      inside its interval, or the stream happens to be silent where the flushed final window ran over it. */
  lemma WindowsAreTheWholeStreamIff(a: Asm, first: In, rest: seq<In>)
    requires Cold(a) && TempoOk(a, first) && |first.samples| > 0
    requires TemposOk(Step(a, first).0, rest) && NoReanchor(Step(a, first).0, rest)
    ensures var s := StreamOf(a, first, rest);
            Step(a, first).1 + RunWindows(Step(a, first).0, rest).1
            == Out(s, WithAnchors(a, first, IntervalsOf(a, first, rest)), a.window)
            <==> AnchorsInside(a, first) || SilentPad(s, FirstIv(a, first), a.window)
  {
    hide Out, Chain, Tracks, Step, RunWindows, NoReanchor, TemposOk, AnchorsInside, FramesAt, Lead, SilentPad, Laid, OpenedBy,
      AnchorOffset;
    WindowsAreTheStream(a, first, rest);
    var s, ivs, iv, w := StreamOf(a, first, rest), IntervalsOf(a, first, rest), FirstIv(a, first), a.window;
    LeadInOrder(a, first);
    if AnchorsInside(a, first) {
      assert [] + ivs == ivs && [] + Out(s, ivs, w) == Out(s, ivs, w);
    } else {
      OutHead(s, iv, ivs, w);
      EndAnchorFacts(a, first);
      assert s == Silence(iv.frames) + (first.samples + Laid(Step(a, first).0, rest));
      LeadIsStreamIff(s, iv, w);
      JoinedAlike(Lead(a, first), IvWindows(s, iv, w, Due(|s|, iv, w)), Out(s, ivs, w));
    }
  }

  lemma JoinedAlike<T>(u: seq<T>, v: seq<T>, tail: seq<T>)
    ensures u + tail == v + tail <==> u == v
  {
    if u + tail == v + tail {
      assert |u| == |v|;
      assert (u + tail)[..|u|] == u && (v + tail)[..|v|] == v;
    }
  }

  lemma {:induction false} OutHead(s: seq<Frame>, iv: Iv, ivs: seq<Iv>, w: nat)
    requires w > 0
    ensures Out(s, [iv] + ivs, w) == IvWindows(s, iv, w, Due(|s|, iv, w)) + Out(s, ivs, w)
    decreases |ivs|
  {
    hide IvWindows, Due;
    var n := |ivs|;
    if n == 0 {
      assert ([iv] + ivs)[..0] == [] && ([iv] + ivs)[0] == iv;
    } else {
      assert ([iv] + ivs)[..n] == [iv] + ivs[..n - 1];
      OutHead(s, iv, ivs[..n - 1], w);
    }
  }

  lemma EndAnchorFacts(a: Asm, first: In)
    requires a.window > 0 && TempoOk(a, first) && !AnchorsInside(a, first)
    ensures var iv := FirstIv(a, first);
            && iv.start == 0 && AnchorOffset(a, first) == iv.frames
            && LongEnough(iv.frames, a.window) && iv.frames % a.window != 0
            && Lead(a, first) == Remaining(NewBuf(a.window, iv.index, iv.frames), a.window)
  {
    hide Config.FrameOffset, Config.IntervalSamples, Config.IndexAtBeat, WindowsOf;
  }

  lemma LeadIsStreamIff(s: seq<Frame>, iv: Iv, w: nat)
    requires w > 0 && LongEnough(iv.frames, w) && iv.frames % w != 0 && iv.start == 0
    requires iv.frames <= |s| && s[..iv.frames] == Silence(iv.frames)
    ensures Remaining(NewBuf(w, iv.index, iv.frames), w) == IvWindows(s, iv, w, Due(|s|, iv, w)) <==> SilentPad(s, iv, w)
  {
    hide StreamWindow, WindowOf, SilentPad, Due, LongEnough;
    var total := Ceil(iv.frames, w);
    var b := NewBuf(w, iv.index, iv.frames);
    var lead, out := Remaining(b, w), IvWindows(s, iv, w, Due(|s|, iv, w));
    CeilBounds(iv.frames, w);
    if |s| < total * w {
      HeldDue(|s|, iv, w);
      assert |lead| == total && |out| == total - 1;
      NoSilentPad(s, iv, w);
    } else {
      DueBound(|s|, iv, w);
      SilentWindows(s, iv, w);
      FinalIsSilentIff(s, iv, w);
      assert |lead| == |out| == total;
      assert lead[total - 1] == WindowOf(b, w, total - 1) && out[total - 1] == StreamWindow(s, iv, w, total - 1);
      if lead[total - 1] == out[total - 1] {
        forall k | 0 <= k < total
          ensures lead[k] == out[k]
        {
          assert lead[k] == WindowOf(b, w, k) && out[k] == StreamWindow(s, iv, w, k);
        }
      }
    }
  }

  lemma NoSilentPad(s: seq<Frame>, iv: Iv, w: nat)
    requires w > 0 && |s| < iv.start + Ceil(iv.frames, w) * w
    ensures !SilentPad(s, iv, w)
  {
  }

  /** Every window of a silent interval but an overhanging last is a silent stretch of the stream too. */
  lemma SilentWindows(s: seq<Frame>, iv: Iv, w: nat)
    requires w > 0 && LongEnough(iv.frames, w) && iv.frames % w != 0 && iv.start == 0
    requires iv.frames <= |s| && s[..iv.frames] == Silence(iv.frames)
    ensures forall k: nat :: k < Ceil(iv.frames, w) - 1 ==>
              WindowOf(NewBuf(w, iv.index, iv.frames), w, k) == StreamWindow(s, iv, w, k)
  {
    hide WindowOf, StreamWindow, NewBuf, Ceil;
    forall k: nat | k < Ceil(iv.frames, w) - 1
      ensures WindowOf(NewBuf(w, iv.index, iv.frames), w, k) == StreamWindow(s, iv, w, k)
    {
      SilentWindowAt(s, iv, w, k);
    }
  }

  lemma SilentWindowAt(s: seq<Frame>, iv: Iv, w: nat, k: nat)
    requires w > 0 && LongEnough(iv.frames, w) && iv.start == 0 && k < Ceil(iv.frames, w) - 1
    requires iv.frames <= |s| && s[..iv.frames] == Silence(iv.frames)
    ensures WindowOf(NewBuf(w, iv.index, iv.frames), w, k) == StreamWindow(s, iv, w, k)
  {
    var total, from := Ceil(iv.frames, w), k * w;
    AllButLastFit(iv.frames, iv, w);
    MulIncreasing(k + 1, total - 1, w);
    assert (k + 1) * w == from + w;
    hide Ceil, Cut, Fit, LongEnough;
    SilentStretch(s, iv.frames, from, w);
  }

  lemma SilentStretch(s: seq<Frame>, frames: nat, from: nat, w: nat)
    requires from + w <= frames <= |s| && s[..frames] == Silence(frames)
    ensures Cut(s, from, w) == Silence(w) == Fit(Silence(frames)[from..], w)
  {
    assert forall i :: from <= i < from + w ==> s[i] == s[..frames][i] == Silence(frames)[i];
  }

  lemma FinalIsSilentIff(s: seq<Frame>, iv: Iv, w: nat)
    requires w > 0 && LongEnough(iv.frames, w) && iv.frames % w != 0 && iv.start == 0
    requires Ceil(iv.frames, w) * w <= |s| && iv.frames <= |s| && s[..iv.frames] == Silence(iv.frames)
    ensures var total := Ceil(iv.frames, w);
            && total >= 1
            && (WindowOf(NewBuf(w, iv.index, iv.frames), w, total - 1) == StreamWindow(s, iv, w, total - 1)
                <==> SilentPad(s, iv, w))
  {
    var total := Ceil(iv.frames, w);
    CeilBounds(iv.frames, w);
    var from := (total - 1) * w;
    assert from == total * w - w;
    TailSilentIff(s, iv.frames, from, w);
    hide Ceil, Cut, Fit;
  }

  lemma TailSilentIff(s: seq<Frame>, frames: nat, from: nat, w: nat)
    requires from <= frames <= from + w <= |s| && s[..frames] == Silence(frames)
    ensures Fit(Silence(frames)[from..], w) == Silence(w)
    ensures Cut(s, from, w) == Silence(w) <==> s[frames..from + w] == Silence(from + w - frames)
  {
    var c, n := Cut(s, from, w), frames - from;
    assert c[n..] == s[frames..from + w];
    assert c[..n] == s[..frames][from..] == Silence(n);
    assert c == c[..n] + c[n..] && Silence(w) == Silence(n) + Silence(w - n);
    assert Silence(w)[n..] == Silence(w - n);
  }

  /** Such a stamp exists at the rate and window size the program runs at: at 130 BPM four bars of four hold 354461.5
      frames, which is 354462 in an interval, 222 of them in the last of its windows of 960; a stamp 0.000001 beats
      before the end rounds to frame 354462. */
  lemma AnchorAtEndHappens()
    ensures var a := New(Config(4, 4.0), 48000, 960); var b := In(15.999999, 130.0, [Frame(1, 1)]);
            && Cold(a) && TempoOk(a, b) && !AnchorsInside(a, b)
            && FirstIv(a, b) == Iv(0, 0, 354462) && OriginIv(a, b) == Iv(1, 354462, 354462)
  {
    var c := Config(4, 4.0);
    assert c.BeatsPerInterval() == 16.0;
    assert c.IndexAtBeat(15.999999) == 0;
    assert FramesIn(16.0, 48000, 130.0) == 960.0 / 130.0 * 48000.0;
    assert c.IntervalSamples(48000, 130.0) == 354462;
    assert FramesIn(15.999999, 48000, 130.0) == 15.999999 * 60.0 / 130.0 * 48000.0;
    assert c.FrameOffset(15.999999, 0, 48000, 130.0) == 354462;
  }
}
