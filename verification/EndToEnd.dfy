/** From capture to the sink: at a constant tempo, with the codec as the identity and every frame there before it is
    needed, what comes out is what went in. */
module EndToEnd {
  import opened Common
  import opened Audio
  import opened Interval
  import A = AssemblerModel
  import opened AssemblerStream
  import opened AssemblerRuns
  import opened AssemblerOrder
  import opened Reassembly
  import FeederModel
  import opened Playback
  import opened PlaybackRuns
  import PlaybackLoss
  import PlaybackStamps

  // ---------------------------------------------------------------- the windows of a constant-tempo run

  /** Where a round's frame 0 lies in the stream. */
  function Base(round: int, first: int, frames: nat): (b: nat) {
    if round < first then 0 else
      MulIncreasing(0, round - first, frames);
      (round - first) * frames
  }

  lemma BaseNext(round: int, first: int, frames: nat)
    ensures first <= round ==> Base(round + 1, first, frames) == Base(round, first, frames) + frames
    ensures Base(first, first, frames) == 0
  {
    assert (round + 1 - first) * frames == (round - first) * frames + frames;
  }

  /** Equal intervals, each where the grid puts it. */
  predicate Regular(ivs: seq<Iv>, first: int, frames: nat) {
    forall iv <- ivs :: IvAt(iv, first, frames)
  }

  predicate IvAt(iv: Iv, first: int, frames: nat) {
    first <= iv.index && iv.start == Base(iv.index, first, frames) && iv.frames == frames
  }

  lemma {:induction false} OpenedRegular(ivs: seq<Iv>, len: nat, frames: nat, first: int)
    requires |ivs| > 0 && frames > 0 && Regular(ivs, first, frames)
    ensures Regular(Opened(ivs, len, frames), first, frames)
    decreases len - (ivs[|ivs| - 1].start + ivs[|ivs| - 1].frames)
  {
    hide Base;
    if len > ivs[|ivs| - 1].start + ivs[|ivs| - 1].frames {
      BaseNext(ivs[|ivs| - 1].index, first, frames);
      assert IvAt(ivs[|ivs| - 1], first, frames);
      OpenedRegular(ivs + [NextIv(ivs, frames)], len, frames, first);
    }
  }

  /** x is a window of an interval whose frame 0 is at `base`, and carries that stretch of the stream. */
  predicate Stretch(x: A.Window, s: seq<Frame>, base: nat, w: nat, total: nat) {
    && SlotIsStream(x.samples, w, x.number, s, base)
    && x.total == total && |x.samples| == w && x.number < total && (x.isFinal <==> x.number == total - 1)
  }

  /** The stream a round's windows carry. Where the anchor lay at the end of its interval (`lead`), that first interval
      was flushed all silent, its last window's padding included. */
  function StreamFor(round: int, s: seq<Frame>, w: nat, first: int, frames: nat, lead: bool): seq<Frame>
    requires w > 0
  {
    if lead && round == first then Silence(Ceil(frames, w) * w) else s
  }

  /** Every window carries its stretch of the stream, on the grid that starts at round `first`. */
  ghost predicate OnGrid(ws: seq<A.Window>, s: seq<Frame>, w: nat, first: int, frames: nat, lead: bool) {
    && w > 0 && frames > 0
    && (lead ==> frames <= |s| && s[..frames] == Silence(frames))
    && forall x <- ws :: first <= x.interval
         && Stretch(x, StreamFor(x.interval, s, w, first, frames, lead), Base(x.interval, first, frames), w, Ceil(frames, w))
  }

  /** Every window of a regular run: which interval it is of, and which stretch of the stream it carries. */
  lemma WindowIsStretch(s: seq<Frame>, ivs: seq<Iv>, w: nat, first: int, frames: nat, x: A.Window)
    requires w > 0 && frames > 0 && Regular(ivs, first, frames) && x in Out(s, ivs, w)
    ensures exists iv <- ivs :: iv.index == x.interval
    ensures first <= x.interval && Stretch(x, s, Base(x.interval, first, frames), w, Ceil(frames, w))
  {
    hide Out, Due, Base;
    var m :| 0 <= m < |Out(s, ivs, w)| && Out(s, ivs, w)[m] == x;
    var j, k := OutContainsOnly(s, ivs, w, m);
    assert IvAt(ivs[j], first, frames);
    StretchIsIn(s, ivs[j], w, k);
  }

  lemma StretchIsIn(s: seq<Frame>, iv: Iv, w: nat, k: nat)
    requires w > 0 && k < Due(|s|, iv, w)
    ensures 0 <= k * w && iv.start + k * w + w <= |s| && k < Ceil(iv.frames, w)
  {
    DueBound(|s|, iv, w);
    MulIncreasing(0, k, w);
    MulIncreasing(k + 1, Due(|s|, iv, w), w);
    assert (k + 1) * w == k * w + w;
  }

  /** A flushed window is a stretch of silence. */
  lemma LeadIsStretch(a: A.Asm, first: In, x: A.Window)
    requires a.window > 0 && TempoOk(a, first) && x in Lead(a, first)
    ensures var iv := FirstIv(a, first); var total := Ceil(iv.frames, a.window);
            && !AnchorsInside(a, first) && x.interval == iv.index
            && Stretch(x, Silence(total * a.window), 0, a.window, total)
  {
    hide Config.IntervalSamples, Config.FrameOffset, Config.IndexAtBeat;
    var iv, w := FirstIv(a, first), a.window;
    var b := A.NewBuf(w, iv.index, iv.frames);
    var k :| 0 <= k < |Lead(a, first)| && Lead(a, first)[k] == x;
    WindowHeader(b, w, k);
    SilentSlot(b, w, k);
  }

  lemma SilentSlot(b: A.Buf, w: nat, k: nat)
    requires w > 0 && b.pcm == Silence(|b.pcm|) && k < b.total
    ensures SlotIsStream(A.WindowOf(b, w, k).samples, w, k, Silence(b.total * w), 0)
  {
    MulIncreasing(0, k, w);
    MulIncreasing(k + 1, b.total, w);
    assert (k + 1) * w == k * w + w;
    assert A.WindowOf(b, w, k).samples == Silence(w);
  }

  // ---------------------------------------------------------------- what has arrived

  /** What one stream's receiver has been handed so far, round by round. */
  type Net = map<int, seq<Arrival>>

  function ArrivalsOf(net: Net, round: int): seq<Arrival> {
    if round in net then net[round] else []
  }

  /** Every real arrival is one of the sender's windows; concealment is unconstrained. */
  ghost predicate FromWindows(es: seq<Arrival>, ws: seq<A.Window>, round: int) {
    forall e <- es :: e.Add? ==> IsWindow(e, ws, round)
  }

  ghost predicate IsWindow(e: Arrival, ws: seq<A.Window>, round: int)
    requires e.Add?
  {
    exists x <- ws ::
      x.interval == round && x.number == e.fn && x.samples == e.pcm && x.isFinal == e.isFinal && x.total == e.totalFrames
  }

  ghost predicate NetFrom(net: Net, ws: seq<A.Window>) {
    forall r <- net :: FromWindows(net[r], ws, r)
  }

  /** The store the feeders read: every round as reassembled so far. */
  function StoreOf(net: Net, w: nat): FeederModel.Store {
    map r | r in net :: Sized(Rebuilt(net[r], w), w)
  }

  /** Every frame of [0, n) of a round has arrived. */
  ghost predicate Has(net: Net, round: int, n: int, w: nat) {
    forall k: nat :: k * w < n ==> k in Reals(ArrivalsOf(net, round))
  }

  /** Everything a tick may need has arrived: the playing round as far as the cushion reaches, the next beyond. */
  ghost predicate InTime(net: Net, g: Grid, round: int, reach: nat, w: nat) {
    && Has(net, round, Min(reach, g.Padded()), w)
    && Has(net, round + 1, Min(reach - g.Frames(), g.Frames()), w)
  }

  // ---------------------------------------------------------------- a reassembled round carries the stream

  /** What the sender sent of a round, as the stream determines it. */
  function SentOf(s: seq<Frame>, base: nat, w: nat, total: nat): map<nat, seq<Frame>> {
    map k: nat | k < total && 0 <= k * w && base + k * w + w <= |s| :: s[base + k * w..base + k * w + w]
  }

  lemma ArrivalsAreSent(es: seq<Arrival>, ws: seq<A.Window>, s: seq<Frame>, w: nat, first: int, frames: nat, lead: bool, round: int)
    requires OnGrid(ws, s, w, first, frames, lead) && FromWindows(es, ws, round)
    ensures SentBy(es, w, SentOf(StreamFor(round, s, w, first, frames, lead), Base(round, first, frames), w, Ceil(frames, w)),
                   Ceil(frames, w))
    ensures forall k :: k in Reals(es) ==> first <= round
  {
    hide Base, StreamFor;
    var base, total := Base(round, first, frames), Ceil(frames, w);
    var sent := SentOf(StreamFor(round, s, w, first, frames, lead), base, w, total);
    forall e | e in es && e.Add?
      ensures e.fn in sent && e.pcm == sent[e.fn] && |e.pcm| == w && first <= round
      ensures e.isFinal && e.totalFrames > 0 ==> e.totalFrames == total
    {
      var x :| x in ws && x.interval == round && x.number == e.fn && x.samples == e.pcm
               && x.isFinal == e.isFinal && x.total == e.totalFrames;
      assert Stretch(x, StreamFor(x.interval, s, w, first, frames, lead), Base(x.interval, first, frames), w, total);
    }
  }

  lemma RoundCarriesStream(es: seq<Arrival>, ws: seq<A.Window>, s: seq<Frame>, w: nat, first: int, frames: nat, lead: bool, round: int,
                           n: int)
    requires OnGrid(ws, s, w, first, frames, lead) && FromWindows(es, ws, round)
    requires n > 0 && forall k: nat :: k * w < n ==> k in Reals(es)
    ensures first <= round
    ensures Carries(Sized(Rebuilt(es, w), w), StreamFor(round, s, w, first, frames, lead), Base(round, first, frames), n)
  {
    var base, total := Base(round, first, frames), Ceil(frames, w);
    hide FromWindows, Reals, Rebuilt, SentBy, Base, SlotIsStream, SentOf, Sized, Ceil, Carries, StreamFor, Stretch;
    ArrivalsAreSent(es, ws, s, w, first, frames, lead, round);
    FirstSlotIn(Reals(es), w, n);
    SlotsRead(es, StreamFor(round, s, w, first, frames, lead), base, w, total, n);
  }

  lemma FirstSlotIn(reals: set<nat>, w: nat, n: int)
    requires n > 0 && forall k: nat :: k * w < n ==> k in reals
    ensures 0 in reals
  {
    assert 0 * w < n;
  }

  /** With every slot of [0, n) real, the round reads back as the stream. */
  lemma SlotsRead(es: seq<Arrival>, s: seq<Frame>, base: nat, w: nat, total: nat, n: int)
    requires w > 0 && n > 0 && SentBy(es, w, SentOf(s, base, w, total), total)
    requires forall k: nat :: k * w < n ==> k in Reals(es)
    ensures Carries(Sized(Rebuilt(es, w), w), s, base, n)
  {
    hide Reals, Rebuilt, SentBy, SlotIsStream, SentOf, Sized;
    var sent := SentOf(s, base, w, total);
    var slots := Ceil(n, w);
    CeilBounds(n, w);
    hide Ceil;
    forall k: nat | k < slots
      ensures k in Reals(es) && k in sent && SlotIsStream(sent[k], w, k, s, base)
    {
      LastSlotStarts(k, slots, w, n);
      SentSlot(es, s, base, w, total, k);
    }
    RealSlotsReadBack(es, w, sent, total, slots, s, base);
    ShorterCarries(Sized(Rebuilt(es, w), w), s, base, slots * w, n);
  }

  lemma LastSlotStarts(k: nat, slots: nat, w: nat, n: int)
    requires k < slots && slots * w < n + w
    ensures k * w < n
  {
    MulIncreasing(k + 1, slots, w);
    assert (k + 1) * w == k * w + w;
  }

  lemma SentSlot(es: seq<Arrival>, s: seq<Frame>, base: nat, w: nat, total: nat, k: nat)
    requires SentBy(es, w, SentOf(s, base, w, total), total) && k in Reals(es)
    ensures k in SentOf(s, base, w, total) && SlotIsStream(SentOf(s, base, w, total)[k], w, k, s, base)
  {
  }

  lemma ShorterCarries(pcm: seq<Frame>, s: seq<Frame>, base: nat, m: nat, n: nat)
    requires n <= m <= |pcm| && base + m <= |s| && pcm[..m] == s[base..base + m]
    ensures Carries(pcm, s, base, n)
  {
    assert pcm[..n] == pcm[..m][..n];
    assert s[base..base + n] == s[base..base + m][..n];
  }

  // ---------------------------------------------------------------- what a tick reads has arrived

  lemma CarriedRound(net: Net, g: Grid, ws: seq<A.Window>, s: seq<Frame>, w: nat, first: int, lead: bool, round: int, n: int)
    requires g.Ok() && OnGrid(ws, s, w, first, g.Frames(), lead) && n > 0
    requires NetFrom(net, ws) && Has(net, round, n, w)
    ensures first <= round && round in net
    ensures Carries(FeederModel.Pcm(StoreOf(net, w), round), StreamFor(round, s, w, first, g.Frames(), lead),
                    Base(round, first, g.Frames()), n)
  {
    hide Config.IntervalSamples, Grid.Padded, FromWindows, Base, Carries, Rebuilt, StreamFor, OnGrid, Grid.Frames, Grid.Ok;
    GridOnGrid(ws, s, w, first, g.Frames(), lead);
    var es := ArrivalsOf(net, round);
    assert 0 in Reals(es) by {
      assert 0 * w < n;
    }
    assert round in net by {
      NoneFromNothing();
    }
    RoundCarriesStream(es, ws, s, w, first, g.Frames(), lead, round, n);
  }

  lemma GridOnGrid(ws: seq<A.Window>, s: seq<Frame>, w: nat, first: int, frames: nat, lead: bool)
    requires OnGrid(ws, s, w, first, frames, lead)
    ensures w > 0 && frames > 0 && (lead ==> frames <= |s| && s[..frames] == Silence(frames))
  {
  }

  lemma NoneFromNothing()
    ensures Reals([]) == {}
  {
  }

  /** The flushed first interval's windows carry the stream as far as its own frames go. */
  lemma SilenceIsStream(pcm: seq<Frame>, s: seq<Frame>, n: int, total: nat, frames: nat)
    requires Carries(pcm, Silence(total), 0, n) && 0 <= n <= frames <= |s| && s[..frames] == Silence(frames)
    ensures Carries(pcm, s, 0, n)
  {
    assert s[0..n] == s[..frames][..n] == Silence(n);
    assert Silence(total)[0..n] == Silence(n);
  }

  /** By the time its end is reached every window of the flushed interval is in, and its padding is silent: the
      boundary after it truncates. */
  lemma LeadPadIsSilent(net: Net, g: Grid, ws: seq<A.Window>, s: seq<Frame>, w: nat, first: int, reach: nat)
    requires g.Ok() && w == SamplesPerWaifFrame(g.rate) && OnGrid(ws, s, w, first, g.Frames(), true)
    requires NetFrom(net, ws) && InTime(net, g, first, reach, w) && reach > g.Frames()
    ensures !PadCarriesAudio(FeederModel.Pcm(StoreOf(net, w), first), g.Frames(), g.Padded())
    ensures forall index :: FeederModel.HandoffStart(HandoffAt(g, first, index), StoreOf(net, w)) == 0
  {
    hide Config.IntervalSamples, Rebuilt, FromWindows, OnGrid, StoreOf, PadCarriesAudio, Carries, Reals, NetFrom;
    var frames, total := g.Frames(), Ceil(g.Frames(), w);
    GridFacts(g);
    CeilBounds(frames, w);
    assert g.Padded() == total * w;
    hide Grid.Frames, Grid.Padded, Ceil;
    forall k: nat | k * w < total * w
      ensures k in Reals(ArrivalsOf(net, first))
    {
      SlotStarts(k, total, w, frames);
      assert k * w < Min(reach, g.Padded());
    }
    CarriedRound(net, g, ws, s, w, first, true, first, total * w);
    BaseNext(first, first, frames);
    SilentPadding(FeederModel.Pcm(StoreOf(net, w), first), frames, total * w);
    forall index
      ensures FeederModel.HandoffStart(HandoffAt(g, first, index), StoreOf(net, w)) == 0
    {
      SilentHandoff(g, first, index, StoreOf(net, w));
    }
  }

  lemma SilentPadding(pcm: seq<Frame>, frames: nat, n: nat)
    requires Carries(pcm, Silence(n), 0, n)
    ensures !PadCarriesAudio(pcm, frames, n)
  {
    forall i | frames <= i < n
      ensures !Loud(pcm[i])
    {
      assert pcm[..n][i] == Silence(n)[0..n][i];
    }
  }

  lemma SilentHandoff(g: Grid, round: int, index: int, store: FeederModel.Store)
    requires !PadCarriesAudio(FeederModel.Pcm(store, round), g.Frames(), g.Padded())
    ensures FeederModel.HandoffStart(HandoffAt(g, round, index), store) == 0
  {
    hide Grid.Frames, Grid.Padded, PadCarriesAudio;
  }

  lemma SlotStarts(k: nat, total: nat, w: nat, frames: nat)
    requires k * w < total * w < frames + w
    ensures k * w < frames
  {
    if k >= total {
      MulIncreasing(total, k, w);
    } else {
      LastSlotStarts(k, total, w, frames);
    }
  }

  /** What a tick reads of the playing round. */
  lemma PlayingCarried(net: Net, g: Grid, ws: seq<A.Window>, s: seq<Frame>, w: nat, first: int, lead: bool, round: int, reach: nat,
                       ext: nat)
    requires g.Ok() && w == SamplesPerWaifFrame(g.rate) && OnGrid(ws, s, w, first, g.Frames(), lead) && reach > 0
    requires NetFrom(net, ws) && InTime(net, g, round, reach, w) && g.Frames() <= ext <= g.Padded()
    requires lead && round == first && reach > g.Frames() ==> ext == g.Frames()
    ensures first <= round
    ensures Carries(FeederModel.Pcm(StoreOf(net, w), round), s, Base(round, first, g.Frames()), Min(reach, ext))
  {
    hide Config.IntervalSamples, Grid.Padded, FromWindows, Rebuilt, OnGrid, Grid.Ok, Grid.Frames, StoreOf;
    var frames, n := g.Frames(), Min(reach, ext);
    GridOnGrid(ws, s, w, first, frames, lead);
    forall k: nat | k * w < n
      ensures k in Reals(ArrivalsOf(net, round))
    {
      assert k * w < Min(reach, g.Padded());
    }
    CarriedRound(net, g, ws, s, w, first, lead, round, n);
    if lead && round == first {
      BaseNext(first, first, frames);
      SilenceIsStream(FeederModel.Pcm(StoreOf(net, w), round), s, n, Ceil(frames, w) * w, frames);
    }
  }

  lemma InTimeIsArrived(net: Net, g: Grid, ws: seq<A.Window>, s: seq<Frame>, w: nat, first: int, lead: bool, round: int, reach: nat,
                        ext: nat)
    requires g.Ok() && w == SamplesPerWaifFrame(g.rate) && OnGrid(ws, s, w, first, g.Frames(), lead) && reach > 0
    requires NetFrom(net, ws) && InTime(net, g, round, reach, w) && g.Frames() <= ext <= g.Padded()
    requires lead && round == first && reach > g.Frames() ==> ext == g.Frames()
    ensures first <= round && Arrived(StoreOf(net, w), s, g, round, Base(round, first, g.Frames()), reach, ext)
  {
    hide Config.IntervalSamples, Grid.Padded, FromWindows, Base, Carries, OnGrid, Grid.Ok, Grid.Frames, StoreOf, NetFrom, Has;
    PlayingCarried(net, g, ws, s, w, first, lead, round, reach, ext);
    var frames := g.Frames();
    var store, base, n, m := StoreOf(net, w), Base(round, first, frames), Min(reach, ext), Min(reach - frames, frames);
    BaseNext(round, first, frames);
    if m > 0 {
      CarriedRound(net, g, ws, s, w, first, lead, round + 1, m);
    } else if m == 0 {
      CarriesNothing(FeederModel.Pcm(store, round), FeederModel.Pcm(store, round + 1), s, base, frames, n);
    } else {
      NegativeCarries(FeederModel.Pcm(store, round + 1), s, base + frames, m);
    }
  }

  lemma CarriesNothing(pcm: seq<Frame>, next: seq<Frame>, s: seq<Frame>, base: int, frames: nat, n: int)
    requires Carries(pcm, s, base, n) && n >= frames
    ensures Carries(next, s, base + frames, 0)
  {
  }

  lemma NegativeCarries(next: seq<Frame>, s: seq<Frame>, base: int, m: int)
    requires m < 0
    ensures Carries(next, s, base, m)
  {
  }

  // ---------------------------------------------------------------- runs

  datatype NetTick = NetTick(beat: real, net: Net)

  function TickOf(t: NetTick, w: nat): Tick {
    Tick(t.beat, StoreOf(t.net, w))
  }

  function TicksOf(ts: seq<NetTick>, w: nat): (r: seq<Tick>)
    ensures |r| == |ts|
    ensures forall i :: 0 <= i < |ts| ==> r[i] == TickOf(ts[i], w)
  {
    seq(|ts|, i requires 0 <= i < |ts| => TickOf(ts[i], w))
  }

  /** At each tick, everything it may need of the sender's windows has arrived. */
  ghost predicate OnTime(g: Grid, cushion: nat, ws: seq<A.Window>, w: nat, round: int, index: int, ts: seq<NetTick>)
    decreases |ts|
  {
    ts == [] ||
    var t := ts[0];
    var i := g.cfg.IndexAtBeat(t.beat);
    && NetFrom(t.net, ws)
    && InTime(t.net, g, round + (i - index), Max(g.PlayAt(t.beat, i), 0) + cushion, w)
    && OnTime(g, cushion, ws, w, round + (i - index), i, ts[1..])
  }

  /** The flushed first interval is not played past its end. */
  predicate Quiet(f: FeederModel.Feeder, round: int, first: int, lead: bool) {
    lead && round == first && f.next.Some? ==> f.nextStart == 0
  }

  /** One tick reads nothing that is not there, and leaves the flushed interval unextended. */
  lemma TickIsSupplied(f: FeederModel.Feeder, g: Grid, round: int, index: int, t: NetTick, ws: seq<A.Window>, s: seq<Frame>, w: nat,
                       first: int, lead: bool)
    requires g.Ok() && w == SamplesPerWaifFrame(g.rate) && OnGrid(ws, s, w, first, g.Frames(), lead) && first <= round
    requires Shape(f, g, round, index) && Quiet(f, round, first, lead)
    requires NetFrom(t.net, ws) && InTime(t.net, g, round, Max(g.PlayAt(t.beat, index), 0) + f.cushion, w)
    ensures Arrived(StoreOf(t.net, w), s, g, round, Base(round, first, g.Frames()), Max(g.PlayAt(t.beat, index), 0) + f.cushion,
                    Extent(f, g, round, index, StoreOf(t.net, w)))
  {
    hide Config.IntervalSamples, NetFrom, InTime, OnGrid, Arrived, Grid.PlayAt, StoreOf, Base, Config.WindowStart, Config.WindowEnd;
    GridFacts(g);
    var reach, store := Max(g.PlayAt(t.beat, index), 0) + f.cushion, StoreOf(t.net, w);
    var ext := Extent(f, g, round, index, store);
    if lead && round == first && reach > g.Frames() {
      LeadPadIsSilent(t.net, g, ws, s, w, first, reach);
    }
    InTimeIsArrived(t.net, g, ws, s, w, first, lead, round, reach, ext);
  }

  lemma StaysQuiet(f: FeederModel.Feeder, g: Grid, round: int, index: int, t: NetTick, ws: seq<A.Window>, s: seq<Frame>, w: nat,
                   first: int, lead: bool)
    requires g.Ok() && w == SamplesPerWaifFrame(g.rate) && OnGrid(ws, s, w, first, g.Frames(), lead)
    requires Shape(f, g, round, index) && Quiet(f, round, first, lead)
    requires NetFrom(t.net, ws) && InTime(t.net, g, round, Max(g.PlayAt(t.beat, index), 0) + f.cushion, w)
    requires var f1 := FeederModel.Advance(f, t.beat, StoreOf(t.net, w)).0;
             Topped(f1, g, round, index, g.PlayAt(t.beat, index)) && f1.cushion == f.cushion
    ensures Quiet(FeederModel.Advance(f, t.beat, StoreOf(t.net, w)).0, round, first, lead)
  {
    hide Config.IntervalSamples, NetFrom, InTime, OnGrid, Grid.PlayAt, StoreOf, Config.WindowStart, Config.WindowEnd,
      FeederModel.Advance, FeederModel.HandoffStart;
    var f1 := FeederModel.Advance(f, t.beat, StoreOf(t.net, w)).0;
    PlaybackLoss.AdvanceStart(f, t.beat, StoreOf(t.net, w));
    if lead && round == first && f.next.None? && f1.next.Some? {
      LeadPadIsSilent(t.net, g, ws, s, w, first, g.PlayAt(t.beat, index) + f.cushion);
    }
  }

  lemma BoundaryShape(f: FeederModel.Feeder, g: Grid, round: int, index: int, play: nat)
    requires Ready(f, g, round, index, play)
    ensures Shape(f, g, round, index)
  {
  }

  /** A run in cadence whose windows arrive in time finds everything it reads. */
  lemma {:induction false} OnTimeIsSupplied(p: Player, g: Grid, s: seq<Frame>, b: real, ts: seq<NetTick>, ws: seq<A.Window>, w: nat,
                                            first: int, lead: bool)
    requires g.Ok() && FeederModel.Ok(p.f) && p.f.cur.Some?
    requires w == SamplesPerWaifFrame(g.rate) && OnGrid(ws, s, w, first, g.Frames(), lead) && first <= p.round
    requires At(p, g, s, Base(p.round, first, g.Frames()), b) && Quiet(p.f, p.round, first, lead)
    requires Cadence(p, g, b, TicksOf(ts, w)) && OnTime(g, p.f.cushion, ws, w, p.round, p.index, ts)
    ensures Supplied(p, g, s, Base(p.round, first, g.Frames()), TicksOf(ts, w))
    decreases |ts|
  {
    hide Config.IntervalSamples, Config.IndexAtBeat, Grid.PlayAt, InReach, NetFrom, InTime, OnGrid, StoreOf, At, TickStep, Arrived,
      Grid.Ok, Quiet, SuppliedAt, Base, Grid.Frames;
    if ts != [] {
      var t := ts[0];
      assert TicksOf(ts, w)[0] == TickOf(t, w) && TicksOf(ts, w)[1..] == TicksOf(ts[1..], w);
      OneTickSupplied(p, g, s, b, t, ws, w, first, lead);
      var p1 := TickStep(p, g, TickOf(t, w)).0;
      OnTimeIsSupplied(p1, g, s, t.beat, ts[1..], ws, w, first, lead);
    }
  }

  /** One step of it, in this interval or across its boundary. */
  lemma OneTickSupplied(p: Player, g: Grid, s: seq<Frame>, b: real, t: NetTick, ws: seq<A.Window>, w: nat, first: int, lead: bool)
    requires g.Ok() && FeederModel.Ok(p.f) && p.f.cur.Some?
    requires w == SamplesPerWaifFrame(g.rate) && OnGrid(ws, s, w, first, g.Frames(), lead) && first <= p.round
    requires At(p, g, s, Base(p.round, first, g.Frames()), b) && Quiet(p.f, p.round, first, lead)
    requires InReach(p.f, g, p.index, b, t.beat) && NetFrom(t.net, ws)
    requires var i := g.cfg.IndexAtBeat(t.beat);
             InTime(t.net, g, p.round + (i - p.index), Max(g.PlayAt(t.beat, i), 0) + p.f.cushion, w)
    ensures var base := Base(p.round, first, g.Frames()); var q := TickStep(p, g, TickOf(t, w)).0;
            && SuppliedAt(p, g, s, base, TickOf(t, w))
            && first <= q.round && q.index == g.cfg.IndexAtBeat(t.beat) && q.round - p.round == q.index - p.index
            && BaseAt(p, g, base, t.beat) == Base(q.round, first, g.Frames())
            && At(q, g, s, Base(q.round, first, g.Frames()), t.beat) && Quiet(q.f, q.round, first, lead)
            && q.f.cushion == p.f.cushion
  {
    hide Config.IntervalSamples, Config.IndexAtBeat, Grid.PlayAt, InReach, NetFrom, InTime, OnGrid, StoreOf, Arrived, Boundary,
      Grid.Ok, Base, Grid.Frames, FeederModel.Advance, Topped, Extent, GoesOn, Ready, Shape, Front;
    var i, base := g.cfg.IndexAtBeat(t.beat), Base(p.round, first, g.Frames());
    ReachIndex(p.f, g, p.index, b, t.beat);
    BaseNext(p.round, first, g.Frames());
    ExactInside(g, t.beat, i);
    var f := AtTick(p, g, t.beat).f;
    var round := p.round + (i - p.index);
    if i == p.index {
      ToppedShape(p.f, g, p.round, p.index, g.PlayAt(b, p.index));
    } else {
      HandsOver(p.f, g, p.round, p.index, b, t.beat, base);
      BoundaryShape(f, g, round, i, g.PlayAt(t.beat, i));
    }
    TickIsSupplied(f, g, round, i, t, ws, s, w, first, lead);
    assert BaseAt(p, g, base, t.beat) == Base(round, first, g.Frames());
    TickGoesOn(p, g, s, base, b, TickOf(t, w));
    var q := TickStep(p, g, TickOf(t, w)).0;
    WentOn(p.f, q, TickStep(p, g, TickOf(t, w)).1, g, s, base, BaseAt(p, g, base, t.beat), t.beat);
    StaysQuiet(f, g, round, i, t, ws, s, w, first, lead);
  }

  lemma ToppedShape(f: FeederModel.Feeder, g: Grid, round: int, index: int, play: int)
    requires Topped(f, g, round, index, play)
    ensures Shape(f, g, round, index)
  {
  }

  lemma WentOn(f: FeederModel.Feeder, p: Player, cs: seq<FeederModel.Chunk>, g: Grid, s: seq<Frame>, base: int, d: int, beat: real)
    requires f.cur.Some? && GoesOn(f, p, cs, g, s, base, d, beat)
    ensures At(p, g, s, d, beat) && p.f.cushion == f.cushion
  {
  }

  // ---------------------------------------------------------------- the theorem

  function WindowsOf(a: A.Asm, first: In, rest: seq<In>): seq<A.Window>
    requires Cold(a) && TempoOk(a, first) && TemposOk(Step(a, first).0, rest)
  {
    Step(a, first).1 + RunWindows(Step(a, first).0, rest).1
  }

  /** The receiver's grid is the sender's. */
  predicate SameGrid(a: A.Asm, g: Grid) {
    g.cfg == a.cfg && g.rate == a.rate && a.window == SamplesPerWaifFrame(a.rate)
  }

  /** A sender's run: cut into windows on a fixed grid from the first buffer on, wherever its stamp falls. */
  ghost predicate Sends(a: A.Asm, g: Grid, first: In, rest: seq<In>) {
    && Cold(a) && TempoOk(a, first) && |first.samples| > 0 && SameGrid(a, g) && g.Ok()
    && first.tempo == g.tempo && ConstantTempo(rest, g.tempo)
    && TemposOk(Step(a, first).0, rest) && NoReanchor(Step(a, first).0, rest)
  }

  lemma SendsOk(a: A.Asm, g: Grid, first: In, rest: seq<In>)
    requires Sends(a, g, first, rest)
    ensures Cold(a) && TempoOk(a, first) && TemposOk(Step(a, first).0, rest) && NoReanchor(Step(a, first).0, rest)
    ensures |first.samples| > 0 && SameGrid(a, g) && g.Ok() && FramesAt(a, first.tempo) == g.Frames()
    ensures a.window == SamplesPerWaifFrame(g.rate) && first.tempo == g.tempo && ConstantTempo(rest, first.tempo)
  {
  }

  function FramesAt(a: A.Asm, tempo: real): nat {
    A.FramesAt(a, tempo)
  }

  /** What a sender sends lies on the grid that starts at its first buffer's interval. */
  lemma SentOnTheGrid(a: A.Asm, g: Grid, first: In, rest: seq<In>)
    requires Sends(a, g, first, rest)
    ensures OnGrid(WindowsOf(a, first, rest), StreamOf(a, first, rest), a.window, a.cfg.IndexAtBeat(first.beat), g.Frames(),
                   !AnchorsInside(a, first))
  {
    hide Step, NoReanchor, Laid, OpenedBy, TemposOk, Config.IntervalSamples, Config.FrameOffset, Config.IndexAtBeat, Out, Tracks,
      RunWindows, Chain, AnchorsInside, Opened, StreamOf, IntervalsOf, Lead, Sends, Stretch, Base, StreamFor;
    SendsOk(a, g, first, rest);
    WindowsAreTheStream(a, first, rest);
    var s, ivs, w := StreamOf(a, first, rest), IntervalsOf(a, first, rest), a.window;
    var i0, frames := a.cfg.IndexAtBeat(first.beat), g.Frames();
    GridFacts(g);
    IntervalsRegular(a, g, first, rest);
    var lead := !AnchorsInside(a, first);
    if lead {
      SilentStart(a, first, rest);
    }
    forall x | x in WindowsOf(a, first, rest)
      ensures i0 <= x.interval
      ensures Stretch(x, StreamFor(x.interval, s, w, i0, frames, lead), Base(x.interval, i0, frames), w, Ceil(frames, w))
    {
      if x in Lead(a, first) {
        LeadIsStretch(a, first, x);
        BaseNext(i0, i0, frames);
        FlushedStream(x.interval, s, w, i0, frames);
      } else {
        WindowIsStretch(s, ivs, w, i0, frames, x);
        LiveStream(a, g, first, rest, x.interval);
      }
    }
  }

  lemma FlushedStream(round: int, s: seq<Frame>, w: nat, first: int, frames: nat)
    requires w > 0 && round == first
    ensures StreamFor(round, s, w, first, frames, true) == Silence(Ceil(frames, w) * w)
  {
  }

  /** After a flushed interval the stream's own intervals start one later. */
  lemma LiveStream(a: A.Asm, g: Grid, first: In, rest: seq<In>, round: int)
    requires Sends(a, g, first, rest) && exists iv <- IntervalsOf(a, first, rest) :: iv.index == round
    requires a.window > 0
    ensures var s := StreamOf(a, first, rest);
            StreamFor(round, s, a.window, a.cfg.IndexAtBeat(first.beat), g.Frames(), !AnchorsInside(a, first)) == s
  {
    hide Step, NoReanchor, Laid, TemposOk, Config.IntervalSamples, Config.FrameOffset, Config.IndexAtBeat, Out, Tracks,
      RunWindows, Chain, Opened, StreamOf, IntervalsOf, AnchorOffset, FramesAt, A.FramesAt;
    WindowsAreTheStream(a, first, rest);
    var ivs := IntervalsOf(a, first, rest);
    var iv :| iv in ivs && iv.index == round;
    var j :| 0 <= j < |ivs| && ivs[j] == iv;
    IndexAtLeast(ivs, a.window, j);
  }

  lemma {:induction false} IndexAtLeast(ivs: seq<Iv>, w: nat, j: nat)
    requires Chain(ivs, w) && j < |ivs|
    ensures ivs[0].index <= ivs[j].index
    decreases j
  {
    if j > 0 {
      IndexAtLeast(ivs, w, j - 1);
    }
  }

  lemma SilentStart(a: A.Asm, first: In, rest: seq<In>)
    requires Cold(a) && TempoOk(a, first) && TemposOk(Step(a, first).0, rest) && NoReanchor(Step(a, first).0, rest)
    requires !AnchorsInside(a, first)
    ensures var n := FramesAt(a, first.tempo); var s := StreamOf(a, first, rest);
            n <= |s| && s[..n] == Silence(n)
  {
    hide Step, NoReanchor, Laid, TemposOk, Config.IntervalSamples, AnchorsInside;
    EndAnchorFacts(a, first);
  }

  lemma IntervalsRegular(a: A.Asm, g: Grid, first: In, rest: seq<In>)
    requires Sends(a, g, first, rest)
    ensures Regular(IntervalsOf(a, first, rest), a.cfg.IndexAtBeat(first.beat), g.Frames())
  {
    hide Step, NoReanchor, Laid, OpenedBy, TemposOk, Config.IntervalSamples, Config.FrameOffset, Config.IndexAtBeat, Opened, StreamOf,
      IntervalsOf, AnchorsInside;
    SendsOk(a, g, first, rest);
    ConstantGrid(a, first, rest);
    GridFacts(g);
    var i0, frames := a.cfg.IndexAtBeat(first.beat), g.Frames();
    BaseNext(i0, i0, frames);
    assert IvAt(OriginIv(a, first), i0, frames);
    OpenedRegular([OriginIv(a, first)], |StreamOf(a, first, rest)|, frames, i0);
  }

  /** WHAT COMES OUT IS WHAT WENT IN. A sender cuts a run of buffers into windows; each window reaches the receiver
      before it is needed, in any order, duplicated, with any concealment in between; from the sender's round
      `round` on, consecutive rounds are released at consecutive local boundaries, and no tick is out of reach of the
      one before it. Then everything the feeder sends to the sink, over any number of boundaries, is one contiguous
      piece of the stream the sender laid down, each chunk is stamped to within half a frame with the beat at which the last
      one ended, and no underrun is counted. */
  lemma WhatComesOutIsWhatWentIn(a: A.Asm, g: Grid, first: In, rest: seq<In>, f: FeederModel.Feeder, round: int,
                                 t: NetTick, ts: seq<NetTick>)
    returns (from: nat, end: nat)
    requires Sends(a, g, first, rest) && FeederModel.Ok(f) && !FeederModel.Promotes(f, round)
    requires var ws := WindowsOf(a, first, rest); var i := g.cfg.IndexAtBeat(t.beat);
             && NetFrom(t.net, ws) && InTime(t.net, g, round, Max(g.PlayAt(t.beat, i), 0) + f.cushion, a.window)
             && OnTime(g, f.cushion, ws, a.window, round, i, ts)
    requires Cadence(Started(f, g, round, TickOf(t, a.window)).0, g, t.beat, TicksOf(ts, a.window))
    ensures var s := StreamOf(a, first, rest); var (p, cs) := Started(f, g, round, TickOf(t, a.window));
            && var (q, ds) := Played(p, g, TicksOf(ts, a.window));
            && from <= end <= |s| && FeederModel.Joined(cs + ds) == s[from..end]
            && from == Base(round, a.cfg.IndexAtBeat(first.beat), g.Frames()) + g.PlayAt(t.beat, p.index)
            && g.rate > 0 && PlaybackStamps.Meeting(g, cs + ds)
            && q.f.underrunFrames == f.underrunFrames && q.f.underrunEvents == f.underrunEvents
            && var last := if ts == [] then t.beat else ts[|ts| - 1].beat;
               end >= from - g.PlayAt(t.beat, p.index) + (q.round - round) * g.Frames()
                      + Min(g.PlayAt(last, q.index) + f.cushion, g.Frames())
  {
    hide Step, NoReanchor, TemposOk, Config.IntervalSamples, Config.IndexAtBeat, AnchorsInside, StreamOf, Arrived, Played,
      FeederModel.Advance, FeederModel.Joined, InTime, NetFrom, OnTime, Cadence, Supplied, Boundary, Base, StoreOf, WindowsOf,
      Grid.PlayAt, Grid.Frames, Sends, OnGrid, At, Front, Grid.Ok, PlaybackStamps.Meeting, Grid.Padded;
    SendsOk(a, g, first, rest);
    SentOnTheGrid(a, g, first, rest);
    var s, w, i0 := StreamOf(a, first, rest), a.window, a.cfg.IndexAtBeat(first.beat);
    var base := Base(round, i0, g.Frames());
    FirstIsSupplied(f, g, round, t, WindowsOf(a, first, rest), s, w, i0, !AnchorsInside(a, first));
    var p := Started(f, g, round, TickOf(t, w)).0;
    OnTimeIsSupplied(p, g, s, t.beat, ts, WindowsOf(a, first, rest), w, i0, !AnchorsInside(a, first));
    GridFacts(g);
    PlaybackStamps.WholeRunStampsMeet(f, g, round, TickOf(t, w), TicksOf(ts, w), s, base);
    var d, play := WholeRunIsContiguous(f, g, round, TickOf(t, w), TicksOf(ts, w), s, base);
    from := base + g.PlayAt(t.beat, p.index);
    end := Front(Played(p, g, TicksOf(ts, w)).0.f, g, d);
  }

  /** The first tick of all. */
  lemma FirstIsSupplied(f: FeederModel.Feeder, g: Grid, round: int, t: NetTick, ws: seq<A.Window>, s: seq<Frame>, w: nat, first: int,
                        lead: bool)
    requires g.Ok() && FeederModel.Ok(f) && !FeederModel.Promotes(f, round)
    requires w == SamplesPerWaifFrame(g.rate) && OnGrid(ws, s, w, first, g.Frames(), lead)
    requires NetFrom(t.net, ws) && InTime(t.net, g, round, Max(g.PlayAt(t.beat, g.cfg.IndexAtBeat(t.beat)), 0) + f.cushion, w)
    ensures var base := Base(round, first, g.Frames()); var p := Started(f, g, round, TickOf(t, w)).0;
            && first <= round && FirstSupplied(f, g, round, TickOf(t, w), s, base)
            && At(p, g, s, base, t.beat) && Quiet(p.f, round, first, lead)
            && p.round == round && p.index == g.cfg.IndexAtBeat(t.beat) && p.f.cushion == f.cushion
  {
    hide Config.IntervalSamples, Config.IndexAtBeat, Grid.PlayAt, NetFrom, InTime, OnGrid, StoreOf, Arrived, Grid.Ok, Base,
      FeederModel.Advance, Topped, Front, Shape, Boundary, FeederModel.Joined, Grid.Frames;
    var i := g.cfg.IndexAtBeat(t.beat);
    var f1, reach := Boundary(f, g, round, i), Max(g.PlayAt(t.beat, i), 0) + f.cushion;
    FreshShape(f, g, round, i);
    InRange(t.net, g, ws, s, w, first, lead, round, reach);
    TickIsSupplied(f1, g, round, i, t, ws, s, w, first, lead);
    FreshExtent(f1, g, round, i, StoreOf(t.net, w));
    FirstTick(f, g, round, TickOf(t, w), s, Base(round, first, g.Frames()));
    StaysQuiet(f1, g, round, i, t, ws, s, w, first, lead);
  }

  lemma FreshExtent(f: FeederModel.Feeder, g: Grid, round: int, index: int, store: FeederModel.Store)
    requires f.next.None?
    ensures Extent(f, g, round, index, store) == g.Frames() + FeederModel.HandoffStart(HandoffAt(g, round, index), store)
  {
  }

  /** A fresh reader's shape. */
  lemma FreshShape(f: FeederModel.Feeder, g: Grid, round: int, index: int)
    requires g.Ok() && FeederModel.Ok(f) && !FeederModel.Promotes(f, round)
    ensures var f1 := Boundary(f, g, round, index);
            Shape(f1, g, round, index) && f1.next.None? && f1.cushion == f.cushion && f1.cushion > 0
  {
    hide Config.IntervalSamples, Config.WindowStart, Config.WindowEnd, Grid.Padded;
    GridFacts(g);
  }

  /** Only the sender's rounds can have arrived. */
  lemma InRange(net: Net, g: Grid, ws: seq<A.Window>, s: seq<Frame>, w: nat, first: int, lead: bool, round: int, reach: nat)
    requires g.Ok() && w == SamplesPerWaifFrame(g.rate) && OnGrid(ws, s, w, first, g.Frames(), lead)
    requires NetFrom(net, ws) && InTime(net, g, round, reach, w) && reach > 0
    ensures first <= round
  {
    hide Config.IntervalSamples, OnGrid, NetFrom;
    GridFacts(g);
    CarriedRound(net, g, ws, s, w, first, lead, round, Min(reach, g.Padded()));
  }

  /** While stamps stay in the deadband nothing is slewed: the stream laid down is the source itself, after the
      silence that places its first frame on the grid. */
  lemma StreamIsSource(a: A.Asm, g: Grid, first: In, rest: seq<In>)
    requires Sends(a, g, first, rest) && InDeadband(Step(a, first).0, rest)
    ensures StreamOf(a, first, rest) == Silence(AnchorOffset(a, first)) + Source([first] + rest)
  {
    hide Step, NoReanchor, TemposOk, Config.IntervalSamples;
    DeadbandLaysSource(Step(a, first).0, rest);
    assert ([first] + rest)[1..] == rest;
    assert Silence(AnchorOffset(a, first)) + first.samples + Source(rest)
        == Silence(AnchorOffset(a, first)) + Source([first] + rest);
  }
}
