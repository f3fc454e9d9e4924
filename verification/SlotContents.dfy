/** What a round reads as: every place of every slot holds the last frame laid there by a real arrival, or by the first
    arrival of its slot if that was concealment (internal/emit/reassembler.go). */
module SlotContents {
  import opened Audio
  import opened Reassembly

  /** Arrival j counts: it is real, or the first one for its slot. */
  predicate Counts(es: seq<Arrival>, j: nat)
    requires j < |es|
  {
    es[j].Add? || forall i :: 0 <= i < j ==> es[i].fn != es[j].fn
  }

  /** The frame last laid at place i of a slot, or silence. */
  function LastLaid(es: seq<Arrival>, fn: nat, i: nat): Frame
    decreases |es|
  {
    if es == [] then
      SILENT
    else
      var n := |es| - 1;
      if es[n].fn == fn && Counts(es, n) && i < |es[n].pcm| then es[n].pcm[i] else LastLaid(es[..n], fn, i)
  }

  /** The length the last final frame gave the round; none yet. */
  function Announced(es: seq<Arrival>): int
    decreases |es|
  {
    if es == [] then -1 else
      var e := es[|es| - 1];
      if e.Add? && e.isFinal && e.totalFrames > 0 then e.totalFrames else Announced(es[..|es| - 1])
  }

  predicate Touched(es: seq<Arrival>, fn: nat) {
    exists e <- es :: e.fn == fn
  }

  /** What stands at a place of a slot, in a buffer that may not reach so far yet. */
  function At(buf: seq<Frame>, w: nat, fn: nat, i: nat): Frame {
    if 0 <= fn * w + i < |buf| then buf[fn * w + i] else SILENT
  }

  lemma SlotsLie(fn: nat, g: nat, w: nat)
    ensures 0 <= fn * w && 0 <= g * w && (fn + 1) * w == fn * w + w
    ensures if g == fn then fn * w == g * w else fn * w + w <= g * w || g * w + w <= fn * w
  {
    SlotFits(fn, fn + 1, w);
    SlotFits(g, g + 1, w);
    if g != fn {
      SlotsApart(fn, g, w);
    }
  }

  /** Placing changes its own slot, as far as the PCM reaches, and nothing else. */
  lemma PlaceReads(p: Partial, w: nat, fn: nat, pcm: seq<Frame>, g: nat, i: nat)
    requires i < w
    ensures At(Place(p, w, fn, pcm).pcm, w, g, i) == if g == fn && i < |pcm| then pcm[i] else At(p.pcm, w, g, i)
  {
    hide Place;
    SlotsLie(fn, g, w);
    PlacedBuffer(p, w, fn, pcm);
    hide Laid;
    var buf, a, b := Place(p, w, fn, pcm).pcm, fn * w, g * w;
    PlaceReadsAt(p.pcm, buf, w, a, pcm, b, i, g == fn);
    AtIs(buf, w, g, i, b);
    AtIs(p.pcm, w, g, i, b);
  }

  lemma AtIs(buf: seq<Frame>, w: nat, g: nat, i: nat, b: nat)
    requires b == g * w
    ensures At(buf, w, g, i) == if b + i < |buf| then buf[b + i] else SILENT
  {
  }

  /** buf is `was`, grown to hold a slot at a, with the PCM over the slot as far as it reaches. */
  predicate Laid(was: seq<Frame>, buf: seq<Frame>, w: nat, a: nat, pcm: seq<Frame>) {
    && |buf| == (if |was| < a + w then a + w else |was|)
    && forall k :: 0 <= k < |buf| ==>
         buf[k] == if a <= k < a + w && k - a < |pcm| then pcm[k - a] else if k < |was| then was[k] else SILENT
  }

  lemma PlaceReadsAt(was: seq<Frame>, buf: seq<Frame>, w: nat, a: nat, pcm: seq<Frame>, b: nat, i: nat, same: bool)
    requires i < w && Laid(was, buf, w, a, pcm)
    requires if same then a == b else a + w <= b || b + w <= a
    ensures (if b + i < |buf| then buf[b + i] else SILENT)
         == if same && i < |pcm| then pcm[i] else if b + i < |was| then was[b + i] else SILENT
  {
  }

  lemma PlacedBuffer(p: Partial, w: nat, fn: nat, pcm: seq<Frame>)
    ensures 0 <= fn * w
    ensures var a := fn * w; Laid(p.pcm, Place(p, w, fn, pcm).pcm, w, a, pcm)
  {
    SlotsLie(fn, fn, w);
    var a, x := fn * w, if w > |pcm| then pcm else pcm[..w];
    var base := if |p.pcm| < a + w then Fit(p.pcm, a + w) else p.pcm;
    assert Place(p, w, fn, pcm).pcm == Overwrite(base, a, x);
    hide Place, Fit, Overwrite;
    OverwriteLays(p.pcm, base, w, a, pcm, x);
  }

  lemma OverwriteLays(was: seq<Frame>, base: seq<Frame>, w: nat, a: nat, pcm: seq<Frame>, x: seq<Frame>)
    requires base == (if |was| < a + w then Fit(was, a + w) else was) && x == if w > |pcm| then pcm else pcm[..w]
    ensures Laid(was, Overwrite(base, a, x), w, a, pcm)
  {
    hide Fit, Overwrite;
  }

  /** CONCEALMENT STAYS IN ITS SLOT: it changes nothing in any other, and nothing at all where the slot is taken. */
  lemma ConcealmentStaysInItsSlot(p: Partial, w: nat, fn: nat, pcm: seq<Frame>, g: nat, i: nat)
    requires i < w && (g != fn || SlotState(p, fn) != Empty)
    ensures At(AddConcealed(p, w, fn, pcm).pcm, w, g, i) == At(p.pcm, w, g, i)
    ensures SlotState(AddConcealed(p, w, fn, pcm), g) == SlotState(p, g)
    ensures AddConcealed(p, w, fn, pcm).total == p.total && AddConcealed(p, w, fn, pcm).received == p.received
  {
    hide Place;
    PlaceReads(p, w, fn, pcm, g, i);
    PlaceTotal(p, w, fn, pcm);
  }

  // ---------------------------------------------------------------- runs of arrivals

  /** The partial says of every slot what the arrivals say. */
  ghost predicate Reads(p: Partial, es: seq<Arrival>, w: nat) {
    && (forall fn: nat :: SlotState(p, fn) == if fn in Reals(es) then Real else if Touched(es, fn) then Plc else Empty)
    && (forall fn: nat, i: nat :: i < w ==> At(p.pcm, w, fn, i) == LastLaid(es, fn, i))
    && (forall e <- es :: e.fn < p.maxFrame)
    && (p.maxFrame > 0 ==> Touched(es, p.maxFrame - 1))
    && p.total == Announced(es)
  }

  lemma TouchedGrows(es: seq<Arrival>, fn: nat)
    requires es != []
    ensures var n := |es| - 1; Touched(es, fn) <==> Touched(es[..n], fn) || es[n].fn == fn
  {
    var n := |es| - 1;
    assert es == es[..n] + [es[n]];
  }

  lemma RealsAreTouched(es: seq<Arrival>, fn: nat)
    ensures fn in Reals(es) ==> Touched(es, fn)
  {
  }

  /** Whether an arrival counts shows in its slot: it is real, or the slot is still empty. */
  lemma CountsIffOpen(es: seq<Arrival>)
    requires es != []
    ensures var n := |es| - 1; Counts(es, n) <==> es[n].Add? || !Touched(es[..n], es[n].fn)
  {
    var n := |es| - 1;
    if Counts(es, n) && !es[n].Add? {
      forall e | e in es[..n]
        ensures e.fn != es[n].fn
      {
        var i :| 0 <= i < n && es[..n][i] == e;
        assert es[i] == e;
      }
    }
    if !Counts(es, n) {
      var i :| 0 <= i < n && es[i].fn == es[n].fn;
      assert es[..n][i] in es[..n];
    }
  }

  lemma ApplyPlaces(p: Partial, w: nat, e: Arrival, open: bool, g: nat, i: nat)
    requires i < w && (open <==> e.Add? || SlotState(p, e.fn) == Empty)
    ensures var q := Apply(p, w, e);
            && At(q.pcm, w, g, i) == (if open && g == e.fn && i < |e.pcm| then e.pcm[i] else At(p.pcm, w, g, i))
            && SlotState(q, g) == (if open && g == e.fn then if e.Add? then Real else Plc else SlotState(p, g))
  {
    hide Place;
    match e {
      case Add(fn, pcm, isFinal, total) =>
        var p0 := if isFinal && total > 0 then p.(total := total) else p;
        PlaceReads(p0, w, fn, pcm, g, i);
        PlaceTotal(p0, w, fn, pcm);
      case Conceal(fn, pcm) =>
        PlaceReads(p, w, fn, pcm, g, i);
        PlaceTotal(p, w, fn, pcm);
    }
  }

  lemma ApplyStates(p: Partial, w: nat, e: Arrival, g: nat)
    ensures var q := Apply(p, w, e);
            SlotState(q, g) == if g == e.fn && (e.Add? || SlotState(p, e.fn) == Empty) then if e.Add? then Real else Plc
                               else SlotState(p, g)
  {
    hide Place;
    match e {
      case Add(fn, pcm, isFinal, total) =>
        PlaceTotal(if isFinal && total > 0 then p.(total := total) else p, w, fn, pcm);
      case Conceal(fn, pcm) =>
        PlaceTotal(p, w, fn, pcm);
    }
  }

  lemma ApplyReach(p: Partial, w: nat, e: Arrival)
    ensures Apply(p, w, e).maxFrame
         == if (e.Add? || SlotState(p, e.fn) == Empty) && e.fn + 1 > p.maxFrame then e.fn + 1 else p.maxFrame
  {
    hide Fit, Overwrite;
  }

  lemma LastLaidStep(es: seq<Arrival>, fn: nat, i: nat)
    requires es != []
    ensures var n := |es| - 1;
            LastLaid(es, fn, i)
            == if es[n].fn == fn && (es[n].Add? || !Touched(es[..n], fn)) && i < |es[n].pcm| then es[n].pcm[i]
               else LastLaid(es[..n], fn, i)
  {
    CountsIffOpen(es);
  }

  lemma StepReads(p: Partial, es: seq<Arrival>, w: nat)
    requires es != [] && Reads(p, es[..|es| - 1], w)
    ensures Reads(Apply(p, w, es[|es| - 1]), es, w)
  {
    hide Apply, Reals, Touched, LastLaid, At;
    var n := |es| - 1;
    var e, fs := es[n], es[..n];
    var q := Apply(p, w, e);
    RealsAreTouched(fs, e.fn);
    var open := e.Add? || SlotState(p, e.fn) == Empty;
    assert !Touched(fs, e.fn) <==> SlotState(p, e.fn) == Empty;
    forall fn: nat
      ensures SlotState(q, fn) == if fn in Reals(es) then Real else if Touched(es, fn) then Plc else Empty
    {
      ApplyStates(p, w, e, fn);
      RealsGrow(es);
      TouchedGrows(es, fn);
    }
    forall fn: nat, i: nat | i < w
      ensures At(q.pcm, w, fn, i) == LastLaid(es, fn, i)
    {
      ApplyPlaces(p, w, e, open, fn, i);
      LastLaidStep(es, fn, i);
    }
    StepReach(p, es, w);
    StepTotal(p, w, e);
  }

  lemma StepTotal(p: Partial, w: nat, e: Arrival)
    ensures Apply(p, w, e).total == if e.Add? && e.isFinal && e.totalFrames > 0 then e.totalFrames else p.total
  {
    hide Fit, Overwrite;
  }

  lemma StepReach(p: Partial, es: seq<Arrival>, w: nat)
    requires es != []
    requires var fs := es[..|es| - 1];
             && (forall e <- fs :: e.fn < p.maxFrame) && (p.maxFrame > 0 ==> Touched(fs, p.maxFrame - 1))
             && (SlotState(p, es[|es| - 1].fn) == Empty <==> !Touched(fs, es[|es| - 1].fn))
    ensures var q := Apply(p, w, es[|es| - 1]);
            (forall e <- es :: e.fn < q.maxFrame) && (q.maxFrame > 0 ==> Touched(es, q.maxFrame - 1))
  {
    hide Apply;
    var n := |es| - 1;
    var fs := es[..n];
    assert es == fs + [es[n]];
    ApplyReach(p, w, es[n]);
  }

  lemma {:induction false} ArrivalsRead(es: seq<Arrival>, w: nat)
    ensures Reads(Rebuilt(es, w), es, w)
    decreases |es|
  {
    if es == [] {
      assert Reals(es) == {};
    } else {
      hide Reads, Apply;
      ArrivalsRead(es[..|es| - 1], w);
      StepReads(Rebuilt(es[..|es| - 1], w), es, w);
    }
  }

  /** WHAT A ROUND HOLDS, after any arrivals of any lengths in any order: it reaches just past the highest frame that
      arrived, or to the length announced last; a slot is real once one of its frames was, concealed if only concealment came; and every
      place of it reads back as the last frame laid there, by a real arrival or by the concealment that came first. */
  lemma RoundReadsBack(es: seq<Arrival>, w: nat, fn: nat, i: nat)
    requires i < w
    ensures var p := Rebuilt(es, w); var pcm := Sized(p, w);
            && (fn < Frames(p) <==> fn < Announced(es) || exists e <- es :: fn <= e.fn)
            && SlotState(p, fn) == (if fn in Reals(es) then Real else if Touched(es, fn) then Plc else Empty)
            && (fn < Frames(p) ==> 0 <= fn * w + i < |pcm| && pcm[fn * w + i] == LastLaid(es, fn, i))
  {
    hide Rebuilt, LastLaid, Reals;
    ArrivalsRead(es, w);
    var p := Rebuilt(es, w);
    if fn < p.maxFrame {
      var e :| e in es && e.fn == p.maxFrame - 1;
    }
    if fn < Frames(p) {
      SlotFits(fn, Frames(p), w);
    }
  }

  lemma {:induction false} FirstConcealmentStays(es: seq<Arrival>, fn: nat, j: nat, i: nat)
    requires j < |es| && es[j].fn == fn && (forall k :: 0 <= k < j ==> es[k].fn != fn) && i < |es[j].pcm|
    requires forall e <- es :: e.fn == fn ==> e.Conceal?
    ensures LastLaid(es, fn, i) == es[j].pcm[i]
    decreases |es|
  {
    var n := |es| - 1;
    if j < n {
      FirstConcealmentStays(es[..n], fn, j, i);
      assert es[n] in es;
    }
  }

  /** CONCEALMENT READS BACK: a slot no real frame came for holds the first concealment that did. */
  lemma ConcealmentReadsBack(es: seq<Arrival>, w: nat, fn: nat, j: nat)
    requires fn !in Reals(es) && j < |es| && es[j].fn == fn && (forall k :: 0 <= k < j ==> es[k].fn != fn) && |es[j].pcm| == w
    ensures SlotState(Rebuilt(es, w), fn) == Plc
    ensures SlotPcm(Sized(Rebuilt(es, w), w), w, fn) == es[j].pcm
  {
    hide Rebuilt, LastLaid;
    var p := Rebuilt(es, w);
    assert es[j] in es;
    assert Touched(es, fn);
    ArrivalsRead(es, w);
    assert fn < p.maxFrame <= Frames(p);
    SlotFits(fn, Frames(p), w);
    var pcm := Sized(p, w);
    forall i | 0 <= i < w
      ensures SlotPcm(pcm, w, fn)[i] == es[j].pcm[i]
    {
      RoundReadsBack(es, w, fn, i);
      FirstConcealmentStays(es, fn, j, i);
    }
  }

  /** Slots below n that nothing came for. */
  ghost function Untouched(es: seq<Arrival>, n: nat): set<nat> {
    set fn: nat | fn < n && !Touched(es, fn)
  }

  /** What is missing from a round is what nothing came for, real or concealed. */
  lemma {:induction false} HolesAreUntouched(es: seq<Arrival>, w: nat, n: nat)
    ensures Holes(Rebuilt(es, w), n) == |Untouched(es, n)|
    decreases n
  {
    hide Rebuilt, Touched;
    if n > 0 {
      HolesAreUntouched(es, w, n - 1);
      ArrivalsRead(es, w);
      RealsAreTouched(es, n - 1);
      var before := Untouched(es, n - 1);
      if Touched(es, n - 1) {
        assert Untouched(es, n) == before;
      } else {
        assert Untouched(es, n) == before + {n - 1};
      }
    }
  }
}
