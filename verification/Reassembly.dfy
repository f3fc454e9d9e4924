/** Rebuilding a round from frames that arrive out of order, twice, or not at all (internal/emit/reassembler.go). */
module Reassembly {
  import opened Audio
  import opened Interval

  /** Where a slot's audio came from. */
  datatype Slot = Empty | Plc | Real

  datatype Partial = Partial(pcm: seq<Frame>, state: seq<Slot>, received: int, concealed: int, total: int, maxFrame: nat)

  const FRESH := Partial([], [], 0, 0, -1, 0)

  function SlotState(p: Partial, fn: nat): Slot {
    if fn < |p.state| then p.state[fn] else Empty
  }

  function Grown(state: seq<Slot>, fn: nat): (r: seq<Slot>)
    ensures fn < |r| && |r| == if fn < |state| then |state| else fn + 1
    ensures forall i :: 0 <= i < |r| ==> r[i] == if i < |state| then state[i] else Empty
  {
    if fn < |state| then state else state + seq(fn + 1 - |state|, _ => Empty)
  }

  /** Copy one frame's PCM into its slot, growing the buffer as needed. */
  function Place(p: Partial, w: nat, fn: nat, pcm: seq<Frame>): Partial {
    SlotFits(fn, fn + 1, w);
    var need := (fn + 1) * w;
    var buf := if |p.pcm| < need then Fit(p.pcm, need) else p.pcm;
    p.(maxFrame := if fn + 1 > p.maxFrame then fn + 1 else p.maxFrame,
       pcm := Overwrite(buf, fn * w, if w > |pcm| then pcm else pcm[..w]))
  }

  lemma SlotFits(fn: nat, n: nat, w: nat)
    requires fn < n
    ensures 0 <= fn * w && fn * w + w <= n * w
  {
    MulIncreasing(0, fn, w);
    MulIncreasing(fn + 1, n, w);
    assert (fn + 1) * w == fn * w + w;
  }

  function AddFrame(p: Partial, w: nat, fn: nat, pcm: seq<Frame>, isFinal: bool, totalFrames: int): Partial {
    var q := Place(if isFinal && totalFrames > 0 then p.(total := totalFrames) else p, w, fn, pcm);
    var was := SlotState(p, fn);
    q.(concealed := if was == Plc then q.concealed - 1 else q.concealed,
       received := if was == Real then q.received else q.received + 1,
       state := Grown(q.state, fn)[fn := Real])
  }

  function AddConcealed(p: Partial, w: nat, fn: nat, pcm: seq<Frame>): Partial {
    if SlotState(p, fn) != Empty then p else
      var q := Place(p, w, fn, pcm);
      q.(state := Grown(q.state, fn)[fn := Plc], concealed := q.concealed + 1)
  }

  predicate Complete(p: Partial) {
    p.total > 0 && p.received >= p.total
  }

  /** The frame count an interval is measured against. */
  function Frames(p: Partial): nat {
    if p.total > p.maxFrame then p.total else p.maxFrame
  }

  function Sized(p: Partial, w: nat): (s: seq<Frame>)
    ensures |s| == Frames(p) * w
  {
    Fit(p.pcm, Frames(p) * w)
  }

  function SlotPcm(s: seq<Frame>, w: nat, fn: nat): seq<Frame> {
    if 0 <= fn * w <= fn * w + w <= |s| then s[fn * w..fn * w + w] else []
  }

  // ---------------------------------------------------------------- the books of one round

  function Count(state: seq<Slot>, k: Slot): nat
    decreases |state|
  {
    if state == [] then 0 else Count(state[..|state| - 1], k) + if state[|state| - 1] == k then 1 else 0
  }

  lemma {:induction false} CountGrown(state: seq<Slot>, fn: nat, k: Slot)
    requires k != Empty && fn >= |state|
    ensures Count(Grown(state, fn), k) == Count(state, k)
    decreases fn
  {
    var g := Grown(state, fn);
    if fn == |state| {
      assert g[..|g| - 1] == state;
    } else {
      assert g[..|g| - 1] == Grown(state, fn - 1);
      CountGrown(state, fn - 1, k);
    }
  }

  lemma {:induction false} CountSet(state: seq<Slot>, fn: nat, v: Slot, k: Slot)
    requires fn < |state|
    ensures Count(state[fn := v], k) == Count(state, k) - (if state[fn] == k then 1 else 0) + (if v == k then 1 else 0)
    decreases |state|
  {
    var n := |state| - 1;
    if fn < n {
      CountSet(state[..n], fn, v, k);
      assert state[fn := v][..n] == state[..n][fn := v];
    } else {
      assert state[fn := v][..n] == state[..n];
    }
  }

  lemma CountSlot(p: Partial, fn: nat, v: Slot, k: Slot)
    requires k != Empty
    ensures Count(Grown(p.state, fn)[fn := v], k)
         == Count(p.state, k) - (if SlotState(p, fn) == k then 1 else 0) + (if v == k then 1 else 0)
  {
    if fn >= |p.state| {
      CountGrown(p.state, fn, k);
    }
    CountSet(Grown(p.state, fn), fn, v, k);
  }

  /** A slot nothing was placed in is silent. */
  predicate SilentAt(p: Partial, w: nat, fn: nat) {
    forall i {:trigger p.pcm[i]} :: fn * w <= i < fn * w + w && 0 <= i < |p.pcm| ==> p.pcm[i] == SILENT
  }

  ghost predicate Balanced(p: Partial, w: nat) {
    && |p.state| == p.maxFrame && |p.pcm| >= p.maxFrame * w
    && p.received == Count(p.state, Real) && p.concealed == Count(p.state, Plc)
    && (forall fn :: SlotState(p, fn) == Empty ==> SilentAt(p, w, fn))
  }

  lemma FreshBalanced(w: nat)
    ensures Balanced(FRESH, w)
  {
  }

  /** Two slots do not overlap. */
  lemma SlotsApart(f: nat, g: nat, w: nat)
    requires f != g
    ensures f * w + w <= g * w || g * w + w <= f * w
  {
    if f < g {
      SlotFits(f, g, w);
    } else {
      SlotFits(g, f, w);
    }
  }

  /** Placing a frame leaves every other slot's stretch of the buffer as it was. */
  lemma PlaceAround(p: Partial, w: nat, fn: nat, pcm: seq<Frame>, g: nat)
    requires g != fn
    ensures var buf := Place(p, w, fn, pcm).pcm;
            && |buf| >= |p.pcm| && 0 <= g * w
            && forall i :: g * w <= i < g * w + w && i < |buf| ==> buf[i] == if i < |p.pcm| then p.pcm[i] else SILENT
  {
    SlotsApart(fn, g, w);
    SlotFits(fn, fn + 1, w);
    SlotFits(g, g + 1, w);
  }

  lemma PlaceKeeps(p: Partial, w: nat, fn: nat, pcm: seq<Frame>, g: nat)
    requires g != fn
    ensures SilentAt(p, w, g) ==> SilentAt(Place(p, w, fn, pcm), w, g)
    ensures (g + 1) * w <= |p.pcm| ==> SlotPcm(Place(p, w, fn, pcm).pcm, w, g) == SlotPcm(p.pcm, w, g)
  {
    hide Place;
    PlaceAround(p, w, fn, pcm, g);
    assert (g + 1) * w == g * w + w;
  }

  lemma PlaceSets(p: Partial, w: nat, fn: nat, pcm: seq<Frame>)
    requires |pcm| == w
    ensures |Place(p, w, fn, pcm).pcm| >= (fn + 1) * w
    ensures SlotPcm(Place(p, w, fn, pcm).pcm, w, fn) == pcm
  {
    SlotFits(fn, fn + 1, w);
  }

  lemma PlaceLength(p: Partial, w: nat, fn: nat, pcm: seq<Frame>)
    ensures |Place(p, w, fn, pcm).pcm| == if |p.pcm| < (fn + 1) * w then (fn + 1) * w else |p.pcm|
  {
  }

  /** Received and concealed always equal the number of real and concealed slots; unfilled slots are silent. */
  lemma AddKeepsBooks(p: Partial, w: nat, fn: nat, pcm: seq<Frame>, isFinal: bool, totalFrames: int)
    requires Balanced(p, w)
    ensures Balanced(AddFrame(p, w, fn, pcm, isFinal, totalFrames), w)
  {
    var q := AddFrame(p, w, fn, pcm, isFinal, totalFrames);
    var p0 := if isFinal && totalFrames > 0 then p.(total := totalFrames) else p;
    assert q.pcm == Place(p0, w, fn, pcm).pcm;
    hide Place, Count;
    SlotBooks(p, p0, q, w, fn, pcm, Real);
  }

  lemma ConcealKeepsBooks(p: Partial, w: nat, fn: nat, pcm: seq<Frame>)
    requires Balanced(p, w)
    ensures Balanced(AddConcealed(p, w, fn, pcm), w)
  {
    if SlotState(p, fn) == Empty {
      hide Place, Count;
      SlotBooks(p, p, AddConcealed(p, w, fn, pcm), w, fn, pcm, Plc);
    }
  }

  lemma SlotBooks(p: Partial, p0: Partial, q: Partial, w: nat, fn: nat, pcm: seq<Frame>, v: Slot)
    requires Balanced(p, w) && p0 == p.(total := p0.total) && v != Empty
    requires q.pcm == Place(p0, w, fn, pcm).pcm && q.maxFrame == Place(p0, w, fn, pcm).maxFrame
    requires q.state == Grown(p.state, fn)[fn := v]
    requires q.received == p.received - (if SlotState(p, fn) == Real then 1 else 0) + (if v == Real then 1 else 0)
    requires q.concealed == p.concealed - (if SlotState(p, fn) == Plc then 1 else 0) + (if v == Plc then 1 else 0)
    ensures Balanced(q, w)
  {
    CountSlot(p, fn, v, Real);
    CountSlot(p, fn, v, Plc);
    assert q.maxFrame == if fn + 1 > p.maxFrame then fn + 1 else p.maxFrame;
    PlaceLength(p0, w, fn, pcm);
    hide Place, Count;
    forall g | SlotState(q, g) == Empty
      ensures SilentAt(q, w, g)
    {
      assert SlotState(p, g) == Empty && g != fn;
      assert SilentAt(p, w, g);
      assert SilentAt(p0, w, g);
      PlaceKeeps(p0, w, fn, pcm, g);
    }
  }

  // ---------------------------------------------------------------- runs of arrivals

  datatype Arrival =
    | Add(fn: nat, pcm: seq<Frame>, isFinal: bool, totalFrames: int)
    | Conceal(fn: nat, pcm: seq<Frame>)

  function Apply(p: Partial, w: nat, e: Arrival): Partial {
    match e
    case Add(fn, pcm, isFinal, total) => AddFrame(p, w, fn, pcm, isFinal, total)
    case Conceal(fn, pcm) => AddConcealed(p, w, fn, pcm)
  }

  /** A round's partial after a sequence of arrivals. */
  function Rebuilt(es: seq<Arrival>, w: nat): Partial
    decreases |es|
  {
    if es == [] then FRESH else Apply(Rebuilt(es[..|es| - 1], w), w, es[|es| - 1])
  }

  lemma {:induction false} RebuiltKeepsBooks(es: seq<Arrival>, w: nat)
    ensures Balanced(Rebuilt(es, w), w)
    decreases |es|
  {
    hide Balanced, AddFrame, AddConcealed;
    if es == [] {
      FreshBalanced(w);
    } else {
      RebuiltKeepsBooks(es[..|es| - 1], w);
      match es[|es| - 1] {
        case Add(fn, pcm, isFinal, total) => AddKeepsBooks(Rebuilt(es[..|es| - 1], w), w, fn, pcm, isFinal, total);
        case Conceal(fn, pcm) => ConcealKeepsBooks(Rebuilt(es[..|es| - 1], w), w, fn, pcm);
      }
    }
  }

  /** The frame numbers that arrived for real. */
  function Reals(es: seq<Arrival>): set<nat> {
    set e | e in es && e.Add? :: e.fn
  }

  /** What the sender sent: each real arrival is a full frame of it, and finals agree on the total. */
  predicate SentBy(es: seq<Arrival>, w: nat, sent: map<nat, seq<Frame>>, total: int) {
    forall e <- es ::
      && (e.Add? ==> e.fn in sent && e.pcm == sent[e.fn] && |e.pcm| == w)
      && (e.Add? && e.isFinal && e.totalFrames > 0 ==> e.totalFrames == total)
  }

  predicate FinalSeen(es: seq<Arrival>) {
    exists e <- es :: e.Add? && e.isFinal && e.totalFrames > 0
  }

  /** What arrivals leave behind depends on the set of real frames alone: which slots are real, how many, what they
      hold, and the total. */
  ghost predicate Determined(p: Partial, es: seq<Arrival>, w: nat, sent: map<nat, seq<Frame>>, total: int) {
    && (forall fn :: SlotState(p, fn) == Real <==> fn in Reals(es))
    && p.received == |Reals(es)|
    && p.total == (if FinalSeen(es) then total else -1)
    && Holds(p.pcm, Reals(es), w, sent)
  }

  lemma RealsGrow(es: seq<Arrival>)
    requires es != []
    ensures var e, before := es[|es| - 1], Reals(es[..|es| - 1]);
            Reals(es) == if e.Add? then before + {e.fn} else before
  {
    var e, fs := es[|es| - 1], es[..|es| - 1];
    assert es == fs + [e];
    assert e.Add? ==> e.fn in Reals(es);
  }

  lemma {:induction false} ArrivalsDetermine(es: seq<Arrival>, w: nat, sent: map<nat, seq<Frame>>, total: int)
    requires SentBy(es, w, sent, total)
    ensures Determined(Rebuilt(es, w), es, w, sent, total)
    decreases |es|
  {
    if es == [] {
      assert Reals(es) == {};
    } else {
      hide Place, Determined, AddFrame, AddConcealed;
      var e, fs := es[|es| - 1], es[..|es| - 1];
      assert es == fs + [e];
      ArrivalsDetermine(fs, w, sent, total);
      RealsGrow(es);
      if e.Add? {
        RealArrival(Rebuilt(fs, w), es, w, sent, total);
      } else {
        ConcealedArrival(Rebuilt(fs, w), es, w, sent, total);
      }
    }
  }

  /** Every real slot holds what the sender sent. */
  ghost predicate Holds(buf: seq<Frame>, reals: set<nat>, w: nat, sent: map<nat, seq<Frame>>) {
    forall fn <- reals :: fn in sent && (fn + 1) * w <= |buf| && SlotPcm(buf, w, fn) == sent[fn]
  }

  lemma PlaceHolds(p: Partial, reals: set<nat>, w: nat, fn: nat, pcm: seq<Frame>, sent: map<nat, seq<Frame>>)
    requires Holds(p.pcm, reals, w, sent)
    requires fn in reals ==> |pcm| == w && pcm == sent[fn]
    ensures Holds(Place(p, w, fn, pcm).pcm, reals, w, sent)
    ensures fn in sent && |pcm| == w && pcm == sent[fn] ==> Holds(Place(p, w, fn, pcm).pcm, reals + {fn}, w, sent)
  {
    PlaceLength(p, w, fn, pcm);
    if |pcm| == w {
      PlaceSets(p, w, fn, pcm);
    }
    hide Place, SlotPcm;
    forall g | g in reals && g != fn
      ensures (g + 1) * w <= |Place(p, w, fn, pcm).pcm| && SlotPcm(Place(p, w, fn, pcm).pcm, w, g) == sent[g]
    {
      PlaceKeeps(p, w, fn, pcm, g);
    }
  }

  lemma FinalGrows(es: seq<Arrival>)
    requires es != []
    ensures var e := es[|es| - 1];
            FinalSeen(es) <==> FinalSeen(es[..|es| - 1]) || (e.Add? && e.isFinal && e.totalFrames > 0)
  {
    assert es == es[..|es| - 1] + [es[|es| - 1]];
  }

  lemma RealArrival(p: Partial, es: seq<Arrival>, w: nat, sent: map<nat, seq<Frame>>, total: int)
    requires es != [] && es[|es| - 1].Add? && SentBy(es, w, sent, total)
    requires Determined(p, es[..|es| - 1], w, sent, total)
    ensures Determined(Apply(p, w, es[|es| - 1]), es, w, sent, total)
  {
    hide Place, SlotPcm, Reals, FinalSeen, AddFrame, Holds;
    var e, fs := es[|es| - 1], es[..|es| - 1];
    assert e in es;
    RealsGrow(es);
    FinalGrows(es);
    AddEffect(p, w, e);
    PlaceHolds(p.(total := Apply(p, w, e).total), Reals(fs), w, e.fn, e.pcm, sent);
    hide SentBy, Apply, Grown;
    DeterminedBy(p, Apply(p, w, e), fs, es, e, w, sent, total);
  }

  lemma AddEffect(p: Partial, w: nat, e: Arrival)
    requires e.Add?
    ensures var q := Apply(p, w, e); var total := if e.isFinal && e.totalFrames > 0 then e.totalFrames else p.total;
            && q.total == total && q.pcm == Place(p.(total := total), w, e.fn, e.pcm).pcm
            && (forall fn :: SlotState(q, fn) == if fn == e.fn then Real else SlotState(p, fn))
            && q.received == if SlotState(p, e.fn) == Real then p.received else p.received + 1
  {
  }

  lemma DeterminedBy(p: Partial, q: Partial, fs: seq<Arrival>, es: seq<Arrival>, e: Arrival, w: nat,
                     sent: map<nat, seq<Frame>>, total: int)
    requires Determined(p, fs, w, sent, total) && e.Add?
    requires Reals(es) == Reals(fs) + {e.fn} && Holds(q.pcm, Reals(es), w, sent)
    requires forall fn :: SlotState(q, fn) == if fn == e.fn then Real else SlotState(p, fn)
    requires q.received == if SlotState(p, e.fn) == Real then p.received else p.received + 1
    requires q.total == if FinalSeen(es) then total else -1
    ensures Determined(q, es, w, sent, total)
  {
    hide Reals, FinalSeen, Holds;
    var before, after := Reals(fs), Reals(es);
    forall fn: nat
      ensures SlotState(q, fn) == Real <==> fn in after
    {
      assert fn in after <==> fn in before || fn == e.fn;
    }
    if e.fn in before {
      assert after == before;
    } else {
      assert |after| == |before| + 1;
    }
  }

  lemma PlaceTotal(p: Partial, w: nat, fn: nat, pcm: seq<Frame>)
    ensures var q := Place(p, w, fn, pcm); q.total == p.total && q.received == p.received && q.state == p.state
  {
  }

  lemma ConcealedArrival(p: Partial, es: seq<Arrival>, w: nat, sent: map<nat, seq<Frame>>, total: int)
    requires es != [] && es[|es| - 1].Conceal? && SentBy(es, w, sent, total)
    requires Determined(p, es[..|es| - 1], w, sent, total)
    ensures Determined(Apply(p, w, es[|es| - 1]), es, w, sent, total)
  {
    hide Place, SlotPcm;
    var e, fs := es[|es| - 1], es[..|es| - 1];
    assert es == fs + [e];
    RealsGrow(es);
    assert FinalSeen(es) <==> FinalSeen(fs);
    hide Reals, SentBy, FinalSeen;
    if SlotState(p, e.fn) == Empty {
      PlaceHolds(p, Reals(fs), w, e.fn, e.pcm, sent);
      PlaceTotal(p, w, e.fn, e.pcm);
      assert Holds(Apply(p, w, e).pcm, Reals(es), w, sent);
    }
  }

  /** ORDER INDEPENDENCE. Two sequences of arrivals that carry the same real frames, in whatever order, with
      whatever duplicates and concealment between them, rebuild the same real slots with the same content, and
      agree on completeness. */
  lemma OrderDoesNotMatter(es: seq<Arrival>, fs: seq<Arrival>, w: nat, sent: map<nat, seq<Frame>>, total: int)
    requires SentBy(es, w, sent, total) && SentBy(fs, w, sent, total)
    requires forall e: Arrival :: e.Add? ==> (e in es <==> e in fs)
    ensures var p, q := Rebuilt(es, w), Rebuilt(fs, w);
            && (forall fn :: SlotState(p, fn) == Real <==> SlotState(q, fn) == Real)
            && (forall fn :: SlotState(p, fn) == Real ==> SlotPcm(p.pcm, w, fn) == SlotPcm(q.pcm, w, fn))
            && p.received == q.received && p.total == q.total && (Complete(p) <==> Complete(q))
  {
    hide Rebuilt;
    ArrivalsDetermine(es, w, sent, total);
    ArrivalsDetermine(fs, w, sent, total);
    assert Reals(es) == Reals(fs);
    assert FinalSeen(es) <==> FinalSeen(fs);
  }

  // ---------------------------------------------------------------- completeness

  function Below(n: nat): (r: set<nat>)
    ensures |r| == n
    ensures forall i: nat :: i in r <==> i < n
  {
    if n == 0 then {} else Below(n - 1) + {n - 1}
  }

  /** Exactly when a round counts as complete: the holes below its total are no more than the real frames that
      arrived numbered at or beyond it. */
  lemma CompleteIff(es: seq<Arrival>, w: nat, sent: map<nat, seq<Frame>>, total: int)
    requires SentBy(es, w, sent, total)
    ensures Complete(Rebuilt(es, w))
            <==> FinalSeen(es) && total > 0 && |Below(total) - Reals(es)| <= |Reals(es) - Below(total)|
  {
    hide Rebuilt;
    ArrivalsDetermine(es, w, sent, total);
    if FinalSeen(es) && total > 0 {
      var r, b := Reals(es), Below(total);
      assert r == (r * b) + (r - b) && b == (r * b) + (b - r);
    }
  }

  /** With every frame numbered below the total, complete means that every slot below it is real. */
  lemma CompleteMeansAllReal(es: seq<Arrival>, w: nat, sent: map<nat, seq<Frame>>, total: int)
    requires SentBy(es, w, sent, total) && total > 0
    requires forall e <- es :: e.Add? ==> e.fn < total
    ensures Complete(Rebuilt(es, w))
            <==> FinalSeen(es) && forall fn: nat :: fn < total ==> SlotState(Rebuilt(es, w), fn) == Real
  {
    CompleteIff(es, w, sent, total);
    ArrivalsDetermine(es, w, sent, total);
    var r := Reals(es);
    assert forall fn <- r :: fn < total;
    hide Rebuilt, Reals, Complete, SentBy, FinalSeen, Below;
    NoHoles(r, total);
    assert forall fn: nat :: SlotState(Rebuilt(es, w), fn) == Real <==> fn in r;
  }

  lemma NoHoles(r: set<nat>, n: nat)
    requires forall i <- r :: i < n
    ensures r - Below(n) == {}
    ensures |Below(n) - r| == 0 <==> forall i: nat :: i < n ==> i in r
  {
    hide Below;
    if |Below(n) - r| == 0 {
      assert Below(n) - r == {};
      assert forall i: nat :: i in Below(n) ==> i in r;
    }
    if forall i: nat :: i < n ==> i in r {
      assert Below(n) - r == {};
    }
  }

  /** A frame numbered at or beyond the total fakes completeness over a hole. */
  lemma StrayFrameFakesComplete()
    ensures var es := [Add(1, [SILENT], true, 2), Add(2, [SILENT], false, 0)];
            Complete(Rebuilt(es, 1)) && SlotState(Rebuilt(es, 1), 0) == Empty
  {
    var es := [Add(1, [SILENT], true, 2), Add(2, [SILENT], false, 0)];
    assert es[..1] == [Add(1, [SILENT], true, 2)] && es[..1][..0] == [];
    assert Rebuilt([], 1) == FRESH;
    assert Rebuilt(es[..1], 1) == Apply(FRESH, 1, es[0]);
    hide Place;
  }

  // ---------------------------------------------------------------- what playback reads

  /** A run of real slots from the first on reads back as the stream they were cut from. */
  lemma {:induction false} RealSlotsReadBack(es: seq<Arrival>, w: nat, sent: map<nat, seq<Frame>>, total: int, n: nat,
                                             s: seq<Frame>, base: nat)
    requires SentBy(es, w, sent, total)
    requires forall k: nat :: k < n ==> k in Reals(es)
    requires forall k: nat :: k < n ==> k in sent && SlotIsStream(sent[k], w, k, s, base)
    ensures var pcm := Sized(Rebuilt(es, w), w);
            n * w <= |pcm| && (n > 0 ==> base + n * w <= |s|) && pcm[..n * w] == if n > 0 then s[base..base + n * w] else []
    decreases n
  {
    hide Rebuilt, Reals, SentBy, SlotPcm;
    if n > 0 {
      RealSlotsReadBack(es, w, sent, total, n - 1, s, base);
      RealSlotReads(es, w, sent, total, n - 1);
      var pcm := Sized(Rebuilt(es, w), w);
      LastSlot(pcm, w, n, s, base);
    } else {
      assert 0 * w == 0;
    }
  }

  /** Slot k of a round is the stream's k-th stretch of w frames from `base`. */
  predicate SlotIsStream(x: seq<Frame>, w: nat, k: nat, s: seq<Frame>, base: nat) {
    0 <= k * w && base + k * w + w <= |s| && x == s[base + k * w..base + k * w + w]
  }

  lemma LastSlot(pcm: seq<Frame>, w: nat, n: nat, s: seq<Frame>, base: nat)
    requires n > 0 && 0 <= (n - 1) * w <= |pcm| && n * w <= |pcm|
    requires n > 1 ==> base + (n - 1) * w <= |s|
    requires pcm[..(n - 1) * w] == if n > 1 then s[base..base + (n - 1) * w] else []
    requires SlotIsStream(SlotPcm(pcm, w, n - 1), w, n - 1, s, base)
    ensures base + n * w <= |s| && pcm[..n * w] == s[base..base + n * w]
  {
    assert n * w == (n - 1) * w + w;
    if n == 1 {
      assert (n - 1) * w == 0;
    }
    assert pcm[..n * w] == pcm[..(n - 1) * w] + SlotPcm(pcm, w, n - 1);
  }

  lemma RealSlotReads(es: seq<Arrival>, w: nat, sent: map<nat, seq<Frame>>, total: int, k: nat)
    requires SentBy(es, w, sent, total) && k in Reals(es)
    ensures var pcm := Sized(Rebuilt(es, w), w);
            k in sent && (k + 1) * w <= |pcm| && SlotPcm(pcm, w, k) == sent[k]
  {
    hide Rebuilt, Reals, SentBy;
    ArrivalsDetermine(es, w, sent, total);
    RebuiltKeepsBooks(es, w);
    var p := Rebuilt(es, w);
    assert SlotState(p, k) == Real;
    SlotFits(k, Frames(p), w);
    assert (k + 1) * w == k * w + w;
    assert k < p.maxFrame <= Frames(p);
  }

  // ---------------------------------------------------------------- the object

  /** Empty slots below n. */
  function Holes(p: Partial, n: nat): (h: nat)
    ensures h <= n
  {
    if n == 0 then 0 else Holes(p, n - 1) + if SlotState(p, n - 1) == Empty then 1 else 0
  }

  lemma {:induction false} HolesBeyond(p: Partial, k: nat, n: nat)
    requires |p.state| <= k <= n
    ensures Holes(p, n) == Holes(p, k) + (n - k)
    decreases n
  {
    if k < n {
      HolesBeyond(p, k, n - 1);
    }
  }

  class Reassembler {
    const samplesPerFrame: nat
    var partials: map<int, Partial>

    /** Every round's books balance. */
    ghost predicate Valid()
      reads this
    {
      forall i <- partials :: Balanced(partials[i], samplesPerFrame)
    }

    constructor (samplesPerFrame: nat)
      ensures Valid() && partials == map[] && this.samplesPerFrame == samplesPerFrame
    {
      this.samplesPerFrame, partials := samplesPerFrame, map[];
    }

    method Ensure(index: int)
      requires Valid()
      modifies this
      ensures Valid() && partials == old(partials)[index := PartialAt(old(partials), index)]
    {
      FreshBalanced(samplesPerFrame);
      if index !in partials {
        partials := partials[index := FRESH];
      } else {
        assert partials == partials[index := partials[index]];
      }
    }

    method Add(index: int, frameNumber: int, pcm: seq<Frame>, isFinal: bool, totalFrames: int)
      requires Valid()
      modifies this
      ensures Valid()
      ensures partials == if frameNumber < 0 then old(partials) else
                old(partials)[index := Apply(PartialAt(old(partials), index), samplesPerFrame,
                                             Arrival.Add(frameNumber, pcm, isFinal, totalFrames))]
    {
      hide Balanced, Place;
      if frameNumber < 0 {
        return;
      }
      Ensure(index);
      var p := partials[index];
      AddKeepsBooks(p, samplesPerFrame, frameNumber, pcm, isFinal, totalFrames);
      var was := SlotState(p, frameNumber);
      if isFinal && totalFrames > 0 {
        p := p.(total := totalFrames);
      }
      p := Place(p, samplesPerFrame, frameNumber, pcm);
      match was {
        case Plc => p := p.(concealed := p.concealed - 1, received := p.received + 1);
        case Empty => p := p.(received := p.received + 1);
        case Real =>
      }
      p := p.(state := Grown(p.state, frameNumber)[frameNumber := Real]);
      partials := partials[index := p];
    }

    method AddPLC(index: int, frameNumber: int, pcm: seq<Frame>)
      requires Valid()
      modifies this
      ensures Valid()
      ensures partials == if frameNumber < 0 then old(partials) else
                old(partials)[index := Apply(PartialAt(old(partials), index), samplesPerFrame, Conceal(frameNumber, pcm))]
    {
      hide Balanced, Place;
      if frameNumber < 0 {
        return;
      }
      Ensure(index);
      var p := partials[index];
      if SlotState(p, frameNumber) != Empty {
        return;
      }
      ConcealKeepsBooks(p, samplesPerFrame, frameNumber, pcm);
      p := Place(p, samplesPerFrame, frameNumber, pcm);
      p := p.(state := Grown(p.state, frameNumber)[frameNumber := Plc], concealed := p.concealed + 1);
      partials := partials[index := p];
    }

    /** How many slots hold nothing, and how many hold concealment. */
    method Missing(index: int) returns (missing: nat, concealed: int)
      requires Valid()
      ensures index !in partials ==> missing == 0 && concealed == 0
      ensures index in partials ==> var p := partials[index];
                && missing == Holes(p, Frames(p)) && concealed == Count(p.state, Plc)
    {
      if index !in partials {
        return 0, 0;
      }
      var p := partials[index];
      var frames := p.maxFrame;
      if p.total > frames {
        frames := p.total;
      }
      var filled, fn := 0, 0;
      while fn < frames && fn < |p.state|
        invariant fn <= frames && fn <= |p.state|
        invariant filled + Holes(p, fn) == fn
      {
        if p.state[fn] != Empty {
          filled := filled + 1;
        }
        fn := fn + 1;
      }
      if fn < frames {
        HolesBeyond(p, fn, frames);
      }
      missing, concealed := frames - filled, p.concealed;
    }

    method IsComplete(index: int) returns (complete: bool)
      ensures complete <==> index in partials && Complete(partials[index])
    {
      complete := index in partials && partials[index].total > 0 && partials[index].received >= partials[index].total;
    }

    /** The round as it stands, padded to its full frame count; the padding is kept. */
    method Interval(index: int) returns (samples: seq<Frame>, received: int, total: int, ok: bool)
      requires Valid()
      modifies this
      ensures Valid() && (ok <==> index in old(partials)) && partials.Keys == old(partials.Keys)
      ensures if ok then samples == Sized(old(partials)[index], samplesPerFrame)
                         && received == old(partials)[index].received && total == old(partials)[index].total
              else samples == [] && received == 0 && total == 0
      ensures forall i <- partials :: Sized(partials[i], samplesPerFrame) == Sized(old(partials)[i], samplesPerFrame)
                                      && partials[i] == old(partials)[i].(pcm := partials[i].pcm)
    {
      if index !in partials {
        return [], 0, 0, false;
      }
      var p := partials[index];
      samples := Sized(p, samplesPerFrame);
      received, total, ok := p.received, p.total, true;
      if |p.pcm| < |samples| {
        SizedKeepsBooks(p, samplesPerFrame);
        partials := partials[index := p.(pcm := samples)];
      }
    }

    lemma SizedKeepsBooks(p: Partial, w: nat)
      requires Balanced(p, w) && |p.pcm| < |Sized(p, w)|
      ensures Balanced(p.(pcm := Sized(p, w)), w)
      ensures Sized(p.(pcm := Sized(p, w)), w) == Sized(p, w)
    {
      var q := p.(pcm := Sized(p, w));
      forall fn | SlotState(q, fn) == Empty
        ensures SilentAt(q, w, fn)
      {
        assert SilentAt(p, w, fn);
      }
    }

    /** Remove a round and return it. */
    method Take(index: int) returns (samples: seq<Frame>, received: int, total: int, ok: bool)
      requires Valid()
      modifies this
      ensures Valid() && partials == old(partials) - {index} && (ok <==> index in old(partials))
      ensures if ok then samples == Sized(old(partials)[index], samplesPerFrame)
                         && received == old(partials)[index].received && total == old(partials)[index].total
              else samples == [] && received == 0 && total == 0
    {
      if index !in partials {
        assert partials == partials - {index};
        return [], 0, 0, false;
      }
      var p := partials[index];
      partials := partials - {index};
      samples, received, total, ok := Sized(p, samplesPerFrame), p.received, p.total, true;
    }

    /** Discard every round up to and including one. */
    method Drop(upToInclusive: int)
      requires Valid()
      modifies this
      ensures Valid() && partials == map i | i in old(partials) && i > upToInclusive :: old(partials)[i]
    {
      var before := partials;
      var left := partials.Items;
      while left != {}
        invariant left <= before.Items
        invariant partials.Keys <= before.Keys
        invariant forall i <- partials :: partials[i] == before[i]
        invariant forall i <- before :: i !in partials <==> i <= upToInclusive && (i, before[i]) !in left
        decreases |left|
      {
        var item :| item in left;
        if item.0 <= upToInclusive {
          partials := partials - {item.0};
        }
        left := left - {item};
      }
    }
  }

  function PartialAt(m: map<int, Partial>, index: int): Partial {
    if index in m then m[index] else FRESH
  }
}
