/** Which frame slots a gap in the sequence numbers lost (internal/emit/plc.go, MissingSlots). */
module LossWalk {
  import opened Common

  datatype FramePos = FramePos(interval: int, frame: int)

  /** The frame count of each interval, as far as the receiver knows; not positive where it does not. */
  type Totals = int -> int

  function Advance(p: FramePos, total: Totals): Option<FramePos> {
    if total(p.interval) <= 0 then None
    else if p.frame + 1 >= total(p.interval) then Some(FramePos(p.interval + 1, 0))
    else Some(p.(frame := p.frame + 1))
  }

  /** k slots on. */
  function Walk(p: FramePos, k: nat, total: Totals): Option<FramePos> {
    if k == 0 then Some(p) else
      var q := Walk(p, k - 1, total);
      if q.None? then None else Advance(q.value, total)
  }

  /** The first n slots after p. */
  function SlotsAfter(p: FramePos, n: nat, total: Totals): (s: seq<FramePos>)
    requires Walk(p, n, total).Some?
    ensures |s| == n
    ensures forall i :: 0 <= i < n ==> Walk(p, i + 1, total) == Some(s[i])
  {
    if n == 0 then [] else SlotsAfter(p, n - 1, total) + [Walk(p, n, total).value]
  }

  lemma {:induction false} WalkPrefix(p: FramePos, k: nat, n: nat, total: Totals)
    requires k <= n && Walk(p, n, total).Some?
    ensures Walk(p, k, total).Some?
    decreases n
  {
    if k < n {
      WalkPrefix(p, k, n - 1, total);
    }
  }

  /** How many slots of a gap are named. */
  function Named(gap: int, max: int): nat {
    if gap <= 0 || max <= 0 then 0 else if gap <= max then gap else max
  }

  /** The slots named when the walk is consistent; none otherwise. */
  function Lost(prev: FramePos, next: FramePos, gap: int, total: Totals, max: int): seq<FramePos> {
    if gap > 0 && Walk(prev, gap + 1, total) == Some(next) then
      WalkPrefix(prev, Named(gap, max), gap + 1, total);
      SlotsAfter(prev, Named(gap, max), total)
    else []
  }

  /** The walk. An empty result is the original's nil: nothing to conceal, or no consistent walk. */
  method MissingSlots(prev: FramePos, next: FramePos, gap: int, total: Totals, max: int) returns (out: seq<FramePos>)
    ensures out == Lost(prev, next, gap, total, max)
  {
    out := [];
    if gap <= 0 {
      return;
    }
    var pos := prev;
    for i := 0 to gap
      invariant Walk(prev, i, total) == Some(pos)
      invariant Walk(prev, Named(i, max), total).Some? && out == SlotsAfter(prev, Named(i, max), total)
    {
      var step := Advance(pos, total);
      if step.None? {
        NoWalkBeyond(prev, i + 1, gap + 1, total);
        return [];
      }
      pos := step.value;
      if |out| < max {
        out := out + [pos];
      }
    }
    var last := Advance(pos, total);
    if last.None? || last.value != next {
      return [];
    }
  }

  lemma {:induction false} NoWalkBeyond(p: FramePos, k: nat, n: nat, total: Totals)
    requires k <= n && Walk(p, k, total).None?
    ensures Walk(p, n, total).None?
    decreases n
  {
    if k < n {
      NoWalkBeyond(p, k, n - 1, total);
    }
  }

  // ---------------------------------------------------------------- the linear order

  /** Slots before interval `to`, counted from the start of interval `from`. */
  function Before(from: int, to: int, total: Totals): int
    decreases to - from
  {
    if to <= from then 0 else Before(from, to - 1, total) + total(to - 1)
  }

  /** The place of a slot in the sender's order, counted from the start of interval `from`. */
  function Place(from: int, p: FramePos, total: Totals): int {
    Before(from, p.interval, total) + p.frame
  }

  /** A slot an interval has; slot 0 needs no knowledge of its length. */
  predicate IsSlot(p: FramePos, total: Totals) {
    p.frame == 0 || 0 < p.frame < total(p.interval)
  }

  /** Every interval in [from, to) has a known length. */
  predicate Known(from: int, to: int, total: Totals) {
    forall j :: from <= j < to ==> total(j) > 0
  }

  /** q lies k slots on from p in the sender's order. */
  predicate LiesOn(p: FramePos, q: FramePos, k: int, total: Totals) {
    && p.interval <= q.interval && IsSlot(q, total) && Known(p.interval, q.interval, total)
    && Place(p.interval, q, total) == Place(p.interval, p, total) + k
  }

  lemma {:induction false} BeforeGrows(from: int, i: int, j: int, total: Totals)
    requires from <= i <= j && Known(from, j, total)
    ensures Before(from, j, total) >= Before(from, i, total) + (j - i)
    decreases j - i
  {
    if i < j {
      BeforeGrows(from, i, j - 1, total);
    }
  }

  /** Places identify slots. */
  lemma PlacesAreUnique(from: int, p: FramePos, q: FramePos, total: Totals)
    requires from <= p.interval && from <= q.interval && IsSlot(p, total) && IsSlot(q, total)
    requires Known(from, p.interval, total) && Known(from, q.interval, total)
    requires Place(from, p, total) == Place(from, q, total)
    ensures p == q
  {
    if p.interval < q.interval {
      LaterIsFurther(from, p, q, total);
    } else if q.interval < p.interval {
      LaterIsFurther(from, q, p, total);
    }
  }

  lemma LaterIsFurther(from: int, p: FramePos, q: FramePos, total: Totals)
    requires from <= p.interval < q.interval && IsSlot(p, total) && IsSlot(q, total) && Known(from, q.interval, total)
    ensures Place(from, p, total) < Place(from, q, total)
  {
    BeforeGrows(from, p.interval + 1, q.interval, total);
    assert Before(from, p.interval + 1, total) == Before(from, p.interval, total) + total(p.interval);
  }

  /** One slot on is one place on, and exists wherever the interval's length is known. */
  lemma AdvanceIsOnePlace(from: int, p: FramePos, total: Totals)
    requires from <= p.interval && IsSlot(p, total) && Known(from, p.interval, total)
    ensures Advance(p, total).Some? <==> total(p.interval) > 0
    ensures Advance(p, total).Some? ==>
              var q := Advance(p, total).value;
              p.interval <= q.interval && IsSlot(q, total) && Known(from, q.interval, total)
              && Place(from, q, total) == Place(from, p, total) + 1
  {
  }

  /** The predecessor in the order of any later slot has a known length. */
  lemma EarlierIsKnown(p: FramePos, q: FramePos, r: FramePos, total: Totals)
    requires p.interval <= q.interval && IsSlot(q, total) && Known(p.interval, q.interval, total)
    requires p.interval <= r.interval && IsSlot(r, total) && Known(p.interval, r.interval, total)
    requires Place(p.interval, q, total) < Place(p.interval, r, total)
    ensures total(q.interval) > 0
  {
    if q.interval > r.interval {
      LaterIsFurther(p.interval, r, q, total);
    }
  }

  /** Walking k slots is moving k places: the walk reaches exactly the slot that lies k on. */
  lemma {:induction false} WalkIsPlaces(p: FramePos, k: nat, q: FramePos, total: Totals)
    requires IsSlot(p, total)
    ensures Walk(p, k, total) == Some(q) <==> LiesOn(p, q, k, total)
    decreases k
  {
    if k == 0 {
      if LiesOn(p, q, 0, total) {
        PlacesAreUnique(p.interval, p, q, total);
      }
    } else {
      var w := Walk(p, k - 1, total);
      if w.Some? {
        WalkIsPlaces(p, k - 1, w.value, total);
        AdvanceIsOnePlace(p.interval, w.value, total);
        if LiesOn(p, q, k, total) {
          EarlierIsKnown(p, w.value, q, total);
          PlacesAreUnique(p.interval, Advance(w.value, total).value, q, total);
        }
      } else if LiesOn(p, q, k, total) {
        var r := SlotBefore(p, q, k, total);
        WalkIsPlaces(p, k - 1, r, total);
      }
    }
  }

  /** Every slot but the first has one before it. */
  lemma SlotBefore(p: FramePos, q: FramePos, k: nat, total: Totals) returns (r: FramePos)
    requires IsSlot(p, total) && k > 0 && LiesOn(p, q, k, total)
    ensures LiesOn(p, r, k - 1, total)
  {
    if q.frame > 0 {
      r := q.(frame := q.frame - 1);
    } else {
      r := FramePos(q.interval - 1, total(q.interval - 1) - 1);
    }
  }

  /** MISSING SLOTS, SOUND AND COMPLETE. For a real previous slot: something is named exactly when a gap is claimed, room
      is given, and `next` lies gap + 1 places after `prev` in the sender's order; and what is named are the first
      min(gap, max) slots after `prev`. */
  lemma LostIsExact(prev: FramePos, next: FramePos, gap: int, total: Totals, max: int)
    requires IsSlot(prev, total)
    ensures var out := Lost(prev, next, gap, total, max);
            && (out != [] <==> gap > 0 && max > 0 && LiesOn(prev, next, gap + 1, total))
            && (out != [] ==> |out| == Named(gap, max) && forall i :: 0 <= i < |out| ==> LiesOn(prev, out[i], i + 1, total))
  {
    var out := Lost(prev, next, gap, total, max);
    if gap > 0 {
      WalkIsPlaces(prev, gap + 1, next, total);
      forall i | 0 <= i < |out|
        ensures LiesOn(prev, out[i], i + 1, total)
      {
        WalkIsPlaces(prev, i + 1, out[i], total);
      }
    }
  }
}
