/** The relay's rate limiter (signaling-server/main.go, tokenBucket). Times are seconds, read off a clock that never goes back. */
module TokenBucket {
  import opened Interval

  datatype Bucket = Bucket(tokens: real, maxTokens: real, refillRate: real, lastRefill: real)

  function Full(rate: real, burst: real, now: real): Bucket {
    Bucket(burst, burst, rate, now)
  }

  function Min(x: real, y: real): real {
    if x > y then y else x
  }

  /** The level a bucket would show at a time, before anything is taken. */
  function LevelAt(b: Bucket, now: real): real {
    Min(Refilled(b, now), b.maxTokens)
  }

  /** The same, with the refill as a number of its own. */
  lemma LevelIs(b: Bucket, now: real, gain: real)
    requires gain == (now - b.lastRefill) * b.refillRate
    ensures LevelAt(b, now) == Min(b.tokens + gain, b.maxTokens)
  {
  }

  function Allow(b: Bucket, now: real): (Bucket, bool) {
    var level := LevelAt(b, now);
    if level < 1.0 then (b.(tokens := level, lastRefill := now), false) else (b.(tokens := level - 1.0, lastRefill := now), true)
  }

  function Refilled(b: Bucket, now: real): real {
    b.tokens + (now - b.lastRefill) * b.refillRate
  }

  lemma RefilledIs(b: Bucket, now: real, gain: real)
    requires gain == (now - b.lastRefill) * b.refillRate
    ensures Refilled(b, now) == b.tokens + gain
  {
  }

  function Rescale(b: Bucket, rate: real, burst: real, now: real): Bucket {
    Bucket(Min(Refilled(b, now), burst), burst, rate, now)
  }

  class Limiter {
    var tokens: real
    var maxTokens: real
    var refillRate: real
    var lastRefill: real

    ghost function Value(): Bucket
      reads this
    {
      Bucket(tokens, maxTokens, refillRate, lastRefill)
    }

    constructor (rate: real, burst: real, now: real)
      ensures Value() == Full(rate, burst, now)
    {
      tokens, maxTokens, refillRate, lastRefill := burst, burst, rate, now;
    }

    method Reconfigure(rate: real, burst: real, now: real)
      modifies this
      ensures Value() == Rescale(old(Value()), rate, burst, now)
    {
      var elapsed := now - lastRefill;
      tokens := tokens + elapsed * refillRate;
      RefilledIs(old(Value()), now, elapsed * old(refillRate));
      lastRefill := now;
      refillRate := rate;
      maxTokens := burst;
      if tokens > maxTokens {
        tokens := maxTokens;
      }
    }

    method Admit(now: real) returns (ok: bool)
      modifies this
      ensures (Value(), ok) == Allow(old(Value()), now)
    {
      var elapsed := now - lastRefill;
      tokens := tokens + elapsed * refillRate;
      if tokens > maxTokens {
        tokens := maxTokens;
      }
      lastRefill := now;
      RefilledIs(old(Value()), now, elapsed * old(refillRate));
      assert tokens == LevelAt(old(Value()), now);
      if tokens < 1.0 {
        return false;
      }
      tokens := tokens - 1.0;
      ok := true;
    }
  }

  // ---------------------------------------------------------------- exactly what a full bucket admits

  predicate InOrder(start: real, ts: seq<real>) {
    (forall i :: 0 <= i < |ts| ==> start <= ts[i]) && forall i, j :: 0 <= i < j < |ts| ==> ts[i] <= ts[j]
  }

  /** The bucket after a sequence of arrivals, and whether each was admitted. */
  function After(b: Bucket, ts: seq<real>): Bucket
    decreases |ts|
  {
    if ts == [] then b else Allow(After(b, ts[..|ts| - 1]), ts[|ts| - 1]).0
  }

  predicate AdmittedAt(b: Bucket, ts: seq<real>, i: nat)
    requires i < |ts|
  {
    Allow(After(b, ts[..i]), ts[i]).1
  }

  predicate AllAdmitted(b: Bucket, ts: seq<real>) {
    forall i :: 0 <= i < |ts| ==> AdmittedAt(b, ts, i)
  }

  /** Arrivals i..j are no more than the burst plus what refills between the first and the last of them. */
  predicate WindowFits(ts: seq<real>, rate: real, burst: real, i: nat, j: nat)
    requires i <= j < |ts|
  {
    (j - i + 1) as real <= burst + rate * (ts[j] - ts[i])
  }

  /** What is left after arrivals [0, n) when the window opening at i is the tightest. */
  function Left(ts: seq<real>, rate: real, burst: real, i: nat, n: nat): real
    requires i < n <= |ts|
  {
    burst + rate * (ts[n - 1] - ts[i]) - (n - i) as real
  }

  /** After n admitted arrivals the level is the least that any window of them leaves. */
  ghost predicate Tight(b: Bucket, ts: seq<real>, rate: real, burst: real, n: nat) {
    && n <= |ts| && b.maxTokens == burst && b.refillRate == rate
    && (n == 0 ==> b.tokens == burst)
    && (n > 0 ==> b.lastRefill == ts[n - 1])
    && (forall i :: 0 <= i < n ==> b.tokens <= Left(ts, rate, burst, i, n))
    && (n > 0 ==> exists i :: 0 <= i < n && b.tokens == Left(ts, rate, burst, i, n))
  }

  lemma LeftNext(ts: seq<real>, rate: real, burst: real, i: nat, n: nat)
    requires 0 < n < |ts| && i < n
    ensures Left(ts, rate, burst, i, n + 1) == Left(ts, rate, burst, i, n) + rate * (ts[n] - ts[n - 1]) - 1.0
    ensures WindowFits(ts, rate, burst, i, n) <==> Left(ts, rate, burst, i, n + 1) >= 0.0
  {
    assert rate * (ts[n] - ts[i]) == rate * (ts[n - 1] - ts[i]) + rate * (ts[n] - ts[n - 1]);
  }

  lemma LeftNewest(ts: seq<real>, rate: real, burst: real, n: nat)
    requires n < |ts|
    ensures Left(ts, rate, burst, n, n + 1) == burst - 1.0
    ensures WindowFits(ts, rate, burst, n, n) <==> burst >= 1.0
  {
    assert rate * (ts[n] - ts[n]) == 0.0;
  }

  /** One more arrival: admitted exactly when every window ending with it fits, and the level stays tight. */
  lemma NextArrival(b: Bucket, ts: seq<real>, rate: real, burst: real, n: nat, start: real)
    requires Tight(b, ts, rate, burst, n) && n < |ts| && InOrder(start, ts) && rate >= 0.0 && (n == 0 ==> b.lastRefill == start)
    ensures Allow(b, ts[n]).1 <==> forall i :: 0 <= i <= n ==> WindowFits(ts, rate, burst, i, n)
    ensures Allow(b, ts[n]).1 ==> Tight(Allow(b, ts[n]).0, ts, rate, burst, n + 1)
  {
    hide Refilled, Left, WindowFits;
    LeftNewest(ts, rate, burst, n);
    if n == 0 {
      FirstLevel(b, ts[0], rate, burst);
    } else {
      var g := rate * (ts[n] - ts[n - 1]);
      GainIs(rate, ts[n], ts[n - 1]);
      LevelIs(b, ts[n], g);
      forall i | 0 <= i < n
        ensures Left(ts, rate, burst, i, n + 1) == Left(ts, rate, burst, i, n) + g - 1.0
        ensures WindowFits(ts, rate, burst, i, n) <==> Left(ts, rate, burst, i, n + 1) >= 0.0
      {
        LeftNext(ts, rate, burst, i, n);
      }
      var i :| 0 <= i < n && b.tokens == Left(ts, rate, burst, i, n);
      assert LevelAt(b, ts[n]) == Min(Left(ts, rate, burst, i, n + 1) + 1.0, Left(ts, rate, burst, n, n + 1) + 1.0);
      if Allow(b, ts[n]).1 {
        TightNext(b, ts, rate, burst, n, i, g);
      }
    }
  }

  lemma GainIs(rate: real, now: real, last: real)
    ensures rate * (now - last) == (now - last) * rate
  {
  }

  /** A full bucket stays full until something is taken. */
  lemma FirstLevel(b: Bucket, now: real, rate: real, burst: real)
    requires b.tokens == b.maxTokens == burst && b.refillRate == rate >= 0.0 && b.lastRefill <= now
    ensures LevelAt(b, now) == burst
  {
    var gain := (now - b.lastRefill) * b.refillRate;
    MulMonotone(0.0, now - b.lastRefill, rate);
    assert gain >= 0.0;
    LevelIs(b, now, gain);
  }

  lemma TightNext(b: Bucket, ts: seq<real>, rate: real, burst: real, n: nat, i: nat, g: real)
    requires Tight(b, ts, rate, burst, n) && i < n < |ts| && g == rate * (ts[n] - ts[n - 1])
    requires b.tokens == Left(ts, rate, burst, i, n) && Allow(b, ts[n]).1
    requires forall m :: 0 <= m < n ==> Left(ts, rate, burst, m, n + 1) == Left(ts, rate, burst, m, n) + g - 1.0
    requires Left(ts, rate, burst, n, n + 1) == burst - 1.0
    ensures Tight(Allow(b, ts[n]).0, ts, rate, burst, n + 1)
  {
    var c := Allow(b, ts[n]).0;
    GainIs(rate, ts[n], ts[n - 1]);
    LevelIs(b, ts[n], g);
    hide Left, Refilled;
    assert c.tokens == Min(Left(ts, rate, burst, i, n + 1), Left(ts, rate, burst, n, n + 1));
    var next := n + 1;
    forall m | 0 <= m < next
      ensures c.tokens <= Left(ts, rate, burst, m, next)
    {
      if m < n {
        assert b.tokens <= Left(ts, rate, burst, m, n);
      }
    }
    if Left(ts, rate, burst, i, n + 1) > Left(ts, rate, burst, n, n + 1) {
      assert c.tokens == Left(ts, rate, burst, n, n + 1);
    } else {
      assert c.tokens == Left(ts, rate, burst, i, n + 1);
    }
  }

  lemma {:induction false} WholeIffFits(ts: seq<real>, rate: real, burst: real, start: real, n: nat)
    requires InOrder(start, ts) && rate >= 0.0 && n <= |ts|
    ensures (forall k :: 0 <= k < n ==> AdmittedAt(Full(rate, burst, start), ts, k))
            <==> forall i, j :: 0 <= i <= j < n ==> WindowFits(ts, rate, burst, i, j)
    ensures (forall k :: 0 <= k < n ==> AdmittedAt(Full(rate, burst, start), ts, k))
            ==> Tight(After(Full(rate, burst, start), ts[..n]), ts, rate, burst, n)
    decreases n
  {
    hide Allow, WindowFits, Tight;
    var b := Full(rate, burst, start);
    if n == 0 {
      FullIsTight(ts, rate, burst, start);
      assert ts[..0] == [];
    } else {
      WholeIffFits(ts, rate, burst, start, n - 1);
      assert ts[..n][..n - 1] == ts[..n - 1];
      if forall k :: 0 <= k < n - 1 ==> AdmittedAt(b, ts, k) {
        assert n == 1 ==> After(b, ts[..0]) == b;
        NextArrival(After(b, ts[..n - 1]), ts, rate, burst, n - 1, start);
        assert AdmittedAt(b, ts, n - 1) <==> Allow(After(b, ts[..n - 1]), ts[n - 1]).1;
      }
    }
  }

  lemma FullIsTight(ts: seq<real>, rate: real, burst: real, start: real)
    ensures Tight(Full(rate, burst, start), ts, rate, burst, 0)
  {
  }

  /** THE BUCKET IS EXACT. From a full bucket, a sequence of arrivals is admitted whole if and only if every window of
      them holds at most burst + rate x elapsed arrivals. */
  lemma AdmitsExactly(ts: seq<real>, rate: real, burst: real, start: real)
    requires InOrder(start, ts) && rate >= 0.0
    ensures AllAdmitted(Full(rate, burst, start), ts)
            <==> forall i, j :: 0 <= i <= j < |ts| ==> WindowFits(ts, rate, burst, i, j)
  {
    WholeIffFits(ts, rate, burst, start, |ts|);
  }

  // ---------------------------------------------------------------- conservation across rescales

  datatype Event = Arrive(at: real) | Resize(rate: real, burst: real, at: real)

  function Step(b: Bucket, e: Event): (Bucket, nat) {
    match e
    case Arrive(at) => var (c, ok) := Allow(b, at); (c, if ok then 1 else 0)
    case Resize(rate, burst, at) => (Rescale(b, rate, burst, at), 0)
  }

  /** How many arrivals a run admits. */
  function Admitted(b: Bucket, es: seq<Event>): nat
    decreases |es|
  {
    if es == [] then 0 else Step(b, es[0]).1 + Admitted(Step(b, es[0]).0, es[1..])
  }

  function Final(b: Bucket, es: seq<Event>): Bucket
    decreases |es|
  {
    if es == [] then b else Final(Step(b, es[0]).0, es[1..])
  }

  /** What flows in over a run: each stretch at the rate then in force. */
  function Inflow(b: Bucket, es: seq<Event>): real
    decreases |es|
  {
    if es == [] then 0.0 else b.refillRate * (es[0].at - b.lastRefill) + Inflow(Step(b, es[0]).0, es[1..])
  }

  predicate Sane(b: Bucket, es: seq<Event>) {
    && b.tokens >= 0.0 && b.refillRate >= 0.0 && b.maxTokens >= 0.0
    && (forall i :: 0 <= i < |es| ==> b.lastRefill <= es[i].at)
    && (forall i, j :: 0 <= i < j < |es| ==> es[i].at <= es[j].at)
    && (forall i :: 0 <= i < |es| && es[i].Resize? ==> es[i].rate >= 0.0 && es[i].burst >= 0.0)
  }

  lemma StepConserves(b: Bucket, es: seq<Event>)
    requires es != [] && Sane(b, es)
    ensures var (c, n) := Step(b, es[0]);
            Sane(c, es[1..]) && n as real + c.tokens <= b.tokens + b.refillRate * (es[0].at - b.lastRefill)
  {
    var gain := b.refillRate * (es[0].at - b.lastRefill);
    MulMonotone(0.0, es[0].at - b.lastRefill, b.refillRate);
    assert (es[0].at - b.lastRefill) * b.refillRate == gain;
    assert gain >= 0.0;
    StepTokens(b, es[0], gain);
  }

  lemma StepTokens(b: Bucket, e: Event, gain: real)
    requires b.tokens >= 0.0 && b.maxTokens >= 0.0 && gain >= 0.0 && gain == (e.at - b.lastRefill) * b.refillRate
    requires e.Resize? ==> e.burst >= 0.0
    ensures var (c, n) := Step(b, e);
            && c.tokens >= 0.0 && n as real + c.tokens <= b.tokens + gain && c.lastRefill == e.at
            && (e.Arrive? ==> c.maxTokens == b.maxTokens && c.refillRate == b.refillRate)
            && (e.Resize? ==> c.maxTokens == e.burst && c.refillRate == e.rate)
  {
    hide LevelAt, Refilled;
    LevelIs(b, e.at, gain);
    RefilledIs(b, e.at, gain);
  }

  /** CONSERVATION. Across any sequence of arrivals and rescales, what is admitted never exceeds the tokens at the start
      plus what flowed in, each stretch at its own rate; and what is left is never negative. */
  lemma {:induction false} NothingIsMinted(b: Bucket, es: seq<Event>)
    requires Sane(b, es)
    ensures Admitted(b, es) as real + Final(b, es).tokens <= b.tokens + Inflow(b, es)
    ensures Final(b, es).tokens >= 0.0
    decreases |es|
  {
    hide Step, Sane;
    if es != [] {
      StepConserves(b, es);
      NothingIsMinted(Step(b, es[0]).0, es[1..]);
    } else {
      SaneTokens(b, es);
    }
  }

  lemma SaneTokens(b: Bucket, es: seq<Event>)
    requires Sane(b, es)
    ensures b.tokens >= 0.0
  {
  }

  /** Rescaling gives a bucket more than it could have held exactly when the refill since its last use overflows the
      old maximum and the new maximum is larger. */
  lemma RescaleGivesMoreIff(b: Bucket, rate: real, burst: real, now: real)
    ensures Rescale(b, rate, burst, now).tokens > LevelAt(b, now)
            <==> Refilled(b, now) > b.maxTokens && burst > b.maxTokens
  {
    hide Refilled;
  }

  /** It can: 10 a second up to 20, left full for three seconds and then rescaled to 20 a second up to 40, shows 40 tokens
      where it never held more than 20. */
  lemma RescaleCanGiveMore()
    ensures var b := Full(10.0, 20.0, 0.0);
            LevelAt(b, 3.0) == 20.0 && Rescale(b, 20.0, 40.0, 3.0).tokens == 40.0 && LevelAt(Rescale(b, 20.0, 40.0, 3.0), 3.0) == 40.0
  {
    var b := Full(10.0, 20.0, 0.0);
    RefilledIs(b, 3.0, 30.0);
    LevelIs(b, 3.0, 30.0);
    LevelIs(Rescale(b, 20.0, 40.0, 3.0), 3.0, 0.0);
  }
}
