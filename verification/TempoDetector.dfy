/** Telling a musician's tempo change from a wandering clock (link_types.go, TempoChangeDetector; internal/interval/grid.go):
    small divergence judged on a windowed mean, an echo guard, and a hold-down before anything is reported. */
module TempoDetector {
  import opened Common
  import opened Interval

  const SLEW_MAX_FRACTION := 0.0005
  const REPORT_FLOOR := 0.02
  const STEADY_BAND := 0.01
  const INTEGER_SNAP := 0.1
  const MEAN_REGIME := 0.5
  const HOLD_DOWN := 1_000_000_000
  const MEAN_WINDOW := 4_000_000_000

  /** Tuning. Times are in nanoseconds. */
  datatype Tuning = Tuning(reportFloor: real, reportBarFixed: real, steadyBand: real, integerSnap: real, holdDown: int,
                           meanWindow: int, meanRegime: real, noIntegerSnap: bool)

  /** Unset fields take the package defaults. */
  function WithDefaults(c: Tuning): (d: Tuning)
    ensures d.holdDown > 0 && d.meanWindow > 0 && d.steadyBand > 0.0 && d.reportFloor > 0.0 && d.integerSnap >= 0.0
  {
    c.(reportFloor := if c.reportFloor <= 0.0 then REPORT_FLOOR else c.reportFloor,
       steadyBand := if c.steadyBand <= 0.0 then STEADY_BAND else c.steadyBand,
       integerSnap := if c.noIntegerSnap then 0.0 else if c.integerSnap <= 0.0 then INTEGER_SNAP else c.integerSnap,
       holdDown := if c.holdDown <= 0 then HOLD_DOWN else c.holdDown,
       meanWindow := if c.meanWindow <= 0 then MEAN_WINDOW else c.meanWindow,
       meanRegime := if c.meanRegime <= 0.0 then MEAN_REGIME else c.meanRegime)
  }

  datatype Sample = Sample(at: int, bpm: real)

  datatype Candidate = Candidate(bpm: real, since: int)

  datatype Detector = Detector(cfg: Tuning, lastTempo: real, guard: Option<int>, candidate: Option<Candidate>, samples: seq<Sample>)

  function New(initialTempo: real, cfg: Tuning): Detector {
    Detector(WithDefaults(cfg), initialTempo, None, None, [])
  }

  function Abs(x: real): real {
    if x < 0.0 then -x else x
  }

  function SlewAuthority(bpm: real): real {
    if bpm <= 0.0 then 0.0 else SLEW_MAX_FRACTION * bpm
  }

  function ReportBar(d: Detector): real {
    if d.cfg.reportBarFixed > 0.0 then d.cfg.reportBarFixed
    else if d.cfg.reportFloor >= SlewAuthority(d.lastTempo) then d.cfg.reportFloor else SlewAuthority(d.lastTempo)
  }

  function Snap(bpm: real, radius: real): real {
    var r := Round(bpm);
    if Abs(bpm - r as real) <= radius && r > 0 then r as real else bpm
  }

  function Sum(samples: seq<Sample>): real
    decreases |samples|
  {
    if samples == [] then 0.0 else Sum(samples[..|samples| - 1]) + samples[|samples| - 1].bpm
  }

  function Mean(d: Detector): real {
    if d.samples == [] then d.lastTempo else Sum(d.samples) / |d.samples| as real
  }

  /** The samples left once those before `cut` at the front are dropped. */
  function Trimmed(samples: seq<Sample>, cut: int): (r: seq<Sample>)
    ensures forall s <- r :: s in samples
    decreases |samples|
  {
    if samples != [] && samples[0].at < cut then Trimmed(samples[1..], cut) else samples
  }

  function Observe(d: Detector, bpm: real, now: int): Detector {
    d.(samples := Trimmed(d.samples + [Sample(now, bpm)], now - d.cfg.meanWindow))
  }

  /** A reading of the session tempo: a number, or not one (NaN and the infinities). */
  datatype Reading = Bad | Bpm(value: real)

  predicate Accepted(r: Reading) {
    r.Bpm? && r.value > 0.0
  }

  predicate Guarded(d: Detector, now: int) {
    d.guard.Some? && now < d.guard.value
  }

  /** What a reading is judged on: itself when far from the baseline, else the mean. */
  function Observed(d: Detector, bpm: real, now: int): real {
    if Abs(bpm - d.lastTempo) <= d.cfg.meanRegime then Mean(Observe(d, bpm, now)) else bpm
  }

  function Check(d: Detector, r: Reading, now: int): (Detector, Option<real>) {
    if !Accepted(r) then
      (d, None)
    else
      var o := Observe(d, r.value, now);
      if Guarded(d, now) then
        (o, None)
      else
        var observed := Observed(d, r.value, now);
        var e := o.(guard := None);
        if Abs(observed - d.lastTempo) <= ReportBar(d) then
          (e.(candidate := None), None)
        else if d.candidate.None? || Abs(observed - d.candidate.value.bpm) > d.cfg.steadyBand then
          (e.(candidate := Some(Candidate(observed, now))), None)
        else if now - d.candidate.value.since < d.cfg.holdDown then
          (e, None)
        else
          var reported := Snap(observed, d.cfg.integerSnap);
          (e.(lastTempo := reported, candidate := None), Some(reported))
  }

  function ArmEchoGuard(d: Detector, expiry: int): Detector {
    d.(guard := Some(expiry), candidate := None)
  }

  function SetLastTempo(d: Detector, r: Reading): Detector {
    if Accepted(r) then d.(lastTempo := r.value, candidate := None) else d
  }

  // ---------------------------------------------------------------- the object

  class TempoChangeDetector {
    const cfg: Tuning
    var lastTempo: real
    var echoGuard: Option<int>
    var candidate: real
    var candidateSince: int
    var hasCandidate: bool
    var samples: seq<Sample>

    ghost function Value(): Detector
      reads this
    {
      Detector(cfg, lastTempo, echoGuard, if hasCandidate then Some(Candidate(candidate, candidateSince)) else None, samples)
    }

    constructor (initialTempo: real, cfg: Tuning)
      ensures Value() == New(initialTempo, cfg)
    {
      this.cfg := WithDefaults(cfg);
      lastTempo, echoGuard, candidate, candidateSince, hasCandidate, samples := initialTempo, None, 0.0, 0, false, [];
    }

    method Arm(expiry: int)
      modifies this
      ensures Value() == ArmEchoGuard(old(Value()), expiry)
      ensures echoGuard == Some(expiry) && !hasCandidate && lastTempo == old(lastTempo) && samples == old(samples)
    {
      echoGuard := Some(expiry);
      hasCandidate := false;
    }

    method SetLast(r: Reading)
      modifies this
      ensures Value() == SetLastTempo(old(Value()), r)
      ensures lastTempo == (if Accepted(r) then r.value else old(lastTempo)) && hasCandidate == (old(hasCandidate) && !Accepted(r))
      ensures echoGuard == old(echoGuard) && samples == old(samples)
    {
      if r.Bad? || r.value <= 0.0 {
        return;
      }
      lastTempo := r.value;
      hasCandidate := false;
    }

    /** Fold one reading into the window, dropping what has aged out of it. */
    method Fold(bpm: real, now: int)
      modifies this`samples
      ensures Value() == Observe(old(Value()), bpm, now)
    {
      samples := samples + [Sample(now, bpm)];
      var cut := now - cfg.meanWindow;
      ghost var all := samples;
      var drop := 0;
      while drop < |samples| && samples[drop].at < cut
        invariant drop <= |samples| && samples == all
        invariant Trimmed(samples[drop..], cut) == Trimmed(all, cut)
      {
        assert samples[drop..][1..] == samples[drop + 1..];
        drop := drop + 1;
      }
      samples := samples[drop..];
    }

    method MeanOfWindow() returns (mean: real)
      ensures mean == Mean(Value())
    {
      if |samples| == 0 {
        return lastTempo;
      }
      var sum := 0.0;
      for i := 0 to |samples|
        invariant sum == Sum(samples[..i])
      {
        assert samples[..i + 1][..i] == samples[..i];
        sum := sum + samples[i].bpm;
      }
      assert samples[..|samples|] == samples;
      mean := sum / |samples| as real;
    }

    method Bar() returns (bar: real)
      ensures bar == ReportBar(Value())
    {
      if cfg.reportBarFixed > 0.0 {
        return cfg.reportBarFixed;
      }
      var authority := SlewAuthority(lastTempo);
      bar := if cfg.reportFloor >= authority then cfg.reportFloor else authority;
    }

    /** One reading: the tempo to report, if any. */
    method CheckReading(r: Reading, now: int) returns (reported: Option<real>)
      modifies this
      ensures (Value(), reported) == Check(old(Value()), r, now)
    {
      hide Trimmed, Sum, Snap, SlewAuthority;
      if r.Bad? || r.value <= 0.0 {
        return None;
      }
      Fold(r.value, now);
      if echoGuard.Some? {
        if now < echoGuard.value {
          return None;
        }
        echoGuard := None;
      }
      var observed := r.value;
      if Abs(r.value - lastTempo) <= cfg.meanRegime {
        observed := MeanOfWindow();
      }
      var bar := Bar();
      if Abs(observed - lastTempo) <= bar {
        hasCandidate := false;
        return None;
      }
      if !hasCandidate || Abs(observed - candidate) > cfg.steadyBand {
        candidate, candidateSince, hasCandidate := observed, now, true;
        return None;
      }
      if now - candidateSince < cfg.holdDown {
        return None;
      }
      var tempo := Snap(observed, cfg.integerSnap);
      lastTempo, hasCandidate := tempo, false;
      reported := Some(tempo);
    }
  }

  // ---------------------------------------------------------------- runs

  datatype Event = Read(r: Reading, now: int) | Guard(expiry: int) | Baseline(r: Reading)

  function Step(d: Detector, e: Event): (Detector, Option<real>) {
    match e
    case Read(r, now) => Check(d, r, now)
    case Guard(expiry) => (ArmEchoGuard(d, expiry), None)
    case Baseline(r) => (SetLastTempo(d, r), None)
  }

  function After(d: Detector, es: seq<Event>): Detector
    decreases |es|
  {
    if es == [] then d else Step(After(d, es[..|es| - 1]), es[|es| - 1]).0
  }

  /** What event i of a run reports. */
  function ReportAt(d: Detector, es: seq<Event>, i: nat): Option<real>
    requires i < |es|
  {
    Step(After(d, es[..i]), es[i]).1
  }

  /** Event i is one the detector ignores, or an accepted reading that keeps the case for candidate c going: no echo
      guard active, judged within the steady band of c and beyond the bar from the baseline. */
  predicate Supports(d: Detector, e: Event, baseline: real, c: real) {
    && d.lastTempo == baseline
    && match e
       case Guard(_) => false
       case Baseline(r) => !Accepted(r)
       case Read(r, now) =>
         !Accepted(r) || (!Guarded(d, now) && Abs(Observed(d, r.value, now) - c) <= d.cfg.steadyBand
                          && Abs(Observed(d, r.value, now) - baseline) > ReportBar(d))
  }

  /** Events [j, n) build one unbroken case for c, opened by the accepted reading at j. */
  predicate Holds(d: Detector, es: seq<Event>, j: nat, n: nat, baseline: real, c: Candidate) {
    && j < n <= |es|
    && es[j].Read? && Accepted(es[j].r) && es[j].now == c.since
    && Observed(After(d, es[..j]), es[j].r.value, es[j].now) == c.bpm
    && forall k :: j <= k < n ==> SupportsAt(d, es, k, baseline, c.bpm)
  }

  predicate SupportsAt(d: Detector, es: seq<Event>, k: nat, baseline: real, c: real)
    requires k < |es|
  {
    Supports(After(d, es[..k]), es[k], baseline, c)
  }

  /** How a step leaves a candidate: extended by a supporting event, or opened by the reading itself. No candidate is
      ever pending while an echo guard is armed. */
  lemma StepCandidate(b: Detector, e: Event)
    requires b.cfg.steadyBand >= 0.0 && (b.candidate.Some? ==> b.guard.None?)
    ensures var (a, r) := Step(b, e);
            && a.cfg == b.cfg && (r.Some? ==> a.candidate.None?) && (a.candidate.Some? ==> a.guard.None?)
            && (a.candidate.Some? ==> a.lastTempo == b.lastTempo && Supports(b, e, b.lastTempo, a.candidate.value.bpm)
                                      && (a.candidate == b.candidate || Opens(b, e, a.candidate.value)))
  {
    hide Observed, Trimmed, Snap, ReportBar;
  }

  predicate Opens(b: Detector, e: Event, c: Candidate) {
    e.Read? && Accepted(e.r) && e.now == c.since && Observed(b, e.r.value, e.now) == c.bpm
  }

  lemma AfterSplits(d: Detector, es: seq<Event>, n: nat)
    requires 0 < n <= |es|
    ensures After(d, es[..n]) == Step(After(d, es[..n - 1]), es[n - 1]).0
  {
    assert es[..n][..n - 1] == es[..n - 1];
  }

  predicate NoReports(d: Detector, es: seq<Event>, j: nat, n: nat) {
    n <= |es| && forall k :: j <= k < n ==> ReportAt(d, es, k).None?
  }

  /** A pending candidate always stands for an unbroken case. */
  lemma {:induction false} CandidateHolds(d: Detector, es: seq<Event>, n: nat) returns (j: nat)
    requires d.candidate.None? && d.cfg.steadyBand >= 0.0 && n <= |es|
    ensures var a := After(d, es[..n]); a.cfg == d.cfg && (a.candidate.Some? ==> a.guard.None?)
    ensures var a := After(d, es[..n]);
            a.candidate.Some? ==> Holds(d, es, j, n, a.lastTempo, a.candidate.value) && NoReports(d, es, j, n)
    decreases n
  {
    j := 0;
    hide Observed, Step, Supports;
    if n > 0 {
      var i := CandidateHolds(d, es, n - 1);
      AfterSplits(d, es, n);
      var b, a := After(d, es[..n - 1]), After(d, es[..n]);
      StepCandidate(b, es[n - 1]);
      if a.candidate.Some? {
        j := if a.candidate == b.candidate then i else n - 1;
      }
    }
  }

  /** HOLD-DOWN. Every report ends an unbroken case: a run of readings, the last of them the reporting one, that spans
      at least the hold-down, in which nothing interfered, every judged value stayed within the steady band of the
      first and beyond the bar from a baseline that did not move, with no echo guard active. The reported tempo is
      the last judged value, snapped. */
  lemma ReportsAreHeld(d: Detector, es: seq<Event>, m: nat) returns (j: nat, c: Candidate)
    requires d.candidate.None? && d.cfg.steadyBand >= 0.0 && d.cfg.holdDown > 0
    requires m < |es| && ReportAt(d, es, m).Some?
    ensures j < m && es[m].Read? && Accepted(es[m].r) && Holds(d, es, j, m + 1, After(d, es[..m]).lastTempo, c) && NoReports(d, es, j, m)
    ensures es[m].now - c.since >= d.cfg.holdDown
    ensures ReportAt(d, es, m).value == Snap(Observed(After(d, es[..m]), es[m].r.value, es[m].now), d.cfg.integerSnap)
  {
    j := CandidateHolds(d, es, m);
    var b := After(d, es[..m]);
    Reporting(b, es[m]);
    c := b.candidate.value;
    hide Observed, Step, Supports, Snap;
    assert SupportsAt(d, es, m, b.lastTempo, c.bpm);
  }

  /** What a reporting step requires. */
  lemma Reporting(b: Detector, e: Event)
    requires Step(b, e).1.Some? && b.cfg.holdDown > 0
    ensures e.Read? && Accepted(e.r) && b.candidate.Some? && e.now - b.candidate.value.since >= b.cfg.holdDown
    ensures Supports(b, e, b.lastTempo, b.candidate.value.bpm)
    ensures Step(b, e).1.value == Snap(Observed(b, e.r.value, e.now), b.cfg.integerSnap)
  {
    hide Observed, Trimmed, Snap, ReportBar;
  }

  predicate InTimeOrder(es: seq<Event>) {
    forall i, j :: 0 <= i < j < |es| && es[i].Read? && es[j].Read? ==> es[i].now <= es[j].now
  }

  /** So two reports are at least the hold-down apart. */
  lemma ReportsAreApart(d: Detector, es: seq<Event>, i: nat, m: nat)
    requires d.candidate.None? && d.cfg.steadyBand >= 0.0 && d.cfg.holdDown > 0 && InTimeOrder(es)
    requires i < m < |es| && ReportAt(d, es, i).Some? && ReportAt(d, es, m).Some?
    ensures es[i].Read? && es[m].Read? && es[m].now - es[i].now >= d.cfg.holdDown
  {
    var j, c := ReportsAreHeld(d, es, m);
    var x, y := ReportsAreHeld(d, es, i);
    hide Step, Observed;
  }

  // ---------------------------------------------------------------- a clock that stays inside the bar

  predicate WithinBar(x: real, baseline: real, bar: real) {
    baseline - bar <= x <= baseline + bar
  }

  lemma {:induction false} SumWithin(samples: seq<Sample>, baseline: real, bar: real)
    requires forall s <- samples :: WithinBar(s.bpm, baseline, bar)
    ensures Times(|samples|, baseline - bar) <= Sum(samples) <= Times(|samples|, baseline + bar)
    decreases |samples|
  {
    hide Times;
    TimesSteps(0, baseline - bar);
    TimesSteps(0, baseline + bar);
    if samples != [] {
      var n := |samples| - 1;
      SumWithin(samples[..n], baseline, bar);
      assert WithinBar(samples[n].bpm, baseline, bar);
      TimesSteps(n, baseline - bar);
      TimesSteps(n, baseline + bar);
    }
  }

  function Times(n: nat, x: real): real {
    n as real * x
  }

  lemma TimesSteps(n: nat, x: real)
    ensures Times(n + 1, x) == Times(n, x) + x && Times(0, x) == 0.0
  {
    assert (n as real + 1.0) * x == n as real * x + x;
  }

  lemma MeanWithin(d: Detector, baseline: real, bar: real)
    requires d.samples != [] && forall s <- d.samples :: WithinBar(s.bpm, baseline, bar)
    ensures WithinBar(Mean(d), baseline, bar)
  {
    hide Sum;
    SumWithin(d.samples, baseline, bar);
    QuotientWithin(Sum(d.samples), |d.samples|, baseline - bar, baseline + bar);
  }

  lemma QuotientWithin(sum: real, n: nat, lo: real, hi: real)
    requires n > 0 && Times(n, lo) <= sum <= Times(n, hi)
    ensures lo <= sum / n as real <= hi
  {
    var m := sum / n as real;
    assert m * n as real == sum;
    OrderScales(m, lo, n as real, sum, lo * n as real);
    OrderScales(hi, m, n as real, hi * n as real, sum);
  }

  /** The baseline, and a window in which every sample lies inside the bar. */
  predicate Calm(d: Detector, baseline: real) {
    && d.lastTempo == baseline && d.cfg.meanWindow > 0
    && forall s <- d.samples :: WithinBar(s.bpm, baseline, ReportBar(d))
  }

  /** Readings inside the bar, and echo guards; nothing moves the baseline. */
  predicate CalmEvent(d: Detector, e: Event, baseline: real) {
    match e
    case Read(r, now) => Accepted(r) ==> WithinBar(r.value, baseline, ReportBar(d))
    case Guard(_) => true
    case Baseline(r) => !Accepted(r)
  }

  lemma {:induction false} TrimmedEndsWithNewest(samples: seq<Sample>, cut: int)
    requires samples != [] && samples[|samples| - 1].at >= cut
    ensures Trimmed(samples, cut) != []
    decreases |samples|
  {
    if samples[0].at < cut {
      TrimmedEndsWithNewest(samples[1..], cut);
    }
  }

  lemma CalmStep(d: Detector, e: Event, baseline: real)
    requires Calm(d, baseline) && CalmEvent(d, e, baseline)
    ensures Calm(Step(d, e).0, baseline) && Step(d, e).1.None? && ReportBar(Step(d, e).0) == ReportBar(d)
  {
    if e.Read? && Accepted(e.r) {
      var all := d.samples + [Sample(e.now, e.r.value)];
      TrimmedEndsWithNewest(all, e.now - d.cfg.meanWindow);
      var o := Observe(d, e.r.value, e.now);
      assert forall s <- o.samples :: s in all;
      hide Trimmed, Mean, ReportBar;
      MeanWithin(o, baseline, ReportBar(d));
      BarIgnoresSamples(d);
    } else {
      BarIgnoresSamples(d);
    }
  }

  lemma BarIgnoresSamples(d: Detector)
    ensures forall guard, candidate, samples ::
              ReportBar(Detector(d.cfg, d.lastTempo, guard, candidate, samples)) == ReportBar(d)
  {
  }

  /** A wandering clock is never reported: from a fresh detector, and from any whose window holds only samples inside
      the bar, no run of readings that all stay inside the bar is ever reported. */
  lemma {:induction false} WobbleIsNeverReported(d: Detector, es: seq<Event>, baseline: real, n: nat)
    requires Calm(d, baseline) && n <= |es|
    requires forall i :: 0 <= i < |es| ==> CalmEvent(d, es[i], baseline)
    ensures Calm(After(d, es[..n]), baseline) && ReportBar(After(d, es[..n])) == ReportBar(d)
    ensures forall i :: 0 <= i < n ==> ReportAt(d, es, i).None?
    decreases n
  {
    hide Step, Calm;
    if n > 0 {
      WobbleIsNeverReported(d, es, baseline, n - 1);
      AfterSplits(d, es, n);
      hide ReportBar;
      CalmStep(After(d, es[..n - 1]), es[n - 1], baseline);
    }
  }

  lemma FreshIsCalm(initialTempo: real, cfg: Tuning)
    ensures Calm(New(initialTempo, cfg), initialTempo) && New(initialTempo, cfg).candidate.None?
  {
  }

  // ---------------------------------------------------------------- what a report says

  /** A report tells the room nothing new exactly when the baseline is a whole tempo and the judged value, though
      beyond the bar, lies within the snap radius of it and rounds to it. */
  lemma ReportRepeatsBaselineIff(d: Detector, r: Reading, now: int)
    requires Check(d, r, now).1.Some? && d.cfg.integerSnap >= 0.0 && ReportBar(d) >= 0.0
    ensures Check(d, r, now).1.value == d.lastTempo
            <==> d.lastTempo == Round(Observed(d, r.value, now)) as real && d.lastTempo > 0.0
                 && Abs(Observed(d, r.value, now) - d.lastTempo) <= d.cfg.integerSnap
  {
    hide Observed, Trimmed, ReportBar;
  }

  /** It happens: at 120 BPM a steady 120.08 is reported, after the hold-down, as 120. */
  lemma SteadyOffsetIsReportedAsBaseline()
    ensures var d := New(120.0, Tuning(0.0, 0.0, 0.0, 0.0, 0, 0, 0.0, false));
            var e := Check(d, Bpm(120.08), 0).0;
            e.candidate.Some? && Check(e, Bpm(120.08), 1_000_000_000).1 == Some(120.0)
  {
    var d := New(120.0, Tuning(0.0, 0.0, 0.0, 0.0, 0, 0, 0.0, false));
    var s, t := Sample(0, 120.08), Sample(1_000_000_000, 120.08);
    assert Trimmed([] + [s], -4_000_000_000) == [s];
    assert Sum([s][..0]) == 0.0 && Sum([s]) == 120.08;
    assert Observed(d, 120.08, 0) == 120.08;
    var e := Check(d, Bpm(120.08), 0).0;
    assert e.samples == [s] && e.candidate == Some(Candidate(120.08, 0));
    assert Trimmed([s] + [t], -3_000_000_000) == [s, t];
    assert [s, t][..1] == [s];
    assert Sum([s, t]) == 240.16;
    assert Observed(e, 120.08, 1_000_000_000) == 120.08;
  }
}
