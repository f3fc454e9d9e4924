/** What the tempo detector hears and says: what its window holds, what it judges a reading on, that a change that lasts is
    reported and as what, and that an armed echo guard silences it. */
module TempoReports {
  import opened Common
  import opened Interval
  import opened TempoDetector

  // ---------------------------------------------------------------- the window

  /** Times never run backwards. */
  predicate InOrder(samples: seq<Sample>) {
    forall i, j :: 0 <= i < j < |samples| ==> samples[i].at <= samples[j].at
  }

  /** Trimming drops samples off the front as long as they are too old, and no more. */
  lemma {:induction false} TrimmedIsSuffix(samples: seq<Sample>, cut: int)
    ensures var r := Trimmed(samples, cut); var k := |samples| - |r|;
            && 0 <= k && r == samples[k..] && (forall i :: 0 <= i < k ==> samples[i].at < cut) && (r != [] ==> r[0].at >= cut)
    decreases |samples|
  {
    if samples != [] && samples[0].at < cut {
      TrimmedIsSuffix(samples[1..], cut);
      var r := Trimmed(samples, cut);
      var k := |samples| - |r|;
      forall i | 0 <= i < k
        ensures samples[i].at < cut
      {
        if i > 0 {
          assert samples[i] == samples[1..][i - 1];
        }
      }
    }
  }

  /** THE WINDOW IS THE RECENT PAST: while times do not run backwards, folding a reading in keeps the new one and every one
      no older than the window, in order, and nothing else. */
  lemma WindowIsRecent(d: Detector, bpm: real, now: int)
    requires InOrder(d.samples + [Sample(now, bpm)]) && d.cfg.meanWindow >= 0
    ensures var all, r := d.samples + [Sample(now, bpm)], Observe(d, bpm, now).samples; var k := |all| - |r|;
            && 0 <= k < |all| && r == all[k..] && InOrder(r)
            && forall i :: 0 <= i < |all| ==> (i >= k <==> now - all[i].at <= d.cfg.meanWindow)
  {
    var all := d.samples + [Sample(now, bpm)];
    TrimmedIsSuffix(all, now - d.cfg.meanWindow);
    assert all[|all| - 1] == Sample(now, bpm);
    hide Trimmed;
  }

  // ---------------------------------------------------------------- what a reading is judged on

  function Total(samples: seq<Sample>): real
    decreases |samples|
  {
    if samples == [] then 0.0 else samples[0].bpm + Total(samples[1..])
  }

  lemma {:induction false} SumIsTotal(samples: seq<Sample>)
    ensures Sum(samples) == Total(samples)
    decreases |samples|
  {
    if |samples| > 1 {
      var n := |samples| - 1;
      SumIsTotal(samples[..n]);
      SumIsTotal(samples[1..]);
      SumIsTotal(samples[1..n]);
      assert samples[1..][..n - 1] == samples[1..n] && samples[..n][1..] == samples[1..n];
      assert Total(samples[..n]) == samples[0].bpm + Total(samples[1..n]);
      assert Sum(samples[1..]) == Sum(samples[1..n]) + samples[n].bpm;
    } else if |samples| == 1 {
      assert samples[..0] == [] && samples[1..] == [];
    }
  }

  /** The mean is the one number that, taken for every sample, gives their total. */
  lemma MeanIsAverage(d: Detector)
    ensures d.samples != [] ==> Mean(d) * |d.samples| as real == Total(d.samples)
    ensures d.samples == [] ==> Mean(d) == d.lastTempo
  {
    SumIsTotal(d.samples);
  }

  /** A reading far from the baseline is judged as it is, one near it by the average over the window that it ends. */
  lemma JudgedOn(d: Detector, bpm: real, now: int)
    requires d.cfg.meanWindow >= 0
    ensures var o, w := Observed(d, bpm, now), Observe(d, bpm, now).samples;
            && w != [] && w[|w| - 1] == Sample(now, bpm)
            && (bpm - d.lastTempo > d.cfg.meanRegime || d.lastTempo - bpm > d.cfg.meanRegime ==> o == bpm)
            && (-d.cfg.meanRegime <= bpm - d.lastTempo <= d.cfg.meanRegime ==> o * |w| as real == Total(w))
  {
    var all := d.samples + [Sample(now, bpm)];
    TrimmedIsSuffix(all, now - d.cfg.meanWindow);
    assert all[|all| - 1] == Sample(now, bpm);
    MeanIsAverage(Observe(d, bpm, now));
    hide Trimmed, Sum, Total;
  }

  /** The bar a reading must clear: the fixed one if there is one, else the larger of the floor and what the slew of a
      clock-following session can amount to at the baseline, 0.05% of it. */
  lemma BarIs(d: Detector)
    ensures d.cfg.reportBarFixed > 0.0 ==> ReportBar(d) == d.cfg.reportBarFixed
    ensures d.cfg.reportBarFixed <= 0.0 && d.lastTempo > 0.0 ==>
              var slew := d.lastTempo * 0.0005;
              && ReportBar(d) >= slew && ReportBar(d) >= d.cfg.reportFloor
              && (ReportBar(d) == slew || ReportBar(d) == d.cfg.reportFloor)
  {
  }

  // ---------------------------------------------------------------- what is said

  /** What is reported becomes the baseline, and its case is closed; nothing else a reading does moves the baseline. */
  lemma ReportBecomesBaseline(d: Detector, r: Reading, now: int)
    ensures var (e, said) := Check(d, r, now);
            && e.lastTempo == (if said.Some? then said.value else d.lastTempo)
            && (said.Some? ==> e.candidate.None? && e.guard.None?)
            && e.samples == (if Accepted(r) then Observe(d, r.value, now).samples else d.samples)
  {
    hide Trimmed, Observed, Snap, ReportBar;
  }

  /** A whole tempo within the radius is what is reported, the nearest one; with none there, the tempo itself. */
  lemma SnapsToTheNearest(bpm: real, radius: real, m: int)
    requires radius >= 0.0
    ensures m > 0 && -0.5 < bpm - m as real < 0.5 && -radius <= bpm - m as real <= radius ==> Snap(bpm, radius) == m as real
    ensures Snap(bpm, radius) == bpm
            || (Round(bpm) > 0 && Snap(bpm, radius) == Round(bpm) as real && -radius <= bpm - Snap(bpm, radius) <= radius)
  {
    hide Round;
    if -0.5 < bpm - m as real < 0.5 {
      NearestWhole(bpm, m);
    }
  }

  lemma NearestWhole(x: real, m: int)
    requires -0.5 < x - m as real < 0.5
    ensures Round(x) == m
  {
    hide Round;
    var r := Round(x);
    assert -1.0 < r as real - m as real < 1.0;
    assert -1 < r - m < 1;
  }

  /** The case for c, open since event j, stays open until something is reported. */
  lemma {:induction false} CaseStays(d: Detector, es: seq<Event>, j: nat, n: nat, c: Candidate, baseline: real)
    requires Holds(d, es, j, n, baseline, c) && After(d, es[..j + 1]).candidate == Some(c) && NoReports(d, es, j + 1, n)
    ensures After(d, es[..n]).candidate == Some(c)
    decreases n
  {
    if n > j + 1 {
      var k := n - 1;
      assert Holds(d, es, j, k, baseline, c);
      CaseStays(d, es, j, k, c, baseline);
      AfterSplits(d, es, n);
      assert SupportsAt(d, es, k, baseline, c.bpm);
      assert ReportAt(d, es, k).None?;
      hide Observed, Observe, Snap, ReportBar;
    }
  }

  /** A CHANGE THAT LASTS IS REPORTED: a case opened at event j, unbroken up to an accepted reading at least the hold-down
      later, has been reported by then. */
  lemma LastingChangeIsReported(d: Detector, es: seq<Event>, j: nat, n: nat, c: Candidate, baseline: real)
    requires Holds(d, es, j, n, baseline, c) && j + 1 < n && After(d, es[..j + 1]).candidate == Some(c)
    requires var e := es[n - 1]; e.Read? && Accepted(e.r) && e.now - c.since >= After(d, es[..n - 1]).cfg.holdDown
    ensures exists k :: j < k < n && ReportAt(d, es, k).Some?
  {
    if NoReports(d, es, j + 1, n - 1) {
      assert Holds(d, es, j, n - 1, baseline, c);
      CaseStays(d, es, j, n - 1, c, baseline);
      assert SupportsAt(d, es, n - 1, baseline, c.bpm);
      hide Observed, Observe, Snap, ReportBar;
      assert ReportAt(d, es, n - 1).Some?;
    } else {
      var k :| j + 1 <= k < n - 1 && !ReportAt(d, es, k).None?;
    }
  }

  /** A case opens at any accepted, unguarded reading judged beyond the bar while none is pending, or none so near; the
      candidate is what it was judged on. */
  lemma CaseOpens(d: Detector, bpm: real, now: int)
    requires bpm > 0.0 && !Guarded(d, now)
    requires var o := Observed(d, bpm, now);
             && (o - d.lastTempo > ReportBar(d) || d.lastTempo - o > ReportBar(d))
             && (d.candidate.Some? ==> Abs(o - d.candidate.value.bpm) > d.cfg.steadyBand)
    ensures var (e, r) := Check(d, Bpm(bpm), now); r.None? && e.candidate == Some(Candidate(Observed(d, bpm, now), now))
  {
    hide Observed, Observe, ReportBar;
  }

  // ---------------------------------------------------------------- the echo guard

  /** Readings before the guard runs out. */
  predicate BeforeGuard(es: seq<Event>, expiry: int) {
    forall e <- es :: e.Read? && e.now < expiry
  }

  /** AN ECHO GUARD SILENCES: from the moment it is armed nothing read before it runs out is reported, moves the baseline, or
      counts towards a case. */
  lemma {:induction false} GuardSilences(d: Detector, expiry: int, es: seq<Event>, i: nat)
    requires BeforeGuard(es, expiry)
    ensures var a := After(ArmEchoGuard(d, expiry), es);
            a.lastTempo == d.lastTempo && a.candidate.None? && a.guard == Some(expiry)
    ensures i < |es| ==> ReportAt(ArmEchoGuard(d, expiry), es, i).None?
    decreases |es|, i
  {
    hide Trimmed;
    if es != [] {
      var n := |es| - 1;
      GuardSilences(d, expiry, es[..n], 0);
      assert es[n] in es;
      if i < |es| {
        GuardSilences(d, expiry, es[..i], 0);
        assert es[i] in es;
      }
    }
  }

  /** From the moment the guard runs out readings are judged again: the first one lays it down. */
  lemma GuardRunsOut(d: Detector, bpm: real, now: int)
    requires bpm > 0.0 && d.guard.Some?
    ensures Check(d, Bpm(bpm), now).0.guard == if now >= d.guard.value then None else d.guard
  {
    hide Trimmed, Observed, Snap, ReportBar;
  }
}
