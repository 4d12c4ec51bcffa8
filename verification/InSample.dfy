/** Correcting a corpus with the calibrator fitted on that same corpus (internal/calib/calib.go). */
module InSample {
  import opened Observations
  import opened Isotonic
  import opened IsotonicOptimal
  import opened Reliability
  import opened ReliabilityLaws

  /** Every stated confidence replaced by its correction; outcomes unchanged. */
  function Recalibrated(obs: seq<Observation>, c: Calibrator): (out: seq<Observation>)
    ensures |out| == |obs|
  {
    seq(|obs|, i requires 0 <= i < |obs| => Observation(Apply(c, obs[i].confidence), obs[i].correct))
  }

  // --------------------------------------------------------------------------
  // Corrections are frequencies
  // --------------------------------------------------------------------------

  lemma {:induction false} HitsWithinCount(obs: seq<Observation>, x: real)
    ensures 0.0 <= HitsAt(obs, x) <= CountAt(obs, x)
  {
    if obs == [] {
    } else {
      HitsWithinCount(obs[..|obs| - 1], x);
    }
  }

  lemma {:induction false} SumsWithinWeights(obs: seq<Observation>, pts: seq<Point>, a: nat, b: nat)
    requires ArePoints(obs, pts) && a <= b <= |pts|
    ensures 0.0 <= S(pts, b) - S(pts, a) <= W(pts, b) - W(pts, a)
    decreases b
  {
    if a == b {
    } else {
      SumsWithinWeights(obs, pts, a, b - 1);
      HitsWithinCount(obs, pts[b - 1].x);
      assert pts[b - 1] == PointAt(obs, pts[b - 1].x);
    }
  }

  lemma MeanInUnit(s: real, w: real, v: real)
    requires w > 0.0 && 0.0 <= s <= w && s - v * w == 0.0
    ensures 0.0 <= v <= 1.0
  {
    CancelWeight(0.0, v, w);
    CancelWeight(v, 1.0, w);
  }

  lemma BlockInUnit(obs: seq<Observation>, pts: seq<Point>, a: nat, b: nat, v: real)
    requires ArePoints(obs, pts) && a < b <= |pts| && Dev(pts, a, b, v) == 0.0
    ensures 0.0 <= v <= 1.0
  {
    hide S, W;
    SumsWithinWeights(obs, pts, a, b);
    WeightGrows(pts, a, b);
    MeanInUnit(S(pts, b) - S(pts, a), W(pts, b) - W(pts, a), v);
  }

  /** Every correction, at any confidence, is a frequency between 0 and 1. */
  lemma CorrectionInUnit(obs: seq<Observation>, c: Calibrator, x: real)
    requires IsFit(obs, c)
    ensures 0.0 <= Apply(c, x) <= 1.0
  {
    hide Dev, IsBlock;
    var pts: seq<Point>, bounds: seq<nat> :| ArePoints(obs, pts) && IsStepFunction(pts, bounds, c);
    assert obs[0] in obs;
    var i := FirstAtLeast(c.upper, x);
    var t := if i >= |c.value| then |c.value| - 1 else i;
    TheBlock(pts, bounds, c, t);
    BlockInUnit(obs, pts, bounds[t], bounds[t + 1], c.value[t]);
  }

  lemma RecalibratedInUnit(obs: seq<Observation>, c: Calibrator)
    requires IsFit(obs, c)
    ensures InUnitAll(Recalibrated(obs, c))
  {
    hide IsFit, Apply;
    forall o | o in Recalibrated(obs, c)
      ensures InUnit(o)
    {
      var i :| 0 <= i < |obs| && o == Recalibrated(obs, c)[i];
      CorrectionInUnit(obs, c, obs[i].confidence);
    }
  }

  // --------------------------------------------------------------------------
  // Residuals balance wherever the corrected values are told apart
  // --------------------------------------------------------------------------

  /** `keep` of the correction, times the correction. */
  ghost function KeptValue(keep: real -> real, c: Calibrator): real -> real { x => keep(Apply(c, x)) * Apply(c, x) }

  ghost function KeptSlope(keep: real -> real, c: Calibrator): real -> real { x => -keep(Apply(c, x)) }

  lemma ResidualAtPoint(obs: seq<Observation>, pts: seq<Point>, i: nat, v: real, keep: real -> real, c: Calibrator)
    requires ArePoints(obs, pts) && i < |pts| && Apply(c, pts[i].x) == v
    ensures SumPoints(obs, pts, i + 1, KeptValue(keep, c), KeptSlope(keep, c))
         == SumPoints(obs, pts, i, KeptValue(keep, c), KeptSlope(keep, c)) + Times(-keep(v), Dev(pts, i, i + 1, v))
  {
    hide Apply;
    var p := pts[i];
    assert p == PointAt(obs, p.x);
    assert S(pts, i + 1) == S(pts, i) + p.sum && W(pts, i + 1) == W(pts, i) + p.weight;
    ResidualStep(keep(v), v, p.weight, p.sum);
  }

  lemma ResidualStep(k: real, v: real, w: real, s: real)
    ensures (k * v) * w + (-k) * s == (-k) * (s - v * w)
  {
  }

  lemma TimesAdds(k: real, x: real, y: real)
    ensures Times(k, x + y) == Times(k, x) + Times(k, y)
  {
  }

  lemma {:induction false} ResidualInBlock(
      obs: seq<Observation>, pts: seq<Point>, a: nat, k: nat, b: nat, v: real, keep: real -> real, c: Calibrator)
    requires ArePoints(obs, pts) && a <= k <= b <= |pts|
    requires forall i :: a <= i < b ==> Apply(c, pts[i].x) == v
    ensures SumPoints(obs, pts, k, KeptValue(keep, c), KeptSlope(keep, c))
         == SumPoints(obs, pts, a, KeptValue(keep, c), KeptSlope(keep, c)) + Times(-keep(v), Dev(pts, a, k, v))
    decreases k
  {
    hide Times, SumPoints, KeptValue, KeptSlope, Apply, Dev, ArePoints;
    if k == a {
      NoDev(pts, a, v, -keep(v));
    } else {
      ResidualInBlock(obs, pts, a, k - 1, b, v, keep, c);
      ResidualAtPoint(obs, pts, k - 1, v, keep, c);
      DevAdds(pts, a, k - 1, k, v);
      TimesAdds(-keep(v), Dev(pts, a, k - 1, v), Dev(pts, k - 1, k, v));
    }
  }

  lemma NoDev(pts: seq<Point>, a: nat, v: real, k: real)
    requires a <= |pts|
    ensures Times(k, Dev(pts, a, a, v)) == 0.0
  {
  }

  lemma ApplyAcross(pts: seq<Point>, bounds: seq<nat>, c: Calibrator, t: nat)
    requires Increasing(pts) && IsStepFunction(pts, bounds, c) && t < |c.value|
    ensures bounds[t] <= bounds[t + 1] <= |pts|
    ensures forall i :: bounds[t] <= i < bounds[t + 1] ==> Apply(c, pts[i].x) == c.value[t]
  {
    TheBlock(pts, bounds, c, t);
    forall i | bounds[t] <= i < bounds[t + 1]
      ensures Apply(c, pts[i].x) == c.value[t]
    {
      ApplyInBlock(pts, bounds, c, t, i);
    }
  }

  lemma {:induction false} ResidualsUpTo(
      obs: seq<Observation>, pts: seq<Point>, bounds: seq<nat>, c: Calibrator, keep: real -> real, u: nat)
    requires ArePoints(obs, pts) && IsStepFunction(pts, bounds, c) && u <= |c.value|
    ensures bounds[u] <= |pts|
    ensures SumPoints(obs, pts, bounds[u], KeptValue(keep, c), KeptSlope(keep, c)) == 0.0
    decreases u
  {
    hide KeptValue, KeptSlope, Apply, Dev, IsBlock, Times;
    BoundsIncrease(pts, bounds, c, u, |c.value|);
    if u == 0 {
    } else {
      var t := u - 1;
      ResidualsUpTo(obs, pts, bounds, c, keep, t);
      ApplyAcross(pts, bounds, c, t);
      TheBlock(pts, bounds, c, t);
      ResidualInBlock(obs, pts, bounds[t], bounds[u], bounds[u], c.value[t], keep, c);
      TimesZero(-keep(c.value[t]), Dev(pts, bounds[t], bounds[u], c.value[t]));
    }
  }

  /** Correction minus outcome sums to zero over any part of the corpus picked out by the correction. */
  lemma ResidualsBalance(obs: seq<Observation>, c: Calibrator, keep: real -> real)
    requires IsFit(obs, c)
    ensures SumObs(obs, KeptValue(keep, c), KeptSlope(keep, c)) == 0.0
  {
    hide KeptValue, KeptSlope;
    var pts: seq<Point>, bounds: seq<nat> :| ArePoints(obs, pts) && IsStepFunction(pts, bounds, c);
    ResidualsUpTo(obs, pts, bounds, c, keep, |c.value|);
    PoolingPreservesSums(obs, pts, KeptValue(keep, c), KeptSlope(keep, c));
  }

  /** Picks out the corrections of one bin. */
  ghost function InBin(bins: nat, b: nat): real -> real
    requires bins > 0
  {
    v => if v >= 0.0 && BinOf(bins, v) == b then 1.0 else 0.0
  }

  lemma RecalibratedPrefix(obs: seq<Observation>, c: Calibrator)
    requires obs != []
    ensures Recalibrated(obs, c)[..|obs| - 1] == Recalibrated(obs[..|obs| - 1], c)
  {
    hide Apply;
  }

  lemma {:induction false} BinResidual(obs: seq<Observation>, c: Calibrator, bins: nat, b: nat)
    requires bins > 0
    ensures SumIn(Recalibrated(obs, c), bins, b, Stated()) - SumIn(Recalibrated(obs, c), bins, b, Happened())
         == SumObs(obs, KeptValue(InBin(bins, b), c), KeptSlope(InBin(bins, b), c))
  {
    hide BinOf, Apply;
    if obs == [] {
    } else {
      BinResidual(obs[..|obs| - 1], c, bins, b);
      RecalibratedPrefix(obs, c);
    }
  }

  lemma {:induction false} ZeroGaps(obs: seq<Observation>, bins: nat, k: nat)
    requires bins > 0 && obs != []
    requires forall b: nat :: b < k ==> BinReport(obs, bins, b).gap == 0.0
    ensures ECE(obs, bins, k) == MCE(obs, bins, k) == ReliabilityOf(obs, bins, k) == 0.0
  {
    hide BinReport, Share;
    if k == 0 {
    } else {
      ZeroGaps(obs, bins, k - 1);
    }
  }

  /**
   In-sample calibration is perfect by construction: at every bin count, correcting a corpus with
   its own calibrator leaves no expected error, no worst-bin error and no reliability term.
   */
  lemma InSampleIsPerfect(obs: seq<Observation>, c: Calibrator, bins: nat)
    requires bins > 0 && IsFit(obs, c)
    ensures var r := ReportOf(Recalibrated(obs, c), bins);
            r.ece == r.mce == r.reliability == 0.0
  {
    hide IsFit, ECE, MCE, ReliabilityOf, SumIn, CountIn, Sum, Width, KeptValue, KeptSlope, InBin, Recalibrated;
    var out := Recalibrated(obs, c);
    forall b: nat | b < bins
      ensures BinReport(out, bins, b).gap == 0.0
    {
      BinResidual(obs, c, bins, b);
      ResidualsBalance(obs, c, InBin(bins, b));
    }
    NotEmpty(obs, c);
    ZeroGaps(out, bins, bins);
  }

  lemma NotEmpty(obs: seq<Observation>, c: Calibrator)
    requires IsFit(obs, c)
    ensures Recalibrated(obs, c) != []
  {
  }

  // --------------------------------------------------------------------------
  // The Brier score never gets worse in sample
  // --------------------------------------------------------------------------

  lemma {:induction false} BrierIsLoss(obs: seq<Observation>, c: Calibrator)
    ensures Sum(Recalibrated(obs, c), SquaredMiss()) == Loss(obs, Corrected(c))
    ensures Sum(obs, SquaredMiss()) == Loss(obs, x => x)
  {
    hide Apply;
    if obs == [] {
    } else {
      BrierIsLoss(obs[..|obs| - 1], c);
      RecalibratedPrefix(obs, c);
    }
  }

  lemma RateMonotone(x: real, y: real, n: real)
    requires n > 0.0 && x <= y
    ensures x / n <= y / n
  {
  }

  /** Leaving the confidences alone is one of the monotone corrections the fit is compared with. */
  lemma InSampleBrierImproves(obs: seq<Observation>, c: Calibrator, bins: nat)
    requires bins > 0 && IsFit(obs, c)
    ensures ReportOf(Recalibrated(obs, c), bins).brier <= ReportOf(obs, bins).brier
  {
    hide IsFit, Sum, Loss, Distance, Recalibrated, ECE, MCE, ReliabilityOf, ResolutionOf, BinReport, Accuracy;
    BrierIsLoss(obs, c);
    NotEmpty(obs, c);
    FitIsLeastSquares(obs, c, x => x);
    ZeroDistance(obs, x => x, Corrected(c));
    RateMonotone(Sum(Recalibrated(obs, c), SquaredMiss()), Sum(obs, SquaredMiss()), |obs| as real);
  }
}
