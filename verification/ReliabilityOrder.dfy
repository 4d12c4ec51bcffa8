/** How the error measures of a reliability diagram bound one another, for any corpus. */
module ReliabilityOrder {
  import opened Observations
  import opened Isotonic
  import opened IsotonicOptimal
  import opened Reliability
  import opened ReliabilityLaws

  lemma {:induction false} SumInRange(obs: seq<Observation>, bins: nat, b: nat)
    requires bins > 0
    ensures 0.0 <= SumIn(obs, bins, b, Happened()) <= CountIn(obs, bins, b) as real
    ensures InUnitAll(obs) ==> 0.0 <= SumIn(obs, bins, b, Stated()) <= CountIn(obs, bins, b) as real
  {
    hide BinOf;
    if obs == [] {
    } else {
      var init := obs[..|obs| - 1];
      SumInRange(init, bins, b);
      assert obs[|obs| - 1] in obs;
      assert forall o :: o in init ==> o in obs;
    }
  }

  lemma QuotientInUnit(x: real, n: real)
    requires n > 0.0 && 0.0 <= x <= n
    ensures 0.0 <= x / n <= 1.0
  {
  }

  /** No gap exceeds one. */
  lemma GapInUnit(obs: seq<Observation>, bins: nat, b: nat)
    requires bins > 0 && InUnitAll(obs)
    ensures Abs(BinReport(obs, bins, b).gap) <= 1.0
  {
    hide SumIn, CountIn, Width;
    SumInRange(obs, bins, b);
    if CountIn(obs, bins, b) > 0 {
      QuotientInUnit(SumIn(obs, bins, b, Stated()), CountIn(obs, bins, b) as real);
      QuotientInUnit(SumIn(obs, bins, b, Happened()), CountIn(obs, bins, b) as real);
    }
  }

  lemma {:induction false} MCEInUnit(obs: seq<Observation>, bins: nat, k: nat)
    requires bins > 0 && InUnitAll(obs)
    ensures MCE(obs, bins, k) <= 1.0
  {
    hide BinReport, InUnitAll;
    if k == 0 {
    } else {
      MCEInUnit(obs, bins, k - 1);
      GapInUnit(obs, bins, k - 1);
    }
  }

  /** The maximum only grows with more bins. */
  lemma {:induction false} MCEGrows(obs: seq<Observation>, bins: nat, j: nat, k: nat)
    requires bins > 0 && j <= k
    ensures MCE(obs, bins, j) <= MCE(obs, bins, k)
    decreases k
  {
    hide BinReport;
    if j == k {
    } else {
      MCEGrows(obs, bins, j, k - 1);
    }
  }

  /** The share of the traffic in the first `k` bins. */
  ghost function Shares(obs: seq<Observation>, bins: nat, k: nat): real
    requires bins > 0 && obs != []
  {
    Rate(CountBins(obs, bins, k) as real, obs)
  }

  lemma ShareAdds(obs: seq<Observation>, bins: nat, b: nat)
    requires bins > 0 && obs != []
    ensures Shares(obs, bins, b + 1) == Shares(obs, bins, b) + Share(obs, bins, b)
    ensures Share(obs, bins, b) >= 0.0
  {
    hide CountIn;
    RateAdds(CountBins(obs, bins, b) as real, CountIn(obs, bins, b) as real, obs);
  }

  lemma AllShares(obs: seq<Observation>, bins: nat)
    requires bins > 0 && obs != [] && InUnitAll(obs)
    ensures Shares(obs, bins, bins) == 1.0
  {
    hide CountBins;
    BinsPartition(obs, bins, One());
    RateOfCount(obs, |obs|);
  }

  // --------------------------------------------------------------------------
  // |mean confidence - accuracy| <= ECE <= MCE, and ECE^2 <= reliability <= MCE^2
  // --------------------------------------------------------------------------

  /** The signed gaps of the first `k` bins, weighted by traffic. */
  ghost function SignedGap(obs: seq<Observation>, bins: nat, k: nat): real
    requires bins > 0 && obs != []
  {
    if k == 0 then 0.0
    else SignedGap(obs, bins, k - 1) + Share(obs, bins, k - 1) * BinReport(obs, bins, k - 1).gap
  }

  lemma WeightedAtMost(w: real, x: real, y: real)
    requires w >= 0.0 && x <= y
    ensures w * x <= w * y
  {
  }

  lemma SignedBin(obs: seq<Observation>, bins: nat, b: nat)
    requires bins > 0 && obs != []
    ensures Abs(SignedGap(obs, bins, b + 1) - SignedGap(obs, bins, b)) <= ECE(obs, bins, b + 1) - ECE(obs, bins, b)
  {
    hide BinReport, Share;
    ShareAdds(obs, bins, b);
    AbsOfProduct(Share(obs, bins, b), BinReport(obs, bins, b).gap);
  }

  lemma AbsOfProduct(w: real, g: real)
    requires w >= 0.0
    ensures Abs(w * g) <= w * Abs(g)
  {
  }

  /** Averaging the gaps with their signs can only cancel error, never add it. */
  lemma {:induction false} SignedGapWithinECE(obs: seq<Observation>, bins: nat, k: nat)
    requires bins > 0 && obs != []
    ensures Abs(SignedGap(obs, bins, k)) <= ECE(obs, bins, k)
  {
    hide SignedGap, ECE;
    if k == 0 {
      NoSignedGap(obs, bins);
      NoFigures(obs, bins);
    } else {
      SignedGapWithinECE(obs, bins, k - 1);
      SignedBin(obs, bins, k - 1);
    }
  }

  /** A bin's weighted gap is its share of the total overstatement. */
  lemma WeightedGap(obs: seq<Observation>, bins: nat, b: nat)
    requires bins > 0 && obs != []
    ensures Share(obs, bins, b) * BinReport(obs, bins, b).gap
         == Rate(SumIn(obs, bins, b, Stated()), obs) - Rate(SumIn(obs, bins, b, Happened()), obs)
  {
    hide SumIn, CountIn, BinReport, Rate;
    var bin, r := BinReport(obs, bins, b), 1.0 / |obs| as real;
    RateScales(SumIn(obs, bins, b, Stated()), obs);
    RateScales(SumIn(obs, bins, b, Happened()), obs);
    if CountIn(obs, bins, b) == 0 {
      EmptyBin(obs, bins, b, Stated());
      EmptyBin(obs, bins, b, Happened());
    } else {
      BinMeans(obs, bins, b);
      ShareOfGap(bin.count as real, bin.meanConfidence, bin.accuracy, r, Share(obs, bins, b), |obs| as real);
    }
  }

  lemma ShareOfGap(n: real, m: real, a: real, r: real, share: real, total: real)
    requires total > 0.0 && r == 1.0 / total && share == n / total
    ensures share * (m - a) == r * (m * n) - r * (a * n)
  {
    assert share == r * n;
  }

  lemma {:induction false} SignedGapTotals(obs: seq<Observation>, bins: nat, k: nat)
    requires bins > 0 && obs != []
    ensures SignedGap(obs, bins, k)
         == Rate(SumBins(obs, bins, k, Stated()), obs) - Rate(SumBins(obs, bins, k, Happened()), obs)
  {
    hide SignedGap, SumBins, Rate;
    if k == 0 {
      NoSignedGap(obs, bins);
    } else {
      SignedGapTotals(obs, bins, k - 1);
      SignedGapAdds(obs, bins, k - 1);
    }
  }

  lemma NoSignedGap(obs: seq<Observation>, bins: nat)
    requires bins > 0 && obs != []
    ensures SignedGap(obs, bins, 0) == Rate(SumBins(obs, bins, 0, Stated()), obs)
         == Rate(SumBins(obs, bins, 0, Happened()), obs) == 0.0
  {
  }

  lemma SignedGapAdds(obs: seq<Observation>, bins: nat, b: nat)
    requires bins > 0 && obs != []
    ensures SignedGap(obs, bins, b + 1) - SignedGap(obs, bins, b)
         == Rate(SumBins(obs, bins, b + 1, Stated()), obs) - Rate(SumBins(obs, bins, b, Stated()), obs)
            - (Rate(SumBins(obs, bins, b + 1, Happened()), obs) - Rate(SumBins(obs, bins, b, Happened()), obs))
  {
    hide BinReport, Share, Rate, SumIn;
    WeightedGap(obs, bins, b);
    RateAdds(SumBins(obs, bins, b, Stated()), SumIn(obs, bins, b, Stated()), obs);
    RateAdds(SumBins(obs, bins, b, Happened()), SumIn(obs, bins, b, Happened()), obs);
  }

  /** A quantity at most `top` per unit of traffic. */
  ghost predicate AtMostShare(x: real, top: real, s: real) { x <= top * s }

  /** A quantity on or above the tangent at `e` to the square of `c`, per unit of traffic. */
  ghost predicate AboveTangent(r: real, e: real, c: real, s: real) { r >= 2.0 * e * c - e * e * s }

  lemma BoundsAdd(x: real, dx: real, top: real, s: real, ds: real)
    requires AtMostShare(x, top, s) && AtMostShare(dx, top, ds)
    ensures AtMostShare(x + dx, top, s + ds)
  {
    Distribute(top, s, ds);
  }

  lemma TangentsAdd(r: real, dr: real, e: real, c: real, dc: real, s: real, ds: real)
    requires AboveTangent(r, e, c, s) && AboveTangent(dr, e, dc, ds)
    ensures AboveTangent(r + dr, e, c + dc, s + ds)
  {
    Distribute(2.0 * e, c, dc);
    Distribute(e * e, s, ds);
  }

  /** What one bin adds respects each bound. */
  lemma BinBounds(obs: seq<Observation>, bins: nat, b: nat, e: real, top: real)
    requires bins > 0 && obs != [] && Abs(BinReport(obs, bins, b).gap) <= top
    ensures AtMostShare(ECE(obs, bins, b + 1) - ECE(obs, bins, b), top, Share(obs, bins, b))
    ensures AtMostShare(ReliabilityOf(obs, bins, b + 1) - ReliabilityOf(obs, bins, b), top * top, Share(obs, bins, b))
    ensures AboveTangent(
              ReliabilityOf(obs, bins, b + 1) - ReliabilityOf(obs, bins, b), e,
              ECE(obs, bins, b + 1) - ECE(obs, bins, b), Share(obs, bins, b))
  {
    hide BinReport, Share, Shares;
    var w, g := Share(obs, bins, b), BinReport(obs, bins, b).gap;
    ShareAdds(obs, bins, b);
    WeightedAtMost(w, Abs(g), top);
    SquareBounds(w, g, e, top);
  }

  lemma SquareBounds(w: real, g: real, e: real, top: real)
    requires w >= 0.0 && 0.0 <= Abs(g) <= top
    ensures w * g * g >= 2.0 * e * (w * Abs(g)) - e * e * w
    ensures w * g * g <= top * top * w
  {
    var x := Abs(g);
    assert g * g == x * x;
    assert w * g * g == w * (x * x);
    assert (x - e) * (x - e) == x * x - 2.0 * e * x + e * e;
    var sq := Square(x - e);
    WeightedAtMost(w, 0.0, sq);
    assert w * sq == w * (x * x) - 2.0 * e * (w * x) + e * e * w;
    WeightedAtMost(x, x, top);
    WeightedAtMost(top, x, top);
    WeightedAtMost(w, x * x, top * top);
  }

  /** The bounds accumulate over the bins; `e` is free, which gives weighted Cauchy-Schwarz. */
  lemma {:induction false} BoundsUpTo(obs: seq<Observation>, bins: nat, k: nat, e: real, top: real)
    requires bins > 0 && obs != []
    requires forall j: nat :: j < k ==> Abs(BinReport(obs, bins, j).gap) <= top
    ensures AtMostShare(ECE(obs, bins, k), top, Shares(obs, bins, k))
    ensures AtMostShare(ReliabilityOf(obs, bins, k), top * top, Shares(obs, bins, k))
    ensures AboveTangent(ReliabilityOf(obs, bins, k), e, ECE(obs, bins, k), Shares(obs, bins, k))
  {
    hide BinReport, Share, Shares, AtMostShare, AboveTangent, ECE, ReliabilityOf;
    if k == 0 {
      NoBounds(obs, bins, e, top);
    } else {
      var b := k - 1;
      BoundsUpTo(obs, bins, b, e, top);
      ShareAdds(obs, bins, b);
      BinBounds(obs, bins, b, e, top);
      var s, w, c, dc := Shares(obs, bins, b), Share(obs, bins, b), ECE(obs, bins, b), ECE(obs, bins, k) - ECE(obs, bins, b);
      var r, dr := ReliabilityOf(obs, bins, b), ReliabilityOf(obs, bins, k) - ReliabilityOf(obs, bins, b);
      BoundsAdd(c, dc, top, s, w);
      BoundsAdd(r, dr, top * top, s, w);
      TangentsAdd(r, dr, e, c, dc, s, w);
    }
  }

  lemma NoBounds(obs: seq<Observation>, bins: nat, e: real, top: real)
    requires bins > 0 && obs != []
    ensures AtMostShare(ECE(obs, bins, 0), top, Shares(obs, bins, 0))
    ensures AtMostShare(ReliabilityOf(obs, bins, 0), top * top, Shares(obs, bins, 0))
    ensures AboveTangent(ReliabilityOf(obs, bins, 0), e, ECE(obs, bins, 0), Shares(obs, bins, 0))
  {
  }

  lemma GapsWithinMCE(obs: seq<Observation>, bins: nat, k: nat)
    requires bins > 0
    ensures forall j: nat :: j < k ==> Abs(BinReport(obs, bins, j).gap) <= MCE(obs, bins, k)
  {
    hide BinReport;
    forall j: nat | j < k
      ensures Abs(BinReport(obs, bins, j).gap) <= MCE(obs, bins, k)
    {
      MCEGrows(obs, bins, j + 1, k);
    }
  }

  /**
   The order of the error measures. The overall over- or understatement never exceeds the expected
   error, which never exceeds the worst bin; and the reliability term lies between their squares.
   */
  lemma ErrorOrder(obs: seq<Observation>, bins: nat)
    requires bins > 0 && obs != [] && InUnitAll(obs)
    ensures
      var r := ReportOf(obs, bins);
      && Abs(r.meanConfidence - r.accuracy) <= r.ece <= r.mce <= 1.0
      && r.ece * r.ece <= r.reliability <= r.mce * r.mce
  {
    hide ECE, MCE, ReliabilityOf, ResolutionOf, ThinBins, BinReport, InUnitAll, Shares, Sum, SignedGap,
      AtMostShare, AboveTangent;
    var ece, mce := ECE(obs, bins, bins), MCE(obs, bins, bins);
    AllShares(obs, bins);
    SignedGapIsBias(obs, bins);
    SignedGapWithinECE(obs, bins, bins);
    GapsWithinMCE(obs, bins, bins);
    BoundsUpTo(obs, bins, bins, ece, mce);
    MCEInUnit(obs, bins, bins);
    BothSquares(ReliabilityOf(obs, bins, bins), ece, mce);
  }

  lemma BothSquares(rel: real, ece: real, mce: real)
    requires AtMostShare(ece, mce, 1.0) && AtMostShare(rel, mce * mce, 1.0) && AboveTangent(rel, ece, ece, 1.0)
    ensures ece <= mce && ece * ece <= rel <= mce * mce
  {
  }

  lemma SignedGapIsBias(obs: seq<Observation>, bins: nat)
    requires bins > 0 && obs != [] && InUnitAll(obs)
    ensures SignedGap(obs, bins, bins) == Sum(obs, Stated()) / |obs| as real - Accuracy(obs)
  {
    hide SumBins, SignedGap, Sum;
    SignedGapTotals(obs, bins, bins);
    BinsPartition(obs, bins, Stated());
    BinsPartition(obs, bins, Happened());
  }
}
