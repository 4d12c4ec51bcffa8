/** What the figures of a reliability diagram mean: identities and orders that hold for any corpus. */
module ReliabilityLaws {
  import opened Observations
  import opened Isotonic
  import opened IsotonicOptimal
  import opened Reliability

  // --------------------------------------------------------------------------
  // The bins partition the corpus
  // --------------------------------------------------------------------------

  ghost predicate InUnitAll(obs: seq<Observation>) { forall o :: o in obs ==> InUnit(o) }

  /** The sum over the first `k` bins. */
  ghost function SumBins(obs: seq<Observation>, bins: nat, k: nat, g: Weigh): real
    requires bins > 0
  {
    if k == 0 then 0.0 else SumBins(obs, bins, k - 1, g) + SumIn(obs, bins, k - 1, g)
  }

  ghost function CountBins(obs: seq<Observation>, bins: nat, k: nat): nat
    requires bins > 0
  {
    if k == 0 then 0 else CountBins(obs, bins, k - 1) + CountIn(obs, bins, k - 1)
  }

  lemma {:induction false} SumBinsGrows(init: seq<Observation>, o: Observation, bins: nat, k: nat, g: Weigh)
    requires bins > 0 && InUnit(o)
    ensures SumBins(init + [o], bins, k, g)
         == SumBins(init, bins, k, g) + if BinOf(bins, o.confidence) < k then g(o) else 0.0
    ensures CountBins(init + [o], bins, k)
         == CountBins(init, bins, k) + if BinOf(bins, o.confidence) < k then 1 else 0
  {
    hide BinOf;
    assert (init + [o])[..|init|] == init;
    if k == 0 {
    } else {
      SumBinsGrows(init, o, bins, k - 1, g);
    }
  }

  lemma {:induction false} EmptySums(bins: nat, k: nat, g: Weigh)
    requires bins > 0
    ensures SumBins([], bins, k, g) == 0.0 && CountBins([], bins, k) == 0
  {
    if k == 0 {
    } else {
      EmptySums(bins, k - 1, g);
    }
  }

  /** Every observation lands in exactly one bin. */
  lemma {:induction false} BinsPartition(obs: seq<Observation>, bins: nat, g: Weigh)
    requires bins > 0 && InUnitAll(obs)
    ensures SumBins(obs, bins, bins, g) == Sum(obs, g) && CountBins(obs, bins, bins) == |obs|
  {
    if obs == [] {
      EmptySums(bins, bins, g);
    } else {
      var init, o := obs[..|obs| - 1], obs[|obs| - 1];
      assert obs == init + [o];
      assert InUnitAll(init) && InUnit(o);
      BinsPartition(init, bins, g);
      SumBinsGrows(init, o, bins, bins, g);
    }
  }

  // --------------------------------------------------------------------------
  // Spread inside a bin
  // --------------------------------------------------------------------------

  /** The squared deviation of the stated confidence from `m`. */
  ghost function ConfidenceSpread(m: real): Weigh { (o: Observation) => (o.confidence - m) * (o.confidence - m) }

  /** The joint deviation of stated confidence and outcome. */
  ghost function JointSpread(m: real, a: real): Weigh { (o: Observation) => (o.confidence - m) * (Hit(o) - a) }

  ghost function StatedSquared(): Weigh { (o: Observation) => o.confidence * o.confidence }

  ghost function StatedHits(): Weigh { (o: Observation) => o.confidence * Hit(o) }

  ghost function Combined(g1: Weigh, k2: real, g2: Weigh, k3: real, g3: Weigh, k: real): Weigh {
    (o: Observation) => g1(o) + k2 * g2(o) + k3 * g3(o) + k
  }

  lemma Distribute(k: real, x: real, y: real)
    ensures k * (x + y) == k * x + k * y
  {
  }

  /** Sums over a bin are linear. */
  lemma {:induction false} SumInCombines(
      obs: seq<Observation>, bins: nat, b: nat, g1: Weigh, k2: real, g2: Weigh, k3: real, g3: Weigh, k: real)
    requires bins > 0
    ensures SumIn(obs, bins, b, Combined(g1, k2, g2, k3, g3, k))
         == SumIn(obs, bins, b, g1) + k2 * SumIn(obs, bins, b, g2) + k3 * SumIn(obs, bins, b, g3)
            + k * CountIn(obs, bins, b) as real
  {
    hide BinOf;
    if obs == [] {
    } else {
      var init, o := obs[..|obs| - 1], obs[|obs| - 1];
      SumInCombines(init, bins, b, g1, k2, g2, k3, g3, k);
      Distribute(k2, SumIn(init, bins, b, g2), g2(o));
      Distribute(k3, SumIn(init, bins, b, g3), g3(o));
      Distribute(k, CountIn(init, bins, b) as real, 1.0);
    }
  }

  lemma {:induction false} SumInPointwise(obs: seq<Observation>, bins: nat, b: nat, f: Weigh, g: Weigh)
    requires bins > 0
    requires forall o :: f(o) == g(o)
    ensures SumIn(obs, bins, b, f) == SumIn(obs, bins, b, g)
  {
    hide BinOf;
    if obs == [] {
    } else {
      SumInPointwise(obs[..|obs| - 1], bins, b, f, g);
    }
  }

  lemma OneSpread(o: Observation, m: real, a: real)
    ensures ConfidenceSpread(m)(o) == Combined(StatedSquared(), -2.0 * m, Stated(), 0.0, Happened(), m * m)(o)
    ensures JointSpread(m, a)(o) == Combined(StatedHits(), -m, Happened(), -a, Stated(), m * a)(o)
    ensures SquaredMiss()(o) == Combined(StatedSquared(), -2.0, StatedHits(), 1.0, Happened(), 0.0)(o)
  {
    var c, y := o.confidence, Hit(o);
    assert (c - m) * (c - m) == c * c - 2.0 * m * c + m * m;
    assert (c - m) * (y - a) == c * y - m * y - a * c + m * a;
    assert (c - y) * (c - y) == c * c - 2.0 * (c * y) + y * y;
  }

  /** Each spread is a combination of five raw sums. */
  lemma SpreadsExpand(obs: seq<Observation>, bins: nat, b: nat, m: real, a: real)
    requires bins > 0
    ensures
      var n, c, h := CountIn(obs, bins, b) as real, SumIn(obs, bins, b, Stated()), SumIn(obs, bins, b, Happened());
      var cc, ch := SumIn(obs, bins, b, StatedSquared()), SumIn(obs, bins, b, StatedHits());
      && SumIn(obs, bins, b, ConfidenceSpread(m)) == cc - 2.0 * m * c + m * m * n
      && SumIn(obs, bins, b, JointSpread(m, a)) == ch - m * h - a * c + m * a * n
      && SumIn(obs, bins, b, SquaredMiss()) == cc - 2.0 * ch + h
  {
    hide SumIn, CountIn, ConfidenceSpread, JointSpread, SquaredMiss, Combined, StatedSquared, StatedHits, Stated, Happened;
    forall o: Observation
      ensures ConfidenceSpread(m)(o) == Combined(StatedSquared(), -2.0 * m, Stated(), 0.0, Happened(), m * m)(o)
      ensures JointSpread(m, a)(o) == Combined(StatedHits(), -m, Happened(), -a, Stated(), m * a)(o)
      ensures SquaredMiss()(o) == Combined(StatedSquared(), -2.0, StatedHits(), 1.0, Happened(), 0.0)(o)
    {
      OneSpread(o, m, a);
    }
    SumInPointwise(obs, bins, b, ConfidenceSpread(m), Combined(StatedSquared(), -2.0 * m, Stated(), 0.0, Happened(), m * m));
    SumInCombines(obs, bins, b, StatedSquared(), -2.0 * m, Stated(), 0.0, Happened(), m * m);
    SumInPointwise(obs, bins, b, JointSpread(m, a), Combined(StatedHits(), -m, Happened(), -a, Stated(), m * a));
    SumInCombines(obs, bins, b, StatedHits(), -m, Happened(), -a, Stated(), m * a);
    SumInPointwise(obs, bins, b, SquaredMiss(), Combined(StatedSquared(), -2.0, StatedHits(), 1.0, Happened(), 0.0));
    SumInCombines(obs, bins, b, StatedSquared(), -2.0, StatedHits(), 1.0, Happened(), 0.0);
  }

  /** Within-bin variance of the stated confidence, summed over the first `k` bins. */
  ghost function Variance(obs: seq<Observation>, bins: nat, k: nat): real
    requires bins > 0
  {
    if k == 0 then 0.0
    else
      Variance(obs, bins, k - 1)
      + SumIn(obs, bins, k - 1, ConfidenceSpread(BinReport(obs, bins, k - 1).meanConfidence))
  }

  /** Within-bin covariance of stated confidence and outcome, summed over the first `k` bins. */
  ghost function Covariance(obs: seq<Observation>, bins: nat, k: nat): real
    requires bins > 0
  {
    if k == 0 then 0.0
    else
      var bin := BinReport(obs, bins, k - 1);
      Covariance(obs, bins, k - 1) + SumIn(obs, bins, k - 1, JointSpread(bin.meanConfidence, bin.accuracy))
  }

  // --------------------------------------------------------------------------
  // The Brier decomposition
  // --------------------------------------------------------------------------

  lemma {:induction false} EmptyBin(obs: seq<Observation>, bins: nat, b: nat, g: Weigh)
    requires bins > 0 && CountIn(obs, bins, b) == 0
    ensures SumIn(obs, bins, b, g) == 0.0
  {
    if obs == [] {
    } else {
      EmptyBin(obs[..|obs| - 1], bins, b, g);
    }
  }

  /** The algebra of one bin: `r` is one over the corpus size. */
  lemma OneBinSplits(n: real, m: real, a: real, cc: real, ch: real, r: real, base: real)
    ensures r * (cc - 2.0 * ch + a * n)
         == r * n * (m - a) * (m - a)
            + r * (cc - 2.0 * m * (m * n) + m * m * n)
            - 2.0 * (r * (ch - m * (a * n) - a * (m * n) + m * a * n))
            + r * (a * n)
            - (r * n * (a - base) * (a - base) + 2.0 * base * (r * (a * n)) - base * base * (r * n))
  {
    var t1 := r * n * (m - a) * (m - a);
    assert t1 == r * n * m * m - 2.0 * (r * n * m * a) + r * n * a * a;
    var t2 := r * n * (a - base) * (a - base);
    assert t2 == r * n * a * a - 2.0 * (r * n * a * base) + r * n * base * base;
  }

  /** A sum as a mean over the corpus. */
  ghost function Rate(x: real, obs: seq<Observation>): real
    requires obs != []
  {
    x / |obs| as real
  }

  lemma RateScales(x: real, obs: seq<Observation>)
    requires obs != []
    ensures Rate(x, obs) == (1.0 / |obs| as real) * x
  {
  }

  /** The decomposition, as a relation among the eight running figures. */
  ghost predicate Decomposes(s: real, rel: real, v: real, c: real, h: real, res: real, n: real, base: real) {
    s == rel + v - 2.0 * c + h - (res + 2.0 * base * h - base * base * n)
  }

  /** What bin `b` contributes to the mean squared error. */
  ghost predicate BinSplits(obs: seq<Observation>, bins: nat, b: nat)
    requires bins > 0 && obs != []
  {
    var bin := BinReport(obs, bins, b);
    var share := bin.count as real / |obs| as real;
    var d := bin.accuracy - Accuracy(obs);
    var base := Accuracy(obs);
    Decomposes(
      Rate(SumIn(obs, bins, b, SquaredMiss()), obs),
      if bin.count == 0 then 0.0 else share * bin.gap * bin.gap,
      Rate(SumIn(obs, bins, b, ConfidenceSpread(bin.meanConfidence)), obs),
      Rate(SumIn(obs, bins, b, JointSpread(bin.meanConfidence, bin.accuracy)), obs),
      Rate(SumIn(obs, bins, b, Happened()), obs),
      if bin.count == 0 then 0.0 else share * d * d,
      share, base)
  }

  lemma BinMeans(obs: seq<Observation>, bins: nat, b: nat)
    requires bins > 0 && CountIn(obs, bins, b) > 0
    ensures
      var bin := BinReport(obs, bins, b);
      && bin.count == CountIn(obs, bins, b) && bin.gap == bin.meanConfidence - bin.accuracy
      && SumIn(obs, bins, b, Stated()) == bin.meanConfidence * bin.count as real
      && SumIn(obs, bins, b, Happened()) == bin.accuracy * bin.count as real
  {
    hide SumIn, CountIn, Width;
  }

  lemma FullBinSplits(obs: seq<Observation>, bins: nat, b: nat)
    requires bins > 0 && obs != [] && CountIn(obs, bins, b) > 0
    ensures BinSplits(obs, bins, b)
  {
    hide SumIn, CountIn, Sum, Width, BinReport, Rate, Accuracy;
    BinMeans(obs, bins, b);
    var bin := BinReport(obs, bins, b);
    var m, a, n, r := bin.meanConfidence, bin.accuracy, bin.count as real, 1.0 / |obs| as real;
    SpreadsExpand(obs, bins, b, m, a);
    var cc, ch := SumIn(obs, bins, b, StatedSquared()), SumIn(obs, bins, b, StatedHits());
    RateScales(SumIn(obs, bins, b, SquaredMiss()), obs);
    RateScales(SumIn(obs, bins, b, Happened()), obs);
    RateScales(SumIn(obs, bins, b, ConfidenceSpread(m)), obs);
    RateScales(SumIn(obs, bins, b, JointSpread(m, a)), obs);
    assert n / |obs| as real == r * n;
    OneBinSplits(n, m, a, cc, ch, r, Accuracy(obs));
  }

  lemma EmptyBinSplits(obs: seq<Observation>, bins: nat, b: nat)
    requires bins > 0 && obs != [] && CountIn(obs, bins, b) == 0
    ensures BinSplits(obs, bins, b)
  {
    hide SumIn, CountIn, Sum, Width;
    var bin := BinReport(obs, bins, b);
    EmptyBin(obs, bins, b, SquaredMiss());
    EmptyBin(obs, bins, b, Happened());
    EmptyBin(obs, bins, b, ConfidenceSpread(bin.meanConfidence));
    EmptyBin(obs, bins, b, JointSpread(bin.meanConfidence, bin.accuracy));
  }

  lemma RateAdds(x: real, y: real, obs: seq<Observation>)
    requires obs != []
    ensures Rate(x + y, obs) == Rate(x, obs) + Rate(y, obs)
  {
  }

  lemma DecomposesAdds(
      s: real, rel: real, v: real, c: real, h: real, res: real, n: real,
      ds: real, drel: real, dv: real, dc: real, dh: real, dres: real, dn: real,
      s': real, rel': real, v': real, c': real, h': real, res': real, n': real, base: real)
    requires Decomposes(s, rel, v, c, h, res, n, base) && Decomposes(ds, drel, dv, dc, dh, dres, dn, base)
    requires s' == s + ds && rel' == rel + drel && v' == v + dv && c' == c + dc
    requires h' == h + dh && res' == res + dres && n' == n + dn
    ensures Decomposes(s', rel', v', c', h', res', n', base)
  {
    Distribute(2.0 * base, h, dh);
    Distribute(base * base, n, dn);
  }

  ghost predicate DecomposesUpTo(obs: seq<Observation>, bins: nat, k: nat)
    requires bins > 0 && obs != []
  {
    Decomposes(
      Rate(SumBins(obs, bins, k, SquaredMiss()), obs), ReliabilityOf(obs, bins, k),
      Rate(Variance(obs, bins, k), obs), Rate(Covariance(obs, bins, k), obs),
      Rate(SumBins(obs, bins, k, Happened()), obs), ResolutionOf(obs, bins, k),
      Rate(CountBins(obs, bins, k) as real, obs), Accuracy(obs))
  }

  lemma BinDecomposes(obs: seq<Observation>, bins: nat, b: nat)
    requires bins > 0 && obs != []
    ensures
      var bin := BinReport(obs, bins, b);
      Decomposes(
        Rate(SumIn(obs, bins, b, SquaredMiss()), obs), ReliabilityOf(obs, bins, b + 1) - ReliabilityOf(obs, bins, b),
        Rate(SumIn(obs, bins, b, ConfidenceSpread(bin.meanConfidence)), obs),
        Rate(SumIn(obs, bins, b, JointSpread(bin.meanConfidence, bin.accuracy)), obs),
        Rate(SumIn(obs, bins, b, Happened()), obs), ResolutionOf(obs, bins, b + 1) - ResolutionOf(obs, bins, b),
        Rate(CountIn(obs, bins, b) as real, obs), Accuracy(obs))
  {
    hide SumIn, CountIn, Sum, Width, Rate, ECE, MCE, ThinBins, Accuracy, ReliabilityOf, ResolutionOf, Decomposes;
    if CountIn(obs, bins, b) == 0 {
      EmptyBinSplits(obs, bins, b);
    } else {
      FullBinSplits(obs, bins, b);
    }
    FiguresGrow(obs, bins, b);
    RateOfCount(obs, CountIn(obs, bins, b));
  }

  lemma {:induction false} BrierUpTo(obs: seq<Observation>, bins: nat, k: nat)
    requires bins > 0 && obs != []
    ensures DecomposesUpTo(obs, bins, k)
  {
    if k == 0 {
      ZeroRate(obs);
    } else {
      BrierUpTo(obs, bins, k - 1);
      BrierOneMore(obs, bins, k - 1);
    }
  }

  lemma TotalsGrow(obs: seq<Observation>, bins: nat, b: nat)
    requires bins > 0
    ensures
      var bin := BinReport(obs, bins, b);
      && SumBins(obs, bins, b + 1, SquaredMiss()) == SumBins(obs, bins, b, SquaredMiss()) + SumIn(obs, bins, b, SquaredMiss())
      && SumBins(obs, bins, b + 1, Happened()) == SumBins(obs, bins, b, Happened()) + SumIn(obs, bins, b, Happened())
      && CountBins(obs, bins, b + 1) as real == CountBins(obs, bins, b) as real + CountIn(obs, bins, b) as real
      && Variance(obs, bins, b + 1)
         == Variance(obs, bins, b) + SumIn(obs, bins, b, ConfidenceSpread(bin.meanConfidence))
      && Covariance(obs, bins, b + 1)
         == Covariance(obs, bins, b) + SumIn(obs, bins, b, JointSpread(bin.meanConfidence, bin.accuracy))
  {
    hide SumIn, CountIn, BinReport;
  }

  lemma BrierOneMore(obs: seq<Observation>, bins: nat, b: nat)
    requires bins > 0 && obs != [] && DecomposesUpTo(obs, bins, b)
    ensures DecomposesUpTo(obs, bins, b + 1)
  {
    hide SumIn, CountIn, Sum, Width, BinReport, Rate, ECE, MCE, ThinBins, Accuracy, ReliabilityOf, ResolutionOf, Decomposes,
      SumBins, CountBins, Variance, Covariance;
    TotalsGrow(obs, bins, b);
    var bin := BinReport(obs, bins, b);
    var spread, joint := ConfidenceSpread(bin.meanConfidence), JointSpread(bin.meanConfidence, bin.accuracy);
    BinDecomposes(obs, bins, b);
    RateAdds(SumBins(obs, bins, b, SquaredMiss()), SumIn(obs, bins, b, SquaredMiss()), obs);
    RateAdds(SumBins(obs, bins, b, Happened()), SumIn(obs, bins, b, Happened()), obs);
    RateAdds(Variance(obs, bins, b), SumIn(obs, bins, b, spread), obs);
    RateAdds(Covariance(obs, bins, b), SumIn(obs, bins, b, joint), obs);
    RateAdds(CountBins(obs, bins, b) as real, CountIn(obs, bins, b) as real, obs);
    DecomposesAdds(
      Rate(SumBins(obs, bins, b, SquaredMiss()), obs), ReliabilityOf(obs, bins, b),
      Rate(Variance(obs, bins, b), obs), Rate(Covariance(obs, bins, b), obs),
      Rate(SumBins(obs, bins, b, Happened()), obs), ResolutionOf(obs, bins, b),
      Rate(CountBins(obs, bins, b) as real, obs),
      Rate(SumIn(obs, bins, b, SquaredMiss()), obs), ReliabilityOf(obs, bins, b + 1) - ReliabilityOf(obs, bins, b),
      Rate(SumIn(obs, bins, b, spread), obs), Rate(SumIn(obs, bins, b, joint), obs),
      Rate(SumIn(obs, bins, b, Happened()), obs), ResolutionOf(obs, bins, b + 1) - ResolutionOf(obs, bins, b),
      Rate(CountIn(obs, bins, b) as real, obs),
      Rate(SumBins(obs, bins, b + 1, SquaredMiss()), obs), ReliabilityOf(obs, bins, b + 1),
      Rate(Variance(obs, bins, b + 1), obs), Rate(Covariance(obs, bins, b + 1), obs),
      Rate(SumBins(obs, bins, b + 1, Happened()), obs), ResolutionOf(obs, bins, b + 1),
      Rate(CountBins(obs, bins, b + 1) as real, obs), Accuracy(obs));
  }

  lemma ZeroRate(obs: seq<Observation>)
    requires obs != []
    ensures Rate(0.0, obs) == 0.0
  {
  }

  lemma RateOfCount(obs: seq<Observation>, n: nat)
    requires obs != []
    ensures Rate(n as real, obs) == n as real / |obs| as real
    ensures n == |obs| ==> Rate(n as real, obs) == 1.0
  {
    SelfQuotient(|obs| as real);
  }

  lemma SelfQuotient(x: real)
    requires x > 0.0
    ensures x / x == 1.0
  {
  }

  lemma WholeCorpus(s: real, rel: real, v: real, c: real, h: real, res: real, base: real)
    requires Decomposes(s, rel, v, c, base, res, 1.0, base)
    ensures s == rel - res + base * (1.0 - base) + v - 2.0 * c
  {
    assert base * (1.0 - base) == base - base * base;
  }

  lemma BrierFigures(obs: seq<Observation>, bins: nat)
    requires bins > 0 && obs != [] && InUnitAll(obs)
    ensures Rate(Sum(obs, SquaredMiss()), obs)
         == ReliabilityOf(obs, bins, bins) - ResolutionOf(obs, bins, bins) + Accuracy(obs) * (1.0 - Accuracy(obs))
            + Rate(Variance(obs, bins, bins), obs) - 2.0 * Rate(Covariance(obs, bins, bins), obs)
  {
    hide ECE, MCE, ReliabilityOf, ResolutionOf, ThinBins, BinReport, Variance, Covariance, SumBins, CountBins, Sum, Decomposes;
    BrierUpTo(obs, bins, bins);
    BinsPartition(obs, bins, SquaredMiss());
    BinsPartition(obs, bins, Happened());
    RateOfCount(obs, |obs|);
    assert Rate(SumBins(obs, bins, bins, Happened()), obs) == Accuracy(obs);
    WholeCorpus(
      Rate(Sum(obs, SquaredMiss()), obs), ReliabilityOf(obs, bins, bins), Rate(Variance(obs, bins, bins), obs),
      Rate(Covariance(obs, bins, bins), obs), Accuracy(obs), ResolutionOf(obs, bins, bins), Accuracy(obs));
  }

  /**
   The exact decomposition: the Brier score is reliability minus resolution plus uncertainty, plus
   the variance of the stated confidences inside bins, minus twice their covariance with the outcome.
   */
  lemma BrierDecomposition(obs: seq<Observation>, bins: nat)
    requires bins > 0 && obs != [] && InUnitAll(obs)
    ensures
      var r := ReportOf(obs, bins);
      r.brier == r.reliability - r.resolution + r.uncertainty
                 + Rate(Variance(obs, bins, bins), obs) - 2.0 * Rate(Covariance(obs, bins, bins), obs)
  {
    hide ECE, MCE, ReliabilityOf, ResolutionOf, ThinBins, BinReport, Variance, Covariance, Sum, Accuracy, InUnitAll;
    BrierFigures(obs, bins);
  }

  // --------------------------------------------------------------------------
  // When the three-term identity holds
  // --------------------------------------------------------------------------

  /** The documented identity: Brier equals reliability minus resolution plus uncertainty. */
  ghost predicate ThreeTermIdentity(obs: seq<Observation>, bins: nat)
    requires bins > 0 && obs != []
  {
    var r := ReportOf(obs, bins);
    r.brier == r.reliability - r.resolution + r.uncertainty
  }

  lemma RateCompares(x: real, y: real, obs: seq<Observation>)
    requires obs != []
    ensures Rate(x, obs) == 2.0 * Rate(y, obs) <==> x == 2.0 * y
  {
    var n := |obs| as real;
    assert x / n * n == x && y / n * n == y;
  }

  /** It holds exactly when the within-bin variance is twice the within-bin covariance. */
  lemma ThreeTermIdentityExactly(obs: seq<Observation>, bins: nat)
    requires bins > 0 && obs != [] && InUnitAll(obs)
    ensures ThreeTermIdentity(obs, bins) <==> Variance(obs, bins, bins) == 2.0 * Covariance(obs, bins, bins)
  {
    hide Variance, Covariance, ReportOf;
    BrierDecomposition(obs, bins);
    RateCompares(Variance(obs, bins, bins), Covariance(obs, bins, bins), obs);
  }

  /** Each bin was stated with one confidence only. */
  ghost predicate OneConfidencePerBin(obs: seq<Observation>, bins: nat)
    requires bins > 0
  {
    forall o, p | o in obs && p in obs && InUnit(o) && InUnit(p) ::
      BinOf(bins, o.confidence) == BinOf(bins, p.confidence) ==> o.confidence == p.confidence
  }

  lemma {:induction false} ConstantBin(obs: seq<Observation>, bins: nat, b: nat, x: real)
    requires bins > 0
    requires forall o :: o in obs && Falls(bins, b, o) ==> o.confidence == x
    ensures SumIn(obs, bins, b, Stated()) == x * CountIn(obs, bins, b) as real
  {
    hide BinOf;
    if obs == [] {
    } else {
      var init := obs[..|obs| - 1];
      assert forall o :: o in init ==> o in obs;
      ConstantBin(init, bins, b, x);
      Distribute(x, CountIn(init, bins, b) as real, 1.0);
      assert obs[|obs| - 1] in obs;
    }
  }

  lemma {:induction false} NoSpread(obs: seq<Observation>, bins: nat, b: nat, x: real, a: real)
    requires bins > 0
    requires forall o :: o in obs && Falls(bins, b, o) ==> o.confidence == x
    ensures SumIn(obs, bins, b, ConfidenceSpread(x)) == 0.0 && SumIn(obs, bins, b, JointSpread(x, a)) == 0.0
  {
    hide BinOf;
    if obs == [] {
    } else {
      var init := obs[..|obs| - 1];
      assert forall o :: o in init ==> o in obs;
      NoSpread(init, bins, b, x, a);
      assert obs[|obs| - 1] in obs;
    }
  }

  lemma {:induction false} SomeoneFalls(obs: seq<Observation>, bins: nat, b: nat) returns (o: Observation)
    requires bins > 0 && CountIn(obs, bins, b) > 0
    ensures o in obs && Falls(bins, b, o)
    decreases |obs|
  {
    hide BinOf;
    if Falls(bins, b, obs[|obs| - 1]) {
      o := obs[|obs| - 1];
    } else {
      o := SomeoneFalls(obs[..|obs| - 1], bins, b);
    }
  }

  lemma OneConfidenceNoSpread(obs: seq<Observation>, bins: nat, b: nat)
    requires bins > 0 && InUnitAll(obs) && OneConfidencePerBin(obs, bins)
    ensures
      var bin := BinReport(obs, bins, b);
      && SumIn(obs, bins, b, ConfidenceSpread(bin.meanConfidence)) == 0.0
      && SumIn(obs, bins, b, JointSpread(bin.meanConfidence, bin.accuracy)) == 0.0
  {
    hide SumIn, CountIn, BinReport, BinOf, Width;
    var bin := BinReport(obs, bins, b);
    if CountIn(obs, bins, b) == 0 {
      EmptyBin(obs, bins, b, ConfidenceSpread(bin.meanConfidence));
      EmptyBin(obs, bins, b, JointSpread(bin.meanConfidence, bin.accuracy));
    } else {
      var o := SomeoneFalls(obs, bins, b);
      ConstantBin(obs, bins, b, o.confidence);
      BinMeans(obs, bins, b);
      SameMean(bin.meanConfidence, o.confidence, bin.count as real);
      NoSpread(obs, bins, b, o.confidence, bin.accuracy);
    }
  }

  lemma SameMean(m: real, x: real, n: real)
    requires n > 0.0 && m * n == x * n
    ensures m == x
  {
    ScaleStrictly(m, x, n);
    ScaleStrictly(x, m, n);
  }

  lemma {:induction false} NoSpreadUpTo(obs: seq<Observation>, bins: nat, k: nat)
    requires bins > 0 && InUnitAll(obs) && OneConfidencePerBin(obs, bins)
    ensures Variance(obs, bins, k) == 0.0 && Covariance(obs, bins, k) == 0.0
  {
    hide SumIn, BinReport, InUnitAll, OneConfidencePerBin;
    if k == 0 {
    } else {
      NoSpreadUpTo(obs, bins, k - 1);
      OneConfidenceNoSpread(obs, bins, k - 1);
    }
  }

  /** A caller can rely on the identity when no bin mixes confidences. */
  lemma IdentityWithoutMixing(obs: seq<Observation>, bins: nat)
    requires bins > 0 && obs != [] && InUnitAll(obs) && OneConfidencePerBin(obs, bins)
    ensures ThreeTermIdentity(obs, bins)
  {
    hide ThreeTermIdentity, InUnitAll, OneConfidencePerBin, Variance, Covariance;
    ThreeTermIdentityExactly(obs, bins);
    NoSpreadUpTo(obs, bins, bins);
  }

  /** It is not an identity in general: two confidences that share a bin are enough. */
  lemma ThreeTermIdentityCanFail()
    ensures
      var obs := [Observation(0.5, true), Observation(0.75, true)];
      InUnitAll(obs) && !ThreeTermIdentity(obs, 2)
  {
    hide SumIn, CountIn, Sum, BinReport, BinOf, Falls;
    var a, b := Observation(0.5, true), Observation(0.75, true);
    var obs := [a, b];
    BothInUpperBin(a, b);
    SumInOfTwo(a, b, 2, 0, Stated());
    SumInOfTwo(a, b, 2, 1, Stated());
    SumInOfTwo(a, b, 2, 1, Happened());
    SumOfTwo(a, b, Happened());
    SumOfTwo(a, b, SquaredMiss());
    assert Accuracy(obs) == 1.0 && Sum(obs, SquaredMiss()) == 0.3125;
    BinMeans(obs, 2, 1);
    FiguresGrow(obs, 2, 0);
    FiguresGrow(obs, 2, 1);
    assert BinReport(obs, 2, 1).gap == -0.375 && BinReport(obs, 2, 1).accuracy == 1.0;
    NoFigures(obs, 2);
  }

  lemma BothInUpperBin(a: Observation, b: Observation)
    requires a.confidence == 0.5 && b.confidence == 0.75
    ensures Falls(2, 1, a) && Falls(2, 1, b) && !Falls(2, 0, a) && !Falls(2, 0, b)
  {
    assert Width(2) == 0.5;
    assert 0.5 / 0.5 == 1.0 && 0.75 / 0.5 == 1.5;
  }

  lemma SumOfTwo(a: Observation, b: Observation, g: Weigh)
    ensures Sum([a, b], g) == g(a) + g(b)
  {
    assert [a, b][..1] == [a] && [a][..0] == [];
    assert Sum([a], g) == g(a);
  }

  lemma SumInOfTwo(a: Observation, b: Observation, bins: nat, k: nat, g: Weigh)
    requires bins > 0
    ensures SumIn([a, b], bins, k, g)
         == (if Falls(bins, k, a) then g(a) else 0.0) + (if Falls(bins, k, b) then g(b) else 0.0)
    ensures CountIn([a, b], bins, k) == (if Falls(bins, k, a) then 1 else 0) + (if Falls(bins, k, b) then 1 else 0)
  {
    hide BinOf;
    assert [a, b][..1] == [a] && [a][..0] == [];
    assert SumIn([a], bins, k, g) == (if Falls(bins, k, a) then g(a) else 0.0);
    assert CountIn([a], bins, k) == (if Falls(bins, k, a) then 1 else 0);
  }
}
