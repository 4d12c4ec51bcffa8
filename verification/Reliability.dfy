/**
 The reliability diagram and its summary figures (`Measure`), over exact reals, and what the
 figures mean: the decomposition of the Brier score and the order among the error measures.
 */
module Reliability {
  import opened Observations
  import opened Isotonic
  import opened IsotonicOptimal

  const MIN_BIN_COUNT: nat := 20

  datatype Bin = Bin(
    lower: real, upper: real, count: nat, meanConfidence: real, accuracy: real, gap: real, thin: bool)

  datatype Report = Report(
    observations: nat, bins: seq<Bin>, ece: real, mce: real, brier: real, reliability: real,
    resolution: real, uncertainty: real, meanConfidence: real, accuracy: real, overconfident: bool,
    thinBins: nat, tooFewForBins: bool)

  function Abs(x: real): real { if x < 0.0 then -x else x }

  function Max(x: real, y: real): real { if x < y then y else x }

  function Width(bins: nat): real
    requires bins > 0
  {
    1.0 / bins as real
  }

  /** The bin a confidence falls in; the last one is closed at 1. */
  function BinOf(bins: nat, x: real): (b: nat)
    requires bins > 0 && x >= 0.0
    ensures b < bins
  {
    QuotientNonNegative(x, Width(bins));
    var b := (x / Width(bins)).Floor;
    if b >= bins then bins - 1 else b
  }

  lemma QuotientNonNegative(x: real, w: real)
    requires x >= 0.0 && w > 0.0
    ensures x / w >= 0.0
  {
  }

  // --------------------------------------------------------------------------
  // Sums over one bin and over everything
  // --------------------------------------------------------------------------

  type Weigh = Observation -> real

  function Stated(): Weigh { (o: Observation) => o.confidence }

  function Happened(): Weigh { (o: Observation) => Hit(o) }

  function One(): Weigh { (o: Observation) => 1.0 }

  ghost function Miss(o: Observation): real { o.confidence - Hit(o) }

  /** The squared error of one stated confidence. */
  ghost function SquaredMiss(): Weigh { (o: Observation) => Miss(o) * Miss(o) }

  predicate Falls(bins: nat, b: nat, o: Observation)
    requires bins > 0
  {
    o.confidence >= 0.0 && BinOf(bins, o.confidence) == b
  }

  function SumIn(obs: seq<Observation>, bins: nat, b: nat, g: Weigh): real
    requires bins > 0
  {
    if obs == [] then 0.0
    else
      var o := obs[|obs| - 1];
      SumIn(obs[..|obs| - 1], bins, b, g) + if Falls(bins, b, o) then g(o) else 0.0
  }

  function CountIn(obs: seq<Observation>, bins: nat, b: nat): nat
    requires bins > 0
  {
    if obs == [] then 0
    else CountIn(obs[..|obs| - 1], bins, b) + if Falls(bins, b, obs[|obs| - 1]) then 1 else 0
  }

  function Sum(obs: seq<Observation>, g: Weigh): real {
    if obs == [] then 0.0 else Sum(obs[..|obs| - 1], g) + g(obs[|obs| - 1])
  }

  // --------------------------------------------------------------------------
  // The figures
  // --------------------------------------------------------------------------

  function BinReport(obs: seq<Observation>, bins: nat, b: nat): Bin
    requires bins > 0
  {
    var n := CountIn(obs, bins, b);
    var lower, upper := b as real * Width(bins), (b + 1) as real * Width(bins);
    if n == 0 then Bin(lower, upper, 0, 0.0, 0.0, 0.0, false)
    else
      var m := SumIn(obs, bins, b, Stated()) / n as real;
      var a := SumIn(obs, bins, b, Happened()) / n as real;
      Bin(lower, upper, n, m, a, m - a, n < MIN_BIN_COUNT)
  }

  /** The share of the traffic in a bin. */
  function Share(obs: seq<Observation>, bins: nat, b: nat): real
    requires bins > 0 && obs != []
  {
    CountIn(obs, bins, b) as real / |obs| as real
  }

  /** Expected calibration error over the first `k` bins. */
  function ECE(obs: seq<Observation>, bins: nat, k: nat): real
    requires bins > 0 && obs != []
  {
    if k == 0 then 0.0
    else ECE(obs, bins, k - 1) + Share(obs, bins, k - 1) * Abs(BinReport(obs, bins, k - 1).gap)
  }

  /** The largest gap of the first `k` bins. */
  function MCE(obs: seq<Observation>, bins: nat, k: nat): (m: real)
    requires bins > 0
    ensures m >= 0.0
  {
    if k == 0 then 0.0 else Max(MCE(obs, bins, k - 1), Abs(BinReport(obs, bins, k - 1).gap))
  }

  function ReliabilityOf(obs: seq<Observation>, bins: nat, k: nat): real
    requires bins > 0 && obs != []
  {
    if k == 0 then 0.0
    else
      var gap := BinReport(obs, bins, k - 1).gap;
      ReliabilityOf(obs, bins, k - 1) + Share(obs, bins, k - 1) * gap * gap
  }

  function Accuracy(obs: seq<Observation>): real
    requires obs != []
  {
    Sum(obs, Happened()) / |obs| as real
  }

  function ResolutionOf(obs: seq<Observation>, bins: nat, k: nat): real
    requires bins > 0 && obs != []
  {
    if k == 0 then 0.0
    else
      var d := BinReport(obs, bins, k - 1).accuracy - Accuracy(obs);
      ResolutionOf(obs, bins, k - 1) + if CountIn(obs, bins, k - 1) == 0 then 0.0 else Share(obs, bins, k - 1) * d * d
  }

  function ThinBins(obs: seq<Observation>, bins: nat, k: nat): nat
    requires bins > 0
  {
    if k == 0 then 0 else ThinBins(obs, bins, k - 1) + if BinReport(obs, bins, k - 1).thin then 1 else 0
  }

  /** The report a corpus deserves. */
  ghost function ReportOf(obs: seq<Observation>, bins: nat): Report
    requires bins > 0 && obs != []
  {
    var n := |obs| as real;
    Report(
      |obs|, seq(bins, b requires 0 <= b < bins => BinReport(obs, bins, b)),
      ECE(obs, bins, bins), MCE(obs, bins, bins), Sum(obs, SquaredMiss()) / n,
      ReliabilityOf(obs, bins, bins), ResolutionOf(obs, bins, bins),
      Accuracy(obs) * (1.0 - Accuracy(obs)), Sum(obs, Stated()) / n, Accuracy(obs),
      Sum(obs, Stated()) / n > Accuracy(obs), ThinBins(obs, bins, bins), |obs| < bins * MIN_BIN_COUNT)
  }

  // --------------------------------------------------------------------------
  // The two loops of `measure`
  // --------------------------------------------------------------------------

  datatype Tallies = Tallies(conf: real, hits: real, brier: real)

  lemma OneMoreIn(obs: seq<Observation>, i: nat, bins: nat, b: nat, g: Weigh)
    requires bins > 0 && i < |obs|
    ensures SumIn(obs[..i + 1], bins, b, g)
         == SumIn(obs[..i], bins, b, g) + if Falls(bins, b, obs[i]) then g(obs[i]) else 0.0
    ensures CountIn(obs[..i + 1], bins, b) == CountIn(obs[..i], bins, b) + if Falls(bins, b, obs[i]) then 1 else 0
    ensures Sum(obs[..i + 1], g) == Sum(obs[..i], g) + g(obs[i])
  {
    assert obs[..i + 1][..i] == obs[..i];
  }

  /** The arrays and totals hold the sums over the observations seen. */
  ghost predicate Tallied(
      seen: seq<Observation>, bins: nat, sums: seq<real>, hits: seq<real>, counts: seq<nat>, t: Tallies)
  {
    && bins == |sums| == |hits| == |counts| > 0
    && (forall b :: 0 <= b < bins ==> sums[b] == SumIn(seen, bins, b, Stated()))
    && (forall b :: 0 <= b < bins ==> hits[b] == SumIn(seen, bins, b, Happened()))
    && (forall b :: 0 <= b < bins ==> counts[b] == CountIn(seen, bins, b))
    && t == Tallies(Sum(seen, Stated()), Sum(seen, Happened()), Sum(seen, SquaredMiss()))
  }

  lemma TalliedOne(
      obs: seq<Observation>, i: nat, bins: nat, sums: seq<real>, hits: seq<real>, counts: seq<nat>, t: Tallies,
      o: Observation, b: nat)
    requires i < |obs| && Tallied(obs[..i], bins, sums, hits, counts, t)
    requires o == obs[i] && InUnit(o) && b == BinOf(bins, o.confidence)
    ensures Tallied(obs[..i + 1], bins, sums[b := sums[b] + o.confidence], hits[b := hits[b] + Hit(o)],
                    counts[b := counts[b] + 1],
                    Tallies(t.conf + o.confidence, t.hits + Hit(o), t.brier + Miss(o) * Miss(o)))
  {
    hide SumIn, CountIn, Sum, BinOf;
    forall k | 0 <= k < bins
      ensures SumIn(obs[..i + 1], bins, k, Stated())
           == SumIn(obs[..i], bins, k, Stated()) + if Falls(bins, k, obs[i]) then obs[i].confidence else 0.0
      ensures SumIn(obs[..i + 1], bins, k, Happened())
           == SumIn(obs[..i], bins, k, Happened()) + if Falls(bins, k, obs[i]) then Hit(obs[i]) else 0.0
      ensures CountIn(obs[..i + 1], bins, k) == CountIn(obs[..i], bins, k) + if Falls(bins, k, obs[i]) then 1 else 0
    {
      OneMoreIn(obs, i, bins, k, Stated());
      OneMoreIn(obs, i, bins, k, Happened());
    }
    OneMoreIn(obs, i, bins, 0, Stated());
    OneMoreIn(obs, i, bins, 0, Happened());
    OneMoreIn(obs, i, bins, 0, SquaredMiss());
  }

  lemma TalliedNone(bins: nat, sums: seq<real>, hits: seq<real>, counts: seq<nat>)
    requires bins == |sums| == |hits| == |counts| > 0
    requires forall b :: 0 <= b < bins ==> sums[b] == hits[b] == 0.0 && counts[b] == 0
    ensures Tallied([], bins, sums, hits, counts, Tallies(0.0, 0.0, 0.0))
  {
  }

  lemma SquareOfMiss(o: Observation, d: real)
    requires d == if o.correct then 1.0 - o.confidence else o.confidence
    ensures d * d == Miss(o) * Miss(o)
  {
  }

  /** First pass: tally every observation into its bin and into the totals. */
  method Tally(obs: seq<Observation>, sums: array<real>, hits: array<real>, counts: array<nat>) returns (t: Tallies)
    requires sums.Length == hits.Length == counts.Length > 0 && sums != hits
    requires forall o :: o in obs ==> InUnit(o)
    requires forall b :: 0 <= b < sums.Length ==> sums[b] == hits[b] == 0.0 && counts[b] == 0
    modifies sums, hits, counts
    ensures Tallied(obs, sums.Length, sums[..], hits[..], counts[..], t)
  {
    hide Tallied, BinOf;
    var bins := sums.Length;
    TalliedNone(bins, sums[..], hits[..], counts[..]);
    var totalConf, totalHits, brier := 0.0, 0.0, 0.0;
    assert obs[..0] == [];
    for i := 0 to |obs|
      invariant Tallied(obs[..i], bins, sums[..], hits[..], counts[..], Tallies(totalConf, totalHits, brier))
    {
      var o := obs[i];
      assert o in obs && InUnit(o);
      var b := BinOf(bins, o.confidence);
      ghost var sums', hits', counts' := sums[..], hits[..], counts[..];
      ghost var t' := Tallies(totalConf, totalHits, brier);
      counts[b] := counts[b] + 1;
      sums[b] := sums[b] + o.confidence;
      totalConf := totalConf + o.confidence;
      var d := o.confidence;
      if o.correct {
        hits[b] := hits[b] + 1.0;
        totalHits := totalHits + 1.0;
        d := 1.0 - o.confidence;
      }
      brier := brier + d * d;
      SquareOfMiss(o, d);
      assert counts[..] == counts'[b := counts'[b] + 1] && sums[..] == sums'[b := sums'[b] + o.confidence];
      assert hits[..] == hits'[b := hits'[b] + Hit(o)];
      TalliedOne(obs, i, bins, sums', hits', counts', t', o, b);
    }
    assert obs[..|obs|] == obs;
    t := Tallies(totalConf, totalHits, brier);
  }

  /** What bin `b` adds to the figures; an empty one adds nothing. */
  lemma FiguresGrow(obs: seq<Observation>, bins: nat, b: nat)
    requires bins > 0 && obs != []
    ensures
      var bin := BinReport(obs, bins, b);
      var share := bin.count as real / |obs| as real;
      var d := bin.accuracy - Accuracy(obs);
      && bin.count == CountIn(obs, bins, b)
      && ECE(obs, bins, b + 1) == ECE(obs, bins, b) + (if bin.count == 0 then 0.0 else share * Abs(bin.gap))
      && MCE(obs, bins, b + 1) == (if bin.count == 0 then MCE(obs, bins, b) else Max(MCE(obs, bins, b), Abs(bin.gap)))
      && ReliabilityOf(obs, bins, b + 1)
         == ReliabilityOf(obs, bins, b) + (if bin.count == 0 then 0.0 else share * bin.gap * bin.gap)
      && ResolutionOf(obs, bins, b + 1)
         == ResolutionOf(obs, bins, b) + (if bin.count == 0 then 0.0 else share * d * d)
      && ThinBins(obs, bins, b + 1) == ThinBins(obs, bins, b) + (if bin.thin then 1 else 0)
  {
    hide SumIn, CountIn, Sum;
  }

  /** One row of the diagram, from its tallies. */
  method FillBin(ghost obs: seq<Observation>, bins: nat, b: nat, count: nat, sum: real, hits: real) returns (bin: Bin)
    requires bins > 0 && count == CountIn(obs, bins, b)
    requires sum == SumIn(obs, bins, b, Stated()) && hits == SumIn(obs, bins, b, Happened())
    ensures bin == BinReport(obs, bins, b)
  {
    hide SumIn, CountIn;
    var width := Width(bins);
    bin := Bin(b as real * width, (b + 1) as real * width, count, 0.0, 0.0, 0.0, false);
    if count > 0 {
      var c := count as real;
      bin := bin.(meanConfidence := sum / c, accuracy := hits / c);
      bin := bin.(gap := bin.meanConfidence - bin.accuracy, thin := count < MIN_BIN_COUNT);
    }
  }

  lemma TalliedBin(
      obs: seq<Observation>, bins: nat, sums: seq<real>, hits: seq<real>, counts: seq<nat>, t: Tallies, b: nat)
    requires obs != [] && b < bins && Tallied(obs, bins, sums, hits, counts, t)
    ensures |sums| == |hits| == |counts| == bins
    ensures counts[b] == CountIn(obs, bins, b)
    ensures sums[b] == SumIn(obs, bins, b, Stated()) && hits[b] == SumIn(obs, bins, b, Happened())
    ensures t.hits / |obs| as real == Accuracy(obs) && t.conf == Sum(obs, Stated()) && t.brier == Sum(obs, SquaredMiss())
  {
  }

  /** `measure`: second pass, one bin at a time. */
  method Measured(obs: seq<Observation>, bins: nat) returns (rep: Report)
    requires bins > 0 && obs != [] && forall o :: o in obs ==> InUnit(o)
    ensures rep == ReportOf(obs, bins)
  {
    hide ECE, MCE, ReliabilityOf, ResolutionOf, ThinBins, SumIn, CountIn, Sum, BinReport, Accuracy, Tallied, Abs, Max, Width;
    var sums := new real[bins](_ => 0.0);
    var hits := new real[bins](_ => 0.0);
    var counts := new nat[bins](_ => 0);
    var t := Tally(obs, sums, hits, counts);
    var n := |obs| as real;
    var accuracy := t.hits / n;
    TalliedBin(obs, bins, sums[..], hits[..], counts[..], t, 0);
    var ece, mce, reliability, resolution, thin := 0.0, 0.0, 0.0, 0.0, 0;
    NoFigures(obs, bins);
    var out: seq<Bin> := [];
    for b := 0 to bins
      invariant Tallied(obs, bins, sums[..], hits[..], counts[..], t)
      invariant |out| == b && forall k :: 0 <= k < b ==> out[k] == BinReport(obs, bins, k)
      invariant ece == ECE(obs, bins, b) && mce == MCE(obs, bins, b)
      invariant reliability == ReliabilityOf(obs, bins, b) && resolution == ResolutionOf(obs, bins, b)
      invariant thin == ThinBins(obs, bins, b)
    {
      FiguresGrow(obs, bins, b);
      TalliedBin(obs, bins, sums[..], hits[..], counts[..], t, b);
      var bin := FillBin(obs, bins, b, counts[b], sums[b], hits[b]);
      if bin.count > 0 {
        var weight := bin.count as real / n;
        ece := ece + weight * Abs(bin.gap);
        mce := Max(mce, Abs(bin.gap));
        reliability := reliability + weight * bin.gap * bin.gap;
        resolution := resolution + weight * (bin.accuracy - accuracy) * (bin.accuracy - accuracy);
      }
      if bin.thin {
        thin := thin + 1;
      }
      out := out + [bin];
    }
    rep := Report(
      |obs|, out, ece, mce, t.brier / n, reliability, resolution, accuracy * (1.0 - accuracy),
      t.conf / n, accuracy, t.conf / n > accuracy, thin, |obs| < bins * MIN_BIN_COUNT);
  }

  lemma NoFigures(obs: seq<Observation>, bins: nat)
    requires bins > 0 && obs != []
    ensures ECE(obs, bins, 0) == MCE(obs, bins, 0) == 0.0 && ThinBins(obs, bins, 0) == 0
    ensures ReliabilityOf(obs, bins, 0) == ResolutionOf(obs, bins, 0) == 0.0
  {
  }
}
