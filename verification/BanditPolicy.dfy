/**
 The action distribution of the bandit (internal/bandit/bandit.go), in exact arithmetic: Thompson
 wins tallied over drawn values, mixed with a floor, and the categorical draw made from it. Drawn
 probabilities and the uniform variate are inputs.
 */
module BanditPolicy {
  import opened Collections
  import opened Framing
  import opened Names

  /** What a recovery is worth and what each arm costs to attempt; a missing cost is zero. */
  datatype Valuation = Valuation(grossPaisa: int, costPaisa: map<Name, int>)

  function Expected(v: Valuation, arm: Name, prob: real): real {
    var gross := if v.grossPaisa > 0 then v.grossPaisa as real else 0.0;
    prob * gross - (if arm in v.costPaisa then v.costPaisa[arm] as real else 0.0)
  }

  /** The values of one draw: one probability per arm, priced. */
  function Priced(arms: seq<Name>, v: Valuation, drawn: seq<real>): seq<real>
    requires |drawn| == |arms|
  {
    seq(|arms|, i requires 0 <= i < |arms| => Expected(v, arms[i], drawn[i]))
  }

  // --------------------------------------------------------------------------
  // Who wins a draw
  // --------------------------------------------------------------------------

  /** The first of the largest values. */
  function FirstMax(vals: seq<real>): (w: nat)
    requires vals != []
    ensures w < |vals|
    ensures forall j :: 0 <= j < |vals| ==> vals[j] <= vals[w]
    ensures forall j :: 0 <= j < w ==> vals[j] < vals[w]
  {
    if |vals| == 1 then 0
    else
      var n := |vals| - 1;
      var w := FirstMax(vals[..n]);
      assert forall j :: 0 <= j < n ==> vals[j] == vals[..n][j];
      if vals[n] > vals[w] then n else w
  }

  /** Strict improvement, with the lesser name winning ties: over arms in order, the first maximum. */
  method Winner(arms: seq<Name>, vals: seq<real>) returns (best: nat)
    requires Ascending(arms) && |vals| == |arms| > 0
    ensures best == FirstMax(vals)
  {
    hide Less;
    best := 0;
    for a := 1 to |arms|
      invariant best < a && best == FirstMax(vals[..a])
    {
      assert vals[..a + 1][..a] == vals[..a];
      LessAsymmetric(arms[best], arms[a]);
      if vals[a] > vals[best] || (vals[a] == vals[best] && Less(arms[a], arms[best])) {
        best := a;
      }
    }
    assert vals[..|arms|] == vals;
  }

  /** How many of the first `d` draws arm `i` won. */
  ghost function WinsOf(arms: seq<Name>, v: Valuation, samples: seq<seq<real>>, d: nat, i: nat): nat
    requires d <= |samples| && arms != [] && forall k :: 0 <= k < |samples| ==> |samples[k]| == |arms|
  {
    if d == 0 then 0
    else WinsOf(arms, v, samples, d - 1, i) + if FirstMax(Priced(arms, v, samples[d - 1])) == i then 1 else 0
  }

  predicate GoodSamples(arms: seq<Name>, samples: seq<seq<real>>) {
    arms != [] && samples != [] && forall k :: 0 <= k < |samples| ==> |samples[k]| == |arms|
  }

  /** The Monte-Carlo loop. */
  method CountWins(arms: seq<Name>, v: Valuation, samples: seq<seq<real>>) returns (wins: seq<nat>)
    requires Ascending(arms) && GoodSamples(arms, samples)
    ensures |wins| == |arms| && forall i :: 0 <= i < |arms| ==> wins[i] == WinsOf(arms, v, samples, |samples|, i)
  {
    hide Less, FirstMax, Ascending;
    var tally := new nat[|arms|](_ => 0);
    for d := 0 to |samples|
      invariant forall i :: 0 <= i < |arms| ==> tally[i] == WinsOf(arms, v, samples, d, i)
    {
      var best := Winner(arms, Priced(arms, v, samples[d]));
      tally[best] := tally[best] + 1;
    }
    wins := tally[..];
  }

  ghost function TotalWins(arms: seq<Name>, v: Valuation, samples: seq<seq<real>>, d: nat, n: nat): nat
    requires d <= |samples| && GoodSamples(arms, samples)
  {
    if n == 0 then 0 else TotalWins(arms, v, samples, d, n - 1) + WinsOf(arms, v, samples, d, n - 1)
  }

  lemma {:induction false} OneMoreDraw(arms: seq<Name>, v: Valuation, samples: seq<seq<real>>, d: nat, n: nat)
    requires d < |samples| && GoodSamples(arms, samples)
    ensures TotalWins(arms, v, samples, d + 1, n)
         == TotalWins(arms, v, samples, d, n) + if FirstMax(Priced(arms, v, samples[d])) < n then 1 else 0
  {
    hide FirstMax, Priced;
    if n == 0 {
    } else {
      OneMoreDraw(arms, v, samples, d, n - 1);
    }
  }

  lemma {:induction false} NoDraws(arms: seq<Name>, v: Valuation, samples: seq<seq<real>>, n: nat)
    requires GoodSamples(arms, samples)
    ensures TotalWins(arms, v, samples, 0, n) == 0
  {
    if n == 0 {
    } else {
      NoDraws(arms, v, samples, n - 1);
    }
  }

  /** Every draw is won exactly once. */
  lemma {:induction false} WinsTotal(arms: seq<Name>, v: Valuation, samples: seq<seq<real>>, d: nat)
    requires d <= |samples| && GoodSamples(arms, samples)
    ensures TotalWins(arms, v, samples, d, |arms|) == d
  {
    if d == 0 {
      NoDraws(arms, v, samples, |arms|);
    } else {
      WinsTotal(arms, v, samples, d - 1);
      OneMoreDraw(arms, v, samples, d - 1, |arms|);
    }
  }

  // --------------------------------------------------------------------------
  // The distribution
  // --------------------------------------------------------------------------

  /** The floor each of `k` arms gets: capped at 1/k, so that the floors never oversubscribe. */
  function FloorFor(floor: real, k: nat): real
    requires k > 0
  {
    Min(floor, 1.0 / k as real)
  }

  /** What floors of `f` on `k` arms leave to the sampler. */
  function Rest(f: real, k: real): real { 1.0 - f * k }

  /** A floor of `f` on each of `k` arms, and the rest of the mass by share of wins. */
  function Mixture(f: real, k: real, share: real): real {
    if f > 0.0 then f + Rest(f, k) * share else share
  }

  /** The probability of an arm that won `wins` of `draws`. */
  function Mixed(floor: real, k: nat, wins: nat, draws: nat): real
    requires k > 0 && draws > 0
  {
    Mixture(FloorFor(floor, k), k as real, wins as real / draws as real)
  }

  /** The cumulative probability of the first `n` arms. */
  ghost function Cumulative(dist: seq<real>, n: nat): real
    requires n <= |dist|
  {
    if n == 0 then 0.0 else Cumulative(dist, n - 1) + dist[n - 1]
  }

  lemma MixtureAboveFloor(f: real, k: real, share: real)
    requires Rest(f, k) >= 0.0 && 0.0 <= share
    ensures Mixture(f, k, share) >= f && Mixture(f, k, share) >= 0.0
  {
    hide Rest;
    assert Rest(f, k) * share >= 0.0;
  }

  lemma MixtureOrder(f: real, k: real, x: real, y: real)
    requires Rest(f, k) >= 0.0 && x < y && (f <= 0.0 ==> Rest(f, k) > 0.0)
    ensures Mixture(f, k, x) <= Mixture(f, k, y)
    ensures Mixture(f, k, x) < Mixture(f, k, y) <==> Rest(f, k) > 0.0
  {
    hide Rest;
    OrderScales(Rest(f, k), x, y);
  }

  lemma OrderScales(c: real, x: real, y: real)
    requires c >= 0.0 && x < y
    ensures c * x <= c * y
    ensures c * x < c * y <==> c > 0.0
  {
    var d := y - x;
    PositiveProduct(c, d);
    assert c * y == c * (x + d) == c * x + c * d;
  }

  lemma PositiveProduct(c: real, d: real)
    requires c >= 0.0 && d > 0.0
    ensures c * d >= 0.0 && (c * d > 0.0 <==> c > 0.0)
  {
  }

  lemma FloorFits(floor: real, k: nat)
    requires k > 0
    ensures Rest(FloorFor(floor, k), k as real) >= 0.0
    ensures FloorFor(floor, k) <= 0.0 ==> Rest(FloorFor(floor, k), k as real) > 0.0
    ensures FloorFor(floor, k) <= floor
  {
    hide Rest;
    RestOfFloor(FloorFor(floor, k), k as real);
  }

  lemma RestOfFloor(f: real, k: real)
    requires k > 0.0 && f <= 1.0 / k
    ensures Rest(f, k) >= 0.0
    ensures f <= 0.0 ==> Rest(f, k) > 0.0
  {
    AtMostInverse(f, k);
    assert f <= 0.0 ==> f * k <= 0.0;
  }

  lemma AtMostInverse(f: real, n: real)
    requires n > 0.0 && f <= 1.0 / n
    ensures f * n <= 1.0
  {
    InverseCancels(n);
    assert (1.0 / n - f) * n >= 0.0;
  }

  lemma InverseCancels(n: real)
    requires n > 0.0
    ensures n * (1.0 / n) == 1.0 && 1.0 / n * n == 1.0 && n / n == 1.0
  {
  }

  lemma ShareInUnit(wins: nat, draws: nat)
    requires draws > 0
    ensures wins as real / draws as real >= 0.0
  {
  }

  /** Every permitted arm keeps at least the floor, and never less than nothing. */
  lemma MixedAboveFloor(floor: real, k: nat, wins: nat, draws: nat)
    requires k > 0 && draws > 0
    ensures Mixed(floor, k, wins, draws) >= FloorFor(floor, k)
    ensures Mixed(floor, k, wins, draws) >= 0.0
  {
    hide FloorFor, Mixture, Rest;
    FloorFits(floor, k);
    ShareInUnit(wins, draws);
    MixtureAboveFloor(FloorFor(floor, k), k as real, wins as real / draws as real);
  }

  lemma PositiveQuotient(x: real, n: real)
    requires x > 0.0 && n > 0.0
    ensures x / n > 0.0
  {
  }

  lemma ShareStrictly(few: nat, many: nat, draws: nat)
    requires draws > 0 && few < many
    ensures few as real / draws as real < many as real / draws as real
  {
    SharesAdd(few, many - few, draws);
    PositiveQuotient((many - few) as real, draws as real);
  }

  /**
   The floor moves probability without reordering: more wins never mean less probability, and mean
   strictly more exactly when the floors leave something to the sampler.
   */
  lemma MixedKeepsRanking(floor: real, k: nat, few: nat, many: nat, draws: nat)
    requires k > 0 && draws > 0 && few < many
    ensures Mixed(floor, k, few, draws) <= Mixed(floor, k, many, draws)
    ensures Mixed(floor, k, few, draws) < Mixed(floor, k, many, draws) <==> Rest(FloorFor(floor, k), k as real) > 0.0
  {
    hide FloorFor, Mixture, Rest;
    FloorFits(floor, k);
    ShareStrictly(few, many, draws);
    MixtureOrder(FloorFor(floor, k), k as real, few as real / draws as real, many as real / draws as real);
  }

  /** What the sampler settles on before floating-point drift is removed. */
  ghost predicate IsDistribution(
      arms: seq<Name>, v: Valuation, samples: seq<seq<real>>, floor: real, dist: seq<real>)
  {
    && GoodSamples(arms, samples) && |dist| == |arms|
    && forall i :: 0 <= i < |arms| ==>
         dist[i] == Mixed(floor, |arms|, WinsOf(arms, v, samples, |samples|, i), |samples|)
  }

  /** The running total of the mixture over `m` arms holding `share` of the wins. */
  ghost function MixedTotal(f: real, k: real, m: real, share: real): real {
    if f > 0.0 then m * f + Rest(f, k) * share else share
  }

  lemma MixedTotalAdds(f: real, k: real, m: real, share: real, mine: real)
    ensures MixedTotal(f, k, m + 1.0, share + mine)
         == MixedTotal(f, k, m, share) + Mixture(f, k, mine)
  {
    hide Rest;
    assert (m + 1.0) * f == m * f + f;
    assert Rest(f, k) * (share + mine) == Rest(f, k) * share + Rest(f, k) * mine;
  }

  lemma SharesAdd(x: nat, y: nat, draws: nat)
    requires draws > 0
    ensures (x + y) as real / draws as real == x as real / draws as real + y as real / draws as real
  {
  }

  lemma {:induction false} CumulativeExact(
      arms: seq<Name>, v: Valuation, samples: seq<seq<real>>, floor: real, dist: seq<real>, n: nat)
    requires IsDistribution(arms, v, samples, floor, dist) && n <= |arms|
    ensures
      var share := TotalWins(arms, v, samples, |samples|, n) as real / |samples| as real;
      Cumulative(dist, n) == MixedTotal(FloorFor(floor, |arms|), |arms| as real, n as real, share)
    decreases n
  {
    hide WinsOf, MixedTotal, Mixture, FloorFor, FirstMax, Priced;
    if n == 0 {
      NothingMixed(FloorFor(floor, |arms|), |arms| as real, |samples|);
    } else {
      CumulativeExact(arms, v, samples, floor, dist, n - 1);
      var draws, f := |samples|, FloorFor(floor, |arms|);
      var before, mine := TotalWins(arms, v, samples, draws, n - 1), WinsOf(arms, v, samples, draws, n - 1);
      SharesAdd(before, mine, draws);
      MixedTotalAdds(f, |arms| as real, (n - 1) as real, before as real / draws as real, mine as real / draws as real);
    }
  }

  lemma NothingMixed(f: real, k: real, draws: nat)
    requires draws > 0
    ensures MixedTotal(f, k, 0.0, 0 as real / draws as real) == 0.0
  {
  }

  lemma WholeMass(f: real, k: real, draws: nat)
    requires draws > 0
    ensures MixedTotal(f, k, k, draws as real / draws as real) == 1.0
  {
    InverseCancels(draws as real);
  }

  /** A distribution over `|dist|` arms that leaves each at least its floor. */
  ghost predicate IsPolicy(dist: seq<real>, floor: real) {
    && dist != [] && Cumulative(dist, |dist|) == 1.0
    && forall i :: 0 <= i < |dist| ==> dist[i] >= 0.0 && dist[i] >= FloorFor(floor, |dist|)
  }

  /** In exact arithmetic the mixture is a distribution: it sums to one, with no drift to remove. */
  lemma SumsToOne(arms: seq<Name>, v: Valuation, samples: seq<seq<real>>, floor: real, dist: seq<real>)
    requires IsDistribution(arms, v, samples, floor, dist)
    ensures IsPolicy(dist, floor)
  {
    hide WinsOf, MixedTotal, FloorFor, Mixed, TotalWins, Cumulative;
    CumulativeExact(arms, v, samples, floor, dist, |arms|);
    WinsTotal(arms, v, samples, |samples|);
    WholeMass(FloorFor(floor, |arms|), |arms| as real, |samples|);
    forall i | 0 <= i < |dist|
      ensures dist[i] >= 0.0 && dist[i] >= FloorFor(floor, |arms|)
    {
      MixedAboveFloor(floor, |arms|, WinsOf(arms, v, samples, |samples|, i), |samples|);
    }
  }

  lemma {:induction false} CumulativeGrows(dist: seq<real>, m: nat, n: nat)
    requires m <= n <= |dist| && forall i :: 0 <= i < |dist| ==> dist[i] >= 0.0
    ensures Cumulative(dist, m) <= Cumulative(dist, n)
    decreases n
  {
    if m == n {
    } else {
      CumulativeGrows(dist, m, n - 1);
    }
  }

  // --------------------------------------------------------------------------
  // Renormalising
  // --------------------------------------------------------------------------

  function Clamped(s: seq<real>): (c: seq<real>)
    ensures |c| == |s|
  {
    seq(|s|, i requires 0 <= i < |s| => if s[i] < 0.0 then 0.0 else s[i])
  }

  function Scaled(s: seq<real>, total: real): (c: seq<real>)
    requires total > 0.0
    ensures |c| == |s|
  {
    seq(|s|, i requires 0 <= i < |s| => s[i] / total)
  }

  ghost function Renormalised(s: seq<real>): (c: seq<real>)
    requires s != []
    ensures |c| == |s|
  {
    var total := Cumulative(Clamped(s), |s|);
    if total <= 0.0 then seq(|s|, _ => 1.0 / |s| as real) else Scaled(Clamped(s), total)
  }

  lemma {:induction false} CumulativeScaled(s: seq<real>, total: real, n: nat)
    requires total > 0.0 && n <= |s|
    ensures Cumulative(Scaled(s, total), n) == Cumulative(s, n) / total
  {
    if n == 0 {
    } else {
      CumulativeScaled(s, total, n - 1);
      QuotientAdds(Cumulative(s, n - 1), s[n - 1], total);
    }
  }

  lemma QuotientAdds(x: real, y: real, t: real)
    requires t > 0.0
    ensures (x + y) / t == x / t + y / t
  {
  }

  lemma {:induction false} CumulativeUniform(s: seq<real>, x: real, n: nat)
    requires n <= |s| && forall i :: 0 <= i < |s| ==> s[i] == x
    ensures Cumulative(s, n) == n as real * x
  {
    if n == 0 {
    } else {
      CumulativeUniform(s, x, n - 1);
    }
  }

  lemma NonNegativeQuotient(x: real, t: real)
    requires x >= 0.0 && t > 0.0
    ensures x / t >= 0.0
  {
  }

  lemma ScaledSumsToOne(c: seq<real>, sum: real)
    requires sum > 0.0 && sum == Cumulative(c, |c|)
    ensures Cumulative(Scaled(c, sum), |c|) == 1.0
  {
    CumulativeScaled(c, sum, |c|);
    InverseCancels(sum);
  }

  /** The scaled values sum to one, and no negative appears. */
  lemma ScaledIsDistribution(c: seq<real>, total: real)
    requires total > 0.0 && total == Cumulative(c, |c|) && forall i :: 0 <= i < |c| ==> c[i] >= 0.0
    ensures Cumulative(Scaled(c, total), |c|) == 1.0
    ensures forall i :: 0 <= i < |c| ==> Scaled(c, total)[i] >= 0.0
  {
    hide Cumulative;
    ScaledSumsToOne(c, total);
    forall i | 0 <= i < |c|
      ensures Scaled(c, total)[i] >= 0.0
    {
      NonNegativeQuotient(c[i], total);
    }
  }

  lemma UniformIsDistribution(u: seq<real>)
    requires u != [] && forall i :: 0 <= i < |u| ==> u[i] == 1.0 / |u| as real
    ensures Cumulative(u, |u|) == 1.0 && forall i :: 0 <= i < |u| ==> u[i] >= 0.0
  {
    hide Cumulative;
    CumulativeUniform(u, 1.0 / |u| as real, |u|);
    InverseCancels(|u| as real);
    NonNegativeQuotient(1.0, |u| as real);
  }

  lemma ScaledByOne(c: seq<real>)
    ensures Scaled(c, 1.0) == c
  {
  }

  /** Whatever it is given, renormalising yields a distribution; given one, it changes nothing. */
  lemma RenormalisedIsDistribution(s: seq<real>)
    requires s != []
    ensures Cumulative(Renormalised(s), |s|) == 1.0
    ensures forall i :: 0 <= i < |s| ==> Renormalised(s)[i] >= 0.0
    ensures Cumulative(s, |s|) == 1.0 && (forall i :: 0 <= i < |s| ==> s[i] >= 0.0) ==> Renormalised(s) == s
  {
    hide Cumulative, Scaled;
    var c := Clamped(s);
    var total := Cumulative(c, |s|);
    if total <= 0.0 {
      UniformIsDistribution(Renormalised(s));
    } else {
      ScaledIsDistribution(c, total);
    }
    if Cumulative(s, |s|) == 1.0 && forall i :: 0 <= i < |s| ==> s[i] >= 0.0 {
      assert c == s;
      ScaledByOne(s);
    }
  }

  /** The first pass of `renormalise`: negatives are zeroed and the total taken. */
  method ClampAndSum(dist: array<real>) returns (sum: real)
    modifies dist
    ensures dist[..] == Clamped(old(dist[..])) && sum == Cumulative(dist[..], dist.Length)
  {
    ghost var was := dist[..];
    sum := 0.0;
    for a := 0 to dist.Length
      invariant dist[..a] == Clamped(was)[..a] && dist[a..] == was[a..]
      invariant sum == Cumulative(Clamped(was), a)
    {
      assert dist[a] == dist[a..][0] == was[a];
      if dist[a] < 0.0 {
        dist[a] := 0.0;
      }
      sum := sum + dist[a];
      assert dist[..a + 1] == dist[..a] + [dist[a]];
    }
    assert dist[..] == dist[..dist.Length] == Clamped(was)[..dist.Length] == Clamped(was);
  }

  /** Its second pass: every entry is divided by the total, and the largest remembered. */
  method ScaleAll(dist: array<real>, sum: real) returns (largest: nat, renormalised: real)
    requires dist.Length > 0 && sum > 0.0
    modifies dist
    ensures dist[..] == Scaled(old(dist[..]), sum) && largest < dist.Length
    ensures renormalised == Cumulative(dist[..], dist.Length)
  {
    ghost var c := dist[..];
    largest, renormalised := 0, 0.0;
    var largestVal := 0.0;
    for a := 0 to dist.Length
      invariant largest < dist.Length
      invariant forall i :: 0 <= i < a ==> dist[i] == Scaled(c, sum)[i]
      invariant forall i :: a <= i < dist.Length ==> dist[i] == c[i]
      invariant renormalised == Cumulative(Scaled(c, sum), a)
    {
      dist[a] := dist[a] / sum;
      renormalised := renormalised + dist[a];
      if dist[a] > largestVal {
        largest, largestVal := a, dist[a];
      }
    }
    assert dist[..] == Scaled(c, sum);
  }

  /** `renormalise`. The residual handed to the largest arm is exactly zero. */
  method Renormalise(dist: array<real>)
    requires dist.Length > 0
    modifies dist
    ensures dist[..] == Renormalised(old(dist[..]))
  {
    hide Cumulative, Clamped, Scaled;
    var n := dist.Length;
    var sum := ClampAndSum(dist);
    ghost var c := dist[..];
    if sum <= 0.0 {
      for a := 0 to n
        invariant forall i :: 0 <= i < a ==> dist[i] == 1.0 / n as real
      {
        dist[a] := 1.0 / n as real;
      }
      return;
    }
    var largest, renormalised := ScaleAll(dist, sum);
    ScaledSumsToOne(c, sum);
    ghost var scaled := dist[..];
    dist[largest] := dist[largest] + (1.0 - renormalised);
    assert dist[..] == scaled;
  }

  // --------------------------------------------------------------------------
  // The whole distribution and the draw
  // --------------------------------------------------------------------------

  /** Mixing the floor into the tallied shares, arm by arm. */
  method MixFloor(wins: seq<nat>, draws: nat, floor: real, dist: array<real>)
    requires dist.Length == |wins| > 0 && draws > 0
    modifies dist
    ensures forall i :: 0 <= i < |wins| ==> dist[i] == Mixed(floor, |wins|, wins[i], draws)
  {
    var k, total := |wins|, draws as real;
    for a := 0 to k
      invariant forall i :: 0 <= i < a ==> dist[i] == wins[i] as real / total
    {
      dist[a] := wins[a] as real / total;
    }
    var f := Min(floor, 1.0 / k as real);
    if f > 0.0 {
      var keep := 1.0 - f * k as real;
      for a := 0 to k
        invariant forall i :: 0 <= i < a ==> dist[i] == Mixed(floor, k, wins[i], draws)
        invariant forall i :: a <= i < k ==> dist[i] == wins[i] as real / total
      {
        dist[a] := f + keep * dist[a];
      }
    }
  }

  /** `distributionLocked`. */
  method Distribution(arms: seq<Name>, v: Valuation, samples: seq<seq<real>>, floor: real) returns (out: seq<real>)
    requires Ascending(arms) && GoodSamples(arms, samples)
    ensures IsDistribution(arms, v, samples, floor, out) && IsPolicy(out, floor)
  {
    hide Ascending, WinsOf, Renormalised, Mixed, Cumulative;
    var wins := CountWins(arms, v, samples);
    var dist := new real[|arms|](_ => 0.0);
    MixFloor(wins, |samples|, floor, dist);
    ghost var mixed := dist[..];
    assert IsDistribution(arms, v, samples, floor, mixed);
    SumsToOne(arms, v, samples, floor, mixed);
    RenormalisedIsDistribution(mixed);
    Renormalise(dist);
    out := dist[..];
  }

  /** The first arm whose cumulative probability exceeds the variate, or the last arm if none does. */
  ghost predicate IsDraw(dist: seq<real>, u: real, arm: nat) {
    && arm < |dist|
    && (forall j :: 0 < j <= arm ==> Cumulative(dist, j) <= u)
    && (u < Cumulative(dist, arm + 1) || (arm == |dist| - 1 && Cumulative(dist, |dist|) <= u))
  }

  /** `sampleCategorical`. */
  method SampleCategorical(dist: seq<real>, u: real) returns (arm: nat)
    requires dist != []
    ensures IsDraw(dist, u, arm)
  {
    var cum := 0.0;
    for a := 0 to |dist|
      invariant cum == Cumulative(dist, a)
      invariant forall j :: 0 < j <= a ==> Cumulative(dist, j) <= u
    {
      cum := cum + dist[a];
      if u < cum {
        return a;
      }
    }
    return |dist| - 1;
  }

  /**
   The logged propensity is the sampling probability. Arm `i` is drawn exactly on the half-open
   interval from the mass of the arms before it; the intervals are disjoint, and the length of each
   is the arm's own probability, which is at least the floor or 1/k.
   */
  lemma PropensityIsIntervalLength(dist: seq<real>, floor: real, u: real, i: nat, drawn: nat)
    requires IsPolicy(dist, floor)
    requires 0.0 <= u < 1.0 && IsDraw(dist, u, drawn) && i < |dist|
    ensures drawn == i <==> Cumulative(dist, i) <= u < Cumulative(dist, i + 1)
    ensures 0.0 <= Cumulative(dist, i) <= Cumulative(dist, i + 1) <= 1.0
    ensures Cumulative(dist, i + 1) - Cumulative(dist, i) == dist[i] >= Min(floor, 1.0 / |dist| as real)
  {
    CumulativeGrows(dist, 0, i);
    CumulativeGrows(dist, i + 1, |dist|);
    assert Cumulative(dist, 0) == 0.0;
    if drawn < i {
      CumulativeGrows(dist, drawn + 1, i);
    } else if i < drawn {
      CumulativeGrows(dist, i + 1, drawn);
    }
  }

  // --------------------------------------------------------------------------
  // What may be drawn at all
  // --------------------------------------------------------------------------

  datatype Permission = Permitted(arms: seq<Name>) | NoPermittedArms | UnknownArm

  /** `canonicalPermitted`: the gatekeeper's set, deduplicated and ordered, and nothing outside the action space. */
  method CanonicalPermitted(known: seq<Name>, permitted: seq<Name>) returns (p: Permission)
    ensures permitted == [] ==> p == NoPermittedArms
    ensures permitted != [] && (exists a :: a in permitted && a !in known) ==> p == UnknownArm
    ensures permitted != [] && (forall a :: a in permitted ==> a in known) ==>
              && p.Permitted? && Ascending(p.arms) && p.arms != []
              && forall a :: a in p.arms <==> a in permitted
  {
    if permitted == [] {
      return NoPermittedArms;
    }
    var out := [];
    for i := 0 to |permitted|
      invariant Ascending(out) && forall a :: a in out <==> a in permitted[..i]
      invariant forall a :: a in permitted[..i] ==> a in known
    {
      var a := permitted[i];
      assert permitted[..i + 1] == permitted[..i] + [a];
      assert a in permitted;
      if a !in known {
        return UnknownArm;
      }
      if a !in out {
        out := Insert(out, a);
      }
    }
    assert permitted[..|permitted|] == permitted;
    assert permitted[0] in out;
    return Permitted(out);
  }
}
