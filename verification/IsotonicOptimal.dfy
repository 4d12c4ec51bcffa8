/**
 What a fit is: the unique least-squares monotone correction, the max-min of the observed
 averages, and therefore a function of the corpus alone.
 */
module IsotonicOptimal {
  import opened Observations
  import opened Isotonic

  // --------------------------------------------------------------------------
  // Sums over a corpus and over its pooled points
  // --------------------------------------------------------------------------

  /** Sum of base(c) + slope(c) * outcome over the observations. */
  ghost function SumObs(obs: seq<Observation>, base: real -> real, slope: real -> real): real {
    if obs == [] then 0.0
    else
      var o := obs[|obs| - 1];
      SumObs(obs[..|obs| - 1], base, slope) + Term(o, base, slope)
  }

  ghost function SumPoints(obs: seq<Observation>, pts: seq<Point>, n: nat, base: real -> real, slope: real -> real): real
    requires n <= |pts|
  {
    if n == 0 then 0.0
    else
      var x := pts[n - 1].x;
      SumPoints(obs, pts, n - 1, base, slope) + Weighed(obs, x, base, slope)
  }

  predicate Among(pts: seq<Point>, n: nat, x: real)
    requires n <= |pts|
  {
    n > 0 && (pts[n - 1].x == x || Among(pts, n - 1, x))
  }

  lemma {:induction false} AmongExact(pts: seq<Point>, n: nat, x: real)
    requires n <= |pts|
    ensures Among(pts, n, x) <==> exists i :: 0 <= i < n && pts[i].x == x
  {
    if n == 0 {
    } else {
      AmongExact(pts, n - 1, x);
    }
  }

  ghost function Weighed(obs: seq<Observation>, x: real, base: real -> real, slope: real -> real): real {
    base(x) * CountAt(obs, x) + slope(x) * HitsAt(obs, x)
  }

  ghost function Term(o: Observation, base: real -> real, slope: real -> real): real {
    base(o.confidence) + slope(o.confidence) * Hit(o)
  }

  lemma CountsGrow(init: seq<Observation>, o: Observation, x: real)
    ensures CountAt(init + [o], x) == CountAt(init, x) + if o.confidence == x then 1.0 else 0.0
    ensures HitsAt(init + [o], x) == HitsAt(init, x) + if o.confidence == x then Hit(o) else 0.0
  {
    assert (init + [o])[..|init|] == init;
  }

  lemma OneMore(init: seq<Observation>, o: Observation, x: real, base: real -> real, slope: real -> real)
    ensures Weighed(init + [o], x, base, slope)
         == Weighed(init, x, base, slope) + if o.confidence == x then Term(o, base, slope) else 0.0
  {
    CountsGrow(init, o, x);
    var b, s, n, h, y := base(x), slope(x), CountAt(init, x), HitsAt(init, x), Hit(o);
    assert b * (n + 1.0) == b * n + b;
    assert s * (h + y) == s * h + s * y;
  }

  /** One more observation adds its own term once, at its own point. */
  lemma {:induction false} SumPointsGrows(
      init: seq<Observation>, o: Observation, pts: seq<Point>, n: nat, base: real -> real, slope: real -> real)
    requires n <= |pts| && Increasing(pts)
    ensures SumPoints(init + [o], pts, n, base, slope)
         == SumPoints(init, pts, n, base, slope) + if Among(pts, n, o.confidence) then Term(o, base, slope) else 0.0
  {
    hide Weighed, Term;
    if n == 0 {
    } else {
      SumPointsGrows(init, o, pts, n - 1, base, slope);
      AmongExact(pts, n - 1, o.confidence);
      OneMore(init, o, pts[n - 1].x, base, slope);
    }
  }

  lemma {:induction false} SumPointsOfNothing(pts: seq<Point>, n: nat, base: real -> real, slope: real -> real)
    requires n <= |pts|
    ensures SumPoints([], pts, n, base, slope) == 0.0
  {
    if n == 0 {
    } else {
      SumPointsOfNothing(pts, n - 1, base, slope);
    }
  }

  /** Pooling loses nothing: a sum over the corpus is the weighted sum over its points. */
  lemma {:induction false} PoolingPreservesSums(
      obs: seq<Observation>, pts: seq<Point>, base: real -> real, slope: real -> real)
    requires Increasing(pts)
    requires forall o :: o in obs ==> exists i :: 0 <= i < |pts| && pts[i].x == o.confidence
    ensures SumObs(obs, base, slope) == SumPoints(obs, pts, |pts|, base, slope)
    decreases |obs|
  {
    if obs == [] {
      SumPointsOfNothing(pts, |pts|, base, slope);
    } else {
      var init, o := obs[..|obs| - 1], obs[|obs| - 1];
      assert obs == init + [o];
      assert forall q :: q in init ==> q in obs;
      PoolingPreservesSums(init, pts, base, slope);
      AmongExact(pts, |pts|, o.confidence);
      SumPointsGrows(init, o, pts, |pts|, base, slope);
    }
  }

  // --------------------------------------------------------------------------
  // Where a point lands
  // --------------------------------------------------------------------------

  lemma TheBlock(pts: seq<Point>, bounds: seq<nat>, c: Calibrator, t: nat)
    requires IsStepFunction(pts, bounds, c) && t < |c.value|
    ensures bounds[t] < bounds[t + 1] <= |pts|
    ensures IsBlock(pts, bounds[t], bounds[t + 1], c.value[t])
    ensures Dev(pts, bounds[t], bounds[t + 1], c.value[t]) == 0.0
    ensures c.upper[t] == pts[bounds[t + 1] - 1].x
  {
    var v := c.value[t];
  }

  /** The fitted value of block `t` is what `Apply` returns for every point of the block. */
  lemma ApplyInBlock(pts: seq<Point>, bounds: seq<nat>, c: Calibrator, t: nat, i: nat)
    requires Increasing(pts) && IsStepFunction(pts, bounds, c)
    requires t < |c.value| && bounds[t] <= i < bounds[t + 1]
    ensures i < |pts| && Apply(c, pts[i].x) == c.value[t]
  {
    TheBlock(pts, bounds, c, t);
    forall k | 0 <= k < t
      ensures c.upper[k] < pts[i].x
    {
      TheBlock(pts, bounds, c, k);
      BoundsIncrease(pts, bounds, c, k + 1, t);
    }
    FirstAtLeastExact(c.upper, pts[i].x, t);
  }

  lemma {:induction false} BoundsIncrease(pts: seq<Point>, bounds: seq<nat>, c: Calibrator, t: nat, u: nat)
    requires IsStepFunction(pts, bounds, c) && t <= u <= |c.value|
    ensures bounds[t] <= bounds[u]
    ensures t < u ==> bounds[t] < bounds[u]
    decreases u
  {
    if t == u {
    } else {
      TheBlock(pts, bounds, c, u - 1);
      BoundsIncrease(pts, bounds, c, t, u - 1);
    }
  }

  /** Every point lies in some block. */
  lemma {:induction false} BlockOf(pts: seq<Point>, bounds: seq<nat>, c: Calibrator, i: nat, u: nat) returns (t: nat)
    requires IsStepFunction(pts, bounds, c) && u <= |c.value| && i < bounds[u]
    ensures t < u && bounds[t] <= i < bounds[t + 1]
    decreases u
  {
    if u > 0 && bounds[u - 1] <= i {
      t := u - 1;
    } else {
      t := BlockOf(pts, bounds, c, i, u - 1);
    }
  }

  // --------------------------------------------------------------------------
  // Least squares
  // --------------------------------------------------------------------------

  ghost function Times(x: real, y: real): real { x * y }

  lemma TimesSigns(x: real, y: real)
    ensures x > 0.0 && y > 0.0 ==> Times(x, y) > 0.0
    ensures x < 0.0 && y < 0.0 ==> Times(x, y) > 0.0
  {
    assert x < 0.0 && y < 0.0 ==> (-x) * (-y) > 0.0;
    assert (-x) * (-y) == x * y;
  }

  ghost function Square(x: real): (s: real)
    ensures s >= 0.0
    ensures s == 0.0 ==> x == 0.0
  {
    TimesSigns(x, x);
    x * x
  }

  /** Squared error of `f` against what happened. */
  ghost function Loss(obs: seq<Observation>, f: real -> real): real {
    if obs == [] then 0.0
    else
      var o := obs[|obs| - 1];
      Loss(obs[..|obs| - 1], f) + Square(f(o.confidence) - Hit(o))
  }

  /** Squared distance between two corrections at the observed confidences. */
  ghost function Distance(obs: seq<Observation>, f: real -> real, g: real -> real): real {
    if obs == [] then 0.0
    else
      var x := obs[|obs| - 1].confidence;
      Distance(obs[..|obs| - 1], f, g) + Square(f(x) - g(x))
  }

  ghost predicate MonotoneOn(obs: seq<Observation>, f: real -> real) {
    forall o, p :: o in obs && p in obs && o.confidence <= p.confidence ==> f(o.confidence) <= f(p.confidence)
  }

  /** `Apply` as a function of the confidence. */
  ghost function Corrected(c: Calibrator): real -> real { x => Apply(c, x) }

  ghost function CrossBase(f: real -> real, g: real -> real): real -> real { x => (f(x) - g(x)) * g(x) }

  ghost function CrossSlope(f: real -> real, g: real -> real): real -> real { x => g(x) - f(x) }

  lemma CrossOfOne(o: Observation, f: real -> real, g: real -> real)
    ensures var x := o.confidence;
            Term(o, CrossBase(f, g), CrossSlope(f, g)) == (f(x) - g(x)) * g(x) + (g(x) - f(x)) * Hit(o)
  {
  }

  lemma {:induction false} LossSplits(obs: seq<Observation>, f: real -> real, g: real -> real)
    ensures Loss(obs, f)
         == Loss(obs, g) + Distance(obs, f, g) + 2.0 * SumObs(obs, CrossBase(f, g), CrossSlope(f, g))
  {
    hide Term, CrossBase, CrossSlope, Hit, Square;
    if obs == [] {
    } else {
      var o := obs[|obs| - 1];
      LossSplits(obs[..|obs| - 1], f, g);
      CrossOfOne(o, f, g);
      SquareSplits(f(o.confidence), g(o.confidence), Hit(o));
    }
  }

  lemma SquareSplits(f: real, g: real, y: real)
    ensures Square(f - y) == Square(g - y) + Square(f - g) + 2.0 * ((f - g) * g + (g - f) * y)
  {
  }

  /** One point's contribution to the cross term, inside a block of value `v`. */
  lemma CrossAtPoint(obs: seq<Observation>, pts: seq<Point>, i: nat, v: real, f: real -> real, g: real -> real)
    requires ArePoints(obs, pts) && i < |pts| && g(pts[i].x) == v
    ensures SumPoints(obs, pts, i + 1, CrossBase(f, g), CrossSlope(f, g))
         == SumPoints(obs, pts, i, CrossBase(f, g), CrossSlope(f, g)) + Times(v - f(pts[i].x), Dev(pts, i, i + 1, v))
  {
    hide S, W, Dev, Times, HitsAt, CountAt;
    var p := pts[i];
    assert p == PointAt(obs, p.x);
    DevOfOne(pts, i, v);
    CrossStep(f(p.x), v, p.weight, p.sum, Dev(pts, i, i + 1, v));
  }

  lemma CrossStep(f: real, v: real, w: real, s: real, d: real)
    requires d == s - v * w
    ensures ((f - v) * v) * w + (v - f) * s == Times(v - f, d)
  {
    assert (v - f) * d == (v - f) * s - (v - f) * (v * w);
    assert Times(v - f, d) == (v - f) * d;
  }

  lemma DevOfOne(pts: seq<Point>, i: nat, v: real)
    requires i < |pts|
    ensures Dev(pts, i, i + 1, v) == pts[i].sum - v * pts[i].weight
  {
    assert S(pts, i + 1) - S(pts, i) == pts[i].sum && W(pts, i + 1) - W(pts, i) == pts[i].weight;
  }

  /** Summation by parts, one step: the running total `t` and the running excess `d` both grow. */
  lemma SumByParts(t0: real, t1: real, t2: real, v: real, f: real, f': real, d: real, e: real, d': real)
    requires t1 - t0 >= Times(v - f, d) && t2 == t1 + Times(v - f', e)
    requires f <= f' && d >= 0.0 && d' == d + e
    ensures t2 - t0 >= Times(v - f', d')
  {
    ScaleByWeight(f, f', d);
    assert (v - f) * d == v * d - f * d && (v - f') * d == v * d - f' * d;
    assert (v - f') * d' == (v - f') * d + (v - f') * e;
  }

  /** The cross term accumulated over points a..k of a block: bounded by summation by parts. */
  lemma {:induction false} CrossInBlock(
      obs: seq<Observation>, pts: seq<Point>, a: nat, k: nat, b: nat, v: real, f: real -> real, g: real -> real)
    requires ArePoints(obs, pts) && IsBlock(pts, a, b, v) && a < k <= b
    requires forall i :: a <= i < b ==> g(pts[i].x) == v
    requires forall i, j :: a <= i <= j < b ==> f(pts[i].x) <= f(pts[j].x)
    ensures SumPoints(obs, pts, k, CrossBase(f, g), CrossSlope(f, g))
            - SumPoints(obs, pts, a, CrossBase(f, g), CrossSlope(f, g))
         >= Times(v - f(pts[k - 1].x), Dev(pts, a, k, v))
    decreases k
  {
    hide Times, SumPoints, CrossBase, CrossSlope, ArePoints, IsBlock, Dev;
    PrefixAbove(pts, a, k - 1, b, v);
    CrossAtPoint(obs, pts, k - 1, v, f, g);
    if k > a + 1 {
      CrossInBlock(obs, pts, a, k - 1, b, v, f, g);
      DevAdds(pts, a, k - 1, k, v);
      var base, slope := CrossBase(f, g), CrossSlope(f, g);
      SumByParts(
        SumPoints(obs, pts, a, base, slope), SumPoints(obs, pts, k - 1, base, slope),
        SumPoints(obs, pts, k, base, slope), v, f(pts[k - 2].x), f(pts[k - 1].x),
        Dev(pts, a, k - 1, v), Dev(pts, k - 1, k, v), Dev(pts, a, k, v));
    }
  }

  lemma NoPoints(obs: seq<Observation>, pts: seq<Point>, base: real -> real, slope: real -> real)
    ensures SumPoints(obs, pts, 0, base, slope) == 0.0
  {
  }

  /** The cross term is non-negative block by block. */
  lemma {:induction false} CrossNonNegative(
      obs: seq<Observation>, pts: seq<Point>, bounds: seq<nat>, c: Calibrator, f: real -> real, u: nat)
    requires ArePoints(obs, pts) && IsStepFunction(pts, bounds, c) && u <= |c.value|
    requires forall i, j :: 0 <= i <= j < |pts| ==> f(pts[i].x) <= f(pts[j].x)
    ensures bounds[u] <= |pts|
    ensures SumPoints(obs, pts, bounds[u], CrossBase(f, Corrected(c)), CrossSlope(f, Corrected(c))) >= 0.0
    decreases u
  {
    hide CrossBase, CrossSlope, IsBlock, Corrected, Dev, SumPoints, ArePoints;
    BoundsIncrease(pts, bounds, c, u, |c.value|);
    if u == 0 {
      NoPoints(obs, pts, CrossBase(f, Corrected(c)), CrossSlope(f, Corrected(c)));
    } else {
      CrossNonNegative(obs, pts, bounds, c, f, u - 1);
      CrossOverBlock(obs, pts, bounds, c, f, u - 1);
    }
  }

  lemma TimesZero(x: real, y: real)
    requires y == 0.0
    ensures Times(x, y) == 0.0
  {
  }

  lemma CrossOverBlock(
      obs: seq<Observation>, pts: seq<Point>, bounds: seq<nat>, c: Calibrator, f: real -> real, t: nat)
    requires ArePoints(obs, pts) && IsStepFunction(pts, bounds, c) && t < |c.value|
    requires forall i, j :: 0 <= i <= j < |pts| ==> f(pts[i].x) <= f(pts[j].x)
    ensures bounds[t] < bounds[t + 1] <= |pts|
    ensures SumPoints(obs, pts, bounds[t + 1], CrossBase(f, Corrected(c)), CrossSlope(f, Corrected(c)))
         >= SumPoints(obs, pts, bounds[t], CrossBase(f, Corrected(c)), CrossSlope(f, Corrected(c)))
  {
    hide Times, SumPoints, CrossBase, CrossSlope, Dev, IsBlock, Corrected;
    var a, b, v := bounds[t], bounds[t + 1], c.value[t];
    TheBlock(pts, bounds, c, t);
    ApplyOnBlock(pts, bounds, c, t);
    CrossInBlock(obs, pts, a, b, b, v, f, Corrected(c));
    TimesZero(v - f(pts[b - 1].x), Dev(pts, a, b, v));
  }

  lemma ApplyOnBlock(pts: seq<Point>, bounds: seq<nat>, c: Calibrator, t: nat)
    requires Increasing(pts) && IsStepFunction(pts, bounds, c) && t < |c.value|
    ensures bounds[t + 1] <= |pts|
    ensures forall i :: bounds[t] <= i < bounds[t + 1] ==> Corrected(c)(pts[i].x) == c.value[t]
  {
    TheBlock(pts, bounds, c, t);
    forall i | bounds[t] <= i < bounds[t + 1]
      ensures Corrected(c)(pts[i].x) == c.value[t]
    {
      ApplyInBlock(pts, bounds, c, t, i);
    }
  }

  /** A correction monotone on the corpus is monotone on its points. */
  lemma MonotoneOnPoints(obs: seq<Observation>, pts: seq<Point>, f: real -> real)
    requires ArePoints(obs, pts) && MonotoneOn(obs, f)
    ensures forall i, j :: 0 <= i <= j < |pts| ==> f(pts[i].x) <= f(pts[j].x)
  {
    forall i, j | 0 <= i <= j < |pts|
      ensures f(pts[i].x) <= f(pts[j].x)
    {
      var o := PointIsObserved(obs, pts[i].x);
      var p := PointIsObserved(obs, pts[j].x);
    }
  }

  lemma {:induction false} PointIsObserved(obs: seq<Observation>, x: real) returns (o: Observation)
    requires CountAt(obs, x) > 0.0
    ensures o in obs && o.confidence == x
    decreases |obs|
  {
    if obs[|obs| - 1].confidence == x {
      o := obs[|obs| - 1];
    } else {
      o := PointIsObserved(obs[..|obs| - 1], x);
    }
  }

  /**
   The fit is optimal, by a margin: no correction that preserves the model's ranking has a smaller
   squared error, and every other one is worse by at least its squared distance from the fit.
   */
  lemma FitIsLeastSquares(obs: seq<Observation>, c: Calibrator, f: real -> real)
    requires IsFit(obs, c) && MonotoneOn(obs, f)
    ensures Loss(obs, f) >= Loss(obs, Corrected(c)) + Distance(obs, f, Corrected(c))
  {
    var pts: seq<Point>, bounds: seq<nat> :| ArePoints(obs, pts) && IsStepFunction(pts, bounds, c);
    var g := Corrected(c);
    MonotoneOnPoints(obs, pts, f);
    CrossNonNegative(obs, pts, bounds, c, f, |c.value|);
    PoolingPreservesSums(obs, pts, CrossBase(f, g), CrossSlope(f, g));
    LossSplits(obs, f, g);
  }

  lemma {:induction false} ZeroDistance(obs: seq<Observation>, f: real -> real, g: real -> real)
    ensures Distance(obs, f, g) >= 0.0
    ensures Distance(obs, f, g) == 0.0 ==> forall o :: o in obs ==> f(o.confidence) == g(o.confidence)
  {
    if obs == [] {
    } else {
      var init, x := obs[..|obs| - 1], obs[|obs| - 1].confidence;
      ZeroDistance(init, f, g);
      assert obs == init + [obs[|obs| - 1]];
      assert forall o :: o in obs <==> o in init || o == obs[|obs| - 1];
    }
  }

  /** Uniqueness: a monotone correction no worse than the fit is the fit, wherever it was observed. */
  lemma FitIsUnique(obs: seq<Observation>, c: Calibrator, f: real -> real)
    requires IsFit(obs, c) && MonotoneOn(obs, f)
    requires Loss(obs, f) <= Loss(obs, Corrected(c))
    ensures forall o :: o in obs ==> f(o.confidence) == Apply(c, o.confidence)
  {
    FitIsLeastSquares(obs, c, f);
    ZeroDistance(obs, f, Corrected(c));
  }

  // --------------------------------------------------------------------------
  // The calibrator never reorders
  // --------------------------------------------------------------------------

  lemma {:induction false} FirstAtLeastMonotone(upper: seq<real>, x: real, y: real)
    requires x <= y
    ensures FirstAtLeast(upper, x) <= FirstAtLeast(upper, y)
  {
    if upper == [] || upper[0] >= x {
    } else {
      FirstAtLeastMonotone(upper[1..], x, y);
    }
  }

  /** For any two confidences, observed or not, the corrected values keep the stated order. */
  lemma ApplyPreservesRanking(obs: seq<Observation>, c: Calibrator, x: real, y: real)
    requires IsFit(obs, c) && x <= y
    ensures Apply(c, x) <= Apply(c, y)
  {
    var pts: seq<Point>, bounds: seq<nat> :| ArePoints(obs, pts) && IsStepFunction(pts, bounds, c);
    FirstAtLeastMonotone(c.upper, x, y);
  }

  // --------------------------------------------------------------------------
  // The max-min formula
  // --------------------------------------------------------------------------

  /** The observed frequency over points j..k. */
  ghost function Average(pts: seq<Point>, j: nat, k: nat): real
    requires j < k <= |pts| && Positive(pts)
  {
    WeightGrows(pts, j, k);
    (S(pts, k) - S(pts, j)) / (W(pts, k) - W(pts, j))
  }

  lemma AverageVersusDev(pts: seq<Point>, j: nat, k: nat, v: real)
    requires j < k <= |pts| && Positive(pts)
    ensures Average(pts, j, k) >= v <==> Dev(pts, j, k, v) >= 0.0
    ensures Average(pts, j, k) <= v <==> Dev(pts, j, k, v) <= 0.0
  {
    hide S, W;
    WeightGrows(pts, j, k);
    QuotientVersus(S(pts, k) - S(pts, j), W(pts, k) - W(pts, j), v);
  }

  lemma QuotientVersus(s: real, w: real, v: real)
    requires w > 0.0
    ensures s / w >= v <==> s - v * w >= 0.0
    ensures s / w <= v <==> s - v * w <= 0.0
  {
    ProductVersus(s / w, s, w, v);
  }

  lemma ProductVersus(m: real, s: real, w: real, v: real)
    requires w > 0.0 && m * w == s
    ensures m >= v <==> s - v * w >= 0.0
    ensures m <= v <==> s - v * w <= 0.0
  {
    ScaleStrictly(m, v, w);
    ScaleStrictly(v, m, w);
  }

  /** Every average from point `j` through point `i` or beyond is at least `v`. */
  ghost predicate AllAtLeast(pts: seq<Point>, i: nat, j: nat, v: real)
    requires Positive(pts)
  {
    j <= i < |pts| && forall k :: i < k <= |pts| ==> Average(pts, j, k) >= v
  }

  /** Some average from point `j` through point `i` or beyond is at most `v`. */
  ghost predicate SomeAtMost(pts: seq<Point>, i: nat, j: nat, v: real)
    requires Positive(pts)
  {
    j <= i < |pts| && exists k :: i < k <= |pts| && Average(pts, j, k) <= v
  }

  /** `v` is the maximum over j <= i of the minimum over k > i of the average of points j..k. */
  ghost predicate IsMaxMin(pts: seq<Point>, i: nat, v: real) {
    && Positive(pts)
    && (exists j: nat :: AllAtLeast(pts, i, j, v))
    && (forall j: nat :: j <= i ==> SomeAtMost(pts, i, j, v))
  }

  lemma MaxMinUnique(pts: seq<Point>, i: nat, u: real, v: real)
    requires IsMaxMin(pts, i, u) && IsMaxMin(pts, i, v)
    ensures u == v
  {
    var j: nat :| AllAtLeast(pts, i, j, u);
    assert SomeAtMost(pts, i, j, v);
    var j': nat :| AllAtLeast(pts, i, j', v);
    assert SomeAtMost(pts, i, j', u);
  }

  /** From the start of a block, no average ending at or after it falls below its value. */
  lemma {:induction false} DevFromBlockStart(
      pts: seq<Point>, bounds: seq<nat>, c: Calibrator, t: nat, u: nat, k: nat)
    requires Positive(pts) && IsStepFunction(pts, bounds, c)
    requires t <= u < |c.value| && bounds[u] <= k <= bounds[u + 1]
    ensures bounds[t] <= k <= |pts| && Dev(pts, bounds[t], k, c.value[t]) >= 0.0
    decreases u
  {
    BoundsIncrease(pts, bounds, c, t, u);
    TheBlock(pts, bounds, c, u);
    if t < u {
      TheBlock(pts, bounds, c, u - 1);
      DevFromBlockStart(pts, bounds, c, t, u - 1, bounds[u]);
      DevAdds(pts, bounds[t], bounds[u], k, c.value[t]);
      DevAntitone(pts, bounds[u], k, c.value[t], c.value[u]);
    }
  }

  /** Up to the end of a block, no average starting at or before it rises above its value. */
  lemma {:induction false} DevToBlockEnd(
      pts: seq<Point>, bounds: seq<nat>, c: Calibrator, s: nat, t: nat, j: nat)
    requires Positive(pts) && IsStepFunction(pts, bounds, c)
    requires s <= t < |c.value| && bounds[s] <= j <= bounds[s + 1]
    ensures j <= bounds[t + 1] <= |pts| && Dev(pts, j, bounds[t + 1], c.value[t]) <= 0.0
    decreases t - s
  {
    BoundsIncrease(pts, bounds, c, s + 1, t + 1);
    TheBlock(pts, bounds, c, t);
    TheBlock(pts, bounds, c, s);
    SuffixBelow(pts, bounds[s], j, bounds[s + 1], c.value[s]);
    if s < t {
      TheBlock(pts, bounds, c, s + 1);
      DevToBlockEnd(pts, bounds, c, s + 1, t, bounds[s + 1]);
      DevAntitone(pts, j, bounds[s + 1], c.value[s], c.value[t]);
      DevAdds(pts, j, bounds[s + 1], bounds[t + 1], c.value[t]);
    }
  }

  /** The fitted value at each observed confidence is the max-min of the observed averages. */
  lemma FitIsMaxMin(obs: seq<Observation>, pts: seq<Point>, bounds: seq<nat>, c: Calibrator, i: nat)
    requires ArePoints(obs, pts) && IsStepFunction(pts, bounds, c) && i < |pts|
    ensures IsMaxMin(pts, i, Apply(c, pts[i].x))
  {
    var t := BlockOf(pts, bounds, c, i, |c.value|);
    ApplyInBlock(pts, bounds, c, t, i);
    TheBlock(pts, bounds, c, t);
    var v, a, b := c.value[t], bounds[t], bounds[t + 1];
    forall k | i < k <= |pts|
      ensures Average(pts, a, k) >= v
    {
      var u := BlockOf(pts, bounds, c, k - 1, |c.value|);
      if u < t {
        BoundsIncrease(pts, bounds, c, u + 1, t);
      }
      DevFromBlockStart(pts, bounds, c, t, u, k);
      AverageVersusDev(pts, a, k, v);
    }
    assert AllAtLeast(pts, i, a, v);
    forall j: nat {:trigger SomeAtMost(pts, i, j, v)} | j <= i
      ensures SomeAtMost(pts, i, j, v)
    {
      var s := BlockOf(pts, bounds, c, j, |c.value|);
      if t < s {
        BoundsIncrease(pts, bounds, c, t + 1, s);
      }
      DevToBlockEnd(pts, bounds, c, s, t, j);
      AverageVersusDev(pts, j, b, v);
    }
  }

  // --------------------------------------------------------------------------
  // The fit is a function of the corpus
  // --------------------------------------------------------------------------

  /** Two orderings of the same pooled points are the same ordering. */
  lemma {:induction false} PointsUnique(obs: seq<Observation>, p: seq<Point>, q: seq<Point>, n: nat)
    requires ArePoints(obs, p) && ArePoints(obs, q) && n <= |p|
    ensures n <= |q| && p[..n] == q[..n]
    ensures n == |p| ==> p == q
  {
    if n == 0 {
    } else {
      PointsUnique(obs, p, q, n - 1);
      SamePosition(obs, p, q, n - 1);
      assert p[..n] == p[..n - 1] + [p[n - 1]] && q[..n] == q[..n - 1] + [q[n - 1]];
    }
    if n == |p| {
      assert p == p[..n];
      if |q| > n {
        SamePosition(obs, q, p, n);
      }
    }
  }

  lemma SamePosition(obs: seq<Observation>, p: seq<Point>, q: seq<Point>, n: nat)
    requires ArePoints(obs, p) && ArePoints(obs, q) && n < |p| && n <= |q| && p[..n] == q[..n]
    ensures n < |q| && p[n] == q[n]
  {
    assert forall i :: 0 <= i < n ==> p[i] == p[..n][i] == q[..n][i] == q[i];
    var o := PointIsObserved(obs, p[n].x);
    var i :| 0 <= i < |q| && q[i].x == o.confidence;
    var o' := PointIsObserved(obs, q[n].x);
    var i' :| 0 <= i' < |p| && p[i'].x == o'.confidence;
  }

  /** The first observed confidence at or above `x`, or the number of points. */
  ghost function FirstPoint(pts: seq<Point>, x: real): (i: nat)
    ensures i <= |pts|
    ensures i < |pts| ==> pts[i].x >= x
    ensures forall k :: 0 <= k < i ==> pts[k].x < x
  {
    if pts == [] || pts[0].x >= x then 0 else 1 + FirstPoint(pts[1..], x)
  }

  /** An unobserved confidence is corrected like the next observed one above it, or like the last. */
  lemma ApplyBetweenPoints(obs: seq<Observation>, pts: seq<Point>, bounds: seq<nat>, c: Calibrator, x: real)
    requires obs != [] && ArePoints(obs, pts) && IsStepFunction(pts, bounds, c)
    ensures |pts| > 0
    ensures var i := FirstPoint(pts, x);
            Apply(c, x) == Apply(c, pts[if i < |pts| then i else |pts| - 1].x)
  {
    hide IsBlock, Dev, PointAt;
    assert obs[0] in obs;
    var i := FirstPoint(pts, x);
    var at := if i < |pts| then i else |pts| - 1;
    var t := BlockOf(pts, bounds, c, at, |c.value|);
    ApplyInBlock(pts, bounds, c, t, at);
    TheBlock(pts, bounds, c, t);
    forall k | 0 <= k < t
      ensures c.upper[k] < x
    {
      TheBlock(pts, bounds, c, k);
      BoundsIncrease(pts, bounds, c, k + 1, t);
    }
    if i < |pts| {
      FirstAtLeastExact(c.upper, x, t);
    } else {
      BoundsIncrease(pts, bounds, c, t + 1, |c.value|);
      FirstAtLeastExact(c.upper, x, t + 1);
    }
  }

  lemma ValueAt(obs: seq<Observation>, pts: seq<Point>, bounds: seq<nat>, c: Calibrator, t: nat)
    requires ArePoints(obs, pts) && IsStepFunction(pts, bounds, c) && t < |c.value|
    ensures bounds[t] < |pts| && IsMaxMin(pts, bounds[t], c.value[t])
  {
    hide IsBlock, Dev, IsMaxMin, PointAt;
    TheBlock(pts, bounds, c, t);
    ApplyInBlock(pts, bounds, c, t, bounds[t]);
    FitIsMaxMin(obs, pts, bounds, c, bounds[t]);
  }

  /** Of two blocks with one start and one value neither is longer. */
  lemma BlockEndUnique(pts: seq<Point>, a: nat, b: nat, b': nat, v: real)
    requires IsBlock(pts, a, b, v) && IsBlock(pts, a, b', v)
    ensures b == b'
  {
    hide Dev;
  }

  /** The `t`-th block starts at the same point in both fits. */
  lemma {:induction false} SameBounds(
      obs: seq<Observation>, pts: seq<Point>, bounds: seq<nat>, c: Calibrator, bounds': seq<nat>, c': Calibrator, t: nat)
    requires ArePoints(obs, pts) && IsStepFunction(pts, bounds, c) && IsStepFunction(pts, bounds', c') && t <= |c.value|
    ensures t <= |c'.value| && bounds[t] == bounds'[t]
    ensures t > 0 ==> c.value[t - 1] == c'.value[t - 1] && c.upper[t - 1] == c'.upper[t - 1]
    decreases t
  {
    hide IsBlock, Dev, IsMaxMin, ArePoints;
    if t == 0 {
    } else {
      SameBounds(obs, pts, bounds, c, bounds', c', t - 1);
      TheBlock(pts, bounds, c, t - 1);
      ValueAt(obs, pts, bounds, c, t - 1);
      TheBlock(pts, bounds', c', t - 1);
      ValueAt(obs, pts, bounds', c', t - 1);
      MaxMinUnique(pts, bounds[t - 1], c.value[t - 1], c'.value[t - 1]);
      BlockEndUnique(pts, bounds[t - 1], bounds[t], bounds'[t], c.value[t - 1]);
    }
  }

  /**
   Fitting is deterministic, whatever order the pooled points were visited in: a corpus has one fit,
   block for block.
   */
  lemma FitIsDetermined(obs: seq<Observation>, c: Calibrator, c': Calibrator)
    requires IsFit(obs, c) && IsFit(obs, c')
    ensures c == c'
  {
    var pts: seq<Point>, bounds: seq<nat> :| ArePoints(obs, pts) && IsStepFunction(pts, bounds, c);
    var pts': seq<Point>, bounds': seq<nat> :| ArePoints(obs, pts') && IsStepFunction(pts', bounds', c');
    PointsUnique(obs, pts, pts', |pts|);
    SameFit(obs, pts, bounds, c, bounds', c');
  }

  lemma SameFit(
      obs: seq<Observation>, pts: seq<Point>, bounds: seq<nat>, c: Calibrator, bounds': seq<nat>, c': Calibrator)
    requires ArePoints(obs, pts) && IsStepFunction(pts, bounds, c) && IsStepFunction(pts, bounds', c')
    ensures c == c' && bounds == bounds'
  {
    hide IsBlock, Dev, ArePoints, PointAt;
    SameBounds(obs, pts, bounds, c, bounds', c', |c.value|);
    SameBounds(obs, pts, bounds', c', bounds, c, |c'.value|);
    forall t: nat | t < |bounds|
      ensures bounds[t] == bounds'[t]
      ensures t < |c.value| ==> c.value[t] == c'.value[t] && c.upper[t] == c'.upper[t]
    {
      SameBounds(obs, pts, bounds, c, bounds', c', t);
      if t < |c.value| {
        SameBounds(obs, pts, bounds, c, bounds', c', t + 1);
      }
    }
  }
}
