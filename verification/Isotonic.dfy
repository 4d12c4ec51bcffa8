/** Predictions with a stated confidence and what happened (internal/calib/calib.go). */
module Observations {

  datatype Observation = Observation(confidence: real, correct: bool)

  const MAX_OBSERVATIONS: nat := 5_000_000

  datatype CalibError =
    | NoObservations | TooManyObservations | InvalidObservation | InvalidOptions | UnreachableTarget

  predicate InUnit(o: Observation) { 0.0 <= o.confidence <= 1.0 }

  /** The validation every entry point runs first. */
  predicate Valid(obs: seq<Observation>) {
    0 < |obs| <= MAX_OBSERVATIONS && forall o :: o in obs ==> InUnit(o)
  }

  function Fault(obs: seq<Observation>): CalibError {
    if obs == [] then NoObservations
    else if |obs| > MAX_OBSERVATIONS then TooManyObservations
    else InvalidObservation
  }

  /** The observed frequency of a single outcome. */
  function Hit(o: Observation): real { if o.correct then 1.0 else 0.0 }
}

/**
 Isotonic regression by pool-adjacent-violators (`Fit`, `Calibrator.Apply`), over exact reals:
 the stack-merging loop and the proof that what it leaves is the least-squares monotone fit.
 */
module Isotonic {
  import opened Collections
  import opened Observations

  /** A distinct confidence, or a block of them: the hits and the observations it pools. */
  datatype Point = Point(x: real, sum: real, weight: real)

  function Mean(p: Point): real
    requires p.weight > 0.0
  {
    p.sum / p.weight
  }

  // --------------------------------------------------------------------------
  // Pooling equal confidences
  // --------------------------------------------------------------------------

  function HitsAt(obs: seq<Observation>, x: real): real {
    if obs == [] then 0.0
    else HitsAt(obs[..|obs| - 1], x) + if obs[|obs| - 1].confidence == x then Hit(obs[|obs| - 1]) else 0.0
  }

  function CountAt(obs: seq<Observation>, x: real): (n: real)
    ensures n >= 0.0
  {
    if obs == [] then 0.0
    else CountAt(obs[..|obs| - 1], x) + if obs[|obs| - 1].confidence == x then 1.0 else 0.0
  }

  function PointAt(obs: seq<Observation>, x: real): Point {
    Point(x, HitsAt(obs, x), CountAt(obs, x))
  }

  function Confidences(obs: seq<Observation>): set<real> {
    set o | o in obs :: o.confidence
  }

  ghost predicate Increasing(pts: seq<Point>) {
    forall i, j :: 0 <= i < j < |pts| ==> pts[i].x < pts[j].x
  }

  /** The pooled points of a corpus, one for every distinct confidence, in order. */
  ghost predicate ArePoints(obs: seq<Observation>, pts: seq<Point>) {
    && Increasing(pts)
    && (forall o :: o in obs ==> exists i :: 0 <= i < |pts| && pts[i].x == o.confidence)
    && (forall i :: 0 <= i < |pts| ==> pts[i] == PointAt(obs, pts[i].x) && pts[i].weight > 0.0)
  }

  lemma {:induction false} SeenIsCounted(obs: seq<Observation>, o: Observation)
    requires o in obs
    ensures CountAt(obs, o.confidence) >= 1.0
  {
    var init, last := obs[..|obs| - 1], obs[|obs| - 1];
    if o != last {
      assert obs == init + [last];
      SeenIsCounted(init, o);
    }
  }

  method Pool(obs: seq<Observation>) returns (m: map<real, Point>)
    ensures m.Keys == Confidences(obs)
    ensures forall x :: x in m ==> m[x] == PointAt(obs, x)
  {
    m := map[];
    for i := 0 to |obs|
      invariant m.Keys == Confidences(obs[..i])
      invariant forall x :: x in m ==> m[x] == PointAt(obs[..i], x)
      invariant forall x :: x !in m ==> PointAt(obs[..i], x) == Point(x, 0.0, 0.0)
    {
      var o := obs[i];
      assert obs[..i + 1][..i] == obs[..i];
      assert obs[..i + 1] == obs[..i] + [o];
      var p := if o.confidence in m then m[o.confidence] else Point(o.confidence, 0.0, 0.0);
      p := p.(weight := p.weight + 1.0);
      if o.correct {
        p := p.(sum := p.sum + 1.0);
      }
      m := m[o.confidence := p];
    }
    assert obs[..|obs|] == obs;
  }

  lemma InsertedInOrder(pts: seq<Point>, k: nat, p: Point)
    requires Increasing(pts) && k <= |pts|
    requires forall i :: 0 <= i < k ==> pts[i].x < p.x
    requires k < |pts| ==> p.x < pts[k].x
    ensures Increasing(pts[..k] + [p] + pts[k..])
    ensures forall q :: q in pts[..k] + [p] + pts[k..] <==> q in pts || q == p
  {
    assert forall q :: q in pts <==> q in pts[..k] || q in pts[k..] by {
      assert pts == pts[..k] + pts[k..];
    }
  }

  /** Stands for the library sort of the pooled points by confidence. */
  method SortPoints(m: map<real, Point>) returns (pts: seq<Point>)
    requires forall x :: x in m ==> m[x].x == x
    ensures Increasing(pts)
    ensures forall x :: x in m ==> m[x] in pts
    ensures forall p :: p in pts ==> p.x in m && m[p.x] == p
  {
    pts := [];
    var todo := m.Keys;
    while todo != {}
      invariant todo <= m.Keys
      invariant Increasing(pts)
      invariant forall x :: x in m && x !in todo ==> m[x] in pts
      invariant forall p :: p in pts ==> p.x in m && p.x !in todo && m[p.x] == p
      decreases todo
    {
      var x := AnyMember(todo);
      var k := 0;
      while k < |pts| && pts[k].x < x
        invariant 0 <= k <= |pts|
        invariant forall i :: 0 <= i < k ==> pts[i].x < x
      {
        k := k + 1;
      }
      assert k < |pts| ==> pts[k] in pts;
      InsertedInOrder(pts, k, m[x]);
      pts := pts[..k] + [m[x]] + pts[k..];
      todo := todo - {x};
    }
  }

  // --------------------------------------------------------------------------
  // Prefix sums
  // --------------------------------------------------------------------------

  ghost function S(pts: seq<Point>, n: nat): real
    requires n <= |pts|
  {
    if n == 0 then 0.0 else S(pts, n - 1) + pts[n - 1].sum
  }

  ghost function W(pts: seq<Point>, n: nat): real
    requires n <= |pts|
  {
    if n == 0 then 0.0 else W(pts, n - 1) + pts[n - 1].weight
  }

  /** How far the hits in points a..b exceed a constant frequency `v`. */
  ghost function Dev(pts: seq<Point>, a: nat, b: nat, v: real): real
    requires a <= b <= |pts|
  {
    S(pts, b) - S(pts, a) - v * (W(pts, b) - W(pts, a))
  }

  ghost predicate Positive(pts: seq<Point>) {
    forall i :: 0 <= i < |pts| ==> pts[i].weight > 0.0
  }

  lemma {:induction false} WeightGrows(pts: seq<Point>, a: nat, b: nat)
    requires a <= b <= |pts| && Positive(pts)
    ensures W(pts, a) <= W(pts, b)
    ensures a < b ==> W(pts, a) < W(pts, b)
    decreases b
  {
    if a == b {
    } else {
      WeightGrows(pts, a, b - 1);
    }
  }

  lemma DevAdds(pts: seq<Point>, a: nat, b: nat, c: nat, v: real)
    requires a <= b <= c <= |pts|
    ensures Dev(pts, a, c, v) == Dev(pts, a, b, v) + Dev(pts, b, c, v)
  {
    assert v * (W(pts, c) - W(pts, a)) == v * (W(pts, b) - W(pts, a)) + v * (W(pts, c) - W(pts, b));
  }

  /** Raising the constant can only lower the excess. */
  lemma DevAntitone(pts: seq<Point>, a: nat, b: nat, u: real, v: real)
    requires a <= b <= |pts| && Positive(pts) && u <= v
    ensures Dev(pts, a, b, v) <= Dev(pts, a, b, u)
    ensures a < b && u < v ==> Dev(pts, a, b, v) < Dev(pts, a, b, u)
  {
    WeightGrows(pts, a, b);
    var w := W(pts, b) - W(pts, a);
    assert (v - u) * w >= 0.0 && (u < v && w > 0.0 ==> (v - u) * w > 0.0);
    assert v * w == u * w + (v - u) * w;
  }

  // --------------------------------------------------------------------------
  // Blocks
  // --------------------------------------------------------------------------

  /** `v` is the mean of points a..b, and every proper prefix of them has a larger mean. */
  ghost predicate IsBlock(pts: seq<Point>, a: nat, b: nat, v: real) {
    && a < b <= |pts|
    && Dev(pts, a, b, v) == 0.0
    && forall k :: a < k < b ==> Dev(pts, a, k, v) > 0.0
  }

  lemma PrefixAbove(pts: seq<Point>, a: nat, k: nat, b: nat, v: real)
    requires IsBlock(pts, a, b, v) && a <= k <= b
    ensures b <= |pts| && Dev(pts, a, k, v) >= 0.0
  {
  }

  /** Consequently every proper suffix of a block has a smaller mean. */
  lemma SuffixBelow(pts: seq<Point>, a: nat, k: nat, b: nat, v: real)
    requires IsBlock(pts, a, b, v) && a <= k <= b
    ensures Dev(pts, k, b, v) <= 0.0
    ensures a < k < b ==> Dev(pts, k, b, v) < 0.0
  {
    PrefixAbove(pts, a, k, b, v);
    DevAdds(pts, a, k, b, v);
  }

  lemma {:induction false} SinglePointBlock(pts: seq<Point>, a: nat)
    requires a < |pts| && Positive(pts)
    ensures IsBlock(pts, a, a + 1, Mean(pts[a]))
  {
    var p := pts[a];
    assert Mean(p) * p.weight == p.sum;
    assert W(pts, a + 1) - W(pts, a) == p.weight;
  }

  /** Two neighbours that run downhill merge into a block whose mean lies between theirs. */
  lemma MergedBlock(pts: seq<Point>, a: nat, b: nat, c: nat, u: real, v: real, m: real)
    requires Positive(pts)
    requires IsBlock(pts, a, b, u) && IsBlock(pts, b, c, v)
    requires v <= m < u && Dev(pts, a, c, m) == 0.0
    ensures IsBlock(pts, a, c, m)
  {
    hide S, W, Dev;
    forall k | a < k < c
      ensures Dev(pts, a, k, m) > 0.0
    {
      if k <= b {
        PrefixAbove(pts, a, k, b, u);
        DevAntitone(pts, a, k, m, u);
      } else {
        SuffixBelow(pts, b, k, c, v);
        DevAntitone(pts, k, c, v, m);
        DevAdds(pts, a, k, c, m);
      }
    }
  }

  lemma CancelWeight(a: real, b: real, w: real)
    requires w > 0.0 && a * w <= b * w
    ensures a <= b
  {
    assert a > b ==> (a - b) * w > 0.0;
  }

  lemma ScaleByWeight(a: real, b: real, w: real)
    requires w >= 0.0 && a <= b
    ensures a * w <= b * w
  {
  }

  lemma WeightedMeanBetween(p: Point, q: Point)
    requires p.weight > 0.0 && q.weight > 0.0 && Mean(p) > Mean(q)
    ensures Mean(q) <= (p.sum + q.sum) / (p.weight + q.weight) < Mean(p)
  {
    var u, v, w := Mean(p), Mean(q), p.weight + q.weight;
    var m := (p.sum + q.sum) / w;
    assert m * w == u * p.weight + v * q.weight;
    ScaleByWeight(v, u, q.weight);
    ScaleByWeight(v, u, p.weight);
    assert u * w == u * p.weight + u * q.weight;
    assert v * w == v * p.weight + v * q.weight;
    CancelWeight(v, m, w);
    ScaleStrictly(v, u, q.weight);
    CancelStrictly(m, u, w);
  }

  lemma ScaleStrictly(a: real, b: real, w: real)
    requires w > 0.0
    ensures a < b ==> a * w < b * w
    ensures a == b ==> a * w == b * w
  {
    assert a < b ==> (b - a) * w > 0.0;
    assert (b - a) * w == b * w - a * w;
  }

  lemma CancelStrictly(a: real, b: real, w: real)
    requires w > 0.0 && a * w < b * w
    ensures a < b
  {
    assert a >= b ==> (a - b) * w >= 0.0;
  }

  /** Block `b` of the stack pools exactly the points from..to. */
  ghost predicate Pools(pts: seq<Point>, from: nat, to: nat, b: Point) {
    && from < to <= |pts|
    && b.weight > 0.0
    && b.x == pts[to - 1].x
    && b.sum == S(pts, to) - S(pts, from)
    && b.weight == W(pts, to) - W(pts, from)
    && IsBlock(pts, from, to, Mean(b))
  }

  /** The stack partitions the first `n` points, block by block. */
  ghost predicate IsStack(pts: seq<Point>, n: nat, bounds: seq<nat>, blocks: seq<Point>) {
    && n <= |pts|
    && |bounds| == |blocks| + 1 && bounds[0] == 0 && bounds[|blocks|] == n
    && forall t {:trigger blocks[t]} :: 0 <= t < |blocks| ==> Pools(pts, bounds[t], bounds[t + 1], blocks[t])
  }

  /** The first `n` blocks do not run downhill. */
  ghost predicate Uphill(blocks: seq<Point>, n: nat) {
    && n <= |blocks|
    && (forall t :: 0 <= t < |blocks| ==> blocks[t].weight > 0.0)
    && forall t :: 0 < t < n ==> Mean(blocks[t - 1]) <= Mean(blocks[t])
  }

  lemma PoolsSingle(pts: seq<Point>, n: nat)
    requires n < |pts| && Positive(pts)
    ensures Pools(pts, n, n + 1, pts[n])
  {
    SinglePointBlock(pts, n);
  }

  lemma PoolsMerged(pts: seq<Point>, a: nat, b: nat, c: nat, p: Point, q: Point)
    requires Positive(pts) && Pools(pts, a, b, p) && Pools(pts, b, c, q) && Mean(p) > Mean(q)
    ensures Pools(pts, a, c, Point(q.x, p.sum + q.sum, p.weight + q.weight))
  {
    var merged := Point(q.x, p.sum + q.sum, p.weight + q.weight);
    WeightedMeanBetween(p, q);
    assert Mean(merged) * merged.weight == merged.sum;
    MergedBlock(pts, a, b, c, Mean(p), Mean(q), Mean(merged));
  }

  /** The pool-adjacent-violators loop over the stack of blocks. */
  method PoolAdjacentViolators(pts: seq<Point>) returns (blocks: seq<Point>, ghost bounds: seq<nat>)
    requires Positive(pts)
    ensures IsStack(pts, |pts|, bounds, blocks) && Uphill(blocks, |blocks|)
  {
    hide Pools;
    blocks, bounds := [], [0];
    for i := 0 to |pts|
      invariant IsStack(pts, i, bounds, blocks) && Uphill(blocks, |blocks|)
    {
      PoolsSingle(pts, i);
      blocks, bounds := blocks + [pts[i]], bounds + [i + 1];
      while |blocks| > 1
        invariant |blocks| > 0
        invariant IsStack(pts, i + 1, bounds, blocks) && Uphill(blocks, |blocks| - 1)
        invariant |blocks| == 1 ==> Uphill(blocks, |blocks|)
        decreases |blocks|
      {
        var last := blocks[|blocks| - 1];
        var prev := blocks[|blocks| - 2];
        if prev.sum / prev.weight <= last.sum / last.weight {
          break;
        }
        var merged := Point(last.x, prev.sum + last.sum, prev.weight + last.weight);
        var n := |blocks|;
        PoolsMerged(pts, bounds[n - 2], bounds[n - 1], bounds[n], prev, last);
        blocks, bounds := blocks[..n - 2] + [merged], bounds[..n - 1] + [bounds[n]];
      }
    }
  }

  // --------------------------------------------------------------------------
  // The calibrator
  // --------------------------------------------------------------------------

  /** The fitted step function: `value[t]` up to and including confidence `upper[t]`. */
  datatype Calibrator = Calibrator(upper: seq<real>, value: seq<real>)

  /** The library binary search: the first step whose bound is at least `x`. */
  function FirstAtLeast(upper: seq<real>, x: real): (i: nat)
    ensures i <= |upper|
  {
    if upper == [] || upper[0] >= x then 0 else 1 + FirstAtLeast(upper[1..], x)
  }

  function Apply(c: Calibrator, x: real): real {
    if |c.value| == 0 then x
    else
      var i := FirstAtLeast(c.upper, x);
      c.value[if i >= |c.value| then |c.value| - 1 else i]
  }

  lemma {:induction false} FirstAtLeastExact(upper: seq<real>, x: real, i: nat)
    requires i <= |upper|
    requires forall k :: 0 <= k < i ==> upper[k] < x
    requires i < |upper| ==> upper[i] >= x
    ensures FirstAtLeast(upper, x) == i
    decreases i
  {
    if i == 0 {
    } else {
      FirstAtLeastExact(upper[1..], x, i - 1);
    }
  }

  /** `c` is the step function over blocks of `pts` cut at `bounds`. */
  ghost predicate IsStepFunction(pts: seq<Point>, bounds: seq<nat>, c: Calibrator) {
    && |c.upper| == |c.value| == |bounds| - 1
    && bounds[0] == 0 && bounds[|c.value|] == |pts|
    && (forall t {:trigger c.value[t]} :: 0 <= t < |c.value| ==>
          && IsBlock(pts, bounds[t], bounds[t + 1], c.value[t])
          && c.upper[t] == pts[bounds[t + 1] - 1].x)
    && (forall t, u :: 0 <= t <= u < |c.value| ==> c.value[t] <= c.value[u])
  }

  /** `c` is what fitting on `obs` yields. */
  ghost predicate IsFit(obs: seq<Observation>, c: Calibrator) {
    && obs != []
    && exists pts, bounds :: ArePoints(obs, pts) && IsStepFunction(pts, bounds, c)
  }

  lemma {:induction false} UphillMeans(blocks: seq<Point>, t: nat, u: nat)
    requires t <= u < |blocks| && Uphill(blocks, |blocks|)
    ensures Mean(blocks[t]) <= Mean(blocks[u])
    decreases u
  {
    if t == u {
    } else {
      UphillMeans(blocks, t, u - 1);
    }
  }

  /** `Fit`. */
  method Fit(obs: seq<Observation>) returns (r: Result<Calibrator, CalibError>)
    ensures r.Ok? <==> Valid(obs)
    ensures r.Err? ==> r.error == Fault(obs)
    ensures r.Ok? ==> IsFit(obs, r.value)
  {
    if !Valid(obs) {
      return Err(Fault(obs));
    }
    var byConfidence := Pool(obs);
    var points := SortPoints(byConfidence);
    PooledArePoints(obs, byConfidence, points);
    var blocks, bounds := PoolAdjacentViolators(points);
    var upper, value := [], [];
    for i := 0 to |blocks|
      invariant |upper| == |value| == i
      invariant forall t :: 0 <= t < i ==> upper[t] == blocks[t].x && value[t] == Mean(blocks[t])
    {
      upper := upper + [blocks[i].x];
      value := value + [blocks[i].sum / blocks[i].weight];
    }
    var c := Calibrator(upper, value);
    StackIsStepFunction(points, bounds, blocks, c);
    return Ok(c);
  }

  lemma PooledArePoints(obs: seq<Observation>, m: map<real, Point>, pts: seq<Point>)
    requires m.Keys == Confidences(obs)
    requires forall x :: x in m ==> m[x] == PointAt(obs, x)
    requires Increasing(pts)
    requires forall x :: x in m ==> m[x] in pts
    requires forall p :: p in pts ==> p.x in m && m[p.x] == p
    ensures ArePoints(obs, pts) && Positive(pts)
  {
    forall o | o in obs
      ensures exists i :: 0 <= i < |pts| && pts[i].x == o.confidence
    {
      assert o.confidence in m;
      var i :| 0 <= i < |pts| && pts[i] == m[o.confidence];
    }
    forall i | 0 <= i < |pts|
      ensures pts[i] == PointAt(obs, pts[i].x) && pts[i].weight > 0.0
    {
      assert pts[i] in pts;
      var o :| o in obs && o.confidence == pts[i].x;
      SeenIsCounted(obs, o);
    }
  }

  lemma StackIsStepFunction(pts: seq<Point>, bounds: seq<nat>, blocks: seq<Point>, c: Calibrator)
    requires IsStack(pts, |pts|, bounds, blocks) && Uphill(blocks, |blocks|)
    requires |c.upper| == |c.value| == |blocks|
    requires forall t :: 0 <= t < |blocks| ==> c.upper[t] == blocks[t].x && c.value[t] == Mean(blocks[t])
    ensures IsStepFunction(pts, bounds, c)
  {
    forall t, u | 0 <= t <= u < |c.value|
      ensures c.value[t] <= c.value[u]
    {
      UphillMeans(blocks, t, u);
    }
    forall t | 0 <= t < |c.value|
      ensures IsBlock(pts, bounds[t], bounds[t + 1], c.value[t]) && c.upper[t] == pts[bounds[t + 1] - 1].x
    {
      assert Pools(pts, bounds[t], bounds[t + 1], blocks[t]);
    }
  }
}
