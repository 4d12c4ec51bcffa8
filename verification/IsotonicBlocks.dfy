/**
 Where the blocks of a fit end (internal/calib/calib.go): the loop merges only pairs that run strictly
 downhill, so a block need not be a maximal run of its value.
 */
module IsotonicBlocks {
  import opened Observations
  import opened Isotonic
  import opened IsotonicOptimal

  /** Points i..j are all corrected to `v`, and neither neighbour is. */
  ghost predicate LevelRun(pts: seq<Point>, c: Calibrator, i: nat, j: nat, v: real) {
    && i < j <= |pts|
    && (forall x :: i <= x < j ==> Apply(c, pts[x].x) == v)
    && (i > 0 ==> Apply(c, pts[i - 1].x) != v)
    && (j < |pts| ==> Apply(c, pts[j].x) != v)
  }

  /** Some block ends, and the next begins, between points k - 1 and k. */
  ghost predicate CutBefore(bounds: seq<nat>, k: nat) {
    exists t: nat :: t < |bounds| && bounds[t] == k
  }

  lemma BlockAround(pts: seq<Point>, bounds: seq<nat>, c: Calibrator, i: nat) returns (t: nat)
    requires Increasing(pts) && IsStepFunction(pts, bounds, c) && i < |pts|
    ensures t < |c.value| && bounds[t] <= i < bounds[t + 1] <= |pts|
    ensures Apply(c, pts[i].x) == c.value[t]
    ensures IsBlock(pts, bounds[t], bounds[t + 1], c.value[t])
  {
    hide IsBlock, Dev;
    t := BlockOf(pts, bounds, c, i, |c.value|);
    TheBlock(pts, bounds, c, t);
    ApplyInBlock(pts, bounds, c, t, i);
  }

  /** A level run starts where a block does. */
  lemma LevelStartsAtCut(pts: seq<Point>, bounds: seq<nat>, c: Calibrator, i: nat, j: nat, v: real)
    requires Increasing(pts) && IsStepFunction(pts, bounds, c) && LevelRun(pts, c, i, j, v)
    ensures CutBefore(bounds, i)
  {
    hide IsBlock, Dev;
    var t := BlockAround(pts, bounds, c, i);
    if bounds[t] < i {
      ApplyInBlock(pts, bounds, c, t, i - 1);
    }
  }

  /** From the start of a level run to any later cut inside it the hits are exactly as expected. */
  lemma {:induction false} NoDevBetweenCuts(
      pts: seq<Point>, bounds: seq<nat>, c: Calibrator, s: nat, t: nat, v: real)
    requires IsStepFunction(pts, bounds, c) && s <= t < |bounds|
    requires forall u :: s <= u < t ==> c.value[u] == v
    ensures bounds[s] <= bounds[t] <= |pts| && Dev(pts, bounds[s], bounds[t], v) == 0.0
    decreases t
  {
    hide IsBlock, Dev;
    if s == t {
      BoundsIncrease(pts, bounds, c, s, |c.value|);
      EmptyDev(pts, bounds[s], v);
    } else {
      NoDevBetweenCuts(pts, bounds, c, s, t - 1, v);
      TheBlock(pts, bounds, c, t - 1);
      DevAdds(pts, bounds[s], bounds[t - 1], bounds[t], v);
    }
  }

  lemma EmptyDev(pts: seq<Point>, a: nat, v: real)
    requires a <= |pts|
    ensures Dev(pts, a, a, v) == 0.0
  {
  }

  /** The blocks between two points of a level run all have its value. */
  lemma BlocksOfLevel(pts: seq<Point>, bounds: seq<nat>, c: Calibrator, i: nat, j: nat, v: real, s: nat, u: nat)
    requires Increasing(pts) && IsStepFunction(pts, bounds, c) && LevelRun(pts, c, i, j, v)
    requires s <= u < |c.value| && i <= bounds[s] && bounds[u] < j
    ensures c.value[u] == v
  {
    hide IsBlock, Dev;
    BoundsIncrease(pts, bounds, c, s, u);
    TheBlock(pts, bounds, c, u);
    ApplyInBlock(pts, bounds, c, u, bounds[u]);
  }

  /**
   Where neighbours of equal value stay apart: inside a level run the loop leaves a cut at exactly
   those points up to which, from the start of the run, the hits equal the fitted value times the
   weight.
   */
  lemma EqualNeighboursExactly(
      obs: seq<Observation>, pts: seq<Point>, bounds: seq<nat>, c: Calibrator, i: nat, k: nat, j: nat, v: real)
    requires ArePoints(obs, pts) && IsStepFunction(pts, bounds, c)
    requires LevelRun(pts, c, i, j, v) && i < k < j
    ensures CutBefore(bounds, k) <==> Dev(pts, i, k, v) == 0.0
  {
    hide IsBlock, Dev, ArePoints, LevelRun;
    AreIncreasing(obs, pts);
    RunBounds(pts, c, i, j, v);
    LevelStartsAtCut(pts, bounds, c, i, j, v);
    var s: nat :| s < |bounds| && bounds[s] == i;
    var t := BlockAround(pts, bounds, c, k);
    if t < s {
      BoundsIncrease(pts, bounds, c, t + 1, s);
    }
    forall u | s <= u <= t
      ensures c.value[u] == v
    {
      BoundsIncrease(pts, bounds, c, u, t);
      BlocksOfLevel(pts, bounds, c, i, j, v, s, u);
    }
    NoDevBetweenCuts(pts, bounds, c, s, t, v);
    DevAdds(pts, i, bounds[t], k, v);
    if bounds[t] == k {
      EmptyDev(pts, k, v);
    } else {
      InsideBlock(pts, bounds[t], k, bounds[t + 1], v);
      NoCutInside(pts, bounds, c, t, k);
    }
  }

  lemma AreIncreasing(obs: seq<Observation>, pts: seq<Point>)
    requires ArePoints(obs, pts)
    ensures Increasing(pts)
  {
  }

  lemma RunBounds(pts: seq<Point>, c: Calibrator, i: nat, j: nat, v: real)
    requires LevelRun(pts, c, i, j, v)
    ensures i < j <= |pts|
  {
  }

  lemma InsideBlock(pts: seq<Point>, a: nat, k: nat, b: nat, v: real)
    requires IsBlock(pts, a, b, v) && a < k < b
    ensures b <= |pts| && Dev(pts, a, k, v) > 0.0
  {
  }

  lemma NoCutInside(pts: seq<Point>, bounds: seq<nat>, c: Calibrator, t: nat, k: nat)
    requires IsStepFunction(pts, bounds, c) && t < |c.value| && bounds[t] < k < bounds[t + 1]
    ensures !CutBefore(bounds, k)
  {
    hide IsBlock, Dev;
    if CutBefore(bounds, k) {
      var u: nat :| u < |bounds| && bounds[u] == k;
      if u <= t {
        BoundsIncrease(pts, bounds, c, u, t);
      } else {
        BoundsIncrease(pts, bounds, c, t + 1, u);
      }
    }
  }

  // --------------------------------------------------------------------------
  // Maximal runs
  // --------------------------------------------------------------------------

  /** The documented reading: no two neighbouring blocks have one value. */
  ghost predicate RunsAreMaximal(c: Calibrator) {
    forall t :: 0 < t < |c.value| ==> c.value[t - 1] != c.value[t]
  }

  /**
   With hits counted against a constant frequency `v`, the running excess is nowhere lower than after
   the first `k` points.
   */
  ghost predicate AtFloor(pts: seq<Point>, v: real, k: nat) {
    && k <= |pts|
    && (forall j :: 0 <= j <= k ==> Dev(pts, j, k, v) <= 0.0)
    && forall j :: k <= j <= |pts| ==> Dev(pts, k, j, v) >= 0.0
  }

  /** Against some frequency the running excess is lowest in three places. */
  ghost predicate ThreeFloors(pts: seq<Point>) {
    exists v: real, a: nat, b: nat, d: nat :: a < b < d && AtFloor(pts, v, a) && AtFloor(pts, v, b) && AtFloor(pts, v, d)
  }

  /** From the bound before block `t` nothing falls below its value, nor below any value under it. */
  lemma AboveFrom(pts: seq<Point>, bounds: seq<nat>, c: Calibrator, t: nat, v: real, k: nat)
    requires Positive(pts) && Increasing(pts) && IsStepFunction(pts, bounds, c)
    requires t <= |c.value| && (t < |c.value| ==> v <= c.value[t]) && bounds[t] <= k <= |pts|
    ensures Dev(pts, bounds[t], k, v) >= 0.0
  {
    hide IsBlock, Dev;
    if bounds[t] < k {
      BoundsIncrease(pts, bounds, c, t, |c.value|);
      var u := BlockOf(pts, bounds, c, k - 1, |c.value|);
      if u < t {
        BoundsIncrease(pts, bounds, c, u + 1, t);
      }
      DevFromBlockStart(pts, bounds, c, t, u, k);
      DevAntitone(pts, bounds[t], k, v, c.value[t]);
    } else {
      EmptyDev(pts, k, v);
    }
  }

  /** Up to the bound before block `t` nothing rises above the value before it, nor above any over it. */
  lemma BelowUpTo(pts: seq<Point>, bounds: seq<nat>, c: Calibrator, t: nat, v: real, j: nat)
    requires Positive(pts) && Increasing(pts) && IsStepFunction(pts, bounds, c)
    requires t <= |c.value| && (t > 0 ==> c.value[t - 1] <= v) && j <= bounds[t]
    ensures bounds[t] <= |pts| && Dev(pts, j, bounds[t], v) <= 0.0
  {
    hide IsBlock, Dev;
    BoundsIncrease(pts, bounds, c, t, |c.value|);
    if j < bounds[t] {
      var s := BlockOf(pts, bounds, c, j, t);
      DevToBlockEnd(pts, bounds, c, s, t - 1, j);
      DevAntitone(pts, j, bounds[t], c.value[t - 1], v);
    } else {
      EmptyDev(pts, j, v);
    }
  }

  /** Every bound is at the floor for each value between those of the blocks on its two sides. */
  lemma BoundIsFloor(pts: seq<Point>, bounds: seq<nat>, c: Calibrator, t: nat, v: real)
    requires Positive(pts) && Increasing(pts) && IsStepFunction(pts, bounds, c)
    requires t <= |c.value| && (t > 0 ==> c.value[t - 1] <= v) && (t < |c.value| ==> v <= c.value[t])
    ensures AtFloor(pts, v, bounds[t])
  {
    hide IsBlock, Dev, IsStepFunction;
    LastBound(pts, bounds, c, t);
    var k := bounds[t];
    forall j | 0 <= j <= k
      ensures Dev(pts, j, k, v) <= 0.0
    {
      BelowUpTo(pts, bounds, c, t, v, j);
    }
    forall j | k <= j <= |pts|
      ensures Dev(pts, k, j, v) >= 0.0
    {
      AboveFrom(pts, bounds, c, t, v, j);
    }
  }

  lemma LastBound(pts: seq<Point>, bounds: seq<nat>, c: Calibrator, t: nat)
    requires IsStepFunction(pts, bounds, c) && t <= |c.value|
    ensures t < |bounds| && bounds[t] <= |pts|
  {
    hide IsBlock, Dev;
    BoundsIncrease(pts, bounds, c, t, |c.value|);
  }

  /** Between two floors for `v` the max-min of the averages is `v`. */
  lemma FlatBetweenFloors(pts: seq<Point>, v: real, a: nat, d: nat, i: nat)
    requires Positive(pts) && AtFloor(pts, v, a) && AtFloor(pts, v, d) && a <= i < d
    ensures IsMaxMin(pts, i, v)
  {
    hide Dev, Average;
    forall k | i < k <= |pts|
      ensures Average(pts, a, k) >= v
    {
      AverageVersusDev(pts, a, k, v);
    }
    assert AllAtLeast(pts, i, a, v);
    forall j: nat {:trigger SomeAtMost(pts, i, j, v)} | j <= i
      ensures SomeAtMost(pts, i, j, v)
    {
      AverageVersusDev(pts, j, d, v);
    }
  }

  lemma CutSeparates(pts: seq<Point>, bounds: seq<nat>, c: Calibrator, t: nat, k: nat)
    requires Increasing(pts) && IsStepFunction(pts, bounds, c)
    requires t < |bounds| && bounds[t] == k && 0 < k < |pts|
    ensures 0 < t < |c.value| && Apply(c, pts[k - 1].x) == c.value[t - 1] && Apply(c, pts[k].x) == c.value[t]
  {
    hide IsBlock, Dev;
    TheBlock(pts, bounds, c, t - 1);
    TheBlock(pts, bounds, c, t);
    ApplyInBlock(pts, bounds, c, t - 1, k - 1);
    ApplyInBlock(pts, bounds, c, t, k);
  }

  /** A floor between two others is a cut, and the blocks on its two sides have one value. */
  lemma FloorRepeatsValue(
      obs: seq<Observation>, pts: seq<Point>, bounds: seq<nat>, c: Calibrator, v: real, a: nat, b: nat, d: nat)
    requires ArePoints(obs, pts) && Positive(pts) && IsStepFunction(pts, bounds, c) && a < b < d
    requires AtFloor(pts, v, a) && AtFloor(pts, v, b) && AtFloor(pts, v, d)
    ensures !RunsAreMaximal(c)
  {
    hide IsBlock, Dev, Apply, ArePoints, IsMaxMin;
    AreIncreasing(obs, pts);
    forall i | a <= i < d
      ensures Apply(c, pts[i].x) == v
    {
      FlatBetweenFloors(pts, v, a, d, i);
      FitIsMaxMin(obs, pts, bounds, c, i);
      MaxMinUnique(pts, i, v, Apply(c, pts[i].x));
    }
    var t := BlockAround(pts, bounds, c, b);
    if bounds[t] < b {
      InsideBlock(pts, bounds[t], b, bounds[t + 1], v);
    } else {
      CutSeparates(pts, bounds, c, t, b);
    }
  }

  /**
   When the documentation is right, as a condition on the corpus alone: the blocks are maximal runs of
   one value exactly when against no frequency the running excess is lowest in three places.
   */
  lemma RunsAreMaximalExactly(obs: seq<Observation>, pts: seq<Point>, c: Calibrator)
    requires ArePoints(obs, pts) && IsFit(obs, c)
    ensures RunsAreMaximal(c) <==> !ThreeFloors(pts)
  {
    hide IsBlock, Dev, ArePoints, AtFloor, IsStepFunction;
    var own: seq<Point>, bounds: seq<nat> :| ArePoints(obs, own) && IsStepFunction(own, bounds, c);
    PointsUnique(obs, own, pts, |own|);
    AreIncreasing(obs, pts);
    ArePositive(obs, pts);
    if ThreeFloors(pts) {
      var v: real, a: nat, b: nat, d: nat :|
        a < b < d && AtFloor(pts, v, a) && AtFloor(pts, v, b) && AtFloor(pts, v, d);
      FloorRepeatsValue(obs, pts, bounds, c, v, a, b, d);
    } else if !RunsAreMaximal(c) {
      var t :| 0 < t < |c.value| && c.value[t - 1] == c.value[t];
      RepeatedValueFloors(pts, bounds, c, t);
    }
  }

  lemma ArePositive(obs: seq<Observation>, pts: seq<Point>)
    requires ArePoints(obs, pts)
    ensures Positive(pts)
  {
  }

  lemma RepeatedValueFloors(pts: seq<Point>, bounds: seq<nat>, c: Calibrator, t: nat)
    requires Positive(pts) && Increasing(pts) && IsStepFunction(pts, bounds, c)
    requires 0 < t < |c.value| && c.value[t - 1] == c.value[t]
    ensures ThreeFloors(pts)
  {
    hide IsBlock, Dev, AtFloor;
    var v := c.value[t];
    BoundIsFloor(pts, bounds, c, t - 1, v);
    BoundIsFloor(pts, bounds, c, t, v);
    BoundIsFloor(pts, bounds, c, t + 1, v);
    BoundsIncrease(pts, bounds, c, t - 1, t);
    BoundsIncrease(pts, bounds, c, t, t + 1);
    assert AtFloor(pts, v, bounds[t - 1]) && AtFloor(pts, v, bounds[t]) && AtFloor(pts, v, bounds[t + 1]);
  }

  /** One hit and one miss at each of two confidences: one value, and yet two blocks. */
  const TOUCHING: seq<Observation> := [
    Observation(0.25, true), Observation(0.25, false), Observation(0.75, true), Observation(0.75, false)]

  const TWO_BLOCKS: Calibrator := Calibrator([0.25, 0.75], [0.5, 0.5])

  lemma TouchingPoints(x: real)
    ensures PointAt(TOUCHING, x) == Point(x, if x == 0.25 || x == 0.75 then 1.0 else 0.0,
                                             if x == 0.25 || x == 0.75 then 2.0 else 0.0)
  {
    var o := TOUCHING;
    assert o[..3][..2] == o[..2] && o[..2][..1] == o[..1] && o[..1][..0] == [];
    CountsGrow(o[..0], o[0], x);
    assert o[..0] + [o[0]] == o[..1];
    CountsGrow(o[..1], o[1], x);
    assert o[..1] + [o[1]] == o[..2];
    CountsGrow(o[..2], o[2], x);
    assert o[..2] + [o[2]] == o[..3];
    CountsGrow(o[..3], o[3], x);
    assert o[..3] + [o[3]] == o;
  }

  lemma TwoBlocks(pts: seq<Point>)
    requires pts == [Point(0.25, 1.0, 2.0), Point(0.75, 1.0, 2.0)]
    ensures IsStepFunction(pts, [0, 1, 2], TWO_BLOCKS)
  {
    hide IsBlock;
    SinglePointBlock(pts, 0);
    SinglePointBlock(pts, 1);
    assert Mean(pts[0]) == 0.5 && Mean(pts[1]) == 0.5;
  }

  /** The documentation is not right in general: on this corpus the only fit repeats a value. */
  lemma RepeatedValueSurvives(c: Calibrator)
    ensures IsFit(TOUCHING, c) <==> c == TWO_BLOCKS
    ensures !RunsAreMaximal(TWO_BLOCKS)
  {
    hide IsBlock, IsStepFunction;
    var pts := [Point(0.25, 1.0, 2.0), Point(0.75, 1.0, 2.0)];
    TouchingPoints(0.25);
    TouchingPoints(0.75);
    TouchingArePoints(pts);
    TwoBlocks(pts);
    assert IsFit(TOUCHING, TWO_BLOCKS);
    if IsFit(TOUCHING, c) {
      FitIsDetermined(TOUCHING, c, TWO_BLOCKS);
    }
    assert TWO_BLOCKS.value[0] == TWO_BLOCKS.value[1];
  }

  lemma TouchingArePoints(pts: seq<Point>)
    requires pts == [Point(0.25, 1.0, 2.0), Point(0.75, 1.0, 2.0)]
    ensures ArePoints(TOUCHING, pts)
  {
    hide PointAt;
    TouchingPoints(0.25);
    TouchingPoints(0.75);
    assert pts[0].x == 0.25 && pts[1].x == 0.75;
  }
}
