/** Fitting a calibrator and measuring honestly what it is worth (`folds`, `FitAndMeasure`). */
module CrossFit {
  import opened Collections
  import opened Observations
  import opened Isotonic
  import opened IsotonicOptimal
  import opened Reliability
  import opened ReliabilityLaws
  import opened ReliabilityOrder
  import opened InSample

  const DEFAULT_BINS: int := 10
  const DEFAULT_FOLDS: int := 5
  const MAX_BINS: int := 200
  const MAX_FOLDS: int := 32

  // --------------------------------------------------------------------------
  // Fold assignment
  // --------------------------------------------------------------------------

  /** A shuffled order of the indices below |order|. */
  ghost predicate IsOrder(order: seq<nat>) {
    && (forall p :: 0 <= p < |order| ==> order[p] < |order|)
    && (forall p, q :: 0 <= p < q < |order| ==> order[p] != order[q])
  }

  /** Position p of the order goes to fold p mod k. */
  ghost predicate Dealt(order: seq<nat>, k: nat, assign: seq<nat>) {
    && k > 0 && |assign| == |order|
    && forall p :: 0 <= p < |order| ==> order[p] < |assign| && assign[order[p]] == p % k
  }

  ghost predicate IsAssignment(n: nat, k: nat, assign: seq<nat>) {
    exists order :: |order| == n && IsOrder(order) && Dealt(order, k, assign)
  }

  lemma SwapKeepsOrder(s: seq<nat>, i: nat, j: nat)
    requires IsOrder(s) && i < |s| && j < |s|
    ensures IsOrder(s[i := s[j]][j := s[i]])
  {
  }

  /** The library shuffle, in place: `picks[i]` stands for the index drawn at step i. */
  method Shuffle(order: array<nat>, picks: seq<nat>)
    requires IsOrder(order[..]) && |picks| == order.Length
    requires forall i :: 0 <= i < |picks| ==> picks[i] <= i
    modifies order
    ensures IsOrder(order[..])
  {
    var i := order.Length - 1;
    while i > 0
      invariant -1 <= i < order.Length
      invariant IsOrder(order[..])
    {
      var j := picks[i];
      ghost var before := order[..];
      SwapKeepsOrder(before, i, j);
      order[i], order[j] := order[j], order[i];
      assert order[..] == before[i := before[j]][j := before[i]];
      i := i - 1;
    }
  }

  /** `folds`. */
  method Folds(n: nat, k: nat, picks: seq<nat>) returns (assign: seq<nat>)
    requires k > 0 && |picks| == n && forall i :: 0 <= i < n ==> picks[i] <= i
    ensures |assign| == n && IsAssignment(n, k, assign)
  {
    var order := new nat[n](i => i);
    Shuffle(order, picks);
    var out := new nat[n](_ => 0);
    for pos := 0 to n
      invariant IsOrder(order[..])
      invariant forall p :: 0 <= p < pos ==> order[p] < n && out[order[p]] == p % k
    {
      out[order[pos]] := pos % k;
    }
    assign := out[..];
    assert Dealt(order[..], k, assign);
  }

  // --------------------------------------------------------------------------
  // Fold sizes
  // --------------------------------------------------------------------------

  function FoldSize(assign: seq<nat>, f: nat): nat {
    if assign == [] then 0
    else FoldSize(assign[..|assign| - 1], f) + if assign[|assign| - 1] == f then 1 else 0
  }

  /** The indices dealt to fold `f` among the first `pos` positions of the order. */
  ghost function DealtTo(order: seq<nat>, k: nat, f: nat, pos: nat): set<nat>
    requires k > 0 && pos <= |order|
  {
    if pos == 0 then {}
    else DealtTo(order, k, f, pos - 1) + if (pos - 1) % k == f then {order[pos - 1]} else {}
  }

  /** How many of the first `pos` positions fall to fold `f`. */
  function Turns(k: nat, f: nat, pos: nat): nat
    requires k > 0
  {
    if pos == 0 then 0 else Turns(k, f, pos - 1) + if (pos - 1) % k == f then 1 else 0
  }

  lemma {:induction false} DealtToCounts(order: seq<nat>, k: nat, f: nat, pos: nat)
    requires k > 0 && pos <= |order| && IsOrder(order)
    ensures |DealtTo(order, k, f, pos)| == Turns(k, f, pos)
    ensures forall i :: i in DealtTo(order, k, f, pos) <==> exists p :: 0 <= p < pos && p % k == f && order[p] == i
    decreases pos
  {
    if pos == 0 {
    } else {
      DealtToCounts(order, k, f, pos - 1);
    }
  }

  ghost function Members(assign: seq<nat>, f: nat): set<nat> {
    set i: nat | i < |assign| && assign[i] == f
  }

  lemma {:induction false} FoldSizeIsCard(assign: seq<nat>, f: nat)
    ensures FoldSize(assign, f) == |Members(assign, f)|
    decreases |assign|
  {
    if assign == [] {
      assert Members(assign, f) == {};
    } else {
      var n := |assign| - 1;
      FoldSizeIsCard(assign[..n], f);
      assert Members(assign, f) == Members(assign[..n], f) + if assign[n] == f then {n} else {};
    }
  }

  ghost function Below(n: nat): (r: set<nat>)
    ensures |r| == n
    ensures forall i: nat :: i in r <==> i < n
  {
    if n == 0 then {} else Below(n - 1) + {n - 1}
  }

  ghost function Image(order: seq<nat>, n: nat): (r: set<nat>)
    requires IsOrder(order) && n <= |order|
    ensures |r| == n
    ensures forall i: nat :: i in r <==> exists p :: 0 <= p < n && order[p] == i
  {
    if n == 0 then {} else Image(order, n - 1) + {order[n - 1]}
  }

  /** A shuffled order visits every index. */
  lemma OrderCovers(order: seq<nat>, i: nat)
    requires IsOrder(order) && i < |order|
    ensures exists p :: 0 <= p < |order| && order[p] == i
  {
    var n := |order|;
    assert Image(order, n) <= Below(n);
    SubsetSize(Image(order, n), Below(n));
    assert i in Below(n);
  }

  lemma {:induction false} TurnsExact(k: nat, f: nat, pos: nat)
    requires f < k
    ensures Turns(k, f, pos) == pos / k + if f < pos % k then 1 else 0
  {
    if pos == 0 {
    } else {
      TurnsExact(k, f, pos - 1);
      NextTurn(k, pos - 1);
    }
  }

  lemma NextTurn(k: nat, p: nat)
    requires k > 0
    ensures p % k + 1 < k ==> (p + 1) / k == p / k && (p + 1) % k == p % k + 1
    ensures p % k + 1 == k ==> (p + 1) / k == p / k + 1 && (p + 1) % k == 0
  {
    var q, r := p / k, p % k;
    assert p == q * k + r;
    if r + 1 < k {
      DivModUnique(p + 1, k, q, r + 1);
    } else {
      assert q * k + k == (q + 1) * k;
      DivModUnique(p + 1, k, q + 1, 0);
    }
  }

  lemma ProductMonotone(a: nat, b: nat, k: nat)
    requires a <= b
    ensures a * k <= b * k
  {
  }

  lemma DivModUnique(p: nat, k: nat, q: nat, r: nat)
    requires r < k && p == q * k + r
    ensures p / k == q && p % k == r
  {
    var q', r' := p / k, p % k;
    assert p == q' * k + r' && r' < k;
    assert (q + 1) * k == q * k + k && (q' + 1) * k == q' * k + k;
    if q < q' {
      ProductMonotone(q + 1, q', k);
    } else if q' < q {
      ProductMonotone(q' + 1, q, k);
    }
  }

  /** The folds partition the corpus into parts whose sizes differ by at most one. */
  lemma FoldsAreBalanced(n: nat, k: nat, assign: seq<nat>, f: nat)
    requires IsAssignment(n, k, assign) && f < k
    ensures |assign| == n && forall i :: 0 <= i < n ==> assign[i] < k
    ensures FoldSize(assign, f) == n / k + if f < n % k then 1 else 0
  {
    var order :| |order| == n && IsOrder(order) && Dealt(order, k, assign);
    hide IsOrder, Turns, DealtTo, FoldSize;
    DealtToCounts(order, k, f, n);
    TurnsExact(k, f, n);
    FoldSizeIsCard(assign, f);
    forall i | 0 <= i < n
      ensures assign[i] < k
      ensures i in DealtTo(order, k, f, n) <==> assign[i] == f
    {
      OrderCovers(order, i);
      var p :| 0 <= p < n && order[p] == i;
      RemainderBelow(p, k);
    }
    DealtAreIndices(order, k, f, n);
    assert Members(assign, f) == DealtTo(order, k, f, n);
  }

  lemma RemainderBelow(p: nat, k: nat)
    requires k > 0
    ensures p % k < k
  {
  }

  lemma {:induction false} DealtAreIndices(order: seq<nat>, k: nat, f: nat, pos: nat)
    requires k > 0 && pos <= |order| && IsOrder(order)
    ensures forall i :: i in DealtTo(order, k, f, pos) ==> i < |order|
    decreases pos
  {
    if pos == 0 {
    } else {
      DealtAreIndices(order, k, f, pos - 1);
    }
  }

  // --------------------------------------------------------------------------
  // Cross-fitting
  // --------------------------------------------------------------------------

  /** The observations outside fold `f`, in order. */
  function Train(obs: seq<Observation>, assign: seq<nat>, f: nat): seq<Observation>
    requires |obs| == |assign|
  {
    if obs == [] then []
    else
      var n := |obs| - 1;
      Train(obs[..n], assign[..n], f) + if assign[n] != f then [obs[n]] else []
  }

  lemma {:induction false} TrainSize(obs: seq<Observation>, assign: seq<nat>, f: nat)
    requires |obs| == |assign|
    ensures |Train(obs, assign, f)| == |obs| - FoldSize(assign, f)
    ensures forall o :: o in Train(obs, assign, f) ==> o in obs
    decreases |obs|
  {
    if obs == [] {
    } else {
      var n := |obs| - 1;
      TrainSize(obs[..n], assign[..n], f);
      assert forall o :: o in obs[..n] ==> o in obs;
    }
  }

  /** Observation `i` corrected by a calibrator fitted on everything outside its own fold. */
  ghost predicate HonestlyCorrected(obs: seq<Observation>, assign: seq<nat>, out: Observation, i: nat)
    requires i < |obs| == |assign|
  {
    exists c :: IsFit(Train(obs, assign, assign[i]), c)
             && out == Observation(Apply(c, obs[i].confidence), obs[i].correct)
  }

  ghost predicate IsCrossFit(obs: seq<Observation>, assign: seq<nat>, corrected: seq<Observation>) {
    && |obs| == |assign| == |corrected|
    && forall i {:trigger corrected[i]} :: 0 <= i < |obs| ==> HonestlyCorrected(obs, assign, corrected[i], i)
  }

  /** Two corpora that agree everywhere outside fold `f`. */
  ghost predicate AgreeOutside(a: seq<Observation>, b: seq<Observation>, assign: seq<nat>, f: nat) {
    && |a| == |b| == |assign|
    && forall i :: 0 <= i < |a| && assign[i] != f ==> a[i] == b[i]
  }

  lemma {:induction false} SameTraining(a: seq<Observation>, b: seq<Observation>, assign: seq<nat>, f: nat)
    requires AgreeOutside(a, b, assign, f)
    ensures Train(a, assign, f) == Train(b, assign, f)
    decreases |a|
  {
    if a == [] {
    } else {
      var n := |a| - 1;
      SameTraining(a[..n], b[..n], assign[..n], f);
    }
  }

  /**
   Honesty, as a relation between two runs: whatever happens to the outcomes inside observation
   i's own fold, its own included, its corrected confidence does not move.
   */
  lemma OwnOutcomeCannotMatter(
      a: seq<Observation>, b: seq<Observation>, assign: seq<nat>,
      ca: seq<Observation>, cb: seq<Observation>, i: nat)
    requires IsCrossFit(a, assign, ca) && IsCrossFit(b, assign, cb) && i < |a|
    requires AgreeOutside(a, b, assign, assign[i]) && a[i].confidence == b[i].confidence
    ensures ca[i].confidence == cb[i].confidence
    ensures ca[i].correct == a[i].correct
  {
    hide IsFit, Apply;
    SameTraining(a, b, assign, assign[i]);
    var x, train := a[i].confidence, Train(a, assign, assign[i]);
    assert HonestlyCorrected(a, assign, ca[i], i) && HonestlyCorrected(b, assign, cb[i], i);
    var c :| IsFit(train, c) && ca[i] == Observation(Apply(c, x), a[i].correct);
    var c' :| IsFit(train, c') && cb[i] == Observation(Apply(c', x), b[i].correct);
    FitIsDetermined(train, c, c');
  }

  lemma TrainIsValid(obs: seq<Observation>, k: nat, assign: seq<nat>, f: nat)
    requires Valid(obs) && k >= 2 && |obs| >= 2 * k && f < k && IsAssignment(|obs|, k, assign)
    ensures |obs| == |assign| && Valid(Train(obs, assign, f))
  {
    hide IsAssignment;
    FoldsAreBalanced(|obs|, k, assign, f);
    TrainSize(obs, assign, f);
    AtMostHalf(|obs|, k);
  }

  lemma AtMostHalf(n: nat, k: nat)
    requires k >= 2 && n >= 2 * k
    ensures n / k + 1 < n
  {
    var q := n / k;
    assert n >= q * k;
    ProductMonotone(2, k, q);
    assert 2 * q <= n;
  }

  // --------------------------------------------------------------------------
  // FitAndMeasure
  // --------------------------------------------------------------------------

  datatype Repair = Repair(
    before: Report, after: Report, inSample: Report, improvement: real, reduction: real,
    noiseFloor: real, significant: bool, folds: nat, calibrator: Calibrator)

  /** Zero asks for the default. */
  function Normalised(asked: int, default: int): int { if asked == 0 then default else asked }

  predicate GoodOptions(bins: int, folds: int) { 2 <= bins <= MAX_BINS && 2 <= folds <= MAX_FOLDS }

  /** The corrections of one fold, written into their places. */
  method CorrectFold(obs: seq<Observation>, assign: seq<nat>, f: nat, c: Calibrator, out: array<Observation>)
    requires |obs| == |assign| == out.Length
    modifies out
    ensures forall i :: 0 <= i < |obs| ==>
              out[i] == if assign[i] == f then Observation(Apply(c, obs[i].confidence), obs[i].correct) else old(out[i])
  {
    hide Apply;
    for i := 0 to |obs|
      invariant forall j :: i <= j < |obs| ==> out[j] == old(out[j])
      invariant forall j :: 0 <= j < i ==>
                  out[j] == if assign[j] == f then Observation(Apply(c, obs[j].confidence), obs[j].correct) else old(out[j])
    {
      if assign[i] == f {
        out[i] := Observation(Apply(c, obs[i].confidence), obs[i].correct);
      }
    }
  }

  method TrainingSet(obs: seq<Observation>, assign: seq<nat>, f: nat) returns (train: seq<Observation>)
    requires |obs| == |assign|
    ensures train == Train(obs, assign, f)
  {
    train := [];
    for i := 0 to |obs|
      invariant train == Train(obs[..i], assign[..i], f)
    {
      assert obs[..i + 1][..i] == obs[..i] && assign[..i + 1][..i] == assign[..i];
      if assign[i] != f {
        train := train + [obs[i]];
      }
    }
    assert obs[..|obs|] == obs && assign[..|obs|] == assign;
  }

  /** The fold loop: every observation is corrected exactly once, by a calibrator that never saw it. */
  method CrossFitted(obs: seq<Observation>, k: nat, assign: seq<nat>) returns (corrected: seq<Observation>)
    requires Valid(obs) && k >= 2 && |obs| >= 2 * k && IsAssignment(|obs|, k, assign)
    ensures IsCrossFit(obs, assign, corrected) && |corrected| == |obs|
  {
    hide IsFit, Apply, IsAssignment, Train, Valid;
    FoldsAreBalanced(|obs|, k, assign, 0);
    var out := new Observation[|obs|](i requires 0 <= i < |obs| => obs[i]);
    for f := 0 to k
      invariant forall i :: 0 <= i < |obs| && assign[i] < f ==> HonestlyCorrected(obs, assign, out[i], i)
    {
      TrainIsValid(obs, k, assign, f);
      var train := TrainingSet(obs, assign, f);
      var fit := Fit(train);
      ghost var before := out[..];
      CorrectFold(obs, assign, f, fit.value, out);
      forall i | 0 <= i < |obs| && assign[i] < f + 1
        ensures HonestlyCorrected(obs, assign, out[i], i)
      {
        if assign[i] < f {
          assert out[i] == before[i];
        }
      }
    }
    corrected := out[..];
  }

  // --------------------------------------------------------------------------
  // NoiseFloor
  // --------------------------------------------------------------------------

  const DEFAULT_NOISE_FLOOR_ROUNDS: int := 200
  const MAX_NOISE_FLOOR_ROUNDS: int := 20_000

  /** The corpus with every outcome redrawn from its stated confidence. */
  function Redrawn(obs: seq<Observation>, variates: seq<real>): (out: seq<Observation>)
    requires |variates| == |obs|
    ensures |out| == |obs|
  {
    seq(|obs|, i requires 0 <= i < |obs| => Observation(obs[i].confidence, variates[i] < obs[i].confidence))
  }

  /** One round of variates per element, one variate per observation. */
  predicate Rounds(obs: seq<Observation>, draws: seq<seq<real>>) {
    forall r :: 0 <= r < |draws| ==> |draws[r]| == |obs|
  }

  ghost function TotalECE(obs: seq<Observation>, bins: nat, draws: seq<seq<real>>, r: nat): real
    requires bins > 0 && obs != [] && Rounds(obs, draws) && r <= |draws|
  {
    if r == 0 then 0.0
    else TotalECE(obs, bins, draws, r - 1) + ReportOf(Redrawn(obs, draws[r - 1]), bins).ece
  }

  /** The mean error of the redrawn corpora. */
  ghost function FloorOf(obs: seq<Observation>, bins: nat, draws: seq<seq<real>>): real
    requires bins > 0 && obs != [] && draws != [] && Rounds(obs, draws)
  {
    TotalECE(obs, bins, draws, |draws|) / |draws| as real
  }

  /** `NoiseFloor`; `draws[r][i]` stands for the variate drawn for observation i in round r. */
  method NoiseFloor(obs: seq<Observation>, askedBins: int, askedFolds: int, rounds: int, draws: seq<seq<real>>)
    returns (r: Result<real, CalibError>)
    requires Rounds(obs, draws)
    requires var n := Normalised(rounds, DEFAULT_NOISE_FLOOR_ROUNDS); n >= 1 ==> |draws| == n
    ensures
      var bins, n := Normalised(askedBins, DEFAULT_BINS), Normalised(rounds, DEFAULT_NOISE_FLOOR_ROUNDS);
      if !GoodOptions(bins, Normalised(askedFolds, DEFAULT_FOLDS)) then r == Err(InvalidOptions)
      else if !Valid(obs) then r == Err(Fault(obs))
      else if !(1 <= n <= MAX_NOISE_FLOOR_ROUNDS) then r == Err(InvalidOptions)
      else r == Ok(FloorOf(obs, bins, draws))
  {
    hide ReportOf, Redrawn;
    var bins, n := Normalised(askedBins, DEFAULT_BINS), Normalised(rounds, DEFAULT_NOISE_FLOOR_ROUNDS);
    if !GoodOptions(bins, Normalised(askedFolds, DEFAULT_FOLDS)) {
      return Err(InvalidOptions);
    }
    if !Valid(obs) {
      return Err(Fault(obs));
    }
    if n < 1 || n > MAX_NOISE_FLOOR_ROUNDS {
      return Err(InvalidOptions);
    }
    var redrawn := new Observation[|obs|](i requires 0 <= i < |obs| => obs[i]);
    var total := 0.0;
    for k := 0 to n
      invariant total == TotalECE(obs, bins, draws, k)
    {
      Redraw(obs, draws[k], redrawn);
      RedrawnInUnit(obs, draws[k]);
      var rep := Measured(redrawn[..], bins);
      total := total + rep.ece;
    }
    return Ok(total / n as real);
  }

  method Redraw(obs: seq<Observation>, variates: seq<real>, out: array<Observation>)
    requires |variates| == |obs| == out.Length
    modifies out
    ensures out[..] == Redrawn(obs, variates)
  {
    for i := 0 to |obs|
      invariant forall j :: 0 <= j < i ==> out[j] == Redrawn(obs, variates)[j]
    {
      out[i] := Observation(obs[i].confidence, variates[i] < obs[i].confidence);
    }
  }

  lemma RedrawnInUnit(obs: seq<Observation>, variates: seq<real>)
    requires |variates| == |obs| && InUnitAll(obs)
    ensures InUnitAll(Redrawn(obs, variates))
  {
    forall o | o in Redrawn(obs, variates)
      ensures InUnit(o)
    {
      var i :| 0 <= i < |obs| && Redrawn(obs, variates)[i] == o;
      assert obs[i] in obs;
    }
  }

  lemma {:induction false} TotalECEInRange(obs: seq<Observation>, bins: nat, draws: seq<seq<real>>, r: nat)
    requires bins > 0 && obs != [] && InUnitAll(obs) && Rounds(obs, draws) && r <= |draws|
    ensures 0.0 <= TotalECE(obs, bins, draws, r) <= r as real
  {
    hide ReportOf, Redrawn, InUnitAll;
    if r == 0 {
    } else {
      TotalECEInRange(obs, bins, draws, r - 1);
      RedrawnInUnit(obs, draws[r - 1]);
      ErrorOrder(Redrawn(obs, draws[r - 1]), bins);
    }
  }

  /** Whatever was drawn, the floor is an error a report could show. */
  lemma FloorInUnit(obs: seq<Observation>, bins: nat, draws: seq<seq<real>>)
    requires bins > 0 && obs != [] && draws != [] && InUnitAll(obs) && Rounds(obs, draws)
    ensures 0.0 <= FloorOf(obs, bins, draws) <= 1.0
  {
    hide TotalECE;
    TotalECEInRange(obs, bins, draws, |draws|);
    QuotientInUnit(TotalECE(obs, bins, draws, |draws|), |draws| as real);
  }

  /** Every prediction was stated with certainty. */
  ghost predicate Certain(obs: seq<Observation>) {
    forall o :: o in obs ==> o.confidence == 0.0 || o.confidence == 1.0
  }

  ghost predicate Variates(draws: seq<seq<real>>) {
    forall r, i :: 0 <= r < |draws| && 0 <= i < |draws[r]| ==> 0.0 <= draws[r][i] < 1.0
  }

  lemma {:induction false} CertainSums(obs: seq<Observation>, bins: nat, b: nat)
    requires bins > 0 && forall o :: o in obs ==> Hit(o) == o.confidence
    ensures SumIn(obs, bins, b, Stated()) == SumIn(obs, bins, b, Happened())
  {
    hide BinOf;
    if obs == [] {
    } else {
      assert obs[|obs| - 1] in obs;
      assert forall o :: o in obs[..|obs| - 1] ==> o in obs;
      CertainSums(obs[..|obs| - 1], bins, b);
    }
  }

  lemma CertainRound(obs: seq<Observation>, bins: nat, variates: seq<real>)
    requires bins > 0 && obs != [] && Certain(obs) && |variates| == |obs|
    requires forall i :: 0 <= i < |variates| ==> 0.0 <= variates[i] < 1.0
    ensures ReportOf(Redrawn(obs, variates), bins).ece == 0.0
  {
    hide ECE, MCE, ReliabilityOf, ResolutionOf, SumIn, CountIn, Sum, Width, ThinBins, Accuracy;
    var out := Redrawn(obs, variates);
    forall o | o in out
      ensures Hit(o) == o.confidence
    {
      var i :| 0 <= i < |obs| && out[i] == o;
      assert obs[i] in obs;
    }
    forall b: nat | b < bins
      ensures BinReport(out, bins, b).gap == 0.0
    {
      CertainSums(out, bins, b);
    }
    ZeroGaps(out, bins, bins);
  }

  /** The floor comes from doubt alone: a corpus stated with certainty has none, whatever was drawn. */
  lemma {:induction false} CertaintyHasNoFloor(obs: seq<Observation>, bins: nat, draws: seq<seq<real>>, r: nat)
    requires bins > 0 && obs != [] && Certain(obs) && Rounds(obs, draws) && Variates(draws) && r <= |draws|
    ensures TotalECE(obs, bins, draws, r) == 0.0
    ensures r == |draws| > 0 ==> FloorOf(obs, bins, draws) == 0.0
    decreases r
  {
    hide ReportOf, Redrawn, Certain;
    if r == 0 {
    } else {
      CertaintyHasNoFloor(obs, bins, draws, r - 1);
      CertainRound(obs, bins, draws[r - 1]);
    }
  }

  /**
   `FitAndMeasure`. The emptied-training-set and failed-fit errors of the fold loop have no
   counterpart here because no input reaches them.
   */
  method FitAndMeasure(obs: seq<Observation>, askedBins: int, askedFolds: int, picks: seq<nat>, draws: seq<seq<real>>)
    returns (r: Result<Repair, CalibError>, ghost assign: seq<nat>, ghost corrected: seq<Observation>)
    requires |picks| == |obs| && forall i :: 0 <= i < |picks| ==> picks[i] <= i
    requires Rounds(obs, draws) && |draws| == DEFAULT_NOISE_FLOOR_ROUNDS
    ensures
      var bins, folds := Normalised(askedBins, DEFAULT_BINS), Normalised(askedFolds, DEFAULT_FOLDS);
      && (r.Ok? <==> GoodOptions(bins, folds) && Valid(obs) && |obs| >= 2 * folds)
      && (r.Err? ==> r.error == if GoodOptions(bins, folds) && !Valid(obs) then Fault(obs) else InvalidOptions)
    ensures r.Ok? ==>
      var bins := Normalised(askedBins, DEFAULT_BINS);
      && r.value.folds == Normalised(askedFolds, DEFAULT_FOLDS)
      && IsFit(obs, r.value.calibrator)
      && r.value.before == ReportOf(obs, bins)
      && r.value.inSample == ReportOf(Recalibrated(obs, r.value.calibrator), bins)
      && r.value.reduction == r.value.before.ece - r.value.after.ece
      && (r.value.before.ece > 0.0 ==> r.value.improvement * r.value.before.ece == r.value.reduction)
      && (r.value.before.ece <= 0.0 ==> r.value.improvement == 0.0)
      && r.value.noiseFloor == FloorOf(obs, bins, draws)
      && (r.value.significant <==> r.value.before.ece > 2.0 * FloorOf(obs, bins, draws))
    ensures r.Ok? ==>
      && IsAssignment(|obs|, r.value.folds, assign) && IsCrossFit(obs, assign, corrected)
      && r.value.after == ReportOf(corrected, Normalised(askedBins, DEFAULT_BINS))
  {
    hide IsFit, IsCrossFit, IsAssignment, ReportOf, Recalibrated, FloorOf;
    assign, corrected := [], [];
    var bins, folds := Normalised(askedBins, DEFAULT_BINS), Normalised(askedFolds, DEFAULT_FOLDS);
    if !GoodOptions(bins, folds) {
      r := Err(InvalidOptions);
      return;
    }
    if !Valid(obs) {
      r := Err(Fault(obs));
      return;
    }
    if |obs| < folds * 2 {
      r := Err(InvalidOptions);
      return;
    }
    var before := Measured(obs, bins);
    var full := Fit(obs);
    RecalibratedInUnit(obs, full.value);
    var again := Recalibrated(obs, full.value);
    var inSample := Measured(again, bins);
    var dealt := Folds(|obs|, folds, picks);
    var out := CrossFitted(obs, folds, dealt);
    CrossFitInUnit(obs, dealt, out);
    var after := Measured(out, bins);
    assign, corrected := dealt, out;
    var reduction := before.ece - after.ece;
    var improvement := if before.ece > 0.0 then reduction / before.ece else 0.0;
    var floor := NoiseFloor(obs, bins, folds, 0, draws);
    r := Ok(Repair(
      before, after, inSample, improvement, reduction, floor.value, before.ece > 2.0 * floor.value, folds, full.value));
  }

  lemma CrossFitInUnit(obs: seq<Observation>, assign: seq<nat>, corrected: seq<Observation>)
    requires IsCrossFit(obs, assign, corrected)
    ensures InUnitAll(corrected)
  {
    hide IsFit, Apply, Train;
    forall o | o in corrected
      ensures InUnit(o)
    {
      var i :| 0 <= i < |corrected| && corrected[i] == o;
      assert HonestlyCorrected(obs, assign, corrected[i], i);
      var train := Train(obs, assign, assign[i]);
      var c :| IsFit(train, c) && o == Observation(Apply(c, obs[i].confidence), obs[i].correct);
      CorrectionInUnit(train, c, obs[i].confidence);
    }
  }
}
