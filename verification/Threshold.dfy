/** Confidence cut-offs and what they cost (`ThresholdFor`, `AccuracyAt`). */
module Threshold {
  import opened Collections
  import opened Observations

  /** A cut-off: the share of accepted predictions that were correct, and how many it accepts. */
  datatype Cut = Cut(confidence: real, accuracy: real, coverage: real, accepted: nat, correct: nat)

  function Accepted(obs: seq<Observation>, t: real): (n: nat)
    ensures n <= |obs|
  {
    if obs == [] then 0
    else Accepted(obs[..|obs| - 1], t) + if obs[|obs| - 1].confidence >= t then 1 else 0
  }

  function CorrectAbove(obs: seq<Observation>, t: real): (n: nat)
    ensures n <= Accepted(obs, t)
  {
    if obs == [] then 0
    else
      var o := obs[|obs| - 1];
      CorrectAbove(obs[..|obs| - 1], t) + if o.confidence >= t && o.correct then 1 else 0
  }

  /** What cutting `obs` at `t` delivers. */
  function CutAt(obs: seq<Observation>, t: real): Cut
    requires obs != []
  {
    var a, c := Accepted(obs, t), CorrectAbove(obs, t);
    Cut(t, if a > 0 then c as real / a as real else 0.0, a as real / |obs| as real, a, c)
  }

  /** `AccuracyAt`. */
  method AccuracyAt(obs: seq<Observation>, threshold: real) returns (r: Result<Cut, CalibError>)
    ensures r == if Valid(obs) then Ok(CutAt(obs, threshold)) else Err(Fault(obs))
  {
    if !Valid(obs) {
      return Err(Fault(obs));
    }
    var accepted, correct := 0, 0;
    for i := 0 to |obs|
      invariant accepted == Accepted(obs[..i], threshold) && correct == CorrectAbove(obs[..i], threshold)
    {
      assert obs[..i + 1][..i] == obs[..i];
      if obs[i].confidence >= threshold {
        accepted := accepted + 1;
        if obs[i].correct {
          correct := correct + 1;
        }
      }
    }
    assert obs[..|obs|] == obs;
    var accuracy := 0.0;
    if accepted > 0 {
      accuracy := correct as real / accepted as real;
    }
    return Ok(Cut(threshold, accuracy, accepted as real / |obs| as real, accepted, correct));
  }

  // --------------------------------------------------------------------------
  // Sorting changes no count
  // --------------------------------------------------------------------------

  ghost predicate Descending(s: seq<Observation>) {
    forall i, j :: 0 <= i < j < |s| ==> s[i].confidence >= s[j].confidence
  }

  lemma {:induction false} CountsConcatenate(a: seq<Observation>, b: seq<Observation>, t: real)
    ensures Accepted(a + b, t) == Accepted(a, t) + Accepted(b, t)
    ensures CorrectAbove(a + b, t) == CorrectAbove(a, t) + CorrectAbove(b, t)
    decreases |b|
  {
    if b == [] {
      assert a + b == a;
    } else {
      var n := |b| - 1;
      CountsConcatenate(a, b[..n], t);
      assert (a + b)[..|a + b| - 1] == a + b[..n];
    }
  }

  /** Taking one observation out of a corpus. */
  lemma TakeOut(b: seq<Observation>, k: nat, t: real)
    requires k < |b|
    ensures var rest, one := b[..k] + b[k + 1..], [b[k]];
            && multiset(b) == multiset(rest) + multiset{b[k]}
            && Accepted(b, t) == Accepted(rest, t) + Accepted(one, t)
            && CorrectAbove(b, t) == CorrectAbove(rest, t) + CorrectAbove(one, t)
  {
    hide Accepted, CorrectAbove;
    var head, one, tail := b[..k], [b[k]], b[k + 1..];
    assert b == head + (one + tail);
    CountsConcatenate(head, tail, t);
    CountsConcatenate(head, one + tail, t);
    CountsConcatenate(one, tail, t);
  }

  /** The same observations in any order are accepted, and correct, equally often. */
  lemma {:induction false} CountsIgnoreOrder(a: seq<Observation>, b: seq<Observation>, t: real)
    requires multiset(a) == multiset(b)
    ensures Accepted(a, t) == Accepted(b, t) && CorrectAbove(a, t) == CorrectAbove(b, t)
    decreases |a|
  {
    hide Accepted, CorrectAbove;
    if a == [] {
      assert |multiset(b)| == 0;
      assert b == [];
    } else {
      var n, o := |a| - 1, a[|a| - 1];
      assert o in multiset(b);
      var k :| 0 <= k < |b| && b[k] == o;
      TakeOut(a, n, t);
      TakeOut(b, k, t);
      assert a[..n] + a[n + 1..] == a[..n];
      var rest := b[..k] + b[k + 1..];
      SameWithout(multiset(a[..n]), multiset(rest), o);
      CountsIgnoreOrder(a[..n], rest, t);
    }
  }

  lemma PrefixGrows(obs: seq<Observation>, i: nat)
    requires i < |obs|
    ensures multiset(obs[..i + 1]) == multiset(obs[..i]) + multiset{obs[i]}
  {
    assert obs[..i + 1] == obs[..i] + [obs[i]];
  }

  lemma InsertedDescending(s: seq<Observation>, k: nat, o: Observation)
    requires Descending(s) && k <= |s|
    requires forall j :: 0 <= j < k ==> s[j].confidence >= o.confidence
    requires k < |s| ==> s[k].confidence < o.confidence
    ensures Descending(s[..k] + [o] + s[k..])
    ensures multiset(s[..k] + [o] + s[k..]) == multiset(s) + multiset{o}
  {
    assert s == s[..k] + s[k..];
  }

  /** Stands for the library's stable sort, most confident first. */
  method SortDescending(obs: seq<Observation>) returns (sorted: seq<Observation>)
    ensures multiset(sorted) == multiset(obs) && Descending(sorted)
  {
    hide Accepted, CorrectAbove;
    sorted := [];
    for i := 0 to |obs|
      invariant multiset(sorted) == multiset(obs[..i]) && Descending(sorted)
    {
      var k := 0;
      while k < |sorted| && sorted[k].confidence >= obs[i].confidence
        invariant 0 <= k <= |sorted|
        invariant forall j :: 0 <= j < k ==> sorted[j].confidence >= obs[i].confidence
      {
        k := k + 1;
      }
      InsertedDescending(sorted, k, obs[i]);
      PrefixGrows(obs, i);
      sorted := sorted[..k] + [obs[i]] + sorted[k..];
    }
    assert obs[..|obs|] == obs;
  }

  // --------------------------------------------------------------------------
  // The sweep
  // --------------------------------------------------------------------------

  /** Position `i` ends a run of equal confidences. */
  predicate EndsRun(s: seq<Observation>, i: nat)
    requires i < |s|
  {
    i + 1 == |s| || s[i + 1].confidence != s[i].confidence
  }

  lemma {:induction false} AllAccepted(s: seq<Observation>, t: real)
    requires forall o :: o in s ==> o.confidence >= t
    ensures Accepted(s, t) == |s|
  {
    if s == [] {
    } else {
      assert s[|s| - 1] in s;
      AllAccepted(s[..|s| - 1], t);
    }
  }

  lemma {:induction false} NoneAccepted(s: seq<Observation>, t: real)
    requires forall o :: o in s ==> o.confidence < t
    ensures Accepted(s, t) == 0
  {
    if s == [] {
    } else {
      assert s[|s| - 1] in s;
      NoneAccepted(s[..|s| - 1], t);
    }
  }

  function CorrectIn(s: seq<Observation>): nat {
    if s == [] then 0 else CorrectIn(s[..|s| - 1]) + if s[|s| - 1].correct then 1 else 0
  }

  lemma {:induction false} AllCorrectCounted(s: seq<Observation>, t: real)
    requires forall o :: o in s ==> o.confidence >= t
    ensures CorrectAbove(s, t) == CorrectIn(s)
  {
    if s == [] {
    } else {
      assert s[|s| - 1] in s;
      AllCorrectCounted(s[..|s| - 1], t);
    }
  }

  /** At the end of a run the sweep has seen exactly what cutting there accepts. */
  lemma RunningCounts(s: seq<Observation>, i: nat)
    requires Descending(s) && i < |s| && EndsRun(s, i)
    ensures Accepted(s, s[i].confidence) == i + 1
    ensures CorrectAbove(s, s[i].confidence) == CorrectIn(s[..i + 1])
  {
    hide Accepted, CorrectAbove, CorrectIn;
    var t, head, tail := s[i].confidence, s[..i + 1], s[i + 1..];
    assert s == head + tail;
    CountsConcatenate(head, tail, t);
    AllAccepted(head, t);
    AllCorrectCounted(head, t);
    assert forall o :: o in tail ==> o.confidence < t by {
      assert tail != [] ==> tail[0].confidence < t;
    }
    NoneAccepted(tail, t);
  }

  /** The accuracy of cutting at `t` meets the target. */
  ghost predicate Meets(obs: seq<Observation>, t: real, target: real)
    requires obs != []
  {
    Accepted(obs, t) > 0 && CutAt(obs, t).accuracy >= target
  }

  /** The lowest stated confidence that meets the target. */
  ghost predicate IsLowest(obs: seq<Observation>, target: real, t: real)
    requires obs != []
  {
    && (exists o :: o in obs && o.confidence == t)
    && Meets(obs, t, target)
    && forall o :: o in obs && Meets(obs, o.confidence, target) ==> t <= o.confidence
  }

  /** Every confidence has a position that ends its run. */
  lemma {:induction false} RunEnd(s: seq<Observation>, i: nat) returns (j: nat)
    requires Descending(s) && i < |s|
    ensures i <= j < |s| && s[j].confidence == s[i].confidence && EndsRun(s, j)
    decreases |s| - i
  {
    if EndsRun(s, i) {
      j := i;
    } else {
      j := RunEnd(s, i + 1);
    }
  }

  lemma SortedCuts(obs: seq<Observation>, s: seq<Observation>)
    requires obs != [] && multiset(obs) == multiset(s)
    ensures s != [] && forall t :: CutAt(s, t) == CutAt(obs, t)
  {
    assert obs[0] in multiset(s);
    forall t
      ensures CutAt(s, t) == CutAt(obs, t)
    {
      CountsIgnoreOrder(obs, s, t);
    }
  }

  /** After `n` positions: a cut that meets the target if any run that ended did, and the lowest such. */
  ghost predicate Swept(s: seq<Observation>, target: real, n: nat, found: bool, best: Cut)
    requires n <= |s| && s != []
  {
    && (found ==> exists j :: 0 <= j < n && best == CutAt(s, s[j].confidence) && Meets(s, s[j].confidence, target))
    && forall j :: 0 <= j < n && EndsRun(s, j) && Meets(s, s[j].confidence, target) ==>
         found && best.confidence <= s[j].confidence
  }

  /** What the running counts say of the cut at the end of a run. */
  lemma CutOfRun(s: seq<Observation>, i: nat, correct: nat)
    requires Descending(s) && i < |s| && EndsRun(s, i) && correct == CorrectIn(s[..i + 1])
    ensures CutAt(s, s[i].confidence) == Cut(
              s[i].confidence, correct as real / (i + 1) as real, (i + 1) as real / |s| as real, i + 1, correct)
    ensures forall target :: Meets(s, s[i].confidence, target) <==> correct as real / (i + 1) as real >= target
  {
    hide Accepted, CorrectAbove, CorrectIn, Descending, EndsRun;
    RunningCounts(s, i);
  }

  lemma SweptOne(s: seq<Observation>, target: real, i: nat, found: bool, best: Cut)
    requires Descending(s) && i < |s| && Swept(s, target, i, found, best)
    ensures
      if EndsRun(s, i) && Meets(s, s[i].confidence, target)
      then Swept(s, target, i + 1, true, CutAt(s, s[i].confidence))
      else Swept(s, target, i + 1, found, best)
  {
    hide Accepted, CorrectAbove;
  }

  /** The sweep over the sorted corpus, remembering the last cut that meets the target. */
  method Sweep(s: seq<Observation>, target: real) returns (found: bool, best: Cut)
    requires s != [] && Descending(s)
    ensures Swept(s, target, |s|, found, best)
  {
    hide Swept, Descending, CutAt, Meets;
    var total := |s|;
    best, found := Cut(0.0, 0.0, 0.0, 0, 0), false;
    SweptNothing(s, target, best);
    var accepted, correct := 0, 0;
    for i := 0 to total
      invariant accepted == i && correct == CorrectIn(s[..i])
      invariant Swept(s, target, i, found, best)
    {
      var o := s[i];
      assert s[..i + 1][..i] == s[..i];
      SweptOne(s, target, i, found, best);
      accepted := accepted + 1;
      if o.correct {
        correct := correct + 1;
      }
      if i + 1 < total && s[i + 1].confidence == o.confidence {
        continue;
      }
      CutOfRun(s, i, correct);
      if correct as real / accepted as real >= target {
        best := Cut(
          o.confidence, correct as real / accepted as real, accepted as real / total as real, accepted, correct);
        found := true;
      }
    }
  }

  lemma SweptNothing(s: seq<Observation>, target: real, best: Cut)
    requires s != []
    ensures Swept(s, target, 0, false, best)
  {
  }

  lemma LowestOfSweep(obs: seq<Observation>, s: seq<Observation>, target: real, found: bool, best: Cut)
    requires obs != [] && s != [] && multiset(obs) == multiset(s) && Descending(s)
    requires Swept(s, target, |s|, found, best)
    ensures found ==> IsLowest(obs, target, best.confidence) && best == CutAt(obs, best.confidence)
    ensures !found ==> forall o :: o in obs ==> !Meets(obs, o.confidence, target)
  {
    hide Accepted, CorrectAbove;
    SortedCuts(obs, s);
    forall o | o in obs && Meets(obs, o.confidence, target)
      ensures found && best.confidence <= o.confidence
    {
      assert o in multiset(s);
      var i :| 0 <= i < |s| && s[i] == o;
      var j := RunEnd(s, i);
      assert CutAt(s, s[j].confidence) == CutAt(obs, o.confidence);
    }
    if found {
      var j :| 0 <= j < |s| && best == CutAt(s, s[j].confidence) && Meets(s, s[j].confidence, target);
      assert s[j] in multiset(obs);
      assert CutAt(s, s[j].confidence) == CutAt(obs, s[j].confidence);
    }
  }

  /** `ThresholdFor`: the lowest stated confidence that buys the target, or none does. */
  method ThresholdFor(obs: seq<Observation>, target: real) returns (r: Result<Cut, CalibError>)
    ensures !Valid(obs) ==> r == Err(Fault(obs))
    ensures Valid(obs) && !(0.0 < target <= 1.0) ==> r == Err(InvalidOptions)
    ensures Valid(obs) && 0.0 < target <= 1.0 ==>
              match r
              case Ok(cut) => IsLowest(obs, target, cut.confidence) && cut == CutAt(obs, cut.confidence)
              case Err(e) => e == UnreachableTarget && forall o :: o in obs ==> !Meets(obs, o.confidence, target)
  {
    if !Valid(obs) {
      return Err(Fault(obs));
    }
    if target <= 0.0 || target > 1.0 {
      return Err(InvalidOptions);
    }
    var sorted := SortDescending(obs);
    SortedCuts(obs, sorted);
    var found, best := Sweep(sorted, target);
    LowestOfSweep(obs, sorted, target, found, best);
    if !found {
      return Err(UnreachableTarget);
    }
    return Ok(best);
  }

  // --------------------------------------------------------------------------
  // Only stated confidences matter
  // --------------------------------------------------------------------------

  /** The least stated confidence at or above `t`. */
  ghost predicate NextStated(obs: seq<Observation>, t: real, u: real) {
    && (exists o :: o in obs && o.confidence == u) && t <= u
    && forall o :: o in obs && o.confidence >= t ==> u <= o.confidence
  }

  lemma {:induction false} SameCounts(obs: seq<Observation>, t: real, u: real)
    requires forall o :: o in obs ==> (o.confidence >= t <==> o.confidence >= u)
    ensures Accepted(obs, t) == Accepted(obs, u) && CorrectAbove(obs, t) == CorrectAbove(obs, u)
  {
    if obs == [] {
    } else {
      assert obs[|obs| - 1] in obs;
      SameCounts(obs[..|obs| - 1], t, u);
    }
  }

  /**
   Sweeping the corpus's own confidences loses nothing: a cut-off between two of them delivers
   exactly what the next stated one delivers, so no real threshold reaches an accuracy they miss.
   */
  lemma StatedCutsSuffice(obs: seq<Observation>, t: real, u: real)
    requires obs != [] && NextStated(obs, t, u)
    ensures CutAt(obs, t) == CutAt(obs, u).(confidence := t)
  {
    SameCounts(obs, t, u);
  }
}
