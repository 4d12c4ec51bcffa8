/**
 When the order of updates matters: within the cell budget the learned state is a function of the
 multiset of outcomes, and past it, never.
 */
module BanditOrder {
  import opened Collections
  import opened Framing
  import opened Names
  import opened BanditState

  // --------------------------------------------------------------------------
  // Counting outcomes
  // --------------------------------------------------------------------------

  /** The outcome concerns this arm in this (clean) cell. */
  predicate Concerns(u: Outcome, cell: Name, arm: Name) {
    u.arm == arm && Sanitize(u.cell) == cell
  }

  function Count(us: seq<Outcome>, cell: Name, arm: Name, recovered: bool): nat {
    if us == [] then 0
    else
      var u := us[|us| - 1];
      Count(us[..|us| - 1], cell, arm, recovered) + if Concerns(u, cell, arm) && u.recovered == recovered then 1 else 0
  }

  lemma {:induction false} CountConcatenates(a: seq<Outcome>, b: seq<Outcome>, cell: Name, arm: Name, r: bool)
    ensures Count(a + b, cell, arm, r) == Count(a, cell, arm, r) + Count(b, cell, arm, r)
    decreases |b|
  {
    hide Concerns;
    if b == [] {
      assert a + b == a;
    } else {
      var n := |b| - 1;
      CountConcatenates(a, b[..n], cell, arm, r);
      assert (a + b)[..|a + b| - 1] == a + b[..n];
    }
  }

  lemma TakeOut(b: seq<Outcome>, k: nat, cell: Name, arm: Name, r: bool)
    requires k < |b|
    ensures var rest := b[..k] + b[k + 1..];
            && multiset(b) == multiset(rest) + multiset{b[k]}
            && Count(b, cell, arm, r) == Count(rest, cell, arm, r) + Count([b[k]], cell, arm, r)
  {
    hide Count;
    var head, one, tail := b[..k], [b[k]], b[k + 1..];
    assert b == head + (one + tail);
    CountConcatenates(head, tail, cell, arm, r);
    CountConcatenates(head, one + tail, cell, arm, r);
    CountConcatenates(one, tail, cell, arm, r);
  }

  lemma {:induction false} CountIgnoresOrder(a: seq<Outcome>, b: seq<Outcome>, cell: Name, arm: Name, r: bool)
    requires multiset(a) == multiset(b)
    ensures Count(a, cell, arm, r) == Count(b, cell, arm, r)
    decreases |a|
  {
    hide Count;
    if a == [] {
      assert |multiset(b)| == 0;
      assert b == [];
    } else {
      var n, u := |a| - 1, a[|a| - 1];
      assert u in multiset(b);
      var k :| 0 <= k < |b| && b[k] == u;
      TakeOut(a, n, cell, arm, r);
      TakeOut(b, k, cell, arm, r);
      assert a[..n] + a[n + 1..] == a[..n];
      var rest := b[..k] + b[k + 1..];
      SameWithout(multiset(a[..n]), multiset(rest), u);
      CountIgnoresOrder(a[..n], rest, cell, arm, r);
    }
  }

  // --------------------------------------------------------------------------
  // The state as counts
  // --------------------------------------------------------------------------

  /** The clean cells of the outcomes whose arm is known. */
  function Cells(space: Space, us: seq<Outcome>): set<Name> {
    set u | u in us && u.arm in space.arms :: Sanitize(u.cell)
  }

  /** A parameter after `n` increments under the cap. */
  function Raised(x: real, n: nat): real {
    if n == 0 then x else Min(x + n as real, MAX_COUNT)
  }

  lemma RaisedOnce(x: real, n: nat)
    ensures Min(Raised(x, n) + 1.0, MAX_COUNT) == Raised(x, n + 1)
  {
  }

  /** The belief that `s` recoveries and `f` failures leave. */
  function Belief(prior: Posterior, s: nat, f: nat): Posterior {
    Posterior(Raised(prior.alpha, s), Raised(prior.beta, f))
  }

  /** The outcomes seen for a pair, as a belief; None if there were none. */
  function Tallied(space: Space, us: seq<Outcome>, cell: Name, arm: Name): Option<Posterior> {
    var s, f := Count(us, cell, arm, true), Count(us, cell, arm, false);
    if arm in space.arms && s + f > 0 then Some(Belief(space.prior, s, f)) else None
  }

  function Held(post: Learned, cell: Name, arm: Name): Option<Posterior> {
    if cell in post && arm in post[cell] then Some(post[cell][arm]) else None
  }

  /** The state says exactly what the counts say. */
  ghost predicate Summarises(space: Space, post: Learned, us: seq<Outcome>) {
    && post.Keys == Cells(space, us)
    && forall c, a :: Held(post, c, a) == Tallied(space, us, c, a)
  }

  lemma CountOne(us: seq<Outcome>, u: Outcome, cell: Name, arm: Name, r: bool)
    ensures Count(us + [u], cell, arm, r)
         == Count(us, cell, arm, r) + if Concerns(u, cell, arm) && u.recovered == r then 1 else 0
  {
    assert (us + [u])[..|us|] == us;
  }

  lemma CellsOne(space: Space, us: seq<Outcome>, u: Outcome)
    ensures Cells(space, us + [u]) == Cells(space, us) + if u.arm in space.arms then {Sanitize(u.cell)} else {}
  {
  }

  lemma HeldAfter(space: Space, post: Learned, u: Outcome, c: Name, a: Name)
    requires u.arm in space.arms
    ensures
      var key := CellKey(space, post, u.cell);
      Held(Updated(space, post, u), c, a)
      == if c == key && a == u.arm then Some(Bumped(BeliefIn(space, post, key, u.arm), u.recovered))
         else Held(post, c, a)
  {
    hide Bumped, CellKey, BeliefIn;
  }

  lemma SummaryPair(space: Space, post: Learned, us: seq<Outcome>, u: Outcome, c: Name, a: Name)
    requires u.arm in space.arms && Held(post, c, a) == Tallied(space, us, c, a)
    requires CellKey(space, post, u.cell) == Sanitize(u.cell)
    ensures Held(Updated(space, post, u), c, a) == Tallied(space, us + [u], c, a)
  {
    hide Sanitize, CellKey, Count, Updated, Raised;
    HeldAfter(space, post, u, c, a);
    CountOne(us, u, c, a, true);
    CountOne(us, u, c, a, false);
    var s, f := Count(us, c, a, true), Count(us, c, a, false);
    RaisedOnce(space.prior.alpha, s);
    RaisedOnce(space.prior.beta, f);
    RaisedZero(space.prior.alpha);
    RaisedZero(space.prior.beta);
  }

  lemma RaisedZero(x: real)
    ensures Raised(x, 0) == x
  {
  }

  /** An unknown arm moves no count that matters. */
  lemma SummaryIgnored(space: Space, us: seq<Outcome>, u: Outcome, c: Name, a: Name)
    requires u.arm !in space.arms
    ensures Tallied(space, us + [u], c, a) == Tallied(space, us, c, a)
  {
    hide Sanitize, Count;
    CountOne(us, u, c, a, true);
    CountOne(us, u, c, a, false);
  }

  lemma SummaryStep(space: Space, post: Learned, us: seq<Outcome>, u: Outcome)
    requires Summarises(space, post, us) && |Cells(space, us + [u])| <= space.maxCells
    ensures Summarises(space, Updated(space, post, u), us + [u])
  {
    hide Sanitize, Tallied, Held, Cells, Bumped, BeliefIn;
    CellsOne(space, us, u);
    if u.arm in space.arms {
      var key := Sanitize(u.cell);
      if key !in post {
        SubsetSize(Cells(space, us), Cells(space, us + [u]));
        assert |post| == |post.Keys|;
      }
      forall c, a
        ensures Held(Updated(space, post, u), c, a) == Tallied(space, us + [u], c, a)
      {
        SummaryPair(space, post, us, u, c, a);
      }
    } else {
      forall c, a
        ensures Held(post, c, a) == Tallied(space, us + [u], c, a)
      {
        SummaryIgnored(space, us, u, c, a);
      }
    }
  }

  lemma SummaryOfNothing(space: Space)
    ensures Summarises(space, map[], [])
  {
  }

  /** Within the budget, learning is counting. */
  lemma {:induction false} LearnSummarises(space: Space, us: seq<Outcome>)
    requires |Cells(space, us)| <= space.maxCells
    ensures Summarises(space, Learn(space, us), us)
    decreases |us|
  {
    hide Cells, Summarises, Updated;
    if us == [] {
      SummaryOfNothing(space);
    } else {
      var init, u := us[..|us| - 1], us[|us| - 1];
      assert us == init + [u];
      CellsOne(space, init, u);
      SubsetSize(Cells(space, init), Cells(space, us));
      LearnSummarises(space, init);
      SummaryStep(space, Learn(space, init), init, u);
    }
  }

  lemma SameSummary(space: Space, p: Learned, us: seq<Outcome>, q: Learned, vs: seq<Outcome>)
    requires Summarises(space, p, us) && Summarises(space, q, vs) && multiset(us) == multiset(vs)
    ensures p == q
  {
    hide Sanitize, Tallied;
    assert Cells(space, us) == Cells(space, vs) by {
      assert forall u :: u in us <==> u in multiset(us);
      assert forall u :: u in vs <==> u in multiset(vs);
    }
    forall c | c in p
      ensures p[c] == q[c]
    {
      forall a
        ensures Held(p, c, a) == Held(q, c, a)
      {
        TalliedIgnoresOrder(space, us, vs, c, a);
      }
      assert forall a :: a in p[c] <==> Held(p, c, a).Some?;
      assert forall a :: a in q[c] <==> Held(q, c, a).Some?;
    }
  }

  lemma TalliedIgnoresOrder(space: Space, us: seq<Outcome>, vs: seq<Outcome>, c: Name, a: Name)
    requires multiset(us) == multiset(vs)
    ensures Tallied(space, us, c, a) == Tallied(space, vs, c, a)
  {
    CountIgnoresOrder(us, vs, c, a, true);
    CountIgnoresOrder(us, vs, c, a, false);
  }

  // --------------------------------------------------------------------------
  // Past the budget, order always matters
  // --------------------------------------------------------------------------

  /** Every key is a cell that was seen, or the overflow cell; below the budget, exactly the cells seen. */
  lemma {:induction false} KeysOfLearn(space: Space, us: seq<Outcome>)
    ensures Learn(space, us).Keys <= Cells(space, us) + {OVERFLOW_CELL}
    ensures |Learn(space, us).Keys| < space.maxCells ==> Learn(space, us).Keys == Cells(space, us)
    decreases |us|
  {
    hide Sanitize, Cells, Bumped, BeliefIn;
    if us == [] {
      SummaryOfNothing(space);
      NoCells(space);
    } else {
      var init, u := us[..|us| - 1], us[|us| - 1];
      assert us == init + [u];
      CellsOne(space, init, u);
      KeysOfLearn(space, init);
      var before, after := Learn(space, init), Learn(space, us);
      assert |before| == |before.Keys|;
      KeysGrow(space, before, u);
      SubsetSize(before.Keys, after.Keys);
    }
  }

  lemma NoCells(space: Space)
    ensures Cells(space, []) == {}
  {
  }

  lemma KeysGrow(space: Space, post: Learned, u: Outcome)
    ensures Updated(space, post, u).Keys
         == post.Keys + if u.arm in space.arms then {CellKey(space, post, u.cell)} else {}
  {
    hide CellKey, Bumped, BeliefIn;
  }

  lemma {:induction false} KeysStay(space: Space, us: seq<Outcome>, vs: seq<Outcome>)
    ensures Learn(space, us).Keys <= Learn(space, us + vs).Keys
    decreases |vs|
  {
    hide CellKey, Updated;
    if vs == [] {
      assert us + vs == us;
    } else {
      var n := |vs| - 1;
      assert (us + vs)[..|us + vs| - 1] == us + vs[..n];
      KeysStay(space, us, vs[..n]);
      KeysGrow(space, Learn(space, us + vs[..n]), vs[n]);
    }
  }

  /** Once the budget is spent, outcomes of an unseen cell all pool and the cell never appears. */
  lemma {:induction false} LateCellNeverAppears(space: Space, us: seq<Outcome>, vs: seq<Outcome>, c: Name)
    requires |Learn(space, us).Keys| >= space.maxCells && c !in Learn(space, us) && c != OVERFLOW_CELL
    requires forall v :: v in vs ==> Sanitize(v.cell) == c
    ensures c !in Learn(space, us + vs)
    decreases |vs|
  {
    hide Sanitize, Updated;
    if vs == [] {
      assert us + vs == us;
    } else {
      var n := |vs| - 1;
      assert (us + vs)[..|us + vs| - 1] == us + vs[..n];
      LateCellNeverAppears(space, us, vs[..n], c);
      KeysStay(space, us, vs[..n]);
      var post := Learn(space, us + vs[..n]);
      SubsetSize(Learn(space, us).Keys, post.Keys);
      assert |post| == |post.Keys|;
      assert Sanitize(vs[n].cell) == c;
      KeysGrow(space, post, vs[n]);
    }
  }

  /** The outcomes of cell `c` with a known arm, and the rest. */
  function Of(space: Space, us: seq<Outcome>, c: Name, mine: bool): seq<Outcome> {
    if us == [] then []
    else
      var u := us[|us| - 1];
      Of(space, us[..|us| - 1], c, mine)
      + if (u.arm in space.arms && Sanitize(u.cell) == c) == mine then [u] else []
  }

  lemma {:induction false} OfPartitions(space: Space, us: seq<Outcome>, c: Name)
    ensures multiset(us) == multiset(Of(space, us, c, true)) + multiset(Of(space, us, c, false))
    ensures forall u :: u in Of(space, us, c, true) ==> u.arm in space.arms && Sanitize(u.cell) == c
    ensures forall u :: u in Of(space, us, c, false) ==> !(u.arm in space.arms && Sanitize(u.cell) == c)
    decreases |us|
  {
    hide Sanitize;
    if us == [] {
    } else {
      OfPartitions(space, us[..|us| - 1], c);
      assert us == us[..|us| - 1] + [us[|us| - 1]];
    }
  }

  lemma CellsOfRest(space: Space, us: seq<Outcome>, c: Name)
    ensures Cells(space, Of(space, us, c, false)) == Cells(space, us) - {c}
    ensures c in Cells(space, us) ==> Of(space, us, c, true) != []
  {
    hide Sanitize, Of;
    OfPartitions(space, us, c);
    var mine, rest := Of(space, us, c, true), Of(space, us, c, false);
    assert forall u :: u in us <==> u in multiset(us);
    assert forall u :: u in mine <==> u in multiset(mine);
    assert forall u :: u in rest <==> u in multiset(rest);
    forall k | k in Cells(space, us) - {c}
      ensures k in Cells(space, rest)
    {
      var u :| u in us && u.arm in space.arms && Sanitize(u.cell) == k;
      assert u in rest;
    }
    if c in Cells(space, us) {
      var u :| u in us && u.arm in space.arms && Sanitize(u.cell) == c;
      assert u in mine;
    }
  }

  lemma FirstCellAppears(space: Space, mine: seq<Outcome>, c: Name)
    requires GoodSpace(space) && mine != []
    requires forall u :: u in mine ==> u.arm in space.arms && Sanitize(u.cell) == c
    ensures c in Learn(space, mine)
  {
    hide Sanitize, Bumped, BeliefIn;
    var one := mine[..1];
    assert one[..0] == [] && one[0] == mine[0] && mine[0] in mine;
    assert Learn(space, one[..0]) == map[];
    KeysGrow(space, map[], one[0]);
    assert c in Learn(space, one);
    assert mine == one + mine[1..];
    KeysStay(space, one, mine[1..]);
  }

  /** Two orders of the same outcomes that learn different things. */
  lemma OrdersDiffer(space: Space, us: seq<Outcome>) returns (vs: seq<Outcome>, ws: seq<Outcome>)
    requires GoodSpace(space) && |Cells(space, us)| > space.maxCells
    ensures multiset(vs) == multiset(us) && multiset(ws) == multiset(us)
    ensures Learn(space, vs) != Learn(space, ws)
  {
    hide Sanitize, Cells, Learn, Of;
    var rest := Cells(space, us) - {OVERFLOW_CELL};
    assert rest != {} by {
      if rest == {} {
        SubsetSize(Cells(space, us), {OVERFLOW_CELL});
      }
    }
    var c :| c in rest;
    var mine, others := Of(space, us, c, true), Of(space, us, c, false);
    OfPartitions(space, us, c);
    CellsOfRest(space, us, c);
    vs, ws := mine + others, others + mine;
    FirstCellAppears(space, mine, c);
    KeysStay(space, mine, others);
    KeysOfLearn(space, others);
    assert |Cells(space, us) - {c}| == |Cells(space, us)| - 1;
    assert c !in Learn(space, others);
    LateCellNeverAppears(space, others, mine, c);
  }

  /**
   The exact condition: every order of the same outcomes teaches the same thing if and only if their
   distinct clean cells fit the budget.
   */
  lemma OrderIrrelevantExactly(space: Space, us: seq<Outcome>)
    requires GoodSpace(space)
    ensures |Cells(space, us)| <= space.maxCells
       <==> forall vs, ws :: multiset(vs) == multiset(us) && multiset(ws) == multiset(us) ==>
              Learn(space, vs) == Learn(space, ws)
  {
    hide Cells, Learn, Summarises;
    if |Cells(space, us)| <= space.maxCells {
      forall vs, ws | multiset(vs) == multiset(us) && multiset(ws) == multiset(us)
        ensures Learn(space, vs) == Learn(space, ws)
      {
        SameCells(space, us, vs);
        SameCells(space, us, ws);
        LearnSummarises(space, vs);
        LearnSummarises(space, ws);
        SameSummary(space, Learn(space, vs), vs, Learn(space, ws), ws);
      }
    } else {
      var vs, ws := OrdersDiffer(space, us);
    }
  }

  lemma SameCells(space: Space, us: seq<Outcome>, vs: seq<Outcome>)
    requires multiset(us) == multiset(vs)
    ensures Cells(space, us) == Cells(space, vs)
  {
    hide Sanitize;
    assert forall u :: u in us <==> u in multiset(us);
    assert forall u :: u in vs <==> u in multiset(vs);
  }
}
