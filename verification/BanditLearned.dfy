/**
 The digest of states that updates alone reach (internal/bandit/bandit.go): exactly which states those
 are, and exactly the configurations in which two of them are absorbed alike.
 */
module BanditLearned {
  import opened Collections
  import opened Framing
  import opened Names
  import opened BanditState
  import opened BanditRuns
  import opened BanditOrder
  import opened BanditDigest
  import opened BanditIdentity

  // --------------------------------------------------------------------------
  // The states runs of updates reach
  // --------------------------------------------------------------------------

  /** The prior raised by one outcome or more. */
  ghost predicate Raises(prior: Posterior, p: Posterior) {
    exists s: nat, f: nat :: s + f > 0 && p == Belief(prior, s, f)
  }

  /** The beliefs updates leave. */
  ghost function Seen(space: Space): iset<Posterior> { iset p: Posterior | Raises(space.prior, p) }

  /** Clean cells within the budget, each with known arms, and every belief the prior raised. */
  ghost predicate Learnable(space: Space, post: Learned) {
    Holds(space, Seen(space), post) && NoEmptyCell(post) && WithinBudget(space.maxCells, post.Keys)
  }

  lemma BeliefGrows(prior: Posterior, s: nat, f: nat)
    ensures Belief(prior, 0, 0) == prior
    ensures Bumped(Belief(prior, s, f), true) == Belief(prior, s + 1, f)
    ensures Bumped(Belief(prior, s, f), false) == Belief(prior, s, f + 1)
  {
    RaisedOnce(prior.alpha, s);
    RaisedOnce(prior.beta, f);
  }

  lemma BumpedIsSeen(space: Space, p: Posterior, r: bool)
    requires p == space.prior || p in Seen(space)
    ensures Bumped(p, r) in Seen(space)
  {
    hide Belief, Bumped;
    BeliefGrows(space.prior, 0, 0);
    var s: nat, f: nat :| p == Belief(space.prior, s, f);
    BeliefGrows(space.prior, s, f);
  }

  lemma UpdateHolds(space: Space, post: Learned, u: Outcome)
    requires GoodSpace(space) && Holds(space, Seen(space), post)
    ensures Holds(space, Seen(space), Updated(space, post, u))
  {
    hide Storable, Seen, Bumped, CellKey;
    UpdateStores(space, post, u);
    if u.arm in space.arms {
      BumpedIsSeen(space, BeliefIn(space, post, CellKey(space, post, u.cell), u.arm), u.recovered);
    }
  }

  lemma {:induction false} LearnHolds(space: Space, us: seq<Outcome>)
    requires GoodSpace(space)
    ensures Holds(space, Seen(space), Learn(space, us))
  {
    hide Updated, Seen;
    if us == [] {
      NothingStored(space);
    } else {
      LearnHolds(space, us[..|us| - 1]);
      UpdateHolds(space, Learn(space, us[..|us| - 1]), us[|us| - 1]);
    }
  }

  lemma LearnMore(space: Space, us: seq<Outcome>, c: Name, a: Name, r: bool)
    requires Clean(c) && a in space.arms
    requires var post := Learn(space, us); c in post || |post| < space.maxCells || c == OVERFLOW_CELL
    ensures var post := Learn(space, us);
            Learn(space, us + [Outcome(c, a, r)]) == post[c := RowOf(post, c)[a := Bumped(BeliefIn(space, post, c, a), r)]]
  {
    hide Sanitize, Bumped, BeliefIn, RowOf;
    assert (us + [Outcome(c, a, r)])[..|us|] == us;
  }

  /** A new entry of a cell with room, after `s` recoveries and `f` failures. */
  lemma {:induction false} LearnEntry(space: Space, us: seq<Outcome>, c: Name, a: Name, s: nat, f: nat)
      returns (vs: seq<Outcome>)
    requires Clean(c) && a in space.arms && s + f > 0
    requires var post := Learn(space, us);
             (c in post || |post| < space.maxCells || c == OVERFLOW_CELL) && a !in RowOf(post, c)
    ensures var post := Learn(space, us);
            Learn(space, vs) == post[c := RowOf(post, c)[a := Belief(space.prior, s, f)]]
    decreases s + f
  {
    hide Learn, Belief, Bumped, Clean;
    var post, s', f' := Learn(space, us), if s > 0 then s - 1 else s, if s > 0 then f else f - 1;
    var row, last := RowOf(post, c), Belief(space.prior, s, f);
    BeliefGrows(space.prior, s', f');
    if s + f == 1 {
      LearnMore(space, us, c, a, s > 0);
      vs := us + [Outcome(c, a, s > 0)];
    } else {
      var before := LearnEntry(space, us, c, a, s', f');
      LearnMore(space, before, c, a, s > 0);
      vs := before + [Outcome(c, a, s > 0)];
      var half: Beliefs := row[a := Belief(space.prior, s', f')];
      var after: Learned := post[c := half];
      assert half[a := last] == row[a := last];
      assert after[c := row[a := last]] == post[c := row[a := last]];
    }
  }

  /** A cell of known arms with beliefs that updates leave. */
  ghost predicate SeenRow(space: Space, row: Beliefs) {
    KnownRow(space, row) && forall a :: a in row ==> row[a] in Seen(space)
  }

  lemma WithoutArm(space: Space, row: Beliefs, a: Name) returns (s: nat, f: nat)
    requires SeenRow(space, row) && a in row
    ensures a in space.arms && s + f > 0 && row[a] == Belief(space.prior, s, f)
    ensures SeenRow(space, row - {a}) && |row - {a}| < |row| && (row - {a})[a := row[a]] == row
  {
    hide Belief, IsBelief;
    assert (row - {a}).Keys == row.Keys - {a};
    s, f :| s + f > 0 && row[a] == Belief(space.prior, s, f);
  }

  /** A new cell, arm by arm. */
  lemma {:induction false} LearnRow(space: Space, us: seq<Outcome>, c: Name, row: Beliefs) returns (vs: seq<Outcome>)
    requires Clean(c) && SeenRow(space, row)
    requires var post := Learn(space, us); c !in post && (|post| < space.maxCells || c == OVERFLOW_CELL)
    ensures Learn(space, vs) == if row == map[] then Learn(space, us) else Learn(space, us)[c := row]
    decreases |row|
  {
    hide Learn, Belief, Clean, SeenRow;
    if row == map[] {
      vs := us;
    } else {
      var a := SomeKey(row);
      var s, f := WithoutArm(space, row, a);
      var before := LearnRow(space, us, c, row - {a});
      vs := LearnEntry(space, before, c, a, s, f);
    }
  }

  lemma SomeKey<T>(m: map<Name, T>) returns (k: Name)
    requires m != map[]
    ensures k in m
  {
    assert exists k :: k in m by {
      assert (forall k :: k !in m) ==> m == map[];
    }
    k :| k in m;
  }

  lemma WithoutCell(space: Space, post: Learned, c: Name)
    requires Learnable(space, post) && c in post && (c == OVERFLOW_CELL || OVERFLOW_CELL !in post)
    ensures Learnable(space, post - {c}) && |post - {c}| < |post|
    ensures |post - {c}| < space.maxCells || c == OVERFLOW_CELL
  {
    hide Sanitize, KnownRow, Seen;
    var less := post - {c};
    assert less.Keys == post.Keys - {c};
    assert |less.Keys| == |post.Keys| - 1;
  }

  /** A learnable state, cell by cell, the overflow cell last. */
  lemma {:induction false} LearnState(space: Space, post: Learned) returns (us: seq<Outcome>)
    requires Learnable(space, post)
    ensures Learn(space, us) == post
    decreases |post|
  {
    hide Learn, Learnable, Seen;
    if post == map[] {
      us := [];
      LearnNone(space);
    } else {
      var c := SomeKey(post);
      if OVERFLOW_CELL in post {
        c := OVERFLOW_CELL;
      }
      WithoutCell(space, post, c);
      var before := LearnState(space, post - {c});
      CellOf(space, post, c);
      us := LearnRow(space, before, c, post[c]);
      assert (post - {c})[c := post[c]] == post;
    }
  }

  lemma LearnNone(space: Space)
    ensures Learn(space, []) == map[]
  {
  }

  lemma CellOf(space: Space, post: Learned, c: Name)
    requires Learnable(space, post) && c in post
    ensures Clean(c) && SeenRow(space, post[c]) && post[c] != map[]
  {
    hide Sanitize, KnownRow, Seen;
  }

  lemma LearnIsLearnable(space: Space, us: seq<Outcome>)
    requires GoodSpace(space)
    ensures Learnable(space, Learn(space, us))
  {
    hide Learn, Holds, Seen, WithinBudget, NoEmptyCell;
    LearnHolds(space, us);
    LearnIsReachable(space, us);
  }

  /**
   Exactly the learnable states are reached by runs of updates: at most `MaxCells` clean cells, or one
   more if one is the overflow cell, none without arms, and each belief the prior raised by some counts.
   */
  lemma LearnableExactly(space: Space, post: Learned)
    requires GoodSpace(space)
    ensures Learnable(space, post) <==> exists us :: Learn(space, us) == post
  {
    hide Learn, Learnable;
    if Learnable(space, post) {
      var us := LearnState(space, post);
    }
    forall us | Learn(space, us) == post
      ensures Learnable(space, post)
    {
      LearnIsLearnable(space, us);
    }
  }

  // --------------------------------------------------------------------------
  // The exact condition
  // --------------------------------------------------------------------------

  /** The first cell of the least listing with room for a second: with a budget of one, the overflow cell. */
  function Anchor(space: Space): Name { if space.maxCells >= 2 then LEAST else OVERFLOW_CELL }

  /** Names a second cell can have. */
  ghost function SecondCells(space: Space): iset<Name> { After(Anchor(space)) }

  /** The absorbed bytes identify each state that updates alone reach. */
  ghost predicate IdentifiesLearned(fmt: Format, space: Space)
    requires Printable(fmt)
  {
    forall us, vs ::
      SameStream(fmt, space, Learn(space, us), Learn(space, vs)) ==> Learn(space, us) == Learn(space, vs)
  }

  lemma OverflowHasNoColon(t: Name)
    requires HasColon(t)
    ensures t != OVERFLOW_CELL && t != LEAST
  {
  }

  /** With a budget of one, a listing whose second cell has a colon starts with the overflow cell. */
  lemma FirstIsOverflow(rows: seq<Row>, post: Learned, i: nat)
    requires ListsState(rows, post) && WithinBudget(1, post.Keys)
    requires 0 < i < |rows| && rows[i].cell != OVERFLOW_CELL
    ensures rows[0].cell == OVERFLOW_CELL
  {
    hide Less, ListsRow;
    var c, z, names := rows[0].cell, rows[i].cell, RowNames(rows);
    assert Less(names[0], names[i]);
    LessIrreflexive(c);
    assert c in post.Keys && z in post.Keys;
    SubsetSize({c, z}, post.Keys);
    SubsetSize({c, z, OVERFLOW_CELL}, post.Keys + {OVERFLOW_CELL});
  }

  lemma ReadsIsNoPlainCell(fmt: Format, inPlay: iset<Posterior>, t: Name)
    requires Printable(fmt) && Reads(fmt, inPlay, t)
    ensures t != OVERFLOW_CELL
  {
    hide Reads;
    ReadingHasColon(fmt, inPlay, t);
    OverflowHasNoColon(t);
  }

  /** In listings that agree on their first cell, the later ones are after the anchor, if one reads as a belief. */
  lemma LaterAreSecond(
      fmt: Format, space: Space, rs: seq<Row>, qs: seq<Row>, p: Learned, q: Learned, z: Name, t: Name)
    requires Printable(fmt) && GoodSpace(space)
    requires GoodRows(space, Seen(space), rs) && GoodRows(space, Seen(space), qs)
    requires ListsState(rs, p) && ListsState(qs, q)
    requires WithinBudget(space.maxCells, p.Keys) && WithinBudget(space.maxCells, q.Keys)
    requires rs != [] && qs != [] && rs[0].cell == qs[0].cell
    requires z in Later(rs, qs) && Reads(fmt, Seen(space), z) && t in Later(rs, qs)
    ensures t in SecondCells(space)
  {
    hide Reads, Sanitize, Less, ListsState, Seen, GoodEntries, WithinBudget;
    LaterCells(space, Seen(space), rs, qs, t);
    if space.maxCells >= 2 {
      LeastIsLeast(t);
    } else {
      ReadsIsNoPlainCell(fmt, Seen(space), z);
      if i :| 0 < i < |rs| && rs[i].cell == z {
        FirstIsOverflow(rs, p, i);
      } else {
        var i :| 0 < i < |qs| && qs[i].cell == z;
        FirstIsOverflow(qs, q, i);
      }
    }
  }

  /** What two listings of learnable states need to be absorbed alike is there in the configuration. */
  lemma LearnedNoClash(fmt: Format, space: Space, rs: seq<Row>, qs: seq<Row>, p: Learned, q: Learned)
    requires Printable(fmt) && GoodSpace(space) && NoClash(fmt, space, Seen(space), SecondCells(space))
    requires Learnable(space, p) && Learnable(space, q) && ListsState(rs, p) && ListsState(qs, q)
    requires GoodRows(space, Seen(space), rs) && GoodRows(space, Seen(space), qs)
    requires RowTokens(fmt, rs) == RowTokens(fmt, qs)
    ensures NoClash(fmt, space, Seen(space), Later(rs, qs))
  {
    hide Reads, Less, ListsState, Seen, GoodRows, WithinBudget, RowTokens, SecondCells, Later, Printed, ReadingArm;
    var inPlay, later := Seen(space), Later(rs, qs);
    if z: Name :| z in later && Reads(fmt, inPlay, z) {
      SameFirst(fmt, rs, qs);
      LaterOfSome(rs, qs, z);
      LaterAreSecond(fmt, space, rs, qs, p, q, z, z);
      forall a: Name, x: Name | ArmCell(space, later, a, x)
        ensures ArmCell(space, SecondCells(space), a, x)
      {
        LaterAreSecond(fmt, space, rs, qs, p, q, z, x);
      }
    }
  }

  lemma SameFirst(fmt: Format, rs: seq<Row>, qs: seq<Row>)
    requires Printable(fmt) && RowTokens(fmt, rs) == RowTokens(fmt, qs)
    ensures rs == [] <==> qs == []
    ensures rs != [] ==> rs[0].cell == qs[0].cell
  {
    hide Printed, EntryTokens, RowTokens;
    UnfoldRows(fmt, rs);
    UnfoldRows(fmt, qs);
    assert rs != [] ==> RowTokens(fmt, rs)[0] == rs[0].cell;
    assert qs != [] ==> RowTokens(fmt, qs)[0] == qs[0].cell;
  }

  lemma LaterOfSome(rs: seq<Row>, qs: seq<Row>, z: Name)
    requires z in Later(rs, qs)
    ensures rs != [] || qs != []
  {
  }

  lemma TwoCells(rows: seq<Row>, post: Learned, c: Name, x: Name)
    requires ListsState(rows, post) && RowNames(rows) == [c, x]
    ensures post.Keys == {c, x}
  {
    hide Less, ListsRow;
  }

  /** A good listing of two cells that fit the budget lists a state that updates reach. */
  lemma TwoCellsLearned(space: Space, rows: seq<Row>, x: Name) returns (us: seq<Outcome>)
    requires GoodSpace(space) && GoodRows(space, Seen(space), rows) && FullRows(rows)
    requires RowNames(rows) == [Anchor(space), x]
    ensures ListsState(rows, Learn(space, us))
  {
    hide Learn, Less, ListsState, Seen, GoodRows, FullRows, Holds, NoEmptyCell, StateMap;
    var post := StateMap(rows);
    StateMapListed(space, Seen(space), rows);
    TwoCells(rows, post, Anchor(space), x);
    us := LearnState(space, post);
  }

  /** Two updates-only states of one configuration with the same tokens. */
  lemma LearnedAlike(fmt: Format, space: Space, a: Name, x: Name, y: Name, w: Name, z: Name)
    requires Printable(fmt) && GoodSpace(space) && ArmCell(space, SecondCells(space), a, x)
    requires ReadingArm(fmt, space, Seen(space), y, w) && z in SecondCells(space) && Reads(fmt, Seen(space), z)
    ensures !IdentifiesLearned(fmt, space)
  {
    hide Reads, Less, Sanitize, Learn, ListsState, Seen, GoodRows, FullRows, Tokens, Absorb, RowTokens;
    AnchorIsClean(space);
    var rs, qs := MistakenEntry(fmt, space, Seen(space), Anchor(space), a, x, y, w, z);
    var us := TwoCellsLearned(space, rs, x);
    var vs := TwoCellsLearned(space, qs, z);
    SameRowTokens(fmt, space, rs, qs);
    assert SameStream(fmt, space, Learn(space, us), Learn(space, vs));
    if Learn(space, us) == Learn(space, vs) {
      ListingIsStable(rs, qs, Learn(space, us));
    }
  }

  lemma AnchorIsClean(space: Space)
    ensures Clean(Anchor(space))
  {
    AllowedIsKept(LEAST);
    AllowedIsKept(OVERFLOW_CELL);
  }

  lemma ListedAlike(fmt: Format, space: Space, p: Learned, q: Learned)
    requires Printable(fmt) && GoodSpace(space) && Tells(fmt, Seen(space))
    requires NoClash(fmt, space, Seen(space), SecondCells(space))
    requires Learnable(space, p) && Learnable(space, q) && SameStream(fmt, space, p, q)
    ensures p == q
  {
    hide ListsState, Holds, Seen, GoodRows, FullRows, NoEmptyCell, Tokens, Absorb, RowTokens, NoClash, Tells, WithinBudget,
      SecondCells, Later;
    var rs, qs :| ListsState(rs, p) && ListsState(qs, q)
      && Absorb(Tokens(fmt, space, rs)) == Absorb(Tokens(fmt, space, qs));
    SameRowTokens(fmt, space, rs, qs);
    ListingIsGood(space, Seen(space), rs, p);
    ListingIsGood(space, Seen(space), qs, q);
    LearnedNoClash(fmt, space, rs, qs, p, q);
    FullRowsDecode(fmt, space, Seen(space), rs, qs);
    StateDetermined(rs, p, q);
  }

  /**
   Over everything updates alone reach, the digest's bytes identify the state if and only if one of
   three things is missing: an arm, above another, that a second cell can be called; an arm, below
   another, that reads as a belief some counts leave; a second cell's name that does.
   */
  lemma IdentifiesLearnedExactly(fmt: Format, space: Space)
    requires Printable(fmt) && GoodSpace(space) && Tells(fmt, Seen(space))
    ensures IdentifiesLearned(fmt, space) <==> NoClash(fmt, space, Seen(space), SecondCells(space))
  {
    hide Learn, Learnable, Seen, Reads, Less, Tells, SameStream, SecondCells, ArmCell, ReadingArm;
    if NoClash(fmt, space, Seen(space), SecondCells(space)) {
      forall us, vs | SameStream(fmt, space, Learn(space, us), Learn(space, vs))
        ensures Learn(space, us) == Learn(space, vs)
      {
        LearnIsLearnable(space, us);
        LearnIsLearnable(space, vs);
        ListedAlike(fmt, space, Learn(space, us), Learn(space, vs));
      }
    } else {
      var a: Name, x: Name :| ArmCell(space, SecondCells(space), a, x);
      var y: Name, w: Name :| ReadingArm(fmt, space, Seen(space), y, w);
      var z: Name :| z in SecondCells(space) && Reads(fmt, Seen(space), z);
      LearnedAlike(fmt, space, a, x, y, w, z);
    }
  }

  /** Then equal digests of what two runs of updates learned mean equal states, or a collision. */
  lemma DigestDeterminesLearned(
      h: HashFn, fmt: Format, space: Space, us: seq<Outcome>, vs: seq<Outcome>, rs: seq<Row>, qs: seq<Row>)
    requires Printable(fmt) && GoodSpace(space) && Tells(fmt, Seen(space))
    requires NoClash(fmt, space, Seen(space), SecondCells(space))
    requires ListsState(rs, Learn(space, us)) && ListsState(qs, Learn(space, vs))
    requires StateDigest(h, fmt, space, rs) == StateDigest(h, fmt, space, qs)
    ensures || Learn(space, us) == Learn(space, vs)
            || Collision(h, {Absorb(Tokens(fmt, space, rs)), Absorb(Tokens(fmt, space, qs))})
  {
    hide Learn, NoClash, Tells, Seen, ListsState, Tokens, Absorb;
    HexInjective(h(Absorb(Tokens(fmt, space, rs))), h(Absorb(Tokens(fmt, space, qs))));
    IdentifiesLearnedExactly(fmt, space);
    if Absorb(Tokens(fmt, space, rs)) == Absorb(Tokens(fmt, space, qs)) {
      assert SameStream(fmt, space, Learn(space, us), Learn(space, vs));
    }
  }
}
