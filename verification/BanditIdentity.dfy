/**
 What the digest of the learned state identifies (internal/bandit/bandit.go): reading the token list
 back, and exactly the configurations in which it can be read in two ways.
 */
module BanditIdentity {
  import opened Framing
  import opened Names
  import opened BanditState
  import opened BanditRuns
  import opened BanditDigest

  // --------------------------------------------------------------------------
  // Listings a run can produce
  // --------------------------------------------------------------------------

  /** The belief both of whose parameters are one, and what it prints as. */
  const ONES: Posterior := Posterior(1.0, 1.0)
  const ONE_ONE: Name := [49, 58, 49]

  /** The beliefs in play print apart, and among them the uniform one as "1:1". */
  ghost predicate Numbers(fmt: Format, inPlay: iset<Posterior>) {
    Printable(fmt) && Tells(fmt, inPlay) && ONES in inPlay && fmt(1.0) == [49]
  }

  ghost predicate GoodEntry(space: Space, inPlay: iset<Posterior>, e: Entry) {
    e.arm in space.arms && IsBelief(e.belief) && e.belief in inPlay
  }

  /** The entries of one cell: known arms in order, proper beliefs. */
  ghost predicate GoodEntries(space: Space, inPlay: iset<Posterior>, es: seq<Entry>) {
    && (forall i, j :: 0 <= i < j < |es| ==> Less(es[i].arm, es[j].arm))
    && forall i :: 0 <= i < |es| ==> GoodEntry(space, inPlay, es[i])
  }

  predicate Clean(t: Name) { Sanitize(t) == t }

  /** The listing of a storable state: clean cells in order, each with good entries, perhaps none. */
  ghost predicate GoodRows(space: Space, inPlay: iset<Posterior>, rows: seq<Row>) {
    && (forall i, j :: 0 <= i < j < |rows| ==> Less(rows[i].cell, rows[j].cell))
    && forall i :: 0 <= i < |rows| ==> Clean(rows[i].cell) && GoodEntries(space, inPlay, rows[i].entries)
  }

  ghost predicate FullRows(rows: seq<Row>) { forall i :: 0 <= i < |rows| ==> rows[i].entries != [] }

  /** A storable state whose beliefs are all in play. */
  ghost predicate Holds(space: Space, inPlay: iset<Posterior>, post: Learned) {
    && Storable(space, post)
    && forall c, a :: c in post && a in post[c] ==> post[c][a] in inPlay
  }

  lemma EntriesOfRow(space: Space, inPlay: iset<Posterior>, es: seq<Entry>, row: Beliefs)
    requires ListsRow(es, row) && KnownRow(space, row)
    requires forall a :: a in row ==> row[a] in inPlay
    ensures GoodEntries(space, inPlay, es)
  {
    hide Less, IsBelief;
    var names := ArmNames(es);
    assert forall i :: 0 <= i < |es| ==> names[i] == es[i].arm;
  }

  lemma ListingIsGood(space: Space, inPlay: iset<Posterior>, rows: seq<Row>, post: Learned)
    requires ListsState(rows, post) && Holds(space, inPlay, post)
    ensures GoodRows(space, inPlay, rows)
    ensures NoEmptyCell(post) ==> FullRows(rows)
  {
    hide Less, Sanitize, KnownRow, ListsRow;
    var names := RowNames(rows);
    assert forall i :: 0 <= i < |rows| ==> names[i] == rows[i].cell;
    forall i | 0 <= i < |rows|
      ensures Clean(rows[i].cell) && GoodEntries(space, inPlay, rows[i].entries)
      ensures NoEmptyCell(post) ==> rows[i].entries != []
    {
      var row := post[rows[i].cell];
      EntriesOfRow(space, inPlay, rows[i].entries, row);
      if row != map[] {
        RowNotEmpty(rows[i].entries, row);
      }
    }
  }

  lemma RowNotEmpty(es: seq<Entry>, row: Beliefs)
    requires ListsRow(es, row) && row != map[]
    ensures es != []
  {
    hide Less;
    assert row.Keys != {};
    assert exists a :: a in row.Keys by {
      assert (forall a :: a !in row.Keys) ==> row.Keys == {};
    }
    var a :| a in row.Keys;
    var i := ListedAt(ArmNames(es), row.Keys, a);
  }

  function RowMap(es: seq<Entry>): Beliefs {
    if es == [] then map[] else RowMap(es[..|es| - 1])[es[|es| - 1].arm := es[|es| - 1].belief]
  }

  function StateMap(rows: seq<Row>): Learned {
    if rows == [] then map[] else StateMap(rows[..|rows| - 1])[rows[|rows| - 1].cell := RowMap(rows[|rows| - 1].entries)]
  }

  lemma {:induction false} RowMapListed(space: Space, inPlay: iset<Posterior>, es: seq<Entry>)
    requires GoodEntries(space, inPlay, es)
    ensures ListsRow(es, RowMap(es)) && KnownRow(space, RowMap(es))
    ensures forall a :: a in RowMap(es) ==> RowMap(es)[a] in inPlay
    ensures es != [] ==> RowMap(es) != map[]
  {
    hide Less, IsBelief, ListsRow, GoodEntries;
    if es == [] {
      assert ArmNames([]) == [];
      NoneListed();
    } else {
      var n := |es| - 1;
      RowMapInit(space, inPlay, es);
      RowMapListed(space, inPlay, es[..n]);
      assert es == es[..n] + [es[n]];
      EntriesOneMore(es[..n], RowMap(es[..n]), es[n]);
      assert es[n].arm in RowMap(es);
    }
  }

  lemma NoneListed()
    ensures ListsRow([], map[])
  {
    assert ArmNames([]) == [];
  }

  lemma RowMapInit(space: Space, inPlay: iset<Posterior>, es: seq<Entry>)
    requires GoodEntries(space, inPlay, es) && es != []
    ensures var n := |es| - 1;
            && GoodEntries(space, inPlay, es[..n]) && GoodEntry(space, inPlay, es[n])
            && forall i :: 0 <= i < n ==> Less(es[..n][i].arm, es[n].arm)
  {
    hide Less, IsBelief;
  }

  lemma EntriesOneMore(es: seq<Entry>, row: Beliefs, e: Entry)
    requires ListsRow(es, row) && forall i :: 0 <= i < |es| ==> Less(es[i].arm, e.arm)
    ensures ListsRow(es + [e], row[e.arm := e.belief])
  {
    hide Less;
    var names := ArmNames(es);
    assert ArmNames(es + [e]) == names + [e.arm];
    assert forall i :: 0 <= i < |es| ==> names[i] == es[i].arm;
    LessIrreflexive(e.arm);
    assert forall k :: k in row[e.arm := e.belief].Keys <==> k in names + [e.arm];
    assert forall i :: 0 <= i < |es| ==> es[i].arm != e.arm;
  }

  /** Every good listing is the listing of a storable state. */
  lemma {:induction false} StateMapListed(space: Space, inPlay: iset<Posterior>, rows: seq<Row>)
    requires GoodRows(space, inPlay, rows)
    ensures ListsState(rows, StateMap(rows)) && Holds(space, inPlay, StateMap(rows))
    ensures FullRows(rows) ==> NoEmptyCell(StateMap(rows))
  {
    hide Less, Sanitize, Clean, KnownRow, ListsRow, ListsState, GoodEntries, GoodRows, RowMap, Holds;
    if rows == [] {
      NothingListed(space, inPlay);
    } else {
      var n := |rows| - 1;
      var init, m := rows[..n], StateMap(rows[..n]);
      GoodInit(space, inPlay, rows);
      StateMapListed(space, inPlay, init);
      RowMapListed(space, inPlay, rows[n].entries);
      assert rows == init + [rows[n]];
      ListsOneMore(init, m, rows[n], RowMap(rows[n].entries));
      HoldsOneMore(space, inPlay, m, rows[n].cell, RowMap(rows[n].entries));
    }
  }

  lemma NothingListed(space: Space, inPlay: iset<Posterior>)
    ensures ListsState([], map[]) && Holds(space, inPlay, map[])
  {
    assert RowNames([]) == [];
  }

  lemma GoodInit(space: Space, inPlay: iset<Posterior>, rows: seq<Row>)
    requires GoodRows(space, inPlay, rows) && rows != []
    ensures var n := |rows| - 1;
            && GoodRows(space, inPlay, rows[..n]) && Clean(rows[n].cell) && GoodEntries(space, inPlay, rows[n].entries)
            && (forall i :: 0 <= i < n ==> Less(rows[..n][i].cell, rows[n].cell))
            && (FullRows(rows) ==> FullRows(rows[..n]) && rows[n].entries != [])
  {
    hide Less, Sanitize, GoodEntries;
  }

  lemma ListsOneMore(rows: seq<Row>, post: Learned, r: Row, row: Beliefs)
    requires ListsState(rows, post) && ListsRow(r.entries, row)
    requires forall i :: 0 <= i < |rows| ==> Less(rows[i].cell, r.cell)
    ensures ListsState(rows + [r], post[r.cell := row])
  {
    hide Less, ListsRow;
    var names := RowNames(rows);
    assert RowNames(rows + [r]) == names + [r.cell];
    assert forall i :: 0 <= i < |rows| ==> names[i] == rows[i].cell;
    LessIrreflexive(r.cell);
    assert forall k :: k in post[r.cell := row].Keys <==> k in names + [r.cell];
    assert forall i :: 0 <= i < |rows| ==> rows[i].cell != r.cell;
  }

  lemma HoldsOneMore(space: Space, inPlay: iset<Posterior>, post: Learned, c: Name, row: Beliefs)
    requires Holds(space, inPlay, post) && Clean(c) && KnownRow(space, row)
    requires forall a :: a in row ==> row[a] in inPlay
    ensures Holds(space, inPlay, post[c := row])
  {
    hide Sanitize, KnownRow;
  }

  // --------------------------------------------------------------------------
  // Names that can be taken for something else
  // --------------------------------------------------------------------------

  /** The least clean name, "-". */
  const LEAST: Name := [45]

  /** A text that a proper belief in play prints as. */
  ghost predicate Reads(fmt: Format, inPlay: iset<Posterior>, t: Text)
    requires Printable(fmt)
  {
    exists p :: IsBelief(p) && p in inPlay && Printed(fmt, p) == t
  }

  /** An arm that can stand where a cell does after another cell. */
  predicate IsCellLike(space: Space, x: Name) { x in space.arms && Clean(x) && x != LEAST }

  /**
   A cell-like arm, and either an arm that reads as a belief or a printed belief that could be a
   later cell.
   */
  ghost predicate Confusable(fmt: Format, space: Space, inPlay: iset<Posterior>)
    requires Printable(fmt)
  {
    exists x: Name :: IsCellLike(space, x)
      && ((exists y: Name :: y in space.arms && Reads(fmt, inPlay, y))
          || exists z: Name :: Reads(fmt, inPlay, z) && Clean(z) && Less(x, z))
  }

  /** A cell-like arm that is not the least arm, and an arm that reads as a belief and is not the greatest. */
  ghost predicate Mistakable(fmt: Format, space: Space, inPlay: iset<Posterior>)
    requires Printable(fmt)
  {
    && (exists a: Name, x: Name :: a in space.arms && IsCellLike(space, x) && Less(a, x))
    && exists y: Name, w: Name :: y in space.arms && w in space.arms && Reads(fmt, inPlay, y) && Less(y, w)
  }

  /** A later cell that an arm before it makes room for. */
  ghost predicate ArmCell(space: Space, later: iset<Name>, a: Name, x: Name) {
    a in space.arms && x in space.arms && x in later && Less(a, x)
  }

  /** An arm that reads as a belief, and one after it. */
  ghost predicate ReadingArm(fmt: Format, space: Space, inPlay: iset<Posterior>, y: Name, w: Name)
    requires Printable(fmt)
  {
    y in space.arms && w in space.arms && Reads(fmt, inPlay, y) && Less(y, w)
  }

  /** The clean names after `c`. */
  ghost function After(c: Name): iset<Name> { iset t: Name | Clean(t) && Less(c, t) }

  lemma CleanBytes(t: Name)
    requires Clean(t)
    ensures t != [] && forall i :: 0 <= i < |t| ==> t[i] >= 45
  {
  }

  lemma NothingCleanBelowLeast(c: Name, x: Name)
    requires Clean(c) && Less(c, x)
    ensures x != LEAST
  {
    hide Sanitize;
    CleanBytes(c);
  }

  lemma LeastIsLeast(x: Name)
    requires Clean(x) && x != LEAST
    ensures Less(LEAST, x)
  {
    hide Sanitize;
    CleanBytes(x);
    if x[0] == 45 {
      assert x == [45] + x[1..];
      assert LEAST[1..] == [];
    }
  }

  lemma GoodTail(space: Space, inPlay: iset<Posterior>, es: seq<Entry>)
    requires GoodEntries(space, inPlay, es) && es != []
    ensures GoodEntries(space, inPlay, es[1..]) && GoodEntry(space, inPlay, es[0])
    ensures es[1..] != [] ==> Less(es[0].arm, es[1].arm)
  {
    hide Less;
  }

  lemma GoodRest(space: Space, inPlay: iset<Posterior>, rows: seq<Row>)
    requires GoodRows(space, inPlay, rows) && rows != []
    ensures GoodRows(space, inPlay, rows[1..]) && Clean(rows[0].cell) && GoodEntries(space, inPlay, rows[0].entries)
    ensures rows[1..] != [] ==> Less(rows[0].cell, rows[1].cell)
    ensures FullRows(rows) ==> FullRows(rows[1..]) && rows[0].entries != []
  {
    hide Less, Sanitize, GoodEntries;
  }

  lemma BeliefReads(fmt: Format, space: Space, inPlay: iset<Posterior>, e: Entry)
    requires Printable(fmt) && GoodEntry(space, inPlay, e)
    ensures Reads(fmt, inPlay, Printed(fmt, e.belief))
  {
    hide Printed;
  }

  /** The tokens of the rest of a cell and of the cells after it. */
  ghost function Rest(fmt: Format, es: seq<Entry>, rows: seq<Row>): seq<Text>
    requires Printable(fmt)
  {
    EntryTokens(fmt, es) + RowTokens(fmt, rows)
  }

  lemma RestOfCell(fmt: Format, rows: seq<Row>)
    requires Printable(fmt)
    ensures rows == [] ==> Rest(fmt, [], rows) == []
    ensures rows != [] ==>
              && Rest(fmt, [], rows) != [] && Rest(fmt, [], rows)[0] == rows[0].cell
              && Rest(fmt, [], rows)[1..] == Rest(fmt, rows[0].entries, rows[1..])
  {
    hide Printed, EntryTokens, RowTokens;
    UnfoldRows(fmt, rows);
    if rows != [] {
      var t := Rest(fmt, rows[0].entries, rows[1..]);
      assert ([rows[0].cell] + t)[1..] == t;
    }
  }

  lemma UnfoldRows(fmt: Format, rows: seq<Row>)
    requires Printable(fmt)
    ensures EntryTokens(fmt, []) + RowTokens(fmt, rows) == RowTokens(fmt, rows)
    ensures rows == [] ==> RowTokens(fmt, rows) == []
    ensures rows != [] ==>
              RowTokens(fmt, rows) == [rows[0].cell] + (EntryTokens(fmt, rows[0].entries) + RowTokens(fmt, rows[1..]))
  {
    hide Printed;
    NoEntryTokens(fmt, []);
    if rows != [] {
      UnfoldRow(fmt, rows);
    }
  }

  lemma UnfoldRow(fmt: Format, rows: seq<Row>)
    requires Printable(fmt) && rows != []
    ensures RowTokens(fmt, rows) == [rows[0].cell] + (EntryTokens(fmt, rows[0].entries) + RowTokens(fmt, rows[1..]))
  {
    hide EntryTokens;
  }

  lemma RestOfEntry(fmt: Format, es: seq<Entry>, rows: seq<Row>)
    requires Printable(fmt) && es != []
    ensures var s := Rest(fmt, es, rows);
            && |s| >= 2 && s[0] == es[0].arm && s[1] == Printed(fmt, es[0].belief)
            && s[2..] == Rest(fmt, es[1..], rows)
  {
    FirstPair(fmt, es, RowTokens(fmt, rows));
  }

  // --------------------------------------------------------------------------
  // States with empty cells allowed
  // --------------------------------------------------------------------------

  /** Where one reading goes on with an entry and the other with a cell, the configuration is confusable. */
  lemma DivergenceConfuses(
      fmt: Format, space: Space, inPlay: iset<Posterior>, c: Name, fs: seq<Entry>, rs: seq<Row>, qs: seq<Row>)
    requires Printable(fmt) && Clean(c) && fs != [] && GoodEntries(space, inPlay, fs)
    requires GoodRows(space, inPlay, rs) && (rs != [] ==> Less(c, rs[0].cell))
    requires Rest(fmt, [], rs) == Rest(fmt, fs, qs)
    ensures Confusable(fmt, space, inPlay)
  {
    hide Printed, Sanitize, Less, Rest, Reads, GoodEntries, GoodRows, EntryTokens, RowTokens;
    RestOfCell(fmt, rs);
    RestOfEntry(fmt, fs, qs);
    GoodRest(space, inPlay, rs);
    GoodTail(space, inPlay, fs);
    var x, y, rows := rs[0].cell, Printed(fmt, fs[0].belief), rs[1..];
    NothingCleanBelowLeast(c, x);
    assert IsCellLike(space, x);
    BeliefReads(fmt, space, inPlay, fs[0]);
    var s := Rest(fmt, fs, qs);
    assert s[1..][0] == y;
    if rs[0].entries != [] {
      RestOfEntry(fmt, rs[0].entries, rows);
      GoodTail(space, inPlay, rs[0].entries);
      assert y in space.arms;
    } else {
      RestOfCell(fmt, rows);
      GoodRest(space, inPlay, rows);
      assert Reads(fmt, inPlay, y) && Clean(y) && Less(x, y);
    }
  }

  /** Unless it is, the tokens after a cell read back in one way. */
  lemma {:induction false} RestDecodes(
      fmt: Format, space: Space, inPlay: iset<Posterior>, c: Name, es: seq<Entry>, fs: seq<Entry>, rs: seq<Row>, qs: seq<Row>)
    requires Printable(fmt) && Tells(fmt, inPlay) && !Confusable(fmt, space, inPlay) && Clean(c)
    requires GoodEntries(space, inPlay, es) && GoodEntries(space, inPlay, fs)
    requires GoodRows(space, inPlay, rs) && GoodRows(space, inPlay, qs)
    requires (rs != [] ==> Less(c, rs[0].cell)) && (qs != [] ==> Less(c, qs[0].cell))
    requires Rest(fmt, es, rs) == Rest(fmt, fs, qs)
    ensures es == fs && rs == qs
    decreases |rs|, |es|
  {
    hide Printed, Sanitize, Less, Rest, Confusable, Tells, GoodEntries, GoodRows, IsBelief;
    if es != [] && fs != [] {
      RestOfEntry(fmt, es, rs);
      RestOfEntry(fmt, fs, qs);
      GoodTail(space, inPlay, es);
      GoodTail(space, inPlay, fs);
      SameBelief(fmt, inPlay, es[0].belief, fs[0].belief);
      RestDecodes(fmt, space, inPlay, c, es[1..], fs[1..], rs, qs);
      assert es == [es[0]] + es[1..] && fs == [fs[0]] + fs[1..];
    } else if es != [] {
      DivergenceConfuses(fmt, space, inPlay, c, es, qs, rs);
    } else if fs != [] {
      DivergenceConfuses(fmt, space, inPlay, c, fs, rs, qs);
    } else {
      RestOfCell(fmt, rs);
      RestOfCell(fmt, qs);
      if rs != [] && qs != [] {
        GoodRest(space, inPlay, rs);
        GoodRest(space, inPlay, qs);
        RestDecodes(fmt, space, inPlay, rs[0].cell, rs[0].entries, qs[0].entries, rs[1..], qs[1..]);
        assert rs == [rs[0]] + rs[1..] && qs == [qs[0]] + qs[1..];
      }
    }
  }

  /** The whole list reads back in one way, since what comes first can only be a cell. */
  lemma RowsDecode(fmt: Format, space: Space, inPlay: iset<Posterior>, rs: seq<Row>, qs: seq<Row>)
    requires Printable(fmt) && Tells(fmt, inPlay) && !Confusable(fmt, space, inPlay)
    requires GoodRows(space, inPlay, rs) && GoodRows(space, inPlay, qs) && RowTokens(fmt, rs) == RowTokens(fmt, qs)
    ensures rs == qs
  {
    hide Printed, Sanitize, Less, Rest, Confusable, Tells, GoodEntries, GoodRows;
    RowsAreRest(fmt, rs);
    RowsAreRest(fmt, qs);
    RestOfCell(fmt, rs);
    RestOfCell(fmt, qs);
    if rs != [] && qs != [] {
      GoodRest(space, inPlay, rs);
      GoodRest(space, inPlay, qs);
      RestDecodes(fmt, space, inPlay, rs[0].cell, rs[0].entries, qs[0].entries, rs[1..], qs[1..]);
      assert rs == [rs[0]] + rs[1..] && qs == [qs[0]] + qs[1..];
    }
  }

  lemma RowsAreRest(fmt: Format, rows: seq<Row>)
    requires Printable(fmt)
    ensures RowTokens(fmt, rows) == Rest(fmt, [], rows)
  {
    hide Printed;
  }

  // --------------------------------------------------------------------------
  // Two readings of one list
  // --------------------------------------------------------------------------

  /** Two different good listings with the same tokens. */
  ghost predicate ReadTwoWays(fmt: Format, space: Space, inPlay: iset<Posterior>, rs: seq<Row>, qs: seq<Row>)
    requires Printable(fmt)
  {
    && GoodRows(space, inPlay, rs) && GoodRows(space, inPlay, qs) && rs != qs
    && RowTokens(fmt, rs) == RowTokens(fmt, qs)
  }

  lemma OneEntry(fmt: Format, e: Entry)
    requires Printable(fmt)
    ensures EntryTokens(fmt, [e]) == [e.arm, Printed(fmt, e.belief)]
  {
    assert [e][1..] == [];
  }

  lemma TwoEntries(fmt: Format, a: Entry, b: Entry)
    requires Printable(fmt)
    ensures EntryTokens(fmt, [a, b]) == [a.arm, Printed(fmt, a.belief), b.arm, Printed(fmt, b.belief)]
  {
    hide Printed;
    assert [a, b][1..] == [b];
    OneEntry(fmt, b);
  }

  lemma TwoRows(fmt: Format, a: Row, b: Row)
    requires Printable(fmt)
    ensures RowTokens(fmt, [a, b])
         == [a.cell] + EntryTokens(fmt, a.entries) + ([b.cell] + EntryTokens(fmt, b.entries))
  {
    hide EntryTokens;
    assert [a, b][1..] == [b] && [b][1..] == [];
    assert RowTokens(fmt, [b]) == [b.cell] + EntryTokens(fmt, b.entries) + [];
  }

  lemma ThreeRows(fmt: Format, a: Row, b: Row, c: Row)
    requires Printable(fmt)
    ensures RowTokens(fmt, [a, b, c])
         == [a.cell] + EntryTokens(fmt, a.entries) + ([b.cell] + EntryTokens(fmt, b.entries)
            + ([c.cell] + EntryTokens(fmt, c.entries)))
  {
    hide EntryTokens;
    assert [a, b, c][1..] == [b, c] && [b, c][1..] == [c] && [c][1..] == [];
    assert RowTokens(fmt, [c]) == [c.cell] + EntryTokens(fmt, c.entries) + [];
    assert RowTokens(fmt, [b, c]) == [b.cell] + EntryTokens(fmt, b.entries) + RowTokens(fmt, [c]);
  }

  lemma OnesPrint(fmt: Format, inPlay: iset<Posterior>)
    requires Numbers(fmt, inPlay)
    ensures Printed(fmt, ONES) == ONE_ONE && Reads(fmt, inPlay, ONE_ONE) && Clean(ONE_ONE) && Clean(LEAST)
    ensures Less(LEAST, ONE_ONE)
  {
    AllowedIsKept(ONE_ONE);
    AllowedIsKept(LEAST);
    assert IsBelief(ONES) && Printed(fmt, ONES) == ONE_ONE;
  }

  lemma SmallRows(space: Space, inPlay: iset<Posterior>, a: Row, b: Row)
    requires Less(a.cell, b.cell) && Clean(a.cell) && Clean(b.cell)
    requires GoodEntries(space, inPlay, a.entries) && GoodEntries(space, inPlay, b.entries)
    ensures GoodRows(space, inPlay, [a, b])
  {
    hide Less, Sanitize, GoodEntries;
  }

  lemma SmallEntries(space: Space, inPlay: iset<Posterior>, e: Entry)
    requires GoodEntry(space, inPlay, e)
    ensures GoodEntries(space, inPlay, [e]) && GoodEntries(space, inPlay, [])
  {
    hide Less;
  }

  lemma EntryPair(space: Space, inPlay: iset<Posterior>, e: Entry, f: Entry)
    requires GoodEntry(space, inPlay, e) && GoodEntry(space, inPlay, f) && Less(e.arm, f.arm)
    ensures GoodEntries(space, inPlay, [e, f])
  {
    hide Less;
  }

  /** A printed belief that can be a later cell: one arm in one cell, or three empty cells. */
  lemma LaterCellConfuses(fmt: Format, space: Space, inPlay: iset<Posterior>, x: Name, z: Name)
      returns (rs: seq<Row>, qs: seq<Row>)
    requires Numbers(fmt, inPlay) && IsCellLike(space, x) && Reads(fmt, inPlay, z) && Clean(z) && Less(x, z)
    ensures ReadTwoWays(fmt, space, inPlay, rs, qs)
  {
    hide Less, Sanitize;
    OnesPrint(fmt, inPlay);
    LeastIsLeast(x);
    LessTransitive(LEAST, x, z);
    var p :| IsBelief(p) && p in inPlay && Printed(fmt, p) == z;
    var e := Entry(x, p);
    rs, qs := [Row(LEAST, [e])], [Row(LEAST, []), Row(x, []), Row(z, [])];
    OneEntry(fmt, e);
    assert rs[1..] == [];
    ThreeRows(fmt, qs[0], qs[1], qs[2]);
    assert RowTokens(fmt, rs) == [LEAST, x, z] && RowTokens(fmt, qs) == [LEAST, x, z];
  }

  /** An arm that reads as a belief: an empty cell may come first or last. */
  lemma ReadingArmConfuses(fmt: Format, space: Space, inPlay: iset<Posterior>, x: Name, y: Name)
      returns (rs: seq<Row>, qs: seq<Row>)
    requires Numbers(fmt, inPlay) && IsCellLike(space, x) && y in space.arms && Reads(fmt, inPlay, y)
    ensures ReadTwoWays(fmt, space, inPlay, rs, qs)
  {
    hide Less, Sanitize, Reads;
    OnesPrint(fmt, inPlay);
    LeastIsLeast(x);
    var p := BeliefOf(fmt, inPlay, y);
    var e, f := Entry(y, ONES), Entry(x, p);
    rs, qs := [Row(LEAST, []), Row(x, [e])], [Row(LEAST, [f]), Row(ONE_ONE, [])];
    SmallEntries(space, inPlay, e);
    SmallEntries(space, inPlay, f);
    SmallRows(space, inPlay, rs[0], rs[1]);
    SmallRows(space, inPlay, qs[0], qs[1]);
    OneEntry(fmt, e);
    OneEntry(fmt, f);
    TwoRows(fmt, rs[0], rs[1]);
    TwoRows(fmt, qs[0], qs[1]);
    assert RowTokens(fmt, rs) == [LEAST, x, y, ONE_ONE] && RowTokens(fmt, qs) == [LEAST, x, y, ONE_ONE];
  }

  lemma BeliefOf(fmt: Format, inPlay: iset<Posterior>, y: Text) returns (p: Posterior)
    requires Printable(fmt) && Reads(fmt, inPlay, y)
    ensures IsBelief(p) && p in inPlay && Printed(fmt, p) == y
  {
    hide Printed;
    p :| IsBelief(p) && p in inPlay && Printed(fmt, p) == y;
  }

  /** With no empty cell, two cells that share an entry between them. */
  lemma MistakenEntry(
      fmt: Format, space: Space, inPlay: iset<Posterior>, c: Name, a: Name, x: Name, y: Name, w: Name, z: Name)
      returns (rs: seq<Row>, qs: seq<Row>)
    requires Printable(fmt) && Clean(c) && ArmCell(space, After(c), a, x) && ReadingArm(fmt, space, inPlay, y, w)
    requires z in After(c) && Reads(fmt, inPlay, z)
    ensures ReadTwoWays(fmt, space, inPlay, rs, qs) && FullRows(rs) && FullRows(qs)
    ensures RowNames(rs) == [c, x] && RowNames(qs) == [c, z]
  {
    hide Less, Sanitize, Reads;
    var py := BeliefOf(fmt, inPlay, y);
    var pz := BeliefOf(fmt, inPlay, z);
    var ea, ex, ey, ew := Entry(a, pz), Entry(x, py), Entry(y, pz), Entry(w, pz);
    rs, qs := [Row(c, [ea]), Row(x, [ey, ew])], [Row(c, [ea, ex]), Row(z, [ew])];
    SmallEntries(space, inPlay, ea);
    SmallEntries(space, inPlay, ew);
    EntryPair(space, inPlay, ey, ew);
    EntryPair(space, inPlay, ea, ex);
    SmallRows(space, inPlay, rs[0], rs[1]);
    SmallRows(space, inPlay, qs[0], qs[1]);
    OneEntry(fmt, ea);
    OneEntry(fmt, ew);
    TwoEntries(fmt, ey, ew);
    TwoEntries(fmt, ea, ex);
    TwoRows(fmt, rs[0], rs[1]);
    TwoRows(fmt, qs[0], qs[1]);
    assert RowTokens(fmt, rs) == [c, a, z, x, y, z, w, z];
    assert RowTokens(fmt, qs) == [c, a, z, x, y, z, w, z];
  }

  // --------------------------------------------------------------------------
  // States without empty cells
  // --------------------------------------------------------------------------

  /** Every cell of the rows is one of `later`. */
  ghost predicate CellsIn(rows: seq<Row>, later: iset<Name>) {
    forall i :: 0 <= i < |rows| ==> rows[i].cell in later
  }

  /** One of the three things that two readings of one list need is missing. */
  ghost predicate NoClash(fmt: Format, space: Space, inPlay: iset<Posterior>, later: iset<Name>)
    requires Printable(fmt)
  {
    || (forall a: Name, x: Name :: !ArmCell(space, later, a, x))
    || (forall y: Name, w: Name :: !ReadingArm(fmt, space, inPlay, y, w))
    || (forall z: Name :: z in later ==> !Reads(fmt, inPlay, z))
  }

  lemma Clashes(
      fmt: Format, space: Space, inPlay: iset<Posterior>, later: iset<Name>, a: Name, x: Name, y: Name, w: Name, z: Name)
    requires Printable(fmt) && ArmCell(space, later, a, x) && ReadingArm(fmt, space, inPlay, y, w)
    requires z in later && Reads(fmt, inPlay, z)
    ensures !NoClash(fmt, space, inPlay, later)
  {
    hide Reads, ArmCell, ReadingArm;
  }

  lemma RestCells(rows: seq<Row>, later: iset<Name>)
    requires CellsIn(rows, later) && rows != []
    ensures rows[0].cell in later && CellsIn(rows[1..], later)
  {
  }

  /**
   Two readings that have come apart meet again only where each of the three is found: an arm that was
   taken for a cell, an arm that reads as a belief below another arm, and a later cell that reads as a
   belief. Here one reading has the belief of an arm before it, an arm the other took for a belief,
   and the other is between entries.
   */
  lemma {:induction false} NeverMeet(
      fmt: Format, space: Space, inPlay: iset<Posterior>, later: iset<Name>, a: Name, x: Name,
      e: Entry, es: seq<Entry>, rs: seq<Row>, fs: seq<Entry>, qs: seq<Row>)
    requires Printable(fmt) && NoClash(fmt, space, inPlay, later) && ArmCell(space, later, a, x)
    requires GoodEntry(space, inPlay, e) && Reads(fmt, inPlay, e.arm) && (es != [] ==> Less(e.arm, es[0].arm))
    requires GoodEntries(space, inPlay, es) && GoodEntries(space, inPlay, fs)
    requires GoodRows(space, inPlay, rs) && GoodRows(space, inPlay, qs) && FullRows(rs) && FullRows(qs)
    requires CellsIn(rs, later) && CellsIn(qs, later)
    ensures [Printed(fmt, e.belief)] + Rest(fmt, es, rs) != Rest(fmt, fs, qs)
    decreases |Rest(fmt, fs, qs)|
  {
    hide Printed, Less, Rest, Reads, NoClash, ArmCell, CellsIn, GoodEntries, GoodRows, FullRows, EntryTokens, RowTokens;
    var s, t := [Printed(fmt, e.belief)] + Rest(fmt, es, rs), Rest(fmt, fs, qs);
    if s == t {
      assert s[1..] == Rest(fmt, es, rs);
      BeliefReads(fmt, space, inPlay, e);
      if fs != [] {
        RestOfEntry(fmt, fs, qs);
        GoodTail(space, inPlay, fs);
        assert t[1..] == [Printed(fmt, fs[0].belief)] + t[2..];
        NeverMeet(fmt, space, inPlay, later, a, x, fs[0], fs[1..], qs, es, rs);
      } else {
        RestOfCell(fmt, qs);
        GoodRest(space, inPlay, qs);
        RestCells(qs, later);
        if es != [] {
          GoodTail(space, inPlay, es);
          Clashes(fmt, space, inPlay, later, a, x, e.arm, es[0].arm, qs[0].cell);
        } else {
          NeverMeetInCell(fmt, space, inPlay, later, a, x, qs[0].entries, qs[1..], rs);
        }
      }
    }
  }

  /** One reading is about to read a cell, the other the first arm of one. */
  lemma {:induction false} NeverMeetInCell(
      fmt: Format, space: Space, inPlay: iset<Posterior>, later: iset<Name>, a: Name, x: Name,
      fs: seq<Entry>, qs: seq<Row>, rs: seq<Row>)
    requires Printable(fmt) && NoClash(fmt, space, inPlay, later) && ArmCell(space, later, a, x)
    requires fs != [] && GoodEntries(space, inPlay, fs)
    requires GoodRows(space, inPlay, rs) && GoodRows(space, inPlay, qs) && FullRows(rs) && FullRows(qs)
    requires CellsIn(rs, later) && CellsIn(qs, later)
    ensures Rest(fmt, fs, qs) != Rest(fmt, [], rs)
    decreases |Rest(fmt, fs, qs)|
  {
    hide Printed, Less, Rest, Reads, NoClash, ArmCell, CellsIn, GoodEntries, GoodRows, FullRows, EntryTokens, RowTokens;
    var s, t := Rest(fmt, fs, qs), Rest(fmt, [], rs);
    if s == t {
      RestOfEntry(fmt, fs, qs);
      GoodTail(space, inPlay, fs);
      RestOfCell(fmt, rs);
      GoodRest(space, inPlay, rs);
      RestCells(rs, later);
      var gs := rs[0].entries;
      RestOfEntry(fmt, gs, rs[1..]);
      GoodTail(space, inPlay, gs);
      BeliefReads(fmt, space, inPlay, fs[0]);
      assert t[1..][1..] == t[2..] && t[1..][2..] == Rest(fmt, gs[1..], rs[1..]);
      assert s[2..] == [Printed(fmt, gs[0].belief)] + Rest(fmt, gs[1..], rs[1..]);
      NeverMeet(fmt, space, inPlay, later, a, x, gs[0], gs[1..], rs[1..], fs[1..], qs);
    }
  }

  /** After arm `a`, one reading goes on with an entry and the other with a cell. */
  lemma FullDivergence(
      fmt: Format, space: Space, inPlay: iset<Posterior>, later: iset<Name>, a: Name,
      fs: seq<Entry>, rs: seq<Row>, qs: seq<Row>)
    requires Printable(fmt) && a in space.arms && NoClash(fmt, space, inPlay, later)
    requires fs != [] && GoodEntries(space, inPlay, fs) && Less(a, fs[0].arm)
    requires GoodRows(space, inPlay, rs) && GoodRows(space, inPlay, qs) && FullRows(rs) && FullRows(qs)
    requires CellsIn(rs, later) && CellsIn(qs, later)
    ensures Rest(fmt, fs, qs) != Rest(fmt, [], rs)
  {
    hide Printed, Less, Rest, Reads, NoClash, CellsIn, GoodEntries, GoodRows, FullRows, EntryTokens, RowTokens;
    if Rest(fmt, fs, qs) == Rest(fmt, [], rs) {
      RestOfEntry(fmt, fs, qs);
      RestOfCell(fmt, rs);
      GoodTail(space, inPlay, fs);
      RestCells(rs, later);
      NeverMeetInCell(fmt, space, inPlay, later, a, fs[0].arm, fs, qs, rs);
    }
  }

  lemma {:induction false} FullRestDecodes(
      fmt: Format, space: Space, inPlay: iset<Posterior>, later: iset<Name>, a: Name,
      es: seq<Entry>, fs: seq<Entry>, rs: seq<Row>, qs: seq<Row>)
    requires Printable(fmt) && Tells(fmt, inPlay) && NoClash(fmt, space, inPlay, later) && a in space.arms
    requires GoodEntries(space, inPlay, es) && GoodEntries(space, inPlay, fs)
    requires (es != [] ==> Less(a, es[0].arm)) && (fs != [] ==> Less(a, fs[0].arm))
    requires GoodRows(space, inPlay, rs) && GoodRows(space, inPlay, qs) && FullRows(rs) && FullRows(qs)
    requires CellsIn(rs, later) && CellsIn(qs, later)
    requires Rest(fmt, es, rs) == Rest(fmt, fs, qs)
    ensures es == fs && rs == qs
    decreases |rs|, |es| + 1
  {
    hide Printed, Less, Rest, NoClash, Tells, CellsIn, GoodEntries, GoodRows, FullRows, IsBelief;
    if es != [] && fs != [] {
      RestOfEntry(fmt, es, rs);
      RestOfEntry(fmt, fs, qs);
      GoodTail(space, inPlay, es);
      GoodTail(space, inPlay, fs);
      SameBelief(fmt, inPlay, es[0].belief, fs[0].belief);
      FullRestDecodes(fmt, space, inPlay, later, es[0].arm, es[1..], fs[1..], rs, qs);
      assert es == [es[0]] + es[1..] && fs == [fs[0]] + fs[1..];
    } else if es != [] {
      FullDivergence(fmt, space, inPlay, later, a, es, qs, rs);
    } else if fs != [] {
      FullDivergence(fmt, space, inPlay, later, a, fs, rs, qs);
    } else {
      if rs != [] {
        RestCells(rs, later);
      }
      if qs != [] {
        RestCells(qs, later);
      }
      FullRowsFrom(fmt, space, inPlay, later, rs, qs);
    }
  }

  /** Whole cells: each starts with its name and an entry, so both readings take those two alike. */
  lemma {:induction false} FullRowsFrom(
      fmt: Format, space: Space, inPlay: iset<Posterior>, later: iset<Name>, rs: seq<Row>, qs: seq<Row>)
    requires Printable(fmt) && Tells(fmt, inPlay) && NoClash(fmt, space, inPlay, later)
    requires GoodRows(space, inPlay, rs) && GoodRows(space, inPlay, qs) && FullRows(rs) && FullRows(qs)
    requires (rs != [] ==> CellsIn(rs[1..], later)) && (qs != [] ==> CellsIn(qs[1..], later))
    requires Rest(fmt, [], rs) == Rest(fmt, [], qs)
    ensures rs == qs
    decreases |rs|, 0
  {
    hide Printed, Less, Rest, NoClash, Tells, CellsIn, GoodEntries, GoodRows, FullRows, IsBelief;
    RestOfCell(fmt, rs);
    RestOfCell(fmt, qs);
    if rs != [] && qs != [] {
      GoodRest(space, inPlay, rs);
      GoodRest(space, inPlay, qs);
      var es, fs := rs[0].entries, qs[0].entries;
      RestOfEntry(fmt, es, rs[1..]);
      RestOfEntry(fmt, fs, qs[1..]);
      GoodTail(space, inPlay, es);
      GoodTail(space, inPlay, fs);
      SameBelief(fmt, inPlay, es[0].belief, fs[0].belief);
      FullRestDecodes(fmt, space, inPlay, later, es[0].arm, es[1..], fs[1..], rs[1..], qs[1..]);
      assert es == [es[0]] + es[1..] && fs == [fs[0]] + fs[1..];
      assert rs == [rs[0]] + rs[1..] && qs == [qs[0]] + qs[1..];
    }
  }

  /** The cells after the first of either listing. */
  ghost function Later(rs: seq<Row>, qs: seq<Row>): iset<Name> {
    (iset i | 0 < i < |rs| :: rs[i].cell) + (iset i | 0 < i < |qs| :: qs[i].cell)
  }

  /** The whole list reads back in one way, if one of the three is missing. */
  lemma FullRowsDecode(fmt: Format, space: Space, inPlay: iset<Posterior>, rs: seq<Row>, qs: seq<Row>)
    requires Printable(fmt) && Tells(fmt, inPlay) && NoClash(fmt, space, inPlay, Later(rs, qs))
    requires GoodRows(space, inPlay, rs) && GoodRows(space, inPlay, qs) && FullRows(rs) && FullRows(qs)
    requires RowTokens(fmt, rs) == RowTokens(fmt, qs)
    ensures rs == qs
  {
    hide Printed, Less, Rest, NoClash, Tells, GoodRows, FullRows, RowTokens;
    RowsAreRest(fmt, rs);
    RowsAreRest(fmt, qs);
    FullRowsFrom(fmt, space, inPlay, Later(rs, qs), rs, qs);
  }

  /** Cells after the first are clean and not the least name. */
  lemma LaterCells(space: Space, inPlay: iset<Posterior>, rs: seq<Row>, qs: seq<Row>, t: Name)
    requires GoodRows(space, inPlay, rs) && GoodRows(space, inPlay, qs) && t in Later(rs, qs)
    ensures Clean(t) && t != LEAST
  {
    hide Sanitize, Less, GoodEntries;
    if i :| 0 < i < |rs| && rs[i].cell == t {
      NothingCleanBelowLeast(rs[0].cell, t);
    } else {
      var i :| 0 < i < |qs| && qs[i].cell == t;
      NothingCleanBelowLeast(qs[0].cell, t);
    }
  }

  lemma NotMistakableNoClash(fmt: Format, space: Space, inPlay: iset<Posterior>, rs: seq<Row>, qs: seq<Row>)
    requires Printable(fmt) && !Mistakable(fmt, space, inPlay)
    requires GoodRows(space, inPlay, rs) && GoodRows(space, inPlay, qs)
    ensures NoClash(fmt, space, inPlay, Later(rs, qs))
  {
    hide Sanitize, Less, Reads, GoodRows, Later;
    forall a: Name, x: Name | ArmCell(space, Later(rs, qs), a, x)
      ensures IsCellLike(space, x)
    {
      LaterCells(space, inPlay, rs, qs, x);
    }
  }

  // --------------------------------------------------------------------------
  // The exact conditions
  // --------------------------------------------------------------------------

  /** Two states of one configuration that absorb the same bytes. */
  ghost predicate SameStream(fmt: Format, space: Space, p: Learned, q: Learned)
    requires Printable(fmt)
  {
    exists rs, qs :: ListsState(rs, p) && ListsState(qs, q) && Absorb(Tokens(fmt, space, rs)) == Absorb(Tokens(fmt, space, qs))
  }

  /** The absorbed bytes identify each state a run can reach. */
  ghost predicate IdentifiesStates(fmt: Format, space: Space, inPlay: iset<Posterior>)
    requires Printable(fmt)
  {
    forall p, q :: Holds(space, inPlay, p) && Holds(space, inPlay, q) && SameStream(fmt, space, p, q) ==> p == q
  }

  /** They identify each that has no empty cell. */
  ghost predicate IdentifiesFullStates(fmt: Format, space: Space, inPlay: iset<Posterior>)
    requires Printable(fmt)
  {
    forall p, q ::
      Holds(space, inPlay, p) && Holds(space, inPlay, q) && NoEmptyCell(p) && NoEmptyCell(q) && SameStream(fmt, space, p, q)
      ==> p == q
  }

  lemma SameRowTokens(fmt: Format, space: Space, rs: seq<Row>, qs: seq<Row>)
    requires Printable(fmt)
    ensures Absorb(Tokens(fmt, space, rs)) == Absorb(Tokens(fmt, space, qs)) <==> RowTokens(fmt, rs) == RowTokens(fmt, qs)
  {
    hide Printed, RowTokens, Absorb;
    var s, t, n := Tokens(fmt, space, rs), Tokens(fmt, space, qs), 2 + |space.arms|;
    assert RowTokens(fmt, rs) == s[n..] && RowTokens(fmt, qs) == t[n..];
    if Absorb(s) == Absorb(t) {
      AbsorbInjective(s, t);
    }
  }

  /** They list two different states that absorb the same bytes. */
  lemma TwoStates(fmt: Format, space: Space, inPlay: iset<Posterior>, rs: seq<Row>, qs: seq<Row>)
    requires Printable(fmt) && ReadTwoWays(fmt, space, inPlay, rs, qs)
    ensures !IdentifiesStates(fmt, space, inPlay)
    ensures FullRows(rs) && FullRows(qs) ==> !IdentifiesFullStates(fmt, space, inPlay)
  {
    hide RowTokens, Tokens, Absorb, GoodRows, ListsState, Holds, StateMap, NoEmptyCell, FullRows;
    StateMapListed(space, inPlay, rs);
    StateMapListed(space, inPlay, qs);
    SameRowTokens(fmt, space, rs, qs);
    var p, q := StateMap(rs), StateMap(qs);
    if p == q {
      ListingIsStable(rs, qs, p);
    }
    assert SameStream(fmt, space, p, q);
  }

  /**
   Over everything runs of updates and restores reach, the digest's bytes identify the state if and
   only if the configuration is not confusable.
   */
  lemma IdentifiesStatesExactly(fmt: Format, space: Space, inPlay: iset<Posterior>)
    requires Numbers(fmt, inPlay)
    ensures IdentifiesStates(fmt, space, inPlay) <==> !Confusable(fmt, space, inPlay)
  {
    hide RowTokens, Tokens, Absorb, GoodRows, ListsState, Holds, Reads, Less, IsCellLike, Tells, Sanitize;
    if Confusable(fmt, space, inPlay) {
      var x: Name :| IsCellLike(space, x)
        && ((exists y: Name :: y in space.arms && Reads(fmt, inPlay, y))
            || exists z: Name :: Reads(fmt, inPlay, z) && Clean(z) && Less(x, z));
      var rs, qs;
      if exists y: Name :: y in space.arms && Reads(fmt, inPlay, y) {
        var y: Name :| y in space.arms && Reads(fmt, inPlay, y);
        rs, qs := ReadingArmConfuses(fmt, space, inPlay, x, y);
      } else {
        var z: Name :| Reads(fmt, inPlay, z) && Clean(z) && Less(x, z);
        rs, qs := LaterCellConfuses(fmt, space, inPlay, x, z);
      }
      TwoStates(fmt, space, inPlay, rs, qs);
    } else {
      forall p, q | Holds(space, inPlay, p) && Holds(space, inPlay, q) && SameStream(fmt, space, p, q)
        ensures p == q
      {
        var rs, qs :| ListsState(rs, p) && ListsState(qs, q)
          && Absorb(Tokens(fmt, space, rs)) == Absorb(Tokens(fmt, space, qs));
        SameRowTokens(fmt, space, rs, qs);
        ListingIsGood(space, inPlay, rs, p);
        ListingIsGood(space, inPlay, qs, q);
        RowsDecode(fmt, space, inPlay, rs, qs);
        StateDetermined(rs, p, q);
      }
    }
  }

  /** Over those without empty cells, if and only if it is not mistakable. */
  lemma IdentifiesFullStatesExactly(fmt: Format, space: Space, inPlay: iset<Posterior>)
    requires Numbers(fmt, inPlay)
    ensures IdentifiesFullStates(fmt, space, inPlay) <==> !Mistakable(fmt, space, inPlay)
  {
    hide RowTokens, Tokens, Absorb, GoodRows, ListsState, Holds, Reads, Less, Clean, Tells, FullRows, NoEmptyCell, Rest;
    if Mistakable(fmt, space, inPlay) {
      var a: Name, x: Name :| a in space.arms && IsCellLike(space, x) && Less(a, x);
      var y: Name, w: Name :| y in space.arms && w in space.arms && Reads(fmt, inPlay, y) && Less(y, w);
      OnesPrint(fmt, inPlay);
      LeastIsLeast(x);
      var rs, qs := MistakenEntry(fmt, space, inPlay, LEAST, a, x, y, w, ONE_ONE);
      TwoStates(fmt, space, inPlay, rs, qs);
    } else {
      forall p, q | && Holds(space, inPlay, p) && Holds(space, inPlay, q) && NoEmptyCell(p) && NoEmptyCell(q)
                    && SameStream(fmt, space, p, q)
        ensures p == q
      {
        var rs, qs :| ListsState(rs, p) && ListsState(qs, q)
          && Absorb(Tokens(fmt, space, rs)) == Absorb(Tokens(fmt, space, qs));
        SameRowTokens(fmt, space, rs, qs);
        ListingIsGood(space, inPlay, rs, p);
        ListingIsGood(space, inPlay, qs, q);
        NotMistakableNoClash(fmt, space, inPlay, rs, qs);
        FullRowsDecode(fmt, space, inPlay, rs, qs);
        StateDetermined(rs, p, q);
      }
    }
  }

  // --------------------------------------------------------------------------
  // The digest
  // --------------------------------------------------------------------------

  /**
   In a configuration that is not confusable, or for states without empty cells in one that is not
   mistakable, equal digests mean equal states, or the two absorbed streams collide.
   */
  lemma DigestDeterminesState(
      h: HashFn, fmt: Format, space: Space, inPlay: iset<Posterior>, p: Learned, q: Learned, rs: seq<Row>, qs: seq<Row>)
    requires Numbers(fmt, inPlay) && Holds(space, inPlay, p) && Holds(space, inPlay, q)
    requires || !Confusable(fmt, space, inPlay)
             || (NoEmptyCell(p) && NoEmptyCell(q) && !Mistakable(fmt, space, inPlay))
    requires ListsState(rs, p) && ListsState(qs, q)
    requires StateDigest(h, fmt, space, rs) == StateDigest(h, fmt, space, qs)
    ensures p == q || Collision(h, {Absorb(Tokens(fmt, space, rs)), Absorb(Tokens(fmt, space, qs))})
  {
    hide Numbers, Holds, Confusable, Mistakable, NoEmptyCell, ListsState, Tokens, Absorb;
    NumbersPrint(fmt, inPlay);
    HexInjective(h(Absorb(Tokens(fmt, space, rs))), h(Absorb(Tokens(fmt, space, qs))));
    IdentifiesStatesExactly(fmt, space, inPlay);
    IdentifiesFullStatesExactly(fmt, space, inPlay);
    if Absorb(Tokens(fmt, space, rs)) == Absorb(Tokens(fmt, space, qs)) {
      assert SameStream(fmt, space, p, q);
    }
  }

  lemma NumbersPrint(fmt: Format, inPlay: iset<Posterior>)
    requires Numbers(fmt, inPlay)
    ensures Printable(fmt) && Tells(fmt, inPlay)
  {
  }

  /** Arms that start with a letter, and numbers that start with a digit: never confusable. */
  lemma LetterNamesAreSafe(fmt: Format, space: Space, inPlay: iset<Posterior>)
    requires Printable(fmt)
    requires forall a :: a in space.arms ==> a != [] && (65 <= a[0] <= 90 || 97 <= a[0] <= 122)
    requires forall p :: p in inPlay ==> fmt(p.alpha) != [] && 48 <= fmt(p.alpha)[0] <= 57
    ensures !Confusable(fmt, space, inPlay)
  {
    hide Sanitize;
    forall t | Reads(fmt, inPlay, t)
      ensures t != [] && 48 <= t[0] <= 57
    {
      var p := BeliefOf(fmt, inPlay, t);
      assert Printed(fmt, p)[0] == fmt(p.alpha)[0];
    }
  }

  // --------------------------------------------------------------------------
  // The configuration
  // --------------------------------------------------------------------------

  /** No arm reads as a belief. */
  ghost predicate PlainArms(fmt: Format, space: Space, inPlay: iset<Posterior>)
    requires Printable(fmt)
  {
    forall a :: a in space.arms ==> !Reads(fmt, inPlay, a)
  }

  lemma ReadingHasColon(fmt: Format, inPlay: iset<Posterior>, t: Text)
    requires Printable(fmt)
    ensures Reads(fmt, inPlay, t) ==> HasColon(t)
  {
    forall p
      ensures HasColon(Printed(fmt, p))
    {
      assert Printed(fmt, p)[|fmt(p.alpha)|] == COLON;
    }
  }

  /** A name without a colon never reads as a belief, and arms that do not are never mistaken. */
  lemma PlainNamesAreSafe(fmt: Format, space: Space, inPlay: iset<Posterior>)
    requires Printable(fmt) && forall a :: a in space.arms ==> !HasColon(a)
    ensures PlainArms(fmt, space, inPlay) && !Mistakable(fmt, space, inPlay)
  {
    hide Less, IsCellLike, Reads, HasColon;
    forall a | a in space.arms
      ensures !Reads(fmt, inPlay, a)
    {
      ReadingHasColon(fmt, inPlay, a);
    }
    PlainIsNotMistakable(fmt, space, inPlay);
  }

  lemma PlainIsNotMistakable(fmt: Format, space: Space, inPlay: iset<Posterior>)
    requires Printable(fmt) && PlainArms(fmt, space, inPlay)
    ensures !Mistakable(fmt, space, inPlay)
  {
    hide Reads, Less, IsCellLike;
  }

  /** The tokens after the version and the prior. */
  ghost function AfterPrior(fmt: Format, space: Space, rows: seq<Row>): seq<Text>
    requires Printable(fmt)
  {
    space.arms + RowTokens(fmt, rows)
  }

  /** After the arms come a cell, an arm of the configuration and a belief, if anything does. */
  lemma FirstTokens(fmt: Format, space: Space, inPlay: iset<Posterior>, rows: seq<Row>)
    requires Printable(fmt) && GoodRows(space, inPlay, rows) && FullRows(rows)
    ensures var s, n := AfterPrior(fmt, space, rows), |space.arms|;
            |s| > n ==> |s| >= n + 3 && s[n + 1] in space.arms && Reads(fmt, inPlay, s[n + 2])
  {
    hide Printed, Sanitize, Less, Reads, GoodRows, FullRows, Rest, EntryTokens, RowTokens, GoodEntries;
    RowsAreRest(fmt, rows);
    RestOfCell(fmt, rows);
    var t, n := RowTokens(fmt, rows), |space.arms|;
    assert AfterPrior(fmt, space, rows)[n..] == t;
    if rows != [] {
      GoodRest(space, inPlay, rows);
      RestOfEntry(fmt, rows[0].entries, rows[1..]);
      GoodTail(space, inPlay, rows[0].entries);
      BeliefReads(fmt, space, inPlay, rows[0].entries[0]);
      assert t[1] == t[1..][0] && t[2] == t[1..][1];
    }
  }

  /** The arm list ends where the first belief says it does, so a longer one never fits. */
  lemma NoLongerArmList(
      fmt: Format, inPlay: iset<Posterior>, space: Space, space': Space, rs: seq<Row>, qs: seq<Row>)
    requires Printable(fmt) && Ascending(space.arms) && Ascending(space'.arms)
    requires PlainArms(fmt, space', inPlay)
    requires GoodRows(space, inPlay, rs) && GoodRows(space', inPlay, qs) && FullRows(rs) && FullRows(qs)
    requires AfterPrior(fmt, space, rs) == AfterPrior(fmt, space', qs)
    ensures |space'.arms| <= |space.arms|
  {
    hide Printed, Sanitize, Less, Reads, GoodRows, FullRows, RowTokens;
    var n, m, s := |space.arms|, |space'.arms|, AfterPrior(fmt, space, rs);
    if n + 2 <= m {
      FirstTokens(fmt, space, inPlay, rs);
      RepeatedArm(space.arms, space'.arms, s, s[n + 1], n + 1);
    } else if n < m {
      FirstTokens(fmt, space, inPlay, rs);
      FirstTokens(fmt, space', inPlay, qs);
    }
  }

  /** A name of the shorter list cannot come again in the longer one. */
  lemma RepeatedArm(short: seq<Name>, long: seq<Name>, s: seq<Text>, a: Name, k: nat)
    requires Ascending(long) && |short| <= k < |long| <= |s| && a in short
    requires s[..|short|] == short && s[..|long|] == long
    ensures s[k] != a
  {
    hide Less;
    var j :| 0 <= j < |short| && short[j] == a;
    assert s[j] == short[j] && s[j] == long[j] && s[k] == long[k];
    LessIrreflexive(a);
  }

  /**
   Across configurations: with ascending arms none of which reads as a belief, equal digests of states
   without empty cells mean the same prior, the same arms and the same state, or a collision. The cell
   budget is the one part of a configuration the digest leaves open.
   */
  lemma DigestDeterminesConfiguration(
      h: HashFn, fmt: Format, inPlay: iset<Posterior>, space: Space, space': Space, p: Learned, q: Learned,
      rs: seq<Row>, qs: seq<Row>)
    requires Numbers(fmt, inPlay) && space.prior in inPlay && space'.prior in inPlay
    requires Ascending(space.arms) && Ascending(space'.arms)
    requires PlainArms(fmt, space, inPlay) && PlainArms(fmt, space', inPlay)
    requires Holds(space, inPlay, p) && Holds(space', inPlay, q) && NoEmptyCell(p) && NoEmptyCell(q)
    requires ListsState(rs, p) && ListsState(qs, q)
    requires StateDigest(h, fmt, space, rs) == StateDigest(h, fmt, space', qs)
    ensures || (space.prior == space'.prior && space.arms == space'.arms && p == q)
            || Collision(h, {Absorb(Tokens(fmt, space, rs)), Absorb(Tokens(fmt, space', qs))})
  {
    hide Numbers, Holds, Reads, PlainArms, NoEmptyCell, ListsState, Absorb, Printed, RowTokens, Tells, Less,
      GoodRows, FullRows, Mistakable;
    NumbersPrint(fmt, inPlay);
    var s, t := Tokens(fmt, space, rs), Tokens(fmt, space', qs);
    HexInjective(h(Absorb(s)), h(Absorb(t)));
    if Absorb(s) == Absorb(t) {
      AbsorbInjective(s, t);
      assert s[1] == Printed(fmt, space.prior) && t[1] == Printed(fmt, space'.prior);
      SameBelief(fmt, inPlay, space.prior, space'.prior);
      assert s[2..] == AfterPrior(fmt, space, rs) && t[2..] == AfterPrior(fmt, space', qs);
      ListingIsGood(space, inPlay, rs, p);
      ListingIsGood(space', inPlay, qs, q);
      NoLongerArmList(fmt, inPlay, space, space', rs, qs);
      NoLongerArmList(fmt, inPlay, space', space, qs, rs);
      var n := |space.arms|;
      assert space.arms == s[2..][..n] == t[2..][..n] == space'.arms;
      assert RowTokens(fmt, rs) == s[2..][n..] == t[2..][n..] == RowTokens(fmt, qs);
      SameArmsSameGood(space, space', inPlay, qs);
      PlainIsNotMistakable(fmt, space, inPlay);
      NotMistakableNoClash(fmt, space, inPlay, rs, qs);
      FullRowsDecode(fmt, space, inPlay, rs, qs);
      StateDetermined(rs, p, q);
    }
  }

  lemma SameArmsSameGood(space: Space, space': Space, inPlay: iset<Posterior>, rows: seq<Row>)
    requires space.arms == space'.arms && GoodRows(space', inPlay, rows)
    ensures GoodRows(space, inPlay, rows)
  {
    hide Less, Sanitize;
    forall i | 0 <= i < |rows|
      ensures GoodEntries(space, inPlay, rows[i].entries)
    {
      assert GoodEntries(space', inPlay, rows[i].entries);
      assert forall e :: GoodEntry(space', inPlay, e) ==> GoodEntry(space, inPlay, e);
    }
  }
}
