/**
 Concrete states with one digest (internal/bandit/bandit.go): reached by updates alone, when an arm
 reads as a belief, and by restoring cells without arms, under ordinary names.
 */
module BanditAmbiguity {
  import opened Framing
  import opened Names
  import opened BanditState
  import opened BanditRuns
  import opened BanditDigest
  import opened BanditIdentity

  /** The names "0", "1", "3" and the name "2:1", which is also how Beta(2, 1) prints. */
  const ZERO: Name := [48]
  const ONE: Name := [49]
  const THREE: Name := [51]
  const TWO_ONE: Name := [50, 58, 49]

  const SEEN_ONCE: Posterior := Posterior(2.0, 1.0)

  /** A printing of numbers that writes 2 as "2" and 1 as "1". */
  ghost predicate PrintsSmall(fmt: Format) {
    Printable(fmt) && fmt(2.0) == [50] && fmt(1.0) == [49]
  }

  /** A configuration with these four arms and the uniform prior. */
  predicate HasColonArms(space: Space) {
    && ZERO in space.arms && ONE in space.arms && TWO_ONE in space.arms && THREE in space.arms
    && space.prior == Posterior(1.0, 1.0) && space.maxCells >= 2
  }

  lemma CleanNames()
    ensures Clean(ZERO) && Clean(ONE) && Clean(TWO_ONE)
    ensures Less(ZERO, ONE) && Less(ONE, TWO_ONE) && Less(ZERO, TWO_ONE) && Less(TWO_ONE, THREE)
  {
    AllowedIsKept(ZERO);
    AllowedIsKept(ONE);
    AllowedIsKept(TWO_ONE);
  }

  // --------------------------------------------------------------------------
  // By updates alone
  // --------------------------------------------------------------------------

  /** Three recoveries in two cells, two ways. */
  const LATE_ARMS: seq<Outcome> :=
    [Outcome(ZERO, ZERO, true), Outcome(ONE, TWO_ONE, true), Outcome(ONE, THREE, true)]
  const EARLY_ARMS: seq<Outcome> :=
    [Outcome(ZERO, ZERO, true), Outcome(ZERO, ONE, true), Outcome(TWO_ONE, THREE, true)]

  const LATE_ROWS: seq<Row> :=
    [Row(ZERO, [Entry(ZERO, SEEN_ONCE)]), Row(ONE, [Entry(TWO_ONE, SEEN_ONCE), Entry(THREE, SEEN_ONCE)])]
  const EARLY_ROWS: seq<Row> :=
    [Row(ZERO, [Entry(ZERO, SEEN_ONCE), Entry(ONE, SEEN_ONCE)]), Row(TWO_ONE, [Entry(THREE, SEEN_ONCE)])]

  /** A first recovery for an arm in a clean cell with room. */
  lemma FirstRecovery(space: Space, us: seq<Outcome>, cell: Name, arm: Name)
    requires HasColonArms(space) && arm in space.arms && Clean(cell)
    requires cell in Learn(space, us) || |Learn(space, us)| < space.maxCells
    requires arm !in RowOf(Learn(space, us), cell)
    ensures Learn(space, us + [Outcome(cell, arm, true)])
         == Learn(space, us)[cell := RowOf(Learn(space, us), cell)[arm := SEEN_ONCE]]
  {
    hide Sanitize;
    var u := Outcome(cell, arm, true);
    assert (us + [u])[..|us|] == us;
  }

  /** Three first recoveries, in two cells. */
  lemma ThreeRecoveries(space: Space, us: seq<Outcome>)
    requires HasColonArms(space) && (us == LATE_ARMS || us == EARLY_ARMS)
    ensures Learn(space, us)
         == if us == LATE_ARMS then map[ZERO := map[ZERO := SEEN_ONCE], ONE := map[TWO_ONE := SEEN_ONCE, THREE := SEEN_ONCE]]
            else map[ZERO := map[ZERO := SEEN_ONCE, ONE := SEEN_ONCE], TWO_ONE := map[THREE := SEEN_ONCE]]
  {
    hide Learn, Sanitize;
    CleanNames();
    LearnNothing(space);
    FirstRecovery(space, [], us[0].cell, us[0].arm);
    assert [] + [us[0]] == [us[0]];
    var one := map[ZERO := map[ZERO := SEEN_ONCE]];
    assert |one| == 1 && Learn(space, [us[0]]) == one;
    FirstRecovery(space, [us[0]], us[1].cell, us[1].arm);
    assert [us[0]] + [us[1]] == [us[0], us[1]];
    var two := map[ZERO := map[ZERO := SEEN_ONCE, ONE := SEEN_ONCE]];
    assert |two| == 1;
    FirstRecovery(space, [us[0], us[1]], us[2].cell, us[2].arm);
    assert [us[0], us[1]] + [us[2]] == us;
  }

  lemma LearnNothing(space: Space)
    ensures Learn(space, []) == map[]
  {
  }

  /** A listing's own state, cell by cell. */
  lemma TwoRowState(a: Row, b: Row)
    ensures StateMap([a, b]) == map[a.cell := RowMap(a.entries)][b.cell := RowMap(b.entries)]
  {
    hide RowMap;
    assert [a, b][..1] == [a] && [a][..0] == [];
    assert StateMap([a]) == map[a.cell := RowMap(a.entries)];
  }

  lemma SmallRowMaps(e: Entry, f: Entry)
    ensures RowMap([e]) == map[e.arm := e.belief] && RowMap([e, f]) == map[e.arm := e.belief][f.arm := f.belief]
  {
    assert [e, f][..1] == [e] && [e][..0] == [];
    assert RowMap([e]) == map[e.arm := e.belief];
  }

  /** These are the listings of the two states. */
  lemma ColonListings(space: Space)
    requires HasColonArms(space)
    ensures ListsState(LATE_ROWS, Learn(space, LATE_ARMS)) && ListsState(EARLY_ROWS, Learn(space, EARLY_ARMS))
  {
    hide Learn, ListsState, Less, Sanitize, StateMap, RowMap, GoodRows, GoodEntries;
    var inPlay := iset{SEEN_ONCE};
    var e0, e1, e2, e3 := Entry(ZERO, SEEN_ONCE), Entry(ONE, SEEN_ONCE), Entry(TWO_ONE, SEEN_ONCE), Entry(THREE, SEEN_ONCE);
    CleanNames();
    ThreeRecoveries(space, LATE_ARMS);
    ThreeRecoveries(space, EARLY_ARMS);
    assert LATE_ARMS[1] != EARLY_ARMS[1];
    SmallEntries(space, inPlay, e0);
    SmallEntries(space, inPlay, e3);
    EntryPair(space, inPlay, e2, e3);
    EntryPair(space, inPlay, e0, e1);
    SmallRows(space, inPlay, LATE_ROWS[0], LATE_ROWS[1]);
    SmallRows(space, inPlay, EARLY_ROWS[0], EARLY_ROWS[1]);
    StateMapListed(space, inPlay, LATE_ROWS);
    StateMapListed(space, inPlay, EARLY_ROWS);
    TwoRowState(LATE_ROWS[0], LATE_ROWS[1]);
    TwoRowState(EARLY_ROWS[0], EARLY_ROWS[1]);
    SmallRowMaps(e0, e1);
    SmallRowMaps(e2, e3);
    SmallRowMaps(e3, e3);
  }

  /**
   With an arm called "2:1", two different runs of updates of one configuration reach different
   states with one digest, under every hash: a belief can be read as an arm and an arm as a belief.
   */
  lemma ColonArmsAreAmbiguous(h: HashFn, fmt: Format, space: Space)
    requires PrintsSmall(fmt) && HasColonArms(space)
    ensures Learn(space, LATE_ARMS) != Learn(space, EARLY_ARMS)
    ensures ListsState(LATE_ROWS, Learn(space, LATE_ARMS)) && ListsState(EARLY_ROWS, Learn(space, EARLY_ARMS))
    ensures StateDigest(h, fmt, space, LATE_ROWS) == StateDigest(h, fmt, space, EARLY_ROWS)
  {
    hide Learn, ListsState, HasColonArms, RowTokens, EntryTokens;
    ColonListings(space);
    ThreeRecoveries(space, LATE_ARMS);
    ThreeRecoveries(space, EARLY_ARMS);
    assert LATE_ARMS[1] != EARLY_ARMS[1];
    assert ONE in Learn(space, LATE_ARMS) && ONE !in Learn(space, EARLY_ARMS);
    var e0, e1, e2, e3 := Entry(ZERO, SEEN_ONCE), Entry(ONE, SEEN_ONCE), Entry(TWO_ONE, SEEN_ONCE), Entry(THREE, SEEN_ONCE);
    assert Printed(fmt, SEEN_ONCE) == TWO_ONE;
    OneEntry(fmt, e0);
    OneEntry(fmt, e3);
    TwoEntries(fmt, e2, e3);
    TwoEntries(fmt, e0, e1);
    TwoRows(fmt, LATE_ROWS[0], LATE_ROWS[1]);
    TwoRows(fmt, EARLY_ROWS[0], EARLY_ROWS[1]);
    assert RowTokens(fmt, LATE_ROWS) == [ZERO, ZERO, TWO_ONE, ONE, TWO_ONE, TWO_ONE, THREE, TWO_ONE];
    assert RowTokens(fmt, EARLY_ROWS) == [ZERO, ZERO, TWO_ONE, ONE, TWO_ONE, TWO_ONE, THREE, TWO_ONE];
  }

  // --------------------------------------------------------------------------
  // By restoring cells without arms
  // --------------------------------------------------------------------------

  /** One cell with one arm, and three cells without, as snapshots and as listings. */
  const ONE_CELL: seq<CellState> := [CellState(ZERO, map[ONE := SEEN_ONCE])]
  const THREE_CELLS: seq<CellState> := [CellState(ZERO, map[]), CellState(ONE, map[]), CellState(TWO_ONE, map[])]
  const ONE_ROW: seq<Row> := [Row(ZERO, [Entry(ONE, SEEN_ONCE)])]
  const THREE_ROWS: seq<Row> := [Row(ZERO, []), Row(ONE, []), Row(TWO_ONE, [])]

  /**
   Restoring cells without arms, even plain names are ambiguous: both snapshots are accepted, they
   restore different states, and the two states have one digest under every hash.
   */
  lemma EmptyCellsAreAmbiguous(h: HashFn, fmt: Format, space: Space)
    requires PrintsSmall(fmt) && ONE in space.arms
    ensures Restorable(space, ONE_CELL) && Restorable(space, THREE_CELLS)
    ensures Restored(ONE_CELL) != Restored(THREE_CELLS)
    ensures ListsState(ONE_ROW, Restored(ONE_CELL)) && ListsState(THREE_ROWS, Restored(THREE_CELLS))
    ensures StateDigest(h, fmt, space, ONE_ROW) == StateDigest(h, fmt, space, THREE_ROWS)
  {
    hide ListsState, RowTokens, EntryTokens, Restorable, Restored;
    RestoresEmptyCells(space);
    assert ONE !in Restored(ONE_CELL) && ONE in Restored(THREE_CELLS);
    EmptyCellsListed();
    assert Printed(fmt, SEEN_ONCE) == TWO_ONE;
    OneEntry(fmt, Entry(ONE, SEEN_ONCE));
    OneRow(fmt, ONE_ROW[0]);
    ThreeRows(fmt, THREE_ROWS[0], THREE_ROWS[1], THREE_ROWS[2]);
    assert RowTokens(fmt, ONE_ROW) == [ZERO, ONE, TWO_ONE];
    NoEntryTokens(fmt, []);
    assert RowTokens(fmt, THREE_ROWS) == [ZERO, ONE, TWO_ONE];
  }

  lemma OneRow(fmt: Format, a: Row)
    requires Printable(fmt)
    ensures RowTokens(fmt, [a]) == [a.cell] + EntryTokens(fmt, a.entries)
  {
    hide EntryTokens;
    assert [a][1..] == [];
  }

  lemma RestoresEmptyCells(space: Space)
    requires ONE in space.arms
    ensures Restorable(space, ONE_CELL) && Restored(ONE_CELL) == map[ZERO := map[ONE := SEEN_ONCE]]
    ensures Restorable(space, THREE_CELLS)
    ensures Restored(THREE_CELLS) == map[ZERO := map[], ONE := map[], TWO_ONE := map[]]
  {
    hide Sanitize;
    CleanNames();
    var c := THREE_CELLS;
    assert ONE_CELL[..0] == c[..0] == [];
    assert Restored(c[..0]) == map[];
    assert c[..2][..1] == c[..1] && c[..1][..0] == [];
    assert Restorable(space, c[..1]) && Restored(c[..1]) == map[ZERO := map[]];
    assert Restorable(space, c[..2]) && Restored(c[..2]) == map[ZERO := map[], ONE := map[]];
  }

  lemma EmptyCellsListed()
    ensures ListsState(ONE_ROW, map[ZERO := map[ONE := SEEN_ONCE]])
    ensures ListsState(THREE_ROWS, map[ZERO := map[], ONE := map[], TWO_ONE := map[]])
  {
    hide Less;
    CleanNames();
    assert RowNames(ONE_ROW) == [ZERO] && ArmNames(ONE_ROW[0].entries) == [ONE];
    assert RowNames(THREE_ROWS) == [ZERO, ONE, TWO_ONE] && ArmNames([]) == [];
  }
}
