/**
 Whole runs of the bandit's learned state (internal/bandit/bandit.go): updates and restores in any
 order, what they keep, exactly which states they reach, and exporting any of them.
 */
module BanditRuns {
  import opened Collections
  import opened Framing
  import opened Names
  import opened BanditState

  datatype Step = Updating(u: Outcome) | Restoring(cells: seq<CellState>)

  /** One operation on the learned state; a refused one changes nothing. */
  function Taken(space: Space, post: Learned, step: Step): Learned {
    match step
    case Updating(u) => Updated(space, post, u)
    case Restoring(cells) => if Restorable(space, cells) then Restored(cells) else post
  }

  /** The state a new model reaches by a run. */
  function Run(space: Space, steps: seq<Step>): Learned {
    if steps == [] then map[] else Taken(space, Run(space, steps[..|steps| - 1]), steps[|steps| - 1])
  }

  /** The updates of a run that has nothing else. */
  function Updates(us: seq<Outcome>): (steps: seq<Step>)
    ensures |steps| == |us|
  {
    seq(|us|, i requires 0 <= i < |us| => Updating(us[i]))
  }

  lemma {:induction false} LearnIsARun(space: Space, us: seq<Outcome>)
    ensures Learn(space, us) == Run(space, Updates(us))
  {
    hide Updated;
    if us == [] {
    } else {
      LearnIsARun(space, us[..|us| - 1]);
      assert Updates(us)[..|us| - 1] == Updates(us[..|us| - 1]);
    }
  }

  // --------------------------------------------------------------------------
  // What every run keeps
  // --------------------------------------------------------------------------

  /** Clean keys, known arms, proper beliefs. */
  ghost predicate Storable(space: Space, post: Learned) {
    forall c :: c in post ==> Sanitize(c) == c && KnownRow(space, post[c])
  }

  /** No cell without arms. */
  ghost predicate NoEmptyCell(post: Learned) { forall c :: c in post ==> post[c] != map[] }

  /** At most `budget` cells, and one more only for the overflow cell. */
  ghost predicate WithinBudget(budget: nat, keys: set<Name>) {
    |keys| <= budget || (|keys| == budget + 1 && OVERFLOW_CELL in keys)
  }

  lemma BumpedIsBelief(p: Posterior, r: bool)
    requires IsBelief(p)
    ensures IsBelief(Bumped(p, r))
  {
  }

  lemma BeliefIsBelief(space: Space, post: Learned, cell: Name, arm: Name)
    requires GoodSpace(space) && (cell in post ==> KnownRow(space, post[cell]))
    ensures IsBelief(BeliefIn(space, post, cell, arm))
  {
  }

  lemma KeyWithinBudget(space: Space, budget: nat, post: Learned, cell: Bytes)
    requires GoodSpace(space) && budget >= space.maxCells && WithinBudget(budget, post.Keys)
    ensures WithinBudget(budget, post.Keys + {CellKey(space, post, cell)})
    ensures Sanitize(CellKey(space, post, cell)) == CellKey(space, post, cell)
  {
    hide Sanitize;
    SanitizeIdempotent(cell);
    assert |post| == |post.Keys|;
    var key := CellKey(space, post, cell);
    if key in post {
      assert post.Keys + {key} == post.Keys;
    }
  }

  lemma UpdateKeeps(space: Space, budget: nat, post: Learned, u: Outcome)
    requires GoodSpace(space) && budget >= space.maxCells
    requires Storable(space, post) && WithinBudget(budget, post.Keys)
    ensures Storable(space, Updated(space, post, u)) && WithinBudget(budget, Updated(space, post, u).Keys)
    ensures NoEmptyCell(post) ==> NoEmptyCell(Updated(space, post, u))
  {
    hide Sanitize, Bumped, IsBelief, CellKey, WithinBudget, GoodSpace, BeliefIn;
    if u.arm in space.arms {
      var key := CellKey(space, post, u.cell);
      KeyWithinBudget(space, budget, post, u.cell);
      BeliefIsBelief(space, post, key, u.arm);
      BumpedIsBelief(BeliefIn(space, post, key, u.arm), u.recovered);
      assert u.arm in Updated(space, post, u)[key];
      assert Updated(space, post, u).Keys == post.Keys + {key};
    }
  }

  lemma {:induction false} RestoredIsStorable(space: Space, cells: seq<CellState>)
    requires Restorable(space, cells)
    ensures Storable(space, Restored(cells))
  {
    hide Sanitize, KnownRow;
    if cells == [] {
    } else {
      RestoredIsStorable(space, cells[..|cells| - 1]);
      SanitizeIdempotent(cells[|cells| - 1].cell);
    }
  }

  /** The snapshots a run accepts stay within the budget. */
  ghost predicate RestoresWithin(space: Space, budget: nat, steps: seq<Step>) {
    forall k :: 0 <= k < |steps| && steps[k].Restoring? && Restorable(space, steps[k].cells) ==>
      WithinBudget(budget, Restored(steps[k].cells).Keys)
  }

  /** The snapshots a run accepts hold no empty cell. */
  ghost predicate RestoresFull(space: Space, steps: seq<Step>) {
    forall k :: 0 <= k < |steps| && steps[k].Restoring? && Restorable(space, steps[k].cells) ==>
      NoEmptyCell(Restored(steps[k].cells))
  }

  /** In every run of updates and restores: clean keys, known arms, proper beliefs. */
  lemma {:induction false} RunIsStorable(space: Space, steps: seq<Step>)
    requires GoodSpace(space)
    ensures Storable(space, Run(space, steps))
  {
    hide Updated, Restorable, Restored, Storable;
    if steps == [] {
      NothingStored(space);
    } else {
      var init, last := steps[..|steps| - 1], steps[|steps| - 1];
      RunIsStorable(space, init);
      match last
      case Updating(u) =>
        UpdateStores(space, Run(space, init), u);
      case Restoring(cells) =>
        if Restorable(space, cells) {
          RestoredIsStorable(space, cells);
        }
    }
  }

  lemma NothingStored(space: Space)
    ensures Storable(space, map[]) && NoEmptyCell(map[]) && WithinBudget(0, {})
  {
  }

  lemma UpdateStores(space: Space, post: Learned, u: Outcome)
    requires GoodSpace(space) && Storable(space, post)
    ensures Storable(space, Updated(space, post, u))
  {
    UpdateKeeps(space, |post.Keys| + space.maxCells, post, u);
  }

  /**
   The cell budget over whole runs: it is never passed by more than the overflow cell, nor does a cell
   ever lose its arms, unless a snapshot that was accepted already did.
   */
  lemma {:induction false} RunKeepsBudget(space: Space, budget: nat, steps: seq<Step>)
    requires GoodSpace(space) && budget >= space.maxCells && RestoresWithin(space, budget, steps)
    ensures WithinBudget(budget, Run(space, steps).Keys)
    ensures RestoresFull(space, steps) ==> NoEmptyCell(Run(space, steps))
  {
    hide Updated, Restorable, Restored, Storable, WithinBudget, NoEmptyCell;
    if steps == [] {
      NothingKept(budget);
    } else {
      var init, last := steps[..|steps| - 1], steps[|steps| - 1];
      assert forall k :: 0 <= k < |init| ==> init[k] == steps[k];
      RunKeepsBudget(space, budget, init);
      if last.Updating? {
        RunIsStorable(space, init);
        UpdateKeeps(space, budget, Run(space, init), last.u);
      }
    }
  }

  lemma NothingKept(budget: nat)
    ensures var none: Learned := map[]; WithinBudget(budget, none.Keys) && NoEmptyCell(none)
  {
  }

  /** Runs of updates alone: at most MaxCells + 1 cells, and none is empty. */
  lemma LearnIsReachable(space: Space, us: seq<Outcome>)
    requires GoodSpace(space)
    ensures Storable(space, Learn(space, us)) && NoEmptyCell(Learn(space, us))
    ensures WithinBudget(space.maxCells, Learn(space, us).Keys)
  {
    hide Storable, WithinBudget, NoEmptyCell;
    LearnIsARun(space, us);
    RunIsStorable(space, Updates(us));
    RunKeepsBudget(space, space.maxCells, Updates(us));
  }

  /** `Restore` enforces no cell budget: what it accepts does not depend on MaxCells. */
  lemma {:induction false} RestoreIgnoresBudget(space: Space, cells: seq<CellState>, maxCells: nat)
    ensures Restorable(space, cells) <==> Restorable(space.(maxCells := maxCells), cells)
  {
    hide Sanitize;
    if cells == [] {
    } else {
      RestoreIgnoresBudget(space, cells[..|cells| - 1], maxCells);
    }
  }

  // --------------------------------------------------------------------------
  // Export and import
  // --------------------------------------------------------------------------

  /** The keys of the first `n` cells. */
  ghost function CellSet(cells: seq<CellState>, n: nat): (keys: set<Name>)
    requires n <= |cells|
    ensures forall c :: c in keys <==> exists i :: 0 <= i < n && cells[i].cell == c
  {
    if n == 0 then {} else CellSet(cells, n - 1) + {cells[n - 1].cell}
  }

  lemma RestoreOneMore(space: Space, post: Learned, cells: seq<CellState>, m: nat)
    requires Storable(space, post) && IsSnapshot(cells, post) && m < |cells|
    requires Restorable(space, cells[..m]) && Restored(cells[..m]).Keys == CellSet(cells, m)
    ensures Restorable(space, cells[..m + 1])
    ensures Restored(cells[..m + 1]) == Restored(cells[..m])[cells[m].cell := post[cells[m].cell]]
  {
    hide Sanitize, Less, KnownRow, Lists;
    assert cells[..m + 1][..m] == cells[..m] && cells[..m + 1][m] == cells[m];
    CellsDistinct(cells, post, m);
    var c := cells[m].cell;
    assert c in post && KnownRow(space, post[c]);
  }

  lemma {:induction false} SnapshotRestores(space: Space, post: Learned, cells: seq<CellState>, n: nat)
    requires Storable(space, post) && IsSnapshot(cells, post) && n <= |cells|
    ensures Restorable(space, cells[..n])
    ensures Restored(cells[..n]).Keys == CellSet(cells, n)
    ensures forall c :: c in Restored(cells[..n]) ==> c in post && Restored(cells[..n])[c] == post[c]
    decreases n
  {
    hide Storable, IsSnapshot, Restorable;
    if n == 0 {
      RestoreNothing(space, cells);
    } else {
      SnapshotRestores(space, post, cells, n - 1);
      RestoreOneMore(space, post, cells, n - 1);
      SnapshotCell(cells, post, n - 1);
    }
  }

  lemma RestoreNothing(space: Space, cells: seq<CellState>)
    ensures Restorable(space, cells[..0])
  {
  }

  lemma SnapshotCell(cells: seq<CellState>, post: Learned, i: nat)
    requires IsSnapshot(cells, post) && i < |cells|
    ensures cells[i].cell in post
  {
  }

  lemma CellsDistinct(cells: seq<CellState>, post: Learned, m: nat)
    requires IsSnapshot(cells, post) && m < |cells|
    ensures forall i :: 0 <= i < m ==> cells[i].cell != cells[m].cell
  {
    hide Less;
    var names := CellNames(cells);
    forall i | 0 <= i < m
      ensures cells[i].cell != cells[m].cell
    {
      assert Less(names[i], names[m]);
      LessIrreflexive(cells[m].cell);
    }
  }

  lemma SnapshotCovers(cells: seq<CellState>, post: Learned)
    requires IsSnapshot(cells, post)
    ensures post.Keys == CellSet(cells, |cells|)
  {
    hide Less;
    var names := CellNames(cells);
    forall c | c in post.Keys
      ensures c in CellSet(cells, |cells|)
    {
      assert c in names;
      var i :| 0 <= i < |names| && names[i] == c;
      assert cells[i].cell == c;
    }
  }

  /** A snapshot of any storable state is accepted and gives back that very state. */
  lemma StorableRoundTrip(space: Space, post: Learned, cells: seq<CellState>)
    requires Storable(space, post) && IsSnapshot(cells, post)
    ensures Restorable(space, cells) && Restored(cells) == post
  {
    hide Restorable, Restored, Storable, IsSnapshot;
    SnapshotRestores(space, post, cells, |cells|);
    SnapshotCovers(cells, post);
    assert cells[..|cells|] == cells;
    assert Restored(cells).Keys == post.Keys;
  }

  /** Restoring a snapshot succeeds and gives back the state, after any run of updates and restores. */
  lemma SnapshotRoundTrip(space: Space, steps: seq<Step>, cells: seq<CellState>)
    requires GoodSpace(space) && IsSnapshot(cells, Run(space, steps))
    ensures Restorable(space, cells) && Restored(cells) == Run(space, steps)
  {
    hide Run, Storable, IsSnapshot;
    RunIsStorable(space, steps);
    StorableRoundTrip(space, Run(space, steps), cells);
  }

  lemma SomeSnapshot(post: Learned) returns (cells: seq<CellState>)
    ensures IsSnapshot(cells, post)
  {
    hide Less;
    var keys := SomeListing(post.Keys);
    cells := seq(|keys|, i requires 0 <= i < |keys| => CellState(keys[i], RowOf(post, keys[i])));
    forall j | 0 <= j < |keys|
      ensures keys[j] in post && cells[j] == CellState(keys[j], post[keys[j]])
    {
      assert keys[j] in keys;
    }
    SnapshotOfKeys(cells, keys, post);
  }

  /** Exactly the storable states are reached by runs of updates and restores. */
  lemma StorableExactly(space: Space, post: Learned)
    requires GoodSpace(space)
    ensures Storable(space, post) <==> exists steps :: Run(space, steps) == post
  {
    hide Storable, Restorable, Restored, IsSnapshot;
    if Storable(space, post) {
      var cells := SomeSnapshot(post);
      StorableRoundTrip(space, post, cells);
      var steps := [Restoring(cells)];
      assert steps[..0] == [];
      assert Run(space, steps) == post;
    }
    forall steps | Run(space, steps) == post
      ensures Storable(space, post)
    {
      RunIsStorable(space, steps);
    }
  }
}
