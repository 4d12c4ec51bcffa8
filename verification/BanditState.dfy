/**
 What the bandit has learned (internal/bandit/bandit.go): the posterior of every context cell and
 arm, the cell budget with its overflow cell, and export and import of the whole state.
 */
module BanditState {
  import opened Collections
  import opened Framing
  import opened Names

  datatype Posterior = Posterior(alpha: real, beta: real)

  type Beliefs = map<Name, Posterior>

  type Learned = map<Name, Beliefs>

  const MAX_COUNT: real := 1_000_000_000.0
  const MAX_CELL_KEY_LEN: nat := 160

  /** The bytes of "__overflow__". */
  const OVERFLOW_CELL: Name := [95, 95, 111, 118, 101, 114, 102, 108, 111, 119, 95, 95]

  /** The bytes of "unknown". */
  const UNKNOWN_CELL: Name := [117, 110, 107, 110, 111, 119, 110]

  /** The part of a configuration the learned state depends on. */
  datatype Space = Space(arms: seq<Name>, prior: Posterior, maxCells: nat)

  predicate IsBelief(p: Posterior) { p.alpha > 0.0 && p.beta > 0.0 }

  predicate GoodSpace(s: Space) { s.maxCells >= 1 && IsBelief(s.prior) }

  // --------------------------------------------------------------------------
  // Cell keys
  // --------------------------------------------------------------------------

  /** Letters, digits and : _ - . | = */
  predicate Allowed(c: Byte) {
    || 97 <= c <= 122 || 65 <= c <= 90 || 48 <= c <= 57
    || c == 58 || c == 95 || c == 45 || c == 46 || c == 124 || c == 61
  }

  function Kept(s: Bytes): (k: Bytes)
    ensures |k| <= |s| && forall i :: 0 <= i < |k| ==> Allowed(k[i])
  {
    if s == [] then []
    else Kept(s[..|s| - 1]) + if Allowed(s[|s| - 1]) then [s[|s| - 1]] else []
  }

  function Sanitize(s: Bytes): (k: Name)
    ensures 0 < |k| <= MAX_CELL_KEY_LEN && forall i :: 0 <= i < |k| ==> Allowed(k[i])
  {
    var k := Kept(s);
    if k == [] then UNKNOWN_CELL else if |k| > MAX_CELL_KEY_LEN then k[..MAX_CELL_KEY_LEN] else k
  }

  lemma {:induction false} KeptGrows(s: Bytes, n: nat)
    requires n <= |s|
    ensures |Kept(s[..n])| <= |Kept(s)| && Kept(s)[..|Kept(s[..n])|] == Kept(s[..n])
    decreases |s|
  {
    if n == |s| {
      assert s[..n] == s;
    } else {
      var m := |s| - 1;
      assert s[..m][..n] == s[..n];
      KeptGrows(s[..m], n);
    }
  }

  /** `sanitizeCell`: the loop stops as soon as the bound is reached. */
  method SanitizeCell(s: Bytes) returns (key: Name)
    ensures key == Sanitize(s)
  {
    hide Allowed;
    var b: Bytes := [];
    var i := 0;
    while i < |s| && |b| < MAX_CELL_KEY_LEN
      invariant 0 <= i <= |s|
      invariant b == Kept(s[..i]) && |b| <= MAX_CELL_KEY_LEN
    {
      assert s[..i + 1][..i] == s[..i];
      if Allowed(s[i]) {
        b := b + [s[i]];
      }
      i := i + 1;
    }
    KeptGrows(s, i);
    assert i == |s| ==> s[..i] == s;
    if |b| == 0 {
      return UNKNOWN_CELL;
    }
    return b;
  }

  lemma {:induction false} AllowedIsKept(s: Bytes)
    requires forall i :: 0 <= i < |s| ==> Allowed(s[i])
    ensures Kept(s) == s
  {
    if s == [] {
    } else {
      AllowedIsKept(s[..|s| - 1]);
      assert s == s[..|s| - 1] + [s[|s| - 1]];
    }
  }

  /** Cleaning a key twice is cleaning it once, and the overflow cell is already clean. */
  lemma SanitizeIdempotent(s: Bytes)
    ensures Sanitize(Sanitize(s)) == Sanitize(s)
    ensures Sanitize(OVERFLOW_CELL) == OVERFLOW_CELL
  {
    AllowedIsKept(Sanitize(s));
    AllowedIsKept(OVERFLOW_CELL);
  }

  // --------------------------------------------------------------------------
  // Learning
  // --------------------------------------------------------------------------

  datatype Outcome = Outcome(cell: Bytes, arm: Name, recovered: bool)

  function Bumped(p: Posterior, recovered: bool): Posterior {
    if recovered then p.(alpha := Min(p.alpha + 1.0, MAX_COUNT)) else p.(beta := Min(p.beta + 1.0, MAX_COUNT))
  }

  /** `cellKeyLocked`: a new cell over budget pools into the overflow cell. */
  function CellKey(space: Space, post: Learned, cell: Bytes): Name {
    var key := Sanitize(cell);
    if key in post then key else if |post| >= space.maxCells then OVERFLOW_CELL else key
  }

  function BeliefIn(space: Space, post: Learned, cell: Name, arm: Name): Posterior {
    if cell in post && arm in post[cell] then post[cell][arm] else space.prior
  }

  function RowOf(post: Learned, cell: Name): Beliefs { if cell in post then post[cell] else map[] }

  /** `Update`; an unknown arm is an error and changes nothing. */
  function Updated(space: Space, post: Learned, u: Outcome): Learned {
    if u.arm !in space.arms then post
    else
      var key := CellKey(space, post, u.cell);
      var row: Beliefs := RowOf(post, key);
      post[key := row[u.arm := Bumped(BeliefIn(space, post, key, u.arm), u.recovered)]]
  }

  /** The state a new model reaches by a run of updates. */
  function Learn(space: Space, us: seq<Outcome>): Learned {
    if us == [] then map[] else Updated(space, Learn(space, us[..|us| - 1]), us[|us| - 1])
  }

  class Model {
    const space: Space
    var post: Learned

    constructor (space: Space)
      ensures this.space == space && post == Learn(space, [])
    {
      this.space := space;
      post := map[];
    }

    /** `known`. */
    method Known(a: Name) returns (k: bool)
      ensures k <==> a in space.arms
    {
      for i := 0 to |space.arms|
        invariant a !in space.arms[..i]
      {
        if space.arms[i] == a {
          return true;
        }
      }
      assert space.arms[..|space.arms|] == space.arms;
      return false;
    }

    /** `Update`. */
    method Update(cell: Bytes, arm: Name, recovered: bool) returns (ok: bool)
      modifies this
      ensures ok <==> arm in space.arms
      ensures post == Updated(space, old(post), Outcome(cell, arm, recovered))
    {
      var known := Known(arm);
      if !known {
        return false;
      }
      var clean := SanitizeCell(cell);
      var key := if clean in post then clean else if |post| >= space.maxCells then OVERFLOW_CELL else clean;
      var p := BeliefIn(space, post, key, arm);
      if recovered {
        p := p.(alpha := Min(p.alpha + 1.0, MAX_COUNT));
      } else {
        p := p.(beta := Min(p.beta + 1.0, MAX_COUNT));
      }
      var row: Beliefs := RowOf(post, key);
      post := post[key := row[arm := p]];
      return true;
    }

    /** `Snapshot`: the configuration's arms and prior, and every cell in order. */
    method Snapshot() returns (st: State)
      ensures st.arms == space.arms && st.prior == space.prior && IsSnapshot(st.cells, post)
    {
      hide Less;
      var keys := SortNames(post.Keys);
      var cells := [];
      for i := 0 to |keys|
        invariant |cells| == i && forall j :: 0 <= j < i ==> cells[j] == CellState(keys[j], post[keys[j]])
      {
        assert keys[i] in keys;
        cells := cells + [CellState(keys[i], post[keys[i]])];
      }
      SnapshotOfKeys(cells, keys, post);
      st := State(space.arms, space.prior, cells);
    }

    /** One cell of a snapshot; its arms are visited in no particular order. */
    method CheckRow(key: Name, row: Beliefs) returns (e: Option<RestoreError>)
      ensures e.None? <==> KnownRow(space, row)
      ensures e.Some? ==> RowFault(space, key, row, e.value)
    {
      hide IsBelief;
      var todo := row.Keys;
      while todo != {}
        invariant todo <= row.Keys
        invariant forall a :: a in row && a !in todo ==> a in space.arms && IsBelief(row[a])
        decreases todo
      {
        var a := AnyMember(todo);
        var known := Known(a);
        if !known {
          return Some(ForeignArm(a, key));
        }
        if !IsBelief(row[a]) {
          return Some(ImproperBelief(a, key));
        }
        todo := todo - {a};
      }
      return None;
    }

    /** `Restore`: nothing changes unless the whole snapshot is acceptable. */
    method Restore(st: State) returns (e: Option<RestoreError>)
      modifies this
      ensures e.None? <==> Restorable(space, st.cells)
      ensures e.Some? ==> exists i :: 0 <= i < |st.cells| && Restorable(space, st.cells[..i]) && FaultAt(space, st.cells, i, e.value)
      ensures post == if e.None? then Restored(st.cells) else old(post)
    {
      hide KnownRow, Sanitize;
      var cells := st.cells;
      var next: Learned := map[];
      for i := 0 to |cells|
        invariant Restorable(space, cells[..i]) && next == Restored(cells[..i])
        invariant post == old(post)
      {
        assert cells[..i + 1][..i] == cells[..i] && cells[..i + 1][i] == cells[i];
        var key := SanitizeCell(cells[i].cell);
        if key in next {
          UnrestorablePrefix(space, cells, i + 1);
          return Some(DuplicateCell(key));
        }
        var fault := CheckRow(key, cells[i].beliefs);
        if fault.Some? {
          UnrestorablePrefix(space, cells, i + 1);
          return fault;
        }
        next := next[key := cells[i].beliefs];
      }
      assert cells[..|cells|] == cells;
      post := next;
      return None;
    }
  }

  // --------------------------------------------------------------------------
  // Export and import
  // --------------------------------------------------------------------------

  /** One context bucket worth of learned belief. */
  datatype CellState = CellState(cell: Name, beliefs: Beliefs)

  /** The whole learned model, as exported. */
  datatype State = State(arms: seq<Name>, prior: Posterior, cells: seq<CellState>)

  datatype RestoreError =
    | DuplicateCell(key: Name) | ForeignArm(arm: Name, key: Name) | ImproperBelief(arm: Name, key: Name)

  /** The arms of one configuration, with proper beliefs; perhaps none. */
  predicate KnownRow(space: Space, row: Beliefs) {
    forall a :: a in row ==> a in space.arms && IsBelief(row[a])
  }

  /** What is wrong with one cell. */
  predicate RowFault(space: Space, key: Name, row: Beliefs, e: RestoreError) {
    match e
    case DuplicateCell(_) => false
    case ForeignArm(a, k) => k == key && a in row && a !in space.arms
    case ImproperBelief(a, k) => k == key && a in row && a in space.arms && !IsBelief(row[a])
  }

  /** What is wrong with cell `i`, those before it being acceptable. */
  predicate FaultAt(space: Space, cells: seq<CellState>, i: nat, e: RestoreError)
    requires i < |cells|
  {
    var key := Sanitize(cells[i].cell);
    if key in Restored(cells[..i]) then e == DuplicateCell(key) else RowFault(space, key, cells[i].beliefs, e)
  }

  function CellNames(cells: seq<CellState>): (names: seq<Name>)
    ensures |names| == |cells|
  {
    seq(|cells|, i requires 0 <= i < |cells| => cells[i].cell)
  }

  /** The learned state, cell by cell in order. */
  ghost predicate IsSnapshot(cells: seq<CellState>, post: Learned) {
    && Lists(CellNames(cells), post.Keys)
    && forall i :: 0 <= i < |cells| ==> cells[i].cell in post && cells[i].beliefs == post[cells[i].cell]
  }

  lemma SnapshotOfKeys(cells: seq<CellState>, keys: seq<Name>, post: Learned)
    requires Lists(keys, post.Keys) && |cells| == |keys|
    requires forall j :: 0 <= j < |keys| ==> keys[j] in post && cells[j] == CellState(keys[j], post[keys[j]])
    ensures IsSnapshot(cells, post)
  {
    assert CellNames(cells) == keys;
  }

  /** No two cells clean to the same key, every arm is known and every belief is a distribution. */
  predicate Restorable(space: Space, cells: seq<CellState>) {
    cells == []
    || var n := |cells| - 1;
       && Restorable(space, cells[..n])
       && Sanitize(cells[n].cell) !in Restored(cells[..n])
       && KnownRow(space, cells[n].beliefs)
  }

  function Restored(cells: seq<CellState>): Learned {
    if cells == [] then map[]
    else
      var n := |cells| - 1;
      Restored(cells[..n])[Sanitize(cells[n].cell) := cells[n].beliefs]
  }

  lemma {:induction false} UnrestorablePrefix(space: Space, cells: seq<CellState>, n: nat)
    requires n <= |cells| && !Restorable(space, cells[..n])
    ensures !Restorable(space, cells)
    decreases |cells| - n
  {
    if n == |cells| {
      assert cells[..n] == cells;
    } else {
      assert cells[..n + 1][..n] == cells[..n];
      UnrestorablePrefix(space, cells, n + 1);
    }
  }
}
