/**
 The digest of the learned state (internal/bandit/bandit.go): a flat list of length-prefixed
 tokens with no counts, and exactly how much of the state it pins down.
 */
module BanditDigest {
  import opened Framing
  import opened Names
  import opened BanditState

  /** How a number is printed. */
  type Format = real -> Text

  const COLON: Byte := 58

  predicate HasColon(t: Bytes) { COLON in t }

  /** Numbers of `vals` print differently from one another and without a colon. */
  ghost predicate Faithful(fmt: Format, vals: iset<real>) {
    && (forall x :: x in vals ==> !HasColon(fmt(x)))
    && forall x, y :: x in vals && y in vals && fmt(x) == fmt(y) ==> x == y
  }

  /** Formatted numbers are short strings. */
  ghost predicate Printable(fmt: Format) { forall x :: |fmt(x)| < 1_000 }

  /** A belief as one token: the two parameters with a colon between. */
  ghost function Printed(fmt: Format, p: Posterior): Text
    requires Printable(fmt)
  {
    fmt(p.alpha) + [COLON] + fmt(p.beta)
  }

  /** One cell of the listing, its arms in order. */
  datatype Row = Row(cell: Name, entries: seq<Entry>)

  datatype Entry = Entry(arm: Name, belief: Posterior)

  function ArmNames(es: seq<Entry>): (names: seq<Name>)
    ensures |names| == |es|
  {
    seq(|es|, i requires 0 <= i < |es| => es[i].arm)
  }

  function RowNames(rows: seq<Row>): (names: seq<Name>)
    ensures |names| == |rows|
  {
    seq(|rows|, i requires 0 <= i < |rows| => rows[i].cell)
  }

  ghost predicate ListsRow(es: seq<Entry>, row: Beliefs) {
    && Lists(ArmNames(es), row.Keys)
    && forall i :: 0 <= i < |es| ==> es[i].arm in row && es[i].belief == row[es[i].arm]
  }

  /** The cells of the state in order, and the arms of each in order. */
  ghost predicate ListsState(rows: seq<Row>, post: Learned) {
    && Lists(RowNames(rows), post.Keys)
    && forall i :: 0 <= i < |rows| ==> rows[i].cell in post && ListsRow(rows[i].entries, post[rows[i].cell])
  }

  ghost function EntryTokens(fmt: Format, es: seq<Entry>): seq<Text>
    requires Printable(fmt)
  {
    if es == [] then [] else [es[0].arm, Printed(fmt, es[0].belief)] + EntryTokens(fmt, es[1..])
  }

  ghost function RowTokens(fmt: Format, rows: seq<Row>): seq<Text>
    requires Printable(fmt)
  {
    if rows == [] then []
    else [rows[0].cell] + EntryTokens(fmt, rows[0].entries) + RowTokens(fmt, rows[1..])
  }

  /** The bytes of "resilientmesh.bandit.v1". */
  const VERSION: Text := [
    114, 101, 115, 105, 108, 105, 101, 110, 116, 109, 101, 115, 104, 46, 98, 97, 110, 100, 105, 116, 46, 118, 49]

  /** Everything `Digest` absorbs. */
  ghost function Tokens(fmt: Format, space: Space, rows: seq<Row>): seq<Text>
    requires Printable(fmt)
  {
    [VERSION, Printed(fmt, space.prior)] + space.arms + RowTokens(fmt, rows)
  }

  ghost function StateDigest(h: HashFn, fmt: Format, space: Space, rows: seq<Row>): Text
    requires Printable(fmt)
  {
    HexEncode(h(Absorb(Tokens(fmt, space, rows))))
  }

  // --------------------------------------------------------------------------
  // Computing it
  // --------------------------------------------------------------------------

  lemma {:induction false} AbsorbMore(ts: seq<Text>, t: Text)
    ensures Absorb(ts + [t]) == Absorb(ts) + Frame(t)
  {
    hide Frame;
    if ts == [] {
      assert [t][1..] == [];
    } else {
      assert (ts + [t])[1..] == ts[1..] + [t];
      AbsorbMore(ts[1..], t);
    }
  }

  lemma {:induction false} EntryTokensMore(fmt: Format, es: seq<Entry>, e: Entry)
    requires Printable(fmt)
    ensures EntryTokens(fmt, es + [e]) == EntryTokens(fmt, es) + [e.arm] + [Printed(fmt, e.belief)]
  {
    hide Printed;
    if es == [] {
      assert [e][1..] == [];
    } else {
      assert (es + [e])[1..] == es[1..] + [e];
      EntryTokensMore(fmt, es[1..], e);
    }
  }

  lemma {:induction false} RowTokensMore(fmt: Format, rows: seq<Row>, r: Row)
    requires Printable(fmt)
    ensures RowTokens(fmt, rows + [r]) == RowTokens(fmt, rows) + [r.cell] + EntryTokens(fmt, r.entries)
  {
    hide EntryTokens;
    if rows == [] {
      assert [r][1..] == [];
    } else {
      assert (rows + [r])[1..] == rows[1..] + [r];
      RowTokensMore(fmt, rows[1..], r);
    }
  }

  /** The arms of one cell, in order: each absorbs its name and its belief. */
  method AbsorbRow(fmt: Format, stream: Bytes, ghost ts: seq<Text>, row: Beliefs)
    returns (out: Bytes, ghost es: seq<Entry>)
    requires Printable(fmt) && stream == Absorb(ts)
    ensures ListsRow(es, row) && out == Absorb(ts + EntryTokens(fmt, es))
  {
    hide Absorb, Lists, EntryTokens, Frame;
    var arms := SortNames(row.Keys);
    out, es := stream, [];
    NoEntryTokens(fmt, ts);
    for i := 0 to |arms|
      invariant |es| == i && out == Absorb(ts + EntryTokens(fmt, es))
      invariant forall j :: 0 <= j < i ==> arms[j] in row && es[j] == Entry(arms[j], row[arms[j]])
    {
      var a := arms[i];
      ListedIn(arms, row.Keys, i);
      var belief := fmt(row[a].alpha) + [COLON] + fmt(row[a].beta);
      ghost var before := ts + EntryTokens(fmt, es);
      AbsorbMore(before, a);
      AbsorbMore(before + [a], belief);
      out := out + Frame(a);
      out := out + Frame(belief);
      EntryTokensMore(fmt, es, Entry(a, row[a]));
      es := es + [Entry(a, row[a])];
      assert before + [a] + [belief] == ts + EntryTokens(fmt, es);
    }
    assert ArmNames(es) == arms;
  }

  lemma NoEntryTokens(fmt: Format, ts: seq<Text>)
    requires Printable(fmt)
    ensures ts + EntryTokens(fmt, []) == ts
  {
  }

  lemma ListedIn(names: seq<Name>, keys: set<Name>, i: nat)
    requires Lists(names, keys) && i < |names|
    ensures names[i] in keys
  {
    hide Less;
  }

  lemma NoRowTokens(fmt: Format, ts: seq<Text>)
    requires Printable(fmt)
    ensures ts + RowTokens(fmt, []) == ts
  {
  }

  lemma HeadTokens(a: Text, b: Text)
    ensures Absorb([a, b]) == Frame(a) + Frame(b)
  {
    hide Frame;
    assert [a, b][1..] == [b] && [b][1..] == [];
    assert Absorb([b]) == Frame(b) + [];
  }

  /** The version, the prior and the arms of the configuration. */
  method AbsorbSpace(fmt: Format, space: Space) returns (out: Bytes)
    requires Printable(fmt)
    ensures out == Absorb([VERSION, Printed(fmt, space.prior)] + space.arms)
  {
    hide Absorb, Frame;
    var prior := fmt(space.prior.alpha) + [COLON] + fmt(space.prior.beta);
    HeadTokens(VERSION, prior);
    out := Frame(VERSION) + Frame(prior);
    assert [VERSION, prior] + space.arms[..0] == [VERSION, prior];
    for i := 0 to |space.arms|
      invariant out == Absorb([VERSION, prior] + space.arms[..i])
    {
      AbsorbMore([VERSION, prior] + space.arms[..i], space.arms[i]);
      assert [VERSION, prior] + space.arms[..i + 1] == [VERSION, prior] + space.arms[..i] + [space.arms[i]];
      out := out + Frame(space.arms[i]);
    }
    assert space.arms[..|space.arms|] == space.arms;
  }

  /** `Digest`: a snapshot, absorbed cell by cell. */
  method DigestOf(h: HashFn, fmt: Format, m: Model) returns (d: Text, ghost rows: seq<Row>)
    requires Printable(fmt)
    ensures forall rs :: ListsState(rs, m.post) ==> d == StateDigest(h, fmt, m.space, rs)
    ensures ListsState(rows, m.post)
  {
    hide Absorb, Lists, EntryTokens, RowTokens, Frame, ListsRow, ListsState, IsSnapshot, Printed;
    var st := m.Snapshot();
    var cells := st.cells;
    var stream := AbsorbSpace(fmt, m.space);
    ghost var head: seq<Text> := [VERSION, Printed(fmt, m.space.prior)] + m.space.arms;
    rows := [];
    NoRowTokens(fmt, head);
    for i := 0 to |cells|
      invariant |rows| == i && stream == Absorb(head + RowTokens(fmt, rows))
      invariant forall j :: 0 <= j < i ==> rows[j].cell == cells[j].cell && ListsRow(rows[j].entries, cells[j].beliefs)
    {
      var c := cells[i].cell;
      ghost var before := head + RowTokens(fmt, rows);
      AbsorbMore(before, c);
      ghost var es;
      stream, es := AbsorbRow(fmt, stream + Frame(c), before + [c], cells[i].beliefs);
      RowTokensMore(fmt, rows, Row(c, es));
      rows := rows + [Row(c, es)];
      assert before + [c] + EntryTokens(fmt, es) == head + RowTokens(fmt, rows);
    }
    SnapshotIsListed(cells, rows, m.post);
    d := HexEncode(h(stream));
    forall rs | ListsState(rs, m.post)
      ensures rs == rows
    {
      ListingIsStable(rs, rows, m.post);
    }
  }

  lemma SnapshotIsListed(cells: seq<CellState>, rows: seq<Row>, post: Learned)
    requires IsSnapshot(cells, post) && |rows| == |cells|
    requires forall j :: 0 <= j < |cells| ==> rows[j].cell == cells[j].cell && ListsRow(rows[j].entries, cells[j].beliefs)
    ensures ListsState(rows, post)
  {
    hide Lists, ListsRow;
    assert RowNames(rows) == CellNames(cells);
  }

  lemma RowListingsAgree(es: seq<Entry>, fs: seq<Entry>, row: Beliefs)
    requires ListsRow(es, row) && ListsRow(fs, row)
    ensures es == fs
  {
    hide Lists;
    ListingsAgree(ArmNames(es), ArmNames(fs), row.Keys);
    forall i | 0 <= i < |es|
      ensures es[i] == fs[i]
    {
      assert ArmNames(es)[i] == ArmNames(fs)[i];
    }
  }

  /** The digest is stable: a state has one listing, whatever order its maps are walked in. */
  lemma ListingIsStable(rs: seq<Row>, qs: seq<Row>, post: Learned)
    requires ListsState(rs, post) && ListsState(qs, post)
    ensures rs == qs
  {
    hide Lists, ListsRow;
    ListingsAgree(RowNames(rs), RowNames(qs), post.Keys);
    forall i | 0 <= i < |rs|
      ensures rs[i] == qs[i]
    {
      assert RowNames(rs)[i] == RowNames(qs)[i];
      RowListingsAgree(rs[i].entries, qs[i].entries, post[rs[i].cell]);
    }
  }

  // --------------------------------------------------------------------------
  // Reading the token list back
  // --------------------------------------------------------------------------

  lemma {:induction false} SplitAtColon(a: Bytes, b: Bytes, x: Bytes, y: Bytes)
    requires a + [COLON] + x == b + [COLON] + y && !HasColon(a) && !HasColon(b)
    ensures a == b && x == y
    decreases |a|
  {
    var s, t := a + [COLON] + x, b + [COLON] + y;
    assert a == [] ==> s[0] == COLON;
    assert a != [] ==> s[0] == a[0] && a[0] in a;
    assert b == [] ==> t[0] == COLON;
    assert b != [] ==> t[0] == b[0] && b[0] in b;
    if a == [] {
      assert x == s[1..] && y == t[1..];
    } else {
      assert s[1..] == a[1..] + [COLON] + x && t[1..] == b[1..] + [COLON] + y;
      SplitAtColon(a[1..], b[1..], x, y);
      assert a == [a[0]] + a[1..] && b == [b[0]] + b[1..];
    }
  }

  /** Beliefs of `inPlay` print differently from one another. */
  ghost predicate Tells(fmt: Format, inPlay: iset<Posterior>)
    requires Printable(fmt)
  {
    forall p, q :: p in inPlay && q in inPlay && Printed(fmt, p) == Printed(fmt, q) ==> p == q
  }

  lemma SameBelief(fmt: Format, inPlay: iset<Posterior>, p: Posterior, q: Posterior)
    requires Printable(fmt) && Tells(fmt, inPlay) && p in inPlay && q in inPlay && Printed(fmt, p) == Printed(fmt, q)
    ensures p == q
  {
    hide Printed;
  }

  /** Where numbers print apart and without a colon, printed beliefs read back. */
  lemma FaithfulTells(fmt: Format, vals: iset<real>)
    requires Printable(fmt) && Faithful(fmt, vals)
    ensures Tells(fmt, iset p: Posterior | p.alpha in vals && p.beta in vals)
  {
    forall p: Posterior, q: Posterior
      | p.alpha in vals && p.beta in vals && q.alpha in vals && q.beta in vals && Printed(fmt, p) == Printed(fmt, q)
      ensures p == q
    {
      SplitAtColon(fmt(p.alpha), fmt(q.alpha), fmt(p.beta), fmt(q.beta));
    }
  }

  lemma TwoAhead(p: Text, q: Text, rest: seq<Text>, x: seq<Text>)
    ensures var s := ([p, q] + rest) + x;
            |s| >= 2 && s[0] == p && s[1] == q && s[2..] == rest + x
  {
  }

  lemma FirstPair(fmt: Format, es: seq<Entry>, x: seq<Text>)
    requires Printable(fmt) && es != []
    ensures var s := EntryTokens(fmt, es) + x;
            && |s| >= 2 && s[0] == es[0].arm && s[1] == Printed(fmt, es[0].belief)
            && s[2..] == EntryTokens(fmt, es[1..]) + x
  {
    hide EntryTokens, Printed;
    UnfoldEntries(fmt, es);
    TwoAhead(es[0].arm, Printed(fmt, es[0].belief), EntryTokens(fmt, es[1..]), x);
  }

  lemma UnfoldEntries(fmt: Format, es: seq<Entry>)
    requires Printable(fmt) && es != []
    ensures EntryTokens(fmt, es) == [es[0].arm, Printed(fmt, es[0].belief)] + EntryTokens(fmt, es[1..])
  {
    hide Printed;
  }

  // --------------------------------------------------------------------------
  // From listings to states
  // --------------------------------------------------------------------------

  lemma ListedAt(names: seq<Name>, keys: set<Name>, k: Name) returns (i: nat)
    requires Lists(names, keys) && k in keys
    ensures i < |names| && names[i] == k
  {
    hide Less;
    assert k in names;
    i :| i < |names| && names[i] == k;
  }

  lemma RowDetermined(es: seq<Entry>, p: Beliefs, q: Beliefs)
    requires ListsRow(es, p) && ListsRow(es, q)
    ensures p == q
  {
    hide Less;
    assert p.Keys == q.Keys by {
      assert forall k :: k in p.Keys <==> k in ArmNames(es);
      assert forall k :: k in q.Keys <==> k in ArmNames(es);
    }
    forall a | a in p
      ensures p[a] == q[a]
    {
      var i := ListedAt(ArmNames(es), p.Keys, a);
      assert es[i].arm == a;
    }
  }

  lemma StateDetermined(rows: seq<Row>, p: Learned, q: Learned)
    requires ListsState(rows, p) && ListsState(rows, q)
    ensures p == q
  {
    hide Less, ListsRow;
    assert p.Keys == q.Keys by {
      assert forall k :: k in p.Keys <==> k in RowNames(rows);
      assert forall k :: k in q.Keys <==> k in RowNames(rows);
    }
    forall c | c in p
      ensures p[c] == q[c]
    {
      var i := ListedAt(RowNames(rows), p.Keys, c);
      assert rows[i].cell == c;
      RowDetermined(rows[i].entries, p[c], q[c]);
    }
  }
}
