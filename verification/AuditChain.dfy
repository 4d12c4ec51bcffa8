/**
 The hash-chained audit ledger: the entry digest (internal/domain/records.go) and the
 verification walk (internal/audit/ledger.go).
 */
module AuditChain {
  import opened Framing

  datatype Entry = Entry(
    seqNo: int, incidentId: Text, kind: Text, actor: Text, detail: Text, atNanos: int,
    prevHash: Text, hash: Text)

  /** Go's field types: `Seq` and the nanosecond timestamp are 64-bit. */
  predicate InRange(e: Entry) {
    IsInt64(e.seqNo) && IsInt64(e.atNanos)
  }

  /** Two entries with the same hashed content; only the recorded digest may differ. */
  predicate SameContent(a: Entry, b: Entry) {
    && a.seqNo == b.seqNo && a.incidentId == b.incidentId && a.kind == b.kind && a.actor == b.actor
    && a.detail == b.detail && a.atNanos == b.atNanos && a.prevHash == b.prevHash
  }

  /** The anchor a chain starts from: sixty-four ASCII zeroes. */
  const GENESIS_HASH: Text := Zeroes(64)

  function Zeroes(n: nat): (s: Bytes)
    ensures |s| == n
  {
    if n == 0 then [] else [48] + Zeroes(n - 1)
  }

  /** The fields `ComputeHash` absorbs, in order. */
  function Fields(e: Entry): seq<Text> {
    [BigEndian(AsUint64(e.seqNo), 8), e.incidentId, e.kind, e.actor, e.detail,
     BigEndian(AsUint64(e.atNanos), 8), e.prevHash]
  }

  function Preimage(e: Entry): Bytes { Absorb(Fields(e)) }

  function ComputeHash(h: HashFn, e: Entry): Text { HexEncode(h(Preimage(e))) }

  lemma Uint64BytesInjective(x: int, y: int)
    requires IsInt64(x) && IsInt64(y)
    requires BigEndian(AsUint64(x), 8) == BigEndian(AsUint64(y), 8)
    ensures x == y
  {
    EightBytesHoldUint64();
    BigEndianInjective(AsUint64(x), AsUint64(y), 8);
  }

  /** The entry encoding is unambiguous: the hashed bytes determine every hashed field. */
  lemma PreimageInjective(a: Entry, b: Entry)
    requires InRange(a) && InRange(b)
    requires Preimage(a) == Preimage(b)
    ensures SameContent(a, b)
  {
    AbsorbInjective(Fields(a), Fields(b));
    var f, g := Fields(a), Fields(b);
    assert f[0] == g[0] && f[1] == g[1] && f[2] == g[2] && f[3] == g[3];
    assert f[4] == g[4] && f[5] == g[5] && f[6] == g[6];
    Uint64BytesInjective(a.seqNo, b.seqNo);
    Uint64BytesInjective(a.atNanos, b.atNanos);
  }

  // --------------------------------------------------------------------------
  // The walk
  // --------------------------------------------------------------------------

  datatype Cause = NoBreak | SequenceGap | PrevHashMismatch | HashMismatch

  datatype Report = Report(valid: bool, entries: nat, headHash: Text, breakAtSeq: int, cause: Cause)

  /** The digest recorded before row `i`. */
  function PrevOf(rows: seq<Entry>, i: nat): Text
    requires i <= |rows|
  {
    if i == 0 then GENESIS_HASH else rows[i - 1].hash
  }

  /** Row `i` is where, and what, a chain needs it to be. */
  predicate RowHolds(h: HashFn, rows: seq<Entry>, i: nat) {
    && i < |rows|
    && rows[i].seqNo == i + 1
    && rows[i].prevHash == PrevOf(rows, i)
    && rows[i].hash == ComputeHash(h, rows[i])
  }

  /** Every one of the first `n` rows holds. */
  ghost predicate PrefixHolds(h: HashFn, rows: seq<Entry>, n: nat)
    requires n <= |rows|
  {
    forall i: nat :: i < n ==> RowHolds(h, rows, i)
  }

  ghost predicate IsChain(h: HashFn, rows: seq<Entry>) { PrefixHolds(h, rows, |rows|) }

  /**
   What the walk must report. `entries` and `headHash` describe the longest prefix that holds;
   the break, if any, is the row after it, and the cause is the first of position, linkage and
   content to fail there. A gap names the missing position, the others the offending row.
   */
  ghost predicate IsVerdict(h: HashFn, rows: seq<Entry>, r: Report) {
    && r.entries <= |rows|
    && PrefixHolds(h, rows, r.entries)
    && r.headHash == PrevOf(rows, r.entries)
    && (r.valid <==> r.entries == |rows|)
    && (r.valid ==> r.breakAtSeq == 0 && r.cause == NoBreak)
    && (!r.valid ==>
          && !RowHolds(h, rows, r.entries)
          && (r.cause == SequenceGap <==> rows[r.entries].seqNo != r.entries + 1)
          && (r.cause == PrevHashMismatch <==>
                && rows[r.entries].seqNo == r.entries + 1
                && rows[r.entries].prevHash != PrevOf(rows, r.entries))
          && (r.cause == HashMismatch <==>
                && rows[r.entries].seqNo == r.entries + 1
                && rows[r.entries].prevHash == PrevOf(rows, r.entries))
          && r.breakAtSeq == r.entries + 1)
  }

  /** The rows and the recipe determine the report. */
  lemma VerdictUnique(h: HashFn, rows: seq<Entry>, a: Report, b: Report)
    requires IsVerdict(h, rows, a) && IsVerdict(h, rows, b)
    ensures a == b
  {
    assert a.entries < b.entries ==> RowHolds(h, rows, a.entries);
    assert b.entries < a.entries ==> RowHolds(h, rows, b.entries);
  }

  datatype Outcome = Verdict(report: Report) | StreamFailed

  /**
   `Verify`: the rows arrive one at a time and the walk stops at the first break. A stream that
   fails before any break yields an error and no report; one that would have failed after the
   break is never read that far.
   */
  method Verify(h: HashFn, rows: seq<Entry>, streamFails: bool) returns (out: Outcome)
    ensures out.Verdict? ==> IsVerdict(h, rows, out.report)
    ensures out.StreamFailed? <==> streamFails && IsChain(h, rows)
  {
    var report := Report(true, 0, GENESIS_HASH, 0, NoBreak);
    var prevHash := GENESIS_HASH;
    var wantSeq := 1;
    for i := 0 to |rows|
      invariant report == Report(true, i, PrevOf(rows, i), 0, NoBreak)
      invariant prevHash == PrevOf(rows, i) && wantSeq == i + 1
      invariant PrefixHolds(h, rows, i)
    {
      var e := rows[i];
      if e.seqNo != wantSeq {
        report := report.(breakAtSeq := wantSeq, cause := SequenceGap);
      } else if e.prevHash != prevHash {
        report := report.(breakAtSeq := e.seqNo, cause := PrevHashMismatch);
      } else if e.hash != ComputeHash(h, e) {
        report := report.(breakAtSeq := e.seqNo, cause := HashMismatch);
      } else {
        assert RowHolds(h, rows, i);
        report := report.(entries := report.entries + 1, headHash := e.hash);
        prevHash := e.hash;
        wantSeq := e.seqNo + 1;
        continue;
      }
      report := report.(valid := false);
      assert !RowHolds(h, rows, i);
      return Verdict(report);
    }
    if streamFails {
      return StreamFailed;
    }
    return Verdict(report);
  }

  // --------------------------------------------------------------------------
  // Tampering
  // --------------------------------------------------------------------------

  /** What the walk reports about a chain broken first at row `k` for one of the three reasons. */
  lemma FirstBreak(h: HashFn, rows: seq<Entry>, k: nat, r: Report)
    requires k < |rows| && PrefixHolds(h, rows, k) && !RowHolds(h, rows, k)
    requires IsVerdict(h, rows, r)
    ensures !r.valid && r.entries == k && r.breakAtSeq == k + 1 && r.headHash == PrevOf(rows, k)
  {
    assert k < r.entries ==> RowHolds(h, rows, k);
    assert r.entries < k ==> RowHolds(h, rows, r.entries);
  }

  /** Rewriting row `k` leaves the rows before it as they were. */
  lemma EditKeepsPrefix(h: HashFn, rows: seq<Entry>, k: nat, e: Entry)
    requires k < |rows| && IsChain(h, rows)
    ensures PrefixHolds(h, rows[k := e], k) && PrevOf(rows[k := e], k) == PrevOf(rows, k)
  {
    var edited := rows[k := e];
    forall i: nat | i < k
      ensures RowHolds(h, edited, i)
    {
      assert RowHolds(h, rows, i);
      assert edited[i] == rows[i];
    }
  }

  /** The cause an edit of row `k` is reported under, when it is caught there. */
  function EditCause(rows: seq<Entry>, k: nat, e: Entry): Cause
    requires k < |rows|
  {
    if e.seqNo != k + 1 then SequenceGap
    else if e.prevHash != PrevOf(rows, k) then PrevHashMismatch
    else HashMismatch
  }

  /** The replacement stands on its own: right position, linked, and its digest is that of its content. */
  predicate StandsAlone(h: HashFn, rows: seq<Entry>, k: nat, e: Entry)
    requires k < |rows|
  {
    e.seqNo == k + 1 && e.prevHash == PrevOf(rows, k) && e.hash == ComputeHash(h, e)
  }

  /**
   What the walk reports when row `k` of a valid chain is replaced by any row at all. A row that does
   not stand alone breaks the chain there; one that does, under a new digest, breaks it at the
   successor, or not at all at the head; one that does under the old digest goes unnoticed.
   */
  lemma EditVerdict(h: HashFn, rows: seq<Entry>, k: nat, e: Entry, r: Report)
    requires k < |rows| && IsChain(h, rows)
    requires IsVerdict(h, rows[k := e], r)
    ensures
      if !StandsAlone(h, rows, k, e)
      then r == Report(false, k, PrevOf(rows, k), k + 1, EditCause(rows, k, e))
      else if e.hash != rows[k].hash && k + 1 < |rows|
      then r == Report(false, k + 1, e.hash, k + 2, PrevHashMismatch)
      else r == Report(true, |rows|, if k + 1 == |rows| then e.hash else rows[|rows| - 1].hash, 0, NoBreak)
  {
    hide ComputeHash;
    var edited := rows[k := e];
    EditKeepsPrefix(h, rows, k, e);
    assert RowHolds(h, edited, k) <==> StandsAlone(h, rows, k, e);
    if !StandsAlone(h, rows, k, e) {
      FirstBreak(h, edited, k, r);
    } else if k + 1 < |rows| && e.hash != rows[k].hash {
      assert RowHolds(h, rows, k + 1) && edited[k + 1] == rows[k + 1];
      FirstBreak(h, edited, k + 1, r);
    } else {
      forall i: nat | i < |rows|
        ensures RowHolds(h, edited, i)
      {
        assert RowHolds(h, rows, i);
      }
      assert r.entries < |rows| ==> RowHolds(h, edited, r.entries);
    }
  }

  /**
   Editing any fields of any row, hashed or not, without a matching recomputed digest is reported at
   exactly that row, with the rows before it still trusted, unless the two contents collide.
   */
  lemma EditedRowIsLocalised(h: HashFn, rows: seq<Entry>, k: nat, e: Entry, r: Report)
    requires k < |rows| && IsChain(h, rows)
    requires InRange(rows[k]) && InRange(e)
    requires e != rows[k] && (e.hash != ComputeHash(h, e) || e.hash == rows[k].hash)
    requires IsVerdict(h, rows[k := e], r)
    ensures || r == Report(false, k, PrevOf(rows, k), k + 1, EditCause(rows, k, e))
            || Collision(h, {Preimage(rows[k]), Preimage(e)})
  {
    hide ComputeHash, Preimage;
    EditVerdict(h, rows, k, e, r);
    if StandsAlone(h, rows, k, e) {
      assert RowHolds(h, rows, k);
      EqualDigestsEqualEntries(h, rows[k], e);
    }
  }

  /**
   Recomputing the edited row's digest repairs that row and moves the break to its successor,
   whose link no longer matches, unless the two contents collide.
   */
  lemma RehashedRowMovesTheBreak(h: HashFn, rows: seq<Entry>, k: nat, e: Entry, r: Report)
    requires k + 1 < |rows| && IsChain(h, rows)
    requires InRange(rows[k]) && InRange(e)
    requires e.seqNo == k + 1 && e.prevHash == rows[k].prevHash
    requires !SameContent(e, rows[k]) && e.hash == ComputeHash(h, e)
    requires IsVerdict(h, rows[k := e], r)
    ensures || (!r.valid && r.entries == k + 1 && r.breakAtSeq == k + 2 && r.cause == PrevHashMismatch)
            || Collision(h, {Preimage(rows[k]), Preimage(e)})
  {
    hide ComputeHash, Preimage;
    EditVerdict(h, rows, k, e, r);
    assert RowHolds(h, rows, k);
    if e.hash == rows[k].hash {
      EqualDigestsEqualEntries(h, rows[k], e);
    }
  }

  /** At the head nothing follows, so a rehashed edit there verifies: only a pinned head catches it. */
  lemma RehashedHeadVerifies(h: HashFn, rows: seq<Entry>, e: Entry, r: Report)
    requires rows != [] && IsChain(h, rows)
    requires e.seqNo == |rows| && e.prevHash == rows[|rows| - 1].prevHash && e.hash == ComputeHash(h, e)
    requires IsVerdict(h, rows[|rows| - 1 := e], r)
    ensures r.valid && r.headHash == e.hash
  {
    var k := |rows| - 1;
    assert RowHolds(h, rows, k);
    EditVerdict(h, rows, k, e, r);
  }

  /** Deleting an interior row is reported as a gap at the position that went missing. */
  lemma DeletedRowIsTheGap(h: HashFn, rows: seq<Entry>, k: nat, r: Report)
    requires k + 1 < |rows| && IsChain(h, rows)
    requires IsVerdict(h, rows[..k] + rows[k + 1..], r)
    ensures !r.valid && r.entries == k && r.breakAtSeq == k + 1 && r.cause == SequenceGap
  {
    var left := rows[..k] + rows[k + 1..];
    forall i: nat | i < k
      ensures RowHolds(h, left, i)
    {
      assert RowHolds(h, rows, i);
    }
    assert left[k] == rows[k + 1] && RowHolds(h, rows, k + 1);
    FirstBreak(h, left, k, r);
  }

  // --------------------------------------------------------------------------
  // The head commits to the history
  // --------------------------------------------------------------------------

  ghost function Preimages(rows: seq<Entry>): set<Bytes> {
    set e | e in rows :: Preimage(e)
  }

  lemma PreimagesMonotone(rows: seq<Entry>, n: nat)
    requires n <= |rows|
    ensures Preimages(rows[..n]) <= Preimages(rows)
  {
  }

  lemma ChainPrefix(h: HashFn, rows: seq<Entry>, n: nat)
    requires n <= |rows| && IsChain(h, rows)
    ensures IsChain(h, rows[..n])
  {
    forall i: nat | i < n
      ensures RowHolds(h, rows[..n], i)
    {
      assert RowHolds(h, rows, i);
    }
  }

  /** A ledger grows by exactly the rows that take the next position, link to the head and hash right. */
  lemma ChainExtends(h: HashFn, rows: seq<Entry>, e: Entry)
    ensures IsChain(h, rows + [e])
       <==> && IsChain(h, rows) && e.seqNo == |rows| + 1
            && e.prevHash == PrevOf(rows, |rows|) && e.hash == ComputeHash(h, e)
  {
    var grown := rows + [e];
    if IsChain(h, grown) {
      ChainPrefix(h, grown, |rows|);
      assert grown[..|rows|] == rows && RowHolds(h, grown, |rows|);
    } else if IsChain(h, rows) {
      assert forall i: nat :: i < |rows| ==> (RowHolds(h, rows, i) <==> RowHolds(h, grown, i));
    }
  }

  ghost predicate AllInRange(rows: seq<Entry>) { forall e :: e in rows ==> InRange(e) }

  /** Two rows recorded under one correct digest are one row, or their contents collide. */
  lemma EqualDigestsEqualEntries(h: HashFn, x: Entry, y: Entry)
    requires InRange(x) && InRange(y)
    requires x.hash == ComputeHash(h, x) && y.hash == ComputeHash(h, y) && x.hash == y.hash
    ensures x == y || Collision(h, {Preimage(x), Preimage(y)})
  {
    HexInjective(h(Preimage(x)), h(Preimage(y)));
    if Preimage(x) == Preimage(y) {
      PreimageInjective(x, y);
    }
  }

  lemma AllInRangePrefix(rows: seq<Entry>, n: nat)
    requires n <= |rows| && AllInRange(rows)
    ensures AllInRange(rows[..n])
  {
  }

  /**
   Pinning the head pins the ledger: two non-empty ledgers that verify and report one head hash
   are equal row for row, in every hashed field and every digest, or two entries collide.
   */
  lemma {:induction false} HeadDeterminesLedger(h: HashFn, a: seq<Entry>, b: seq<Entry>)
    requires a != [] && b != [] && AllInRange(a) && AllInRange(b)
    requires IsChain(h, a) && IsChain(h, b)
    requires a[|a| - 1].hash == b[|b| - 1].hash
    ensures a == b || Collision(h, Preimages(a) + Preimages(b))
    decreases |a|, 0
  {
    hide ComputeHash, Preimage, Collision;
    var m, n := |a| - 1, |b| - 1;
    var x, y, hashed := a[m], b[n], Preimages(a) + Preimages(b);
    assert RowHolds(h, a, m) && RowHolds(h, b, n);
    EqualDigestsEqualEntries(h, x, y);
    if x != y {
      CollisionMonotone(h, {Preimage(x), Preimage(y)}, hashed);
    } else {
      assert m == n;
      assert a == a[..m] + [x] && b == b[..m] + [y];
      if m > 0 {
        HeadDeterminesPrefixes(h, a, b, m);
      }
    }
  }

  lemma {:induction false} HeadDeterminesPrefixes(h: HashFn, a: seq<Entry>, b: seq<Entry>, m: nat)
    requires 0 < m == |a| - 1 == |b| - 1 && AllInRange(a) && AllInRange(b)
    requires IsChain(h, a) && IsChain(h, b) && a[m] == b[m]
    ensures a[..m] == b[..m] || Collision(h, Preimages(a) + Preimages(b))
    decreases m, 1
  {
    hide ComputeHash, Preimage, Collision;
    assert RowHolds(h, a, m) && RowHolds(h, b, m);
    ChainPrefix(h, a, m);
    ChainPrefix(h, b, m);
    AllInRangePrefix(a, m);
    AllInRangePrefix(b, m);
    hide IsChain, AllInRange;
    HeadDeterminesLedger(h, a[..m], b[..m]);
    PreimagesMonotone(a, m);
    PreimagesMonotone(b, m);
    if a[..m] != b[..m] {
      CollisionMonotone(h, Preimages(a[..m]) + Preimages(b[..m]), Preimages(a) + Preimages(b));
    }
  }

  /** The same, from the two reports alone. */
  lemma EqualHeadsEqualLedgers(h: HashFn, a: seq<Entry>, b: seq<Entry>, r: Report, s: Report)
    requires a != [] && b != [] && AllInRange(a) && AllInRange(b)
    requires IsVerdict(h, a, r) && IsVerdict(h, b, s)
    requires r.valid && s.valid && r.headHash == s.headHash
    ensures a == b || Collision(h, Preimages(a) + Preimages(b))
  {
    HeadDeterminesLedger(h, a, b);
  }
}
