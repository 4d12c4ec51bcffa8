/**
 The Merkle tree over ledger entry digests (internal/attest/merkle.go): the bottom-up builder
 with odd-node promotion, inclusion proofs, and the verifier, against the recursive
 definitions of sections 2.1 and 2.1.1 of RFC 6962.
 */
module Merkle {
  import opened Collections
  import opened Framing

  const LEAF_PREFIX: Byte := 0x00
  const NODE_PREFIX: Byte := 0x01

  function LeafBytes(e: Digest): Bytes { [LEAF_PREFIX] + e }

  function NodeBytes(l: Digest, r: Digest): Bytes { [NODE_PREFIX] + l + r }

  function LeafHash(h: HashFn, e: Digest): Digest { h(LeafBytes(e)) }

  function NodeHash(h: HashFn, l: Digest, r: Digest): Digest { h(NodeBytes(l, r)) }

  lemma LeafBytesInjective(a: Digest, b: Digest)
    requires LeafBytes(a) == LeafBytes(b)
    ensures a == b
  {
    assert a == LeafBytes(a)[1..] == LeafBytes(b)[1..] == b;
  }

  lemma NodeBytesInjective(l: Digest, r: Digest, l': Digest, r': Digest)
    requires NodeBytes(l, r) == NodeBytes(l', r')
    ensures l == l' && r == r'
  {
    var s, t := NodeBytes(l, r), NodeBytes(l', r');
    assert l == s[1..33] == t[1..33] == l';
    assert r == s[33..] == t[33..] == r';
  }

  /** Domain separation: no leaf preimage is a node preimage. */
  lemma LeafAndNodeBytesDiffer(e: Digest, l: Digest, r: Digest)
    ensures LeafBytes(e) != NodeBytes(l, r)
  {
    assert LeafBytes(e)[0] != NodeBytes(l, r)[0];
  }

  // --------------------------------------------------------------------------
  // RFC 6962, sections 2.1 and 2.1.1
  // --------------------------------------------------------------------------

  function Pow2(j: nat): (p: nat)
    ensures p > 0
  {
    if j == 0 then 1 else 2 * Pow2(j - 1)
  }

  /** The largest power of two smaller than `n`. */
  function Split(n: nat): (k: nat)
    requires n > 1
    ensures 0 < k < n <= 2 * k
  {
    if n == 2 then 1 else 2 * Split((n + 1) / 2)
  }

  lemma {:induction false} SplitIsPow2(n: nat, j: nat)
    requires n > 1
    requires Pow2(j) < n <= 2 * Pow2(j)
    ensures Split(n) == Pow2(j)
    decreases j
  {
    if j == 0 {
    } else {
      SplitIsPow2((n + 1) / 2, j - 1);
    }
  }

  /** MTH(D[n]), the Merkle Tree Hash. RFC 6962 also hashes the empty list; the code refuses it. */
  ghost function MTH(h: HashFn, d: seq<Digest>): Digest
    requires d != []
    decreases |d|
  {
    if |d| == 1 then LeafHash(h, d[0])
    else var k := Split(|d|); NodeHash(h, MTH(h, d[..k]), MTH(h, d[k..]))
  }

  /** One sibling on an inclusion path and the side it sits on. */
  datatype Sibling = Sibling(hash: Digest, right: bool)

  /** PATH(m, D[n]), the Merkle audit path, leaf end first. */
  ghost function PATH(h: HashFn, m: nat, d: seq<Digest>): seq<Sibling>
    requires m < |d|
    decreases |d|
  {
    if |d| == 1 then []
    else
      var k := Split(|d|);
      if m < k
      then PATH(h, m, d[..k]) + [Sibling(MTH(h, d[k..]), true)]
      else PATH(h, m - k, d[k..]) + [Sibling(MTH(h, d[..k]), false)]
  }

  function CeilLog2(n: nat): nat
    requires n > 0
  {
    if n == 1 then 0 else 1 + CeilLog2((n + 1) / 2)
  }

  lemma {:induction false} CeilLog2Exact(n: nat)
    requires n > 0
    ensures n <= Pow2(CeilLog2(n))
    ensures n > 1 ==> Pow2(CeilLog2(n) - 1) < n
    decreases n
  {
    if n == 1 {
    } else {
      CeilLog2Exact((n + 1) / 2);
      if n > 2 {
        assert Pow2(CeilLog2(n) - 1) == 2 * Pow2(CeilLog2(n) - 2);
      }
    }
  }

  lemma {:induction false} CeilLog2Unique(n: nat, d: nat)
    requires n > 0
    requires n <= Pow2(d) && (d > 0 ==> Pow2(d - 1) < n)
    ensures CeilLog2(n) == d
    decreases d
  {
    if d == 0 {
    } else if d == 1 {
    } else {
      CeilLog2Unique((n + 1) / 2, d - 1);
    }
  }

  // --------------------------------------------------------------------------
  // The stored levels
  // --------------------------------------------------------------------------

  /** Where the `i`-th run of `w` leaves starts: i * w, by repeated addition. */
  ghost function Start(w: nat, i: nat): nat {
    if i == 0 then 0 else Start(w, i - 1) + w
  }

  lemma {:induction false} StartDoubles(w: nat, i: nat)
    ensures Start(2 * w, i) == Start(w, 2 * i)
  {
    if i == 0 {
    } else {
      StartDoubles(w, i - 1);
      assert Start(w, 2 * i) == Start(w, 2 * i - 1) + w == Start(w, 2 * i - 2) + w + w;
    }
  }

  lemma {:induction false} StartMonotone(w: nat, i: nat, k: nat)
    requires i <= k
    ensures Start(w, i) <= Start(w, k)
    decreases k
  {
    if i == k {
    } else {
      StartMonotone(w, i, k - 1);
    }
  }

  lemma {:induction false} StartByOnes(i: nat)
    ensures Start(1, i) == i
  {
    if i == 0 {
    } else {
      StartByOnes(i - 1);
    }
  }

  /** The run of up to `w` leaves from `start`. */
  ghost function Run(d: seq<Digest>, start: nat, w: nat): (c: seq<Digest>)
    requires w > 0 && start < |d|
    ensures c != [] && |c| <= w
  {
    if start + w < |d| then d[start..start + w] else d[start..]
  }

  lemma RunJoined(d: seq<Digest>, start: nat, w: nat)
    requires w > 0 && start + w < |d|
    ensures Run(d, start, 2 * w) == Run(d, start, w) + Run(d, start + w, w)
    ensures |Run(d, start, w)| == w
  {
  }

  /** The number of nodes at that level, ceil(n / w). */
  ghost predicate IsWidth(n: nat, w: nat, c: nat) {
    c > 0 && Start(w, c - 1) < n <= Start(w, c)
  }

  lemma WidthInRange(n: nat, w: nat, c: nat, i: nat)
    requires IsWidth(n, w, c)
    ensures i < c <==> Start(w, i) < n
  {
    if i < c {
      StartMonotone(w, i, c - 1);
    } else {
      StartMonotone(w, c, i);
    }
  }

  /** The RFC 6962 hash of the `i`-th aligned run of `w` leaves. */
  ghost function RunHash(h: HashFn, d: seq<Digest>, w: nat, i: nat): Digest
    requires w > 0 && Start(w, i) < |d|
  {
    MTH(h, Run(d, Start(w, i), w))
  }

  /** Level contents: one node for every aligned run of `w` leaves, holding its RFC 6962 hash. */
  ghost predicate IsLevel(h: HashFn, d: seq<Digest>, w: nat, level: seq<Digest>) {
    && w > 0
    && IsWidth(|d|, w, |level|)
    && forall i {:trigger level[i]} :: 0 <= i < |level| ==> Start(w, i) < |d| && level[i] == RunHash(h, d, w, i)
  }

  /** A run twice as wide, reaching past its middle, hashes to the node over its two halves. */
  lemma RunHashSplits(h: HashFn, d: seq<Digest>, start: nat, j: nat)
    requires start + Pow2(j) < |d|
    ensures |Run(d, start, Pow2(j))| == Pow2(j)
    ensures Run(d, start, Pow2(j + 1)) == Run(d, start, Pow2(j)) + Run(d, start + Pow2(j), Pow2(j))
    ensures Split(|Run(d, start, Pow2(j + 1))|) == Pow2(j)
    ensures MTH(h, Run(d, start, Pow2(j + 1)))
         == NodeHash(h, MTH(h, Run(d, start, Pow2(j))), MTH(h, Run(d, start + Pow2(j), Pow2(j))))
  {
    var w := Pow2(j);
    RunJoined(d, start, w);
    var c, l, r := Run(d, start, 2 * w), Run(d, start, w), Run(d, start + w, w);
    SplitIsPow2(|c|, j);
    assert c[..w] == l && c[w..] == r;
  }

  /** One pass of the builder: pairs are hashed, an odd last node is promoted. */
  function Paired(h: HashFn, cur: seq<Digest>): (next: seq<Digest>)
    ensures |next| == (|cur| + 1) / 2
  {
    seq((|cur| + 1) / 2, k requires 0 <= k < (|cur| + 1) / 2 =>
      if 2 * k + 1 < |cur| then NodeHash(h, cur[2 * k], cur[2 * k + 1]) else cur[2 * k])
  }

  lemma NodeOverRuns(h: HashFn, d: seq<Digest>, j: nat, k: nat)
    requires Start(Pow2(j), 2 * k) < |d|
    ensures Start(Pow2(j + 1), k) < |d|
    ensures RunHash(h, d, Pow2(j + 1), k)
         == if Start(Pow2(j), 2 * k + 1) < |d|
            then NodeHash(h, RunHash(h, d, Pow2(j), 2 * k), RunHash(h, d, Pow2(j), 2 * k + 1))
            else RunHash(h, d, Pow2(j), 2 * k)
  {
    var w := Pow2(j);
    hide MTH;
    StartDoubles(w, k);
    var s := Start(w, 2 * k);
    assert Start(w, 2 * k + 1) == s + w;
    if s + w < |d| {
      RunHashSplits(h, d, s, j);
    } else {
      assert Run(d, s, w) == Run(d, s, 2 * w);
    }
  }

  lemma PairedNode(h: HashFn, d: seq<Digest>, j: nat, cur: seq<Digest>, k: nat)
    requires IsLevel(h, d, Pow2(j), cur) && 2 * k < |cur|
    ensures Start(Pow2(j + 1), k) < |d| && Paired(h, cur)[k] == RunHash(h, d, Pow2(j + 1), k)
  {
    hide RunHash;
    WidthInRange(|d|, Pow2(j), |cur|, 2 * k);
    WidthInRange(|d|, Pow2(j), |cur|, 2 * k + 1);
    NodeOverRuns(h, d, j, k);
    assert cur[2 * k] == RunHash(h, d, Pow2(j), 2 * k);
    assert 2 * k + 1 < |cur| ==> cur[2 * k + 1] == RunHash(h, d, Pow2(j), 2 * k + 1);
  }

  lemma PairedIsLevel(h: HashFn, d: seq<Digest>, j: nat, cur: seq<Digest>)
    requires IsLevel(h, d, Pow2(j), cur)
    ensures IsLevel(h, d, Pow2(j + 1), Paired(h, cur))
  {
    hide RunHash;
    var next, w := Paired(h, cur), Pow2(j + 1);
    forall k | 0 <= k < |next|
      ensures Start(w, k) < |d| && next[k] == RunHash(h, d, w, k)
    {
      PairedNode(h, d, j, cur, k);
    }
    HalvedWidth(|d|, Pow2(j), |cur|, |next|);
  }

  datatype Tree = Tree(levels: seq<seq<Digest>>) {

    function Size(): nat {
      if |levels| == 0 then 0 else |levels[0]|
    }
  }

  /** `t` is the tree the builder stores for the entry list `d`. */
  ghost predicate IsTreeOf(h: HashFn, d: seq<Digest>, t: Tree) {
    if d == [] then t.levels == []
    else
      && |t.levels| == CeilLog2(|d|) + 1
      && AreLevels(h, d, t.levels)
  }

  method NextLevel(h: HashFn, cur: seq<Digest>) returns (next: seq<Digest>)
    ensures next == Paired(h, cur)
  {
    next := [];
    var i := 0;
    while i < |cur|
      invariant i == 2 * |next| && |next| <= (|cur| + 1) / 2
      invariant next == Paired(h, cur)[..|next|]
    {
      if i + 1 == |cur| {
        next := next + [cur[i]];
      } else {
        next := next + [NodeHash(h, cur[i], cur[i + 1])];
      }
      i := i + 2;
    }
  }

  lemma HalvedWidth(n: nat, w: nat, c: nat, c': nat)
    requires IsWidth(n, w, c) && c' == (c + 1) / 2
    ensures IsWidth(n, 2 * w, c')
  {
    StartDoubles(w, c');
    StartDoubles(w, c' - 1);
    StartMonotone(w, 2 * c' - 2, c - 1);
    StartMonotone(w, c, 2 * c');
  }

  /** A level narrows to one node exactly when a single subtree covers every leaf. */
  lemma TopLevel(h: HashFn, d: seq<Digest>, j: nat, level: seq<Digest>)
    requires d != [] && IsLevel(h, d, Pow2(j), level)
    requires j > 0 ==> Pow2(j - 1) < |d|
    ensures |level| > 0
    ensures |level| == 1 ==> CeilLog2(|d|) == j
    ensures |level| > 1 ==> Pow2(j) < |d|
  {
    hide RunHash;
    assert Start(Pow2(j), 1) == Pow2(j);
    if |level| == 1 {
      CeilLog2Unique(|d|, j);
    } else {
      StartMonotone(Pow2(j), 1, |level| - 1);
    }
  }

  lemma LeafRun(h: HashFn, d: seq<Digest>, m: nat)
    requires m < |d|
    ensures Start(1, m) == m && Run(d, m, 1) == [d[m]]
    ensures RunHash(h, d, 1, m) == LeafHash(h, d[m])
  {
    StartByOnes(m);
  }

  lemma LeafLevel(h: HashFn, d: seq<Digest>, leaves: seq<Digest>)
    requires d != [] && |leaves| == |d|
    requires forall k :: 0 <= k < |d| ==> leaves[k] == LeafHash(h, d[k])
    ensures IsLevel(h, d, Pow2(0), leaves) && AreLevels(h, d, [leaves])
  {
    hide RunHash, LeafHash;
    StartByOnes(|d|);
    StartByOnes(|d| - 1);
    forall i | 0 <= i < |leaves|
      ensures Start(1, i) < |d| && leaves[i] == RunHash(h, d, 1, i)
    {
      LeafRun(h, d, i);
    }
  }

  method HashLeaves(h: HashFn, entries: seq<Digest>) returns (leaves: seq<Digest>)
    ensures |leaves| == |entries|
    ensures forall k :: 0 <= k < |entries| ==> leaves[k] == LeafHash(h, entries[k])
  {
    leaves := [];
    for i := 0 to |entries|
      invariant |leaves| == i
      invariant forall k :: 0 <= k < i ==> leaves[k] == LeafHash(h, entries[k])
    {
      leaves := leaves + [LeafHash(h, entries[i])];
    }
  }

  /** The levels so far, each a level of the tree over `d`. */
  ghost predicate AreLevels(h: HashFn, d: seq<Digest>, levels: seq<seq<Digest>>) {
    forall j {:trigger levels[j]} :: 0 <= j < |levels| ==> IsLevel(h, d, Pow2(j), levels[j])
  }

  lemma AnotherLevel(h: HashFn, d: seq<Digest>, levels: seq<seq<Digest>>)
    requires d != [] && |levels| > 0 && AreLevels(h, d, levels)
    requires |levels| > 1 ==> Pow2(|levels| - 2) < |d|
    ensures |levels[|levels| - 1]| > 0
    ensures |levels[|levels| - 1]| == 1 ==> IsTreeOf(h, d, Tree(levels))
    ensures |levels[|levels| - 1]| > 1 ==> Pow2(|levels| - 1) < |d|
    ensures AreLevels(h, d, levels + [Paired(h, levels[|levels| - 1])])
  {
    hide IsLevel, Paired, Pow2, CeilLog2;
    var cur := levels[|levels| - 1];
    assert IsLevel(h, d, Pow2(|levels| - 1), cur);
    TopLevel(h, d, |levels| - 1, cur);
    PairedIsLevel(h, d, |levels| - 1, cur);
  }

  /** The builder `New`. */
  method New(h: HashFn, entries: seq<Digest>) returns (t: Tree)
    ensures IsTreeOf(h, entries, t)
  {
    if |entries| == 0 {
      return Tree([]);
    }
    hide IsLevel, AreLevels, Paired, Pow2, IsTreeOf;
    var leaves := HashLeaves(h, entries);
    LeafLevel(h, entries, leaves);
    var levels := [leaves];
    var cur := leaves;
    while |cur| > 1
      invariant |levels| > 0 && cur == levels[|levels| - 1]
      invariant AreLevels(h, entries, levels)
      invariant |levels| > 1 ==> Pow2(|levels| - 2) < |entries|
      decreases |cur|
    {
      AnotherLevel(h, entries, levels);
      var next := NextLevel(h, cur);
      levels := levels + [next];
      cur := next;
    }
    AnotherLevel(h, entries, levels);
    t := Tree(levels);
  }

  datatype TreeError = EmptyTree | IndexOutOfRange

  /** The builder's single top node is MTH of the whole list. */
  lemma TopIsMTH(h: HashFn, d: seq<Digest>, t: Tree)
    requires d != [] && IsTreeOf(h, d, t)
    ensures t.Size() == |d|
    ensures |t.levels[|t.levels| - 1]| == 1 && t.levels[|t.levels| - 1][0] == MTH(h, d)
  {
    hide MTH;
    var j := CeilLog2(|d|);
    CeilLog2Exact(|d|);
    assert IsLevel(h, d, Pow2(0), t.levels[0]);
    StartByOnes(|t.levels[0]|);
    StartByOnes(|t.levels[0]| - 1);
    var top := t.levels[j];
    assert IsLevel(h, d, Pow2(j), top);
    assert Start(Pow2(j), 1) == Pow2(j);
    WidthInRange(|d|, Pow2(j), |top|, 1);
    assert Run(d, 0, Pow2(j)) == d;
  }

  method Root(h: HashFn, ghost d: seq<Digest>, t: Tree) returns (r: Result<Digest, TreeError>)
    requires IsTreeOf(h, d, t)
    ensures r == if d == [] then Err(EmptyTree) else Ok(MTH(h, d))
  {
    if d != [] {
      TopIsMTH(h, d, t);
    }
    if t.Size() == 0 {
      return Err(EmptyTree);
    }
    var top := t.levels[|t.levels| - 1];
    return Ok(top[0]);
  }

  // --------------------------------------------------------------------------
  // Proofs
  // --------------------------------------------------------------------------

  datatype Step = Step(hash: Bytes, right: bool)

  datatype Proof = Proof(leafIndex: int, treeSize: int, entryHash: Bytes, path: seq<Step>, root: Bytes)

  function Written(s: Sibling): Step { Step(HexEncode(s.hash), s.right) }

  function WrittenPath(p: seq<Sibling>): seq<Step> {
    seq(|p|, i requires 0 <= i < |p| => Written(p[i]))
  }

  /** The proof RFC 6962 prescribes for leaf `m` of `d`. */
  ghost function ProofOf(h: HashFn, m: nat, d: seq<Digest>): Proof
    requires m < |d|
  {
    Proof(m, |d|, HexEncode(LeafHash(h, d[m])), WrittenPath(PATH(h, m, d)), HexEncode(MTH(h, d)))
  }

  /** Leaf `m` sits under node `idx` of the level of runs of `w`. */
  ghost predicate Under(d: seq<Digest>, w: nat, idx: nat, m: nat) {
    w > 0 && Start(w, idx) <= m < |d| && m < Start(w, idx) + w
  }

  /** The RFC 6962 path from leaf `m` up to that node. */
  ghost function PathTo(h: HashFn, d: seq<Digest>, w: nat, idx: nat, m: nat): seq<Sibling>
    requires Under(d, w, idx, m)
  {
    PATH(h, m - Start(w, idx), Run(d, Start(w, idx), w))
  }

  /** Climbing from a promoted node adds no sibling. */
  lemma ClimbPromoted(h: HashFn, m: nat, d: seq<Digest>, w: nat, up: nat)
    requires Under(d, w, 2 * up, m) && |d| <= Start(w, 2 * up) + w
    ensures Under(d, 2 * w, up, m) && PathTo(h, d, 2 * w, up, m) == PathTo(h, d, w, 2 * up, m)
  {
    hide PATH;
    StartDoubles(w, up);
    assert Run(d, Start(w, 2 * up), w) == Run(d, Start(w, 2 * up), 2 * w);
  }

  /** Climbing from a left child adds its right sibling. */
  lemma ClimbFromLeft(h: HashFn, m: nat, d: seq<Digest>, j: nat, up: nat)
    requires Under(d, Pow2(j), 2 * up, m) && Start(Pow2(j), 2 * up + 1) < |d|
    ensures Under(d, Pow2(j + 1), up, m)
    ensures PathTo(h, d, Pow2(j + 1), up, m)
         == PathTo(h, d, Pow2(j), 2 * up, m) + [Sibling(RunHash(h, d, Pow2(j), 2 * up + 1), true)]
  {
    hide MTH;
    var w := Pow2(j);
    StartDoubles(w, up);
    var s := Start(w, 2 * up);
    assert Start(w, 2 * up + 1) == s + w;
    RunHashSplits(h, d, s, j);
    var c, l, r := Run(d, s, 2 * w), Run(d, s, w), Run(d, s + w, w);
    assert c[..w] == l && c[w..] == r;
  }

  /** Climbing from a right child adds its left sibling. */
  lemma ClimbFromRight(h: HashFn, m: nat, d: seq<Digest>, j: nat, up: nat)
    requires Under(d, Pow2(j), 2 * up + 1, m)
    ensures Start(Pow2(j), 2 * up) < |d| && Under(d, Pow2(j + 1), up, m)
    ensures PathTo(h, d, Pow2(j + 1), up, m)
         == PathTo(h, d, Pow2(j), 2 * up + 1, m) + [Sibling(RunHash(h, d, Pow2(j), 2 * up), false)]
  {
    hide MTH;
    var w := Pow2(j);
    StartDoubles(w, up);
    var s := Start(w, 2 * up);
    assert Start(w, 2 * up + 1) == s + w;
    RunHashSplits(h, d, s, j);
    var c, l, r := Run(d, s, 2 * w), Run(d, s, w), Run(d, s + w, w);
    assert c[..w] == l && c[w..] == r;
  }

  /** Where the sibling's run starts beyond the leaves, the node is promoted instead. */
  lemma ClimbOverRuns(h: HashFn, m: nat, d: seq<Digest>, j: nat, idx: nat)
    requires Under(d, Pow2(j), idx, m)
    ensures
      var w, sib := Pow2(j), if idx % 2 == 0 then idx + 1 else idx - 1;
      && Under(d, Pow2(j + 1), idx / 2, m)
      && PathTo(h, d, Pow2(j + 1), idx / 2, m)
         == PathTo(h, d, w, idx, m)
            + if Start(w, sib) < |d| then [Sibling(RunHash(h, d, w, sib), sib > idx)] else []
  {
    hide RunHash, PATH;
    var w, up := Pow2(j), idx / 2;
    if idx % 2 == 1 {
      ClimbFromRight(h, m, d, j, up);
    } else if Start(w, idx + 1) < |d| {
      ClimbFromLeft(h, m, d, j, up);
    } else {
      assert Start(w, 2 * up + 1) == Start(w, 2 * up) + w;
      ClimbPromoted(h, m, d, w, up);
    }
  }

  /** Climbing one level extends the path by the sibling the level stores, if it stores one. */
  lemma ClimbPath(h: HashFn, m: nat, d: seq<Digest>, j: nat, idx: nat, level: seq<Digest>)
    requires IsLevel(h, d, Pow2(j), level) && Under(d, Pow2(j), idx, m)
    ensures
      var sib := if idx % 2 == 0 then idx + 1 else idx - 1;
      && Under(d, Pow2(j + 1), idx / 2, m)
      && PathTo(h, d, Pow2(j + 1), idx / 2, m)
         == PathTo(h, d, Pow2(j), idx, m)
            + if sib < |level| then [Sibling(level[sib], sib > idx)] else []
  {
    hide RunHash, PATH;
    var sib: nat := if idx % 2 == 0 then idx + 1 else idx - 1;
    WidthInRange(|d|, Pow2(j), |level|, sib);
    ClimbOverRuns(h, m, d, j, idx);
    assert sib < |level| ==> level[sib] == RunHash(h, d, Pow2(j), sib);
  }

  lemma AtTheLeaf(h: HashFn, d: seq<Digest>, m: nat)
    requires m < |d|
    ensures Under(d, Pow2(0), m, m) && PathTo(h, d, Pow2(0), m, m) == []
    ensures RunHash(h, d, Pow2(0), m) == LeafHash(h, d[m])
  {
    hide MTH;
    LeafRun(h, d, m);
  }

  lemma AtTheRoot(h: HashFn, d: seq<Digest>, j: nat, idx: nat, m: nat)
    requires Under(d, Pow2(j), idx, m) && |d| <= Pow2(j)
    ensures idx == 0 && PathTo(h, d, Pow2(j), idx, m) == PATH(h, m, d)
  {
    hide PATH;
    assert Run(d, 0, Pow2(j)) == d;
  }

  /** The node above leaf `index` after `j` halvings. */
  function Ancestor(index: nat, j: nat): nat {
    if j == 0 then index else Ancestor(index, j - 1) / 2
  }

  /** The siblings the stored levels below `upTo` yield, skipping promoted nodes. */
  function StoredPath(t: Tree, index: nat, upTo: nat): seq<Sibling>
    requires upTo <= |t.levels|
  {
    if upTo == 0 then []
    else
      var idx, cur := Ancestor(index, upTo - 1), t.levels[upTo - 1];
      var sib := if idx % 2 == 0 then idx + 1 else idx - 1;
      StoredPath(t, index, upTo - 1) + if sib < |cur| then [Sibling(cur[sib], sib > idx)] else []
  }

  lemma {:induction false} StoredPathClimbs(h: HashFn, d: seq<Digest>, t: Tree, m: nat, j: nat)
    requires m < |d| && IsTreeOf(h, d, t) && j < |t.levels|
    ensures Under(d, Pow2(j), Ancestor(m, j), m)
    ensures StoredPath(t, m, j) == PathTo(h, d, Pow2(j), Ancestor(m, j), m)
    decreases j
  {
    hide IsLevel, MTH, PATH, Run, RunHash;
    if j == 0 {
      AtTheLeaf(h, d, m);
    } else {
      StoredPathClimbs(h, d, t, m, j - 1);
      var cur := t.levels[j - 1];
      assert IsLevel(h, d, Pow2(j - 1), cur);
      ClimbPath(h, m, d, j - 1, Ancestor(m, j - 1), cur);
    }
  }

  /** Cutting siblings out of the stored levels gives PATH(m, D[n]). */
  lemma StoredPathIsPATH(h: HashFn, d: seq<Digest>, t: Tree, m: nat)
    requires m < |d| && IsTreeOf(h, d, t)
    ensures StoredPath(t, m, |t.levels| - 1) == PATH(h, m, d)
  {
    var j := CeilLog2(|d|);
    CeilLog2Exact(|d|);
    StoredPathClimbs(h, d, t, m, j);
    AtTheRoot(h, d, j, Ancestor(m, j), m);
  }

  /** `ProofFor`: the path the code cuts is exactly PATH(m, D[n]), with the sides marked. */
  method ProofFor(h: HashFn, ghost d: seq<Digest>, t: Tree, index: int) returns (r: Result<Proof, TreeError>)
    requires IsTreeOf(h, d, t)
    ensures r == if d == [] then Err(EmptyTree)
                 else if 0 <= index < |d| then Ok(ProofOf(h, index, d))
                 else Err(IndexOutOfRange)
  {
    if d != [] {
      TopIsMTH(h, d, t);
    }
    if t.Size() == 0 {
      return Err(EmptyTree);
    }
    if index < 0 || index >= t.Size() {
      return Err(IndexOutOfRange);
    }
    var path := CutPath(t, index);
    StoredPathIsPATH(h, d, t, index);
    var root := t.levels[|t.levels| - 1][0];
    var leaf := t.levels[0][index];
    LeafOfTree(h, d, t, index);
    return Ok(Proof(index, t.Size(), HexEncode(leaf), path, HexEncode(root)));
  }

  lemma LeafOfTree(h: HashFn, d: seq<Digest>, t: Tree, m: nat)
    requires m < |d| && IsTreeOf(h, d, t)
    ensures m < |t.levels[0]| && t.levels[0][m] == LeafHash(h, d[m])
  {
    hide MTH;
    assert IsLevel(h, d, Pow2(0), t.levels[0]);
    StartByOnes(m);
    WidthInRange(|d|, 1, |t.levels[0]|, m);
    AtTheLeaf(h, d, m);
  }

  /** The loop of `ProofFor`, climbing by index halving. */
  method CutPath(t: Tree, index: nat) returns (path: seq<Step>)
    requires |t.levels| > 0
    ensures path == WrittenPath(StoredPath(t, index, |t.levels| - 1))
  {
    path := [];
    var idx := index;
    var level := 0;
    while level < |t.levels| - 1
      invariant 0 <= level <= |t.levels| - 1
      invariant idx == Ancestor(index, level)
      invariant path == WrittenPath(StoredPath(t, index, level))
    {
      var cur := t.levels[level];
      var sibling := if idx % 2 == 0 then idx + 1 else idx - 1;
      if sibling < |cur| {
        path := path + [Step(HexEncode(cur[sibling]), sibling > idx)];
      }
      idx := idx / 2;
      level := level + 1;
    }
  }

  lemma {:induction false} SplitWithinPow2(n: nat, e: nat)
    requires n > 1 && n <= Pow2(e)
    ensures e > 0 && Split(n) <= Pow2(e - 1)
    decreases n
  {
    if n == 2 {
    } else {
      SplitWithinPow2((n + 1) / 2, e - 1);
    }
  }

  lemma {:induction false} PathWithinPow2(h: HashFn, m: nat, d: seq<Digest>, e: nat)
    requires m < |d| <= Pow2(e)
    ensures |PATH(h, m, d)| <= e
    decreases |d|
  {
    if |d| == 1 {
    } else {
      var k := Split(|d|);
      SplitWithinPow2(|d|, e);
      if m < k {
        PathWithinPow2(h, m, d[..k], e - 1);
      } else {
        PathWithinPow2(h, m - k, d[k..], e - 1);
      }
    }
  }

  /** A proof is logarithmic: at most ceil(log2 n) hashes. */
  lemma PathIsLogarithmic(h: HashFn, m: nat, d: seq<Digest>)
    requires m < |d|
    ensures |ProofOf(h, m, d).path| <= CeilLog2(|d|)
  {
    CeilLog2Exact(|d|);
    PathWithinPow2(h, m, d, CeilLog2(|d|));
  }

  // --------------------------------------------------------------------------
  // Verification
  // --------------------------------------------------------------------------

  /** A step's hash as 32 raw bytes, if that is what its hex denotes. */
  function ReadHash(s: Bytes): Option<Digest> {
    match HexDecode(s)
    case Some(raw) => if |raw| == 32 then Some(raw) else None
    case None => None
  }

  function ReadPath(path: seq<Step>): Option<seq<Sibling>> {
    if path == [] then Some([])
    else
      match (ReadPath(path[..|path| - 1]), ReadHash(path[|path| - 1].hash))
      case (Some(init), Some(raw)) => Some(init + [Sibling(raw, path[|path| - 1].right)])
      case _ => None
  }

  function Climb(h: HashFn, cur: Digest, s: Sibling): Digest {
    if s.right then NodeHash(h, cur, s.hash) else NodeHash(h, s.hash, cur)
  }

  /** The root a path recomputes from a leaf hash. */
  function Fold(h: HashFn, leaf: Digest, path: seq<Sibling>): Digest {
    if path == [] then leaf else Climb(h, Fold(h, leaf, path[..|path| - 1]), path[|path| - 1])
  }

  /** What it takes for a proof to be accepted for an entry. */
  ghost predicate Accepted(h: HashFn, entry: Digest, p: Proof) {
    && 0 <= p.leafIndex < p.treeSize
    && p.entryHash == HexEncode(LeafHash(h, entry))
    && ReadPath(p.path).Some?
    && p.root == HexEncode(Fold(h, LeafHash(h, entry), ReadPath(p.path).value))
  }

  lemma {:induction false} BadPrefixBadPath(path: seq<Step>, i: nat)
    requires i <= |path| && ReadPath(path[..i]).None?
    ensures ReadPath(path).None?
    decreases |path| - i
  {
    if i == |path| {
      assert path[..i] == path;
    } else {
      assert path[..i + 1][..i] == path[..i];
      BadPrefixBadPath(path, i + 1);
    }
  }

  method VerifyProof(h: HashFn, entry: Digest, p: Proof) returns (ok: bool)
    ensures ok <==> Accepted(h, entry, p)
  {
    if p.treeSize <= 0 || p.leafIndex < 0 || p.leafIndex >= p.treeSize {
      return false;
    }
    var cur := LeafHash(h, entry);
    if HexEncode(cur) != p.entryHash {
      return false;
    }
    for i := 0 to |p.path|
      invariant ReadPath(p.path[..i]).Some?
      invariant cur == Fold(h, LeafHash(h, entry), ReadPath(p.path[..i]).value)
    {
      var step := p.path[i];
      assert p.path[..i + 1][..i] == p.path[..i];
      var decoded := HexDecode(step.hash);
      if decoded.None? || |decoded.value| != 32 {
        BadPrefixBadPath(p.path, i + 1);
        return false;
      }
      var sib: Digest := decoded.value;
      cur := if step.right then NodeHash(h, cur, sib) else NodeHash(h, sib, cur);
    }
    assert p.path[..|p.path|] == p.path;
    return HexEncode(cur) == p.root;
  }

  lemma {:induction false} WrittenPathReads(path: seq<Sibling>)
    ensures ReadPath(WrittenPath(path)) == Some(path)
  {
    if path == [] {
    } else {
      var n := |path| - 1;
      assert WrittenPath(path)[..n] == WrittenPath(path[..n]);
      WrittenPathReads(path[..n]);
      HexRoundTrip(path[n].hash);
      assert path == path[..n] + [path[n]];
    }
  }

  lemma {:induction false} PathFoldsToRoot(h: HashFn, m: nat, d: seq<Digest>)
    requires m < |d|
    ensures Fold(h, LeafHash(h, d[m]), PATH(h, m, d)) == MTH(h, d)
    decreases |d|
  {
    if |d| == 1 {
    } else {
      var k := Split(|d|);
      var path := PATH(h, m, d);
      if m < k {
        PathFoldsToRoot(h, m, d[..k]);
        assert path[..|path| - 1] == PATH(h, m, d[..k]);
      } else {
        PathFoldsToRoot(h, m - k, d[k..]);
        assert path[..|path| - 1] == PATH(h, m - k, d[k..]);
      }
    }
  }

  /** Completeness: every proof cut from a tree verifies for its own entry. */
  lemma CutProofsVerify(h: HashFn, m: nat, d: seq<Digest>)
    requires m < |d|
    ensures Accepted(h, d[m], ProofOf(h, m, d))
  {
    PathFoldsToRoot(h, m, d);
    WrittenPathReads(PATH(h, m, d));
  }

  /** Every string hashed while building the tree over `d`. */
  ghost function TreeStrings(h: HashFn, d: seq<Digest>): set<Bytes>
    requires d != []
    decreases |d|
  {
    if |d| == 1 then {LeafBytes(d[0])}
    else
      var k := Split(|d|);
      {NodeBytes(MTH(h, d[..k]), MTH(h, d[k..]))} + TreeStrings(h, d[..k]) + TreeStrings(h, d[k..])
  }

  /** Every string hashed while checking a path from `entry`. */
  ghost function PathStrings(h: HashFn, entry: Digest, path: seq<Sibling>): set<Bytes> {
    if path == [] then {LeafBytes(entry)}
    else
      var below := Fold(h, LeafHash(h, entry), path[..|path| - 1]);
      var s := path[|path| - 1];
      PathStrings(h, entry, path[..|path| - 1])
      + {if s.right then NodeBytes(below, s.hash) else NodeBytes(s.hash, below)}
  }

  /** The path is the prescribed one, sides included, of a leaf that holds this entry. */
  ghost predicate IsPathOf(h: HashFn, entry: Digest, path: seq<Sibling>, d: seq<Digest>, m: nat) {
    m < |d| && d[m] == entry && path == PATH(h, m, d)
  }

  /** What the builder hashes at the top of a tree with more than one leaf. */
  lemma TopStrings(h: HashFn, d: seq<Digest>)
    requires |d| > 1
    ensures
      var k := Split(|d|);
      var l, r := MTH(h, d[..k]), MTH(h, d[k..]);
      && MTH(h, d) == h(NodeBytes(l, r)) && NodeBytes(l, r) in TreeStrings(h, d)
      && TreeStrings(h, d[..k]) <= TreeStrings(h, d) && TreeStrings(h, d[k..]) <= TreeStrings(h, d)
  {
  }

  lemma OnlyString(h: HashFn, d: seq<Digest>)
    requires |d| == 1
    ensures MTH(h, d) == h(LeafBytes(d[0])) && LeafBytes(d[0]) in TreeStrings(h, d)
  {
  }

  /** What the verifier hashes at the last step of a path. */
  lemma LastString(h: HashFn, entry: Digest, init: seq<Sibling>, s: Sibling)
    ensures
      var path, below := init + [s], Fold(h, LeafHash(h, entry), init);
      var top := if s.right then NodeBytes(below, s.hash) else NodeBytes(s.hash, below);
      && Fold(h, LeafHash(h, entry), path) == h(top) && top in PathStrings(h, entry, path)
      && PathStrings(h, entry, init) <= PathStrings(h, entry, path)
  {
    assert (init + [s])[..|init|] == init;
  }

  lemma CollisionFrom(h: HashFn, hashed: set<Bytes>, x: Bytes, y: Bytes)
    requires x in hashed && y in hashed && x != y && h(x) == h(y)
    ensures Collision(h, hashed)
  {
  }

  /** The path of a leaf of one half goes on with the hash of the other. */
  lemma PathFromLeft(h: HashFn, entry: Digest, init: seq<Sibling>, d: seq<Digest>, m: nat)
    requires |d| > 1 && IsPathOf(h, entry, init, d[..Split(|d|)], m)
    ensures IsPathOf(h, entry, init + [Sibling(MTH(h, d[Split(|d|)..]), true)], d, m)
  {
    hide Split, MTH;
  }

  lemma PathFromRight(h: HashFn, entry: Digest, init: seq<Sibling>, d: seq<Digest>, m: nat)
    requires |d| > 1 && m >= Split(|d|) && IsPathOf(h, entry, init, d[Split(|d|)..], m - Split(|d|))
    ensures IsPathOf(h, entry, init + [Sibling(MTH(h, d[..Split(|d|)]), false)], d, m)
  {
    hide Split, MTH;
  }

  lemma LeafSound(h: HashFn, entry: Digest, d: seq<Digest>)
    requires d != [] && LeafHash(h, entry) == MTH(h, d)
    ensures IsPathOf(h, entry, [], d, 0) || Collision(h, TreeStrings(h, d) + {LeafBytes(entry)})
  {
    hide MTH, TreeStrings, Collision;
    var hashed := TreeStrings(h, d) + {LeafBytes(entry)};
    if |d| == 1 {
      OnlyString(h, d);
      if LeafBytes(entry) == LeafBytes(d[0]) {
        LeafBytesInjective(entry, d[0]);
      } else {
        CollisionFrom(h, hashed, LeafBytes(entry), LeafBytes(d[0]));
      }
    } else {
      TopStrings(h, d);
      var k := Split(|d|);
      var l, r := MTH(h, d[..k]), MTH(h, d[k..]);
      LeafAndNodeBytesDiffer(entry, l, r);
      CollisionFrom(h, hashed, LeafBytes(entry), NodeBytes(l, r));
    }
  }

  lemma {:induction false} FoldSound(h: HashFn, entry: Digest, path: seq<Sibling>, d: seq<Digest>)
    requires d != []
    requires Fold(h, LeafHash(h, entry), path) == MTH(h, d)
    ensures || (exists m: nat :: IsPathOf(h, entry, path, d, m))
            || Collision(h, TreeStrings(h, d) + PathStrings(h, entry, path))
    decreases |path|
  {
    hide MTH, TreeStrings, Collision, IsPathOf, NodeBytes, LeafBytes;
    var hashed := TreeStrings(h, d) + PathStrings(h, entry, path);
    if path == [] {
      LeafSound(h, entry, d);
    } else {
      hide Fold, PathStrings;
      var init, s := path[..|path| - 1], path[|path| - 1];
      assert path == init + [s];
      LastString(h, entry, init, s);
      var below := Fold(h, LeafHash(h, entry), init);
      var a, b := if s.right then below else s.hash, if s.right then s.hash else below;
      if |d| == 1 {
        OnlyString(h, d);
        LeafAndNodeBytesDiffer(d[0], a, b);
        CollisionFrom(h, hashed, LeafBytes(d[0]), NodeBytes(a, b));
      } else {
        TopStrings(h, d);
        var k := Split(|d|);
        var l, r := MTH(h, d[..k]), MTH(h, d[k..]);
        if NodeBytes(a, b) == NodeBytes(l, r) {
          NodeBytesInjective(a, b, l, r);
          var half := if s.right then d[..k] else d[k..];
          FoldSound(h, entry, init, half);
          if m: nat :| IsPathOf(h, entry, init, half, m) {
            if s.right {
              PathFromLeft(h, entry, init, d, m);
            } else {
              PathFromRight(h, entry, init, d, m + k);
            }
          } else {
            CollisionMonotone(h, TreeStrings(h, half) + PathStrings(h, entry, init), hashed);
          }
        } else {
          CollisionFrom(h, hashed, NodeBytes(a, b), NodeBytes(l, r));
        }
      }
    }
  }

  /**
   Soundness: a proof, with a path of any length, accepted against the root of `d` carries exactly the
   prescribed path, sides included, of a leaf of `d` that holds this entry, unless two different
   strings hashed by the builder or the verifier collide.
   */
  lemma AcceptedEntryIsALeaf(h: HashFn, entry: Digest, p: Proof, d: seq<Digest>)
    requires d != []
    requires Accepted(h, entry, p) && p.root == HexEncode(MTH(h, d))
    ensures || (exists m: nat :: IsPathOf(h, entry, ReadPath(p.path).value, d, m))
            || Collision(h, TreeStrings(h, d) + PathStrings(h, entry, ReadPath(p.path).value))
  {
    var path := ReadPath(p.path).value;
    HexInjective(Fold(h, LeafHash(h, entry), path), MTH(h, d));
    FoldSound(h, entry, path, d);
  }

  /** The sides of a path alone tell which leaf of a tree it is for. */
  lemma {:induction false} SidesPinTheLeaf(h: HashFn, d: seq<Digest>, m: nat, m': nat)
    requires m < |d| && m' < |d| && |PATH(h, m, d)| == |PATH(h, m', d)|
    requires forall k :: 0 <= k < |PATH(h, m, d)| ==> PATH(h, m, d)[k].right == PATH(h, m', d)[k].right
    ensures m == m'
    decreases |d|
  {
    if |d| > 1 {
      var k, p, q := Split(|d|), PATH(h, m, d), PATH(h, m', d);
      assert p[|p| - 1].right == (m < k) && q[|q| - 1].right == (m' < k);
      var half, i, i' := if m < k then d[..k] else d[k..], if m < k then m else m - k, if m < k then m' else m' - k;
      assert p[..|p| - 1] == PATH(h, i, half) && q[..|q| - 1] == PATH(h, i', half);
      forall j | 0 <= j < |PATH(h, i, half)|
        ensures PATH(h, i, half)[j].right == PATH(h, i', half)[j].right
      {
        assert p[j] == PATH(h, i, half)[j] && q[j] == PATH(h, i', half)[j];
      }
      SidesPinTheLeaf(h, half, i, i');
    }
  }

  /** Two non-empty ledgers, of any lengths, with one root are the same ledger, or a collision. */
  lemma {:induction false} EqualRootsEqualLists(h: HashFn, a: seq<Digest>, b: seq<Digest>)
    requires a != [] && b != []
    requires MTH(h, a) == MTH(h, b)
    ensures a == b || Collision(h, TreeStrings(h, a) + TreeStrings(h, b))
    decreases |a|
  {
    hide MTH, TreeStrings, Collision, NodeBytes, LeafBytes;
    var hashed := TreeStrings(h, a) + TreeStrings(h, b);
    if |a| == 1 && |b| == 1 {
      OnlyString(h, a);
      OnlyString(h, b);
      if LeafBytes(a[0]) == LeafBytes(b[0]) {
        LeafBytesInjective(a[0], b[0]);
      } else {
        CollisionFrom(h, hashed, LeafBytes(a[0]), LeafBytes(b[0]));
      }
    } else if |a| == 1 || |b| == 1 {
      var one, many := if |a| == 1 then a else b, if |a| == 1 then b else a;
      var k := Split(|many|);
      OnlyString(h, one);
      TopStrings(h, many);
      LeafAndNodeBytesDiffer(one[0], MTH(h, many[..k]), MTH(h, many[k..]));
      CollisionFrom(h, hashed, LeafBytes(one[0]), NodeBytes(MTH(h, many[..k]), MTH(h, many[k..])));
    } else {
      var i, j := Split(|a|), Split(|b|);
      var l, r, l', r' := MTH(h, a[..i]), MTH(h, a[i..]), MTH(h, b[..j]), MTH(h, b[j..]);
      TopStrings(h, a);
      TopStrings(h, b);
      if NodeBytes(l, r) == NodeBytes(l', r') {
        NodeBytesInjective(l, r, l', r');
        EqualRootsEqualLists(h, a[..i], b[..j]);
        EqualRootsEqualLists(h, a[i..], b[j..]);
        if a[..i] != b[..j] {
          CollisionMonotone(h, TreeStrings(h, a[..i]) + TreeStrings(h, b[..j]), hashed);
        } else if a[i..] != b[j..] {
          CollisionMonotone(h, TreeStrings(h, a[i..]) + TreeStrings(h, b[j..]), hashed);
        } else {
          assert a == a[..i] + a[i..] && b == b[..j] + b[j..];
        }
      } else {
        CollisionFrom(h, hashed, NodeBytes(l, r), NodeBytes(l', r'));
      }
    }
  }

  /**
   Acceptance does not bind the claimed position: the proof cut for leaf `m` verifies under an altered
   index and size exactly when the two are in range of each other, so the place has to be read off the
   sides of the path.
   */
  lemma PositionIsNotBound(h: HashFn, m: nat, d: seq<Digest>, index: int, size: int)
    requires m < |d|
    ensures Accepted(h, d[m], ProofOf(h, m, d).(leafIndex := index, treeSize := size)) <==> 0 <= index < size
  {
    CutProofsVerify(h, m, d);
  }
}
