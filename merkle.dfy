/**
 * `MerkleTree` (blockchain.py): the root is a recomputation scheme. Leaves are
 * the transactions' digests; each round pads an odd level by repeating its
 * last digest and hashes adjacent pairs, until one digest remains.
 */
module Merkle {
  import opened Primitives

  /** The leaf level: one digest per transaction. */
  function Leaves(c: Crypto, txs: seq<Tx>): seq<string> {
    seq(|txs|, i requires 0 <= i < |txs| => TxId(c, txs[i]))
  }

  /** An odd level gets its last digest appended once. */
  function Pad(level: seq<string>): (r: seq<string>)
    ensures |r| % 2 == 0
    ensures |r| == if |level| % 2 == 0 then |level| else |level| + 1
  {
    if |level| % 2 != 0 then level + [level[|level| - 1]] else level
  }

  /** Hashes each adjacent pair of an even-length level. */
  function PairUp(c: Crypto, level: seq<string>): (r: seq<string>)
    requires |level| % 2 == 0
    ensures |r| == |level| / 2
    ensures forall k :: 0 <= k < |r| ==> r[k] == c.sha(level[2 * k] + level[2 * k + 1])
    decreases |level|
  {
    if |level| == 0 then [] else [c.sha(level[0] + level[1])] + PairUp(c, level[2..])
  }

  /** One round of the tree: a level of n >= 2 digests becomes one of ceil(n/2). */
  function NextLevel(c: Crypto, level: seq<string>): (r: seq<string>)
    ensures |r| == (|level| + 1) / 2
    ensures 2 <= |level| ==> 1 <= |r| < |level|
  {
    PairUp(c, Pad(level))
  }

  /** Rounds until one digest remains. */
  function Reduce(c: Crypto, level: seq<string>): string
    requires |level| >= 1
    decreases |level|
  {
    if |level| == 1 then level[0] else Reduce(c, NextLevel(c, level))
  }

  /** `MerkleTree.create_merkle_root` as a specification. */
  function MerkleRoot(c: Crypto, txs: seq<Tx>): string {
    if |txs| == 0 then c.sha([]) else Reduce(c, Leaves(c, txs))
  }

  /** `MerkleTree.create_merkle_root`: the while loop that replaces `tx_hashes` by
      `next_level` until one digest remains. */
  method CreateMerkleRoot(c: Crypto, txs: seq<Tx>) returns (root: string)
    ensures root == MerkleRoot(c, txs)
  {
    if |txs| == 0 {
      return c.sha([]);
    }
    var hashes: seq<string> := [];
    var t := 0;
    while t < |txs|
      invariant 0 <= t <= |txs|
      invariant hashes == Leaves(c, txs[..t])
    {
      hashes := hashes + [TxId(c, txs[t])];
      t := t + 1;
    }
    assert txs[..|txs|] == txs;
    ghost var target := MerkleRoot(c, txs);
    while |hashes| > 1
      invariant |hashes| >= 1
      invariant Reduce(c, hashes) == target
      decreases |hashes|
    {
      ghost var before := hashes;
      if |hashes| % 2 != 0 {
        hashes := hashes + [hashes[|hashes| - 1]];
      }
      assert hashes == Pad(before);
      hashes := CombinePairs(c, hashes);
    }
    root := hashes[0];
  }

  /** The inner `for i in range(0, len(tx_hashes), 2)` loop building `next_level`. */
  method CombinePairs(c: Crypto, level: seq<string>) returns (next: seq<string>)
    requires |level| % 2 == 0
    ensures next == PairUp(c, level)
  {
    next := [];
    var i := 0;
    while i < |level|
      invariant 0 <= i <= |level| && i % 2 == 0
      invariant |next| == i / 2
      invariant forall k :: 0 <= k < |next| ==> next[k] == c.sha(level[2 * k] + level[2 * k + 1])
    {
      next := next + [c.sha(level[i] + level[i + 1])];
      i := i + 2;
    }
  }

  /** `MerkleTree.verify_transaction`: recomputes the whole root; `tx` is not consulted. */
  function VerifyTransaction(c: Crypto, tx: Tx, merkleRoot: string, txs: seq<Tx>): bool {
    merkleRoot == MerkleRoot(c, txs)
  }

  /** The two base cases: no transactions hash the empty string, one transaction is its own digest. */
  lemma MerkleBaseCases(c: Crypto, tx: Tx)
    ensures MerkleRoot(c, []) == c.sha([])
    ensures MerkleRoot(c, [tx]) == TxId(c, tx)
  {
  }

  /** Verification only compares roots: any transaction, member or not, verifies
      against the recomputed root, and none verifies against another root. */
  lemma VerifyIgnoresTransaction(c: Crypto, tx: Tx, other: Tx, merkleRoot: string, txs: seq<Tx>)
    ensures VerifyTransaction(c, tx, MerkleRoot(c, txs), txs)
    ensures VerifyTransaction(c, tx, merkleRoot, txs) == VerifyTransaction(c, other, merkleRoot, txs)
  {
  }

  /**
   * Duplicating the last transaction of an odd list (of more than one) leaves the
   * root unchanged: the root alone does not fix the list's length.
   */
  lemma {:induction false} DuplicateLastKeepsRoot(c: Crypto, txs: seq<Tx>)
    requires |txs| > 1 && |txs| % 2 == 1
    ensures MerkleRoot(c, txs + [txs[|txs| - 1]]) == MerkleRoot(c, txs)
  {
    var longer := txs + [txs[|txs| - 1]];
    var leaves := Leaves(c, txs);
    assert Leaves(c, longer) == Pad(leaves);
    assert NextLevel(c, Pad(leaves)) == NextLevel(c, leaves);
  }

  /** Every element of a level is a digest. */
  ghost predicate AllDigests(c: Crypto, level: seq<string>) {
    forall i :: 0 <= i < |level| ==> IsDigest(c, level[i])
  }

  lemma {:induction false} PairInjective(c: Crypto, a: string, b: string, x: string, y: string)
    requires CollisionFree(c)
    requires IsDigest(c, a) && IsDigest(c, b) && IsDigest(c, x) && IsDigest(c, y)
    requires c.sha(a + b) == c.sha(x + y)
    ensures a == x && b == y
  {
    var pa :| c.sha(pa) == a;
    var pb :| c.sha(pb) == b;
    var px :| c.sha(px) == x;
    var py :| c.sha(py) == y;
    assert a + b == x + y;
    assert a == x;
    assert b == (a + b)[|a|..];
    assert y == (x + y)[|x|..];
  }

  lemma {:induction false} NextLevelDigests(c: Crypto, level: seq<string>)
    ensures AllDigests(c, NextLevel(c, level))
  {
    var p := Pad(level);
    var r := NextLevel(c, level);
    forall k | 0 <= k < |r| ensures IsDigest(c, r[k]) {
      assert c.sha(p[2 * k] + p[2 * k + 1]) == r[k];
    }
  }

  lemma PadDigests(c: Crypto, level: seq<string>)
    requires AllDigests(c, level)
    ensures AllDigests(c, Pad(level))
  {
    var p := Pad(level);
    forall i | 0 <= i < |p| ensures IsDigest(c, p[i]) {
      if i < |level| {
        assert p[i] == level[i];
      } else {
        assert p[i] == level[|level| - 1];
      }
    }
  }

  /** Equal hashed pairs at position k come from equal pairs of digests. */
  lemma PairUpPositionInjective(c: Crypto, p1: seq<string>, p2: seq<string>, k: int)
    requires CollisionFree(c)
    requires |p1| == |p2| && |p1| % 2 == 0 && 0 <= k < |p1| / 2
    requires AllDigests(c, p1) && AllDigests(c, p2)
    requires PairUp(c, p1) == PairUp(c, p2)
    ensures p1[2 * k] == p2[2 * k] && p1[2 * k + 1] == p2[2 * k + 1]
  {
    assert PairUp(c, p1)[k] == c.sha(p1[2 * k] + p1[2 * k + 1]);
    assert PairUp(c, p2)[k] == c.sha(p2[2 * k] + p2[2 * k + 1]);
    PairInjective(c, p1[2 * k], p1[2 * k + 1], p2[2 * k], p2[2 * k + 1]);
  }

  lemma {:induction false} NextLevelInjective(c: Crypto, l1: seq<string>, l2: seq<string>)
    requires CollisionFree(c)
    requires |l1| == |l2| && AllDigests(c, l1) && AllDigests(c, l2)
    requires NextLevel(c, l1) == NextLevel(c, l2)
    ensures l1 == l2
  {
    var p1, p2 := Pad(l1), Pad(l2);
    PadDigests(c, l1);
    PadDigests(c, l2);
    assert PairUp(c, p1) == PairUp(c, p2);
    forall i | 0 <= i < |p1| ensures p1[i] == p2[i] {
      var k := i / 2;
      assert i == 2 * k || i == 2 * k + 1;
      PairUpPositionInjective(c, p1, p2, k);
    }
    assert l1 == p1[..|l1|];
    assert l2 == p2[..|l2|];
  }

  lemma {:induction false} ReduceInjective(c: Crypto, l1: seq<string>, l2: seq<string>)
    requires CollisionFree(c)
    requires |l1| == |l2| >= 1 && AllDigests(c, l1) && AllDigests(c, l2)
    requires Reduce(c, l1) == Reduce(c, l2)
    ensures l1 == l2
    decreases |l1|
  {
    if |l1| > 1 {
      NextLevelDigests(c, l1);
      NextLevelDigests(c, l2);
      ReduceInjective(c, NextLevel(c, l1), NextLevel(c, l2));
      NextLevelInjective(c, l1, l2);
    }
  }

  /**
   * Under collision resistance, two transaction lists of the same length with
   * the same root are equal: changing any field of any transaction changes the root.
   */
  lemma MerkleRootInjective(c: Crypto, txs1: seq<Tx>, txs2: seq<Tx>)
    requires CollisionFree(c)
    requires |txs1| == |txs2|
    requires MerkleRoot(c, txs1) == MerkleRoot(c, txs2)
    ensures txs1 == txs2
  {
    if |txs1| > 0 {
      var l1, l2 := Leaves(c, txs1), Leaves(c, txs2);
      forall i | 0 <= i < |l1| ensures IsDigest(c, l1[i]) && IsDigest(c, l2[i]) {
        assert c.sha(c.txJson(txs1[i])) == l1[i];
        assert c.sha(c.txJson(txs2[i])) == l2[i];
      }
      ReduceInjective(c, l1, l2);
      forall i | 0 <= i < |txs1| ensures txs1[i] == txs2[i] {
        assert c.sha(c.txJson(txs1[i])) == l1[i] == l2[i] == c.sha(c.txJson(txs2[i]));
      }
    }
  }
}
