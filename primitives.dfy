/**
 * Hashing and serialisation as uninterpreted functions, the transaction record,
 * and the proof-of-work target test on hex digests (blockchain.py).
 */
module Primitives {
  import opened Wrappers

  /** A transaction dictionary: the four core keys, any further metadata keys
      (`type`, `message`, ...) and the `id` key once one has been assigned. */
  datatype Tx = Tx(
    sender: string,               // "from"
    recipient: string,            // "to"
    amount: int,
    timestamp: int,
    extra: map<string, string>,   // metadata keys other than the core ones
    id: Option<string>)

  /** The five block fields that `Block.calculate_hash` serialises. */
  datatype Header = Header(index: int, timestamp: int, merkleRoot: string, previousHash: string, nonce: int)

  /**
   * SHA-256 over the UTF-8 encoding of a string, as a hex digest (`sha`), and
   * `json.dumps(..., sort_keys=True)` of a transaction and of a block header.
   * Nothing is assumed about them except where a lemma says so.
   */
  datatype Crypto = Crypto(sha: string -> string, txJson: Tx -> string, headerJson: Header -> string)

  /** `Blockchain.generate_transaction_id`: the digest of the transaction's canonical JSON. */
  function TxId(c: Crypto, tx: Tx): string {
    c.sha(c.txJson(tx))
  }

  /** A string that some input hashes to. */
  ghost predicate IsDigest(c: Crypto, s: string) {
    exists pre :: c.sha(pre) == s
  }

  /**
   * The collision-resistance hypothesis under which tampering is detectable:
   * the hash and the transaction serialisation are injective, and a
   * concatenation of two digests splits back into the same two digests (as
   * for any self-delimiting, e.g. length-prefixed, digest encoding).
   */
  ghost predicate CollisionFree(c: Crypto) {
    && (forall s, t :: c.sha(s) == c.sha(t) ==> s == t)
    && (forall a, b, x, y {:trigger c.sha(a) + c.sha(b), c.sha(x) + c.sha(y)} ::
          c.sha(a) + c.sha(b) == c.sha(x) + c.sha(y) ==> c.sha(a) == c.sha(x))
    && (forall t, u :: c.txJson(t) == c.txJson(u) ==> t == u)
  }

  /** Python's `s[:d]`, including negative and over-long `d`. */
  function PrefixSlice(s: string, d: int): (r: string)
    ensures |r| <= |s|
  {
    if d >= 0 then (if d <= |s| then s[..d] else s)
    else if |s| + d >= 0 then s[..|s| + d]
    else []
  }

  /** Python's `'0' * d` (empty for d <= 0). */
  function Zeros(d: int): (r: string)
    ensures |r| == if d <= 0 then 0 else d
  {
    if d <= 0 then [] else seq(d, _ => '0')
  }

  /** The proof-of-work test `hash[:difficulty] == '0' * difficulty`. */
  predicate MeetsTarget(hash: string, difficulty: int) {
    PrefixSlice(hash, difficulty) == Zeros(difficulty)
  }

  /**
   * What the target test means: for a non-negative difficulty d the hash is at
   * least d characters long and starts with d zeros; for a negative one (which
   * `_replace_chain` can adopt from a peer) only hashes of at most -d characters pass.
   */
  lemma MeetsTargetMeaning(hash: string, d: int)
    ensures d >= 0 ==> (MeetsTarget(hash, d) <==> d <= |hash| && forall i :: 0 <= i < d ==> hash[i] == '0')
    ensures d < 0 ==> (MeetsTarget(hash, d) <==> |hash| <= -d)
  {
    if d >= 0 && d <= |hash| && forall i :: 0 <= i < d ==> hash[i] == '0' {
      assert PrefixSlice(hash, d) == Zeros(d);
    }
    if d > 0 && MeetsTarget(hash, d) {
      assert |PrefixSlice(hash, d)| == d;
      forall i | 0 <= i < d ensures hash[i] == '0' {
        assert PrefixSlice(hash, d)[i] == Zeros(d)[i];
      }
    }
  }

  /** A hash that meets a difficulty also meets every smaller non-negative one. */
  lemma MeetsTargetMonotone(hash: string, d: int, e: int)
    requires 0 <= e <= d
    requires MeetsTarget(hash, d)
    ensures MeetsTarget(hash, e)
  {
    MeetsTargetMeaning(hash, d);
    MeetsTargetMeaning(hash, e);
  }

  /** A prefix one longer is the prefix followed by the next element. */
  lemma PrefixSnoc<T>(s: seq<T>, j: int)
    requires 0 <= j < |s|
    ensures s[..j + 1] == s[..j] + [s[j]]
  {
  }
}
