/** `Block` (blockchain.py): a record whose hash covers its header, and the nonce search. */
module Blocks {
  import opened Primitives
  import opened Merkle

  datatype Block = Block(
    index: int,
    timestamp: int,
    transactions: seq<Tx>,
    previousHash: string,
    nonce: int,
    merkleRoot: string,
    hash: string,
    difficulty: int)

  function HeaderOf(b: Block): Header {
    Header(b.index, b.timestamp, b.merkleRoot, b.previousHash, b.nonce)
  }

  /** `Block.calculate_hash`: the digest of the serialised header. */
  function CalculateHash(c: Crypto, b: Block): string {
    c.sha(c.headerJson(HeaderOf(b)))
  }

  /** The hash the block would have with nonce `n`. */
  function HashAt(c: Crypto, b: Block, n: int): string {
    CalculateHash(c, b.(nonce := n))
  }

  /** The two invariants a freshly built block has: its root and hash match its content. */
  predicate Sealed(c: Crypto, b: Block) {
    b.merkleRoot == MerkleRoot(c, b.transactions) && b.hash == CalculateHash(c, b)
  }

  /** `Block.__init__`: the root and then the hash are computed eagerly; difficulty starts at 0. */
  function NewBlock(c: Crypto, index: int, timestamp: int, txs: seq<Tx>, previousHash: string, nonce: int): (b: Block)
    ensures Sealed(c, b)
    ensures b.index == index && b.timestamp == timestamp && b.transactions == txs
    ensures b.previousHash == previousHash && b.nonce == nonce && b.difficulty == 0
  {
    var root := MerkleRoot(c, txs);
    Block(index, timestamp, txs, previousHash, nonce, root, c.sha(c.headerJson(Header(index, timestamp, root, previousHash, nonce))), 0)
  }

  /** The hash covers only the header: replacing the transactions and the
      difficulty leaves `CalculateHash` unchanged. */
  lemma HashIgnoresBody(c: Crypto, b: Block, txs: seq<Tx>, d: int)
    ensures CalculateHash(c, b.(transactions := txs, difficulty := d)) == CalculateHash(c, b)
  {
  }

  /** The search of `mine_block` stops: the block already meets the target, or
      `solution` is a later nonce that does. */
  predicate Solvable(c: Crypto, b: Block, difficulty: int, solution: int) {
    MeetsTarget(b.hash, difficulty) || (solution > b.nonce && MeetsTarget(HashAt(c, b, solution), difficulty))
  }

  /**
   * `Block.mine_block(difficulty)`: records the difficulty, then, while the current
   * hash misses the target, increments the nonce and recomputes the hash. The
   * source loops for ever when no nonce meets the target; the model takes as a
   * (ghost) witness a nonce at which the search stops. The result is the first
   * nonce, counting up from the start, at which the target is met.
   */
  method MineBlock(c: Crypto, b: Block, difficulty: int, ghost solution: int) returns (mined: Block)
    requires Solvable(c, b, difficulty, solution)
    ensures mined == b.(nonce := mined.nonce, hash := mined.hash, difficulty := difficulty)
    ensures mined.nonce >= b.nonce
    ensures MeetsTarget(mined.hash, difficulty)
    ensures mined.nonce == b.nonce ==> mined.hash == b.hash
    ensures mined.nonce > b.nonce ==> mined.hash == CalculateHash(c, mined)
    ensures forall n :: b.nonce < n < mined.nonce ==> !MeetsTarget(HashAt(c, b, n), difficulty)
    ensures mined.nonce > b.nonce ==> !MeetsTarget(b.hash, difficulty)
  {
    mined := b.(difficulty := difficulty);
    while !MeetsTarget(mined.hash, difficulty)
      invariant mined == b.(nonce := mined.nonce, hash := mined.hash, difficulty := difficulty)
      invariant b.nonce <= mined.nonce
      invariant mined.nonce == b.nonce ==> mined.hash == b.hash
      invariant mined.nonce > b.nonce ==> mined.hash == HashAt(c, b, mined.nonce)
      invariant mined.nonce > b.nonce ==> !MeetsTarget(b.hash, difficulty)
      invariant forall n :: b.nonce < n < mined.nonce ==> !MeetsTarget(HashAt(c, b, n), difficulty)
      invariant MeetsTarget(mined.hash, difficulty)
                || (mined.nonce < solution && MeetsTarget(HashAt(c, b, solution), difficulty))
      decreases solution - mined.nonce
    {
      mined := mined.(nonce := mined.nonce + 1);
      mined := mined.(hash := CalculateHash(c, mined));
    }
  }

  /** Mining a freshly built block yields a sealed block that meets its target. */
  lemma MinedFreshBlockIsSealed(c: Crypto, b: Block, mined: Block, difficulty: int)
    requires Sealed(c, b)
    requires mined == b.(nonce := mined.nonce, hash := mined.hash, difficulty := difficulty)
    requires mined.nonce == b.nonce ==> mined.hash == b.hash
    requires mined.nonce > b.nonce ==> mined.hash == CalculateHash(c, mined)
    requires mined.nonce >= b.nonce
    ensures Sealed(c, mined)
  {
  }
}
