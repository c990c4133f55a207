/**
 * The `Blockchain` object of blockchain.py: the chain, the mempool, the set of
 * processed transaction ids, the mining parameters, the pause flags and the
 * checkpoint slot, with the operations that update them in place.
 * Clock readings are parameters; the two checkpoint files are one `stored` slot.
 */
module Ledger {
  import opened Wrappers
  import opened Primitives
  import opened Merkle
  import opened Blocks
  import opened Chain

  const InitialMiningReward := 100
  const InitialTargetBlockTime := 60
  /** Blocks between two difficulty adjustments, as a new ledger sets it. */
  const InitialAdjustmentInterval := 10
  /** Above this many processed ids the set is cut down ... */
  const MaxProcessedIds := 10000
  /** ... to this many. */
  const RetainedIds := 5000
  const GenesisTimestamp := 1684792800
  const GenesisMessage := "Genesis Block - First block in the chain"
  const GenesisPrevHash := "0"
  const GenesisNonce := 0
  const CheckpointVersion := "1.0"

  /** Keys an `add_transaction` metadata entry is not taken from (they name the core fields). */
  const ReservedKeys: set<string> := {"from", "to", "amount", "timestamp", "id"}

  /** The single transaction of the genesis block. */
  function GenesisTx(): Tx {
    Tx("genesis", "network", 0, GenesisTimestamp, map["message" := GenesisMessage], None)
  }

  /** `create_genesis_block` without a checkpoint: every node builds the same block,
      which is not mined and carries the ledger's difficulty. */
  function GenesisBlock(c: Crypto, difficulty: int): (b: Block)
    ensures Sealed(c, b) && b.index == 0 && b.previousHash == GenesisPrevHash
    ensures b.transactions == [GenesisTx()] && b.difficulty == difficulty
    ensures b.timestamp == GenesisTimestamp && b.nonce == GenesisNonce
  {
    NewBlock(c, 0, GenesisTimestamp, [GenesisTx()], GenesisPrevHash, GenesisNonce).(difficulty := difficulty)
  }

  /** The dictionary `add_transaction` builds before it adds an id. */
  function Draft(sender: string, recipient: string, amount: int, metadata: map<string, string>, now: int): (tx: Tx)
    ensures tx.id == None && tx.extra.Keys !! ReservedKeys
  {
    Tx(sender, recipient, amount, now, map k | k in metadata && k !in ReservedKeys :: metadata[k], None)
  }

  /** The three admission rules, checked by `add_transaction` in this order. */
  predicate Admissible(c: Crypto, chain: seq<Block>, processed: set<string>, tx: Tx) {
    && tx.amount >= 0
    && (IsSystem(tx.sender) || Balance(chain, tx.sender) >= tx.amount)
    && TxId(c, tx) !in processed
  }

  /**
   * The id recorded for a transaction when its block is mined is the digest of the
   * stored dictionary, which holds the `id` key; the id checked on admission is the
   * digest without it. Under collision resistance the two never coincide, so
   * re-submitting an identical dictionary is never caught by the recorded id.
   */
  lemma RecordedIdDiffersFromCheckedId(c: Crypto, draft: Tx)
    requires CollisionFree(c)
    requires draft.id == None
    ensures TxId(c, draft.(id := Some(TxId(c, draft)))) != TxId(c, draft)
  {
  }

  /** The reward `mine_pending_transactions` appends for the miner. */
  function RewardTx(miner: string, reward: int, now: int): Tx {
    Tx("network", miner, reward, now, map["type" := "reward"], None)
  }

  /** The ids `mine_pending_transactions` records for a block's transactions. */
  function IdsOf(c: Crypto, txs: seq<Tx>): set<string> {
    set tx | tx in txs :: TxId(c, tx)
  }

  /**
   * The new difficulty when `_adjust_difficulty` runs: one up when the interval
   * took less than half the expected time, one down when it took more than twice
   * and the difficulty is above 1. It moves by at most one, and never falls below
   * 1 by adjustment.
   */
  function Adjusted(difficulty: int, elapsed: int, expected: int): (r: int)
    ensures difficulty - 1 <= r <= difficulty + 1
    ensures r < difficulty ==> r >= 1
  {
    if 2 * elapsed < expected then difficulty + 1
    else if elapsed > 2 * expected && difficulty > 1 then difficulty - 1
    else difficulty
  }

  lemma AdjustedMeaning(difficulty: int, elapsed: int, expected: int)
    ensures Adjusted(difficulty, elapsed, expected) == difficulty + 1 <==> 2 * elapsed < expected
    ensures Adjusted(difficulty, elapsed, expected) == difficulty - 1 <==>
      2 * elapsed >= expected && elapsed > 2 * expected && difficulty > 1
  {
  }

  /** The seven fields a checkpoint saves. */
  datatype Snapshot = Snapshot(
    chain: seq<Block>,
    pending: seq<Tx>,
    processedIds: set<string>,
    difficulty: int,
    miningReward: int,
    targetBlockTime: int,
    lastAdjustmentTime: int)

  /** The metadata file written beside a checkpoint. */
  datatype Metadata = Metadata(
    timestamp: int,
    reason: string,
    chainLength: int,
    difficulty: int,
    pendingCount: int,
    blockchainHash: string,
    version: string)

  datatype Checkpoint = Checkpoint(metadata: Metadata, state: Snapshot)

  function JoinedHashes(chain: seq<Block>): string
    decreases |chain|
  {
    if chain == [] then [] else JoinedHashes(chain[..|chain| - 1]) + chain[|chain| - 1].hash
  }

  /** `_calculate_blockchain_hash`: the digest of all block hashes, joined. */
  function ChainDigest(c: Crypto, chain: seq<Block>): string {
    c.sha(JoinedHashes(chain))
  }

  /** Returns `n` elements of `ids`: the source keeps the last `n` of an
      iteration order it does not control. */
  method Retain(ids: set<string>, n: nat) returns (kept: set<string>)
    requires n <= |ids|
    ensures kept <= ids && |kept| == n
  {
    kept := {};
    var rest := ids;
    while |kept| < n
      invariant kept <= ids && rest <= ids && kept !! rest && kept + rest == ids
      invariant |kept| + |rest| == |ids| && |kept| <= n
      decreases n - |kept|
    {
      var x :| x in rest;
      kept := kept + {x};
      rest := rest - {x};
    }
  }

  /** One step of the balance replay of `comprehensive_validation`. */
  method ApplyEntry(balances: map<string, int>, issues: seq<Issue>, e: Entry)
    returns (balances': map<string, int>, issues': seq<Issue>)
    ensures Replay(balances', issues') == ReplayStep(Replay(balances, issues), e)
  {
    var tx := e.tx;
    balances', issues' := balances, issues;
    if tx.sender !in balances' {
      balances' := balances'[tx.sender := 0];
    }
    if tx.recipient !in balances' {
      balances' := balances'[tx.recipient := 0];
    }
    if !IsSystem(tx.sender) {
      balances' := balances'[tx.sender := balances'[tx.sender] - tx.amount];
    }
    balances' := balances'[tx.recipient := balances'[tx.recipient] + tx.amount];
    if !IsSystem(tx.sender) && balances'[tx.sender] < 0 {
      issues' := issues' + [NegativeBalance(tx.sender, e.block)];
    }
  }

  /** The replay of one block's transactions over the running balances. */
  method ReplayBlock(ghost done: seq<Entry>, balances: map<string, int>, issues: seq<Issue>, b: Block)
    returns (balances': map<string, int>, issues': seq<Issue>)
    requires Replay(balances, issues) == ReplayAll(done)
    ensures Replay(balances', issues') == ReplayAll(done + BlockEntries(b))
  {
    balances', issues' := balances, issues;
    var entries := BlockEntries(b);
    ghost var seen := done;
    var j := 0;
    while j < |b.transactions|
      invariant 0 <= j <= |b.transactions|
      invariant seen == done + entries[..j]
      invariant Replay(balances', issues') == ReplayAll(seen)
    {
      balances', issues' := ApplyEntry(balances', issues', entries[j]);
      ReplaySnoc(seen, entries[j]);
      seen := seen + [entries[j]];
      PrefixSnoc(entries, j);
      j := j + 1;
    }
    assert entries[..j] == entries;
  }

  /** The block `mine_pending_transactions` builds from the mempool (reward included). */
  function Assembled(c: Crypto, chain: seq<Block>, txs: seq<Tx>, timestamp: int): Block
    requires |chain| > 0
  {
    NewBlock(c, |chain|, timestamp, txs, chain[|chain| - 1].hash, 0)
  }

  class Blockchain {
    const crypto: Crypto
    var chain: seq<Block>
    var pending: seq<Tx>
    var processedIds: set<string>
    var difficulty: int
    var miningReward: int
    var targetBlockTime: int
    /** Blocks between two difficulty adjustments; callers may change it. */
    var adjustmentInterval: int
    var lastAdjustmentTime: int
    var isPaused: bool
    var pauseTimestamp: Option<int>
    /** Whether the continuous-mining thread is running. */
    var miningActive: bool
    /** The checkpoint files, if both exist. */
    var stored: Option<Checkpoint>

    function State(): Snapshot
      reads this
    {
      Snapshot(chain, pending, processedIds, difficulty, miningReward, targetBlockTime, lastAdjustmentTime)
    }

    function CheckpointOf(reason: string, now: int): Checkpoint
      reads this
    {
      Checkpoint(Metadata(now, reason, |chain|, difficulty, |pending|, ChainDigest(crypto, chain), CheckpointVersion), State())
    }

    /**
     * `Blockchain.__init__`: when a checkpoint is stored the state is loaded from it;
     * otherwise the ledger starts from the genesis block and tries to store a
     * checkpoint of it (`saveFails` says whether that write fails).
     */
    constructor (crypto: Crypto, difficulty: int, disk: Option<Checkpoint>, now: int, saveFails: bool)
      ensures this.crypto == crypto && stored.Some? == (disk.Some? || !saveFails)
      ensures !isPaused && pauseTimestamp == None && !miningActive
      ensures adjustmentInterval == InitialAdjustmentInterval
      ensures disk.Some? ==> State() == disk.value.state && stored == disk
      ensures disk.None? ==> State() == Snapshot([GenesisBlock(crypto, difficulty)], [], {}, difficulty,
                                                 InitialMiningReward, InitialTargetBlockTime, now)
      ensures disk.None? && !saveFails ==> stored == Some(CheckpointOf("Initial genesis block", now))
    {
      this.crypto := crypto;
      chain := [];
      this.difficulty := difficulty;
      pending := [];
      miningReward := InitialMiningReward;
      processedIds := {};
      targetBlockTime := InitialTargetBlockTime;
      adjustmentInterval := InitialAdjustmentInterval;
      lastAdjustmentTime := now;
      isPaused := false;
      pauseTimestamp := None;
      miningActive := false;
      stored := disk;
      new;
      var loaded, _ := LoadCheckpoint();
      if !loaded {
        chain := chain + [GenesisBlock(crypto, difficulty)];
        var _ := CreateCheckpoint("Initial genesis block", now, saveFails);
      }
    }

    /** `create_checkpoint`: stores the seven fields and their metadata, unless writing fails. */
    method CreateCheckpoint(reason: string, now: int, fails: bool) returns (ok: bool)
      modifies this`stored
      ensures ok == !fails
      ensures ok ==> stored == Some(CheckpointOf(reason, now))
      ensures !ok ==> stored == old(stored)
    {
      if fails {
        return false;
      }
      stored := Some(CheckpointOf(reason, now));
      return true;
    }

    /** `load_checkpoint`: restores exactly the seven saved fields, when a checkpoint exists. */
    method LoadCheckpoint() returns (ok: bool, metadata: Option<Metadata>)
      modifies this`chain, this`pending, this`processedIds, this`difficulty,
               this`miningReward, this`targetBlockTime, this`lastAdjustmentTime
      ensures ok <==> stored.Some?
      ensures ok ==> State() == stored.value.state && metadata == Some(stored.value.metadata)
      ensures !ok ==> State() == old(State()) && metadata == None
    {
      if stored.None? {
        return false, None;
      }
      var state := stored.value.state;
      chain := state.chain;
      pending := state.pending;
      processedIds := state.processedIds;
      difficulty := state.difficulty;
      miningReward := state.miningReward;
      targetBlockTime := state.targetBlockTime;
      lastAdjustmentTime := state.lastAdjustmentTime;
      return true, Some(stored.value.metadata);
    }

    /**
     * `pause_blockchain`: refused when already paused; otherwise stops mining, then
     * checkpoints, and only a stored checkpoint sets the pause flag and time. The
     * clock is read twice: once for the checkpoint's metadata, once for the pause time.
     */
    method PauseBlockchain(reason: string, checkpointTime: int, pauseTime: int, saveFails: bool) returns (ok: bool)
      modifies this`isPaused, this`pauseTimestamp, this`miningActive, this`stored
      ensures old(isPaused) ==> !ok && isPaused && pauseTimestamp == old(pauseTimestamp)
                                && miningActive == old(miningActive) && stored == old(stored)
      ensures !old(isPaused) ==> !miningActive && ok == !saveFails
      ensures !old(isPaused) && ok ==> isPaused && pauseTimestamp == Some(pauseTime)
                                       && stored == Some(CheckpointOf(reason, checkpointTime))
      ensures !old(isPaused) && !ok ==> !isPaused && pauseTimestamp == old(pauseTimestamp) && stored == old(stored)
    {
      if isPaused {
        return false;
      }
      miningActive := false;
      var saved := CreateCheckpoint(reason, checkpointTime, saveFails);
      if !saved {
        return false;
      }
      isPaused := true;
      pauseTimestamp := Some(pauseTime);
      return true;
    }

    /**
     * `resume_blockchain`: loads the stored checkpoint whether or not the ledger was
     * paused. Success needs a checkpoint and leaves the ledger unpaused; failure
     * changes nothing.
     */
    method ResumeBlockchain() returns (ok: bool)
      modifies this`chain, this`pending, this`processedIds, this`difficulty,
               this`miningReward, this`targetBlockTime, this`lastAdjustmentTime,
               this`isPaused, this`pauseTimestamp
      ensures ok <==> stored.Some?
      ensures ok ==> State() == stored.value.state && !isPaused && pauseTimestamp == None
      ensures !ok ==> State() == old(State()) && isPaused == old(isPaused) && pauseTimestamp == old(pauseTimestamp)
    {
      if !isPaused && pauseTimestamp.None? {
        var loadedAnyway, _ := LoadCheckpoint();
        return loadedAnyway;
      }
      var loaded, _ := LoadCheckpoint();
      if !loaded {
        return false;
      }
      isPaused := false;
      pauseTimestamp := None;
      return true;
    }

    /** `get_balance`: folds the confirmed transactions; the mempool is not consulted. */
    method GetBalance(address: string) returns (balance: int)
      ensures balance == Balance(chain, address)
    {
      balance := 0;
      var i := 0;
      while i < |chain|
        invariant 0 <= i <= |chain|
        invariant balance == Balance(chain[..i], address)
      {
        var entries := BlockEntries(chain[i]);
        var j := 0;
        while j < |chain[i].transactions|
          invariant 0 <= j <= |chain[i].transactions|
          invariant balance == Balance(chain[..i], address) + Net(entries[..j], address)
        {
          var tx := chain[i].transactions[j];
          if tx.sender == address {
            balance := balance - tx.amount;
          }
          if tx.recipient == address {
            balance := balance + tx.amount;
          }
          assert entries[..j + 1][..j] == entries[..j];
          j := j + 1;
        }
        assert entries[..j] == entries;
        EntriesStep(chain, i);
        NetAppend(Entries(chain[..i]), entries, address);
        i := i + 1;
      }
      assert chain[..i] == chain;
    }

    /**
     * `add_transaction`: rejects a negative amount, a non-system sender whose
     * confirmed balance is below the amount, and a dictionary whose id was already
     * processed; otherwise appends the dictionary with its id and returns the id.
     */
    method AddTransaction(sender: string, recipient: string, amount: int, metadata: map<string, string>, now: int)
      returns (id: Option<string>)
      modifies this`pending
      ensures var draft := Draft(sender, recipient, amount, metadata, now);
        && (id.Some? <==> Admissible(crypto, chain, processedIds, draft))
        && (id.Some? ==> id.value == TxId(crypto, draft) && pending == old(pending) + [draft.(id := id)])
        && (id.None? ==> pending == old(pending))
    {
      if amount < 0 {
        return None;
      }
      if !IsSystem(sender) {
        var balance := GetBalance(sender);
        if balance < amount {
          return None;
        }
      }
      var draft := Draft(sender, recipient, amount, metadata, now);
      var txId := TxId(crypto, draft);
      if txId in processedIds {
        return None;
      }
      pending := pending + [draft.(id := Some(txId))];
      return Some(txId);
    }

    /**
     * `_adjust_difficulty`: runs only when the chain length is a multiple of the
     * interval. A zero interval makes the source raise, so it is excluded; for any
     * other interval Python's and Dafny's remainders agree on being zero.
     */
    method AdjustDifficulty(now: int)
      requires adjustmentInterval != 0
      modifies this`difficulty, this`lastAdjustmentTime
      ensures |chain| % adjustmentInterval != 0 ==>
        difficulty == old(difficulty) && lastAdjustmentTime == old(lastAdjustmentTime)
      ensures |chain| % adjustmentInterval == 0 ==>
        && difficulty == Adjusted(old(difficulty), now - old(lastAdjustmentTime), targetBlockTime * adjustmentInterval)
        && lastAdjustmentTime == now
    {
      if |chain| % adjustmentInterval != 0 {
        return;
      }
      var expected := targetBlockTime * adjustmentInterval;
      var elapsed := now - lastAdjustmentTime;
      if 2 * elapsed < expected {
        difficulty := difficulty + 1;
      } else if elapsed > expected * 2 {
        if difficulty > 1 {
          difficulty := difficulty - 1;
        }
      }
      lastAdjustmentTime := now;
    }

    /** `set_difficulty`: values below 1 become 1. */
    method SetDifficulty(requested: int)
      modifies this`difficulty
      ensures difficulty >= 1
      ensures requested >= 1 ==> difficulty == requested
      ensures requested < 1 ==> difficulty == 1
    {
      var d := requested;
      if d < 1 {
        d := 1;
      }
      difficulty := d;
    }

    /** Adds the id of every transaction to the processed set, then cuts the set
        down when it has grown past the cap. */
    method RecordProcessedIds(txs: seq<Tx>)
      modifies this`processedIds
      ensures var all := old(processedIds) + IdsOf(crypto, txs);
        && (|all| <= MaxProcessedIds ==> processedIds == all)
        && (|all| > MaxProcessedIds ==> processedIds <= all && |processedIds| == RetainedIds)
    {
      var ids := processedIds;
      var k := 0;
      while k < |txs|
        invariant 0 <= k <= |txs|
        invariant ids == processedIds + IdsOf(crypto, txs[..k])
      {
        assert IdsOf(crypto, txs[..k + 1]) == IdsOf(crypto, txs[..k]) + {TxId(crypto, txs[k])} by {
          assert txs[..k + 1] == txs[..k] + [txs[k]];
        }
        ids := ids + {TxId(crypto, txs[k])};
        k := k + 1;
      }
      assert txs[..k] == txs;
      if |ids| > MaxProcessedIds {
        ids := Retain(ids, RetainedIds);
      }
      processedIds := ids;
    }

    /** Builds the block on top of the tip, mines it at the current difficulty and
        appends it. */
    method AppendMined(txs: seq<Tx>, timestamp: int, ghost solution: int) returns (mined: Block)
      requires |chain| > 0 && Solvable(crypto, Assembled(crypto, chain, txs, timestamp), difficulty, solution)
      modifies this`chain
      ensures chain == old(chain) + [mined]
      ensures && mined.index == old(|chain|)
              && mined.previousHash == old(chain[|chain| - 1].hash)
              && mined.timestamp == timestamp
              && mined.transactions == txs
              && mined.difficulty == difficulty
              && Sealed(crypto, mined)
              && MeetsTarget(mined.hash, difficulty)
      ensures old(ChainValid(crypto, chain)) ==> ChainValid(crypto, chain)
      ensures old(IndexesMatch(chain)) ==> IndexesMatch(chain)
    {
      var built := Assembled(crypto, chain, txs, timestamp);
      mined := MineBlock(crypto, built, difficulty, solution);
      MinedFreshBlockIsSealed(crypto, built, mined, difficulty);
      ChainValidAppend(crypto, chain, mined);
      chain := chain + [mined];
    }

    /** The part of `mine_pending_transactions` after the tip lookup succeeded,
        with `txs` the mempool including the reward. */
    method MineOnTip(txs: seq<Tx>, blockTime: int, adjustTime: int, ghost solution: int) returns (mined: Block)
      requires |chain| > 0 && Solvable(crypto, Assembled(crypto, chain, txs, blockTime), difficulty, solution)
      requires adjustmentInterval != 0
      modifies this`chain, this`pending, this`processedIds, this`difficulty, this`lastAdjustmentTime
      ensures chain == old(chain) + [mined] && pending == []
      ensures && mined.index == old(|chain|)
              && mined.previousHash == old(chain[|chain| - 1].hash)
              && mined.timestamp == blockTime
              && mined.transactions == txs
              && mined.difficulty == old(difficulty)
              && Sealed(crypto, mined)
              && MeetsTarget(mined.hash, old(difficulty))
      ensures var all := old(processedIds) + IdsOf(crypto, txs);
        && (|all| <= MaxProcessedIds ==> processedIds == all)
        && (|all| > MaxProcessedIds ==> processedIds <= all && |processedIds| == RetainedIds)
      ensures |chain| % adjustmentInterval == 0 ==>
        && difficulty == Adjusted(old(difficulty), adjustTime - old(lastAdjustmentTime), targetBlockTime * adjustmentInterval)
        && lastAdjustmentTime == adjustTime
      ensures |chain| % adjustmentInterval != 0 ==>
        difficulty == old(difficulty) && lastAdjustmentTime == old(lastAdjustmentTime)
      ensures old(ChainValid(crypto, chain)) ==> ChainValid(crypto, chain)
      ensures old(IndexesMatch(chain)) ==> IndexesMatch(chain)
    {
      RecordProcessedIds(txs);
      mined := AppendMined(txs, blockTime, solution);
      pending := [];
      AdjustDifficulty(adjustTime);
    }

    /**
     * `mine_pending_transactions`: appends the miner's reward to the mempool, builds
     * a block from the whole mempool on top of the tip, records the ids, caps the id
     * set, mines the block at the current difficulty, appends it, empties the
     * mempool and possibly adjusts the difficulty. On an empty chain the tip lookup
     * fails after the reward was appended, and nothing else changes.
     */
    method MinePendingTransactions(miner: string, rewardTime: int, blockTime: int, adjustTime: int, ghost solution: int)
      returns (block: Option<Block>)
      requires |chain| > 0 ==>
        Solvable(crypto, Assembled(crypto, chain, pending + [RewardTx(miner, miningReward, rewardTime)], blockTime), difficulty, solution)
      requires |chain| > 0 ==> adjustmentInterval != 0
      modifies this`chain, this`pending, this`processedIds, this`difficulty, this`lastAdjustmentTime
      ensures old(|chain|) == 0 ==>
        && block == None
        && pending == old(pending) + [RewardTx(miner, miningReward, rewardTime)]
        && chain == old(chain) && processedIds == old(processedIds)
        && difficulty == old(difficulty) && lastAdjustmentTime == old(lastAdjustmentTime)
      ensures old(|chain|) > 0 ==> block.Some? && chain == old(chain) + [block.value] && pending == []
      ensures block.Some? ==>
        && block.value.index == old(|chain|)
        && block.value.previousHash == old(chain[|chain| - 1].hash)
        && block.value.timestamp == blockTime
        && block.value.transactions == old(pending) + [RewardTx(miner, miningReward, rewardTime)]
        && block.value.difficulty == old(difficulty)
        && Sealed(crypto, block.value)
        && MeetsTarget(block.value.hash, old(difficulty))
      ensures block.Some? ==>
        var all := old(processedIds) + IdsOf(crypto, block.value.transactions);
        && (|all| <= MaxProcessedIds ==> processedIds == all)
        && (|all| > MaxProcessedIds ==> processedIds <= all && |processedIds| == RetainedIds)
      ensures block.Some? ==> |processedIds| <= MaxProcessedIds
      ensures block.Some? && |chain| % adjustmentInterval == 0 ==>
        && difficulty == Adjusted(old(difficulty), adjustTime - old(lastAdjustmentTime), targetBlockTime * adjustmentInterval)
        && lastAdjustmentTime == adjustTime
      ensures block.Some? && |chain| % adjustmentInterval != 0 ==>
        difficulty == old(difficulty) && lastAdjustmentTime == old(lastAdjustmentTime)
      ensures old(ChainValid(crypto, chain)) ==> ChainValid(crypto, chain)
      ensures old(IndexesMatch(chain)) ==> IndexesMatch(chain)
    {
      var txs := pending + [RewardTx(miner, miningReward, rewardTime)];
      if |chain| == 0 {
        pending := txs;
        return None;
      }
      var mined := MineOnTip(txs, blockTime, adjustTime, solution);
      return Some(mined);
    }

    /** `is_chain_valid`: stops at the first block that fails a check. */
    method IsChainValid() returns (valid: bool)
      ensures valid == ChainValid(crypto, chain)
    {
      var i := 1;
      while i < |chain|
        invariant 1 <= i
        invariant forall k :: 1 <= k < i && k < |chain| ==> BlockPasses(crypto, chain, k)
      {
        var current, previous := chain[i], chain[i - 1];
        if current.hash != CalculateHash(crypto, current) {
          assert !BlockPasses(crypto, chain, i);
          return false;
        }
        if current.previousHash != previous.hash {
          assert !BlockPasses(crypto, chain, i);
          return false;
        }
        var root := CreateMerkleRoot(crypto, current.transactions);
        if current.merkleRoot != root {
          assert !BlockPasses(crypto, chain, i);
          return false;
        }
        if PrefixSlice(current.hash, current.difficulty) != Zeros(current.difficulty) {
          assert !BlockPasses(crypto, chain, i);
          return false;
        }
        i := i + 1;
      }
      return true;
    }

    /** The four per-block checks of `comprehensive_validation` for block i. */
    method CheckBlock(i: int) returns (found: seq<Issue>)
      requires 0 <= i < |chain|
      ensures found == BlockIssues(crypto, chain, i)
    {
      var b := chain[i];
      var wrongIndex := if b.index != i then [WrongIndex(i, b.index)] else [];
      var early := if i > 0 && b.timestamp < chain[i - 1].timestamp then [TimestampBeforePrevious(i)] else [];
      var root := CreateMerkleRoot(crypto, b.transactions);
      var badRoot := if b.merkleRoot != root then [InconsistentMerkleRoot(i)] else [];
      var badHash := if b.hash != CalculateHash(crypto, b) then [InconsistentHash(i)] else [];
      found := wrongIndex + early + badRoot + badHash;
    }

    /** `comprehensive_validation`: the integrity check, then the per-block checks,
        then the balance replay over all confirmed transactions. */
    method ComprehensiveValidation() returns (ok: bool, issues: seq<Issue>)
      ensures (ok, issues) == Comprehensive(crypto, chain)
    {
      var intact := IsChainValid();
      if !intact {
        return false, [IntegrityCheckFailed];
      }
      issues := [];
      var i := 0;
      while i < |chain|
        invariant 0 <= i <= |chain|
        invariant issues == StructuralIssues(crypto, chain, i)
      {
        var found := CheckBlock(i);
        issues := issues + found;
        i := i + 1;
      }
      var balances: map<string, int> := map[];
      var overdrafts: seq<Issue> := [];
      i := 0;
      while i < |chain|
        invariant 0 <= i <= |chain|
        invariant Replay(balances, overdrafts) == ReplayAll(Entries(chain[..i]))
      {
        EntriesStep(chain, i);
        balances, overdrafts := ReplayBlock(Entries(chain[..i]), balances, overdrafts, chain[i]);
        i := i + 1;
      }
      assert chain[..i] == chain;
      issues := issues + overdrafts;
      ok := issues == [];
    }

    /** `get_block_by_hash`: the first block carrying the hash, if any. */
    method GetBlockByHash(hash: string) returns (found: Option<Block>)
      ensures found.None? <==> forall k :: 0 <= k < |chain| ==> chain[k].hash != hash
      ensures found.Some? ==> exists i :: 0 <= i < |chain| && chain[i] == found.value && found.value.hash == hash
                                          && forall k :: 0 <= k < i ==> chain[k].hash != hash
    {
      var i := 0;
      while i < |chain|
        invariant 0 <= i <= |chain|
        invariant forall k :: 0 <= k < i ==> chain[k].hash != hash
      {
        if chain[i].hash == hash {
          return Some(chain[i]);
        }
        i := i + 1;
      }
      return None;
    }

    /** `get_transaction_history`: every confirmed transaction naming the address,
        tagged with its block's index and timestamp. */
    method GetTransactionHistory(address: string) returns (history: seq<Entry>)
      ensures history == History(chain, address)
    {
      history := [];
      var i := 0;
      while i < |chain|
        invariant 0 <= i <= |chain|
        invariant history == Involving(Entries(chain[..i]), address)
      {
        var entries := BlockEntries(chain[i]);
        ghost var seen := Entries(chain[..i]);
        var j := 0;
        while j < |chain[i].transactions|
          invariant 0 <= j <= |chain[i].transactions|
          invariant seen == Entries(chain[..i]) + entries[..j]
          invariant history == Involving(seen, address)
        {
          var tx := chain[i].transactions[j];
          InvolvingSnoc(seen, entries[j], address);
          if tx.sender == address || tx.recipient == address {
            history := history + [Entry(tx, chain[i].index, chain[i].timestamp)];
          }
          seen := seen + [entries[j]];
          PrefixSnoc(entries, j);
          j := j + 1;
        }
        assert entries[..j] == entries;
        EntriesStep(chain, i);
        i := i + 1;
      }
      assert chain[..i] == chain;
    }
  }
}
