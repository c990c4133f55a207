/**
 * What `Blockchain` (blockchain.py) computes over its chain: the two validators,
 * balances, address histories and block lookup, as specification functions.
 * The methods of `Ledger.Blockchain` are proved to compute them.
 */
module Chain {
  import opened Wrappers
  import opened Primitives
  import opened Merkle
  import opened Blocks

  /** The two senders that may create value. */
  predicate IsSystem(address: string) {
    address == "network" || address == "genesis"
  }

  // ----- is_chain_valid -------------------------------------------------------

  /** The four checks `is_chain_valid` makes of block i >= 1, in the source's order. */
  predicate BlockPasses(c: Crypto, chain: seq<Block>, i: int)
    requires 1 <= i < |chain|
  {
    && chain[i].hash == CalculateHash(c, chain[i])
    && chain[i].previousHash == chain[i - 1].hash
    && chain[i].merkleRoot == MerkleRoot(c, chain[i].transactions)
    && MeetsTarget(chain[i].hash, chain[i].difficulty)
  }

  /** `Blockchain.is_chain_valid`: every block after the first passes; block 0 is never checked. */
  predicate ChainValid(c: Crypto, chain: seq<Block>) {
    forall i :: 1 <= i < |chain| ==> BlockPasses(c, chain, i)
  }

  /** A chain extended by one block is valid exactly when the chain was and the
      new block passes the four checks against the old tip. */
  lemma ChainValidAppend(c: Crypto, chain: seq<Block>, b: Block)
    requires |chain| >= 1
    ensures ChainValid(c, chain + [b]) <==> ChainValid(c, chain) && BlockPasses(c, chain + [b], |chain|)
  {
    var longer := chain + [b];
    if ChainValid(c, longer) {
      forall i | 1 <= i < |chain| ensures BlockPasses(c, chain, i) {
        assert BlockPasses(c, longer, i);
      }
    }
    if ChainValid(c, chain) && BlockPasses(c, longer, |chain|) {
      forall i | 1 <= i < |longer| ensures BlockPasses(c, longer, i) {
        if i < |chain| {
          assert BlockPasses(c, chain, i);
        }
      }
    }
  }

  /** The chain with transaction j of block i given another amount, in place. */
  function WithAmount(chain: seq<Block>, i: int, j: int, amount: int): seq<Block>
    requires 0 <= i < |chain| && 0 <= j < |chain[i].transactions|
  {
    var txs := chain[i].transactions;
    chain[i := chain[i].(transactions := txs[j := txs[j].(amount := amount)])]
  }

  /**
   * Under collision resistance, replacing the transaction list of a confirmed
   * block (not the genesis block) by a different list of the same length, without
   * re-mining, makes `is_chain_valid` fail: the stored Merkle root no longer matches.
   */
  lemma TamperedBlockInvalidates(c: Crypto, chain: seq<Block>, i: int, txs: seq<Tx>)
    requires CollisionFree(c)
    requires ChainValid(c, chain)
    requires 1 <= i < |chain|
    requires |txs| == |chain[i].transactions| && txs != chain[i].transactions
    ensures !ChainValid(c, chain[i := chain[i].(transactions := txs)])
  {
    var tampered := chain[i := chain[i].(transactions := txs)];
    assert BlockPasses(c, chain, i);
    if ChainValid(c, tampered) {
      assert BlockPasses(c, tampered, i);
      MerkleRootInjective(c, txs, chain[i].transactions);
      assert false;
    }
  }

  /** Changing a confirmed transaction's amount makes `is_chain_valid` false. */
  lemma TamperedAmountInvalidates(c: Crypto, chain: seq<Block>, i: int, j: int, amount: int)
    requires CollisionFree(c)
    requires ChainValid(c, chain)
    requires 1 <= i < |chain| && 0 <= j < |chain[i].transactions|
    requires amount != chain[i].transactions[j].amount
    ensures !ChainValid(c, WithAmount(chain, i, j, amount))
  {
    var txs := chain[i].transactions;
    var changed := txs[j := txs[j].(amount := amount)];
    assert changed[j] != txs[j];
    TamperedBlockInvalidates(c, chain, i, changed);
  }

  // ----- confirmed transactions, balances, history ------------------------------

  /** A confirmed transaction together with the index and timestamp of its block
      (the `block` and `confirmed_time` keys of a history entry). */
  datatype Entry = Entry(tx: Tx, block: int, confirmedTime: int)

  function BlockEntries(b: Block): seq<Entry> {
    seq(|b.transactions|, j requires 0 <= j < |b.transactions| => Entry(b.transactions[j], b.index, b.timestamp))
  }

  /** Every confirmed transaction, block by block, in chain order. */
  function Entries(chain: seq<Block>): seq<Entry>
    decreases |chain|
  {
    if chain == [] then [] else Entries(chain[..|chain| - 1]) + BlockEntries(chain[|chain| - 1])
  }

  lemma EntriesAppend(chain: seq<Block>, b: Block)
    ensures Entries(chain + [b]) == Entries(chain) + BlockEntries(b)
  {
    assert (chain + [b])[..|chain|] == chain;
  }

  /** The confirmed transactions of the first i + 1 blocks. */
  lemma EntriesStep(chain: seq<Block>, i: int)
    requires 0 <= i < |chain|
    ensures Entries(chain[..i + 1]) == Entries(chain[..i]) + BlockEntries(chain[i])
  {
    assert chain[..i + 1] == chain[..i] + [chain[i]];
    EntriesAppend(chain[..i], chain[i]);
  }

  /** The effect of one transaction on an address in `get_balance`: debit when it
      is the sender, credit when it is the recipient (both for a self-transfer). */
  function Delta(tx: Tx, address: string): int {
    (if tx.sender == address then -tx.amount else 0) + (if tx.recipient == address then tx.amount else 0)
  }

  function Net(es: seq<Entry>, address: string): int
    decreases |es|
  {
    if es == [] then 0 else Net(es[..|es| - 1], address) + Delta(es[|es| - 1].tx, address)
  }

  /** `Blockchain.get_balance`: folds over the confirmed transactions only. */
  function Balance(chain: seq<Block>, address: string): int {
    Net(Entries(chain), address)
  }

  function Received(es: seq<Entry>, address: string): int
    decreases |es|
  {
    if es == [] then 0
    else Received(es[..|es| - 1], address) + (if es[|es| - 1].tx.recipient == address then es[|es| - 1].tx.amount else 0)
  }

  function Sent(es: seq<Entry>, address: string): int
    decreases |es|
  {
    if es == [] then 0
    else Sent(es[..|es| - 1], address) + (if es[|es| - 1].tx.sender == address then es[|es| - 1].tx.amount else 0)
  }

  /** A balance is what the address received minus what it sent, system addresses included. */
  lemma {:induction false} NetIsReceivedMinusSent(es: seq<Entry>, address: string)
    ensures Net(es, address) == Received(es, address) - Sent(es, address)
    decreases |es|
  {
    if es != [] {
      NetIsReceivedMinusSent(es[..|es| - 1], address);
    }
  }

  lemma {:induction false} NetAppend(s: seq<Entry>, t: seq<Entry>, address: string)
    ensures Net(s + t, address) == Net(s, address) + Net(t, address)
    decreases |t|
  {
    if t != [] {
      assert (s + t)[..|s + t| - 1] == s + t[..|t| - 1];
      assert (s + t)[|s + t| - 1] == t[|t| - 1];
      NetAppend(s, t[..|t| - 1], address);
    } else {
      assert s + t == s;
    }
  }

  /** Appending a block changes a balance by exactly that block's transactions. */
  lemma BalanceAppend(chain: seq<Block>, b: Block, address: string)
    ensures Balance(chain + [b], address) == Balance(chain, address) + Net(BlockEntries(b), address)
  {
    EntriesAppend(chain, b);
    NetAppend(Entries(chain), BlockEntries(b), address);
  }

  predicate Involves(tx: Tx, address: string) {
    tx.sender == address || tx.recipient == address
  }

  function Involving(es: seq<Entry>, address: string): seq<Entry>
    decreases |es|
  {
    if es == [] then []
    else Involving(es[..|es| - 1], address) + (if Involves(es[|es| - 1].tx, address) then [es[|es| - 1]] else [])
  }

  lemma InvolvingSnoc(es: seq<Entry>, e: Entry, address: string)
    ensures Involving(es + [e], address) == Involving(es, address) + (if Involves(e.tx, address) then [e] else [])
  {
    assert (es + [e])[..|es|] == es;
  }

  /** `Blockchain.get_transaction_history`. */
  function History(chain: seq<Block>, address: string): seq<Entry> {
    Involving(Entries(chain), address)
  }

  lemma {:induction false} InvolvingMembers(es: seq<Entry>, address: string)
    ensures forall e :: e in Involving(es, address) <==> e in es && Involves(e.tx, address)
    decreases |es|
  {
    if es != [] {
      InvolvingMembers(es[..|es| - 1], address);
      assert es == es[..|es| - 1] + [es[|es| - 1]];
    }
  }

  lemma {:induction false} InvolvingNet(es: seq<Entry>, address: string)
    ensures Net(Involving(es, address), address) == Net(es, address)
    decreases |es|
  {
    if es != [] {
      var last := es[|es| - 1];
      InvolvingNet(es[..|es| - 1], address);
      NetAppend(Involving(es[..|es| - 1], address), if Involves(last.tx, address) then [last] else [], address);
      if Involves(last.tx, address) {
        assert Net([last], address) == Delta(last.tx, address) by {
          assert [last][..0] == [];
        }
      }
    }
  }

  lemma {:induction false} EntriesMembers(chain: seq<Block>, e: Entry)
    ensures e in Entries(chain) <==>
      exists i, j :: 0 <= i < |chain| && 0 <= j < |chain[i].transactions|
        && e == Entry(chain[i].transactions[j], chain[i].index, chain[i].timestamp)
    decreases |chain|
  {
    if chain != [] {
      var front, last := chain[..|chain| - 1], chain[|chain| - 1];
      EntriesMembers(front, e);
      if e in BlockEntries(last) {
        var j :| 0 <= j < |BlockEntries(last)| && BlockEntries(last)[j] == e;
        assert chain[|chain| - 1].transactions[j] == last.transactions[j];
      }
      if exists i, j :: 0 <= i < |chain| && 0 <= j < |chain[i].transactions|
           && e == Entry(chain[i].transactions[j], chain[i].index, chain[i].timestamp) {
        var i, j :| 0 <= i < |chain| && 0 <= j < |chain[i].transactions|
           && e == Entry(chain[i].transactions[j], chain[i].index, chain[i].timestamp);
        if i < |chain| - 1 {
          assert front[i] == chain[i];
        } else {
          assert BlockEntries(last)[j] == e;
        }
      }
    }
  }

  /**
   * The history of an address holds exactly the confirmed transactions that name it
   * as sender or recipient, each tagged with its block's index and timestamp, and
   * the balance is the signed sum of that history.
   */
  lemma HistoryMeaning(chain: seq<Block>, address: string, e: Entry)
    ensures e in History(chain, address) <==>
      Involves(e.tx, address) &&
      exists i, j :: 0 <= i < |chain| && 0 <= j < |chain[i].transactions|
        && e == Entry(chain[i].transactions[j], chain[i].index, chain[i].timestamp)
    ensures Net(History(chain, address), address) == Balance(chain, address)
  {
    InvolvingMembers(Entries(chain), address);
    EntriesMembers(chain, e);
    InvolvingNet(Entries(chain), address);
  }

  // ----- block lookup ----------------------------------------------------------

  /** `Blockchain.get_block_by_index`: positions, not the blocks' own index fields. */
  function BlockAt(chain: seq<Block>, index: int): Option<Block> {
    if 0 <= index < |chain| then Some(chain[index]) else None
  }

  predicate IndexesMatch(chain: seq<Block>) {
    forall i :: 0 <= i < |chain| ==> chain[i].index == i
  }

  /** On a chain whose indexes match their positions, lookup by index finds the
      block carrying that index, and every such block. */
  lemma BlockAtFindsIndex(chain: seq<Block>, index: int)
    requires IndexesMatch(chain)
    ensures BlockAt(chain, index).Some? ==> BlockAt(chain, index).value.index == index
    ensures (exists i :: 0 <= i < |chain| && chain[i].index == index) ==> BlockAt(chain, index).Some?
  {
  }

  // ----- comprehensive_validation ----------------------------------------------

  datatype Issue =
    | IntegrityCheckFailed
    | WrongIndex(position: int, index: int)
    | TimestampBeforePrevious(position: int)
    | InconsistentMerkleRoot(position: int)
    | InconsistentHash(position: int)
    | NegativeBalance(account: string, block: int)

  /** The per-block checks of `comprehensive_validation`, in the source's order. */
  function BlockIssues(c: Crypto, chain: seq<Block>, i: int): seq<Issue>
    requires 0 <= i < |chain|
  {
    (if chain[i].index != i then [WrongIndex(i, chain[i].index)] else [])
    + (if i > 0 && chain[i].timestamp < chain[i - 1].timestamp then [TimestampBeforePrevious(i)] else [])
    + (if chain[i].merkleRoot != MerkleRoot(c, chain[i].transactions) then [InconsistentMerkleRoot(i)] else [])
    + (if chain[i].hash != CalculateHash(c, chain[i]) then [InconsistentHash(i)] else [])
  }

  /** The per-block issues of blocks 0 .. n-1. */
  function StructuralIssues(c: Crypto, chain: seq<Block>, n: int): seq<Issue>
    requires 0 <= n <= |chain|
    decreases n
  {
    if n == 0 then [] else StructuralIssues(c, chain, n - 1) + BlockIssues(c, chain, n - 1)
  }

  /** The running balances of `comprehensive_validation` and the issues found so far. */
  datatype Replay = Replay(balances: map<string, int>, issues: seq<Issue>)

  function Touch(m: map<string, int>, address: string): (r: map<string, int>)
    ensures address in r
  {
    if address in m then m else m[address := 0]
  }

  /** One transaction of the replay: system senders are never debited, and only a
      non-system sender left negative is reported. */
  function ReplayStep(r: Replay, e: Entry): Replay {
    var tx := e.tx;
    var m1 := Touch(Touch(r.balances, tx.sender), tx.recipient);
    var m2 := if IsSystem(tx.sender) then m1 else m1[tx.sender := m1[tx.sender] - tx.amount];
    var m3 := m2[tx.recipient := m2[tx.recipient] + tx.amount];
    Replay(m3, r.issues + (if !IsSystem(tx.sender) && m3[tx.sender] < 0 then [NegativeBalance(tx.sender, e.block)] else []))
  }

  function ReplayAll(es: seq<Entry>): Replay
    decreases |es|
  {
    if es == [] then Replay(map[], []) else ReplayStep(ReplayAll(es[..|es| - 1]), es[|es| - 1])
  }

  lemma ReplaySnoc(es: seq<Entry>, e: Entry)
    ensures ReplayAll(es + [e]) == ReplayStep(ReplayAll(es), e)
  {
    assert (es + [e])[..|es|] == es;
  }

  /** `Blockchain.comprehensive_validation`. */
  function Comprehensive(c: Crypto, chain: seq<Block>): (result: (bool, seq<Issue>))
    ensures !ChainValid(c, chain) ==> result == (false, [IntegrityCheckFailed])
    ensures result.0 <==> result.1 == []
  {
    if !ChainValid(c, chain) then (false, [IntegrityCheckFailed])
    else
      var issues := StructuralIssues(c, chain, |chain|) + ReplayAll(Entries(chain)).issues;
      (issues == [], issues)
  }

  /** What the replay credits to an address: everything received, minus what was
      sent unless the address is a system one. */
  function Held(es: seq<Entry>, address: string): int {
    Received(es, address) - (if IsSystem(address) then 0 else Sent(es, address))
  }

  /** No non-system sender's replayed balance is negative right after one of its transactions. */
  ghost predicate NoOverdraft(es: seq<Entry>) {
    forall k :: 0 <= k < |es| && !IsSystem(es[k].tx.sender) ==> Held(es[..k + 1], es[k].tx.sender) >= 0
  }

  predicate TimestampsOrdered(chain: seq<Block>) {
    forall i :: 1 <= i < |chain| ==> chain[i - 1].timestamp <= chain[i].timestamp
  }

  predicate AllSealed(c: Crypto, chain: seq<Block>) {
    forall i :: 0 <= i < |chain| ==> Sealed(c, chain[i])
  }

  /** Block i has its position as index, is sealed and is not older than its predecessor. */
  predicate WellPlaced(c: Crypto, chain: seq<Block>, i: int)
    requires 0 <= i < |chain|
  {
    chain[i].index == i && Sealed(c, chain[i]) && (i > 0 ==> chain[i - 1].timestamp <= chain[i].timestamp)
  }

  /** A block raises no per-block issue exactly when it is well placed. */
  lemma BlockIssuesEmpty(c: Crypto, chain: seq<Block>, i: int)
    requires 0 <= i < |chain|
    ensures BlockIssues(c, chain, i) == [] <==> WellPlaced(c, chain, i)
  {
  }

  lemma {:induction false} StructuralIssuesEmpty(c: Crypto, chain: seq<Block>, n: int)
    requires 0 <= n <= |chain|
    ensures StructuralIssues(c, chain, n) == [] <==> forall i :: 0 <= i < n ==> WellPlaced(c, chain, i)
    decreases n
  {
    if n > 0 {
      var front, last := StructuralIssues(c, chain, n - 1), BlockIssues(c, chain, n - 1);
      assert front == [] <==> forall i :: 0 <= i < n - 1 ==> WellPlaced(c, chain, i) by {
        StructuralIssuesEmpty(c, chain, n - 1);
      }
      assert last == [] <==> WellPlaced(c, chain, n - 1) by {
        BlockIssuesEmpty(c, chain, n - 1);
      }
      assert StructuralIssues(c, chain, n) == front + last;
      assert front + last == [] <==> front == [] && last == [] by {
        assert |front + last| == |front| + |last|;
      }
    }
  }

  /** Whether some transaction of `es` names the address. */
  predicate Seen(es: seq<Entry>, address: string)
    decreases |es|
  {
    es != [] && (Seen(es[..|es| - 1], address) || Involves(es[|es| - 1].tx, address))
  }

  /** The replayed map holds an address exactly when it was seen, and then with its `Held` value. */
  lemma {:induction false} ReplayBalanceOf(es: seq<Entry>, a: string)
    ensures a in ReplayAll(es).balances <==> Seen(es, a)
    ensures a in ReplayAll(es).balances ==> ReplayAll(es).balances[a] == Held(es, a)
    decreases |es|
  {
    if es != [] {
      var front := es[..|es| - 1];
      ReplayBalanceOf(front, a);
      if a !in ReplayAll(front).balances {
        NeverSeenHoldsNothing(front, a);
      }
    }
  }

  lemma {:induction false} NeverSeenHoldsNothing(es: seq<Entry>, address: string)
    requires !Seen(es, address)
    ensures Received(es, address) == 0 && Sent(es, address) == 0
    decreases |es|
  {
    if es != [] {
      NeverSeenHoldsNothing(es[..|es| - 1], address);
    }
  }

  /** No overdraft in a longer sequence: none before, and none by the last sender. */
  lemma NoOverdraftSnoc(es: seq<Entry>)
    requires es != []
    ensures NoOverdraft(es) <==>
      NoOverdraft(es[..|es| - 1])
      && (IsSystem(es[|es| - 1].tx.sender) || Held(es, es[|es| - 1].tx.sender) >= 0)
  {
    var front := es[..|es| - 1];
    assert es[..|es|] == es;
    forall k | 0 <= k < |front| ensures front[..k + 1] == es[..k + 1] && front[k] == es[k] {
    }
  }

  lemma {:induction false} ReplayIssuesEmpty(es: seq<Entry>)
    ensures ReplayAll(es).issues == [] <==> NoOverdraft(es)
    decreases |es|
  {
    if es != [] {
      var front, last := es[..|es| - 1], es[|es| - 1];
      var sender := last.tx.sender;
      var before, after := ReplayAll(front), ReplayAll(es);
      var extra := if !IsSystem(sender) && after.balances[sender] < 0 then [NegativeBalance(sender, last.block)] else [];
      assert before.issues == [] <==> NoOverdraft(front) by {
        ReplayIssuesEmpty(front);
      }
      assert sender in after.balances && after.balances[sender] == Held(es, sender) by {
        ReplayBalanceOf(es, sender);
        assert Seen(es, sender);
      }
      assert after.issues == before.issues + extra;
      assert after.issues == [] <==> before.issues == [] && extra == [] by {
        assert |before.issues + extra| == |before.issues| + |extra|;
      }
      NoOverdraftSnoc(es);
    }
  }

  /**
   * `comprehensive_validation` reports no issue exactly when `is_chain_valid`
   * holds, every block's index is its position, timestamps never decrease, every
   * block (the genesis block too) has a consistent root and hash, and no
   * non-system sender ever goes negative in the replay.
   */
  lemma ComprehensiveMeaning(c: Crypto, chain: seq<Block>)
    ensures Comprehensive(c, chain).0 <==>
      && ChainValid(c, chain)
      && IndexesMatch(chain)
      && TimestampsOrdered(chain)
      && AllSealed(c, chain)
      && NoOverdraft(Entries(chain))
  {
    var structural, replayed := StructuralIssues(c, chain, |chain|), ReplayAll(Entries(chain)).issues;
    assert structural == [] <==> IndexesMatch(chain) && TimestampsOrdered(chain) && AllSealed(c, chain) by {
      StructuralIssuesEmpty(c, chain, |chain|);
      WellPlacedEverywhere(c, chain);
    }
    assert replayed == [] <==> NoOverdraft(Entries(chain)) by {
      ReplayIssuesEmpty(Entries(chain));
    }
    assert structural + replayed == [] <==> structural == [] && replayed == [] by {
      assert |structural + replayed| == |structural| + |replayed|;
    }
  }

  lemma WellPlacedEverywhere(c: Crypto, chain: seq<Block>)
    ensures (forall i :: 0 <= i < |chain| ==> WellPlaced(c, chain, i))
            <==> IndexesMatch(chain) && TimestampsOrdered(chain) && AllSealed(c, chain)
  {
    if forall i :: 0 <= i < |chain| ==> WellPlaced(c, chain, i) {
      forall i | 0 <= i < |chain| ensures chain[i].index == i && Sealed(c, chain[i]) {
        assert WellPlaced(c, chain, i);
      }
      forall i | 1 <= i < |chain| ensures chain[i - 1].timestamp <= chain[i].timestamp {
        assert WellPlaced(c, chain, i);
      }
    }
    if IndexesMatch(chain) && TimestampsOrdered(chain) && AllSealed(c, chain) {
      forall i | 0 <= i < |chain| ensures WellPlaced(c, chain, i) {
        assert chain[i].index == i && Sealed(c, chain[i]);
      }
    }
  }

  /**
   * The two balance rules: for a non-system address the replay's running balance is
   * `get_balance`; for `network` and `genesis` the replay never debits, so it exceeds
   * `get_balance` by everything they sent.
   */
  lemma TwoBalanceRules(chain: seq<Block>, address: string)
    ensures address in ReplayAll(Entries(chain)).balances ==>
      ReplayAll(Entries(chain)).balances[address]
        == Balance(chain, address) + (if IsSystem(address) then Sent(Entries(chain), address) else 0)
  {
    ReplayBalanceOf(Entries(chain), address);
    NetIsReceivedMinusSent(Entries(chain), address);
  }

  // ----- which issues comprehensive_validation reports ------------------------

  lemma {:induction false} StructuralIssuesMembers(c: Crypto, chain: seq<Block>, n: int, issue: Issue)
    requires 0 <= n <= |chain|
    ensures issue in StructuralIssues(c, chain, n) <==> exists i :: 0 <= i < n && issue in BlockIssues(c, chain, i)
    decreases n
  {
    if n > 0 {
      var before, last := StructuralIssues(c, chain, n - 1), BlockIssues(c, chain, n - 1);
      assert StructuralIssues(c, chain, n) == before + last;
      StructuralIssuesMembers(c, chain, n - 1, issue);
      if issue in before + last {
        if issue in last {
          assert 0 <= n - 1 < n && issue in BlockIssues(c, chain, n - 1);
        }
      } else {
        forall i | 0 <= i < n
          ensures issue !in BlockIssues(c, chain, i)
        {
          if i == n - 1 {
            assert issue !in last;
          }
        }
      }
    }
  }

  /** The transaction at position k of the replay left its non-system sender `account`
      negative, in block `block`. */
  ghost predicate Overdrawn(es: seq<Entry>, k: int, account: string, block: int)
    requires 0 <= k < |es|
  {
    es[k].tx.sender == account && es[k].block == block && !IsSystem(account) && Held(es[..k + 1], account) < 0
  }

  /** The replay reports a negative balance exactly for the transactions that overdraw
      their sender, and reports nothing else. */
  lemma {:induction false} ReplayReports(es: seq<Entry>, account: string, block: int)
    ensures NegativeBalance(account, block) in ReplayAll(es).issues <==>
      exists k :: 0 <= k < |es| && Overdrawn(es, k, account, block)
    ensures forall issue :: issue in ReplayAll(es).issues ==> issue.NegativeBalance?
    decreases |es|
  {
    if es != [] {
      var p, e := es[..|es| - 1], es[|es| - 1];
      ReplayReports(p, account, block);
      var r := ReplayAll(p);
      assert ReplayAll(es) == ReplayStep(r, e);
      var m := ReplayAll(es).balances;
      ReplayBalanceOf(es, e.tx.sender);
      var extra := if !IsSystem(e.tx.sender) && m[e.tx.sender] < 0 then [NegativeBalance(e.tx.sender, e.block)] else [];
      assert ReplayAll(es).issues == r.issues + extra;
      assert es[..|es| - 1 + 1] == es;
      assert (NegativeBalance(account, block) in extra) == Overdrawn(es, |es| - 1, account, block);
      forall k | 0 <= k < |p|
        ensures Overdrawn(es, k, account, block) == Overdrawn(p, k, account, block)
      {
        assert es[..k + 1] == p[..k + 1];
      }
      if NegativeBalance(account, block) in r.issues {
        var k :| 0 <= k < |p| && Overdrawn(p, k, account, block);
        assert Overdrawn(es, k, account, block);
      }
      if exists k :: 0 <= k < |es| && Overdrawn(es, k, account, block) {
        var k :| 0 <= k < |es| && Overdrawn(es, k, account, block);
        if k < |p| {
          assert Overdrawn(p, k, account, block);
        }
      }
    }
  }

  /** Where an issue of `comprehensive_validation` comes from: the integrity check,
      one block's checks, or the balance replay. */
  lemma ComprehensiveSources(c: Crypto, chain: seq<Block>, issue: Issue)
    ensures issue in Comprehensive(c, chain).1 <==>
      if !ChainValid(c, chain) then issue == IntegrityCheckFailed
      else (exists i :: 0 <= i < |chain| && issue in BlockIssues(c, chain, i))
           || issue in ReplayAll(Entries(chain)).issues
  {
    if ChainValid(c, chain) {
      assert Comprehensive(c, chain).1 == StructuralIssues(c, chain, |chain|) + ReplayAll(Entries(chain)).issues;
      StructuralIssuesMembers(c, chain, |chain|, issue);
    }
  }

  /** The issues block j can yield, by kind. */
  lemma BlockIssuesMembers(c: Crypto, chain: seq<Block>, j: int, i: int, index: int)
    requires 0 <= j < |chain|
    ensures WrongIndex(i, index) in BlockIssues(c, chain, j) <==> j == i && chain[j].index != j && chain[j].index == index
    ensures TimestampBeforePrevious(i) in BlockIssues(c, chain, j) <==>
      j == i && j > 0 && chain[j].timestamp < chain[j - 1].timestamp
    ensures InconsistentMerkleRoot(i) in BlockIssues(c, chain, j) <==>
      j == i && chain[j].merkleRoot != MerkleRoot(c, chain[j].transactions)
    ensures InconsistentHash(i) in BlockIssues(c, chain, j) <==> j == i && chain[j].hash != CalculateHash(c, chain[j])
    ensures IntegrityCheckFailed !in BlockIssues(c, chain, j)
    ensures forall account, block :: NegativeBalance(account, block) !in BlockIssues(c, chain, j)
  {
  }

  /**
   * The per-block issues of `comprehensive_validation`: each names the position of
   * the block that fails the check, and is reported exactly when the chain passed
   * the integrity check first. The integrity issue is reported exactly when it did not.
   */
  lemma ComprehensiveBlockIssues(c: Crypto, chain: seq<Block>, i: int, index: int)
    ensures var issues := Comprehensive(c, chain).1;
      && (IntegrityCheckFailed in issues <==> !ChainValid(c, chain))
      && (WrongIndex(i, index) in issues <==>
            ChainValid(c, chain) && 0 <= i < |chain| && chain[i].index != i && chain[i].index == index)
      && (TimestampBeforePrevious(i) in issues <==>
            ChainValid(c, chain) && 0 < i < |chain| && chain[i].timestamp < chain[i - 1].timestamp)
      && (InconsistentMerkleRoot(i) in issues <==>
            ChainValid(c, chain) && 0 <= i < |chain| && chain[i].merkleRoot != MerkleRoot(c, chain[i].transactions))
      && (InconsistentHash(i) in issues <==>
            ChainValid(c, chain) && 0 <= i < |chain| && chain[i].hash != CalculateHash(c, chain[i]))
  {
    ReplayReports(Entries(chain), "", 0);
    ComprehensiveSources(c, chain, IntegrityCheckFailed);
    ComprehensiveSources(c, chain, WrongIndex(i, index));
    ComprehensiveSources(c, chain, TimestampBeforePrevious(i));
    ComprehensiveSources(c, chain, InconsistentMerkleRoot(i));
    ComprehensiveSources(c, chain, InconsistentHash(i));
    forall j | 0 <= j < |chain|
      ensures WrongIndex(i, index) in BlockIssues(c, chain, j) <==> j == i && chain[j].index != j && chain[j].index == index
      ensures TimestampBeforePrevious(i) in BlockIssues(c, chain, j) <==>
        j == i && j > 0 && chain[j].timestamp < chain[j - 1].timestamp
      ensures InconsistentMerkleRoot(i) in BlockIssues(c, chain, j) <==>
        j == i && chain[j].merkleRoot != MerkleRoot(c, chain[j].transactions)
      ensures InconsistentHash(i) in BlockIssues(c, chain, j) <==> j == i && chain[j].hash != CalculateHash(c, chain[j])
      ensures IntegrityCheckFailed !in BlockIssues(c, chain, j)
    {
      BlockIssuesMembers(c, chain, j, i, index);
    }
  }

  /** The balance issues of `comprehensive_validation`: one per transaction that
      leaves its non-system sender negative, naming that sender and the block. */
  lemma ComprehensiveBalanceIssues(c: Crypto, chain: seq<Block>, account: string, block: int)
    ensures NegativeBalance(account, block) in Comprehensive(c, chain).1 <==>
      ChainValid(c, chain) && exists k :: 0 <= k < |Entries(chain)| && Overdrawn(Entries(chain), k, account, block)
  {
    ReplayReports(Entries(chain), account, block);
    ComprehensiveSources(c, chain, NegativeBalance(account, block));
    forall j | 0 <= j < |chain|
      ensures NegativeBalance(account, block) !in BlockIssues(c, chain, j)
    {
      BlockIssuesMembers(c, chain, j, 0, 0);
    }
  }
}
