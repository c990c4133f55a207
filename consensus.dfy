/**
 * The peer side of node.py: the peer registry, the light validator applied to
 * chains received from peers, longest-chain selection, chain replacement and the
 * catch-up decision. HTTP responses are inputs: one `Reply` per peer asked.
 */
module Consensus {
  import opened Wrappers
  import opened Primitives
  import opened Blocks
  import opened Chain
  import opened Ledger
  import opened Urls

  /** The difficulty assumed for a wire block that carries none. */
  const DefaultWireDifficulty := 4
  const StatusOk := 200

  /** A block as the `/blockchain` route sends it; `merkle_root` and `difficulty`
      may be missing in a record received from a peer. */
  datatype WireBlock = WireBlock(
    index: int,
    timestamp: int,
    transactions: seq<Tx>,
    previousHash: string,
    merkleRoot: Option<string>,
    nonce: int,
    hash: string,
    difficulty: Option<int>)

  /** The record the `/blockchain` route builds for a block. */
  function ToWire(b: Block): WireBlock {
    WireBlock(b.index, b.timestamp, b.transactions, b.previousHash, Some(b.merkleRoot), b.nonce, b.hash, Some(b.difficulty))
  }

  function WireDifficulty(w: WireBlock): int {
    w.difficulty.GetOr(DefaultWireDifficulty)
  }

  /** The block `_replace_chain` rebuilds from a record: hash, root (default empty)
      and difficulty (default 4) are taken over, not recomputed. */
  function ToBlock(w: WireBlock): Block {
    Block(w.index, w.timestamp, w.transactions, w.previousHash, w.nonce, w.merkleRoot.GetOr(""), w.hash, WireDifficulty(w))
  }

  function Export(chain: seq<Block>): (wire: seq<WireBlock>)
    ensures |wire| == |chain| && forall i :: 0 <= i < |chain| ==> wire[i] == ToWire(chain[i])
  {
    seq(|chain|, i requires 0 <= i < |chain| => ToWire(chain[i]))
  }

  function Adopted(wire: seq<WireBlock>): (chain: seq<Block>)
    ensures |chain| == |wire| && forall i :: 0 <= i < |wire| ==> chain[i] == ToBlock(wire[i])
  {
    seq(|wire|, i requires 0 <= i < |wire| => ToBlock(wire[i]))
  }

  /** A chain sent by one node and adopted by another arrives unchanged. */
  lemma ExportAdoptRoundTrip(chain: seq<Block>)
    ensures Adopted(Export(chain)) == chain
  {
    assert forall i :: 0 <= i < |chain| ==> ToBlock(ToWire(chain[i])) == chain[i];
  }

  // ----- _is_chain_valid ---------------------------------------------------------

  /** The three checks `_is_chain_valid` makes of record i >= 1, in the source's order. */
  predicate WirePasses(wire: seq<WireBlock>, i: int)
    requires 1 <= i < |wire|
  {
    && wire[i].previousHash == wire[i - 1].hash
    && MeetsTarget(wire[i].hash, WireDifficulty(wire[i]))
    && wire[i].index == i
  }

  /** `Node._is_chain_valid`: no hash or Merkle root is recomputed; record 0 is skipped. */
  predicate PeerChainValid(wire: seq<WireBlock>) {
    forall i :: 1 <= i < |wire| ==> WirePasses(wire, i)
  }

  method CheckPeerChain(wire: seq<WireBlock>) returns (valid: bool)
    ensures valid == PeerChainValid(wire)
  {
    var i := 0;
    while i < |wire|
      invariant 0 <= i <= |wire|
      invariant forall k :: 1 <= k < i ==> WirePasses(wire, k)
    {
      if i == 0 {
        i := i + 1;
        continue;
      }
      if wire[i].previousHash != wire[i - 1].hash {
        assert !WirePasses(wire, i);
        return false;
      }
      var difficulty := WireDifficulty(wire[i]);
      if PrefixSlice(wire[i].hash, difficulty) != Zeros(difficulty) {
        assert !WirePasses(wire, i);
        return false;
      }
      if wire[i].index != i {
        assert !WirePasses(wire, i);
        return false;
      }
      i := i + 1;
    }
    return true;
  }

  /** A chain that passes `is_chain_valid` and whose indexes match their positions
      passes the peer validator once exported. */
  lemma HonestExportPasses(c: Crypto, chain: seq<Block>)
    requires ChainValid(c, chain) && IndexesMatch(chain)
    ensures PeerChainValid(Export(chain))
  {
    var wire := Export(chain);
    forall i | 1 <= i < |wire| ensures WirePasses(wire, i) {
      assert BlockPasses(c, chain, i);
    }
  }

  /** What the peer validator does guarantee about the adopted chain: linkage,
      proof of work at the adopted difficulty, and indexes from position 1 on. */
  lemma PeerValidAdoptedLinkage(wire: seq<WireBlock>, i: int)
    requires PeerChainValid(wire) && 1 <= i < |wire|
    ensures Adopted(wire)[i].previousHash == Adopted(wire)[i - 1].hash
    ensures Adopted(wire)[i].index == i
    ensures MeetsTarget(Adopted(wire)[i].hash, Adopted(wire)[i].difficulty)
  {
    assert WirePasses(wire, i);
  }

  /**
   * The peer validator trusts the hashes it is sent: whatever the hash function,
   * some two-block chain passes it and yet fails `is_chain_valid` once adopted.
   */
  lemma PeerValidatorTrustsHashes(c: Crypto)
    ensures exists wire :: PeerChainValid(wire) && !ChainValid(c, Adopted(wire))
  {
    var genesis := WireBlock(0, 0, [], "0", None, 0, "g", Some(0));
    var header := Block(1, 0, [], "g", 0, "", "", 0);
    var forged := WireBlock(1, 0, [], "g", None, 0, CalculateHash(c, header) + "x", Some(0));
    var wire := [genesis, forged];
    assert WirePasses(wire, 1);
    assert HeaderOf(Adopted(wire)[1]) == HeaderOf(header);
    assert !BlockPasses(c, Adopted(wire), 1);
  }

  // ----- resolve_conflicts: candidate selection --------------------------------------

  /** A peer's `/blockchain` response: unreachable, or a status, the reported
      `length` and the `chain`. */
  datatype Fetch = Unreachable | Fetched(status: int, length: int, chain: seq<WireBlock>)

  datatype Reply = Reply(peer: string, fetch: Fetch)

  /** A reply that would beat the current best length `bound`. */
  predicate Eligible(r: Reply, bound: int) {
    r.fetch.Fetched? && r.fetch.status == StatusOk && r.fetch.length > bound && PeerChainValid(r.fetch.chain)
  }

  /** The variables `max_length`, `new_chain` and `source_node` of the scan. */
  datatype Scan = Scan(maxLength: int, chosen: Option<seq<WireBlock>>, source: Option<string>)

  function ScanStep(s: Scan, r: Reply): Scan {
    if Eligible(r, s.maxLength) then Scan(r.fetch.length, Some(r.fetch.chain), Some(r.peer)) else s
  }

  /** The scan over the replies, in the order the peers were asked, starting from the local length. */
  function ScanAll(local: int, replies: seq<Reply>): Scan
    decreases |replies|
  {
    if replies == [] then Scan(local, None, None)
    else ScanStep(ScanAll(local, replies[..|replies| - 1]), replies[|replies| - 1])
  }

  /**
   * The outcome of the scan: nothing is chosen exactly when no reply is eligible
   * against the local length (so a reported length equal to the local one never
   * wins); otherwise the chosen chain is that of the first eligible reply whose
   * reported length is the largest among eligible replies.
   */
  lemma {:induction false} ScanOutcome(local: int, replies: seq<Reply>)
    ensures var s := ScanAll(local, replies);
      && s.maxLength >= local
      && (s.chosen.None? <==> forall k :: 0 <= k < |replies| ==> !Eligible(replies[k], local))
      && (s.chosen.None? ==> s.maxLength == local && s.source.None?)
      && (forall k :: 0 <= k < |replies| && Eligible(replies[k], local) ==> replies[k].fetch.length <= s.maxLength)
      && (s.chosen.Some? ==>
            exists k :: 0 <= k < |replies| && Eligible(replies[k], local)
              && replies[k].fetch.length == s.maxLength
              && s.chosen == Some(replies[k].fetch.chain) && s.source == Some(replies[k].peer)
              && forall j :: 0 <= j < k ==> !(Eligible(replies[j], local) && replies[j].fetch.length == s.maxLength))
    decreases |replies|
  {
    if replies != [] {
      var front, last := replies[..|replies| - 1], replies[|replies| - 1];
      var before := ScanAll(local, front);
      ScanOutcome(local, front);
      assert forall k :: 0 <= k < |front| ==> front[k] == replies[k];
      if Eligible(last, before.maxLength) {
        var k := |replies| - 1;
        assert Eligible(replies[k], local);
        forall j | 0 <= j < k ensures !(Eligible(replies[j], local) && replies[j].fetch.length == last.fetch.length) {
          assert front[j] == replies[j];
        }
      } else if before.chosen.Some? {
        var k :| 0 <= k < |front| && Eligible(front[k], local)
              && front[k].fetch.length == before.maxLength
              && before.chosen == Some(front[k].fetch.chain) && before.source == Some(front[k].peer)
              && forall j :: 0 <= j < k ==> !(Eligible(front[j], local) && front[j].fetch.length == before.maxLength);
        assert replies[k] == front[k];
      }
    }
  }

  /** Only the reported `length` is compared in the scan: a longer valid chain whose
      peer reports the local length is passed over, while the catch-up path, which
      compares the actual length, accepts it. */
  lemma ReportedLengthDecides(local: int, peer: string, wire: seq<WireBlock>)
    requires PeerChainValid(wire) && |wire| > local
    ensures ScanAll(local, [Reply(peer, Fetched(StatusOk, local, wire))]).chosen.None?
    ensures FetchAccepts(local, Fetched(StatusOk, local, wire))
  {
    ScanOutcome(local, [Reply(peer, Fetched(StatusOk, local, wire))]);
  }

  /** Replies that report no more than the local length never replace the chain,
      whatever chains they carry. */
  lemma EqualLengthNeverReplaces(local: int, replies: seq<Reply>)
    requires forall k :: 0 <= k < |replies| && replies[k].fetch.Fetched? ==> replies[k].fetch.length <= local
    ensures ScanAll(local, replies).chosen.None?
  {
    ScanOutcome(local, replies);
  }

  // ----- _replace_chain: the mempool afterwards ----------------------------------------

  function TxIds(txs: seq<Tx>): set<string>
    decreases |txs|
  {
    if txs == [] then {}
    else TxIds(txs[..|txs| - 1]) + (if txs[|txs| - 1].id.Some? then {txs[|txs| - 1].id.value} else {})
  }

  /** The ids (`existing_tx_ids`) of the transactions of a received chain that carry one. */
  function ConfirmedIds(wire: seq<WireBlock>): set<string>
    decreases |wire|
  {
    if wire == [] then {} else ConfirmedIds(wire[..|wire| - 1]) + TxIds(wire[|wire| - 1].transactions)
  }

  lemma {:induction false} TxIdsMeaning(txs: seq<Tx>, id: string)
    ensures id in TxIds(txs) <==> exists j :: 0 <= j < |txs| && txs[j].id == Some(id)
    decreases |txs|
  {
    if txs != [] {
      TxIdsMeaning(txs[..|txs| - 1], id);
      if exists j :: 0 <= j < |txs| && txs[j].id == Some(id) {
        var j :| 0 <= j < |txs| && txs[j].id == Some(id);
        if j < |txs| - 1 {
          assert txs[..|txs| - 1][j] == txs[j];
        }
      }
    }
  }

  /** An id is confirmed exactly when some transaction of the received chain carries it. */
  lemma {:induction false} ConfirmedIdsMeaning(wire: seq<WireBlock>, id: string)
    ensures id in ConfirmedIds(wire) <==>
      exists i, j :: 0 <= i < |wire| && 0 <= j < |wire[i].transactions| && wire[i].transactions[j].id == Some(id)
    decreases |wire|
  {
    if wire != [] {
      var front, last := wire[..|wire| - 1], wire[|wire| - 1];
      ConfirmedIdsMeaning(front, id);
      TxIdsMeaning(last.transactions, id);
      if exists i, j :: 0 <= i < |wire| && 0 <= j < |wire[i].transactions| && wire[i].transactions[j].id == Some(id) {
        var i, j :| 0 <= i < |wire| && 0 <= j < |wire[i].transactions| && wire[i].transactions[j].id == Some(id);
        if i < |wire| - 1 {
          assert front[i] == wire[i];
        }
      }
      if id in ConfirmedIds(front) {
        var i, j :| 0 <= i < |front| && 0 <= j < |front[i].transactions| && front[i].transactions[j].id == Some(id);
        assert wire[i] == front[i];
      }
    }
  }

  /** A saved mempool transaction is put back when it has an id the new chain lacks. */
  predicate PutBack(tx: Tx, confirmed: set<string>) {
    tx.id.Some? && tx.id.value !in confirmed
  }

  function Remerge(pending: seq<Tx>, confirmed: set<string>): seq<Tx>
    decreases |pending|
  {
    if pending == [] then []
    else Remerge(pending[..|pending| - 1], confirmed)
         + (if PutBack(pending[|pending| - 1], confirmed) then [pending[|pending| - 1]] else [])
  }

  lemma {:induction false} RemergeCount(pending: seq<Tx>, confirmed: set<string>, tx: Tx)
    ensures multiset(Remerge(pending, confirmed))[tx] == if PutBack(tx, confirmed) then multiset(pending)[tx] else 0
    decreases |pending|
  {
    if pending != [] {
      RemergeCount(pending[..|pending| - 1], confirmed, tx);
      assert pending == pending[..|pending| - 1] + [pending[|pending| - 1]];
    }
  }

  /**
   * The mempool after `_replace_chain` is the old mempool followed by the
   * re-merged transactions, since it is never cleared: nothing leaves it (not even
   * transactions the new chain confirms), and every transaction with an
   * unconfirmed id is now there twice as often.
   */
  lemma MempoolAfterReplace(pending: seq<Tx>, confirmed: set<string>, tx: Tx)
    ensures multiset(pending + Remerge(pending, confirmed))[tx]
            == multiset(pending)[tx] * (if PutBack(tx, confirmed) then 2 else 1)
  {
    RemergeCount(pending, confirmed, tx);
  }

  /** Mining is restarted only for a recorded, non-empty miner address. */
  predicate CanRestart(address: Option<string>) {
    address.Some? && address.value != ""
  }

  /** The catch-up rule of `_fetch_from_specific_peer`: a good response with a
      valid chain strictly longer, by actual length, than the local one. */
  predicate FetchAccepts(local: int, fetch: Fetch) {
    fetch.Fetched? && fetch.status == StatusOk && PeerChainValid(fetch.chain) && |fetch.chain| > local
  }

  /** `existing_tx_ids` of `_replace_chain`. */
  method CollectIds(wire: seq<WireBlock>) returns (ids: set<string>)
    ensures ids == ConfirmedIds(wire)
  {
    ids := {};
    var i := 0;
    while i < |wire|
      invariant 0 <= i <= |wire|
      invariant ids == ConfirmedIds(wire[..i])
    {
      var txs := wire[i].transactions;
      var j := 0;
      while j < |txs|
        invariant 0 <= j <= |txs|
        invariant ids == ConfirmedIds(wire[..i]) + TxIds(txs[..j])
      {
        assert txs[..j + 1][..j] == txs[..j];
        if txs[j].id.Some? {
          ids := ids + {txs[j].id.value};
        }
        j := j + 1;
      }
      assert txs[..j] == txs;
      assert wire[..i + 1][..i] == wire[..i];
      i := i + 1;
    }
    assert wire[..i] == wire;
  }

  datatype Notice =
    | BadRequest
    | WillSync(ourIndex: int, yourIndex: int, peer: string)
    | UpToDate(ourIndex: int)

  /** How `register_node` or `resolve_conflicts` ends: with a value, or with an exception. */
  datatype Outcome = Returned(value: bool) | Raised

  class Node {
    const host: string
    const port: int
    const ledger: Blockchain
    var peers: set<string>
    var currentMinerAddress: Option<string>

    constructor (host: string, port: int, ledger: Blockchain)
      ensures this.host == host && this.port == port && this.ledger == ledger
      ensures peers == {} && currentMinerAddress == None
    {
      this.host := host;
      this.port := port;
      this.ledger := ledger;
      peers := {};
      currentMinerAddress := None;
    }

    /**
     * `register_node`: raises when urlsplit refuses the address (`nfkc` stands for
     * the NFKC normalisation urlsplit consults); otherwise stores `scheme://netloc`
     * when the address has a netloc and that form is neither known yet nor the
     * node's own URL.
     */
    method RegisterNode(address: string, nfkc: string -> string) returns (outcome: Outcome)
      modifies this`peers
      ensures outcome == Raised <==> SplitRaises(nfkc, address)
      ensures outcome == Returned(true) <==> !SplitRaises(nfkc, address) && NodeUrl(address).Some?
                                             && NodeUrl(address).value !in old(peers)
                                             && NodeUrl(address).value != SelfUrl(host, port)
      ensures outcome == Returned(true) ==> peers == old(peers) + {NodeUrl(address).value}
      ensures outcome != Returned(true) ==> peers == old(peers)
    {
      var parts := Split(address);
      if UnbalancedBrackets(parts.netloc) || !PassesNfkcCheck(nfkc, parts.netloc) {
        return Raised;
      }
      if parts.netloc != [] {
        var nodeUrl := SchemeOrHttp(parts.scheme) + "://" + parts.netloc;
        if nodeUrl !in peers && nodeUrl != SelfUrl(host, port) {
          peers := peers + {nodeUrl};
          return Returned(true);
        }
      }
      return Returned(false);
    }

    /** The catch-up decision of the `/block/notify` route: without a sender URL the
        request is refused; otherwise a fetch is started iff the announced index is
        beyond the local tip. Nothing changes here. */
    method NotifyNewBlock(blockIndex: int, nodeUrl: Option<string>) returns (notice: Notice)
      ensures nodeUrl.None? <==> notice == BadRequest
      ensures notice.WillSync? <==> nodeUrl.Some? && blockIndex >= |ledger.chain|
      ensures notice.WillSync? ==> notice == WillSync(|ledger.chain| - 1, blockIndex, nodeUrl.value)
      ensures notice.UpToDate? ==> notice.ourIndex == |ledger.chain| - 1
    {
      if nodeUrl.None? {
        return BadRequest;
      }
      var currentIndex := |ledger.chain| - 1;
      if blockIndex > currentIndex {
        return WillSync(currentIndex, blockIndex, nodeUrl.value);
      }
      return UpToDate(currentIndex);
    }

    /**
     * `_replace_chain`: stops mining, clears the chain and rebuilds it from the
     * records, takes the last record's difficulty, re-appends the saved mempool
     * transactions whose id the new chain lacks (without clearing the mempool), and
     * restarts mining if it ran and a miner address is recorded. An empty chain
     * fails at the difficulty step: the chain is left empty and mining stopped.
     */
    method ReplaceChain(wire: seq<WireBlock>) returns (ok: bool)
      modifies ledger`chain, ledger`pending, ledger`difficulty, ledger`miningActive
      ensures ok <==> wire != []
      ensures ok ==>
        && ledger.chain == Adopted(wire)
        && ledger.difficulty == WireDifficulty(wire[|wire| - 1])
        && ledger.pending == old(ledger.pending) + Remerge(old(ledger.pending), ConfirmedIds(wire))
        && ledger.miningActive == (old(ledger.miningActive) && CanRestart(currentMinerAddress))
      ensures !ok ==>
        && ledger.chain == []
        && ledger.difficulty == old(ledger.difficulty)
        && ledger.pending == old(ledger.pending)
        && !ledger.miningActive
    {
      var wasMining := false;
      var miningAddress := currentMinerAddress;
      if ledger.miningActive {
        wasMining := true;
        ledger.miningActive := false;
      }
      var saved := ledger.pending;
      var confirmed := CollectIds(wire);
      ledger.chain := [];
      var i := 0;
      while i < |wire|
        invariant 0 <= i <= |wire|
        invariant ledger.chain == Adopted(wire[..i])
        invariant ledger.pending == saved && ledger.difficulty == old(ledger.difficulty) && !ledger.miningActive
      {
        ledger.chain := ledger.chain + [ToBlock(wire[i])];
        i := i + 1;
      }
      assert wire[..i] == wire;
      if wire == [] {
        return false;
      }
      ledger.difficulty := WireDifficulty(wire[|wire| - 1]);
      i := 0;
      while i < |saved|
        invariant 0 <= i <= |saved|
        invariant ledger.pending == saved + Remerge(saved[..i], confirmed)
        invariant ledger.chain == Adopted(wire) && ledger.difficulty == WireDifficulty(wire[|wire| - 1])
        invariant !ledger.miningActive
      {
        assert saved[..i + 1][..i] == saved[..i];
        if saved[i].id.Some? && saved[i].id.value !in confirmed {
          ledger.pending := ledger.pending + [saved[i]];
        }
        i := i + 1;
      }
      assert saved[..i] == saved;
      if wasMining && miningAddress.Some? && miningAddress.value != "" {
        ledger.miningActive := true;
      }
      return true;
    }

    /**
     * `resolve_conflicts`: scans the replies for the longest valid chain by
     * reported length. An empty chosen chain counts as none. Before replacing, the
     * blocks from the local length up to the reported length are read from the
     * chosen chain, which fails when that chain is shorter than reported. The
     * result is true whenever a replacement was attempted. `replies` holds one
     * reply per registered peer, in the order the peers are visited.
     */
    method ResolveConflicts(replies: seq<Reply>) returns (outcome: Outcome)
      requires |replies| == |peers|
      requires forall k :: 0 <= k < |replies| ==> replies[k].peer in peers
      requires forall j, k :: 0 <= j < k < |replies| ==> replies[j].peer != replies[k].peer
      modifies ledger`chain, ledger`pending, ledger`difficulty, ledger`miningActive
      ensures var s := ScanAll(old(|ledger.chain|), replies);
        && (s.chosen.None? || s.chosen.value == [] ==> outcome == Returned(false))
        && (s.chosen.Some? && s.chosen.value != [] && |s.chosen.value| < s.maxLength ==> outcome == Raised)
        && (s.chosen.Some? && s.chosen.value != [] && |s.chosen.value| >= s.maxLength ==>
              && outcome == Returned(true)
              && ledger.chain == Adopted(s.chosen.value)
              && ledger.difficulty == WireDifficulty(s.chosen.value[|s.chosen.value| - 1])
              && ledger.pending == old(ledger.pending) + Remerge(old(ledger.pending), ConfirmedIds(s.chosen.value))
              && ledger.miningActive == (old(ledger.miningActive) && CanRestart(currentMinerAddress)))
      ensures outcome != Returned(true) ==> unchanged(ledger)
      ensures outcome == Returned(true) ==> |ledger.chain| > old(|ledger.chain|)
    {
      var currentLength := |ledger.chain|;
      var maxLength := currentLength;
      var newChain: Option<seq<WireBlock>> := None;
      var source: Option<string> := None;
      var i := 0;
      while i < |replies|
        invariant 0 <= i <= |replies|
        invariant Scan(maxLength, newChain, source) == ScanAll(currentLength, replies[..i])
        invariant unchanged(ledger)
      {
        assert replies[..i + 1][..i] == replies[..i];
        var reply := replies[i];
        if reply.fetch.Fetched? && reply.fetch.status == StatusOk {
          var length, chain := reply.fetch.length, reply.fetch.chain;
          if length > maxLength {
            var valid := CheckPeerChain(chain);
            if valid {
              maxLength := length;
              newChain := Some(chain);
              source := Some(reply.peer);
            }
          }
        }
        i := i + 1;
      }
      assert replies[..i] == replies;
      ScanOutcome(currentLength, replies);
      if newChain.None? || newChain.value == [] {
        return Returned(false);
      }
      var chosen := newChain.value;
      if |chosen| < maxLength {
        return Raised;
      }
      var _ := ReplaceChain(chosen);
      return Returned(true);
    }

    /** `_fetch_from_specific_peer`: replaces the chain iff the response passes the
        catch-up rule, and says whether it did. */
    method FetchFromSpecificPeer(fetch: Fetch) returns (replaced: bool)
      modifies ledger`chain, ledger`pending, ledger`difficulty, ledger`miningActive
      ensures replaced <==> FetchAccepts(old(|ledger.chain|), fetch)
      ensures replaced ==>
        && ledger.chain == Adopted(fetch.chain)
        && ledger.difficulty == WireDifficulty(fetch.chain[|fetch.chain| - 1])
        && ledger.pending == old(ledger.pending) + Remerge(old(ledger.pending), ConfirmedIds(fetch.chain))
        && ledger.miningActive == (old(ledger.miningActive) && CanRestart(currentMinerAddress))
      ensures !replaced ==> unchanged(ledger)
    {
      if fetch.Fetched? && fetch.status == StatusOk {
        var valid := CheckPeerChain(fetch.chain);
        if valid && |fetch.chain| > |ledger.chain| {
          var _ := ReplaceChain(fetch.chain);
          return true;
        }
      }
      return false;
    }
  }
}
