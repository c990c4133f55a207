# A verified model of a proof-of-work ledger and its peer consensus

This project models two cooperating components of a small Python blockchain node in Dafny.

- **The ledger** (`blockchain.py`) is covered by the modules `Merkle`, `Blocks`, `Chain` and `Ledger`:
  - the Merkle root of a block's transactions;
  - blocks and their proof of work;
  - the `Blockchain` object. It holds the chain, the mempool and the set of processed transaction ids. It also holds the difficulty and the time of its last adjustment, the pause flag and time, and the checkpoint slot.
  - the ledger's operations: transaction admission, mining, difficulty adjustment, the balance and history queries, the two chain validators, and checkpoint/pause/resume bookkeeping.
- **The peer registry and longest-chain consensus** (`node.py`) are covered by the modules `Urls` and `Consensus`:
  - peer URL normalisation and registration;
  - the light validator applied to chains received from peers;
  - the selection of the longest candidate among fetched replies;
  - the rebuild of the local chain from wire records, including the re-merge of the mempool;
  - the two catch-up decisions taken on a block notification.

How the model is built:

- Hashing and canonical JSON are uninterpreted: a `Crypto` value holds three function values (`sha`, `txJson`, `headerJson`).
- Properties that need collision resistance take it as an explicit hypothesis, `CollisionFree(c)`.
- Clock readings, HTTP replies, storage outcomes and Unicode NFKC normalisation are parameters.
- The state the source updates in place is held in two classes, `Ledger.Blockchain` and `Consensus.Node`. Their methods are proved against specification functions: the recursive `MerkleRoot`, `Balance`, `History`, `ScanAll` and `Remerge`, the quantified predicate `ChainValid`, and `Comprehensive`. Lemmas then state what those functions mean.

Several behaviours of the code are modelled as written and proved as properties, not corrected:

- **Two different ids.** The id recorded when a block is mined is the digest of the stored dictionary, which includes its `id` key. The id checked on admission is the digest without that key (`Ledger.RecordedIdDiffersFromCheckedId`).
- **Two balance rules.** The comprehensive validator never debits the system senders `network` and `genesis`; `get_balance` does (`Chain.TwoBalanceRules`).
- **Two length comparisons.** `resolve_conflicts` compares the length a peer *reports*. `_fetch_from_specific_peer` compares the actual length of the fetched chain (`Consensus.ReportedLengthDecides`).
- **The mempool is not cleared.** After a replacement the old mempool is kept, and the transactions to put back are appended after it (`Consensus.MempoolAfterReplace`).
- **The peer validator trusts hashes.** It never recomputes a hash, so it accepts chains that the ledger's own validator rejects (`Consensus.PeerValidatorTrustsHashes`).

## Model

| member | source | states |
|---|---|---|
| Primitives.MeetsTargetMeaning | blockchain.py:94-97 | the proof-of-work test `hash[:d] == "0" * d` holds iff the first d characters exist and are all '0'; it uses Python slice semantics for a negative d |
| Primitives.MeetsTargetMonotone | blockchain.py:94-97 | a hash that meets difficulty d also meets every smaller non-negative difficulty |
| Merkle.CreateMerkleRoot | blockchain.py:26-51 | the loop (pad an odd level by duplicating its last digest, then hash adjacent pairs until one digest is left) returns MerkleRoot of the transactions |
| Merkle.CombinePairs | blockchain.py:43-46 | the inner loop yields the pairwise hashes of an even-length level, in order |
| Merkle.Pad | blockchain.py:39-40 | the padded level has even length, and grows by one exactly when it was odd |
| Merkle.NextLevel | blockchain.py:37-48 | one round halves the level (rounding up); from two or more digests it strictly shrinks but never becomes empty, so the loop ends with exactly one digest |
| Merkle.MerkleBaseCases | blockchain.py:30-34 | an empty list yields the hash of the empty string; a one-element list yields that transaction's id |
| Merkle.VerifyIgnoresTransaction | blockchain.py:54-60 | verify_transaction accepts any transaction against the recomputed root, and its answer does not depend on which transaction it is given |
| Merkle.DuplicateLastKeepsRoot | blockchain.py:37-40 | for an odd list of two or more transactions, appending a copy of the last one leaves the root unchanged |
| Merkle.PairInjective | blockchain.py:45-46 | under collision resistance, two pair hashes of digests are equal only when both halves are equal |
| Merkle.NextLevelInjective | blockchain.py:37-48 | under collision resistance, equal-length digest levels that reduce to the same next level are equal |
| Merkle.ReduceInjective | blockchain.py:37-51 | under collision resistance, equal-length digest levels with the same final root are equal |
| Merkle.MerkleRootInjective | blockchain.py:26-51 | under collision resistance, two equal-length transaction lists with the same root are the same list |
| Blocks.NewBlock | blockchain.py:64-73 | a fresh block carries the given fields, difficulty 0, the Merkle root of its transactions and the hash of its header |
| Blocks.HashIgnoresBody | blockchain.py:75-87 | the block hash covers only index, timestamp, Merkle root, previous hash and nonce, so replacing the transactions or the difficulty leaves the hash as it was |
| Blocks.MineBlock | blockchain.py:89-105 | only nonce, hash and difficulty change; the nonce does not decrease; the hash meets the target and is the recomputed hash whenever the nonce moved; every nonce skipped missed the target, so the result is the first nonce that meets it |
| Blocks.MinedFreshBlockIsSealed | blockchain.py:71-105 | mining a block whose hash and Merkle root were consistent keeps them consistent |
| Chain.ChainValidAppend | blockchain.py:659-688 | a chain with one more block is valid iff the old chain is valid and the new block passes the four checks against the old tip |
| Chain.TamperedBlockInvalidates | blockchain.py:659-688 | under collision resistance, replacing the transactions of a confirmed block (other than the genesis block) in a valid chain by a different list of the same length makes is_chain_valid false |
| Chain.TamperedAmountInvalidates | blockchain.py:659-688 | under collision resistance, changing the amount of one confirmed transaction after the genesis block in a valid chain makes is_chain_valid false |
| Chain.EntriesAppend | blockchain.py:646-656 | the confirmed transactions of a longer chain are those of the old chain followed by the new block's |
| Chain.NetIsReceivedMinusSent | blockchain.py:643-657 | an address's balance is the sum it received minus the sum it sent, with nothing exempted |
| Chain.NetAppend | blockchain.py:643-657 | the balance fold splits over concatenation of transaction lists |
| Chain.BalanceAppend | blockchain.py:643-657 | appending a block adds exactly that block's net transfer for the address to the balance |
| Chain.InvolvingMembers | blockchain.py:724-734 | the history filter keeps exactly the entries that name the address as sender or recipient |
| Chain.InvolvingNet | blockchain.py:724-734 | filtering to an address's history does not change its net balance |
| Chain.EntriesMembers | blockchain.py:727-733 | the flattened confirmed entries are exactly the transactions of the chain, each tagged with its block's index and timestamp |
| Chain.HistoryMeaning | blockchain.py:724-734 | an entry is in the history iff it is a confirmed transaction naming the address, tagged with its block; and the history's net equals get_balance |
| Chain.BlockAtFindsIndex | blockchain.py:718-722 | when indexes match positions, get_block_by_index finds a block carrying the index whenever one exists, and what it returns carries that index |
| Chain.Comprehensive | blockchain.py:337-400 | when is_chain_valid fails the result is (False, [integrity issue]); otherwise validity is exactly "no issues" |
| Chain.BlockIssuesEmpty | blockchain.py:352-371 | a block yields no issue iff its index equals its position, its Merkle root and hash are consistent, and its timestamp is not before its predecessor's |
| Chain.StructuralIssuesEmpty | blockchain.py:352-371 | the per-block scan over the first n blocks reports nothing iff each of those blocks is well placed |
| Chain.ReplayBalanceOf | blockchain.py:374-394 | the replay's balance map holds an address exactly when it appeared in a transaction, and then holds its received minus its non-system debits |
| Chain.NeverSeenHoldsNothing | blockchain.py:374-394 | an address never named in a transaction has received and sent nothing |
| Chain.NoOverdraftSnoc | blockchain.py:374-394 | no running balance went negative over a list iff none did over its prefix and the last debited sender is not negative after it |
| Chain.ReplayIssuesEmpty | blockchain.py:374-394 | the replay reports no negative balance iff no non-system sender's running balance ever drops below zero |
| Chain.ComprehensiveMeaning | blockchain.py:337-400 | comprehensive_validation succeeds iff the chain is valid, every index equals its position, timestamps never decrease, every hash and Merkle root is consistent, and no non-system sender overdraws |
| Chain.WellPlacedEverywhere | blockchain.py:352-371 | every block is well placed iff indexes match positions, timestamps never decrease and every block is consistent |
| Chain.TwoBalanceRules | blockchain.py:388-389 | the validator's replayed balance of an address is get_balance plus what it sent when it is a system address, so the two rules differ exactly on system senders |
| Chain.StructuralIssuesMembers | blockchain.py:352-371 | an issue is among those of the first n blocks iff one of those blocks yields it |
| Chain.ReplayReports | blockchain.py:374-394 | the replay reports a negative balance for an account and block iff some transaction of that block leaves its non-system sender, that account, below zero; it reports nothing else |
| Chain.ComprehensiveSources | blockchain.py:345-398 | an issue is reported iff it is the integrity issue of an invalid chain, or, for a valid chain, one block's issue or a replay issue |
| Chain.BlockIssuesMembers | blockchain.py:352-371 | block j can only report issues naming position j: a wrong index, an earlier timestamp, an inconsistent Merkle root or an inconsistent hash, each exactly when that check fails |
| Chain.ComprehensiveBlockIssues | blockchain.py:345-371 | the integrity issue is reported iff is_chain_valid fails; otherwise the wrong-index, timestamp, Merkle-root and hash issues are reported for exactly the blocks that fail those checks |
| Chain.ComprehensiveBalanceIssues | blockchain.py:374-394 | for a valid chain, a negative-balance issue names exactly a non-system sender left below zero and the block of that transaction |
| Ledger.GenesisBlock | blockchain.py:402-434 | the genesis block is fixed: index 0, the fixed timestamp, nonce 0, previous hash "0", the single genesis transaction, the ledger's difficulty and a consistent hash, so every node with the same difficulty builds the same block |
| Ledger.Draft | blockchain.py:615-625 | the dictionary checked on admission carries no id and takes no metadata key that names a core field |
| Ledger.RecordedIdDiffersFromCheckedId | blockchain.py:482-484 | under collision resistance, the id recorded at mining (digest with the id key) never equals the id checked at admission (digest without it) |
| Ledger.Adjusted | blockchain.py:504-524 | an adjustment moves the difficulty by at most one and never lowers it below 1 |
| Ledger.AdjustedMeaning | blockchain.py:514-522 | the difficulty goes up exactly when the interval took less than half the expected time, and down exactly when it took more than twice as long and was above 1 |
| Ledger.Retain | blockchain.py:487-489 | the cut keeps a subset of the ids of exactly the requested size |
| Ledger.ApplyEntry | blockchain.py:374-394 | one loop step of the balance replay performs ReplayStep |
| Ledger.ReplayBlock | blockchain.py:374-394 | the replay over one block's transactions extends the replay of everything before it |
| Ledger.Blockchain.constructor | blockchain.py:118-149 | with a stored checkpoint the seven saved fields are loaded; otherwise the chain is the genesis block and a checkpoint is stored unless writing fails; the ledger starts unpaused and not mining; the adjustment interval starts at 10 |
| Ledger.Blockchain.CreateCheckpoint | blockchain.py:151-199 | on success the slot holds the seven fields with metadata (length, difficulty, mempool size, chain digest, version); on failure nothing changes |
| Ledger.Blockchain.LoadCheckpoint | blockchain.py:208-259 | succeeds iff a checkpoint is stored, and then restores exactly its seven fields; otherwise nothing changes |
| Ledger.Blockchain.PauseBlockchain | blockchain.py:261-295 | when already paused it fails and changes nothing; otherwise mining stops, and the flag and time are set exactly when the checkpoint is stored; the checkpoint's metadata time and the pause time are two separate clock readings |
| Ledger.Blockchain.ResumeBlockchain | blockchain.py:297-335 | succeeds iff a checkpoint is stored, and then restores it and clears the flag and time; on failure nothing changes |
| Ledger.Blockchain.GetBalance | blockchain.py:643-657 | returns Balance over the confirmed chain only; system senders are debited too |
| Ledger.Blockchain.AddTransaction | blockchain.py:599-641 | accepts iff the amount is non-negative, a non-system sender's balance covers it and the digest is not processed; on acceptance it appends exactly the dictionary with that id and returns the id; on rejection the mempool is unchanged |
| Ledger.Blockchain.AdjustDifficulty | blockchain.py:504-524 | when the chain length is not a multiple of the ledger's adjustment interval nothing changes; otherwise the difficulty becomes Adjusted over the interval's expected time and the adjustment time becomes now |
| Ledger.Blockchain.SetDifficulty | blockchain.py:690-696 | the difficulty is set to the argument clamped to at least 1 |
| Ledger.Blockchain.RecordProcessedIds | blockchain.py:482-489 | the id set gains the ids of the given transactions, and above 10000 it is cut to a 5000-element subset |
| Ledger.Blockchain.AppendMined | blockchain.py:474-494 | the chain grows by one mined block linked to the old tip that carries the transactions; validity and index continuity are preserved |
| Ledger.Blockchain.MineOnTip | blockchain.py:474-500 | the tip step of mining: block appended, mempool emptied, ids recorded and capped, difficulty adjusted on the interval |
| Ledger.Blockchain.MinePendingTransactions | blockchain.py:449-502 | on a non-empty chain: grows by exactly one block with index old length, linked to the old tip and holding the old mempool plus the reward; mempool emptied; ids recorded and at most 10000 kept; difficulty adjusted; validity preserved. On an empty chain only the reward is appended to the mempool |
| Ledger.Blockchain.IsChainValid | blockchain.py:659-688 | the early-return loop computes ChainValid: every block after the first passes the hash, linkage, Merkle root and proof-of-work checks |
| Ledger.Blockchain.CheckBlock | blockchain.py:352-371 | the four per-block checks compute BlockIssues |
| Ledger.Blockchain.ComprehensiveValidation | blockchain.py:337-400 | the method computes Comprehensive, whose meaning is ComprehensiveMeaning |
| Ledger.Blockchain.GetBlockByHash | blockchain.py:711-716 | returns nothing iff no block carries the hash, and otherwise the first block that does |
| Ledger.Blockchain.GetTransactionHistory | blockchain.py:724-734 | returns History: the confirmed transactions naming the address, in chain order, tagged with block index and timestamp |
| Urls.StripLeadingControls | node.py:792 | urlsplit's stripping removes a prefix made only of characters up to the space, and leaves a string that already starts above the space as it is |
| Urls.RemoveUnsafe | node.py:792 | the cleaned URL holds no tab, CR or LF and only characters from the input |
| Urls.RemoveUnsafeKeepsSafe | node.py:792 | a URL without unsafe characters is left unchanged |
| Urls.Lower | node.py:792 | the scheme is lower-cased letter by letter: each upper-case letter becomes its lower-case letter, every other character is kept |
| Urls.LowerIgnoresCase | node.py:792-795 | schemes equal up to the case of their letters lower to the same string, so such URLs are the same peer |
| Urls.Find | node.py:792 | the first position of a character, or -1 when it is absent |
| Urls.TakeNetloc | node.py:792 | the netloc runs up to the first '/', '?' or '#' |
| Urls.Clean | node.py:792 | the cleaned URL has no unsafe character, and a URL already clean and starting above the space is unchanged |
| Urls.NetlocAfter | node.py:792-793 | the netloc holds no delimiter, no unsafe character when the input has none, and is exactly n for the input "//" + n |
| Urls.SchemedParts | node.py:792-794 | a recognised scheme is lower-case, starts with a letter and has only scheme characters |
| Urls.Split | node.py:792-794 | when urlsplit does not raise, it yields a well-formed scheme and netloc; when it raises is stated by SplitRaises |
| Urls.DropIgnored | node.py:792 | the text the NFKC netloc check normalises: the netloc without '@', ':', '#' and '?', holding only characters of the netloc |
| Urls.DropIgnoredKeepsOthers | node.py:792 | a netloc without those four characters is normalised as it is |
| Urls.NfkcCheckMeaning | node.py:792 | a netloc as urlsplit cuts it out is refused by the NFKC check exactly when it is not ASCII and its normal form holds one of '/', '?', '#', '@', ':' |
| Urls.NfkcExpansionRaises | node.py:792 | a non-ASCII netloc free of delimiters whose normal form gains one makes urlsplit raise on "http://" + netloc, although that address splits to exactly that netloc |
| Urls.FullwidthSolidusNetloc | node.py:792 | the netloc "ex\uFF0Fample", whose fullwidth solidus normalises to '/', meets those conditions |
| Urls.SchemeOrHttp | node.py:794 | the scheme, or "http" when it is empty |
| Urls.SplitNormalForm | node.py:792-794 | splitting "scheme://netloc" built from a well-formed scheme and netloc gives back that scheme and netloc |
| Urls.NodeUrlIdempotent | node.py:790-799 | normalising a normalised peer URL yields it again with the same netloc, so registering an accepted URL a second time is recognised as a duplicate and raises exactly when the first registration did |
| Urls.NatToStringRoundTrip | node.py:795 | the decimal rendering of a port reads back as the same number |
| Urls.NatToString | node.py:795 | the decimal rendering is all digits and starts with '0' only for zero, which renders as "0" |
| Urls.IntToString | node.py:795 | the f-string rendering of an integer is its digits without leading zeros, with a leading '-' for a negative value |
| Urls.IntToStringInjective | node.py:795 | distinct ports render as distinct text, so the own-URL comparison recognises exactly the node's own port |
| Consensus.Export | node.py:184-193 | the /blockchain reply holds one wire record per block, in order |
| Consensus.Adopted | node.py:970-984 | the rebuilt chain has one block per wire record, each taken field by field |
| Consensus.ExportAdoptRoundTrip | node.py:970-984 | rebuilding an exported chain gives back the chain exactly, since hash, Merkle root and difficulty are copied rather than recomputed |
| Consensus.CheckPeerChain | node.py:910-940 | the early-return loop computes PeerChainValid: every block after the first links to its predecessor, meets its own difficulty (4 when absent) and has index equal to its position |
| Consensus.HonestExportPasses | node.py:910-940 | a chain that the ledger finds valid, with matching indexes, passes the peer validator once exported |
| Consensus.PeerValidAdoptedLinkage | node.py:910-940 | each block after the first of an accepted chain is linked to its predecessor, sits at its index and meets its difficulty once rebuilt |
| Consensus.PeerValidatorTrustsHashes | node.py:910-940 | some wire chain passes the peer validator yet the rebuilt chain fails is_chain_valid |
| Consensus.ScanOutcome | node.py:851-873 | the scan's maximum never falls below the local length; a chain is chosen iff some reply is eligible; every eligible reported length is at most the maximum; the chosen chain and peer come from the first eligible reply that reports the maximum |
| Consensus.ReportedLengthDecides | node.py:862-866 | a valid, longer chain whose peer reports the local length is passed over by the scan, yet _fetch_from_specific_peer would take it |
| Consensus.EqualLengthNeverReplaces | node.py:862-866 | when no peer reports more than the local length, nothing is chosen |
| Consensus.TxIdsMeaning | node.py:961-965 | an id is collected iff some transaction carries it |
| Consensus.ConfirmedIdsMeaning | node.py:961-965 | an id is confirmed iff some transaction of the new chain carries it |
| Consensus.CollectIds | node.py:961-965 | the loop collects exactly the confirmed ids of the new chain |
| Consensus.RemergeCount | node.py:990-992 | each old pending transaction is put back once per occurrence when it has an id the new chain lacks, and not at all otherwise |
| Consensus.MempoolAfterReplace | node.py:958-992 | since the mempool is not cleared, a transaction that is put back occurs twice as often afterwards, and any other once as often |
| Consensus.Node.constructor | node.py:42-66 | a node starts with no peers and no miner address |
| Consensus.Node.RegisterNode | node.py:790-799 | raises exactly when urlsplit raises (unbalanced brackets, or a netloc the NFKC check refuses); otherwise adds the normalised URL and returns true iff it has a netloc, is not yet a peer and is not the node's own URL; the peers are unchanged unless it returns true |
| Consensus.Node.NotifyNewBlock | node.py:645-672 | a missing sender gives a bad request; a fetch is scheduled iff the announced index is beyond the local tip; otherwise the node answers up to date with its tip index |
| Consensus.Node.ReplaceChain | node.py:942-1023 | a non-empty wire chain becomes the local chain, its tail difficulty becomes the ledger's, the mempool becomes the old mempool followed by the put-back transactions, and mining continues only if it was running and a miner is known; an empty wire chain leaves the chain empty and fails |
| Consensus.Node.ResolveConflicts | node.py:847-908 | with one reply per registered peer: no non-empty candidate: returns false and the ledger is untouched; a candidate shorter than the reported maximum: the index error is raised before any change; otherwise returns true after the replacement, and the chain has grown |
| Consensus.Node.FetchFromSpecificPeer | node.py:1064-1105 | replaces iff the reply is a 200 with a chain that passes the peer validator and is strictly longer than the local chain; otherwise the ledger is untouched |

## Left out

- HTTP: the Flask routes and JSON responses, the `requests` calls and the pagination of `/blockchain`. Peer replies are input values (`Consensus.Fetch`); a reply that is not a well-formed list of block records is not modelled.
- Threads and timers: peer discovery, periodic consensus, block broadcast and continuous mining. Only a `miningActive` flag remains, which `pause_blockchain` and `_replace_chain` read and write.
- SHA-256 and `json.dumps(sort_keys=True)` are uninterpreted functions. The properties that depend on them assume collision resistance explicitly.
- Persistence: `pickle`/`json` file I/O, `os.path.exists` and the exception paths of the checkpoint functions. A single stored slot and a write-failure flag replace them.
- The `validate` flag of `load_checkpoint` and `resume_blockchain` only logs, so it is not modelled.
- Amounts, rewards and times are integers, not floats. The source only adds and compares them.
- Blocks.MineBlock: the source loop has no bound. The model takes a ghost nonce that meets the target and returns the first nonce that does; the case where no such nonce exists is not modelled.
- Ledger.Draft: metadata values are strings, and a metadata key naming a core field (`from`, `to`, `amount`, `timestamp`, `id`) is dropped. In the source such a key would overwrite the field.
- Ledger.Retain: the source keeps the last 5000 ids of a set's iteration order, which the model does not know. The model keeps an arbitrary 5000-element subset.
- Urls.Split: urlsplit is modelled as in current Python (leading C0 controls and spaces stripped, tab/CR/LF removed). Its two `ValueError` checks on the netloc are modelled by `SplitRaises`: unbalanced brackets, and the NFKC check, with the Unicode normalisation taken as a parameter. The validation of a bracketed host (IPv6 literal syntax, checked with the `ipaddress` module) and the URL cache are left out.
- Consensus.Node.RegisterNode: a netloc with balanced brackets whose bracketed host is not a valid IPv6 or IPvFuture literal makes the source raise, and the model registers it instead, because the bracketed-host validation is not modelled.
- Consensus.Node.ResolveConflicts: the fetched replies are an input sequence, one per registered peer in visiting order; the order in which Python iterates the peer set is not modelled. Network exceptions are represented as unreachable replies.
- Consensus.Node.FetchFromSpecificPeer: exceptions inside the fetch are represented as an unreachable reply. The thread that runs it is left out.
- `get_latest_block` and `generate_transaction_id` are plain expressions used inline (`chain[|chain| - 1]`, `Primitives.TxId`). `get_mining_stats` is a report and is not modelled.
- Smart contracts, the wallet, the CLI and launcher, API keys and all logging are not part of this model.
