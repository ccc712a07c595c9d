# TxHashSet validation and chain-state core of GrinPlusPlus, in Dafny

This project models the part of the GrinPlusPlus Mimblewimble node that validates, installs and syncs TxHashSet snapshots. It covers five pieces:

- **The snapshot validator** (`validator.dfy`, over `pmmr.dfy`). It runs a short-circuiting pipeline over the kernel, output and range-proof MMRs of a downloaded snapshot, checked against a target header. The steps are: sizes, internal parent hashes, roots, kernel-root history, kernel sums, batched range proofs (1000 per batch) and batched kernel signatures (2000 per batch).
- **The snapshot processor** (`processor.dfy`, over `chains.dfy`). It loads, validates and installs a snapshot. Then it moves the confirmed chain to the snapshot's block, either by rewinding to the common ancestor with the candidate chain and extending it from there, or by reporting what each failure leaves behind.
- **The `ITxHashSet` contract** (`txhashset.dfy`), written as an abstract state machine. Its state is the append-only kernel, output and range-proof sequences, a set of spent output positions, the stack of applied blocks, and the state at the last commit. It supports apply, rewind, commit, discard, the spent queries and the root check.
- **The state-sync decision logic** (`statesyncer.dfy`): when to request a snapshot, which peer to ban, and what state to keep.
- **The `BlockChainServer` façade** (`server.dfy`): the status each entry point reports.

`seqs.dfy` holds the sequence helpers, `types.dfy` the block and transaction records and the consensus constants, and `wrappers.dfy` the `Option` type.

## Modelling choices

- **MMRs.** An MMR is a sequence of nodes. Each node has an optional hash and optional leaf data; `None` means the entry is pruned or was never written. A lookup beyond the size yields `None`, just as `GetHashAt` and `GetOutputAt` return null.
- **Uninterpreted helpers.** These are function-typed fields of `MmrOps` and `Crypto`:
  - MMR index arithmetic and parent hashing;
  - the root at a given size;
  - the kernel-sum check;
  - the two batch verifiers.
- **The batch-verifier assumption.** The model makes exactly one assumption about the batch verifiers: a batch verifier accepts a batch exactly when every item in it is valid. This is stated as the precondition `BatchVerifiersAreConjunctions`. Under it, the result of the range-proof and signature checks depends only on the items, never on where the batches are cut.
- **Chains.** The candidate and confirmed chains are sequences of block hashes indexed by height, over maps for the stored headers, blocks, orphans and block sums. The TxHashSet manager is either `Closed` or `Open(snapshot)`. Effects on stores outside this state are returned as a list of `Effect` values. A run that validates the snapshot produces, in order:
  - `CloseTxHashSet`, closing the live set;
  - `StoreBlockSums`, the validator's sums under the header hash;
  - one `SaveOutputPositions` call per stored candidate header from height 0 to the header's height;
  - `InstallTxHashSet`;
  - a second `CloseTxHashSet` when the confirmed chain cannot be moved.

  An invalid snapshot produces `CloseTxHashSet` then `DestroyLoaded`.
- **Fixed-width arithmetic.** The `uint64_t` arithmetic is written out explicitly. `Sub64` wraps around, and `Overage` evaluates `0 - REWARD * (1 + height)` in `uint64_t` and reinterprets the result as `int64_t`.
- **Consensus constants.** The consensus headers are not part of this model. The constants are Grin's: `REWARD` = 60·10⁹, `CUT_THROUGH_HORIZON` = 10080 and `STATE_SYNC_THRESHOLD` = 2880.
- **Time and the network.** Time in the syncer is an integer number of seconds. The peer calls are function parameters.
- **Unchecked candidate lookups in the processor.** `TxHashSetProcessor.cpp` reads the candidate chain at lines 56-57 and 86-87 without a null check. Both reads come after validation. The kernel-history check has by then found a candidate header at every height up to the header's, so the reads always succeed. `Processor.ProcessTxHashSet` therefore needs no precondition about the candidate chain. A header above the candidate tip fails validation and is reported as an invalid snapshot.
- **The kernel-sum inputs.** The kernel-sum check receives every output that the snapshot's output MMR still holds below the header's output MMR size. The model passes exactly those outputs.
- **Not-found lookups.** The header and block lookups return `None` where the code returns a null pointer.

## Model

| member | source | states |
|---|---|---|
| Consensus.Sub64 | P2P/Sync/StateSyncer.cpp:97 | `uint64_t` subtraction: the true difference when it is non-negative, otherwise 2^64 minus the shortfall |
| Consensus.Overage | PMMR/TxHashSetValidator.cpp:171-172 | the `int64_t` overage lies in the `int64_t` range and is congruent to −REWARD·(1+height) modulo 2^64 |
| Consensus.OverageIsNegatedReward | PMMR/TxHashSetValidator.cpp:171-172 | whenever REWARD·(height+1) ≤ 2^63, the wrapped overage is exactly −REWARD·(height+1) |
| Pmmr.ValidateRootsReadsOnlyHashes | PMMR/TxHashSetValidator.cpp:52-57 | the root check reads node hashes only, so removing leaf data never changes its answer |
| Pmmr.PruneKeepsHashesConsistent | PMMR/TxHashSetValidator.cpp:115-146 | a pruned hash is skipped, never failed: pruning any position of a hash-consistent MMR leaves it hash-consistent |
| Validator.ValidateSizes | PMMR/TxHashSetValidator.cpp:91-112 | true iff kernel size = header kernel MMR size and output size = range-proof size = header output MMR size |
| Validator.ValidateMmrHashes | PMMR/TxHashSetValidator.cpp:115-146 | true iff every position of height > 0 whose own hash and both child hashes are readable hashes to `HashParentWithIndex(left, right, i)` |
| Validator.ValidateKernelHistory | PMMR/TxHashSetValidator.cpp:148-167 | true iff at every height 0..header height a candidate header exists and the kernel root at its kernel MMR size is the root it records |
| Validator.KernelSumInput | PMMR/TxHashSetValidator.cpp:169-198 | the balance check receives no inputs, no previous sums and the header's offset; the outputs are the commitments of exactly the present outputs below the header's output size, in index order; the excesses are those of exactly the present kernels below the kernel size, in index order; the overage is −REWARD·(height+1) |
| Validator.KernelSumsReadOnlyLeavesBelowHeader | PMMR/TxHashSetValidator.cpp:169-198 | the kernel-sum result depends only on the output and kernel leaves below the header's MMR sizes |
| Validator.ProofPairsFollowOutputs | PMMR/TxHashSetValidator.cpp:203-229 | when no present output lacks a proof, the k-th pair holds the k-th present output's commitment and the range proof at that same position |
| Validator.SubmitBatch | PMMR/TxHashSetValidator.cpp:219-227 | one non-empty batch within the size is recorded as submitted, and it passes iff every item submitted so far, this batch included, is valid |
| Validator.ValidateRangeProofs | PMMR/TxHashSetValidator.cpp:201-240 | true iff every present output has a range proof at its position and every (commitment, proof) pair is valid, for every batch size; on success each pair was submitted exactly once, in order, in non-empty batches within the size |
| Validator.ValidateKernelSignatures | PMMR/TxHashSetValidator.cpp:242-276 | true iff every present kernel is valid, for every batch size; on success each kernel was submitted exactly once, in index order, in non-empty batches within the size, including a final flush of the remainder |
| Validator.Validate | PMMR/TxHashSetValidator.cpp:23-89 | accepted iff all seven checks pass, and then the sums are exactly those of the kernel-sum check; a rejection names the first failing check in pipeline order, with every earlier check passed |
| TxHashSetSpec.FirstUnspent | include/PMMR/TxHashSet.h:33-36 | a position at or after `from` that holds the output unspent, with no such position between `from` and it; none exactly when no position from `from` on holds it unspent |
| TxHashSetSpec.IsUnspent | include/PMMR/TxHashSet.h:33-36 | true iff some position holds the output and is not spent |
| TxHashSetSpec.IsValid | include/PMMR/TxHashSet.h:38-41 | true iff for every input of the transaction some position holds it and is not spent |
| TxHashSetSpec.SpendInputs | include/PMMR/TxHashSet.h:43-46 | each input is matched to a distinct position that holds it unspent |
| TxHashSetSpec.ApplyBlock | include/PMMR/TxHashSet.h:43-46 | appends the block's kernels, outputs and range proofs; spent positions only grow, and every newly spent position is an existing one that holds one of the block's inputs; the block is pushed on the applied stack; the ledger stays well-formed |
| TxHashSetSpec.ApplyBlockSpendsInputs | include/PMMR/TxHashSet.h:43-46 | after applying, every input's position is spent, and every new output is unspent |
| TxHashSetSpec.RewindBlock | include/PMMR/TxHashSet.h:60-64 | permitted only for the most recently applied block; pops it and truncates the kernel and output sequences to prefixes |
| TxHashSetSpec.RewindBlockUndoesApplyBlock | include/PMMR/TxHashSet.h:60-64 | rewinding the block just applied restores the exact previous ledger: appended leaves removed and spent inputs unspent again |
| TxHashSetSpec.Rewind | include/PMMR/TxHashSet.h:55-58 | on success the most recently applied block is the one with the header's hash, and the applied stack is a prefix of the old one |
| TxHashSetSpec.RewindUndoesApplyBlocks | include/PMMR/TxHashSet.h:55-58 | rewinding to a header after applying any run of other blocks returns the ledger to its state at that header's block |
| TxHashSetSpec.ValidateRootsIgnoresSpent | include/PMMR/TxHashSet.h:43-51 | spending inputs never changes the root check: its answer does not depend on the spent set or the applied-block records |
| TxHashSetSpec.RootsRestoredByRewindBlock | include/PMMR/TxHashSet.h:48-51 | after applying and rewinding a block, the roots check against a header iff the pre-block kernel, output and range-proof roots equal the header's |
| TxHashSetSpec.AppliedBlockInputsWereValid | include/PMMR/TxHashSet.h:38-46 | a block applies only if its inputs form a valid transaction beforehand |
| TxHashSetSpec.ValidBlockApplies | include/PMMR/TxHashSet.h:38-46 | a block whose distinct inputs form a valid transaction applies |
| TxHashSetSpec.Commit | include/PMMR/TxHashSet.h:66-69 | the live state is kept, and a discard right after the commit changes nothing |
| TxHashSetSpec.DiscardUndoesRun | include/PMMR/TxHashSet.h:71-74 | discarding after any sequence of applies and rewinds lands exactly where discarding straight away would |
| TxHashSetSpec.Step | include/PMMR/TxHashSet.h:43-64 | apply and the two rewinds keep the ledger well-formed and never touch the committed baseline |
| TxHashSetSpec.RunKeepsCommitted | include/PMMR/TxHashSet.h:43-74 | no sequence of applies and rewinds changes the committed baseline |
| TxHashSetSpec.DiscardRestoresCommit | include/PMMR/TxHashSet.h:66-74 | after a commit, whatever is applied or rewound, discarding returns to the committed state |
| Chains.HeaderByHash | BlockChain/BlockChainServerImpl.cpp:163-166 | a header iff the hash is known, always a stored one; with headers keyed by their hash, it carries the hash asked for |
| Chains.HeaderByHeight | BlockChain/BlockChainServerImpl.cpp:158-161 | a header iff the chain reaches the height and its hash there is known; always a stored header; with headers keyed by their hash, it carries the chain's hash at that height |
| Chains.Height | BlockChain/BlockChainServerImpl.cpp:72-75 | the tip height: the chain holds a block there and no header exists one above it |
| Chains.FindCommonIndex | BlockChain/Processors/TxHashSetProcessor.cpp:92 | the highest height at which both chains hold the same hash |
| Chains.FindCommonIndexIsForkPoint | BlockChain/Processors/TxHashSetProcessor.cpp:92 | chains agreeing up to a fork height and differing above it have that height as common index, whichever chain comes first |
| Chains.UpdateConfirmedChain | BlockChain/Processors/TxHashSetProcessor.cpp:80-106 | false with no change when the candidate hash at the header's height differs. Otherwise only the confirmed chain changes: it is unchanged up to the common index, equals the candidate from there to the header height, and has height max(common, header height), never above the candidate tip |
| Chains.UpdatedConfirmedFollowsCandidate | BlockChain/Processors/TxHashSetProcessor.cpp:92-103 | with ancestry fixed by hashes, after a successful update the confirmed chain equals the candidate chain at every height 0..header height |
| Processor.PositionCalls | BlockChain/Processors/TxHashSetProcessor.cpp:53-63 | the first saved header gets first index 0, and each later one gets the output MMR size of the previously saved header |
| Processor.PositionCallsVisitStoredHeaders | BlockChain/Processors/TxHashSetProcessor.cpp:53-63 | `SaveOutputPositions` receives exactly the stored candidate headers at heights 0..h, each once, in height order |
| Processor.Install | BlockChain/Processors/TxHashSetProcessor.cpp:45-75 | sums are stored under the header hash before any output position is saved and before installation; on update failure the installed set is closed again and the result is false |
| Processor.ProcessTxHashSet | BlockChain/Processors/TxHashSetProcessor.cpp:16-78 | unknown header: false, nothing touched. Load failure: false, the live set left closed. Invalid snapshot: false, the snapshot destroyed, no sums stored, nothing installed. Otherwise the header lies within the candidate chain, the sums of the validator are stored, and the result is true iff the header is the candidate block at its height, in which case the snapshot is installed and the confirmed chain moved |
| StateSyncer.Initial | P2P/Sync/StateSyncer.cpp:9-15 | a fresh syncer has requested nothing and holds no connection |
| StateSyncer.IsStateSyncDue | P2P/Sync/StateSyncer.cpp:36-92 | never due while processing a snapshot; always due after a failed one. Otherwise due iff a full horizon behind (computed without wrap-around) and either nothing requested yet, or the request lies above the block tip and has run past 10 minutes, or past 30 seconds with nothing downloaded |
| StateSyncer.IsStateSyncDueStaysDue | P2P/Sync/StateSyncer.cpp:75-91 | once due, a snapshot stays due as time passes |
| StateSyncer.RequestState | P2P/Sync/StateSyncer.cpp:94-114 | requests the candidate block `STATE_SYNC_THRESHOLD` below the header tip, with wrap-around below the threshold; bans the previous connection iff its id is non-zero; always records the new id; requested height and time change only when that id is non-zero; the result is id > 0 |
| StateSyncer.RequestStateSettles | P2P/Sync/StateSyncer.cpp:94-114 | right after a successful request, a snapshot is not due again at the same instant unless the status reports a failed download |
| StateSyncer.SyncFailedBelowThresholdLacksHeader | P2P/Sync/StateSyncer.cpp:47-50 | with a failed download reported below 2880 headers and a candidate chain ending at the header tip, a snapshot is due but no candidate header exists at the wrapped height `RequestState` reads |
| StateSyncer.RequestStateChecked | P2P/Sync/StateSyncer.cpp:94-114 | no request exactly when the candidate chain has no header at the requested height; otherwise the request `RequestState` makes |
| StateSyncer.RequestStateCheckedNeverWraps | P2P/Sync/StateSyncer.cpp:96-98 | against a candidate chain ending at the header tip, every request sent is exactly 2880 below the tip and names the candidate block there |
| StateSyncer.SyncState | P2P/Sync/StateSyncer.cpp:17-33 | requests state exactly when due and the candidate header at the requested height exists; returns true whenever due, whatever the request returned; otherwise returns whether the block tip is below the requested height |
| StateSyncer.SyncStateSettles | P2P/Sync/StateSyncer.cpp:17-33 | a successful request is not repeated by a second sync at the same instant, and the syncer is left as it is, unless the status reports a failed download |
| Server.AddCompactBlock | BlockChain/BlockChainServerImpl.cpp:87-110 | ALREADY_EXISTS when the confirmed header at the block's height has its hash; TRANSACTIONS_MISSING when hydration fails or the hydrated block is INVALID; otherwise the processing status unchanged; never INVALID |
| Server.AddCompactBlockSkipsHydration | BlockChain/BlockChainServerImpl.cpp:89-95 | for a block already confirmed the answer is independent of hydrator and block processor |
| Server.ProcessTransactionHashSet | BlockChain/BlockChainServerImpl.cpp:112-117 | SUCCESS iff the processor succeeds, INVALID otherwise; on SUCCESS the snapshot is live and the confirmed chain reaches the header, following the candidate chain up to it |
| Server.GetTipBlockHeader | BlockChain/BlockChainServerImpl.cpp:173-176 | the stored header of the named chain's block at that chain's own height |
| Server.AddTransaction | BlockChain/BlockChainServerImpl.cpp:119-131 | INVALID without a confirmed tip header; otherwise SUCCESS iff the pool accepts the transaction against that header |
| Server.AddTransactionReadsOnlyConfirmedTip | BlockChain/BlockChainServerImpl.cpp:119-131 | two chain states with the same confirmed tip header get the same answer |
| Server.GetBlockByHeight | BlockChain/BlockChainServerImpl.cpp:194-203 | resolves through the confirmed chain's header at that height to the block stored under its hash |
| Server.GetBlockByHeightMatchesConfirmedHeader | BlockChain/BlockChainServerImpl.cpp:194-203 | with blocks stored under their header's hash, the block found carries the confirmed chain's header at that height |
| Server.GetBlockHeadersByHash | BlockChain/BlockChainServerImpl.cpp:143-156 | the known headers in request order with unknown hashes skipped; never longer than the request; every result is a stored header |
| Server.ProcessNextOrphanBlock | BlockChain/BlockChainServerImpl.cpp:210-225 | false when there is no candidate header at confirmed height + 1 or no orphan with its height and hash; otherwise true iff processing the orphan returns SUCCESS; true only while the candidate chain is longer than the confirmed chain |

## Left out

- Concurrency: the three hash checks the validator runs in parallel are a plain conjunction here, evaluated in order, and the chain-state locks are dropped; every operation is one atomic step.
- Logging, which has no semantic content.
- `TxHashSetManager::LoadFromZip` and `DestroyTxHashSet`: zip extraction and file removal. Loading is the parameter `load`, and destroying is the `DestroyLoaded` effect.
- The bodies of `MMRUtil`, `MMRHashUtil`, `KernelSumValidator`, `Crypto::VerifyRangeProofs` and `KernelSignatureValidator` are not part of this model. They are uninterpreted; only the batch-verifier assumption above is made about them.
- `MMRUtil::GetNumLeaves` in the signature check is computed but never used, so it is omitted.
- `SaveOutputPositions`, `AddBlockSums`, the block DB and the block store internals: persistence. The model records the calls as effects, and the stores as maps.
- `ITxHashSet::ValidateTxHashSet` is the validator model itself. `Snapshot` and `Compact` carry no documented contract in the interface, so they are not modelled.
- TxHashSetSpec.Rewind: rewinding to a header is modelled by popping the stack of applied blocks until the header's block is on top. Headers of blocks that were never applied to this ledger yield `None`. The source's MMR-size truncation for arbitrary headers is not modelled.
- TxHashSetSpec.ValidateRoots: the roots are uninterpreted functions of the leaf sequences, so pruning never changes a root.
- Chains.UpdateConfirmedChain: `Chain::Rewind` is assumed to succeed, which it does for a height at or below the tip. The false return after a failed rewind is therefore not modelled.
- `BlockChainServer::Initialize`, `Shutdown` and the exported start and shutdown functions: allocation and lifecycle.
- The façade's pass-through queries (`GetTotalDifficulty`, `AddBlockHeader(s)`, `GetBlockByCommitment`, `GetBlocksNeeded`, `UpdateSyncStatus`): each forwards to code that is not part of this model.
- Block hydration, block processing and the transaction pool are function parameters.
- Peer messaging, banning and the wall clock: sending is a function parameter, a ban is returned as a value, and time is an integer `now`.
- Consensus.Overage is exact only while REWARD·(height+1) ≤ 2^63, that is below about 153 million blocks. Above that, only its congruence modulo 2^64 is stated.
- `ProcessNextOrphanBlock` computes confirmed height + 1 in unbounded integers, because the `uint64_t` addition cannot wrap for any height a chain reaches.
- `Validator.ValidateKernelSums`, `Pmmr.ValidateRoots` and `TxHashSetSpec.ValidateRoots` only apply uninterpreted functions, so they carry no contract of their own. What they read is stated by `Validator.KernelSumsReadOnlyLeavesBelowHeader`, `Pmmr.ValidateRootsReadsOnlyHashes` and `TxHashSetSpec.ValidateRootsIgnoresSpent`.

## Findings

| source | as written | input that shows it | evidently intended | confidence | as-written member | corrected member |
|---|---|---|---|---|---|---|
| P2P/Sync/StateSyncer.cpp:47-50 | after a failed download, `IsStateSyncDue` returns true without the horizon guard. `RequestState` then computes `headerHeight - 2880` in `uint64_t` and dereferences the candidate header there unchecked | status `TXHASHSET_SYNC_FAILED` with header height 100, and a candidate chain ending at height 100: the requested height wraps to 2^64 - 2780, which has no header, so line 98 dereferences null | ask for a snapshot only when the candidate chain has a header at the requested height | not executed; medium, since it needs a failed download to be reported while fewer than 2880 headers are known | StateSyncer.SyncFailedBelowThresholdLacksHeader | StateSyncer.RequestStateChecked |

`StateSyncer.RequestState` keeps the code as written, with the header's existence as its precondition. `StateSyncer.SyncState` goes through `StateSyncer.RequestStateChecked`: when the header is missing it sends nothing, changes nothing and still reports that block sync must wait. `StateSyncer.RequestStateCheckedNeverWraps` proves that against a candidate chain ending at the header tip, the checked request never asks for a wrapped height.
