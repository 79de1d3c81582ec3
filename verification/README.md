# A model of the BitcoinPR node

BitcoinPR is a Bitcoin full node. This project models its consensus and mempool core, its block filters and its
script hash index, and proves what they promise. Hashes, signatures and script execution are arbitrary functions and
predicates throughout; everything else follows the code.

| module | what it models |
|---|---|
| `Merkle` | the level-by-level root, the streaming root that reports mutated trees, and proof branches |
| `WideInt`, `Difficulty` | 256-bit arithmetic on bytes and limbs, chain work, retargeting |
| `Headers`, `Sorting` | the tree of headers, ancestors, median-time-past |
| `Bip110` | the BIP 110 activation state machine with its memo table |
| `Transactions`, `TimeLocks` | context-free checks, nLockTime and relative locks |
| `Ledger`, `BlockValidation`, `Chain`, `Subsidy` | block validation, the UTXO set, undo records, the active chain, the money supply |
| `UtxoStore`, `Recovery`, `TornDisconnect` | the store behind the UTXO set with its write buffer, cache and chunked flush, and recovery after a crash |
| `MempoolGraph`, `MempoolWalks`, `MempoolAdmission`, `Mempool` | the pool, its index, replacement, trimming, limits, block removal |
| `BlockTemplate` | the selection of a block template |
| `PoolVetting`, `TemplateValidity` | what admission establishes about an entry, histories of the pool, and templates against the block rules |
| `BitCodec`, `BlockFilter` | bit streams, Golomb-Rice codes, the filter encoder and the matcher |
| `Scripthash`, `ScripthashIndex`, `ScripthashLedger` | balances and histories per script hash |
| `Powers`, `Sums`, `Maps`, `Reachability`, `Options`, `Bytes` | shared definitions |

The main results:

- **Every run of the chain.** One pass with 64-bit sums accepts exactly the blocks that are acceptable one transaction at a
  time, unless the BIP 30 lookup is skipped and a block spends a coin that it makes over an older one. The pass then finds
  the older coin: its rule for any block is stated exactly (`BlockValidation.ValidateTransactions`), and
  `Chain.PassFindsOlder` is a block on which the two differ. Apart from such blocks `Chain.ChainState` keeps, through every
  connect, that the UTXO set is the replay of the active chain one transaction at a time and that its value is at most
  what the subsidies minted, which is below the money range; a disconnect keeps it if and only if the block made no coin
  over an older one.
- **Taking blocks back.** `disconnect_block` restores the earlier set if and only if the block made no coin over an older
  one (`Chain.ReversedRestoresWhen`), which the BIP 30 lookup rules out (`Chain.CheckedOverwritesNothing`); at the heights
  without the lookup it can lose one (`Chain.DisconnectLosesOverwritten`). `rollback_block`, which removes the block's
  outputs before it restores what the block spent, needs besides that the block spends none of its own outputs
  (`Chain.RollbackRestoresWhen`, `Chain.RollbackLeavesOwnSpend`).
- **The store and its crashes.** Whatever batches are buffered, reads give the coins the batches describe
  (`UtxoStore.BufferingKeeps`). A flush keeps reads right if and only if every cached coin that the buffer replaces is
  promoted to the cache (`UtxoStore.FlushKeepsWhen`), which holds for blocks that replace no coin;
  `UtxoStore.ReplacedIsStale` is a batch for which it does not. The running byte count is never too low, and exact if and
  only if no buffered undo record was deleted since the last flush (`UtxoStore.Store.BytesCover`). If the node stops in the
  middle of a flush, replaying the blocks since the height on disk leads to the same set (`UtxoStore.CrashRecovers`). Each
  replayed block is accepted as it was before, except that a block under the BIP 30 rule is rejected if and only if one of
  its own outputs had been written (`Recovery.ReplayAccepts`); `Recovery.ReplayRejected` is such a block. The flush
  that ends a disconnect leaves only disks behind that are right for their height if and only if there is nothing to
  restore or everything fits the last write (`UtxoStore.CrashInDisconnect`); the undo record is gone by then
  (`UtxoStore.Store.TakeBack`), and `TornDisconnect.SweepTears` is a block for which it does not fit. A rollback written
  behind a buffer that was not flushed takes effect if and only if the buffer holds nothing about the coins concerned
  (`UtxoStore.RollbackBehindBuffer`).
- **Every run of the pool.** `Mempool.Mempool` keeps, through admission, replacement, trimming, expiry and blocks, that the
  index is the inverse of the inputs, that there are no double spends and no orphans, that the usage estimate is the sum
  of the entry costs and within budget, and that no entry has more than 25 ancestors or descendants. A transaction is
  refused exactly for a stated reason, and a refused one changes nothing.
- **Templates.** A template replays on the coins, repeats nothing, respects every limit and is maximal. The code means its
  templates never to hold a transaction its own validation would reject (bitcoinpr-core/src/mempool.rs:66-69). Whatever
  was admitted, expired and connected before, a block on a template is accepted if and only if the coinbase coins it
  spends are mature, every transaction and its scripts pass the block's own rules on the coins the pool looks up, relative
  locks that admission has not enforced all along are open, and signature operations and the coinbase's claim are within
  the limits (`TemplateValidity.EveryTemplateWhen`); inputs, values, fees, finality and enforced locks never fail. While
  the rules do not change, maturity is all there is to check of a transaction (`TemplateValidity.SteadyFitWhen`).
  Admission does not look at maturity, and nothing looks at an entry again when the rules change:
  `TemplateValidity.ImmatureSpoils` and `TemplateValidity.StricterSpoils` are pools whose templates are rejected, the
  second after BIP 110 activates.
- **BIP 110.** The memoised walk gives the period-by-period state of the block's own branch, on every fork. Its early stop
  and its fast path agree with the recursion without shortcuts if and only if the branch crosses the start time once
  (`Bip110.AgreesExactlyWhen`). The rule on block times, kept by that branch alone, is enough
  (`Bip110.TimeRuleCrossesOnce`); headers are filed before the rule is checked, and `Bip110.FallsBack` is a branch on which
  both shortcuts are wrong. Under that condition the answers of the checker advance period by period, enforce the
  rules exactly in the periods that start within the active duration, also where its end saturates, and lock in after a
  mandatory window (`Bip110.SeenAdvances`, `Bip110.EnforcementSeen`, `Bip110.InForceWhen`, `Bip110.WindowLocksInSeen`). `signaling_version` passes the node's own check if and only if the deployment's bit is at
  most 29 or the rule does not apply (`Bip110.OwnVersionPasses`).
- **Relative locks.** The sums are 32 bits wide and wrap, as in release builds. They shut no lock, and open the locks of a
  transaction exactly when BIP 68 does, at every height and time, if and only if none of its sums wraps
  (`TimeLocks.WrapsExactlyWhen`, `TimeLocks.WrapOpensEarly`).
- **Merkle trees.** The streaming root is the plain root and its flag is set exactly for trees with two equal siblings;
  among unflagged lists of one depth the root determines the list.
- **Arithmetic.** Long division is exact, work is the floor of 2^256 over target plus one, and retargeting never loses a carry.
- **Filters.** The matcher on an encoded filter answers true exactly when a query lands on the value of an element.
- **Index.** Balances are what was received minus what was spent, histories are exact, and the clamp at zero never acts.
  For an index that was fed exactly the blocks of a sound chain the balance of a hash is the value of its coins in the
  UTXO set and of its unspendable outputs (`ScripthashLedger.ChainBalance`). Nothing takes a block out of the index: after
  a second block at one height a balance is right if and only if the dropped block's net for its hash is zero, or negative
  where nothing is held (`ScripthashIndex.ScripthashIndex.IndexAgain`, `ScripthashIndex.ReorgMiscounts`).

Where the code and its documentation differ, the model follows the code: the filter maps elements to the range
N * 2^19, not to N * 784931 as BIP 158 has it (bitcoinpr-core/src/block_filter.rs:251-256).

## Model

| member | source | states |
|---|---|---|
| `Merkle.ComputeRoot` | bitcoinpr-core/src/merkle.rs:27-44 | the loop over levels computes the recursive root; an empty list gives the zero node |
| `Merkle.RootDetectingMutation` | bitcoinpr-core/src/merkle.rs:52-96 | for up to 2^31 leaves the streaming construction gives the same root, nothing for an empty list, and sets the flag exactly when some level has two equal real siblings |
| `Merkle.Absorb` | bitcoinpr-core/src/merkle.rs:57-75 | reading one leaf keeps the counter's set bits holding the roots of the complete subtrees, and the flag says whether an equal pair lies inside them |
| `Merkle.Collapse` | bitcoinpr-core/src/merkle.rs:76-96 | padding and joining what the counter holds gives the root, and by then every pair of the tree has been compared |
| `Merkle.RootDeterminesLeaves` | bitcoinpr-core/src/merkle.rs:46-96 | with an injective pair hash, unflagged lists of one depth with one root are the same list |
| `Merkle.RepetitionIsFlagged` | bitcoinpr-core/src/merkle.rs:46-96 | repeating the odd last block of any level leaves depth and root alone and is always flagged |
| `Merkle.Branch` | bitcoinpr-core/src/merkle.rs:102-133 | the root and the sibling path; folding the leaf along the path gives the root |
| `Merkle.BranchBinds` | bitcoinpr-core/src/merkle.rs:98-133 | folding different leaves, or along different paths of one length, gives different roots |
| `Merkle.VerifyMerkleRoot` | bitcoinpr-core/src/validation.rs:220-237 | a block passes exactly when it has transactions, its tree is unflagged and the root is the header's |
| `Merkle.VerifiedIsUnique` | bitcoinpr-core/src/validation.rs:216-237 | one header root admits at most one list of transactions per tree depth |
| `WideInt.LessIsNumeric` | bitcoinpr-core/src/validation.rs:119-121 | byte order of words of one width is numeric order |
| `WideInt.AddOne` | bitcoinpr-core/src/validation.rs:56-68 | the successor, with the carry out of the top byte reported |
| `WideInt.AddChainWork` | bitcoinpr-core/src/validation.rs:124-133 | the sum modulo the word size |
| `WideInt.Sub` | bitcoinpr-core/src/validation.rs:71-85 | the difference, wrapping around below zero |
| `WideInt.Div` | bitcoinpr-core/src/validation.rs:89-116 | exact floor division for every nonzero divisor; all ones for a zero divisor |
| `WideInt.RoomToShift` | bitcoinpr-core/src/validation.rs:96-107 | the bit shifted out of the remainder is always zero |
| `WideInt.BitAtIsDigit` | bitcoinpr-core/src/validation.rs:105-107 | the byte-and-shift access reads the binary digit of the number |
| `Difficulty.CalculateWork` | bitcoinpr-core/src/validation.rs:21-46 | floor(2^256 / (target + 1)) for every nonzero target, all ones for zero; never nothing |
| `Difficulty.WorkAntitone` | bitcoinpr-core/src/validation.rs:9-46 | work never increases as the target grows |
| `Difficulty.MultiplyTargetByRatio` | bitcoinpr-core/src/validation.rs:488-523 | the product modulo the word size, then floor division |
| `Difficulty.MulLimbs` | bitcoinpr-core/src/validation.rs:500-506 | limb-wise multiplication with carries is multiplication modulo the word size |
| `Difficulty.DivLimbs` | bitcoinpr-core/src/validation.rs:508-514 | limb-wise division from the top is floor division |
| `Difficulty.NextTarget` | bitcoinpr-core/src/validation.rs:329-369 | the old target unless retargeting is on; otherwise the rescaled target capped by the limit, and on mainnet, testnet and signet exactly min(limit, floor(old * clamped timespan / two weeks)), also for timestamps that run backwards |
| `Difficulty.RetargetIsExact` | bitcoinpr-core/src/consensus.rs:370-394 | from any target up to the mainnet, testnet or signet limit the largest step up stays below 2^256 |
| `Headers.GetAncestor` | bitcoinpr-storage/src/header_index.rs:307-328 | the walk over parent links gives the recursive ancestor, or nothing if a header is missing |
| `Headers.AncestorExists` | bitcoinpr-storage/src/header_index.rs:299-328 | in an index closed under parents the walk arrives, at the height asked for |
| `Headers.AncestorTransitive` | bitcoinpr-storage/src/header_index.rs:299-328 | walking in two legs is walking at once |
| `Headers.GetMedianTimePast` | bitcoinpr-core/src/validation.rs:720-740 | the median of the times of up to eleven blocks, or nothing |
| `Headers.MedianAdvances` | bitcoinpr-core/src/validation.rs:720-740 | replacing the oldest time of a full window, or growing a short one, by a time above the median does not lower the median |
| `Headers.MtpStep` | bitcoinpr-core/src/chain.rs:202-216 | from a parent to a child that keeps the rule on block times median-time-past never decreases |
| `Headers.MtpMonotone` | bitcoinpr-core/src/chain.rs:202-216 | along a branch that keeps the rule median-time-past never decreases, also where windows are shorter than eleven, whatever other branches do |
| `Headers.MtpStable` | bitcoinpr-core/src/validation.rs:720-740 | headers that arrive later do not change the median-time-past of a filed block |
| `Sorting.SortSorts` | bitcoinpr-core/src/validation.rs:737-739 | the sorted list ascends and holds the same elements |
| `Bip110.OwnVersionPasses` | bitcoinpr-core/src/bip110.rs:132-195 | a block stamped with its own signaling version breaks the mandatory rule exactly when the rule applies and the bit is 30 or 31 |
| `Bip110.CountSignals` | bitcoinpr-core/src/bip110.rs:425-442 | the walk counts the signalling headers of the period ending in the boundary |
| `Bip110.Checker.WalkBack` | bitcoinpr-core/src/bip110.rs:321-361 | the stack of boundaries leads from a cached or base state to the boundary asked for |
| `Bip110.Checker.StateAtBoundary` | bitcoinpr-core/src/bip110.rs:321-376 | the memoised walk gives the recursive state, keeps every cached entry, and leaves the memo table correct |
| `Bip110.Checker.ActivationFor` | bitcoinpr-core/src/bip110.rs:281-315 | what a block sees, and on a branch that crosses the start time once the state of the recursion without shortcuts |
| `Bip110.CacheSurvives` | bitcoinpr-core/src/bip110.rs:255-270 | the memo table stays correct while headers arrive on any branch |
| `Bip110.CutExactlyWhen` | bitcoinpr-core/src/bip110.rs:340-345 | the early stop is right on all boundaries of a branch exactly when they cross the start time once |
| `Bip110.AgreesExactlyWhen` | bitcoinpr-core/src/bip110.rs:281-345 | the answers for all blocks of a branch agree with the recursion without shortcuts exactly when the branch crosses the start time once, at its boundaries and for the fast path |
| `Bip110.TimeRuleCrossesOnce` | bitcoinpr-core/src/chain.rs:202-216 | a branch whose blocks are later than the median of their ancestors crosses the start time once |
| `Bip110.FallsBack` | bitcoinpr-core/src/bip110.rs:293-345 | three filed headers on which the early stop and the fast path are both wrong |
| `Bip110.ShortcutsAgree` | bitcoinpr-core/src/bip110.rs:293-345 | on a branch that keeps the rule on block times the early stop and the fast path change nothing, whatever other branches do |
| `Bip110.BlockSeesPeriod` | bitcoinpr-core/src/bip110.rs:281-315 | every block of a branch sees the state of its period |
| `Bip110.PeriodStep` | bitcoinpr-core/src/bip110.rs:321-421 | along a branch consecutive periods are one transition apart |
| `Bip110.PeriodsAdvance` | bitcoinpr-core/src/bip110.rs:380-421 | along a branch the state moves at most one step per period, never back, and keeps its activation height once it has one |
| `Bip110.LocksInLater` | bitcoinpr-core/src/bip110.rs:380-421 | an activation height is the start of a period at least two after any period that lacks it |
| `Bip110.EnforcementWindow` | bitcoinpr-core/src/bip110.rs:281-421 | once a branch has locked in with activation height a, a is a multiple of the period and a block is under enforcement exactly in the activation period and in later periods that start before a + active duration, cut at the largest 32-bit number |
| `Bip110.InForceWhen` | bitcoinpr-core/src/bip110.rs:411-419 | for whole periods that fit 32 bits those are the heights in [a, a + active duration); past 32 bits enforcement goes on to the last period that starts below the end of the range |
| `Bip110.WindowLocksIn` | bitcoinpr-core/src/bip110.rs:132-143 | when the window is the whole period before the floor, a STARTED branch whose blocks all pass counts every block as a signal and locks in by the threshold, whatever the floor |
| `Bip110.SeenIsPeriod` | bitcoinpr-core/src/bip110.rs:281-315 | on a branch that crosses the start time once the checker answers every block with the state of its period |
| `Bip110.SeenAdvances` | bitcoinpr-core/src/bip110.rs:281-421 | its answers move at most one step per period, never back, and keep an activation height |
| `Bip110.EnforcementSeen` | bitcoinpr-core/src/bip110.rs:281-421 | once it answers with activation height a, it answers every block of the branch, before or after, in the same way |
| `Bip110.WindowLocksInSeen` | bitcoinpr-core/src/bip110.rs:132-143 | if it answers STARTED in the window and every block passes with its answer, it answers LOCKED IN after the window |
| `Transactions.CheckTransaction` | bitcoinpr-core/src/validation.rs:246-313 | rejects exactly empty sides, values out of range, duplicate inputs and null prevouts |
| `Transactions.HasDuplicates` | bitcoinpr-core/src/validation.rs:288-305 | comparing two inputs, sorting a few and filling a set with many decide the same thing: that two inputs spend one outpoint |
| `TimeLocks.ValidateSequenceLocks` | bitcoinpr-core/src/validation.rs:772-815 | accepts exactly when every relative lock is open, in 32-bit sums |
| `TimeLocks.SequenceLockPoints` | bitcoinpr-core/src/validation.rs:826-854 | the height and time from which, and only from which, every relative lock is open, in 32-bit sums |
| `TimeLocks.WrapsExactlyWhen` | bitcoinpr-core/src/validation.rs:795-811 | the 32-bit sums shut no lock, and decide every height and time as BIP 68 does exactly when none of them wraps |
| `TimeLocks.WrapOpensEarly` | bitcoinpr-core/src/validation.rs:795-811 | a lock that a wrapped sum opens early |
| `Ledger.OutputsAre` | bitcoinpr-core/src/chain.rs:803-816 | the coins a transaction creates are its outputs except OP_RETURN outputs |
| `Ledger.TotalSpent` | bitcoinpr-core/src/chain.rs:654-728 | distinct inputs are worth at most all coins, and spending them removes exactly their value |
| `Ledger.ValueStep` | bitcoinpr-core/src/chain.rs:654-817 | a transaction destroys the value of its inputs and creates at most the value of its outputs |
| `Ledger.ConservedAll` | bitcoinpr-core/src/chain.rs:572-817 | throughout a block the coins plus the fees stay within the old coins plus the coinbase |
| `Ledger.SupplyGrowsBySubsidy` | bitcoinpr-core/src/chain.rs:826-869 | an accepted block adds at most its subsidy to the value of all coins |
| `Ledger.TracksAll` | bitcoinpr-core/src/chain.rs:561-817 | the coins during a block are the old ones plus the block's own, minus what the block spent |
| `Ledger.RepeatRejected` | bitcoinpr-core/src/chain.rs:591-694 | where transaction ids determine transactions, a transaction repeated within a block is rejected |
| `BlockValidation.FindCoin` | bitcoinpr-core/src/chain.rs:660-694 | looking past what the block spent, in the set first and then among the block's own outputs, finds exactly the mature coins of the two, the older one where both have one |
| `BlockValidation.SpendInputs` | bitcoinpr-core/src/chain.rs:654-728 | passes exactly when every input is such a coin, and then records every one, with 64-bit sums that are exact |
| `BlockValidation.AddOutputs` | bitcoinpr-core/src/chain.rs:803-816 | the queued inserts are the created coins |
| `BlockValidation.CheckRelativeLocks` | bitcoinpr-core/src/chain.rs:730-771 | passes exactly when the relative locks are open; a missing time reference rejects |
| `BlockValidation.CheckDuplicates` | bitcoinpr-core/src/chain.rs:591-604 | BIP 30: passes exactly when no output is already a coin |
| `BlockValidation.SpendTransaction` | bitcoinpr-core/src/chain.rs:636-817 | accepts exactly the transactions acceptable on the coins found, and adds exactly their effects |
| `BlockValidation.PassConserves` | bitcoinpr-core/src/chain.rs:541-817 | through any block, what the pass finds and the fees together stay within the old coins plus the coinbase, also where older coins hide new ones |
| `BlockValidation.PassFits` | bitcoinpr-core/src/chain.rs:541-817 | so no 64-bit sum of the pass wraps |
| `BlockValidation.PassIsReplay` | bitcoinpr-core/src/chain.rs:525-903 | where transaction ids identify transactions and the block spends no coin it remakes, the rule of the pass, its totals and its batch are those of one transaction at a time |
| `BlockValidation.CheckLimits` | bitcoinpr-core/src/chain.rs:819-869 | the block-wide limits, and no 64-bit wrap in subsidy plus fees |
| `BlockValidation.ValidateTransactions` | bitcoinpr-core/src/chain.rs:525-903 | one pass accepts exactly what its rule accepts, for any block, and exactly the blocks acceptable one transaction at a time where the two agree, and builds their batch |
| `BlockValidation.BatchIsReplay` | bitcoinpr-storage/src/utxo_set.rs:541-622 | inserting everything created and then removing everything spent is spending one transaction after the other |
| `Subsidy.IssuedByPeriod` | bitcoinpr-core/src/consensus.rs:347-354 | what has been issued is whole periods plus the blocks of the current one |
| `Subsidy.PerPeriodBound` | bitcoinpr-core/src/consensus.rs:347-354 | one block per period issues less than twice the first subsidy |
| `Subsidy.SupplyBelowMaxMoney` | bitcoinpr-core/src/consensus.rs:347-354 | for halving intervals up to 210,000 less than the money range is ever issued, however long the chain |
| `Subsidy.MintedBelowMaxMoney` | bitcoinpr-core/src/consensus.rs:347-354 | the same for the heights above genesis |
| `Chain.UndoRemembers` | bitcoinpr-core/src/chain.rs:720-727 | the undo records hold every spent outpoint with the coin it held, also for coins of the same block |
| `Chain.ReversedRestoresWhen` | bitcoinpr-core/src/chain.rs:451-475 | restoring what was spent and then removing what was created gives the exact set from before the block exactly when the block made no coin over an older one |
| `Chain.CheckedOverwritesNothing` | bitcoinpr-core/src/chain.rs:591-604 | a block that passes with the BIP 30 lookup makes no coin over an older one |
| `Chain.DisconnectLosesOverwritten` | bitcoinpr-core/src/chain.rs:451-475 | a block accepted without the lookup that disconnecting does not undo |
| `Chain.PassFindsOlder` | bitcoinpr-core/src/chain.rs:591-694 | a block that spends a coin it remakes, which the pass accepts with the older coin and the rule one transaction at a time does not |
| `Chain.RollbackRestoresWhen` | bitcoinpr-storage/src/utxo_set.rs:1047-1084 | the other order restores the set exactly when the block spends none of its own outputs and made no coin over an older one |
| `Chain.RollbackLeavesOwnSpend` | bitcoinpr-storage/src/utxo_set.rs:1047-1084 | an accepted block for which it does not |
| `Chain.ValueMinted` | bitcoinpr-core/src/chain.rs:826-869 | the coins of a connected chain are worth at most what its heights minted, which is below the money range |
| `Chain.Extended` | bitcoinpr-core/src/chain.rs:333-356 | an accepted block keeps the chain sound and its batch takes the replay one block further |
| `Chain.Shortened` | bitcoinpr-core/src/chain.rs:421-489 | the undo record of the tip leads back to the replay of the shorter chain exactly when the tip made no coin over an older one |
| `Chain.ChainState.constructor` | bitcoinpr-core/src/chain.rs:54-82 | a fresh chain on genesis: no coins, no blocks |
| `Chain.ChainState.ConnectBlock` | bitcoinpr-core/src/chain.rs:117-417 | accepts exactly the blocks the pass accepts; the set becomes the batch applied, and where the rules agree the sequential replay; the undo record is kept, a rejected block changes nothing |
| `Chain.ChainState.CheckBlock` | bitcoinpr-core/src/chain.rs:333-348 | the batch, and an undo record that describes the block |
| `Chain.ChainState.DisconnectBlock` | bitcoinpr-core/src/chain.rs:421-520 | succeeds exactly for the tip with its undo record, and then the state is the exact earlier one exactly when the block made no coin over an older one; otherwise nothing changes |
| `Chain.ChainState.RollbackBlock` | bitcoinpr-storage/src/utxo_set.rs:1047-1084 | needs only the undo record; the state is right exactly when the block spent none of its own outputs and made no coin over an older one |
| `UtxoStore.BufferInsert` | bitcoinpr-storage/src/utxo_set.rs:552-565 | one coin buffered, with exact counters: nothing saturates or underflows |
| `UtxoStore.BufferRemove` | bitcoinpr-storage/src/utxo_set.rs:567-584 | one deletion marked, with exact counters |
| `UtxoStore.ViewBatch` | bitcoinpr-storage/src/utxo_set.rs:547-584 | buffering a batch is applying it to what the store stands for |
| `UtxoStore.ReadsRightWhen` | bitcoinpr-storage/src/utxo_set.rs:407-439 | reads through buffer, cache and disk are right exactly when what is cached and not buffered is as on disk |
| `UtxoStore.BufferingKeeps` | bitcoinpr-storage/src/utxo_set.rs:541-622 | buffering any batch keeps reads right, as the removed coins leave the cache |
| `UtxoStore.FlushKeepsWhen` | bitcoinpr-storage/src/utxo_set.rs:702-818 | a flush keeps reads right exactly when every cached coin that is buffered and not promoted is the buffered one |
| `UtxoStore.ReplacedIsStale` | bitcoinpr-storage/src/utxo_set.rs:590-597 | a batch that replaces a cached coin: reads are right while it is buffered and see the older coin after a flush |
| `UtxoStore.WriteInserts` | bitcoinpr-storage/src/utxo_set.rs:721-753 | something is written before the last write exactly when the buffered coins take up a chunk; whatever is durable then is the old disk with some of them, at the old height |
| `UtxoStore.WriteRecords` | bitcoinpr-storage/src/utxo_set.rs:721-765 | the same while undo records follow in the same chunks, the earlier record of a block before the later one |
| `UtxoStore.WriteAll` | bitcoinpr-storage/src/utxo_set.rs:702-778 | after the last write the disk holds the set, the records and the height; before it there are parts, at the old height, exactly when coins and records do not fit it |
| `UtxoStore.FirstIsLast` | bitcoinpr-storage/src/utxo_set.rs:889-949 | the waiting record that is read is the one that is written, unless a block has two that differ |
| `UtxoStore.CrashRecovers` | bitcoinpr-storage/src/utxo_set.rs:721-778 | from any state a flush can leave behind, replaying the blocks since the height on disk leads to the set from before the crash |
| `UtxoStore.CrashInDisconnect` | bitcoinpr-core/src/chain.rs:469-516 | every disk left behind by the flush that takes back the block the disk belongs to is right for its height exactly when there is nothing to restore or everything fits the last write; taking the block back from its record once more has its full effect |
| `TornDisconnect.SweepAccepted` | bitcoinpr-core/src/chain.rs:525-903 | a block that sweeps any number of equal coins is accepted |
| `TornDisconnect.SweepTears` | bitcoinpr-core/src/chain.rs:469-516 | when those coins take up a chunk, every flush that ends its disconnection leaves a wrong disk behind |
| `UtxoStore.RollbackBehindBuffer` | bitcoinpr-storage/src/utxo_set.rs:1057-1078 | a rollback written to disk takes effect exactly when the buffer holds nothing about the coins concerned |
| `UtxoStore.RollbackIgnored` | bitcoinpr-storage/src/utxo_set.rs:1057-1078 | a buffered coin that such a rollback leaves in place |
| `UtxoStore.BlockReplacesNothing` | bitcoinpr-core/src/chain.rs:350-356 | the batch of a block that makes no coin over an older one never replaces a coin by a different one |
| `UtxoStore.UndoReplacesNothing` | bitcoinpr-core/src/chain.rs:451-475 | neither does the batch that takes it back |
| `UtxoStore.Store.constructor` | bitcoinpr-storage/src/utxo_set.rs:388-398 | a store that stands for what is on disk |
| `UtxoStore.Store.Get` | bitcoinpr-storage/src/utxo_set.rs:407-439 | the coin of the set, if there is one |
| `UtxoStore.Store.Contains` | bitcoinpr-storage/src/utxo_set.rs:441-465 | membership in the set |
| `UtxoStore.Store.Prefetch` | bitcoinpr-storage/src/utxo_set.rs:467-513 | reading ahead changes nothing but the cache, which stays right |
| `UtxoStore.Store.StoreUndo` | bitcoinpr-storage/src/utxo_set.rs:889-920 | a record waits for the next flush, counted in the buffer's bytes |
| `UtxoStore.Store.BytesCover` | bitcoinpr-storage/src/utxo_set.rs:889-920 | the byte count is at least what is buffered, and exact exactly when no waiting record was deleted since the last flush |
| `UtxoStore.Store.LoadUndo` | bitcoinpr-storage/src/utxo_set.rs:929-949 | the first waiting record of a block, or the one on disk |
| `UtxoStore.Store.DeleteUndo` | bitcoinpr-storage/src/utxo_set.rs:1147-1164 | a block's records are gone, waiting and on disk, no other block's is, and no bytes are given back |
| `UtxoStore.Store.FlushToDisk` | bitcoinpr-storage/src/utxo_set.rs:699-818 | the set stays what it is and is then all on disk with its records and height; reads stay right exactly when the cache is up to date; before the last write there are parts on the disk exactly when not everything fits it |
| `UtxoStore.Store.ApplyBatchBuffered` | bitcoinpr-storage/src/utxo_set.rs:533-622 | the set becomes the batch applied, whatever the batch; reads are right without a flush, after one exactly when the cache is up to date, and always when no batch replaces a coin |
| `UtxoStore.Store.BufferBatch` | bitcoinpr-storage/src/utxo_set.rs:541-592 | any batch is buffered with reads kept right, and exact counters for it |
| `UtxoStore.Store.TakeBack` | bitcoinpr-core/src/chain.rs:469-516 | the store's part of disconnecting: the set is the batch applied and on disk with its height, no state the last flush passes through holds the block's record, and those states are the old disk with parts of the batch unless it was flushed before |
| `Recovery.AfterWith` | bitcoinpr-storage/src/utxo_set.rs:727-733 | coins that a block neither spends nor makes differently stay extra through the block |
| `Recovery.AcceptedAhead` | bitcoinpr-core/src/chain.rs:587-604 | with such extra coins a block is accepted exactly when it is without them and the BIP 30 rule is off or none of its outputs is among them |
| `Recovery.GoneForGood` | bitcoinpr-storage/src/utxo_set.rs:727-733 | where no coin is made twice, a coin that is gone does not come back |
| `Recovery.StillThere` | bitcoinpr-storage/src/utxo_set.rs:727-733 | a coin that is there at the end has been the same coin since it was made |
| `Recovery.ReplayRecovers` | bitcoinpr-storage/src/utxo_set.rs:727-733 | replaying blocks from a set that already holds some of their final coins ends in their final coins |
| `Recovery.ReplayAccepts` | bitcoinpr-core/src/chain.rs:587-604 | each replayed block is accepted as it was the first time, except under the BIP 30 rule when one of its outputs is already there |
| `Recovery.ReplayRejected` | bitcoinpr-core/src/chain.rs:587-604 | a block that is accepted, and rejected when replayed |
| `MempoolGraph.RemoveClosed` | bitcoinpr-core/src/mempool.rs:817-835 | removing entries with all their descendants leaves no orphans |
| `MempoolGraph.ConfirmBacked` | bitcoinpr-core/src/mempool.rs:850-853 | children of a confirmed entry stay backed by its new coins |
| `MempoolGraph.SpendBacked` | bitcoinpr-core/src/mempool.rs:855-869 | coins that no entry spends may go |
| `MempoolWalks.SpendersAreChildren` | bitcoinpr-core/src/mempool.rs:1032-1054 | looking up every output in the index finds exactly the children |
| `MempoolWalks.CollectDescendants` | bitcoinpr-core/src/mempool.rs:493-512 | the worklist gives the exact closure under descendants, each entry once, and what it frees |
| `MempoolWalks.CountDescendants` | bitcoinpr-core/src/mempool.rs:1032-1054 | the number of in-pool descendants, by transitive closure |
| `MempoolWalks.InMempoolAncestors` | bitcoinpr-core/src/mempool.rs:1009-1026 | the exact set of in-pool ancestors, by transitive closure |
| `MempoolWalks.WalksDual` | bitcoinpr-core/src/mempool.rs:1009-1054 | one entry is reached up the inputs from another exactly when the other is reached down the index |
| `MempoolWalks.AncestorsAreDual` | bitcoinpr-core/src/mempool.rs:1009-1054 | an ancestor of a new transaction is a parent or has a parent among its descendants |
| `MempoolWalks.TreeSplit` | bitcoinpr-core/src/mempool.rs:817-835 | removing trees one after the other is removing them together |
| `MempoolWalks.LimitedLess` | bitcoinpr-core/src/mempool.rs:603-627 | removing entries never breaks a package limit |
| `MempoolAdmission.ScanInputs` | bitcoinpr-core/src/mempool.rs:358-426 | passes exactly when every input exists and whatever spends it opts in to replacement; collects the coins, their value and the conflicts |
| `MempoolAdmission.CheckLocks` | bitcoinpr-core/src/mempool.rs:428-491 | passes exactly when the relative locks are open in the next block; the lock point stands for them at any later tip |
| `MempoolAdmission.CheckAlone` | bitcoinpr-core/src/mempool.rs:323-356 | passes exactly for well-formed, final non-coinbase transactions that relay policy allows |
| `MempoolAdmission.PlanReplacement` | bitcoinpr-core/src/mempool.rs:493-535 | the conflicts with all their descendants; passes exactly when none of them is a parent and there are at most the permitted number |
| `MempoolAdmission.CheckFees` | bitcoinpr-core/src/mempool.rs:544-597 | passes exactly when the rate meets both floors and the replacement pays more in total and a higher rate than each evicted entry |
| `MempoolAdmission.CheckPackage` | bitcoinpr-core/src/mempool.rs:599-627 | passes exactly when the ancestors are few enough and one more descendant fits each of them |
| `MempoolAdmission.Cheapest` | bitcoinpr-core/src/mempool.rs:688-692 | an entry of least fee rate among those not slated, if there is one |
| `MempoolAdmission.MakeRoom` | bitcoinpr-core/src/mempool.rs:663-739 | trims the cheapest entry left, with its descendants, again and again exactly while there is no room, raising the floor; gives up only when nothing is left or the cheapest pays as much or is an ancestor |
| `MempoolAdmission.ParentStays` | bitcoinpr-core/src/mempool.rs:709-719 | no parent of the new entry is replaced or trimmed |
| `MempoolAdmission.StillBacked` | bitcoinpr-core/src/mempool.rs:676-788 | after replacement and trimming the new entry's inputs still exist |
| `MempoolAdmission.InsertDescendants` | bitcoinpr-core/src/mempool.rs:599-627 | a new entry is the only new descendant, and only of its ancestors |
| `MempoolAdmission.InsertLimited` | bitcoinpr-core/src/mempool.rs:599-627 | admission within the package limits keeps every entry within them |
| `Mempool.UsageIsCost` | bitcoinpr-core/src/mempool.rs:276-282 | the estimate from the counters is the sum of the entry costs |
| `Mempool.KeptInsert` | bitcoinpr-core/src/mempool.rs:767-788 | filing an entry whose inputs nobody spends keeps entries, index and counters in agreement |
| `Mempool.TreesGone` | bitcoinpr-core/src/mempool.rs:817-835 | removing trees keeps the pool fit |
| `Mempool.DropTxGrounded` | bitcoinpr-core/src/mempool.rs:842-875 | dropping a confirmed transaction and its rivals keeps the pool fit for the coins after it |
| `Mempool.DropBlockOk` | bitcoinpr-core/src/mempool.rs:842-875 | dropping a whole block keeps the pool fit for the coins after the block, its budget and its limits |
| `Mempool.ReplayRuns` | bitcoinpr-core/src/chain.rs:525-817 | a block that replays is a run of coins from before it to after it |
| `Mempool.AdmitFits` | bitcoinpr-core/src/mempool.rs:305-788 | admitting an admissible entry keeps the pool fit |
| `Mempool.Mempool.constructor` | bitcoinpr-core/src/mempool.rs:262-271 | an empty pool, fit for any coins |
| `Mempool.Mempool.MemoryUsage` | bitcoinpr-core/src/mempool.rs:991-999 | the counters give the sum of the entry costs |
| `Mempool.Mempool.RemoveEntry` | bitcoinpr-core/src/mempool.rs:797-804 | removes one entry and its inputs; nothing changes for an unknown id |
| `Mempool.Mempool.RemoveWithDescendants` | bitcoinpr-core/src/mempool.rs:817-835 | removes exactly the entry and its in-pool descendants and counts them |
| `Mempool.Mempool.ExpireOldTransactions` | bitcoinpr-core/src/mempool.rs:1057-1083 | removes exactly the expired entries with their descendants and keeps the pool fit |
| `Mempool.Mempool.RemoveConflicts` | bitcoinpr-core/src/mempool.rs:855-869 | removes exactly the entries that spend an input of a confirmed transaction, with their descendants |
| `Mempool.Mempool.RemoveForBlock` | bitcoinpr-core/src/mempool.rs:842-875 | removes exactly the confirmed entries and everything that conflicts with the block, and fits the pool to the coins after it |
| `Mempool.Mempool.CheckInputs` | bitcoinpr-core/src/mempool.rs:358-491 | passes exactly when inputs, locks and value do |
| `Mempool.Mempool.CheckCandidate` | bitcoinpr-core/src/mempool.rs:323-544 | passes exactly for the transactions valid on top of chain and pool |
| `Mempool.Mempool.CheckPolicy` | bitcoinpr-core/src/mempool.rs:493-627 | passes exactly when fees, replacement and package limits allow |
| `Mempool.Mempool.CheckBudget` | bitcoinpr-core/src/mempool.rs:663-739 | room made by trimming the cheapest, or the run of trims that got stuck |
| `Mempool.Mempool.AddTransaction` | bitcoinpr-core/src/mempool.rs:305-792 | a transaction is admitted with exactly its replacement and trimming carried out, or refused for a stated reason with nothing changed, also one that is already confirmed; the pool stays consistent and fit |
| `BlockTemplate.Candidates` | bitcoinpr-core/src/mempool.rs:916-934 | exactly the final entries, once each, best fee rate first |
| `BlockTemplate.SelectForBlock` | bitcoinpr-core/src/mempool.rs:905-964 | the template is final, distinct, parents first, within weight and count, and maximal; a parentless entry is left out only for better ones |
| `BlockTemplate.TemplateReplays` | bitcoinpr-core/src/mempool.rs:896-964 | a coinbase and the template replay on the coins with no missing input and no double spend |
| `PoolVetting.CandidateVetted` | bitcoinpr-core/src/mempool.rs:323-544 | what passes admission has its fee right, passes whatever checks on it and on the outputs it spends admission has enforced all along, and has a lock point that covers its locks for good: an unconfirmed parent leaves no lock to wait for |
| `PoolVetting.StillVetted` | bitcoinpr-core/src/mempool.rs:52-63 | that stays true while what the entry spends stays the same |
| `PoolVetting.VettedLess` | bitcoinpr-core/src/mempool.rs:817-835 | removing entries with their descendants keeps the rest vetted |
| `PoolVetting.VettedDropBlock` | bitcoinpr-core/src/mempool.rs:842-875 | so does connecting a block that remakes no unspent coin |
| `PoolVetting.VettedAdmit` | bitcoinpr-core/src/mempool.rs:305-792 | so does admission with its replacement and trimming |
| `TemplateValidity.TemplateSees` | bitcoinpr-core/src/mempool.rs:905-964 | each entry of a template finds in the block the coins the pool looks up for it, confirmed ones as they are and others at the block's height |
| `TemplateValidity.LocksOpenInBlock` | bitcoinpr-core/src/mempool.rs:66-74 | an entry past its lock point has its relative locks open in the block, whatever else the block checks |
| `TemplateValidity.EntrySpendsWhen` | bitcoinpr-core/src/mempool.rs:66-74 | such an entry passes block validation exactly when the coinbase coins it spends are mature and it passes the block's own checks on the transaction and its scripts, and pays its recorded fee |
| `TemplateValidity.TemplateAcceptedWhen` | bitcoinpr-core/src/mempool.rs:66-74 | a block on a template is accepted exactly when that holds for every entry and the signature operations and the coinbase's claim, from what the pool knows, are within the limits |
| `TemplateValidity.SteadyFitWhen` | bitcoinpr-core/src/mempool.rs:66-74 | where the rules have not changed, only maturity is left to check of an entry |
| `TemplateValidity.HistoryKeeps` | bitcoinpr-core/src/mempool.rs:305-875 | through every history of admissions, expiries and connected blocks from an empty pool on, whatever rules admission enforced besides, all entries stay vetted, backed, and within budget and limits |
| `TemplateValidity.EveryTemplateWhen` | bitcoinpr-core/src/mempool.rs:66-74 | the same for the template of any pool such a history leads to |
| `TemplateValidity.ImmatureSpoils` | bitcoinpr-core/src/mempool.rs:66-74 | a pool that admitted a spend of a fresh coinbase coin, and the rejected block on its template |
| `TemplateValidity.StricterSpoils` | bitcoinpr-core/src/mempool.rs:343-349 | a pool that admitted a transaction with a large output script before BIP 110 was active, a block later, and the rejected block on its template |
| `BitCodec.PackRoundTrip` | bitcoinpr-core/src/block_filter.rs:364-397 | reading a packed byte gives its bits back, then zeros |
| `BitCodec.GolombValue` | bitcoinpr-core/src/block_filter.rs:350-419 | quotient and remainder make up the value |
| `BitCodec.GolombRoundTrip` | bitcoinpr-core/src/block_filter.rs:350-419 | a written code decodes to its value and leaves what follows it |
| `BitCodec.BitWriter.WriteBit` | bitcoinpr-core/src/block_filter.rs:330-340 | appends one bit |
| `BitCodec.BitWriter.WriteBits` | bitcoinpr-core/src/block_filter.rs:342-348 | appends the binary digits |
| `BitCodec.BitWriter.WriteGolombRice` | bitcoinpr-core/src/block_filter.rs:350-362 | appends the Golomb-Rice code |
| `BitCodec.BitWriter.Finish` | bitcoinpr-core/src/block_filter.rs:364-370 | the bytes spell everything written, then fewer than eight zeros |
| `BitCodec.BitReader.ReadBit` | bitcoinpr-core/src/block_filter.rs:388-399 | the next bit, or zeros past the end |
| `BitCodec.BitReader.ReadBits` | bitcoinpr-core/src/block_filter.rs:401-408 | the number the next bits spell, with zeros past the end |
| `BitCodec.BitReader.ReadGolombRice` | bitcoinpr-core/src/block_filter.rs:410-419 | the value of the code ahead, whoever wrote it, with zeros past the end; the reader stops right after it |
| `BitCodec.BitReader.ReadBack` | bitcoinpr-core/src/block_filter.rs:410-419 | a written code reads back as its value, and the reader stops right after it |
| `BitCodec.LeRoundTrip` | bitcoinpr-core/src/block_filter.rs:277-312 | little-endian bytes read back |
| `BitCodec.CompactRoundTrip` | bitcoinpr-core/src/block_filter.rs:277-312 | a written CompactSize reads back with its length, whatever follows it |
| `BlockFilter.EncodeSorted` | bitcoinpr-core/src/block_filter.rs:259-273 | the bytes are the count and the coded differences, padded with zeros |
| `BlockFilter.GcsEncode` | bitcoinpr-core/src/block_filter.rs:251-274 | the bytes are a filter of exactly the mapped values of the elements |
| `BlockFilter.CollectElements` | bitcoinpr-core/src/block_filter.rs:62-91 | exactly the scripts a block creates, or spends outside its coinbase, that are neither empty nor unspendable |
| `BlockFilter.BuildBasicFilter` | bitcoinpr-core/src/block_filter.rs:62-109 | the filter of those scripts |
| `BlockFilter.Scan` | bitcoinpr-core/src/block_filter.rs:147-166 | walking coded values and sorted queries side by side finds a common value exactly when there is one |
| `BlockFilter.MatchAny` | bitcoinpr-core/src/block_filter.rs:118-167 | on any filter: true exactly when a query lands on an element's value, so an element is never missed |
| `Scripthash.HeldAfter` | bitcoinpr-index/src/scripthash.rs:431-525 | what a hash holds after a block is what it held, plus what the block pays to it, minus what the block spends from it |
| `Scripthash.StaysUnspent` | bitcoinpr-index/src/scripthash.rs:569-593 | an output nothing in the block spends is unspent after it |
| `ScripthashIndex.IndexOutputs` | bitcoinpr-index/src/scripthash.rs:438-457 | every output is credited and remembered |
| `ScripthashIndex.UseCache` | bitcoinpr-index/src/scripthash.rs:490-509 | cached spends are charged and taken out of the cache, the others are left to the disk |
| `ScripthashIndex.UseDisk` | bitcoinpr-index/src/scripthash.rs:510-524 | the spends left are charged from the disk; one that is not found touches nothing |
| `ScripthashIndex.Attribute` | bitcoinpr-index/src/scripthash.rs:459-525 | whichever way a spend is resolved, it is charged once, to the output it spends; one that is not found is skipped |
| `ScripthashIndex.WriteHistory` | bitcoinpr-index/src/scripthash.rs:529-533 | the history gains exactly the touches of the block |
| `ScripthashIndex.WriteBalances` | bitcoinpr-index/src/scripthash.rs:535-560 | every balance changes by its delta, and stops at zero |
| `ScripthashIndex.HeldIsNet` | bitcoinpr-index/src/scripthash.rs:412-423 | on a valid chain the unspent value of a hash is what it received minus what it paid |
| `ScripthashIndex.TouchesAre` | bitcoinpr-index/src/scripthash.rs:431-525 | the touches are exactly of the transactions that pay to the hash or spend from it |
| `ScripthashIndex.ScripthashIndex.constructor` | bitcoinpr-index/src/scripthash.rs:100-124 | the index of a chain without transactions so far |
| `ScripthashIndex.ScripthashIndex.IndexBlock` | bitcoinpr-index/src/scripthash.rs:424-606 | whatever the cache holds or evicts, after the next block of a valid chain every balance is the unspent value of its hash and the history lists exactly the transactions concerning each hash |
| `ScripthashIndex.IndexValues` | bitcoinpr-index/src/scripthash.rs:424-606 | whatever was indexed before, a block changes every balance by its net for the hash, clamped at zero, and adds exactly its transactions to the history |
| `ScripthashIndex.ReplacedBalance` | bitcoinpr-index/src/scripthash.rs:431-560 | of two blocks on one chain, indexing the second after the first leaves the first one's net in every balance |
| `ScripthashIndex.ScripthashIndex.IndexAgain` | bitcoinpr-index/src/scripthash.rs:424-606 | after a second block at one height a balance is right exactly when the dropped block's net for its hash is zero, or negative where nothing is held; the history keeps the dropped block's entries where the second has none |
| `ScripthashIndex.ReorgMiscounts` | bitcoinpr-index/src/scripthash.rs:424-606 | two blocks for which a balance is then wrong |
| `ScripthashIndex.ScripthashIndex.Balance` | bitcoinpr-index/src/scripthash.rs:672-688 | the balance is everything received minus everything spent, the value still unspent |
| `ScripthashLedger.AcceptedIsIndexed` | bitcoinpr-core/src/chain.rs:525-817 | blocks the chain accepts are valid for the index, which then mirrors the chain's coins |
| `ScripthashLedger.HeldIsCoins` | bitcoinpr-index/src/scripthash.rs:412-423 | what a hash holds is the value of its coins in the UTXO set and of its unspendable outputs |
| `ScripthashLedger.ChainIsIndexed` | bitcoinpr-core/src/chain.rs:333-356 | a sound chain that makes no output twice is valid for the index, whose unspent outputs mirror its coins |
| `ScripthashLedger.ChainBalance` | bitcoinpr-index/src/scripthash.rs:412-423 | in an index fed exactly that chain the balance of a hash is the value of the chain's coins that pay to it, and of its unspendable outputs |

## Left out

- Script interpretation, signature hashes and signature checks: an arbitrary predicate on a transaction and the coins it spends; parallel checking and the signature cache do not show in it. The mempool's predicate is assumed to reject spends of OP_RETURN outputs, as every script evaluation does.
- Which error is reported: an error return is modelled as a refusal. In admission the script check is done before the policy checks, which no caller can observe.
- The clock and the decay of the fee floor: the current floor is a parameter, the stored one is the one raised by trimming.
- Fee rates are reals, so the rounding of floating-point division is not modelled. Amounts in admission and signature-operation counts are unbounded numbers.
- BlockValidation.PassIsReplay: assumes that the block starts with its coinbase (checked before, bitcoinpr-core/src/validation.rs:526-540), that a transaction id determines its transaction, that no transaction has 2^32 outputs and that the null outpoint is no coin; and where the BIP 30 lookup is skipped, that the block spends none of the coins it makes over older ones.
- Chain.ChainState.ConnectBlock: requires that the block extends the tip and is not connected already, which the code leaves to its caller; the checks on the header, the Merkle root, the weight and the witness commitment are one boolean.
- Chain.ChainState.DisconnectBlock: requires that a block with the tip's hash is the tip's block, as block hashes promise.
- Mempool.Mempool.AddTransaction: assumes that a transaction that is valid on top of chain and pool has no coins of its own in the set, and that a transaction has a positive weight; coinbase maturity is not checked because the code does not check it at admission.
- Mempool.Mempool.RemoveForBlock: assumes that a block transaction with the id of an entry is that entry's transaction. Reorganisations, after which the limits and the backing of the pool need not hold, are not part of the runs.
- TemplateValidity.EveryTemplateWhen: assumes that heights and times are below the end of the 32-bit range by a relative lock, that time references up to the tip are known and past, that connected blocks remake no unspent coin, and that the coinbase is fine on its own.
- PoolVetting.CandidateVetted: of the script checks it records what depends on the transaction and the outputs it spends; what depends on the heights of the coins as well is among the block's own rules in `TemplateValidity.EntrySpendsWhen`.
- `remove_transaction` removes no descendants, so it is not part of the runs.
- BitCodec.BitReader.ReadGolombRice: requires a set bit ahead, because without one the unary part does not end.
- BlockFilter.MatchAny: works on filters the encoder wrote, because decoding arbitrary bytes need not end; filters of 2^45 elements or more are excluded because their values do not fit 64 bits.
- SipHash: an arbitrary 64-bit hash of scripts. Filter hashes and filter headers are not modelled.
- ScripthashIndex.ScripthashIndex.IndexBlock: assumes that no output is ever made twice and a disk that resolves every earlier output; `Attribute` says what happens to spends it does not resolve, and `IndexAgain` to a second block at one height. Deeper reorganisations are not modelled. Deltas are unbounded, not 64-bit, numbers. The unconfirmed balance, which indexing only copies, and the ordered listing of a history are not modelled.
- ScripthashLedger.ChainIsIndexed: assumes that no output is ever made twice.
- ScripthashLedger.ChainBalance: is for an index fed exactly this chain, without blocks that a reorganisation has dropped.
- ScripthashIndex.ScripthashIndex.IndexAgain: assumes that the two blocks agree on every output both make, as transaction ids promise.
- Compact target encoding and decoding: retargeting is stated on full targets. The special retargeting rules of the test networks are not modelled.
- UtxoStore.Store.TakeBack: requires an up-to-date cache and a batch that replaces no coin, which the batch of a block that replays meets (`UndoReplacesNothing`).
- UtxoStore.CrashRecovers: assumes that no outpoint is ever made twice, that the disk keeps the order of writes, and that the height on disk is the one the old disk was flushed at.
- Storage: RocksDB is a map; block files, the encoding of records and undo data, and the wider recovery procedures are not modelled.
- Relay policy on scripts, dust and data carriers: an arbitrary predicate.
- `versionbits.rs`, `splitmon.rs`, `compact_block.rs`, the fee estimator, mining statistics, and all network, RPC and user-interface code.
