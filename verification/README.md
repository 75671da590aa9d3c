# Verified models of the Ethereum node's core

This project models four parts of the Go implementation of Ethereum and proves what they keep
in every run: the transaction pool, the selection of the canonical chain, a set of small
concurrent and scheduling components, and the accounting of gas and ether.

**The transaction pool** (`TxPool`, `TxSortedMap`, `TxList`, `TxPricedList`, with the pure
reasoning in `Transactions`, `TxListSpec`, `PoolState`, `PoolPasses`, `PoolAdds`, `QueueCut`,
`Fairness`, `Heap`, `Sorting`, and an example in `ResetGap`). The pool keeps a hash index, pending and queued lists per account, virtual nonces
and a lazily cleaned price heap in step. `TxPool.Run` is the main theorem: after any sequence
of additions, resets with reinjection, price changes and evictions the index is exactly the
disjoint union of the lists, everything is filed under its sender and nonce, no list is empty,
the price heap covers the index, everything is payable, and the pool keeps its size limit but for
local transactions and at most one remote one. If no reset reinjects anything, the pending nonces
of every account also run without a gap from the state nonce to the virtual nonce, and nothing
executable stays queued. Additions, promotions, demotions and resets are stated exactly: which
transactions are accepted, what happens to each account, and for every transaction that leaves the
pool the reason. The capacity cut is proved max-min fair.

**The canonical chain** (`ChainTree`, `Forks`, `HeaderChain`, `HashFn`, `TxLookup`,
`BlockChain`). Chains are specified by paths in a tree of blocks. Header and block writes keep
the number index equal to the path of the heaviest head, the transaction lookup equal to a scan
of that path, and the stored difficulties equal to the sums along the paths. The three walks to
a common ancestor and the fast ancestor queries are proved against the same paths.

**Concurrent and scheduling components.** The weighted selection tree (`RandSelect` over
`WeightedSlots`), the retrieval loop with its attempts (`Retrieve` over `RetrieveViews`), the
request distributor (`Distributor`), the event feed (`Feed`), the light client's pool
(`LightPool`) and the chain indexer (`ChainIndexer`). Concurrency is modelled by steps that may
be taken in any order; `Run` methods state what holds after every interleaving.

**Gas and ether** (`Gas`). The virtual machine is a parameter that may do anything but return
more gas than it was given.

Modelling decisions:

- Hashes are collision free, so a transaction or block stands for its hash. The zero hash is
  the hash of nothing.
- Nonces, prices, weights, difficulties and heights are unbounded natural numbers, except where
  a 64-bit limit decides the outcome: `IntrinsicGas`, the gas pool, the subtraction in
  `SetReceiptsData` and the wrapped numbers of `GetHashFn`.
- Databases are maps. Locks make each locked operation one step.
- The pool stores each account list as the value that `TxList` is proved to compute; two
  accounts never share a list.
- Block trees are closed under parents and have one genesis, so the branches for a missing
  ancestor do not occur. A block's number is its parent's plus one, which header verification
  checks before these functions run.
- Random choices and what peers, items and the virtual machine answer are nondeterministic or
  parameters. Times are numbers supplied by the caller. Every draw of the weighted selection has two
  random numbers, the second of which matters only if the weight has dropped.
- Bytes are numbers below 256.
- What callers guarantee is a precondition: no transaction repeats on one path of the block tree,
  the canonical index lists blocks under their own numbers, weights are not negative, and a request
  is queued at the distributor only when it is not queued already, which
  `Retrieve.SentReq.QueuedOnce` shows.
- Parts of `core/state_transition.go` and `event/feed.go` are damaged in the source text. The
  model follows what the code evidently did.

## Findings

Three promises that the code does not keep everywhere, each with the condition under which it does:

- **A failing reset of the chain indexer can leave counted sections without heads.** The reset
  of a backend runs without the lock and empties the index (core/chain_indexer.go:395-398). A
  reorganisation notice holds the lock but does not exclude it (266-267). If the reset fails
  between the notice's test and its write, the notice writes its count over an empty index. This
  happens exactly if the notice leaves `0 < head / sectionSize < storedSections`
  (`ChainIndexers.Overlap`; `ChainIndexers.OverlapExample` builds it from an empty indexer). From
  then on no section can be processed, because its parent head is missing, until the count
  returns to zero.
- **A reset of the pool that reinjects only some transactions can leave a gap.** The pool checks
  the first pending nonce only. `ResetGap.PartialReset` takes a live pool to one with nonces 3 and
  5 pending, virtual nonce 6 and nothing for 4. `PoolPasses.SettledRuns` gives the exact condition
  for gapless runs before the final promotion, and a reset that reinjects nothing meets it.
- **The light pool can hold a transaction twice.** `add` only looks among the pending ones. A
  transaction remembered as mined is taken in again if the state that validates it does not
  contain its block; that is exactly when the pool's invariant breaks (`LightPool.TxPool.Add`;
  `LightPool.MinedAndPending` gets there from an empty pool).

One suspicion is settled the other way. A transaction that left the pool and came back can stand in
the price heap twice, and `Discard` then counts it twice (`TxPricedLists.LeaveAndReturn`). The pool
does not suffer: whenever it holds more than its limit it has at most one remote transaction, so
making room always leaves one free place or only local transactions (`TxPools.EnoughRoom`, with the
bound kept by `PoolAdds.OfferBounded` and so part of the invariant of `TxPools.TxPool.Run`).

## Model

| member | source | states |
|---|---|---|
| `TxSortedMaps.TxSortedMap.Put` | core/tx_list.go:81-88 | inserts or replaces by nonce; heap stays a permutation of the keys, cache is dropped |
| `TxSortedMaps.TxSortedMap.Forward` | core/tx_list.go:92-106 | removes exactly the nonces below the threshold, returned in order; a kept cache still lists the contents |
| `TxSortedMaps.TxSortedMap.Filter` | core/tx_list.go:110-131 | removes exactly the matching transactions and rebuilds the heap |
| `TxSortedMaps.TxSortedMap.Cap` | core/tx_list.go:135-156 | keeps exactly the lowest nonces; drops come highest first and the sliced cache lists what is left |
| `TxSortedMaps.TxSortedMap.Remove` | core/tx_list.go:160-177 | removes one nonce from map and heap, and reports whether it was there |
| `TxSortedMaps.TxSortedMap.Ready` | core/tx_list.go:186-201 | takes off the whole consecutive run when it starts at or below the given nonce, else nothing |
| `TxSortedMaps.TxSortedMap.Flatten` | core/tx_list.go:211-224 | returns the contents sorted by nonce, cached or not |
| `TxSortedMaps.TxSortedMap.Get` | core/tx_list.go:75-77 | the transaction with the nonce, if any |
| `TxSortedMaps.TxSortedMap.Len` | core/tx_list.go:204-206 | the number of transactions |
| `TxLists.TxList.Add` | core/tx_list.go:259-279 | a rival is accepted iff it is strictly dearer and reaches the old price plus the bump in per cent, rounded down; the contents are exact and the caps keep covering them |
| `TxLists.TxList.Forward` | core/tx_list.go:285-287 | drops and returns what is below the threshold |
| `TxLists.TxList.Filter` | core/tx_list.go:298-322 | transaction by transaction: removed iff above a limit; kept iff within both and, if strict, no lower nonce is removed; handed back otherwise |
| `TxLists.TxList.Cap` | core/tx_list.go:326-328 | keeps the lowest nonces |
| `TxLists.TxList.Remove` | core/tx_list.go:333-347 | one nonce goes and, if strict, everything above it, which is handed back |
| `TxLists.TxList.Ready` | core/tx_list.go:353-355 | exactly the nonces from the lowest on without a gap are taken, if the lowest is not above the start |
| `TxLists.TxList.Overlaps` | core/tx_list.go:250-252 | whether the nonce is taken |
| `TxLists.TxList.Flatten` | core/tx_list.go:370-372 | the contents sorted by nonce |
| `TxLists.Lowest` | core/tx_list.go:313-318 | the scan for the lowest dropped nonce finds it |
| `TxListSpec.FilterIsFullScan` | core/tx_list.go:298-322 | the shortcut through `costcap` and `gascap` always gives the result of a full scan, and the caps stay upper bounds |
| `TxListSpec.OutbidsMeans` | core/tx_list.go:263-267 | the price rule without division |
| `TxPricedLists.TxPricedList.Put` | core/tx_list.go:422-424 | adds to the heap |
| `TxPricedLists.TxPricedList.Removed` | core/tx_list.go:429-444 | every pooled transaction stays in the heap; it is untouched while at most a quarter is stale, else rebuilt to exactly the pooled ones |
| `TxPricedLists.TxPricedList.Cap` | core/tx_list.go:448-475 | returns exactly the pooled remote transactions below the threshold; the others stay in the heap, and the stale count falls by the entries dropped |
| `TxPricedLists.TxPricedList.Underpriced` | core/tx_list.go:479-501 | for a remote transaction and a non-empty pool, true iff no pooled transaction is cheaper |
| `TxPricedLists.TxPricedList.Discard` | core/tx_list.go:505-528 | returns remote transactions only, none dearer than a remote entry that stays, and every entry not returned stays; stops early only when no remote one is left |
| `TxPricedLists.DiscardFrees` | core/tx_list.go:505-528 | the room asked for, or all there is, becomes free iff nothing is taken off twice or every remote transaction goes |
| `TxPricedLists.LeaveAndReturn` | core/tx_list.go:422-528 | the cheapest transaction, removed and added again while few entries are stale, is discarded twice for one place |
| `TxPricedLists.RepeatedEntry` | core/tx_list.go:422-528 | five transactions with which this happens |
| `TxPools.Sanitize` | core/tx_pool.go:169-204 | each setting below one becomes its default, given as a number, and every other is kept |
| `TxPools.TxPool.constructor` | core/tx_pool.go:245-289 | an empty pool with sanitized settings satisfies both invariants |
| `TxPools.TxPool.Plain` | core/tx_pool.go:208-238 | the invariants in plain terms: every transaction is in one list under its sender and nonce and can pay, lists are not empty, the bound holds; live pools have exactly the nonces from the state to the virtual one pending and only higher ones queued |
| `TxPools.TxPool.EnqueueTx` | core/tx_pool.go:723-746 | rejects only an underpriced rival; otherwise replaces it in queue, index and heap |
| `TxPools.TxPool.Demote` | core/tx_pool.go:1139-1159 | stranded pending transactions all reach the queue: none is rejected and the index does not change |
| `TxPools.TxPool.PromoteTx` | core/tx_pool.go:764-797 | moves into pending, replacing a rival only if it outbids it, and sets the virtual nonce |
| `TxPools.TxPool.PromoteReady` | core/tx_pool.go:984-990 | everything ready is promoted without meeting a rival, the virtual nonce follows the last of it, and a pending run is continued |
| `TxPools.TxPool.CleanQueue` | core/tx_pool.go:968-982 | the queue keeps exactly its payable transactions; no payable transaction leaves the pool |
| `TxPools.TxPool.PromoteQueue` | core/tx_pool.go:984-990 | exactly the ready part moves to pending; after a run every queued nonce lies above the virtual nonce |
| `TxPools.TxPool.CapAccountQueue` | core/tx_pool.go:992-1004 | a remote queue becomes exactly its lowest nonces up to the limit, a local one is unchanged; an empty list is deleted |
| `TxPools.TxPool.CleanAndPromote` | core/tx_pool.go:962-990 | pending gains exactly the ready payable part, the queue becomes exactly the waiting part, and no payable transaction leaves the pool |
| `TxPools.TxPool.PromoteAccount` | core/tx_pool.go:962-1005 | pending gains exactly the ready payable part, the queue becomes exactly the capped waiting part, and the virtual nonce follows; coherence and runs are kept |
| `TxPools.TxPool.PromoteAccounts` | core/tx_pool.go:962-1005 | exactly the given accounts are promoted, in any order, and no other account changes in lists or virtual nonce |
| `TxPools.TxPool.RemoveTx` | core/tx_pool.go:906-945 | removes exactly this transaction from the index; pending keeps what precedes it, exactly what it strands joins the queue, and the virtual nonce drops to it; a queued one just goes |
| `TxPools.TxPool.RemovePending` | core/tx_pool.go:920-937 | the list loses the transaction and what it strands, which joins the queue in full; the virtual nonce is the smaller of the old one and the removed nonce |
| `TxPools.TxPool.RemoveQueued` | core/tx_pool.go:938-944 | removes one queued transaction and an empty list with it |
| `TxPools.TxPool.FindSpammers` | core/tx_pool.go:1018-1024 | exactly the remote accounts above their guarantee |
| `TxPools.TxPool.CutOne` | core/tx_pool.go:1040-1053 | one account loses its highest nonce, and its virtual nonce follows |
| `TxPools.TxPool.CutRound` | core/tx_pool.go:1039-1054 | every given account loses exactly one transaction |
| `TxPools.TxPool.PunishOffenders` | core/tx_pool.go:1026-1057 | offenders are levelled one after the other, largest first |
| `TxPools.TxPool.Equalize` | core/tx_pool.go:1033-1056 | the earlier offenders come down to the last one or the limit is met |
| `TxPools.TxPool.CutTogether` | core/tx_pool.go:1059-1078 | all offenders are cut alike until the limit or the guarantee, which is the fair level |
| `TxPools.TxPool.CapPending` | core/tx_pool.go:1010-1080 | over the limit, every remote account ends at the smaller of its size and the one fair level; locals keep everything |
| `Fairness.FairLevelUnique` | core/tx_pool.go:1010-1080 | there is only one fair level |
| `Fairness.NobodyCanGainForFree` | core/tx_pool.go:1010-1080 | max-min fairness: any allotment that fits leaves some remote account below what one level higher would give it |
| `Fairness.OvershootIsSmall` | core/tx_pool.go:1010-1080 | the cut overshoots by fewer than the number of cut accounts |
| `Fairness.CutFitsOrGuaranteed` | core/tx_pool.go:1010-1080 | the total fits or nobody exceeds the guarantee; nobody is cut below it; cut accounts are as long as any uncut remote one |
| `Fairness.PopLargest` | core/tx_pool.go:1027-1031 | offenders come out of the priority queue largest first |
| `QueueCut.Collect` | core/tx_pool.go:1087-1094 | the queued remote accounts, each once, ordered by heartbeat |
| `TxPools.TxPool.TrimOne` | core/tx_pool.go:1097-1118 | an account loses all it has queued, or just its highest nonces |
| `TxPools.TxPool.CapQueue` | core/tx_pool.go:1081-1120 | ends at exactly the limit or with only locals queued; while a remote account keeps anything, none with an earlier heartbeat, or without one, loses anything; lowest nonces are kept |
| `TxPools.TxPool.PromoteExecutables` | core/tx_pool.go:950-1121 | exact promotion of the given accounts, then the fair cut of pending and the trimming of the queue; whatever leaves the pool is unpayable, or remote and over its account limit, above the fair level, or trimmed; both limits hold |
| `PoolPasses.EveryLossExplained` | core/tx_pool.go:950-1121 | between two coherent pools joined by a promotion, every missing transaction has one of these four reasons |
| `TxPools.TxPool.Validate` | core/tx_pool.go:596-640 | for each error exactly when it is returned, and acceptance iff nonce, balance, gas, price and the given checks are in order |
| `TxPools.TxPool.MakeRoom` | core/tx_pool.go:661-675 | a full pool refuses a transaction iff it is remote and nothing is cheaper, changing nothing; otherwise only remote ones go, cheaper first and among equals the higher nonce, and a bounded pool ends one below the limit or with locals only |
| `TxPools.EnoughRoom` | core/tx_pool.go:661-675 | if the pool is bounded, or no pooled remote transaction stands in the heap twice, discarding leaves one free place or only locals |
| `TxPools.TxPool.ReplaceInPending` | core/tx_pool.go:678-701 | a pending transaction is replaced in place iff it is outbid |
| `TxPools.TxPool.EnqueueNew` | core/tx_pool.go:703-706 | a new transaction is queued iff its nonce is free there or its holder outbid; the queue, the index and the replacement are exact |
| `TxPools.TxPool.Insert` | core/tx_pool.go:678-718 | accepted iff the holder of the nonce, pending or else queued, is absent or outbid; the new contents are exact |
| `TxPools.TxPool.Add` | core/tx_pool.go:647-718 | the verdict and the new contents for every transaction, in plain terms: known, invalid and too cheap ones change nothing; any other is accepted iff the holder of its nonce is absent or outbid by the bump, and lands in a list; who becomes local; locals lose nothing but a replaced one |
| `PoolAdds.OfferGrows` | core/tx_pool.go:647-718 | an offer brings in only the accepted transaction, and each one that leaves was given up as a cheapest remote one or outbid |
| `PoolAdds.OfferBounded` | core/tx_pool.go:661-718 | a pool within its limit, but for locals and at most one remote transaction, stays so |
| `TxPools.TxPool.AddTx` | core/tx_pool.go:828-843 | the exact offer followed by the exact promotion of the sender if nothing was replaced; every loss has a reason, both invariants are kept |
| `TxPools.TxPool.OfferAll` | core/tx_pool.go:855-868 | every transaction is offered in turn, and exactly the senders of those that replaced nothing are to be promoted |
| `TxPools.TxPool.AddTxs` | core/tx_pool.go:855-876 | every transaction is offered in turn and judged exactly, then the senders that need it are promoted; only offered transactions are new, every loss has a reason, coherence, runs, liveness, payability and the bound are kept |
| `PoolAdds.BatchAccounts` | core/tx_pool.go:855-876 | over a batch only offered transactions are new, and whatever is pooled at some stage and not at the end was displaced by a later offer or lost in the promotion |
| `PoolAdds.Welcome` | core/tx_pool.go:647-718 | a new valid transaction that finds room and its nonce free is accepted |
| `TxPools.TxPool.CleanPending` | core/tx_pool.go:1132-1151 | pending keeps exactly the payable front that no unpayable transaction precedes; exactly the payable rest joins the queue |
| `TxPools.TxPool.DropGap` | core/tx_pool.go:1153-1159 | a list whose first nonce is missing is queued as a whole; any other list and the queue stay as they are |
| `TxPools.TxPool.DemoteAccount` | core/tx_pool.go:1128-1165 | pending becomes exactly the executable front and the queue gains exactly the other payable ones; the list is empty or starts at the state nonce |
| `TxPools.TxPool.DemoteUnexecutables` | core/tx_pool.go:1126-1166 | the same, exactly, for every account; no payable transaction leaves the pool |
| `TxPools.TxPool.UpdateNonces` | core/tx_pool.go:457-460 | every pending account's virtual nonce is just past its last transaction |
| `PoolPasses.SettledRuns` | core/tx_pool.go:450-460 | after demotion and renumbering every account has one gapless run iff before it every executable part was gapless and every virtual nonce ahead of the state had one |
| `PoolPasses.GaplessSettles` | core/tx_pool.go:441-460 | lists without gaps meet that condition once the virtual nonces are forgotten |
| `TxPools.TxPool.Revalidate` | core/tx_pool.go:450-463 | exact demotion, renumbering and promotion; every transaction lost is unpayable, or remote and over a limit; valid and within limits afterwards, live if it was settled |
| `TxPools.TxPool.ResetState` | core/tx_pool.go:432-464 | the reinjected transactions are offered exactly as remote ones, then the pool is revalidated; only they are new, every loss has a reason, and one that is valid and finds room and its nonce free stays or has a reason to go; live if settled after the reinjection; an unknown state changes nothing |
| `PoolAdds.ResetAccounts` | core/tx_pool.go:432-464 | the accounting of a whole reset from its stages |
| `TxPools.TxPool.Reset` | core/tx_pool.go:384-464 | with heads up to 64 blocks apart exactly the transactions of blocks on the old path only, missing from blocks on the new path only, are offered, else none; followed by all of the above; locals stay; live if it was and nothing is reinjected |
| `ResetGap.PartialReset` | core/tx_pool.go:384-464 | from an empty pool by one addition and one reset: a live pool ends with a gap |
| `TxPools.DescendantReinjectsNothing` | core/tx_pool.go:388-431 | nothing is reinjected when the new head descends from the old one or is more than 64 blocks away |
| `TxPools.TxPool.SetGasPrice` | core/tx_pool.go:497-506 | removes exactly the remote transactions below the price |
| `TxPools.TxPool.Evict` | core/tx_pool.go:344-358 | empties exactly the queues of remote accounts whose last heartbeat is more than the lifetime ago, and of those without one unless the lifetime is the longest duration; nothing pending is touched |
| `TxPools.TxPool.Apply` | core/tx_pool.go:294-371 | one operation keeps the pool valid, and live unless it is a reset that reinjects something, and does to the pool what that kind of operation does: a batch taken in, the chain followed, the price floor applied, silent queues dropped |
| `TxPools.CountTxs` | core/tx_pool.go:1011-1014 | the total over all lists |
| `TxPools.TxPool.Run` | core/tx_pool.go:294-371 | every run keeps the pool coherent, payable and bounded; every run whose resets reinject nothing keeps it live; the run is the operations in order, each leading from one recorded pool to the next |
| `Forks.ReorgWalk` | core/blockchain.go:1433-1473 | ends at the common ancestor with exactly the two branches |
| `Forks.LightWalk` | light/txpool.go:231-248 | the same result from the single-loop walk |
| `Forks.ResetWalk` | core/tx_pool.go:397-428 | the same fork, collecting the transactions of both branches |
| `Forks.TxDifference` | core/types/transaction.go:283-299 | keeps, in order, what is in the first list and not in the second |
| `Forks.Reinjected` | core/tx_pool.go:388-431 | by the heights of the heads: up to 64 apart exactly what only the abandoned branch holds, beyond that nothing; nothing when the new head descends from the old |
| `Forks.NothingAbandoned` | core/tx_pool.go:403-428 | a head on the path of the other leaves no branch behind |
| `Forks.AbandonedUnique` | core/tx_pool.go:388-431 | what is reinjected is determined by the two heads |
| `Forks.AbandonedMeans` | core/tx_pool.go:388-431 | what is abandoned, said of blocks on one path and not on the other |
| `ChainTree.ForkUnique` | core/blockchain.go:1433-1473 | the fork of two heads is unique, so all walks agree |
| `ChainTree.ForkSplits` | core/blockchain.go:1433-1473 | both paths are the ancestor's path followed by their branch |
| `ChainTree.ForkIsLowest` | core/blockchain.go:1433-1473 | every common block is an ancestor of the one found |
| `HeaderChains.HeaderChain.WriteHeader` | core/headerchain.go:142-206 | index is exactly the head's path, stored difficulty is the sum along the path, the head is heaviest; canonical iff heavier, or as heavy with a lucky coin |
| `HeaderChains.HeaderChain.Plain` | core/headerchain.go:142-206 | the invariant in plain terms: difficulties add up along parents, the head is heaviest, the numbers up to it are linked by parents and no others are assigned |
| `HeaderChains.HeaderChain.DeleteFrom` | core/headerchain.go:169-178 | deletes exactly the numbers above the new header |
| `HeaderChains.HeaderChain.Overwrite` | core/headerchain.go:180-193 | the walk terminates and leaves the index equal to the path below the header |
| `HeaderChains.HeaderChain.InsertHeaderChain` | core/headerchain.go:270-306 | any run of writes keeps all of it; known headers are skipped, and it stops only at an unknown parent or an interruption |
| `HeaderChains.HeaderChain.SetHead` | core/headerchain.go:466-501 | head and index are cut to the height and the blocks above deleted; without side headers the chain stays valid |
| `HeaderChains.HeaderChain.DropNumbers` | core/headerchain.go:485-487 | the numbers above the height are unassigned and no others |
| `HeaderChains.HeaderChain.GetAncestor` | core/headerchain.go:336-366 | returns the right ancestor iff the budget covers the heights passed at which the block is not the canonical one, and charges exactly those |
| `HashFns.HashFn.Get` | core/evm.go:70-93 | the ancestor at that number if the parent is known, nothing at or above the header, and the wrapped number for the parent of genesis, whatever calls filled the cache before |
| `TxLookup.WriteTxLookupEntries` | core/rawdb/accessors_indexes.go:51-66 | enters every transaction of a block at its place, the last one if it is listed twice, and leaves the others alone |
| `TxLookup.ScanUnique` | core/blockchain.go:1478-1497 | the lookup table is determined by the path |
| `TxLookup.Moved` | core/blockchain.go:1474-1497 | writing the new branch and deleting the difference turns the scan of the old path into the scan of the new one |
| `BlockChains.BlockChain.Insert` | core/blockchain.go:509-526 | files the block under its number and makes it the head |
| `BlockChains.BlockChain.Reorg` | core/blockchain.go:1406-1497 | index and lookup follow from the old head's path to the new head's |
| `BlockChains.BlockChain.WriteBlock` | core/blockchain.go:944-1064 | index up to the head is its path, lookup is the scan of it, the head is heaviest; heavier wins, lighter loses, and at equal weight the lower number wins, the higher loses, and equal ones are decided by preservation and the coin |
| `BlockChains.BlockChain.Plain` | core/blockchain.go:944-1064 | the invariant in plain terms: difficulties add up, the head is heaviest, numbers are linked by parents, and the lookup holds just the transactions of canonical blocks, at their places |
| `BlockChains.StaleNumbers` | core/blockchain.go:509-526 | numbers above the head stay assigned exactly when the new head is lower than the old one |
| `BlockChains.BlockChain.WriteAll` | core/blockchain.go:944-1064 | any run of writes, in any order, keeps all of it |
| `WeightedSlots.SelectionCount` | les/randselect.go:167-178 | of the values below the total weight exactly as many select an item as it weighs |
| `WeightedSlots.SelectsOne` | les/randselect.go:167-178 | no value selects two items |
| `RandSelect.WrsNode.Above` | les/randselect.go:70-77 | a new level keeps every issued index and its weight |
| `RandSelect.WrsNode.Insert` | les/randselect.go:115-139 | takes the first free slot, which exists in a tree that is not full; sums and counts of all nodes match |
| `RandSelect.WrsNode.FindBranch` | les/randselect.go:116-122 | the first branch with room; there is one, so the panic cannot happen |
| `RandSelect.WrsNode.SetWeight` | les/randselect.go:143-164 | changes one slot and returns the difference; sums and counts of all nodes match |
| `RandSelect.WrsNode.Choose` | les/randselect.go:167-178 | never falls through, and returns the item of the slot the value falls on |
| `RandSelect.WeightedRandomSelect.SetWeight` | les/randselect.go:62-82 | exactly this item's weight changes, zero removes it, and no other index moves |
| `RandSelect.WeightedRandomSelect.InsertNew` | les/randselect.go:69-80 | a new item gets a slot, below a new root if the tree is full |
| `RandSelect.WeightedRandomSelect.Pick` | les/randselect.go:88-93 | the item on whose slot the given value falls, and its stored weight |
| `RandSelect.WeightedRandomSelect.Choose` | les/randselect.go:87-102 | every draw takes the item its random number falls on by the weights stored then and asks it anew; accepted iff the weight has not dropped or a second random number below the stored weight is below the new one; stored weights end as the answers left them; nothing is returned only after every item has reported zero |
| `RetrieveViews.UpdatedExact` | les/retrieve.go:280-297 | taking any report keeps the three flags exact; no peer is mistaken for another |
| `RetrieveViews.WaitingIff` | les/retrieve.go:301-303 | `waiting` holds iff some attempt is not over, as far as reported |
| `RetrieveViews.TracksOver` | les/retrieve.go:272-277 | if all attempts are over as far as reported, no report is pending and they are over |
| `Retrieve.SentReq.constructor` | les/retrieve.go:190-193 | the loop starts with one queued attempt |
| `Retrieve.SentReq.Dispatch` | les/retrieve.go:149-167 | only a peer without an attempt is asked, and its entry exists before it can answer |
| `Retrieve.SentReq.FailToSend` | les/retrieve.go:308-322 | a request that found no peer, or was cancelled, reports that |
| `Retrieve.SentReq.ReportSent` | les/retrieve.go:320-334 | the entry of the peer is there, so the panic cannot happen |
| `Retrieve.SentReq.TakeReply` | les/retrieve.go:355-374 | an attempt reports the verdict it received and is over |
| `Retrieve.SentReq.TimeOutSoft` | les/retrieve.go:363-366 | reports the soft timeout and goes on waiting |
| `Retrieve.SentReq.TimeOutHard` | les/retrieve.go:375-378 | reports the hard timeout and is over |
| `Retrieve.SentReq.Leave` | les/retrieve.go:350-352 | the entry of the peer is deleted last |
| `Retrieve.SentReq.Deliver` | les/retrieve.go:382-397 | a reply is accepted iff its peer has an entry not yet answered |
| `Retrieve.SentReq.Halt` | les/retrieve.go:401-409 | the first call decides the error |
| `Retrieve.SentReq.Cancel` | les/retrieve.go:401-409 | the caller decides the error if it is first |
| `Retrieve.SentReq.Next` | les/retrieve.go:280-297 | a report is taken in order and the flags stay exact |
| `Retrieve.SentReq.Update` | les/retrieve.go:280-297 | the flags after a report |
| `Retrieve.SentReq.Launch` | les/retrieve.go:225-227 | a new attempt is queued when none is queued or recent |
| `Retrieve.SentReq.StateRequesting` | les/retrieve.go:206-243 | each report leads to the right state, attempts and error: nil after a good reply, no peers at an exit, unless already stopped |
| `Retrieve.SentReq.React` | les/retrieve.go:210-238 | the same after the report is taken |
| `Retrieve.SentReq.Retry` | les/retrieve.go:250-253 | a new attempt is started only when none is queued or recent |
| `Retrieve.SentReq.StateNoMorePeers` | les/retrieve.go:254-268 | stops without error on a good reply, and gives up with the no-peers error only when nothing is outstanding |
| `Retrieve.SentReq.StateStopped` | les/retrieve.go:272-277 | exits exactly when nothing is outstanding |
| `Retrieve.SentReq.NothingOutstanding` | les/retrieve.go:272-303 | a loop that waits for nothing leaves no attempt and no report behind |
| `Retrieve.SentReq.NoDeadlock` | les/retrieve.go:272-277 | a loop that waits with no report pending has an attempt that will report |
| `Retrieve.SentReq.QueuedOnce` | les/retrieve.go:308-316 | the request is never queued twice at once, and no peer has two attempts |
| `Retrieve.SentReq.Run` | les/retrieve.go:190-409 | in every interleaving: no exit with an attempt outstanding, at most one reply per attempt; unless the caller cancels, the error is nil iff the loop has taken a good reply, and otherwise no peers at the exit; a cancelled request has the first caller's error, nil or no peers |
| `Distributor.RequestDistributor.Queue` | les/distributor.go:239-266 | the queue stays strictly sorted by creation order, which a request keeps when queued again |
| `Distributor.RequestDistributor.FindPlace` | les/distributor.go:248-257 | the scan finds the place between earlier and later requests |
| `Distributor.RequestDistributor.Remove` | les/distributor.go:285-291 | takes one request out and keeps the order |
| `Distributor.RequestDistributor.Cancel` | les/distributor.go:271-282 | succeeds iff the request is still queued |
| `Distributor.RequestDistributor.CheckPeers` | les/distributor.go:200-219 | records every peer that serves the request first, and the shortest wait |
| `Distributor.RequestDistributor.NextRequest` | les/distributor.go:184-233 | drops exactly the leading requests nobody can serve; the peer can queue and its request is the first it can be sent, with the shortest wait of all such pairs; nothing only if there is none |
| `Feed.Feed.Subscribe` | event/feed.go:81-101 | adds one subscription |
| `Feed.Feed.Remove` | event/feed.go:112-133 | ends one subscription, whether new or established |
| `Feed.Feed.Deactivate` | event/feed.go:236-240 | a served channel leaves the prefix of channels still to be served |
| `Feed.Feed.Drop` | event/feed.go:179-187 | a channel removed in between leaves the list, and the prefix if it was in it |
| `Feed.Feed.TrySends` | event/feed.go:166-172 | the non-blocking pass serves each channel at most once |
| `Feed.Feed.Send` | event/feed.go:137-203 | terminates; every channel that stays is served once, one that asks to leave in between at most once, nobody else is removed, and the result counts the deliveries |
| `LightPool.NetMined` | light/txpool.go:149-156 | marking a transaction mined keeps the changes the net difference |
| `LightPool.NetRolledBack` | light/txpool.go:149-156 | marking it rolled back does too |
| `LightPool.TxPool.Add` | light/txpool.go:401-431 | the error for known and for invalid transactions, which change nothing; else the transaction is pending, and the invariant survives iff it was not remembered as mined |
| `LightPool.MinedAndPending` | light/txpool.go:401-431 | a transaction added, mined and added again is both pending and mined |
| `LightPool.TxPool.RollbackTxs` | light/txpool.go:209-221 | what the block mined is pending again, and no transaction is lost |
| `LightPool.TxPool.CheckMinedTxs` | light/txpool.go:173-205 | fails iff the block, or the receipts when it holds a pending transaction, cannot be retrieved, changing nothing; else exactly the pending transactions of the block become mined |
| `LightPool.TxPool.CheckAll` | light/txpool.go:256-264 | blocks are checked upwards and the head follows; it stops only below a block that cannot be retrieved |
| `LightPool.TxPool.Clear` | light/txpool.go:267-283 | exactly the canonical blocks of the range are forgotten |
| `LightPool.TxPool.ReorgOnNewHead` | light/txpool.go:229-286 | the changes are exactly the net difference even on failure; pending and mined are disjoint and on the path to the head; it fails only at a block that cannot be retrieved; afterwards no block more than 500 below the head is remembered, and only transactions of such blocks are forgotten |
| `LightPool.ValidGrows` | light/txpool.go:229-286 | the invariant carries over when more headers become known |
| `LightPool.TxPool.Run` | light/txpool.go:229-431 | over any additions and head changes with growing chains the invariant holds until a mined transaction is added again, and breaks exactly then; the pool holds what it held and took in, but for buried transactions |
| `ChainIndexers.ChainIndexer.SetValidSections` | core/chain_indexer.go:461-473 | count and heads are cut together |
| `ChainIndexers.ChainIndexer.OnNewHead` | core/chain_indexer.go:247-304 | a reorganisation lowers the known sections and, iff stored ones lie above it, announces the write of their count; otherwise confirmed sections become known |
| `ChainIndexers.ChainIndexer.WriteNotice` | core/chain_indexer.go:266-268 | cuts count and heads; the index is intact afterwards iff the count is zero, or it was intact and no reset failed since the test |
| `ChainIndexers.ChainIndexer.Start` | core/chain_indexer.go:321-341 | the next section is taken up iff one is due |
| `ChainIndexers.ChainIndexer.FailReset` | core/chain_indexer.go:395-398 | a failed reset gives up everything indexed, without the lock, also under a pending notice |
| `ChainIndexers.ChainIndexer.Fail` | core/chain_indexer.go:366-370 | back under the lock, no retry until the next notice |
| `ChainIndexers.ChainIndexer.FailBackend` | core/chain_indexer.go:411-418 | a backend that fails to process or commit spoils the job and nothing else |
| `ChainIndexers.ChainIndexer.ProcessOne` | core/chain_indexer.go:400-415 | goes on iff the header continues the section; without a stored head before the section it never does |
| `ChainIndexers.ChainIndexer.Finish` | core/chain_indexer.go:353-370 | a section counts iff the one it follows is still the last stored; only an intact index gets here |
| `ChainIndexers.OneBranch` | core/chain_indexer.go:355-371 | all section heads lie on one branch, whole sections apart |
| `ChainIndexers.ChainIndexer.Run` | core/chain_indexer.go:247-420 | in every interleaving: unless a reset failed between test and write of a notice with a positive count, the persisted count is the stored one, and heads exist exactly below it, each a section's length of parent links above the last; if the index breaks, no head is left at all |
| `ChainIndexers.Overlap` | core/chain_indexer.go:266-268 | a reset failing under a notice breaks the index iff `0 < head / sectionSize < storedSections`, and then leaves that count without heads |
| `ChainIndexers.OverlapExample` | core/chain_indexer.go:395-398 | from an empty indexer: one counted section and no head |
| `Gas.IntrinsicGas` | core/state_transition.go:88-118 | 21000 or 53000 plus 68 for each non-zero and 4 for each zero byte, or an error iff that exceeds 64 bits |
| `Gas.GasPool.AddGas` | core/gaspool.go:37-43 | adds, with the overflow that panics as precondition; callers here never reach it |
| `Gas.GasPool.SubGas` | core/gaspool.go:47-53 | deducts iff there is enough |
| `Gas.Conserved` | core/state_transition.go:161-246 | buying, refunding and paying gas neither makes nor burns ether |
| `Gas.PrepaidBy` | core/state_transition.go:161-221 | account by account: only the sender pays, for all its gas, and only a call uses its nonce |
| `Gas.SettledWith` | core/state_transition.go:232-254 | account by account: the sender is paid for the unused gas, the coinbase for the used gas |
| `Gas.AfterRefund` | core/state_transition.go:239-245 | the gas used is the least that allows for the refund and for half of what was used |
| `Gas.StateTransition.BuyGas` | core/state_transition.go:161-187 | for each error exactly when it is returned, in the order nonce, balance, gas limit, changing nothing; else takes gas from the pool and its price from the sender |
| `Gas.StateTransition.RefundGas` | core/state_transition.go:239-254 | unused gas goes back to the pool and its price to the sender |
| `Gas.StateTransition.Prepare` | core/state_transition.go:176-221 | refuses exactly as stated, in order; else gas is bought, the data paid for and the nonce of a call used |
| `Gas.StateTransition.TransitionDb` | core/state_transition.go:192-236 | which error is returned and when; else the pool pays for the gas used, the machine starts with the sender charged for all its gas, and what it leaves is changed by the unused gas for the sender and the fee for the coinbase |
| `Gas.ApplyTransaction` | core/state_processor.go:96-134 | fails iff the message is refused; else the receipt records exactly the gas the pool pays, and the world is the one the transition leads to |
| `Gas.Process` | core/state_processor.go:64-89 | fails iff a message is refused in the world the earlier ones lead to, and then at the first such; else world and gas left are where all messages lead, receipts add up, and ether is conserved if the machine conserves it |
| `Gas.NeverReached` | core/state_processor.go:76-84 | after a refused message nothing more is reached |
| `Gas.SetReceiptsData` | core/blockchain.go:792-815 | each receipt's gas is the difference of cumulative amounts modulo two to the 64 |
| `Gas.Recovered` | core/blockchain.go:809-815 | on receipts that `Process` produced this is the gas it recorded |

## Left out

- Transaction journal, metrics, event feeds and heartbeats as wall-clock times in the pool.
- PoolPasses.SettledRuns: the equivalence ends before the last promotion of a reset; after it only the direction towards liveness is stated, because the promotion may fill a gap and the capacity cut may then remove what lies behind it.
- An exact count of stale price heap entries: re-adding a transaction whose stale entry remains blurs it.
- Size, value, signature and intrinsic gas checks of `validateTx` are inputs of the model, as are the account states.
- Unrooted chains in `reset`: all ancestors of both heads are known in the model.
- Aliasing of `txList` objects: the pool model holds lists as values.
- Headers and bodies as encoded bytes, LRU caches, trie garbage collection, receipts and logs of blocks, future blocks, side-chain import and fast sync.
- HeaderChains.HeaderChain.SetHead: with side headers stored, only the deletions are stated, because deleted blocks may be ancestors of side headers.
- The header chain's own head and the fast-sync head, which `insert` moves along with the block head.
- The walk branches for a missing ancestor and the skipped walk during CHT synchronisation in the light pool.
- Weights as 64-bit integers: sums do not overflow in the model.
- Timers, flow control and message transport in retrieval and distribution; the response statistics sent to the server pool.
- Distributor: closing all channels on shutdown, and the wake-up signals of its loop.
- Feed: element type checks, and subscriptions added while a value is on its way, which only wait in the inbox.
- Indexer checkpoints, children and throttling. Each call of `setValidSections` is one step: interleavings inside two such calls are not modelled.
- The virtual nonces, the relay and the transaction database of the light pool.
- Block rewards, the DAO fork, logs and state roots in block processing; execution of contracts.
- RPC, networking, consensus engines, cryptography, encodings, storage engines and user interfaces.
