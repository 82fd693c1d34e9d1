# Dafny model of go-ethereumai's pool, chain and scheduling cores

This project models the parts of go-ethereumai in which several structures have to agree
after every step, and proves that they do. Code that updates objects in place is modelled
by classes and methods with loops; what they are proved against are functions and
predicates over plain values, whose properties are lemmas.

| files | modules | what they model |
|---|---|---|
| `heap.dfy` | `BinaryHeap` | `container/heap` and `sort.Sort` as the pool uses them |
| `transactions.dfy`, `sortedmap.dfy`, `txlist.dfy` | `Nonces`, `Transactions`, `SortedMap`, `AccountLists`, `TxLists` | one account's transactions: nonce heap, sorted map with cache, list with spending caps |
| `priced.dfy` | `PricedLists` | the lazily cleaned price heap and its stale counter |
| `poolstate.dfy`, `poolsync.dfy`, `poolmoves.dfy`, `poollimits.dfy` | `PoolState`, `PoolSync`, `PoolMoves`, `PoolLimits` | the transaction pool account by account: agreement, synchrony, promotion, demotion, fair truncation |
| `poolsteps.dfy`, `poolfields.dfy`, `poolfacts.dfy`, `poolresets.dfy`, `poolcauses.dfy` | `PoolSteps`, `PoolFields`, `PoolFacts`, `PoolResets`, `PoolCauses` | every step of the pool as a relation between what it holds before and after, and what these relations imply: what becomes of each nonce, which accounts stay in sync, why a transaction is lost |
| `txpool.dfy`, `poolruns.dfy`, `poolcases.dfy` | `TxPools`, `PoolRuns`, `PoolCases` | the pool itself with its price heap, proved to take these steps; all its runs; three runs that show where a promise ends |
| `chain.dfy`, `headerchain.dfy` | `Chains`, `HeaderChains` | header chain: tables, caches, rerouting and rewinding |
| `txindex.dfy`, `blockchain.dfy` | `TxIndex`, `BlockChains` | fork choice, insertion, reorganisation, transaction lookup index |
| `chainindexer.dfy` | `ChainIndexers` | the section indexer, at lock granularity |
| `feed.dfy` | `Feeds` | one-to-many delivery, as steps between lock operations |
| `slots.dfy`, `randselect.dfy` | `WeightedSlots`, `RandSelect` | the weighted selection tree against a flat row of slots |
| `distributor.dfy` | `Distributors` | the request scheduler, on top of the selection tree |
| `gas.dfy`, `transition.dfy`, `processor.dfy` | `GasAccounting`, `StateTransitions`, `StateProcessors` | gas and balances of a message, a transaction and a block, after section 6 (Transaction Execution) of the Ethereum Yellow Paper |

`wrappers.dfy` holds the option type. `dafny verify dfyconfig.toml` checks everything.

## Reading guide

The pool. `PoolSteps.View` is what a pool holds besides its price heap, and the relations in
`PoolSteps` say exactly what each step makes of it: `Withdrawn` (transactions leave),
`AddedTo`, `PromotedTo`, `TruncatedTo`, `DemotedTo`, and their compositions `BatchStep`,
`ResetStep`, `Repriced` and `Evicted`. The methods of `TxPools.TxPool` are proved to take these
steps and to keep `Valid`, the invariant of every reachable state, reorganisations included:
`all` is exactly the disjoint union of the listed transactions, no nonce of an account is
both pending and queued, no empty list is stored, the price heap covers the pool and its
stale counter is never too low nor negative, remote transactions pay the pool's price, every
transaction is one that the state at the head could still execute, the pool is within its
limit or all transactions but one are local, and just the accounts with pending
transactions have a heartbeat. `SyncedAt` adds for one account that its pending nonces are
exactly those from its state nonce to its virtual nonce, with every queued nonce strictly
above. `PoolRuns.Run` states all this at every point of every run. What the steps do to each
nonce, in prices, balances and numbers alone, is said by the lemmas whose names end in `InFields`.

`PoolCauses.LostWithCause` says that a transaction leaves only because the state could not
execute it, because it is remote and a limit leaves it no room (queued, with more queued than
its account is allowed; pending, with more pending than its account is guaranteed and too many
in all; queued, with too many in all; or the pool is full), or because it was outbid. `AllAnswered` is its counterpart for what is given to the pool: every
transaction added or reinjected is pooled, or there is an objection to it, or a limit
squeezed it out, or another transaction claims its nonce.

The chains. A block hash is the block itself (or one of no known block), so a block
determines its ancestry; `AncestorAt`, `TotalDifficulty` and `Index` are functions of it,
independent of the tables. The methods keep the tables equal to these functions.

The concurrent parts (`Feeds`, `ChainIndexers`) are state machines. Each method is one region
between lock operations or one choice of a select; `Run` takes any sequence of steps and
skips those that the locks do not permit. `Feeds.Next` says what a step does in terms of who
is subscribed, who is about to leave and whom a Send has still to serve; `ChainIndexers.Next`
does the same for the index. The lemmas about whole runs speak of these alone.

## Where code, comments and tests differ

- Queue truncation drops the accounts with the latest heartbeat first (core/tx_pool.go:1046-1048),
  although the comment at core/tx_pool.go:1031 speaks of the oldest ones. The model follows the
  code: an account loses something only after all those with a later heartbeat have lost
  everything (`TxPools.TxPool.TruncateQueue`).
- `Ready` starts its run at the smallest nonce held, not at the nonce asked for
  (core/tx_list.go:185); its comment says otherwise.
- The pool's own test expects entries minus stales to equal the pool's size
  (core/tx_pool_test.go:100). That can fail after a transaction comes back while its old
  heap entry is still there: `PoolCases.Reentry` is such a run. Until then the count is exact
  (`TxPools.TxPool.Enter`, `PoolRuns.Run`), and `PricedLists.CapDoubles` and
  `PricedLists.DiscardDoubles` state exactly when it becomes too high. What always holds is
  `stales >= len(items) - len(all) >= 0`. A full pool makes room all the same
  (`TxPools.TxPool.MakeRoom`).
- Demotion looks for a gap only in front of a pending list and reports it as one that should
  never happen (core/tx_pool.go:1102). A hole further up passes: `PoolCases.Hole` is such a
  run, `PoolMoves.DemotionGapless` and `PoolFacts.ResetSynced` give the exact condition, and
  `PoolResets.ReinjectedReset` one on the state before while no limit is met.
- A reset sets the virtual nonces of accounts with pending transactions only
  (core/tx_pool.go:422-426). If reinjection has pushed the virtual nonce of an account below
  its state nonce and nothing of it stays pending, its next transaction is not promoted:
  `PoolCases.Strand` is such a run, and `PoolFacts.ResetKeepsSync` gives the exact condition.
- The lifetime is described as the time for which transactions that cannot be executed are
  queued (core/tx_pool.go:138). Only promotion notes a heartbeat, and the last pending
  transaction takes it along: the queue of a remote account without pending transactions
  goes at the first eviction tick (`PoolFacts.EvictionRule`).
- After a rewind the header chain may keep headers that hang from deleted ones or are heavier
  than its head (core/headerchain.go:408-441): `HeaderChains.Leftover` is such a run, and
  `HeaderChains.HeaderChain.SetHead` states exactly when it does not.
- The indexer detects a reorganisation during the processing of a section by the head of the
  section before (core/chain_indexer.go:305). One that reaches into the section only, after its
  last header was read, goes unnoticed and a stale head is stored: `ChainIndexers.Stale` is such
  a run, and `ChainIndexers.SectionsCanonical` says that without one all stored heads stay
  canonical.

## Model

| member | source | states |
|---|---|---|
| `BinaryHeap.Push` | core/tx_list.go:38-40 | the heap order is kept and the elements are the old ones plus the pushed one |
| `BinaryHeap.Pop` | core/tx_list.go:42-48 | the removed element is the root, the heap order is kept, and nothing else is lost |
| `BinaryHeap.Remove` | core/tx_list.go:152-167 | the element at any index leaves; heap order and all other elements stay |
| `BinaryHeap.Init` | core/tx_list.go:112-121 | any sequence becomes a heap over the same elements |
| `BinaryHeap.Sort` | core/tx_list.go:203-216 | the result is sorted and a permutation of the input |
| `BinaryHeap.RootIsMinimal` | core/tx_list.go:89 | no element of a heap sorts before its root |
| `SortedMap.TxSortedMap.Put` | core/tx_list.go:73-80 | exactly the transaction's nonce is (over)written; the index stays a duplicate-free heap of the keys and no stale cache survives |
| `SortedMap.TxSortedMap.Forward` | core/tx_list.go:84-98 | removes and returns, in nonce order, exactly the transactions below the threshold; the cache, if any, stays the sorted contents |
| `SortedMap.TxSortedMap.Filter` | core/tx_list.go:102-123 | removes and returns exactly the transactions that match, each once, and rebuilds the index |
| `SortedMap.TxSortedMap.Cap` | core/tx_list.go:127-148 | keeps the lowest nonces up to the limit and returns the others, highest first |
| `SortedMap.TxSortedMap.Remove` | core/tx_list.go:152-170 | removes the nonce and reports whether it was there |
| `SortedMap.TxSortedMap.Ready` | core/tx_list.go:178-193 | removes and returns in order the maximal consecutive run from the smallest nonce, if that is not above the start |
| `SortedMap.TxSortedMap.Flatten` | core/tx_list.go:203-216 | returns the contents in nonce order and leaves them alone, with or without a cache |
| `TxLists.TxList.Add` | core/tx_list.go:251-272 | a new nonce is taken; at a used one the transaction is taken if and only if its price is higher than the old one's and, with `bump` the percentage asked for, 100 times it exceeds the old price times 100 + bump, less 100; both caps then cover it |
| `AccountLists.OutbidsInPrices` | core/tx_list.go:251-262 | the same rule on prices alone, with its truncating division resolved |
| `TxLists.TxList.Forward` | core/tx_list.go:277-279 | drops exactly the nonces below the threshold, in order |
| `TxLists.TxList.Filter` | core/tx_list.go:290-314 | drops exactly the unpayable transactions and, from a strict list, everything above the lowest of them; the caps may short-circuit the scan but never change the result |
| `TxLists.TxList.Cap` | core/tx_list.go:318-320 | keeps the lowest nonces up to the limit |
| `TxLists.TxList.Remove` | core/tx_list.go:325-337 | removes the nonce and returns what that strands in a strict list |
| `TxLists.TxList.Ready` | core/tx_list.go:345-347 | removes and returns the ready run |
| `TxLists.TxList.Flatten` | core/tx_list.go:362-364 | returns the contents in nonce order and leaves the list alone |
| `AccountLists.FilterIsFullScan` | core/tx_list.go:290-314 | on every list whose caps bound its contents, the short-circuiting Filter keeps what a full scan keeps, and the caps still bound the rest |
| `AccountLists.StrandingKeepsRun` | core/tx_list.go:306-313 | a gapless strict list stays gapless whatever set of nonces it gives up |
| `AccountLists.StrandingPartitions` | core/tx_list.go:290-314 | kept, removed and invalidated transactions are the old contents, each in exactly one part |
| `AccountLists.CapKeepsRun` | core/tx_list.go:318-320 | capping a gapless list leaves its first nonces, without gaps |
| `AccountLists.ForwardKeepsRun` | core/tx_list.go:277-279 | forwarding a gapless list leaves it gapless |
| `PricedLists.PricedList.Put` | core/tx_list.go:414-416 | one entry more, heap order kept |
| `PricedLists.PricedList.Removed` | core/tx_list.go:421-435 | either one more stale entry is counted or the heap is rebuilt from the pool; coverage is kept, 3*len(items) <= 4*len(all) afterwards, and an exact counter stays exact |
| `PricedLists.PricedList.Cap` | core/tx_list.go:439-466 | hands out exactly the live remote entries below the threshold; what stays is at the threshold or local; the counter falls by the stale entries dropped |
| `PricedLists.PricedList.Underpriced` | core/tx_list.go:470-492 | true exactly when the transaction is remote and no dearer than every pooled transaction |
| `PricedLists.PricedList.Discard` | core/tx_list.go:496-519 | hands out live remote entries, as many as asked for unless only local ones remain; each has a lower price than any live remote entry left, or the same price and no lower nonce |
| `PricedLists.SlackAfterDrop` | core/tx_list.go:439-519 | once the transactions handed out have left the pool the heap covers the rest, and the counter overstates the surplus of entries by exactly the entries handed out twice |
| `PricedLists.FlooredByDrop` | core/tx_pool.go:463-472 | once what Cap hands out has left the pool, what stays is exactly what is local or pays the threshold |
| `PricedLists.StalesNonNegative` | core/tx_list.go:443-465 | while entries are taken out the stale counter never falls below zero; every popping loop keeps this as its invariant |
| `PricedLists.CoversCount` | core/tx_list.go:421-435 | a covering heap has at least as many entries as the pool has transactions |
| `PricedLists.HashesCount` | core/tx_list.go:496-519 | as many hashes as entries if and only if no transaction is listed twice |
| `PricedLists.DistinctDrop` | core/tx_list.go:496-519 | a heap without double entries hands no transaction out twice |
| `PricedLists.SlackKept` | core/tx_list.go:496-519 | the stale counter stays exact if and only if no transaction is handed out twice |
| `PricedLists.CapDoubles` | core/tx_list.go:439-466 | Cap hands a transaction out twice, and so makes an exact counter too high, if and only if before the call some live remote transaction below the threshold has two entries |
| `PricedLists.DiscardDoubles` | core/tx_list.go:496-519 | Discard asked for one transaction hands none out twice; asked for more, with a single remote transaction pooled, it does if and only if that one has two entries before the call |
| `PricedLists.RebuiltFromAll` | core/tx_list.go:428-435 | a rebuilt heap has exactly one entry for each pooled transaction |
| `PoolMoves.Sanitized` | core/tx_pool.go:160-175 | a price limit or price bump below one becomes its default; everything else is kept |
| `TxPools.TxPool.constructor` | core/tx_pool.go:216-235 | a new pool is empty, satisfies the pool invariant, and every account is in sync |
| `TxPools.TxPool.Enter` | core/tx_pool.go:694-700 | pool and price heap gain the transaction; an exact stale counter stays exact if and only if the heap has no entry of it yet |
| `PoolSteps.FirstObjection` | core/tx_pool.go:554-595 | no objection exactly when all demands are met, the last two being that the intrinsic gas fits a uint64 and does not exceed the gas offered |
| `PoolSteps.ObjectionIs` | core/tx_pool.go:554-595 | which objection is raised, for each of them: exactly when its own demand, in the transaction's fields, is the first not met |
| `TxPools.TxPool.ValidateTx` | core/tx_pool.go:554-595 | no objection if and only if size, value, signature, price, nonce, gas and `value + price * gas` against the balance are all in order; insufficient funds if and only if that sum is what fails first |
| `TxPools.TxPool.EnqueueTx` | core/tx_pool.go:678-701 | the queue gains the transaction, a replaced one leaves the pool, or nothing changes if it is not outbid; the price heap still covers the pool |
| `TxPools.TxPool.RemoveTx` | core/tx_pool.go:865-904 | exactly the transaction leaves; from pending, all above it go back to the queue and the virtual nonce falls to it unless it was lower; no other account is touched |
| `PoolFacts.WithdrawnSyncs` | core/tx_pool.go:865-904 | whatever transactions leave one by one, an account that was in sync is in sync afterwards: pending ends below the lowest one gone, the virtual nonce is that nonce, and the rest waits in the queue |
| `PoolSteps.WithdrawnTrans` | core/tx_pool.go:865-904 | removing transactions in portions, in whatever order, leaves what removing them at once would |
| `PoolFields.WithdrawnInFields` | core/tx_pool.go:865-904 | nonce by nonce: pending ends below the lowest transaction gone, what is left above it is queued, and the virtual nonce falls to it unless it was lower |
| `PoolState.DropPendingOk` | core/tx_pool.go:874-895 | pending and queue stay disjoint and together remain what the pool knows of the account |
| `TxPools.TxPool.MakeRoom` | core/tx_pool.go:618-633 | a full pool turns away exactly the remote transactions no dearer than its cheapest; otherwise it discards cheapest remote ones, one if the pool is at its limit, and in every reachable state leaves a free place or no remote transaction; the stale counter stays as exact as it was unless local transactions overfill the pool and the one remote transaction has two entries |
| `PoolSteps.RoomEnough` | core/tx_pool.go:626-632 | if local transactions alone overfill the pool, at most one remote transaction is left, and discarding leaves none |
| `TxPools.TxPool.CheckUnderpriced` | core/tx_pool.go:620-625 | underpriced exactly when remote and no dearer than every pooled transaction |
| `TxPools.TxPool.ReplacePending` | core/tx_pool.go:634-659 | succeeds exactly when the transaction outbids the pending one, which then is all that leaves the pool |
| `TxPools.TxPool.Place` | core/tx_pool.go:634-673 | the outcome is the placement that pending and queue dictate: a pending transaction is replaced where it is, anything else goes to the queue; only queueing makes the sender of a local transaction local; price floor and pool limit still hold |
| `TxPools.TxPool.Add` | core/tx_pool.go:605-673 | known, objectionable, underpriced and unplaceable transactions get exactly their error and change nothing but the room made; an accepted one costs no more than the balance; at a nonce in use it is accepted if and only if it outbids the transaction there, in prices; making room takes only remote transactions no dearer than any left; lists and local accounts then are those that the placement dictates |
| `PoolSteps.AddedInFields` | core/tx_pool.go:605-673 | of every addition, in prices, nonces and numbers: it is known, or objectionable, or turned away by a full pool exactly if it is remote and no dearer than any pooled one, or refused exactly if it does not outbid the one at its nonce; otherwise it is pooled in the place of that one and no other is lost |
| `PoolSteps.RoomInFields` | core/tx_pool.go:618-633 | each transaction given up for room is remote, and cheaper than every remote one left or as dear with no lower nonce |
| `TxPools.TxPool.PromoteTx` | core/tx_pool.go:718-751 | pending, pool, heartbeat and virtual nonce after promotion, in both the accepting and the discarding branch |
| `TxPools.TxPool.PromoteAll` | core/tx_pool.go:933-938 | promoting pooled transactions at free nonces never discards or overwrites one |
| `TxPools.TxPool.PromoteAccount` | core/tx_pool.go:917-957 | of the queued transactions exactly the usable ones are kept, their ready run becomes pending and the rest is cut to the account's allowance |
| `TxPools.TxPool.PromoteAccounts` | core/tx_pool.go:914-957 | the loop over the accounts promotes each of them as if it were the only one and leaves all others as they are, in whatever order they come |
| `PoolFields.PromotedInFields` | core/tx_pool.go:917-957 | nonce by nonce: just the run of executable queued nonces that starts with the lowest one, if that is not above the virtual nonce, becomes pending, and the virtual nonce ends behind it; what cannot be executed is dropped; a remote queue keeps the lowest of the rest, as many as its allowance |
| `PoolMoves.PromotedKeeps` | core/tx_pool.go:917-957 | an account without gaps that is promoted ends in sync, within its allowance if remote, and with usable transactions only |
| `PoolSync.PromotionSync` | core/tx_pool.go:933-938 | after promotion pending is exactly the run from the state nonce to the virtual nonce and nothing executable waits |
| `TxPools.TxPool.TruncatePending` | core/tx_pool.go:960-1030 | max-min fair and no more than asked for: all cut accounts end at one length, at least AccountSlots and at least every uncut remote account's; with one transaction more for each of them there would be too many; each keeps its lowest nonces; locals are untouched; the total fits or no remote account exceeds its slots |
| `PoolLimits.LeveledOnce` | core/tx_pool.go:960-1028 | there is only one such result: the common length is the largest, not below AccountSlots, with which the total fits |
| `PoolFields.PendingTruncatedInFields` | core/tx_pool.go:960-1028 | nonce by nonce: an account that loses something is remote, too many are pending, it keeps at least its slots, and it loses its highest nonces; its virtual nonce falls to the lowest of those |
| `PoolLimits.LevelingIsFair` | core/tx_pool.go:966-1007 | the offender loop ends in a fair state |
| `PoolLimits.LastLeveling` | core/tx_pool.go:1008-1028 | so does the final equal reduction, which stops at the guaranteed slots |
| `TxPools.TxPool.Equalize` | core/tx_pool.go:982-1028 | lists of equal length are shortened together until they reach the threshold or the limit is met; the last round began with too many; terminates |
| `PoolLimits.PopLongest` | core/tx_pool.go:968-980 | the priority queue yields an account with a longest list |
| `PoolLimits.SortByBeat` | core/tx_pool.go:1037-1044 | a permutation of the accounts, ordered by heartbeat, those without one first |
| `TxPools.TxPool.TruncateQueue` | core/tx_pool.go:1031-1070 | only remote queues shrink, to their lowest nonces; one loses something only if every remote account with a later heartbeat has lost everything, and at most one loses a part; the total ends at the limit or only locals are queued; pending is unaffected |
| `PoolLimits.RelievedOnce` | core/tx_pool.go:1031-1070 | there is only one such result unless two remote accounts have the same heartbeat |
| `PoolFields.QueueTruncatedInFields` | core/tx_pool.go:1031-1070 | nonce by nonce: an account that loses something is remote, too many are queued, it loses its highest nonces, and every remote account with a later heartbeat has lost everything |
| `PoolSteps.TruncatedOnce` | core/tx_pool.go:960-1070 | pending lists and virtual nonces after both truncations are determined by the state before, and so are the queues unless heartbeats coincide |
| `PoolLimits.CutTail` | core/tx_pool.go:1062-1068 | removing the last transactions one by one leaves exactly the lowest nonces |
| `TxPools.TxPool.PromoteExecutables` | core/tx_pool.go:909-1071 | every account given is promoted exactly and no other touched, then both truncations apply; heartbeats are noted for exactly the accounts that gain a pending transaction |
| `PoolCauses.PromotionLoses` | core/tx_pool.go:917-957 | promotion takes only what the state could not execute, or what is queued by a remote account with more queued transactions than its allowance |
| `PoolCauses.TruncationLoses` | core/tx_pool.go:960-1070 | truncation takes a pending transaction only while too many are pending and its remote account has more pending than its guaranteed slots, and a queued one only while too many are queued and its account is remote |
| `PoolFacts.TruncatedSyncs` | core/tx_pool.go:960-1070 | truncation keeps every account in sync that was, the virtual nonce falling to the lowest pending nonce cut |
| `PoolCauses.BatchLoses` | core/tx_pool.go:782-832 | over a whole batch a transaction is lost only if the state could not execute it, if the limit of the list it was on leaves its remote account no room, if the whole pool is full, or if one of the batch outbids it at its nonce |
| `PoolCauses.BatchAnswers` | core/tx_pool.go:782-832 | each transaction of a batch is pooled afterwards, or objectionable, or squeezed out by the limit of a list it was on or of the pool, or contested at its nonce |
| `PoolFacts.BatchSyncs` | core/tx_pool.go:782-832 | a batch keeps every account in sync that was; one that sends none of it keeps an unbroken pending run |
| `TxPools.TxPool.AddTx` | core/tx_pool.go:782-797 | the pool goes through exactly the steps of add, promotion and truncation; invariant and synchrony are kept; the transaction is answered and nothing is lost without cause, account by account |
| `TxPools.TxPool.AddTxs` | core/tx_pool.go:809-832 | the batch goes through exactly these steps, one answer for each transaction; invariant and synchrony are kept; every transaction is answered and nothing is lost without cause, account by account |
| `TxPools.TxPool.SetGasPrice` | core/tx_pool.go:463-472 | exactly the remote transactions below the new price leave; what was pending above one of them is queued, every other transaction is where it was; afterwards every remote transaction pays at least the price; synchrony is kept; the stale counter stays as exact as it was if and only if none of those that leave had two heap entries |
| `TxPools.TxPool.DemoteAccount` | core/tx_pool.go:1078-1115 | pending keeps the funded run if it starts at the state nonce; every other usable transaction returns to the queue; the rest leaves |
| `PoolMoves.DemotedIs` | core/tx_pool.go:1079-1109 | the three stages of demotion amount to that one rule |
| `PoolMoves.DemotionPartitions` | core/tx_pool.go:1079-1109 | what stays and what returns are exactly the usable transactions, each once |
| `PoolMoves.DemotionGapless` | core/tx_pool.go:1102-1109 | what stays pending is gapless from the state nonce if and only if the list had no hole among its funded transactions |
| `PoolCases.Hole` | core/tx_pool.go:351-430 | a run of the pool: nonces 5 and 6 are pending, two blocks are abandoned, the transaction with nonce 3 is reinjected and the one with nonce 4 turned away; 3, 5 and 6 end up pending and the virtual nonce is 7 |
| `TxPools.TxPool.DemoteUnexecutables` | core/tx_pool.go:1076-1116 | every account with pending transactions is demoted exactly and no other touched; heartbeats are forgotten for exactly the accounts left with none |
| `PoolFields.DemotedInFields` | core/tx_pool.go:1076-1116 | nonce by nonce: pending keeps the nonces from the state nonce up to the first that cannot be paid for, and none if the state nonce is missing; the executable rest is queued; virtual nonces stay |
| `TxPools.TxPool.SetVirtuals` | core/tx_pool.go:422-426 | the virtual nonce lies behind the last pending transaction; an account without any keeps its own |
| `PoolFields.RealignedInFields` | core/tx_pool.go:422-426 | the virtual nonce is one above the highest pending nonce, and as it was if nothing is pending |
| `TxPools.TxPool.Reset` | core/tx_pool.go:351-430 | the pool goes through exactly the steps of reset; the invariant holds at every new head; each reinjected transaction is answered and nothing is lost without cause, account by account; which accounts end in sync is stated exactly |
| `PoolFacts.ResetSynced` | core/tx_pool.go:400-430 | after a reset and its promotion an account is in sync if and only if its pending list had no hole when it was demoted and its virtual nonce had not fallen below the state nonce; truncation then keeps it so |
| `PoolFacts.ResetKeepsSync` | core/tx_pool.go:351-430 | an account that was in sync and sends no reinjected transaction ends in sync if and only if reinjection has not pushed its virtual nonce below the state nonce with nothing left pending |
| `PoolFacts.RoomyReset` | core/tx_pool.go:351-430 | that never happens while pool and reinjected transactions together do not exceed the pending limit, nor without reinjection |
| `PoolResets.ReinjectedReset` | core/tx_pool.go:351-430 | under that limit an account that was in sync ends in sync if and only if it is not the case that its state nonce fell below its pending transactions, the admissible reinjected ones begin at the state nonce and leave a gap before the first pending one, and the new state can pay for that or for a reinjected one that outbids it: a condition on the state before alone |
| `PoolCauses.ResetLoses` | core/tx_pool.go:351-430 | a reset loses a transaction only if the new state could not execute it, a limit leaves its account no room, or a reinjected one outbids it |
| `PoolCauses.ResetAnswers` | core/tx_pool.go:351-430 | each reinjected transaction is pooled, objectionable, squeezed out or contested |
| `PoolCases.Strand` | core/tx_pool.go:351-430 | a run of the pool: reinjection overfills pending, an outdated transaction of another account is cut, its virtual nonce falls below its state nonce, and its next transaction waits in the queue although nothing is missing before it |
| `PoolCases.Reentry` | core/tx_pool.go:311-325 | a run of the pool: of four transactions one is evicted and added again while its old heap entry is still there; raising the price then leaves the stale counter one too high |
| `TxPools.TxPool.Evict` | core/tx_pool.go:311-325 | exactly the queues of remote accounts without a heartbeat or beyond the lifetime are emptied; nothing else changes |
| `PoolFacts.EvictionRule` | core/tx_pool.go:311-325 | in every reachable state a remote queue outlives an eviction tick if and only if its account has pending transactions and the last of them was promoted within the lifetime |
| `TxPools.TxPool.Take` | core/tx_pool.go:280-325 | every step is exactly the step asked for and keeps the pool invariant; every step without reinjection keeps synchrony |
| `PoolRuns.Run` | core/tx_pool.go:261-345 | every run from a new pool, at any times, takes exactly its steps; at every point all is the disjoint union of pending and queue, no nonce is in both, no empty list is stored, remote transactions pay the floor, the state could execute every transaction and the pool is within its limit; without reinjection pending is [state nonce, virtual nonce) and every queued nonce is above it, at every point; if no transaction is given twice the stale counter is exact |
| `TxPools.TxPool.Status` | core/tx_pool.go:836-852 | looking pending up by nonce tells exactly where a transaction is |
| `TxPools.TxPool.Stats` | core/tx_pool.go:484-503 | the counts of pending and queued transactions add up to the size of the pool |
| `PoolLimits.SizeIsTotal` | core/tx_pool_test.go:91-99 | the size of the pool is pending plus queued in every shaped state |
| `PoolMoves.AllListsFit` | core/tx_pool.go:914-1116 | if every list fits the state, so does every pooled transaction |
| `Chains.StoreChild` | core/headerchain.go:140-153 | storing a child of a stored block keeps the tables closed under parents and each total difficulty exact |
| `Chains.AncestorOfAncestor` | core/headerchain.go:172-178 | ancestors of an ancestor are ancestors |
| `HeaderChains.HeaderChain.constructor` | core/headerchain.go:73-109 | from genesis alone all header invariants hold |
| `HeaderChains.HeaderChain.Reopened` | core/headerchain.go:73-109 | on an existing database the header of the head block becomes the head header; the chain is whole if and only if the tables are closed, that is the header recorded last, the canonical table is its ancestry and no header is heavier |
| `HeaderChains.HeaderChain.GetTd` | core/headerchain.go:312-325 | the cached answer is the table's |
| `HeaderChains.HeaderChain.GetHeader` | core/headerchain.go:346-358 | the cached answer is the table's, and always the header of that hash |
| `HeaderChains.HeaderChain.WriteTd` | core/headerchain.go:338-343 | exactly one total difficulty is written |
| `HeaderChains.HeaderChain.WriteHeader` | core/headerchain.go:134-195 | unknown parents are refused without effect; otherwise the header wins exactly if heavier, or as heavy and the coin says so; the canonical table is then its ancestry with nothing above; the head is the heaviest header and never gets lighter |
| `HeaderChains.HeaderChain.DeleteAbove` | core/headerchain.go:158-165 | the first loop ends and leaves no canonical number above the new head |
| `HeaderChains.HeaderChain.Reroute` | core/headerchain.go:166-178 | the second loop ends at the fork and leaves every number below the new head naming its ancestor |
| `HeaderChains.WalkDone` | core/headerchain.go:172-178 | meeting one right entry on the way down makes all below it right |
| `HeaderChains.CanonIsLinked` | core/headerchain.go:134-195 | the canonical table is a gap-free hash-linked chain from genesis to the head with nothing above |
| `HeaderChains.HeaderChain.SetHead` | core/headerchain.go:408-441 | rewinds to the ancestor at the height; exactly the canonical headers above are deleted; its whole ancestry stays stored; the caches agree with the tables; the chain is whole again if and only if no header left hangs from a deleted one and none left is heavier than the new head |
| `HeaderChains.Leftover` | core/headerchain.go:408-441 | a run of the header chain: rewinding deletes two canonical headers and leaves a third that hangs from one of them and is heavier than the new head |
| `HeaderChains.RewindClosed` | core/headerchain.go:408-441 | after a rewind the tables are closed under parents if and only if no remaining header hangs from a deleted one |
| `HeaderChains.HeaderChain.Run` | core/headerchain.go:134-195 | all header invariants hold over every run of WriteHeader, and the headers stored are exactly those that extend a known one when their turn comes |
| `HeaderChains.GatheredIs` | core/headerchain.go:134-195 | over a run of headers none is lost, none is stored that was not given, and each is stored whose parent is known when its turn comes |
| `TxIndex.IndexIsExact` | core/rawdb/accessors_indexes.go:45-60 | on a chain without repeated transactions the index maps exactly its transactions to exactly their places |
| `TxIndex.RelinkedIsIndex` | core/blockchain.go:1325-1340 | after a reorganisation the lookup table is the new chain's index if and only if no shared transaction is repeated on the old branch and missing from the new one |
| `TxIndex.ReorgIndex` | core/blockchain.go:1325-1340 | without repeats on the old chain it always is |
| `BlockChains.TxDifference` | core/types/transaction.go:279-294 | the transactions of the first list that are not in the second, in order |
| `BlockChains.BlockChain.constructor` | core/blockchain.go:396-421 | from genesis alone all chain invariants hold |
| `BlockChains.BlockChain.Insert` | core/blockchain.go:473-490 | the block is canonical at its number and the head; header head and fast head follow unless it was canonical already |
| `BlockChains.BlockChain.WriteTxLookupEntries` | core/rawdb/accessors_indexes.go:45-60 | the table gains exactly the block's entries |
| `BlockChains.BlockChain.Reduce` | core/blockchain.go:1273-1287 | walks a chain down to a height and collects the blocks passed with their transactions |
| `BlockChains.BlockChain.Fork` | core/blockchain.go:1273-1313 | finds the highest common ancestor and both branches above it; never runs out of blocks |
| `BlockChains.BlockChain.Adopt` | core/blockchain.go:1325-1333 | inserting a branch lowest first makes its ancestry canonical and writes exactly its entries |
| `BlockChains.BlockChain.Reorg` | core/blockchain.go:1246-1353 | canonical table and lookup index afterwards are those of the new block |
| `BlockChains.BlockChain.WriteBlockWithState` | core/blockchain.go:877-994 | stores the block and its total difficulty; it becomes the head exactly if it is heavier, or as heavy and lower, or as heavy at the same number and the coin falls for it; up to the head the canonical table is its ancestry and the lookup table its index; the head is the heaviest stored block and never gets lighter; header, fast and block heads stay the same block if difficulties are positive |
| `BlockChains.RewrittenHead` | core/blockchain.go:473-490 | a winning block that is already canonical at its number is the head itself |
| `BlockChains.BlockChain.WriteBlockWithoutState` | core/blockchain.go:864-874 | stores block and total difficulty; all chain invariants are kept if and only if the block is not heavier than the head |
| `BlockChains.BlockChain.ImportPruned` | core/blockchain.go:1094-1125 | a block on a pruned parent that is lighter than the head is stored unprocessed and nothing else changes; otherwise its ancestors without state are processed first, lowest first, and then the block, up to the first that proves invalid; a block reached becomes the head exactly if it is heavier, or as heavy and lower, or as heavy at the same number and the coin falls for it; all chain invariants are kept |
| `BlockChains.PrunedInFields` | core/blockchain.go:1094-1125 | the same in numbers and total difficulties, for every tree with exact total difficulties |
| `BlockChains.UnstatedIs` | core/blockchain.go:1107-1116 | the ancestors processed again lead without a gap from the parent down to one that has state |
| `BlockChains.BlockChain.GatherUnstated` | core/blockchain.go:1107-1116 | collects exactly the ancestors without state, in ascending order; never runs out of blocks |
| `BlockChains.BlockChain.Reinjection` | core/tx_pool.go:352-398 | a shallow move of the head reinjects exactly the transactions of the old chain that are not on the new one; a deep one or a plain extension none |
| `BlockChains.BlockChain.Run` | core/blockchain.go:877-994 | after every run of imports, stored blocks, total difficulties and head are those that the fork choice gives import by import; all chain invariants hold and the head never gets lighter |
| `BlockChains.RunStores` | core/blockchain.go:877-994 | over a run no block is lost, none is stored that was not given, and every processed block whose parent was stored by then is |
| `BlockChains.BlockChain.Describes` | core/blockchain.go:473-490 | the canonical numbers up to the head form a hash-linked chain, and a lookup entry exists exactly for each transaction of it, with its place |
| `Feeds.Find` | event/feed.go:213-220 | the first index of the channel, or -1 exactly if it is absent |
| `Feeds.DeleteCase` | event/feed.go:223-225 | exactly one case leaves, and every channel is listed as often as before but for that one |
| `Feeds.DeactivateCase` | event/feed.go:228-232 | the case moves from the prefix to the delivered part; nothing else moves between them |
| `Feeds.Feed.constructor` | event/feed.go:61-66 | an empty feed satisfies the invariant |
| `Feeds.Feed.Subscribe` | event/feed.go:73-93 | the subscription becomes live, also of a channel that is subscribed already, and is not yet known to a Send at work |
| `Feeds.Feed.RemoveNew` | event/feed.go:104-115 | a subscription in the inbox is gone at once; any other is in the cases and awaits removal |
| `Feeds.Feed.RemoveIdle` | event/feed.go:117-125 | with no Send in progress the case is found and removed |
| `Feeds.Feed.DeleteFound` | event/feed.go:120-123 | the index looked up is never -1 and never the removal case; cases and inbox together stay the live subscriptions |
| `Feeds.Feed.Collect` | event/feed.go:133-154 | the audience of a Send is everyone subscribed when it collects the inbox |
| `Feeds.Feed.Deliver` | event/feed.go:159-181 | a delivery goes to a subscriber still to be served, and is counted |
| `Feeds.Feed.Try` | event/feed.go:155-190 | in each round every subscriber still to be served is tried once, served if its channel is ready; at the end Send selects if somebody is left and returns otherwise, with exactly the number delivered |
| `Feeds.Feed.Choose` | event/feed.go:170-181 | the select serves any one of those still waited for and starts a new round with the rest |
| `Feeds.Feed.SelectRemove` | event/feed.go:170-177 | a removal during Send drops the subscriber if it has not had the value, and otherwise changes nothing that was delivered |
| `Feeds.Run` | event/feed.go:73-190 | over every interleaving the cases, inbox and prefix stand for a feed that takes exactly these steps; each Send delivers exactly once for every subscription of its audience not removed before its turn, and the numbers returned are the numbers of deliveries |
| `Feeds.AudienceWasLive` | event/feed.go:128-190 | at any point of a run every Send that has begun has returned but for the one at work; its audience was every subscription there was when it collected the inbox; and it left out each channel exactly as often as a request to leave was taken while it waited for that channel |
| `ChainIndexers.ChainIndexer.constructor` | core/chain_indexer.go:94-111 | a fresh index satisfies the invariant |
| `ChainIndexers.ChainIndexer.SetValidSections` | core/chain_indexer.go:406-418 | exactly the heads of sections below the count remain |
| `ChainIndexers.ChainIndexer.NewHead` | core/chain_indexer.go:222-261 | a reorganisation invalidates the section of the common ancestor and all later ones, and undercuts the section in flight exactly if it reaches below it; otherwise the known sections grow to exactly the whole sections that are confirmed |
| `ChainIndexers.ChainIndexer.Begin` | core/chain_indexer.go:278-297 | takes up the first section that is not stored, if it is known |
| `ChainIndexers.ChainIndexer.ResetFailed` | core/chain_indexer.go:347-350 | a backend that cannot be reset starts to give up all sections |
| `ChainIndexers.ChainIndexer.DropSection` | core/chain_indexer.go:406-418 | one iteration of giving up, with head notifications in between: the highest section goes and the others stay linked; none left ends it |
| `ChainIndexers.ChainIndexer.Process` | core/chain_indexer.go:352-364 | a header is accepted exactly if it exists and links to the one before |
| `ChainIndexers.ChainIndexer.Finish` | core/chain_indexer.go:302-322 | the section is stored exactly if processing succeeded and no reorganisation reached below it |
| `ChainIndexers.ChainIndexer.Undercut` | core/chain_indexer.go:305 | comparing the head of the section before detects exactly those reorganisations, also for section 0 |
| `ChainIndexers.OneChain` | core/chain_indexer.go:342-371 | all stored section heads lie on the one parent-linked chain of storedSections*sectionSize headers |
| `ChainIndexers.Run` | core/chain_indexer.go:222-336 | every interleaving takes exactly its steps; at every point section heads exist exactly for the stored sections and are linked |
| `ChainIndexers.StoredIffUndisturbed` | core/chain_indexer.go:278-322 | at any point of a run a section processed to its end is stored if and only if no reorganisation has reached below it since it was taken up |
| `ChainIndexers.SectionsConfirmed` | core/chain_indexer.go:222-322 | at any point of a run of a new indexer no section is known, processed or stored before a head is announced that has the required number of headers on top of it |
| `ChainIndexers.SectionsCanonical` | core/chain_indexer.go:222-371 | at any point of a run every stored section head is on the canonical chain, provided that no reorganisation reaches into a section after its last header was read and before it is stored |
| `ChainIndexers.LateIsStale` | core/chain_indexer.go:302-322 | after one that does and replaces that header, the section is stored with a head that is not on the chain |
| `ChainIndexers.Stale` | core/chain_indexer.go:222-322 | a run of the indexer in which this happens |
| `RandSelect.WrsNode.constructor` | les/randselect.go:38-40 | an empty node of the given capacity |
| `RandSelect.WrsNode.Over` | les/randselect.go:64-68 | a new root keeps every slot at its index and adds only free ones |
| `RandSelect.WrsNode.Insert` | les/randselect.go:107-131 | the item takes the leftmost free slot of the whole tree, whose index is returned; sums and counts stay exact at every level; never panics below capacity |
| `RandSelect.WrsNode.SetWeight` | les/randselect.go:135-156 | exactly the slot at the index is reweighed or freed, and the change is returned |
| `RandSelect.WrsNode.Choose` | les/randselect.go:159-170 | selects the slot on which a flat prefix-sum scan of all slots would fall; never panics |
| `WeightedSlots.DrawsPerItem` | les/randselect.go:84-85 | of the draws below the total weight exactly as many select a slot as its item weighs |
| `WeightedSlots.PickExists` | les/randselect.go:159-170 | every draw below the total weight falls on a slot |
| `WeightedSlots.PickUnique` | les/randselect.go:159-170 | and on no other |
| `RandSelect.WeightedRandomSelect.constructor` | les/randselect.go:38-40 | an empty selection |
| `RandSelect.WeightedRandomSelect.SetWeight` | les/randselect.go:54-75 | exactly one item's weight changes, appears or disappears; all other items keep weight and index, also when the tree grows; the total changes by just that |
| `RandSelect.WeightedRandomSelect.Grow` | les/randselect.go:63-69 | adding a level keeps every item and makes room |
| `RandSelect.WeightedRandomSelect.Choose` | les/randselect.go:79-94 | terminates, the total weight being the measure; returns an item at its current positive weight, or none exactly when the set is used up; other weights are only brought up to date |
| `GasAccounting.IntrinsicGas` | core/state_transition.go:79-109 | the exact sum of base price and byte prices, or an error exactly if that exceeds a uint64 |
| `GasAccounting.CostInNumbers` | core/state_transition.go:79-109 | 21000, or 53000 for a creation, plus 68 for each non-zero byte and 4 for each zero byte |
| `StateTransitions.GasPool.AddGas` | core/gaspool.go:29-35 | adds exactly the amount; callers prove that it cannot overflow |
| `StateTransitions.GasPool.SubGas` | core/gaspool.go:39-45 | deducts exactly if there is enough |
| `StateTransitions.WealthCredit` | core/state_transition.go:163 | a credit changes the sum of all balances by the amount |
| `StateTransitions.Charged` | core/state_transition.go:230-236 | the gas charged is what was used less the refund counter, or less half of it if the counter is higher |
| `StateTransitions.StateTransition.UseGas` | core/state_transition.go:143-150 | deducts exactly if there is enough |
| `StateTransitions.StateTransition.BuyGas` | core/state_transition.go:152-165 | the whole limit is paid for and taken from the pool, or nothing changes |
| `StateTransitions.StateTransition.PreCheck` | core/state_transition.go:167-178 | each error exactly when its own check is the first to fail, in nonces, balance and pool gas; otherwise the whole limit is bought; a message that skips the nonce check is not refused for its nonce |
| `StateTransitions.StateTransition.RefundGas` | core/state_transition.go:230-245 | the sender gets back what is left plus the capped refund, the pool as much gas, in numbers; never overflows |
| `StateTransitions.StateTransition.Execute` | core/state_transition.go:192-225 | intrinsic gas is paid, then the machine runs on the rest; it runs on a world in which, for a call, the sender's nonce is one higher and, for a creation, no nonce has changed; every other nonce, balance and the refund are as before |
| `StateTransitions.StateTransition.TransitionDb` | core/state_transition.go:183-228 | fails for exactly the stated reasons; otherwise the pool loses just the gas used, sender and coinbase settle to it, every other balance and all nonces are the machine's, the sum of balances is unchanged, and at least half the intrinsic gas is charged |
| `StateProcessors.StateProcessor.ApplyTransaction` | core/state_processor.go:88-126 | fails for exactly the stated reasons; otherwise state, pool and receipt are those of the block extended by the transaction, field by field, the receipt marked failed exactly if the machine was; it uses a positive amount of gas; balances are conserved |
| `StateProcessors.StateProcessor.Process` | core/state_processor.go:56-82 | state, pool and receipts are those of the whole block, or the error is the first objection to one of its transactions; on success pool gas plus used gas is the gas limit, the sum of balances is unchanged, and the receipts account for all gas used; with a machine that never lowers a nonce the calls of one sender have rising nonces |
| `StateProcessors.InvalidPrefix` | core/state_processor.go:70-76 | the first objection decides: whatever follows it, the block is invalid for that reason |
| `StateProcessors.NonceUsedUp` | core/state_transition.go:167-221 | an accepted call leaves its sender's nonce above the transaction's, if the machine never lowers a nonce; so does a creation if the machine counts it |
| `StateProcessors.NeverReplayed` | core/state_processor.go:56-82 | of two transactions of one sender in an accepted block, the earlier a call, the later has the higher nonce, for every machine that conserves the sum of balances and never lowers a nonce; so no call occurs twice, nor a creation if the machine counts it |
| `StateProcessors.CumulativeIncreases` | core/state_processor.go:110-116 | cumulative gas strictly increases from receipt to receipt |
| `StateProcessors.SetReceiptsData` | core/blockchain.go:737-772 | an error exactly on a count mismatch; otherwise, for every receipt, the transaction's hash, the contract of a creation, and as gas used the growth of the cumulative gas modulo 2^64; status and cumulative gas are kept |
| `StateProcessors.DerivedIsOriginal` | core/blockchain.go:745-760 | each derived receipt is the processed one |
| `StateProcessors.Recover` | core/blockchain.go:737-772 | a processed block's receipts are recovered in full from their consensus fields |
| `Distributors.Distributor.constructor` | les/distributor.go:74-86 | an empty queue satisfies the invariant |
| `Distributors.Distributor.Queue` | les/distributor.go:233-259 | the queue stays sorted by creation order; a new request gets the next number and a resent one its old place |
| `Distributors.Distributor.Cancel` | les/distributor.go:265-276 | removes the request and nothing else, or reports that it is gone already or was never queued |
| `Distributors.Distributor.Remove` | les/distributor.go:279-285 | exactly the request leaves the queue |
| `Distributors.FirstIsFirst` | les/distributor.go:194-213 | the request offered to a peer is the earliest that it can serve |
| `Distributors.Distributor.ScanQueue` | les/distributor.go:191-220 | every peer is offered its earliest request; exactly the leading requests that no peer can serve are dropped |
| `Distributors.Distributor.NextRequest` | les/distributor.go:178-227 | pairs a peer with the earliest request it can serve such that nobody could send its own sooner; what is returned is still queued |
| `Distributors.VerdictInFields` | les/distributor.go:178-227 | the same in the peers' own answers: the pair returned is a peer that accepts requests with the first it can serve, nobody else's first could be sent sooner, and nothing is returned only if no peer can serve any |
| `Distributors.Decide` | les/distributor.go:222-226 | a draw among the ready peers, or the one with the shortest wait |
| `Distributors.Distributor.Distribute` | les/distributor.go:130-158 | just the leading requests are dropped that no peer accepts and can serve; besides these a request leaves the queue exactly when its peer can take it now, and it is the earliest that this peer accepts and can serve; otherwise every peer has to wait for its earliest one |

## Left out

- TxPools.TxPool: holds its account lists by value; the list objects are modelled by `TxLists.TxList`, whose value is the same `AccountList`, so that update in place and sharing of a list object between the pool's maps are not captured.
- BinaryHeap: `container/heap` is modelled on sequences by value; that the callers' slices are changed in place is not captured.
- TxPools.TxPool: nonces are unbounded, so a wrap-around of a nonce beyond 2^64-1 is not modelled, and AccountSlots is taken to be at least one, since with zero slots the code would store empty pending lists.
- TxPools.TxPool.Reset: takes the reinjected transactions as a parameter; `BlockChains.BlockChain.Reinjection` states which ones the walk over abandoned blocks collects.
- PoolFacts.ResetSynced: its condition speaks of the pool between reinjection and demotion, as does that of `PoolFacts.ResetKeepsSync`, because which of several equally cheap transactions a full pool discards is not determined by what it held before; `PoolResets.ReinjectedReset` gives the exact condition on the state before while no limit is met.
- Journals, metrics, logging, event feeds of the pool and the chain, timers and goroutine start and stop: plumbing without effect on the invariants.
- The float32 priorities of the spammer queue are compared as integers; the order of map iteration is arbitrary throughout.
- Hashes have no collisions, and a signature either yields the sender or none.
- HeaderChains.HeaderChain: the least-recently-used caches may forget any entry at any addition; a number of zero stands for the wrapped parent number of genesis, for which no parent is found.
- HeaderChains.HeaderChain.SetHead: does not model the deletion callback for block bodies.
- BlockChains.BlockChain: state commits, receipts, logs, trie garbage collection and database errors are not modelled, so that the properties are those of runs without such errors; the header and body caches are not modelled here.
- BlockChains.BlockChain.ImportPruned: which blocks lack state, the first block not being one of them, and how many can be processed are parameters.
- Fast sync, InsertReceiptChain, Rollback and repair: mixed modes that weaken the canonical invariants without adding a cleaner property.
- Feeds.Feed.Subscribe: type checks are not modelled.
- Feeds.Run: states safety only; that a blocked Send goes on once its receivers do is not stated.
- ChainIndexers.ChainIndexer.DropSection: takes one iteration of the unlocked loop as one step, so that races between single memory accesses are not captured; child indexers and AddKnownSectionHead are not modelled.
- ChainIndexers.SectionsCanonical: takes each change of the chain together with its notification.
- RandSelect.WeightedRandomSelect: item weights are not negative and sums do not overflow an int64.
- Distributors.Distributor: the answers of peers are fixed during one call of nextRequest, and the buffer share behind a weight is any positive number.
- StateTransitions.StateTransition: the virtual machine is any function that returns no more gas than it was given and conserves the sum of balances; contract code, storage, self-destruction and logs are inside it.
- StateProcessors.StateProcessor.Process: block rewards (Finalize), the DAO fork and intermediate state roots are not modelled.
- StateProcessors.SetReceiptsData: log fields are not modelled.
- EVM, trie, RLP, signatures, consensus engines, LevelDB, RPC, console, dashboard, accounts and the remaining les and bmt packages: foreign, thin or without a run invariant of their own.
