# A verified model of the ledger's reserve / commit / fold protocol

The system runs a block of transactions in parallel against a ledger snapshot.
Each transaction produces typed deltas. The deltas are reserved on shared
objects, then committed or reverted, and at the end of the block every object
folds its committed deltas into a new value. This project models that protocol
in Dafny, from the single atomic instruction up to whole runs of blocks, and
proves what the layers promise each other.

## How the model is built

| files | what they model |
|---|---|
| `StorageTypes`, `HashSets` | stored values, typed deltas, machine integer ranges; the sorted entry list and its binary-search truncation |
| `Objects`, `ObjectInvariant`, `ObjectRounds` | one shared object; every client step is one atomic operation; the invariant of every interleaving; the end of a round |
| `Folds`, `Schedules`, `Exactness` | the meaning of a set of committed deltas, said without the accounting; independence from order and schedule, and the exact condition for it |
| `Reservations` | whole operations as the undisturbed sequence of their steps; the object as a class with its fields updated in place |
| `SlotTags`, `SlotProtocol`, `SlotWraps`, `SlotRuns` | the lock-free slot: tag word, separately stored class, compare-exchange loops, the state after its eight-bit count has wrapped, and its refinement of the simple slot used by `Objects` |
| `TableProtocol`, `TableRuns`, `AtomicSets`, `HashAllocators` | the concurrent open-addressing table with tombstones, its refinement of the set used by `Objects`, the in-place class, and the packed indices its cells hold |
| `SplitCounter` | the 128-bit counter in two words |
| `Proxies`, `LocalViews`, `ProxyApplicators` | the transaction-local view of a key, the deltas it pushes, their agreement with the commit, and the in-place class |
| `Database`, `DatabaseInvariant`, `DatabaseRuns`, `Ledger`, `Guarantees`, `StateDbs` | the two-tier store, transactions that push and then commit or give back, accepted and rejected blocks, whole runs, and the plain map all of it refines |
| `BlockValidation`, `Capacities`, `StoredSets`, `StaleCells` | a validator that replays a proposed block in any interleaving; what every run guarantees about the size of a table, and a run that uses all of it up |
| `Jams`, `Progress`, `TxRuns`, `Orders`, `Rollbacks`, `LargeBlocks` | progress: transactions that wait for a wrapped slot, blocks that never end because of it, and exactly which transactions, orders and rollbacks come to their end |
| `Replay`, `Erc20`, `TokenRuns` | two users of the guarantees: the replay cache and the token contract, over whole runs |
| `Limits`, `ModificationIndex`, `SquareRoots` | admission limits of block assembly, the modification index, the integer square root |

A run of the database is any sequence of actions: submit a transaction, start
its next delta, let one client perform one atomic operation, abandon, decide,
commit or revert, conclude, accept the block or undo it. Every statement about
runs is for all such sequences from the empty database.

Where the code and its own commentary differ, the model follows the code:

- The slot counts its reservations in eight bits. The 256th wraps the count to
  zero, so that the tag looks empty beside a class that is still set; every call that
  needs the slot, to reserve it or to give a reservation back, then takes the
  read for a torn one and tries again (object/revertable_object.cc:155-162,
  217-224) until a holder commits (`SpinsUntilCommit`, `ReturnsUnlessWrapped`).
  A transaction reserves all its deltas before it commits any
  (storage_proxy/storage_proxy.cc:198-221), so it can wait for itself: by itself
  it succeeds exactly when every slot that it reserves more than 256 times is
  final when it starts (`AloneExactly`), an order of a block can be executed one
  transaction after the other exactly when each such transaction comes after
  somebody who made the slot final (`OrderExactly`), and every order can be
  exactly when there is no such transaction (`EveryOrderExactly`). Otherwise the
  block never ends, whatever else happens (`JamIsForever`). `OrderDecides` is a
  reachable database and a block of two transactions that succeeds in one order
  and jams in the other. A rollback ends exactly when none of the slots it holds
  is wrapped (`RollbackExactly`).
- Inserts pass over tombstones (hash_set/atomic_set.cc:82-110) although a
  comment there allows overwriting them. A set of deltas is therefore accepted
  under every schedule exactly when it fits the object, the table has a cell
  that is not dead for every insert, and at most 256 of the deltas reserve the
  slot (`AcceptsAllExactly`). Without dead cells the second part follows from
  the first in every state reached without raising a limit past 32 bits within
  a block (`ReachableCapacity`, `NoTombstonesMeansRoom`), and
  `StaleTombstonesRefuse` is a run of the database, of one block that stores a
  set and one whose transactions all fail, after which the empty set refuses
  every insert.
- The request for table cells is cut down to 32 bits
  (hash_set/atomic_set.cc:34-37), so a block that raises a limit past them can
  leave a table smaller than the limit (`LargeRaiseIsLost`); `RoundCapacity`
  states exactly when.
- Two clients of block assembly keep a transaction slot they do not use: one
  that draws gas when none is left (block_assembly/limits.cc:36-40) and one
  that drops a reservation of zero gas (block_assembly/limits.h:66-72).
  `SlotsComeBackUnlessLeaked` states that nothing else is lost, and
  `BothLeaksHappen` shows each of them.
- A clear inside a transaction frees room locally that the shared object does
  not credit; `LocalViewAgrees` states the exact condition for acceptance and
  `ClearedRoomIsNotCredited` is the witness.
- A debit of an asset can be refused before a credit commits and accepted after
  it (`AssetOrderMatters`). Order does not matter exactly when all debits
  together are covered by the stored amount and all credits together fit
  (`AssetsFit`, part of the condition in `AcceptsAllExactly`).
- The index key of a raw memory write holds only a digest, so two writes that
  share one share a node; `SavedExactlyOnce` states that the saved log is
  complete if and only if no two logged writes do.
- The square root divides by zero for the last four products whose half fits a
  64-bit word, and for no smaller one (`SafeExactlyBelow`). The contract
  multiplies two 64-bit amounts before widening (cpp_contracts/cfmm.cc:301,
  315, 343), so what it passes stays below that as long as the signed 64-bit
  product does not overflow.

## Model

| member | source | states |
|---|---|---|
| `HashSets.AboveIsStrictTotal` | object/comparators.cc:24-34 | the order on entries, by index and then hash, is a strict total order |
| `HashSets.SortDistinct` | hash_set/utils.h:27-31 | normalising a duplicate-free list orders it strictly descending and permutes it |
| `HashSets.DescendingIsUnique` | hash_set/utils.h:27-31 | a normalised list is determined by the entries it holds |
| `HashSets.ClearHashes` | hash_set/utils.h:34-70 | the binary-search truncation returns exactly what the commented linear filter keeps |
| `ObjectInvariant.StepKeepsInv` | object/revertable_object.cc:283-610 | every atomic step of every client, in every interleaving, keeps the whole accounting: slot count and agreement, subtracted and added totals, element count and limit, table contents, clear and delete flags, asset bounds |
| `ObjectRounds.CommitRoundFolds` | object/revertable_object.cc:674-764 | the end of an accepted round stores the fold of exactly the committed deltas, and the stored value is well formed again |
| `ObjectRounds.FoldIntExact` | object/revertable_object.cc:699-714 | the folded integer is min(INT64_MAX, base + all deltas), also when the 128-bit sum is capped and the base is INT64_MIN |
| `ObjectRounds.HashRoundFolds` | object/revertable_object.cc:718-749 | after the round the set is old plus committed inserts above the largest committed clear, strictly descending and within its limit |
| `ObjectRounds.AssetRoundFolds` | object/revertable_object.cc:750-757 | at the end of a round the two asset bounds are equal and hold the sum |
| `ObjectRounds.CommitRoundIsClean` | object/revertable_object.cc:647-696 | when an accepted round leaves the object without reservations: always, except for a deleted asset with a nonzero amount |
| `ObjectRounds.RewindRoundIsClean` | object/revertable_object.cc:766-772 | a rejected round leaves the old value and no reservation |
| `Folds.FoldIsUnique` | object/revertable_object.cc:674-764 | the fold depends on the committed deltas only as a multiset |
| `Schedules.NeverRefused` | object/revertable_object.cc:283-437 | when the deltas of an object fit together and have their table cells, no step of any of them is refused, whatever ran before it; a step on a wrapped slot waits |
| `Schedules.EveryScheduleAccepts` | object/revertable_object.cc:283-610 | deltas that fit together and have their table cells are never refused under any schedule; that nobody waits either is the third part of `AcceptsAllExactly` |
| `Exactness.AcceptsAllExactly` | object/revertable_object.cc:283-610 | no schedule on an untouched object refuses anybody or makes anybody wait if and only if the deltas fit together, asset debits and credits each on their own, the table has a cell that is not dead for every insert, and at most 256 deltas reserve the slot |
| `Exactness.ReservedFit` | object/revertable_object.cc:283-437 | deltas that are all reserved at once fit the object and have their cells |
| `Exactness.ReservedWithinCount` | object/revertable_object.cc:87-115 | deltas that are all reserved at once are at most 256 that reserve the slot |
| `Schedules.SchedulesAgree` | object/revertable_object.cc:674-764 | two schedules of the same deltas store the same value |
| `Schedules.CommittedFit` | object/revertable_object.cc:283-437 | what a finished round committed fits the object it was committed to, under every order, exactly when its asset debits and credits do |
| `Schedules.CommittedHadCells` | hash_set/atomic_set.cc:60-111 | whatever was committed found a table cell next to the dead ones |
| `Schedules.NoTombstonesMeansRoom` | hash_set/atomic_set.cc:34-49 | in a table at least as large as the limit and without dead cells, inserts that fit the set find their cells |
| `Capacities.ReachableCapacity` | object/revertable_object.cc:718-731 | in every state of a run in which no accepted block raises a limit past 32 bits, the table of a set, or of a key without a value, is at least as large as the limit |
| `ObjectRounds.RoundCapacity` | object/revertable_object.cc:718-731 | an accepted round keeps the table as large as the limit if and only if limit plus raises fit 32 bits, or the cells then requested suffice for the largest limit |
| `ObjectRounds.LargeRaiseIsLost` | hash_set/atomic_set.cc:34-49 | 65,537 raises of 65,535 in one round leave the limit at its maximum and the table at its first size |
| `Schedules.ValidatorAgrees` | vm/validate_reduce.h:39-62 | a validator with cells for the inserts that replays exactly the committed deltas, in any order and schedule, refuses none, and once all have finished stores the proposer's value, provided the asset debits and credits fit on their own |
| `StaleCells.FullTableRefuses` | hash_set/atomic_set.cc:60-111 | an insert that fits an untouched set is refused exactly when no cell is left for it |
| `StaleCells.FailuresUseUpCells` | hash_set/atomic_set.cc:82-110 | from the start of any block, transactions that all fail bring a stored set with room to refuse every further insert, and change nothing else |
| `StaleCells.StaleTombstonesRefuse` | hash_set/atomic_set.cc:82-110 | a run from the empty database after which an empty set with limit 64 refuses an insert that fits it |
| `Schedules.AssetOrderMatters` | object/revertable_object.cc:411-437 | a debit refused before a credit commits is accepted after it; the pair does not fit in every order |
| `Reservations.ReserveIsSolo` | object/revertable_object.cc:283-443 | reserving a delta undisturbed is exactly the sequence of its atomic steps, also when it never returns because the slot is wrapped or its own reservation wraps it and then fails |
| `Reservations.RevertIsSolo` | object/revertable_object.cc:508-610 | so is reverting a handle, which gives the accounting back and then, unless the slot is wrapped, the slot |
| `Reservations.CommitIsSolo` | object/revertable_object.cc:445-506 | so is committing a handle |
| `Reservations.RefusedChangesNothing` | object/revertable_object.cc:283-443 | a refused delta leaves the object as it was, and the exact condition for a call that spins |
| `Reservations.RevertUndoesReserve` | object/revertable_object.cc:508-610 | reverting a reservation restores the object, but for one dead table cell after an insert, unless it was the 256th of a slot that is not final |
| `Reservations.RevertableObject.TryAddDelta` | object/revertable_object.cc:283-443 | the method's new fields and its outcome, with a handle, without or spinning, are those of the specified reservation |
| `Reservations.RevertableObject.CommitDelta` | object/revertable_object.cc:445-506 | the fields updated in place are those of `CommitHandle`, which `CommitIsSolo` proves to be the atomic steps of an undisturbed commit |
| `Reservations.RevertableObject.RevertDelta` | object/revertable_object.cc:508-561 | the fields updated in place are those of `RevertHandle`, which `RevertIsSolo` proves to be the atomic steps of a revert and `RevertUndoesReserve` to undo the reservation; it says whether the revert returns |
| `Reservations.RevertableObject.FinishRound` | object/revertable_object.cc:674-764 | the method's new fields are those of the specified round end, with the binary-search clear |
| `Reservations.RevertableObject.Rewind` | object/revertable_object.cc:766-772 | the fields updated in place are those of the rewound round, which `RewindRoundIsClean` proves to keep the value and no reservation |
| `SlotTags.ReservationOverflows` | object/revertable_object.cc:87-115 | a reservation makes the slot look empty exactly when 255 are already outstanding |
| `SlotProtocol.DrawnIsNew` | threadlocal/uid.h:27-51 | an id drawn by a thread was never issued by any thread, and fits 48 bits |
| `SlotProtocol.StepKeepsInv` | object/revertable_object.cc:140-242 | every atomic instruction of every client keeps the slot consistent, except the reservation that wraps the count |
| `SlotWraps.WrapStep` | object/revertable_object.cc:184-198 | that reservation leads to a slot with 256 reservations outstanding whose tag, of a value never seen, looks empty beside its pointer |
| `SlotWraps.StepKeepsWide` | object/revertable_object.cc:140-242 | every instruction on such a slot keeps it so, or finalizes it with all its holders in agreement |
| `SlotRuns.SlotIsSafe` | object/revertable_object.cc:35-242 | in every run: an unfinalized tag counts the live handles modulo 256, of which there are never more than 256; null and zero low bits coincide unless the one pending store is due or the count has wrapped; no tag value returns, all holders agree, and a refusal names another client's different value |
| `SlotRuns.FrozenOnceFinal` | object/revertable_object.cc:202-242 | a finalized slot never changes, and while a store is pending no other client changes tag or pointer |
| `SlotRuns.StepRefines` | object/revertable_object.cc:140-242 | every step, before and after the count wraps, is one operation of the simple slot with the result its caller gets, or none; no call gets a result from a wrapped slot; ids may be drawn for other slots in between |
| `SlotRuns.RefusalsRefine` | object/revertable_object.cc:140-200 | whenever a call is refused, the simple slot refuses it at some moment between the call's load of the tag and its decision |
| `SlotRuns.SpinsUntilCommit` | object/revertable_object.cc:150-162 | whatever happens to a wrapped slot, short of a commit by a holder, leaves tag, pointer and holders alone, and every call that looks at it stays in its loop |
| `SlotRuns.ReturnsUnlessWrapped` | object/revertable_object.cc:150-242 | a call left alone at the top of its loop leaves it if and only if the slot is final or has fewer than 256 reservations outstanding |
| `SlotRuns.AgreeingClientsAreServed` | object/revertable_object.cc:140-200 | clients that all ask for one admissible class are never refused in any run |
| `TableProtocol.StepKeepsInv` | hash_set/atomic_set.cc:60-151 | every atomic instruction of every insert and erase keeps the table consistent |
| `TableRuns.TableIsSafe` | hash_set/atomic_set.cc:60-165 | in every run: no entry is live twice, no empty cell precedes an entry on its path, no erasure throws, and the contents are exactly inserted minus erased |
| `TableRuns.StepRefines` | hash_set/atomic_set.cc:60-151 | every call succeeds, fails or erases exactly as the set with its dead cells says at that moment |
| `AtomicSets.AtomicSet.TryInsert` | hash_set/atomic_set.cc:60-111 | undisturbed, the probe loop inserts unless the entry is present or no cell is empty, and says which |
| `AtomicSets.AtomicSet.Erase` | hash_set/atomic_set.cc:113-151 | undisturbed, the probe loop erases a present entry and throws only for an absent one |
| `AtomicSets.FindFree` | hash_set/atomic_set.cc:77-110 | the probe ends at the first empty cell of the path, or proves the entry present or the table full |
| `AtomicSets.FindEntry` | hash_set/atomic_set.cc:120-150 | the probe finds an entry exactly when it is stored |
| `AtomicSets.AtomicSet.Clear` | hash_set/atomic_set.cc:51-58 | clearing empties every cell and keeps the capacity |
| `AtomicSets.AtomicSet.Resize` | hash_set/atomic_set.cc:34-49 | a larger request replaces the cells and empties the table, a smaller one is ignored |
| `AtomicSets.AtomicSet.GetHashes` | hash_set/atomic_set.cc:153-165 | the listing holds every live entry exactly once |
| `HashAllocators.PackRoundTrips` | threadlocal/allocator.h:30-58 | thread and offset are recovered from a packed index, which is never zero or the tombstone |
| `HashAllocators.HashAllocator.Allocate` | threadlocal/allocator.h:47-87 | a new index was not in use, reads back its entry, and disturbs no index in use |
| `HashAllocators.HashAllocator.Reset` | threadlocal/allocator.h:103-113 | after a reset no index is in use |
| `SplitCounter.StepKeepsExact` | utils/atomic_uint128.h:34-52 | the two words plus pending carries and borrows equal the running sum modulo 2^128, after every step of every interleaving |
| `SplitCounter.CappedReadIsExact` | utils/atomic_uint128.h:34-62 | with nothing pending and a sum in range, the capped read is min(sum, UINT64_MAX) |
| `Proxies.CombineNeverThrows` | storage_proxy/proxy_applicator.cc:62-127 | no input reaches the exception on a malformed base |
| `Proxies.CombineKeepsNonnegative` | storage_proxy/proxy_applicator.cc:62-127 | a combined debit stays covered by its set value, and the value shown is min(INT64_MAX, base + delta) |
| `LocalViews.LocalViewAgrees` | storage_proxy/proxy_applicator.cc:173-380 | for every accepted sequence of writes, the pushed deltas fit the value exactly when there is room for the new entries, and fold to the local view with the raised limit |
| `LocalViews.PushedAloneCommits` | storage_proxy/proxy_applicator.cc:335-380 | pushed alone under any schedule to an object with cells for the inserts, the deltas are not refused unless an insert followed a clear and room is missing, and once all have finished they commit the local view |
| `LocalViews.PushedAloneServed` | storage_proxy/proxy_applicator.cc:335-380 | pushed alone they are accepted under every schedule, nobody refused and nobody kept waiting, if and only if there is room, a cell for each insert, and the new entries with the limit raise and the clear number at most 256 |
| `LocalViews.CommittedHadRoom` | object/revertable_object.cc:368-390 | conversely, no round that committed those deltas lacked the room |
| `LocalViews.ClearedRoomIsNotCredited` | storage_proxy/proxy_applicator.cc:233-282 | a full set, cleared and refilled locally, does not fit the shared object |
| `ProxyApplicators.ProxyApplicator.TryApply` | storage_proxy/proxy_applicator.cc:173-316 | an accepted write updates the fields as specified; a refused one records nothing, though it may create an empty object in view |
| `ProxyApplicators.ProxyApplicator.TryInsert` | storage_proxy/proxy_applicator.cc:233-259 | the scan refuses duplicates, a full view and entries below the local clear |
| `ProxyApplicators.CollectDeltas` | storage_proxy/proxy_applicator.cc:335-380 | the appending code produces the specified compressed deltas |
| `DatabaseRuns.ApplyKeepsInv` | state_db/state_db.cc:71-239 | every action keeps the invariant of the whole database |
| `DatabaseRuns.RunKeepsInv` | vm/base_vm.cc:99-122 | so does every run |
| `Ledger.CommittedAreSucceeded` | transaction_context/execution_context.cc:170-190 | what the objects committed is, as a multiset, what the successful transactions wrote |
| `Ledger.AcceptedBlockFolds` | state_db/state_db.cc:94-186 | an accepted block turns every key into the fold of the writes of its successful transactions |
| `Ledger.RunRefinesLedger` | phase/phases.cc:35-62 | in every run each action is a step of a plain map: an accepted block folds, everything else, a rejected block included, changes no stored value |
| `Ledger.NoDanglingEntries` | threadlocal/threadlocal_context.h:103-119 | when a block ends, accepted or not, no table of the database holds an entry |
| `Ledger.FailedLeavesNothing` | storage_proxy/transaction_rewind.h:31-58 | every object accounts for the clients as if a transaction whose rollback has ended had not started |
| `Ledger.SucceededIsComplete` | storage_proxy/storage_proxy.cc:198-221 | a successful transaction has committed every one of its writes |
| `Guarantees.AccountingIsDetermined` | object/revertable_object.h:109-140 | clients and stored value determine an object's counters, contents, flags and slot |
| `Guarantees.FailedAsIfNeverRun` | transaction_context/transaction_context.cc:152-168 | once a failed transaction's rollback has ended, every object has the counters, contents, flags and slot it would have without the transaction |
| `Rollbacks.RollbackExactly` | object/revertable_object.cc:202-242 | by its own steps a transaction that gives up ends its rollback if and only if it holds no reservation of a wrapped slot |
| `Guarantees.ReachableBounds` | object/revertable_object.cc:291-437 | in every reachable state debits are covered and vanish with the slot, and 0 <= available <= upper bound <= UINT64_MAX with both bounds spelled out |
| `Guarantees.ReachableRoom` | object/revertable_object.cc:359-410 | in every reachable state the stored entries and the accepted inserts fit the limit |
| `BlockValidation.NothingFails` | vm/validate_reduce.h:39-62 | a validator with the same values and cells for the block's inserts that executes only transactions of the proposed block, in any order and interleaving, never has a delta refused or a transaction fail, provided asset debits and credits fit on their own; a transaction may have to wait |
| `BlockValidation.BlockValidates` | vm/base_vm.cc:99-122 | when it has executed the whole block, accepting it stores the proposer's value under every key; when it can is `OrderExactly` and `LightBlockConcludes` |
| `BlockValidation.NoTombstonesReady` | vm/validate_reduce.h:39-62 | after any run in which no accepted block raised a limit past 32 bits, a validator with the proposer's values and no dead cells is ready for the block |
| `BlockValidation.ExecutedHadCells` | vm/validate_reduce.h:39-62 | no node has put a block into effect without a cell for each of its inserts |
| `BlockValidation.FeasibleSub` | object/revertable_object.cc:283-437 | deltas that fit an object still fit when some of them are missing, assets included |
| `Jams.JamIsForever` | object/revertable_object.cc:140-242 | when all holders of some wrapped slots wait for such a slot or roll back, then in every continuation the slots stay wrapped, their holders neither commit nor finish, and the block ends neither way |
| `Progress.WaitingMeansLoad` | object/revertable_object.cc:150-162 | a delta waits to reserve a slot only while the transactions in progress reserve it more than 256 times together |
| `Progress.CanMove` | transaction_context/execution_context.cc:170-190 | a transaction none of whose deltas waits has a step to make, and the step brings it strictly closer to its end |
| `TxRuns.LightTxSucceeds` | vm/validate_reduce.h:39-62 | while every slot is final or reserved at most 256 times by the transactions in progress, each transaction of the block can go on to succeed, wherever the others stand |
| `TxRuns.LargeFollowsCommit` | storage_proxy/storage_proxy.cc:198-221 | in every run, a transaction that commits more than 256 deltas reserving one slot was preceded there by another transaction's commit |
| `TxRuns.AloneExactly` | storage_proxy/storage_proxy.cc:198-221 | a transaction of the block that runs by itself can succeed if and only if every slot it reserves more than 256 times is final when it starts |
| `TxRuns.AloneSucceedsOrJams` | storage_proxy/storage_proxy.cc:198-221 | run as far as it gets, it succeeds in that case and jams its slot for ever in the other |
| `Orders.OrderExactly` | vm/validate_reduce.h:39-62 | one transaction after the other, an order of the block can be executed if and only if whoever reserves a slot more than 256 times comes after somebody who made it final |
| `Orders.EveryOrderExactly` | vm/validate_reduce.h:39-62 | every order can be executed if and only if no transaction reserves a slot that is not final more than 256 times |
| `Orders.RunOrder` | vm/validate_reduce.h:39-62 | executed one after the other, an order that works succeeds throughout and any other comes to a transaction that jams |
| `Orders.LightBlockConcludes` | vm/validate_reduce.h:39-62 | from any state of any interleaving in which every slot is final or reserved at most 256 times by the transactions in progress, the whole block can be brought to its end |
| `Orders.OrderValidates` | vm/base_vm.cc:99-122 | a validator executes any order that works to the end of the block, and accepting stores the proposer's value under every key |
| `LargeBlocks.OrderDecides` | vm/validate_reduce.h:39-62 | a reachable database and a block of one insert and of more than 256 that fit it: in that order both transactions succeed, in the other the large one jams for ever |
| `StateDbs.StateDb.TryApplyDelta` | state_db/state_db.cc:71-83 | a delta reaches the stored object or the block's new object for the key, and no other |
| `StateDbs.StateDb.CommitModifications` | state_db/state_db.cc:94-186 | the loop over modified keys computes the specified new store and empties the new-key cache |
| `StateDbs.StateDb.RewindModifications` | state_db/state_db.cc:193-239 | the loop over modified keys computes the specified rewound store and empties the new-key cache |
| `Replay.SdkDeltas` | cpp_contracts/sdk/replay_cache.h:35-52 | library calls push only limit increases, an unexpired own entry and a clear up to the current block, and the entry exactly when the transaction recorded itself |
| `Replay.NoReplay` | cpp_contracts/sdk/replay_cache.h:35-47 | over every run, with accepted and rejected blocks mixed, a self-recording transaction takes effect at most once |
| `Erc20.CallsBalance` | cpp_contracts/erc20.cc:90-121 | what a transaction adds to all balances together, and to the supply, is exactly what it mints |
| `Erc20.AddIntAdds` | storage_proxy/storage_proxy.cc:104-119 | an accepted addition is exact for debits, covered, and saturating for credits |
| `TokenRuns.TokenIsConserved` | cpp_contracts/erc20.cc:90-121 | over every run no balance is negative, and balances and supply both equal what accepted blocks minted while that is at most INT64_MAX |
| `Limits.LimitsHold` | block_assembly/limits.cc:21-43 | under every interleaving, live plus committed transactions never exceed the initial limit and their gas exceeds the initial gas by less than 10,000,000 |
| `Limits.StepKeepsInv` | block_assembly/limits.h:37-74 | every step of reserving, committing and dropping keeps the counters equal to the limits less what was drawn |
| `Limits.SlotsComeBackUnlessLeaked` | block_assembly/limits.h:37-74 | in every run, once all clients are at rest, all gas that is not admitted is back, and the slot count is right if and only if no client drew gas when none was left and none dropped a reservation of zero gas |
| `Limits.BothLeaksHappen` | block_assembly/limits.cc:36-40 | a run in which a refusal for gas keeps its slot, and one in which a dropped reservation of zero gas does |
| `ModificationIndex.IndexKeyInjective` | state_db/typed_modification_index.cc:37-113 | two well-formed (key, delta, transaction) triples have the same index key if and only if they are equal or are two raw memory writes with one digest |
| `ModificationIndex.MakeIndexKey` | state_db/typed_modification_index.cc:37-113 | writing through the moving position into a zeroed buffer produces the index key |
| `ModificationIndex.NodesAreLogged` | state_db/typed_modification_index.cc:115-123 | digest collisions or not, every node restores to a logged triple and every logged triple has a node |
| `ModificationIndex.LogIsLossless` | state_db/typed_modification_index.cc:115-123 | when no two logged raw memory writes share a digest, key and transaction, the nodes are exactly the logged triples |
| `ModificationIndex.SaveModifications` | state_db/typed_modification_index.cc:125-138 | saving restores one triple per node |
| `ModificationIndex.CollisionLoses` | state_db/typed_modification_index.cc:115-138 | of two triples that do share them at most one is saved |
| `ModificationIndex.SavedExactlyOnce` | state_db/typed_modification_index.cc:115-138 | saving after any loggings returns only logged triples, and returns all of them, each once, if and only if no two of them collide |
| `SquareRoots.BabylonianSqrt` | cpp_contracts/cfmm.cc:277-297 | the loop terminates, divides by no zero and wraps nowhere, and returns bounds with lb*lb <= prod < (ub+1)*(ub+1), at most one apart |
| `SquareRoots.UpStep` | cpp_contracts/cfmm.cc:282-286 | the only step that goes up starts at the root s of s*s + 2s and ends the loop |
| `SquareRoots.SafeExactlyBelow` | cpp_contracts/cfmm.cc:277-288 | while half the product fits a word, no iteration divides by zero if and only if that half plus two fits too; otherwise the first one does |

## Left out

- Weak memory ordering: every atomic operation is one sequentially consistent step.
- The lock-free slot, the table and the counter are refined separately; the database uses the simple slot with its wrapped count, the set and the sum that they are proved to implement, not their composition instruction by instruction, and inherits the bounds of those refinements: fewer than 2^39 - 1 ids drawn per thread, and no resize or clear of a table while calls are in progress.
- SlotRuns.SlotIsSafe: a thread that has drawn 2^39 - 2 ids draws no more, because an id has 48 bits of which nine are the thread's; a thread runs one call at a time, as in the program.
- Orders.OrderExactly: is about transactions that run one after the other; for interleavings `Orders.LightBlockConcludes` is a sufficient condition, and `Jams.JamIsForever` says what happens when several transactions wait for each other.
- Ledger.RunRefinesLedger: a block starts at most 2^32 - 1 deltas, so that the sum of limit increases fits its 64-bit counter.
- BlockValidation.NothingFails: needs asset debits and credits that do not rely on each other and a table cell for each insert, for the reasons in the next line.
- Schedules.ValidatorAgrees: needs the same of one object, because a debit may be refused before a credit commits and inserts never reuse tombstones; `Exactness.AcceptsAllExactly` shows that neither condition can be dropped.
- SquareRoots.BabylonianSqrt: covers every product whose half plus two fits a word; `SquareRoots.SafeExactlyBelow` covers the four after those, and products beyond, whose half no longer fits a word, are left out.
- Limits.LimitsHold: the two counters are unbounded integers; 64-bit overflow of the counters is not modelled.
- TableRuns.TableIsSafe: a table is not resized or cleared while calls are in progress, as in the program.
- Table capacity is the 32-bit request plus a fifth, rounded down; the floating-point factor, and a product that itself exceeds 32 bits, are not modelled.
- Objects in the state database are values in maps, so pointers into the tries, node sharing and hash invalidation are not captured.
- Merkle tries, their hashing, normalisation and parallel traversal: tries are maps and sets.
- Replay and token runs assume that the invoked hash is collision-free, that it covers the expiration time or the calls, and that only the library or the contract writes the keys concerned; balance keys do not collide.
- The unconstrained integer delta types, which the object code does not implement.
- The contract database, deployment, the WASM runtime, signatures, RPC results and their limits: a transaction is its writes, and whether it passes the commit threshold is free.
- Allowances and ownership checks of the token contract: they guard which calls happen, not what the calls do to balances.
- Other state databases in the repository, the mempool, rate limiting, worker threads, persistence, printing and timing.
