# Verified model of a transactional storage engine

The project models the hard parts of a Go storage engine for analytical tables and proves what
they are for: a column delta applied in place, a buffer manager shared by threads, a versioned
catalog with a serial commit pipeline, the chain of update nodes of a block, the way a
transaction's rows travel into blocks, and the log-command codec. `dafny verify dfyconfig.toml`
checks all of it.

## How the model is laid out

| files | component |
|---|---|
| `Rows`, `PackedBytes`, `ColumnUpdates`, `SharedValues` | a delta (updates and deletes) applied to a column vector in place |
| `Keys`, `Mvcc`, `MvccInvariant`, `MvccWrites`, `MvccPipeline`, `MvccCreators`, `MvccRuns`, `MvccOrder`, `MvccSnapshot`, `MvccLookup`, `MvccOutcomes`, `MvccChildren`, `MvccExamples`, `MvccHalves`, `MvccGap` | the catalog and the transaction pipeline as a state machine, its invariant, what holds in every run, the runs that go wrong, and what others may do in the middle of a prepare |
| `CatalogEngine` | the same operations as methods of an object with loops, each tied to its step of the state machine |
| `BufferNodes`, `NodeManager` | the buffer manager as an object, one call at a time |
| `BufferProtocol`, `BufferSafety`, `BufferQuota`, `BufferHistory`, `BufferExamples` | the buffer manager with any number of threads; a lock section, a quota attempt, the read or the write of a size is one step; the runs that go wrong |
| `DLink`, `UpdateChain`, `UpdateVisibility` | the doubly linked list with real pointers, the chain of update and merge nodes on it, and who may read a node |
| `LocalRows`, `Spill` | a transaction's own rows, and their spill into bounded blocks and segments |
| `Wire`, `Commands`, `CommandLayout`, `EntryCommands`, `CommandStream` | the binary format: pure encoder and decoder, the bytes they write, the command objects, and the stream methods that refine them |
| `ColumnIterator` | the iterator that splits a column block into changed and unchanged runs |
| `Options`, `Sequences`, `Division` | the optional value; flattening, distinctness and sums; quotients |

Code that changes things step by step is a class or a method with loops, and its postcondition
ties it to a pure function or to a property of the logical value; the theorems are about those.

## What the code does not do

Some properties one would expect are false of the code. The model keeps the code as it is and
states exactly when they hold.

* Deleting every row of a string column indexes an empty offset array
  (`pkg/updates/colupdates.go:291-292`, `pkg/txn/txnbase/helper.go:371-379`). `ApplyToColumn`
  panics exactly then, and for fixed-width columns exactly when rows are deleted from a type
  other than 32-bit integer (`pkg/common/hack.go:15-28`).
* The patch of a string column appends the rest of the column to the update value in place
  (`pkg/updates/colupdates.go:185`). If the value is a slice with room behind it, that may
  overwrite another update value. The result is right for all columns of given lengths exactly
  if no append reaches a value still to be written.
* Growing a node takes no lock (`pkg/buffer/node.go:159-179`), and closing it takes only the
  node's own (`pkg/buffer/node.go:89-102`). Two threads that grow one node can lose quota for
  good, and so can one if the node is closed before the new size is written; the active size
  stays within the limit. It is exact in every interleaving in which nobody starts to grow a
  node that is being grown or closed and nobody closes a node that is being grown.
* Pinning a closed node again can make a thread wait for the lock it holds
  (`pkg/buffer/nodemgr.go:91-148`). Without such pins no interleaving deadlocks.
* The first cell update of an update node without deletes dereferences a missing bitmap
  (`pkg/updates/blkupdates.go:114`), and a range delete up to row 2^32 - 1 never ends on a node
  without deletes (`pkg/updates/blkupdates.go:101`).
* An append whose request for room is refused returns no error and drops the rest of the batch
  (`pkg/txn/txnimpl/table.go:281-307`).
* `Link.Update` takes what the sort returns as the head of the list
  (`pkg/common/dlnode.go:18-26`). The list is well formed afterwards exactly if the node was the
  head. The chain theorems therefore speak of commits of the head node.
* A merge walks from new to old and overwrites, so of a cell written twice it shows the oldest
  value. Deletes are always right.
* A lookup by name misses a create that is stamped but not yet applied, although the entry's own
  visibility test accepts it. Creating a table under a name whose creates were all rolled back
  panics. A rolled-back entry that is still reachable passes the visibility test. Runs that
  reach each of these are in `MvccExamples`.
* An update node may be stamped after a reader with a later start has asked for it, and a
  stamped node stays readable until the rollback of its transaction is over
  (`pkg/updates/blkupdates.go:292-326`). A reader's answers are fixed exactly if no such node is
  left of a transaction with an earlier timestamp.
* A transaction gets its timestamp before what it wrote is stamped or unwound
  (`pkg/txn/txnbase/txnmgr.go:100-123`). In between an older reader does not find a table that
  the transaction drops, and a create under that name goes through; if the drop is then rolled
  back, two versions of the name can be alive. Everything that keeps away from the names the
  transaction wrote is as if it happened afterwards.
* The spill cuts every chunk from the start of the node (`pkg/txn/txnimpl/table.go:443`). Counts,
  positions and records are right; contents are right exactly when the later chunks repeat the
  beginning.
* A create-block command comes back with its own id as its segment id
  (`pkg/catalog/command.go:260-262`). Lengths are cut to 16 or 32 bits when written. A string
  read takes what the stream has left, so a record cut inside a name is accepted. A create-table
  or drop-table command that was read cannot be written again: the reader does not set the
  table's database (`pkg/catalog/command.go:137`, `pkg/catalog/command.go:174`).

## Modelling decisions

* Catalog: taking the timestamp and stamping what a transaction wrote is one step, which
  `MvccHalves` justifies for everything but creates and drops under the names it wrote: whatever
  else others do in the middle of a prepare leads to the same states as doing it afterwards.
  Applying a transaction and setting its final state is one step, too. The spill before a commit
  is any number of creates by a transaction that has asked for its commit and has no timestamp
  yet. A wait for a committing transaction returns the state read before the wait
  (`pkg/txn/txnbase/txn.go:118-126`). A version created and dropped by one transaction keeps its
  mark when it is applied. One database that is never dropped; one request per transaction; ids
  below 2^64; the uncommitted timestamp is a missing value.
* Columns: rows are in range and byte sizes stay below 2^32, as the code assumes. A bitmap is a
  set whose iterator ascends; a missing null bitmap has no nulls. `ApplyToColumn` takes update
  values that share no memory with each other (`pkg/updates/colupdates.go:185`); `PatchShared`
  takes any slices, and neither takes values that lie in the column's own buffer.
* Buffer manager: closed nodes are not pinned again, `Expand` is called on a pinned node that
  stays pinned (several threads may call it on one node, and the node may be closed before or
  meanwhile), no unload hook is installed, the eviction queue is an unbounded FIFO, and limit
  plus request stays below 2^64. Closing may unload a node that is in use.
* Update chain: commit timestamps increase, as the pipeline theorems show; the cells of all
  columns are one map from column and row. Nodes are stamped by the prepare hook of their
  transaction and released when its commit is applied.
* Rows: how many requests for room go through is a parameter of an append; the pin of a new
  node goes through, since its size is 0. A batch is a sequence of rows with one key each. A
  segment limit of zero behaves like one.
* Codec: the stream is an in-memory buffer; a column type is 16 opaque bytes; fields have the
  widths of the code. Types registered for other commands are one error, unregistered types,
  on which the code panics, another.

## Model

| member | source | states |
|---|---|---|
| `Rows.Iterate` | pkg/updates/colupdates.go:159-161 | A bitmap's iterator yields its members, all of them, in ascending order. |
| `Rows.SurvivorsByRank` | pkg/updates/colupdates.go:202-242 | Deleting rows moves a surviving row to its rank: its position minus the number of deleted rows before it. |
| `Rows.RankSubtracts` | pkg/updates/colupdates.go:208-224 | Between the k-th and the next deleted row the rank is the row minus k, which is what the two-iterator shift subtracts. |
| `PackedBytes.Bytes.UpdateOffsets` | pkg/txn/txnbase/helper.go:371-379 | From right offsets up to start it makes the offsets right up to end; starting at -1 fails exactly on a column without rows. |
| `PackedBytes.Bytes.Splice` | pkg/updates/colupdates.go:174-196 | Replacing one string in the shared buffer gives the column with that row replaced, with offsets right up to the row and stale behind it. |
| `PackedBytes.Bytes.Cut` | pkg/updates/colupdates.go:243-295 | Cutting one row out of the shared buffer gives the column without the row, with the offsets in front of it still right. |
| `PackedBytes.PrefixIsPacked` | pkg/updates/colupdates.go:174-196 | Contiguous offsets and lengths mean that the buffer is the concatenation of the strings they cut out. |
| `ColumnUpdates.InplaceDeleteRows` | pkg/common/hack.go:8-29 | The overlapping copies leave exactly the surviving values, in order, at the front of the array, and return how many they are. |
| `ColumnUpdates.ShiftNulls` | pkg/updates/colupdates.go:202-242 | The two-iterator walk puts every surviving null at its rank among the kept rows, and nothing else. |
| `ColumnUpdates.Vector.SetFixSizeTypeValue` | pkg/txn/txnbase/helper.go:239-303 | One cell is stored; no other cell changes. |
| `ColumnUpdates.PatchFixed` | pkg/updates/colupdates.go:161-173 | A fixed-width column becomes the old one with the updates written, and updated rows are no longer null. |
| `ColumnUpdates.PatchPacked` | pkg/updates/colupdates.go:174-196 | A string column becomes contiguous again and holds the old strings with the updates written; updated rows are no longer null. |
| `ColumnUpdates.DeletePacked` | pkg/updates/colupdates.go:243-295 | In-place deletion of strings leaves a contiguous buffer with exactly the surviving strings and the shifted nulls; it fails exactly when no row survives. |
| `ColumnUpdates.DeleteFixedRows` | pkg/updates/colupdates.go:202-242 | Deletion on a fixed-width column goes through exactly for 32-bit integers, and then filters values and re-ranks nulls. |
| `ColumnUpdates.DeletePackedRows` | pkg/updates/colupdates.go:243-295 | Deletion on a string column goes through exactly when a row survives, and then filters strings and re-ranks nulls. |
| `ColumnUpdates.Delta.UpdateLocked` | pkg/updates/colupdates.go:141-148 | A row is written once per delta; a second write is a conflict and changes nothing. |
| `ColumnUpdates.Delta.MergeLocked` | pkg/updates/colupdates.go:150-156 | The union of both deltas, with the merged-in one winning. |
| `ColumnUpdates.Delta.ApplyToColumn` | pkg/updates/colupdates.go:158-298 | For every column, delete set and delta of unshared values: the result is map-then-filter on the logical column and the surviving un-updated nulls at their new ranks, and the call panics exactly in the stated cases. |
| `SharedValues.PatchShared` | pkg/updates/colupdates.go:174-196 | With update values that are slices of buffers: every row gets what its slice holds when its turn comes, after the in-place appends of the rows before. |
| `SharedValues.SharedRightIff` | pkg/updates/colupdates.go:185-186 | Such a patch is right for all columns of the given lengths exactly if no row appends into the value of a later row. |
| `SharedValues.HitIsWrong` | pkg/updates/colupdates.go:185-186 | If one does, there is a column of the given lengths that is patched wrongly. |
| `Keys.DecodeEncoded` | pkg/txn/txnbase/kv.go:23-77 | Each of the four key encodings decodes to its own kind and ids, so read-set keys of different entries differ. |
| `CatalogEngine.Engine.StartTxn` | pkg/txn/txnbase/txnmgr.go:49-60 | A new transaction gets the next timestamp as its start; every catalog invariant is kept. |
| `CatalogEngine.Engine.TxnGetTableNode` | pkg/catalog/node.go:125-207 | The early-stopping loop over the versions of a name computes the walk that the lookup theorems are about. |
| `CatalogEngine.Engine.GetTableEntry` | pkg/catalog/database.go:94-111 | Lookup by name is the walk over the name's list, and nothing for an unknown name. |
| `CatalogEngine.Engine.CreateTableEntry` | pkg/catalog/database.go:131-188 | Creates a version on top of the name's list, or reports conflict, duplicate or panic without changing anything; keeps every invariant. |
| `CatalogEngine.Engine.DropTableEntry` | pkg/catalog/database.go:113-129 | Marks the version the walk finds, or reports why not; keeps every invariant. |
| `CatalogEngine.Engine.CreateSegmentOrBlock` | pkg/txn/txnimpl/table.go:148-180 | Adds an unstamped segment or block and records its parents in the transaction's read set, before or after the commit was requested, as long as the transaction has no timestamp. |
| `CatalogEngine.Engine.SubmitOp` | pkg/txn/txnbase/txn.go:62-86 | A transaction hands in one request, which joins the end of the first queue. |
| `CatalogEngine.Engine.Check` | pkg/txn/txnimpl/antidepend.go:63-127 | The loop over the read set reports a conflict exactly when some entry read was deleted before the given timestamp. |
| `CatalogEngine.Engine.OnPreCommit` | pkg/txn/txnbase/txnmgr.go:78-82 | The spill of a transaction creates any segments and blocks, one after the other; keeps every invariant. |
| `CatalogEngine.SpillIsRun` | pkg/txn/txnimpl/table.go:416-466 | A run of creates, in their order, leads to the catalog that the spill of the same creates leaves. |
| `CatalogEngine.Engine.OnPreparing` | pkg/txn/txnbase/txnmgr.go:93-126 | Takes the oldest request; a commit first spills its rows, then the request gets the next timestamp and everything the transaction wrote is stamped or unwound; keeps every invariant. |
| `CatalogEngine.Engine.DeleteNode` | pkg/catalog/node.go:40-63 | Removes one version from a name's list and keeps the order of the others. |
| `CatalogEngine.Engine.OnCommit` | pkg/txn/txnbase/txnmgr.go:129-147 | Settles the oldest prepared transaction: its marks are released and its state becomes final; keeps every invariant. |
| `MvccRuns.StepKeeps` | pkg/txn/txnbase/txnmgr.go:49-147 | Every step of every transaction keeps the whole catalog and pipeline invariant. |
| `MvccRuns.RunKeeps` | pkg/txn/txnbase/txnmgr.go:49-147 | The invariant holds at every point of every run. |
| `MvccRuns.InitInv` | pkg/txn/txnbase/txnmgr.go:26-47 | The empty catalog satisfies the invariant. |
| `MvccWrites.CreateKeeps` | pkg/catalog/database.go:154-188 | A create keeps the invariant: a new version goes on top only over one that is gone for the creator. |
| `MvccWrites.DropKeeps` | pkg/catalog/base.go:153-176 | A drop keeps the invariant: only an entry without another writer is marked. |
| `MvccWrites.ChildKeeps` | pkg/txn/txnimpl/table.go:148-180 | Creating segments and blocks keeps the invariant. |
| `MvccPipeline.CommitKeeps` | pkg/txn/txnimpl/store.go:286-341 | Stamping a checked transaction keeps the invariant. |
| `MvccPipeline.RollbackKeeps` | pkg/txn/txnimpl/store.go:353-371 | Unwinding a transaction keeps the invariant. |
| `MvccCreators.RollbackCreators` | pkg/txn/txnimpl/store.go:353-371 | Unwinding takes exactly the tables the transaction created off their lists, so that every table has one creator and is listed unless that creator was rolled back. |
| `MvccCreators.CreateCreators` | pkg/catalog/database.go:154-188 | A create gives the new table its one creator and lists it. |
| `MvccPipeline.ApplyKeeps` | pkg/txn/txnimpl/store.go:254-275 | Settling a prepared transaction keeps the invariant. |
| `MvccPipeline.CheckedTableStands` | pkg/txn/txnimpl/antidepend.go:63-127 | A table in the read set of a transaction that passes the check was not deleted before the commit timestamp. |
| `MvccRuns.DisjointLifetimes` | pkg/catalog/database.go:154-188 | In every run of whole prepares the versions of a name are never alive together, and their create and delete timestamps follow the order of the name list. |
| `MvccRuns.WriterStays` | pkg/catalog/base.go:298-329 | An entry has one uncommitted writer, which stays until that writer itself is prepared. |
| `MvccRuns.StampsSetOnce` | pkg/catalog/base.go:78-98 | Along every run a create or delete timestamp once set never changes. |
| `MvccRuns.NoCommitUnderDroppedTable` | pkg/txn/txnimpl/antidepend.go:63-127 | In every run no segment or block is stamped at c under a table deleted before c. |
| `MvccChildren.WhenAdded` | pkg/txn/txnimpl/table.go:148-180 | A create under a known table, and for a block under one of its segments, adds exactly one segment or block of the transaction, unstamped; no other step changes their number. |
| `MvccChildren.ChildFate` | pkg/txn/txnimpl/table.go:468-530 | Along every run a segment or block carries the commit timestamp of its transaction from the prepare on exactly if the transaction gets through, and is released when the transaction is applied, save under a table that came and went within one transaction. |
| `MvccChildren.DrainedChildren` | pkg/txn/txnimpl/table.go:468-530 | When the queues are empty, what committed transactions made is stamped with their timestamps, and what rolled-back ones made is not. |
| `MvccChildren.RunReads` | pkg/txn/txnimpl/antidepend.go:11-50 | In every run the read set of a transaction without a timestamp is exactly the database, table and segment keys of what it made, and the database if it touched a table. |
| `MvccChildren.CheckFailsIff` | pkg/txn/txnimpl/antidepend.go:63-127 | The check fails exactly if the transaction has made a segment or block under a table that has been deleted. |
| `MvccChildren.CommitRefusedIff` | pkg/txn/txnbase/txnmgr.go:93-126 | In every run the next request gets the next timestamp, and is rolled back exactly if it asks for that or has made something under a deleted table. |
| `MvccRuns.TimestampsOrdered` | pkg/txn/txnbase/txnctx.go:58-96 | All start and commit timestamps of a run differ, commits exceed starts, prepared transactions wait in timestamp order, and the next one can always take its timestamp, so the guards never fire. |
| `MvccOrder.SubmissionOrder` | pkg/txn/txnbase/txnmgr.go:93-126 | If t asked before u at some point of a run, then at every later point at which u has its commit timestamp t has a smaller one. |
| `MvccOrder.ClockCounts` | pkg/txn/txnbase/txnmgr.go:49-60 | In every run the clock counts the timestamps given out, one to each start and one to each request prepared, without a gap; a start gets the next one. |
| `MvccRuns.DrainedMeansFinal` | pkg/txn/txnbase/txn.go:88-98 | When the queues are empty every submitted transaction is committed or rolled back, and every other one is active. |
| `MvccOrder.QueuesDrain` | pkg/txn/txnbase/txnmgr.go:93-147 | From every reachable state one prepare per waiting request and then one apply per prepared transaction empty both queues, and every submitted transaction is final. |
| `MvccRuns.FinalStays` | pkg/txn/txnbase/txnctx.go:70-96 | A committed or rolled-back transaction stays so under every step. |
| `MvccSnapshot.CanReadIsView` | pkg/catalog/base.go:224-288 | The branching visibility test equals the read view: alive at the reader's start, or the reader's own undropped write. |
| `MvccSnapshot.RolledBackEntryLeaks` | pkg/catalog/base.go:224-288 | An entry whose creating transaction was rolled back passes the visibility test for every reader, although it is in no read view. |
| `MvccSnapshot.CanReadIsViewIff` | pkg/catalog/base.go:224-288 | The visibility test equals the read view exactly for the entries whose creator was not rolled back. |
| `MvccSnapshot.RolledBackDropIgnored` | pkg/catalog/base.go:263-287 | A stamped drop from before the reader's start hides the entry and ends the name walk, unless its transaction was rolled back. |
| `MvccSnapshot.RolledBackDropPasses` | pkg/txn/txnimpl/antidepend.go:108-124 | A stamped drop fails the check of a transaction that has read the table, unless the drop was rolled back. |
| `MvccSnapshot.SnapshotStable` | pkg/catalog/base.go:224-288 | In every run what a running reader may read does not change under any steps of others. |
| `MvccLookup.LookupExact` | pkg/catalog/node.go:125-207 | A reader finds its own newest write, or nothing if that is a drop; otherwise the one entry it may read, found exactly if it is not a stamped create still to be applied. |
| `MvccExamples.LookupMissesStampedCreate` | pkg/catalog/node.go:162-187 | A concrete run in which a table the reader may read is not found by name. |
| `MvccLookup.QuietLookup` | pkg/catalog/node.go:125-207 | With no transaction between prepare and apply the lookup finds an entry exactly if it is in the read view. |
| `MvccLookup.RepeatableLookup` | pkg/catalog/node.go:125-207 | At any two quiet points of a run a reader that did not act finds the same result under every name it has not written. |
| `MvccLookup.DropNeverPanics` | pkg/catalog/base.go:153-160 | The panic on an entry created after the start cannot be reached by dropping by name. |
| `MvccLookup.CreatePanicsIff` | pkg/catalog/node.go:98-102 | A create panics exactly when the name was used and every transaction that created a table under it was rolled back. |
| `MvccOutcomes.CreateOutcome` | pkg/catalog/database.go:154-188 | A create of an unused name goes through. Otherwise the newest version decides: another writer without a timestamp is a conflict, a deleted version makes room, any other is a duplicate. |
| `MvccOutcomes.QuietCreate` | pkg/catalog/database.go:154-188 | At a quiet point a transaction that sees the latest state of a name nobody else is writing can create it exactly if it finds no table under it. |
| `MvccOutcomes.CreateShows` | pkg/catalog/database.go:131-139 | After a create the transaction finds its new table. |
| `MvccOutcomes.WhenDropped` | pkg/catalog/base.go:153-176 | A drop finds nothing if the name walk does or the version was deleted since the start, conflicts if somebody else is on the version, and goes through otherwise. |
| `MvccOutcomes.DropHides` | pkg/catalog/base.go:153-176 | After a drop the transaction finds no table under the name. |
| `MvccExamples.UndoneCreateHarms` | pkg/catalog/node.go:98-102 | A run from the empty catalog (start, create, roll back, start) after which the next create of the name panics and the table that never was passes the visibility test. |
| `MvccExamples.UndoneCreate` | pkg/catalog/database.go:140-152 | In every catalog a rolled-back create of a fresh name leaves the name taken and without a version. |
| `MvccExamples.TakenHarms` | pkg/catalog/node.go:98-102 | Whenever a name is left so, every later create of it panics, and every later reader may read the table that never was. |
| `MvccHalves.HalvesArePrepare` | pkg/txn/txnbase/txnmgr.go:100-123 | Giving a transaction its timestamp and then stamping or unwinding what it wrote is the prepare step of the other theorems. |
| `MvccHalves.GapIsHarmless` | pkg/txn/txnbase/txnmgr.go:100-123 | Reduction: any number of steps of others between the two halves, starts, submits, applies, creates and drops under names the transaction has not written, come to the same as after the whole prepare. |
| `MvccGap.LookupInGap` | pkg/catalog/node.go:152-187 | Between the timestamp of a drop and its stamp an older reader finds no table under the name, although it finds it before and after. |
| `MvccGap.CreateInGap` | pkg/catalog/base.go:298-329 | A create of the name conflicts before the timestamp of a drop that is going to be rolled back and is a duplicate afterwards, but goes through in between. |
| `MvccGap.GapBreaksLifetimes` | pkg/catalog/database.go:154-188 | If that creator commits, two versions of the name are alive. |
| `MvccGap.GapIsReached` | pkg/txn/txnbase/txnmgr.go:100-123 | A run from the empty catalog to a state in which both happen. |
| `BufferNodes.ReturnSubtracts` | pkg/buffer/limiter.go:31-33 | The two's-complement return subtracts the size, also for size 0. |
| `BufferNodes.GrantIsSound` | pkg/buffer/limiter.go:35-49 | The 64-bit comparison grants and refuses rightly exactly when the sum cannot wrap into the limit. |
| `BufferNodes.EvictAllExact` | pkg/buffer/base/types.go:122-127 | Working off tickets unloads exactly the evictable open nodes whose current iteration is among the tickets. |
| `BufferNodes.EvictAllPinned` | pkg/buffer/nodemgr.go:91-123 | No eviction changes the total size of the pinned nodes. |
| `NodeManager.Manager.RegisterNode` | pkg/buffer/nodemgr.go:71-81 | A node joins unloaded, without quota or ticket; it is refused exactly if an open node has its id. |
| `NodeManager.Manager.ApplyQuota` | pkg/buffer/limiter.go:35-49 | Grants exactly what still fits, and then adds it. |
| `NodeManager.Manager.ReturnQuota` | pkg/buffer/limiter.go:31-33 | Gives back exactly the size. |
| `NodeManager.Manager.MakeRoom` | pkg/buffer/nodemgr.go:91-123 | Succeeds exactly when the pinned nodes plus the request fit the limit; it evicts the nodes released longest ago first, and no more than needed; a failure leaves nothing unpinned loaded. |
| `NodeManager.Manager.Dequeue` | pkg/buffer/nodemgr.go:91-123 | One ticket is taken; its node is unloaded exactly if the ticket is live. |
| `NodeManager.Manager.Pin` | pkg/buffer/nodemgr.go:125-148 | Succeeds exactly when the node is loaded or fits beside the pinned nodes; the node is then loaded with one more reference, only the oldest tickets were used, no more than needed, and nothing else changed. |
| `NodeManager.Manager.Unpin` | pkg/buffer/nodemgr.go:150-159 | The last unpin leaves a ticket with a new iteration at the end of the queue, which stays in the order of the last unpins. |
| `NodeManager.Manager.Expand` | pkg/buffer/node.go:159-183 | Grows a pinned node exactly when the callback succeeds and the growth fits beside the pinned nodes; otherwise the quota is given back. Only the oldest tickets were used, no more than needed, and nothing else changed. |
| `NodeManager.Manager.Close` | pkg/buffer/node.go:89-102 | Unloads and closes once, giving back the quota of a loaded node and freeing its id. |
| `NodeManager.DrainedMeansPinned` | pkg/buffer/nodemgr.go:91-123 | With an empty queue everything loaded is pinned, because every evictable node has a live ticket. |
| `NodeManager.EvictsLeastRecentlyUnpinned` | pkg/buffer/nodemgr.go:91-159 | Of two evictable nodes the one whose last unpin was earlier is evicted first. |
| `BufferProtocol.StartInv` | pkg/buffer/nodemgr.go:33-43 | A new pool satisfies the invariant of the concurrent protocol. |
| `BufferSafety.StepCoherent` | pkg/buffer/nodemgr.go:91-159 | Every step keeps locks, references and tickets coherent, whether or not nodes in use are closed. |
| `BufferQuota.StepKeeps` | pkg/buffer/nodemgr.go:91-159 | Every lock section, quota attempt, read and write of a size of any thread keeps the invariant, closing a node that is being grown included. |
| `BufferQuota.RunKeeps` | pkg/buffer/nodemgr.go:91-159 | The invariant holds at every point of every interleaving. |
| `BufferQuota.QuotaConserved` | pkg/buffer/limiter.go:31-49 | In every interleaving in which nobody starts to grow a node that is being grown or closed, and nobody closes a node that is being grown, the active size is the loaded sizes plus the grants not yet used, within the limit. |
| `BufferQuota.ConservedIff` | pkg/buffer/node.go:177-179 | Quota is conserved throughout an interleaving exactly if every size is written into a loaded node that still has the size that was read. |
| `BufferQuota.QuotaBounded` | pkg/buffer/limiter.go:31-49 | In every interleaving the loaded sizes plus the grants are covered by the active size, and that is within the limit. |
| `BufferQuota.LossExact` | pkg/buffer/node.go:177-179 | A step loses exactly the growth that a size written back overwrites, or the whole growth if the node was closed meanwhile; no other step loses quota. |
| `BufferExamples.GrowersGoOnToLose` | pkg/buffer/node.go:163-179 | Every interleaving that gets two threads to grow one node goes on to lose the growth written first, and both if the node is closed. |
| `BufferExamples.CloseLosesGrowth` | pkg/buffer/node.go:89-102 | Every granted growth that is not yet used is lost if the node is closed now. |
| `BufferExamples.QuotaCanBeLost` | pkg/buffer/node.go:163-179 | A concrete interleaving of two growing threads after which quota is lost. |
| `BufferExamples.OneGrowerCanLose` | pkg/buffer/node.go:89-102 | A concrete interleaving with a single growth after which quota is lost: the node is closed between the grant and the new size. |
| `BufferQuota.EmptyRequestIsGranted` | pkg/txn/txnimpl/node.go:75-78 | In every interleaving a request for no room is granted, so the pin of a new row node, which has size 0, is never refused. |
| `BufferQuota.EvictableIsOffered` | pkg/buffer/node.go:128-152 | In every interleaving a loaded unpinned node is open and its live ticket is queued or in a thread's hand. |
| `BufferQuota.TakesLeastRecentlyUnpinned` | pkg/buffer/nodemgr.go:91-159 | In every interleaving a ticket taken while its node can be evicted is of the node released longest ago, save those whose ticket is in a thread's hand. |
| `BufferQuota.NeverEvictsOwnPin` | pkg/buffer/nodemgr.go:125-148 | A pinning thread never holds a ticket of the node it has locked. |
| `BufferQuota.PinnedStaysLoaded` | pkg/buffer/node.go:140-152 | No step unloads an open node that is in use. |
| `BufferHistory.RefsAreUsers` | pkg/buffer/nodemgr.go:125-159 | In every interleaving the reference count of a node is the number of its pins minus its unpins, counted from the steps, and it is closed exactly if somebody closed it. |
| `BufferHistory.InUseIsLoaded` | pkg/buffer/nodemgr.go:125-148 | A node with more pins than unpins that nobody has closed is loaded, at every point of every interleaving. |
| `BufferHistory.QueueIsHistory` | pkg/buffer/nodemgr.go:150-159 | In every interleaving the queue holds the tickets of the last releases in their order, without as many of the first as were taken. |
| `BufferHistory.SizesAndGoals` | pkg/buffer/node.go:64-71 | A node nobody has grown has the size it was registered with, and a busy thread works for the node and the growth of its last request. |
| `BufferHistory.WhenGranted` | pkg/buffer/limiter.go:35-49 | A thread goes on for quota exactly if its request fits the limit beside the active size, and gets it exactly if nobody changed that meanwhile. |
| `BufferHistory.WhenLoaded` | pkg/buffer/node.go:107-126 | A node is loaded by the end of a pin, and unloaded by its close or with its current ticket while nobody uses it; by nothing else. |
| `BufferHistory.WhenDone` | pkg/buffer/nodemgr.go:91-123 | A request ends when it has its pin or its growth, has given its quota back, or finds no ticket left. |
| `BufferHistory.TicketFate` | pkg/buffer/nodemgr.go:94-120 | A thread drops the ticket of a closed node, one that is not of the last release and one of a node in use; any other unloads the node, and the thread asks for quota again. |
| `BufferHistory.EvictsOnlyWhenRefused` | pkg/buffer/nodemgr.go:91-123 | In every interleaving, before each node that a thread evicts, its request was refused after the node it evicted before. |
| `BufferProtocol.NoDeadlock` | pkg/buffer/nodemgr.go:91-148 | In every state that satisfies the invariant with a busy thread, some busy thread can take its next step. |
| `BufferQuota.RunNeverDeadlocks` | pkg/buffer/nodemgr.go:91-148 | No interleaving in which closed nodes are not pinned again deadlocks. |
| `BufferExamples.PinClosedDeadlocks` | pkg/buffer/nodemgr.go:125-148 | A concrete interleaving in which a closed node is pinned again and the only thread waits for the lock it holds. |
| `DLink.SwapDown` | pkg/common/dlnode.go:81-109 | The relinking of one sort step swaps two neighbours in both directions and breaks no other link. |
| `DLink.Sort` | pkg/common/dlnode.go:81-109 | The node sinks past exactly the following nodes it compares below; the list stays linked both ways, and the returned head and tail are characterised. |
| `DLink.InsertDLNode` | pkg/common/dlnode.go:111-127 | A new node put in front sinks to its place. |
| `DLink.Link.Insert` | pkg/common/dlnode.go:28-39 | Adds exactly one node; the list stays well formed and its contents are the old ones with the payload sunk in. |
| `DLink.Link.Update` | pkg/common/dlnode.go:18-26 | Re-sorts one node; the links and the tail are always right, the head exactly if the node was the head. |
| `DLink.Link.Delete` | pkg/common/dlnode.go:41-56 | Removes exactly one node and keeps the list well formed. |
| `DLink.Link.Loop` | pkg/common/dlnode.go:58-64 | The walk from the tail is the reverse of the walk from the head. |
| `DLink.SinkRestoresOrder` | pkg/common/dlnode.go:81-109 | Sinking into a descending list gives a descending permutation, for every comparison that respects a total preorder. |
| `UpdateChain.CompareRespectsOrder` | pkg/updates/blkupdates.go:245-270 | Compare, which is not antisymmetric on merge nodes, respects a total preorder. |
| `UpdateChain.StopLosesNothing` | pkg/updates/chain.go:48-75 | Stopping at the first merge node collects what the whole chain would. |
| `UpdateChain.StepKeeps` | pkg/updates/chain.go:30-75 | Add, write, head commit and merge keep the chain sorted and every merge node equal to the sum of the committed nodes below it. |
| `UpdateChain.ChainOrder` | pkg/updates/blkupdates.go:245-270 | In every run nodes without a timestamp come first, those that started later in front, then the others by their timestamps, a merge node before the node it starts from. |
| `UpdateChain.MergeSumsHistory` | pkg/updates/chain.go:48-75 | In every run a new merge node has the latest commit stamp, the deletes of all transactions committed so far and, for each cell, the oldest value. |
| `UpdateChain.DeletesMean` | pkg/updates/blkupdates.go:153-159 | A row is among the merged deletes exactly if some committed node deletes it. |
| `UpdateChain.CellsMean` | pkg/updates/blkupdates.go:160-167 | A cell is among the merged cells exactly if some committed node writes it, with the value of the oldest writer. |
| `UpdateChain.MergedCellsAreNewestIff` | pkg/updates/blkupdates.go:153-169 | The merged cells are the newest values exactly when no cell's newest and oldest writers disagree. |
| `UpdateChain.DisjointMergeIsExact` | pkg/updates/blkupdates.go:153-169 | In every run with disjoint writes the merge node has the newest values. |
| `UpdateChain.MergeShowsOldestValue` | pkg/updates/colupdates.go:150-156 | A concrete run with one cell written twice, whose merge shows the first value. |
| `UpdateChain.BlockUpdateChain.AddNode` | pkg/updates/chain.go:39-46 | A transaction's unstamped node joins the sorted chain. |
| `UpdateChain.BlockUpdateChain.DeleteLocked` | pkg/updates/blkupdates.go:100-111 | Deletes all rows of a range or none, and none exactly if one is already deleted by the node; a range up to the last 32-bit row conflicts with any delete and otherwise never returns. |
| `UpdateChain.BlockUpdateChain.UpdateLocked` | pkg/updates/blkupdates.go:113-123 | Writes one cell unless its row is deleted or the cell written in the node; it crashes exactly if the node has no delete bitmap yet. |
| `UpdateChain.BlockUpdateChain.PrepareCommit` | pkg/updates/node.go:31-39 | Stamping and re-sorting any unstamped node; for the head it goes in front of all committed nodes and keeps the chain invariant, for any other node the chain is broken; a stamped node is a panic. |
| `UpdateChain.BlockUpdateChain.AddMergeNode` | pkg/updates/chain.go:48-75 | Adds a node with the sum of everything committed, or none exactly if nothing is committed. |
| `UpdateVisibility.ActKeeps` | pkg/updates/blkupdates.go:272-290 | Opening, stamping, releasing and merging nodes and every step of the pipeline keep the invariant: a stamp is the commit timestamp of a transaction. |
| `UpdateVisibility.NodesAreHistory` | pkg/updates/blkupdates.go:272-290 | In every history of a chain a node belongs to the transaction that opened it until it is released, and has a stamp exactly if it was stamped; a merge node belongs to nobody and has the stamp of the node it starts from. |
| `UpdateVisibility.CanReadIsVisibleIff` | pkg/updates/blkupdates.go:292-326 | The visibility test of a node is the read view (the reader's own, or committed before the reader's start) exactly if the node is not the stamped node of a transaction that is being rolled back. |
| `UpdateVisibility.AnswerChangesIff` | pkg/updates/blkupdates.go:292-326 | A step of somebody else changes what a running reader may read exactly if it stamps a node late, or ends the rollback of a stamped one, with a timestamp from before the reader's start. |
| `UpdateVisibility.AnswersFixedIff` | pkg/updates/blkupdates.go:292-326 | Whatever others do, the answers for all nodes stay the same, exactly if no transaction with a timestamp from before the reader's start has a node still to be stamped or to be taken back. |
| `UpdateVisibility.QuietIsSettled` | pkg/txn/txnbase/txnmgr.go:93-147 | With no transaction between prepare and apply nothing is open. |
| `UpdateVisibility.LateStampIsOpen` | pkg/txn/txnbase/txnmgr.go:100-115 | A reader that starts between a transaction's timestamp and the stamp of its node has an open answer. |
| `LocalRows.TxnTable.Append` | pkg/txn/txnimpl/table.go:265-308 | The rows become the old ones followed by as much of the batch as the granted requests for room carry, all of it exactly if there are enough; they are split into nodes of 10000; the index follows; nothing becomes deleted or undeleted. |
| `LocalRows.TxnTable.BatchInsert` | pkg/txn/txnimpl/index.go:82-131 | Every key of the stretch maps to its last row. |
| `LocalRows.IndexIsLastRow` | pkg/txn/txnimpl/index.go:82-131 | The index has exactly the appended keys, each with its last row. |
| `LocalRows.TxnTable.RangeDeleteLocalRows` | pkg/txn/txnimpl/table.go:313-355 | A row is deleted afterwards exactly if it was or the range covers it, reversed ranges included; a row past the last node is a panic. |
| `LocalRows.TxnTable.Rows` | pkg/txn/txnimpl/table.go:376-382 | The count from the node sizes is the number of rows appended. |
| `LocalRows.TxnTable.GetLocalValue` | pkg/txn/txnimpl/table.go:392-398 | Row r is found at node r / 10000, offset r % 10000. |
| `LocalRows.TxnTable.Find` | pkg/txn/txnimpl/index.go:72-80 | Finds the last row of a key, exactly if the key was appended. |
| `LocalRows.TxnTable.BatchDedup` | pkg/txn/txnimpl/index.go:308-320 | Reports a duplicate exactly if a key of the batch was appended. |
| `Spill.DataTable.Reserve` | pkg/tables/segment.go:57-89 | Opens a block or a segment where needed without moving rows; fails exactly if blocks hold no rows at all. |
| `Spill.DataTable.ApplyAppend` | pkg/tables/node.go:104-130 | Adds rows behind those of the block and returns where they start. |
| `Spill.DataTable.ApplyAppendInode` | pkg/txn/txnimpl/table.go:416-457 | The node's rows are taken in chunks whose records partition it, and land at consecutive positions. |
| `Spill.DataTable.PreCommit` | pkg/txn/txnimpl/table.go:459-466 | After spilling any nodes there are exactly as many blocks as the rows need and as many segments as the blocks need; with a block limit of zero it panics exactly if there is a row. |
| `Spill.CountsExact` | pkg/test/tables_test.go:161-162 | The layout has ceil(rows / block limit) blocks and ceil(blocks / segment limit) segments. |
| `Spill.FlatAt` | pkg/tables/node.go:85-102 | Row p of the table is at offset p % limit of block p / limit. |
| `Spill.RecordOf` | pkg/txn/txnimpl/node.go:89-101 | Every row of a node has an append record, which names the block and offset of its position. |
| `Spill.RecordsDisjoint` | pkg/txn/txnimpl/node.go:89-101 | No row has two append records. |
| `Spill.SpillFaithfulIff` | pkg/txn/txnimpl/table.go:442-445 | The copied rows are the node's rows exactly when its later chunks repeat its beginning, since every window starts at 0. |
| `Spill.DistinctRowsSurviveIff` | pkg/txn/txnimpl/table.go:442-445 | Pairwise different rows are copied right exactly when they fit the room left in one block. |
| `LocalRows.RowJourney` | pkg/txn/txnimpl/table.go:416-466 | The r-th row a transaction appended gets a record for row n + r of a table that held n rows. |
| `Commands.BuildOfEncode` | pkg/txn/txnbase/command.go:257-314 | For every command tree whose lengths fit their fields and any bytes after it, reading returns the command, up to the segment id of create-block commands, and leaves exactly those bytes. |
| `Commands.RoundTrip` | pkg/txn/txnbase/command.go:118-148 | A command comes back equal, with the rest of the stream untouched, exactly when its lengths fit and no create-block command in it names another segment. |
| `Commands.BuiltIsKept` | pkg/catalog/command.go:195-277 | Whatever the bytes, a command that was read has lengths that fit their fields, and its create-block commands name their own id as their segment. |
| `EntryCommands.MadeIsWritten` | pkg/catalog/command.go:64-110 | The object that the constructors make for a command from catalog entries has every reference the writer follows, and is written as that command. |
| `EntryCommands.FilledIsWrittenIff` | pkg/catalog/command.go:195-277 | The object that the reader leaves is written again, with the block's own id as its segment, exactly if it is not of a table. |
| `EntryCommands.RewritableIff` | pkg/catalog/command.go:118-277 | The writer finds every reference it follows in the objects of a tree that was read exactly if no create-table or drop-table command is in it. |
| `Commands.ReadAgain` | pkg/txn/txnbase/command.go:303-314 | The encoding of a command that was read is read back as the same command. |
| `Commands.SchemaBack` | pkg/catalog/schema.go:65-125 | A schema is read back as written, signed primary key included. |
| `Commands.StrBack` | pkg/common/marshal.go:8-28 | A string shorter than 2^16 bytes is read back as written. |
| `Commands.CutRecord` | pkg/common/marshal.go:17-28 | A create-database record cut short is reported exactly if no byte of the name is left; otherwise the name comes back padded with zero bytes. |
| `CommandLayout.DigitAt` | pkg/common/marshal.go:8-15 | Byte i of a number of w bytes is its base-256 digit w - 1 - i: the most significant byte comes first. |
| `CommandLayout.Layout` | pkg/catalog/command.go:118-186 | Every field of every command is at its offset, in its width and with its literal type code, and the commands of a tree follow each other. |
| `CommandLayout.SchemaLayout` | pkg/catalog/schema.go:98-125 | The same for schemas: numbers, name, column count, and each column with its type, its name's length and its name. |
| `CommandLayout.KeyLayout` | pkg/txn/txnbase/kv.go:23-57 | The same for the keys of the read set: a kind byte and one to four 8-byte numbers. |
| `CommandLayout.CutPlain` | pkg/catalog/command.go:195-277 | A record without a name that is cut short is always noticed. |
| `CommandLayout.UnknownTypes` | pkg/txn/txnbase/command.go:303-314 | A type the reader does not know is an error: one kind for types 1, 2, 4 and 7, which belong to other commands, one for all the rest. |
| `CommandStream.Stream.WriteString` | pkg/common/marshal.go:8-15 | Appends the two-byte length and the bytes. |
| `CommandStream.Stream.ReadString` | pkg/common/marshal.go:17-28 | Reads what the string decoder defines and consumes exactly that. |
| `CommandStream.MarshalSchema` | pkg/catalog/schema.go:98-125 | The column loop writes exactly the schema encoding. |
| `CommandStream.ReadSchemaFrom` | pkg/catalog/schema.go:65-96 | Field by field and column by column, reads what the schema decoder defines. |
| `CommandStream.WriteTo` | pkg/txn/txnbase/command.go:257-271 | Appends exactly the encoding of a command tree. |
| `CommandStream.WriteEntry` | pkg/catalog/command.go:118-186 | Appends exactly the fields of an object, or panics exactly if it follows a reference that is not set. |
| `CommandStream.WriteAgain` | pkg/catalog/command.go:118-186 | Writing a command that was read panics exactly if a create-table or drop-table command is in it; otherwise it appends its encoding. |
| `CommandStream.BuildCommandFrom` | pkg/txn/txnbase/command.go:273-314 | Reads what the command decoder defines, for every byte stream, errors included. |
| `CommandStream.ReadEntryFrom` | pkg/catalog/command.go:195-277 | Reads what the entry decoder defines, errors included. |
| `CommandStream.ReadObject` | pkg/catalog/command.go:195-277 | Sets, field by field, exactly the references of the object that the reader leaves for the record. |
| `CommandStream.WriteThenRead` | pkg/catalog/catalog_test.go:340-420 | Written and read through a stream, a command tree comes back and the bytes after it are left. |
| `ColumnIterator.BlockIt.constructor` | pkg/layout/table/col/block.go:93-116 | The first item starts at position 0 and is a changed position or a maximal unchanged run. |
| `ColumnIterator.BlockIt.Next` | pkg/layout/table/col/block.go:122-154 | The next item starts where the last one ended, and there is one exactly if positions are left. |
| `ColumnIterator.Iterate` | pkg/layout/table/col/block.go:93-154 | A whole iteration ends and tiles the positions 0 to the last one. |
| `ColumnIterator.ItemOf` | pkg/layout/table/col/block.go:122-154 | Every position is in an item, which is a version item exactly if the position is changed. |
| `ColumnIterator.ItemsAscend` | pkg/layout/table/col/block.go:122-154 | Items are in ascending order without overlap. |
| `ColumnIterator.MaxPos` | pkg/layout/table/col/block.go:48-54 | The last position is the node of the last row, and bounds the node of every row. |

## Left out

- `PackedBytes.Bytes.Splice`: does not model that the update value's own buffer may be written, which `SharedValues.PatchShared` does.
- `ColumnUpdates.PatchPacked`: takes update values that share no memory with each other; `SharedValues.PatchShared` takes those that do.
- `ColumnUpdates.Delta.ApplyToColumn`: takes update values that share no memory with each other or with the column, as `PatchPacked` does.
- `SharedValues.PatchShared`: does not take update values that lie in the column's own buffer.
- `CatalogEngine.Engine.Check`: only tables collide, because drops of databases and segments are not modelled.
- `MvccRuns.NoCommitUnderDroppedTable`: speaks of tables only, for the same reason.
- The log store, the external queue, roaring bitmaps, and the vectors and batches of the column library: only what the code asks of them is modelled.
- `AppendCmd` and the codecs of column and block updates: their writers and readers do not match, so there is no round trip to prove.
- Batch and delete-bitmap commands: their formats belong to external libraries.
- `UpdateLocalValue`: the new value is never written by the code.
- Segment and block iterators as visibility filters: the first element is not checked.
- The order of the catalog's own entry lists: they are not re-sorted after stamping.
- Database-level create and drop: rollback and apply of drops are unfinished in the code (`pkg/txn/txnimpl/store.go:263-267`).
- Drops of segments and blocks: no transaction operation drops them, so only tables are deleted under their children.
- The read of block keys into the read set (`pkg/txn/txnimpl/antidepend.go:52-61`): nothing calls it.
- Local row nodes and catalog entries are values held by their table; that two holders share one is not captured.
- File names, id formatting, printing, `Range`, the visible-offset searches and the memory pool: easy members or string work.
- The Markdown designs: no code implements them.
