# A model of DefraDB's replicated documents, storage and readers

This project models the parts of DefraDB (written in Go) that keep state over many steps, and proves what holds in
every run of them. `dafny verify dfyconfig.toml` checks all of it.

- **Replicated documents.** A field is a last-writer-wins register, a document a composite that can delete it and move
  its values from the `v` to the `d` keyspace (`Crdt.dfy`). Merkle clocks give priorities and keep a head set for each
  DAG (`Clock.dfy`). Any number of replicas write, delete and exchange blocks (`Replicas.dfy`).
- **Sync sessions.** A pushed block starts a session whose jobs interleave access by access (`Sync.dfy`). What holds in
  every interleaving: safety (`SyncSafety.dfy`), termination (`SyncEnds.dfy`), and the head of the pushed block
  (`SyncHeads.dfy`). Merges that overlap: their accesses (`Merging.dfy`, `MergeEnds.dfy`), and exactly which two merges
  may overlap (`Races.dfy`, `RaceFree.dfy`). The data of a session without conflicting overlaps (`SyncData.dfy`), which
  pushes always leave the right data and heads (`SyncPush.dfy`, `SyncTips.dfy`), which can go wrong (`SyncRaces.dfy`),
  and one that loses a write (`LostUpdate.dfy`). One session per document (`DocQueue.dfy`).
- **The in-memory datastore.** Versioned items in a B-tree (`Memory.dfy`), purging (`Purge.dfy`), snapshot transactions
  (`Transactions.dfy`), their queries (`Queries.dfy`), the store while writers are storing (`TxnStore.dfy`), whole runs
  access by access (`TxnRuns.dfy`), what every run promises (`TxnSerial.dfy`, `TxnAnswers.dfy`), three runs in which a
  promise fails (`TxnFaults.dfy`), and the objects that do the work (`MemoryStore.dfy`).
- **Readers of history.** Rebuilding an old version by replay (`Versioned.dfy`) and walking the commit DAG
  (`DagScan.dfy`).
- **Streams and small protocols.** The document fetcher (`Fetcher.dfy`), the pipe and the group join (`Join.dfy`), the
  event channel (`Events.dfy`) and schema patches (`Schema.dfy`).

How the model reads the program:

- A CID is the node it addresses: `Clock.Node` is an inductive datatype, so equal CIDs mean equal nodes and links are
  acyclic. Store keys are a datatype. No document key is a prefix of another one.
- Objects whose methods update fields are classes. Protocols are state machines. In a sync session and in a run of the
  datastore a step makes at most one access of what others change: one get, put or query of the transaction, one load or
  increment of the version, one item read, stored or removed. In the document queue a step is a critical section, and
  among replicas it is the processing of one node.
- A commit of the datastore holds the commit lock from its check to its last store. Batches, purges and the begin of a
  transaction do not hold it, and are interleaved with it.
- A method is proved against a function of the old state. The lemmas then say what holds of that function over every
  input or every run.
- Priorities, versions and counters are unbounded. A field is named by its identifier, and the collection is not part
  of a head's key, as in the head store of the program.

Where the code does not do what one would expect of it, the condition under which it does is proved, exactly unless it
says otherwise, with an input that fails it:

- Merges of one sync session share a transaction and can overlap. Two merges leave the right store in every
  interleaving if and only if they do not race (`RaceFree.OverlapIsSafeExactly`): two different writes of one register
  that both beat the stored one, a tie beside a write that overtakes it with smaller bytes, or a delete beside a merge
  that would write. `LostUpdate.OverlapLosesWrite` is a completed session with the older write in the register.
- So a push can leave data that its blocks do not stand for. If no two of the blocks that it brings besides the pushed
  one are of one field, and none of several deletes the document, every interleaving leaves the right data
  (`SyncPush.ApartPushIsExact`): so does the push of one commit with its fields. If two of them can be kept waiting for
  all the others and race in the store that those leave, some interleaving leaves the wrong data
  (`SyncRaces.RacingPushGoesWrong`). Open in between are conflicting blocks that cannot both wait for all the others, or
  that do not race in the store that those leave.
- Heads are the tips of a DAG after a step if and only if the processed node attaches just when no processed node
  names it (`Clock.HeadsStayTipsExactly`). So a pushed block is a head after a session exactly when it attaches to the
  store before it (`SyncHeads.PushedIsHeadExactly`); `LostUpdate.PushMissesHead` is a session after which it is not.
  A push that brings at most one new block of each DAG always leaves the tips (`SyncTips.OneOfEachKeepsTips`).
- A committed transaction is serial if and only if what it read before writing is unchanged and what it deleted in vain
  is still absent (`TxnSerial.CommitsSerializeExactly`). If no batch disturbs the commit, that is: the keys it met and
  did not record are still absent (`TxnSerial.CommitsSerialize`), because a read of an absent key is recorded under the
  empty key. `Transactions.AbsentReadCanBeStale` and `TxnFaults.BatchCanOvertake` are commits that are not serial.
- A transaction has the answers of its snapshot if and only if every answer that came from the store is right there
  (`TxnAnswers.SnapshotReadsExactly`), and the store finds the right item if and only if that is stored
  (`TxnSerial.VersionsRefineHistory`). It is so if no writer was storing when it began and no purge went beyond it,
  which is what `intact` means (`TxnSerial.IntactExactly`). `TxnFaults.SnapshotCanBeTorn` and
  `TxnFaults.PurgeCanLoseSnapshot` are runs in which it reads something else. Purges stay below every running snapshot
  if and only if each is covered by an entry in flight (`TxnSerial.PurgeCoversExactly`); entries are shared by equal
  snapshots and go with the first that ends.
- A query of a transaction agrees with reading key by key if and only if the keys it has not recorded are at the latest
  version as in its snapshot (`Queries.QueryIsReadExactly`), because it sees the latest versions;
  `Queries.QuerySeesLaterPut` is a query that differs.
- Fetching a stream gives its documents if and only if no document goes on from one span to the next
  (`Fetcher.FetchingIsGroupingExactly`); `Fetcher.SharedDocumentComesTwice` is a stream in which one does.
- An accepted schema patch keeps every old field in place if and only if it keeps a `_key` field
  (`Schema.PatchExtendsExactly`); `Schema.KeyFieldCanBeDropped` is a patch that does not.

The documentation of `LWWRegister.Merge` says that ties are broken by comparing identifiers; the code compares values
(core/crdt/lwwreg.go:146-198), and so does the model.

## Model

| member | source | states |
|---|---|---|
| `Crdt.StrongEventualConsistency` | core/crdt/lwwreg.go:150-198 | any two sequences over the same set of register and composite deltas, in any order and with any repetition, leave the same store: markers, priorities, values and keyspaces |
| `Crdt.RepresentsUnique` | core/crdt/lwwreg.go:159-198 | a set of deltas determines every key of the store |
| `Crdt.RegisterStep` | core/crdt/lwwreg.go:159-198 | merging a register delta leaves what the deltas so far and this one stand for: the greatest (priority, bytes) write of each register, in the keyspace of its marker |
| `Crdt.CompositeStep` | core/crdt/composite.go:148-212 | merging a composite delta does too: the marker says whether some delta deletes the document, and a delete carries all values over to `d` |
| `Crdt.MergeAllRepresents` | core/crdt/composite.go:148-168 | the same for every sequence of merges, from any store that stands for a set of deltas |
| `Crdt.MergeRegisterIsJoin` | core/crdt/lwwreg.go:159-198 | merging a write takes the greater of two writes in the (priority, bytes) order and touches no other register and no marker |
| `Crdt.MergeKeepsWellTyped` | core/crdt/base.go:41-72 | every merge keeps all stored priorities decodable |
| `Crdt.StepKeepsPartition` | core/crdt/composite.go:148-212 | one merge or empty-document marker keeps the values of a document under `d` only if it is deleted, else under `v` only, and undoes no deletion |
| `Crdt.DeletionIsPermanent` | db/collection.go:644-669 | in every run from an empty store the values are so partitioned, and a deletion is never undone |
| `Crdt.LWWRegister.GetPriority` | core/crdt/base.go:57-72 | an absent priority reads as 0; one that does not decode is an error |
| `Crdt.LWWRegister.Value` | core/crdt/lwwreg.go:111-120 | reads the value under `v`, without its type byte |
| `Crdt.LWWRegister.Merge` | core/crdt/lwwreg.go:150-157 | rejects a delta of another type; otherwise it is the register merge, and an error changes nothing |
| `Crdt.LWWRegister.SetValue` | core/crdt/lwwreg.go:159-198 | refines the register merge, in the keyspace that the marker selects; an error changes nothing |
| `Crdt.CompositeDAG.Merge` | core/crdt/composite.go:148-168 | refines the composite merge: delete wins, an existing marker is kept |
| `Crdt.CompositeDAG.DeleteWithPrefix` | core/crdt/composite.go:170-212 | the loop, in any order of the query results, moves exactly the values of the document from `v` to `d` and changes nothing else |
| `Clock.HeadsStayTipsExactly` | merkle/clock/clock.go:126-208 | processing a new node keeps the head sets equal to the tips if and only if it attaches just when no processed node names it |
| `Clock.EarlyNodeIsNoHead` | net/dag.go:127-137 | a node that is processed before everything it names by `_head` is a tip, but becomes no head |
| `Clock.HeadSet.List` | merkle/clock/heads.go:80-126 | lists every head of the DAG once, and the greatest height, 0 if there is none |
| `Clock.MerkleClock.ProcessNode` | merkle/clock/clock.go:126-208 | merges the delta; the heads become those of `HeadsAfter`; the children are the links not stored, in order; an error changes no head |
| `Clock.MerkleClock.HasHeads` | merkle/clock/clock.go:141-151 | whether some link is a `_head` link |
| `Clock.MerkleClock.AddDAGNode` | merkle/clock/clock.go:93-123 | the new node is one above the heads, links to all of them and then to the given links, is stored, and is processed |
| `Clock.ScanStep` | merkle/clock/clock.go:152-205 | one turn of the link loop takes the heads of a prefix of the links to those of the next prefix |
| `Replicas.SameBlocksSameState` | merkle/clock/clock.go:126-208 | any two replicas that have processed the same blocks, in whichever runs and orders, have equal data and equal heads |
| `Replicas.HeadsAreExactInEveryRun` | merkle/clock/heads.go:44-76 | in every run of local sets, saves, deletes and causal deliveries, the heads of each DAG are its tips with their own priorities, and priorities grow strictly along `_head` links |
| `Replicas.LocalWritesWin` | merkle/clock/clock.go:93-123 | in every run a local set has a priority above everything its replica processed for that field, and reading right after it gives the value set |
| `Replicas.DeletedStaysDeleted` | db/collection_delete.go:229-294 | in every run a deletion that a replica has seen is never undone there, and values stay partitioned |
| `Replicas.ProcessKeepsGood` | merkle/clock/clock.go:126-208 | processing a new block after its `_head` targets keeps data and heads functions of the blocks |
| `Replicas.LocalNodeIsNew` | merkle/clock/ipld.go:111-148 | a node made locally, also by a delete that links to the heads twice, is new, higher than everything in its DAG, and names only processed nodes |
| `Replicas.BelowSomeHead` | merkle/clock/heads.go:80-126 | no processed node is higher than the greatest head of its DAG |
| `Replicas.LocalStepIsNew` | db/collection.go:752-867 | so every local set, save and delete that is enabled makes a new, well-formed and highest node |
| `Replicas.StepKeepsGood` | db/collection_delete.go:229-294 | every step of every replica keeps the invariant of all replicas |
| `Replicas.BlocksOnlyGrow` | merkle/clock/clock.go:56-90 | no step of a run removes a block |
| `Merging.AccessKeepsFinishing` | core/crdt/lwwreg.go:159-198 | while no two conflicting merges are open, one access of any one of them keeps the store on the way to the one in which every decided merge is done |
| `MergeEnds.AccessLowersRank` | core/crdt/composite.go:170-212 | every access of a merge brings its end closer, by a count that the values of the document bound |
| `Races.AloneIsAtomic` | core/crdt/lwwreg.go:159-198 | the accesses of a merge that nothing interrupts do what the merge does in one step |
| `Races.RaceGoesWrong` | datastore/concurrent_txn.go:61-88 | two merges that race have an interleaving after which the store does not stand for the deltas |
| `RaceFree.WithoutConflict` | datastore/concurrent_txn.go:61-88 | any number of merges that do not conflict, in every interleaving of their accesses, leave what all the deltas stand for |
| `RaceFree.OverlapIsSafeExactly` | datastore/concurrent_txn.go:61-88 | two merges that start together leave, in every interleaving, what all the deltas stand for, if and only if they do not race |
| `SyncSafety.SyncClosure` | net/server.go:272-296 | in every interleaving of single accesses, once the push is done with its children and the counter is zero, no job is outstanding, exactly the blocks below the pushed one were added, all are merged, and the store is link-closed |
| `SyncSafety.ActionKeepsInv` | net/process.go:38-84 | every action keeps the invariant: each link of a stored block is stored or some job will see to it, each reservation has an owner, and a block that is not merged is being merged |
| `SyncEnds.SyncTerminates` | net/dag.go:110-171 | no schedule is longer than a bound computed from the pushed block and the values of the document, and one that cannot go on is complete |
| `SyncEnds.ActionCosts` | net/process.go:143-211 | every action lowers the work that its job, and the job it may add, have left |
| `SyncData.IsolatedSyncIsExact` | net/process.go:38-84 | on every schedule on which no two conflicting merges are open at once, a completed session leaves the data that all stored blocks together stand for |
| `SyncData.IsolatedSyncIsConfluent` | net/process.go:143-211 | all completed interleavings without such an overlap leave the same data |
| `SyncPush.ApartPushIsExact` | net/process.go:143-211 | if no two different blocks that the push brings besides the pushed one conflict, every completed interleaving leaves the data that all blocks together stand for; nothing is asked of the schedule |
| `SyncPush.ApartPushIsConfluent` | net/dag.go:90-98 | so all completed interleavings of such a push leave the same data |
| `SyncPush.ApartIsIsolated` | net/process.go:160-163 | because in every schedule of such a push no two conflicting merges are ever open at once |
| `SyncPush.OwnersKept` | net/dag.go:184-203 | what a job owns is reserved, and by that job alone: no block has two unfinished scans at once |
| `SyncRaces.RacingPushGoesWrong` | net/dag.go:90-98 | if two of the blocks that a push brings can be kept waiting for all the others, and race in the store that those leave, some schedule completes the session with data that its blocks do not stand for |
| `SyncRaces.RunOthers` | net/dag.go:110-171 | any blocks can be held back: some schedule brings all other jobs to their end, with never two merges at once |
| `SyncData.ActionKeepsData` | core/crdt/lwwreg.go:159-198 | without such an overlap, every action keeps the data on the way to what the deltas of all decided merges stand for |
| `LostUpdate.OverlapLosesWrite` | net/dag.go:90-98 | a push to an empty peer has a schedule that completes the session, with every block stored and merged, and leaves the older write in the register |
| `LostUpdate.PushMissesHead` | net/dag.go:127-137 | a completed session from a store with exact heads after which the heads are not the tips |
| `SyncHeads.PushedIsHeadExactly` | merkle/clock/clock.go:126-208 | in every completed session, whatever the interleaving, the pushed block is a head if and only if it attaches to the store that the session started from |
| `SyncHeads.TipsOnlyIfAttached` | merkle/clock/clock.go:152-205 | the pushed block is a tip of what a completed session leaves, so the heads are the tips only if it attaches |
| `SyncTips.OneOfEachKeepsTips` | merkle/clock/clock.go:126-208 | if the heads were the tips, a push that brings at most one new block of each DAG leaves the tips for heads in every completed interleaving, also when a block is processed twice |
| `SyncSafety.CounterCountsJobs` | net/dag.go:138-171 | every action keeps the counter equal to the number of unfinished jobs |
| `SyncSafety.ChildFieldRight` | net/process.go:165-178 | a child job works under the field of the delta it is to merge, also for heads of fields |
| `SyncSafety.ReservationsKept` | net/process.go:160-163 | a reserved CID always has a task that will store it |
| `DocQueue.ExclusionWithoutStranding` | net/server.go:161-191 | in every interleaving at most one caller holds a key, every waiter waits on the channel in the map or on a closed one, no channel is closed twice, and some caller can go on |
| `DocQueue.DoneWakesAll` | net/server.go:183-191 | once the holder is done, all who waited for its key can go on |
| `DocQueue.DocQueue.Add` | net/server.go:170-181 | takes a free key with a new channel, or returns the channel to wait on |
| `DocQueue.DocQueue.Done` | net/server.go:183-191 | removes the key and closes its channel |
| `Memory.LookupIsNewest` | datastore/memory/memory.go:146-156 | the descent finds the newest item of the key that is not above the version, or nothing if there is none |
| `Memory.InsertIsSorted` | datastore/memory/memory.go:42-59 | setting an item keeps the tree sorted, and replaces exactly the item with that key and version |
| `Memory.WriteAllReads` | datastore/memory/memory.go:360-384 | a commit changes no read below the new version; at it a key reads as its last recorded write, or else as before |
| `Memory.WriteAllValid` | datastore/memory/memory.go:360-384 | a commit keeps the tree valid |
| `Purge.PurgeIsInvisible` | datastore/memory/memory.go:308-347 | a purge changes no read at or above its bound, and leaves at most one item per key at or below it |
| `Purge.RemoveIsInvisible` | datastore/memory/memory.go:343-345 | removing one shadowed item changes no read at or above the bound |
| `Purge.ScanStep` | datastore/memory/memory.go:322-336 | one turn of the scan keeps: collected items are shadowed, and every shadowed neighbour passed is collected |
| `Purge.NothingLeft` | datastore/memory/memory.go:322-341 | a scan that collects nothing leaves no shadowed item |
| `Transactions.OpKeepsRight` | datastore/memory/txn.go:47-86 | every Get, Put and Delete keeps a transaction showing its snapshot with its own program applied, and a Get answers what that program would read |
| `Transactions.CommitRefines` | datastore/memory/memory.go:360-384 | a commit adds one map to the history that the tree refines, and changes no earlier read |
| `Transactions.CheckedKeyIsUnchanged` | datastore/memory/txn.go:266-280 | a recorded key that passes the check has the same item in the snapshot and at the commit |
| `Transactions.SerialExactly` | datastore/memory/txn.go:247-264 | whatever map a commit finds, the transaction is serial there if and only if what it read before writing is unchanged and what it deleted in vain is still absent |
| `Transactions.CommitIsSerialExactly` | datastore/memory/txn.go:266-280 | if it passed the check at that map, this is: the keys it met and did not record are still absent |
| `Transactions.LaterCommitIsSerialExactly` | datastore/memory/memory.go:360-384 | the same holds at a later map that agrees on the keys the program met |
| `Transactions.SameAnswersExactly` | datastore/memory/txn.go:71-86 | two maps give a program the same answers if and only if they agree on every key it reads before writing it |
| `Transactions.AbsentReadCanBeStale` | datastore/memory/txn.go:80-86 | a read of an absent key passes the check although the key was put meanwhile |
| `Transactions.ShownIsLastWrite` | datastore/memory/txn.go:71-86 | a transaction shows its last write of a key, or else its snapshot |
| `TxnStore.ReadsAreRightExactly` | datastore/memory/memory.go:146-156 | while writers are storing and purges remove, a read at a version finds the right item if and only if that is none or is stored |
| `TxnRuns.EventKeepsInv` | datastore/memory/memory.go:360-384 | every step keeps the invariant: begin, registration, call, discard, loss of an entry, lock, read of one expected item, check of one latest item, version of a commit or batch, store of one item, start of a purge, removal of one item |
| `TxnRuns.UnchangedEarlier` | datastore/memory/txn.go:273-277 | an item that passes the check at a version would have passed at every earlier one since the snapshot |
| `TxnSerial.VersionsRefineHistory` | datastore/memory/memory.go:146-156 | in every run, a read of any version finds the right item if and only if that is none or is stored, and the right items of a version are the map after that many commits; so a version reads as its map once no writer of it or an earlier one is storing, if it is not purged |
| `TxnSerial.HistoryOnlyGrows` | datastore/memory/batch.go:54-68 | no step of a run changes an earlier map |
| `TxnSerial.SnapshotReads` | datastore/memory/txn.go:71-104 | in every run, the answers an intact transaction got are those of its program on its snapshot alone, whatever else committed |
| `TxnAnswers.SnapshotReadsExactly` | datastore/memory/txn.go:71-104 | in every run, any transaction, intact or not, has got the answers of its program on its snapshot alone if and only if each answer that came from the store is right there |
| `TxnSerial.IntactExactly` | datastore/memory/memory.go:213-224 | a transaction is intact if and only if no writer was storing when it began and no purge since then had a bound above its snapshot |
| `TxnSerial.PurgeCoversExactly` | datastore/memory/memory.go:308-313 | every possible purge bound is at most every running snapshot if and only if each of those has an entry in flight at or below it, or there is no entry and it is the latest version |
| `TxnSerial.RegisteredIsCovered` | datastore/memory/txn.go:282-290 | a registered snapshot keeps its entry while no transaction with the same snapshot ends and the entry does not expire |
| `TxnSerial.RegisteredIsIntact` | datastore/memory/txn.go:282-290 | so a transaction that began while no writer was storing, and registered before the next purge, is intact for as long as that |
| `TxnSerial.CommitsSerializeExactly` | datastore/memory/memory.go:360-384 | in every run, an intact transaction that commits puts its writes on the latest map, and is serial there if and only if what it read before writing is unchanged and what it deleted in vain is still absent, whatever batches did after its check |
| `TxnSerial.CommitsSerialize` | datastore/memory/txn.go:247-280 | in every run, if no batch was storing when the check began and none has changed a key of the program since, it is serial if and only if the keys it met and did not record are still absent |
| `TxnSerial.StoredKeysSerialize` | datastore/memory/txn.go:247-280 | so, if it is intact, undisturbed and only met keys stored in its snapshot or put by itself, running it at its commit gives the same answers and the same map |
| `TxnFaults.SnapshotCanBeTorn` | datastore/memory/batch.go:54-68 | a run in which a transaction that begins while a batch is storing misses it in one read and sees it in the next |
| `TxnFaults.BatchCanOvertake` | datastore/memory/memory.go:360-384 | a run in which a batch puts a recorded and checked key before the commit takes its version, which is then not serial |
| `TxnFaults.PurgeCanLoseSnapshot` | datastore/memory/memory.go:308-347 | a run in which two transactions share a snapshot, one is discarded, and a purge drops what the other has yet to read |
| `Queries.Query` | datastore/memory/txn.go:162-223 | the merge of stored items and recorded operations is strictly key-sorted and holds exactly one pair for each key that is recorded with a value, or not recorded and stored at the latest version, also after other commits |
| `Queries.QueryIsReadExactly` | datastore/memory/txn.go:162-223 | such a query agrees with Get key by key if and only if the keys that the transaction has not recorded read the same at the latest version as in its snapshot |
| `Queries.QuerySeesLaterPut` | datastore/memory/txn.go:173-189 | a query sees a key that was put after the transaction began, and Get does not |
| `Queries.MergeOps` | datastore/memory/txn.go:191-199 | the operations up to a stored key: those on it override the item, those below are answered in order |
| `Queries.LastOfGroup` | datastore/memory/txn.go:179-189 | fast forward to the last version of a key |
| `Queries.PassOp` | datastore/memory/txn.go:191-216 | answering an operation in a gap between stored keys keeps the result sorted and exact |
| `Queries.CloseGap` | datastore/memory/txn.go:191-205 | once the operations below a stored key are passed, every key below it is answered |
| `MemoryStore.Datastore.CollectOld` | datastore/memory/memory.go:316-337 | one scan collects only shadowed items, and collects nothing only if none is left |
| `MemoryStore.Datastore.ExecutePurge` | datastore/memory/memory.go:308-347 | the rounds end, and remove exactly the shadowed items |
| `MemoryStore.Datastore.DeleteAll` | datastore/memory/memory.go:339-345 | each round shrinks the store and loses only shadowed items |
| `MemoryStore.Datastore.Get` | datastore/memory/memory.go:159-170 | the value at the latest version |
| `MemoryStore.Datastore.NewTransaction` | datastore/memory/memory.go:213-224 | a transaction begins at the latest version, whose entry in flight now expires in an hour |
| `MemoryStore.Datastore.ClearOldInFlight` | datastore/memory/memory.go:386-413 | drops exactly the entries that have expired |
| `MemoryStore.Datastore.PurgeBound` | datastore/memory/memory.go:308-313 | the bound is the least snapshot with an entry, or the latest version if there is none |
| `MemoryStore.Datastore.CommitOps` | datastore/memory/memory.go:360-384 | stores all writes under one new version if the check passes, and otherwise changes nothing |
| `MemoryStore.BasicTxn.GetItem` | datastore/memory/txn.go:71-86 | the own item or the snapshot item, which is then recorded as read |
| `MemoryStore.BasicTxn.Get` | datastore/memory/txn.go:89-104 | what the transaction shows, unless it was discarded |
| `MemoryStore.BasicTxn.Put` | datastore/memory/txn.go:143-159 | records a write, unless the transaction is discarded or read-only |
| `MemoryStore.BasicTxn.Delete` | datastore/memory/txn.go:47-68 | records a read, and a delete if there was a value, unless discarded or read-only |
| `MemoryStore.BasicTxn.Query` | datastore/memory/txn.go:162-223 | sees the latest version of what is not recorded; when nothing has committed since the transaction began, it agrees with reading key by key |
| `MemoryStore.BasicTxn.CheckForConflicts` | datastore/memory/txn.go:266-280 | every recorded key has the version it had in the snapshot |
| `MemoryStore.BasicTxn.Discard` | datastore/memory/txn.go:237-244 | forgets the operations once, with the entry of its snapshot and all that have expired |
| `MemoryStore.BasicTxn.Commit` | datastore/memory/txn.go:247-264 | commits, or reports a conflict or a discarded transaction, and in every case leaves the transaction discarded and its entry gone |
| `MemoryStore.BasicBatch.Commit` | datastore/memory/batch.go:54-68 | one more version holds exactly the operations of the batch, in whichever order they are stored |
| `Versioned.TimeTravelIsExact` | db/fetcher/versioned.go:201-245 | for every local history of saves and deletes, in any block store that holds its first k commits, seeking commit k copies exactly their blocks, queues their composites oldest first, and replaying them rebuilds the data right after commit k |
| `Versioned.Start` | db/fetcher/versioned.go:116-166 | the same of the fetcher object, from its start to its filled store |
| `Versioned.SeekChain` | db/fetcher/versioned.go:250-316 | seeking commit k adds the blocks of the first k commits, and their composites in front of the queue |
| `Versioned.ReplayElements` | db/fetcher/versioned.go:327-364 | replaying the queue merges exactly the deltas of the copied blocks |
| `Versioned.CommitStep` | db/collection.go:752-867 | a save or a delete becomes the only head of its composite DAG and links the previous commit and its own fields |
| `Versioned.VersionedFetcher.SeekNext` | db/fetcher/versioned.go:250-316 | refines the recursive seek, which ends, and fails only if a block is missing |
| `Versioned.VersionedFetcher.ProcessNode` | db/fetcher/versioned.go:366-402 | merges one delta into the transient store |
| `Versioned.VersionedFetcher.Merge` | db/fetcher/versioned.go:327-364 | merges a commit and then each field it links |
| `Versioned.VersionedFetcher.SeekTo` | db/fetcher/versioned.go:201-245 | seeks, then merges the queue in order |
| `Versioned.HistoryFits` | db/fetcher/versioned.go:339-361 | every commit of a history can be merged: its links name fields of the schema, and its blocks are local |
| `DagScan.ScanAll` | planner/commit.go:183-252 | calling Next until it stops yields every commit reachable by `_head` links from the heads exactly once, on any DAG, or just the requested CID |
| `DagScan.ScanChain` | planner/commit.go:183-252 | under a depth limit, a head that leads to a chain of new nodes yields the first nodes of the chain, in order, as many as the limit and at least one |
| `DagScan.DagScanNode.Next` | planner/commit.go:183-252 | yields a commit not yielded before, passes over only those that do not match, and with no depth limit is exhausted only when all is visited; if the next node is new and matches, it is yielded, and its targets are queued if the limit allows |
| `DagScan.DagScanNode.Take` | planner/commit.go:189-202 | the queue first, then the next head, which starts counting the depth again |
| `DagScan.DagScanNode.Visit` | planner/commit.go:232-244 | marks a node and queues its `_head` targets in reverse, unless the depth limit is reached |
| `Fetcher.FetchingIsGroupingExactly` | db/fetcher/fetcher.go:247-301 | fetching all spans returns one document for each group of the stream, with its fields, if and only if no document goes on from one span to the next |
| `Fetcher.FetchesTooMany` | db/fetcher/fetcher.go:262-274 | in general it returns one more document for each that goes on |
| `Fetcher.SharedDocumentComesTwice` | db/fetcher/fetcher.go:262-274 | a document with a field in each of two spans comes twice, the second time with both fields |
| `Fetcher.FetchingIsOrderedUnion` | db/fetcher/fetcher.go:411-465 | if no document goes on, two ordered streams without a common document give one ordered union, ascending or reversed, each document with its status |
| `Fetcher.DocumentFetcher.FetchNext` | db/fetcher/fetcher.go:352-389 | returns the next document of what the spans still hold, for any spans, with the fields carried over from the span before |
| `Fetcher.DocFetchers.FetchNextDoc` | db/fetcher/fetcher.go:411-465 | takes the first document off the merge of both fetches |
| `Fetcher.DocFetchers.FetchAll` | db/fetcher/fetcher.go:411-465 | repeated, it yields the whole merge |
| `Fetcher.DocumentsInOrder` | db/fetcher/fetcher.go:352-389 | from an ordered stream each document key comes once, in order |
| `Fetcher.DocumentsAreComplete` | db/fetcher/fetcher.go:305-348 | every field value of the stream is in the document of its key |
| `Fetcher.DocumentsAreSound` | db/fetcher/fetcher.go:305-348 | a document holds only fields that the stream has for its key |
| `Fetcher.MergedHasAll` | db/fetcher/fetcher.go:411-465 | the merge holds every active and every deleted document with its status, and no other |
| `Fetcher.MergedInOrder` | db/fetcher/fetcher.go:411-465 | the merge of ordered streams is ordered |
| `Fetcher.DocumentFetcher.StartNextSpan` | db/fetcher/fetcher.go:191-223 | moves to the next span that holds a pair, and keeps what the stream still holds |
| `Fetcher.DocumentFetcher.NextKey` | db/fetcher/fetcher.go:247-301 | takes one pair off the stream, across spans, and says when the document or the span is finished |
| `Fetcher.DocumentFetcher.ProcessKV` | db/fetcher/fetcher.go:305-348 | adds one pair to the document, which starts afresh with its first pair; a field that the schema does not have is an error |
| `Join.Join` | planner/arbitrary_join.go:176-214 | one group for each key that the sources yield, in the order in which keys are first read; it has the children of its key, kind by kind and in source order, and nothing else, and otherwise shows the last parent of its key |
| `Join.JoinConserves` | planner/arbitrary_join.go:232-294 | for any interleaving of reads, each child lands in the group of its key, in order, exactly once |
| `Join.GroupsInReadOrder` | planner/arbitrary_join.go:225-230 | for any interleaving, keys and groups correspond one to one, in the order of first reads |
| `Join.GroupShowsLastParent` | planner/arbitrary_join.go:232-249 | for any interleaving, apart from its child groups a group shows the last parent read with its key |
| `Join.PipeNode.Next` | planner/pipe.go:59-82 | the cache stays a prefix of the source, each document is pulled once, and the document after the cursor is returned wherever the cursor was set |
| `Join.DataSource.NextParent` | planner/arbitrary_join.go:114-141 | parents are read in order from where they stand in the pipe, whatever else read from it |
| `Join.DataSource.NextChild` | planner/arbitrary_join.go:143-174 | children are read in order from where they stand in the pipe, whatever else read from it |
| `Join.OrderedMap.MergeParent` | planner/arbitrary_join.go:232-267 | refines the parent step, and keeps the groups valid |
| `Join.OrderedMap.AppendChild` | planner/arbitrary_join.go:269-294 | refines the child step, and keeps the groups valid |
| `Join.CopyCells` | planner/arbitrary_join.go:237-246 | copies every cell but the child groups |
| `Join.EmptyGroups` | planner/arbitrary_join.go:251-262 | starts every child group empty, in a document wide enough for it |
| `Join.ParentKeepsChildren` | planner/arbitrary_join.go:232-267 | a parent changes no children |
| `Join.ChildIsAppended` | planner/arbitrary_join.go:269-294 | a child goes to the end of its own group, and nowhere else |
| `Join.JoinSource` | planner/arbitrary_join.go:191-211 | one source is read to its end, and what was read and what is left always add up to what it yields |
| `Events.DeliveryIsExact` | events/simple.go:91-131 | a subscriber sees exactly the items published between its subscription and its end, in order, and then one close |
| `Events.OthersSeeNothing` | events/simple.go:91-131 | a channel that is never subscribed, or only after the close, sees nothing |
| `Events.SimpleChannel.HandleChannel` | events/simple.go:91-131 | after any commands, every channel has seen exactly what it should |
| `Events.SimpleChannel.Drop` | events/simple.go:105-123 | swap-removal drops one subscriber, keeps the others, and closes only its channel |
| `Events.SimpleChannel.ToAll` | events/simple.go:125-128 | does the same to every subscriber once |
| `Schema.PatchExtendsExactly` | db/collection.go:274-370 | an accepted patch keeps every old field with its name, identifier and kind at its index if and only if it keeps a `_key` field, and then identifiers are indexes again |
| `Schema.PatchesOnlyExtend` | db/collection.go:200-268 | in every sequence of accepted patches that keep a `_key` field, each version extends every earlier one |
| `Schema.KeyFieldCanBeDropped` | db/collection.go:322-367 | a patch that drops the `_key` field and adds another one is accepted |
| `Schema.NewCollection` | db/collection.go:68-101 | accepts exactly the descriptions with a name, a `_key` field first and valid fields, and makes every identifier an index |
| `Schema.ValidateUpdate` | db/collection.go:274-370 | accepts exactly the acceptable patches, and says whether a field is added |
| `Schema.ValidateFields` | db/collection.go:320-361 | each proposed field is accepted, is new or claims an existing one |
| `Schema.UpdateCollection` | db/collection.go:200-268 | persists the completed patch under a new version, or leaves the description as it is when nothing changes |

## Left out

- libp2p, gRPC, pubsub, replicators, HTTP, the command line, configuration and logging: wiring around the modelled core.
- CBOR, protobuf, multihash and uvarint encodings, and integer widths: encoders are taken as injective, counters as unbounded.
- Sync runs with fetch or processing errors, cancellation or transaction retries, and the worker pool: only error-free job processing is modelled. Sessions of other documents share the reservation set, but not its CIDs.
- The prefix query of a delete in a sync session: it is one access, and its results are moved one access at a time.
- Three or more merges that conflict and overlap: the exact condition is for two; any number is covered when they do not conflict.
- Pushes that bring conflicting blocks which cannot both wait for all the others, or do not race in the store that those leave: whether some schedule goes wrong is open.
- The heads of a session that brings several blocks of one DAG: only the head of the pushed block is exact. The scans of such a session interleave, and a block can be processed twice, so `Clock.HeadsStayTipsExactly`, which is about processing a new node in one step, does not apply to them. Runs of replicas are stated for causal processing.
- A block service that stores a block as soon as it is fetched: in the model the job stores it. What a completed session leaves stored and merged is the same.
- The raw value marker of an empty document: it is part of `Crdt.DeletionIsPermanent`, but local and so not of convergence.
- Calls on one transaction from several goroutines at once: its calls, the commit included, come one after the other.
- Store closing, `Sync`, `Has`, `GetSize`: easy or wiring. Clocks are parameters.
- Version replay over branching histories, repeated seeks on one store, and the cache of CRDT objects: histories are linear, each fetcher starts fresh.
- Span merging (`MergeAscending`): it is not part of this model. Spans are given.
- Generated key strings and filters in a join: the key is a given function of a document, and a source yields the documents of its pipe that pass a given filter.
- Blocking and buffering of event channels: sending is an entry in a trace.
- Plan construction, filter operators and ordering: they need code outside the modelled files.
- Clock.HeadSet.List: does not state the byte order of the CIDs in which the program sorts the heads; all orders are covered.
- Clock.MerkleClock.ProcessNode: states the data when the delta is of the type of the CRDT; a mismatch is an error or, for a composite, an ordinary composite merge.
- DagScan.DagScanNode.Next: under a depth limit, states each step but no closed form on a DAG that is not a chain, because the counter is shared by all paths from a head.
- Join.Join: sorted child sources, which read the pipe to its end before the first child, are not covered.
- Join.DataSource.NextChild: sorted child sources are not covered.
- Schema.ValidateUpdate: does not tell the kinds of error apart.
- Versioned.VersionedFetcher.ProcessNode: states the data for deltas that fit the field they are merged into.
- Versioned.VersionedFetcher.Merge: states the data for commits that fit the document and the schema.
- Versioned.VersionedFetcher.SeekTo: states the data when every queued commit fits; `Versioned.HistoryFits` says that those of a history do.
