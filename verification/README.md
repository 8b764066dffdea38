# LogDB storage protocol: model and proofs

LogDB is an embedded key-value store. Threads of many processes lease disjoint
64 KB sections of one file, write a transaction into a section, and publish it
by overwriting one 16-bit entry of a separate log file. The last process to
close folds the log back into the end of the database; the next one to open
recovers it. These modules model that protocol end to end and prove what it
guarantees, and exactly when.

## Layout of the project

| Files | What they model |
|---|---|
| `Bytes.dfy`, `Layout.dfy`, `FileFormat.dfy`, `Records.dfy` | bytes, `pwrite`, fixed-width arithmetic, the two file formats, records |
| `CommitProtocol.dfy` | lease, entry locks and commit as a step machine: one program counter per thread, any number of threads and processes, crashes, power failures, write-back by the operating system |
| `CommitLocks.dfy`, `CommitRefinement.dfy`, `CommitTheorems.dfy`, `CommitRecords.dfy`, `CommitTraces.dfy` | what every step of that machine keeps, refinement of an abstract store, whole runs, counterexample runs |
| `CommitCalls.dfy` | whole commit calls on that machine: what they do left alone, how they end when something fails, how often they publish |
| `SearchSpec.dfy`, `CommitSearch.dfy`, `LeaseSearch.dfy` | the backward walk for a section: as functions, in the step machine, as the loop it is |
| `LockList.dfy`, `LockMap.dfy`, `LockSafety.dfy`, `LockCalls.dfy`, `LockTraces.dfy` | the compare-and-swap list of lock blocks inside one process, and whole lock and unlock calls on it |
| `TwoLevel.dfy`, `TwoLevelCalls.dfy` | the step machine with those lists as the in-process level of its locks |
| `Recovery.dfy`, `RecoveryProofs.dfy`, `Users.dfy`, `OpenClose.dfy` | open, create, merge and crash on the bytes of both files; who has the database open; the same operations as methods on files |
| `CommitRecovery.dfy`, `WholeSystem.dfy` | the step machine on those files: whole lives of a database; the same with the lists of lock blocks |
| `Rope.dfy`, `RopeCounts.dfy`, `RopeOps.dfy`, `Buffers.dfy` | the shared rope buffers, on an explicit heap that can express freed and dangling pointers |
| `Leases.dfy`, `WriteBuffer.dfy` | reading and writing through a lease, writing a rope |
| `Scripts.dfy`, `Frames.dfy`, `Sessions.dfy` | nested transactions: as a function of the calls, and as a class over the rope heap |
| `Cursor.dfy`, `Iteration.dfy`, `IterationRuns.dfy` | the record iterator as a function and as a class, whole iterations |
| `Calls.dfy`, `RoundTrip.dfy` | calls of one thread that may fail, over many sections: put, then iterate |

The step machines follow the code step by step. Where a step of the code breaks
what the design promises, the machine still takes it; the theorem then names the
step as its hypothesis, a lemma shows that the hypothesis is exact, and a run or
an input reaches the failure:

* The write lease keeps the section length that was read before the locks were
  taken (`src/logdb_lease.c:101`, `:133`, `:147`). A grant is safe exactly when
  that length equals the length read again and the lease does not fill the section
  to its last byte: `GrantIsSafeExactlyWhenFresh`, `StaleGrantIsReachable`,
  `FullSectionGrantIsReachable`.
* A failed re-check goes back to the walk with both locks held
  (`src/logdb_lease.c:147-148`): `RecheckLosesExactlyWhenFull`, `LeakedLockStays`,
  `AbandonedLockIsReachable`. No other step abandons a lock:
  `OnlyFullRechecksAbandon`.
* A lock block inserted in front of another may cover the same entries
  (`src/logdb_log.c:270-286`). The insertion keeps holders apart exactly when nobody
  holds one of these entries or has found a slot of it, threads excepted that give
  their lock back and have walked past the place: `InsertionIsHarmlessExactly`,
  `TwoThreadsHoldOneEntry`. `InsertionIsSafeExactly` counts a thread as a holder
  until it has given back its slot; that is what the record lock above relies on.
* A commit that fills its section to the last byte is granted
  (`src/logdb_lease.c:15-16`), reports success and stores the length 0
  (`src/logdb_txn.c:99`): the section is empty then. Nothing is lost exactly if no
  commit does that: `RunLaid`, `RunReadable`, `FillingLosesBoth`,
  `PutThenIterateFull`.
* The walk forgets how far the walk before it went (`src/logdb_lease.c:97-98`), so
  locked entries can send it to and fro forever. With the locks as they are, it
  ends exactly if one of its next five walks finds no room or an entry that is
  free: `SearchEndsExactly`, `EndlessSearchIsReachable`.
* A nested commit into a transaction without a buffer leaves it with a dangling
  pointer (`src/logdb_txn.c:75`, `:59-60`): `MergeAsWritten`. As every put inside an
  open transaction is such a commit, the remaining theorems about transactions
  let the outer transaction take the buffer over.
* An append checks the lengths of the two buffers it is given
  (`src/logdb_buffer.c:136-140`), but buffers that share the first one grow too.
  All stay within 32 bits exactly if each of them has room:
  `AppendKeepsAllSmallExactly`, `SharedBufferOverflows`.
* A waiting process that finds a partial log has used up the retry that would let
  it delete one (`src/logdb_connection.c:110`, `:147-151`): `Open` succeeds exactly
  in the other cases, `CrashedCreatorFailsOpen`, `OpenAgain`.
* An iteration ends early after the last record of a section if eight or more of
  its bytes were not read (`src/logdb_iter.c:58-78`): `IterationIsCompleteExactly`.

The Readme says that a writer repeats its walk "remembering how many log entries
we've already walked"; the code resets that count on every walk, and the model
follows the code.

Environment assumptions: the write and the append of one log entry are atomic;
`pwrite` honours its offset on a log opened for appending; record locks belong to
a process, and a process never conflicts with itself; conversions of `flock` locks
are atomic; a process has one connection to a database; there are fewer than 65536
sections. The commit machine keeps the in-process locks in a plain map; `TwoLevel`
puts the lists of lock blocks there and shows when that is the same. Recovery by
itself takes it that what is published is in place; `CommitRecovery` shows that the
commit machine sees to it. For the classes, which section a commit gets, what the
disk accepts and whether a sync succeeds are parameters of each call.

## Model

| member | source | states |
|---|---|---|
| CommitLocks.EntryLockExclusion | src/logdb_log.c:260-346 | with one slot per entry in each process, in every run at most one thread of all processes is between a successful write lock on an entry and its unlock, and a process has the record lock only while one of its threads owns the slot |
| CommitLocks.LockInvStep | src/logdb_log.c:300-346 | every step of every thread, crash and power failure keeps the two-level lock invariant |
| TwoLevel.MoveRefines | src/logdb_log.c:260-346 | with the slots kept in the lists of lock blocks, every step of every walk, lock and unlock is a step of the commit machine or none, unless an insertion takes over an entry that somebody is committed to |
| TwoLevel.TwoLevelExclusion | src/logdb_log.c:260-346 | over every such run of both levels, with the window between the `fcntl` unlock and the walk to the slot, at most one thread of all processes has an entry locked |
| TwoLevel.TwoLevelRefinesStore | src/logdb_txn.c:79-111 | with the lists of lock blocks in their place, every interleaving of fresh grants keeps the volatile and the durable image equal to the abstract store |
| TwoLevelCalls.LockCallEnds | src/logdb_log.c:260-311 | with both levels, a lock call on a slot, wherever its walk stands, ends within twice the length of the list and does what one step of the commit machine does |
| TwoLevelCalls.UnlockCallEnds | src/logdb_log.c:244-258 | so does the walk that gives the slot back, after an unlock or a refused record lock |
| CommitTheorems.CommitRefinesStore | src/logdb_txn.c:79-111 | every interleaving with fresh grants keeps the volatile and the durable image equal to an abstract store of transactions per section, and every visible byte durable |
| CommitTheorems.CommitIsAtomicAppend | src/logdb_txn.c:98-108 | writing the entry appends the whole transaction to one section; no other step changes a committed byte; a power failure keeps a prefix of whole transactions per section |
| CommitTheorems.GrantIsSafeExactlyWhenFresh | src/logdb_lease.c:143-155 | a granted lease leads to no bad state, in any continuation whose later grants are fresh, if and only if its offset is the length read again under the lock and it ends before the section does |
| CommitTraces.StaleGrantIsReachable | src/logdb_lease.c:97-152 | a run of two processes that reaches an unsafe grant: the length is read, another process commits, the locks are taken |
| CommitTraces.FullSectionGrantIsReachable | src/logdb_lease.c:91-152 | a run that is about to grant a fresh section to a transaction of 65536 bytes, an unsafe grant |
| CommitTraces.AbandonedLockIsReachable | src/logdb_lease.c:97-148 | a run in which another process fills the section between the walk and the re-check; the lock is abandoned, and no continuation without the end of its process gives it back |
| CommitTheorems.ReadLeaseIsStable | src/logdb_lease.c:37-64 | what a read lease covers is what was committed when it was taken, however many commits with fresh grants extend the section later |
| CommitTheorems.AcknowledgedSurvives | src/logdb_txn.c:105-108 | a transaction in the durable log stays committed through every continuation of fresh grants, crashes and power failures |
| CommitTheorems.SyncMakesDurable | src/logdb_txn.c:105-108 | after a successful sync of the log everything published is durably committed, and this thread's transaction is the last one of its section |
| CommitTheorems.SuccessfulCommitSurvives | src/logdb_txn.c:98-111 | after a commit that synced successfully, its transaction stays at its place in its section through every continuation of fresh grants, crashes and power failures |
| CommitTheorems.LeasesAreDisjoint | src/logdb_lease.c:178-196 | two leases that may be written at the same time are disjoint file ranges, outside every committed range |
| CommitTheorems.RecheckLosesExactlyWhenFull | src/logdb_lease.c:146-148 | after the re-check the entry is lost for good, held by this thread that does not work on it and by nobody else in every continuation until its process ends, if and only if the section no longer has room |
| CommitTheorems.LeakedLockStays | src/logdb_lease.c:146-148 | an abandoned lock is given back by nothing but the end of its process, and no other thread ever gets that section |
| CommitTheorems.OnlyFullRechecksAbandon | src/logdb_txn.c:84-111 | of all steps of all threads, failures of writes and syncs included, only the re-check of a section that has filled up abandons a lock; every other way out of a lease keeps it until it is given back |
| CommitCalls.CommitAlone | src/logdb_txn.c:79-115 | a commit that nobody interferes with ends within 20 steps: the newest of the last four sections with room, or else a new one, holds the transaction behind what it held, in both images, and all locks are as they were |
| CommitCalls.FailedCallEnds | src/logdb_txn.c:81-104 | however a commit fails, in its search, in a write or sync of the transaction or in the write of the entry, it ends at once with its lease given back at both levels, its earlier locks as they were, and nothing committed |
| CommitCalls.SyncedCallEnds | src/logdb_txn.c:106-114 | after the sync of the log, successful or not, the call ends the same way |
| CommitCalls.EachCallPublishesOnce | src/logdb_txn.c:64-115 | in every run a thread writes at most one entry for each commit it begins, and exactly one by the end of the call unless the call fails or its process does |
| CommitCalls.CrashFrees | src/logdb_log.c:313-343 | with its process all locks of a thread go, abandoned ones too: nobody has the entry any more |
| CommitCalls.UnsyncedSurvivesExactlyIfWritten | src/logdb_txn.c:106-108 | a transaction whose entry is written but not synced survives a power failure if and only if the operating system had written the entry back |
| CommitCalls.TornWriteLeavesNoTrace | src/logdb_txn.c:84-95 | bytes of a transaction can be on the disk before its entry is; a power failure then leaves them in the section and the store without the transaction |
| CommitRefinement.DataStep | src/logdb_txn.c:79-111 | every step but an unsafe grant keeps the data invariant: committed bytes, leases in progress, durable prefix |
| CommitSearch.SearchStaysInBounds | src/logdb_lease.c:97-141 | in every run of the code as it is, subtracting the entries walked does not wrap, a pass looks at four entries at most, and every entry looked at or chosen exists |
| SearchSpec.FiveWalksDecide | src/logdb_lease.c:97-114 | a search that has not ended after five walks never ends |
| CommitCalls.NewestOfFour | src/logdb_lease.c:97-109 | a fresh walk finds the newest of the last 4 entries whose length leaves room below 65536, if there is one, and never looks at a fifth |
| CommitSearch.SearchEndsExactly | src/logdb_lease.c:89-155 | left alone with the locks as they are, at both levels and on existing entries, a search gets its lease if and only if one of its next five walks finds no entry with room or one that nobody else has locked |
| CommitSearch.SearchOfRunEndsExactly | src/logdb_lease.c:89-155 | wherever a run of the machine leaves a thread that is about to walk, its search, left alone from there on, gets its lease if and only if one of its next five walks ends it |
| CommitSearch.AloneGetsLease | src/logdb_lease.c:89-155 | with at most one entry locked by others that takes two walks and one appended entry at most |
| CommitTraces.EndlessSearchIsReachable | src/logdb_lease.c:97-98 | a run of three processes after which the third, left alone, searches forever |
| CommitRecords.LeaseEndsOnRecordBoundary | src/logdb_lease.c:44-62 | at every moment of every run of fresh grants, what a read lease covers is a concatenation of whole records, if the transactions are |
| LeaseSearch.WalkBack | src/logdb_lease.c:102-109 | the loop finds what one walk of the search functions finds: the newest of at most four entries that has room, or none |
| LeaseSearch.AcquireWrite | src/logdb_lease.c:66-156 | the loop with its lock test and its double check, while the others stand still: if the search ends, it ends within five walks at the entry that the search functions end at, which exists, is free and has room, with that entry's length, and it appends an entry exactly if that is a new one |
| LockList.ListStep | src/logdb_log.c:266-293 | under every interleaving of compare-and-swap inserts the list stays linked and strictly ascending and loses no block |
| LockList.ListIsAscending | src/logdb_log.c:266-293 | the same over all runs: every block ever inserted is still in the list, at its start index |
| LockMap.InsertTakesOver | src/logdb_log.c:270-286 | an insertion makes the new, empty block responsible for its 128 indices and leaves every other index alone |
| LockMap.MapRefinement | src/logdb_log.c:244-293 | every step is a step of a plain map from index to lock count, so that lock and unlock find the same slot, unless it is an insertion that takes over an entry somebody is committed to |
| LockMap.InProcessExclusion | src/logdb_log.c:295-311 | over every run without such insertions two threads never hold the same index, however blocks overlap |
| LockMap.InsertionIsSafeExactly | src/logdb_log.c:270-286 | with a thread counted as a holder until it has given back its slot, an insertion leads to no state in which two threads have one entry, in any continuation whose later insertions are safe, if and only if no thread holds, gives back or has already found a slot of an entry that the new block takes over |
| LockSafety.InsertionIsHarmlessExactly | src/logdb_log.c:260-311 | wherever a run without harmful insertions leads, the next insertion leads to no state in which two threads hold one entry between lock and unlock, in any continuation whose later insertions are harmless, if and only if no thread holds or has found a slot of an entry that the new block takes over, apart from those that are giving it back and have walked past the new block |
| LockSafety.HolderExclusion | src/logdb_log.c:260-311 | over all those runs two threads never hold one entry; a thread that gives back a slot that walks no longer find does what a thread does that has finished |
| LockMap.DisjointIsGuarded | src/logdb_log.c:270-286 | a block that ends before the next one begins takes over no such entry |
| LockCalls.LockEnds | src/logdb_log.c:260-311 | from every state of the list and every point of the call, with a block loaded that others have since put blocks in front of or an exchange about to fail, a thread left alone ends its lock call: it holds the entry if and only if the slot of the block that its walk comes to is free, or it puts in a block |
| LockCalls.LockCall | src/logdb_log.c:260-311 | as a map from index to lock count: the call succeeds if and only if the count is 0 and makes it -1; a block that it puts in empties its 128 slots; nothing else changes |
| LockCalls.UnlockCall | src/logdb_log.c:244-258 | the call of a thread that holds an entry ends within the length of the list with the count 0 again and no other changed |
| LockTraces.TwoThreadsHoldOneEntry | src/logdb_log.c:270-286 | a run of three threads after which two hold the write lock of entry 10 |
| RecoveryProofs.RecoveryYieldsPublished | src/logdb_connection.c:88-158 | after any run of opens, writes, commits, closes and crashes between or within file operations, the next open finds for every section exactly what was published to it, in order |
| CommitRecovery.CommitStepsAreFileSteps | src/logdb_txn.c:79-111 | on the files, every step of the commit machine with a fresh grant is a step of the recovery machine or none: what is published is in place by then |
| CommitRecovery.RecoveryFindsCommits | src/logdb_connection.c:88-158 | after any life of a database, with threads that lease, write and commit in any interleaving of fresh grants and processes that close or crash anywhere, the next open finds every transaction whose entry was written, whole and in order |
| WholeSystem.EventRefines | src/logdb_log.c:260-346 | on files, commits and lists of lock blocks together, every step is one event of the life of a database without the lists, or none |
| WholeSystem.EverythingRecovers | src/logdb_connection.c:88-158 | over all lives of a database with both lock levels as the code has them, walks over the lists in every interleaving: no two threads have one entry locked, the open files hold the abstract store, and at every moment the next open finds every transaction whose entry was written, whole and in order |
| RecoveryProofs.InvStep | src/logdb_log.c:123-211 | every file operation keeps one file authoritative: an invalid or missing log implies that the embedded log is intact or that there is no data |
| RecoveryProofs.PartialLogValidExactly | src/logdb_log.c:181-202 | a log under construction validates if and only if all its bytes are right already |
| RecoveryProofs.OpenAlwaysPossible | src/logdb_log.c:134-158 | no run leaves a missing log together with a database whose trailer leads nowhere |
| Users.UsersAreCounted | src/logdb_connection.c:206-226 | in every run the open database has as many users as opened it since it was last closed and have not left it, counted from the actions alone |
| Users.LastOneMerges | src/logdb_connection.c:206-226 | with the processes named: a close merges the log back if and only if every other process that opened the database has left it |
| Users.AlwaysBackInUse | src/logdb_connection.c:88-158 | from wherever a run leads all processes may stop, and six steps then bring the database back into use with everything that was published |
| Users.LastClose | src/logdb_log.c:384-432 | the steps of the last close leave no log file and a database of exactly the bytes up to the end of the data and the merged log |
| RecoveryProofs.MergeBeginKeeps | src/logdb_log.c:407-410 | truncation to the end of the last non-empty section removes no committed byte |
| RecoveryProofs.Merged | src/logdb_log.c:417-428 | a database that ends with the merged log holds the entries by itself, without the trailing empty ones |
| FileFormat.EmbeddedRoundTrip | src/logdb_log.c:134-158 | the trailer leads `logdb_log_create` back to exactly the entries that the merge wrote |
| FileFormat.EntriesRoundTrip | src/logdb_log.h:69-71 | 16-bit entries decode to the lengths that were written |
| FileFormat.WriteEntry | src/logdb_log.c:229-242 | overwriting two bytes at an entry's offset changes that entry and nothing else |
| FileFormat.AppendEntry | src/logdb_lease.c:116-121 | appending a zero entry yields the log with one more, empty section |
| FileFormat.WriteAbove | src/logdb_lease.c:178-196 | writing behind the committed bytes of one section disturbs no section, and directly behind them extends that one |
| OpenClose.TrimTrailing | src/logdb_log.c:389-405 | the trimming loop drops exactly the trailing empty entries, and its size is the end of the committed data if and only if there are fewer than 65536 sections |
| OpenClose.Files.CloseMerge | src/logdb_log.c:361-439 | the merge succeeds or fails with one file authoritative, wherever the disk fills up |
| OpenClose.Files.LogCreate | src/logdb_log.c:123-211 | the log is created, with the embedded entries, if and only if there is none and the disk takes all of it; what a failed write leaves is removed or, if that fails too, is exactly a cut-off log |
| OpenClose.Files.CreateLocked | src/logdb_connection.c:94-120 | under the exclusive lock a process opens whatever the last one left behind if and only if the log is whole, or is missing and can be written, or is corrupt and can be deleted and written again and this is the first try; otherwise one file stays authoritative, and what is left of the log is stated byte by byte |
| OpenClose.Files.Open | src/logdb_connection.c:50-158 | whatever others did while it waited, an open succeeds if and only if it has the exclusive lock at once and finds a whole log or can write one, or it waits and finds a whole log, or none and gets the exclusive lock on the retry and can write one; it then has the committed content; what it leaves of both files in every other case is stated, too |
| OpenClose.OpenAgain | src/logdb_connection.c:90-120 | an open that failed on what others left behind costs nothing: the next one, alone and with room for the log, finds everything |
| OpenClose.CrashedCreatorFailsOpen | src/logdb_connection.c:106-151 | the input on which an open fails: the process it waited for crashed after one byte of the log |
| OpenClose.Files.Close | src/logdb_connection.c:206-226 | the last user merges, with the resulting bytes stated, anyone else leaves both files alone, and one file stays authoritative even if the merge fails |
| OpenClose.CloseAndReopen | src/logdb_log.c:361-439 | merge then create is the identity on committed content |
| Layout.EntryOfOffset | src/logdb_log.c:15-27 | exactly the two bytes of an entry map back to its index |
| Layout.SectionsShareBytes | src/logdb_connection.c:15-18 | two sections share file bytes if and only if their indices agree modulo 65536; the 32-bit offset is exact if and only if the index is below that |
| Layout.StoredLengthExact | src/logdb_txn.c:98-100 | the 16-bit length is exact for every end but the full section, which it stores as 0 |
| Rope.AppendIsAcyclicExactly | src/logdb_buffer.c:127-151 | appending keeps the heap acyclic if and only if the second buffer does not lead to the first |
| Rope.ContentOfAppended | src/logdb_buffer.c:142-150 | the first buffer then holds the concatenation |
| Rope.FlattenKeepsContent | src/logdb_buffer.c:116-122 | flattening one buffer changes the content of none |
| RopeCounts.FlattenCounted | src/logdb_buffer.c:121 | flattening keeps every count exact if the dropped segment is counted as lost: it leaks, it does not dangle |
| RopeCounts.RemoveCounted | src/logdb_buffer.c:159-171 | freeing a node keeps every count exact if its links become references to give back |
| Buffers.BufferHeap.NewDirect | src/logdb_buffer.c:24-44 | a buffer over the caller's memory holds that memory's bytes and changes no other buffer |
| Buffers.BufferHeap.NewCopy | src/logdb_buffer.c:46-63 | a buffer with a block of its own, holding the given bytes |
| Buffers.BufferHeap.Length | src/logdb_buffer.c:65-74 | the loop returns the length of the concatenation modulo 2^32 |
| Buffers.BufferHeap.Append | src/logdb_buffer.c:127-151 | the first buffer's content becomes the concatenation, every buffer that shares its last segment gets the same bytes there, nobody else's content changes, and it is refused exactly if the two lengths overflow 32 bits |
| RopeOps.AppendKeepsAllSmallExactly | src/logdb_buffer.c:136-149 | after an append all lengths fit 32 bits if and only if every buffer that shares the first one's last segment has room, as often as it does |
| Buffers.SharedBufferOverflows | src/logdb_buffer.c:136-149 | two appends that pass the check after which a buffer has 2^32 bytes and length 0 |
| Buffers.BufferHeap.LastSegment | src/logdb_buffer.c:142-147 | the walk ends at the last segment, and its comparison with the second buffer never fires |
| Buffers.BufferHeap.Data | src/logdb_buffer.c:76-125 | returns the full concatenation in one block, leaves the content of every buffer in the heap as it was, and leaves the head that was asked, or that the buffer is a copy of, as one segment over that block; a buffer that is one segment already stays as it is |
| Buffers.BufferHeap.Retain | src/logdb_buffer.c:153-157 | one more reference, counts exact |
| Buffers.BufferHeap.Free | src/logdb_buffer.c:159-171 | one reference less; a node goes exactly with its last reference, what is left is unchanged but for counts, and of the blocks exactly those go that a node that goes owned |
| Buffers.BufferHeap.Drop | src/logdb_buffer.c:164-170 | the last reference: the block goes with the node, it was not disposed of before, and the references the node held are given back |
| RopeOps.FlattenConserved | src/logdb_buffer.c:116-122 | flattening keeps every block accounted for, as one that the caller provided or as the data of the one live node that owns it: the old data goes if it was owned and stays with the caller if not |
| RopeOps.RemoveConserved | src/logdb_buffer.c:164-165 | so does the end of a node: its own block goes with it and no other |
| WriteBuffer.WriteBuf | src/logdb_txn.c:21-34 | writes exactly the rope's content through the lease, or a prefix of it if and only if the lease or the disk is too small; the offset moves by the bytes written |
| WriteBuffer.OverwriteConcat | src/logdb_lease.c:190-195 | two adjacent writes are one |
| Leases.Lease.AcquireRead | src/logdb_lease.c:37-64 | succeeds if and only if the offset is below the committed length, and covers the rest |
| Leases.Lease.Read | src/logdb_lease.c:158-176 | reads as far as the file system delivers and moves on by that many, or nothing if the lease is shorter |
| Leases.Lease.Write | src/logdb_lease.c:178-196 | writes at the lease's place in the file as far as the disk goes, or nothing if the lease is shorter |
| Leases.Lease.Seek | src/logdb_lease.c:198-207 | moves within the lease or fails |
| Leases.WrittenBehind | src/logdb_txn.c:83-100 | bytes behind the committed ones belong to the section only once the entry says so |
| Scripts.PublishedAreSurvivors | src/logdb_txn.c:64-185 | for every script of begin, put, commit and rollback the bytes published are the records of exactly the puts whose enclosing transactions all commit, in program order |
| Scripts.WholeStep | src/logdb_txn.c:64-185 | every open and every published transaction is a sequence of whole records |
| Sessions.MergeAsWritten | src/logdb_txn.c:72-77 | the outer transaction is left with a dangling pointer if and only if it had no buffer |
| Sessions.Session.Begin | src/logdb_txn.c:130-134 | a new innermost transaction without bytes |
| Sessions.Session.BuildRecord | src/logdb_txn.c:144-164 | the buffer built for a put is the encoded record if and only if its length fits 32 bits, and what it is otherwise |
| Sessions.Session.Put | src/logdb_txn.c:136-166 | an implicit transaction: the record joins the current transaction or is published at once, and a failed commit leaves nothing behind; a record of 2^32 bytes or more is reported as stored and is not, with a key of that size the bare value is stored, and a record that fills its section empties it |
| Sessions.Session.CommitTop | src/logdb_txn.c:64-115 | merges into the outer transaction or publishes to a section, which a commit up to the last byte empties; without a successful sync nothing is published; on failure the transaction stays open and committed content is unchanged; a merge past 32 bits leaves the outer transaction empty |
| Sessions.Session.Commit | src/logdb_txn.c:168-175 | commits the innermost transaction, fails without one |
| Sessions.Session.Rollback | src/logdb_txn.c:177-185 | drops the innermost transaction and frees its buffer, fails without one |
| Sessions.Session.Close | src/logdb_txn.c:52-62 | gives the innermost transaction's references back; no other transaction or caller sees a change |
| Sessions.WriteTxn | src/logdb_txn.c:79-111 | succeeds if and only if the section exists and has room, the disk takes all bytes and the sync succeeds, and then appends the rope's bytes to that section, or empties it if they fill it; what is committed is on the disk by then; otherwise no content changes |
| Records.RecordsRoundTrip | src/logdb_data.h:4-11 | encoded records decode to themselves |
| Records.WholeIsEncoding | src/logdb_data.h:4-11 | bytes that decode are the encoding of what they decode to |
| Records.WholeConcat | src/logdb_iter.c:75-78 | appending to whole records keeps the records before and starts new ones on a boundary |
| Cursor.SkippingEqualsReading | src/logdb_iter.c:58-80 | between two records of a section the next header is found at the same place whatever was read |
| Cursor.IterationIsCompleteExactly | src/logdb_iter.c:36-81 | an iteration shows a prefix of all records in section and offset order, and all of them if and only if every section but the last is read to within eight bytes of its end |
| Cursor.ReadingShowsEverything | src/logdb_iter.c:36-81 | a caller that reads every value sees every record |
| Cursor.CallingAgain | src/logdb_iter.c:38-44 | another call after an early end goes on with the next section; after the real end it starts again at section 0 |
| Iteration.Iterator.Next | src/logdb_iter.c:36-81 | the method does what the cursor function says, and keeps the lease in agreement with what was read |
| Iteration.Iterator.FirstWithData | src/logdb_iter.c:45-53 | the loop stops at the first section with data |
| Iteration.Iterator.CurrentKey | src/logdb_iter.c:83-94 | the key of the current record, read once |
| Iteration.Iterator.CurrentValue | src/logdb_iter.c:96-111 | the value of the current record; reading it implies reading the key |
| IterationRuns.ReadAll | src/logdb_iter.c:36-111 | while other threads commit and append sections, between any two calls, reading everything returns exactly the records of a snapshot: each section as it was after so many of their steps, so whole transactions only, later sections never before earlier ones, and all sections there were at the end; provided none of them fills a section |
| IterationRuns.OtherThread | src/logdb_lease.c:44-47 | a commit or a new section by another thread does not disturb an iterator |
| Calls.RunLaid | src/logdb_txn.c:79-111 | in any run of calls, with any disk for each, every section holds what it held at first and then the transactions granted to it, in the order of their commits, if and only if no commit fills its section to the last byte |
| Calls.CalledPublishes | src/logdb_txn.c:79-111 | a commit that goes to the disk is published if and only if its section exists and has room, the disk takes it and the sync succeeds; otherwise nothing changes but the transaction |
| Calls.PublishedWereWritten | src/logdb_txn.c:79-111 | over a whole run everything published is the transaction of one call that had all of this |
| Calls.RunIsScript | src/logdb_txn.c:64-185 | a run in which no transaction overflows does what the calls that succeed do when nothing fails |
| Calls.CalledTxns | src/logdb_txn.c:64-185 | a call does to the transactions what its script operation does, or nothing, if and only if no outer transaction overflows 32 bits |
| Calls.RunReadable | src/logdb_iter.c:36-111 | in any run the sections hold whole records, and they are those that were there and those that were published, each exactly once, if and only if no commit fills its section |
| Calls.ReadBack | src/logdb_iter.c:36-111 | after any run without overflow in which no commit fills its section they are, besides those that were there, the records of exactly the puts that succeed and whose enclosing transactions all commit |
| Calls.FillingLosesBoth | src/logdb_txn.c:98-100 | two puts that succeed, the second of which fills the section: both records survive by the rules of transactions, and the section is empty |
| Calls.AboutRun | src/logdb_txn.c:64-185 | all of this for one run: the two conditions, what holds without them, and that a caller who hands over less than 2^32 bytes in all need not think of overflow |
| RoundTrip.RunCall | src/logdb_txn.c:130-185 | the class does on heap and database what the call function says |
| RoundTrip.PutThenIterate | src/logdb_iter.c:36-111 | the same for the code: an iterator opened after any calls returns the records of all sections, in section order; they are the expected ones if no transaction overflows, which fewer than 2^32 bytes cannot do, and no commit fills its section |
| RoundTrip.PutThenIterateInOrder | src/logdb_iter.c:36-111 | when one section holds everything the records come back in program order |
| RoundTrip.PutThenIterateFull | src/logdb_txn.c:98-100 | two records that fill the section to its last byte are stored with success, and nothing comes back |

## Left out

- CommitTheorems.CommitRefinesStore: assumes that every grant is fresh; the code does not check it, and `StaleGrantIsReachable` shows that it can fail.
- CommitTheorems.CommitIsAtomicAppend: the same assumption for the one step.
- CommitTheorems.SuccessfulCommitSurvives: the same assumption for the continuation.
- CommitTheorems.ReadLeaseIsStable: the same, and no power failure in between.
- CommitTheorems.AcknowledgedSurvives: the same assumption for the continuation.
- CommitRecords.LeaseEndsOnRecordBoundary: the same assumption for the run.
- CommitRecovery.RecoveryFindsCommits: the same assumption; a power failure while the database is open is left to the commit machine, and the last close waits until no thread has a transaction.
- CommitLocks.EntryLockExclusion: the in-process slots are a plain map; `TwoLevelExclusion` has the lists of lock blocks.
- TwoLevel.TwoLevelExclusion: assumes that no insertion takes over an entry that somebody is committed to; the code does not check it, and `TwoThreadsHoldOneEntry` shows that it can fail.
- TwoLevel.TwoLevelRefinesStore: both assumptions, fresh grants and guarded insertions.
- WholeSystem.EverythingRecovers: both assumptions, and what `RecoveryFindsCommits` leaves out.
- LockMap.MapRefinement: the assumption on insertions for one step of one list.
- LockMap.InProcessExclusion: the same assumption for the runs of one list.
- LockSafety.HolderExclusion: assumes that insertions are harmless, for the same reason.
- CommitSearch.SearchEndsExactly: nobody else moves meanwhile; while others take and release locks a search may go on for as long as they do.
- CommitSearch.AloneGetsLease: the same.
- CommitCalls.CommitAlone: nobody has an entry locked; otherwise the search decides, see `SearchEndsExactly`.
- LockCalls.LockEnds: the other threads stand still; while they put in blocks without end a walk may go on as long.
- LockCalls.LockCall: the same.
- LockCalls.UnlockCall: the same, and no insertion has taken over an entry in use before.
- TwoLevelCalls.LockCallEnds: both.
- TwoLevelCalls.UnlockCallEnds: both.
- LeaseSearch.AcquireWrite: the same, and the locks of the others are given as one set.
- Sessions.WriteTxn: the section is a parameter, so that every choice the search can make is covered, and the length that the lease starts at is the section's own; the commit machine has the outdated one. The write of the entry does not fail here; `FailedCallEnds` is about one that does.
- Sessions.Session.CommitTop: the outer transaction takes over the buffer of an inner one when it has none; `MergeAsWritten` has the code's own step.
- Sessions.Session.Put: key and value are shorter than 2^32 bytes, and nobody shares a value that is stored bare.
- Buffers.BufferHeap.Data: the content is shorter than 2^32 bytes; beyond that, see `SharedBufferOverflows`, the code writes outside its block.
- Calls.ReadBack: puts with keys of 2^32 - 8 bytes or more, after which the caller's own buffer is gone.
- IterationRuns.ReadAll: no commit fills its section meanwhile; a section emptied that way is written from its start again, under a reader whose lease still covers it.
- Leases.Lease.Read: the iterator's reads of committed bytes deliver all of them.
- Buffers are nodes of an explicit heap map inside one class, not objects of their own, so that freed and dangling pointers can be expressed; addresses are not reused.
- The iterator keeps keys and values as byte strings, not as buffers.
- A zero-length read counts as success; the code tests an uninitialised count there.
- Opening without synchronisation (`LOGDB_OPEN_NOSYNC`): the commit machine always syncs.
- Debug-only checks, except that seeking past the end of a lease fails.
- Several connections of one process to one database; neither lock level would keep them apart.
- Read locks on entries: no caller takes them.
- Conversions of `flock` locks that another process can interrupt, and the failed opens that follow from them.
- Power failure during log creation or merge; those writes are not synced.
- Data races inside `logdb_buffer_data`, which is documented as not thread safe.
- Databases damaged from outside, and 65536 or more sections.
- Allocation failure, logging, path handling, thread-local storage, the language bindings and the stress programs.
