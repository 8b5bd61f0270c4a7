# Concurrent protocols and algorithmic cores, modelled and proved in Dafny

This project models twelve programs from the Verus examples and proves what they are for. The
concurrent ones are step relations over any number of threads, clients or nodes; every access to a
shared word is one sequentially consistent step, and the results are about every reachable state
or every whole run. The sequential ones keep their loops and in-place updates as classes and
methods, each proved against a specification.

`dafny verify dfyconfig.toml` checks everything.

## What is modelled

- **Concurrent cuckoo hash table** (`CuckooMatrix`, `CuckooThreads`, `CuckooInvariant`, `CuckooOwn`,
  `CuckooShared`, `CuckooSteps`, `CuckooPath`, `CuckooTheorems`, `CuckooLeak`, `CuckooProgress`,
  `CuckooSequential`, `CuckooAlone`, `CuckooLoneInsert`, `CuckooLoneOperation`, `CuckooWitness`).
  `read`, `delete` and `insert` are cut into the steps between lock operations and single cell accesses, with the cells in memory (`cells`) separate from the tokens (`matrix`)
  and the map (`abs`). The number of rows is arbitrary, at least 2. Every run is linearizable, the
  rows in memory that nobody is writing represent exactly the map, nothing deadlocks unless an
  insert keeps its locks, and every run ends. `CuckooSequential.Table` is the same code for one
  caller, loops and pushed and popped path included; `CuckooAlone` follows one operation through the
  steps while nobody is in its way, which says what each operation then answers and gives runs in which
  the rare exits are taken.
- **Flag with helping** (`HelpingFlag`). Any number of threads in `flip` and `read`; a flip may be
  committed by another thread. `Linearizability` holds what the two protocols share: histories with
  explicit commit points.
- **Three reader-writer locks** (`CountingLock`, `DistributedLock`, `CacheLock`,
  `CacheLockTheorems`, `CacheLockGrants`), each proved to refine one atomic lock (`AtomicLock`) and to
  grant what it promises to whoever is left alone. Reader tokens carry an
  identity, so that a multiset of equal tokens becomes a map (`Counting`).
- **Flat combiner and ring election** (`FlatCombiner`, `RingElection`), with history variables and
  progress results beside the safety invariants.
- **Sequential cores**: the double-ended filter (`FilterIterator`), remainders over GF(2)
  (`Gf2Remainder`, `Crc32c`), the XOR-linked deque (`Words`, `XorDeque`), the append-only log (`AppendLog`)
  and the Vieta-jumping descent (`VietaJumping`).

## Where the code and its own account differ

- `insert` says that its last exit "shouldn't happen" (examples/cuckoo_hash_table/cuckoo.rs:1334-1336)
  and releases no lock there. It does happen, at the code's own height of 1048576 rows:
  `LeakIsReachable` is a run from the empty table that ends there. `InsertOutcome` says that an
  operation returns with locks if and only if it is an insert that failed after executing a path,
  and with which locks; that such an insert fails exactly if its executed path leaves both home
  rows full is stated by `LoneInsert` for an insert that nobody disturbs and by `Table.Insert` for
  one caller; in every run it takes a path through some cell twice. `LeakShutsOut` says what it
  costs: no insert that has yet to take the main lock ever finishes.
- `do_swing` notes that one should be able to prove that it does not fail, thanks to the main write
  lock (examples/cuckoo_hash_table/cuckoo.rs:1389), and later that the key might have been deleted
  (1420). It fails in two ways. On a path without repeated
  cells, whatever runs at the same time, a swing succeeds if and only if its key is in the map at
  that moment; its target is always empty, and if the key is gone a delete of it has committed since
  the insert was called (`SwingSucceedsIffInMap`). `DeleteCanDefeatASwing` is such a run, of 1048576
  rows. With no delete at work every swing of a path succeeds if and only if the path goes through
  no cell twice (`SwingsSucceedIff`, `Table.ExecutePath`), and `RepeatedCellCanLeaveNoRoom` is a
  path that does not.
- `deposit_loading_to_done` (examples/scache/rwlock.rs:357-364) demands a counted load and drops its
  reference; its proof assumes false at line 986. The model has the transition with the bucketless
  guard, `LoadingToDone`, and as written, `LoadingToDoneAsWritten`. With the guard as written the
  lock stays safe, but the counter is too high for ever after and the object can never be locked
  exclusively again; without the repaired one a bucketless load never ends.
- The flat combiner's transitions let the combiner skip a slot that is set
  (examples/state_machines/flat_combine.rs:312-328). A pass answers a waiting client if and only if it
  does not skip that client's slot (`PassAnswersIffNotSkipped`); when only unset slots are skipped, as
  the comment there says happens in practice, it answers everybody.

## Model

| member | source | states |
|---|---|---|
| CuckooTheorems.MemoryRepresentsTheMap | examples/cuckoo_hash_table/cuckoo.rs:181-236 | in every state of every interleaving the rows not write-locked hold each key at most once, in a home row, with the value of the one map the committed operations produce, and every key of the map whose home rows are not write-locked is stored |
| CuckooTheorems.EveryRunIsLinearizable | examples/cuckoo_hash_table/cuckoo.rs:594-1449 | the committed operations, in commit order, are a legal run of a sequential map, and each commits only between its call and its return |
| CuckooTheorems.ReadsAreAtomic | examples/cuckoo_hash_table/cuckoo.rs:594-703 | a read returns what the map held at its commit point: Some only for the value stored then, None only if the key was absent |
| CuckooTheorems.StepTouchesOnlyItsKey | examples/cuckoo_hash_table/cuckoo.rs:118-179 | a step changes the map at most at its own operation's key, a read or a swing not at all |
| CuckooLeak.InsertOutcome | examples/cuckoo_hash_table/cuckoo.rs:1040-1336 | an operation that has returned holds locks if and only if it is an insert that failed after executing a path; it then holds the main lock and both row locks, and its path went through a cell twice, so an insert whose path repeats no cell succeeds even beside concurrent deletes; every other insert that fails has given the search up, after a chain of height + 2 entries from one of its home rows |
| CuckooLeak.LeakShutsOut | examples/cuckoo_hash_table/cuckoo.rs:1334-1336 | after such a return no insert that has yet to take the main lock ever finishes, and no read or delete that has yet to take the lower of its home rows, if that row was kept |
| CuckooLoneInsert.LoneInsert | examples/cuckoo_hash_table/cuckoo.rs:836-1336 | an insert that meets two full home rows and nobody else executes any path its search may return, fails if and only if the executed path leaves both home rows full, and then keeps all its locks |
| CuckooLoneOperation.LoneHit | examples/cuckoo_hash_table/cuckoo.rs:594-947 | any operation that finds its key and that nobody disturbs answers the value, empties the cell or overwrites it, releases its locks and returns |
| CuckooLoneOperation.LoneOperation | examples/cuckoo_hash_table/cuckoo.rs:594-1038 | on a table that stands for a map, an undisturbed read, delete or insert returns the answer of the sequential map, holds no lock and leaves a table for the new map; only an insert of an absent key between full home rows may do otherwise |
| CuckooLoneOperation.LoneOperationInARun | examples/cuckoo_hash_table/cuckoo.rs:594-1038 | the same in every run for an operation that begins while the others hold no lock it needs |
| CuckooWitness.LeakIsReachable | examples/cuckoo_hash_table/cuckoo.rs:1334-1336 | a run of thirteen inserts from the empty table of 1048576 rows whose last one returns with the main lock and both row locks |
| CuckooWitness.DeleteCanDefeatASwing | examples/cuckoo_hash_table/cuckoo.rs:1420-1421 | a run from the empty table of 1048576 rows in which the guard of a swing fails on a path without repeated cells, because the entry has been deleted |
| CuckooTheorems.SwingSucceedsIffInMap | examples/cuckoo_hash_table/cuckoo.rs:1379-1449 | in every run, on a path without repeated cells, the guard of a swing succeeds if and only if its key is in the map at that moment; the target is always empty, and if the key is not in the map a delete of it has committed since the insert was called |
| CuckooTheorems.ExecutedPathMakesRoom | examples/cuckoo_hash_table/cuckoo.rs:1122-1160 | after such a path its first cell, in a home row of the new key, is empty until the insert fills it, whatever runs at the same time |
| CuckooTheorems.NeverPanics | examples/cuckoo_hash_table/cuckoo.rs:1042-1053 | no unwrap of an empty cell is ever reached |
| CuckooTheorems.LockOrder | examples/cuckoo_hash_table/cuckoo.rs:615-654 | the lock an operation is about to take is above every lock it holds |
| CuckooTheorems.NoWaitCycle | examples/cuckoo_hash_table/cuckoo.rs:859-909 | no reachable state has a circle of operations each waiting for a lock the next one holds |
| CuckooTheorems.ReadsBlockOnlyWriters | examples/cuckoo_hash_table/cuckoo.rs:615-654 | in every run only deletes and inserts about to write wait for a read; reads and the search for a free cell never do |
| CuckooTheorems.SomeOperationCanStep | examples/cuckoo_hash_table/cuckoo.rs:1054-1058 | deadlock freedom: if the finished operations have released their locks, some unfinished one can step |
| CuckooTheorems.LeakBlocksForever | examples/cuckoo_hash_table/cuckoo.rs:1334-1336 | an operation about to take a lock that a finished operation has kept waits in every later state |
| CuckooProgress.RunsAreBounded | examples/cuckoo_hash_table/cuckoo.rs:1067-1152 | a run of n operations on h rows has at most n * (20 h + 96) steps |
| CuckooProgress.MaximalRunsFinishEveryOperation | examples/cuckoo_hash_table/cuckoo.rs:836-1337 | in a run that cannot go on every operation has finished, or a failed insert has kept its locks after a path that repeats a cell |
| CuckooPath.StepInv | examples/cuckoo_hash_table/cuckoo.rs:239-322 | every step of every operation keeps the whole invariant: tokens, memory, locks, history, path |
| CuckooPath.RetryFailsOnlyOnRepeat | examples/cuckoo_hash_table/cuckoo.rs:1160-1332 | the second attempt finds both rows full only if the path went through some cell twice |
| CuckooPath.CheckFailedLive | examples/cuckoo_hash_table/cuckoo.rs:1421-1425 | a swing whose guard fails on such a path still leaves its cell empty for the next one |
| CuckooMatrix.Hash2 | examples/cuckoo_hash_table/cuckoo.rs:27-61 | the second home row is a row of the table and never the first home row, for every height of at least 2 |
| CuckooMatrix.RepresentsOneMap | examples/cuckoo_hash_table/cuckoo.rs:209-226 | a matrix stands for at most one map |
| CuckooMatrix.QueryNone | examples/cuckoo_hash_table/cuckoo.rs:84-93 | a key in neither home row is not in the map |
| CuckooMatrix.DeleteKey | examples/cuckoo_hash_table/cuckoo.rs:118-129 | emptying the key's cell makes the matrix stand for the map without the key |
| CuckooMatrix.UpdateKey | examples/cuckoo_hash_table/cuckoo.rs:131-142 | overwriting the key's cell makes it stand for the map with the new value |
| CuckooMatrix.InsertKey | examples/cuckoo_hash_table/cuckoo.rs:144-159 | filling an empty home cell of an absent key makes it stand for the map with the key |
| CuckooMatrix.Swing | examples/cuckoo_hash_table/cuckoo.rs:161-179 | moving an entry between its home rows keeps the map |
| CuckooSequential.Table.Read | examples/cuckoo_hash_table/cuckoo.rs:594-703 | the two row searches return exactly the map's value for the key |
| CuckooSequential.Table.Delete | examples/cuckoo_hash_table/cuckoo.rs:705-832 | the key and nothing else leaves the map |
| CuckooSequential.Table.UpdateOrPlace | examples/cuckoo_hash_table/cuckoo.rs:867-1038 | the four loops store the pair if and only if the key is present or a home row has room, and otherwise change nothing |
| CuckooSequential.Table.FindFreeSpace | examples/cuckoo_hash_table/cuckoo.rs:1339-1377 | the first empty column of the row, or an arbitrary column of a full row with its key, for which the row is a home |
| CuckooSequential.Table.FindPath | examples/cuckoo_hash_table/cuckoo.rs:1060-1121 | the path is a chain of present entries, each but the first in a full row, each of whose other home row is that of the next, and ends beside the first free cell of the last one's other row, or has height + 2 entries |
| CuckooSequential.Table.DoSwing | examples/cuckoo_hash_table/cuckoo.rs:1379-1449 | moves the entry exactly if it is still there and the target empty, and the map stays |
| CuckooSequential.Table.ExecutePath | examples/cuckoo_hash_table/cuckoo.rs:1122-1152 | the map never changes; no swing fails if and only if no cell occurs twice on the path, and then its first cell ends up empty |
| CuckooSequential.Table.Insert | examples/cuckoo_hash_table/cuckoo.rs:836-1337 | success stores exactly the pair and failure changes nothing; no path is sought exactly if the key is present or has room, a given-up search fails, and an executed path makes the insert fail exactly if it has left both home rows full, which takes a repeated cell |
| CuckooSequential.SwingsSucceedIff | examples/cuckoo_hash_table/cuckoo.rs:1389-1449 | in a table that stands for a map, every swing of a path of present entries that leads to an empty cell finds its guard true if and only if the path goes through no cell twice |
| CuckooSequential.ExecutedRepresents | examples/cuckoo_hash_table/cuckoo.rs:1122-1152 | executing any path keeps the map, whatever swings fail |
| CuckooSequential.RepeatedCellCanLeaveNoRoom | examples/cuckoo_hash_table/cuckoo.rs:1124-1152 | a valid table of 1048576 rows and a path the search may return, through a cell twice, whose execution leaves both home rows of the new key full |
| HelpingFlag.FlagIsParityOfCommits | examples/helping.rs:51-81 | in every state of every run the flag is its initial value inverted once per committed flip, and every read saw the flag of its commit |
| HelpingFlag.EveryOperationCommitsOnce | examples/helping.rs:165-413 | between the call and the return of an operation lies exactly one commit of it, with the result returned, whoever performed it |
| HelpingFlag.FailedWithdrawalWasAccepted | examples/helping.rs:317-413 | a thread whose withdrawal would fail has been accepted: its flip is committed, and no other thread has an offer out |
| HelpingFlag.CancelStep | examples/helping.rs:203-255 | accepting an offer commits two different threads' flips and keeps the invariant |
| HelpingFlag.SoloFinishes | examples/helping.rs:165-201 | from every reachable state an operation left to itself ends within six steps |
| HelpingFlag.LoneFlip | examples/helping.rs:165-315 | from every reachable state a flip left alone returns with the flag inverted and one commit, or, if another flip was on offer, with that one committed too and the flag as it was |
| HelpingFlag.LoneRead | examples/helping.rs:131-163 | a read left alone returns the flag and changes nothing |
| HelpingFlag.TwoFlipsCancel | examples/helping.rs:203-413 | when one thread makes an offer and another looks for one next, two accesses commit both flips without touching the flag, and the offerer returns after three more |
| HelpingFlag.FlipIsLockFree | examples/helping.rs:131-413 | over any stretch of any run of n threads the steps made in flips are at most 7 n, and 7 n + 1 more for each flip committed, whatever reads take place; so when flips go on, flips commit |
| HelpingFlag.StepInv | examples/helping.rs:131-413 | every step keeps the handshake word, the linearization and each thread's phase in line |
| Linearizability.ExactlyOneCommit | examples/helping.rs:165-178 | in a history without broken phases a call and its return enclose exactly one commit |
| Linearizability.CommitInsideCall | examples/helping.rs:165-178 | no commit happens outside an open call of its own thread |
| Linearizability.CommitIsLegal | examples/helping.rs:131-163 | each recorded result is the one the sequential object gives at that point |
| AtomicLock.RunIsSafe | examples/cuckoo_hash_table/rwlock.rs:170-202 | in every run of the atomic lock readers exclude the writer and see the stored object |
| CountingLock.StepRefinesTokens | examples/cuckoo_hash_table/rwlock.rs:509-669 | every atomic access of a thread is one token transition or changes no token |
| CountingLock.TokenStepInv | examples/cuckoo_hash_table/rwlock.rs:66-233 | every token transition keeps the token invariants |
| CountingLock.StepRefinesAtomicLock | examples/cuckoo_hash_table/rwlock.rs:396-411 | every access is a step of the atomic lock or invisible to it |
| CountingLock.RunRefinesAtomicLock | examples/cuckoo_hash_table/rwlock.rs:509-669 | runs of any number of threads are runs of the atomic lock |
| CountingLock.AbstractIsSafe | examples/cuckoo_hash_table/rwlock.rs:170-202 | the atomic lock's safety in every reachable state of the protocol |
| CountingLock.LockIsSafe | examples/cuckoo_hash_table/rwlock.rs:170-202 | a writer has no writer or reader beside it, readers hold the last deposited value, rc is the number of threads between increment and decrement, so it neither over- nor underflows |
| CountingLock.HandleIsWhatWasAsked | examples/cuckoo_hash_table/rwlock.rs:509-669 | in every run a thread that is busy with the lock or holds it last began the operation it is busy with: only a write acquisition ends with the exclusive handle, only a read acquisition with a shared one |
| CountingLock.LoneWriteIff | examples/cuckoo_hash_table/rwlock.rs:509-595 | from every reachable state an idle thread that begins to write undisturbed has the exclusive handle, on the object stored last, after its second access if the lock is free, and otherwise after no number of accesses |
| CountingLock.LoneReadIff | examples/cuckoo_hash_table/rwlock.rs:597-669 | the same for a shared handle after the third access, if nobody writes and the counter is not at its maximum |
| CountingLock.ReadAndRelease | examples/cuckoo_hash_table/rwlock.rs:461-485 | acquiring for reading and releasing gives back the very same state |
| CountingLock.WriteAndRelease | examples/cuckoo_hash_table/rwlock.rs:396-411 | acquiring for writing and releasing replaces the object and nothing else |
| DistributedLock.StepInv | examples/state_machines/dist_rwlock.rs:59-182 | every transition keeps writer, reader and counter invariants |
| DistributedLock.ZeroMeansNoGuard | examples/state_machines/dist_rwlock.rs:207-215 | a zero counter shows that its bucket has no guard |
| DistributedLock.StepRefinesAtomicLock | examples/state_machines/dist_rwlock.rs:59-130 | every transition is a step of the atomic lock; the end of the sweep acquires for writing |
| DistributedLock.RunRefinesAtomicLock | examples/state_machines/dist_rwlock.rs:42-130 | for every number of counters, runs are runs of the atomic lock |
| DistributedLock.LockIsSafe | examples/state_machines/dist_rwlock.rs:137-182 | a finished sweep leaves no guard, guards carry the stored value, each counter is the readers counted in it and positive where a guard is |
| DistributedLock.SweepPassesIff | examples/state_machines/dist_rwlock.rs:67-74 | in every run the sweep passes a bucket if and only if no reader is counted in it |
| DistributedLock.LoneWriteIff | examples/state_machines/dist_rwlock.rs:59-82 | a writer left to itself completes its sweep and takes the object out if and only if no reader is counted when it begins |
| DistributedLock.LoneReadIff | examples/state_machines/dist_rwlock.rs:92-108 | a reader left to itself gets a guard with the stored object if and only if no writer has set the flag |
| DistributedLock.ReadAndRelease | examples/state_machines/dist_rwlock.rs:92-125 | a reader that enters and leaves gives back the very same state |
| DistributedLock.WriteAndRelease | examples/state_machines/dist_rwlock.rs:59-90 | a writer that enters and leaves replaces the object and nothing else |
| DistributedLock.AbstractIsSafe | examples/state_machines/dist_rwlock.rs:137-182 | the atomic lock's safety in every reachable state of the protocol |
| DistributedLock.NewCounters | examples/state_machines/dist_rwlock.rs:325-402 | the loop builds the initial counters |
| CacheLock.StepIsSound | examples/scache/rwlock.rs:145-438 | no enabled transition breaks an assertion: withdrawn objects are there, deposits find the storage empty, tokens do not collide, no counter underflows |
| CacheLock.StepInv | examples/scache/rwlock.rs:451-673 | every transition, with either guard on the deposit, keeps the invariants |
| CacheLockTheorems.CountersAreReferences | examples/scache/rwlock.rs:523-564 | in every run a counter is its references plus those dropped by the guard as written; with the bucketless guard it is exactly its references |
| CacheLockTheorems.LockIsSafe | examples/scache/rwlock.rs:451-521 | an exclusive owner or a loader excludes readers, writeback and each other, and every reader, claimant and writeback has the stored object |
| CacheLockTheorems.AssertionsHold | examples/scache/rwlock.rs:154-248 | in every reachable state every enabled transition meets its assertions |
| CacheLockTheorems.StepRefinesAtomicLock | examples/scache/rwlock.rs:145-438 | every transition is a step of the atomic lock: claims and writebacks read, the end of the sweep upgrades the only reader left, deposits downgrade or release |
| CacheLockTheorems.RunRefinesAtomicLock | examples/scache/rwlock.rs:133-438 | runs of the cache lock are runs of the atomic lock |
| CacheLockTheorems.AbstractIsSafe | examples/scache/rwlock.rs:451-521 | the atomic lock's safety in every reachable state of the cache lock |
| CacheLockGrants.SweepPassesIff | examples/scache/rwlock.rs:228-239 | in every run the sweep passes a bucket if and only if no reader token is counted there and no reference was dropped there, its own reference notwithstanding |
| CacheLockGrants.ClaimantOwnsIff | examples/scache/rwlock.rs:199-249 | a claimant left to itself, with no writeback under way, becomes the exclusive owner, with its own bucket, if and only if no reader is counted anywhere and no reference was dropped |
| CacheLockGrants.GuardsMeanTokens | examples/scache/rwlock.rs:145-438 | in every run each guard on the flag holds if and only if the tokens are as it is meant to say: a claim needs a loaded page that nobody claims, a writeback neither claim nor writeback, the sweep no writeback, the reader's first check nobody past a claim, its second no load |
| CacheLockGrants.LoneReadIff | examples/scache/rwlock.rs:379-438 | a reader left to itself gets the stored object if and only if the page is loaded and nobody is past a claim |
| CacheLockGrants.ReaderLeaves | examples/scache/rwlock.rs:388-413 | a reader that gives up before either check, or leaves after reading, leaves no trace |
| CacheLockGrants.LoneLoad | examples/scache/rwlock.rs:271-355 | a loader left to itself makes the page available with what it loaded and goes on as a reader of it |
| CacheLockGrants.LonePrefetch | examples/scache/rwlock.rs:271-364 | a load without a reference, on either way, makes the page available with what it loaded |
| CacheLockGrants.UpgradeAndBack | examples/scache/rwlock.rs:182-259 | the only reader can become the owner, put another object in and go on reading it, everything else being as before |
| CacheLockGrants.ClaimAndBack | examples/scache/rwlock.rs:169-377 | without a reference one can claim, own, count oneself in a bucket and step back to a claim on another object |
| CacheLockGrants.WritebackAndBack | examples/scache/rwlock.rs:145-167 | a writeback reads the stored object and leaves no trace |
| CacheLockTheorems.DepositIsExactIffBucketless | examples/scache/rwlock.rs:973-1000 | depositing a finished load keeps the counters exact if and only if the load counted no reference |
| CacheLockTheorems.WrittenGuardIsReachable | examples/scache/rwlock.rs:357-364 | a four-step run from the start, for every width, bucket and value, that breaks the count with the guard as written |
| CacheLockTheorems.DroppedReferenceFreezesTheObject | examples/scache/rwlock.rs:228-248 | after such a use no sweep ever passes that bucket, nobody owns the object again and it never changes |
| CacheLockTheorems.BucketlessLoadNeedsTheRepair | examples/scache/rwlock.rs:280-364 | with the guard as written alone a bucketless load never ends and the object stays out |
| FlatCombiner.StepInv | examples/state_machines/flat_combine.rs:69-167 | every transition keeps each client's histories and request in line |
| FlatCombiner.AnswersComeInOrder | examples/state_machines/flat_combine.rs:189-456 | in every run the requests taken from a client are a prefix of those it sent and the responses it received a prefix of those given, payloads included; responses carry the ids of the requests taken in their order, and received is at most one behind sent |
| FlatCombiner.PayloadsArrive | examples/state_machines/flat_combine.rs:189-380 | the same for what the steps of the run deposited and what was found at each withdrawal: neither payload nor id changes on the way |
| FlatCombiner.ClientMayGoOnIff | examples/state_machines/flat_combine.rs:189-272 | a client may post exactly when everything it sent has been received, and withdraw exactly when more responses were given to it than it received |
| FlatCombiner.RequestIsInOnePlace | examples/state_machines/flat_combine.rs:131-167 | a waiting client's request, or the response to it, is unchanged in exactly one of request slot, combiner and response slot, an idle client's in none |
| FlatCombiner.AssertionsHold | examples/state_machines/flat_combine.rs:189-380 | deposits find their place empty, withdrawals find something, and a client receives the response to its own request |
| FlatCombiner.CombinerNeverBlocks | examples/state_machines/flat_combine.rs:274-447 | in every reachable state the combiner has a step that skips no set slot |
| FlatCombiner.PassAnswersIffNotSkipped | examples/state_machines/flat_combine.rs:274-447 | over one pass of any run everything a client had sent before is answered at the end if and only if no request of it was waiting or the pass did not skip its slot |
| FlatCombiner.WaitingIsAnsweredIff | examples/state_machines/flat_combine.rs:274-447 | a request waiting in its slot when a pass begins is answered by its end if and only if the pass does not skip that slot |
| FlatCombiner.PassAnswersEveryone | examples/state_machines/flat_combine.rs:274-447 | a pass that skips only unset slots answers everybody, whatever happened in other passes |
| FlatCombiner.PassIsShort | examples/state_machines/flat_combine.rs:274-447 | in any run there are at most 2 n + 1 combiner steps without the step that ends a pass, whatever the clients do |
| FlatCombiner.SkippingASetSlotStarves | examples/state_machines/flat_combine.rs:312-328 | the transitions allow such a skip: a run with one client whose request a pass leaves waiting |
| RingElection.LeaderHasTheLargestId | examples/state_machines/leader_election_complete.rs:74-83 | in every run there is at most one leader and it holds the largest identifier |
| RingElection.InsideAChord | examples/state_machines/leader_election_complete.rs:85-104 | every identifier strictly inside a chord is below the one at its start and below what its node has heard |
| RingElection.ElectedIffTheRingIsServed | examples/state_machines/leader_election_complete.rs:52-62 | the node with the largest identifier leads after exactly those runs in which it and then each successor around the ring transmit, in that order |
| RingElection.LeaderForever | examples/state_machines/leader_election_complete.rs:74-77 | a leader leads in every continuation of the run |
| RingElection.QuietIffElected | examples/state_machines/leader_election_complete.rs:52-62 | no transmission changes anything if and only if the leader is elected |
| RingElection.AtMostSquareManyChanges | examples/state_machines/leader_election_complete.rs:43-62 | at most n * n transmissions of any run change the state |
| FilterIterator.Filter.Next | examples/iterators/map_and_filter.rs:680-757 | produces the first accepted element of the window, or exhausts it; earlier answers stand, and whatever is still to be answered, the old remainder is the element and the new remainder |
| FilterIterator.Filter.NextBack | examples/iterators/map_and_filter.rs:762-837 | the same from the back |
| FilterIterator.Drive | examples/iterators/map_and_filter.rs:612-837 | for any interleaving of calls at both ends: front outputs, kept window and reversed back outputs are the kept elements in source order, each position outside the window was asked once with an allowed answer, and None means an empty window |
| FilterIterator.DescribesAll | examples/iterators/map_and_filter.rs:645-676 | the same equation for the state of the iterator |
| FilterIterator.DescribesBack | examples/iterators/map_and_filter.rs:839-861 | one answer at the back extends the back outputs by the element exactly if it is accepted |
| FilterIterator.DescribesFront | examples/iterators/map_and_filter.rs:863-887 | one answer at the front, likewise |
| FilterIterator.KeptAtRank | examples/iterators/map_and_filter.rs:509-532 | an accepted position is found at its rank, in every sequence filtered alike |
| FilterIterator.KeptWitness | examples/iterators/map_and_filter.rs:547-580 | every kept element comes from an accepted position with that rank |
| FilterIterator.KeptLength | examples/iterators/map_and_filter.rs:534-545 | sequences filtered alike keep equally many elements |
| Gf2Remainder.ModAgree | examples/assert_by_compute.rs:192-258 | the recursive and the comprehension form of the remainder agree for every dividend |
| Gf2Remainder.XorAgree | examples/assert_by_compute.rs:217-227 | so do the two forms of the sum |
| Gf2Remainder.ZeroesAgree | examples/assert_by_compute.rs:192-200 | and of the zero polynomial |
| Gf2Remainder.ModLinear | examples/assert_by_compute.rs:243-258 | the remainder of a sum is the sum of the remainders |
| Gf2Remainder.ModIdempotent | examples/assert_by_compute.rs:378-406 | the remainder of a remainder is itself |
| Gf2Remainder.ModShift | examples/assert_by_compute.rs:213-215 | shifting before or after reducing gives the same remainder |
| Gf2Remainder.Division | examples/assert_by_compute.rs:243-258 | with q's leading bit set, p is its remainder plus the quotient times q |
| Gf2Remainder.RemainderIff | examples/assert_by_compute.rs:243-258 | with q's leading bit set, the remainder is the only shorter polynomial that differs from p by a multiple of q |
| Gf2Remainder.RemainderIffLeadingBit | examples/assert_by_compute.rs:243-258 | the function computes remainders by q if and only if q's leading bit is set |
| Gf2Remainder.BitsRoundTrip | examples/assert_by_compute.rs:182-190 | the bits of a number that fits give it back |
| Gf2Remainder.ReverseTwice | examples/assert_by_compute.rs:268-276 | reversing twice is the identity |
| Gf2Remainder.PowModCrcIff | examples/assert_by_compute.rs:278-280 | a 32-bit table entry is right if and only if, reversed, it is congruent to the power of x modulo the CRC32C generator |
| Crc32c.GeneratorCoefficients | examples/assert_by_compute.rs:278-280 | the generator is the polynomial with exactly the eighteen terms of CRC32C |
| Crc32c.TimesXReduces | examples/assert_by_compute.rs:243-258 | shifting a remainder by the generator and reducing it is one shift and conditional XOR on its 32-bit word |
| Crc32c.FirstEntry | examples/assert_by_compute.rs:352-358 | the assertion the source has computed: the bits of the first table entry are the remainders for 128 and for 64, one after the other |
| XorDeque.Deque.constructor | examples/doubly_linked_xor.rs:114-125 | a new deque is empty |
| XorDeque.Deque.PushEmptyCase | examples/doubly_linked_xor.rs:127-146 | a push on an empty deque |
| XorDeque.Deque.PushBack | examples/doubly_linked_xor.rs:148-213 | appends the element at the given fresh address and keeps every node's word the XOR of its neighbours |
| XorDeque.Deque.PopBack | examples/doubly_linked_xor.rs:215-297 | removes and returns the last element and frees its node |
| XorDeque.Deque.PopFront | examples/doubly_linked_xor.rs:299-382 | removes and returns the first element and frees its node |
| XorDeque.Deque.PushFront | examples/doubly_linked_xor.rs:384-466 | prepends the element |
| XorDeque.LinkBack | examples/doubly_linked_xor.rs:74-85 | the two node writes of a push keep the list linked |
| XorDeque.UnlinkBack | examples/doubly_linked_xor.rs:74-85 | the node write of a pop, an XOR with the freed address, keeps it linked |
| XorDeque.Execute | examples/doubly_linked_xor.rs:127-466 | any sequence of pushes and pops at both ends returns and leaves what the same operations on a sequence do |
| Words.XorCancel | examples/doubly_linked_xor.rs:262-266 | XOR with one neighbour gives the other |
| AppendLog.OpAssociative | examples/resource/log.rs:142-146 | the algebra is associative |
| AppendLog.OpCommutative | examples/resource/log.rs:137-140 | and commutative |
| AppendLog.OpUnit | examples/resource/log.rs:148-159 | with the empty prefix as unit |
| AppendLog.OpValid | examples/resource/log.rs:134-135 | and parts of valid values are valid |
| AppendLog.AuthorityMayAppend | examples/resource/log.rs:221-231 | the full authority may move to another log unnoticed if and only if it extends the old one |
| AppendLog.HalfMayNotAppend | examples/resource/log.rs:233-249 | one half may not change the log at all |
| AppendLog.DeducePrefixRelation | examples/resource/log.rs:262-274 | two values that can be held together are comparable, and an authority's log is the longer |
| AppendLog.Holders.Split | examples/resource/log.rs:202-219 | the full authority becomes two halves, the log and the other holders stay |
| AppendLog.Holders.Append | examples/resource/log.rs:221-231 | the log grows by the value and the other holders stay |
| AppendLog.Holders.AppendUsingTwoHalves | examples/resource/log.rs:233-249 | two halves, which must agree, append together |
| AppendLog.Holders.ExtractPrefixKnowledge | examples/resource/log.rs:251-260 | a new holder knows the prefix |
| AppendLog.StepJoint | examples/resource/log.rs:192-260 | each operation keeps the holders' joint value a full authority over the log with what it added |
| AppendLog.HoldersKnowTheLog | examples/resource/log.rs:68-159 | in every run the holders' joint value is the full authority over everything appended, in order |
| AppendLog.ExtractionKnows | examples/resource/log.rs:251-260 | in every run the holder added by an extraction knows exactly what the holder asked knew, which for an authority is everything appended so far |
| AppendLog.PrefixForever | examples/resource/log.rs:251-274 | a prefix extracted at any time is kept and is a prefix of every later authority's log |
| AppendLog.HoldersAgree | examples/resource/log.rs:262-274 | any two holders, at any two times, know comparable logs |
| VietaJumping.VietaJump | examples/imo_1988_6.rs:17-27 | the other root of a quadratic with one integer root |
| VietaJumping.JumpDown | examples/imo_1988_6.rs:58-84 | the jump leads to a smaller solution with the same quotient |
| VietaJumping.SquareRootOrdered | examples/imo_1988_6.rs:38-86 | the descent from an ordered solution returns a square root of the quotient |
| VietaJumping.SquareRoot | examples/imo_1988_6.rs:88-127 | for all nonnegative a and b the mutually recursive descent ends on a + b and returns a square root of the quotient |
| VietaJumping.QuotientIffPerfectSquare | examples/imo_1988_6.rs:7-9 | a number is such a quotient if and only if it is a perfect square |

## Left out

- Tracked and ghost tokens, permissions, prophecy variables and atomic updates: replaced by explicit state, history variables and answers recorded when they are given.
- Weak memory orderings and fairness: every access is one sequentially consistent step, and progress is stated for runs in which the steps in question are taken.
- `rand_u8`: any choice, in the threads a parameter of the step, in the class an arbitrary value.
- The memory allocator of the XOR deque: the address of a new node is a parameter, nonzero and not in use; addresses are numbers below 2^64 with a bitwise XOR, not machine pointers.
- Callers of the hash table as such: each call is an operation of its own, and calls that follow one another in one caller are among the interleavings covered.
- `MyHashMap::new` and the cell permissions of cuckoo.rs: only the table it builds, empty, is modelled.
- The row locks inside the interleaved hash table are taken and released in one step each; `CountingLock` proves separately that the lock's own code refines such an atomic lock.
- `into_inner` of examples/cuckoo_hash_table/rwlock.rs and the `borrow` properties: no state of their own.
- The commented-out transitions of examples/scache/rwlock.rs (`load_pending_to_exc` and two properties).
- `MapIterator` of examples/iterators/map_and_filter.rs, and iterators that break the iterator laws or are infinite: the filter is modelled over a finite source.
- The entries of the CRC table of examples/assert_by_compute.rs after the first, which the source does not have computed either, and the other computations in that file: constants settled by evaluation.
- `print`, `main` and the usage examples: input and output only.
- examples/state_machines/petersons_algorithm.rs, arc.rs, counting.rs, interner.rs, rwlock.rs, the vector, tree, sorting and bitmap examples and the guide: smaller state or textbook proofs that would only add easy members.
