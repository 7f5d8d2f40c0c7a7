# Durable transactions: protocols, structures and an allocator

The repository is a family of persistent transactional memories with the data structures and
allocators that run on them.  Its promise is durable linearizable transactions: a crash at any
instruction leaves a memory from which recovery restores a transaction boundary.  This project
models the protocols that make that promise, the concurrency around them, two search trees and an
allocator, and proves the promise for every run, every interleaving and every crash.

## How it is modelled

**Persistent memory** (`Persistence`, and the same scheme inside `Tl2Model`).  Every cache line's
worth of words keeps the history of its contents.  Stores to a line reach memory in order, so a
crash finds any one content at or after the newest one known to be durable.  PWB marks the current
content, the next fence of the same thread makes what is marked durable.  Different lines survive
independently of each other.

**Concurrent protocols** are machines that make one access to shared memory per step.
`Tl2Model` is TrinityTL2, `OneFileModel` is OneFile's lock-free PTM, `TrinityFC` is Trinity with
its thread registry, C-RW-WP lock and flat combining.  A state is `Reachable` if some run of any
number of threads leads to it; the theorems are about all reachable states.  The classes in
`Tl2Code` and `OneFileCode` are the source's own methods and loops, written over such a machine:
between any two accesses of a thread, others may take any number of steps, and the methods are
proved against what the machine's theorems say.

`TrinityFC` runs over Trinity's persistent cells.  A function is any `Code`, which says, given the
results of its calls so far, which cell it reads or writes next, or that it returns.  The lock
holder runs the functions of its batch call by call, each pstore store by store, and endTx as
PFENCE, the store of p_seq, PWB and PSYNC; a crash leaves any image of the cells, and recover is a
scan that crashes may cut off.  `FlatCombining` is the same machine without the cells: there a
function is a number and runs in one step, and endTx is one step.  `TrinityFCTheorems.Projects`
takes every run over the cells to a run without them, so what is proved there of the order of the
functions holds over the cells.

**Single-writer protocols** (`Trinity`, `QuadraCode`, `Romulus`) are classes.  Their `trail` is
every memory a transaction or a recovery goes through, each one store, one PWB or one fence after
the one before (`OnTrail`, in every method's contract), so no access can go unrecorded.  `CrashAndRecover` stops in any memory of
the trail, keeps any image a crash could leave of it, and runs recover, whose own memories are a
trail again; `Run` takes any sequence of transactions, each cut off anywhere by a crash, and again
any number of times in its recoveries.

**Trees** are values (`ZipTree`, `BTree`) with lemmas about their meaning, and nodes linked in a
map from addresses to records (`ZipTreeMemory`, `BTreeMemory`); the source's loops over pointers
are the classes `ZipTreeSet` and `BTreeSet`.  A path with an open end stands for the part of the
tree a loop has left behind.  `BTreeMap` is the map with parent pointers and child indexes, each
field of the nodes a map of its own; `BTreeMapIterator.Iterator` is its cursor, whose place is a
position among the keys from left to right (`BTreePositions`).

**The allocator** (`EsLocoBytes`, `EsLocoLists`, `EsLoco`, `EsLocoCode`) is EsLoco2.  The pool is
bytes: block headers are words read from and stored to the same bytes that the callers' objects are
made of.  A ghost `View` says how the pool is tiled by blocks, slabs and given-up slab tails, and
who has each block.  `EsLocoClient` is what callers see of it.

Clocks and sequence numbers are unbounded integers; `LseqBits.ComposeRoundTrip` says exactly which
thread ids and clock values fit the packed lock word.  Ranks, schedules, crash images and the
addresses the allocator hands to the trees are inputs that may take any value.

## Findings

- Quadra commits with one fence, and its two count slots are shared by every second transaction.
  The store protocol is safe in a state between transactions if and only if `Guard` holds there
  (`Quadra.GuardIsExact`).  Non-empty transactions keep the guard.  An empty transaction still
  advances `v_seq` and can lose it: `QuadraCode.EmptyTransactionLosesHalf` runs the code to a crash
  after which half of a long committed transaction is undone.
- EsLoco2 moves the blocks of a full thread list to the global list, but looks there only for
  blocks of half a slab or more.  When the thread's list is empty and the global list is not, malloc
  hands out a block of the global list if and only if the size is not `Small`, and then its first one
  (`EsLocoCode.EsLoco2.Malloc`).  Smaller blocks stay there for good (`SmallStay`, in the contracts
  of Malloc and Free): in `EsLocoLost.SmallBlocksLost` one thread allocates 64 blocks and
  frees them, the next malloc cuts a new block, and malloc comes to return null with all 64 free.
- The map iterator's SeekToFirst and SeekToLast promise to be valid unless the map is empty.  They
  keep that exactly when the root is not a leaf or the map is empty;
  `BTreeMapIterator.OneEntryNotFirst` is a map whose one entry Seek finds and they do not.
- TL2's committed transactions are serializable in the order in which they start to validate, which
  need not be the order of their commit clocks, since the clock is raised after validation:
  `Tl2Inversion.ClockOrderFails` is a run of two transactions that commit with clocks in the other
  order, the second having overwritten what the first has read.  That is the only way: writers of
  a common cell, and a writer and a later reader of the cell, have clocks in that order
  (`Tl2Order.ClocksFollowConflicts`), so for a transaction and a cell it has read the clocks agree
  with the order if and only if no later transaction overwrote the cell with a smaller clock
  (`Tl2Order.ClockOrderIsExact`).

## Model

| member | source | states |
|---|---|---|
| `LseqBits.ComposeRoundTrip` | ptms/trinity/TrinityTL2.hpp:106-115 | lock, thread id and sequence come back from a packed word if and only if the id is below 128 and the sequence below 2^56 |
| `LseqBits.DecomposeRoundTrip` | ptms/trinity/TrinityTL2.hpp:106-115 | any 64-bit word is put together again from its three parts |
| `Tl2Theorems.StepKeeps` | ptms/trinity/TrinityTL2.hpp:799-852 | every access of every thread, in any state of the others, keeps the machine's invariant |
| `Tl2Theorems.RunKeeps` | ptms/trinity/TrinityTL2.hpp:799-919 | so does every run of steps, crashes and recoveries |
| `Tl2Theorems.Serializability` | ptms/trinity/TrinityTL2.hpp:812-837 | in every reachable state, what each committed update transaction read is what running the earlier committed ones one after the other gives, in the order they started validating; unlocked cells hold the result of all of them |
| `Tl2Theorems.PloadResult` | ptms/trinity/TrinityTL2.hpp:1052-1062 | opacity: a pload that does not abort returns the transaction's own last store, or else the value of one sequential state fixed when the transaction began, also in transactions that will abort |
| `Tl2Theorems.SnapshotHolds` | ptms/trinity/TrinityTL2.hpp:1052-1062 | whatever others do later, all values a transaction has read belong to that one state |
| `Tl2Theorems.SnapshotByClock` | ptms/trinity/TrinityTL2.hpp:117-119 | the writers of a cell in a reader's snapshot are exactly those with a commit clock up to its rClock, and their clocks grow along the order, so the value read is that of the largest clock not above rClock |
| `Tl2Order.ClocksFollowConflicts` | ptms/trinity/TrinityTL2.hpp:812-837 | of two committed transactions, across crashes too, the one that validated first has the smaller commit clock if it wrote a cell that the other reads or writes |
| `Tl2Order.ClockOrderIsExact` | ptms/trinity/TrinityTL2.hpp:812-837 | for a cell a committed transaction has read, the commit clocks of the cell's other writers say on which side of it they are in the order if and only if no later transaction overwrote the cell and took a smaller clock |
| `Tl2Inversion.ClockOrderFails` | ptms/trinity/TrinityTL2.hpp:812-837 | a run of two threads that ends with such a transaction: a validated transaction stops before its fetch_add while another overwrites the cell it has read and commits |
| `Tl2Theorems.CrashAtomicity` | ptms/trinity/TrinityTL2.hpp:895-919 | after a crash at any step, with recovery interrupted any number of times, every cell is unlocked, has main == back and a version up to gClock, and holds the surviving transactions run in order; every in-flight transaction survives or leaves no trace, every durable one survives |
| `Tl2Theorems.RecoveryOutcome` | ptms/trinity/TrinityTL2.hpp:895-919 | recovery cut off by crashes anywhere arrives at the cells an uninterrupted one gives |
| `Tl2Theorems.CommittedForever` | ptms/trinity/TrinityTL2.hpp:812-837 | a transaction whose endTx is about to return true is, with all it read and wrote, in every later state, whatever crashes follow |
| `Tl2Crash.RecoverCell` | ptms/trinity/TrinityTL2.hpp:901-913 | on whatever a crash leaves of a cell, recover's choice between back and main is the value the surviving transactions give |
| `Tl2Reads.AcceptedLoad` | ptms/trinity/TrinityTL2.hpp:1056-1058 | main read before an lseq that passes the check is the value of the snapshot, although the two loads are separate |
| `Tl2Reads.AcceptedEntry` | ptms/trinity/TrinityTL2.hpp:534-540 | an entry that passes validation still has the value read, at the transaction's place in the order, and nothing unsettled before that place writes it |
| `Tl2Code.Trinity.BeginTx` | ptms/trinity/TrinityTL2.hpp:799-808 | starts with empty logs, while others run between its accesses; no version above rClock is older than the transaction |
| `Tl2Code.Trinity.Pload` | ptms/trinity/TrinityTL2.hpp:1052-1062 | returns the own last store or the snapshot's value, or aborts, while others run between its accesses; aborts if and only if, at the load of lseq, the cell is locked by another thread or has a version above rClock |
| `Tl2Code.Trinity.Pstore` | ptms/trinity/TrinityTL2.hpp:1030-1049 | locks, logs and stores once, or aborts; the stores are remembered with the last one winning; aborts if and only if, at the check, the cell is locked by another thread or has a version above rClock |
| `Tl2Code.Trinity.ApplyAll` | ptms/trinity/TrinityTL2.hpp:594-600 | the loop over the log leaves the thread ready to unlock as committed, and no other record changed by it |
| `Tl2Code.Trinity.RollbackAll` | ptms/trinity/TrinityTL2.hpp:604-609 | the loop over the log leaves the thread ready to raise the clock as aborted |
| `Tl2Code.Trinity.UnlockAll` | ptms/trinity/TrinityTL2.hpp:612-621 | the loop over the log ends the transaction with all its locks released |
| `Tl2Code.Trinity.AbortTx` | ptms/trinity/TrinityTL2.hpp:840-852 | ends the transaction without a record of its own having changed |
| `Tl2Code.Trinity.Commit` | ptms/trinity/TrinityTL2.hpp:826-836 | from a successful validation on, ends with the transaction's record durable |
| `Tl2Code.Trinity.EndTx` | ptms/trinity/TrinityTL2.hpp:812-837 | true exactly if the transaction's record, with what it read and stored, is durable, false exactly if it is aborted; false only if some cell it has read was then locked by another thread or had a version above rClock, and exactly then if no other thread runs; a transaction without stores always commits |
| `Tl2Code.Trinity.ValidateAll` | ptms/trinity/TrinityTL2.hpp:534-540 | the loop over the read-set fails only if some cell in it is locked by another thread or has a version above rClock, and exactly then if no other thread runs |
| `Tl2Code.Trinity.RunAlone` | ptms/trinity/TrinityTL2.hpp:799-837 | a transaction of any loads and stores during which no other thread takes a step commits if and only if it touches no cell that another thread had locked when it began |
| `Tl2Aborts.AbortHasCause` | ptms/trinity/TrinityTL2.hpp:107-119 | in every reachable state, a step that aborts a transaction looks at a cell that another thread has locked, or at a version above rClock that another thread has written since the transaction began; never at a lock of its own |
| `Tl2Aborts.ValidateCause` | ptms/trinity/TrinityTL2.hpp:534-540 | the check of one entry fails if and only if its cell is locked by another thread or has a version above rClock |
| `OneFileTheorems.OneSequence` | ptms/onefile/OneFilePTMLF.hpp:733-754 | committed transactions form one sequence, each having read the state after the one before; a cell at sequence q holds its value after transaction q, and all but the last transaction are fully in memory |
| `OneFileTheorems.BegunOnApplied` | ptms/onefile/OneFilePTMLF.hpp:718-728 | once beginTx has returned with sequence s, the stores of transactions 1 to s are all in memory |
| `OneFileTheorems.PloadResult` | ptms/onefile/OneFilePTMLF.hpp:927-936 | a pload that does not abort returns the own last store, or the value after transaction s, although value and sequence are loaded separately |
| `OneFileTheorems.CommitIsNext` | ptms/onefile/OneFilePTMLF.hpp:747-752 | a successful CAS makes the write-set transaction s + 1, and all the transaction read is the state after s |
| `OneFileTheorems.CellsNeverGoBack` | ptms/onefile/OneFilePTMLF.hpp:509-518 | no step of any helper lowers a cell's sequence |
| `OneFileTheorems.StaleHelperHarmless` | ptms/onefile/OneFilePTMLF.hpp:509-518 | a helper of a transaction that is no longer the last changes no cell |
| `OneFileTheorems.HelperFinishes` | ptms/onefile/OneFilePTMLF.hpp:509-518 | when one helper's rotated loop is done, every entry of the write-set is in memory |
| `OneFileTheorems.RetryMeansProgress` | ptms/onefile/OneFilePTMLF.hpp:718-754 | an attempt that starts over has seen another transaction commit |
| `OneFileTheorems.AddLookup` | ptms/onefile/OneFilePTMLF.hpp:441-498 | after addOrReplace no address is logged twice, a lookup of the address finds the new value and lookups of the others find what they found before |
| `OneFileProof.StepKeeps` | ptms/onefile/OneFilePTMLF.hpp:718-936 | every access of every thread keeps the machine's invariant |
| `OneFileProof.PassedAll` | ptms/onefile/OneFilePTMLF.hpp:511-513 | numStores rounds of (tid*8+i) % numStores visit every entry of the log |
| `OneFileProof.DcasLast` | ptms/onefile/OneFilePTMLF.hpp:514-517 | a DCAS that succeeds is of the last transaction and finds the cell at an older one |
| `OneFileCode.OneFile.CopyWriteSet` | ptms/onefile/OneFilePTMLF.hpp:880-886 | the copy is used only if the transaction is still open, otherwise it is already in memory |
| `OneFileCode.OneFile.ApplyEntry` | ptms/onefile/OneFilePTMLF.hpp:511-517 | two loads and a DCAS bring one entry's cell up to the transaction, whatever others do between |
| `OneFileCode.OneFile.ApplyWriteSet` | ptms/onefile/OneFilePTMLF.hpp:509-518 | the loop leaves the whole transaction in memory |
| `OneFileCode.OneFile.HelpApply` | ptms/onefile/OneFilePTMLF.hpp:872-892 | however it returns, the transaction it was called for is in memory |
| `OneFileCode.OneFile.BeginTx` | ptms/onefile/OneFilePTMLF.hpp:718-728 | returns on the current curTx with everything up to it in memory; ends because others must have committed each time around |
| `OneFileCode.OneFile.Pload` | ptms/onefile/OneFilePTMLF.hpp:927-936 | the own last store or the value after transaction s; aborts only if a newer transaction has committed |
| `OneFileCode.OneFile.Pstore` | ptms/onefile/OneFilePTMLF.hpp:907-914 | the write-set becomes the simple log with this store added or replaced |
| `OneFileCode.OneFile.CommitTx` | ptms/onefile/OneFilePTMLF.hpp:733-754 | true only if the write-set is transaction s + 1 and in memory, then the only one of this thread, false only if another transaction came first, then with none of this thread |
| `OneFileCode.OneFile.RunBody` | ptms/onefile/OneFilePTMLF.hpp:789-794 | the function's calls give what they would if it ran alone on the state after s |
| `OneFileCode.OneFile.Transaction` | ptms/onefile/OneFilePTMLF.hpp:779-801 | the retry loop ends under any finite activity of the others; what it returns is the function run alone on the state after some q; if that stores anything, its stores are transaction q + 1, in memory, and no other transaction of this thread has been added, otherwise none has |
| `OneFileWriteSet.WriteSet.Find` | ptms/onefile/OneFilePTMLF.hpp:441-498 | by array scan or through the never cleared buckets, finds the address's entry exactly if it is in the log |
| `OneFileWriteSet.WriteSet.FollowChain` | ptms/onefile/OneFilePTMLF.hpp:490-496 | the chain from a trusted bucket leads to every entry with that hash |
| `OneFileWriteSet.WriteSet.LookupAddr` | ptms/onefile/OneFilePTMLF.hpp:480-498 | the value of the address's entry, or the default |
| `OneFileWriteSet.WriteSet.AddOrReplace` | ptms/onefile/OneFilePTMLF.hpp:441-475 | the log gets the value at the address's one entry, old or new |
| `OneFileWriteSet.WriteSet.Append` | ptms/onefile/OneFilePTMLF.hpp:468-474 | a new entry is indexed although its bucket may hold an index from an older transaction |
| `OneFileWriteSet.WriteSet.Reset` | ptms/onefile/OneFilePTMLF.hpp:724-724 | setting numStores to zero alone gives an empty write-set with a valid index |
| `OneFileWriteSet.WriteSet.CopyFrom` | ptms/onefile/OneFilePTMLF.hpp:501-505 | the copy has the other's log |
| `OneFileWriteSet.WriteSet.RunAll` | ptms/onefile/OneFilePTMLF.hpp:441-475 | after any stores and resets of any transactions the log is the simple log |
| `OneFileWriteSet.LookupIsLastStored` | ptms/onefile/OneFilePTMLF.hpp:480-498 | in the simple log no address occurs twice and a lookup is the value last stored since the last reset |
| `Trinity.TxIsSafe` | ptms/trinity/TrinityFC.hpp:865-878 | while every content of a cell since its last durable one is either untouched by the transaction or backed up, any crash recovers to the last commit |
| `Trinity.CommitIsSafe` | ptms/trinity/TrinityFC.hpp:666-673 | once the cells are durable, a crash recovers to before or after the transaction, by the p_seq that survived |
| `Trinity.Trinity.Pstore` | ptms/trinity/TrinityFC.hpp:865-878 | changes one value, and every memory on the way, one access after the other, recovers to the last commit |
| `Trinity.Trinity.EndTx` | ptms/trinity/TrinityFC.hpp:666-673 | the outermost end commits the contents under the next p_seq, inner ones change nothing; the trail goes on from the old memory to the new one by single accesses |
| `Trinity.Trinity.CommitSeq` | ptms/trinity/TrinityFC.hpp:669-672 | through the store, PWB and PSYNC of p_seq, a crash finds the state before or the state after |
| `Trinity.Trinity.Recover` | ptms/trinity/TrinityFC.hpp:695-708 | the scan leaves the state of the persisted p_seq durable, and is itself safe to interrupt at every access |
| `Trinity.Trinity.CrashAndRecover` | ptms/trinity/TrinityFC.hpp:690-708 | from any memory and any image a crash leaves of it, recovery yields the state at the persisted p_seq, the newest one if no transaction was running |
| `Trinity.Trinity.RunEvent` | ptms/trinity/TrinityFC.hpp:660-708 | a transaction cut off anywhere, with recoveries cut off in turn, is all or nothing, and all if endTx returned |
| `Trinity.Trinity.Run` | ptms/trinity/TrinityFC.hpp:660-708 | the same for every event of any run of transactions and crashes |
| `TxRuns.LastStoreWins` | ptms/trinity/TrinityFC.hpp:865-878 | the effect of a transaction on a cell is its last store there |
| `TxRuns.OthersKeep` | ptms/trinity/TrinityFC.hpp:865-878 | a transaction leaves the cells it does not store to alone |
| `Quadra.GuardIsExact` | ptms/quadra/QuadraFC.hpp:906-921 | between transactions, every crash during every possible next store recovers to the committed contents if and only if the guard on the last transaction's parity and cells holds |
| `Quadra.EarlySafe` | ptms/quadra/QuadraFC.hpp:708-734 | under the guard, an image in which no cell has the new sequence recovers to the contents before |
| `Quadra.LateSafe` | ptms/quadra/QuadraFC.hpp:708-749 | with some cell of the new sequence, recovery yields the new contents if its counts show all cells survived and the old contents otherwise |
| `Quadra.RunsSafe` | ptms/quadra/QuadraFC.hpp:670-684 | every memory of a guarded transaction recovers to before or after it, and to before while no count has been set |
| `Quadra.Unguarded` | ptms/quadra/QuadraFC.hpp:683-683 | without the guard, some store makes a crash undo a cell committed long before |
| `QuadraCode.EmptyTransactionLosesHalf` | ptms/quadra/QuadraFC.hpp:670-684 | a run with an empty transaction after which a crash recovers half of an older committed one |
| `QuadraCode.QuadraTM.Pstore` | ptms/quadra/QuadraFC.hpp:906-921 | changes one value, clears the count before the sequence, logs the cell once; its memories are the given trail |
| `QuadraCode.QuadraTM.SetCounts` | ptms/quadra/QuadraFC.hpp:674-678 | every cell written, and no other, gets the number of cells written in the slot of the sequence's parity |
| `QuadraCode.QuadraTM.FlushPwb` | ptms/quadra/QuadraFC.hpp:525-545 | flushing one line per group of cells flushes every cell of the log |
| `QuadraCode.QuadraTM.Commit` | ptms/quadra/QuadraFC.hpp:673-683 | the one fence leaves all durable; a transaction with stores leaves the guard as well |
| `QuadraCode.QuadraTM.EndTx` | ptms/quadra/QuadraFC.hpp:670-684 | the outermost end commits, raises v_seq and leaves the guard unless the transaction was empty; the trail goes on to the new memory by single accesses |
| `QuadraCode.QuadraTM.FindHighest` | ptms/quadra/QuadraFC.hpp:715-721 | the first scan finds the highest sequence and the count of its first cell |
| `QuadraCode.QuadraTM.CountHolders` | ptms/quadra/QuadraFC.hpp:723-732 | the second scan says whether all counts agree and then how many cells there are |
| `QuadraCode.QuadraTM.Revert` | ptms/quadra/QuadraFC.hpp:736-749 | undoes the highest sequence's cells, each store of it safe to interrupt |
| `QuadraCode.QuadraTM.Recover` | ptms/quadra/QuadraFC.hpp:708-734 | yields what the counts call for, durably, with the guard in place for the next transaction |
| `QuadraCode.QuadraTM.CrashAndRecover` | ptms/quadra/QuadraFC.hpp:708-749 | from any memory of a guarded transaction, recovery yields the contents before or after it, and after it once endTx has returned |
| `QuadraCode.QuadraTM.Run` | ptms/quadra/QuadraFC.hpp:664-749 | any run of non-empty transactions, each cut off anywhere, its recoveries cut off in turn: all or nothing, and all if there was no crash |
| `Romulus.SafeRecovers` | ptms/romuluslog/RomLogFC.hpp:698-712 | if every state that may survive points to a durable copy with contents v or w, recovery makes both copies v or both w |
| `Romulus.Romulus.BeginTx` | ptms/romuluslog/RomLogFC.hpp:673-679 | MUTATING is durable before the first store |
| `Romulus.Romulus.Pstore` | ptms/romuluslog/RomLogFC.hpp:867-874 | changes one value in main and logs its address |
| `Romulus.Romulus.MainDurable` | ptms/romuluslog/RomLogFC.hpp:685-686 | flushing the logged addresses makes all of main durable |
| `Romulus.Romulus.MarkCopying` | ptms/romuluslog/RomLogFC.hpp:687-689 | between MUTATING and COPYING a crash recovers to before or after the transaction, from then on to after it |
| `Romulus.Romulus.ApplyStores` | ptms/romuluslog/RomLogFC.hpp:553-557 | copying the logged addresses makes back equal to main everywhere |
| `Romulus.Romulus.EndTx` | ptms/romuluslog/RomLogFC.hpp:682-696 | on return both copies hold the transaction durably, though IDLE is not flushed; the trail goes on to the new memory by single accesses |
| `Romulus.Romulus.Recover` | ptms/romuluslog/RomLogFC.hpp:698-712 | restores the good copy over the other, safe to interrupt at every store |
| `Romulus.Romulus.CrashAndRecover` | ptms/romuluslog/RomLogFC.hpp:698-712 | from any memory, recovery yields main == back with the contents before or after, and after once endTx has returned |
| `Romulus.Romulus.Run` | ptms/romuluslog/RomLogFC.hpp:673-712 | any run of transactions, each cut off anywhere, its recoveries cut off in turn: all or nothing, and all if there was no crash |
| `FlatCombiningTheorems.Exclusion` | ptms/trinity/TrinityFC.hpp:432-523 | while a lock holder that has passed waitForReaders runs mutations, no other thread holds the lock and none reads, though the scan is not atomic and threads register meanwhile |
| `FlatCombiningTheorems.ReaderSnapshot` | ptms/trinity/TrinityFC.hpp:761-772 | while a thread reads, every function that has run belongs to a committed batch, and no step of anyone adds one |
| `FlatCombiningTheorems.TidsUnique` | ptms/trinity/TrinityFC.hpp:132-149 | registered threads have different ids, all below maxTid |
| `FlatCombiningTheorems.AtMostOnce` | ptms/trinity/TrinityFC.hpp:714-758 | no published function is executed twice, in any run with any crashes |
| `FlatCombiningTheorems.ReturnsDurable` | ptms/trinity/TrinityFC.hpp:714-758 | when the publishing call returns, by either exit, its function is among those of the batches whose endTx is over |
| `FlatCombiningTheorems.ReturnedIsEnded` | ptms/trinity/TrinityFC.hpp:714-772 | the functions counted as returned are exactly those of the writing calls that have ended, whatever the step that ended them |
| `FlatCombiningTheorems.EndsDone` | ptms/trinity/TrinityFC.hpp:714-772 | in every reachable state, a step by which a writing call ends leaves its function executed, durable and counted as returned; a reading call ends only from within its read section |
| `FlatCombiningProgress.LoneCallEnds` | ptms/trinity/TrinityFC.hpp:714-772 | in every reachable state, a call whose thread is the only one inside can be run to its end by its own steps, and a write's function has then been executed, durably |
| `FlatCombiningTheorems.ReturnedForever` | ptms/trinity/TrinityFC.hpp:714-758 | later runs, crashes included, keep it at its place in the order and never execute it again |
| `FlatCombiningTheorems.CrashKeepsBatches` | ptms/trinity/TrinityFC.hpp:714-758 | without the cells: if a crash drops the functions that ran since the last commit, no function whose call has returned is among them |
| `FlatCombiningProof.StepKeeps` | ptms/trinity/TrinityFC.hpp:714-772 | every access of every thread keeps the machine's invariant |
| `FlatCombiningProof.CrashKeeps` | ptms/trinity/TrinityFC.hpp:690-708 | a crash at any step does, too |
| `TrinityFCTheorems.CrashRecovers` | ptms/trinity/TrinityFC.hpp:660-758 | durable linearizability: after any run, any image a crash leaves and recoveries cut off any number of times, the cells hold, durably, what the first k functions executed leave when run alone one after the other, k being where the batch of the p_seq that survived ended; the functions whose calls have returned are among these k |
| `TrinityFCTheorems.ReturnedStays` | ptms/trinity/TrinityFC.hpp:714-758 | once its call has returned a function is, in every later state without a writer at work, at one and the same place among the functions whose effects the cells hold, and before every function called later |
| `TrinityFCTheorems.EndsDone` | ptms/trinity/TrinityFC.hpp:714-772 | over the cells, too, an access by which a writing call ends leaves its function executed, in a batch whose endTx is over, and counted as returned |
| `TrinityFCTheorems.MemoryIsExecuted` | ptms/trinity/TrinityFC.hpp:714-758 | when no writer is at work, the cells are what the functions executed leave when each runs alone, in that order |
| `TrinityFCTheorems.ReaderSees` | ptms/trinity/TrinityFC.hpp:761-772 | all that a read-only transaction has loaded is in the cells, with no writer at work |
| `TrinityFCTheorems.ReaderStays` | ptms/trinity/TrinityFC.hpp:761-772 | and no access of any thread changes a cell or runs a function before it leaves |
| `TrinityFCTheorems.RanOnce` | ptms/trinity/TrinityFC.hpp:744-747 | functions run in the same order from the same cells leave the same cells |
| `TrinityFCTheorems.Projects` | ptms/trinity/TrinityFC.hpp:714-772 | every run over the cells, crashes and interrupted recoveries included, is one of the machine without them, with the same order of functions and the same returns |
| `TrinityFCProof.WorkKeeps` | ptms/trinity/TrinityFC.hpp:666-673 | every store, PWB and fence of a function or of endTx, whatever the other threads are at, keeps the machine's invariant |
| `TrinityFCCrash.CrashFinds` | ptms/trinity/TrinityFC.hpp:690-708 | in any image a crash leaves, what recover will make of each cell is what the functions kept leave |
| `TrinityFCCrash.RecoverEnds` | ptms/trinity/TrinityFC.hpp:695-708 | when the scan is over the cells hold the recovered contents durably |
| `TrinityFCCrash.RunKeeps` | ptms/trinity/TrinityFC.hpp:660-772 | every run of steps, loads, accesses, crashes and recovery steps keeps the machine's invariant |
| `ZipTree.Canonical` | pdatastructures/TMZipTreeSet.hpp:120-166 | a tree in key order and rank order is determined by its keys, ranks and nodes |
| `ZipTree.DeleteUndoesInsert` | pdatastructures/TMZipTreeSet.hpp:120-216 | inserting an absent key and deleting it gives back the same tree |
| `ZipTree.InsertsCommute` | pdatastructures/TMZipTreeSet.hpp:120-166 | inserts of two keys in either order build the same tree |
| `ZipTree.AnyOrder` | pdatastructures/TMZipTreeSet.hpp:120-166 | any order of inserting the same elements builds the same tree |
| `ZipTree.InsertSorted` | pdatastructures/TMZipTreeSet.hpp:120-166 | insertion keeps key order and adds exactly the new element |
| `ZipTree.InsertHeaped` | pdatastructures/TMZipTreeSet.hpp:120-166 | and keeps rank order, ties to the right |
| `ZipTree.DeleteSorted` | pdatastructures/TMZipTreeSet.hpp:169-216 | deletion keeps key order and removes exactly the key |
| `ZipTree.DeleteHeaped` | pdatastructures/TMZipTreeSet.hpp:169-216 | and keeps rank order |
| `ZipTreeSet.ZipTreeSet.IterativeInsert` | pdatastructures/TMZipTreeSet.hpp:120-166 | the loops over cur, prev and fix leave in memory the tree with the node inserted |
| `ZipTreeSet.ZipTreeSet.UnzipBelow` | pdatastructures/TMZipTreeSet.hpp:144-165 | relinking only where the path changes sides leaves the two unzipped halves |
| `ZipTreeSet.ZipTreeSet.IterativeDelete` | pdatastructures/TMZipTreeSet.hpp:169-216 | leaves the tree without the key, and says whether it was there |
| `ZipTreeSet.ZipTreeSet.ZipSpines` | pdatastructures/TMZipTreeSet.hpp:195-214 | merges the two spines by rank, relinking only where it changes sides |
| `ZipTreeSet.ZipTreeSet.RecursiveFind` | pdatastructures/TMZipTreeSet.hpp:219-237 | a node with the key if and only if the tree has it |
| `ZipTreeSet.ZipTreeSet.Add` | pdatastructures/TMZipTreeSet.hpp:76-88 | true exactly if the key was absent; adds exactly that key |
| `ZipTreeSet.ZipTreeSet.Remove` | pdatastructures/TMZipTreeSet.hpp:90-101 | true exactly if the key was present; removes exactly that key |
| `ZipTreeSet.ZipTreeSet.ContainsKey` | pdatastructures/TMZipTreeSet.hpp:103-110 | true exactly if the key is in the tree |
| `ZipTreeSet.ZipTreeSet.Run` | pdatastructures/TMZipTreeSet.hpp:76-110 | any run of operations returns what a mathematical set would, whatever ranks are drawn |
| `BTree.SplitFlat` | pdatastructures/TMBTree.hpp:297-330 | splitting a child leaves the sequence of keys from left to right as it is |
| `BTree.MergeFlat` | pdatastructures/TMBTree.hpp:396-423 | so does merging two children |
| `BTree.SplitUndoesMerge` | pdatastructures/TMBTree.hpp:297-423 | splitting a merged child where it was joined gives back the tree, pointers included |
| `BTree.EnsureKeeps` | pdatastructures/TMBTree.hpp:339-391 | making sure of a spare key, by stealing from either side or merging with either, keeps shape and key sequence, gives the child more than minKeys and costs the parent at most one key |
| `BTreeSet.BTreeSet.Search` | pdatastructures/TMBTree.hpp:276-290 | the slot of the key, or the child it belongs in |
| `BTreeSet.BTreeSet.SeqContains` | pdatastructures/TMBTree.hpp:97-109 | true exactly if the key is in the set |
| `BTreeSet.BTreeSet.SplitChild` | pdatastructures/TMBTree.hpp:297-330 | the stores to slots, in place and with stale slots left over, make the split tree |
| `BTreeSet.BTreeSet.Insert` | pdatastructures/TMBTree.hpp:112-161 | false exactly if the key was present; adds exactly that key; keeps sorted order, uniform depth and node sizes, never meets a full node on its walk, ends |
| `BTreeSet.BTreeSet.ChildForInsert` | pdatastructures/TMBTree.hpp:145-158 | goes on in a child with room, or stops because the key that came up is the argument |
| `BTreeSet.BTreeSet.StealFromLeft` | pdatastructures/TMBTree.hpp:354-370 | the stores to three nodes make the tree with one key moved right |
| `BTreeSet.BTreeSet.StealFromRight` | pdatastructures/TMBTree.hpp:371-382 | and with one key moved left |
| `BTreeSet.BTreeSet.MergeChildren` | pdatastructures/TMBTree.hpp:396-423 | the stores and the freed node make the merged tree |
| `BTreeSet.BTreeSet.EnsureChildRemove` | pdatastructures/TMBTree.hpp:339-391 | returns the child to go on with, in the tree that EnsureKeeps is about |
| `BTreeSet.BTreeSet.RemoveMin` | pdatastructures/TMBTree.hpp:428-443 | removes and returns the first key of the subtree, keeping its shape |
| `BTreeSet.BTreeSet.RemoveMax` | pdatastructures/TMBTree.hpp:448-459 | removes and returns the last key of the subtree, keeping its shape |
| `BTreeSet.BTreeSet.RemoveKey` | pdatastructures/TMBTree.hpp:462-469 | closes the gap in the key slots |
| `BTreeSet.BTreeSet.ReplaceKey` | pdatastructures/TMBTree.hpp:196-201 | replacing a key by its predecessor or successor removes exactly that key from the set |
| `BTreeSet.BTreeSet.MergeAndGoDown` | pdatastructures/TMBTree.hpp:202-212 | the key to remove is at slot minKeys of the merged child; an emptied root gives way |
| `BTreeSet.BTreeSet.EnsureAndGoDown` | pdatastructures/TMBTree.hpp:214-226 | goes on in a child that has a key to spare and where the key belongs; an emptied root gives way |
| `BTreeSet.BTreeSet.Erase` | pdatastructures/TMBTree.hpp:166-228 | returns 1 exactly if the key was present; removes exactly that key; keeps all B-tree invariants, never fails its walk assertions, ends |
| `BTreeMapNodes.SplitLinks` | ptmdb/TMBTreeMap.hpp:243-284 | splitting keeps parent and childIndex exact at every node of the map, not only at the three it stores to |
| `BTreeMapNodes.SplitValues` | ptmdb/TMBTreeMap.hpp:243-284 | and leaves every key with its value, at one node |
| `BTreeMap.BTreeMap.Search` | ptmdb/TMBTreeMap.hpp:218-237 | bisection ends with the key's slot, or with the one child it can be in |
| `BTreeMap.BTreeMap.SplitChild` | ptmdb/TMBTreeMap.hpp:243-284 | the interleaved stores to keys, values, children, parents and indexes make the split tree |
| `BTreeMap.BTreeMap.InnerPut` | ptmdb/TMBTreeMap.hpp:458-513 | true exactly if the key had no value; the map changes at that key only; keeps sorted order, depth, node sizes and the way up |
| `BTreeMap.BTreeMap.InnerGet` | ptmdb/TMBTreeMap.hpp:592-607 | the value last put for the key, or false exactly if there is none |
| `BTreePositions.SamePlace` | ptmdb/TMBTreeMapIterator.h:26-28 | a position in key order is at one slot of one node only |
| `BTreeMapIterator.Iterator.Seek` | ptmdb/TMBTreeMapIterator.h:85-123 | stops at the first entry not below the target, and is invalid exactly if there is none |
| `BTreeMapIterator.Iterator.Next` | ptmdb/TMBTreeMapIterator.h:128-157 | goes to the very next position, down or up the tree, and is invalid exactly after the last |
| `BTreeMapIterator.Iterator.Prev` | ptmdb/TMBTreeMapIterator.h:162-192 | goes to the position before, and is invalid exactly before the first |
| `BTreeMapIterator.Iterator.Key` | ptmdb/TMBTreeMapIterator.h:197-202 | the key at the position |
| `BTreeMapIterator.Iterator.Value` | ptmdb/TMBTreeMapIterator.h:208-211 | the value the map has for that key |
| `BTreeMapIterator.Iterator.NextThenPrev` | ptmdb/TMBTreeMapIterator.h:128-192 | Prev undoes any Next that found an entry, to the same slot of the same node |
| `BTreeMapIterator.Iterator.ScanFrom` | ptmdb/TMBTreeMapIterator.h:85-157 | Seek and then Next until invalid visits every entry at or past the target and no other, in strictly increasing order, with its value |
| `BTreeMapIterator.Iterator.SeekToFirst` | ptmdb/TMBTreeMapIterator.h:50-63 | is at the first entry, or invalid exactly if the root is a leaf; the promise to be valid unless the map is empty holds if and only if the root is not a leaf or the map is empty |
| `BTreeMapIterator.Iterator.SeekToLast` | ptmdb/TMBTreeMapIterator.h:67-80 | the same for the last entry |
| `BTreeMapIterator.OneEntryNotFirst` | ptmdb/TMBTreeMapIterator.h:50-80 | a map with one entry that SeekToFirst and SeekToLast do not find and Seek does |
| `EsLocoBytes.ValueOfBytes` | ptms/trinity/TrinityTL2.hpp:203-208 | a word put into bytes and read back is the same word |
| `EsLocoBytes.HeaderStays` | ptms/trinity/TrinityTL2.hpp:308-311 | a store that meets neither [a, a + 32) nor [a + 32, a + 64) leaves next and size2 of the block at a as they are |
| `EsLocoLists.PushBlock` | ptms/trinity/TrinityTL2.hpp:321-330 | the list is as before with the block in front; count and tail stay exact |
| `EsLocoLists.PopBlock` | ptms/trinity/TrinityTL2.hpp:335-343 | the list is as before without its first block |
| `EsLocoLists.Transfer` | ptms/trinity/TrinityTL2.hpp:350-363 | the other list has this one's blocks in front, this one is empty; counts and tails stay exact |
| `EsLoco.HighestBit` | ptms/trinity/TrinityTL2.hpp:416-421 | the least exponent whose power of two is not below the value |
| `EsLoco.EveryByte` | ptms/trinity/TrinityTL2.hpp:453-503 | every byte between the metadata and top is in exactly one block, slab or given-up slab tail |
| `EsLoco.NoOverlap` | ptms/trinity/TrinityTL2.hpp:453-503 | two blocks never overlap, and all lie between the metadata and top |
| `EsLoco.OneList` | ptms/trinity/TrinityTL2.hpp:314-364 | a free block is in one list, of its own size, and in no other |
| `EsLoco.MoveKeeps` | ptms/trinity/TrinityTL2.hpp:505-521 | moving blocks of one size between a thread's list, the pool's and the callers keeps all lists and the tiling |
| `EsLoco.CutSlab` | ptms/trinity/TrinityTL2.hpp:479-483 | a block cut from a slab takes its space from that slab alone |
| `EsLoco.NewSlab` | ptms/trinity/TrinityTL2.hpp:470-476 | a new slab takes its space above top; less than half a slab is given up of the old one |
| `EsLoco.DataWritten` | ptms/trinity/TrinityTL2.hpp:308-311 | a store to the bytes of a block behind its header changes no header of any block and no data of another block, and keeps all lists and the tiling |
| `EsLocoCode.EsLoco2.Malloc` | ptms/trinity/TrinityTL2.hpp:453-503 | hands out a block that was not handed out, of the least power of two that holds object and header, and changes no other block's owner: the first of the thread's list, else the first of the pool's list if and only if the size is not small and that list is not empty, else one cut from a slab; null, with nothing changed, exactly when list, slab or pool are exhausted; the object lies in its block and meets the next and size2 words of no block, and no data in any block is changed |
| `EsLocoCode.EsLoco2.Free` | ptms/trinity/TrinityTL2.hpp:505-521 | finds the exponent that malloc wrote, whatever callers stored meanwhile, and puts exactly that block in front of the thread's list, and a list of 64 blocks in front of the pool's; no data in any block is changed |
| `EsLocoCode.EsLoco2.FromSlab` | ptms/trinity/TrinityTL2.hpp:466-483 | cuts the block from the thread's slab, a new one if the old is too short |
| `EsLocoCode.EsLoco2.TransferToGlobal` | ptms/trinity/TrinityTL2.hpp:515-520 | the thread's whole list is in front of the pool's list of that size |
| `EsLocoCode.EsLoco2.StoreData` | ptms/trinity/TrinityTL2.hpp:503-503 | any bytes stored to an object by its holder read back, and leave all headers, lists and other objects as they are |
| `EsLocoClient.ObjectsApart` | ptms/trinity/TrinityTL2.hpp:453-503 | no two objects handed out share a byte |
| `EsLocoClient.Run` | ptms/trinity/TrinityTL2.hpp:453-521 | in any run of mallocs, frees and stores by any threads, every object reads as what was last stored to each of its bytes, until it is freed |
| `EsLocoLost.SmallBlocksLost` | ptms/trinity/TrinityTL2.hpp:453-521 | 64 blocks of one small size allocated and freed by one thread are all in the pool's list, its own is empty, and the next malloc of the size cuts a new block; after further mallocs one returns null with all 64 still free; whatever bytes the pool held at first |
| `EsLocoLost.Take` | ptms/trinity/TrinityTL2.hpp:466-483 | with the thread's list empty, a malloc of a small size leaves the blocks in the pool's list where they are and hands out a new block, or null if slab and pool are exhausted |
| `EsLocoLost.Exhaust` | ptms/trinity/TrinityTL2.hpp:466-476 | repeated, it comes to return null, the blocks in the pool's list still free |

## Left out

- Tl2Code.Trinity.EndTx: the loop that retries an aborted TL2 transaction is not modelled; it need not end, since TL2 is not lock-free.
- Tl2Theorems.CrashAtomicity: a failed CAS is not counted as a persistence fence, which allows more crash images than the hardware does; the clock does not wrap at 2^56 and thread ids fit their 7 bits (`LseqBits.ComposeRoundTrip` has the exact condition).
- OneFileCode.OneFile.CommitTx: the persistent copy of the write-set and its flushes are left out; the source does not call OneFile's recover, so only the concurrent behaviour is modelled.
- OneFileWriteSet.WriteSet.CopyFrom: the copied entries' next pointers into the other log are not kept; a copy is only applied, never searched.
- QuadraCode.QuadraTM.Run: transactions are non-empty and store to at most CHUNK_SIZE cells, which the source asserts; the region's last slot, which recover's scans skip, is taken to be unused.
- Romulus.Romulus.Recover: PMetadata, with the root pointers, is skipped by the rollback and is not among the cells.
- FlatCombiningTheorems.ReturnsDurable: says nothing of the cells, which `TrinityFCTheorems.CrashRecovers` does.
- TrinityFCTheorems.CrashRecovers: functions load and store persistent cells and keep no other state.
- FlatCombiningProgress.LoneCallEnds: with other threads inside, that a call returns is not claimed, since the lock is not fair; nor that a function over the cells returns, since it may loop.
- EsLocoCode.EsLoco2.Malloc: sizes of 2^49 bytes and more, for which the source would index outside its lists, are excluded; the allocator's own stores are taken to run inside a transaction, and of a header word's 32 bytes only main is stored to, the other 24 being the transactional memory's.
- BTreeMap.BTreeMap.InnerPut: keys and values are numbers in place of byte slices and their comparison; the sixteenth key slot, which no node of at most 2 * 8 - 1 keys uses, is not there.
- The map's innerRemove, whose removeKey and removeMin return pointers to slots they overwrite; removal is proved of the set's Erase.
- Readers of TL2 declared read-only do not store, as TX_IS_READ requires of them.
- Cells that share a cache line are independent lines in the model, which allows more crash images than the hardware does.
- Stores made outside a transaction, nested read transactions, and pool formatting.
- Mapping files, DAX, the cache-flush instructions, backoff and spinning.
- Weak memory orders: accesses are sequentially consistent.
- Allocation in the trees: a node's address is any address not in use; the source's clear and deleteAll, which leave nodes behind, are not modelled.
- ZipTree's random ranks are inputs.
- EsLoco, the allocator without slabs and threads, because EsLoco2 contains its algorithm.
- RomulusLog, RomLog2FFC, RomLogTSFC, the VR variants of Trinity and Quadra, wait-free OneFile and the PMDK wrapper.
- The hash maps, lists, queues, stacks and the database around the map, because they would add easier members.
