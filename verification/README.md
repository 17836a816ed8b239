# Verified models of the repository's concurrent and systems algorithms

Dafny models of the pieces of this repository that are algorithms with invariants, and proofs of what they
promise. Each module follows one component:

- `ByteRing`: the single-producer, single-consumer byte ring with its wrap marker. `BinlogRegistry`, `BinlogFile`,
  `BinlogDump`, `BinlogTags`: the binary log, from the lock-free registry of threads through the dumper to the polling
  reader and the class tags it hands out.
- `Rcu`, `Seqlock`, `TicketLock`: the synchronisation protocols in `Utils`.
- `TypeLists`, `TaskScheduler`: the compile-time task scheduler.
- `Bitmap`: the bitmap slice allocator.
- `Matching`, `Ledger`, `OrderBook`, `Exchange`, `Auction`: the PrestoLabs matching engine.
- `CircularBuffer`, `ScullPipe`, `Shortprint`, `ShortprintStall`: the blocking pipe and the printer driver.
- `QuantumStore`, `ByteMap`, `ScullStore`, `ScullpStore`: the scull and scullp stores.
- `PointerChase`: the random ring of the cache benchmark.
- `Common`, `Bytes`, `Memory`: what several of them share.

Concurrent code is a state machine. A `State` holds the shared variables, the place of every thread and, as ghost
history, what the properties speak about; `Step` is one atomic load, store or locked section; `StepKeepsInv` is
proved for every step, and the main results follow for `Run`, every finite sequence of steps. Beside it stands a
class with the source's own fields whose methods are the steps, each proved to do what `Step` says. Sequential code
is classes and methods with loops, proved against functions whose properties are lemmas. Steps are interleaved under
sequential consistency.

Where the code does not do what its documentation or a reader would expect, the code is kept and the exact condition
is proved: `Seqlock.SoundIffNoWrap` (a 32-bit sequence that wraps between two looks), `TicketLock.SafeIffTicketsFit`,
`BinlogRegistry.InBoundsIffFewPushes` (the full test is not atomic with the claim), `OrderBook.Book.Match` (the next
level's price is read before the end test, `PrestoLabs/src/Book.hpp:69`), `BinlogTags.TaggedIff` (an event's descriptor
may reach the file after an entry of another thread), `ShortprintStall.StuckIff` (a writer can sleep for ever on an
empty buffer), `ByteMap.OnlyRangeIff` (a new scull quantum is not cleared), `ByteMap.ShowsTheMapIff` (scull reads its
sizes before it takes the semaphore), and `Bitmap.MemoryRingBuffer.Empty` (true when the allocator is full).

`dafny verify dfyconfig.toml` checks the whole project.

## Model

| member | source | states |
|---|---|---|
| `ByteRing.StreamIsExact` | Other/MemoryAllocator/ConcurrentMemoryRingBuffer.cpp:59-188 | Over every interleaving of the producer's and the consumer's loads, stores and byte copies: bytes delivered, then bytes still in the ring, are the committed stream; a window held between beginRead and endRead is its next piece |
| `ByteRing.ReadTakesAllUnread` | Other/MemoryAllocator/ConcurrentMemoryRingBuffer.cpp:163-188 | Whatever the producer does meanwhile, beginRead hands out exactly the bytes that were unread when it loaded the write index, and endRead delivers them and moves the read index there |
| `ByteRing.WrittenIsRead` | Other/MemoryAllocator/ConcurrentMemoryRingBuffer.cpp:66-88 | Bytes copied into a granted gap and committed come out of the next read, behind all earlier ones, and drain the ring |
| `ByteRing.HeldWindowIsStable` | Other/MemoryAllocator/ConcurrentMemoryRingBuffer.cpp:163-188 | Whatever the producer does between beginRead and endRead, every byte of the two buffers handed out stays as it was |
| `ByteRing.WriteMissesWindow` | Other/MemoryAllocator/ConcurrentMemoryRingBuffer.cpp:66-77 | The next byte to be copied lies outside both pieces of a held window, in the right-fill, wrapped and stale-snapshot cases |
| `ByteRing.StepKeepsInv` | Other/MemoryAllocator/ConcurrentMemoryRingBuffer.cpp:59-188 | One step of either thread keeps the invariant that ties both indices, the wrap marker, the snapshots and the histories together |
| `ByteRing.CommitPublishesPending` | Other/MemoryAllocator/ConcurrentMemoryRingBuffer.cpp:84-88 | A commit adds to the unread bytes exactly what was copied since the last one |
| `ByteRing.EndReadReleasesWindow` | Other/MemoryAllocator/ConcurrentMemoryRingBuffer.cpp:163-188 | endRead removes from the unread bytes exactly the window |
| `ByteRing.WindowIsNextUnread` | Other/MemoryAllocator/ConcurrentMemoryRingBuffer.cpp:163-183 | A held window is a prefix of the unread bytes even after later writes |
| `ByteRing.BoundsNeverBlock` | Other/MemoryAllocator/ConcurrentMemoryRingBuffer.cpp:59-77 | In a reachable state the guards of the model never stop a thread that the code would let go on |
| `ByteRing.GrantedGap` | Other/MemoryAllocator/ConcurrentMemoryRingBuffer.cpp:99-128 | The gap granted is all that is free up to the reader, or the larger of the parts behind the writer and before the reader |
| `ByteRing.DrainedGap` | Other/MemoryAllocator/ConcurrentMemoryRingBuffer.cpp:99-128 | On a drained ring the gap granted is the larger of capacity - w and w - 1, so a request of half the capacity succeeds |
| `ByteRing.DrainedGapIsTight` | Other/MemoryAllocator/ConcurrentMemoryRingBuffer.cpp:99-128 | There is an index position at which no more than half the capacity is granted |
| `ByteRing.Producer.BeginReserve` | Other/MemoryAllocator/ConcurrentMemoryRingBuffer.cpp:59-64 | Grants from the old snapshot when that is large enough, else starts reloading |
| `ByteRing.Producer.ReserveLoadRead` | Other/MemoryAllocator/ConcurrentMemoryRingBuffer.cpp:101-102 | The second load of the snapshot, as a step of its own |
| `ByteRing.Producer.ReserveChooseGap` | Other/MemoryAllocator/ConcurrentMemoryRingBuffer.cpp:104-127 | Chooses the right or the left gap from possibly stale indices and sets the wrap marker; the invariant holds after it |
| `ByteRing.Producer.WriteOneByte` | Other/MemoryAllocator/ConcurrentMemoryRingBuffer.cpp:66-77 | One byte of the copy lands in the buffer |
| `ByteRing.Producer.CommitAllocate` | Other/MemoryAllocator/ConcurrentMemoryRingBuffer.cpp:84-88 | Publishes the write position |
| `ByteRing.Consumer.BeginReadLoadWrite` | Other/MemoryAllocator/ConcurrentMemoryRingBuffer.cpp:163-168 | Loads the write index |
| `ByteRing.Consumer.BeginReadLoadRead` | Other/MemoryAllocator/ConcurrentMemoryRingBuffer.cpp:166 | Loads the read index |
| `ByteRing.Consumer.BeginReadWindow` | Other/MemoryAllocator/ConcurrentMemoryRingBuffer.cpp:170-182 | Hands out one or two pieces that together are the next unread bytes |
| `ByteRing.Consumer.FinishRead` | Other/MemoryAllocator/ConcurrentMemoryRingBuffer.cpp:185-188 | Delivers the bytes of the window, still the next of the committed stream, and moves the read index behind them |
| `Rcu.GracePeriod` | Utils/rcu.hpp:69-107 | In every run, for any numbers of registered readers and writers and with the scan one load at a time: once wait() has returned, no reader inside a section holds an object it loaded before that writer published |
| `Rcu.NoUseAfterFree` | Utils/rcu.hpp:12-46 | So no object that a reader inside its section can use has been freed, nor has the current one |
| `Rcu.WaitReturns` | Utils/rcu.hpp:93-105 | A scan during which nobody announces a version up to the fetched one is the last: wait() returns at its end, whatever else runs |
| `Rcu.ScanEnds` | Utils/rcu.hpp:94-104 | Such a scan needs one load for each reader still to be looked at |
| `Rcu.LaterReadersAreNewer` | Utils/rcu.hpp:71 | Once those that announced an old version have left, later readers announce newer ones, so every scan from then on is such a scan |
| `Rcu.ScanBeginsClear` | Utils/rcu.hpp:90-93 | The first scan and each new one begin with a least version above the fetched one |
| `Rcu.StepKeepsInv` | Utils/rcu.hpp:69-107 | Each step of lock, unlock and wait keeps the invariant: a reader that still uses an old object holds every writer that must wait for it in its loop |
| `Rcu.Domain.ReaderLoadVersion` | Utils/rcu.hpp:71 | First step of lock() |
| `Rcu.Domain.ReaderStoreVersion` | Utils/rcu.hpp:71 | Second step of lock() |
| `Rcu.Domain.ReaderLoadPointer` | Utils/rcu.hpp:24 | What a reader loads inside its section is not freed |
| `Rcu.Domain.ReaderUnlock` | Utils/rcu.hpp:75-80 | unlock() withdraws the version |
| `Rcu.Domain.WriterPublish` | Utils/rcu.hpp:30 | Replaces the shared pointer |
| `Rcu.Domain.WriterFetchAdd` | Utils/rcu.hpp:90-93 | Takes the old version and starts a scan |
| `Rcu.Domain.WriterScanOne` | Utils/rcu.hpp:94-99 | One load of the scan |
| `Rcu.Domain.WriterCheck` | Utils/rcu.hpp:100-105 | Leaves wait() only when no reader inside a section holds the replaced object or an older one; else scans again |
| `Seqlock.AcceptedIsOneSection` | Utils/seqlock_readme.h:2-49 | In every run, with any number of readers, writers and fields: a copy that read_seqretry accepts after fewer than 2^32 bumps is exactly the field values that one completed writer section left |
| `Seqlock.SoundIffNoWrap` | Utils/seqlock_readme.h:2-49 | Every snapshot accepted with at most b bumps since it began is one that a completed section left, in all runs with any number of readers, writers and fields, if and only if b is less than 2^32 |
| `Seqlock.WrapTearsRead` | Utils/seqlock_readme.h:16-36 | A run in which exactly 2^32 bumps fall between the two looks at the sequence, and a copy that no section ever left is accepted |
| `Seqlock.AcceptedIff` | Utils/seqlock_readme.h:31-36 | In every run a copy is accepted if and only if a multiple of 2^32 bumps fell into it; with none it is the fields as they are |
| `Seqlock.BeginsIffQuiet` | Utils/seqlock_readme.h:16-29 | A reader starts to copy if and only if no writer is between its two bumps |
| `Seqlock.WritersExclude` | Utils/seqlock_readme.h:2-14 | At most one writer is between the two bumps |
| `Seqlock.StepKeepsInv` | Utils/seqlock_readme.h:2-49 | Each step keeps parity, log and every open copy consistent, with 32-bit wrap-around |
| `Seqlock.Clock.TrySpinLock` | Utils/seqlock_readme.h:4 | One attempt at the spin lock |
| `Seqlock.Clock.WriteSeqlockBump` | Utils/seqlock_readme.h:5 | The sequence becomes odd |
| `Seqlock.Clock.UpdateField` | Utils/seqlock_readme.h:38-49 | A writer stores one field |
| `Seqlock.Clock.WriteSequnlockBump` | Utils/seqlock_readme.h:12 | The sequence becomes even; the section is complete |
| `Seqlock.Clock.SpinRelease` | Utils/seqlock_readme.h:13 | Releases the spin lock |
| `Seqlock.Clock.ReadSeqbegin` | Utils/seqlock_readme.h:16-29 | Goes on only from an even sequence |
| `Seqlock.Clock.CopyField` | Utils/seqlock_readme.h:43-45 | Copies one field |
| `Seqlock.Clock.ReadSeqretry` | Utils/seqlock_readme.h:31-36 | No retry, fewer than 2^32 bumps later: the copy is one that a completed section left |
| `TicketLock.ExclusiveAndFair` | Utils/spinlock.hpp:71-95 | For any number of threads and runs of any length, with both counters wrapping, as long as at most 2^32 tickets are outstanding: one holder at a time, let in in the order of the tickets |
| `TicketLock.SafeIffTicketsFit` | Utils/spinlock.hpp:76-87 | All runs with at most b outstanding tickets, for any number of threads, are exclusive if and only if b is at most 2^32 |
| `TicketLock.FewThreadsFewOut` | Utils/spinlock.hpp:76-87 | A thread has at most one ticket out, so 2^32 threads never exceed the bound |
| `TicketLock.ExclusiveIffNoWrap` | Utils/spinlock.hpp:76-87 | Without a bound on the tickets, mutual exclusion in all runs holds if and only if there are at most 2^32 threads |
| `TicketLock.TwoHolders` | Utils/spinlock.hpp:76-87 | With one thread more there is a run with two holders |
| `TicketLock.OnlyOldestMatches` | Utils/spinlock.hpp:79-81 | Among at most 2^32 outstanding tickets, wrapped or not, only the oldest equals the owner |
| `TicketLock.StepKeepsInv` | Utils/spinlock.hpp:76-87 | Draw, spin and unlock keep the invariant that every ticket still to be served belongs to exactly one thread; only the spin needs the bound on outstanding tickets |
| `TicketLock.SpinLock.DrawTicket` | Utils/spinlock.hpp:79 | fetch_add on the next ticket |
| `TicketLock.SpinLock.TryEnter` | Utils/spinlock.hpp:80-81 | One turn of the spin loop |
| `TicketLock.SpinLock.Release` | Utils/spinlock.hpp:84-87 | Serves the next ticket |
| `BinlogRegistry.RegistryIsSound` | binlog/serialization.h:841-885 | With at most 128 pushes and any interleaving: the counter is size + 2^32 times the pushes in flight, no store leaves the array, and below the size a consumer read every slot holds a distinct committed pointer until its loop ends |
| `BinlogRegistry.VisitsCommitted` | binlog/serialization.h:853-863 | Whoever registers meanwhile, one consume_all reads exactly the pointers that were committed when it left the spin, each once |
| `BinlogRegistry.SizeIsDone` | binlog/serialization.h:855-858 | The size with which it leaves the spin is the number of committed pushes |
| `BinlogRegistry.LoopEnds` | binlog/serialization.h:859-862 | Its loop ends after one step for each slot and one more |
| `BinlogRegistry.InBoundsIffFewPushes` | binlog/serialization.h:841-851 | No run stores past the array if and only if there are at most 128 pushes: the full test is made before the slot is claimed |
| `BinlogRegistry.OneTooMany` | binlog/serialization.h:841-851 | The run that does: 129 pushers pass the test, then all claim |
| `BinlogRegistry.Unpack` | binlog/serialization.h:879-885 | The two halves of the packed counter do not carry into each other |
| `BinlogRegistry.QuietMeansRegistered` | binlog/serialization.h:853-863 | A zero upper half means that every slot below the lower half is committed |
| `BinlogRegistry.StepKeepsInv` | binlog/serialization.h:841-863 | Each step of push and consume_all keeps counter, slots and readers consistent |
| `BinlogRegistry.RefusedIffFull` | binlog/serialization.h:843-846 | A push is refused if and only if all 128 slots are claimed |
| `BinlogRegistry.LogInfoContainer.PushCheck` | binlog/serialization.h:843-846 | Finds room if and only if fewer than 128 slots are claimed |
| `BinlogRegistry.LogInfoContainer.PushClaim` | binlog/serialization.h:848 | Claims a slot and announces the push in one fetch_add |
| `BinlogRegistry.LogInfoContainer.PushStore` | binlog/serialization.h:848 | Stores the pointer in the claimed slot |
| `BinlogRegistry.LogInfoContainer.PushCommit` | binlog/serialization.h:849 | Withdraws the announcement |
| `BinlogRegistry.LogInfoContainer.ConsumeLoadSize` | binlog/serialization.h:855-858 | Leaves the spin only when every slot below the size is committed, with the number of committed pushes |
| `BinlogRegistry.LogInfoContainer.ConsumeReadSlot` | binlog/serialization.h:859-862 | The pointer handed on belongs to a committed push |
| `BinlogFile.PollAll` | binlog/serialization.h:669-705 | Polling a growing file at any lengths, which may cut a record anywhere: the entries returned are the first entries of the stream, in order, each with the class tag of the last descriptor of its event before it, or with none if there is none; after an empty poll no complete entry is missing |
| `BinlogFile.LogReader.LogRead` | binlog/serialization.h:669-705 | One poll, on a mapping that may have grown since its size was taken: cursor from record boundary to record boundary, the next entry exactly when all of it lies within that size; mCurEntry and mCurTag point to it and to its tag, or are null |
| `BinlogFile.LogReader.TakeDescriptors` | binlog/serialization.h:678-685 | Takes in descriptors, cut ones included, and never mistakes a cut header or an entry for one |
| `BinlogFile.LogReader.TakeEntry` | binlog/serialization.h:687-704 | Returns a complete entry with its payload and tag, or leaves the cursor |
| `BinlogFile.OnePollReturnsNextEntry` | binlog/serialization.h:669-705 | The records a poll passes hold exactly the one entry it returns, or none |
| `BinlogFile.EmptyPollMeansNothingComplete` | binlog/serialization.h:672-693 | A poll that returns nothing leaves no complete entry behind the cursor |
| `BinlogFile.CutHeaderIsNoDescriptor` | binlog/serialization.h:444-447 | Bytes past the end read as zero, so a header that is cut never has the descriptor bit |
| `BinlogFile.HeaderInFile` | binlog/serialization.h:444-447 | At a record boundary the flag bit tells the two kinds of record apart |
| `BinlogFile.EntryFound` | binlog/serialization.h:687-704 | What is read at an entry's offset is its payload and the tag of its descriptor |
| `BinlogFile.MakersAreValid` | binlog/serialization.h:110-121 | Entries and descriptors as the logging side builds them have the layout that the reader expects |
| `BinlogFile.PrefixIsFile` | binlog/serialization.h:633-661 | Every prefix of an encoded record stream is a file in the sense the reader needs |
| `BinlogDump.PollWhileDumping` | binlog/serialization.h:633-705 | Threads log, the dumper writes and a reader polls what it finds: the reader gets the first entries of the file's record stream, in order, each with the tag of the last descriptor of its event before it in that stream, if there is one; none torn or repeated, and after an empty poll no complete one is missing; the stream holds each thread's records in the order logged |
| `BinlogTags.TaggedIff` | binlog/serialization.h:635-661 | An entry comes back tagged in every run with the same logs if and only if a descriptor of its event was in the file before or stands earlier in its own thread's log: the dumper takes one record per thread and pass, so a descriptor that another thread logged may reach the file after it |
| `BinlogTags.OnePassUntags` | binlog/serialization.h:635-661 | The pass that does it: one thread has logged two descriptors, another an entry of the second event; the file becomes first descriptor, entry, and the entry has no tag |
| `BinlogTags.TaggedAnewIff` | binlog/serialization.h:635-661 | In every run with the same logs the tag is one logged since the dumper started if and only if the thread itself logged a descriptor of the event earlier |
| `BinlogTags.StaleTag` | binlog/serialization.h:695-699 | Otherwise, when the file held the event before, there is a run in which the entry gets the last tag that the earlier run left |
| `BinlogTags.SameTagInFile` | binlog/serialization.h:669-705 | The tag a poll hands out with an entry that lies in the file is that of the whole record stream |
| `BinlogDump.MarkerStartsLogFile` | binlog/serialization.h:752-772 | Writing the end marker over the head of a new file, or of one that an earlier run left whole, leaves a stream of whole records |
| `BinlogDump.FileIsRecordStream` | binlog/serialization.h:633-661 | Over every interleaving of logging threads and dumper, the file is the records it began with, the end marker first, then whole records up to a cut, holds each thread's records in the order logged, and earlier files are shorter cuts of the same stream |
| `BinlogDump.StepKeepsInv` | binlog/serialization.h:633-661 | Pushing a cell and dumping one keep queues, file and histories consistent, also half way through a descriptor |
| `BinlogDump.DumperNeverBlocks` | binlog/serialization.h:639-657 | In a reachable state whatever cell is in front can be dumped, and after a descriptor's first cell the front one is its second |
| `BinlogDump.FrontCell` | binlog/serialization.h:643-658 | The front cell alone tells which kind of record it starts and how much of it to write |
| `BinlogDump.Logger.Push` | binlog/serialization.h:110-120 | A logging thread's cell joins its queue |
| `BinlogDump.Logger.DumpOne` | binlog/serialization.h:639-659 | Writes the front cell's share to the file |
| `BinlogDump.Logger.DumpRest` | binlog/serialization.h:650-652 | Writes the rest of a descriptor from the second cell |
| `Bitmap.MemoryRingBuffer.BitmapOP` | Other/MemoryAllocator_bitmap/MemoryRingBuffer2.hpp:164-205 | Sets or clears exactly the bits from NR to NR + bits, over its three cases |
| `Bitmap.MemoryRingBuffer.Find` | Other/MemoryAllocator_bitmap/MemoryRingBuffer2.hpp:101-134 | The least 1-based start of a run of free slices, 0 when there is none; the trailing-zero fast path included |
| `Bitmap.MemoryRingBuffer.FindOne` | Other/MemoryAllocator_bitmap/MemoryRingBuffer2.hpp:137-151 | The same for one slice, word by word |
| `Bitmap.FirstFitIsUnique` | Other/MemoryAllocator_bitmap/MemoryRingBuffer2.hpp:101-151 | Two searches that find the first fit agree: the word-wise and the bit-wise one for a single slice, the fast path and the scan |
| `Bitmap.MemoryRingBuffer.Acquire` | Other/MemoryAllocator_bitmap/MemoryRingBuffer2.hpp:38-53 | First fit, or 0 without change; the live extents grow by the one returned; bitmap and extents still agree |
| `Bitmap.MemoryRingBuffer.Release` | Other/MemoryAllocator_bitmap/MemoryRingBuffer2.hpp:57-62 | The released extent and no other leaves the live ones; bitmap and extents still agree |
| `Bitmap.MemoryRingBuffer.Size` | Other/MemoryAllocator_bitmap/MemoryRingBuffer2.hpp:74-80 | Capacity less the slices of all live extents |
| `Bitmap.MemoryRingBuffer.Empty` | Other/MemoryAllocator_bitmap/MemoryRingBuffer2.hpp:64-72 | Answers whether no slice is free (the opposite of what its name says) |
| `Bitmap.AcquireRepresents` | Other/MemoryAllocator_bitmap/MemoryRingBuffer2.hpp:48 | Setting a free run turns a bitmap that is the disjoint union of the live extents into that of one more |
| `Bitmap.ReleaseRepresents` | Other/MemoryAllocator_bitmap/MemoryRingBuffer2.hpp:61 | Clearing a live extent turns it into that of one fewer |
| `Bitmap.ReleaseUndoesAcquire` | Other/MemoryAllocator_bitmap/MemoryRingBuffer2.hpp:38-62 | Releasing what was just acquired restores every word of the bitmap |
| `Bitmap.ChangedCount` | Other/MemoryAllocator_bitmap/MemoryRingBuffer2.hpp:74-80 | Changing a range moves the population count by its length |
| `Bitmap.Tzcnt` | Other/MemoryAllocator_bitmap/bitop.hpp:33-36 | All bits below the result are clear, and it is the first set one or 64 |
| `Bitmap.Ffzll` | Other/MemoryAllocator_bitmap/bitop.hpp:9-12 | The 1-based first clear bit of a word, 0 for a full word |
| `Bitmap.CountComplement` | Other/MemoryAllocator_bitmap/bitop.hpp:38-56 | Set bits of a word and of its complement make up the word |
| `TaskScheduler.SortedJobsIsTopological` | C++/MetaProgram/DSL/TaskDSL.cpp:36-98 | For every acyclic list of links: each job exactly once, and the source of every link before its destination |
| `TaskScheduler.AllDescendantsIsReach` | C++/MetaProgram/DSL/TaskDSL.cpp:67-79 | The recursion over descendants ends on acyclic links and finds exactly the reachable jobs |
| `TaskScheduler.FindsWhatIsReached` | C++/MetaProgram/DSL/TaskDSL.cpp:67-79 | The fold adds to its accumulator exactly the jobs of the list and what they reach |
| `TaskScheduler.JobCmpIsPartialOrder` | C++/MetaProgram/DSL/TaskDSL.cpp:94-95 | Transitivity of reachability makes the comparator a strict partial order |
| `TaskScheduler.SortedRespectsReach` | C++/MetaProgram/DSL/TaskDSL.cpp:92-97 | In the sorted list whatever reaches another job stands before it |
| `TaskScheduler.JobsAppearOnce` | C++/MetaProgram/DSL/TaskDSL.cpp:36-60 | The sorted list has no duplicates and the same jobs as the links |
| `TaskScheduler.LookupFindsChildren` | C++/MetaProgram/DSL/TaskDSL.cpp:47-60 | Looking a job up in the adjacency map finds exactly that job's entry |
| `TaskScheduler.ChildIffLink` | C++/MetaProgram/DSL/TaskDSL.cpp:48-56 | The descendants listed for a job are the destinations of its links |
| `TypeLists.SortHasNoInversion` | C++/MetaProgram/DSL/Typelist.hpp:127-141 | Quicksort around the head yields a linear extension for any strict partial order |
| `TypeLists.SortIsPermutation` | C++/MetaProgram/DSL/Typelist.hpp:127-141 | Quicksort keeps every member with its multiplicity, whatever the comparator |
| `TypeLists.Partition` | C++/MetaProgram/DSL/Typelist.hpp:71-88 | Both parts together are the input and the accumulators; members fall where the predicate says |
| `TypeLists.PartitionIsFilter` | C++/MetaProgram/DSL/Typelist.hpp:71-88 | Both parts keep the order of the list: they are what filtering by the predicate and by its negation keeps |
| `TypeLists.FilterKeepsOrder` | C++/MetaProgram/DSL/Typelist.hpp:48-58 | The places kept are exactly those whose member satisfies the predicate, in increasing order: nothing is lost, repeated or reordered |
| `TypeLists.Filter` | C++/MetaProgram/DSL/Typelist.hpp:48-58 | A member is in the result exactly when it is in the list and satisfies the predicate |
| `TypeLists.Unique` | C++/MetaProgram/DSL/Typelist.hpp:153-164 | No duplicates, same members |
| `TypeLists.UniqueKeepsFirst` | C++/MetaProgram/DSL/Typelist.hpp:153-164 | Of every member the first occurrence stays: the result is in the order of the first places |
| `TypeLists.FindBy` | C++/MetaProgram/DSL/Typelist.hpp:166-174 | The member at the first index where the predicate holds, none exactly when there is none |
| `TypeLists.Map` | C++/MetaProgram/DSL/Typelist.hpp:39-46 | Element by element |
| `Matching.EarlierIsFilledFirst` | PrestoLabs/src/Order.hpp:96-111 | A later order of the queue gets something only when every earlier one is filled |
| `Matching.TradesAreShares` | PrestoLabs/src/Order.hpp:96-111 | The trades are exactly the positive shares of the queue, in queue order: each names the incoming order and its party as taker, and the resting order at that place, its party, side and price as maker's |
| `Matching.FillConserves` | PrestoLabs/src/Order.hpp:159-194 | For every order id, and for either side of every party: leaves of the queue plus trades is leaves before plus what the incoming order gave up |
| `Matching.FillTakesFromQueue` | PrestoLabs/src/Order.hpp:96-111 | The queue loses what the incoming order loses; a remainder means that the queue is used up |
| `Matching.FillConcat` | PrestoLabs/src/Book.hpp:61-72 | Filling one group after another is filling one long queue |
| `Matching.AheadIsEarlier` | PrestoLabs/src/Order.hpp:54-58 | At one price the 64-bit key sorts by time; quantity decides only between equal times |
| `Matching.SumsOfPermutation` | PrestoLabs/src/Order.hpp:98-99 | Sorting a group changes no quantity |
| `Ledger.PostingBalances` | PrestoLabs/src/Account.hpp:39-50 | Posting trades gives each party what it bought and sold, and raises total long and total short by the same volume |
| `Exchange.HoldsWhatItsOrdersLost` | PrestoLabs/src/Order.hpp:159-194 | In every good market a party's account holds, on either side, exactly what its own orders on that side have lost of what they were submitted with |
| `Ledger.UpdateKeepsOneEach` | PrestoLabs/src/Account.hpp:39-50 | An account is created on first use, and no party ever has a second one |
| `Ledger.Accounts.Update` | PrestoLabs/src/Account.hpp:39-50 | Adds to one side of one party's account, created on first use |
| `OrderBook.MatchGroup` | PrestoLabs/src/Order.hpp:95-111 | Sorts a group and fills its queue with the incoming order; leaves stay the sum over the orders left; every trade is posted |
| `OrderBook.SortByKey` | PrestoLabs/src/Order.hpp:98-99 | A permutation by falling key |
| `OrderBook.EmptyIffNoOrders` | PrestoLabs/src/Order.hpp:123-129 | A group's summed leaves are zero exactly when it has no orders |
| `OrderBook.Book.Match` | PrestoLabs/src/Book.hpp:50-74 | Fills the priority queue of the first levels that cross, and stops at a level only when filled or when that level does not cross; it reads past the end of the map if and only if the order wants more than a whole non-empty book that crosses |
| `OrderBook.Book.TakeBest` | PrestoLabs/src/Book.hpp:61-68 | One turn of the loop: the best group is eaten up and erased, or keeps some orders and the incoming order is filled |
| `OrderBook.ExhaustsIff` | PrestoLabs/src/Book.hpp:61-73 | The order eats up the whole book with some left exactly when all levels cross and hold less than it wants |
| `OrderBook.OneAgainstTwoExhausts` | PrestoLabs/src/Book.hpp:69-72 | The smallest case: one resting against two incoming at the same price, on either side |
| `OrderBook.Book.AddOrder` | PrestoLabs/src/Book.hpp:19-22 | The book stays sorted, holds one order more, and gains no other price |
| `Exchange.PriorityKept` | PrestoLabs/src/Book.hpp:50-74 | When a resting order trades, every order of the book with a better price, or the same price and an earlier time, trades all it has |
| `Exchange.MatchConserves` | PrestoLabs/src/Book.hpp:50-74 | A match loses, for every id and for either side of every party, exactly what is traded, over the whole book |
| `Exchange.TradeIsWithinLimits` | PrestoLabs/src/Order.hpp:170-194 | Every trade of a match is at or below the buyer's limit and at or above the seller's |
| `Exchange.LeftoverCrossesNothing` | PrestoLabs/src/Book.hpp:69-73 | After a match with something left no level of the other book crosses the order |
| `Exchange.ProcessedKeepsMarket` | PrestoLabs/src/Rules.hpp:38-65 | Every order keeps both books sorted and uncrossed, traded plus leaves equal to what was submitted for every id and for either side of every party, and the accounts equal to the posted trades |
| `Exchange.StreamKeepsMarket` | PrestoLabs/src/Rules.hpp:38-65 | After any number of turns of the order loop: traded plus leaves is what was submitted for every id and for either side of every party, accounts equal the posted trades, books sorted and not crossed, the log only grown |
| `Exchange.LongEqualsShort` | PrestoLabs/src/Account.hpp:39-50 | In every such market all accounts together are as long as they are short: the traded volume |
| `Exchange.Exchange.Process` | PrestoLabs/src/Rules.hpp:48-63 | One turn of the order loop keeps all of this, skips zero orders, and fails exactly when the order exhausts the opposite book |
| `Exchange.Exchange.ProcessOrders` | PrestoLabs/src/Rules.hpp:38-65 | A stream of orders: market after market, each turn matching and resting its order; it reaches the end exactly when no order on the way exhausts the opposite book, and else stops at the first that does, with every market so far good and its history the orders not skipped |
| `Auction.ChooseTarget` | PrestoLabs/src/Rules.hpp:115-131 | The target is the first, so highest-priced, buy level with the largest price times crossed quantity, 0 when that is 0; the crossed quantity is the smaller of all bids at or above and all offers at or below the price |
| `Auction.NoPriceDoesBetter` | PrestoLabs/src/Rules.hpp:115-131 | No price at all, bid or not, has a larger volume than the one chosen |
| `Auction.PriceAuction` | PrestoLabs/src/Rules.hpp:90-131 | From any list of orders: the largest of price times the lesser of what is bid for at that price or more and offered at it or less, over all prices; and the highest bid that reaches it, or 0 when it is 0 |
| `Auction.TargetIsBest` | PrestoLabs/src/Rules.hpp:115-131 | A target chosen among the levels is that price, in terms of the orders alone |
| `Auction.CrossedIsLesser` | PrestoLabs/src/Book.hpp:97-110 | The crossed quantity is the lesser of the sums over bids at or above and over offers at or below the price |
| `Auction.AuctionBook.Match` | PrestoLabs/src/Book.hpp:97-110 | The upper-bound search leaves of a quantity what the levels that take part at a price cannot cover |
| `Auction.AuctionBook.Consolidate` | PrestoLabs/src/Book.hpp:77-85 | Every level ends with the total of all levels up to it |
| `Auction.AuctionBook.AddOrder` | PrestoLabs/src/Book.hpp:19-22 | At every price the levels hold what the requests so far want there, and there is a level at exactly their prices |
| `Auction.PrefixTakesPart` | PrestoLabs/src/Book.hpp:105-106 | In map order the levels that take part at a price are a prefix, so a running total is the sum over them |
| `ScullPipe.BytesInOrder` | Kernel/Driver/scull/pipe.c:118-226 | Over every run of any number of readers and writers in one epoch: bytes read, then bytes buffered, are the bytes written; with the semaphore free, buffered plus free is the buffer less one byte |
| `ScullPipe.SleeperIsOwedWakeup` | Kernel/Driver/scull/pipe.c:118-226 | A reader (writer) asleep while there is data (space) and the semaphore is free is owed a wake-up by a writer (reader) that has let go of the semaphore |
| `ScullPipe.StepKeepsInv` | Kernel/Driver/scull/pipe.c:118-226 | Each step of read and write, signals, -EAGAIN and copy faults included, keeps the semaphore exclusive, the buffer exact and nobody stranded |
| `ScullPipe.WrapMakesNobodyReady` | Kernel/Driver/scull/pipe.c:146-148 | A test without the semaphore that falls between a pointer's store and its wrap misses nothing |
| `ScullPipe.BufferedPlusFree` | Kernel/Driver/scull/pipe.c:180-186 | spacefree counts all of the buffer but one byte that is not buffered |
| `ScullPipe.ReadTakesOldest` | Kernel/Driver/scull/pipe.c:138-148 | A read removes the oldest bytes from what is buffered |
| `ScullPipe.WriteAddsNewest` | Kernel/Driver/scull/pipe.c:203-215 | A write adds its bytes behind all others and never makes a full buffer look empty |
| `ScullPipe.CountsFit` | Kernel/Driver/scull/pipe.c:138-141 | What a call takes fits the contiguous piece and is positive when something was asked for |
| `ScullPipe.CountsAreAsLongAsCan` | Kernel/Driver/scull/pipe.c:138-141 | A call that takes less than it was asked for stops at the other pointer or at the end of the buffer |
| `ScullPipe.ReadyMeans` | Kernel/Driver/scull/pipe.c:126 | A reader may go on if and only if bytes are buffered, a writer if and only if fewer bytes are buffered than the whole buffer less one |
| `ScullPipe.QuietTestIsRight` | Kernel/Driver/scull/pipe.c:159-186 | While nobody moves the pointers the test on the wait queue finds what is so |
| `ScullPipe.Pipe.CopyToUser` | Kernel/Driver/scull/pipe.c:137-146 | Returns the oldest bytes, at least one if any were asked for, and all asked for unless it stops at the write pointer or the end of the buffer |
| `ScullPipe.Pipe.CopyFromUser` | Kernel/Driver/scull/pipe.c:202-213 | Accepts a prefix of the data, at least one byte of a non-empty one, and all of it unless it fills the buffer or stops at its end |
| `ScullPipe.Pipe.WrapAndUp` | Kernel/Driver/scull/pipe.c:147-149 | Wraps the pointer and releases the semaphore |
| `ScullPipe.LoadKeepsSight` | Kernel/Driver/scull/pipe.c:159-186 | The test on the wait queue may load its pointers one by one while others move them: it never concludes that there is nothing to do unless that is still so or a wake-up is to come |
| `ScullPipe.Pipe.LoadPointer` | Kernel/Driver/scull/pipe.c:168-186 | One load of the test on the wait queue, made without the semaphore |
| `ScullPipe.Pipe.LookAgain` | Kernel/Driver/scull/pipe.c:168-170 | The outcome of that test; a process that goes to sleep unmarked although it could go on is owed a wake-up |
| `ScullPipe.Pipe.UpToWait` | Kernel/Driver/scull/pipe.c:126-127 | Lets go of the semaphore when there is nothing to do |
| `ScullPipe.Pipe.CopyFault` | Kernel/Driver/scull/pipe.c:142-145 | A copy fault leaves pointers and buffer as they were |
| `ScullPipe.Pipe.WakeUp` | Kernel/Driver/scull/pipe.c:152 | Marks everybody of the other kind on the queue |
| `CircularBuffer.AddBehind` | Kernel/Driver/scull/pipe.c:203-215 | Bytes spliced in behind the last, wrapped or not, are the old content followed by them |
| `CircularBuffer.TakeLeavesRest` | Kernel/Driver/scull/pipe.c:138-148 | Taking contiguous bytes from the front leaves the content without them |
| `Shortprint.PrintedIsPrefix` | Kernel/Driver/ldd3-master/shortprint/shortprint.c:231-317 | In every run, bytes strobed, then bytes pending, are the bytes accepted from writers: a prefix, nothing lost, repeated or reordered |
| `Shortprint.NothingStranded` | Kernel/Driver/ldd3-master/shortprint/shortprint.c:253-400 | Pending bytes mean that output is active or the writer is on its way to start it; active output always has a queued or running work item, a pending timer or a timeout handler in flight |
| `Shortprint.SleeperHasWorkAhead` | Kernel/Driver/ldd3-master/shortprint/shortprint.c:286-293 | A writer that sleeps without a wake-up has one of three things ahead: active output and half the buffer to print, less one byte while the work item has just strobed; its wake-up, which is the work item's next step; or nothing, with everything printed, both offsets at the start and whole pages accepted |
| `ShortprintStall.StuckIff` | Kernel/Driver/ldd3-master/shortprint/shortprint.c:119-126 | A write that starts after a accepted bytes can go to sleep for ever on an empty buffer if and only if, at some point of the call, whole pages have been accepted and bytes are left: the tail comes round between its two loads in the last test before sleeping, and the wake-up is skipped because the gap of an empty buffer is 0 |
| `ShortprintStall.StuckForever` | Kernel/Driver/ldd3-master/shortprint/shortprint.c:286-349 | In that state no run of printer, work item, timer and handlers wakes the writer; only a signal ends the call |
| `ShortprintStall.StuckFromInit` | Kernel/Driver/ldd3-master/shortprint/shortprint.c:119-126 | From the start of the driver, a call with more than a page of data has a run that gets there |
| `ShortprintStall.MissesLast` | Kernel/Driver/ldd3-master/shortprint/shortprint.c:119-126 | The steps that do it: the last byte is strobed between the two loads |
| `ShortprintStall.FeedOnce` | Kernel/Driver/ldd3-master/shortprint/shortprint.c:284-312 | One turn of the write loop against a printer as far behind as can be: it fills the buffer, then takes one byte for each one printed |
| `Shortprint.RoomIsSpace` | Kernel/Driver/ldd3-master/shortprint/shortprint.c:119-126 | shortp_out_space never overrates the room; it underrates it only when the tail has come round between the comparison and the subtraction |
| `Shortprint.StepKeepsInv` | Kernel/Driver/ldd3-master/shortprint/shortprint.c:231-400 | Each step of writer, work item, interrupt and timeout handler keeps these, also inside the locked sections |
| `Shortprint.StoreKeepsOut` | Kernel/Driver/ldd3-master/shortprint/shortprint.c:119-134 | Storing as much as shortp_out_space allows adds to the pending bytes and never makes a full buffer look empty |
| `Shortprint.StrobeKeepsOut` | Kernel/Driver/ldd3-master/shortprint/shortprint.c:231-247 | Strobing moves the oldest pending byte to the printer |
| `Shortprint.SpaceIsFree` | Kernel/Driver/ldd3-master/shortprint/shortprint.c:119-126 | shortp_out_space is all that is not pending, less one byte, as far as the end of the buffer |
| `Shortprint.StrobeAddsRoom` | Kernel/Driver/ldd3-master/shortprint/shortprint.c:119-126 | Room found stays valid while the work item prints on |
| `Shortprint.GapIsTheRest` | Kernel/Driver/ldd3-master/shortprint/shortprint.c:345-348 | The gap tested before a wake-up is what pending bytes leave free, and 0 also for an empty buffer |
| `Shortprint.WakesIffHalfFree` | Kernel/Driver/ldd3-master/shortprint/shortprint.c:345-348 | The work item wakes the writer if and only if more than half the buffer is free, but not all of it |
| `Shortprint.Printer.LoadTail` | Kernel/Driver/ldd3-master/shortprint/shortprint.c:121 | The comparison: the first load of the tail |
| `Shortprint.Printer.OutSpace` | Kernel/Driver/ldd3-master/shortprint/shortprint.c:122-125 | The second load, at any of the three tests: the room there is by now, clamped to what is left to write, or none although there is some when the tail has come round |
| `Shortprint.Printer.StoreBytes` | Kernel/Driver/ldd3-master/shortprint/shortprint.c:298-304 | Copies and advances the head |
| `Shortprint.Printer.LockAndTestActive` | Kernel/Driver/ldd3-master/shortprint/shortprint.c:306-310 | Starts output exactly when it is not active |
| `Shortprint.Printer.StartOutput` | Kernel/Driver/ldd3-master/shortprint/shortprint.c:258-259 | Output becomes active under the lock |
| `Shortprint.Printer.StartTimer` | Kernel/Driver/ldd3-master/shortprint/shortprint.c:260-261 | The timer is armed under the lock |
| `Shortprint.Printer.StartWork` | Kernel/Driver/ldd3-master/shortprint/shortprint.c:264 | The work item is queued and the lock released |
| `Shortprint.Printer.WorkLockAndTest` | Kernel/Driver/ldd3-master/shortprint/shortprint.c:333-343 | Empty or not, decided under the lock |
| `Shortprint.Printer.StrobeByte` | Kernel/Driver/ldd3-master/shortprint/shortprint.c:238-246 | Strobes the next accepted byte |
| `Shortprint.Printer.StopOutput` | Kernel/Driver/ldd3-master/shortprint/shortprint.c:337 | Output stops only with nothing pending that nobody will start |
| `Shortprint.Printer.WorkUnlock` | Kernel/Driver/ldd3-master/shortprint/shortprint.c:345-349 | Wakes the writer when more than half the buffer is free, but not when all of it is |
| `Shortprint.Printer.InterruptTest` | Kernel/Driver/ldd3-master/shortprint/shortprint.c:363-366 | Handles the interrupt only while output is active |
| `Shortprint.Printer.InterruptQueue` | Kernel/Driver/ldd3-master/shortprint/shortprint.c:368-371 | Queues the work item |
| `Shortprint.Printer.TimeoutTest` | Kernel/Driver/ldd3-master/shortprint/shortprint.c:379-385 | The timeout's first look, without the lock |
| `Shortprint.Printer.TimeoutDecide` | Kernel/Driver/ldd3-master/shortprint/shortprint.c:386-399 | Resets the timer while the printer is busy, else goes on to the interrupt handler |
| `QuantumStore.NestedDivision` | Kernel/Driver/scull/main.c:320-323 | The nested divisions number the quanta consecutively across list items |
| `QuantumStore.PutChangesOne` | Kernel/Driver/scull/main.c:365-379 | Putting a quantum in place changes that quantum and no other |
| `QuantumStore.ByteAfterWrite` | Kernel/Driver/scull/main.c:380-391 | The byte map after patching one quantum, at every position |
| `ByteMap.ReadIsTheMap` | Kernel/Driver/scull/main.c:303-345 | A read returns consecutive bytes of the sparse map, and nothing exactly when it starts in a hole |
| `ByteMap.ReadIsAsLongAsItCan` | Kernel/Driver/scull/main.c:317-336 | A read stays within the size, and outside a hole takes all that was asked for, or up to the size, or up to the end of the quantum |
| `ByteMap.ReadReturnsLastWritten` | Kernel/Driver/scull/main.c:303-345 | At every written position it covers, a read returns the byte written last |
| `ByteMap.OnlyRangeIff` | Kernel/Driver/scull/main.c:375-391 | A write changes its range and nothing else if and only if its quantum was there before or it fills the whole quantum, because kmalloc does not clear |
| `ByteMap.WriteKeepsWritten` | Kernel/Driver/scull/main.c:347-398 | A write keeps all bytes written earlier outside its range, and raises the size to the maximum |
| `ByteMap.PatchedIsWrite` | Kernel/Driver/scull/main.c:365-391 | Finding or allocating a quantum and patching it is a write to the byte map |
| `ScullStore.Device.Write` | Kernel/Driver/scull/main.c:347-398 | With sizes that are the device's own: accepts up to the end of the quantum; it reports no memory if and only if an allocation failed, which changes no byte and no size, and a fault only if the copy failed; the byte map, the size and the history follow. With sizes from before a trim: a write that allocates a slot array leaves the device invalid |
| `ScullStore.Device.Read` | Kernel/Driver/scull/main.c:303-345 | Changes no byte, though it may grow the list, never goes beyond the size, and returns what the byte map says when its sizes, read before the semaphore, are the device's own; else what the store shows through those sizes |
| `ByteMap.ShowsTheMapIff` | Kernel/Driver/scull/main.c:308-323 | Looking up with other sizes shows the map of every store if and only if they are the store's own |
| `ScullStore.Device.Follow` | Kernel/Driver/scull/main.c:273-297 | Grows the list up to an item, or part way exactly when an allocation fails, without changing a byte |
| `ScullStore.Device.EnsureQuantum` | Kernel/Driver/scull/main.c:369-379 | Allocates, with the sizes of the call, at most the slot array and the quantum of the write |
| `ScullStore.Device.Trim` | Kernel/Driver/scull/main.c:63-84 | Empties the device and takes over the parameters, the one place where its geometry changes |
| `ScullStore.Parameters.Ioctl` | Kernel/Driver/scull/main.c:404-527 | Sets, tells, gets, queries, exchanges or shifts a parameter, or resets both; no device changes |
| `ScullpStore.FaultAgreesWithRead` | Kernel/Driver/ldd3-master/scullp/mmap.c:60-96 | Below the size, a fault gives SIGBUS exactly where a read meets a hole, and else the page whose byte the read returns |
| `ScullpStore.WalkIsDivision` | Kernel/Driver/ldd3-master/scullp/mmap.c:77-82 | Subtracting and walking reaches the item and slot that division and remainder name |
| `ScullpStore.Device.NoPage` | Kernel/Driver/ldd3-master/scullp/mmap.c:60-96 | The fault handler's walk finds the page that the read path's arithmetic names |
| `ScullpStore.Device.Read` | Kernel/Driver/ldd3-master/scullp/main.c:167-211 | Returns what the byte map says, as ReadIsTheMap and ReadIsAsLongAsItCan describe |
| `ScullpStore.Device.Write` | Kernel/Driver/ldd3-master/scullp/main.c:215-267 | A write into cleared pages; it reports no memory if and only if an allocation failed, which changes nothing |
| `ByteMap.ClearedWriteChangesOnlyRange` | Kernel/Driver/ldd3-master/scullp/main.c:243-260 | Because scullp clears new pages, a write changes its range and nothing else when holes are taken as zeros |
| `PointerChase.CycleCloses` | CPU/cache/Capacity_detect.cpp:59-67 | For every permutation, as many links as there are elements lead from any index back to it |
| `PointerChase.NoIndexTwice` | CPU/cache/Capacity_detect.cpp:59-67 | On the way no index is met twice |
| `PointerChase.EveryIndexMet` | CPU/cache/Capacity_detect.cpp:59-67 | On the way every index is met |
| `PointerChase.SortingPermutes` | CPU/cache/Capacity_detect.cpp:28-37 | However the random keys sort, the indices form a permutation |
| `PointerChase.BuildRing` | CPU/cache/Capacity_detect.cpp:38-67 | The loop links every index to the one after it in the sorted order and the last to the first |

## Left out

- Weak memory orders, fences, cache alignment and timing: all steps are sequentially consistent.
- `Utils/seqlock.hpp`, an unfinished sketch of the seqlock, and the other spin locks of `Utils/spinlock.hpp`.
- Rcu: the 64-bit version counter does not wrap; readers are registered from the start; a writer replaces the pointer in one step; freeing after wait() is the caller's, here a ghost step.
- ByteRing: memcpy is one step a byte; the latency benchmark's variant without the copy is not part of this model.
- BinlogDump: SPSCQueue.h is not part of this model, a queue is a FIFO of whole cells; a write to the file is complete; the order in which the dumper visits the threads is arbitrary, and threads are fixed from the start; the end marker is written before the dumper starts, as InitWrite does, and a file that an earlier run left with a cut record is outside the model.
- BinlogFile: to LogRead the end marker is a descriptor like any other; CheckEventID, printf-style decoding and truncated strings are left out; records are at most as large as a queue cell allows.
- Bitmap: addresses; acquire's pointer is one slice beyond the slot it names and release undoes the same shift, so only the 1-based slot is kept. Words are sequences of 64 bits.
- Bitmap.MemoryRingBuffer.Release: only the slice count that was acquired may be released, as the template's callers must.
- OrderBook: orders, groups and the map are values held in the book's field, so sharing of order entries between book and input array is not captured; std::sort is any permutation by falling key, the map a sorted list.
- Exchange: parsing, the report file, volumes in doubles, and 32-bit overflow of summed quantities; what happens after the read past the end of the map is undefined and not described.
- Exchange.Exchange.ProcessOrders: describes books and accounts up to an order that exhausts the opposite book, and not after it.
- Auction: execution after the target price is chosen (restoreQty and the second matching loop); prices times quantities are exact integers instead of doubles.
- ScullPipe: opening again resets the pointers and starts a new epoch, which is outside one run; the buffer size set by ioctl, poll and fasync; a copy fault copies nothing; spacefree without the semaphore loads its pointers from left to right.
- Shortprint: every evaluation of shortp_out_space loads the tail twice, although a compiler may load it once since the pointer itself is not volatile; the input side, the printer's ports beyond the byte strobed, sleeping inside shortp_wait, module load and removal; add_timer on a timer that is already pending counts as arming it.
- ScullStore: the list of items is a sequence instead of linked nodes; indexing past an array, which C leaves undefined, is a result of its own, and nothing is said about a device after it or after a write with sizes from before a trim; positions and item sizes do not overflow int, and quantum and qset are positive while the device is used; a faulting copy from the user copies nothing; faulting ioctl arguments and the pipe's size commands.
- ScullpStore: order 0 only; allocation in scullp_follow, which the driver does not check, succeeds; trim, ioctl and asynchronous I/O; user-copy faults.
- PointerChase: the random keys and the sort are any permutation; the endless walk that measures time.
- The language demos, kernel and hardware experiments, and benchmarks of the repository.
