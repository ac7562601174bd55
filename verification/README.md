# Verified model of the file storage server

The server keeps files in memory, within a bound on their number and on their bytes. Clients send
requests over sockets; a manager thread hands them to workers through a job queue; workers carry them
out on one shared store. When a write needs room the store throws files out, oldest written first (FIFO)
or by a scan of access times (LRU). Clients can lock files against each other, and a hand-written
reader/writer lock on the store and one on each file keep the workers apart.

The model follows the code where the code and its comments disagree. In particular:

* the LRU comment in `src/storage.c` promises the file with the largest time difference; the scan can
  miss the oldest file (`StorageEviction.LruFindsOldestIff` says exactly when, and
  `StorageFailures.LruThrowsOutTheRecentFile` shows a run);
* removing, or appending to, a file that was never written makes the counters lie
  (`StorageInvariant.StoreAccounts` says exactly when);
* a write larger than the store, and an append that evicts its own file, run into undefined behaviour
  (`StorageInvariant.WriteUndefinedIff`, `StorageEviction.AppendSucceedsIff`);
* four branches leave a lock taken: reading an empty file, writing or removing a file one has not
  opened, and appending to a file locked by another (`LockGuards.VerdictLeaksIff`). Without them the
  workers cannot deadlock and give every lock back; with one of them a lock is lost for ever
  (`StoreLockingLiveness`, `LockLeaks`);
* reading many files locks one file at a time, so it can list files that were readable at no one moment
  (`StoreLockingFailures.ListsBoth`; `StoreLockingTours.ReadNMoment` says exactly when a moment explains
  what it answers);
* an eviction does not take its victim's lock, so it can free a file another worker is about to look at
  (`StoreLockingFailures.EvictionUnderReader`; `StoreLockingLiveness.UnsafeIff` says exactly when);
* `removeList` loses entries when the tail repeats an earlier entry (`Sequences.ListRemoveExact`);
* a request whose text has no word, or none of the ten opcodes, is answered by nobody, and its client is
  never selected on again (`Commands.DroppedIffMalformed`, `ServerSpec.LostIffMalformed`).

## Layout

| file | about |
|---|---|
| `Bytes.dfy`, `Sequences.dfy` | byte strings and `strncpy`; sequences and removal by value |
| `LinkedList.dfy` | `src/list.c` on heap nodes |
| `HashTable.dfy` | `src/icl_hash.c` on a bucket array and heap chains |
| `StorageSpec.dfy` | every storage operation as a function on values |
| `StorageInvariant.dfy` | what operations keep, when the counters are true, when an operation is undefined |
| `StorageEviction.dfy` | which files FIFO and LRU throw out |
| `StorageListing.dfy` | what reading many files answers |
| `StorageEffects.dfy` | when each request succeeds and what it may change |
| `StorageAnswers.dfy` | which error each request answers, what writing hands back, and what a step does to queue and counters |
| `StorageRuns.dfy` | read-back, opening before use, locks, LRU as FIFO and the statistics, over whole runs |
| `StorageFailures.dfy` | inputs on which the store departs from its evident intention |
| `Storage.dfy` | the storage object itself, on the heap list and the heap table, proved to do what `StorageSpec` says |
| `Locker.dfy` | the reader/writer lock as a monitor whose callers may be inside already, and the lock object |
| `LockProtocol.dfy` | the lock steps of all operations, run by any number of threads |
| `LockProtocolProofs.dfy` | what every run of them keeps, leaking or not |
| `LockDiscipline.dfy` | what runs without a leak keep besides |
| `LockFootprints.dfy` | the locks each operation has at each access, and its way in and out |
| `LockProtocolTheorems.dfy` | progress and termination of such runs |
| `LockLeaks.dfy` | what each leak leads to, in every run |
| `LockGuards.dfy` | which branch a request takes on a given store, when it leaks, and acting on a verdict |
| `StoreMoments.dfy` | reading many files one after the other beside other requests, and the moments that explain it |
| `StoreLocking.dfy` | workers looking up, checking and acting on one store under the locks, and what every step keeps |
| `StoreLockingTheorems.dfy` | the store and the answers of every interleaving, item after item; leaks told by requests |
| `StoreLockingLiveness.dfy` | unsafe evictions, deadlock freedom, completion, and what a leak leads to |
| `StoreLockingTours.dfy` | readN in every interleaving |
| `StoreLockingRuns.dfy` | one worker alone: every harmless sequence of requests is an interleaving |
| `StoreLockingFailures.dfy` | two runs of two workers that go against what the locks are for |
| `BoundedBuffer.dfy` | the job queue as a monitor, and the ring of commands |
| `Commands.dfy` | decimal texts and command texts |
| `ServerSpec.dfy`, `Server.dfy` | the manager/worker protocol, and the shared state with the manager's loop |

`dafny verify dfyconfig.toml` checks the project. A `hide` statement in a proof only keeps definitions the
proof does not need away from the solver.

## How the source is represented

* A file name is a `string` without zero characters. A client is its descriptor, a natural number; a
  file's list of openers keeps the numbers where the source keeps their decimal text.
* `unsigned long` counters wrap at 2^64, as written out in `StorageSpec`. The capacity `maxMB` and every
  content handed to a write or an append are below 2^63; `filesNumb` is an unbounded integer.
* The clock is a parameter of each operation. `Undefined` stands for dereferencing a null or freed pointer.
* `StorageSpec` takes each operation as one atomic step. `LockProtocol` takes the lock steps of the same
  operations one by one, each stretch of code under a lock's mutex being one step. `StoreLocking` joins
  them: a worker looks its file up, checks it once it has the file's lock, and acts in a later step on
  what the check granted, without looking again; read, lock, unlock and open let go of the storage lock
  before they check. readN looks at one file in each step. The clock is read at each of these steps.
* A client has one request in hand at a time, as `ServerSpec.OneWorkerPerClient` proves of the server.
* A run of `LockProtocol` or `StoreLocking` goes up to the first step the code has no defined meaning for:
  a request that is undefined on the store, or an eviction of a file another worker still uses.
* A leaking branch has the effect on the store of the error, or the empty read, it answers. Branch
  `Missing` also stands for creating a file that exists.
* A thread may call a lock it is inside; only unlocking is restricted to what the thread has locked.
* In class contracts `Abs()` is the abstract value of an object, `Valid()` its invariant.

## Model

| member | source | states |
|---|---|---|
| Bytes.StrncpyFaithful | src/storage.c:577-578 | what a write stores equals what it was given exactly when no non-zero byte follows a zero byte |
| Bytes.StrncpyZeroFree | src/storage.c:577-578 | zero-free contents are stored unchanged |
| Bytes.StrncpyAt | src/storage.c:577-578 | byte by byte: a stored byte is the given one as long as no zero has come, and zero from there on |
| Sequences.ListRemoveExact | src/list.c:206-242 | removal by value takes out the first match and nothing else, and the count stays right, exactly when the tail hides no earlier match |
| Sequences.TailLosesRest | src/list.c:220-225 | when the tail hides an earlier match, exactly what stands before the first match is left |
| Sequences.ListRemoveLosesEntries | src/list.c:220-225 | a list of four entries from which one removal drops three |
| Sequences.ListRemoveDistinct | src/list.c:201-243 | on distinct entries removal takes out exactly the named one and keeps the order and distinctness of the others |
| LinkedList.List.Link | src/list.c:79-89 | a node goes in behind the tail; next and prev stay mirror images, head, tail and the count stay right |
| LinkedList.List.AppendList | src/list.c:63-91 | the list of names grows by the new name at the end, in a fresh node without content |
| LinkedList.List.AppendListCont | src/list.c:93-133 | the same with a copy of the content; a missing content is refused and changes nothing |
| LinkedList.List.PopHead | src/list.c:137-157 | the first node comes out, the rest is the old list without it; an empty list gives nothing |
| LinkedList.List.PopTail | src/list.c:161-182 | the last node comes out, the rest is the old list without it |
| LinkedList.List.ContainsList | src/list.c:184-199 | true exactly when some node holds the string |
| LinkedList.List.RemoveList | src/list.c:201-243 | the pointers stay sound and the names become what removal by value leaves; the list is well counted afterwards exactly when the tail hid no earlier match |
| LinkedList.List.NextList | src/list.c:245-252 | from the node at position i to the one at i + 1, or nothing at the end |
| LinkedList.List.GetHead | src/list.c:31-38 | the first node, or nothing |
| LinkedList.List.ElemsNumber | src/list.c:264-275 | the traversal counts the nodes, so it agrees with the stored count on a valid list |
| HashTable.PjwStep | src/icl_hash.c:48-52 | after each character the top four bits of the 32-bit hash are clear |
| HashTable.HashPjw | src/icl_hash.c:40-54 | the loop computes the hash of the bytes up to the first zero, always below 2^28 |
| HashTable.SignExtendIs | src/icl_hash.c:49 | bytes from 128 up are added as negative numbers |
| HashTable.FoldIs | src/icl_hash.c:50-51 | the four bits pushed out at the top come back in at bits 4 to 7, and the top four are cleared |
| HashTable.PjwStepIs | src/icl_hash.c:49-51 | one round of the hash in closed form |
| HashTable.PjwNext | src/icl_hash.c:48 | the hash of a zero-free key grows by one round for each character, from the left |
| HashTable.PjwEnds | src/icl_hash.c:48 | whatever follows the first zero has no part in the hash |
| HashTable.Table.Walk | src/icl_hash.c:113-119 | the walk down a chain finds the entry of the key, with the node before it, exactly when the key is in the map |
| HashTable.Table.Find | src/icl_hash.c:105-121 | find is lookup in the map, for every hash function and bucket count |
| HashTable.Table.Insert | src/icl_hash.c:133-159 | insert fails exactly on present keys and otherwise adds that one key |
| HashTable.Table.Delete | src/icl_hash.c:171-197 | delete succeeds exactly on present keys and removes that one key; nentries goes up, as in the code |
| HashTable.Table.InsertRepresents | src/icl_hash.c:151-155 | a new entry at the front of its chain keeps chains and map in agreement |
| HashTable.Table.DeleteRepresents | src/icl_hash.c:181-186 | unlinking one entry keeps chains and map, less that key, in agreement |
| HashTable.Table.ChainsDisjoint | src/icl_hash.c:115-119 | no node is on two chains or twice on one: chains are acyclic and disjoint |
| StorageInvariant.TotalSplit | src/storage.c:561-565 | the bytes in the table are the queued bytes plus those of files outside the queue |
| StorageInvariant.AccountingCounts | src/storage.c:582-584 | with true accounts sizeMB is the queued bytes, filesNumb the queue length, both within capacity, and unqueued files hold no bytes |
| StorageInvariant.EvictKeeps | src/storage.c:98-182 | one eviction takes one written file out of table, queue and both counters, with no wrap-around, and keeps the invariant |
| StorageInvariant.EvictionOutcome | src/storage.c:561-574 | the eviction loop ends; it meets an empty queue exactly when the content and the bytes outside the queue exceed the capacity; otherwise the new content fits and nothing but the victims left, each handed back with its exact content |
| StorageInvariant.EmptyFileStays | src/storage.c:561-577 | the file being written, not yet queued, is never evicted to make room for it |
| StorageInvariant.WriteAccounts | src/storage.c:497-596 | a successful write keeps the invariant, and the accounts are true after it exactly when they were before |
| StorageInvariant.AppendAccounts | src/storage.c:603-690 | after a successful append the accounts are true exactly when they were and the file was written before |
| StorageInvariant.RemoveAccounts | src/storage.c:917-922 | after a successful removal the accounts are true exactly when they were and the file had been written |
| StorageInvariant.StepInv | src/storage.c:201-940 | every request keeps the invariant; the accounts stay true, and once false stay false, exactly as the two breaking requests say |
| StorageInvariant.StoreAccounts | src/storage.c:50-940 | after any run from an empty store: sizeMB is the bytes in the table, both counters are within capacity, queued names are distinct written files, and table, queue and counters agree exactly when no unwritten file was removed or appended to |
| StorageInvariant.WriteUndefinedIff | src/storage.c:503-574 | an admitted write calls getVictim on an empty queue exactly when it can never fit; with true accounts exactly when it exceeds the capacity; else it succeeds |
| StorageEviction.DrainPermutes | src/storage.c:98-182 | the order in which a policy would empty the queue, one victim after the other, lists every queued file once |
| StorageEviction.FifoDrain | src/storage.c:105-128 | under FIFO that order is the queue |
| StorageEviction.ShortestPrefix | src/storage.c:561-574 | under either policy the victims are exactly the shortest prefix of that order whose removal makes room, in order and with exact contents |
| StorageEviction.SurvivorsInOrder | src/storage.c:126-177 | under either policy the files that stay keep their order in the queue |
| StorageEviction.VictimIff | src/storage.c:561-573 | the k-th file of that order is a victim exactly when dropping the k files before it leaves too little room |
| StorageEviction.AppendToQueuedUndefinedIff | src/storage.c:643-660 | under either policy an admitted append to the k-th file of that order is undefined exactly when dropping the k files before it leaves too little room |
| StorageEviction.AppendSucceedsIff | src/storage.c:643-670 | any admitted append, to a written file or not, is undefined exactly when there is no such room, and else succeeds |
| StorageEviction.LruVictimFacts | src/storage.c:132-160 | the LRU victim is no more recently used than the head, and no queued file is older than it by more than the final difference |
| StorageEviction.LruVictimIs | src/storage.c:132-160 | the LRU victim is the last of the scan's victims, a relation on the access times alone: the head to begin with; the second file never; a later file exactly when the victim before it is younger than it by more than every difference met before, head and second included, whichever way that went; the final difference is the widest met |
| StorageEviction.ScansExists | src/storage.c:132-160 | every sequence of access times has such victims |
| StorageEviction.OfThree | src/storage.c:143-152 | of three files the third goes exactly when the head is younger than it by more than head and second differ, and else the head |
| StorageEviction.LruFindsOldestIff | src/storage.c:138-160 | the scan picks a least recently used file exactly when the first of them is the head, or is third or later and the victim before it is younger than it by more than every difference met before; never when it is second |
| StorageEviction.HeadIsLruVictim | src/storage.c:132-160 | when access times do not decrease along the queue, the LRU victim is the head |
| StorageEviction.EvictionSame | src/storage.c:98-182 | under that order LRU and FIFO make room with the same victims and leave the same store |
| StorageRuns.FileStep | src/storage.c:201-926 | a file that survives a request changes content, owner and openers only as the request on it says |
| StorageRuns.FileCreated | src/storage.c:228-268 | a file appears only through a successful create, empty, open to its creator alone and locked by it if asked |
| StorageRuns.ContentGrows | src/storage.c:659-663 | along any run a written file that stays in the store holds its content followed by all successful appends in order |
| StorageRuns.AnswersShowContent | src/storage.c:367-380 | a read, a list entry or a victim copy never shows other bytes than the file holds |
| StorageRuns.ReadBack | src/storage.c:577-580 | after a successful write, whatever is later shown of the file is the strncpy image of the bytes, or the bytes if zero-free, followed by all later appends |
| StorageRuns.OpensTracked | src/storage.c:845-862 | at the end of any run a client is among a file's openers exactly when its latest successful open or close of it was an open |
| StorageRuns.UseOnlyWhenOpen | src/storage.c:355-366 | in every run of a file's life a client's read, write, append, lock, unlock, close or remove succeeds only if its latest open or close was an open |
| StorageRuns.OthersRespect | src/storage.c:732-745 | one request of another client neither reads, lists, changes, locks, unlocks nor removes a locked file |
| StorageRuns.LockHolds | src/storage.c:732-806 | a client keeps its lock over every run until it unlocks or the file is removed or evicted, and all that time every other client is kept away |
| StorageRuns.LockedFileLeavesByOwnerOrEviction | src/storage.c:917-922 | a locked file leaves the store only by its owner's removal or by eviction |
| StorageRuns.LruRunsAsFifo | src/storage.c:102-182 | with a clock that does not go back and no request that opens, reads, locks, appends to or lists a file already written, a store under LRU gives every answer of the run that FIFO gives, and ends in the same state |
| StorageRuns.StatisticsExact | src/storage.c:185-193 | the recorded maxima are the peaks over the whole run, and victimNumb is the number of evictions in it |
| StorageListing.Positions | src/storage.c:433-484 | the readable files are those at exactly the queue positions that are unlocked or locked by the caller, in order |
| StorageListing.ReadNExact | src/storage.c:404-490 | with true accounts and a written file, readN lists exactly the first n readable files in queue order with their contents, all of them when n is not positive or too large, and changes only their access times |
| StorageListing.ReadAllIff | src/storage.c:414-426 | asking for all files lists every readable one exactly when the file counter is positive and at least their number |
| StorageEffects.SucceedsIffGranted | src/storage.c:201-926 | a request succeeds exactly on one condition over openers, owner, contents and room, for an append its file's place in the order of eviction; a failing one changes nothing |
| StorageEffects.NoEntryIffMissing | src/storage.c:338-344 | a request on a named file answers ENOENT exactly when there is no such file |
| StorageEffects.LeavesIff | src/storage.c:917-922 | a file leaves the store exactly by a successful removal of it or as a victim |
| StorageEffects.AccessStep | src/storage.c:374-384 | a file's access time moves to the present exactly when it is opened, written, appended to, locked, read with something in it, or listed |
| StorageAnswers.ErrnoIff | src/storage.c:201-926 | for every request and store, each errno is answered exactly on the condition stated for it: EPERM to a lock of a file that is open to the client and locked by another, EEXIST, EACCES, EINVAL, ENOENT, and the two ways readN fails |
| StorageAnswers.WriteHandsBack | src/storage.c:561-573 | a successful write hands the client exactly the files of the store before it that are not in the store after it, each once, with its content, in the order of eviction; the k-th of that order goes exactly when without the k before it there is too little room |
| StorageAnswers.AppendEvicts | src/storage.c:649-660 | a successful append throws files out in the same way, and hands nothing back |
| StorageAnswers.OthersAnswer | src/storage.c:374-380 | the other requests throw nothing out; only a read has bytes to show, its file's content, and only readN lists |
| StorageAnswers.ReadNLists | src/storage.c:404-490 | whether or not the accounts are true, readN lists with their contents the first of the readable queue positions: as many as asked for, or as the counter says, or as there are |
| StorageAnswers.QueueStep | src/storage.c:561-584 | the queue keeps its order; files leave it as they leave the store, and a written file joins at its end |
| StorageAnswers.CounterStep | src/storage.c:582-584 | filesNumb goes up by one with a write and down by one with each eviction and each removal; capacity and policy stay |
| StorageAnswers.MaximaArePeaks | src/storage.c:185-193 | no counter was ever above its recorded maximum, and each was once equal to it |
| StorageAnswers.NobodyIsNoClient | src/storage.c:790-806 | a file that was unlocked, or created unlocked, belongs to no client |
| StorageAnswers.MachineSums | src/storage.c:565-585 | the counters' sums and differences are those of the integers modulo 2^64 |
| StorageAnswers.InitIs | src/storage.c:50-92 | no store for an empty capacity; else it is empty, has the capacity asked for, and replaces by LRU exactly if policy 1 was asked for |
| StorageFailures.CounterBelowZero | src/storage.c:919 | create, then remove: the store counts minus one files |
| StorageFailures.AppendToUnwritten | src/storage.c:659-665 | create, then append: the bytes are in no counted and no queued file |
| StorageFailures.ReadAllMissesFile | src/storage.c:414-426 | create a and b, write b, remove a: a request for all files fails although b is there to be read |
| StorageFailures.OversizedWriteUndefined | src/storage.c:565-567 | a two-byte write to a one-byte store |
| StorageFailures.AppendEvictsItsOwnFile | src/storage.c:649-660 | after create and write, an append to the only file of a store of one file frees that file first |
| StorageFailures.LruThrowsOutTheRecentFile | src/storage.c:143-152 | write f, write g, read f, write h under LRU: f goes, though g was used less recently; FIFO would do the same, and `StorageFailures.PolicyTells` has the run that tells them apart |
| StorageFailures.PolicyTells | src/storage.c:64-69 | from an empty store, f, g and h written in this order and used last at 5, 4 and 3: policy 1 throws out h, the last in the queue, and every other policy f |
| Storage.Store.constructor | src/storage.c:50-92 | a new store is the specification's initial one, empty and sound for every capacity and valid for those below 2^63; `StorageAnswers.InitIs` says which policy it has |
| Storage.Store.OpenFile | src/storage.c:201-316 | on the real table: create, or open with or without the lock, with every refusal, as in the specification |
| Storage.Store.ReadFile | src/storage.c:327-398 | on the real table: the content of a file open to the client and not locked by another |
| Storage.Store.LockFile | src/storage.c:692-748 | on the real table: lock ownership changes and refusals are those of the specification, whose errors `StorageAnswers.ErrnoIff` states |
| Storage.Store.UnlockFile | src/storage.c:753-809 | likewise for unlocking |
| Storage.Store.CloseFile | src/storage.c:814-872 | likewise for closing |
| Storage.Store.RemoveFile | src/storage.c:879-941 | with names queued at most once, the file leaves both counters, the heap list and the heap table |
| Storage.Store.LruScan | src/storage.c:132-160 | the loop over queue nodes and table lookups finds the victim of the scan on access times, which `StorageEviction.LruVictimIs` describes without it |
| Storage.Store.GetVictim | src/storage.c:98-182 | the victim leaves both structures and the counters and its copy is returned |
| Storage.Store.MakeRoom | src/storage.c:561-574 | the eviction loop on the heap structures ends with the specified store and victims |
| Storage.Store.WriteFile | src/storage.c:497-600 | outside the undefined inputs, a write on the heap structures gives the specified store, answer and victims; `StorageAnswers.WriteHandsBack` says which files those are |
| Storage.Store.AppendFile | src/storage.c:603-690 | likewise for an append |
| Storage.Store.ReadQueue | src/storage.c:433-484 | the loop along the queue sends the copies of the first n readable files and refreshes their access times |
| Storage.Store.ReadNFiles | src/storage.c:404-490 | reading many files on the heap structures gives the specified answer and store |
| Storage.Store.UpdateStorage | src/storage.c:185-193 | the maxima follow the counters |
| Storage.Store.Handle | src/server.c:455-1012 | any one request keeps list, table, counters and invariant and does what the specification says |
| Storage.Store.Serve | src/server.c:426-456 | a whole run of requests on the heap structures ends in the store the specification gives for the run |
| LockerSpec.StepInv | src/locker.c:46-136 | reader count, writer flag and wait sets stay right under every step, spurious wakeups included |
| LockerSpec.ReadersStep | src/locker.c:56-59 | a reader comes in exactly when the flag is down, and goes out with each unlock |
| LockerSpec.WriterStep | src/locker.c:101-107 | a writer comes in exactly when nobody reads and it has claimed the lock or finds it unclaimed, and stays until its unlock |
| LockerSpec.FlagStep | src/locker.c:104-128 | the flag goes up with a writer's call that finds it down, and down with the writer's unlock alone |
| LockerSpec.SleepsIff | src/locker.c:56-129 | who sleeps after a step: the caller that has to wait, and every sleeper until a writer or the last reader goes out |
| LockerSpec.WriterExcludes | src/locker.c:101-107 | in every reachable state a writer inside has the lock to itself |
| LockerSpec.FieldsCountThreads | src/locker.c:56-104 | in every reachable state readersNumber is the readers inside and the flag is up exactly while one thread has claimed the lock |
| LockerSpec.NoReaderAfterClaim | src/locker.c:104-107 | from a claim until the writer unlocks no reader enters, and the writer waits for exactly the readers that were inside |
| LockerSpec.ClaimantEnters | src/locker.c:104-107 | until it unlocks, a thread that has claimed the lock is inside, or will be at its next attempt, exactly when every reader that was inside has left |
| LockerSpec.SomeoneAwake | src/locker.c:78-81 | while any call is unfinished, some call can go on or some thread is inside |
| LockerSpec.WriterWaitsForItself | src/locker.c:101-103 | a writer inside that calls the lock again sleeps for ever: in no run can anybody clear the flag |
| LockerSpec.ReaderWaitsForItself | src/locker.c:104-107 | a reader inside that asks to write sleeps for ever and lets no new reader in |
| Locker.Lock.ReadLock | src/locker.c:46-66 | one pass of the code is one step of the monitor |
| Locker.Lock.ReadUnlock | src/locker.c:68-89 | likewise, with its conditional broadcast |
| Locker.Lock.WriteLock | src/locker.c:91-116 | likewise, for both of its wait loops |
| Locker.Lock.WriteUnlock | src/locker.c:118-136 | likewise, with its broadcast |
| LockProtocol.DisciplinedIffNotLeaking | src/storage.c:201-926 | of all ways an operation can go on after its check, exactly the leaking ones break the lock discipline |
| LockProtocol.ContinueDisciplined | src/storage.c:201-926 | from its lookup to its check every operation keeps it |
| LockGuards.VerdictLeaksIff | src/storage.c:355-381 | the checks in the code's order take a leaking branch exactly on the four conditions stated for requests and stores |
| LockGuards.VerdictIsOutcome | src/storage.c:201-926 | a granted request does not fail, a denied one does, a leaking one answers EACCES or an empty read and changes nothing |
| LockGuards.ActedIsStep | src/storage.c:201-926 | as long as what the check found still holds, acting on it is carrying out the whole request |
| LockProtocolProofs.StepSane | src/storage.c:201-926 | every step of any number of threads, leaking or not, keeps who is inside which lock and who waits where |
| LockFootprints.LocksAtAccess | src/storage.c:201-926 | in every run, leaks included: who looks into the table, looks at a file, changes or frees one is inside exactly the storage and file locks, in the modes, that each operation takes for it |
| LockFootprints.NothingElse | src/storage.c:201-926 | without a leak it is inside no other lock, in no other mode and not twice |
| LockFootprints.LocksLastAsFiles | src/storage.c:242-257 | in every run a file's lock is there exactly as long as the file |
| LockFootprints.EntersWay | src/storage.c:213-349 | how each operation comes in: alone or as a reader, and for opening an existing file once alone, out, and in again |
| LockFootprints.DeniedWayOut | src/storage.c:525-533 | after a denial the locks are given back at once, in the order stated for each operation |
| LockFootprints.ActedWayOut | src/storage.c:586-596 | after it has acted likewise, remove freeing the file instead of unlocking it |
| LockFootprints.CloseGoesRound | src/storage.c:845-862 | a granted close lets go of the file and takes its lock alone before it acts |
| LockFootprints.EnoughWayOut | src/storage.c:476-489 | readN that has had enough lets go of its last file and then of the storage lock |
| LockFootprints.LeakedWay | src/storage.c:368-371 | what each leaking branch still gives back, and what it keeps or asks for again |
| LockDiscipline.StepInv | src/storage.c:201-926 | without a leak nobody holds a lock twice or leaves one behind, and nobody refers to a lock that is gone, victims' locks being freed with them |
| LockDiscipline.FreeIsSafe | src/storage.c:918-922 | when a removal frees its file nobody else is inside its lock, waits for it or will use it |
| LockDiscipline.UsedIffInside | src/storage.c:105-127 | whoever holds the storage lock for writing would free a file another thread still uses exactly when another thread is inside that file's lock |
| LockProtocol.FilesUnderStorageLock | src/storage.c:339-349 | without the storage lock a disciplined thread refers to no file but the one it holds |
| LockProtocolTheorems.FileHolderNotBlocked | src/storage.c:345-349 | a thread with a file lock waits for nothing |
| LockProtocolTheorems.FileWaiterHoldsStorage | src/storage.c:345-349 | a thread waiting for a file lock holds the storage lock and no other |
| LockProtocolTheorems.Progress | src/storage.c:201-926 | without a leak, if some operation is unfinished some thread can go on |
| LockProtocolTheorems.EveryStepAdvances | src/storage.c:201-926 | every step but a new request or a spurious wakeup, leaking or not, brings the system closer to its end in a well-founded order |
| LockProtocolTheorems.RemoveFreesUnused | src/storage.c:879-926 | in every such run, when a removal frees a file no other thread holds its lock, sleeps at it or has a use of it left |
| LockProtocolTheorems.WriterAloneInRuns | src/storage.c:507-533 | in every such run, while a thread holds the storage lock or a file lock for writing nobody else holds it |
| StoreMoments.ListingIff | src/storage.c:433-484 | what a tour of the queue, one file at a time, collects is what readN lists on a given store exactly when each file it looked at was readable then if and only if it is there |
| StoreMoments.ReadableRun | src/storage.c:732-806 | between two looks whether a file is readable changes only by the Lock, Unlock and locking Open requests answered on it |
| StoreMoments.MomentIff | src/storage.c:433-484 | a tour answers what readN, taken whole at a given moment, answers exactly when the Lock, Unlock and locking Open requests between that moment and each of its looks leave the file as readable; it then leaves the same store exactly when the refreshing of access times agrees; the others get the same answers in any case |
| StoreMoments.AnyOrderIff | src/storage.c:433-484 | whatever requests are taken before a whole readN, in whatever order, it lists what the tour collected exactly when their Locks, Unlocks and locking Opens leave each file as readable as those answered before its look |
| StoreMoments.EveryMoment | src/storage.c:433-484 | if no owner comes or goes meanwhile every moment explains what readN answers |
| StoreMoments.ListsWhatNoMomentShows | src/storage.c:437-480 | the owner locks the first file and then unlocks the second while readN goes from one to the other: it lists both, at no moment more than one |
| StoreLocking.StepSound | src/storage.c:201-926 | in every interleaving up to an undefined request or an unsafe eviction, leaks included, the store keeps its invariant and agrees with the locks, and what a check granted still holds when the worker acts |
| StoreLockingTheorems.HistoryExplained | src/storage.c:201-926 | in every such interleaving the store and every answer are those of the answered requests and the looks of readN taken one after the other, each as a whole, in the order of their turns |
| StoreLockingTheorems.StoreIsSequential | src/storage.c:201-926 | so an interleaving in which no readN lists files has the answers and the store of its requests in sequence |
| StoreLockingTheorems.InterleavingAccounts | src/storage.c:561-585 | in every such interleaving the counters are true exactly when no unwritten file was removed or appended to |
| StoreLockingTheorems.LeaksAtIff | src/storage.c:355-381 | a worker's step leaks exactly when its request's condition holds on the store it is checked on |
| StoreLockingTheorems.ItemTold | src/storage.c:201-926 | what an interleaving makes of a worker's turn carries that worker's request, client and the time of the turn |
| StoreLockingTheorems.LookupTold | src/storage.c:338-349 | a request is answered at its lookup exactly if it creates, names no file, or is a readN that fails; else it goes on to the lock of its own file, or of the first in the queue |
| StoreLockingTheorems.FreeingIff | src/storage.c:105-127 | the locks freed when a worker acts are those of exactly the files its write or append evicts |
| StoreLockingTours.ReadNMoment | src/storage.c:404-490 | readN among other workers, from its lookup to its last look: when its answer and the store have a moment at which it could have been taken whole, as in `StoreMoments.MomentIff` |
| StoreLockingTours.ReadNInAnyOrder | src/storage.c:404-490 | the same for its answer and any requests taken before it, in any order, as in `StoreMoments.AnyOrderIff` |
| StoreLockingLiveness.UnsafeIff | src/storage.c:561-574 | making room frees a file under another worker exactly when another worker is inside the lock of a victim |
| StoreLockingLiveness.DeadlockFree | src/storage.c:201-926 | as long as no request's turn has come on a store where it leaks, whenever an operation is unfinished some worker can step without freeing a file in use, or has come to a request that is undefined |
| StoreLockingLiveness.AllFinish | src/storage.c:201-926 | from every such state all operations can be run to their end with no file freed in use, unless the turn comes of a request that leaks or is undefined |
| StoreLockingLiveness.LeakIsForEver | src/storage.c:355-381 | once a request's turn comes on a store where it leaks, its worker is inside some lock for ever, whatever anyone does |
| StoreLockingLiveness.GivesBackIff | src/storage.c:201-926 | a worker that is done with a request is inside no lock exactly when the request did not leak on the store it was checked on |
| StoreLockingRuns.SequencesHappen | src/storage.c:201-926 | every sequence of requests that list nothing and neither leak nor are undefined is an interleaving: one worker alone takes every lock at once and does what the specification says |
| StoreLockingFailures.EvictionUnderReader | src/storage.c:347-358 | a run in which a reader has its file's lock and has let go of the storage lock, and a writer is about to free that file |
| StoreLockingFailures.ListsBoth | src/storage.c:437-480 | a run from an empty store to the readN that no moment explains |
| LockLeaks.WriteLeakSelfLocks | src/storage.c:525-533 | a write or append that leaks is inside its file's lock and has yet to take it again |
| LockLeaks.SelfLockIsForEver | src/storage.c:676-684 | in every run from there, other leaks included, that worker never finishes and nobody else gets into the file |
| LockLeaks.RemoveLeakLosesStorage | src/storage.c:907-912 | a removal that leaks is inside the storage lock with no step left that lets go of it |
| LockLeaks.StorageLostForEver | src/storage.c:907-912 | in every run from there no other thread gets into the storage lock, and that worker gets nowhere either |
| LockLeaks.ReadLeakKeepsReader | src/storage.c:368-371 | a read that leaks is inside the file's lock as a reader once more than it will ever undo |
| LockLeaks.LeftReaderShutsWritersOut | src/storage.c:368-371 | in every run from there, in which that worker may read the file again, as long as the file is not evicted, which an empty file never is, it is never freed and no writer gets into its lock |
| LockLeaks.LeftReaderLosesStorage | src/storage.c:507-517 | whoever then comes to write to or remove that file keeps the storage lock for ever |
| LockLeaks.CleanWhenDone | src/storage.c:201-926 | without a leak a thread between operations is inside no lock |
| JobQueueSpec.StepInv | src/boundedBuffer.c:56-115 | what went in is what came out followed by what is queued, never more than the size; a sleeping producer implies a queued job, a sleeping consumer an empty queue |
| JobQueueSpec.RunInv | src/boundedBuffer.c:56-115 | the same in every interleaving of any number of threads |
| JobQueueSpec.JobsStep | src/boundedBuffer.c:68-105 | a job goes in at the end exactly when there is room, and the oldest comes out exactly when there is one |
| JobQueueSpec.SleepsIff | src/boundedBuffer.c:68-109 | who sleeps after a step: who found the queue full or empty, and every sleeper until a job goes in, or the last one comes out |
| JobQueueSpec.TakesAll | src/boundedBuffer.c:68-79 | the queue takes as many jobs as its size in a row, with nobody put to sleep |
| JobQueueSpec.NeverStrandedTogether | src/boundedBuffer.c:68-109 | producers and consumers are never all asleep together |
| JobQueueSpec.SleeperWokenByDrain | src/boundedBuffer.c:107-109 | while nothing is enqueued a sleeping producer wakes exactly when the queue has drained, one dequeue per job |
| JobQueueSpec.SleepingProducerCanStarve | src/boundedBuffer.c:107-109 | with other producers at work a sleeper can stay asleep for any number of rounds although there was room in each |
| JobQueueSpec.StarvationReachable | src/boundedBuffer.c:68-70 | three enqueues on a queue of two reach that situation |
| BoundedBuffer.Buffer.Put | src/boundedBuffer.c:73-75 | the ring's contents grow by the job at the end |
| BoundedBuffer.Buffer.Take | src/boundedBuffer.c:101-105 | the oldest job comes out of the ring |
| BoundedBuffer.Buffer.EnqueueBuffer | src/boundedBuffer.c:56-85 | one pass over the ring is one step of the monitor |
| BoundedBuffer.Buffer.DequeueBuffer | src/boundedBuffer.c:87-115 | likewise, handing out the oldest job |
| ServerSpec.StepInv | src/server.c:245-314 | every step keeps each online client in one place, clientsOnline right and the select range wide enough |
| ServerSpec.TokensConserved | src/server.c:245-314 | in every run each online client is in exactly one of select set, manager, job queue, worker and pipe, exactly when no request read was malformed; clientsOnline counts online clients, workers between close and notify, and -1 messages |
| ServerSpec.LostIffMalformed | src/server.c:449-456 | a client is dropped from the protocol exactly when a request is read that has no word or none of the ten opcodes |
| ServerSpec.OnlineStep | src/server.c:248-263 | a client is online from an accept before any hang-up until its worker closes the connection |
| ServerSpec.WatchedStep | src/server.c:254-299 | a client is selected on from its accept or its message on the pipe until its request is taken |
| ServerSpec.ReadyStep | src/server.c:223-246 | a descriptor is ready from the select that says so until it is visited or the next select |
| ServerSpec.HandStep | src/server.c:297-303 | a request is in the manager's hand from taking it until it is queued |
| ServerSpec.CountStep | src/server.c:254-282 | clientsOnline goes up by one with each client let in, and down by one only with a -1 from the pipe |
| ServerSpec.RangeStep | src/server.c:256-302 | fd_num goes up exactly to a larger descriptor, and down exactly by one with its own request |
| ServerSpec.WorkerStep | src/server.c:429-448 | a worker serves the client at the head of the queue, and closes exactly for a client that leaves |
| ServerSpec.ManagerMay | src/server.c:245-303 | what the manager and the workers can do in any reachable state; with a request in hand the manager waits exactly while 256 jobs are queued |
| ServerSpec.RequestsInOrder | src/server.c:297-433 | over every run requests are served in the order in which they were queued |
| ServerSpec.MessagesInOrder | src/server.c:272-293 | over every run messages are acted on in the order in which the workers sent them |
| Commands.DecimalRoundTrip | src/server.c:297-298 | a number printed in decimal and read back is the same number |
| Commands.DecimalPlain | src/server.c:297-298 | no number is printed with a zero in front |
| Commands.SignedRoundTrip | src/server.c:456 | a number with a sign reads as itself |
| Commands.FirstWordIs | src/server.c:450-451 | the first word is what stands between the spaces at the head of a text and the next space or the end |
| Commands.CharactersAre | src/server.c:456 | which characters count as digits and as white space |
| Commands.KeptIff | src/server.c:456 | a word leaves op as it was exactly if it does not begin with a number |
| Commands.NoWordIffBlank | src/server.c:450-454 | a text has no first word exactly when it is all spaces |
| Commands.DroppedIffMalformed | src/server.c:449-458 | no branch of the worker serves a text exactly when it is blank or its opcode, read past leading white space, is none of the ten |
| Commands.CommandRoundTrip | src/server.c:449-457 | a text made of an opcode, and perhaps a space and arguments, is served by that opcode, whatever came before, with spaces, tabs or line ends in front: 0 to 8 are answered, 9 ends the connection, any other number is served by nobody |
| Commands.OtherFates | src/server.c:456-457 | for any word at all the opcode read alone decides, by the same numbers |
| Commands.GoneLeaves | src/server.c:441-448 | a client whose connection has ended leaves |
| ServerSpec.OneWorkerPerClient | src/server.c:429-441 | no two workers ever serve one client |
| ServerSpec.ManagerNeverBlocks | src/server.c:297-303 | with at most 256 clients online the manager always finds room in the job queue |
| ServerSpec.ExitDropsNothing | src/server.c:219-221 | the exit can be taken after a hang-up only when no request is queued, being served or awaiting re-arm; `ServerSpec.StopsOnlyAtRest` has the same for every run and the stopped server |
| ServerSpec.StopsOnlyAtRest | src/server.c:219-221 | in every run the server has stopped exactly if the run contains its exit, turns clients away exactly if it contains a hang-up, and once stopped has nobody online or selected on, nothing queued, in hand, served or on the pipe |
| ServerSpec.NobodyJoins | src/server.c:250-252 | over every run after a hang-up whoever is online was online at the hang-up |
| ServerSpec.CanStop | src/server.c:219-220 | a running server can always take a hang-up, and stop exactly once one came and its count is down to zero |
| ServerSpec.LostClientPreventsExit | src/server.c:219-221 | a client lost to a malformed request keeps the server from ever stopping after a hang-up |
| ServerSpec.SelectSeesAll | src/server.c:299-302 | lowering fd_num never hides a descriptor or a pending message from select |
| ServerSpec.WorkNeverStuck | src/server.c:426-498 | with a worker and at most 256 clients work in progress can always go on |
| ServerSpec.RequestsComeBack | src/server.c:426-498 | from every such state, in at most a computed number of steps, every request taken up is answered and every surviving client is selected on again |
| Server.Shared.AcceptClient | src/server.c:248-263 | the manager's fields change as the protocol step says |
| Server.Shared.HandlePipe | src/server.c:272-293 | likewise for a pipe message |
| Server.Shared.TakeRequest | src/server.c:295-302 | likewise for a ready client |
| Server.Shared.EnqueueJob | src/server.c:298-308 | the descriptor goes onto the ring in decimal, and the abstract queue gains it |
| Server.Shared.ManagerPass | src/server.c:245-315 | one pass over the stale copy of the set, with fd_num shrinking and growing and the workers taking any of their steps between its visits, visits every ready descriptor once and in order; it ends early only after a hang-up with the last client gone, and then no client is left over |
| Server.Shared.WorkerMove | src/server.c:426-498 | a worker's step changes neither the sets, the range nor the count, only adds to the pipe and only takes clients offline |
| Server.PassComplete | src/server.c:245-302 | past the moved end of the range no ready descriptor is left over |
| Server.Shared.WorkerDequeue | src/server.c:429-434 | a worker reads the oldest descriptor back from the ring, or sleeps while it is empty |
| Server.Shared.WorkerServe | src/server.c:439-458 | what a worker makes of the bytes it received is the protocol step for them |
| Server.Shared.WorkerNotify | src/server.c:1004-1010 | likewise for the -1 message |

## Left out

- Sockets, `select`, signals, logging, `errno` text and the byte framing between client and server; serving a request is one call on the store.
- The client, its command line and its saved files (`src/client.c`, `src/interface.c`), and configuration parsing (`src/txtParser.c`).
- Failures of `malloc`, of the pthread calls and of descriptors, and the freeing of memory.
- The null-argument checks that open each operation, except an empty or missing content.
- StoreLocking.StepSound: looking up and creating a file is one step, and so is acting, the eviction loop of a write or an append included; under LRU its scans could see access times refreshed in between by a worker that is past the storage lock.
- Races on `lastAccess`: reading and listing refresh it while holding the file's lock only for reading; each refresh is one step here.
- StoreMoments.MomentIff: a moment keeps the other requests in the order of their turns; `StoreMoments.AnyOrderIff` has the listing for every other order, and nothing is said of the access times those leave.
- Releasing locks and opens when a client disconnects: the code does neither.
- The `-1` jobs that stop the workers at exit, and repeated hang-up or termination signals.
- Overflow of the `int` fields `filesNumb`, `maxFileStored` and `victimNumb`.
- Descriptors below the pipe's: client descriptors are taken to be above the listening socket and the pipe.
- Server.Shared.ManagerPass: the new client's descriptor is one that no client had when the pass began.
- Commands whose opcode is followed by too few arguments, and numbers too large for an `int`.
- StorageInvariant.AppendUndefinedIff: a step on the way; `StorageEviction.AppendSucceedsIff` has the condition in terms of the store before the call.
- Storage.Store.AppendFile: the victims in its response are for the specification only; the code loses them.
- Storage.Store.CloseFile: the list of openers is a sequence field here, not a heap list; `LinkedList.List.RemoveList` is that list's own proof.
- Storage.Store.MakeRoom: the list of victims handed back is a sequence, not a heap list.
- LockProtocol.ContinueDisciplined: opening an existing file looks the table up twice in the code; the model follows the second lookup, on which the operation acts.
