# Flame: cache, session and runtime protocols in Dafny

This project models the stateful core of Flame and proves what its operations keep over whole runs.
`dafny verify dfyconfig.toml` checks everything.

| file | what it models |
|---|---|
| `Wrappers.dfy`, `Sequences.dfy` | optional values and results; sequences without repeats |
| `ObjectKeys.dfy` | object keys `<app>/<session>/<object>`: both parsers, the printed forms, the string test of filters |
| `CacheProtocol.dfy` | the object cache as interleaved steps of any number of puts, patches, compare-and-deletes, prefix deletes and readers: queue for a lock, be granted it, look at metadata, look at the store, call the storage engine, update the metadata map or send part after part, release |
| `CacheLocks.dfy` | fair key locks: mutual exclusion, no waiting cycle, progress, no endless run, and an end under every scheduler |
| `CacheHistory.dfy` | no lost write: versions and parts over every run; readers send one version |
| `CacheAnswers.dfy` | what each request is answered, from the state in which it has its lock, whatever steps in between |
| `CacheAgreement.dfy` | when the metadata map agrees with the store, exactly, and a family of runs in which it does not |
| `CacheMetadata.dfy` | what metadata says of stored objects in every run, and what a compare-and-delete erases |
| `LruPolicy.dfy`, `LruHistory.dfy` | the eviction list kept as key pointers, refined to a sequence, and that sequence as the order of last use |
| `LruEviction.dfy` | eviction in batches, with tracked keys that are not resident, and exactly when it ends |
| `LruResident.dfy`, `LruPileUp.dfy` | the open handles of a storage engine under that eviction: which keys are tracked without a handle after any run of calls, which calls return, and how such keys pile up |
| `GarbageCollector.dfy` | which objects a collection cycle deletes |
| `GcSafety.dfy` | what those deletions do to the cache, in every run of the cache protocol |
| `GcRecreation.dfy` | which objects a deletion can erase in place of the listed one, exactly |
| `SessionTasks.dfy` | a session's versioned tasks and their index by state |
| `DataStorage.dfy` | the append-only data file |
| `Events.dfy`, `FsEvents.dfy`, `EventRuns.dfy` | the in-memory and the file-backed event manager, and whole runs of both |
| `Notifier.dfy` | the channel registry under every interleaving of subscribe, notify, remove and the two halves of a drop |
| `NotifierRegistry.dfy` | when the registry holds a channel, exactly |
| `CriSpec.dfy`, `CriManager.dfy` | creating and deleting workloads against a container runtime (Kubernetes CRI `runtime.v1`) whose every call may fail |
| `Cgroup.dfy` | removing a tree of control groups |
| `Resources.dfy` | printing and parsing resource requirements |
| `ResourceText.dfy` | what an accepted requirement means: spaces, case, units, ranges, repeated and bad entries |

Concurrent code is a state machine: a step is what happens under one lock or in one storage call, a
run is any sequence of enabled steps, and theorems speak of every run. Sequential code that changes
things in place is a class or a method with loops, proved against functions on values. What the code
cannot decide is a parameter and quantified over: the outcome of a storage call or RPC, the metadata
map a delete finds, the order of a directory listing, how long a directory stays busy.

Where the code does less than one would expect:

- A prefix delete locks only the matching keys of its metadata snapshot. Metadata and store agree
  throughout a run exactly when no delete's storage call meets a covered object it did not lock, and
  no delete's metadata update meets one (`AgreementExactly`). For every put and every filter that
  covers its key there is a run in which both finish and metadata names an object that is not stored
  (`OverlapBreaksAgreement`).
- A parsed path whose session is `*` does not print back to itself; every other one does
  (`PrintOfFromPath`).
- The collector deletes what it listed by version and creation time. What a deletion can erase is
  exactly any object under its key with as many parts and the same creation time (`ErasableExactly`),
  so one deleted and created again at the very same millisecond passes for the listed one
  (`RecreatedIsErased`). The grace period rules this out (`CycleIsSafe`) unless the cache's clock goes
  back by more than the grace period, or both application snapshots show an application time that far
  ahead of it (`ErasedIsStale`).
- Batch eviction does not end when it comes to a round over the limits in which none of the next
  victims is resident; `EndsExactly` and `FinalMeans` say when it ends. A key gets tracked without
  being resident exactly when a patch opens the object, its eviction drops the very handle, and the
  patch then accounts for it as kept (`StraysExactly`). Without such a patch every call returns
  (`ReturnsUnlessLost`). A single patch on an empty store can be enough to hang (`OneKeyGetsStuck`),
  and for every limit on the number of handles below the batch of ten there are opens and patches that
  all return, after which no patch of another key does (`HangsInTheEnd`).
- The registry of channels is documented to hold a channel only while subscribers are present. After
  a subscribe and the first half of its drop it holds one without (`ReleasedStaysRegistered`);
  `RegisteredExactly` says when.
- A workload creation that fails without reporting a failed rollback leaves its sandbox behind in two
  cases exactly (`Create`): it got a blank sandbox id (`BlankAnswerLeavesSandbox`), or its call was not
  answered and the runtime finished the sandbox after the cleanup had listed (`LateSandboxIsLeft`).
- A printed requirement is documented to be reusable verbatim. It is accepted, but its memory is
  rounded down to the printed unit (`ParseOfFormat`).
- Memory units are binary up to the fifth letter; with the sixth, `E` and `EB` are decimal and `Ei` is
  binary (`UnitMeansBytes`, `SixthUnit`).

## Model

| member | source | states |
|---|---|---|
| ObjectKeys.TryFromText | object_cache/src/cache.rs:178-203 | an accepted stored key is its three components, none with a slash in it, joined by slashes |
| ObjectKeys.MatchesIsComponentwise | object_cache/src/cache.rs:68-147 | for every filter from a path and every accepted stored key, the string test equals comparing components, so no test crosses a slash |
| ObjectKeys.PrefixIsTwoPieces | object_cache/src/cache.rs:131-147 | a text begins with two components and a slash exactly when its first two pieces are those components |
| ObjectKeys.PrintOfFromPath | object_cache/src/cache.rs:68-116 | printing what a path parsed to gives the path back exactly when its session is not the wildcard |
| ObjectKeys.WildcardPath | object_cache/src/cache.rs:68-116 | for every application the path with a wildcard session is accepted and prints as something else |
| ObjectKeys.FromPathOfPrint | object_cache/src/cache.rs:122-137 | a key of clean components survives printing and parsing |
| ObjectKeys.PutKeyIsProper | object_cache/src/cache.rs:515-522 | no put, with a given or a generated id, reaches the store under a key whose session is the wildcard |
| ObjectKeys.PutKeyIsPath | object_cache/src/cache.rs:515-522 | a put is accepted exactly when its path is and the session is not the wildcard, and its key is the path itself, or the path with the generated id behind it when none was given |
| ObjectKeys.AcceptedIsSafe | object_cache/src/cache.rs:68-116 | no accepted path or stored key has an empty component, two dots in a row or a backslash |
| ObjectKeys.AcceptedPaths | object_cache/src/cache.rs:68-116 | every component of an accepted path is clean, and a wildcard session stands only in a path without an id |
| ObjectKeys.WithObjectIdIsProper | object_cache/src/cache.rs:156-175 | naming the object of a session key keeps the stored key proper |
| ObjectKeys.WithObjectIdMeans | object_cache/src/cache.rs:156-175 | an id is taken exactly when the session is not the wildcard and the id is a valid component, and the stored key is then the path, a slash and the id |
| ObjectKeys.StoredKeyMatchesItself | object_cache/src/cache.rs:647-669 | the filter read from a stored key covers itself and nothing else exactly when the key is proper |
| CacheProtocol.PatchedMetaAgrees | object_cache/src/cache.rs:580-607 | what patch writes to metadata is the metadata of the extended object, counted from its parts |
| CacheProtocol.NewMetaAgrees | object_cache/src/cache.rs:524-552 | what put writes to metadata is the metadata of a one-part object |
| CacheLocks.LockStep | object_cache/src/cache.rs:474-480 | every step of every operation keeps each lock's queue equal to its holders and waiters, holders grantable, plans ascending, and all but prefix deletes at one lock |
| CacheLocks.GrantMeans | object_cache/src/cache.rs:474-480 | an operation in a lock's queue can be granted the lock exactly when it is first or it and all before it only read |
| CacheLocks.RunKeepsLocks | object_cache/src/cache.rs:613-645 | the lock invariant holds after every run |
| CacheLocks.Exclusive | object_cache/src/cache.rs:525-526 | two holders of one lock, one of them a writer, are the same operation |
| CacheLocks.SortKeys | object_cache/src/cache.rs:617-624 | the matching keys can always be put in ascending order without repeats |
| CacheLocks.NoWaitCycle | object_cache/src/cache.rs:613-633 | no chain of waits-for edges returns to its start, so there is no deadlock and no operation waits on itself |
| CacheLocks.WaiterIsServed | object_cache/src/cache.rs:613-633 | from any waiting operation, following lock queues upwards reaches one that can step |
| CacheLocks.SomeoneCanStep | object_cache/src/cache.rs:613-633 | while any operation is unfinished, some operation already started can step |
| CacheLocks.NoEndlessRun | object_cache/src/cache.rs:509-677 | no infinite sequence of steps without new requests is a run: each comes to a step that is not enabled |
| CacheLocks.EveryScheduleEnds | object_cache/src/cache.rs:509-677 | under every scheduler, whether it looks at the state or at all steps so far, without new requests all operations in flight finish |
| CacheHistory.RunKeepsHistory | object_cache/src/cache.rs:524-607 | acknowledged writes stay tied to their versions and parts after every run |
| CacheHistory.RunGrows | object_cache/src/cache.rs:524-607 | over every run, between creations of a key its part list only grows by appending |
| CacheHistory.NoLostWrite | object_cache/src/cache.rs:524-607 | the writes acknowledged for a key were answered with consecutive versions, each part is at its version's place, and once no write is in flight these are all the parts |
| CacheHistory.RunAcknowledges | object_cache/src/cache.rs:545-607 | while a key is not created again, every write answered with a version since any point of the run is an acknowledged one, and no acknowledgement is lost |
| CacheHistory.VersionsNeverRepeat | object_cache/src/cache.rs:545-607 | in every run, two writes of a key answered with the same version within one creation of it are one operation |
| CacheHistory.GetSendsOneVersion | object_cache/src/cache/grpc.rs:155-230 | in every run, a reader that found an object either fails or sends exactly that object's parts after the requested version, though it reads part by part while other operations step |
| CacheAnswers.AnswersExactly | object_cache/src/cache.rs:509-677 | in every run, a request on one key that has its lock, whose own storage calls succeed and whose key no delete reaches without its lock, is answered as the state at that point says: which puts, patches, reads and compare-and-deletes fail, and every version, content and outcome of the others |
| CacheAnswers.ReaderAnswer | object_cache/src/cache/grpc.rs:155-230 | such a reader of an object with n parts fails exactly when it asks for a version above n, is told it is up to date exactly at n, and otherwise gets the version n, the data type and the parts after the version asked for |
| CacheAnswers.UpToDateMeans | object_cache/src/cache/grpc.rs:171-186 | in every run, deletes and failures included, a reader told it is up to date looked at metadata at a moment when the version there was the nonzero one it asked for, and the object, if stored, had exactly so many parts |
| CacheAnswers.PatchedMeans | object_cache/src/cache.rs:575-611 | in every run, a patch answered with a version looked at a stored object of its own data type with one part less |
| CacheAnswers.DeletedMeans | object_cache/src/cache.rs:647-677 | in every run, a compare-and-delete that reports a deletion made a successful storage call, and one that reports none made no storage call at all |
| CacheAnswers.FailedCall | object_cache/src/cache.rs:509-677 | a storage call that fails changes neither store nor metadata and fails the request |
| CacheAnswers.DeleteTakesCovered | object_cache/src/cache.rs:613-645 | the two halves of a delete take exactly the covered keys, one from the store and one from metadata, and it is then answered as done |
| CacheAnswers.OthersLeave | object_cache/src/cache.rs:525-677 | while an operation has the lock of a key, no step of another changes the key in store or metadata, except a delete that reaches it without its lock |
| CacheAgreement.LoadedAgrees | object_cache/src/cache.rs:461-490 | loading the store gives a state in which metadata and store agree |
| CacheAgreement.InvStep | object_cache/src/cache.rs:509-677 | every step, deletes included, keeps locks, history, and the fact that no metadata key has a wildcard session |
| CacheAgreement.StepAgrees | object_cache/src/cache.rs:509-677 | from an agreeing state, a step leads to an agreeing state exactly when it is not a delete's write or metadata update over an unlocked covered object |
| CacheAgreement.AgreementExactly | object_cache/src/cache.rs:461-677 | over every run from a loaded store, metadata and store agree throughout exactly when no such step occurs |
| CacheAgreement.AgreementWithoutOverlap | object_cache/src/cache.rs:613-645 | if no put of a new covered key overlaps a prefix delete, metadata and store agree throughout the run |
| CacheAgreement.FreeKeyAgrees | object_cache/src/cache.rs:482-490 | a key whose lock is free is in metadata exactly when it is stored, with version the number of parts and size the sum of part sizes |
| CacheMetadata.TrueStep | object_cache/src/cache.rs:509-677 | every step, also one of an overlapping prefix delete, keeps metadata true of what is stored except under a holder between its storage call and its metadata update |
| CacheMetadata.MetadataDescribes | object_cache/src/cache.rs:482-490 | in every run, overlapping deletes included, metadata of a stored object describes its first parts: all, or all but the one a patch has not recorded yet |
| CacheMetadata.CompareAndDeleteIsExact | object_cache/src/cache.rs:647-677 | in every run, overlapping deletes included, a compare-and-delete that reaches the store erases its own object only, which if present has the expected version and creation time |
| CacheAgreement.OverlapBreaksAgreement | object_cache/src/cache.rs:613-645 | for every put and every filter that covers its key, a run exists after which both are finished and metadata names an object that is not stored |
| LruPolicy.RemoveFromList | object_cache/src/eviction.rs:172-206 | unlinking a key leaves pointers, head and tail that encode the sequence without it |
| LruPolicy.AddToTail | object_cache/src/eviction.rs:208-230 | linking a key leaves pointers, head and tail that encode the sequence with it at the end |
| LruPolicy.Access | object_cache/src/eviction.rs:234-263 | an access moves a tracked key to the end, ignores any other, and changes no size or total |
| LruPolicy.Evict | object_cache/src/eviction.rs:303-334 | eviction deletes the key from the sequence and its size from the wrapping counters |
| LruPolicy.Add | object_cache/src/eviction.rs:336-387 | adding, also again, leaves the key once, at the end, with its new size counted once |
| LruPolicy.ChainIsUnique | object_cache/src/eviction.rs:82-115 | one sequence with given sizes has one representation in pointers, head and tail |
| LruPolicy.SameState | object_cache/src/eviction.rs:70-73 | the sequence and the sizes determine every cell and both counters |
| LruPolicy.UpdateAndAdd | object_cache/src/eviction.rs:70-73 | on policies in the same state, the default update leaves exactly the state that an add alone leaves |
| LruPolicy.LRUPolicy.OnAccess | object_cache/src/eviction.rs:234-263 | the policy keeps its representation; the sequence changes by moving a tracked key to the end |
| LruPolicy.LRUPolicy.OnEvict | object_cache/src/eviction.rs:303-334 | the sequence loses the key and the others keep order and sizes |
| LruPolicy.LRUPolicy.OnRemove | object_cache/src/eviction.rs:389-392 | removal is eviction |
| LruPolicy.LRUPolicy.OnAdd | object_cache/src/eviction.rs:336-387 | the key becomes the most recent one with the given size, whether or not it was tracked |
| LruPolicy.LRUPolicy.OnUpdate | object_cache/src/eviction.rs:70-73 | remove then add has the contract of add |
| LruPolicy.LRUPolicy.Victims | object_cache/src/eviction.rs:265-301 | nothing within limits, otherwise the front of the sequence, as many as asked for and there are |
| LruEviction.RoundShortens | object_cache/src/storage/resident.rs:93-113 | a round shortens the list, unless none of the next victims is resident, and then it changes nothing |
| LruEviction.FinalMeans | object_cache/src/storage/resident.rs:93-113 | some number of rounds comes within the limits exactly when the list the rounds lead to is within them; if not, that list has lost every resident key older than the batch-th key that is not resident, and no further round changes it |
| LruEviction.EndsExactly | object_cache/src/storage/resident.rs:93-113 | while counters do not wrap, eviction comes within the limits exactly when clearing every resident key older than the batch-th key that is not resident would |
| LruEviction.RunEviction | object_cache/src/storage/resident.rs:93-113 | for every set of resident keys the loop follows the rounds, ends exactly when some number of them comes within the limits, and leaves resident exactly what it did not evict |
| LruResident.ResidentStorage.Files | object_cache/src/storage/resident.rs:137-157 | opening keeps the handle as the table says, before eviction, and returns exactly when the handle is there or eviction ends |
| LruResident.ResidentStorage.PatchObject | object_cache/src/storage/resident.rs:257-286 | a patch opens, accounts again and evicts twice as the table says, and returns exactly when both evictions end |
| LruResident.ResidentStorage.DeleteObjects | object_cache/src/storage/resident.rs:288-307 | whatever order the covered keys come in, a delete keeps exactly the handles of the keys not covered, forgets exactly the covered keys that had one, and every other tracked key keeps its size and its place among the others |
| LruResident.ResidentStorage.TouchObject | object_cache/src/storage/resident.rs:313-317 | a recorded access makes a tracked key the newest, keeps the others in order, and changes no handle, no size and no set of tracked keys |
| LruResident.DroppedExactly | object_cache/src/storage/resident.rs:288-307 | the table that runs of calls use for a delete says exactly that, in terms of keys, sizes and order |
| LruResident.TouchedExactly | object_cache/src/storage/resident.rs:313-317 | and so does the one for an access |
| LruResident.StepStrays | object_cache/src/storage/resident.rs:125-307 | of all calls only a patch that loses its own handle adds a key tracked without one, only opening or patching the key takes it back, and a delete never does |
| LruResident.StraysExactly | object_cache/src/storage/resident.rs:125-307 | after every run of calls a key is tracked without a handle exactly when the last call that opened or patched it was a patch whose own eviction dropped the handle |
| LruResident.LosesAll | object_cache/src/storage/resident.rs:93-157 | opening an object loses its own handle exactly when it leaves no handle at all |
| LruResident.LosesOwnExactly | object_cache/src/storage/resident.rs:93-157 | with a handle for every tracked key, opening one more loses its own handle exactly when the newest keys, as many as the last batch takes, are over the limits by themselves |
| LruResident.NoStrayEnds | object_cache/src/storage/resident.rs:93-113 | with a handle for every tracked key eviction ends, wrapping counters or not |
| LruResident.ReturnsUnlessLost | object_cache/src/storage/resident.rs:125-307 | after every run in which no tracked key lost its handle, every call returns except a patch that loses its own |
| LruResident.FirstPatchReturns | object_cache/src/storage/resident.rs:257-286 | a patch on an empty table returns exactly when its key alone is within the limits, before or after it has grown |
| LruResident.OneKeyGetsStuck | object_cache/src/storage/resident.rs:257-286 | executed on an empty store under any limits, a patch returns exactly in that case; otherwise its key is tracked, has no handle, and is over the limits for ever |
| LruPileUp.PatchOverfull | object_cache/src/storage/resident.rs:257-286 | on a full table the patch of a new key returns only if a handle is left; a small one then returns and leaves its key tracked and no handle at all |
| LruPileUp.HangsInTheEnd | object_cache/src/storage/resident.rs:31-157 | for every limit on the number of handles below the batch there are opens and patches, all of which return, after which no patch of another key returns |
| LruPolicy.OverLimitIsListed | object_cache/src/eviction.rs:151-169 | nonzero counters mean a nonempty list, so a policy over its limits always offers a victim |
| LruHistory.OrderIsByLastUse | object_cache/src/eviction.rs:234-392 | after every run of calls the sequence holds exactly the tracked keys, once each, ordered by last touch |
| LruHistory.VictimsAreOldest | object_cache/src/eviction.rs:265-301 | after every run, the victims are tracked, oldest first, older than every tracked key left, and fewer than asked for only if all are taken |
| LruHistory.Replay | object_cache/src/eviction.rs:234-392 | the linked list arrives at that sequence for every run |
| GarbageCollector.ValidateApplications | object_cache/src/gc.rs:288-346 | a listing is accepted exactly when every entry is complete and names are distinct; the names of the result are exactly those listed, and each has the state, enabled for 0 and disabled for 1, and the time that its entry gives |
| GarbageCollector.WellFormedMeans | object_cache/src/gc.rs:288-346 | complete means a nonempty name, a status, a time of at least 1, and state 0 or 1 |
| GarbageCollector.StaleIsRaw | object_cache/src/gc.rs:288-366 | under an accepted listing an object is stale exactly when no entry names its application and it is past the grace period, or an entry does with state 0 and a time more than the grace period after the object was made |
| GarbageCollector.StaleMeans | object_cache/src/gc.rs:348-366 | stale means no application and past the grace period, or an application enabled more than the grace period after the object was made |
| GarbageCollector.Select | object_cache/src/gc.rs:189-235 | keeps exactly the listed objects with readable keys that are stale under the snapshot |
| GarbageCollector.Reconcile | object_cache/src/gc.rs:189-273 | deletes are issued for exactly the listed objects stale under both snapshots, none of an application disabled in either, none after a failed listing, and the statistics count their answers |
| GarbageCollector.ReconcileListings | object_cache/src/gc.rs:189-366 | from the listings as the server sent them: deletes are issued for exactly the listed objects that are stale by both, both being accepted, so none of an application that either gives with state 1 |
| GarbageCollector.CountStaleMeans | object_cache/src/gc.rs:189-235 | the reported number of stale objects is the number of listed positions whose object is stale |
| GarbageCollector.CountAnswersMeans | object_cache/src/gc.rs:244-273 | each reported count is the number of deletes that had that answer |
| GcSafety.ListedMeansNoPut | object_cache/src/cache.rs:524-552 | while a key is in metadata no put of it is past its checks, so a put stored after a listing took its time after the listing |
| GcSafety.DeletionIsSafe | object_cache/src/gc.rs:244-270 | in every run of the cache, a deletion issued from a listing taken at any earlier point erases its own key only, and an object with the listed number of parts and creation time, which is part for part the listed one if no put of the key took that very time since, or none was stored since |
| GcSafety.CycleIsSafe | object_cache/src/gc.rs:189-273 | whatever steps between listing, compare and storage call, what a cycle erases is the object as listed, of no application disabled in either snapshot, if every put of the key since made an object that one snapshot does not show as stale; so it is as long as the clock does not go back behind the cycle's time and one snapshot shows the application at most the grace period ahead of it |
| GcSafety.DeletionKeepsOthers | object_cache/src/cache.rs:647-677 | in every run, no step of a deletion touches another key of the store or of metadata |
| GcRecreation.RecreatedIsErased | object_cache/src/cache.rs:647-677 | for every stored object, every filter that covers it alone and every object with as many parts and the same creation time, there is a run in which a delete by the filter removes the first, puts and patches create the second, and the one deletion issued from the listing is about to erase it |
| GcRecreation.ErasableExactly | object_cache/src/cache.rs:647-677 | a deletion issued from a listing can come to erase an object exactly when that object has the listed number of parts and the listed creation time |
| GcRecreation.ErasedIsStale | object_cache/src/gc.rs:348-366 | what can be erased in place of a stale object is itself stale under both snapshots, so it was made before the cycle's time unless both show its application more than the grace period ahead |
| SessionTasks.DeliverIsHighest | common/src/apis/session.rs:40-98 | delivering updates in any order leaves, for exactly the delivered ids, a delivered task of the highest version |
| SessionTasks.FirstIsKept | common/src/apis/session.rs:40-66 | of the delivered tasks of an id, the kept one is the first of those with the highest version |
| SessionTasks.DeliveryConverges | common/src/apis/session.rs:40-98 | two deliveries of the same updates, in any order and with any repetition, end in the same tasks |
| SessionTasks.VersionsNeverDrop | common/src/apis/session.rs:40-66 | however deliveries go on, a task once stored stays stored and its version never goes down |
| SessionTasks.BucketsDisjoint | common/src/apis/session.rs:68-98 | a task is indexed under one state at most |
| SessionTasks.CountsAddUp | common/src/apis/to_rpc.rs:195-203 | the five reported counts add up to the tasks without those popped and not updated since |
| SessionTasks.IndexFollowsTasks | common/src/apis/session.rs:68-98 | the index is determined by tasks and pops: an id is in a state's bucket exactly when its task has that state and was not popped |
| SessionTasks.Session.UpdateTask | common/src/apis/session.rs:40-98 | the tasks change as the highest-version rule says, an older or equal version changes nothing at all, and the index keeps holding the same pointers |
| SessionTasks.Session.PopPendingTask | common/src/apis/session.rs:100-105 | nothing exactly when nothing is pending, otherwise the pending task of least id, which leaves the index and stays in the tasks |
| SessionTasks.Session.DrainPending | common/src/apis/session.rs:100-105 | repeated pops return every pending task once, in strictly ascending id order |
| SessionTasks.ReplayBoth | common/src/apis/session.rs:40-98 | two sessions fed the same updates in different orders end with the same tasks and the same index up to empty buckets |
| DataStorage.DataFile.Save | common/src/storage/data.rs:50-63 | appends and returns the interval of what was appended |
| DataStorage.DataFile.Load | common/src/storage/data.rs:65-71 | reads exactly the interval or fails, and changes no byte |
| DataStorage.SliceMeans | common/src/storage/data.rs:65-71 | a load succeeds exactly when the interval is empty or within the file, and then returns the byte at each of its places |
| DataStorage.TileReadsBack | common/src/storage/data.rs:50-71 | every interval of a tiling reads back as its own value, whatever was appended since |
| DataStorage.Run | common/src/storage/data.rs:50-71 | in any run of saves and loads the intervals tile the appended bytes and every load of an earlier save returns what was saved |
| Events.MemoryEventManager.RecordEvent | common/src/events/memory.rs:54-67 | what is then found for the owner is what was found before and, last, the event: its code, its message or the empty one, and the latest whole millisecond not after its time; no other owner finds anything else |
| Events.RecordedIsKept | common/src/events/memory.rs:54-67 | the same about the event that runs of both managers account for: same code, message given or empty, time a whole number of milliseconds less than one millisecond earlier |
| Events.MemoryEventManager.FindEvents | common/src/events/memory.rs:69-89 | returns the owner's list and never fails on what was recorded |
| Events.MemoryEventManager.RemoveEvents | common/src/events/memory.rs:91-95 | empties the lists of one session only |
| FsEvents.OwnersNameRecords | common/src/storage/object.rs:207-232 | the owners table rebuilt from its log names, for every task, exactly its logged records in save order |
| FsEvents.ListStore | common/src/storage/object.rs:162-179 | listing walks owners in any order and still returns every logged record, those of one task in save order |
| FsEvents.SaveHolds | common/src/events/fs.rs:131-157 | an event written in full decodes behind its task's earlier ones; one whose message, record or log line could not be written decodes nowhere, and every other task decodes as before |
| FsEvents.FsEventManager.SetupEvents | common/src/events/fs.rs:94-123 | opening a session once brings back what its files hold; opening it again changes nothing |
| FsEvents.FsEventManager.RecordEvent | common/src/events/fs.rs:131-157 | accepted exactly when the session is set up and all three writes succeed; then the owner's earlier events are found and last this one, with its code, its message or the empty one, and its time cut to milliseconds; otherwise nothing is found that was not found before, whichever write failed |
| FsEvents.FsEventManager.FindEvents | common/src/events/fs.rs:159-190 | the events read back through byte offsets are those the files hold for the owner, and reading never fails |
| FsEvents.FsEventManager.RemoveEvents | common/src/events/fs.rs:192-223 | the session's directory and events are gone and other sessions unchanged, or the directory could not be removed and nothing changes |
| EventRuns.SameReplies | common/src/events/fs.rs:94-223 | over a run of calls, writes and removals that fail included, both managers give the same replies exactly when every record is made in full while its session is set up and no session that is set up meets a failing removal |
| EventRuns.RunBoth | common/src/events/memory.rs:54-95 | executed on both managers, every run of calls gives the replies of one reference account of who recorded what since the last removal |
| EventRuns.Reopen | common/src/events/fs.rs:94-123 | after any run, whichever writes and removals failed in it, a new manager over the same files, set up for the session, finds what the first one found |
| Notifier.RunKeeps | session_manager/src/notify.rs:57-104 | in every interleaving each registered channel has a subscription not done dropping, and no channel is registered under a key other than that of its subscriptions |
| Notifier.RegisteredMeansWatched | session_manager/src/notify.rs:57-70 | a registered channel has a live receiver or a drop of one of its own subscriptions has not cleaned up yet |
| Notifier.CleanupRefines | session_manager/src/notify.rs:57-70 | cleaning up after an old subscription changes nothing for any live one, whatever replaced its channel |
| Notifier.RunRefines | session_manager/src/notify.rs:57-104 | in every interleaving the channels implement a plain account in which a subscription hears its key's notifications while live and not removed |
| Notifier.LiveMeansAttached | session_manager/src/notify.rs:79-98 | a live subscription is on the channel that notify uses exactly when its key was not removed since it was made |
| Notifier.QuietRegistry | session_manager/src/notify.rs:57-104 | with no drop under way, exactly the keys with a live, current subscription are registered |
| NotifierRegistry.RegisteredExactly | session_manager/src/notify.rs:57-104 | in every interleaving a key has a channel exactly when the calls say so: subscribed to, not removed since, and not cleaned up while nobody was tuned to it; and the channel has a live receiver exactly when somebody is tuned |
| NotifierRegistry.ReleasedStaysRegistered | session_manager/src/notify.rs:57-70 | for every key, a subscribe and the first half of its drop leave a registered channel without receivers |
| Notifier.HeardIsWindow | session_manager/src/notify.rs:79-104 | a subscription has received exactly the notifications of its key between its subscribe and the first removal of the key or release of its receiver, in order |
| Notifier.Registry.Subscribe | session_manager/src/notify.rs:79-90 | attaches to the registered channel or registers a new one |
| Notifier.Registry.Notify | session_manager/src/notify.rs:92-98 | reaches the live receivers of the registered channel only |
| Notifier.Registry.Remove | session_manager/src/notify.rs:100-104 | unregisters the channel and leaves its receivers |
| Notifier.Registry.Cleanup | session_manager/src/notify.rs:57-70 | unregisters the key's channel only when it has no live receiver |
| Notifier.Replay | session_manager/src/notify.rs:57-104 | any interleaving executed on the registry delivers what the plain account says to each subscription |
| CriSpec.OwnLabelsMatch | cri/src/apis.rs:67-103 | a workload's own labels pass the ownership test of its own executor and of no other |
| CriSpec.LabelsMean | cri/src/apis.rs:67-103 | a workload's labels are exactly these four: managed by the executor manager, its executor id, its application, its uid |
| CriSpec.SelectorMeans | cri/src/manager.rs:624-650 | the selector sent to the runtime picks exactly the sandboxes that the cleanup keeps from the answer |
| CriSpec.ResourcesMean | cri/src/apis.rs:287-307 | limits convert exactly when quota and memory fit 64 bits signed; the quota is 100000 microseconds for each cpu, and the period that many unless there is no cpu limit |
| CriSpec.ConfigMeans | cri/src/apis.rs:212-307 | a container's configuration can be made exactly when its limits convert, and carries its name, its image, its limits and the workload's labels |
| CriSpec.SpecOkMeans | cri/src/apis.rs:150-187 | a valid workload has a name, namespace, uid, executor id, log directory and at least one container, and each container a name, an image, no group without a user, and limits that convert |
| CriSpec.Validate | cri/src/apis.rs:150-187 | accepts a workload exactly when it is complete and every container's configuration can be made |
| CriManager.WorkloadManager.StopWorkload | cri/src/manager.rs:566-596 | stops every container, then the sandbox, in order, one call each, counts exactly the calls that broke and none that found nothing, and reaches nothing outside the filter |
| CriManager.WorkloadManager.Stop | cri/src/manager.rs:553-564 | succeeds exactly when the sandbox is gone and the runtime says so, or it is within the filter and no stop breaks; a sandbox outside the filter sees no call |
| CriManager.WorkloadManager.Delete | cri/src/manager.rs:598-622 | succeeds exactly when the sandbox is gone and the runtime says so, or it is within the filter, no stop breaks and the removal is answered or finds nothing; then the sandbox is gone, stopped before removed; no other sandbox is touched |
| CriManager.WorkloadManager.DeleteCreation | cri/src/manager.rs:624-659 | success means no sandbox with the filter's labels and this uid is left; it succeeds if a clean listing finds none, and if every call is answered and the listing is truthful; apart from what other hands removed, only such sandboxes may have gone |
| CriManager.WorkloadManager.DeleteListed | cri/src/manager.rs:652-656 | a listed sandbox is deleted with the containers that the runtime names, or with none if it does not answer; it makes exactly their stops, the sandbox's stop and its removal, and succeeds exactly when none of these breaks or the sandbox is gone and the runtime says so |
| CriManager.LogTellsReached | cri/src/manager.rs:566-622 | the log that other rows speak of names, for each stop and removal, the labels of the sandbox that the call reached |
| CriManager.WorkloadManager.PullImages | cri/src/manager.rs:325-367 | succeeds exactly when no lookup breaks and every pull after a lookup that found nothing is answered, makes no other call, and then the runtime has the image of every container |
| CriManager.WorkloadManager.StartContainers | cri/src/manager.rs:402-469 | succeeds exactly when every container has a valid configuration and the runtime creates each, answers with a new nonblank id, and starts each, the sandbox being there all along; then the handle holds those ids in the order asked for, each a started container of the sandbox; a failure deletes the sandbox or says the rollback failed, unless some container has no valid configuration |
| CriManager.WorkloadManager.Create | cri/src/manager.rs:321-469 | succeeds exactly when the workload is valid, its images are ready, the runtime makes a sandbox and answers with its id, and every container is created and started; then the images are there and the handle names that sandbox, with the workload's labels, and its started containers in the order asked for; a sandbox call that is not answered fails with its own error; a failure without a failed rollback leaves a new sandbox exactly when the runtime makes one and answers with a blank id, or does not answer and makes it after the cleanup has listed; only sandboxes of this creation appear or go by its hand; stops and removals stay within the filter |
| CriManager.WorkloadManager.RollBack | cri/src/manager.rs:402-469 | reports the error it was called for exactly when deleting the sandbox succeeds, and otherwise that the rollback failed |
| CriManager.AnsweringRuntimeCreates | cri/src/manager.rs:321-469 | against a runtime that answers every call, with new ids, every valid workload is created, in every world |
| CriManager.BlankAnswerLeavesSandbox | cri/src/manager.rs:396-400 | for every valid workload and every world, a blank answer does leave a sandbox |
| CriManager.LateSandboxIsLeft | cri/src/manager.rs:383-389 | for every valid workload of a new uid and every world, a sandbox made after a cleanup that found nothing is left, and no failed rollback is reported |
| Cgroup.Order | executor_manager/src/cgroup.rs:372-380 | the stack loop ends and lists the directories in the order of a recursive walk |
| Cgroup.VisitFirst | executor_manager/src/cgroup.rs:372-380 | no listed directory is or contains an earlier one, so each is listed once and before all below it |
| Cgroup.ChildOf | executor_manager/src/cgroup.rs:376-378 | the sub-directories of a listed directory are listed exactly when it can be read |
| Cgroup.SeenAll | executor_manager/src/cgroup.rs:372-380 | with nothing hidden the walk lists every directory of the tree |
| Cgroup.Turn | executor_manager/src/cgroup.rs:381-384 | when its turn to be removed comes, a directory is there unless other hands removed it, and has sub-directories left exactly when they could not be seen and nobody removed them |
| Cgroup.RemoveDir | executor_manager/src/cgroup.rs:382-392 | succeeds exactly when the directory is not found, or is empty and busy for no more attempts than the deadline allows |
| Cgroup.RemoveTree | executor_manager/src/cgroup.rs:370-395 | every listed directory goes exactly when at its turn each is gone by other hands or hides nothing, and the busy attempts fit the deadline; with nothing hidden the whole tree goes and nothing else; a failure leaves exactly the directories listed first |
| Cgroup.Undisturbed | executor_manager/src/cgroup.rs:370-395 | with no other hands, every directory can go exactly when none hides sub-directories |
| Cgroup.CollectPids | executor_manager/src/cgroup.rs:339-350 | the recursion returns the processes of every directory of its walk, behind those already collected |
| Cgroup.PidsMean | executor_manager/src/cgroup.rs:339-350 | a process is collected exactly when some directory of the walk holds it |
| Cgroup.SameDirectories | executor_manager/src/cgroup.rs:339-350 | the recursive walk and the removal order visit the same directories, each equally often |
| Resources.Parse | common/src/apis/types.rs:507-570 | the loop over entries computes the entry-by-entry reading, later entries winning and any bad entry refusing the whole |
| ResourceText.AllOrNothing | common/src/apis/types.rs:507-570 | a list of entries is accepted exactly when each entry is, alone and whatever was set before |
| ResourceText.SpacedEntry | common/src/apis/types.rs:518-569 | spaces around an entry, a key or a value change nothing: what counts is the key in lower case and the value |
| ResourceText.CaseIgnored | common/src/apis/types.rs:538-569 | keys that differ in the case of letters only are the same key |
| ResourceText.MemoryKeysAlike | common/src/apis/types.rs:553 | `mem` and `memory`, in any case, set the memory alone, to the size given, and are refused exactly when the size is |
| ResourceText.LaterEntryWins | common/src/apis/types.rs:545-569 | a second entry of a key leaves what it alone would have left |
| ResourceText.BadEntryRefused | common/src/apis/types.rs:525-569 | an entry of any other key, without an equals sign or without a value is refused |
| ResourceText.TwoEqualsRefused | common/src/apis/types.rs:531-536 | an entry with two equals signs is refused |
| ResourceText.EmptyRefused | common/src/apis/types.rs:507-513 | a requirement or a size of nothing but spaces is refused |
| ResourceText.SpacesAre | common/src/apis/types.rs:507-541 | the characters that trimming takes off are exactly those Unicode calls white space |
| ResourceText.NumbersInRange | common/src/apis/types.rs:545-560 | a printed number is accepted as cpu exactly when it fits 64 bits, and as gpu exactly when it fits 32 bits signed |
| ResourceText.PlusIgnored | common/src/apis/types.rs:545-560 | a leading plus sign changes no number |
| ResourceText.PlainBytes | common/src/ctx.rs:432-447 | a number without a unit is so many bytes |
| ResourceText.UnitMeansBytes | common/src/ctx.rs:393-447 | a number with any spelling of the first five unit letters, in any case, with or without `i` and `b`, is that many times the matching power of 1024, at most 2^64 - 1 |
| ResourceText.SixthUnit | common/src/ctx.rs:414-447 | with the sixth letter alone, or with `b`, it is a power of 1000, and with `i` a power of 1024 |
| ResourceText.UnitLetters | common/src/ctx.rs:403-418 | the unit letters in order of size are k, m, g, t, p, e, and there is no other |
| ResourceText.BytesMean | common/src/ctx.rs:432-447 | the bytes of a decimal number of units are the greatest whole number not above it, or 2^64 - 1 when it is larger |
| ResourceText.LargestUnit | flmctl/src/utils.rs:66-76 | the printed unit is the largest of B, Ki, Mi, Gi that the size holds once, and the printed number is how often |
| Resources.FractionOf | common/src/ctx.rs:432-447 | a decimal number of units is accepted and is the whole bytes of it |
| Resources.FloorMeans | flmctl/src/utils.rs:66-76 | rounding to the printed unit loses less than one unit, nothing exactly at multiples, and keeps the printed text |
| Resources.ParsedMemory | common/src/ctx.rs:393-447 | a printed memory size is accepted and is the size rounded down to its unit |
| Resources.ParsedI32 | common/src/apis/types.rs:554-560 | a printed signed number reads back for every 32-bit value |
| Resources.ParseOfFormat | flmctl/src/utils.rs:78-95 | every printed requirement is accepted with cpu and gpu as they were and memory rounded down, and prints to the same text again |
| Resources.DashIsRefused | flmctl/src/utils.rs:78-88 | what is printed for no requirement is not accepted as one |

## Left out

- gRPC, TLS, logging, process startup, configuration loading, network endpoints: plumbing without state worth a theorem.
- The real storage engines, device managers, executor states, the scheduler and the controller: only the interfaces the theorems need appear.
- The cache with `storage: none`: eviction then loses objects by design, while the store here never drops one by itself.
- Cancellation of a request between two steps; the cache's whole-store clearing; 64-bit overflow of versions and sizes.
- GetSendsOneVersion: a reader reads a part in one step, while the code may read it in several chunks of bytes that never change.
- OnAdd: sizes are below 2^64, as their type says.
- RunEviction: nothing becomes resident or tracked by other hands while the loop runs.
- PatchObject: calls on the handles come one after another; an object that is not there, or an append that fails, leaves what opening leaves.
- DeleteObjects: the covered keys are a set, so the string test of the filter is not repeated here.
- CycleIsSafe: times are 64-bit, as their types say; a put carries the time it takes when it has passed its checks.
- StaleMeans: times are 64-bit, as their types say; the saturating sum is in the classifier itself.
- ReconcileListings: times are 64-bit, as their types say.
- CountsAddUp: counts are unbounded, so the cast to 32 bits is not modelled.
- FindEvents: a message is the bytes of its text, so the UTF-8 check of what was written as text is not modelled.
- RecordEvent: a write that fails leaves nothing of itself in its file; half a line in the owners log is not modelled.
- RemoveEvents: a removal that fails removes nothing, and no record or removal of one session overlaps another.
- Event `clear`: it unlinks a file that stays open, so its outcome is the file system's.
- HeardIsWindow: receivers are never too slow, so the capacity of a channel and the lag it causes are not modelled.
- The scheduler's wake-up permit and its timing: library behaviour.
- Create: the runtime never denies an existing sandbox and lists labels truthfully and completely or fails; other hands may remove sandboxes before any call, and ids are new.
- Create: a sandbox that is not made by the time the cleanup lists appears when the cleanup is over, if at all; when exactly in between makes no difference to calls that do not know its id.
- Create: environment, mounts, devices and security settings are copied into requests and have no effect on the outcome; an image is its name.
- AnswersExactly: prefix deletes are not among its requests, as several locks are involved; DeleteTakesCovered says what they do.
- RemoveTree: the deadline is the number of failing attempts it allows, and other hands remove directories between turns.
- CollectPids: a directory carries the numbers that its process file yields, so reading and parsing lines is not modelled.
- Parse: unit letters are ASCII letters, and the binary rounding of sizes above 2^53 by the size library is not modelled.
- Formatting of durations, comparison and scaling of requirements, conversion tables, command-line views, the Python SDK: one-branch facts or user interface.
