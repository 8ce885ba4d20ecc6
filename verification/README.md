# Recycle bin for SMB: a verified model

A file-system minifilter turns a delete on a protected share into a rename into a staging folder on the
same volume and sends a notification to a service. The service records the deletion, lands the file in
`$Recycle.Bin`, and puts it back on request. These Dafny modules model that path from the kernel callback to
the restored tree and prove what it keeps.

| file | what it holds |
|---|---|
| `Common.dfy`, `Rows.dfy`, `Numerals.dfy` | option type, case folding and path tails; table queries; positional numerals |
| `DriverQueue.dfy` | the spin-locked block: queue, client port, reservations, "sending" flag |
| `DeleteMachine.dfy` | the delete path as a step machine: any number of delete callbacks, send thread, port connect and disconnect, unload, the persisting service, the orphan sweep |
| `DeleteInvariants.dfy` | the invariant of that machine and the proof that every step keeps it |
| `DeleteTheorems.dfy` | what holds in every reachable state, and runs that reach the limits |
| `DeleteHistory.dfy` | what the events of a run determine: which files go, how requests end, counters, queue order, progress |
| `Wire.dfy` | the notification record over one buffer, its validation and its decoding |
| `ServicePort.dfy` | the service's port handle and stats round-trips over a handle table and a heap that reuse numbers |
| `Paths.dfy` | protected prefixes, allowed destinations, volume mapping |
| `LikePatterns.dfy` | SQL LIKE, its escaping, and what the tree query selects |
| `TreeRestore.dfy` | directory chain, single restore, ordered restore of a tree over a file system that ignores case |
| `TreeRequest.dfy` | a tree restore from its prefix and the table to the file system it leaves |
| `Reconcile.dfy` | landed-row reconciliation: sort, snapshot, binary search |
| `Drain.dfy` | the landing loop of the maintenance pass |
| `Quota.dfy` | per-user quota trimming |
| `LandingNames.dfy`, `StagingNames.dfy` | names of landed and of staged files, and their collisions |
| `StoreCache.dfy` | the driver's fingerprint cache of staging directories |
| `MultiSz.dfy` | the two REG_MULTI_SZ parsers |

In the step machines one step is one lock-held section or one access to something shared, so the unlocked
snapshot of the client port and its locked re-check are different steps. A state is reachable if some finite
run leads to it; nothing bounds the number of callbacks, callers or connections. Steps are split by actor, and
the invariant is stated over the parts of the state each actor touches.

## Where the code and its comments differ

The model follows the code. Where a comment promises more, the condition under which the promise holds is
proved next to a run or an input on which it fails.

- Queue bound (`driver/rbminiflt.h:179`): occupancy is described as QueueDepth + Reserved, but the guard reads
  Reserved alone. `ActualGuardDoesNotBoundTheQueue` reaches any queue length; with the repaired guard the bound
  is invariant (`RepairedGuardBoundsTheQueue`).
- Undelivered notifications (`driver/rbminiflt.c:1207`): the comment says reconciliation re-creates their rows;
  the sweep only deletes files without a row. Nodes drained at disconnect are also missing from NotifyDropped;
  `Conservation` needs a ghost counter for them.
- A delete-on-close open whose name lookup fails, or whose path is long and finds no pool memory, keeps its flag,
  and the file is destroyed even under fail-closed (`LookupFailureDestroys`).
- Protection is decided by the file's present name. Once a file is staged its name is under \RBStore, so a second
  request for it is let through and destroys the staged copy under fail-closed (`SecondRequestDestroys`).
  `GuardedFilesSurvive` says exactly when a guarded file or its copy is destroyed: some request for it was not
  checked, was checked only after a rename had moved it, or failed open. Two callbacks that both pass the test
  rename the file twice, and the first one's row names nothing (`RacingRenameStrandsARow`).
- `NotifySent` counts sends that timed out, since a timeout is a success code; `Conservation` gives the difference
  and `TimeoutsCountAsSent` makes it any number.
- Orphan sweep (`service_c/rbconcile.c:68-147`): age is taken from the last-write time, which a rename does not
  refresh; the row is looked up before the age is computed; files inside a staged directory have no row of their
  own; and the file system finds the staging area by whatever StoreRoot resolves to, while the row is found only if
  the NT form of StoreRoot as it was typed, followed by the names found, is the driver's path letter for letter. A
  forward slash, a doubled or trailing backslash, a dot component, another case, a link or a remapped drive will
  do. Each of these loses data with a row, and `SweepSafety` says that together they are all there is.
- Tree restore (`service_c/rbrestore.c:588`): the query is a plain string prefix, so siblings that share the
  name's beginning come along (`TreeQuerySelects`, `SiblingIsSelected`). A path deleted twice has two rows, and then
  the tree cannot come back whole (`RequestSucceedsIff`).
- `EnsureDirectoryChain` counts "already exists" as success whatever exists, so its last component may be a file
  (`ChainSuccess`).
- `VolNtToDos` has no boundary check after the device name (`UnmappedVolumeIsConfused`); the volume it picks has
  the path on it exactly when some mapped volume has (`MappedToItsOwnVolume`).
- The stats sampler is described as never blocking the port thread; it is called on that thread and waits up to
  the read timeout. The two failure exits after DuplicateHandle leave the duplicate open (`OnlyFailedStartsLeak`).
- The landing loop fetches the same oldest rows again when a whole batch cannot land, and then never ends
  (`DrainTerminates`), so retention, quota and the sweep behind it never run; `EventuallyLands` says exactly which rows still
  land. A landing whose status update fails counts as landed and leaves a row nobody can land.
- The final pass at shutdown is said to land what is left; the stop event is already set, so it lands nothing and
  does not reach the pending restore commands either (`ShutdownPassLandsNothing`).
- The landing token is called unique; it is the clock plus the row id, so a row landed out of id order can replace an
  earlier file (`SameTarget`, `OutOfOrderOverwrites`).
- The quota query's window is the 4096 oldest landed rows of all users (`PassMeetsQuota`,
  `PassMeetsQuotaFromTheStart`), and a row without a SID is purged on
  anybody's behalf (`RowWithoutSidIsPurgedForAStranger`).
- Two staging areas whose fingerprints collide can keep invalidating each other (`FailsOnceIffInjective`); two
  ordinary SIDs on one volume do (`TwoUsersCollide`).
- `RegReadMultiSz` walks past a value that lacks its end mark (`ServiceAgrees`); the driver's walk does not.

## Model

| member | source | states |
|---|---|---|
| DriverQueue.GlobalBlock.ReserveQueueSlot | driver/rbminiflt.c:888-901 | taking a slot changes Reserved alone, and only below the limit |
| DriverQueue.GlobalBlock.ReleaseQueueSlot | driver/rbminiflt.c:904-911 | giving a slot back never takes Reserved below zero |
| DriverQueue.GlobalBlock.InsertNode | driver/rbminiflt.c:982-999 | the locked re-check: a node enters the tail and consumes a slot only while its port is still the client port; otherwise nothing changes |
| DriverQueue.GlobalBlock.DequeueForSend | driver/rbminiflt.c:1025-1038 | the head leaves and the sending flag goes up in one locked step |
| DriverQueue.GlobalBlock.DisconnectPoll | driver/rbminiflt.c:1222-1246 | while a send runs nothing changes; otherwise the port is cleared and the whole queue drained, in order |
| DriverQueue.GlobalBlock.FlushQueue | driver/rbminiflt.c:1069-1086 | unload takes every node out in queue order and nothing else |
| DeleteInvariants.StepKeeps | driver/rbminiflt.c:888-1258 | every step of every actor keeps the invariant |
| DeleteInvariants.RunKeeps | driver/rbminiflt.c:888-1258 | so does every finite run |
| DeleteTheorems.PortLifetime | driver/rbminiflt.c:970-1060 | in every reachable state queued nodes carry the current client port, no port means an empty queue, and a send is only in progress on a port whose disconnect has not returned |
| DeleteTheorems.BlocksOwned | driver/rbminiflt.c:928-1086 | each notification and node has exactly one owner while allocated, and is freed exactly once |
| DeleteTheorems.NothingLeaks | driver/rbminiflt.c:1141-1258 | once callbacks have returned and the connection is gone, no block is left |
| DeleteTheorems.NoLostWakeup | driver/rbminiflt.c:1001-1030 | a sleeping send thread with a non-empty queue always has a wake-up coming |
| DeleteTheorems.ReservationDiscipline | driver/rbminiflt.c:888-1004 | Reserved is the number of callbacks holding a slot, at most the limit; the guards against underflow never act; QueueDepth is the queue's length |
| DeleteTheorems.Conservation | driver/rbminiflt.c:944-1063 | every staged file's notification is sent, dropped, queued, in flight, still with its callback, or drained; under fail-closed every intercept ends staged or denied; NotifySent is the deliveries plus the timeouts |
| DeleteTheorems.TimeoutsCountAsSent | driver/rbminiflt.c:1040-1055 | a run in which NotifySent is any number and nothing was delivered |
| DeleteTheorems.DataSafety | driver/rbminiflt.c:1311-1575 | success means exactly that the request staged its file; under fail-closed a request for a guarded file is let through only unchecked, after another callback had moved the file, or because its own open failed |
| DeleteTheorems.GuardedFilesSurvive | driver/rbminiflt.c:1440-1467 | a guarded file or its staged copy is destroyed exactly when some request for it slipped through unchecked, after the move, or by failing open, the last never under fail-closed |
| DeleteHistory.DestroyedIffLetThrough | driver/rbminiflt.c:1440-1467 | in any run and for every file, guarded or not: destroyed exactly when some event left a delete of it to the file system, because it is not guarded, or unchecked, or after a rename of the file or of a directory around it, or failing open |
| DeleteHistory.UnguardedGoesWhenForwarded | driver/rbminiflt.c:1452-1467 | a file that is not guarded is destroyed exactly when a delete of it was forwarded, or its lookup failed under fail-open |
| DeleteHistory.GuardedInStaging | driver/rbminiflt.c:1440-1470 | no request for a file that is not guarded is ever intercepted |
| DeleteHistory.FateIs | driver/rbminiflt.c:1311-1330 | a request is denied, reported successful or left to the file system exactly when an event of its own callback did that |
| DeleteHistory.UnguardedIsDeniedIff | driver/rbminiflt.c:1440-1467 | a request for a file that is not guarded is denied exactly when its path could not be looked up, under fail-closed |
| DeleteHistory.CountersCount | driver/rbminiflt.c:1466-1575 | Intercepts, RenameOk, RenameFail, QueueFull and DeleteDenied are the numbers of such events in the run, but for what is about to be counted; QueueFull rises at 512 slots |
| DeleteHistory.DenialsAreCounted | driver/rbminiflt.c:1311-1330 | DeleteDenied is the number of denied requests |
| DeleteHistory.FirstInFirstOut | driver/rbminiflt.c:982-1038 | what has left the queue, for the send thread, at disconnect or at unload, and then what is in it, is what entered it, in order |
| DeleteHistory.FlushEmptiesTheQueue | driver/rbminiflt.c:1069-1086 | when unload's flush is done, everything that ever entered the queue has left it |
| DeleteHistory.HighWaterMark | driver/rbminiflt.c:990-997 | MaxQueueDepth is the greatest length the queue has had in the run |
| DeleteHistory.CallbacksAdvance | driver/rbminiflt.c:1433-1575 | a callback returns after at most fourteen of its own steps |
| DeleteHistory.CallbacksNeverWait | driver/rbminiflt.c:1433-1575 | and always has one it can take |
| DeleteHistory.SenderWaitsForItsEvent | driver/rbminiflt.c:1009-1060 | the send thread waits for nothing but its event |
| DeleteHistory.PortNeverStuck | driver/rbminiflt.c:1222-1258 | a disconnect gets past its wait exactly when no send is under way, and then to its end |
| DeleteHistory.UnloadEndsTheSender | driver/rbminiflt.c:1141-1170 | unload's join cannot hang: the send thread can go on until it exits, and the flush begins only then |
| DeleteHistory.LateCallbacksQueueNothing | driver/rbminiflt.c:944-1000 | a callback that reads the queue as inactive never gets a node into it |
| DeleteHistory.SenderStopsBetweenRounds | driver/rbminiflt.c:1013-1018 | a send thread between two rounds when unload begins sends nothing more |
| DeleteHistory.RowsWereDelivered | service_c/rbport.c:130-140 | every row was handed to the service and every landed file has a row |
| DeleteHistory.TableFollowsEvents | service_c/rbport.c:130-140 | a row exists exactly when it was persisted, and what the service failed to persist is lost |
| DeleteTheorems.SecondRequestDestroys | driver/rbminiflt.c:1451-1456 | the run in which a second request destroys the staged copy |
| DeleteTheorems.RacingRenameStrandsARow | driver/rbminiflt.c:1485-1516 | the run in which two callbacks rename one file and the first row is left without it |
| DeleteTheorems.LookupFailureDestroys | driver/rbminiflt.c:1629-1634 | the run in which the delete-on-close flag stays and no counter moves |
| DeleteTheorems.EveryStagedFileCovered | driver/rbminiflt.c:1510-1556 | every staged file's notification is in exactly one place: callback, queue, send thread, service, row, or lost |
| DeleteTheorems.EveryCopyAccountedFor | driver/rbminiflt.c:1510-1556 | every copy a rename made is staged, landed, reclaimed, or taken by another request for the same file, and only one of these |
| DeleteTheorems.RepairedGuardBoundsTheQueue | driver/rbminiflt.h:179-184 | with QueueDepth + Reserved in the guard, occupancy stays within the limit |
| DeleteTheorems.ActualGuardDoesNotBoundTheQueue | driver/rbminiflt.c:893-898 | with the guard as written any number of deletes can be queued |
| DeleteTheorems.SweepSafeWhenTimely | service_c/rbconcile.c:68-105 | under the condition of SweepSafety the sweep deletes, alone or inside a directory, only what has lost its notification |
| DeleteTheorems.SweepUnsafeWhenOld | service_c/rbconcile.c:84-94 | what was last written long ago, itself or inside a staged directory, is reclaimed while its notification is still queued |
| DeleteTheorems.SweepUnsafeForOldFiles | service_c/rbconcile.c:68-105 | so is an old file |
| DeleteTheorems.SweepUnsafeWhenLate | service_c/rbconcile.c:68-105 | a row written between the lookup and the delete does not save its file |
| DeleteTheorems.SweepUnsafeWhenMissed | service_c/rbconcile.c:76-86 | a row the lookup misses protects nothing, however promptly it was written |
| DeleteTheorems.InnerFileIsNeverKnown | service_c/rbconcile.c:138-147 | under a StoreRoot that matches, a file inside a staged directory is never found in the table, and a run deletes it although the directory has its row |
| DeleteTheorems.SweepUnsafeForInner | service_c/rbconcile.c:138-147 | wherever the sweep gets inside a staged directory it can rob one |
| DeleteTheorems.MatchesMeans | service_c/rbdb.c:791-816 | a row is found exactly when StoreRoot's NT form, followed by the names the sweep found, is the staging path letter for letter |
| DeleteTheorems.DbFilesArePassedOver | service_c/rbconcile.c:59-66 | the sweep passes over the database and its three companions, in any case, and nothing else |
| DeleteTheorems.DoubledBackslashIsUnsafe | service_c/rbconcile.c:121-137 | a StoreRoot that makes a doubled backslash loses whatever the sweep examines, rows or not |
| DeleteTheorems.TrailingBackslashDoubles | service_c/rbconcile.c:121-137 | a trailing backslash in StoreRoot doubles the one WalkDir adds |
| DeleteTheorems.OtherSpellingIsUnsafe | service_c/rbdb.c:791-816 | so does one whose NT form is not a literal prefix of the staging path, by whatever name the file system finds the file |
| DeleteTheorems.UsualSetupIsSafe | service_c/rbconcile.c:156-175 | a flat staging area found under the text of its own paths, with timely notifications, is safe |
| DeleteTheorems.SweepSafety | service_c/rbconcile.c:68-152 | the exact condition, whatever names the file system lists the staged files by: for every path a delete can be staged under and every name the sweep examines it by, the looked-up text is the row's, write times are fresh and delays within the grace period; and no staged directory it gets into has files |
| Wire.ClampedSizesFit | driver/rbminiflt.c:804-819 | the clamped record never exceeds the maximum, so the overflow branch is dead |
| Wire.AllocNotify | driver/rbminiflt.c:792-836 | a fresh buffer that is a well-formed, empty record with the clamped areas |
| Wire.SetString | driver/rbminiflt.c:764-862 | a setter rewrites its own payload and length word, inside the bounds it reads from the header |
| Wire.SetRepresents | driver/rbminiflt.c:838-862 | after any setter the record is well formed: its payload replaced, the other two kept |
| Wire.AnyOrderWorks | driver/rbminiflt.c:838-862 | in any order and number of calls each field ends with its last string |
| Wire.RecordAccepted | driver/rbminiflt.c:936-942 | every well-formed record passes both checks, with or without a reported size |
| Wire.ReadsWithin | service_c/rbdb.c:904-907 | reading a string stays in the buffer exactly when a NUL follows there |
| Wire.PortAcceptsOnly | service_c/rbport.c:120-128 | the service takes a message exactly when 48 bytes or more arrived, they begin with the mark, and the size in them is at least 48 and no more than arrived |
| Wire.QueueAcceptsOnly | driver/rbminiflt.c:934-942 | the driver queues a record exactly when it has the mark and a size from 48 to 4656 |
| Wire.UpToNulIs | service_c/rbdb.c:904-907 | a string is read up to its first NUL |
| Wire.RecordDecodes | service_c/rbf_protocol.h:71-75 | and decodes to its payloads whatever follows it in the receive buffer |
| Wire.StringArrives | driver/rbminiflt.c:1523-1531 | a string sized by its own length arrives cut to its limit less one unit |
| Wire.RoundTrip | driver/rbminiflt.c:1523-1545 | from three strings through the buffer to what the service reads |
| Wire.RoundTripAccepted | service_c/rbport.c:116-128 | and no record built that way is rejected on the way |
| Wire.PathArrivesIntact | driver/rbminiflt.c:804-819 | a path survives exactly when it has fewer than RBF_MAX_PATH units and no NUL |
| Wire.SidArrives | service_c/rbdb.c:898-908 | the stored SID is the driver's without its leading backslash |
| Wire.UnmarkedSidArrives | service_c/rbdb.c:897-901 | a SID without the backslash is stored whole |
| ServicePort.StepKeeps | service_c/rbport.c:83-443 | every step of caller, worker and port thread keeps ownership of flag, lock, context and handles |
| ServicePort.NothingUsedAfterItsEnd | service_c/rbport.c:294-442 | no run uses a freed context or a handle number that names nothing |
| ServicePort.ContextOutlivesItsHolders | service_c/rbport.c:294-334 | whoever still works on a context works on its own call's, and the count is the number of holders |
| ServicePort.FreedExactlyOnce | service_c/rbport.c:294-301 | a context is freed at most once, and has been exactly when both sides have let go |
| ServicePort.DoneOutlivesItsHolders | service_c/rbport.c:402-442 | the event exists while anyone may wait on or set it; the reply is read only after it was written |
| ServicePort.OneSender | service_c/rbport.c:353-356 | at most one worker is inside FilterSendMessage |
| ServicePort.EveryStepIsProgress | service_c/rbport.c:303-444 | a caller returns after at most sixteen of its own steps and a worker exits after seven |
| ServicePort.CallerCanGoOn | service_c/rbport.c:344-444 | a caller can always go on, if only by giving up, unless it waits for the lock |
| ServicePort.WorkerCanGoOn | service_c/rbport.c:303-334 | a worker always can |
| ServicePort.LockHolderCanGoOn | service_c/rbport.c:358-403 | and so can whoever holds the lock |
| ServicePort.WaitEndsIff | service_c/rbport.c:426-437 | the wait ends without a timeout exactly when the worker has signalled, and then the reply is read |
| ServicePort.RoundTripCompletes | service_c/rbport.c:303-444 | a run in which the reply is read and nothing is left but the connection |
| ServicePort.FlagHasAHolder | service_c/rbport.c:353-420 | the in-flight flag is never left set by nobody |
| ServicePort.WorkerClosesItsOwn | service_c/rbport.c:303-334 | whatever numbers the table hands out, the worker closes its own duplicate, never what g_Port names |
| ServicePort.OnlyThePortThreadCloses | service_c/rbport.c:78-106 | g_Port always names a live connection, and only the port thread changes or closes it |
| ServicePort.OnlyFailedStartsLeak | service_c/rbport.c:402-420 | when all is over the heap is empty and the handles left are exactly the duplicates of failed starts |
| ServicePort.RawHandleClosesLiveConnection | service_c/rbport.c:315-330 | the earlier form, with the raw handle value, loses a fresh connection to number reuse |
| Paths.BoundaryIsComponents | driver/rbminiflt.c:258-270 | "prefix, then end or backslash" is component-wise prefix |
| Common.UpIsUpperCase | driver/rbminiflt.c:260-260 | each small letter goes to its capital and every other character stays |
| Common.FoldsAgree | driver/rbminiflt.c:255-270 | folded texts agree exactly when the texts do but for the case of letters |
| Common.PathSplits | service_c/rbconcile.c:394-395 | a path is its parent, a backslash and a base without one |
| Paths.IsProtected | driver/rbminiflt.c:238-276 | protected means: some configured prefix's components start the path's; a long path without pool memory is not |
| Paths.CoveredInAnyCase | driver/rbminiflt.c:255-272 | spelling a path in another case does not change whether it is protected |
| Paths.RejectsDots | service_c/rbrestore.c:118-133 | the scan finds exactly the components ending in two dots |
| Paths.DestIsAllowed | service_c/rbrestore.c:102-157 | accepts exactly the drive-absolute paths without such a component under a configured share |
| Paths.OnlyDrivesAreAllowed | service_c/rbrestore.c:102-116 | device, network and relative paths are refused, whatever the shares |
| Paths.AllowedInAnyCase | service_c/rbrestore.c:140-150 | nor whether a destination is allowed |
| Paths.VolDosToNt | service_c/rbvol.c:79-101 | the first volume with the drive letter, or none |
| Paths.DriveIndexIs | service_c/rbvol.c:79-101 | no earlier volume has the letter, and without any there is no NT form |
| Paths.VolNtToDos | service_c/rbvol.c:104-146 | the longest matching device, the first of that length, and one backslash after the drive |
| Paths.BestIsUnique | service_c/rbvol.c:112-128 | that choice is determined |
| Paths.BestOnBoundary | service_c/rbvol.c:110-128 | a path that continues a mapped device at a backslash belongs to that device |
| Paths.VolumeRoundTrip | service_c/rbvol.c:79-146 | to NT form and back is the identity exactly on canonical paths |
| Paths.MappedToItsOwnVolume | service_c/rbvol.c:104-146 | the chosen volume has the path on it exactly when some mapped volume has |
| Paths.UnmappedVolumeIsConfused | service_c/rbvol.c:118-125 | a path on an unmapped volume is given another volume's drive |
| Paths.InterceptedIsRestorable | driver/rbminiflt.c:238-276 | a path the driver protects maps to a destination the service accepts, exactly when no component ends in two dots |
| LikePatterns.PrefixQueryIsExact | service_c/rbdb.c:672-729 | the escaped prefix query selects exactly the strings that begin with the text, but for the case of letters |
| LikePatterns.SearchQueryIsExact | service_go/db/db.go:378-411 | the escaped search selects exactly the strings containing the text, but for the case of letters |
| LikePatterns.PrefixPattern | service_c/rbdb.c:672-729 | escaped text, wildcard and terminator always fit 2n + 2 units |
| LikePatterns.EscapeForSearch | service_go/db/db.go:378-390 | the Go escaper produces the same text |
| LikePatterns.TreeQuerySelects | service_c/rbdb.c:700-733 | tree restore selects the entries under the prefix and, beyond them, exactly the siblings whose name extends its last component |
| LikePatterns.SiblingIsSelected | service_c/rbrestore.c:588-589 | such a sibling always exists to be selected |
| TreeRestore.Restorer.EnsureDirectoryChain | service_c/rbrestore.c:35-75 | trailing backslashes trimmed, levels created from the drive down, stopping at the first failure |
| TreeRestore.TrimsExactly | service_c/rbrestore.c:42-50 | the chain works on the directory without the backslashes at its end, but for a drive's |
| TreeRestore.StrangeDirMakesNothing | service_c/rbrestore.c:35-42 | a directory that is not on a drive, or does not fit the buffer, is not made |
| TreeRestore.Restorer.RestoreItem | service_c/rbrestore.c:393-566 | each refusal in order, and otherwise parents, move and status |
| TreeRestore.RestoredIff | service_c/rbrestore.c:404-520 | a restore succeeds exactly when the row is live, its copy stored, its destination known and allowed, the target absent, and parent and target can be made |
| TreeRestore.RestoredExactly | service_c/rbrestore.c:404-520 | in a well-formed file system: exactly when, besides, only directories stand above the target and nothing missing there is refused |
| TreeRestore.RefusedBecause | service_c/rbrestore.c:404-460 | each refusal has one cause, and the first in the source's order decides |
| TreeRestore.RefusalsTouchNothing | service_c/rbrestore.c:446-460 | a destination that is not allowed, and every other refusal before the move, changes nothing |
| TreeRestore.ParentMadeIff | service_c/rbrestore.c:35-75 | the parent can be made exactly when only directories stand above the target and no missing one is refused |
| TreeRestore.RestoresAddOnly | service_c/rbrestore.c:446-520 | whatever the rows say, every new path is the target of an allowed restore that succeeded or lies above an allowed target |
| TreeRestore.Restorer.RestoreTree | service_c/rbrestore.c:660-687 | one restore after another until the stop event; the counters are the successes and the failures |
| TreeRestore.ChainSuccess | service_c/rbrestore.c:35-75 | success means the path exists and every proper ancestor is a directory |
| TreeRestore.ChainSucceedsIff | service_c/rbrestore.c:35-75 | it succeeds exactly when the path is there, as a directory or a file, or can be made |
| TreeRestore.RestoreClobbersNothing | service_c/rbrestore.c:440-520 | no restore changes an existing entry or another row's copy |
| TreeRestore.OrderSurvivesMapping | service_c/rbdb.c:700-706 | ascending NT paths stay ascending as DOS paths |
| TreeRestore.NextIsAbsent | service_c/rbrestore.c:660-687 | when an entry's turn comes its target is still absent, in any case |
| TreeRestore.SortedIsTopDown | service_c/rbdb.c:700-706 | what the query's order gives: sorted paths that spell shared directories alike come top down exactly when no two are the same but for case |
| TreeRestore.TreeComesBack | service_c/rbrestore.c:606-710 | every restore of a plantable tree succeeds |
| TreeRestore.TreeComesBackIff | service_c/rbrestore.c:606-710 | a tree whose targets are free and below directories comes back whole exactly when no entry comes twice or after one below it, in whatever case |
| TreeRestore.TreeExactly | service_c/rbrestore.c:606-710 | and the file system ends as it was plus exactly the entries, with their contents, and the directories above them, keyed without regard to case |
| TreeRequest.RestoreTreeByPrefix | service_c/rbrestore.c:606-710 | refusals change nothing; otherwise the listed rows, resolved and in the query's order, are restored up to the stop, and success means some row and no failure |
| TreeRequest.RefusedIff | service_c/rbrestore.c:616-645 | with a mapped drive a request goes ahead exactly when its prefix is allowed and at most 512 units in NT form |
| TreeRequest.UnmappedIsRefused | service_c/rbrestore.c:632-638 | with any other drive it is refused |
| TreeRequest.ListByOrigPathPrefix | service_c/rbdb.c:698-780 | the query lists the first 5000 live rows that match the escaped prefix |
| TreeRequest.ListedIsChosen | service_c/rbdb.c:700-733 | these are, in order, exactly the live rows under the prefix or beside it under a longer name, with fewer than the cap before them |
| TreeRequest.ResolvesTo | service_c/rbvol.c:104-146 | a path the driver recorded goes back to its own drive, letter for letter after the device |
| TreeRequest.OrderOnDrives | service_c/rbdb.c:700-706 | rows in the query's order are in order on each drive |
| TreeRequest.RequestSucceedsIff | service_c/rbrestore.c:606-710 | every chosen row is restored exactly when no two of them go back to the same path, in whatever case |
| TreeRequest.RequestBringsBack | service_c/rbrestore.c:606-710 | and then the file system is what it was, the chosen rows' paths, and the directories missing above them, and the store has lost the chosen copies alone |
| TreeRequest.RequestContents | service_c/rbrestore.c:606-710 | with each chosen row's copy at its own path |
| Rows.Fetch | service_c/rbdb.c:611-660 | the fetch loop returns the first rows that satisfy the query, in order |
| Reconcile.CompareItemsIsPreorder | service_c/rbconcile.c:325-341 | the comparator is a total preorder, and rows it calls equal share their directory |
| Reconcile.SortSorts | service_c/rbconcile.c:365-365 | sorting by such a comparator puts equal rows next to each other |
| Reconcile.SnapshotDir | service_c/rbconcile.c:254-296 | a sorted snapshot of the directory's entries, or none if it cannot be read |
| Reconcile.NameArrayContains | service_c/rbconcile.c:298-308 | binary search finds a name exactly when it is there, case aside |
| Reconcile.Service.Judge | service_c/rbconcile.c:392-445 | the loop body gives a row the verdict of looking its file up alone |
| Reconcile.VerdictMeans | service_c/rbconcile.c:392-445 | the verdict, in terms of what is listed in the folder and what is at the original path |
| Reconcile.Service.ReconcileLanded | service_c/rbconcile.c:343-455 | afterwards a row whose readable folder does not list its name is restored if its original path is there and purged if not, every other row is as before, and the counters count exactly these rows; each distinct directory is enumerated, once when every path names its directory in full |
| Reconcile.TallyIsComplete | service_c/rbconcile.c:228-233 | the four counters add up to the number of rows |
| Reconcile.IncreasingIsDistinct | service_c/rbconcile.c:377-389 | directories enumerated in increasing order are enumerated once |
| Drain.Items.Drain | service_c/rbservice.c:87-107 | the landing loop, stop check included, does what the specification's rounds do |
| Drain.DrainEnds | service_c/rbservice.c:87-107 | with fewer unlandable rows than a batch the loop ends by itself, every row attempted |
| Drain.SettledLeavesTheStuck | service_c/rbstore.c:145-236 | and exactly the unlandable rows stay staged |
| Drain.LandsOnlyWhatMoved | service_c/rbstore.c:145-236 | however long the pass runs, a row is landed only with its file moved and recorded, and a moved file's row stays staged exactly when the update failed |
| Drain.DrainNeverEnds | service_c/rbservice.c:91-106 | with a batch of unlandable rows no amount of time is enough |
| Drain.DrainTerminates | service_c/rbservice.c:87-107 | the exact condition for termination |
| Drain.SettingDecides | service_c/rbservice.c:87-91 | the same for the setting: from 1 to 2^31 - 1 it is the batch size, otherwise 500 is |
| Drain.EventuallyLands | service_c/rbservice.c:91-106 | a staged row can land exactly when it is landable and fewer than a batch of unlandable rows are older |
| Drain.ShutdownPassLandsNothing | service_c/rbservice.c:256-284 | a pass that starts with the stop event set lands nothing |
| Quota.Items.TrimGroup | service_c/rbpolicy.c:41-58 | the loop for one SID purges exactly the rows the specification dooms, and returns how many |
| Quota.Items.EnforceQuota | service_c/rbpolicy.c:24-63 | the whole pass, one SID over its quota of 1048576-byte megabytes after another; it returns how many rows it purged |
| Quota.DoomedCover | service_c/rbpolicy.c:47-56 | the purged rows cover the excess or are the whole window |
| Quota.DoomedAreNeeded | service_c/rbpolicy.c:47-56 | the rows purged before a purged row do not cover the excess, and none of the SID's older rows in the window is spared |
| Quota.MarkedSidIsEqual | service_c/rbpolicy.c:48-51 | a SID is the same with and without a backslash before it, in any case |
| Quota.TrimTakes | service_c/rbpolicy.c:47-56 | a trim takes exactly the purged sizes off its SID's total |
| Quota.TrimSparesOthers | service_c/rbpolicy.c:48-51 | and leaves every other SID's total alone |
| Quota.TrimMeetsQuota | service_c/rbpolicy.c:41-58 | a SID ends within its quota exactly when its rows in the window cover its excess |
| Quota.TotalChangesOnce | service_c/rbpolicy.c:36-59 | over the pass a SID's total changes only in its own turn |
| Quota.PassMeetsQuota | service_c/rbpolicy.c:24-63 | the same condition for every SID after the whole pass |
| Quota.PassMeetsQuotaFromTheStart | service_c/rbpolicy.c:24-63 | on the rows before the pass: enough in the first window suffices, and enough in k more windows is needed after k other turns |
| Quota.SmallTableMeetsQuota | service_c/rbpolicy.c:18-63 | with no more landed rows than the window everybody ends within the quota |
| Quota.RowWithoutSidIsPurgedForAStranger | service_c/rbpolicy.c:48-51 | a row without a SID is purged for somebody else, who stays over |
| Numerals.ReadsBack | service_c/rbstore.c:37-50 | a reader of digits inverts the printer |
| Numerals.DigitsAre | service_c/rbstore.c:37-50 | the digits are 0 to 9 and then A to Z |
| Numerals.NumeralLength | service_c/rbstore.c:37-50 | a number below the n-th power of the base has at most n digits |
| Numerals.LowDigitsFirst | driver/rbminiflt.c:718-727 | the digit loop leaves the numeral reversed in its buffer |
| LandingNames.Token | service_c/rbstore.c:37-50 | for every 64-bit value the printed token is its base-36 numeral; with room for 13 digits nothing is cut |
| LandingNames.TargetIs | service_c/rbstore.c:187-206 | the landed name is $R, the token for clock plus id, and the staged name from its last dot on, or nothing |
| LandingNames.SameTarget | service_c/rbstore.c:187-213 | two landings share a name exactly when folder, extension and clock plus id agree |
| LandingNames.NothingOverwritten | service_c/rbstore.c:208-213 | no landing replaces another's file exactly when no two clash |
| LandingNames.InOrderNoClash | service_c/rbstore.c:187-196 | ids in increasing order under a clock that does not go back give increasing tokens |
| LandingNames.InOrderAllThere | service_c/rbstore.c:187-213 | so every landed file is still there |
| LandingNames.OutOfOrderOverwrites | service_c/rbstore.c:187-213 | out of order, the next id's file is replaced a millisecond later |
| StagingNames.BuildStorePath | driver/rbminiflt.c:669-748 | success is exactly volume, \RBStore, SID, sequence number and the source's base name within 1024 units, and each failure has its cause |
| StagingNames.BaseIs | driver/rbminiflt.c:696-706 | the base name is the source's text after its last backslash, or after the volume if the source ends in one |
| StagingNames.VolumeIs | driver/rbminiflt.c:683-694 | a source is on a volume exactly when it has four components, and the volume is the first three |
| StagingNames.ParsesBack | driver/rbminiflt.c:655-748 | all four parts can be read back from the name, the base as the source's text after its last backslash |
| StagingNames.NamesDiffer | driver/rbminiflt.c:714-744 | equal names come from equal parts, so names with different numbers differ |
| StagingNames.StaysOnVolume | driver/rbminiflt.c:687-735 | the staged file stays on its volume |
| StagingNames.LiesInSidFolder | driver/rbminiflt.c:701-744 | unless the source ends in a backslash it lies directly in its SID's folder |
| StagingNames.LeftoversBoundDenials | driver/rbminiflt.c:407-435 | collisions deny at most as many deletes as there are names left from earlier loads |
| StagingNames.DeniedAreCollisions | driver/rbminiflt.c:407-435 | the denied attempts are exactly those whose name is a leftover that nothing has removed |
| StoreCache.RememberedHolds | driver/rbminiflt.c:578-604 | remembering puts the fingerprint in, brings no other, and touches one slot |
| StoreCache.ForgottenDrops | driver/rbminiflt.c:607-614 | forgetting removes that fingerprint and only that one |
| StoreCache.ForgetsInTurn | driver/rbminiflt.c:578-604 | a full cache forgets in turn: a fingerprint survives the next fifteen new ones |
| StoreCache.RunForgetsInTurn | driver/rbminiflt.c:578-654 | so does a run of deletes for up to sixteen new areas |
| StoreCache.Driver.Lookup | driver/rbminiflt.c:567-576 | a hit means the fingerprint is in some slot |
| StoreCache.Driver.StageDelete | driver/rbminiflt.c:1493-1575 | ensure, rename, forget on failure |
| StoreCache.FingerprintIgnoresCase | driver/rbminiflt.c:538-565 | names that differ in case share a fingerprint |
| StoreCache.OneRetryIsEnough | driver/rbminiflt.c:1565-1575 | after a failure the cache caused, the retry gets the answer of a driver without a cache |
| StoreCache.StagedIsThere | driver/rbminiflt.c:1493-1575 | a file is staged only into an area that is there or made now |
| StoreCache.SlotsComeFromCreation | driver/rbminiflt.c:616-654 | in every run, slots hold what they held at first and fingerprints whose directories the run created |
| StoreCache.EveryPrintWasCreated | driver/rbminiflt.c:616-654 | from an empty cache, only the latter |
| StoreCache.AtMostOneFailure | driver/rbminiflt.c:1565-1575 | from any state, an area with its own fingerprint suffers at most one failed delete, and one more each time its directories vanish |
| StoreCache.SharedPrintStarves | driver/rbminiflt.c:538-565 | two areas that share one can make every other delete fail for ever although nothing vanishes |
| StoreCache.FailsOnceIffInjective | driver/rbminiflt.c:534-653 | the exact condition: no two areas share a fingerprint |
| StoreCache.TwoUsersCollide | driver/rbminiflt.c:538-565 | two user SIDs on one volume that do share one |
| StoreCache.TwoUsersStarve | driver/rbminiflt.c:538-575 | and the endless failures of the first of them |
| MultiSz.LoadList | driver/rbminiflt.c:117-144 | for arbitrary bytes the slots hold exactly the first strings that fit, upper-cased; every read is inside the data |
| MultiSz.ChosenAre | driver/rbminiflt.c:117-144 | a string that fits is loaded exactly when fewer than the cap come before it, into the place after them; a longer one is skipped |
| MultiSz.ChosenCount | driver/rbminiflt.c:117-144 | so many are loaded as fit, up to the cap |
| MultiSz.UpUnitIsUp | driver/rbminiflt.c:139-139 | a unit's upper case is its character's |
| MultiSz.DecodesJoined | driver/rbminiflt.c:117-144 | an encoded list decodes to itself |
| MultiSz.DecodesUnterminated | driver/rbminiflt.c:117-144 | even when the final NULs are missing |
| MultiSz.LoadsWhatWasEncoded | driver/rbminiflt.c:117-183 | within cap and limit an encoded list is loaded whole |
| MultiSz.ReadList | service_c/rbconfig.c:62-80 | the service's two passes return the list its walk defines |
| MultiSz.ServiceAgrees | service_c/rbconfig.c:62-80 | the service reads the same list as the driver, and stays inside the data exactly when the end mark is there |

## Left out

- Integer widths: counters, queue depth, ids and sizes are unbounded integers; only the fingerprint and the 32-bit round-robin index wrap. The sequence number is assumed not to reach 2^64 in one load.
- DeleteMachine: RbfIsExcluded's wildcard match is membership in the set of guarded files, for the name a file has until it is staged; the malformed-record branch of RbfQueueNotify is absent because Wire shows that no record built by the setters takes it.
- DeleteMachine: unload does not model instance teardown, and NothingLeaks relies on the connection having been closed.
- DeleteMachine: a delete that is let through takes effect at once, not when the last handle closes; a file that is restored counts as another file afterwards.
- DeleteMachine: the file system's name resolution is an arbitrary function from staged files to the names it lists them by, the same throughout a run; what the sweep does to files outside staging when StoreRoot names a directory that holds others is not modelled.
- DeleteMachine: staged and recycled files are taken to lie outside every protected prefix; a share prefix that is a whole drive, such as "D:", also covers \RBStore and $Recycle.Bin.
- DeleteMachine: one connection at a time is assumed, as the port is created with that limit.
- ServicePort: the protocol is a machine over values, not a class, because its state is shared by threads; when FilterSendMessage returns is up to the environment, although a duplicate may keep the connection alive after g_Port is closed. The overlapped read and its buffers are not modelled.
- Wire: FileSize, SessionId, IsDirectory and the trailing alignment of the header are not modelled; the 48-byte header is otherwise as declared.
- Paths.VolNtToDos: the 64-character truncation of device names in the table is not modelled.
- TreeRestore: a directory entry is restored without contents; ACLs, owners and hidden or system attributes are not modelled. The path buffer's in-place NULs in EnsureDirectoryChain are slices of a string.
- TreeRequest: SQLite's binary order on UTF-8 text is taken as the order of the characters; rows do not change between the query and their restore except by these restores; the request's message text is not modelled.
- LikePatterns: only ASCII letters fold, as in SQLite's default LIKE.
- Reconcile: qsort is an insertion sort on values; the order it gives equal rows does not matter to any result. The attribute clearing on externally restored files and allocation failures in the snapshot are not modelled.
- Drain: rows that arrive during the loop are not modelled; the termination results are about a fixed set of rows.
- Quota: status updates are taken to succeed, SIDs to fit SidEquals's buffer, and the order of the GROUP BY is arbitrary. Retention and the disk watermark are simpler loops of the same kind.
- LandingNames: a name over MAX_PATH fails before the rename and is not a landing; the $I file and its header are not modelled.
- StoreCache: one delete at a time; racing deletes can cost further retries.
- MultiSz.ReadList: reads beyond the data return None instead of whatever is in memory; ReloadConfig's validate-then-swap is not modelled.
- The terminal-row reaper: its batched delete would only add an easy loop.
- SQLite, backup, integrity check and migration: tables are rows with the condition and order each query states.
- Filter Manager, SMB, IRP plumbing, registry and event log access, service control, HTTP API and web interface.
- Unicode case tables: one ASCII fold is used on both sides.
