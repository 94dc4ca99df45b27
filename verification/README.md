# A verified model of the gov8 ownership and locking protocols

gov8 binds the V8 engine to Go. The engine sits behind native calls; what the Go side must get right is who
may call it, who owns which native object, and which of several tables answers a lookup. This project models those
protocols and proves what they promise for every run.

Code that runs on several threads is a transition system: a state, a step relation with one case per atomic
step (a critical section, an atomic word, or a native call with its outcome), an invariant that every step keeps, and
theorems about every state of every run (`Runs.IsRun`). Native calls may succeed or fail at any step; callbacks that
reenter Go are further activations or a stack of activations. Counters such as `consumed`, `drops` or `transfers` and
fields that record who last took an object exist only to state what happened. Code that runs under one lock or on one
thread is a class whose methods update the source's fields in the source's order and are proved against the same step
functions.

- `SharedLock`, `SharedLockSteps`, `SharedLockRuns`, `SharedIsolate`: locking, unlock windows and disposal of a shared
  isolate
- `TaskTransfer`: one-shot platform tasks and platform teardown
- `HostRegistry`, `HostRegistrySteps`, `HostRegistryRuns`, `FastTable`: the callback registry, its lock-free chunked table
  and the lazy-getter cache
- `ReturnValue`: the deferred int32 return value of a callback
- `BackingStore`: counted use of a backing store against Close
- `GraphTokens`, `GraphTokenSteps`, `GraphTokenRuns`: exactly-once state tokens of generic cppgc graphs
- `CrdtpFrames`, `CrdtpLifetimes`, `CrdtpHandles`: reentrant sends, object lifetimes and linear handles of CRDTP
- `AllocatorCache`: the wrapping id search and the cached allocator registry
- `Scopes`: handle scopes, escapable scopes and entered contexts
- `Lifecycle`: platform, isolates and cppgc heaps
- `FastApi`: fast-call signatures and overload flattening
- `Runs`, `Wrappers`: runs of a transition system with the lemmas all of them use; optional values and results

The larger systems are split into the model with its invariant, the proof that every step keeps it (`...Steps`), and what
holds of every run (`...Runs`).

Guards and outcomes are stated independently of the steps: for each operation there is a theorem that says exactly when it
gets through, in terms of who holds what, and a run that shows what it then achieves and what it leaves alone.

Some promises turn out to need a condition; each has a run that breaks it and the exact condition under which it
holds.

- A shared isolate is disposed under a published lock or an open window exactly when Isolate.Close does it, and that is
  final for the lock (`DisposeOverlapsIffDirect`, `DirectCloseIsFinal`).
- After a dispose, `DisposedEngineUntouched` says exactly when a native call can still follow.
- A held engine lock can be released again exactly as long as its Locker is not marked closed and the isolate is open
  (`ReleasedInSomeContinuation`).
- A registration faults exactly when its handle lies in a chunk that an earlier publication jumped over, which a counter
  reset makes possible; a handle that was published without a fault is never looked up with one (`PublishFaultsIffJumped`,
  `RegistrationFaults`, `PublishedHandlesNeverFault`).
- Table, map and cache agree unless the handle counter was reset under an unpublished reservation, which lets a handle be
  given out twice (`TwiceIffResetUnderReservation`).
- A graph operation finds its token stale exactly when the state-drop callback of its graph's destruction came before the
  lookup: user code that the operation called closed the isolate, or the operation was itself called from that Drop
  callback, where the graph still looks open (`StaleIffStateDropped`, `StateInsideDrop`).
- A native isolate exists while V8 is disposed, or after it, exactly when a native call failed and left it behind: the
  isolate's dispose, after which Isolate.Close unregisters it all the same, or a constructor that had already made it. The
  comment at isolate.go:154-156 assumes the first cannot happen (`OutlivesV8IffLeft`, `OutlivingIsReachable`).
- A CRDTP channel is deleted under a dispatcher exactly when that dispatcher's own native delete failed
  (`ChannelDeletedLast`, `ChannelDeletedUnderDispatcher`).
- An escapable scope, or an entered context, is refused Close while innermost exactly when the borrowed scope it
  depends on has expired or its Context was closed, and an entered context is then stuck for good.

## Model

| member | source | states |
|---|---|---|
| `SharedLockRuns.RunInv` | locker.go:187-435 | in every interleaving of Lock, Locker.Close, UnlockWindow, SharedIsolate.Close and Isolate.Close by any number of threads, every reachable state satisfies the protocol invariant: who owns the engine lock, who is published, who is bound, and what each thread in mid-operation may rely on |
| `SharedLockRuns.CheckImpliesEngineLock` | isolate.go:70-80 | a thread that passes Isolate.check owns the engine lock or is inside its own release with the registry mutex held; a thread between operations that passes it is the published holder of an isolate that is not disposed, and no other thread passes it or owns the lock |
| `SharedLockRuns.HolderPassesCheck` | locker.go:241-249 | conversely, a thread that finished locking and still owns the engine lock passes the check |
| `SharedLockRuns.LetThroughIff` | locker.go:201-234 | the checks of Lock by a thread between operations: it goes on to the engine if and only if the isolate is shared and open and either another thread's window is open, or no window is, the thread does not own the engine lock, and someone is published as holder or the thread has no isolate entered; every other caller is back where it was and nothing has reached the engine |
| `SharedLockRuns.ReadsItselfIffHolder` | locker.go:217-224 | a caller sent to read the owner word without the mutex goes on if and only if it does not own the engine lock at that moment |
| `SharedLockRuns.RelockIsRefused` | locker.go:217-222 | a holder that calls Lock again with no window open never goes on to the engine in any interleaving, and the step that ends its call changes nothing but the thread |
| `SharedLockRuns.OperationsAllowedIff` | locker.go:268-413 | between critical sections Locker.Close and UnlockWindow get through if and only if the caller owns the engine lock through that unmarked Locker, UnlockWindow only with no window open, and SharedIsolate.Close if and only if the isolate is shared and open with no window and the lock free or granted and not yet published |
| `SharedLockRuns.FailedLock` | locker.go:236-239 | a native lock call that fails leaves everything but the engine's call history as it was |
| `SharedLockRuns.LockerHistories` | locker.go:268-382 | the native calls of each Locker spell one acquire, then begin/end window pairs, then at most one release; at most one Locker is held and at most one window is open at a time |
| `SharedLockRuns.DisposeOverlapsIffDirect` | isolate.go:92-122 | a native dispose overlaps a published lock or an open window if and only if Isolate.Close makes it; its caller is then the bound, published holder. A dispose by SharedIsolate.Close finds the engine lock free unless a thread was granted it and has not published yet |
| `SharedLockRuns.DirectCloseIsFinal` | isolate.go:92-157 | after Isolate.Close of a shared isolate the engine lock is never released, the registry says locked for ever, no Locker.Close or UnlockWindow gets through natively, SharedIsolate.Close is always refused and nobody passes the check |
| `SharedLockRuns.HolderDisposes` | isolate.go:92-118 | a concrete run in which the holder of a lock disposes the isolate under it |
| `SharedLockRuns.ReleasedInSomeContinuation` | locker.go:268-303 | a held engine lock is released in some continuation if and only if its Locker is not marked closed, the isolate is neither closed nor disposed and no Isolate.Close is under way |
| `SharedLockRuns.AbandonedForever` | locker.go:358-372 | a closure that returns with an isolate still entered, or a native reacquire that fails, leaves its window open for the rest of the run: that thread never owns the lock or passes the check again, SharedIsolate.Close is always refused, and only Isolate.Close by another thread's lock can dispose the isolate |
| `SharedLockRuns.AbandonedThenDisposed` | locker.go:358-365 | a concrete run in which a thread that locked inside an abandoned window disposes the isolate |
| `SharedLockRuns.DisposedEngineUntouched` | locker.go:201-245 | after the native dispose some continuation still calls into the engine or is granted its lock if and only if a call to lock is in flight and the lock is free, the handle word is still set and a thread is past the checks of Lock, or the closure of a window is running |
| `SharedLockRuns.LateCall` | locker.go:226-238 | a thread past the checks of Lock that reads the handle before it is cleared makes its native call |
| `SharedLockRuns.ReachableCalls` | locker.go:235-371 | from every such state a continuation that makes or completes a native call exists |
| `SharedLockRuns.SealedPath` | locker.go:396-431 | from every other disposed state no continuation makes or completes any native call |
| `SharedLockRuns.DisposeOverlapsLock` | locker.go:187-245 | a concrete run in which one thread is in its native lock call when another disposes the isolate |
| `SharedIsolates.SharedIsolate.constructor` | locker.go:121-159 | a shared isolate starts registered, unlocked and bound to no thread |
| `SharedIsolates.SharedIsolate.Check` | isolate.go:70-80 | between operations the check passes exactly for the thread that owns the engine lock of an open isolate; the isolate is then not disposed and no other thread owns the lock or passes |
| `SharedIsolates.SharedIsolate.Validate` | locker.go:201-234 | phase 1 of Lock keeps the protocol invariant; the caller goes on to the engine exactly if the isolate is registered and open and either another thread's window is open or there is no window, no lock and no entered isolate; it is sent to read the owner exactly when it finds a lock and no window |
| `SharedIsolates.SharedIsolate.ReadOwner` | locker.go:217-224 | the unprotected read of the owner keeps the protocol invariant; the caller goes on if and only if it does not own the engine lock |
| `SharedIsolates.SharedIsolate.Publish` | locker.go:241-249 | phase 3 of Lock keeps the protocol invariant; afterwards the caller alone owns the engine lock, passes the check unless the isolate was closed meanwhile, and may close its locker exactly if the isolate is still registered |
| `SharedIsolates.SharedIsolate.CloseLocker` | locker.go:268-303 | keeps the protocol invariant; succeeds exactly for the open locker of the published holder on its own thread with a handle, and then nobody owns the engine lock or passes the check; otherwise engine, lock and binding stay as they were; the locker is marked closed unless it is the holder's and the call came from a foreign thread |
| `SharedIsolates.SharedIsolate.OpenWindow` | locker.go:323-356 | keeps the protocol invariant; the window opens exactly for the published holder on its own thread with nothing entered on top, and then nobody owns the engine lock or passes the check |
| `SharedIsolates.SharedIsolate.CloseWindow` | locker.go:373-381 | keeps the protocol invariant; after the reacquire the window owner alone owns the engine lock, passes the check unless the isolate was closed, and may close its locker exactly if no Close was tried in the window |
| `SharedIsolates.SharedIsolate.Dispose` | locker.go:396-431 | keeps the protocol invariant; succeeds exactly on a registered, open isolate with neither lock nor window, and from then on every Lock is refused |
| `SharedIsolates.SharedIsolate.CloseIsolate` | isolate.go:92-157 | keeps the protocol invariant; goes through exactly for the thread that owns the engine lock, leaves the registry saying locked, and then nobody passes the check and SharedIsolate.Close is refused |
| `SharedIsolates.ClosingRun` | locker.go:268-303 | the whole of Locker.Close is a run of the protocol: its checking step and, when permitted, its native release, clear and unbind steps |
| `SharedIsolates.OpeningRun` | locker.go:323-356 | the whole of a window opening is a run of the protocol |
| `SharedIsolates.DisposingRun` | locker.go:396-424 | the whole of SharedIsolate.Close is a run of the protocol |
| `SharedIsolates.DirectClosingRun` | isolate.go:92-157 | the whole of Isolate.Close is a run of the protocol |
| `SharedIsolates.LockCloseRoundTrip` | locker.go:187-303 | Lock then Close restores every word and the engine lock; in between exactly the caller passes the check and may close, afterwards the locker is spent |
| `SharedIsolates.WindowRoundTrip` | locker.go:319-383 | an unlock window that nobody uses gives the lock back unchanged, and while it is open no thread passes the check |
| `TaskTransfer.RunInv` | platform_custom.go:285-377 | in every interleaving of posting callbacks, Run, Close, finalizers, armFinalizer and teardown the ownership invariant of tasks, work map and mutexes holds |
| `TaskTransfer.ConsumedAtMostOnce` | platform_custom.go:401-505 | every posted handle is in exactly one place: still in its word, in the hands of exactly one activation, or consumed; native code gets it at most once |
| `TaskTransfer.NothingSurvivesTeardown` | platform_custom.go:356-377 | once teardown and the posting callback have finished the handle word is zero, and once every activation has finished each posted task was consumed exactly once |
| `TaskTransfer.WorkMapAtRest` | platform_custom.go:337-354 | at quiescence before teardown the work map lists exactly the retained unconsumed tasks under their own ids, and nothing else is unconsumed |
| `TaskTransfer.CloserRunsOnce` | platform_custom.go:356-377 | the implementation's closer runs once, exactly when teardown finishes |
| `TaskTransfer.HoldersAdvance` | platform_custom.go:401-438 | whoever holds the entry mutex can take its next step, and whoever holds a task mutex waits at most for the entry mutex |
| `TaskTransfer.SomeoneAdvances` | platform_custom.go:401-438 | no deadlock: while an activation is unfinished, some activation can take a step |
| `TaskTransfer.TakeConsumes` | platform_custom.go:420-438 | from every reachable state Run, Close or a finalizer on a live unlisted task whose mutex is free consumes it once and changes nothing else |
| `TaskTransfer.TakeUnlists` | platform_custom.go:420-438 | the same for a listed task, which also leaves the work map |
| `TaskTransfer.PostingRetains` | platform_custom.go:405-417 | from every reachable state before teardown a posting activation whose task is still live finishes with the task live, retained under the next id, listed there and not consumed, and nothing else changed |
| `TaskTransfer.PostRetains` | platform_custom.go:297-320 | the same from the moment the engine posts the task |
| `TaskTransfer.ConsumedPostingEnds` | platform_custom.go:401-404 | a task consumed inside its posting callback leaves nothing in the work map |
| `TaskTransfer.PosterConsumesIffTornDown` | platform_custom.go:405-412 | a posting activation that came to add its task consumes it itself if and only if the platform was torn down at that moment |
| `TaskTransfer.TeardownConsumesAll` | platform_custom.go:356-377 | from every reachable state with nothing in flight teardown runs to its end, with the closer run, the work map empty and every task ever posted consumed exactly once |
| `HostRegistryRuns.RunInv` | callback.go:255-418 | every interleaving of registrations, drops, lazy-getter caching and bulk release keeps the directories well formed with exactly the jumped chunks nil, and keeps table, map and cache consistent unless a reset overlapped a reservation |
| `HostRegistryRuns.FastTableAgrees` | callback.go:367-394 | unless a reset overlapped a reservation, the lock-free lookup returns exactly the map's entry for every handle whose chunk was not jumped over, whatever happened to other chunks, and nil for one whose drop is half done |
| `HostRegistryRuns.OldDirectoriesShareCells` | callback.go:380-406 | a lookup or store through any older directory reaches the same cell as through the current one |
| `HostRegistryRuns.LazyGettersResolve` | callback.go:315-365 | every cached lazy getter resolves, in map and table, to a live entry of its own isolate, and no two keys share a handle |
| `HostRegistryRuns.EntriesBelongToTheirIsolate` | callback.go:408-418 | an entry disappears only by a drop or release of its own isolate and is never replaced in place |
| `HostRegistryRuns.LookupFaultsIffJumped` | callback.go:367-378 | a lookup of h dereferences a nil chunk if and only if a handle of a higher chunk was published before any handle of h's chunk |
| `HostRegistryRuns.PublishFaultsIffJumped` | callback.go:380-394 | a registration faults if and only if its handle lies in such a chunk |
| `HostRegistryRuns.UseUp` | callback.go:255-270 | with an empty map any number of registrations whose native context fails use up that many handles and change nothing else |
| `HostRegistryRuns.PublishedHandlesNeverFault` | callback.go:367-406 | once a publication of a handle has not faulted, no later lookup or drop of that handle dereferences a nil chunk, whatever is published or released meanwhile |
| `HostRegistryRuns.JumpIsReachable` | callback.go:380-394 | a run whose only live entry was published over a whole chunk of handles that failed registrations had used up |
| `HostRegistryRuns.RegistrationFaults` | callback.go:380-394 | a run, with no reset under a reservation, in which a release resets the counter below such a chunk and the next registration dereferences the nil chunk |
| `HostRegistryRuns.TwiceIffResetUnderReservation` | callback.go:1412-1420 | a counter reset lets some handle be handed out twice, without any further such reset, if and only if it finds the map empty while a reservation is unpublished |
| `HostRegistryRuns.TableOutlivesMap` | callback.go:396-418 | after every such reset in a chunk not jumped over, a continuation leaves both isolates idle with the handle in the table and not in the map |
| `HostRegistryRuns.GetterResolvesElsewhere` | callback.go:315-365 | and from a lazy reservation one in which another isolate replaces the entry and the cached getter resolves to it |
| `HostRegistryRuns.DisagreementIsReachable` | callback.go:1412-1420 | a concrete run to a state with every isolate idle in which table and map disagree |
| `HostRegistryRuns.NextHandle` | callback.go:255-261 | the search loop returns the first unoccupied handle after the counter |
| `HostRegistryRuns.RegisterResolves` | callback.go:255-278 | a registration whose native context is created puts the new entry under the first unoccupied handle after the counter, in map and table, caches a lazy getter under it and changes no other entry |
| `HostRegistryRuns.DropForgets` | callback.go:356-418 | a drop by the owner removes exactly that entry and, for a lazy getter, its key |
| `HostRegistryRuns.ReleaseForgets` | callback.go:1392-1420 | a release removes exactly the isolate's entries and cached getters and resets the counter if and only if the map is left empty and the native contexts were released |
| `HostRegistryRuns.LostOnlyAfterOverlap` | callback.go:340-354 | a lazy getter finds its fresh registration gone only after a reset under a reservation |
| `HostRegistryRuns.LostRegistrationDrops` | callback.go:349-352 | it then leaves nothing under the handle in the table |
| `FastTable.Table.Lookup` | callback.go:367-378 | returns the slot of the handle, nil out of range, or a fault on a nil chunk |
| `FastTable.Table.Grow` | callback.go:384-392 | the new directory extends the old one, shares its chunks, leaves skipped chunks nil and ends in a fresh empty chunk |
| `FastTable.Table.Publish` | callback.go:380-394 | changes exactly the slot of its handle, keeps every older chunk, and faults exactly when the chunk in range is nil |
| `FastTable.Table.Drop` | callback.go:396-406 | clears exactly the slot of its handle |
| `ReturnValue.WordRoundTrip` | callback.go:1253-1262 | the buffered word converts back to the int32 that was set |
| `ReturnValue.ShowsLastWrite` | callback.go:1185-1336 | for every sequence of setters and Gets with arbitrary native failures the frame shows the last write reported successful, and the invalid deferred state is unreachable |
| `ReturnValue.GetReadsLastWrite` | callback.go:1317-1336 | every successful Get returns the last successful write before it |
| `ReturnValue.CallOutcome` | callback.go:1202-1336 | each call succeeds if and only if the callback is running, a pending int32 that has to go first is accepted natively and so is the call's own native call if it makes one; a success shows the written value or answers the shown one, a failure shows what was shown before; an int32 on a capable frame leaves the native slot alone |
| `ReturnValue.RunOutcomes` | callback.go:1185-1336 | the same for every call of every sequence |
| `ReturnValue.DeferredRefinesEager` | callback.go:1185-1336 | an eager frame whose native calls fail where the deferred one reported failure gives the same outcomes and the same final value |
| `ReturnValue.ClosedFrameIsInert` | callback.go:1175-1183 | after the callback returned every operation fails and changes nothing |
| `ReturnValue.CallbackFrame.constructor` | callback.go:1185-1187 | a fresh frame defers nothing and holds undefined |
| `ReturnValue.CallbackFrame.Materialize` | callback.go:1202-1220 | writes the buffered value through, or keeps it pending on failure, without changing what the frame shows; it succeeds if and only if nothing is pending or the native write does |
| `ReturnValue.CallbackFrame.SetInt32` | callback.go:1253-1264 | succeeds if and only if the frame is open and capable or the native write succeeds; success shows the value, and on a capable frame the native slot is untouched |
| `ReturnValue.CallbackFrame.SetOther` | callback.go:1222-1242 | succeeds if and only if the frame is open, the native write succeeds and nothing is pending or the flush succeeds; success shows the new value, failure shows what was shown before |
| `ReturnValue.CallbackFrame.Get` | callback.go:1317-1336 | succeeds under the same condition, reads what the frame shows and never changes it |
| `ReturnValue.CallbackFrame.Return` | callback.go:1175-1178 | JavaScript receives what the frame showed, and every sequence of later calls fails and changes nothing |
| `BackingStores.RunInv` | buffer.go:335-513 | in every interleaving of uses and Closes the counters and flags account for every activation |
| `BackingStores.DisposeExcludesUse` | buffer.go:472-492 | a native dispose never overlaps a use or another native dispose |
| `BackingStores.UsesItsHandle` | buffer.go:335-352 | every use and the native dispose work on the handle the wrapper was made with |
| `BackingStores.ClosedForGood` | buffer.go:472-513 | dispose succeeds at most once, with the handle the wrapper was made with; afterwards no use or dispose starts, and what is released is exactly the cloned allocator reference the wrapper was made with, once, if there was one |
| `BackingStores.FailedCloseIsUndone` | buffer.go:492-498 | a failed dispose leaves the store usable, with nothing disposed or released |
| `BackingStores.BackingStore.constructor` | buffer.go:190-198 | a new wrapper is open, idle and owns its handle and reference |
| `BackingStores.BackingStore.BeginUse` | buffer.go:335-352 | a use starts exactly on an open store that nobody is closing, and takes the counted step |
| `BackingStores.BackingStore.EndUse` | buffer.go:354-358 | ends one use; the count never goes negative |
| `BackingStores.BackingStore.CloseClaim` | buffer.go:472-490 | Close claims the store exactly when it is open with no use and no other close in flight |
| `BackingStores.BackingStore.CloseOutcome` | buffer.go:492-498 | a successful native dispose was of the handle the wrapper was made with; a failed one makes the store usable again at once |
| `BackingStores.BackingStore.CloseRecord` | buffer.go:499-513 | the successful close clears handle and reference and hands back the allocator reference the wrapper was made with |
| `GraphTokenRuns.RunInv` | cppgc_generic_graph.go:139-502 | every interleaving of constructions, replacements, updates, closes and native destructions of any number of graphs, destructions under a running operation and operations begun inside the Drop callback of a destruction included, keeps registries, native tokens and logical states consistent, ids being reused |
| `GraphTokenRuns.TokensAreNeverUnknown` | cppgc_generic_graph.go:163-256 | no callback meets an unknown graph id or token |
| `GraphTokenRuns.StaleIffStateDropped` | cppgc_generic_graph.go:178-202 | an operation finds its token stale, when it reads or when it writes back, if and only if the state-drop callback of its graph's destruction came before the lookup, whether the operation had begun by then or not |
| `GraphTokenRuns.StaleIffBegunDyingOrDroppedMeanwhile` | cppgc_generic_graph.go:380-409 | seen from its beginning: if and only if the operation began between the two callbacks of the destruction, which the guards of begin allow, or the state was dropped since it began |
| `GraphTokenRuns.StateInsideDrop` | isolate.go:123-152 | from every reachable idle graph a run of isolate teardown whose Drop callback calls State: it begins, since teardown closes roots only after the native dispose, finds its token stale before the destroy callback and returns; then the graph is destroyed |
| `GraphTokenRuns.DroppedAtMostOnce` | cppgc_generic_graph.go:153-176 | each logical state is dropped at most once, with the value last written to it |
| `GraphTokenRuns.DroppedExactlyOnce` | cppgc_generic_graph.go:302-502 | once a graph is destroyed and no operation of it runs, or its construction has failed, every state ever cloned for it was dropped exactly once, failed installs and refused write-backs included |
| `GraphTokenRuns.OneLiveState` | cppgc_generic_graph.go:432-459 | between operations a graph has exactly one undropped state, the one its native object and wrapper agree on, holding the last value written |
| `GraphTokenRuns.UpdateIsInPlace` | cppgc_generic_graph.go:471-502 | UpdateState of a living graph writes back into the state it read, which nobody changed meanwhile, and drops nothing; if the graph's destruction has begun no entry changes and the clone is left to be dropped |
| `GraphTokenRuns.UpdateOutlivesGraph` | cppgc_generic_graph.go:471-502 | from every reachable idle graph a run of UpdateState whose callback closes the isolate: the write-back is refused, the graph's state and the refused clone are dropped once each and the graph is gone |
| `GraphTokenRuns.ReplaceInstalls` | cppgc_generic_graph.go:432-459 | from every reachable idle graph a successful ReplaceState installs the new state under its token, drops the old one once with its last value and changes nothing else |
| `GraphTokenRuns.FailedReplaceChangesNothing` | cppgc_generic_graph.go:450-454 | a failed ReplaceState, called from the Drop callback of the graph's own destruction or not, drops its clone once and leaves graph, token and registry as they were |
| `GraphTokenRuns.ConstructInstalls` | cppgc_generic_graph.go:302-377 | a successful construction leaves an open graph whose native object holds the new token, with the clone of the initial state registered and readable under it |
| `GraphTokenRuns.RefusedConstructionUnwinds` | cppgc_generic_graph.go:354-373 | a construction that native code refuses drops its clone once and leaves registry and tokens as they were |
| `GraphTokenRuns.UpdateWrites` | cppgc_generic_graph.go:471-502 | from every reachable open graph a successful UpdateState gives the same state under the same token the new value and changes nothing else |
| `GraphTokenRuns.CloseOutcome` | cppgc_generic_graph.go:684-717 | Close of an idle graph: if the root closes no operation begins any more and nothing else changed; if it does not the graph is as it was |
| `GraphTokenRuns.CloseIsFinal` | cppgc_generic_graph.go:684-717 | after a successful Close no operation of the graph begins for the rest of the run |
| `CrdtpFrames.RunInv` | crdtp_dispatcher.go:130-167 | every nesting of callbacks and sends on any number of threads keeps frame words and activation stacks consistent |
| `CrdtpFrames.SlotsAreExclusive` | crdtp_dispatcher.go:660-670 | no two sends in flight, at any depth, share a result slot; in particular at most one uses a frame's own slot |
| `CrdtpFrames.WordTwoIffOwnSend` | crdtp_dispatcher.go:664-670 | the frame word is 2 exactly while a send using the frame's own slot is in flight |
| `CrdtpFrames.SendReadsItsOwnWords` | crdtp_dispatcher.go:671-681 | when a native send returns, its slot holds what that call stored, whatever ran inside it |
| `CrdtpFrames.UsableIffCallbackRuns` | crdtp_dispatcher.go:580-588 | a frame is accepted exactly on its own thread while its callback is on that thread's stack |
| `CrdtpFrames.ExpiredForGood` | crdtp_dispatcher.go:161-167 | after the callback returned every use of its request or responder is rejected for ever |
| `CrdtpFrames.SendReturns` | crdtp_dispatcher.go:664-682 | an uninterrupted send on an idle frame uses the frame's own slot, leaves native code's words there and restores frame and stack |
| `CrdtpFrames.NestedSendReturns` | crdtp_dispatcher.go:664-682 | a send through a frame whose own slot is in use takes a slot nobody has used and leaves frame, stack and the outer send's words as they were |
| `CrdtpFrames.CallbackReturns` | crdtp_dispatcher.go:150-167 | a callback makes its frame usable by its thread while it runs and leaves it expired, with stack and other frames as before |
| `CrdtpLifetimes.RunInv` | crdtp_dispatcher.go:365-561 | every concurrent or reentrant run keeps busy, active, closed flags and dispatcher counts in step with the activations |
| `CrdtpLifetimes.DispatchExcludesDeletion` | crdtp_dispatcher.go:491-533 | while a dispatch runs, no delete of its dispatcher or message has begun and no other activation uses either |
| `CrdtpLifetimes.ReadExcludesDeletion` | crdtp.go:241-259 | a message accessor in its native call excludes dispatch and deletion of the message |
| `CrdtpLifetimes.ChannelDeletedLast` | crdtp_dispatcher.go:365-392 | a channel's native delete begins only after the native delete of every dispatcher built on it returned, and such a dispatcher is then still there if and only if its delete failed; the registry count is the number of attached dispatchers |
| `CrdtpLifetimes.CloseUncounts` | crdtp_dispatcher.go:535-561 | Close of an idle dispatcher uncounts it from its channel whatever its native delete reports, and changes nothing else |
| `CrdtpLifetimes.ChannelDeletedUnderDispatcher` | crdtp_dispatcher.go:553-560 | a concrete run in which a channel's native delete begins with a dispatcher left on it |
| `CrdtpLifetimes.DeletedAtMostOnce` | crdtp.go:261-282 | every channel, dispatcher and message is natively deleted at most once |
| `CrdtpLifetimes.DispatchGivesBack` | crdtp_dispatcher.go:491-533 | a whole Dispatch of an idle pair takes both and gives both back as they were, usable again |
| `CrdtpLifetimes.RefusedDispatchGivesBack` | crdtp_dispatcher.go:510-521 | a Dispatch that finds its message closed or in use gives the dispatcher back |
| `CrdtpLifetimes.WireGivesBack` | crdtp_dispatcher.go:433-489 | wiring a domain takes the dispatcher and gives it back |
| `CrdtpLifetimes.ReadGivesBack` | crdtp.go:241-259 | a message accessor takes the message and gives it back |
| `CrdtpLifetimes.MessageBegins` | crdtp.go:151-180 | a new message is idle |
| `CrdtpLifetimes.MessageCloses` | crdtp.go:261-282 | Close of an idle message deletes it natively once and refuses it from then on |
| `CrdtpLifetimes.DispatcherBuilds` | crdtp_dispatcher.go:405-431 | a new dispatcher on an open channel is idle and counted |
| `CrdtpLifetimes.FailedBuildGivesBack` | crdtp_dispatcher.go:409-420 | a failed native construction leaves the channel as it was |
| `CrdtpLifetimes.ChannelClosesIff` | crdtp_dispatcher.go:365-388 | a channel's Close gets through if and only if it is open, nobody is building a dispatcher on it and every dispatcher on it has been closed and uncounted |
| `CrdtpHandles.GivenAwayAtMostOnce` | crdtp.go:516-583 | over every sequence of queries, closes, consumptions and sends a handle is deleted or taken at most once, and is accessible exactly while neither happened |
| `CrdtpHandles.RefusedForGood` | crdtp.go:350-361 | once access is refused no later call changes anything |
| `CrdtpHandles.CallEffect` | crdtp.go:350-583 | what each call does to a handle that is still owned after any sequence of calls: Close deletes it natively and refuses access, a consuming call that took it and a send refuse access as consumed, every other call leaves it |
| `CrdtpHandles.Owned.constructor` | crdtp.go:344-348 | a new handle object owns its native handle |
| `CrdtpHandles.Owned.WithHandle` | crdtp.go:350-361 | the handle is available exactly if no call so far has deleted, taken or detached it, and is then the one the object was made for; once it is refused no sequence of calls changes anything |
| `CrdtpHandles.Owned.Close` | crdtp.go:418-434 | calls the native delete with the handle the object was made for exactly if it is still owned, and access is refused afterwards |
| `CrdtpHandles.Owned.Consume` | crdtp.go:547-583 | gives the handle away exactly when native code reports it consumed; every other outcome keeps it |
| `CrdtpHandles.SendResponse` | crdtp_dispatcher.go:636-659 | both handles are detached, handed to native code and refused from then on, or neither: a refused send changes nothing |
| `AllocatorCache.NextId` | array_buffer_allocator.go:159-173 | the wrapping search terminates with the first free nonzero id in cyclic order, and fails exactly when every nonzero id but the starting counter value is occupied |
| `AllocatorCache.ExhaustedMeans` | cppgc_generic_graph.go:116-125 | a full cycle of refusals means every nonzero id other than the starting value is occupied |
| `AllocatorCache.RunInv` | array_buffer_allocator.go:73-97 | every interleaving of lookups, takes and registrations keeps the cached pointer equal to the abstract map |
| `AllocatorCache.CacheAgreesOutsideMutex` | array_buffer_allocator.go:73-97 | with the mutex free the pointer is nil or the map's own entry for its id |
| `AllocatorCache.LookupIsLinearizable` | array_buffer_allocator.go:73-86 | a lookup of an id returns what the plain map held under that id at some moment of the call |
| `AllocatorCache.TakeIsLinearizable` | array_buffer_allocator.go:88-97 | a removal of an id returns what the plain map held under that id and removes exactly that, at one moment of the call |
| `AllocatorCache.RegisteredIsFound` | array_buffer_allocator.go:159-173 | a lookup finds the entry registered under its id as long as no removal or registration of that id intervenes |
| `AllocatorCache.CachedUntilReplaced` | array_buffer_allocator.go:73-97 | the entry a locked lookup or a registration ended with stays cached, and is answered without the mutex, until another is cached or it is removed |
| `AllocatorCache.AllocatorRegistry.constructor` | array_buffer_allocator.go:159-177 | an empty registry caches nothing |
| `AllocatorCache.AllocatorRegistry.Register` | array_buffer_allocator.go:159-177 | adds one fresh entry under a free nonzero id and caches it, or reports exhaustion and changes neither map nor cache |
| `AllocatorCache.AllocatorRegistry.Lookup` | array_buffer_allocator.go:73-86 | answers exactly what the map holds, cached or not |
| `AllocatorCache.AllocatorRegistry.Take` | array_buffer_allocator.go:88-97 | removes and returns the entry and never leaves it cached |
| `Scopes.RunInv` | scope.go:50-76 | every sequence of scope, escape and context operations keeps the stacks, counters and flags consistent |
| `Scopes.StackHoldsOpenScopes` | scope.go:50-76 | the handle-scope stack holds exactly the open scopes that are not borrowed, without repetition |
| `Scopes.EscapablesStandOnTheirDestination` | core_advanced.go:63-84 | an escapable scope with an ordinary destination lies in an unbroken run of escapable scopes with that destination directly above it; the destination is open and cannot be closed first |
| `Scopes.RunAbove` | core_advanced.go:68-76 | the run exists above the destination, found level by level |
| `Scopes.ClosePopsItsOwnScope` | scope.go:169-173 | the pop after a permitted close removes exactly the closed scope |
| `Scopes.EscapableAcceptedIff` | core_advanced.go:63-84 | a new escapable scope is accepted if and only if its destination is open, not escapable itself, and borrowed or with nothing above it but escapable scopes that escape to it |
| `Scopes.EscapesOnce` | core_advanced.go:102-127 | an escape is accepted if and only if scope and destination are open and no earlier step of the run escaped from that scope |
| `Scopes.ScopeClosesIff` | scope.go:146-173 | an ordinary scope is closed if and only if it is open, no entered context is a reference living in it, and every other open scope on the stack was opened before it |
| `Scopes.LocalEntersIff` | core_advanced.go:198-219 | a reference is entered if and only if its scope is open, not escapable, and fewer than 2^32 - 1 entered contexts live in it |
| `Scopes.ContextEntersIff` | core_advanced.go:180-193 | a Context is entered, however often it is entered already, if and only if no earlier step closed it |
| `Scopes.InnermostEscapableClosable` | core_advanced.go:131-143 | an innermost escapable scope is refused Close if and only if its destination is a borrowed scope that has expired |
| `Scopes.ExpiredDestinationIsReachable` | core_advanced.go:131-134 | a concrete run that leaves such a scope innermost |
| `Scopes.CounterCountsEnteredContexts` | core_advanced.go:198-219 | a scope's counter is the number of entered contexts whose reference lives in it, fits 32 bits, is zero for a closed ordinary scope and forbids closing while it is not |
| `Scopes.InnermostContextExitable` | core_advanced.go:223-241 | the innermost entered context is refused exit if and only if its Context was closed or its reference came from a borrowed scope that has expired |
| `Scopes.RefusedContextStaysEntered` | core_advanced.go:223-245 | a context refused exit, and every context entered below it, stays entered for the rest of the run |
| `Scopes.ClosedContextIsReachable` | scope.go:234-259 | a concrete run that closes the innermost entered Context |
| `Scopes.ExpiredReferenceIsReachable` | core_advanced.go:234-237 | a concrete run in which the scope of the innermost entered reference expires |
| `Scopes.ContextsExitInReverse` | core_advanced.go:223-268 | of two entered contexts the later one is exited first |
| `Scopes.Isolate.constructor` | scope.go:50-52 | a new isolate has no scopes |
| `Scopes.Isolate.NewScope` | scope.go:86-99 | pushes a fresh open scope, or changes nothing when the native call fails |
| `Scopes.Isolate.NewEscapableScope` | core_advanced.go:63-84 | opens exactly under the current destination or a borrowed scope |
| `Scopes.Isolate.Escape` | core_advanced.go:102-127 | succeeds exactly once per open scope with an open destination |
| `Scopes.Isolate.CloseScope` | scope.go:146-178 | closes and pops exactly an innermost ordinary scope without entered contexts, even when the native exit fails |
| `Scopes.Isolate.CloseEscapable` | core_advanced.go:131-153 | closes and pops exactly an innermost escapable scope whose destination is open |
| `Scopes.Isolate.NewContext` | scope.go:192-204 | adds one fresh open Context, or changes nothing when the native call fails |
| `Scopes.Isolate.CloseContext` | scope.go:234-259 | closes the Context even when it is entered or the native call fails; no guard of it can be exited any more |
| `Scopes.Isolate.Enter` | core_advanced.go:180-193 | enters exactly an open Context |
| `Scopes.Isolate.EnterLocal` | core_advanced.go:198-219 | enters and counts, or restores the counter when the native call fails; refused at the 32-bit bound |
| `Scopes.Isolate.Exit` | core_advanced.go:223-268 | exits exactly the innermost entered context whose Context or scope is still open, and uncounts it |
| `Lifecycle.RunInv` | gov8.go:74-147 | every interleaving of process transitions, isolate creations and closes and heap operations keeps live set, platform state and heap ownership consistent |
| `Lifecycle.OutlivesV8IffLeft` | gov8.go:115-131 | while native V8 dispose runs, and whenever the engine is down, a native isolate exists if and only if earlier its native dispose failed, or the native constructor failed after making it |
| `Lifecycle.DisposedOverIsolate` | isolate.go:123-161 | wherever exactly one isolate is live and open, a run in which its native dispose fails and V8 is then disposed with the isolate left |
| `Lifecycle.OutlivingIsReachable` | isolate.go:154-157 | a concrete run from the start of the process to a native isolate without an engine |
| `Lifecycle.NativeIsolatesAreLive` | isolate.go:43-157 | a native isolate is in the live set unless its creation still holds the lifecycle lock or a failed native call left it behind; a closed isolate still exists natively if and only if such a call left it behind |
| `Lifecycle.ExplicitCppGCExcludesV8` | cppgc_heap_lifecycle.go:78-128 | the explicit cppgc process and an initialized engine are never up together, not even during Initialize |
| `Lifecycle.HeapHasOneOwner` | isolate_advanced.go:302-377 | each heap is owned by its wrapper, by one native isolate that owns no other heap, or by nobody, having been destroyed or taken by a constructor that made no isolate; it is transferred at most once, only when claimed and not terminated, and never both claimed and detached |
| `Lifecycle.TransferIsFinal` | isolate_advanced.go:346-364 | a heap that left its wrapper never comes back and is not transferred again |
| `Lifecycle.ShutdownWithoutHeaps` | cppgc_heap_lifecycle.go:99-116 | the explicit cppgc process is shut down only when every heap has been destroyed |
| `Lifecycle.CreateRegisters` | isolate.go:43-65 | a successful NewIsolate adds exactly one native isolate, registered as live, and releases the lifecycle lock |
| `Lifecycle.CloseUnregisters` | isolate.go:92-157 | Isolate.Close publishes the isolate as closed and removes exactly it from the live set, whatever the native dispose reports; if it succeeded the native isolate and the heap it owns are gone, if it failed both are left |
| `Lifecycle.InitializeOutcome` | gov8.go:74-92 | Initialize brings the engine up or leaves everything as it was |
| `Lifecycle.DisposeOutcome` | gov8.go:115-131 | Dispose with no live isolate takes the engine down or leaves it up |
| `Lifecycle.DisposePlatformOutcome` | gov8.go:135-147 | DisposePlatform after Dispose is final or can be tried again |
| `Lifecycle.CppGCRoundTrip` | cppgc_heap_lifecycle.go:78-116 | the explicit cppgc process comes up and, with no heaps, goes down again |
| `Lifecycle.HeapClaims` | cppgc_heap_lifecycle.go:142-193 | a new heap can be claimed and then handed over, or detached and then not |
| `Lifecycle.HeapTerminates` | cppgc_heap_lifecycle.go:251-274 | a terminated heap can no longer be handed over |
| `Lifecycle.HeapCloses` | cppgc_heap_lifecycle.go:276-298 | Close of a heap its wrapper still has destroys and unregisters it and changes nothing else |
| `Lifecycle.HeapTransfers` | isolate_advanced.go:302-377 | from every reachable state a transferable heap is handed to the new isolate, which is live and owns it |
| `Lifecycle.RefusedHandOver` | isolate_advanced.go:353-359 | a constructor that takes nothing gives the heap back as it was |
| `FastApi.NewTypeInfo` | fast_api.go:77-104 | accepts exactly the known types with known flags that fit the type |
| `FastApi.IdentifierRoundTrip` | fast_api.go:112-116 | the identifier determines the type info |
| `FastApi.NewSignature` | fast_api.go:130-153 | accepts exactly the signatures with valid infos, no options as result, options only last, a known representation and fewer than 2^32 arguments |
| `FastApi.CountExcludesOptions` | fast_api.go:175-184 | ArgumentCount separates ordinary arguments from the options argument |
| `FastApi.Marshal` | fast_api.go:253-265 | marshals exactly valid signatures, argument by argument |
| `FastApi.EncodeOne` | fast_api.go:330-350 | one overload passes exactly if it is valid, its public count is new and the aggregate stays below 2^32; its wire fields are not truncated |
| `FastApi.Flatten` | fast_api.go:326-351 | accepts exactly the lists of valid overloads with distinct public counts and fewer than 2^32 arguments in all, and then every function's slice decodes to the overload it came from, the slices lying end to end |
| `FastApi.Extend` | fast_api.go:345-350 | appending one overload keeps all earlier slices decodable |
| `FastApi.SlicesAreDisjoint` | fast_api.go:345-350 | no element of the flat array belongs to two functions |
| `FastApi.SlicesCover` | fast_api.go:345-350 | every element of the flat array belongs to some function |

## Left out

- Native behaviour of the engine beyond the outcome of each call: only success or failure and the ownership words it reports are modelled.
- The engine lock is a plain mutex that any thread past its checks may be granted; recursive acquisition inside another thread's window is not modelled.
- OS-thread pinning: pin counts are not modelled, since two refusals in Lock return without releasing the pin.
- Refusals of Isolate.Close while an inspector or a heap snapshot is open: such a call changes nothing and is no step.
- Wrong-thread refusals of cppgc heaps, isolates and scopes: the operations are those of the owning thread.
- Panics, aborts, error texts and stderr output; an error is a value or an unchanged state.
- The locker, task, graph, dispatcher-lifetime and process-lifecycle protocols are transition systems over values: which step writes which field is captured, aliasing of the Go objects is not. The critical sections of the locker are also given as methods.
- Task.Run's isolate check and the run callback itself: a caller of take stands for Run, Close and the finalizer.
- Handle counter of the callback registry: unbounded here, a 64-bit counter that skips zero in the source.
- Callback dispatch, property interceptors and accessor frames other than the return value.
- Graph edges, traced values and the name and trace callbacks of generic graphs.
- GraphTokenRuns.StaleIffStateDropped: the source draws graph ids from a 64-bit counter; here an id is not given out again while an operation of its destroyed graph still runs, so a wrap-around within one operation is not modelled.
- GraphTokenRuns.RunInv: a graph is destroyed between operations or where user code may run (a Clone, Drop or update callback), not inside the native constructor or between the native swap of tokens and its callback.
- Lifecycle.CloseUnregisters: a native isolate dispose that fails is taken to leave the isolate and its heap as they were; how far the engine got is not known to the caller.
- The active counters of CRDTP channels and domains: they only refuse more closes than the model does.
- Domain registration ids of WireDomain; wiring is a dispatcher use here.
- JavaScript execution guards of a scope, which only refuse more closes.
- Inspector, snapshot, module, WebAssembly and value wrappers: thin checks around native calls, or the same counting shapes as above.
- CrdtpHandles.Owned.Consume: an ownership word other than 0 or 1 is read as "not consumed", which is how the source leaves its fields; what native code did then is unknown.
- SharedLockRuns.CheckImpliesEngineLock: during the last steps of its own release a thread is still bound although the native unlock has returned; no other thread can publish before the binding is cleared.
