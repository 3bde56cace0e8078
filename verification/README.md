# WebConsole: ten protocols and algorithms, proved

A Dafny model of the parts of the console in which state, order or arithmetic is
subtle, and proofs of what they promise.  `dafny verify dfyconfig.toml` checks
everything.

| component | files |
|---|---|
| Shared SSH tunnels: machines, refcounted connections, ports, retries, stop | `TunnelProtocol`, `TunnelSafety`, `TunnelRuns`, `TunnelLeaks`, `TunnelEffects`, `TunnelManager` |
| Orchestrator plans: validation, the cycle search, the task loop | `Plan`, `Scheduler`, `Graphs`, `Text` |
| The sidebar tree of chats | `ChatTree`, `ChatTreeLaws`, `ChatTreeShown` |
| Token buckets and their cleanup | `RateLimit`, `RateLimitLaws`, `RateLimitExact` |
| The resumable benchmark sweep | `BenchmarkSweep` |
| Pushing a commit to a remote checkout | `TransportSync`, `TransportSyncLaws`, `TransportSyncRetries`, `TransportSyncPaths` |
| Turn streaming with retries, the line framer, the bounded dictionary | `TurnStream`, `TurnStreamLaws`, `TurnRetries`, `LineFramer`, `BoundedDict` |
| The environment of a backend, as a map and as shell lines | `BackendEnv`, `BackendEnvLaws` |
| The session table and its mirror on disk | `Sessions`, `SessionsLaws`, `SessionStrays`, `SessionOrigins`, `SessionStore` |
| The reentrant database write lock | `WriteLock`, `WriteLockSafety`, `WriteLockRuns`, `WriteGate` |
| Shared by several | `Wrappers`, `Sets` |

Where the code updates state step by step, a class or a method with loops does the
same steps, and its `ensures` ties the result to a specification; the laws are then
proved about that specification, over all inputs, all runs or all reachable states.
The two concurrent protocols (tunnels and write lock) are transition systems whose
events are the stretches of code between two suspension points; any interleaving is
allowed.  Every lemma spells out its own induction.

The classes that update their fields in place (`TunnelManager.Manager`,
`SessionTable.SessionStore`, `WriteGates.WriteGate`) have a `Valid()` that is the
protocol's invariant on those fields.  Each method keeps it, takes the protocol's step
and states its effect; for the tunnels the effect lemmas of `TunnelEffects` say what
the steps mean, and each method of the manager carries the same statement.

Clocks, random tokens, the network, the database, git and the turns themselves are
parameters: an outcome is handed in, for all outcomes.  Floats are reals.  Text is
Python's: `Text` models `strip` and `split` with Python's white space.

## What was found

For each of these a lemma says exactly when the code does what it promises, and most
have a lemma beside it that gives a run or an input for which it does not.

* **Tunnels, stop with a connect in flight.**  `stop` clears the re-entry guard
  (`tunnel_manager.py:122`) while a connect may still be running; a reconnect then
  starts a second one for the same machine, and the run can go on to a count that is
  one too high, whatever the first connect was at (`StopInFlightLeaks`).  A transport
  counted so is never let go, not even when all machines have released it
  (`NeverLetGo`).  Every step that starts such a second connect can lead there
  (`OverlapLeaks`), and exactly these steps break the invariant (`StepKeeps`).  The
  guard covers every connect exactly unless a stop finds one in flight (`GuardStep`).
* **Tunnels, exhausted ports.**  The port search raises after the guard was set and
  outside the code that clears it (`tunnel_manager.py:429-454`): the machine is never
  connected again until the manager is stopped (`ExhaustedPortsWedge`,
  `WedgedUntilStop`).
* **Rate limiter.**  Cleanup cannot be observed exactly if two windows refill every
  limit; with the shipped endpoint limits that is a window of at least 31 seconds
  (`CleanupUnobservableExactly`, `ShippedWindows`).
* **Sync, later commits.**  The comment at `transport_sync.py:155` says that a copy
  lands as a push; the code pushes the line's first path, the source of the copy.  Git
  lists copies only when it is configured to look for them.  A new file that the diff
  mentions only as a copy is never pushed (`CopyIsNotPushed`), and a regular file that
  becomes a gitlink stays on the remote (`GitlinkLeavesTheFile`); otherwise a sync
  converges (`SyncConverges`, and `SyncConvergesAtHead` for an index that is as HEAD
  is).  A plan is possible exactly if no copy's source is gone
  and the index has the gitlinks that the diff mentions (`PushableExactly`).
* **Sync, the first one.**  It takes its list of files from the index and their bytes
  from HEAD.  It can succeed exactly if every listed file, gitlinks aside, is in
  HEAD (`FirstSyncPossibleExactly`), and it then installs all of HEAD's files exactly if all
  are listed (`FirstSyncCompleteExactly`).  With a removal staged it leaves out a file
  that HEAD has and still moves the pointer to HEAD (`StagedRemovalIsSkipped`); the file
  stays missing until a diff pushes it (`MissingStaysMissing`).  With a new file staged
  every first sync fails (`StagedFileFails`).
* **Sync, after a failure.**  A success leaves the tree of one undisturbed sync, wherever
  the failed attempts broke off, inside a file included, if its plan rewrites what theirs
  did (`RetriesConverge`), as it does at the same HEAD with the same index.  With any other
  plans or HEADs it differs exactly where it leaves alone what the failed ones changed
  (`RetriesDifferExactly`); if only the index changed, that can be only where the last one
  has a gitlink or no longer lists the file (`StagingBetween`, `StagingBetweenFirst`).  A
  sync to another HEAD is wrong exactly where the failed one changed something that its
  own plan leaves alone (`FailedSyncHarmsExactly`, `OtherHeadExactly`,
  `RevertedFileStaysWrong`).
* **Sync, while HEAD moves.**  The code reads HEAD for the bytes and the pointer, and later
  again for the diff.  If HEAD moves in between, the sync can succeed exactly if what the
  diff pushes is in the HEAD read first (`RacePossibleExactly`); a next sync to the HEAD of
  the diff heals the race, but for what single syncs miss (`RaceHealsExactly`).  If HEAD
  moves back instead, the remote stays wrong (`AfterRaceExactly`, `RaceStays`).
* **Sync, quoted names.**  Git prints a name with quotes, backslashes, control characters or anything
  outside ASCII between quotes, and the code takes the quotes for a part of the name.  Such
  a file is never written and never deleted (`OddIsLeftAlone`, `DeletedOddStays`), and a
  diff that pushes one makes the plan impossible (`OddBlocksExactly`, `OddFileBlocks`).
* **Turn streaming.**  A usage frame is lost exactly if an attempt sends several, or
  ends without `done` or `error` after sending one (`UsageAccounted`,
  `EarlierFrameIsLost`, `FrameOfACutIsLost`).
* **Backend environment.**  The docstring says that removing `CLAUDE_CODE_SIMPLE` is
  unconditional on being keyless; the code removes it only for a Claude backend.
  Switching backends in one environment is the same as starting on the second one
  exactly unless this removal gets in between (`Switching`).
* **Sessions.**  A dropped session comes back at the first restart that can read its
  row, exactly if the row was deleted neither with the session nor by any call since and
  is still good (`DroppedComesBack`, `DroppedIsBack`); once a deletion got through, it
  never does (`DroppedStaysDropped`).  Rows without a session come from calls whose
  deletion failed, or from a restart that could not read (`StraysComeFrom`), and the
  good ones among them are all that a restart restores too much
  (`OnlyStraysComeBack`).
* **Write lock.**  The docstring says that two loops would get a lock each.  They get
  a new lock whenever the running loop changes, so with two loops taking turns, two
  tasks of the *same* loop can write at once (`InterleavedLoopsOverlap`); so can a
  task started inside a write, which inherits the flag (`SpawnedTaskOverlaps`).
  Exactly these two steps lose exclusion, at once or with the next step
  (`LeaksLoseExclusion`), and exactly they break the invariant (`StepKeeps`).
* **Bounded dictionary.**  The docstring speaks of the least recently *set* entry;
  `setdefault` on a key that is present moves it to the end as well, so the order is
  that of touches.

## Model

| member | source | states |
|---|---|---|
| TunnelSafety.StepKeeps | tunnel_manager.py:177-542 | Any step of any interleaving keeps the invariant (exact counts, one connect per machine, distinct ports, sound locks) exactly if it starts no second connect for a machine with one in flight |
| TunnelSafety.ReleaseKeeps | tunnel_manager.py:236-270 | Releasing any machine keeps the invariant: counts stay exact, and what is open stays registered and held |
| TunnelSafety.LandKeeps | tunnel_manager.py:456-532 | The outcome of a connect keeps the invariant, whether it succeeded or not and whether or not its machine still has an entry |
| TunnelSafety.HandshakeDoneKeeps | tunnel_manager_ssh.py:166-227 | The unconditional registry write clobbers nothing, because the transport lock is held |
| TunnelSafety.TakeLockKeeps | tunnel_manager_ssh.py:142-164 | Reusing a live connection under the lock counts one more holder of the same connection |
| TunnelSafety.TryConnectKeeps | tunnel_manager.py:411-454 | A new connect gets a port that no other connect and no forward has, and breaks the invariant exactly if the machine already has one |
| TunnelRuns.GuardStep | tunnel_manager.py:108-134 | While the guard covers every connect no step overlaps, and a step uncovers one exactly if it is a stop with a connect in flight |
| TunnelRuns.RunsAreSafe | tunnel_manager.py:177-542 | In every run whose stops find no connect in flight: counts equal holders and are at least 1, no connection is closed under a user or outlives its last holder, ports are distinct, one connect per machine |
| TunnelRuns.InvariantUnlessOverlap | tunnel_manager.py:108-134 | Whatever the stops do, the invariant holds throughout a run exactly if no step of it overlaps |
| TunnelRuns.CalmStopClosesEverything | tunnel_manager.py:108-134 | A stop with nothing in flight leaves no entry, no registration and no open connection |
| TunnelLeaks.OverlapLeaks | tunnel_manager.py:411-435 | Every step that starts a connect for a machine that has one in flight, whatever that one is at, can be continued to a count above the number of holders |
| TunnelLeaks.StopInFlightLeaks | tunnel_manager.py:119-122 | From any invariant world, a stop that finds a connect in flight, whatever it is at, and a reconnect can be continued to a count above the number of holders, as long as a port is left |
| TunnelLeaks.NeverLetGo | tunnel_manager.py:248-270 | A transport counted once too often is still registered, with the same connection and a count of one, when every machine has released it |
| TunnelRuns.ExhaustedPortsWedge | tunnel_manager.py:422-454 | An attempt leaves the guard set without a connect exactly if every port is taken |
| TunnelRuns.WedgedUntilStop | tunnel_manager.py:422-454 | A wedged machine stays wedged in every run without a stop |
| TunnelManager.Manager.FindPort | tunnel_manager.py:437-454 | The lowest port that is neither reserved nor listened on, which is reserved; none if there is no such port |
| TunnelManager.Manager.TryConnect | tunnel_manager.py:411-542 | The method takes the protocol's connect step: guard, port, task |
| TunnelManager.Manager.StopAll | tunnel_manager.py:108-134 | Stop releases every machine in dictionary order and clears guard and queue; nothing is left of the tables, and the guard still covers every connect exactly if none is in flight |
| TunnelEffects.ReleaseEffect | tunnel_manager.py:236-270 | A release removes the machine's entry and exactly its own claim; the connection is closed exactly if no other machine and no connect holds it, and the other transports are not touched |
| TunnelEffects.ReleaseAnyway | tunnel_manager.py:254-270 | In any world, one that leaked included: the last counted holder closes the registered connection, and a machine whose transport is not registered closes its own |
| TunnelEffects.RestartEffect | tunnel_manager.py:219-233 | A restart gives the claim back, puts an entry that claims nothing, and starts a connect on the lowest free port from 9000 to 9999 unless the machine is guarded or every port is taken; invariant and guard are kept |
| TunnelEffects.CommandEffect | tunnel_manager.py:177-233 | START adds an entry only if there is none and asks for a reconnect, STOP releases, RECONNECT restarts; the other machines, and all that the command is not about, are not touched |
| TunnelEffects.DrainEffect | tunnel_manager.py:149-163 | The loop takes the first command off the queue and carries it out: a drained STOP leaves no entry and gives the claim back, whatever the queue holds behind it |
| TunnelEffects.TakeLockEffect | tunnel_manager_ssh.py:142-164 | Under the transport lock a live connection is reused, open and with one more holder; without one nobody else is at the transport |
| TunnelEffects.HandshakeEffect | tunnel_manager_ssh.py:166-227 | A handshake registers its connection with one holder and replaces no registered one |
| TunnelEffects.FailureEffect | tunnel_manager_ssh.py:314-321 | A failed connect claims nothing, nor does its machine, and no count changes |
| TunnelEffects.LandEffect | tunnel_manager.py:456-532 | The claim goes to the machine's entry, which is then connected over an open connection and starts its backoff anew; if the entry is gone the claim is given back; a failure leaves no claim and every count as it was |
| TunnelEffects.FinishEffect | tunnel_manager.py:528-532 | The end of a landed connect frees its guard and its port, changes no entry and no count, and keeps invariant and guard |
| TunnelEffects.ProbeEffect | tunnel_manager.py:307-339 | A probe's result changes only the link of the entry it was started for; a machine that has another entry by now keeps it as it is |
| TunnelEffects.RetryEffect | tunnel_manager.py:382-392 | A retry waits for twice the machine's backoff, never less than two seconds nor more than sixty, and ends if the machine is gone |
| TunnelEffects.WakeEffect | tunnel_manager.py:392-408 | A retry that wakes restarts its machine, whatever happened while it slept, and keeps invariant and guard |
| TunnelEffects.RetryRound | tunnel_manager.py:365-408 | A retry that the tick spawns sleeps for the doubled backoff and then restarts its machine with it, if nothing comes between, and leaves no other trace |
| TunnelEffects.ProbeRound | tunnel_manager.py:307-339 | A probe's result reaches the entry for which the tick began it, and ends the probe |
| TunnelEffects.StopEffect | tunnel_manager.py:108-134 | A stop keeps the invariant, and the guard exactly if no connect is in flight; then no connection stays open |
| Plan.ValidatePlan | orchestrator.py:24-91 | Rows exactly for a plan without defects, else every defect and nothing else, item by item and in a fixed order, a cycle last; each row has its item's id and dependencies and, with no word lost, its title and prompt; the rows' graph is acyclic |
| Plan.CheckItem | orchestrator.py:47-87 | The faults reported for an item are exactly the faults it has |
| Plan.CycleFinder.Search | orchestrator.py:94-111 | The depth-first search answers true exactly if the graph has a directed cycle, self-loops and unknown targets included |
| Plan.CycleFinder.Visit | orchestrator.py:99-109 | A visit finds a cycle through its stack, or finishes its node after all that it reaches |
| Plan.HasCycleIn | orchestrator.py:94-111 | The same for the dictionary built from the rows |
| Text.CollapseMeaning | orchestrator.py:51-61 | A collapsed title is on one line and is empty exactly for blank titles |
| Text.CollapseKeeps | orchestrator.py:51-61 | The characters of a collapsed title are those of the title without white space, in order; neighbours stay together exactly if they were, and have one blank between them otherwise |
| Text.StripMeaning | orchestrator.py:51-63 | A stripped text is the text without some white space at either end, begins and ends with none, and is empty exactly for blank texts |
| Text.TrimsOnce | orchestrator.py:51-63 | There is only one such text |
| Graphs.OrderedIsAcyclic | orchestrator.py:94-111 | A list in which every node stands after its targets shows that there is no cycle |
| Scheduler.Verdict | orchestrator.py:842-864 | A turn succeeds exactly if it is done and its newest assistant message is not blank |
| Scheduler.TaskRun.BlockPass | orchestrator.py:793-802 | Blocking spreads to whatever depends on something failed or blocked; without a change nothing is left to block |
| Scheduler.TaskRun.ReadyTasks | orchestrator.py:804-808 | The ready tasks are exactly the pending ones with everything done that they depend on, in dictionary order |
| Scheduler.TaskRun.RunTasks | orchestrator.py:779-884 | The loop ends for every graph and all turn outcomes, each turn taken once and after all it depends on, with nothing left to do; the overall status counts the done tasks |
| Scheduler.OrderDoesNotMatter | orchestrator.py:779-876 | Two runs with the same outcomes end in the same statuses, whatever the dictionary order, for any graph |
| Scheduler.FullyDecided | orchestrator.py:779-876 | With known and acyclic dependencies no task stays pending, and each status is the recursive verdict |
| Scheduler.DecidesExactlyValidPlans | orchestrator.py:779-876 | When all turns succeed, everything is decided exactly if dependencies are known and acyclic |
| Scheduler.ValidatedPlansAreDecided | orchestrator.py:24-91 | A plan that validation accepts runs to the recursive verdict for every row |
| ChatTree.ReturnsToItself | chat_tree.py:56-77 | The walk answers true exactly if the chat lies on a parent cycle, and ends for every parent map |
| ChatTree.HostFor | chat_tree.py:84-109 | The bounded walk finds the nearest root at most three parents away |
| ChatTree.NearestRootExists | chat_tree.py:92-95 | Every chat that is no root has a nearest root above it |
| ChatTree.Placement | chat_tree.py:79-145 | A chat is an up-front root exactly without a parent or on a cycle; any other goes under its unique nearest root within three hops, or is promoted |
| ChatTree.BuildChatTree | chat_tree.py:40-162 | For every input with distinct ids the tree is built over the parents that the two rules give: the orchestrator that is another present chat, else the voice parent that is one, else none |
| ChatTree.ParentsByTheRules | chat_tree.py:43-54 | The parents that the composer looks up are those of the rules |
| ChatTree.OneParentMap | chat_tree.py:43-54 | The rules give one parent map only |
| ChatTreeLaws.EveryChatOnce | chat_tree.py:111-162 | Every input chat is shown exactly once, and nothing else is shown as a chat |
| ChatTreeLaws.SubagentsFirst | chat_tree.py:119-144 | Each node shows its own subagent rows, in order, and then only chats |
| ChatTreeLaws.RelationNamesTheRule | chat_tree.py:146-160 | A child is labelled orchestrator exactly if the membership rule placed it |
| ChatTreeShown.ShownAsNode | chat_tree.py:111-130 | A root, and a chat too deep for any root, is a node, at its place in input order, roots first |
| ChatTreeShown.ShownUnderHost | chat_tree.py:132-162 | Any other chat is a child of its root's node, with its id and title, at its place in input order, labelled orchestrator exactly if its orchestrator is another present chat |
| ChatTreeShown.UnderItsParent | chat_tree.py:43-54 | A chat that is no root stands under its parent by the rules if that is a root |
| ChatTreeShown.WithoutParent | chat_tree.py:43-54 | A chat for which neither rule names a present other chat is a root |
| ChatTreeLaws.OrderDoesNotMatter | chat_tree.py:52-82 | Permuting the input changes neither who is a node nor who hosts whom |
| RateLimit.Limiter.CheckAt | rate_limit.py:78-86 | The check takes the table's step and answers as the specification does |
| RateLimit.Limiter.CleanupAt | rate_limit.py:88-94 | Cleanup deletes exactly the buckets not refilled for two windows |
| RateLimitLaws.TokensBounded | rate_limit.py:44-56 | Tokens never leave 0 to capacity, in any run |
| RateLimitLaws.CleanupUnobservableExactly | rate_limit.py:78-94 | Cleanup changes no answer in any interleaving exactly if two windows refill every limit |
| RateLimitLaws.StingyObservable | rate_limit.py:88-94 | A limit that two windows do not refill has a run in which cleanup changes an answer |
| RateLimitLaws.ShippedWindows | config.py:94-100 | With the shipped limits that is any window of 31 seconds or more |
| RateLimitLaws.RateBound | rate_limit.py:44-56 | In any stretch of any run a key is allowed at most capacity plus rate times time |
| RateLimitExact.AllowedExactly | rate_limit.py:44-86 | A request is allowed exactly if the capacity is at least one and, counted from any earlier request of its key, the requests allowed with this one are at most the capacity plus rate times time; capacity and rate are the path's own, or else the whole default capacity over one window |
| RateLimitExact.AllowedExactlyWithCleanup | rate_limit.py:44-94 | The same with cleanups that cannot be observed |
| RateLimitLaws.RateBoundWithCleanup | rate_limit.py:78-94 | The bound holds with cleanups that cannot be observed |
| BenchmarkSweep.Store.ClassifyCells | benchmark_sweep.py:77-100 | Done, pending and dormant cells in matrix order, dormant first |
| BenchmarkSweep.GroupInOrder | benchmark_sweep.py:77-100 | Each matrix entry stands in the group of its kind, behind the entries of that kind before it in the matrix |
| BenchmarkSweep.Store.SweepIsComplete | benchmark_sweep.py:103-107 | True exactly if no cell is pending |
| BenchmarkSweep.Store.RecordFailure | benchmark_sweep.py:110-129 | One more consecutive failure, dormant from three on, and no measured column is touched |
| BenchmarkSweep.Store.WriteCell | benchmark_writer.py:26-63 | The measurement, a stamp, no failures and no dormancy; a voice cell keeps its latency |
| BenchmarkSweep.Store.RunNight | benchmark_sweep.py:251-335 | A night ends, attempts each cell at most once, in matrix order, and never after it expired or was busy; what it measured bears the time of its attempt, and it says truly how it ended |
| BenchmarkSweep.NeverRegresses | benchmark_sweep.py:110-145 | A done cell stays done, a dormant one dormant; a cell still pending has gained a failure if it was tried |
| BenchmarkSweep.PendingHasFailed | benchmark_sweep.py:110-129 | A cell still pending has failed in every night that tried them all |
| BenchmarkSweep.AtMostTwoFruitlessNights | benchmark_sweep.py:251-335 | In any number of nights at most two end with everything tried and something pending |
| BenchmarkSweep.ThreeNightsComplete | benchmark_sweep.py:251-335 | Of three nights that end neither busy nor expired, one completes the sweep |
| BenchmarkSweep.TwoNightsMayNot | benchmark_sweep.py:27-27 | Two such nights need not |
| TransportSync.ComputePlan | transport_sync.py:103-158 | Nothing at the same HEAD, on a first sync every file that the index lists but gitlinks, else what the diff says, whichever HEAD it was taken to; an error exactly if some path is unsafe |
| TransportSync.SafeMeaning | transport_sync.py:75-84 | A path is accepted exactly if it is not empty, does not begin with a slash, and nothing between its slashes and ends is two dots |
| TransportSyncLaws.PlanExactly | transport_sync.py:130-158 | A plan pushes exactly what the diff says was added, changed or renamed to, and sources of copies, and deletes exactly what it says was deleted or renamed from, gitlinks aside |
| TransportSyncLaws.MissedExactly | transport_sync.py:152-156 | A new file is missed exactly if every diff line about it is a copy to it |
| TransportSync.Remote.ApplyPlan | transport_sync.py:161-207 | All operations of the plan, or exactly those before the first missing blob or, if that comes earlier, before the broken transfer, with perhaps a torn file where a push broke, and the error that says which |
| TransportSync.Remote.SyncTransport | transport_sync.py:236-255 | A whole sync, with the bytes and the pointer of the HEAD read first and the plan of any diff and index: it succeeds exactly if every planned path is safe, HEAD has every file pushed and the connection lasts; on failure no new pointer, and the tree is that of the operations up to where it broke off, perhaps with a torn file |
| TransportSyncLaws.SyncConverges | transport_sync.py:127-158 | From the base commit's files a sync gives HEAD's files exactly if the diff changes nothing where the index has a gitlink and no file is new by copy only; untracked paths are left alone |
| TransportSyncLaws.GitlinkLeavesTheFile | transport_sync.py:149-151 | A regular file that becomes a gitlink stays on the remote |
| TransportSyncLaws.CopyIsNotPushed | transport_sync.py:149-156 | A new file listed as a copy is not pushed; its source is pushed again |
| TransportSyncLaws.SyncConvergesAtHead | transport_sync.py:127-158 | With an index that is as HEAD is, a sync gives HEAD's files exactly if no regular file became a gitlink and no file is new by copy only |
| TransportSyncRetries.RetriesConverge | transport_sync.py:161-207 | However many attempts fail, at whatever HEADs and wherever they break off, inside a file included, a success whose plan rewrites what theirs did leaves the tree of one undisturbed sync |
| TransportSyncRetries.RetriesDifferExactly | transport_sync.py:236-255 | After failed attempts with any plans and HEADs, a success leaves at a path what it leaves without them exactly if its plan rewrites the path or they left what was there |
| TransportSyncRetries.StagingBetween | transport_sync.py:117-156 | If only the index changes between attempts at one HEAD, they can matter only where the last index has a gitlink and an earlier one had none |
| TransportSyncRetries.StagingBetweenFirst | transport_sync.py:117-125 | Failed first syncs can matter only where an earlier index listed a file that the last one does not list, or lists as a gitlink |
| TransportSyncLaws.PushableExactly | transport_sync.py:130-156 | Every file of the plan exists in HEAD exactly if no copy's source is gone and the index has every gitlink of HEAD that the diff mentions |
| TransportSyncLaws.FirstSyncPossibleExactly | transport_sync.py:119-125 | Whatever the index lists, a first sync can succeed exactly if every listed file that is no gitlink is a file of HEAD |
| TransportSyncLaws.FirstSyncInstalls | transport_sync.py:119-125 | The first sync installs what the index lists, but for its gitlinks, as HEAD has it, and touches nothing else |
| TransportSyncLaws.FirstSyncCompleteExactly | transport_sync.py:119-125 | It leaves all of HEAD's files on every remote exactly if the index lists each of them and as no gitlink |
| TransportSyncLaws.FirstSyncAtHead | transport_sync.py:119-125 | So it does when the index is as HEAD is |
| TransportSyncLaws.StagedRemovalIsSkipped | transport_sync.py:119-125 | With a removal staged, the first sync has nothing to do and leaves out a file that HEAD has |
| TransportSyncLaws.StagedFileFails | transport_sync.py:195-203 | With a new file staged, the first sync cannot succeed |
| TransportSyncLaws.MissingStaysMissing | transport_sync.py:127-158 | A path that is missing on the remote is there after a sync exactly if the diff pushes it and the index has no gitlink there |
| TransportSyncRetries.OtherHeadExactly | transport_sync.py:236-255 | After any failed attempts, a sync from the same base sets a path right exactly if its plan rewrites the path or what they left there is what its HEAD has |
| TransportSyncRetries.FailedSyncHarmsExactly | transport_sync.py:236-255 | Where that sync alone would have been right, the failed one does harm exactly if it changed the path, by a whole or a torn file, and the new plan leaves it alone |
| TransportSyncRetries.RevertedFileStaysWrong | transport_sync.py:236-255 | A file pushed by a failed sync and then reverted stays wrong |
| TransportSyncRetries.RacePossibleExactly | transport_sync.py:109-158 | A sync whose diff was taken to a later HEAD can succeed exactly if every file it pushes, gitlinks of the index aside, is in the HEAD read first |
| TransportSyncRetries.AfterRaceExactly | transport_sync.py:236-255 | The sync after such a one sets a path right exactly if its plan rewrites it, or what the first left there, by its diff and the HEAD read first, is what its HEAD has |
| TransportSyncRetries.RaceHealsExactly | transport_sync.py:236-255 | A next sync to the HEAD of that diff leaves a path wrong exactly if the first diff missed it and the second plan does not rewrite it, or the first plan pushed it and the second diff missed it |
| TransportSyncRetries.RaceStays | transport_sync.py:109-127 | A change taken back during the sync and made again after it never reaches the remote |
| TransportSyncPaths.PrintedPossibleExactly | transport_sync.py:130-156 | However git prints paths, a plan is possible exactly if whatever a pushed path is read as is a file of HEAD or a gitlink of the index |
| TransportSyncPaths.PrintedSyncExactly | transport_sync.py:130-156 | However git prints paths, a path is right after a sync exactly if HEAD has no such file where it is deleted under a name read so, and otherwise it is pushed so or was right before |
| TransportSyncPaths.FirstPrintedPossibleExactly | transport_sync.py:119-125 | However git prints paths, a first sync can succeed exactly if each listed file is read as a file of HEAD, as a gitlink of the index or as nothing |
| TransportSyncPaths.OddIsLeftAlone | transport_sync.py:75-84 | No sync by a diff changes what the remote has at a path that git prints quoted |
| TransportSyncPaths.DeletedOddStays | transport_sync.py:188-193 | A deleted file with such a path stays, and the plan is possible all the same |
| TransportSyncPaths.OddBlocksExactly | transport_sync.py:75-84 | With such paths a plan is possible exactly if each plain pushed path is a file of HEAD or a gitlink of the index, and each quoted one is such a gitlink |
| TransportSyncPaths.OddFileBlocks | transport_sync.py:195-203 | A new file with such a path makes the plan impossible |
| TurnStream.StreamEvents | runner.py:1465-1526 | One attempt: usage is held back until its fate is known, everything else passes; it is thrown away, kept or cut as its end, its text and its last frame say |
| TurnStream.StreamTurn | runner.py:1453-1541 | One turn: which attempts are made, what is yielded and which frames are set aside |
| TurnRetries.RetriedExactly | runner.py:1478-1521 | An attempt is followed by another exactly if it is not the last allowed, its first terminal event is done, no text before that has a character that is no white space, and the tokens of its last frame before that (none without one) are fewer than the floor |
| TurnRetries.KeptExactly | runner.py:1453-1541 | The attempt that is kept is the first that is not so, or the last that is allowed |
| TurnRetries.FirstAnswerIsKept | runner.py:304-319 | The first attempt with text, with enough tokens or with an error is kept |
| TurnRetries.SumMeaning | runner.py:304-319 | The total of no tokens is 0, of one number itself, of two lists the sum of theirs |
| TurnRetries.SumUnique | runner.py:304-319 | There is only one such total |
| TurnRetries.HeldFrameIsLast | runner.py:1468-1476 | The frame held back is the last one sent, and none exactly if none was sent |
| TurnRetries.PassedInOrder | runner.py:1465-1526 | All other events are passed on, in order, and nothing else is |
| TurnRetries.NoticeAfterRetry | runner.py:1508-1521 | Each attempt thrown away adds its events and then one notice with the number of the next attempt and of the retries |
| TurnRetries.KeptAttempt | runner.py:1478-1529 | The kept attempt adds its events and, if it ended, its last frame and then its end |
| TurnStreamLaws.AttemptsMade | runner.py:1454-1455 | Exactly one number of attempts fits a turn, at least one and at most one more than the retries |
| TurnStreamLaws.OneEnding | runner.py:1478-1526 | A terminal event is yielded exactly if the last attempt ended with one: that one, as the last event, and no other |
| TurnStreamLaws.DeliveredText | runner.py:304-319 | The delivered text, stripped, is the stripped text of the last attempt |
| TurnStreamLaws.UsageAccounted | runner.py:1468-1525 | No usage frame is made up, and every frame is accounted for once and in order exactly if each attempt sends at most one and ends properly after it |
| TurnStreamLaws.EarlierFrameIsLost | runner.py:1468-1476 | Of two frames in one attempt only the later one is reported |
| TurnStreamLaws.FrameOfACutIsLost | runner.py:1526-1529 | The frame of an attempt that just stops is not reported |
| BoundedDict.BoundedDict.SetItem | runner.py:67-72 | An assignment leaves the contents that the whole history calls for |
| BoundedDict.BoundedDict.SetDefault | runner.py:74-79 | So does a default, which answers with the value that is there |
| BoundedDict.BoundedDict.Take | runner.py:280-301 | So does taking an entry out |
| BoundedDict.RunFollows | runner.py:42-79 | After any operations the dictionary holds exactly the keys that newer ones never crowded out, in touch order, with the value last assigned or inserted |
| BoundedDict.MostRecentlyTouched | runner.py:42-79 | Without pops: exactly the keys with fewer than maxsize distinct keys touched since |
| LineFramer.ReadLines | runner.py:906-919 | Lines with their newlines restored, and the rest, are the bytes read up to the end; no newline is left in any of them |
| LineFramer.ChunksDoNotMatter | runner.py:906-919 | Two readers give the same lines and rest exactly if they read the same bytes, wherever those were cut |
| LineFramer.LinesOnlyGrow | runner.py:912-917 | Lines once yielded are the first lines of whatever is read later |
| BackendEnv.ApplyTo | backend_env.py:56-62 | The result has exactly the set values, and of the rest what is not unset |
| BackendEnv.AsShell | backend_env.py:64-76 | The text is one unset or export line per change, in order |
| BackendEnv.DeltasOf | backend_env.py:92-154 | Each route variable is set or unset as the backend wants it, never both, and no other variable is mentioned |
| BackendEnvLaws.ShellAgrees | backend_env.py:56-76 | Evaluating the lines by the quoting rules of IEEE Std 1003.1 (sections 2.2.1 and 2.2.2) gives the environment of the map form, for every environment and every value, exactly if no value has a NUL |
| BackendEnvLaws.FeedEscaped | backend_env.py:73-75 | Between quotes an escaped value reads back as it was |
| BackendEnvLaws.RouteIsTheBackends | backend_env.py:108-154 | Endpoint, key and token that reach the CLI depend on the backend alone; a keyless Claude backend never sees the variable that disables its login |
| BackendEnvLaws.RouteInFull | backend_env.py:79-154 | Variable by variable: with provider `anthropic` or `claude_code` the trimmed key and beside a key the trimmed address, otherwise neither; never a token; no `CLAUDE_CODE_SIMPLE` with such a provider and no key; betas always off; all else as it was |
| BackendEnvLaws.TerminalAgrees | backend_env.py:1-31 | A terminal and a turn of one backend get the same environment, exactly if no NUL is in its key or address |
| BackendEnvLaws.Switching | backend_env.py:124-131 | Switching backends is the same as starting on the second, exactly unless the first removed a variable that the second leaves alone |
| SessionTable.SessionStore.LoadSessions | auth.py:308-345 | After a restart exactly the sessions that are still good on disk are accepted, none if it cannot be read; disk loses the rest |
| SessionTable.SessionStore.Sweep | auth.py:348-357 | All expired sessions go, and of the others as many as are over the limit, those that expire first |
| SessionTable.SessionStore.SessionNew | auth.py:360-382 | A swept table with one new session that has the given user, role, token and end, on disk too if the database is up, accepted if the configured times allow any; no other session changes, and memory and disk stay consistent |
| SessionOrigins.RecordsAreLogins | auth.py:360-410 | In every run, through requests, failures and restarts, what is held under a key in memory or on disk is the session of the last login under it: its user, role, token and end |
| SessionTable.SessionStore.SessionGet | auth.py:385-402 | A session is found exactly if it is there and fresh, and gone, on disk too if that can be deleted, if it has lapsed; its idle clock starts again, on disk too once it has drifted by a minute; no other session changes |
| SessionTable.SessionStore.SessionDrop | auth.py:405-410 | The session is accepted at no time, and a restart takes it up exactly if its row could not be deleted and is good then; no other session changes |
| SessionsLaws.RunsAreConsistent | auth.py:266-410 | In every run, whatever fails, memory and disk agree on user, role, end and token of a session they both hold, disk never ahead; no session outlives its absolute end |
| SessionsLaws.HealthyRunsStayInStep | auth.py:266-410 | Without failures: equal keys, a lag of at most 60 seconds, at most SESSION_MAX + 1 sessions |
| SessionsLaws.RestartsAreFaithful | auth.py:308-345 | Without failures a restart restores only sessions that memory would accept, all of those idle for no more than the limit less 60 seconds, and loses one exactly if its clock on disk has run out |
| SessionStrays.OnlyStraysComeBack | auth.py:308-345 | In any run, what a restart restores too much is exactly the rows still good that some call left behind when it took their session out of memory, and no call since deleted or restored |
| SessionStrays.StraysComeFrom | auth.py:290-345 | In any run, a row without its session is there exactly if some call took the session out of memory and left the row, by a failed deletion or a failed read, and no call since deleted it or took it up |
| SessionStrays.RowStays | auth.py:290-357 | Between two points of a run with no login under its key, a row stays exactly if no call in between deleted it, and with it goes the session |
| SessionStrays.DroppedComesBack | auth.py:405-410 | In any run, a dropped session is back at the first readable restart exactly if its row was deleted neither with it nor by any call since, and is still good |
| SessionStrays.DroppedStaysDropped | auth.py:405-410 | A dropped session whose deletion got through is nowhere at any later point of any run, failures and restarts included |
| SessionStrays.DroppedIsBack | auth.py:290-305 | Login, logout with a failed deletion, restart: the session is there again |
| SessionsLaws.GoneStaysGone | auth.py:405-410 | A session that is nowhere stays nowhere, restarts and failures included |
| SessionsLaws.FailuresAreInvisible | auth.py:282-285 | Until the next restart the same calls accept the same sessions, whichever statements fail |
| WriteGates.WriteGate.EnsureLock | db.py:49-71 | The lock of the running loop, made anew exactly when the loop has changed |
| WriteGates.WriteGate.Write | db.py:74-89 | Inside its own write a task goes straight in; otherwise, unless the lock is replaced, it waits exactly if a lock of its loop is in use; the invariant is kept exactly unless the call leaks |
| WriteGates.WriteGate.Finish | db.py:89-94 | The end of the outermost write, completed or failed, leaves no task of the loop in a write and no lock with this one; the end of a nested one touches no lock |
| WriteLockSafety.StepKeeps | db.py:49-94 | A step keeps the invariant exactly unless it starts a task inside a write or replaces a lock of its loop that is in use |
| WriteLockRuns.InvIsSafe | db.py:20-40 | One writer per loop; the flag is set exactly for lock holders, who are exactly the tasks in a write and never wait |
| WriteLockRuns.RunsAreSafe | db.py:49-94 | The invariant holds up to a point of a run exactly if no such step came before it |
| WriteLockRuns.SingleLoopIsSafe | db.py:56-66 | In a process with one loop, and no task started inside a write, two tasks never write at once |
| WriteLockRuns.NestedWriteNeverWaits | db.py:27-36 | A nested write goes straight in and touches no lock |
| WriteLockRuns.OutermostReturnFrees | db.py:89-94 | The end of the outermost write, and only that, frees the lock and clears the flag |
| WriteLockRuns.NoDeadlock | db.py:27-36 | While someone waits, the holder can return or the first waiter can go on |
| WriteLockRuns.NeverOvertaken | db.py:87-88 | Waiters are served in order |
| WriteLockRuns.LeaksLoseExclusion | db.py:49-94 | A step puts two tasks of one loop into a write, at once or with one more step that is no leak, exactly if it starts a task inside a write or replaces a lock of its loop that is in use |
| WriteLockRuns.InterleavedLoopsOverlap | db.py:63-71 | Two loops taking turns let two tasks of one loop write at once |
| WriteLockRuns.SpawnedTaskOverlaps | db.py:84-85 | A task started inside a write writes beside it |

## Left out

- TunnelManager.Manager.ProbeReturns: the tick visits one machine at a time in the code; here a probe may be about any entry that was ever connected, which allows more runs than the code has.
- TunnelManager.Manager.FindPort: a probe that times out or fails otherwise counts as a taken port; the time it takes is not modelled.
- TunnelManager.Manager.ConnectLands: the database writes of the connect are left out; a cancelled connect is not modelled.
- Plan.CycleFinder.Visit: Python's recursion limit is not modelled; a chain of about a thousand dependencies raises `RecursionError` in the cycle search.
- Plan.ValidatePlan: JSON parsing, and how ids and other values become strings, are not modelled; an item carries the string form of its id or position, and errors are tagged instead of worded.
- Scheduler.TaskRun.RunTasks: tasks start pending; the progress percentage, the prompts and the texts handed on are left out, and an exception raised while a turn is started is not modelled.
- BenchmarkSweep.Store.RunNight: the history of cells, the reorder flags and a measurement by hand are left out; time stamps taken in a sweep are no earlier than its start.
- TransportSync.Remote.ApplyPlan: remote directories, and a path that is a file on one side and a directory on the other, are left out.
- TransportSync.ComputePlan: a diff line is taken apart already; lines with too few columns are not modelled.
- TransportSyncLaws.SyncConverges: this law and those of retries and moving HEADs are about paths that git prints as they are and the code reads back unchanged; the others are the matter of `TransportSyncPaths`.
- TransportSyncPaths.OddBlocksExactly: files whose own name begins and ends with a quote are left out.
- TransportSync.Remote.SyncTransport: `git show` of a gitlink is taken to fail; if the other repository's commit is in the object database it prints that commit, and a gitlink that the index does not have is then pushed as a file with that text.
- TurnStream.StreamTurn: the checks before the first attempt, an inner stream that raises, and the loss of set-aside frames when ten thousand other chats come in between are left out.
- BoundedDict.BoundedDict.SetItem: a negative size is not modelled.
- BackendEnv.AsShell: the shell knows words, quotes and the two builtins; names are identifiers, and variables that are read-only or not exported are not modelled.
- SessionTable.SessionStore.Sweep: which of several sessions with the same expiry goes first is left open.
- SessionTable.SessionStore.SessionNew: the random id is a parameter, and the runs assume that it is new; hashing is left out, and so is a corrupt database file that is made anew.
- WriteGates.WriteGate.Write: threads are not modelled; loops take turns between suspension points.
- The older scheduler `TaskGraph` with `run_schedule_loop`: it leaves grandchildren of a failed task pending, so what is proved here does not hold for it.
- `run_turn`, the blocking twin of the turn stream: its own accounting of a turn that stopped arriving is not modelled.
- Rounding of floats, and clocks that run backwards.
- Request handling, subprocesses, terminals, schema migrations, the CRUD of the database, decision tables and galleries: long lists of branches or plumbing.
- The stages of a delegated task (`delegation_pipeline.py`), the memory check before new work (`resource_guard.py`) and the limit on open event streams (`shared.py`) are not part of this model.
