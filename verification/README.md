# Agent teams: a verified model of the runtime, session and store protocols

The system runs teams of agents. Each team has a session; each member of the session has a runtime (an agent process)
and an event loop; messages, tasks and rosters live in stores that several callers use at once. This project models the
parts that keep these things consistent and proves what every run of them keeps.

The pieces, from the centre outwards:

- **Member runtimes** (`MemberRuntime.dfy`, `MemberRuntimeRuns.dfy`, `MemberRuntimeLife.dfy`,
  `MemberRuntimeRegistry.dfy`). Every registry
  operation is a function from the state before its critical section to the state after it. The state holds every
  outcome channel ever created, so an invariant can speak about all waiters of a run. The class
  `MemberRuntimeRegistry` implements each operation in place and is proved equal to these functions. The run lemmas hold
  for every sequence of calls with any lease, current, stale or foreign. `MemberRuntimeLife` is a second account of the
  same life, in what callers see: snapshots, replies and outcomes. `OwnsAttachRace` splits `stop` where its flag is
  raised and its map is not yet drained, and treats the one read that happens outside the mutex.
- **The protocol around the registry** (`EventLoops.dfy`, `AttachProtocol.dfy`, `AttachResults.dfy`,
  `MemberProcesses.dfy`, `SessionProtocol.dfy`, `SessionEffects.dfy`, `MembershipMutexes.dfy`, `MutexLiveness.dfy`). Attach
  runs and session callers are program counters; any step of any of them, and any other call, may come between two
  steps. The proofs build on the invariants of the registry and of the event loop registry.
- **The bounded rebuild** (`Rebuild.dfy`). The scheduler is a set of methods with nondeterministic completion order,
  results and timer; what it did is a trace of launches, collections, panics, aborts and kills.
- **The stores** (`TaskGraph.dfy`, `TaskEffects.dfy`, `TaskCycles.dfy`, `TaskBoard.dfy`, `Mail.dfy`, `Inboxes.dfy`,
  `Mailbox.dfy`, `Projection.dfy`, `MessageProjection.dfy`, `Leases.dfy`, `IdleCleanup.dfy`, `Roles.dfy`, `Roster.dfy`,
  `RosterEffects.dfy`, `Provisioning.dfy`). One file holds the specification and the theorems over runs, one tells field
  by field what the operations store, and another has the loops and in-place updates, proved against the specification.
- **The frame codec** (`Frames.dfy`), with a class over a byte stream.

Generated ids are fresh numbers or opaque values; clocks, the conversation service's answers and the choice of what
finishes first are inputs. A section that runs under a lock is one step; every await is a point where others may run.

Several promises turned out to hold only under a condition. In each case the model keeps what the code does, one lemma
gives the condition, and another one, or the same, shows that the promise fails without it:

- Operation ids increase and are never 0 while fewer than 2^64 were drawn (`MemberRuntimeRuns.DrawnIdsIncrease`); then the
  counter wraps (`MemberRuntimeRuns.IdsAreFreshIff`).
- A losing attach run removes an event loop by slot, not by task, and can take away the loop of a replacement, leaving a
  ready member without a loop (`AttachProtocol.DroppingSparesOthersIff`, `AttachProtocol.ReadyMemberCanLoseItsLoop`).
- The late cleanup of a cancelled attach spares other sessions (`SessionProtocol.CleanupSparesReplacements`), but within
  its session it can kill the process of the retried attach, leaving a ready member without a process
  (`MemberProcesses.ReadyMemberCanLoseItsProcess`). It spares every process in service while its run still owns its lease,
  or the registry shows the slot neither ready nor attaching (`MemberProcesses.GuardedCleanupsSpare`). It takes the
  process of another run exactly when the slot is that run's and is ready, or attaching under that run's operation
  (`MemberProcesses.CleanupTakesInServiceIff`, `MemberProcesses.CleanupCanHurtIff`).
- Archiving and removing delete the membership mutex. Callers whose look-ups have such a deletion between them, and only
  those, can hold membership mutexes of one team at once (`MembershipMutexes.LookUpsAgreeIff`,
  `MembershipMutexes.OverlapNeedsDeletion`, `SessionProtocol.MembershipLocksCanOverlap`). Publication is safe all the same,
  as it relies on the ensure mutex.
- The kills that follow an archive, a removal or an idle stop are made without the ensure mutex. They can hit a
  replacement exactly while the team has a session published or starting (`SessionProtocol.StopIsOvertakenIff`,
  `SessionProtocol.GuardedStopsSpareSessions`, `SessionProtocol.StopCanKillAReplacement`).
- A failed rebuild settles every process it launched exactly when no job panicked: a panic returns before the
  compensating kills (`Rebuild.EveryLaunchIsSettledIff`, `Rebuild.PanicLeavesJobsUnsettled`).
- Overriding a task's blockers can make two tasks block each other for good (`TaskGraph.EntangledTasksStayBlocked`):
  completing a task frees those that it lists, and no others (`TaskGraph.CompletionLeavesBlockedIff`). The graph stays
  linked exactly under the overrides of `TaskGraph.UpdateKeepsLinksIff`, and without cycles exactly under those from whose
  blockers no chain leads back to the task (`TaskCycles.UpdateKeepsAcyclicIff`).
- A task created behind a completed blocker stays blocked until that is completed again
  (`TaskGraph.CompletedBlockersStillBlock`, `TaskGraph.RecompletionUnblocks`). No task waits for a completed one exactly as
  long as creations name unfinished blockers only (`TaskGraph.CreationWaitsInVainIff`,
  `TaskGraph.CarefulRunsWaitForOpenTasks`).
- The idle cleanup stops a team when it found no member leased, but a member can renew its lease after the cleanup asked
  for it, and is then killed with the lease still due (`IdleCleanup.KilledMemberIsLeasedIff`,
  `IdleCleanup.RenewedMembersCanBeKilled`).
- Clock readings that go back can lose a lease that is still due (`Leases.WrongAnswerIff`,
  `Leases.ClockGoingBackLosesALease`).
- The last-message writer can undo an addition, a removal, a rename or another agent's message
  (`Roster.MessageWriteSparesIff`, `Roster.OverlappingWriteIsUndoneIff`, `Roster.SuccessfulWritesCanBeUndone`).
- Dedupe keys tell messages apart when team and mailbox ids hold no colon, as no generated id does
  (`Projection.KeysTellMessagesApart`); ids with colons can make the keys of two messages equal
  (`Projection.KeysCanClash`).
- A payload of 2^32 bytes or more can pass for a shorter one (`Frames.RoundTripIff`, `Frames.HugeFramesAreMisread`).

## Model

| member | source | states |
|---|---|---|
| MemberRuntimeRegistries.MemberRuntimeRegistry.SeedReady | crates/team/src/member_runtime.rs:158-176 | an absent slot becomes ready; any other entry is left alone and the answer says whether it is ready; a stopped registry refuses |
| MemberRuntimeRegistries.MemberRuntimeRegistry.ReserveAttach | crates/team/src/member_runtime.rs:178-216 | an absent slot, or a failed one on retry, gets a fresh id, a pending channel and the lease; all others join what is there |
| MemberRuntimeRegistries.MemberRuntimeRegistry.ReserveRepair | crates/team/src/member_runtime.rs:223-276 | as for an attach, but a ready slot is opened again and a failed one is joined |
| MemberRuntimeRegistries.MemberRuntimeRegistry.OwnsAttach | crates/team/src/member_runtime.rs:278-286 | true exactly for the current lease of this generation |
| MemberRuntimeRegistries.MemberRuntimeRegistry.CommitReady | crates/team/src/member_runtime.rs:288-310 | the current lease makes its slot ready and settles its channel; any other lease changes nothing |
| MemberRuntimeRegistries.MemberRuntimeRegistry.CommitFailed | crates/team/src/member_runtime.rs:312-341 | the current lease records its failure on entry and channel; any other lease changes nothing |
| MemberRuntimeRegistries.MemberRuntimeRegistry.BeginRemove | crates/team/src/member_runtime.rs:343-385 | opens a removal, settles an attach under way as removed, joins a removal under way, leaves a recorded failure on its channel |
| MemberRuntimeRegistries.MemberRuntimeRegistry.FinishRemove | crates/team/src/member_runtime.rs:387-409 | the current removal empties its slot and settles its channel; any other lease changes nothing |
| MemberRuntimeRegistries.MemberRuntimeRegistry.RestoreAttachRequiredAfterRemovePersistError | crates/team/src/member_runtime.rs:416-449 | the current removal turns into a recorded failure; any other lease changes nothing |
| MemberRuntimeRegistries.MemberRuntimeRegistry.Snapshot | crates/team/src/member_runtime.rs:451-472 | the state of the slot; an operation id it reports is never the 0 that stands for an absent slot, below the wrap-around |
| MemberRuntimeRegistries.MemberRuntimeRegistry.Stop | crates/team/src/member_runtime.rs:474-488 | the first stop empties the map and settles exactly the operations in flight, in whatever order it drains; later ones do nothing |
| MemberRuntimeRegistries.DrainOne | crates/team/src/member_runtime.rs:474-488 | draining one entry settles one more operation and no recorded outcome |
| MemberRuntimeRuns.StepKeepsInv | crates/team/src/member_runtime.rs:158-488 | every operation keeps the channel accounting and changes no recorded outcome |
| MemberRuntimeRuns.ChannelAccounting | crates/team/src/member_runtime.rs:158-488 | in every reachable state a channel is pending exactly while one entry in flight holds it, and only one does |
| MemberRuntimeRuns.FallbackNeverFires | crates/team/src/member_runtime.rs:38-51 | while the registry lives a waiter blocks on a pending channel or returns the recorded outcome; the sender-dropped fallback is never taken |
| MemberRuntimeRuns.OutcomesAreWriteOnce | crates/team/src/member_runtime.rs:343-385 | what a waiter has returned at one point of a run, it returns at every later point |
| MemberRuntimeRuns.WaitersAgree | crates/team/src/member_runtime.rs:178-276 | two waiters with the same operation id, obtained anywhere in a run, share a channel and an outcome |
| MemberRuntimeRuns.DrawnIdsIncrease | crates/team/src/member_runtime.rs:490-492 | the ids that the attach and removal calls of a run draw are positive and strictly increase, as long as fewer than 2^64 were drawn |
| MemberRuntimeRuns.AtMostOneSettles | crates/team/src/member_runtime.rs:288-449 | of all commit, finish and restore calls of a run with one operation id, at most one succeeds |
| MemberRuntimeRuns.StartHandsOutCurrentLease | crates/team/src/member_runtime.rs:178-276 | a lease is current, with a pending channel, right after the call that handed it out |
| MemberRuntimeRuns.Superseded | crates/team/src/member_runtime.rs:343-385 | removal, a new attach on the slot and stop each end every earlier lease of the slot |
| MemberRuntimeRuns.FencedToTheEnd | crates/team/src/member_runtime.rs:278-341 | an attach lease that is not current never becomes current again |
| MemberRuntimeRuns.FencedForever | crates/team/src/member_runtime.rs:288-341 | no later commit of the run with such a lease succeeds |
| MemberRuntimeRuns.RemovalFencedForever | crates/team/src/member_runtime.rs:387-449 | once a removal lease is not current, no later finish or restore of the run with it succeeds |
| MemberRuntimeRuns.AccountedStays | crates/team/src/member_runtime.rs:288-385 | a lease of this registry is lost only together with a recorded outcome, with no bound on the number of operations |
| MemberRuntimeRuns.AttachEndsOnlyBy | crates/team/src/session.rs:1421-1471 | an attach under way ends only by its own commit, a removal of the slot or a stop; a caller that drops its lease early leaves it |
| MemberRuntimeRuns.RemovalEndsOnlyBy | crates/team/src/service.rs:711-764 | a removal under way ends only by its own finish or restore or by a stop; an early return of the remover leaves it |
| MemberRuntimeLife.SlotLife | crates/team/src/member_runtime.rs:158-488 | in every run each call changes what a slot shows as a table of snapshots says, and operation ids count the operations started |
| MemberRuntimeLife.RepliesFit | crates/team/src/member_runtime.rs:158-488 | in every run each call replies what a table says, by what its slot shows |
| MemberRuntimeLife.WaitersAreTold | crates/team/src/member_runtime.rs:38-51 | a waiter that was told keeps its answer; one that waits is told something exactly by the call that ends its operation, and what |
| MemberRuntimeLife.SettledWaitersAreTold | crates/team/src/member_runtime.rs:288-449 | an accepted commit, finish or restore tells every waiter of its operation, handed out at any time, Ready, the very failure, or Removed, to the end of the run |
| MemberRuntimeLife.CancelledWaitersAreTold | crates/team/src/member_runtime.rs:343-385 | a removal that cancels an attach tells all its waiters that the member is removed |
| MemberRuntimeLife.StoppedWaitersAreTold | crates/team/src/member_runtime.rs:474-488 | a stop tells those who still wait that the session is stopped, and changes no other answer |
| OwnsAttachRace.OwnsAttachIsLinearizable | crates/team/src/member_runtime.rs:278-286 | with the flag read at any earlier moment than the lock, the answer is that of an atomic check at the lock point |
| OwnsAttachRace.MicroRunIsARun | crates/team/src/member_runtime.rs:474-488 | with stop split in two, every state with a free lock is one that whole calls reach |
| EventLoops.LoopStepKeepsInv | crates/team/src/event_loop.rs:72-116 | after every call notifiers and handles have the same keys, each handle is a live task of its slot, and every task ever spawned is in the map or aborted |
| EventLoops.OneLoopPerSlot | crates/team/src/event_loop.rs:72-102 | in every run a slot has at most one task that was not aborted, and the maps know it |
| EventLoops.ShutdownIsFinal | crates/team/src/event_loop.rs:104-116 | after a shutdown the maps stay empty, every task is aborted and every spawn is refused, whatever is called |
| EventLoops.SpawnsAreExclusive | crates/team/src/event_loop.rs:72-94 | in every run a spawn brings up one new task of its slot exactly when the slot has none and nothing is shut down, says so, and touches no other task |
| EventLoops.RemovalsAreExact | crates/team/src/event_loop.rs:96-102 | in every run a removal ends the task of its slot and no other |
| EventLoops.EventLoopRegistry.Spawn | crates/team/src/event_loop.rs:72-94 | refuses after shutdown and for a registered slot, else registers one new task |
| EventLoops.EventLoopRegistry.Remove | crates/team/src/event_loop.rs:96-102 | takes the slot out of both maps and aborts its task |
| EventLoops.EventLoopRegistry.Shutdown | crates/team/src/event_loop.rs:104-116 | the first call aborts every registered task and empties both maps |
| AttachProtocol.ExecuteKeepsInv | crates/team/src/session.rs:1572-1760 | in every interleaving of any number of attach runs with any other calls: registry and loop invariants, and for each run that a lost lease is settled and a registered loop is dropped or still its own |
| AttachProtocol.WaitNeverBlocks | crates/team/src/session.rs:1606-1735 | whenever a run reaches its wait, on each of the four exits, the outcome is there and is what it returns |
| AttachProtocol.NineStepsFinish | crates/team/src/session.rs:1572-1760 | nine steps of its own are enough for a run to return, whatever happens in between |
| AttachProtocol.LosingRunLeavesNoLoop | crates/team/src/session.rs:1717-1735 | a run that lost its lease, or is no longer published, has aborted the loop it registered |
| AttachProtocol.DroppingSparesOthersIff | crates/team/src/session.rs:1717-1735 | that removal aborts no other run's loop exactly when the run's own loop is still alive or none is registered |
| AttachProtocol.ReadyMemberCanLoseItsLoop | crates/team/src/session.rs:1717-1723 | a concrete run, with a removal that could not be persisted and a retry, ends with a ready member that has no event loop |
| AttachResults.StartedByItsLease | crates/team/src/session.rs:1572-1598 | a run starts exactly with a reservation that hands out a lease, as the owner its slot shows |
| AttachResults.WarmupDecides | crates/team/src/session.rs:1598-1672 | a run whose warm-up failed ends as a failed one, whatever happens, and any other goes on to its ownership check |
| AttachResults.OwnershipDecides | crates/team/src/session.rs:1674-1677 | a run goes on to its loop exactly when the session is not stopped and the slot shows its operation; else it is overtaken for good |
| AttachResults.LoopDecides | crates/team/src/session.rs:1679-1715 | a run goes on to its commit exactly when its slot has a loop by then, its own exactly if there was none; after a shutdown of the loops it ends as failed |
| AttachResults.CommitDecides | crates/team/src/session.rs:1717-1723 | a commit makes the member ready exactly when the slot shows the run's operation; else it changes nothing and the run is overtaken for good |
| AttachResults.AttachedIffPublished | crates/team/src/session.rs:1729-1747 | in every run of events an attach run returns ready exactly when it was told that its session is still published, and gives up exactly when it was told that it is not |
| AttachResults.UnpublishedRunsWithdraw | crates/team/src/session.rs:1729-1735 | a run told so returns as stopped, with its own loop aborted and unregistered |
| AttachResults.CommitsAreReported | crates/team/src/session.rs:1606-1728 | an outcome committed by the owner is what the slot then shows, what all waiters are told to the end, and, when it is a failure, what the run returns |
| AttachResults.ReturnsWhatIsRecorded | crates/team/src/session.rs:1606-1735 | a run that waited returns what the waiters of its operation are told |
| AttachResults.CleansUpOnceUnlessAttached | crates/team/src/session.rs:1572-1780 | a run that has returned has been through the cleanup of its process exactly once, or never if it attached |
| MemberProcesses.ProcessLivesIff | crates/team/src/session.rs:1572-1780 | in every interleaving the process a warm-up brought up lives exactly until the first kill of its slot, cleanup by a run of the slot, or other warm-up |
| MemberProcesses.RunsMoveTheirProcess | crates/team/src/session.rs:1762-1780 | a cleanup leaves its slot without a process unless another session is published, a warm-up leaves its own, and no other slot sees either |
| MemberProcesses.GuardedCleanupsSpare | crates/team/src/session.rs:1762-1780 | a cleanup whose run still owns its lease, or whose slot is neither ready nor attaching in the registry, takes no process that serves the member |
| MemberProcesses.CleanupTakesInServiceIff | crates/team/src/session.rs:1762-1780 | the process of a run is taken from the member it serves exactly by the cleanup of another run while the slot is ready, or attaching under the first run's operation |
| MemberProcesses.CleanupCanHurtIff | crates/team/src/session.rs:1762-1780 | for some process in the slot a cleanup does so exactly when the registry shows another run of the slot as served |
| MemberProcesses.ReadyMemberCanLoseItsProcess | crates/team/src/session.rs:1606-1640 | a concrete run in which the late cleanup of a cancelled attach leaves a ready member without a process |
| SessionProtocol.ExecuteKeepsInv | crates/team/src/service.rs:896-1170 | in every interleaving of ensure, stop and cleanup callers: the ensure table and its owners, the published map, the runtimes and the session phases fit together |
| SessionProtocol.PublishNeverOverwrites | crates/team/src/service.rs:1069-1069 | at every insertion the team has no published session |
| SessionProtocol.EverySessionIsAccountedFor | crates/team/src/service.rs:946-1069 | a session ever started is published, stopped, being stopped, or bootstrapping under its team's ensure mutex |
| SessionProtocol.PublishedSessionsAreLive | crates/team/src/service.rs:1984-1989 | a published session is live, of its team, and nobody is starting or stopping it |
| SessionProtocol.CleanupSparesReplacements | crates/team/src/service.rs:1372-1393 | when a stale cleanup kills, no other session of the team is published or starting, so no replacement is hurt |
| SessionEffects.RuntimesChange | crates/team/src/service.rs:1355-1393 | the kill of a cleanup, of a failed start, of a stop or of a removal leaves its conversation without a runtime, and every other runtime as it was |
| SessionEffects.CleanupsKillOrYield | crates/team/src/service.rs:1372-1393 | a cleanup that has returned has met another published session of its team at its check, or left its conversation without a runtime |
| SessionEffects.CleanupKillsIff | crates/team/src/service.rs:1372-1393 | it goes on to its kill exactly when no other session of the team is published |
| SessionEffects.SessionsOnlyAge | crates/team/src/service.rs:946-1069 | sessions go one way from bootstrapping to stopped, and none comes back |
| SessionEffects.StopsTakeDown | crates/team/src/service.rs:1984-1989 | a stop leaves its team with nothing published, and the session it found is never published again and stopped for good |
| SessionEffects.StopsForgetIff | crates/team/src/service.rs:511-572 | a stop that archives or removes ends with the deletion of the team's membership mutex, and no other comes to it |
| SessionEffects.EnsuresServe | crates/team/src/service.rs:896-1170 | an ensure that has returned has seen its team with a published session, or the team missing, or a start or bootstrap fail; a whole-team ensure publishes only what it bootstrapped |
| MembershipMutexes.ExecuteKeepsMembers | crates/team/src/service.rs:896-1170 | in every interleaving: membership mutexes are handed out once, serve one team, and an owned one is held by its owner |
| MembershipMutexes.OneHolderPerMutex | crates/team/src/service.rs:896-903 | two threads never hold the same membership mutex |
| MembershipMutexes.LookUpsAgreeIff | crates/team/src/service.rs:511-534 | two look-ups of a team find the same mutex exactly when none of the team was deleted in between |
| MembershipMutexes.OverlapNeedsDeletion | crates/team/src/service.rs:511-534 | two callers hold membership mutexes of one team at once only if the mutex was deleted between their look-ups |
| MembershipMutexes.MutexExcludesUnlessForgotten | crates/team/src/service.rs:896-903 | in a run that neither archives nor removes a team, at most one caller holds a membership mutex of it |
| MutexLiveness.ExecuteKeepsEnsureOwners | crates/team/src/service.rs:946-1069 | in every interleaving an owned ensure mutex is held by its owner |
| MutexLiveness.StuckIff | crates/team/src/service.rs:896-1170 | a caller cannot get on exactly when it is finished or another thread holds the mutex it waits for |
| MutexLiveness.NobodyWaitsInVain | crates/team/src/service.rs:896-1170 | no deadlock: in every reachable state an unfinished caller can make a step, or waits, through at most one other thread, for an unfinished one that can |
| MutexLiveness.EverybodyCanFinish | crates/team/src/service.rs:896-1170 | from every reachable state, steps of the threads there that go well bring them all to their end, in a bounded number |
| SessionProtocol.MembershipLocksCanOverlap | crates/team/src/service.rs:511-534 | a concrete run in which two callers hold membership mutexes of one team |
| SessionProtocol.StopKillsHitIff | crates/team/src/service.rs:511-572 | the kills of a stopper that goes through this roster hit a session in use exactly when an agent of the roster has a runtime of such a session |
| SessionProtocol.StopIsOvertakenIff | crates/team/src/service.rs:511-572 | a late runtime that one of these kills would take from a session in use is possible exactly while the team has a session published or starting |
| SessionProtocol.GuardedStopsSpareSessions | crates/team/src/service.rs:1372-1393 | with nothing of the team published and its ensure mutex free, no kill after a stop hits a session in use |
| SessionProtocol.StopCanKillAReplacement | crates/team/src/service.rs:511-572 | a concrete run in which the kills after a stop remove the runtime of the published replacement |
| Rebuild.LeadsFirstIsStableSort | crates/team/src/service.rs:1513-1517 | the launch order is a permutation of the roster, leads first, each role in roster order |
| Rebuild.RebuildAgentProcesses | crates/team/src/service.rs:1503-1666 | for every completion order, result and panic: at most three jobs run, launches are a prefix of the order and end with the first collected failure, no job is left running, the result says whether all were launched and attached, and successes are killed once each, in collection order, after a failure |
| Rebuild.JobEnds | crates/team/src/service.rs:195-205 | a job of the set ends once, as collected, panicked or aborted, and the bounds hold on |
| Rebuild.JobsAreConserved | crates/team/src/service.rs:1531-1581 | every launched job is running, collected, or lost to a panic, exactly once |
| Rebuild.EveryLaunchIsSettledIff | crates/team/src/service.rs:1646-1666 | a failed rebuild has seen every launched agent fail or has killed its process, once each, exactly when no job panicked |
| Rebuild.PanicLeavesJobsUnsettled | crates/team/src/service.rs:1531-1581 | a concrete rebuild whose one job panics and is neither collected nor killed |
| Rebuild.SuccessAttachesTheWholeTeam | crates/team/src/service.rs:1531-1605 | a successful rebuild collected a success for every agent of the team, once, and killed nothing |
| TaskBoards.TaskStore.FindTaskById | crates/store/src/team_repo.rs:288-299 | the first row with this team and id |
| TaskBoards.TaskStore.UpdateTask | crates/store/src/team_repo.rs:301-325 | changes the given fields of the first row with this id, of whatever team |
| TaskBoards.TaskStore.AppendToBlocks | crates/store/src/team_repo.rs:337-351 | appends to what the row blocks unless it is there; says when there is no row |
| TaskBoards.TaskStore.RemoveFromBlockedBy | crates/store/src/team_repo.rs:353-369 | removes every occurrence from what blocks the row, keeping the order of the rest |
| TaskBoards.TaskStore.DeleteTasksByTeam | crates/store/src/team_repo.rs:371-378 | keeps exactly the rows of other teams, in order |
| TaskBoards.TaskBoard.CreateTask | crates/team/src/task_board.rs:31-73 | the loops compute the specified board and reply: nothing changes when a blocker is missing, else one row and its reverse edges |
| TaskBoards.TaskBoard.UpdateTask | crates/team/src/task_board.rs:75-105 | the loops compute the specified board and reply, including a completion that stops midway |
| TaskBoards.TaskBoard.CheckUnblocks | crates/team/src/task_board.rs:113-126 | edits the named rows one by one and stops at the first id without a row |
| TaskGraph.CreateSucceedsIff | crates/team/src/task_board.rs:39-44 | creation succeeds exactly when every blocker is a task of the team, and otherwise changes nothing |
| TaskEffects.CreationStores | crates/team/src/task_board.rs:46-73 | a successful creation stores and returns a pending task with an id of its own, the team, draft and blockers asked for, and no blocks; older rows change only in what they block, once each |
| TaskEffects.CreationRefuses | crates/team/src/task_board.rs:39-44 | on any board a refused creation names the first blocker that is not a task of the team, and changes nothing |
| TaskEffects.UpdateStores | crates/team/src/task_board.rs:75-126 | on any board with unique ids each given field gets its value and each other one keeps its own; a completion frees the tasks it lists up to the first without a row, which it then names |
| TaskEffects.MinusByPieces | crates/store/src/team_repo.rs:353-369 | taking an id out of a list goes at every occurrence and keeps the rest in order |
| TaskEffects.DeletionByPieces | crates/store/src/team_repo.rs:371-378 | deleting a team takes out its rows wherever they are and keeps the rest in order |
| TaskGraph.BoardsAreLinked | crates/team/src/task_board.rs:31-126 | every board reachable without overrides is linked: blockers exist, are older tasks of the team, and list what they block |
| TaskGraph.DeleteKeepsLinks | crates/store/src/team_repo.rs:371-378 | deleting a team leaves no dangling edge |
| TaskGraph.NoCycles | crates/team/src/task_board.rs:31-73 | chains of blockers go back in time within one team, so no task blocks itself at any distance |
| TaskGraph.UpdateUnblocks | crates/team/src/task_board.rs:75-126 | without overrides an update never fails on a task that is there, and takes a completed task out of every blocker list, repetitions included, leaving the rest in order |
| TaskGraph.CompletionFailsIff | crates/team/src/task_board.rs:113-126 | on any board a completion fails midway exactly when a task it is to unblock has no row |
| TaskGraph.UpdateKeepsLinksIff | crates/team/src/task_board.rs:75-90 | an update keeps the graph linked exactly when it overrides nothing or names only linked blockers |
| TaskGraph.CompletionLeavesBlockedIff | crates/team/src/task_board.rs:82-94 | on any board with unique ids, a completion that does not stop midway leaves a task blocked by the completed one exactly when it was blocked by it and the completed one does not list it |
| TaskGraph.BlockersAreWhatIsLeft | crates/team/src/task_board.rs:113-126 | after any run without overrides a task is blocked by what blocked it before, less what was completed, in order |
| TaskGraph.CompletingAllUnblocksAll | crates/team/src/task_board.rs:75-126 | a run that completes every task, in any order, leaves every blocker list empty |
| TaskGraph.CompletedBlockersStillBlock | crates/team/src/task_board.rs:39-44 | a task created behind a completed blocker is blocked by it |
| TaskGraph.RecompletionUnblocks | crates/team/src/task_board.rs:92-94 | completing that blocker again frees the task |
| TaskGraph.CreationWaitsInVainIff | crates/team/src/task_board.rs:31-73 | on a linked board where no task waits for a completed one, a successful creation keeps it so exactly when none of the blockers it names is completed |
| TaskGraph.UpdatesFreeWaiters | crates/team/src/task_board.rs:75-126 | an update without override always keeps it so |
| TaskGraph.CarefulRunsWaitForOpenTasks | crates/team/src/task_board.rs:31-126 | so in every run whose creations name unfinished blockers only and that overrides nothing, no task waits for a completed one |
| TaskGraph.OverridesCanEntangle | crates/team/src/task_board.rs:86-86 | two overrides make two tasks block each other |
| TaskGraph.EntangledTasksStayBlocked | crates/team/src/task_board.rs:86-94 | completing both leaves them blocked |
| TaskCycles.OverrideKeepsAcyclicIff | crates/team/src/task_board.rs:86-86 | new blockers keep a board of unique ids without cycles exactly when no chain of blockers leads from one of them back to the task |
| TaskCycles.UpdateKeepsAcyclicIff | crates/team/src/task_board.rs:75-126 | the same for a whole update, completing or not, that does not stop midway |
| TaskCycles.LinkedBoardsAreAcyclic | crates/team/src/task_board.rs:31-126 | boards reached without overrides are without cycles |
| Mailboxes.Mailbox.WriteMessage | crates/team/src/mailbox.rs:34-72 | appends one unread message with a fresh id |
| Mailboxes.Mailbox.PersistGroupMessage | crates/team/src/service.rs:2341-2377 | appends one message to the group address, already read |
| Mailboxes.Mailbox.ReadUnreadAndMark | crates/store/src/team_repo.rs:202-216 | returns exactly the unread messages of the agent in write order and flags exactly these in the store |
| Mailboxes.Mailbox.PeekMessages | crates/store/src/team_repo.rs:218-230 | returns exactly the unread messages and changes nothing |
| Mailboxes.Mailbox.MarkBatch | crates/store/src/team_repo.rs:232-240 | flags exactly the messages with these ids |
| Mailboxes.Mailbox.MarkAllUnreadForAgents | crates/team/src/mailbox.rs:100-115 | flags what is unread for these agents; an agent named twice is counted twice |
| Mailboxes.Mailbox.GetHistory | crates/store/src/team_repo.rs:253-268 | all messages of the agent, or the oldest ones up to the limit; a negative limit is none |
| Mail.StoreIsWhatWasWritten | crates/store/src/team_repo.rs:193-277 | in every run the store holds what was written and not deleted, in order, and a message is read exactly when written so, delivered or marked |
| Inboxes.UnreadChanges | crates/store/src/team_repo.rs:193-240 | in every run what each operation makes of every agent's unread list: a message arrives, with its sender and content, at the agent it is for and nowhere else, a group message nowhere, and reads and marks take out exactly what they should |
| Inboxes.HistoryChanges | crates/store/src/team_repo.rs:193-277 | in every run what each operation makes of every agent's history: a group message is kept under the group's address, read; nothing goes but with its team and nothing changes but flags |
| Mail.UnreadIsWhatIsLeft | crates/store/src/team_repo.rs:202-230 | in every run an agent's unread list is what was written to it less what was delivered or marked, in write order |
| Mail.DeliveredAtMostOnce | crates/store/src/team_repo.rs:202-216 | in every run no message is delivered twice, whoever reads |
| Mail.GroupMessagesAreNeverDelivered | crates/team/src/service.rs:2359-2377 | no run delivers a group message, not even to a reader of the group address |
| Mail.HistoryKeepsEverything | crates/store/src/team_repo.rs:253-268 | history is what was written to the agent, in order, with nothing changed but the flag |
| Mail.NoMessageIsLost | crates/team/src/mailbox.rs:74-96 | a stored message that was written unread is delivered, marked or waiting |
| Mail.MarkingPeekedSparesArrivals | crates/team/src/mailbox.rs:83-96 | marking what was peeked leaves every message that arrived since as it is, whatever else happened in between |
| MessageProjections.MessageStore.InsertMessage | crates/store/src/conversation_repo.rs:266-273 | inserts exactly when no row of any conversation has the id |
| MessageProjections.MessageStore.GetMessageByMsgId | crates/store/src/conversation_repo.rs:303-319 | the first row with this conversation, message id and type |
| MessageProjections.TeamMessageProjection.ProjectRequest | crates/team/src/message_projection.rs:157-249 | what one call does to rows and announcements when nothing comes in between |
| MessageProjections.UninterruptedIsThreeSteps | crates/team/src/message_projection.rs:157-249 | such a call is three steps of the interleaved model |
| Projection.ExecuteKeepsSound | crates/team/src/message_projection.rs:157-249 | in every interleaving of any calls: ids are unique, every row is the one its call built, every call's progress shows in the rows, and announcements fit |
| Projection.AtMostOneRow | crates/team/src/message_projection.rs:175-196 | however many eager and mirror calls run, at most one row has the key of a mailbox message |
| Projection.AnnouncedExactlyWhenInserted | crates/team/src/message_projection.rs:195-233 | an id is announced once when a teammate or system call has inserted its row and returned, and never otherwise |
| Projection.CallsAreTheRequests | crates/team/src/message_projection.rs:157-160 | every request has its call, in order |
| Projection.RowsAreOfTheirRequests | crates/team/src/message_projection.rs:195-233 | a row that a call inserted has its request's conversation, key, content and flag, and its side and sender by the source |
| Projection.SkippedIff | crates/team/src/message_projection.rs:157-170 | a call is skipped exactly when its request asks for no bubble; any other leaves a row with its id |
| Projection.ReturnedCallsLeaveTheirRow | crates/team/src/session.rs:702-706 | a visible call that returned, even with a conflict, leaves the row of its very message and conversation, built by a call for it |
| Projection.ConflictMeansAnotherCallWon | crates/store/src/conversation_repo.rs:266-273 | a conflict means that another call for the same key inserted the row |
| Projection.KeysTellMessagesApart | crates/team/src/message_projection.rs:119-121 | keys are equal exactly for equal messages, if team and mailbox ids hold no colon |
| Projection.KeysCanClash | crates/team/src/message_projection.rs:119-121 | with colons, keys of different messages can be equal |
| Leases.ActiveLeaseRegistry.RenewOne | crates/acp/src/lib.rs:268-275 | with any reading, the lease runs from then for its length, saturating at the largest time |
| Leases.ActiveLeaseRegistry.RenewEach | crates/acp/src/lib.rs:277-289 | with any reading, all named leases get one expiry and no other changes; repetitions are counted |
| Leases.ActiveLeaseRegistry.ActiveUntil | crates/acp/src/lib.rs:291-301 | with any reading, an expired lease is dropped on the way, and the answer differs from that of the latest renewal exactly when a lease still due was asked for too late before |
| Leases.DroppingIsInvisible | crates/acp/src/lib.rs:268-301 | as long as the readings do not go back in lock order, every answer is that of the latest expiries |
| Leases.WrongAnswerIff | crates/acp/src/lib.rs:291-301 | with any clock the answer is wrong exactly when a lease still due was asked for past its expiry before |
| Leases.ClockGoingBackLosesALease | crates/acp/src/lib.rs:291-301 | a concrete run of that kind |
| IdleCleanup.CleanupIdleTeams | crates/team/src/service.rs:1991-2078 | while sessions and runtimes change and others renew and ask for leases at any point: returns the idle conversations that no session it came by owns, in order and with repetitions; stops, in order, exactly the idle teams each of whose members was found without a lease at its own ask; kills exactly their members |
| IdleCleanup.AnyLeased | crates/team/src/service.rs:2030-2039 | asks for the members in roster order, while others renew and ask: a yes means that the last one asked for was told of a lease, a no that each was told of none at its own ask |
| IdleCleanup.UnownedCounts | crates/team/src/service.rs:2073-2077 | a conversation occurs in the returned list as often as in the input, or not at all when a session owns it |
| IdleCleanup.KilledMembersWereAskedFor | crates/team/src/service.rs:2030-2071 | a killed member belongs to an idle session, and was asked for by the cleanup and told of no lease |
| IdleCleanup.StoppedTeamsWereIdle | crates/team/src/service.rs:1991-2071 | a stopped session has an idle conversation, no run of its own, and no member at work or touched within the threshold |
| IdleCleanup.IdleTeamsAreSparedIff | crates/team/src/service.rs:2030-2039 | such a session is spared exactly when one of its members was told of a lease |
| IdleCleanup.KilledMemberIsLeasedIff | crates/team/src/service.rs:2030-2071 | as long as clock readings do not go back, a killed member has an active lease in the end exactly when it was renewed after its own ask and that lease is still due |
| IdleCleanup.RenewedMembersCanBeKilled | crates/team/src/service.rs:2030-2071 | a concrete run of that kind |
| Provisioning.ProvisionInitialAgents | crates/team/src/provisioning.rs:147-279 | succeeds exactly for a non-empty request with known roles and one lead whose conversations can be made; the roster is the lead and the teammates in request order |
| Provisioning.OneLeadIff | crates/team/src/provisioning.rs:158-171 | the list of leads has one entry exactly when one input and no other asks for the lead |
| Provisioning.LeadAndTeammatesAreGood | crates/team/src/provisioning.rs:207-262 | the first roster has unique slots and its lead id names the one lead |
| Provisioning.AgentsAreAsRequested | crates/team/src/provisioning.rs:173-262 | each input has its agent, with its name and conversation, at its place: the lead first, the others in request order |
| Provisioning.TeamRecord.Add | crates/team/src/provisioning.rs:281-317 | only a teammate can be added, and is appended with a fresh slot |
| Provisioning.TeamRecord.Remove | crates/team/src/service.rs:657-725 | removes the agent unless it is the lead or not there, keeping the others in order |
| Provisioning.TeamRecord.Rename | crates/team/src/service.rs:815-862 | renames unless the name is empty or taken by another agent, or the slot is gone |
| Provisioning.TeamRecord.PersistLastMessage | crates/team/src/service.rs:2294-2318 | stores the first 500 characters of the reply and its time for the agent, or nothing when the slot is gone |
| Roster.GoodMeansOneLead | crates/team/src/provisioning.rs:158-171 | a well-formed roster is one with exactly one lead, the agent that the lead id names |
| Roster.EveryStoredRosterIsGood | crates/team/src/service.rs:657-862 | in every interleaving of any writers, with no lock at all, every roster ever stored has unique slots and the one lead |
| Roster.RolesNeverChange | crates/team/src/provisioning.rs:344-369 | a slot has one role in all rosters of a team's history |
| RosterEffects.WritersStore | crates/team/src/service.rs:657-862 | an addition appends the teammate asked for, a removal takes out its slot, a rename and a message write change that one field of that one agent |
| RosterEffects.RemovalAcceptedIff | crates/team/src/service.rs:657-725 | on a roster with one lead a removal is accepted exactly for another agent of the roster |
| RosterEffects.RenameAcceptedIff | crates/team/src/service.rs:815-862 | with names apart a rename is accepted exactly for a name that is not blank, an agent that is there, and names still apart afterwards |
| RosterEffects.EveryRosterIsAChange | crates/team/src/service.rs:657-862 | in every interleaving every stored roster is what one writer made of an earlier one on which its checks passed, and a writer that has returned has stored such a change or was refused |
| Roster.MessageWriteSparesIff | crates/team/src/service.rs:2291-2318 | a last-message write changes nothing but that message exactly when the current roster is still the version read, up to that message |
| Roster.QuietWritersAreSpared | crates/team/src/service.rs:2291-2318 | it does so in every run in which no roster stored since the read changed anything else |
| Roster.OverlappingWriteIsUndoneIff | crates/team/src/service.rs:2291-2318 | one writer in between is undone exactly when its job is an addition, a removal, a rename to another name, or news of another agent |
| Roster.SuccessfulWritesCanBeUndone | crates/team/src/service.rs:2291-2318 | any such job can run with success in the window, and the write then restores the roster from before it |
| Roster.AdditionCanBeLost | crates/team/src/service.rs:2291-2318 | an addition that succeeds while that writer holds its copy is lost |
| Roster.RemovalCanBeUndone | crates/team/src/service.rs:2291-2318 | a removal that succeeds in that window is undone |
| Roster.RenameCanBeUndone | crates/team/src/service.rs:2291-2318 | a rename that succeeds in that window is undone |
| Frames.RoundTripIff | crates/team/src/mcp/protocol.rs:86-104 | a written frame comes back and the stream goes on behind it exactly for payloads of at most 10 MiB |
| Frames.ReadAllIff | crates/team/src/mcp/protocol.rs:86-104 | a sequence of written frames is read back whole exactly when every payload is within the bound |
| Frames.LargeFramesAreRefused | crates/team/src/mcp/protocol.rs:88-93 | payloads above the bound and below 2^32 bytes are refused |
| Frames.HugeFramesAreMisread | crates/team/src/mcp/protocol.rs:99-104 | from 2^32 bytes on a payload can be read as a shorter one, its rest as further frames |
| Frames.WrittenOfRead | crates/team/src/mcp/protocol.rs:86-97 | a frame that was read and the rest of the stream determine the bytes of the stream |
| Frames.CutFramesEndTheStream | crates/team/src/mcp/protocol.rs:86-97 | a stream that ends anywhere inside a frame gives an end-of-stream error |
| Frames.NumberRoundTrip | crates/team/src/mcp/protocol.rs:87-101 | the four-byte big-endian length comes back |
| Frames.HeadersInOrderIff | crates/team/src/mcp/protocol.rs:99-104 | headers are in dictionary order exactly as their lengths are: the most significant byte comes first |
| Frames.ByteStream.ReadFrame | crates/team/src/mcp/protocol.rs:86-97 | reads one frame in place as specified, errors and consumed bytes included |
| Frames.ByteStream.WriteFrame | crates/team/src/mcp/protocol.rs:99-104 | appends the cut length and the whole payload |

## Left out

- The work coordinator, the team run manager, the scheduler and the tool server: their calls inside the modelled
  procedures touch neither the registries nor the stores, and are left out of them; so is `prepare_next_batch`.
- Process spawning, sockets, HTTP routes and the user interface: input and output.
- JSON: stored lists and rosters are sequences; a row that fails to parse is not modelled, so the mailbox is taken to
  hold only message types that parse.
- Timestamps of rows, message summaries, attached files, workspaces, models and back ends: carried along, never decided on
  by the modelled code.
- MutexLiveness.NobodyWaitsInVain: callers that take the membership mutex but never the ensure mutex (adding, renaming and
  removing an agent, status refreshes) are not threads of the session protocol.
- SessionEffects.RuntimesChange: the roster that the kills after a failed start or a stop go through is not part of the
  session's state; each kill is exact, but how many there are is left open, as the ones after a stop are given up after
  three seconds.
- The second time a reconciliation takes the membership mutex, after its attaches have finished: it publishes status only.
- A task board used by several callers at once: creation and completion are not atomic there, and nothing is promised.
- Deleting the messages of a conversation while projections run: a message can be projected again after it.
- Stripping system notes from user text before it is stored: a user interface helper; the row holds the text it is given.
- Rebuild.RebuildAgentProcesses: the stagger time and the log are not modelled; the timer fires at an arbitrary moment.
- IdleCleanup.CleanupIdleTeams: a session that the iteration over the live sessions does not come by is not seen, and the
  stop at the end, which goes by team, is that of `SessionProtocol`.
- Provisioning.ProvisionInitialAgents: the choice of back end, assistant and workspace is folded into the conversation
  service's answer.
- Provisioning.TeamRecord.Rename: the normalised form of a name is given with the name, as Unicode lower-casing is not modelled.
- Roster.EveryStoredRosterIsGood: archiving and ownership checks only make writers fail earlier, and are left out.
