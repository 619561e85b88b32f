# Execution orchestrator: a Dafny model

This project models the durable protocols of an execution orchestrator that runs coding
agents in bounded storage, and proves what they promise over whole runs. It covers
four protocols and four algorithms.

- **Execution storage** (`StorageTypes`, `ExecutionStorage`): the lifecycle of one
  execution's volume over a phase journal, an LVM pool, a mountpoint, a release tombstone
  and a shared/exclusive lease. Every step may fail or crash, before or after it took
  effect. The class `Storage` states what each whole call achieves and leaves behind.
- **Interleaved storage runs** (`StorageRuns`, `OwnershipRuns`, `StorageSchedules`): any
  number of allocate, release, acknowledge and lease calls of one execution, step by step in
  any order. `Call` is where a call stands and what it has read, `Intent` the step it takes
  next, `Execute` what the step does and `After` where it leads; backend steps are those of
  `ExecutionStorage`. `LooksAreHeeded` says what each call refuses, `LeaseExclusion` and
  `NoOrphans` are the run theorems. `StorageSchedules` holds the runs that their conditions shut out.
- **Claims and cleanup** (`Scheduler`, `Cleanup`, `Claims`): the reservation, execution,
  attempt, authority and worker tables as maps, one atomic method per transaction.
  `Database.AnyRun` is the run theorem: one owner at a time, conservation of the worker
  counters, and cleanup ranks that never decrease. `FinalizeAgain` is idempotence of the
  finalization across any other transactions.
- **Metadata directory** (`Strings`, `TemporaryNames`, `MetadataDirectory`): records that
  are whole at every cut, and a listing that is exactly the logical record map.
- **Event pipelines** (`PiEvents`, `EventStream`): incremental polling equals one pass, and
  a resumable stream replays a gapless log exactly.
- **Algorithms** (`Health`, `Sha256`, `Redaction`, `Branches`): pause transparency and exact
  verdicts, SHA-256 against FIPS 180-4, the exact condition under which the redaction loop
  ends, and branch exclusivity.

A call with `reliable` set meets no failing step and no crash; contracts use it to say what a
call achieves when every step works. Methods named `AnyRun` call every operation with arbitrary
arguments in arbitrary order; their postconditions hold in every reachable state.

## Findings

- The lease exclusion promised for a Ready allocation fails in two ways. If the Ready record
  is written but the write reports a failure, `allocate` rolls it back under a lease taken in
  between (`TornPublication`, and after every such write `TornIsFatal`). And nothing keeps two
  `allocate` calls of one execution apart: with every step working, the second may write over
  the Ready record of the first and remove its mounted volume (`OverlappingAllocations`).
  Without either it holds in every interleaving (`LeaseExclusion`).
- An `allocate` beside a `release` may lose its journal to it and leave a volume that no
  journal names (`AllocationBesideRelease`). No volume is orphaned where allocations run
  beside no other allocation and no release with the lock (`NoOrphans`).
- An `allocate` that read no tombstone before a whole `release` of the same execution allocates
  anew under the tombstone which that release leaves (`AllocationPastTombstone`). From then on
  neither `release` nor `ack_release` nor `allocate` can change anything (`JammedForever`).
- A crash between creating the mountpoint and creating the journal leaves a mountpoint
  without a journal (`CutStrands`), and that execution is shut out for good
  (`StrandedForever`).
- A repeated `finalize_cleanup` may answer differently: an execution that was queued again
  and cancelled while it waited is then reported as given up (`CancelledBetween`). The exact
  condition is `StillDescribes` in `FinalizeAgain`.
- A poll that stops after saving its cursor takes its events with it (`UnreportedExit`).
- `finalize_cleanup` may answer Requeued about an execution that stays where it was, exactly
  when a cancellation is pending (`OutcomeIsStable`).
- The authority row of an execution keeps its first attempt, so an execution can be claimed
  at most twice (`InvMeansSingleOwner`).
- The redaction loop does not end on a buffer that holds a secret which is itself a part of
  the marker (`EndsExactly`).
- An event recorded while the monitor is paused is dated after the resumption
  (`EventDuringPauseIsPostdated`).

## Model

| member | source | states |
|---|---|---|
| `StorageTypes.ReceiptJournals` | crates/execution-storage/src/model.rs:344-425 | a Ready or Releasing journal built from a receipt passes validation if and only if the receipt does, for the same execution |
| `StorageTypes.BytesExactly` | crates/execution-storage/src/model.rs:27-36 | requests of 1 to 2^34 - 1 GiB are exactly those with a byte count, and what it is |
| `StorageTypes.IdentityExactly` | crates/execution-storage/src/model.rs:134-206 | an identity is valid if and only if no field is empty, a created LVM one up to its filesystem UUID |
| `StorageTypes.ReceiptExactly` | crates/execution-storage/src/model.rs:229-276 | a receipt is valid if and only if it is this version's, these labels' and this root's, with nothing empty or zero |
| `StorageTypes.JournalExactly` | crates/execution-storage/src/model.rs:376-425 | a journal is valid if and only if it is this version's and this execution's, nothing is empty or zero, and phase, identity, receipt and release phase belong together |
| `StorageTypes.PreparedExactly` | crates/execution-storage/src/manager.rs:752-783 | a prepared identity differs from the created one by a new filesystem UUID and by nothing else; the result is a complete identity |
| `ExecutionStorage.StateExactly` | crates/execution-storage/src/lvm.rs:151-229 | when the backend answers Absent, Mounted and Unmounted, each if and only if, over volumes and mount; everything else is refused |
| `ExecutionStorage.DiscoveredExactly` | crates/execution-storage/src/lvm.rs:256-307 | found is exactly the volume with the token's name, tag and size; none exactly if no volume has name and tag |
| `ExecutionStorage.RemovalExactly` | crates/execution-storage/src/lvm.rs:457-516 | unmounting and removal act on the recorded volume, when they take effect, and on no other; anything else is refused, and without a filesystem UUID unmounting does nothing |
| `ExecutionStorage.Storage.QueryState` | crates/execution-storage/src/lvm.rs:440-456 | the backend's answer for an identity, or a failed command, with nothing changed |
| `ExecutionStorage.Storage.Discover` | crates/execution-storage/src/lvm.rs:256-307 | the one volume that carries the token's tag, without a filesystem UUID; None only if there is none, and a refusal when its size is another |
| `ExecutionStorage.Storage.CreateVolume` | crates/execution-storage/src/lvm.rs:308-372 | a new volume under the token's name and tag, or none; refused when the name is taken or the bytes are no whole number of extents; succeeds otherwise when the step works |
| `ExecutionStorage.Storage.PrepareVolume` | crates/execution-storage/src/lvm.rs:373-402 | only filesystem UUIDs change; on success the returned identity is the old one with the UUID now on the volume |
| `ExecutionStorage.Storage.MountVolume` | crates/execution-storage/src/lvm.rs:403-439 | on success exactly this filesystem is mounted; otherwise the mount is unchanged or is this volume's |
| `ExecutionStorage.Storage.UnmountVolume` | crates/execution-storage/src/lvm.rs:457-487 | nothing is unmounted but by this step; works whenever the volume is the recorded one and mounted |
| `ExecutionStorage.Storage.RemoveVolume` | crates/execution-storage/src/lvm.rs:488-516 | at most the named volume disappears; records whether it was mounted or not the journal's own |
| `ExecutionStorage.Storage.StateIsTruthful` | crates/execution-storage/src/lvm.rs:151-229 | in every safe state the backend's answer for the journal's identity is the physical state, although an empty UUID makes it answer without looking at the mounts |
| `ExecutionStorage.Storage.WriteJournalWith` | crates/execution-storage/src/journal.rs:608-653 | an exchange that is applied or not, whatever it reports; a lease held while a Ready record goes away is noted |
| `ExecutionStorage.Storage.CreateJournal` | crates/execution-storage/src/journal.rs:553-597 | a valid journal, or none; never over an existing one |
| `ExecutionStorage.Storage.RemoveJournal` | crates/execution-storage/src/journal.rs:699-718 | the journal is gone on success and untouched or gone otherwise |
| `ExecutionStorage.Storage.CreateTombstone` | crates/execution-storage/src/manager.rs:1049-1052 | the receipt becomes the tombstone only where there was none |
| `ExecutionStorage.Storage.RecordPhase` | crates/execution-storage/src/manager.rs:556-576 | the release phase in the journal never runs ahead of the mounts and volumes |
| `ExecutionStorage.Storage.UnmountAndRecord` | crates/execution-storage/src/manager.rs:548-562 | after success the volume is seen unmounted before the phase says so |
| `ExecutionStorage.Storage.RemoveAndRecord` | crates/execution-storage/src/manager.rs:563-577 | the volume removed is unmounted and the journal's own; after success it is seen absent before the phase says so |
| `ExecutionStorage.Storage.EraseVolume` | crates/execution-storage/src/manager.rs:540-582 | from any cut the volume is gone after success, no removal was wrongful, and the phases left never grow |
| `ExecutionStorage.Storage.DropMountpointAndJournal` | crates/execution-storage/src/manager.rs:583-584 | the journal is removed only after the mountpoint, and both only when no volume is left |
| `ExecutionStorage.Storage.CleanupIdentity` | crates/execution-storage/src/manager.rs:540-585 | success leaves nothing behind; failure or crash leaves a state from which the same cleanup can be repeated; it succeeds when every step works |
| `ExecutionStorage.Storage.RecordIdentity` | crates/execution-storage/src/manager.rs:684-685 | the journal names the identity before it is cleaned up |
| `ExecutionStorage.Storage.RollbackAllocation` | crates/execution-storage/src/manager.rs:662-698 | the cause is reported only if nothing is left behind; otherwise CleanupFailed or a crash; invariant and removals stay right |
| `ExecutionStorage.Storage.AuthenticateCleanup` | crates/execution-storage/src/manager.rs:400-454 | success means the receipt is the journal's and the answer is the physical state |
| `ExecutionStorage.Storage.RecoverExisting` | crates/execution-storage/src/manager.rs:587-646 | a Ready journal, the journal of other labels or another size, and a release with another daemon's bind proof are refused with nothing changed; anything else is removed completely; when every step works it succeeds exactly for the others |
| `ExecutionStorage.Storage.RecoverReleasing` | crates/execution-storage/src/manager.rs:605-616 | a release that was cut off is finished for this daemon only; another daemon's is refused with nothing changed |
| `ExecutionStorage.Storage.CreateAndRecord` | crates/execution-storage/src/manager.rs:838-872 | the identity is durable before anything is prepared; a reported failure leaves nothing behind unless the cleanup failed |
| `ExecutionStorage.Storage.PrepareAndRecord` | crates/execution-storage/src/manager.rs:873-905 | the filesystem UUID is durable before anything can mount the volume |
| `ExecutionStorage.Storage.PublishReady` | crates/execution-storage/src/manager.rs:927-997 | Ready is written last, over a mounted volume with a matching bind proof and an existing lease file, and says exactly what was requested and proven |
| `ExecutionStorage.Storage.MountAndPublish` | crates/execution-storage/src/manager.rs:906-1001 | success means Ready with exactly the prepared identity; failure means nothing left, a failed cleanup or a crash |
| `ExecutionStorage.Storage.OpenFresh` | crates/execution-storage/src/manager.rs:823-837 | the Allocating journal stands over its mountpoint, or there is no volume and at most one of the two; refused over an existing mountpoint; a failed journal makes it try to give the mountpoint up |
| `ExecutionStorage.Storage.AllocateFresh` | crates/execution-storage/src/manager.rs:823-1001 | the new allocation carries the new token, the requested bytes and labels and the host's proof; an existing mountpoint is refused |
| `ExecutionStorage.Storage.Allocate` | crates/execution-storage/src/manager.rs:801-1001 | a tombstoned or Ready execution and the journal of a different request are refused with nothing changed; when every step works it succeeds if and only if nothing of that kind is there, the host is suitable and has the bytes, and they are whole extents; an incomplete or too small host changes nothing; the receipt is the requested one |
| `ExecutionStorage.Storage.BeginRelease` | crates/execution-storage/src/manager.rs:1042-1058 | the tombstone is written before the journal turns to Releasing, both under the exclusive lease; a receipt that is not the journal's own changes nothing |
| `ExecutionStorage.Storage.TombstoneMeans` | crates/execution-storage/src/manager.rs:1008-1026 | a tombstone's receipt is still the journal's, or everything it describes is gone |
| `ExecutionStorage.Storage.ReleaseLocked` | crates/execution-storage/src/manager.rs:1036-1065 | success means tombstone = receipt and nothing physical left; a receipt that is not the journal's own, or another daemon's, is refused with nothing changed; the lock is dropped however the call ends |
| `ExecutionStorage.Storage.Release` | crates/execution-storage/src/manager.rs:1003-1065 | under a lifecycle hold, under a lease, under another tombstone and for any receipt but the journal's own nothing changes; otherwise crash-resumable: the phases left never grow, and one call in which every step works finishes the release from any cut of an earlier one; marks a release that changed anything while held |
| `ExecutionStorage.Storage.ReleaseUnlessHeld` | crates/execution-storage/src/manager.rs:1003-1035 | the same, as long as the mark is not looked at: success while held only for what was already released |
| `ExecutionStorage.Storage.AckRelease` | crates/execution-storage/src/manager.rs:1067-1105 | when every step works it succeeds if and only if the tombstone is absent or this receipt's, the path is absent and the backend says Absent; otherwise the tombstone stays |
| `ExecutionStorage.Storage.AcquireReadyLease` | crates/execution-storage/src/manager.rs:709-723 | granted only if, and when every step works exactly if, the lease file is not locked for release, the journal is Ready for this receipt and the bind proof is unchanged; the backend test never refuses such an allocation |
| `ExecutionStorage.Storage.SafeMeansOwned` | crates/execution-storage/src/manager.rs:801-1001 | every volume carries the journal's token, and whatever is mounted has its filesystem UUID in the journal |
| `ExecutionStorage.Storage.AnyCall` | crates/execution-storage/src/manager.rs:801-1105 | every whole call with any arguments, failures and crashes, among lease holders, keeps the invariant |
| `ExecutionStorage.Storage.AnyRun` | crates/execution-storage/src/manager.rs:540-1105 | calls one after the other, each cut anywhere, among lease holders and lifecycle holds: no orphaned volume, no wrongful removal, and no release changes anything under a hold; no held lease is disturbed without a torn Ready publication |
| `StorageRuns.FatesAreTold` | crates/execution-storage/src/journal.rs:608-653 | a step that takes effect and fails is told so, a crash is not; a step without effect changes nothing |
| `StorageRuns.NothingIsOverwritten` | crates/execution-storage/src/journal.rs:553-718 | no step writes over a journal it should create or creates one it should write, none writes an invalid one, changes a tombstone or takes a mounted mountpoint away; what is answered has been done |
| `StorageRuns.BystandersOnlyLook` | crates/execution-storage/src/manager.rs:801-815 | calls that have not yet acted on a journal, acknowledgements and lease holders change nothing but a tombstone that they remove |
| `StorageRuns.OnlyPublishMakesReady` | crates/execution-storage/src/manager.rs:993-996 | of all steps of all calls only the publication makes a journal Ready |
| `StorageRuns.RolesAreEarned` | crates/execution-storage/src/manager.rs:587-646 | a call gets an allocation under way only past a journal that is absent or not Ready, and a lock only by asking for it |
| `StorageRuns.LeasesLookFirst` | crates/execution-storage/src/manager.rs:360-379 | a lease is granted only past a Ready journal of the receipt and a mounted backend |
| `StorageRuns.StepKeepsLocks` | crates/execution-storage/src/manager.rs:714-720 | under any interleaving at most one release has the lease file, and then no consumer has |
| `StorageRuns.OthersStayInformed` | crates/execution-storage/src/manager.rs:709-1065 | a step of one call leaves what every other call relies on, and every held lease, as it was, unless it publishes beside another allocation |
| `StorageRuns.StepKeepsLease` | crates/execution-storage/src/manager.rs:540-1105 | every step of every call, with any outcome, keeps the lease invariant |
| `StorageRuns.RunKeepsLease` | crates/execution-storage/src/manager.rs:540-1105 | the lease invariant over every interleaving from the empty state |
| `StorageRuns.LooksAreHeeded` | crates/execution-storage/src/manager.rs:587-1105 | every look of every call, step by step: it changes nothing, and the call goes on if and only if the step works and the state is one it asks for (tombstone, request, configuration, daemon, capacity, path, hold, lock, receipt, backend state, each spelled out) |
| `StorageRuns.ProofsAreHeeded` | crates/execution-storage/src/manager.rs:906-977 | an allocation goes on to its publication only past a mount that is seen and a suitable bind proof |
| `StorageRuns.FailuresAreUndone` | crates/execution-storage/src/manager.rs:834-1000 | an allocation that is told of a failure once its journal may be there gives its root up, searches for its volume or rolls it back |
| `StorageRuns.LastStepsExactly` | crates/execution-storage/src/manager.rs:662-698 | a rollback without an identity goes on with the volume that is found, or with none; an identity is recorded as prepared only after a valid preparation; an acknowledgement takes the tombstone and nothing else |
| `StorageRuns.RefusalsStop` | crates/execution-storage/src/manager.rs:540-1105 | every other call, rollbacks, cleanups and releases included, stops at the first refusal |
| `StorageRuns.LeaseExclusion` | crates/execution-storage/src/manager.rs:709-1065 | for every interleaving of allocations, releases, acknowledgements and lease holders, cut anywhere: without a torn publication and without a publication beside another allocation no lease is disturbed and every lease stands on its Ready journal and its mount; allocations that never overlap are enough |
| `OwnershipRuns.IdentityRecorded` | crates/execution-storage/src/manager.rs:851-861 | recording the identity of the job's own volume keeps the journal true of volumes and mounts |
| `OwnershipRuns.Published` | crates/execution-storage/src/manager.rs:978-996 | publishing a mounted, prepared volume with an existing lease file keeps the journal true |
| `OwnershipRuns.PhaseRecorded` | crates/execution-storage/src/manager.rs:556-576 | recording a release phase that mounts and volumes bear out keeps the journal true |
| `OwnershipRuns.StateMeans` | crates/execution-storage/src/lvm.rs:151-229 | what the backend says about the journal's identity is true of the pool |
| `OwnershipRuns.DiscoveryMeans` | crates/execution-storage/src/lvm.rs:256-307 | a search by the journal's token finds the volume or shows that there is none |
| `OwnershipRuns.EraseRemoves` | crates/execution-storage/src/manager.rs:563-577 | a removal takes away an unmounted volume of the journal's own token |
| `OwnershipRuns.EngagedStep` | crates/execution-storage/src/manager.rs:540-1065 | every step of an allocation, recovery, rollback or release, with any outcome, keeps ownership, removes nothing wrongly, and leads where the call still knows what it relies on |
| `OwnershipRuns.KnowsEntitled` | crates/execution-storage/src/manager.rs:587-1065 | whoever acts on a journal acts on its own request's, or on that of the receipt it releases, with this daemon's bind proof |
| `OwnershipRuns.StillAimed` | crates/execution-storage/src/manager.rs:556-576 | recording a release phase leaves the journal the request's and the receipt's that it was |
| `OwnershipRuns.OneEngaged` | crates/execution-storage/src/manager.rs:801-1065 | without an overlap there is one call at most that changes durable state |
| `OwnershipRuns.StepKeepsOwnership` | crates/execution-storage/src/manager.rs:540-1105 | every step of every call keeps the ownership invariant of interleaved runs |
| `OwnershipRuns.RunKeepsOwnership` | crates/execution-storage/src/manager.rs:540-1105 | the ownership invariant over every interleaving from the empty state |
| `OwnershipRuns.NoOrphans` | crates/execution-storage/src/manager.rs:540-1065 | for every interleaving, cut anywhere, in which no allocation is under way beside another one or beside a release with the lock: no volume without its journal and mountpoint, no mount without its filesystem UUID in the journal, no wrongful removal, and no call ever took, made or marked anything of another request or another receipt |
| `StorageSchedules.TornPublication` | crates/execution-storage/src/manager.rs:993-1000 | from the empty state, for every servable request: Ready is written by an operation that reports a failure, a consumer takes the lease, and the rollback takes the journal away |
| `StorageSchedules.TornIsFatal` | crates/execution-storage/src/manager.rs:662-698 | after every run without overlaps that leaves an allocation under way past a Ready journal, five more events that all work disturb a lease |
| `StorageSchedules.OverlappingAllocations` | crates/execution-storage/src/manager.rs:617-638 | from the empty state, for every servable request, every step working: a second allocation writes over the Ready record of the first under a lease and removes its mounted volume |
| `StorageSchedules.AllocationBesideRelease` | crates/execution-storage/src/manager.rs:807-837 | from the empty state, every step working and no two allocations overlapping: an allocation that read no tombstone loses its journal to a release and leaves a volume without one |
| `StorageSchedules.AllocationPastTombstone` | crates/execution-storage/src/manager.rs:807-815 | from the empty state, every step working and no two allocations overlapping: an allocation that read no tombstone before a whole release publishes a new allocation under the tombstone of the old one |
| `StorageSchedules.JammedForever` | crates/execution-storage/src/manager.rs:1008-1014 | a Ready allocation under the tombstone of another one stays: no run of any calls, held or not, ever changes anything again |
| `StorageSchedules.CutStrands` | crates/execution-storage/src/manager.rs:823-837 | from the empty state one cut leaves a mountpoint without a journal |
| `StorageSchedules.StrandedForever` | crates/execution-storage/src/manager.rs:456-478 | once there is a mountpoint without journal, volume and tombstone, no run of any calls, held or not, ever changes anything again |
| `Scheduler.FittingStaysWithin` | crates/orchestrator-scheduler/src/lib.rs:56-109 | a fitting request stays within the limits if and only if each quantity is asked for or not already overcommitted; a validated runtime always does |
| `Scheduler.Select` | crates/orchestrator-scheduler/src/lib.rs:112-121 | the first least-loaded worker that fits; None exactly when none fits |
| `Scheduler.FitsExactly` | crates/orchestrator-scheduler/src/lib.rs:56-109 | a worker can host a request if and only if none of eleven named things stands against it: not ready, unproven, full, another operating system or architecture, a toolchain missing or of another version, a missing runtime or capability, too little cpu, memory or disk |
| `Scheduler.SelectExactly` | crates/orchestrator-scheduler/src/lib.rs:112-121 | nothing named stands against the worker picked; something named stands against every less loaded and every earlier, equally loaded one, and against all when none is picked |
| `Scheduler.CanonicalExactly` | crates/orchestrator-scheduler/src/lib.rs:29-42 | two architectures are the same if and only if, trimmed and without regard to case, they are spelled alike or are two spellings of one of two machines |
| `Scheduler.TrimExactly` | crates/orchestrator-scheduler/src/lib.rs:29-42 | trimming takes off white space at the ends, all of it, and nothing else |
| `Cleanup.TransitionsAreSuccessors` | crates/orchestrator-persistence/src/cleanup.rs:34-57 | the transition table is exactly the successor relation of one total order |
| `Claims.TerminalExactly` | crates/orchestrator-core/src/execution.rs:39-61 | the terminal states are exactly those without a transition; any other state can fail or be cancelled |
| `Claims.ComesFromExactly` | crates/orchestrator-core/src/execution.rs:47-60 | from which states each state can be entered; none leads back into the queue |
| `Claims.LoadPick` | crates/orchestrator-persistence/src/reservations.rs:114-123 | the aggregates over reservation rows do not depend on the order of the rows |
| `Claims.UsedAfterInsert` | crates/orchestrator-persistence/src/reservations.rs:174-195 | inserting a reservation adds exactly its request to its own worker's usage |
| `Claims.UsedAfterDelete` | crates/orchestrator-persistence/src/reservations.rs:242-261 | deleting a reservation takes exactly its request off its own worker's usage |
| `Claims.QueryUsage` | crates/orchestrator-persistence/src/reservations.rs:114-123 | the row loop computes the aggregate |
| `Claims.ResolvedPassedWholeChain` | crates/orchestrator-persistence/src/cleanup.rs:34-57 | a phase history that ends in Resolved ends with CleanupPending, RuntimeStopped, RuntimeDestroyed, GitRecoveredCleaned, StorageReleased, ReservationReleased, Resolved |
| `Claims.DeleteConserves` | crates/orchestrator-persistence/src/reservations.rs:244-258 | running_executions stays the number of reservations, and the clamp at zero never takes effect |
| `Claims.InsertConserves` | crates/orchestrator-persistence/src/reservations.rs:174-231 | running_executions stays the number of reservations under a claim |
| `Claims.ClaimKeeps` | crates/orchestrator-persistence/src/reservations.rs:173-231 | a claim keeps reservations, executions, attempts, authorities and claim history consistent |
| `Claims.DetachKeeps` | crates/orchestrator-persistence/src/reservations.rs:718-728 | letting go of a finished attempt keeps all tables consistent |
| `Claims.EarlierClaimWasCleanedUp` | crates/orchestrator-persistence/src/reservations.rs:147-157 | a claimable execution was never claimed, or its first attempt's authority passed the whole cleanup |
| `Claims.ClaimStaysWithin` | crates/orchestrator-persistence/src/reservations.rs:158-172 | a claim of a fitting manifest leaves cpu, memory, disk and slots within the advertised limits if and only if nothing it does not ask for was overcommitted; a validated manifest always does |
| `Claims.OutcomeIsStable` | crates/orchestrator-persistence/src/reservations.rs:809-819 | the outcome read off the finalized execution is the outcome read off the original; Requeued means Queued unless a cancellation is pending |
| `Claims.FinalStateMeans` | crates/orchestrator-persistence/src/reservations.rs:686-708 | the state a finalization leaves, kind by kind of the row: kept, or Failed, and never newly Completed or Cancelled |
| `Claims.RepeatExactly` | crates/orchestrator-persistence/src/reservations.rs:809-819 | the outcome read off a row that other transactions moved on is the same if and only if the row is still of the kind it described |
| `Claims.FailureIsFinal` | crates/orchestrator-persistence/src/reservations.rs:809-819 | an outcome that gave the execution up is read off the row again until the authority is resolved |
| `Claims.RowsMoveOn` | crates/orchestrator-persistence/src/lib.rs:328-585 | over several transactions too: manifests and terminal states stay, and a started execution with a pending cancellation stays until its authority is resolved |
| `Claims.InvMeansSingleOwner` | crates/orchestrator-persistence/src/reservations.rs:147-172 | at most one unfinished attempt per execution; a reservation is the latest claim's; a second claim follows a fully cleaned-up first, and there is no third |
| `Claims.Database.DeleteReservation` | crates/orchestrator-persistence/src/reservations.rs:244-258 | the row and one running execution of its worker go |
| `Claims.Database.SetPhase` | crates/orchestrator-persistence/src/cleanup.rs:302-312 | phases move forward only, one step at a time past CleanupPending, and the history records it |
| `Claims.Database.CommitClaim` | crates/orchestrator-persistence/src/reservations.rs:173-231 | all four tables change together and stay consistent |
| `Claims.Database.FirstFit` | crates/orchestrator-persistence/src/reservations.rs:158-168 | the first visible row that fits, none before it |
| `Claims.Database.ReserveNext` | crates/orchestrator-persistence/src/reservations.rs:106-240 | nothing named stands against the execution claimed, and something named against every visible one before it in the order of creation and id; None only if something stands against each; it was queued, not cancelled, unreserved and cleaned up; the new rows are spelled out; within the worker's limits exactly if nothing it does not ask for was overcommitted; errors only for an unknown worker or unrepresentable numbers |
| `Claims.Database.OrderIsTotal` | crates/orchestrator-persistence/src/reservations.rs:153 | any two executions are ordered by creation and id, one way only |
| `Claims.Database.EarlierComesFirst` | crates/orchestrator-persistence/src/reservations.rs:147-157 | in the query's order everything older, or as old with a smaller id, comes earlier |
| `Claims.Database.Release` | crates/orchestrator-persistence/src/reservations.rs:242-261 | the reservation is gone and its worker's counter follows |
| `Claims.Database.ReleaseAttempt` | crates/orchestrator-persistence/src/reservations.rs:263-288 | releases exactly if the attempt matches, and says so |
| `Claims.Database.Reconcile` | crates/orchestrator-persistence/src/reservations.rs:417-431 | exactly the executions that were reserved and not live at the query are released, whatever transactions come between the releases; alone, exactly their reservations go |
| `Claims.Database.CommitRetained` | crates/orchestrator-persistence/src/reservations.rs:290-390 | succeeds exactly for a resumable ReviewReady attempt in RetainRequested with its reservation or in Retained; phase and capacity change together |
| `Claims.Database.FenceAuthority` | crates/orchestrator-persistence/src/reservations.rs:489-502 | upsert to CleanupPending unless the row is another attempt's or further on |
| `Claims.Database.RecoverUnreachable` | crates/orchestrator-persistence/src/reservations.rs:433-507 | succeeds exactly for an unreachable worker; afterwards no reservation of it has an unfinished attempt, and exactly those that had one are reported and fenced |
| `Claims.Database.FenceLostAttempt` | crates/orchestrator-persistence/src/reservations.rs:509-600 | succeeds exactly for the reserved attempt, unfinished or with cleanup authority of its own that is pending or further; it is finished afterwards |
| `Claims.Database.CommitFinalization` | crates/orchestrator-persistence/src/reservations.rs:718-769 | reservation, attempt, execution and authority are finalized together |
| `Claims.Database.FinalizeCleanup` | crates/orchestrator-persistence/src/reservations.rs:602-807 | succeeds exactly under its guard; an execution given up becomes Failed, unless it was terminal or a cancellation is pending; a terminal, reviewable or cancelled one keeps its state without an event; none becomes Completed or Cancelled; Requeued exactly when queued again with no pending cancellation; a repeat changes nothing |
| `Claims.Database.FinalizeAgain` | crates/orchestrator-persistence/src/reservations.rs:602-807 | after any run of transactions in between, a repeat succeeds exactly until the authority is resolved, and gives the same outcome exactly when the row is still of the kind described; giving up stays |
| `Claims.CancelledBetween` | crates/orchestrator-persistence/src/reservations.rs:630-649 | from an empty database: finalized and queued again, cancelled while it waits, then reported as given up |
| `Claims.Database.Begin` | crates/orchestrator-persistence/src/cleanup.rs:221-251 | a fresh authority for the reserved attempt, or the same one again; never another attempt's |
| `Claims.Database.Transition` | crates/orchestrator-persistence/src/cleanup.rs:280-326 | compare-and-set along the legal moves; succeeds exactly when legal and the row is at the expected or the next phase |
| `Claims.Database.FenceForCleanup` | crates/orchestrator-persistence/src/cleanup.rs:328-367 | succeeds exactly for a fenced, terminal or cancelled execution that is not past CleanupPending |
| `Claims.Database.Resolve` | crates/orchestrator-persistence/src/cleanup.rs:369-396 | succeeds exactly from ReservationReleased or Resolved |
| `Claims.Database.Register` | crates/orchestrator-persistence/src/workers.rs:87-108 | accepted exactly within the bounds; an upsert that keeps the counter of a known worker and starts a new one at zero |
| `Claims.Database.Heartbeat` | crates/orchestrator-persistence/src/workers.rs:110-128 | limits and state change, the counter does not |
| `Claims.Database.MarkStale` | crates/orchestrator-persistence/src/workers.rs:168-187 | stale Ready or Draining workers become Unreachable, nothing else changes |
| `Claims.Database.Insert` | crates/orchestrator-persistence/src/lib.rs:253-277 | a new execution without attempt, in any state and with any manifest; an existing id is refused |
| `Claims.Database.RequestCancellation` | crates/orchestrator-persistence/src/lib.rs:328-407 | a queued execution is cancelled at once, any other live one gets a pending request |
| `Claims.Database.CompleteCancellation` | crates/orchestrator-persistence/src/lib.rs:446-547 | succeeds exactly when pending, live, unreserved, fenced and resolved |
| `Claims.Database.TransitionState` | crates/orchestrator-persistence/src/lib.rs:549-585 | succeeds exactly for a legal transition without a pending cancellation |
| `Claims.Database.RecordProgress` | crates/orchestrator-persistence/src/lib.rs:1432-1563 | succeeds exactly for the execution's own unfinished attempt and a legal state; one event is appended; retention is requested in the same step |
| `Claims.Database.AnyTransaction` | crates/orchestrator-persistence/src/reservations.rs:106-807 | every transaction with any arguments keeps the invariant; ranks and claim histories only grow; rows only move so far |
| `Claims.Database.AnyRun` | crates/orchestrator-persistence/src/reservations.rs:106-807 | single-owner safety, conservation and monotone cleanup ranks over whole runs |
| `TemporaryNames.ParsesExactly` | crates/execution-storage/src/journal.rs:2028-2041 | a name parses to an operation if and only if it is assembled from it and three numerals |
| `TemporaryNames.GeneratedParses` | crates/execution-storage/src/journal.rs:1967-1979 | every generated temporary name parses back to its operation |
| `TemporaryNames.GeneratedInjective` | crates/execution-storage/src/journal.rs:1967-1979 | generated names determine operation, process, epoch and counter |
| `TemporaryNames.LegacyParsesExactly` | crates/execution-storage/src/journal.rs:2016-2026 | a name has the older form of an operation if and only if it is assembled from it and two numerals |
| `TemporaryNames.JournalTemporaryExactly` | crates/execution-storage/src/journal.rs:2006-2010 | a name is a journal operation's if and only if it has either form for an operation on a .json record |
| `TemporaryNames.ProbesExactly` | crates/execution-storage/src/journal.rs:2043-2068 | a name is a probe's if and only if it is the prefix with three numerals, or in the older form two |
| `TemporaryNames.ExecutionIdExactly` | crates/execution-storage/src/model.rs:74-90 | one to 63 lower-case letters, digits and dashes, the first no dash |
| `TemporaryNames.LegacyJournalParses` | crates/execution-storage/src/journal.rs:2006-2026 | older names of journal operations are read by the older parser only, and are journal residue |
| `TemporaryNames.GeneratedProbeIsProbe` | crates/execution-storage/src/journal.rs:1988-1995 | every generated owner probe name is recognised |
| `TemporaryNames.RecordsAreNotResidue` | crates/execution-storage/src/journal.rs:2006-2068 | no {execution_id}.json or .lease name is ever taken for residue |
| `TemporaryNames.RecordNamesInjective` | crates/execution-storage/src/journal.rs:1953-1965 | record names determine the execution, and no record is a lease |
| `MetadataDirectory.ConfinedRecords` | crates/execution-storage/src/journal.rs:228-251 | what an operation leaves of the records depends on its own name only |
| `MetadataDirectory.ResidueExactly` | crates/execution-storage/src/journal.rs:2012-2014 | what a metadata directory passes over is exactly what has either form of a temporary, or is a probe |
| `MetadataDirectory.KindExactly` | crates/execution-storage/src/journal.rs:720-776 | every name is one of four: leases by their ending, probes and journal temporaries, journals of valid executions, and anything else |
| `MetadataDirectory.KindOfOwnNames` | crates/execution-storage/src/journal.rs:720-776 | journals are listed as records and leases as leases |
| `MetadataDirectory.KindOfTemporaries` | crates/execution-storage/src/journal.rs:2006-2014 | temporaries of journal operations are listed as residue |
| `MetadataDirectory.ConfinedJournals` | crates/execution-storage/src/journal.rs:720-776 | what an operation leaves of the journals depends on its own name only |
| `MetadataDirectory.ConfinedKeepsWellFormed` | crates/execution-storage/src/journal.rs:720-776 | operations leave only journals, leases and residue behind |
| `MetadataDirectory.Directory.CreateTemporary` | crates/execution-storage/src/journal.rs:1192-1211 | a fresh empty file whose name parses back to the operation; when every step works there is none only if 32 generated names were all taken |
| `MetadataDirectory.Directory.Write` | crates/execution-storage/src/journal.rs:1826-1847 | some prefix of the bytes; all of them on success |
| `MetadataDirectory.Directory.RemoveVerified` | crates/execution-storage/src/journal.rs:1507-1521 | unlinks only the expected file |
| `MetadataDirectory.Directory.RenameNoReplace` | crates/execution-storage/src/journal.rs:1360-1397 | moves a name onto a free one, or changes nothing |
| `MetadataDirectory.Directory.Exchange` | crates/execution-storage/src/journal.rs:1438-1470 | swaps two names, or changes nothing |
| `MetadataDirectory.Directory.CreateRecord` | crates/execution-storage/src/journal.rs:111-147 | succeeds when every step works and one of 32 names is free; at every cut the name is unbound or bound to the whole new record, and nothing else changed but the operation's own temporaries |
| `MetadataDirectory.Directory.ReplaceRecord` | crates/execution-storage/src/journal.rs:149-186 | at every cut the name is bound to the whole old or the whole new record; success leaves no residue |
| `MetadataDirectory.Directory.MoveAside` | crates/execution-storage/src/journal.rs:1473-1504 | the record keeps its name or moves whole to a fresh temporary name |
| `MetadataDirectory.Directory.RemoveRecord` | crates/execution-storage/src/journal.rs:202-221 | at every cut the name is bound to the old record or unbound |
| `MetadataDirectory.Directory.MetadataCreate` | crates/execution-storage/src/journal.rs:111-147 | the logical records are the old ones or those with the new one added; unsafe names are refused |
| `MetadataDirectory.Directory.MetadataReplace` | crates/execution-storage/src/journal.rs:149-186 | the logical records are the old ones or those with the one replaced |
| `MetadataDirectory.Directory.MetadataRemove` | crates/execution-storage/src/journal.rs:202-221 | the logical records are the old ones or those without the one |
| `MetadataDirectory.Directory.MetadataNames` | crates/execution-storage/src/journal.rs:228-251 | up to 1024 residue entries exactly the records; past that a refusal |
| `MetadataDirectory.Directory.JournalCreate` | crates/execution-storage/src/journal.rs:553-597 | the journals are the old ones or those with the new one added |
| `MetadataDirectory.Directory.JournalWrite` | crates/execution-storage/src/journal.rs:608-653 | the journals are the old ones or those with the one replaced |
| `MetadataDirectory.Directory.JournalRemove` | crates/execution-storage/src/journal.rs:699-718 | the journals are the old ones or those without the one |
| `MetadataDirectory.Directory.EnsureLease` | crates/execution-storage/src/journal.rs:667-691 | the lease file is there when every step works; nothing else is added, no journal changes |
| `MetadataDirectory.Directory.JournalList` | crates/execution-storage/src/journal.rs:720-776 | succeeds exactly when every name is expected, at most 1024 are residue and every journal reads as valid; then returns exactly the journals |
| `MetadataDirectory.Directory.AnyRun` | crates/execution-storage/src/journal.rs:553-776 | any run of journal operations, cut anywhere, leaves a directory that can be listed up to the residue limit, in which every journal is an earlier one or, whole, one that was passed in for its execution |
| `PiEvents.TerminalEventsOnce` | crates/harness-pi/src/events.rs:163-302 | from any state, until the next agent starts: at most one ReviewReady, at most one failure, no ReviewReady after a failure |
| `PiEvents.ReducerIsDigest` | crates/harness-pi/src/events.rs:163-246 | until a failure was emitted, before and after ReviewReady, the reducer is a function of the records: last error, last retry word, number of good turns |
| `PiEvents.ReadyExactlyWhen` | crates/harness-pi/src/events.rs:248-270 | ReviewReady is emitted exactly for a settling record with a good turn, no pending error or retry, and nothing terminal before |
| `PiEvents.FailureExactlyWhen` | crates/harness-pi/src/events.rs:178-283 | a model failure is emitted if and only if none was and the record is one, settles with an error or retry pending, or ends an agent without retry while an error is pending; a harness failure if and only if a record settles with nothing pending and no good turn, or the process exits with nothing terminal emitted |
| `PiEvents.OthersExactlyWhen` | crates/harness-pi/src/events.rs:163-246 | every other event, from any state: for exactly its own records, and never two at once |
| `PiEvents.AgentsAreIndependent` | crates/harness-pi/src/events.rs:167-176 | a starting agent begins afresh, whatever came before |
| `PiEvents.RunAppend` | crates/harness-pi/src/events.rs:104-125 | one pass over a concatenation is the two passes in sequence |
| `PiEvents.LinesAppend` | crates/harness-pi/src/events.rs:96-109 | cutting just after a newline cuts no line |
| `PiEvents.CompleteAppend` | crates/harness-pi/src/events.rs:96-99 | the complete part of what follows a whole prefix can be found on its own |
| `PiEvents.Reducer.Settle` | crates/harness-pi/src/events.rs:248-270 | the in-place reducer does what the specification says on a settling record |
| `PiEvents.Reducer.FailModel` | crates/harness-pi/src/events.rs:285-302 | the in-place reducer does what the specification says on a model failure |
| `PiEvents.Reducer.FailHarness` | crates/harness-pi/src/events.rs:274-283 | the in-place reducer does what the specification says on a harness failure |
| `PiEvents.Reducer.Normalize` | crates/harness-pi/src/events.rs:163-246 | the in-place reducer does what the specification says on every record |
| `PiEvents.Session.Append` | crates/harness-pi/src/events.rs:82-95 | bytes may arrive cut anywhere |
| `PiEvents.Session.Reduce` | crates/harness-pi/src/events.rs:104-125 | the line loop is one pass over the lines; it stops exactly at a line that does not parse |
| `PiEvents.Session.NoteExit` | crates/harness-pi/src/events.rs:127-133 | an exit is reported only while no terminal record was seen |
| `PiEvents.Session.Absorb` | crates/harness-pi/src/events.rs:104-133 | what a poll makes of the new lines in memory is the pass continued, with the exit after them |
| `PiEvents.Session.Move` | crates/harness-pi/src/events.rs:126-137 | the cursor moves over exactly those lines, and their events are returned or lost |
| `PiEvents.Session.Poll` | crates/harness-pi/src/events.rs:60-139 | succeeds exactly when the cursor is not past the end, every new line parses and the cursor, if it must move, is saved; consumes all complete lines once and in order; events are lost exactly when the cursor is saved and the poll does not return |
| `PiEvents.Session.PollRunning` | crates/harness-pi/src/events.rs:60-139 | a poll of a running process whose cursor is saved catches up: the events up to the cursor are the one pass over all complete lines of the file |
| `PiEvents.Session.AnyRun` | crates/harness-pi/src/events.rs:60-139 | any interleaving of appends and polls equals one pass; the cursor is 0 or just after a newline; the polls returned exactly those events if and only if no poll with events failed after its cursor was saved |
| `PiEvents.UnreportedExit` | crates/harness-pi/src/events.rs:127-137 | an exit that no poll ever returns |
| `EventStream.MaxIsLength` | crates/orchestrator-persistence/src/event_log.rs:66-72 | the maximum of gapless sequences is their number |
| `EventStream.BatchIsNextRun` | crates/orchestrator-persistence/src/event_log.rs:112-147 | a batch query on gapless rows returns exactly the next entries, and fewer than the limit only at the end |
| `EventStream.BatchExists` | crates/orchestrator-persistence/src/event_log.rs:112-147 | the batch query always has an answer |
| `EventStream.EventLog.Append` | crates/orchestrator-persistence/src/event_log.rs:58-96 | one entry is added to this execution's log, numbered next; all other logs are unchanged |
| `EventStream.Stream.Turn` | crates/orchestrator-api/src/events.rs:86-124 | one turn emits exactly the next entry or none; it ends the stream exactly for a store that does not answer and for a closed channel; as long as the log is ahead every turn comes closer |
| `EventStream.Stream.Fetch` | crates/orchestrator-api/src/events.rs:86-124 | a due fetch drains the log or fills a batch, and comes closer |
| `EventStream.Stream.CatchUp` | crates/orchestrator-api/src/events.rs:61-124 | with a store that answers, everything in the log is emitted, in order, after a bounded number of turns |
| `EventStream.Stream.AnyRun` | crates/orchestrator-api/src/events.rs:61-124 | for any interleaving the emitted events are exactly the log after the starting cursor; idling without a fetch due means the last fetch was drained |
| `Health.HealthMonitor.RecordEvent` | crates/orchestrator-worker/src/health.rs:90-93 | the in-place monitor does what the specification says |
| `Health.HealthMonitor.Pause` | crates/orchestrator-worker/src/health.rs:101-105 | the in-place monitor does what the specification says |
| `Health.HealthMonitor.Resume` | crates/orchestrator-worker/src/health.rs:107-118 | all instants move by the length of the pause |
| `Health.HealthMonitor.Assess` | crates/orchestrator-worker/src/health.rs:124-166 | the in-place monitor does what the specification says, field by field and verdict by verdict |
| `Health.AssessedShifts` | crates/orchestrator-worker/src/health.rs:124-166 | assessing a monitor whose instants are all later is assessing the original earlier |
| `Health.PausesAreTransparent` | crates/orchestrator-worker/src/health.rs:101-166 | for every trace the assessments outside pauses are those of the trace with the pauses cut out |
| `Health.EventDuringPauseIsPostdated` | crates/orchestrator-worker/src/health.rs:90-118 | an event noted during a pause is dated after the resumption |
| `Health.MonitorIsDigest` | crates/orchestrator-worker/src/health.rs:124-166 | before the first failure the monitor is a function of the trace: last event, last rise, last counter, start of saturation |
| `Health.VerdictExactly` | crates/orchestrator-worker/src/health.rs:124-166 | each failure in terms of that trace, both directions |
| `Health.InactivityExactly` | crates/orchestrator-worker/src/health.rs:131-145 | without pauses: Inactivity exactly when the wall clock has not run out and neither start, event nor I/O rise is recent |
| `Health.ViolationExactly` | crates/orchestrator-worker/src/health.rs:146-153 | without pauses: ResourceViolation exactly when every sample from one at least the span ago was saturated |
| `Health.MarkIsDigest` | crates/orchestrator-worker/src/health.rs:154-159 | the monitor remembers exactly a warning that no event and no rise followed |
| `Health.WarningExactly` | crates/orchestrator-worker/src/health.rs:141-164 | without failure: InactiveWarning exactly when half the limit has passed without activity and none was given since the last one, QuietHealthy exactly when otherwise the limit has passed without an event, each with the seconds it reports; Healthy otherwise |
| `Health.QuietHealthyMeans` | crates/orchestrator-worker/src/health.rs:141-164 | QuietHealthy reports the time since the last event, past the limit, while the I/O counter rose within it |
| `Health.WarningsAreSeparated` | crates/orchestrator-worker/src/health.rs:154-159 | between two inactivity warnings lies an event or a rise of the I/O counter |
| `Health.CompressedIsTimely` | crates/orchestrator-worker/src/health.rs:101-118 | with no event noted during a pause, cutting the pauses out keeps the trace in order |
| `Health.InactivityDespitePauses` | crates/orchestrator-worker/src/health.rs:101-145 | the same for traces with pauses, on the clock that stops during them |
| `Health.ViolationDespitePauses` | crates/orchestrator-worker/src/health.rs:101-153 | the same for traces with pauses, on the clock that stops during them |
| `Sha256.InitialFromSquareRoots` | crates/orchestrator-persistence/src/artifacts.rs:297-300 | the initial hash is the fraction bits of square roots of primes, section 5.3.3 of FIPS 180-4 |
| `Sha256.ConstantsFromCubeRoots` | crates/orchestrator-persistence/src/artifacts.rs:301-312 | the round constants are the fraction bits of cube roots of primes, section 4.2.2 of FIPS 180-4 |
| `Sha256.ChSelects` | crates/orchestrator-persistence/src/artifacts.rs:341 | each bit of the choice is y's where x has a one and z's where it has a zero, section 4.1.2 of FIPS 180-4 |
| `Sha256.MajOfFirstTwo` | crates/orchestrator-persistence/src/artifacts.rs:348 | where two of three words agree the majority is what they agree on |
| `Sha256.MajOfOuterTwo` | crates/orchestrator-persistence/src/artifacts.rs:348 | the same for the outer two |
| `Sha256.MajOfLastTwo` | crates/orchestrator-persistence/src/artifacts.rs:348 | the same for the last two |
| `Sha256.BigSigma0Turns` | crates/orchestrator-persistence/src/artifacts.rs:347 | the function commutes with turning its word by one bit |
| `Sha256.BigSigma0Last` | crates/orchestrator-persistence/src/artifacts.rs:347 | its last bit is the exclusive or of bits 2, 13 and 22; with the turning, every bit is |
| `Sha256.BigSigma1Turns` | crates/orchestrator-persistence/src/artifacts.rs:340 | the function commutes with turning its word by one bit |
| `Sha256.BigSigma1Last` | crates/orchestrator-persistence/src/artifacts.rs:340 | its last bit is the exclusive or of bits 6, 11 and 25; with the turning, every bit is |
| `Sha256.SmallSigma0OfBits` | crates/orchestrator-persistence/src/artifacts.rs:327-329 | the function of each single bit is the set of bits that it turns and shifts to |
| `Sha256.SmallSigma0Last` | crates/orchestrator-persistence/src/artifacts.rs:327-329 | its last bit is the exclusive or of bits 7, 18 and 3 |
| `Sha256.SmallSigma1OfBits` | crates/orchestrator-persistence/src/artifacts.rs:330-332 | the function of each single bit is the set of bits that it turns and shifts to |
| `Sha256.SmallSigma1Last` | crates/orchestrator-persistence/src/artifacts.rs:330-332 | its last bit is the exclusive or of bits 17, 19 and 10 |
| `Sha256.ScheduleMeans` | crates/orchestrator-persistence/src/artifacts.rs:323-336 | each word of the schedule is the block's, big-endian, or the sum modulo 2^32 of four earlier ones, two of them through the small functions |
| `Sha256.RoundMeans` | crates/orchestrator-persistence/src/artifacts.rs:340-357 | a round moves six variables on and sets two to sums modulo 2^32, spelled out |
| `Sha256.PaddingIsWhole` | crates/orchestrator-persistence/src/artifacts.rs:313-319 | the padded message is a whole number of 64-byte blocks |
| `Sha256.PaddingIsMinimal` | crates/orchestrator-persistence/src/artifacts.rs:315-318 | the number of zero bits is the least one that section 5.1.1 of FIPS 180-4 allows |
| `Sha256.PaddingInverts` | crates/orchestrator-persistence/src/artifacts.rs:313-319 | the message can be recovered from its padding, below 2^61 bytes |
| `Sha256.PaddingInjective` | crates/orchestrator-persistence/src/artifacts.rs:313-319 | different messages have different paddings, below 2^61 bytes |
| `Sha256.Pad` | crates/orchestrator-persistence/src/artifacts.rs:313-319 | the padding loop computes the padding |
| `Sha256.WordOfIsBigEndian` | crates/orchestrator-persistence/src/artifacts.rs:323-325 | four bytes are read most significant first |
| `Sha256.FillSchedule` | crates/orchestrator-persistence/src/artifacts.rs:322-337 | the array filled in place is the message schedule of section 6.2.2 of FIPS 180-4, although the sums are taken in another order |
| `Sha256.Compress` | crates/orchestrator-persistence/src/artifacts.rs:338-361 | the rotation of eight variables computes the sixty-four rounds and adds them to the hash |
| `Sha256.Hash` | crates/orchestrator-persistence/src/artifacts.rs:320-362 | the block loop computes the digest of the padded message |
| `Sha256.HexWordsRead` | crates/orchestrator-persistence/src/artifacts.rs:363-368 | every word of the hash can be read off the printed digest, eight digits each |
| `Sha256.Sha256Hex` | crates/orchestrator-persistence/src/artifacts.rs:296-369 | the output is the digest of the padded message, every eight of its 64 hexadecimal digits one word |
| `Redaction.Find` | crates/harness-pi/src/session.rs:596-599 | the first occurrence; None exactly when there is none |
| `Redaction.NoCommonByteIsOverlapFree` | crates/harness-pi/src/session.rs:591-602 | secrets without a byte of the marker cannot overlap it |
| `Redaction.NoOccurrenceTouchesMarker` | crates/harness-pi/src/session.rs:596-601 | for a secret with brackets only at its ends no occurrence touches an inserted marker |
| `Redaction.ReplacementDescends` | crates/harness-pi/src/session.rs:596-601 | for every other secret a replacement lowers a lexicographic measure of brackets and their distances |
| `Redaction.RedactBytes` | crates/harness-pi/src/session.rs:591-602 | ends on every input that allows it; the secret is gone; the result comes from replacing first occurrences by the marker and nothing else; it is the single left-to-right pass if the secret cannot overlap the marker |
| `Redaction.TurnedOneMore` | crates/harness-pi/src/session.rs:596-601 | one more turn replaces the first occurrence that is then there, or nothing |
| `Redaction.PartOfMarkerStays` | crates/harness-pi/src/session.rs:596-601 | a secret that is part of the marker is put back by every replacement, so the loop does not end |
| `Redaction.EndsExactly` | crates/harness-pi/src/session.rs:591-602 | the loop ends if and only if the secret is no part of the marker or does not occur |
| `Redaction.SinglePassMayLeaveSecret` | crates/harness-pi/src/session.rs:591-602 | for a secret that can overlap the marker, one pass may leave an occurrence |
| `Branches.CanonicalExactly` | crates/git-worktree/src/manager.rs:821-834 | a repository is accepted if and only if it is two components of ASCII letters, digits, -, _ and ., neither . nor .., without two underscores in a row and none where they meet |
| `Branches.UniquelyDecodable` | crates/git-worktree/src/manager.rs:816-834 | owner and name can be read back from owner__name |
| `Branches.NormalizedInjective` | crates/git-worktree/src/manager.rs:816-834 | different repositories have different normalized names |
| `Branches.HexBytesRead` | crates/git-worktree/src/manager.rs:864-872 | every byte of a branch can be read off its two digits |
| `Branches.HexBytesInjective` | crates/git-worktree/src/manager.rs:864-872 | different branches have different hexadecimal names |
| `Branches.HexComponent` | crates/git-worktree/src/manager.rs:864-872 | the push loop computes the hexadecimal name |
| `Branches.LockNamesInjective` | crates/git-worktree/src/manager.rs:390-394 | two creators share a lock file if and only if repository and branch are equal |
| `Branches.OneCreatorPerClaim` | crates/git-worktree/src/manager.rs:390-395 | no two creators work on the same branch of the same repository |
| `Branches.RecordAdded` | crates/git-worktree/src/manager.rs:502-511 | a record written after a scan that found none is the only one for its branch, even over another record of the same execution |
| `Branches.Worktrees.Arrive` | crates/git-worktree/src/manager.rs:379-395 | only a valid repository is waited for |
| `Branches.Worktrees.Lock` | crates/git-worktree/src/lock.rs:11-29 | granted exactly when no other creator works on the same branch; until then the call waits |
| `Branches.Worktrees.Visit` | crates/git-worktree/src/manager.rs:594-651 | the scan stops exactly at an execution that owns the branch |
| `Branches.Worktrees.Clear` | crates/git-worktree/src/manager.rs:594-651 | a finished scan that found no owner |
| `Branches.Worktrees.CheckEmpty` | crates/git-worktree/src/manager.rs:424-433 | goes on exactly when the root holds no owner record and nothing else |
| `Branches.Worktrees.WriteOwner` | crates/git-worktree/src/manager.rs:502-511 | the record is written after the clone, over whatever has come to be there |
| `Branches.Worktrees.Leave` | crates/git-worktree/src/lock.rs:31-36 | a creator that returns or dies drops its lock |
| `Branches.Worktrees.Remove` | crates/git-worktree/src/cleanup.rs:21-68 | removing a repository removes its owner record |
| `Branches.Worktrees.AnyRun` | crates/git-worktree/src/manager.rs:379-536 | over all interleavings of creators, cleanups and crashes at most one execution owns a branch of a repository |

## Left out

- The APFS backend and the text formats of the LVM, Docker and Git commands; the model keeps the contract of the LVM backend.
- Interleaved storage runs take the bind proof of a lease and the layout directories as looks that may refuse, and all lifecycle holds as one flag that may change at any time; a consumer of a lease is one lock, whatever it does with the allocation.
- StorageRuns.LeaseExclusion: one direction only for publications beside another allocation; such a publication need not disturb a lease, as the other allocation may still fail before it writes.
- OwnershipRuns.NoOrphans: one direction only; calls that overlap need not harm each other.
- A machine crash that unmounts volumes: a crash stops the process and keeps the mounts.
- Reordering of writes below fsync, and other processes that ignore the directory lock; inode numbers are checked where a replaced file would otherwise be unlinked.
- Subdirectory staging, ownership probes and permissions of the metadata directory, and the serialisation of records, whose validity is a parameter of the listing; a listing is one step.
- The order of a listing: names and journals are returned as sets.
- SQL, connection pools and row decoding: a transaction is one atomic method, and `SKIP LOCKED` is a parameter that chooses the visible rows.
- The text forms of dispositions and states, version columns, results, labels and interactive controls of executions.
- Claims.Database.Insert: an execution inserted with a worker or an attempt already named, which no caller does.
- Claims.Database.Begin: called with the attempt and worker of the current reservation, as its callers do; for another attempt the row could name an attempt that never ran.
- The capability words and health errors checked at worker registration; the model keeps the numeric bounds and the proof.
- JSON: parsing a Pi record is a parameter, and the record predicates are its fields. Errors in reading the event file are left out.
- The broadcast channel: its messages only wake the stream, so a wait ends with any signal.
- That the listed numbers are the first sixty-four primes is not proved, only that the constants are their roots.
- Floating point: CPU percentages are reals.
- Cloning, checkout, create intents and mirror locks of the Git manager; the model keeps the branch lock, the scan, the owner record and its removal.
- HTTP handlers, the worker loop, process supervision, telemetry, artifact files and diff capture.
