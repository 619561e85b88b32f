/**
  Ownership under concurrency: whatever the interleaving of calls and wherever they are
  cut, no volume is without its journal and none is removed wrongly, as long as an
  allocation never runs beside another allocation or beside a release that has the lock.
 */
module OwnershipRuns {
  import opened Wrappers
  import opened StorageTypes
  import opened ExecutionStorage
  import opened StorageRuns

  predicate OwnedDisk(pool: Pool, d: Disk)
  {
    Owned(pool, d.journal, d.volumes, d.mounted, d.mountpoint, d.leaseFile)
  }

  /** The calls that change durable state other than a tombstone. */
  predicate Engaged(call: Call)
  {
    RoleOf(call).Allocator? || RoleOf(call).Releaser?
  }

  predicate Carries(pool: Pool, call: Call)
  {
    Request(call).Some? ==> IsJob(pool, Request(call).value)
  }

  // ----------------------------------------------------------------- what a call may rely on

  predicate Describes(pool: Pool, d: Disk, id: BackendIdentity, token: string)
  {
    DescribesVolume(pool, d.volumes, d.mounted, id, token)
  }

  /** The journal is the job's own and names the volume, which is there. */
  predicate Names(pool: Pool, d: Disk, job: Job, id: BackendIdentity)
  {
    d.journal == Some(JobJournal(pool, job).WithBackendIdentity(id)) && LvName(job.token) in d.volumes
  }

  predicate MountedBy(pool: Pool, d: Disk, job: Job, id: BackendIdentity)
  {
    id.Lvm? && Names(pool, d, job, id) && d.mounted.Some? && id.filesystemUuid != ""
  }

  predicate OnOccasion(pool: Pool, d: Disk, occasion: Occasion, receipt: AllocationReceipt)
  {
    && Received(pool, d, receipt)
    && match occasion
       case OnRecovery(job) => !ReadyNow(d) && MadeFor(d, job)
       case OnRelease(_, ready) => ready == ReadyNow(d)
  }

  predicate Aimed(pool: Pool, d: Disk, aim: Aim)
  {
    match aim
    case ToAllocate(job) => MadeFor(d, job)
    case ToRollBack(job) => MadeFor(d, job)
    case ToRelease(receipt) => Received(pool, d, receipt)
  }

  predicate Erasing(pool: Pool, d: Disk, aim: Aim, id: BackendIdentity, bytes: nat, authority: Option<AllocationReceipt>, stage: Stage)
  {
    && d.journal.Some? && d.journal.value.backend == Some(id) && d.journal.value.reservedBytes == bytes
    && (if authority.Some? then d.journal.value.phase.Releasing? && Received(pool, d, authority.value)
        else d.journal.value.phase.Allocating?)
    && Aimed(pool, d, aim) && (aim.ToRelease? ==> authority == Some(aim.receipt))
    && match stage
       case NoteUnmounted => d.mounted.None? && authority.Some?
       case Removing => d.mounted.None?
       case NoteAbsent => d.volumes == map[] && authority.Some?
       case _ => true
  }

  predicate Emptied(d: Disk)
  {
    d.journal.Some? && !ReadyNow(d) && d.volumes == map[]
  }

  /** What is true of the durable state at each point of a call that runs beside no other. */
  predicate Knows(pool: Pool, d: Disk, call: Call)
  {
    match call
    case Validate(job, j) => d.journal == Some(j) && !ReadyNow(d) && MadeFor(d, job)
    case Search(job, j) => d.journal == Some(j) && j.phase.Allocating? && j.backend.None? && MadeFor(d, job)
    case Adopt(job, j, id) =>
      && d.journal == Some(j) && j.phase.Allocating? && j.backend.None? && MadeFor(d, job)
      && Describes(pool, d, id, j.ownershipToken)
    case Survey(_) => d.journal.None?
    case MakeRoot(_) => d.journal.None?
    case OpenJournal(_) => d.journal.None? && d.mountpoint
    case GiveUpRoot(job) => d.volumes == map[] && (d.journal.Some? ==> MadeFor(d, job))
    case Create(job) => d.journal == Some(JobJournal(pool, job)) && d.volumes == map[] && d.mountpoint
    case NoteCreated(job, id) =>
      && d.journal == Some(JobJournal(pool, job)) && LvName(job.token) in d.volumes
      && id.Lvm? && Describes(pool, d, id, job.token) && id.filesystemUuid == ""
    case Prepare(job, id) => id.Lvm? && Names(pool, d, job, id) && id.filesystemUuid == ""
    case NotePrepared(job, id) =>
      && id.Lvm? && Names(pool, d, job, id.(filesystemUuid := ""))
      && Describes(pool, d, id, job.token) && id.filesystemUuid != "" && d.mounted.None?
    case MountRoot(job, id) => id.Lvm? && Names(pool, d, job, id) && id.filesystemUuid != "" && d.mounted.None?
    case CheckMounted(job, id) => MountedBy(pool, d, job, id)
    case ProveBind(job, id) => MountedBy(pool, d, job, id)
    case EnsureLease(job, id) => MountedBy(pool, d, job, id)
    case Publish(job, id) => MountedBy(pool, d, job, id) && d.leaseFile
    case UndoSearch(job) => d.journal == Some(JobJournal(pool, job))
    case UndoNote(job, id) =>
      && MadeFor(d, job) && !d.journal.value.phase.Releasing? && d.journal.value.ownershipToken == job.token
      && Describes(pool, d, id, job.token)
    case Authenticate(occasion, receipt) => OnOccasion(pool, d, occasion, receipt)
    case CheckPath(occasion, receipt, _) => OnOccasion(pool, d, occasion, receipt)
    case Erase(aim, id, bytes, authority, stage) => Erasing(pool, d, aim, id, bytes, authority, stage)
    case ClearRoot(aim) => Emptied(d) && Aimed(pool, d, aim)
    case ClearJournal(aim) => Emptied(d) && Aimed(pool, d, aim)
    case LeaveMark(receipt, ready) => Received(pool, d, receipt) && ready == ReadyNow(d)
    case Turn(receipt) => Received(pool, d, receipt) && ReadyNow(d)
    case _ => true
  }

  lemma RecovererEntitled(pool: Pool, d: Disk, call: Call)
    requires Knows(pool, d, call)
    requires call.Validate? || call.Search? || call.Adopt? || call.UndoNote? || call.GiveUpRoot?
      || call.Survey? || call.MakeRoot? || call.OpenJournal?
    ensures Entitled(pool, d, call)
  {
    hide MadeFor, Received, DescribesVolume;
  }

  lemma CleanerEntitled(pool: Pool, d: Disk, call: Call)
    requires RoleOf(call).Allocator? && Knows(pool, d, call)
    requires call.Authenticate? || call.CheckPath? || call.Erase? || call.ClearRoot? || call.ClearJournal?
    ensures Entitled(pool, d, call)
  {
    hide MadeFor, Received;
  }

  lemma CreatorEntitled(pool: Pool, d: Disk, call: Call)
    requires Knows(pool, d, call)
    requires call.Create? || call.NoteCreated? || call.Prepare? || call.NotePrepared? || call.MountRoot? || call.CheckMounted?
      || call.ProveBind? || call.EnsureLease? || call.Publish? || call.UndoSearch?
    ensures Entitled(pool, d, call)
  {
    hide Received, DescribesVolume;
  }

  lemma ReleaserEntitled(pool: Pool, d: Disk, call: Call)
    requires RoleOf(call).Releaser? && Knows(pool, d, call) && !call.Reread?
    ensures Entitled(pool, d, call)
  {
    hide MadeFor, DescribesVolume;
  }

  /** Whoever knows its way is entitled to what it finds there. */
  lemma KnowsEntitled(pool: Pool, d: Disk, call: Call)
    requires Engaged(call) && Knows(pool, d, call) && !call.Reread?
    ensures Entitled(pool, d, call)
  {
    hide Knows, Entitled;
    if RoleOf(call).Releaser? {
      ReleaserEntitled(pool, d, call);
    } else if call.Authenticate? || call.CheckPath? || call.Erase? || call.ClearRoot? || call.ClearJournal? {
      CleanerEntitled(pool, d, call);
    } else if call.Validate? || call.Search? || call.Adopt? || call.UndoNote? || call.GiveUpRoot?
              || call.Survey? || call.MakeRoot? || call.OpenJournal? {
      RecovererEntitled(pool, d, call);
    } else {
      CreatorEntitled(pool, d, call);
    }
  }

  /** A step from `d` keeps ownership, removes nothing wrongly and leaves the call as well informed. */
  ghost predicate GoesWell(pool: Pool, d: Disk, call: Call, fate: Fate, given: string)
  {
    var (e, answer) := Execute(pool, d, Intent(pool, call), fate, given);
    && OwnedDisk(pool, e)
    && !RemovedWrongly(d, e)
    && (!answer.Died? && After(pool, call, answer).Some? ==> Knows(pool, e, After(pool, call, answer).value))
  }

  // ------------------------------------------------------------------ what an answer means

  lemma Written(pool: Pool, d: Disk, j: PhaseJournal, fate: Fate, given: string)
    ensures var (e, answer) := Execute(pool, d, WriteJournal(j), fate, given);
      && (e == d || (ValidJournal(j, pool.layout) && e == d.(journal := Some(j))))
      && (answer.Fine? ==> e == d.(journal := Some(j)))
      && (answer.Fine? || answer.Refused? || answer.Died?)
  {
    hide ValidJournal;
  }

  predicate Looks(action: Action)
  {
    action.ReadTombstone? || action.ReadJournal? || action.Probe? || action.LookAt? || action.LookForPath? || action.Discover?
  }

  lemma Looked(pool: Pool, d: Disk, action: Action, fate: Fate, given: string)
    requires Looks(action)
    ensures var (e, answer) := Execute(pool, d, action, fate, given);
      && e == d
      && (answer.FoundState? ==>
            && action.LookAt?
            && LvmState(pool.volumeGroup, pool.poolUuid, d.volumes, d.mounted, action.id, action.bytes) == Success(answer.state))
      && (answer.FoundIdentity? ==>
            action.Discover? && Discovered(pool, d.volumes, action.token, action.bytes) == Success(answer.identity))
      && (answer.FoundJournal? ==> answer.journal == d.journal)
  {
    hide LvmState, Discovered;
  }

  lemma NothingRemoved(d: Disk, e: Disk)
    requires d.volumes.Keys <= e.volumes.Keys
    ensures !RemovedWrongly(d, e)
  {
  }

  // ------------------------------------------------------------------- records stay truthful

  /** The job's own journal may record the volume's identity. */
  lemma IdentityRecorded(pool: Pool, d: Disk, job: Job, id: BackendIdentity)
    requires OwnedDisk(pool, d) && IsJob(pool, job)
    requires d.journal.Some? && !d.journal.value.phase.Releasing?
    requires d.journal.value.ownershipToken == job.token && d.journal.value.reservedBytes == job.bytes
    requires Describes(pool, d, id, job.token)
    ensures OwnedDisk(pool, d.(journal := Some(JobJournal(pool, job).WithBackendIdentity(id))))
  {
  }

  lemma IdentityAdopted(pool: Pool, d: Disk, j: PhaseJournal, id: BackendIdentity)
    requires OwnedDisk(pool, d) && d.journal == Some(j) && j.phase.Allocating? && Describes(pool, d, id, j.ownershipToken)
    ensures OwnedDisk(pool, d.(journal := Some(j.WithBackendIdentity(id))))
  {
  }

  lemma Published(pool: Pool, d: Disk, job: Job, id: BackendIdentity)
    requires OwnedDisk(pool, d) && MountedBy(pool, d, job, id) && d.leaseFile
    requires ValidJournal(ReadyJournal(JobReceipt(pool, job, id)), pool.layout)
    ensures OwnedDisk(pool, d.(journal := Some(ReadyJournal(JobReceipt(pool, job, id)))))
  {
  }

  /** What a receipt in the journal says. */
  lemma ReceivedMeans(pool: Pool, d: Disk, receipt: AllocationReceipt)
    requires OwnedDisk(pool, d) && Received(pool, d, receipt)
    ensures d.journal.value.backend == Some(receipt.backend) && d.journal.value.reservedBytes == receipt.reservedBytes
    ensures d.journal.value.labels == receipt.labels
  {
  }

  lemma PhaseRecorded(pool: Pool, d: Disk, receipt: AllocationReceipt, phase: ReleasePhase)
    requires OwnedDisk(pool, d) && Received(pool, d, receipt)
    requires (phase.Unmounted? ==> d.mounted.None?) && (phase.ObjectAbsent? ==> d.volumes == map[])
    ensures OwnedDisk(pool, d.(journal := Some(ReleasingJournal(receipt, phase))))
  {
  }

  /** What the backend says about the recorded identity is true of the pool. */
  lemma StateMeans(pool: Pool, d: Disk, id: BackendIdentity, bytes: nat)
    requires OwnedDisk(pool, d) && d.journal.Some? && d.journal.value.backend == Some(id)
    ensures var state := LvmState(pool.volumeGroup, pool.poolUuid, d.volumes, d.mounted, id, bytes);
      && (state == Success(StateUnmounted) ==> d.mounted.None?)
      && (state == Success(StateAbsent) ==> d.volumes == map[])
  {
    hide ValidJournal;
  }

  lemma DiscoveryMeans(pool: Pool, d: Disk, bytes: nat)
    requires OwnedDisk(pool, d) && d.journal.Some? && d.journal.value.backend.None?
    ensures var token := d.journal.value.ownershipToken;
      var found := Discovered(pool, d.volumes, token, bytes);
      && (found == Success(None) ==> d.volumes == map[])
      && (found.Success? && found.value.Some? ==>
            Describes(pool, d, found.value.value, token) && found.value.value.filesystemUuid == "")
  {
  }

  // ------------------------------------------------------------------------- step by step

  /** A journal write goes well when the call can go on from both sides of it. */
  lemma WriteStep(pool: Pool, d: Disk, call: Call, j: PhaseJournal, fate: Fate, given: string)
    requires OwnedDisk(pool, d) && Intent(pool, call) == WriteJournal(j)
    requires ValidJournal(j, pool.layout) ==> OwnedDisk(pool, d.(journal := Some(j)))
    requires After(pool, call, Fine).Some? ==> Knows(pool, d.(journal := Some(j)), After(pool, call, Fine).value)
    requires After(pool, call, Refused).Some? ==>
      && Knows(pool, d, After(pool, call, Refused).value)
      && Knows(pool, d.(journal := Some(j)), After(pool, call, Refused).value)
    ensures GoesWell(pool, d, call, fate, given)
  {
    hide Intent, Execute, After, Knows, OwnedDisk, RemovedWrongly, ValidJournal;
    Written(pool, d, j, fate, given);
    NothingRemoved(d, d);
    NothingRemoved(d, d.(journal := Some(j)));
  }

  lemma ValidateStep(pool: Pool, d: Disk, call: Call, fate: Fate, given: string)
    requires OwnedDisk(pool, d) && call.Validate? && Knows(pool, d, call)
    ensures GoesWell(pool, d, call, fate, given)
  {
    hide Execute, RemovedWrongly;
    Looked(pool, d, Intent(pool, call), fate, given);
    NothingRemoved(d, d);
  }

  lemma SearchStep(pool: Pool, d: Disk, call: Call, fate: Fate, given: string)
    requires OwnedDisk(pool, d) && call.Search? && Knows(pool, d, call)
    ensures GoesWell(pool, d, call, fate, given)
  {
    hide Execute, RemovedWrongly, Discovered, Owned, Describes;
    Looked(pool, d, Intent(pool, call), fate, given);
    DiscoveryMeans(pool, d, call.journal.reservedBytes);
    NothingRemoved(d, d);
  }

  lemma AdoptStep(pool: Pool, d: Disk, call: Call, fate: Fate, given: string)
    requires OwnedDisk(pool, d) && call.Adopt? && Knows(pool, d, call)
    ensures GoesWell(pool, d, call, fate, given)
  {
    hide Execute, GoesWell, Owned, DescribesVolume;
    IdentityAdopted(pool, d, call.journal, call.id);
    WriteStep(pool, d, call, call.journal.WithBackendIdentity(call.id), fate, given);
  }

  lemma OpeningSteps(pool: Pool, d: Disk, call: Call, fate: Fate, given: string)
    requires OwnedDisk(pool, d) && Knows(pool, d, call)
    requires call.Survey? || call.MakeRoot? || call.GiveUpRoot?
    ensures GoesWell(pool, d, call, fate, given)
  {
    hide ValidJournal, LvmState, Discovered, Created, Prepared, MountedAs, UnmountedBy, RemovedBy;
  }

  lemma OpenJournalStep(pool: Pool, d: Disk, call: Call, fate: Fate, given: string)
    requires OwnedDisk(pool, d) && call.OpenJournal? && IsJob(pool, call.job) && Knows(pool, d, call)
    ensures GoesWell(pool, d, call, fate, given)
  {
    hide LvmState, Discovered, Created, Prepared, MountedAs, UnmountedBy, RemovedBy;
  }

  lemma CreateStep(pool: Pool, d: Disk, call: Call, fate: Fate, given: string)
    requires OwnedDisk(pool, d) && call.Create? && Knows(pool, d, call)
    ensures GoesWell(pool, d, call, fate, given)
  {
    hide LvmState, Discovered, Prepared, MountedAs, UnmountedBy, RemovedBy;
  }

  lemma NoteCreatedStep(pool: Pool, d: Disk, call: Call, fate: Fate, given: string)
    requires OwnedDisk(pool, d) && call.NoteCreated? && IsJob(pool, call.job) && Knows(pool, d, call)
    ensures GoesWell(pool, d, call, fate, given)
  {
    hide Execute, GoesWell, Owned, DescribesVolume;
    IdentityRecorded(pool, d, call.job, call.id);
    WriteStep(pool, d, call, JobJournal(pool, call.job).WithBackendIdentity(call.id), fate, given);
  }

  lemma NotePreparedStep(pool: Pool, d: Disk, call: Call, fate: Fate, given: string)
    requires OwnedDisk(pool, d) && call.NotePrepared? && IsJob(pool, call.job) && Knows(pool, d, call)
    ensures GoesWell(pool, d, call, fate, given)
  {
    hide Execute, GoesWell, Owned, DescribesVolume;
    IdentityRecorded(pool, d, call.job, call.id);
    WriteStep(pool, d, call, JobJournal(pool, call.job).WithBackendIdentity(call.id), fate, given);
  }

  lemma UndoNoteStep(pool: Pool, d: Disk, call: Call, fate: Fate, given: string)
    requires OwnedDisk(pool, d) && call.UndoNote? && IsJob(pool, call.job) && Knows(pool, d, call)
    ensures GoesWell(pool, d, call, fate, given)
  {
    hide Execute, GoesWell, Owned, DescribesVolume;
    IdentityRecorded(pool, d, call.job, call.id);
    WriteStep(pool, d, call, JobJournal(pool, call.job).WithBackendIdentity(call.id), fate, given);
  }

  lemma PrepareStep(pool: Pool, d: Disk, call: Call, fate: Fate, given: string)
    requires OwnedDisk(pool, d) && call.Prepare? && Knows(pool, d, call)
    ensures GoesWell(pool, d, call, fate, given)
  {
    hide LvmState, Discovered, Created, MountedAs, UnmountedBy, RemovedBy;
  }

  lemma MountRootStep(pool: Pool, d: Disk, call: Call, fate: Fate, given: string)
    requires OwnedDisk(pool, d) && call.MountRoot? && Knows(pool, d, call)
    ensures GoesWell(pool, d, call, fate, given)
  {
    hide Discovered, Created, Prepared, UnmountedBy, RemovedBy;
  }

  lemma ProvingSteps(pool: Pool, d: Disk, call: Call, fate: Fate, given: string)
    requires OwnedDisk(pool, d) && Knows(pool, d, call)
    requires call.CheckMounted? || call.ProveBind? || call.EnsureLease?
    ensures GoesWell(pool, d, call, fate, given)
  {
    hide LvmState, Discovered, Created, Prepared, MountedAs, UnmountedBy, RemovedBy;
  }

  lemma PublishStep(pool: Pool, d: Disk, call: Call, fate: Fate, given: string)
    requires OwnedDisk(pool, d) && call.Publish? && Knows(pool, d, call)
    ensures GoesWell(pool, d, call, fate, given)
  {
    hide Execute, GoesWell, ValidReceipt;
    var j := ReadyJournal(JobReceipt(pool, call.job, call.id));
    if ValidJournal(j, pool.layout) {
      Published(pool, d, call.job, call.id);
    }
    WriteStep(pool, d, call, j, fate, given);
  }

  lemma UndoSearchStep(pool: Pool, d: Disk, call: Call, fate: Fate, given: string)
    requires OwnedDisk(pool, d) && call.UndoSearch? && Knows(pool, d, call)
    ensures GoesWell(pool, d, call, fate, given)
  {
    hide Execute, RemovedWrongly, Discovered, Owned, DescribesVolume;
    Looked(pool, d, Intent(pool, call), fate, given);
    DiscoveryMeans(pool, d, call.job.bytes);
    NothingRemoved(d, d);
  }

  lemma RereadStep(pool: Pool, d: Disk, call: Call, fate: Fate, given: string)
    requires OwnedDisk(pool, d) && call.Reread?
    ensures GoesWell(pool, d, call, fate, given)
  {
    hide Execute, RemovedWrongly, Owned;
    Looked(pool, d, Intent(pool, call), fate, given);
    NothingRemoved(d, d);
  }

  lemma AuthenticatingSteps(pool: Pool, d: Disk, call: Call, fate: Fate, given: string)
    requires OwnedDisk(pool, d) && Knows(pool, d, call)
    requires call.Authenticate? || call.CheckPath?
    ensures GoesWell(pool, d, call, fate, given)
  {
    hide Execute, RemovedWrongly, Owned, LvmState;
    Looked(pool, d, Intent(pool, call), fate, given);
    ReceivedMeans(pool, d, call.receipt);
    NothingRemoved(d, d);
  }

  lemma LeaveMarkStep(pool: Pool, d: Disk, call: Call, fate: Fate, given: string)
    requires OwnedDisk(pool, d) && call.LeaveMark? && Knows(pool, d, call)
    ensures GoesWell(pool, d, call, fate, given)
  {
    hide Owned, RemovedWrongly, LvmState, Discovered, Created, Prepared, MountedAs, UnmountedBy, RemovedBy;
    ReceivedMeans(pool, d, call.receipt);
    NothingRemoved(d, Execute(pool, d, Intent(pool, call), fate, given).0);
  }

  lemma ReleaseIsAimed(pool: Pool, d: Disk, receipt: AllocationReceipt)
    requires Received(pool, d, receipt)
    ensures Aimed(pool, d, ToRelease(receipt))
  {
  }

  lemma TurnStep(pool: Pool, d: Disk, call: Call, fate: Fate, given: string)
    requires OwnedDisk(pool, d) && call.Turn? && Knows(pool, d, call)
    ensures GoesWell(pool, d, call, fate, given)
  {
    hide Execute, GoesWell, Owned, Received, Aimed, MadeFor;
    ReceivedMeans(pool, d, call.receipt);
    PhaseRecorded(pool, d, call.receipt, Mounted);
    ReleaseIsAimed(pool, d, call.receipt);
    StillAimed(pool, d, ToRelease(call.receipt), call.receipt, Mounted);
    WriteStep(pool, d, call, ReleasingJournal(call.receipt, Mounted), fate, given);
  }

  lemma EraseLooks(pool: Pool, d: Disk, call: Call, fate: Fate, given: string)
    requires OwnedDisk(pool, d) && call.Erase? && Knows(pool, d, call)
    requires call.stage.Look? || call.stage.LookUnmounted? || call.stage.LookAbsent?
    ensures GoesWell(pool, d, call, fate, given)
  {
    hide Execute, RemovedWrongly, Owned, LvmState;
    Looked(pool, d, LookAt(call.id, call.bytes), fate, given);
    StateMeans(pool, d, call.id, call.bytes);
    NothingRemoved(d, d);
  }

  /** The cleanup is still for what it was for. */
  lemma StillAimed(pool: Pool, d: Disk, aim: Aim, receipt: AllocationReceipt, phase: ReleasePhase)
    requires OwnedDisk(pool, d) && Received(pool, d, receipt) && Aimed(pool, d, aim)
    ensures var e := d.(journal := Some(ReleasingJournal(receipt, phase)));
      Received(pool, e, receipt) && Aimed(pool, e, aim)
  {
    ReceivedMeans(pool, d, receipt);
    hide Owned;
  }

  lemma EraseNotesUnmounted(pool: Pool, d: Disk, call: Call, fate: Fate, given: string)
    requires OwnedDisk(pool, d) && call.Erase? && Knows(pool, d, call) && call.stage.NoteUnmounted?
    ensures GoesWell(pool, d, call, fate, given)
  {
    hide Execute, GoesWell, Owned, Received, Aimed, MadeFor;
    var receipt := call.authority.value;
    ReceivedMeans(pool, d, receipt);
    PhaseRecorded(pool, d, receipt, Unmounted);
    StillAimed(pool, d, call.aim, receipt, Unmounted);
    WriteStep(pool, d, call, ReleasingJournal(receipt, Unmounted), fate, given);
  }

  lemma EraseNotesAbsent(pool: Pool, d: Disk, call: Call, fate: Fate, given: string)
    requires OwnedDisk(pool, d) && call.Erase? && Knows(pool, d, call) && call.stage.NoteAbsent?
    ensures GoesWell(pool, d, call, fate, given)
  {
    hide Execute, GoesWell, Owned, Received, Aimed, MadeFor;
    var receipt := call.authority.value;
    PhaseRecorded(pool, d, receipt, ObjectAbsent);
    StillAimed(pool, d, call.aim, receipt, ObjectAbsent);
    WriteStep(pool, d, call, ReleasingJournal(receipt, ObjectAbsent), fate, given);
  }

  lemma EraseUnmounts(pool: Pool, d: Disk, call: Call, fate: Fate, given: string)
    requires OwnedDisk(pool, d) && call.Erase? && Knows(pool, d, call) && call.stage.Unmounting?
    ensures GoesWell(pool, d, call, fate, given)
  {
    hide LvmState, Discovered, Created, Prepared, MountedAs, RemovedBy, ValidJournal;
  }

  /** The removal itself: the volume is unmounted and is the journal's own. */
  lemma EraseRemoves(pool: Pool, d: Disk, call: Call, fate: Fate, given: string)
    requires OwnedDisk(pool, d) && call.Erase? && Knows(pool, d, call) && call.stage.Removing?
    ensures GoesWell(pool, d, call, fate, given)
  {
    hide LvmState, Discovered, Created, Prepared, MountedAs, UnmountedBy, ValidJournal;
  }

  lemma ClearingSteps(pool: Pool, d: Disk, call: Call, fate: Fate, given: string)
    requires OwnedDisk(pool, d) && Knows(pool, d, call)
    requires call.ClearRoot? || call.ClearJournal?
    ensures GoesWell(pool, d, call, fate, given)
  {
    hide LvmState, Discovered, Created, Prepared, MountedAs, UnmountedBy, RemovedBy, ValidJournal;
  }

  /** Whatever an engaged call does next goes well. */
  lemma EngagedStep(pool: Pool, d: Disk, call: Call, fate: Fate, given: string)
    requires OwnedDisk(pool, d) && Carries(pool, call) && Engaged(call) && Knows(pool, d, call)
    ensures GoesWell(pool, d, call, fate, given)
  {
    hide OwnedDisk, Knows, GoesWell, IsJob;
    match call
    case Validate(_, _) => ValidateStep(pool, d, call, fate, given);
    case Search(_, _) => SearchStep(pool, d, call, fate, given);
    case Adopt(_, _, _) => AdoptStep(pool, d, call, fate, given);
    case Survey(_) => OpeningSteps(pool, d, call, fate, given);
    case MakeRoot(_) => OpeningSteps(pool, d, call, fate, given);
    case GiveUpRoot(_) => OpeningSteps(pool, d, call, fate, given);
    case OpenJournal(_) => OpenJournalStep(pool, d, call, fate, given);
    case Create(_) => CreateStep(pool, d, call, fate, given);
    case NoteCreated(_, _) => NoteCreatedStep(pool, d, call, fate, given);
    case NotePrepared(_, _) => NotePreparedStep(pool, d, call, fate, given);
    case UndoNote(_, _) => UndoNoteStep(pool, d, call, fate, given);
    case Prepare(_, _) => PrepareStep(pool, d, call, fate, given);
    case MountRoot(_, _) => MountRootStep(pool, d, call, fate, given);
    case CheckMounted(_, _) => ProvingSteps(pool, d, call, fate, given);
    case ProveBind(_, _) => ProvingSteps(pool, d, call, fate, given);
    case EnsureLease(_, _) => ProvingSteps(pool, d, call, fate, given);
    case Publish(_, _) => PublishStep(pool, d, call, fate, given);
    case UndoSearch(_) => UndoSearchStep(pool, d, call, fate, given);
    case Reread(_, _) => RereadStep(pool, d, call, fate, given);
    case Authenticate(_, _) => AuthenticatingSteps(pool, d, call, fate, given);
    case CheckPath(_, _, _) => AuthenticatingSteps(pool, d, call, fate, given);
    case LeaveMark(_, _) => LeaveMarkStep(pool, d, call, fate, given);
    case Turn(_) => TurnStep(pool, d, call, fate, given);
    case ClearRoot(_) => ClearingSteps(pool, d, call, fate, given);
    case ClearJournal(_) => ClearingSteps(pool, d, call, fate, given);
    case Erase(_, _, _, _, stage) =>
      match stage {
        case Unmounting => EraseUnmounts(pool, d, call, fate, given);
        case Removing => EraseRemoves(pool, d, call, fate, given);
        case NoteUnmounted => EraseNotesUnmounted(pool, d, call, fate, given);
        case NoteAbsent => EraseNotesAbsent(pool, d, call, fate, given);
        case _ => EraseLooks(pool, d, call, fate, given);
      }
    case _ =>
  }

  // ------------------------------------------------------------------------------ every run

  predicate Serves(call: Call, next: Option<Call>)
  {
    next.Some? ==> Request(next.value) in {None, Request(call)}
  }

  lemma CleanupCarriesOn(call: Call, answer: Answer)
    ensures Serves(call, AfterCleanup(call, answer))
  {
  }

  lemma RecoveryCarriesOn(pool: Pool, call: Call, answer: Answer)
    ensures Serves(call, AfterRecovery(pool, call, answer))
  {
  }

  lemma AllocationCarriesOn(pool: Pool, call: Call, answer: Answer)
    ensures Serves(call, AfterAllocation(pool, call, answer))
  {
  }

  lemma OthersCarryNothing(pool: Pool, call: Call, answer: Answer)
    ensures Serves(call, AfterRelease(pool, call, answer)) && Serves(call, AfterLook(call, answer))
  {
    hide AfterRecovery, AfterAllocation, AfterCleanup;
  }

  /** A call goes on serving its request, or none. */
  lemma CarriesOn(pool: Pool, call: Call, answer: Answer)
    requires Carries(pool, call) && After(pool, call, answer).Some?
    ensures Carries(pool, After(pool, call, answer).value)
  {
    hide AfterRecovery, AfterAllocation, AfterCleanup, AfterRelease, AfterLook, Request, IsJob;
    CleanupCarriesOn(call, answer);
    RecoveryCarriesOn(pool, call, answer);
    AllocationCarriesOn(pool, call, answer);
    OthersCarryNothing(pool, call, answer);
  }

  /** Only a journal that was read, or the lock, makes a call engaged. */
  lemma Engages(pool: Pool, call: Call, answer: Answer)
    requires !Engaged(call) && After(pool, call, answer).Some? && Engaged(After(pool, call, answer).value)
    ensures call.Seek? || call.Inspect? || call.TakeLock?
  {
    hide AfterAllocation, AfterCleanup, AfterReread, AfterValidate;
    if AfterAllocation(pool, call, answer).Some? {
      AllocationGoesOn(pool, call, answer);
    }
    RolesAreEarned(pool, call, answer);
  }

  /** It starts from what it has just read. */
  lemma EngagesKnowing(pool: Pool, d: Disk, call: Call, action: Action, fate: Fate, given: string, answer: Answer)
    requires !Engaged(call) && After(pool, call, answer).Some? && Engaged(After(pool, call, answer).value)
    requires answer == Execute(pool, d, action, fate, given).1 || answer.Flag?
    ensures Knows(pool, Execute(pool, d, action, fate, given).0, After(pool, call, answer).value)
  {
    hide Execute, RoleOf;
    Engages(pool, call, answer);
    AnswersAreTrue(pool, d, action, fate, given);
  }

  /** Only the hold and the tombstone may differ. */
  predicate SameAllocation(d: Disk, e: Disk)
  {
    && e.journal == d.journal && e.volumes == d.volumes && e.mounted == d.mounted && e.mountpoint == d.mountpoint
    && e.leaseFile == d.leaseFile
  }

  lemma SameIsOwned(pool: Pool, d: Disk, e: Disk)
    requires SameAllocation(d, e)
    ensures OwnedDisk(pool, e) == OwnedDisk(pool, d)
  {
  }

  lemma AllocatorStillKnows(pool: Pool, d: Disk, e: Disk, call: Call)
    requires SameAllocation(d, e) && RoleOf(call).Allocator? && Knows(pool, d, call)
    ensures Knows(pool, e, call)
  {
    hide DescribesVolume;
  }

  lemma ReleaserStillKnows(pool: Pool, d: Disk, e: Disk, call: Call)
    requires SameAllocation(d, e) && RoleOf(call).Releaser? && Knows(pool, d, call)
    ensures Knows(pool, e, call)
  {
    hide DescribesVolume;
  }

  lemma StillKnows(pool: Pool, d: Disk, e: Disk, call: Call)
    requires SameAllocation(d, e) && Engaged(call) && Knows(pool, d, call)
    ensures Knows(pool, e, call)
  {
    hide Knows, RoleOf;
    if RoleOf(call).Allocator? {
      AllocatorStillKnows(pool, d, e, call);
    } else {
      ReleaserStillKnows(pool, d, e, call);
    }
  }

  /** What holds between steps of calls that never ran beside one another. */
  ghost predicate OwnInv(pool: Pool, w: World)
  {
    && LocksAgree(w)
    && (forall c | c in w.calls :: Carries(pool, w.calls[c]))
    && (Overlap(w.calls) ==> w.history.overlapped) && (Mix(w.calls) ==> w.history.mixed)
    && (!w.history.overlapped && !w.history.mixed ==>
          && OwnedDisk(pool, w.disk) && !w.history.wrongful && !w.history.trespassed
          && forall c | c in w.calls && Engaged(w.calls[c]) :: Knows(pool, w.disk, w.calls[c]))
  }

  /** Without an overlap there is one engaged call at most. */
  lemma OneEngaged(w: World, c: CallId, d: CallId)
    requires LocksAgree(w) && !Overlap(w.calls) && !Mix(w.calls)
    requires c in w.calls && d in w.calls && Engaged(w.calls[c]) && Engaged(w.calls[d])
    ensures c == d
  {
    hide RoleOf;
    assert Plays(w.calls, c, RoleOf(w.calls[c])) && Plays(w.calls, d, RoleOf(w.calls[d]));
    assert c != d ==> AnyOther(w.calls, c, RoleOf(w.calls[d])) && AnyOther(w.calls, d, RoleOf(w.calls[c]));
  }

  lemma RereadOnlyLooks(pool: Pool, d: Disk, call: Call, fate: Fate, given: string)
    requires call.Reread?
    ensures Execute(pool, d, Intent(pool, call), fate, given).0 == d
  {
  }

  /** The call that moves. */
  lemma MoverKnows(pool: Pool, w: World, c: CallId, fate: Fate, given: string)
    requires c in w.calls && OwnedDisk(pool, w.disk) && Carries(pool, w.calls[c])
    requires Engaged(w.calls[c]) ==> Knows(pool, w.disk, w.calls[c])
    ensures var after := Step(pool, w, c, fate, given);
      && OwnedDisk(pool, after.disk) && !RemovedWrongly(w.disk, after.disk)
      && (Seizes(w.disk, after.disk) ==> Entitled(pool, w.disk, w.calls[c]))
      && (c in after.calls && Engaged(after.calls[c]) ==> Knows(pool, after.disk, after.calls[c]))
      && (!Engaged(w.calls[c]) ==> after.disk == w.disk || after.disk == w.disk.(tombstone := None))
  {
    hide OwnedDisk, Knows, RemovedWrongly, Carries, After, Intent, Execute, RoleOf;
    var call, action := w.calls[c], Intent(pool, w.calls[c]);
    var (e, answer) := Execute(pool, w.disk, action, fate, given);
    if Engaged(call) {
      EngagedStep(pool, w.disk, call, fate, given);
      if !call.Reread? {
        KnowsEntitled(pool, w.disk, call);
      } else {
        RereadOnlyLooks(pool, w.disk, call, fate, given);
      }
      EngagedNeedsNoLock(pool, w, call, answer);
    } else {
      BystandersOnlyLook(pool, w.disk, call, fate, given);
      assert SameAllocation(w.disk, e) && !Seizes(w.disk, e);
      SameIsOwned(pool, w.disk, e);
      NothingRemoved(w.disk, e);
      var seen := Locked(w, action, answer);
      if After(pool, call, seen).Some? && Engaged(After(pool, call, seen).value) {
        EngagesKnowing(pool, w.disk, call, action, fate, given, seen);
      }
    }
  }

  lemma EngagedNeedsNoLock(pool: Pool, w: World, call: Call, answer: Answer)
    requires Engaged(call)
    ensures Locked(w, Intent(pool, call), answer) == answer
  {
  }

  lemma StepKeepsOwnership(pool: Pool, w: World, c: CallId, fate: Fate, given: string)
    requires OwnInv(pool, w) && c in w.calls
    ensures OwnInv(pool, Step(pool, w, c, fate, given))
  {
    hide OwnedDisk, Knows, RemovedWrongly, Carries, After, Intent, Execute, Engaged, Overlap, Mix, Plays, LocksAgree;
    var after := Step(pool, w, c, fate, given);
    StepKeepsLocks(pool, w, c, fate, given);
    var seen := Locked(w, Intent(pool, w.calls[c]), Execute(pool, w.disk, Intent(pool, w.calls[c]), fate, given).1);
    if After(pool, w.calls[c], seen).Some? {
      CarriesOn(pool, w.calls[c], seen);
    }
    if !after.history.overlapped && !after.history.mixed {
      MoverKnows(pool, w, c, fate, given);
      forall d | d in after.calls && Engaged(after.calls[d])
        ensures Knows(pool, after.disk, after.calls[d])
      {
        if d != c {
          if Engaged(w.calls[c]) {
            OneEngaged(w, c, d);
          }
          StillKnows(pool, w.disk, after.disk, w.calls[d]);
        }
      }
    }
  }

  lemma EntryKeepsOwnership(pool: Pool, w: World, c: CallId, call: Call)
    requires OwnInv(pool, w) && c !in w.calls && IsEntry(pool, call)
    ensures OwnInv(pool, w.(calls := w.calls[c := call]))
  {
    EntryKeepsRoles(pool, w, c, call);
    hide OwnedDisk, Knows, RoleOf, Overlap, Mix;
    var calls := w.calls[c := call];
    assert forall d :: Plays(calls, d, Releaser) == Plays(w.calls, d, Releaser);
    assert forall d :: Plays(calls, d, Sharer) == Plays(w.calls, d, Sharer);
  }

  lemma HoldKeepsOwnership(pool: Pool, w: World, held: bool)
    requires OwnInv(pool, w)
    ensures OwnInv(pool, w.(disk := w.disk.(held := held)))
  {
    hide Owned, Knows, Engaged, RoleOf, Overlap, Mix, Carries;
    var e := w.disk.(held := held);
    if !w.history.overlapped && !w.history.mixed {
      forall c | c in w.calls && Engaged(w.calls[c])
        ensures Knows(pool, e, w.calls[c])
      {
        StillKnows(pool, w.disk, e, w.calls[c]);
      }
    }
  }

  lemma {:induction false} RunKeepsOwnership(pool: Pool, events: seq<Event>)
    requires ValidPool(pool)
    ensures OwnInv(pool, Run(pool, START, events))
  {
    if events != [] {
      var n := |events| - 1;
      RunKeepsOwnership(pool, events[..n]);
      var w := Run(pool, START, events[..n]);
      match events[n]
      case Enter(c, call) =>
        if c !in w.calls && IsEntry(pool, call) {
          EntryKeepsOwnership(pool, w, c, call);
        }
      case Move(c, fate, given) =>
        if c in w.calls {
          StepKeepsOwnership(pool, w, c, fate, given);
        }
      case Hold(held) =>
        HoldKeepsOwnership(pool, w, held);
    }
  }

  /**
    No orphan and no wrongful removal: after every run in which no allocation was under way
    beside another one or beside a release with the lock, every volume is the one its journal
    owns, a mounted one has its filesystem UUID in the journal, and none was removed while
    mounted or without its own journal.
   */
  lemma NoOrphans(pool: Pool, events: seq<Event>)
    requires ValidPool(pool)
    ensures var w := Run(pool, START, events);
      !w.history.overlapped && !w.history.mixed ==>
        && !w.history.wrongful && !w.history.trespassed
        && (forall n | n in w.disk.volumes ::
              && w.disk.journal.Some? && w.disk.mountpoint
              && w.disk.volumes[n].tag == w.disk.journal.value.ownershipToken && n == LvName(w.disk.volumes[n].tag))
        && (w.disk.mounted.Some? ==>
              && w.disk.mounted.value in w.disk.volumes && w.disk.journal.value.backend.Some?
              && w.disk.journal.value.backend.value.Lvm?
              && w.disk.journal.value.backend.value.filesystemUuid
                 == w.disk.volumes[w.disk.mounted.value].filesystemUuid != "")
  {
    RunKeepsOwnership(pool, events);
  }
}
