/**
  Execution storage under concurrency: any number of `allocate`, `release`,
  `ack_release` and lease calls on one execution, interleaved step by step.

  Every call in progress is a program counter with what the call has read so far. One
  step performs one durable operation, which may fail or end the calling process, before
  or after it took effect; a call that ends drops its lock.
 */
module StorageRuns {
  import opened Wrappers
  import opened StorageTypes
  import opened ExecutionStorage

  // --------------------------------------------------------------------- durable state

  datatype Disk = Disk(
    journal: Option<PhaseJournal>, volumes: map<string, Volume>, mounted: Option<string>,
    mountpoint: bool, tombstone: Option<AllocationReceipt>, leaseFile: bool, held: bool)

  const EMPTY := Disk(None, map[], None, false, None, false, false)

  datatype Action =
    | ReadTombstone
    | ReadJournal
    | ReadHolds
    | Probe
    | LookAt(id: BackendIdentity, bytes: nat)
    | LookForPath
    | Discover(token: string, bytes: nat)
    | WriteJournal(journal: PhaseJournal)
    | CreateJournal(journal: PhaseJournal)
    | RemoveJournal
    | CreateTombstone(receipt: AllocationReceipt)
    | RemoveTombstone
    | CreateVolume(token: string, bytes: nat)
    | Format(id: BackendIdentity, bytes: nat)
    | Mount(id: BackendIdentity, bytes: nat)
    | Unmount(id: BackendIdentity)
    | Remove(id: BackendIdentity)
    | CreateMountpoint
    | RemoveMountpoint
    | CreateLease
    | LockShared
    | LockExclusive

  datatype Answer =
    | Died
    | Refused
    | Fine
    | Flag(yes: bool)
    | FoundTombstone(tombstone: Option<AllocationReceipt>)
    | FoundJournal(journal: Option<PhaseJournal>)
    | FoundState(state: BackendState)
    | FoundIdentity(identity: Option<BackendIdentity>)

  function Reply(fate: Fate, answer: Answer): Answer
  {
    match fate
    case Works => answer
    case FailsBefore | FailsAfter => Refused
    case CrashesBefore | CrashesAfter => Died
  }

  /** The answer of a step that has an outcome of its own. */
  function Told(outcome: Outcome<()>, answer: Answer): Answer
  {
    if outcome.Success? then answer else if outcome.error.Crash? then Died else Refused
  }

  function Done<T>(outcome: Outcome<T>): Outcome<()>
  {
    if outcome.Success? then Success(()) else Failure(outcome.error)
  }

  /** One durable operation. `given` is the UUID that a new volume or filesystem gets. */
  function Execute(pool: Pool, d: Disk, action: Action, fate: Fate, given: string): (Disk, Answer)
  {
    var uuid := if given == "" then "uuid" else given;
    match action
    case ReadTombstone => (d, Reply(fate, FoundTombstone(d.tombstone)))
    case ReadJournal => (d, Reply(fate, FoundJournal(d.journal)))
    case ReadHolds => (d, Reply(fate, Flag(d.held)))
    case Probe => (d, Reply(fate, Fine))
    case LookAt(id, bytes) =>
      var state := LvmState(pool.volumeGroup, pool.poolUuid, d.volumes, d.mounted, id, bytes);
      (d, Reply(fate, if state.Success? then FoundState(state.value) else Refused))
    case LookForPath => (d, Reply(fate, Flag(d.mountpoint)))
    case Discover(token, bytes) =>
      var found := Discovered(pool, d.volumes, token, bytes);
      (d, Reply(fate, if found.Success? then FoundIdentity(found.value) else Refused))
    case WriteJournal(j) =>
      if d.journal.None? || !ValidJournal(j, pool.layout) then (d, Reply(fate, Refused))
      else (if fate.Applies() then d.(journal := Some(j)) else d, Reply(fate, Fine))
    case CreateJournal(j) =>
      if d.journal.Some? || !ValidJournal(j, pool.layout) then (d, Reply(fate, Refused))
      else (if fate.Applies() then d.(journal := Some(j)) else d, Reply(fate, Fine))
    case RemoveJournal =>
      if d.journal.None? then (d, Reply(fate, Refused))
      else (if fate.Applies() then d.(journal := None) else d, Reply(fate, Fine))
    case CreateTombstone(receipt) =>
      if d.tombstone.Some? then (d, Reply(fate, Refused))
      else (if fate.Applies() then d.(tombstone := Some(receipt)) else d, Reply(fate, Fine))
    case RemoveTombstone => (if fate.Applies() then d.(tombstone := None) else d, Reply(fate, Fine))
    case CreateVolume(token, bytes) =>
      var (now, r) := Created(pool, d.volumes, token, bytes, fate, uuid);
      (d.(volumes := now), Told(Done(r), if r.Success? then FoundIdentity(Some(r.value)) else Refused))
    case Format(id, bytes) =>
      var (now, r) := Prepared(pool, d.volumes, id, bytes, fate, uuid);
      (d.(volumes := now), Told(Done(r), if r.Success? then FoundIdentity(Some(r.value)) else Refused))
    case Mount(id, bytes) =>
      var (now, r) := MountedAs(pool, d.volumes, d.mounted, d.mountpoint, id, bytes, fate);
      (d.(mounted := now), Told(r, Fine))
    case Unmount(id) =>
      var (now, r) := UnmountedBy(pool, d.volumes, d.mounted, id, fate);
      (d.(mounted := now), Told(r, Fine))
    case Remove(id) =>
      var (now, r) := RemovedBy(pool, d.volumes, id, fate);
      (d.(volumes := now), Told(r, Fine))
    case CreateMountpoint =>
      if d.mountpoint then (d, Reply(fate, Refused))
      else (if fate.Applies() then d.(mountpoint := true) else d, Reply(fate, Fine))
    case RemoveMountpoint =>
      if !d.mountpoint then (d, Reply(fate, Fine))
      else if d.mounted.Some? then (d, Reply(fate, Refused))
      else (if fate.Applies() then d.(mountpoint := false) else d, Reply(fate, Fine))
    case CreateLease => (if fate.Applies() then d.(leaseFile := true) else d, Reply(fate, Fine))
    case LockShared => (d, Reply(fate, Flag(d.leaseFile)))
    case LockExclusive => (d, Reply(fate, Flag(d.leaseFile)))
  }

  /** Who crashes hears nothing, and a step with an effect that fails is told so; without an effect nothing changes. */
  lemma FatesAreTold(pool: Pool, d: Disk, action: Action, fate: Fate, given: string)
    ensures var (e, answer) := Execute(pool, d, action, fate, given);
      && (answer.Died? ==> fate.CrashesBefore? || fate.CrashesAfter?)
      && (fate.CrashesBefore? || fate.FailsBefore? ==> e == d)
      && (e != d && fate.CrashesAfter? ==> answer.Died?)
      && (e != d && fate.FailsAfter? ==> answer.Refused?)
  {
    hide LvmState, Discovered, InspectExact, MountState, IsExactly, ValidJournal, WholeExtents;
  }

  /** Nothing is written over, invalid, or taken from under a mount, and what is answered Fine has been done. */
  lemma NothingIsOverwritten(pool: Pool, d: Disk, action: Action, fate: Fate, given: string)
    ensures var (e, answer) := Execute(pool, d, action, fate, given);
      && (e.journal != d.journal && e.journal.Some? ==> ValidJournal(e.journal.value, pool.layout) && !action.RemoveJournal?)
      && (e.journal != d.journal && d.journal.Some? ==> action.WriteJournal? || action.RemoveJournal?)
      && (e.tombstone.Some? && d.tombstone.Some? ==> e.tombstone == d.tombstone)
      && (d.mounted.Some? && d.mountpoint ==> e.mountpoint)
      && (answer.Fine? ==>
            match action
            case CreateJournal(j) => d.journal.None? && e.journal == Some(j)
            case WriteJournal(j) => d.journal.Some? && e.journal == Some(j)
            case RemoveJournal => d.journal.Some? && e.journal.None?
            case CreateTombstone(receipt) => d.tombstone.None? && e.tombstone == Some(receipt)
            case RemoveTombstone => e.tombstone.None?
            case CreateMountpoint => !d.mountpoint && e.mountpoint
            case RemoveMountpoint => !e.mountpoint
            case CreateLease => e.leaseFile
            case _ => true)
  {
    hide LvmState, Discovered, InspectExact, MountState, IsExactly, ValidJournal, WholeExtents;
  }

  // ---------------------------------------------------------------------------- programs

  datatype Job = Job(labels: Labels, bytes: nat, token: string, host: Host)

  /** What a cleanup is for. */
  datatype Aim = ToAllocate(job: Job) | ToRollBack(job: Job) | ToRelease(receipt: AllocationReceipt)

  datatype Stage = Look | Unmounting | LookUnmounted | NoteUnmounted | Removing | LookAbsent | NoteAbsent

  /** What a release knew before it authenticated the journal: the tombstone, and a Ready record. */
  datatype Occasion = OnRecovery(job: Job) | OnRelease(marked: bool, ready: bool)

  datatype Call =
    // `allocate`
    | Begin(job: Job)
    | Seek(job: Job)
    | Inspect(job: Job)
    | Validate(job: Job, journal: PhaseJournal)
    | Search(job: Job, journal: PhaseJournal)
    | Adopt(job: Job, journal: PhaseJournal, id: BackendIdentity)
    | Survey(job: Job)
    | MakeRoot(job: Job)
    | OpenJournal(job: Job)
    | GiveUpRoot(job: Job)
    | Create(job: Job)
    | NoteCreated(job: Job, id: BackendIdentity)
    | Prepare(job: Job, id: BackendIdentity)
    | NotePrepared(job: Job, id: BackendIdentity)
    | MountRoot(job: Job, id: BackendIdentity)
    | CheckMounted(job: Job, id: BackendIdentity)
    | ProveBind(job: Job, id: BackendIdentity)
    | EnsureLease(job: Job, id: BackendIdentity)
    | Publish(job: Job, id: BackendIdentity)
    | UndoSearch(job: Job)
    | UndoNote(job: Job, id: BackendIdentity)
    // `authenticate_cleanup_authority` and `cleanup_identity`
    | Authenticate(occasion: Occasion, receipt: AllocationReceipt)
    | CheckPath(occasion: Occasion, receipt: AllocationReceipt, state: BackendState)
    | Erase(aim: Aim, id: BackendIdentity, bytes: nat, authority: Option<AllocationReceipt>, stage: Stage)
    | ClearRoot(aim: Aim)
    | ClearJournal(aim: Aim)
    // `release`
    | Approach(receipt: AllocationReceipt)
    | SeekPath(receipt: AllocationReceipt)
    | SeekBackend(receipt: AllocationReceipt)
    | CheckHolds(receipt: AllocationReceipt, marked: bool)
    | TakeLock(receipt: AllocationReceipt, marked: bool)
    | Reread(receipt: AllocationReceipt, marked: bool)
    | LeaveMark(receipt: AllocationReceipt, ready: bool)
    | Turn(receipt: AllocationReceipt)
    // `ack_release`
    | AckBegin(receipt: AllocationReceipt)
    | AckBackend(receipt: AllocationReceipt, marked: bool)
    | AckPath(marked: bool)
    | AckRemove
    // `acquire_ready_lease` and the lease itself
    | Arrive(receipt: AllocationReceipt)
    | Check(receipt: AllocationReceipt)
    | CheckBackend(receipt: AllocationReceipt)
    | Leased(receipt: AllocationReceipt)

  function JobJournal(pool: Pool, job: Job): PhaseJournal
  {
    AllocatingJournal(job.labels, job.bytes, pool.layout.root, pool.backendKind, pool.backendKey, pool.poolUuid, job.token)
  }

  function JobReceipt(pool: Pool, job: Job, id: BackendIdentity): AllocationReceipt
  {
    AllocationReceipt(ALLOCATION_API_VERSION, job.labels, job.bytes, pool.layout.root,
                      pool.backendKind, pool.backendKey, pool.poolUuid, id, job.host.proof)
  }

  /** What a call does next. */
  function Intent(pool: Pool, call: Call): Action
  {
    match call
    case Begin(_) => ReadTombstone
    case Seek(_) => ReadJournal
    case Inspect(_) => ReadJournal
    case Validate(_, _) => Probe
    case Search(_, j) => Discover(j.ownershipToken, j.reservedBytes)
    case Adopt(_, j, id) => WriteJournal(j.WithBackendIdentity(id))
    case Survey(_) => Probe
    case MakeRoot(_) => CreateMountpoint
    case OpenJournal(job) => CreateJournal(JobJournal(pool, job))
    case GiveUpRoot(_) => RemoveMountpoint
    case Create(job) => CreateVolume(job.token, job.bytes)
    case NoteCreated(job, id) => WriteJournal(JobJournal(pool, job).WithBackendIdentity(id))
    case Prepare(job, id) => Format(id, job.bytes)
    case NotePrepared(job, id) => WriteJournal(JobJournal(pool, job).WithBackendIdentity(id))
    case MountRoot(job, id) => Mount(id, job.bytes)
    case CheckMounted(job, id) => LookAt(id, job.bytes)
    case ProveBind(_, _) => Probe
    case EnsureLease(_, _) => CreateLease
    case Publish(job, id) => WriteJournal(ReadyJournal(JobReceipt(pool, job, id)))
    case UndoSearch(job) => Discover(job.token, job.bytes)
    case UndoNote(job, id) => WriteJournal(JobJournal(pool, job).WithBackendIdentity(id))
    case Authenticate(_, receipt) => LookAt(receipt.backend, receipt.reservedBytes)
    case CheckPath(_, _, _) => LookForPath
    case Erase(_, id, bytes, authority, stage) => EraseIntent(id, bytes, authority, stage)
    case ClearRoot(_) => RemoveMountpoint
    case ClearJournal(_) => RemoveJournal
    case Approach(_) => ReadTombstone
    case SeekPath(_) => LookForPath
    case SeekBackend(receipt) => LookAt(receipt.backend, receipt.reservedBytes)
    case CheckHolds(_, _) => ReadHolds
    case TakeLock(_, _) => LockExclusive
    case Reread(_, _) => ReadJournal
    case LeaveMark(receipt, _) => CreateTombstone(receipt)
    case Turn(receipt) => WriteJournal(ReleasingJournal(receipt, Mounted))
    case AckBegin(_) => ReadTombstone
    case AckBackend(receipt, _) => LookAt(receipt.backend, receipt.reservedBytes)
    case AckPath(_) => LookForPath
    case AckRemove => RemoveTombstone
    case Arrive(_) => LockShared
    case Check(_) => ReadJournal
    case CheckBackend(receipt) => LookAt(receipt.backend, receipt.reservedBytes)
    case Leased(_) => Probe
  }

  function EraseIntent(id: BackendIdentity, bytes: nat, authority: Option<AllocationReceipt>, stage: Stage): Action
  {
    match stage
    case Unmounting => Unmount(id)
    case Removing => Remove(id)
    case NoteUnmounted => if authority.Some? then WriteJournal(ReleasingJournal(authority.value, Unmounted)) else Probe
    case NoteAbsent => if authority.Some? then WriteJournal(ReleasingJournal(authority.value, ObjectAbsent)) else Probe
    case _ => LookAt(id, bytes)
  }

  /** Where a call goes on after an answer; None when it returns. */
  function After(pool: Pool, call: Call, answer: Answer): Option<Call>
  {
    match call
    case Authenticate(_, _) | CheckPath(_, _, _) | Erase(_, _, _, _, _) | ClearRoot(_) | ClearJournal(_) =>
      AfterCleanup(call, answer)
    case Approach(_) | SeekPath(_) | SeekBackend(_) | CheckHolds(_, _) | TakeLock(_, _) | Reread(_, _) | LeaveMark(_, _) | Turn(_) =>
      AfterRelease(pool, call, answer)
    case AckBegin(_) | AckBackend(_, _) | AckPath(_) | AckRemove | Arrive(_) | Check(_) | CheckBackend(_) | Leased(_) =>
      AfterLook(call, answer)
    case Begin(_) | Seek(_) | Inspect(_) | Validate(_, _) | Search(_, _) | Adopt(_, _, _) => AfterRecovery(pool, call, answer)
    case _ => AfterAllocation(pool, call, answer)
  }

  /** `allocate` up to its survey, and `recover_existing`. */
  function AfterRecovery(pool: Pool, call: Call, answer: Answer): Option<Call>
  {
    match call
    case Begin(job) => if answer == FoundTombstone(None) then Some(Seek(job)) else None
    case Seek(job) =>
      if !answer.FoundJournal? then None else Some(if answer.journal.Some? then Inspect(job) else Survey(job))
    case Inspect(job) => AfterInspect(job, answer)
    case Validate(job, j) => if answer.Fine? then AfterValidate(pool, job, j) else None
    case Search(job, j) =>
      if !answer.FoundIdentity? then None
      else Some(if answer.identity.Some? then Adopt(job, j, answer.identity.value) else ClearRoot(ToAllocate(job)))
    case Adopt(job, j, id) => if answer.Fine? then Some(Erase(ToAllocate(job), id, j.reservedBytes, None, Look)) else None
    case _ => None
  }

  /** The rest of `allocate`, and `rollback_allocation`. */
  function AfterAllocation(pool: Pool, call: Call, answer: Answer): Option<Call>
  {
    match call
    case Survey(job) => if answer.Fine? && CanHost(job) then Some(MakeRoot(job)) else None
    case MakeRoot(job) => if answer.Fine? then Some(OpenJournal(job)) else None
    case OpenJournal(job) => Some(if answer.Fine? then Create(job) else GiveUpRoot(job))
    case Create(job) =>
      Some(if answer.FoundIdentity? && answer.identity.Some? then NoteCreated(job, answer.identity.value) else UndoSearch(job))
    case NoteCreated(job, id) => Some(if answer.Fine? then Prepare(job, id) else UndoNote(job, id))
    case Prepare(job, id) => Some(AfterPrepare(job, id, answer))
    case NotePrepared(job, id) => Some(if answer.Fine? then MountRoot(job, id) else UndoNote(job, id))
    case MountRoot(job, id) => Some(if answer.Fine? then CheckMounted(job, id) else UndoNote(job, id))
    case CheckMounted(job, id) => Some(if answer == FoundState(StateMounted) then ProveBind(job, id) else UndoNote(job, id))
    case ProveBind(job, id) =>
      Some(if answer.Fine? && Suitable(job.host, pool.layout) then EnsureLease(job, id) else UndoNote(job, id))
    case EnsureLease(job, id) => Some(if answer.Fine? then Publish(job, id) else UndoNote(job, id))
    case Publish(job, id) => if answer.Fine? then None else Some(UndoNote(job, id))
    case UndoSearch(job) =>
      if !answer.FoundIdentity? then None
      else Some(if answer.identity.Some? then UndoNote(job, answer.identity.value) else ClearRoot(ToRollBack(job)))
    case UndoNote(job, id) => if answer.Fine? then Some(Erase(ToRollBack(job), id, job.bytes, None, Look)) else None
    case _ => None
  }

  /** `authenticate_cleanup_authority` and `cleanup_identity`. */
  function AfterCleanup(call: Call, answer: Answer): Option<Call>
  {
    match call
    case Authenticate(occasion, receipt) =>
      if answer.FoundState? then Some(CheckPath(occasion, receipt, answer.state)) else None
    case CheckPath(occasion, receipt, state) =>
      if answer.Flag? && (answer.yes || state.StateAbsent?) then AfterAuthentication(occasion, receipt, state) else None
    case Erase(aim, id, bytes, authority, stage) => AfterErase(aim, id, bytes, authority, stage, answer)
    case ClearRoot(aim) => if answer.Fine? then Some(ClearJournal(aim)) else None
    case ClearJournal(aim) => if answer.Fine? && aim.ToAllocate? then Some(Survey(aim.job)) else None
    case _ => None
  }

  /** `release`, up to its cleanup. */
  function AfterRelease(pool: Pool, call: Call, answer: Answer): Option<Call>
  {
    match call
    case Approach(receipt) =>
      if !answer.FoundTombstone? then None
      else if answer.tombstone.None? then Some(CheckHolds(receipt, false))
      else if answer.tombstone.value != receipt then None
      else Some(SeekPath(receipt))
    case SeekPath(receipt) =>
      if !answer.Flag? then None else Some(if answer.yes then CheckHolds(receipt, true) else SeekBackend(receipt))
    case SeekBackend(receipt) =>
      if answer.FoundState? && !answer.state.StateAbsent? then Some(CheckHolds(receipt, true)) else None
    case CheckHolds(receipt, marked) => if answer == Flag(false) then Some(TakeLock(receipt, marked)) else None
    case TakeLock(receipt, marked) => if answer == Flag(true) then Some(Reread(receipt, marked)) else None
    case Reread(receipt, marked) => AfterReread(pool, receipt, marked, answer)
    case LeaveMark(receipt, ready) => if answer.Fine? then Some(AfterMark(receipt, ready)) else None
    case Turn(receipt) =>
      if answer.Fine? then Some(Erase(ToRelease(receipt), receipt.backend, receipt.reservedBytes, Some(receipt), Look)) else None
    case _ => None
  }

  /** `ack_release` and `acquire_ready_lease`. */
  function AfterLook(call: Call, answer: Answer): Option<Call>
  {
    match call
    case AckBegin(receipt) =>
      if answer.FoundTombstone? && (answer.tombstone.Some? ==> answer.tombstone.value == receipt)
      then Some(AckBackend(receipt, answer.tombstone.Some?)) else None
    case AckBackend(receipt, marked) => if answer == FoundState(StateAbsent) then Some(AckPath(marked)) else None
    case AckPath(marked) => if answer == Flag(false) && marked then Some(AckRemove) else None
    case Arrive(receipt) => if answer == Flag(true) then Some(Check(receipt)) else None
    case Check(receipt) =>
      if answer.FoundJournal? && answer.journal.Some? && answer.journal.value.phase.Ready?
         && answer.journal.value.receipt == Some(receipt) then Some(CheckBackend(receipt)) else None
    case CheckBackend(receipt) => if answer == FoundState(StateMounted) then Some(Leased(receipt)) else None
    case _ => None
  }

  predicate CanHost(job: Job)
  {
    && job.host.docker.daemonId != "" && job.host.docker.verifier != "" && job.host.docker.methodVersion != ""
    && job.bytes <= job.host.reservable
  }

  /** Another request's journal and a Ready one are refused alike, with nothing changed. */
  function AfterInspect(job: Job, answer: Answer): Option<Call>
  {
    if !answer.FoundJournal? || answer.journal.None? then None
    else
      var j := answer.journal.value;
      if j.labels != job.labels || j.reservedBytes != job.bytes || j.phase.Ready? then None else Some(Validate(job, j))
  }

  function AfterValidate(pool: Pool, job: Job, j: PhaseJournal): Option<Call>
  {
    if j.backendKind != pool.backendKind || j.backendKey != pool.backendKey || j.poolIdentity != pool.poolUuid then None
    else if j.phase.Releasing? then
      if j.receipt.Some? && j.receipt.value.dockerBind.daemonId == pool.daemonId
      then Some(Authenticate(OnRecovery(job), j.receipt.value)) else None
    else if j.backend.Some? then Some(Erase(ToAllocate(job), j.backend.value, j.reservedBytes, None, Look))
    else if j.phase.Allocating? then Some(Search(job, j))
    else None
  }

  function AfterPrepare(job: Job, id: BackendIdentity, answer: Answer): Call
  {
    if !answer.FoundIdentity? || answer.identity.None? then UndoNote(job, id)
    else if ValidPreparedTransition(id, answer.identity.value) then NotePrepared(job, answer.identity.value)
    else UndoNote(job, answer.identity.value)
  }

  function AfterAuthentication(occasion: Occasion, receipt: AllocationReceipt, state: BackendState): Option<Call>
  {
    match occasion
    case OnRecovery(job) => Some(Erase(ToAllocate(job), receipt.backend, receipt.reservedBytes, Some(receipt), Look))
    case OnRelease(marked, ready) =>
      if ready && !state.StateMounted? then None
      else Some(if marked then AfterMark(receipt, ready) else LeaveMark(receipt, ready))
  }

  function AfterReread(pool: Pool, receipt: AllocationReceipt, marked: bool, answer: Answer): Option<Call>
  {
    if !answer.FoundJournal? || answer.journal.None? then None
    else
      var j := answer.journal.value;
      if j.receipt != Some(receipt) || j.phase.Allocating? || receipt.dockerBind.daemonId != pool.daemonId then None
      else Some(Authenticate(OnRelease(marked, j.phase.Ready?), receipt))
  }

  function AfterMark(receipt: AllocationReceipt, ready: bool): Call
  {
    if ready then Turn(receipt) else Erase(ToRelease(receipt), receipt.backend, receipt.reservedBytes, Some(receipt), Look)
  }

  function AfterErase(aim: Aim, id: BackendIdentity, bytes: nat, authority: Option<AllocationReceipt>, stage: Stage,
                      answer: Answer): Option<Call>
  {
    match stage
    case Look =>
      if answer == FoundState(StateMounted) then Some(Erase(aim, id, bytes, authority, Unmounting))
      else if answer == FoundState(StateUnmounted) then Some(Erase(aim, id, bytes, authority, Removing))
      else if answer == FoundState(StateAbsent) then Some(ClearRoot(aim))
      else None
    case Unmounting => if answer.Fine? then Some(Erase(aim, id, bytes, authority, LookUnmounted)) else None
    case LookUnmounted =>
      if answer != FoundState(StateUnmounted) then None
      else Some(Erase(aim, id, bytes, authority, if authority.Some? then NoteUnmounted else Removing))
    case NoteUnmounted => if answer.Fine? then Some(Erase(aim, id, bytes, authority, Removing)) else None
    case Removing => if answer.Fine? then Some(Erase(aim, id, bytes, authority, LookAbsent)) else None
    case LookAbsent =>
      if answer != FoundState(StateAbsent) then None
      else if authority.Some? then Some(Erase(aim, id, bytes, authority, NoteAbsent)) else Some(ClearRoot(aim))
    case NoteAbsent => if answer.Fine? then Some(ClearRoot(aim)) else None
  }

  // ------------------------------------------------------------------------------- runs

  /** What a call holds: nothing, a view of the journal it acts on, or a lock on the lease file. */
  datatype Role = Bystander | Allocator | Releaser | Sharer

  function RoleOf(call: Call): Role
  {
    match call
    case Begin(_) | Seek(_) | Inspect(_) => Bystander
    case Approach(_) | SeekPath(_) | SeekBackend(_) | CheckHolds(_, _) | TakeLock(_, _) => Bystander
    case AckBegin(_) | AckBackend(_, _) | AckPath(_) | AckRemove | Arrive(_) => Bystander
    case Check(_) | CheckBackend(_) | Leased(_) => Sharer
    case Reread(_, _) | LeaveMark(_, _) | Turn(_) => Releaser
    case Authenticate(occasion, _) => if occasion.OnRelease? then Releaser else Allocator
    case CheckPath(occasion, _, _) => if occasion.OnRelease? then Releaser else Allocator
    case Erase(aim, _, _, _, _) => if aim.ToRelease? then Releaser else Allocator
    case ClearRoot(aim) => if aim.ToRelease? then Releaser else Allocator
    case ClearJournal(aim) => if aim.ToRelease? then Releaser else Allocator
    case _ => Allocator
  }

  type CallId = int
  type Calls = map<CallId, Call>

  /**
    What happened so far: a lease was disturbed; a volume was removed while mounted or
    without its own journal; a Ready record was published by a write that reported a
    failure; one was published while another allocation was under way; two allocations
    were under way at once; an allocation was under way beside a release with the lock; a
    call took or changed what was another request's or another receipt's.
   */
  datatype History = History(disturbed: bool, wrongful: bool, torn: bool, overtaken: bool, overlapped: bool, mixed: bool,
                             trespassed: bool)

  datatype World = World(disk: Disk, calls: Calls, holder: Option<CallId>, history: History)

  const START := World(EMPTY, map[], None, History(false, false, false, false, false, false, false))

  predicate ReadyNow(d: Disk)
  {
    d.journal.Some? && d.journal.value.phase.Ready?
  }

  /** The allocation under a lease is taken away: another journal, a tombstone, another mount or volume. */
  predicate Touched(d: Disk, e: Disk)
  {
    || e.journal != d.journal || e.mounted != d.mounted || e.volumes != d.volumes
    || (e.tombstone.Some? && e.tombstone != d.tombstone)
  }

  /** The request that a call serves. */
  function Request(call: Call): Option<Job>
  {
    match call
    case Begin(job) => Some(job)
    case Seek(job) => Some(job)
    case Inspect(job) => Some(job)
    case Validate(job, _) => Some(job)
    case Search(job, _) => Some(job)
    case Adopt(job, _, _) => Some(job)
    case Survey(job) => Some(job)
    case MakeRoot(job) => Some(job)
    case OpenJournal(job) => Some(job)
    case GiveUpRoot(job) => Some(job)
    case Create(job) => Some(job)
    case NoteCreated(job, _) => Some(job)
    case Prepare(job, _) => Some(job)
    case NotePrepared(job, _) => Some(job)
    case MountRoot(job, _) => Some(job)
    case CheckMounted(job, _) => Some(job)
    case ProveBind(job, _) => Some(job)
    case EnsureLease(job, _) => Some(job)
    case Publish(job, _) => Some(job)
    case UndoSearch(job) => Some(job)
    case UndoNote(job, _) => Some(job)
    case Authenticate(occasion, _) => if occasion.OnRecovery? then Some(occasion.job) else None
    case CheckPath(occasion, _, _) => if occasion.OnRecovery? then Some(occasion.job) else None
    case Erase(aim, _, _, _, _) => if aim.ToRelease? then None else Some(aim.job)
    case ClearRoot(aim) => if aim.ToRelease? then None else Some(aim.job)
    case ClearJournal(aim) => if aim.ToRelease? then None else Some(aim.job)
    case _ => None
  }

  /** The receipt that a call with the lock releases. */
  function Released(call: Call): Option<AllocationReceipt>
  {
    match call
    case Reread(receipt, _) => Some(receipt)
    case LeaveMark(receipt, _) => Some(receipt)
    case Turn(receipt) => Some(receipt)
    case Authenticate(occasion, receipt) => if occasion.OnRelease? then Some(receipt) else None
    case CheckPath(occasion, receipt, _) => if occasion.OnRelease? then Some(receipt) else None
    case Erase(aim, _, _, _, _) => if aim.ToRelease? then Some(aim.receipt) else None
    case ClearRoot(aim) => if aim.ToRelease? then Some(aim.receipt) else None
    case ClearJournal(aim) => if aim.ToRelease? then Some(aim.receipt) else None
    case _ => None
  }

  /** Something of an allocation is taken, made or marked. */
  predicate Seizes(d: Disk, e: Disk)
  {
    Touched(d, e) || e.mountpoint != d.mountpoint
  }

  /** What there is was made for the request that the call serves, or is the receipt's that it releases. */
  predicate Entitled(pool: Pool, d: Disk, call: Call)
  {
    && (Request(call).Some? && d.journal.Some? ==> MadeFor(d, Request(call).value))
    && (Released(call).Some? ==> Received(pool, d, Released(call).value))
  }

  predicate MadeFor(d: Disk, job: Job)
  {
    d.journal.Some? && d.journal.value.labels == job.labels && d.journal.value.reservedBytes == job.bytes
  }

  /** The journal is the authority behind the receipt, and its bind proof is this daemon's. */
  predicate Received(pool: Pool, d: Disk, receipt: AllocationReceipt)
  {
    && d.journal.Some? && !d.journal.value.phase.Allocating? && d.journal.value.receipt == Some(receipt)
    && receipt.dockerBind.daemonId == pool.daemonId
  }

  ghost predicate RemovedWrongly(d: Disk, e: Disk)
  {
    exists n | n in d.volumes && n !in e.volumes ::
      d.mounted == Some(n) || d.journal.None? || d.journal.value.ownershipToken != d.volumes[n].tag
  }

  ghost predicate Plays(calls: Calls, c: CallId, role: Role)
  {
    c in calls && RoleOf(calls[c]) == role
  }

  ghost predicate AnyLease(calls: Calls)
  {
    exists c :: c in calls && calls[c].Leased?
  }

  ghost predicate AnyOther(calls: Calls, c: CallId, role: Role)
  {
    exists d :: d != c && Plays(calls, d, role)
  }

  ghost predicate Overlap(calls: Calls)
  {
    exists c :: Plays(calls, c, Allocator) && AnyOther(calls, c, Allocator)
  }

  ghost predicate Mix(calls: Calls)
  {
    exists c :: Plays(calls, c, Allocator) && AnyOther(calls, c, Releaser)
  }

  /** Whether the lock file can be locked as asked. */
  ghost function Locked(w: World, action: Action, answer: Answer): Answer
  {
    match (action, answer)
    case (LockShared, Flag(yes)) => Flag(yes && w.holder.None?)
    case (LockExclusive, Flag(yes)) => Flag(yes && w.holder.None? && forall c :: !Plays(w.calls, c, Sharer))
    case _ => answer
  }

  ghost function Next(pool: Pool, w: World, c: CallId, fate: Fate, given: string): (Disk, Option<Call>)
    requires c in w.calls
  {
    var action := Intent(pool, w.calls[c]);
    var (e, answer) := Execute(pool, w.disk, action, fate, given);
    (e, if answer.Died? then None else After(pool, w.calls[c], Locked(w, action, answer)))
  }

  /** One step of one call. */
  ghost function Step(pool: Pool, w: World, c: CallId, fate: Fate, given: string): World
    requires c in w.calls
  {
    var (e, next) := Next(pool, w, c, fate, given);
    var calls := if next.Some? then w.calls[c := next.value] else w.calls - {c};
    var holder := if Plays(calls, c, Releaser) then Some(c) else if w.holder == Some(c) then None else w.holder;
    World(e, calls, holder, Recorded(pool, w, c, e, calls))
  }

  ghost function Recorded(pool: Pool, w: World, c: CallId, e: Disk, calls: Calls): History
  {
    var h, d := w.history, w.disk;
    var published := ReadyNow(e) && e.journal != d.journal;
    History(h.disturbed || (AnyLease(w.calls) && Touched(d, e)),
            h.wrongful || RemovedWrongly(d, e),
            h.torn || (published && c in calls),
            h.overtaken || (published && AnyOther(w.calls, c, Allocator)),
            h.overlapped || Overlap(calls),
            h.mixed || Mix(calls),
            h.trespassed || (c in w.calls && Seizes(d, e) && !Entitled(pool, d, w.calls[c])))
  }

  /** A run is a sequence of calls made, steps taken and lifecycle holds, in any order and with any outcome. */
  datatype Event = Enter(c: CallId, call: Call) | Move(c: CallId, fate: Fate, given: string) | Hold(held: bool)

  predicate IsJob(pool: Pool, job: Job)
  {
    job.labels.executionId == pool.layout.executionId && job.bytes != 0 && job.token != ""
  }

  predicate IsEntry(pool: Pool, call: Call)
  {
    match call
    case Begin(job) => IsJob(pool, job)
    case Approach(_) | AckBegin(_) | Arrive(_) => true
    case _ => false
  }

  ghost function Happened(pool: Pool, w: World, event: Event): World
  {
    match event
    case Enter(c, call) => if c in w.calls || !IsEntry(pool, call) then w else w.(calls := w.calls[c := call])
    case Move(c, fate, given) => if c in w.calls then Step(pool, w, c, fate, given) else w
    case Hold(held) => w.(disk := w.disk.(held := held))
  }

  ghost function Run(pool: Pool, w: World, events: seq<Event>): World
  {
    if events == [] then w
    else
      var n := |events| - 1;
      Happened(pool, Run(pool, w, events[..n]), events[n])
  }

  // ---------------------------------------------------------------------- what is refused

  function StateOf(pool: Pool, d: Disk, receipt: AllocationReceipt): Outcome<BackendState>
  {
    LvmState(pool.volumeGroup, pool.poolUuid, d.volumes, d.mounted, receipt.backend, receipt.reservedBytes)
  }

  /** The calls that look, and then return or go on. */
  predicate Guarded(call: Call)
  {
    match call
    case Begin(_) | Seek(_) | Inspect(_) | Validate(_, _) | Survey(_) => true
    case Authenticate(_, _) | CheckPath(_, _, _) => true
    case Approach(_) | SeekPath(_) | SeekBackend(_) | CheckHolds(_, _) | TakeLock(_, _) | Reread(_, _) => true
    case AckBegin(_) | AckBackend(_, _) | AckPath(_) | Arrive(_) | Check(_) | CheckBackend(_) | Leased(_) => true
    case _ => false
  }

  /** What each of them asks of the state it looks at. */
  ghost predicate Passes(pool: Pool, w: World, call: Call)
  {
    var d := w.disk;
    match call
    case Begin(_) => d.tombstone.None?
    case Inspect(job) => MadeFor(d, job) && !ReadyNow(d)
    case Validate(_, j) =>
      && j.backendKind == pool.backendKind && j.backendKey == pool.backendKey && j.poolIdentity == pool.poolUuid
      && (j.phase.Releasing? ==> j.receipt.Some? && j.receipt.value.dockerBind.daemonId == pool.daemonId)
      && (j.phase.Ready? ==> j.backend.Some?)
    case Survey(job) =>
      && "" !in {job.host.docker.daemonId, job.host.docker.verifier, job.host.docker.methodVersion}
      && job.host.reservable >= job.bytes
    case Authenticate(_, receipt) => StateOf(pool, d, receipt).Success?
    case CheckPath(occasion, _, state) =>
      && (d.mountpoint || state.StateAbsent?)
      && (occasion.OnRelease? && occasion.ready ==> state.StateMounted?)
    case Approach(receipt) => d.tombstone in {None, Some(receipt)}
    case SeekBackend(receipt) => StateOf(pool, d, receipt) in {Success(StateMounted), Success(StateUnmounted)}
    case CheckHolds(_, _) => !d.held
    case TakeLock(_, _) => d.leaseFile && w.holder.None? && forall c :: !Plays(w.calls, c, Sharer)
    case Reread(receipt, _) => Received(pool, d, receipt)
    case AckBegin(receipt) => d.tombstone in {None, Some(receipt)}
    case AckBackend(receipt, _) => StateOf(pool, d, receipt) == Success(StateAbsent)
    case AckPath(marked) => !d.mountpoint && marked
    case Arrive(_) => d.leaseFile && w.holder.None?
    case Check(receipt) => ReadyNow(d) && d.journal.value.receipt == Some(receipt)
    case CheckBackend(receipt) => StateOf(pool, d, receipt) == Success(StateMounted)
    case Leased(_) => false
    case _ => true
  }

  /** A look changes nothing and goes on past exactly the states that it asks for, when nothing fails. */
  ghost predicate Heeded(pool: Pool, w: World, c: CallId, fate: Fate, given: string)
    requires c in w.calls
  {
    var (e, next) := Next(pool, w, c, fate, given);
    e == w.disk && (next.Some? <==> fate.Works? && Passes(pool, w, w.calls[c]))
  }

  lemma AllocationHeeds(pool: Pool, w: World, c: CallId, fate: Fate, given: string)
    requires c in w.calls && Request(w.calls[c]).Some? && Guarded(w.calls[c])
    ensures Heeded(pool, w, c, fate, given)
  {
    hide LvmState, Discovered, Created, Prepared, MountedAs, UnmountedBy, RemovedBy, ValidJournal;
  }

  lemma ReleaseHeeds(pool: Pool, w: World, c: CallId, fate: Fate, given: string)
    requires c in w.calls && Request(w.calls[c]).None? && Guarded(w.calls[c])
    requires !w.calls[c].AckBegin? && !w.calls[c].AckBackend? && !w.calls[c].AckPath? && !RoleOf(w.calls[c]).Sharer?
    ensures Heeded(pool, w, c, fate, given)
  {
    hide LvmState, Discovered, Created, Prepared, MountedAs, UnmountedBy, RemovedBy, ValidJournal;
  }

  lemma LookHeeds(pool: Pool, w: World, c: CallId, fate: Fate, given: string)
    requires c in w.calls
    requires w.calls[c].AckBegin? || w.calls[c].AckBackend? || w.calls[c].AckPath? || RoleOf(w.calls[c]).Sharer?
    ensures Heeded(pool, w, c, fate, given)
  {
    hide LvmState, Discovered, Created, Prepared, MountedAs, UnmountedBy, RemovedBy, ValidJournal;
  }

  /** No call passes a look that should have stopped it, and none is stopped without cause. */
  lemma LooksAreHeeded(pool: Pool, w: World, c: CallId, fate: Fate, given: string)
    requires c in w.calls && Guarded(w.calls[c])
    ensures var after := Step(pool, w, c, fate, given);
      && after.disk == w.disk
      && (c in after.calls <==> fate.Works? && Passes(pool, w, w.calls[c]))
  {
    hide Passes, Next, Recorded, RoleOf, Guarded;
    var call := w.calls[c];
    if Request(call).Some? {
      AllocationHeeds(pool, w, c, fate, given);
    } else if call.AckBegin? || call.AckBackend? || call.AckPath? || RoleOf(call).Sharer? {
      LookHeeds(pool, w, c, fate, given);
    } else {
      ReleaseHeeds(pool, w, c, fate, given);
    }
  }

  /** The bind is proven, by the mount that is seen and by the daemon, before anything is published. */
  lemma ProofsAreHeeded(pool: Pool, w: World, c: CallId, fate: Fate, given: string)
    requires c in w.calls
    ensures var call, next := w.calls[c], Next(pool, w, c, fate, given).1;
      && (call.CheckMounted? ==>
            (next == Some(ProveBind(call.job, call.id)) <==>
               fate.Works?
               && LvmState(pool.volumeGroup, pool.poolUuid, w.disk.volumes, w.disk.mounted, call.id, call.job.bytes) == Success(StateMounted)))
      && (call.ProveBind? ==>
            (next == Some(EnsureLease(call.job, call.id)) <==> fate.Works? && Suitable(call.job.host, pool.layout)))
  {
    hide LvmState, Discovered, Created, Prepared, MountedAs, UnmountedBy, RemovedBy, ValidJournal;
  }

  /** Once its journal may be there, an allocation that is told of a failure gives its root up or rolls back. */
  lemma FailuresAreUndone(pool: Pool, w: World, c: CallId, fate: Fate, given: string)
    requires c in w.calls && (fate.FailsBefore? || fate.FailsAfter?)
    ensures var call, next := w.calls[c], Next(pool, w, c, fate, given).1;
      && (call.OpenJournal? ==> next == Some(GiveUpRoot(call.job)))
      && (call.Create? ==> next == Some(UndoSearch(call.job)))
      && ((|| call.NoteCreated? || call.Prepare? || call.NotePrepared? || call.MountRoot? || call.CheckMounted?
           || call.ProveBind? || call.EnsureLease? || call.Publish?) ==> next == Some(UndoNote(call.job, call.id)))
  {
    hide LvmState, Discovered, InspectExact, ValidJournal;
  }

  /**
    A rollback that does not know its volume searches for it and goes on with what it finds;
    an identity is recorded as prepared only if it is the created one with a filesystem; an
    acknowledgement takes the tombstone and nothing else.
   */
  lemma LastStepsExactly(pool: Pool, w: World, c: CallId, given: string)
    requires c in w.calls
    ensures var call, (e, next) := w.calls[c], Next(pool, w, c, Works, given);
      && (call.UndoSearch? ==>
            var found := Discovered(pool, w.disk.volumes, call.job.token, call.job.bytes);
            next == if found.Failure? then None
                    else if found.value.Some? then Some(UndoNote(call.job, found.value.value))
                    else Some(ClearRoot(ToRollBack(call.job))))
      && (call.Prepare? && next.Some? && next.value.NotePrepared? ==> ValidPreparedTransition(call.id, next.value.id))
      && (call.AckRemove? ==> e == w.disk.(tombstone := None) && next.None?)
  {
    hide LvmState, Discovered, InspectExact, ValidJournal, ValidPreparedTransition;
  }

  predicate RollsBack(call: Call)
  {
    || call.OpenJournal? || call.Create? || call.NoteCreated? || call.Prepare? || call.NotePrepared? || call.MountRoot?
    || call.CheckMounted? || call.ProveBind? || call.EnsureLease? || call.Publish?
  }

  /** Everything else stops at the first refusal: no later step is taken on the strength of one that failed. */
  lemma RefusalsStop(pool: Pool, call: Call)
    ensures After(pool, call, Refused).Some? <==> RollsBack(call)
  {
    hide AfterRecovery, AfterAllocation, AfterCleanup, AfterRelease, AfterLook;
    AllocationStops(pool, call);
    CleanupStops(call);
    OthersStop(pool, call);
  }

  lemma AllocationStops(pool: Pool, call: Call)
    ensures AfterAllocation(pool, call, Refused).Some? <==> RollsBack(call)
  {
  }

  lemma CleanupStops(call: Call)
    ensures AfterCleanup(call, Refused).None?
  {
  }

  lemma OthersStop(pool: Pool, call: Call)
    ensures AfterRecovery(pool, call, Refused).None? && AfterRelease(pool, call, Refused).None? && AfterLook(call, Refused).None?
  {
  }

  // --------------------------------------------------------------------- lease exclusion

  /** A journal that a call goes on with was not Ready when it was read. */
  predicate Formed(call: Call)
  {
    match call
    case Validate(_, j) => !j.phase.Ready?
    case Search(_, j) => j.phase.Allocating?
    case Adopt(_, j, _) => j.phase.Allocating?
    case _ => true
  }

  lemma AllocationIsFormed(pool: Pool, call: Call, answer: Answer)
    ensures AfterAllocation(pool, call, answer).Some? ==> Formed(AfterAllocation(pool, call, answer).value)
  {
  }

  lemma OthersAreFormed(pool: Pool, call: Call, answer: Answer)
    ensures AfterCleanup(call, answer).Some? ==> Formed(AfterCleanup(call, answer).value)
    ensures AfterRelease(pool, call, answer).Some? ==> Formed(AfterRelease(pool, call, answer).value)
    ensures AfterLook(call, answer).Some? ==> Formed(AfterLook(call, answer).value)
  {
  }

  lemma AfterIsFormed(pool: Pool, call: Call, answer: Answer)
    requires Formed(call)
    ensures After(pool, call, answer).Some? ==> Formed(After(pool, call, answer).value)
  {
    hide AfterAllocation, AfterCleanup, AfterRelease, AfterLook;
    AllocationIsFormed(pool, call, answer);
    OthersAreFormed(pool, call, answer);
  }

  /** Bystanders and lease holders change nothing but a tombstone that they remove. */
  lemma BystandersOnlyLook(pool: Pool, d: Disk, call: Call, fate: Fate, given: string)
    requires RoleOf(call).Bystander? || RoleOf(call).Sharer?
    ensures var e := Execute(pool, d, Intent(pool, call), fate, given).0;
      e == d || e == d.(tombstone := None)
  {
    hide LvmState, Discovered;
  }

  /** Only a publication makes the journal Ready. */
  lemma OnlyPublishMakesReady(pool: Pool, d: Disk, call: Call, fate: Fate, given: string)
    requires Formed(call) && !call.Publish?
    ensures var e := Execute(pool, d, Intent(pool, call), fate, given).0;
      e.journal == d.journal || !ReadyNow(e)
  {
    hide LvmState, Discovered, Created, Prepared, MountedAs, UnmountedBy, RemovedBy, ValidJournal;
  }

  /** What the journal still is for a call that has not been overtaken. */
  predicate Informed(d: Disk, call: Call)
  {
    && (RoleOf(call).Allocator? ==> !ReadyNow(d))
    && (call.CheckBackend? || call.Leased? ==> ReadyNow(d) && d.journal.value.receipt == Some(call.receipt))
    && (call.Leased? ==> d.mounted.Some?)
  }

  ghost predicate LocksAgree(w: World)
  {
    && (forall c :: Plays(w.calls, c, Releaser) ==> w.holder == Some(c))
    && (w.holder.Some? ==> Plays(w.calls, w.holder.value, Releaser))
    && (w.holder.Some? ==> forall c :: !Plays(w.calls, c, Sharer))
  }

  ghost predicate LeaseInv(w: World)
  {
    && (forall c | c in w.calls :: Formed(w.calls[c]))
    && LocksAgree(w)
    && (!w.history.torn && !w.history.overtaken ==>
          !w.history.disturbed && forall c | c in w.calls :: Informed(w.disk, w.calls[c]))
    && (Overlap(w.calls) ==> w.history.overlapped)
    && (w.history.overtaken ==> w.history.overlapped)
  }

  /** A cleanup goes on for what it is for, and no further than a new survey. */
  lemma CleanupGoesOn(call: Call, answer: Answer)
    requires AfterCleanup(call, answer).Some?
    ensures RoleOf(AfterCleanup(call, answer).value) == RoleOf(call)
  {
  }

  /** Who takes a lock, and who gets an allocation under way. */
  predicate Joins(call: Call, answer: Answer, next: Call)
  {
    match RoleOf(next)
    case Releaser => RoleOf(call).Releaser? || (call.TakeLock? && answer == Flag(true))
    case Sharer => RoleOf(call).Sharer? || (call.Arrive? && answer == Flag(true))
    case Allocator => RoleOf(call).Allocator? || NotReadySeen(answer)
    case Bystander => true
  }

  lemma RecoveryJoins(pool: Pool, call: Call, answer: Answer)
    requires AfterRecovery(pool, call, answer).Some?
    ensures Joins(call, answer, AfterRecovery(pool, call, answer).value)
  {
  }

  lemma AllocationGoesOn(pool: Pool, call: Call, answer: Answer)
    requires AfterAllocation(pool, call, answer).Some?
    ensures RoleOf(AfterAllocation(pool, call, answer).value).Allocator? && RoleOf(call).Allocator?
  {
  }

  lemma ReleaseJoins(pool: Pool, call: Call, answer: Answer)
    requires AfterRelease(pool, call, answer).Some?
    ensures Joins(call, answer, AfterRelease(pool, call, answer).value)
  {
  }

  lemma LookJoins(call: Call, answer: Answer)
    requires AfterLook(call, answer).Some?
    ensures Joins(call, answer, AfterLook(call, answer).value)
  {
  }

  /**
    A lock is taken only by asking for it, and an allocation gets under way only past a
    journal that is absent or not Ready.
   */
  lemma RolesAreEarned(pool: Pool, call: Call, answer: Answer)
    requires After(pool, call, answer).Some?
    ensures Joins(call, answer, After(pool, call, answer).value)
  {
    hide AfterRecovery, AfterAllocation, AfterCleanup, AfterRelease, AfterLook, RoleOf;
    if AfterRecovery(pool, call, answer).Some? {
      RecoveryJoins(pool, call, answer);
    }
    if AfterAllocation(pool, call, answer).Some? {
      AllocationGoesOn(pool, call, answer);
    }
    if AfterRelease(pool, call, answer).Some? {
      ReleaseJoins(pool, call, answer);
    }
    if AfterLook(call, answer).Some? {
      LookJoins(call, answer);
    }
    if AfterCleanup(call, answer).Some? {
      CleanupGoesOn(call, answer);
    }
  }

  /** A lease is granted only past a Ready journal and a mounted backend. */
  lemma LooksGrant(call: Call, answer: Answer)
    requires AfterLook(call, answer).Some?
    ensures var next := AfterLook(call, answer).value;
      && (next.CheckBackend? ==> ReadySeen(answer, next.receipt))
      && (next.Leased? ==> call == CheckBackend(next.receipt) && answer == FoundState(StateMounted))
  {
  }

  lemma SharersLook(call: Call)
    ensures RoleOf(call).Sharer? <==> call.Check? || call.CheckBackend? || call.Leased?
  {
  }

  lemma LeasesLookFirst(pool: Pool, call: Call, answer: Answer)
    requires After(pool, call, answer).Some?
    ensures var next := After(pool, call, answer).value;
      && (next.CheckBackend? ==> ReadySeen(answer, next.receipt))
      && (next.Leased? ==> call == CheckBackend(next.receipt) && answer == FoundState(StateMounted))
  {
    hide AfterRecovery, AfterAllocation, AfterCleanup, AfterRelease, AfterLook, RoleOf, ReadySeen, NotReadySeen;
    RolesAreEarned(pool, call, answer);
    SharersLook(call);
    SharersLook(After(pool, call, answer).value);
    if AfterLook(call, answer).Some? {
      LooksGrant(call, answer);
    }
  }

  predicate NotReadySeen(answer: Answer)
  {
    answer.FoundJournal? && (answer.journal.Some? ==> !answer.journal.value.phase.Ready?)
  }

  predicate ReadySeen(answer: Answer, receipt: AllocationReceipt)
  {
    answer.FoundJournal? && answer.journal.Some? && answer.journal.value.phase.Ready? && answer.journal.value.receipt == Some(receipt)
  }

  /** An answer about the journal is what the journal is, and a mount that is seen is there. */
  lemma AnswersAreTrue(pool: Pool, d: Disk, action: Action, fate: Fate, given: string)
    ensures var (e, answer) := Execute(pool, d, action, fate, given);
      && (answer.FoundJournal? ==> e == d && answer.journal == d.journal)
      && (answer == FoundState(StateMounted) ==> e == d && d.mounted.Some?)
  {
    hide Discovered, Created, Prepared, MountedAs, UnmountedBy, RemovedBy, ValidJournal, InspectExact;
  }

  /** The exclusive lock is granted only when nobody holds the file, a shared one when nobody holds it alone. */
  lemma LocksAreGranted(pool: Pool, w: World, c: CallId, fate: Fate, given: string)
    requires c in w.calls && Next(pool, w, c, fate, given).1.Some?
    ensures var role := RoleOf(Next(pool, w, c, fate, given).1.value);
      && (role.Releaser? ==> Plays(w.calls, c, Releaser) || (w.holder.None? && forall d :: !Plays(w.calls, d, Sharer)))
      && (role.Sharer? ==> Plays(w.calls, c, Sharer) || w.holder.None?)
  {
    var call, action := w.calls[c], Intent(pool, w.calls[c]);
    var answer := Locked(w, action, Execute(pool, w.disk, action, fate, given).1);
    RolesAreEarned(pool, call, answer);
    hide After, RoleOf, LvmState, Discovered, Created, Prepared, MountedAs, UnmountedBy, RemovedBy, ValidJournal;
  }

  lemma StepKeepsLocks(pool: Pool, w: World, c: CallId, fate: Fate, given: string)
    requires LocksAgree(w) && c in w.calls
    ensures LocksAgree(Step(pool, w, c, fate, given))
  {
    hide RoleOf, Recorded, Next;
    var after := Step(pool, w, c, fate, given);
    if Next(pool, w, c, fate, given).1.Some? {
      LocksAreGranted(pool, w, c, fate, given);
    }
    assert Plays(w.calls, c, RoleOf(w.calls[c]));
    forall d: CallId, role: Role | d != c
      ensures Plays(after.calls, d, role) == Plays(w.calls, d, role)
    {
    }
  }

  /** What a step of one call means for what another one knows. */
  lemma OthersStayInformed(pool: Pool, w: World, c: CallId, fate: Fate, given: string, d: CallId)
    requires LocksAgree(w) && c in w.calls && d in w.calls && d != c
    requires Formed(w.calls[c]) && Informed(w.disk, w.calls[c]) && Informed(w.disk, w.calls[d])
    requires !Step(pool, w, c, fate, given).history.overtaken
    ensures Informed(Step(pool, w, c, fate, given).disk, w.calls[d])
    ensures w.calls[d].Leased? ==> !Touched(w.disk, Step(pool, w, c, fate, given).disk)
  {
    var call := w.calls[c];
    var e := Execute(pool, w.disk, Intent(pool, call), fate, given).0;
    if RoleOf(call).Bystander? || RoleOf(call).Sharer? {
      BystandersOnlyLook(pool, w.disk, call, fate, given);
    } else if RoleOf(call).Releaser? {
      assert Plays(w.calls, c, Releaser) && !Plays(w.calls, d, Sharer);
      OnlyPublishMakesReady(pool, w.disk, call, fate, given);
    } else {
      assert RoleOf(w.calls[d]).Allocator? ==> Plays(w.calls, d, Allocator) && AnyOther(w.calls, c, Allocator);
      if !call.Publish? {
        OnlyPublishMakesReady(pool, w.disk, call, fate, given);
      }
    }
    hide Execute, Intent, After;
  }

  lemma StepStaysInformed(pool: Pool, w: World, c: CallId, fate: Fate, given: string)
    requires LocksAgree(w) && c in w.calls && Formed(w.calls[c]) && Informed(w.disk, w.calls[c])
    ensures var after := Step(pool, w, c, fate, given);
      c in after.calls && !after.history.torn ==> Informed(after.disk, after.calls[c])
  {
    var call, action := w.calls[c], Intent(pool, w.calls[c]);
    var answer := Locked(w, action, Execute(pool, w.disk, action, fate, given).1);
    if After(pool, call, answer).Some? {
      RolesAreEarned(pool, call, answer);
      LeasesLookFirst(pool, call, answer);
    }
    AnswersAreTrue(pool, w.disk, action, fate, given);
    if !call.Publish? {
      OnlyPublishMakesReady(pool, w.disk, call, fate, given);
    }
    hide Execute, Intent, After, RoleOf;
  }

  /** A publication beside another allocation is one of two that overlap. */
  lemma StepRecordsOverlap(pool: Pool, w: World, c: CallId, fate: Fate, given: string)
    requires LeaseInv(w) && c in w.calls
    ensures var after := Step(pool, w, c, fate, given);
      (Overlap(after.calls) ==> after.history.overlapped) && (after.history.overtaken ==> after.history.overlapped)
  {
    if w.calls[c].Publish? {
      assert Plays(w.calls, c, Allocator);
    } else {
      OnlyPublishMakesReady(pool, w.disk, w.calls[c], fate, given);
    }
    hide Execute, Intent, After, RoleOf;
  }

  lemma StepKeepsLease(pool: Pool, w: World, c: CallId, fate: Fate, given: string)
    requires LeaseInv(w) && c in w.calls
    ensures LeaseInv(Step(pool, w, c, fate, given))
  {
    hide Execute, Intent, After, RoleOf, LocksAgree, Informed, Touched, Formed, Overlap;
    var after := Step(pool, w, c, fate, given);
    var action := Intent(pool, w.calls[c]);
    StepKeepsLocks(pool, w, c, fate, given);
    StepRecordsOverlap(pool, w, c, fate, given);
    AfterIsFormed(pool, w.calls[c], Locked(w, action, Execute(pool, w.disk, action, fate, given).1));
    if !after.history.torn && !after.history.overtaken {
      StepStaysInformed(pool, w, c, fate, given);
      forall d | d in w.calls && d != c
        ensures Informed(after.disk, w.calls[d])
        ensures w.calls[d].Leased? ==> !Touched(w.disk, after.disk)
      {
        OthersStayInformed(pool, w, c, fate, given, d);
      }
      if w.calls[c].Leased? {
        LeasedOnlyLooks(pool, w, c, fate, given);
      }
    }
  }

  lemma LeasedOnlyLooks(pool: Pool, w: World, c: CallId, fate: Fate, given: string)
    requires c in w.calls && w.calls[c].Leased?
    ensures !Touched(w.disk, Step(pool, w, c, fate, given).disk)
  {
  }

  /** A call that begins holds no lock and has seen nothing yet. */
  lemma EntryKeepsRoles(pool: Pool, w: World, c: CallId, call: Call)
    requires c !in w.calls && IsEntry(pool, call)
    ensures RoleOf(call).Bystander? && Formed(call) && Informed(w.disk, call) && !call.Leased?
    ensures forall d: CallId, role: Role | !role.Bystander? :: Plays(w.calls[c := call], d, role) == Plays(w.calls, d, role)
    ensures Overlap(w.calls[c := call]) == Overlap(w.calls) && Mix(w.calls[c := call]) == Mix(w.calls)
  {
    var calls := w.calls[c := call];
    assert RoleOf(call).Bystander?;
    hide RoleOf;
    forall d: CallId, role: Role | !role.Bystander?
      ensures Plays(calls, d, role) == Plays(w.calls, d, role)
      ensures AnyOther(calls, d, role) == AnyOther(w.calls, d, role)
    {
      forall o: CallId
        ensures Plays(calls, o, role) == Plays(w.calls, o, role)
      {
      }
    }
  }

  lemma EntryKeepsLease(pool: Pool, w: World, c: CallId, call: Call)
    requires LeaseInv(w) && c !in w.calls && IsEntry(pool, call)
    ensures LeaseInv(w.(calls := w.calls[c := call]))
  {
    EntryKeepsRoles(pool, w, c, call);
    hide Informed, Formed, RoleOf, Overlap, IsEntry;
    var calls := w.calls[c := call];
    assert forall d :: Plays(calls, d, Releaser) == Plays(w.calls, d, Releaser);
    assert forall d :: Plays(calls, d, Sharer) == Plays(w.calls, d, Sharer);
  }

  lemma HoldKeepsLease(w: World, held: bool)
    requires LeaseInv(w)
    ensures LeaseInv(w.(disk := w.disk.(held := held)))
  {
    hide RoleOf, Formed, Overlap;
  }

  lemma {:induction false} RunKeepsLease(pool: Pool, events: seq<Event>)
    ensures LeaseInv(Run(pool, START, events))
  {
    if events != [] {
      var n := |events| - 1;
      RunKeepsLease(pool, events[..n]);
      var w := Run(pool, START, events[..n]);
      match events[n]
      case Enter(c, call) =>
        if c !in w.calls && IsEntry(pool, call) {
          EntryKeepsLease(pool, w, c, call);
        }
      case Move(c, fate, given) =>
        if c in w.calls {
          StepKeepsLease(pool, w, c, fate, given);
          hide Step, LeaseInv;
        }
      case Hold(held) =>
        HoldKeepsLease(w, held);
    }
  }

  /**
    Lease exclusion, for every interleaving of allocations, releases, acknowledgements and
    lease holders: without a torn publication, and without one beside another allocation
    that is under way, nothing takes an allocation away from under a lease. Two allocations
    that never overlap are enough.
   */
  lemma LeaseExclusion(pool: Pool, events: seq<Event>)
    ensures var w := Run(pool, START, events);
      !w.history.torn && !w.history.overtaken ==>
        && !w.history.disturbed
        && forall c | c in w.calls && w.calls[c].Leased? ::
             ReadyNow(w.disk) && w.disk.journal.value.receipt == Some(w.calls[c].receipt) && w.disk.mounted.Some?
    ensures var w := Run(pool, START, events);
      !w.history.torn && !w.history.overlapped ==> !w.history.disturbed
  {
    RunKeepsLease(pool, events);
  }
}
