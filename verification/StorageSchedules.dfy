/**
  Runs in which execution storage fails what it promises, each from the empty state and for
  every request that can be allocated at all: what the conditions of lease exclusion and of
  ownership leave out does go wrong.
 */
module StorageSchedules {
  import opened Wrappers
  import opened StorageTypes
  import opened ExecutionStorage
  import opened StorageRuns
  import opened OwnershipRuns

  /** A request that this pool and host can serve. */
  predicate Servable(pool: Pool, job: Job)
  {
    && ValidPool(pool) && IsJob(pool, job) && WholeExtents(job.bytes, pool.extentBytes)
    && CanHost(job) && Suitable(job.host, pool.layout) && job.host.proof.daemonId == pool.daemonId
  }

  /** No step fails or is cut. */
  predicate AllWork(events: seq<Event>)
  {
    forall i | 0 <= i < |events| && events[i].Move? :: events[i].fate.Works?
  }

  predicate NoRelease(events: seq<Event>)
  {
    forall i | 0 <= i < |events| && events[i].Enter? :: !events[i].call.Approach?
  }

  ghost predicate NoneOf(calls: Calls, role: Role)
  {
    forall c :: !Plays(calls, c, role)
  }

  // ----------------------------------------------------------------------- one event at a time

  /** The run has led to this durable state, with these calls in progress. */
  ghost predicate At(pool: Pool, events: seq<Event>, d: Disk, calls: Calls, holder: Option<CallId>)
  {
    var w := Run(pool, START, events);
    w.disk == d && w.calls == calls && w.holder == holder
  }

  /** Call `c` is at `call` beside the others. */
  ghost predicate Scene(pool: Pool, events: seq<Event>, d: Disk, others: Calls, c: CallId, call: Call, holder: Option<CallId>)
  {
    c !in others && At(pool, events, d, others[c := call], holder)
  }

  /** A call that is an allocation or not, beside the others, makes no two allocations overlap. */
  ghost predicate Apart(others: Calls, allocating: bool)
  {
    !Overlap(others) && (allocating ==> NoneOf(others, Allocator))
  }

  /** What a longer run keeps of a shorter one, in which such a call beside the others moved. */
  ghost predicate Longer(pool: Pool, events: seq<Event>, more: seq<Event>, others: Calls, allocating: bool)
  {
    && (NoRelease(events) ==> NoRelease(more))
    && (Apart(others, allocating) && !Run(pool, START, events).history.overlapped ==> !Run(pool, START, more).history.overlapped)
  }

  predicate Allocates(call: Option<Call>)
  {
    call.Some? && RoleOf(call.value).Allocator?
  }

  /** One event more. */
  predicate Follow(events: seq<Event>, more: seq<Event>)
  {
    |more| == |events| + 1 && events <= more
  }

  function HolderAfter(holder: Option<CallId>, c: CallId, next: Option<Call>): Option<CallId>
  {
    if next.Some? && RoleOf(next.value).Releaser? then Some(c) else if holder == Some(c) then None else holder
  }

  lemma RunOn(pool: Pool, events: seq<Event>, event: Event)
    ensures Run(pool, START, events + [event]) == Happened(pool, Run(pool, START, events), event)
  {
    assert (events + [event])[..|events|] == events;
  }

  lemma StillApart(others: Calls, c: CallId, call: Call)
    requires c !in others && Apart(others, RoleOf(call).Allocator?)
    ensures !Overlap(others[c := call])
  {
    hide RoleOf;
    var calls := others[c := call];
    forall d: CallId
      ensures Plays(calls, d, Allocator) ==> Plays(others, d, Allocator) || (d == c && RoleOf(call).Allocator?)
    {
    }
    forall d: CallId | Plays(calls, d, Allocator)
      ensures !AnyOther(calls, d, Allocator)
    {
      assert RoleOf(call).Allocator? ==> !Plays(others, d, Allocator);
      assert !RoleOf(call).Allocator? ==> !AnyOther(others, d, Allocator);
    }
  }

  lemma Enters(pool: Pool, events: seq<Event>, d: Disk, others: Calls, holder: Option<CallId>, c: CallId, call: Call)
    returns (more: seq<Event>)
    requires At(pool, events, d, others, holder) && c !in others && IsEntry(pool, call)
    ensures Scene(pool, more, d, others, c, call, holder)
    ensures AllWork(events) ==> AllWork(more)
    ensures NoRelease(events) && !call.Approach? ==> NoRelease(more)
    ensures Run(pool, START, more).history == Run(pool, START, events).history
    ensures Follow(events, more)
  {
    more := events + [Enter(c, call)];
    RunOn(pool, events, Enter(c, call));
  }

  /** What one step leads to. */
  function Outcome(pool: Pool, d: Disk, call: Call, fate: Fate, given: string): (Disk, Option<Call>)
  {
    var (e, answer) := Execute(pool, d, Intent(pool, call), fate, given);
    (e, if answer.Died? then None else After(pool, call, answer))
  }

  predicate AsksForLock(call: Call)
  {
    call.Arrive? || call.TakeLock?
  }

  lemma OthersNeedNoLock(pool: Pool, w: World, call: Call, answer: Answer)
    requires !AsksForLock(call)
    ensures Locked(w, Intent(pool, call), answer) == answer
  {
  }

  /** Call `c` takes one step. */
  lemma Moves(pool: Pool, events: seq<Event>, d: Disk, others: Calls, c: CallId, call: Call, holder: Option<CallId>,
              fate: Fate, given: string)
    returns (more: seq<Event>)
    requires Scene(pool, events, d, others, c, call, holder) && !AsksForLock(call)
    ensures var (e, next) := Outcome(pool, d, call, fate, given);
      && (next.Some? ==> Scene(pool, more, e, others, c, next.value, HolderAfter(holder, c, next)))
      && (next.None? ==> At(pool, more, e, others, HolderAfter(holder, c, next)))
    ensures Longer(pool, events, more, others, Allocates(Outcome(pool, d, call, fate, given).1)) && Follow(events, more)
    ensures AllWork(events) && fate.Works? ==> AllWork(more)
    ensures Run(pool, START, more) == Step(pool, Run(pool, START, events), c, fate, given)
  {
    hide Execute, Intent, After, RoleOf, Overlap;
    more := events + [Move(c, fate, given)];
    RunOn(pool, events, Move(c, fate, given));
    var (e, next) := Outcome(pool, d, call, fate, given);
    OthersNeedNoLock(pool, Run(pool, START, events), call, Execute(pool, d, Intent(pool, call), fate, given).1);
    assert next.Some? ==> others[c := call][c := next.value] == others[c := next.value];
    assert others[c := call] - {c} == others;
    if next.Some? && Apart(others, Allocates(next)) {
      StillApart(others, c, next.value);
    }
  }

  /** Call `c` takes one step that works. */
  lemma Advance(pool: Pool, events: seq<Event>, d: Disk, others: Calls, c: CallId, call: Call, holder: Option<CallId>, given: string)
    returns (more: seq<Event>)
    requires Scene(pool, events, d, others, c, call, holder) && !AsksForLock(call)
    ensures var (e, next) := Outcome(pool, d, call, Works, given);
      && (next.Some? ==> Scene(pool, more, e, others, c, next.value, HolderAfter(holder, c, next)))
      && (next.None? ==> At(pool, more, e, others, HolderAfter(holder, c, next)))
    ensures Longer(pool, events, more, others, Allocates(Outcome(pool, d, call, Works, given).1)) && Follow(events, more)
    ensures AllWork(events) ==> AllWork(more)
  {
    hide Outcome, Scene, At, Longer, AllWork, Step, Follow;
    more := Moves(pool, events, d, others, c, call, holder, Works, given);
  }

  // --------------------------------------------------------------------------- one allocation

  function CreatedId(pool: Pool, job: Job): BackendIdentity
  {
    Lvm(pool.volumeGroup, pool.poolUuid, LvName(job.token), "lv", "", job.token)
  }

  function PreparedId(pool: Pool, job: Job): BackendIdentity
  {
    Lvm(pool.volumeGroup, pool.poolUuid, LvName(job.token), "lv", "fs", job.token)
  }

  function Receipt(pool: Pool, job: Job): AllocationReceipt
  {
    JobReceipt(pool, job, PreparedId(pool, job))
  }

  predicate Vacant(d: Disk)
  {
    d.journal.None? && d.volumes == map[] && d.mounted.None? && !d.mountpoint
  }

  function OpenedDisk(pool: Pool, job: Job, d: Disk): Disk
  {
    d.(journal := Some(JobJournal(pool, job)), mountpoint := true,
       volumes := map[LvName(job.token) := Volume(job.token, "lv", job.bytes, "")])
  }

  function PreparedDisk(pool: Pool, job: Job, d: Disk): Disk
  {
    d.(journal := Some(JobJournal(pool, job).WithBackendIdentity(PreparedId(pool, job))), mountpoint := true,
       volumes := map[LvName(job.token) := Volume(job.token, "lv", job.bytes, "fs")])
  }

  function MountedDisk(pool: Pool, job: Job, d: Disk): Disk
  {
    PreparedDisk(pool, job, d).(mounted := Some(LvName(job.token)), leaseFile := true)
  }

  function ReadyDisk(pool: Pool, job: Job, d: Disk): Disk
  {
    MountedDisk(pool, job, d).(journal := Some(ReadyJournal(Receipt(pool, job))))
  }

  lemma OpeningMoves(pool: Pool, job: Job, d: Disk)
    requires Servable(pool, job) && Vacant(d)
    ensures d.tombstone.None? ==> Outcome(pool, d, Begin(job), Works, "") == (d, Some(Seek(job)))
    ensures Outcome(pool, d, Seek(job), Works, "") == (d, Some(Survey(job)))
    ensures Outcome(pool, d, Survey(job), Works, "") == (d, Some(MakeRoot(job)))
    ensures Outcome(pool, d, MakeRoot(job), Works, "") == (d.(mountpoint := true), Some(OpenJournal(job)))
  {
  }

  lemma CreatingMoves(pool: Pool, job: Job, d: Disk)
    requires Servable(pool, job) && Vacant(d)
    ensures Outcome(pool, d.(mountpoint := true), OpenJournal(job), Works, "")
      == (d.(mountpoint := true, journal := Some(JobJournal(pool, job))), Some(Create(job)))
    ensures Outcome(pool, d.(mountpoint := true, journal := Some(JobJournal(pool, job))), Create(job), Works, "lv")
      == (OpenedDisk(pool, job, d), Some(NoteCreated(job, CreatedId(pool, job))))
  {
  }

  /** From the survey to a volume that is not yet recorded. */
  lemma Opens(pool: Pool, job: Job, events: seq<Event>, d: Disk, others: Calls, c: CallId, holder: Option<CallId>)
    returns (more: seq<Event>)
    requires Servable(pool, job) && Vacant(d) && Scene(pool, events, d, others, c, Survey(job), holder) && holder != Some(c)
    ensures Scene(pool, more, OpenedDisk(pool, job, d), others, c, NoteCreated(job, CreatedId(pool, job)), holder)
    ensures Longer(pool, events, more, others, true) && (AllWork(events) ==> AllWork(more))
  {
    hide Outcome, At, AllWork, Follow, NoRelease, NoneOf, Overlap, OpenedDisk, JobJournal, Servable, CreatedId;
    OpeningMoves(pool, job, d);
    CreatingMoves(pool, job, d);
    more := Advance(pool, events, d, others, c, Survey(job), holder, "");
    more := Advance(pool, more, d, others, c, MakeRoot(job), holder, "");
    more := Advance(pool, more, d.(mountpoint := true), others, c, OpenJournal(job), holder, "");
    more := Advance(pool, more, d.(mountpoint := true, journal := Some(JobJournal(pool, job))), others, c, Create(job), holder, "lv");
  }

  function NotedDisk(pool: Pool, job: Job, d: Disk): Disk
  {
    OpenedDisk(pool, job, d).(journal := Some(JobJournal(pool, job).WithBackendIdentity(CreatedId(pool, job))))
  }

  lemma NotingMoves(pool: Pool, job: Job, d: Disk)
    requires Servable(pool, job) && Vacant(d)
    ensures Outcome(pool, OpenedDisk(pool, job, d), NoteCreated(job, CreatedId(pool, job)), Works, "")
      == (NotedDisk(pool, job, d), Some(Prepare(job, CreatedId(pool, job))))
    ensures Outcome(pool, NotedDisk(pool, job, d).(volumes := PreparedDisk(pool, job, d).volumes),
                    NotePrepared(job, PreparedId(pool, job)), Works, "")
      == (PreparedDisk(pool, job, d), Some(MountRoot(job, PreparedId(pool, job))))
  {
    hide Discovered, Created, Prepared, MountedAs, UnmountedBy, RemovedBy, LvmState;
  }

  lemma PrepareWorks(pool: Pool, job: Job, d: Disk)
    requires Servable(pool, job) && Vacant(d)
    ensures Outcome(pool, NotedDisk(pool, job, d), Prepare(job, CreatedId(pool, job)), Works, "fs")
      == (NotedDisk(pool, job, d).(volumes := PreparedDisk(pool, job, d).volumes), Some(NotePrepared(job, PreparedId(pool, job))))
  {
    hide Discovered, Created, MountedAs, UnmountedBy, RemovedBy, LvmState, ValidJournal;
    var name, volumes := LvName(job.token), OpenedDisk(pool, job, d).volumes;
    assert volumes[name := volumes[name].(filesystemUuid := "fs")] == PreparedDisk(pool, job, d).volumes;
  }

  lemma MountWorks(pool: Pool, job: Job, d: Disk)
    requires Servable(pool, job) && Vacant(d)
    ensures Outcome(pool, PreparedDisk(pool, job, d), MountRoot(job, PreparedId(pool, job)), Works, "")
      == (PreparedDisk(pool, job, d).(mounted := Some(LvName(job.token))), Some(CheckMounted(job, PreparedId(pool, job))))
  {
    hide Discovered, Created, Prepared, UnmountedBy, RemovedBy;
  }

  lemma ProvingMoves(pool: Pool, job: Job, d: Disk)
    requires Servable(pool, job) && Vacant(d)
    ensures var e := PreparedDisk(pool, job, d).(mounted := Some(LvName(job.token)));
      var id := PreparedId(pool, job);
      && Outcome(pool, e, CheckMounted(job, id), Works, "") == (e, Some(ProveBind(job, id)))
      && Outcome(pool, e, ProveBind(job, id), Works, "") == (e, Some(EnsureLease(job, id)))
      && Outcome(pool, e, EnsureLease(job, id), Works, "") == (MountedDisk(pool, job, d), Some(Publish(job, id)))
  {
    hide Discovered, Created, Prepared, MountedAs, UnmountedBy, RemovedBy, ValidJournal;
  }

  /** From the new volume to the publication. */
  lemma Prepares(pool: Pool, job: Job, events: seq<Event>, d: Disk, others: Calls, c: CallId, holder: Option<CallId>)
    returns (more: seq<Event>)
    requires Servable(pool, job) && Vacant(d) && holder != Some(c)
    requires Scene(pool, events, OpenedDisk(pool, job, d), others, c, NoteCreated(job, CreatedId(pool, job)), holder)
    ensures Scene(pool, more, MountedDisk(pool, job, d), others, c, Publish(job, PreparedId(pool, job)), holder)
    ensures Longer(pool, events, more, others, true) && (AllWork(events) ==> AllWork(more))
  {
    hide Outcome, At, AllWork, Follow, NoRelease, NoneOf, Overlap, Servable;
    hide OpenedDisk, NotedDisk, PreparedDisk, MountedDisk, JobJournal, CreatedId, PreparedId;
    NotingMoves(pool, job, d);
    PrepareWorks(pool, job, d);
    MountWorks(pool, job, d);
    ProvingMoves(pool, job, d);
    var id := PreparedId(pool, job);
    var noted, prepared := NotedDisk(pool, job, d), PreparedDisk(pool, job, d);
    var e := prepared.(mounted := Some(LvName(job.token)));
    more := Advance(pool, events, OpenedDisk(pool, job, d), others, c, NoteCreated(job, CreatedId(pool, job)), holder, "");
    more := Advance(pool, more, noted, others, c, Prepare(job, CreatedId(pool, job)), holder, "fs");
    more := Advance(pool, more, noted.(volumes := prepared.volumes), others, c, NotePrepared(job, id), holder, "");
    more := Advance(pool, more, prepared, others, c, MountRoot(job, id), holder, "");
    more := Advance(pool, more, e, others, c, CheckMounted(job, id), holder, "");
    more := Advance(pool, more, e, others, c, ProveBind(job, id), holder, "");
    more := Advance(pool, more, e, others, c, EnsureLease(job, id), holder, "");
  }

  /** A write of Ready may take effect and still report a failure. */
  lemma PublishingMoves(pool: Pool, job: Job, d: Disk)
    requires Servable(pool, job) && Vacant(d)
    ensures Outcome(pool, MountedDisk(pool, job, d), Publish(job, PreparedId(pool, job)), Works, "")
      == (ReadyDisk(pool, job, d), None)
    ensures Outcome(pool, MountedDisk(pool, job, d), Publish(job, PreparedId(pool, job)), FailsAfter, "")
      == (ReadyDisk(pool, job, d), Some(UndoNote(job, PreparedId(pool, job))))
  {
  }

  const NOBODY: Calls := map[]

  lemma StartIsEmpty(pool: Pool)
    ensures At(pool, [], EMPTY, NOBODY, None) && AllWork([]) && NoRelease([])
    ensures !Run(pool, START, []).history.overlapped && Apart(NOBODY, true) && Apart(NOBODY, false) && NoneOf(NOBODY, Sharer)
  {
  }

  /** An allocation from the empty state up to a volume that is not yet recorded. */
  lemma Starts(pool: Pool, job: Job, c: CallId) returns (events: seq<Event>)
    requires Servable(pool, job)
    ensures Scene(pool, events, OpenedDisk(pool, job, EMPTY), NOBODY, c, NoteCreated(job, CreatedId(pool, job)), None)
    ensures AllWork(events) && NoRelease(events) && !Run(pool, START, events).history.overlapped
  {
    hide Outcome, AllWork, Follow, NoRelease, NoneOf, Overlap, At, OpenedDisk, CreatedId;
    OpeningMoves(pool, job, EMPTY);
    StartIsEmpty(pool);
    events := Enters(pool, [], EMPTY, NOBODY, None, c, Begin(job));
    events := Advance(pool, events, EMPTY, NOBODY, c, Begin(job), None, "");
    events := Advance(pool, events, EMPTY, NOBODY, c, Seek(job), None, "");
    events := Opens(pool, job, events, EMPTY, NOBODY, c, None);
  }

  /** And on to its publication. */
  lemma Mounts(pool: Pool, job: Job, c: CallId) returns (events: seq<Event>)
    requires Servable(pool, job)
    ensures Scene(pool, events, MountedDisk(pool, job, EMPTY), NOBODY, c, Publish(job, PreparedId(pool, job)), None)
    ensures AllWork(events) && NoRelease(events) && !Run(pool, START, events).history.overlapped
  {
    hide AllWork, Follow, NoRelease, NoneOf, Overlap, At, MountedDisk, OpenedDisk, PreparedId, CreatedId;
    StartIsEmpty(pool);
    events := Starts(pool, job, c);
    events := Prepares(pool, job, events, EMPTY, NOBODY, c, None);
  }

  // ----------------------------------------------------------------------------------- leases

  function Granted(call: Call): Call
    requires AsksForLock(call)
  {
    if call.Arrive? then Check(call.receipt) else Reread(call.receipt, call.marked)
  }

  lemma LockWorks(pool: Pool, w: World, others: Calls, c: CallId, call: Call)
    requires AsksForLock(call) && c !in others && w.calls == others[c := call] && w.holder.None? && w.disk.leaseFile
    requires call.TakeLock? ==> NoneOf(others, Sharer)
    ensures Next(pool, w, c, Works, "") == (w.disk, Some(Granted(call)))
    ensures RoleOf(Granted(call)) == if call.Arrive? then Sharer else Releaser
  {
    hide LvmState, Discovered, Created, Prepared, MountedAs, UnmountedBy, RemovedBy, ValidJournal;
    forall o: CallId
      ensures call.TakeLock? ==> !Plays(w.calls, o, Sharer)
    {
      assert call.TakeLock? ==> !Plays(others, o, Sharer) && !RoleOf(call).Sharer?;
    }
  }

  /** The lock file is locked as asked: shared beside no exclusive lock, exclusively beside none. */
  lemma Locks(pool: Pool, events: seq<Event>, d: Disk, others: Calls, c: CallId, call: Call)
    returns (more: seq<Event>)
    requires Scene(pool, events, d, others, c, call, None) && d.leaseFile && AsksForLock(call)
    requires call.TakeLock? ==> NoneOf(others, Sharer)
    ensures Scene(pool, more, d, others, c, Granted(call), if call.Arrive? then None else Some(c))
    ensures Longer(pool, events, more, others, false) && Follow(events, more) && (AllWork(events) ==> AllWork(more))
  {
    hide Next, Apart, RoleOf, Granted;
    more := events + [Move(c, Works, "")];
    RunOn(pool, events, Move(c, Works, ""));
    LockWorks(pool, Run(pool, START, events), others, c, call);
    assert others[c := call][c := Granted(call)] == others[c := Granted(call)];
    if Apart(others, false) {
      StillApart(others, c, Granted(call));
    }
  }

  lemma LeaseMoves(pool: Pool, job: Job, d: Disk)
    requires Servable(pool, job) && Vacant(d)
    ensures var e, receipt := ReadyDisk(pool, job, d), Receipt(pool, job);
      && Outcome(pool, e, Check(receipt), Works, "") == (e, Some(CheckBackend(receipt)))
      && Outcome(pool, e, CheckBackend(receipt), Works, "") == (e, Some(Leased(receipt)))
      && e.leaseFile
  {
    hide Discovered, Created, Prepared, MountedAs, UnmountedBy, RemovedBy, ValidJournal;
  }

  /** A consumer takes the lease of an allocation that passes its two looks. */
  lemma TakesLease(pool: Pool, events: seq<Event>, d: Disk, others: Calls, c: CallId, r: AllocationReceipt) returns (more: seq<Event>)
    requires At(pool, events, d, others, None) && c !in others && d.leaseFile
    requires Outcome(pool, d, Check(r), Works, "") == (d, Some(CheckBackend(r)))
    requires Outcome(pool, d, CheckBackend(r), Works, "") == (d, Some(Leased(r)))
    ensures Scene(pool, more, d, others, c, Leased(r), None)
    ensures Longer(pool, events, more, others, false) && (AllWork(events) ==> AllWork(more))
    ensures |more| == |events| + 4 && events <= more
  {
    hide Outcome, AllWork, NoRelease, NoneOf, Overlap, At, Apart, Run;
    var a := Enters(pool, events, d, others, None, c, Arrive(r));
    var b := Locks(pool, a, d, others, c, Arrive(r));
    var e := Advance(pool, b, d, others, c, Check(r), None, "");
    more := Advance(pool, e, d, others, c, CheckBackend(r), None, "");
    hide Scene, Longer;
    assert events <= b;
    assert events <= e;
  }

  /** A consumer takes the lease of a Ready allocation. */
  lemma Leases(pool: Pool, job: Job, events: seq<Event>, d: Disk, others: Calls, c: CallId) returns (more: seq<Event>)
    requires Servable(pool, job) && Vacant(d) && c !in others
    requires At(pool, events, ReadyDisk(pool, job, d), others, None)
    ensures Scene(pool, more, ReadyDisk(pool, job, d), others, c, Leased(Receipt(pool, job)), None)
    ensures Longer(pool, events, more, others, false) && (AllWork(events) ==> AllWork(more))
  {
    hide Outcome, AllWork, Longer, At, Scene, Receipt, ReadyDisk, Servable;
    LeaseMoves(pool, job, d);
    more := TakesLease(pool, events, ReadyDisk(pool, job, d), others, c, Receipt(pool, job));
  }

  // -------------------------------------------------------------- what may go wrong, and how

  lemma SoloApart(c: CallId, call: Call)
    ensures Apart(NOBODY[c := call], !RoleOf(call).Allocator?)
  {
    hide RoleOf;
    var calls := NOBODY[c := call];
    assert forall d: CallId :: Plays(calls, d, Allocator) ==> d == c;
  }

  /** Rolling a published allocation back takes the journal away. */
  lemma UndoMoves(pool: Pool, job: Job, d: Disk)
    requires Servable(pool, job) && Vacant(d)
    ensures Outcome(pool, ReadyDisk(pool, job, d), UndoNote(job, PreparedId(pool, job)), Works, "")
      == (MountedDisk(pool, job, d), Some(Erase(ToRollBack(job), PreparedId(pool, job), job.bytes, None, Look)))
    ensures var e := MountedDisk(pool, job, d);
      e.journal.Some? && e.journal.value.phase.Allocating? && Touched(ReadyDisk(pool, job, d), e)
  {
  }

  /** A step that touches what is leased disturbs the lease. */
  lemma Disturbs(pool: Pool, w: World, c: CallId, fate: Fate, given: string, lease: CallId)
    requires c in w.calls && lease in w.calls && w.calls[lease].Leased?
    requires Touched(w.disk, Step(pool, w, c, fate, given).disk)
    ensures Step(pool, w, c, fate, given).history.disturbed
  {
    hide Next, Touched;
  }

  /** One allocation, up to a publication that is torn. */
  lemma Tears(pool: Pool, job: Job) returns (events: seq<Event>)
    requires Servable(pool, job)
    ensures Scene(pool, events, ReadyDisk(pool, job, EMPTY), NOBODY, 1, UndoNote(job, PreparedId(pool, job)), None)
    ensures NoRelease(events) && !Run(pool, START, events).history.overlapped
  {
    hide Outcome, AllWork, Follow, NoRelease, NoneOf, Overlap, At, Servable, MountedDisk, ReadyDisk, PreparedId;
    events := Mounts(pool, job, 1);
    PublishingMoves(pool, job, EMPTY);
    StartIsEmpty(pool);
    events := Moves(pool, events, MountedDisk(pool, job, EMPTY), NOBODY, 1, Publish(job, PreparedId(pool, job)), None, FailsAfter, "");
  }

  /**
    One allocation whose Ready record is written by an operation that reports a failure: a
    consumer takes the lease, and the rollback turns the journal back to Allocating under it.
   */
  lemma TornPublication(pool: Pool, job: Job) returns (events: seq<Event>)
    requires Servable(pool, job)
    ensures NoRelease(events)
    ensures var w := Run(pool, START, events);
      && w.history.disturbed && !w.history.overlapped
      && 2 in w.calls && w.calls[2] == Leased(Receipt(pool, job))
      && w.disk.journal.Some? && w.disk.journal.value.phase.Allocating?
  {
    hide Outcome, AllWork, Follow, NoRelease, NoneOf, Overlap, Servable, MountedDisk, ReadyDisk, PreparedId, Receipt, Step, Touched;
    var undo, lease := UndoNote(job, PreparedId(pool, job)), Leased(Receipt(pool, job));
    events := Tears(pool, job);
    SoloApart(1, undo);
    assert RoleOf(undo).Allocator? && !RoleOf(lease).Allocator?;
    hide RoleOf;
    events := Leases(pool, job, events, EMPTY, NOBODY[1 := undo], 2);
    UndoMoves(pool, job, EMPTY);
    SoloApart(2, lease);
    assert NOBODY[1 := undo][2 := lease] == NOBODY[2 := lease][1 := undo];
    var w := Run(pool, START, events);
    events := Moves(pool, events, ReadyDisk(pool, job, EMPTY), NOBODY[2 := lease], 1, undo, None, Works, "");
    Disturbs(pool, w, 1, Works, "", 2);
  }

  /** The rival's way to the same volume. */
  lemma RivalMoves(pool: Pool, job: Job, rival: Job, d: Disk)
    requires Servable(pool, job) && Vacant(d) && d.tombstone.None? && rival.labels == job.labels && rival.bytes == job.bytes
    ensures var e, j := OpenedDisk(pool, job, d), JobJournal(pool, job);
      && Outcome(pool, e, Begin(rival), Works, "") == (e, Some(Seek(rival)))
      && Outcome(pool, e, Seek(rival), Works, "") == (e, Some(Inspect(rival)))
      && Outcome(pool, e, Inspect(rival), Works, "") == (e, Some(Validate(rival, j)))
      && Outcome(pool, e, Validate(rival, j), Works, "") == (e, Some(Search(rival, j)))
      && Outcome(pool, e, Search(rival, j), Works, "") == (e, Some(Adopt(rival, j, CreatedId(pool, job))))
  {
  }

  /** A rival finds the journal without identity, and the volume, and stands before recording it. */
  lemma Follows(pool: Pool, job: Job, rival: Job, events: seq<Event>, others: Calls, c: CallId) returns (more: seq<Event>)
    requires Servable(pool, job) && IsJob(pool, rival) && rival.labels == job.labels && rival.bytes == job.bytes && c !in others
    requires At(pool, events, OpenedDisk(pool, job, EMPTY), others, None)
    ensures Scene(pool, more, OpenedDisk(pool, job, EMPTY), others, c, Adopt(rival, JobJournal(pool, job), CreatedId(pool, job)), None)
    ensures (AllWork(events) ==> AllWork(more)) && (NoRelease(events) ==> NoRelease(more))
  {
    hide Outcome, AllWork, Follow, NoRelease, NoneOf, Overlap, At, Servable, OpenedDisk, JobJournal, CreatedId, Apart;
    RivalMoves(pool, job, rival, EMPTY);
    var e, j := OpenedDisk(pool, job, EMPTY), JobJournal(pool, job);
    more := Enters(pool, events, e, others, None, c, Begin(rival));
    more := Advance(pool, more, e, others, c, Begin(rival), None, "");
    more := Advance(pool, more, e, others, c, Seek(rival), None, "");
    more := Advance(pool, more, e, others, c, Inspect(rival), None, "");
    more := Advance(pool, more, e, others, c, Validate(rival, j), None, "");
    more := Advance(pool, more, e, others, c, Search(rival, j), None, "");
  }

  /** What the rival does to the published allocation. */
  lemma AdoptionMoves(pool: Pool, job: Job, rival: Job, d: Disk)
    requires Servable(pool, job) && Vacant(d)
    ensures var j, id := JobJournal(pool, job), CreatedId(pool, job);
      var e := ReadyDisk(pool, job, d).(journal := Some(j.WithBackendIdentity(id)));
      && Touched(ReadyDisk(pool, job, d), e)
      && Outcome(pool, ReadyDisk(pool, job, d), Adopt(rival, j, id), Works, "")
         == (e, Some(Erase(ToAllocate(rival), id, job.bytes, None, Look)))
      && Outcome(pool, e, Erase(ToAllocate(rival), id, job.bytes, None, Look), Works, "")
         == (e, Some(Erase(ToAllocate(rival), id, job.bytes, None, Removing)))
      && Outcome(pool, e, Erase(ToAllocate(rival), id, job.bytes, None, Removing), Works, "")
         == (e.(volumes := map[]), Some(Erase(ToAllocate(rival), id, job.bytes, None, LookAbsent)))
      && RemovedWrongly(e, e.(volumes := map[]))
  {
  }

  /** A published and leased allocation beside the rival that stands before recording the volume. */
  lemma Overtakes(pool: Pool, job: Job, rival: Job) returns (events: seq<Event>)
    requires Servable(pool, job) && IsJob(pool, rival) && rival.labels == job.labels && rival.bytes == job.bytes
    ensures Scene(pool, events, ReadyDisk(pool, job, EMPTY), NOBODY[3 := Leased(Receipt(pool, job))], 2,
                  Adopt(rival, JobJournal(pool, job), CreatedId(pool, job)), None)
    ensures AllWork(events) && NoRelease(events)
  {
    hide Outcome, AllWork, Follow, NoRelease, NoneOf, Overlap, Apart, Servable;
    hide OpenedDisk, MountedDisk, ReadyDisk, PreparedId, CreatedId, Receipt, JobJournal;
    var id := CreatedId(pool, job);
    var note, adopt, lease := NoteCreated(job, id), Adopt(rival, JobJournal(pool, job), id), Leased(Receipt(pool, job));
    events := Starts(pool, job, 1);
    events := Follows(pool, job, rival, events, NOBODY[1 := note], 2);
    assert NOBODY[1 := note][2 := adopt] == NOBODY[2 := adopt][1 := note];
    events := Prepares(pool, job, events, EMPTY, NOBODY[2 := adopt], 1, None);
    PublishingMoves(pool, job, EMPTY);
    events := Advance(pool, events, MountedDisk(pool, job, EMPTY), NOBODY[2 := adopt], 1, Publish(job, PreparedId(pool, job)), None, "");
    events := Leases(pool, job, events, EMPTY, NOBODY[2 := adopt], 3);
    assert NOBODY[2 := adopt][3 := lease] == NOBODY[3 := lease][2 := adopt];
  }

  lemma HistoryGrows(pool: Pool, w: World, c: CallId, fate: Fate, given: string)
    requires c in w.calls
    ensures var h := Step(pool, w, c, fate, given).history;
      && (w.history.disturbed ==> h.disturbed) && (w.history.wrongful ==> h.wrongful)
      && (RemovedWrongly(w.disk, Step(pool, w, c, fate, given).disk) ==> h.wrongful)
  {
    hide Next, RemovedWrongly;
  }

  /**
    Two overlapping allocations of one request, every step of which works: the second one
    has found the volume of the first before it was recorded, writes Allocating over its
    Ready record under a lease, takes the volume for unmounted, and removes it while mounted.
   */
  lemma OverlappingAllocations(pool: Pool, job: Job, rival: Job) returns (events: seq<Event>)
    requires Servable(pool, job) && IsJob(pool, rival) && rival.labels == job.labels && rival.bytes == job.bytes
    ensures AllWork(events) && NoRelease(events)
    ensures var w := Run(pool, START, events);
      && w.history.disturbed && w.history.wrongful
      && 3 in w.calls && w.calls[3] == Leased(Receipt(pool, job))
      && w.disk.journal.Some? && w.disk.journal.value.phase.Allocating?
      && w.disk.mounted == Some(LvName(job.token)) && w.disk.volumes == map[]
  {
    hide Outcome, AllWork, Follow, NoRelease, NoneOf, Overlap, Apart, Servable, CreatedId, Receipt, Step, Touched, RemovedWrongly;
    var j, id, lease := JobJournal(pool, job), CreatedId(pool, job), Leased(Receipt(pool, job));
    var others := NOBODY[3 := lease];
    var ready := ReadyDisk(pool, job, EMPTY);
    var e := ready.(journal := Some(j.WithBackendIdentity(id)));
    AdoptionMoves(pool, job, rival, EMPTY);
    events := Overtakes(pool, job, rival);
    var w := Run(pool, START, events);
    events := Moves(pool, events, ready, others, 2, Adopt(rival, j, id), None, Works, "");
    Disturbs(pool, w, 2, Works, "", 3);
    HistoryGrows(pool, Run(pool, START, events), 2, Works, "");
    events := Moves(pool, events, e, others, 2, Erase(ToAllocate(rival), id, job.bytes, None, Look), None, Works, "");
    HistoryGrows(pool, Run(pool, START, events), 2, Works, "");
    events := Moves(pool, events, e, others, 2, Erase(ToAllocate(rival), id, job.bytes, None, Removing), None, Works, "");
  }

  // ------------------------------------------------------- an allocation beside a release

  lemma ApproachingMoves(pool: Pool, job: Job)
    requires Servable(pool, job)
    ensures var d, r := ReadyDisk(pool, job, EMPTY), Receipt(pool, job);
      && Outcome(pool, d, Approach(r), Works, "") == (d, Some(CheckHolds(r, false)))
      && Outcome(pool, d, CheckHolds(r, false), Works, "") == (d, Some(TakeLock(r, false)))
      && Outcome(pool, d, Reread(r, false), Works, "") == (d, Some(Authenticate(OnRelease(false, true), r)))
      && d.leaseFile
  {
    hide LvmState, Discovered, Created, Prepared, MountedAs, UnmountedBy, RemovedBy, ValidJournal;
  }

  lemma AuthenticationWorks(pool: Pool, job: Job)
    requires Servable(pool, job)
    ensures var d, r := ReadyDisk(pool, job, EMPTY), Receipt(pool, job);
      Outcome(pool, d, Authenticate(OnRelease(false, true), r), Works, "") == (d, Some(CheckPath(OnRelease(false, true), r, StateMounted)))
  {
  }

  lemma MarkingMoves(pool: Pool, job: Job)
    requires Servable(pool, job)
    ensures var d, r := ReadyDisk(pool, job, EMPTY), Receipt(pool, job);
      && Outcome(pool, d, CheckPath(OnRelease(false, true), r, StateMounted), Works, "") == (d, Some(LeaveMark(r, true)))
      && Outcome(pool, d, LeaveMark(r, true), Works, "") == (d.(tombstone := Some(r)), Some(Turn(r)))
  {
    hide LvmState, Discovered, Created, Prepared, MountedAs, UnmountedBy, RemovedBy, ValidJournal;
  }

  function Erasure(job: Job, r: AllocationReceipt, stage: Stage): Call
  {
    Erase(ToRelease(r), r.backend, job.bytes, Some(r), stage)
  }

  /** Releasing, with the volume in place, mounted or not, or gone. */
  function TurnedDisk(pool: Pool, job: Job, phase: ReleasePhase): Disk
  {
    var r := Receipt(pool, job);
    ReadyDisk(pool, job, EMPTY).(tombstone := Some(r), journal := Some(ReleasingJournal(r, phase)))
  }

  lemma TurnWorks(pool: Pool, job: Job)
    requires Servable(pool, job)
    ensures var r := Receipt(pool, job);
      Outcome(pool, ReadyDisk(pool, job, EMPTY).(tombstone := Some(r)), Turn(r), Works, "")
        == (TurnedDisk(pool, job, Mounted), Some(Erasure(job, r, Look)))
  {
    hide Discovered, Created, Prepared, MountedAs, UnmountedBy, RemovedBy, LvmState;
  }

  lemma UnmountingMoves(pool: Pool, job: Job)
    requires Servable(pool, job)
    ensures var r, d := Receipt(pool, job), TurnedDisk(pool, job, Mounted);
      && Outcome(pool, d, Erasure(job, r, Look), Works, "") == (d, Some(Erasure(job, r, Unmounting)))
      && Outcome(pool, d, Erasure(job, r, Unmounting), Works, "") == (d.(mounted := None), Some(Erasure(job, r, LookUnmounted)))
  {
  }

  lemma RemovingMoves(pool: Pool, job: Job)
    requires Servable(pool, job)
    ensures var r, d := Receipt(pool, job), TurnedDisk(pool, job, Unmounted).(mounted := None);
      && Outcome(pool, TurnedDisk(pool, job, Mounted).(mounted := None), Erasure(job, r, LookUnmounted), Works, "")
         == (TurnedDisk(pool, job, Mounted).(mounted := None), Some(Erasure(job, r, NoteUnmounted)))
      && Outcome(pool, TurnedDisk(pool, job, Mounted).(mounted := None), Erasure(job, r, NoteUnmounted), Works, "")
         == (d, Some(Erasure(job, r, Removing)))
      && Outcome(pool, d, Erasure(job, r, Removing), Works, "") == (d.(volumes := map[]), Some(Erasure(job, r, LookAbsent)))
  {
    hide Discovered, Created, Prepared, MountedAs, UnmountedBy;
  }

  /** What a release leaves when only its journal is still there. */
  function LastDisk(pool: Pool, job: Job): Disk
  {
    Disk(Some(ReleasingJournal(Receipt(pool, job), ObjectAbsent)), map[], None, false, Some(Receipt(pool, job)), true, false)
  }

  lemma AbsentMoves(pool: Pool, job: Job)
    requires Servable(pool, job)
    ensures var r, d := Receipt(pool, job), TurnedDisk(pool, job, Unmounted).(mounted := None, volumes := map[]);
      && Outcome(pool, d, Erasure(job, r, LookAbsent), Works, "") == (d, Some(Erasure(job, r, NoteAbsent)))
      && Outcome(pool, d, Erasure(job, r, NoteAbsent), Works, "")
         == (LastDisk(pool, job).(mountpoint := true), Some(ClearRoot(ToRelease(r))))
  {
    hide Discovered, Created, Prepared, MountedAs, UnmountedBy, RemovedBy;
  }

  lemma ClearWorks(pool: Pool, job: Job)
    requires Servable(pool, job)
    ensures var aim := ToRelease(Receipt(pool, job));
      Outcome(pool, LastDisk(pool, job).(mountpoint := true), ClearRoot(aim), Works, "")
        == (LastDisk(pool, job), Some(ClearJournal(aim)))
  {
    hide Discovered, Created, Prepared, MountedAs, UnmountedBy, RemovedBy, LvmState, ValidJournal;
  }

  /** A release with the lock takes one step that works and goes on. */
  lemma Releases(pool: Pool, events: seq<Event>, d: Disk, others: Calls, c: CallId, call: Call, e: Disk, next: Call)
    returns (more: seq<Event>)
    requires Scene(pool, events, d, others, c, call, Some(c)) && RoleOf(call).Releaser? && RoleOf(next).Releaser?
    requires Outcome(pool, d, call, Works, "") == (e, Some(next))
    ensures Scene(pool, more, e, others, c, next, Some(c))
    ensures Longer(pool, events, more, others, false) && (AllWork(events) ==> AllWork(more))
  {
    hide Outcome, At, AllWork, Follow, NoRelease, Apart;
    more := Advance(pool, events, d, others, c, call, Some(c), "");
  }

  /** A release of the Ready allocation takes the lock. */
  lemma Approaches(pool: Pool, job: Job, events: seq<Event>, others: Calls, c: CallId) returns (more: seq<Event>)
    requires Servable(pool, job) && c !in others && NoneOf(others, Sharer)
    requires At(pool, events, ReadyDisk(pool, job, EMPTY), others, None)
    ensures Scene(pool, more, ReadyDisk(pool, job, EMPTY), others, c, Reread(Receipt(pool, job), false), Some(c))
    ensures AllWork(events) ==> AllWork(more)
    ensures Apart(others, false) && !Run(pool, START, events).history.overlapped ==> !Run(pool, START, more).history.overlapped
  {
    hide Outcome, AllWork, Follow, NoRelease, NoneOf, Overlap, At, Servable, ReadyDisk, Receipt, Apart;
    ApproachingMoves(pool, job);
    var d, r := ReadyDisk(pool, job, EMPTY), Receipt(pool, job);
    more := Enters(pool, events, d, others, None, c, Approach(r));
    more := Advance(pool, more, d, others, c, Approach(r), None, "");
    more := Advance(pool, more, d, others, c, CheckHolds(r, false), None, "");
    more := Locks(pool, more, d, others, c, TakeLock(r, false));
  }

  /** It leaves the tombstone and records Releasing. */
  lemma Turns(pool: Pool, job: Job, events: seq<Event>, others: Calls, c: CallId) returns (more: seq<Event>)
    requires Servable(pool, job)
    requires Scene(pool, events, ReadyDisk(pool, job, EMPTY), others, c, Reread(Receipt(pool, job), false), Some(c))
    ensures Scene(pool, more, TurnedDisk(pool, job, Mounted), others, c, Erasure(job, Receipt(pool, job), Look), Some(c))
    ensures Longer(pool, events, more, others, false) && (AllWork(events) ==> AllWork(more))
  {
    hide Outcome, AllWork, Follow, NoRelease, NoneOf, Overlap, At, Scene, Servable, ReadyDisk, TurnedDisk, Receipt, Apart;
    ApproachingMoves(pool, job);
    AuthenticationWorks(pool, job);
    MarkingMoves(pool, job);
    TurnWorks(pool, job);
    var d, r, o := ReadyDisk(pool, job, EMPTY), Receipt(pool, job), OnRelease(false, true);
    more := Releases(pool, events, d, others, c, Reread(r, false), d, Authenticate(o, r));
    more := Releases(pool, more, d, others, c, Authenticate(o, r), d, CheckPath(o, r, StateMounted));
    more := Releases(pool, more, d, others, c, CheckPath(o, r, StateMounted), d, LeaveMark(r, true));
    more := Releases(pool, more, d, others, c, LeaveMark(r, true), d.(tombstone := Some(r)), Turn(r));
    more := Releases(pool, more, d.(tombstone := Some(r)), others, c, Turn(r), TurnedDisk(pool, job, Mounted), Erasure(job, r, Look));
  }

  function LooseDisk(pool: Pool, job: Job): Disk
  {
    TurnedDisk(pool, job, Unmounted).(mounted := None)
  }

  /** It unmounts the volume. */
  lemma Unmounts(pool: Pool, job: Job, events: seq<Event>, others: Calls, c: CallId) returns (more: seq<Event>)
    requires Servable(pool, job)
    requires Scene(pool, events, TurnedDisk(pool, job, Mounted), others, c, Erasure(job, Receipt(pool, job), Look), Some(c))
    ensures Scene(pool, more, LooseDisk(pool, job), others, c, Erasure(job, Receipt(pool, job), Removing), Some(c))
    ensures Longer(pool, events, more, others, false) && (AllWork(events) ==> AllWork(more))
  {
    hide Outcome, AllWork, Follow, NoRelease, NoneOf, Overlap, At, Scene, Servable, TurnedDisk, Receipt, Apart;
    UnmountingMoves(pool, job);
    RemovingMoves(pool, job);
    var r, d := Receipt(pool, job), TurnedDisk(pool, job, Mounted);
    var e := d.(mounted := None);
    more := Releases(pool, events, d, others, c, Erasure(job, r, Look), d, Erasure(job, r, Unmounting));
    more := Releases(pool, more, d, others, c, Erasure(job, r, Unmounting), e, Erasure(job, r, LookUnmounted));
    more := Releases(pool, more, e, others, c, Erasure(job, r, LookUnmounted), e, Erasure(job, r, NoteUnmounted));
    more := Releases(pool, more, e, others, c, Erasure(job, r, NoteUnmounted), LooseDisk(pool, job), Erasure(job, r, Removing));
  }

  /** It removes the volume, and stands before removing its journal. */
  lemma Clears(pool: Pool, job: Job, events: seq<Event>, others: Calls, c: CallId) returns (more: seq<Event>)
    requires Servable(pool, job)
    requires Scene(pool, events, LooseDisk(pool, job), others, c, Erasure(job, Receipt(pool, job), Removing), Some(c))
    ensures Scene(pool, more, LastDisk(pool, job), others, c, ClearJournal(ToRelease(Receipt(pool, job))), Some(c))
    ensures Longer(pool, events, more, others, false) && (AllWork(events) ==> AllWork(more))
  {
    hide Outcome, AllWork, Follow, NoRelease, NoneOf, Overlap, At, Scene, Servable, LastDisk, TurnedDisk, Receipt, Apart;
    RemovingMoves(pool, job);
    AbsentMoves(pool, job);
    ClearWorks(pool, job);
    var r, d, last := Receipt(pool, job), LooseDisk(pool, job), LastDisk(pool, job);
    var e := d.(volumes := map[]);
    more := Releases(pool, events, d, others, c, Erasure(job, r, Removing), e, Erasure(job, r, LookAbsent));
    more := Releases(pool, more, e, others, c, Erasure(job, r, LookAbsent), e, Erasure(job, r, NoteAbsent));
    more := Releases(pool, more, e, others, c, Erasure(job, r, NoteAbsent), last.(mountpoint := true), ClearRoot(ToRelease(r)));
    more := Releases(pool, more, last.(mountpoint := true), others, c, ClearRoot(ToRelease(r)), last, ClearJournal(ToRelease(r)));
  }

  lemma FindingMoves(pool: Pool, job: Job, rival: Job)
    requires Servable(pool, job) && rival.labels == job.labels && rival.bytes == job.bytes
    ensures var d, r := LastDisk(pool, job), Receipt(pool, job);
      && d.journal.Some?
      && Outcome(pool, ReadyDisk(pool, job, EMPTY), Begin(rival), Works, "") == (ReadyDisk(pool, job, EMPTY), Some(Seek(rival)))
      && Outcome(pool, d, Seek(rival), Works, "") == (d, Some(Inspect(rival)))
      && Outcome(pool, d, Inspect(rival), Works, "") == (d, Some(Validate(rival, d.journal.value)))
      && Outcome(pool, d, Validate(rival, d.journal.value), Works, "") == (d, Some(Authenticate(OnRecovery(rival), r)))
  {
    hide Discovered, Created, Prepared, MountedAs, UnmountedBy, RemovedBy, LvmState, ValidJournal;
  }

  lemma ReauthenticatingMoves(pool: Pool, job: Job, rival: Job)
    requires Servable(pool, job)
    ensures var d, r := LastDisk(pool, job), Receipt(pool, job);
      && Outcome(pool, d, Authenticate(OnRecovery(rival), r), Works, "") == (d, Some(CheckPath(OnRecovery(rival), r, StateAbsent)))
      && Outcome(pool, d, CheckPath(OnRecovery(rival), r, StateAbsent), Works, "")
         == (d, Some(Erase(ToAllocate(rival), r.backend, r.reservedBytes, Some(r), Look)))
  {
    hide Discovered, Created, Prepared, MountedAs, UnmountedBy, RemovedBy, ValidJournal;
  }

  lemma RecoveringMoves(pool: Pool, job: Job, rival: Job)
    requires Servable(pool, job)
    ensures var d, r := LastDisk(pool, job), Receipt(pool, job);
      && Outcome(pool, d, Erase(ToAllocate(rival), r.backend, r.reservedBytes, Some(r), Look), Works, "")
         == (d, Some(ClearRoot(ToAllocate(rival))))
      && Outcome(pool, d, ClearRoot(ToAllocate(rival)), Works, "") == (d, Some(ClearJournal(ToAllocate(rival))))
      && Outcome(pool, d, ClearJournal(ToAllocate(rival)), Works, "") == (d.(journal := None), Some(Survey(rival)))
  {
    hide Discovered, Created, Prepared, MountedAs, UnmountedBy, RemovedBy, ValidJournal;
  }

  /** An allocation that read no tombstone recovers what the release is about to finish, and starts afresh. */
  lemma Recovers(pool: Pool, job: Job, rival: Job, events: seq<Event>, others: Calls, c: CallId, holder: CallId)
    returns (more: seq<Event>)
    requires Servable(pool, job) && rival.labels == job.labels && rival.bytes == job.bytes && holder != c
    requires Scene(pool, events, LastDisk(pool, job), others, c, Seek(rival), Some(holder))
    ensures Scene(pool, more, LastDisk(pool, job).(journal := None), others, c, Survey(rival), Some(holder))
    ensures Longer(pool, events, more, others, true) && (AllWork(events) ==> AllWork(more))
  {
    hide Outcome, AllWork, Follow, NoRelease, NoneOf, Overlap, At, Servable, LastDisk, Receipt;
    FindingMoves(pool, job, rival);
    ReauthenticatingMoves(pool, job, rival);
    RecoveringMoves(pool, job, rival);
    var d, r, h, o := LastDisk(pool, job), Receipt(pool, job), Some(holder), OnRecovery(rival);
    more := Advance(pool, events, d, others, c, Seek(rival), h, "");
    more := Advance(pool, more, d, others, c, Inspect(rival), h, "");
    more := Advance(pool, more, d, others, c, Validate(rival, d.journal.value), h, "");
    more := Advance(pool, more, d, others, c, Authenticate(o, r), h, "");
    more := Advance(pool, more, d, others, c, CheckPath(o, r, StateAbsent), h, "");
    more := Advance(pool, more, d, others, c, Erase(ToAllocate(rival), r.backend, r.reservedBytes, Some(r), Look), h, "");
    more := Advance(pool, more, d, others, c, ClearRoot(ToAllocate(rival)), h, "");
    more := Advance(pool, more, d, others, c, ClearJournal(ToAllocate(rival)), h, "");
  }

  function OrphanDisk(job: Job, d: Disk): Disk
  {
    d.(mountpoint := true, volumes := map[LvName(job.token) := Volume(job.token, "lv", job.bytes, "")])
  }

  lemma LosingMoves(pool: Pool, job: Job, d: Disk, r: AllocationReceipt)
    requires Servable(pool, job) && Vacant(d)
    ensures var e := d.(mountpoint := true);
      && Outcome(pool, e.(journal := Some(JobJournal(pool, job))), ClearJournal(ToRelease(r)), Works, "") == (e, None)
      && Outcome(pool, e, Create(job), Works, "lv") == (OrphanDisk(job, d), Some(NoteCreated(job, CreatedId(pool, job))))
  {
    hide Discovered, Prepared, MountedAs, UnmountedBy, RemovedBy, LvmState, ValidJournal;
  }

  lemma GivingUpMoves(pool: Pool, job: Job, d: Disk)
    requires Servable(pool, job) && Vacant(d)
    ensures var f, id := OrphanDisk(job, d), CreatedId(pool, job);
      && Outcome(pool, f, NoteCreated(job, id), Works, "") == (f, Some(UndoNote(job, id)))
      && Outcome(pool, f, UndoNote(job, id), Works, "") == (f, None)
  {
    hide Discovered, Created, Prepared, MountedAs, UnmountedBy, RemovedBy, LvmState, ValidJournal;
  }

  /** A Ready allocation, and an allocation that has read that there is no tombstone. */
  lemma Meets(pool: Pool, job: Job, rival: Job) returns (events: seq<Event>)
    requires Servable(pool, job) && Servable(pool, rival) && rival.labels == job.labels && rival.bytes == job.bytes
    ensures Scene(pool, events, ReadyDisk(pool, job, EMPTY), NOBODY, 3, Seek(rival), None)
    ensures AllWork(events) && !Run(pool, START, events).history.overlapped
  {
    hide Outcome, AllWork, Follow, NoRelease, NoneOf, Overlap, Apart, At, MountedDisk, ReadyDisk, PreparedId;
    StartIsEmpty(pool);
    PublishingMoves(pool, job, EMPTY);
    FindingMoves(pool, job, rival);
    events := Mounts(pool, job, 1);
    events := Advance(pool, events, MountedDisk(pool, job, EMPTY), NOBODY, 1, Publish(job, PreparedId(pool, job)), None, "");
    events := Enters(pool, events, ReadyDisk(pool, job, EMPTY), NOBODY, None, 3, Begin(rival));
    events := Advance(pool, events, ReadyDisk(pool, job, EMPTY), NOBODY, 3, Begin(rival), None, "");
  }

  /** A release before its last step, beside an allocation that is about to create its volume. */
  lemma Crosses(pool: Pool, job: Job, rival: Job) returns (events: seq<Event>)
    requires Servable(pool, job) && Servable(pool, rival) && rival.labels == job.labels && rival.bytes == job.bytes
    ensures var d := LastDisk(pool, job).(journal := Some(JobJournal(pool, rival)), mountpoint := true);
      Scene(pool, events, d, NOBODY[2 := ClearJournal(ToRelease(Receipt(pool, job)))], 3, Create(rival), Some(2))
    ensures AllWork(events) && !Run(pool, START, events).history.overlapped
  {
    hide Outcome, AllWork, Follow, NoRelease, NoneOf, Overlap, Apart, At, ReadyDisk, TurnedDisk, LooseDisk, Receipt, JobJournal, Servable;
    var seek, clear := Seek(rival), ClearJournal(ToRelease(Receipt(pool, job)));
    BesideBystander(3, seek);
    BesideBystander(2, clear);
    hide RoleOf;
    events := Meets(pool, job, rival);
    events := Approaches(pool, job, events, NOBODY[3 := seek], 2);
    events := Turns(pool, job, events, NOBODY[3 := seek], 2);
    events := Unmounts(pool, job, events, NOBODY[3 := seek], 2);
    events := Clears(pool, job, events, NOBODY[3 := seek], 2);
    assert NOBODY[3 := seek][2 := clear] == NOBODY[2 := clear][3 := seek];
    events := Recovers(pool, job, rival, events, NOBODY[2 := clear], 3, 2);
    events := Reopens(pool, rival, events, LastDisk(pool, job).(journal := None), NOBODY[2 := clear], 3, 2);
  }

  lemma BesideBystander(c: CallId, call: Call)
    requires !RoleOf(call).Allocator? && !RoleOf(call).Sharer?
    ensures Apart(NOBODY[c := call], true) && Apart(NOBODY[c := call], false) && NoneOf(NOBODY[c := call], Sharer)
  {
    SoloApart(c, call);
    hide RoleOf;
  }

  lemma Reopens(pool: Pool, job: Job, events: seq<Event>, d: Disk, others: Calls, c: CallId, holder: CallId) returns (more: seq<Event>)
    requires Servable(pool, job) && Vacant(d) && holder != c && Scene(pool, events, d, others, c, Survey(job), Some(holder))
    ensures Scene(pool, more, d.(journal := Some(JobJournal(pool, job)), mountpoint := true), others, c, Create(job), Some(holder))
    ensures Longer(pool, events, more, others, true) && (AllWork(events) ==> AllWork(more))
  {
    hide Outcome, At, AllWork, Follow, NoRelease, NoneOf, Overlap, JobJournal, Servable;
    OpeningMoves(pool, job, d);
    CreatingMoves(pool, job, d);
    more := Advance(pool, events, d, others, c, Survey(job), Some(holder), "");
    more := Advance(pool, more, d, others, c, MakeRoot(job), Some(holder), "");
    more := Advance(pool, more, d.(mountpoint := true), others, c, OpenJournal(job), Some(holder), "");
  }

  /**
    An allocation beside a release, every step of which works and no two allocations of
    which overlap: the allocation has read that there is no tombstone, recovers what the
    release is about to finish, and opens its journal; the release removes that journal as
    its own; the volume that the allocation then creates has none, when both have returned.
   */
  lemma AllocationBesideRelease(pool: Pool, job: Job, rival: Job) returns (events: seq<Event>)
    requires Servable(pool, job) && Servable(pool, rival) && rival.labels == job.labels && rival.bytes == job.bytes
    ensures AllWork(events)
    ensures var w := Run(pool, START, events);
      && !w.history.overlapped && w.calls == map[]
      && w.disk.journal.None? && LvName(rival.token) in w.disk.volumes
  {
    hide Outcome, AllWork, Follow, NoRelease, NoneOf, Overlap, Apart, JobJournal, Servable, CreatedId;
    StartIsEmpty(pool);
    var d := LastDisk(pool, job).(journal := None);
    LosingMoves(pool, rival, d, Receipt(pool, job));
    GivingUpMoves(pool, rival, d);
    var e, f := d.(mountpoint := true), OrphanDisk(rival, d);
    var create, clear, id := Create(rival), ClearJournal(ToRelease(Receipt(pool, job))), CreatedId(pool, rival);
    events := Crosses(pool, job, rival);
    assert NOBODY[2 := clear][3 := create] == NOBODY[3 := create][2 := clear];
    SoloApart(3, create);
    events := Advance(pool, events, e.(journal := Some(JobJournal(pool, rival))), NOBODY[3 := create], 2, clear, Some(2), "");
    events := Advance(pool, events, e, NOBODY, 3, create, None, "lv");
    events := Advance(pool, events, f, NOBODY, 3, NoteCreated(rival, id), None, "");
    events := Advance(pool, events, f, NOBODY, 3, UndoNote(rival, id), None, "");
  }

  // ----------------------------------------------------- an allocation that nothing can release

  function FreedDisk(pool: Pool, job: Job): Disk
  {
    LastDisk(pool, job).(journal := None)
  }

  lemma FreeingWorks(pool: Pool, job: Job)
    ensures Outcome(pool, LastDisk(pool, job), ClearJournal(ToRelease(Receipt(pool, job))), Works, "") == (FreedDisk(pool, job), None)
    ensures Vacant(FreedDisk(pool, job)) && FreedDisk(pool, job).tombstone == Some(Receipt(pool, job))
  {
    hide Discovered, Created, Prepared, MountedAs, UnmountedBy, RemovedBy, LvmState, ValidJournal;
  }

  /** A whole release of a Ready allocation, beside an allocation that has read that there is no tombstone. */
  lemma GoesBy(pool: Pool, job: Job, rival: Job) returns (events: seq<Event>)
    requires Servable(pool, job) && Servable(pool, rival) && rival.labels == job.labels && rival.bytes == job.bytes
    ensures Scene(pool, events, FreedDisk(pool, job), NOBODY, 3, Seek(rival), None)
    ensures AllWork(events) && !Run(pool, START, events).history.overlapped
  {
    hide Outcome, AllWork, Follow, NoRelease, NoneOf, Overlap, Apart, At, ReadyDisk, TurnedDisk, LooseDisk, LastDisk, FreedDisk, Receipt, Servable;
    var seek, aim := Seek(rival), ToRelease(Receipt(pool, job));
    BesideBystander(3, seek);
    hide RoleOf;
    FreeingWorks(pool, job);
    events := Meets(pool, job, rival);
    events := Approaches(pool, job, events, NOBODY[3 := seek], 2);
    events := Turns(pool, job, events, NOBODY[3 := seek], 2);
    events := Unmounts(pool, job, events, NOBODY[3 := seek], 2);
    events := Clears(pool, job, events, NOBODY[3 := seek], 2);
    events := Advance(pool, events, LastDisk(pool, job), NOBODY[3 := seek], 2, ClearJournal(aim), Some(2), "");
  }

  /** A Ready allocation under the tombstone of another one. */
  predicate Jammed(d: Disk)
  {
    ReadyNow(d) && d.mountpoint && d.tombstone.Some? && d.journal.value.receipt != d.tombstone
  }

  /** The calls that get nowhere there: a release past its first look is of the receipt in the tombstone. */
  predicate Idle(d: Disk, call: Call)
  {
    match call
    case Begin(_) | Approach(_) | AckBegin(_) | AckBackend(_, _) | AckPath(_) => true
    case Arrive(_) | Check(_) | CheckBackend(_) | Leased(_) => true
    case SeekPath(receipt) => d.tombstone == Some(receipt)
    case CheckHolds(receipt, _) => d.tombstone == Some(receipt)
    case TakeLock(receipt, _) => d.tombstone == Some(receipt)
    case Reread(receipt, _) => d.tombstone == Some(receipt)
    case _ => false
  }

  /** A step of one of them changes nothing and leads to another one. */
  ghost predicate StaysIdle(pool: Pool, w: World, call: Call, fate: Fate, given: string)
  {
    var (e, answer) := Execute(pool, w.disk, Intent(pool, call), fate, given);
    var next := After(pool, call, Locked(w, Intent(pool, call), answer));
    e == w.disk && (!answer.Died? && next.Some? ==> Idle(w.disk, next.value))
  }

  lemma ReleaseIdles(pool: Pool, w: World, call: Call, fate: Fate, given: string)
    requires Jammed(w.disk) && Idle(w.disk, call)
    requires call.Approach? || call.SeekPath? || call.CheckHolds? || call.TakeLock? || call.Reread?
    ensures StaysIdle(pool, w, call, fate, given)
  {
    hide Discovered, Created, Prepared, MountedAs, UnmountedBy, RemovedBy, LvmState, ValidJournal;
  }

  lemma LookIdles(pool: Pool, w: World, call: Call, fate: Fate, given: string)
    requires Jammed(w.disk) && Idle(w.disk, call)
    requires !call.Approach? && !call.SeekPath? && !call.CheckHolds? && !call.TakeLock? && !call.Reread?
    ensures StaysIdle(pool, w, call, fate, given)
  {
    hide AfterRelease, AfterAllocation, AfterCleanup, AfterInspect, AfterValidate;
    hide Discovered, Created, Prepared, MountedAs, UnmountedBy, RemovedBy, LvmState, ValidJournal;
  }

  lemma IdleStep(pool: Pool, w: World, call: Call, fate: Fate, given: string)
    requires Jammed(w.disk) && Idle(w.disk, call)
    ensures StaysIdle(pool, w, call, fate, given)
  {
    hide StaysIdle, Jammed, Idle;
    if call.Approach? || call.SeekPath? || call.CheckHolds? || call.TakeLock? || call.Reread? {
      ReleaseIdles(pool, w, call, fate, given);
    } else {
      LookIdles(pool, w, call, fate, given);
    }
  }

  lemma EntriesAreIdle(pool: Pool, d: Disk, call: Call)
    requires IsEntry(pool, call)
    ensures Idle(d, call)
  {
  }

  ghost predicate AllIdle(w: World)
  {
    Jammed(w.disk) && forall c | c in w.calls :: Idle(w.disk, w.calls[c])
  }

  /** A Ready allocation under the tombstone of another one stays: no call ever changes anything again. */
  lemma {:induction false} JammedForever(pool: Pool, w: World, events: seq<Event>)
    requires AllIdle(w)
    ensures AllIdle(Run(pool, w, events)) && Run(pool, w, events).disk == w.disk.(held := Run(pool, w, events).disk.held)
  {
    if events != [] {
      var n := |events| - 1;
      JammedForever(pool, w, events[..n]);
      var v := Run(pool, w, events[..n]);
      hide IsEntry, Execute, Intent, After, Recorded, Plays;
      match events[n]
      case Enter(c, call) =>
        if IsEntry(pool, call) {
          EntriesAreIdle(pool, v.disk, call);
        }
      case Move(c, fate, given) =>
        if c in v.calls {
          IdleStep(pool, v, v.calls[c], fate, given);
        }
      case Hold(_) =>
    }
  }

  /**
    An allocation that read no tombstone before a whole release, every step of which works
    and no two allocations of which overlap: it allocates anew under the tombstone that the
    release has left, and nothing can ever release what it has allocated.
   */
  lemma AllocationPastTombstone(pool: Pool, job: Job, rival: Job) returns (events: seq<Event>)
    requires Servable(pool, job) && Servable(pool, rival) && rival.labels == job.labels && rival.bytes == job.bytes
    requires rival.token != job.token
    ensures AllWork(events)
    ensures var w := Run(pool, START, events);
      && !w.history.overlapped && w.calls == map[] && AllIdle(w)
      && w.disk.journal == Some(ReadyJournal(Receipt(pool, rival))) && w.disk.tombstone == Some(Receipt(pool, job))
  {
    hide Outcome, AllWork, Follow, NoRelease, NoneOf, Overlap, Apart, FreedDisk, Servable, CreatedId;
    StartIsEmpty(pool);
    FreeingWorks(pool, job);
    var d := FreedDisk(pool, job);
    OpeningMoves(pool, rival, d);
    PublishingMoves(pool, rival, d);
    events := GoesBy(pool, job, rival);
    events := Advance(pool, events, d, NOBODY, 3, Seek(rival), None, "");
    events := Opens(pool, rival, events, d, NOBODY, 3, None);
    events := Prepares(pool, rival, events, d, NOBODY, 3, None);
    events := Advance(pool, events, MountedDisk(pool, rival, d), NOBODY, 3, Publish(rival, PreparedId(pool, rival)), None, "");
  }

  // ------------------------------------------------------------ every torn publication is fatal

  /** An allocation is under way past a Ready journal only to roll its own publication back. */
  lemma OnlyUndoPastReady(pool: Pool, d: Disk, call: Call)
    requires OwnedDisk(pool, d) && Knows(pool, d, call) && RoleOf(call).Allocator? && ReadyNow(d)
    ensures call.UndoNote?
  {
    hide DescribesVolume, ValidJournal, AllOwnedBy;
    assert d.volumes != map[];
    hide Owned;
  }

  lemma ReadyLeaseMoves(pool: Pool, d: Disk)
    requires OwnedDisk(pool, d) && ReadyNow(d)
    ensures d.leaseFile && d.journal.value.receipt.Some?
    ensures var r := d.journal.value.receipt.value;
      && Outcome(pool, d, Check(r), Works, "") == (d, Some(CheckBackend(r)))
      && Outcome(pool, d, CheckBackend(r), Works, "") == (d, Some(Leased(r)))
  {
    hide Discovered, Created, Prepared, MountedAs, UnmountedBy, RemovedBy;
  }

  lemma UndoTouches(pool: Pool, d: Disk, call: Call)
    requires OwnedDisk(pool, d) && Carries(pool, call) && call.UndoNote? && Knows(pool, d, call) && ReadyNow(d)
    ensures Touched(d, Outcome(pool, d, call, Works, "").0)
  {
    hide Discovered, Created, Prepared, MountedAs, UnmountedBy, RemovedBy, LvmState;
  }

  /** The facts about a run that has led past a torn publication. */
  lemma TornWorld(pool: Pool, w: World, c: CallId)
    requires OwnInv(pool, w) && !w.history.overlapped && !w.history.mixed
    requires Plays(w.calls, c, Allocator) && ReadyNow(w.disk)
    ensures OwnedDisk(pool, w.disk) && w.calls[c].UndoNote? && Carries(pool, w.calls[c]) && Knows(pool, w.disk, w.calls[c])
    ensures w.holder.None?
  {
    hide OwnedDisk, Knows, Carries, RoleOf;
    OnlyUndoPastReady(pool, w.disk, w.calls[c]);
    forall o: CallId
      ensures !Plays(w.calls, o, Releaser)
    {
      assert Plays(w.calls, o, Releaser) ==> AnyOther(w.calls, c, Releaser);
    }
  }

  lemma UndoDisturbs(pool: Pool, events: seq<Event>, d: Disk, others: Calls, c: CallId, undo: Call, consumer: CallId)
    returns (more: seq<Event>)
    requires OwnedDisk(pool, d) && Carries(pool, undo) && undo.UndoNote? && Knows(pool, d, undo) && ReadyNow(d)
    requires Scene(pool, events, d, others, c, undo, None) && consumer in others && others[consumer].Leased?
    ensures Follow(events, more) && Run(pool, START, more).history.disturbed
  {
    hide Outcome, OwnedDisk, Knows, Carries, RoleOf, Step, Touched, ReadyNow, Run, Longer, Follow;
    UndoTouches(pool, d, undo);
    var w := Run(pool, START, events);
    more := Moves(pool, events, d, others, c, undo, None, Works, "");
    Disturbs(pool, w, c, Works, "", consumer);
  }

  /**
    Whenever an allocation is under way although its journal is Ready, which only a torn
    publication leaves behind, the five events of a consumer that takes the lease and of the
    next step of the allocation, all of which work, disturb the lease. Where allocations run
    beside nothing, lease exclusion fails after every torn publication and after nothing else.
   */
  lemma TornIsFatal(pool: Pool, events: seq<Event>, c: CallId, consumer: CallId) returns (more: seq<Event>)
    requires ValidPool(pool)
    requires var w := Run(pool, START, events);
      && !w.history.overlapped && !w.history.mixed
      && Plays(w.calls, c, Allocator) && ReadyNow(w.disk) && consumer !in w.calls
    ensures events <= more && |more| == |events| + 5
    ensures Run(pool, START, more).history.disturbed
  {
    hide Outcome, OwnInv, OwnedDisk, Knows, Carries, RoleOf, Run;
    var w := Run(pool, START, events);
    RunKeepsOwnership(pool, events);
    TornWorld(pool, w, c);
    var undo := w.calls[c];
    ReadyLeaseMoves(pool, w.disk);
    var lease := Leased(w.disk.journal.value.receipt.value);
    var leased := TakesLease(pool, events, w.disk, w.calls, consumer, w.disk.journal.value.receipt.value);
    var others := (w.calls - {c})[consumer := lease];
    assert w.calls[consumer := lease] == others[c := undo];
    more := UndoDisturbs(pool, leased, w.disk, others, c, undo, consumer);
  }

  // ----------------------------------------------------------- a mountpoint without a journal

  predicate Stranded(d: Disk)
  {
    d.journal.None? && d.volumes == map[] && d.mounted.None? && d.mountpoint && d.tombstone.None?
  }

  /** The calls that get nowhere past a stranded mountpoint. */
  predicate Stuck(call: Call)
  {
    match call
    case Begin(_) | Seek(_) | Survey(_) | MakeRoot(_) => true
    case Approach(_) | AckBegin(_) | Arrive(_) | Check(_) => true
    case CheckHolds(_, marked) => !marked
    case TakeLock(_, marked) => !marked
    case Reread(_, marked) => !marked
    case AckBackend(_, marked) => !marked
    case AckPath(marked) => !marked
    case _ => false
  }

  lemma StuckStep(pool: Pool, w: World, call: Call, fate: Fate, given: string)
    requires Stranded(w.disk) && Stuck(call)
    ensures var (e, answer) := Execute(pool, w.disk, Intent(pool, call), fate, given);
      var next := After(pool, call, Locked(w, Intent(pool, call), answer));
      e == w.disk && (next.Some? ==> Stuck(next.value))
  {
    hide Discovered, Created, Prepared, MountedAs, UnmountedBy, RemovedBy, LvmState, ValidJournal;
  }

  lemma EntriesAreStuck(pool: Pool, call: Call)
    requires IsEntry(pool, call)
    ensures Stuck(call)
  {
  }

  ghost predicate AllStuck(w: World)
  {
    Stranded(w.disk) && forall c | c in w.calls :: Stuck(w.calls[c])
  }

  /** A mountpoint without a journal shuts the execution out for good: no call ever changes anything again, held or not. */
  lemma {:induction false} StrandedForever(pool: Pool, w: World, events: seq<Event>)
    requires AllStuck(w)
    ensures AllStuck(Run(pool, w, events)) && Run(pool, w, events).disk == w.disk.(held := Run(pool, w, events).disk.held)
  {
    if events != [] {
      var n := |events| - 1;
      StrandedForever(pool, w, events[..n]);
      var v := Run(pool, w, events[..n]);
      hide Stuck, IsEntry, Execute, Intent, After, Recorded, Plays;
      match events[n]
      case Enter(c, call) =>
        if IsEntry(pool, call) {
          EntriesAreStuck(pool, call);
        }
      case Move(c, fate, given) =>
        if c in v.calls {
          StuckStep(pool, v, v.calls[c], fate, given);
        }
      case Hold(_) =>
    }
  }

  /** One allocation, cut between making the mountpoint and opening the journal, strands it. */
  lemma CutStrands(pool: Pool, job: Job) returns (events: seq<Event>)
    requires Servable(pool, job)
    ensures AllStuck(Run(pool, START, events)) && Run(pool, START, events).calls == map[]
  {
    hide Outcome, Longer, AllWork, Follow, NoRelease, NoneOf, Overlap, Apart, Run;
    OpeningMoves(pool, job, EMPTY);
    CutWorks(pool, job);
    StartIsEmpty(pool);
    events := Enters(pool, [], EMPTY, NOBODY, None, 1, Begin(job));
    events := Advance(pool, events, EMPTY, NOBODY, 1, Begin(job), None, "");
    events := Advance(pool, events, EMPTY, NOBODY, 1, Seek(job), None, "");
    events := Advance(pool, events, EMPTY, NOBODY, 1, Survey(job), None, "");
    events := Advance(pool, events, EMPTY, NOBODY, 1, MakeRoot(job), None, "");
    events := Moves(pool, events, EMPTY.(mountpoint := true), NOBODY, 1, OpenJournal(job), None, CrashesBefore, "");
  }

  lemma CutWorks(pool: Pool, job: Job)
    requires Servable(pool, job)
    ensures Outcome(pool, EMPTY.(mountpoint := true), OpenJournal(job), CrashesBefore, "") == (EMPTY.(mountpoint := true), None)
  {
  }
}
