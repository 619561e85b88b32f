/**
  The lifecycle of one execution's hard-bounded volume: allocate, roll back,
  recover, release and acknowledge, over a phase journal, the LVM pool, the
  mountpoint directory, the release tombstone and the Ready lease.

  Every backend, directory and journal operation is one atomic step. A step may
  fail or crash the caller, before or after it took effect; a crash returns at
  once and leaves the durable fields as they are. Here the calls of one execution
  run one at a time, while any number of lease holders come and go at every step;
  `StorageRuns` lets calls interleave.
 */
module ExecutionStorage {
  import opened Wrappers
  import opened StorageTypes

  /** How one atomic step ends. */
  datatype Fate = Works | FailsBefore | FailsAfter | CrashesBefore | CrashesAfter {
    predicate Applies() { Works? || FailsAfter? || CrashesAfter? }
    function Verdict(error: Error): (r: Outcome<()>)
      requires error != Crash
    {
      match this
      case Works => Success(())
      case FailsBefore | FailsAfter => Failure(error)
      case CrashesBefore | CrashesAfter => Failure(Crash)
    }
  }

  method Choose(reliable: bool) returns (fate: Fate)
    ensures reliable ==> fate.Works?
  {
    fate := Works;
    if !reliable {
      fate := *;
    }
  }

  datatype AllocationRequest = AllocationRequest(labels: Labels, diskGib: nat)
  datatype DockerCapability = DockerCapability(daemonId: string, verifier: string, methodVersion: string)

  /** What the host answers: the bind verifier, the bytes that can be reserved, and the bind proof. */
  datatype Host = Host(docker: DockerCapability, reservable: nat, proof: DockerBindProof)

  predicate Suitable(host: Host, layout: Layout)
  {
    && host.docker.daemonId != "" && host.docker.verifier != "" && host.docker.methodVersion != ""
    && DockerCapability(host.proof.daemonId, host.proof.verifier, host.proof.methodVersion) == host.docker
    && host.proof.sourcePath == layout.root && host.proof.filesystemId != ""
  }

  /** A logical volume: `filesystemUuid` is empty until it has been formatted. */
  datatype Volume = Volume(tag: string, uuid: string, sizeBytes: nat, filesystemUuid: string)

  function LvName(token: string): (name: string)
    ensures name != ""
  {
    "autospec-" + token
  }

  /** `inspect_exact`: the named volume, refused when anything recorded differs. */
  function InspectExact(group: string, pool: string, volumes: map<string, Volume>,
                        id: BackendIdentity, bytes: nat): (r: Outcome<Option<Volume>>)
  {
    if !id.Lvm? || id.volumeGroup != group then Failure(IdentityMismatch)
    else if id.logicalVolume !in volumes then Success(None)
    else
      var v := volumes[id.logicalVolume];
      if pool != id.volumeGroupUuid || v.uuid != id.logicalVolumeUuid
         || v.sizeBytes != bytes || v.tag != id.ownershipToken
      then Failure(IdentityMismatch)
      else Success(Some(v))
  }

  /** `mount_state`: an empty UUID answers Unmounted without looking at the mounts. */
  function MountState(volumes: map<string, Volume>, mounted: Option<string>, filesystem: string): (r: Outcome<BackendState>)
  {
    if filesystem == "" || mounted.None? then Success(StateUnmounted)
    else if mounted.value in volumes && volumes[mounted.value].filesystemUuid == filesystem then Success(StateMounted)
    else Failure(IdentityMismatch)
  }

  function LvmState(group: string, pool: string, volumes: map<string, Volume>, mounted: Option<string>,
                    id: BackendIdentity, bytes: nat): (r: Outcome<BackendState>)
  {
    match InspectExact(group, pool, volumes, id, bytes)
    case Failure(e) => Failure(e)
    case Success(None) => Success(StateAbsent)
    case Success(Some(v)) =>
      if id.filesystemUuid != "" && v.filesystemUuid != id.filesystemUuid then Failure(IdentityMismatch)
      else MountState(volumes, mounted, id.filesystemUuid)
  }

  /** The volume that was recorded, of the recorded size, is still there. */
  predicate Present(group: string, pool: string, volumes: map<string, Volume>, id: BackendIdentity, bytes: nat)
  {
    && id.Lvm? && (id.volumeGroup, id.volumeGroupUuid) == (group, pool) && id.logicalVolume in volumes
    && volumes[id.logicalVolume] ==
       Volume(id.ownershipToken, id.logicalVolumeUuid, bytes, volumes[id.logicalVolume].filesystemUuid)
  }

  /**
    Absent: nothing has the name. Mounted: the recorded volume with the recorded filesystem,
    which is the one mounted. Unmounted: the recorded volume and no mount, or any mount if no
    filesystem was recorded. Everything else is refused.
   */
  lemma StateExactly(group: string, pool: string, volumes: map<string, Volume>, mounted: Option<string>,
                     id: BackendIdentity, bytes: nat)
    ensures var state := LvmState(group, pool, volumes, mounted, id, bytes);
      && (state == Success(StateAbsent) <==> id.Lvm? && id.volumeGroup == group && id.logicalVolume !in volumes)
      && (state == Success(StateMounted) <==>
            && Present(group, pool, volumes, id, bytes) && mounted.Some? && mounted.value in volumes
            && "" != volumes[mounted.value].filesystemUuid == volumes[id.logicalVolume].filesystemUuid == id.filesystemUuid)
      && (state == Success(StateUnmounted) <==>
            && Present(group, pool, volumes, id, bytes)
            && (id.filesystemUuid == "" || (mounted.None? && volumes[id.logicalVolume].filesystemUuid == id.filesystemUuid)))
  {
  }

  /** What is fixed about one execution's storage. */
  datatype Pool = Pool(layout: Layout, volumeGroup: string, poolUuid: string, extentBytes: nat, daemonId: string,
                       backendKind: string, backendKey: string)

  predicate WholeExtents(bytes: nat, extentBytes: nat)
  {
    extentBytes != 0 && bytes % extentBytes == 0
  }

  // ------------------------------------------------------- what each backend step does

  /** The volume with the token's tag, which its name repeats; refused when its size differs. */
  function Discovered(pool: Pool, volumes: map<string, Volume>, token: string, bytes: nat): Outcome<Option<BackendIdentity>>
  {
    var name := LvName(token);
    if name !in volumes || volumes[name].tag != token then Success(None)
    else if volumes[name].sizeBytes != bytes then Failure(IdentityMismatch)
    else Success(Some(Lvm(pool.volumeGroup, pool.poolUuid, name, volumes[name].uuid, "", token)))
  }

  /** Found is exactly the volume with the token's name, tag and size; none, if no volume has name and tag. */
  lemma DiscoveredExactly(pool: Pool, volumes: map<string, Volume>, token: string, bytes: nat)
    ensures var found, tagged := Discovered(pool, volumes, token, bytes), LvName(token) in volumes && volumes[LvName(token)].tag == token;
      && (found == Success(None) <==> !tagged)
      && (found.Success? && found.value.Some? <==> tagged && volumes[LvName(token)].sizeBytes == bytes)
      && (found.Success? && found.value.Some? ==>
            found.value.value == Lvm(pool.volumeGroup, pool.poolUuid, LvName(token), volumes[LvName(token)].uuid, "", token))
  {
  }

  /** `lvcreate` with the token's tag; refused for a broken extent and when the name is taken. */
  function Created(pool: Pool, volumes: map<string, Volume>, token: string, bytes: nat, fate: Fate, uuid: string)
    : (map<string, Volume>, Outcome<BackendIdentity>)
  {
    var name := LvName(token);
    if !WholeExtents(bytes, pool.extentBytes) then (volumes, Failure(Unavailable))
    else if name in volumes then (volumes, Failure(CommandFailed))
    else
      (if fate.Applies() then volumes[name := Volume(token, uuid, bytes, "")] else volumes,
       Answered(fate.Verdict(CommandFailed), Lvm(pool.volumeGroup, pool.poolUuid, name, uuid, "", token)))
  }

  /** `mkfs` on the exact volume, then read back the filesystem UUID. */
  function Prepared(pool: Pool, volumes: map<string, Volume>, id: BackendIdentity, bytes: nat, fate: Fate, uuid: string)
    : (map<string, Volume>, Outcome<BackendIdentity>)
  {
    var info := InspectExact(pool.volumeGroup, pool.poolUuid, volumes, id, bytes);
    if info.Failure? || info.value.None? || id.filesystemUuid != "" then (volumes, Failure(IdentityMismatch))
    else
      (if fate.Applies() then volumes[id.logicalVolume := volumes[id.logicalVolume].(filesystemUuid := uuid)] else volumes,
       Answered(fate.Verdict(CommandFailed), id.(filesystemUuid := uuid)))
  }

  /** `mount` on the execution root, then prove that exactly this filesystem is mounted. */
  function MountedAs(pool: Pool, volumes: map<string, Volume>, mounted: Option<string>, mountpoint: bool,
                     id: BackendIdentity, bytes: nat, fate: Fate): (Option<string>, Outcome<()>)
  {
    var info := InspectExact(pool.volumeGroup, pool.poolUuid, volumes, id, bytes);
    if info.Failure? || info.value.None? || !mountpoint
       || MountState(volumes, mounted, id.filesystemUuid) != Success(StateUnmounted) then (mounted, Failure(IdentityMismatch))
    else
      var now := if fate.Applies() then Some(id.logicalVolume) else mounted;
      var verdict := fate.Verdict(CommandFailed);
      (now, if verdict.Success? && LvmState(pool.volumeGroup, pool.poolUuid, volumes, now, id, bytes) != Success(StateMounted)
            then Failure(IdentityMismatch) else verdict)
  }

  /** The checks of `unmount` and `remove`: the named volume has the recorded UUIDs and tag. */
  predicate IsExactly(pool: Pool, volumes: map<string, Volume>, id: BackendIdentity)
  {
    && id.Lvm? && id.logicalVolume in volumes && pool.poolUuid == id.volumeGroupUuid
    && volumes[id.logicalVolume].uuid == id.logicalVolumeUuid && volumes[id.logicalVolume].tag == id.ownershipToken
  }

  /** `umount` of the execution root after authenticating the volume; a no-op without a UUID. */
  function UnmountedBy(pool: Pool, volumes: map<string, Volume>, mounted: Option<string>, id: BackendIdentity, fate: Fate)
    : (Option<string>, Outcome<()>)
  {
    if !id.Lvm? then (mounted, Failure(IdentityMismatch))
    else if id.filesystemUuid == "" then (mounted, Success(()))
    else if !IsExactly(pool, volumes, id) then (mounted, Failure(IdentityMismatch))
    else if mounted.None? then (mounted, Failure(CommandFailed))
    else (if fate.Applies() then None else mounted, fate.Verdict(CommandFailed))
  }

  /** `lvremove` after authenticating the volume; it does not itself look at the mounts. */
  function RemovedBy(pool: Pool, volumes: map<string, Volume>, id: BackendIdentity, fate: Fate)
    : (map<string, Volume>, Outcome<()>)
  {
    if !IsExactly(pool, volumes, id) then (volumes, Failure(IdentityMismatch))
    else (if fate.Applies() then volumes - {id.logicalVolume} else volumes, fate.Verdict(CommandFailed))
  }

  /** What was recorded about a volume, its size and filesystem aside, is so. */
  predicate AsRecorded(pool: Pool, volumes: map<string, Volume>, id: BackendIdentity)
  {
    && id.Lvm? && id.volumeGroupUuid == pool.poolUuid && id.logicalVolume in volumes
    && (volumes[id.logicalVolume].uuid, volumes[id.logicalVolume].tag) == (id.logicalVolumeUuid, id.ownershipToken)
  }

  /** Unmounting and removal act on the recorded volume and on no other, and are refused otherwise. */
  lemma RemovalExactly(pool: Pool, volumes: map<string, Volume>, mounted: Option<string>, id: BackendIdentity, fate: Fate)
    ensures var (now, r) := UnmountedBy(pool, volumes, mounted, id, fate);
      if id.Lvm? && id.filesystemUuid == "" then now == mounted && r.Success?
      else if AsRecorded(pool, volumes, id) && mounted.Some? then
        now == (if fate.Applies() then None else mounted) && r == fate.Verdict(CommandFailed)
      else now == mounted && r.Failure? && r.error != Crash
    ensures var (now, r) := RemovedBy(pool, volumes, id, fate);
      if AsRecorded(pool, volumes, id) then
        now == (if fate.Applies() then volumes - {id.logicalVolume} else volumes) && r == fate.Verdict(CommandFailed)
      else now == volumes && r.Failure? && r.error != Crash
  {
  }

  function Answered<T>(verdict: Outcome<()>, value: T): Outcome<T>
  {
    if verdict.Success? then Success(value) else Failure(verdict.error)
  }

  // --------------------------------------------------------------------------- ownership

  /** `id` is the LVM identity this pool gives to the volume of `token`. */
  predicate IsIdentityFor(pool: Pool, id: BackendIdentity, token: string)
  {
    && id.Lvm? && id.volumeGroup == pool.volumeGroup && id.volumeGroupUuid == pool.poolUuid
    && id.logicalVolume == LvName(token) && id.ownershipToken == token
    && ValidCreatedIdentity(id)
  }

  /** `id` still describes the volume, if there is one, exactly. */
  predicate DescribesVolume(pool: Pool, volumes: map<string, Volume>, mounted: Option<string>, id: BackendIdentity, token: string)
  {
    && IsIdentityFor(pool, id, token)
    && (LvName(token) in volumes ==>
          && volumes[LvName(token)].uuid == id.logicalVolumeUuid
          && (id.filesystemUuid != "" ==> volumes[LvName(token)].filesystemUuid == id.filesystemUuid))
    && (mounted.Some? ==> id.filesystemUuid != "")
  }

  /** Every volume belongs to the token; there is at most one. */
  predicate AllOwnedBy(volumes: map<string, Volume>, token: string, bytes: nat)
  {
    forall n | n in volumes ::
      n == LvName(token) && volumes[n].tag == token && volumes[n].sizeBytes == bytes && volumes[n].uuid != ""
  }

  /** The journal tells the truth about volumes and mounts. */
  predicate JournalOwns(pool: Pool, volumes: map<string, Volume>, mounted: Option<string>, leaseFile: bool, j: PhaseJournal)
  {
    && ValidJournal(j, pool.layout)
    && j.backendKind == pool.backendKind && j.backendKey == pool.backendKey && j.poolIdentity == pool.poolUuid
    && AllOwnedBy(volumes, j.ownershipToken, j.reservedBytes)
    && (if j.backend.Some? then DescribesVolume(pool, volumes, mounted, j.backend.value, j.ownershipToken) else mounted.None?)
    && (j.phase.Ready? ==>
          && j == ReadyJournal(j.receipt.value)
          && LvName(j.ownershipToken) in volumes && mounted.Some? && leaseFile)
    && (j.phase.Releasing? ==>
          && j == ReleasingJournal(j.receipt.value, j.releasePhase.value)
          && leaseFile
          && (j.releasePhase.value.Unmounted? ==> mounted.None?)
          && (j.releasePhase.value.ObjectAbsent? ==> volumes == map[]))
  }

  predicate ValidPool(pool: Pool)
  {
    pool.volumeGroup != "" && pool.poolUuid != "" && pool.backendKind != "" && pool.backendKey != ""
  }

  /** No volume without its journal, no mount without its filesystem UUID in the journal. */
  predicate Owned(pool: Pool, journal: Option<PhaseJournal>, volumes: map<string, Volume>, mounted: Option<string>,
                  mountpoint: bool, leaseFile: bool)
  {
    && ValidPool(pool)
    && (if journal.Some? then JournalOwns(pool, volumes, mounted, leaseFile, journal.value) else volumes == map[])
    && (volumes != map[] ==> mountpoint)
    && (mounted.Some? ==> mounted.value in volumes)
  }

  class Storage {
    const pool: Pool
    const layout := pool.layout
    const volumeGroup := pool.volumeGroup
    const poolUuid := pool.poolUuid
    const backendKind := pool.backendKind
    const backendKey := pool.backendKey
    const daemonId := pool.daemonId

    // Durable state: it survives a crash.
    var journal: Option<PhaseJournal>
    var volumes: map<string, Volume>
    var mounted: Option<string>
    var mountpoint: bool
    var tombstone: Option<AllocationReceipt>
    var leaseFile: bool
    var holds: nat

    // Lock state of the Ready lease file: shared holders, and the releasing call.
    var readers: nat
    var exclusive: bool

    // History: a volume was removed while mounted or under another token; a
    // Ready lease was held while a step took the allocation away from it.
    ghost var wrongfulRemoval: bool
    ghost var disturbedLease: bool

    // History: a release changed something of an execution with an unresolved hold.
    ghost var releasedWhileHeld: bool

    constructor (layout: Layout, volumeGroup: string, poolUuid: string, extentBytes: nat, daemonId: string)
      requires volumeGroup != "" && poolUuid != ""
      ensures pool == Pool(layout, volumeGroup, poolUuid, extentBytes, daemonId,
                           "thick_lvm", "lvm:" + volumeGroup + ":" + layout.executionId)
      ensures Safe() && !exclusive && readers == 0 && holds == 0
      ensures !wrongfulRemoval && !disturbedLease && !releasedWhileHeld
      ensures Clean() && tombstone.None? && !leaseFile
    {
      pool := Pool(layout, volumeGroup, poolUuid, extentBytes, daemonId,
                   "thick_lvm", "lvm:" + volumeGroup + ":" + layout.executionId);
      journal, volumes, mounted, mountpoint, tombstone := None, map[], None, false, None;
      leaseFile, holds, readers, exclusive := false, 0, 0, false;
      wrongfulRemoval, disturbedLease, releasedWhileHeld := false, false, false;
    }

    // ---------------------------------------------------------------- invariant

    predicate IdentityFor(id: BackendIdentity, token: string)
    {
      IsIdentityFor(pool, id, token)
    }

    predicate Describes(id: BackendIdentity, token: string)
      reads `volumes, `mounted
    {
      DescribesVolume(pool, volumes, mounted, id, token)
    }

    predicate OwnedBy(token: string, bytes: nat)
      reads `volumes
    {
      AllOwnedBy(volumes, token, bytes)
    }

    /** The invariant of every durable state that calls made one after the other can leave. */
    predicate Safe()
      reads `journal, `volumes, `mounted, `mountpoint, `tombstone, `leaseFile
    {
      && Owned(pool, journal, volumes, mounted, mountpoint, leaseFile)
      && (journal.Some? && tombstone.Some? ==> journal.value.receipt == tombstone)
      && (journal.Some? && journal.value.phase.Releasing? ==>
            tombstone == journal.value.receipt || (volumes == map[] && !mountpoint))
      && (tombstone.Some? ==>
            && IdentityFor(tombstone.value.backend, tombstone.value.backend.ownershipToken)
            && (journal.None? ==> !mountpoint))
    }

    /** A shared lease can be taken: the journal is Ready, mounted and not being released. */
    predicate LeaseOpen()
      reads `journal, `mounted, `leaseFile, `exclusive
    {
      journal.Some? && journal.value.phase.Ready? && mounted.Some? && leaseFile && !exclusive
    }

    predicate LeaseGuarded()
      reads `journal, `mounted, `leaseFile, `exclusive, `readers
    {
      readers > 0 ==> LeaseOpen()
    }

    /** Nothing durable that belongs to the allocation has changed. */
    twostate predicate Kept()
      reads `journal, `volumes, `mounted, `mountpoint, `tombstone, `disturbedLease
    {
      && journal == old(journal) && volumes == old(volumes) && mounted == old(mounted)
      && mountpoint == old(mountpoint) && tombstone == old(tombstone) && disturbedLease == old(disturbedLease)
    }

    predicate Clean()
      reads `journal, `volumes, `mounted, `mountpoint
    {
      journal.None? && volumes == map[] && mounted.None? && !mountpoint
    }

    /** Phases left before the allocation is physically gone. */
    function Remaining(): (n: nat)
      reads `journal, `volumes, `mounted, `mountpoint
    {
      (if journal.Some? then (if journal.value.phase.Ready? then 2 else 1) else 0)
      + (if mounted.Some? then 1 else 0) + (if volumes != map[] then 1 else 0) + (if mountpoint then 1 else 0)
    }

    // ------------------------------------------------------------- atomic steps

    /** Lease holders arrive (when the lease is open and the run is not quiet) and leave (at any time). */
    method Others(quiet: bool)
      modifies `readers
      ensures old(LeaseGuarded()) ==> LeaseGuarded()
      ensures readers <= old(readers) || (LeaseOpen() && !quiet)
    {
      var n: nat := *;
      if n <= readers || (LeaseOpen() && !quiet) {
        readers := n;
      }
    }

    /** A read-only backend query. */
    method QueryState(id: BackendIdentity, bytes: nat, reliable: bool) returns (r: Outcome<BackendState>)
      modifies `readers
      ensures r.Success? ==> r == LvmState(volumeGroup, poolUuid, volumes, mounted, id, bytes)
      ensures reliable && LvmState(volumeGroup, poolUuid, volumes, mounted, id, bytes).Success? ==> r.Success?
      ensures old(LeaseGuarded()) ==> LeaseGuarded()
      ensures readers <= old(readers) || (LeaseOpen() && !reliable)
    {
      var fate := Choose(reliable);
      if fate.Works? {
        r := LvmState(volumeGroup, poolUuid, volumes, mounted, id, bytes);
      } else {
        r := Failure(if fate.CrashesBefore? || fate.CrashesAfter? then Crash else CommandFailed);
      }
      Others(reliable);
    }

    /** The volume carrying the token's tag, with no filesystem UUID. */
    method Discover(token: string, bytes: nat, reliable: bool) returns (r: Outcome<Option<BackendIdentity>>)
      modifies `readers
      ensures r.Success? ==> r == Discovered(pool, volumes, token, bytes)
      ensures reliable && Discovered(pool, volumes, token, bytes).Success? ==> r.Success?
      ensures old(LeaseGuarded()) ==> LeaseGuarded()
      ensures readers <= old(readers) || (LeaseOpen() && !reliable)
    {
      var fate := Choose(reliable);
      r := if fate.Works? then Discovered(pool, volumes, token, bytes)
           else Failure(if fate.CrashesBefore? || fate.CrashesAfter? then Crash else CommandFailed);
      Others(reliable);
    }

    method CreateVolume(token: string, bytes: nat, reliable: bool) returns (r: Outcome<BackendIdentity>)
      requires token != "" && ValidPool(pool)
      modifies `volumes, `readers
      ensures LvName(token) in old(volumes) || !WholeExtents(bytes, pool.extentBytes) ==> r.Failure? && volumes == old(volumes)
      ensures reliable && LvName(token) !in old(volumes) && WholeExtents(bytes, pool.extentBytes) ==> r.Success?
      ensures LvName(token) !in old(volumes) ==>
        || volumes == old(volumes)
        || exists uuid: string :: uuid != "" && volumes == old(volumes)[LvName(token) := Volume(token, uuid, bytes, "")]
      ensures r.Success? ==>
        && LvName(token) in volumes
        && IdentityFor(r.value, token) && r.value.filesystemUuid == ""
        && r.value.logicalVolumeUuid == volumes[LvName(token)].uuid
      ensures old(LeaseGuarded()) ==> LeaseGuarded()
      ensures readers <= old(readers) || LeaseOpen()
    {
      var fate := Choose(reliable);
      var uuid: string := *;
      if uuid == "" { uuid := "lv-uuid"; }
      var (now, answer) := Created(pool, volumes, token, bytes, fate, uuid);
      volumes, r := now, answer;
      Others(false);
    }

    method PrepareVolume(id: BackendIdentity, bytes: nat, reliable: bool) returns (r: Outcome<BackendIdentity>)
      modifies `volumes, `readers
      ensures var info := InspectExact(volumeGroup, poolUuid, old(volumes), id, bytes);
              reliable && info.Success? && info.value.Some? && id.filesystemUuid == "" ==> r.Success?
      ensures volumes.Keys == old(volumes).Keys
      ensures forall n | n in volumes :: volumes[n] == old(volumes)[n].(filesystemUuid := volumes[n].filesystemUuid)
      ensures r.Success? ==>
        && id.Lvm? && id.filesystemUuid == "" && id.logicalVolume in volumes
        && volumes[id.logicalVolume].filesystemUuid != ""
        && r.value == id.(filesystemUuid := volumes[id.logicalVolume].filesystemUuid)
      ensures old(LeaseGuarded()) ==> LeaseGuarded()
      ensures readers <= old(readers) || LeaseOpen()
    {
      var fate := Choose(reliable);
      var uuid: string := *;
      if uuid == "" { uuid := "fs-uuid"; }
      var (now, answer) := Prepared(pool, volumes, id, bytes, fate, uuid);
      volumes, r := now, answer;
      Others(false);
    }

    method MountVolume(id: BackendIdentity, bytes: nat, reliable: bool) returns (r: Outcome<()>)
      modifies `mounted, `readers
      ensures (reliable && mountpoint && old(mounted.None?) && id.Lvm? && id.filesystemUuid != ""
               && LvmState(volumeGroup, poolUuid, volumes, old(mounted), id, bytes) == Success(StateUnmounted)) ==> r.Success?
      ensures || mounted == old(mounted)
              || (mountpoint && id.Lvm? && id.logicalVolume in volumes && mounted == Some(id.logicalVolume))
      ensures r.Success? ==>
        && mounted.Some? && id.Lvm? && id.filesystemUuid != ""
        && LvmState(volumeGroup, poolUuid, volumes, mounted, id, bytes) == Success(StateMounted)
      ensures old(LeaseGuarded()) ==> LeaseGuarded()
      ensures readers <= old(readers) || LeaseOpen()
    {
      var fate := Choose(reliable);
      var (now, answer) := MountedAs(pool, volumes, mounted, mountpoint, id, bytes, fate);
      mounted, r := now, answer;
      Others(false);
    }

    method UnmountVolume(id: BackendIdentity, reliable: bool) returns (r: Outcome<()>)
      modifies `mounted, `readers, `disturbedLease
      ensures mounted == old(mounted) || mounted.None?
      ensures disturbedLease == (old(disturbedLease) || (old(readers) > 0 && mounted != old(mounted)))
      ensures reliable && old(mounted.Some?) && id.Lvm? && id.filesystemUuid != "" && IsExactly(pool, volumes, id) ==>
              r.Success? && mounted.None?
      ensures readers <= old(readers) || (LeaseOpen() && !reliable)
    {
      var fate := Choose(reliable);
      var (now, answer) := UnmountedBy(pool, volumes, mounted, id, fate);
      disturbedLease := disturbedLease || (readers > 0 && now != mounted);
      mounted, r := now, answer;
      Others(reliable);
    }

    method RemoveVolume(id: BackendIdentity, reliable: bool) returns (r: Outcome<()>)
      modifies `volumes, `readers, `wrongfulRemoval, `disturbedLease
      ensures volumes == old(volumes) || (id.Lvm? && volumes == old(volumes) - {id.logicalVolume})
      ensures old(disturbedLease) ==> disturbedLease
      ensures disturbedLease ==> old(disturbedLease) || old(readers) > 0
      ensures volumes != old(volumes) && old(readers) > 0 ==> disturbedLease
      ensures old(wrongfulRemoval) ==> wrongfulRemoval
      ensures volumes != old(volumes)
              && (mounted == Some(id.logicalVolume) || journal.None? || journal.value.ownershipToken != id.ownershipToken) ==>
        wrongfulRemoval
      ensures wrongfulRemoval ==>
        || old(wrongfulRemoval)
        || (id.Lvm? && mounted == Some(id.logicalVolume))
        || journal.None? || journal.value.ownershipToken != id.ownershipToken
      ensures reliable && IsExactly(pool, old(volumes), id) ==> r.Success? && volumes == old(volumes) - {id.logicalVolume}
      ensures readers <= old(readers) || (LeaseOpen() && !reliable)
    {
      var fate := Choose(reliable);
      var (now, answer) := RemovedBy(pool, volumes, id, fate);
      if now != volumes {
        wrongfulRemoval := wrongfulRemoval || mounted == Some(id.logicalVolume)
                           || journal.None? || journal.value.ownershipToken != volumes[id.logicalVolume].tag;
        disturbedLease := disturbedLease || readers > 0;
      }
      volumes, r := now, answer;
      Others(reliable);
    }

    method CreateMountpoint(reliable: bool) returns (r: Outcome<()>)
      modifies `mountpoint, `readers
      ensures reliable && old(!mountpoint) ==> r.Success?
      ensures old(mountpoint) ==> r.Failure? && r.error != Crash && mountpoint
      ensures if r.Success? then mountpoint else r.error in {IdentityMismatch, Crash}
      ensures old(LeaseGuarded()) ==> LeaseGuarded()
      ensures readers <= old(readers) || LeaseOpen()
    {
      var fate := Choose(reliable);
      if mountpoint {
        r := Failure(IdentityMismatch);
      } else {
        if fate.Applies() { mountpoint := true; }
        r := fate.Verdict(IdentityMismatch);
      }
      Others(false);
    }

    /** `rmdir`, which a mounted filesystem refuses; an absent directory is already released. */
    method RemoveReleasedMountpoint(reliable: bool) returns (r: Outcome<()>)
      modifies `mountpoint, `readers
      ensures old(mounted.Some? && mountpoint) ==> mountpoint
      ensures mountpoint ==> old(mountpoint)
      ensures r.Success? ==> !mountpoint
      ensures reliable && mounted.None? ==> r.Success?
      ensures old(LeaseGuarded()) ==> LeaseGuarded()
      ensures readers <= old(readers) || (LeaseOpen() && !reliable)
    {
      var fate := Choose(reliable);
      if !mountpoint {
        r := Success(());
      } else if mounted.Some? {
        r := Failure(JournalError);
      } else {
        if fate.Applies() { mountpoint := false; }
        r := fate.Verdict(JournalError);
      }
      Others(reliable);
    }

    method CreateJournal(j: PhaseJournal, reliable: bool) returns (r: Outcome<()>)
      modifies `journal, `readers
      ensures reliable && old(journal.None?) && ValidJournal(j, layout) ==> r.Success?
      ensures old(journal.Some?) ==> r.Failure? && journal == old(journal)
      ensures journal == old(journal) || (ValidJournal(j, layout) && journal == Some(j))
      ensures r.Success? ==> journal == Some(j)
      ensures old(readers) == 0 && !j.phase.Ready? && old(journal.None?) ==> readers == 0
    {
      var fate := Choose(reliable);
      if journal.Some? || !ValidJournal(j, layout) {
        r := Failure(JournalError);
      } else {
        if fate.Applies() { journal := Some(j); }
        r := fate.Verdict(JournalError);
      }
      Others(false);
    }

    /** The exchange of `JournalStore::write` with a chosen fate. */
    method WriteJournalWith(j: PhaseJournal, fate: Fate, quiet: bool) returns (r: Outcome<()>)
      modifies `journal, `readers, `disturbedLease
      ensures journal == if old(journal.Some?) && ValidJournal(j, layout) && fate.Applies() then Some(j) else old(journal)
      ensures old(journal.Some?) && ValidJournal(j, layout) ==> r == fate.Verdict(JournalError)
      ensures old(journal.None?) || !ValidJournal(j, layout) ==> r == Failure(JournalError)
      ensures disturbedLease == (old(disturbedLease)
                                 || (old(readers) > 0 && old(journal.Some?) && ValidJournal(j, layout)
                                     && fate.Applies() && !j.phase.Ready?))
      ensures readers <= old(readers) || (LeaseOpen() && !quiet)
    {
      if journal.None? || !ValidJournal(j, layout) {
        r := Failure(JournalError);
      } else {
        if fate.Applies() {
          disturbedLease := disturbedLease || (readers > 0 && !j.phase.Ready?);
          journal := Some(j);
        }
        r := fate.Verdict(JournalError);
      }
      Others(quiet);
    }

    method WriteJournal(j: PhaseJournal, reliable: bool) returns (r: Outcome<()>)
      modifies `journal, `readers, `disturbedLease
      ensures journal == old(journal) || (old(journal.Some?) && ValidJournal(j, layout) && journal == Some(j))
      ensures r.Success? ==> journal == Some(j) && ValidJournal(j, layout)
      ensures reliable && old(journal.Some?) && ValidJournal(j, layout) ==> r.Success?
      ensures old(disturbedLease) ==> disturbedLease
      ensures disturbedLease ==> old(disturbedLease) || (old(readers) > 0 && !j.phase.Ready?)
      ensures readers <= old(readers) || (LeaseOpen() && !reliable)
    {
      var fate := Choose(reliable);
      r := WriteJournalWith(j, fate, reliable);
    }

    method RemoveJournal(reliable: bool) returns (r: Outcome<()>)
      modifies `journal, `readers, `disturbedLease
      ensures journal == old(journal) || journal.None?
      ensures r.Success? ==> journal.None?
      ensures reliable && old(journal.Some?) ==> r.Success?
      ensures disturbedLease == (old(disturbedLease) || (old(readers) > 0 && journal != old(journal)))
      ensures readers <= old(readers) || (LeaseOpen() && !reliable)
    {
      var fate := Choose(reliable);
      if journal.None? {
        r := Failure(JournalError);
      } else {
        if fate.Applies() {
          disturbedLease := disturbedLease || readers > 0;
          journal := None;
        }
        r := fate.Verdict(JournalError);
      }
      Others(reliable);
    }

    method CreateTombstone(receipt: AllocationReceipt, reliable: bool) returns (r: Outcome<()>)
      modifies `tombstone, `readers, `disturbedLease
      ensures tombstone == old(tombstone) || (old(tombstone.None?) && tombstone == Some(receipt))
      ensures r.Success? ==> tombstone == Some(receipt)
      ensures reliable && old(tombstone.None?) ==> r.Success?
      ensures disturbedLease == (old(disturbedLease) || (old(readers) > 0 && tombstone != old(tombstone)))
      ensures readers <= old(readers) || (LeaseOpen() && !reliable)
    {
      var fate := Choose(reliable);
      if tombstone.Some? {
        r := Failure(JournalError);
      } else {
        if fate.Applies() {
          disturbedLease := disturbedLease || readers > 0;
          tombstone := Some(receipt);
        }
        r := fate.Verdict(JournalError);
      }
      Others(reliable);
    }

    // ------------------------------------------------------------------ cleanup

    /** The journal, the identity and the receipt handed to `cleanup_identity` belong together. */
    predicate CleaningUp(id: BackendIdentity, bytes: nat, receipt: Option<AllocationReceipt>)
      reads `journal, `volumes, `mounted, `mountpoint, `tombstone, `leaseFile
    {
      && Safe() && journal.Some?
      && journal.value.backend == Some(id) && journal.value.reservedBytes == bytes
      && (if receipt.Some? then journal.value.phase.Releasing? && journal.value.receipt == receipt
          else journal.value.phase.Allocating? && tombstone.None?)
    }

    function PhysicalState(): (state: BackendState)
      reads `volumes, `mounted
    {
      if volumes == map[] then StateAbsent else if mounted.Some? then StateMounted else StateUnmounted
    }

    /**
      In every safe state the backend's answer about the journal's own identity is
      the physical truth, although an identity without a filesystem UUID makes the
      backend answer without looking at the mounts.
     */
    lemma StateIsTruthful(id: BackendIdentity, bytes: nat, receipt: Option<AllocationReceipt>)
      requires CleaningUp(id, bytes, receipt)
      ensures LvmState(volumeGroup, poolUuid, volumes, mounted, id, bytes)
           == Success(PhysicalState())
    {
      if volumes != map[] {
        var n :| n in volumes;
        assert n == LvName(id.ownershipToken);
      }
    }

    /** The backend's answer about the journal's own identity. */
    method CheckState(id: BackendIdentity, bytes: nat, receipt: Option<AllocationReceipt>, reliable: bool)
      returns (r: Outcome<BackendState>)
      requires CleaningUp(id, bytes, receipt)
      modifies `readers
      ensures readers <= old(readers)
      ensures r.Success? ==> r.value == PhysicalState()
      ensures reliable ==> r.Success?
    {
      StateIsTruthful(id, bytes, receipt);
      r := QueryState(id, bytes, reliable);
    }

    /** One step of the cleanup: unmount the journal's own volume. */
    method UnmountStep(id: BackendIdentity, bytes: nat, receipt: Option<AllocationReceipt>, reliable: bool)
      returns (r: Outcome<()>)
      requires CleaningUp(id, bytes, receipt) && mounted.Some?
      modifies `mounted, `readers, `disturbedLease
      ensures CleaningUp(id, bytes, receipt)
      ensures readers <= old(readers) && (old(readers) == 0 ==> disturbedLease == old(disturbedLease))
      ensures Remaining() <= old(Remaining())
      ensures old(disturbedLease) ==> disturbedLease
      ensures mounted.None? || mounted == old(mounted)
      ensures reliable ==> r.Success? && mounted.None?
    {
      r := UnmountVolume(id, reliable);
    }

    /** One step of the cleanup: remove the journal's own volume, which nothing mounts. */
    method RemoveStep(id: BackendIdentity, bytes: nat, receipt: Option<AllocationReceipt>, reliable: bool)
      returns (r: Outcome<()>)
      requires CleaningUp(id, bytes, receipt) && mounted.None? && volumes != map[]
      modifies `volumes, `readers, `wrongfulRemoval, `disturbedLease
      ensures CleaningUp(id, bytes, receipt)
      ensures readers <= old(readers) && (old(readers) == 0 ==> disturbedLease == old(disturbedLease))
      ensures Remaining() <= old(Remaining())
      ensures old(disturbedLease) ==> disturbedLease
      ensures wrongfulRemoval == old(wrongfulRemoval)
      ensures volumes == old(volumes) || volumes == map[]
      ensures reliable ==> r.Success? && volumes == map[]
    {
      assert volumes.Keys == {LvName(id.ownershipToken)};
      r := RemoveVolume(id, reliable);
      assert volumes == old(volumes) || volumes == map[];
    }

    /** Record how far a release got, never ahead of the physical state; a rollback records nothing. */
    method RecordPhase(id: BackendIdentity, bytes: nat, receipt: Option<AllocationReceipt>, phase: ReleasePhase, reliable: bool)
      returns (r: Outcome<()>)
      requires CleaningUp(id, bytes, receipt)
      requires (phase.Unmounted? ==> mounted.None?) && (phase.ObjectAbsent? ==> volumes == map[])
      modifies `journal, `readers, `disturbedLease
      ensures CleaningUp(id, bytes, receipt)
      ensures readers <= old(readers) && (old(readers) == 0 ==> disturbedLease == old(disturbedLease))
      ensures Remaining() <= old(Remaining())
      ensures old(disturbedLease) ==> disturbedLease
      ensures journal.Some? && !journal.value.phase.Ready?
      ensures r.Success? ==> journal == if receipt.Some? then Some(ReleasingJournal(receipt.value, phase)) else old(journal)
      ensures reliable ==> r.Success?
    {
      r := Success(());
      if receipt.Some? {
        r := WriteJournal(ReleasingJournal(receipt.value, phase), reliable);
      }
    }

    method UnmountAndRecord(id: BackendIdentity, bytes: nat, receipt: Option<AllocationReceipt>, reliable: bool)
      returns (r: Outcome<()>)
      requires CleaningUp(id, bytes, receipt) && mounted.Some? && volumes != map[]
      modifies `journal, `mounted, `readers, `disturbedLease
      ensures CleaningUp(id, bytes, receipt)
      ensures readers <= old(readers) && (old(readers) == 0 ==> disturbedLease == old(disturbedLease))
      ensures Remaining() <= old(Remaining())
      ensures old(disturbedLease) ==> disturbedLease
      ensures mounted.None? || mounted == old(mounted)
      ensures r.Success? ==>
        mounted.None? && journal == if receipt.Some? then Some(ReleasingJournal(receipt.value, Unmounted)) else old(journal)
      ensures reliable ==> r.Success?
    {
      hide CleaningUp, Remaining;
      r := UnmountStep(id, bytes, receipt, reliable);
      if r.Failure? { return; }
      var state := CheckState(id, bytes, receipt, reliable);
      if state.Failure? { return Failure(state.error); }
      if state.value != StateUnmounted { return Failure(IdentityMismatch); }
      r := RecordPhase(id, bytes, receipt, Unmounted, reliable);
    }

    method RemoveAndRecord(id: BackendIdentity, bytes: nat, receipt: Option<AllocationReceipt>, reliable: bool)
      returns (r: Outcome<()>)
      requires CleaningUp(id, bytes, receipt) && mounted.None? && volumes != map[]
      modifies `journal, `volumes, `readers, `wrongfulRemoval, `disturbedLease
      ensures CleaningUp(id, bytes, receipt)
      ensures readers <= old(readers) && (old(readers) == 0 ==> disturbedLease == old(disturbedLease))
      ensures Remaining() <= old(Remaining())
      ensures old(disturbedLease) ==> disturbedLease
      ensures wrongfulRemoval == old(wrongfulRemoval)
      ensures r.Success? ==>
        volumes == map[] && journal == if receipt.Some? then Some(ReleasingJournal(receipt.value, ObjectAbsent)) else old(journal)
      ensures reliable ==> r.Success?
    {
      hide CleaningUp, Remaining;
      r := RemoveStep(id, bytes, receipt, reliable);
      if r.Failure? { return; }
      var state := CheckState(id, bytes, receipt, reliable);
      if state.Failure? { return Failure(state.error); }
      if state.value != StateAbsent { return Failure(IdentityMismatch); }
      r := RecordPhase(id, bytes, receipt, ObjectAbsent, reliable);
    }

    /** The last two steps of every cleanup: the journal outlives the mountpoint. */
    method DropMountpointAndJournal(reliable: bool) returns (r: Outcome<()>)
      requires Safe() && journal.Some? && !journal.value.phase.Ready? && volumes == map[]
      modifies `journal, `mountpoint, `readers, `disturbedLease
      ensures Safe() && readers <= old(readers) && (old(readers) == 0 ==> disturbedLease == old(disturbedLease))
      ensures Remaining() <= old(Remaining())
      ensures old(disturbedLease) ==> disturbedLease
      ensures journal == old(journal) || journal.None?
      ensures mountpoint ==> old(mountpoint)
      ensures r.Success? ==> Clean()
      ensures reliable ==> r.Success?
    {
      r := RemoveReleasedMountpoint(reliable);
      if r.Failure? { return; }
      r := RemoveJournal(reliable);
    }

    /** The part of `cleanup_identity` that makes the backend object absent. */
    method EraseVolume(id: BackendIdentity, bytes: nat, receipt: Option<AllocationReceipt>, reliable: bool)
      returns (r: Outcome<()>)
      requires CleaningUp(id, bytes, receipt)
      modifies `journal, `volumes, `mounted, `readers, `wrongfulRemoval, `disturbedLease
      ensures CleaningUp(id, bytes, receipt)
      ensures readers <= old(readers) && (old(readers) == 0 ==> disturbedLease == old(disturbedLease))
      ensures Remaining() <= old(Remaining())
      ensures old(disturbedLease) ==> disturbedLease
      ensures wrongfulRemoval == old(wrongfulRemoval)
      ensures r.Success? ==> volumes == map[]
      ensures reliable ==> r.Success?
    {
      hide CleaningUp, Remaining;
      var state := CheckState(id, bytes, receipt, reliable);
      if state.Failure? { return Failure(state.error); }
      r := Success(());
      if state.value.StateMounted? {
        r := UnmountAndRecord(id, bytes, receipt, reliable);
        if r.Failure? { return; }
      }
      if !state.value.StateAbsent? {
        r := RemoveAndRecord(id, bytes, receipt, reliable);
      }
    }

    /** `cleanup_identity`: unmount, remove, drop the mountpoint, and only then the journal. */
    method CleanupIdentity(id: BackendIdentity, bytes: nat, receipt: Option<AllocationReceipt>, reliable: bool)
      returns (r: Outcome<()>)
      requires CleaningUp(id, bytes, receipt)
      modifies `journal, `volumes, `mounted, `mountpoint, `readers, `wrongfulRemoval, `disturbedLease
      ensures Safe() && readers <= old(readers) && (old(readers) == 0 ==> disturbedLease == old(disturbedLease))
      ensures Remaining() <= old(Remaining())
      ensures old(disturbedLease) ==> disturbedLease
      ensures wrongfulRemoval == old(wrongfulRemoval)
      ensures journal.Some? ==> CleaningUp(id, bytes, receipt)
      ensures r.Success? ==> Clean()
      ensures reliable ==> r.Success?
    {
      r := EraseVolume(id, bytes, receipt, reliable);
      if r.Success? {
        r := DropMountpointAndJournal(reliable);
      }
    }

    // ----------------------------------------------------- rollback and recovery

    /** `journal` and `identity` are what `allocate` hands to `rollback_allocation`. */
    predicate RollingBack(j: PhaseJournal, identity: Option<BackendIdentity>)
      reads `journal, `volumes, `mounted, `mountpoint, `tombstone, `leaseFile
    {
      && Safe() && tombstone.None?
      && journal.Some? && !journal.value.phase.Releasing?
      && journal.value.ownershipToken == j.ownershipToken && journal.value.reservedBytes == j.reservedBytes
      && j.phase.Allocating? && ValidJournal(j, layout)
      && j.backendKind == backendKind && j.backendKey == backendKey && j.poolIdentity == poolUuid
      && (if identity.Some? then Describes(identity.value, j.ownershipToken) else journal == Some(j) && j.backend.None?)
    }

    /** Record the identity an in-progress allocation has reached. */
    method RecordIdentity(j: PhaseJournal, id: BackendIdentity, reliable: bool) returns (r: Outcome<()>)
      requires RollingBack(j, Some(id))
      modifies `journal, `readers, `disturbedLease
      ensures RollingBack(j, Some(id))
      ensures journal == old(journal) || journal == Some(j.WithBackendIdentity(id))
      ensures reliable ==> r.Success?
      ensures r.Success? ==>
        && journal == Some(j.WithBackendIdentity(id))
        && CleaningUp(id, j.reservedBytes, None)
      ensures old(readers) == 0 && old(!journal.value.phase.Ready?) ==> readers == 0 && disturbedLease == old(disturbedLease)
      ensures old(disturbedLease) ==> disturbedLease
    {
      r := WriteJournal(j.WithBackendIdentity(id), reliable);
    }

    /** Roll back with an identity in hand: record it, then clean it up. */
    method RollbackKnown(j: PhaseJournal, id: BackendIdentity) returns (r: Outcome<()>)
      requires RollingBack(j, Some(id)) && journal.Some?
      modifies `journal, `volumes, `mounted, `mountpoint, `readers, `wrongfulRemoval, `disturbedLease
      ensures Safe() && wrongfulRemoval == old(wrongfulRemoval)
      ensures old(readers) == 0 && old(!journal.value.phase.Ready?) ==> readers == 0 && disturbedLease == old(disturbedLease)
      ensures old(disturbedLease) ==> disturbedLease
      ensures r.Success? ==> Clean()
    {
      r := RecordIdentity(j, id, false);
      if r.Success? {
        hide RollingBack, CleaningUp, Safe, Remaining;
        r := CleanupIdentity(id, j.reservedBytes, None, false);
      }
    }

    /** Roll back without one: ask the backend for a volume with the journal's token. */
    method RollbackUnknown(j: PhaseJournal) returns (r: Outcome<()>)
      requires RollingBack(j, None) && journal.Some?
      modifies `journal, `volumes, `mounted, `mountpoint, `readers, `wrongfulRemoval, `disturbedLease
      ensures Safe() && wrongfulRemoval == old(wrongfulRemoval)
      ensures old(readers) == 0 && old(!journal.value.phase.Ready?) ==> readers == 0 && disturbedLease == old(disturbedLease)
      ensures old(disturbedLease) ==> disturbedLease
      ensures r.Success? ==> Clean()
    {
      var found := Discover(j.ownershipToken, j.reservedBytes, false);
      if found.Failure? { return Failure(found.error); }
      if found.value.Some? {
        assert RollingBack(j, found.value);
        hide RollingBack, Safe;
        r := RollbackKnown(j, found.value.value);
      } else {
        assert volumes == map[];
        r := DropMountpointAndJournal(false);
      }
    }

    /** `rollback_allocation`: the cause is reported only when nothing is left behind. */
    method RollbackAllocation(j: PhaseJournal, identity: Option<BackendIdentity>, cause: Error) returns (e: Error)
      requires RollingBack(j, identity) && journal.Some? && cause != Crash
      modifies `journal, `volumes, `mounted, `mountpoint, `readers, `wrongfulRemoval, `disturbedLease
      ensures Safe() && wrongfulRemoval == old(wrongfulRemoval)
      ensures old(readers) == 0 && old(!journal.value.phase.Ready?) ==> readers == 0 && disturbedLease == old(disturbedLease)
      ensures old(disturbedLease) ==> disturbedLease
      ensures e == Crash || e == CleanupFailed || (e == cause && Clean())
    {
      hide RollingBack, Safe;
      var r: Outcome<()>;
      if identity.Some? {
        r := RollbackKnown(j, identity.value);
      } else {
        r := RollbackUnknown(j);
      }
      e := if r.Success? then cause else if r.error.Crash? then Crash else CleanupFailed;
    }

    /** The pool and bind-proof checks before any cleanup; answers the backend state. */
    method AuthenticateCleanup(receipt: AllocationReceipt, reliable: bool) returns (r: Outcome<BackendState>)
      requires Safe() && journal.Some?
      modifies `readers
      ensures old(LeaseGuarded()) ==> LeaseGuarded()
      ensures readers <= old(readers) || (LeaseOpen() && !reliable)
      ensures r.Success? ==>
        && journal.value.receipt == Some(receipt) && !journal.value.phase.Allocating? && receipt.dockerBind.daemonId == daemonId
        && r.value == PhysicalState() && (journal.value.phase.Ready? ==> r.value.StateMounted?)
      ensures (reliable && journal.value.receipt == Some(receipt) && !journal.value.phase.Allocating?
               && receipt.dockerBind.daemonId == daemonId) ==> r.Success?
    {
      if !ValidReceipt(receipt, receipt.labels, layout) || journal.value.receipt != Some(receipt)
         || journal.value.phase.Allocating? {
        return Failure(IdentityMismatch);
      }
      var probe := Choose(reliable);
      if !probe.Works? {
        return Failure(if probe.CrashesBefore? || probe.CrashesAfter? then Crash else Unavailable);
      }
      if journal.value.backendKind != backendKind || journal.value.backendKey != backendKey
         || journal.value.poolIdentity != poolUuid || receipt.dockerBind.daemonId != daemonId {
        return Failure(IdentityMismatch);
      }
      assert LvmState(volumeGroup, poolUuid, volumes, mounted, receipt.backend, receipt.reservedBytes)
          == Success(PhysicalState()) by {
        assert JournalOwns(pool, volumes, mounted, leaseFile, journal.value);
      }
      r := QueryState(receipt.backend, receipt.reservedBytes, reliable);
      if r.Success? && !r.value.StateAbsent? && !mountpoint {
        r := Failure(IdentityMismatch);
      }
    }

    /** A journal of the same request that was cut off before it was Ready, or while it was released. */
    predicate RecoverableFor(j: PhaseJournal, request: AllocationRequest)
    {
      && !j.phase.Ready? && j.labels == request.labels && DiskGibToBytes(request.diskGib) == Success(j.reservedBytes)
      && (j.phase.Releasing? ==> j.receipt.Some? && j.receipt.value.dockerBind.daemonId == daemonId)
    }

    /**
      `recover_existing`: a Ready journal, the journal of a different request and a release
      whose bind proof is another daemon's are refused and kept; anything else is cleaned up
      completely.
     */
    method RecoverExisting(request: AllocationRequest, reliable: bool) returns (r: Outcome<()>)
      requires Safe() && tombstone.None? && journal.Some?
      modifies `journal, `volumes, `mounted, `mountpoint, `readers, `wrongfulRemoval, `disturbedLease
      ensures Safe() && wrongfulRemoval == old(wrongfulRemoval)
      ensures old(LeaseGuarded()) ==> LeaseGuarded() && disturbedLease == old(disturbedLease)
      ensures !old(RecoverableFor(journal.value, request)) ==> r.Failure? && Kept()
      ensures r.Success? ==> Clean()
      ensures reliable && old(RecoverableFor(journal.value, request)) ==> r.Success?
    {
      var j := journal.value;
      var read := Choose(reliable);
      var bytes := DiskGibToBytes(request.diskGib);
      if !read.Works? {
        Others(false);
        return Failure(if read.CrashesBefore? || read.CrashesAfter? then Crash else JournalError);
      }
      if j.labels != request.labels || bytes != Success(j.reservedBytes) {
        Others(false);
        return Failure(IdentityMismatch);
      }
      var probe := Choose(reliable);
      if !probe.Works? || j.phase.Ready? {
        Others(false);
        return Failure(if probe.Works? then IdentityMismatch
                       else if probe.CrashesBefore? || probe.CrashesAfter? then Crash else Unavailable);
      }
      hide Safe, ValidJournal, Remaining;
      if j.phase.Releasing? {
        r := RecoverReleasing(j, reliable);
      } else {
        r := RecoverAllocating(j, reliable);
      }
    }

    method RecoverReleasing(j: PhaseJournal, reliable: bool) returns (r: Outcome<()>)
      requires Safe() && tombstone.None? && journal == Some(j) && j.phase.Releasing?
      modifies `journal, `volumes, `mounted, `mountpoint, `readers, `wrongfulRemoval, `disturbedLease
      ensures Safe() && wrongfulRemoval == old(wrongfulRemoval)
      ensures old(readers) == 0 ==> readers == 0 && disturbedLease == old(disturbedLease)
      ensures j.receipt.Some? && (j.receipt.value.dockerBind.daemonId != daemonId ==> r.Failure? && Kept())
      ensures r.Success? ==> Clean()
      ensures reliable && j.receipt.value.dockerBind.daemonId == daemonId ==> r.Success?
    {
      var state := AuthenticateCleanup(j.receipt.value, reliable);
      if state.Failure? { return Failure(state.error); }
      r := CleanupIdentity(j.receipt.value.backend, j.receipt.value.reservedBytes, j.receipt, reliable);
    }

    method RecoverAllocating(j: PhaseJournal, reliable: bool) returns (r: Outcome<()>)
      requires Safe() && tombstone.None? && journal == Some(j) && j.phase.Allocating?
      modifies `journal, `volumes, `mounted, `mountpoint, `readers, `wrongfulRemoval, `disturbedLease
      ensures Safe() && wrongfulRemoval == old(wrongfulRemoval)
      ensures old(readers) == 0 ==> readers == 0 && disturbedLease == old(disturbedLease)
      ensures r.Success? ==> Clean()
      ensures reliable ==> r.Success?
    {
      var identity := j.backend;
      if identity.None? {
        var found := Discover(j.ownershipToken, j.reservedBytes, reliable);
        if found.Failure? { return Failure(found.error); }
        identity := found.value;
        if identity.Some? {
          r := WriteJournal(j.WithBackendIdentity(identity.value), reliable);
          if r.Failure? { return; }
        }
      }
      if identity.Some? {
        r := CleanupIdentity(identity.value, j.reservedBytes, None, reliable);
      } else {
        assert volumes == map[];
        r := DropMountpointAndJournal(reliable);
      }
    }

    // ----------------------------------------------------------------- allocate

    method CreateStep(j: PhaseJournal, reliable: bool) returns (r: Outcome<BackendIdentity>)
      requires RollingBack(j, None) && volumes == map[] && mountpoint
      modifies `volumes, `readers
      ensures RollingBack(j, None) && readers <= old(readers)
      ensures r.Success? ==>
        && RollingBack(j, Some(r.value)) && r.value.filesystemUuid == "" && volumes != map[]
        && WholeExtents(j.reservedBytes, pool.extentBytes)
      ensures reliable && WholeExtents(j.reservedBytes, pool.extentBytes) ==> r.Success?
    {
      r := CreateVolume(j.ownershipToken, j.reservedBytes, reliable);
    }

    /** Create the tagged volume and record its identity, or roll back. */
    method CreateAndRecord(j: PhaseJournal, reliable: bool) returns (r: Outcome<BackendIdentity>)
      requires RollingBack(j, None) && volumes == map[] && mountpoint
      requires journal == Some(j) && j.phase.Allocating? && mounted.None?
      modifies `journal, `volumes, `mounted, `mountpoint, `readers, `wrongfulRemoval, `disturbedLease
      ensures Safe() && wrongfulRemoval == old(wrongfulRemoval)
      ensures old(readers) == 0 ==> readers == 0 && disturbedLease == old(disturbedLease)
      ensures r.Success? ==>
        && journal == Some(j.WithBackendIdentity(r.value)) && RollingBack(j, Some(r.value))
        && r.value.filesystemUuid == "" && volumes != map[] && mounted.None?
        && WholeExtents(j.reservedBytes, pool.extentBytes)
      ensures r.Failure? ==> r.error == Crash || r.error == CleanupFailed || Clean()
      ensures reliable && WholeExtents(j.reservedBytes, pool.extentBytes) ==> r.Success?
    {
      hide RollingBack;
      r := CreateStep(j, reliable);
      if r.Failure? {
        ShowSafe(j, None);
        if r.error != Crash {
          var e := RollbackAllocation(j, None, r.error);
          r := Failure(e);
        }
        return;
      }
      var id := r.value;
      var recorded := RecordIdentity(j, id, reliable);
      ShowSafe(j, Some(id));
      if recorded.Failure? {
        var e := recorded.error;
        if e != Crash {
          e := RollbackAllocation(j, Some(id), e);
        }
        r := Failure(e);
      }
    }

    lemma ShowSafe(j: PhaseJournal, identity: Option<BackendIdentity>)
      requires RollingBack(j, identity)
      ensures Safe()
    {
    }

    method PrepareStep(j: PhaseJournal, id: BackendIdentity, reliable: bool) returns (r: Outcome<BackendIdentity>)
      requires RollingBack(j, Some(id)) && journal == Some(j.WithBackendIdentity(id))
      requires id.filesystemUuid == "" && volumes != map[] && mounted.None?
      modifies `volumes, `readers
      ensures RollingBack(j, Some(id)) && readers <= old(readers) && volumes != map[]
      ensures r.Success? ==> RollingBack(j, Some(r.value)) && ValidPreparedTransition(id, r.value)
      ensures reliable ==> r.Success?
    {
      assert volumes.Keys == {LvName(j.ownershipToken)};
      r := PrepareVolume(id, j.reservedBytes, reliable);
    }

    /** Format the volume and record the filesystem UUID before anything can mount it. */
    method PrepareAndRecord(j: PhaseJournal, id: BackendIdentity, reliable: bool) returns (r: Outcome<BackendIdentity>)
      requires RollingBack(j, Some(id)) && journal == Some(j.WithBackendIdentity(id)) && j.phase.Allocating?
      requires id.filesystemUuid == "" && volumes != map[] && mounted.None?
      modifies `journal, `volumes, `mounted, `mountpoint, `readers, `wrongfulRemoval, `disturbedLease
      ensures Safe() && wrongfulRemoval == old(wrongfulRemoval)
      ensures old(readers) == 0 ==> readers == 0 && disturbedLease == old(disturbedLease)
      ensures r.Success? ==>
        && ValidPreparedTransition(id, r.value) && mounted.None? && volumes != map[]
        && journal == Some(j.WithBackendIdentity(r.value)) && RollingBack(j, Some(r.value))
      ensures r.Failure? ==> r.error == Crash || r.error == CleanupFailed || Clean()
      ensures reliable ==> r.Success?
    {
      hide RollingBack;
      r := PrepareStep(j, id, reliable);
      ShowSafe(j, Some(id));
      if r.Failure? {
        if r.error != Crash {
          var e := RollbackAllocation(j, Some(id), r.error);
          r := Failure(e);
        }
        return;
      }
      var prepared := r.value;
      var recorded := RecordIdentity(j, prepared, reliable);
      ShowSafe(j, Some(prepared));
      if recorded.Failure? {
        var e := recorded.error;
        if e != Crash {
          e := RollbackAllocation(j, Some(prepared), e);
        }
        r := Failure(e);
      }
    }

    /** Once the prepared volume is mounted, the backend says so. */
    lemma MountedIsSeen(j: PhaseJournal, id: BackendIdentity)
      requires RollingBack(j, Some(id)) && id.filesystemUuid != ""
      ensures mounted.Some? ==> LvmState(volumeGroup, poolUuid, volumes, mounted, id, j.reservedBytes) == Success(StateMounted)
      ensures mounted.None? && volumes != map[] ==>
        LvmState(volumeGroup, poolUuid, volumes, mounted, id, j.reservedBytes) == Success(StateUnmounted)
    {
      if volumes != map[] {
        var n :| n in volumes;
        assert n == LvName(id.ownershipToken);
      }
    }

    /** Bind proof, layout directories, lease file, and the Ready record itself. */
    method PublishReady(j: PhaseJournal, id: BackendIdentity, host: Host, reliable: bool)
      returns (r: Outcome<AllocationReceipt>, ghost published: bool)
      requires RollingBack(j, Some(id)) && journal == Some(j.WithBackendIdentity(id))
      requires id.filesystemUuid != "" && mounted.Some?
      modifies `journal, `leaseFile, `readers, `disturbedLease
      ensures RollingBack(j, Some(id))
      ensures old(readers) == 0 ==> LeaseGuarded() && disturbedLease == old(disturbedLease)
      ensures published == journal.value.phase.Ready?
      ensures reliable && Suitable(host, layout) ==> r.Success?
      ensures r.Success? ==>
        && published && journal == Some(ReadyJournal(r.value)) && Suitable(host, layout)
        && r.value == AllocationReceipt(ALLOCATION_API_VERSION, j.labels, j.reservedBytes, layout.root,
                                        backendKind, backendKey, poolUuid, id, host.proof)
    {
      published := false;
      MountedIsSeen(j, id);
      var state := QueryState(id, j.reservedBytes, reliable);
      if state.Failure? { return Failure(state.error), false; }
      if state.value != StateMounted { return Failure(IdentityMismatch), false; }
      var proved := Choose(reliable);
      var proof := host.proof;
      if !proved.Works? {
        return Failure(if proved.CrashesBefore? || proved.CrashesAfter? then Crash else Unavailable), false;
      }
      var receipt := AllocationReceipt(ALLOCATION_API_VERSION, j.labels, j.reservedBytes, layout.root,
                                       j.backendKind, j.backendKey, j.poolIdentity, id, proof);
      if DockerCapability(proof.daemonId, proof.verifier, proof.methodVersion) != host.docker
         || !ValidReceipt(receipt, j.labels, layout) {
        return Failure(IdentityMismatch), false;
      }
      var directories := Choose(reliable);
      if !directories.Works? {
        return Failure(if directories.CrashesBefore? || directories.CrashesAfter? then Crash else JournalError), false;
      }
      var lease := Choose(reliable);
      if lease.Applies() { leaseFile := true; }
      if !lease.Works? {
        return Failure(if lease.CrashesBefore? || lease.CrashesAfter? then Crash else JournalError), false;
      }
      var written := WriteJournal(ReadyJournal(receipt), reliable);
      published := journal.value.phase.Ready?;
      r := if written.Success? then Success(receipt) else Failure(written.error);
    }

    /** Mount the prepared volume and publish it, or roll back. */
    method MountAndPublish(j: PhaseJournal, id: BackendIdentity, host: Host, reliable: bool)
      returns (r: Outcome<AllocationReceipt>, ghost torn: bool)
      requires RollingBack(j, Some(id)) && journal == Some(j.WithBackendIdentity(id))
      requires id.filesystemUuid != "" && mounted.None? && volumes != map[]
      modifies `journal, `volumes, `mounted, `mountpoint, `leaseFile, `readers, `wrongfulRemoval, `disturbedLease
      ensures Safe() && wrongfulRemoval == old(wrongfulRemoval)
      ensures old(readers) == 0 && !torn ==> LeaseGuarded() && disturbedLease == old(disturbedLease)
      ensures r.Success? ==>
        && !torn && journal == Some(ReadyJournal(r.value)) && Suitable(host, layout)
        && r.value == AllocationReceipt(ALLOCATION_API_VERSION, j.labels, j.reservedBytes, layout.root,
                                        backendKind, backendKey, poolUuid, id, host.proof)
      ensures r.Failure? ==> r.error == Crash || r.error == CleanupFailed || Clean()
      ensures reliable && Suitable(host, layout) ==> r.Success?
    {
      torn := false;
      MountedIsSeen(j, id);
      var done := MountVolume(id, j.reservedBytes, reliable);
      if done.Failure? {
        var e := done.error;
        if e != Crash {
          e := RollbackAllocation(j.WithBackendIdentity(id), Some(id), e);
        }
        return Failure(e), false;
      }
      ghost var published;
      r, published := PublishReady(j, id, host, reliable);
      if r.Failure? && r.error != Crash {
        torn := published;
        var e := RollbackAllocation(j.WithBackendIdentity(id), Some(id), r.error);
        r := Failure(e);
      }
    }

    /** The mountpoint and the Allocating journal; without the journal the mountpoint is given up again. */
    method OpenFresh(j: PhaseJournal, reliable: bool) returns (r: Outcome<()>, ghost undone: Option<Outcome<()>>)
      requires Safe() && tombstone.None? && journal.None?
      requires ValidJournal(j, layout) && j.phase.Allocating? && j.backend.None?
      requires j.backendKind == backendKind && j.backendKey == backendKey && j.poolIdentity == poolUuid
      modifies `journal, `mountpoint, `readers
      ensures Safe() && volumes == map[]
      ensures old(readers) == 0 ==> readers == 0
      ensures r.Success? ==> RollingBack(j, None) && journal == Some(j) && mounted.None? && mountpoint
      ensures old(mountpoint) ==> r.Failure? && mountpoint
      ensures r == Failure(JournalError) ==> undone.Some? && (undone.value.Success? ==> !mountpoint)
      ensures reliable && old(!mountpoint) ==> r.Success?
    {
      undone := None;
      r := CreateMountpoint(reliable);
      if r.Failure? { return; }
      r := CreateJournal(j, reliable);
      if r.Failure? && r.error != Crash {
        var removed := RemoveReleasedMountpoint(false);
        undone := Some(removed);
      }
    }

    /** `allocate` once no journal is left from an earlier attempt. */
    method AllocateFresh(request: AllocationRequest, bytes: nat, token: string, host: Host, reliable: bool)
      returns (r: Outcome<AllocationReceipt>, ghost torn: bool)
      requires Safe() && tombstone.None? && journal.None?
      requires token != "" && bytes != 0 && request.labels.executionId == layout.executionId
      modifies `journal, `volumes, `mounted, `mountpoint, `leaseFile, `readers, `wrongfulRemoval, `disturbedLease
      ensures Safe() && wrongfulRemoval == old(wrongfulRemoval)
      ensures old(readers) == 0 && !torn ==> LeaseGuarded() && disturbedLease == old(disturbedLease)
      ensures r.Success? ==>
        && !torn && journal == Some(ReadyJournal(r.value)) && Suitable(host, layout)
        && r.value.backend.ownershipToken == token
        && r.value == AllocationReceipt(ALLOCATION_API_VERSION, request.labels, bytes, layout.root,
                                        backendKind, backendKey, poolUuid, r.value.backend, host.proof)
      ensures r.Failure? ==> r.error == Crash || r.error == CleanupFailed || volumes == map[]
      ensures old(mountpoint) || !WholeExtents(bytes, pool.extentBytes) ==> r.Failure?
      ensures reliable && Suitable(host, layout) && WholeExtents(bytes, pool.extentBytes) && old(!mountpoint) ==> r.Success?
    {
      torn := false;
      var j := AllocatingJournal(request.labels, bytes, layout.root, backendKind, backendKey, poolUuid, token);
      var begun, _ := OpenFresh(j, reliable);
      if begun.Failure? { return Failure(begun.error), false; }
      var created := CreateAndRecord(j, reliable);
      if created.Failure? { return Failure(created.error), false; }
      var prepared := PrepareAndRecord(j, created.value, reliable);
      if prepared.Failure? { return Failure(prepared.error), false; }
      r, torn := MountAndPublish(j, prepared.value, host, reliable);
    }

    /**
      What `allocate` asks of the request, the host and the state that it finds: no tombstone,
      and no journal and no mountpoint, or the journal of a cut-off call for the same request.
     */
    predicate Allocatable(request: AllocationRequest, host: Host)
      reads `journal, `mountpoint, `tombstone
    {
      var bytes := DiskGibToBytes(request.diskGib);
      && bytes.Success? && bytes.value <= host.reservable && pool.extentBytes > 0 && bytes.value % pool.extentBytes == 0
      && Suitable(host, layout) && tombstone.None?
      && (if journal.Some? then RecoverableFor(journal.value, request) else !mountpoint)
    }

    /**
      `allocate`. `torn` tells that the Ready record was published although its
      write reported a failure, so that the rollback took it back.
     */
    method Allocate(request: AllocationRequest, token: string, host: Host, reliable: bool)
      returns (r: Outcome<AllocationReceipt>, ghost torn: bool)
      requires Safe() && token != "" && request.labels.executionId == layout.executionId
      modifies `journal, `volumes, `mounted, `mountpoint, `leaseFile, `readers, `wrongfulRemoval, `disturbedLease
      ensures Safe() && wrongfulRemoval == old(wrongfulRemoval)
      ensures old(LeaseGuarded()) && !torn ==> LeaseGuarded() && disturbedLease == old(disturbedLease)
      ensures old(tombstone.Some?) || old(journal.Some? && !RecoverableFor(journal.value, request)) ==>
        r.Failure? && !torn && Kept()
      ensures old(journal.None?)
              && (|| DiskGibToBytes(request.diskGib).Failure? || host.reservable < DiskGibToBytes(request.diskGib).value
                  || "" in [host.docker.daemonId, host.docker.verifier, host.docker.methodVersion]) ==>
        r.Failure? && Kept()
      ensures r.Success? ==>
        && !torn && journal == Some(ReadyJournal(r.value)) && r.value.backend.ownershipToken == token
        && r.value.labels == request.labels && DiskGibToBytes(request.diskGib) == Success(r.value.reservedBytes)
        && r.value.dockerBind == host.proof
      ensures r.Success? ==> old(Allocatable(request, host))
      ensures reliable && old(Allocatable(request, host)) ==> r.Success?
    {
      torn := false;
      var bytes := DiskGibToBytes(request.diskGib);
      if bytes.Failure? { return Failure(bytes.error), false; }
      if tombstone.Some? { return Failure(Unavailable), false; }
      if journal.Some? {
        var recovered := RecoverExisting(request, reliable);
        if recovered.Failure? { return Failure(recovered.error), false; }
      }
      var probe := Choose(reliable);
      if !probe.Works? {
        return Failure(if probe.CrashesBefore? || probe.CrashesAfter? then Crash else Unavailable), false;
      }
      if host.docker.daemonId == "" || host.docker.verifier == "" || host.docker.methodVersion == ""
         || host.reservable < bytes.value {
        return Failure(Unavailable), false;
      }
      r, torn := AllocateFresh(request, bytes.value, token, host, reliable);
    }

    // ------------------------------------------------------ release and acknowledge

    predicate PhysicallyGone()
      reads `volumes, `mounted, `mountpoint
    {
      volumes == map[] && mounted.None? && !mountpoint
    }

    /** The durable journal is the authority behind `receipt`. */
    predicate Releasable(receipt: AllocationReceipt)
      reads `journal, `volumes, `mounted, `mountpoint, `tombstone, `leaseFile
    {
      && Safe() && journal.Some? && !journal.value.phase.Allocating?
      && journal.value.receipt == Some(receipt)
    }

    /** The journal is the receipt's, and the bind proof is this daemon's. */
    predicate IsAuthority(receipt: AllocationReceipt)
      reads `journal
    {
      && journal.Some? && !journal.value.phase.Allocating? && journal.value.receipt == Some(receipt)
      && receipt.dockerBind.daemonId == daemonId
    }

    method LeaveTombstone(receipt: AllocationReceipt, reliable: bool) returns (r: Outcome<()>)
      requires Releasable(receipt) && readers == 0 && exclusive
      modifies `tombstone, `readers, `disturbedLease
      ensures Releasable(receipt) && readers == 0 && disturbedLease == old(disturbedLease)
      ensures tombstone == old(tombstone) || tombstone == Some(receipt)
      ensures r.Success? ==> tombstone == Some(receipt)
      ensures reliable ==> r.Success?
    {
      r := Success(());
      if tombstone.None? {
        r := CreateTombstone(receipt, reliable);
      }
    }

    method TurnToReleasing(receipt: AllocationReceipt, reliable: bool) returns (r: Outcome<()>)
      requires Releasable(receipt) && tombstone == Some(receipt) && readers == 0 && exclusive
      modifies `journal, `readers, `disturbedLease
      ensures Releasable(receipt) && readers == 0 && disturbedLease == old(disturbedLease)
      ensures Remaining() <= old(Remaining())
      ensures r.Success? ==> CleaningUp(receipt.backend, receipt.reservedBytes, Some(receipt))
      ensures reliable ==> r.Success?
    {
      r := Success(());
      if journal.value.phase.Ready? {
        r := WriteJournal(ReleasingJournal(receipt, Mounted), reliable);
      }
    }

    /** Authenticate, leave the tombstone, and only then turn the journal to Releasing. */
    method BeginRelease(receipt: AllocationReceipt, reliable: bool) returns (r: Outcome<()>)
      requires Safe() && exclusive && readers == 0
      modifies `journal, `tombstone, `readers, `disturbedLease
      ensures Safe() && readers == 0 && disturbedLease == old(disturbedLease)
      ensures tombstone == old(tombstone) || tombstone == Some(receipt)
      ensures Remaining() <= old(Remaining())
      ensures r.Success? ==> tombstone == Some(receipt) && CleaningUp(receipt.backend, receipt.reservedBytes, Some(receipt))
      ensures !old(IsAuthority(receipt)) ==> r.Failure? && Kept()
      ensures reliable && old(IsAuthority(receipt)) ==> r.Success?
    {
      hide Safe, CleaningUp, Remaining;
      var read := Choose(reliable);
      if !read.Works? || journal.None? {
        return Failure(if read.CrashesBefore? || read.CrashesAfter? then Crash else JournalError);
      }
      var state := AuthenticateCleanup(receipt, reliable);
      if state.Failure? { return Failure(state.error); }
      if journal.value.phase.Ready? && state.value != StateMounted { return Failure(IdentityMismatch); }
      r := LeaveTombstone(receipt, reliable);
      if r.Failure? { return; }
      r := TurnToReleasing(receipt, reliable);
    }

    /** `release` under the exclusive lease, which is dropped however the call ends. */
    method ReleaseLocked(receipt: AllocationReceipt, reliable: bool) returns (r: Outcome<()>)
      requires Safe() && !exclusive && readers == 0
      modifies `journal, `volumes, `mounted, `mountpoint, `tombstone, `readers, `exclusive, `wrongfulRemoval, `disturbedLease
      ensures Safe() && !exclusive && readers == 0
      ensures wrongfulRemoval == old(wrongfulRemoval) && disturbedLease == old(disturbedLease)
      ensures tombstone == old(tombstone) || tombstone == Some(receipt)
      ensures Remaining() <= old(Remaining())
      ensures r.Success? ==> PhysicallyGone() && tombstone == Some(receipt)
      ensures !old(IsAuthority(receipt)) ==> r.Failure? && Kept()
      ensures reliable && old(IsAuthority(receipt)) ==> r.Success?
    {
      hide Safe, CleaningUp, Remaining;
      exclusive := true;
      r := BeginRelease(receipt, reliable);
      if r.Success? {
        r := CleanupIdentity(receipt.backend, receipt.reservedBytes, Some(receipt), reliable);
      }
      exclusive := false;
    }

    /** A tombstone's receipt is still the journal's, or everything it describes is gone. */
    lemma TombstoneMeans(receipt: AllocationReceipt)
      requires Safe() && tombstone == Some(receipt)
      ensures journal.Some? ==> Releasable(receipt) && leaseFile
      ensures !mountpoint ==>
        && PhysicallyGone()
        && LvmState(volumeGroup, poolUuid, volumes, mounted, receipt.backend, receipt.reservedBytes) == Success(StateAbsent)
      ensures journal.None? ==> !mountpoint
    {
    }

    /** What `release` asks before it changes anything. */
    predicate MayRelease(receipt: AllocationReceipt)
      reads `journal, `tombstone, `leaseFile, `readers, `holds
    {
      (tombstone.None? || tombstone == Some(receipt)) && holds == 0 && leaseFile && readers == 0 && IsAuthority(receipt)
    }

    /**
      `release`. Whatever fails or crashes, the phases left never grow and the
      invariant holds. Under a lifecycle hold, under a lease, and for any receipt but the
      journal's own it changes nothing. When every step works and nothing stands against it,
      one call finishes the release from any state an earlier call was cut off in.
     */
    method Release(receipt: AllocationReceipt, reliable: bool) returns (r: Outcome<()>)
      requires Safe() && !exclusive && receipt.labels.executionId == layout.executionId
      modifies `journal, `volumes, `mounted, `mountpoint, `tombstone, `readers, `exclusive
      modifies `wrongfulRemoval, `disturbedLease, `releasedWhileHeld
      ensures Safe() && !exclusive && wrongfulRemoval == old(wrongfulRemoval) && disturbedLease == old(disturbedLease)
      ensures old(LeaseGuarded()) ==> LeaseGuarded()
      ensures tombstone == old(tombstone) || (old(tombstone.None?) && tombstone == Some(receipt))
      ensures Remaining() <= old(Remaining())
      ensures r.Success? ==> PhysicallyGone() && tombstone == Some(receipt)
      ensures !old(MayRelease(receipt)) ==> Kept() && (r.Success? ==> old(tombstone == Some(receipt) && !mountpoint))
      ensures reliable && old(MayRelease(receipt) || (tombstone == Some(receipt) && !mountpoint)) ==> r.Success?
      ensures releasedWhileHeld == old(releasedWhileHeld)
    {
      hide Safe, Remaining, LvmState;
      r := ReleaseUnlessHeld(receipt, reliable);
      releasedWhileHeld := releasedWhileHeld || (holds > 0 && !Kept());
    }

    method ReleaseUnlessHeld(receipt: AllocationReceipt, reliable: bool) returns (r: Outcome<()>)
      requires Safe() && !exclusive && receipt.labels.executionId == layout.executionId
      modifies `journal, `volumes, `mounted, `mountpoint, `tombstone, `readers, `exclusive, `wrongfulRemoval, `disturbedLease
      ensures Safe() && !exclusive && wrongfulRemoval == old(wrongfulRemoval) && disturbedLease == old(disturbedLease)
      ensures old(LeaseGuarded()) ==> LeaseGuarded()
      ensures tombstone == old(tombstone) || (old(tombstone.None?) && tombstone == Some(receipt))
      ensures Remaining() <= old(Remaining())
      ensures r.Success? ==> PhysicallyGone() && tombstone == Some(receipt)
      ensures !old(MayRelease(receipt)) ==> Kept() && (r.Success? ==> old(tombstone == Some(receipt) && !mountpoint))
      ensures reliable && old(MayRelease(receipt) || (tombstone == Some(receipt) && !mountpoint)) ==> r.Success?
    {
      hide Safe, Remaining, LvmState;
      if tombstone.Some? {
        if tombstone.value != receipt { return Failure(IdentityMismatch); }
        TombstoneMeans(receipt);
        if !mountpoint {
          var state := QueryState(receipt.backend, receipt.reservedBytes, reliable);
          if state.Failure? { return Failure(state.error); }
          if state.value.StateAbsent? { return Success(()); }
        }
      }
      if holds > 0 { return Failure(Unavailable); }
      if !leaseFile || readers > 0 {
        Others(reliable);
        return Failure(Unavailable);
      }
      r := ReleaseLocked(receipt, reliable);
      Others(reliable);
    }

    /** `ack_release`: the tombstone goes only when it is this receipt's and nothing physical is left. */
    method AckRelease(receipt: AllocationReceipt, reliable: bool) returns (r: Outcome<()>)
      requires Safe() && receipt.labels.executionId == layout.executionId
      modifies `tombstone, `readers
      ensures Safe()
      ensures old(LeaseGuarded()) ==> LeaseGuarded()
      ensures tombstone == old(tombstone) || (old(tombstone) == Some(receipt) && tombstone.None? && PhysicallyGone())
      ensures r.Success? ==> tombstone.None?
      ensures var gone := (old(tombstone.None?) || old(tombstone) == Some(receipt)) && !mountpoint
          && LvmState(volumeGroup, poolUuid, volumes, mounted, receipt.backend, receipt.reservedBytes) == Success(StateAbsent);
        (r.Success? ==> gone) && (reliable && gone ==> r.Success?) && (!gone ==> tombstone == old(tombstone))
      ensures reliable && old(tombstone) == Some(receipt) && PhysicallyGone() ==> r.Success?
    {
      if tombstone.Some? && tombstone.value != receipt { return Failure(IdentityMismatch); }
      var state := QueryState(receipt.backend, receipt.reservedBytes, reliable);
      if state.Failure? { return Failure(state.error); }
      if !state.value.StateAbsent? || mountpoint { return Failure(IdentityMismatch); }
      if tombstone.None? { return Success(()); }
      var fate := Choose(reliable);
      if fate.Applies() { tombstone := None; }
      r := fate.Verdict(JournalError);
      Others(reliable);
    }

    /** `acquire_ready_lease`: shared lock first, then the receipt must match a mounted Ready journal. */
    method AcquireReadyLease(receipt: AllocationReceipt, proof: DockerBindProof, reliable: bool) returns (r: Outcome<()>)
      requires Safe()
      modifies `readers
      ensures old(LeaseGuarded()) ==> LeaseGuarded()
      ensures r.Success? ==> readers == old(readers) + 1 && journal == Some(ReadyJournal(receipt)) && LeaseOpen()
      ensures r.Failure? ==> readers == old(readers)
      ensures var open := leaseFile && !exclusive && journal.Some? && journal.value.phase.Ready?
                          && journal.value.receipt == Some(receipt) && proof == receipt.dockerBind;
        (r.Success? ==> open) && (reliable && open ==> r.Success?)
    {
      if !leaseFile || exclusive { return Failure(Unavailable); }
      var fate := Choose(reliable);
      if !fate.Works? {
        return Failure(if fate.CrashesBefore? || fate.CrashesAfter? then Crash else CommandFailed);
      }
      if journal.None? || !journal.value.phase.Ready? || journal.value.receipt != Some(receipt) {
        return Failure(IdentityMismatch);
      }
      if LvmState(volumeGroup, poolUuid, volumes, mounted, receipt.backend, receipt.reservedBytes) != Success(StateMounted) {
        return Failure(IdentityMismatch);
      }
      if proof != receipt.dockerBind { return Failure(IdentityMismatch); }
      readers := readers + 1;
      r := Success(());
    }

    method DropReadyLease()
      requires readers > 0
      modifies `readers
      ensures readers == old(readers) - 1
      ensures old(LeaseGuarded()) ==> LeaseGuarded()
    {
      readers := readers - 1;
    }

    /** What the invariant says about volumes and mounts. */
    lemma SafeMeansOwned()
      requires Safe()
      ensures forall n | n in volumes :: journal.Some? && volumes[n].tag == journal.value.ownershipToken
      ensures mounted.Some? ==>
        && journal.Some? && journal.value.backend.Some?
        && journal.value.backend.value.Lvm? && journal.value.backend.value.filesystemUuid != ""
    {
    }

    /** One call of a run, with any arguments. */
    method AnyCall() returns (ghost torn: bool)
      requires Safe() && !exclusive
      modifies this
      ensures Safe() && !exclusive && wrongfulRemoval == old(wrongfulRemoval) && releasedWhileHeld == old(releasedWhileHeld)
      ensures old(LeaseGuarded()) && !torn ==> LeaseGuarded() && disturbedLease == old(disturbedLease)
    {
      hide Safe, Remaining, LeaseGuarded, LeaseOpen, ReadyJournal;
      torn := false;
      var receipt: AllocationReceipt := *;
      var request: AllocationRequest := *;
      var token: string, host: Host := *, *;
      if {
        case token != "" && request.labels.executionId == layout.executionId =>
          var outcome: Outcome<AllocationReceipt>;
          outcome, torn := Allocate(request, token, host, false);
        case receipt.labels.executionId == layout.executionId => var _ := Release(receipt, false);
        case receipt.labels.executionId == layout.executionId => var _ := AckRelease(receipt, false);
        case true => var _ := AcquireReadyLease(receipt, host.proof, false);
        case readers > 0 => DropReadyLease();
        case true => holds := *;
      }
    }

    /**
      Any run: `steps` calls with any arguments, any failures and any crashes. No
      volume is ever without its journal, none is ever removed wrongly, no release
      changes anything under a lifecycle hold, and as long as no Ready record was
      published by a write that reported a failure, no held lease is ever disturbed.
     */
    method AnyRun(steps: nat) returns (ghost torn: bool)
      requires Safe() && !exclusive && !wrongfulRemoval && LeaseGuarded() && !disturbedLease && !releasedWhileHeld
      modifies this
      ensures Safe() && !wrongfulRemoval && !releasedWhileHeld
      ensures forall n | n in volumes :: journal.Some? && volumes[n].tag == journal.value.ownershipToken
      ensures mounted.Some? ==>
        && journal.Some? && journal.value.backend.Some?
        && journal.value.backend.value.Lvm? && journal.value.backend.value.filesystemUuid != ""
      ensures !torn ==> !disturbedLease && LeaseGuarded()
    {
      hide Safe, LeaseGuarded;
      torn := false;
      for i := 0 to steps
        invariant Safe() && !exclusive && !wrongfulRemoval && !releasedWhileHeld
        invariant !torn ==> LeaseGuarded() && !disturbedLease
      {
        ghost var now;
        now := AnyCall();
        torn := torn || now;
      }
      SafeMeansOwned();
    }
  }
}
