/**
  The durable records of execution storage: backend identities, allocation
  receipts and phase journals, with the validation each store performs before a
  record is written and after it is read.
 */
module StorageTypes {
  import opened Wrappers

  /** `V1Alpha1` is "autospec.dev/execution-storage/v1alpha1". */
  datatype ApiVersion = V1Alpha1 | OtherVersion(text: string)
  const ALLOCATION_API_VERSION := V1Alpha1

  const GIB: nat := 1024 * 1024 * 1024
  const U64_LIMIT: nat := 0x1_0000_0000_0000_0000

  /** `Crash` stops the caller on the spot; every other error is reported to it. */
  datatype Error =
    | Crash
    | InvalidRequest
    | Unavailable
    | IdentityMismatch
    | JournalError
    | CommandFailed
    | CleanupFailed

  type Outcome<+T> = Result<T, Error>

  /** `checked_mul` of the requested GiB into a 64-bit byte count. */
  function DiskGibToBytes(gib: nat): (r: Outcome<nat>)
  {
    if gib == 0 || gib * GIB >= U64_LIMIT then Failure(InvalidRequest) else Success(gib * GIB)
  }

  /** The least number of GiB that has too many bytes for 64 bits is 2^34. */
  lemma BytesExactly(gib: nat)
    ensures DiskGibToBytes(gib).Success? <==> 1 <= gib <= 17_179_869_183
    ensures DiskGibToBytes(gib).Success? ==> DiskGibToBytes(gib).value == gib * 1_073_741_824
  {
  }

  datatype Labels = Labels(executionId: string, workerId: string, repository: string, issue: Option<string>)

  /** The deterministic paths of one execution. */
  datatype Layout = Layout(executionId: string, root: string)

  datatype BackendIdentity =
    | Apfs(container: string, containerUuid: string, volume: string, volumeName: string,
           volumeUuid: string, ownershipToken: string)
    | Lvm(volumeGroup: string, volumeGroupUuid: string, logicalVolume: string,
          logicalVolumeUuid: string, filesystemUuid: string, ownershipToken: string)

  predicate ValidIdentity(id: BackendIdentity)
  {
    match id
    case Apfs(c, cu, v, vn, vu, t) =>
      c != "" && cu != "" && v != "" && vn != "" && vu != "" && t != ""
    case Lvm(g, gu, lv, lu, fs, t) =>
      g != "" && gu != "" && lv != "" && lu != "" && fs != "" && t != ""
  }

  /** A created LVM identity may still lack its filesystem UUID. */
  predicate ValidCreatedIdentity(id: BackendIdentity)
  {
    match id
    case Apfs(_, _, _, _, _, _) => ValidIdentity(id)
    case Lvm(g, gu, lv, lu, _, t) => g != "" && gu != "" && lv != "" && lu != "" && t != ""
  }

  predicate ValidPreparedTransition(created: BackendIdentity, prepared: BackendIdentity)
  {
    match (created, prepared)
    case (Apfs(_, _, _, _, _, _), Apfs(_, _, _, _, _, _)) => created == prepared
    case (Lvm(g, gu, lv, lu, fs, t), Lvm(pg, pgu, plv, plu, pfs, pt)) =>
      fs == "" && pfs != "" && g == pg && gu == pgu && lv == plv && lu == plu && t == pt
    case _ => false
  }

  function Fields(id: BackendIdentity): seq<string>
  {
    match id
    case Apfs(container, containerUuid, volume, name, uuid, token) => [container, containerUuid, volume, name, uuid, token]
    case Lvm(group, groupUuid, volume, uuid, filesystem, token) => [group, groupUuid, volume, uuid, filesystem, token]
  }

  /** Nothing may be empty; of a created LVM identity, nothing but the filesystem UUID. */
  lemma IdentityExactly(id: BackendIdentity)
    ensures ValidIdentity(id) <==> "" !in Fields(id)
    ensures ValidCreatedIdentity(id) <==> "" !in Fields(if id.Lvm? then id.(filesystemUuid := id.ownershipToken) else id)
  {
  }

  datatype DockerBindProof = DockerBindProof(daemonId: string, verifier: string,
                                             methodVersion: string, sourcePath: string,
                                             filesystemId: string)

  datatype AllocationReceipt = AllocationReceipt(
    apiVersion: ApiVersion, labels: Labels, reservedBytes: nat, mountPath: string,
    backendKind: string, backendKey: string, poolIdentity: string,
    backend: BackendIdentity, dockerBind: DockerBindProof)

  predicate ValidReceipt(r: AllocationReceipt, labels: Labels, layout: Layout)
  {
    && r.apiVersion == ALLOCATION_API_VERSION
    && r.labels == labels
    && r.mountPath == layout.root
    && r.reservedBytes != 0
    && r.backendKind != "" && r.backendKey != "" && r.poolIdentity != ""
    && ValidIdentity(r.backend)
    && r.dockerBind.daemonId != "" && r.dockerBind.verifier != "" && r.dockerBind.methodVersion != ""
    && r.dockerBind.sourcePath == r.mountPath
    && r.dockerBind.filesystemId != ""
  }

  lemma ReceiptExactly(r: AllocationReceipt, labels: Labels, layout: Layout)
    ensures ValidReceipt(r, labels, layout) <==>
      && (r.apiVersion, r.labels, r.mountPath, r.dockerBind.sourcePath) == (V1Alpha1, labels, layout.root, layout.root)
      && r.reservedBytes > 0
      && "" !in [r.backendKind, r.backendKey, r.poolIdentity] + Fields(r.backend)
      && "" !in [r.dockerBind.daemonId, r.dockerBind.verifier, r.dockerBind.methodVersion, r.dockerBind.filesystemId]
  {
    IdentityExactly(r.backend);
    hide ValidIdentity, Fields;
  }

  datatype AllocationPhase = Allocating | Ready | Releasing
  datatype ReleasePhase = Mounted | Unmounted | ObjectAbsent
  datatype BackendState = StateMounted | StateUnmounted | StateAbsent

  datatype PhaseJournal = PhaseJournal(
    apiVersion: ApiVersion, phase: AllocationPhase, labels: Labels, reservedBytes: nat,
    mountPath: string, backendKind: string, backendKey: string, poolIdentity: string,
    ownershipToken: string, backend: Option<BackendIdentity>,
    receipt: Option<AllocationReceipt>, releasePhase: Option<ReleasePhase>)
  {
    function WithBackendIdentity(id: BackendIdentity): (j: PhaseJournal)
    {
      this.(backend := Some(id))
    }
  }

  function AllocatingJournal(labels: Labels, bytes: nat, root: string, kind: string, key: string,
                             pool: string, token: string): PhaseJournal
  {
    PhaseJournal(ALLOCATION_API_VERSION, Allocating, labels, bytes, root, kind, key, pool, token,
                 None, None, None)
  }

  function FromReceipt(phase: AllocationPhase, r: AllocationReceipt): PhaseJournal
  {
    PhaseJournal(ALLOCATION_API_VERSION, phase, r.labels, r.reservedBytes, r.mountPath,
                 r.backendKind, r.backendKey, r.poolIdentity, r.backend.ownershipToken,
                 Some(r.backend), Some(r), None)
  }

  function ReadyJournal(r: AllocationReceipt): PhaseJournal
  {
    FromReceipt(Ready, r)
  }

  function ReleasingJournal(r: AllocationReceipt, phase: ReleasePhase): PhaseJournal
  {
    FromReceipt(Releasing, r).(releasePhase := Some(phase))
  }

  predicate ValidJournal(j: PhaseJournal, layout: Layout)
  {
    && j.apiVersion == ALLOCATION_API_VERSION
    && j.labels.executionId == layout.executionId
    && j.mountPath == layout.root
    && j.reservedBytes != 0
    && j.backendKind != "" && j.backendKey != "" && j.poolIdentity != "" && j.ownershipToken != ""
    && (j.backend.Some? ==>
          && (if j.phase.Allocating? then ValidCreatedIdentity(j.backend.value) else ValidIdentity(j.backend.value))
          && j.backend.value.ownershipToken == j.ownershipToken)
    && match j.phase
       case Allocating => j.receipt.None? && j.releasePhase.None?
       case Ready =>
         && j.backend.Some? && j.receipt.Some? && j.releasePhase.None?
         && j.backend.value == j.receipt.value.backend
         && ValidReceipt(j.receipt.value, j.labels, layout)
       case Releasing =>
         && j.backend.Some? && j.receipt.Some? && j.releasePhase.Some?
         && j.backend.value == j.receipt.value.backend
         && ValidReceipt(j.receipt.value, j.labels, layout)
  }

  /** Phase, identity, receipt and release phase belong together, and the execution is this one. */
  lemma JournalExactly(j: PhaseJournal, layout: Layout)
    ensures ValidJournal(j, layout) <==>
      && (j.apiVersion, j.labels.executionId, j.mountPath) == (V1Alpha1, layout.executionId, layout.root)
      && j.reservedBytes > 0 && "" !in [j.backendKind, j.backendKey, j.poolIdentity, j.ownershipToken]
      && (j.receipt.None? <==> j.phase.Allocating?) && (j.releasePhase.Some? <==> j.phase.Releasing?)
      && (j.receipt.Some? ==> j.backend == Some(j.receipt.value.backend) && ValidReceipt(j.receipt.value, j.labels, layout))
      && (j.backend.Some? ==> j.backend.value.ownershipToken == j.ownershipToken && ValidCreatedIdentity(j.backend.value))
  {
  }

  /** A journal made from a receipt is valid exactly when the receipt is, for this execution. */
  lemma ReceiptJournals(r: AllocationReceipt, phase: ReleasePhase, layout: Layout)
    ensures ValidJournal(ReadyJournal(r), layout) <==>
      r.labels.executionId == layout.executionId && ValidReceipt(r, r.labels, layout)
    ensures ValidJournal(ReleasingJournal(r, phase), layout) <==> ValidJournal(ReadyJournal(r), layout)
  {
  }

  /** Preparing a created identity may add a filesystem UUID and nothing else. */
  lemma PreparedExactly(created: BackendIdentity, prepared: BackendIdentity)
    ensures ValidPreparedTransition(created, prepared) <==>
      if created.Lvm? then
        && created.filesystemUuid == ""
        && prepared.Lvm? && prepared.filesystemUuid != "" && prepared == created.(filesystemUuid := prepared.filesystemUuid)
      else prepared == created
    ensures ValidCreatedIdentity(created) && ValidPreparedTransition(created, prepared) ==> ValidIdentity(prepared)
  {
  }
}
