/**
  The claim and cleanup protocol over the PostgreSQL tables: executions,
  reservations, attempts, cleanup authorities, workers and cancellation requests.

  Each SQL transaction is one method: it either commits all of its updates or
  reports an error and changes nothing. Identifiers are compared for equality and
  order only, so they are natural numbers here.
 */
module Claims {
  import opened Wrappers
  import opened Scheduler
  import C = Cleanup

  type ExecutionId = nat
  type AttemptId = nat

  datatype ExecutionState =
    Queued | WorkerAssigned | Provisioning | Running | PausedForHuman | ReviewReady | Completed | Failed | Cancelled
  {
    predicate IsTerminal() { Completed? || Failed? || Cancelled? }

    predicate CanTransitionTo(next: ExecutionState) {
      if this == next then false
      else if next.Cancelled? || next.Failed? then !IsTerminal()
      else match (this, next)
        case (Queued, WorkerAssigned) => true
        case (WorkerAssigned, Provisioning) => true
        case (Provisioning, Running) => true
        case (Running, PausedForHuman) => true
        case (PausedForHuman, Running) => true
        case (Running, ReviewReady) => true
        case (Running, Completed) => true
        case (ReviewReady, Completed) => true
        case _ => false
    }
  }

  /** The terminal states are exactly those without a way out; any other can still fail or be cancelled. */
  lemma TerminalExactly(s: ExecutionState)
    ensures s.IsTerminal() <==> forall next :: !s.CanTransitionTo(next)
    ensures !s.IsTerminal() ==> s.CanTransitionTo(Failed) && s.CanTransitionTo(Cancelled)
  {
    assert !s.IsTerminal() ==> s.CanTransitionTo(Failed);
  }

  const LIVE: set<ExecutionState> := {Queued, WorkerAssigned, Provisioning, Running, PausedForHuman, ReviewReady}

  /** Where each state can be come from; no transition leads back into the queue. */
  lemma ComesFromExactly(s: ExecutionState, next: ExecutionState)
    ensures s.CanTransitionTo(next) <==>
      s in (match next
            case Queued => {}
            case WorkerAssigned => {Queued}
            case Provisioning => {WorkerAssigned}
            case Running => {Provisioning, PausedForHuman}
            case PausedForHuman => {Running}
            case ReviewReady => {Running}
            case Completed => {Running, ReviewReady}
            case Failed => LIVE
            case Cancelled => LIVE)
  {
  }

  datatype Execution = Execution(
    state: ExecutionState, requirement: Requirement, resumable: bool, createdAt: nat,
    worker: Option<WorkerId>, attempt: Option<AttemptId>)

  datatype Reservation = Reservation(worker: WorkerId, attempt: AttemptId, cpu: nat, memoryMib: nat, diskGib: nat)
  datatype Attempt = Attempt(execution: ExecutionId, worker: WorkerId, finished: bool)
  datatype Authority = Authority(attempt: AttemptId, worker: WorkerId, phase: C.Disposition)
  datatype StoreError = NotFound | Conflict | IllegalTransition
  datatype Recovery = RecoveryPending | Requeued | RecoveredReviewReady | RecoveryFailed

  const U32_MAX: nat := 0xFFFF_FFFF
  const I32_MAX: nat := 0x7FFF_FFFF
  const I64_MAX: nat := 0x7FFF_FFFF_FFFF_FFFF

  // ------------------------------------------------------------ aggregate queries

  /** The rows `WHERE worker_id = w`. */
  function RowsOf(rows: map<ExecutionId, Reservation>, w: WorkerId): set<ExecutionId>
  {
    set e | e in rows && rows[e].worker == w
  }

  function AddRow(used: Reserved, r: Reservation): Reserved
  {
    Reserved(used.slots + 1, used.cpu + r.cpu, used.memoryMib + r.memoryMib, used.diskGib + r.diskGib)
  }

  /** `COUNT(*)` and the three `SUM`s over a set of rows. */
  ghost function Load(keys: set<ExecutionId>, rows: map<ExecutionId, Reservation>): (r: Reserved)
    requires keys <= rows.Keys
    ensures r.slots == |keys|
  {
    if keys == {} then Reserved(0, 0, 0, 0)
    else
      var e :| e in keys;
      AddRow(Load(keys - {e}, rows), rows[e])
  }

  ghost function Used(rows: map<ExecutionId, Reservation>, w: WorkerId): (r: Reserved)
    ensures r.slots == |RowsOf(rows, w)|
  {
    Load(RowsOf(rows, w), rows)
  }

  lemma LoadUnfolds(keys: set<ExecutionId>, rows: map<ExecutionId, Reservation>) returns (d: ExecutionId)
    requires keys <= rows.Keys && keys != {}
    ensures d in keys && Load(keys, rows) == AddRow(Load(keys - {d}, rows), rows[d])
  {
    d :| d in keys && Load(keys, rows) == AddRow(Load(keys - {d}, rows), rows[d]);
  }

  lemma AddRowCommutes(used: Reserved, a: Reservation, b: Reservation)
    ensures AddRow(AddRow(used, a), b) == AddRow(AddRow(used, b), a)
  {
  }

  /** The sums do not depend on the order in which rows are added up. */
  lemma {:induction false} LoadPick(keys: set<ExecutionId>, rows: map<ExecutionId, Reservation>, e: ExecutionId)
    requires keys <= rows.Keys && e in keys
    ensures Load(keys, rows) == AddRow(Load(keys - {e}, rows), rows[e])
    decreases keys
  {
    hide Load, AddRow;
    var d := LoadUnfolds(keys, rows);
    if d != e {
      var rest := keys - {d, e};
      assert keys - {d} - {e} == rest && keys - {e} - {d} == rest;
      LoadPick(keys - {d}, rows, e);
      LoadPick(keys - {e}, rows, d);
      AddRowCommutes(Load(rest, rows), rows[d], rows[e]);
    }
  }

  lemma {:induction false} LoadSameRows(
    keys: set<ExecutionId>, a: map<ExecutionId, Reservation>, b: map<ExecutionId, Reservation>)
    requires keys <= a.Keys && keys <= b.Keys && forall e | e in keys :: a[e] == b[e]
    ensures Load(keys, a) == Load(keys, b)
    decreases keys
  {
    if keys != {} {
      var e :| e in keys;
      LoadPick(keys, a, e);
      LoadPick(keys, b, e);
      LoadSameRows(keys - {e}, a, b);
    }
  }

  /** Inserting a reservation adds exactly its own request to its own worker. */
  lemma UsedAfterInsert(rows: map<ExecutionId, Reservation>, e: ExecutionId, r: Reservation, w: WorkerId)
    requires e !in rows
    ensures Used(rows[e := r], w) == if r.worker == w then AddRow(Used(rows, w), r) else Used(rows, w)
  {
    var after := rows[e := r];
    if r.worker == w {
      assert RowsOf(after, w) == RowsOf(rows, w) + {e};
      LoadPick(RowsOf(after, w), after, e);
      assert RowsOf(after, w) - {e} == RowsOf(rows, w);
    } else {
      assert RowsOf(after, w) == RowsOf(rows, w);
    }
    LoadSameRows(RowsOf(rows, w), rows, after);
  }

  /** Deleting a reservation takes exactly its own request off its own worker. */
  lemma UsedAfterDelete(rows: map<ExecutionId, Reservation>, e: ExecutionId, w: WorkerId)
    requires e in rows
    ensures rows[e].worker == w ==> Used(rows, w) == AddRow(Used(rows - {e}, w), rows[e])
    ensures rows[e].worker != w ==> Used(rows, w) == Used(rows - {e}, w)
  {
    assert rows == (rows - {e})[e := rows[e]];
    UsedAfterInsert(rows - {e}, e, rows[e], w);
  }

  // ---------------------------------------------------------- cleanup phase history

  /** The cleanup phases between a fenced attempt and its resolution, in order. */
  const CLEANUP_CHAIN: seq<C.Disposition> :=
    [C.CleanupPending, C.RuntimeStopped, C.RuntimeDestroyed, C.GitRecoveredCleaned,
     C.StorageReleased, C.ReservationReleased, C.Resolved]

  /** Ranks rise along the history, and past CleanupPending no phase is skipped. */
  predicate Orderly(log: seq<C.Disposition>)
  {
    && (forall i | 0 < i < |log| :: C.Rank(log[i - 1]) < C.Rank(log[i]))
    && (forall i | 0 <= i < |log| && C.Rank(log[i]) > C.Rank(C.CleanupPending) ::
          i > 0 && C.Rank(log[i - 1]) + 1 == C.Rank(log[i]))
  }

  /** A phase may move forward freely up to CleanupPending, and one step at a time beyond it. */
  predicate MayMove(from: C.Disposition, to: C.Disposition)
  {
    C.Rank(from) < C.Rank(to) && (C.Rank(to) <= C.Rank(C.CleanupPending) || C.Rank(to) == C.Rank(from) + 1)
  }

  lemma MayRequestRetention()
    ensures MayMove(C.Active(C.PostPiBeforeEvent), C.RetainRequested)
  {
  }

  lemma OrderlyExtends(log: seq<C.Disposition>, phase: C.Disposition)
    requires Orderly(log) && log != [] && MayMove(log[|log| - 1], phase)
    ensures Orderly(log + [phase])
  {
    hide C.Rank;
  }

  /** A history that ends in Resolved ends with the whole chain. */
  lemma ResolvedPassedWholeChain(log: seq<C.Disposition>)
    requires Orderly(log) && log != [] && log[|log| - 1] == C.Resolved
    ensures |log| >= 7 && log[|log| - 7..] == CLEANUP_CHAIN
  {
    var n := |log|;
    assert C.Rank(log[n - 1]) == 15 && n >= 2;
    assert C.Rank(log[n - 2]) == 14 && n >= 3;
    assert C.Rank(log[n - 3]) == 13 && n >= 4;
    assert C.Rank(log[n - 4]) == 12 && n >= 5;
    assert C.Rank(log[n - 5]) == 11 && n >= 6;
    assert C.Rank(log[n - 6]) == 10 && n >= 7;
    assert C.Rank(log[n - 7]) == 9;
    assert log[n - 7..] == [log[n - 7], log[n - 6], log[n - 5], log[n - 4], log[n - 3], log[n - 2], log[n - 1]];
  }

  // ---------------------------------------------------------------------- invariants

  type Executions = map<ExecutionId, Execution>
  type Reservations = map<ExecutionId, Reservation>
  type Attempts = map<AttemptId, Attempt>
  type Authorities = map<ExecutionId, Authority>
  type Workers = map<WorkerId, Worker>
  type ClaimLog = map<ExecutionId, seq<AttemptId>>
  type PhaseLog = map<ExecutionId, seq<C.Disposition>>

  /** Each worker's counter is the number of its reservations. */
  predicate Conserved(rows: Reservations, workers: Workers)
  {
    && (forall w | w in workers :: workers[w].running == |RowsOf(rows, w)|)
    && (forall e | e in rows :: rows[e].worker in workers)
  }

  /** A reservation is that of the attempt its execution names. */
  predicate ReservationsLinked(xs: Executions, rows: Reservations)
  {
    forall e | e in rows ::
      e in xs && xs[e].attempt == Some(rows[e].attempt) && xs[e].worker == Some(rows[e].worker)
  }

  /** A queued execution names no attempt; any other names one of its own, or none. */
  predicate ExecutionsLinked(xs: Executions, ats: Attempts)
  {
    forall e | e in xs ::
      && xs[e].attempt.Some? == xs[e].worker.Some?
      && (xs[e].state.Queued? ==> xs[e].attempt.None?)
      && (xs[e].attempt.Some? ==> OwnAttempt(ats, xs[e].attempt.value, e, xs[e].worker.value))
  }

  predicate OwnAttempt(ats: Attempts, a: AttemptId, e: ExecutionId, w: WorkerId)
  {
    a in ats && ats[a].execution == e && ats[a].worker == w
  }

  /** At most one attempt of an execution is unfinished: the one it names. */
  predicate AttemptsLinked(xs: Executions, ats: Attempts, workers: Workers)
  {
    forall a | a in ats ::
      && ats[a].execution in xs && ats[a].worker in workers
      && (!ats[a].finished ==> xs[ats[a].execution].attempt == Some(a))
  }

  /** Until the reservation is released, an authority is that of the execution's own attempt. */
  predicate Authorised(xs: Executions, ats: Attempts, auths: Authorities)
  {
    forall e | e in auths ::
      && e in xs && OwnAttempt(ats, auths[e].attempt, e, auths[e].worker)
      && (Unreleased(auths[e].phase) ==> xs[e].attempt == Some(auths[e].attempt))
  }

  predicate Unreleased(phase: C.Disposition)
  {
    !phase.ReservationReleased? && !phase.Resolved?
  }

  /** The claims of one execution: the second follows a resolved first, and there is no third. */
  predicate ClaimsOf(x: Execution, auth: Option<Authority>, log: seq<AttemptId>)
  {
    && (x.attempt.Some? ==> log != [] && x.attempt.value == log[|log| - 1])
    && (auth.Some? ==> log != [] && auth.value.attempt == log[0])
    && (x.state.Queued? ==> |log| == if auth.Some? then 1 else 0)
    && |log| <= 2
    && (|log| == 2 ==> auth.Some? && auth.value.phase.Resolved? && log[0] != log[1])
  }

  function Find<T>(table: map<ExecutionId, T>, e: ExecutionId): Option<T>
  {
    if e in table then Some(table[e]) else None
  }

  predicate Claimed(xs: Executions, auths: Authorities, log: ClaimLog)
  {
    log.Keys == xs.Keys && forall e | e in xs :: ClaimsOf(xs[e], Find(auths, e), log[e])
  }

  /** The recorded phases of an authority are orderly and end with the current one. */
  predicate Logged(auths: Authorities, log: PhaseLog)
  {
    && log.Keys == auths.Keys
    && (forall e | e in auths :: log[e] != [] && log[e][|log[e]| - 1] == auths[e].phase && Orderly(log[e]))
  }

  // -------------------------------------------------- what each update does to them

  lemma DeleteConserves(rows: Reservations, workers: Workers, e: ExecutionId)
    requires Conserved(rows, workers) && e in rows
    ensures var w := rows[e].worker;
            && w in workers && workers[w].running > 0
            && Conserved(rows - {e}, workers[w := workers[w].(running := workers[w].running - 1)])
  {
    forall v | v in workers
      ensures |RowsOf(rows, v)| == |RowsOf(rows - {e}, v)| + if rows[e].worker == v then 1 else 0
    {
      UsedAfterDelete(rows, e, v);
    }
  }

  lemma InsertConserves(rows: Reservations, workers: Workers, e: ExecutionId, r: Reservation)
    requires Conserved(rows, workers) && e !in rows && r.worker in workers
    ensures var w := r.worker;
            Conserved(rows[e := r], workers[w := workers[w].(running := workers[w].running + 1)])
  {
    forall v | v in workers
      ensures |RowsOf(rows[e := r], v)| == |RowsOf(rows, v)| + if r.worker == v then 1 else 0
    {
      UsedAfterInsert(rows, e, r, v);
    }
  }

  /** The claims of the other executions are untouched, so only those of `e` matter. */
  lemma ClaimedElsewhere(xs: Executions, ys: Executions, auths: Authorities, bs: Authorities,
                         log: ClaimLog, kog: ClaimLog, e: ExecutionId)
    requires Claimed(xs, auths, log) && e in xs
    requires e in ys && e in kog && ys == xs[e := ys[e]] && kog == log[e := kog[e]]
    requires bs == auths || (e in bs && bs == auths[e := bs[e]])
    requires ClaimsOf(ys[e], Find(bs, e), kog[e])
    ensures Claimed(ys, bs, kog)
  {
    hide ClaimsOf;
    forall d | d in ys
      ensures ClaimsOf(ys[d], Find(bs, d), kog[d])
    {
      assert d != e ==> Find(bs, d) == Find(auths, d);
    }
  }

  /** An execution row changes its state only, and not to Queued. */
  lemma StateChangeKeeps(xs: Executions, rows: Reservations, ats: Attempts, workers: Workers,
                         auths: Authorities, log: ClaimLog, e: ExecutionId, next: ExecutionState)
    requires e in xs && (next.Queued? ==> xs[e].state.Queued?)
    requires ReservationsLinked(xs, rows) && ExecutionsLinked(xs, ats) && AttemptsLinked(xs, ats, workers)
    requires Authorised(xs, ats, auths) && Claimed(xs, auths, log)
    ensures var ys := xs[e := xs[e].(state := next)];
            && ReservationsLinked(ys, rows) && ExecutionsLinked(ys, ats) && AttemptsLinked(ys, ats, workers)
            && Authorised(ys, ats, auths) && Claimed(ys, auths, log)
  {
    hide ReservationsLinked, ExecutionsLinked, AttemptsLinked, Authorised;
    var ys := xs[e := xs[e].(state := next)];
    StateChangeLinks(xs, rows, ats, workers, auths, e, next);
    assert ClaimsOf(xs[e], Find(auths, e), log[e]);
    hide Claimed;
    ClaimedElsewhere(xs, ys, auths, auths, log, log, e);
  }

  lemma StateChangeLinks(xs: Executions, rows: Reservations, ats: Attempts, workers: Workers,
                         auths: Authorities, e: ExecutionId, next: ExecutionState)
    requires e in xs && (next.Queued? ==> xs[e].state.Queued?)
    requires ReservationsLinked(xs, rows) && ExecutionsLinked(xs, ats) && AttemptsLinked(xs, ats, workers)
    requires Authorised(xs, ats, auths)
    ensures var ys := xs[e := xs[e].(state := next)];
            && ReservationsLinked(ys, rows) && ExecutionsLinked(ys, ats) && AttemptsLinked(ys, ats, workers)
            && Authorised(ys, ats, auths)
  {
    hide OwnAttempt, Unreleased;
  }

  lemma FinishKeeps(xs: Executions, ats: Attempts, workers: Workers, auths: Authorities, a: AttemptId)
    requires a in ats
    requires ExecutionsLinked(xs, ats) && AttemptsLinked(xs, ats, workers) && Authorised(xs, ats, auths)
    ensures var bts := ats[a := ats[a].(finished := true)];
            ExecutionsLinked(xs, bts) && AttemptsLinked(xs, bts, workers) && Authorised(xs, bts, auths)
  {
  }

  lemma PhaseKeeps(xs: Executions, ats: Attempts, auths: Authorities, claims: ClaimLog, phases: PhaseLog,
                   e: ExecutionId, phase: C.Disposition)
    requires e in auths && e in xs && MayMove(auths[e].phase, phase)
    requires Authorised(xs, ats, auths) && Claimed(xs, auths, claims) && Logged(auths, phases)
    ensures e in phases
    ensures var bs := auths[e := auths[e].(phase := phase)];
            && Authorised(xs, ats, bs) && Claimed(xs, bs, claims)
            && Logged(bs, phases[e := phases[e] + [phase]])
  {
    hide Logged, Authorised, C.Rank;
    var bs := auths[e := auths[e].(phase := phase)];
    LoggedMoves(auths, phases, e, phase);
    AuthorisedMoves(xs, ats, auths, e, phase);
    assert ClaimsOf(xs[e], Find(auths, e), claims[e]);
    assert !auths[e].phase.Resolved?;
    hide Claimed, MayMove;
    ClaimedElsewhere(xs, xs, auths, bs, claims, claims, e);
  }

  lemma LoggedMoves(auths: Authorities, phases: PhaseLog, e: ExecutionId, phase: C.Disposition)
    requires e in auths && MayMove(auths[e].phase, phase) && Logged(auths, phases)
    ensures e in phases
    ensures Logged(auths[e := auths[e].(phase := phase)], phases[e := phases[e] + [phase]])
  {
    hide Orderly, MayMove, C.Rank;
    OrderlyExtends(phases[e], phase);
    var bs, log := auths[e := auths[e].(phase := phase)], phases[e := phases[e] + [phase]];
    forall d | d in bs
      ensures log[d] != [] && log[d][|log[d]| - 1] == bs[d].phase && Orderly(log[d])
    {
      assert d == e || (d in auths && log[d] == phases[d]);
    }
  }

  lemma AuthorisedMoves(xs: Executions, ats: Attempts, auths: Authorities, e: ExecutionId, phase: C.Disposition)
    requires e in auths && MayMove(auths[e].phase, phase) && Authorised(xs, ats, auths)
    ensures Authorised(xs, ats, auths[e := auths[e].(phase := phase)])
  {
    assert Unreleased(phase) ==> Unreleased(auths[e].phase);
    hide MayMove, Unreleased;
  }

  /** A first authority for the attempt of the execution's only claim. */
  lemma NewAuthorityKeeps(xs: Executions, ats: Attempts, auths: Authorities, claims: ClaimLog, phases: PhaseLog,
                          e: ExecutionId, b: Authority)
    requires e in xs && e !in auths && xs[e].attempt == Some(b.attempt) && xs[e].worker == Some(b.worker)
    requires C.Rank(b.phase) <= C.Rank(C.CleanupPending)
    requires ExecutionsLinked(xs, ats)
    requires Authorised(xs, ats, auths) && Claimed(xs, auths, claims) && Logged(auths, phases)
    ensures var bs := auths[e := b];
            Authorised(xs, ats, bs) && Claimed(xs, bs, claims) && Logged(bs, phases[e := [b.phase]])
  {
    hide Authorised, ExecutionsLinked, Logged;
    NewAuthorityIsOwn(xs, ats, auths, e, b);
    NewAuthorityIsLogged(auths, phases, e, b);
    hide C.Rank;
    assert ClaimsOf(xs[e], Find(auths, e), claims[e]);
    hide Claimed;
    ClaimedElsewhere(xs, xs, auths, auths[e := b], claims, claims, e);
  }

  lemma NewAuthorityIsOwn(xs: Executions, ats: Attempts, auths: Authorities, e: ExecutionId, b: Authority)
    requires e in xs && xs[e].attempt == Some(b.attempt) && xs[e].worker == Some(b.worker)
    requires ExecutionsLinked(xs, ats) && Authorised(xs, ats, auths)
    ensures Authorised(xs, ats, auths[e := b])
  {
    hide Unreleased;
  }

  lemma NewAuthorityIsLogged(auths: Authorities, phases: PhaseLog, e: ExecutionId, b: Authority)
    requires C.Rank(b.phase) <= C.Rank(C.CleanupPending) && Logged(auths, phases)
    ensures Logged(auths[e := b], phases[e := [b.phase]])
  {
    assert Orderly([b.phase]);
    hide Orderly, C.Rank;
  }

  function AssignedTo(x: Execution, w: WorkerId, a: AttemptId): Execution
  {
    x.(state := WorkerAssigned, worker := Some(w), attempt := Some(a))
  }

  /** The writes of a claim keep every link. */
  lemma ClaimKeeps(xs: Executions, rows: Reservations, ats: Attempts, workers: Workers, auths: Authorities,
                   log: ClaimLog, e: ExecutionId, a: AttemptId, r: Reservation)
    requires e in xs && xs[e].state.Queued? && (e in auths ==> auths[e].phase.Resolved?)
    requires a !in ats && r.attempt == a && r.worker in workers
    requires ReservationsLinked(xs, rows) && ExecutionsLinked(xs, ats) && AttemptsLinked(xs, ats, workers)
    requires Authorised(xs, ats, auths) && Claimed(xs, auths, log)
    ensures e !in rows && e in log
    ensures var ys := xs[e := AssignedTo(xs[e], r.worker, a)];
            var bts := ats[a := Attempt(e, r.worker, false)];
            && ReservationsLinked(ys, rows[e := r]) && ExecutionsLinked(ys, bts) && AttemptsLinked(ys, bts, workers)
            && Authorised(ys, bts, auths) && Claimed(ys, auths, log[e := log[e] + [a]])
  {
    var ys := xs[e := AssignedTo(xs[e], r.worker, a)];
    ClaimLinks(xs, rows, ats, workers, auths, e, a, r);
    assert e in auths ==> OwnAttempt(ats, auths[e].attempt, e, auths[e].worker);
    hide ReservationsLinked, ExecutionsLinked, AttemptsLinked, Authorised;
    assert ClaimsOf(xs[e], Find(auths, e), log[e]);
    hide Claimed;
    ClaimedElsewhere(xs, ys, auths, auths, log, log[e := log[e] + [a]], e);
  }

  lemma ClaimLinks(xs: Executions, rows: Reservations, ats: Attempts, workers: Workers, auths: Authorities,
                   e: ExecutionId, a: AttemptId, r: Reservation)
    requires e in xs && xs[e].state.Queued? && (e in auths ==> auths[e].phase.Resolved?)
    requires a !in ats && r.attempt == a && r.worker in workers
    requires ReservationsLinked(xs, rows) && ExecutionsLinked(xs, ats) && AttemptsLinked(xs, ats, workers)
    requires Authorised(xs, ats, auths)
    ensures e !in rows
    ensures var ys := xs[e := AssignedTo(xs[e], r.worker, a)];
            var bts := ats[a := Attempt(e, r.worker, false)];
            && ReservationsLinked(ys, rows[e := r]) && ExecutionsLinked(ys, bts) && AttemptsLinked(ys, bts, workers)
            && Authorised(ys, bts, auths)
  {
  }

  /** The execution lets go of a finished attempt whose authority has released its reservation. */
  lemma DetachKeeps(xs: Executions, rows: Reservations, ats: Attempts, workers: Workers, auths: Authorities,
                    log: ClaimLog, e: ExecutionId, next: ExecutionState)
    requires e in xs && e !in rows && e in auths && auths[e].phase.ReservationReleased?
    requires OwnAttempt(ats, auths[e].attempt, e, auths[e].worker) && ats[auths[e].attempt].finished
    requires xs[e].attempt == Some(auths[e].attempt)
    requires ReservationsLinked(xs, rows) && ExecutionsLinked(xs, ats) && AttemptsLinked(xs, ats, workers)
    requires Authorised(xs, ats, auths) && Claimed(xs, auths, log)
    ensures var ys := xs[e := xs[e].(state := next, worker := None, attempt := None)];
            && ReservationsLinked(ys, rows) && ExecutionsLinked(ys, ats) && AttemptsLinked(ys, ats, workers)
            && Authorised(ys, ats, auths) && Claimed(ys, auths, log)
  {
    var ys := xs[e := xs[e].(state := next, worker := None, attempt := None)];
    assert ClaimsOf(xs[e], Find(auths, e), log[e]);
    hide Claimed;
    ClaimedElsewhere(xs, ys, auths, auths, log, log, e);
  }

  /** Links do not look at a worker's counter, and a deleted reservation leaves nothing to link. */
  lemma WorkerRowKeeps(xs: Executions, rows: Reservations, ats: Attempts, workers: Workers,
                       w: WorkerId, row: Worker, e: ExecutionId)
    requires ReservationsLinked(xs, rows) && AttemptsLinked(xs, ats, workers)
    ensures AttemptsLinked(xs, ats, workers[w := row]) && ReservationsLinked(xs, rows - {e})
  {
  }

  /** What the links say about one reservation. */
  lemma ReservationFacts(xs: Executions, rows: Reservations, ats: Attempts, e: ExecutionId)
    requires ReservationsLinked(xs, rows) && ExecutionsLinked(xs, ats) && e in rows
    ensures e in xs && !xs[e].state.Queued?
    ensures xs[e].attempt == Some(rows[e].attempt) && xs[e].worker == Some(rows[e].worker)
    ensures OwnAttempt(ats, rows[e].attempt, e, rows[e].worker)
  {
  }

  /** What the links say about one authority. */
  lemma AuthorityFacts(xs: Executions, ats: Attempts, auths: Authorities, e: ExecutionId)
    requires ExecutionsLinked(xs, ats) && Authorised(xs, ats, auths) && e in auths
    ensures e in xs && OwnAttempt(ats, auths[e].attempt, e, auths[e].worker)
    ensures Unreleased(auths[e].phase) ==>
      xs[e].attempt == Some(auths[e].attempt) && xs[e].worker == Some(auths[e].worker)
  {
  }

  /** Up to StorageReleased the authority's attempt is the one the execution names. */
  lemma StorageReleasedIsAttached(xs: Executions, ats: Attempts, auths: Authorities, e: ExecutionId)
    requires ExecutionsLinked(xs, ats) && Authorised(xs, ats, auths) && e in auths && auths[e].phase.StorageReleased?
    ensures e in xs && !xs[e].state.Queued? && xs[e].attempt == Some(auths[e].attempt)
    ensures OwnAttempt(ats, auths[e].attempt, e, auths[e].worker)
  {
  }

  /** `cleanup_outcome` */
  function CleanupOutcome(x: Execution): (r: Recovery)
  {
    if x.state.ReviewReady? then RecoveredReviewReady
    else if !x.state.IsTerminal() && x.resumable then Requeued
    else RecoveryFailed
  }

  /** The state `finalize_cleanup` leaves an execution in. */
  function FinalState(x: Execution, cancellationPending: bool): (next: ExecutionState)
  {
    var lost := !x.state.IsTerminal() && !cancellationPending;
    if x.state.ReviewReady? then ReviewReady
    else if lost && x.resumable then Queued
    else if lost then Failed
    else x.state
  }

  /**
    The outcome is decided by the state the execution is left in as much as by the
    one it was found in, so asking again gives the same answer. It says Requeued
    exactly when the execution is queued again, unless a cancellation is pending:
    then it may say Requeued about an execution that stays where it was.
   */
  lemma FinalStateMeans(x: Execution, pending: bool)
    requires !x.state.Queued?
    ensures var next := FinalState(x, pending);
      && (x.state.IsTerminal() || x.state.ReviewReady? || pending ==> next == x.state)
      && (CleanupOutcome(x).RecoveryFailed? && !x.state.IsTerminal() && !pending ==> next.Failed?)
      && (next.Completed? || next.Cancelled? ==> next == x.state)
  {
  }

  lemma OutcomeIsStable(x: Execution, pending: bool)
    requires !x.state.Queued?
    ensures CleanupOutcome(x.(state := FinalState(x, pending), worker := None, attempt := None)) == CleanupOutcome(x)
    ensures FinalState(x, pending).Queued? <==> CleanupOutcome(x).Requeued? && !pending
  {
  }

  /**
    How a row may move from one transaction to a later one: its manifest stays, a terminal
    state stays, and until its authority is resolved so does a started execution whose
    cancellation is pending.
   */
  predicate RowMoves(x: Execution, y: Execution, pending: bool, stillPending: bool, resolved: bool)
  {
    && y.resumable == x.resumable
    && (x.state.IsTerminal() ==> y.state == x.state)
    && (pending && !x.state.Queued? && !resolved ==> y.state == x.state && stillPending)
  }

  predicate Pending(requests: map<ExecutionId, bool>, e: ExecutionId)
  {
    e in requests && !requests[e]
  }

  predicate IsResolved(auths: Authorities, e: ExecutionId)
  {
    e in auths && auths[e].phase.Resolved?
  }

  predicate RowsMove(xs: Executions, ys: Executions, before: map<ExecutionId, bool>, after: map<ExecutionId, bool>, auths: Authorities)
  {
    forall e | e in xs :: e in ys && RowMoves(xs[e], ys[e], Pending(before, e), Pending(after, e), IsResolved(auths, e))
  }

  lemma RowsMoveOn(xs: Executions, ys: Executions, zs: Executions, a: map<ExecutionId, bool>, b: map<ExecutionId, bool>,
                   c: map<ExecutionId, bool>, auths: Authorities, now: Authorities)
    requires RowsMove(xs, ys, a, b, auths) && RowsMove(ys, zs, b, c, now) && Advances(auths, now)
    ensures RowsMove(xs, zs, a, c, now)
  {
    hide Pending;
    forall e | e in xs
      ensures e in zs && RowMoves(xs[e], zs[e], Pending(a, e), Pending(c, e), IsResolved(now, e))
    {
      assert IsResolved(auths, e) ==> NoEarlier(auths[e], now[e]);
    }
  }

  lemma ReleasedOrResolved(a: Authority, b: Authority)
    requires NoEarlier(a, b) && a.phase.ReservationReleased?
    ensures b.attempt == a.attempt && (b.phase.ReservationReleased? || b.phase.Resolved?)
  {
    C.TransitionsAreSuccessors(a.phase, b.phase);
    C.TransitionsAreSuccessors(C.Resolved, b.phase);
  }

  /** What a repeat finds in the row that the first answer described. */
  predicate StillDescribes(r: Recovery, x: Execution)
  {
    match r
    case RecoveredReviewReady => x.state.ReviewReady?
    case Requeued => !x.state.ReviewReady? && !x.state.IsTerminal()
    case RecoveryFailed => !x.state.ReviewReady?
    case RecoveryPending => false
  }

  /** A repeated answer is the same exactly when the row is still of the kind it described. */
  lemma RepeatExactly(x: Execution, y: Execution, pending: bool, stillPending: bool, resolved: bool)
    requires RowMoves(x, y, pending, stillPending, resolved)
    ensures CleanupOutcome(y) == CleanupOutcome(x) <==> StillDescribes(CleanupOutcome(x), y)
  {
  }

  /** After a finalization that gave an execution up, the answer stays until the authority is resolved. */
  lemma FailureIsFinal(x: Execution, y: Execution, pending: bool, stillPending: bool)
    requires !x.state.Queued? && CleanupOutcome(x).RecoveryFailed?
    requires RowMoves(x.(state := FinalState(x, pending), worker := None, attempt := None), y, pending, stillPending, false)
    ensures StillDescribes(RecoveryFailed, y)
  {
  }

  predicate ValidWorker(w: Worker)
  {
    && w.cpu != 0 && w.memoryMib >= 1024 && w.diskGib != 0 && 0 < w.maxConcurrent <= 64
    && (w.state.Ready? ==> w.proofComplete)
  }

  /** The same attempt's authority, no earlier in the cleanup than before. */
  predicate NoEarlier(a: Authority, b: Authority)
  {
    a.attempt == b.attempt && a.worker == b.worker && C.Rank(a.phase) <= C.Rank(b.phase)
  }

  predicate Advances(before: Authorities, after: Authorities)
  {
    forall e | e in before :: e in after && NoEarlier(before[e], after[e])
  }

  /** The worker of a deleted reservation runs one execution less. */
  function WithoutSlot(workers: Workers, rows: Reservations, e: ExecutionId): Workers
  {
    if e in rows && rows[e].worker in workers then
      var w := rows[e].worker;
      workers[w := workers[w].(running := SaturatingSub(workers[w].running, 1))]
    else workers
  }

  /** What one fence leaves: CleanupPending, unless the authority is another attempt's or is past it. */
  function FencedAuthority(was: Option<Authority>, a: AttemptId, w: WorkerId): (now: Authority)
  {
    match was
    case None => Authority(a, w, C.CleanupPending)
    case Some(b) =>
      if b.attempt == a && b.worker == w && C.Rank(b.phase) <= C.Rank(C.CleanupPending) then b.(phase := C.CleanupPending)
      else b
  }

  /** A worker row is written with the counter it had, or zero for a new worker. */
  lemma WorkerWriteConserves(rows: Reservations, workers: Workers, w: WorkerId, row: Worker)
    requires Conserved(rows, workers)
    requires row.running == if w in workers then workers[w].running else 0
    ensures Conserved(rows, workers[w := row])
  {
    if w !in workers {
      assert RowsOf(rows, w) == {};
    }
  }

  lemma StaleConserves(rows: Reservations, workers: Workers, now: Workers)
    requires Conserved(rows, workers) && now.Keys == workers.Keys
    requires forall w | w in now :: now[w].running == workers[w].running
    ensures Conserved(rows, now)
  {
  }

  lemma StaleKeepsLinks(xs: Executions, ats: Attempts, workers: Workers, now: Workers)
    requires AttemptsLinked(xs, ats, workers) && now.Keys == workers.Keys
    ensures AttemptsLinked(xs, ats, now)
  {
  }

  /** A new execution has no attempt, no reservation and no authority. */
  lemma InsertKeeps(xs: Executions, rows: Reservations, ats: Attempts, workers: Workers,
                    auths: Authorities, log: ClaimLog, e: ExecutionId, x: Execution)
    requires e !in xs && x.worker.None? && x.attempt.None?
    requires ReservationsLinked(xs, rows) && ExecutionsLinked(xs, ats) && AttemptsLinked(xs, ats, workers)
    requires Authorised(xs, ats, auths) && Claimed(xs, auths, log)
    ensures var ys := xs[e := x];
            && ReservationsLinked(ys, rows) && ExecutionsLinked(ys, ats) && AttemptsLinked(ys, ats, workers)
            && Authorised(ys, ats, auths) && Claimed(ys, auths, log[e := []])
  {
    hide OwnAttempt, Unreleased;
    assert e !in auths;
  }

  /** An execution is claimed again only after its first attempt's authority passed the whole cleanup. */
  ghost predicate CleanedUpFor(claims: ClaimLog, phases: PhaseLog, e: ExecutionId)
  {
    e in claims && (claims[e] != [] ==>
      e in phases && |phases[e]| >= 7 && phases[e][|phases[e]| - 7..] == CLEANUP_CHAIN)
  }

  lemma EarlierClaimWasCleanedUp(xs: Executions, auths: Authorities, claims: ClaimLog, phases: PhaseLog, e: ExecutionId)
    requires Claimed(xs, auths, claims) && Logged(auths, phases)
    requires e in xs && (xs[e].state.Queued? || |claims[e]| == 2)
    requires e in auths ==> auths[e].phase.Resolved?
    ensures CleanedUpFor(claims, phases, e)
  {
    assert ClaimsOf(xs[e], Find(auths, e), claims[e]);
    if claims[e] != [] {
      ResolvedPassedWholeChain(phases[e]);
    }
  }

  /** None of the rows can be hosted. */
  ghost predicate NonePlaced(xs: Executions, rows: seq<ExecutionId>, worker: Worker, used: Reserved)
  {
    forall d | d in rows :: d in xs && Prevented(worker, xs[d].requirement, used)
  }

  lemma UnreadyHostsNothing(xs: Executions, rows: seq<ExecutionId>, worker: Worker, used: Reserved)
    requires forall d | d in rows :: d in xs
    requires !worker.state.Ready? || !worker.proofComplete || used.slots >= worker.maxConcurrent
    ensures NonePlaced(xs, rows, worker, used)
  {
    forall d | d in rows
      ensures Prevented(worker, xs[d].requirement, used)
    {
      assert Prevents(NotReady, worker, xs[d].requirement, used) || Prevents(Unproven, worker, xs[d].requirement, used)
        || Prevents(Full, worker, xs[d].requirement, used);
    }
  }

  predicate TooLarge(req: Requirement)
  {
    req.cpu > I32_MAX || req.memoryMib > I64_MAX || req.diskGib > I64_MAX
  }

  lemma ClaimStaysWithin(xs: Executions, rows: Reservations, worker: Worker, e: ExecutionId, r: Reservation)
    requires e in xs && e !in rows
    requires r == ReservationFor(xs[e], r.worker, r.attempt)
    requires FitsWith(worker, xs[e].requirement, Used(rows, r.worker))
    ensures Within(Used(rows[e := r], r.worker), worker.(running := worker.running + 1)) <==>
      NotOvercommitted(worker, xs[e].requirement, Used(rows, r.worker))
    ensures ValidRuntime(xs[e].requirement) ==> NotOvercommitted(worker, xs[e].requirement, Used(rows, r.worker))
  {
    UsedAfterInsert(rows, e, r, r.worker);
    FittingStaysWithin(worker, xs[e].requirement, Used(rows, r.worker));
  }

  function ReservationFor(x: Execution, w: WorkerId, a: AttemptId): Reservation
  {
    Reservation(w, a, x.requirement.cpu, x.requirement.memoryMib, x.requirement.diskGib)
  }

  /** `used` is the sum over the rows of `w` that are no longer in `todo`. */
  ghost predicate SummedUp(rows: Reservations, w: WorkerId, todo: set<ExecutionId>, used: Reserved)
  {
    todo <= RowsOf(rows, w) && used == Load(RowsOf(rows, w) - todo, rows)
  }

  lemma SumStarts(rows: Reservations, w: WorkerId)
    ensures SummedUp(rows, w, RowsOf(rows, w), Reserved(0, 0, 0, 0))
  {
    assert RowsOf(rows, w) - RowsOf(rows, w) == {};
  }

  lemma SumGrows(rows: Reservations, w: WorkerId, todo: set<ExecutionId>, used: Reserved, e: ExecutionId)
    requires SummedUp(rows, w, todo, used) && e in todo
    ensures e in rows && SummedUp(rows, w, todo - {e}, AddRow(used, rows[e]))
  {
    hide Load;
    var done := RowsOf(rows, w) - (todo - {e});
    LoadPick(done, rows, e);
    assert done - {e} == RowsOf(rows, w) - todo;
  }

  lemma SumEnds(rows: Reservations, w: WorkerId, used: Reserved)
    requires SummedUp(rows, w, {}, used)
    ensures used == Used(rows, w)
  {
    assert RowsOf(rows, w) - {} == RowsOf(rows, w);
  }

  /** The aggregate query over one worker's reservations. */
  method QueryUsage(rows: Reservations, w: WorkerId) returns (used: Reserved)
    ensures used == Used(rows, w)
  {
    hide SummedUp, RowsOf, Used, AddRow;
    var todo := RowsOf(rows, w);
    used := Reserved(0, 0, 0, 0);
    SumStarts(rows, w);
    while todo != {}
      invariant SummedUp(rows, w, todo, used)
      decreases todo
    {
      var e :| e in todo;
      SumGrows(rows, w, todo, used, e);
      used := AddRow(used, rows[e]);
      todo := todo - {e};
    }
    SumEnds(rows, w, used);
  }

  /** Exactly the recovered executions were fenced, each for its own reservation. */
  predicate Fenced(was: Authorities, now: Authorities, rows: Reservations, recovered: set<ExecutionId>)
  {
    && now.Keys == was.Keys + recovered && recovered <= rows.Keys
    && (forall e | e in now ::
          now[e] == if e in recovered then FencedAuthority(Find(was, e), rows[e].attempt, rows[e].worker) else was[e])
  }

  lemma FencedOneMore(was: Authorities, now: Authorities, rows: Reservations, recovered: set<ExecutionId>, e: ExecutionId)
    requires Fenced(was, now, rows, recovered) && e in rows && e !in recovered
    ensures Fenced(was, now[e := FencedAuthority(Find(now, e), rows[e].attempt, rows[e].worker)], rows, recovered + {e})
  {
    hide FencedAuthority;
    assert Find(now, e) == Find(was, e);
  }

  lemma AdvancesOn(a: Authorities, b: Authorities, c: Authorities)
    requires Advances(a, b) && Advances(b, c)
    ensures Advances(a, c)
  {
  }

  /** Reserved attempts exist, and different reservations have different attempts. */
  lemma ReservedAttempts(xs: Executions, rows: Reservations, ats: Attempts)
    requires ReservationsLinked(xs, rows) && ExecutionsLinked(xs, ats)
    ensures forall e | e in rows :: rows[e].attempt in ats && ats[rows[e].attempt].execution == e
    ensures forall d, e | d in rows && e in rows && rows[d].attempt == rows[e].attempt :: d == e
  {
  }

  lemma AdvancesNowhere(a: Authorities)
    ensures Advances(a, a)
  {
  }

  lemma WorkerWriteLinks(xs: Executions, ats: Attempts, workers: Workers, w: WorkerId, row: Worker)
    requires AttemptsLinked(xs, ats, workers)
    ensures AttemptsLinked(xs, ats, workers[w := row])
  {
  }

  lemma QueuedIsUnassigned(xs: Executions, ats: Attempts, e: ExecutionId)
    requires ExecutionsLinked(xs, ats) && e in xs
    ensures xs[e].state.Queued? ==> xs[e].attempt.None? && xs[e].worker.None?
  {
  }

  /** The attempt an execution names is its own. */
  lemma NamedAttempt(xs: Executions, ats: Attempts, e: ExecutionId)
    requires ExecutionsLinked(xs, ats) && e in xs && xs[e].attempt.Some?
    ensures xs[e].worker.Some? && OwnAttempt(ats, xs[e].attempt.value, e, xs[e].worker.value)
  {
  }

  lemma InsertAdds(xs: Executions, auths: Authorities, claims: ClaimLog, e: ExecutionId)
    requires Claimed(xs, auths, claims)
    ensures e in claims <==> e in xs
  {
  }

  lemma CountersAreCounts(rows: Reservations, workers: Workers)
    requires Conserved(rows, workers)
    ensures forall w | w in workers :: workers[w].running == |RowsOf(rows, w)|
  {
  }

  /**
    One owner at a time, over the whole history: at most one attempt of an execution
    is unfinished; a reservation belongs to the latest claim; and a second claim was
    made only after the authority of the first had gone through the whole cleanup.
   */
  ghost predicate SingleOwner(xs: Executions, rows: Reservations, ats: Attempts,
                              auths: Authorities, claims: ClaimLog, phases: PhaseLog)
  {
    && (forall a, b | a in ats && b in ats && !ats[a].finished && !ats[b].finished ::
          ats[a].execution == ats[b].execution ==> a == b)
    && (forall e | e in rows :: e in claims && claims[e] != [] && rows[e].attempt == claims[e][|claims[e]| - 1])
    && (forall e | e in claims && |claims[e]| > 1 ::
          && |claims[e]| == 2 && e in auths && auths[e].attempt == claims[e][0]
          && CleanedUpFor(claims, phases, e))
  }

  lemma InvMeansSingleOwner(xs: Executions, rows: Reservations, ats: Attempts, workers: Workers,
                            auths: Authorities, claims: ClaimLog, phases: PhaseLog)
    requires ReservationsLinked(xs, rows) && AttemptsLinked(xs, ats, workers)
    requires Claimed(xs, auths, claims) && Logged(auths, phases)
    ensures SingleOwner(xs, rows, ats, auths, claims, phases)
  {
    hide Logged, CleanedUpFor;
    forall e | e in claims
      ensures ClaimsOf(xs[e], Find(auths, e), claims[e])
      ensures |claims[e]| > 1 ==> CleanedUpFor(claims, phases, e)
    {
      if |claims[e]| > 1 {
        EarlierClaimWasCleanedUp(xs, auths, claims, phases, e);
      }
    }
  }

  // ------------------------------------------------------------------------- tables

  class Database {
    var executions: Executions
    var reservations: Reservations
    var attempts: Attempts
    var authorities: Authorities
    var workers: Workers
    var cancellations: map<ExecutionId, bool>  // requested; true once completed
    var events: map<ExecutionId, seq<ExecutionState>>

    // History: the attempts that claimed each execution, and the phases its authority went through.
    ghost var claims: ClaimLog
    ghost var phases: PhaseLog

    constructor ()
      ensures Inv() && executions == map[] && workers == map[] && reservations == map[] && attempts == map[]
      ensures authorities == map[] && cancellations == map[] && events == map[]
    {
      executions, reservations, attempts, authorities, workers := map[], map[], map[], map[], map[];
      cancellations, events, claims, phases := map[], map[], map[], map[];
    }

    ghost predicate Inv()
      reads `executions, `reservations, `attempts, `authorities, `workers, `claims, `phases
    {
      && Conserved(reservations, workers)
      && ReservationsLinked(executions, reservations)
      && ExecutionsLinked(executions, attempts)
      && AttemptsLinked(executions, attempts, workers)
      && Authorised(executions, attempts, authorities)
      && Claimed(executions, authorities, claims)
      && Logged(authorities, phases)
    }

    // --------------------------------------------------------------- single-row updates

    /** `DELETE FROM reservations ..` with the worker's `GREATEST(running_executions - 1, 0)`. */
    method DeleteReservation(e: ExecutionId)
      requires Inv() && e in reservations
      modifies `reservations, `workers
      ensures Inv()
      ensures reservations == old(reservations) - {e}
      ensures var w := old(reservations)[e].worker;
              && w in old(workers) && old(workers)[w].running > 0
              && workers == old(workers)[w := old(workers)[w].(running := old(workers)[w].running - 1)]
    {
      hide Conserved, ReservationsLinked, ExecutionsLinked, AttemptsLinked, Authorised, Claimed, Logged;
      DeleteConserves(reservations, workers, e);
      var w := reservations[e].worker;
      var row := workers[w].(running := SaturatingSub(workers[w].running, 1));
      WorkerRowKeeps(executions, reservations, attempts, workers, w, row, e);
      reservations := reservations - {e};
      workers := workers[w := row];
    }

    /** Move an authority forward, recording the change. */
    method SetPhase(e: ExecutionId, phase: C.Disposition)
      requires Inv() && e in authorities
      requires phase == authorities[e].phase || MayMove(authorities[e].phase, phase)
      modifies `authorities, `phases
      ensures Inv() && Advances(old(authorities), authorities)
      ensures authorities == old(authorities)[e := old(authorities)[e].(phase := phase)]
    {
      hide Conserved, ReservationsLinked, ExecutionsLinked, AttemptsLinked, Authorised, Claimed, Logged;
      hide C.Rank;
      if phase != authorities[e].phase {
        AuthorityFacts(executions, attempts, authorities, e);
        PhaseKeeps(executions, attempts, authorities, claims, phases, e, phase);
        phases := phases[e := phases[e] + [phase]];
        authorities := authorities[e := authorities[e].(phase := phase)];
      }
      assert authorities == old(authorities)[e := old(authorities)[e].(phase := phase)];
    }

    method SetState(e: ExecutionId, next: ExecutionState)
      requires Inv() && e in executions && (next.Queued? ==> executions[e].state.Queued?)
      modifies `executions
      ensures Inv()
      ensures executions == old(executions)[e := old(executions)[e].(state := next)]
    {
      hide Conserved, ReservationsLinked, ExecutionsLinked, AttemptsLinked, Authorised, Claimed, Logged;
      StateChangeKeeps(executions, reservations, attempts, workers, authorities, claims, e, next);
      executions := executions[e := executions[e].(state := next)];
    }

    method Finish(a: AttemptId)
      requires Inv() && a in attempts
      modifies `attempts
      ensures Inv()
      ensures attempts == old(attempts)[a := old(attempts)[a].(finished := true)]
    {
      hide Conserved, ReservationsLinked, ExecutionsLinked, AttemptsLinked, Authorised, Claimed, Logged;
      FinishKeeps(executions, attempts, workers, authorities, a);
      attempts := attempts[a := attempts[a].(finished := true)];
    }

    method AddAuthority(e: ExecutionId, b: Authority)
      requires Inv() && e in executions && e !in authorities
      requires executions[e].attempt == Some(b.attempt) && executions[e].worker == Some(b.worker)
      requires C.Rank(b.phase) <= C.Rank(C.CleanupPending)
      modifies `authorities, `phases
      ensures Inv() && Advances(old(authorities), authorities)
      ensures authorities == old(authorities)[e := b]
    {
      hide Conserved, ReservationsLinked, ExecutionsLinked, AttemptsLinked, Authorised, Claimed, Logged;
      hide C.Rank;
      NewAuthorityKeeps(executions, attempts, authorities, claims, phases, e, b);
      authorities := authorities[e := b];
      phases := phases[e := [b.phase]];
    }

    function EventsOf(e: ExecutionId): seq<ExecutionState>
      reads `events
    {
      if e in events then events[e] else []
    }

    method AppendEvent(e: ExecutionId, state: ExecutionState)
      modifies `events
      ensures events == old(events)[e := old(EventsOf(e)) + [state]]
    {
      events := events[e := EventsOf(e) + [state]];
    }

    // -------------------------------------------------------------------------- claims

    predicate CancellationPending(e: ExecutionId)
      reads `cancellations
    {
      Pending(cancellations, e)
    }

    /** The `WHERE` clause of the claim query. */
    predicate Claimable(e: ExecutionId)
      reads `executions, `authorities, `cancellations
    {
      && e in executions && executions[e].state.Queued?
      && !CancellationPending(e)
      && (e in authorities ==> authorities[e].phase.Resolved?)
    }

    predicate Before(d: ExecutionId, e: ExecutionId)
      requires d in executions && e in executions
      reads `executions
    {
      executions[d].createdAt < executions[e].createdAt
      || (executions[d].createdAt == executions[e].createdAt && d < e)
    }

    /** The order is total, so that any rows can be listed in it. */
    lemma OrderIsTotal(d: ExecutionId, e: ExecutionId)
      requires d in executions && e in executions
      ensures d != e ==> (Before(d, e) <==> !Before(e, d))
      ensures !Before(e, e)
    {
    }

    /** Claimable rows that no other transaction has locked, in `ORDER BY created_at, id`. */
    predicate IsQueryResult(rows: seq<ExecutionId>)
      reads `executions, `authorities, `cancellations
    {
      && (forall i | 0 <= i < |rows| :: Claimable(rows[i]))
      && (forall i, j | 0 <= i < j < |rows| :: Before(rows[i], rows[j]))
    }

    /** Whatever row was created earlier than one of the rows stands before it. */
    lemma EarlierComesFirst(rows: seq<ExecutionId>, k: nat)
      requires IsQueryResult(rows) && k < |rows|
      ensures forall d | d in rows && executions[d].createdAt <= executions[rows[k]].createdAt
                         && (executions[d].createdAt == executions[rows[k]].createdAt ==> d < rows[k]) :: d in rows[..k]
    {
      forall i | k <= i < |rows|
        ensures executions[rows[i]].createdAt > executions[rows[k]].createdAt
                || (executions[rows[i]].createdAt == executions[rows[k]].createdAt && rows[i] >= rows[k])
      {
        assert i > k ==> Before(rows[k], rows[i]);
      }
      assert rows == rows[..k] + rows[k..];
    }

    twostate predicate Untouched()
      reads this
    {
      && executions == old(executions) && reservations == old(reservations) && attempts == old(attempts)
      && authorities == old(authorities) && workers == old(workers) && cancellations == old(cancellations)
      && events == old(events) && claims == old(claims) && phases == old(phases)
    }

    /** The claim loop: the first row that fits, or the number of rows. */
    method FirstFit(worker: Worker, rows: seq<ExecutionId>, used: Reserved) returns (k: nat)
      requires forall i | 0 <= i < |rows| :: rows[i] in executions
      ensures k <= |rows| && NonePlaced(executions, rows[..k], worker, used)
      ensures k < |rows| ==> FitsWith(worker, executions[rows[k]].requirement, used)
    {
      hide FitsWith, Prevented;
      k := 0;
      while k < |rows| && !FitsWith(worker, executions[rows[k]].requirement, used)
        invariant k <= |rows|
        invariant NonePlaced(executions, rows[..k], worker, used)
      {
        FitsExactly(worker, executions[rows[k]].requirement, used);
        assert rows[..k + 1] == rows[..k] + [rows[k]];
        k := k + 1;
      }
    }

    /** The writes of a claim: reservation, execution, attempt and worker counter. */
    method CommitClaim(e: ExecutionId, w: WorkerId, newAttempt: AttemptId)
      requires Inv() && Claimable(e) && w in workers && newAttempt !in attempts
      modifies `executions, `reservations, `attempts, `workers, `claims
      ensures Inv() && e !in old(reservations) && e in old(claims)
      ensures reservations == old(reservations)[e := ReservationFor(old(executions)[e], w, newAttempt)]
      ensures executions == old(executions)[e := AssignedTo(old(executions)[e], w, newAttempt)]
      ensures attempts == old(attempts)[newAttempt := Attempt(e, w, false)]
      ensures workers == old(workers)[w := old(workers)[w].(running := old(workers)[w].running + 1)]
      ensures claims == old(claims)[e := old(claims)[e] + [newAttempt]]
    {
      hide Conserved, ReservationsLinked, ExecutionsLinked, AttemptsLinked, Authorised, Claimed, Logged;
      var row := ReservationFor(executions[e], w, newAttempt);
      ClaimKeeps(executions, reservations, attempts, workers, authorities, claims, e, newAttempt, row);
      InsertConserves(reservations, workers, e, row);
      reservations := reservations[e := row];
      executions := executions[e := AssignedTo(executions[e], w, newAttempt)];
      attempts := attempts[newAttempt := Attempt(e, w, false)];
      claims := claims[e := claims[e] + [newAttempt]];
      var counted := workers[w].(running := workers[w].running + 1);
      WorkerRowKeeps(executions, reservations, attempts, workers, w, counted, e);
      workers := workers[w := counted];
    }

    /**
      `reserve_next`: the earliest visible row that fits is claimed, and the claim
      leaves the worker within its advertised limits, whatever they were changed to.
     */
    method ReserveNext(w: WorkerId, rows: seq<ExecutionId>, newAttempt: AttemptId)
      returns (r: Result<Option<ExecutionId>, StoreError>)
      requires Inv() && IsQueryResult(rows) && newAttempt !in attempts
      modifies `executions, `reservations, `attempts, `workers, `claims
      ensures Inv()
      ensures r.Failure? || r.value.None? ==> Untouched()
      ensures r == Failure(NotFound) <==> w !in old(workers)
      ensures r.Failure? && w in old(workers) ==>
        var used := old(Used(reservations, w));
        && r.error.Conflict?
        && (used.slots > 0xFFFF_FFFF || used.cpu > 0xFFFF_FFFF
            || exists d | d in rows && d in executions ::
                 var x := executions[d].requirement;
                 && (x.cpu > 0x7FFF_FFFF || x.memoryMib > 0x7FFF_FFFF_FFFF_FFFF || x.diskGib > 0x7FFF_FFFF_FFFF_FFFF)
                 && !Prevented(workers[w], x, used))
      ensures r.Success? ==> old(Used(reservations, w)).slots <= 0xFFFF_FFFF && old(Used(reservations, w)).cpu <= 0xFFFF_FFFF
      ensures r.Success? ==> w in old(workers) && w in workers
      ensures r.Success? && r.value.None? ==>
        forall d | d in rows :: d in executions && Prevented(workers[w], executions[d].requirement, Used(reservations, w))
      ensures r.Success? && r.value.Some? ==>
        var e := r.value.value;
        && e in rows && e in old(executions)
        && !Prevented(old(workers)[w], old(executions)[e].requirement, old(Used(reservations, w)))
        && (forall d | d in rows && d in old(executions) && old(executions)[d].createdAt <= old(executions)[e].createdAt
                       && (old(executions)[d].createdAt == old(executions)[e].createdAt ==> d < e) ::
              Prevented(old(workers)[w], old(executions)[d].requirement, old(Used(reservations, w))))
      ensures r.Success? && r.value.Some? ==>
        var e := r.value.value;
        var x := old(executions)[e];
        && e !in old(reservations) && CleanedUpFor(old(claims), phases, e)
        && x.state == Queued && !(e in old(cancellations) && !old(cancellations)[e])
        && (e in old(authorities) ==> old(authorities)[e].phase == C.Resolved)
        && x.requirement.cpu <= 0x7FFF_FFFF && x.requirement.memoryMib <= 0x7FFF_FFFF_FFFF_FFFF
        && x.requirement.diskGib <= 0x7FFF_FFFF_FFFF_FFFF
      ensures r.Success? && r.value.Some? ==>
        var e := r.value.value;
        var x := old(executions)[e];
        && reservations == old(reservations)[e := Reservation(w, newAttempt, x.requirement.cpu, x.requirement.memoryMib, x.requirement.diskGib)]
        && (Within(Used(reservations, w), workers[w]) <==>
              NotOvercommitted(old(workers)[w], old(executions)[e].requirement, old(Used(reservations, w))))
        && (ValidRuntime(old(executions)[e].requirement) ==> Within(Used(reservations, w), workers[w]))
        && executions == old(executions)[e := x.(state := WorkerAssigned, worker := Some(w), attempt := Some(newAttempt))]
        && attempts == old(attempts)[newAttempt := Attempt(e, w, false)]
        && workers == old(workers)[w := old(workers)[w].(running := old(workers)[w].running + 1)]
        && claims == old(claims)[e := old(claims)[e] + [newAttempt]]
    {
      hide Conserved, ReservationsLinked, ExecutionsLinked, AttemptsLinked, Authorised, Claimed, Logged;
      hide FitsWith, Load, Within, NotOvercommitted, ValidRuntime, CleanedUpFor, Used, Prevented;
      if w !in workers { return Failure(NotFound); }
      var worker := workers[w];
      var used := QueryUsage(reservations, w);
      if used.slots > U32_MAX || used.cpu > U32_MAX { return Failure(Conflict); }
      if !worker.state.Ready? || !worker.proofComplete || used.slots >= worker.maxConcurrent {
        UnreadyHostsNothing(executions, rows, worker, used);
        return Success(None);
      }
      var k := FirstFit(worker, rows, used);
      if k == |rows| {
        assert rows[..k] == rows;
        return Success(None);
      }
      var e := rows[k];
      FitsExactly(worker, executions[e].requirement, used);
      if TooLarge(executions[e].requirement) { return Failure(Conflict); }
      EarlierComesFirst(rows, k);
      EarlierClaimWasCleanedUp(executions, authorities, claims, phases, e);
      CommitClaim(e, w, newAttempt);
      ClaimStaysWithin(old(executions), old(reservations), worker, e, reservations[e]);
      return Success(Some(e));
    }

    // ------------------------------------------------------------------------ releases

    method Release(e: ExecutionId)
      requires Inv()
      modifies `reservations, `workers
      ensures Inv() && reservations == old(reservations) - {e}
      ensures workers == WithoutSlot(old(workers), old(reservations), e)
    {
      hide Conserved, ReservationsLinked, ExecutionsLinked, AttemptsLinked, Authorised, Claimed, Logged;
      if e in reservations {
        DeleteReservation(e);
      }
    }

    method ReleaseAttempt(e: ExecutionId, a: AttemptId) returns (released: bool)
      requires Inv()
      modifies `reservations, `workers
      ensures Inv() && released == (e in old(reservations) && old(reservations)[e].attempt == a)
      ensures if released then
                reservations == old(reservations) - {e} && workers == WithoutSlot(old(workers), old(reservations), e)
              else reservations == old(reservations) && workers == old(workers)
    {
      hide Conserved, ReservationsLinked, ExecutionsLinked, AttemptsLinked, Authorised, Claimed, Logged;
      released := e in reservations && reservations[e].attempt == a;
      if released {
        DeleteReservation(e);
      }
    }

    /** The guard of `commit_retained_and_release_capacity`. */
    predicate MayRetain(e: ExecutionId, a: AttemptId)
      reads `executions, `authorities, `reservations, `cancellations
    {
      && e in executions && !CancellationPending(e)
      && executions[e].state.ReviewReady? && executions[e].resumable && executions[e].attempt == Some(a)
      && e in authorities && authorities[e].attempt == a
      && (authorities[e].phase.Retained? || (authorities[e].phase.RetainRequested? && e in reservations))
    }

    /** `commit_retained_and_release_capacity` */
    method CommitRetained(e: ExecutionId, a: AttemptId) returns (r: Result<(), StoreError>)
      requires Inv()
      modifies `reservations, `workers, `authorities, `phases
      ensures Inv() && Advances(old(authorities), authorities)
      ensures r.Failure? ==> Untouched()
      ensures r.Success? <==> old(MayRetain(e, a))
      ensures r.Success? ==>
        && authorities == old(authorities)[e := old(authorities)[e].(phase := C.Retained)]
        && reservations == old(reservations) - {e} && workers == WithoutSlot(old(workers), old(reservations), e)
    {
      hide Conserved, ReservationsLinked, ExecutionsLinked, AttemptsLinked, Authorised, Claimed, Logged;
      if e !in executions { return Failure(NotFound); }
      var x := executions[e];
      if CancellationPending(e) || !x.state.ReviewReady? || !x.resumable || x.attempt != Some(a) { return Failure(Conflict); }
      if e !in authorities || authorities[e].attempt != a { return Failure(NotFound); }
      var phase := authorities[e].phase;
      if !phase.RetainRequested? && !phase.Retained? { return Failure(Conflict); }
      if phase.RetainRequested? && e !in reservations { return Failure(Conflict); }
      Release(e);
      SetPhase(e, C.Retained);
      return Success(());
    }

    // ------------------------------------------------------------------------- fencing

    /** `INSERT INTO cleanup_authorities .. ON CONFLICT .. SET phase = 'CLEANUP_PENDING'` */
    method FenceAuthority(e: ExecutionId)
      requires Inv() && e in reservations
      modifies `authorities, `phases
      ensures Inv() && Advances(old(authorities), authorities)
      ensures var row := reservations[e];
              authorities == old(authorities)[e := FencedAuthority(old(Find(authorities, e)), row.attempt, row.worker)]
    {
      hide Conserved, ReservationsLinked, ExecutionsLinked, AttemptsLinked, Authorised, Claimed, Logged;
      var row := reservations[e];
      ReservationFacts(executions, reservations, attempts, e);
      if e !in authorities {
        AddAuthority(e, Authority(row.attempt, row.worker, C.CleanupPending));
      } else if authorities[e].attempt == row.attempt && authorities[e].worker == row.worker
                && C.Rank(authorities[e].phase) <= C.Rank(C.CleanupPending) {
        SetPhase(e, C.CleanupPending);
      }
      assert authorities == old(authorities)[e := FencedAuthority(old(Find(authorities, e)), row.attempt, row.worker)];
    }

    method FenceLostAttempt(e: ExecutionId, a: AttemptId) returns (r: Result<Recovery, StoreError>)
      requires Inv()
      modifies `attempts, `authorities, `phases
      ensures Inv() && Advances(old(authorities), authorities)
      ensures r.Failure? ==> Untouched()
      ensures r.Success? <==>
        && e in reservations && reservations[e].attempt == a && a in old(attempts)
        && (old(attempts)[a].finished ==>
              && e in old(authorities)
              && (old(authorities)[e].attempt, old(authorities)[e].worker) == (a, reservations[e].worker)
              && old(authorities)[e].phase in {C.CleanupPending, C.RuntimeStopped, C.RuntimeDestroyed, C.GitRecoveredCleaned,
                                               C.StorageReleased, C.ReservationReleased, C.Resolved})
      ensures r.Success? ==>
        && r.value.RecoveryPending?
        && e in reservations && reservations[e].attempt == a && a in attempts && attempts[a].finished
        && attempts == old(attempts)[a := attempts[a]]
      ensures r.Success? && !old(attempts)[a].finished ==>
        authorities == old(authorities)[e := FencedAuthority(old(Find(authorities, e)), a, reservations[e].worker)]
      ensures r.Success? && old(attempts)[a].finished ==>
        && authorities == old(authorities) && e in authorities
        && authorities[e].attempt == a && C.Rank(authorities[e].phase) >= C.Rank(C.CleanupPending)
    {
      hide Conserved, ReservationsLinked, ExecutionsLinked, AttemptsLinked, Authorised, Claimed, Logged;
      hide FencedAuthority, Find;
      if e !in reservations || reservations[e].attempt != a { return Failure(Conflict); }
      ReservationFacts(executions, reservations, attempts, e);
      if attempts[a].finished {
        if e !in authorities || authorities[e].attempt != a || authorities[e].worker != reservations[e].worker
           || C.Rank(authorities[e].phase) < C.Rank(C.CleanupPending) {
          return Failure(Conflict);
        }
        assert attempts == attempts[a := attempts[a]];
        return Success(RecoveryPending);
      }
      Finish(a);
      FenceAuthority(e);
      return Success(RecoveryPending);
    }

    /** One row of `recover_unreachable`: nothing if the attempt was fenced before. */
    method FenceRow(e: ExecutionId) returns (pending: bool)
      requires Inv() && e in reservations && reservations[e].attempt in attempts
      modifies `attempts, `authorities, `phases
      ensures Inv() && Advances(old(authorities), authorities)
      ensures var row := reservations[e];
              && pending == !old(attempts)[row.attempt].finished
              && attempts == old(attempts)[row.attempt := old(attempts)[row.attempt].(finished := true)]
              && authorities ==
                 if !pending then old(authorities)
                 else old(authorities)[e := FencedAuthority(old(Find(authorities, e)), row.attempt, row.worker)]
    {
      hide Conserved, ReservationsLinked, ExecutionsLinked, AttemptsLinked, Authorised, Claimed, Logged;
      hide FencedAuthority, Find, C.Rank;
      var a := reservations[e].attempt;
      pending := !attempts[a].finished;
      if pending {
        Finish(a);
        FenceAuthority(e);
      }
      assert attempts == old(attempts)[a := old(attempts)[a].(finished := true)];
    }

    /**
      `recover_unreachable`: afterwards no reservation of the worker has an unfinished
      attempt, and exactly the executions that had one are reported and fenced.
     */
    method RecoverUnreachable(w: WorkerId) returns (r: Result<set<ExecutionId>, StoreError>)
      requires Inv()
      modifies `attempts, `authorities, `phases
      ensures Inv() && Advances(old(authorities), authorities)
      ensures r.Failure? ==> Untouched()
      ensures r.Success? <==> w in workers && workers[w].state.Unreachable?
      ensures r.Success? ==>
        && (forall e :: e in r.value <==>
              && e in RowsOf(reservations, w) && reservations[e].attempt in old(attempts)
              && !old(attempts)[reservations[e].attempt].finished)
        && (forall e | e in RowsOf(reservations, w) ::
              reservations[e].attempt in attempts && attempts[reservations[e].attempt].finished)
        && Fenced(old(authorities), authorities, reservations, r.value)
    {
      hide Conserved, ReservationsLinked, ExecutionsLinked, AttemptsLinked, Authorised, Claimed, Logged;
      if w !in workers { return Failure(NotFound); }
      if !workers[w].state.Unreachable? { return Failure(Conflict); }
      ReservedAttempts(executions, reservations, attempts);
      var rows, recovered := RowsOf(reservations, w), {};
      assert Fenced(authorities, authorities, reservations, {});
      while rows != {}
        invariant Inv() && Advances(old(authorities), authorities)
        invariant rows <= RowsOf(reservations, w) && attempts.Keys == old(attempts).Keys
        invariant forall e | e in reservations :: reservations[e].attempt in attempts
        invariant forall e | e in reservations ::
          var a := reservations[e].attempt;
          attempts[a].finished == (old(attempts)[a].finished || e in RowsOf(reservations, w) - rows)
        invariant forall e :: e in recovered <==>
          e in RowsOf(reservations, w) - rows && !old(attempts)[reservations[e].attempt].finished
        invariant Fenced(old(authorities), authorities, reservations, recovered)
        decreases rows
      {
        hide Inv, Advances, Fenced, FencedAuthority, Find, C.Rank;
        var e :| e in rows;
        ghost var before := authorities;
        var pending := FenceRow(e);
        AdvancesOn(old(authorities), before, authorities);
        if pending {
          FencedOneMore(old(authorities), before, reservations, recovered, e);
          recovered := recovered + {e};
        }
        rows := rows - {e};
      }
      return Success(recovered);
    }

    // -------------------------------------------------------------------- finalization

    /** What `finalize_cleanup` does to the tables when it succeeds. */
    twostate predicate Finalized(e: ExecutionId, a: AttemptId)
      reads this
    {
      && e in old(executions) && e in old(authorities) && a in old(attempts)
      && cancellations == old(cancellations) && claims == old(claims)
      && authorities == old(authorities)[e := old(authorities)[e].(phase := C.ReservationReleased)]
      && if old(authorities)[e].phase.ReservationReleased? then Untouched()
         else
           var x := old(executions)[e];
           var next := FinalState(x, old(CancellationPending(e)));
           && executions == old(executions)[e := x.(state := next, worker := None, attempt := None)]
           && attempts == old(attempts)[a := old(attempts)[a].(finished := true)]
           && reservations == old(reservations) - {e}
           && workers == WithoutSlot(old(workers), old(reservations), e)
           && events == if next == x.state then old(events) else old(events)[e := old(EventsOf(e)) + [next]]
    }

    /** The guard of `finalize_cleanup`. */
    predicate MayFinalize(e: ExecutionId, a: AttemptId)
      reads `executions, `authorities, `attempts, `reservations
    {
      && e in executions && e in authorities && authorities[e].attempt == a && a in attempts
      && (authorities[e].phase.ReservationReleased?
          || (authorities[e].phase.StorageReleased?
              && (e in reservations || attempts[a].finished || executions[e].state.ReviewReady? || executions[e].state.IsTerminal())))
    }

    predicate AwaitsFinalization(e: ExecutionId)
      reads `authorities
    {
      e in authorities && authorities[e].phase.StorageReleased?
    }

    /** The writes of a finalization, in an order that keeps the tables linked throughout. */
    method CommitFinalization(e: ExecutionId, a: AttemptId, next: ExecutionState)
      requires Inv() && MayFinalize(e, a) && authorities[e].phase.StorageReleased?
      modifies `executions, `reservations, `attempts, `workers, `authorities, `phases
      ensures Inv() && Advances(old(authorities), authorities)
      ensures workers == WithoutSlot(old(workers), old(reservations), e)
      ensures authorities == old(authorities)[e := old(authorities)[e].(phase := C.ReservationReleased)]
      ensures executions == old(executions)[e := old(executions)[e].(state := next, worker := None, attempt := None)]
      ensures attempts == old(attempts)[a := old(attempts)[a].(finished := true)]
      ensures reservations == old(reservations) - {e}
      ensures !old(executions)[e].state.Queued?
    {
      hide Conserved, ReservationsLinked, ExecutionsLinked, AttemptsLinked, Authorised, Claimed, Logged;
      StorageReleasedIsAttached(executions, attempts, authorities, e);
      SetPhase(e, C.ReservationReleased);
      Finish(a);
      Release(e);
      DetachKeeps(executions, reservations, attempts, workers, authorities, claims, e, next);
      executions := executions[e := executions[e].(state := next, worker := None, attempt := None)];
    }

    /**
      `finalize_cleanup` succeeds exactly under its guard. Its answer describes the
      execution as it is left as well as it was found, and says Requeued exactly when
      the execution was queued again unless a cancellation is pending.
     */
    method FinalizeCleanup(e: ExecutionId, a: AttemptId) returns (r: Result<Recovery, StoreError>)
      requires Inv()
      modifies `executions, `reservations, `attempts, `workers, `authorities, `phases, `events
      ensures Inv() && Advances(old(authorities), authorities)
      ensures r.Success? <==> old(MayFinalize(e, a))
      ensures r.Failure? ==> Untouched()
      ensures r.Success? ==>
        && Finalized(e, a) && e in executions
        && r.value == CleanupOutcome(old(executions)[e]) && r.value == CleanupOutcome(executions[e])
      ensures r.Success? ==>
        var x := old(executions)[e];
        && (r.value.RecoveredReviewReady? <==> x.state.ReviewReady?)
        && (r.value.Requeued? <==> x.resumable && !x.state.ReviewReady? && !x.state.Completed? && !x.state.Failed? && !x.state.Cancelled?)
        && !r.value.RecoveryPending?
      ensures r.Success? && old(AwaitsFinalization(e)) ==>
        var x, y := old(executions)[e], executions[e];
        && (y.state.Queued? <==> r.value.Requeued? && !CancellationPending(e))
        && (r.value.RecoveryFailed? && !x.state.IsTerminal() && !CancellationPending(e) ==> y.state.Failed?)
        && (x.state.IsTerminal() || x.state.ReviewReady? || CancellationPending(e) ==> y.state == x.state && events == old(events))
        && (y.state != x.state ==> events == old(events)[e := old(EventsOf(e)) + [y.state]])
        && (y.state.Completed? || y.state.Cancelled? ==> y.state == x.state)
    {
      hide Conserved, ReservationsLinked, ExecutionsLinked, AttemptsLinked, Authorised, Claimed, Logged;
      hide C.Rank;
      if e !in executions { return Failure(NotFound); }
      if e !in authorities || authorities[e].attempt != a
         || (!authorities[e].phase.StorageReleased? && !authorities[e].phase.ReservationReleased?) {
        return Failure(Conflict);
      }
      var x := executions[e];
      var outcome := CleanupOutcome(x);
      AuthorityFacts(executions, attempts, authorities, e);
      if authorities[e].phase.ReservationReleased? {
        assert authorities == authorities[e := authorities[e].(phase := C.ReservationReleased)];
        return Success(outcome);
      }
      if e !in reservations && !attempts[a].finished && !x.state.ReviewReady? && !x.state.IsTerminal() {
        return Failure(Conflict);
      }
      StorageReleasedIsAttached(executions, attempts, authorities, e);
      var next := FinalState(x, CancellationPending(e));
      OutcomeIsStable(x, CancellationPending(e));
      FinalStateMeans(x, CancellationPending(e));
      hide FinalState, CleanupOutcome;
      CommitFinalization(e, a, next);
      if next != x.state {
        AppendEvent(e, next);
      }
      return Success(outcome);
    }

    // ------------------------------------------------------------- cleanup authorities

    /** `begin`, for the attempt of the current reservation. */
    method Begin(e: ExecutionId) returns (r: Result<(), StoreError>)
      requires Inv() && e in reservations
      modifies `authorities, `phases
      ensures Inv() && Advances(old(authorities), authorities)
      ensures var row := reservations[e];
              && r.Success? == (e in old(authorities) ==>
                    old(authorities)[e].attempt == row.attempt && old(authorities)[e].worker == row.worker)
              && authorities == if e in old(authorities) then old(authorities)
                                else old(authorities)[e := Authority(row.attempt, row.worker, C.Active(C.Reserved))]
    {
      hide Conserved, ReservationsLinked, ExecutionsLinked, AttemptsLinked, Authorised, Claimed, Logged;
      var row := reservations[e];
      ReservationFacts(executions, reservations, attempts, e);
      if e !in authorities {
        AddAuthority(e, Authority(row.attempt, row.worker, C.Active(C.Reserved)));
        return Success(());
      }
      if authorities[e].attempt == row.attempt && authorities[e].worker == row.worker { return Success(()); }
      return Failure(Conflict);
    }

    /** `transition`: compare and set along the table of legal moves. */
    method Transition(e: ExecutionId, expected: C.Disposition, next: C.Disposition) returns (r: Result<(), StoreError>)
      requires Inv()
      modifies `authorities, `phases
      ensures Inv() && Advances(old(authorities), authorities)
      ensures r.Failure? ==> Untouched()
      ensures r.Success? <==>
        && (expected == next || C.CanTransition(expected, next))
        && e in old(authorities) && (old(authorities)[e].phase == expected || old(authorities)[e].phase == next)
      ensures r.Success? ==> authorities == old(authorities)[e := old(authorities)[e].(phase := next)]
    {
      hide Conserved, ReservationsLinked, ExecutionsLinked, AttemptsLinked, Authorised, Claimed, Logged;
      C.TransitionsAreSuccessors(expected, next);
      hide C.Rank, C.CanTransition;
      if expected != next && !C.CanTransition(expected, next) { return Failure(Conflict); }
      if e !in authorities { return Failure(NotFound); }
      if authorities[e].phase != expected && authorities[e].phase != next { return Failure(Conflict); }
      SetPhase(e, next);
      return Success(());
    }

    method FenceForCleanup(e: ExecutionId) returns (r: Result<(), StoreError>)
      requires Inv()
      modifies `authorities, `phases
      ensures Inv() && Advances(old(authorities), authorities)
      ensures r.Failure? ==> Untouched()
      ensures r.Success? <==>
        && e in old(authorities) && e in executions && old(authorities)[e].attempt in attempts
        && (attempts[old(authorities)[e].attempt].finished || executions[e].state.ReviewReady?
            || executions[e].state.IsTerminal() || CancellationPending(e))
        && C.Rank(old(authorities)[e].phase) <= C.Rank(C.CleanupPending)
      ensures r.Success? ==> authorities == old(authorities)[e := old(authorities)[e].(phase := C.CleanupPending)]
    {
      hide Conserved, ReservationsLinked, ExecutionsLinked, AttemptsLinked, Authorised, Claimed, Logged;
      hide C.Rank;
      if e !in authorities { return Failure(NotFound); }
      AuthorityFacts(executions, attempts, authorities, e);
      var x := executions[e];
      if !attempts[authorities[e].attempt].finished && !x.state.ReviewReady? && !x.state.IsTerminal() && !CancellationPending(e) {
        return Failure(Conflict);
      }
      if C.Rank(authorities[e].phase) > C.Rank(C.CleanupPending) { return Failure(Conflict); }
      C.TransitionsAreSuccessors(authorities[e].phase, C.CleanupPending);
      SetPhase(e, C.CleanupPending);
      return Success(());
    }

    method Resolve(e: ExecutionId) returns (r: Result<(), StoreError>)
      requires Inv()
      modifies `authorities, `phases
      ensures Inv() && Advances(old(authorities), authorities)
      ensures r.Failure? ==> Untouched()
      ensures r.Success? <==> e in old(authorities) && !Unreleased(old(authorities)[e].phase)
      ensures r.Success? ==> authorities == old(authorities)[e := old(authorities)[e].(phase := C.Resolved)]
    {
      hide Conserved, ReservationsLinked, ExecutionsLinked, AttemptsLinked, Authorised, Claimed, Logged;
      if e !in authorities { return Failure(NotFound); }
      if Unreleased(authorities[e].phase) { return Failure(Conflict); }
      SetPhase(e, C.Resolved);
      return Success(());
    }

    // ------------------------------------------------------------------------- workers

    /** `register`: an upsert that keeps the counter of a known worker. */
    method Register(w: WorkerId, row: Worker) returns (r: Result<(), StoreError>)
      requires Inv()
      modifies `workers
      ensures Inv()
      ensures r.Success? <==>
        && row.cpu > 0 && row.memoryMib >= 1024 && row.diskGib > 0 && 1 <= row.maxConcurrent <= 64
        && (row.state.Ready? ==> row.proofComplete)
      ensures workers == if r.Failure? then old(workers)
                         else old(workers)[w := row.(running := if w in old(workers) then old(workers)[w].running else 0)]
    {
      hide Conserved, ReservationsLinked, ExecutionsLinked, AttemptsLinked, Authorised, Claimed, Logged;
      if !ValidWorker(row) { return Failure(Conflict); }
      var written := row.(running := if w in workers then workers[w].running else 0);
      WorkerWriteConserves(reservations, workers, w, written);
      WorkerWriteLinks(executions, attempts, workers, w, written);
      workers := workers[w := written];
      return Success(());
    }

    method Heartbeat(w: WorkerId, row: Worker) returns (r: Result<(), StoreError>)
      requires Inv()
      modifies `workers
      ensures Inv()
      ensures r.Success? <==> ValidWorker(row) && w in old(workers)
      ensures workers == if r.Failure? then old(workers) else old(workers)[w := row.(running := old(workers)[w].running)]
    {
      hide Conserved, ReservationsLinked, ExecutionsLinked, AttemptsLinked, Authorised, Claimed, Logged;
      if !ValidWorker(row) { return Failure(Conflict); }
      if w !in workers { return Failure(NotFound); }
      r := Register(w, row);
    }

    /** `mark_stale_before`, for the workers whose last heartbeat is too old. */
    method MarkStale(stale: set<WorkerId>)
      requires Inv()
      modifies `workers
      ensures Inv() && workers.Keys == old(workers).Keys
      ensures forall w | w in workers ::
        workers[w] == if w in stale && (old(workers)[w].state.Ready? || old(workers)[w].state.Draining?)
                      then old(workers)[w].(state := Unreachable) else old(workers)[w]
    {
      hide Conserved, ReservationsLinked, ExecutionsLinked, AttemptsLinked, Authorised, Claimed, Logged;
      var now := map w | w in workers ::
        if w in stale && (workers[w].state.Ready? || workers[w].state.Draining?) then workers[w].(state := Unreachable)
        else workers[w];
      StaleConserves(reservations, workers, now);
      StaleKeepsLinks(executions, attempts, workers, now);
      workers := now;
    }

    // ---------------------------------------------------------------------- executions

    /** Insert a new execution without an attempt, in any state and with any manifest. */
    method Insert(e: ExecutionId, state: ExecutionState, requirement: Requirement, resumable: bool, createdAt: nat)
      returns (r: Result<(), StoreError>)
      requires Inv()
      modifies `executions, `claims
      ensures Inv()
      ensures r.Success? <==> e !in old(executions)
      ensures executions == if r.Failure? then old(executions)
                            else old(executions)[e := Execution(state, requirement, resumable, createdAt, None, None)]
      ensures claims == if r.Failure? then old(claims) else old(claims)[e := []]
    {
      hide Conserved, ReservationsLinked, ExecutionsLinked, AttemptsLinked, Authorised, Claimed, Logged;
      if e in executions { return Failure(Conflict); }
      var x := Execution(state, requirement, resumable, createdAt, None, None);
      InsertKeeps(executions, reservations, attempts, workers, authorities, claims, e, x);
      executions, claims := executions[e := x], claims[e := []];
      return Success(());
    }

    method RequestCancellation(e: ExecutionId) returns (r: Result<(), StoreError>)
      requires Inv()
      modifies `executions, `cancellations, `events
      ensures Inv()
      ensures r.Failure? ==> Untouched()
      ensures r.Success? <==>
        && e in old(executions)
        && (old(executions)[e].state.IsTerminal() ==> old(executions)[e].state.Cancelled? && e in old(cancellations))
      ensures r.Success? ==>
        if old(executions)[e].state.Queued? then
          && executions == old(executions)[e := old(executions)[e].(state := Cancelled)]
          && cancellations == old(cancellations)[e := true]
          && events == old(events)[e := old(EventsOf(e)) + [Cancelled]]
        else
          && executions == old(executions) && events == old(events)
          && cancellations == if e in old(cancellations) then old(cancellations) else old(cancellations)[e := false]
    {
      hide Conserved, ReservationsLinked, ExecutionsLinked, AttemptsLinked, Authorised, Claimed, Logged;
      if e !in executions { return Failure(NotFound); }
      var x := executions[e];
      if x.state.Cancelled? && e in cancellations { return Success(()); }
      if x.state.IsTerminal() { return Failure(IllegalTransition); }
      if e !in cancellations {
        cancellations := cancellations[e := false];
      }
      QueuedIsUnassigned(executions, attempts, e);
      if x.state.Queued? && x.worker.None? && x.attempt.None? {
        SetState(e, Cancelled);
        AppendEvent(e, Cancelled);
        cancellations := cancellations[e := true];
      }
      return Success(());
    }

    method CompleteCancellation(e: ExecutionId, a: AttemptId) returns (r: Result<(), StoreError>)
      requires Inv()
      modifies `executions, `cancellations, `events
      ensures Inv()
      ensures r.Failure? ==> Untouched()
      ensures r.Success? <==>
        && e in old(cancellations) && !old(cancellations)[e] && e in old(executions) && !old(executions)[e].state.IsTerminal()
        && e !in reservations && a in attempts && attempts[a].execution == e && attempts[a].finished
        && e in authorities && authorities[e].attempt == a && authorities[e].phase.Resolved?
      ensures r.Success? ==>
        && executions == old(executions)[e := old(executions)[e].(state := Cancelled)]
        && cancellations == old(cancellations)[e := true]
        && events == old(events)[e := old(EventsOf(e)) + [Cancelled]]
    {
      hide Conserved, ReservationsLinked, ExecutionsLinked, AttemptsLinked, Authorised, Claimed, Logged;
      if e !in executions { return Failure(NotFound); }
      if !CancellationPending(e) { return Failure(Conflict); }
      if !executions[e].state.CanTransitionTo(Cancelled) { return Failure(IllegalTransition); }
      if e in reservations || a !in attempts || attempts[a].execution != e || !attempts[a].finished
         || e !in authorities || authorities[e].attempt != a || !authorities[e].phase.Resolved? {
        return Failure(Conflict);
      }
      SetState(e, Cancelled);
      AppendEvent(e, Cancelled);
      cancellations := cancellations[e := true];
      return Success(());
    }

    method TransitionState(e: ExecutionId, next: ExecutionState) returns (r: Result<(), StoreError>)
      requires Inv()
      modifies `executions
      ensures Inv()
      ensures r.Success? <==>
        e in old(executions) && !CancellationPending(e) && old(executions)[e].state.CanTransitionTo(next)
      ensures executions == if r.Failure? then old(executions) else old(executions)[e := old(executions)[e].(state := next)]
    {
      hide Conserved, ReservationsLinked, ExecutionsLinked, AttemptsLinked, Authorised, Claimed, Logged;
      if e !in executions { return Failure(NotFound); }
      if CancellationPending(e) { return Failure(Conflict); }
      if !executions[e].state.CanTransitionTo(next) { return Failure(IllegalTransition); }
      SetState(e, next);
      return Success(());
    }

    method Progress(e: ExecutionId, a: AttemptId, next: ExecutionState)
      requires Inv() && e in executions && a in attempts && !attempts[a].finished
      requires next.Queued? ==> executions[e].state.Queued?
      modifies `executions, `attempts
      ensures Inv()
      ensures executions == old(executions)[e := old(executions)[e].(state := next)]
      ensures attempts == old(attempts)[a := old(attempts)[a].(finished := next.IsTerminal())]
    {
      hide Conserved, ReservationsLinked, ExecutionsLinked, AttemptsLinked, Authorised, Claimed, Logged;
      SetState(e, next);
      if next.IsTerminal() {
        Finish(a);
      }
      assert attempts == old(attempts)[a := old(attempts)[a].(finished := next.IsTerminal())];
    }

    /** The reporting attempt is the execution's own and unfinished, and the move is legal. */
    predicate MayProgress(e: ExecutionId, w: WorkerId, a: AttemptId, next: ExecutionState)
      reads `executions, `attempts, `cancellations
    {
      && e in executions && !CancellationPending(e)
      && executions[e].worker == Some(w) && executions[e].attempt == Some(a)
      && (executions[e].state == next || executions[e].state.CanTransitionTo(next))
      && a in attempts && !attempts[a].finished
    }

    predicate MayRequestRetain(e: ExecutionId, w: WorkerId, a: AttemptId)
      reads `authorities
    {
      && e in authorities && authorities[e].attempt == a && authorities[e].worker == w
      && (authorities[e].phase == C.Active(C.PostPiBeforeEvent) || authorities[e].phase.RetainRequested?)
    }

    /** `record_progress`: the running attempt reports a state, and may ask to be retained. */
    method RecordProgress(e: ExecutionId, w: WorkerId, a: AttemptId, next: ExecutionState, retain: bool)
      returns (r: Result<(), StoreError>)
      requires Inv()
      modifies `executions, `attempts, `authorities, `phases, `events
      ensures Inv() && Advances(old(authorities), authorities)
      ensures r.Failure? ==> Untouched()
      ensures r.Success? <==> old(MayProgress(e, w, a, next)) && (retain ==> old(MayRequestRetain(e, w, a)))
      ensures r.Success? ==>
        && executions == old(executions)[e := old(executions)[e].(state := next)]
        && attempts == old(attempts)[a := Attempt(e, w, next.IsTerminal())]
        && events == old(events)[e := old(EventsOf(e)) + [next]]
        && authorities == if retain then old(authorities)[e := Authority(a, w, C.RetainRequested)] else old(authorities)
    {
      hide Conserved, ReservationsLinked, ExecutionsLinked, AttemptsLinked, Authorised, Claimed, Logged;
      hide C.Rank;
      if e !in executions { return Failure(NotFound); }
      var x := executions[e];
      if CancellationPending(e) || x.worker != Some(w) || x.attempt != Some(a) { return Failure(Conflict); }
      if x.state != next && !x.state.CanTransitionTo(next) { return Failure(IllegalTransition); }
      NamedAttempt(executions, attempts, e);
      if attempts[a].finished { return Failure(Conflict); }
      if retain && !MayRequestRetain(e, w, a) { return Failure(Conflict); }
      hide ExecutionState.CanTransitionTo;
      Progress(e, a, next);
      if retain {
        MayRequestRetention();
        SetPhase(e, C.RetainRequested);
      } else {
        AdvancesNowhere(authorities);
      }
      AppendEvent(e, next);
      return Success(());
    }

    // ----------------------------------------------------------------------- whole runs

    /** What any run promises: phases only advance and claims are only added. */
    twostate predicate Grew()
      reads `authorities, `claims
    {
      && Advances(old(authorities), authorities)
      && (forall e | e in old(claims) :: e in claims && old(claims)[e] <= claims[e])
    }

    /** Rows only move as `RowMoves` says. */
    twostate predicate Moved()
      reads `executions, `cancellations, `authorities
    {
      RowsMove(old(executions), executions, old(cancellations), cancellations, authorities)
    }

    method AnyClaim(w: WorkerId, a: AttemptId)
      requires Inv() && a !in attempts
      modifies `executions, `reservations, `attempts, `workers, `claims
      ensures Inv() && Grew() && Moved()
    {
      hide Conserved, ReservationsLinked, ExecutionsLinked, AttemptsLinked, Authorised, Claimed, Logged;
      hide C.Rank, NoEarlier, IsQueryResult, CleanedUpFor, Prevented, Within, NotOvercommitted, ValidRuntime;
      AdvancesNowhere(authorities);
      hide Advances;
      var rows: seq<ExecutionId> := *;
      if IsQueryResult(rows) {
        var _ := ReserveNext(w, rows, a);
      }
    }

    method AnyFinalization(e: ExecutionId, a: AttemptId)
      requires Inv()
      modifies `executions, `reservations, `attempts, `workers, `authorities, `phases, `events
      ensures Inv() && Grew() && Moved()
    {
      hide Conserved, ReservationsLinked, ExecutionsLinked, AttemptsLinked, Authorised, Claimed, Logged;
      hide C.Rank, NoEarlier, MayFinalize, CleanupOutcome, WithoutSlot;
      var _ := FinalizeCleanup(e, a);
    }

    method AnyProgress(e: ExecutionId, w: WorkerId, a: AttemptId)
      requires Inv()
      modifies `executions, `attempts, `authorities, `phases, `events
      ensures Inv() && Grew() && Moved()
    {
      hide Conserved, ReservationsLinked, ExecutionsLinked, AttemptsLinked, Authorised, Claimed, Logged;
      hide C.Rank, NoEarlier, MayRequestRetain;
      var next: ExecutionState, retain: bool := *, *;
      var _ := RecordProgress(e, w, a, next, retain);
    }

    /** The transactions on the execution row itself. */
    method AnyRowChange(e: ExecutionId, a: AttemptId)
      requires Inv()
      modifies `executions, `cancellations, `events, `claims
      ensures Inv() && Grew() && Moved()
    {
      hide Conserved, ReservationsLinked, ExecutionsLinked, AttemptsLinked, Authorised, Claimed, Logged;
      hide C.Rank, NoEarlier;
      AdvancesNowhere(authorities);
      hide Advances;
      if {
        case true =>
          var state: ExecutionState, requirement: Requirement, resumable: bool, createdAt: nat := *, *, *, *;
          InsertAdds(executions, authorities, claims, e);
          var _ := Insert(e, state, requirement, resumable, createdAt);
        case true => var _ := RequestCancellation(e);
        case true => var _ := CompleteCancellation(e, a);
        case true => var next: ExecutionState := *; var _ := TransitionState(e, next);
      }
    }

    /** Any one transaction, with any arguments. */
    method AnyTransaction()
      requires Inv()
      modifies this
      ensures Inv() && Grew() && Moved()
    {
      hide Conserved, ReservationsLinked, ExecutionsLinked, AttemptsLinked, Authorised, Claimed, Logged;
      hide C.Rank, NoEarlier, IsQueryResult, Untouched, Finalized, MayFinalize, Fenced, FencedAuthority;
      AdvancesNowhere(authorities);
      hide Advances;
      var e: ExecutionId, a: AttemptId, w: WorkerId := *, *, *;
      if {
        case a !in attempts => AnyClaim(w, a);
        case true => Release(e);
        case true => var _ := ReleaseAttempt(e, a);
        case true => var _ := CommitRetained(e, a);
        case true => var _ := RecoverUnreachable(w);
        case true => var _ := FenceLostAttempt(e, a);
        case true => AnyFinalization(e, a);
        case e in reservations => var _ := Begin(e);
        case true => var expected: C.Disposition, next: C.Disposition := *, *; var _ := Transition(e, expected, next);
        case true => var _ := FenceForCleanup(e);
        case true => var _ := Resolve(e);
        case true => var row: Worker := *; var _ := Register(w, row);
        case true => var row: Worker := *; var _ := Heartbeat(w, row);
        case true => var stale: set<WorkerId> := *; MarkStale(stale);
        case true => AnyRowChange(e, a);
        case true => AnyProgress(e, w, a);
      }
    }

    /** Every run of transactions keeps the invariant, histories only grow, and rows only move so far. */
    method AnyRun(steps: nat)
      requires Inv()
      modifies this
      ensures Inv() && Grew() && Moved() && SingleOwner(executions, reservations, attempts, authorities, claims, phases)
      ensures forall w | w in workers :: workers[w].running == |RowsOf(reservations, w)|
    {
      hide Conserved, ReservationsLinked, ExecutionsLinked, AttemptsLinked, Authorised, Claimed, Logged;
      hide SingleOwner, NoEarlier;
      AdvancesNowhere(authorities);
      for i := 0 to steps
        invariant Inv() && Grew() && Moved()
      {
        hide Inv, Advances, RowsMove;
        ghost var before, rows, requests := authorities, executions, cancellations;
        AnyTransaction();
        AdvancesOn(old(authorities), before, authorities);
        RowsMoveOn(old(executions), rows, executions, old(cancellations), requests, cancellations, before, authorities);
      }
      InvMeansSingleOwner(executions, reservations, attempts, workers, authorities, claims, phases);
      CountersAreCounts(reservations, workers);
    }

    /** One release, which any other transactions may precede unless it runs alone. */
    method ReleaseAmong(e: ExecutionId, alone: bool)
      requires Inv()
      modifies this
      ensures Inv() && Grew() && Moved()
      ensures alone ==> reservations == old(reservations) - {e}
    {
      hide Conserved, ReservationsLinked, ExecutionsLinked, AttemptsLinked, Authorised, Claimed, Logged;
      hide SingleOwner, WithoutSlot, RowsOf;
      AdvancesNowhere(authorities);
      if !alone {
        var n: nat := *;
        AnyRun(n);
      }
      Release(e);
    }

    /**
      Release every reservation whose execution is not live, one transaction at a time.
      Unless it runs alone, any other transactions come before each release.
     */
    method Reconcile(live: set<ExecutionId>, alone: bool) returns (released: seq<ExecutionId>)
      requires Inv()
      modifies this
      ensures Inv() && Grew() && Moved()
      ensures forall e :: e in released <==> e in old(reservations) && e !in live
      ensures alone ==> reservations == old(reservations) - (old(reservations).Keys - live)
    {
      hide Conserved, ReservationsLinked, ExecutionsLinked, AttemptsLinked, Authorised, Claimed, Logged;
      AdvancesNowhere(authorities);
      released := [];
      var rows := reservations.Keys;
      while rows != {}
        invariant Inv() && Grew() && Moved() && rows <= old(reservations).Keys
        invariant forall e :: e in released <==> e in old(reservations) && e !in live && e !in rows
        invariant alone ==> reservations == old(reservations) - (old(reservations).Keys - live - rows)
        decreases rows
      {
        hide Inv, Advances, RowsMove;
        var e :| e in rows;
        rows := rows - {e};
        if e !in live {
          ghost var before, table, requests := authorities, executions, cancellations;
          ReleaseAmong(e, alone);
          AdvancesOn(old(authorities), before, authorities);
          RowsMoveOn(old(executions), table, executions, old(cancellations), requests, cancellations, before, authorities);
          released := released + [e];
        }
      }
    }

    /**
      `finalize_cleanup` again, after any run of other transactions. The repeat succeeds
      exactly until the authority is resolved, and changes nothing. Its answer is the same
      exactly when the row is still of the kind that the first one described; an answer
      that gave the execution up stays.
     */
    method FinalizeAgain(e: ExecutionId, a: AttemptId, steps: nat)
      returns (first: Result<Recovery, StoreError>, again: Result<Recovery, StoreError>)
      requires Inv()
      modifies this
      ensures Inv()
      ensures first.Success? ==> e in authorities && e in executions
      ensures first.Success? ==> (again.Success? <==> !authorities[e].phase.Resolved?)
      ensures first.Success? && again.Success? ==> (again == first <==> StillDescribes(first.value, executions[e]))
      ensures first.Success? && again.Success? && old(AwaitsFinalization(e)) && first.value.RecoveryFailed? ==> again == first
    {
      hide Conserved, ReservationsLinked, ExecutionsLinked, AttemptsLinked, Authorised, Claimed, Logged;
      hide C.Rank, SingleOwner, WithoutSlot, CleanupOutcome, RowMoves, FinalState, StillDescribes, NoEarlier;
      if AwaitsFinalization(e) {
        StorageReleasedIsAttached(executions, attempts, authorities, e);
      }
      first := FinalizeCleanup(e, a);
      ghost var xs, requests, auths := executions, cancellations, authorities;
      AnyRun(steps);
      if first.Success? {
        AuthorityFacts(executions, attempts, authorities, e);
        ReleasedOrResolved(auths[e], authorities[e]);
        RepeatExactly(xs[e], executions[e], Pending(requests, e), Pending(cancellations, e), IsResolved(authorities, e));
        if old(AwaitsFinalization(e)) && first.value.RecoveryFailed? && !IsResolved(authorities, e) {
          FailureIsFinal(old(executions)[e], executions[e], Pending(requests, e), Pending(cancellations, e));
        }
      }
      again := FinalizeCleanup(e, a);
    }
  }

  const ONE_WORKER := Worker("linux", "x86_64", 8, 8192, 100, 4, {Docker}, {}, map[], Ready, true, 0)
  const ONE_REQUEST := Requirement(Docker, None, None, 1, 1024, 10, {}, map[])

  lemma OneFits()
    ensures ValidWorker(ONE_WORKER) && !TooLarge(ONE_REQUEST) && Used(map[], 1) == Reserved(0, 0, 0, 0)
    ensures !Prevented(ONE_WORKER, ONE_REQUEST, Used(map[], 1))
  {
    assert RowsOf(map[], 1) == {};
  }

  /** A new database with one worker and one resumable execution, claimed. */
  method ClaimOne() returns (db: Database)
    ensures fresh(db) && db.Inv() && 7 in db.executions && 3 in db.attempts && 7 in db.reservations
    ensures db.executions[7].resumable && db.executions[7].state.WorkerAssigned? && !db.attempts[3].finished
    ensures db.reservations[7].attempt == 3 && db.authorities == map[] && db.cancellations == map[]
  {
    hide Conserved, ReservationsLinked, ExecutionsLinked, AttemptsLinked, Authorised, Claimed, Logged;
    hide Used, Prevented, TooLarge, ValidWorker, CleanedUpFor, Within, NotOvercommitted, ValidRuntime;
    OneFits();
    db := new Database();
    var _ := db.Register(1, ONE_WORKER);
    var _ := db.Insert(7, Queued, ONE_REQUEST, true, 0);
    assert db.IsQueryResult([7]);
    assert db.workers[1] == ONE_WORKER && [7][0] == 7;
    var r := db.ReserveNext(1, [7], 3);
    assert r.Success? && r.value.Some?;
  }

  method Forward(db: Database, e: ExecutionId, next: C.Disposition)
    requires db.Inv() && e in db.authorities && C.CanTransition(db.authorities[e].phase, next)
    modifies db`authorities, db`phases
    ensures db.Inv() && db.authorities == old(db.authorities)[e := old(db.authorities)[e].(phase := next)]
  {
    hide Conserved, ReservationsLinked, ExecutionsLinked, AttemptsLinked, Authorised, Claimed, Logged;
    hide C.Rank, C.CanTransition, Advances;
    var _ := db.Transition(e, db.authorities[e].phase, next);
  }

  /** Its attempt is lost and cleaned up as far as its storage. */
  method CleanUpOne(db: Database)
    requires db.Inv() && 7 in db.executions && 3 in db.attempts && 7 in db.reservations
    requires !db.attempts[3].finished && db.reservations[7].attempt == 3 && 7 !in db.authorities
    modifies db`attempts, db`authorities, db`phases
    ensures db.Inv() && 7 in db.authorities && 3 in db.attempts
    ensures db.authorities[7].attempt == 3 && db.authorities[7].phase.StorageReleased?
  {
    hide Conserved, ReservationsLinked, ExecutionsLinked, AttemptsLinked, Authorised, Claimed, Logged;
    hide C.Rank, Advances;
    var fenced := db.FenceLostAttempt(7, 3);
    Forward(db, 7, C.RuntimeStopped);
    Forward(db, 7, C.RuntimeDestroyed);
    Forward(db, 7, C.GitRecoveredCleaned);
    Forward(db, 7, C.StorageReleased);
  }

  /**
    A repeat that answers differently: the execution is finalized and queued again, is
    cancelled while it waits, and is then reported as given up.
   */
  method CancelledBetween() returns (first: Result<Recovery, StoreError>, again: Result<Recovery, StoreError>)
    ensures first == Success(Requeued) && again == Success(RecoveryFailed)
  {
    hide Conserved, ReservationsLinked, ExecutionsLinked, AttemptsLinked, Authorised, Claimed, Logged;
    hide C.Rank, Advances;
    var db := ClaimOne();
    CleanUpOne(db);
    first := db.FinalizeCleanup(7, 3);
    var cancelled := db.RequestCancellation(7);
    again := db.FinalizeCleanup(7, 3);
  }
}
