/** The cleanup dispositions of an attempt, and their order. */
module Cleanup {
  datatype Stage = Reserved | Storage | Worktree | Runtime | PiStarted | Running | PostPiBeforeEvent

  datatype Disposition =
    | Active(stage: Stage)
    | RetainRequested
    | Retained
    | CleanupPending
    | RuntimeStopped
    | RuntimeDestroyed
    | GitRecoveredCleaned
    | StorageReleased
    | ReservationReleased
    | Resolved

  predicate CanTransition(from: Disposition, to: Disposition)
  {
    match (from, to)
    case (Active(Reserved), Active(Storage)) => true
    case (Active(Storage), Active(Worktree)) => true
    case (Active(Worktree), Active(Runtime)) => true
    case (Active(Runtime), Active(PiStarted)) => true
    case (Active(PiStarted), Active(Running)) => true
    case (Active(Running), Active(PostPiBeforeEvent)) => true
    case (Active(PostPiBeforeEvent), RetainRequested) => true
    case (RetainRequested, Retained) => true
    case (Retained, CleanupPending) => true
    case (CleanupPending, RuntimeStopped) => true
    case (RuntimeStopped, RuntimeDestroyed) => true
    case (RuntimeDestroyed, GitRecoveredCleaned) => true
    case (GitRecoveredCleaned, StorageReleased) => true
    case (StorageReleased, ReservationReleased) => true
    case (ReservationReleased, Resolved) => true
    case _ => false
  }

  function Rank(d: Disposition): (r: nat)
    ensures r <= 15 && (r == 15 <==> d.Resolved?)
  {
    match d
    case Active(Reserved) => 0
    case Active(Storage) => 1
    case Active(Worktree) => 2
    case Active(Runtime) => 3
    case Active(PiStarted) => 4
    case Active(Running) => 5
    case Active(PostPiBeforeEvent) => 6
    case RetainRequested => 7
    case Retained => 8
    case CleanupPending => 9
    case RuntimeStopped => 10
    case RuntimeDestroyed => 11
    case GitRecoveredCleaned => 12
    case StorageReleased => 13
    case ReservationReleased => 14
    case Resolved => 15
  }

  /** The table of legal transitions is exactly the successor relation of one total order. */
  lemma TransitionsAreSuccessors(from: Disposition, to: Disposition)
    ensures CanTransition(from, to) <==> Rank(to) == Rank(from) + 1
    ensures Rank(from) == Rank(to) ==> from == to
  {
    match from
    case Active(s) => match s { case _ => }
    case _ =>
  }
}
