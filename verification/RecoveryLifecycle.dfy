/** Recovery statuses and their transition table. */
module RecoveryLifecycle {
  datatype Status =
    | Requested | PolicyCheck | WorktreePreparing | PatchPlanning | PatchGenerating | PatchValidating | SecurityReview
    | Verifying | PackageBuilding | AwaitingPublicationApproval | ReadyToPublish | Published | PolicyBlocked | Cancelled
    | TimedOut | PatchRejected | SecurityRejected | VerificationFailed | WorktreeFailed | ModelFailed | ToolFailed
    | BudgetExceeded | CleanupFailed

  function Targets(from: Status): set<Status> {
    match from
    case Requested => {PolicyCheck, Cancelled}
    case PolicyCheck => {WorktreePreparing, PolicyBlocked, Cancelled}
    case WorktreePreparing => {PatchPlanning, WorktreeFailed, Cancelled, TimedOut}
    case PatchPlanning => {PatchGenerating, ModelFailed, BudgetExceeded, Cancelled}
    case PatchGenerating => {PatchValidating, ModelFailed, ToolFailed, BudgetExceeded, Cancelled, TimedOut}
    case PatchValidating => {SecurityReview, PatchRejected, Cancelled}
    case SecurityReview => {Verifying, SecurityRejected, Cancelled}
    case Verifying => {PackageBuilding, VerificationFailed, Cancelled, TimedOut}
    case PackageBuilding => {AwaitingPublicationApproval, ToolFailed, Cancelled}
    case AwaitingPublicationApproval => {ReadyToPublish, PatchPlanning, Cancelled}
    case ReadyToPublish => {Published, AwaitingPublicationApproval, Cancelled}
    case PatchRejected => {PatchPlanning}
    case SecurityRejected => {PatchPlanning}
    case VerificationFailed => {PatchPlanning}
    case WorktreeFailed => {WorktreePreparing}
    case ModelFailed => {PatchPlanning}
    case ToolFailed => {PatchPlanning}
    case _ => {}
  }

  /** `assertRecoveryTransition` does not throw. */
  predicate Permitted(from: Status, to: Status) { from == to || to in Targets(from) }

  /** The source's terminal set; six of its members can still be left again. */
  predicate Terminal(s: Status) {
    s in {Published, PolicyBlocked, Cancelled, TimedOut, PatchRejected, SecurityRejected, VerificationFailed,
        WorktreeFailed,
          ModelFailed, ToolFailed, BudgetExceeded, CleanupFailed}
  }

  /** The failure statuses a human may resume from. */
  predicate Resumable(s: Status) {
    s in {PatchRejected, SecurityRejected, VerificationFailed, WorktreeFailed, ModelFailed, ToolFailed}
  }

  predicate AtGate(s: Status) { s == AwaitingPublicationApproval || s == ReadyToPublish }

  predicate Revisable(s: Status) { AtGate(s) || Resumable(s) }

  /** A worker may acquire the lease in any status but these. */
  predicate Acquirable(s: Status) { s !in {Published, PolicyBlocked, Cancelled, BudgetExceeded, CleanupFailed} }

  /** Exactly the resumable statuses are called terminal and still have a way out. */
  lemma ResumableIsTerminalWithExit(s: Status)
    ensures Resumable(s) <==> Terminal(s) && Targets(s) != {}
  {
    assert PatchPlanning in Targets(PatchRejected) && PatchPlanning in Targets(SecurityRejected)
        && PatchPlanning in Targets(VerificationFailed);
    assert WorktreePreparing in Targets(WorktreeFailed) && PatchPlanning in Targets(ModelFailed)
        && PatchPlanning in Targets(ToolFailed);
  }
}
