/** Publication statuses and their transition table. */
module PublicationLifecycle {
  datatype Status =
    | PublicationRequested | PolicyCheck | CommitMaterializing | BranchPublishing | DraftPrCreating
    | CiMonitoring | ReviewMonitoring | AwaitingReview | ReadyForHumanMerge | Merged | PostMergeVerifying
    | RecoveryConfirmed | Closed | PublicationBlocked | PushFailed | PrCreationFailed | CiFailed
    | ChangesRequested | RevisionRequired | BaseBranchStale | SecurityBlocked | PostMergeFailed
    | MergeReverted | Cancelled | TimedOut

  /** The statuses a status can change to. */
  function Targets(from: Status): set<Status> {
    match from
    case PublicationRequested => {PolicyCheck, Cancelled}
    case PolicyCheck => {CommitMaterializing, PublicationBlocked, BaseBranchStale, SecurityBlocked, Cancelled}
    case CommitMaterializing => {BranchPublishing, PublicationBlocked, BaseBranchStale, TimedOut}
    case BranchPublishing => {DraftPrCreating, PublicationBlocked, PushFailed, TimedOut}
    case DraftPrCreating => {CiMonitoring, PublicationBlocked, BaseBranchStale, PrCreationFailed, TimedOut}
    case CiMonitoring => {ReviewMonitoring, CiFailed, SecurityBlocked, Cancelled}
    case ReviewMonitoring => {AwaitingReview, ChangesRequested, SecurityBlocked, Cancelled}
    case AwaitingReview => {ReadyForHumanMerge, ChangesRequested, BaseBranchStale, CiFailed, SecurityBlocked, Cancelled}
    case ReadyForHumanMerge => {Merged, ChangesRequested, BaseBranchStale, CiFailed, SecurityBlocked}
    case Merged => {PostMergeVerifying, MergeReverted}
    case PostMergeVerifying => {RecoveryConfirmed, PostMergeFailed, MergeReverted}
    case RecoveryConfirmed => {Closed}
    case PushFailed => {BranchPublishing, Cancelled}
    case PrCreationFailed => {DraftPrCreating, Cancelled}
    case CiFailed => {CiMonitoring, RevisionRequired, Cancelled}
    case ChangesRequested => {RevisionRequired, Cancelled}
    case RevisionRequired => {PolicyCheck, Cancelled}
    case BaseBranchStale => {RevisionRequired, Cancelled}
    case SecurityBlocked => {RevisionRequired, Cancelled}
    case _ => {}
  }

  /** `assertPublicationTransition` does not throw. */
  predicate Permitted(from: Status, to: Status) { from == to || to in Targets(from) }

  predicate Terminal(s: Status) {
    s in {Closed, PublicationBlocked, Cancelled, TimedOut, PostMergeFailed, MergeReverted}
  }

  /** The statuses from which a worker may claim the publication. */
  predicate Executable(s: Status) {
    s in {PublicationRequested, PolicyCheck, CommitMaterializing, BranchPublishing, DraftPrCreating, PushFailed,
        PrCreationFailed}
  }

  /** The stage that a retry resumes at. */
  function Stage(s: Status): nat {
    match s
    case PublicationRequested => 0
    case PolicyCheck => 1
    case CommitMaterializing => 2
    case BranchPublishing => 3
    case PushFailed => 3
    case DraftPrCreating => 4
    case PrCreationFailed => 4
    case _ => 5
  }

  /** The statuses that can only be reached by way of `BranchPublishing`. */
  predicate PastCommit(s: Status) {
    s in {BranchPublishing, PushFailed, DraftPrCreating, PrCreationFailed, CiMonitoring, ReviewMonitoring,
        AwaitingReview,
          ReadyForHumanMerge, Merged, PostMergeVerifying, RecoveryConfirmed, Closed, PostMergeFailed, MergeReverted,
          CiFailed, ChangesRequested}
  }

  /** Terminal statuses are exactly those that nothing leaves. */
  lemma TerminalIffStuck(s: Status)
    ensures Terminal(s) <==> Targets(s) == {}
  {
    if !Terminal(s) { assert exists t :: t in Targets(s) by { SomeTarget(s); } }
  }

  lemma SomeTarget(s: Status)
    requires !Terminal(s)
    ensures exists t :: t in Targets(s)
  {
    var t := match s
      case PublicationRequested => PolicyCheck case PolicyCheck => Cancelled case CommitMaterializing => TimedOut
      case BranchPublishing => TimedOut case DraftPrCreating => TimedOut case CiMonitoring => Cancelled
      case ReviewMonitoring => Cancelled case AwaitingReview => Cancelled case ReadyForHumanMerge => Merged
      case Merged => MergeReverted case PostMergeVerifying => MergeReverted case RecoveryConfirmed => Closed
      case RevisionRequired => PolicyCheck case _ => Cancelled;
    assert t in Targets(s);
  }

  /** The region past the commit is entered only from `CommitMaterializing` to `BranchPublishing`. */
  lemma OneWayPastCommit(from: Status, to: Status)
    requires Permitted(from, to) && PastCommit(to) && !PastCommit(from)
    ensures from == CommitMaterializing && to == BranchPublishing
  {
  }
}
