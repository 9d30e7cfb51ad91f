/** The recovery row with its checkpoint, patch and approval rows, and the store's writes to them. */
module RecoveryStore {
  import opened Wrappers
  import opened PlanApproval
  import opened RecoveryLifecycle

  type WorkerId = string

  datatype Lease = Lease(owner: WorkerId, expires: int)

  /** What a run leaves behind: checkpoint rows and patch version rows, in order. */
  datatype Entry = Reached(stage: Status) | Patched(patch: nat)

  /** A publication approval row, unique by round, actor and decision; the round is the patch version decided on. */
  datatype Approval = Approval(round: nat, actor: Actor, approve: bool)

  /** The recovery row; `patch` is 0 until a patch version is recorded. */
  datatype Run = Run(status: Status, version: nat, lease: Option<Lease>, cancellation: bool, patch: nat,
                     history: seq<Entry>, approvals: set<Approval>)

  datatype StoreError =
    | LeaseLost | InvalidTransition | PatchExists | NotResumable | NotRevisable | NotAtGate | VersionConflict

  function LeaseMillis(seconds: int): int {
    1000 * (if seconds < 15 then 15 else if seconds > 900 then 900 else seconds)
  }

  predicate Holds(run: Run, w: WorkerId, now: int) {
    run.lease.Some? && run.lease.value.owner == w && run.lease.value.expires > now
  }

  function Created(): Run { Run(Requested, 1, None, false, 0, [], {}) }

  predicate CanAcquire(run: Run, w: WorkerId, now: int) {
    Acquirable(run.status) && (run.lease.None? || run.lease.value.expires < now || run.lease.value.owner == w)
  }

  function Leased(run: Run, w: WorkerId, now: int, seconds: int): Run {
    run.(lease := Some(Lease(w, now + LeaseMillis(seconds))))
  }

  /** `restartForRetry`: back to the start without asking the transition table. */
  function Restarted(run: Run, w: WorkerId, now: int): Result<Run, StoreError> {
    if !Holds(run, w, now) then Err(LeaseLost) else Ok(run.(status := Requested, version := run.version + 1))
  }

  function Checkpointed(run: Run, w: WorkerId, now: int, stage: Status): Result<Run, StoreError> {
    if !Holds(run, w, now) then Err(LeaseLost)
    else if !Permitted(run.status, stage) then Err(InvalidTransition)
    else Ok(run.(status := stage, version := run.version + 1, history := run.history + [Reached(stage)]))
  }

  function PatchRecorded(run: Run, w: WorkerId, now: int, patch: nat): Result<Run, StoreError> {
    if !Holds(run, w, now) then Err(LeaseLost)
    else if Patched(patch) in run.history then Err(PatchExists)
    else Ok(run.(patch := patch, version := run.version + 1, history := run.history + [Patched(patch)]))
  }

  /** `complete`: an unguarded status write that also gives up the lease. */
  function Completed(run: Run, w: WorkerId, now: int, status: Status): Result<Run, StoreError> {
    if !Holds(run, w, now) then Err(LeaseLost)
        else Ok(run.(status := status, lease := None, version := run.version + 1))
  }

  function Released(run: Run, w: WorkerId, now: int): Result<Run, StoreError> {
    if !Holds(run, w, now) then Err(LeaseLost)
    else if !AtGate(run.status) then Err(NotAtGate)
    else Ok(run.(lease := None, version := run.version + 1))
  }

  function Resumed(run: Run): Result<Run, StoreError> {
    if !Resumable(run.status) then Err(NotResumable)
    else Ok(run.(status := PatchPlanning, cancellation := false, lease := None, version := run.version + 1))
  }

  function Revised(run: Run, expectedVersion: nat): Result<Run, StoreError> {
    if run.version != expectedVersion then Err(StoreError.VersionConflict)
    else if !Revisable(run.status) then Err(NotRevisable)
    else Ok(run.(status := Requested, cancellation := false, lease := None, version := run.version + 1))
  }

  /** The distinct actors that approved a round. */
  function RoundApprovers(approvals: set<Approval>, round: nat): set<Actor> {
    set a | a in approvals && a.round == round && a.approve :: a.actor
  }

  function Threshold(required: int): int { if required < 1 then 1 else required }

  /** Whether plan approvers may not approve the publication. */
  predicate DutiesSeparate(plan: Plan, required: int) {
    Threshold(required) > 1 || plan.risk == High || plan.risk == Critical
  }

  function PublicationDecided(run: Run, plan: Plan, required: int, context: Context, approve: bool,
      expectedVersion: nat)
    : Result<Run, DecisionError>
  {
    if !context.human then Err(NotHuman)
    else if run.version != expectedVersion then Err(DecisionError.VersionConflict)
    else if !AtGate(run.status) then Err(NotDecidable)
    else if approve && DutiesSeparate(plan, required)
        && context.actor in AnyApprovers(plan.votes) then Err(DutiesConflict)
    else if run.patch == 0 then Err(NoPatch)
    else
      var approvals := run.approvals + {Approval(run.patch, context.actor, approve)};
      var approved := approve && |RoundApprovers(approvals, run.patch)| >= Threshold(required);
      Ok(run.(approvals := approvals, status := if approved then ReadyToPublish
          else AwaitingPublicationApproval, version := run.version + 1))
  }

  // What the writes do, in the rows before and after.

  /** Requested seconds are clamped to 15..900. */
  lemma LeaseClamped(seconds: int)
    ensures seconds <= 15 ==> LeaseMillis(seconds) == 15_000
    ensures 15 <= seconds <= 900 ==> LeaseMillis(seconds) == seconds * 1000
    ensures seconds >= 900 ==> LeaseMillis(seconds) == 900_000
  {
  }

  /** A lease is taken unless somebody else holds it; it is renewed in full and nothing else changes. */
  lemma AcquireRules(run: Run, w: WorkerId, now: int, seconds: int)
    ensures CanAcquire(run, w, now)
            <==>
              && Acquirable(run.status)
              && (run.lease.Some? && run.lease.value.owner != w ==> run.lease.value.expires < now)
    ensures var after := Leased(run, w, now, seconds);
            && after == run.(lease := after.lease) && Holds(after, w, now)
            && after.lease.value.expires == now + LeaseMillis(seconds)
  {
  }

  /** A worker's write goes through only under its own unexpired lease; what it changes and what it leaves alone. */
  lemma WorkerWrites(run: Run, w: WorkerId, now: int, stage: Status, patch: nat)
    ensures var fenced := run.lease.Some? && run.lease.value.owner == w && now < run.lease.value.expires;
            && (!fenced ==> Restarted(run, w, now) == Checkpointed(run, w, now, stage)
                            == PatchRecorded(run, w, now, patch) == Completed(run, w, now, stage)
                            == Released(run, w, now) == Err(LeaseLost))
            && (fenced ==> Restarted(run, w, now) == Ok(run.(status := Requested, version := run.version + 1)))
            && (fenced ==>
                  Completed(run, w, now, stage).Ok? && WroteLast(run, Completed(run, w, now, stage).value, stage))
    ensures Checkpointed(run, w, now, stage).Ok? ==>
              var after := Checkpointed(run, w, now, stage).value;
              && Permitted(run.status, stage) && after.status == stage && after.version == run.version + 1
              && |after.history| == |run.history| + 1 && run.history <= after.history
              && after.history[|run.history|] == Reached(stage)
              && after.lease == run.lease && after.patch == run.patch && after.approvals == run.approvals
    ensures PatchRecorded(run, w, now, patch).Ok? ==>
              var after := PatchRecorded(run, w, now, patch).value;
              && Patched(patch) !in run.history && after.patch == patch && after.status == run.status
              && |after.history| == |run.history| + 1 && run.history <= after.history
              && after.history[|run.history|] == Patched(patch)
              && after.lease == run.lease && after.approvals == run.approvals
    ensures Released(run, w, now).Ok? ==>
              var after := Released(run, w, now).value;
              && run.status in {AwaitingPublicationApproval, ReadyToPublish} && WroteLast(run, after, run.status)
  {
  }

  /** A last write: the status, the lease given up, the version counted, nothing else. */
  predicate WroteLast(run: Run, after: Run, status: Status) {
    && after.status == status && after.lease.None? && after.version == run.version + 1 && after.patch == run.patch
    && after.history == run.history && after.approvals == run.approvals && after.cancellation == run.cancellation
  }

  /** Resuming and revising take the lease and the cancellation away and keep patch, history and approvals. */
  lemma HumanWrites(run: Run, expectedVersion: nat)
    ensures Resumed(run).Ok? ==> Taken(run, Resumed(run).value, PatchPlanning)
    ensures Revised(run, expectedVersion).Ok? ==>
              run.version == expectedVersion && Taken(run, Revised(run, expectedVersion).value, Requested)
  {
  }

  predicate Taken(run: Run, after: Run, status: Status) {
    && after.status == status && after.lease.None? && !after.cancellation && after.version == run.version + 1
    && after.patch == run.patch && after.history == run.history && after.approvals == run.approvals
  }

  /** A decision changes the approvers of the current patch only, and only if it approves. */
  lemma RoundApproversAfter(approvals: set<Approval>, a: Approval, round: nat)
    ensures RoundApprovers(approvals + {a}, round)
         == RoundApprovers(approvals, round) + if a.approve && a.round == round then {a.actor} else {}
  {
    if a.approve && a.round == round { assert a in approvals + {a}; }
    forall actor | actor in RoundApprovers(approvals, round) ensures actor in RoundApprovers(approvals + {a}, round) {
      var b :| b in approvals && b.round == round && b.approve && b.actor == actor;
      assert b in approvals + {a};
    }
  }

  /** When a publication decision is accepted. */
  lemma PublicationDecisionAccepted(run: Run, plan: Plan, required: int, context: Context, approve: bool,
                                    expectedVersion: nat)
    ensures PublicationDecided(run, plan, required, context, approve, expectedVersion).Ok?
            <==> && context.human && run.version == expectedVersion
                 && run.status in {AwaitingPublicationApproval, ReadyToPublish} && run.patch > 0
                 && (approve && (required > 1 || plan.risk in {High, Critical}) ==>
                       forall v <- plan.votes :: v.actor == context.actor ==> v.decision != Approve)
  {
    if context.actor in AnyApprovers(plan.votes) {
      var v :| v in plan.votes && v.decision == Approve && v.actor == context.actor;
    }
  }

  /**
   * An accepted decision makes the recovery ready to publish if and only if it is an approval and the
   * distinct approvers of the current patch, the actor included, reach the threshold; otherwise, and after
   * every rejection, it awaits approval. No other round gains or loses an approver.
   */
  lemma PublicationDecisionOutcome(run: Run, plan: Plan, required: int, context: Context, approve: bool,
                                   expectedVersion: nat)
    requires PublicationDecided(run, plan, required, context, approve, expectedVersion).Ok?
    ensures var after := PublicationDecided(run, plan, required, context, approve, expectedVersion).value;
            var approvers := RoundApprovers(run.approvals, run.patch) + {context.actor};
            && (after.status == ReadyToPublish <==> approve && |approvers| >= required)
            && (after.status == AwaitingPublicationApproval <==> !approve || |approvers| < required)
            && RoundApprovers(after.approvals, run.patch)
               == (if approve then approvers else RoundApprovers(run.approvals, run.patch))
            && (forall round: nat | round != run.patch ::
                  RoundApprovers(after.approvals, round) == RoundApprovers(run.approvals, round))
            && after.approvals == run.approvals + {Approval(run.patch, context.actor, approve)}
            && after.version == run.version + 1 && after.patch == run.patch && after.history == run.history
            && after.lease == run.lease && after.cancellation == run.cancellation
  {
    var a := Approval(run.patch, context.actor, approve);
    RoundApproversAfter(run.approvals, a, run.patch);
    forall round: nat | round != run.patch
      ensures RoundApprovers(run.approvals + {a}, round) == RoundApprovers(run.approvals, round)
    {
      RoundApproversAfter(run.approvals, a, round);
    }
    var approvers := RoundApprovers(run.approvals, run.patch) + {context.actor};
    assert context.actor in approvers && |approvers| >= 1;
  }

  /** The row as the store's methods update it. */
  class RunRow {
    var status: Status
    var version: nat
    var lease: Option<Lease>
    var cancellation: bool
    var patch: nat
    var history: seq<Entry>
    var approvals: set<Approval>

    constructor ()
      ensures View() == Created()
    {
      status, version, lease, cancellation, patch, history, approvals := Requested, 1, None, false, 0, [], {};
    }

    function View(): Run
      reads this
    {
      Run(status, version, lease, cancellation, patch, history, approvals)
    }

    method AssertLease(w: WorkerId, now: int) returns (held: bool)
      ensures held <==> Holds(View(), w, now)
    {
      held := lease.Some? && lease.value.owner == w && lease.value.expires > now;
    }

    method AcquireLease(w: WorkerId, now: int, seconds: int) returns (envelope: Option<Status>)
      modifies this`lease
      ensures if old(CanAcquire(View(), w, now)) then envelope == Some(status)
          && View() == Leased(old(View()), w, now, seconds)
              else envelope == None && View() == old(View())
    {
      if !Acquirable(status) || !(lease.None? || lease.value.expires < now || lease.value.owner == w) { return None; }
      lease := Some(Lease(w, now + LeaseMillis(seconds)));
      return Some(status);
    }

    method RestartForRetry(w: WorkerId, now: int) returns (r: Result<(), StoreError>)
      modifies this`status, this`version
      ensures match Restarted(old(View()), w, now)
              case Err(e) => r == Err(e) && View() == old(View())
              case Ok(run) => r == Ok(()) && View() == run
    {
      var held := AssertLease(w, now);
      if !held { return Err(LeaseLost); }
      status, version := Requested, version + 1;
      return Ok(());
    }

    method Checkpoint(w: WorkerId, now: int, stage: Status) returns (r: Result<(), StoreError>)
      modifies this`status, this`version, this`history
      ensures match Checkpointed(old(View()), w, now, stage)
              case Err(e) => r == Err(e) && View() == old(View())
              case Ok(run) => r == Ok(()) && View() == run
    {
      var held := AssertLease(w, now);
      if !held { return Err(LeaseLost); }
      if !Permitted(status, stage) { return Err(InvalidTransition); }
      history := history + [Reached(stage)];
      status, version := stage, version + 1;
      return Ok(());
    }

    method RecordPatch(w: WorkerId, now: int, number: nat) returns (r: Result<(), StoreError>)
      modifies this`patch, this`version, this`history
      ensures match PatchRecorded(old(View()), w, now, number)
              case Err(e) => r == Err(e) && View() == old(View())
              case Ok(run) => r == Ok(()) && View() == run
    {
      var held := AssertLease(w, now);
      if !held { return Err(LeaseLost); }
      if Patched(number) in history { return Err(PatchExists); }
      history := history + [Patched(number)];
      patch, version := number, version + 1;
      return Ok(());
    }

    method Complete(w: WorkerId, now: int, outcome: Status) returns (r: Result<(), StoreError>)
      modifies this`status, this`version, this`lease
      ensures match Completed(old(View()), w, now, outcome)
              case Err(e) => r == Err(e) && View() == old(View())
              case Ok(run) => r == Ok(()) && View() == run
    {
      var held := AssertLease(w, now);
      if !held { return Err(LeaseLost); }
      status, lease, version := outcome, None, version + 1;
      return Ok(());
    }

    method ReleaseLease(w: WorkerId, now: int) returns (r: Result<(), StoreError>)
      modifies this`version, this`lease
      ensures match Released(old(View()), w, now)
              case Err(e) => r == Err(e) && View() == old(View())
              case Ok(run) => r == Ok(()) && View() == run
    {
      var held := AssertLease(w, now);
      if !held { return Err(LeaseLost); }
      if !AtGate(status) { return Err(NotAtGate); }
      lease, version := None, version + 1;
      return Ok(());
    }

    method ResumeRecovery() returns (r: Result<(), StoreError>)
      modifies this`status, this`version, this`lease, this`cancellation
      ensures match Resumed(old(View()))
              case Err(e) => r == Err(e) && View() == old(View())
              case Ok(run) => r == Ok(()) && View() == run
    {
      if !Resumable(status) { return Err(NotResumable); }
      status, cancellation, lease, version := PatchPlanning, false, None, version + 1;
      return Ok(());
    }

    method RequestRevision(expectedVersion: nat) returns (r: Result<(), StoreError>)
      modifies this`status, this`version, this`lease, this`cancellation
      ensures match Revised(old(View()), expectedVersion)
              case Err(e) => r == Err(e) && View() == old(View())
              case Ok(run) => r == Ok(()) && View() == run
    {
      if version != expectedVersion { return Err(StoreError.VersionConflict); }
      if !Revisable(status) { return Err(NotRevisable); }
      status, cancellation, lease, version := Requested, false, None, version + 1;
      return Ok(());
    }

    method DecidePublication(plan: Plan, required: int, context: Context, approve: bool, expectedVersion: nat)
      returns (r: Result<(), DecisionError>)
      modifies this`approvals, this`status, this`version
      ensures match PublicationDecided(old(View()), plan, required, context, approve, expectedVersion)
              case Err(e) => r == Err(e) && View() == old(View())
              case Ok(run) => r == Ok(()) && View() == run
    {
      if !context.human { return Err(NotHuman); }
      if version != expectedVersion { return Err(DecisionError.VersionConflict); }
      if !AtGate(status) { return Err(NotDecidable); }
      var threshold := if required > 1 then required else 1;
      if approve && (threshold > 1 || plan.risk == High || plan.risk == Critical) {
        if context.actor in AnyApprovers(plan.votes) { return Err(DutiesConflict); }
      }
      if patch == 0 { return Err(NoPatch); }
      approvals := approvals + {Approval(patch, context.actor, approve)};
      var approved := approve && |RoundApprovers(approvals, patch)| >= threshold;
      status := if approved then ReadyToPublish else AwaitingPublicationApproval;
      version := version + 1;
      return Ok(());
    }
  }
}
