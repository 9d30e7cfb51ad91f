/**
 * Plans, recoveries, their workers and their human deciders as one state machine: every interleaving
 * of plan decisions, worker steps, crashes, lease expiry, takeovers, resumes, revisions and
 * publication decisions.
 */
module RecoveryProtocol {
  import opened Wrappers
  import opened PlanApproval
  import opened RecoveryLifecycle
  import opened RecoveryStore

  /** Where a worker is in its run: the next thing it does. */
  datatype Pc = LoadContext | Restart | ToStage(stage: Status) | RecordPatch | Release | Fail

  /** A live claim; `base` is the patch version read with the context. */
  datatype Claim = Claim(pc: Pc, entry: Status, base: nat)

  /** One worker id has at most one live claim. `required` is the policy's number of publication approvals. */
  datatype State = State(plan: Plan, run: Option<Run>, required: int, now: int, claims: map<WorkerId, Claim>)

  datatype Step =
    | Tick(millis: nat) | DecidesPlan(ballot: Ballot) | Creates
    | Acquires(worker: WorkerId, seconds: int) | Beats(worker: WorkerId, seconds: int) | Crashes(worker: WorkerId)
    | Acts(worker: WorkerId, fault: bool, outcome: Status)
    | CancelRequested | Resumes | Revises(expectedVersion: nat)
    | DecidesPublication(context: Context, approve: bool, expectedVersion: nat)

  /** The statuses a failed run can be completed with. */
  predicate Outcome(s: Status) {
    s in {Cancelled, TimedOut, BudgetExceeded, SecurityRejected, PatchRejected, VerificationFailed, WorktreeFailed,
          ModelFailed, ToolFailed, CleanupFailed}
  }

  /** The worker's stages in order; the patch is recorded between `PatchValidating` and `SecurityReview`. */
  function AfterStage(stage: Status): Pc {
    match stage
    case PolicyCheck => ToStage(WorktreePreparing)
    case WorktreePreparing => ToStage(PatchPlanning)
    case PatchPlanning => ToStage(PatchGenerating)
    case PatchGenerating => ToStage(PatchValidating)
    case PatchValidating => RecordPatch
    case SecurityReview => ToStage(Verifying)
    case Verifying => ToStage(PackageBuilding)
    case PackageBuilding => ToStage(AwaitingPublicationApproval)
    case AwaitingPublicationApproval => Release
    case _ => Fail
  }

  function With(s: State, w: WorkerId, c: Claim): State { s.(claims := s.claims[w := c]) }
  function Leaves(s: State, w: WorkerId): State { s.(claims := s.claims - {w}) }

  function Stores(s: State, w: WorkerId, c: Claim, r: Result<Run, StoreError>, next: Pc): State {
    match r
    case Err(_) => With(s, w, c.(pc := Fail))
    case Ok(run) => With(s.(run := Some(run)), w, c.(pc := next))
  }

  /** A last write; its failure is only logged. */
  function Ends(s: State, w: WorkerId, r: Result<Run, StoreError>): State {
    match r
    case Err(_) => Leaves(s, w)
    case Ok(run) => Leaves(s.(run := Some(run)), w)
  }

  /** The next step of worker `w`; `fault` stands for any error, a failed control check included. */
  function Act(s: State, w: WorkerId, fault: bool, outcome: Status): State
    requires w in s.claims && s.run.Some?
  {
    var c, run := s.claims[w], s.run.value;
    if c.pc == Fail then (if Outcome(outcome) then Ends(s, w, Completed(run, w, s.now, outcome)) else s)
    else if fault then With(s, w, c.(pc := Fail))
    else
      match c.pc
      case LoadContext => With(s, w, c.(pc := if c.entry == Requested then ToStage(PolicyCheck)
          else Restart, base := run.patch))
      case Restart => Stores(s, w, c, Restarted(run, w, s.now), ToStage(PolicyCheck))
      case ToStage(stage) => Stores(s, w, c, Checkpointed(run, w, s.now, stage), AfterStage(stage))
      case RecordPatch => Stores(s, w, c, PatchRecorded(run, w, s.now, c.base + 1), ToStage(SecurityReview))
      case Release => Ends(s, w, Released(run, w, s.now))
  }

  function WithRun<E>(s: State, r: Result<Run, E>): State {
    match r case Err(_) => s case Ok(run) => s.(run := Some(run))
  }

  /** One step of the system; a step that is not enabled changes nothing. */
  function Next(s: State, step: Step): State {
    if step.Tick? then s.(now := s.now + step.millis)
    else if step.DecidesPlan? then s.(plan := Cast(s.plan, step.ballot))
    else if step.Crashes? then Leaves(s, step.worker)
    else if s.run.None? then (if step.Creates? && s.plan.status == Approved then s.(run := Some(Created())) else s)
    else
      var run := s.run.value;
      match step
      case Acquires(w, seconds) =>
        if w in s.claims || !CanAcquire(run, w, s.now) then s
        else
          var leased := s.(run := Some(Leased(run, w, s.now, seconds)));
          // At the gates and after publication the worker returns without doing anything.
          if AtGate(run.status) then leased else With(leased, w, Claim(LoadContext, run.status, 0))
      case Beats(w, seconds) => if w in s.claims
          && Holds(run, w, s.now) then s.(run := Some(Leased(run, w, s.now, seconds))) else s
      case Acts(w, fault, outcome) => if w in s.claims then Act(s, w, fault, outcome) else s
      case CancelRequested => s.(run := Some(run.(cancellation := true, version := run.version + 1)))
      case Resumes => WithRun(s, Resumed(run))
      case Revises(expectedVersion) => WithRun(s, Revised(run, expectedVersion))
      case DecidesPublication(context, approve, expectedVersion) =>
        WithRun(s, PublicationDecided(run, s.plan, s.required, context, approve, expectedVersion))
      case _ => s
  }

  function RunAll(s: State, steps: seq<Step>): State {
    if steps == [] then s else Next(RunAll(s, steps[..|steps| - 1]), steps[|steps| - 1])
  }

  predicate Initial(s: State) { Submitted(s.plan) && s.run.None? && s.claims == map[] }

  // What the history says.

  /** The stages reached since the last patch version was recorded. */
  function Since(history: seq<Entry>): seq<Status> {
    if history == [] then []
    else
      match history[|history| - 1]
      case Patched(_) => []
      case Reached(stage) => Since(history[..|history| - 1]) + [stage]
  }

  function LastPatch(history: seq<Entry>): nat {
    if history == [] then 0
    else match history[|history| - 1] case Patched(patch) => patch
        case Reached(_) => LastPatch(history[..|history| - 1])
  }

  /** The stages a run must have reached on its current patch to be in a status; `None` where nothing is asked. */
  function Passed(status: Status): Option<seq<Status>> {
    match status
    case SecurityReview => Some([SecurityReview])
    case Verifying => Some([SecurityReview, Verifying])
    case PackageBuilding => Some([SecurityReview, Verifying, PackageBuilding])
    case AwaitingPublicationApproval => Some([SecurityReview, Verifying, PackageBuilding, AwaitingPublicationApproval])
    case ReadyToPublish => Some([SecurityReview, Verifying, PackageBuilding, AwaitingPublicationApproval])
    case _ => None
  }

  // The invariant.

  ghost predicate RunSound(run: Run, required: int) {
    && run.patch == LastPatch(run.history)
    && (forall p: nat | Patched(p) in run.history :: p <= run.patch)
    && (Passed(run.status).Some? ==> run.patch > 0 && Since(run.history) == Passed(run.status).value)
    && (run.status == ReadyToPublish ==> |RoundApprovers(run.approvals, run.patch)| >= Threshold(required))
  }

  /** The stages a worker checkpoints, and those before it has a patch. */
  predicate WorkerStage(stage: Status) { AfterStage(stage) != Fail }
  predicate BeforePatch(stage: Status) {
    stage in {PolicyCheck, WorktreePreparing, PatchPlanning, PatchGenerating, PatchValidating}
  }

  ghost predicate StageSound(run: Run, base: nat, stage: Status) {
    && WorkerStage(stage)
    && (if stage == PolicyCheck then run.status == Requested
        else if stage == SecurityReview then run.status == PatchValidating && run.patch > 0 && Since(run.history) == []
        else AfterStage(run.status) == ToStage(stage))
    && (BeforePatch(stage) ==> base == run.patch)
  }

  /** What the row looks like to a worker that still owns the lease. */
  ghost predicate ClaimSound(run: Run, c: Claim) {
    && (c.pc == LoadContext ==> !AtGate(c.entry) && run.status == c.entry)
    && (c.pc == Restart ==> !AtGate(run.status) && c.base == run.patch)
    && (c.pc.ToStage? ==> StageSound(run, c.base, c.pc.stage))
    && (c.pc == RecordPatch ==> run.status == PatchValidating && c.base == run.patch)
  }

  predicate Owns(run: Run, w: WorkerId) { run.lease.Some? && run.lease.value.owner == w }

  ghost predicate Inv(s: State) {
    && Tallied(s.plan)
    && (s.run.None? ==> s.claims == map[])
    && (s.run.Some? ==>
          && s.plan.status == Approved && RunSound(s.run.value, s.required)
          && (forall w | w in s.claims && Owns(s.run.value, w) :: ClaimSound(s.run.value, s.claims[w]))
          && (DutiesSeparate(s.plan, s.required) ==>
                forall a <- s.run.value.approvals :: a.approve ==> a.actor !in AnyApprovers(s.plan.votes)))
  }

  // The store's writes keep the row sound.

  lemma Appended(history: seq<Entry>, e: Entry)
    ensures var longer := history + [e];
            && Since(longer) == (if e.Patched? then [] else Since(history) + [e.stage])
            && LastPatch(longer) == (if e.Patched? then e.patch else LastPatch(history))
            && forall p: nat :: Patched(p) in longer <==> Patched(p) in history || e == Patched(p)
  {
    var longer := history + [e];
    assert longer[..|longer| - 1] == history;
  }

  lemma PlainStatus(run: Run, next: Run, required: int)
    requires RunSound(run, required) && Passed(next.status).None?
    requires next.patch == run.patch && next.history == run.history && next.approvals == run.approvals
    ensures RunSound(next, required)
  {
  }

  /** Reaching a stage adds it to the stages passed on the current patch. */
  lemma StagePassed(run: Run, base: nat, stage: Status, required: int)
    requires RunSound(run, required) && StageSound(run, base, stage) && Passed(stage).Some?
    ensures run.patch > 0 && Since(run.history) + [stage] == Passed(stage).value && stage != ReadyToPublish
  {
  }

  lemma CheckpointSound(run: Run, w: WorkerId, now: int, c: Claim, required: int)
    requires RunSound(run, required) && c.pc.ToStage? && ClaimSound(run, c)
    ensures var r := Checkpointed(run, w, now, c.pc.stage);
            r.Ok? ==> RunSound(r.value, required) && ClaimSound(r.value, c.(pc := AfterStage(c.pc.stage)))
  {
    hide Permitted, Since, LastPatch, RoundApprovers;
    var stage := c.pc.stage;
    Appended(run.history, Reached(stage));
    if Passed(stage).Some? { StagePassed(run, c.base, stage, required); }
    NextStageSound(run, run.(status := stage, history := run.history + [Reached(stage)]), c);
    var r := Checkpointed(run, w, now, stage);
    if r.Ok? {
      SameClaim(run.(status := stage, history := run.history + [Reached(stage)]), r.value, c.(pc := AfterStage(stage)));
    }
    hide Passed, AfterStage, StageSound;
  }

  lemma NextStageSound(run: Run, next: Run, c: Claim)
    requires c.pc.ToStage? && ClaimSound(run, c) && next.status == c.pc.stage && next.patch == run.patch
    ensures ClaimSound(next, c.(pc := AfterStage(c.pc.stage)))
  {
    hide Since;
  }

  lemma SameClaim(run: Run, next: Run, c: Claim)
    requires ClaimSound(run, c) && next.status == run.status && next.patch == run.patch && next.history == run.history
    ensures ClaimSound(next, c)
  {
  }

  lemma PatchSound(run: Run, w: WorkerId, now: int, c: Claim, required: int)
    requires RunSound(run, required) && c.pc == RecordPatch && ClaimSound(run, c)
    ensures var r := PatchRecorded(run, w, now, c.base + 1);
            r.Ok? ==> RunSound(r.value, required) && ClaimSound(r.value, c.(pc := ToStage(SecurityReview)))
  {
    Appended(run.history, Patched(c.base + 1));
  }

  lemma DecisionSound(run: Run, plan: Plan, required: int, context: Context, approve: bool, expectedVersion: nat)
    requires RunSound(run, required)
    ensures var r := PublicationDecided(run, plan, required, context, approve, expectedVersion);
            r.Ok? ==>
              RunSound(r.value, required) && AtGate(run.status) && AtGate(r.value.status)
              && r.value.lease == run.lease
              && (forall a <- r.value.approvals ::
                    a in run.approvals || (a.approve ==> a.actor == context.actor && approve))
              && (approve && DutiesSeparate(plan, required) ==> context.actor !in AnyApprovers(plan.votes))
  {
  }

  /** A worker whose claim is not at its end does not own the lease of a run at the gate. */
  lemma NotAtGateWhileWorking(run: Run, c: Claim)
    requires ClaimSound(run, c) && AtGate(run.status)
    ensures c.pc == Release || c.pc == Fail
  {
  }

  // Every step keeps the invariant.

  ghost predicate Separate(s: State, run: Run) {
    DutiesSeparate(s.plan, s.required) ==>
      forall a <- run.approvals :: a.approve ==> a.actor !in AnyApprovers(s.plan.votes)
  }

  /** The row is written by (or for) `w`; nobody else owns it afterwards with a live claim. */
  lemma InvFrom(s: State, run: Run, claims: map<WorkerId, Claim>, w: WorkerId)
    requires Inv(s) && s.run.Some? && RunSound(run, s.required) && Separate(s, run)
    requires forall v | v in claims && v != w && Owns(run, v) :: ClaimSound(run, claims[v])
    requires w in claims && Owns(run, w) ==> ClaimSound(run, claims[w])
    ensures Inv(s.(run := Some(run), claims := claims))
  {
    hide RunSound, ClaimSound, Tallied;
  }

  lemma ActInv(s: State, w: WorkerId, fault: bool, outcome: Status)
    requires Inv(s) && w in s.claims && s.run.Some?
    ensures Inv(Act(s, w, fault, outcome))
  {
    hide Tallied;
    var c, run := s.claims[w], s.run.value;
    if c.pc == Fail {
      if Outcome(outcome) { EndInv(s, w, Completed(run, w, s.now, outcome)); }
    } else if fault {
      MoveInv(s, w, c.(pc := Fail));
    } else {
      match c.pc {
        case LoadContext =>
          MoveInv(s, w, c.(pc := if c.entry == Requested then ToStage(PolicyCheck) else Restart, base := run.patch));
        case Restart => RestartInv(s, w);
        case ToStage(_) => CheckpointInv(s, w);
        case RecordPatch => PatchInv(s, w);
        case Release => EndInv(s, w, Released(run, w, s.now));
      }
    }
  }

  lemma MoveInv(s: State, w: WorkerId, c: Claim)
    requires Inv(s) && s.run.Some? && (Owns(s.run.value, w) ==> ClaimSound(s.run.value, c))
    ensures Inv(With(s, w, c))
  {
    hide RunSound, ClaimSound, Tallied;
    InvFrom(s, s.run.value, s.claims[w := c], w);
  }

  lemma EndInv(s: State, w: WorkerId, r: Result<Run, StoreError>)
    requires Inv(s) && s.run.Some?
    requires r.Ok? ==> r.value.patch == s.run.value.patch && r.value.history == s.run.value.history
                       && r.value.approvals == s.run.value.approvals && r.value.lease.None?
                       && (Passed(r.value.status).None? || r.value.status == s.run.value.status)
    ensures Inv(Ends(s, w, r))
  {
    hide Tallied, ClaimSound;
    match r {
      case Err(_) => InvFrom(s, s.run.value, s.claims - {w}, w);
      case Ok(run) =>
        if Passed(run.status).None? { PlainStatus(s.run.value, run, s.required); }
        InvFrom(s, run, s.claims - {w}, w);
    }
  }

  lemma StoreInv(s: State, w: WorkerId, r: Result<Run, StoreError>, next: Pc)
    requires Inv(s) && w in s.claims && s.run.Some?
    requires r.Ok? ==>
        Holds(s.run.value, w, s.now) && r.value.lease == s.run.value.lease
        && r.value.approvals == s.run.value.approvals && RunSound(r.value, s.required)
        && ClaimSound(r.value, s.claims[w].(pc := next))
    ensures Inv(Stores(s, w, s.claims[w], r, next))
  {
    hide RunSound, Tallied, ClaimSound;
    match r {
      case Err(_) => FailSound(s.run.value, s.claims[w]); MoveInv(s, w, s.claims[w].(pc := Fail));
      case Ok(run) => InvFrom(s, run, s.claims[w := s.claims[w].(pc := next)], w);
    }
  }

  lemma FailSound(run: Run, c: Claim)
    ensures ClaimSound(run, c.(pc := Fail))
  {
  }

  lemma RestartInv(s: State, w: WorkerId)
    requires Inv(s) && w in s.claims && s.run.Some? && s.claims[w].pc == Restart
    ensures Inv(Stores(s, w, s.claims[w], Restarted(s.run.value, w, s.now), ToStage(PolicyCheck)))
  {
    hide Tallied;
    var run := s.run.value;
    var r := Restarted(run, w, s.now);
    if r.Ok? { PlainStatus(run, r.value, s.required); }
    StoreInv(s, w, r, ToStage(PolicyCheck));
  }

  lemma CheckpointInv(s: State, w: WorkerId)
    requires Inv(s) && w in s.claims && s.run.Some? && s.claims[w].pc.ToStage?
    ensures var stage := s.claims[w].pc.stage;
            Inv(Stores(s, w, s.claims[w], Checkpointed(s.run.value, w, s.now, stage), AfterStage(stage)))
  {
    hide Tallied, RunSound, ClaimSound, AfterStage;
    var run, c := s.run.value, s.claims[w];
    if Holds(run, w, s.now) { CheckpointSound(run, w, s.now, c, s.required); }
    StoreInv(s, w, Checkpointed(run, w, s.now, c.pc.stage), AfterStage(c.pc.stage));
  }

  lemma PatchInv(s: State, w: WorkerId)
    requires Inv(s) && w in s.claims && s.run.Some? && s.claims[w].pc == RecordPatch
    ensures var c := s.claims[w]; Inv(Stores(s, w, c, PatchRecorded(s.run.value, w, s.now, c.base + 1),
        ToStage(SecurityReview)))
  {
    hide Tallied, RunSound, ClaimSound;
    var run, c := s.run.value, s.claims[w];
    if Holds(run, w, s.now) { PatchSound(run, w, s.now, c, s.required); }
    StoreInv(s, w, PatchRecorded(run, w, s.now, c.base + 1), ToStage(SecurityReview));
  }

  /** A human write that takes the lease away. */
  lemma TakenInv(s: State, run: Run)
    requires Inv(s) && s.run.Some? && run.lease.None? && Passed(run.status).None?
    requires run.patch == s.run.value.patch && run.history == s.run.value.history
          && run.approvals == s.run.value.approvals
    ensures Inv(s.(run := Some(run)))
  {
    hide Tallied, ClaimSound;
    PlainStatus(s.run.value, run, s.required);
    InvFrom(s, run, s.claims, "");
  }

  /** A lease or a flag changes, and nothing a claim relies on. */
  lemma LeaseInv(s: State, run: Run, w: WorkerId)
    requires Inv(s) && s.run.Some? && run == s.run.value.(lease := run.lease, version := run.version,
        cancellation := run.cancellation)
    requires forall v | v in s.claims && Owns(run, v) :: Owns(s.run.value, v)
    ensures Inv(s.(run := Some(run)))
  {
    hide Tallied;
    forall v | v in s.claims && Owns(run, v) ensures ClaimSound(run, s.claims[v]) {
      assert ClaimSound(s.run.value, s.claims[v]);
    }
    hide RunSound, ClaimSound;
    SoundSame(s.run.value, run, s.required);
    InvFrom(s, run, s.claims, w);
  }

  lemma SoundSame(run: Run, next: Run, required: int)
    requires RunSound(run, required) && next == run.(lease := next.lease, version := next.version,
        cancellation := next.cancellation)
    ensures RunSound(next, required)
  {
  }

  lemma AcquireInv(s: State, w: WorkerId, seconds: int)
    requires Inv(s) && s.run.Some?
    ensures Inv(Next(s, Acquires(w, seconds)))
  {
    hide Tallied, RunSound;
    var run := s.run.value;
    if w !in s.claims && CanAcquire(run, w, s.now) {
      var leased := Leased(run, w, s.now, seconds);
      SoundSame(run, leased, s.required);
      var c := Claim(LoadContext, run.status, 0);
      InvFrom(s, leased, s.claims, w);
      if !AtGate(run.status) { InvFrom(s, leased, s.claims[w := c], w); }
    }
  }

  lemma PublicationInv(s: State, context: Context, approve: bool, expectedVersion: nat)
    requires Inv(s) && s.run.Some?
    ensures Inv(Next(s, DecidesPublication(context, approve, expectedVersion)))
  {
    var run := s.run.value;
    var r := PublicationDecided(run, s.plan, s.required, context, approve, expectedVersion);
    DecisionSound(run, s.plan, s.required, context, approve, expectedVersion);
    if r.Ok? {
      forall v | v in s.claims && Owns(r.value, v) ensures ClaimSound(r.value, s.claims[v]) {
        assert Owns(run, v);
        NotAtGateWhileWorking(run, s.claims[v]);
      }
      hide RunSound, ClaimSound, Tallied, PublicationDecided, DutiesSeparate;
      InvFrom(s, r.value, s.claims, "");
    }
  }

  lemma PlanInv(s: State, ballot: Ballot)
    requires Inv(s)
    ensures Inv(Next(s, DecidesPlan(ballot)))
  {
    CastTallied(s.plan, ballot);
    hide Tallied, RunSound, ClaimSound;
    if s.run.Some? { DecidedIsFrozen(s.plan, [ballot]); assert Cast(s.plan, ballot) == s.plan; }
  }

  lemma CreateInv(s: State)
    requires Inv(s)
    ensures Inv(Next(s, Creates))
  {
    hide Tallied;
  }

  lemma NextInv(s: State, step: Step)
    requires Inv(s)
    ensures Inv(Next(s, step))
  {
    hide Tallied, RunSound, ClaimSound;
    match step {
      case Tick(_) =>
      case DecidesPlan(ballot) => PlanInv(s, ballot);
      case Crashes(w) => if s.run.Some? { InvFrom(s, s.run.value, s.claims - {w}, w); }
      case Creates => CreateInv(s);
      case _ => if s.run.Some? { RunStepInv(s, step); }
    }
  }

  lemma RunStepInv(s: State, step: Step)
    requires Inv(s) && s.run.Some? && !step.Tick? && !step.DecidesPlan? && !step.Crashes? && !step.Creates?
    ensures Inv(Next(s, step))
  {
    hide Inv, Act, Permitted;
    var run := s.run.value;
    match step {
      case Acquires(w, seconds) => AcquireInv(s, w, seconds);
      case Beats(w, seconds) =>
        if w in s.claims && Holds(run, w, s.now) {
          LeaseInv(s, Leased(run, w, s.now, seconds), w);
        }
      case Acts(w, fault, outcome) => if w in s.claims { ActInv(s, w, fault, outcome); }
      case CancelRequested => LeaseInv(s, run.(cancellation := true, version := run.version + 1), "");
      case Resumes => if Resumed(run).Ok? { TakenInv(s, Resumed(run).value); }
      case Revises(v) => if Revised(run, v).Ok? { TakenInv(s, Revised(run, v).value); }
      case DecidesPublication(context, approve, v) => PublicationInv(s, context, approve, v);
      case _ =>
    }
  }

  lemma {:induction false} RunsKeepInv(s: State, steps: seq<Step>)
    requires Initial(s)
    ensures Inv(RunAll(s, steps))
  {
    hide Inv, Next;
    if steps == [] {
      InitialInv(s);
    } else {
      RunsKeepInv(s, steps[..|steps| - 1]);
      NextInv(RunAll(s, steps[..|steps| - 1]), steps[|steps| - 1]);
    }
  }

  lemma InitialInv(s: State)
    requires Initial(s)
    ensures Inv(s)
  {
    SubmittedTallied(s.plan);
  }

  lemma {:induction false} FixedParts(s: State, steps: seq<Step>)
    ensures var t := RunAll(s, steps);
            t.required == s.required && t.plan.requiredApprovals == s.plan.requiredApprovals
                && t.plan.version == s.plan.version
            && t.plan.risk == s.plan.risk
  {
    if steps != [] {
      FixedParts(s, steps[..|steps| - 1]);
      StepFixes(RunAll(s, steps[..|steps| - 1]), steps[|steps| - 1]);
    }
  }

  lemma StepFixes(s: State, step: Step)
    ensures var t := Next(s, step);
            t.required == s.required && t.plan.requiredApprovals == s.plan.requiredApprovals
                && t.plan.version == s.plan.version
            && t.plan.risk == s.plan.risk
  {
    hide Permitted, PublicationDecided, Resumed, Revised, Completed, Released, Restarted, Checkpointed,
        PatchRecorded, AfterStage;
  }

  /**
   * In every run, READY_TO_PUBLISH means at least the threshold of distinct approvers of the current
   * patch version, on a plan approved by exactly its required number, and a history whose stages
   * since that patch was recorded are the security review, the verification, the package and the gate.
   */
  lemma ReadyMeansReviewedAndApproved(s: State, steps: seq<Step>)
    requires Initial(s)
    ensures var t := RunAll(s, steps);
            t.run.Some? && t.run.value.status == ReadyToPublish ==>
              && |RoundApprovers(t.run.value.approvals, t.run.value.patch)| >= Threshold(s.required)
              && |Approvers(t.plan.votes, s.plan.version)| == Needed(s.plan)
              && t.run.value.patch == LastPatch(t.run.value.history) > 0
              && Since(t.run.value.history) == [SecurityReview, Verifying, PackageBuilding, AwaitingPublicationApproval]
  {
    RunsKeepInv(s, steps);
    FixedParts(s, steps);
  }

  /**
   * With a threshold above one, or high or critical risk, nobody who approved the plan ever approves a
   * publication round: the two groups stay disjoint in every reachable state.
   */
  lemma DutiesStaySeparate(s: State, steps: seq<Step>)
    requires Initial(s) && DutiesSeparate(s.plan, s.required)
    ensures var t := RunAll(s, steps);
            t.run.Some? ==> forall round: nat ::
                RoundApprovers(t.run.value.approvals, round) !! AnyApprovers(t.plan.votes)
  {
    RunsKeepInv(s, steps);
    FixedParts(s, steps);
  }

  /** A worker that no longer owns the lease changes nothing in the rows. */
  lemma StaleWorkerWritesNothing(s: State, w: WorkerId, fault: bool, outcome: Status)
    requires w in s.claims && s.run.Some? && !Holds(s.run.value, w, s.now)
    ensures Act(s, w, fault, outcome).run == s.run && Act(s, w, fault, outcome).plan == s.plan
  {
    hide Permitted, AfterStage;
  }

  /**
   * In every run: directly after an accepted rejection the recovery awaits approval again, however many
   * approvals it had; directly after an accepted approval it is ready to publish if and only if the
   * distinct approvers of the current patch now reach the threshold.
   */
  lemma DecisionDecides(s: State, steps: seq<Step>, context: Context, approve: bool, expectedVersion: nat)
    requires var t := RunAll(s, steps);
             t.run.Some? && PublicationDecided(t.run.value, t.plan, s.required, context, approve, expectedVersion).Ok?
    ensures var before := RunAll(s, steps).run.value;
            var after := RunAll(s, steps + [DecidesPublication(context, approve, expectedVersion)]).run;
            && after.Some?
            && (!approve ==> after.value.status == AwaitingPublicationApproval)
            && (approve ==>
                  (after.value.status == ReadyToPublish
                   <==> |RoundApprovers(before.approvals, before.patch) + {context.actor}| >= s.required))
  {
    hide *;
    DecisionStep(s, steps, DecidesPublication(context, approve, expectedVersion));
    var t := RunAll(s, steps);
    FixedParts(s, steps);
    PublicationDecisionOutcome(t.run.value, t.plan, s.required, context, approve, expectedVersion);
  }

  lemma DecisionStep(s: State, steps: seq<Step>, step: Step)
    requires step.DecidesPublication? && RunAll(s, steps).run.Some?
    ensures var t := RunAll(s, steps);
            var r :=
              PublicationDecided(t.run.value, t.plan, t.required, step.context, step.approve, step.expectedVersion);
            RunAll(s, steps + [step]).run == Some(if r.Ok? then r.value else t.run.value)
  {
    hide PublicationDecided;
    var longer := steps + [step];
    assert longer[..|longer| - 1] == steps && longer[|longer| - 1] == step;
  }
}
