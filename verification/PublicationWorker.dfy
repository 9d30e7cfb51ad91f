/** One worker's run of a publication, as the source's sequence of store and remote calls. */
module PublicationWorker {
  import opened Wrappers
  import opened PublicationLifecycle
  import opened PublicationStore
  import opened PublicationProtocol

  /** What ends a run: a failure that names its status, or any other error. */
  datatype Failure = Named(status: Status) | Other

  /** `classifyPublicationFailure`, without the cancellation and HTTP messages. */
  function Classify(failure: Failure, stage: Status): Status {
    match failure
    case Named(status) => status
    case Other => if stage == BranchPublishing then PushFailed
        else if stage == DraftPrCreating then PrCreationFailed else PublicationBlocked
  }

  /** The remote as the client sees it. */
  class Github {
    var base: string
    var head: Option<string>
    var pulls: seq<PullRequest>
    var nextNumber: nat

    constructor (tip: string)
      ensures base == tip && head == None && pulls == [] && nextNumber == 1
    {
      base, head, pulls, nextNumber := tip, None, [], 1;
    }

    /** Creates the head branch; an existing one is refused. */
    method CreateRef(commit: string) returns (created: bool)
      modifies this`head
      ensures created <==> old(head).None?
      ensures head == if created then Some(commit) else old(head)
    {
      if head.Some? { return false; }
      head := Some(commit);
      return true;
    }

    /** Opens a pull request from the head branch; a second open one, or a missing branch, is refused. */
    method CreatePullRequest() returns (r: Option<PullRequest>)
      modifies this`pulls, this`nextNumber
      ensures r.Some? <==> head.Some? && OpenPull(old(pulls)).None?
      ensures r.Some? ==>
          r.value == PullRequest(old(nextNumber), head.value, true, true)
          && pulls == old(pulls) + [r.value]
      ensures r.None? ==> pulls == old(pulls)
    {
      if head.None? || OpenPull(pulls).Some? { return None; }
      var pull := PullRequest(nextNumber, head.value, true, true);
      pulls, nextNumber := pulls + [pull], nextNumber + 1;
      return Some(pull);
    }
  }

  /** The first of two that is there. */
  function Either<T>(first: Option<T>, second: Option<T>): Option<T> { if first.Some? then first else second }

  /**
   * Afterwards the branch is at the commit, or it was elsewhere before and was left alone. `rival` is
   * what somebody else creates between the read and the creation, which is then refused and reread.
   */
  method EnsurePublicationBranch(github: Github, commit: string, rival: Option<string>)
      returns (r: Result<bool, Failure>)
    modifies github`head
    ensures var found := Either(old(github.head), rival);
            && (r.Ok? <==> found.None? || found == Some(commit))
            && github.head == Either(found, Some(commit))
            && (r.Ok? ==> (r.value <==> found.Some?))
    ensures r.Err? ==> r.error == Named(PushFailed)
  {
    if github.head.Some? {
      if github.head.value == commit { return Ok(true); }
      return Err(Named(PushFailed));
    }
    if rival.Some? { github.head := rival; }
    var created := github.CreateRef(commit);
    if created { return Ok(false); }
    if github.head == Some(commit) { return Ok(true); }
    return Err(Named(PushFailed));
  }

  /**
   * An open pull request is reused if it is for the commit and refused if not; with none, one is opened
   * from the head branch. `rival` is one that somebody else opens between the lookup and the creation,
   * which is then refused and looked up again.
   */
  method EnsureDraftPullRequest(github: Github, baseCommit: string, commit: string, rival: Option<PullRequest>)
    returns (r: Result<PullRequest, Failure>)
    requires rival.Some? ==> rival.value.isOpen
    modifies github`pulls, github`nextNumber
    ensures var found := Either(OpenPull(old(github.pulls)), rival);
            && (r.Ok? <==> github.base == baseCommit
                           && if found.Some? then PullMatches(found.value, commit) else github.head.Some?)
            && (r.Ok? ==> r.value.isOpen && r.value in github.pulls)
            && (r.Ok? ==> if found.Some? then r.value == found.value
                          else r.value.baseMatches && Some(r.value.headSha) == github.head)
    ensures r.Ok? && github.head == Some(commit) ==> PullMatches(r.value, commit)
    ensures r.Ok? ==> github.pulls == old(github.pulls) + if OpenPull(old(github.pulls)).Some? then [] else [r.value]
    ensures r.Err? ==> r.error == Named(if github.base != baseCommit then BaseBranchStale else PrCreationFailed)
    ensures r.Err? ==>
              github.pulls == old(github.pulls) || (rival.Some? && github.pulls == old(github.pulls) + [rival.value])
  {
    if github.base != baseCommit { return Err(Named(BaseBranchStale)); }
    OpenIsMember(github.pulls);
    var existing := OpenPull(github.pulls);
    if existing.Some? {
      if PullMatches(existing.value, commit) { return Ok(existing.value); }
      return Err(Named(PrCreationFailed));
    }
    if rival.Some? {
      OpenIsLast(github.pulls, rival.value);
      github.pulls := github.pulls + [rival.value];
    }
    var created := github.CreatePullRequest();
    if created.Some? { return Ok(created.value); }
    var raced := OpenPull(github.pulls);
    if raced.Some? && PullMatches(raced.value, commit) { return Ok(raced.value); }
    return Err(Named(PrCreationFailed));
  }

  lemma {:induction false} OpenIsLast(pulls: seq<PullRequest>, pull: PullRequest)
    requires OpenPull(pulls).None? && pull.isOpen
    ensures OpenPull(pulls + [pull]) == Some(pull)
  {
    if pulls != [] {
      assert (pulls + [pull])[1..] == pulls[1..] + [pull];
      OpenIsLast(pulls[1..], pull);
    }
  }

  lemma {:induction false} OpenIsMember(pulls: seq<PullRequest>)
    ensures OpenPull(pulls).Some? ==> OpenPull(pulls).value in pulls && OpenPull(pulls).value.isOpen
  {
    if pulls != [] && !pulls[0].isOpen { OpenIsMember(pulls[1..]); }
  }

  /** What the loaded bundle shows about the approved package, check by check. */
  datatype Evidence = Evidence(recoveryReady: bool, patchCurrent: bool, baseCurrent: bool, digestsAgree: bool,
                               baseBranchAllowed: bool, prefixKept: bool, headIsBase: bool, unsafeWrites: bool,
                               approved: bool, verificationPassed: bool, reviewAllows: bool)
  {
    /** Everything about the package is in order. */
    predicate InOrder() {
      && recoveryReady && patchCurrent && baseCurrent && digestsAgree && baseBranchAllowed && prefixKept && !headIsBase
      && !unsafeWrites && approved && verificationPassed && reviewAllows
    }
  }

  /** A check of the bundle and the status its failure gives. */
  datatype Check = Check(passes: bool, status: Status)

  /** The twelve checks in their order. */
  function Checks(e: Evidence, attempts: nat, maximumAttempts: nat): seq<Check> {
    [Check(e.recoveryReady, PublicationBlocked), Check(e.patchCurrent, PublicationBlocked),
     Check(e.baseCurrent, BaseBranchStale), Check(e.digestsAgree, PublicationBlocked),
     Check(e.baseBranchAllowed, SecurityBlocked), Check(e.prefixKept, SecurityBlocked),
     Check(!e.headIsBase, SecurityBlocked), Check(!e.unsafeWrites, SecurityBlocked),
     Check(attempts <= maximumAttempts, PublicationBlocked), Check(e.approved, PublicationBlocked),
     Check(e.verificationPassed, PublicationBlocked), Check(e.reviewAllows, SecurityBlocked)]
  }

  /** The first check that fails is at `i`. */
  predicate FailsFirst(checks: seq<Check>, i: nat) {
    i < |checks| && !checks[i].passes && forall j | 0 <= j < i :: checks[j].passes
  }

  /** `verifyPublicationBundle`: the status of the first check that fails. */
  function Rejection(checks: seq<Check>): (r: Option<Status>)
    ensures r.None? <==> forall c <- checks :: c.passes
    ensures r.Some? ==> exists i: nat :: FailsFirst(checks, i) && r == Some(checks[i].status)
  {
    if checks == [] then None
    else if !checks[0].passes then
      assert FailsFirst(checks, 0);
      Some(checks[0].status)
    else
      var r := Rejection(checks[1..]);
      assert checks == [checks[0]] + checks[1..];
      FailsLater(checks);
      r
  }

  lemma FailsLater(checks: seq<Check>)
    requires checks != [] && checks[0].passes
    ensures forall i: nat :: FailsFirst(checks[1..], i) ==> FailsFirst(checks, i + 1) && checks[i + 1] == checks[1..][i]
  {
    forall i: nat | FailsFirst(checks[1..], i) ensures FailsFirst(checks, i + 1) {
      assert forall j | 0 < j <= i :: checks[j] == checks[1..][j - 1];
    }
  }

  /** The bundle is accepted if and only if all twelve facts hold, the attempt limit included. */
  lemma AcceptedIff(e: Evidence, attempts: nat, maximumAttempts: nat)
    ensures Rejection(Checks(e, attempts, maximumAttempts)).None?
            <==> && e.recoveryReady && e.patchCurrent && e.baseCurrent && e.digestsAgree && e.baseBranchAllowed
                 && e.prefixKept && !e.headIsBase && !e.unsafeWrites && attempts <= maximumAttempts && e.approved
                 && e.verificationPassed && e.reviewAllows
    ensures Rejection(Checks(e, attempts, maximumAttempts)).None? <==> e.InOrder() && attempts <= maximumAttempts
  {
    var c := Checks(e, attempts, maximumAttempts);
    if Rejection(c).None? {
      assert c[0] in c && c[1] in c && c[2] in c && c[3] in c && c[4] in c && c[5] in c;
      assert c[6] in c && c[7] in c && c[8] in c && c[9] in c && c[10] in c && c[11] in c;
    }
  }

  lemma RejectionFrom(checks: seq<Check>, i: nat)
    requires i < |checks|
    ensures Rejection(checks[i..]) == if checks[i].passes then Rejection(checks[i + 1..]) else Some(checks[i].status)
  {
    assert checks[i..][0] == checks[i] && checks[i..][1..] == checks[i + 1..];
  }

  lemma ThreeChecks(c: seq<Check>, i: nat)
    requires i + 3 <= |c|
    ensures Rejection(c[i..])
         == if !c[i].passes then Some(c[i].status) else if !c[i + 1].passes then Some(c[i + 1].status)
            else if !c[i + 2].passes then Some(c[i + 2].status) else Rejection(c[i + 3..])
  {
    hide Rejection;
    RejectionFrom(c, i);
    RejectionFrom(c, i + 1);
    RejectionFrom(c, i + 2);
  }

  lemma SixChecks(c: seq<Check>, i: nat)
    requires i + 6 <= |c|
    ensures Rejection(c[i..])
         == if !c[i].passes then Some(c[i].status) else if !c[i + 1].passes then Some(c[i + 1].status)
            else if !c[i + 2].passes then Some(c[i + 2].status) else if !c[i + 3].passes then Some(c[i + 3].status)
            else if !c[i + 4].passes then Some(c[i + 4].status) else if !c[i + 5].passes then Some(c[i + 5].status)
            else Rejection(c[i + 6..])
  {
    hide Rejection;
    ThreeChecks(c, i);
    ThreeChecks(c, i + 3);
  }

  lemma TwelveChecks(c: seq<Check>)
    requires |c| == 12
    ensures Rejection(c) ==
            if !c[0].passes then Some(c[0].status)
            else if !c[1].passes then Some(c[1].status)
            else if !c[2].passes then Some(c[2].status)
            else if !c[3].passes then Some(c[3].status)
            else if !c[4].passes then Some(c[4].status)
            else if !c[5].passes then Some(c[5].status)
            else if !c[6].passes then Some(c[6].status)
            else if !c[7].passes then Some(c[7].status)
            else if !c[8].passes then Some(c[8].status)
            else if !c[9].passes then Some(c[9].status)
            else if !c[10].passes then Some(c[10].status)
            else if !c[11].passes then Some(c[11].status)
            else None
  {
    hide Rejection;
    SixChecks(c, 0);
    SixChecks(c, 6);
    NoRejection();
    assert c[0..] == c && c[12..] == [];
  }

  /** The status given by the first fact that fails, fact by fact. */
  lemma RejectedBy(e: Evidence, attempts: nat, maximumAttempts: nat)
    ensures Rejection(Checks(e, attempts, maximumAttempts)) ==
            if !e.recoveryReady || !e.patchCurrent then Some(PublicationBlocked)
            else if !e.baseCurrent then Some(BaseBranchStale)
            else if !e.digestsAgree then Some(PublicationBlocked)
            else if !e.baseBranchAllowed || !e.prefixKept || e.headIsBase || e.unsafeWrites then Some(SecurityBlocked)
            else if attempts > maximumAttempts || !e.approved || !e.verificationPassed then Some(PublicationBlocked)
            else if !e.reviewAllows then Some(SecurityBlocked)
            else None
  {
    hide Rejection;
    TwelveChecks(Checks(e, attempts, maximumAttempts));
  }

  lemma NoRejection()
    ensures Rejection([]) == None
  {
  }

  /** Its failures are ones that can be persisted. */
  lemma RejectionStatus(e: Evidence, attempts: nat, maximumAttempts: nat)
    ensures var r := Rejection(Checks(e, attempts, maximumAttempts)); r.Some? ==> FailureStatus(r.value)
  {
    assert forall c <- Checks(e, attempts, maximumAttempts) :: FailureStatus(c.status);
  }

  /**
   * What a run is given besides the row: limits, evidence of the bundle, what the bundle
   * materializes to, and what somebody else creates on the remote meanwhile.
   */
  datatype Job = Job(maximumAttempts: nat, baseCommit: string, evidence: Evidence, tree: string, commit: string,
                     leaseSeconds: int, rivalHead: Option<string>, rivalPull: Option<PullRequest>)

  /** Rows and branch after a run: nothing insert-once or create-only was changed. */
  twostate predicate Keeps(rows: Rows, github: Github, rival: Option<string>)
    reads rows, github
  {
    && RowsAgree(rows.View())
    && (old(rows.published).Some? ==> rows.published == old(rows.published))
    && (old(github.head).Some? ==> github.head == old(github.head))
    && (old(rows.record).Some? ==> rows.record == old(rows.record))
    && (old(github.head).None? && github.head.Some?
        ==> github.head == rival || IsPublished(rows.View(), github.head.value))
  }

  /** `checkControl`. */
  method CheckControl(rows: Rows, worker: WorkerId, now: int, leaseSeconds: int) returns (r: Result<(), Failure>)
    modifies rows`lease
    ensures r.Ok? ==> rows.View() == old(rows.View()).(lease := rows.lease)
    ensures r.Err? ==> rows.View() == old(rows.View()).(lease := rows.lease)
  {
    var held := rows.AssertLease(worker, now);
    if !held { return Err(Other); }
    rows.lease := Some(Lease(worker, now + LeaseMillis(leaseSeconds)));
    if rows.cancellation { return Err(Other); }
    return Ok(());
  }

  /** Policy check and materialization: up to a row that has its commit. */
  method PrepareCommit(rows: Rows, github: Github, worker: WorkerId, now: int, entry: Status, job: Job)
    returns (r: Result<string, Failure>, stage: Status)
    requires RowsAgree(rows.View()) && entry == rows.status && Holds(rows.View(), worker, now)
    modifies rows
    ensures RowsAgree(rows.View()) && rows.record == old(rows.record)
        && (old(rows.published).Some? ==> rows.published == old(rows.published))
    ensures r.Ok? ==> IsPublished(rows.View(), r.value)
    ensures r.Err? && r.error.Named? ==> FailureStatus(r.error.status)
    ensures r.Ok? ==> job.evidence.InOrder() && old(rows.attempts) <= job.maximumAttempts
    ensures var rejection := Rejection(Checks(job.evidence, old(rows.attempts), job.maximumAttempts));
            rejection.Some? ==> r == Err(Named(rejection.value)) && rows.published == old(rows.published)
  {
    hide Checks, Rejection, Materialized, FailureStatus, Evidence.InOrder;
    KnownFailures();
    AcceptedIff(job.evidence, rows.attempts, job.maximumAttempts);
    PolicyCheckStarts(rows.View(), worker, now);
    stage := PolicyCheck;
    if entry == PublicationRequested {
      AdvanceKeeps(rows.View(), worker, now, PolicyCheck);
      var started := rows.AdvancePublication(worker, now, PolicyCheck);
      if started.Err? { return Err(Other), stage; }
    }
    var rejection := Rejection(Checks(job.evidence, rows.attempts, job.maximumAttempts));
    RejectionStatus(job.evidence, rows.attempts, job.maximumAttempts);
    if rejection.Some? { return Err(Named(rejection.value)), stage; }
    var bundle := Bundle(rows.tree, rows.commit, rows.published.Some?);
    var control := CheckControl(rows, worker, now, job.leaseSeconds);
    if control.Err? { return Err(Other), stage; }
    if Stage(entry) < 2 {
      AdvanceKeeps(rows.View(), worker, now, CommitMaterializing);
      var checked := rows.AdvancePublication(worker, now, CommitMaterializing);
      if checked.Err? { return Err(Other), stage; }
    }
    stage := CommitMaterializing;
    if Stage(entry) < 3 {
      if github.base != job.baseCommit { return Err(Named(BaseBranchStale)), stage; }
      MaterializeKeeps(rows.View(), worker, now, job.tree, job.commit);
      var recorded := rows.RecordMaterialization(worker, now, job.tree, job.commit);
      if recorded.Err? { return Err(Other), stage; }
      return Ok(job.commit), stage;
    }
    if bundle.commit.None? || bundle.tree.None? || !bundle.materialized {
      return Err(Named(PublicationBlocked)), stage;
    }
    return Ok(bundle.commit.value), stage;
  }

  lemma PolicyCheckStarts(db: Db, worker: WorkerId, now: int)
    requires Holds(db, worker, now)
    ensures db.status == PublicationRequested ==> Advanced(db, worker, now, PolicyCheck).Ok?
    ensures var r := Advanced(db, worker, now, PolicyCheck);
            r.Ok? ==> r.value.attempts == db.attempts && r.value.published == db.published
  {
  }

  lemma KnownFailures()
    ensures FailureStatus(PublicationBlocked) && FailureStatus(BaseBranchStale)
  {
  }

  /** A fenced status change, with the failure the worker sees. */
  method Advance(rows: Rows, worker: WorkerId, now: int, to: Status) returns (r: Result<(), Failure>)
    requires RowsAgree(rows.View()) && (PastCommit(to) ==> rows.published.Some?)
    modifies rows
    ensures RowsAgree(rows.View()) && rows.published == old(rows.published) && rows.record == old(rows.record)
    ensures r.Err? ==> r.error == Other
  {
    AdvanceKeeps(rows.View(), worker, now, to);
    var advanced := rows.AdvancePublication(worker, now, to);
    if advanced.Err? { return Err(Other); }
    return Ok(());
  }

  method Control(rows: Rows, worker: WorkerId, now: int, leaseSeconds: int) returns (r: Result<(), Failure>)
    requires RowsAgree(rows.View())
    modifies rows
    ensures RowsAgree(rows.View()) && rows.published == old(rows.published) && rows.record == old(rows.record)
    ensures r.Err? ==> r.error == Other
  {
    r := CheckControl(rows, worker, now, leaseSeconds);
    if r.Err? { r := Err(Other); }
  }

  /** The branch: afterwards it is at the commit. */
  method PublishBranch(rows: Rows, github: Github, worker: WorkerId, now: int, entry: Status, job: Job, commit: string)
    returns (r: Result<(), Failure>, stage: Status)
    requires RowsAgree(rows.View()) && IsPublished(rows.View(), commit)
    modifies rows, github`head
    ensures RowsAgree(rows.View()) && rows.published == old(rows.published) && rows.record == old(rows.record)
    ensures github.head == old(github.head) || (old(github.head).None? && github.head in {Some(commit), job.rivalHead})
    ensures r.Ok? ==> github.head == Some(commit)
    ensures r.Err? && r.error.Named? ==> FailureStatus(r.error.status)
  {
    hide RowsAgree;
    stage := CommitMaterializing;
    r := Control(rows, worker, now, job.leaseSeconds);
    if r.Err? { return; }
    stage := BranchPublishing;
    if entry == PushFailed {
      r := Advance(rows, worker, now, BranchPublishing);
      if r.Err? { return; }
    }
    var branch := EnsurePublicationBranch(github, commit, job.rivalHead);
    if branch.Err? { return Err(branch.error), stage; }
    if Stage(entry) < 4 {
      r := Advance(rows, worker, now, DraftPrCreating);
      if r.Err? { return; }
    }
    r := Control(rows, worker, now, job.leaseSeconds);
  }

  /** Branch and pull request: from a row that has its commit to monitoring. */
  method PublishCommit(rows: Rows, github: Github, worker: WorkerId, now: int, entry: Status, job: Job, commit: string)
    returns (r: Result<nat, Failure>, stage: Status)
    requires RowsAgree(rows.View()) && IsPublished(rows.View(), commit)
          && (job.rivalPull.Some? ==> job.rivalPull.value.isOpen)
    modifies rows, github
    ensures RowsAgree(rows.View()) && rows.published == old(rows.published)
    ensures old(rows.record).Some? ==> rows.record == old(rows.record)
    ensures github.head == old(github.head) || (old(github.head).None? && github.head in {Some(commit), job.rivalHead})
    ensures r.Ok? ==> rows.status == CiMonitoring && github.head == Some(commit) && rows.number == Some(r.value)
                      && exists p <- github.pulls :: p.number == r.value && PullMatches(p, commit)
    ensures r.Ok? ==> github.base == job.baseCommit && rows.lease.None?
    ensures r.Err? && r.error.Named? ==> FailureStatus(r.error.status)
  {
    hide RowsAgree, Recorded;
    var branch;
    branch, stage := PublishBranch(rows, github, worker, now, entry, job, commit);
    if branch.Err? { return Err(branch.error), stage; }
    stage := DraftPrCreating;
    if entry == PrCreationFailed {
      var redrafted := Advance(rows, worker, now, DraftPrCreating);
      if redrafted.Err? { return Err(Other), stage; }
    }
    var pull := EnsureDraftPullRequest(github, job.baseCommit, commit, job.rivalPull);
    if pull.Err? { return Err(pull.error), stage; }
    RecordKeeps(rows.View(), worker, now, pull.value.number, pull.value.headSha);
    RecordedRow(rows.View(), worker, now, pull.value.number, pull.value.headSha);
    var done := rows.RecordPullRequest(worker, now, pull.value.number, pull.value.headSha);
    if done.Err? { return Err(Other), stage; }
    return Ok(pull.value.number), stage;
  }

  lemma RecordedRow(db: Db, w: WorkerId, now: int, number: nat, headSha: string)
    ensures var r := Recorded(db, w, now, number, headSha);
            r.Ok? ==> r.value.status == CiMonitoring && r.value.lease.None? && r.value.number == Some(number)
  {
  }

  /**
   * The whole run: claim, prepare, publish, and on an error persist the classified failure. Whatever
   * happens, the published commit, the branch and the pull request record are never changed once they
   * exist, and a new branch is at the published commit or is the rival's. A run that reports success was
   * made on a package in order, within the attempt limit and on an unmoved base, and left the row in
   * monitoring and released, the branch at the commit and a pull request for it. A rejected package gives
   * the status of its first failing check, and nothing is published.
   */
  method ProcessPublication(rows: Rows, github: Github, worker: WorkerId, now: int, job: Job)
    returns (r: Option<Result<(string, nat), Status>>)
    requires RowsAgree(rows.View()) && (job.rivalPull.Some? ==> job.rivalPull.value.isOpen)
    modifies rows, github
    ensures r.None? <==> !old(Claimable(rows.View(), worker, now))
    ensures r.None? ==> rows.View() == old(rows.View())
    ensures Keeps(rows, github, job.rivalHead)
    ensures r.Some? && r.value.Ok? ==>
              var (commit, number) := r.value.value;
              && rows.status == CiMonitoring && IsPublished(rows.View(), commit) && github.head == Some(commit)
              && rows.number == Some(number) && exists p <- github.pulls :: p.number == number && PullMatches(p, commit)
    ensures r.Some? && r.value.Ok? ==>
              && job.evidence.InOrder() && old(rows.attempts) + 1 <= job.maximumAttempts
              && github.base == job.baseCommit && rows.lease.None?
    ensures var rejection := Rejection(Checks(job.evidence, old(rows.attempts) + 1, job.maximumAttempts));
            r.Some? && rejection.Some? ==>
              && r.value == Err(rejection.value) && rows.published == old(rows.published)
              && github.head == old(github.head) && github.pulls == old(github.pulls)
    ensures r.Some? && r.value.Err? ==>
              || (rows.status == r.value.error && rows.lease.None?)
              || !Holds(rows.View(), worker, now) || !Permitted(rows.status, r.value.error)
  {
    hide Checks, Rejection, Evidence.InOrder;
    ClaimedAgrees(rows.View(), worker, now, job.leaseSeconds);
    var envelope := rows.ClaimPublication(worker, now, job.leaseSeconds);
    if envelope.None? { return None; }
    var commit, stage := PrepareCommit(rows, github, worker, now, envelope.value.0, job);
    var failure: Failure;
    if commit.Ok? {
      var number: Result<nat, Failure>;
      number, stage := PublishCommit(rows, github, worker, now, envelope.value.0, job, commit.value);
      if number.Ok? { return Some(Ok((commit.value, number.value))); }
      failure := number.error;
    } else {
      failure := commit.error;
    }
    var status := Classify(failure, stage);
    FailKeeps(rows.View(), worker, now, status);
    var persisted := rows.FailPublication(worker, now, status);
    return Some(Err(status));
  }
}
