/**
 * Retry after crashes: whatever happened before, a failure-free run from any claimable status ends
 * with the same commit, branch and pull request as a run that never crashed.
 */
module PublicationRetry {
  import opened Wrappers
  import opened PublicationLifecycle
  import opened PublicationStore
  import opened PublicationProtocol

  /** The tree and commit the unchanged bundle materializes to, and the next free pull request number. */
  datatype Target = Target(tree: string, commit: string, number: nat)

  /** A step of a run whose bundle, base and remote nobody else touches; faults, crashes and takeovers are allowed. */
  predicate Quiet(target: Target, step: Step) {
    match step
    case Tick(_) => true
    case Claims(_, _) => true
    case Crashes(_) => true
    case Beats(_, _) => true
    case Acts(_, choice) => choice.tree == target.tree && choice.commit == target.commit
    case _ => false
  }

  /** A fresh publication on a remote without its branch. */
  predicate Fresh(cfg: Config, target: Target, s: State) {
    Initial(s) && s.remote == Remote(cfg.baseCommit, None, [], target.number)
  }

  function TargetPull(target: Target): PullRequest { PullRequest(target.number, target.commit, true, true) }

  /** What quiet runs keep: everything that exists is what the target says. */
  ghost predicate Shared(cfg: Config, target: Target, db: Db, remote: Remote) {
    && remote.base == cfg.baseCommit && !db.cancellation
    && (db.published.Some? ==> db.published.value == PublishedCommit(target.tree, target.commit))
    && (remote.head.Some? ==> remote.head.value == target.commit)
    && (if remote.pulls == [] then remote.nextNumber == target.number
        else remote.pulls == [TargetPull(target)] && remote.head.Some?)
    && (db.record.Some? ==> db.record.value.number == target.number)
  }

  ghost predicate ClaimOnTarget(target: Target, c: Claim) {
    && (c.pc == RecordCommit ==> c.tree == target.tree && c.commit == target.commit)
    && (c.pc == RecordPull ==> c.number == target.number)
  }

  ghost predicate OnTarget(cfg: Config, target: Target, s: State) {
    Shared(cfg, target, s.db, s.remote) && forall w | w in s.claims :: ClaimOnTarget(target, s.claims[w])
  }

  lemma OpenTarget(target: Target, pulls: seq<PullRequest>)
    requires pulls == [] || pulls == [TargetPull(target)]
    ensures OpenPull(pulls) == if pulls == [] then None else Some(TargetPull(target))
  {
  }

  lemma OnTargetFrom(cfg: Config, target: Target, s: State, t: State, w: WorkerId)
    requires OnTarget(cfg, target, s) && Shared(cfg, target, t.db, t.remote)
    requires forall v | v in t.claims && v != w :: v in s.claims && t.claims[v] == s.claims[v]
    requires w in t.claims ==> ClaimOnTarget(target, t.claims[w])
    ensures OnTarget(cfg, target, t)
  {
    hide Shared;
    forall v | v in t.claims ensures ClaimOnTarget(target, t.claims[v]) { }
  }

  /** Status, lease, version and attempts are no part of the target. */
  lemma SharedSame(cfg: Config, target: Target, db: Db, next: Db, remote: Remote)
    requires Shared(cfg, target, db, remote)
    requires next.published == db.published && next.record == db.record && next.cancellation == db.cancellation
    ensures Shared(cfg, target, next, remote)
  {
  }

  lemma StoresOnTarget(cfg: Config, target: Target, s: State, w: WorkerId, r: Result<Db, StoreError>, next: Pc)
    requires OnTarget(cfg, target, s) && w in s.claims && next != RecordCommit && next != RecordPull
    requires r.Ok? ==> Shared(cfg, target, r.value, s.remote)
    ensures OnTarget(cfg, target, Stores(s, w, s.claims[w], r, next))
  {
    hide Shared;
    OnTargetFrom(cfg, target, s, Stores(s, w, s.claims[w], r, next), w);
  }

  lemma AdvancesOnTarget(cfg: Config, target: Target, s: State, w: WorkerId, to: Status, next: Pc)
    requires OnTarget(cfg, target, s) && w in s.claims && next != RecordCommit && next != RecordPull
    ensures OnTarget(cfg, target, Stores(s, w, s.claims[w], Advanced(s.db, w, s.now, to), next))
  {
    hide Shared;
    var r := Advanced(s.db, w, s.now, to);
    if r.Ok? { SharedSame(cfg, target, s.db, r.value, s.remote); }
    StoresOnTarget(cfg, target, s, w, r, next);
  }

  lemma MovesOnTarget(cfg: Config, target: Target, s: State, w: WorkerId, c: Claim)
    requires OnTarget(cfg, target, s) && ClaimOnTarget(target, c)
    ensures OnTarget(cfg, target, With(s, w, c))
  {
    hide Shared;
    OnTargetFrom(cfg, target, s, With(s, w, c), w);
  }

  /** The steps that write the row. */
  lemma StoreOnTarget(cfg: Config, target: Target, s: State, w: WorkerId, choice: Choice)
    requires OnTarget(cfg, target, s) && w in s.claims && !choice.fault
    requires s.claims[w].pc in {StartPolicy, StartMaterializing, RecordCommit, RetryBranch, StartDraft, RetryDraft,
        Control1, Control2, Control3}
    ensures OnTarget(cfg, target, Act(cfg, s, w, choice))
  {
    hide Shared, Advanced, Stores, With, OnTarget;
    var c := s.claims[w];
    match c.pc {
      case StartPolicy =>
        AdvancesOnTarget(cfg, target, s, w, PolicyCheck, Load);
        MovesOnTarget(cfg, target, s, w, c.(pc := Load));
      case StartMaterializing =>
        AdvancesOnTarget(cfg, target, s, w, CommitMaterializing, CheckBase);
        MovesOnTarget(cfg, target, s, w, c.(pc := if Stage(c.entry) < 3 then CheckBase else VerifyExisting));
      case RecordCommit => CommitOnTarget(cfg, target, s, w);
      case RetryBranch =>
        AdvancesOnTarget(cfg, target, s, w, BranchPublishing, ReadHead);
        MovesOnTarget(cfg, target, s, w, c.(pc := ReadHead));
      case StartDraft =>
        AdvancesOnTarget(cfg, target, s, w, DraftPrCreating, Control3);
        MovesOnTarget(cfg, target, s, w, c.(pc := Control3));
      case RetryDraft =>
        AdvancesOnTarget(cfg, target, s, w, DraftPrCreating, CheckBaseAgain);
        MovesOnTarget(cfg, target, s, w, c.(pc := CheckBaseAgain));
      case Control1 => ControlOnTarget(cfg, target, s, w, choice.seconds, StartMaterializing);
      case Control2 => ControlOnTarget(cfg, target, s, w, choice.seconds, RetryBranch);
      case Control3 => ControlOnTarget(cfg, target, s, w, choice.seconds, RetryDraft);
      case _ =>
    }
  }

  lemma CommitOnTarget(cfg: Config, target: Target, s: State, w: WorkerId)
    requires OnTarget(cfg, target, s) && w in s.claims && s.claims[w].pc == RecordCommit
    ensures var c := s.claims[w];
            OnTarget(cfg, target, Stores(s, w, c, Materialized(s.db, w, s.now, c.tree, c.commit), Control2))
  {
    hide Stores;
    var c := s.claims[w];
    assert ClaimOnTarget(target, c);
    StoresOnTarget(cfg, target, s, w, Materialized(s.db, w, s.now, c.tree, c.commit), Control2);
  }

  lemma ControlOnTarget(cfg: Config, target: Target, s: State, w: WorkerId, seconds: int, next: Pc)
    requires OnTarget(cfg, target, s) && w in s.claims && next != RecordCommit && next != RecordPull
    ensures OnTarget(cfg, target, Controls(s, w, s.claims[w], seconds, next))
  {
    hide Shared;
    var r := Beaten(s.db, w, s.now, seconds);
    if r.Ok? { SharedSame(cfg, target, s.db, r.value, s.remote); }
    OnTargetFrom(cfg, target, s, Controls(s, w, s.claims[w], seconds, next), w);
  }

  /** The step that looks at the head branch. */
  lemma HeadOnTarget(cfg: Config, target: Target, s: State, w: WorkerId, otherwise: Pc)
    requires OnTarget(cfg, target, s) && w in s.claims && (otherwise == CreateHead || otherwise == Failing)
    ensures OnTarget(cfg, target, ReadsHead(s, w, s.claims[w], otherwise))
  {
    hide Shared;
    OnTargetFrom(cfg, target, s, ReadsHead(s, w, s.claims[w], otherwise), w);
  }

  /** The step that creates it. */
  lemma CreateHeadOnTarget(cfg: Config, target: Target, s: State, w: WorkerId, lost: bool)
    requires Inv(cfg, s) && OnTarget(cfg, target, s) && w in s.claims && s.claims[w].pc == CreateHead
    ensures OnTarget(cfg, target, CreatesHead(s, w, s.claims[w], lost))
  {
    InvClaim(cfg, s, w);
    hide Inv, RowsAgree;
    OnTargetFrom(cfg, target, s, CreatesHead(s, w, s.claims[w], lost), w);
  }

  /** The step that looks for the pull request. */
  lemma PullOnTarget(cfg: Config, target: Target, s: State, w: WorkerId, otherwise: Pc)
    requires OnTarget(cfg, target, s) && w in s.claims && (otherwise == CreatePull || otherwise == Failing)
    ensures OnTarget(cfg, target, FoundPull(s, w, s.claims[w], otherwise))
  {
    hide OpenPull;
    OpenTarget(target, s.remote.pulls);
    hide Shared;
    OnTargetFrom(cfg, target, s, FoundPull(s, w, s.claims[w], otherwise), w);
  }

  /** The step that creates it. */
  lemma CreatePullOnTarget(cfg: Config, target: Target, s: State, w: WorkerId, lost: bool)
    requires OnTarget(cfg, target, s) && w in s.claims && s.claims[w].pc == CreatePull
    ensures OnTarget(cfg, target, CreatesPull(s, w, s.claims[w], lost))
  {
    hide OpenPull;
    OpenTarget(target, s.remote.pulls);
    OnTargetFrom(cfg, target, s, CreatesPull(s, w, s.claims[w], lost), w);
  }

  lemma ObjectsOnTarget(cfg: Config, target: Target, s: State, w: WorkerId, choice: Choice)
    requires OnTarget(cfg, target, s) && w in s.claims && choice.tree == target.tree && choice.commit == target.commit
    ensures OnTarget(cfg, target, Materializes(s, w, s.claims[w], choice))
  {
    hide Shared;
    OnTargetFrom(cfg, target, s, Materializes(s, w, s.claims[w], choice), w);
  }

  /** The steps that look at the remote or write to it. */
  lemma RemoteOnTarget(cfg: Config, target: Target, s: State, w: WorkerId, choice: Choice)
    requires Inv(cfg, s) && OnTarget(cfg, target, s) && w in s.claims && !choice.fault
    requires s.claims[w].pc in {CheckBase, CreateCommit, ReadHead, CreateHead, ReadRacedHead, CheckBaseAgain,
        FindPull, FindRacedPull, CreatePull}
    requires choice.tree == target.tree && choice.commit == target.commit
    ensures OnTarget(cfg, target, Act(cfg, s, w, choice))
  {
    hide Inv, OnTarget, ReadsHead, CreatesHead, FoundPull, CreatesPull, Materializes, With;
    var c := s.claims[w];
    MovesOnTarget(cfg, target, s, w, c.(pc := Failing));
    match c.pc {
      case CheckBase => MovesOnTarget(cfg, target, s, w, c.(pc := CreateCommit));
      case CheckBaseAgain => MovesOnTarget(cfg, target, s, w, c.(pc := FindPull));
      case CreateCommit => ObjectsOnTarget(cfg, target, s, w, choice);
      case ReadHead => HeadOnTarget(cfg, target, s, w, CreateHead);
      case CreateHead => CreateHeadOnTarget(cfg, target, s, w, choice.lost);
      case ReadRacedHead => HeadOnTarget(cfg, target, s, w, Failing);
      case FindPull => PullOnTarget(cfg, target, s, w, CreatePull);
      case FindRacedPull => PullOnTarget(cfg, target, s, w, Failing);
      case CreatePull => CreatePullOnTarget(cfg, target, s, w, choice.lost);
      case _ =>
    }
  }

  lemma ActOnTarget(cfg: Config, target: Target, s: State, w: WorkerId, choice: Choice)
    requires Inv(cfg, s) && OnTarget(cfg, target, s) && w in s.claims
    requires choice.tree == target.tree && choice.commit == target.commit
    ensures OnTarget(cfg, target, Act(cfg, s, w, choice))
  {
    hide Inv, Shared, OnTarget;
    var c := s.claims[w];
    if c.pc == Failing {
      GivesUpOnTarget(cfg, target, s, w, choice.failure);
    } else if choice.fault {
      MovesOnTarget(cfg, target, s, w, c.(pc := Failing));
    } else if c.pc in {CheckBase, CreateCommit, ReadHead, CreateHead, ReadRacedHead, CheckBaseAgain, FindPull,
        FindRacedPull, CreatePull} {
      hide Act;
      RemoteOnTarget(cfg, target, s, w, choice);
    } else if c.pc == Load {
      LoadOnTarget(cfg, target, s, w, choice.accepts);
    } else if c.pc == VerifyExisting {
      VerifyOnTarget(cfg, target, s, w);
    } else if c.pc == RecordPull {
      RecordOnTarget(cfg, target, s, w);
    } else {
      hide Act;
      StoreOnTarget(cfg, target, s, w, choice);
    }
  }

  lemma LoadOnTarget(cfg: Config, target: Target, s: State, w: WorkerId, accepts: bool)
    requires OnTarget(cfg, target, s) && w in s.claims
    ensures OnTarget(cfg, target, Loads(cfg, s, w, s.claims[w], accepts))
  {
    hide Shared;
    OnTargetFrom(cfg, target, s, Loads(cfg, s, w, s.claims[w], accepts), w);
  }

  lemma VerifyOnTarget(cfg: Config, target: Target, s: State, w: WorkerId)
    requires OnTarget(cfg, target, s) && w in s.claims
    ensures OnTarget(cfg, target, Verifies(s, w, s.claims[w]))
  {
    hide Shared;
    OnTargetFrom(cfg, target, s, Verifies(s, w, s.claims[w]), w);
  }

  lemma RecordOnTarget(cfg: Config, target: Target, s: State, w: WorkerId)
    requires OnTarget(cfg, target, s) && w in s.claims && s.claims[w].pc == RecordPull
    ensures OnTarget(cfg, target, Records(s, w, s.claims[w]))
  {
    assert ClaimOnTarget(target, s.claims[w]);
    OnTargetFrom(cfg, target, s, Records(s, w, s.claims[w]), w);
  }

  lemma GivesUpOnTarget(cfg: Config, target: Target, s: State, w: WorkerId, failure: Status)
    requires OnTarget(cfg, target, s)
    ensures OnTarget(cfg, target, GivesUp(s, w, failure))
  {
    hide Shared;
    var r := Failed(s.db, w, s.now, failure);
    if r.Ok? { SharedSame(cfg, target, s.db, r.value, s.remote); }
    OnTargetFrom(cfg, target, s, GivesUp(s, w, failure), w);
  }

  lemma NextOnTarget(cfg: Config, target: Target, s: State, step: Step)
    requires Inv(cfg, s) && OnTarget(cfg, target, s) && Quiet(target, step)
    ensures OnTarget(cfg, target, Next(cfg, s, step))
  {
    hide Act, Inv, Shared;
    match step {
      case Acts(w, choice) => if w in s.claims { ActOnTarget(cfg, target, s, w, choice); }
      case Claims(w, seconds) =>
        SharedSame(cfg, target, s.db, Claimed(s.db, w, s.now, seconds), s.remote);
        OnTargetFrom(cfg, target, s, Next(cfg, s, step), w);
      case Beats(w, seconds) =>
        var r := Beaten(s.db, w, s.now, seconds);
        if r.Ok? { SharedSame(cfg, target, s.db, r.value, s.remote); }
        if w in s.claims {
          assert ClaimOnTarget(target, s.claims[w]);
          OnTargetFrom(cfg, target, s, TimerBeats(s, w, s.claims[w], seconds), w);
        }
      case Crashes(w) => OnTargetFrom(cfg, target, s, Leaves(s, w), w);
      case Tick(millis) => OnTargetFrom(cfg, target, s, s.(now := s.now + millis), "");
      case _ =>
    }
  }

  lemma {:induction false} QuietRun(cfg: Config, target: Target, s: State, steps: seq<Step>)
    requires Fresh(cfg, target, s) && forall step <- steps :: Quiet(target, step)
    ensures Inv(cfg, Run(cfg, s, steps)) && OnTarget(cfg, target, Run(cfg, s, steps))
  {
    hide Inv, Next, Quiet;
    RunInv(cfg, s, steps);
    if steps != [] {
      var before := steps[..|steps| - 1];
      QuietRun(cfg, target, s, before);
      assert steps[|steps| - 1] in steps;
      NextOnTarget(cfg, target, Run(cfg, s, before), steps[|steps| - 1]);
    }
  }

  // The rerun.

  /**
   * The failure-free choice: nothing faults, responses arrive, the bundle is accepted and materializes
   * to the target.
   */
  function Clean(target: Target, seconds: int): Choice {
    Choice(false, false, true, target.tree, target.commit, seconds, PublicationBlocked)
  }

  /**
   * A step of the failure-free rerun of worker `w`: its own clean steps and timer, the clock, and whatever
   * other workers do, stale ones included, that run the same bundle on the same base.
   */
  predicate RerunStep(target: Target, w: WorkerId, step: Step) {
    match step
    case Acts(v, choice) =>
      if v == w then choice == Clean(target, choice.seconds)
      else choice.tree == target.tree && choice.commit == target.commit
    case Crashes(v) => v != w
    case Tick(_) => true
    case Beats(_, _) => true
    case Claims(_, _) => true
    case _ => false
  }

  /** How many steps of the run are the worker's own. */
  function OwnSteps(steps: seq<Step>, w: WorkerId): nat {
    if steps == [] then 0
    else
      var last := steps[|steps| - 1];
      OwnSteps(steps[..|steps| - 1], w) + if Own(last, w) then 1 else 0
  }

  /** The lease never runs out while the claim lives. */
  ghost predicate LeaseKept(cfg: Config, s: State, steps: seq<Step>, w: WorkerId) {
    forall k | 0 <= k <= |steps| :: HoldsAt(cfg, s, steps[..k], w)
  }

  ghost predicate HoldsAt(cfg: Config, s: State, steps: seq<Step>, w: WorkerId) {
    var t := Run(cfg, s, steps);
    w in t.claims ==> Holds(t.db, w, t.now)
  }

  /** The status the row has while a failure-free worker that found `entry` is at `pc`. */
  function StatusAt(pc: Pc, entry: Status): Status {
    match pc
    case StartPolicy => entry
    case Load => if entry == PublicationRequested then PolicyCheck else entry
    case Control1 => if entry == PublicationRequested then PolicyCheck else entry
    case StartMaterializing => if entry == PublicationRequested then PolicyCheck else entry
    case CheckBase => CommitMaterializing
    case CreateCommit => CommitMaterializing
    case RecordCommit => CommitMaterializing
    case VerifyExisting => entry
    case Control2 => if Stage(entry) < 3 then BranchPublishing else entry
    case RetryBranch => if Stage(entry) < 3 then BranchPublishing else entry
    case ReadHead => if Stage(entry) < 4 then BranchPublishing else entry
    case CreateHead => if Stage(entry) < 4 then BranchPublishing else entry
    case ReadRacedHead => if Stage(entry) < 4 then BranchPublishing else entry
    case StartDraft => if Stage(entry) < 4 then BranchPublishing else entry
    case Control3 => if Stage(entry) < 4 then DraftPrCreating else entry
    case RetryDraft => if Stage(entry) < 4 then DraftPrCreating else entry
    case _ => DraftPrCreating
  }

  /** Steps left at most; only the failure-free places are counted. */
  function Left(pc: Pc): nat {
    match pc
    case StartPolicy => 20 case Load => 19 case Control1 => 18 case StartMaterializing => 17 case CheckBase => 16
    case CreateCommit => 15 case RecordCommit => 14 case VerifyExisting => 14 case Control2 => 13 case RetryBranch => 12
    case ReadHead => 11 case CreateHead => 10 case ReadRacedHead => 9 case StartDraft => 8 case Control3 => 7
    case RetryDraft => 6 case CheckBaseAgain => 5 case FindPull => 4 case CreatePull => 3 case FindRacedPull => 2
    case RecordPull => 1 case Failing => 0
  }

  predicate OnPath(pc: Pc, entry: Status) {
    && Executable(entry) && Left(pc) > 0
    && (pc.CheckBase? || pc.CreateCommit? || pc.RecordCommit? ==> Stage(entry) < 3)
    && (pc == VerifyExisting ==> Stage(entry) >= 3)
  }

  /** The worker is on the failure-free path, holds the lease, and its bundle is what the row says. */
  ghost predicate OnTrack(cfg: Config, target: Target, s: State, w: WorkerId) {
    && Inv(cfg, s) && OnTarget(cfg, target, s) && w in s.claims && Holds(s.db, w, s.now)
        && s.db.attempts <= cfg.maximumAttempts
    && var c := s.claims[w];
       && !c.beatFailed && OnPath(c.pc, c.entry) && s.db.status == StatusAt(c.pc, c.entry)
       && ((c.pc.Control1? || c.pc.StartMaterializing? || c.pc.VerifyExisting?) && Stage(c.entry) >= 3 ==>
             c.bundle == Bundle(s.db.tree, s.db.commit, s.db.published.Some?))
       && (c.pc == ReadRacedHead ==> s.remote.head.Some?)
       && (c.pc == FindRacedPull || c.pc == RecordPull ==> s.remote.pulls != [])
  }

  /** Everything the publication is for, in one commit and one pull request, and the row released. */
  ghost predicate Done(target: Target, s: State) {
    && s.db.lease.None?
    && s.db.status == CiMonitoring && s.db.published == Some(PublishedCommit(target.tree, target.commit))
    && s.db.commit == Some(target.commit) && s.remote.head == Some(target.commit)
    && s.remote.pulls == [TargetPull(target)] && s.db.number == Some(target.number)
    && s.db.record == Some(PullRequestRecord(target.number, target.commit))
  }

  ghost predicate Progress(cfg: Config, target: Target, s: State, t: State, w: WorkerId) {
    if w in t.claims then w in s.claims && OnTrack(cfg, target, t, w) && Left(t.claims[w].pc) < Left(s.claims[w].pc)
    else Done(target, t)
  }

  lemma HoldsAfter(db: Db, w: WorkerId, now: int, seconds: int)
    ensures Holds(Claimed(db, w, now, seconds), w, now)
    ensures Beaten(db, w, now, seconds).Ok? ==> Holds(Beaten(db, w, now, seconds).value, w, now)
  {
  }

  /** What being on track says about the row and the claim. */
  lemma Track(cfg: Config, target: Target, s: State, w: WorkerId)
    requires OnTrack(cfg, target, s, w)
    ensures w in s.claims && Holds(s.db, w, s.now) && s.db.attempts <= cfg.maximumAttempts && Inv(cfg, s)
        && OnTarget(cfg, target, s)
    ensures var c := s.claims[w];
            && !c.beatFailed && OnPath(c.pc, c.entry) && s.db.status == StatusAt(c.pc, c.entry)
            && (c.pc.Control1? && Stage(c.entry) >= 3
                ==> c.bundle == Bundle(s.db.tree, s.db.commit, s.db.published.Some?))
            && (c.pc == ReadRacedHead ==> s.remote.head.Some?)
            && (c.pc == FindRacedPull || c.pc == RecordPull ==> s.remote.pulls != [])
  {
    hide Inv, OnTarget, Holds, OnPath, StatusAt;
  }

  /** A worker that has moved on to `c` is on track again. */
  lemma Arrives(cfg: Config, target: Target, s: State, w: WorkerId, c: Claim, t: State)
    requires OnTrack(cfg, target, s, w) && Inv(cfg, t) && OnTarget(cfg, target, t)
    requires w in t.claims && t.claims[w] == c && Holds(t.db, w, t.now) && t.db.attempts == s.db.attempts
    requires w in s.claims && c.entry == s.claims[w].entry && !c.beatFailed
    requires OnPath(c.pc, c.entry) && Left(c.pc) < Left(s.claims[w].pc) && t.db.status == StatusAt(c.pc, c.entry)
    requires (c.pc.Control1? || c.pc.StartMaterializing? || c.pc.VerifyExisting?) && Stage(c.entry) >= 3 ==>
               c.bundle == Bundle(t.db.tree, t.db.commit, t.db.published.Some?)
    requires c.pc == ReadRacedHead ==> t.remote.head.Some?
    requires c.pc == FindRacedPull || c.pc == RecordPull ==> t.remote.pulls != []
    ensures Progress(cfg, target, s, t, w)
  {
    hide Inv, OnTarget, Holds, OnPath, StatusAt, Left;
  }

  lemma AdvanceOk(db: Db, w: WorkerId, now: int, to: Status)
    requires Holds(db, w, now) && Permitted(db.status, to)
    ensures var r := Advanced(db, w, now, to);
            r.Ok? && r.value.status == to && Holds(r.value, w, now) && r.value.attempts == db.attempts
            && r.value.tree == db.tree && r.value.commit == db.commit && r.value.published == db.published
  {
  }

  /** The row moves on from `c.pc` to `next`, for a worker on the path. */
  lemma AdvanceProgress(cfg: Config, target: Target, s: State, w: WorkerId, to: Status, next: Pc, t: State)
    requires OnTrack(cfg, target, s, w) && Inv(cfg, t) && OnTarget(cfg, target, t)
    requires t == Stores(s, w, s.claims[w], Advanced(s.db, w, s.now, to), next)
    requires var c := s.claims[w];
             Permitted(s.db.status, to) && OnPath(next, c.entry) && to == StatusAt(next, c.entry)
                 && Left(next) < Left(c.pc)
             && next in {Load, CheckBase, ReadHead, Control3, CheckBaseAgain}
    ensures Progress(cfg, target, s, t, w)
  {
    AdvanceOk(s.db, w, s.now, to);
    hide Inv, OnTarget, Advanced, Holds, Permitted, StatusAt;
  }

  /** The worker moves on from `c.pc` to `next` without a write. */
  lemma MoveProgress(cfg: Config, target: Target, s: State, w: WorkerId, next: Pc, t: State)
    requires OnTrack(cfg, target, s, w) && Inv(cfg, t) && OnTarget(cfg, target, t)
    requires var c := s.claims[w];
             t == With(s, w, c.(pc := next)) && OnPath(next, c.entry) && s.db.status == StatusAt(next, c.entry)
                 && Left(next) < Left(c.pc)
             && next !in {ReadRacedHead, FindRacedPull, RecordPull}
             && (next in {Control1, StartMaterializing, VerifyExisting} && Stage(c.entry) >= 3
                 ==> c.pc in {Control1, StartMaterializing})
    ensures Progress(cfg, target, s, t, w)
  {
    hide Inv, OnTarget, Holds, StatusAt;
  }

  lemma StoreOrMove(cfg: Config, target: Target, s: State, w: WorkerId, writes: bool, to: Status, next: Pc, t: State)
    requires OnTrack(cfg, target, s, w) && Inv(cfg, t) && OnTarget(cfg, target, t)
    requires t == if writes then Stores(s, w, s.claims[w], Advanced(s.db, w, s.now, to), next)
        else With(s, w, s.claims[w].(pc := next))
    requires var c := s.claims[w];
             && OnPath(next, c.entry) && Left(next) < Left(c.pc)
                 && next in {Load, CheckBase, ReadHead, Control3, CheckBaseAgain}
             && (if writes then Permitted(s.db.status, to) && to == StatusAt(next, c.entry)
                 else s.db.status == StatusAt(next, c.entry))
    ensures Progress(cfg, target, s, t, w)
  {
    hide Inv, OnTarget, Holds, Progress, With, Stores, Advanced, OnTrack, StatusAt, OnPath;
    if writes { AdvanceProgress(cfg, target, s, w, to, next, t); } else { MoveProgress(cfg, target, s, w, next, t); }
  }

  /** The status writes on the path, in order. */
  lemma StoreProgress(cfg: Config, target: Target, s: State, w: WorkerId, choice: Choice, t: State)
    requires OnTrack(cfg, target, s, w) && !choice.fault && t == Act(cfg, s, w, choice) && Inv(cfg, t)
        && OnTarget(cfg, target, t)
    requires s.claims[w].pc in {StartPolicy, RetryBranch, StartDraft, RetryDraft}
    ensures Progress(cfg, target, s, t, w)
  {
    hide Inv, OnTarget, Holds, Progress, With, Stores, Advanced;
    var c := s.claims[w];
    match c.pc {
      case StartPolicy => StoreOrMove(cfg, target, s, w, c.entry == PublicationRequested, PolicyCheck, Load, t);
      case RetryBranch => StoreOrMove(cfg, target, s, w, c.entry == PushFailed, BranchPublishing, ReadHead, t);
      case StartDraft => StoreOrMove(cfg, target, s, w, Stage(c.entry) < 4, DraftPrCreating, Control3, t);
      case RetryDraft =>
        StoreOrMove(cfg, target, s, w, c.entry == PrCreationFailed, DraftPrCreating, CheckBaseAgain, t);
      case _ =>
    }
  }

  lemma MaterializingProgress(cfg: Config, target: Target, s: State, w: WorkerId, choice: Choice, t: State)
    requires OnTrack(cfg, target, s, w) && !choice.fault && t == Act(cfg, s, w, choice) && Inv(cfg, t)
        && OnTarget(cfg, target, t)
    requires s.claims[w].pc == StartMaterializing
    ensures Progress(cfg, target, s, t, w)
  {
    hide Inv, OnTarget, Holds, Progress, With, Stores, Advanced;
    var c := s.claims[w];
    if Stage(c.entry) < 3 {
      StoreOrMove(cfg, target, s, w, Stage(c.entry) < 2, CommitMaterializing, CheckBase, t);
    } else {
      MoveProgress(cfg, target, s, w, VerifyExisting, t);
    }
  }

  lemma MaterializeOk(db: Db, w: WorkerId, now: int, tree: string, commit: string)
    requires Holds(db, w, now) && Permitted(db.status, BranchPublishing)
    requires db.published.Some? ==> db.published.value == PublishedCommit(tree, commit)
    ensures var r := Materialized(db, w, now, tree, commit);
            r.Ok? && r.value.status == BranchPublishing && Holds(r.value, w, now) && r.value.attempts == db.attempts
  {
  }

  lemma CommitProgress(cfg: Config, target: Target, s: State, w: WorkerId, t: State)
    requires OnTrack(cfg, target, s, w) && Inv(cfg, t) && OnTarget(cfg, target, t) && w in s.claims
        && s.claims[w].pc == RecordCommit
    requires t == Stores(s, w, s.claims[w], Materialized(s.db, w, s.now, s.claims[w].tree, s.claims[w].commit),
          Control2)
    ensures Progress(cfg, target, s, t, w)
  {
    hide OnTrack, Progress, Inv, Holds, Materialized, Shared;
    Track(cfg, target, s, w);
    var c := s.claims[w];
    assert ClaimOnTarget(target, c);
    HeadTarget(cfg, target, s);
    MaterializeOk(s.db, w, s.now, c.tree, c.commit);
    hide OnTarget;
    Arrives(cfg, target, s, w, c.(pc := Control2), t);
  }

  lemma LoadProgress(cfg: Config, target: Target, s: State, w: WorkerId, t: State)
    requires OnTrack(cfg, target, s, w) && Inv(cfg, t) && OnTarget(cfg, target, t) && s.claims[w].pc == Load
    requires t == Loads(cfg, s, w, s.claims[w], true)
    ensures Progress(cfg, target, s, t, w)
  {
    hide Inv, OnTarget, Holds;
  }

  lemma ControlProgress(cfg: Config, target: Target, s: State, w: WorkerId, seconds: int, next: Pc, t: State)
    requires OnTrack(cfg, target, s, w) && Inv(cfg, t) && OnTarget(cfg, target, t) && w in s.claims
    requires t == Controls(s, w, s.claims[w], seconds, next)
    requires var pc := s.claims[w].pc;
             (pc.Control1? && next.StartMaterializing?) || (pc.Control2? && next.RetryBranch?)
             || (pc.Control3? && next.RetryDraft?)
    ensures Progress(cfg, target, s, t, w)
  {
    hide OnTrack, Progress, Inv, Holds, Beaten, OnTarget;
    Track(cfg, target, s, w);
    HoldsAfter(s.db, w, s.now, seconds);
    NotCancelled(cfg, target, s);
    BeatsOk(s.db, w, s.now, seconds);
    Arrives(cfg, target, s, w, s.claims[w].(pc := next), t);
  }

  lemma NotCancelled(cfg: Config, target: Target, s: State)
    requires OnTarget(cfg, target, s)
    ensures !s.db.cancellation && s.remote.base == cfg.baseCommit
  {
  }

  lemma BeatsOk(db: Db, w: WorkerId, now: int, seconds: int)
    requires Holds(db, w, now)
    ensures var r := Beaten(db, w, now, seconds); r.Ok? && r.value == db.(lease := r.value.lease)
  {
  }

  lemma ObjectsProgress(cfg: Config, target: Target, s: State, w: WorkerId, choice: Choice, t: State)
    requires OnTrack(cfg, target, s, w) && Inv(cfg, t) && OnTarget(cfg, target, t)
        && s.claims[w].pc == CreateCommit && !choice.lost
    requires t == Materializes(s, w, s.claims[w], choice)
    ensures Progress(cfg, target, s, t, w)
  {
    hide Inv, OnTarget, Holds;
  }

  lemma VerifyProgress(cfg: Config, target: Target, s: State, w: WorkerId, t: State)
    requires OnTrack(cfg, target, s, w) && Inv(cfg, t) && OnTarget(cfg, target, t) && s.claims[w].pc == VerifyExisting
    requires t == Verifies(s, w, s.claims[w])
    ensures Progress(cfg, target, s, t, w)
  {
    InvClaim(cfg, s, w);
    hide Inv, OnTarget, Holds, ClaimSound;
  }

  lemma ReadHeadProgress(cfg: Config, target: Target, s: State, w: WorkerId, t: State)
    requires OnTrack(cfg, target, s, w) && Inv(cfg, t) && OnTarget(cfg, target, t) && w in s.claims
        && s.claims[w].pc == ReadHead
    requires t == ReadsHead(s, w, s.claims[w], CreateHead)
    ensures Progress(cfg, target, s, t, w)
  {
    hide OnTrack, Progress, Inv, Holds, OnTarget;
    Track(cfg, target, s, w);
    CommitIsTarget(cfg, target, s, w);
    HeadTarget(cfg, target, s);
    var c := s.claims[w];
    Arrives(cfg, target, s, w, c.(pc := if s.remote.head == Some(c.commit) then StartDraft else CreateHead), t);
  }

  lemma HeadTarget(cfg: Config, target: Target, s: State)
    requires OnTarget(cfg, target, s)
    ensures s.remote.head.Some? ==> s.remote.head.value == target.commit
    ensures s.db.published.Some? ==> s.db.published.value == PublishedCommit(target.tree, target.commit)
    ensures s.remote.pulls == [] || s.remote.pulls == [TargetPull(target)]
  {
  }

  lemma CommitIsTarget(cfg: Config, target: Target, s: State, w: WorkerId)
    requires Inv(cfg, s) && OnTarget(cfg, target, s) && w in s.claims
    ensures var c := s.claims[w];
            (HasCommit(c.pc) ==> c.commit == target.commit)
                && (HasBranch(c.pc) ==> s.remote.head == Some(target.commit))
  {
    InvClaim(cfg, s, w);
    HeadTarget(cfg, target, s);
    hide Inv, OnTarget, RowsAgree;
  }

  lemma CreateHeadProgress(cfg: Config, target: Target, s: State, w: WorkerId, t: State)
    requires OnTrack(cfg, target, s, w) && Inv(cfg, t) && OnTarget(cfg, target, t) && s.claims[w].pc == CreateHead
    requires t == CreatesHead(s, w, s.claims[w], false)
    ensures Progress(cfg, target, s, t, w)
  {
    hide Inv, OnTarget, Holds, RowsAgree;
  }

  lemma FindProgress(cfg: Config, target: Target, s: State, w: WorkerId, t: State)
    requires OnTrack(cfg, target, s, w) && Inv(cfg, t) && OnTarget(cfg, target, t) && w in s.claims
        && s.claims[w].pc == FindPull
    requires t == FoundPull(s, w, s.claims[w], CreatePull)
    ensures Progress(cfg, target, s, t, w)
  {
    hide OnTrack, Progress, Inv, Holds, OnTarget, OpenPull;
    Track(cfg, target, s, w);
    CommitIsTarget(cfg, target, s, w);
    HeadTarget(cfg, target, s);
    OpenTarget(target, s.remote.pulls);
    var c := s.claims[w];
    if s.remote.pulls == [] {
      Arrives(cfg, target, s, w, c.(pc := CreatePull), t);
    } else {
      Arrives(cfg, target, s, w, c.(pc := RecordPull, number := target.number, headSha := target.commit), t);
    }
  }

  lemma CreatePullProgress(cfg: Config, target: Target, s: State, w: WorkerId, t: State)
    requires OnTrack(cfg, target, s, w) && Inv(cfg, t) && OnTarget(cfg, target, t) && w in s.claims
        && s.claims[w].pc == CreatePull
    requires t == CreatesPull(s, w, s.claims[w], false)
    ensures Progress(cfg, target, s, t, w)
  {
    hide OnTrack, Progress, Inv, Holds, OnTarget, OpenPull;
    Track(cfg, target, s, w);
    CommitIsTarget(cfg, target, s, w);
    HeadTarget(cfg, target, s);
    OpenTarget(target, s.remote.pulls);
    var c := s.claims[w];
    if s.remote.pulls == [] {
      Arrives(cfg, target, s, w,
              c.(pc := RecordPull, number := s.remote.nextNumber, headSha := s.remote.head.value), t);
    } else {
      Arrives(cfg, target, s, w, c.(pc := FindRacedPull), t);
    }
  }

  /** The branch was created by somebody else between the read and the creation: it is at the target commit. */
  lemma RacedHeadProgress(cfg: Config, target: Target, s: State, w: WorkerId, t: State)
    requires OnTrack(cfg, target, s, w) && Inv(cfg, t) && OnTarget(cfg, target, t) && w in s.claims
        && s.claims[w].pc == ReadRacedHead
    requires t == ReadsHead(s, w, s.claims[w], Failing)
    ensures Progress(cfg, target, s, t, w)
  {
    hide OnTrack, Progress, Inv, Holds, OnTarget;
    Track(cfg, target, s, w);
    CommitIsTarget(cfg, target, s, w);
    HeadTarget(cfg, target, s);
    Arrives(cfg, target, s, w, s.claims[w].(pc := StartDraft), t);
  }

  /** Likewise the pull request. */
  lemma RacedPullProgress(cfg: Config, target: Target, s: State, w: WorkerId, t: State)
    requires OnTrack(cfg, target, s, w) && Inv(cfg, t) && OnTarget(cfg, target, t) && w in s.claims
        && s.claims[w].pc == FindRacedPull
    requires t == FoundPull(s, w, s.claims[w], Failing)
    ensures Progress(cfg, target, s, t, w)
  {
    hide OnTrack, Progress, Inv, Holds, OnTarget, OpenPull;
    Track(cfg, target, s, w);
    CommitIsTarget(cfg, target, s, w);
    HeadTarget(cfg, target, s);
    OpenTarget(target, s.remote.pulls);
    Arrives(cfg, target, s, w,
            s.claims[w].(pc := RecordPull, number := target.number, headSha := target.commit), t);
  }

  lemma RecordOk(db: Db, w: WorkerId, now: int, number: nat, headSha: string)
    requires Holds(db, w, now) && Permitted(db.status, CiMonitoring)
        && (db.record.Some? ==> db.record.value.number == number)
    ensures var r := Recorded(db, w, now, number, headSha);
            r.Ok? && r.value.status == CiMonitoring && r.value.number == Some(number) && r.value.record.Some?
            && r.value.record.value.number == number && r.value.published == db.published && r.value.lease.None?
  {
  }

  /** The last step: the row is in monitoring and everything is what the target says. */
  lemma RecordProgress(cfg: Config, target: Target, s: State, w: WorkerId, t: State)
    requires OnTrack(cfg, target, s, w) && Inv(cfg, t) && OnTarget(cfg, target, t) && w in s.claims
        && s.claims[w].pc == RecordPull
    requires t == Records(s, w, s.claims[w]) && s.remote.pulls != []
    ensures Progress(cfg, target, s, t, w)
  {
    hide OnTrack, Recorded, Inv, Holds, Shared;
    Track(cfg, target, s, w);
    InvClaim(cfg, s, w);
    CommitIsTarget(cfg, target, s, w);
    HeadTarget(cfg, target, s);
    var c := s.claims[w];
    assert ClaimOnTarget(target, c);
    PublishedOnTarget(cfg, target, s);
    RecordOk(s.db, w, s.now, c.number, c.headSha);
    DoneAt(cfg, target, t);
    hide OnTarget, RowsAgree, ClaimSound;
  }

  lemma PublishedOnTarget(cfg: Config, target: Target, s: State)
    requires OnTarget(cfg, target, s)
    ensures s.db.record.Some? ==> s.db.record.value.number == target.number
  {
  }

  /** A row in monitoring with a recorded pull request, and an open one, is done. */
  lemma DoneAt(cfg: Config, target: Target, t: State)
    requires Inv(cfg, t) && OnTarget(cfg, target, t)
    requires t.db.status == CiMonitoring && t.db.lease.None? && t.remote.head.Some? && t.remote.pulls != []
    requires t.db.number == Some(target.number) && t.db.record.Some?
    ensures Done(target, t)
  {
  }

  /** A clean step up to the commit. */
  lemma CleanEarly(cfg: Config, target: Target, s: State, w: WorkerId, seconds: int, t: State)
    requires OnTrack(cfg, target, s, w) && Inv(cfg, t) && OnTarget(cfg, target, t) && w in s.claims
        && Left(s.claims[w].pc) >= 13
    requires t == Act(cfg, s, w, Clean(target, seconds)) && s.remote.base == cfg.baseCommit
    ensures Progress(cfg, target, s, t, w)
  {
    hide Inv, OnTarget, Progress, Holds, Stores, Controls, Loads, Materializes, Verifies, With, OnTrack;
    Track(cfg, target, s, w);
    var choice := Clean(target, seconds);
    match s.claims[w].pc {
      case StartPolicy => StoreProgress(cfg, target, s, w, choice, t);
      case Load => LoadProgress(cfg, target, s, w, t);
      case Control1 => ControlProgress(cfg, target, s, w, seconds, StartMaterializing, t);
      case StartMaterializing => MaterializingProgress(cfg, target, s, w, choice, t);
      case CheckBase => MoveProgress(cfg, target, s, w, CreateCommit, t);
      case CreateCommit => ObjectsProgress(cfg, target, s, w, choice, t);
      case RecordCommit => CommitProgress(cfg, target, s, w, t);
      case VerifyExisting => VerifyProgress(cfg, target, s, w, t);
      case Control2 => ControlProgress(cfg, target, s, w, seconds, RetryBranch, t);
      case _ =>
    }
  }

  /** A clean step from the branch on. */
  lemma CleanLate(cfg: Config, target: Target, s: State, w: WorkerId, seconds: int, t: State)
    requires OnTrack(cfg, target, s, w) && Inv(cfg, t) && OnTarget(cfg, target, t) && w in s.claims
        && Left(s.claims[w].pc) < 13
    requires t == Act(cfg, s, w, Clean(target, seconds)) && s.remote.base == cfg.baseCommit
    ensures Progress(cfg, target, s, t, w)
  {
    hide Inv, OnTarget, Progress, Holds, Stores, Controls, ReadsHead, CreatesHead, FoundPull, CreatesPull, Records,
        With, OnTrack;
    Track(cfg, target, s, w);
    var choice := Clean(target, seconds);
    match s.claims[w].pc {
      case RetryBranch => StoreProgress(cfg, target, s, w, choice, t);
      case ReadHead => ReadHeadProgress(cfg, target, s, w, t);
      case CreateHead => CreateHeadProgress(cfg, target, s, w, t);
      case ReadRacedHead => RacedHeadProgress(cfg, target, s, w, t);
      case StartDraft => StoreProgress(cfg, target, s, w, choice, t);
      case Control3 => ControlProgress(cfg, target, s, w, seconds, RetryDraft, t);
      case RetryDraft => StoreProgress(cfg, target, s, w, choice, t);
      case CheckBaseAgain => MoveProgress(cfg, target, s, w, FindPull, t);
      case FindPull => FindProgress(cfg, target, s, w, t);
      case CreatePull => CreatePullProgress(cfg, target, s, w, t);
      case FindRacedPull => RacedPullProgress(cfg, target, s, w, t);
      case RecordPull => RecordProgress(cfg, target, s, w, t);
      case _ =>
    }
  }

  lemma CleanStep(cfg: Config, target: Target, s: State, w: WorkerId, seconds: int)
    requires OnTrack(cfg, target, s, w)
    ensures Progress(cfg, target, s, Act(cfg, s, w, Clean(target, seconds)), w)
  {
    var choice := Clean(target, seconds);
    var t := Act(cfg, s, w, choice);
    hide Act, OnTrack, Inv, OnTarget, Progress;
    Track(cfg, target, s, w);
    ActKeeps(cfg, s, w, choice);
    ActOnTarget(cfg, target, s, w, choice);
    NotCancelled(cfg, target, s);
    if Left(s.claims[w].pc) >= 13 {
      CleanEarly(cfg, target, s, w, seconds, t);
    } else {
      CleanLate(cfg, target, s, w, seconds, t);
    }
  }


  /** What one clean step leads to, with everything else forgotten. */
  lemma CleanStepLeads(cfg: Config, target: Target, s: State, w: WorkerId, seconds: int)
    requires OnTrack(cfg, target, s, w)
    ensures var t := Next(cfg, s, Acts(w, Clean(target, seconds)));
            && w in s.claims
            && (w in t.claims ==> OnTrack(cfg, target, t, w) && Left(t.claims[w].pc) < Left(s.claims[w].pc))
            && (w !in t.claims ==> Done(target, t))
  {
    hide Act, Next, OnTrack, Done, Left, Clean;
    Track(cfg, target, s, w);
    CleanStep(cfg, target, s, w, seconds);
    NextIsAct(cfg, s, w, Clean(target, seconds));
  }

  lemma NextIsAct(cfg: Config, s: State, w: WorkerId, choice: Choice)
    requires w in s.claims
    ensures Next(cfg, s, Acts(w, choice)) == Act(cfg, s, w, choice)
  {
    hide Act;
  }

  /** A step of a worker. */
  predicate Own(step: Step, w: WorkerId) { step.Acts? && step.worker == w }

  /** A step of the rerun that is not the worker's own: it loses no ground if the lease is still held. */
  lemma WaitStep(cfg: Config, target: Target, s: State, w: WorkerId, step: Step)
    requires OnTrack(cfg, target, s, w) && RerunStep(target, w, step) && !Own(step, w)
    requires var t := Next(cfg, s, step); w in t.claims ==> Holds(t.db, w, t.now)
    ensures var t := Next(cfg, s, step);
            && w in s.claims && w in t.claims && OnTrack(cfg, target, t, w) && t.claims[w].pc == s.claims[w].pc
  {
    Track(cfg, target, s, w);
    hide OnTarget, Inv, OnPath, StatusAt, Left, RerunStep;
    WaitQuiet(target, w, step);
    NextKeeps(cfg, s, step);
    NextOnTarget(cfg, target, s, step);
    NotCancelled(cfg, target, s);
    WaitSame(cfg, target, s, w, step);
  }

  lemma WaitQuiet(target: Target, w: WorkerId, step: Step)
    requires RerunStep(target, w, step) && !Own(step, w)
    ensures Quiet(target, step)
  {
  }

  /** It leaves the row, but for the lease, and the claim as they are, and takes nothing from the remote. */
  lemma WaitSame(cfg: Config, target: Target, s: State, w: WorkerId, step: Step)
    requires w in s.claims && Holds(s.db, w, s.now) && !s.db.cancellation && RerunStep(target, w, step) && !Own(step, w)
    ensures var t := Next(cfg, s, step);
            && w in t.claims && t.claims[w] == s.claims[w] && t.db == s.db.(lease := t.db.lease)
            && (s.remote.head.Some? ==> t.remote.head.Some?) && (s.remote.pulls != [] ==> t.remote.pulls != [])
  {
    hide Executable, Act;
    if step.Acts? && step.worker in s.claims { StaleAct(cfg, s, w, step.worker, step.choice); }
  }

  /** Without the lease no store write goes through. */
  lemma Fenced(db: Db, v: WorkerId, now: int)
    requires !Holds(db, v, now)
    ensures forall to :: Advanced(db, v, now, to).Err? && Failed(db, v, now, to).Err?
    ensures forall tree, commit :: Materialized(db, v, now, tree, commit).Err?
    ensures forall number, headSha :: Recorded(db, v, now, number, headSha).Err?
    ensures forall seconds :: Beaten(db, v, now, seconds).Err?
  {
    hide Holds;
  }

  /** A worker without the lease writes at most to the remote, where it only adds. */
  lemma StaleAct(cfg: Config, s: State, w: WorkerId, v: WorkerId, choice: Choice)
    requires v in s.claims && v != w && Holds(s.db, w, s.now)
    ensures var t := Act(cfg, s, v, choice);
            && t.db == s.db && t.now == s.now && (w in s.claims ==> w in t.claims && t.claims[w] == s.claims[w])
            && (s.remote.head.Some? ==> t.remote.head.Some?) && (s.remote.pulls != [] ==> t.remote.pulls != [])
  {
    Fenced(s.db, v, s.now);
    hide Holds, Advanced, Failed, Materialized, Recorded, Beaten, OpenPull, Stage;
  }

  /** What the rerun leads to: the worker is on its way with at most `left` steps to go, or everything is done. */
  ghost predicate Leads(cfg: Config, target: Target, s: State, w: WorkerId, left: int) {
    if w in s.claims then OnTrack(cfg, target, s, w) && Left(s.claims[w].pc) <= left else Done(target, s)
  }

  /** Once done, no step of the rerun changes the outcome. */
  lemma DoneStays(cfg: Config, target: Target, s: State, w: WorkerId, step: Step)
    requires Done(target, s) && w !in s.claims && RerunStep(target, w, step)
    ensures var t := Next(cfg, s, step); Done(target, t) && w !in t.claims
  {
    assert !Executable(CiMonitoring);
  }

  lemma {:induction false} RerunLeads(cfg: Config, target: Target, s: State, w: WorkerId, steps: seq<Step>)
    requires OnTrack(cfg, target, s, w) && (forall step <- steps :: RerunStep(target, w, step))
          && LeaseKept(cfg, s, steps, w)
    ensures var t := Run(cfg, s, steps); Leads(cfg, target, t, w, 20 - OwnSteps(steps, w))
  {
    hide *;
    if steps == [] {
      LeadsStart(cfg, target, s, w);
    } else {
      var before, step := steps[..|steps| - 1], steps[|steps| - 1];
      assert steps[..|steps|] == steps;
      LeaseKeptShorter(cfg, s, steps, w);
      assert step in steps && forall x <- before :: x in steps;
      RerunLeads(cfg, target, s, w, before);
      RunLast(cfg, s, steps);
      LeadsNext(cfg, target, Run(cfg, s, before), w, 20 - OwnSteps(before, w), step);
      OwnLast(steps, w);
    }
  }

  lemma LeadsStart(cfg: Config, target: Target, s: State, w: WorkerId)
    requires OnTrack(cfg, target, s, w)
    ensures Leads(cfg, target, Run(cfg, s, []), w, 20 - OwnSteps([], w))
  {
    hide OnTrack, Inv, OnTarget, Holds, StatusAt;
    Track(cfg, target, s, w);
  }

  lemma RunLast(cfg: Config, s: State, steps: seq<Step>)
    requires steps != []
    ensures Run(cfg, s, steps) == Next(cfg, Run(cfg, s, steps[..|steps| - 1]), steps[|steps| - 1])
  {
  }

  lemma OwnLast(steps: seq<Step>, w: WorkerId)
    requires steps != []
    ensures var last := steps[|steps| - 1];
            OwnSteps(steps, w) == OwnSteps(steps[..|steps| - 1], w) + if Own(last, w) then 1 else 0
  {
  }

  lemma LeaseKeptShorter(cfg: Config, s: State, steps: seq<Step>, w: WorkerId)
    requires steps != [] && LeaseKept(cfg, s, steps, w)
    ensures LeaseKept(cfg, s, steps[..|steps| - 1], w)
    ensures var t := Run(cfg, s, steps); w in t.claims ==> Holds(t.db, w, t.now)
  {
    hide Run;
    var before := steps[..|steps| - 1];
    assert steps[..|steps|] == steps;
    assert HoldsAt(cfg, s, steps[..|steps|], w);
    forall k | 0 <= k <= |before| ensures HoldsAt(cfg, s, before[..k], w) { assert before[..k] == steps[..k]; }
  }

  lemma LeadsNext(cfg: Config, target: Target, s: State, w: WorkerId, left: int, step: Step)
    requires Leads(cfg, target, s, w, left) && RerunStep(target, w, step)
    requires var t := Next(cfg, s, step); w in t.claims ==> Holds(t.db, w, t.now)
    ensures var t := Next(cfg, s, step);
            Leads(cfg, target, t, w, left - if Own(step, w) then 1 else 0)
  {
    hide OnTrack, Next, Done, Left, Clean;
    if w !in s.claims {
      DoneStays(cfg, target, s, w, step);
    } else if Own(step, w) {
      CleanStepLeads(cfg, target, s, w, step.choice.seconds);
    } else {
      WaitStep(cfg, target, s, w, step);
    }
  }

  /** The state after worker `w` claims. */
  function AfterClaim(cfg: Config, s: State, w: WorkerId, seconds: int): State { Next(cfg, s, Claims(w, seconds)) }

  lemma ClaimOnTrack(cfg: Config, target: Target, s: State, w: WorkerId, seconds: int)
    requires Inv(cfg, s) && OnTarget(cfg, target, s)
    requires w !in s.claims && Claimable(s.db, w, s.now) && s.db.attempts < cfg.maximumAttempts
    ensures OnTrack(cfg, target, AfterClaim(cfg, s, w, seconds), w)
  {
    ClaimKeeps(cfg, s, w, seconds);
    NextOnTarget(cfg, target, s, Claims(w, seconds));
    HoldsAfter(s.db, w, s.now, seconds);
    hide Inv, OnTarget, Holds, Claimable;
    assert AfterClaim(cfg, s, w, seconds).db.status == s.db.status;
    ClaimableExecutable(s.db, w, s.now);
  }

  lemma ClaimableExecutable(db: Db, w: WorkerId, now: int)
    requires Claimable(db, w, now)
    ensures Executable(db.status)
  {
  }

  /**
   * Retry converges. Take any run of any number of workers, with crashes after any step, faults and
   * lost responses, on an unchanged bundle and base. From wherever it stopped, if the publication is
   * claimable and attempts are left, one claim and a failure-free rerun of twenty steps of that worker
   * end in the one outcome: the target commit, the branch at it, and the one pull request for it. In
   * between come any steps of the clock, of heartbeats and of other workers, stale ones included; the
   * lease may be renewed at any time but never runs out.
   */
  lemma RetryConverges(cfg: Config, target: Target, s: State, steps: seq<Step>, w: WorkerId, seconds: int,
      rerun: seq<Step>)
    requires Fresh(cfg, target, s) && forall step <- steps :: Quiet(target, step)
    requires var stopped := Run(cfg, s, steps);
             && w !in stopped.claims && Claimable(stopped.db, w, stopped.now)
                 && stopped.db.attempts < cfg.maximumAttempts
             && LeaseKept(cfg, AfterClaim(cfg, stopped, w, seconds), rerun, w)
    requires (forall step <- rerun :: RerunStep(target, w, step)) && OwnSteps(rerun, w) >= 20
    ensures Done(target, Run(cfg, AfterClaim(cfg, Run(cfg, s, steps), w, seconds), rerun))
  {
    hide *;
    QuietRun(cfg, target, s, steps);
    var stopped := Run(cfg, s, steps);
    ClaimOnTrack(cfg, target, stopped, w, seconds);
    var claimed := AfterClaim(cfg, stopped, w, seconds);
    RerunLeads(cfg, target, claimed, w, rerun);
    NowhereLeft(cfg, target, Run(cfg, claimed, rerun), w, 20 - OwnSteps(rerun, w));
  }

  lemma NowhereLeft(cfg: Config, target: Target, s: State, w: WorkerId, left: int)
    requires Leads(cfg, target, s, w, left) && left <= 0
    ensures Done(target, s)
  {
    hide OnTarget, Inv, Holds, StatusAt, Done;
  }

  // When the lease is kept.

  /** Milliseconds since the worker's last heartbeat, or since the start. */
  function Elapsed(steps: seq<Step>, w: WorkerId): nat {
    if steps == [] then 0
    else
      var before, last := Elapsed(steps[..|steps| - 1], w), steps[|steps| - 1];
      match last
      case Tick(millis) => before + millis
      case Beats(v, _) => if v == w then 0 else before
      case _ => before
  }

  /** Fewer than fifteen seconds, the shortest lease, pass between heartbeats. */
  predicate Timely(steps: seq<Step>, w: WorkerId) { forall k | 0 <= k <= |steps| :: Elapsed(steps[..k], w) < 15_000 }

  /** Enough of the lease is left. */
  predicate LeaseFor(db: Db, w: WorkerId, until: int) {
    db.lease.Some? && db.lease.value.owner == w && db.lease.value.expires >= until
  }

  lemma ClaimLasts(cfg: Config, s: State, w: WorkerId, seconds: int)
    requires w !in s.claims && Claimable(s.db, w, s.now)
    ensures var t := AfterClaim(cfg, s, w, seconds); LeaseFor(t.db, w, t.now + 15_000)
  {
  }

  lemma WaitLasts(cfg: Config, target: Target, s: State, w: WorkerId, step: Step, until: int)
    requires w in s.claims && Holds(s.db, w, s.now) && LeaseFor(s.db, w, until) && RerunStep(target, w, step)
          && !Own(step, w)
    ensures var t := Next(cfg, s, step);
          LeaseFor(t.db, w, if step.Beats? && step.worker == w then s.now + 15_000 else until)
  {
    hide Executable;
  }

  lemma ActLasts(cfg: Config, target: Target, s: State, w: WorkerId, seconds: int, until: int)
    requires OnTrack(cfg, target, s, w) && LeaseFor(s.db, w, until) && until <= s.now + 15_000
    ensures var t := Next(cfg, s, Acts(w, Clean(target, seconds))); w in t.claims ==> LeaseFor(t.db, w, until)
  {
    hide OnTrack, Inv, OnTarget, StatusAt, OnPath, Clean, LeaseFor, Holds,
      Stores, Controls, Loads, Materializes, Verifies, ReadsHead, CreatesHead, FoundPull, CreatesPull, Records;
    Track(cfg, target, s, w);
    OnPathOn(s.claims[w].pc, s.claims[w].entry);
    WritesLast(s, w, s.claims[w], seconds, until);
    OthersLast(cfg, s, w, s.claims[w], Clean(target, seconds));
    CleanIs(target, seconds);
  }

  lemma OnPathOn(pc: Pc, entry: Status)
    requires OnPath(pc, entry)
    ensures pc != Failing
  {
  }

  lemma CleanIs(target: Target, seconds: int)
    ensures var choice := Clean(target, seconds); !choice.fault && choice.seconds == seconds
  {
  }

  /** Writing the row keeps the lease or renews it, until the last write releases it. */
  lemma WritesLast(s: State, w: WorkerId, c: Claim, seconds: int, until: int)
    requires LeaseFor(s.db, w, until) && until <= s.now + 15_000
    ensures forall to, next :: LeaseFor(Stores(s, w, c, Advanced(s.db, w, s.now, to), next).db, w, until)
    ensures forall next :: LeaseFor(Stores(s, w, c, Materialized(s.db, w, s.now, c.tree, c.commit), next).db, w, until)
    ensures forall next :: LeaseFor(Controls(s, w, c, seconds, next).db, w, until)
    ensures w in Records(s, w, c).claims ==> LeaseFor(Records(s, w, c).db, w, until)
  {
    hide Permitted;
  }

  lemma OthersLast(cfg: Config, s: State, w: WorkerId, c: Claim, choice: Choice)
    ensures Loads(cfg, s, w, c, choice.accepts).db == Materializes(s, w, c, choice).db == Verifies(s, w, c).db == s.db
    ensures forall next :: ReadsHead(s, w, c, next).db == FoundPull(s, w, c, next).db == s.db
    ensures CreatesHead(s, w, c, choice.lost).db == CreatesPull(s, w, c, choice.lost).db == s.db
  {
  }

  lemma {:induction false} TimelyLease(cfg: Config, target: Target, s: State, w: WorkerId, steps: seq<Step>)
    requires OnTrack(cfg, target, s, w) && LeaseFor(s.db, w, s.now + 15_000)
    requires (forall step <- steps :: RerunStep(target, w, step)) && Timely(steps, w)
    ensures LeaseKept(cfg, s, steps, w)
    ensures var t := Run(cfg, s, steps); w in t.claims ==> LeaseFor(t.db, w, t.now + 15_000 - Elapsed(steps, w))
  {
    hide *;
    if steps == [] {
      TimelyStart(cfg, target, s, w);
    } else {
      var before, step := steps[..|steps| - 1], steps[|steps| - 1];
      assert step in steps && forall x <- before :: x in steps;
      TimelyShorter(steps, w);
      TimelyLease(cfg, target, s, w, before);
      RerunLeads(cfg, target, s, w, before);
      RunLast(cfg, s, steps);
      LeaseStep(cfg, target, Run(cfg, s, before), w, 20 - OwnSteps(before, w), step, Elapsed(before, w),
          Elapsed(steps, w));
      LeaseKeptLonger(cfg, s, steps, w);
    }
  }

  lemma TimelyStart(cfg: Config, target: Target, s: State, w: WorkerId)
    requires OnTrack(cfg, target, s, w) && LeaseFor(s.db, w, s.now + 15_000)
    ensures LeaseKept(cfg, s, [], w) && Run(cfg, s, []) == s && Elapsed([], w) == 0
  {
    hide OnTrack;
    Track(cfg, target, s, w);
  }

  lemma TimelyShorter(steps: seq<Step>, w: WorkerId)
    requires steps != [] && Timely(steps, w)
    ensures Timely(steps[..|steps| - 1], w) && Elapsed(steps, w) < 15_000
    ensures var before, last := Elapsed(steps[..|steps| - 1], w), steps[|steps| - 1];
            Elapsed(steps, w)
            == if last.Tick? then before + last.millis else if last.Beats? && last.worker == w then 0 else before
  {
    var before := steps[..|steps| - 1];
    assert steps[..|steps|] == steps;
    forall k | 0 <= k <= |before| ensures Elapsed(before[..k], w) < 15_000 { assert before[..k] == steps[..k]; }
  }

  lemma LeaseStep(cfg: Config, target: Target, s: State, w: WorkerId, left: int, step: Step, before: nat, after: nat)
    requires Leads(cfg, target, s, w, left) && RerunStep(target, w, step) && after < 15_000
    requires w in s.claims ==> LeaseFor(s.db, w, s.now + 15_000 - before)
    requires after == if step.Tick? then before + step.millis else if step.Beats? && step.worker == w then 0 else before
    ensures var t := Next(cfg, s, step);
            w in t.claims ==> LeaseFor(t.db, w, t.now + 15_000 - after) && Holds(t.db, w, t.now)
  {
    hide OnTrack, Done, Left, Next, Clean;
    NextTime(cfg, s, step);
    if w !in s.claims {
      DoneStays(cfg, target, s, w, step);
    } else if Own(step, w) {
      ActLasts(cfg, target, s, w, step.choice.seconds, s.now + 15_000 - before);
    } else {
      Track(cfg, target, s, w);
      WaitLasts(cfg, target, s, w, step, s.now + 15_000 - before);
    }
  }

  lemma NextTime(cfg: Config, s: State, step: Step)
    ensures Next(cfg, s, step).now == s.now + if step.Tick? then step.millis else 0
  {
  }

  lemma LeaseKeptLonger(cfg: Config, s: State, steps: seq<Step>, w: WorkerId)
    requires steps != [] && LeaseKept(cfg, s, steps[..|steps| - 1], w)
    requires var t := Run(cfg, s, steps); w in t.claims ==> Holds(t.db, w, t.now)
    ensures LeaseKept(cfg, s, steps, w)
  {
    hide Run;
    var before := steps[..|steps| - 1];
    forall k | 0 <= k <= |steps| ensures HoldsAt(cfg, s, steps[..k], w) {
      if k < |steps| {
        assert before[..k] == steps[..k];
        assert HoldsAt(cfg, s, before[..k], w);
      } else {
        assert steps[..k] == steps;
      }
    }
  }

  /** It is enough that fewer than fifteen seconds pass between heartbeats. */
  lemma TimelyRetryConverges(cfg: Config, target: Target, s: State, steps: seq<Step>, w: WorkerId, seconds: int,
                             rerun: seq<Step>)
    requires Fresh(cfg, target, s) && forall step <- steps :: Quiet(target, step)
    requires var stopped := Run(cfg, s, steps);
             w !in stopped.claims && Claimable(stopped.db, w, stopped.now) && stopped.db.attempts < cfg.maximumAttempts
    requires (forall step <- rerun :: RerunStep(target, w, step)) && OwnSteps(rerun, w) >= 20 && Timely(rerun, w)
    ensures Done(target, Run(cfg, AfterClaim(cfg, Run(cfg, s, steps), w, seconds), rerun))
  {
    hide *;
    QuietRun(cfg, target, s, steps);
    var stopped := Run(cfg, s, steps);
    ClaimOnTrack(cfg, target, stopped, w, seconds);
    ClaimLasts(cfg, stopped, w, seconds);
    TimelyLease(cfg, target, AfterClaim(cfg, stopped, w, seconds), w, rerun);
    RetryConverges(cfg, target, s, steps, w, seconds, rerun);
  }
}
