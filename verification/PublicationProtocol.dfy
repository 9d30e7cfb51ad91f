/**
 * The publication workers as a state machine: any number of workers, each making one atomic step at
 * a time against the leased row and a remote with create-only refs, with crashes, lost responses,
 * lease expiry, takeover, stale workers and a clock.
 */
module PublicationProtocol {
  import opened Wrappers
  import opened PublicationLifecycle
  import opened PublicationStore

  /** A pull request on the remote from the publication's head branch. */
  datatype PullRequest = PullRequest(number: nat, headSha: string, baseMatches: bool, isOpen: bool)

  /** The remote: tip of the base branch, the head branch if it exists, its pull requests, the next number. */
  datatype Remote = Remote(base: string, head: Option<string>, pulls: seq<PullRequest>, nextNumber: nat)

  datatype Config = Config(maximumAttempts: nat, baseCommit: string)

  /** Where a worker is in `processPublication`. */
  datatype Pc =
    | StartPolicy | Load | Control1 | StartMaterializing | CheckBase | CreateCommit | RecordCommit | VerifyExisting
    | Control2 | RetryBranch | ReadHead | CreateHead | ReadRacedHead | StartDraft | Control3 | RetryDraft
    | CheckBaseAgain | FindPull | CreatePull | FindRacedPull | RecordPull | Failing

  /** The commit fields of the loaded bundle; `materialized` says that a PublishedCommit row was found. */
  datatype Bundle = Bundle(tree: Option<string>, commit: Option<string>, materialized: bool)

  /** A live claim: local variables of one run of `processPublication`. */
  datatype Claim = Claim(pc: Pc, entry: Status, attempt: nat, beatFailed: bool, bundle: Bundle, tree: string,
      commit: string,
                         number: nat, headSha: string)

  /** A write to the remote by a claim with this attempt count. */
  datatype RemoteWrite = ObjectsWrite(attempt: nat) | RefWrite(attempt: nat, commit: string) | PullWrite(attempt: nat)

  /** One worker id has at most one live claim. */
  datatype State = State(db: Db, now: int, remote: Remote, claims: map<WorkerId, Claim>, writes: seq<RemoteWrite>)

  /** What a step does not decide itself: faults, lost responses, the policy verdict, names the remote returns. */
  datatype Choice = Choice(fault: bool, lost: bool, accepts: bool, tree: string, commit: string, seconds: int,
      failure: Status)

  datatype Step =
    | Tick(millis: nat) | BaseMoves(sha: string) | PullCloses(number: nat) | PullOpens(baseMatches: bool)
    | Monitored(to: Status) | CancelRequested
    | Claims(worker: WorkerId, seconds: int) | Crashes(worker: WorkerId) | Beats(worker: WorkerId, seconds: int)
    | Acts(worker: WorkerId, choice: Choice)

  const NO_BUNDLE := Bundle(None, None, false)

  /** The statuses `classifyPublicationFailure` can give. */
  predicate FailureStatus(s: Status) {
    s in {PublicationBlocked, BaseBranchStale, SecurityBlocked, PushFailed, PrCreationFailed, Cancelled}
  }

  // One worker step. Each function gives the state after it.

  function With(s: State, w: WorkerId, c: Claim): State { s.(claims := s.claims[w := c]) }
  function Fails(s: State, w: WorkerId, c: Claim): State { With(s, w, c.(pc := Failing)) }
  function Leaves(s: State, w: WorkerId): State { s.(claims := s.claims - {w}) }

  /** A fenced store write followed by `next`, or failure. */
  function Stores(s: State, w: WorkerId, c: Claim, r: Result<Db, StoreError>, next: Pc): State {
    match r
    case Err(_) => Fails(s, w, c)
    case Ok(db) => With(s.(db := db), w, c.(pc := next))
  }

  /** `checkControl`: a failed timer beat, a lost lease or a cancellation request stops the run. */
  function Controls(s: State, w: WorkerId, c: Claim, seconds: int, next: Pc): State {
    if c.beatFailed then Fails(s, w, c)
    else
      match Beaten(s.db, w, s.now, seconds)
      case Err(_) => Fails(s, w, c)
      case Ok(db) => if db.cancellation then Fails(s.(db := db), w, c) else With(s.(db := db), w, c.(pc := next))
  }

  function OpenPull(pulls: seq<PullRequest>): Option<PullRequest> {
    if pulls == [] then None else if pulls[0].isOpen then Some(pulls[0]) else OpenPull(pulls[1..])
  }

  predicate PullMatches(p: PullRequest, commit: string) { p.baseMatches && p.headSha == commit }

  function FoundPull(s: State, w: WorkerId, c: Claim, otherwise: Pc): State {
    match OpenPull(s.remote.pulls)
    case None => With(s, w, c.(pc := otherwise))
    case Some(p) =>
      if PullMatches(p, c.commit) then With(s, w, c.(pc := RecordPull, number := p.number,
          headSha := p.headSha)) else Fails(s, w, c)
  }

  function Loads(cfg: Config, s: State, w: WorkerId, c: Claim, accepts: bool): State {
    if !accepts || s.db.attempts > cfg.maximumAttempts then Fails(s, w, c)
    else With(s, w, c.(pc := Control1, bundle := Bundle(s.db.tree, s.db.commit, s.db.published.Some?)))
  }

  function Materializes(s: State, w: WorkerId, c: Claim, choice: Choice): State {
    var written := s.(writes := s.writes + [ObjectsWrite(c.attempt)]);
    if choice.lost then Fails(written, w, c)
    else With(written, w, c.(pc := RecordCommit, tree := choice.tree, commit := choice.commit))
  }

  function Verifies(s: State, w: WorkerId, c: Claim): State {
    if c.bundle.commit.Some? && c.bundle.tree.Some? && c.bundle.materialized
    then With(s, w, c.(pc := Control2, tree := c.bundle.tree.value, commit := c.bundle.commit.value))
    else Fails(s, w, c)
  }

  function ReadsHead(s: State, w: WorkerId, c: Claim, otherwise: Pc): State {
    if s.remote.head == Some(c.commit) then With(s, w, c.(pc := StartDraft))
    else if s.remote.head.Some? then Fails(s, w, c)
    else With(s, w, c.(pc := otherwise))
  }

  /** Refs can only be created: an existing head branch answers 422. */
  function CreatesHead(s: State, w: WorkerId, c: Claim, lost: bool): State {
    if s.remote.head.Some? then With(s, w, c.(pc := ReadRacedHead))
    else
      var written := s.(remote := s.remote.(head := Some(c.commit)),
                        writes := s.writes + [RefWrite(c.attempt, c.commit)]);
      if lost then Fails(written, w, c) else With(written, w, c.(pc := StartDraft))
  }

  /** At most one open pull request per head branch: a second one answers 422, as does a missing head. */
  function CreatesPull(s: State, w: WorkerId, c: Claim, lost: bool): State {
    if OpenPull(s.remote.pulls).Some? then With(s, w, c.(pc := FindRacedPull))
    else if s.remote.head.None? then With(s, w, c.(pc := FindRacedPull))
    else
      var pull := PullRequest(s.remote.nextNumber, s.remote.head.value, true, true);
      var written := s.(remote := s.remote.(pulls := s.remote.pulls + [pull], nextNumber := s.remote.nextNumber + 1),
                        writes := s.writes + [PullWrite(c.attempt)]);
      if lost then Fails(written, w, c) else With(written, w, c.(pc := RecordPull, number := pull.number,
          headSha := pull.headSha))
  }

  function Records(s: State, w: WorkerId, c: Claim): State {
    match Recorded(s.db, w, s.now, c.number, c.headSha)
    case Err(_) => Fails(s, w, c)
    case Ok(db) => Leaves(s.(db := db), w)
  }

  function GivesUp(s: State, w: WorkerId, failure: Status): State {
    match Failed(s.db, w, s.now, failure)
    case Err(_) => Leaves(s, w)
    case Ok(db) => Leaves(s.(db := db), w)
  }

  /** The next step of worker `w`, in the order of the source. */
  function Act(cfg: Config, s: State, w: WorkerId, choice: Choice): State
    requires w in s.claims
  {
    var c := s.claims[w];
    if c.pc == Failing then (if FailureStatus(choice.failure) then GivesUp(s, w, choice.failure) else s)
    else if choice.fault then Fails(s, w, c)
    else
      match c.pc
      case StartPolicy =>
        if c.entry == PublicationRequested then Stores(s, w, c, Advanced(s.db, w, s.now, PolicyCheck), Load)
            else With(s, w, c.(pc := Load))
      case Load => Loads(cfg, s, w, c, choice.accepts)
      case Control1 => Controls(s, w, c, choice.seconds, StartMaterializing)
      case StartMaterializing =>
        if Stage(c.entry) < 2 then Stores(s, w, c, Advanced(s.db, w, s.now, CommitMaterializing), CheckBase)
        else With(s, w, c.(pc := if Stage(c.entry) < 3 then CheckBase else VerifyExisting))
      case CheckBase => if s.remote.base == cfg.baseCommit then With(s, w, c.(pc := CreateCommit)) else Fails(s, w, c)
      case CreateCommit => Materializes(s, w, c, choice)
      case RecordCommit => Stores(s, w, c, Materialized(s.db, w, s.now, c.tree, c.commit), Control2)
      case VerifyExisting => Verifies(s, w, c)
      case Control2 => Controls(s, w, c, choice.seconds, RetryBranch)
      case RetryBranch =>
        if c.entry == PushFailed then Stores(s, w, c, Advanced(s.db, w, s.now, BranchPublishing), ReadHead)
            else With(s, w, c.(pc := ReadHead))
      case ReadHead => ReadsHead(s, w, c, CreateHead)
      case CreateHead => CreatesHead(s, w, c, choice.lost)
      case ReadRacedHead => ReadsHead(s, w, c, Failing)
      case StartDraft =>
        if Stage(c.entry) < 4 then Stores(s, w, c, Advanced(s.db, w, s.now, DraftPrCreating), Control3)
            else With(s, w, c.(pc := Control3))
      case Control3 => Controls(s, w, c, choice.seconds, RetryDraft)
      case RetryDraft =>
        if c.entry == PrCreationFailed then Stores(s, w, c, Advanced(s.db, w, s.now, DraftPrCreating), CheckBaseAgain)
        else With(s, w, c.(pc := CheckBaseAgain))
      case CheckBaseAgain => if s.remote.base == cfg.baseCommit then With(s, w, c.(pc := FindPull)) else Fails(s, w, c)
      case FindPull => FoundPull(s, w, c, CreatePull)
      case CreatePull => CreatesPull(s, w, c, choice.lost)
      case FindRacedPull => FoundPull(s, w, c, Failing)
      case RecordPull => Records(s, w, c)
  }

  /** A new claim, if the row can be claimed and the worker id has no live one. */
  function Starts(s: State, w: WorkerId, seconds: int): State {
    if w !in s.claims && Claimable(s.db, w, s.now) then
      With(s.(db := Claimed(s.db, w, s.now, seconds)), w,
           Claim(StartPolicy, s.db.status, s.db.attempts + 1, false, NO_BUNDLE, "", "", 0, ""))
    else s
  }

  /** The heartbeat timer of a live claim. */
  function TimerBeats(s: State, w: WorkerId, c: Claim, seconds: int): State {
    match Beaten(s.db, w, s.now, seconds)
    case Err(_) => With(s, w, c.(beatFailed := true))
    case Ok(db) => With(s.(db := db), w, c.(beatFailed := c.beatFailed || db.cancellation))
  }

  function Close(pulls: seq<PullRequest>, number: nat): seq<PullRequest> {
    if pulls == [] then []
    else
      var first := if pulls[0].number == number then pulls[0].(isOpen := false) else pulls[0];
      [first] + Close(pulls[1..], number)
  }

  /** One step of the system; a step that is not enabled changes nothing. */
  function Next(cfg: Config, s: State, step: Step): State {
    match step
    case Tick(millis) => s.(now := s.now + millis)
    case BaseMoves(sha) => s.(remote := s.remote.(base := sha))
    case PullCloses(number) => s.(remote := s.remote.(pulls := Close(s.remote.pulls, number)))
    case PullOpens(baseMatches) =>
      if OpenPull(s.remote.pulls).Some? || s.remote.head.None? then s
      else
        var pull := PullRequest(s.remote.nextNumber, s.remote.head.value, baseMatches, true);
        s.(remote := s.remote.(pulls := s.remote.pulls + [pull], nextNumber := s.remote.nextNumber + 1))
    case Monitored(to) =>
      if !Executable(s.db.status) && Permitted(s.db.status, to)
      then s.(db := s.db.(status := to, version := s.db.version + 1))
      else s
    case CancelRequested => s.(db := s.db.(cancellation := true))
    case Claims(w, seconds) => Starts(s, w, seconds)
    case Crashes(w) => Leaves(s, w)
    case Beats(w, seconds) => if w in s.claims then TimerBeats(s, w, s.claims[w], seconds) else s
    case Acts(w, choice) => if w in s.claims then Act(cfg, s, w, choice) else s
  }

  function Run(cfg: Config, s: State, steps: seq<Step>): State {
    if steps == [] then s else Next(cfg, Run(cfg, s, steps[..|steps| - 1]), steps[|steps| - 1])
  }

  /** A publication just requested, on any remote. */
  predicate Initial(s: State) {
    s.db == Db(PublicationRequested, 0, None, 0, false, None, None, None, None, None) && s.claims == map[]
        && s.writes == []
  }

  // No guard is skipped.

  /**
   * A worker gets past a place only if what is checked there holds: the bundle is accepted within the
   * attempt limit, the lease is held and no cancellation requested, the base has not moved, an existing
   * commit was loaded, the branch is free or at its commit, the pull request found is for it.
   */
  lemma GuardsHold(cfg: Config, s: State, w: WorkerId, choice: Choice)
    requires w in s.claims && w in Act(cfg, s, w, choice).claims && Act(cfg, s, w, choice).claims[w].pc != Failing
    ensures var c, next := s.claims[w], Act(cfg, s, w, choice).claims[w].pc;
            && !choice.fault
            && (c.pc == Load ==> choice.accepts && s.db.attempts <= cfg.maximumAttempts)
            && (c.pc in {Control1, Control2, Control3} ==> Holds(s.db, w, s.now) && !s.db.cancellation && !c.beatFailed)
            && (c.pc in {CheckBase, CheckBaseAgain} ==> s.remote.base == cfg.baseCommit)
            && (c.pc == VerifyExisting ==> c.bundle.materialized && c.bundle.commit.Some? && c.bundle.tree.Some?)
            && (c.pc in {ReadHead, ReadRacedHead} && next == StartDraft ==> s.remote.head == Some(c.commit))
            && (c.pc in {ReadHead, ReadRacedHead} && next != StartDraft ==>
                  c.pc == ReadHead && next == CreateHead && s.remote.head.None?)
            && (c.pc in {FindPull, FindRacedPull} && next == RecordPull ==>
                  OpenPull(s.remote.pulls).Some? && OpenPull(s.remote.pulls).value.headSha == c.commit
                  && OpenPull(s.remote.pulls).value.baseMatches)
            && (c.pc in {FindPull, FindRacedPull} && next != RecordPull ==>
                  c.pc == FindPull && next == CreatePull && OpenPull(s.remote.pulls).None?)
  {
    hide Advanced, Materialized, Recorded, Failed, OpenPull;
    var c := s.claims[w];
    if c.pc == Failing { GaveUp(s, w, choice.failure); }
  }

  lemma GaveUp(s: State, w: WorkerId, failure: Status)
    ensures w !in GivesUp(s, w, failure).claims
  {
  }

  // The invariant.

  /**
   * The row's commit is the published one; the statuses past the commit have it; a recorded pull
   * request has it as head.
   */
  ghost predicate RowsAgree(db: Db) {
    && (db.published.None? ==> db.commit.None? && db.tree.None? && db.record.None?)
    && (db.published.Some? ==> db.commit == Some(db.published.value.commit) && db.tree == Some(db.published.value.tree))
    && (PastCommit(db.status) ==> db.published.Some?)
    && (db.record.Some? ==> db.record.value.headSha == db.published.value.commit)
  }

  predicate IsPublished(db: Db, commit: string) { db.published.Some? && db.published.value.commit == commit }

  predicate Checked(pc: Pc) { pc != StartPolicy && pc != Load && pc != Failing }

  predicate HasCommit(pc: Pc) {
    pc.Control2? || pc.RetryBranch? || pc.ReadHead? || pc.CreateHead? || pc.ReadRacedHead? || HasBranch(pc)
  }

  predicate HasBranch(pc: Pc) {
    pc.StartDraft? || pc.Control3? || pc.RetryDraft? || pc.CheckBaseAgain? || pc.FindPull? || pc.CreatePull?
        || pc.FindRacedPull?
    || pc.RecordPull?
  }

  ghost predicate ClaimSound(cfg: Config, db: Db, head: Option<string>, c: Claim) {
    && c.attempt <= db.attempts
    && (Checked(c.pc) ==> c.attempt <= cfg.maximumAttempts)
    && (c.bundle.commit.Some? ==> IsPublished(db, c.bundle.commit.value))
    && (HasCommit(c.pc) ==> IsPublished(db, c.commit))
    && (HasBranch(c.pc) ==> head == Some(c.commit))
    && (c.pc == RecordPull ==> c.headSha == c.commit)
  }

  ghost predicate WriteSound(cfg: Config, db: Db, write: RemoteWrite) {
    write.attempt <= cfg.maximumAttempts && (write.RefWrite? ==> IsPublished(db, write.commit))
  }

  ghost predicate Inv(cfg: Config, s: State) {
    && RowsAgree(s.db)
    && (forall w | w in s.claims :: ClaimSound(cfg, s.db, s.remote.head, s.claims[w]))
    && (forall write <- s.writes :: WriteSound(cfg, s.db, write))
  }

  /**
   * What no step undoes: the published commit, the head branch, the recorded pull request, the
   * attempts, the writes.
   */
  ghost predicate Extends(s: State, t: State) {
    && (s.db.published.Some? ==> t.db.published == s.db.published)
    && (s.remote.head.Some? ==> t.remote.head == s.remote.head)
    && (s.db.record.Some? ==> t.db.record == s.db.record)
    && s.db.attempts <= t.db.attempts && s.writes <= t.writes
  }

  // Every step keeps it.

  /** A step of worker `w` (or of none) that extends the state and leaves the other claims as they were. */
  lemma InvFrom(cfg: Config, s: State, t: State, w: WorkerId)
    requires Inv(cfg, s) && Extends(s, t) && RowsAgree(t.db)
    requires forall v | v in t.claims && v != w :: v in s.claims && t.claims[v] == s.claims[v]
    requires w in t.claims ==> ClaimSound(cfg, t.db, t.remote.head, t.claims[w])
    requires forall write <- t.writes[|s.writes|..] :: WriteSound(cfg, t.db, write)
    ensures Inv(cfg, t)
  {
    hide RowsAgree;
    forall v | v in t.claims ensures ClaimSound(cfg, t.db, t.remote.head, t.claims[v]) { }
    forall write | write in t.writes ensures WriteSound(cfg, t.db, write) {
      assert t.writes == s.writes + t.writes[|s.writes|..];
      if write in s.writes { assert WriteSound(cfg, s.db, write); }
    }
  }

  lemma AdvanceKeeps(db: Db, w: WorkerId, now: int, to: Status)
    requires RowsAgree(db) && (PastCommit(to) ==> db.published.Some?)
    ensures var r := Advanced(db, w, now, to);
            r.Ok? ==>
              RowsAgree(r.value) && r.value.published == db.published && r.value.record == db.record
              && r.value.attempts == db.attempts
  {
  }

  lemma MaterializeKeeps(db: Db, w: WorkerId, now: int, tree: string, commit: string)
    requires RowsAgree(db)
    ensures var r := Materialized(db, w, now, tree, commit);
            r.Ok? ==>
              RowsAgree(r.value) && IsPublished(r.value, commit)
              && (db.published.Some? ==> r.value.published == db.published) && r.value.record == db.record
              && r.value.attempts == db.attempts
  {
  }

  lemma RecordKeeps(db: Db, w: WorkerId, now: int, number: nat, headSha: string)
    requires RowsAgree(db) && IsPublished(db, headSha)
    ensures var r := Recorded(db, w, now, number, headSha);
            r.Ok? ==>
              RowsAgree(r.value) && r.value.published == db.published
              && (db.record.Some? ==> r.value.record == db.record) && r.value.attempts == db.attempts
  {
  }

  lemma FailKeeps(db: Db, w: WorkerId, now: int, status: Status)
    requires RowsAgree(db) && FailureStatus(status)
    ensures var r := Failed(db, w, now, status);
            r.Ok? ==>
              RowsAgree(r.value) && r.value.published == db.published && r.value.record == db.record
              && r.value.attempts == db.attempts
  {
    if db.status != status && Permitted(db.status, status) && PastCommit(status) && !PastCommit(db.status) {
      OneWayPastCommit(db.status, status);
    }
  }

  /** A claim that moves on without touching anything shared, or fails. */
  lemma WithKeeps(cfg: Config, s: State, w: WorkerId, c: Claim)
    requires Inv(cfg, s) && ClaimSound(cfg, s.db, s.remote.head, c)
    ensures Inv(cfg, With(s, w, c)) && Extends(s, With(s, w, c))
  {
    hide ClaimSound, RowsAgree, WriteSound;
    InvFrom(cfg, s, With(s, w, c), w);
  }

  lemma FailsKeeps(cfg: Config, s: State, w: WorkerId)
    requires Inv(cfg, s) && w in s.claims
    ensures Inv(cfg, Fails(s, w, s.claims[w])) && Extends(s, Fails(s, w, s.claims[w]))
  {
    assert ClaimSound(cfg, s.db, s.remote.head, s.claims[w]);
    WithKeeps(cfg, s, w, s.claims[w].(pc := Failing));
  }

  /** What a fenced write may do to the rows. */
  ghost predicate RowsExtend(db: Db, next: Db) {
    && RowsAgree(next) && (db.published.Some? ==> next.published == db.published)
    && (db.record.Some? ==> next.record == db.record) && db.attempts <= next.attempts
  }

  lemma StoresKeep(cfg: Config, s: State, w: WorkerId, r: Result<Db, StoreError>, next: Pc)
    requires Inv(cfg, s) && w in s.claims
    requires r.Ok? ==> RowsExtend(s.db, r.value) && ClaimSound(cfg, r.value, s.remote.head, s.claims[w].(pc := next))
    ensures var t := Stores(s, w, s.claims[w], r, next); Inv(cfg, t) && Extends(s, t)
  {
    hide ClaimSound, RowsAgree, WriteSound;
    match r {
      case Err(_) => FailsKeeps(cfg, s, w);
      case Ok(db) => InvFrom(cfg, s, Stores(s, w, s.claims[w], r, next), w);
    }
  }

  lemma AdvancesKeep(cfg: Config, s: State, w: WorkerId, to: Status, next: Pc)
    requires Inv(cfg, s) && w in s.claims && (PastCommit(to) ==> s.db.published.Some?)
    requires ClaimSound(cfg, s.db, s.remote.head, s.claims[w].(pc := next))
    ensures var t := Stores(s, w, s.claims[w], Advanced(s.db, w, s.now, to), next); Inv(cfg, t) && Extends(s, t)
  {
    AdvanceKeeps(s.db, w, s.now, to);
    hide Advanced, RowsAgree, WriteSound;
    StoresKeep(cfg, s, w, Advanced(s.db, w, s.now, to), next);
  }

  lemma BeatKeeps(db: Db, w: WorkerId, now: int, seconds: int)
    requires RowsAgree(db)
    ensures var r := Beaten(db, w, now, seconds);
            r.Ok? ==> RowsAgree(r.value) && r.value == db.(lease := r.value.lease)
  {
  }

  lemma ControlsKeep(cfg: Config, s: State, w: WorkerId, seconds: int, next: Pc)
    requires Inv(cfg, s) && w in s.claims && ClaimSound(cfg, s.db, s.remote.head, s.claims[w].(pc := next))
    ensures var t := Controls(s, w, s.claims[w], seconds, next); Inv(cfg, t) && Extends(s, t)
  {
    hide Beaten, RowsAgree, WriteSound;
    InvClaim(cfg, s, w);
    FailsKeeps(cfg, s, w);
    BeatKeeps(s.db, w, s.now, seconds);
    var r := Beaten(s.db, w, s.now, seconds);
    if r.Ok? && !s.claims[w].beatFailed { InvFrom(cfg, s, Controls(s, w, s.claims[w], seconds, next), w); }
  }

  lemma ControlKeeps(cfg: Config, s: State, w: WorkerId, choice: Choice)
    requires Inv(cfg, s) && w in s.claims && s.claims[w].pc in {Control1, Control2, Control3} && !choice.fault
    ensures Inv(cfg, Act(cfg, s, w, choice)) && Extends(s, Act(cfg, s, w, choice))
  {
    hide Inv, Extends, Controls;
    InvClaim(cfg, s, w);
    match s.claims[w].pc {
      case Control1 => ControlsKeep(cfg, s, w, choice.seconds, StartMaterializing);
      case Control2 => ControlsKeep(cfg, s, w, choice.seconds, RetryBranch);
      case Control3 => ControlsKeep(cfg, s, w, choice.seconds, RetryDraft);
      case _ =>
    }
  }

  lemma StoreKeeps(cfg: Config, s: State, w: WorkerId, choice: Choice)
    requires Inv(cfg, s) && w in s.claims && !choice.fault
    requires s.claims[w].pc in {StartPolicy, StartMaterializing, RecordCommit, RetryBranch, StartDraft, RetryDraft}
    ensures Inv(cfg, Act(cfg, s, w, choice)) && Extends(s, Act(cfg, s, w, choice))
  {
    hide RowsAgree, Advanced, Materialized, Inv, Extends, Stores, With;
    var c := s.claims[w];
    InvClaim(cfg, s, w);
    match c.pc {
      case StartPolicy =>
        if c.entry == PublicationRequested {
          AdvancesKeep(cfg, s, w, PolicyCheck, Load);
        } else {
          WithKeeps(cfg, s, w, c.(pc := Load));
        }
      case StartMaterializing =>
        if Stage(c.entry) < 2 { AdvancesKeep(cfg, s, w, CommitMaterializing, CheckBase); }
        else { WithKeeps(cfg, s, w, c.(pc := if Stage(c.entry) < 3 then CheckBase else VerifyExisting)); }
      case RecordCommit => CommitKeeps(cfg, s, w);
      case RetryBranch =>
        if c.entry == PushFailed {
          AdvancesKeep(cfg, s, w, BranchPublishing, ReadHead);
        } else {
          WithKeeps(cfg, s, w, c.(pc := ReadHead));
        }
      case StartDraft =>
        if Stage(c.entry) < 4 {
          AdvancesKeep(cfg, s, w, DraftPrCreating, Control3);
        } else {
          WithKeeps(cfg, s, w, c.(pc := Control3));
        }
      case _ =>
        if c.entry == PrCreationFailed {
          AdvancesKeep(cfg, s, w, DraftPrCreating, CheckBaseAgain);
        } else {
          WithKeeps(cfg, s, w, c.(pc := CheckBaseAgain));
        }
    }
  }

  lemma InvClaim(cfg: Config, s: State, w: WorkerId)
    requires Inv(cfg, s) && w in s.claims
    ensures ClaimSound(cfg, s.db, s.remote.head, s.claims[w]) && RowsAgree(s.db)
  {
  }

  lemma CommitKeeps(cfg: Config, s: State, w: WorkerId)
    requires Inv(cfg, s) && w in s.claims && s.claims[w].pc == RecordCommit
    ensures var c := s.claims[w];
            var t := Stores(s, w, c, Materialized(s.db, w, s.now, c.tree, c.commit), Control2);
            Inv(cfg, t) && Extends(s, t)
  {
    hide Materialized, RowsAgree, WriteSound;
    var c := s.claims[w];
    InvClaim(cfg, s, w);
    MaterializeKeeps(s.db, w, s.now, c.tree, c.commit);
    StoresKeep(cfg, s, w, Materialized(s.db, w, s.now, c.tree, c.commit), Control2);
  }

  /** A claim that makes one sound remote write and moves on or fails. */
  lemma WritesKeep(cfg: Config, s: State, remote: Remote, write: RemoteWrite, w: WorkerId, c: Claim)
    requires Inv(cfg, s) && WriteSound(cfg, s.db, write) && (s.remote.head.Some? ==> remote.head == s.remote.head)
    requires ClaimSound(cfg, s.db, remote.head, c)
    ensures var t := With(s.(remote := remote, writes := s.writes + [write]), w, c); Inv(cfg, t) && Extends(s, t)
  {
    hide ClaimSound, RowsAgree, WriteSound;
    var t := With(s.(remote := remote, writes := s.writes + [write]), w, c);
    assert t.writes[|s.writes|..] == [write];
    HeadsKeep(cfg, s, remote.head);
    forall v | v in t.claims && v != w ensures v in s.claims && t.claims[v] == s.claims[v] { }
    InvFrom(cfg, s, t, w);
  }

  lemma HeadsKeep(cfg: Config, s: State, head: Option<string>)
    requires Inv(cfg, s) && (s.remote.head.Some? ==> head == s.remote.head)
    ensures forall v | v in s.claims :: ClaimSound(cfg, s.db, head, s.claims[v])
  {
  }

  lemma RemoteKeeps(cfg: Config, s: State, w: WorkerId, choice: Choice)
    requires Inv(cfg, s) && w in s.claims && !choice.fault
    requires s.claims[w].pc in {CheckBase, CreateCommit, ReadHead, CreateHead, ReadRacedHead, CheckBaseAgain,
          CreatePull}
    ensures Inv(cfg, Act(cfg, s, w, choice)) && Extends(s, Act(cfg, s, w, choice))
  {
    hide RowsAgree, Inv, Extends, With, OpenPull;
    var c := s.claims[w];
    InvClaim(cfg, s, w);
    FailsKeeps(cfg, s, w);
    match c.pc {
      case CheckBase => WithKeeps(cfg, s, w, c.(pc := CreateCommit));
      case CreateCommit =>
        WritesKeep(cfg, s, s.remote, ObjectsWrite(c.attempt), w, c.(pc := Failing));
        WritesKeep(cfg, s, s.remote, ObjectsWrite(c.attempt), w, c.(pc := RecordCommit, tree := choice.tree,
            commit := choice.commit));
      case ReadHead => HeadKeeps(cfg, s, w, CreateHead);
      case CreateHead => CreateHeadKeeps(cfg, s, w, choice.lost);
      case ReadRacedHead => HeadKeeps(cfg, s, w, Failing);
      case CheckBaseAgain => WithKeeps(cfg, s, w, c.(pc := FindPull));
      case _ => CreatePullKeeps(cfg, s, w, choice.lost);
    }
  }

  lemma HeadKeeps(cfg: Config, s: State, w: WorkerId, otherwise: Pc)
    requires Inv(cfg, s) && w in s.claims && HasCommit(s.claims[w].pc) && !HasBranch(otherwise)
        && (otherwise == Failing || HasCommit(otherwise))
    ensures var t := ReadsHead(s, w, s.claims[w], otherwise); Inv(cfg, t) && Extends(s, t)
  {
    hide RowsAgree, Inv, Extends, With;
    var c := s.claims[w];
    InvClaim(cfg, s, w);
    FailsKeeps(cfg, s, w);
    if s.remote.head == Some(c.commit) { WithKeeps(cfg, s, w, c.(pc := StartDraft)); }
    else if s.remote.head.None? { WithKeeps(cfg, s, w, c.(pc := otherwise)); }
  }

  lemma CreateHeadKeeps(cfg: Config, s: State, w: WorkerId, lost: bool)
    requires Inv(cfg, s) && w in s.claims && s.claims[w].pc == CreateHead
    ensures var t := CreatesHead(s, w, s.claims[w], lost); Inv(cfg, t) && Extends(s, t)
  {
    hide RowsAgree, Inv, Extends, With;
    var c := s.claims[w];
    InvClaim(cfg, s, w);
    if s.remote.head.Some? {
      WithKeeps(cfg, s, w, c.(pc := ReadRacedHead));
    } else {
      var created := s.remote.(head := Some(c.commit));
      WritesKeep(cfg, s, created, RefWrite(c.attempt, c.commit), w, c.(pc := Failing));
      WritesKeep(cfg, s, created, RefWrite(c.attempt, c.commit), w, c.(pc := StartDraft));
    }
  }

  lemma CreatePullKeeps(cfg: Config, s: State, w: WorkerId, lost: bool)
    requires Inv(cfg, s) && w in s.claims && s.claims[w].pc == CreatePull
    ensures var t := CreatesPull(s, w, s.claims[w], lost); Inv(cfg, t) && Extends(s, t)
  {
    hide RowsAgree, Inv, Extends, With, OpenPull;
    var c := s.claims[w];
    InvClaim(cfg, s, w);
    if OpenPull(s.remote.pulls).Some? || s.remote.head.None? {
      WithKeeps(cfg, s, w, c.(pc := FindRacedPull));
    } else {
      var pull := PullRequest(s.remote.nextNumber, s.remote.head.value, true, true);
      var created := s.remote.(pulls := s.remote.pulls + [pull], nextNumber := s.remote.nextNumber + 1);
      WritesKeep(cfg, s, created, PullWrite(c.attempt), w, c.(pc := Failing));
      WritesKeep(cfg, s, created, PullWrite(c.attempt), w, c.(pc := RecordPull, number := pull.number,
          headSha := pull.headSha));
    }
  }

  lemma LocalKeeps(cfg: Config, s: State, w: WorkerId, choice: Choice)
    requires Inv(cfg, s) && w in s.claims && !choice.fault
    requires s.claims[w].pc in {Load, VerifyExisting, FindPull, FindRacedPull, RecordPull}
    ensures Inv(cfg, Act(cfg, s, w, choice)) && Extends(s, Act(cfg, s, w, choice))
  {
    hide Inv, Extends, With, OpenPull, Recorded;
    var c := s.claims[w];
    InvClaim(cfg, s, w);
    FailsKeeps(cfg, s, w);
    match c.pc {
      case Load =>
        if s.db.attempts <= cfg.maximumAttempts {
          WithKeeps(cfg, s, w, c.(pc := Control1, bundle := Bundle(s.db.tree, s.db.commit, s.db.published.Some?)));
        }
      case VerifyExisting =>
        if c.bundle.commit.Some? && c.bundle.tree.Some? {
          WithKeeps(cfg, s, w, c.(pc := Control2, tree := c.bundle.tree.value, commit := c.bundle.commit.value));
        }
      case RecordPull => RecordsKeep(cfg, s, w);
      case FindPull => FoundKeeps(cfg, s, w, CreatePull);
      case FindRacedPull => FoundKeeps(cfg, s, w, Failing);
      case _ =>
    }
  }

  lemma FoundKeeps(cfg: Config, s: State, w: WorkerId, otherwise: Pc)
    requires Inv(cfg, s) && w in s.claims && s.claims[w].pc in {FindPull, FindRacedPull}
        && otherwise in {CreatePull, Failing}
    ensures var t := FoundPull(s, w, s.claims[w], otherwise); Inv(cfg, t) && Extends(s, t)
  {
    hide Inv, Extends, With, OpenPull, RowsAgree;
    var c := s.claims[w];
    InvClaim(cfg, s, w);
    FailsKeeps(cfg, s, w);
    match OpenPull(s.remote.pulls) {
      case None => WithKeeps(cfg, s, w, c.(pc := otherwise));
      case Some(p) =>
        if PullMatches(p, c.commit) {
          WithKeeps(cfg, s, w, c.(pc := RecordPull, number := p.number, headSha := p.headSha));
        }
    }
  }

  lemma RecordsKeep(cfg: Config, s: State, w: WorkerId)
    requires Inv(cfg, s) && w in s.claims && s.claims[w].pc == RecordPull
    ensures var t := Records(s, w, s.claims[w]); Inv(cfg, t) && Extends(s, t)
  {
    hide Recorded, RowsAgree, WriteSound;
    var c := s.claims[w];
    InvClaim(cfg, s, w);
    FailsKeeps(cfg, s, w);
    RecordKeeps(s.db, w, s.now, c.number, c.headSha);
    var r := Recorded(s.db, w, s.now, c.number, c.headSha);
    if r.Ok? { InvFrom(cfg, s, Leaves(s.(db := r.value), w), w); }
  }

  lemma ActKeeps(cfg: Config, s: State, w: WorkerId, choice: Choice)
    requires Inv(cfg, s) && w in s.claims
    ensures Inv(cfg, Act(cfg, s, w, choice)) && Extends(s, Act(cfg, s, w, choice))
  {
    var c := s.claims[w];
    if c.pc == Failing {
      if FailureStatus(choice.failure) { FailKeeps(s.db, w, s.now, choice.failure); }
      hide Failed, RowsAgree;
      InvFrom(cfg, s, Act(cfg, s, w, choice), w);
    } else if choice.fault {
      InvFrom(cfg, s, Act(cfg, s, w, choice), w);
    } else {
      hide Act;
      match c.pc {
        case Control1 => ControlKeeps(cfg, s, w, choice);
        case Control2 => ControlKeeps(cfg, s, w, choice);
        case Control3 => ControlKeeps(cfg, s, w, choice);
        case StartPolicy => StoreKeeps(cfg, s, w, choice);
        case StartMaterializing => StoreKeeps(cfg, s, w, choice);
        case RecordCommit => StoreKeeps(cfg, s, w, choice);
        case RetryBranch => StoreKeeps(cfg, s, w, choice);
        case StartDraft => StoreKeeps(cfg, s, w, choice);
        case RetryDraft => StoreKeeps(cfg, s, w, choice);
        case Load => LocalKeeps(cfg, s, w, choice);
        case VerifyExisting => LocalKeeps(cfg, s, w, choice);
        case FindPull => LocalKeeps(cfg, s, w, choice);
        case FindRacedPull => LocalKeeps(cfg, s, w, choice);
        case RecordPull => LocalKeeps(cfg, s, w, choice);
        case _ => RemoteKeeps(cfg, s, w, choice);
      }
    }
  }

  lemma ClaimKeeps(cfg: Config, s: State, w: WorkerId, seconds: int)
    requires Inv(cfg, s)
    ensures var t := Starts(s, w, seconds); Inv(cfg, t) && Extends(s, t)
  {
    hide RowsAgree, WriteSound, Claimable;
    ClaimedAgrees(s.db, w, s.now, seconds);
    InvFrom(cfg, s, Starts(s, w, seconds), w);
  }

  lemma ClaimedAgrees(db: Db, w: WorkerId, now: int, seconds: int)
    ensures RowsAgree(Claimed(db, w, now, seconds)) <==> RowsAgree(db)
  {
  }

  lemma BeatsKeep(cfg: Config, s: State, w: WorkerId, seconds: int)
    requires Inv(cfg, s) && w in s.claims
    ensures var t := TimerBeats(s, w, s.claims[w], seconds); Inv(cfg, t) && Extends(s, t)
  {
    hide Beaten, RowsAgree, WriteSound;
    InvClaim(cfg, s, w);
    BeatKeeps(s.db, w, s.now, seconds);
    InvFrom(cfg, s, TimerBeats(s, w, s.claims[w], seconds), w);
  }

  /** The row moves to a status of its table, or is asked to cancel. */
  lemma RowKeeps(cfg: Config, s: State, db: Db)
    requires Inv(cfg, s) && RowsExtend(s.db, db) && db.published == s.db.published && db.record == s.db.record
    ensures Inv(cfg, s.(db := db)) && Extends(s, s.(db := db))
  {
    hide RowsAgree, WriteSound;
    InvFrom(cfg, s, s.(db := db), "");
  }

  lemma NextKeeps(cfg: Config, s: State, step: Step)
    requires Inv(cfg, s)
    ensures Inv(cfg, Next(cfg, s, step)) && Extends(s, Next(cfg, s, step))
  {
    hide Act, Starts, TimerBeats;
    match step {
      case Acts(w, choice) => if w in s.claims { ActKeeps(cfg, s, w, choice); }
      case Claims(w, seconds) => ClaimKeeps(cfg, s, w, seconds);
      case Beats(w, seconds) => if w in s.claims { BeatsKeep(cfg, s, w, seconds); }
      case Crashes(w) => InvFrom(cfg, s, Leaves(s, w), w);
      case Monitored(to) => MonitorKeeps(cfg, s, to);
      case CancelRequested => RowKeeps(cfg, s, s.db.(cancellation := true));
      case _ => InvFrom(cfg, s, Next(cfg, s, step), "");
    }
  }

  lemma MonitorKeeps(cfg: Config, s: State, to: Status)
    requires Inv(cfg, s)
    ensures var t := Next(cfg, s, Monitored(to)); Inv(cfg, t) && Extends(s, t)
  {
    if !Executable(s.db.status) && Permitted(s.db.status, to) {
      if !PastCommit(s.db.status) && PastCommit(to) { OneWayPastCommit(s.db.status, to); }
      RowKeeps(cfg, s, s.db.(status := to, version := s.db.version + 1));
    }
  }

  lemma InitialInv(cfg: Config, s: State)
    requires Initial(s)
    ensures Inv(cfg, s)
  {
  }

  lemma {:induction false} RunInv(cfg: Config, s: State, steps: seq<Step>)
    requires Initial(s)
    ensures Inv(cfg, Run(cfg, s, steps))
  {
    hide Inv, Next;
    if steps == [] {
      InitialInv(cfg, s);
    } else {
      RunInv(cfg, s, steps[..|steps| - 1]);
      NextKeeps(cfg, Run(cfg, s, steps[..|steps| - 1]), steps[|steps| - 1]);
    }
  }

  lemma {:induction false} RunExtends(cfg: Config, s: State, steps: seq<Step>, k: nat)
    requires Initial(s) && k <= |steps|
    ensures Extends(Run(cfg, s, steps[..k]), Run(cfg, s, steps))
  {
    hide Inv, Next;
    if k == |steps| {
      assert steps[..k] == steps;
    } else {
      var before := steps[..|steps| - 1];
      assert before[..k] == steps[..k];
      RunExtends(cfg, s, before, k);
      RunInv(cfg, s, before);
      NextKeeps(cfg, Run(cfg, s, before), steps[|steps| - 1]);
    }
  }

  /**
   * In every run: each ref creation, by whatever worker, carries the commit of the insert-once row;
   * a status past the commit has that commit recorded; a recorded pull request has it as head; and
   * every remote write was made in a claim within the attempt limit.
   */
  lemma PublicationIsSafe(cfg: Config, s: State, steps: seq<Step>)
    requires Initial(s)
    ensures var t := Run(cfg, s, steps);
            && (forall write <- t.writes :: write.attempt <= cfg.maximumAttempts)
            && (forall write <- t.writes ::
                  write.RefWrite? ==> t.db.published.Some? && t.db.published.value.commit == write.commit)
            && (PastCommit(t.db.status) ==> t.db.published.Some? && t.db.commit == Some(t.db.published.value.commit))
            && (t.db.record.Some? ==> t.db.published.Some? && t.db.record.value.headSha == t.db.published.value.commit)
  {
    RunInv(cfg, s, steps);
    hide Run;
    var t := Run(cfg, s, steps);
    forall write | write in t.writes ensures WriteSound(cfg, t.db, write) { }
  }

  /** Once set, the published commit, the head branch and the recorded pull request never change again. */
  lemma PublicationIsStable(cfg: Config, s: State, steps: seq<Step>, k: nat)
    requires Initial(s) && k <= |steps|
    ensures var early, late := Run(cfg, s, steps[..k]), Run(cfg, s, steps);
            && (early.db.published.Some? ==> late.db.published == early.db.published)
            && (early.remote.head.Some? ==> late.remote.head == early.remote.head)
            && (early.db.record.Some? ==> late.db.record == early.db.record)
  {
    RunExtends(cfg, s, steps, k);
  }

  // Status changes.

  lemma RowPermitted(db: Db, w: WorkerId, now: int, to: Status, tree: string, commit: string, number: nat)
    ensures Advanced(db, w, now, to).Ok? ==> Permitted(db.status, Advanced(db, w, now, to).value.status)
    ensures Materialized(db, w, now, tree, commit).Ok?
            ==> Permitted(db.status, Materialized(db, w, now, tree, commit).value.status)
    ensures Recorded(db, w, now, number, commit).Ok?
            ==> Permitted(db.status, Recorded(db, w, now, number, commit).value.status)
    ensures Failed(db, w, now, to).Ok? ==> Permitted(db.status, Failed(db, w, now, to).value.status)
  {
    hide Targets;
  }

  lemma StoresPermitted(s: State, w: WorkerId, c: Claim, r: Result<Db, StoreError>, next: Pc)
    requires r.Ok? ==> Permitted(s.db.status, r.value.status)
    ensures Permitted(s.db.status, Stores(s, w, c, r, next).db.status)
  {
    hide Targets;
  }

  /** The steps that only look, or write to the remote, leave the row alone. */
  lemma OthersKeepStatus(cfg: Config, s: State, w: WorkerId, c: Claim, choice: Choice)
    ensures Loads(cfg, s, w, c, choice.accepts).db == s.db && Materializes(s, w, c, choice).db == s.db
        && Verifies(s, w, c).db == s.db
    ensures ReadsHead(s, w, c, CreateHead).db == s.db && ReadsHead(s, w, c, Failing).db == s.db
        && CreatesHead(s, w, c, choice.lost).db == s.db
    ensures FoundPull(s, w, c, CreatePull).db == s.db && FoundPull(s, w, c, Failing).db == s.db
        && CreatesPull(s, w, c, choice.lost).db == s.db
    ensures forall next :: Controls(s, w, c, choice.seconds, next).db.status == s.db.status
  {
    hide OpenPull, Holds;
  }

  lemma ActPermitted(cfg: Config, s: State, w: WorkerId, choice: Choice)
    requires w in s.claims
    ensures Permitted(s.db.status, Act(cfg, s, w, choice).db.status)
  {
    hide Targets, Advanced, Materialized, Recorded, Failed, Stores, Loads, Materializes, Verifies, ReadsHead,
        CreatesHead, FoundPull,
      CreatesPull, Controls;
    var c := s.claims[w];
    if c.pc == Failing {
      RowPermitted(s.db, w, s.now, choice.failure, c.tree, c.commit, c.number);
    } else {
      OthersKeepStatus(cfg, s, w, c, choice);
      match c.pc {
        case StartPolicy => AdvancePermitted(s, w, c, PolicyCheck, Load);
        case StartMaterializing => AdvancePermitted(s, w, c, CommitMaterializing, CheckBase);
        case RecordCommit =>
          RowPermitted(s.db, w, s.now, PolicyCheck, c.tree, c.commit, c.number);
          StoresPermitted(s, w, c, Materialized(s.db, w, s.now, c.tree, c.commit), Control2);
        case RetryBranch => AdvancePermitted(s, w, c, BranchPublishing, ReadHead);
        case StartDraft => AdvancePermitted(s, w, c, DraftPrCreating, Control3);
        case RetryDraft => AdvancePermitted(s, w, c, DraftPrCreating, CheckBaseAgain);
        case RecordPull => RowPermitted(s.db, w, s.now, PolicyCheck, c.tree, c.headSha, c.number);
        case _ =>
      }
    }
  }

  lemma AdvancePermitted(s: State, w: WorkerId, c: Claim, to: Status, next: Pc)
    ensures Permitted(s.db.status, Stores(s, w, c, Advanced(s.db, w, s.now, to), next).db.status)
  {
    RowPermitted(s.db, w, s.now, to, "", "", 0);
    StoresPermitted(s, w, c, Advanced(s.db, w, s.now, to), next);
  }

  /** Every change of status, by anyone, is one that the table permits. */
  lemma StatusMovesByTable(cfg: Config, s: State, step: Step)
    ensures Permitted(s.db.status, Next(cfg, s, step).db.status)
  {
    hide Targets, Act;
    match step {
      case Acts(w, choice) => if w in s.claims { ActPermitted(cfg, s, w, choice); }
      case _ =>
    }
  }
}
