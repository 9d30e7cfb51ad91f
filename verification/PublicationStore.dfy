/** The publication row and its two child rows, with the fenced writes of the store. */
module PublicationStore {
  import opened Wrappers
  import opened PublicationLifecycle

  type WorkerId = string

  datatype Lease = Lease(owner: WorkerId, expires: int)

  /** The insert-once record of the materialized commit. */
  datatype PublishedCommit = PublishedCommit(tree: string, commit: string)

  /** The insert-once record of the pull request. */
  datatype PullRequestRecord = PullRequestRecord(number: nat, headSha: string)

  datatype Db = Db(status: Status, version: nat, lease: Option<Lease>, attempts: nat, cancellation: bool,
                   tree: Option<string>, commit: Option<string>, number: Option<nat>,
                   published: Option<PublishedCommit>, record: Option<PullRequestRecord>)

  datatype StoreError = LeaseLost | InvalidTransition | CommitMismatch | PullRequestMismatch

  /** A requested lease in milliseconds, clamped to 15..900 seconds. */
  function LeaseMillis(seconds: int): int {
    1000 * (if seconds < 15 then 15 else if seconds > 900 then 900 else seconds)
  }

  /** The lease check made inside every fenced transaction. */
  predicate Holds(db: Db, worker: WorkerId, now: int) {
    db.lease.Some? && db.lease.value.owner == worker && db.lease.value.expires > now
  }

  predicate Claimable(db: Db, worker: WorkerId, now: int) {
    Executable(db.status) && (db.lease.None? || db.lease.value.expires < now || db.lease.value.owner == worker)
  }

  function Claimed(db: Db, worker: WorkerId, now: int, seconds: int): Db {
    db.(lease := Some(Lease(worker, now + LeaseMillis(seconds))), attempts := db.attempts + 1)
  }

  function Beaten(db: Db, worker: WorkerId, now: int, seconds: int): Result<Db, StoreError> {
    if !Holds(db, worker, now) then Err(LeaseLost)
        else Ok(db.(lease := Some(Lease(worker, now + LeaseMillis(seconds)))))
  }

  function Advanced(db: Db, worker: WorkerId, now: int, to: Status): Result<Db, StoreError> {
    if !Holds(db, worker, now) then Err(LeaseLost)
    else if db.status == to then Ok(db)
    else if !Permitted(db.status, to) then Err(InvalidTransition)
    else Ok(db.(status := to, version := db.version + 1))
  }

  function Materialized(db: Db, worker: WorkerId, now: int, tree: string, commit: string): Result<Db, StoreError> {
    if !Holds(db, worker, now) then Err(LeaseLost)
    else if !Permitted(db.status, BranchPublishing) then Err(InvalidTransition)
    else if db.published.Some? && db.published.value != PublishedCommit(tree, commit) then Err(CommitMismatch)
    else Ok(db.(published := Some(PublishedCommit(tree, commit)), status := BranchPublishing,
                tree := Some(tree), commit := Some(commit), version := db.version + 1))
  }

  function Recorded(db: Db, worker: WorkerId, now: int, number: nat, headSha: string): Result<Db, StoreError> {
    if !Holds(db, worker, now) then Err(LeaseLost)
    else if !Permitted(db.status, CiMonitoring) then Err(InvalidTransition)
    else if db.record.Some? && db.record.value.number != number then Err(PullRequestMismatch)
    else
      Ok(db.(record := if db.record.Some? then db.record else Some(PullRequestRecord(number, headSha)),
             status := CiMonitoring, number := Some(number), commit := if db.commit.Some? then db.commit
                 else Some(headSha),
             lease := None, version := db.version + 1))
  }

  function Failed(db: Db, worker: WorkerId, now: int, status: Status): Result<Db, StoreError> {
    if !Holds(db, worker, now) then Err(LeaseLost)
    else if !Permitted(db.status, status) then Err(InvalidTransition)
    else Ok(db.(status := status, lease := None, version := db.version + 1))
  }

  // What the writes do, in the rows before and after.

  /** Requested seconds are clamped to 15..900. */
  lemma LeaseClamped(seconds: int)
    ensures seconds <= 15 ==> LeaseMillis(seconds) == 15_000
    ensures 15 <= seconds <= 900 ==> LeaseMillis(seconds) == seconds * 1000
    ensures seconds >= 900 ==> LeaseMillis(seconds) == 900_000
  {
  }

  /** A claim needs a claimable status and a lease that nobody else still has; it counts the attempt and no more. */
  lemma ClaimRules(db: Db, w: WorkerId, now: int, seconds: int)
    ensures Claimable(db, w, now)
            <==> Executable(db.status) && (db.lease.Some? && db.lease.value.owner != w ==> db.lease.value.expires < now)
    ensures var after := Claimed(db, w, now, seconds);
            && after.attempts == db.attempts + 1 && after == db.(lease := after.lease, attempts := after.attempts)
            && after.lease == Some(Lease(w, now + LeaseMillis(seconds)))
    ensures Beaten(db, w, now, seconds).Ok? ==>
              Beaten(db, w, now, seconds).value == db.(lease := Some(Lease(w, now + LeaseMillis(seconds))))
  {
  }

  /** Every write asks for the writer's own unexpired lease. */
  lemma WritesAreFenced(db: Db, w: WorkerId, now: int, to: Status, tree: string, commit: string, number: nat,
                        seconds: int)
    requires db.lease.None? || db.lease.value.owner != w || db.lease.value.expires <= now
    ensures Beaten(db, w, now, seconds) == Advanced(db, w, now, to) == Materialized(db, w, now, tree, commit)
         == Recorded(db, w, now, number, commit) == Failed(db, w, now, to) == Err(LeaseLost)
  {
  }

  /** A status change follows the table and changes nothing else; a failure also gives up the lease. */
  lemma StatusWrites(db: Db, w: WorkerId, now: int, to: Status)
    requires Holds(db, w, now)
    ensures Advanced(db, w, now, to).Ok? <==> db.status == to || Permitted(db.status, to)
    ensures Advanced(db, w, now, to).Ok? ==>
              var after := Advanced(db, w, now, to).value;
              after.status == to && after == db.(status := to, version := after.version)
              && after.version == db.version + if db.status == to then 0 else 1
    ensures Failed(db, w, now, to).Ok? <==> Permitted(db.status, to)
    ensures Failed(db, w, now, to).Ok? ==>
              var after := Failed(db, w, now, to).value;
              after == db.(status := to, lease := None, version := db.version + 1)
  {
  }

  /** The commit and the pull request are inserted once; written again they must be the same. */
  lemma InsertOnce(db: Db, w: WorkerId, now: int, tree: string, commit: string, number: nat)
    requires Holds(db, w, now)
    ensures Materialized(db, w, now, tree, commit).Ok?
            <==> Permitted(db.status, BranchPublishing)
                 && (db.published.Some? ==> db.published.value.tree == tree && db.published.value.commit == commit)
    ensures Materialized(db, w, now, tree, commit).Ok? ==>
              var after := Materialized(db, w, now, tree, commit).value;
              && after.published == Some(PublishedCommit(tree, commit)) && after.status == BranchPublishing
              && after.tree == Some(tree) && after.commit == Some(commit) && after.version == db.version + 1
              && after.lease == db.lease && after.attempts == db.attempts && after.record == db.record
              && after.number == db.number && after.cancellation == db.cancellation
    ensures Recorded(db, w, now, number, commit).Ok?
            <==> Permitted(db.status, CiMonitoring) && (db.record.Some? ==> db.record.value.number == number)
    ensures Recorded(db, w, now, number, commit).Ok? ==>
              var after := Recorded(db, w, now, number, commit).value;
              && after.record.Some? && after.record.value.number == number && after.number == Some(number)
              && (db.record.Some? ==> after.record == db.record)
              && (db.record.None? ==> after.record.value.headSha == commit)
              && after.status == CiMonitoring && after.lease.None? && after.version == db.version + 1
              && (if db.commit.Some? then after.commit == db.commit else after.commit == Some(commit))
              && after.published == db.published && after.tree == db.tree && after.attempts == db.attempts
  {
  }

  /** The rows as the store's methods update them, one field at a time. */
  class Rows {
    var status: Status
    var version: nat
    var lease: Option<Lease>
    var attempts: nat
    var cancellation: bool
    var tree: Option<string>
    var commit: Option<string>
    var number: Option<nat>
    var published: Option<PublishedCommit>
    var record: Option<PullRequestRecord>

    constructor ()
      ensures View() == Db(PublicationRequested, 0, None, 0, false, None, None, None, None, None)
    {
      status, version, lease, attempts, cancellation := PublicationRequested, 0, None, 0, false;
      tree, commit, number, published, record := None, None, None, None, None;
    }

    function View(): Db
      reads this
    {
      Db(status, version, lease, attempts, cancellation, tree, commit, number, published, record)
    }

    method AssertLease(worker: WorkerId, now: int) returns (held: bool)
      ensures held <==> Holds(View(), worker, now)
    {
      held := lease.Some? && lease.value.owner == worker && lease.value.expires > now;
    }

    method ClaimPublication(worker: WorkerId, now: int, leaseSeconds: int) returns (envelope: Option<(Status, nat)>)
      modifies this
      ensures if old(Claimable(View(), worker, now))
              then View() == Claimed(old(View()), worker, now, leaseSeconds)
                  && envelope == Some((old(status), old(attempts) + 1))
              else View() == old(View()) && envelope == None
    {
      if !Executable(status) || !(lease.None? || lease.value.expires < now || lease.value.owner == worker) {
        return None;
      }
      lease := Some(Lease(worker, now + LeaseMillis(leaseSeconds)));
      attempts := attempts + 1;
      return Some((status, attempts));
    }

    /** Extends the lease; says whether cancellation was requested. */
    method Heartbeat(worker: WorkerId, now: int, leaseSeconds: int) returns (r: Result<bool, StoreError>)
      modifies this
      ensures match Beaten(old(View()), worker, now, leaseSeconds)
              case Err(e) => r == Err(e) && View() == old(View())
              case Ok(db) => r == Ok(db.cancellation) && View() == db
    {
      var held := AssertLease(worker, now);
      if !held { return Err(LeaseLost); }
      lease := Some(Lease(worker, now + LeaseMillis(leaseSeconds)));
      return Ok(cancellation);
    }

    method AdvancePublication(worker: WorkerId, now: int, to: Status) returns (r: Result<(), StoreError>)
      modifies this
      ensures match Advanced(old(View()), worker, now, to)
              case Err(e) => r == Err(e) && View() == old(View())
              case Ok(db) => r == Ok(()) && View() == db
    {
      var held := AssertLease(worker, now);
      if !held { return Err(LeaseLost); }
      if status != to {
        if !Permitted(status, to) { return Err(InvalidTransition); }
        status := to;
        version := version + 1;
      }
      return Ok(());
    }

    method RecordMaterialization(worker: WorkerId, now: int, treeSha: string,
        commitSha: string) returns (r: Result<(), StoreError>)
      modifies this
      ensures match Materialized(old(View()), worker, now, treeSha, commitSha)
              case Err(e) => r == Err(e) && View() == old(View())
              case Ok(db) => r == Ok(()) && View() == db
    {
      var held := AssertLease(worker, now);
      if !held { return Err(LeaseLost); }
      if status != BranchPublishing && !Permitted(status, BranchPublishing) { return Err(InvalidTransition); }
      if published.Some? {
        if published.value.commit != commitSha || published.value.tree != treeSha { return Err(CommitMismatch); }
      } else {
        published := Some(PublishedCommit(treeSha, commitSha));
      }
      status := BranchPublishing;
      tree, commit := Some(treeSha), Some(commitSha);
      version := version + 1;
      return Ok(());
    }

    method RecordPullRequest(worker:
        WorkerId, now: int, pullRequest: nat, headSha: string) returns (r: Result<(), StoreError>)
      modifies this
      ensures match Recorded(old(View()), worker, now, pullRequest, headSha)
              case Err(e) => r == Err(e) && View() == old(View())
              case Ok(db) => r == Ok(()) && View() == db
    {
      var held := AssertLease(worker, now);
      if !held { return Err(LeaseLost); }
      if status != CiMonitoring && !Permitted(status, CiMonitoring) { return Err(InvalidTransition); }
      if record.Some? {
        if record.value.number != pullRequest { return Err(PullRequestMismatch); }
      } else {
        record := Some(PullRequestRecord(pullRequest, headSha));
      }
      status := CiMonitoring;
      number := Some(pullRequest);
      if commit.None? { commit := Some(headSha); }
      lease := None;
      version := version + 1;
      return Ok(());
    }

    method FailPublication(worker: WorkerId, now: int, failure: Status) returns (r: Result<(), StoreError>)
      modifies this
      ensures match Failed(old(View()), worker, now, failure)
              case Err(e) => r == Err(e) && View() == old(View())
              case Ok(db) => r == Ok(()) && View() == db
    {
      var held := AssertLease(worker, now);
      if !held { return Err(LeaseLost); }
      if status != failure && !Permitted(status, failure) { return Err(InvalidTransition); }
      status := failure;
      lease := None;
      version := version + 1;
      return Ok(());
    }
  }
}
