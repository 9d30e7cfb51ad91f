/** The sandbox execution row: claims, heartbeats, fenced writes, completion and reconciliation under a lease. */
module SandboxLease {
  import opened Wrappers

  type WorkerId = string

  datatype Status =
    | Requested | PolicyCheck | Preparing | Installing | Reproducing | Collecting | Cleaning
    | Completed | Cancelled | PolicyBlocked | TimedOut | InfrastructureFailed | CleanupFailed

  predicate Terminal(s: Status) {
    s in {Completed, Cancelled, PolicyBlocked, TimedOut, InfrastructureFailed, CleanupFailed}
  }

  /** The statuses in which an expired lease is reconciled. */
  predicate InFlight(s: Status) { s in {Preparing, Installing, Reproducing, Collecting, Cleaning} }

  datatype Lease = Lease(owner: WorkerId, expires: int)

  /** The execution row, the status of its reproduction row, and the outcomes recorded so far. */
  datatype Row = Row(status: Status, reproduction: Status, lease: Option<Lease>, cancellation: bool,
      outcomes: seq<Status>)

  datatype StoreError = LeaseLost

  /** Every fenced write except the heartbeat asks for an unexpired lease. */
  predicate Holds(row: Row, w: WorkerId, now: int) {
    row.lease.Some? && row.lease.value.owner == w && row.lease.value.expires > now
  }

  predicate Owns(row: Row, w: WorkerId) { row.lease.Some? && row.lease.value.owner == w }

  predicate Claimable(row: Row, now: int) {
    (row.status == Requested || InFlight(row.status)) && (row.lease.None? || row.lease.value.expires < now)
  }

  function ClaimedBy(row: Row, w: WorkerId, now: int, leaseMs: int): Row {
    row.(status := Preparing, lease := Some(Lease(w, now + leaseMs)))
  }

  /** The heartbeat asks for the owner only: an expired lease nobody took is renewed. */
  function Beaten(row: Row, w: WorkerId, now: int, leaseMs: int): Result<Row, StoreError> {
    if !Owns(row, w) then Err(LeaseLost) else Ok(row.(lease := Some(Lease(w, now + leaseMs))))
  }

  function Updated(row: Row, w: WorkerId, now: int, status: Status): Result<Row, StoreError> {
    if !Holds(row, w, now) then Err(LeaseLost) else Ok(row.(status := status, reproduction := status))
  }

  function Finished(row: Row, w: WorkerId, now: int, status: Status): Result<Row, StoreError> {
    if !Holds(row, w, now) then Err(LeaseLost)
    else Ok(row.(status := status, reproduction := status, lease := None, outcomes := row.outcomes + [status]))
  }

  predicate Reconcilable(row: Row, now: int) {
    InFlight(row.status) && row.lease.Some? && row.lease.value.expires < now
  }

  function Reconciled(row: Row, w: WorkerId, now: int, leaseMs: int): Row {
    row.(lease := Some(Lease(w, now + leaseMs)))
  }

  /** The row as the store's methods update it. */
  class ExecutionRow {
    var status: Status
    var reproduction: Status
    var lease: Option<Lease>
    var cancellation: bool
    var outcomes: seq<Status>

    constructor ()
      ensures View() == Row(Requested, Requested, None, false, [])
    {
      status, reproduction, lease, cancellation, outcomes := Requested, Requested, None, false, [];
    }

    function View(): Row
      reads this
    {
      Row(status, reproduction, lease, cancellation, outcomes)
    }

    method AssertLease(w: WorkerId, now: int) returns (held: bool)
      ensures held <==> Holds(View(), w, now)
    {
      held := lease.Some? && lease.value.owner == w && lease.value.expires > now;
    }

    method ClaimExecution(w: WorkerId, now: int, leaseMs: int) returns (claimed: bool)
      modifies this`status, this`lease
      ensures claimed <==> old(Claimable(View(), now))
      ensures View() == if claimed then ClaimedBy(old(View()), w, now, leaseMs) else old(View())
    {
      if !(status == Requested || InFlight(status)) || !(lease.None? || lease.value.expires < now) { return false; }
      lease := Some(Lease(w, now + leaseMs));
      status := Preparing;
      return true;
    }

    method Heartbeat(w: WorkerId, now: int, leaseMs: int) returns (r: Result<(), StoreError>)
      modifies this`lease
      ensures match Beaten(old(View()), w, now, leaseMs)
              case Err(e) => r == Err(e) && View() == old(View())
              case Ok(row) => r == Ok(()) && View() == row
    {
      if lease.None? || lease.value.owner != w { return Err(LeaseLost); }
      lease := Some(Lease(w, now + leaseMs));
      return Ok(());
    }

    method UpdateStatus(w: WorkerId, now: int, next: Status) returns (r: Result<(), StoreError>)
      modifies this`status, this`reproduction
      ensures match Updated(old(View()), w, now, next)
              case Err(e) => r == Err(e) && View() == old(View())
              case Ok(row) => r == Ok(()) && View() == row
    {
      var held := AssertLease(w, now);
      if !held { return Err(LeaseLost); }
      status, reproduction := next, next;
      return Ok(());
    }

    method CompleteExecution(w: WorkerId, now: int, outcome: Status) returns (r: Result<(), StoreError>)
      modifies this`status, this`reproduction, this`lease, this`outcomes
      ensures match Finished(old(View()), w, now, outcome)
              case Err(e) => r == Err(e) && View() == old(View())
              case Ok(row) => r == Ok(()) && View() == row
    {
      var held := AssertLease(w, now);
      if !held { return Err(LeaseLost); }
      status, reproduction, lease := outcome, outcome, None;
      outcomes := outcomes + [outcome];
      return Ok(());
    }

    method ReconcileExpiredLease(w: WorkerId, now: int, leaseMs: int) returns (taken: bool)
      modifies this`lease
      ensures taken <==> old(Reconcilable(View(), now))
      ensures View() == if taken then Reconciled(old(View()), w, now, leaseMs) else old(View())
    {
      if lease.None? || lease.value.expires >= now || !InFlight(status) { return false; }
      lease := Some(Lease(w, now + leaseMs));
      return true;
    }

    method RequestCancellation()
      modifies this`cancellation
      ensures View() == if Terminal(old(reproduction)) then old(View()) else old(View()).(cancellation := true)
    {
      if !Terminal(reproduction) { cancellation := true; }
    }
  }

  // Runs of any number of workers.

  datatype State = State(row: Row, now: int)

  datatype Step =
    | Tick(millis: nat) | Cancel
    | Claim(worker: WorkerId, leaseMs: int) | Beat(worker: WorkerId, leaseMs: int)
    | Update(worker: WorkerId, status: Status) | Finish(worker: WorkerId, status: Status)
    | Reconcile(worker: WorkerId, leaseMs: int)

  function Kept(row: Row, r: Result<Row, StoreError>): Row { match r case Err(_) => row case Ok(next) => next }

  function Next(s: State, step: Step): State {
    match step
    case Tick(millis) => s.(now := s.now + millis)
    case Claim(w, leaseMs) => if Claimable(s.row, s.now) then s.(row := ClaimedBy(s.row, w, s.now, leaseMs)) else s
    case Beat(w, leaseMs) => s.(row := Kept(s.row, Beaten(s.row, w, s.now, leaseMs)))
    case Update(w, status) => s.(row := Kept(s.row, Updated(s.row, w, s.now, status)))
    case Finish(w, status) => s.(row := Kept(s.row, Finished(s.row, w, s.now, status)))
    case Reconcile(w, leaseMs) => if Reconcilable(s.row, s.now) then s.(row := Reconciled(s.row, w, s.now, leaseMs))
        else s
    case Cancel => if Terminal(s.row.reproduction) then s else s.(row := s.row.(cancellation := true))
  }

  function Run(s: State, steps: seq<Step>): State
    decreases steps
  {
    if steps == [] then s else Run(Next(s, steps[0]), steps[1..])
  }

  predicate Initial(s: State) { s.row == Row(Requested, Requested, None, false, []) }

  /** Workers finish with a terminal status and otherwise write only working statuses. */
  predicate Proper(step: Step) { (step.Update? ==> !Terminal(step.status)) && (step.Finish? ==> Terminal(step.status)) }

  /** The steps that give `w` the lease. */
  predicate Takes(step: Step, w: WorkerId) { (step.Claim? || step.Reconcile?) && step.worker == w }

  /** The steps that `w` makes on the strength of a lease. */
  predicate WritesAs(step: Step, w: WorkerId) { (step.Beat? || step.Update? || step.Finish?) && step.worker == w }

  function Without(steps: seq<Step>, w: WorkerId): seq<Step> {
    if steps == [] then [] else (if WritesAs(steps[0], w) then [] else [steps[0]]) + Without(steps[1..], w)
  }

  /**
   * A worker that lost its lease to somebody else, or to completion, writes nothing until it takes it
   * again: leaving out all its later writes gives exactly the same run.
   */
  lemma {:induction false} TakenOverWritesNothing(s: State, steps: seq<Step>, w: WorkerId)
    requires !Owns(s.row, w) && forall step <- steps :: !Takes(step, w)
    ensures Run(s, steps) == Run(s, Without(steps, w)) && !Owns(Run(s, steps).row, w)
    decreases steps
  {
    if steps != [] {
      var next := Next(s, steps[0]);
      assert steps[0] in steps && forall step <- steps[1..] :: step in steps;
      TakenOverWritesNothing(next, steps[1..], w);
      if WritesAs(steps[0], w) {
        assert next == s && [] + Without(steps[1..], w) == Without(steps[1..], w);
      } else {
        var kept := [steps[0]] + Without(steps[1..], w);
        assert kept[0] == steps[0] && kept[1..] == Without(steps[1..], w);
        assert Run(s, kept) == Run(next, Without(steps[1..], w));
      }
    }
  }

  /** While a worker holds an unexpired lease, nobody else's step changes the row, except to ask for cancellation. */
  lemma HolderIsAlone(s: State, step: Step, w: WorkerId)
    requires Holds(s.row, w, s.now) && !step.Tick? && !step.Cancel? && step.worker != w
    ensures Next(s, step) == s
  {
  }

  /**
   * Which steps take effect, by where the clock stands to the lease. A free row is claimed when requested
   * or in flight. Before expiry only the owner acts, by beating, updating and finishing. After it
   * the owner can only beat, and anybody takes an execution over that is in flight, or claims it
   * when it is requested. In the very millisecond of expiry only the beat is left.
   */
  lemma WhoActs(s: State, step: Step)
    requires !step.Tick? && !step.Cancel?
    ensures Next(s, step) != s ==>
              if s.row.lease.None? then step.Claim? && (s.row.status == Requested || InFlight(s.row.status))
              else
                var lease, mine := s.row.lease.value, s.row.lease.value.owner == step.worker;
                if s.now < lease.expires then mine && (step.Beat? || step.Update? || step.Finish?)
                else if s.now == lease.expires then mine && step.Beat?
                else
                  || (mine && step.Beat?)
                  || (step.Claim? && (s.row.status == Requested || InFlight(s.row.status)))
                  || (step.Reconcile? && InFlight(s.row.status))
  {
  }

  /** What each step writes when it acts, and that it writes nothing else. */
  lemma WhatIsWritten(s: State, step: Step)
    ensures var row, next := s.row, Next(s, step).row;
            var held, free := row.lease.Some?, row.lease.None? || row.lease.value.expires < s.now;
            match step
            case Tick(millis) => next == row && Next(s, step).now == s.now + millis
            case Cancel =>
              && next.cancellation == (row.cancellation || !Terminal(row.reproduction))
              && next.status == row.status && next.reproduction == row.reproduction && next.lease == row.lease
              && next.outcomes == row.outcomes
            case Claim(w, leaseMs) =>
              && (free && (row.status == Requested || InFlight(row.status)) ==>
                    next.lease == Some(Lease(w, s.now + leaseMs)) && next.status == Preparing)
              && next.reproduction == row.reproduction && SameRest(row, next)
            case Beat(w, leaseMs) =>
              && (held && row.lease.value.owner == w ==> next.lease == Some(Lease(w, s.now + leaseMs)))
              && next.status == row.status && next.reproduction == row.reproduction && SameRest(row, next)
            case Update(w, status) =>
              && (held && row.lease.value.owner == w && s.now < row.lease.value.expires ==>
                    next.status == status && next.reproduction == status)
              && next.lease == row.lease && SameRest(row, next)
            case Finish(w, status) =>
              && (held && row.lease.value.owner == w && s.now < row.lease.value.expires ==>
                    next.status == status && next.reproduction == status && next.lease == None
                    && next.outcomes == row.outcomes + [status])
              && next.cancellation == row.cancellation
            case Reconcile(w, leaseMs) =>
              && (held && row.lease.value.expires < s.now && InFlight(row.status) ==>
                    next.lease == Some(Lease(w, s.now + leaseMs)))
              && next.status == row.status && next.reproduction == row.reproduction && SameRest(row, next)
  {
  }

  predicate SameRest(row: Row, next: Row) { next.cancellation == row.cancellation && next.outcomes == row.outcomes }

  ghost predicate Inv(row: Row) {
    && |row.outcomes| <= 1
    && (Terminal(row.status) <==> row.outcomes != [])
    && (Terminal(row.status) ==> row.lease.None? && row.outcomes == [row.status] && row.reproduction == row.status)
    && (Terminal(row.reproduction) ==> Terminal(row.status))
  }

  lemma {:induction false} RunInv(s: State, steps: seq<Step>)
    requires Inv(s.row) && forall step <- steps :: Proper(step)
    ensures Inv(Run(s, steps).row)
    decreases steps
  {
    if steps != [] {
      assert steps[0] in steps && forall step <- steps[1..] :: step in steps;
      RunInv(Next(s, steps[0]), steps[1..]);
    }
  }

  lemma {:induction false} FinishedIsFrozen(s: State, steps: seq<Step>)
    requires Inv(s.row) && Terminal(s.row.status)
    ensures Run(s, steps).row == s.row
    decreases steps
  {
    if steps != [] { FinishedIsFrozen(Next(s, steps[0]), steps[1..]); }
  }

  /**
   * In every run of working-status updates and terminal completions, an execution gets at most one
   * outcome; once it has it, the row is never changed again, whatever steps follow.
   */
  lemma OneOutcome(s: State, steps: seq<Step>, later: seq<Step>)
    requires Initial(s) && forall step <- steps :: Proper(step)
    ensures var t := Run(s, steps);
            && |t.row.outcomes| <= 1
            && (Terminal(t.row.status) <==> t.row.outcomes == [t.row.status])
            && (t.row.outcomes != [] ==> Run(t, later).row == t.row)
  {
    RunInv(s, steps);
    var t := Run(s, steps);
    if t.row.outcomes != [] { FinishedIsFrozen(t, later); }
  }

  // When a terminal status is final.

  /** A terminal status is always written to both rows. */
  predicate Together(row: Row) { Terminal(row.status) ==> row.reproduction == row.status }

  lemma {:induction false} StaysTogether(s: State, steps: seq<Step>)
    requires Together(s.row)
    ensures Together(Run(s, steps).row)
    decreases steps
  {
    if steps != [] { StaysTogether(Next(s, steps[0]), steps[1..]); }
  }

  lemma {:induction false} ReleasedIsFrozen(s: State, steps: seq<Step>)
    requires Terminal(s.row.status) && Together(s.row) && s.row.lease.None?
    ensures Run(s, steps).row == s.row
    decreases steps
  {
    if steps != [] { ReleasedIsFrozen(Next(s, steps[0]), steps[1..]); }
  }

  /** The owner of a lease, expired or not, can renew it and write any status. */
  lemma OwnerWrites(s: State, status: Status)
    requires s.row.lease.Some?
    ensures var w := s.row.lease.value.owner; Run(s, [Beat(w, 1), Update(w, status)]).row.status == status
  {
    var w := s.row.lease.value.owner;
    var beaten := Next(s, Beat(w, 1));
    assert [Beat(w, 1), Update(w, status)][1..] == [Update(w, status)] && [Update(w, status)][1..] == [];
    var updated := Next(beaten, Update(w, status));
    assert Run(updated, []) == updated;
    assert Run(beaten, [Update(w, status)]) == updated;
  }

  /**
   * In every reachable state a terminal status is final, and the whole row frozen, exactly when no
   * lease is left on the row.
   */
  lemma TerminalIsFinalIff(s: State, steps: seq<Step>)
    requires Initial(s) && Terminal(Run(s, steps).row.status)
    ensures var t := Run(s, steps);
            && (t.row.lease.None? <==> forall later :: Run(t, later).row == t.row)
            && (t.row.lease.None? <==> forall later :: Run(t, later).row.status == t.row.status)
  {
    StaysTogether(s, steps);
    var t := Run(s, steps);
    if t.row.lease.None? {
      forall later ensures Run(t, later).row == t.row { ReleasedIsFrozen(t, later); }
    } else {
      OwnerWrites(t, Preparing);
    }
  }

  /** A terminal status written by `updateStatus` is not final: the lease is kept and a second status follows. */
  lemma TerminalUpdateIsNotFinal(s: State)
    requires Initial(s)
    ensures var steps := [Claim("w", 10), Update("w", Completed), Update("w", Preparing)];
            Run(s, steps[..2]).row.status == Completed && Run(s, steps).row.status == Preparing
  {
    var steps := [Claim("w", 10), Update("w", Completed), Update("w", Preparing)];
    var a := Next(s, steps[0]);
    var b := Next(a, steps[1]);
    var c := Next(b, steps[2]);
    assert steps[..2] == [steps[0]] + [steps[1]] && steps == [steps[0]] + [steps[1]] + [steps[2]];
    assert Run(b, []) == b && Run(c, []) == c;
    assert [steps[1]][1..] == [] && [steps[2]][1..] == [];
    assert Run(a, [steps[1]]) == b && Run(b, [steps[2]]) == c;
    assert steps[1..] == [steps[1]] + [steps[2]] && steps[1..][1..] == [steps[2]] && steps[..2][1..] == [steps[1]];
    assert Run(a, steps[1..]) == c;
  }
}
