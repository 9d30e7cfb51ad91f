/** Treatment plans and their approval by human actors. */
module PlanApproval {
  import opened Wrappers

  type Actor = string

  datatype Decision = Approve | Reject | RequestRevision
  datatype PlanStatus = AwaitingApproval | Approved | Rejected | RevisionRequested
  datatype Risk = Low | Medium | High | Critical

  /** An approval row, unique by plan version, actor and decision. */
  datatype Vote = Vote(version: nat, actor: Actor, decision: Decision)

  /** A plan with its votes and the status its investigation run is given with it. */
  datatype Plan = Plan(version: nat, status: PlanStatus, requiredApprovals: int, risk: Risk, votes: set<Vote>,
                       investigation: PlanStatus)

  /** Who decides, and whether as an authenticated human user. */
  datatype Context = Context(actor: Actor, human: bool)

  datatype DecisionError = NotHuman | VersionConflict | NotDecidable | DutiesConflict | NoPatch

  /** The distinct actors that approved this version of the plan. */
  function Approvers(votes: set<Vote>, version: nat): set<Actor> {
    set v | v in votes && v.version == version && v.decision == Approve :: v.actor
  }

  /** Every actor with an approving vote on the plan, whatever the version. */
  function AnyApprovers(votes: set<Vote>): set<Actor> { set v | v in votes && v.decision == Approve :: v.actor }

  function NextStatus(plan: Plan, decision: Decision): PlanStatus {
    match decision
    case Approve => if |Approvers(plan.votes, plan.version)| >= plan.requiredApprovals then Approved
        else AwaitingApproval
    case Reject => Rejected
    case RequestRevision => RevisionRequested
  }

  function Decide(plan: Plan, context: Context, decision: Decision, expectedVersion: nat): Result<Plan, DecisionError> {
    if !context.human then Err(NotHuman)
    else if plan.version != expectedVersion then Err(VersionConflict)
    else if plan.status != AwaitingApproval then Err(NotDecidable)
    else
      var vote := Vote(plan.version, context.actor, decision);
      if vote in plan.votes then Ok(plan)
      else
        var voted := plan.(votes := plan.votes + {vote});
        var next := NextStatus(voted, decision);
        Ok(voted.(status := next, investigation := next))
  }

  /** The plan row and its approval rows, as the store updates them. */
  class PlanRows {
    var plan: Plan

    constructor (version: nat, requiredApprovals: int, risk: Risk)
      ensures plan == Plan(version, AwaitingApproval, requiredApprovals, risk, {}, AwaitingApproval)
    {
      plan := Plan(version, AwaitingApproval, requiredApprovals, risk, {}, AwaitingApproval);
    }

    method DecideTreatmentPlan(context: Context, decision: Decision, expectedVersion: nat)
      returns (r: Result<(), DecisionError>)
      modifies this
      ensures match Decide(old(plan), context, decision, expectedVersion)
              case Err(e) => r == Err(e) && plan == old(plan)
              case Ok(next) => r == Ok(()) && plan == next
    {
      if !context.human { return Err(NotHuman); }
      if plan.version != expectedVersion { return Err(VersionConflict); }
      if plan.status != AwaitingApproval { return Err(NotDecidable); }
      var vote := Vote(plan.version, context.actor, decision);
      if vote in plan.votes { return Ok(()); }
      plan := plan.(votes := plan.votes + {vote});
      var approvalCount := |Approvers(plan.votes, plan.version)|;
      var reached := decision == Approve && approvalCount >= plan.requiredApprovals;
      var next := match decision
        case Approve => if reached then Approved else AwaitingApproval
        case Reject => Rejected
        case RequestRevision => RevisionRequested;
      plan := plan.(status := next, investigation := next);
      return Ok(());
    }
  }

  // What one decision does, in the rows before and after.

  /** A vote changes the approvers of its own version only, and only if it approves. */
  lemma ApproversAfter(votes: set<Vote>, vote: Vote, version: nat)
    ensures Approvers(votes + {vote}, version)
         == Approvers(votes, version) + if vote.decision == Approve && vote.version == version then {vote.actor} else {}
  {
    var after := Approvers(votes + {vote}, version);
    if vote.decision == Approve && vote.version == version { assert vote in votes + {vote}; }
    forall a | a in Approvers(votes, version) ensures a in after {
      var v :| v in votes && v.version == version && v.decision == Approve && v.actor == a;
      assert v in votes + {vote};
    }
  }

  /** A decision is accepted exactly from a human, on the expected version of a plan still open. */
  lemma DecisionAccepted(plan: Plan, context: Context, decision: Decision, expectedVersion: nat)
    ensures var r := Decide(plan, context, decision, expectedVersion);
            && (r.Ok? <==> context.human && plan.version == expectedVersion && plan.status == AwaitingApproval)
            && (!context.human ==> r == Err(NotHuman))
            && (context.human && plan.version != expectedVersion ==> r == Err(VersionConflict))
            && (context.human && plan.version == expectedVersion && plan.status != AwaitingApproval ==>
                  r == Err(NotDecidable))
  {
  }

  /**
   * An accepted decision that was not cast before: an approval approves the plan if and only if the
   * distinct approvers of this version, the actor included, reach the required number, and leaves it open
   * otherwise; a rejection rejects it, a request for revision sends it back. The investigation follows.
   */
  lemma DecisionOutcome(plan: Plan, context: Context, decision: Decision)
    requires context.human && plan.status == AwaitingApproval
    requires Vote(plan.version, context.actor, decision) !in plan.votes
    ensures Decide(plan, context, decision, plan.version).Ok?
    ensures var after := Decide(plan, context, decision, plan.version).value;
            var approvers := Approvers(plan.votes, plan.version) + {context.actor};
            && after.votes == plan.votes + {Vote(plan.version, context.actor, decision)}
            && after.investigation == after.status
            && (decision == Approve ==> Approvers(after.votes, plan.version) == approvers)
            && (decision == Approve ==>
                  (after.status == Approved <==> |approvers| >= plan.requiredApprovals)
                  && (after.status == AwaitingApproval <==> |approvers| < plan.requiredApprovals))
            && (decision == Reject ==> after.status == Rejected)
            && (decision == RequestRevision ==> after.status == RevisionRequested)
            && after.version == plan.version && after.requiredApprovals == plan.requiredApprovals
            && after.risk == plan.risk
  {
    ApproversAfter(plan.votes, Vote(plan.version, context.actor, decision), plan.version);
  }

  // Runs of decisions.

  datatype Ballot = Ballot(context: Context, decision: Decision, expectedVersion: nat)

  /** The plan after an attempted decision; an error leaves it alone. */
  function Cast(plan: Plan, b: Ballot): Plan {
    match Decide(plan, b.context, b.decision, b.expectedVersion) case Err(_) => plan case Ok(next) => next
  }

  function CastAll(plan: Plan, ballots: seq<Ballot>): Plan
    decreases ballots
  {
    if ballots == [] then plan else CastAll(Cast(plan, ballots[0]), ballots[1..])
  }

  predicate Submitted(plan: Plan) { plan.status == AwaitingApproval && plan.votes == {}
      && plan.investigation == AwaitingApproval }

  /** The number of approvers a plan needs: at least one vote is always cast. */
  function Needed(plan: Plan): int { if plan.requiredApprovals < 1 then 1 else plan.requiredApprovals }

  ghost predicate Tallied(plan: Plan) {
    var approvers := Approvers(plan.votes, plan.version);
    && plan.investigation == plan.status
    && (forall v <- plan.votes :: v.version == plan.version)
    && (plan.status == AwaitingApproval
        ==> |approvers| < Needed(plan) && forall v <- plan.votes :: v.decision == Approve)
    && (plan.status == Approved ==> |approvers| == Needed(plan) && forall v <- plan.votes :: v.decision == Approve)
  }

  lemma VoteAdds(votes: set<Vote>, vote: Vote)
    requires vote !in votes
    ensures var before, after := Approvers(votes, vote.version), Approvers(votes + {vote}, vote.version);
            |after| == |before| + (if vote.decision == Approve then 1 else 0)
  {
    var before, after := Approvers(votes, vote.version), Approvers(votes + {vote}, vote.version);
    if vote.decision == Approve {
      assert vote.actor !in before by {
        forall v | v in votes && v.version == vote.version && v.decision == Approve ensures v.actor != vote.actor {
          assert v != vote;
        }
      }
      assert vote in votes + {vote};
      assert after == before + {vote.actor};
    } else {
      assert after == before;
    }
  }

  lemma CastTallied(plan: Plan, b: Ballot)
    requires Tallied(plan)
    ensures Tallied(Cast(plan, b))
  {
    var vote := Vote(plan.version, b.context.actor, b.decision);
    if vote !in plan.votes { VoteAdds(plan.votes, vote); }
  }

  lemma SubmittedTallied(plan: Plan)
    requires Submitted(plan)
    ensures Tallied(plan)
  {
    assert Approvers(plan.votes, plan.version) == {};
  }

  lemma {:induction false} CastAllTallied(plan: Plan, ballots: seq<Ballot>)
    requires Tallied(plan)
    ensures Tallied(CastAll(plan, ballots))
    decreases ballots
  {
    hide Tallied, Cast;
    if ballots != [] {
      CastTallied(plan, ballots[0]);
      CastAllTallied(Cast(plan, ballots[0]), ballots[1..]);
    }
  }

  lemma {:induction false} CastAllKeepsShape(plan: Plan, ballots: seq<Ballot>)
    ensures var late := CastAll(plan, ballots);
            late.version == plan.version && late.requiredApprovals == plan.requiredApprovals && late.risk == plan.risk
    decreases ballots
  {
    if ballots != [] { CastAllKeepsShape(Cast(plan, ballots[0]), ballots[1..]); }
  }

  /**
   * After any sequence of attempted decisions, an approved plan has exactly the required number of
   * distinct approvers, a plan still open has fewer, and the investigation shows the same status.
   */
  lemma ApprovedExactly(plan: Plan, ballots: seq<Ballot>)
    requires Submitted(plan)
    ensures var late := CastAll(plan, ballots);
            var approvers := Approvers(late.votes, plan.version);
            && (late.status == Approved ==> |approvers| == Needed(plan))
            && (late.status == AwaitingApproval ==> |approvers| < Needed(plan))
            && late.investigation == late.status
  {
    SubmittedTallied(plan);
    CastAllTallied(plan, ballots);
    CastAllKeepsShape(plan, ballots);
  }

  /** A decided plan is frozen, and a decision cast again changes nothing. */
  lemma {:induction false} DecidedIsFrozen(plan: Plan, ballots: seq<Ballot>)
    requires plan.status != AwaitingApproval
    ensures CastAll(plan, ballots) == plan
    decreases ballots
  {
    if ballots != [] { DecidedIsFrozen(plan, ballots[1..]); }
  }

  lemma RecastChangesNothing(plan: Plan, b: Ballot)
    ensures Cast(Cast(plan, b), b) == Cast(plan, b)
  {
  }
}
