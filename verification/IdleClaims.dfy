/** Plan rows and `IdleExecutionClaims` (application/idle.py), with `confirm` (policy/plans.py). */
module IdleClaims {
  import opened Prelude
  import opened IdlePlanner

  type PlanId = nat
  type AccountId = nat
  type Owner = nat   // a uuid4 hex, drawn from an ever-growing supply

  datatype PlanState = Pending | Confirmed | Executing | Executed | Failed | ReconciliationRequired
  {
    predicate Terminal() { Executed? || Failed? || ReconciliationRequired? }
    predicate Open() { Pending? || Confirmed? }
  }

  datatype Risk = Low | Medium | High
  datatype Action = IdleCollect | OtherAction
  datatype Decision = Decision(family: string, state: string, action: Action)
  /** `execution_result`. DeclinedNote is what `mutate` writes when it fails a plan. */
  datatype Note = PreconditionFailedNote | ReconciliationNote | ExecutedNote(reconciled: bool) | DeclinedNote

  datatype PlanRow = PlanRow(
    account: AccountId,
    fingerprint: Fingerprint,
    policyVersion: nat,
    decisions: seq<Decision>,
    risk: Risk,
    confirmationRequired: bool,
    expiresAt: int,
    state: PlanState,
    owner: Option<Owner>,
    startedAt: Option<int>,
    leaseExpiresAt: Option<int>,
    attempts: nat,
    result: Option<Note>,
    executedAt: Option<int>)

  /** The claim object: the owner, the mode, and the plan columns read after the claim commits. */
  datatype Claim = Claim(planId: PlanId, owner: Owner, recovery: bool, policyVersion: nat, fingerprint: Fingerprint)

  datatype ClaimError = PlanInProgress | PlanPreconditionFailed
  datatype ClaimReply = Refused(error: ClaimError) | Granted(claim: Claim)

  const CLAIM_LEASE := 120   // timedelta(minutes=2), in seconds

  // ---- what each transaction does to the table of plans ----

  predicate Visible(plans: map<PlanId, PlanRow>, account: AccountId, id: PlanId)
  {
    id in plans && plans[id].account == account
  }

  predicate Fresh(row: PlanRow, now: int)
  {
    && row.state.Open()
    && row.expiresAt > now
    && row.risk == Low
    && !row.confirmationRequired
    && |row.decisions| == 1
    && row.decisions[0] == Decision("idle", "selected", IdleCollect)
  }

  predicate LeaseRunning(row: PlanRow, now: int)
  {
    row.leaseExpiresAt.Some? && row.leaseExpiresAt.value > now
  }

  function Owning(row: PlanRow, owner: Owner, now: int): PlanRow
  {
    row.(owner := Some(owner), startedAt := Some(now), leaseExpiresAt := Some(now + CLAIM_LEASE))
  }

  function ClaimOf(row: PlanRow, id: PlanId, owner: Owner, recovery: bool): Claim
  {
    Claim(id, owner, recovery, row.policyVersion, row.fingerprint)
  }

  function ClaimTx(plans: map<PlanId, PlanRow>, account: AccountId, id: PlanId, owner: Owner, now: int, recovery: bool)
    : (ClaimReply, map<PlanId, PlanRow>)
  {
    if !Visible(plans, account, id) then (Refused(PlanPreconditionFailed), plans)
    else
      var row := plans[id];
      if row.state.Executing? then
        if LeaseRunning(row, now) || !recovery then (Refused(PlanInProgress), plans)
        else (Granted(ClaimOf(row, id, owner, true)), plans[id := Owning(row, owner, now)])
      else if Fresh(row, now) then
        (Granted(ClaimOf(row, id, owner, false)),
         plans[id := Owning(row, owner, now).(state := Executing, attempts := row.attempts + 1)])
      else (Refused(PlanPreconditionFailed), plans)
  }

  predicate Owned(plans: map<PlanId, PlanRow>, account: AccountId, id: PlanId, owner: Owner)
  {
    Visible(plans, account, id) && plans[id].state.Executing? && plans[id].owner == Some(owner)
  }

  predicate MayFinish(plans: map<PlanId, PlanRow>, claim: Claim)
  {
    claim.planId in plans && plans[claim.planId].state.Executing? && plans[claim.planId].owner == Some(claim.owner)
  }

  function FinishTx(plans: map<PlanId, PlanRow>, claim: Claim, status: PlanState, note: Note, now: int)
    : map<PlanId, PlanRow>
  {
    if !MayFinish(plans, claim) then plans
    else plans[claim.planId := plans[claim.planId].(state := status, result := Some(note), executedAt := Some(now))]
  }

  /** `mutate` has failed the plan. */
  predicate Declined(row: PlanRow) { row.state.Failed? && row.result == Some(DeclinedNote) }

  /** `mutate`, called with a plan that is being executed. */
  function DeclineTx(plans: map<PlanId, PlanRow>, id: PlanId, now: int): map<PlanId, PlanRow>
    requires id in plans
  {
    plans[id := plans[id].(state := Failed, result := Some(DeclinedNote), executedAt := Some(now))]
  }

  predicate MayConfirm(plans: map<PlanId, PlanRow>, account: AccountId, id: PlanId, now: int)
  {
    Visible(plans, account, id) && plans[id].state.Pending? && plans[id].expiresAt > now
  }

  /** The row that a collecting preview stores. */
  function DraftRow(account: AccountId, fingerprint: Fingerprint, policyVersion: nat, expiresAt: int): PlanRow
  {
    PlanRow(account, fingerprint, policyVersion, [Decision("idle", "selected", IdleCollect)], Low, false, expiresAt,
            Pending, None, None, None, 0, None, None)
  }

  /** The one change is that the plan has ended in `state`, for the reason in `note`. */
  predicate Concluded(before: map<PlanId, PlanRow>, after: map<PlanId, PlanRow>, id: PlanId, state: PlanState,
                      note: Note, now: int)
  {
    && id in before
    && after == before[id := before[id].(state := state, result := Some(note), executedAt := Some(now))]
  }

  // ---- the service ----

  datatype Audit = ClaimAudit(id: PlanId, recovered: bool) | FinishAudit(id: PlanId, note: Note)

  class IdleExecutionClaims {
    var plans: map<PlanId, PlanRow>
    var audits: seq<Audit>
    var issued: Owner

    constructor (rows: map<PlanId, PlanRow>)
      ensures plans == rows && audits == [] && issued == 0
    {
      plans, audits, issued := rows, [], 0;
    }

    method Claim(account: AccountId, id: PlanId, now: int, recovery: bool) returns (reply: ClaimReply)
      modifies this
      ensures (reply, plans) == ClaimTx(old(plans), account, id, old(issued), now, recovery)
      ensures issued == old(issued) + 1
      ensures audits == old(audits) + (if reply.Granted? then [ClaimAudit(id, reply.claim.recovery)] else [])
      // who is granted: a recovery of an executing plan whose lease is over, or the first claim of a fresh plan
      ensures reply.Granted? <==>
                && id in old(plans) && old(plans)[id].account == account
                && var row := old(plans)[id];
                   if row.state == Executing
                   then recovery && (row.leaseExpiresAt.None? || row.leaseExpiresAt.value <= now)
                   else && (row.state == Pending || row.state == Confirmed) && now < row.expiresAt
                        && row.risk == Low && !row.confirmationRequired
                        && row.decisions == [Decision("idle", "selected", IdleCollect)]
      // what a refusal says, and that it changes nothing
      ensures reply.Refused? ==>
                && plans == old(plans)
                && reply.error == if id in old(plans) && old(plans)[id].account == account
                                     && old(plans)[id].state == Executing
                                  then PlanInProgress else PlanPreconditionFailed
      // what a grant writes, and the claim that it returns
      ensures reply.Granted? ==>
                var row := old(plans)[id];
                && plans == old(plans)[id := row.(
                     state := Executing, owner := Some(old(issued)), startedAt := Some(now),
                     leaseExpiresAt := Some(now + 120),
                     attempts := if row.state == Executing then row.attempts else row.attempts + 1)]
                && reply.claim.planId == id && reply.claim.owner == old(issued)
                && reply.claim.recovery == (row.state == Executing)
                && reply.claim.policyVersion == row.policyVersion && reply.claim.fingerprint == row.fingerprint
    {
      var owner := issued;
      issued := issued + 1;
      if id !in plans || plans[id].account != account {
        return Refused(PlanPreconditionFailed);
      }
      var plan := plans[id];
      if plan.state == Executing {
        if plan.leaseExpiresAt.Some? && plan.leaseExpiresAt.value > now {
          return Refused(PlanInProgress);
        }
        if !recovery {
          return Refused(PlanInProgress);
        }
        plan := plan.(owner := Some(owner));
        plan := plan.(startedAt := Some(now));
        plan := plan.(leaseExpiresAt := Some(now + 120));
        plans := plans[id := plan];
        audits := audits + [ClaimAudit(id, true)];
        return Granted(ClaimOf(plan, id, owner, true));
      }
      if !Fresh(plan, now) {
        return Refused(PlanPreconditionFailed);
      }
      plan := plan.(state := Executing);
      plan := plan.(owner := Some(owner));
      plan := plan.(startedAt := Some(now));
      plan := plan.(leaseExpiresAt := Some(now + 120));
      plan := plan.(attempts := plan.attempts + 1);
      plans := plans[id := plan];
      audits := audits + [ClaimAudit(id, false)];
      return Granted(ClaimOf(plan, id, owner, false));
    }

    /** Returns whether the terminal row was written; false is PlanPreconditionFailed. */
    method Finish(claim: Claim, status: PlanState, note: Note, now: int) returns (written: bool)
      modifies this
      ensures written == MayFinish(old(plans), claim)
      ensures plans == FinishTx(old(plans), claim, status, note, now)
      ensures issued == old(issued)
      ensures audits == old(audits) + (if written then [FinishAudit(claim.planId, note)] else [])
      ensures written <==> claim.planId in old(plans) && old(plans)[claim.planId].state == Executing
                           && old(plans)[claim.planId].owner == Some(claim.owner)
      ensures if written then Concluded(old(plans), plans, claim.planId, status, note, now) else plans == old(plans)
    {
      if claim.planId !in plans { return false; }
      var plan := plans[claim.planId];
      if plan.state != Executing || plan.owner != Some(claim.owner) { return false; }
      plan := plan.(state := status);
      plan := plan.(result := Some(note));
      plan := plan.(executedAt := Some(now));
      plans := plans[claim.planId := plan];
      audits := audits + [FinishAudit(claim.planId, note)];
      return true;
    }
  }
}
