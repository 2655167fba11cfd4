/** `IdleExecuteUseCase._send_once` and `_recover` (application/idle.py), run by one executor without interference. */
module IdleExecute {
  import opened Prelude
  import opened IdlePlanner
  import opened IdleClaims
  import opened IdleProtocol

  /** The game as one call sees it: the n-th `idle_summary` and the one `idle_collect`; None is an exception. */
  class IdleGame {
    const summaries: nat -> Option<Idle>
    const answer: Option<bool>
    var fetched: nat
    var collects: nat

    constructor (summaries: nat -> Option<Idle>, answer: Option<bool>)
      ensures this.summaries == summaries && this.answer == answer && fetched == 0 && collects == 0
    {
      this.summaries, this.answer := summaries, answer;
      fetched, collects := 0, 0;
    }

    method IdleSummary() returns (idle: Option<Idle>)
      modifies this
      ensures idle == summaries(old(fetched)) && fetched == old(fetched) + 1 && collects == old(collects)
    {
      idle := summaries(fetched);
      fetched := fetched + 1;
    }

    method IdleCollect() returns (collected: Option<bool>)
      modifies this
      ensures collected == answer && collects == old(collects) + 1 && fetched == old(fetched)
    {
      collected := answer;
      collects := collects + 1;
    }
  }

  /** What `locked` does for the call: it gives the policy or raises, and leaving it commits or raises. */
  datatype LockUse = LockUse(policy: Option<Policy>, commits: bool)

  /** How a call ends. `Aborted` leaves the plan executing: `locked`, the read before the send or the commit raised. */
  datatype Reply =
    | Busy                // PlanInProgress from the guard
    | ClaimRefused(error: ClaimError)
    | Aborted
    | NotWritten          // PlanPreconditionFailed out of the terminal write: the claim was taken over
    | RaisedPrecondition  // PlanPreconditionFailed
    | RaisedReconciliation
    | Returned(applied: bool, reconciled: bool)

  function ReplyFor(outcome: Outcome, direct: bool): Reply
  {
    match outcome
    case PreconditionFailed => RaisedPrecondition
    case NeedsReconciliation => RaisedReconciliation
    case CollectedNow => Returned(true, false)
    case Reconciled => Returned(direct, true)
  }

  /** What a direct call decides from its reads `r` (the first of which is `before`) and the collect's answer. */
  function DirectOutcome(r: nat -> Option<Idle>, answer: Option<bool>, policy: Policy, before: Idle,
                         claim: Claim): Outcome
  {
    match answer
    case None => AfterFault(r(1), policy, claim)
    case Some(collected) =>
      match r(1)
      case None => AfterFault(r(2), policy, claim)
      case Some(after) => AfterAnswer(collected, before, after)
  }

  /** The row is in the hands of the claim. */
  predicate Holds(plans: map<PlanId, PlanRow>, claim: Claim)
  {
    claim.planId in plans && plans[claim.planId].state == Executing && plans[claim.planId].owner == Some(claim.owner)
  }

  /** The three checks of a direct call: owner, policy version, and what the fingerprint records. */
  predicate Agrees(plans: map<PlanId, PlanRow>, account: AccountId, claim: Claim, policy: Policy, first: Idle)
  {
    && Holds(plans, claim) && plans[claim.planId].account == account
    && policy.version == claim.policyVersion
    && claim.fingerprint.capacity == first.capacity && (claim.fingerprint.due <==> !Waits(first, policy))
  }

  /**
   * What a direct call promises, given its reads `r`, the answer to its collect and whether its lock commits. The
   * collect is sent exactly if the checks agree. A positive answer followed by a lower reading is an execution; a
   * negative answer, or a reading that is not lower, needs reconciliation; after a fault a reading at which the policy
   * would wait is a reconciled execution, and anything else needs reconciliation.
   */
  ghost predicate DirectPromise(was: map<PlanId, PlanRow>, plans: map<PlanId, PlanRow>, account: AccountId,
                                claim: Claim, policy: Policy, commits: bool, r: nat -> Option<Idle>,
                                answer: Option<bool>, collects: nat, now: int, reply: Reply)
    requires r(0).Some?
  {
    var first := r(0).value;
    var sent := Agrees(was, account, claim, policy, first);
    var last := if answer.None? then r(1) else r(2);
    && collects == (if sent then 1 else 0)
    && (!commits ==> reply == Aborted && plans == was)
    && (commits && !Holds(was, claim) ==> reply == NotWritten && plans == was)
    && (commits && Holds(was, claim) && !sent ==>
          reply == RaisedPrecondition && Concluded(was, plans, claim.planId, Failed, PreconditionFailedNote, now))
    && (commits && sent && answer == Some(true) && r(1).Some? && r(1).value.seconds < first.seconds ==>
          reply == Returned(true, false) && Concluded(was, plans, claim.planId, Executed, ExecutedNote(false), now))
    && (commits && sent && answer.Some? && r(1).Some? && (answer == Some(false) || r(1).value.seconds >= first.seconds)
        ==>
          ReconciliationLeft(was, plans, claim, now, reply))
    && (commits && sent && (answer.None? || r(1).None?) && last.Some? && Waits(last.value, policy) ==>
          reply == Returned(true, true) && Concluded(was, plans, claim.planId, Executed, ExecutedNote(true), now))
    && (commits && sent && (answer.None? || r(1).None?) && (last.None? || !Waits(last.value, policy)) ==>
          ReconciliationLeft(was, plans, claim, now, reply))
  }

  predicate ReconciliationLeft(was: map<PlanId, PlanRow>, plans: map<PlanId, PlanRow>, claim: Claim, now: int,
                               reply: Reply)
  {
    && reply == RaisedReconciliation
    && Concluded(was, plans, claim.planId, ReconciliationRequired, ReconciliationNote, now)
  }

  /** A recovery executes the plan, without applying anything, if the policy is the plan's and would wait now. */
  predicate RecoveryPromise(was: map<PlanId, PlanRow>, plans: map<PlanId, PlanRow>, claim: Claim, policy: Policy,
                            current: Idle, now: int, reply: Reply)
  {
    if !Holds(was, claim) then reply == NotWritten && plans == was
    else if policy.version == claim.policyVersion && Waits(current, policy)
    then reply == Returned(false, true) && Concluded(was, plans, claim.planId, Executed, ExecutedNote(true), now)
    else ReconciliationLeft(was, plans, claim, now, reply)
  }

  lemma DirectPromised(was: map<PlanId, PlanRow>, account: AccountId, claim: Claim, policy: Policy, commits: bool,
                       r: nat -> Option<Idle>, answer: Option<bool>, now: int)
    requires r(0).Some?
    ensures var clears := Clears(Owned(was, account, claim.planId, claim.owner), policy, r(0).value, claim);
            var outcome := if clears then DirectOutcome(r, answer, policy, r(0).value, claim) else PreconditionFailed;
            var plans := if commits then FinishTx(was, claim, outcome.Status(), outcome.Result(), now) else was;
            var reply := if !commits then Aborted
                         else if MayFinish(was, claim) then ReplyFor(outcome, true) else NotWritten;
            DirectPromise(was, plans, account, claim, policy, commits, r, answer, if clears then 1 else 0, now, reply)
  {
    WaitsIsNotCollecting(r(0).value, policy);
    if r(1).Some? { WaitsIsNotCollecting(r(1).value, policy); }
    if r(2).Some? { WaitsIsNotCollecting(r(2).value, policy); }
  }

  class IdleExecuteUseCase {
    const claims: IdleExecutionClaims
    const game: IdleGame

    constructor (claims: IdleExecutionClaims, game: IdleGame)
      ensures this.claims == claims && this.game == game
    {
      this.claims, this.game := claims, game;
    }

    method Conclude(claim: Claim, outcome: Outcome, direct: bool, now: int) returns (reply: Reply)
      modifies claims
      ensures claims.plans == FinishTx(old(claims.plans), claim, outcome.Status(), outcome.Result(), now)
      ensures reply == if MayFinish(old(claims.plans), claim) then ReplyFor(outcome, direct) else NotWritten
    {
      var written := claims.Finish(claim, outcome.Status(), outcome.Result(), now);
      reply := if written then ReplyFor(outcome, direct) else NotWritten;
    }

    /** One collect at most, and only past the three checks; then the verdict that the state machine records. */
    method SendOnce(account: AccountId, claim: Claim, lock: LockUse, now: int) returns (reply: Reply)
      requires game.fetched == 0 && game.collects == 0
      modifies claims, game
      ensures lock.policy.None? || game.summaries(0).None? ==>
                reply == Aborted && claims.plans == old(claims.plans) && game.collects == 0
      ensures lock.policy.Some? && game.summaries(0).Some? ==>
                var before, policy := game.summaries(0).value, lock.policy.value;
                var clears :=
                  Clears(Owned(old(claims.plans), account, claim.planId, claim.owner), policy, before, claim);
                var outcome := if clears then DirectOutcome(game.summaries, game.answer, policy, before, claim)
                               else PreconditionFailed;
                && game.collects == (if clears then 1 else 0)
                && (!lock.commits ==> reply == Aborted && claims.plans == old(claims.plans))
                && (lock.commits ==>
                      && claims.plans == FinishTx(old(claims.plans), claim, outcome.Status(), outcome.Result(), now)
                      && reply == if MayFinish(old(claims.plans), claim) then ReplyFor(outcome, true) else NotWritten)
      // in terms of the columns, the reads and the answer alone:
      ensures lock.policy.Some? && game.summaries(0).Some? ==>
                DirectPromise(old(claims.plans), claims.plans, account, claim, lock.policy.value, lock.commits,
                              game.summaries, game.answer, game.collects, now, reply)
    {
      var outcome;
      if lock.policy.None? { return Aborted; }
      var policy := lock.policy.value;
      var first := game.IdleSummary();
      if first == None { return Aborted; }
      var before := first.value;
      if !Owned(claims.plans, account, claim.planId, claim.owner)
         || policy.version != claim.policyVersion
         || FingerprintOf(before, policy) != claim.fingerprint
      {
        outcome := PreconditionFailed;
      } else {
        var response := game.IdleCollect();
        var after := None;
        if response.Some? {
          after := game.IdleSummary();
        }
        if response == None || after == None {
          var current := game.IdleSummary();
          if current == None {
            outcome := NeedsReconciliation;
          } else if policy.version == claim.policyVersion && !Collectible(current.value, policy) {
            outcome := Reconciled;
          } else {
            outcome := NeedsReconciliation;
          }
        } else if !response.value || after.value.seconds >= before.seconds {
          outcome := NeedsReconciliation;
        } else {
          outcome := CollectedNow;
        }
      }
      DirectPromised(claims.plans, account, claim, policy, lock.commits, game.summaries, game.answer, now);
      if !lock.commits { return Aborted; }
      reply := Conclude(claim, outcome, true, now);
    }

    /** A recovery reads once and never collects. */
    method Recover(claim: Claim, lock: LockUse, now: int) returns (reply: Reply)
      requires game.fetched == 0
      modifies claims, game
      ensures game.collects == old(game.collects)
      ensures lock.policy.None? || game.summaries(0).None? || !lock.commits ==>
                reply == Aborted && claims.plans == old(claims.plans)
      ensures lock.policy.Some? && game.summaries(0).Some? && lock.commits ==>
                var outcome := AfterRecovery(game.summaries(0).value, lock.policy.value, claim);
                && claims.plans == FinishTx(old(claims.plans), claim, outcome.Status(), outcome.Result(), now)
                && reply == if MayFinish(old(claims.plans), claim) then ReplyFor(outcome, false) else NotWritten
      // in terms of the columns and the one read alone:
      ensures lock.policy.Some? && game.summaries(0).Some? && lock.commits ==>
                RecoveryPromise(old(claims.plans), claims.plans, claim, lock.policy.value, game.summaries(0).value, now,
                                reply)
    {
      if lock.policy.None? { return Aborted; }
      var policy := lock.policy.value;
      var current := game.IdleSummary();
      if current == None || !lock.commits { return Aborted; }
      var proven := policy.version == claim.policyVersion && !Collectible(current.value, policy);
      WaitsIsNotCollecting(current.value, policy);
      reply := Conclude(claim, if proven then Reconciled else NeedsReconciliation, false, now);
    }

    /**
     * The whole call, if nobody interferes: what it raises or returns says exactly what has become of the plan, and
     * the one collect is only sent for a plan that this call has claimed first.
     */
    method Execute(account: AccountId, planId: PlanId, recovery: bool, guardFree: bool, lock: LockUse, now: int)
      returns (reply: Reply)
      requires game.fetched == 0 && game.collects == 0
      modifies claims, game
      ensures game.collects <= 1
      ensures var claimed := ClaimTx(old(claims.plans), account, planId, old(claims.issued), now, recovery);
              && (!guardFree ==> reply == Busy && claims.plans == old(claims.plans) && game.collects == 0)
              && (guardFree && claimed.0.Refused? ==>
                    reply == ClaimRefused(claimed.0.error) && claims.plans == old(claims.plans) && game.collects == 0)
              && (guardFree && claimed.0.Granted? ==>
                    && Told(reply, claims.plans, planId)
                    && (game.collects == 1 ==> !claimed.0.claim.recovery && old(claims.plans)[planId].state.Open())
                    && (reply == RaisedPrecondition ==> game.collects == 0))
      // and a plan that was granted ends as its call promises
      ensures var (claimed, rows) := ClaimTx(old(claims.plans), account, planId, old(claims.issued), now, recovery);
              guardFree && claimed.Granted? && lock.policy.Some? && game.summaries(0).Some? ==>
                if !claimed.claim.recovery then
                  DirectPromise(rows, claims.plans, account, claimed.claim, lock.policy.value, lock.commits,
                                game.summaries, game.answer, game.collects, now, reply)
                else if lock.commits then
                  RecoveryPromise(rows, claims.plans, claimed.claim, lock.policy.value, game.summaries(0).value, now,
                                  reply)
                else reply == Aborted && claims.plans == rows
      ensures forall p | p in old(claims.plans) && p != planId ::
                p in claims.plans && claims.plans[p] == old(claims.plans)[p]
    {
      if !guardFree { return Busy; }
      var claimed := claims.Claim(account, planId, now, recovery);
      match claimed {
        case Refused(error) => return ClaimRefused(error);
        case Granted(claim) =>
          GrantedIsOwned(old(claims.plans), account, planId, old(claims.issued), now, recovery);
          if claim.recovery {
            reply := Recover(claim, lock, now);
          } else {
            reply := SendOnce(account, claim, lock, now);
          }
      }
    }
  }

  /** What the reply tells about the plan. */
  predicate Told(reply: Reply, plans: map<PlanId, PlanRow>, id: PlanId)
  {
    && id in plans
    && match plans[id].state
       case Executed => reply.Returned?
       case Failed => reply == RaisedPrecondition
       case ReconciliationRequired => reply == RaisedReconciliation
       case Executing => reply == Aborted
       case _ => false
  }

  /** A claim that was just granted may finish its plan. */
  lemma GrantedIsOwned(plans: map<PlanId, PlanRow>, account: AccountId, id: PlanId, owner: Owner, now: int,
                       recovery: bool)
    ensures var (reply, rows) := ClaimTx(plans, account, id, owner, now, recovery);
            reply.Granted? ==>
              reply.claim.planId == id && MayFinish(rows, reply.claim) && Owned(rows, account, id, owner)
  {}
}
