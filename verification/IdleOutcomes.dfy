/** What a call comes to that nobody disturbs, and when its plan may be taken over. */
module IdleOutcomes {
  import opened Prelude
  import opened IdlePlanner
  import opened IdleClaims
  import opened IdleProtocol
  import opened IdleInvariants
  import opened IdleIsolation
  import opened IdleTheorems
  import opened IdleCounterexamples

  // ---- a clean collect ----

  /** A direct call that has passed its checks and still holds guard, lock and plan. */
  predicate Undisturbed(w: World, e: ExecId)
  {
    && At(w, e, Cleared) && w.guard == Some(e) && w.lock == Some(e) && !w.execs[e].claim.recovery
    && w.execs[e].claim.planId == w.execs[e].planId && w.execs[e].planId in w.plans
    && w.plans[w.execs[e].planId].state == Executing
    && w.plans[w.execs[e].planId].owner == Some(w.execs[e].claim.owner)
  }

  /** Its collect is on the way, has been applied, or has been applied and answered. */
  predicate Underway(v: World, w: World, e: ExecId, stage: Stage, transit: Transit)
    requires e in w.execs
  {
    var x := w.execs[e];
    && e in v.execs && v.guard == Some(e) && v.lock == Some(e) && v.plans == w.plans && v.guardLost == w.guardLost
    && v.execs[e].stage == stage && v.execs[e].send == |w.sends| && v.execs[e].claim == x.claim
    && v.execs[e].planId == x.planId && v.execs[e].before == x.before
    && v.sends == w.sends + [Send(x.planId, e, true, x.claim.policyVersion, |w.policies|, true, transit)]
    && v.collects == (if transit.Applied? then w.collects + [BySend(|w.sends|, true)] else w.collects)
  }

  lemma CollectIsSent(w: World, e: ExecId) returns (v: World)
    requires Reaches(w) && Undisturbed(w, e)
    ensures Reaches(v) && Underway(v, w, e, Waiting, InFlight) && v.seconds == w.seconds
  {
    v := DoSend(w, e);
    Onward(w, SendCollect(e), v);
  }

  lemma CollectIsApplied(w: World, v: World, e: ExecId, left: nat) returns (u: World)
    requires e in w.execs && Reaches(v) && Underway(v, w, e, Waiting, InFlight) && left <= v.seconds
    ensures Reaches(u) && Underway(u, w, e, Waiting, Applied) && u.seconds == left
  {
    var i := |w.sends|;
    assert Attended(v, i);
    u := DoDeliver(v, i, left);
    Onward(v, Deliver(i, left), u);
    assert u.sends == w.sends + [v.sends[i].(transit := Applied)];
  }

  lemma CollectIsAnswered(w: World, v: World, e: ExecId) returns (u: World)
    requires e in w.execs && Reaches(v) && Underway(v, w, e, Waiting, Applied)
    ensures Reaches(u) && Underway(u, w, e, Answered, Applied) && u.seconds == v.seconds
  {
    u := DoMove(v, e, Answer);
    Onward(v, Move(e, Answer), u);
  }

  /** The verdict of the call is a collect of its own, and the account lock is released. */
  predicate MayRecord(b: World, w: World, e: ExecId)
    requires e in w.execs
  {
    && At(b, e, Finishing) && b.plans == w.plans && b.guardLost == w.guardLost
    && b.execs[e].outcome == CollectedNow && b.execs[e].claim == w.execs[e].claim
    && b.execs[e].planId == w.execs[e].planId
    && b.sends == w.sends + [Send(w.execs[e].planId, e, true, w.execs[e].claim.policyVersion, |w.policies|, true,
                                  Applied)]
    && b.collects == w.collects + [BySend(|w.sends|, true)]
  }

  lemma AnswerDecides(w: World, v: World, e: ExecId) returns (b: World)
    requires e in w.execs && Reaches(v) && Underway(v, w, e, Answered, Applied)
    requires v.seconds < w.execs[e].before.seconds
    ensures Reaches(b) && MayRecord(b, w, e)
  {
    var a := DoMove(v, e, ReadAfter(true));
    Onward(v, Move(e, ReadAfter(true)), a);
    b := DoMove(a, e, ReleaseLock);
    Onward(a, Move(e, ReleaseLock), b);
  }

  /** The plan is recorded as executed, not reconciled, and its own collect was applied. */
  ghost predicate Collected(v: World, p: PlanId)
  {
    && p in v.plans && v.plans[p].state == Executed && v.plans[p].result == Some(ExecutedNote(false))
    && OwnSendApplied(v, p, |v.collects|)
    && exists y :: Wrote(v, p, y) && y.direct && y.outcome == CollectedNow
  }

  lemma VerdictIsWritten(w: World, b: World, e: ExecId, now: int) returns (u: World)
    requires Undisturbed(w, e) && Reaches(b) && MayRecord(b, w, e)
    ensures Reaches(u) && Collected(u, w.execs[e].planId) && e !in u.execs && u.guardLost == w.guardLost
  {
    var x, p := b.execs[e], w.execs[e].planId;
    u := DoFinish(b, e, now);
    Onward(b, FinishPlan(e, now), u);
    assert MayFinish(b.plans, x.claim);
    var y := Verdict(p, true, CollectedNow, x.mark, x.seen, x.backed);
    assert u.verdicts == b.verdicts + [y] && u.verdicts[|b.verdicts|] == y;
    assert Wrote(u, p, y);
    assert For(u.sends, u.collects[|w.collects|], p);
  }

  /** From any reachable world: if the collect of an undisturbed call is applied, leaves less than the call had read,
      and is answered positively, the plan is recorded as executed. */
  lemma CleanCollectIsExecuted(w: World, e: ExecId, left: nat, now: int) returns (v: World)
    requires Reaches(w) && Undisturbed(w, e) && left <= w.seconds && left < w.execs[e].before.seconds
    ensures Reaches(v) && Collected(v, w.execs[e].planId) && e !in v.execs && v.guardLost == w.guardLost
  {
    var a := CollectIsSent(w, e);
    var b := CollectIsApplied(w, a, e, left);
    var c := CollectIsAnswered(w, b, e);
    var d := AnswerDecides(w, c, e);
    v := VerdictIsWritten(w, d, e, now);
  }

  /** And such worlds are reached: two hours under a one-hour policy are collected down to nothing. */
  lemma CleanCollectIsReached() returns (w: World)
    ensures Reaches(w) && !w.guardLost && Collected(w, 0)
  {
    var a := TwoPlans();
    CallUntilCleared(a, 0, 0);
    var b := InCall(a, 0, 0, Caller(a, 0, Cleared, 0), Some(0));
    w := CleanCollectIsExecuted(b, 0, 0, 0);
  }

  // ---- what each read decides ----

  /** The verdict of a call, in terms of what it has read and what the game says now. */
  lemma ReadsDecide(w: World, x: Exec, m: Motion)
    ensures m.Check? ==>
              var agrees := && x.planId in w.plans && w.plans[x.planId].account == w.account
                            && w.plans[x.planId].state == Executing
                            && w.plans[x.planId].owner == Some(x.claim.owner)
                            && x.policy.version == x.claim.policyVersion
                            && x.claim.fingerprint.capacity == x.before.capacity
                            && (x.claim.fingerprint.due <==> !Waits(x.before, x.policy));
              if agrees then Moved(w, x, m).stage == Cleared
              else Moved(w, x, m).stage == Stage.Decided && Moved(w, x, m).outcome == PreconditionFailed
    ensures m.ReadAfter? ==>
              Moved(w, x, m).outcome ==
                if m.collected && w.seconds < x.before.seconds then CollectedNow else NeedsReconciliation
    ensures m.ReadCurrent? ==>
              Moved(w, x, m).outcome ==
                if m.readable && x.policy.version == x.claim.policyVersion && Waits(Now(w), x.policy) then Reconciled
                else NeedsReconciliation
    ensures m.RecoverRead? ==>
              Moved(w, x, m).outcome ==
                if x.policy.version == x.claim.policyVersion && Waits(Now(w), x.policy) then Reconciled
                else NeedsReconciliation
  {
    WaitsIsNotCollecting(x.before, x.policy);
    WaitsIsNotCollecting(Now(w), x.policy);
  }

  /** From any reachable world: a recovery that holds the lock and its plan, under the plan's policy, records the plan
      as reconciled if the policy would wait now, and asks for reconciliation otherwise. */
  lemma RecoveryIsConcluded(w: World, e: ExecId, now: int) returns (v: World)
    requires Reaches(w) && At(w, e, Admitted) && w.lock == Some(e) && w.execs[e].claim.recovery
    requires MayFinish(w.plans, w.execs[e].claim) && w.execs[e].policy.version == w.execs[e].claim.policyVersion
    ensures Reaches(v) && v.sends == w.sends && v.collects == w.collects && e !in v.execs
    ensures var p := w.execs[e].claim.planId;
            if Waits(Now(w), w.execs[e].policy) then Concluded(w.plans, v.plans, p, Executed, ExecutedNote(true), now)
            else Concluded(w.plans, v.plans, p, ReconciliationRequired, ReconciliationNote, now)
  {
    ReadsDecide(w, w.execs[e], RecoverRead);
    var a := DoMove(w, e, RecoverRead);
    Onward(w, Move(e, RecoverRead), a);
    var b := DoMove(a, e, ReleaseLock);
    Onward(a, Move(e, ReleaseLock), b);
    v := DoFinish(b, e, now);
    Onward(b, FinishPlan(e, now), v);
  }

  // ---- leases ----

  /** The lease of every plan in execution ends two minutes after its claim. */
  predicate Leased(plans: map<PlanId, PlanRow>)
  {
    forall p | p in plans && plans[p].state == Executing ::
      plans[p].startedAt.Some? && plans[p].leaseExpiresAt == Some(plans[p].startedAt.value + 120)
  }

  lemma ClaimKeepsLeases(plans: map<PlanId, PlanRow>, account: AccountId, id: PlanId, owner: Owner, now: int,
                         recovery: bool)
    requires Leased(plans)
    ensures Leased(ClaimTx(plans, account, id, owner, now, recovery).1)
  {}

  lemma FinishKeepsLeases(w: World, e: ExecId, now: int)
    requires Leased(w.plans) && e in w.execs && !w.execs[e].outcome.Status().Executing?
    ensures Leased(DoFinish(w, e, now).plans)
  {}

  lemma StepKeepsLeases(w: World, s: Step, v: World)
    requires Leased(w.plans) && Next(w, s, v)
    ensures Leased(v.plans)
  {
    match s
    case TakeClaim(e, now) =>
      ClaimKeepsLeases(w.plans, w.account, w.execs[e].planId, w.owners, now, w.execs[e].asked);
    case FinishPlan(e, now) => FinishKeepsLeases(w, e, now);
    case PreviewSave(_, _, _) =>
    case ConfirmPlan(_, _) =>
    case MutateDeclines(_, _) =>
    case _ => assert v.plans == w.plans;
  }

  lemma {:induction false} AlwaysLeased(ws: seq<World>, n: nat)
    requires History(ws) && n < |ws|
    ensures Leased(ws[n].plans)
  {
    if n > 0 {
      AlwaysLeased(ws, n - 1);
      assert Linked(ws[n-1], ws[n]);
      var s :| Next(ws[n-1], s, ws[n]);
      StepKeepsLeases(ws[n-1], s, ws[n]);
    }
  }

  /** In every history: a plan in execution passes to another claim exactly if that is a recovery, two minutes or more
      after the claim that it is under. */
  lemma TakenOverAfterTwoMinutes(ws: seq<World>, n: nat, p: PlanId, owner: Owner, now: int, recovery: bool)
    requires History(ws) && n < |ws| && p in ws[n].plans && ws[n].plans[p].state == Executing
    ensures ws[n].plans[p].startedAt.Some?
    ensures ClaimTx(ws[n].plans, ws[n].plans[p].account, p, owner, now, recovery).0.Granted?
            <==> recovery && now >= ws[n].plans[p].startedAt.value + 120
  {
    AlwaysLeased(ws, n);
  }
}
