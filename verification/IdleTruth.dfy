/** What every step of the idle protocol keeps about verdicts: a collect stands behind every "executed". */
module IdleTruth {
  import opened Prelude
  import opened IdlePlanner
  import opened IdleClaims
  import opened IdleProtocol
  import opened IdleInvariants

  /** Seconds stood at `level` or above when `mark` collects had been applied: they still do, or one was applied
      since. */
  predicate Since(w: World, mark: nat, level: nat)
  {
    mark <= |w.collects| && (mark < |w.collects| || w.seconds >= level)
  }

  predicate PoliciesOk(w: World)
  {
    |w.policies| > 0 && forall i | 0 <= i < |w.policies| :: w.policies[i].version == i + 1
  }

  predicate Known(w: World, policy: Policy)
  {
    1 <= policy.version <= |w.policies| && w.policies[policy.version - 1] == policy
  }

  /** A plan was drafted when collecting was due under the policy version it names. */
  predicate DraftFact(w: World, version: nat, fingerprint: Fingerprint, mark: nat)
  {
    && 1 <= version <= |w.policies| && fingerprint == Fingerprint(w.capacity, true)
    && Since(w, mark, Threshold(w.policies[version - 1], w.capacity))
  }

  predicate DraftsOk(w: World)
  {
    forall i | 0 <= i < |w.drafts| :: DraftFact(w, w.drafts[i].version, w.drafts[i].fingerprint, w.drafts[i].mark)
  }

  predicate PlanFacts(w: World)
  {
    forall p | p in w.plans ::
      p in w.marks && DraftFact(w, w.plans[p].policyVersion, w.plans[p].fingerprint, w.marks[p])
  }

  predicate ExecFact(w: World, x: Exec)
  {
    && (x.stage.HasPolicy() ==> Known(w, x.policy))
    && (x.stage.HasBefore() ==> x.before.capacity == w.capacity && Since(w, x.mark, x.before.seconds))
    && (x.stage.PassedChecks() ==> x.policy.version == x.claim.policyVersion && Collectible(x.before, x.policy))
    && (x.stage.HasOutcome() && x.outcome.Success() ==> x.mark < x.seen <= |w.collects|)
    && (x.stage.HasOutcome() && x.claim.recovery ==> x.planId in w.marks && x.mark == w.marks[x.planId])
  }

  predicate ExecFacts(w: World) { forall e | e in w.execs :: ExecFact(w, w.execs[e]) }

  predicate VerdictFact(w: World, y: Verdict)
  {
    && (y.outcome.Success() ==> y.mark < y.seen <= |w.collects|)
    && (!y.direct ==> y.planId in w.marks && y.mark == w.marks[y.planId])
  }

  predicate VerdictFacts(w: World) { forall i | 0 <= i < |w.verdicts| :: VerdictFact(w, w.verdicts[i]) }

  predicate TruthInv(w: World)
  {
    PoliciesOk(w) && DraftsOk(w) && PlanFacts(w) && ExecFacts(w) && VerdictFacts(w)
  }

  /** Time only adds policies, collects and plans, and seconds fall only when a collect is applied. */
  predicate Grows(w: World, v: World)
  {
    && v.capacity == w.capacity
    && |w.policies| <= |v.policies| && (forall i | 0 <= i < |w.policies| :: v.policies[i] == w.policies[i])
    && (|v.collects| > |w.collects| || (|v.collects| == |w.collects| && v.seconds >= w.seconds))
    && (forall p | p in w.marks :: p in v.marks && v.marks[p] == w.marks[p])
  }

  predicate MarksAreOfPlans(w: World) { forall p | p in w.marks :: p in w.plans }

  /** The steps of the world outside: the game, the policy, lost connections and crashes. */
  predicate Outside(s: Step)
  {
    s.Accrue? || s.ForeignCollect? || s.SavePolicy? || s.Deliver? || s.DropMessage? || s.Crash? || s.LoseGuard?
      || s.LoseLock?
  }

  lemma OutsideGrows(w: World, s: Step, v: World)
    requires Next(w, s, v) && Outside(s)
    ensures Grows(w, v)
  {
    assert v.marks == w.marks && v.capacity == w.capacity;
  }

  lemma PreviewSaveGrows(w: World, d: nat, id: PlanId, expiresAt: int)
    requires d < |w.drafts| && id !in w.marks
    ensures Grows(w, DoPreviewSave(w, d, id, expiresAt))
  {}

  lemma GrownFacts(w: World, v: World)
    requires Grows(w, v)
    ensures forall policy | Known(w, policy) :: Known(v, policy)
    ensures forall n, f, m | DraftFact(w, n, f, m) :: DraftFact(v, n, f, m)
    ensures forall x | ExecFact(w, x) :: ExecFact(v, x)
    ensures forall y | VerdictFact(w, y) :: VerdictFact(v, y)
  {
    assert forall m, l | Since(w, m, l) :: Since(v, m, l);
  }

  // ---- the reads that decide ----

  lemma CheckFact(w: World, x: Exec)
    requires ExecFact(w, x) && x.stage.Seen? && !x.claim.recovery
             && x.claim.fingerprint == Fingerprint(w.capacity, true)
    ensures ExecFact(w, Moved(w, x, Check))
  {}

  /** Falling below the seconds read before the send means that a collect was applied in between. */
  lemma AnswerFact(w: World, x: Exec, collected: bool)
    requires ExecFact(w, x) && x.stage.Answered? && !x.claim.recovery
    ensures ExecFact(w, Moved(w, x, ReadAfter(collected)))
  {}

  /** So does "wait" under the very policy under which collecting had been due. */
  lemma FaultFact(w: World, x: Exec, readable: bool)
    requires ExecFact(w, x) && x.stage.Faulted? && !x.claim.recovery
    ensures ExecFact(w, Moved(w, x, ReadCurrent(readable)))
  {}

  /** And "wait" under the policy version of the plan, seen by a recovery. */
  lemma RecoverFact(w: World, x: Exec)
    requires ExecFact(w, x) && x.stage.Admitted? && x.claim.recovery
    requires x.planId in w.marks && DraftFact(w, x.claim.policyVersion, x.claim.fingerprint, w.marks[x.planId])
    ensures ExecFact(w, Moved(w, x, RecoverRead))
  {}

  lemma MotionFact(w: World, e: ExecId, x: Exec, m: Motion)
    requires PoliciesOk(w) && ExecFact(w, x) && CanMove(w, e, x, m)
    requires DirectOnly(x)
    requires x.planId in w.marks && DraftFact(w, x.claim.policyVersion, x.claim.fingerprint, w.marks[x.planId])
    ensures ExecFact(w, Moved(w, x, m))
  {
    match m
    case Check => CheckFact(w, x);
    case ReadAfter(c) => AnswerFact(w, x, c);
    case ReadCurrent(r) => FaultFact(w, x, r);
    case RecoverRead => RecoverFact(w, x);
    case _ =>
  }

  // ---- steps ----

  lemma TruthMove(w: World, e: ExecId, m: Motion)
    requires TruthInv(w) && SendInv(w) && e in w.execs && CanMove(w, e, w.execs[e], m)
    ensures TruthInv(DoMove(w, e, m))
  {
    assert ClaimOk(w.plans, w.execs[e]);
    MotionFact(w, e, w.execs[e], m);
    TruthMoved(w, e, Moved(w, w.execs[e], m), DoMove(w, e, m).lock);
  }

  lemma TruthMoved(w: World, e: ExecId, y: Exec, lock: Option<ExecId>)
    requires TruthInv(w) && ExecFact(w, y)
    ensures TruthInv(w.(execs := w.execs[e := y], lock := lock))
  {
    GrownFacts(w, w.(execs := w.execs[e := y], lock := lock));
  }

  lemma TruthPreviewRead(w: World, n: nat)
    requires TruthInv(w) && 1 <= n <= |w.policies|
    ensures TruthInv(DoPreviewRead(w, n))
  {
    if Collectible(Now(w), w.policies[n-1]) {
      TruthDraft(w, Draft(w.policies[n-1].version, FingerprintOf(Now(w), w.policies[n-1]), |w.collects|));
    }
  }

  lemma TruthDraft(w: World, draft: Draft)
    requires TruthInv(w) && DraftFact(w, draft.version, draft.fingerprint, draft.mark)
    ensures TruthInv(w.(drafts := w.drafts + [draft]))
  {
    GrownFacts(w, w.(drafts := w.drafts + [draft]));
  }

  /** A step that rewrites plan rows outside the columns of the draft, or stores a draft. */
  lemma TruthRows(w: World, v: World)
    requires TruthInv(w) && Grows(w, v) && PoliciesOk(v)
    requires v.drafts == w.drafts && v.verdicts == w.verdicts
    requires forall e | e in v.execs :: (e in w.execs && v.execs[e] == w.execs[e]) || ExecFact(v, v.execs[e])
    requires forall p | p in v.plans ::
      p in v.marks && (|| DraftFact(v, v.plans[p].policyVersion, v.plans[p].fingerprint, v.marks[p])
                       || (p in w.plans && v.plans[p].policyVersion == w.plans[p].policyVersion
                           && v.plans[p].fingerprint == w.plans[p].fingerprint))
    ensures TruthInv(v)
  {
    GrownFacts(w, v);
  }

  function VerdictOf(x: Exec): Verdict
  {
    Verdict(x.planId, !x.claim.recovery, x.outcome, x.mark, x.seen, x.backed)
  }

  /** The terminal write, without the departure of its executor. */
  function Written(w: World, x: Exec, now: int): World
  {
    w.(plans := FinishTx(w.plans, x.claim, x.outcome.Status(), x.outcome.Result(), now),
       verdicts := if MayFinish(w.plans, x.claim) then w.verdicts + [VerdictOf(x)] else w.verdicts)
  }

  lemma FinishIsWriteAndLeave(w: World, e: ExecId, now: int)
    requires e in w.execs
    ensures DoFinish(w, e, now) == Leave(Written(w, w.execs[e], now), e)
  {}

  lemma TruthFinish(w: World, e: ExecId, now: int)
    requires TruthInv(w) && SendInv(w) && At(w, e, Finishing)
    ensures TruthInv(DoFinish(w, e, now))
  {
    assert ExecFact(w, w.execs[e]);
    TruthWritten(w, w.execs[e], now);
    TruthLeave(Written(w, w.execs[e], now), e);
    FinishIsWriteAndLeave(w, e, now);
  }

  lemma TruthWritten(w: World, x: Exec, now: int)
    requires TruthInv(w) && ExecFact(w, x) && x.stage.Finishing?
    ensures TruthInv(Written(w, x, now))
  {
    if MayFinish(w.plans, x.claim) {
      TruthVerdict(w, VerdictOf(x));
      TruthRows(w.(verdicts := w.verdicts + [VerdictOf(x)]), Written(w, x, now));
    }
  }

  lemma TruthLeave(w: World, e: ExecId)
    requires TruthInv(w)
    ensures TruthInv(Leave(w, e))
  {
    TruthExecs(w, Leave(w, e));
  }

  lemma TruthVerdict(w: World, y: Verdict)
    requires TruthInv(w) && VerdictFact(w, y)
    ensures TruthInv(w.(verdicts := w.verdicts + [y]))
  {
    GrownFacts(w, w.(verdicts := w.verdicts + [y]));
  }

  /** A step that leaves plans, drafts, verdicts and the remaining executors as they are. */
  lemma TruthQuiet(w: World, v: World)
    requires TruthInv(w) && Grows(w, v) && PoliciesOk(v)
    requires v.plans == w.plans && v.drafts == w.drafts && v.verdicts == w.verdicts
    requires forall e | e in v.execs :: e in w.execs && v.execs[e] == w.execs[e]
    ensures TruthInv(v)
  {
    TruthRows(w, v);
  }

  lemma TruthPreviewSave(w: World, d: nat, id: PlanId, expiresAt: int)
    requires TruthInv(w) && d < |w.drafts| && Grows(w, DoPreviewSave(w, d, id, expiresAt))
    ensures TruthInv(DoPreviewSave(w, d, id, expiresAt))
  {
    var v := DoPreviewSave(w, d, id, expiresAt);
    GrownFacts(w, v);
    TruthRows(w, v);
  }

  lemma TruthConfirm(w: World, id: PlanId)
    requires TruthInv(w) && id in w.plans
    ensures TruthInv(DoConfirm(w, id))
  {
    TruthRows(w, DoConfirm(w, id));
  }

  lemma TruthDecline(w: World, id: PlanId, now: int)
    requires TruthInv(w) && id in w.plans
    ensures TruthInv(DoDecline(w, id, now))
  {
    TruthRows(w, DoDecline(w, id, now));
  }

  lemma TruthBegin(w: World, e: ExecId, id: PlanId, recovery: bool)
    requires TruthInv(w)
    ensures TruthInv(DoBegin(w, e, id, recovery))
  {
    TruthRows(w, DoBegin(w, e, id, recovery));
  }

  lemma ClaimKeepsColumns(plans: Plans, account: AccountId, id: PlanId, owner: Owner, now: int, recovery: bool)
    ensures var qs := ClaimTx(plans, account, id, owner, now, recovery).1;
            && qs.Keys == plans.Keys
            && forall p | p in qs ::
                 qs[p].policyVersion == plans[p].policyVersion && qs[p].fingerprint == plans[p].fingerprint
  {}

  /** Executors came and went; nothing else changed that the facts speak about. */
  lemma TruthExecs(w: World, v: World)
    requires TruthInv(w)
    requires v.policies == w.policies && v.capacity == w.capacity && v.collects == w.collects && v.seconds == w.seconds
    requires v.plans == w.plans && v.marks == w.marks && v.drafts == w.drafts && v.verdicts == w.verdicts
    requires forall e | e in v.execs :: (e in w.execs && v.execs[e] == w.execs[e]) || ExecFact(v, v.execs[e])
    ensures TruthInv(v)
  {
    TruthRows(w, v);
  }

  lemma TakeClaimRows(w: World, e: ExecId, now: int)
    requires e in w.execs
    ensures var x := w.execs[e]; var v := DoTakeClaim(w, e, now);
            v.plans == ClaimTx(w.plans, w.account, x.planId, w.owners, now, x.asked).1 && v.marks == w.marks
  {}

  lemma TruthTakeClaim(w: World, e: ExecId, now: int)
    requires TruthInv(w) && At(w, e, Guarded)
    ensures TruthInv(DoTakeClaim(w, e, now))
  {
    var x := w.execs[e];
    TruthClaimed(w, x.planId, now, x.asked);
    TakeClaimRows(w, e, now);
    TakeClaimExecs(w, e, now);
    TruthAfterClaim(w.(plans := DoTakeClaim(w, e, now).plans), DoTakeClaim(w, e, now));
  }

  lemma TruthAfterClaim(u: World, v: World)
    requires TruthInv(u)
    requires v == u.(owners := v.owners, execs := v.execs, guard := v.guard, lock := v.lock)
    requires forall f | f in v.execs :: (f in u.execs && v.execs[f] == u.execs[f]) || v.execs[f].stage.Claimed?
    ensures TruthInv(v)
  {
    TruthExecs(u, v);
  }

  /** The caller leaves, or has a claim and has read nothing yet. */
  lemma TakeClaimExecs(w: World, e: ExecId, now: int)
    requires At(w, e, Guarded)
    ensures var v := DoTakeClaim(w, e, now);
            && v == w.(plans := v.plans, owners := v.owners, execs := v.execs, guard := v.guard, lock := v.lock)
            && forall f | f in v.execs :: (f in w.execs && v.execs[f] == w.execs[f]) || v.execs[f].stage.Claimed?
  {}

  lemma TruthClaimed(w: World, id: PlanId, now: int, recovery: bool)
    requires TruthInv(w)
    ensures TruthInv(w.(plans := ClaimTx(w.plans, w.account, id, w.owners, now, recovery).1))
  {
    ClaimKeepsColumns(w.plans, w.account, id, w.owners, now, recovery);
    TruthRows(w, w.(plans := ClaimTx(w.plans, w.account, id, w.owners, now, recovery).1));
  }

  lemma TruthSend(w: World, e: ExecId)
    requires TruthInv(w) && At(w, e, Cleared)
    ensures TruthInv(DoSend(w, e))
  {
    assert ExecFact(w, w.execs[e]);
    TruthExecs(w, DoSend(w, e));
  }

  lemma OutsideIsQuiet(w: World, s: Step, v: World)
    requires Next(w, s, v) && Outside(s) && PoliciesOk(w)
    ensures v.plans == w.plans && v.marks == w.marks && v.drafts == w.drafts && v.verdicts == w.verdicts
    ensures forall e | e in v.execs :: e in w.execs && v.execs[e] == w.execs[e]
    ensures PoliciesOk(v)
  {}

  lemma TruthStep(w: World, s: Step, v: World)
    requires TruthInv(w) && SendInv(w) && MarksAreOfPlans(w) && Next(w, s, v)
    ensures TruthInv(v)
  {
    if Outside(s) {
      OutsideGrows(w, s, v);
      OutsideIsQuiet(w, s, v);
      TruthQuiet(w, v);
    } else {
      TruthInside(w, s, v);
    }
  }

  lemma TruthInside(w: World, s: Step, v: World)
    requires TruthInv(w) && SendInv(w) && MarksAreOfPlans(w) && Next(w, s, v) && !Outside(s)
    ensures TruthInv(v)
  {
    match s
    case PreviewRead(n) => TruthPreviewRead(w, n);
    case PreviewSave(d, id, x) =>
      PreviewSaveGrows(w, d, id, x);
      TruthPreviewSave(w, d, id, x);
    case ConfirmPlan(id, _) => TruthConfirm(w, id);
    case MutateDeclines(id, now) => TruthDecline(w, id, now);
    case Begin(e, id, r) => TruthBegin(w, e, id, r);
    case TakeClaim(e, now) => TruthTakeClaim(w, e, now);
    case Move(e, m) => TruthMove(w, e, m);
    case SendCollect(e) => TruthSend(w, e);
    case FinishPlan(e, now) => TruthFinish(w, e, now);
  }

  lemma ClaimKeepsKeys(w: World, e: ExecId, now: int)
    requires e in w.execs
    ensures DoTakeClaim(w, e, now).plans.Keys == w.plans.Keys && DoTakeClaim(w, e, now).marks == w.marks
  {
    TakeClaimRows(w, e, now);
    ClaimKeepsColumns(w.plans, w.account, w.execs[e].planId, w.owners, now, w.execs[e].asked);
  }

  lemma MarksStep(w: World, s: Step, v: World)
    requires MarksAreOfPlans(w) && Next(w, s, v)
    ensures MarksAreOfPlans(v)
  {
    match s
    case TakeClaim(e, now) => ClaimKeepsKeys(w, e, now);
    case FinishPlan(e, now) => assert v.plans.Keys == w.plans.Keys && v.marks == w.marks;
    case PreviewSave(_, _, _) =>
    case ConfirmPlan(_, _) =>
    case MutateDeclines(_, _) =>
    case _ => assert v.plans == w.plans && v.marks == w.marks;
  }
}
