/** What every step of the idle protocol keeps about claims and sends: the at-most-once core. */
module IdleInvariants {
  import opened Prelude
  import opened IdlePlanner
  import opened IdleClaims
  import opened IdleProtocol

  type Plans = map<PlanId, PlanRow>
  type Execs = map<ExecId, Exec>

  /** The executor holds a first claim, not a recovery claim. */
  predicate Direct(x: Exec) { x.stage.HasClaim() && !x.claim.recovery }

  /** A first claim that has not sent and may yet send or report a failed precondition. */
  predicate Unsent(x: Exec)
  {
    Direct(x) && (x.stage.Claimed? || x.stage.Locked? || x.stage.Admitted? || x.stage.Seen? || x.stage.Cleared?
                  || (x.stage.HasOutcome() && x.outcome == PreconditionFailed))
  }

  predicate PlansOk(account: AccountId, plans: Plans, marks: map<PlanId, nat>)
  {
    forall p | p in plans ::
      && p in marks && plans[p].account == account
      && (plans[p].state.Open() <==> plans[p].attempts == 0) && plans[p].attempts <= 1
  }

  predicate DirectOnly(x: Exec)
  {
    && (x.stage.Seen? || x.stage.PassedChecks() ==> !x.claim.recovery)
    && (x.stage.HasOutcome() && x.outcome == PreconditionFailed ==> !x.claim.recovery)
  }

  /** A claim names a plan that was claimed, and remembers its columns. */
  predicate ClaimOk(plans: Plans, x: Exec)
  {
    && x.claim.planId == x.planId && x.planId in plans && plans[x.planId].attempts == 1
    && x.claim.policyVersion == plans[x.planId].policyVersion
    && x.claim.fingerprint == plans[x.planId].fingerprint
    && DirectOnly(x)
  }

  predicate ClaimsOk(plans: Plans, execs: Execs)
  {
    forall e | e in execs :: execs[e].stage.HasClaim() ==> ClaimOk(plans, execs[e])
  }

  predicate OneDirectClaim(execs: Execs)
  {
    forall e, f | e in execs && f in execs && e != f && Direct(execs[e]) && Direct(execs[f]) ::
      execs[e].planId != execs[f].planId
  }

  predicate SentFor(sends: seq<Send>, p: PlanId)
  {
    exists i | 0 <= i < |sends| :: sends[i].planId == p
  }

  predicate SendsOk(plans: Plans, sends: seq<Send>)
  {
    && (forall i | 0 <= i < |sends| ::
          sends[i].direct && sends[i].planId in plans && plans[sends[i].planId].attempts == 1)
    && (forall i, j | 0 <= i < j < |sends| :: sends[i].planId != sends[j].planId)
  }

  predicate UnsentHaveNotSent(execs: Execs, sends: seq<Send>)
  {
    forall e | e in execs && Unsent(execs[e]) :: !SentFor(sends, execs[e].planId)
  }

  predicate FailedNeverSent(plans: Plans, execs: Execs, sends: seq<Send>)
  {
    forall p | p in plans && plans[p].state.Failed? && !Declined(plans[p]) ::
      !SentFor(sends, p) && forall e | e in execs && Direct(execs[e]) :: execs[e].planId != p
  }

  predicate Inv(plans: Plans, execs: Execs, sends: seq<Send>)
  {
    && ClaimsOk(plans, execs) && OneDirectClaim(execs) && SendsOk(plans, sends)
    && UnsentHaveNotSent(execs, sends) && FailedNeverSent(plans, execs, sends)
  }

  predicate SendInv(w: World)
  {
    PlansOk(w.account, w.plans, w.marks) && Inv(w.plans, w.execs, w.sends)
  }

  // ---- the five ways a step can touch claims and sends ----

  /** Executor `e` of `fs` moved on from `execs` without taking a new claim. */
  predicate Follows(execs: Execs, fs: Execs, e: ExecId)
    requires e in fs
  {
    || fs[e].stage.Guarded?
    || (e in execs && execs[e].stage.HasClaim()
        && fs[e].planId == execs[e].planId && fs[e].claim == execs[e].claim
        && (Unsent(fs[e]) ==> Unsent(execs[e]))
        && DirectOnly(fs[e]))
  }

  /** Plans only appeared, or changed outside attempts, drafts and failure. */
  predicate RowsFollow(plans: Plans, qs: Plans)
  {
    && (forall p | p in plans ::
          && p in qs && qs[p].attempts == plans[p].attempts
          && qs[p].policyVersion == plans[p].policyVersion && qs[p].fingerprint == plans[p].fingerprint)
    && (forall p | p in qs && qs[p].state.Failed? && !Declined(qs[p]) ::
          p in plans && plans[p].state.Failed? && !Declined(plans[p]))
  }

  /** Sends only travelled. */
  predicate SameSends(sends: seq<Send>, ts: seq<Send>)
  {
    && |ts| == |sends|
    && forall i | 0 <= i < |sends| :: ts[i].planId == sends[i].planId && ts[i].direct == sends[i].direct
  }

  lemma Frame(plans: Plans, execs: Execs, sends: seq<Send>, qs: Plans, fs: Execs, ts: seq<Send>)
    requires Inv(plans, execs, sends)
    requires RowsFollow(plans, qs) && SameSends(sends, ts)
    requires forall e | e in fs :: Follows(execs, fs, e)
    ensures Inv(qs, fs, ts)
  {
    forall p ensures SentFor(ts, p) <==> SentFor(sends, p) {
      if SentFor(ts, p) { var i :| 0 <= i < |ts| && ts[i].planId == p; assert sends[i].planId == p; }
      if SentFor(sends, p) { var i :| 0 <= i < |sends| && sends[i].planId == p; assert ts[i].planId == p; }
    }
    forall e | e in fs ensures fs[e].stage.HasClaim() ==> ClaimOk(qs, fs[e]) { assert Follows(execs, fs, e); }
    forall e | e in fs && Direct(fs[e]) ensures e in execs && Direct(execs[e]) && execs[e].planId == fs[e].planId {
      assert Follows(execs, fs, e);
    }
    forall e | e in fs && Unsent(fs[e]) ensures !SentFor(ts, fs[e].planId) { assert Follows(execs, fs, e); }
  }

  /** Executor `e`, which held no claim, takes over an expired one. */
  lemma TakeOver(plans: Plans, execs: Execs, sends: seq<Send>, e: ExecId, y: Exec, row: PlanRow)
    requires Inv(plans, execs, sends)
    requires y.planId in plans && plans[y.planId].attempts == 1 && plans[y.planId].state.Executing?
    requires row.attempts == 1 && row.state.Executing?
    requires row.policyVersion == plans[y.planId].policyVersion && row.fingerprint == plans[y.planId].fingerprint
    requires y.stage.Claimed? && y.claim == ClaimOf(row, y.planId, y.claim.owner, true)
    ensures Inv(plans[y.planId := row], execs[e := y], sends)
  {
    var qs, fs := plans[y.planId := row], execs[e := y];
    assert forall f | f in fs && Direct(fs[f]) :: f in execs && fs[f] == execs[f];
    assert forall f | f in fs && f != e :: fs[f] == execs[f];
    assert !Unsent(y);
  }

  /** Executor `e` claims a plan that nobody has claimed before. */
  lemma FirstClaim(plans: Plans, execs: Execs, sends: seq<Send>, e: ExecId, y: Exec, row: PlanRow)
    requires Inv(plans, execs, sends)
    requires y.planId in plans && plans[y.planId].attempts == 0
    requires row.attempts == 1 && row.state.Executing?
    requires row.policyVersion == plans[y.planId].policyVersion && row.fingerprint == plans[y.planId].fingerprint
    requires y.stage.Claimed? && y.claim == ClaimOf(row, y.planId, y.claim.owner, false)
    ensures Inv(plans[y.planId := row], execs[e := y], sends)
  {
    var qs, fs := plans[y.planId := row], execs[e := y];
    assert forall f | f in execs && execs[f].stage.HasClaim() :: ClaimOk(plans, execs[f]);
    assert forall f | f in fs && f != e :: fs[f] == execs[f];
    assert !SentFor(sends, y.planId);
    assert FailedNeverSent(qs, fs, sends);
  }

  /** Executor `e` sends: its claim is the only one that could, and it had not. */
  lemma SendOnce(plans: Plans, execs: Execs, sends: seq<Send>, e: ExecId, y: Exec, s: Send)
    requires Inv(plans, execs, sends)
    requires e in execs && execs[e].stage.Cleared?
    requires y.stage.Waiting? && y.planId == execs[e].planId && y.claim == execs[e].claim
    requires s.planId == y.planId && s.direct == !y.claim.recovery
    ensures Inv(plans, execs[e := y], sends + [s])
  {
    var fs, ts := execs[e := y], sends + [s];
    assert ClaimOk(plans, execs[e]);
    assert Unsent(execs[e]) && !Unsent(y) && !SentFor(sends, y.planId);
    forall p ensures SentFor(ts, p) <==> SentFor(sends, p) || p == s.planId { SentAppend(sends, s, p); }
    assert forall f | f in fs && f != e :: fs[f] == execs[f];
    assert forall f | f in fs && f != e && Direct(fs[f]) :: fs[f].planId != y.planId;
    forall i, j | 0 <= i < j < |ts| ensures ts[i].planId != ts[j].planId {
      if j == |sends| { assert ts[i] == sends[i]; }
    }
  }

  lemma SentAppend(sends: seq<Send>, s: Send, p: PlanId)
    ensures SentFor(sends + [s], p) <==> SentFor(sends, p) || p == s.planId
  {
    var ts := sends + [s];
    if SentFor(sends, p) { var i :| 0 <= i < |sends| && sends[i].planId == p; assert ts[i].planId == p; }
    if p == s.planId { assert ts[|sends|].planId == p; }
  }

  /** Executor `e` reports a failed precondition: its plan was never sent, and now never will be. */
  lemma FailPlan(plans: Plans, execs: Execs, sends: seq<Send>, e: ExecId, row: PlanRow)
    requires Inv(plans, execs, sends)
    requires e in execs && Unsent(execs[e])
    requires execs[e].planId in plans
    requires row.attempts == plans[execs[e].planId].attempts
    requires row.policyVersion == plans[execs[e].planId].policyVersion
    requires row.fingerprint == plans[execs[e].planId].fingerprint
    ensures Inv(plans[execs[e].planId := row], execs - {e}, sends)
  {
    var p := execs[e].planId;
    var qs, fs := plans[p := row], execs - {e};
    assert forall f | f in fs :: f in execs && f != e && fs[f] == execs[f];
    assert forall f | f in fs && Direct(fs[f]) :: fs[f].planId != p;
  }

  // ---- steps ----

  lemma SendInvRefused(w: World, e: ExecId, v: World)
    requires SendInv(w) && v.account == w.account && v.plans == w.plans && v.marks == w.marks && v.sends == w.sends
    requires v.execs == w.execs - {e}
    ensures SendInv(v)
  {
    Frame(w.plans, w.execs, w.sends, w.plans, v.execs, w.sends);
  }

  lemma SendInvGranted(w: World, e: ExecId, claim: Claim, row: PlanRow, v: World)
    requires SendInv(w) && At(w, e, Guarded) && w.execs[e].planId in w.plans
    requires v.account == w.account && v.marks == w.marks && v.sends == w.sends
    requires v.plans == w.plans[w.execs[e].planId := row]
    requires v.execs == w.execs[e := w.execs[e].(stage := Claimed, claim := claim)]
    requires claim == ClaimOf(row, w.execs[e].planId, claim.owner, claim.recovery)
    requires row.state.Executing? && row.account == w.account
    requires var old_ := w.plans[w.execs[e].planId];
             && row.policyVersion == old_.policyVersion && row.fingerprint == old_.fingerprint
             && (if claim.recovery then old_.state.Executing? && row.attempts == old_.attempts
                 else old_.state.Open() && row.attempts == old_.attempts + 1)
    ensures SendInv(v)
  {
    if claim.recovery { TakeOver(w.plans, w.execs, w.sends, e, v.execs[e], row); }
    else { FirstClaim(w.plans, w.execs, w.sends, e, v.execs[e], row); }
  }

  lemma SendInvTakeClaim(w: World, e: ExecId, now: int)
    requires SendInv(w) && At(w, e, Guarded)
    ensures SendInv(DoTakeClaim(w, e, now))
  {
    var x := w.execs[e];
    var (reply, plans) := ClaimTx(w.plans, w.account, x.planId, w.owners, now, x.asked);
    match reply
    case Refused(_) => SendInvRefused(w, e, DoTakeClaim(w, e, now));
    case Granted(claim) => SendInvGranted(w, e, claim, plans[x.planId], DoTakeClaim(w, e, now));
  }

  lemma SendInvFinish(w: World, e: ExecId, now: int)
    requires SendInv(w) && At(w, e, Finishing)
    ensures SendInv(DoFinish(w, e, now))
  {
    var x := w.execs[e];
    var plans := FinishTx(w.plans, x.claim, x.outcome.Status(), x.outcome.Result(), now);
    assert ClaimOk(w.plans, x);
    if x.outcome == PreconditionFailed && MayFinish(w.plans, x.claim) {
      FailPlan(w.plans, w.execs, w.sends, e, plans[x.planId]);
    } else {
      FinishFollows(w.plans, x.claim, x.outcome, now);
      Frame(w.plans, w.execs, w.sends, plans, w.execs - {e}, w.sends);
    }
  }

  lemma FinishFollows(plans: Plans, claim: Claim, outcome: Outcome, now: int)
    requires outcome != PreconditionFailed || !MayFinish(plans, claim)
    ensures RowsFollow(plans, FinishTx(plans, claim, outcome.Status(), outcome.Result(), now))
  {}

  /** A step that only moves executor `e` along. */
  lemma SendInvMove(w: World, e: ExecId, v: World)
    requires SendInv(w) && e in v.execs
    requires v.account == w.account && v.plans == w.plans && v.marks == w.marks && v.sends == w.sends
    requires v.execs == w.execs[e := v.execs[e]] && Follows(w.execs, v.execs, e)
    ensures SendInv(v)
  {
    assert forall f | f in w.execs && w.execs[f].stage.HasClaim() :: ClaimOk(w.plans, w.execs[f]);
    Frame(w.plans, w.execs, w.sends, v.plans, v.execs, v.sends);
  }

  /** A step that leaves the executors alone. */
  lemma SendInvWorld(w: World, v: World)
    requires SendInv(w) && v.execs == w.execs
    requires PlansOk(v.account, v.plans, v.marks) && RowsFollow(w.plans, v.plans) && SameSends(w.sends, v.sends)
    ensures SendInv(v)
  {
    assert forall f | f in w.execs && w.execs[f].stage.HasClaim() :: ClaimOk(w.plans, w.execs[f]);
    Frame(w.plans, w.execs, w.sends, v.plans, v.execs, v.sends);
  }

  lemma MotionFollows(w: World, execs: Execs, e: ExecId, m: Motion)
    requires e in execs && CanMove(w, e, execs[e], m)
    requires execs[e].stage.HasClaim() ==> DirectOnly(execs[e])
    ensures Follows(execs, execs[e := Moved(w, execs[e], m)], e)
  {}

  /** The steps that touch neither plans, executors nor sends. */
  predicate Aside(s: Step)
  {
    s.Accrue? || s.ForeignCollect? || s.SavePolicy? || s.PreviewRead? || s.LoseGuard? || s.LoseLock?
  }

  lemma SendInvAside(w: World, s: Step, v: World)
    requires SendInv(w) && Next(w, s, v) && Aside(s)
    ensures SendInv(v)
  {
    assert v.account == w.account && v.plans == w.plans && v.marks == w.marks && v.execs == w.execs
           && v.sends == w.sends;
  }

  lemma SendInvStep(w: World, s: Step, v: World)
    requires SendInv(w) && Next(w, s, v)
    ensures SendInv(v)
  {
    if Aside(s) {
      SendInvAside(w, s, v);
    } else if s.PreviewSave? || s.ConfirmPlan? || s.MutateDeclines? || s.Deliver? || s.DropMessage? {
      SendInvRows(w, s, v);
    } else {
      SendInvTouch(w, s, v);
    }
  }

  /** The steps that touch no executor. */
  lemma SendInvRows(w: World, s: Step, v: World)
    requires SendInv(w) && Next(w, s, v)
             && (s.PreviewSave? || s.ConfirmPlan? || s.MutateDeclines? || s.Deliver? || s.DropMessage?)
    ensures SendInv(v)
  {
    match s
    case PreviewSave(d, id, expiresAt) => SendInvPreviewSave(w, d, id, expiresAt);
    case ConfirmPlan(id, _) => SendInvConfirm(w, id);
    case MutateDeclines(id, now) => SendInvDecline(w, id, now);
    case Deliver(i, left) => SendInvWorld(w, DoDeliver(w, i, left));
    case DropMessage(i) => SendInvWorld(w, DoDrop(w, i));
  }

  lemma SendInvPreviewSave(w: World, d: nat, id: PlanId, expiresAt: int)
    requires SendInv(w) && d < |w.drafts| && id !in w.plans
    ensures SendInv(DoPreviewSave(w, d, id, expiresAt))
  {
    SendInvWorld(w, DoPreviewSave(w, d, id, expiresAt));
  }

  lemma SendInvDecline(w: World, id: PlanId, now: int)
    requires SendInv(w) && id in w.plans && w.plans[id].state.Executing?
    ensures SendInv(DoDecline(w, id, now))
  {
    SendInvWorld(w, DoDecline(w, id, now));
  }

  lemma SendInvConfirm(w: World, id: PlanId)
    requires SendInv(w) && id in w.plans && w.plans[id].state.Pending?
    ensures SendInv(DoConfirm(w, id))
  {
    SendInvWorld(w, DoConfirm(w, id));
  }

  lemma SendInvTouch(w: World, s: Step, v: World)
    requires SendInv(w) && Next(w, s, v)
    requires s.Begin? || s.TakeClaim? || s.Move? || s.SendCollect? || s.FinishPlan? || s.Crash?
    ensures SendInv(v)
  {
    match s
    case Begin(e, _, _) => SendInvMove(w, e, v);
    case TakeClaim(e, now) => SendInvTakeClaim(w, e, now);
    case Move(e, m) =>
      MotionFollows(w, w.execs, e, m);
      SendInvMove(w, e, v);
    case SendCollect(e) => SendOnce(w.plans, w.execs, w.sends, e, v.execs[e], v.sends[|w.sends|]);
    case FinishPlan(e, now) => SendInvFinish(w, e, now);
    case Crash(e) => SendInvRefused(w, e, v);
  }
}
