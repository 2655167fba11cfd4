/** What the account lock, the guard and the owner check keep apart. */
module IdleIsolation {
  import opened Prelude
  import opened IdlePlanner
  import opened IdleClaims
  import opened IdleProtocol
  import opened IdleInvariants
  import opened IdleTruth

  // ---- the account lock: a policy read under it is current until it is released ----

  /** Whoever holds the lock is a call inside it, and the policy that it has read is the newest. */
  predicate Holder(execs: Execs, versions: nat, e: ExecId)
  {
    e in execs && execs[e].stage.InLock() && (execs[e].stage.HasPolicy() ==> execs[e].policy.version == versions)
  }

  /** A send under the lock names the version that is current. */
  predicate SendsCurrent(sends: seq<Send>)
  {
    forall i | 0 <= i < |sends| :: sends[i].locked ==> sends[i].planVersion == sends[i].current
  }

  predicate LockInv(w: World)
  {
    (w.lock.Some? ==> Holder(w.execs, |w.policies|, w.lock.value)) && SendsCurrent(w.sends)
  }

  lemma LockMove(w: World, e: ExecId, m: Motion)
    requires LockInv(w) && PoliciesOk(w) && e in w.execs && CanMove(w, e, w.execs[e], m)
    ensures LockInv(DoMove(w, e, m))
  {}

  lemma LockSend(w: World, e: ExecId)
    requires LockInv(w) && At(w, e, Cleared) && ExecFact(w, w.execs[e])
    ensures LockInv(DoSend(w, e))
  {}

  /** Calls come and go. */
  lemma LockCalls(w: World, s: Step, v: World)
    requires LockInv(w) && Next(w, s, v) && (s.Begin? || s.TakeClaim? || s.FinishPlan? || s.Crash?)
    ensures LockInv(v)
  {}

  lemma LockRest(w: World, s: Step, v: World)
    requires LockInv(w) && Next(w, s, v) && !s.Move? && !s.SendCollect?
    requires !s.Begin? && !s.TakeClaim? && !s.FinishPlan? && !s.Crash?
    ensures LockInv(v)
  {
    assert v.execs == w.execs;
  }

  lemma LockStep(w: World, s: Step, v: World)
    requires LockInv(w) && TruthInv(w) && Next(w, s, v)
    ensures LockInv(v)
  {
    match s
    case Move(e, m) => LockMove(w, e, m);
    case SendCollect(e) => LockSend(w, e);
    case Begin(_, _, _) => LockCalls(w, s, v);
    case TakeClaim(_, _) => LockCalls(w, s, v);
    case FinishPlan(_, _) => LockCalls(w, s, v);
    case Crash(_) => LockCalls(w, s, v);
    case _ => LockRest(w, s, v);
  }

  // ---- the guard: while its connection lasts, nobody can take a claim over ----

  predicate WasDeclined(plans: Plans, p: PlanId) { p in plans && Declined(plans[p]) }

  predicate GuardHeld(guard: Option<ExecId>, plans: Plans, e: ExecId, x: Exec)
  {
    guard == Some(e) && (x.stage.HasClaim() ==> MayFinish(plans, x.claim) || WasDeclined(plans, x.claim.planId))
  }

  predicate GuardInv(w: World)
  {
    !w.guardLost ==> forall e | e in w.execs :: GuardHeld(w.guard, w.plans, e, w.execs[e])
  }

  lemma GuardLeave(w: World, e: ExecId, v: World)
    requires GuardInv(w) && e in w.execs && v.execs == w.execs - {e} && v.guardLost == w.guardLost
    ensures GuardInv(v)
  {
    assert !w.guardLost ==> GuardHeld(w.guard, w.plans, e, w.execs[e]);
    assert !w.guardLost ==> forall f | f in w.execs :: GuardHeld(w.guard, w.plans, f, w.execs[f]) && f == e;
  }

  lemma GuardTakeClaim(w: World, e: ExecId, now: int)
    requires GuardInv(w) && At(w, e, Guarded)
    ensures GuardInv(DoTakeClaim(w, e, now))
  {
    var x := w.execs[e];
    var v := DoTakeClaim(w, e, now);
    var reply := ClaimTx(w.plans, w.account, x.planId, w.owners, now, x.asked).0;
    match reply
    case Refused(_) => GuardLeave(w, e, v);
    case Granted(claim) =>
      if !w.guardLost {
        forall f | f in v.execs ensures GuardHeld(v.guard, v.plans, f, v.execs[f]) {
          assert f in w.execs && GuardHeld(w.guard, w.plans, f, w.execs[f])
                 && GuardHeld(w.guard, w.plans, e, w.execs[e]);
        }
      }
  }

  lemma GuardRows(w: World, v: World)
    requires GuardInv(w) && v.execs == w.execs && v.guard == w.guard && v.guardLost == w.guardLost
    requires forall p | p in w.plans && !w.plans[p].state.Open() ::
               p in v.plans && (v.plans[p] == w.plans[p] || Declined(v.plans[p]))
    ensures GuardInv(v)
  {
    if !w.guardLost {
      forall f | f in v.execs ensures GuardHeld(v.guard, v.plans, f, v.execs[f]) {
        assert GuardHeld(w.guard, w.plans, f, w.execs[f]);
      }
    }
  }

  lemma GuardMove(w: World, e: ExecId, y: Exec, v: World)
    requires GuardInv(w) && e in w.execs && w.execs[e].stage.HasClaim() && y.claim == w.execs[e].claim
    requires v.execs == w.execs[e := y] && v.guard == w.guard && v.guardLost == w.guardLost && v.plans == w.plans
    ensures GuardInv(v)
  {
    if !w.guardLost {
      forall f | f in v.execs ensures GuardHeld(v.guard, v.plans, f, v.execs[f]) {
        assert f in w.execs && GuardHeld(w.guard, w.plans, f, w.execs[f]);
      }
    }
  }

  lemma GuardTables(w: World, s: Step, v: World)
    requires GuardInv(w) && Next(w, s, v) && (s.PreviewSave? || s.ConfirmPlan? || s.MutateDeclines?)
    ensures GuardInv(v)
  {
    GuardRows(w, v);
  }

  lemma GuardStep(w: World, s: Step, v: World)
    requires GuardInv(w) && Next(w, s, v)
    ensures GuardInv(v)
  {
    match s
    case PreviewSave(_, _, _) => GuardTables(w, s, v);
    case ConfirmPlan(_, _) => GuardTables(w, s, v);
    case MutateDeclines(_, _) => GuardTables(w, s, v);
    case Begin(e, _, _) =>
      assert !w.guardLost ==> forall f :: f !in w.execs;
    case TakeClaim(e, now) => GuardTakeClaim(w, e, now);
    case Move(e, m) => GuardMove(w, e, v.execs[e], v);
    case SendCollect(e) => GuardMove(w, e, v.execs[e], v);
    case FinishPlan(e, now) => GuardLeave(w, e, v);
    case Crash(e) => GuardLeave(w, e, v);
    case _ =>
  }

  // ---- terminal rows: one verdict each, and it agrees with the row ----

  predicate Reported(verdicts: seq<Verdict>, p: PlanId)
  {
    exists i | 0 <= i < |verdicts| :: verdicts[i].planId == p
  }

  predicate VerdictInv(plans: Plans, verdicts: seq<Verdict>)
  {
    && (forall i | 0 <= i < |verdicts| ::
          verdicts[i].planId in plans && plans[verdicts[i].planId].state == verdicts[i].outcome.Status())
    && (forall i, j | 0 <= i < j < |verdicts| :: verdicts[i].planId != verdicts[j].planId)
    && (forall p | p in plans && plans[p].state.Terminal() && !Declined(plans[p]) :: Reported(verdicts, p))
  }

  /** Terminal rows stay as they are, and no row becomes terminal, unless it is declined. */
  predicate TerminalKept(plans: Plans, qs: Plans)
  {
    && (forall p | p in plans && plans[p].state.Terminal() :: p in qs && qs[p] == plans[p])
    && (forall p | p in qs && qs[p].state.Terminal() && !Declined(qs[p]) :: p in plans && qs[p] == plans[p])
  }

  lemma VerdictKept(plans: Plans, qs: Plans, verdicts: seq<Verdict>)
    requires VerdictInv(plans, verdicts) && TerminalKept(plans, qs)
    ensures VerdictInv(qs, verdicts)
  {}

  lemma VerdictAdded(plans: Plans, verdicts: seq<Verdict>, row: PlanRow, y: Verdict)
    requires VerdictInv(plans, verdicts)
    requires y.planId in plans && plans[y.planId].state.Executing? && row.state == y.outcome.Status()
    ensures VerdictInv(plans[y.planId := row], verdicts + [y])
  {
    var us := verdicts + [y];
    var qs := plans[y.planId := row];
    assert forall i | 0 <= i < |verdicts| :: us[i] == verdicts[i] && verdicts[i].planId != y.planId;
    forall p | p in qs && qs[p].state.Terminal() && !Declined(qs[p]) ensures Reported(us, p) {
      if p == y.planId { assert us[|verdicts|].planId == p; }
      else { var i :| 0 <= i < |verdicts| && verdicts[i].planId == p; assert us[i].planId == p; }
    }
  }

  lemma ClaimKeepsTerminal(plans: Plans, account: AccountId, id: PlanId, owner: Owner, now: int, recovery: bool)
    ensures TerminalKept(plans, ClaimTx(plans, account, id, owner, now, recovery).1)
  {}

  lemma VerdictRest(w: World, s: Step, v: World)
    requires VerdictInv(w.plans, w.verdicts) && Next(w, s, v) && !s.TakeClaim? && !s.FinishPlan?
    ensures VerdictInv(v.plans, v.verdicts)
  {
    if s.PreviewSave? || s.ConfirmPlan? || s.MutateDeclines? {
      VerdictKept(w.plans, v.plans, w.verdicts);
    } else {
      assert v.plans == w.plans && v.verdicts == w.verdicts;
    }
  }

  lemma VerdictStep(w: World, s: Step, v: World)
    requires VerdictInv(w.plans, w.verdicts) && SendInv(w) && Next(w, s, v)
    ensures VerdictInv(v.plans, v.verdicts)
  {
    match s
    case TakeClaim(e, now) => VerdictTakeClaim(w, e, now);
    case FinishPlan(e, now) => VerdictFinish(w, e, now);
    case _ => VerdictRest(w, s, v);
  }

  lemma VerdictTakeClaim(w: World, e: ExecId, now: int)
    requires VerdictInv(w.plans, w.verdicts) && At(w, e, Guarded)
    ensures VerdictInv(DoTakeClaim(w, e, now).plans, DoTakeClaim(w, e, now).verdicts)
  {
    var x := w.execs[e];
    ClaimKeepsTerminal(w.plans, w.account, x.planId, w.owners, now, x.asked);
    VerdictKept(w.plans, ClaimTx(w.plans, w.account, x.planId, w.owners, now, x.asked).1, w.verdicts);
  }

  lemma VerdictFinish(w: World, e: ExecId, now: int)
    requires VerdictInv(w.plans, w.verdicts) && SendInv(w) && At(w, e, Finishing)
    ensures VerdictInv(DoFinish(w, e, now).plans, DoFinish(w, e, now).verdicts)
  {
    var x := w.execs[e];
    assert ClaimOk(w.plans, x);
    if MayFinish(w.plans, x.claim) {
      var qs := FinishTx(w.plans, x.claim, x.outcome.Status(), x.outcome.Result(), now);
      VerdictAdded(w.plans, w.verdicts, qs[x.planId], VerdictOf(x));
    }
  }

  // ---- whose collect it was ----

  predicate CollectsOk(sends: seq<Send>, collects: seq<Collect>)
  {
    forall k | 0 <= k < |collects| :: collects[k].BySend? ==>
      collects[k].send < |sends| && sends[collects[k].send].transit == Applied
  }

  /** The collect was sent for plan `p`. */
  predicate For(sends: seq<Send>, c: Collect, p: PlanId)
  {
    c.BySend? && c.send < |sends| && sends[c.send].planId == p
  }

  predicate WasAttended(c: Collect) { c.BySend? && c.attended }

  /** Nothing was collected for plan `p` before `mark`, and from there up to `end` exactly what was attended. */
  predicate OwnWindow(sends: seq<Send>, collects: seq<Collect>, mark: nat, end: nat, p: PlanId)
  {
    && mark <= end <= |collects|
    && (forall k | 0 <= k < mark :: !For(sends, collects[k], p))
    && (forall k | mark <= k < end :: For(sends, collects[k], p) <==> WasAttended(collects[k]))
  }

  predicate SendOf(sends: seq<Send>, e: ExecId, x: Exec)
  {
    x.send < |sends| && sends[x.send].planId == x.planId && sends[x.send].exec == e
  }

  /** How far a direct call's window reaches. */
  function WindowEnd(collects: seq<Collect>, x: Exec): nat { if x.stage.HasOutcome() then x.seen else |collects| }

  predicate OwnFact(sends: seq<Send>, collects: seq<Collect>, lock: Option<ExecId>, e: ExecId, x: Exec)
  {
    && (x.stage.Sent() ==> SendOf(sends, e, x))
    && (!x.claim.recovery && (x.stage.HasBefore() || x.stage.HasOutcome())
        && (lock == Some(e) || x.stage.Finishing?) ==>
          OwnWindow(sends, collects, x.mark, WindowEnd(collects, x), x.planId))
  }

  predicate OwnVerdict(sends: seq<Send>, collects: seq<Collect>, y: Verdict)
  {
    y.direct ==> OwnWindow(sends, collects, y.mark, y.seen, y.planId)
  }

  predicate OwnExecs(sends: seq<Send>, collects: seq<Collect>, lock: Option<ExecId>, execs: Execs)
  {
    forall e | e in execs :: OwnFact(sends, collects, lock, e, execs[e])
  }

  predicate OwnVerdicts(sends: seq<Send>, collects: seq<Collect>, verdicts: seq<Verdict>)
  {
    forall i | 0 <= i < |verdicts| :: OwnVerdict(sends, collects, verdicts[i])
  }

  predicate OwnInv(w: World)
  {
    && CollectsOk(w.sends, w.collects)
    && OwnExecs(w.sends, w.collects, w.lock, w.execs)
    && OwnVerdicts(w.sends, w.collects, w.verdicts)
  }

  /** Sends were added or travelled. */
  predicate SendsGrow(sends: seq<Send>, ts: seq<Send>)
  {
    && |sends| <= |ts|
    && forall i | 0 <= i < |sends| :: ts[i].planId == sends[i].planId && ts[i].exec == sends[i].exec
  }

  lemma WindowGrows(sends: seq<Send>, ts: seq<Send>, collects: seq<Collect>, ds: seq<Collect>, mark: nat, end: nat,
                    p: PlanId)
    requires SendsGrow(sends, ts) && CollectsOk(sends, collects) && |collects| <= |ds| && collects == ds[..|collects|]
    requires OwnWindow(sends, collects, mark, end, p)
    ensures OwnWindow(ts, ds, mark, end, p)
  {
    forall k | 0 <= k < end ensures For(ts, ds[k], p) <==> For(sends, collects[k], p) { assert ds[k] == collects[k]; }
    assert forall k | 0 <= k < end :: ds[k] == collects[k];
  }

  lemma VerdictsGrow(sends: seq<Send>, ts: seq<Send>, collects: seq<Collect>, ds: seq<Collect>, verdicts: seq<Verdict>)
    requires SendsGrow(sends, ts) && CollectsOk(sends, collects) && |collects| <= |ds| && collects == ds[..|collects|]
    requires OwnVerdicts(sends, collects, verdicts)
    ensures OwnVerdicts(ts, ds, verdicts)
  {
    forall i | 0 <= i < |verdicts| ensures OwnVerdict(ts, ds, verdicts[i]) {
      assert OwnVerdict(sends, collects, verdicts[i]);
      if verdicts[i].direct {
        WindowGrows(sends, ts, collects, ds, verdicts[i].mark, verdicts[i].seen, verdicts[i].planId);
      }
    }
  }

  // ---- moves inside a call ----

  /** When the state before is read, nothing has been sent for the plan yet, so nothing was collected for it. */
  lemma OwnReadBefore(w: World, e: ExecId)
    requires OwnInv(w) && SendInv(w) && e in w.execs && CanMove(w, e, w.execs[e], ReadBefore)
    ensures OwnFact(w.sends, w.collects, w.lock, e, Moved(w, w.execs[e], ReadBefore))
  {
    var x := w.execs[e];
    assert Unsent(x);
    forall k | 0 <= k < |w.collects| ensures !For(w.sends, w.collects[k], x.planId) {
      assert For(w.sends, w.collects[k], x.planId) ==> SentFor(w.sends, x.planId);
    }
  }

  /** Any other move leaves the window of the call as it is, or closes it. */
  lemma OwnMovedOn(w: World, e: ExecId, x: Exec, m: Motion)
    requires OwnFact(w.sends, w.collects, w.lock, e, x) && CanMove(w, e, x, m) && !m.ReadBefore?
    ensures m.TakeLock? || m.ReleaseLock? || OwnFact(w.sends, w.collects, w.lock, e, Moved(w, x, m))
    ensures m.TakeLock? ==> OwnFact(w.sends, w.collects, Some(e), e, Moved(w, x, m))
    ensures m.ReleaseLock? ==> OwnFact(w.sends, w.collects, None, e, Moved(w, x, m))
  {}

  lemma OwnMoved(w: World, e: ExecId, m: Motion)
    requires OwnInv(w) && SendInv(w) && e in w.execs && CanMove(w, e, w.execs[e], m)
    ensures OwnFact(w.sends, w.collects, DoMove(w, e, m).lock, e, Moved(w, w.execs[e], m))
  {
    assert OwnFact(w.sends, w.collects, w.lock, e, w.execs[e]);
    if m.ReadBefore? { OwnReadBefore(w, e); } else { OwnMovedOn(w, e, w.execs[e], m); }
  }

  lemma OwnMove(w: World, e: ExecId, m: Motion)
    requires OwnInv(w) && SendInv(w) && e in w.execs && CanMove(w, e, w.execs[e], m)
    ensures OwnInv(DoMove(w, e, m))
  {
    var v := DoMove(w, e, m);
    OwnMoved(w, e, m);
    forall f | f in v.execs ensures OwnFact(v.sends, v.collects, v.lock, f, v.execs[f]) {
      if f != e { assert OwnFact(w.sends, w.collects, w.lock, f, w.execs[f]); }
    }
  }

  lemma OwnSend(w: World, e: ExecId)
    requires OwnInv(w) && At(w, e, Cleared)
    ensures OwnInv(DoSend(w, e))
  {
    var v := DoSend(w, e);
    VerdictsGrow(w.sends, v.sends, w.collects, v.collects, w.verdicts);
    forall f | f in v.execs ensures OwnFact(v.sends, v.collects, v.lock, f, v.execs[f]) {
      var x := w.execs[f];
      assert OwnFact(w.sends, w.collects, w.lock, f, x);
      if OwnWindow(w.sends, w.collects, x.mark, WindowEnd(w.collects, x), x.planId) {
        WindowGrows(w.sends, v.sends, w.collects, v.collects, x.mark, WindowEnd(w.collects, x), x.planId);
      }
    }
  }

  // ---- the game applies a collect ----

  /** While `e` holds the lock, a delivered message is for its plan exactly if it is its own, and then it is
      attended. */
  lemma AttendedIsOwn(w: World, i: nat, e: ExecId)
    requires OwnInv(w) && SendInv(w) && i < |w.sends| && w.lock == Some(e) && e in w.execs
    requires w.execs[e].stage.HasBefore() && !w.execs[e].claim.recovery
    ensures Attended(w, i) <==> w.sends[i].planId == w.execs[e].planId
  {
    var x := w.execs[e];
    assert OwnFact(w.sends, w.collects, w.lock, e, x);
    if w.sends[i].planId == x.planId {
      assert SentFor(w.sends, x.planId);
      assert !Unsent(x);
      assert x.stage.Sent() && SendOf(w.sends, e, x);
      assert x.send == i;
    }
  }

  lemma OwnDeliver(w: World, i: nat, left: nat)
    requires OwnInv(w) && SendInv(w) && i < |w.sends| && w.sends[i].transit == InFlight
    ensures OwnInv(DoDeliver(w, i, left))
  {
    var v := DoDeliver(w, i, left);
    VerdictsGrow(w.sends, v.sends, w.collects, v.collects, w.verdicts);
    forall e | e in v.execs ensures OwnFact(v.sends, v.collects, v.lock, e, v.execs[e]) {
      OwnDelivered(w, i, left, e);
    }
  }

  lemma OwnDelivered(w: World, i: nat, left: nat, e: ExecId)
    requires OwnInv(w) && SendInv(w) && i < |w.sends| && w.sends[i].transit == InFlight && e in w.execs
    ensures var v := DoDeliver(w, i, left); OwnFact(v.sends, v.collects, v.lock, e, w.execs[e])
  {
    var v := DoDeliver(w, i, left);
    var x := w.execs[e];
    assert OwnFact(w.sends, w.collects, w.lock, e, x);
    if OwnWindow(w.sends, w.collects, x.mark, WindowEnd(w.collects, x), x.planId) {
      WindowGrows(w.sends, v.sends, w.collects, v.collects, x.mark, WindowEnd(w.collects, x), x.planId);
    }
    if w.lock == Some(e) && x.stage.HasBefore() && !x.claim.recovery { AttendedIsOwn(w, i, e); }
  }

  lemma OwnForeign(w: World, left: nat)
    requires OwnInv(w)
    ensures OwnInv(DoForeignCollect(w, left))
  {
    var v := DoForeignCollect(w, left);
    VerdictsGrow(w.sends, v.sends, w.collects, v.collects, w.verdicts);
    forall e | e in v.execs ensures OwnFact(v.sends, v.collects, v.lock, e, v.execs[e]) {
      var x := w.execs[e];
      assert OwnFact(w.sends, w.collects, w.lock, e, x);
      if OwnWindow(w.sends, w.collects, x.mark, WindowEnd(w.collects, x), x.planId) {
        WindowGrows(w.sends, v.sends, w.collects, v.collects, x.mark, WindowEnd(w.collects, x), x.planId);
      }
    }
  }

  lemma OwnDrop(w: World, i: nat)
    requires OwnInv(w) && i < |w.sends| && w.sends[i].transit == InFlight
    ensures OwnInv(DoDrop(w, i))
  {
    var v := DoDrop(w, i);
    VerdictsGrow(w.sends, v.sends, w.collects, v.collects, w.verdicts);
    forall e | e in v.execs ensures OwnFact(v.sends, v.collects, v.lock, e, v.execs[e]) {
      var x := w.execs[e];
      assert OwnFact(w.sends, w.collects, w.lock, e, x);
      if OwnWindow(w.sends, w.collects, x.mark, WindowEnd(w.collects, x), x.planId) {
        WindowGrows(w.sends, v.sends, w.collects, v.collects, x.mark, WindowEnd(w.collects, x), x.planId);
      }
    }
  }

  // ---- the other steps ----

  /** Executors only left or started over, and nobody gained the lock. */
  lemma OwnQuiet(w: World, v: World)
    requires OwnInv(w) && v.sends == w.sends && v.collects == w.collects && v.verdicts == w.verdicts
    requires v.lock == w.lock || v.lock == None
    requires forall e | e in v.execs ::
      (e in w.execs && v.execs[e] == w.execs[e]) || v.execs[e].stage.Guarded? || v.execs[e].stage.Claimed?
    ensures OwnInv(v)
  {
    forall e | e in v.execs ensures OwnFact(v.sends, v.collects, v.lock, e, v.execs[e]) {
      if e in w.execs { assert OwnFact(w.sends, w.collects, w.lock, e, w.execs[e]); }
    }
  }

  lemma OwnFinish(w: World, e: ExecId, now: int)
    requires OwnInv(w) && SendInv(w) && At(w, e, Finishing)
    ensures OwnInv(DoFinish(w, e, now))
  {
    var x := w.execs[e];
    assert OwnFact(w.sends, w.collects, w.lock, e, x);
    assert OwnVerdict(w.sends, w.collects, VerdictOf(x));
    FinishIsWriteAndLeave(w, e, now);
    var u := Written(w, x, now);
    assert OwnVerdicts(u.sends, u.collects, u.verdicts);
    OwnQuiet(u, Leave(u, e));
  }

  lemma OwnStep(w: World, s: Step, v: World)
    requires OwnInv(w) && SendInv(w) && Next(w, s, v)
    ensures OwnInv(v)
  {
    match s
    case ForeignCollect(left) => OwnForeign(w, left);
    case Move(e, m) => OwnMove(w, e, m);
    case SendCollect(e) => OwnSend(w, e);
    case Deliver(i, left) => OwnDeliver(w, i, left);
    case DropMessage(i) => OwnDrop(w, i);
    case FinishPlan(e, now) => OwnFinish(w, e, now);
    case TakeClaim(e, now) => OwnTakeClaim(w, e, now);
    case _ => OwnRest(w, s, v);
  }

  lemma OwnTakeClaim(w: World, e: ExecId, now: int)
    requires OwnInv(w) && At(w, e, Guarded)
    ensures OwnInv(DoTakeClaim(w, e, now))
  {
    TakeClaimExecs(w, e, now);
    OwnQuiet(w, DoTakeClaim(w, e, now));
  }

  lemma OwnRest(w: World, s: Step, v: World)
    requires OwnInv(w) && Next(w, s, v)
    requires s.Accrue? || s.SavePolicy? || s.PreviewRead? || s.PreviewSave? || s.ConfirmPlan? || s.MutateDeclines?
             || s.Begin? || s.Crash? || s.LoseGuard? || s.LoseLock?
    ensures OwnInv(v)
  {
    OwnQuiet(w, v);
  }

  // ---- answers that are backed ----

  /** Among the first `n` collects one was sent for plan `p`. */
  predicate AppliedBy(sends: seq<Send>, collects: seq<Collect>, n: nat, p: PlanId)
  {
    exists k | 0 <= k < n && k < |collects| :: For(sends, collects[k], p)
  }

  /** Every request that the game applied is among its collects. */
  predicate AppliedAreCollected(sends: seq<Send>, collects: seq<Collect>)
  {
    forall i | 0 <= i < |sends| && sends[i].transit == Applied ::
      AppliedBy(sends, collects, |collects|, sends[i].planId)
  }

  predicate BackedFact(sends: seq<Send>, collects: seq<Collect>, x: Exec)
  {
    && (x.stage.Answered? && x.backed ==> AppliedBy(sends, collects, |collects|, x.planId))
    && (x.stage.HasOutcome() && x.outcome.CollectedNow? && x.backed ==> AppliedBy(sends, collects, x.seen, x.planId))
  }

  predicate BackedInv(w: World)
  {
    && AppliedAreCollected(w.sends, w.collects)
    && (forall e | e in w.execs :: BackedFact(w.sends, w.collects, w.execs[e]))
    && (forall i | 0 <= i < |w.verdicts| && w.verdicts[i].outcome.CollectedNow? && w.verdicts[i].backed ::
          AppliedBy(w.sends, w.collects, w.verdicts[i].seen, w.verdicts[i].planId))
  }

  lemma AppliedGrows(sends: seq<Send>, ts: seq<Send>, collects: seq<Collect>, ds: seq<Collect>, n: nat, m: nat,
                     p: PlanId)
    requires SendsGrow(sends, ts) && |collects| <= |ds| && collects == ds[..|collects|] && n <= m
    requires AppliedBy(sends, collects, n, p)
    ensures AppliedBy(ts, ds, m, p)
  {
    var k :| 0 <= k < n && k < |collects| && For(sends, collects[k], p);
    assert ds[k] == collects[k] && For(ts, ds[k], p);
  }

  /** Sends and collects grew, and executors moved on without reading an answer. */
  lemma BackedGrows(w: World, v: World)
    requires BackedInv(w) && SendsGrow(w.sends, v.sends) && v.verdicts == w.verdicts
    requires |w.collects| <= |v.collects| && w.collects == v.collects[..|w.collects|]
    requires AppliedAreCollected(v.sends, v.collects)
    requires forall e | e in v.execs ::
      (e in w.execs && v.execs[e] == w.execs[e]) || (!v.execs[e].stage.Answered? && !v.execs[e].stage.HasOutcome())
    ensures BackedInv(v)
  {
    forall e | e in v.execs ensures BackedFact(v.sends, v.collects, v.execs[e]) {
      if e in w.execs && v.execs[e] == w.execs[e] { BackedStays(w, v, e); }
    }
    forall i | 0 <= i < |w.verdicts| && w.verdicts[i].outcome.CollectedNow? && w.verdicts[i].backed
      ensures AppliedBy(v.sends, v.collects, v.verdicts[i].seen, v.verdicts[i].planId)
    {
      var y := w.verdicts[i];
      AppliedGrows(w.sends, v.sends, w.collects, v.collects, y.seen, y.seen, y.planId);
    }
  }

  lemma BackedStays(w: World, v: World, e: ExecId)
    requires BackedInv(w) && SendsGrow(w.sends, v.sends) && e in w.execs
    requires |w.collects| <= |v.collects| && w.collects == v.collects[..|w.collects|]
    ensures BackedFact(v.sends, v.collects, w.execs[e])
  {
    var x := w.execs[e];
    assert BackedFact(w.sends, w.collects, x);
    if x.stage.Answered? && x.backed {
      AppliedGrows(w.sends, v.sends, w.collects, v.collects, |w.collects|, |v.collects|, x.planId);
    }
    if x.stage.HasOutcome() && x.outcome.CollectedNow? && x.backed {
      AppliedGrows(w.sends, v.sends, w.collects, v.collects, x.seen, x.seen, x.planId);
    }
  }

  lemma BackedMove(w: World, e: ExecId, m: Motion)
    requires BackedInv(w) && OwnInv(w) && e in w.execs && CanMove(w, e, w.execs[e], m)
    ensures BackedInv(DoMove(w, e, m))
  {
    var v := DoMove(w, e, m);
    assert BackedFact(w.sends, w.collects, w.execs[e]) && OwnFact(w.sends, w.collects, w.lock, e, w.execs[e]);
    assert BackedFact(w.sends, w.collects, Moved(w, w.execs[e], m));
    assert forall f | f in v.execs && f != e :: v.execs[f] == w.execs[f];
  }

  lemma BackedSend(w: World, e: ExecId)
    requires BackedInv(w) && At(w, e, Cleared)
    ensures BackedInv(DoSend(w, e))
  {
    var v := DoSend(w, e);
    forall i | 0 <= i < |v.sends| && v.sends[i].transit == Applied
      ensures AppliedBy(v.sends, v.collects, |v.collects|, v.sends[i].planId)
    {
      AppliedGrows(w.sends, v.sends, w.collects, v.collects, |w.collects|, |v.collects|, w.sends[i].planId);
    }
    BackedGrows(w, v);
  }

  lemma BackedTravel(w: World, v: World)
    requires BackedInv(w) && v.execs == w.execs && v.verdicts == w.verdicts && SendsGrow(w.sends, v.sends)
    requires |v.sends| == |w.sends| && |w.collects| <= |v.collects| && w.collects == v.collects[..|w.collects|]
    requires forall i | 0 <= i < |v.sends| && v.sends[i].transit == Applied ::
      w.sends[i].transit == Applied || (|v.collects| > |w.collects| && v.collects[|w.collects|].BySend?
                                        && v.collects[|w.collects|].send == i)
    ensures BackedInv(v)
  {
    forall i | 0 <= i < |v.sends| && v.sends[i].transit == Applied
      ensures AppliedBy(v.sends, v.collects, |v.collects|, v.sends[i].planId)
    {
      if w.sends[i].transit == Applied {
        AppliedGrows(w.sends, v.sends, w.collects, v.collects, |w.collects|, |v.collects|, w.sends[i].planId);
      } else {
        assert For(v.sends, v.collects[|w.collects|], v.sends[i].planId);
      }
    }
    BackedGrows(w, v);
  }

  lemma BackedFinish(w: World, e: ExecId, now: int)
    requires BackedInv(w) && At(w, e, Finishing)
    ensures BackedInv(DoFinish(w, e, now))
  {
    var x := w.execs[e];
    assert BackedFact(w.sends, w.collects, x);
    FinishIsWriteAndLeave(w, e, now);
  }

  lemma BackedStep(w: World, s: Step, v: World)
    requires BackedInv(w) && OwnInv(w) && Next(w, s, v)
    ensures BackedInv(v)
  {
    match s
    case ForeignCollect(left) => BackedTravel(w, DoForeignCollect(w, left));
    case Move(e, m) => BackedMove(w, e, m);
    case SendCollect(e) => BackedSend(w, e);
    case Deliver(i, left) => BackedTravel(w, DoDeliver(w, i, left));
    case DropMessage(i) => BackedTravel(w, DoDrop(w, i));
    case FinishPlan(e, now) => BackedFinish(w, e, now);
    case TakeClaim(e, now) =>
      TakeClaimExecs(w, e, now);
      BackedGrows(w, v);
    case _ => BackedRest(w, s, v);
  }

  lemma BackedRest(w: World, s: Step, v: World)
    requires BackedInv(w) && Next(w, s, v)
    requires s.Accrue? || s.SavePolicy? || s.PreviewRead? || s.PreviewSave? || s.ConfirmPlan? || s.MutateDeclines?
             || s.Begin? || s.Crash? || s.LoseGuard? || s.LoseLock?
    ensures BackedInv(v)
  {
    BackedGrows(w, v);
  }
}
