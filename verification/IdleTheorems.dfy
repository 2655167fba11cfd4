/** The idle protocol over whole runs: any executors, any interleaving, crashes, lost locks, late messages. */
module IdleTheorems {
  import opened Prelude
  import opened IdlePlanner
  import opened IdleClaims
  import opened IdleProtocol
  import opened IdleInvariants
  import opened IdleTruth
  import opened IdleIsolation

  predicate AllInv(w: World)
  {
    && SendInv(w) && MarksAreOfPlans(w) && TruthInv(w) && LockInv(w) && GuardInv(w)
    && VerdictInv(w.plans, w.verdicts) && OwnInv(w) && BackedInv(w)
  }

  lemma AllInvInit(w: World)
    requires Init(w)
    ensures AllInv(w)
  {}

  lemma AllInvStep(w: World, s: Step, v: World)
    requires AllInv(w) && Next(w, s, v)
    ensures AllInv(v)
  {
    SendInvStep(w, s, v);
    MarksStep(w, s, v);
    TruthStep(w, s, v);
    LockStep(w, s, v);
    GuardStep(w, s, v);
    VerdictStep(w, s, v);
    OwnStep(w, s, v);
    BackedStep(w, s, v);
  }

  /** A run that starts where nothing has happened yet. */
  ghost predicate History(ws: seq<World>) { Run(ws) && Init(ws[0]) }

  lemma {:induction false} Holds(ws: seq<World>, n: nat)
    requires History(ws) && n < |ws|
    ensures AllInv(ws[n])
  {
    if n == 0 {
      AllInvInit(ws[0]);
    } else {
      Holds(ws, n - 1);
      assert Linked(ws[n-1], ws[n]);
      var s :| Next(ws[n-1], s, ws[n]);
      AllInvStep(ws[n-1], s, ws[n]);
    }
  }

  // ---- at most one send ----

  /**
   * No plan is ever sent twice, no recovery ever sends, and a plan that is still open was never claimed or sent.
   */
  lemma AtMostOneSend(ws: seq<World>, n: nat)
    requires History(ws) && n < |ws|
    ensures var w := ws[n];
            && (forall i, j | 0 <= i < j < |w.sends| :: w.sends[i].planId != w.sends[j].planId)
            && (forall i | 0 <= i < |w.sends| :: w.sends[i].direct)
            && (forall p | p in w.plans && w.plans[p].state.Open() :: w.plans[p].attempts == 0 && !SentFor(w.sends, p))
            && (forall p | p in w.plans :: w.plans[p].attempts <= 1)
  {
    Holds(ws, n);
  }

  /** Plans only appear, claimed plans stay claimed, and terminal rows stay as they are. */
  predicate MovesOn(plans: Plans, qs: Plans)
  {
    forall p | p in plans ::
      && p in qs
      && (!plans[p].state.Open() ==> !qs[p].state.Open())
      && (plans[p].state.Terminal() ==> qs[p] == plans[p])
  }

  lemma ClaimMovesOn(w: World, e: ExecId, now: int)
    requires e in w.execs
    ensures MovesOn(w.plans, DoTakeClaim(w, e, now).plans)
  {
    var x := w.execs[e];
    ClaimKeepsKeys(w, e, now);
    ClaimKeepsTerminal(w.plans, w.account, x.planId, w.owners, now, x.asked);
    ClaimKeepsClaimed(w.plans, w.account, x.planId, w.owners, now, x.asked);
  }

  lemma ClaimKeepsClaimed(plans: Plans, account: AccountId, id: PlanId, owner: Owner, now: int, recovery: bool)
    ensures var qs := ClaimTx(plans, account, id, owner, now, recovery).1;
            forall p | p in plans && !plans[p].state.Open() :: p in qs && !qs[p].state.Open()
  {}

  lemma FinishMovesOn(w: World, e: ExecId, now: int)
    requires e in w.execs
    ensures MovesOn(w.plans, DoFinish(w, e, now).plans)
  {}

  lemma StepMovesOn(w: World, s: Step, v: World)
    requires Next(w, s, v)
    ensures MovesOn(w.plans, v.plans)
  {
    match s
    case TakeClaim(e, now) => ClaimMovesOn(w, e, now);
    case FinishPlan(e, now) => FinishMovesOn(w, e, now);
    case PreviewSave(_, _, _) =>
    case ConfirmPlan(_, _) =>
    case MutateDeclines(_, _) =>
    case _ => assert v.plans == w.plans;
  }

  /** What one plan may turn into. */
  predicate After(plans: Plans, p: PlanId, row: PlanRow)
  {
    && p in plans
    && (!row.state.Open() ==> !plans[p].state.Open())
    && (row.state.Terminal() ==> plans[p] == row)
  }

  lemma LinkMovesOn(w: World, v: World, p: PlanId, row: PlanRow)
    requires Linked(w, v) && After(w.plans, p, row)
    ensures After(v.plans, p, row)
  {
    var s :| Next(w, s, v);
    StepMovesOn(w, s, v);
  }

  lemma {:induction false} StaysAfter(ws: seq<World>, m: nat, n: nat, p: PlanId, row: PlanRow)
    requires Run(ws) && m <= n < |ws| && After(ws[m].plans, p, row)
    ensures After(ws[n].plans, p, row)
  {
    if m < n {
      StaysAfter(ws, m, n - 1, p, row);
      assert Linked(ws[n-1], ws[n]);
      LinkMovesOn(ws[n-1], ws[n], p, row);
    }
  }

  /** A claimed plan never becomes claimable again, and a terminal row is never written again. */
  lemma NoWayBack(ws: seq<World>, m: nat, n: nat, p: PlanId)
    requires Run(ws) && m <= n < |ws| && p in ws[m].plans
    ensures p in ws[n].plans
    ensures !ws[m].plans[p].state.Open() ==> !ws[n].plans[p].state.Open()
    ensures ws[m].plans[p].state.Terminal() ==> ws[n].plans[p] == ws[m].plans[p]
  {
    StaysAfter(ws, m, n, p, ws[m].plans[p]);
  }

  // ---- terminal states tell the truth ----

  /** `failed`, unless it was `mutate` that failed the plan: no collect was ever sent for it, at any later time
      either. */
  lemma FailedMeansNeverSent(ws: seq<World>, m: nat, n: nat, p: PlanId)
    requires History(ws) && m <= n < |ws| && p in ws[m].plans && ws[m].plans[p].state.Failed?
             && !Declined(ws[m].plans[p])
    ensures !SentFor(ws[n].sends, p)
  {
    NoWayBack(ws, m, n, p);
    Holds(ws, n);
  }

  /** A call that has passed its check on plan `p`, and will send next. */
  predicate AboutToSend(w: World, p: PlanId)
  {
    exists e | e in w.execs :: w.execs[e].stage.Cleared? && w.execs[e].planId == p
  }

  /** Nothing was sent for plan `p`, and nothing can be any more. */
  predicate Unsendable(w: World, p: PlanId)
  {
    p in w.plans && w.plans[p].state.Terminal() && !SentFor(w.sends, p) && !AboutToSend(w, p)
  }

  lemma MoveKeepsUnsendable(w: World, e: ExecId, m: Motion, p: PlanId)
    requires Unsendable(w, p) && e in w.execs && CanMove(w, e, w.execs[e], m)
    ensures Unsendable(DoMove(w, e, m), p)
  {
    var v := DoMove(w, e, m);
    forall f | f in v.execs ensures !(v.execs[f].stage.Cleared? && v.execs[f].planId == p) {
      assert f in w.execs && !(w.execs[f].stage.Cleared? && w.execs[f].planId == p);
    }
  }

  lemma SendKeepsUnsendable(w: World, e: ExecId, p: PlanId)
    requires Unsendable(w, p) && At(w, e, Cleared)
    ensures Unsendable(DoSend(w, e), p)
  {
    var v := DoSend(w, e);
    assert w.execs[e].planId != p;
    SentAppend(w.sends, v.sends[|w.sends|], p);
    forall f | f in v.execs ensures !(v.execs[f].stage.Cleared? && v.execs[f].planId == p) {
      assert f in w.execs && !(w.execs[f].stage.Cleared? && w.execs[f].planId == p);
    }
  }

  /** No other step sends, or lets a call pass its check. */
  lemma QuietKeepsUnsendable(w: World, s: Step, v: World, p: PlanId)
    requires Unsendable(w, p) && Next(w, s, v) && !s.Move? && !s.SendCollect?
    ensures !SentFor(v.sends, p) && !AboutToSend(v, p)
  {
    if s.TakeClaim? { TakeClaimExecs(w, s.e, s.now); }
    assert |v.sends| == |w.sends| && forall i | 0 <= i < |w.sends| :: v.sends[i].planId == w.sends[i].planId;
    forall f | f in v.execs ensures !(v.execs[f].stage.Cleared? && v.execs[f].planId == p) {
      assert f in w.execs ==> !(w.execs[f].stage.Cleared? && w.execs[f].planId == p);
    }
  }

  lemma LinkKeepsUnsendable(w: World, v: World, p: PlanId)
    requires Linked(w, v) && Unsendable(w, p)
    ensures Unsendable(v, p)
  {
    var s :| Next(w, s, v);
    StepMovesOn(w, s, v);
    match s
    case Move(e, m) => MoveKeepsUnsendable(w, e, m, p);
    case SendCollect(e) => SendKeepsUnsendable(w, e, p);
    case _ => QuietKeepsUnsendable(w, s, v, p);
  }

  lemma StaysUnsendable(ws: seq<World>, m: nat, n: nat, p: PlanId)
    requires Run(ws) && m <= n < |ws| && Unsendable(ws[m], p)
    ensures Unsendable(ws[n], p)
  {
    forall k | m <= k < n ensures Unsendable(ws[k], p) ==> Unsendable(ws[k+1], p) {
      assert Linked(ws[k], ws[k+1]);
      if Unsendable(ws[k], p) { LinkKeepsUnsendable(ws[k], ws[k+1], p); }
    }
    UnsendableThroughout(ws, m, n, p);
  }

  lemma {:induction false} UnsendableThroughout(ws: seq<World>, m: nat, n: nat, p: PlanId)
    requires m <= n < |ws| && Unsendable(ws[m], p)
    requires forall k | m <= k < n :: Unsendable(ws[k], p) ==> Unsendable(ws[k+1], p)
    ensures Unsendable(ws[n], p)
  {
    if m < n {
      UnsendableThroughout(ws, m, n - 1, p);
      assert Unsendable(ws[n-1], p) ==> Unsendable(ws[n-1+1], p);
    }
  }

  /** Send `i` was made for plan `p`. */
  predicate SentAt(w: World, i: nat, p: PlanId) { i < |w.sends| && w.sends[i].planId == p }

  lemma SentStaysSent(ws: seq<World>, m: nat, n: nat, i: nat, p: PlanId)
    requires Run(ws) && m <= n < |ws| && SentAt(ws[m], i, p)
    ensures SentAt(ws[n], i, p)
  {
    forall k | m <= k < n ensures SentAt(ws[k], i, p) ==> SentAt(ws[k+1], i, p) {
      if SentAt(ws[k], i, p) { LinkKeepsSends(ws, k, i, p); }
    }
    SentThroughout(ws, m, n, i, p);
  }

  lemma {:induction false} SentThroughout(ws: seq<World>, m: nat, n: nat, i: nat, p: PlanId)
    requires m <= n < |ws| && SentAt(ws[m], i, p)
    requires forall k | m <= k < n :: SentAt(ws[k], i, p) ==> SentAt(ws[k+1], i, p)
    ensures SentAt(ws[n], i, p)
  {
    if m < n {
      SentThroughout(ws, m, n - 1, i, p);
      assert SentAt(ws[n-1], i, p) ==> SentAt(ws[n-1+1], i, p);
    }
  }

  lemma LinkKeepsSends(ws: seq<World>, n: nat, i: nat, p: PlanId)
    requires Run(ws) && n + 1 < |ws| && SentAt(ws[n], i, p)
    ensures SentAt(ws[n+1], i, p)
  {
    assert Linked(ws[n], ws[n+1]);
    var s :| Next(ws[n], s, ws[n+1]);
    StepKeepsSends(ws[n], s, ws[n+1], i, p);
  }

  lemma StepKeepsSends(w: World, s: Step, v: World, i: nat, p: PlanId)
    requires Next(w, s, v) && SentAt(w, i, p)
    ensures SentAt(v, i, p)
  {
    match s
    case SendCollect(e) =>
    case Deliver(j, left) =>
    case DropMessage(j) =>
    case TakeClaim(e, now) => TakeClaimExecs(w, e, now);
    case _ => assert v.sends == w.sends;
  }

  /**
   * A plan that `mutate` fails while it is being executed: what had been sent for it stays sent, and what is sent
   * afterwards is sent by a call that had passed its check before and had lost the account lock.
   */
  lemma DeclinedWasSent(ws: seq<World>, m: nat, n: nat, p: PlanId, now: int)
    requires History(ws) && m < n < |ws| && Next(ws[m], MutateDeclines(p, now), ws[m+1])
    ensures SentFor(ws[m].sends, p) ==> SentFor(ws[n].sends, p)
    ensures SentFor(ws[n].sends, p) && !SentFor(ws[m].sends, p) ==> AboutToSend(ws[m], p)
    ensures AboutToSend(ws[m], p) ==> ws[m].lock == None
    ensures p in ws[n].plans && Declined(ws[n].plans[p])
  {
    NoWayBack(ws, m + 1, n, p);
    if SentFor(ws[m].sends, p) {
      var i :| 0 <= i < |ws[m].sends| && ws[m].sends[i].planId == p;
      SentStaysSent(ws, m, n, i, p);
      assert SentAt(ws[n], i, p);
    }
    if !SentFor(ws[m].sends, p) && !AboutToSend(ws[m], p) {
      assert Unsendable(ws[m+1], p);
      StaysUnsendable(ws, m + 1, n, p);
    }
  }

  /** The one terminal write of a plan. */
  predicate Wrote(w: World, p: PlanId, y: Verdict)
  {
    y in w.verdicts && y.planId == p && p in w.plans && y.outcome.Status() == w.plans[p].state
  }

  /** Among the first `n` collects one was sent for plan `p`. */
  predicate OwnSendApplied(w: World, p: PlanId, n: nat)
  {
    AppliedBy(w.sends, w.collects, n, p)
  }

  /** From `mark` up to `end` some collect was applied while its sender was still deciding under the account lock. */
  predicate AttendedWithin(w: World, mark: nat, end: nat)
  {
    exists k | mark <= k < end && k < |w.collects| :: WasAttended(w.collects[k])
  }

  /**
   * `executed` was written once, and a collect was applied behind it: for a recovery, after the plan's idle state
   * was read; for the claim that sent, between its own two reads. By then the plan's own send had been applied if and
   * only if one of the collects between the two reads reached the game while its sender was still deciding under the
   * account lock; and it is exactly that collect.
   */
  lemma ExecutedMeansCollected(ws: seq<World>, n: nat, p: PlanId)
    requires History(ws) && n < |ws| && p in ws[n].plans && ws[n].plans[p].state.Executed?
    ensures var w := ws[n];
            exists y :: Wrote(w, p, y) && y.mark < y.seen <= |w.collects|
                        && (!y.direct ==> p in w.marks && y.mark == w.marks[p])
                        && (y.direct ==> (OwnSendApplied(w, p, y.seen) <==> AttendedWithin(w, y.mark, y.seen))
                                         && OwnWindow(w.sends, w.collects, y.mark, y.seen, p))
    ensures forall y, z | Wrote(ws[n], p, y) && Wrote(ws[n], p, z) :: y == z
  {
    Holds(ws, n);
    var w := ws[n];
    assert Reported(w.verdicts, p);
    var i :| 0 <= i < |w.verdicts| && w.verdicts[i].planId == p;
    var y := w.verdicts[i];
    assert VerdictFact(w, y) && OwnVerdict(w.sends, w.collects, y);
    if y.direct { AppliedIffAttended(w, y.mark, y.seen, p); }
    assert Wrote(w, p, y);
  }

  lemma AppliedIffAttended(w: World, mark: nat, end: nat, p: PlanId)
    requires OwnWindow(w.sends, w.collects, mark, end, p)
    ensures OwnSendApplied(w, p, end) <==> AttendedWithin(w, mark, end)
  {
    if OwnSendApplied(w, p, end) {
      var k :| 0 <= k < end && k < |w.collects| && For(w.sends, w.collects[k], p);
      assert WasAttended(w.collects[k]);
    }
    if AttendedWithin(w, mark, end) {
      var k :| mark <= k < end && k < |w.collects| && WasAttended(w.collects[k]);
      assert For(w.sends, w.collects[k], p);
    }
  }

  /** So a claim's `executed` is its own whenever no collect between its reads was foreign, came after its sender had
      decided, or came to a sender that had lost the lock. */
  lemma OwnUnlessDisturbed(ws: seq<World>, n: nat, p: PlanId, y: Verdict)
    requires History(ws) && n < |ws| && p in ws[n].plans && ws[n].plans[p].state.Executed?
    requires Wrote(ws[n], p, y) && y.direct
    requires forall k | y.mark <= k < y.seen && k < |ws[n].collects| :: WasAttended(ws[n].collects[k])
    ensures OwnSendApplied(ws[n], p, y.seen)
  {
    ExecutedMeansCollected(ws, n, p);
    assert WasAttended(ws[n].collects[y.mark]);
  }

  /** If a positive answer comes only for a request that the game had applied, then whatever else happens a claim's
      `executed` is its own, unless it was reconciled after a fault. */
  lemma AnsweredMeansOwn(ws: seq<World>, n: nat, p: PlanId, y: Verdict)
    requires History(ws) && n < |ws| && Wrote(ws[n], p, y) && y.outcome.CollectedNow? && y.backed
    ensures OwnSendApplied(ws[n], p, y.seen)
  {
    Holds(ws, n);
    var i :| 0 <= i < |ws[n].verdicts| && ws[n].verdicts[i] == y;
  }

  // ---- the policy of the plan is current when its collect is sent ----

  lemma SendsFromHere(ws: seq<World>, m: nat, n: nat)
    requires History(ws) && m <= n < |ws|
    ensures SendsSince(ws[m], ws[n])
  {
    forall k | m <= k < n ensures SendsGrown(ws[k], ws[k+1]) {
      assert Linked(ws[k], ws[k+1]);
      var s :| Next(ws[k], s, ws[k+1]);
      SendsGrowBy(ws[k], s, ws[k+1]);
    }
    SendsThroughout(ws, m, n);
  }

  /** The sends of `v` that are not in `w` were made when `w`'s policies had been saved. */
  predicate SendsSince(w: World, v: World)
  {
    && |w.sends| <= |v.sends| && |w.policies| <= |v.policies|
    && forall i | |w.sends| <= i < |v.sends| :: v.sends[i].current >= |w.policies|
  }

  predicate SendsGrown(w: World, v: World)
  {
    SendsSince(w, v) && forall i | 0 <= i < |w.sends| :: v.sends[i].current == w.sends[i].current
  }

  lemma {:induction false} SendsThroughout(ws: seq<World>, m: nat, n: nat)
    requires m <= n < |ws| && forall k | m <= k < n :: SendsGrown(ws[k], ws[k+1])
    ensures SendsSince(ws[m], ws[n])
  {
    if m < n {
      SendsThroughout(ws, m, n - 1);
      assert SendsGrown(ws[n-1], ws[n-1+1]);
    }
  }

  lemma SendsGrowBy(w: World, s: Step, v: World)
    requires Next(w, s, v)
    ensures |w.sends| <= |v.sends| && |w.policies| <= |v.policies|
    ensures forall i | 0 <= i < |w.sends| :: v.sends[i].current == w.sends[i].current
    ensures forall i | |w.sends| <= i < |v.sends| :: v.sends[i].current == |w.policies|
  {
    match s
    case SendCollect(_) =>
    case Deliver(_, _) =>
    case DropMessage(_) =>
    case _ => assert v.sends == w.sends;
  }

  /** Whatever was lost elsewhere: a send whose sender still holds the account lock is never stale, neither when it is
      sent nor against any policy that has been saved before. */
  lemma NoStalePlanIsSent(ws: seq<World>, m: nat, n: nat)
    requires History(ws) && m <= n < |ws|
    ensures |ws[m].sends| <= |ws[n].sends|
    ensures forall i | 0 <= i < |ws[n].sends| && ws[n].sends[i].locked ::
              ws[n].sends[i].planVersion == ws[n].sends[i].current
    ensures forall i | |ws[m].sends| <= i < |ws[n].sends| && ws[n].sends[i].locked ::
              ws[n].sends[i].planVersion >= |ws[m].policies|
  {
    SendsFromHere(ws, m, n);
    Holds(ws, n);
  }

  predicate SavesAt(ws: seq<World>, t: nat)
    requires t + 1 < |ws|
  {
    |ws[t+1].policies| > |ws[t].policies|
  }

  /** A policy is saved strictly between the worlds `m` and `n`. */
  predicate SavedBetween(ws: seq<World>, m: nat, n: nat)
    requires m <= n < |ws|
  {
    exists t | m <= t < n :: SavesAt(ws, t)
  }

  predicate PoliciesGrow(ws: seq<World>) { forall t | 0 <= t < |ws| - 1 :: |ws[t].policies| <= |ws[t+1].policies| }

  lemma RunsKeepPolicies(ws: seq<World>)
    requires Run(ws)
    ensures PoliciesGrow(ws)
  {
    forall t | 0 <= t < |ws| - 1 ensures |ws[t].policies| <= |ws[t+1].policies| {
      assert Linked(ws[t+1-1], ws[t+1]);
      var s :| Next(ws[t], s, ws[t+1]);
      SendsGrowBy(ws[t], s, ws[t+1]);
    }
  }

  lemma {:induction false} VersionsCountSaves(ws: seq<World>, m: nat, n: nat)
    requires PoliciesGrow(ws) && m <= n < |ws|
    ensures |ws[m].policies| <= |ws[n].policies|
    ensures |ws[m].policies| < |ws[n].policies| <==> SavedBetween(ws, m, n)
  {
    if m < n {
      VersionsCountSaves(ws, m, n - 1);
      assert |ws[n-1].policies| <= |ws[n-1+1].policies|;
      OneStepMore(ws, m, n);
    }
  }

  lemma OneStepMore(ws: seq<World>, m: nat, n: nat)
    requires m < n < |ws|
    ensures SavedBetween(ws, m, n) <==> SavedBetween(ws, m, n - 1) || SavesAt(ws, n - 1)
  {}

  predicate ReadsPolicy(w: World, e: ExecId, v: World)
  {
    e in w.execs && w.execs[e].stage.Locked? && Next(w, Move(e, ReadPolicy), v)
  }

  /** What a step leaves of a call that has its policy already, or what gave it one. */
  lemma PolicyKept(w: World, s: Step, v: World, e: ExecId)
    requires Next(w, s, v) && e in v.execs && v.execs[e].stage.HasPolicy()
    ensures ReadsPolicy(w, e, v)
            || (e in w.execs && w.execs[e].stage.HasPolicy() && w.execs[e].policy == v.execs[e].policy)
  {
    if s.TakeClaim? { TakeClaimExecs(w, s.e, s.now); }
  }

  /** The step in which a call that is past it read its policy. */
  lemma {:induction false} PolicyReadAt(ws: seq<World>, n: nat, e: ExecId) returns (r: nat)
    requires History(ws) && n < |ws| && e in ws[n].execs && ws[n].execs[e].stage.HasPolicy()
    ensures r < n && ReadsPolicy(ws[r], e, ws[r+1]) && ws[n].execs[e].policy == CurrentPolicy(ws[r])
  {
    assert n > 0;
    assert Linked(ws[n-1], ws[n-1+1]);
    var s :| Next(ws[n-1], s, ws[n]);
    PolicyKept(ws[n-1], s, ws[n], e);
    if ReadsPolicy(ws[n-1], e, ws[n-1+1]) { r := n - 1; } else { r := PolicyReadAt(ws, n - 1, e); }
  }

  /** A send is stale if and only if a policy was saved after its call had read its own; and then the call had lost the
      account lock. */
  lemma StaleExactlyIfSaved(ws: seq<World>, n: nat, e: ExecId) returns (r: nat)
    requires History(ws) && n + 1 < |ws| && Next(ws[n], SendCollect(e), ws[n+1])
    ensures r < n && ReadsPolicy(ws[r], e, ws[r+1])
    ensures var s := ws[n+1].sends[|ws[n].sends|];
            && s.planVersion == |ws[r].policies| && s.current == |ws[n].policies|
            && (s.planVersion < s.current <==> SavedBetween(ws, r, n))
            && (s.planVersion < s.current ==> ws[n].lock != Some(e))
  {
    Holds(ws, n);
    r := PolicyReadAt(ws, n, e);
    Holds(ws, r);
    RunsKeepPolicies(ws);
    VersionsCountSaves(ws, r, n);
    assert ExecFact(ws[n], ws[n].execs[e]);
  }

  // ---- the guard ----

  /** While the guard's connection is never lost, one call runs at a time and nobody takes its claim over: its
      terminal write always succeeds, however late, unless `mutate` has failed the plan. */
  lemma GuardedClaimsAreSafe(ws: seq<World>, n: nat, e: ExecId, now: int)
    requires History(ws) && n < |ws| && !ws[n].guardLost && e in ws[n].execs
    ensures forall f | f in ws[n].execs :: f == e
    ensures At(ws[n], e, Finishing) ==>
              var p := ws[n].execs[e].planId;
              var plans := DoFinish(ws[n], e, now).plans;
              p in plans && (plans[p].state == ws[n].execs[e].outcome.Status() || Declined(plans[p]))
  {
    Holds(ws, n);
    var w := ws[n];
    assert GuardHeld(w.guard, w.plans, e, w.execs[e]);
    assert forall f | f in w.execs :: GuardHeld(w.guard, w.plans, f, w.execs[f]);
    if At(w, e, Finishing) { assert ClaimOk(w.plans, w.execs[e]); }
  }
}
