/**
 * Reachable worlds that show why ExecutedMeansCollected and NoStalePlanIsSent ask what they ask. A plan can be recorded
 * as executed by its own direct call although its own request was dropped: credited with a collect from elsewhere, with
 * one that arrived after its sender had given up, or with one whose sender was still waiting but had lost the account
 * lock. And a call that has lost the lock can send a plan of an older policy.
 */
module IdleCounterexamples {
  import opened Prelude
  import opened IdlePlanner
  import opened IdleClaims
  import opened IdleProtocol
  import opened IdleInvariants
  import opened IdleIsolation
  import opened IdleTheorems

  ghost predicate Reaches(w: World) { exists ws :: History(ws) && ws[|ws| - 1] == w }

  lemma Start(w: World)
    requires Init(w)
    ensures Reaches(w)
  {
    assert History([w]) && [w][0] == w;
  }

  lemma Onward(w: World, s: Step, v: World)
    requires Reaches(w) && Next(w, s, v)
    ensures Reaches(v)
  {
    var ws :| History(ws) && ws[|ws| - 1] == w;
    var us := ws + [v];
    forall i | 0 < i < |us| ensures Linked(us[i-1], us[i]) {
      if i < |ws| { assert us[i-1] == ws[i-1] && us[i] == ws[i] && Linked(ws[i-1], ws[i]); }
    }
    assert History(us) && us[|us| - 1] == v;
  }

  // ---- one call, step by step ----

  const HOURLY := Policy(1, 60)

  /** Two hours have accumulated under a one-hour policy, nobody holds guard or lock, and plan `p` is due. */
  predicate Ready(w: World, e: ExecId, p: PlanId)
  {
    && e !in w.execs && w.guard == None && w.lock == None
    && w.policies == [HOURLY] && w.capacity == None && w.seconds == 7200
    && p in w.plans && w.plans[p] == DueRow(w)
  }

  function DueRow(w: World): PlanRow { DraftRow(w.account, Fingerprint(None, true), 1, 1000) }

  function ClaimedRow(w: World): PlanRow { Owning(DueRow(w), w.owners, 0).(state := Executing, attempts := 1) }

  /** The call `e` on plan `p`, at any stage from the check to the fault. */
  function Caller(w: World, p: PlanId, stage: Stage, send: nat): Exec
  {
    Exec(p, false, stage, ClaimOf(ClaimedRow(w), p, w.owners, false), HOURLY, Now(w), send, NeedsReconciliation,
         |w.collects|, 0, false)
  }

  function Claimer(w: World, p: PlanId): Exec
  {
    NewExec(p, false).(stage := Claimed, claim := ClaimOf(ClaimedRow(w), p, w.owners, false))
  }

  /** The world once call `e` has claimed plan `p`. */
  function InCall(w: World, e: ExecId, p: PlanId, x: Exec, lock: Option<ExecId>): World
  {
    w.(plans := w.plans[p := ClaimedRow(w)], owners := w.owners + 1, execs := w.execs[e := x], guard := Some(e),
       lock := lock)
  }

  /** The world once its collect is on the way. */
  function Sending(w: World, e: ExecId, p: PlanId, stage: Stage): World
  {
    InCall(w, e, p, Caller(w, p, stage, |w.sends|), Some(e)).(
      sends := w.sends + [Send(p, e, true, 1, 1, true, InFlight)])
  }

  lemma CallUntilClaimed(w: World, e: ExecId, p: PlanId)
    requires Reaches(w) && Ready(w, e, p)
    ensures Reaches(InCall(w, e, p, Claimer(w, p), None))
  {
    var a := DoBegin(w, e, p, false);
    Onward(w, Begin(e, p, false), a);
    var b := DoTakeClaim(a, e, 0);
    Onward(a, TakeClaim(e, 0), b);
    assert b.execs == w.execs[e := Claimer(w, p)];
    assert b == InCall(w, e, p, Claimer(w, p), None);
  }

  lemma MoveOn(w: World, e: ExecId, p: PlanId, x: Exec, m: Motion)
    requires Reaches(InCall(w, e, p, x, Some(e))) && CanMove(InCall(w, e, p, x, Some(e)), e, x, m)
    requires !m.TakeLock? && !m.ReleaseLock?
    ensures Reaches(InCall(w, e, p, Moved(InCall(w, e, p, x, Some(e)), x, m), Some(e)))
  {
    var a := InCall(w, e, p, x, Some(e));
    var b := DoMove(a, e, m);
    Onward(a, Move(e, m), b);
    assert b.execs == w.execs[e := Moved(a, x, m)];
    assert b == InCall(w, e, p, Moved(a, x, m), Some(e));
  }

  lemma CallUntilLocked(w: World, e: ExecId, p: PlanId)
    requires Reaches(w) && Ready(w, e, p)
    ensures Reaches(InCall(w, e, p, Claimer(w, p).(stage := Locked), Some(e)))
  {
    CallUntilClaimed(w, e, p);
    var a := InCall(w, e, p, Claimer(w, p), None);
    var b := DoMove(a, e, TakeLock);
    Onward(a, Move(e, TakeLock), b);
    assert b.execs == w.execs[e := Claimer(w, p).(stage := Locked)];
    assert b == InCall(w, e, p, Claimer(w, p).(stage := Locked), Some(e));
  }

  lemma CallUntilCleared(w: World, e: ExecId, p: PlanId)
    requires Reaches(w) && Ready(w, e, p)
    ensures Reaches(InCall(w, e, p, Caller(w, p, Cleared, 0), Some(e)))
  {
    CallUntilLocked(w, e, p);
    var x := Claimer(w, p).(stage := Locked);
    MoveOn(w, e, p, x, ReadPolicy);
    var y := x.(stage := Admitted, policy := HOURLY);
    MoveOn(w, e, p, y, ReadBefore);
    MoveOn(w, e, p, y.(stage := Seen, before := Now(w), mark := |w.collects|), Check);
  }

  lemma CallUntilSent(w: World, e: ExecId, p: PlanId)
    requires Reaches(w) && Ready(w, e, p)
    ensures Reaches(Sending(w, e, p, Waiting))
  {
    CallUntilCleared(w, e, p);
    var a := InCall(w, e, p, Caller(w, p, Cleared, 0), Some(e));
    var b := DoSend(a, e);
    Onward(a, SendCollect(e), b);
    assert b.execs == w.execs[e := Caller(w, p, Waiting, |w.sends|)];
    assert b == Sending(w, e, p, Waiting);
  }

  lemma CallUntilFault(w: World, e: ExecId, p: PlanId)
    requires Reaches(w) && Ready(w, e, p)
    ensures Reaches(Sending(w, e, p, Faulted))
  {
    CallUntilSent(w, e, p);
    var b := Sending(w, e, p, Waiting);
    var c := DoMove(b, e, Fault);
    Onward(b, Move(e, Fault), c);
    assert c.execs == w.execs[e := Caller(w, p, Faulted, |w.sends|)];
    assert c == Sending(w, e, p, Faulted);
  }

  /** The rest of a call whose request has failed: read again, release the lock, write the verdict. */
  lemma EndCall(w: World, e: ExecId, p: PlanId) returns (v: World)
    requires Reaches(w) && At(w, e, Faulted) && w.guard == Some(e) && w.lock == Some(e)
    requires w.execs[e].claim.planId == p && w.execs[e].planId == p && MayFinish(w.plans, w.execs[e].claim)
    ensures Reaches(v)
    ensures var x := Moved(w, w.execs[e], ReadCurrent(true));
            v == w.(execs := w.execs - {e}, guard := None, lock := None,
                    plans := FinishTx(w.plans, x.claim, x.outcome.Status(), x.outcome.Result(), 0),
                    verdicts := w.verdicts + [Verdict(p, !x.claim.recovery, x.outcome, x.mark, x.seen, x.backed)])
  {
    var a := DoMove(w, e, ReadCurrent(true));
    Onward(w, Move(e, ReadCurrent(true)), a);
    var b := DoMove(a, e, ReleaseLock);
    Onward(a, Move(e, ReleaseLock), b);
    v := DoFinish(b, e, 0);
    Onward(b, FinishPlan(e, 0), v);
    assert v.execs == w.execs - {e};
  }

  // ---- the worlds ----

  /** Two plans, 0 and 1, drafted from the same state. */
  lemma TwoPlans() returns (w: World)
    ensures Reaches(w) && w.plans == map[0 := DueRow(w), 1 := DueRow(w)] && w.execs == map[]
    ensures Ready(w, 0, 0) && w.sends == [] && w.collects == [] && !w.guardLost
  {
    var a := World(7, map[], map[], [], 0, map[], None, None, [HOURLY], 7200, None, [], [], [], false);
    Start(a);
    var b := DoPreviewRead(a, 1);
    Onward(a, PreviewRead(1), b);
    var c := DoPreviewSave(b, 0, 0, 1000);
    Onward(b, PreviewSave(0, 0, 1000), c);
    w := DoPreviewSave(c, 0, 1, 1000);
    Onward(c, PreviewSave(0, 1, 1000), w);
  }

  /** Plan `p` was recorded as executed by its direct call, though no collect was ever applied for it. */
  ghost predicate FalselyCredited(w: World, p: PlanId)
  {
    && p in w.plans && w.plans[p].state.Executed? && !OwnSendApplied(w, p, |w.collects|)
    && exists y :: Wrote(w, p, y) && y.direct && y.outcome == Reconciled
  }

  /** A faulted call that finds the game drained, by a collect that was not its own, is recorded as executed. */
  lemma EndsCredited(w: World, e: ExecId, p: PlanId) returns (v: World)
    requires Reaches(w) && At(w, e, Faulted) && w.guard == Some(e) && w.lock == Some(e)
    requires w.execs[e].claim.planId == p && w.execs[e].planId == p && MayFinish(w.plans, w.execs[e].claim)
    requires !w.execs[e].claim.recovery && w.execs[e].claim.policyVersion == 1 && w.execs[e].policy == HOURLY
    requires w.seconds == 0 && w.capacity == None
    requires forall k | 0 <= k < |w.collects| :: !For(w.sends, w.collects[k], p)
    ensures Reaches(v) && FalselyCredited(v, p)
    ensures v.execs == w.execs - {e} && v.sends == w.sends && v.collects == w.collects && v.guardLost == w.guardLost
  {
    v := EndCall(w, e, p);
    var y := v.verdicts[|v.verdicts| - 1];
    assert y.outcome == Reconciled && Wrote(v, p, y);
  }

  /** The request of a faulted call is dropped. */
  lemma RequestDropped(w: World, e: ExecId, p: PlanId) returns (v: World)
    requires Reaches(w) && Ready(w, e, p)
    ensures Reaches(v) && v == Sending(w, e, p, Faulted).(sends := w.sends + [Send(p, e, true, 1, 1, true, Dropped)])
  {
    CallUntilFault(w, e, p);
    var a := Sending(w, e, p, Faulted);
    v := DoDrop(a, |w.sends|);
    Onward(a, DropMessage(|w.sends|), v);
    assert v.sends == w.sends + [Send(p, e, true, 1, 1, true, Dropped)];
  }

  /** The owner collects by hand while the call waits. No lock is lost, and the call's own request is dropped. */
  lemma ForeignCollectIsCredited() returns (w: World)
    ensures Reaches(w) && !w.guardLost && w.collects == [Foreign] && FalselyCredited(w, 0)
    ensures w.sends == [Send(0, 0, true, 1, 1, true, Dropped)]
  {
    var a := TwoPlans();
    var b := RequestDropped(a, 0, 0);
    var c := DoForeignCollect(b, 0);
    Onward(b, ForeignCollect(0), c);
    w := EndsCredited(c, 0, 0);
  }

  lemma FirstCall() returns (w: World)
    ensures Reaches(w) && Ready(w, 0, 1) && !w.guardLost
    ensures w.sends == [Send(0, 0, true, 1, 1, true, InFlight)] && w.collects == []
  {
    var a := TwoPlans();
    CallUntilFault(a, 0, 0);
    w := EndCall(Sending(a, 0, 0, Faulted), 0, 0);
  }

  /** Message 0, sent for plan 0, arrives while call `e` on plan 1 holds the lock, its own request dropped. */
  lemma ArrivesUnattended(w: World, e: ExecId) returns (v: World)
    requires Reaches(w) && Ready(w, e, 1) && w.collects == []
    requires w.sends == [Send(0, 0, true, 1, 1, true, InFlight)] && (e == 0 || At(w, 0, Waiting))
    ensures Reaches(v) && v.collects == [BySend(0, false)] && FalselyCredited(v, 1) && v.guardLost == w.guardLost
    ensures v.sends == [Send(0, 0, true, 1, 1, true, Applied), Send(1, e, true, 1, 1, true, Dropped)]
    ensures e != 0 ==> 0 in v.execs && v.execs[0] == w.execs[0]
  {
    var a := RequestDropped(w, e, 1);
    var b := DoDeliver(a, 0, 0);
    Onward(a, Deliver(0, 0), b);
    assert !Attended(a, 0);
    v := EndsCredited(b, e, 1);
  }

  /** A request that timed out reaches the game while the next plan's call is looking. No lock is lost. */
  lemma LateDeliveryIsCredited() returns (w: World)
    ensures Reaches(w) && !w.guardLost && w.collects == [BySend(0, false)] && FalselyCredited(w, 1)
    ensures forall i | 0 <= i < |w.sends| :: w.sends[i].locked
  {
    var a := FirstCall();
    w := ArrivesUnattended(a, 0);
  }

  lemma ConnectionsLost() returns (w: World)
    ensures Reaches(w) && Ready(w, 1, 1) && w.collects == [] && w.sends == [Send(0, 0, true, 1, 1, true, InFlight)]
    ensures At(w, 0, Waiting) && w.execs[0].send == 0
  {
    var a := TwoPlans();
    CallUntilSent(a, 0, 0);
    var b := Sending(a, 0, 0, Waiting);
    var c := b.(guard := None, guardLost := true);
    Onward(b, LoseGuard, c);
    w := c.(lock := None);
    Onward(c, LoseLock, w);
  }

  /** A call loses its connections while it waits; another call starts, and the first one's request arrives then. The
      first call is still waiting for it, and the second one holds the lock throughout. */
  lemma LostLockIsCredited() returns (w: World)
    ensures Reaches(w) && w.collects == [BySend(0, false)] && FalselyCredited(w, 1)
    ensures At(w, 0, Waiting) && w.execs[0].send == 0
    ensures forall i | 0 <= i < |w.sends| :: w.sends[i].locked
  {
    var a := ConnectionsLost();
    w := ArrivesUnattended(a, 1);
  }

  /** A call dies after it has sent, and `mutate` is then called with its plan: the plan is `failed`, and the collect
      that was sent for it is applied. */
  lemma DeclinedThoughCollected() returns (w: World)
    ensures Reaches(w) && !w.guardLost && 0 in w.plans && w.plans[0].state.Failed? && Declined(w.plans[0])
    ensures OwnSendApplied(w, 0, |w.collects|)
  {
    var a := TwoPlans();
    CallUntilSent(a, 0, 0);
    var b := Sending(a, 0, 0, Waiting);
    var c := Leave(b, 0);
    Onward(b, Crash(0), c);
    var d := DoDecline(c, 0, 5);
    Onward(c, MutateDeclines(0, 5), d);
    w := DoDeliver(d, 0, 0);
    Onward(d, Deliver(0, 0), w);
    assert For(w.sends, w.collects[0], 0);
  }

  /** A call that has lost the account lock sends a plan of a policy that is no longer current. */
  lemma StaleSendIsReached() returns (w: World)
    ensures Reaches(w) && !w.guardLost && w.sends == [Send(0, 0, true, 1, 2, false, InFlight)]
  {
    var a := TwoPlans();
    CallUntilCleared(a, 0, 0);
    var b := InCall(a, 0, 0, Caller(a, 0, Cleared, 0), Some(0));
    var c := b.(lock := None);
    Onward(b, LoseLock, c);
    var d := DoSavePolicy(c, 30);
    Onward(c, SavePolicy(30), d);
    w := DoSend(d, 0);
    Onward(d, SendCollect(0), w);
  }
}
