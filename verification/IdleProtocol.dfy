/**
 * The idle execution protocol (application/idle.py) as a state machine over one account: any number of
 * executors, each inside one `execute` call; the table of plans; the game; and an uncooperative world.
 * Every database transaction, game read and message is one step. Clocks are whatever each step says.
 */
module IdleProtocol {
  import opened Prelude
  import opened IdlePlanner
  import opened IdleClaims

  type ExecId = nat

  /** How far an `execute` call has come. Locked to Decided hold the account lock. */
  datatype Stage =
    | Guarded     // the advisory guard is taken
    | Claimed     // the claim has committed
    | Locked      // the account lock is taken
    | Admitted    // the policy has been read
    | Seen        // the idle state before the send has been read
    | Cleared     // owner, policy version and fingerprint all agree: the send is next
    | Waiting     // the collect request is out
    | Answered    // a well-formed answer came back
    | Faulted     // the request, or the read after it, raised
    | Decided     // the outcome is fixed
    | Finishing   // the account lock is released; the terminal write is next
  {
    predicate HasClaim() { !Guarded? }
    predicate InLock() { !Guarded? && !Claimed? && !Finishing? }
    predicate HasPolicy() { InLock() && !Locked? }
    predicate HasBefore() { HasPolicy() && !Admitted? && !Decided? }
    predicate PassedChecks() { Cleared? || Waiting? || Answered? || Faulted? }
    predicate Sent() { Waiting? || Answered? || Faulted? }
    predicate HasOutcome() { Decided? || Finishing? }
  }

  datatype Outcome = PreconditionFailed | NeedsReconciliation | CollectedNow | Reconciled
  {
    predicate Success() { CollectedNow? || Reconciled? }
    function Status(): PlanState
    {
      match this case PreconditionFailed => Failed case NeedsReconciliation => ReconciliationRequired case _ => Executed
    }
    function Result(): Note
    {
      match this case PreconditionFailed => PreconditionFailedNote case NeedsReconciliation => ReconciliationNote
              case CollectedNow => ExecutedNote(false) case Reconciled => ExecutedNote(true)
    }
  }

  /** One `execute` call. `mark` and `seen` are history: how many collects the game had applied when the
      state before and the state of the verdict were read; `backed` says that the request had been applied when its
      answer came. */
  datatype Exec = Exec(
    planId: PlanId, asked: bool, stage: Stage, claim: Claim, policy: Policy, before: Idle,
    send: nat, outcome: Outcome, mark: nat, seen: nat, backed: bool)

  datatype Transit = InFlight | Applied | Dropped
  /** A collect request: who sent it, for which plan, and history: the versions of the plan and of the policy, and
      whether its sender still held the account lock. */
  datatype Send = Send(planId: PlanId, exec: ExecId, direct: bool, planVersion: nat, current: nat, locked: bool,
                       transit: Transit)

  /** A collect that the game applied. `attended` is history: its sender was still deciding, under the account lock. */
  datatype Collect = BySend(send: nat, attended: bool) | Foreign
  datatype Draft = Draft(version: nat, fingerprint: Fingerprint, mark: nat)
  /** A terminal write that happened. */
  datatype Verdict = Verdict(planId: PlanId, direct: bool, outcome: Outcome, mark: nat, seen: nat, backed: bool)

  datatype World = World(
    account: AccountId,
    plans: map<PlanId, PlanRow>,
    marks: map<PlanId, nat>,        // history: collects applied when the plan's idle state was read
    drafts: seq<Draft>,             // previews that have read but not yet stored
    owners: Owner,
    execs: map<ExecId, Exec>,
    guard: Option<ExecId>,
    lock: Option<ExecId>,
    policies: seq<Policy>,          // every policy saved, oldest first
    seconds: nat,
    capacity: Option<nat>,
    collects: seq<Collect>,         // every collect the game applied
    sends: seq<Send>,
    verdicts: seq<Verdict>,
    guardLost: bool)

  /** What one executor does inside its call without writing the table of plans. */
  datatype Motion =
    | TakeLock
    | ReadPolicy
    | ReadBefore
    | Check
    | Answer
    | Fault
    | ReadAfter(collected: bool)
    | ReadCurrent(readable: bool)
    | RecoverRead
    | ReleaseLock

  datatype Step =
    | Accrue(more: nat)
    | ForeignCollect(left: nat)
    | SavePolicy(minutes: nat)
    | PreviewRead(version: nat)
    | PreviewSave(draft: nat, id: PlanId, expiresAt: int)
    | ConfirmPlan(id: PlanId, now: int)
    | MutateDeclines(id: PlanId, now: int)
    | Begin(e: ExecId, id: PlanId, recovery: bool)
    | TakeClaim(e: ExecId, now: int)
    | Move(e: ExecId, motion: Motion)
    | SendCollect(e: ExecId)
    | Deliver(i: nat, left: nat)
    | DropMessage(i: nat)
    | FinishPlan(e: ExecId, now: int)
    | Crash(e: ExecId)
    | LoseGuard
    | LoseLock

  // ---- the decisions of _send_once and _recover ----

  predicate Clears(owned: bool, policy: Policy, before: Idle, claim: Claim)
  {
    owned && policy.version == claim.policyVersion && FingerprintOf(before, policy) == claim.fingerprint
  }

  function AfterAnswer(collected: bool, before: Idle, after: Idle): Outcome
  {
    if !collected || after.seconds >= before.seconds then NeedsReconciliation else CollectedNow
  }

  /** `current` is None when the read raises. */
  function AfterFault(current: Option<Idle>, policy: Policy, claim: Claim): Outcome
  {
    match current
    case None => NeedsReconciliation
    case Some(idle) =>
      if policy.version == claim.policyVersion && !Collectible(idle, policy) then Reconciled else NeedsReconciliation
  }

  function AfterRecovery(current: Idle, policy: Policy, claim: Claim): Outcome
  {
    if policy.version == claim.policyVersion && !Collectible(current, policy) then Reconciled else NeedsReconciliation
  }

  // ---- steps ----

  const NoClaim := Claim(0, 0, false, 0, Fingerprint(None, false))
  const NoPolicy := Policy(0, 0)
  const NoIdle := Idle(0, None)

  function NewExec(id: PlanId, recovery: bool): Exec
  {
    Exec(id, recovery, Guarded, NoClaim, NoPolicy, NoIdle, 0, NeedsReconciliation, 0, 0, false)
  }

  predicate At(w: World, e: ExecId, stage: Stage) { e in w.execs && w.execs[e].stage == stage }

  function Now(w: World): Idle { Idle(w.seconds, w.capacity) }

  /** The sender of message `i` has not decided yet and still holds the account lock. */
  predicate Attended(w: World, i: nat)
    requires i < |w.sends|
  {
    var e := w.sends[i].exec;
    e in w.execs && w.execs[e].stage.Sent() && w.execs[e].send == i && w.lock == Some(e)
  }

  /** Leaving the lock is committing its transaction, which fails on a lost connection: the call then only crashes. */
  predicate CanMove(w: World, e: ExecId, x: Exec, m: Motion)
  {
    match m
    case TakeLock => x.stage.Claimed? && w.lock == None
    case ReadPolicy => x.stage.Locked?
    case ReadBefore => x.stage.Admitted? && !x.claim.recovery
    case Check => x.stage.Seen?
    case Answer => x.stage.Waiting?
    case Fault => x.stage.Waiting? || x.stage.Answered?
    case ReadAfter(_) => x.stage.Answered?
    case ReadCurrent(_) => x.stage.Faulted?
    case RecoverRead => x.stage.Admitted? && x.claim.recovery
    case ReleaseLock => x.stage.Decided? && w.lock == Some(e)
  }

  function Deciding(w: World, x: Exec, outcome: Outcome): Exec
  {
    x.(stage := Decided, outcome := outcome, seen := |w.collects|)
  }

  function Mark(w: World, id: PlanId): nat { if id in w.marks then w.marks[id] else 0 }

  function CurrentPolicy(w: World): Policy { if w.policies == [] then NoPolicy else w.policies[|w.policies| - 1] }

  /** The executor after motion `m`. */
  function Moved(w: World, x: Exec, m: Motion): Exec
  {
    match m
    case TakeLock => x.(stage := Locked)
    case ReadPolicy => x.(stage := Admitted, policy := CurrentPolicy(w))
    case ReadBefore => x.(stage := Seen, before := Now(w), mark := |w.collects|)
    case Check =>
      if Clears(Owned(w.plans, w.account, x.planId, x.claim.owner), x.policy, x.before, x.claim)
      then x.(stage := Cleared)
      else Deciding(w, x, PreconditionFailed)
    case Answer => x.(stage := Answered, backed := x.send < |w.sends| && w.sends[x.send].transit == Applied)
    case Fault => x.(stage := Faulted)
    case ReadAfter(collected) => Deciding(w, x, AfterAnswer(collected, x.before, Now(w)))
    case ReadCurrent(readable) => Deciding(w, x, AfterFault(if readable then Some(Now(w)) else None, x.policy, x.claim))
    case RecoverRead => Deciding(w, x, AfterRecovery(Now(w), x.policy, x.claim)).(mark := Mark(w, x.planId))
    case ReleaseLock => x.(stage := Finishing)
  }

  function DoMove(w: World, e: ExecId, m: Motion): World
    requires e in w.execs
  {
    w.(execs := w.execs[e := Moved(w, w.execs[e], m)],
       lock := if m.TakeLock? then Some(e) else if m.ReleaseLock? then None else w.lock)
  }

  /** The call ends: its session locks go with it. */
  function Leave(w: World, e: ExecId): World
  {
    w.(execs := w.execs - {e},
       guard := if w.guard == Some(e) then None else w.guard,
       lock := if w.lock == Some(e) then None else w.lock)
  }

  function DoForeignCollect(w: World, left: nat): World
  {
    w.(seconds := left, collects := w.collects + [Foreign])
  }

  function DoSavePolicy(w: World, minutes: nat): World
  {
    w.(policies := w.policies + [Policy(|w.policies| + 1, minutes)])
  }

  function DoPreviewRead(w: World, v: nat): World
    requires 1 <= v <= |w.policies|
  {
    var policy := w.policies[v - 1];
    if Collectible(Now(w), policy)
    then w.(drafts := w.drafts + [Draft(policy.version, FingerprintOf(Now(w), policy), |w.collects|)])
    else w
  }

  function DoPreviewSave(w: World, d: nat, id: PlanId, expiresAt: int): World
    requires d < |w.drafts|
  {
    w.(plans := w.plans[id := DraftRow(w.account, w.drafts[d].fingerprint, w.drafts[d].version, expiresAt)],
       marks := w.marks[id := w.drafts[d].mark])
  }

  function DoConfirm(w: World, id: PlanId): World
    requires id in w.plans
  {
    w.(plans := w.plans[id := w.plans[id].(state := Confirmed)])
  }

  /** `mutate` runs under the account lock, from its look at the plan to the commit. */
  function DoDecline(w: World, id: PlanId, now: int): World
    requires id in w.plans
  {
    w.(plans := DeclineTx(w.plans, id, now))
  }

  function DoBegin(w: World, e: ExecId, id: PlanId, recovery: bool): World
  {
    w.(execs := w.execs[e := NewExec(id, recovery)], guard := Some(e))
  }

  function DoTakeClaim(w: World, e: ExecId, now: int): World
    requires e in w.execs
  {
    var x := w.execs[e];
    var (reply, plans) := ClaimTx(w.plans, w.account, x.planId, w.owners, now, x.asked);
    var v := w.(plans := plans, owners := w.owners + 1);
    match reply
    case Refused(_) => Leave(v, e)
    case Granted(claim) => v.(execs := w.execs[e := x.(stage := Claimed, claim := claim)])
  }

  function DoSend(w: World, e: ExecId): World
    requires e in w.execs
  {
    var x := w.execs[e];
    w.(execs := w.execs[e := x.(stage := Waiting, send := |w.sends|)],
       sends := w.sends + [Send(x.planId, e, !x.claim.recovery, x.claim.policyVersion, |w.policies|,
                                w.lock == Some(e), InFlight)])
  }

  function DoDeliver(w: World, i: nat, left: nat): World
    requires i < |w.sends|
  {
    w.(seconds := left, collects := w.collects + [BySend(i, Attended(w, i))],
       sends := w.sends[i := w.sends[i].(transit := Applied)])
  }

  function DoDrop(w: World, i: nat): World
    requires i < |w.sends|
  {
    w.(sends := w.sends[i := w.sends[i].(transit := Dropped)])
  }

  function DoFinish(w: World, e: ExecId, now: int): World
    requires e in w.execs
  {
    var x := w.execs[e];
    Leave(w, e).(
      plans := FinishTx(w.plans, x.claim, x.outcome.Status(), x.outcome.Result(), now),
      verdicts := if MayFinish(w.plans, x.claim)
                  then w.verdicts + [Verdict(x.planId, !x.claim.recovery, x.outcome, x.mark, x.seen, x.backed)]
                  else w.verdicts)
  }

  /** Step `s` takes world `w` to world `v`. */
  predicate Next(w: World, s: Step, v: World)
  {
    match s
    case Accrue(more) => v == w.(seconds := w.seconds + more)
    case ForeignCollect(left) => left <= w.seconds && v == DoForeignCollect(w, left)
    case SavePolicy(minutes) => w.lock == None && v == DoSavePolicy(w, minutes)
    case PreviewRead(n) => 1 <= n <= |w.policies| && v == DoPreviewRead(w, n)
    case PreviewSave(d, id, expiresAt) => d < |w.drafts| && id !in w.plans && v == DoPreviewSave(w, d, id, expiresAt)
    case ConfirmPlan(id, now) => MayConfirm(w.plans, w.account, id, now) && v == DoConfirm(w, id)
    case MutateDeclines(id, now) =>
      w.lock == None && Visible(w.plans, w.account, id) && w.plans[id].state.Executing? && v == DoDecline(w, id, now)
    case Begin(e, id, recovery) => e !in w.execs && w.guard == None && v == DoBegin(w, e, id, recovery)
    case TakeClaim(e, now) => At(w, e, Guarded) && v == DoTakeClaim(w, e, now)
    case Move(e, m) => e in w.execs && CanMove(w, e, w.execs[e], m) && v == DoMove(w, e, m)
    case SendCollect(e) => At(w, e, Cleared) && v == DoSend(w, e)
    case Deliver(i, left) =>
      i < |w.sends| && w.sends[i].transit == InFlight && left <= w.seconds && v == DoDeliver(w, i, left)
    case DropMessage(i) => i < |w.sends| && w.sends[i].transit == InFlight && v == DoDrop(w, i)
    case FinishPlan(e, now) => At(w, e, Finishing) && v == DoFinish(w, e, now)
    case Crash(e) => e in w.execs && v == Leave(w, e)
    case LoseGuard => w.guard.Some? && v == w.(guard := None, guardLost := true)
    case LoseLock => w.lock.Some? && v == w.(lock := None)
  }

  // ---- runs ----

  predicate Init(w: World)
  {
    && w.plans == map[] && w.marks == map[] && w.drafts == [] && w.execs == map[]
    && w.guard == None && w.lock == None
    && |w.policies| == 1 && w.policies[0].version == 1
    && w.collects == [] && w.sends == [] && w.verdicts == []
    && !w.guardLost
  }

  /** `ws` is a run: every world follows from the one before it by some step. */
  ghost predicate Run(ws: seq<World>)
  {
    |ws| > 0 && forall i | 0 < i < |ws| :: Linked(ws[i-1], ws[i])
  }

  ghost predicate Linked(w: World, v: World) { exists s :: Next(w, s, v) }
}
