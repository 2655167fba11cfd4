/** `AccountService.mutate` (accounts/service.py): the conflict loop around one mutating operation. */
module Mutation {
  import opened Prelude
  import opened GameClient
  import IdleClaims

  type PlanId = nat

  /** The plan columns that `mutate` reads and writes. */
  datatype Plan = Plan(account: nat, fingerprint: string, policyVersion: nat, expiresAt: int,
                       confirmationRequired: bool, confirmed: bool, state: IdleClaims.PlanState)

  // ---- exceptions ----

  datatype GameError = GSessionRejected | GClientVersion | GInventoryFull | GInsufficientResource | GConflict
                     | GRateLimited | GAmbiguous | GUnavailable | GSchemaMismatch | GHttp
  datatype AccountError = AccountNotFound | AccountDisabled | AccountPaused | AccountRemoved | AuthenticationRequired
                        | PolicyUnavailable | ReconciliationRequired | PlanPreconditionFailed
  datatype Exn = Game(game: GameError) | Account(account: AccountError) | Foreign | Cancelled

  /** `_public_error`. */
  function PublicError(f: Failure): GameError
  {
    match f
    case Ambiguous => GAmbiguous
    case Unavailable => GUnavailable
    case SessionRejected => GSessionRejected
    case ClientVersionRejected(_) => GClientVersion
    case InventoryFull => GInventoryFull
    case InsufficientResource => GInsufficientResource
    case Conflict(_) => GConflict
    case RateLimited => GRateLimited
    case SchemaMismatch => GSchemaMismatch
    case HttpError => GHttp
  }

  // ---- what the world answers in one round of the loop ----

  /** The row lock, admission, session, snapshot and policy, in that order: all come before the plan is looked at. */
  datatype Admission = Admitted(policyVersion: nat) | NotAdmitted(exn: Exn)
  /** The caller's fingerprint resolver. */
  datatype Resolved = Resolved(text: string) | ResolverRaised(exn: Exn)
  /** How the caller's operation ends once its one request has been made. */
  datatype Ending = Completes | CancelledMeanwhile | RaisesAfterwards
  /** `bootstrap` raises nothing but game errors and cancellation. */
  datatype Boot = BootOk | BootRaised(game: GameError) | BootCancelled
  datatype Verify = Verified | Refuted | VerifyRaised(exn: Exn)

  datatype Round = Round(admission: Admission, now: int, resolved: Resolved, ending: Ending, boot: Boot,
                         verify: Verify, sleepCancelled: bool)

  /** What one invocation of the operation looked like to `mutate`. */
  datatype Invocation = Done | RaisedGame(game: GameError) | RaisedForeign | WasCancelled

  /** The game declined: nothing was applied and trying again is safe. */
  predicate Declined(i: Invocation)
  {
    i == RaisedGame(GConflict) || i == RaisedGame(GSessionRejected)
  }

  datatype Result =
    | Returned(reconciled: bool)
    | Raised(exn: Exn)
    | CancelledAfterCommit     // CancelledError re-raised once the transaction has committed
    | RolledBack               // CancelledError straight through the transaction: nothing is kept

  // ---- the caller's operation: one mutating request ----

  class Operation {
    const client: HttpGameClient
    var log: seq<Invocation>

    constructor (client: HttpGameClient)
      ensures this.client == client && log == []
    {
      this.client, log := client, [];
    }

    /** The request: every exchange but the last was refused, and the last one decides. */
    method Request() returns (outcome: Outcome)
      modifies client.wire, client.version
      ensures old(client.wire.log) < client.wire.log
      ensures forall i | |old(client.wire.log)| <= i < |client.wire.log| - 1 :: Refused(client.wire.log[i])
      ensures outcome == MutationResult(client.wire.log[|client.wire.log| - 1])
      ensures Means(client.wire.log[|client.wire.log| - 1], outcome, Ambiguous)
    {
      ghost var before, was := client.wire.log, client.version.value;
      outcome := client.RequestOutcome(true);
      MutationsAreRefusedFirst(before, client.wire.log, outcome, client.wire.others, was, client.version.value);
      MutationsSayWhatWasDone(before, client.wire.log, outcome, client.wire.others, was, client.version.value);
    }

    /** Every exchange but the last of an invocation was refused; so was the last one, if the result is a conflict. */
    method Invoke(ending: Ending) returns (result: Invocation)
      modifies this, client.wire, client.version
      ensures log == old(log) + [result]
      ensures old(client.wire.log) < client.wire.log
      ensures forall i | |old(client.wire.log)| <= i < |client.wire.log| - 1 :: Refused(client.wire.log[i])
      ensures result == RaisedGame(GConflict) ==> Refused(client.wire.log[|client.wire.log| - 1])
      ensures Tells(result, ending, client.wire.log[|client.wire.log| - 1])
    {
      var outcome := Request();
      result := Seen(outcome, ending);
      log := log + [result];
    }
  }

  /** What an invocation says of the last exchange of its request. */
  predicate Tells(value: Invocation, ending: Ending, last: Exchange)
  {
    && (value == WasCancelled <==> ending.CancelledMeanwhile?)
    && (value == Done <==> ending.Completes? && Worked(last))
    && (value == RaisedForeign <==> ending.RaisesAfterwards? && Worked(last))
    && (!ending.CancelledMeanwhile? ==>
          && (value == RaisedGame(GAmbiguous) <==> Unclear(last))
          && (value == RaisedGame(GConflict) <==> Conflicts(last))
          && (value == RaisedGame(GSessionRejected) <==> SessionGone(last))
          && (value == RaisedGame(GSchemaMismatch) <==> Garbled(last))
          && (value == RaisedGame(GClientVersion) <==> last.Answered? && last.status == 426))
  }

  /** What `mutate` sees of an operation whose request had the outcome. */
  function Seen(outcome: Outcome, ending: Ending): (result: Invocation)
    ensures result == RaisedGame(GConflict) ==> outcome.Failed? && outcome.failure.Conflict?
  {
    match ending
    case CancelledMeanwhile => WasCancelled
    case RaisesAfterwards => if outcome.Failed? then RaisedGame(PublicError(outcome.failure)) else RaisedForeign
    case Completes => if outcome.Failed? then RaisedGame(PublicError(outcome.failure)) else Done
  }

  // ---- decisions within one round ----

  /** `_check_plan`, in the order in which it raises. */
  predicate Refuses(p: Plan, account: nat, policyVersion: nat, now: int)
  {
    || p.account != account || p.expiresAt <= now || !p.state.Open()
    || (p.confirmationRequired && !p.confirmed) || p.policyVersion != policyVersion
  }

  /** What precedes the operation: go ahead, raise, or raise with the plan already validated. */
  datatype Start = Go(validated: Option<PlanId>) | StopBefore(exn: Exn, validated: Option<PlanId>)

  function StartOf(round: Round, plans: map<PlanId, Plan>, account: nat, planId: Option<PlanId>,
                   hasResolver: bool): Start
  {
    if round.admission.NotAdmitted? then StopBefore(round.admission.exn, None)
    else if planId.None? then Go(None)
    else if planId.value !in plans || plans[planId.value].account != account then
      StopBefore(Account(PlanPreconditionFailed), None)
    else if Refuses(plans[planId.value], account, round.admission.policyVersion, round.now) || !hasResolver then
      StopBefore(Account(PlanPreconditionFailed), planId)
    else if round.resolved.ResolverRaised? then StopBefore(round.resolved.exn, planId)
    else if !(1 <= |round.resolved.text| <= 128) || round.resolved.text != plans[planId.value].fingerprint then
      StopBefore(Account(PlanPreconditionFailed), planId)
    else Go(planId)
  }

  /** How a round ends once the operation has been invoked. */
  datatype End =
    | Success(reconciled: bool)
    | CancelledEnd
    | Raises(exn: Exn)
    | RejectedEnd          // the plan fails, then AuthenticationRequired
    | Retry
    | RollBack

  function ConflictEnd(round: Round, attempt: nat): End
  {
    if attempt >= 2 then Raises(Game(GConflict))
    else match round.boot
      case BootCancelled => RollBack
      case BootRaised(g) => Raises(Game(g))
      case BootOk => if round.sleepCancelled then RollBack else Retry
  }

  function VerifyEnd(verify: Verify, reconciled: bool): End
  {
    match verify
    case Verified => Success(reconciled)
    case Refuted => Raises(Account(ReconciliationRequired))
    case VerifyRaised(exn) =>
      if exn == Cancelled then CancelledEnd
      else if exn == Game(GSchemaMismatch) then Raises(exn)
      else Raises(Account(ReconciliationRequired))
  }

  /** `bootstrap`, then `verify` if there is one. */
  function ConfirmEnd(round: Round, hasVerify: bool, reconciled: bool): End
  {
    match round.boot
    case BootCancelled => CancelledEnd
    case BootRaised(g) => Raises(if g == GSchemaMismatch then Game(g) else Account(ReconciliationRequired))
    case BootOk => if hasVerify then VerifyEnd(round.verify, reconciled) else Success(reconciled)
  }

  function EndOf(value: Invocation, round: Round, attempt: nat, hasVerify: bool): End
  {
    match value
    case WasCancelled => CancelledEnd
    case RaisedForeign => Raises(Foreign)
    case Done => ConfirmEnd(round, hasVerify, false)
    case RaisedGame(g) =>
      if g == GConflict then ConflictEnd(round, attempt)
      else if g == GAmbiguous then
        if hasVerify then ConfirmEnd(round, true, true) else Raises(Account(ReconciliationRequired))
      else if g == GSessionRejected then RejectedEnd
      else Raises(Game(g))
  }

  // ---- what a call promises, in terms of the plan's columns and of what the world answered ----

  /** The plan may be executed now. */
  predicate InOrder(plans: map<PlanId, Plan>, id: PlanId, account: nat, policyVersion: nat, now: int)
  {
    && id in plans && plans[id].account == account
    && (plans[id].state == IdleClaims.Pending || plans[id].state == IdleClaims.Confirmed)
    && now < plans[id].expiresAt && (plans[id].confirmationRequired ==> plans[id].confirmed)
    && plans[id].policyVersion == policyVersion
  }

  /** What has to hold for the operation to be invoked in the round. */
  predicate Gate(r: Round, plans: map<PlanId, Plan>, account: nat, planId: Option<PlanId>, hasResolver: bool)
  {
    && r.admission.Admitted?
    && (planId.Some? ==>
          && InOrder(plans, planId.value, account, r.admission.policyVersion, r.now)
          && hasResolver && r.resolved == Resolved(plans[planId.value].fingerprint)
          && 1 <= |plans[planId.value].fingerprint| <= 128)
  }

  /** How an exception that is caught before the operation is invoked leaves the call. */
  predicate RaisedAs(exn: Exn, result: Result)
  {
    result == if exn.Cancelled? then RolledBack
              else if exn.Foreign? then Raised(Account(ReconciliationRequired)) else Raised(exn)
  }

  function With(plans: map<PlanId, Plan>, id: PlanId, state: IdleClaims.PlanState): map<PlanId, Plan>
    requires id in plans
  {
    plans[id := plans[id].(state := state)]
  }

  /** What becomes of the call and the plan when the gate is closed in round `r`. */
  predicate Stopped(r: Round, was: map<PlanId, Plan>, account: nat, planId: Option<PlanId>, hasResolver: bool,
                    result: Result, plans: map<PlanId, Plan>)
  {
    if r.admission.NotAdmitted? then RaisedAs(r.admission.exn, result) && plans == was
    else
      && planId.Some?
      && var id := planId.value;
         if id !in was || was[id].account != account then
           result == Raised(Account(PlanPreconditionFailed)) && plans == was
         else if InOrder(was, id, account, r.admission.policyVersion, r.now) && hasResolver
                 && r.resolved.ResolverRaised?
         then
           && RaisedAs(r.resolved.exn, result)
           && plans == if r.resolved.exn in {Account(PlanPreconditionFailed), Game(GConflict)}
                       then With(was, id, IdleClaims.Failed) else was
         else
           && result == Raised(Account(PlanPreconditionFailed))
           && plans == if was[id].state.Terminal() then was else With(was, id, IdleClaims.Failed)
  }

  /** `bootstrap` succeeded, and so did the verifier, if there is one. */
  predicate Confirms(r: Round, hasVerify: bool) { r.boot.BootOk? && (hasVerify ==> r.verify == Verified) }

  predicate CancelsConfirming(r: Round, hasVerify: bool)
  {
    r.boot.BootCancelled? || (r.boot.BootOk? && hasVerify && r.verify == VerifyRaised(Cancelled))
  }

  predicate GarblesConfirming(r: Round, hasVerify: bool)
  {
    || r.boot == BootRaised(GSchemaMismatch)
    || (r.boot.BootOk? && hasVerify && r.verify == VerifyRaised(Game(GSchemaMismatch)))
  }

  /** The invocation is followed by a confirmation: it was done, or may have been and can be verified. */
  predicate ToConfirm(v: Invocation, hasVerify: bool) { v == Done || (v == RaisedGame(GAmbiguous) && hasVerify) }

  /** The `n`-th conflict is followed by another round. */
  predicate GoesOn(v: Invocation, r: Round, n: nat)
  {
    v == RaisedGame(GConflict) && n < 3 && r.boot.BootOk? && !r.sleepCancelled
  }

  /** What becomes of a call whose last invocation, the `n`-th, was `v`, in round `r`. */
  predicate Promised(v: Invocation, r: Round, n: nat, hasVerify: bool, result: Result)
  {
    // success exactly if the operation was done, or was verified, and the confirmation went well
    && (result == Returned(false) <==> v == Done && Confirms(r, hasVerify))
    && (result == Returned(true) <==> v == RaisedGame(GAmbiguous) && hasVerify && Confirms(r, hasVerify))
    && (result == CancelledAfterCommit <==>
          v == WasCancelled || (ToConfirm(v, hasVerify) && CancelsConfirming(r, hasVerify)))
    && (result == RolledBack <==>
          v == RaisedGame(GConflict) && n < 3 && (r.boot.BootCancelled? || (r.boot.BootOk? && r.sleepCancelled)))
    && (result.Raised? ==> result.exn == RaisedFor(v, r, n, hasVerify))
  }

  /** The exception, if there is one. */
  function RaisedFor(v: Invocation, r: Round, n: nat, hasVerify: bool): Exn
  {
    if v == RaisedGame(GSessionRejected) then Account(AuthenticationRequired)
    else if v == RaisedGame(GConflict) then if n < 3 && r.boot.BootRaised? then Game(r.boot.game) else Game(GConflict)
    else if ToConfirm(v, hasVerify) && GarblesConfirming(r, hasVerify) then Game(GSchemaMismatch)
    else if v.RaisedGame? && v != RaisedGame(GAmbiguous) then Game(v.game)
    else Account(ReconciliationRequired)
  }

  /** And of its plan. */
  predicate PlanPromised(v: Invocation, r: Round, n: nat, result: Result, was: map<PlanId, Plan>, id: PlanId,
                         plans: map<PlanId, Plan>)
  {
    && id in was
    && plans == if result.Returned? then With(was, id, IdleClaims.Executed)
                else if result.RolledBack? then was
                else if v == RaisedGame(GSessionRejected)
                        || (v == RaisedGame(GConflict) && (n >= 3 || r.boot == BootRaised(GConflict)))
                then With(was, id, IdleClaims.Failed)
                else With(was, id, IdleClaims.ReconciliationRequired)
  }

  /** What each way to end means for the outcome. */
  predicate EndMeans(end: End, v: Invocation, r: Round, n: nat, hasVerify: bool)
  {
    match end
    case Success(reconciled) => Promised(v, r, n, hasVerify, Returned(reconciled))
    case CancelledEnd => Promised(v, r, n, hasVerify, CancelledAfterCommit) && !Declined(v)
    case RollBack => Promised(v, r, n, hasVerify, RolledBack) && v == RaisedGame(GConflict)
    case RejectedEnd => v == RaisedGame(GSessionRejected)
    case Raises(exn) =>
      && !exn.Cancelled? && v != RaisedGame(GSessionRejected)
      && Promised(v, r, n, hasVerify, Raised(if exn.Foreign? then Account(ReconciliationRequired) else exn))
    case Retry => GoesOn(v, r, n)
  }

  lemma EndsAsPromised(end: End, v: Invocation, r: Round, attempt: nat, hasVerify: bool)
    requires end == EndOf(v, r, attempt, hasVerify)
    ensures EndMeans(end, v, r, attempt + 1, hasVerify)
  {}

  lemma OpenGate(r: Round, plans: map<PlanId, Plan>, account: nat, planId: Option<PlanId>, hasResolver: bool)
    requires StartOf(r, plans, account, planId, hasResolver).Go?
    ensures Gate(r, plans, account, planId, hasResolver)
  {}

  // ---- the plan rows and the audit, inside one transaction ----

  class AccountService {
    const operation: Operation
    const rounds: nat -> Round
    var plans: map<PlanId, Plan>
    var audits: nat   // `account.mutate` events

    constructor (operation: Operation, rounds: nat -> Round, plans: map<PlanId, Plan>)
      ensures this.operation == operation && this.rounds == rounds && this.plans == plans && audits == 0
    {
      this.operation, this.rounds, this.plans, audits := operation, rounds, plans, 0;
    }

    /** `PostgresPlanStore.finish`; false is PlanPreconditionFailed, and then nothing is written. */
    method FinishRow(id: PlanId, status: IdleClaims.PlanState) returns (written: bool)
      modifies this`plans
      ensures written == (status.Terminal() && id in old(plans) && !old(plans)[id].state.Terminal())
      ensures plans == if written then old(plans)[id := old(plans)[id].(state := status)] else old(plans)
    {
      if !status.Terminal() { return false; }
      if id !in plans { return false; }
      if plans[id].state.Terminal() { return false; }
      plans := plans[id := plans[id].(state := status)];
      return true;
    }

    /** How `mutate` uses it: only if there is a plan, and only on a row that it has seen open. It never raises
        there. */
    method FinishPlan(id: Option<PlanId>, status: IdleClaims.PlanState)
      requires status.Terminal() && (id.Some? ==> id.value in plans && !plans[id.value].state.Terminal())
      modifies this`plans
      ensures plans == if id.Some? then old(plans)[id.value := old(plans)[id.value].(state := status)] else old(plans)
    {
      if id.Some? {
        var written := FinishRow(id.value, status);
        assert written;
      }
    }

    /** `except Exception`: the plan's terminal state, the audit, and the exception for the caller. */
    method Handle(exn: Exn, validated: Option<PlanId>, sendStarted: bool) returns (result: Result)
      requires !exn.Cancelled? && (validated.Some? ==> validated.value in plans)
      modifies this
      ensures result == Raised(if exn.Foreign? then Account(ReconciliationRequired) else exn)
      ensures audits == old(audits) + 1
      ensures var failed := exn == Account(PlanPreconditionFailed) || exn == Game(GConflict);
              plans == if validated.Some? && (failed || sendStarted) && !old(plans)[validated.value].state.Terminal()
                       then old(plans)[validated.value := old(plans)[validated.value].(
                              state := if failed then IdleClaims.Failed else IdleClaims.ReconciliationRequired)]
                       else old(plans)
    {
      var pending := if exn.Game? || exn.Account? then exn else Account(ReconciliationRequired);
      if validated.Some? {
        var failed := exn == Account(PlanPreconditionFailed) || exn == Game(GConflict);
        if (failed || sendStarted) && !plans[validated.value].state.Terminal() {
          FinishPlan(validated, if failed then IdleClaims.Failed else IdleClaims.ReconciliationRequired);
        }
      }
      audits := audits + 1;
      result := Raised(pending);
    }

    /** The state of the named plan, for specifications. */
    ghost function StateOf(id: Option<PlanId>): Option<IdleClaims.PlanState>
      reads this
    {
      if id.Some? && id.value in plans then Some(plans[id.value].state) else None
    }

    /** How a call may leave the plan and the audit, given the invocations it made. */
    ghost predicate Consistent(planId: Option<PlanId>, before: map<PlanId, Plan>, auditsBefore: nat,
                               log: seq<Invocation>, result: Result)
      reads this
    {
      var was := if planId.Some? && planId.value in before then Some(before[planId.value].state) else None;
      var now := StateOf(planId);
      // only the named plan can change
      && plans.Keys == before.Keys && (forall p | p in plans && planId != Some(p) :: plans[p] == before[p])
      // success is recorded as executed, and only after the operation succeeded or was verified
      && (result.Returned? ==>
            && log != [] && log[|log|-1] == (if result.reconciled then RaisedGame(GAmbiguous) else Done)
            && (planId.Some? ==> now == Some(IdleClaims.Executed)))
      // and nothing else is
      && (now == Some(IdleClaims.Executed) && was != now ==> result.Returned?)
      // a plan that newly failed was declined every time it was tried
      && (now == Some(IdleClaims.Failed) && was != now ==> forall i | 0 <= i < |log| :: Declined(log[i]))
      // reconciliation is never asked for before something was sent
      && (now == Some(IdleClaims.ReconciliationRequired) && was != now ==> log != [])
      // no plan is left in, or moved to, a state on the way
      && (now != was ==> now.Some? && now.value.Terminal())
      // a session that was rejected fails the plan
      && (log != [] && log[|log|-1] == RaisedGame(GSessionRejected) ==>
            result == Raised(Account(AuthenticationRequired)) && (planId.Some? ==> now == Some(IdleClaims.Failed)))
      // an attempt that may have been applied, and was not shown to be, needs reconciliation
      && (log != [] && !Declined(log[|log|-1]) && !result.Returned? ==>
            !result.RolledBack? && (planId.Some? ==> now == Some(IdleClaims.ReconciliationRequired)))
      // one audit event, unless the transaction is rolled back, which keeps nothing of a call that applied nothing
      && audits == auditsBefore + (if result.RolledBack? then 0 else 1)
      && (result.RolledBack? ==> plans == before && forall i | 0 <= i < |log| :: Declined(log[i]))
      && (result.Raised? ==> !result.exn.Foreign? && !result.exn.Cancelled?)
    }

    /** There has been no invocation yet, or the last one was a conflict that goes on: another one is due. */
    predicate Asks(log: seq<Invocation>, rounds: nat -> Round)
    {
      log == [] || GoesOn(log[|log|-1], rounds(|log| - 1), |log|)
    }

    predicate AllDeclined(log: seq<Invocation>) { forall i | 0 <= i < |log| :: Declined(log[i]) }

    predicate Remains(was: Option<IdleClaims.PlanState>, now: Option<IdleClaims.PlanState>, log: seq<Invocation>,
                      rounds: nat -> Round)
    {
      || now == was || now == Some(IdleClaims.Failed)
      || (now == Some(IdleClaims.ReconciliationRequired) && log != [] && log[|log|-1] == RaisedGame(GConflict)
          && rounds(|log| - 1).boot.BootRaised?)
    }

    /** What precedes the operation has raised. */
    method Stop(start: Start, round: Round, account: nat, planId: Option<PlanId>, hasResolver: bool,
                ghost log: seq<Invocation>) returns (result: Result)
      requires start == StartOf(round, plans, account, planId, hasResolver) && start.StopBefore?
      requires forall i | 0 <= i < |log| :: log[i] == RaisedGame(GConflict)
      modifies this
      ensures Consistent(planId, old(plans), old(audits), log, result) && !result.Returned?
      ensures Remains(old(StateOf(planId)), StateOf(planId), log, rounds)
      ensures !Gate(round, old(plans), account, planId, hasResolver)
      ensures Stopped(round, old(plans), account, planId, hasResolver, result, plans)
    {
      if start.exn.Cancelled? { return RolledBack; }
      result := Handle(start.exn, start.validated, false);
    }

    /** The end of the last round, carried out. */
    method Conclude(end: End, value: Invocation, planId: Option<PlanId>, validated: Option<PlanId>,
                    ghost log: seq<Invocation>, round: Round, attempt: nat, hasVerify: bool) returns (result: Result)
      requires end == EndOf(value, round, attempt, hasVerify) && !end.Retry?
      requires validated == planId && (planId.Some? ==> planId.value in plans && plans[planId.value].state.Open())
      requires log != [] && log[|log|-1] == value && |log| == attempt + 1 <= 3
      requires forall i | 0 <= i < |log| - 1 :: log[i] == RaisedGame(GConflict)
      modifies this
      ensures Consistent(planId, old(plans), old(audits), log, result)
      ensures Declined(value) && round == rounds(|log| - 1) ==>
                Remains(old(StateOf(planId)), StateOf(planId), log, rounds)
      ensures Promised(value, round, |log|, hasVerify, result)
      ensures if planId.Some? then PlanPromised(value, round, |log|, result, old(plans), planId.value, plans)
              else plans == old(plans)
    {
      EndsAsPromised(end, value, round, attempt, hasVerify);
      match end {
        case Success(reconciled) =>
          FinishPlan(validated, IdleClaims.Executed);
          audits := audits + 1;
          result := Returned(reconciled);
        case CancelledEnd =>
          FinishPlan(validated, IdleClaims.ReconciliationRequired);
          audits := audits + 1;
          result := CancelledAfterCommit;
        case RejectedEnd =>
          FinishPlan(validated, IdleClaims.Failed);
          result := Handle(Account(AuthenticationRequired), validated, true);
        case Raises(exn) =>
          result := Handle(exn, validated, true);
        case RollBack =>
          result := RolledBack;
      }
    }

    /** The exchange that the last invocation ended with. */
    ghost predicate LastTold(value: Invocation, ending: Ending)
      reads operation.client.wire
    {
      var wire := operation.client.wire.log;
      |wire| > 0 && Tells(value, ending, wire[|wire|-1])
    }

    /** One round from the invocation on; None if there is to be another round. */
    method Try(planId: Option<PlanId>, round: Round, attempt: nat, hasVerify: bool) returns (ended: Option<Result>)
      requires |operation.log| == attempt < 3 && round == rounds(attempt)
      requires planId.Some? ==> planId.value in plans && plans[planId.value].state.Open()
      requires forall i | 0 <= i < |operation.log| :: operation.log[i] == RaisedGame(GConflict)
      requires forall i | 0 <= i < |operation.client.wire.log| :: Refused(operation.client.wire.log[i])
      modifies this, operation, operation.client.wire, operation.client.version
      ensures |operation.log| == attempt + 1 && old(operation.log) <= operation.log
      ensures forall i | 0 <= i < |operation.client.wire.log| - 1 :: Refused(operation.client.wire.log[i])
      ensures var value := operation.log[attempt];
              && LastTold(value, round.ending)
              && (ended.None? <==> GoesOn(value, round, attempt + 1))
              && (ended.None? ==>
                    && plans == old(plans) && audits == old(audits)
                    && forall i | 0 <= i < |operation.client.wire.log| :: Refused(operation.client.wire.log[i]))
              && (ended.Some? ==>
                    && Consistent(planId, old(plans), old(audits), operation.log, ended.value)
                    && (Declined(value) ==> Remains(old(StateOf(planId)), StateOf(planId), operation.log, rounds))
                    && Promised(value, round, attempt + 1, hasVerify, ended.value)
                    && (if planId.Some?
                        then PlanPromised(value, round, attempt + 1, ended.value, old(plans), planId.value, plans)
                        else plans == old(plans)))
    {
      var value := operation.Invoke(round.ending);
      var end := EndOf(value, round, attempt, hasVerify);
      if end.Retry? { return None; }
      var result := Conclude(end, value, planId, planId, operation.log, round, attempt, hasVerify);
      ended := Some(result);
    }

    /**
     * The operation is invoked exactly as long as the gate is open and conflicts go on. A closed gate decides on the
     * exception and the plan; otherwise the last invocation and its confirmation do, and what that invocation was is
     * what its last exchange with the game says.
     */
    ghost predicate Kept(account: nat, planId: Option<PlanId>, hasResolver: bool, hasVerify: bool,
                         was: map<PlanId, Plan>, result: Result)
      reads this, operation, operation.client.wire
    {
      var log := operation.log;
      && (forall i | 0 <= i < |log| :: Gate(rounds(i), was, account, planId, hasResolver))
      && if Asks(log, rounds) then
           && !Gate(rounds(|log|), was, account, planId, hasResolver)
           && Stopped(rounds(|log|), was, account, planId, hasResolver, result, plans)
         else
           && LastTold(log[|log|-1], rounds(|log| - 1).ending)
           && Promised(log[|log|-1], rounds(|log| - 1), |log|, hasVerify, result)
           && if planId.Some?
              then PlanPromised(log[|log|-1], rounds(|log| - 1), |log|, result, was, planId.value, plans)
              else plans == was
    }

    /** One round of the loop; None if there is to be another one. */
    method RunRound(account: nat, planId: Option<PlanId>, hasResolver: bool, hasVerify: bool, attempt: nat)
      returns (ended: Option<Result>)
      requires |operation.log| == attempt < 3 && Asks(operation.log, rounds)
      requires forall i | 0 <= i < attempt :: operation.log[i] == RaisedGame(GConflict)
      requires forall i | 0 <= i < attempt :: Gate(rounds(i), plans, account, planId, hasResolver)
      requires forall i | 0 <= i < |operation.client.wire.log| :: Refused(operation.client.wire.log[i])
      modifies this, operation, operation.client.wire, operation.client.version
      ensures ended.None? ==>
                && |operation.log| == attempt + 1 < 3 && operation.log[attempt] == RaisedGame(GConflict)
                && Gate(rounds(attempt), plans, account, planId, hasResolver)
                && (forall i | 0 <= i < |operation.client.wire.log| :: Refused(operation.client.wire.log[i]))
                && plans == old(plans) && audits == old(audits) && Asks(operation.log, rounds)
      ensures old(operation.log) <= operation.log
      ensures ended.Some? ==>
                && attempt <= |operation.log| <= attempt + 1
                && (forall i | 0 <= i < |operation.client.wire.log| - 1 :: Refused(operation.client.wire.log[i]))
                && Consistent(planId, old(plans), old(audits), operation.log, ended.value)
                && (AllDeclined(operation.log) ==>
                      Remains(old(StateOf(planId)), StateOf(planId), operation.log, rounds))
                && Kept(account, planId, hasResolver, hasVerify, old(plans), ended.value)
    {
      var round := rounds(attempt);
      var start := StartOf(round, plans, account, planId, hasResolver);
      if start.StopBefore? {
        var result := Stop(start, round, account, planId, hasResolver, operation.log);
        return Some(result);
      }
      OpenGate(round, plans, account, planId, hasResolver);
      ended := Try(planId, round, attempt, hasVerify);
    }

    /**
     * One `mutate` call, whatever the game, the verifier and cancellation do. `hasResolver` and `hasVerify` say
     * whether the caller passed `state_fingerprint` and `verify`.
     */
    method Mutate(account: nat, planId: Option<PlanId>, hasResolver: bool, hasVerify: bool) returns (result: Result)
      requires operation.log == [] && operation.client.wire.log == []
      modifies this, operation, operation.client.wire, operation.client.version
      // at most three invocations, all but the last of which conflicted
      ensures |operation.log| <= 3
      ensures forall i | 0 <= i < |operation.log| - 1 :: operation.log[i] == RaisedGame(GConflict)
      // over all invocations, every HTTP exchange but the last was refused: at most one can have been applied
      ensures forall i | 0 <= i < |operation.client.wire.log| - 1 :: Refused(operation.client.wire.log[i])
      ensures Consistent(planId, old(plans), old(audits), operation.log, result)
      ensures result.Returned? && result.reconciled ==> hasVerify
      // the third conflict is the last, and fails the plan
      ensures |operation.log| == 3 && operation.log[2] == RaisedGame(GConflict) ==>
                result == Raised(Game(GConflict)) && (planId.Some? ==> StateOf(planId) == Some(IdleClaims.Failed))
      // what remains when every invocation was declined, or none was made: the plan failed, or is as it was, unless the
      // look at the session after a conflict raised: then it needs reconciliation
      ensures AllDeclined(operation.log) ==> Remains(old(StateOf(planId)), StateOf(planId), operation.log, rounds)
      // a plan that some executor is running right now is failed, not left alone
      ensures planId.Some? && old(StateOf(planId)) == Some(IdleClaims.Executing)
              && old(plans)[planId.value].account == account && rounds(0).admission.Admitted? ==>
                operation.log == [] && StateOf(planId) == Some(IdleClaims.Failed)
      // when the operation is invoked, and what becomes of the call
      ensures Kept(account, planId, hasResolver, hasVerify, old(plans), result)
    {
      var attempt := 0;
      while attempt < 3
        invariant 0 <= attempt < 3 && |operation.log| == attempt
        invariant forall i | 0 <= i < |operation.log| :: operation.log[i] == RaisedGame(GConflict)
        invariant forall i | 0 <= i < |operation.client.wire.log| :: Refused(operation.client.wire.log[i])
        invariant plans == old(plans) && audits == old(audits) && Asks(operation.log, rounds)
        invariant forall i | 0 <= i < attempt :: Gate(rounds(i), plans, account, planId, hasResolver)
        invariant attempt > 0 && planId.Some? ==> planId.value in plans && plans[planId.value].state.Open()
      {
        var ended := RunRound(account, planId, hasResolver, hasVerify, attempt);
        if ended.Some? { return ended.value; }
        attempt := attempt + 1;
      }
    }
  }
}
