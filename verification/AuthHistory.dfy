/** The authentication window of one account, over all interleavings of the account transactions. */
module AuthHistory {
  import opened Prelude
  import opened AuthWindow
  import opened Accounts
  import opened AccountHistory

  const AUTHENTICATION_REQUIRED := "authentication_required"

  /** The visit has to log in again. */
  predicate LogsIn(rows: Rows, s: Step)
  {
    && s.Visit? && s.id in rows && !(s.mutable && RequireMutable(rows[s.id]).Some?) && rows[s.id].pausedReason.None?
    && rows[s.id].mode.Credentials? && (NeedsRefresh(rows[s.id], s.now) || s.boot.BootRejected?)
  }

  predicate LacksSecrets(row: Account) { Absent(row.username) || Absent(row.password) }

  /** The step counts an authentication failure of account `a`. */
  predicate FailsAuth(rows: Rows, s: Step, a: AccountId)
  {
    LogsIn(rows, s) && s.id == a && (LacksSecrets(rows[a]) || LoginFrom(s.answers, 0).LoginRejected?)
  }

  /** The step gives account `a` a session that works, and the transaction keeps it. */
  predicate Renews(rows: Rows, s: Step, a: AccountId)
  {
    && s.id == a && a in rows
    && match s
       case UpdateCredentials(_, name, password, stored, storedAnswers, answers) =>
         UpdateTx(rows, a, password,
                  UpdateCredentialsTx(rows, a, rows[a], name, password, stored, storedAnswers, answers)).0.Done?
       case UpdateTokenOnly(_, token, expiresAt, stored, storedAnswers, boot) =>
         UpdateTx(rows, a, token,
                  UpdateTokenTx(rows, a, rows[a], token, expiresAt, stored, storedAnswers, boot)).0.Done?
       case Visit(_, _, _, answers, _, _, undone) =>
         LogsIn(rows, s) && !undone && !LacksSecrets(rows[a]) && LoginFrom(answers, 0).LoggedIn?
         && Bind(rows, a, rows[a], LoginFrom(answers, 0).id).0
       case _ => false
  }

  function EventOf(rows: Rows, s: Step, a: AccountId): seq<Event>
  {
    if FailsAuth(rows, s, a) then [Failed(s.later)] else if Renews(rows, s, a) then [Renewed] else []
  }

  /** What happened to the window of account `a` in the first `n` steps. */
  function Events(ws: seq<Rows>, steps: seq<Step>, a: AccountId, n: nat): seq<Event>
    requires |ws| == |steps| + 1 && n <= |steps|
  {
    if n == 0 then [] else Events(ws, steps, a, n - 1) + EventOf(ws[n-1], steps[n-1], a)
  }

  function Folded(w: Window, es: seq<Event>): Window
    requires |es| <= 1
  {
    if es == [] then w else match es[0] case Failed(at) => Fail(w, at) case Renewed => NO_FAILURES
  }

  lemma VisitWindow(rows: Rows, s: Step, next: Rows)
    requires Next(rows, s, next) && s.Visit? && s.id in rows
    ensures s.id in next && next[s.id].failures == Folded(rows[s.id].failures, EventOf(rows, s, s.id))
    ensures FailsAuth(rows, s, s.id) ==>
              next[s.id].pausedReason == if next[s.id].failures.count >= 3 then Some(AUTHENTICATION_REQUIRED) else None
    ensures !FailsAuth(rows, s, s.id) && next[s.id].pausedReason == Some(AUTHENTICATION_REQUIRED) ==>
              rows[s.id].pausedReason == Some(AUTHENTICATION_REQUIRED)
  {
    ReasonsDiffer();
  }

  lemma ReasonsDiffer()
    ensures "account_identity_mismatch" != AUTHENTICATION_REQUIRED
            && "session_refresh_required" != AUTHENTICATION_REQUIRED
    ensures REMOVING != AUTHENTICATION_REQUIRED && REMOVED != AUTHENTICATION_REQUIRED
  {
    assert "account_identity_mismatch"[1] == 'c' && "session_refresh_required"[0] == 's'
           && AUTHENTICATION_REQUIRED[0] == 'a';
    assert AUTHENTICATION_REQUIRED[1] == 'u' && REMOVING[0] == 'r' && REMOVED[0] == 'r';
  }

  lemma CredentialsWindow(rows: Rows, s: Step, next: Rows)
    requires Next(rows, s, next) && s.UpdateCredentials? && s.id in rows
    ensures s.id in next && next[s.id].failures == Folded(rows[s.id].failures, EventOf(rows, s, s.id))
    ensures next[s.id].pausedReason == Some(AUTHENTICATION_REQUIRED) ==>
              rows[s.id].pausedReason == Some(AUTHENTICATION_REQUIRED)
  {
    ReasonsDiffer();
  }

  lemma TokenWindow(rows: Rows, s: Step, next: Rows)
    requires Next(rows, s, next) && s.UpdateTokenOnly? && s.id in rows
    ensures s.id in next && next[s.id].failures == Folded(rows[s.id].failures, EventOf(rows, s, s.id))
    ensures next[s.id].pausedReason == Some(AUTHENTICATION_REQUIRED) ==>
              rows[s.id].pausedReason == Some(AUTHENTICATION_REQUIRED)
  {
    ReasonsDiffer();
  }

  /** Every step moves the window exactly as its event says; and only the third counted failure pauses the account for
      authentication, unless someone pauses it by hand with that very reason. */
  lemma StepWindow(rows: Rows, s: Step, next: Rows, a: AccountId)
    requires Next(rows, s, next) && a in rows
    ensures a in next && next[a].failures == Folded(rows[a].failures, EventOf(rows, s, a))
    ensures FailsAuth(rows, s, a) ==>
              next[a].pausedReason == if next[a].failures.count >= 3 then Some(AUTHENTICATION_REQUIRED) else None
    ensures !FailsAuth(rows, s, a) && !s.Pause? && next[a].pausedReason == Some(AUTHENTICATION_REQUIRED) ==>
              rows[a].pausedReason == Some(AUTHENTICATION_REQUIRED)
  {
    if a == s.id {
      match s
      case Visit(_, _, _, _, _, _, _) => VisitWindow(rows, s, next);
      case UpdateCredentials(_, _, _, _, _, _) => CredentialsWindow(rows, s, next);
      case UpdateTokenOnly(_, _, _, _, _, _) => TokenWindow(rows, s, next);
      case _ => ReasonsDiffer();
    }
  }

  /** The account starts without counted failures, in the table or by being enrolled later. */
  predicate StartsClean(ws: seq<Rows>, a: AccountId)
    requires |ws| > 0
  {
    a in ws[0] ==> ws[0][a].failures == NO_FAILURES
  }

  lemma NoEventsBefore(rows: Rows, s: Step, a: AccountId)
    requires a !in rows
    ensures EventOf(rows, s, a) == []
  {}

  /** The row's window is the one that its events make. */
  lemma {:induction false} WindowIsFold(ws: seq<Rows>, steps: seq<Step>, a: AccountId, n: nat)
    requires History(ws, steps) && StartsClean(ws, a) && n <= |steps|
    ensures a in ws[n] ==> ws[n][a].failures == After(Events(ws, steps, a, n))
    ensures a !in ws[n] ==> Events(ws, steps, a, n) == []
  {
    if n > 0 {
      WindowIsFold(ws, steps, a, n - 1);
      FoldLink(ws, steps, a, n - 1);
    }
  }

  lemma FoldLink(ws: seq<Rows>, steps: seq<Step>, a: AccountId, n: nat)
    requires History(ws, steps) && n < |steps|
    requires a in ws[n] ==> ws[n][a].failures == After(Events(ws, steps, a, n))
    requires a !in ws[n] ==> Events(ws, steps, a, n) == []
    ensures a in ws[n+1] ==> ws[n+1][a].failures == After(Events(ws, steps, a, n + 1))
    ensures a !in ws[n+1] ==> Events(ws, steps, a, n + 1) == []
  {
    assert Next(ws[n], steps[n], ws[n+1]);
    FoldStep(ws[n], steps[n], ws[n+1], a, Events(ws, steps, a, n));
  }

  lemma FoldStep(rows: Rows, s: Step, next: Rows, a: AccountId, events: seq<Event>)
    requires Next(rows, s, next)
    requires a in rows ==> rows[a].failures == After(events)
    requires a !in rows ==> events == []
    ensures a in next ==> next[a].failures == After(events + EventOf(rows, s, a))
    ensures a !in next ==> events + EventOf(rows, s, a) == []
  {
    if a in rows {
      StepWindow(rows, s, next, a);
      AtMostOneEvent(rows, s, a);
      FoldOne(events, EventOf(rows, s, a));
    } else {
      NoEventsBefore(rows, s, a);
      if a in next { NewRowIsClean(rows, s, next, a); }
    }
  }

  lemma NewRowIsClean(rows: Rows, s: Step, next: Rows, a: AccountId)
    requires Next(rows, s, next) && a !in rows && a in next
    ensures next[a].failures == NO_FAILURES
  {}

  lemma FoldOne(events: seq<Event>, more: seq<Event>)
    requires |more| <= 1
    ensures After(events + more) == Folded(After(events), more)
  {
    if more == [] { assert events + more == events; } else { assert (events + more)[..|events|] == events; }
  }

  /** A step that pauses an account for authentication is its third failure in a row within less than an hour. */
  lemma PausedForAuthentication(ws: seq<Rows>, steps: seq<Step>, a: AccountId, n: nat)
    requires History(ws, steps) && StartsClean(ws, a) && n < |steps| && a in ws[n] && a in ws[n+1]
    requires Monotone(Events(ws, steps, a, n + 1)) && !steps[n].Pause?
    requires ws[n][a].pausedReason != Some(AUTHENTICATION_REQUIRED)
             && ws[n+1][a].pausedReason == Some(AUTHENTICATION_REQUIRED)
    ensures var es := Events(ws, steps, a, n + 1);
            && |es| >= 3 && es[|es|-1] == Failed(steps[n].later) && es[|es|-2].Failed? && es[|es|-3].Failed?
            && es[|es|-1].at - es[|es|-3].at < WINDOW
  {
    WindowIsFold(ws, steps, a, n);
    assert Next(ws[n], steps[n], ws[n+1]);
    StepWindow(ws[n], steps[n], ws[n+1], a);
    var es := Events(ws, steps, a, n + 1);
    var k := |es| - 1;
    assert es == Events(ws, steps, a, n) + [Failed(steps[n].later)];
    assert es[..k] == Events(ws, steps, a, n);
    PausedOnlyAfterThree(es, k);
  }

  lemma Appended(before: seq<Event>, more: seq<Event>, i: nat)
    requires |more| <= 1 && i < |before + more|
    ensures i < |before| ==> before[..i] == (before + more)[..i] && before[i] == (before + more)[i]
    ensures i >= |before| ==> before == (before + more)[..i] && more == [(before + more)[i]]
  {}

  lemma AtMostOneEvent(rows: Rows, s: Step, a: AccountId)
    ensures |EventOf(rows, s, a)| <= 1
  {}

  /** The step that gave the event at `i`. */
  lemma {:induction false} StepOfEvent(ws: seq<Rows>, steps: seq<Step>, a: AccountId, n: nat, i: nat) returns (k: nat)
    requires |ws| == |steps| + 1 && n <= |steps| && i < |Events(ws, steps, a, n)|
    ensures k < n && Events(ws, steps, a, k) == Events(ws, steps, a, n)[..i]
    ensures EventOf(ws[k], steps[k], a) == [Events(ws, steps, a, n)[i]]
    decreases n
  {
    AtMostOneEvent(ws[n-1], steps[n-1], a);
    Appended(Events(ws, steps, a, n - 1), EventOf(ws[n-1], steps[n-1], a), i);
    if i < |Events(ws, steps, a, n - 1)| {
      k := StepOfEvent(ws, steps, a, n - 1, i);
    } else {
      k := n - 1;
    }
  }

  /** Of four failures in a row within less than an hour, one has paused the account. */
  lemma FourFailuresPauseTheAccount(ws: seq<Rows>, steps: seq<Step>, a: AccountId, n: nat, i: nat) returns (k: nat)
    requires History(ws, steps) && StartsClean(ws, a) && n <= |steps| && Monotone(Events(ws, steps, a, n))
    requires i + 4 <= |Events(ws, steps, a, n)| && forall j | i <= j < i + 4 :: Events(ws, steps, a, n)[j].Failed?
    requires Events(ws, steps, a, n)[i+3].at - Events(ws, steps, a, n)[i].at < WINDOW
    ensures k < n && i <= |Events(ws, steps, a, k)| < i + 4
    ensures a in ws[k+1] && ws[k+1][a].pausedReason == Some(AUTHENTICATION_REQUIRED)
  {
    var es := Events(ws, steps, a, n);
    FourFailuresPause(es, i);
    var j :| i <= j < i + 4 && PausesAt(es, j);
    k := StepOfEvent(ws, steps, a, n, j);
    WindowIsFold(ws, steps, a, k);
    assert Next(ws[k], steps[k], ws[k+1]);
    StepWindow(ws[k], steps[k], ws[k+1], a);
  }

  lemma {:induction false} EventsGrow(ws: seq<Rows>, steps: seq<Step>, a: AccountId, k: nat, n: nat)
    requires |ws| == |steps| + 1 && k <= n <= |steps|
    ensures Events(ws, steps, a, k) <= Events(ws, steps, a, n)
  {
    if k < n { EventsGrow(ws, steps, a, k, n - 1); }
  }

  /** Step `k` counts a failure of the account and pauses it for authentication. */
  predicate PausedBy(ws: seq<Rows>, steps: seq<Step>, a: AccountId, k: nat)
    requires |ws| == |steps| + 1 && k < |steps|
  {
    FailsAuth(ws[k], steps[k], a) && a in ws[k+1] && ws[k+1][a].pausedReason == Some(AUTHENTICATION_REQUIRED)
  }

  lemma FailureIsEvent(ws: seq<Rows>, steps: seq<Step>, a: AccountId, k: nat)
    requires |ws| == |steps| + 1 && k < |steps| && FailsAuth(ws[k], steps[k], a)
    ensures Events(ws, steps, a, k + 1) == Events(ws, steps, a, k) + [Failed(steps[k].later)]
  {}

  lemma FailurePauses(ws: seq<Rows>, steps: seq<Step>, a: AccountId, k: nat)
    requires History(ws, steps) && StartsClean(ws, a) && k < |steps| && FailsAuth(ws[k], steps[k], a)
    ensures PausedBy(ws, steps, a, k) <==> Pauses(After(Events(ws, steps, a, k)), steps[k].later)
  {
    WindowIsFold(ws, steps, a, k);
    assert Next(ws[k], steps[k], ws[k+1]);
    StepWindow(ws[k], steps[k], ws[k+1], a);
  }

  lemma EventAt(before: seq<Event>, at: int, es: seq<Event>)
    requires before + [Failed(at)] <= es
    ensures PausesAt(es, |before|) <==> Pauses(After(before), at)
  {
    assert es[..|before|] == before && es[|before|] == (before + [Failed(at)])[|before|];
  }

  /** A step that counts a failure pauses the account exactly if its event does. */
  lemma PausesAsItsEvent(ws: seq<Rows>, steps: seq<Step>, a: AccountId, n: nat, k: nat)
    requires History(ws, steps) && StartsClean(ws, a) && k < n <= |steps| && FailsAuth(ws[k], steps[k], a)
    ensures |Events(ws, steps, a, k)| < |Events(ws, steps, a, n)|
    ensures PausedBy(ws, steps, a, k) <==> PausesAt(Events(ws, steps, a, n), |Events(ws, steps, a, k)|)
  {
    FailureIsEvent(ws, steps, a, k);
    EventsGrow(ws, steps, a, k + 1, n);
    FailurePauses(ws, steps, a, k);
    EventAt(Events(ws, steps, a, k), steps[k].later, Events(ws, steps, a, n));
  }

  /** Among the failures from event `i` on, three of them, one has paused the account. */
  ghost predicate PausedAmongThree(ws: seq<Rows>, steps: seq<Step>, a: AccountId, n: nat, i: nat)
    requires |ws| == |steps| + 1 && n <= |steps|
  {
    exists k | 0 <= k < n :: i <= |Events(ws, steps, a, k)| < i + 3 && PausedBy(ws, steps, a, k)
  }

  /**
   * Of three failures in a row within less than an hour, one has paused the account if and only if the window in its
   * row before the first of them (`k` is that step) did not close between the first two.
   */
  lemma ThreeFailuresPauseTheAccountIff(ws: seq<Rows>, steps: seq<Step>, a: AccountId, n: nat, i: nat) returns (k: nat)
    requires History(ws, steps) && StartsClean(ws, a) && n <= |steps| && Monotone(Events(ws, steps, a, n))
    requires i + 3 <= |Events(ws, steps, a, n)| && forall j | i <= j < i + 3 :: Events(ws, steps, a, n)[j].Failed?
    requires Events(ws, steps, a, n)[i+2].at - Events(ws, steps, a, n)[i].at < WINDOW
    ensures k < n && a in ws[k] && FailsAuth(ws[k], steps[k], a) && |Events(ws, steps, a, k)| == i
    ensures PausedAmongThree(ws, steps, a, n, i) <==>
              !Splits(ws[k][a].failures, Events(ws, steps, a, n)[i].at, Events(ws, steps, a, n)[i+1].at)
  {
    var es := Events(ws, steps, a, n);
    k := StepOfEvent(ws, steps, a, n, i);
    WindowIsFold(ws, steps, a, k);
    ThreeFailuresPauseIff(es, i);
    if exists j | i <= j < i + 3 :: PausesAt(es, j) {
      var j :| i <= j < i + 3 && PausesAt(es, j);
      var l := StepOfEvent(ws, steps, a, n, j);
      PausesAsItsEvent(ws, steps, a, n, l);
      assert PausedAmongThree(ws, steps, a, n, i);
    }
    if PausedAmongThree(ws, steps, a, n, i) {
      var l :| 0 <= l < n && i <= |Events(ws, steps, a, l)| < i + 3 && PausedBy(ws, steps, a, l);
      PausesAsItsEvent(ws, steps, a, n, l);
    }
  }
}
