/** Identity and removal over all interleavings of the account transactions. */
module AccountHistory {
  import opened Prelude
  import opened AuthWindow
  import opened Accounts

  /** One committed transaction, with the game's answers to it. `id` of an enrolment is a new row. */
  datatype Step =
    | AddCredentials(id: AccountId, username: string, password: string, answers: SignIns)
    | AddTokenOnly(id: AccountId, token: string, expiresAt: Option<int>, boot: Boot)
    | UpdateCredentials(id: AccountId, newName: Option<string>, password: string, stored: Boot, storedAnswers: SignIns,
                        answers: SignIns)
    | UpdateTokenOnly(id: AccountId, token: string, expiresAt: Option<int>, stored: Boot, storedAnswers: SignIns,
                      boot: Boot)
    | Visit(id: AccountId, mutable: bool, boot: Boot, answers: SignIns, now: int, later: int, undone: bool)
    | Lifecycle(id: AccountId, enabled: bool)
    | Pause(id: AccountId, reason: string)
    | Resume(id: AccountId)
    | Mark(id: AccountId)
    | Drain(id: AccountId)

  predicate Next(rows: Rows, s: Step, next: Rows)
  {
    match s
    case AddCredentials(id, username, password, answers) =>
      && id !in rows
      && var l := LoginFrom(answers, 0);
         next == if l.LoggedIn? && l.id != "" && MayEnrol(rows, l.id)
                 then rows[id := Enrolled(Credentials, Some(username), Some(password), l.token, l.expiresAt, l.id)]
                 else rows
    case AddTokenOnly(id, token, expiresAt, boot) =>
      && id !in rows
      && next == if token != "" && boot.BootsTo? && boot.id != "" && MayEnrol(rows, boot.id)
                 then rows[id := Enrolled(TokenOnly, None, None, token, expiresAt, boot.id)] else rows
    case UpdateCredentials(id, name, password, stored, storedAnswers, answers) =>
      next == UpdateTx(rows, id, password,
                if id in rows then
                  UpdateCredentialsTx(rows, id, rows[id], name, password, stored, storedAnswers, answers)
                else TakenBack).1
    case UpdateTokenOnly(id, token, expiresAt, stored, storedAnswers, boot) =>
      next == UpdateTx(rows, id, token,
                if id in rows then UpdateTokenTx(rows, id, rows[id], token, expiresAt, stored, storedAnswers, boot)
                else TakenBack).1
    case Visit(id, mutable, boot, answers, now, later, undone) =>
      next == SessionTx(rows, id, mutable, boot, answers, now, later, undone).2
    case Lifecycle(id, enabled) => next == LifecycleTx(rows, id, enabled).1
    case Pause(id, reason) => next == PauseTx(rows, id, reason).1
    case Resume(id) => next == ResumeTx(rows, id).1
    case Mark(id) => next == MarkTx(rows, id).1
    case Drain(id) => next == DrainTx(rows, id).1
  }

  /** During the step, the game bootstrapped `token` to the identity. */
  predicate Answered(answers: SignIns, token: string, gameId: string)
  {
    exists n | 0 <= n < 3 :: answers.Try(n).SignedIn? && answers.Try(n).token == token && answers.Try(n).id == gameId
  }

  predicate Booted(s: Step, token: string, gameId: string)
  {
    match s
    case AddCredentials(_, _, _, answers) => Answered(answers, token, gameId)
    case UpdateCredentials(_, _, _, _, _, answers) => Answered(answers, token, gameId)
    case Visit(_, _, _, answers, _, _, _) => Answered(answers, token, gameId)
    case AddTokenOnly(_, sent, _, boot) => sent == token && boot == BootsTo(gameId)
    case UpdateTokenOnly(_, sent, _, _, _, boot) => sent == token && boot == BootsTo(gameId)
    case _ => false
  }

  lemma {:induction false} LoginAnswered(answers: SignIns, n: nat)
    requires n <= 3
    ensures var l := LoginFrom(answers, n); l.LoggedIn? ==> Answered(answers, l.token, l.id)
    decreases 3 - n
  {
    if n < 3 { LoginAnswered(answers, n + 1); }
  }

  // ---- what a transaction may do to one row ----

  predicate RowOk(rows: Rows, id: AccountId, row: Account, next: Account, s: Step)
  {
    && (row.gameId.Some? ==> next.gameId == row.gameId)
    && (row.gameId.None? && next.gameId.Some? ==> !TakenByOther(rows, id, next.gameId.value))
    && (next.token.Some? && next.token != row.token ==>
          next.gameId.Some? && Booted(s, next.token.value, next.gameId.value))
  }

  lemma StoredOk(rows: Rows, id: AccountId, row: Account, stored: Boot, answers: SignIns, s: Step)
    ensures var p := BindStored(rows, id, row, stored, answers);
            p.Progress? ==> RowOk(rows, id, row, p.row, s) && p.row.token == row.token
  {}

  lemma CredentialsOk(rows: Rows, s: Step)
    requires s.UpdateCredentials? && s.id in rows
    ensures var p :=
            UpdateCredentialsTx(rows, s.id, rows[s.id], s.newName, s.password, s.stored, s.storedAnswers, s.answers);
            p.Progress? ==> RowOk(rows, s.id, rows[s.id], p.row, s)
  {
    StoredOk(rows, s.id, rows[s.id], s.stored, s.storedAnswers, s);
    LoginAnswered(s.answers, 0);
  }

  lemma TokenOk(rows: Rows, s: Step)
    requires s.UpdateTokenOnly? && s.id in rows
    ensures var p := UpdateTokenTx(rows, s.id, rows[s.id], s.token, s.expiresAt, s.stored, s.storedAnswers, s.boot);
            p.Progress? ==> RowOk(rows, s.id, rows[s.id], p.row, s)
  {
    StoredOk(rows, s.id, rows[s.id], s.stored, s.storedAnswers, s);
  }

  lemma VisitOk(rows: Rows, s: Step)
    requires s.Visit? && s.id in rows
    ensures var e := Ensure(rows, s.id, rows[s.id], s.boot, s.answers, s.now, s.later);
            e.Session? ==> RowOk(rows, s.id, rows[s.id], e.row, s) && (e.handle.Some? ==> e.row.gameId == e.handle)
  {
    LoginAnswered(s.answers, 0);
  }

  /** Bound identities are pairwise different: the table's unique constraint. */
  predicate Distinct(rows: Rows)
  {
    forall a, b | a in rows && b in rows && a != b && rows[a].gameId.Some? :: rows[a].gameId != rows[b].gameId
  }

  /** What every step keeps. */
  predicate Keeps(rows: Rows, s: Step, next: Rows)
  {
    && (forall a | a in rows :: a in next && RowOk(rows, a, rows[a], next[a], s))
    && (forall a | a in next && a !in rows ::
          && next[a].gameId.Some? && !Unresolved(rows) && !Managed(rows, next[a].gameId.value)
          && next[a].token.Some? && Booted(s, next[a].token.value, next[a].gameId.value))
  }

  lemma SameRows(rows: Rows, s: Step)
    ensures Keeps(rows, s, rows)
  {}

  lemma OneRow(rows: Rows, s: Step, id: AccountId, row: Account)
    requires id in rows && RowOk(rows, id, rows[id], row, s)
    ensures Keeps(rows, s, rows[id := row])
  {}

  lemma StepKeeps(rows: Rows, s: Step, next: Rows)
    requires Next(rows, s, next)
    ensures Keeps(rows, s, next)
  {
    SameRows(rows, s);
    match s
    case AddCredentials(id, username, password, answers) => LoginAnswered(answers, 0);
    case AddTokenOnly(id, token, expiresAt, boot) =>
    case UpdateCredentials(id, _, _, _, _, _) =>
      if id in rows { CredentialsOk(rows, s); }
      if id in next && id in rows && next != rows { OneRow(rows, s, id, next[id]); }
    case UpdateTokenOnly(id, _, _, _, _, _) =>
      if id in rows { TokenOk(rows, s); }
      if id in next && id in rows && next != rows { OneRow(rows, s, id, next[id]); }
    case Visit(id, _, _, _, _, _, _) =>
      if id in rows { VisitOk(rows, s); }
      if id in next && id in rows && next != rows { OneRow(rows, s, id, next[id]); }
    case _ => QuietKeeps(rows, s, next);
  }

  lemma QuietKeeps(rows: Rows, s: Step, next: Rows)
    requires Next(rows, s, next) && (s.Lifecycle? || s.Pause? || s.Resume? || s.Mark? || s.Drain?)
    ensures Keeps(rows, s, next)
  {}

  lemma DistinctKept(rows: Rows, s: Step, next: Rows)
    requires Distinct(rows) && Next(rows, s, next) && Keeps(rows, s, next)
    ensures Distinct(next)
  {
    OnlyOneRow(rows, s, next);
    forall a, b | a in next && b in next && a != b && next[a].gameId.Some? ensures next[a].gameId != next[b].gameId {
      if a == s.id { NotShared(rows, s, next, b); }
      if b == s.id && next[b].gameId.Some? { NotShared(rows, s, next, a); }
    }
  }

  lemma OnlyOneRow(rows: Rows, s: Step, next: Rows)
    requires Next(rows, s, next)
    ensures forall a | a in rows && a != s.id :: a in next && next[a] == rows[a]
    ensures forall a | a in next && a != s.id :: a in rows
  {}

  /** What the step bound, nobody else had. */
  lemma NotShared(rows: Rows, s: Step, next: Rows, b: AccountId)
    requires Distinct(rows) && Keeps(rows, s, next) && s.id in next && next[s.id].gameId.Some?
    requires b in rows && b in next && b != s.id && next[b] == rows[b]
    ensures next[b].gameId != next[s.id].gameId
  {
    if s.id in rows { assert RowOk(rows, s.id, rows[s.id], next[s.id], s); }
  }

  // ---- histories ----

  ghost predicate History(ws: seq<Rows>, steps: seq<Step>)
  {
    && |ws| == |steps| + 1 && Distinct(ws[0])
    && forall n | 0 <= n < |steps| :: Next(ws[n], steps[n], ws[n+1])
  }

  /** No two accounts ever share a game identity. */
  lemma {:induction false} IdentitiesAreDistinct(ws: seq<Rows>, steps: seq<Step>, n: nat)
    requires History(ws, steps) && n < |ws|
    ensures Distinct(ws[n])
  {
    if n > 0 {
      IdentitiesAreDistinct(ws, steps, n - 1);
      assert Next(ws[n-1], steps[n-1], ws[n-1+1]);
      StepKeeps(ws[n-1], steps[n-1], ws[n]);
      DistinctKept(ws[n-1], steps[n-1], ws[n]);
    }
  }

  /** No row is lost, and a bound identity never changes. */
  lemma {:induction false} IdentityIsForLife(ws: seq<Rows>, steps: seq<Step>, m: nat, n: nat, a: AccountId)
    requires History(ws, steps) && m <= n < |ws| && a in ws[m]
    ensures a in ws[n]
    ensures ws[m][a].gameId.Some? ==> ws[n][a].gameId == ws[m][a].gameId
  {
    if m < n {
      IdentityIsForLife(ws, steps, m, n - 1, a);
      assert Next(ws[n-1], steps[n-1], ws[n-1+1]);
      StepKeeps(ws[n-1], steps[n-1], ws[n]);
      assert RowOk(ws[n-1], a, ws[n-1][a], ws[n][a], steps[n-1]);
    }
  }

  /** An enrolment succeeds only while every row is bound, and only for an identity that nobody has. */
  lemma EnrolmentIsGuarded(ws: seq<Rows>, steps: seq<Step>, n: nat, a: AccountId)
    requires History(ws, steps) && n + 1 < |ws| && a in ws[n+1] && a !in ws[n]
    ensures forall b | b in ws[n] :: ws[n][b].gameId.Some? && ws[n][b].gameId != ws[n+1][a].gameId
    ensures ws[n+1][a].gameId.Some?
  {
    StepKeeps(ws[n], steps[n], ws[n+1]);
  }

  /** A session token that was not there to begin with had bootstrapped to the identity that the row has now. */
  predicate Verified(steps: seq<Step>, n: nat, token: string, gameId: string)
    requires n <= |steps|
  {
    exists k | 0 <= k < n :: Booted(steps[k], token, gameId)
  }

  lemma {:induction false} TokensAreVerified(ws: seq<Rows>, steps: seq<Step>, n: nat, a: AccountId)
    requires History(ws, steps) && n < |ws| && a in ws[n] && ws[n][a].token.Some?
    ensures (a in ws[0] && ws[n][a].token == ws[0][a].token)
            || (ws[n][a].gameId.Some? && Verified(steps, n, ws[n][a].token.value, ws[n][a].gameId.value))
  {
    if n > 0 {
      assert Next(ws[n-1], steps[n-1], ws[n-1+1]);
      StepKeeps(ws[n-1], steps[n-1], ws[n]);
      if a in ws[n-1] {
        assert RowOk(ws[n-1], a, ws[n-1][a], ws[n][a], steps[n-1]);
        if ws[n][a].token == ws[n-1][a].token {
          TokensAreVerified(ws, steps, n - 1, a);
        }
      }
    }
  }

  /** Whoever gets a game handle gets the account's own identity, and the account is neither paused nor marked. If what
      is done with the handle raises, the row stays as it was; then it had that identity, or none and nobody else
      had. */
  lemma HandleIsOwn(ws: seq<Rows>, steps: seq<Step>, n: nat)
    requires History(ws, steps) && n < |steps| && steps[n].Visit?
    ensures var s := steps[n];
            var handle := SessionTx(ws[n], s.id, s.mutable, s.boot, s.answers, s.now, s.later, s.undone).1;
            handle.Some? ==>
              && s.id in ws[n] && s.id in ws[n+1]
              && ws[n][s.id].pausedReason.None? && (s.mutable ==> ws[n][s.id].enabled)
              && (ws[n][s.id].gameId == handle
                  || (ws[n][s.id].gameId.None? && !TakenByOther(ws[n], s.id, handle.value)))
              && (if s.undone then ws[n+1] == ws[n] else ws[n+1][s.id].gameId == handle)
  {
    var s := steps[n];
    if s.id in ws[n] { VisitOk(ws[n], s); }
  }

  // ---- what an enrolment or an update is for ----

  /** The enrolment or update went through. */
  predicate Succeeds(rows: Rows, s: Step, next: Rows)
  {
    match s
    case AddCredentials(id, _, _, _) => id in next
    case AddTokenOnly(id, _, _, _) => id in next
    case UpdateCredentials(id, name, password, stored, storedAnswers, answers) =>
      id in rows && UpdateTx(rows, id, password,
        UpdateCredentialsTx(rows, id, rows[id], name, password, stored, storedAnswers, answers)).0.Done?
    case UpdateTokenOnly(id, token, expiresAt, stored, storedAnswers, boot) =>
      id in rows
        && UpdateTx(rows, id, token,
                    UpdateTokenTx(rows, id, rows[id], token, expiresAt, stored, storedAnswers, boot)).0.Done?
    case _ => false
  }

  /** Afterwards the account is usable: nothing pauses it, no failure is counted, and a visit whose bootstrap confirms
      the identity gets the handle and changes nothing. */
  lemma SuccessIsUsable(rows: Rows, s: Step, next: Rows, mutable: bool, answers: SignIns, now: int, later: int)
    requires Next(rows, s, next) && Succeeds(rows, s, next)
    ensures s.id in next && next[s.id].pausedReason.None? && next[s.id].failures == NO_FAILURES
    ensures next[s.id].gameId.Some? && next[s.id].gameId != Some("") && next[s.id].token.Some?
    ensures !NeedsRefresh(next[s.id], now) && (mutable ==> next[s.id].enabled) ==>
              SessionTx(next, s.id, mutable, BootsTo(next[s.id].gameId.value), answers, now, later, false)
                == (Done, next[s.id].gameId, next)
  {
    assert next[s.id := next[s.id]] == next;
  }

  // ---- another identity ----

  /** The identity that a visit of an account that is not paused is told, by its token or by logging in again. */
  function Met(row: Account, s: Step): Option<string>
    requires s.Visit?
  {
    if !NeedsRefresh(row, s.now) && s.boot.BootsTo? then Some(s.boot.id)
    else if row.mode.TokenOnly? || (!NeedsRefresh(row, s.now) && !s.boot.BootRejected?) then None
    else if Absent(row.username) || Absent(row.password) then None
    else match LoginFrom(s.answers, 0)
      case LoggedIn(_, _, gameId) => Some(gameId)
      case _ => None
  }

  /** The visit is told an identity that is not the account's, or, if it has none yet, is another account's. */
  predicate MeetsAnother(rows: Rows, s: Step)
  {
    && s.Visit? && s.id in rows && rows[s.id].pausedReason.None? && !(s.mutable && RequireMutable(rows[s.id]).Some?)
    && Met(rows[s.id], s).Some? && Met(rows[s.id], s).value != ""
    && !Bind(rows, s.id, rows[s.id], Met(rows[s.id], s).value).0
  }

  /** Someone renews, resumes or enables the account. */
  predicate Reopens(s: Step, a: AccountId)
  {
    s.id == a && (s.UpdateCredentials? || s.UpdateTokenOnly? || s.Resume? || (s.Lifecycle? && s.enabled))
  }

  predicate ShutOut(row: Account) { !row.enabled && row.pausedReason.Some? }

  lemma MismatchStep(rows: Rows, s: Step, next: Rows)
    requires Next(rows, s, next) && MeetsAnother(rows, s)
    ensures s.id in next && next[s.id] == Mismatched(rows[s.id]) && ShutOut(next[s.id])
  {}

  lemma StaysShutOut(rows: Rows, s: Step, next: Rows, a: AccountId)
    requires Next(rows, s, next) && a in rows && ShutOut(rows[a]) && !Reopens(s, a)
    ensures a in next && ShutOut(next[a])
    ensures s.Visit? && s.id == a ==>
              next == rows && SessionTx(rows, a, s.mutable, s.boot, s.answers, s.now, s.later, s.undone).1.None?
  {
    if a != s.id { OnlyOneRow(rows, s, next); } else { assert rows[a := rows[a]] == rows; }
  }

  lemma {:induction false} ShutOutUntil(ws: seq<Rows>, steps: seq<Step>, m: nat, n: nat, a: AccountId)
    requires History(ws, steps) && m <= n < |ws| && a in ws[m] && ShutOut(ws[m][a])
    requires forall k | m <= k < n :: !Reopens(steps[k], a)
    ensures a in ws[n] && ShutOut(ws[n][a])
  {
    if m < n {
      ShutOutUntil(ws, steps, m, n - 1, a);
      ShutOutLink(ws, steps, n - 1, a);
    }
  }

  lemma ShutOutLink(ws: seq<Rows>, steps: seq<Step>, n: nat, a: AccountId)
    requires History(ws, steps) && n < |steps| && a in ws[n] && ShutOut(ws[n][a]) && !Reopens(steps[n], a)
    ensures a in ws[n+1] && ShutOut(ws[n+1][a])
  {
    assert Next(ws[n], steps[n], ws[n+1]);
    StaysShutOut(ws[n], steps[n], ws[n+1], a);
  }

  /** A visit that meets another identity, with its token or by renewing it, gives no handle and changes neither secrets
      nor identity; it disables and pauses the account. Until someone renews, resumes or enables it, it stays so, and no
      visit gets a handle or changes anything. */
  lemma MismatchShutsOut(ws: seq<Rows>, steps: seq<Step>, m: nat, n: nat)
    requires History(ws, steps) && m < n < |ws| && MeetsAnother(ws[m], steps[m])
    requires forall k | m < k < n :: !Reopens(steps[k], steps[m].id)
    ensures var s := steps[m];
            && SessionTx(ws[m], s.id, s.mutable, s.boot, s.answers, s.now, s.later, s.undone).1.None?
            && s.id in ws[m+1] && SameSecrets(ws[m+1][s.id], ws[m][s.id]) && SameIdentity(ws[m+1][s.id], ws[m][s.id])
            && s.id in ws[n] && ShutOut(ws[n][s.id])
    ensures n < |steps| && steps[n].Visit? && steps[n].id == steps[m].id ==>
              var s := steps[n];
              ws[n+1] == ws[n] && SessionTx(ws[n], s.id, s.mutable, s.boot, s.answers, s.now, s.later, s.undone).1.None?
  {
    var a := steps[m].id;
    MismatchStep(ws[m], steps[m], ws[m+1]);
    ShutOutUntil(ws, steps, m + 1, n, a);
    if n < |steps| && steps[n].Visit? && steps[n].id == a { StaysShutOut(ws[n], steps[n], ws[n+1], a); }
  }

  // ---- removal ----

  /** A marked account is disabled; a removed one has no secrets. */
  predicate RemovalOk(row: Account)
  {
    (Marked(row) ==> !row.enabled) && (row.pausedReason == Some(REMOVED) ==> NoSecrets(row))
  }

  predicate Reserved(reason: string) { Strip(reason) == REMOVING || Strip(reason) == REMOVED }

  predicate IsRemoved(row: Account) { row.pausedReason == Some(REMOVED) }

  /** Whatever a step is, a marked account stays marked, a removed one stays removed, and what was in order stays so; no
      visit of it gets a handle or changes anything. */
  lemma MarkedStep(rows: Rows, s: Step, next: Rows, a: AccountId)
    requires Next(rows, s, next) && a in rows && Marked(rows[a])
    ensures a in next && Marked(next[a]) && (IsRemoved(rows[a]) ==> IsRemoved(next[a]))
    ensures RemovalOk(rows[a]) ==> RemovalOk(next[a])
    ensures s.Visit? && s.id == a ==>
              next == rows && SessionTx(rows, a, s.mutable, s.boot, s.answers, s.now, s.later, s.undone).1.None?
  {
    if a != s.id {
      OnlyOneRow(rows, s, next);
    } else if s.Visit? || s.UpdateCredentials? || s.UpdateTokenOnly? {
      MarkedGame(rows, s, next);
    }
  }

  /** The steps that talk to the game never get past the marker. */
  lemma MarkedGame(rows: Rows, s: Step, next: Rows)
    requires Next(rows, s, next) && s.id in rows && Marked(rows[s.id])
    requires s.Visit? || s.UpdateCredentials? || s.UpdateTokenOnly?
    ensures next == rows
    ensures s.Visit? ==> SessionTx(rows, s.id, s.mutable, s.boot, s.answers, s.now, s.later, s.undone).1.None?
  {
    assert rows[s.id := rows[s.id]] == rows;
  }

  /** Removal cannot be undone, in any history and however the marker was set: marked stays marked, removed stays
      removed, and a row that was disabled, or without secrets if removed, stays so. */
  lemma {:induction false} RemovalIsForEver(ws: seq<Rows>, steps: seq<Step>, m: nat, n: nat, a: AccountId)
    requires History(ws, steps) && m <= n < |ws| && a in ws[m] && Marked(ws[m][a])
    ensures a in ws[n] && Marked(ws[n][a]) && (IsRemoved(ws[m][a]) ==> IsRemoved(ws[n][a]))
    ensures RemovalOk(ws[m][a]) ==> RemovalOk(ws[n][a])
  {
    if m < n {
      RemovalIsForEver(ws, steps, m, n - 1, a);
      MarkedLink(ws, steps, n - 1, a);
    }
  }

  lemma MarkedLink(ws: seq<Rows>, steps: seq<Step>, n: nat, a: AccountId)
    requires History(ws, steps) && n < |steps| && a in ws[n] && Marked(ws[n][a])
    ensures a in ws[n+1] && Marked(ws[n+1][a]) && (IsRemoved(ws[n][a]) ==> IsRemoved(ws[n+1][a]))
    ensures RemovalOk(ws[n][a]) ==> RemovalOk(ws[n+1][a])
  {
    assert Next(ws[n], steps[n], ws[n+1]);
    MarkedStep(ws[n], steps[n], ws[n+1], a);
  }

  /** Nor does anyone get a handle of a marked account again, in any history. */
  lemma NoHandleOnceMarked(ws: seq<Rows>, steps: seq<Step>, m: nat, n: nat)
    requires History(ws, steps) && m <= n < |steps|
    requires steps[n].Visit? && steps[n].id in ws[m] && Marked(ws[m][steps[n].id])
    ensures var s := steps[n];
            && SessionTx(ws[n], s.id, s.mutable, s.boot, s.answers, s.now, s.later, s.undone).1.None?
            && ws[n+1] == ws[n]
  {
    RemovalIsForEver(ws, steps, m, n, steps[n].id);
    assert Next(ws[n], steps[n], ws[n+1]);
    MarkedStep(ws[n], steps[n], ws[n+1], steps[n].id);
  }

  /** Nobody has paused account `a` with a reserved reason in the first `n` steps. */
  predicate PlainPausesOf(steps: seq<Step>, a: AccountId, n: nat)
    requires n <= |steps|
  {
    forall k | 0 <= k < n :: steps[k].Pause? && steps[k].id == a ==> !Reserved(steps[k].reason)
  }

  lemma RemovalStep(rows: Rows, s: Step, next: Rows, a: AccountId)
    requires Next(rows, s, next) && a in rows && RemovalOk(rows[a])
    requires s.Pause? && s.id == a ==> !Reserved(s.reason)
    ensures a in next && RemovalOk(next[a])
  {
    if Marked(rows[a]) {
      MarkedStep(rows, s, next, a);
    } else if a != s.id {
      OnlyOneRow(rows, s, next);
    } else if s.Visit? || s.UpdateCredentials? || s.UpdateTokenOnly? {
      GameNeverMarks(rows, s, next);
    }
  }

  lemma GameNeverMarks(rows: Rows, s: Step, next: Rows)
    requires Next(rows, s, next) && s.id in rows && !Marked(rows[s.id])
    requires s.Visit? || s.UpdateCredentials? || s.UpdateTokenOnly?
    ensures s.id in next && !Marked(next[s.id])
  {}

  /** An account that nobody has paused with a reserved reason is disabled when it is marked, and without secrets when
      it is removed. */
  lemma {:induction false} RemovalIsProper(ws: seq<Rows>, steps: seq<Step>, n: nat, a: AccountId)
    requires History(ws, steps) && n < |ws| && PlainPausesOf(steps, a, n) && (a in ws[0] ==> RemovalOk(ws[0][a]))
    ensures a in ws[n] ==> RemovalOk(ws[n][a])
  {
    if n > 0 {
      RemovalIsProper(ws, steps, n - 1, a);
      assert Next(ws[n-1], steps[n-1], ws[n-1+1]);
      if a in ws[n-1] {
        RemovalStep(ws[n-1], steps[n-1], ws[n], a);
      } else if a in ws[n] {
        NewRowsAreUnmarked(ws[n-1], steps[n-1], ws[n], a);
      }
    }
  }

  lemma NewRowsAreUnmarked(rows: Rows, s: Step, next: Rows, a: AccountId)
    requires Next(rows, s, next) && a !in rows && a in next
    ensures !Marked(next[a])
  {}

  predicate AllRemovalOk(rows: Rows) { forall a | a in rows :: RemovalOk(rows[a]) }

  /** The reserved reasons are the only gap: exactly when a pause keeps the guarantee. */
  lemma PauseKeepsRemovalOkIff(rows: Rows, id: AccountId, reason: string)
    requires AllRemovalOk(rows)
    ensures AllRemovalOk(PauseTx(rows, id, reason).1) <==>
              (id in rows && !Marked(rows[id]) && Reserved(reason) ==>
                 !rows[id].enabled && (Strip(reason) == REMOVED ==> NoSecrets(rows[id])))
  {
    var next := PauseTx(rows, id, reason).1;
    assert REMOVED != "" && REMOVING != "";
    if id in rows && !Marked(rows[id]) && Reserved(reason) {
      assert forall a | a in rows && a != id :: next[a] == rows[a];
      assert RemovalOk(rows[id]);
      assert AllRemovalOk(next) <==> RemovalOk(next[id]);
    }
  }

  /** Paused as "removed", an account keeps its secrets, and the removal that would clear them declines to start. */
  lemma PausedAsRemoved()
    ensures var row := Enrolled(TokenOnly, None, None, "t", None, "g");
            var rows := PauseTx(map[0 := row], 0, "removed").1;
            && rows[0].pausedReason == Some(REMOVED) && rows[0].token == Some("t") && rows[0].enabled
            && MarkTx(rows, 0) == (Refused(Removed), rows)
  {
    assert Strip("removed") == "removed";
  }
}
