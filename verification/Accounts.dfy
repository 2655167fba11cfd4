/** The account rows and what each `AccountService` transaction does to them (accounts/service.py). */
module Accounts {
  import opened Prelude
  import opened AuthWindow

  type AccountId = nat

  datatype Mode = Credentials | TokenOnly

  datatype Account = Account(
    mode: Mode,
    username: Option<string>,
    password: Option<string>,
    token: Option<string>,
    expiresAt: Option<int>,
    enabled: bool,
    pausedReason: Option<string>,
    gameId: Option<string>,
    failures: Window)

  type Rows = map<AccountId, Account>

  datatype AccountError = NotFound | Removed | Paused | Disabled | AuthenticationRequired | IdentityConflict
                        | InvalidValue

  /** How a call ends: done, an account error, or an exception that takes the transaction back. */
  datatype Reply = Done | Refused(error: AccountError) | RolledBack

  const REMOVING := "removing"
  const REMOVED := "removed"
  const RENEWAL := 24 * 3600

  // ---- the game's answers ----

  /** One login followed by one bootstrap of the token that it gave. */
  datatype SignIn = SignedIn(token: string, expiresAt: Option<int>, id: string) | SignInRejected | SignInFailed

  /** The answers to the three tries of one `_login_and_bootstrap`. */
  datatype SignIns = SignIns(first: SignIn, second: SignIn, third: SignIn)
  {
    function Try(n: nat): SignIn requires n < 3 { if n == 0 then first else if n == 1 then second else third }
  }

  datatype Login = LoggedIn(token: string, expiresAt: Option<int>, id: string) | LoginRejected | LoginFailed

  function LoginFrom(answers: SignIns, n: nat): Login
    requires n <= 3
    decreases 3 - n
  {
    if n == 3 then LoginRejected
    else match answers.Try(n)
      case SignedIn(token, expiresAt, id) => LoggedIn(token, expiresAt, id)
      case SignInRejected => LoginFrom(answers, n + 1)
      case SignInFailed => LoginFailed
  }

  /** One bootstrap of a token at hand. */
  datatype Boot = BootsTo(id: string) | BootRejected | BootFailed

  // ---- identity ----

  predicate Unresolved(rows: Rows) { exists a | a in rows :: rows[a].gameId.None? }

  predicate TakenByOther(rows: Rows, id: AccountId, gameId: string)
  {
    exists a | a in rows :: a != id && rows[a].gameId == Some(gameId)
  }

  predicate Managed(rows: Rows, gameId: string) { exists a | a in rows :: rows[a].gameId == Some(gameId) }

  function Mismatched(row: Account): Account
  {
    row.(enabled := false, pausedReason := Some("account_identity_mismatch"))
  }

  /** `_bind_or_match_identity`: whether the row is (now) bound to the identity, and the row. */
  function Bind(rows: Rows, id: AccountId, row: Account, gameId: string): (bool, Account)
  {
    if gameId == "" then (false, row)
    else if row.gameId.None? then
      if TakenByOther(rows, id, gameId) then (false, Mismatched(row)) else (true, row.(gameId := Some(gameId)))
    else if row.gameId == Some(gameId) then (true, row)
    else (false, Mismatched(row))
  }

  // ---- admission ----

  predicate Marked(row: Account) { row.pausedReason == Some(REMOVING) || row.pausedReason == Some(REMOVED) }

  /** `_reject_removal_marker`. */
  function RejectMarker(row: Account): Option<AccountError>
  {
    if row.pausedReason == Some(REMOVED) then Some(Removed)
    else if row.pausedReason == Some(REMOVING) then Some(Paused)
    else None
  }

  /** `_require_mutable`. */
  function RequireMutable(row: Account): Option<AccountError>
  {
    if RejectMarker(row).Some? then RejectMarker(row)
    else if !row.enabled then Some(Disabled)
    else if row.pausedReason.Some? && row.pausedReason.value != "" then Some(Paused)
    else None
  }

  // ---- the session ----

  /** `handle` is the game identity whose API the caller gets. */
  datatype Session = Session(row: Account, handle: Option<string>) | Broken

  function FailAuth(row: Account, now: int): Account
  {
    var w := Fail(row.failures, now);
    row.(failures := w, pausedReason := if w.count >= 3 then Some("authentication_required") else row.pausedReason)
  }

  function NeedsRefresh(row: Account, now: int): bool
  {
    row.token.None? || (row.expiresAt.Some? && row.expiresAt.value <= now + RENEWAL)
  }

  predicate Absent(secret: Option<string>) { secret.None? || secret.value == "" }

  /** The handle goes to the caller if and only if the identity matches. */
  function WithIdentity(rows: Rows, id: AccountId, row: Account, gameId: string): Session
  {
    var (matches, bound) := Bind(rows, id, row, gameId);
    Session(bound, if matches then Some(gameId) else None)
  }

  function Relogin(rows: Rows, id: AccountId, row: Account, answers: SignIns, later: int): Session
  {
    if Absent(row.username) || Absent(row.password) then Session(FailAuth(row, later), None)
    else match LoginFrom(answers, 0)
      case LoginFailed => Broken
      case LoginRejected => Session(FailAuth(row, later), None)
      case LoggedIn(token, expiresAt, gameId) =>
        var (matches, bound) := Bind(rows, id, row, gameId);
        if !matches then Session(bound, None)
        else Session(bound.(token := Some(token), expiresAt := expiresAt, failures := NO_FAILURES), Some(gameId))
  }

  /** `_ensure_locked`. */
  function Ensure(rows: Rows, id: AccountId, row: Account, boot: Boot, answers: SignIns, now: int, later: int): Session
  {
    if row.pausedReason.Some? then Session(row, None)
    else match row.mode
      case TokenOnly =>
        if NeedsRefresh(row, now) || boot.BootRejected? then
          Session(row.(pausedReason := Some("session_refresh_required")), None)
        else if boot.BootFailed? then Broken
        else WithIdentity(rows, id, row, boot.id)
      case Credentials =>
        if NeedsRefresh(row, now) || boot.BootRejected? then Relogin(rows, id, row, answers, later)
        else if boot.BootFailed? then Broken
        else WithIdentity(rows, id, row, boot.id)
  }

  // ---- credentials and tokens ----

  /** `_resolve_stored_identity`, for a row that is not bound yet; None is AuthenticationRequired. */
  datatype Stored = StoredIdentity(gameId: string) | NoIdentity | StoredFailed

  function ResolveStored(row: Account, boot: Boot, answers: SignIns): Stored
  {
    match row.mode
    case Credentials =>
      if Absent(row.username) || Absent(row.password) then NoIdentity
      else (match LoginFrom(answers, 0)
            case LoggedIn(_, _, gameId) => StoredIdentity(gameId)
            case LoginRejected => NoIdentity
            case LoginFailed => StoredFailed)
    case TokenOnly =>
      if Absent(row.token) then NoIdentity
      else (match boot
            case BootsTo(gameId) => StoredIdentity(gameId)
            case BootRejected => NoIdentity
            case BootFailed => StoredFailed)
  }

  /** A step of an update: the row so far, and the error that is pending; or the transaction is taken back. */
  datatype Progress = Progress(row: Account, pending: Option<AccountError>) | TakenBack

  /** A legacy row is first bound to the identity of the secrets it already has. */
  function BindStored(rows: Rows, id: AccountId, row: Account, boot: Boot, answers: SignIns): Progress
  {
    if row.gameId.Some? then Progress(row, None)
    else match ResolveStored(row, boot, answers)
      case StoredFailed => TakenBack
      case NoIdentity => Progress(row, Some(AuthenticationRequired))
      case StoredIdentity(gameId) =>
        var (matches, bound) := Bind(rows, id, row, gameId);
        Progress(bound, if matches then None else Some(IdentityConflict))
  }

  function Proposed(row: Account, username: Option<string>): Option<string>
  {
    if Absent(username) then row.username else username
  }

  /** `update_credentials` after the marker check: the rows of its game answers are in order of use. */
  function UpdateCredentialsTx(rows: Rows, id: AccountId, row: Account, username: Option<string>, password: string,
                               boot: Boot, stored: SignIns, answers: SignIns): Progress
  {
    var p := BindStored(rows, id, row, boot, stored);
    if p.TakenBack? || p.pending.Some? then p else Renewal(rows, id, p.row, username, password, answers)
  }

  /** The row is bound; the new secrets are tried and stored. */
  function Renewal(rows: Rows, id: AccountId, row: Account, username: Option<string>, password: string,
                   answers: SignIns): Progress
  {
    if Absent(Proposed(row, username)) then Progress(row, Some(AuthenticationRequired))
    else match LoginFrom(answers, 0)
      case LoginFailed => TakenBack
      case LoginRejected => Progress(row, Some(AuthenticationRequired))
      case LoggedIn(token, expiresAt, gameId) =>
        var (matches, bound) := Bind(rows, id, row, gameId);
        if !matches then Progress(bound, Some(IdentityConflict))
        else Progress(bound.(mode := Credentials, username := Proposed(row, username), password := Some(password),
                             token := Some(token), expiresAt := expiresAt, pausedReason := None,
                             failures := NO_FAILURES), None)
  }

  function UpdateTokenTx(rows: Rows, id: AccountId, row: Account, token: string, expiresAt: Option<int>,
                         stored: Boot, answers: SignIns, boot: Boot): Progress
  {
    var p := BindStored(rows, id, row, stored, answers);
    if p.TakenBack? || p.pending.Some? then p
    else match boot
      case BootFailed => TakenBack
      case BootRejected => Progress(p.row, Some(AuthenticationRequired))
      case BootsTo(gameId) =>
        var (matches, bound) := Bind(rows, id, p.row, gameId);
        if !matches then Progress(bound, Some(IdentityConflict))
        else Progress(bound.(mode := TokenOnly, username := None, password := None, token := Some(token),
                             expiresAt := expiresAt, pausedReason := None, failures := NO_FAILURES), None)
  }

  function Enrolled(mode: Mode, username: Option<string>, password: Option<string>, token: string,
                    expiresAt: Option<int>, gameId: string): Account
  {
    Account(mode, username, password, Some(token), expiresAt, true, None, Some(gameId), NO_FAILURES)
  }

  /** The transaction of an enrolment, once the game has named the identity. */
  predicate MayEnrol(rows: Rows, gameId: string) { !Unresolved(rows) && !Managed(rows, gameId) }

  // ---- removal ----

  function Cleared(row: Account): Account
  {
    row.(enabled := false, pausedReason := Some(REMOVED), username := None, password := None,
         token := None, expiresAt := None)
  }

  predicate NoSecrets(row: Account) { row.username.None? && row.password.None? && row.token.None? }

  // ---- Python's str.strip ----

  predicate IsSpace(c: char)
  {
    var n := c as int;
    9 <= n <= 13 || 28 <= n <= 32 || n == 0x85 || n == 0xa0 || n == 0x1680 || 0x2000 <= n <= 0x200a
    || n == 0x2028 || n == 0x2029 || n == 0x202f || n == 0x205f || n == 0x3000
  }

  function Strip(s: string): (r: string)
    ensures r != "" ==> !IsSpace(r[0]) && !IsSpace(r[|r|-1])
    ensures forall c | c in s && !IsSpace(c) :: c in r
    decreases |s|
  {
    if s == "" then s
    else if IsSpace(s[0]) then Strip(s[1..])
    else if IsSpace(s[|s|-1]) then Strip(s[..|s|-1])
    else s
  }

  /** `s` without `i` characters in front and from `j` on, all of them white space. */
  predicate Trimmed(s: string, i: nat, j: nat)
  {
    && i <= j <= |s| && (forall k | 0 <= k < i :: IsSpace(s[k])) && (forall k | j <= k < |s| :: IsSpace(s[k]))
    && (i < j ==> !IsSpace(s[i]) && !IsSpace(s[j-1]))
  }

  lemma TrimmedLeft(s: string, i: nat, j: nat)
    requires s != "" && IsSpace(s[0]) && Trimmed(s[1..], i, j)
    ensures Trimmed(s, i + 1, j + 1) && s[1..][i..j] == s[i+1..j+1]
  {
    assert forall k | 0 < k < |s| :: s[1..][k-1] == s[k];
  }

  lemma TrimmedRight(s: string, i: nat, j: nat)
    requires s != "" && IsSpace(s[|s|-1]) && Trimmed(s[..|s|-1], i, j)
    ensures Trimmed(s, i, j) && s[..|s|-1][i..j] == s[i..j]
  {
    assert forall k | 0 <= k < |s| - 1 :: s[..|s|-1][k] == s[k];
  }

  /** Stripping cuts off exactly the white space at both ends. */
  lemma {:induction false} StripTrims(s: string) returns (i: nat, j: nat)
    ensures Trimmed(s, i, j) && Strip(s) == s[i..j]
    decreases |s|
  {
    if s == "" {
      i, j := 0, 0;
    } else if IsSpace(s[0]) {
      i, j := StripTrims(s[1..]);
      TrimmedLeft(s, i, j);
      i, j := i + 1, j + 1;
    } else if IsSpace(s[|s|-1]) {
      i, j := StripTrims(s[..|s|-1]);
      TrimmedRight(s, i, j);
    } else {
      i, j := 0, |s|;
    }
  }

  // ---- the transactions, as functions of the rows ----

  function UpdateTx(rows: Rows, id: AccountId, secret: string, p: Progress): (Reply, Rows)
  {
    if secret == "" then (Refused(InvalidValue), rows)
    else if id !in rows then (Refused(NotFound), rows)
    else if RejectMarker(rows[id]).Some? then (Refused(RejectMarker(rows[id]).value), rows)
    else if p.TakenBack? then (RolledBack, rows)
    else (if p.pending.Some? then Refused(p.pending.value) else Done, rows[id := p.row])
  }

  /** `undone` says that what follows under the handle, in the same transaction, raises: the snapshot, the policy, or
      the caller's own work inside `locked`. */
  function SessionTx(rows: Rows, id: AccountId, mutable: bool, boot: Boot, answers: SignIns, now: int, later: int,
                     undone: bool)
    : (Reply, Option<string>, Rows)
  {
    if id !in rows then (Refused(NotFound), None, rows)
    else if mutable && RequireMutable(rows[id]).Some? then (Refused(RequireMutable(rows[id]).value), None, rows)
    else match Ensure(rows, id, rows[id], boot, answers, now, later)
      case Broken => (RolledBack, None, rows)
      case Session(row, handle) =>
        if handle.Some? && undone then (RolledBack, handle, rows) else (Done, handle, rows[id := row])
  }

  function LifecycleTx(rows: Rows, id: AccountId, enabled: bool): (Reply, Rows)
  {
    if id !in rows then (Refused(NotFound), rows)
    else if RejectMarker(rows[id]).Some? then (Refused(RejectMarker(rows[id]).value), rows)
    else (Done, rows[id := rows[id].(enabled := enabled)])
  }

  function PauseTx(rows: Rows, id: AccountId, reason: string): (Reply, Rows)
  {
    if Strip(reason) == "" then (Refused(InvalidValue), rows)
    else if id !in rows then (Refused(NotFound), rows)
    else if RejectMarker(rows[id]).Some? then (Refused(RejectMarker(rows[id]).value), rows)
    else (Done, rows[id := rows[id].(pausedReason := Some(Strip(reason)))])
  }

  function ResumeTx(rows: Rows, id: AccountId): (Reply, Rows)
  {
    if id !in rows then (Refused(NotFound), rows)
    else if Marked(rows[id]) then (Refused(RejectMarker(rows[id]).value), rows)
    else (Done, rows[id := rows[id].(pausedReason := None)])
  }

  function MarkTx(rows: Rows, id: AccountId): (Reply, Rows)
  {
    if id !in rows then (Refused(NotFound), rows)
    else if rows[id].pausedReason == Some(REMOVED) then (Refused(Removed), rows)
    else (Done, rows[id := rows[id].(enabled := false, pausedReason := Some(REMOVING))])
  }

  function DrainTx(rows: Rows, id: AccountId): (Reply, Rows)
  {
    if id !in rows then (Refused(NotFound), rows) else (Done, rows[id := Cleared(rows[id])])
  }

  // ---- what a transaction leaves alone ----

  predicate SameSecrets(a: Account, b: Account)
  {
    a.mode == b.mode && a.username == b.username && a.password == b.password && a.token == b.token
      && a.expiresAt == b.expiresAt
  }

  predicate SameIdentity(a: Account, b: Account) { a.gameId == b.gameId && a.failures == b.failures }

  /** No row came or went, and only the row `id` may differ. */
  predicate OnlyRow(rows: Rows, next: Rows, id: AccountId)
  {
    next.Keys == rows.Keys && forall a | a in rows && a != id :: next[a] == rows[a]
  }

  // ---- what the calls promise, column by column ----

  /** The `n`-th try of a login is the first that is not rejected. */
  predicate Decides(answers: SignIns, n: nat)
    requires n < 3
  {
    !answers.Try(n).SignInRejected? && forall k | 0 <= k < n :: answers.Try(k).SignInRejected?
  }

  predicate SignsIn(answers: SignIns, token: string, expiresAt: Option<int>, gameId: string)
  {
    exists n | 0 <= n < 3 :: Decides(answers, n) && answers.Try(n) == SignedIn(token, expiresAt, gameId)
  }

  predicate SignsInAs(answers: SignIns, gameId: string)
  {
    exists n | 0 <= n < 3 :: Decides(answers, n) && answers.Try(n).SignedIn? && answers.Try(n).id == gameId
  }

  predicate SignInDenied(answers: SignIns) { forall n | 0 <= n < 3 :: answers.Try(n) == SignInRejected }

  predicate SignInBreaks(answers: SignIns)
  {
    exists n | 0 <= n < 3 :: Decides(answers, n) && answers.Try(n) == SignInFailed
  }

  /** The login is what the first answer that is not a rejection says. */
  predicate LoginMeans(answers: SignIns, l: Login)
  {
    && (l.LoggedIn? <==> exists n | 0 <= n < 3 :: Decides(answers, n) && answers.Try(n).SignedIn?)
    && (l.LoggedIn? ==> SignsIn(answers, l.token, l.expiresAt, l.id) && SignsInAs(answers, l.id))
    && (l == LoginFailed <==> SignInBreaks(answers))
    && (l == LoginRejected <==> SignInDenied(answers))
    && (forall n | 0 <= n < 3 && Decides(answers, n) && answers.Try(n).SignedIn? ::
          l == LoggedIn(answers.Try(n).token, answers.Try(n).expiresAt, answers.Try(n).id))
  }

  lemma LoginIsFirst(answers: SignIns)
    ensures LoginMeans(answers, LoginFrom(answers, 0))
  {
    assert LoginFrom(answers, 3) == LoginRejected;
    assert LoginFrom(answers, 0) == match answers.Try(0)
      case SignedIn(token, expiresAt, id) => LoggedIn(token, expiresAt, id)
      case SignInRejected => LoginFrom(answers, 1)
      case SignInFailed => LoginFailed;
    assert LoginFrom(answers, 1) == match answers.Try(1)
      case SignedIn(token, expiresAt, id) => LoggedIn(token, expiresAt, id)
      case SignInRejected => LoginFrom(answers, 2)
      case SignInFailed => LoginFailed;
    if !answers.Try(0).SignInRejected? {
      assert Decides(answers, 0);
    } else if !answers.Try(1).SignInRejected? {
      assert Decides(answers, 1);
    } else if !answers.Try(2).SignInRejected? {
      assert Decides(answers, 2);
    }
  }

  predicate HasSecret(secret: Option<string>) { secret.Some? && secret.value != "" }

  predicate Unmarked(row: Account) { row.pausedReason != Some("removing") && row.pausedReason != Some("removed") }

  /** The identity is the row's, or the row has none and nobody else has it. */
  predicate MayHave(rows: Rows, id: AccountId, row: Account, gameId: string)
  {
    && gameId != ""
    && (row.gameId == Some(gameId)
        || (row.gameId == None && forall a | a in rows && a != id :: rows[a].gameId != Some(gameId)))
  }

  /** What meeting an identity makes of a row that may not have it: an identity that is none changes nothing. */
  function ShutOut(row: Account, gameId: string): Account
  {
    if gameId == "" then row else row.(enabled := false, pausedReason := Some("account_identity_mismatch"))
  }

  /** The identity that the secrets at hand belong to. */
  predicate StoredTells(row: Account, boot: Boot, answers: SignIns, gameId: string)
  {
    match row.mode
    case Credentials => HasSecret(row.username) && HasSecret(row.password) && SignsInAs(answers, gameId)
    case TokenOnly => HasSecret(row.token) && boot == BootsTo(gameId)
  }

  /** The game fails when it is asked for that identity. */
  predicate StoredBreaks(row: Account, boot: Boot, answers: SignIns)
  {
    match row.mode
    case Credentials => HasSecret(row.username) && HasSecret(row.password) && SignInBreaks(answers)
    case TokenOnly => HasSecret(row.token) && boot == BootFailed
  }

  /** The row may be renewed as `gameId`: a row without identity must have secrets of that identity already. */
  predicate MayRenewAs(rows: Rows, id: AccountId, row: Account, boot: Boot, answers: SignIns, gameId: string)
  {
    MayHave(rows, id, row, gameId) && (row.gameId == None ==> StoredTells(row, boot, answers, gameId))
  }

  /** The refusals that come before the game is asked anything; `secret` is the value that must not be empty. */
  predicate RefusedAtOnce(rows: Rows, id: AccountId, secret: string, reply: Reply)
  {
    reply == Refused(
      if secret == "" then InvalidValue
      else if id !in rows then NotFound
      else if rows[id].pausedReason == Some("removed") then Removed else Paused)
  }

  /** An update that is refused later keeps the secrets; the row may have been bound, or shut out if the error is the
      identity. */
  predicate RefusedLater(was: Account, row: Account, reply: Reply)
  {
    && reply.Refused? && SameSecrets(row, was) && row.failures == was.failures
    && (reply.error == AuthenticationRequired ==> row.enabled == was.enabled && row.pausedReason == was.pausedReason)
    && (reply.error == IdentityConflict ==>
          (row.enabled == was.enabled && row.pausedReason == was.pausedReason)
          || (!row.enabled && row.pausedReason == Some("account_identity_mismatch")))
    && (reply.error == AuthenticationRequired || reply.error == IdentityConflict)
    && (was.gameId.Some? ==> row.gameId == was.gameId)
  }

  /** The columns after a renewal with a password. */
  predicate RenewedWith(was: Account, row: Account, username: Option<string>, password: string, answers: SignIns)
  {
    && row.mode == Credentials && row.password == Some(password)
    && row.username == (if HasSecret(username) then username else was.username) && HasSecret(row.username)
    && row.token.Some? && row.gameId.Some? && SignsIn(answers, row.token.value, row.expiresAt, row.gameId.value)
    && row.enabled == was.enabled && row.pausedReason == None && row.failures == Window(0, None)
  }

  /** The columns after a renewal with a token. */
  predicate RenewedWithToken(was: Account, row: Account, token: string, expiresAt: Option<int>, boot: Boot)
  {
    && row.mode == TokenOnly && row.username == None && row.password == None
    && row.token == Some(token) && row.expiresAt == expiresAt
    && row.gameId.Some? && boot == BootsTo(row.gameId.value)
    && row.enabled == was.enabled && row.pausedReason == None && row.failures == Window(0, None)
  }

  // ---- a visit, column by column ----

  /** The token is absent, or it expires within a day. */
  predicate Stale(row: Account, now: int)
  {
    row.token == None || (row.expiresAt.Some? && row.expiresAt.value <= now + 86400)
  }

  /** The visit of a row that is not paused has to log in again. */
  predicate HasToLogIn(row: Account, boot: Boot, now: int) { Stale(row, now) || boot == BootRejected }

  /** A failure is counted in the hour of the first one; the third in it pauses. */
  predicate CountsFailure(was: Account, row: Account, at: int)
  {
    var afresh := was.failures.started == None || at - was.failures.started.value >= 3600;
    && row.failures == (if afresh then Window(1, Some(at)) else Window(was.failures.count + 1, was.failures.started))
    && row == was.(failures := row.failures,
                   pausedReason := if row.failures.count >= 3 then Some("authentication_required")
                                   else was.pausedReason)
  }

  /** The row met the identity; `renewed` is what becomes of it if it may have that identity. */
  predicate Met(rows: Rows, id: AccountId, gameId: string, renewed: Account, undone: bool, reply: Reply,
                handle: Option<string>, next: Rows)
    requires id in rows
  {
    if !MayHave(rows, id, rows[id], gameId) then
      reply == Done && handle == None && next == rows[id := ShutOut(rows[id], gameId)]
    else
      && handle == Some(gameId)
      && if undone then reply == RolledBack && next == rows
         else reply == Done && next == rows[id := renewed.(gameId := Some(gameId))]
  }

  /** A visit that logs in again: a failure is counted, the game's failure takes everything back, or the row meets the
      identity, with the new token if it may have it. */
  predicate LoggedInAgain(rows: Rows, id: AccountId, answers: SignIns, later: int, undone: bool, reply: Reply,
                          handle: Option<string>, next: Rows)
    requires id in rows
  {
    var was := rows[id];
    if !HasSecret(was.username) || !HasSecret(was.password) || SignInDenied(answers) then
      && reply == Done && handle == None && id in next && CountsFailure(was, next[id], later)
      && next == rows[id := next[id]]
    else if SignInBreaks(answers) then reply == RolledBack && handle == None && next == rows
    else
      exists n | 0 <= n < 3 ::
        && Decides(answers, n) && answers.Try(n).SignedIn?
        && Met(rows, id, answers.Try(n).id,
               was.(token := Some(answers.Try(n).token), expiresAt := answers.Try(n).expiresAt,
                    failures := Window(0, None)),
               undone, reply, handle, next)
  }

  /** What a visit comes to: nothing on a paused row; the token's identity as long as the token is good; otherwise a
      pause, or a login with its identity or its failure. */
  predicate Visited(rows: Rows, id: AccountId, boot: Boot, answers: SignIns, now: int, later: int, undone: bool,
                    reply: Reply, handle: Option<string>, next: Rows)
    requires id in rows
  {
    var was := rows[id];
    if was.pausedReason.Some? then reply == Done && handle == None && next == rows
    else if !HasToLogIn(was, boot, now) then
      if boot == BootFailed then reply == RolledBack && handle == None && next == rows
      else Met(rows, id, boot.id, was, undone, reply, handle, next)
    else if was.mode == TokenOnly then
      && reply == Done && handle == None
      && next == rows[id := was.(pausedReason := Some("session_refresh_required"))]
    else LoggedInAgain(rows, id, answers, later, undone, reply, handle, next)
  }

  /** What a caller that wants to change something is refused for. */
  predicate RefusedVisit(row: Account, reply: Reply)
  {
    reply == Refused(
      if row.pausedReason == Some("removed") then Removed
      else if row.pausedReason == Some("removing") then Paused
      else if !row.enabled then Disabled else Paused)
  }

  // ---- the promises hold of the transactions ----

  /** What `update_credentials` promises: when it is done and what it then leaves, and what it is refused for. */
  ghost predicate UpdatePromise(rows: Rows, id: AccountId, username: Option<string>, password: string, boot: Boot,
                                stored: SignIns, answers: SignIns, reply: Reply, next: Rows)
  {
    if password == "" || id !in rows || !Unmarked(rows[id]) then
      RefusedAtOnce(rows, id, password, reply) && next == rows
    else
      var was := rows[id];
      && id in next && next == rows[id := next[id]]
      && (reply == Done <==>
            && (HasSecret(username) || HasSecret(was.username))
            && exists g :: SignsInAs(answers, g) && MayRenewAs(rows, id, was, boot, stored, g))
      && (reply == Done ==>
            && RenewedWith(was, next[id], username, password, answers)
            && MayRenewAs(rows, id, was, boot, stored, next[id].gameId.value))
      && (reply == RolledBack ==>
            && next == rows
            && (SignInBreaks(answers) || (was.gameId == None && StoredBreaks(was, boot, stored))))
      && (reply.Refused? ==> RefusedLater(was, next[id], reply))
  }

  lemma BindMeans(rows: Rows, id: AccountId, row: Account, gameId: string)
    ensures Bind(rows, id, row, gameId) ==
              if MayHave(rows, id, row, gameId) then (true, row.(gameId := Some(gameId)))
              else (false, ShutOut(row, gameId))
  {
    if row.gameId == Some(gameId) { assert row.(gameId := Some(gameId)) == row; }
  }

  /** The identity of the secrets at hand, if they have one, binds a row without identity or shuts it out. */
  ghost predicate StoredBinds(rows: Rows, id: AccountId, row: Account, boot: Boot, answers: SignIns, p: Progress)
  {
    && (p == TakenBack <==> StoredBreaks(row, boot, answers))
    && (p.Progress? && p.pending.Some? ==> RefusedLater(row, p.row, Refused(p.pending.value)))
    && (p.Progress? && p.pending.None? ==>
          && p.row.gameId.Some? && p.row == row.(gameId := p.row.gameId)
          && MayHave(rows, id, row, p.row.gameId.value) && StoredTells(row, boot, answers, p.row.gameId.value))
    && (forall g | StoredTells(row, boot, answers, g) && MayHave(rows, id, row, g) ::
          p == Progress(row.(gameId := Some(g)), None))
  }

  predicate StoredMeans(row: Account, boot: Boot, answers: SignIns, identity: Stored)
  {
    && (identity == StoredFailed <==> StoredBreaks(row, boot, answers))
    && (identity.StoredIdentity? ==> StoredTells(row, boot, answers, identity.gameId))
  }

  lemma StoredIsResolved(row: Account, boot: Boot, answers: SignIns)
    ensures StoredMeans(row, boot, answers, ResolveStored(row, boot, answers))
    ensures forall g | StoredTells(row, boot, answers, g) :: ResolveStored(row, boot, answers) == StoredIdentity(g)
  {
    LoginIsFirst(answers);
  }

  lemma StoredIsBound(rows: Rows, id: AccountId, row: Account, boot: Boot, answers: SignIns)
    requires row.gameId == None
    ensures StoredBinds(rows, id, row, boot, answers, BindStored(rows, id, row, boot, answers))
  {
    StoredIsResolved(row, boot, answers);
    var identity := ResolveStored(row, boot, answers);
    if identity.StoredIdentity? { BindMeans(rows, id, row, identity.gameId); }
  }

  /** A renewal with the identity that the game names goes on from the bound row exactly if the row may have it. */
  lemma BoundMeets(rows: Rows, id: AccountId, was: Account, boot: Boot, answers: SignIns, gameId: string)
    requires BindStored(rows, id, was, boot, answers).Progress?
    requires BindStored(rows, id, was, boot, answers).pending.None?
    ensures var row := BindStored(rows, id, was, boot, answers).row;
            && (MayHave(rows, id, row, gameId) <==> MayRenewAs(rows, id, was, boot, answers, gameId))
            && row == was.(gameId := row.gameId) && (was.gameId.Some? ==> row == was)
  {
    if was.gameId == None {
      StoredIsBound(rows, id, was, boot, answers);
    } else {
      assert was.(gameId := was.gameId) == was;
    }
  }

  /** Where a renewal stops before the game is asked about the new secrets. */
  lemma StoppedEarly(rows: Rows, id: AccountId, was: Account, boot: Boot, answers: SignIns)
    ensures var p := BindStored(rows, id, was, boot, answers);
            && (p == TakenBack ==> was.gameId == None && StoredBreaks(was, boot, answers))
            && (p.Progress? && p.pending.Some? ==> RefusedLater(was, p.row, Refused(p.pending.value)))
            && (p.TakenBack? || p.pending.Some? ==> forall g :: !MayRenewAs(rows, id, was, boot, answers, g))
  {
    if was.gameId == None { StoredIsBound(rows, id, was, boot, answers); }
  }

  /** The promise of a renewal with a password, of the row alone. */
  ghost predicate RenewalPromise(rows: Rows, id: AccountId, was: Account, username: Option<string>, password: string,
                                 boot: Boot, stored: SignIns, answers: SignIns, p: Progress)
  {
    && (p.Progress? && p.pending.None? <==>
          && (HasSecret(username) || HasSecret(was.username))
          && exists g :: SignsInAs(answers, g) && MayRenewAs(rows, id, was, boot, stored, g))
    && (p.Progress? && p.pending.None? ==>
          && RenewedWith(was, p.row, username, password, answers)
          && MayRenewAs(rows, id, was, boot, stored, p.row.gameId.value))
    && (p == TakenBack ==> SignInBreaks(answers) || (was.gameId == None && StoredBreaks(was, boot, stored)))
    && (p.Progress? && p.pending.Some? ==> RefusedLater(was, p.row, Refused(p.pending.value)))
  }

  /** The second half, from a row that is bound. */
  ghost predicate RenewalEnds(rows: Rows, id: AccountId, row: Account, username: Option<string>, password: string,
                              answers: SignIns, p: Progress)
  {
    && (p.Progress? && p.pending.None? ==> RenewedWith(row, p.row, username, password, answers))
    && (p.Progress? && p.pending.None? ==> SignsInAs(answers, p.row.gameId.value))
    && (p.Progress? && p.pending.None? ==> MayHave(rows, id, row, p.row.gameId.value))
    && (p == TakenBack ==> SignInBreaks(answers))
    && (p.Progress? && p.pending.Some? ==> RefusedLater(row, p.row, Refused(p.pending.value)))
    && (forall g | SignsInAs(answers, g) && MayHave(rows, id, row, g)
                   && (HasSecret(username) || HasSecret(row.username)) ::
          p.Progress? && p.pending.None?)
  }

  lemma RenewalEnd(rows: Rows, id: AccountId, row: Account, username: Option<string>, password: string,
                   answers: SignIns)
    ensures RenewalEnds(rows, id, row, username, password, answers,
                        Renewal(rows, id, row, username, password, answers))
  {
    LoginIsFirst(answers);
    var l := LoginFrom(answers, 0);
    if l.LoggedIn? { BindMeans(rows, id, row, l.id); }
  }

  lemma RenewalIsAsPromised(rows: Rows, id: AccountId, was: Account, username: Option<string>, password: string,
                            boot: Boot, stored: SignIns, answers: SignIns)
    ensures RenewalPromise(rows, id, was, username, password, boot, stored, answers,
                           UpdateCredentialsTx(rows, id, was, username, password, boot, stored, answers))
  {
    StoppedEarly(rows, id, was, boot, stored);
    var p := BindStored(rows, id, was, boot, stored);
    if p.Progress? && p.pending.None? {
      RenewalEnd(rows, id, p.row, username, password, answers);
      BoundMeets(rows, id, was, boot, stored, "");
      forall g ensures MayHave(rows, id, p.row, g) <==> MayRenewAs(rows, id, was, boot, stored, g) {
        BoundMeets(rows, id, was, boot, stored, g);
      }
    }
  }

  lemma UpdateIsAsPromised(rows: Rows, id: AccountId, username: Option<string>, password: string, boot: Boot,
                           stored: SignIns, answers: SignIns)
    ensures var (reply, next) := UpdateTx(rows, id, password,
                                   if id in rows then
                                     UpdateCredentialsTx(rows, id, rows[id], username, password, boot, stored, answers)
                                   else TakenBack);
            UpdatePromise(rows, id, username, password, boot, stored, answers, reply, next)
  {
    if id in rows {
      RenewalIsAsPromised(rows, id, rows[id], username, password, boot, stored, answers);
      assert rows == rows[id := rows[id]];
    }
  }

  /** The same of `update_token_only`. */
  ghost predicate TokenPromise(rows: Rows, id: AccountId, token: string, expiresAt: Option<int>, stored: Boot,
                               answers: SignIns, boot: Boot, reply: Reply, next: Rows)
  {
    if token == "" || id !in rows || !Unmarked(rows[id]) then RefusedAtOnce(rows, id, token, reply) && next == rows
    else
      var was := rows[id];
      && id in next && next == rows[id := next[id]]
      && (reply == Done <==> boot.BootsTo? && MayRenewAs(rows, id, was, stored, answers, boot.id))
      && (reply == Done ==> RenewedWithToken(was, next[id], token, expiresAt, boot))
      && (reply == RolledBack ==>
            && next == rows && (boot == BootFailed || (was.gameId == None && StoredBreaks(was, stored, answers))))
      && (reply.Refused? ==> RefusedLater(was, next[id], reply))
  }

  ghost predicate TokenRenewalPromise(rows: Rows, id: AccountId, was: Account, token: string, expiresAt: Option<int>,
                                      stored: Boot, answers: SignIns, boot: Boot, p: Progress)
  {
    && (p.Progress? && p.pending.None? <==> boot.BootsTo? && MayRenewAs(rows, id, was, stored, answers, boot.id))
    && (p.Progress? && p.pending.None? ==> RenewedWithToken(was, p.row, token, expiresAt, boot))
    && (p == TakenBack ==> boot == BootFailed || (was.gameId == None && StoredBreaks(was, stored, answers)))
    && (p.Progress? && p.pending.Some? ==> RefusedLater(was, p.row, Refused(p.pending.value)))
  }

  lemma TokenRenewalIsAsPromised(rows: Rows, id: AccountId, was: Account, token: string, expiresAt: Option<int>,
                                 stored: Boot, answers: SignIns, boot: Boot)
    ensures TokenRenewalPromise(rows, id, was, token, expiresAt, stored, answers, boot,
                                UpdateTokenTx(rows, id, was, token, expiresAt, stored, answers, boot))
  {
    StoppedEarly(rows, id, was, stored, answers);
    var p := BindStored(rows, id, was, stored, answers);
    if p.Progress? && p.pending.None? && boot.BootsTo? {
      BoundMeets(rows, id, was, stored, answers, boot.id);
      BindMeans(rows, id, p.row, boot.id);
    } else if p.Progress? && p.pending.None? {
      BoundMeets(rows, id, was, stored, answers, "");
    }
  }

  lemma TokenIsAsPromised(rows: Rows, id: AccountId, token: string, expiresAt: Option<int>, stored: Boot,
                          answers: SignIns, boot: Boot)
    ensures var (reply, next) := UpdateTx(rows, id, token,
                                   if id in rows then
                                     UpdateTokenTx(rows, id, rows[id], token, expiresAt, stored, answers, boot)
                                   else TakenBack);
            TokenPromise(rows, id, token, expiresAt, stored, answers, boot, reply, next)
  {
    if id in rows {
      TokenRenewalIsAsPromised(rows, id, rows[id], token, expiresAt, stored, answers, boot);
      assert rows == rows[id := rows[id]];
    }
  }

  /** What a visit promises: a caller that wants to change something is refused a row that is disabled or paused. */
  ghost predicate VisitPromise(rows: Rows, id: AccountId, mutable: bool, boot: Boot, answers: SignIns, now: int,
                               later: int, undone: bool, reply: Reply, handle: Option<string>, next: Rows)
  {
    if id !in rows then reply == Refused(NotFound) && handle == None && next == rows
    else if mutable && (!rows[id].enabled || HasSecret(rows[id].pausedReason)) then
      RefusedVisit(rows[id], reply) && handle == None && next == rows
    else Visited(rows, id, boot, answers, now, later, undone, reply, handle, next)
  }

  lemma VisitIsAsPromised(rows: Rows, id: AccountId, mutable: bool, boot: Boot, answers: SignIns, now: int, later: int,
                          undone: bool)
    ensures var (reply, handle, next) := SessionTx(rows, id, mutable, boot, answers, now, later, undone);
            VisitPromise(rows, id, mutable, boot, answers, now, later, undone, reply, handle, next)
  {
    if id in rows && !(mutable && RequireMutable(rows[id]).Some?) {
      assert rows[id := rows[id]] == rows;
      var was := rows[id];
      if was.pausedReason.None? {
        if !HasToLogIn(was, boot, now) {
          if boot.BootsTo? { BindMeans(rows, id, was, boot.id); }
        } else if was.mode.Credentials? {
          ReloginIsAsPromised(rows, id, answers, later, undone);
        }
      }
    }
  }

  /** The row and the handle after a session step, at the end of the transaction. */
  function Closing(rows: Rows, id: AccountId, session: Session, undone: bool): (Reply, Option<string>, Rows)
  {
    match session
    case Broken => (RolledBack, None, rows)
    case Session(row, handle) =>
      if handle.Some? && undone then (RolledBack, handle, rows) else (Done, handle, rows[id := row])
  }

  lemma ReloginIsAsPromised(rows: Rows, id: AccountId, answers: SignIns, later: int, undone: bool)
    requires id in rows
    ensures var (reply, handle, next) := Closing(rows, id, Relogin(rows, id, rows[id], answers, later), undone);
            LoggedInAgain(rows, id, answers, later, undone, reply, handle, next)
  {
    LoginIsFirst(answers);
    var l := LoginFrom(answers, 0);
    if l.LoggedIn? {
      BindMeans(rows, id, rows[id], l.id);
      var n :| 0 <= n < 3 && Decides(answers, n) && answers.Try(n) == SignedIn(l.token, l.expiresAt, l.id);
    }
  }

  // ---- the service ----

  class AccountService {
    var rows: Rows
    var issued: AccountId
    var tried: seq<(string, string)>   // the user names and passwords that logins were made with

    ghost predicate Valid()
      reads this
    {
      forall a | a in rows :: a < issued
    }

    constructor (rows: Rows, issued: AccountId)
      requires forall a | a in rows :: a < issued
      ensures Valid() && this.rows == rows && tried == []
    {
      this.rows, this.issued, tried := rows, issued, [];
    }

    method LoginAndBootstrap(username: string, password: string, answers: SignIns) returns (login: Login)
      modifies this`tried
      ensures login == LoginFrom(answers, 0) && LoginMeans(answers, login)
      ensures tried == old(tried) + [(username, password)]
    {
      LoginIsFirst(answers);
      tried := tried + [(username, password)];
      for attempt := 0 to 3
        invariant LoginFrom(answers, 0) == LoginFrom(answers, attempt)
      {
        var answer := answers.Try(attempt);
        if answer.SignedIn? { return LoggedIn(answer.token, answer.expiresAt, answer.id); }
        if answer.SignInFailed? { return LoginFailed; }
      }
      return LoginRejected;
    }

    method BindOrMatchIdentity(id: AccountId, record: Account, gameId: string) returns (matches: bool, bound: Account)
      ensures (matches, bound) == Bind(rows, id, record, gameId)
      ensures matches <==> MayHave(rows, id, record, gameId)
      ensures bound == if matches then record.(gameId := Some(gameId)) else ShutOut(record, gameId)
    {
      bound := record;
      if gameId == "" { return false, bound; }
      if bound.gameId.None? {
        if TakenByOther(rows, id, gameId) {
          bound := bound.(enabled := false);
          bound := bound.(pausedReason := Some("account_identity_mismatch"));
          return false, bound;
        }
        bound := bound.(gameId := Some(gameId));
        return true, bound;
      }
      if bound.gameId.value == gameId { return true, bound; }
      bound := bound.(enabled := false);
      bound := bound.(pausedReason := Some("account_identity_mismatch"));
      return false, bound;
    }

    method AddCredentials(username: string, password: string, answers: SignIns) returns (reply: Reply)
      requires Valid()
      modifies this
      ensures Valid() && issued >= old(issued)
      ensures reply.Done? <==> LoginFrom(answers, 0).LoggedIn? && LoginFrom(answers, 0).id != ""
                               && MayEnrol(old(rows), LoginFrom(answers, 0).id)
      ensures !reply.Done? ==> rows == old(rows)
      ensures reply.Done? ==> old(issued) !in old(rows) && rows == old(rows)[old(issued) :=
                var l := LoginFrom(answers, 0);
                Enrolled(Credentials, Some(username), Some(password), l.token, l.expiresAt, l.id)]
      ensures tried == old(tried) + [(username, password)]
      // column by column: the login names an identity that no row has while every row has one, and one row is new
      ensures reply.Done? <==>
                exists g :: SignsInAs(answers, g) && g != ""
                            && forall a | a in old(rows) :: old(rows)[a].gameId.Some? && old(rows)[a].gameId != Some(g)
      ensures reply.Done? ==>
                && old(issued) in rows && rows == old(rows)[old(issued) := rows[old(issued)]]
                && var row := rows[old(issued)];
                   && row.mode == Credentials && row.username == Some(username) && row.password == Some(password)
                   && row.token.Some? && row.gameId.Some?
                   && SignsIn(answers, row.token.value, row.expiresAt, row.gameId.value)
                   && row.enabled && row.pausedReason == None && row.failures == Window(0, None)
    {
      var login := LoginAndBootstrap(username, password, answers);
      if login.LoginFailed? { return RolledBack; }
      if login.LoginRejected? { return Refused(AuthenticationRequired); }
      if login.id == "" { return Refused(AuthenticationRequired); }
      reply :=
        Insert(login.id, Enrolled(Credentials, Some(username), Some(password), login.token, login.expiresAt, login.id));
    }

    method AddTokenOnly(token: string, expiresAt: Option<int>, boot: Boot) returns (reply: Reply)
      requires Valid()
      modifies this
      ensures Valid() && issued >= old(issued)
      ensures reply.Done? <==> token != "" && boot.BootsTo? && boot.id != "" && MayEnrol(old(rows), boot.id)
      ensures !reply.Done? ==> rows == old(rows)
      ensures reply.Done? ==> old(issued) !in old(rows) && rows == old(rows)[old(issued) :=
                Enrolled(TokenOnly, None, None, token, expiresAt, boot.id)]
      ensures reply.Done? <==>
                && token != "" && boot.BootsTo? && boot.id != ""
                && forall a | a in old(rows) :: old(rows)[a].gameId.Some? && old(rows)[a].gameId != Some(boot.id)
      ensures reply.Done? ==> rows == old(rows)[old(issued) :=
                Account(TokenOnly, None, None, Some(token), expiresAt, true, None, Some(boot.id), Window(0, None))]
    {
      if token == "" { return Refused(InvalidValue); }
      match boot {
        case BootFailed => return RolledBack;
        case BootRejected => return Refused(AuthenticationRequired);
        case BootsTo(gameId) =>
          if gameId == "" { return Refused(AuthenticationRequired); }
          reply := Insert(gameId, Enrolled(TokenOnly, None, None, token, expiresAt, gameId));
      }
    }

    method Insert(gameId: string, record: Account) returns (reply: Reply)
      requires Valid()
      modifies this`rows, this`issued
      ensures Valid() && issued >= old(issued)
      ensures reply == if MayEnrol(old(rows), gameId) then Done else Refused(IdentityConflict)
      ensures old(issued) !in old(rows)
      ensures rows == if MayEnrol(old(rows), gameId) then old(rows)[old(issued) := record] else old(rows)
    {
      if Unresolved(rows) { return Refused(IdentityConflict); }
      if Managed(rows, gameId) { return Refused(IdentityConflict); }
      rows := rows[issued := record];
      issued := issued + 1;
      return Done;
    }

    method UpdateCredentials(id: AccountId, username: Option<string>, password: string, boot: Boot, stored: SignIns,
                             answers: SignIns) returns (reply: Reply)
      modifies this`rows, this`tried
      ensures (reply, rows) == UpdateTx(old(rows), id, password,
                if id in old(rows) then
                  UpdateCredentialsTx(old(rows), id, old(rows)[id], username, password, boot, stored, answers)
                else TakenBack)
      ensures UpdatePromise(old(rows), id, username, password, boot, stored, answers, reply, rows)
      ensures reply.Done? ==>
                tried == old(tried)
                  + (if old(rows)[id].gameId == None && old(rows)[id].mode == Credentials
                     then [(old(rows)[id].username.value, old(rows)[id].password.value)] else [])
                  + [(rows[id].username.value, password)]
    {
      UpdateIsAsPromised(rows, id, username, password, boot, stored, answers);
      if password == "" { return Refused(InvalidValue); }
      if id !in rows { return Refused(NotFound); }
      var record := rows[id];
      if RejectMarker(record).Some? { return Refused(RejectMarker(record).value); }
      var pending: Option<AccountError>;
      var broken;
      record, pending, broken := BindStoredIdentity(id, record, boot, stored);
      if broken { return RolledBack; }
      if pending.None? {
        record, pending, broken := Renew(id, record, username, password, answers);
        if broken { return RolledBack; }
      }
      rows := rows[id := record];
      return if pending.Some? then Refused(pending.value) else Done;
    }

    method ResolveStoredIdentity(record: Account, boot: Boot, answers: SignIns) returns (stored: Stored)
      modifies this`tried
      ensures stored == ResolveStored(record, boot, answers)
      ensures tried == old(tried)
                + (if record.mode == Credentials && HasSecret(record.username) && HasSecret(record.password)
                   then [(record.username.value, record.password.value)] else [])
      ensures forall g :: StoredTells(record, boot, answers, g) <==> stored == StoredIdentity(g)
      ensures stored == StoredFailed <==> StoredBreaks(record, boot, answers)
    {
      if record.mode.Credentials? {
        if Absent(record.username) || Absent(record.password) { return NoIdentity; }
        var login := LoginAndBootstrap(record.username.value, record.password.value, answers);
        match login {
          case LoginFailed => return StoredFailed;
          case LoginRejected => return NoIdentity;
          case LoggedIn(_, _, gameId) => return StoredIdentity(gameId);
        }
      }
      if Absent(record.token) { return NoIdentity; }
      match boot {
        case BootFailed => return StoredFailed;
        case BootRejected => return NoIdentity;
        case BootsTo(gameId) => return StoredIdentity(gameId);
      }
    }

    method BindStoredIdentity(id: AccountId, record: Account, boot: Boot, stored: SignIns)
      returns (bound: Account, pending: Option<AccountError>, broken: bool)
      modifies this`tried
      ensures (if broken then TakenBack else Progress(bound, pending)) == BindStored(rows, id, record, boot, stored)
      ensures tried == old(tried)
                + (if record.gameId == None && record.mode == Credentials && HasSecret(record.username)
                      && HasSecret(record.password)
                   then [(record.username.value, record.password.value)] else [])
    {
      bound, pending, broken := record, None, false;
      if record.gameId.None? {
        var identity := ResolveStoredIdentity(record, boot, stored);
        match identity {
          case StoredFailed => broken := true;
          case NoIdentity => pending := Some(AuthenticationRequired);
          case StoredIdentity(gameId) =>
            var matches;
            matches, bound := BindOrMatchIdentity(id, bound, gameId);
            if !matches { pending := Some(IdentityConflict); }
        }
      }
    }

    /** The second half of `update_credentials`. */
    method Renew(id: AccountId, record: Account, username: Option<string>, password: string, answers: SignIns)
      returns (renewed: Account, pending: Option<AccountError>, broken: bool)
      modifies this`tried
      ensures (if broken then TakenBack else Progress(renewed, pending))
              == Renewal(rows, id, record, username, password, answers)
      ensures tried == old(tried) + (
                if HasSecret(username) then [(username.value, password)]
                else if HasSecret(record.username) then [(record.username.value, password)] else [])
    {
      renewed, pending, broken := record, None, false;
      var proposed := if username.Some? && username.value != "" then username else record.username;
      if Absent(proposed) {
        pending := Some(AuthenticationRequired);
        return;
      }
      var login := LoginAndBootstrap(proposed.value, password, answers);
      match login {
        case LoginFailed => broken := true;
        case LoginRejected => pending := Some(AuthenticationRequired);
        case LoggedIn(token, expiresAt, gameId) =>
          var matches;
          matches, renewed := BindOrMatchIdentity(id, renewed, gameId);
          if !matches {
            pending := Some(IdentityConflict);
          } else {
            renewed := renewed.(mode := Credentials, username := proposed, password := Some(password));
            renewed := renewed.(token := Some(token), expiresAt := expiresAt);
            renewed := renewed.(pausedReason := None, failures := NO_FAILURES);
          }
      }
    }

    method UpdateTokenOnly(id: AccountId, token: string, expiresAt: Option<int>, stored: Boot, answers: SignIns,
                           boot: Boot)
      returns (reply: Reply)
      modifies this`rows, this`tried
      ensures (reply, rows) == UpdateTx(old(rows), id, token,
                if id in old(rows) then
                  UpdateTokenTx(old(rows), id, old(rows)[id], token, expiresAt, stored, answers, boot)
                else TakenBack)
      ensures TokenPromise(old(rows), id, token, expiresAt, stored, answers, boot, reply, rows)
    {
      TokenIsAsPromised(rows, id, token, expiresAt, stored, answers, boot);
      if token == "" { return Refused(InvalidValue); }
      if id !in rows { return Refused(NotFound); }
      var record := rows[id];
      if RejectMarker(record).Some? { return Refused(RejectMarker(record).value); }
      var pending: Option<AccountError>;
      var broken;
      record, pending, broken := BindStoredIdentity(id, record, stored, answers);
      if broken { return RolledBack; }
      if pending.None? {
        match boot {
          case BootFailed => return RolledBack;
          case BootRejected => pending := Some(AuthenticationRequired);
          case BootsTo(gameId) =>
            var matches;
            matches, record := BindOrMatchIdentity(id, record, gameId);
            if !matches { pending := Some(IdentityConflict); }
        }
      }
      if pending.None? {
        record := record.(mode := TokenOnly, username := None, password := None, token := Some(token));
        record := record.(expiresAt := expiresAt, pausedReason := None, failures := NO_FAILURES);
      }
      rows := rows[id := record];
      return if pending.Some? then Refused(pending.value) else Done;
    }

    /** `ensure_session` and `snapshot` (`mutable` is false), `locked` and `mutate` (true), to the end of the
        transaction. */
    method EnsureSession(id: AccountId, mutable: bool, boot: Boot, answers: SignIns, now: int, later: int, undone: bool)
      returns (reply: Reply, handle: Option<string>)
      modifies this`rows, this`tried
      ensures (reply, handle, rows) == SessionTx(old(rows), id, mutable, boot, answers, now, later, undone)
      ensures VisitPromise(old(rows), id, mutable, boot, answers, now, later, undone, reply, handle, rows)
      ensures tried == old(tried) + (
                if id in old(rows) && !(mutable && RequireMutable(old(rows)[id]).Some?)
                   && old(rows)[id].pausedReason == None && HasToLogIn(old(rows)[id], boot, now)
                   && old(rows)[id].mode == Credentials
                   && HasSecret(old(rows)[id].username) && HasSecret(old(rows)[id].password)
                then [(old(rows)[id].username.value, old(rows)[id].password.value)] else [])
    {
      VisitIsAsPromised(rows, id, mutable, boot, answers, now, later, undone);
      handle := None;
      if id !in rows { return Refused(NotFound), None; }
      var record := rows[id];
      if mutable && RequireMutable(record).Some? { return Refused(RequireMutable(record).value), None; }
      if record.pausedReason.Some? {
        assert rows == rows[id := record];
        return Done, None;
      }
      var refresh := record.token.None? || (record.expiresAt.Some? && record.expiresAt.value <= now + RENEWAL);
      var matches;
      if !refresh {
        if boot.BootFailed? { return RolledBack, None; }
        if boot.BootsTo? {
          matches, record := BindOrMatchIdentity(id, record, boot.id);
          if matches && undone { return RolledBack, Some(boot.id); }
          rows := rows[id := record];
          return Done, if matches then Some(boot.id) else None;
        }
      }
      if record.mode.TokenOnly? {
        record := record.(pausedReason := Some("session_refresh_required"));
        rows := rows[id := record];
        return Done, None;
      }
      var login := LoginRejected;
      if !Absent(record.username) && !Absent(record.password) {
        login := LoginAndBootstrap(record.username.value, record.password.value, answers);
      }
      match login {
        case LoginFailed => return RolledBack, None;
        case LoginRejected =>
          record := RecordAuthFailure(record, later);
          rows := rows[id := record];
          return Done, None;
        case LoggedIn(token, expiresAt, gameId) =>
          matches, record := BindOrMatchIdentity(id, record, gameId);
          if matches {
            record := record.(token := Some(token));
            record := record.(expiresAt := expiresAt);
            record := record.(failures := NO_FAILURES);
          }
          if matches && undone { return RolledBack, Some(gameId); }
          rows := rows[id := record];
          return Done, if matches then Some(gameId) else None;
      }
    }

    method RecordAuthFailure(record: Account, now: int) returns (failed: Account)
      ensures failed == FailAuth(record, now)
      ensures CountsFailure(record, failed, now)
    {
      failed := record;
      var started := failed.failures.started;
      if started.None? || now - started.value >= WINDOW {
        failed := failed.(failures := Window(1, Some(now)));
      } else {
        failed := failed.(failures := Window(failed.failures.count + 1, started));
      }
      if failed.failures.count >= 3 {
        failed := failed.(pausedReason := Some("authentication_required"));
      }
    }

    /** `enable` and `disable`. */
    method SetLifecycle(id: AccountId, enabled: bool) returns (reply: Reply)
      modifies this`rows
      ensures (reply, rows) == LifecycleTx(old(rows), id, enabled)
      ensures OnlyRow(old(rows), rows, id) && (!reply.Done? ==> rows == old(rows))
      ensures reply.Done? <==> id in old(rows) && Unmarked(old(rows)[id])
      ensures !reply.Done? ==> RefusedAtOnce(old(rows), id, "-", reply)
      ensures reply.Done? ==> && rows[id].enabled == enabled && rows[id].pausedReason == old(rows)[id].pausedReason
                              && SameSecrets(rows[id], old(rows)[id]) && SameIdentity(rows[id], old(rows)[id])
    {
      if id !in rows { return Refused(NotFound); }
      if RejectMarker(rows[id]).Some? { return Refused(RejectMarker(rows[id]).value); }
      rows := rows[id := rows[id].(enabled := enabled)];
      return Done;
    }

    method Pause(id: AccountId, reason: string) returns (reply: Reply)
      modifies this`rows
      ensures (reply, rows) == PauseTx(old(rows), id, reason)
      ensures OnlyRow(old(rows), rows, id) && (!reply.Done? ==> rows == old(rows))
      ensures reply.Done? <==> Strip(reason) != "" && id in old(rows) && Unmarked(old(rows)[id])
      ensures !reply.Done? ==> RefusedAtOnce(old(rows), id, Strip(reason), reply)
      ensures reply.Done? ==>
                && rows[id].pausedReason == Some(Strip(reason)) && rows[id].enabled == old(rows)[id].enabled
                && SameSecrets(rows[id], old(rows)[id]) && SameIdentity(rows[id], old(rows)[id])
    {
      if Strip(reason) == "" { return Refused(InvalidValue); }
      if id !in rows { return Refused(NotFound); }
      if RejectMarker(rows[id]).Some? { return Refused(RejectMarker(rows[id]).value); }
      rows := rows[id := rows[id].(pausedReason := Some(Strip(reason)))];
      return Done;
    }

    method Resume(id: AccountId) returns (reply: Reply)
      modifies this`rows
      ensures (reply, rows) == ResumeTx(old(rows), id)
      ensures OnlyRow(old(rows), rows, id) && (!reply.Done? ==> rows == old(rows))
      ensures reply.Done? <==> id in old(rows) && Unmarked(old(rows)[id])
      ensures !reply.Done? ==> RefusedAtOnce(old(rows), id, "-", reply)
      ensures reply.Done? ==> && rows[id].pausedReason.None? && rows[id].enabled == old(rows)[id].enabled
                              && SameSecrets(rows[id], old(rows)[id]) && SameIdentity(rows[id], old(rows)[id])
    {
      if id !in rows { return Refused(NotFound); }
      if rows[id].pausedReason == Some(REMOVED) { return Refused(Removed); }
      if rows[id].pausedReason == Some(REMOVING) { return Refused(Paused); }
      rows := rows[id := rows[id].(pausedReason := None)];
      return Done;
    }

    /** The first transaction of `disable_drain_remove`; Done means that the second one follows. */
    method MarkForRemoval(id: AccountId) returns (reply: Reply)
      modifies this`rows
      ensures (reply, rows) == MarkTx(old(rows), id)
      ensures OnlyRow(old(rows), rows, id) && (!reply.Done? ==> rows == old(rows))
      ensures reply.Done? <==> id in old(rows) && old(rows)[id].pausedReason != Some("removed")
      ensures !reply.Done? ==> reply == Refused(if id in old(rows) then Removed else NotFound)
      ensures reply.Done? ==> && Marked(rows[id]) && rows[id].pausedReason == Some("removing") && !rows[id].enabled
                              && SameSecrets(rows[id], old(rows)[id]) && SameIdentity(rows[id], old(rows)[id])
    {
      if id !in rows { return Refused(NotFound); }
      if rows[id].pausedReason == Some(REMOVED) { return Refused(Removed); }
      var record := rows[id].(enabled := false);
      record := record.(pausedReason := Some(REMOVING));
      rows := rows[id := record];
      return Done;
    }

    /** The second transaction, which waits for the account lock. */
    method DrainAndRemove(id: AccountId) returns (reply: Reply)
      modifies this`rows
      ensures (reply, rows) == DrainTx(old(rows), id)
      ensures OnlyRow(old(rows), rows, id) && (!reply.Done? ==> rows == old(rows))
      ensures reply == if id in old(rows) then Done else Refused(NotFound)
      ensures reply.Done? ==> && Marked(rows[id]) && rows[id].pausedReason == Some("removed") && !rows[id].enabled
                              && NoSecrets(rows[id]) && rows[id].expiresAt.None? && rows[id].mode == old(rows)[id].mode
                              && SameIdentity(rows[id], old(rows)[id])
    {
      if id !in rows { return Refused(NotFound); }
      var record := rows[id].(enabled := false, pausedReason := Some(REMOVED));
      record := record.(username := None);
      record := record.(password := None);
      record := record.(token := None);
      record := record.(expiresAt := None);
      rows := rows[id := record];
      return Done;
    }
  }
}
