/** `PostgresPolicyService` (policy/store.py): compare-and-swap on an account's policy. `P` is the policy document. */
module PolicyStore {
  import opened Prelude

  type AccountId = nat

  /** What the JSON column holds: a policy that validates, or something else. */
  datatype Document<P> = Valid(policy: P) | Malformed
  datatype PolicyRow<P> = PolicyRow(document: Document<P>, version: int)
  datatype AccountRow<P> = AccountRow(version: int, row: Option<PolicyRow<P>>)

  datatype Reply<P> = Versioned(version: int, policy: P) | PolicyUnavailable | PolicyConflict
  datatype Audit = SavedAudit(version: int) | ConflictAudit

  /** `_versioned`. */
  function VersionedOf<P>(a: AccountRow<P>, defaults: P): Reply<P>
  {
    if a.version < 1 then PolicyUnavailable
    else match a.row
      case None => if a.version != 1 then PolicyUnavailable else Versioned(1, defaults)
      case Some(row) =>
        if row.version != a.version || row.document.Malformed? then PolicyUnavailable
        else Versioned(a.version, row.document.policy)
  }

  /** The compare-and-swap, on one account. */
  function SaveTx<P>(a: AccountRow<P>, defaults: P, policy: P, expected: int): (Reply<P>, AccountRow<P>)
  {
    if VersionedOf(a, defaults).PolicyUnavailable? then (PolicyUnavailable, a)
    else if expected != a.version then (PolicyConflict, a)
    else (Versioned(a.version + 1, policy), AccountRow(a.version + 1, Some(PolicyRow(Valid(policy), a.version + 1))))
  }

  /** The two versions agree, and the document is a policy; without a row the version is the first. */
  predicate Agrees<P>(a: AccountRow<P>)
  {
    && a.version >= 1
    && (a.row.None? ==> a.version == 1)
    && (a.row.Some? ==> a.row.value.version == a.version && a.row.value.document.Valid?)
  }

  /** The policy in force: the stored one, or the defaults before the first save. */
  function InForce<P>(a: AccountRow<P>, defaults: P): P
    requires Agrees(a)
  {
    if a.row.Some? then a.row.value.document.policy else defaults
  }

  class PostgresPolicyService<P> {
    const defaults: P
    var accounts: map<AccountId, AccountRow<P>>
    var audits: seq<(AccountId, Audit)>

    constructor (defaults: P, accounts: map<AccountId, AccountRow<P>>)
      ensures this.defaults == defaults && this.accounts == accounts && audits == []
    {
      this.defaults, this.accounts, audits := defaults, accounts, [];
    }

    method Get(id: AccountId) returns (reply: Reply<P>)
      ensures reply == if id in accounts then VersionedOf(accounts[id], defaults) else PolicyUnavailable
      ensures !reply.PolicyConflict?
      ensures reply == if id in accounts && Agrees(accounts[id])
                       then Versioned(accounts[id].version, InForce(accounts[id], defaults)) else PolicyUnavailable
    {
      if id !in accounts { return PolicyUnavailable; }
      return VersionedOf(accounts[id], defaults);
    }

    method Save(id: AccountId, policy: P, expected: int) returns (reply: Reply<P>)
      modifies this
      ensures id !in old(accounts) ==> reply == PolicyUnavailable && accounts == old(accounts)
      ensures id in old(accounts) ==>
                && id in accounts && (reply, accounts[id]) == SaveTx(old(accounts)[id], defaults, policy, expected)
                && accounts == old(accounts)[id := accounts[id]]
      ensures !reply.Versioned? ==> accounts == old(accounts)
      // column by column: the swap happens exactly for the version in force, and a conflict is any other
      ensures reply.PolicyUnavailable? <==> !(id in old(accounts) && Agrees(old(accounts)[id]))
      ensures reply.Versioned? <==>
                id in old(accounts) && Agrees(old(accounts)[id]) && old(accounts)[id].version == expected
      ensures reply.Versioned? ==>
                && reply == Versioned(expected + 1, policy)
                && accounts == old(accounts)[id := AccountRow(expected + 1,
                                                              Some(PolicyRow(Document.Valid(policy), expected + 1)))]
      ensures audits == old(audits) + match reply
                                      case Versioned(v, _) => [(id, SavedAudit(v))]
                                      case PolicyConflict => [(id, ConflictAudit)]
                                      case PolicyUnavailable => []
    {
      var conflict, unavailable := false, false;
      var saved: Option<Reply<P>> := None;
      if id !in accounts {
        unavailable := true;
      } else {
        var account := accounts[id];
        if VersionedOf(account, defaults).PolicyUnavailable? { unavailable := true; }
        if !unavailable {
          if expected < 1 || expected != account.version
            || (account.row.Some? && expected != account.row.value.version)
          {
            conflict := true;
          } else {
            var next := expected + 1;
            if account.row.None? {
              account := account.(row := Some(PolicyRow(Valid(policy), next)));
            } else {
              account := account.(row := Some(account.row.value.(document := Valid(policy))));
              account := account.(row := Some(account.row.value.(version := next)));
            }
            account := account.(version := next);
            accounts := accounts[id := account];
            saved := Some(Versioned(next, policy));
          }
        }
        if !unavailable && conflict {
          audits := audits + [(id, ConflictAudit)];
        } else if !unavailable && saved.Some? {
          audits := audits + [(id, SavedAudit(expected + 1))];
        }
      }
      if unavailable { return PolicyUnavailable; }
      if conflict { return PolicyConflict; }
      if saved.None? { return PolicyUnavailable; }
      return saved.value;
    }
  }

  // ---- histories of one account ----

  datatype Call<P> = Put(policy: P, expected: int) | Read

  /** An account is enrolled at version 1, with no policy row. */
  function Enrolled<P>(): AccountRow<P> { AccountRow(1, None) }

  function Serve<P>(a: AccountRow<P>, defaults: P, call: Call<P>): (Reply<P>, AccountRow<P>)
  {
    match call
    case Put(policy, expected) => SaveTx(a, defaults, policy, expected)
    case Read => (VersionedOf(a, defaults), a)
  }

  /** The account after the calls, in the order in which their transactions committed. */
  function After<P>(defaults: P, calls: seq<Call<P>>): AccountRow<P>
  {
    if calls == [] then Enrolled() else Serve(After(defaults, calls[..|calls|-1]), defaults, calls[|calls|-1]).1
  }

  function ReplyTo<P>(defaults: P, calls: seq<Call<P>>, n: nat): Reply<P>
    requires n < |calls|
  {
    Serve(After(defaults, calls[..n]), defaults, calls[n]).0
  }

  /** The reference: the list of policies that won, which needs no versions at all. */
  function Winners<P>(calls: seq<Call<P>>): seq<P>
  {
    if calls == [] then []
    else
      var won := Winners(calls[..|calls|-1]);
      var call := calls[|calls|-1];
      if call.Put? && call.expected == |won| + 1 then won + [call.policy] else won
  }

  function Current<P>(defaults: P, won: seq<P>): P { if won == [] then defaults else won[|won|-1] }

  /**
   * Both versions are 1 plus the number of successful saves, and the document is that of the last winner.
   */
  lemma {:induction false} StoreIsListOfWinners<P>(defaults: P, calls: seq<Call<P>>)
    ensures var a, won := After(defaults, calls), Winners(calls);
            && a.version == 1 + |won|
            && a.row == (if won == [] then None else Some(PolicyRow(Valid(won[|won|-1]), 1 + |won|)))
            && VersionedOf(a, defaults) == Versioned(1 + |won|, Current(defaults, won))
  {
    if calls != [] { StoreIsListOfWinners(defaults, calls[..|calls|-1]); }
  }

  /** Every reply is the one that a single register with a list of winners would give. */
  lemma Linearisable<P>(defaults: P, calls: seq<Call<P>>, n: nat)
    requires n < |calls|
    ensures var won := Winners(calls[..n]);
            ReplyTo(defaults, calls, n) ==
              match calls[n]
              case Read => Versioned(1 + |won|, Current(defaults, won))
              case Put(policy, expected) =>
                if expected == 1 + |won| then Versioned(2 + |won|, policy) else PolicyConflict
  {
    StoreIsListOfWinners(defaults, calls[..n]);
  }

  /** For each expected version exactly one save wins: the first that came while it was current. */
  lemma {:induction false} OneWinnerPerVersion<P>(defaults: P, calls: seq<Call<P>>, m: nat, n: nat)
    requires m < n < |calls| && calls[m].Put? && calls[n].Put? && calls[m].expected == calls[n].expected
    requires ReplyTo(defaults, calls, m).Versioned?
    ensures ReplyTo(defaults, calls, n).PolicyConflict?
  {
    Linearisable(defaults, calls, m);
    Linearisable(defaults, calls, n);
    assert calls[..m+1][..m] == calls[..m];
    assert |Winners(calls[..m+1])| == |Winners(calls[..m])| + 1;
    WinnersGrow(calls, m + 1, n);
  }

  lemma {:induction false} WinnersGrow<P>(calls: seq<Call<P>>, m: nat, n: nat)
    requires m <= n <= |calls|
    ensures Winners(calls[..m]) <= Winners(calls[..n])
  {
    if m < n {
      assert calls[..n][..n-1] == calls[..n-1];
      WinnersGrow(calls, m, n - 1);
    }
  }

  /** Every version that was reached was won by a save that expected the one before it. */
  lemma {:induction false} EveryVersionWasWon<P>(defaults: P, calls: seq<Call<P>>, k: nat) returns (n: nat)
    requires k < |Winners(calls)|
    ensures n < |calls| && calls[n] == Put(Winners(calls)[k], k + 1)
    ensures ReplyTo(defaults, calls, n) == Versioned(k + 2, Winners(calls)[k])
  {
    var last := |calls| - 1;
    var won := Winners(calls[..last]);
    if k < |won| {
      n := EveryVersionWasWon(defaults, calls[..last], k);
      assert calls[..last][..n] == calls[..n];
    } else {
      n := last;
      Linearisable(defaults, calls, n);
    }
  }
}
