/** What `ensure_jobs` guarantees, from any table of jobs, duplicates included. */
module SchedulerJobs {
  import opened Prelude
  import opened SchedulerStore

  /** An enabled idle-preview job of the account. */
  predicate Runs(jobs: map<JobId, Job>, j: JobId, a: AccountId)
  {
    Belongs(jobs, j, a) && jobs[j].kind.IdlePreview? && jobs[j].enabled
  }

  predicate IdleJob(jobs: map<JobId, Job>, j: JobId, a: AccountId)
  {
    Belongs(jobs, j, a) && jobs[j].kind.IdlePreview?
  }

  /** One call: `before` and `after` are the tables around it, `rows` what the database answered. */
  ghost predicate Ensured(before: map<JobId, Job>, accounts: seq<SchedulerAccount>, now: int, interval: int,
                          rows: seq<JobId>, after: map<JobId, Job>, added: map<AccountId, JobId>)
  {
    && ByAccountAndAge(before, Known(accounts), rows)
    && Settled(before, rows, Eligible(accounts), Known(accounts), now, interval, after, added)
  }

  lemma EligibleIsKnown(accounts: seq<SchedulerAccount>)
    ensures Eligible(accounts) <= Known(accounts)
  {}

  /** Every account with a row has an oldest one. */
  lemma {:induction false} SomeOldest(jobs: map<JobId, Job>, rows: seq<JobId>, i: nat, a: AccountId) returns (j: JobId)
    requires Rows(jobs, rows) && i < |rows| && Belongs(jobs, rows[i], a)
    ensures j in jobs && jobs[j].account == a && Oldest(jobs, rows, j)
    decreases i
  {
    if First(jobs, rows, i) {
      j := rows[i];
    } else {
      var k :| 0 <= k < i && Belongs(jobs, rows[k], a);
      j := SomeOldest(jobs, rows, k, a);
    }
  }

  /** Exactly one enabled job per eligible account, and it is a row that no other row of the account is older than. */
  lemma OneEnabledJob(before: map<JobId, Job>, accounts: seq<SchedulerAccount>, now: int, interval: int,
                      rows: seq<JobId>, after: map<JobId, Job>, added: map<AccountId, JobId>, a: AccountId)
    returns (job: JobId)
    requires Ensured(before, accounts, now, interval, rows, after, added) && a in Eligible(accounts)
    ensures Runs(after, job, a) && forall j | Runs(after, j, a) :: j == job
    ensures after[job].interval == interval && after[job].nextRunAt.Some?
    ensures job in before <==> exists j :: IdleJob(before, j, a)
    ensures forall j | IdleJob(before, j, a) :: job in before && before[job].createdAt <= before[j].createdAt
  {
    EligibleIsKnown(accounts);
    var known := Known(accounts);
    assert forall j | IdleJob(before, j, a) :: Selected(before, known, j);
    if HasRow(before, rows, a) {
      var i :| 0 <= i < |rows| && Belongs(before, rows[i], a);
      job := SomeOldest(before, rows, i, a);
      OnlyOldestRuns(before, accounts, now, interval, rows, after, added, a, job);
      OldestIsOldest(before, known, rows, a, job);
      assert IdleJob(before, job, a);
    } else {
      assert Lacking(before, rows, Eligible(accounts), a);
      job := added[a];
      OldestHasRow(before, rows, a);
      NoRowNoJob(before, known, rows, a);
      OthersUntouched(before, accounts, now, interval, rows, after, added);
      forall j | Runs(after, j, a) ensures j == job {
        assert !IdleJob(before, j, a);
      }
    }
  }

  lemma NoRowNoJob(before: map<JobId, Job>, known: set<AccountId>, rows: seq<JobId>, a: AccountId)
    requires ByAccountAndAge(before, known, rows) && a in known && !HasRow(before, rows, a)
    ensures forall j :: !IdleJob(before, j, a)
  {
    assert forall j | IdleJob(before, j, a) :: Selected(before, known, j);
    assert forall i | 0 <= i < |rows| :: !Belongs(before, rows[i], a);
  }

  lemma OldestIsOldest(before: map<JobId, Job>, known: set<AccountId>, rows: seq<JobId>, a: AccountId, job: JobId)
    requires ByAccountAndAge(before, known, rows) && a in known
    requires Belongs(before, job, a) && Oldest(before, rows, job)
    ensures IdleJob(before, job, a)
    ensures forall j | IdleJob(before, j, a) :: before[job].createdAt <= before[j].createdAt
  {
    var i :| 0 <= i < |rows| && rows[i] == job && First(before, rows, i);
    assert Selected(before, known, rows[i]);
    forall j | IdleJob(before, j, a) ensures before[job].createdAt <= before[j].createdAt {
      assert Selected(before, known, j);
      var k :| 0 <= k < |rows| && rows[k] == j;
      assert Belongs(before, rows[k], a);
    }
  }

  lemma OnlyOldestRuns(before: map<JobId, Job>, accounts: seq<SchedulerAccount>, now: int, interval: int,
                       rows: seq<JobId>, after: map<JobId, Job>, added: map<AccountId, JobId>, a: AccountId, job: JobId)
    requires Ensured(before, accounts, now, interval, rows, after, added) && a in Known(accounts)
    requires Belongs(before, job, a) && Oldest(before, rows, job) && HasRow(before, rows, a)
    ensures after[job] == Kept(before[job], a in Eligible(accounts), now, interval)
    ensures forall j | Runs(after, j, a) :: j == job && a in Eligible(accounts)
  {
    var known := Known(accounts);
    OldestIsOldest(before, known, rows, a, job);
    var o :| 0 <= o < |rows| && rows[o] == job && First(before, rows, o);
    assert Seen(rows, |rows|, job);
    forall j | Runs(after, j, a) ensures j == job && a in Eligible(accounts) {
      if j in before {
        assert Selected(before, known, j);
        var i :| 0 <= i < |rows| && rows[i] == j;
        assert Seen(rows, |rows|, j);
        if Oldest(before, rows, j) { OldestIsUnique(before, rows, j, job); }
      }
    }
  }

  /** The account is listed, enabled and not paused. */
  predicate Admitted(accounts: seq<SchedulerAccount>, a: AccountId)
  {
    exists i | 0 <= i < |accounts| :: accounts[i].id == a && accounts[i].enabled && accounts[i].pausedReason == None
  }

  predicate Listed(accounts: seq<SchedulerAccount>, a: AccountId)
  {
    exists i | 0 <= i < |accounts| :: accounts[i].id == a
  }

  lemma ListedOrAdmitted(accounts: seq<SchedulerAccount>, a: AccountId)
    ensures a in Known(accounts) <==> Listed(accounts, a)
    ensures a in Eligible(accounts) <==> Admitted(accounts, a)
  {}

  ghost predicate NoNewJob(before: map<JobId, Job>, after: map<JobId, Job>, a: AccountId)
  {
    forall j | j in after && j !in before :: after[j].account != a
  }

  /**
   * The jobs of a listed account, column by column. With jobs, an oldest one is kept: updated and enabled if the
   * account is admitted, disabled if not; all others are disabled, and none is new. Without, an admitted account gets
   * exactly one new job, due at once, and another gets none.
   */
  lemma JobsOfAccount(before: map<JobId, Job>, accounts: seq<SchedulerAccount>, now: int, interval: int,
                      rows: seq<JobId>, after: map<JobId, Job>, added: map<AccountId, JobId>, a: AccountId)
    returns (job: Option<JobId>)
    requires Ensured(before, accounts, now, interval, rows, after, added) && Listed(accounts, a)
    ensures forall j | IdleJob(before, j, a) && job != Some(j) :: j in after && after[j] == before[j].(enabled := false)
    ensures (exists j :: IdleJob(before, j, a)) ==>
              && job.Some? && OldestOf(before, a, job.value) && job.value in after && NoNewJob(before, after, a)
              && var was := before[job.value];
                 after[job.value] ==
                   if Admitted(accounts, a)
                   then was.(interval := interval, enabled := true,
                             nextRunAt := if was.nextRunAt.Some? then was.nextRunAt else Some(now))
                   else was.(enabled := false)
    ensures !(exists j :: IdleJob(before, j, a)) && Admitted(accounts, a) ==>
              && job.Some? && job.value in after && job.value !in before
              && after[job.value] == Job(a, IdlePreview, interval, true, Some(now), now)
              && forall j | j in after && j !in before && after[j].account == a :: j == job.value
    ensures !(exists j :: IdleJob(before, j, a)) && !Admitted(accounts, a) ==> job.None? && NoNewJob(before, after, a)
  {
    ListedOrAdmitted(accounts, a);
    var known := Known(accounts);
    assert forall j | IdleJob(before, j, a) :: Selected(before, known, j);
    if HasRow(before, rows, a) {
      var i :| 0 <= i < |rows| && Belongs(before, rows[i], a);
      var kept := SomeOldest(before, rows, i, a);
      job := Some(kept);
      OnlyOldestRuns(before, accounts, now, interval, rows, after, added, a, kept);
      OldestIsOldest(before, known, rows, a, kept);
      OthersOff(before, accounts, now, interval, rows, after, added, a, kept);
    } else {
      NoRowNoJob(before, known, rows, a);
      OldestHasRow(before, rows, a);
      job := if Admitted(accounts, a) then Some(added[a]) else None;
    }
  }

  lemma OthersOff(before: map<JobId, Job>, accounts: seq<SchedulerAccount>, now: int, interval: int,
                  rows: seq<JobId>, after: map<JobId, Job>, added: map<AccountId, JobId>, a: AccountId, kept: JobId)
    requires Ensured(before, accounts, now, interval, rows, after, added) && a in Known(accounts)
    requires Belongs(before, kept, a) && Oldest(before, rows, kept)
    ensures forall j | IdleJob(before, j, a) && j != kept :: j in after && after[j] == before[j].(enabled := false)
  {
    forall j | IdleJob(before, j, a) && j != kept ensures after[j] == before[j].(enabled := false) {
      assert Selected(before, Known(accounts), j);
      var i :| 0 <= i < |rows| && rows[i] == j;
      assert Seen(rows, |rows|, j);
      if Oldest(before, rows, j) { OldestIsUnique(before, rows, j, kept); }
    }
  }

  /** A known account that is not eligible ends up without an enabled job. */
  lemma NoneForIneligible(before: map<JobId, Job>, accounts: seq<SchedulerAccount>, now: int, interval: int,
                          rows: seq<JobId>, after: map<JobId, Job>, added: map<AccountId, JobId>, a: AccountId)
    requires Ensured(before, accounts, now, interval, rows, after, added)
    requires a in Known(accounts) && a !in Eligible(accounts)
    ensures forall j :: !Runs(after, j, a)
  {
    if HasRow(before, rows, a) {
      var i :| 0 <= i < |rows| && Belongs(before, rows[i], a);
      var job := SomeOldest(before, rows, i, a);
      OnlyOldestRuns(before, accounts, now, interval, rows, after, added, a, job);
    } else {
      NoRowNoJob(before, Known(accounts), rows, a);
      forall j ensures !Runs(after, j, a) {
        if Runs(after, j, a) && j in before { assert IdleJob(before, j, a); }
      }
    }
  }

  /** Unknown accounts and jobs of another kind are not touched, no row disappears and no planned time changes. */
  lemma OthersUntouched(before: map<JobId, Job>, accounts: seq<SchedulerAccount>, now: int, interval: int,
                        rows: seq<JobId>, after: map<JobId, Job>, added: map<AccountId, JobId>)
    requires Ensured(before, accounts, now, interval, rows, after, added)
    ensures before.Keys <= after.Keys
    ensures forall j | j in before && !Selected(before, Known(accounts), j) :: after[j] == before[j]
    ensures forall j | j in before :: after[j].account == before[j].account && after[j].kind == before[j].kind
              && after[j].createdAt == before[j].createdAt
              && (before[j].nextRunAt.Some? ==> after[j].nextRunAt == before[j].nextRunAt)
    ensures forall j | j in after && j !in before ::
              IdleJob(after, j, after[j].account) && after[j].account in Known(accounts)
              && after[j].nextRunAt == Some(now) && after[j].createdAt == now
              && (forall k :: !IdleJob(before, k, after[j].account))
    ensures forall j, k | j in after && j !in before && k in after && k !in before && j != k ::
              after[j].account != after[k].account
  {
    EligibleIsKnown(accounts);
    forall j | j in before && !Selected(before, Known(accounts), j) ensures after[j] == before[j] {
      assert !Seen(rows, |rows|, j);
    }
    forall j | j in after && j !in before ensures forall k :: !IdleJob(before, k, after[j].account) {
      NoRowNoJob(before, Known(accounts), rows, after[j].account);
    }
  }

  /** `j` is an idle-preview job of the account, and none is older. */
  ghost predicate OldestOf(jobs: map<JobId, Job>, a: AccountId, j: JobId)
  {
    IdleJob(jobs, j, a) && forall k | IdleJob(jobs, k, a) :: jobs[j].createdAt <= jobs[k].createdAt
  }

  /** No two jobs share the place of the account's oldest. */
  ghost predicate OneOldest(jobs: map<JobId, Job>, a: AccountId)
  {
    forall j, k | OldestOf(jobs, a, j) && OldestOf(jobs, a, k) :: j == k
  }

  ghost predicate OneOldestEach(jobs: map<JobId, Job>, eligible: set<AccountId>)
  {
    forall a | a in eligible :: OneOldest(jobs, a)
  }

  lemma RowOptions(before: map<JobId, Job>, accounts: seq<SchedulerAccount>, now: int, interval: int,
                   rows: seq<JobId>, after: map<JobId, Job>, added: map<AccountId, JobId>, j: JobId)
    requires Ensured(before, accounts, now, interval, rows, after, added) && j in before
    ensures j in after
    ensures after[j] == before[j] || after[j] == before[j].(enabled := false)
            || after[j] == Kept(before[j], true, now, interval)
  {}

  /** `job` is the only enabled one of the account, and nothing of the account is older. */
  ghost predicate TheJob(before: map<JobId, Job>, after: map<JobId, Job>, a: AccountId, interval: int, job: JobId)
  {
    && Runs(after, job, a) && (forall j | Runs(after, j, a) :: j == job)
    && after[job].interval == interval && after[job].nextRunAt.Some?
    && (forall j | IdleJob(before, j, a) :: job in before && before[job].createdAt <= before[j].createdAt)
  }

  ghost predicate HasTheJob(before: map<JobId, Job>, after: map<JobId, Job>, a: AccountId, interval: int)
  {
    exists job :: TheJob(before, after, a, interval, job)
  }

  ghost predicate MayBecome(was: Job, job: Job, interval: int)
  {
    job == was || job == was.(enabled := false)
    || (exists now :: job == Kept(was, true, now, interval))
  }

  ghost predicate NoJob(jobs: map<JobId, Job>, a: AccountId) { forall j :: !Runs(jobs, j, a) }

  ghost predicate NewWhereNone(before: map<JobId, Job>, after: map<JobId, Job>, eligible: set<AccountId>, j: JobId)
    requires j in after
  {
    Runs(after, j, after[j].account) && after[j].account in eligible
    && forall k :: !IdleJob(before, k, after[j].account)
  }

  /** A call, seen from outside. */
  ghost predicate Effect(before: map<JobId, Job>, known: set<AccountId>, eligible: set<AccountId>, interval: int,
                         after: map<JobId, Job>)
  {
    && before.Keys <= after.Keys
    && (forall j | j in before :: MayBecome(before[j], after[j], interval))
    && (forall j | j in before && !Selected(before, known, j) :: after[j] == before[j])
    && (forall j | j in after && j !in before :: NewWhereNone(before, after, eligible, j))
    && (forall a | a in eligible :: HasTheJob(before, after, a, interval))
    && (forall a | a in known && a !in eligible :: NoJob(after, a))
  }

  lemma EffectOf(before: map<JobId, Job>, accounts: seq<SchedulerAccount>, now: int, interval: int,
                 rows: seq<JobId>, after: map<JobId, Job>, added: map<AccountId, JobId>)
    requires Ensured(before, accounts, now, interval, rows, after, added)
    ensures Effect(before, Known(accounts), Eligible(accounts), interval, after)
  {
    OthersUntouched(before, accounts, now, interval, rows, after, added);
    forall j | j in before ensures MayBecome(before[j], after[j], interval) {
      RowOptions(before, accounts, now, interval, rows, after, added, j);
    }
    forall a | a in Eligible(accounts) ensures HasTheJob(before, after, a, interval) {
      var job := OneEnabledJob(before, accounts, now, interval, rows, after, added, a);
      assert TheJob(before, after, a, interval, job);
    }
    forall a | a in Known(accounts) && a !in Eligible(accounts) ensures NoJob(after, a) {
      NoneForIneligible(before, accounts, now, interval, rows, after, added, a);
    }
  }

  lemma SameOldest(before: map<JobId, Job>, after: map<JobId, Job>, a: AccountId, interval: int, job: JobId,
                   kept: JobId)
    requires OneOldest(before, a) && TheJob(before, after, a, interval, job)
    requires IdleJob(after, kept, a) && after[kept].createdAt <= after[job].createdAt
    requires forall j | j in before && j in after :: IdleJob(after, j, a) ==> IdleJob(before, j, a)
    requires forall j | j in before && j in after :: after[j].createdAt == before[j].createdAt
    requires kept !in before ==> Runs(after, kept, a)
    ensures kept == job
  {
    if kept in before {
      assert IdleJob(before, kept, a);
      assert OldestOf(before, a, job) && OldestOf(before, a, kept);
    }
  }

  /** The second call enables the same job that the first one did. */
  lemma SameJob(before: map<JobId, Job>, known: set<AccountId>, eligible: set<AccountId>, interval: int,
                after: map<JobId, Job>, final: map<JobId, Job>, a: AccountId)
    requires Effect(before, known, eligible, interval, after) && Effect(after, known, eligible, interval, final)
    requires OneOldestEach(before, eligible) && a in eligible
    ensures forall j :: Runs(after, j, a) <==> Runs(final, j, a)
    ensures forall j | Runs(after, j, a) :: after[j].interval == interval && after[j].nextRunAt.Some?
  {
    assert HasTheJob(before, after, a, interval) && HasTheJob(after, final, a, interval);
    var job :| TheJob(before, after, a, interval, job);
    var kept :| TheJob(after, final, a, interval, kept);
    assert IdleJob(after, job, a);
    KeptWasThere(after, known, eligible, interval, final, a, kept, job);
    assert kept !in before ==> NewWhereNone(before, after, eligible, kept);
    assert forall j | j in before && j in after :: MayBecome(before[j], after[j], interval);
    SameOldest(before, after, a, interval, job, kept);
  }

  lemma KeptWasThere(after: map<JobId, Job>, known: set<AccountId>, eligible: set<AccountId>, interval: int,
                     final: map<JobId, Job>, a: AccountId, kept: JobId, job: JobId)
    requires Effect(after, known, eligible, interval, final) && TheJob(after, final, a, interval, kept)
    requires IdleJob(after, job, a)
    ensures IdleJob(after, kept, a) && after[kept].createdAt <= after[job].createdAt
  {
    assert MayBecome(after[kept], final[kept], interval);
  }

  lemma RowStays(before: map<JobId, Job>, known: set<AccountId>, eligible: set<AccountId>, interval: int,
                 after: map<JobId, Job>, final: map<JobId, Job>, j: JobId)
    requires Effect(before, known, eligible, interval, after) && Effect(after, known, eligible, interval, final)
    requires OneOldestEach(before, eligible) && j in after
    ensures final[j] == after[j]
  {
    var a := after[j].account;
    if Selected(after, known, j) {
      if a in eligible {
        SameJob(before, known, eligible, interval, after, final, a);
      } else {
        assert NoJob(after, a) && NoJob(final, a);
      }
      assert MayBecome(after[j], final[j], interval);
      assert Runs(after, j, a) <==> Runs(final, j, a);
    }
  }

  lemma NothingMore(before: map<JobId, Job>, known: set<AccountId>, eligible: set<AccountId>, interval: int,
                    after: map<JobId, Job>, final: map<JobId, Job>, j: JobId)
    requires Effect(before, known, eligible, interval, after) && Effect(after, known, eligible, interval, final)
    requires j in final
    ensures j in after
  {
    var a := final[j].account;
    if a in eligible {
      assert HasTheJob(before, after, a, interval);
      var job :| TheJob(before, after, a, interval, job);
      assert IdleJob(after, job, a);
    }
    assert j !in after ==> NewWhereNone(after, final, eligible, j);
  }

  /** If the oldest job of each eligible account is unique, a second call, at any time and whatever order the database
      picks, changes nothing. */
  lemma Idempotent(before: map<JobId, Job>, accounts: seq<SchedulerAccount>, now: int, interval: int, rows: seq<JobId>,
                   after: map<JobId, Job>, added: map<AccountId, JobId>,
                   later: int, again: seq<JobId>, final: map<JobId, Job>, more: map<AccountId, JobId>)
    requires Ensured(before, accounts, now, interval, rows, after, added) && OneOldestEach(before, Eligible(accounts))
    requires Ensured(after, accounts, later, interval, again, final, more)
    ensures final == after
  {
    EffectOf(before, accounts, now, interval, rows, after, added);
    EffectOf(after, accounts, later, interval, again, final, more);
    SecondEffect(before, Known(accounts), Eligible(accounts), interval, after, final);
  }

  lemma SecondEffect(before: map<JobId, Job>, known: set<AccountId>, eligible: set<AccountId>, interval: int,
                     after: map<JobId, Job>, final: map<JobId, Job>)
    requires Effect(before, known, eligible, interval, after) && Effect(after, known, eligible, interval, final)
    requires OneOldestEach(before, eligible)
    ensures final == after
  {
    forall j | j in after ensures j in final && final[j] == after[j] {
      RowStays(before, known, eligible, interval, after, final, j);
    }
    forall j | j in final ensures j in after {
      NothingMore(before, known, eligible, interval, after, final, j);
    }
  }

  // ---- and if not, it may ----

  predicate NotAfter(jobs: map<JobId, Job>, j: JobId, k: JobId)
    requires j in jobs && k in jobs
  {
    jobs[j].account < jobs[k].account || (jobs[j].account == jobs[k].account && jobs[j].createdAt <= jobs[k].createdAt)
  }

  predicate InOrder(jobs: map<JobId, Job>, rows: seq<JobId>)
    requires forall i | 0 <= i < |rows| :: rows[i] in jobs
  {
    forall i, k | 0 <= i < k < |rows| :: rows[i] != rows[k] && NotAfter(jobs, rows[i], rows[k])
  }

  lemma {:induction false} SomeFirst(jobs: map<JobId, Job>, s: set<JobId>) returns (j: JobId)
    requires s != {} && s <= jobs.Keys
    ensures j in s && forall k | k in s :: NotAfter(jobs, j, k)
  {
    var x :| x in s;
    var rest := s - {x};
    if rest == {} {
      j := x;
      forall k | k in s ensures NotAfter(jobs, j, k) {
        assert k == x || k in rest;
      }
    } else {
      var y := SomeFirst(jobs, rest);
      j := if NotAfter(jobs, x, y) then x else y;
      forall k | k in s ensures NotAfter(jobs, j, k) {
        if k != x { assert k in rest && NotAfter(jobs, y, k); }
      }
    }
  }

  lemma AnswersByAge(jobs: map<JobId, Job>, known: set<AccountId>, rows: seq<JobId>)
    requires forall j :: j in rows <==> Selected(jobs, known, j)
    requires (forall i | 0 <= i < |rows| :: rows[i] in jobs) && InOrder(jobs, rows)
    ensures ByAccountAndAge(jobs, known, rows)
  {
    assert forall i | 0 <= i < |rows| :: rows[i] in rows;
  }

  /** Every row before `pick` comes strictly before it in the order of the query. */
  predicate AsEarlyAsCanBe(jobs: map<JobId, Job>, rows: seq<JobId>, pick: JobId)
    requires pick in jobs && forall i | 0 <= i < |rows| :: rows[i] in jobs
  {
    forall i, p | 0 <= i < p < |rows| && rows[p] == pick :: !NotAfter(jobs, pick, rows[i])
  }

  /** There is an answer that puts `pick` as early as the order of the query allows. */
  lemma {:induction false} OrderedWith(jobs: map<JobId, Job>, s: set<JobId>, pick: JobId) returns (rows: seq<JobId>)
    requires s <= jobs.Keys && pick in jobs
    ensures forall j :: j in rows <==> j in s
    ensures (forall i | 0 <= i < |rows| :: rows[i] in jobs) && InOrder(jobs, rows) && AsEarlyAsCanBe(jobs, rows, pick)
    decreases |s|
  {
    if s == {} {
      rows := [];
    } else {
      var x := SomeFirst(jobs, s);
      var first := if pick in s && NotAfter(jobs, pick, x) then pick else x;
      var rest := OrderedWith(jobs, s - {first}, pick);
      rows := [first] + rest;
      assert forall i | 0 <= i < |rest| :: rest[i] in rest && rest[i] in s - {first};
      forall k | 0 < k < |rows| ensures rows[k] == rest[k-1] && NotAfter(jobs, first, rows[k]) && rows[k] != first {}
      forall i, p | 0 <= i < p < |rows| && rows[p] == pick ensures !NotAfter(jobs, pick, rows[i]) {
        if i > 0 { assert rows[i] == rest[i-1] && rest[p-1] == pick; }
      }
    }
  }

  lemma PickIsOldest(jobs: map<JobId, Job>, known: set<AccountId>, rows: seq<JobId>, a: AccountId, pick: JobId)
    requires ByAccountAndAge(jobs, known, rows) && a in known && OldestOf(jobs, a, pick)
    requires AsEarlyAsCanBe(jobs, rows, pick)
    ensures Seen(rows, |rows|, pick) && Oldest(jobs, rows, pick)
  {
    assert Selected(jobs, known, pick);
    var p :| 0 <= p < |rows| && rows[p] == pick;
    forall i | 0 <= i < p ensures !Belongs(jobs, rows[i], a) {
      assert !NotAfter(jobs, pick, rows[i]) && Selected(jobs, known, rows[i]);
      assert Belongs(jobs, rows[i], a) ==> IdleJob(jobs, rows[i], a);
    }
    assert First(jobs, rows, p);
  }

  /** The table that a second call makes of a given answer, if no account lacks a job. */
  lemma SecondCall(jobs: map<JobId, Job>, accounts: seq<SchedulerAccount>, now: int, interval: int, rows: seq<JobId>)
    returns (final: map<JobId, Job>)
    requires ByAccountAndAge(jobs, Known(accounts), rows)
    requires forall a | a in Eligible(accounts) :: HasRow(jobs, rows, a)
    ensures Ensured(jobs, accounts, now, interval, rows, final, map[])
    ensures forall j | j in jobs ::
              j in final && final[j] == SettledRow(jobs, rows, j, Eligible(accounts), Known(accounts), now, interval)
  {
    final := map j | j in jobs :: SettledRow(jobs, rows, j, Eligible(accounts), Known(accounts), now, interval);
  }

  lemma EveryoneHasARow(before: map<JobId, Job>, accounts: seq<SchedulerAccount>, now: int, interval: int,
                        rows: seq<JobId>,
                        after: map<JobId, Job>, added: map<AccountId, JobId>, again: seq<JobId>, a: AccountId)
    requires Ensured(before, accounts, now, interval, rows, after, added) && a in Eligible(accounts)
    requires ByAccountAndAge(after, Known(accounts), again)
    ensures HasRow(after, again, a)
  {
    EligibleIsKnown(accounts);
    var job := OneEnabledJob(before, accounts, now, interval, rows, after, added, a);
    assert Selected(after, Known(accounts), job);
    var i :| 0 <= i < |again| && again[i] == job;
    assert Belongs(after, again[i], a);
  }

  /** An oldest job stays one: the account has jobs, so none is added. */
  lemma StaysOldest(before: map<JobId, Job>, accounts: seq<SchedulerAccount>, now: int, interval: int, rows: seq<JobId>,
                    after: map<JobId, Job>, added: map<AccountId, JobId>, a: AccountId, pick: JobId)
    requires Ensured(before, accounts, now, interval, rows, after, added) && OldestOf(before, a, pick)
    ensures OldestOf(after, a, pick)
  {
    OthersUntouched(before, accounts, now, interval, rows, after, added);
    forall k | IdleJob(after, k, a) ensures k in before && IdleJob(before, k, a) {
      assert IdleJob(before, pick, a);
    }
  }

  /** Where two jobs share the place of an eligible account's oldest, some answer makes a second call enable the other
      one, at any later time. */
  lemma TiedJobTakesOver(before: map<JobId, Job>, accounts: seq<SchedulerAccount>, now: int, interval: int,
                         rows: seq<JobId>,
                         after: map<JobId, Job>, added: map<AccountId, JobId>, a: AccountId, j: JobId, k: JobId,
                         later: int)
    returns (again: seq<JobId>, final: map<JobId, Job>)
    requires Ensured(before, accounts, now, interval, rows, after, added) && a in Eligible(accounts)
    requires OldestOf(before, a, j) && OldestOf(before, a, k) && j != k
    ensures Ensured(after, accounts, later, interval, again, final, map[]) && final != after
  {
    EligibleIsKnown(accounts);
    var known := Known(accounts);
    var job := OneEnabledJob(before, accounts, now, interval, rows, after, added, a);
    var pick := if job == j then k else j;
    StaysOldest(before, accounts, now, interval, rows, after, added, a, pick);
    again := OrderedWith(after, (set x | x in after && Selected(after, known, x)), pick);
    AnswersByAge(after, known, again);
    PickIsOldest(after, known, again, a, pick);
    forall b | b in Eligible(accounts) ensures HasRow(after, again, b) {
      EveryoneHasARow(before, accounts, now, interval, rows, after, added, again, b);
    }
    final := SecondCall(after, accounts, later, interval, again);
    assert !Runs(after, pick, a) && Runs(final, pick, a);
  }

  /** A second call changes nothing, at whatever time and for every answer of the database. */
  ghost predicate SecondCallIsIdle(after: map<JobId, Job>, accounts: seq<SchedulerAccount>, interval: int)
  {
    forall later, again, final, more | Ensured(after, accounts, later, interval, again, final, more) :: final == after
  }

  /** That is so exactly if no two jobs share the place of an eligible account's oldest. */
  lemma IdempotentExactlyIf(before: map<JobId, Job>, accounts: seq<SchedulerAccount>, now: int, interval: int,
                            rows: seq<JobId>, after: map<JobId, Job>, added: map<AccountId, JobId>)
    requires Ensured(before, accounts, now, interval, rows, after, added)
    ensures SecondCallIsIdle(after, accounts, interval) <==> OneOldestEach(before, Eligible(accounts))
  {
    if OneOldestEach(before, Eligible(accounts)) {
      forall later, again, final, more | Ensured(after, accounts, later, interval, again, final, more)
        ensures final == after
      {
        Idempotent(before, accounts, now, interval, rows, after, added, later, again, final, more);
      }
    } else {
      var a :| a in Eligible(accounts) && !OneOldest(before, a);
      var j, k :| OldestOf(before, a, j) && OldestOf(before, a, k) && j != k;
      var again, final := TiedJobTakesOver(before, accounts, now, interval, rows, after, added, a, j, k, now);
    }
  }

  /** With two jobs of the same age the database may answer in either order, and the second call may swap them. */
  lemma EqualAgesMaySwap()
    ensures var accounts := [SchedulerAccount(7, true, None)];
            var x := Job(7, IdlePreview, 60, true, Some(0), 0);
            var y := x.(enabled := false);
            && Ensured(map[1 := x, 2 := x], accounts, 0, 60, [1, 2], map[1 := x, 2 := y], map[])
            && Ensured(map[1 := x, 2 := y], accounts, 0, 60, [2, 1], map[1 := y, 2 := x], map[])
  {
    var accounts := [SchedulerAccount(7, true, None)];
    var x := Job(7, IdlePreview, 60, true, Some(0), 0);
    var y := x.(enabled := false);
    assert EligibleView(accounts[0]);
    assert Known(accounts) == {7} == Eligible(accounts);
    Swap(map[1 := x, 2 := x], [1, 2], 1, 2);
    Swap(map[1 := x, 2 := y], [2, 1], 2, 1);
    assert Belongs(map[1 := x, 2 := x], [1, 2][0], 7) && Belongs(map[1 := x, 2 := y], [2, 1][0], 7);
  }

  lemma Swap(jobs: map<JobId, Job>, rows: seq<JobId>, j: JobId, k: JobId)
    requires j != k && rows == [j, k] && j in jobs && k in jobs && jobs[j].account == jobs[k].account
    ensures Seen(rows, |rows|, j) && Seen(rows, |rows|, k) && Oldest(jobs, rows, j) && !Oldest(jobs, rows, k)
  {
    assert rows[0] == j && rows[1] == k;
    assert First(jobs, rows, 0);
    assert Belongs(jobs, rows[0], jobs[k].account);
  }
}
