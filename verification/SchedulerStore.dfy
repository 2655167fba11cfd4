/** `PostgresIdlePreviewStore` (scheduler.py): the leader lease, the job rows and the runs. Times are microseconds. */
module SchedulerStore {
  import opened Prelude

  type AccountId = nat
  type JobId = nat
  type RunId = nat    // position in the table of runs, which only grows
  type Worker = nat

  datatype Kind = IdlePreview | OtherKind

  datatype Job = Job(account: AccountId, kind: Kind, interval: int, enabled: bool, nextRunAt: Option<int>,
                     createdAt: int)

  datatype RunResult = Succeeded | FailedWith(code: nat)

  datatype JobRun = JobRun(job: JobId, account: AccountId, slot: int, dispatchedAt: int, owner: Option<Worker>,
                           leaseExpiresAt: Option<int>, attempt: nat, result: Option<RunResult>,
                           completedAt: Option<int>)

  datatype ClaimedRun = ClaimedRun(runId: RunId, jobId: JobId, account: AccountId, scheduledFor: int)

  datatype LeaseRow = LeaseRow(owner: Option<Worker>, expiresAt: Option<int>)

  datatype SchedulerAccount = SchedulerAccount(id: AccountId, enabled: bool, pausedReason: Option<string>)

  const SECOND := 1_000_000

  /** What `idle_preview_idempotency_key` keeps of a time: the second. */
  function Slot(t: int): int { t / SECOND }

  // ---- leader lease ----

  predicate HeldByOther(lease: LeaseRow, worker: Worker, now: int)
  {
    lease.owner.Some? && lease.owner.value != worker && lease.expiresAt.Some? && lease.expiresAt.value > now
  }

  function AcquireTx(lease: LeaseRow, worker: Worker, now: int, seconds: int): LeaseRow
  {
    if HeldByOther(lease, worker, now) then lease else LeaseRow(Some(worker), Some(now + seconds * SECOND))
  }

  function ReleaseTx(lease: LeaseRow, worker: Worker): LeaseRow
  {
    if lease.owner != Some(worker) then lease else LeaseRow(None, None)
  }

  // ---- jobs ----

  predicate EligibleView(a: SchedulerAccount) { a.enabled && a.pausedReason.None? }

  function Known(accounts: seq<SchedulerAccount>): set<AccountId>
  {
    set i | 0 <= i < |accounts| :: accounts[i].id
  }

  function Eligible(accounts: seq<SchedulerAccount>): set<AccountId>
  {
    set i | 0 <= i < |accounts| && EligibleView(accounts[i]) :: accounts[i].id
  }

  predicate Selected(jobs: map<JobId, Job>, known: set<AccountId>, j: JobId)
  {
    j in jobs && jobs[j].kind.IdlePreview? && jobs[j].account in known
  }

  /** An answer the database may give: each selected row once, by account and then by creation time. */
  ghost predicate ByAccountAndAge(jobs: map<JobId, Job>, known: set<AccountId>, rows: seq<JobId>)
  {
    && (forall i | 0 <= i < |rows| :: Selected(jobs, known, rows[i]))
    && (forall j | Selected(jobs, known, j) :: j in rows)
    && (forall i, k | 0 <= i < k < |rows| :: rows[i] != rows[k])
    && (forall i, k | 0 <= i < k < |rows| ::
          jobs[rows[i]].account < jobs[rows[k]].account
          || (jobs[rows[i]].account == jobs[rows[k]].account && jobs[rows[i]].createdAt <= jobs[rows[k]].createdAt))
  }

  predicate Belongs(jobs: map<JobId, Job>, j: JobId, a: AccountId)
  {
    j in jobs && jobs[j].account == a
  }

  /** The row at `i` is the first one of its account. */
  predicate First(jobs: map<JobId, Job>, rows: seq<JobId>, i: nat)
    requires i < |rows| && rows[i] in jobs
  {
    forall k | 0 <= k < i :: !Belongs(jobs, rows[k], jobs[rows[i]].account)
  }

  function Kept(job: Job, eligible: bool, now: int, interval: int): Job
  {
    if eligible then
      job.(interval := interval, enabled := true, nextRunAt := if job.nextRunAt.None? then Some(now) else job.nextRunAt)
    else job.(enabled := false)
  }

  function NewJob(account: AccountId, now: int, interval: int): Job
  {
    Job(account, IdlePreview, interval, true, Some(now), now)
  }

  /** Some row of `rows` belongs to the account. */
  predicate HasRow(jobs: map<JobId, Job>, rows: seq<JobId>, a: AccountId)
  {
    exists i | 0 <= i < |rows| :: Belongs(jobs, rows[i], a)
  }

  // ---- runs ----

  /** The run of one account in one slot: the table has a unique constraint on the pair. */
  function FindRun(runs: seq<JobRun>, account: AccountId, slot: int): (r: Option<RunId>)
    ensures r.Some? ==> r.value < |runs| && runs[r.value].account == account && runs[r.value].slot == slot
    ensures r.None? ==> forall i | 0 <= i < |runs| :: !(runs[i].account == account && runs[i].slot == slot)
  {
    if runs == [] then None
    else
      var last := |runs| - 1;
      if runs[last].account == account && runs[last].slot == slot then Some(last)
        else FindRun(runs[..last], account, slot)
  }

  predicate Unexpired(run: JobRun, now: int)
  {
    run.leaseExpiresAt.Some? && run.leaseExpiresAt.value > now
  }

  function NewRun(id: JobId, account: AccountId, slot: int, now: int, worker: Worker, lease: int): JobRun
  {
    JobRun(id, account, slot, now, Some(worker), Some(now + lease * SECOND), 1, None, None)
  }

  function Retaken(run: JobRun, now: int, worker: Worker, lease: int): JobRun
  {
    run.(owner := Some(worker), leaseExpiresAt := Some(now + lease * SECOND), attempt := run.attempt + 1)
  }

  function SlotTx(runs: seq<JobRun>, id: JobId, account: AccountId, scheduledFor: int, now: int, worker: Worker,
                  lease: int)
    : (Option<ClaimedRun>, seq<JobRun>)
  {
    var slot := Slot(scheduledFor);
    var found := FindRun(runs, account, slot);
    if found.None? then
      (Some(ClaimedRun(|runs|, id, account, scheduledFor)), runs + [NewRun(id, account, slot, now, worker, lease)])
    else if runs[found.value].completedAt.Some? || Unexpired(runs[found.value], now) then (None, runs)
    else
      (Some(ClaimedRun(found.value, id, account, scheduledFor)),
       runs[found.value := Retaken(runs[found.value], now, worker, lease)])
  }

  /** What the query of `claim_due` selects. */
  predicate Due(job: Job, ids: set<AccountId>, now: int)
  {
    job.kind.IdlePreview? && job.enabled && job.account in ids && job.nextRunAt.Some? && job.nextRunAt.value <= now
  }

  /** An answer the database may give: each due row that nobody else has locked, by account. */
  ghost predicate DueByAccount(jobs: map<JobId, Job>, ids: set<AccountId>, now: int, locked: set<JobId>,
                               due: seq<JobId>)
  {
    && (forall i | 0 <= i < |due| :: due[i] in jobs && due[i] !in locked && Due(jobs[due[i]], ids, now))
    && (forall j | j in jobs && j !in locked && Due(jobs[j], ids, now) :: j in due)
    && (forall i, k | 0 <= i < k < |due| :: due[i] != due[k] && jobs[due[i]].account <= jobs[due[k]].account)
  }

  ghost predicate AllDue(jobs: map<JobId, Job>, due: seq<JobId>)
  {
    forall i | 0 <= i < |due| :: due[i] in jobs && jobs[due[i]].nextRunAt.Some?
  }

  ghost function ClaimAll(runs: seq<JobRun>, jobs: map<JobId, Job>, due: seq<JobId>, now: int, worker: Worker,
                          lease: int)
    : (seq<ClaimedRun>, seq<JobRun>)
    requires AllDue(jobs, due)
  {
    if due == [] then ([], runs)
    else
      var n := |due| - 1;
      var (claimed, rest) := ClaimAll(runs, jobs, due[..n], now, worker, lease);
      var job := jobs[due[n]];
      var (claim, table) := SlotTx(rest, due[n], job.account, job.nextRunAt.value, now, worker, lease);
      (if claim.Some? then claimed + [claim.value] else claimed, table)
  }

  predicate MayFinish(runs: seq<JobRun>, id: RunId)
  {
    id < |runs| && runs[id].completedAt.None?
  }

  function FinishRuns(runs: seq<JobRun>, claim: ClaimedRun, completedAt: int, result: RunResult): seq<JobRun>
  {
    if !MayFinish(runs, claim.runId) then runs
    else runs[claim.runId := runs[claim.runId].(result := Some(result), completedAt := Some(completedAt),
                                                owner := None, leaseExpiresAt := None)]
  }

  function FinishJobs(runs: seq<JobRun>, jobs: map<JobId, Job>, claim: ClaimedRun, next: int): map<JobId, Job>
  {
    if !MayFinish(runs, claim.runId) || claim.jobId !in jobs then jobs
    else jobs[claim.jobId := jobs[claim.jobId].(nextRunAt := Some(next))]
  }

  // ---- the pass that disables duplicates ----

  /** `j` is the first of the first `n` rows that belongs to the account. */
  ghost predicate FirstOf(jobs: map<JobId, Job>, rows: seq<JobId>, n: nat, a: AccountId, j: JobId)
    requires n <= |rows|
  {
    exists i | 0 <= i < n :: rows[i] == j && Belongs(jobs, j, a) && First(jobs, rows, i)
  }

  function Passed(job: Job, first: bool): Job { if first then job else job.(enabled := false) }

  predicate Seen(rows: seq<JobId>, n: nat, j: JobId)
    requires n <= |rows|
  {
    exists i | 0 <= i < n :: rows[i] == j
  }

  /** The table after `n` rows. */
  ghost predicate TableScanned(before: map<JobId, Job>, rows: seq<JobId>, n: nat, jobs: map<JobId, Job>)
    requires n <= |rows|
  {
    && jobs.Keys == before.Keys
    && (forall j | j in before && !Seen(rows, n, j) :: jobs[j] == before[j])
    && (forall i | 0 <= i < n && rows[i] in jobs && rows[i] in before ::
          jobs[rows[i]] == Passed(before[rows[i]], First(before, rows, i)))
  }

  /** The remembered rows after `n` rows. */
  ghost predicate CurrentScanned(before: map<JobId, Job>, rows: seq<JobId>, n: nat, current: map<AccountId, JobId>)
    requires n <= |rows|
  {
    && (forall i | 0 <= i < n && rows[i] in before :: before[rows[i]].account in current)
    && (forall a | a in current :: FirstOf(before, rows, n, a, current[a]))
  }

  ghost predicate Rows(jobs: map<JobId, Job>, rows: seq<JobId>)
  {
    && (forall i | 0 <= i < |rows| :: rows[i] in jobs)
    && (forall i, k | 0 <= i < k < |rows| :: rows[i] != rows[k])
  }

  lemma ScanTable(before: map<JobId, Job>, rows: seq<JobId>, n: nat, jobs: map<JobId, Job>)
    requires n < |rows| && Rows(before, rows) && TableScanned(before, rows, n, jobs)
    ensures jobs[rows[n]] == before[rows[n]]
    ensures TableScanned(before, rows, n + 1, jobs[rows[n] := Passed(before[rows[n]], First(before, rows, n))])
  {
    assert !Seen(rows, n, rows[n]);
    var next := jobs[rows[n] := Passed(before[rows[n]], First(before, rows, n))];
    forall j | j in before && !Seen(rows, n + 1, j) ensures next[j] == before[j] {
      UnseenStays(before, rows, n, jobs, Passed(before[rows[n]], First(before, rows, n)), j);
    }
    forall i | 0 <= i < n + 1 ensures next[rows[i]] == Passed(before[rows[i]], First(before, rows, i)) {
      if i < n { assert rows[i] != rows[n] && rows[i] in before; }
    }
  }

  lemma UnseenStays(before: map<JobId, Job>, rows: seq<JobId>, n: nat, jobs: map<JobId, Job>, job: Job, j: JobId)
    requires n < |rows| && TableScanned(before, rows, n, jobs)
    requires j in before && !Seen(rows, n + 1, j)
    ensures jobs[rows[n] := job][j] == before[j]
  {
    NotSeenEarlier(rows, n, j);
  }

  lemma NotSeenEarlier(rows: seq<JobId>, n: nat, j: JobId)
    requires n < |rows| && !Seen(rows, n + 1, j)
    ensures !Seen(rows, n, j) && j != rows[n]
  {}

  lemma ScanCurrent(before: map<JobId, Job>, rows: seq<JobId>, n: nat, current: map<AccountId, JobId>)
    requires n < |rows| && Rows(before, rows) && CurrentScanned(before, rows, n, current)
    ensures var a := before[rows[n]].account;
            && (a in current <==> !First(before, rows, n))
            && CurrentScanned(before, rows, n + 1, if a in current then current else current[a := rows[n]])
  {
    var a := before[rows[n]].account;
    if a in current {
      var i :| 0 <= i < n && rows[i] == current[a] && Belongs(before, current[a], a) && First(before, rows, i);
      assert Belongs(before, rows[i], a);
    } else {
      assert First(before, rows, n);
      assert FirstOf(before, rows, n + 1, a, rows[n]);
    }
    forall b | b in current ensures FirstOf(before, rows, n + 1, b, current[b]) {
      assert FirstOf(before, rows, n, b, current[b]);
    }
  }

  // ---- the pass over the known accounts ----

  /** The oldest row of its account, as far as the answer of the database tells. */
  ghost predicate Oldest(before: map<JobId, Job>, rows: seq<JobId>, j: JobId)
    requires j in before
  {
    FirstOf(before, rows, |rows|, before[j].account, j)
  }

  /** What becomes of a row once the accounts of `done` have been dealt with. */
  ghost function SettledRow(before: map<JobId, Job>, rows: seq<JobId>, j: JobId, eligible: set<AccountId>,
                            done: set<AccountId>, now: int, interval: int): Job
    requires j in before
  {
    if !Seen(rows, |rows|, j) then before[j]
    else if !Oldest(before, rows, j) then before[j].(enabled := false)
    else if before[j].account in done then Kept(before[j], before[j].account in eligible, now, interval)
    else before[j]
  }

  /** The accounts that get a new job. */
  ghost predicate Lacking(before: map<JobId, Job>, rows: seq<JobId>, eligible: set<AccountId>, a: AccountId)
  {
    a in eligible && !HasRow(before, rows, a)
  }

  ghost predicate Added(before: map<JobId, Job>, after: map<JobId, Job>, added: map<AccountId, JobId>, now: int,
                        interval: int)
  {
    && (forall a | a in added ::
          added[a] in after && added[a] !in before && after[added[a]] == NewJob(a, now, interval))
    && (forall j | j in after && j !in before :: after[j].account in added && added[after[j].account] == j)
  }

  /** What `ensure_jobs` has done to the table, once the accounts of `done` have been dealt with. */
  ghost predicate Settled(before: map<JobId, Job>, rows: seq<JobId>, eligible: set<AccountId>, done: set<AccountId>,
                          now: int, interval: int, after: map<JobId, Job>, added: map<AccountId, JobId>)
  {
    && (forall j | j in before :: j in after && after[j] == SettledRow(before, rows, j, eligible, done, now, interval))
    && (forall a :: a in added <==> a in done && Lacking(before, rows, eligible, a))
    && Added(before, after, added, now, interval)
  }

  lemma SettleStart(before: map<JobId, Job>, rows: seq<JobId>, eligible: set<AccountId>, now: int, interval: int,
                    after: map<JobId, Job>)
    requires Rows(before, rows) && TableScanned(before, rows, |rows|, after)
    ensures Settled(before, rows, eligible, {}, now, interval, after, map[])
  {
    forall j | j in before && Seen(rows, |rows|, j)
      ensures after[j] == Passed(before[j], Oldest(before, rows, j))
    {
      var i :| 0 <= i < |rows| && rows[i] == j;
      if First(before, rows, i) {
        assert FirstOf(before, rows, |rows|, before[j].account, j);
      }
    }
  }

  lemma SettleNothing(jobs: map<JobId, Job>, rows: seq<JobId>, now: int, interval: int)
    requires ByAccountAndAge(jobs, {}, rows)
    ensures Settled(jobs, rows, {}, {}, now, interval, jobs, map[])
  {
    assert 0 < |rows| ==> Selected(jobs, {}, rows[0]);
    assert forall j :: !Seen(rows, |rows|, j);
  }

  lemma CurrentIsOldest(before: map<JobId, Job>, rows: seq<JobId>, current: map<AccountId, JobId>, a: AccountId)
    requires Rows(before, rows) && CurrentScanned(before, rows, |rows|, current)
    ensures a in current <==> HasRow(before, rows, a)
    ensures a in current ==>
              Belongs(before, current[a], a) && Seen(rows, |rows|, current[a]) && Oldest(before, rows, current[a])
  {
    if a in current {
      assert FirstOf(before, rows, |rows|, a, current[a]);
      var i :| 0 <= i < |rows| && rows[i] == current[a] && Belongs(before, current[a], a) && First(before, rows, i);
      assert Belongs(before, rows[i], a);
    }
    if HasRow(before, rows, a) {
      var i :| 0 <= i < |rows| && Belongs(before, rows[i], a);
    }
  }

  /** An account has only one oldest row. */
  lemma OldestIsUnique(before: map<JobId, Job>, rows: seq<JobId>, j: JobId, k: JobId)
    requires j in before && k in before && before[j].account == before[k].account
    requires Oldest(before, rows, j) && Oldest(before, rows, k)
    ensures j == k
  {
    var a := before[j].account;
    var i :| 0 <= i < |rows| && rows[i] == j && Belongs(before, j, a) && First(before, rows, i);
    var l :| 0 <= l < |rows| && rows[l] == k && Belongs(before, k, a) && First(before, rows, l);
    assert Belongs(before, rows[i], a) && Belongs(before, rows[l], a);
  }

  lemma SettleKept(before: map<JobId, Job>, rows: seq<JobId>, eligible: set<AccountId>, done: set<AccountId>,
                   now: int, interval: int, after: map<JobId, Job>, added: map<AccountId, JobId>, a: AccountId,
                   j: JobId)
    requires Settled(before, rows, eligible, done, now, interval, after, added) && a !in done
    requires Belongs(before, j, a) && Seen(rows, |rows|, j) && Oldest(before, rows, j) && HasRow(before, rows, a)
    ensures after[j] == before[j]
    ensures Settled(before, rows, eligible, done + {a}, now, interval,
                    after[j := Kept(before[j], a in eligible, now, interval)], added)
  {
    var next := after[j := Kept(before[j], a in eligible, now, interval)];
    forall k | k in before ensures next[k] == SettledRow(before, rows, k, eligible, done + {a}, now, interval) {
      if k != j { SettledElsewhere(before, rows, eligible, done, now, interval, a, j, k); }
    }
    assert Added(before, next, added, now, interval);
  }

  lemma SettledElsewhere(before: map<JobId, Job>, rows: seq<JobId>, eligible: set<AccountId>, done: set<AccountId>,
                         now: int, interval: int, a: AccountId, j: JobId, k: JobId)
    requires Belongs(before, j, a) && Oldest(before, rows, j) && k in before && k != j
    ensures SettledRow(before, rows, k, eligible, done + {a}, now, interval)
            == SettledRow(before, rows, k, eligible, done, now, interval)
  {
    if before[k].account == a && Oldest(before, rows, k) { OldestIsUnique(before, rows, j, k); }
  }

  lemma SettleNone(before: map<JobId, Job>, rows: seq<JobId>, eligible: set<AccountId>, done: set<AccountId>,
                   now: int, interval: int, after: map<JobId, Job>, added: map<AccountId, JobId>, a: AccountId)
    requires Settled(before, rows, eligible, done, now, interval, after, added)
    requires !HasRow(before, rows, a) && a !in eligible
    ensures Settled(before, rows, eligible, done + {a}, now, interval, after, added)
  {
    OldestHasRow(before, rows, a);
  }

  lemma OldestHasRow(before: map<JobId, Job>, rows: seq<JobId>, a: AccountId)
    requires !HasRow(before, rows, a)
    ensures forall j | j in before && before[j].account == a :: !Oldest(before, rows, j)
  {
    assert forall i | 0 <= i < |rows| :: !Belongs(before, rows[i], a);
  }

  lemma SettleAdded(before: map<JobId, Job>, rows: seq<JobId>, eligible: set<AccountId>, done: set<AccountId>,
                    now: int, interval: int, after: map<JobId, Job>, added: map<AccountId, JobId>, a: AccountId,
                    j: JobId)
    requires Settled(before, rows, eligible, done, now, interval, after, added) && a !in done
    requires Lacking(before, rows, eligible, a) && j !in after
    ensures Settled(before, rows, eligible, done + {a}, now, interval, after[j := NewJob(a, now, interval)],
                    added[a := j])
  {
    OldestHasRow(before, rows, a);
  }

  /** The table once an account has been provided for: its kept job is updated, or a new one is inserted. */
  function Provided(jobs: map<JobId, Job>, current: map<AccountId, JobId>, a: AccountId, eligible: bool, now: int,
                    interval: int, id: JobId): map<JobId, Job>
    requires a in current ==> current[a] in jobs
  {
    if a in current then jobs[current[a] := Kept(jobs[current[a]], eligible, now, interval)]
    else if eligible then jobs[id := NewJob(a, now, interval)]
    else jobs
  }

  lemma SettleOne(before: map<JobId, Job>, rows: seq<JobId>, eligible: set<AccountId>, done: set<AccountId>,
                  now: int, interval: int, after: map<JobId, Job>, added: map<AccountId, JobId>, a: AccountId,
                  current: map<AccountId, JobId>, id: JobId)
    requires Settled(before, rows, eligible, done, now, interval, after, added) && a !in done && id !in after
    requires a in current <==> HasRow(before, rows, a)
    requires a in current ==>
               Belongs(before, current[a], a) && Seen(rows, |rows|, current[a]) && Oldest(before, rows, current[a])
    ensures a in current ==> current[a] in after
    ensures Settled(before, rows, eligible, done + {a}, now, interval,
                    Provided(after, current, a, a in eligible, now, interval, id),
                    if a !in current && a in eligible then added[a := id] else added)
  {
    if a in current {
      SettleKept(before, rows, eligible, done, now, interval, after, added, a, current[a]);
    } else if a in eligible {
      SettleAdded(before, rows, eligible, done, now, interval, after, added, a, id);
    } else {
      SettleNone(before, rows, eligible, done, now, interval, after, added, a);
    }
  }

  // ---- the store ----

  // ---- a run, in terms of its columns ----

  /** The run of the account for the whole second of `t`. */
  predicate InSecond(run: JobRun, account: AccountId, t: int)
  {
    run.account == account && run.slot * SECOND <= t < (run.slot + 1) * SECOND
  }

  /** It is not completed, and nobody's lease on it runs. */
  predicate TakeableAt(run: JobRun, now: int)
  {
    run.completedAt.None? && (run.leaseExpiresAt.None? || run.leaseExpiresAt.value <= now)
  }

  predicate Begins(run: JobRun, id: JobId, account: AccountId, t: int, now: int, worker: Worker, lease: int)
  {
    && run.job == id && InSecond(run, account, t) && run.dispatchedAt == now && run.attempt == 1
    && run.owner == Some(worker) && run.leaseExpiresAt == Some(now + lease * SECOND)
    && run.result.None? && run.completedAt.None?
  }

  lemma InSecondIsSlot(run: JobRun, account: AccountId, t: int)
    ensures InSecond(run, account, t) <==> run.account == account && run.slot == Slot(t)
  {
    var q, r := t / SECOND, t % SECOND;
    assert t == q * SECOND + r && 0 <= r < SECOND;
  }

  class PostgresIdlePreviewStore {
    var lease: LeaseRow
    var jobs: map<JobId, Job>
    var runs: seq<JobRun>
    var issued: JobId    // every job id in use is below this

    ghost predicate Valid()
      reads this
    {
      forall j | j in jobs :: j < issued
    }

    constructor ()
      ensures Valid() && lease == LeaseRow(None, None) && jobs == map[] && runs == []
    {
      lease, jobs, runs, issued := LeaseRow(None, None), map[], [], 0;
    }

    method AcquireLease(worker: Worker, now: int, seconds: int) returns (acquired: bool)
      modifies this`lease
      ensures acquired == !HeldByOther(old(lease), worker, now)
      ensures lease == AcquireTx(old(lease), worker, now, seconds)
      // in terms of the row: it is free, or the worker's own, or over
      ensures acquired <==> old(lease).owner.None? || old(lease).owner == Some(worker)
                            || old(lease).expiresAt.None? || old(lease).expiresAt.value <= now
      ensures acquired ==> lease == LeaseRow(Some(worker), Some(now + seconds * SECOND))
      ensures !acquired ==> lease == old(lease)
    {
      if lease.owner.Some? && lease.owner.value != worker && lease.expiresAt.Some? && lease.expiresAt.value > now {
        return false;
      }
      lease := LeaseRow(Some(worker), Some(now + seconds * SECOND));
      return true;
    }

    method ReleaseLease(worker: Worker)
      modifies this`lease
      ensures lease == ReleaseTx(old(lease), worker)
      ensures lease == if old(lease).owner == Some(worker) then LeaseRow(None, None) else old(lease)
    {
      if lease.owner != Some(worker) { return; }
      lease := LeaseRow(None, None);
    }

    /** The pass over the rows: the first of each account is remembered, the others are disabled. */
    method DisableDuplicates(rows: seq<JobId>) returns (current: map<AccountId, JobId>)
      requires Rows(jobs, rows)
      modifies this`jobs
      ensures TableScanned(old(jobs), rows, |rows|, jobs) && CurrentScanned(old(jobs), rows, |rows|, current)
    {
      current := map[];
      ghost var before := jobs;
      for n := 0 to |rows|
        invariant TableScanned(before, rows, n, jobs) && CurrentScanned(before, rows, n, current)
      {
        var row := rows[n];
        ScanTable(before, rows, n, jobs);
        ScanCurrent(before, rows, n, current);
        if jobs[row].account in current {
          jobs := jobs[row := jobs[row].(enabled := false)];
        } else {
          assert jobs == jobs[row := before[row]];
          current := current[jobs[row].account := row];
        }
      }
    }

    /** What becomes of one known account. */
    method Provide(account: AccountId, eligible: bool, current: map<AccountId, JobId>, now: int, interval: int)
      returns (inserted: bool)
      requires Valid() && (account in current ==> current[account] in jobs)
      modifies this`jobs, this`issued
      ensures Valid() && old(issued) <= issued
      ensures inserted == (account !in current && eligible)
      ensures jobs == Provided(old(jobs), current, account, eligible, now, interval, old(issued))
    {
      if account in current {
        var job := current[account];
        if !eligible {
          jobs := jobs[job := jobs[job].(enabled := false)];
        } else {
          jobs := jobs[job := jobs[job].(interval := interval)];
          jobs := jobs[job := jobs[job].(enabled := true)];
          if jobs[job].nextRunAt.None? {
            jobs := jobs[job := jobs[job].(nextRunAt := Some(now))];
          }
        }
        return false;
      }
      if !eligible { return false; }
      jobs := jobs[issued := Job(account, IdlePreview, interval, true, Some(now), now)];
      issued := issued + 1;
      return true;
    }

    /** `added` names the jobs that were inserted. */
    method EnsureJobs(accounts: seq<SchedulerAccount>, now: int, interval: int, rows: seq<JobId>)
      returns (ghost added: map<AccountId, JobId>)
      requires Valid() && ByAccountAndAge(jobs, Known(accounts), rows)
      modifies this`jobs, this`issued
      ensures Valid()
      ensures Settled(old(jobs), rows, Eligible(accounts), Known(accounts), now, interval, jobs, added)
    {
      ghost var before := jobs;
      var known := Known(accounts);
      var eligible := Eligible(accounts);
      added := map[];
      if known == {} {
        SettleNothing(before, rows, now, interval);
        return;
      }
      added := ProvideAll(known, eligible, now, interval, rows);
    }

    /** One more account, in a table that is settled for the accounts in `done`. */
    method ProvideNext(account: AccountId, eligible: set<AccountId>, current: map<AccountId, JobId>, now: int,
                       interval: int, ghost before: map<JobId, Job>, ghost rows: seq<JobId>,
                       ghost done: set<AccountId>, ghost added: map<AccountId, JobId>)
      returns (ghost more: map<AccountId, JobId>)
      requires Valid() && account !in done && (account in current <==> HasRow(before, rows, account))
      requires account in current ==>
                 && Belongs(before, current[account], account) && Seen(rows, |rows|, current[account])
                 && Oldest(before, rows, current[account])
      requires Settled(before, rows, eligible, done, now, interval, jobs, added)
      modifies this`jobs, this`issued
      ensures Valid() && Settled(before, rows, eligible, done + {account}, now, interval, jobs, more)
    {
      ghost var id := issued;
      SettleOne(before, rows, eligible, done, now, interval, jobs, added, account, current, id);
      var inserted := Provide(account, account in eligible, current, now, interval);
      more := if inserted then added[account := id] else added;
    }

    method ProvideAll(known: set<AccountId>, eligible: set<AccountId>, now: int, interval: int, rows: seq<JobId>)
      returns (ghost added: map<AccountId, JobId>)
      requires Valid() && Rows(jobs, rows)
      modifies this`jobs, this`issued
      ensures Valid()
      ensures Settled(old(jobs), rows, eligible, known, now, interval, jobs, added)
    {
      ghost var before := jobs;
      added := map[];
      var current := DisableDuplicates(rows);
      SettleStart(before, rows, eligible, now, interval, jobs);
      var todo := known;
      ghost var done: set<AccountId> := {};
      while todo != {}
        invariant done !! todo && done + todo == known && Valid()
        invariant Settled(before, rows, eligible, done, now, interval, jobs, added)
        decreases |todo|
      {
        var account :| account in todo;
        todo := todo - {account};
        CurrentIsOldest(before, rows, current, account);
        added := ProvideNext(account, eligible, current, now, interval, before, rows, done, added);
        done := done + {account};
      }
      assert done == known;
    }

    method ClaimSlot(id: JobId, account: AccountId, scheduledFor: int, now: int, worker: Worker, lease: int)
      returns (claim: Option<ClaimedRun>)
      modifies this`runs
      ensures (claim, runs) == SlotTx(old(runs), id, account, scheduledFor, now, worker, lease)
      // in terms of the rows: a second without a run gets one, and an open run without a lease is taken over
      ensures claim.None? ==>
                && runs == old(runs)
                && exists i | 0 <= i < |old(runs)| ::
                     InSecond(old(runs)[i], account, scheduledFor) && !TakeableAt(old(runs)[i], now)
      ensures claim.Some? ==>
                && claim.value == ClaimedRun(claim.value.runId, id, account, scheduledFor)
                && if claim.value.runId < |old(runs)| then
                     var i := claim.value.runId;
                     && InSecond(old(runs)[i], account, scheduledFor) && TakeableAt(old(runs)[i], now)
                     && runs == old(runs)[i := old(runs)[i].(owner := Some(worker),
                                                             leaseExpiresAt := Some(now + lease * SECOND),
                                                             attempt := old(runs)[i].attempt + 1)]
                   else
                     && claim.value.runId == |old(runs)|
                     && (forall i | 0 <= i < |old(runs)| :: !InSecond(old(runs)[i], account, scheduledFor))
                     && runs[..|old(runs)|] == old(runs) && |runs| == |old(runs)| + 1
                     && Begins(runs[|old(runs)|], id, account, scheduledFor, now, worker, lease)
    {
      var slot := Slot(scheduledFor);
      var expires := now + lease * SECOND;
      var existing := FindRun(runs, account, slot);
      forall i | 0 <= i < |runs|
        ensures InSecond(runs[i], account, scheduledFor) <==> runs[i].account == account && runs[i].slot == slot
      {
        InSecondIsSlot(runs[i], account, scheduledFor);
      }
      InSecondIsSlot(JobRun(id, account, slot, now, Some(worker), Some(expires), 1, None, None), account, scheduledFor);
      if existing.None? {
        runs := runs + [JobRun(id, account, slot, now, Some(worker), Some(expires), 1, None, None)];
        return Some(ClaimedRun(|runs| - 1, id, account, scheduledFor));
      }
      var run := runs[existing.value];
      if run.completedAt.Some? { return None; }
      if run.leaseExpiresAt.Some? && run.leaseExpiresAt.value > now { return None; }
      run := run.(owner := Some(worker));
      run := run.(leaseExpiresAt := Some(expires));
      run := run.(attempt := run.attempt + 1);
      runs := runs[existing.value := run];
      return Some(ClaimedRun(existing.value, id, account, scheduledFor));
    }

    method ClaimDue(now: int, worker: Worker, lease: int, ids: set<AccountId>, ghost locked: set<JobId>,
                    due: seq<JobId>)
      returns (claimed: seq<ClaimedRun>)
      requires DueByAccount(jobs, ids, now, locked, due)
      modifies this`runs
      ensures (claimed, runs) == ClaimAll(old(runs), jobs, due, now, worker, lease)
    {
      claimed := [];
      for n := 0 to |due|
        invariant AllDue(jobs, due[..n]) && (claimed, runs) == ClaimAll(old(runs), jobs, due[..n], now, worker, lease)
      {
        assert due[..n+1][..n] == due[..n];
        var job := jobs[due[n]];
        var claim := ClaimSlot(due[n], job.account, job.nextRunAt.value, now, worker, lease);
        if claim.Some? { claimed := claimed + [claim.value]; }
      }
      assert due[..|due|] == due;
    }

    /** Whoever holds the claim may finish the run, even after its lease has passed to another worker. */
    method FinishRun(claim: ClaimedRun, completedAt: int, next: int, result: RunResult)
      modifies this`runs, this`jobs
      ensures runs == FinishRuns(old(runs), claim, completedAt, result)
      ensures jobs == FinishJobs(old(runs), old(jobs), claim, next)
      // in terms of the rows: an open run is completed once, and its job planned
      ensures if claim.runId < |old(runs)| && old(runs)[claim.runId].completedAt.None?
              then
                && runs == old(runs)[claim.runId := old(runs)[claim.runId].(
                     result := Some(result), completedAt := Some(completedAt), owner := None, leaseExpiresAt := None)]
                && jobs == if claim.jobId in old(jobs)
                           then old(jobs)[claim.jobId := old(jobs)[claim.jobId].(nextRunAt := Some(next))]
                           else old(jobs)
              else runs == old(runs) && jobs == old(jobs)
    {
      if claim.runId >= |runs| || runs[claim.runId].completedAt.Some? { return; }
      var run := runs[claim.runId].(result := Some(result), completedAt := Some(completedAt));
      run := run.(owner := None, leaseExpiresAt := None);
      runs := runs[claim.runId := run];
      if claim.jobId in jobs {
        jobs := jobs[claim.jobId := jobs[claim.jobId].(nextRunAt := Some(next))];
      }
    }
  }
}
