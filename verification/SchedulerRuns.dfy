/**
 * The idle-preview scheduler over whole histories: any number of workers with clocks of their own, claims that are
 * finished late, twice or never. `least` is the shortest interval, in seconds, that any worker is configured with.
 */
module SchedulerRuns {
  import opened Prelude
  import opened SchedulerStore
  import opened SchedulerJobs

  /** A claim in some worker's hands, with the clock of its tick. Nothing is ever taken back from a worker. */
  datatype Issued = Issued(claim: ClaimedRun, now: int)

  datatype World = World(jobs: map<JobId, Job>, runs: seq<JobRun>, issued: seq<Issued>)

  datatype Step =
    | Ensure(accounts: seq<SchedulerAccount>, now: int, interval: int, rows: seq<JobId>, added: map<AccountId, JobId>)
    | Claim(now: int, worker: Worker, lease: int, ids: set<AccountId>, locked: set<JobId>, due: seq<JobId>)
    | Finish(held: nat, completedAt: int, interval: int, result: RunResult)

  function Handed(claimed: seq<ClaimedRun>, now: int): seq<Issued>
  {
    seq(|claimed|, i requires 0 <= i < |claimed| => Issued(claimed[i], now))
  }

  ghost predicate Next(w: World, s: Step, v: World, least: int)
  {
    match s
    case Ensure(accounts, now, interval, rows, added) =>
      Ensured(w.jobs, accounts, now, interval, rows, v.jobs, added) && v == w.(jobs := v.jobs)
    case Claim(now, worker, lease, ids, locked, due) =>
      && lease > 0 && DueByAccount(w.jobs, ids, now, locked, due)
      && var (claimed, runs) := ClaimAll(w.runs, w.jobs, due, now, worker, lease);
         v == w.(runs := runs, issued := w.issued + Handed(claimed, now))
    case Finish(held, completedAt, interval, result) =>
      && held < |w.issued| && interval >= least
      && var next := w.issued[held].now + interval * SECOND;
         v == w.(runs := FinishRuns(w.runs, w.issued[held].claim, completedAt, result),
                 jobs := FinishJobs(w.runs, w.jobs, w.issued[held].claim, next))
  }

  // ---- the invariant ----

  ghost predicate OneJobEach(jobs: map<JobId, Job>)
  {
    forall a, j, k | IdleJob(jobs, j, a) && IdleJob(jobs, k, a) :: j == k
  }

  /** The planned time has moved past a completed run, and still is in the slot of a run that is not completed. */
  predicate RunOk(jobs: map<JobId, Job>, run: JobRun, least: int)
  {
    && IdleJob(jobs, run.job, run.account) && jobs[run.job].nextRunAt.Some?
    && var next := jobs[run.job].nextRunAt.value;
       if run.completedAt.Some? then run.slot + least <= Slot(next)
       else run.slot == Slot(next) && run.leaseExpiresAt.Some? && next <= run.leaseExpiresAt.value
  }

  predicate IssuedOk(runs: seq<JobRun>, i: Issued)
  {
    && i.claim.runId < |runs| && runs[i.claim.runId].account == i.claim.account
       && runs[i.claim.runId].job == i.claim.jobId
    && runs[i.claim.runId].slot == Slot(i.claim.scheduledFor) && i.claim.scheduledFor <= i.now
  }

  predicate RunsOk(jobs: map<JobId, Job>, runs: seq<JobRun>, least: int)
  {
    forall i | 0 <= i < |runs| :: RunOk(jobs, runs[i], least)
  }

  /** Runs of one account are at least `least` apart, in the order in which they were created. */
  predicate Apart(runs: seq<JobRun>, least: int)
  {
    forall i, j | 0 <= i < j < |runs| && runs[i].account == runs[j].account :: runs[i].slot + least <= runs[j].slot
  }

  predicate AllIssuedOk(runs: seq<JobRun>, issued: seq<Issued>)
  {
    forall i | 0 <= i < |issued| :: IssuedOk(runs, issued[i])
  }

  ghost predicate Inv(w: World, least: int)
  {
    && OneJobEach(w.jobs) && RunsOk(w.jobs, w.runs, least) && Apart(w.runs, least) && AllIssuedOk(w.runs, w.issued)
  }

  predicate Init(w: World) { w == World(map[], [], []) }

  // ---- jobs are provisioned ----

  lemma EnsureKeeps(w: World, accounts: seq<SchedulerAccount>, now: int, interval: int, rows: seq<JobId>,
                    added: map<AccountId, JobId>, jobs: map<JobId, Job>, least: int)
    requires Inv(w, least) && Ensured(w.jobs, accounts, now, interval, rows, jobs, added)
    ensures Inv(w.(jobs := jobs), least)
  {
    OthersUntouched(w.jobs, accounts, now, interval, rows, jobs, added);
    forall a, j, k | IdleJob(jobs, j, a) && IdleJob(jobs, k, a) ensures j == k {
      assert j in w.jobs ==> IdleJob(w.jobs, j, a);
      assert k in w.jobs ==> IdleJob(w.jobs, k, a);
    }
    forall i | 0 <= i < |w.runs| ensures RunOk(jobs, w.runs[i], least) {
      assert RunOk(w.jobs, w.runs[i], least);
    }
  }

  // ---- one slot is claimed ----

  /** No work of the account is under way. */
  ghost predicate Busy(runs: seq<JobRun>, a: AccountId, now: int)
  {
    exists i | 0 <= i < |runs| :: runs[i].account == a && runs[i].completedAt.None? && Unexpired(runs[i], now)
  }

  /** A run in the slot that comes next is not completed; every run that is not completed is in that slot. */
  lemma NextSlot(jobs: map<JobId, Job>, runs: seq<JobRun>, least: int, j: JobId, a: AccountId, i: nat)
    requires OneJobEach(jobs) && RunsOk(jobs, runs, least) && least >= 1 && i < |runs|
    requires IdleJob(jobs, j, a) && jobs[j].nextRunAt.Some? && runs[i].account == a
    ensures runs[i].job == j
    ensures runs[i].slot == Slot(jobs[j].nextRunAt.value) <==> runs[i].completedAt.None?
  {
    assert RunOk(jobs, runs[i], least);
  }

  /** The claim of one job: granted exactly if no work of its account is under way. */
  lemma SlotGranted(jobs: map<JobId, Job>, runs: seq<JobRun>, least: int, j: JobId, now: int, worker: Worker,
                    lease: int)
    requires OneJobEach(jobs) && RunsOk(jobs, runs, least) && Apart(runs, least) && least >= 1
    requires j in jobs && jobs[j].kind.IdlePreview? && jobs[j].nextRunAt.Some?
    ensures var (claim, table) := SlotTx(runs, j, jobs[j].account, jobs[j].nextRunAt.value, now, worker, lease);
            && (claim.Some? <==> !Busy(runs, jobs[j].account, now))
            && (claim.None? ==> table == runs)
  {
    var a := jobs[j].account;
    var found := FindRun(runs, a, Slot(jobs[j].nextRunAt.value));
    if found.Some? { NextSlot(jobs, runs, least, j, a, found.value); }
    if Busy(runs, a, now) {
      var i :| 0 <= i < |runs| && runs[i].account == a && runs[i].completedAt.None? && Unexpired(runs[i], now);
      NextSlot(jobs, runs, least, j, a, i);
      assert found.Some?;
    }
  }

  /** What a granted claim leaves behind. */
  predicate Took(runs: seq<JobRun>, table: seq<JobRun>, claim: ClaimedRun, now: int, worker: Worker, lease: int)
  {
    && claim.runId < |table|
    && var run := table[claim.runId];
       && run.completedAt.None? && run.owner == Some(worker) && run.leaseExpiresAt == Some(now + lease * SECOND)
       && run.job == claim.jobId && run.account == claim.account && run.slot == Slot(claim.scheduledFor)
       && run.attempt == (if claim.runId < |runs| then runs[claim.runId].attempt else 0) + 1
  }

  lemma SlotKeeps(jobs: map<JobId, Job>, runs: seq<JobRun>, least: int, j: JobId, now: int, worker: Worker, lease: int)
    requires OneJobEach(jobs) && RunsOk(jobs, runs, least) && Apart(runs, least) && least >= 1 && lease > 0
    requires j in jobs && jobs[j].kind.IdlePreview? && jobs[j].nextRunAt.Some? && jobs[j].nextRunAt.value <= now
    ensures var (claim, table) := SlotTx(runs, j, jobs[j].account, jobs[j].nextRunAt.value, now, worker, lease);
            && RunsOk(jobs, table, least) && Apart(table, least) && Grown(runs, table)
            && (claim.Some? ==>
                  Took(runs, table, claim.value, now, worker, lease) && IssuedOk(table, Issued(claim.value, now)))
            && OtherAccounts(runs, table, jobs[j].account)
  {
    var a := jobs[j].account;
    var next := jobs[j].nextRunAt.value;
    var found := FindRun(runs, a, Slot(next));
    if found.Some? {
      NextSlot(jobs, runs, least, j, a, found.value);
    } else {
      forall i | 0 <= i < |runs| && runs[i].account == a ensures runs[i].slot + least <= Slot(next) {
        NextSlot(jobs, runs, least, j, a, i);
      }
    }
  }

  /** Runs are only added; of the others only owner, lease and attempt change, and only until they are completed. */
  predicate Grown(runs: seq<JobRun>, table: seq<JobRun>)
  {
    |runs| <= |table| && forall i | 0 <= i < |runs| :: RunGrown(runs[i], table[i])
  }

  predicate RunGrown(run: JobRun, later: JobRun)
  {
    && later.job == run.job && later.account == run.account && later.slot == run.slot
    && later.dispatchedAt == run.dispatchedAt && later.attempt >= run.attempt
    && (run.completedAt.Some? ==> later == run)
  }

  predicate OtherAccounts(runs: seq<JobRun>, table: seq<JobRun>, a: AccountId)
  {
    && |runs| <= |table|
    && (forall i | 0 <= i < |runs| && runs[i].account != a :: table[i] == runs[i])
    && (forall i | 0 <= i < |runs| && runs[i].account == a :: table[i].account == a)
    && (forall i | |runs| <= i < |table| :: table[i].account == a)
  }

  // ---- one tick claims what is due ----

  ghost predicate Granted(claimed: seq<ClaimedRun>, j: JobId)
  {
    exists k | 0 <= k < |claimed| :: claimed[k].jobId == j
  }

  predicate DueList(jobs: map<JobId, Job>, due: seq<JobId>, now: int)
  {
    && (forall i | 0 <= i < |due| :: due[i] in jobs && jobs[due[i]].kind.IdlePreview? && jobs[due[i]].nextRunAt.Some?
                                     && jobs[due[i]].nextRunAt.value <= now)
    && (forall i, k | 0 <= i < k < |due| :: jobs[due[i]].account != jobs[due[k]].account)
  }

  ghost predicate ClaimsOk(jobs: map<JobId, Job>, runs: seq<JobRun>, table: seq<JobRun>, claimed: seq<ClaimedRun>,
                           now: int, worker: Worker, lease: int)
  {
    forall k | 0 <= k < |claimed| ::
      && claimed[k].jobId in jobs && claimed[k].account == jobs[claimed[k].jobId].account
      && jobs[claimed[k].jobId].nextRunAt == Some(claimed[k].scheduledFor)
      && Took(runs, table, claimed[k], now, worker, lease) && IssuedOk(table, Issued(claimed[k], now))
  }

  ghost predicate OfDue(jobs: map<JobId, Job>, due: seq<JobId>, a: AccountId)
  {
    exists i | 0 <= i < |due| :: Belongs(jobs, due[i], a)
  }

  /** Only runs of the accounts in `due` have changed. */
  ghost predicate Elsewhere(jobs: map<JobId, Job>, due: seq<JobId>, runs: seq<JobRun>, table: seq<JobRun>)
  {
    && |runs| <= |table|
    && (forall i | 0 <= i < |runs| && !OfDue(jobs, due, runs[i].account) :: table[i] == runs[i])
    && (forall i | |runs| <= i < |table| :: OfDue(jobs, due, table[i].account))
  }

  lemma ElsewhereAsBusy(jobs: map<JobId, Job>, due: seq<JobId>, runs: seq<JobRun>, table: seq<JobRun>, a: AccountId,
                        now: int)
    requires Elsewhere(jobs, due, runs, table) && Grown(runs, table) && !OfDue(jobs, due, a)
    ensures Busy(runs, a, now) <==> Busy(table, a, now)
  {
    if Busy(runs, a, now) {
      var i :| 0 <= i < |runs| && runs[i].account == a && runs[i].completedAt.None? && Unexpired(runs[i], now);
      assert table[i] == runs[i];
    }
    if Busy(table, a, now) {
      var i :| 0 <= i < |table| && table[i].account == a && table[i].completedAt.None? && Unexpired(table[i], now);
      assert i < |runs| && RunGrown(runs[i], table[i]);
    }
  }

  lemma ElsewhereGrows(jobs: map<JobId, Job>, due: seq<JobId>, runs: seq<JobRun>, rest: seq<JobRun>, table: seq<JobRun>)
    requires |due| > 0 && due[|due|-1] in jobs
    requires Elsewhere(jobs, due[..|due|-1], runs, rest) && OtherAccounts(rest, table, jobs[due[|due|-1]].account)
    requires Grown(runs, rest)
    ensures Elsewhere(jobs, due, runs, table)
  {
    var n := |due| - 1;
    forall b | OfDue(jobs, due[..n], b) ensures OfDue(jobs, due, b) {
      var i :| 0 <= i < n && Belongs(jobs, due[..n][i], b);
      assert Belongs(jobs, due[i], b);
    }
    assert OfDue(jobs, due, jobs[due[n]].account) by { assert Belongs(jobs, due[n], jobs[due[n]].account); }
    assert forall i | 0 <= i < |runs| :: RunGrown(runs[i], rest[i]);
  }

  lemma GrownTransitively(runs: seq<JobRun>, rest: seq<JobRun>, table: seq<JobRun>)
    requires Grown(runs, rest) && Grown(rest, table)
    ensures Grown(runs, table)
  {
    forall i | 0 <= i < |runs| ensures RunGrown(runs[i], table[i]) {
      assert RunGrown(runs[i], rest[i]) && RunGrown(rest[i], table[i]);
    }
  }

  /** Earlier claims of the same tick are not disturbed by one for another account. */
  lemma ClaimsStay(jobs: map<JobId, Job>, runs: seq<JobRun>, rest: seq<JobRun>, table: seq<JobRun>,
                   claimed: seq<ClaimedRun>, now: int, worker: Worker, lease: int, a: AccountId)
    requires ClaimsOk(jobs, runs, rest, claimed, now, worker, lease) && OtherAccounts(rest, table, a)
    requires forall k | 0 <= k < |claimed| :: claimed[k].account != a
    ensures ClaimsOk(jobs, runs, table, claimed, now, worker, lease)
  {
    forall k | 0 <= k < |claimed|
      ensures Took(runs, table, claimed[k], now, worker, lease) && IssuedOk(table, Issued(claimed[k], now))
    {
      assert Took(runs, rest, claimed[k], now, worker, lease);
      assert table[claimed[k].runId] == rest[claimed[k].runId];
    }
  }

  /** The attempt number counts from the start of the tick: earlier claims were for other accounts. */
  lemma TookFromStart(jobs: map<JobId, Job>, due: seq<JobId>, runs: seq<JobRun>, rest: seq<JobRun>, table: seq<JobRun>,
                      claim: ClaimedRun, now: int, worker: Worker, lease: int)
    requires Elsewhere(jobs, due, runs, rest) && !OfDue(jobs, due, claim.account) && Grown(runs, rest)
             && Grown(rest, table)
    requires Took(rest, table, claim, now, worker, lease)
    ensures Took(runs, table, claim, now, worker, lease)
  {
    if claim.runId < |rest| {
      assert RunGrown(rest[claim.runId], table[claim.runId]);
      if claim.runId < |runs| { assert RunGrown(runs[claim.runId], rest[claim.runId]); }
    }
  }

  /** Everything about the claims of one tick. */
  ghost predicate TickOk(jobs: map<JobId, Job>, runs: seq<JobRun>, least: int, due: seq<JobId>, now: int,
                         worker: Worker, lease: int, claimed: seq<ClaimedRun>, table: seq<JobRun>)
  {
    && RunsOk(jobs, table, least) && Apart(table, least) && Grown(runs, table)
    && ClaimsOk(jobs, runs, table, claimed, now, worker, lease)
    && Elsewhere(jobs, due, runs, table)
    && (forall k | 0 <= k < |claimed| :: OfDue(jobs, due, claimed[k].account))
  }

  lemma {:induction false} AllKeep(jobs: map<JobId, Job>, runs: seq<JobRun>, least: int, due: seq<JobId>, now: int,
                                   worker: Worker, lease: int)
    requires OneJobEach(jobs) && RunsOk(jobs, runs, least) && Apart(runs, least) && least >= 1 && lease > 0
    requires DueList(jobs, due, now)
    ensures AllDue(jobs, due)
    ensures var (claimed, table) := ClaimAll(runs, jobs, due, now, worker, lease);
            TickOk(jobs, runs, least, due, now, worker, lease, claimed, table)
  {
    if due == [] {
      assert forall i | 0 <= i < |runs| :: RunGrown(runs[i], runs[i]);
    } else {
      var n := |due| - 1;
      var first := due[..n];
      AllKeep(jobs, runs, least, first, now, worker, lease);
      var (claimed, rest) := ClaimAll(runs, jobs, first, now, worker, lease);
      var a := jobs[due[n]].account;
      var next := jobs[due[n]].nextRunAt.value;
      var (claim, table) := SlotTx(rest, due[n], a, next, now, worker, lease);
      SlotKeeps(jobs, rest, least, due[n], now, worker, lease);
      OneMore(jobs, runs, least, due, now, worker, lease, claimed, rest, claim, table);
    }
  }

  lemma OneMore(jobs: map<JobId, Job>, runs: seq<JobRun>, least: int, due: seq<JobId>, now: int, worker: Worker,
                lease: int, claimed: seq<ClaimedRun>, rest: seq<JobRun>, claim: Option<ClaimedRun>, table: seq<JobRun>)
    requires DueList(jobs, due, now) && |due| > 0
    requires TickOk(jobs, runs, least, due[..|due|-1], now, worker, lease, claimed, rest)
    requires RunsOk(jobs, table, least) && Apart(table, least) && Grown(rest, table)
    requires OtherAccounts(rest, table, jobs[due[|due|-1]].account)
    requires claim.Some? ==>
               && Took(rest, table, claim.value, now, worker, lease) && IssuedOk(table, Issued(claim.value, now))
               && claim.value.jobId == due[|due|-1] && claim.value.account == jobs[due[|due|-1]].account
               && jobs[due[|due|-1]].nextRunAt == Some(claim.value.scheduledFor)
    ensures TickOk(jobs, runs, least, due, now, worker, lease,
                   if claim.Some? then claimed + [claim.value] else claimed, table)
  {
    var n := |due| - 1;
    var a := jobs[due[n]].account;
    NewAccount(jobs, due, now);
    GrownTransitively(runs, rest, table);
    ElsewhereGrows(jobs, due, runs, rest, table);
    ClaimsStay(jobs, runs, rest, table, claimed, now, worker, lease, a);
    if claim.Some? { TookFromStart(jobs, due[..n], runs, rest, table, claim.value, now, worker, lease); }
  }

  lemma NewAccount(jobs: map<JobId, Job>, due: seq<JobId>, now: int)
    requires DueList(jobs, due, now) && |due| > 0
    ensures !OfDue(jobs, due[..|due|-1], jobs[due[|due|-1]].account)
    ensures forall a | OfDue(jobs, due[..|due|-1], a) :: OfDue(jobs, due, a)
    ensures OfDue(jobs, due, jobs[due[|due|-1]].account)
  {
    var n := |due| - 1;
    assert Belongs(jobs, due[n], jobs[due[n]].account);
    forall a | OfDue(jobs, due[..n], a) ensures OfDue(jobs, due, a) && a != jobs[due[n]].account {
      var i :| 0 <= i < n && Belongs(jobs, due[..n][i], a);
      assert Belongs(jobs, due[i], a);
    }
  }

  /** A due job is claimed exactly if no work of its account is under way. */
  lemma {:induction false} AllGranted(jobs: map<JobId, Job>, runs: seq<JobRun>, least: int, due: seq<JobId>, now: int,
                                      worker: Worker, lease: int, i: nat)
    requires OneJobEach(jobs) && RunsOk(jobs, runs, least) && Apart(runs, least) && least >= 1 && lease > 0
    requires DueList(jobs, due, now) && AllDue(jobs, due) && i < |due|
    ensures Granted(ClaimAll(runs, jobs, due, now, worker, lease).0, due[i]) <==> !Busy(runs, jobs[due[i]].account, now)
  {
    var n := |due| - 1;
    var first := due[..n];
    AllKeep(jobs, runs, least, first, now, worker, lease);
    NewAccount(jobs, due, now);
    var (claimed, rest) := ClaimAll(runs, jobs, first, now, worker, lease);
    var a := jobs[due[n]].account;
    var (claim, table) := SlotTx(rest, due[n], a, jobs[due[n]].nextRunAt.value, now, worker, lease);
    var all := if claim.Some? then claimed + [claim.value] else claimed;
    if i == n {
      ElsewhereAsBusy(jobs, first, runs, rest, a, now);
      SlotGranted(jobs, rest, least, due[n], now, worker, lease);
      if claim.Some? { assert all[|claimed|].jobId == due[n]; }
      assert forall k | 0 <= k < |claimed| :: claimed[k].jobId != due[n];
    } else {
      AllGranted(jobs, runs, least, first, now, worker, lease, i);
      assert first[i] == due[i];
      if Granted(claimed, due[i]) {
        var k :| 0 <= k < |claimed| && claimed[k].jobId == due[i];
        assert all[k].jobId == due[i];
      }
    }
  }
}
