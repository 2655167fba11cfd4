/** What holds of the scheduler's tables in every history. */
module SchedulerTheorems {
  import opened Prelude
  import opened SchedulerStore
  import opened SchedulerJobs
  import opened SchedulerRuns

  // ---- the invariant over steps and histories ----

  lemma DueIsDueList(jobs: map<JobId, Job>, ids: set<AccountId>, now: int, locked: set<JobId>, due: seq<JobId>)
    requires OneJobEach(jobs) && DueByAccount(jobs, ids, now, locked, due)
    ensures DueList(jobs, due, now)
  {
    forall i, k | 0 <= i < k < |due| ensures jobs[due[i]].account != jobs[due[k]].account {
      assert IdleJob(jobs, due[i], jobs[due[i]].account) && IdleJob(jobs, due[k], jobs[due[k]].account);
    }
  }

  lemma GrownIssued(runs: seq<JobRun>, table: seq<JobRun>, issued: seq<Issued>)
    requires Grown(runs, table) && AllIssuedOk(runs, issued)
    ensures AllIssuedOk(table, issued)
  {
    forall i | 0 <= i < |issued| ensures IssuedOk(table, issued[i]) {
      assert IssuedOk(runs, issued[i]);
      assert RunGrown(runs[issued[i].claim.runId], table[issued[i].claim.runId]);
    }
  }

  lemma ClaimKeeps(w: World, now: int, worker: Worker, lease: int, ids: set<AccountId>, locked: set<JobId>,
                   due: seq<JobId>, v: World, least: int)
    requires Inv(w, least) && least >= 1 && Next(w, Claim(now, worker, lease, ids, locked, due), v, least)
    ensures Inv(v, least) && Grown(w.runs, v.runs)
  {
    DueIsDueList(w.jobs, ids, now, locked, due);
    AllKeep(w.jobs, w.runs, least, due, now, worker, lease);
    GrownIssued(w.runs, v.runs, w.issued);
  }

  lemma FinishGrows(runs: seq<JobRun>, claim: ClaimedRun, completedAt: int, result: RunResult)
    ensures Grown(runs, FinishRuns(runs, claim, completedAt, result))
  {
    var table := FinishRuns(runs, claim, completedAt, result);
    assert forall i | 0 <= i < |runs| :: RunGrown(runs[i], table[i]);
  }

  lemma FinishKeeps(w: World, held: nat, completedAt: int, interval: int, result: RunResult, v: World, least: int)
    requires Inv(w, least) && least >= 1 && Next(w, Finish(held, completedAt, interval, result), v, least)
    ensures Inv(v, least) && Grown(w.runs, v.runs)
  {
    var claim := w.issued[held].claim;
    FinishGrows(w.runs, claim, completedAt, result);
    GrownIssued(w.runs, v.runs, w.issued);
    assert IssuedOk(w.runs, w.issued[held]);
    if MayFinish(w.runs, claim.runId) {
      var a := claim.account;
      assert RunOk(w.jobs, w.runs[claim.runId], least);
      forall i | 0 <= i < |v.runs| ensures RunOk(v.jobs, v.runs[i], least) {
        assert RunOk(w.jobs, w.runs[i], least);
        if w.runs[i].account == a && i != claim.runId {
          assert IdleJob(w.jobs, w.runs[i].job, a) && IdleJob(w.jobs, claim.jobId, a);
        }
      }
      forall b, j, k | IdleJob(v.jobs, j, b) && IdleJob(v.jobs, k, b) ensures j == k {
        assert IdleJob(w.jobs, j, b) && IdleJob(w.jobs, k, b);
      }
    }
  }

  lemma StepKeeps(w: World, s: Step, v: World, least: int)
    requires Inv(w, least) && least >= 1 && Next(w, s, v, least)
    ensures Inv(v, least) && Grown(w.runs, v.runs)
  {
    match s
    case Ensure(accounts, now, interval, rows, added) =>
      EnsureKeeps(w, accounts, now, interval, rows, added, v.jobs, least);
      assert forall i | 0 <= i < |w.runs| :: RunGrown(w.runs[i], w.runs[i]);
    case Claim(now, worker, lease, ids, locked, due) => ClaimKeeps(w, now, worker, lease, ids, locked, due, v, least);
    case Finish(held, completedAt, interval, result) => FinishKeeps(w, held, completedAt, interval, result, v, least);
  }

  ghost predicate Linked(w: World, v: World, least: int) { exists s :: Next(w, s, v, least) }

  ghost predicate History(ws: seq<World>, least: int)
  {
    |ws| > 0 && Init(ws[0]) && least >= 1 && forall n | 0 <= n < |ws| - 1 :: Linked(ws[n], ws[n+1], least)
  }

  lemma {:induction false} Holds(ws: seq<World>, least: int, n: nat)
    requires History(ws, least) && n < |ws|
    ensures Inv(ws[n], least)
  {
    if n > 0 {
      Holds(ws, least, n - 1);
      assert Linked(ws[n-1], ws[n-1+1], least);
      var s :| Next(ws[n-1], s, ws[n], least);
      StepKeeps(ws[n-1], s, ws[n], least);
    }
  }

  // ---- a run is never reopened and never lost ----

  /** Each (account, slot) has at most one run; its attempts only grow; a completed run never changes again. */
  lemma {:induction false} RunsOnlyGrow(ws: seq<World>, least: int, m: nat, n: nat)
    requires History(ws, least) && m <= n < |ws|
    ensures Grown(ws[m].runs, ws[n].runs)
    ensures forall i, j | 0 <= i < j < |ws[n].runs| ::
              !(ws[n].runs[i].account == ws[n].runs[j].account && ws[n].runs[i].slot == ws[n].runs[j].slot)
  {
    Holds(ws, least, n);
    if m < n {
      RunsOnlyGrow(ws, least, m, n - 1);
      Holds(ws, least, n - 1);
      assert Linked(ws[n-1], ws[n-1+1], least);
      var s :| Next(ws[n-1], s, ws[n], least);
      StepKeeps(ws[n-1], s, ws[n], least);
      GrownTransitively(ws[m].runs, ws[n-1].runs, ws[n].runs);
    } else {
      assert forall i | 0 <= i < |ws[m].runs| :: RunGrown(ws[m].runs[i], ws[m].runs[i]);
    }
  }

  // ---- no job is ever stuck ----

  /** The planned slot of a job is free of completed runs, and holds every run of the account that is not completed. */
  lemma PlannedSlotIsOpen(ws: seq<World>, least: int, n: nat, j: JobId, a: AccountId)
    requires History(ws, least) && n < |ws| && IdleJob(ws[n].jobs, j, a)
    ensures var w := ws[n];
            forall i | 0 <= i < |w.runs| && w.runs[i].account == a ::
              && w.jobs[j].nextRunAt.Some?
              && (w.runs[i].completedAt.Some? ==> w.runs[i].slot + least <= Slot(w.jobs[j].nextRunAt.value))
              && (w.runs[i].completedAt.None? ==> w.runs[i].slot == Slot(w.jobs[j].nextRunAt.value))
  {
    Holds(ws, least, n);
    forall i | 0 <= i < |ws[n].runs| && ws[n].runs[i].account == a
      ensures RunOk(ws[n].jobs, ws[n].runs[i], least) && ws[n].runs[i].job == j
    {
      assert RunOk(ws[n].jobs, ws[n].runs[i], least);
    }
  }

  /** What a tick may count on: the job is due, its account was admitted, and nobody else holds the row. */
  ghost predicate Ready(w: World, j: JobId, ids: set<AccountId>, locked: set<JobId>, now: int)
  {
    && j in w.jobs && j !in locked
    && w.jobs[j].kind == IdlePreview && w.jobs[j].enabled && w.jobs[j].account in ids
    && w.jobs[j].nextRunAt.Some? && w.jobs[j].nextRunAt.value <= now
    && forall i | 0 <= i < |w.runs| && w.runs[i].account == w.jobs[j].account ::
         w.runs[i].completedAt.Some? || TakeableAt(w.runs[i], now)
  }

  /** `claim_due` returns exactly the jobs that are ready, and takes their runs. */
  lemma ClaimDueIsExact(ws: seq<World>, least: int, n: nat, now: int, worker: Worker, lease: int, ids: set<AccountId>,
                        locked: set<JobId>, due: seq<JobId>, j: JobId)
    requires History(ws, least) && n < |ws| && lease > 0 && DueByAccount(ws[n].jobs, ids, now, locked, due)
    ensures var (claimed, table) := ClaimAll(ws[n].runs, ws[n].jobs, due, now, worker, lease);
            && (Granted(claimed, j) <==> Ready(ws[n], j, ids, locked, now))
            && ClaimsOk(ws[n].jobs, ws[n].runs, table, claimed, now, worker, lease)
  {
    Holds(ws, least, n);
    var w := ws[n];
    DueIsDueList(w.jobs, ids, now, locked, due);
    AllKeep(w.jobs, w.runs, least, due, now, worker, lease);
    var claimed := ClaimAll(w.runs, w.jobs, due, now, worker, lease).0;
    if j in due {
      var i :| 0 <= i < |due| && due[i] == j;
      AllGranted(w.jobs, w.runs, least, due, now, worker, lease, i);
    } else {
      ClaimsAreDue(w.runs, w.jobs, due, now, worker, lease);
    }
  }

  lemma {:induction false} ClaimsAreDue(runs: seq<JobRun>, jobs: map<JobId, Job>, due: seq<JobId>, now: int,
                                        worker: Worker, lease: int)
    requires AllDue(jobs, due)
    ensures AllIn(ClaimAll(runs, jobs, due, now, worker, lease).0, due)
  {
    if due != [] {
      var n := |due| - 1;
      ClaimsAreDue(runs, jobs, due[..n], now, worker, lease);
      var (claimed, rest) := ClaimAll(runs, jobs, due[..n], now, worker, lease);
      assert AllIn(claimed, due[..n]);
      assert due == due[..n] + [due[n]];
    }
  }

  predicate AllIn(claimed: seq<ClaimedRun>, due: seq<JobId>)
  {
    forall k | 0 <= k < |claimed| :: claimed[k].jobId in due
  }

  /** An abandoned run is taken up again by the first tick at or after its expiry, in its own slot, as a new attempt. */
  lemma AbandonedRunIsRetaken(ws: seq<World>, least: int, n: nat, now: int, worker: Worker, lease: int,
                              ids: set<AccountId>, locked: set<JobId>, due: seq<JobId>, i: nat) returns (k: nat)
    requires History(ws, least) && n < |ws| && lease > 0 && DueByAccount(ws[n].jobs, ids, now, locked, due)
    requires i < |ws[n].runs| && ws[n].runs[i].completedAt.None? && !Unexpired(ws[n].runs[i], now)
    requires ws[n].runs[i].account in ids && ws[n].runs[i].job !in locked
    requires ws[n].runs[i].job in ws[n].jobs ==> ws[n].jobs[ws[n].runs[i].job].enabled
    ensures var (claimed, table) := ClaimAll(ws[n].runs, ws[n].jobs, due, now, worker, lease);
            && k < |claimed| && claimed[k].runId == i && i < |table|
            && table[i].attempt == ws[n].runs[i].attempt + 1 && table[i].owner == Some(worker)
  {
    var w := ws[n];
    Holds(ws, least, n);
    var run := w.runs[i];
    assert RunOk(w.jobs, run, least);
    OnlyOpenRun(w, least, i);
    ClaimDueIsExact(ws, least, n, now, worker, lease, ids, locked, due, run.job);
    assert Ready(w, run.job, ids, locked, now);
    var (claimed, table) := ClaimAll(w.runs, w.jobs, due, now, worker, lease);
    k :| 0 <= k < |claimed| && claimed[k].jobId == run.job;
    DueIsDueList(w.jobs, ids, now, locked, due);
    AllKeep(w.jobs, w.runs, least, due, now, worker, lease);
    assert Took(w.runs, table, claimed[k], now, worker, lease);
    assert RunGrown(w.runs[i], table[i]);
  }

  /** An account has at most one run that is not completed. */
  lemma OnlyOpenRun(w: World, least: int, i: nat)
    requires Inv(w, least) && least >= 1 && i < |w.runs| && w.runs[i].completedAt.None?
    ensures forall k | 0 <= k < |w.runs| && w.runs[k].account == w.runs[i].account && w.runs[k].completedAt.None? ::
              k == i
  {
    assert RunOk(w.jobs, w.runs[i], least);
    forall k | 0 <= k < |w.runs| && w.runs[k].account == w.runs[i].account && w.runs[k].completedAt.None?
      ensures k == i
    {
      assert RunOk(w.jobs, w.runs[k], least);
      assert IdleJob(w.jobs, w.runs[k].job, w.runs[i].account);
    }
  }

  /** Finishing a run plans the next one at least one interval after the slot that was claimed, whose slot is new. */
  lemma NextRunIsLater(ws: seq<World>, least: int, n: nat, held: nat, completedAt: int, interval: int,
                       result: RunResult, v: World)
    requires History(ws, least) && n < |ws| && Next(ws[n], Finish(held, completedAt, interval, result), v, least)
    requires MayFinish(ws[n].runs, ws[n].issued[held].claim.runId)
    ensures var claim := ws[n].issued[held].claim;
            && claim.jobId in v.jobs && v.jobs[claim.jobId].nextRunAt.Some?
            && v.jobs[claim.jobId].nextRunAt.value >= claim.scheduledFor + interval * SECOND
            && Slot(v.jobs[claim.jobId].nextRunAt.value) >= Slot(claim.scheduledFor) + interval
            && v.runs[claim.runId].completedAt == Some(completedAt) && v.runs[claim.runId].result == Some(result)
  {
    Holds(ws, least, n);
    assert IssuedOk(ws[n].runs, ws[n].issued[held]);
    assert RunOk(ws[n].jobs, ws[n].runs[ws[n].issued[held].claim.runId], least);
  }

  // ---- how often an account is previewed ----

  /** Runs of the account whose slot is in [from, to], in seconds. */
  function Count(runs: seq<JobRun>, a: AccountId, from: int, to: int): nat
  {
    if runs == [] then 0
    else
      var last := runs[|runs|-1];
      Count(runs[..|runs|-1], a, from, to) + (if last.account == a && from <= last.slot <= to then 1 else 0)
  }

  /** Some run of the account in the window has a slot of at least `bound`. */
  ghost predicate Reaches(runs: seq<JobRun>, a: AccountId, from: int, to: int, bound: int)
  {
    exists i | 0 <= i < |runs| :: runs[i].account == a && from <= runs[i].slot <= to && bound <= runs[i].slot
  }

  lemma ReachesFurther(runs: seq<JobRun>, least: int, a: AccountId, from: int, to: int, bound: int)
    requires Apart(runs, least) && |runs| > 0 && runs[|runs|-1].account == a && from <= runs[|runs|-1].slot <= to
    requires Reaches(runs[..|runs|-1], a, from, to, bound)
    ensures Reaches(runs, a, from, to, bound + least)
  {
    var n := |runs| - 1;
    var i :| 0 <= i < n && runs[..n][i].account == a && from <= runs[..n][i].slot <= to && bound <= runs[..n][i].slot;
    assert runs[..n][i] == runs[i];
    assert runs[i].slot + least <= runs[n].slot;
  }

  /** The distance that `c` runs cover at least. */
  function Cover(c: nat, least: int): int { if c <= 1 then 0 else Cover(c - 1, least) + least }

  lemma {:induction false} CoverIs(c: nat, least: int)
    requires c >= 1
    ensures Cover(c, least) == (c - 1) * least
  {
    if c > 1 { CoverIs(c - 1, least); }
  }

  lemma {:induction false} CountBelow(runs: seq<JobRun>, least: int, a: AccountId, from: int, to: int)
    requires Apart(runs, least)
    ensures Count(runs, a, from, to) > 0 ==> Reaches(runs, a, from, to, from + Cover(Count(runs, a, from, to), least))
  {
    if runs != [] {
      var n := |runs| - 1;
      CountBelow(runs[..n], least, a, from, to);
      var before := Count(runs[..n], a, from, to);
      var bound := from + Cover(before, least);
      if runs[n].account == a && from <= runs[n].slot <= to {
        if before > 0 { ReachesFurther(runs, least, a, from, to, bound); }
      } else if before > 0 {
        ReachesStill(runs, a, from, to, bound);
      }
    }
  }

  lemma ReachesStill(runs: seq<JobRun>, a: AccountId, from: int, to: int, bound: int)
    requires |runs| > 0 && Reaches(runs[..|runs|-1], a, from, to, bound)
    ensures Reaches(runs, a, from, to, bound)
  {
    var n := |runs| - 1;
    var i :| 0 <= i < n && runs[..n][i].account == a && from <= runs[..n][i].slot <= to && bound <= runs[..n][i].slot;
    assert runs[..n][i] == runs[i];
  }

  /** In any window of `length` seconds an account has at most floor(length / least) + 1 runs. */
  lemma RateIsBounded(ws: seq<World>, least: int, n: nat, a: AccountId, from: int, length: nat)
    requires History(ws, least) && n < |ws|
    ensures Count(ws[n].runs, a, from, from + length) <= length / least + 1
  {
    Holds(ws, least, n);
    RateOfRuns(ws[n].runs, least, a, from, length);
  }

  lemma RateOfRuns(runs: seq<JobRun>, least: int, a: AccountId, from: int, length: nat)
    requires Apart(runs, least) && least >= 1
    ensures Count(runs, a, from, from + length) <= length / least + 1
  {
    CountBelow(runs, least, a, from, from + length);
    var c := Count(runs, a, from, from + length);
    if c > 0 {
      CoverIs(c, least);
      Quotient(c - 1, least, length);
    }
  }

  lemma Quotient(k: int, d: int, length: int)
    requires d >= 1 && k * d <= length
    ensures k <= length / d
  {
    var q := length / d;
    assert q * d + length % d == length && length % d < d;
    assert (k - q) * d == k * d - q * d;
    assert k - q >= 1 ==> (k - q) * d >= d;
  }
}
