/**
 * When a job is stuck, in any table: accounts may have any number of jobs here, as two workers may leave them behind.
 * A stuck job is due at every later tick and never claimed.
 */
module SchedulerStuck {
  import opened Prelude
  import opened SchedulerStore
  import opened SchedulerJobs
  import opened SchedulerRuns
  import opened SchedulerTheorems

  // ---- what holds of every table that histories lead to ----

  predicate UniqueSlots(runs: seq<JobRun>)
  {
    forall i, j | 0 <= i < j < |runs| && runs[i].account == runs[j].account :: runs[i].slot != runs[j].slot
  }

  /** The planned time of a claimed job stays in the slot of the claim until its run is completed. */
  predicate Tied(jobs: map<JobId, Job>, runs: seq<JobRun>, c: ClaimedRun)
  {
    && c.runId < |runs| && runs[c.runId].account == c.account
    && Belongs(jobs, c.jobId, c.account) && jobs[c.jobId].nextRunAt.Some?
    && (runs[c.runId].completedAt.None? ==> runs[c.runId].slot == Slot(jobs[c.jobId].nextRunAt.value))
  }

  predicate AllTied(jobs: map<JobId, Job>, runs: seq<JobRun>, issued: seq<Issued>)
  {
    forall i | 0 <= i < |issued| :: Tied(jobs, runs, issued[i].claim)
  }

  predicate TablesOk(w: World) { UniqueSlots(w.runs) && AllTied(w.jobs, w.runs, w.issued) }

  lemma FoundIsThe(runs: seq<JobRun>, i: nat)
    requires UniqueSlots(runs) && i < |runs|
    ensures FindRun(runs, runs[i].account, runs[i].slot) == Some(i)
  {}

  lemma SlotIsTied(runs: seq<JobRun>, j: JobId, a: AccountId, t: int, now: int, worker: Worker, lease: int)
    requires UniqueSlots(runs)
    ensures var (claim, table) := SlotTx(runs, j, a, t, now, worker, lease);
            && UniqueSlots(table) && Grown(runs, table) && OtherAccounts(runs, table, a)
            && (claim.Some? ==> claim.value.jobId == j && claim.value.account == a && claim.value.runId < |table|
                                && table[claim.value.runId].account == a && table[claim.value.runId].slot == Slot(t))
  {
    var table := SlotTx(runs, j, a, t, now, worker, lease).1;
    assert forall i | 0 <= i < |runs| :: RunGrown(runs[i], table[i]);
  }

  lemma TiedGrows(jobs: map<JobId, Job>, runs: seq<JobRun>, table: seq<JobRun>, c: ClaimedRun)
    requires Tied(jobs, runs, c) && Grown(runs, table)
    ensures Tied(jobs, table, c)
  {
    assert RunGrown(runs[c.runId], table[c.runId]);
  }

  predicate ClaimsTied(jobs: map<JobId, Job>, runs: seq<JobRun>, claimed: seq<ClaimedRun>)
  {
    forall k | 0 <= k < |claimed| :: Tied(jobs, runs, claimed[k])
  }

  lemma {:induction false} AllAreTied(jobs: map<JobId, Job>, runs: seq<JobRun>, due: seq<JobId>, now: int,
                                      worker: Worker, lease: int)
    requires UniqueSlots(runs) && AllDue(jobs, due)
    ensures var (claimed, table) := ClaimAll(runs, jobs, due, now, worker, lease);
            UniqueSlots(table) && Grown(runs, table) && ClaimsTied(jobs, table, claimed)
  {
    if due == [] {
      assert forall i | 0 <= i < |runs| :: RunGrown(runs[i], runs[i]);
    } else {
      var n := |due| - 1;
      AllAreTied(jobs, runs, due[..n], now, worker, lease);
      var (claimed, rest) := ClaimAll(runs, jobs, due[..n], now, worker, lease);
      var job := jobs[due[n]];
      SlotIsTied(rest, due[n], job.account, job.nextRunAt.value, now, worker, lease);
      var (claim, table) := SlotTx(rest, due[n], job.account, job.nextRunAt.value, now, worker, lease);
      GrownTransitively(runs, rest, table);
      forall k | 0 <= k < |claimed| ensures Tied(jobs, table, claimed[k]) { TiedGrows(jobs, rest, table, claimed[k]); }
    }
  }

  lemma ClaimKeepsTables(w: World, now: int, worker: Worker, lease: int, ids: set<AccountId>, locked: set<JobId>,
                         due: seq<JobId>, v: World, least: int)
    requires TablesOk(w) && Next(w, Claim(now, worker, lease, ids, locked, due), v, least)
    ensures TablesOk(v) && Grown(w.runs, v.runs)
  {
    AllAreTied(w.jobs, w.runs, due, now, worker, lease);
    forall i | 0 <= i < |w.issued| ensures Tied(v.jobs, v.runs, w.issued[i].claim) {
      TiedGrows(w.jobs, w.runs, v.runs, w.issued[i].claim);
    }
  }

  lemma EnsureKeepsTables(w: World, accounts: seq<SchedulerAccount>, now: int, interval: int, rows: seq<JobId>,
                          added: map<AccountId, JobId>, jobs: map<JobId, Job>)
    requires TablesOk(w) && Ensured(w.jobs, accounts, now, interval, rows, jobs, added)
    ensures TablesOk(w.(jobs := jobs))
  {
    OthersUntouched(w.jobs, accounts, now, interval, rows, jobs, added);
    forall i | 0 <= i < |w.issued| ensures Tied(jobs, w.runs, w.issued[i].claim) {
      assert Tied(w.jobs, w.runs, w.issued[i].claim);
    }
  }

  lemma FinishKeepsTables(w: World, held: nat, completedAt: int, interval: int, result: RunResult, v: World, least: int)
    requires TablesOk(w) && Next(w, Finish(held, completedAt, interval, result), v, least)
    ensures TablesOk(v) && Grown(w.runs, v.runs)
  {
    var c := w.issued[held].claim;
    FinishGrows(w.runs, c, completedAt, result);
    assert Tied(w.jobs, w.runs, c);
    forall i | 0 <= i < |w.issued| ensures Tied(v.jobs, v.runs, w.issued[i].claim) {
      assert Tied(w.jobs, w.runs, w.issued[i].claim);
      assert RunGrown(w.runs[w.issued[i].claim.runId], v.runs[w.issued[i].claim.runId]);
    }
  }

  lemma StepKeepsTables(w: World, s: Step, v: World, least: int)
    requires TablesOk(w) && Next(w, s, v, least)
    ensures TablesOk(v) && Grown(w.runs, v.runs)
  {
    match s
    case Ensure(accounts, now, interval, rows, added) =>
      EnsureKeepsTables(w, accounts, now, interval, rows, added, v.jobs);
      assert forall i | 0 <= i < |w.runs| :: RunGrown(w.runs[i], w.runs[i]);
    case Claim(now, worker, lease, ids, locked, due) =>
      ClaimKeepsTables(w, now, worker, lease, ids, locked, due, v, least);
    case Finish(held, completedAt, interval, result) =>
      FinishKeepsTables(w, held, completedAt, interval, result, v, least);
  }

  /** `ws` leads from `w` to `v`. */
  ghost predicate Leads(ws: seq<World>, w: World, v: World, least: int)
  {
    |ws| > 0 && ws[0] == w && ws[|ws|-1] == v && forall n | 0 <= n < |ws| - 1 :: Linked(ws[n], ws[n+1], least)
  }

  /** Whatever jobs there are to begin with, before the first run every history starts well, and it stays so. */
  lemma {:induction false} TablesStayOk(ws: seq<World>, w: World, v: World, least: int)
    requires Leads(ws, w, v, least) && (TablesOk(w) || (w.runs == [] && w.issued == []))
    ensures TablesOk(v)
  {
    if |ws| > 1 {
      var n := |ws| - 2;
      assert ws[..n+1][n] == ws[n];
      TablesStayOk(ws[..n+1], w, ws[n], least);
      assert Linked(ws[n], ws[n+1], least);
      var s :| Next(ws[n], s, ws[n+1], least);
      StepKeepsTables(ws[n], s, v, least);
    }
  }

  // ---- a taken slot is taken for ever, and the job's plan stays in it ----

  predicate CompletedAt(runs: seq<JobRun>, a: AccountId, slot: int)
  {
    exists i | 0 <= i < |runs| :: runs[i].account == a && runs[i].slot == slot && runs[i].completedAt.Some?
  }

  lemma CompletedStays(runs: seq<JobRun>, table: seq<JobRun>, a: AccountId, slot: int)
    requires Grown(runs, table) && CompletedAt(runs, a, slot)
    ensures CompletedAt(table, a, slot)
  {
    var i :| 0 <= i < |runs| && runs[i].account == a && runs[i].slot == slot && runs[i].completedAt.Some?;
    assert RunGrown(runs[i], table[i]);
  }

  /** The slot that the job is planned for has a completed run of its account. */
  predicate Stuck(w: World, j: JobId, a: AccountId, next: int)
  {
    Belongs(w.jobs, j, a) && w.jobs[j].nextRunAt == Some(next) && CompletedAt(w.runs, a, Slot(next))
  }

  lemma StepKeepsStuck(w: World, s: Step, v: World, least: int, j: JobId, a: AccountId, next: int)
    requires TablesOk(w) && Next(w, s, v, least) && Stuck(w, j, a, next)
    ensures Stuck(v, j, a, next)
  {
    StepKeepsTables(w, s, v, least);
    CompletedStays(w.runs, v.runs, a, Slot(next));
    match s
    case Ensure(accounts, now, interval, rows, added) =>
      OthersUntouched(w.jobs, accounts, now, interval, rows, v.jobs, added);
    case Claim(_, _, _, _, _, _) =>
    case Finish(held, _, _, _) =>
      var c := w.issued[held].claim;
      assert Tied(w.jobs, w.runs, c);
      var i :| 0 <= i < |w.runs| && w.runs[i].account == a && w.runs[i].slot == Slot(next)
                  && w.runs[i].completedAt.Some?;
      assert c.jobId == j && MayFinish(w.runs, c.runId) ==> c.runId == i;
  }

  lemma {:induction false} StuckForEver(ws: seq<World>, w: World, v: World, least: int, j: JobId, a: AccountId,
                                        next: int)
    requires Leads(ws, w, v, least) && TablesOk(w) && Stuck(w, j, a, next)
    ensures TablesOk(v) && Stuck(v, j, a, next)
  {
    TablesStayOk(ws, w, v, least);
    if |ws| > 1 {
      var n := |ws| - 2;
      assert ws[..n+1][n] == ws[n];
      StuckForEver(ws[..n+1], w, ws[n], least, j, a, next);
      assert Linked(ws[n], ws[n+1], least);
      var s :| Next(ws[n], s, ws[n+1], least);
      StepKeepsStuck(ws[n], s, v, least, j, a, next);
    }
  }

  lemma {:induction false} StuckIsSkipped(runs: seq<JobRun>, jobs: map<JobId, Job>, due: seq<JobId>, now: int,
                                          worker: Worker, lease: int, j: JobId)
    requires UniqueSlots(runs) && AllDue(jobs, due) && j in jobs && jobs[j].nextRunAt.Some?
    requires CompletedAt(runs, jobs[j].account, Slot(jobs[j].nextRunAt.value))
    ensures !Granted(ClaimAll(runs, jobs, due, now, worker, lease).0, j)
  {
    if due != [] {
      var n := |due| - 1;
      StuckIsSkipped(runs, jobs, due[..n], now, worker, lease, j);
      AllAreTied(jobs, runs, due[..n], now, worker, lease);
      var (claimed, rest) := ClaimAll(runs, jobs, due[..n], now, worker, lease);
      var a, slot := jobs[j].account, Slot(jobs[j].nextRunAt.value);
      CompletedStays(runs, rest, a, slot);
      var i :| 0 <= i < |rest| && rest[i].account == a && rest[i].slot == slot && rest[i].completedAt.Some?;
      FoundIsThe(rest, i);
      assert forall k | 0 <= k < |claimed| :: claimed[k].jobId != j;
    }
  }

  // ---- otherwise it is granted ----

  /** Nobody has completed the slot, and no lease on it runs. */
  predicate SlotFree(runs: seq<JobRun>, a: AccountId, slot: int, now: int)
  {
    forall i | 0 <= i < |runs| && runs[i].account == a && runs[i].slot == slot ::
      runs[i].completedAt.None? && !Unexpired(runs[i], now)
  }

  /** Claiming a slot leaves exactly that slot taken, whoever gets it; every other is as free as before. */
  lemma SlotIsTaken(runs: seq<JobRun>, j: JobId, a: AccountId, t: int, now: int, worker: Worker, lease: int,
                    b: AccountId, slot: int)
    requires lease > 0
    ensures SlotFree(SlotTx(runs, j, a, t, now, worker, lease).1, b, slot, now)
            <==> SlotFree(runs, b, slot, now) && !(b == a && slot == Slot(t))
  {
    var table := SlotTx(runs, j, a, t, now, worker, lease).1;
    var found := FindRun(runs, a, Slot(t));
    if b == a && slot == Slot(t) {
      var i := if found.Some? then found.value else |runs|;
      assert table[i].completedAt.Some? || Unexpired(table[i], now);
    } else {
      assert forall i | 0 <= i < |runs| && runs[i].account == b && runs[i].slot == slot :: table[i] == runs[i];
      assert forall i | 0 <= i < |table| && table[i].account == b && table[i].slot == slot ::
               i < |runs| && table[i] == runs[i];
    }
  }

  /** A job of the account in the list is planned for the slot. */
  ghost predicate Planned(jobs: map<JobId, Job>, due: seq<JobId>, a: AccountId, slot: int)
    requires AllDue(jobs, due)
  {
    exists k | 0 <= k < |due| :: PlannedFor(jobs[due[k]], a, slot)
  }

  predicate PlannedFor(job: Job, a: AccountId, slot: int)
    requires job.nextRunAt.Some?
  {
    job.account == a && Slot(job.nextRunAt.value) == slot
  }

  lemma PlannedSplits(jobs: map<JobId, Job>, due: seq<JobId>, a: AccountId, slot: int)
    requires AllDue(jobs, due) && |due| > 0
    ensures AllDue(jobs, due[..|due|-1])
    ensures Planned(jobs, due, a, slot)
            <==> Planned(jobs, due[..|due|-1], a, slot) || PlannedFor(jobs[due[|due|-1]], a, slot)
  {
    var n := |due| - 1;
    if Planned(jobs, due[..n], a, slot) {
      var k :| 0 <= k < n && PlannedFor(jobs[due[..n][k]], a, slot);
      assert PlannedFor(jobs[due[k]], a, slot);
    }
    if Planned(jobs, due, a, slot) && !PlannedFor(jobs[due[n]], a, slot) {
      var k :| 0 <= k < |due| && PlannedFor(jobs[due[k]], a, slot);
      assert PlannedFor(jobs[due[..n][k]], a, slot);
    }
  }

  /** After the claims of a list the free slots are those that were free and that no job of the list is planned for. */
  lemma {:induction false} FreeAfterClaims(runs: seq<JobRun>, jobs: map<JobId, Job>, due: seq<JobId>, now: int,
                                           worker: Worker, lease: int, b: AccountId, slot: int)
    requires AllDue(jobs, due) && lease > 0
    ensures SlotFree(ClaimAll(runs, jobs, due, now, worker, lease).1, b, slot, now)
            <==> SlotFree(runs, b, slot, now) && !Planned(jobs, due, b, slot)
  {
    if due != [] {
      var n := |due| - 1;
      PlannedSplits(jobs, due, b, slot);
      FreeAfterClaims(runs, jobs, due[..n], now, worker, lease, b, slot);
      var rest := ClaimAll(runs, jobs, due[..n], now, worker, lease).1;
      var job := jobs[due[n]];
      SlotIsTaken(rest, due[n], job.account, job.nextRunAt.value, now, worker, lease, b, slot);
    }
  }

  lemma FreeIsGranted(runs: seq<JobRun>, j: JobId, a: AccountId, t: int, now: int, worker: Worker, lease: int)
    requires UniqueSlots(runs)
    ensures SlotTx(runs, j, a, t, now, worker, lease).0.Some? <==> SlotFree(runs, a, Slot(t), now)
  {
    var found := FindRun(runs, a, Slot(t));
    if found.Some? {
      assert forall i | 0 <= i < |runs| && runs[i].account == a && runs[i].slot == Slot(t) :: i == found.value;
    }
  }

  predicate NoRepeats(due: seq<JobId>) { forall i, k | 0 <= i < k < |due| :: due[i] != due[k] }

  lemma LastGranted(runs: seq<JobRun>, jobs: map<JobId, Job>, due: seq<JobId>, now: int, worker: Worker, lease: int)
    requires UniqueSlots(runs) && AllDue(jobs, due) && NoRepeats(due) && lease > 0 && |due| > 0
    ensures var n := |due| - 1;
            var a, slot := jobs[due[n]].account, Slot(jobs[due[n]].nextRunAt.value);
            Granted(ClaimAll(runs, jobs, due, now, worker, lease).0, due[n])
            <==> SlotFree(runs, a, slot, now) && !Planned(jobs, due[..n], a, slot)
  {
    var n := |due| - 1;
    AllAreTied(jobs, runs, due[..n], now, worker, lease);
    var (claimed, rest) := ClaimAll(runs, jobs, due[..n], now, worker, lease);
    var job := jobs[due[n]];
    FreeAfterClaims(runs, jobs, due[..n], now, worker, lease, job.account, Slot(job.nextRunAt.value));
    FreeIsGranted(rest, due[n], job.account, job.nextRunAt.value, now, worker, lease);
    ClaimsAreDue(runs, jobs, due[..n], now, worker, lease);
    assert forall k | 0 <= k < |claimed| :: claimed[k].jobId in due[..n] && claimed[k].jobId != due[n];
    var claim := SlotTx(rest, due[n], job.account, job.nextRunAt.value, now, worker, lease).0;
    if claim.Some? { assert (claimed + [claim.value])[|claimed|].jobId == due[n]; }
  }

  /** In any table and for any number of due jobs an account: a tick grants a due job exactly if its slot is free and no
      job of its account that comes before it is planned for the same slot. */
  lemma {:induction false} GrantedExactlyIfFree(runs: seq<JobRun>, jobs: map<JobId, Job>, due: seq<JobId>, now: int,
                                                worker: Worker, lease: int, i: nat)
    requires UniqueSlots(runs) && AllDue(jobs, due) && NoRepeats(due) && lease > 0 && i < |due|
    ensures var a, slot := jobs[due[i]].account, Slot(jobs[due[i]].nextRunAt.value);
            Granted(ClaimAll(runs, jobs, due, now, worker, lease).0, due[i])
            <==> SlotFree(runs, a, slot, now) && !Planned(jobs, due[..i], a, slot)
  {
    var n := |due| - 1;
    if i == n {
      LastGranted(runs, jobs, due, now, worker, lease);
    } else {
      GrantedExactlyIfFree(runs, jobs, due[..n], now, worker, lease, i);
      assert due[..n][i] == due[i] && due[..n][..i] == due[..i];
      GrantedBefore(runs, jobs, due, now, worker, lease, i);
    }
  }

  /** The last claim of a list neither grants nor takes back an earlier one. */
  lemma GrantedBefore(runs: seq<JobRun>, jobs: map<JobId, Job>, due: seq<JobId>, now: int, worker: Worker, lease: int,
                      i: nat)
    requires AllDue(jobs, due) && NoRepeats(due) && i < |due| - 1
    ensures Granted(ClaimAll(runs, jobs, due, now, worker, lease).0, due[i])
            <==> Granted(ClaimAll(runs, jobs, due[..|due|-1], now, worker, lease).0, due[i])
  {
    var n := |due| - 1;
    var claimed := ClaimAll(runs, jobs, due[..n], now, worker, lease).0;
    var all := ClaimAll(runs, jobs, due, now, worker, lease).0;
    assert all == claimed || (|all| == |claimed| + 1 && all[..|claimed|] == claimed && all[|claimed|].jobId == due[n]);
    if Granted(claimed, due[i]) {
      var k :| 0 <= k < |claimed| && claimed[k].jobId == due[i];
      assert all[k].jobId == due[i];
    }
    if Granted(all, due[i]) {
      var k :| 0 <= k < |all| && all[k].jobId == due[i];
      assert k < |claimed| && claimed[k].jobId == due[i];
    }
  }

  // ---- exactly when ----

  /** In no world that may follow does any tick claim the job. */
  ghost predicate NeverGranted(w: World, j: JobId, least: int)
  {
    forall ws, v, now, worker, lease, ids, locked, due |
      Leads(ws, w, v, least) && lease > 0 && DueByAccount(v.jobs, ids, now, locked, due) ::
        !Granted(ClaimAll(v.runs, v.jobs, due, now, worker, lease).0, j)
  }

  /** A time by which the job is due and every lease on its slot is over. */
  lemma {:induction false} FreeInTheEnd(runs: seq<JobRun>, a: AccountId, slot: int, from: int) returns (now: int)
    requires !CompletedAt(runs, a, slot)
    ensures now >= from && SlotFree(runs, a, slot, now)
  {
    if runs == [] {
      now := from;
    } else {
      var n := |runs| - 1;
      assert forall i | 0 <= i < n :: runs[..n][i] == runs[i];
      now := FreeInTheEnd(runs[..n], a, slot, from);
      if runs[n].leaseExpiresAt.Some? && runs[n].leaseExpiresAt.value > now { now := runs[n].leaseExpiresAt.value; }
      assert forall i | 0 <= i < n && runs[i].account == a && runs[i].slot == slot :: !Unexpired(runs[..n][i], now);
    }
  }

  /** An enabled job with a planned time is never claimed again if and only if a completed run of its account is in the
      slot that it is planned for. */
  lemma StuckExactlyIf(w: World, j: JobId, least: int)
    requires TablesOk(w) && j in w.jobs && w.jobs[j].kind.IdlePreview? && w.jobs[j].enabled && w.jobs[j].nextRunAt.Some?
    ensures NeverGranted(w, j, least) <==> CompletedAt(w.runs, w.jobs[j].account, Slot(w.jobs[j].nextRunAt.value))
  {
    var a, next := w.jobs[j].account, w.jobs[j].nextRunAt.value;
    if CompletedAt(w.runs, a, Slot(next)) {
      forall ws, v, now, worker, lease, ids, locked, due |
        Leads(ws, w, v, least) && lease > 0 && DueByAccount(v.jobs, ids, now, locked, due)
        ensures !Granted(ClaimAll(v.runs, v.jobs, due, now, worker, lease).0, j)
      {
        StuckForEver(ws, w, v, least, j, a, next);
        StuckIsSkipped(v.runs, v.jobs, due, now, worker, lease, j);
      }
    } else {
      var now := FreeInTheEnd(w.runs, a, Slot(next), next);
      GrantedAlone(w, j, now);
      assert Leads([w], w, w, least);
      assert DueByAccount(w.jobs, {a}, now, w.jobs.Keys - {j}, [j]);
    }
  }

  lemma GrantedAlone(w: World, j: JobId, now: int)
    requires TablesOk(w) && j in w.jobs && Due(w.jobs[j], {w.jobs[j].account}, now)
    requires SlotFree(w.runs, w.jobs[j].account, Slot(w.jobs[j].nextRunAt.value), now)
    ensures DueByAccount(w.jobs, {w.jobs[j].account}, now, w.jobs.Keys - {j}, [j])
    ensures Granted(ClaimAll(w.runs, w.jobs, [j], now, 0, 1).0, j)
  {
    assert [j][0] == j && [j][..0] == [];
    GrantedExactlyIfFree(w.runs, w.jobs, [j], now, 0, 1, 0);
  }

  // ---- how it happens ----

  function Twin(enabled: bool, next: int): Job { Job(7, IdlePreview, 60, enabled, Some(next), 0) }

  function Twins(first: Job, second: Job): map<JobId, Job> { map[1 := first, 2 := second] }

  const TAKEN := NewRun(1, 7, 0, 0, 0, 60)
  const DONE := TAKEN.(result := Some(Succeeded), completedAt := Some(5), owner := None, leaseExpiresAt := None)
  const HELD := [Issued(ClaimedRun(0, 1, 7, 0), 0)]

  lemma ClaimOfOne(runs: seq<JobRun>, jobs: map<JobId, Job>, j: JobId, now: int, worker: Worker, lease: int)
    requires AllDue(jobs, [j]) && j in jobs && jobs[j].nextRunAt.Some?
    ensures var (claim, table) := SlotTx(runs, j, jobs[j].account, jobs[j].nextRunAt.value, now, worker, lease);
            ClaimAll(runs, jobs, [j], now, worker, lease) == (if claim.Some? then [claim.value] else [], table)
  {
    var due := [j];
    var (claimed, rest) := ClaimAll(runs, jobs, due[..|due|-1], now, worker, lease);
    assert due[..|due|-1] == [] && claimed == [] && rest == runs;
    var claim := SlotTx(runs, j, jobs[j].account, jobs[j].nextRunAt.value, now, worker, lease).0;
    if claim.Some? { assert claimed + [claim.value] == [claim.value]; }
  }

  lemma FirstIsClaimed(least: int)
    ensures Linked(World(Twins(Twin(true, 0), Twin(false, 0)), [], []),
                   World(Twins(Twin(true, 0), Twin(false, 0)), [TAKEN], HELD), least)
  {
    var jobs := Twins(Twin(true, 0), Twin(false, 0));
    assert [1][0] == 1;
    assert DueByAccount(jobs, {7}, 0, {}, [1]);
    var none: seq<JobRun> := [];
    assert Slot(0) == 0 && FindRun(none, 7, 0) == None && none + [TAKEN] == [TAKEN];
    assert SlotTx(none, 1, 7, 0, 0, 0, 60) == (Some(ClaimedRun(0, 1, 7, 0)), [TAKEN]);
    ClaimOfOne(none, jobs, 1, 0, 0, 60);
    assert Handed([ClaimedRun(0, 1, 7, 0)], 0) == HELD;
    assert Next(World(jobs, [], []), Claim(0, 0, 60, {7}, {}, [1]), World(jobs, [TAKEN], HELD), least);
  }

  lemma FirstIsFinished(least: int)
    requires least <= 60
    ensures Linked(World(Twins(Twin(true, 0), Twin(false, 0)), [TAKEN], HELD),
                   World(Twins(Twin(true, 60 * SECOND), Twin(false, 0)), [DONE], HELD), least)
  {
    assert FinishRuns([TAKEN], HELD[0].claim, 5, Succeeded) == [DONE];
    assert Next(World(Twins(Twin(true, 0), Twin(false, 0)), [TAKEN], HELD), Finish(0, 5, 60, Succeeded),
                World(Twins(Twin(true, 60 * SECOND), Twin(false, 0)), [DONE], HELD), least);
  }

  lemma TwinsAreEnsured(accounts: seq<SchedulerAccount>)
    requires accounts == [SchedulerAccount(7, true, None)]
    ensures Ensured(Twins(Twin(true, 60 * SECOND), Twin(false, 0)), accounts, 60 * SECOND, 60, [2, 1],
                    Twins(Twin(false, 60 * SECOND), Twin(true, 0)), map[])
  {
    var jobs := Twins(Twin(true, 60 * SECOND), Twin(false, 0));
    assert EligibleView(accounts[0]);
    assert Known(accounts) == {7} == Eligible(accounts);
    Swap(jobs, [2, 1], 2, 1);
    assert Belongs(jobs, [2, 1][0], 7);
  }

  lemma TwinsAreSwapped(least: int)
    ensures Linked(World(Twins(Twin(true, 60 * SECOND), Twin(false, 0)), [DONE], HELD),
                   World(Twins(Twin(false, 60 * SECOND), Twin(true, 0)), [DONE], HELD), least)
  {
    var accounts := [SchedulerAccount(7, true, None)];
    var jobs := Twins(Twin(true, 60 * SECOND), Twin(false, 0));
    TwinsAreEnsured(accounts);
    assert Next(World(jobs, [DONE], HELD), Ensure(accounts, 60 * SECOND, 60, [2, 1], map[]),
                World(Twins(Twin(false, 60 * SECOND), Twin(true, 0)), [DONE], HELD), least);
  }

  /** Two jobs of one account, created at the same time and planned for the same slot. One is claimed and finished, and
      the next `ensure_jobs` is given them in the other order: the job that is enabled then is stuck. */
  lemma SecondJobMayStick(least: int) returns (w: World, v: World)
    requires least <= 60
    ensures w == World(Twins(Twin(true, 0), Twin(false, 0)), [], []) && exists ws :: Leads(ws, w, v, least)
    ensures v.jobs == Twins(Twin(false, 60 * SECOND), Twin(true, 0)) && NeverGranted(v, 2, least)
  {
    w := World(Twins(Twin(true, 0), Twin(false, 0)), [], []);
    var claimed := World(w.jobs, [TAKEN], HELD);
    var finished := World(Twins(Twin(true, 60 * SECOND), Twin(false, 0)), [DONE], HELD);
    v := World(Twins(Twin(false, 60 * SECOND), Twin(true, 0)), [DONE], HELD);
    FirstIsClaimed(least);
    FirstIsFinished(least);
    TwinsAreSwapped(least);
    ThreeLinks(w, claimed, finished, v, least);
    StuckAfterwards(v, least);
  }

  lemma ThreeLinks(a: World, b: World, c: World, d: World, least: int)
    requires Linked(a, b, least) && Linked(b, c, least) && Linked(c, d, least)
    ensures Leads([a, b, c, d], a, d, least)
  {
    var ws := [a, b, c, d];
    assert forall n | 0 <= n < 3 :: Linked(ws[n], ws[n+1], least);
  }

  lemma StuckAfterwards(v: World, least: int)
    requires v == World(Twins(Twin(false, 60 * SECOND), Twin(true, 0)), [DONE], HELD)
    ensures NeverGranted(v, 2, least)
  {
    assert Tied(v.jobs, v.runs, HELD[0].claim);
    assert v.runs[0].account == 7 && v.runs[0].slot == 0 && v.runs[0].completedAt.Some?;
    assert CompletedAt(v.runs, 7, 0);
    StuckExactlyIf(v, 2, least);
  }
}
