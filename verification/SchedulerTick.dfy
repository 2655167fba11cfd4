/** `IdlePreviewScheduler.tick` and `_dispatch` (scheduler.py): one worker's turn, as steps of the history. */
module SchedulerTick {
  import opened Prelude
  import opened SchedulerStore
  import opened SchedulerJobs
  import opened SchedulerRuns
  import opened SchedulerTheorems

  /** How a claimed run ends: its result is stored, or storing it fails and the run is left to its lease. */
  datatype Ending = Recorded(completedAt: int, result: RunResult) | NotRecorded

  /** What raises inside a tick that has the lease: listing the accounts, `ensure_jobs` or `claim_due`. */
  datatype Trouble = Nowhere | AtAccounts | AtJobs | AtClaims

  // ---- the database's answers ----

  /** Some answer to a query ordered by account and creation time. */
  method Answer(jobs: map<JobId, Job>, selected: set<JobId>) returns (rows: seq<JobId>)
    requires selected <= jobs.Keys
    ensures forall j :: j in rows <==> j in selected
    ensures (forall i | 0 <= i < |rows| :: rows[i] in jobs) && InOrder(jobs, rows)
  {
    rows := [];
    var rest := selected;
    while rest != {}
      invariant rest <= selected && forall j :: j in selected <==> j in rest || j in rows
      invariant forall i | 0 <= i < |rows| :: rows[i] in jobs && rows[i] !in rest && rows[i] in selected
      invariant forall i, k | 0 <= i < |rows| && k in rest :: NotAfter(jobs, rows[i], k)
      invariant InOrder(jobs, rows)
      decreases |rest|
    {
      ghost var first := SomeFirst(jobs, rest);
      var j :| j in rest && forall k | k in rest :: NotAfter(jobs, j, k);
      rows := rows + [j];
      rest := rest - {j};
    }
  }

  lemma AnswersDue(jobs: map<JobId, Job>, ids: set<AccountId>, now: int, locked: set<JobId>, due: seq<JobId>)
    requires forall j :: j in due <==> j in jobs && j !in locked && Due(jobs[j], ids, now)
    requires (forall i | 0 <= i < |due| :: due[i] in jobs) && InOrder(jobs, due)
    ensures DueByAccount(jobs, ids, now, locked, due)
  {
    assert forall i | 0 <= i < |due| :: due[i] in due;
  }

  // ---- what a turn does to the tables ----

  function DispatchAll(runs: seq<JobRun>, jobs: map<JobId, Job>, claimed: seq<ClaimedRun>,
                       endings: ClaimedRun -> Ending, next: int)
    : (seq<JobRun>, map<JobId, Job>)
  {
    if claimed == [] then (runs, jobs)
    else
      var n := |claimed| - 1;
      var (table, plan) := DispatchAll(runs, jobs, claimed[..n], endings, next);
      DispatchOne(table, plan, claimed[n], endings(claimed[n]), next)
  }

  function DispatchOne(runs: seq<JobRun>, jobs: map<JobId, Job>, claim: ClaimedRun, ending: Ending, next: int)
    : (seq<JobRun>, map<JobId, Job>)
  {
    match ending
    case NotRecorded => (runs, jobs)
    case Recorded(completedAt, result) =>
      (FinishRuns(runs, claim, completedAt, result), FinishJobs(runs, jobs, claim, next))
  }

  /** A turn from inside: the answers to its two queries, the jobs and runs in between, and the claims. */
  datatype Turn = Turn(rows: seq<JobId>, added: map<AccountId, JobId>, jobs: map<JobId, Job>, due: seq<JobId>,
                       claimed: seq<ClaimedRun>, runs: seq<JobRun>)

  /** A turn that held the lease took the tables from `jobs0`, `runs0` to `jobs1`, `runs1`. */
  ghost predicate Taken(jobs0: map<JobId, Job>, runs0: seq<JobRun>, accounts: seq<SchedulerAccount>, now: int,
                        interval: int,
                        worker: Worker, lease: int, locked: set<JobId>, endings: ClaimedRun -> Ending, turn: Turn,
                        jobs1: map<JobId, Job>, runs1: seq<JobRun>)
  {
    && Ensured(jobs0, accounts, now, interval, turn.rows, turn.jobs, turn.added)
    && DueByAccount(turn.jobs, Eligible(accounts), now, locked, turn.due) && AllDue(turn.jobs, turn.due)
    && (turn.claimed, turn.runs) == ClaimAll(runs0, turn.jobs, turn.due, now, worker, lease)
    && (runs1, jobs1) == DispatchAll(turn.runs, turn.jobs, turn.claimed, endings, now + interval * SECOND)
  }

  /** Another worker's lease is running. */
  predicate LedElsewhere(lease: LeaseRow, worker: Worker, now: int)
  {
    lease.owner.Some? && lease.owner != Some(worker) && lease.expiresAt.Some? && now < lease.expiresAt.value
  }

  class IdlePreviewScheduler {
    const store: PostgresIdlePreviewStore
    const worker: Worker
    const interval: int
    const lease: int   // of the leader and of each run

    constructor (store: PostgresIdlePreviewStore, worker: Worker, interval: int, lease: int)
      requires interval > 0 && lease > 0
      ensures this.store == store && this.worker == worker && this.interval == interval && this.lease == lease
    {
      this.store, this.worker, this.interval, this.lease := store, worker, interval, lease;
    }

    method Dispatch(claim: ClaimedRun, ending: Ending, now: int)
      modifies store`runs, store`jobs
      ensures (store.runs, store.jobs)
              == DispatchOne(old(store.runs), old(store.jobs), claim, ending, now + interval * SECOND)
      ensures ending.NotRecorded? ==> store.runs == old(store.runs) && store.jobs == old(store.jobs)
      ensures ending.Recorded? && MayFinish(old(store.runs), claim.runId) ==>
                && store.runs[claim.runId].completedAt == Some(ending.completedAt)
                && store.runs[claim.runId].result == Some(ending.result)
                && (claim.jobId in store.jobs ==> store.jobs[claim.jobId].nextRunAt == Some(now + interval * SECOND))
    {
      if ending.Recorded? {
        store.FinishRun(claim, ending.completedAt, now + interval * SECOND, ending.result);
      }
    }

    method Provision(now: int, accounts: seq<SchedulerAccount>)
      returns (ghost rows: seq<JobId>, ghost added: map<AccountId, JobId>)
      requires store.Valid()
      modifies store`jobs, store`issued
      ensures store.Valid()
      ensures Ensured(old(store.jobs), accounts, now, interval, rows, store.jobs, added)
    {
      var answer := Answer(store.jobs, set j | j in store.jobs && Selected(store.jobs, Known(accounts), j));
      AnswersByAge(store.jobs, Known(accounts), answer);
      rows := answer;
      added := store.EnsureJobs(accounts, now, interval, answer);
    }

    method ClaimReady(now: int, accounts: seq<SchedulerAccount>, locked: set<JobId>)
      returns (claimed: seq<ClaimedRun>, ghost due: seq<JobId>)
      modifies store`runs
      ensures DueByAccount(store.jobs, Eligible(accounts), now, locked, due) && AllDue(store.jobs, due)
      ensures (claimed, store.runs) == ClaimAll(old(store.runs), store.jobs, due, now, worker, lease)
    {
      var answer :=
        Answer(store.jobs, set j | j in store.jobs && j !in locked && Due(store.jobs[j], Eligible(accounts), now));
      AnswersDue(store.jobs, Eligible(accounts), now, locked, answer);
      due := answer;
      claimed := store.ClaimDue(now, worker, lease, Eligible(accounts), locked, answer);
    }

    /** One turn; `turn` says what the database answered and what was claimed. Wherever it raises, the lease is given
        back, and the transaction that raised has changed nothing. */
    method Tick(now: int, accounts: seq<SchedulerAccount>, locked: set<JobId>, endings: ClaimedRun -> Ending,
                trouble: Trouble)
      returns (count: nat, raised: bool, ghost turn: Turn)
      requires store.Valid()
      modifies store
      ensures store.Valid()
      ensures LedElsewhere(old(store.lease), worker, now) ==>
                && count == 0 && !raised
                && store.lease == old(store.lease) && store.jobs == old(store.jobs) && store.runs == old(store.runs)
      ensures !LedElsewhere(old(store.lease), worker, now) ==>
                && store.lease == LeaseRow(None, None) && raised == !trouble.Nowhere?
                && (raised ==> count == 0 && store.runs == old(store.runs))
                && (trouble.AtAccounts? || trouble.AtJobs? ==> store.jobs == old(store.jobs))
                && (trouble.AtClaims? ==>
                      Ensured(old(store.jobs), accounts, now, interval, turn.rows, store.jobs, turn.added))
                && (trouble.Nowhere? ==>
                      && count == |turn.claimed|
                      && Taken(old(store.jobs), old(store.runs), accounts, now, interval, worker, lease, locked,
                               endings, turn, store.jobs, store.runs))
    {
      count, raised, turn := 0, false, Turn([], map[], store.jobs, [], [], store.runs);
      var acquired := store.AcquireLease(worker, now, lease);
      if !acquired { return; }
      if trouble.AtAccounts? || trouble.AtJobs? {
        store.ReleaseLease(worker);
        raised := true;
        return;
      }
      ghost var rows, added := Provision(now, accounts);
      ghost var jobs := store.jobs;
      if trouble.AtClaims? {
        store.ReleaseLease(worker);
        raised := true;
        turn := Turn(rows, added, jobs, [], [], store.runs);
        return;
      }
      var claimed;
      ghost var due;
      claimed, due := ClaimReady(now, accounts, locked);
      ghost var runs := store.runs;
      Finish(now, claimed, endings);
      store.ReleaseLease(worker);
      count := |claimed|;
      turn := Turn(rows, added, jobs, due, claimed, runs);
    }

    /** The claimed runs are dispatched and finished. */
    method Finish(now: int, claimed: seq<ClaimedRun>, endings: ClaimedRun -> Ending)
      requires store.Valid()
      modifies store`runs, store`jobs
      ensures store.Valid()
      ensures (store.runs, store.jobs)
              == DispatchAll(old(store.runs), old(store.jobs), claimed, endings, now + interval * SECOND)
    {
      ghost var table, plan := store.runs, store.jobs;
      for n := 0 to |claimed|
        invariant (store.runs, store.jobs) == DispatchAll(table, plan, claimed[..n], endings, now + interval * SECOND)
        invariant store.Valid()
      {
        assert claimed[..n+1][..n] == claimed[..n];
        Dispatch(claimed[n], endings(claimed[n]), now);
      }
      assert claimed[..|claimed|] == claimed;
    }
  }

  // ---- a turn is a piece of history ----

  /** The finishes of a turn, as steps: the claims handed out last are finished in order, unless their ending is
      lost. */
  lemma {:induction false} DispatchIsSteps(w: World, base: nat, claimed: seq<ClaimedRun>, endings: ClaimedRun -> Ending,
                                           now: int, interval: int, least: int)
    requires Inv(w, least) && least >= 1 && interval >= least && base + |claimed| <= |w.issued|
    requires forall k | 0 <= k < |claimed| :: w.issued[base + k] == Issued(claimed[k], now)
    ensures var (runs, jobs) := DispatchAll(w.runs, w.jobs, claimed, endings, now + interval * SECOND);
            Inv(w.(runs := runs, jobs := jobs), least) && Grown(w.runs, runs)
  {
    if claimed == [] {
      assert forall i | 0 <= i < |w.runs| :: RunGrown(w.runs[i], w.runs[i]);
    } else {
      var n := |claimed| - 1;
      var next := now + interval * SECOND;
      DispatchIsSteps(w, base, claimed[..n], endings, now, interval, least);
      var (table, plan) := DispatchAll(w.runs, w.jobs, claimed[..n], endings, next);
      var v := w.(runs := table, jobs := plan);
      match endings(claimed[n])
      case NotRecorded =>
      case Recorded(completedAt, result) =>
        FinishIsStep(v, base + n, claimed[n], now, completedAt, interval, result, least);
        GrownTransitively(w.runs, table, FinishRuns(table, claimed[n], completedAt, result));
    }
  }

  lemma FinishIsStep(w: World, held: nat, claim: ClaimedRun, now: int, completedAt: int, interval: int,
                     result: RunResult, least: int)
    requires Inv(w, least) && least >= 1 && interval >= least
    requires held < |w.issued| && w.issued[held] == Issued(claim, now)
    ensures var u := w.(runs := FinishRuns(w.runs, claim, completedAt, result),
                        jobs := FinishJobs(w.runs, w.jobs, claim, now + interval * SECOND));
            Inv(u, least) && Grown(w.runs, u.runs)
  {
    var u := w.(runs := FinishRuns(w.runs, claim, completedAt, result),
                jobs := FinishJobs(w.runs, w.jobs, claim, now + interval * SECOND));
    FinishKeeps(w, held, completedAt, interval, result, u, least);
  }

  predicate Different(claimed: seq<ClaimedRun>)
  {
    forall i, k | 0 <= i < k < |claimed| :: claimed[i].runId != claimed[k].runId && claimed[i].jobId != claimed[k].jobId
  }

  predicate Open(runs: seq<JobRun>, jobs: map<JobId, Job>, c: ClaimedRun)
  {
    MayFinish(runs, c.runId) && c.jobId in jobs
  }

  /** Claims of one tick are for different jobs and different runs. */
  lemma {:induction false} ClaimsDiffer(jobs: map<JobId, Job>, runs: seq<JobRun>, least: int, due: seq<JobId>, now: int,
                                        worker: Worker, lease: int)
    requires OneJobEach(jobs) && RunsOk(jobs, runs, least) && Apart(runs, least) && least >= 1 && lease > 0
    requires DueList(jobs, due, now) && AllDue(jobs, due)
    ensures Different(ClaimAll(runs, jobs, due, now, worker, lease).0)
  {
    if due != [] {
      var n := |due| - 1;
      ClaimsDiffer(jobs, runs, least, due[..n], now, worker, lease);
      AllKeep(jobs, runs, least, due[..n], now, worker, lease);
      NewAccount(jobs, due, now);
      var (claimed, rest) := ClaimAll(runs, jobs, due[..n], now, worker, lease);
      SlotKeeps(jobs, rest, least, due[n], now, worker, lease);
      var (claim, table) :=
        SlotTx(rest, due[n], jobs[due[n]].account, jobs[due[n]].nextRunAt.value, now, worker, lease);
      if claim.Some? {
        forall i | 0 <= i < |claimed| ensures claimed[i].runId != claim.value.runId && claimed[i].jobId != due[n] {
          assert OfDue(jobs, due[..n], claimed[i].account);
          assert Took(runs, rest, claimed[i], now, worker, lease);
        }
      }
    }
  }

  lemma ClaimsAreOpen(jobs: map<JobId, Job>, runs: seq<JobRun>, least: int, due: seq<JobId>, now: int, worker: Worker,
                      lease: int)
    requires OneJobEach(jobs) && RunsOk(jobs, runs, least) && Apart(runs, least) && least >= 1 && lease > 0
    requires DueList(jobs, due, now) && AllDue(jobs, due)
    ensures var (claimed, table) := ClaimAll(runs, jobs, due, now, worker, lease);
            Different(claimed) && forall i | 0 <= i < |claimed| :: Open(table, jobs, claimed[i])
  {
    AllKeep(jobs, runs, least, due, now, worker, lease);
    ClaimsDiffer(jobs, runs, least, due, now, worker, lease);
    var (claimed, table) := ClaimAll(runs, jobs, due, now, worker, lease);
    forall i | 0 <= i < |claimed| ensures Open(table, jobs, claimed[i]) {
      assert Took(runs, table, claimed[i], now, worker, lease);
    }
  }

  /** Finishing different claims in order completes each of them. */
  lemma {:induction false} DispatchCompletes(runs: seq<JobRun>, jobs: map<JobId, Job>, claimed: seq<ClaimedRun>,
                                             endings: ClaimedRun -> Ending, next: int, k: nat)
    requires Different(claimed) && k < |claimed| && endings(claimed[k]).Recorded?
    requires forall i | 0 <= i < |claimed| :: Open(runs, jobs, claimed[i])
    ensures var (table, plan) := DispatchAll(runs, jobs, claimed, endings, next);
            var c := claimed[k];
            && c.runId < |table| && table[c.runId].result == Some(endings(claimed[k]).result)
            && table[c.runId].completedAt == Some(endings(claimed[k]).completedAt)
            && c.jobId in plan && plan[c.jobId].nextRunAt == Some(next)
  {
    var n := |claimed| - 1;
    if k == n {
      StillOpen(runs, jobs, claimed[..n], endings, next, claimed[n]);
    } else {
      DispatchCompletes(runs, jobs, claimed[..n], endings, next, k);
    }
  }

  lemma {:induction false} StillOpen(runs: seq<JobRun>, jobs: map<JobId, Job>, claimed: seq<ClaimedRun>,
                                     endings: ClaimedRun -> Ending, next: int, c: ClaimedRun)
    requires Open(runs, jobs, c) && forall i | 0 <= i < |claimed| :: claimed[i].runId != c.runId
    ensures var (table, plan) := DispatchAll(runs, jobs, claimed, endings, next); Open(table, plan, c)
  {
    if claimed != [] { StillOpen(runs, jobs, claimed[..|claimed|-1], endings, next, c); }
  }

  /** A whole turn keeps the invariant of the history, so turns of any workers may follow and overlap one another. */
  lemma TurnKeeps(w: World, accounts: seq<SchedulerAccount>, now: int, interval: int, worker: Worker, lease: int,
                  locked: set<JobId>, endings: ClaimedRun -> Ending, turn: Turn, jobs: map<JobId, Job>,
                  runs: seq<JobRun>, least: int)
    requires Inv(w, least) && least >= 1 && interval >= least && lease > 0
    requires Taken(w.jobs, w.runs, accounts, now, interval, worker, lease, locked, endings, turn, jobs, runs)
    ensures Inv(World(jobs, runs, w.issued + Handed(turn.claimed, now)), least) && Grown(w.runs, runs)
  {
    ClaimedKeeps(w, accounts, now, interval, worker, lease, locked, endings, turn, jobs, runs, least);
    DispatchIsSteps(Claimed(w, turn, now), |w.issued|, turn.claimed, endings, now, interval, least);
    GrownTransitively(w.runs, turn.runs, runs);
  }

  /** The world in the middle of a turn, when its claims have been handed out. */
  function Claimed(w: World, turn: Turn, now: int): World
  {
    World(turn.jobs, turn.runs, w.issued + Handed(turn.claimed, now))
  }

  lemma ClaimedKeeps(w: World, accounts: seq<SchedulerAccount>, now: int, interval: int, worker: Worker, lease: int,
                     locked: set<JobId>, endings: ClaimedRun -> Ending, turn: Turn, jobs: map<JobId, Job>,
                     runs: seq<JobRun>, least: int)
    requires Inv(w, least) && least >= 1 && lease > 0
    requires Taken(w.jobs, w.runs, accounts, now, interval, worker, lease, locked, endings, turn, jobs, runs)
    ensures Inv(Claimed(w, turn, now), least) && Grown(w.runs, turn.runs)
  {
    EnsureKeeps(w, accounts, now, interval, turn.rows, turn.added, turn.jobs, least);
    ClaimKeeps(w.(jobs := turn.jobs), now, worker, lease, Eligible(accounts), locked, turn.due, Claimed(w, turn, now),
               least);
  }

  /** Every claim of the turn whose ending was recorded is completed, and its job is planned one interval later. */
  lemma TurnCompletes(w: World, accounts: seq<SchedulerAccount>, now: int, interval: int, worker: Worker, lease: int,
                      locked: set<JobId>, endings: ClaimedRun -> Ending, turn: Turn, jobs: map<JobId, Job>,
                      runs: seq<JobRun>, least: int, k: nat)
    requires Inv(w, least) && least >= 1 && interval >= least && lease > 0
    requires Taken(w.jobs, w.runs, accounts, now, interval, worker, lease, locked, endings, turn, jobs, runs)
    requires k < |turn.claimed| && endings(turn.claimed[k]).Recorded?
    ensures var c := turn.claimed[k];
            && c.runId < |runs| && runs[c.runId].result == Some(endings(turn.claimed[k]).result)
            && runs[c.runId].completedAt == Some(endings(turn.claimed[k]).completedAt)
            && c.jobId in jobs && jobs[c.jobId].nextRunAt == Some(now + interval * SECOND)
  {
    EnsureKeeps(w, accounts, now, interval, turn.rows, turn.added, turn.jobs, least);
    DueIsDueList(turn.jobs, Eligible(accounts), now, locked, turn.due);
    ClaimsAreOpen(turn.jobs, w.runs, least, turn.due, now, worker, lease);
    DispatchCompletes(turn.runs, turn.jobs, turn.claimed, endings, now + interval * SECOND, k);
  }

  // ---- the order in which concurrent dispatches finish does not matter ----

  lemma FinishesCommute(runs: seq<JobRun>, jobs: map<JobId, Job>, c: ClaimedRun, d: ClaimedRun, e: Ending, f: Ending,
                        next: int)
    requires c.runId != d.runId && c.jobId != d.jobId
    ensures var (r1, j1) := DispatchOne(runs, jobs, c, e, next);
            var (r2, j2) := DispatchOne(runs, jobs, d, f, next);
            DispatchOne(r1, j1, d, f, next) == DispatchOne(r2, j2, c, e, next)
  {
    var (r1, j1) := DispatchOne(runs, jobs, c, e, next);
    var (r2, j2) := DispatchOne(runs, jobs, d, f, next);
    var (r3, j3) := DispatchOne(r1, j1, d, f, next);
    var (r4, j4) := DispatchOne(r2, j2, c, e, next);
    assert r3 == r4;
    assert j3 == j4;
  }

  function Without(claimed: seq<ClaimedRun>, k: nat): seq<ClaimedRun>
    requires k < |claimed|
  {
    claimed[..k] + claimed[k+1..]
  }

  /** Any of the claims may as well come last. */
  lemma {:induction false} AnyMayBeLast(runs: seq<JobRun>, jobs: map<JobId, Job>, claimed: seq<ClaimedRun>,
                                        endings: ClaimedRun -> Ending, next: int, k: nat)
    requires Different(claimed) && k < |claimed|
    ensures var (table, plan) := DispatchAll(runs, jobs, Without(claimed, k), endings, next);
            DispatchAll(runs, jobs, claimed, endings, next)
              == DispatchOne(table, plan, claimed[k], endings(claimed[k]), next)
  {
    var n := |claimed| - 1;
    if k == n {
      assert Without(claimed, k) == claimed[..n];
    } else {
      AnyMayBeLast(runs, jobs, claimed[..n], endings, next, k);
      assert Without(claimed, k) == Without(claimed[..n], k) + [claimed[n]];
      assert (Without(claimed[..n], k) + [claimed[n]])[..n-1] == Without(claimed[..n], k);
      var (table, plan) := DispatchAll(runs, jobs, Without(claimed[..n], k), endings, next);
      FinishesCommute(table, plan, claimed[k], claimed[n], endings(claimed[k]), endings(claimed[n]), next);
    }
  }

  lemma FindLast(claimed: seq<ClaimedRun>, others: seq<ClaimedRun>) returns (k: nat)
    requires |others| > 0 && Different(claimed) && multiset(claimed) == multiset(others)
    ensures k < |claimed| && claimed[k] == others[|others|-1]
    ensures multiset(Without(claimed, k)) == multiset(others[..|others|-1]) && Different(Without(claimed, k))
  {
    var n := |others| - 1;
    assert others[n] in multiset(others);
    k :| 0 <= k < |claimed| && claimed[k] == others[n];
    OneLess(claimed, k);
    OneLess(others, n);
    assert Without(others, n) == others[..n];
    StillDifferent(claimed, k);
  }

  lemma OneLess(claimed: seq<ClaimedRun>, k: nat)
    requires k < |claimed|
    ensures multiset(Without(claimed, k)) == multiset(claimed) - multiset{claimed[k]}
  {
    assert claimed == claimed[..k] + [claimed[k]] + claimed[k+1..];
  }

  lemma StillDifferent(claimed: seq<ClaimedRun>, k: nat)
    requires k < |claimed| && Different(claimed)
    ensures Different(Without(claimed, k))
  {
    var rest := Without(claimed, k);
    assert forall i | 0 <= i < |rest| :: rest[i] == claimed[if i < k then i else i + 1];
  }

  /** In whatever order the claims of a tick are finished, the tables end up the same. */
  lemma {:induction false} DispatchOrderDoesNotMatter(runs: seq<JobRun>, jobs: map<JobId, Job>,
                                                      claimed: seq<ClaimedRun>,
                                                      others: seq<ClaimedRun>, endings: ClaimedRun -> Ending, next: int)
    requires Different(claimed) && multiset(claimed) == multiset(others)
    ensures DispatchAll(runs, jobs, claimed, endings, next) == DispatchAll(runs, jobs, others, endings, next)
  {
    assert |multiset(claimed)| == |claimed| && |multiset(others)| == |others|;
    if claimed != [] {
      var n := |others| - 1;
      var k := FindLast(claimed, others);
      AnyMayBeLast(runs, jobs, claimed, endings, next, k);
      DispatchOrderDoesNotMatter(runs, jobs, Without(claimed, k), others[..n], endings, next);
    }
  }
}
