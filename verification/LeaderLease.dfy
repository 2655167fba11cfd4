/** The scheduler's leader lease over histories with one clock that never runs backwards. */
module LeaderLease {
  import opened Prelude
  import opened SchedulerStore

  /** One successful `acquire_lease`, and when its holder gave it back. */
  datatype Grant = Grant(worker: Worker, at: int, until: int, released: Option<int>)
  {
    function End(): int { if released.Some? then Min(until, released.value) else until }

    predicate LeadsAt(t: int) { at <= t < End() }
  }

  datatype World = World(lease: LeaseRow, grants: seq<Grant>, clock: int)

  datatype Step = Acquire(worker: Worker, now: int) | Release(worker: Worker, now: int)

  function GivenBack(g: Grant, worker: Worker, now: int): Grant
  {
    if g.worker == worker && g.released.None? then g.(released := Some(now)) else g
  }

  function AllGivenBack(grants: seq<Grant>, worker: Worker, now: int): seq<Grant>
  {
    seq(|grants|, i requires 0 <= i < |grants| => GivenBack(grants[i], worker, now))
  }

  /** Every worker asks for its own configured number of seconds. */
  ghost predicate Next(w: World, s: Step, v: World, seconds: Worker -> int)
  {
    match s
    case Acquire(worker, now) =>
      && now >= w.clock && v.clock == now && v.lease == AcquireTx(w.lease, worker, now, seconds(worker))
      && v.grants == (if HeldByOther(w.lease, worker, now) then w.grants
                      else w.grants + [Grant(worker, now, now + seconds(worker) * SECOND, None)])
    case Release(worker, now) =>
      && now >= w.clock && v.clock == now && v.lease == ReleaseTx(w.lease, worker)
      && v.grants == (if w.lease.owner == Some(worker) then AllGivenBack(w.grants, worker, now) else w.grants)
  }

  /** A grant that runs is what the lease row says. */
  ghost predicate GrantOk(lease: LeaseRow, clock: int, g: Grant, seconds: Worker -> int)
  {
    && g.at <= clock && g.until == g.at + seconds(g.worker) * SECOND
    && (g.released.Some? ==> g.released.value <= clock)
    && (g.released.None? && g.until > clock ==>
          lease.owner == Some(g.worker) && lease.expiresAt.Some? && lease.expiresAt.value >= g.until)
  }

  predicate InTurn(grants: seq<Grant>)
  {
    forall i, j | 0 <= i < j < |grants| && grants[i].worker != grants[j].worker :: grants[i].End() <= grants[j].at
  }

  /** The row is the last grant of its owner, which has not been given back. */
  ghost predicate RowOk(lease: LeaseRow, clock: int, grants: seq<Grant>)
  {
    lease.owner.Some? ==>
      && lease.expiresAt.Some?
      && exists i | 0 <= i < |grants| :: Backs(grants[i], lease, clock)
  }

  predicate Backs(g: Grant, lease: LeaseRow, clock: int)
  {
    lease.owner == Some(g.worker) && lease.expiresAt == Some(g.until) && g.released.None? && g.at <= clock
  }

  ghost predicate Inv(w: World, seconds: Worker -> int)
  {
    && InTurn(w.grants) && (forall i | 0 <= i < |w.grants| :: GrantOk(w.lease, w.clock, w.grants[i], seconds))
    && RowOk(w.lease, w.clock, w.grants)
  }

  lemma RowStaysOk(w: World, s: Step, v: World, seconds: Worker -> int)
    requires Inv(w, seconds) && Next(w, s, v, seconds)
    ensures RowOk(v.lease, v.clock, v.grants)
  {
    match s
    case Acquire(worker, now) =>
      if HeldByOther(w.lease, worker, now) {
        var i :| 0 <= i < |w.grants| && Backs(w.grants[i], w.lease, w.clock);
        assert Backs(v.grants[i], v.lease, v.clock);
      } else {
        assert Backs(v.grants[|w.grants|], v.lease, v.clock);
      }
    case Release(worker, now) =>
      if w.lease.owner.Some? && w.lease.owner != Some(worker) {
        var i :| 0 <= i < |w.grants| && Backs(w.grants[i], w.lease, w.clock);
        assert Backs(v.grants[i], v.lease, v.clock);
      }
  }

  lemma StepKeeps(w: World, s: Step, v: World, seconds: Worker -> int)
    requires Inv(w, seconds) && Next(w, s, v, seconds)
    ensures Inv(v, seconds)
  {
    RowStaysOk(w, s, v, seconds);
    match s
    case Acquire(worker, now) =>
      forall i | 0 <= i < |w.grants|
        ensures GrantOk(v.lease, v.clock, w.grants[i], seconds)
        ensures !HeldByOther(w.lease, worker, now) && w.grants[i].worker != worker ==> w.grants[i].End() <= now
      {
        assert GrantOk(w.lease, w.clock, w.grants[i], seconds);
      }
    case Release(worker, now) =>
      forall i | 0 <= i < |w.grants|
        ensures GrantOk(v.lease, v.clock, v.grants[i], seconds)
        ensures v.grants[i].End() <= w.grants[i].End() && v.grants[i].worker == w.grants[i].worker
                && v.grants[i].at == w.grants[i].at
      {
        assert GrantOk(w.lease, w.clock, w.grants[i], seconds);
      }
  }

  ghost predicate Linked(w: World, v: World, seconds: Worker -> int) { exists s :: Next(w, s, v, seconds) }

  ghost predicate History(ws: seq<World>, seconds: Worker -> int)
  {
    && |ws| > 0 && ws[0].grants == [] && ws[0].lease == LeaseRow(None, None)
    && forall n | 0 <= n < |ws| - 1 :: Linked(ws[n], ws[n+1], seconds)
  }

  lemma {:induction false} Holds(ws: seq<World>, seconds: Worker -> int, n: nat)
    requires History(ws, seconds) && n < |ws|
    ensures Inv(ws[n], seconds)
  {
    if n > 0 {
      Holds(ws, seconds, n - 1);
      assert Linked(ws[n-1], ws[n-1+1], seconds);
      var s :| Next(ws[n-1], s, ws[n], seconds);
      StepKeeps(ws[n-1], s, ws[n], seconds);
    }
  }

  /** At no moment do two workers lead, whatever they release and whenever. */
  lemma OneLeader(ws: seq<World>, seconds: Worker -> int, n: nat, g: Grant, h: Grant, t: int)
    requires History(ws, seconds) && n < |ws| && g in ws[n].grants && h in ws[n].grants
    requires g.LeadsAt(t) && h.LeadsAt(t)
    ensures g.worker == h.worker
  {
    Holds(ws, seconds, n);
    var i :| 0 <= i < |ws[n].grants| && ws[n].grants[i] == g;
    var j :| 0 <= j < |ws[n].grants| && ws[n].grants[j] == h;
    assert i < j && g.worker != h.worker ==> g.End() <= h.at;
    assert j < i && g.worker != h.worker ==> h.End() <= g.at;
  }

  /** Nobody else leads at the moment. */
  ghost predicate Free(w: World, worker: Worker, now: int)
  {
    forall i | 0 <= i < |w.grants| && w.grants[i].worker != worker :: !w.grants[i].LeadsAt(now)
  }

  /** In every history a worker that asks is granted the lease if and only if no other worker leads: a leader that dies
      is replaced as soon as its time is up, and one that is alive never is. */
  lemma GrantedExactlyIfFree(ws: seq<World>, seconds: Worker -> int, n: nat, worker: Worker, now: int)
    requires History(ws, seconds) && n + 1 < |ws| && Next(ws[n], Acquire(worker, now), ws[n+1], seconds)
    ensures ws[n+1].grants == ws[n].grants + [Grant(worker, now, now + seconds(worker) * SECOND, None)]
            <==> Free(ws[n], worker, now)
    ensures !Free(ws[n], worker, now) ==> ws[n+1].grants == ws[n].grants && ws[n+1].lease == ws[n].lease
  {
    Holds(ws, seconds, n);
    var w := ws[n];
    assert |ws[n+1].grants| == |w.grants| <==> HeldByOther(w.lease, worker, now);
    if HeldByOther(w.lease, worker, now) {
      var i :| 0 <= i < |w.grants| && Backs(w.grants[i], w.lease, w.clock);
      assert w.grants[i].LeadsAt(now);
    }
    if !Free(w, worker, now) {
      var i :| 0 <= i < |w.grants| && w.grants[i].worker != worker && w.grants[i].LeadsAt(now);
      assert GrantOk(w.lease, w.clock, w.grants[i], seconds);
    }
  }

  /** A release ends no other worker's grant, however late it comes: that worker still owns the row afterwards. */
  lemma LateReleaseIsHarmless(ws: seq<World>, seconds: Worker -> int, n: nat, i: nat, other: Worker, now: int)
    requires History(ws, seconds) && n + 1 < |ws| && Next(ws[n], Release(other, now), ws[n+1], seconds)
    requires i < |ws[n].grants| && ws[n].grants[i].worker != other && ws[n].grants[i].End() > now
    ensures ws[n+1].grants[i] == ws[n].grants[i]
    ensures ws[n+1].lease == ws[n].lease && ws[n+1].lease.owner == Some(ws[n].grants[i].worker)
  {
    Holds(ws, seconds, n);
    assert GrantOk(ws[n].lease, ws[n].clock, ws[n].grants[i], seconds);
  }
}
