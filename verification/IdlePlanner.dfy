/** `IdlePlanner` (application/idle.py): the pure rules shared by preview and execution. */
module IdlePlanner {
  import opened Prelude
  import opened CanonicalJson
  import opened CanonicalJsonProofs
  import opened Projection
  import opened ProjectionProofs

  /** One answer of `idle_summary`: whole accumulated seconds and the ceiling, if the game reports one. */
  datatype Idle = Idle(seconds: nat, capacity: Option<nat>)

  /** The part of a versioned policy that the idle rules read. */
  datatype Policy = Policy(version: nat, thresholdMinutes: nat)

  /** What a plan's fingerprint determines: the ceiling and the decision. FingerprintTells shows that comparing
      these pairs is comparing the bytes that the service hashes. */
  datatype Fingerprint = Fingerprint(capacity: Option<nat>, due: bool)

  function Threshold(policy: Policy, capacity: Option<nat>): nat
  {
    var configured := policy.thresholdMinutes * 60;
    match capacity
    case None => configured
    case Some(c) => Min(configured, c)
  }

  /** `decision(...) == "collect"`; the only other decision is "wait". */
  predicate Collectible(idle: Idle, policy: Policy)
  {
    idle.seconds >= Threshold(policy, idle.capacity)
  }

  /** What "wait" promises: less than the configured minutes, and less than the ceiling if there is one. */
  predicate Waits(idle: Idle, policy: Policy)
  {
    && idle.seconds < policy.thresholdMinutes * 60
    && (idle.capacity.Some? ==> idle.seconds < idle.capacity.value)
  }

  lemma WaitsIsNotCollecting(idle: Idle, policy: Policy)
    ensures Collectible(idle, policy) <==> !Waits(idle, policy)
  {}

  function IdleProjection(capacity: Option<nat>, eligible: bool): Value
  {
    Dict([Entry("capacitySeconds", match capacity case None => Null case Some(c) => Int(c)),
          Entry("eligible", Bool(eligible))])
  }

  function FingerprintOf(idle: Idle, policy: Policy): Fingerprint
  {
    Fingerprint(idle.capacity, Collectible(idle, policy))
  }

  /** The bytes that `fingerprint` hashes. */
  function FingerprintBytes(idle: Idle, policy: Policy): Option<seq<Byte>>
  {
    FingerprintText("idle", IdleProjection(idle.capacity, Collectible(idle, policy)), map[])
  }

  lemma IdleProjectionValid(capacity: Option<nat>, eligible: bool)
    ensures var v := IdleProjection(capacity, eligible);
            WellFormed(v) && Projectable(v, map[], "") && DistinctKeys(v, map[], "")
  {
    assert "capacitySeconds"[0] != "eligible"[0];
  }

  lemma OneOfTwo(x: Entry, ys: seq<Entry>, j: nat)
    requires |ys| == 2 && j < 2 && ys[j].key == x.key && ys[1-j].key != x.key
    ensures EntryIn(x, ys, map[], "") <==> Alike(x.value, ys[j].value, map[], ChildPath("", x.key))
  {
    assert forall k | 0 <= k < 2 && ys[k].key == x.key :: k == j;
  }

  lemma IdleProjectionsAlike(c: Option<nat>, d: bool, e: Option<nat>, f: bool)
    ensures Alike(IdleProjection(c, d), IdleProjection(e, f), map[], "") <==> c == e && d == f
  {
    var xs, ys := IdleProjection(c, d).entries, IdleProjection(e, f).entries;
    assert "capacitySeconds"[0] != "eligible"[0];
    OneOfTwo(xs[0], ys, 0);
    OneOfTwo(xs[1], ys, 1);
  }

  /** The hashed bytes record the ceiling and the decision, and nothing else about the idle state or the policy. */
  lemma FingerprintTells(i: Idle, p: Policy, j: Idle, q: Policy)
    ensures FingerprintBytes(i, p).Some?
    ensures FingerprintBytes(i, p) == FingerprintBytes(j, q) <==> FingerprintOf(i, p) == FingerprintOf(j, q)
  {
    IdleProjectionValid(i.capacity, Collectible(i, p));
    IdleProjectionValid(j.capacity, Collectible(j, q));
    IdleProjectionsAlike(i.capacity, Collectible(i, p), j.capacity, Collectible(j, q));
    FingerprintIdentity("idle", IdleProjection(i.capacity, Collectible(i, p)),
                        "idle", IdleProjection(j.capacity, Collectible(j, q)), map[]);
  }
}
