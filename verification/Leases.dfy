/**
Session leases of one agent: owner keys with expiry, the sorted set of deadlines, and the
leases that brokers hold.  One clock in milliseconds; Redis reads a key while the clock is
at most its expiry, a broker trusts a lease only while the clock is below its bound.  A
broker fixes that bound before it sends a script, so `started` is at most the clock.
`held` and `released` record what brokers were given and gave back.
 */
module Leases {
  import opened Options

  datatype Key = Key(owner: string, expires: nat)

  datatype Lease = Lease(instance: string, owner: string, expiresAt: nat)

  datatype World = World(
    now: nat,
    owners: map<string, Key>,
    index: map<string, nat>,
    held: set<Lease>,
    released: set<string>,
    used: set<string>)

  const EMPTY := World(0, map[], map[], {}, {}, {})

  function Owner(w: World, instance: string): Option<string> {
    if instance in w.owners && w.now <= w.owners[instance].expires then Some(w.owners[instance].owner) else None
  }

  predicate Live(w: World, lease: Lease) { w.now < lease.expiresAt }

  /** `ZREMRANGEBYSCORE -inf now`, then `ZADD deadline instance`. */
  function Reindex(index: map<string, nat>, now: nat, instance: string, deadline: nat): map<string, nat> {
    (map i | i in index && index[i] > now :: index[i])[instance := deadline]
  }

  function AcquireScript(w: World, instance: string, owner: string, ttl: nat): (World, bool) {
    if Owner(w, instance).Some? then (w, false)
    else (w.(owners := w.owners[instance := Key(owner, w.now + ttl)],
             index := Reindex(w.index, w.now, instance, w.now + ttl)), true)
  }

  function RenewScript(w: World, instance: string, owner: string, ttl: nat): (World, bool) {
    if Owner(w, instance) != Some(owner) then (w, false)
    else (w.(owners := w.owners[instance := Key(owner, w.now + ttl)],
             index := Reindex(w.index, w.now, instance, w.now + ttl)), true)
  }

  function ReleaseScript(w: World, instance: string, owner: string): World {
    if Owner(w, instance) != Some(owner) then w
    else w.(owners := w.owners - {instance}, index := w.index - {instance})
  }

  /** `ZCOUNT (now +inf` is positive. */
  predicate Active(w: World) { exists i | i in w.index :: w.index[i] > w.now }

  datatype Step =
    | Tick(elapsed: nat)
    | Acquire(instance: string, owner: string, started: nat)
    | Renew(lease: Lease, started: nat)
    | Release(lease: Lease)

  /** A broker may ask for any lease it was ever given, however late. */
  function Next(w: World, step: Step, ttl: nat): World {
    match step
    case Tick(elapsed) => w.(now := w.now + elapsed)
    case Acquire(instance, owner, started) =>
      if owner in w.used || started > w.now then w
      else
        var (after, acquired) := AcquireScript(w, instance, owner, ttl);
        after.(used := w.used + {owner},
               held := if acquired then w.held + {Lease(instance, owner, started + ttl)} else w.held)
    case Renew(lease, started) =>
      if lease !in w.held || started > w.now then w
      else
        var (after, renewed) := RenewScript(w, lease.instance, lease.owner, ttl);
        after.(held := if renewed then w.held + {lease.(expiresAt := started + ttl)} else w.held)
    case Release(lease) =>
      if lease !in w.held then w
      else ReleaseScript(w, lease.instance, lease.owner).(released := w.released + {lease.owner})
  }

  function Run(w: World, steps: seq<Step>, ttl: nat): World {
    if steps == [] then w else Next(Run(w, steps[..|steps| - 1], ttl), steps[|steps| - 1], ttl)
  }

  /** A lease not given back ended, or the key still names its owner for longer than it. */
  predicate Backed(w: World, lease: Lease) {
    || lease.expiresAt <= w.now
    || (lease.instance in w.owners && w.owners[lease.instance].owner == lease.owner
        && lease.expiresAt <= w.owners[lease.instance].expires)
  }

  /** An instance is indexed with its key's deadline as long as that lies ahead. */
  predicate IndexAgrees(w: World, instance: string) {
    && (instance in w.owners && w.owners[instance].expires > w.now ==>
          instance in w.index && w.index[instance] == w.owners[instance].expires)
    && (instance in w.index && w.index[instance] > w.now ==>
          instance in w.owners && w.owners[instance].expires == w.index[instance])
  }

  ghost predicate Inv(w: World) {
    && (forall l :: l in w.held ==> l.owner in w.used && (l.owner in w.released || Backed(w, l)))
    && (forall a, b :: a in w.held && b in w.held && a.owner == b.owner ==> a.instance == b.instance)
    && (forall i :: i in w.owners ==> w.owners[i].owner in w.used)
    && (forall i :: IndexAgrees(w, i))
  }

  lemma AcquireKeeps(w: World, instance: string, owner: string, started: nat, ttl: nat)
    requires Inv(w)
    ensures Inv(Next(w, Acquire(instance, owner, started), ttl))
  {
    var after := Next(w, Acquire(instance, owner, started), ttl);
    forall l | l in after.held ensures l.owner in after.released || Backed(after, l) {
      if l in w.held { assert l.owner in w.released || Backed(w, l); }
    }
    forall i ensures IndexAgrees(after, i) { assert IndexAgrees(w, i); }
  }

  lemma RenewKeeps(w: World, lease: Lease, started: nat, ttl: nat)
    requires Inv(w) && forall l :: l in w.held ==> l.expiresAt <= w.now + ttl
    ensures Inv(Next(w, Renew(lease, started), ttl))
  {
    var after := Next(w, Renew(lease, started), ttl);
    forall l | l in after.held ensures l.owner in after.released || Backed(after, l) {
      if l in w.held { assert l.owner in w.released || Backed(w, l); }
    }
    forall i ensures IndexAgrees(after, i) { assert IndexAgrees(w, i); }
  }

  lemma ReleaseKeeps(w: World, lease: Lease, ttl: nat)
    requires Inv(w)
    ensures Inv(Next(w, Release(lease), ttl))
  {
    var after := Next(w, Release(lease), ttl);
    forall l | l in after.held ensures l.owner in after.released || Backed(after, l) {
      assert l.owner in w.released || Backed(w, l);
    }
    forall i ensures IndexAgrees(after, i) { assert IndexAgrees(w, i); }
  }

  lemma TickKeeps(w: World, elapsed: nat, ttl: nat)
    requires Inv(w)
    ensures Inv(Next(w, Tick(elapsed), ttl))
  {
    var after := Next(w, Tick(elapsed), ttl);
    forall l | l in after.held ensures l.owner in after.released || Backed(after, l) {
      assert l.owner in w.released || Backed(w, l);
    }
    forall i ensures IndexAgrees(after, i) { assert IndexAgrees(w, i); }
  }

  lemma {:induction false} RunKeeps(steps: seq<Step>, ttl: nat)
    ensures Inv(Run(EMPTY, steps, ttl))
    ensures forall l :: l in Run(EMPTY, steps, ttl).held ==> l.expiresAt <= Run(EMPTY, steps, ttl).now + ttl
  {
    if steps != [] {
      RunKeeps(steps[..|steps| - 1], ttl);
      var w, step := Run(EMPTY, steps[..|steps| - 1], ttl), steps[|steps| - 1];
      match step
      case Tick(elapsed) => TickKeeps(w, elapsed, ttl);
      case Acquire(instance, owner, started) => AcquireKeeps(w, instance, owner, started, ttl);
      case Renew(lease, started) => RenewKeeps(w, lease, started, ttl);
      case Release(lease) => ReleaseKeeps(w, lease, ttl);
    }
  }

  /** Over every run, a live lease that was not given back is owned in Redis. */
  lemma LiveLeaseIsOwned(steps: seq<Step>, ttl: nat, lease: Lease)
    requires var w := Run(EMPTY, steps, ttl); lease in w.held && lease.owner !in w.released && Live(w, lease)
    ensures Owner(Run(EMPTY, steps, ttl), lease.instance) == Some(lease.owner)
  {
    RunKeeps(steps, ttl);
  }

  /** Two brokers never both hold a live lease on one instance. */
  lemma OneLiveOwner(steps: seq<Step>, ttl: nat, a: Lease, b: Lease)
    requires var w := Run(EMPTY, steps, ttl);
      && a in w.held && a.owner !in w.released && Live(w, a)
      && b in w.held && b.owner !in w.released && Live(w, b)
      && a.instance == b.instance
    ensures a.owner == b.owner
  {
    LiveLeaseIsOwned(steps, ttl, a);
    LiveLeaseIsOwned(steps, ttl, b);
  }

  /** A renewal or release by anyone but the current owner leaves keys and index alone. */
  lemma StaleChangesNothing(w: World, instance: string, owner: string, ttl: nat)
    requires Owner(w, instance) != Some(owner)
    ensures RenewScript(w, instance, owner, ttl) == (w, false) && ReleaseScript(w, instance, owner) == w
  {
  }

  /** Over every run, `active` says whether some owner key has time left. */
  lemma ActiveAgrees(steps: seq<Step>, ttl: nat)
    ensures var w := Run(EMPTY, steps, ttl);
      Active(w) <==> exists i :: Owner(w, i).Some? && w.owners[i].expires > w.now
  {
    RunKeeps(steps, ttl);
    var w := Run(EMPTY, steps, ttl);
    if Active(w) {
      var i :| i in w.index && w.index[i] > w.now;
      assert IndexAgrees(w, i);
      assert Owner(w, i).Some?;
    }
    if i :| Owner(w, i).Some? && w.owners[i].expires > w.now {
      assert IndexAgrees(w, i);
    }
  }

  /** In the one millisecond in which a key expires it can still be read, but is no longer
      counted as active. */
  lemma ActiveEndsFirst(ttl: nat)
    ensures var w := Run(EMPTY, [Acquire("i", "o", 0), Tick(ttl)], ttl);
      Owner(w, "i") == Some("o") && !Active(w)
  {
    var steps := [Acquire("i", "o", 0), Tick(ttl)];
    assert steps[..1] == [Acquire("i", "o", 0)] && steps[..1][..0] == [];
    assert Run(EMPTY, steps[..1][..0], ttl) == EMPTY;
    assert Run(EMPTY, steps[..1], ttl) == Next(EMPTY, steps[..1][0], ttl);
  }

  // ----- when a lease is given -----

  /** The instance is owned by `owner` exactly until `deadline` unless something happens, and
      indexed with that; passed deadlines leave the index; other instances are as they were. */
  ghost predicate Granted(w: World, after: World, instance: string, owner: string, deadline: nat) {
    && (forall t: nat :: w.now <= t ==>
          Owner(after.(now := t), instance) == if t <= deadline then Some(owner) else None)
    && (forall i, t: nat :: i != instance ==> Owner(after.(now := t), i) == Owner(w.(now := t), i))
    && instance in after.index && after.index[instance] == deadline
    && (forall i :: i != instance ==>
          (i in after.index <==> i in w.index && w.index[i] > w.now)
          && (i in after.index ==> after.index[i] == w.index[i]))
    && after == w.(owners := after.owners, index := after.index)
  }

  /** A lease is acquired if and only if nobody owns the instance, and renewed if and only if
      the caller does; either way it lasts from now on for its whole time. */
  lemma GivenIff(w: World, instance: string, owner: string, ttl: nat)
    ensures var (after, acquired) := AcquireScript(w, instance, owner, ttl);
      && (acquired <==> Owner(w, instance).None?)
      && (if acquired then Granted(w, after, instance, owner, w.now + ttl) else after == w)
    ensures var (after, renewed) := RenewScript(w, instance, owner, ttl);
      && (renewed <==> Owner(w, instance) == Some(owner))
      && (if renewed then Granted(w, after, instance, owner, w.now + ttl) else after == w)
  {
  }

  /** Its owner's release frees the instance at once and only that one; anyone can then have it. */
  lemma ReleaseFrees(w: World, instance: string, owner: string, next: string, ttl: nat)
    requires Owner(w, instance) == Some(owner)
    ensures var after := ReleaseScript(w, instance, owner);
      && Owner(after, instance).None? && instance !in after.index
      && (forall i :: i != instance ==> Owner(after, i) == Owner(w, i))
      && (forall i :: i != instance ==>
            (i in after.index <==> i in w.index) && (i in w.index ==> after.index[i] == w.index[i]))
      && after == w.(owners := after.owners, index := after.index)
      && AcquireScript(after, instance, next, ttl).1
  {
  }

  /** Over every run, a broker that renews a lease while it is live and not given back keeps it. */
  lemma LiveLeaseRenews(steps: seq<Step>, ttl: nat, lease: Lease, started: nat)
    requires var w := Run(EMPTY, steps, ttl);
      lease in w.held && lease.owner !in w.released && Live(w, lease) && started <= w.now
    ensures var w := Run(EMPTY, steps, ttl);
      var after := Next(w, Renew(lease, started), ttl);
      && lease.(expiresAt := started + ttl) in after.held
      && Granted(w, after.(held := w.held), lease.instance, lease.owner, w.now + ttl)
  {
    LiveLeaseIsOwned(steps, ttl, lease);
    GivenIff(Run(EMPTY, steps, ttl), lease.instance, lease.owner, ttl);
  }

  class LeaseKeys {
    var now: nat
    var owners: map<string, Key>
    var index: map<string, nat>
    ghost var held: set<Lease>
    ghost var released: set<string>
    ghost var used: set<string>

    ghost function View(): World reads this { World(now, owners, index, held, released, used) }

    method Acquire(instance: string, owner: string, ttl: nat) returns (acquired: bool)
      modifies this
      ensures (View(), acquired) == AcquireScript(old(View()), instance, owner, ttl)
    {
      if instance in owners && now <= owners[instance].expires { return false; }
      owners := owners[instance := Key(owner, now + ttl)];
      Score(instance, now + ttl);
      acquired := true;
    }

    method Renew(instance: string, owner: string, ttl: nat) returns (renewed: bool)
      modifies this
      ensures (View(), renewed) == RenewScript(old(View()), instance, owner, ttl)
    {
      if instance !in owners || now > owners[instance].expires || owners[instance].owner != owner { return false; }
      owners := owners[instance := Key(owner, now + ttl)];
      Score(instance, now + ttl);
      renewed := true;
    }

    /** Drop the deadlines already passed, one by one, then record the new one. */
    method Score(instance: string, deadline: nat)
      modifies this`index
      ensures index == Reindex(old(index), now, instance, deadline)
    {
      var todo := index.Keys;
      while todo != {}
        invariant todo <= old(index).Keys
        invariant index == map i | i in old(index) && (i in todo || old(index)[i] > now) :: old(index)[i]
        decreases todo
      {
        var i :| i in todo;
        if index[i] <= now { index := index - {i}; }
        todo := todo - {i};
      }
      index := index[instance := deadline];
    }

    method ReleaseOwned(instance: string, owner: string)
      modifies this
      ensures View() == ReleaseScript(old(View()), instance, owner)
    {
      if instance in owners && now <= owners[instance].expires && owners[instance].owner == owner {
        owners := owners - {instance};
        index := index - {instance};
      }
    }
  }
}
