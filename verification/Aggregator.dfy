/**
The fleet aggregator: one lease key elects who may commit, a flush reads its base (its own
copy in memory or the stored checkpoint), measures the latencies of newly completed messages
and commits checkpoint and completion scores in one script fenced by the lease.  Any number
of aggregators interleave, fail and restart, any answer of Redis may be lost, and a lease
call or commit whose caller gave up may run later, when that caller is in another flush.
 */
module Aggregator {
  import opened Options
  import opened LatencyWindow

  datatype Lease = Lease(owner: nat, expires: int)

  /** A checkpoint as it was committed.  `serial` and `written` are history: the number and
      the time of the commit. */
  datatype Version = Version(checkpoint: Checkpoint, serial: nat, written: int)

  /**
  The stored keys.  Checkpoint and completion scores get the same expiry from the same
  script, so one `expires` stands for both.  The rest is history: `since` is the commit from
  which on the scores never expired, `commits` the number of commits so far, and no flush of
  an owner that is yet to commit read an earlier time than `horizon`.
   */
  datatype Keys = Keys(
    lease: Option<Lease>,
    version: Option<Version>,
    completed: map<string, int>,
    expires: int,
    since: int,
    commits: nat,
    horizon: int)

  const NO_KEYS := Keys(None, None, map[], 0, 0, 0, 0)

  predicate Readable(k: Keys, now: int) { k.version.Some? && now <= k.expires }

  predicate Owner(k: Keys, id: nat) { k.lease.Some? && k.lease.value.owner == id }

  predicate Leased(k: Keys, now: int) { k.lease.Some? && now <= k.lease.value.expires }

  predicate Holds(k: Keys, id: nat, now: int) { Owner(k, id) && Leased(k, now) }

  /** History of a measured flush: whether it held the lease when it read the scores, and
      whether a late commit of the same aggregator has run since. */
  datatype Reading = Unowned | Owned | Overtaken

  /** Where an aggregator is inside `flush`; no base means an empty checkpoint. */
  datatype Phase =
    | Idle
    | Leading
    | Based(base: Option<Version>, from: int)
    | Measured(base: Option<Version>, from: int, now: int, done: set<string>, candidates: seq<Candidate>,
               reading: Reading)

  datatype Worker = Worker(memory: Option<Version>, phase: Phase)

  /** A commit that was sent by `id` and whose answer never came: it may run late, or again. */
  datatype Sent = Sent(id: nat, phase: Phase)

  datatype Fleet = Fleet(clock: int, keys: Keys, workers: map<nat, Worker>, sent: set<Sent>)

  /** `Unheard` is a lease call whose answer is lost and that may run at any time after,
      `Commit(_, false)` a commit whose answer is lost.
      `GiveUp` ends a flush whose commit has not run yet, and `Late` runs a commit that was sent. */
  datatype Step =
    | Tick(to: int)
    | Acquire(id: nat)
    | Unheard(id: nat)
    | TakeBase(id: nat)
    | Measure(id: nat, now: int, candidates: seq<Candidate>)
    | Commit(id: nat, seen: bool)
    | GiveUp(id: nat)
    | Late(id: nat, phase: Phase)
    | Fail(id: nat)
    | Restart(id: nat)

  function Renewed(k: Keys, id: nat, clock: int): Keys { k.(lease := Some(Lease(id, clock + LEASE))) }

  /** The lease calls of a flush, `_RENEW` and then `SET NX`, as Redis sees them. */
  function LeaseCalls(k: Keys, id: nat, clock: int): Keys {
    if Holds(k, id, clock) || !Leased(k, clock) then Renewed(k, id, clock) else k
  }

  /** Only an answered renewal keeps the checkpoint in memory. */
  function Acquired(s: Fleet, id: nat, w: Worker): Worker {
    if Holds(s.keys, id, s.clock) then w.(phase := Leading)
    else Worker(None, if Leased(s.keys, s.clock) then Idle else Leading)
  }

  /** The memory or the stored checkpoint; the memory is cleared either way. */
  function Rebased(s: Fleet, w: Worker): Worker {
    var stored := if Readable(s.keys, s.clock) then s.keys.version else None;
    Worker(None, Based(if w.memory.Some? then w.memory else stored, s.clock))
  }

  /** The completion scores a script or a read finds at `now`. */
  function Completed(k: Keys, now: int): map<string, int> { if Readable(k, now) then k.completed else map[] }

  function BaseOf(base: Option<Version>): Checkpoint { if base.Some? then base.value.checkpoint else EMPTY }

  /** The checkpoint a measured flush commits. */
  function Point(c: Settings, p: Phase): Checkpoint
    requires p.Measured?
  {
    Aggregate(c, BaseOf(p.base), p.done, p.now, p.candidates)
  }

  function Max(a: int, b: int): int { if a < b then b else a }

  function Horizon(k: Keys, clock: int, now: int): int {
    var here := Max(now, clock - LEASE);
    if k.version.Some? then Max(k.horizon, here) else here
  }

  function Added(c: Settings, p: Phase): seq<Sample>
    requires p.Measured?
  {
    Fresh(p.candidates, p.done, p.now - c.Window())
  }

  /** `_COMMIT`: fenced by the lease. */
  function CommitScript(c: Settings, k: Keys, id: nat, clock: int, p: Phase): Keys
    requires p.Measured?
  {
    if !Holds(k, id, clock) then k else
      var cutoff := p.now - c.Window();
      Keys(k.lease, Some(Version(Point(c, p), k.commits + 1, clock)),
           Pruned(Scores(Completed(k, clock), Added(c, p)), cutoff), clock + c.Retention(),
           if Readable(k, clock) then k.since else clock, k.commits + 1, Horizon(k, clock, p.now))
  }

  /** What a commit under the lease stores. */
  lemma Stores(c: Settings, k: Keys, id: nat, clock: int, p: Phase)
    requires p.Measured? && Holds(k, id, clock)
    ensures var after := CommitScript(c, k, id, clock, p);
      && after.version == Some(Version(Point(c, p), k.commits + 1, clock)) && after.lease == k.lease
      && after.completed == Pruned(Scores(Completed(k, clock), Added(c, p)), p.now - c.Window())
      && after.expires == clock + c.Retention() && after.commits == k.commits + 1
      && after.since == (if Readable(k, clock) then k.since else clock)
      && after.horizon == Horizon(k, clock, p.now)
  {
  }

  function Committed(c: Settings, s: Fleet, id: nat, p: Phase, seen: bool): Fleet
    requires p.Measured?
  {
    var after := CommitScript(c, s.keys, id, s.clock, p);
    var memory := if Holds(s.keys, id, s.clock) && seen then after.version else None;
    s.(keys := after, workers := s.workers[id := Worker(memory, Idle)],
       sent := if seen then s.sent else s.sent + {Sent(id, p)})
  }

  /** The flush an aggregator is in when a late commit of its own runs. */
  function Passed(w: Worker): Worker {
    if w.phase.Measured? then w.(phase := w.phase.(reading := Overtaken)) else w
  }

  function CommittedLate(c: Settings, s: Fleet, id: nat, p: Phase): Fleet
    requires p.Measured? && id in s.workers
  {
    if !Holds(s.keys, id, s.clock) then s
    else s.(keys := CommitScript(c, s.keys, id, s.clock, p), workers := s.workers[id := Passed(s.workers[id])])
  }

  /** A step that is not enabled changes nothing; `Fail` ends a flush at any point. */
  function Next(c: Settings, s: Fleet, step: Step): Fleet {
    if step.Tick? then (if step.to >= s.clock then s.(clock := step.to) else s)
    else if step.id !in s.workers then s
    else
      var w := s.workers[step.id];
      match step
      case Acquire(id) =>
        if !w.phase.Idle? then s
        else s.(keys := LeaseCalls(s.keys, id, s.clock), workers := s.workers[id := Acquired(s, id, w)])
      case Unheard(id) => s.(keys := LeaseCalls(s.keys, id, s.clock))
      case TakeBase(id) => if w.phase.Leading? then s.(workers := s.workers[id := Rebased(s, w)]) else s
      case Measure(id, now, candidates) =>
        if !w.phase.Based? || !(w.phase.from <= now <= s.clock) then s
        else
          var done := Completed(s.keys, s.clock).Keys;
          var reading := if Holds(s.keys, id, s.clock) then Owned else Unowned;
          var measured := Measured(w.phase.base, w.phase.from, now, done, candidates, reading);
          s.(workers := s.workers[id := w.(phase := measured)])
      case Commit(id, seen) => if w.phase.Measured? then Committed(c, s, id, w.phase, seen) else s
      case GiveUp(id) =>
        if !w.phase.Measured? then s
        else s.(workers := s.workers[id := Worker(None, Idle)], sent := s.sent + {Sent(id, w.phase)})
      case Late(id, p) => if p.Measured? && Sent(id, p) in s.sent then CommittedLate(c, s, id, p) else s
      case Fail(id) => s.(workers := s.workers[id := w.(phase := Idle)])
      case Restart(id) => s.(workers := s.workers[id := Worker(None, Idle)])
  }

  function Run(c: Settings, s: Fleet, steps: seq<Step>): Fleet {
    if steps == [] then s else Next(c, Run(c, s, steps[..|steps| - 1]), steps[|steps| - 1])
  }

  ghost predicate Initial(s: Fleet) {
    s.keys == NO_KEYS && s.sent == {} && forall id :: id in s.workers ==> s.workers[id] == Worker(None, Idle)
  }

  // ----- which checkpoint a flush works from -----

  /** An aggregator that has taken its base and not yet committed. */
  predicate UnderWay(p: Phase) { p.Based? || p.Measured? }

  /** There was a commit since the memory or the base of `w`, or since it found none. */
  predicate Outdated(k: Keys, w: Worker) {
    || (w.memory.Some? && w.memory.value.serial != k.commits)
    || (UnderWay(w.phase) &&
        if w.phase.base.Some? then w.phase.base.value.serial != k.commits else Readable(k, w.phase.from))
  }

  /** The lease of `id` is granted without its knowledge although another committed since. */
  predicate MisleadingGrant(s: Fleet, step: Step) {
    step.Unheard? && step.id in s.workers && !Leased(s.keys, s.clock) && Outdated(s.keys, s.workers[step.id])
  }

  /** A late commit of `id` runs when `id` has already chosen what its next commit builds on. */
  predicate MisleadingCommit(s: Fleet, step: Step) {
    && step.Late? && step.id in s.workers && step.phase.Measured? && Sent(step.id, step.phase) in s.sent
    && Holds(s.keys, step.id, s.clock)
    && (s.workers[step.id].memory.Some? || UnderWay(s.workers[step.id].phase))
  }

  predicate Misleads(s: Fleet, step: Step) { MisleadingGrant(s, step) || MisleadingCommit(s, step) }

  ghost predicate NotMisled(c: Settings, s: Fleet, steps: seq<Step>) {
    forall i :: 0 <= i < |steps| ==> !Misleads(Run(c, s, steps[..i]), steps[i])
  }

  /** Versions in memory are versions once stored; the newest one still is. */
  ghost predicate Serials(k: Keys, v: Option<Version>) {
    v.Some? ==> v.value.serial <= k.commits && (v.value.serial == k.commits ==> k.version == v)
  }

  ghost predicate Remembers(clock: int, k: Keys, w: Worker) {
    && Serials(k, w.memory)
    && (w.phase.Based? || w.phase.Measured? ==> Serials(k, w.phase.base) && w.phase.from <= clock)
  }

  ghost predicate Versioned(s: Fleet) {
    && (s.keys.version.Some? ==> s.keys.version.value.serial == s.keys.commits)
    && forall id :: id in s.workers ==> Remembers(s.clock, s.keys, s.workers[id])
  }

  lemma NextVersioned(c: Settings, s: Fleet, step: Step)
    requires Versioned(s)
    ensures Versioned(Next(c, s, step))
  {
    var next := Next(c, s, step);
    forall id | id in next.workers ensures Remembers(next.clock, next.keys, next.workers[id]) {
      assert Remembers(s.clock, s.keys, s.workers[id]);
    }
  }

  lemma {:induction false} RunVersioned(c: Settings, s: Fleet, steps: seq<Step>)
    requires Initial(s)
    ensures Versioned(Run(c, s, steps))
  {
    if steps != [] {
      RunVersioned(c, s, steps[..|steps| - 1]);
      NextVersioned(c, Run(c, s, steps[..|steps| - 1]), steps[|steps| - 1]);
    }
  }

  /** What an owner holds is the committed checkpoint. */
  ghost predicate UpToDate(k: Keys, id: nat, w: Worker) {
    Owner(k, id) ==>
      && (w.memory.Some? ==> k.version == w.memory)
      && (w.phase.Based? || w.phase.Measured? ==>
            k.version == w.phase.base || (w.phase.base.None? && !Readable(k, w.phase.from)))
  }

  ghost predicate AllUpToDate(s: Fleet) {
    forall id :: id in s.workers ==> UpToDate(s.keys, id, s.workers[id])
  }

  lemma NextUpToDate(c: Settings, s: Fleet, step: Step)
    requires Versioned(s) && !Misleads(s, step) && AllUpToDate(s)
    ensures AllUpToDate(Next(c, s, step))
  {
    if !step.Tick? && step.id in s.workers { assert Remembers(s.clock, s.keys, s.workers[step.id]); }
  }

  /**
  Unless a lost grant or a late commit of its own misled it, an aggregator that owns the lease works from the last
  committed checkpoint, whether it took it from memory or from the key; only an unreadable
  key makes it start empty.
   */
  lemma {:induction false} BaseIsCommitted(c: Settings, s: Fleet, steps: seq<Step>)
    requires Initial(s) && NotMisled(c, s, steps)
    ensures AllUpToDate(Run(c, s, steps))
  {
    if steps != [] {
      var n := |steps| - 1;
      assert forall i :: 0 <= i < n ==> steps[..n][..i] == steps[..i] && steps[..n][i] == steps[i];
      BaseIsCommitted(c, s, steps[..n]);
      RunVersioned(c, s, steps[..n]);
      NextUpToDate(c, Run(c, s, steps[..n]), steps[n]);
    }
  }

  /**
  And a lost grant misleads always: in a reachable fleet whose lease is free, the flush that
  follows an unheard grant to an aggregator with a memory works from the committed checkpoint
  exactly when nobody else has committed since that memory.
   */
  lemma LostGrantDecides(c: Settings, s: Fleet, steps: seq<Step>, id: nat)
    requires Initial(s)
    requires var f := Run(c, s, steps);
      id in f.workers && f.workers[id].phase.Idle? && f.workers[id].memory.Some? && !Leased(f.keys, f.clock)
    ensures var f := Run(c, s, steps);
      var g := Next(c, Next(c, Next(c, f, Unheard(id)), Acquire(id)), TakeBase(id));
      && id in g.workers && g.workers[id].phase == Based(f.workers[id].memory, f.clock)
      && Holds(g.keys, id, g.clock)
      && (g.keys.version == g.workers[id].phase.base <==> !Misleads(f, Unheard(id)))
  {
    RunVersioned(c, s, steps);
    var f := Run(c, s, steps);
    assert Remembers(f.clock, f.keys, f.workers[id]);
    var granted := Next(c, f, Unheard(id));
    assert granted.workers == f.workers && Holds(granted.keys, id, granted.clock);
    var leading := Next(c, granted, Acquire(id));
    assert leading.workers[id] == Worker(f.workers[id].memory, Leading);
  }

  /** The same at any point of a flush: an unheard grant leaves an aggregator with the committed
      checkpoint exactly when nobody has committed since what it holds. */
  lemma GrantDecides(c: Settings, s: Fleet, steps: seq<Step>, id: nat)
    requires Initial(s)
    requires var f := Run(c, s, steps); id in f.workers && !Leased(f.keys, f.clock)
    ensures var f := Run(c, s, steps);
      var g := Next(c, f, Unheard(id));
      id in g.workers && (UpToDate(g.keys, id, g.workers[id]) <==> !Misleads(f, Unheard(id)))
  {
    RunVersioned(c, s, steps);
    var f := Run(c, s, steps);
    assert Remembers(f.clock, f.keys, f.workers[id]);
  }

  /** And a late commit misleads always: one that runs leaves its aggregator with the committed
      checkpoint exactly when that has not yet chosen what its next commit builds on. */
  lemma LateCommitDecides(c: Settings, s: Fleet, steps: seq<Step>, id: nat, p: Phase)
    requires Initial(s)
    requires var f := Run(c, s, steps);
      id in f.workers && p.Measured? && Sent(id, p) in f.sent && Holds(f.keys, id, f.clock)
    ensures var f := Run(c, s, steps);
      var g := Next(c, f, Late(id, p));
      id in g.workers && (UpToDate(g.keys, id, g.workers[id]) <==> !Misleads(f, Late(id, p)))
  {
    RunVersioned(c, s, steps);
    var f := Run(c, s, steps);
    assert Remembers(f.clock, f.keys, f.workers[id]);
    assert Next(c, f, Late(id, p)) == CommittedLate(c, f, id, p);
  }

  // ----- what a committed window counts -----

  /** The commit that runs at this step, if the lease lets one run. */
  function Running(s: Fleet, step: Step): Option<Phase> {
    if step.Tick? || step.id !in s.workers || !Holds(s.keys, step.id, s.clock) then None
    else
      var p := s.workers[step.id].phase;
      match step
      case Commit(_, _) => if p.Measured? then Some(p) else None
      case Late(id, p) => if p.Measured? && Sent(id, p) in s.sent then Some(p) else None
      case _ => None
  }

  /** A commit in its own time needs nothing more; a late one, or one a late one of its own
      overtook, must have read the scores under the lease and lower no score. */
  predicate InTime(c: Settings, s: Fleet, step: Step, p: Phase)
    requires p.Measured?
  {
    || (step.Commit? && !p.reading.Overtaken?)
    || (!p.reading.Unowned? && Raises(Completed(s.keys, s.clock), Added(c, p)))
  }

  /** What a step must respect: a lease call that runs late grants nothing to a flush under
      way, and either the settings are roomy and no span starts in the future, or at a commit
      the scores have not expired since its base was committed. */
  ghost predicate Proper(c: Settings, s: Fleet, step: Step, roomy: bool) {
    var p := Running(s, step);
    && (step.Unheard? && step.id in s.workers && UnderWay(s.workers[step.id].phase) ==>
          LeaseCalls(s.keys, step.id, s.clock) == s.keys)
    && (roomy && step.Measure? ==> forall x :: x in step.candidates ==> x.started <= s.clock)
    && (p.Some? && p.value.Measured? ==>
          InTime(c, s, step, p.value) && (roomy || ScoresKept(s.keys, p.value.base, s.clock)))
  }

  predicate ScoresKept(k: Keys, base: Option<Version>, clock: int) {
    base.Some? ==> k.since <= base.value.written && clock <= k.expires
  }

  ghost predicate ProperRun(c: Settings, s: Fleet, steps: seq<Step>, roomy: bool) {
    steps == [] || (
      && ProperRun(c, s, steps[..|steps| - 1], roomy)
      && Proper(c, Run(c, s, steps[..|steps| - 1]), steps[|steps| - 1], roomy))
  }

  /** A version some aggregator may still use: its window is scored, or the scores expired
      since and all of it is older than that. */
  ghost predicate VersionInv(c: Settings, k: Keys, v: Version, roomy: bool) {
    && k.version.Some?
    && v.written <= k.expires - c.Retention()
    && BucketsMatch(v.checkpoint)
    && (roomy ==> forall x :: x in v.checkpoint.samples ==> x.started <= v.written)
    && (if k.since <= v.written
        then WindowSound(v.checkpoint.samples, k.completed, k.horizon - c.Window())
        else v.written + c.Retention() < k.since)
  }

  ghost predicate BaseSound(c: Settings, k: Keys, base: Option<Version>, roomy: bool) {
    base.Some? ==> VersionInv(c, k, base.value, roomy)
  }

  ghost predicate KeysInv(c: Settings, clock: int, k: Keys, roomy: bool) {
    && (k.lease.Some? ==> k.lease.value.expires <= clock + LEASE)
    && (k.version.Some? ==>
          && k.since <= k.version.value.written == k.expires - c.Retention() <= clock
          && k.horizon <= clock
          && CountsOnce(c, k.version.value.checkpoint)
          && VersionInv(c, k, k.version.value, roomy))
  }

  /** No later commit by `id` will read an earlier time than `from`, while it owns the lease. */
  ghost predicate FlushInv(c: Settings, clock: int, k: Keys, id: nat, from: int) {
    && from <= clock
    && (Owner(k, id) ==> k.lease.value.expires <= from + LEASE && (k.version.Some? ==> k.horizon <= from))
  }

  /** What the commit of `p` would store counts each message once. */
  ghost predicate Clean(c: Settings, p: Phase)
    requires p.Measured?
  {
    DistinctMessages(Window(Point(c, p).samples, p.now - c.Window()))
  }

  /** A measured flush, however late its commit runs. */
  ghost predicate SentInv(c: Settings, clock: int, k: Keys, p: Phase, roomy: bool) {
    && p.Measured? && p.now <= clock
    && BaseSound(c, k, p.base, roomy)
    && (roomy ==> forall x :: x in p.candidates ==> x.started <= clock)
    && (!p.reading.Unowned? && (roomy || ScoresKept(k, p.base, clock)) ==> Clean(c, p))
  }

  ghost predicate MeasuredInv(clock: int, k: Keys, id: nat, p: Phase)
    requires p.Measured?
  {
    && p.from <= p.now
    && (Owner(k, id) && p.reading.Unowned? ==> k.lease.value.expires < clock)
    && (Owner(k, id) && p.reading.Owned? && Readable(k, clock) ==> p.done == k.completed.Keys)
  }

  ghost predicate WorkerInv(c: Settings, clock: int, k: Keys, id: nat, w: Worker, roomy: bool) {
    && BaseSound(c, k, w.memory, roomy)
    && (w.phase.Based? ==> FlushInv(c, clock, k, id, w.phase.from) && BaseSound(c, k, w.phase.base, roomy))
    && (w.phase.Measured? ==>
          && FlushInv(c, clock, k, id, w.phase.from) && MeasuredInv(clock, k, id, w.phase)
          && SentInv(c, clock, k, w.phase, roomy))
  }

  /** What an aggregator sent before its present flush read an earlier time. */
  predicate SentBefore(s: Fleet, q: Sent) {
    q.id in s.workers && q.phase.Measured? &&
    var p := s.workers[q.id].phase; p.Based? || p.Measured? ==> q.phase.now <= p.from
  }

  ghost predicate Inv(c: Settings, s: Fleet, roomy: bool) {
    && KeysInv(c, s.clock, s.keys, roomy)
    && (forall id :: id in s.workers ==> WorkerInv(c, s.clock, s.keys, id, s.workers[id], roomy))
    && (forall q :: q in s.sent ==> SentBefore(s, q) && SentInv(c, s.clock, s.keys, q.phase, roomy))
  }

  /** Everything a version counted is older than the window, once its scores have expired. */
  lemma LapsedIsOld(c: Settings, v: Version, cutoff: int, clock: int)
    requires forall x :: x in v.checkpoint.samples ==> x.started <= v.written
    requires v.written + c.Retention() < clock && clock <= cutoff + c.Window() + LEASE && c.Roomy()
    ensures Window(v.checkpoint.samples, cutoff) == []
  {
    var samples := v.checkpoint.samples;
    WindowMembers(samples, cutoff);
    forall x | x in samples ensures x.Second() * SECOND <= cutoff {
      assert x.Second() * SECOND <= x.started;
    }
    if Window(samples, cutoff) != [] { HasMember(Window(samples, cutoff)); }
  }

  /** The old samples of a flush that holds the lease are scored, or out of its window. */
  lemma BaseStillSound(c: Settings, clock: int, k: Keys, id: nat, base: Option<Version>, from: int, now: int,
                       roomy: bool)
    requires Holds(k, id, clock) && KeysInv(c, clock, k, roomy) && FlushInv(c, clock, k, id, from) && from <= now
    requires BaseSound(c, k, base, roomy) && if roomy then c.Roomy() else ScoresKept(k, base, clock)
    ensures WindowSound(BaseOf(base).samples, Completed(k, clock), now - c.Window())
  {
    if base.Some? {
      var v, cutoff := base.value, now - c.Window();
      if ScoresKept(k, base, clock) {
        LaterWindowSound(v.checkpoint.samples, k.completed, k.horizon - c.Window(), cutoff);
      } else {
        LapsedIsOld(c, v, cutoff, clock);
      }
    }
  }

  /** So a flush that reads the scores under the lease counts each message once. */
  lemma MeasureIsClean(c: Settings, clock: int, k: Keys, id: nat, p: Phase, roomy: bool)
    requires p.Measured? && Holds(k, id, clock) && KeysInv(c, clock, k, roomy) && FlushInv(c, clock, k, id, p.from)
    requires p.from <= p.now && p.done == Completed(k, clock).Keys && BaseSound(c, k, p.base, roomy)
    requires if roomy then c.Roomy() else ScoresKept(k, p.base, clock)
    ensures Clean(c, p)
  {
    BaseStillSound(c, clock, k, id, p.base, p.from, p.now, roomy);
    AggregateDistinct(c, BaseOf(p.base), p.done, p.now, p.candidates);
  }

  /** A commit of `p` that may run at `clock`. */
  ghost predicate MayCommit(c: Settings, clock: int, k: Keys, id: nat, p: Phase, roomy: bool) {
    && c.Valid() && Holds(k, id, clock) && KeysInv(c, clock, k, roomy) && SentInv(c, clock, k, p, roomy)
    && !p.reading.Unowned? && Raises(Completed(k, clock), Added(c, p))
    && (if roomy then c.Roomy() else ScoresKept(k, p.base, clock))
  }

  lemma CommitKeepsScores(c: Settings, clock: int, k: Keys, p: Phase, v: Version)
    requires p.Measured? && k.version.Some? && Readable(k, clock) && Raises(k.completed, Added(c, p))
    requires WindowSound(v.checkpoint.samples, k.completed, k.horizon - c.Window())
    ensures WindowSound(v.checkpoint.samples, Pruned(Scores(k.completed, Added(c, p)), p.now - c.Window()),
                        Horizon(k, clock, p.now) - c.Window())
  {
    FreshCountsOnce(p.candidates, p.done, p.now - c.Window());
    ScoresSurvive(v.checkpoint.samples, Added(c, p), k.completed, k.horizon - c.Window(), p.now - c.Window(),
                  Horizon(k, clock, p.now) - c.Window());
  }

  /** A commit leaves the versions others remember usable, however stale they are. */
  lemma CommitKeepsVersion(c: Settings, clock: int, k: Keys, id: nat, p: Phase, v: Version, roomy: bool)
    requires MayCommit(c, clock, k, id, p, roomy) && VersionInv(c, k, v, roomy)
    ensures VersionInv(c, CommitScript(c, k, id, clock, p), v, roomy)
  {
    Stores(c, k, id, clock, p);
    if Readable(k, clock) && k.since <= v.written { CommitKeepsScores(c, clock, k, p, v); }
  }

  /** After a commit the samples of its base are scored, or older than any window to come. */
  lemma BaseSurvives(c: Settings, clock: int, k: Keys, id: nat, p: Phase, roomy: bool)
    requires MayCommit(c, clock, k, id, p, roomy)
    ensures var after := CommitScript(c, k, id, clock, p);
      WindowSound(BaseOf(p.base).samples, after.completed, after.horizon - c.Window())
  {
    var after := CommitScript(c, k, id, clock, p);
    if p.base.Some? {
      var v := p.base.value;
      CommitKeepsVersion(c, clock, k, id, p, v, roomy);
      if after.since > v.written { LapsedIsOld(c, v, after.horizon - c.Window(), clock); }
    }
  }

  lemma CommitKeepsKeys(c: Settings, clock: int, k: Keys, id: nat, p: Phase, roomy: bool)
    requires MayCommit(c, clock, k, id, p, roomy)
    ensures KeysInv(c, clock, CommitScript(c, k, id, clock, p), roomy)
  {
    PointMatches(c, clock, k, p, roomy);
    PointKept(c, clock, k, id, p, roomy);
    if roomy { PointIsPast(c, clock, k, id, p); }
  }

  lemma PointKept(c: Settings, clock: int, k: Keys, id: nat, p: Phase, roomy: bool)
    requires MayCommit(c, clock, k, id, p, roomy)
    ensures var after := CommitScript(c, k, id, clock, p);
      WindowSound(Point(c, p).samples, after.completed, after.horizon - c.Window())
  {
    BaseSurvives(c, clock, k, id, p, roomy);
    PointScored(c, p, Completed(k, clock), Horizon(k, clock, p.now) - c.Window());
  }

  lemma PointMatches(c: Settings, clock: int, k: Keys, p: Phase, roomy: bool)
    requires SentInv(c, clock, k, p, roomy)
    ensures BucketsMatch(Point(c, p))
  {
    EmptyMatches();
    AggregateMatches(c, BaseOf(p.base), p.done, p.now, p.candidates);
  }

  lemma PointScored(c: Settings, p: Phase, completed: map<string, int>, later: int)
    requires p.Measured? && Clean(c, p) && p.now - c.Window() <= later
    requires WindowSound(BaseOf(p.base).samples, Pruned(Scores(completed, Added(c, p)), p.now - c.Window()), later)
    ensures WindowSound(Point(c, p).samples, Pruned(Scores(completed, Added(c, p)), p.now - c.Window()), later)
  {
    AggregateScored(c, BaseOf(p.base), p.done, p.now, p.candidates, completed, later);
  }

  lemma PointIsPast(c: Settings, clock: int, k: Keys, id: nat, p: Phase)
    requires MayCommit(c, clock, k, id, p, true)
    ensures forall x :: x in Point(c, p).samples ==> x.started <= clock
  {
    FreshCountsOnce(p.candidates, p.done, p.now - c.Window());
  }

  lemma CommitKeepsBase(c: Settings, clock: int, k: Keys, id: nat, p: Phase, base: Option<Version>, roomy: bool)
    requires MayCommit(c, clock, k, id, p, roomy) && BaseSound(c, k, base, roomy)
    ensures BaseSound(c, CommitScript(c, k, id, clock, p), base, roomy)
    ensures ScoresKept(CommitScript(c, k, id, clock, p), base, clock) ==> ScoresKept(k, base, clock)
  {
    if base.Some? { CommitKeepsVersion(c, clock, k, id, p, base.value, roomy); }
  }

  lemma CommitKeepsSent(c: Settings, clock: int, k: Keys, id: nat, p: Phase, q: Phase, roomy: bool)
    requires MayCommit(c, clock, k, id, p, roomy) && SentInv(c, clock, k, q, roomy)
    ensures SentInv(c, clock, CommitScript(c, k, id, clock, p), q, roomy)
  {
    CommitKeepsBase(c, clock, k, id, p, q.base, roomy);
  }

  lemma CommitKeepsOther(c: Settings, clock: int, k: Keys, id: nat, p: Phase, other: nat, w: Worker, roomy: bool)
    requires MayCommit(c, clock, k, id, p, roomy) && other != id && WorkerInv(c, clock, k, other, w, roomy)
    ensures WorkerInv(c, clock, CommitScript(c, k, id, clock, p), other, w, roomy)
  {
    CommitKeepsBase(c, clock, k, id, p, w.memory, roomy);
    if w.phase.Based? { CommitKeepsBase(c, clock, k, id, p, w.phase.base, roomy); }
    if w.phase.Measured? { CommitKeepsSent(c, clock, k, id, p, w.phase, roomy); }
  }

  /** A late commit leaves the present flush of its aggregator sound, though overtaken. */
  lemma LateKeepsOwn(c: Settings, clock: int, k: Keys, id: nat, p: Phase, w: Worker, roomy: bool)
    requires MayCommit(c, clock, k, id, p, roomy) && WorkerInv(c, clock, k, id, w, roomy)
    requires w.phase.Based? || w.phase.Measured? ==> p.now <= w.phase.from
    ensures WorkerInv(c, clock, CommitScript(c, k, id, clock, p), id, Passed(w), roomy)
  {
    CommitKeepsBase(c, clock, k, id, p, w.memory, roomy);
    if w.phase.Based? {
      CommitKeepsBase(c, clock, k, id, p, w.phase.base, roomy);
      LateKeepsFlush(c, clock, k, id, p, w.phase.from);
    }
    if w.phase.Measured? {
      OvertakenInv(c, clock, k, w.phase, roomy);
      CommitKeepsSent(c, clock, k, id, p, Passed(w).phase, roomy);
      LateKeepsFlush(c, clock, k, id, p, w.phase.from);
    }
  }

  lemma LateKeepsFlush(c: Settings, clock: int, k: Keys, id: nat, p: Phase, from: int)
    requires Holds(k, id, clock) && p.Measured? && p.now <= from && FlushInv(c, clock, k, id, from)
    ensures FlushInv(c, clock, CommitScript(c, k, id, clock, p), id, from)
  {
  }

  lemma OvertakenInv(c: Settings, clock: int, k: Keys, p: Phase, roomy: bool)
    requires SentInv(c, clock, k, p, roomy) && !p.reading.Unowned?
    ensures SentInv(c, clock, k, p.(reading := Overtaken), roomy)
  {
    assert Point(c, p.(reading := Overtaken)) == Point(c, p);
  }

  lemma CommitKeeps(c: Settings, s: Fleet, id: nat, seen: bool, roomy: bool)
    requires Inv(c, s, roomy) && id in s.workers && MayCommit(c, s.clock, s.keys, id, s.workers[id].phase, roomy)
    ensures Inv(c, Committed(c, s, id, s.workers[id].phase, seen), roomy)
  {
    var p, after := s.workers[id].phase, Committed(c, s, id, s.workers[id].phase, seen);
    CommitKeepsKeys(c, s.clock, s.keys, id, p, roomy);
    forall j | j in after.workers ensures WorkerInv(c, s.clock, after.keys, j, after.workers[j], roomy) {
      if j != id { CommitKeepsOther(c, s.clock, s.keys, id, p, j, s.workers[j], roomy); }
    }
    forall q | q in after.sent ensures SentBefore(after, q) && SentInv(c, s.clock, after.keys, q.phase, roomy) {
      assert q in s.sent ==> SentBefore(s, q);
      CommitKeepsSent(c, s.clock, s.keys, id, p, q.phase, roomy);
    }
  }

  lemma LateKeepsWorkers(c: Settings, s: Fleet, id: nat, p: Phase, roomy: bool)
    requires Inv(c, s, roomy) && id in s.workers && Sent(id, p) in s.sent
    requires MayCommit(c, s.clock, s.keys, id, p, roomy)
    ensures var after := CommittedLate(c, s, id, p);
      forall j :: j in after.workers ==> WorkerInv(c, s.clock, after.keys, j, after.workers[j], roomy)
  {
    var after := CommittedLate(c, s, id, p);
    assert SentBefore(s, Sent(id, p));
    forall j | j in after.workers ensures WorkerInv(c, s.clock, after.keys, j, after.workers[j], roomy) {
      if j != id { CommitKeepsOther(c, s.clock, s.keys, id, p, j, s.workers[j], roomy); }
      else { LateKeepsOwn(c, s.clock, s.keys, id, p, s.workers[id], roomy); }
    }
  }

  lemma LateKeeps(c: Settings, s: Fleet, id: nat, p: Phase, roomy: bool)
    requires Inv(c, s, roomy) && id in s.workers && Sent(id, p) in s.sent
    requires MayCommit(c, s.clock, s.keys, id, p, roomy)
    ensures Inv(c, CommittedLate(c, s, id, p), roomy)
  {
    var after := CommittedLate(c, s, id, p);
    CommitKeepsKeys(c, s.clock, s.keys, id, p, roomy);
    LateKeepsWorkers(c, s, id, p, roomy);
    forall q | q in s.sent ensures SentBefore(after, q) && SentInv(c, s.clock, after.keys, q.phase, roomy) {
      assert SentBefore(s, q);
      CommitKeepsSent(c, s.clock, s.keys, id, p, q.phase, roomy);
    }
  }

  lemma LeaseKeeps(c: Settings, s: Fleet, id: nat, w: Worker, after: Worker, roomy: bool)
    requires Inv(c, s, roomy) && id in s.workers && s.workers[id] == w
    requires (after.memory == w.memory || after.memory.None?) && (after.phase.Idle? || after.phase.Leading?)
    ensures Inv(c, s.(keys := LeaseCalls(s.keys, id, s.clock), workers := s.workers[id := after]), roomy)
  {
    assert WorkerInv(c, s.clock, s.keys, id, w, roomy);
    var keys, next := LeaseCalls(s.keys, id, s.clock), s.workers[id := after];
    forall j | j in next ensures WorkerInv(c, s.clock, keys, j, next[j], roomy) {
      if j != id { GrantKeepsOther(c, s.clock, s.keys, id, j, s.workers[j], roomy); }
      else { GrantKeepsBase(c, s.clock, s.keys, id, w.memory, roomy); }
    }
    forall q | q in s.sent ensures SentBefore(s.(keys := keys, workers := next), q)
      && SentInv(c, s.clock, keys, q.phase, roomy)
    {
      assert SentBefore(s, q);
      GrantKeepsBase(c, s.clock, s.keys, id, q.phase.base, roomy);
    }
  }

  lemma GrantKeepsBase(c: Settings, clock: int, k: Keys, id: nat, base: Option<Version>, roomy: bool)
    requires BaseSound(c, k, base, roomy)
    ensures BaseSound(c, LeaseCalls(k, id, clock), base, roomy)
  {
  }

  lemma GrantKeepsOther(c: Settings, clock: int, k: Keys, id: nat, other: nat, w: Worker, roomy: bool)
    requires other != id && WorkerInv(c, clock, k, other, w, roomy)
    ensures WorkerInv(c, clock, LeaseCalls(k, id, clock), other, w, roomy)
  {
    GrantKeepsBase(c, clock, k, id, w.memory, roomy);
    if w.phase.Based? || w.phase.Measured? { GrantKeepsBase(c, clock, k, id, w.phase.base, roomy); }
  }

  /** What any other step does to one aggregator. */
  lemma ReplaceKeeps(c: Settings, s: Fleet, id: nat, after: Worker, roomy: bool)
    requires Inv(c, s, roomy) && id in s.workers && WorkerInv(c, s.clock, s.keys, id, after, roomy)
    requires forall q :: q in s.sent && q.id == id && (after.phase.Based? || after.phase.Measured?) ==>
      q.phase.Measured? && q.phase.now <= after.phase.from
    ensures Inv(c, s.(workers := s.workers[id := after]), roomy)
  {
    var next := s.(workers := s.workers[id := after]);
    forall q | q in s.sent ensures SentBefore(next, q) { assert SentBefore(s, q); }
  }

  lemma MeasureKeeps(c: Settings, s: Fleet, id: nat, now: int, candidates: seq<Candidate>, roomy: bool)
    requires Inv(c, s, roomy) && Proper(c, s, Measure(id, now, candidates), roomy) && (roomy ==> c.Roomy())
    requires id in s.workers && s.workers[id].phase.Based? && s.workers[id].phase.from <= now <= s.clock
    ensures Inv(c, Next(c, s, Measure(id, now, candidates)), roomy)
  {
    var w, k := s.workers[id], s.keys;
    assert WorkerInv(c, s.clock, k, id, w, roomy);
    var reading := if Holds(k, id, s.clock) then Owned else Unowned;
    var p := Measured(w.phase.base, w.phase.from, now, Completed(k, s.clock).Keys, candidates, reading);
    if Holds(k, id, s.clock) && (roomy || ScoresKept(k, p.base, s.clock)) {
      MeasureIsClean(c, s.clock, k, id, p, roomy);
    }
    forall q | q in s.sent && q.id == id ensures q.phase.Measured? && q.phase.now <= p.from { assert SentBefore(s, q); }
    ReplaceKeeps(c, s, id, w.(phase := p), roomy);
  }

  lemma GiveUpKeeps(c: Settings, s: Fleet, id: nat, roomy: bool)
    requires Inv(c, s, roomy) && id in s.workers && s.workers[id].phase.Measured?
    ensures Inv(c, Next(c, s, GiveUp(id)), roomy)
  {
    assert WorkerInv(c, s.clock, s.keys, id, s.workers[id], roomy);
    ReplaceKeeps(c, s, id, Worker(None, Idle), roomy);
  }

  lemma TakeBaseKeeps(c: Settings, s: Fleet, id: nat, roomy: bool)
    requires Inv(c, s, roomy) && id in s.workers && s.workers[id].phase.Leading?
    ensures Inv(c, Next(c, s, TakeBase(id)), roomy)
  {
    assert WorkerInv(c, s.clock, s.keys, id, s.workers[id], roomy);
    forall q | q in s.sent ensures q.phase.Measured? && q.phase.now <= s.clock { assert SentBefore(s, q); }
    ReplaceKeeps(c, s, id, Rebased(s, s.workers[id]), roomy);
  }

  /** A commit that runs under the lease may, whether it is late or not. */
  lemma RunningMay(c: Settings, s: Fleet, step: Step, p: Phase, roomy: bool)
    requires c.Valid() && Inv(c, s, roomy) && Proper(c, s, step, roomy) && (roomy ==> c.Roomy())
    requires !step.Tick? && Running(s, step) == Some(p) && p.Measured?
    ensures MayCommit(c, s.clock, s.keys, step.id, p, roomy)
  {
    assert WorkerInv(c, s.clock, s.keys, step.id, s.workers[step.id], roomy);
    FreshCountsOnce(p.candidates, p.done, p.now - c.Window());
  }

  lemma TickKeeps(c: Settings, s: Fleet, to: int, roomy: bool)
    requires Inv(c, s, roomy) && s.clock <= to
    ensures Inv(c, s.(clock := to), roomy)
  {
    var next := s.(clock := to);
    forall id | id in s.workers ensures WorkerInv(c, to, s.keys, id, s.workers[id], roomy) {
      assert WorkerInv(c, s.clock, s.keys, id, s.workers[id], roomy);
    }
    forall q | q in s.sent ensures SentBefore(next, q) && SentInv(c, to, s.keys, q.phase, roomy) {
      assert SentBefore(s, q);
    }
  }

  lemma NextKeeps(c: Settings, s: Fleet, step: Step, roomy: bool)
    requires c.Valid() && Inv(c, s, roomy) && Proper(c, s, step, roomy) && (roomy ==> c.Roomy())
    ensures Inv(c, Next(c, s, step), roomy)
  {
    if step.Tick? {
      if step.to >= s.clock { TickKeeps(c, s, step.to, roomy); }
    } else if step.id in s.workers {
      var w := s.workers[step.id];
      assert WorkerInv(c, s.clock, s.keys, step.id, w, roomy);
      match step
      case Acquire(id) => if w.phase.Idle? { LeaseKeeps(c, s, id, w, Acquired(s, id, w), roomy); }
      case Unheard(id) =>
        if !UnderWay(w.phase) {
          LeaseKeeps(c, s, id, w, w, roomy);
          assert s.workers[id := w] == s.workers;
        }
      case Commit(id, seen) =>
        if w.phase.Measured? {
          if Holds(s.keys, id, s.clock) {
            RunningMay(c, s, step, w.phase, roomy);
            CommitKeeps(c, s, id, seen, roomy);
          } else {
            GiveUpKeeps(c, s, id, roomy);
            ReplaceKeeps(c, s, id, Worker(None, Idle), roomy);
          }
        }
      case Late(id, p) =>
        if p.Measured? && Sent(id, p) in s.sent && Holds(s.keys, id, s.clock) {
          RunningMay(c, s, step, p, roomy);
          LateKeeps(c, s, id, p, roomy);
        }
      case TakeBase(id) => if w.phase.Leading? { TakeBaseKeeps(c, s, id, roomy); }
      case Measure(id, now, candidates) =>
        if w.phase.Based? && w.phase.from <= now <= s.clock { MeasureKeeps(c, s, id, now, candidates, roomy); }
      case GiveUp(id) => if w.phase.Measured? { GiveUpKeeps(c, s, id, roomy); }
      case Fail(id) => ReplaceKeeps(c, s, id, w.(phase := Idle), roomy);
      case Restart(id) => ReplaceKeeps(c, s, id, Worker(None, Idle), roomy);
    }
  }

  lemma {:induction false} RunKeeps(c: Settings, s: Fleet, steps: seq<Step>, roomy: bool)
    requires c.Valid() && Initial(s) && ProperRun(c, s, steps, roomy) && (roomy ==> c.Roomy())
    ensures Inv(c, Run(c, s, steps), roomy)
  {
    if steps != [] {
      RunKeeps(c, s, steps[..|steps| - 1], roomy);
      NextKeeps(c, Run(c, s, steps[..|steps| - 1]), steps[|steps| - 1], roomy);
    }
  }

  /** An aggregator that lost its lease changes no key, and forgets its checkpoint. */
  lemma FencedOutChangesNothing(c: Settings, s: Fleet, id: nat, seen: bool)
    requires id in s.workers && s.workers[id].phase.Measured? && !Holds(s.keys, id, s.clock)
    ensures Next(c, s, Commit(id, seen)).keys == s.keys
    ensures Next(c, s, Commit(id, seen)).workers[id] == Worker(None, Idle)
  {
  }

  /**
  Across failed flushes, lost answers, stale memories, handovers and late commits, no
  committed latency window counts a message twice, provided the settings are roomy and no
  span starts in the future, or at each commit the scores have not expired since its base was
  committed; and provided late commits, and those they overtake, read the scores under the
  lease and lower none, and no late lease call grants the lease to a flush under way.
   */
  lemma NoMessageCountedTwice(c: Settings, s: Fleet, steps: seq<Step>, roomy: bool)
    requires c.Valid() && Initial(s) && ProperRun(c, s, steps, roomy) && (roomy ==> c.Roomy())
    ensures var k := Run(c, s, steps).keys; k.version.Some? ==> CountsOnce(c, k.version.value.checkpoint)
  {
    RunKeeps(c, s, steps, roomy);
  }
}
