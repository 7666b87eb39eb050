/** Runs of the fleet aggregator that end where one would not expect. */
module AggregatorCases {
  import opened Options
  import opened LatencyWindow
  import opened Aggregator

  const TWO := Fleet(0, NO_KEYS, map[0 := Worker(None, Idle), 1 := Worker(None, Idle)], {})

  /** One more step of a run from `TWO`. */
  lemma Go(c: Settings, steps: seq<Step>, f: Fleet, step: Step) returns (more: seq<Step>, g: Fleet)
    requires f == Run(c, TWO, steps)
    ensures more == steps + [step] && g == Next(c, f, step) == Run(c, TWO, more)
    ensures ProperRun(c, TWO, steps, true) && Proper(c, f, step, true) ==> ProperRun(c, TWO, more, true)
  {
    more, g := steps + [step], Next(c, f, step);
    assert more[..|steps|] == steps;
  }

  /** What a flush builds on when it leads. */
  function Chosen(f: Fleet, id: nat): Option<Version>
    requires id in f.workers
  {
    if Holds(f.keys, id, f.clock) && f.workers[id].memory.Some? then f.workers[id].memory
    else if Readable(f.keys, f.clock) then f.keys.version else None
  }

  /** A flush takes the lease and its base. */
  lemma Leads(c: Settings, steps: seq<Step>, f: Fleet, id: nat) returns (more: seq<Step>, g: Fleet)
    requires f == Run(c, TWO, steps)
    requires id in f.workers && f.workers[id].phase.Idle? && (Holds(f.keys, id, f.clock) || !Leased(f.keys, f.clock))
    ensures g == Run(c, TWO, more) && (ProperRun(c, TWO, steps, true) ==> ProperRun(c, TWO, more, true))
    ensures g == f.(keys := Renewed(f.keys, id, f.clock),
                    workers := f.workers[id := Worker(None, Based(Chosen(f, id), f.clock))])
  {
    var memory := if Holds(f.keys, id, f.clock) then f.workers[id].memory else None;
    more, g := Go(c, steps, f, Acquire(id));
    assert g == f.(keys := Renewed(f.keys, id, f.clock), workers := f.workers[id := Worker(memory, Leading)]);
    more, g := Go(c, more, g, TakeBase(id));
  }

  function Counting(message: string, started: int): seq<Candidate> { [Candidate(message, started, Some(0.0))] }

  lemma CountingFresh(message: string, started: int, done: set<string>, cutoff: int)
    requires started >= cutoff && message !in done
    ensures Fresh(Counting(message, started), done, cutoff) == [Sample(message, started, 0.0)]
  {
    assert Counting(message, started)[..0] == [];
    assert Fresh([], done, cutoff) == [];
  }

  lemma OneScore(completed: map<string, int>, x: Sample)
    ensures Scores(completed, [x]) == completed[x.message := x.started]
  {
    assert [x][..0] == [];
    assert Scores(completed, []) == completed;
  }

  /** Worker 0 measures at time 0. */
  lemma FirstMeasures(c: Settings, candidates: seq<Candidate>) returns (steps: seq<Step>, f: Fleet)
    ensures f == Run(c, TWO, steps) && f.clock == 0 && f.sent == {}
    ensures f.keys == NO_KEYS.(lease := Some(Lease(0, LEASE)))
    ensures f.workers == TWO.workers[0 := Worker(None, Measured(None, 0, 0, {}, candidates, Owned))]
    ensures (forall x :: x in candidates ==> x.started <= 0) ==> ProperRun(c, TWO, steps, true)
  {
    assert Completed(NO_KEYS, 0).Keys == {};
    steps, f := Go(c, [], TWO, Acquire(0));
    assert f.workers == TWO.workers[0 := Worker(None, Leading)];
    steps, f := Go(c, steps, f, TakeBase(0));
    assert f.workers == TWO.workers[0 := Worker(None, Based(None, 0))];
    steps, f := Go(c, steps, f, Measure(0, 0, candidates));
  }

  /** A flush of worker 0 at time 0 that counts one message. */
  lemma FirstFlush(c: Settings, message: string, started: int) returns (steps: seq<Step>, f: Fleet, v: Version)
    requires c.Valid() && started >= 0
    ensures f == Run(c, TWO, steps) && f.clock == 0 && f.keys.lease == Some(Lease(0, LEASE))
    ensures f.keys.version == Some(v) && f.keys.expires == c.Retention() && f.keys.since == 0 && f.keys.commits == 1
    ensures v.serial == 1 && v.written == 0 && v.checkpoint.samples == [Sample(message, started, 0.0)]
    ensures f.workers == TWO.workers[0 := Worker(Some(v), Idle)] && f.sent == {}
    ensures OnlyScores(f.keys.completed, message, started)
    ensures started <= 0 ==> ProperRun(c, TWO, steps, true)
  {
    steps, f := FirstMeasures(c, Counting(message, started));
    FirstCommits(c, f, message, started);
    steps, f := Go(c, steps, f, Commit(0, true));
    v := f.keys.version.value;
  }

  lemma FirstCommit(c: Settings, k: Keys, p: Phase, message: string, started: int)
    requires c.Valid() && started >= 0 && k == NO_KEYS.(lease := Some(Lease(0, LEASE)))
    requires p == Measured(None, 0, 0, {}, Counting(message, started), Owned)
    ensures var after := CommitScript(c, k, 0, 0, p);
      && after.lease == k.lease && after.expires == c.Retention() && after.since == 0 && after.commits == 1
      && OnlyScores(after.completed, message, started) && after.version.Some?
      && after.version.value == Version(after.version.value.checkpoint, 1, 0)
      && after.version.value.checkpoint.samples == [Sample(message, started, 0.0)]
  {
    Stores(c, k, 0, 0, p);
    FirstPoint(c, k, p, Counting(message, started));
    FirstScores(message, started, 0 - c.Window());
    FirstSamples(c, message, started);
  }

  lemma FirstPoint(c: Settings, k: Keys, p: Phase, candidates: seq<Candidate>)
    requires k.version.None? && p == Measured(None, 0, 0, {}, candidates, Owned)
    ensures Point(c, p) == Aggregate(c, EMPTY, {}, 0, candidates) && Completed(k, 0) == map[]
    ensures Added(c, p) == Fresh(candidates, {}, 0 - c.Window())
  {
    assert BaseOf(p.base) == EMPTY;
  }

  lemma FirstCommits(c: Settings, f: Fleet, message: string, started: int)
    requires c.Valid() && started >= 0 && f.clock == 0 && f.keys == NO_KEYS.(lease := Some(Lease(0, LEASE)))
    requires f.workers == TWO.workers[0 := Worker(None, Measured(None, 0, 0, {}, Counting(message, started), Owned))]
    ensures var g := Next(c, f, Commit(0, true));
      && g.clock == 0 && g.sent == f.sent
      && g.keys.lease == f.keys.lease && g.keys.expires == c.Retention() && g.keys.since == 0
      && g.keys.commits == 1 && OnlyScores(g.keys.completed, message, started) && g.keys.version.Some?
      && g.keys.version.value == Version(g.keys.version.value.checkpoint, 1, 0)
      && g.keys.version.value.checkpoint.samples == [Sample(message, started, 0.0)]
      && g.workers == TWO.workers[0 := Worker(g.keys.version, Idle)]
  {
    var p := f.workers[0].phase;
    FirstCommit(c, f.keys, p, message, started);
    var k, g := CommitScript(c, f.keys, 0, 0, p), Next(c, f, Commit(0, true));
    assert g == Fleet(0, k, f.workers[0 := Worker(k.version, Idle)], f.sent);
  }

  ghost predicate OnlyScores(completed: map<string, int>, message: string, started: int) {
    forall m :: m in completed ==> m == message && completed[m] == started
  }

  lemma FirstScores(message: string, started: int, cutoff: int)
    requires started >= cutoff
    ensures OnlyScores(Pruned(Scores(map[], Fresh(Counting(message, started), {}, cutoff)), cutoff), message, started)
  {
    CountingFresh(message, started, {}, cutoff);
    OneScore(map[], Sample(message, started, 0.0));
  }

  lemma FirstSamples(c: Settings, message: string, started: int)
    requires c.Valid() && started >= 0
    ensures Aggregate(c, EMPTY, {}, 0, Counting(message, started)).samples == [Sample(message, started, 0.0)]
  {
    CountingFresh(message, started, {}, 0 - c.Window());
    assert KeepSamples([], 0 - c.Window()) + [Sample(message, started, 0.0)] == [Sample(message, started, 0.0)];
  }

  /** A flush of worker 1 that takes its base just before the keys expire and measures the
      same message just after. */
  lemma Overrun(c: Settings, m: string, started: int) returns (steps: seq<Step>, q: Checkpoint)
    requires c.Valid() && started >= 0 && started / SECOND * SECOND > c.Retention() + 1 - LEASE - c.Window()
    ensures Run(c, TWO, steps).keys.version.Some? && q == Run(c, TWO, steps).keys.version.value.checkpoint
    ensures var begin := c.Retention() + 1 - LEASE;
      q.at == begin && q.samples == [Sample(m, started, 0.0), Sample(m, begin, 0.0)]
    ensures started <= 0 ==> ProperRun(c, TWO, steps, true)
  {
    var begin := c.Retention() + 1 - LEASE;
    var f, v;
    steps, f, v := OverrunMeasures(c, m, started);
    OverrunCommits(c, f, v, m, started);
    steps, f := Go(c, steps, f, Commit(1, true));
    q := f.keys.version.value.checkpoint;
  }

  lemma OverrunMeasures(c: Settings, m: string, started: int) returns (steps: seq<Step>, f: Fleet, v: Version)
    requires c.Valid() && started >= 0
    ensures f == Run(c, TWO, steps) && f.clock == c.Retention() + 1 && Holds(f.keys, 1, f.clock) && 1 in f.workers
    ensures v.checkpoint.samples == [Sample(m, started, 0.0)]
    ensures var begin := c.Retention() + 1 - LEASE;
      f.workers[1].phase == Measured(Some(v), begin, begin, {}, Counting(m, begin), Owned)
    ensures started <= 0 ==> ProperRun(c, TWO, steps, true)
  {
    var begin := c.Retention() + 1 - LEASE;
    steps, f, v := FirstFlush(c, m, started);
    steps, f := Go(c, steps, f, Tick(begin));
    assert f.workers == TWO.workers[0 := Worker(Some(v), Idle)] && f.clock == begin;
    steps, f := Leads(c, steps, f, 1);
    steps, f := Go(c, steps, f, Tick(c.Retention() + 1));
    assert Completed(f.keys, f.clock).Keys == {};
    steps, f := Go(c, steps, f, Measure(1, begin, Counting(m, begin)));
  }

  lemma OverrunCommits(c: Settings, f: Fleet, v: Version, m: string, started: int)
    requires c.Valid() && Holds(f.keys, 1, f.clock) && 1 in f.workers
    requires v.checkpoint.samples == [Sample(m, started, 0.0)]
    requires var begin := c.Retention() + 1 - LEASE;
      && f.workers[1].phase == Measured(Some(v), begin, begin, {}, Counting(m, begin), Owned)
      && started / SECOND * SECOND > begin - c.Window()
    ensures var begin, k := c.Retention() + 1 - LEASE, Next(c, f, Commit(1, true)).keys;
      && k.version.Some? && k.version.value.checkpoint.at == begin
      && k.version.value.checkpoint.samples == [Sample(m, started, 0.0), Sample(m, begin, 0.0)]
  {
    var p := f.workers[1].phase;
    Stores(c, f.keys, 1, f.clock, p);
    PointHasBoth(c, p, v, m, started, c.Retention() + 1 - LEASE);
    assert Next(c, f, Commit(1, true)).keys == CommitScript(c, f.keys, 1, f.clock, p);
  }

  lemma PointHasBoth(c: Settings, p: Phase, v: Version, m: string, started: int, begin: int)
    requires c.Valid() && v.checkpoint.samples == [Sample(m, started, 0.0)]
    requires p == Measured(Some(v), begin, begin, {}, Counting(m, begin), Owned)
    requires started / SECOND * SECOND > begin - c.Window()
    ensures Point(c, p).at == begin && Point(c, p).samples == [Sample(m, started, 0.0), Sample(m, begin, 0.0)]
  {
    BothSampled(c, v.checkpoint, m, started, begin);
  }

  lemma BothSampled(c: Settings, p: Checkpoint, m: string, started: int, begin: int)
    requires c.Valid() && p.samples == [Sample(m, started, 0.0)] && started / SECOND * SECOND > begin - c.Window()
    ensures var q := Aggregate(c, p, {}, begin, Counting(m, begin));
      q.at == begin && q.samples == [Sample(m, started, 0.0), Sample(m, begin, 0.0)]
  {
    CountingFresh(m, begin, {}, begin - c.Window());
    KeptOne(Sample(m, started, 0.0), begin - c.Window());
  }

  /** The old and the new sample of one message in one window. */
  lemma CountedTwice(c: Settings, q: Checkpoint, x: Sample, y: Sample)
    requires c.Valid() && q.samples == [x, y] && q.at == y.started && x.message == y.message
    requires x.Second() * SECOND > y.started - c.Window()
    ensures !CountsOnce(c, q)
  {
    BeginsInWindow(c, y);
    BothInWindow(x, y, q.at - c.Window());
    assert [x, y][0].message == [x, y][1].message;
  }

  lemma BeginsInWindow(c: Settings, y: Sample)
    requires c.Valid()
    ensures y.Second() * SECOND > y.started - c.Window()
  {
    assert y.Second() * SECOND > y.started - SECOND;
  }

  lemma KeptOne(x: Sample, cutoff: int)
    requires x.Second() * SECOND >= cutoff
    ensures KeepSamples([x], cutoff) == [x]
  {
    assert [x][..0] == [] && KeepSamples([], cutoff) == [];
  }

  lemma BothInWindow(x: Sample, y: Sample, cutoff: int)
    requires x.Second() * SECOND > cutoff && y.Second() * SECOND > cutoff
    ensures Window([x, y], cutoff) == [x, y]
  {
    assert Window([], cutoff) == [] && [x, y][..1] == [x] && [x][..0] == [];
    assert Window([x], cutoff) == [x];
  }

  /** Settings that are not roomy count a message twice in some run of past spans: the
      condition on the settings is exact. */
  lemma CrampedSettingsCountTwice(c: Settings, m: string) returns (steps: seq<Step>)
    requires c.Valid() && !c.Roomy()
    ensures Initial(TWO) && ProperRun(c, TWO, steps, true)
    ensures var k := Run(c, TWO, steps).keys; k.version.Some? && !CountsOnce(c, k.version.value.checkpoint)
  {
    var q;
    steps, q := Overrun(c, m, 0);
    CountedTwice(c, q, Sample(m, 0, 0.0), Sample(m, c.Retention() + 1 - LEASE, 0.0));
  }

  /** With spans from the future, roomy settings count a message twice as well. */
  lemma FutureSpansCountTwice(c: Settings, m: string) returns (steps: seq<Step>)
    requires c.Valid()
    ensures Initial(TWO)
    ensures var k := Run(c, TWO, steps).keys; k.version.Some? && !CountsOnce(c, k.version.value.checkpoint)
  {
    var begin := c.Retention() + 1 - LEASE;
    BeginsInWindow(c, Sample(m, begin, 0.0));
    var q;
    steps, q := Overrun(c, m, begin);
    CountedTwice(c, q, Sample(m, begin, 0.0), Sample(m, begin, 0.0));
  }

  /** Worker 0 commits, and after its lease lapsed worker 1 measures another message. */
  lemma SecondMeasures(c: Settings, a: string, b: string) returns (steps: seq<Step>, f: Fleet, first: Version)
    requires c.Valid() && a != b
    ensures f == Run(c, TWO, steps) && f.clock == LEASE + 1 && Holds(f.keys, 1, f.clock)
    ensures f.keys.lease == Some(Lease(1, 2 * LEASE + 1)) && Readable(f.keys, f.clock)
    ensures first.checkpoint.samples == [Sample(a, 0, 0.0)] && first.serial == 1 && f.keys.commits == 1
    ensures 0 in f.workers && f.workers[0] == Worker(Some(first), Idle) && 1 in f.workers
    ensures b !in f.keys.completed && f.workers[1].phase
      == Measured(Some(first), LEASE + 1, LEASE + 1, f.keys.completed.Keys, Counting(b, LEASE + 1), Owned)
  {
    var later := LEASE + 1;
    steps, f, first := FirstFlush(c, a, 0);
    assert b !in f.keys.completed;
    steps, f := Go(c, steps, f, Tick(later));
    assert f.workers == TWO.workers[0 := Worker(Some(first), Idle)] && f.clock == later;
    steps, f := Leads(c, steps, f, 1);
    steps, f := Go(c, steps, f, Measure(1, later, Counting(b, later)));
  }

  /** Worker 1 commits that message; its lease lapses too. */
  lemma Handover(c: Settings, a: string, b: string)
    returns (steps: seq<Step>, f: Fleet, first: Version, second: Version)
    requires c.Valid() && a != b
    ensures f == Run(c, TWO, steps) && f.clock == 2 * LEASE + 2 && !Leased(f.keys, f.clock)
    ensures f.keys.version == Some(second) && f.keys.expires == LEASE + 1 + c.Retention()
    ensures first.checkpoint.samples == [Sample(a, 0, 0.0)] && first.serial == 1 && second.serial == 2
    ensures b in f.keys.completed && f.keys.completed[b] == LEASE + 1
    ensures 0 in f.workers && f.workers[0] == Worker(Some(first), Idle)
  {
    steps, f, first := SecondMeasures(c, a, b);
    SecondCommits(c, f, first, LEASE + 1, b);
    steps, f := Go(c, steps, f, Commit(1, true));
    second := f.keys.version.value;
    steps, f := Go(c, steps, f, Tick(2 * LEASE + 2));
  }

  lemma SecondCommits(c: Settings, f: Fleet, first: Version, at: int, b: string)
    requires c.Valid() && f.clock == at && Holds(f.keys, 1, at) && Readable(f.keys, at) && f.keys.commits == 1
    requires 0 in f.workers && f.workers[0] == Worker(Some(first), Idle) && 1 in f.workers && b !in f.keys.completed
    requires f.workers[1].phase == Measured(Some(first), at, at, f.keys.completed.Keys, Counting(b, at), Owned)
    ensures var g := Next(c, f, Commit(1, true));
      && g.clock == at && g.keys.lease == f.keys.lease && g.keys.expires == at + c.Retention()
      && g.keys.version.Some? && g.keys.version.value.serial == 2 && Scored(g.keys.completed, b, at)
      && 0 in g.workers && g.workers[0] == Worker(Some(first), Idle)
  {
    CommitScores(c, f.keys, 1, at, f.workers[1].phase, b);
    var k, g := CommitScript(c, f.keys, 1, at, f.workers[1].phase), Next(c, f, Commit(1, true));
    assert g == Fleet(at, k, f.workers[1 := Worker(k.version, Idle)], f.sent);
  }

  /** A message counted now is scored with its time. */
  lemma ScoredOnce(completed: map<string, int>, message: string, at: int, cutoff: int)
    requires message !in completed && cutoff < at
    ensures Scored(Pruned(Scores(completed, Fresh(Counting(message, at), completed.Keys, cutoff)), cutoff), message, at)
  {
    CountingFresh(message, at, completed.Keys, cutoff);
    OneScore(completed, Sample(message, at, 0.0));
  }

  lemma CommitScores(c: Settings, k: Keys, id: nat, at: int, p: Phase, message: string)
    requires c.Valid() && Holds(k, id, at) && Readable(k, at) && message !in k.completed
    requires p.Measured? && p.now == at && p.done == k.completed.Keys && p.candidates == Counting(message, at)
    ensures var after := CommitScript(c, k, id, at, p);
      && Scored(after.completed, message, at)
      && after.lease == k.lease && after.expires == at + c.Retention()
      && after.version.Some? && after.version.value.serial == k.commits + 1
  {
    ScoredOnce(k.completed, message, at, at - c.Window());
  }

  /**
  A grant whose answer is lost: worker 0 flushes from its own old checkpoint although worker
  1 has committed since.  Its commit drops what worker 1 counted, and as the message is
  scored it is never counted again while it is in the window.
   */
  lemma LostGrantDropsCounts(c: Settings, a: string, b: string)
    returns (steps: seq<Step>, first: Version, second: Version)
    requires c.Valid() && c.windowSeconds > 10 && a != b
    ensures Initial(TWO) && first != second
    ensures var based := Run(c, TWO, steps + [Unheard(0), Acquire(0), TakeBase(0)]);
      && Holds(based.keys, 0, based.clock) && based.keys.version == Some(second)
      && 0 in based.workers && based.workers[0].phase == Based(Some(first), based.clock)
    ensures var flush := [Unheard(0), Acquire(0), TakeBase(0), Measure(0, 2 * LEASE + 2, []), Commit(0, true)];
      var k := Run(c, TWO, steps + flush).keys;
      && k.version.Some? && !Counted(k.version.value.checkpoint.samples, b)
      && b in k.completed && k.completed[b] > k.version.value.checkpoint.at - c.Window()
  {
    var f, s, g;
    steps, f, first, second := Handover(c, a, b);
    s, g := LostGrant(c, steps, f, first);
    var now := 2 * LEASE + 2;
    s, g := Go(c, s, g, Measure(0, now, []));
    assert g.workers[0].phase == Measured(Some(first), now, now, g.keys.completed.Keys, [], Owned);
    StaleCommits(c, g, first, a, b);
    s, g := Go(c, s, g, Commit(0, true));
    assert s == steps + [Unheard(0), Acquire(0), TakeBase(0), Measure(0, now, []), Commit(0, true)];
  }

  /** After an unheard grant worker 0 takes its memory as its base. */
  lemma LostGrant(c: Settings, steps: seq<Step>, f: Fleet, first: Version) returns (more: seq<Step>, g: Fleet)
    requires f == Run(c, TWO, steps) && !Leased(f.keys, f.clock)
    requires 0 in f.workers && f.workers[0] == Worker(Some(first), Idle)
    ensures more == steps + [Unheard(0), Acquire(0), TakeBase(0)] && g == Run(c, TWO, more)
    ensures g.clock == f.clock && g.keys == Renewed(f.keys, 0, f.clock)
    ensures 0 in g.workers && g.workers[0] == Worker(None, Based(Some(first), f.clock))
  {
    more, g := Go(c, steps, f, Unheard(0));
    assert g.workers == f.workers && g.keys == Renewed(f.keys, 0, f.clock);
    more, g := Go(c, more, g, Acquire(0));
    assert g.workers[0] == Worker(Some(first), Leading) && g.keys == Renewed(f.keys, 0, f.clock);
    more, g := Go(c, more, g, TakeBase(0));
  }

  lemma StaleCommits(c: Settings, f: Fleet, first: Version, a: string, b: string)
    requires c.windowSeconds > 10 && a != b && f.clock == 2 * LEASE + 2 && 0 in f.workers
    requires f.workers[0].phase == Measured(Some(first), f.clock, f.clock, f.keys.completed.Keys, [], Owned)
    requires first.checkpoint.samples == [Sample(a, 0, 0.0)]
    requires Holds(f.keys, 0, f.clock) && Readable(f.keys, f.clock)
    requires b in f.keys.completed && f.keys.completed[b] == LEASE + 1
    ensures var k := Next(c, f, Commit(0, true)).keys;
      && k.version.Some? && !Counted(k.version.value.checkpoint.samples, b)
      && b in k.completed && k.completed[b] == LEASE + 1
      && k.version.value.checkpoint.at == 2 * LEASE + 2
  {
    StaleCommit(c, f.keys, f.workers[0].phase, first, a, b);
    assert Next(c, f, Commit(0, true)).keys == CommitScript(c, f.keys, 0, f.clock, f.workers[0].phase);
  }

  /** What such a commit stores. */
  lemma StaleCommit(c: Settings, k: Keys, p: Phase, first: Version, a: string, b: string)
    requires p == Measured(Some(first), 2 * LEASE + 2, 2 * LEASE + 2, k.completed.Keys, [], Owned)
    requires c.windowSeconds > 10 && a != b
    requires first.checkpoint.samples == [Sample(a, 0, 0.0)]
    requires Holds(k, 0, 2 * LEASE + 2) && Readable(k, 2 * LEASE + 2)
    requires b in k.completed && k.completed[b] == LEASE + 1
    ensures var after := CommitScript(c, k, 0, 2 * LEASE + 2, p);
      && after.version.Some? && !Counted(after.version.value.checkpoint.samples, b)
      && b in after.completed && after.completed[b] == LEASE + 1
      && after.version.value.checkpoint.at == 2 * LEASE + 2
  {
    var cutoff := 2 * LEASE + 2 - c.Window();
    assert Fresh([], p.done, cutoff) == [] && Scores(k.completed, []) == k.completed;
    assert KeepSamples(first.checkpoint.samples, cutoff) + [] == KeepSamples(first.checkpoint.samples, cutoff);
    assert forall x :: x in KeepSamples(first.checkpoint.samples, cutoff) ==> x.message == a;
  }
}
