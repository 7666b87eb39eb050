/** Scripts that run after their caller gave up: why each condition on them is needed. */
module AggregatorLate {
  import opened Options
  import opened LatencyWindow
  import opened Aggregator
  import opened AggregatorCases

  /** A run with past spans that is proper, except perhaps at step `late`. */
  ghost predicate ProperBut(c: Settings, steps: seq<Step>, late: int) {
    steps == [] || (
      && ProperBut(c, steps[..|steps| - 1], late)
      && (|steps| - 1 == late || Proper(c, Run(c, TWO, steps[..|steps| - 1]), steps[|steps| - 1], true)))
  }

  /** One more step of such a run. */
  lemma On(c: Settings, steps: seq<Step>, f: Fleet, step: Step, late: int) returns (more: seq<Step>, g: Fleet)
    requires f == Run(c, TWO, steps) && ProperBut(c, steps, late)
    requires |steps| == late || Proper(c, f, step, true)
    ensures more == steps + [step] && g == Next(c, f, step) == Run(c, TWO, more) && ProperBut(c, more, late)
  {
    more, g := steps + [step], Next(c, f, step);
    assert more[..|steps|] == steps;
  }

  lemma {:induction false} Without(c: Settings, steps: seq<Step>, late: int)
    requires ProperRun(c, TWO, steps, true) || ProperBut(c, steps, -1)
    ensures ProperBut(c, steps, late)
  {
    if steps != [] { Without(c, steps[..|steps| - 1], late); }
  }

  function Measuring(f: Fleet, id: nat, candidates: seq<Candidate>): Phase
    requires id in f.workers
  {
    Measured(Chosen(f, id), f.clock, f.clock, Completed(f.keys, f.clock).Keys, candidates, Owned)
  }

  lemma FlushLeads(c: Settings, steps: seq<Step>, f: Fleet, id: nat, late: int) returns (more: seq<Step>, g: Fleet)
    requires f == Run(c, TWO, steps) && ProperBut(c, steps, late)
    requires id in f.workers && f.workers[id].phase.Idle? && (Holds(f.keys, id, f.clock) || !Leased(f.keys, f.clock))
    ensures g == Run(c, TWO, more) && ProperBut(c, more, late) && steps <= more
    ensures g == f.(keys := Renewed(f.keys, id, f.clock),
                    workers := f.workers[id := Worker(None, Based(Chosen(f, id), f.clock))])
  {
    var memory := if Holds(f.keys, id, f.clock) then f.workers[id].memory else None;
    more, g := On(c, steps, f, Acquire(id), late);
    assert g == f.(keys := Renewed(f.keys, id, f.clock), workers := f.workers[id := Worker(memory, Leading)]);
    more, g := On(c, more, g, TakeBase(id), late);
  }

  /** An undisturbed flush, up to its commit. */
  lemma FlushMeasures(c: Settings, steps: seq<Step>, f: Fleet, id: nat, candidates: seq<Candidate>, late: int)
    returns (more: seq<Step>, g: Fleet)
    requires f == Run(c, TWO, steps) && ProperBut(c, steps, late)
    requires id in f.workers && f.workers[id].phase.Idle? && (Holds(f.keys, id, f.clock) || !Leased(f.keys, f.clock))
    requires forall x :: x in candidates ==> x.started <= f.clock
    ensures g == Run(c, TWO, more) && ProperBut(c, more, late) && steps <= more
    ensures g == f.(keys := Renewed(f.keys, id, f.clock),
                    workers := f.workers[id := Worker(None, Measuring(f, id, candidates))])
  {
    more, g := FlushLeads(c, steps, f, id, late);
    more, g := On(c, more, g, Measure(id, f.clock, candidates), late);
  }

  lemma FlushCommits(c: Settings, steps: seq<Step>, f: Fleet, id: nat, candidates: seq<Candidate>, late: int)
    returns (more: seq<Step>, g: Fleet)
    requires f == Run(c, TWO, steps) && ProperBut(c, steps, late)
    requires id in f.workers && f.workers[id].phase.Idle? && (Holds(f.keys, id, f.clock) || !Leased(f.keys, f.clock))
    requires forall x :: x in candidates ==> x.started <= f.clock
    ensures g == Run(c, TWO, more) && ProperBut(c, more, late) && steps <= more
    ensures g.clock == f.clock && g.sent == f.sent && g.workers == f.workers[id := Worker(g.keys.version, Idle)]
    ensures g.keys == CommitScript(c, Renewed(f.keys, id, f.clock), id, f.clock, Measuring(f, id, candidates))
  {
    more, g := FlushMeasures(c, steps, f, id, candidates, late);
    more, g := On(c, more, g, Commit(id, true), late);
  }

  /** A commit that counts nothing keeps the samples of its window and drops the scores before it. */
  lemma StoresNothingNew(c: Settings, k: Keys, id: nat, clock: int, p: Phase, m: string, started: int)
    requires p.Measured? && p.candidates == [] && Holds(k, id, clock)
    requires OnlyScores(Completed(k, clock), m, started) && started <= p.now - c.Window()
    ensures CommitScript(c, k, id, clock, p).completed == map[]
    ensures Point(c, p).samples == KeepSamples(BaseOf(p.base).samples, p.now - c.Window())
  {
    Stores(c, k, id, clock, p);
    assert Added(c, p) == [] && Scores(Completed(k, clock), []) == Completed(k, clock);
  }

  lemma OneLeft(completed: map<string, int>, m: string, was: int, started: int, cutoff: int)
    requires OnlyScores(completed, m, was) && cutoff < started
    ensures Pruned(Scores(completed, [Sample(m, started, 0.0)]), cutoff) == map[m := started]
  {
    OneScore(completed, Sample(m, started, 0.0));
  }

  lemma AddsOne(c: Settings, p: Phase, m: string, started: int)
    requires p.Measured? && p.candidates == Counting(m, started) && m !in p.done && p.now - c.Window() < started
    ensures Added(c, p) == [Sample(m, started, 0.0)]
  {
    CountingFresh(m, started, p.done, p.now - c.Window());
  }

  /** A commit that counts one message which it did not see completed. */
  lemma StoresOne(c: Settings, k: Keys, id: nat, clock: int, p: Phase, m: string, was: int, started: int)
    requires p.Measured? && p.candidates == Counting(m, started) && m !in p.done && Holds(k, id, clock)
    requires OnlyScores(Completed(k, clock), m, was) && p.now - c.Window() < started
    ensures CommitScript(c, k, id, clock, p).completed == map[m := started]
    ensures Added(c, p) == [Sample(m, started, 0.0)]
  {
    AddsOne(c, p, m, started);
    Stores(c, k, id, clock, p);
    OneLeft(Completed(k, clock), m, was, started, p.now - c.Window());
  }

  // ----- a late commit that did not read the scores under the lease -----

  lemma Stalled(c: Settings, m: string) returns (steps: seq<Step>, f: Fleet, v: Version)
    requires c.Valid() && c.Roomy()
    ensures f == Run(c, TWO, steps) && ProperBut(c, steps, -1) && f.clock == c.Window() + LEASE
    ensures f.workers == TWO.workers[0 := Worker(None, Based(Some(v), 0))]
    ensures v.checkpoint.samples == [Sample(m, 0, 0.0)] && f.keys.lease == Some(Lease(0, LEASE))
    ensures Readable(f.keys, f.clock) && OnlyScores(f.keys.completed, m, 0)
  {
    steps, f, v := FirstFlush(c, m, 0);
    Without(c, steps, -1);
    steps, f := FlushLeads(c, steps, f, 0, -1);
    steps, f := On(c, steps, f, Tick(c.Window() + LEASE), -1);
  }

  /** Worker 0 counts a message and begins another flush; worker 1 takes over a window later
      and its commit drops the score, so that worker 0 finds the message uncounted. */
  lemma StaleReading(c: Settings, m: string) returns (steps: seq<Step>, f: Fleet, p: Phase)
    requires c.Valid() && c.Roomy()
    ensures f == Run(c, TWO, steps) && ProperBut(c, steps, -1)
    ensures 0 in f.workers && f.workers[0] == Worker(None, p)
    ensures p.Measured? && p.base.Some? && p.base.value.checkpoint.samples == [Sample(m, 0, 0.0)]
    ensures p == Measured(p.base, 0, 0, {}, Counting(m, 0), Unowned)
    ensures f.keys.completed == map[] && f.keys.lease == Some(Lease(1, c.Window() + 2 * LEASE))
    ensures f.clock == c.Window() + LEASE
  {
    var v;
    steps, f, v := Stalled(c, m);
    StoresNothingNew(c, Renewed(f.keys, 1, f.clock), 1, f.clock, Measuring(f, 1, []), m, 0);
    var g := f;
    steps, f := FlushCommits(c, steps, f, 1, [], -1);
    Stores(c, Renewed(g.keys, 1, g.clock), 1, g.clock, Measuring(g, 1, []));
    steps, f := On(c, steps, f, Measure(0, 0, Counting(m, 0)), -1);
    p := f.workers[0].phase;
  }

  lemma LeadsAgain(c: Settings, m: string) returns (steps: seq<Step>, f: Fleet, p: Phase)
    requires c.Valid() && c.Roomy()
    ensures f == Run(c, TWO, steps) && ProperBut(c, steps, -1)
    ensures 0 in f.workers && Holds(f.keys, 0, f.clock) && Sent(0, p) in f.sent && f.keys.completed == map[]
    ensures p.Measured? && p.base.Some? && p.base.value.checkpoint.samples == [Sample(m, 0, 0.0)]
    ensures p == Measured(p.base, 0, 0, {}, Counting(m, 0), Unowned)
  {
    steps, f, p := StaleReading(c, m);
    steps, f := On(c, steps, f, GiveUp(0), -1);
    assert Sent(0, p) in f.sent && f.workers[0] == Worker(None, Idle);
    steps, f := On(c, steps, f, Tick(c.Window() + 2 * LEASE + 1), -1);
    steps, f := On(c, steps, f, Acquire(0), -1);
  }

  lemma PointCountsTwice(c: Settings, p: Phase, m: string, begin: int)
    requires c.Valid() && p.Measured? && p.base.Some? && p.base.value.checkpoint.samples == [Sample(m, 0, 0.0)]
    requires p == Measured(p.base, begin, begin, {}, Counting(m, begin), Unowned) && begin < c.Window()
    ensures !CountsOnce(c, Point(c, p))
  {
    BothSampled(c, p.base.value.checkpoint, m, 0, begin);
    CountedTwice(c, Point(c, p), Sample(m, 0, 0.0), Sample(m, begin, 0.0));
  }

  /** Run when worker 0 leads again, its commit counts that message twice, although it lowers
      no score, every step before it is proper and the settings are roomy. */
  lemma UnownedReadingCountsTwice(c: Settings, m: string) returns (steps: seq<Step>, p: Phase)
    requires c.Valid() && c.Roomy()
    ensures Initial(TWO) && ProperBut(c, steps, |steps|)
    ensures var f, g := Run(c, TWO, steps), Next(c, Run(c, TWO, steps), Late(0, p));
      && Running(f, Late(0, p)) == Some(p) && p.Measured?
      && p.reading.Unowned? && Raises(Completed(f.keys, f.clock), Added(c, p))
      && g.keys.version.Some? && !CountsOnce(c, g.keys.version.value.checkpoint)
  {
    var f;
    steps, f, p := LeadsAgain(c, m);
    Without(c, steps, |steps|);
    Stores(c, f.keys, 0, f.clock, p);
    PointCountsTwice(c, p, m, 0);
    RunsLate(c, f, 0, p);
  }

  lemma RunsLate(c: Settings, f: Fleet, id: nat, p: Phase)
    requires p.Measured? && id in f.workers && Holds(f.keys, id, f.clock) && Sent(id, p) in f.sent
    ensures Running(f, Late(id, p)) == Some(p)
    ensures Next(c, f, Late(id, p)).keys == CommitScript(c, f.keys, id, f.clock, p)
    ensures f.keys.completed == map[] ==> Raises(Completed(f.keys, f.clock), Added(c, p))
  {
  }

  // ----- a late commit that lowers a score -----

  /** A flush that finds no checkpoint counts one message. */
  lemma CountsFirst(c: Settings, k: Keys, clock: int, p: Phase, m: string)
    requires c.Valid() && Holds(k, 0, clock) && k.version.None?
    requires p == Measured(None, clock, clock, {}, Counting(m, clock), Owned)
    ensures var after := CommitScript(c, k, 0, clock, p);
      && after.lease == k.lease && after.expires == clock + c.Retention() && after.completed == map[m := clock]
      && after.version.Some? && after.version.value.checkpoint.samples == [Sample(m, clock, 0.0)]
  {
    StoresOne(c, k, 0, clock, p, m, 0, clock);
    Stores(c, k, 0, clock, p);
    FirstSample(c, p, m);
  }

  lemma FirstSample(c: Settings, p: Phase, m: string)
    requires p.Measured? && p.base.None? && Added(c, p) == [Sample(m, p.now, 0.0)]
    ensures Point(c, p).samples == [Sample(m, p.now, 0.0)]
  {
    assert KeepSamples([], p.now - c.Window()) == [];
  }

  lemma GivenUp(c: Settings, m: string) returns (steps: seq<Step>, f: Fleet, p: Phase)
    requires c.Valid()
    ensures f == Run(c, TWO, steps) && ProperBut(c, steps, -1)
    ensures p == Measured(None, 0, 0, {}, Counting(m, 0), Owned) && Sent(0, p) in f.sent
    ensures f.clock == c.Window() - SECOND && f.workers == TWO.workers
    ensures f.keys == NO_KEYS.(lease := Some(Lease(0, LEASE)))
  {
    steps, f := FirstMeasures(c, Counting(m, 0));
    p := f.workers[0].phase;
    Without(c, steps, -1);
    steps, f := On(c, steps, f, GiveUp(0), -1);
    assert f.workers == TWO.workers && Sent(0, p) in f.sent;
    steps, f := On(c, steps, f, Tick(c.Window() - SECOND), -1);
  }

  /** Worker 0 gives up a flush that counts a message, and in the next counts a later span of
      that message, a second before the window of the first has passed. */
  lemma CountedLater(c: Settings, m: string) returns (steps: seq<Step>, f: Fleet, p: Phase, v: Version)
    requires c.Valid()
    ensures f == Run(c, TWO, steps) && ProperBut(c, steps, -1)
    ensures p == Measured(None, 0, 0, {}, Counting(m, 0), Owned) && Sent(0, p) in f.sent
    ensures f.clock == c.Window() - SECOND && Holds(f.keys, 0, f.clock) && Readable(f.keys, f.clock)
    ensures f.keys.lease == Some(Lease(0, f.clock + LEASE)) && f.keys.completed == map[m := f.clock]
    ensures f.workers == TWO.workers[0 := Worker(Some(v), Idle)]
    ensures v.checkpoint.samples == [Sample(m, f.clock, 0.0)]
  {
    steps, f, p := GivenUp(c, m);
    CountsFirst(c, Renewed(f.keys, 0, f.clock), f.clock, Measuring(f, 0, Counting(m, f.clock)), m);
    steps, f := FlushCommits(c, steps, f, 0, Counting(m, f.clock), -1);
    v := f.keys.version.value;
  }

  /** Step `late` runs a commit that read the scores under the lease and lowers one of them. */
  ghost predicate LowersAt(c: Settings, steps: seq<Step>, late: nat, p: Phase) {
    && late < |steps| && steps[late] == Late(0, p)
    && var f := Run(c, TWO, steps[..late]);
    && Running(f, Late(0, p)) == Some(p) && p.Measured? && p.reading.Owned?
    && !Raises(Completed(f.keys, f.clock), Added(c, p))
  }

  lemma LowersStill(c: Settings, steps: seq<Step>, more: seq<Step>, late: nat, p: Phase)
    requires LowersAt(c, steps, late, p) && steps <= more
    ensures LowersAt(c, more, late, p)
  {
    assert more[..late] == steps[..late];
  }

  /** The given-up commit runs, and lowers the score. */
  lemma Lowered(c: Settings, m: string) returns (steps: seq<Step>, late: nat, f: Fleet, p: Phase, v: Version)
    requires c.Valid()
    ensures f == Run(c, TWO, steps) && ProperBut(c, steps, late) && LowersAt(c, steps, late, p)
    ensures f.clock == c.Window() - SECOND && Readable(f.keys, f.clock) && f.keys.expires == f.clock + c.Retention()
    ensures f.keys.lease == Some(Lease(0, f.clock + LEASE)) && f.keys.completed == map[m := 0]
    ensures f.workers == TWO.workers[0 := Worker(Some(v), Idle)]
    ensures v.checkpoint.samples == [Sample(m, f.clock, 0.0)]
  {
    var g;
    steps, g, p, v := CountedLater(c, m);
    late := |steps|;
    Without(c, steps, late);
    LowersScore(c, g.keys, g.clock, p, m);
    RunsLate(c, g, 0, p);
    var before := steps;
    steps, f := On(c, steps, g, Late(0, p), late);
    assert steps[..late] == before;
  }

  lemma LowersScore(c: Settings, k: Keys, clock: int, p: Phase, m: string)
    requires c.Valid() && p == Measured(None, 0, 0, {}, Counting(m, 0), Owned) && 0 < clock
    requires Holds(k, 0, clock) && Readable(k, clock) && k.completed == map[m := clock]
    ensures var after := CommitScript(c, k, 0, clock, p);
      && after.lease == k.lease && after.completed == map[m := 0] && after.expires == clock + c.Retention()
      && after.version.Some? && !Raises(Completed(k, clock), Added(c, p))
  {
    StoresOne(c, k, 0, clock, p, m, clock, 0);
    Stores(c, k, 0, clock, p);
    assert Added(c, p)[0] in Added(c, p);
  }

  /** A flush at the end of the first window keeps the later sample but not its lowered score. */
  lemma Forgets(c: Settings, f: Fleet, v: Version, m: string)
    requires c.Valid() && f.clock == c.Window() && Holds(f.keys, 0, f.clock)
    requires 0 in f.workers && f.workers[0] == Worker(Some(v), Idle) && f.keys.completed == map[m := 0]
    requires v.checkpoint.samples == [Sample(m, c.Window() - SECOND, 0.0)]
    ensures var after := CommitScript(c, Renewed(f.keys, 0, f.clock), 0, f.clock, Measuring(f, 0, []));
      && after.version.Some? && after.version.value.checkpoint.samples == v.checkpoint.samples
      && after.completed == map[] && after.lease == Some(Lease(0, f.clock + LEASE))
  {
    var k, q := Renewed(f.keys, 0, f.clock), Measuring(f, 0, []);
    StoresNothingNew(c, k, 0, f.clock, q, m, 0);
    Stores(c, k, 0, f.clock, q);
    KeptOne(Sample(m, c.Window() - SECOND, 0.0), 0);
  }

  /** A window after its first span the message is forgotten, although its second is counted. */
  lemma Forgotten(c: Settings, m: string) returns (steps: seq<Step>, late: nat, f: Fleet, p: Phase, v: Version)
    requires c.Valid()
    ensures f == Run(c, TWO, steps) && ProperBut(c, steps, late)
    ensures LowersAt(c, steps, late, p)
    ensures f.clock == c.Window() && Holds(f.keys, 0, f.clock) && f.keys.completed == map[]
    ensures f.workers == TWO.workers[0 := Worker(Some(v), Idle)]
    ensures v.checkpoint.samples == [Sample(m, c.Window() - SECOND, 0.0)]
  {
    var first;
    steps, late, f, p, first := Lowered(c, m);
    var before := steps;
    steps, f := On(c, steps, f, Tick(c.Window()), late);
    Forgets(c, f, first, m);
    steps, f := FlushCommits(c, steps, f, 0, [], late);
    LowersStill(c, before, steps, late, p);
    v := f.keys.version.value;
  }

  lemma CountsAgain(c: Settings, f: Fleet, v: Version, m: string)
    requires c.Valid() && f.clock == c.Window() && Holds(f.keys, 0, f.clock) && f.keys.completed == map[]
    requires 0 in f.workers && f.workers[0] == Worker(Some(v), Idle)
    requires v.checkpoint.samples == [Sample(m, c.Window() - SECOND, 0.0)]
    ensures var k, q := Renewed(f.keys, 0, f.clock), Measuring(f, 0, Counting(m, f.clock));
      var after := CommitScript(c, k, 0, f.clock, q);
      after.version.Some? && !CountsOnce(c, after.version.value.checkpoint)
  {
    var k, q := Renewed(f.keys, 0, f.clock), Measuring(f, 0, Counting(m, f.clock));
    Stores(c, k, 0, f.clock, q);
    assert q.done == {} && q.base == Some(v);
    BothSampled(c, v.checkpoint, m, c.Window() - SECOND, c.Window());
    CountedTwice(c, Point(c, q), Sample(m, c.Window() - SECOND, 0.0), Sample(m, c.Window(), 0.0));
  }

  /** So a third span counts it again: the only step that is not proper is the late commit, and
      that only because it lowers a score. */
  lemma LoweredScoreCountsTwice(c: Settings, m: string) returns (steps: seq<Step>, late: nat, p: Phase)
    requires c.Valid()
    ensures Initial(TWO) && ProperBut(c, steps, late) && LowersAt(c, steps, late, p)
    ensures var k := Run(c, TWO, steps).keys; k.version.Some? && !CountsOnce(c, k.version.value.checkpoint)
  {
    var f, v;
    steps, late, f, p, v := Forgotten(c, m);
    CountsAgain(c, f, v, m);
    var before := steps;
    steps, f := FlushCommits(c, steps, f, 0, Counting(m, f.clock), late);
    LowersStill(c, before, steps, late, p);
  }

  // ----- a late lease call -----

  lemma Begun(c: Settings, m: string) returns (steps: seq<Step>, f: Fleet, v: Version)
    requires c.Valid() && c.Roomy()
    ensures f == Run(c, TWO, steps) && ProperBut(c, steps, -1) && f.keys.expires == c.Retention()
    ensures v.checkpoint.samples == [Sample(m, 0, 0.0)] && f.clock == c.Window() - SECOND
    ensures 0 in f.workers && f.workers[0] == Worker(None, Based(Some(v), f.clock))
    ensures f.keys.lease == Some(Lease(0, f.clock + LEASE))
  {
    steps, f, v := FirstFlush(c, m, 0);
    Without(c, steps, -1);
    steps, f := On(c, steps, f, Tick(c.Window() - SECOND), -1);
    steps, f := FlushLeads(c, steps, f, 0, -1);
  }

  /** Worker 0 takes its base and measures again after the keys and its lease have expired. */
  lemma Expired(c: Settings, m: string) returns (steps: seq<Step>, f: Fleet, v: Version)
    requires c.Valid() && c.Roomy()
    ensures f == Run(c, TWO, steps) && ProperBut(c, steps, -1) && !Leased(f.keys, f.clock)
    ensures v.checkpoint.samples == [Sample(m, 0, 0.0)] && 0 in f.workers
    ensures var begin := c.Window() - SECOND;
      f.workers[0] == Worker(None, Measured(Some(v), begin, begin, {}, Counting(m, begin), Unowned))
  {
    var begin := c.Window() - SECOND;
    steps, f, v := Begun(c, m);
    steps, f := On(c, steps, f, Tick(c.Retention() + 1), -1);
    assert Completed(f.keys, f.clock).Keys == {} && !Leased(f.keys, f.clock);
    steps, f := On(c, steps, f, Measure(0, begin, Counting(m, begin)), -1);
  }

  /** If now a lease call of an earlier flush runs, the commit is let through and counts the
      message twice: the only step that is not proper is that call. */
  lemma LateGrantCountsTwice(c: Settings, m: string) returns (steps: seq<Step>, late: nat)
    requires c.Valid() && c.Roomy()
    ensures Initial(TWO) && ProperBut(c, steps, late) && late < |steps| && steps[late] == Unheard(0)
    ensures var k := Run(c, TWO, steps).keys; k.version.Some? && !CountsOnce(c, k.version.value.checkpoint)
  {
    var f, p;
    steps, late, f, p := GrantedLate(c, m);
    PointCountsTwice(c, p, m, c.Window() - SECOND);
    CommitStores(c, f, 0);
    steps, f := On(c, steps, f, Commit(0, true), late);
  }

  /** The late lease call lets the flush under way commit. */
  lemma GrantedLate(c: Settings, m: string) returns (steps: seq<Step>, late: nat, f: Fleet, p: Phase)
    requires c.Valid() && c.Roomy()
    ensures f == Run(c, TWO, steps) && ProperBut(c, steps, late) && late < |steps| && steps[late] == Unheard(0)
    ensures Holds(f.keys, 0, f.clock) && 0 in f.workers && f.workers[0] == Worker(None, p)
    ensures p.Measured? && p.base.Some? && p.base.value.checkpoint.samples == [Sample(m, 0, 0.0)]
    ensures var begin := c.Window() - SECOND; p == Measured(p.base, begin, begin, {}, Counting(m, begin), Unowned)
  {
    var v;
    steps, f, v := Expired(c, m);
    late, p := |steps|, f.workers[0].phase;
    Without(c, steps, late);
    steps, f := On(c, steps, f, Unheard(0), late);
  }

  lemma CommitStores(c: Settings, f: Fleet, id: nat)
    requires id in f.workers && f.workers[id].phase.Measured? && Holds(f.keys, id, f.clock)
    ensures var k := Next(c, f, Commit(id, true)).keys;
      k.version.Some? && k.version.value.checkpoint == Point(c, f.workers[id].phase)
  {
    Stores(c, f.keys, id, f.clock, f.workers[id].phase);
  }
}
