/** The aggregator's scripts and one process's `flush`, run in place. */
module AggregatorKeys {
  import opened Options
  import opened LatencyWindow
  import opened Aggregator

  /** The shared keys, changed in place by the scripts. */
  class AggregatorKeys {
    var lease: Option<Lease>
    var version: Option<Version>
    var completed: map<string, int>
    var expires: int
    var since: int
    var commits: nat
    var horizon: int

    ghost function Value(): Keys reads this { Keys(lease, version, completed, expires, since, commits, horizon) }

    /** `_RENEW`. */
    method Renew(id: nat, clock: int) returns (owned: bool)
      modifies this
      ensures owned <==> Holds(old(Value()), id, clock)
      ensures Value() == if owned then Renewed(old(Value()), id, clock) else old(Value())
    {
      owned := lease.Some? && lease.value.owner == id && clock <= lease.value.expires;
      if owned { lease := Some(Lease(id, clock + LEASE)); }
    }

    /** `SET key owner NX PX 10000`. */
    method SetIfAbsent(id: nat, clock: int) returns (owned: bool)
      modifies this
      ensures owned <==> !Leased(old(Value()), clock)
      ensures Value() == if owned then Renewed(old(Value()), id, clock) else old(Value())
    {
      owned := lease.None? || clock > lease.value.expires;
      if owned { lease := Some(Lease(id, clock + LEASE)); }
    }

    /** `_COMMIT` of a checkpoint and the messages it newly counts. */
    method Commit(c: Settings, id: nat, clock: int, next: Checkpoint, added: seq<Sample>) returns (committed: bool)
      modifies this
      ensures committed <==> Holds(old(Value()), id, clock)
      ensures !committed ==> Value() == old(Value())
      ensures committed ==>
        && lease == old(lease) && version == Some(Version(next, old(commits) + 1, clock))
        && completed == Pruned(Scores(Completed(old(Value()), clock), added), next.at - c.Window())
        && expires == clock + c.Retention() && commits == old(commits) + 1
        && since == (if Readable(old(Value()), clock) then old(since) else clock)
        && horizon == Horizon(old(Value()), clock, next.at)
    {
      committed := lease.Some? && lease.value.owner == id && clock <= lease.value.expires;
      if committed {
        var readable := version.Some? && clock <= expires;
        var scores := if readable then completed else map[];
        for i := 0 to |added|
          invariant scores == Scores(Completed(old(Value()), clock), added[..i])
        {
          assert added[..i + 1][..i] == added[..i];
          scores := scores[added[i].message := added[i].started];
        }
        assert added[..|added|] == added;
        since := if readable then since else clock;
        var here := if next.at < clock - LEASE then clock - LEASE else next.at;
        horizon := if version.Some? && here < horizon then horizon else here;
        commits := commits + 1;
        version := Some(Version(next, commits, clock));
        completed := map m | m in scores && scores[m] > next.at - c.Window() :: scores[m];
        expires := clock + c.Retention();
      }
    }
  }

  /** The base a flush at `clock` starts from, if it leads. */
  function Led(k: Keys, id: nat, memory: Option<Version>, clock: int): Option<Option<Version>> {
    var stored := if Readable(k, clock) then k.version else None;
    if Holds(k, id, clock) then Some(if memory.Some? then memory else stored)
    else if Leased(k, clock) then None
    else Some(stored)
  }

  /** What an undisturbed flush leaves: the keys and the memory.  `heard` and `seen` tell
      whether the answers of the lease calls and of the commit arrived. */
  function Flushed(c: Settings, k: Keys, id: nat, memory: Option<Version>, clock: int,
                   candidates: seq<Candidate>, heard: bool, seen: bool): (Keys, Option<Version>)
  {
    var led := LeaseCalls(k, id, clock);
    if !heard then (led, memory)
    else
      match Led(k, id, memory, clock)
      case None => (led, None)
      case Some(base) =>
        var after := CommitScript(c, led, id, clock,
                                  Measured(base, clock, clock, Completed(led, clock).Keys, candidates, Owned));
        (after, if seen then after.version else None)
  }

  /** The steps of such a flush in the run model. */
  function FlushSteps(id: nat, now: int, candidates: seq<Candidate>, seen: bool): seq<Step> {
    [Acquire(id), TakeBase(id), Measure(id, now, candidates), Commit(id, seen)]
  }

  lemma RunFour(c: Settings, s: Fleet, a: Step, b: Step, d: Step, e: Step)
    ensures Run(c, s, [a, b, d, e]) == Next(c, Next(c, Next(c, Next(c, s, a), b), d), e)
  {
    assert [a, b, d, e][..3] == [a, b, d] && [a, b, d][..2] == [a, b] && [a, b][..1] == [a] && [a][..0] == [];
    assert Run(c, s, [a]) == Next(c, s, a);
    assert Run(c, s, [a, b]) == Next(c, Next(c, s, a), b);
    assert Run(c, s, [a, b, d]) == Next(c, Next(c, Next(c, s, a), b), d);
  }

  /** An undisturbed flush is those steps taken without interleaving, or one lost lease call. */
  lemma FlushIsItsSteps(c: Settings, s: Fleet, id: nat, candidates: seq<Candidate>, seen: bool)
    requires id in s.workers && s.workers[id].phase.Idle?
    ensures var last := Run(c, s, FlushSteps(id, s.clock, candidates, seen));
      && id in last.workers
      && (last.keys, last.workers[id].memory)
         == Flushed(c, s.keys, id, s.workers[id].memory, s.clock, candidates, true, seen)
    ensures var lost := Next(c, s, Unheard(id));
      && id in lost.workers
      && (lost.keys, lost.workers[id].memory)
         == Flushed(c, s.keys, id, s.workers[id].memory, s.clock, candidates, false, seen)
  {
    RunFour(c, s, Acquire(id), TakeBase(id), Measure(id, s.clock, candidates), Commit(id, seen));
    var memory, acquired := s.workers[id].memory, Next(c, s, Acquire(id));
    var led := Led(s.keys, id, memory, s.clock);
    if led.Some? {
      var based := Next(c, acquired, TakeBase(id));
      assert based.workers[id] == Worker(None, Based(led.value, s.clock));
      var measured, done := Next(c, based, Measure(id, s.clock, candidates)), Completed(acquired.keys, s.clock).Keys;
      assert measured.keys == acquired.keys;
      assert measured.workers[id].phase == Measured(led.value, s.clock, s.clock, done, candidates, Owned);
    } else {
      assert acquired.workers[id] == Worker(None, Idle);
    }
  }

  /** One aggregator process. */
  class AggregatorProcess {
    const id: nat
    var memory: Option<Version>

    /** The lease calls and the choice of the base.  A lost answer raises before the memory is
        cleared. */
    method Lead(keys: AggregatorKeys, clock: int, heard: bool) returns (led: bool, base: Option<Version>)
      modifies this, keys
      ensures keys.Value() == LeaseCalls(old(keys.Value()), id, clock)
      ensures !heard ==> !led && memory == old(memory)
      ensures heard ==> memory.None?
      ensures heard ==> Led(old(keys.Value()), id, old(memory), clock) == if led then Some(base) else None
    {
      base := None;
      led := keys.Renew(id, clock);
      if !led {
        led := keys.SetIfAbsent(id, clock);
        if !heard { return false, None; }
        memory := None;
      }
      if !heard { return false, None; }
      if led {
        if memory.Some? { base := memory; }
        else if keys.version.Some? && clock <= keys.expires { base := keys.version; }
        memory := None;
      }
    }

    /** `flush` at one clock reading. */
    method Flush(c: Settings, keys: AggregatorKeys, clock: int, candidates: seq<Candidate>, heard: bool, seen: bool)
      modifies this, keys
      ensures (keys.Value(), memory)
        == Flushed(c, old(keys.Value()), id, old(memory), clock, candidates, heard, seen)
    {
      var led, base := Lead(keys, clock, heard);
      if !led { return; }
      ghost var lead := keys.Value();
      ghost var measured := Measured(base, clock, clock, Completed(lead, clock).Keys, candidates, Owned);
      var next, added := MeasureNow(c, keys, clock, base, candidates);
      var committed := keys.Commit(c, id, clock, next, added);
      assert committed && keys.Value() == CommitScript(c, lead, id, clock, measured);
      if committed && seen { memory := keys.version; }
    }

    method MeasureNow(c: Settings, keys: AggregatorKeys, clock: int, base: Option<Version>, candidates: seq<Candidate>)
      returns (next: Checkpoint, added: seq<Sample>)
      ensures var done := Completed(keys.Value(), clock).Keys;
        && next == Aggregate(c, BaseOf(base), done, clock, candidates)
        && added == Fresh(candidates, done, clock - c.Window())
    {
      var done := if keys.version.Some? && clock <= keys.expires then keys.completed.Keys else {};
      assert done == Completed(keys.Value(), clock).Keys;
      var start := BaseOf(base);
      var latency;
      latency, added := CountLatencies(start.latency, candidates, done, clock - c.Window());
      next := Checkpoint(clock, latency, KeepSamples(start.samples, clock - c.Window()) + added);
    }
  }
}
