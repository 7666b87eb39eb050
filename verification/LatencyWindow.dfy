/**
What one flush of the fleet aggregator counts: newly completed messages enter per-second
latency buckets and completion scores, and a point reports the buckets of its window.
Times are nanoseconds.
 */
module LatencyWindow {
  import opened Options
  import opened Percentile

  const SECOND := 1_000_000_000
  const LEASE := 10 * SECOND

  /** `latency_window_seconds` and `retention_seconds`. */
  datatype Settings = Settings(windowSeconds: nat, retentionSeconds: nat) {
    predicate Valid() { 5 <= windowSeconds <= 300 && 60 <= retentionSeconds <= 86_400 }

    function Window(): int { windowSeconds * SECOND }

    function Retention(): int { retentionSeconds * SECOND }

    /** The stored keys outlast every window by the length of a flush. */
    predicate Roomy() { Retention() >= Window() + LEASE }
  }

  /** A pending span: its message, its start and the latency its ancestors give, if known. */
  datatype Candidate = Candidate(message: string, started: int, latency: Option<real>)

  datatype Sample = Sample(message: string, started: int, latency: real) {
    function Second(): int { started / SECOND }
  }

  datatype Bucket = Bucket(second: int, milliseconds: multiset<int>)

  /** `samples` is history: the measurements behind the buckets.  Nothing reads it. */
  datatype Checkpoint = Checkpoint(at: int, latency: seq<Bucket>, samples: seq<Sample>)

  const EMPTY := Checkpoint(0, [], [])

  // ----- counting one flush -----

  /** `latency.setdefault(second, Counter())[milliseconds] += 1` */
  function Add(latency: seq<Bucket>, second: int, milliseconds: int): seq<Bucket> {
    if latency == [] then [Bucket(second, multiset{milliseconds})]
    else if latency[0].second == second
    then [latency[0].(milliseconds := latency[0].milliseconds + multiset{milliseconds})] + latency[1..]
    else [latency[0]] + Add(latency[1..], second, milliseconds)
  }

  function AddAll(latency: seq<Bucket>, samples: seq<Sample>): seq<Bucket> {
    if samples == [] then latency
    else
      var last := samples[|samples| - 1];
      Add(AddAll(latency, samples[..|samples| - 1]), last.Second(), Ceil(last.latency))
  }

  /** The buckets of seconds not before `cutoff`. */
  function Keep(latency: seq<Bucket>, cutoff: int): seq<Bucket> {
    if latency == [] then []
    else (if latency[0].second * SECOND >= cutoff then [latency[0]] else []) + Keep(latency[1..], cutoff)
  }

  function KeepSamples(samples: seq<Sample>, cutoff: int): (r: seq<Sample>)
    ensures forall x :: x in r ==> x in samples
  {
    if samples == [] then []
    else
      var rest := KeepSamples(samples[..|samples| - 1], cutoff);
      if samples[|samples| - 1].Second() * SECOND >= cutoff then rest + [samples[|samples| - 1]] else rest
  }

  ghost predicate Counted(samples: seq<Sample>, message: string) {
    exists x :: x in samples && x.message == message
  }

  function Messages(samples: seq<Sample>): (r: set<string>)
    ensures forall m :: m in r <==> Counted(samples, m)
  {
    set x | x in samples :: x.message
  }

  /** The candidates a flush counts: started within the window, measurable, and neither
      completed before nor counted earlier in the same flush. */
  function Fresh(candidates: seq<Candidate>, done: set<string>, cutoff: int): seq<Sample> {
    if candidates == [] then [] else
      var rest := Fresh(candidates[..|candidates| - 1], done, cutoff);
      var c := candidates[|candidates| - 1];
      if c.started >= cutoff && c.latency.Some? && c.message !in done && c.message !in Messages(rest)
      then rest + [Sample(c.message, c.started, c.latency.value)] else rest
  }

  ghost predicate DistinctMessages(samples: seq<Sample>) {
    forall i, j :: 0 <= i < j < |samples| ==> samples[i].message != samples[j].message
  }

  /** Each measurable message of the window is counted exactly once, unless already done. */
  lemma {:induction false} FreshCountsOnce(candidates: seq<Candidate>, done: set<string>, cutoff: int)
    ensures DistinctMessages(Fresh(candidates, done, cutoff))
    ensures forall x :: x in Fresh(candidates, done, cutoff) ==>
      x.message !in done && x.started >= cutoff && Candidate(x.message, x.started, Some(x.latency)) in candidates
    ensures forall c :: c in candidates && c.started >= cutoff && c.latency.Some? && c.message !in done ==>
      Counted(Fresh(candidates, done, cutoff), c.message)
  {
    if candidates != [] {
      var n := |candidates| - 1;
      FreshCountsOnce(candidates[..n], done, cutoff);
      var rest, all := Fresh(candidates[..n], done, cutoff), Fresh(candidates, done, cutoff);
      assert rest <= all;
      forall c | c in candidates && c.started >= cutoff && c.latency.Some? && c.message !in done
        ensures Counted(all, c.message)
      {
        if c in candidates[..n] {
          assert Counted(rest, c.message);
        } else {
          assert c == candidates[n];
          assert all == rest || all[|rest|].message == c.message;
        }
      }
    }
  }

  /** `completed` gains the fresh messages with their start times. */
  function Scores(completed: map<string, int>, samples: seq<Sample>): map<string, int> {
    if samples == [] then completed
    else Scores(completed, samples[..|samples| - 1])[samples[|samples| - 1].message := samples[|samples| - 1].started]
  }

  predicate Scored(completed: map<string, int>, message: string, started: int) {
    message in completed && completed[message] == started
  }

  function Pruned(completed: map<string, int>, cutoff: int): map<string, int> {
    map m | m in completed && completed[m] > cutoff :: completed[m]
  }

  lemma {:induction false} ScoresHold(completed: map<string, int>, samples: seq<Sample>)
    requires DistinctMessages(samples)
    ensures forall x :: x in samples ==> Scored(Scores(completed, samples), x.message, x.started)
    ensures forall m :: m in completed && !Counted(samples, m) ==> Scored(Scores(completed, samples), m, completed[m])
  {
    if samples != [] {
      var n := |samples| - 1;
      ScoresHold(completed, samples[..n]);
      forall m | m in completed && !Counted(samples, m)
        ensures Scored(Scores(completed, samples), m, completed[m])
      {
        assert samples[n] in samples;
        assert !Counted(samples[..n], m);
      }
    }
  }

  /** The checkpoint a flush at `now` commits. */
  function Aggregate(c: Settings, base: Checkpoint, done: set<string>, now: int,
                     candidates: seq<Candidate>): Checkpoint {
    var cutoff := now - c.Window();
    var added := Fresh(candidates, done, cutoff);
    Checkpoint(now, AddAll(Keep(base.latency, cutoff), added), KeepSamples(base.samples, cutoff) + added)
  }

  // ----- the window a point reports -----

  /** All milliseconds counted in seconds after `cutoff`. */
  function Reported(latency: seq<Bucket>, cutoff: int): multiset<int> {
    if latency == [] then multiset{}
    else
      (if latency[0].second * SECOND > cutoff then latency[0].milliseconds else multiset{})
      + Reported(latency[1..], cutoff)
  }

  /** The measurements of seconds after `cutoff`. */
  function Window(samples: seq<Sample>, cutoff: int): seq<Sample> {
    if samples == [] then []
    else
      var rest := Window(samples[..|samples| - 1], cutoff);
      if samples[|samples| - 1].Second() * SECOND > cutoff then rest + [samples[|samples| - 1]] else rest
  }

  function Latencies(samples: seq<Sample>): (r: seq<real>)
    ensures |r| == |samples| && forall i :: 0 <= i < |samples| ==> r[i] == samples[i].latency
  {
    seq(|samples|, i requires 0 <= i < |samples| => samples[i].latency)
  }

  function Bins(samples: seq<Sample>, cutoff: int): multiset<int> {
    multiset(CeilAll(Latencies(Window(samples, cutoff))))
  }

  /** The buckets count exactly the samples, in every window. */
  ghost predicate BucketsMatch(c: Checkpoint) {
    forall cutoff :: Reported(c.latency, cutoff) == Bins(c.samples, cutoff)
  }

  lemma {:induction false} AddReported(latency: seq<Bucket>, second: int, milliseconds: int, cutoff: int)
    ensures Reported(Add(latency, second, milliseconds), cutoff)
      == Reported(latency, cutoff) + if second * SECOND > cutoff then multiset{milliseconds} else multiset{}
  {
    if latency != [] && latency[0].second != second {
      AddReported(latency[1..], second, milliseconds, cutoff);
      var added := Add(latency, second, milliseconds);
      assert added[0] == latency[0] && added[1..] == Add(latency[1..], second, milliseconds);
    } else if latency != [] {
      var added := Add(latency, second, milliseconds);
      assert added[1..] == latency[1..];
    }
  }

  lemma BinsAppend(samples: seq<Sample>, x: Sample, cutoff: int)
    ensures Bins(samples + [x], cutoff)
      == Bins(samples, cutoff) + if x.Second() * SECOND > cutoff then multiset{Ceil(x.latency)} else multiset{}
  {
    assert (samples + [x])[..|samples|] == samples;
    if x.Second() * SECOND > cutoff {
      var w := Window(samples, cutoff);
      assert CeilAll(Latencies(w + [x])) == CeilAll(Latencies(w)) + [Ceil(x.latency)];
    }
  }

  lemma AddOneReported(latency: seq<Bucket>, before: seq<Sample>, x: Sample, cutoff: int)
    requires Reported(latency, cutoff) == Bins(before, cutoff)
    ensures Reported(Add(latency, x.Second(), Ceil(x.latency)), cutoff) == Bins(before + [x], cutoff)
  {
    AddReported(latency, x.Second(), Ceil(x.latency), cutoff);
    BinsAppend(before, x, cutoff);
  }

  lemma Snoc(before: seq<Sample>, samples: seq<Sample>)
    requires samples != []
    ensures before + samples[..|samples| - 1] + [samples[|samples| - 1]] == before + samples
  {
  }

  lemma {:induction false} AddAllReported(latency: seq<Bucket>, before: seq<Sample>, samples: seq<Sample>, cutoff: int)
    requires Reported(latency, cutoff) == Bins(before, cutoff)
    ensures Reported(AddAll(latency, samples), cutoff) == Bins(before + samples, cutoff)
  {
    if samples == [] {
      assert before + samples == before;
    } else {
      var n := |samples| - 1;
      var x, earlier, rest := samples[n], before + samples[..n], AddAll(latency, samples[..n]);
      AddAllReported(latency, before, samples[..n], cutoff);
      AddOneReported(rest, earlier, x, cutoff);
      assert AddAll(latency, samples) == Add(rest, x.Second(), Ceil(x.latency));
      Snoc(before, samples);
    }
  }

  function Later(cutoff: int, kept: int): int { if cutoff < kept - 1 then kept - 1 else cutoff }

  lemma {:induction false} KeepReported(latency: seq<Bucket>, kept: int, cutoff: int)
    ensures Reported(Keep(latency, kept), cutoff) == Reported(latency, Later(cutoff, kept))
  {
    if latency != [] {
      KeepReported(latency[1..], kept, cutoff);
      if latency[0].second * SECOND >= kept {
        assert Keep(latency, kept)[1..] == Keep(latency[1..], kept);
      } else {
        assert Keep(latency, kept) == Keep(latency[1..], kept);
      }
    }
  }

  lemma {:induction false} KeepWindow(samples: seq<Sample>, kept: int, cutoff: int)
    ensures Window(KeepSamples(samples, kept), cutoff) == Window(samples, Later(cutoff, kept))
  {
    if samples != [] {
      var n := |samples| - 1;
      KeepWindow(samples[..n], kept, cutoff);
      var rest := KeepSamples(samples[..n], kept);
      assert (rest + [samples[n]])[..|rest|] == rest;
    }
  }

  lemma AggregateMatches(c: Settings, base: Checkpoint, done: set<string>, now: int, candidates: seq<Candidate>)
    requires BucketsMatch(base)
    ensures BucketsMatch(Aggregate(c, base, done, now, candidates))
  {
    var next, kept := Aggregate(c, base, done, now, candidates), now - c.Window();
    forall cutoff ensures Reported(next.latency, cutoff) == Bins(next.samples, cutoff) {
      MatchesAt(base, kept, Fresh(candidates, done, kept), cutoff);
    }
  }

  lemma MatchesAt(base: Checkpoint, kept: int, added: seq<Sample>, cutoff: int)
    requires BucketsMatch(base)
    ensures Reported(AddAll(Keep(base.latency, kept), added), cutoff)
      == Bins(KeepSamples(base.samples, kept) + added, cutoff)
  {
    KeepReported(base.latency, kept, cutoff);
    KeepWindow(base.samples, kept, cutoff);
    AddAllReported(Keep(base.latency, kept), KeepSamples(base.samples, kept), added, cutoff);
  }

  lemma EmptyMatches()
    ensures BucketsMatch(EMPTY)
  {
    forall cutoff ensures Reported(EMPTY.latency, cutoff) == Bins(EMPTY.samples, cutoff) {
      assert CeilAll(Latencies([])) == [];
    }
  }

  lemma HasMember(samples: seq<Sample>)
    requires samples != []
    ensures exists x :: x in samples
  {
    assert samples[0] in samples;
  }

  lemma {:induction false} WindowMembers(samples: seq<Sample>, cutoff: int)
    ensures forall x :: x in Window(samples, cutoff) <==> x in samples && x.Second() * SECOND > cutoff
  {
    if samples != [] { WindowMembers(samples[..|samples| - 1], cutoff); }
  }

  lemma {:induction false} WindowConcat(a: seq<Sample>, b: seq<Sample>, cutoff: int)
    ensures Window(a + b, cutoff) == Window(a, cutoff) + Window(b, cutoff)
  {
    if b == [] {
      assert a + b == a;
    } else {
      var n := |b| - 1;
      WindowConcat(a, b[..n], cutoff);
      assert (a + b)[..|a + b| - 1] == a + b[..n];
    }
  }

  lemma DistinctConcat(a: seq<Sample>, b: seq<Sample>)
    requires DistinctMessages(a) && DistinctMessages(b)
    requires forall x, y :: x in a && y in b ==> x.message != y.message
    ensures DistinctMessages(a + b)
  {
    forall i, j | 0 <= i < j < |a + b| ensures (a + b)[i].message != (a + b)[j].message {
      if i < |a| <= j { assert a[i] in a && b[j - |a|] in b; }
    }
  }

  lemma {:induction false} WindowDistinct(samples: seq<Sample>, cutoff: int)
    requires DistinctMessages(samples)
    ensures DistinctMessages(Window(samples, cutoff))
  {
    if samples != [] {
      var n := |samples| - 1;
      WindowDistinct(samples[..n], cutoff);
      WindowMembers(samples[..n], cutoff);
      DistinctConcat(Window(samples[..n], cutoff), [samples[n]]);
    }
  }

  lemma {:induction false} WindowNested(samples: seq<Sample>, earlier: int, cutoff: int)
    requires earlier <= cutoff
    ensures Window(Window(samples, earlier), cutoff) == Window(samples, cutoff)
  {
    if samples != [] {
      var n := |samples| - 1;
      WindowNested(samples[..n], earlier, cutoff);
      var rest := Window(samples[..n], earlier);
      assert (rest + [samples[n]])[..|rest|] == rest;
    }
  }

  /** Scored no earlier than at `started`, so that pruning a window with it leaves the score. */
  predicate Covered(completed: map<string, int>, message: string, started: int) {
    message in completed && started <= completed[message]
  }

  /** Every sample the window reports is scored, and no two name one message. */
  ghost predicate WindowSound(samples: seq<Sample>, completed: map<string, int>, cutoff: int) {
    && DistinctMessages(Window(samples, cutoff))
    && forall x :: x in Window(samples, cutoff) ==> Covered(completed, x.message, x.started)
  }

  /** The committed point reports the latencies of distinct messages, each exactly once. */
  ghost predicate CountsOnce(c: Settings, p: Checkpoint) {
    var cutoff := p.at - c.Window();
    DistinctMessages(Window(p.samples, cutoff)) && Reported(p.latency, cutoff) == Bins(p.samples, cutoff)
  }

  lemma LaterWindowDistinct(samples: seq<Sample>, earlier: int, cutoff: int)
    requires DistinctMessages(Window(samples, earlier)) && earlier <= cutoff
    ensures DistinctMessages(Window(samples, cutoff))
  {
    WindowNested(samples, earlier, cutoff);
    WindowDistinct(Window(samples, earlier), cutoff);
  }

  lemma LaterWindowSound(samples: seq<Sample>, completed: map<string, int>, earlier: int, cutoff: int)
    requires WindowSound(samples, completed, earlier) && earlier <= cutoff
    ensures WindowSound(samples, completed, cutoff)
  {
    LaterWindowDistinct(samples, earlier, cutoff);
    WindowMembers(samples, earlier);
    WindowMembers(samples, cutoff);
  }

  /** A flush that saw a score for every message of its old window counts none of them again. */
  lemma AggregateDistinct(c: Settings, base: Checkpoint, done: set<string>, now: int, candidates: seq<Candidate>)
    requires DistinctMessages(Window(base.samples, now - c.Window()))
    requires forall x :: x in Window(base.samples, now - c.Window()) ==> x.message in done
    ensures DistinctMessages(Window(Aggregate(c, base, done, now, candidates).samples, now - c.Window()))
  {
    var cutoff := now - c.Window();
    var added, kept := Fresh(candidates, done, cutoff), KeepSamples(base.samples, cutoff);
    FreshCountsOnce(candidates, done, cutoff);
    KeepWindow(base.samples, cutoff, cutoff);
    WindowConcat(kept, added, cutoff);
    WindowDistinct(added, cutoff);
    WindowMembers(added, cutoff);
    DistinctConcat(Window(kept, cutoff), Window(added, cutoff));
  }

  /** Its commit scores what it counts, in every window that begins no earlier than its own. */
  lemma AggregateScored(c: Settings, base: Checkpoint, done: set<string>, now: int, candidates: seq<Candidate>,
                        completed: map<string, int>, later: int)
    requires now - c.Window() <= later
    requires DistinctMessages(Window(Aggregate(c, base, done, now, candidates).samples, now - c.Window()))
    requires var cutoff := now - c.Window();
      WindowSound(base.samples, Pruned(Scores(completed, Fresh(candidates, done, cutoff)), cutoff), later)
    ensures var cutoff := now - c.Window();
      WindowSound(Aggregate(c, base, done, now, candidates).samples,
                  Pruned(Scores(completed, Fresh(candidates, done, cutoff)), cutoff), later)
  {
    var cutoff := now - c.Window();
    var added, kept := Fresh(candidates, done, cutoff), KeepSamples(base.samples, cutoff);
    FreshCountsOnce(candidates, done, cutoff);
    LaterWindowDistinct(kept + added, cutoff, later);
    WindowMembers(kept + added, later);
    WindowMembers(base.samples, later);
    ScoresHold(completed, added);
    var scores := Pruned(Scores(completed, added), cutoff);
    forall x | x in Window(kept + added, later) ensures Covered(scores, x.message, x.started) {
      assert x.started >= x.Second() * SECOND > later;
      if x in added { assert Scored(Scores(completed, added), x.message, x.started); }
      else { assert x in Window(base.samples, later); }
    }
  }

  /** No message scored already gets an earlier score. */
  predicate Raises(completed: map<string, int>, added: seq<Sample>) {
    forall x :: x in added && x.message in completed ==> completed[x.message] <= x.started
  }

  /** Scoring and pruning leave a later window scored, unless a score is lowered. */
  lemma ScoresSurvive(samples: seq<Sample>, added: seq<Sample>, completed: map<string, int>, earlier: int,
                      cutoff: int, later: int)
    requires WindowSound(samples, completed, earlier) && earlier <= later && cutoff <= later
    requires DistinctMessages(added) && Raises(completed, added)
    ensures WindowSound(samples, Pruned(Scores(completed, added), cutoff), later)
  {
    LaterWindowSound(samples, completed, earlier, later);
    WindowMembers(samples, later);
    ScoresHold(completed, added);
    var scores, kept := Scores(completed, added), Pruned(Scores(completed, added), cutoff);
    forall x | x in Window(samples, later) ensures Covered(kept, x.message, x.started) {
      assert x.started >= x.Second() * SECOND > later;
      if Counted(added, x.message) {
        var y :| y in added && y.message == x.message;
        assert Scored(scores, y.message, y.started);
      } else {
        assert Scored(scores, x.message, completed[x.message]);
      }
    }
  }

  // ----- the loops of one flush -----

  /** The measuring loop of `flush`: buckets to store and messages to score. */
  method CountLatencies(base: seq<Bucket>, candidates: seq<Candidate>, done: set<string>, cutoff: int)
    returns (latency: seq<Bucket>, added: seq<Sample>)
    ensures added == Fresh(candidates, done, cutoff)
    ensures latency == AddAll(Keep(base, cutoff), added)
  {
    latency := Keep(base, cutoff);
    added := [];
    var counted: set<string> := {};
    for i := 0 to |candidates|
      invariant added == Fresh(candidates[..i], done, cutoff)
      invariant counted == Messages(added)
      invariant latency == AddAll(Keep(base, cutoff), added)
    {
      var c := candidates[i];
      assert candidates[..i + 1][..i] == candidates[..i];
      if c.started >= cutoff && c.message !in done && c.message !in counted && c.latency.Some? {
        var x := Sample(c.message, c.started, c.latency.value);
        assert (added + [x])[..|added|] == added;
        latency := Add(latency, x.Second(), Ceil(x.latency));
        counted := counted + {x.message};
        added := added + [x];
      }
    }
    assert candidates[..|candidates|] == candidates;
  }

  lemma {:induction false} ReportedConcat(a: seq<Bucket>, b: Bucket, cutoff: int)
    ensures Reported(a + [b], cutoff)
      == Reported(a, cutoff) + if b.second * SECOND > cutoff then b.milliseconds else multiset{}
  {
    if a == [] {
      assert a + [b] == [b] && [b][1..] == [];
    } else {
      assert (a + [b])[1..] == a[1..] + [b];
      ReportedConcat(a[1..], b, cutoff);
    }
  }

  /** The histogram `_point` gathers from the buckets of its window. */
  method Gather(latency: seq<Bucket>, cutoff: int) returns (histogram: multiset<int>)
    ensures histogram == Reported(latency, cutoff)
  {
    histogram := multiset{};
    for i := 0 to |latency|
      invariant histogram == Reported(latency[..i], cutoff)
    {
      ReportedConcat(latency[..i], latency[i], cutoff);
      assert latency[..i + 1] == latency[..i] + [latency[i]];
      if latency[i].second * SECOND > cutoff { histogram := histogram + latency[i].milliseconds; }
    }
    assert latency[..|latency|] == latency;
  }

  /** The latencies a point at its own time reports on. */
  function WindowLatencies(c: Settings, p: Checkpoint): seq<real> {
    Latencies(Window(p.samples, p.at - c.Window()))
  }

  /**
  The percentile of `_point`, from gathering the buckets to the scan: none without samples,
  else the exact nearest-rank percentile of the window's latencies, rounded up, however the
  samples are split into seconds.
   */
  method PointPercentile(c: Settings, p: Checkpoint, product: real) returns (p95: Option<int>)
    requires BucketsMatch(p) && |WindowLatencies(c, p)| < 281474976710656
    requires RoundedProduct(|WindowLatencies(c, p)|, product)
    ensures p95.None? <==> WindowLatencies(c, p) == []
    ensures p95.Some? ==>
      && (exists exact :: exact in WindowLatencies(c, p) && Percentile95(WindowLatencies(c, p), exact))
      && (forall exact :: Percentile95(WindowLatencies(c, p), exact) ==> p95.value == Ceil(exact))
  {
    ghost var xs := WindowLatencies(c, p);
    var histogram := Gather(p.latency, p.at - c.Window());
    if histogram == multiset{} {
      assert |histogram| == |multiset(CeilAll(xs))| == |CeilAll(xs)|;
      return None;
    }
    var items := SortedItems(histogram);
    forall m ensures Count(items, m) == Tally(CeilAll(xs), m) { TallyIsMultiset(CeilAll(xs), m); }
    assert |histogram| == |multiset(CeilAll(xs))| == |xs|;
    var value := Scan(items, product, CeilAll(xs));
    ghost var exact := PercentileExists(xs, Rank(|xs|));
    forall e | Percentile95(xs, e) ensures value == Ceil(e) { HistogramPercentileIsExact(xs, e, value); }
    p95 := Some(value);
  }

  ghost predicate Percentile95(latencies: seq<real>, exact: real) { RankedReal(latencies, Rank(|latencies|), exact) }
}
