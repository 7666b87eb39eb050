/**
`_commit_batch`: one broker committing its queued writes while other brokers work on the
same stream.  `rounds[i]` is what everyone else did, and this broker's own archive steps,
between its attempts number `i - 1` and `i`.
 */
module AuditBatch {
  import opened Options
  import opened AuditLog
  import opened AuditScripts
  import opened AuditRuns
  import opened AuditFeeds

  datatype Outcome =
    | Committed(kept: nat, ids: seq<nat>)
    | NoCapacity
    | Failed(reason: string)
    | Interrupted

  lemma Unsnoc<T>(a: seq<T>, b: seq<T>)
    requires b != []
    ensures |a + b| > 0 && (a + b)[..|a + b| - 1] == a + b[..|b| - 1] && (a + b)[|a + b| - 1] == b[|b| - 1]
  {
  }

  lemma {:induction false} RunConcat(log: Log, s: Store, a: seq<Step>, b: seq<Step>)
    ensures Run(log, s, a + b) == Run(log, Run(log, s, a), b)
  {
    if b == [] {
      assert a + b == a;
    } else {
      var n := |b| - 1;
      RunConcat(log, s, a, b[..n]);
      Unsnoc(a, b);
    }
  }

  /** The batch script's loop over its records: link each behind the one before. */
  method LinkBatch(log: Log, head: Option<Hash>, writes: seq<Submission>)
    returns (records: seq<Submission>, final: Option<Hash>)
    ensures records == Link(log, head, writes) && final == LinkTip(log, head, writes)
  {
    records, final := [], head;
    for i := 0 to |writes|
      invariant records == Link(log, head, writes[..i]) && final == LinkTip(log, head, writes[..i])
    {
      assert writes[..i + 1][..i] == writes[..i];
      var entry := writes[i].entry.(previous := final);
      records, final := records + [writes[i].(entry := entry)], Some(log.hash(entry));
    }
    assert writes[..|writes|] == writes;
  }

  /** The script refuses this batch even with the right head. */
  ghost predicate RefusedAs(log: Log, s: Store, batch: seq<Submission>, capacity: nat, clock: nat, reason: string) {
    AppendScript(s, s.head, LinkTip(log, s.head, batch), capacity, Link(log, s.head, batch), clock).1 == Refused(reason)
  }

  /** One evaluation of the append script on a batch linked behind `head`. */
  method Attempt(log: Log, s: Store, head: Option<Hash>, active: seq<Submission>, capacity: nat, clock: nat)
    returns (next: Store, reply: Reply)
    requires forall i :: 0 <= i < |active| ==> Admissible(log, active[i])
    ensures !reply.Appended? ==> next == s
    ensures reply.Capacity? ==> reply.available < |active| && reply.available == capacity - |s.live|
    ensures reply.Retry? <==> s.head != head
    ensures reply.Retry? ==> reply.head == s.head
    ensures reply.Refused? ==> RefusedAs(log, s, active, capacity, clock, reply.reason)
    ensures reply.Appended? ==>
      && 0 < |active| && next == Next(log, s, Append(s.head, active, capacity, clock))
      && Joined(s.feeds, next.feeds, active, clock)
      && |next.live| == |s.live| + |active| <= capacity
      && reply.ids == Ids(next.live[|s.live|..])
  {
    var records, final := LinkBatch(log, head, active);
    var result := AppendScript(s, head, final, capacity, records, clock);
    next, reply := result.0, result.1;
    AppendedShape(s, head, final, capacity, records, clock, result);
    if reply.Appended? { BatchJoins(log, s, head, active, clock); }
  }

  /** Before an attempt: the steps of everyone else, the head another batch of this broker left
      in the shared cache meanwhile, if any, and the time of the attempt. */
  datatype Round = Round(steps: seq<Step>, recached: Option<Option<Hash>>, clock: nat)

  function Others(rounds: seq<Round>): seq<Step> {
    if rounds == [] then [] else Others(rounds[..|rounds| - 1]) + rounds[|rounds| - 1].steps
  }

  /** The clock of the last attempt. */
  function LastClock(rounds: seq<Round>): nat { if rounds == [] then 0 else rounds[|rounds| - 1].clock }

  /** The store an attempt finds. */
  function Found(log: Log, start: Store, rounds: seq<Round>, i: nat): Store
    requires i < |rounds|
  {
    Run(log, start, Others(rounds[..i + 1]))
  }

  /** The head an attempt believes in: what another batch cached meanwhile, else what the
      attempt before it learned. */
  function Cached(log: Log, start: Store, cached: Option<Hash>, rounds: seq<Round>, i: nat): Option<Hash>
    requires i < |rounds|
  {
    if rounds[i].recached.Some? then rounds[i].recached.value
    else if i == 0 then cached else Found(log, start, rounds, i - 1).head
  }

  /** An attempt that cannot commit: its head is stale, or its writes do not fit. */
  predicate InVain(log: Log, start: Store, cached: Option<Hash>, writes: seq<Submission>, capacity: nat,
                   rounds: seq<Round>, i: nat)
    requires i < |rounds|
  {
    var s := Found(log, start, rounds, i);
    s.head != Cached(log, start, cached, rounds, i) || |s.live| + |writes| > capacity
  }

  ghost predicate AllInVain(log: Log, start: Store, cached: Option<Hash>, writes: seq<Submission>, capacity: nat,
                            rounds: seq<Round>, n: nat)
    requires n <= |rounds|
  {
    forall i :: 0 <= i < n ==> InVain(log, start, cached, writes, capacity, rounds, i)
  }

  lemma FoundNext(log: Log, start: Store, rounds: seq<Round>, i: nat, s: Store)
    requires i < |rounds| && s == Run(log, start, Others(rounds[..i]))
    ensures Run(log, s, rounds[i].steps) == Found(log, start, rounds, i)
  {
    RunConcat(log, start, Others(rounds[..i]), rounds[i].steps);
    assert rounds[..i + 1][..i] == rounds[..i];
  }

  lemma VainNext(log: Log, start: Store, cached: Option<Hash>, writes: seq<Submission>, capacity: nat,
                 rounds: seq<Round>, i: nat, s: Store, cache: Option<Hash>)
    requires i < |rounds| && AllInVain(log, start, cached, writes, capacity, rounds, i)
    requires s == Found(log, start, rounds, i) && cache == Cached(log, start, cached, rounds, i)
    requires s.head != cache || |s.live| + |writes| > capacity
    ensures AllInVain(log, start, cached, writes, capacity, rounds, i + 1)
  {
    assert InVain(log, start, cached, writes, capacity, rounds, i);
  }

  /**
  Every attempt but the last leaves the store as the others made it, so the outcome is
  that of one append after their steps.  A committed batch stores exactly the records and
  the stream appends of its first `kept` writes; all of them when an archive is
  configured, else as many as fitted when one attempt found too little room.  Any other
  outcome stores nothing of the batch, and says truly why.  The shared cache is read anew at
  every attempt and a commit leaves the stored head in it, so the first attempt that finds
  room and a head nobody has moved on since ends the loop.
   */
  method CommitBatch(log: Log, start: Store, cached: Option<Hash>, writes: seq<Submission>, capacity: nat,
                     archiving: bool, rounds: seq<Round>)
    returns (after: Store, outcome: Outcome, attempts: nat, cache: Option<Hash>, ghost before: Store)
    requires forall i :: 0 <= i < |writes| ==> Admissible(log, writes[i])
    ensures attempts <= |rounds| && before == Run(log, start, Others(rounds[..attempts]))
    ensures !outcome.Committed? ==> after == before
    ensures outcome.NoCapacity? ==> !archiving && |before.live| >= capacity
    ensures outcome.Failed? ==> exists n ::
      0 <= n <= |writes| && RefusedAs(log, before, writes[..n], capacity, LastClock(rounds[..attempts]), outcome.reason)
    ensures outcome.Interrupted? ==>
      attempts == |rounds| && AllInVain(log, start, cached, writes, capacity, rounds, |rounds|)
    ensures outcome.Committed? ==> 0 < outcome.kept <= |writes| && (archiving ==> outcome.kept == |writes|)
    ensures outcome.Committed? && outcome.kept < |writes| ==>
      exists i :: 0 <= i < attempts && outcome.kept == capacity - |Found(log, start, rounds, i).live|
    ensures outcome.Committed? ==>
      var clock, kept := LastClock(rounds[..attempts]), writes[..outcome.kept];
      && after == Next(log, before, Append(before.head, kept, capacity, clock))
      && Joined(before.feeds, after.feeds, kept, clock)
      && |after.live| == |before.live| + |kept| <= capacity
      && outcome.ids == Ids(after.live[|before.live|..]) && cache == after.head
  {
    var active := writes;
    ghost var full: nat := 0;
    after, cache := start, cached;
    for i := 0 to |rounds|
      invariant |active| <= |writes| && active == writes[..|active|] && (archiving ==> active == writes)
      invariant after == Run(log, start, Others(rounds[..i]))
      invariant cache == if i == 0 then cached else Found(log, start, rounds, i - 1).head
      invariant AllInVain(log, start, cached, writes, capacity, rounds, i)
      invariant |active| < |writes| ==> full < i && |active| == capacity - |Found(log, start, rounds, full).live|
    {
      var round := rounds[i];
      FoundNext(log, start, rounds, i, after);
      after := Run(log, after, round.steps);
      if round.recached.Some? { cache := round.recached.value; }
      attempts, before := i + 1, after;
      var next, reply := Attempt(log, after, cache, active, capacity, round.clock);
      if reply.Retry? || reply.Capacity? {
        VainNext(log, start, cached, writes, capacity, rounds, i, before, cache);
      }
      match reply
      case Retry(current) => cache := current;
      case Refused(reason) => return after, Failed(reason), attempts, cache, before;
      case Capacity(available) =>
        if !archiving {
          if available <= 0 { return after, NoCapacity, attempts, cache, before; }
          active, full := active[..available], i;
        }
      case Appended(ids) =>
        return next, Committed(|active|, ids), attempts, next.head, before;
    }
    assert rounds[..|rounds|] == rounds;
    attempts, before := |rounds|, after;
    outcome := Interrupted;
  }
}
