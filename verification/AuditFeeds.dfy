/**
What the scripts do to the agent streams: an append joins its stream behind everything that
is there, and nothing else changes.
 */
module AuditFeeds {
  import opened Options
  import opened AuditLog
  import opened AuditScripts
  import opened AuditRuns

  /** The envelopes that a batch attaches for one stream, in order. */
  function Attached(writes: seq<Submission>, name: string): seq<Envelope> {
    if writes == [] then []
    else
      var last := writes[|writes| - 1].effect;
      Attached(writes[..|writes| - 1], name)
      + if last.Some? && last.value.stream == name then [last.value.envelope] else []
  }

  function Envelopes(items: seq<Item>): (r: seq<Envelope>)
    ensures |r| == |items| && forall i :: 0 <= i < |items| ==> r[i] == items[i].envelope
  {
    seq(|items|, i requires 0 <= i < |items| => items[i].envelope)
  }

  /** Identities increase, the last one being the stream's. */
  ghost predicate InOrder(feed: Feed) {
    && (forall i, j :: 0 <= i < j < |feed.items| ==> feed.items[i].id < feed.items[j].id)
    && (forall i :: 0 <= i < |feed.items| ==> feed.items[i].id <= feed.lastId)
  }

  /** The stream keeps its items and receives these envelopes behind them, under identities
      above all earlier ones and none before `clock`. */
  ghost predicate Receives(was: Feed, now: Feed, envelopes: seq<Envelope>, clock: nat) {
    && was.items <= now.items && was.lastId <= now.lastId
    && Envelopes(now.items) == Envelopes(was.items) + envelopes
    && (forall i :: |was.items| <= i < |now.items| ==>
          was.lastId < now.items[i].id <= now.lastId && clock * PER_MILLISECOND <= now.items[i].id)
    && (envelopes == [] ==> now == was)
    && (InOrder(was) ==> InOrder(now))
  }

  /** Every stream receives exactly what the writes attach for it. */
  ghost predicate Joined(was: map<string, Feed>, now: map<string, Feed>, writes: seq<Submission>, clock: nat) {
    forall name :: Receives(FeedOf(was, name), FeedOf(now, name), Attached(writes, name), clock)
  }

  lemma ReceivesNothing(feed: Feed, clock: nat)
    ensures Receives(feed, feed, [], clock)
  {
  }

  lemma ReceivesOne(feed: Feed, id: nat, envelope: Envelope, clock: nat)
    requires id == NextId(feed.lastId, clock)
    ensures Receives(feed, Feed(feed.items + [Item(id, envelope)], id), [envelope], clock)
  {
    var now := Feed(feed.items + [Item(id, envelope)], id);
    assert Envelopes(now.items) == Envelopes(feed.items) + [envelope];
  }

  lemma ReceivesMore(a: Feed, b: Feed, c: Feed, first: seq<Envelope>, rest: seq<Envelope>, clock: nat)
    requires Receives(a, b, first, clock) && Receives(b, c, rest, clock)
    ensures Receives(a, c, first + rest, clock)
  {
    assert Envelopes(c.items) == Envelopes(a.items) + (first + rest);
    forall i | |a.items| <= i < |c.items|
      ensures a.lastId < c.items[i].id <= c.lastId && clock * PER_MILLISECOND <= c.items[i].id
    {
      if i < |b.items| { assert c.items[i] == b.items[i]; }
    }
    assert first + rest == [] ==> first == [] && rest == [];
  }

  lemma DeliverJoins(feeds: map<string, Feed>, write: Submission, clock: nat)
    ensures Joined(feeds, Deliver(feeds, write.effect, clock), [write], clock)
  {
    var after := Deliver(feeds, write.effect, clock);
    forall name ensures Receives(FeedOf(feeds, name), FeedOf(after, name), Attached([write], name), clock) {
      assert [write][..0] == [];
      if write.effect.Some? && write.effect.value.stream == name {
        var feed := FeedOf(feeds, name);
        ReceivesOne(feed, NextId(feed.lastId, clock), write.effect.value.envelope, clock);
      } else {
        ReceivesNothing(FeedOf(feeds, name), clock);
      }
    }
  }

  lemma AttachedNext(writes: seq<Submission>, name: string)
    requires writes != []
    ensures Attached(writes, name) == Attached(writes[..|writes| - 1], name) + Attached([writes[|writes| - 1]], name)
  {
    var last := [writes[|writes| - 1]];
    assert last[..0] == [] && Attached(last[..0], name) == [];
  }

  lemma JoinedMore(a: map<string, Feed>, b: map<string, Feed>, c: map<string, Feed>, writes: seq<Submission>,
                   clock: nat)
    requires writes != [] && Joined(a, b, writes[..|writes| - 1], clock) && Joined(b, c, [writes[|writes| - 1]], clock)
    ensures Joined(a, c, writes, clock)
  {
    var n := |writes| - 1;
    forall name ensures Receives(FeedOf(a, name), FeedOf(c, name), Attached(writes, name), clock) {
      AttachedNext(writes, name);
      ReceivesMore(FeedOf(a, name), FeedOf(b, name), FeedOf(c, name), Attached(writes[..n], name),
                   Attached([writes[n]], name), clock);
    }
  }

  /** Writing records joins what is attached to them. */
  lemma {:induction false} AppendAllJoins(s: Store, records: seq<Submission>, clock: nat)
    ensures Joined(s.feeds, AppendAll(s, records, clock).feeds, records, clock)
  {
    if records == [] {
      forall name ensures Receives(FeedOf(s.feeds, name), FeedOf(s.feeds, name), [], clock) {
        ReceivesNothing(FeedOf(s.feeds, name), clock);
      }
    } else {
      var n := |records| - 1;
      AppendAllJoins(s, records[..n], clock);
      var before := AppendAll(s, records[..n], clock);
      DeliverJoins(before.feeds, records[n], clock);
      JoinedMore(s.feeds, before.feeds, AppendAll(s, records, clock).feeds, records, clock);
    }
  }

  /** Linking the records of a batch leaves what is attached to them. */
  lemma {:induction false} LinkKeepsAttached(log: Log, head: Option<Hash>, writes: seq<Submission>, name: string)
    ensures Attached(Link(log, head, writes), name) == Attached(writes, name)
  {
    if writes != [] {
      var n := |writes| - 1;
      LinkKeepsAttached(log, head, writes[..n], name);
      assert Link(log, head, writes)[..n] == Link(log, head, writes[..n]);
    }
  }

  /** A committed batch puts on each agent stream exactly the envelopes attached to its
      writes for that stream, in order, behind all that is there. */
  lemma BatchJoins(log: Log, s: Store, head: Option<Hash>, writes: seq<Submission>, clock: nat)
    ensures Joined(s.feeds, AppendAll(s, Link(log, head, writes), clock).feeds, writes, clock)
  {
    AppendAllJoins(s, Link(log, head, writes), clock);
    forall name ensures Attached(Link(log, head, writes), name) == Attached(writes, name) {
      LinkKeepsAttached(log, head, writes, name);
    }
  }

  /** What a step attaches: the writes of a committed batch, or the one envelope routed. */
  ghost function StepWrites(log: Log, s: Store, step: Step): seq<Submission> {
    match step
    case Append(_, batch, _, _) => if Next(log, s, step) == s then [] else batch
    case Route(effect, _) =>
      if Recorded(History(log, s), effect.envelope.messageId)
      then [Submission(Security("", None, 2), Some(effect))] else []
    case _ => []
  }

  function StepClock(step: Step): nat { if step.Append? || step.Route? then step.clock else 0 }

  /** Every step leaves all agent streams as they were, but for what it attaches. */
  lemma StepJoins(log: Log, s: Store, step: Step)
    ensures Joined(s.feeds, Next(log, s, step).feeds, StepWrites(log, s, step), StepClock(step))
  {
    match step
    case Append(expected, batch, capacity, clock) => AppendJoins(log, s, step);
    case Route(effect, clock) => RouteJoins(log, s, step);
    case PublishSegment(segment) => Untouched(s.feeds, 0);
    case Archive(base, rows) => Untouched(s.feeds, 0);
  }

  lemma Untouched(feeds: map<string, Feed>, clock: nat)
    ensures Joined(feeds, feeds, [], clock)
  {
    forall name ensures Receives(FeedOf(feeds, name), FeedOf(feeds, name), [], clock) {
      ReceivesNothing(FeedOf(feeds, name), clock);
    }
  }

  lemma AppendJoins(log: Log, s: Store, step: Step)
    requires step.Append?
    ensures Joined(s.feeds, Next(log, s, step).feeds, StepWrites(log, s, step), step.clock)
  {
    if Next(log, s, step) == s {
      Untouched(s.feeds, step.clock);
    } else {
      BatchJoins(log, s, step.expected, step.batch, step.clock);
    }
  }

  lemma RouteJoins(log: Log, s: Store, step: Step)
    requires step.Route?
    ensures Joined(s.feeds, Next(log, s, step).feeds, StepWrites(log, s, step), step.clock)
  {
    if StepWrites(log, s, step) == [] {
      Untouched(s.feeds, step.clock);
    } else {
      DeliverJoins(s.feeds, StepWrites(log, s, step)[0], step.clock);
    }
  }

  /** What a run attaches for one stream, step by step. */
  ghost function RunAttached(log: Log, s: Store, steps: seq<Step>, name: string): seq<Envelope> {
    if steps == [] then []
    else
      var n := |steps| - 1;
      RunAttached(log, s, steps[..n], name) + Attached(StepWrites(log, Run(log, s, steps[..n]), steps[n]), name)
  }

  /**
  Over every run each agent stream holds what it held before, followed by exactly the
  envelopes attached to committed batches or routed since, in the order of the steps and
  under increasing identities: nothing is lost, replaced or reordered.
   */
  lemma {:induction false} StreamsOnlyGrow(log: Log, s: Store, steps: seq<Step>, name: string)
    ensures var was, now := FeedOf(s.feeds, name), FeedOf(Run(log, s, steps).feeds, name);
      && was.items <= now.items && was.lastId <= now.lastId && (InOrder(was) ==> InOrder(now))
      && Envelopes(now.items) == Envelopes(was.items) + RunAttached(log, s, steps, name)
  {
    var was := FeedOf(s.feeds, name);
    if steps == [] {
      assert Envelopes(was.items) + [] == Envelopes(was.items);
    } else {
      var n := |steps| - 1;
      StreamsOnlyGrow(log, s, steps[..n], name);
      var mid := Run(log, s, steps[..n]);
      StepJoins(log, mid, steps[n]);
      var writes, clock := StepWrites(log, mid, steps[n]), StepClock(steps[n]);
      var now := FeedOf(Run(log, s, steps).feeds, name);
      assert Receives(FeedOf(mid.feeds, name), now, Attached(writes, name), clock);
      Assoc(Envelopes(was.items), RunAttached(log, s, steps[..n], name), Attached(writes, name));
    }
  }
}
