/**
Every interleaving of appends, segment publications, archive commits and separate
routing steps by any number of brokers.  A step carries whatever its broker believed
when it computed it: an append any cached head, an archive commit any snapshot.  So a
run covers stale caches, retries, crashed brokers and replies that were lost.
 */
module AuditRuns {
  import opened Options
  import opened AuditLog
  import opened AuditScripts

  const ROUTABLE := {"ALLOWED", "ALERT", "DLP_REDACTED"}

  datatype Step =
    | Append(expected: Option<Hash>, batch: seq<Submission>, capacity: nat, clock: nat)
    | PublishSegment(segment: Segment)
    | Archive(base: Option<Checkpoint>, rows: seq<Row>)
    | Route(effect: Effect, clock: nat)

  /** What `log_message` and the record models accept: version 2, and a stream append
      only with a routable decision for the same message. */
  predicate Admissible(log: Log, submission: Submission) {
    && log.Sound(Row(0, Decoded(submission.entry)))
    && (submission.effect.Some? ==>
          && submission.entry.Message?
          && submission.entry.decision in ROUTABLE
          && submission.effect.value.envelope.messageId == submission.entry.messageId)
  }

  predicate Recorded(rows: seq<Row>, messageId: string) {
    exists row :: row in rows && Records(row, messageId)
  }

  predicate Records(row: Row, messageId: string) {
    && row.fields.Decoded? && row.fields.entry.Message?
    && row.fields.entry.messageId == messageId && row.fields.entry.decision in ROUTABLE
  }

  function Next(log: Log, s: Store, step: Step): Store {
    match step
    case Append(expected, batch, capacity, clock) =>
      if exists i :: 0 <= i < |batch| && !Admissible(log, batch[i]) then s
      else AppendScript(s, expected, LinkTip(log, expected, batch), capacity, Link(log, expected, batch), clock).0
    case PublishSegment(segment) =>
      s.(segments := Publish(log, s.segments, segment))
    case Archive(base, rows) =>
      // PlanArchive succeeded and its segment is published
      if rows == [] || !log.Chained(AnchorHash(base), rows)
         || log.Read(s.segments, log.digest(SegmentFor(log, base, rows))) != Some(SegmentFor(log, base, rows))
      then s
      else ArchiveScript(s, base, rows, CheckpointFor(log, base, rows)).0
    case Route(effect, clock) =>
      // route_message runs only after its audit record was committed
      if !Recorded(History(log, s), effect.envelope.messageId) then s
      else s.(feeds := Deliver(s.feeds, Some(effect), clock))
  }

  function Run(log: Log, s: Store, steps: seq<Step>): Store {
    if steps == [] then s
    else Next(log, Run(log, s, steps[..|steps| - 1]), steps[|steps| - 1])
  }

  /** The rows a step reports as appended: the replied identities with the linked records. */
  ghost function Added(log: Log, s: Store, step: Step): seq<Row> {
    if step.Append? && Next(log, s, step) != s then
      var records := Link(log, step.expected, step.batch);
      var final := LinkTip(log, step.expected, step.batch);
      var reply := AppendScript(s, step.expected, final, step.capacity, records, step.clock).1;
      if reply.Appended? && |reply.ids| == |records|
      then seq(|records|, i requires 0 <= i < |records| => Row(reply.ids[i], Decoded(records[i].entry)))
      else []
    else []
  }

  /** Everything ever appended along a run. */
  ghost function Logged(log: Log, s: Store, steps: seq<Step>): seq<Row> {
    if steps == [] then []
    else
      var n := |steps| - 1;
      Logged(log, s, steps[..n]) + Added(log, Run(log, s, steps[..n]), steps[n])
  }

  /** Archived rows followed by live rows. */
  function History(log: Log, s: Store): seq<Row> {
    log.Archived(s.segments, s.anchor) + s.live
  }

  function MatchKey(key: Key): Row -> bool {
    (row: Row) => Matches(key, row)
  }

  /** The archive is intact and the live rows continue its chain. */
  ghost predicate Anchored(log: Log, segments: map<Digest, Segment>, anchor: Option<Checkpoint>,
                           live: seq<Row>, lastId: nat)
  {
    && log.Intact(segments, anchor)
    && log.Chained(AnchorHash(anchor), live)
    && Ordered(AnchorId(anchor), live)
    && AnchorId(anchor) <= lastId
    && (forall i :: 0 <= i < |live| ==> live[i].id <= lastId)
  }

  /** Each index stream is the live stream filtered by its key. */
  ghost predicate Indexed(indexes: map<Key, Index>, live: seq<Row>, lastId: nat) {
    forall key :: IndexedBy(indexes, live, lastId, key)
  }

  ghost predicate IndexedBy(indexes: map<Key, Index>, live: seq<Row>, lastId: nat, key: Key) {
    && IndexRows(indexes, key) == Select(MatchKey(key), live)
    && IndexLast(indexes, key) <= lastId
  }

  /** Every enqueued envelope has its audit record. */
  ghost predicate Audited(feeds: map<string, Feed>, rows: seq<Row>) {
    forall name, i :: name in feeds && 0 <= i < |feeds[name].items| ==>
      Recorded(rows, feeds[name].items[i].envelope.messageId)
  }

  ghost predicate Consistent(log: Log, s: Store) {
    && Anchored(log, s.segments, s.anchor, s.live, s.lastId)
    && Indexed(s.indexes, s.live, s.lastId)
    && Audited(s.feeds, History(log, s))
  }

  function LiveTip(log: Log, s: Store): Option<Hash> {
    log.Tip(AnchorHash(s.anchor), s.live)
  }

  ghost predicate Inv(log: Log, s: Store) {
    Consistent(log, s) && s.head == LiveTip(log, s)
  }

  lemma PushRows(indexes: map<Key, Index>, entry: Entry, row: Row, key: Key)
    requires row.fields == Decoded(entry)
    ensures IndexRows(PushAll(indexes, KeysOf(entry), row), key)
         == IndexRows(indexes, key) + if Matches(key, row) then [row] else []
    ensures IndexLast(PushAll(indexes, KeysOf(entry), row), key)
         == if Matches(key, row) then row.id else IndexLast(indexes, key)
  {
    if entry.Message? {
      var keys := KeysOf(entry);
      assert keys[..1] == [BySender(entry.sender)] && keys[..1][..0] == [];
      assert PushAll(indexes, keys[..1], row) == Push(indexes, BySender(entry.sender), row);
    }
  }

  lemma AuditedGrows(feeds: map<string, Feed>, rows: seq<Row>, more: seq<Row>)
    requires Audited(feeds, rows)
    ensures Audited(feeds, rows + more)
  {
    forall name, i | name in feeds && 0 <= i < |feeds[name].items|
      ensures Recorded(rows + more, feeds[name].items[i].envelope.messageId)
    {
      var row :| row in rows && Records(row, feeds[name].items[i].envelope.messageId);
      assert row in rows + more;
    }
  }

  lemma ChainGrows(log: Log, s: Store, row: Row)
    requires Anchored(log, s.segments, s.anchor, s.live, s.lastId)
    requires log.Sound(row) && row.fields.entry.previous == LiveTip(log, s) && row.id > s.lastId
    ensures Anchored(log, s.segments, s.anchor, s.live + [row], row.id)
    ensures log.Tip(AnchorHash(s.anchor), s.live + [row]) == Some(log.HashOf(row))
  {
    log.ChainedConcat(AnchorHash(s.anchor), s.live, [row]);
    assert log.LinkedAt(LiveTip(log, s), [row], 0);
  }

  lemma IndexGrows(indexes: map<Key, Index>, live: seq<Row>, lastId: nat, entry: Entry, row: Row)
    requires Indexed(indexes, live, lastId) && row.fields == Decoded(entry) && row.id > lastId
    ensures Indexed(PushAll(indexes, KeysOf(entry), row), live + [row], row.id)
  {
    forall key ensures IndexedBy(PushAll(indexes, KeysOf(entry), row), live + [row], row.id, key) {
      assert IndexedBy(indexes, live, lastId, key);
      PushRows(indexes, entry, row, key);
      assert (live + [row])[..|live|] == live;
    }
  }

  lemma AppendRecordAudited(log: Log, s: Store, record: Submission, clock: nat)
    requires Audited(s.feeds, History(log, s)) && Admissible(log, record)
    ensures var after := AppendRecord(s, record, clock); Audited(after.feeds, History(log, after))
  {
    var after := AppendRecord(s, record, clock);
    var row := after.live[|s.live|];
    var rows := History(log, after);
    assert rows == History(log, s) + [row];
    AuditedGrows(s.feeds, History(log, s), [row]);
    assert row in rows;
    if record.effect.Some? { assert Records(row, record.effect.value.envelope.messageId); }
  }

  lemma AppendRecordKeeps(log: Log, s: Store, record: Submission, clock: nat)
    requires Consistent(log, s) && Admissible(log, record) && record.entry.previous == LiveTip(log, s)
    ensures var after := AppendRecord(s, record, clock);
      Consistent(log, after) && LiveTip(log, after) == Some(log.hash(record.entry))
  {
    var row := Row(NextId(s.lastId, clock), Decoded(record.entry));
    ChainGrows(log, s, row);
    IndexGrows(s.indexes, s.live, s.lastId, record.entry, row);
    AppendRecordAudited(log, s, record, clock);
  }

  lemma {:induction false} AppendAllShape(s: Store, records: seq<Submission>, clock: nat)
    ensures var after := AppendAll(s, records, clock);
      && after.anchor == s.anchor && after.segments == s.segments && s.live <= after.live
      && forall i :: 0 <= i < |records| ==> after.live[|s.live| + i].fields == Decoded(records[i].entry)
  {
    if records != [] {
      AppendAllShape(s, records[..|records| - 1], clock);
    }
  }

  /** A linked batch keeps the store consistent and leaves the announced head. */
  lemma {:induction false} AppendAllConsistent(log: Log, s: Store, tip: Option<Hash>, batch: seq<Submission>,
                                               clock: nat)
    requires Consistent(log, s) && tip == LiveTip(log, s)
    requires forall i :: 0 <= i < |batch| ==> Admissible(log, batch[i])
    ensures Consistent(log, AppendAll(s, Link(log, tip, batch), clock))
    ensures LiveTip(log, AppendAll(s, Link(log, tip, batch), clock)) == LinkTip(log, tip, batch)
  {
    if batch != [] {
      var n := |batch| - 1;
      AppendAllConsistent(log, s, tip, batch[..n], clock);
      var records := Link(log, tip, batch);
      assert records[..n] == Link(log, tip, batch[..n]);
      assert Admissible(log, batch[n]) && Admissible(log, records[n]);
      AppendRecordKeeps(log, AppendAll(s, records[..n], clock), records[n], clock);
    }
  }

  lemma TrimmedIndexes(indexes: map<Key, Index>, rows: seq<Row>, live: seq<Row>, least: nat, key: Key)
    requires IndexRows(indexes, key) == Select(MatchKey(key), live)
    requires forall r :: r in live && r.id < least ==> r in rows
    ensures IndexRows(TrimIndexes(indexes, RowKeys(rows), least), key)
      == Select(MatchKey(key), Select(From(least), live))
  {
    SelectCommute(MatchKey(key), From(least), live);
    SelectMember(MatchKey(key), live);
    forall r | r in Select(MatchKey(key), live) && r.id < least ensures key in RowKeys(rows) {
      var i :| 0 <= i < |rows| && rows[i] == r;
      assert key in KeysOf(rows[i].fields.entry);
    }
    if key !in RowKeys(rows) {
      SelectAll(From(least), Select(MatchKey(key), live));
    }
  }

  /** On ordered rows, a range up to the last of its rows is exactly a prefix. */
  lemma PrefixRange(live: seq<Row>, rows: seq<Row>, low: nat)
    requires Ordered(low, live) && rows != []
    requires Range(live, 0, rows[|rows| - 1].id, |rows| + 1) == rows
    ensures |rows| <= |live| && live[..|rows|] == rows
    ensures Select(From(rows[|rows| - 1].id + 1), live) == live[|rows|..]
    ensures forall r :: r in live && r.id < rows[|rows| - 1].id + 1 ==> r in rows
  {
    var high := rows[|rows| - 1].id;
    var k := SelectSplit(live, low, high);
    assert Range(live, 0, high, |rows| + 1) == Take(Some(|rows| + 1), live[..k]);
    TakeAll(live[..k], rows);
  }

  lemma TakeAll<T>(all: seq<T>, taken: seq<T>)
    requires Take(Some(|taken| + 1), all) == taken
    ensures all == taken
  {
  }

  lemma Rejoin<T>(all: seq<T>, front: seq<T>, rest: seq<T>)
    requires |front| <= |all| && all[..|front|] == front && all[|front|..] == rest
    ensures all == front + rest
  {
  }

  lemma SelectSplit(live: seq<Row>, low: nat, high: nat) returns (k: nat)
    requires Ordered(low, live)
    ensures k <= |live|
    ensures Select(Within(0, high), live) == live[..k] && Select(From(high + 1), live) == live[k..]
    ensures forall r :: r in live && r.id <= high ==> r in live[..k]
  {
    k := Split(live, low, high);
    assert live == live[..k] + live[k..];
    SelectConcat(Within(0, high), live[..k], live[k..]);
    SelectAll(Within(0, high), live[..k]);
    SelectNone(Within(0, high), live[k..]);
    SelectConcat(From(high + 1), live[..k], live[k..]);
    SelectNone(From(high + 1), live[..k]);
    SelectAll(From(high + 1), live[k..]);
  }

  /** The number of leading rows with identity at most `high`. */
  lemma Split(live: seq<Row>, low: nat, high: nat) returns (k: nat)
    requires Ordered(low, live)
    ensures k <= |live|
    ensures forall r :: r in live[..k] ==> r.id <= high
    ensures forall r :: r in live[k..] ==> r.id > high
  {
    k := 0;
    while k < |live| && live[k].id <= high
      invariant k <= |live| && forall i :: 0 <= i < k ==> live[i].id <= high
    {
      k := k + 1;
    }
  }

  lemma ArchiveIndexed(indexes: map<Key, Index>, live: seq<Row>, lastId: nat, rows: seq<Row>, least: nat)
    requires Indexed(indexes, live, lastId)
    requires forall r :: r in live && r.id < least ==> r in rows
    ensures Indexed(TrimIndexes(indexes, RowKeys(rows), least), Select(From(least), live), lastId)
  {
    forall key ensures IndexedBy(TrimIndexes(indexes, RowKeys(rows), least), Select(From(least), live), lastId, key) {
      assert IndexedBy(indexes, live, lastId, key);
      TrimmedIndexes(indexes, rows, live, least, key);
    }
  }

  /** Moving a prefix across the anchor keeps the chain and the history. */
  lemma ArchiveAnchored(log: Log, segments: map<Digest, Segment>, base: Option<Checkpoint>,
                        rows: seq<Row>, rest: seq<Row>, lastId: nat)
    requires rows != [] && Anchored(log, segments, base, rows + rest, lastId)
    requires log.Read(segments, log.digest(SegmentFor(log, base, rows))) == Some(SegmentFor(log, base, rows))
    ensures var next := Some(CheckpointFor(log, base, rows));
      && Anchored(log, segments, next, rest, lastId)
      && log.Archived(segments, next) + rest == log.Archived(segments, base) + (rows + rest)
      && log.Tip(AnchorHash(next), rest) == log.Tip(AnchorHash(base), rows + rest)
  {
    log.ChainedConcat(AnchorHash(base), rows, rest);
    OrderedParts(AnchorId(base), rows, rest, lastId);
    assert log.SegmentIntact(segments, CheckpointFor(log, base, rows));
    assert log.Archived(segments, Some(CheckpointFor(log, base, rows))) == log.Archived(segments, base) + rows;
    Assoc(log.Archived(segments, base), rows, rest);
  }

  lemma OrderedParts(low: nat, rows: seq<Row>, rest: seq<Row>, lastId: nat)
    requires rows != [] && Ordered(low, rows + rest)
    requires forall i :: 0 <= i < |rows + rest| ==> (rows + rest)[i].id <= lastId
    ensures Ordered(low, rows) && Ordered(rows[|rows| - 1].id, rest) && rows[|rows| - 1].id <= lastId
    ensures forall i :: 0 <= i < |rest| ==> rest[i].id <= lastId
  {
    var live := rows + rest;
    forall i | 0 <= i < |rows| ensures live[i] == rows[i] {}
    forall i | 0 <= i < |rest| ensures live[|rows| + i] == rest[i] {}
  }

  lemma ArchiveMoves(log: Log, segments: map<Digest, Segment>, base: Option<Checkpoint>,
                     live: seq<Row>, lastId: nat, rows: seq<Row>, rest: seq<Row>)
    requires rows != [] && Anchored(log, segments, base, live, lastId)
    requires log.Read(segments, log.digest(SegmentFor(log, base, rows))) == Some(SegmentFor(log, base, rows))
    requires Range(live, 0, rows[|rows| - 1].id, |rows| + 1) == rows
    requires rest == Select(From(rows[|rows| - 1].id + 1), live)
    ensures var next := Some(CheckpointFor(log, base, rows));
      && Anchored(log, segments, next, rest, lastId)
      && log.Archived(segments, next) + rest == log.Archived(segments, base) + live
      && log.Tip(AnchorHash(next), rest) == log.Tip(AnchorHash(base), live)
    ensures forall r :: r in live && r.id < rows[|rows| - 1].id + 1 ==> r in rows
  {
    PrefixRange(live, rows, AnchorId(base));
    Rejoin(live, rows, rest);
    ArchiveAnchored(log, segments, base, rows, rest, lastId);
  }

  lemma ArchiveKeeps(log: Log, s: Store, base: Option<Checkpoint>, rows: seq<Row>, after: Store)
    requires Inv(log, s) && rows != []
    requires log.Read(s.segments, log.digest(SegmentFor(log, base, rows))) == Some(SegmentFor(log, base, rows))
    requires ArchiveScript(s, base, rows, CheckpointFor(log, base, rows)) == (after, true)
    ensures Inv(log, after) && History(log, after) == History(log, s)
  {
    var least := rows[|rows| - 1].id + 1;
    assert after == s.(anchor := Some(CheckpointFor(log, base, rows)), live := Select(From(least), s.live),
                       indexes := TrimIndexes(s.indexes, RowKeys(rows), least));
    ArchiveMoves(log, s.segments, base, s.live, s.lastId, rows, after.live);
    assert History(log, after) == History(log, s) && LiveTip(log, after) == LiveTip(log, s);
    ArchiveIndexed(s.indexes, s.live, s.lastId, rows, rows[|rows| - 1].id + 1);
  }

  lemma AppendKeeps(log: Log, s: Store, step: Step, after: Store)
    requires Inv(log, s) && step.Append? && after == Next(log, s, step) && after != s
    ensures Inv(log, after) && after.anchor == s.anchor && after.segments == s.segments
    ensures History(log, after) == History(log, s) + Added(log, s, step)
  {
    var records := Link(log, step.expected, step.batch);
    var grown := AppendAll(s, records, step.clock);
    assert after == grown.(head := LinkTip(log, step.expected, step.batch)) && s.head == step.expected;
    AppendAllConsistent(log, s, step.expected, step.batch, step.clock);
    AppendAllShape(s, records, step.clock);
    AddedSuffix(log, s, step, grown.live);
    Assoc(log.Archived(s.segments, s.anchor), s.live, Added(log, s, step));
  }

  lemma AddedSuffix(log: Log, s: Store, step: Step, live: seq<Row>)
    requires step.Append? && Next(log, s, step) != s
    requires live == AppendAll(s, Link(log, step.expected, step.batch), step.clock).live && s.live <= live
    requires forall i :: 0 <= i < |step.batch| ==>
      live[|s.live| + i].fields == Decoded(Link(log, step.expected, step.batch)[i].entry)
    ensures s.live + Added(log, s, step) == live
  {
    var more := live[|s.live|..];
    var records, final := Link(log, step.expected, step.batch), LinkTip(log, step.expected, step.batch);
    var result := AppendScript(s, step.expected, final, step.capacity, records, step.clock);
    AppendedShape(s, step.expected, final, step.capacity, records, step.clock, result);
    AddedRows(log, s, step, records, more);
    Rejoin(live, s.live, more);
  }

  /** The replied identities with the linked records are the rows that were written. */
  lemma AddedRows(log: Log, s: Store, step: Step, records: seq<Submission>, more: seq<Row>)
    requires step.Append? && Next(log, s, step) != s && records == Link(log, step.expected, step.batch)
    requires |more| == |records| && forall i :: 0 <= i < |more| ==> more[i].fields == Decoded(records[i].entry)
    requires AppendScript(s, step.expected, LinkTip(log, step.expected, step.batch), step.capacity, records,
                          step.clock).1 == Appended(Ids(more))
    ensures Added(log, s, step) == more
  {
    var added := Added(log, s, step);
    forall i | 0 <= i < |more| ensures added[i] == more[i] { assert Ids(more)[i] == more[i].id; }
  }

  lemma Assoc<T>(a: seq<T>, b: seq<T>, c: seq<T>)
    ensures a + (b + c) == (a + b) + c
  {
  }

  /** Every step keeps the store consistent and extends the history by what it reports. */
  lemma NextKeeps(log: Log, s: Store, step: Step)
    requires Inv(log, s)
    ensures Inv(log, Next(log, s, step))
    ensures History(log, Next(log, s, step)) == History(log, s) + Added(log, s, step)
    ensures Next(log, s, step).anchor == s.anchor || Total(s.anchor) < Total(Next(log, s, step).anchor)
    ensures forall d :: d in s.segments ==>
      d in Next(log, s, step).segments && Next(log, s, step).segments[d] == s.segments[d]
  {
    var after := Next(log, s, step);
    match step
    case Append(expected, batch, capacity, clock) =>
      if after != s { AppendKeeps(log, s, step, after); }
    case PublishSegment(segment) => PublishKeeps(log, s, segment, after);
    case Archive(base, rows) =>
      if after != s { ArchiveKeeps(log, s, base, rows, after); }
    case Route(effect, clock) => RouteKeeps(log, s, effect, clock);
    if !step.Append? || after == s { NoRows(History(log, s), Added(log, s, step)); }
  }

  lemma NoRows(rows: seq<Row>, added: seq<Row>)
    requires added == []
    ensures rows + added == rows
  {
  }

  lemma PublishKeeps(log: Log, s: Store, segment: Segment, after: Store)
    requires Inv(log, s) && after == s.(segments := Publish(log, s.segments, segment))
    ensures Inv(log, after) && History(log, after) == History(log, s)
  {
    log.ArchivedStable(s.segments, after.segments, s.anchor);
  }

  lemma RouteKeeps(log: Log, s: Store, effect: Effect, clock: nat)
    requires Inv(log, s)
    ensures Inv(log, Next(log, s, Route(effect, clock)))
  {
  }

  /** The empty store is where every run starts. */
  lemma EmptyInv(log: Log)
    ensures Inv(log, EMPTY)
  {
  }

  lemma InvChain(log: Log, s: Store)
    requires Inv(log, s)
    ensures log.Chained(None, History(log, s)) && log.Tip(None, History(log, s)) == s.head
    ensures Ordered(0, History(log, s)) && |History(log, s)| == Total(s.anchor) + |s.live|
    ensures s.live != [] ==> log.LinkedAt(AnchorHash(s.anchor), s.live, 0)
  {
    log.ArchivedChain(s.segments, s.anchor);
    log.ChainedConcat(None, log.Archived(s.segments, s.anchor), s.live);
  }

  /**
  Over every run: the archived rows followed by the live rows are exactly the rows ever
  appended, they form one unbroken chain from no predecessor to the stored head, the
  first live row links to the checkpoint, the counts add up, and every envelope ever
  enqueued has its audit record with a routable decision.
   */
  lemma {:induction false} RunKeepsOneChain(log: Log, steps: seq<Step>)
    ensures var s := Run(log, EMPTY, steps);
      && Inv(log, s)
      && History(log, s) == Logged(log, EMPTY, steps)
      && log.Chained(None, History(log, s)) && log.Tip(None, History(log, s)) == s.head
      && Ordered(0, History(log, s))
      && |s.live| + Total(s.anchor) == |Logged(log, EMPTY, steps)|
      && (s.live != [] ==> log.LinkedAt(AnchorHash(s.anchor), s.live, 0))
      && forall name, i :: name in s.feeds && 0 <= i < |s.feeds[name].items| ==>
           Recorded(Logged(log, EMPTY, steps), s.feeds[name].items[i].envelope.messageId)
  {
    if steps == [] {
      EmptyInv(log);
    } else {
      var n := |steps| - 1;
      RunKeepsOneChain(log, steps[..n]);
      NextKeeps(log, Run(log, EMPTY, steps[..n]), steps[n]);
    }
    InvChain(log, Run(log, EMPTY, steps));
  }
}
