/**
The two Lua scripts that change an audit stream, and the archive plan computed
around the second one.  Each script is given as a function from the stored keys
to the stored keys; class `AuditKeys` runs it statement by statement in place.
 */
module AuditScripts {
  import opened Options
  import opened AuditLog

  /** Stream identities available within one millisecond. */
  const PER_MILLISECOND: nat := 0x1_0000_0000_0000_0000
  const MAX_ID: nat := 0x1_0000_0000_0000_0000 * 0x1_0000_0000_0000_0000 - 1

  datatype Envelope = Envelope(messageId: string, text: string)

  /** A stream append committed together with its audit record. */
  datatype Effect = Effect(stream: string, envelope: Envelope)

  datatype Submission = Submission(entry: Entry, effect: Option<Effect>)

  datatype Index = Index(rows: seq<Row>, lastId: nat)

  datatype Item = Item(id: nat, envelope: Envelope)
  datatype Feed = Feed(items: seq<Item>, lastId: nat)

  /** Everything stored for one audit stream, with the agent streams it appends to. */
  datatype Store = Store(
    live: seq<Row>,
    lastId: nat,
    head: Option<Hash>,
    indexes: map<Key, Index>,
    anchor: Option<Checkpoint>,
    segments: map<Digest, Segment>,
    feeds: map<string, Feed>)

  const EMPTY := Store([], 0, None, map[], None, map[], map[])

  datatype Reply =
    | Appended(ids: seq<nat>)
    | Retry(head: Option<Hash>)
    | Capacity(available: int)
    | Refused(reason: string)

  function KeysOf(entry: Entry): seq<Key> {
    match entry
    case Message(_, sender, target, _, _, _, _) => [BySender(sender), ByTarget(target)]
    case Security(_, _, _) => []
  }

  function IndexRows(indexes: map<Key, Index>, key: Key): seq<Row> {
    if key in indexes then indexes[key].rows else []
  }

  function IndexLast(indexes: map<Key, Index>, key: Key): nat {
    if key in indexes then indexes[key].lastId else 0
  }

  function FeedOf(feeds: map<string, Feed>, name: string): Feed {
    if name in feeds then feeds[name] else Feed([], 0)
  }

  /** The identity Redis gives to `XADD *` at `clock` milliseconds: the least one above the
      last that is not of an earlier millisecond. */
  function NextId(last: nat, clock: nat): (id: nat)
    ensures last < id && clock * PER_MILLISECOND <= id
    ensures id == last + 1 || id == clock * PER_MILLISECOND
  {
    if clock * PER_MILLISECOND > last then clock * PER_MILLISECOND else last + 1
  }

  /** The script's test that `count` further identities would not fit in 64-bit parts. */
  predicate Exhausted(last: nat, count: nat) {
    && last / PER_MILLISECOND == PER_MILLISECOND - 1
    && last % PER_MILLISECOND + count > PER_MILLISECOND - 1
  }

  function Push(indexes: map<Key, Index>, key: Key, row: Row): map<Key, Index> {
    indexes[key := Index(IndexRows(indexes, key) + [row], row.id)]
  }

  function PushAll(indexes: map<Key, Index>, keys: seq<Key>, row: Row): map<Key, Index> {
    if keys == [] then indexes
    else Push(PushAll(indexes, keys[..|keys| - 1], row), keys[|keys| - 1], row)
  }

  function Deliver(feeds: map<string, Feed>, effect: Option<Effect>, clock: nat): map<string, Feed> {
    if effect.None? then feeds
    else
      var feed := FeedOf(feeds, effect.value.stream);
      var id := NextId(feed.lastId, clock);
      feeds[effect.value.stream := Feed(feed.items + [Item(id, effect.value.envelope)], id)]
  }

  function AppendRecord(s: Store, record: Submission, clock: nat): Store {
    var row := Row(NextId(s.lastId, clock), Decoded(record.entry));
    s.(live := s.live + [row],
       lastId := row.id,
       indexes := PushAll(s.indexes, KeysOf(record.entry), row),
       feeds := Deliver(s.feeds, record.effect, clock))
  }

  function AppendAll(s: Store, records: seq<Submission>, clock: nat): (r: Store)
    ensures |r.live| == |s.live| + |records|
  {
    if records == [] then s
    else AppendRecord(AppendAll(s, records[..|records| - 1], clock), records[|records| - 1], clock)
  }

  /** How many records of the batch append to the agent stream `name`. */
  function Effects(records: seq<Submission>, name: string): nat {
    if records == [] then 0
    else
      (if records[0].effect.Some? && records[0].effect.value.stream == name then 1 else 0)
      + Effects(records[1..], name)
  }

  predicate IndexAhead(s: Store, records: seq<Submission>) {
    exists i | 0 <= i < |records| :: exists key | key in KeysOf(records[i].entry) ::
      IndexLast(s.indexes, key) > s.lastId
  }

  predicate FeedExhausted(s: Store, records: seq<Submission>) {
    exists i | 0 <= i < |records| ::
      && records[i].effect.Some?
      && Exhausted(FeedOf(s.feeds, records[i].effect.value.stream).lastId,
                   Effects(records, records[i].effect.value.stream))
  }

  /** Compare-and-append: the batch enters only when the stored head is `expected`. */
  function AppendScript(s: Store, expected: Option<Hash>, final: Option<Hash>,
                        capacity: nat, records: seq<Submission>, clock: nat): (Store, Reply)
  {
    if s.head != expected then (s, Retry(s.head))
    else if s.live != [] && s.head.None? then (s, Refused("missing_audit_chain_head"))
    else if records == [] then (s, Refused("invalid_audit_batch"))
    else if |records| > capacity - |s.live| then (s, Capacity(capacity - |s.live|))
    else if IndexAhead(s, records) then (s, Refused("invalid_audit_index_position"))
    else if Exhausted(s.lastId, |records|) || FeedExhausted(s, records) then
      (s, Refused("audit_stream_id_exhausted"))
    else
      var after := AppendAll(s, records, clock);
      (after.(head := final), Appended(Ids(after.live[|s.live|..])))
  }

  lemma AppendedShape(s: Store, head: Option<Hash>, final: Option<Hash>, capacity: nat, records: seq<Submission>,
                      clock: nat, result: (Store, Reply))
    requires result == AppendScript(s, head, final, capacity, records, clock)
    ensures !result.1.Appended? ==> result.0 == s
    ensures result.1.Capacity? ==> result.1.available < |records| && result.1.available == capacity - |s.live|
    ensures result.1.Retry? <==> s.head != head
    ensures result.1.Retry? ==> result.1.head == s.head
    ensures result.1.Appended? ==>
      && 0 < |records| && s.head == head && |result.0.live| == |s.live| + |records| <= capacity
      && result.0.feeds == AppendAll(s, records, clock).feeds && result.0.live == AppendAll(s, records, clock).live
      && result.1.ids == Ids(result.0.live[|s.live|..])
  {
  }

  function Ids(rows: seq<Row>): seq<nat> {
    seq(|rows|, i requires 0 <= i < |rows| => rows[i].id)
  }

  function From(least: nat): Row -> bool {
    (row: Row) => least <= row.id
  }

  function Within(low: nat, high: nat): Row -> bool {
    (row: Row) => low <= row.id <= high
  }

  /** `XRANGE low high COUNT count`. */
  function Range(rows: seq<Row>, low: nat, high: nat, count: nat): seq<Row> {
    Take(Some(count), Select(Within(low, high), rows))
  }

  function RowKeys(rows: seq<Row>): set<Key> {
    set i, key | 0 <= i < |rows| && rows[i].fields.Decoded? && key in KeysOf(rows[i].fields.entry) :: key
  }

  /** `XTRIM MINID` on the named index streams, deleting those left empty. */
  function TrimIndexes(indexes: map<Key, Index>, keys: set<Key>, least: nat): map<Key, Index> {
    map key | key in indexes && (key in keys ==> Select(From(least), indexes[key].rows) != []) ::
      if key in keys
      then Index(Select(From(least), indexes[key].rows), indexes[key].lastId)
      else indexes[key]
  }

  /** Compare-and-trim: the archived rows leave only if they are still the live prefix. */
  function ArchiveScript(s: Store, expected: Option<Checkpoint>, rows: seq<Row>, next: Checkpoint): (Store, bool)
  {
    if s.anchor != expected || Range(s.live, 0, next.lastId, |rows| + 1) != rows then (s, false)
    else
      (s.(anchor := Some(next),
          live := Select(From(next.lastId + 1), s.live),
          indexes := TrimIndexes(s.indexes, RowKeys(rows), next.lastId + 1)), true)
  }

  /** The segment holding `rows` after the anchor `base`. */
  function SegmentFor(log: Log, base: Option<Checkpoint>, rows: seq<Row>): Segment
    requires rows != []
  {
    Segment(log.stream, base, rows, log.HashOf(rows[|rows| - 1]))
  }

  function CheckpointFor(log: Log, base: Option<Checkpoint>, rows: seq<Row>): Checkpoint
    requires rows != []
  {
    var last := rows[|rows| - 1];
    Checkpoint(log.stream, last.id, log.HashOf(last), log.digest(SegmentFor(log, base, rows)), Total(base) + |rows|)
  }

  /** Publishing is idempotent; a different body under the same digest is refused. */
  function Publish(log: Log, segments: map<Digest, Segment>, segment: Segment): map<Digest, Segment> {
    if log.digest(segment) in segments then segments else segments[log.digest(segment) := segment]
  }

  /** Walk the snapshot rows, refusing any that do not continue the archived chain. */
  method PlanArchive(log: Log, base: Option<Checkpoint>, rows: seq<Row>)
    returns (plan: Option<(Segment, Checkpoint)>)
    ensures plan.Some? <==>
      rows != [] && log.Chained(AnchorHash(base), rows) && rows[|rows| - 1].id < MAX_ID
    ensures plan.Some? ==> plan.value == (SegmentFor(log, base, rows), CheckpointFor(log, base, rows))
  {
    if rows == [] { return None; }
    var expected := AnchorHash(base);
    for i := 0 to |rows|
      invariant log.Chained(AnchorHash(base), rows[..i])
      invariant expected == log.Tip(AnchorHash(base), rows[..i])
    {
      if !log.Sound(rows[i]) || rows[i].fields.entry.previous != expected {
        assert !log.LinkedAt(AnchorHash(base), rows, i);
        return None;
      }
      log.ChainedConcat(AnchorHash(base), rows[..i], [rows[i]]);
      assert log.LinkedAt(expected, [rows[i]], 0) && rows[..i + 1] == rows[..i] + [rows[i]];
      expected := Some(log.HashOf(rows[i]));
    }
    assert rows[..|rows|] == rows;
    var last := rows[|rows| - 1];
    if last.id >= MAX_ID { return None; }
    var segment := Segment(log.stream, base, rows, expected.value);
    plan := Some((segment, Checkpoint(log.stream, last.id, expected.value, log.digest(segment), Total(base) + |rows|)));
  }

  /** A batch of fresh records, linked one after another behind `previous`. */
  function Link(log: Log, previous: Option<Hash>, batch: seq<Submission>): (linked: seq<Submission>)
    ensures |linked| == |batch|
  {
    if batch == [] then []
    else
      var n := |batch| - 1;
      var tip := LinkTip(log, previous, batch[..n]);
      Link(log, previous, batch[..n]) + [batch[n].(entry := batch[n].entry.(previous := tip))]
  }

  /** The hash of the last linked record: the head the batch leaves behind. */
  function LinkTip(log: Log, previous: Option<Hash>, batch: seq<Submission>): Option<Hash> {
    if batch == [] then previous
    else
      var n := |batch| - 1;
      Some(log.hash(batch[n].entry.(previous := LinkTip(log, previous, batch[..n]))))
  }
}
