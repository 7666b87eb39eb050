/**
The audit scripts run in place on the stored keys.  `XADD` fails when an identity
does not exceed the last one of its stream or does not fit in 64-bit parts, and a
failing command would leave earlier writes of the same script behind.  The
`assert false` branches are those failures: none is reachable.
 */
module AuditKeys {
  import opened Options
  import opened AuditLog
  import opened AuditScripts

  /** What the checks of the append script guarantee about the writes still to come. */
  ghost predicate Writable(s: Store, records: seq<Submission>) {
    && s.lastId + |records| <= MAX_ID
    && (forall i, key :: 0 <= i < |records| && key in KeysOf(records[i].entry) ==>
          IndexLast(s.indexes, key) <= s.lastId)
    && (forall name :: FeedOf(s.feeds, name).lastId + Effects(records, name) <= MAX_ID || Effects(records, name) == 0)
  }

  lemma {:induction false} EffectsBound(records: seq<Submission>, name: string)
    ensures Effects(records, name) <= |records|
    ensures Effects(records, name) > 0 ==>
      exists i :: 0 <= i < |records| && records[i].effect.Some? && records[i].effect.value.stream == name
  {
    if records != [] {
      EffectsBound(records[1..], name);
      if Effects(records[1..], name) > 0 {
        var i :| 0 <= i < |records[1..]| && records[1..][i].effect.Some? && records[1..][i].effect.value.stream == name;
        assert records[i + 1].effect.value.stream == name;
      }
    }
  }

  lemma Fits(last: nat, count: nat)
    requires last <= MAX_ID && count < PER_MILLISECOND && !Exhausted(last, count)
    ensures last + count <= MAX_ID
  {
    assert last == last / PER_MILLISECOND * PER_MILLISECOND + last % PER_MILLISECOND;
    if last / PER_MILLISECOND <= PER_MILLISECOND - 2 {
      assert last / PER_MILLISECOND * PER_MILLISECOND <= (PER_MILLISECOND - 2) * PER_MILLISECOND;
    }
  }

  ghost predicate IdsFit(s: Store) {
    s.lastId <= MAX_ID && forall name :: name in s.feeds ==> s.feeds[name].lastId <= MAX_ID
  }

  lemma ChecksSuffice(s: Store, records: seq<Submission>)
    requires IdsFit(s) && |records| < PER_MILLISECOND
    requires !IndexAhead(s, records) && !Exhausted(s.lastId, |records|) && !FeedExhausted(s, records)
    ensures Writable(s, records)
  {
    Fits(s.lastId, |records|);
    forall name | Effects(records, name) > 0
      ensures FeedOf(s.feeds, name).lastId + Effects(records, name) <= MAX_ID
    {
      EffectsBound(records, name);
      Fits(FeedOf(s.feeds, name).lastId, Effects(records, name));
    }
  }

  lemma NextIdFits(last: nat, clock: nat, remaining: nat)
    requires clock < PER_MILLISECOND && 0 < remaining < PER_MILLISECOND && last + remaining <= MAX_ID
    ensures last < NextId(last, clock) <= MAX_ID && NextId(last, clock) + (remaining - 1) <= MAX_ID
  {
    assert clock * PER_MILLISECOND <= (PER_MILLISECOND - 1) * PER_MILLISECOND;
  }

  lemma DeliverFits(feeds: map<string, Feed>, records: seq<Submission>, clock: nat, name: string)
    requires 0 < |records| < PER_MILLISECOND && clock < PER_MILLISECOND
    requires Effects(records[1..], name) > 0 && FeedOf(feeds, name).lastId + Effects(records, name) <= MAX_ID
    ensures FeedOf(Deliver(feeds, records[0].effect, clock), name).lastId + Effects(records[1..], name) <= MAX_ID
  {
    EffectsBound(records, name);
    if records[0].effect.Some? && records[0].effect.value.stream == name {
      NextIdFits(FeedOf(feeds, name).lastId, clock, Effects(records, name));
    }
  }

  /** Writing one record leaves the rest of the batch writable. */
  lemma WritableStep(s: Store, records: seq<Submission>, clock: nat)
    requires 0 < |records| < PER_MILLISECOND && clock < PER_MILLISECOND && Writable(s, records)
    ensures Writable(AppendRecord(s, records[0], clock), records[1..])
  {
    var after := AppendRecord(s, records[0], clock);
    NextIdFits(s.lastId, clock, |records|);
    forall i, key | 0 <= i < |records[1..]| && key in KeysOf(records[1..][i].entry)
      ensures IndexLast(after.indexes, key) <= after.lastId
    {
      assert records[1..][i] == records[i + 1];
      assert IndexLast(s.indexes, key) <= s.lastId;
      PushLast(s.indexes, KeysOf(records[0].entry), Row(after.lastId, Decoded(records[0].entry)), key);
    }
    forall name | Effects(records[1..], name) > 0
      ensures FeedOf(after.feeds, name).lastId + Effects(records[1..], name) <= MAX_ID
    {
      DeliverFits(s.feeds, records, clock, name);
    }
  }

  lemma PushLast(indexes: map<Key, Index>, keys: seq<Key>, row: Row, key: Key)
    ensures IndexLast(PushAll(indexes, keys, row), key) == if key in keys then row.id else IndexLast(indexes, key)
  {
    if keys != [] {
      PushLast(indexes, keys[..|keys| - 1], row, key);
      assert keys == keys[..|keys| - 1] + [keys[|keys| - 1]];
    }
  }

  lemma AppendAllStep(s: Store, records: seq<Submission>, i: nat, clock: nat)
    requires i < |records|
    ensures AppendAll(s, records[..i + 1], clock) == AppendRecord(AppendAll(s, records[..i], clock), records[i], clock)
  {
    assert records[..i + 1][..i] == records[..i];
  }

  /** The script's comparison of the live prefix, row by row. */
  method SameRows(current: seq<Row>, rows: seq<Row>) returns (same: bool)
    ensures same <==> current == rows
  {
    if |current| != |rows| { return false; }
    for i := 0 to |rows|
      invariant current[..i] == rows[..i]
    {
      if current[i] != rows[i] { return false; }
    }
    assert current[..|rows|] == current && rows[..|rows|] == rows;
    same := true;
  }

  class AuditKeys {
    var live: seq<Row>
    var lastId: nat
    var head: Option<Hash>
    var indexes: map<Key, Index>
    var anchor: Option<Checkpoint>
    var segments: map<Digest, Segment>
    var feeds: map<string, Feed>

    ghost function View(): Store reads this {
      Store(live, lastId, head, indexes, anchor, segments, feeds)
    }

    constructor ()
      ensures View() == EMPTY
    {
      live, lastId, head, indexes, anchor, segments, feeds := [], 0, None, map[], None, map[], map[];
    }

    /** All or nothing: either the whole batch and its head are stored, or nothing changes. */
    method Append(expected: Option<Hash>, final: Option<Hash>, capacity: nat,
                  records: seq<Submission>, clock: nat) returns (reply: Reply)
      requires IdsFit(View()) && clock < PER_MILLISECOND && |records| < PER_MILLISECOND
      modifies this
      ensures (View(), reply) == AppendScript(old(View()), expected, final, capacity, records, clock)
      ensures !reply.Appended? ==> View() == old(View())
    {
      if head != expected { return Retry(head); }
      if live != [] && head.None? { return Refused("missing_audit_chain_head"); }
      if records == [] { return Refused("invalid_audit_batch"); }
      if |records| > capacity - |live| { return Capacity(capacity - |live|); }
      if IndexAhead(Store(live, lastId, head, indexes, anchor, segments, feeds), records) {
        return Refused("invalid_audit_index_position");
      }
      if Exhausted(lastId, |records|) ||
         FeedExhausted(Store(live, lastId, head, indexes, anchor, segments, feeds), records) {
        return Refused("audit_stream_id_exhausted");
      }
      ChecksSuffice(View(), records);
      var ids := WriteAll(records, clock);
      head := final;
      reply := Appended(ids);
    }

    /** Once the checks have passed, every write of the batch succeeds. */
    method WriteAll(records: seq<Submission>, clock: nat) returns (ids: seq<nat>)
      requires clock < PER_MILLISECOND && |records| < PER_MILLISECOND && Writable(View(), records)
      modifies this
      ensures View() == AppendAll(old(View()), records, clock)
      ensures ids == Ids(live[|old(live)|..])
    {
      ghost var start := View();
      ids := [];
      var i := 0;
      while i < |records|
        invariant 0 <= i <= |records|
        invariant View() == AppendAll(start, records[..i], clock)
        invariant Writable(View(), records[i..])
        invariant ids == Ids(live[|start.live|..])
      {
        ghost var before := View();
        assert records[i..][0] == records[i] && records[i..][1..] == records[i + 1..];
        WritableStep(before, records[i..], clock);
        AppendAllStep(start, records, i, clock);
        WriteRecord(records[i], clock, records[i..]);
        ids := ids + [lastId];
        i := i + 1;
      }
      assert records[..|records|] == records;
    }

    /** The three writes of one record: the main stream, its indexes, its stream append. */
    method WriteRecord(record: Submission, clock: nat, ghost rest: seq<Submission>)
      requires 0 < |rest| < PER_MILLISECOND && rest[0] == record && clock < PER_MILLISECOND
      requires Writable(View(), rest)
      modifies this
      ensures View() == AppendRecord(old(View()), record, clock)
    {
      NextIdFits(lastId, clock, |rest|);
      var id := NextId(lastId, clock);
      if id <= lastId || id > MAX_ID { assert false; }
      var row := Row(id, Decoded(record.entry));
      live, lastId := live + [row], id;
      var keys := KeysOf(record.entry);
      ghost var start := indexes;
      for j := 0 to |keys|
        invariant indexes == PushAll(start, keys[..j], row)
        invariant View() == old(View()).(live := old(live) + [row], lastId := id, indexes := indexes)
      {
        PushLast(start, keys[..j], row, keys[j]);
        assert IndexLast(start, keys[j]) <= old(lastId);
        if IndexLast(indexes, keys[j]) >= id { assert false; }
        indexes := Push(indexes, keys[j], row);
        assert keys[..j + 1][..j] == keys[..j];
      }
      assert keys[..|keys|] == keys;
      if record.effect.Some? {
        var name := record.effect.value.stream;
        EffectsBound(rest, name);
        NextIdFits(FeedOf(feeds, name).lastId, clock, Effects(rest, name));
        var next := NextId(FeedOf(feeds, name).lastId, clock);
        if next <= FeedOf(feeds, name).lastId || next > MAX_ID { assert false; }
        feeds := feeds[name := Feed(FeedOf(feeds, name).items + [Item(next, record.effect.value.envelope)], next)];
      }
    }

    /** Compare the live prefix row by row, then move the anchor and trim every stream. */
    method Archive(expected: Option<Checkpoint>, rows: seq<Row>, next: Checkpoint) returns (committed: bool)
      modifies this
      ensures (View(), committed) == ArchiveScript(old(View()), expected, rows, next)
    {
      if anchor != expected { return false; }
      var current := Range(live, 0, next.lastId, |rows| + 1);
      committed := SameRows(current, rows);
      if committed {
        anchor := Some(next);
        live := Select(From(next.lastId + 1), live);
        Trim(RowKeys(rows), next.lastId + 1);
      }
    }

    /** `XTRIM MINID` on each named index stream. */
    method Trim(keys: set<Key>, least: nat)
      modifies this`indexes
      ensures indexes == TrimIndexes(old(indexes), keys, least)
    {
      var todo := keys;
      while todo != {}
        invariant todo <= keys
        invariant indexes == TrimIndexes(old(indexes), keys - todo, least)
        decreases todo
      {
        var key :| key in todo;
        var kept := Select(From(least), IndexRows(indexes, key));
        if key in indexes {
          indexes := if kept == [] then indexes - {key} else indexes[key := Index(kept, indexes[key].lastId)];
        }
        todo := todo - {key};
      }
      assert keys - todo == keys;
    }

    /** `AuditArchive.write`: a different body under the same digest is an error. */
    method PublishSegment(log: Log, segment: Segment) returns (written: bool)
      modifies this
      ensures View() == old(View()).(segments := Publish(log, old(segments), segment))
      ensures written <==> log.digest(segment) in segments && segments[log.digest(segment)] == segment
    {
      var name := log.digest(segment);
      if name !in segments { segments := segments[name := segment]; }
      written := segments[name] == segment;
    }
  }
}
