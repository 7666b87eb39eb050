/** When the two audit scripts commit, and what they then leave. */
module AuditProgress {
  import opened Options
  import opened AuditLog
  import opened AuditScripts
  import opened AuditRuns
  import opened AuditFeeds
  import AuditKeys

  // ----- the append script -----

  lemma EffectsNext(records: seq<Submission>, name: string)
    requires records != []
    ensures Effects(records, name)
      == Effects(records[..|records| - 1], name) + |Attached([records[|records| - 1]], name)|
  {
    var n := |records| - 1;
    assert [records[n]][..0] == [];
    if n > 0 {
      EffectsNext(records[1..], name);
      assert records[1..][..n - 1] == records[..n][1..];
    }
  }

  lemma {:induction false} EffectsAttached(records: seq<Submission>, name: string)
    ensures Effects(records, name) == |Attached(records, name)|
  {
    if records != [] {
      EffectsNext(records, name);
      EffectsAttached(records[..|records| - 1], name);
      AttachedNext(records, name);
    }
  }

  /** The script's test is that the identities to come fit in 64-bit parts. */
  lemma FitsIff(last: nat, count: nat)
    requires last <= MAX_ID && count < PER_MILLISECOND
    ensures !Exhausted(last, count) <==> last + count <= MAX_ID
  {
    if !Exhausted(last, count) { AuditKeys.Fits(last, count); }
  }

  /** Every stream the batch appends to has identities left for it. */
  ghost predicate FeedsFit(feeds: map<string, Feed>, batch: seq<Submission>) {
    forall name :: Attached(batch, name) != [] ==> FeedOf(feeds, name).lastId + |Attached(batch, name)| <= MAX_ID
  }

  lemma {:induction false} AttachedAt(records: seq<Submission>, i: nat)
    requires i < |records| && records[i].effect.Some?
    ensures Attached(records, records[i].effect.value.stream) != []
  {
    if i < |records| - 1 { AttachedAt(records[..|records| - 1], i); }
  }

  lemma {:induction false} AttachedHas(records: seq<Submission>, name: string)
    requires Attached(records, name) != []
    ensures exists i :: 0 <= i < |records| && records[i].effect.Some? && records[i].effect.value.stream == name
  {
    var n := |records| - 1;
    if !(records[n].effect.Some? && records[n].effect.value.stream == name) {
      AttachedHas(records[..n], name);
      var i :| 0 <= i < n && records[..n][i].effect.Some? && records[..n][i].effect.value.stream == name;
      assert records[i].effect.value.stream == name;
    }
  }

  lemma FeedsIff(s: Store, records: seq<Submission>)
    requires AuditKeys.IdsFit(s) && |records| < PER_MILLISECOND
    ensures !FeedExhausted(s, records) <==> FeedsFit(s.feeds, records)
  {
    forall name ensures Attached(records, name) != [] ==>
        (!Exhausted(FeedOf(s.feeds, name).lastId, Effects(records, name)) <==>
         FeedOf(s.feeds, name).lastId + |Attached(records, name)| <= MAX_ID)
    {
      EffectsAttached(records, name);
      AuditKeys.EffectsBound(records, name);
      FitsIff(FeedOf(s.feeds, name).lastId, Effects(records, name));
    }
    if FeedExhausted(s, records) {
      var i :| 0 <= i < |records| && records[i].effect.Some?
               && Exhausted(FeedOf(s.feeds, records[i].effect.value.stream).lastId,
                            Effects(records, records[i].effect.value.stream));
      AttachedAt(records, i);
    } else {
      forall name | Attached(records, name) != []
        ensures FeedOf(s.feeds, name).lastId + |Attached(records, name)| <= MAX_ID
      {
        AttachedHas(records, name);
      }
    }
  }

  /**
  In a store that satisfies the invariant the append script commits a linked batch if and
  only if the caller knows the stored head, the batch is not empty and fits into the
  capacity, and identities are left on the audit stream and on every agent stream it names.
   */
  lemma AppendCommitsIff(log: Log, s: Store, expected: Option<Hash>, batch: seq<Submission>, capacity: nat, clock: nat)
    requires Inv(log, s) && AuditKeys.IdsFit(s) && |batch| < PER_MILLISECOND
    ensures var records, final := Link(log, expected, batch), LinkTip(log, expected, batch);
      AppendScript(s, expected, final, capacity, records, clock).1.Appended? <==>
      && s.head == expected && batch != [] && |s.live| + |batch| <= capacity
      && s.lastId + |batch| <= MAX_ID && FeedsFit(s.feeds, batch)
  {
    var records := Link(log, expected, batch);
    FitsIff(s.lastId, |batch|);
    FeedsIff(s, records);
    forall name ensures Attached(records, name) == Attached(batch, name) {
      LinkKeepsAttached(log, expected, batch, name);
    }
    NeverAhead(log, s, records);
  }

  lemma NeverAhead(log: Log, s: Store, records: seq<Submission>)
    requires Inv(log, s)
    ensures !IndexAhead(s, records)
  {
    forall key ensures IndexLast(s.indexes, key) <= s.lastId { assert IndexedBy(s.indexes, s.live, s.lastId, key); }
  }

  // ----- the archive script -----

  /** `rows` are the live rows with identities up to `high`. */
  ghost predicate LiveUpTo(live: seq<Row>, high: nat, rows: seq<Row>) {
    && rows <= live
    && (forall i :: 0 <= i < |rows| ==> live[i].id <= high)
    && (forall i :: |rows| <= i < |live| ==> high < live[i].id)
  }

  lemma RangeIff(live: seq<Row>, low: nat, high: nat, rows: seq<Row>)
    requires Ordered(low, live)
    ensures Range(live, 0, high, |rows| + 1) == rows <==> LiveUpTo(live, high, rows)
    ensures LiveUpTo(live, high, rows) ==> Select(From(high + 1), live) == live[|rows|..]
  {
    var k := SelectSplit(live, low, high);
    SelectMember(Within(0, high), live);
    SelectMember(From(high + 1), live);
    forall i | 0 <= i < |live| ensures live[i].id <= high <==> i < k {
      if i < k {
        assert live[i] in live[..k];
      } else {
        assert live[i] == live[k..][i - k];
        assert live[i] in live[k..];
      }
    }
    if Range(live, 0, high, |rows| + 1) == rows { TakeAll(live[..k], rows); }
    if LiveUpTo(live, high, rows) {
      SameSplit(live, high, rows, k);
    }
  }

  lemma SameSplit(live: seq<Row>, high: nat, rows: seq<Row>, k: nat)
    requires LiveUpTo(live, high, rows) && k <= |live|
    requires forall i :: 0 <= i < |live| ==> (live[i].id <= high <==> i < k)
    ensures |rows| == k && live[..k] == rows
  {
    assert k < |live| ==> (live[k].id <= high <==> k < |rows|);
    assert |rows| < |live| ==> (live[|rows|].id <= high <==> |rows| < k);
  }

  /** The archive script answers true if and only if the stored checkpoint is the expected one
      and the rows are the live rows up to the new one; only then anything changes. */
  lemma ArchiveCommitsIff(s: Store, low: nat, expected: Option<Checkpoint>, rows: seq<Row>, next: Checkpoint)
    requires Ordered(low, s.live)
    ensures var (after, committed) := ArchiveScript(s, expected, rows, next);
      && (committed <==> s.anchor == expected && LiveUpTo(s.live, next.lastId, rows))
      && (committed ==>
            && after == s.(anchor := Some(next), live := s.live[|rows|..], indexes := after.indexes)
            && after.indexes == TrimIndexes(s.indexes, RowKeys(rows), next.lastId + 1))
      && (!committed ==> after == s)
  {
    RangeIff(s.live, low, next.lastId, rows);
  }

  /** A segment that was published and whose digest was free, or its own, can be read. */
  lemma PublishedReads(log: Log, segments: map<Digest, Segment>, segment: Segment)
    requires segment.rows != [] && (log.digest(segment) in segments ==> segments[log.digest(segment)] == segment)
    ensures log.Read(Publish(log, segments, segment), log.digest(segment)) == Some(segment)
    ensures forall d :: d != log.digest(segment) ==>
      log.Read(Publish(log, segments, segment), d) == log.Read(segments, d)
  {
  }

  /**
  With its segment published, a broker that knows the checkpoint archives any number of the
  oldest live rows: they leave the live stream and every index, and the checkpoint counts
  them.
   */
  lemma ArchiveCommits(log: Log, s: Store, k: nat)
    requires Inv(log, s) && 0 < k <= |s.live|
    requires var segment := SegmentFor(log, s.anchor, s.live[..k]);
      log.Read(s.segments, log.digest(segment)) == Some(segment)
    ensures var after := Next(log, s, Archive(s.anchor, s.live[..k]));
      && after.live == s.live[k..] && after.anchor.Some? && after.anchor.value.total == Total(s.anchor) + k
      && after.anchor.value.lastId == s.live[k - 1].id
      && after == s.(live := after.live, anchor := after.anchor, indexes := after.indexes)
      && (forall key :: IndexRows(after.indexes, key) == Select(MatchKey(key), s.live[k..]))
      && (forall key :: key in RowKeys(s.live[..k]) ==>
            (key in after.indexes ==> Select(MatchKey(key), s.live[k..]) != []))
      && (forall key :: key in after.indexes ==> key in s.indexes && after.indexes[key].lastId == s.indexes[key].lastId)
  {
    var rows := s.live[..k];
    var next := CheckpointFor(log, s.anchor, rows);
    Rejoin(s.live, rows, s.live[k..]);
    log.ChainedConcat(AnchorHash(s.anchor), rows, s.live[k..]);
    assert LiveUpTo(s.live, next.lastId, rows);
    ArchiveCommitsIff(s, AnchorId(s.anchor), s.anchor, rows, next);
    var after := Next(log, s, Archive(s.anchor, rows));
    assert after == ArchiveScript(s, s.anchor, rows, next).0;
    ArchiveKeeps(log, s, s.anchor, rows, after);
    forall key ensures IndexRows(after.indexes, key) == Select(MatchKey(key), s.live[k..]) {
      assert IndexedBy(after.indexes, after.live, after.lastId, key);
    }
  }

  /**
  So a full stream becomes writable again: after archiving `k` rows a batch of at most the
  room they leave commits, whatever the stream held.
   */
  lemma ArchivingMakesRoom(log: Log, s: Store, k: nat, batch: seq<Submission>, capacity: nat, clock: nat)
    requires Inv(log, s) && AuditKeys.IdsFit(s) && 0 < k <= |s.live| && 0 < |batch| < PER_MILLISECOND
    requires var segment := SegmentFor(log, s.anchor, s.live[..k]);
      log.Read(s.segments, log.digest(segment)) == Some(segment)
    requires |s.live| - k + |batch| <= capacity && s.lastId + |batch| <= MAX_ID && FeedsFit(s.feeds, batch)
    ensures var after := Next(log, s, Archive(s.anchor, s.live[..k]));
      AppendScript(after, s.head, LinkTip(log, s.head, batch), capacity, Link(log, s.head, batch), clock).1.Appended?
  {
    ArchiveCommits(log, s, k);
    var after := Next(log, s, Archive(s.anchor, s.live[..k]));
    NextKeeps(log, s, Archive(s.anchor, s.live[..k]));
    AppendCommitsIff(log, after, s.head, batch, capacity, clock);
  }
}
