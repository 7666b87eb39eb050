/**
`_query_stream` and `_query_archived`: paged queries over archive and live rows while
appends and archive commits go on.  `seen(k)` is the store at the k-th read of a query;
any number of steps of any brokers lie between two reads.
 */
module AuditQuery {
  import opened Options
  import opened AuditLog
  import opened AuditScripts
  import opened AuditRuns

  const MAX_SCAN: nat := 1_000_000
  const PAGE: nat := 500

  datatype Outcome = Rows(rows: seq<Row>) | SnapshotChanged | ScanLimit

  /** `key` selects the queried stream, the bounds come from the time range, and `keep` is
      the caller's predicate; `filtered` says whether the caller gave one. */
  datatype Query = Query(key: Option<Key>, low: nat, high: nat, count: Option<nat>,
                         filtered: bool, keep: Row -> bool)
  {
    predicate OnStream(row: Row) { key.None? || Matches(key.value, row) }

    predicate Wants(row: Row) { OnStream(row) && low <= row.id <= high && keep(row) }

    /** The rows the caller asks for. */
    function Wanted(): Row -> bool { (row: Row) => Wants(row) }

    /** The wanted rows in `[from, to)`. */
    function Between(from: nat, to: nat): Row -> bool { (row: Row) => Wants(row) && from <= row.id < to }

    /** The stream read from Redis: the main stream or one of its indexes. */
    function StreamRows(s: Store): seq<Row> {
      if key.None? then s.live else IndexRows(s.indexes, key.value)
    }

    /** What an instantaneous query over the whole history would return. */
    ghost function Answer(log: Log, s: Store): seq<Row> {
      Take(count, Select(Wanted(), History(log, s)))
    }
  }

  ghost predicate Reaches(log: Log, s: Store, t: Store) {
    exists steps: seq<Step> :: t == Run(log, s, steps)
  }

  /** The stores seen by successive reads of one query. */
  ghost predicate Evolves(log: Log, seen: nat -> Store) {
    Inv(log, seen(0)) && forall k: nat :: Reaches(log, seen(k), seen(k + 1))
  }

  /** What never goes back: history, archive, and the anchor unless the total grows. */
  ghost predicate Later(log: Log, s: Store, t: Store) {
    && Inv(log, t) && History(log, s) <= History(log, t)
    && Total(s.anchor) <= Total(t.anchor)
    && (Total(s.anchor) == Total(t.anchor) ==> s.anchor == t.anchor)
    && (forall d :: d in s.segments ==> d in t.segments && t.segments[d] == s.segments[d])
  }

  lemma NextIsLater(log: Log, s: Store, step: Step)
    requires Inv(log, s)
    ensures Later(log, s, Next(log, s, step))
  {
    NextKeeps(log, s, step);
  }

  lemma {:induction false} RunIsLater(log: Log, s: Store, steps: seq<Step>)
    requires Inv(log, s)
    ensures Later(log, s, Run(log, s, steps))
  {
    if steps != [] {
      var n := |steps| - 1;
      RunIsLater(log, s, steps[..n]);
      NextIsLater(log, Run(log, s, steps[..n]), steps[n]);
    }
  }

  lemma {:induction false} SeenIsLater(log: Log, seen: nat -> Store, i: nat, j: nat)
    requires Evolves(log, seen) && i <= j
    ensures Inv(log, seen(i)) && Later(log, seen(i), seen(j))
    decreases j
  {
    if i < j {
      SeenIsLater(log, seen, i, j - 1);
      assert Reaches(log, seen(j - 1), seen((j - 1) + 1));
      var steps :| seen(j) == Run(log, seen(j - 1), steps);
      RunIsLater(log, seen(j - 1), steps);
    } else if j > 0 {
      SeenIsLater(log, seen, j - 1, j - 1);
      assert Reaches(log, seen(j - 1), seen((j - 1) + 1));
      var steps :| seen(j) == Run(log, seen(j - 1), steps);
      RunIsLater(log, seen(j - 1), steps);
    }
  }

  /** While the anchor stands, the live rows only grow at the end. */
  lemma SameAnchor(log: Log, s: Store, t: Store)
    requires Inv(log, s) && Later(log, s, t) && s.anchor == t.anchor
    ensures log.Archived(t.segments, t.anchor) == log.Archived(s.segments, s.anchor)
    ensures s.live <= t.live
  {
    log.ArchivedStable(s.segments, t.segments, s.anchor);
    CancelFront(log.Archived(s.segments, s.anchor), s.live, t.live);
  }

  lemma CancelFront<T>(front: seq<T>, a: seq<T>, b: seq<T>)
    requires front + a <= front + b
    ensures a <= b
  {
    forall i | 0 <= i < |a| ensures a[i] == b[i] {
      assert (front + a)[|front| + i] == (front + b)[|front| + i];
    }
  }

  lemma SelectSame(p: Row -> bool, q: Row -> bool, rows: seq<Row>)
    requires forall r :: r in rows ==> p(r) == q(r)
    ensures Select(p, rows) == Select(q, rows)
  {
  }

  lemma SelectAnd(p: Row -> bool, q: Row -> bool, both: Row -> bool, rows: seq<Row>)
    requires forall r :: both(r) <==> p(r) && q(r)
    ensures Select(p, Select(q, rows)) == Select(both, rows)
  {
    if rows != [] {
      var n := |rows| - 1;
      SelectAnd(p, q, both, rows[..n]);
      SelectConcat(p, Select(q, rows[..n]), if q(rows[n]) then [rows[n]] else []);
    }
  }

  /** On ordered rows a range splits at any identity. */
  lemma {:induction false} SplitBetween(q: Query, rows: seq<Row>, low: nat, from: nat, mid: nat, to: nat)
    requires Ordered(low, rows) && from <= mid <= to
    ensures Select(q.Between(from, to), rows) == Select(q.Between(from, mid), rows) + Select(q.Between(mid, to), rows)
  {
    if rows != [] {
      var n := |rows| - 1;
      if rows[n].id < mid {
        NoneAbove(q, rows, mid, to);
        SelectSame(q.Between(from, to), q.Between(from, mid), rows);
      } else {
        SplitBetween(q, rows[..n], low, from, mid, to);
      }
    }
  }

  lemma NoneAbove(q: Query, rows: seq<Row>, mid: nat, to: nat)
    requires forall i :: 0 <= i < |rows| ==> rows[i].id < mid
    ensures Select(q.Between(mid, to), rows) == []
  {
    SelectNone(q.Between(mid, to), rows);
  }

  lemma RangeIsPrefix(rows: seq<Row>, low: nat, high: nat, count: nat)
    ensures var all, page := Select(Within(low, high), rows), Range(rows, low, high, count);
      |page| <= |all| && page == all[..|page|] && (|page| < count ==> page == all)
  {
  }

  /** A short page holds all the wanted rows from the cursor on. */
  lemma ShortPage(log: Log, q: Query, s: Store, cursor: nat, count: nat, page: seq<Row>)
    requires Inv(log, s) && q.low <= cursor
    requires page == Range(q.StreamRows(s), cursor, q.high, count) && |page| < count
    ensures Select(q.Between(cursor, q.high + 1), s.live) == Select(q.keep, page)
  {
    RangeIsPrefix(q.StreamRows(s), cursor, q.high, count);
    StreamRange(log, q, s, cursor, q.high, page);
  }

  /** Any page holds the wanted rows from the cursor up to its last identity. */
  lemma FullPage(log: Log, q: Query, s: Store, cursor: nat, count: nat, page: seq<Row>, last: nat)
    requires Inv(log, s) && q.low <= cursor
    requires page == Range(q.StreamRows(s), cursor, q.high, count) && page != [] && last == page[|page| - 1].id
    ensures Select(q.Between(cursor, last + 1), s.live) == Select(q.keep, page)
    ensures cursor <= last <= q.high && page[|page| - 1] in s.live
  {
    RangeIsPrefix(q.StreamRows(s), cursor, q.high, count);
    OrderedPrefix(log, q, s, cursor, Select(Within(cursor, q.high), q.StreamRows(s)), page, last);
    StreamRange(log, q, s, cursor, last, page);
  }

  /** Reading `[cursor, to]` of the stream and keeping the caller's rows gives the wanted ones. */
  lemma StreamRange(log: Log, q: Query, s: Store, cursor: nat, to: nat, rows: seq<Row>)
    requires Inv(log, s) && q.low <= cursor && to <= q.high
    requires rows == Select(Within(cursor, to), q.StreamRows(s))
    ensures Select(q.Between(cursor, to + 1), s.live) == Select(q.keep, rows)
  {
    var onStream := (row: Row) => q.OnStream(row);
    if q.key.None? {
      SelectAll(onStream, s.live);
    } else {
      assert IndexedBy(s.indexes, s.live, s.lastId, q.key.value);
      SelectSame(MatchKey(q.key.value), onStream, s.live);
    }
    assert q.StreamRows(s) == Select(onStream, s.live);
    var inRange := (row: Row) => Within(cursor, to)(row) && q.OnStream(row);
    SelectAnd(Within(cursor, to), onStream, inRange, s.live);
    var kept := (row: Row) => q.keep(row) && inRange(row);
    SelectAnd(q.keep, inRange, kept, s.live);
    SelectSame(kept, q.Between(cursor, to + 1), s.live);
  }

  /** A prefix of an ordered range is the range up to its last identity. */
  lemma OrderedPrefix(log: Log, q: Query, s: Store, cursor: nat, all: seq<Row>, page: seq<Row>, last: nat)
    requires Inv(log, s) && all == Select(Within(cursor, q.high), q.StreamRows(s))
    requires page != [] && page <= all && last == page[|page| - 1].id
    ensures page == Select(Within(cursor, last), q.StreamRows(s))
    ensures cursor <= last <= q.high && page[|page| - 1] in s.live
  {
    StreamOrdered(log, q, s);
    PrefixOf(q.StreamRows(s), cursor, q.high, all, page, last);
  }

  lemma PrefixOf(stream: seq<Row>, cursor: nat, high: nat, all: seq<Row>, page: seq<Row>, last: nat)
    requires Increasing(stream) && all == Select(Within(cursor, high), stream)
    requires page != [] && page <= all && last == page[|page| - 1].id
    ensures page == Select(Within(cursor, last), stream)
    ensures cursor <= last <= high && page[|page| - 1] in stream
  {
    SelectIncreasing(Within(cursor, high), stream);
    SelectMember(Within(cursor, high), stream);
    assert all[|page| - 1] == page[|page| - 1] && all[|page| - 1] in all;
    var both := (row: Row) => Within(0, last)(row) && Within(cursor, high)(row);
    SelectAnd(Within(0, last), Within(cursor, high), both, stream);
    SelectSame(both, Within(cursor, last), stream);
    FirstRows(all, |page|);
  }

  lemma {:induction false} FirstRows(all: seq<Row>, n: nat)
    requires Increasing(all) && 0 < n <= |all|
    ensures Select(Within(0, all[n - 1].id), all) == all[..n]
  {
    assert all == all[..n] + all[n..];
    SelectConcat(Within(0, all[n - 1].id), all[..n], all[n..]);
    forall r | r in all[..n] ensures r.id <= all[n - 1].id {
      var i :| 0 <= i < n && all[i] == r;
    }
    SelectAll(Within(0, all[n - 1].id), all[..n]);
    forall r | r in all[n..] ensures r.id > all[n - 1].id {
      var i :| n <= i < |all| && all[i] == r;
    }
    SelectNone(Within(0, all[n - 1].id), all[n..]);
  }

  lemma StreamOrdered(log: Log, q: Query, s: Store)
    requires Inv(log, s)
    ensures Increasing(q.StreamRows(s))
    ensures forall r :: r in q.StreamRows(s) ==> r in s.live
  {
    if q.key.Some? {
      assert IndexedBy(s.indexes, s.live, s.lastId, q.key.value);
      SelectIncreasing(MatchKey(q.key.value), s.live);
      SelectMember(MatchKey(q.key.value), s.live);
    }
  }

  /** A bounded list filled from the right keeps the first `count` elements. */
  lemma TakePrepend<T>(count: Option<nat>, front: seq<T>, rest: seq<T>)
    ensures Take(count, front + Take(count, rest)) == Take(count, front + rest)
  {
  }

  /** Reading the segment a checkpoint names: every integrity test of the query passes. */
  method ReadSegment(log: Log, ghost before: map<Digest, Segment>, segments: map<Digest, Segment>, anchor: Checkpoint)
    returns (segment: Segment)
    requires log.Intact(before, Some(anchor)) && forall d :: d in before ==> d in segments && segments[d] == before[d]
    ensures log.Read(segments, anchor.digest) == Some(segment)
    ensures log.Intact(before, segment.previous) && Total(segment.previous) < anchor.total
    ensures log.Archived(before, Some(anchor)) == log.Archived(before, segment.previous) + segment.rows
  {
    var read := log.Read(segments, anchor.digest);
    if read.None? { assert false; }
    segment := read.value;
    if segment.stream != log.stream || anchor.stream != log.stream { assert false; }
    if segment.previous.Some? && (segment.previous.value.total >= anchor.total
                                  || segment.previous.value.lastId >= segment.rows[0].id) { assert false; }
  }

  /** `_query_archived`: collect the matching archived rows, newest segment first, in a
      list bounded by `count`.  None of its integrity errors can occur. */
  method QueryArchived(log: Log, seen: nat -> Store, q: Query) returns (rows: seq<Row>, used: nat)
    requires Evolves(log, seen)
    ensures rows == Take(q.count, Select(q.Wanted(), log.Archived(seen(0).segments, seen(0).anchor)))
  {
    var anchor := seen(0).anchor;
    SeenIsLater(log, seen, 0, 0);
    ghost var segments, newer := seen(0).segments, [];
    rows, used := [], 0;
    while anchor.Some?
      invariant log.Intact(segments, anchor)
      invariant log.Archived(segments, seen(0).anchor) == log.Archived(segments, anchor) + newer
      invariant rows == Take(q.count, Select(q.Wanted(), newer))
      decreases Total(anchor)
    {
      used := used + 1;
      SeenIsLater(log, seen, 0, used);
      var segment := ReadSegment(log, segments, seen(used).segments, anchor.value);
      rows := CollectReversed(q, segment.rows, rows, newer);
      Assoc(log.Archived(segments, segment.previous), segment.rows, newer);
      newer := segment.rows + newer;
      anchor := segment.previous;
    }
    assert log.Archived(segments, seen(0).anchor) == newer;
  }

  lemma SelectOne(p: Row -> bool, row: Row)
    ensures Select(p, [row]) == if p(row) then [row] else []
  {
    assert [row][..0] == [];
  }

  lemma PrependRow(q: Query, row: Row, rest: seq<Row>)
    ensures Take(q.count, Select(q.Wanted(), [row] + rest))
         == Take(q.count, (if q.Wants(row) then [row] else []) + Take(q.count, Select(q.Wanted(), rest)))
  {
    SelectConcat(q.Wanted(), [row], rest);
    SelectOne(q.Wanted(), row);
    TakePrepend(q.count, if q.Wants(row) then [row] else [], Select(q.Wanted(), rest));
  }

  /** Prepend the matching rows of one segment, last row first. */
  method CollectReversed(q: Query, segment: seq<Row>, collected: seq<Row>, ghost newer: seq<Row>)
    returns (rows: seq<Row>)
    requires collected == Take(q.count, Select(q.Wanted(), newer))
    ensures rows == Take(q.count, Select(q.Wanted(), segment + newer))
  {
    rows := collected;
    var i := |segment|;
    ghost var done := newer;
    while i > 0
      invariant 0 <= i <= |segment| && done == segment[i..] + newer
      invariant rows == Take(q.count, Select(q.Wanted(), done))
    {
      i := i - 1;
      PrependRow(q, segment[i], done);
      if q.Wants(segment[i]) { rows := Take(q.count, [segment[i]] + rows); }
      else { assert [] + rows == rows; }
      done := [segment[i]] + done;
    }
  }

  lemma CollectedEnough(q: Query, page: seq<Row>, collected: seq<Row>, i: nat, rows: seq<Row>)
    requires i <= |page| && rows == collected + Select(q.keep, page[..i]) && q.count == Some(|rows|)
    ensures rows == Take(q.count, collected + Select(q.keep, page))
  {
    SelectConcat(q.keep, page[..i], page[i..]);
    assert page == page[..i] + page[i..];
    assert rows <= collected + Select(q.keep, page);
  }

  /** Append the caller's rows of a page, stopping at the requested count. */
  method Collect(q: Query, page: seq<Row>, collected: seq<Row>) returns (rows: seq<Row>)
    requires q.count.Some? ==> |collected| < q.count.value
    ensures rows == Take(q.count, collected + Select(q.keep, page))
  {
    rows := collected;
    assert Select(q.keep, page[..0]) == [];
    for i := 0 to |page|
      invariant rows == collected + Select(q.keep, page[..i])
      invariant q.count.Some? ==> |rows| < q.count.value
    {
      assert page[..i + 1][..i] == page[..i];
      if q.keep(page[i]) {
        rows := rows + [page[i]];
        if q.count.Some? && |rows| >= q.count.value {
          CollectedEnough(q, page, collected, i + 1, rows);
          return;
        }
      }
    }
    assert page[..|page|] == page;
  }

  /** While the anchor stands, `rows` are all the wanted rows below the cursor. */
  ghost predicate Progress(log: Log, q: Query, s: Store, anchor: Option<Checkpoint>, cursor: nat, rows: seq<Row>) {
    s.anchor == anchor ==>
      && rows == Select(q.Wanted(), log.Archived(s.segments, anchor)) + Select(q.Between(0, cursor), s.live)
      && (cursor == q.low || exists row :: row in s.live && row.id + 1 == cursor)
  }

  lemma ProgressStart(log: Log, q: Query, s: Store)
    ensures Progress(log, q, s, s.anchor, q.low, Select(q.Wanted(), log.Archived(s.segments, s.anchor)))
  {
    SelectNone(q.Between(0, q.low), s.live);
  }

  /** Rows appended meanwhile lie at or above the cursor, or below the requested range. */
  lemma ProgressLater(log: Log, q: Query, s: Store, t: Store, anchor: Option<Checkpoint>, cursor: nat, rows: seq<Row>)
    requires Inv(log, s) && Later(log, s, t) && Progress(log, q, s, anchor, cursor, rows)
    requires t.anchor == anchor ==> s.anchor == anchor
    ensures Progress(log, q, t, anchor, cursor, rows)
  {
    if t.anchor == anchor {
      SameAnchor(log, s, t);
      var more := t.live[|s.live|..];
      Rejoin(t.live, s.live, more);
      NothingBelow(log, q, s, t, cursor);
      SelectConcat(q.Between(0, cursor), s.live, more);
      SelectNone(q.Between(0, cursor), more);
    }
  }

  lemma NothingBelow(log: Log, q: Query, s: Store, t: Store, cursor: nat)
    requires Inv(log, t) && s.live <= t.live && (cursor == q.low || exists row :: row in s.live && row.id + 1 == cursor)
    ensures forall r :: r in t.live[|s.live|..] ==> !q.Between(0, cursor)(r)
  {
    forall r | r in t.live[|s.live|..] ensures !q.Between(0, cursor)(r) {
      if cursor != q.low {
        var row :| row in s.live && row.id + 1 == cursor;
        OrderedAcross(log, s, t, row, r);
      }
    }
  }

  lemma OrderedAcross(log: Log, s: Store, t: Store, before: Row, after: Row)
    requires Inv(log, t) && s.live <= t.live && before in s.live && after in t.live[|s.live|..]
    ensures before.id < after.id && before in t.live
  {
    var i :| 0 <= i < |s.live| && s.live[i] == before;
    var j :| |s.live| <= j < |t.live| && t.live[j] == after;
    assert t.live[i] == before;
  }

  lemma ProgressPage(log: Log, q: Query, s: Store, anchor: Option<Checkpoint>, cursor: nat, rows: seq<Row>,
                     count: nat, page: seq<Row>, last: nat)
    requires Inv(log, s) && q.low <= cursor && Progress(log, q, s, anchor, cursor, rows)
    requires page == Range(q.StreamRows(s), cursor, q.high, count) && page != [] && last == page[|page| - 1].id
    ensures Progress(log, q, s, anchor, last + 1, rows + Select(q.keep, page))
    ensures cursor <= last <= q.high
  {
    FullPage(log, q, s, cursor, count, page, last);
    SplitBetween(q, s.live, AnchorId(s.anchor), 0, cursor, last + 1);
    MoreProgress(log, q, s, anchor, cursor, rows, page[|page| - 1], Select(q.keep, page));
  }

  lemma MoreProgress(log: Log, q: Query, s: Store, anchor: Option<Checkpoint>, cursor: nat, rows: seq<Row>,
                     last: Row, kept: seq<Row>)
    requires Progress(log, q, s, anchor, cursor, rows) && last in s.live
    requires Select(q.Between(0, last.id + 1), s.live) == Select(q.Between(0, cursor), s.live) + kept
    ensures Progress(log, q, s, anchor, last.id + 1, rows + kept)
  {
    if s.anchor == anchor {
      Assoc(Select(q.Wanted(), log.Archived(s.segments, anchor)), Select(q.Between(0, cursor), s.live), kept);
    }
  }

  /** All wanted rows of the history are those of the archive, then the live ones. */
  lemma WantedSplit(log: Log, q: Query, s: Store, cursor: nat)
    requires Inv(log, s) && cursor <= q.high + 1
    ensures Select(q.Wanted(), History(log, s)) ==
      Select(q.Wanted(), log.Archived(s.segments, s.anchor)) + Select(q.Between(0, cursor), s.live)
      + Select(q.Between(cursor, q.high + 1), s.live)
  {
    SelectConcat(q.Wanted(), log.Archived(s.segments, s.anchor), s.live);
    SelectSame(q.Wanted(), q.Between(0, q.high + 1), s.live);
    SplitBetween(q, s.live, AnchorId(s.anchor), 0, cursor, q.high + 1);
  }

  /** Below the requested count, the archived matches are exactly all of them. */
  lemma TakeShort<T>(count: Option<nat>, rows: seq<T>)
    requires count.Some? ==> |Take(count, rows)| < count.value
    ensures Take(count, rows) == rows
  {
  }

  lemma TakePrefix<T>(count: Option<nat>, front: seq<T>, rest: seq<T>)
    requires count.Some? && |Take(count, front)| >= count.value
    ensures Take(count, front) == Take(count, front + rest)
  {
  }

  lemma EnoughArchived(log: Log, q: Query, s: Store)
    requires q.count.Some? && |Take(q.count, Select(q.Wanted(), log.Archived(s.segments, s.anchor)))| >= q.count.value
    ensures Take(q.count, Select(q.Wanted(), log.Archived(s.segments, s.anchor))) == q.Answer(log, s)
  {
    SelectConcat(q.Wanted(), log.Archived(s.segments, s.anchor), s.live);
    TakePrefix(q.count, Select(q.Wanted(), log.Archived(s.segments, s.anchor)), Select(q.Wanted(), s.live));
  }

  /** A page that is short, or that completes the count, completes the answer. */
  lemma LastPage(log: Log, q: Query, s: Store, cursor: nat, rows: seq<Row>, count: nat, page: seq<Row>)
    requires Inv(log, s) && q.low <= cursor <= q.high + 1 && Progress(log, q, s, s.anchor, cursor, rows)
    requires page == Range(q.StreamRows(s), cursor, q.high, count)
    requires
      || |page| < count
      || (page != [] && q.count.Some? && |Take(q.count, rows + Select(q.keep, page))| >= q.count.value)
    ensures Take(q.count, rows + Select(q.keep, page)) == q.Answer(log, s)
  {
    if |page| < count {
      WantedSplit(log, q, s, cursor);
      ShortPage(log, q, s, cursor, count, page);
    } else {
      var last := page[|page| - 1].id;
      ProgressPage(log, q, s, s.anchor, cursor, rows, count, page, last);
      WantedSplit(log, q, s, last + 1);
      TakePrefix(q.count, rows + Select(q.keep, page), Select(q.Between(last + 1, q.high + 1), s.live));
    }
  }

  function PageSize(q: Query, found: nat, scanned: nat): nat
    requires scanned <= MAX_SCAN && (q.count.Some? ==> found < q.count.value)
  {
    var size := if q.count.Some? && !q.filtered && q.count.value - found < PAGE then q.count.value - found else PAGE;
    if size < MAX_SCAN - scanned + 1 then size else MAX_SCAN - scanned + 1
  }

  lemma Carry(log: Log, q: Query, seen: nat -> Store, j: nat, k: nat, cursor: nat, rows: seq<Row>)
    requires Evolves(log, seen) && j <= k && Progress(log, q, seen(j), seen(0).anchor, cursor, rows)
    ensures Inv(log, seen(k)) && Progress(log, q, seen(k), seen(0).anchor, cursor, rows)
    ensures seen(k + 1).anchor == seen(0).anchor ==> seen(k).anchor == seen(0).anchor
  {
    SeenIsLater(log, seen, 0, j);
    SeenIsLater(log, seen, j, k);
    SeenIsLater(log, seen, k, k + 1);
    ProgressLater(log, q, seen(j), seen(k), seen(0).anchor, cursor, rows);
  }

  /** Collect one page; the last one completes the answer, any other advances the cursor. */
  method TakePage(log: Log, q: Query, s: Store, ghost anchor: Option<Checkpoint>, cursor: nat, rows: seq<Row>,
                  size: nat, page: seq<Row>)
    returns (found: seq<Row>, last: bool)
    requires Inv(log, s) && q.low <= cursor <= q.high + 1 && Progress(log, q, s, anchor, cursor, rows) && 0 < size
    requires q.count.Some? ==> |rows| < q.count.value
    requires page == Range(q.StreamRows(s), cursor, q.high, size)
    ensures last && s.anchor == anchor ==> found == q.Answer(log, s)
    ensures !last ==>
      && page != [] && (q.count.Some? ==> |found| < q.count.value)
      && cursor <= page[|page| - 1].id <= q.high
      && Progress(log, q, s, anchor, page[|page| - 1].id + 1, found)
  {
    found := Collect(q, page, rows);
    last := |page| < size || (q.count.Some? && |found| >= q.count.value);
    if last {
      if s.anchor == anchor { LastPage(log, q, s, cursor, rows, size, page); }
    } else {
      MiddlePage(log, q, s, anchor, cursor, rows, size, page);
    }
  }

  /** A full page that leaves the count open advances the cursor. */
  lemma MiddlePage(log: Log, q: Query, s: Store, anchor: Option<Checkpoint>, cursor: nat, rows: seq<Row>,
                   size: nat, page: seq<Row>)
    requires Inv(log, s) && q.low <= cursor && Progress(log, q, s, anchor, cursor, rows) && page != []
    requires page == Range(q.StreamRows(s), cursor, q.high, size)
    requires q.count.Some? ==> |Take(q.count, rows + Select(q.keep, page))| < q.count.value
    ensures cursor <= page[|page| - 1].id <= q.high
    ensures Progress(log, q, s, anchor, page[|page| - 1].id + 1, Take(q.count, rows + Select(q.keep, page)))
  {
    ProgressPage(log, q, s, anchor, cursor, rows, size, page, page[|page| - 1].id);
    TakeShort(q.count, rows + Select(q.keep, page));
  }

  /** How many rows lie below the cursor. */
  function Passed(rows: seq<Row>, cursor: nat): (n: nat)
    ensures n <= |rows|
  {
    if rows == [] then 0 else Passed(rows[..|rows| - 1], cursor) + if rows[|rows| - 1].id < cursor then 1 else 0
  }

  lemma {:induction false} PassedSplit(rows: seq<Row>, cursor: nat, last: nat)
    requires cursor <= last + 1
    ensures Passed(rows, last + 1) == Passed(rows, cursor) + |Select(Within(cursor, last), rows)|
  {
    if rows != [] { PassedSplit(rows[..|rows| - 1], cursor, last); }
  }

  lemma {:induction false} PassedGrows(rows: seq<Row>, more: seq<Row>, cursor: nat)
    ensures Passed(rows, cursor) <= Passed(rows + more, cursor)
  {
    if more == [] {
      assert rows + more == rows;
    } else {
      var n := |more| - 1;
      PassedGrows(rows, more[..n], cursor);
      assert (rows + more)[..|rows| + n] == rows + more[..n];
    }
  }

  /** While the anchor stands, the rows of a stream are only appended to. */
  lemma StreamGrows(log: Log, q: Query, s: Store, t: Store, cursor: nat)
    requires Inv(log, s) && Later(log, s, t) && s.anchor == t.anchor
    ensures Passed(q.StreamRows(s), cursor) <= Passed(q.StreamRows(t), cursor)
  {
    SameAnchor(log, s, t);
    var more := t.live[|s.live|..];
    Rejoin(t.live, s.live, more);
    if q.key.Some? {
      assert IndexedBy(s.indexes, s.live, s.lastId, q.key.value) && IndexedBy(t.indexes, t.live, t.lastId, q.key.value);
      SelectConcat(MatchKey(q.key.value), s.live, more);
      PassedGrows(q.StreamRows(s), Select(MatchKey(q.key.value), more), cursor);
    } else {
      PassedGrows(s.live, more, cursor);
    }
  }

  /** A page moves exactly its rows below the cursor. */
  lemma ScanPage(log: Log, q: Query, s: Store, cursor: nat, size: nat, page: seq<Row>, n: nat)
    requires Inv(log, s) && n <= Passed(q.StreamRows(s), cursor) && page == Range(q.StreamRows(s), cursor, q.high, size)
    ensures n + |page| <= |q.StreamRows(s)|
    ensures page != [] ==> n + |page| <= Passed(q.StreamRows(s), page[|page| - 1].id + 1)
  {
    if page != [] {
      var last := page[|page| - 1].id;
      RangeIsPrefix(q.StreamRows(s), cursor, q.high, size);
      OrderedPrefix(log, q, s, cursor, Select(Within(cursor, q.high), q.StreamRows(s)), page, last);
      PassedSplit(q.StreamRows(s), cursor, last);
    }
  }

  /** The rows counted so far are rows of the stream, while the anchor stands. */
  ghost predicate Counted(q: Query, s: Store, anchor: Option<Checkpoint>, cursor: nat, n: nat) {
    s.anchor == anchor ==> n <= Passed(q.StreamRows(s), cursor)
  }

  lemma CarryCount(log: Log, q: Query, seen: nat -> Store, j: nat, k: nat, cursor: nat, n: nat)
    requires Evolves(log, seen) && j <= k && Counted(q, seen(j), seen(0).anchor, cursor, n)
    ensures Inv(log, seen(k)) && Counted(q, seen(k), seen(0).anchor, cursor, n)
  {
    SeenIsLater(log, seen, 0, j);
    SeenIsLater(log, seen, j, k);
    if seen(k).anchor == seen(0).anchor {
      StreamGrows(log, q, seen(j), seen(k), cursor);
    }
  }

  /** At one of the reads made the archive had moved on. */
  ghost predicate Moved(seen: nat -> Store, made: nat) {
    exists k: nat :: k < made && seen(k).anchor != seen(0).anchor
  }

  /** At one of them, archive and queried stream together exceed the scan bound. */
  ghost predicate TooLong(q: Query, seen: nat -> Store, made: nat) {
    exists k: nat :: k < made && Total(seen(0).anchor) + |q.StreamRows(seen(k))| > MAX_SCAN
  }

  datatype Reading = OverLimit | Last(rows: seq<Row>) | More(rows: seq<Row>, cursor: nat, scanned: nat)

  /** One turn of the page loop against the store `s`. */
  method ReadPage(log: Log, q: Query, s: Store, anchor: Option<Checkpoint>, cursor: nat, rows: seq<Row>, scanned: nat)
    returns (r: Reading)
    requires Inv(log, s) && q.low <= cursor <= q.high + 1 && Progress(log, q, s, anchor, cursor, rows)
    requires Total(anchor) <= scanned <= MAX_SCAN && Counted(q, s, anchor, cursor, scanned - Total(anchor))
    requires q.count.Some? ==> |rows| < q.count.value
    ensures r.OverLimit? ==> s.anchor != anchor || Total(anchor) + |q.StreamRows(s)| > MAX_SCAN
    ensures r.Last? && s.anchor == anchor ==> r.rows == q.Answer(log, s)
    ensures r.More? ==>
      && (q.count.Some? ==> |r.rows| < q.count.value)
      && cursor < r.cursor <= q.high + 1 && scanned < r.scanned <= MAX_SCAN
      && Progress(log, q, s, anchor, r.cursor, r.rows) && Counted(q, s, anchor, r.cursor, r.scanned - Total(anchor))
  {
    var size := PageSize(q, |rows|, scanned);
    var page := Range(q.StreamRows(s), cursor, q.high, size);
    if s.anchor == anchor { ScanPage(log, q, s, cursor, size, page, scanned - Total(anchor)); }
    if scanned + |page| > MAX_SCAN { return OverLimit; }
    var found, last := TakePage(log, q, s, anchor, cursor, rows, size, page);
    r := if last then Last(found) else More(found, page[|page| - 1].id + 1, scanned + |page|);
  }

  /** Read pages until one is short, the count is reached or the scan bound is exceeded. */
  method QueryLive(log: Log, seen: nat -> Store, q: Query, archived: seq<Row>, used: nat)
    returns (r: Outcome, moment: nat, made: nat)
    requires Evolves(log, seen) && q.low <= q.high && Total(seen(0).anchor) <= MAX_SCAN
    requires Progress(log, q, seen(0), seen(0).anchor, q.low, archived)
    requires q.count.Some? ==> |archived| < q.count.value
    ensures r.Rows? ==> r.rows == q.Answer(log, seen(moment)) && used < moment < made
    ensures r.SnapshotChanged? ==> Moved(seen, made)
    ensures r.ScanLimit? ==> Moved(seen, made) || TooLong(q, seen, made)
  {
    var anchor := seen(0).anchor;
    var rows, scanned, cursor, k := archived, Total(anchor), q.low, used;
    ghost var j: nat := 0;
    while true
      invariant used <= k && j <= k && Total(anchor) <= scanned <= MAX_SCAN && q.low <= cursor <= q.high + 1
      invariant q.count.Some? ==> |rows| < q.count.value
      invariant Progress(log, q, seen(j), anchor, cursor, rows)
      invariant Counted(q, seen(j), anchor, cursor, scanned - Total(anchor))
      decreases MAX_SCAN - scanned
    {
      k := k + 1;
      Carry(log, q, seen, j, k, cursor, rows);
      CarryCount(log, q, seen, j, k, cursor, scanned - Total(anchor));
      j := k;
      var page := ReadPage(log, q, seen(k), anchor, cursor, rows, scanned);
      match page
      case OverLimit => return ScanLimit, 0, k + 1;
      case Last(found) =>
        if seen(k + 1).anchor != anchor { return SnapshotChanged, 0, k + 2; }
        return Rows(found), k, k + 2;
      case More(found, next, total) => rows, cursor, scanned := found, next, total;
    }
  }

  /**
  If the query returns rows, they are exactly what an instantaneous query would have
  returned at the moment of its read number `moment`, one of the `made` reads of the call:
  the first `count` matches, in stream order, of archive and live rows together.  It fails
  only when the archive moved on meanwhile or archive and stream exceed the scan bound.
   */
  method QueryStream(log: Log, seen: nat -> Store, q: Query) returns (r: Outcome, moment: nat, made: nat)
    requires Evolves(log, seen) && q.low <= q.high
    ensures r.Rows? ==> r.rows == q.Answer(log, seen(moment)) && moment < made
    ensures r.SnapshotChanged? ==> Moved(seen, made)
    ensures r.ScanLimit? ==> Moved(seen, made) || TooLong(q, seen, made)
  {
    if q.count == Some(0) { return Rows([]), 0, 1; }
    if Total(seen(0).anchor) > MAX_SCAN {
      assert Total(seen(0).anchor) + |q.StreamRows(seen(0))| > MAX_SCAN;
      return ScanLimit, 0, 1;
    }
    var rows, used := QueryArchived(log, seen, q);
    if q.count.Some? && |rows| >= q.count.value {
      EnoughArchived(log, q, seen(0));
      return Rows(rows), 0, used + 1;
    }
    TakeShort(q.count, Select(q.Wanted(), log.Archived(seen(0).segments, seen(0).anchor)));
    ProgressStart(log, q, seen(0));
    r, moment, made := QueryLive(log, seen, q, rows, used);
  }
}
