/**
`_verify_chain`: the check of a stored chain, archive first and then the live rows page
by page up to the tail seen at the start.  `seen(k)` is the store at the k-th read, so
appends may go on between the reads.
 */
module AuditVerify {
  import opened Options
  import opened AuditLog
  import opened AuditScripts
  import opened AuditRuns
  import AuditQuery

  datatype Verdict = Verified(ok: bool) | ScanLimit

  datatype Scan = Passed(scanned: nat, found: bool) | Failed | OverLimit

  predicate Names(row: Row, wanted: string) {
    row.fields.Decoded? && row.fields.entry.Message? && row.fields.entry.messageId == wanted
  }

  ghost predicate Mentions(rows: seq<Row>, wanted: Option<string>) {
    wanted.Some? && exists i :: 0 <= i < |rows| && Names(rows[i], wanted.value)
  }

  /** The identity of the newest row, or of the anchor when nothing is live. */
  function UpperId(s: Store): nat {
    if s.live == [] then AnchorId(s.anchor) else s.live[|s.live| - 1].id
  }

  function LowerId(s: Store): nat {
    if s.anchor.Some? then s.anchor.value.lastId + 1 else 0
  }

  /** The live rows a verification reads: those above the anchor. */
  function Visible(s: Store): seq<Row> {
    Select(Within(LowerId(s), UpperId(s)), s.live)
  }

  /** The condition a verification is meant to decide. */
  ghost predicate Accepts(log: Log, s: Store, wanted: Option<string>) {
    && s.head.Some? && (s.live != [] || s.anchor.Some?)
    && log.Intact(s.segments, s.anchor)
    && log.Chained(AnchorHash(s.anchor), Visible(s))
    && log.Tip(AnchorHash(s.anchor), Visible(s)) == s.head
    && (if Visible(s) == [] then AnchorId(s.anchor) else Visible(s)[|Visible(s)| - 1].id) == UpperId(s)
    && (wanted.Some? ==> Mentions(log.Archived(s.segments, s.anchor) + Visible(s), wanted))
  }

  /** No archive commit between the reads made; rows may be appended and segments published. */
  ghost predicate Stable(seen: nat -> Store, made: nat) {
    forall k: nat :: k < made ==> StableAt(seen(0), seen(k))
  }

  /** Before the first page was read the archive had taken every row to be verified. */
  ghost predicate AllGone(seen: nat -> Store, made: nat) {
    forall k: nat :: 2 <= k < made ==> Select(Within(LowerId(seen(0)), UpperId(seen(0))), seen(k).live) == []
  }

  ghost predicate StableAt(s: Store, t: Store) {
    && (forall d :: d in s.segments ==> d in t.segments && t.segments[d] == s.segments[d])
    && Select(Within(LowerId(s), UpperId(s)), t.live) == Visible(s)
  }

  /** Walk the rows of a segment behind the hash and the identity that precede it. */
  method CheckRows(log: Log, previous: Option<Hash>, low: nat, rows: seq<Row>, scanned: nat, limit: nat,
                   wanted: Option<string>)
    returns (scan: Scan)
    requires scanned <= limit
    ensures scan.Passed? ==>
      && log.Chained(previous, rows) && Ordered(low, rows)
      && scan.scanned == scanned + |rows| <= limit
      && (scan.found <==> Mentions(rows, wanted))
    ensures scan.Failed? ==> !(log.Chained(previous, rows) && Ordered(low, rows))
    ensures scan.OverLimit? ==> scanned + |rows| > limit
  {
    var hash, id, count, found := previous, low, scanned, false;
    for i := 0 to |rows|
      invariant count == scanned + i <= limit
      invariant hash == log.Tip(previous, rows[..i])
      invariant id == if i == 0 then low else rows[i - 1].id
      invariant forall j :: 0 <= j < i ==> log.LinkedAt(previous, rows, j)
      invariant forall j :: 0 <= j < i ==> low < rows[j].id <= id
      invariant forall j, k :: 0 <= j < k < i ==> rows[j].id < rows[k].id
      invariant found <==> wanted.Some? && exists j :: 0 <= j < i && Names(rows[j], wanted.value)
    {
      count := count + 1;
      if count > limit { return OverLimit; }
      if !log.Sound(rows[i]) || rows[i].fields.entry.previous != hash || rows[i].id <= id {
        assert !log.LinkedAt(previous, rows, i) || !Ordered(low, rows);
        return Failed;
      }
      hash, id := Some(log.HashOf(rows[i])), rows[i].id;
      if wanted.Some? && Names(rows[i], wanted.value) { found := true; }
    }
    scan := Passed(count, found);
  }

  /** Check one archived segment against the checkpoint that names it. */
  method CheckSegment(log: Log, anchor: Checkpoint, segment: Segment, scanned: nat, limit: nat, wanted: Option<string>)
    returns (scan: Scan)
    requires segment.rows != [] && scanned <= limit
    ensures scan.Passed? ==>
      && log.Agrees(anchor, segment)
      && scan.scanned == scanned + |segment.rows| <= limit
      && (scan.found <==> Mentions(segment.rows, wanted))
    ensures scan.Failed? ==> !log.Agrees(anchor, segment)
    ensures scan.OverLimit? ==>
      anchor.total == Total(segment.previous) + |segment.rows| && scanned + |segment.rows| > limit
  {
    var rows := segment.rows;
    if || segment.stream != log.stream || anchor.stream != log.stream
       || segment.lastHash != anchor.lastHash
       || rows[|rows| - 1].id != anchor.lastId
       || anchor.total != Total(segment.previous) + |rows|
    {
      return Failed;
    }
    scan := CheckRows(log, AnchorHash(segment.previous), AnchorId(segment.previous), rows, scanned, limit, wanted);
    if scan.Passed? && log.HashOf(rows[|rows| - 1]) != anchor.lastHash { return Failed; }
  }

  lemma MentionsConcat(a: seq<Row>, b: seq<Row>, wanted: Option<string>)
    ensures Mentions(a + b, wanted) <==> Mentions(a, wanted) || Mentions(b, wanted)
  {
    if Mentions(a, wanted) {
      var i :| 0 <= i < |a| && Names(a[i], wanted.value);
      assert (a + b)[i] == a[i];
    }
    if Mentions(b, wanted) {
      var i :| 0 <= i < |b| && Names(b[i], wanted.value);
      assert (a + b)[|a| + i] == b[i];
    }
  }

  /** Walk the archive from the newest segment to the first. */
  method CheckArchive(log: Log, segments: map<Digest, Segment>, anchor: Option<Checkpoint>, limit: nat,
                      wanted: Option<string>)
    returns (scan: Scan)
    ensures scan.Passed? ==>
      && log.Intact(segments, anchor)
      && scan.scanned == Total(anchor) <= limit
      && (scan.found <==> wanted.None? || Mentions(log.Archived(segments, anchor), wanted))
    ensures scan.Failed? ==> !log.Intact(segments, anchor)
    ensures scan.OverLimit? ==> Total(anchor) > limit
  {
    var archived, scanned, found := anchor, 0, wanted.None?;
    ghost var newer: seq<Row> := [];
    while archived.Some?
      invariant scanned == Total(anchor) - Total(archived) <= limit && Total(archived) <= Total(anchor)
      invariant log.Intact(segments, archived) <==> log.Intact(segments, anchor)
      invariant log.Archived(segments, anchor) == log.Archived(segments, archived) + newer
      invariant found <==> wanted.None? || Mentions(newer, wanted)
      decreases Total(archived)
    {
      var segment := log.Read(segments, archived.value.digest);
      if segment.None? { return Failed; }
      var checked := CheckSegment(log, archived.value, segment.value, scanned, limit, wanted);
      if !checked.Passed? { return checked; }
      MentionsConcat(segment.value.rows, newer, wanted);
      newer := segment.value.rows + newer;
      found := found || checked.found;
      scanned := checked.scanned;
      archived := segment.value.previous;
    }
    assert log.Archived(segments, anchor) == newer;
    scan := Passed(scanned, found);
  }

  lemma SelectNarrow(low: nat, cursor: nat, high: nat, rows: seq<Row>)
    requires low <= cursor
    ensures Select(Within(cursor, high), Select(Within(low, high), rows)) == Select(Within(cursor, high), rows)
  {
    if rows != [] {
      var n := |rows| - 1;
      SelectNarrow(low, cursor, high, rows[..n]);
      SelectConcat(Within(cursor, high), Select(Within(low, high), rows[..n]),
                   if Within(low, high)(rows[n]) then [rows[n]] else []);
    }
  }

  lemma {:induction false} SelectSuffix(rows: seq<Row>, done: nat, cursor: nat, high: nat)
    requires done <= |rows|
    requires forall i :: 0 <= i < |rows| ==> rows[i].id <= high
    requires forall i :: 0 <= i < done ==> rows[i].id < cursor
    requires forall i :: done <= i < |rows| ==> cursor <= rows[i].id
    ensures Select(Within(cursor, high), rows) == rows[done..]
  {
    if rows != [] {
      var n := |rows| - 1;
      SelectSuffix(rows[..n], if done <= n then done else n, cursor, high);
      assert done <= n ==> rows[done..] == rows[..n][done..] + [rows[n]];
    }
  }

  lemma VisibleBounds(s: Store)
    requires Increasing(s.live)
    ensures Increasing(Visible(s))
    ensures forall i :: 0 <= i < |Visible(s)| ==> LowerId(s) <= Visible(s)[i].id <= UpperId(s)
  {
    SelectIncreasing(Within(LowerId(s), UpperId(s)), s.live);
    SelectMember(Within(LowerId(s), UpperId(s)), s.live);
    forall i | 0 <= i < |Visible(s)| ensures LowerId(s) <= Visible(s)[i].id <= UpperId(s) {
      assert Visible(s)[i] in Visible(s);
    }
  }

  /** Reading on from a cursor gives what was not yet read. */
  lemma NextPage(s: Store, live: seq<Row>, done: nat, cursor: nat)
    requires Select(Within(LowerId(s), UpperId(s)), live) == Visible(s) && Increasing(s.live)
    requires done <= |Visible(s)|
    requires cursor == if done == 0 then LowerId(s) else Visible(s)[done - 1].id + 1
    ensures Select(Within(cursor, UpperId(s)), live) == Visible(s)[done..]
  {
    VisibleBounds(s);
    SelectNarrow(LowerId(s), cursor, UpperId(s), live);
    SelectSuffix(Visible(s), done, cursor, UpperId(s));
  }

  /** Check one page of live rows against the expected predecessor. */
  method CheckPage(log: Log, previous: Option<Hash>, page: seq<Row>, scanned: nat, limit: nat, wanted: Option<string>)
    returns (scan: Scan)
    requires scanned <= limit
    ensures scan.Passed? ==>
      && log.Chained(previous, page)
      && scan.scanned == scanned + |page| <= limit
      && (scan.found <==> Mentions(page, wanted))
    ensures scan.Failed? ==> !log.Chained(previous, page)
    ensures scan.OverLimit? ==> scanned + |page| > limit
  {
    var expected, count, found := previous, scanned, false;
    for i := 0 to |page|
      invariant count == scanned + i <= limit
      invariant expected == log.Tip(previous, page[..i])
      invariant forall j :: 0 <= j < i ==> log.LinkedAt(previous, page, j)
      invariant found <==> wanted.Some? && exists j :: 0 <= j < i && Names(page[j], wanted.value)
    {
      count := count + 1;
      if count > limit { return OverLimit; }
      if !log.Sound(page[i]) || page[i].fields.entry.previous != expected {
        assert !log.LinkedAt(previous, page, i);
        return Failed;
      }
      expected := Some(log.HashOf(page[i]));
      if wanted.Some? && Names(page[i], wanted.value) { found := true; }
    }
    scan := Passed(count, found);
  }

  /** The first `done` visible rows continue the chain of the anchor up to `tip`. */
  ghost predicate Checked(log: Log, s: Store, done: nat, tip: Option<Hash>, last: nat) {
    && done <= |Visible(s)|
    && log.Chained(AnchorHash(s.anchor), Visible(s)[..done])
    && tip == log.Tip(AnchorHash(s.anchor), Visible(s)[..done])
    && last == if done == 0 then AnchorId(s.anchor) else Visible(s)[done - 1].id
  }

  /** A page extends the checked rows, or shows that the visible rows are no chain. */
  lemma PageDecides(log: Log, s: Store, done: nat, tip: Option<Hash>, last: nat, page: seq<Row>, wanted: Option<string>)
    requires Checked(log, s, done, tip, last) && page != []
    requires done + |page| <= |Visible(s)| && page == Visible(s)[done..done + |page|]
    ensures log.Chained(tip, page) ==>
      Checked(log, s, done + |page|, Some(log.HashOf(page[|page| - 1])), page[|page| - 1].id)
    ensures log.Chained(AnchorHash(s.anchor), Visible(s)) ==> log.Chained(tip, page)
    ensures Mentions(Visible(s)[..done + |page|], wanted)
      <==> Mentions(Visible(s)[..done], wanted) || Mentions(page, wanted)
  {
    var rows, next := Visible(s), done + |page|;
    log.ChainedConcat(AnchorHash(s.anchor), rows[..done], page);
    MentionsConcat(rows[..done], page, wanted);
    assert rows[..next] == rows[..done] + page;
    log.ChainedConcat(AnchorHash(s.anchor), rows[..next], rows[next..]);
    assert rows == rows[..next] + rows[next..];
  }

  /** What a page read shows when the visible rows are still there, and when none is. */
  lemma StablePage(s: Store, live: seq<Row>, done: nat, cursor: nat, count: nat, page: seq<Row>)
    requires Select(Within(LowerId(s), UpperId(s)), live) == Visible(s) && Increasing(s.live)
    requires done <= |Visible(s)| && 0 < count && page == Range(live, cursor, UpperId(s), count)
    requires cursor == if done == 0 then LowerId(s) else Visible(s)[done - 1].id + 1
    ensures done + |page| <= |Visible(s)| && page == Visible(s)[done..done + |page|]
    ensures page == [] ==> done == |Visible(s)|
  {
    NextPage(s, live, done, cursor);
  }

  /** The rows read so far continue the chain of the anchor up to `tip`. */
  ghost predicate Continues(log: Log, s: Store, rows: seq<Row>, tip: Option<Hash>, last: nat) {
    && log.Chained(AnchorHash(s.anchor), rows) && tip == log.Tip(AnchorHash(s.anchor), rows)
    && last == if rows == [] then AnchorId(s.anchor) else rows[|rows| - 1].id
  }

  lemma ContinuesWith(log: Log, s: Store, rows: seq<Row>, tip: Option<Hash>, last: nat, page: seq<Row>)
    requires Continues(log, s, rows, tip, last) && page != [] && log.Chained(tip, page)
    ensures Continues(log, s, rows + page, Some(log.HashOf(page[|page| - 1])), page[|page| - 1].id)
  {
    log.ChainedConcat(AnchorHash(s.anchor), rows, page);
  }

  /** While the reads are stable, what was read is the front of the visible rows. */
  ghost predicate InFront(seen: nat -> Store, made: nat, rows: seq<Row>) {
    Stable(seen, made) && Increasing(seen(0).live) ==> rows <= Visible(seen(0))
  }

  /** A stable page continues the front of the visible rows, or shows that they are no chain. */
  lemma FrontPage(log: Log, seen: nat -> Store, k: nat, rows: seq<Row>, tip: Option<Hash>, last: nat,
                  cursor: nat, count: nat, page: seq<Row>)
    requires Stable(seen, k + 1) && Increasing(seen(0).live) && InFront(seen, k, rows) && 0 < count
    requires Continues(log, seen(0), rows, tip, last)
    requires cursor == if rows == [] then LowerId(seen(0)) else last + 1
    requires page == Range(seen(k).live, cursor, UpperId(seen(0)), count)
    ensures rows + page <= Visible(seen(0)) && (page == [] ==> rows == Visible(seen(0)))
    ensures page != [] && log.Chained(AnchorHash(seen(0).anchor), Visible(seen(0))) ==> log.Chained(tip, page)
  {
    var s := seen(0);
    assert Stable(seen, k) && StableAt(s, seen(k));
    assert rows == Visible(s)[..|rows|];
    StablePage(s, seen(k).live, |rows|, cursor, count, page);
    assert rows + page == Visible(s)[..|rows| + |page|];
    if page != [] { PageDecides(log, s, |rows|, tip, last, page, None); }
  }

  /**
  Read the live rows page by page up to the tail of the first read.  Whatever happens in
  between, the rows read are a chain; if no archive commit falls between the reads, they are
  the visible rows.
   */
  method CheckLive(log: Log, seen: nat -> Store, scanned: nat, limit: nat, batch: nat, wanted: Option<string>)
    returns (scan: Scan, tip: Option<Hash>, last: nat, made: nat, ghost rows: seq<Row>)
    requires 0 < batch && scanned <= limit
    ensures scan.Passed? ==> Continues(log, seen(0), rows, tip, last) && (scan.found <==> Mentions(rows, wanted))
    ensures 2 <= made && (scan.Passed? && AllGone(seen, made) ==> rows == [])
    ensures Stable(seen, made) && Increasing(seen(0).live) ==>
      && (scan.Passed? ==> rows == Visible(seen(0)))
      && (scan.Failed? ==> !log.Chained(AnchorHash(seen(0).anchor), Visible(seen(0))))
      && (scan.OverLimit? ==> scanned + |Visible(seen(0))| > limit)
  {
    var s := seen(0);
    tip, last, made, rows := AnchorHash(s.anchor), AnchorId(s.anchor), 2, [];
    var count, found, cursor := scanned, false, LowerId(s);
    while true
      invariant Continues(log, s, rows, tip, last) && count == scanned + |rows| <= limit && 2 <= made
      invariant cursor == if rows == [] then LowerId(s) else last + 1
      invariant (found <==> Mentions(rows, wanted)) && InFront(seen, made, rows)
      invariant AllGone(seen, made) ==> rows == []
      decreases limit - count
    {
      var size := if batch < limit - count + 1 then batch else limit - count + 1;
      var page := Range(seen(made).live, cursor, UpperId(s), size);
      if Stable(seen, made + 1) && Increasing(s.live) {
        FrontPage(log, seen, made, rows, tip, last, cursor, size, page);
      }
      made := made + 1;
      if page == [] { break; }
      var checked := CheckPage(log, tip, page, count, limit, wanted);
      if !checked.Passed? { return checked, tip, last, made, rows; }
      ContinuesWith(log, s, rows, tip, last, page);
      MentionsConcat(rows, page, wanted);
      tip, last := Some(log.HashOf(page[|page| - 1])), page[|page| - 1].id;
      found, count, cursor := found || checked.found, checked.scanned, last + 1;
      rows := rows + page;
    }
    scan := Passed(count, found);
  }

  /** Publishing segments leaves an accepted store accepted. */
  lemma MoreSegments(log: Log, s: Store, t: Store, wanted: Option<string>)
    requires StableAt(s, t) && Accepts(log, s, wanted)
    ensures Accepts(log, s.(segments := t.segments), wanted)
  {
    log.ArchivedStable(s.segments, t.segments, s.anchor);
  }

  /** The archive and these rows are one chain up to the stored head and the last identity. */
  ghost predicate ChainRead(log: Log, s: Store, rows: seq<Row>, wanted: Option<string>) {
    && log.Intact(s.segments, s.anchor)
    && log.Chained(AnchorHash(s.anchor), rows) && log.Tip(AnchorHash(s.anchor), rows) == s.head
    && (if rows == [] then AnchorId(s.anchor) else rows[|rows| - 1].id) == UpperId(s)
    && (wanted.Some? ==> Mentions(log.Archived(s.segments, s.anchor) + rows, wanted))
  }

  lemma FirstReads(log: Log, seen: nat -> Store, wanted: Option<string>)
    ensures Stable(seen, 2) && Accepts(log, seen(0), wanted) ==>
      Accepts(log, seen(0).(segments := seen(1).segments), wanted)
  {
    if Stable(seen, 2) && Accepts(log, seen(0), wanted) {
      assert StableAt(seen(0), seen(1));
      MoreSegments(log, seen(0), seen(1), wanted);
    }
  }

  /**
  Decide the chain of a store, unless the scan bound is exceeded.  An answer of true always
  means that the segments and rows read are one chain with the stored head.  Without an
  archive commit between the reads, the answer is right for the store of the first read, with
  the segments as they were read.  If the archive takes the rows before they are read, a
  sound chain is answered with false.
   */
  method VerifyChain(log: Log, seen: nat -> Store, wanted: Option<string>, limit: nat, batch: nat)
    returns (v: Verdict, made: nat, ghost rows: seq<Row>)
    requires 0 < limit && 0 < batch
    ensures v.Verified? && v.ok ==> ChainRead(log, seen(0).(segments := seen(1).segments), rows, wanted)
    ensures Stable(seen, made) && Increasing(seen(0).live) ==>
      && (v.Verified? ==> (v.ok <==> Accepts(log, seen(0).(segments := seen(1).segments), wanted)))
      && (v.Verified? && Accepts(log, seen(0), wanted) ==> v.ok)
      && (v.ScanLimit? ==> Total(seen(0).anchor) + |Visible(seen(0))| > limit)
    ensures AllGone(seen, made) && UpperId(seen(0)) != AnchorId(seen(0).anchor) && v.Verified? ==> !v.ok
  {
    var s := seen(0).(segments := seen(1).segments);
    made, rows := 2, [];
    FirstReads(log, seen, wanted);
    if s.head.None? || (s.live == [] && s.anchor.None?) { return Verified(false), made, rows; }
    var archived := CheckArchive(log, seen(1).segments, s.anchor, limit, wanted);
    if archived.Failed? { return Verified(false), made, rows; }
    if archived.OverLimit? { return ScanLimit, made, rows; }
    v, made, rows := VerifyLive(log, seen, s, archived.found, archived.scanned, limit, batch, wanted);
    assert Stable(seen, made) ==> Stable(seen, 2);
  }

  /** The live rows behind an intact archive. */
  method VerifyLive(log: Log, seen: nat -> Store, s: Store, archived: bool, scanned: nat, limit: nat, batch: nat,
                    wanted: Option<string>)
    returns (v: Verdict, made: nat, ghost rows: seq<Row>)
    requires s == seen(0).(segments := seen(1).segments) && 0 < batch && scanned == Total(s.anchor) <= limit
    requires log.Intact(s.segments, s.anchor)
    requires archived <==> wanted.None? || Mentions(log.Archived(s.segments, s.anchor), wanted)
    ensures 2 <= made && (v.Verified? && v.ok ==> ChainRead(log, s, rows, wanted))
    ensures Stable(seen, made) && Increasing(s.live) ==>
      && (v.Verified? ==> (v.ok <==> ChainRead(log, s, Visible(s), wanted)))
      && (v.ScanLimit? ==> Total(s.anchor) + |Visible(s)| > limit)
    ensures AllGone(seen, made) && UpperId(s) != AnchorId(s.anchor) && v.Verified? ==> !v.ok
  {
    var live, tip, last;
    live, tip, last, made, rows := CheckLive(log, seen, scanned, limit, batch, wanted);
    if live.Failed? { return Verified(false), made, rows; }
    if live.OverLimit? { return ScanLimit, made, rows; }
    ReadDecides(log, s, rows, tip, last, archived, live.found, wanted);
    v := Verified((archived || live.found) && tip == s.head && last == UpperId(s));
  }

  /** The last test of a verification decides whether what was read is a chain. */
  lemma ReadDecides(log: Log, s: Store, rows: seq<Row>, tip: Option<Hash>, last: nat, archived: bool, live: bool,
                    wanted: Option<string>)
    requires log.Intact(s.segments, s.anchor) && Continues(log, s, rows, tip, last)
    requires archived <==> wanted.None? || Mentions(log.Archived(s.segments, s.anchor), wanted)
    requires live <==> Mentions(rows, wanted)
    ensures (archived || live) && tip == s.head && last == UpperId(s) <==> ChainRead(log, s, rows, wanted)
  {
    MentionsConcat(log.Archived(s.segments, s.anchor), rows, wanted);
  }

  lemma VisibleIsLive(log: Log, s: Store)
    requires Inv(log, s)
    ensures Increasing(s.live) && Visible(s) == s.live
  {
    forall r | r in s.live ensures Within(LowerId(s), UpperId(s))(r) {
      var i :| 0 <= i < |s.live| && s.live[i] == r;
    }
    SelectAll(Within(LowerId(s), UpperId(s)), s.live);
  }

  /** Completeness: a reachable store with any record is accepted, for every message it
      records and, as for security events, without one. */
  lemma ReachableAccepted(log: Log, s: Store, wanted: Option<string>)
    requires Inv(log, s) && History(log, s) != []
    requires wanted.Some? ==> Mentions(History(log, s), wanted)
    ensures Accepts(log, s, wanted)
  {
    VisibleIsLive(log, s);
    InvChain(log, s);
    log.ArchivedChain(s.segments, s.anchor);
  }

  lemma {:induction false} AnchorStands(log: Log, s: Store, steps: seq<Step>)
    requires forall i :: 0 <= i < |steps| ==> !steps[i].Archive?
    ensures Run(log, s, steps).anchor == s.anchor
  {
    if steps != [] {
      var n := |steps| - 1;
      var step, t := steps[n], Run(log, s, steps[..n]);
      AnchorStands(log, s, steps[..n]);
      if step.Append? { AppendAllAnchor(t, Link(log, step.expected, step.batch), step.clock); }
    }
  }

  lemma {:induction false} AppendAllAnchor(s: Store, records: seq<Submission>, clock: nat)
    ensures AppendAll(s, records, clock).anchor == s.anchor
  {
    if records != [] { AppendAllAnchor(s, records[..|records| - 1], clock); }
  }

  /** Whatever is appended, published and routed after the first read leaves what a
      verification reads as it was. */
  lemma AppendsAreStable(log: Log, s: Store, steps: seq<Step>)
    requires Inv(log, s) && History(log, s) != [] && forall i :: 0 <= i < |steps| ==> !steps[i].Archive?
    ensures StableAt(s, Run(log, s, steps))
  {
    AnchorStands(log, s, steps);
    AuditQuery.RunIsLater(log, s, steps);
    SameAnchorIsStable(log, s, Run(log, s, steps));
  }

  /** As long as the checkpoint of the first read stands, what a verification reads stands. */
  lemma SameAnchorIsStable(log: Log, s: Store, t: Store)
    requires Inv(log, s) && History(log, s) != [] && AuditQuery.Later(log, s, t) && s.anchor == t.anchor
    ensures StableAt(s, t)
  {
    AuditQuery.SameAnchor(log, s, t);
    VisibleIsLive(log, s);
    var more := t.live[|s.live|..];
    Rejoin(t.live, s.live, more);
    SelectConcat(Within(LowerId(s), UpperId(s)), s.live, more);
    NewRowsAbove(log, s, t);
    SelectNone(Within(LowerId(s), UpperId(s)), more);
  }

  lemma NewRowsAbove(log: Log, s: Store, t: Store)
    requires Inv(log, t) && s.live <= t.live && s.anchor == t.anchor
    ensures forall r :: r in t.live[|s.live|..] ==> r.id > UpperId(s)
  {
    forall r | r in t.live[|s.live|..] ensures r.id > UpperId(s) {
      var i :| |s.live| <= i < |t.live| && t.live[i] == r;
      if s.live != [] { assert t.live[|s.live| - 1] == s.live[|s.live| - 1]; }
    }
  }

  /** The hash gives different records different names. */
  ghost predicate Injective(log: Log) {
    forall a, b :: log.hash(a) == log.hash(b) ==> a == b
  }

  ghost function Entries(rows: seq<Row>): seq<Fields> {
    seq(|rows|, i requires 0 <= i < |rows| => rows[i].fields)
  }

  /** Two chains from no predecessor with the same tip hold the same records. */
  lemma {:induction false} TipDeterminesChain(log: Log, a: seq<Row>, b: seq<Row>)
    requires Injective(log) && log.Chained(None, a) && log.Chained(None, b)
    requires log.Tip(None, a) == log.Tip(None, b)
    ensures Entries(a) == Entries(b)
    decreases |a|
  {
    if a != [] && b != [] {
      var m, n := |a| - 1, |b| - 1;
      assert log.LinkedAt(None, a, m) && log.LinkedAt(None, b, n);
      assert a == a[..m] + [a[m]] && b == b[..n] + [b[n]];
      log.ChainedConcat(None, a[..m], [a[m]]);
      log.ChainedConcat(None, b[..n], [b[n]]);
      TipDeterminesChain(log, a[..m], b[..n]);
      assert Entries(a) == Entries(a[..m]) + [a[m].fields];
      assert Entries(b) == Entries(b[..n]) + [b[n].fields];
    }
  }

  /** Soundness: accepted stores with one head hold one record sequence, however each is
      divided into segments and live rows. */
  lemma HeadDeterminesRecords(log: Log, s: Store, t: Store, wanted: Option<string>, other: Option<string>)
    requires Injective(log) && Accepts(log, s, wanted) && Accepts(log, t, other) && s.head == t.head
    ensures Entries(log.Archived(s.segments, s.anchor) + Visible(s))
      == Entries(log.Archived(t.segments, t.anchor) + Visible(t))
  {
    log.ArchivedChain(s.segments, s.anchor);
    log.ArchivedChain(t.segments, t.anchor);
    log.ChainedConcat(None, log.Archived(s.segments, s.anchor), Visible(s));
    log.ChainedConcat(None, log.Archived(t.segments, t.anchor), Visible(t));
    var a, b := log.Archived(s.segments, s.anchor) + Visible(s), log.Archived(t.segments, t.anchor) + Visible(t);
    TipDeterminesChain(log, a, b);
  }

  /** So a sound chain is answered with true only if every row of the first read was still
      there when its page was read: a row the archive took before makes the answer false. */
  lemma TrueReadsEveryRow(log: Log, s: Store, rows: seq<Row>, wanted: Option<string>, other: Option<string>)
    requires Injective(log) && Accepts(log, s, other) && ChainRead(log, s, rows, wanted)
    ensures Entries(rows) == Entries(Visible(s))
  {
    var archived := log.Archived(s.segments, s.anchor);
    log.ArchivedChain(s.segments, s.anchor);
    log.ChainedConcat(None, archived, rows);
    log.ChainedConcat(None, archived, Visible(s));
    TipDeterminesChain(log, archived + rows, archived + Visible(s));
    EntriesBehind(archived, rows);
    EntriesBehind(archived, Visible(s));
  }

  lemma EntriesBehind(a: seq<Row>, b: seq<Row>)
    ensures Entries(a + b)[|a|..] == Entries(b)
  {
  }

  /** No live row lies at or below the checkpoint. */
  predicate NothingHidden(s: Store) {
    s.live == [] || s.live[0].id >= LowerId(s)
  }

  /** The visible rows are all the live rows exactly when nothing is hidden. */
  lemma VisibleIffNothingHidden(s: Store)
    requires Increasing(s.live)
    ensures Visible(s) == s.live <==> NothingHidden(s)
  {
    SelectMember(Within(LowerId(s), UpperId(s)), s.live);
    if NothingHidden(s) {
      forall r | r in s.live ensures Within(LowerId(s), UpperId(s))(r) {
        var i :| 0 <= i < |s.live| && s.live[i] == r;
      }
      SelectAll(Within(LowerId(s), UpperId(s)), s.live);
    } else {
      assert s.live[0] !in Visible(s);
    }
  }

  /** Verification does not look below the checkpoint: live rows inserted there, of any
      content, leave an accepted store accepted. */
  lemma HiddenRowsPass(log: Log, s: Store, hidden: seq<Row>, wanted: Option<string>)
    requires Accepts(log, s, wanted) && s.anchor.Some? && s.live != []
    requires forall r :: r in hidden ==> r.id <= AnchorId(s.anchor)
    ensures Accepts(log, s.(live := hidden + s.live), wanted)
  {
    VisibleDespite(s, hidden);
  }

  lemma VisibleDespite(s: Store, hidden: seq<Row>)
    requires s.anchor.Some? && s.live != [] && forall r :: r in hidden ==> r.id <= AnchorId(s.anchor)
    ensures Visible(s.(live := hidden + s.live)) == Visible(s) && UpperId(s.(live := hidden + s.live)) == UpperId(s)
  {
    SelectConcat(Within(LowerId(s), UpperId(s)), hidden, s.live);
    SelectNone(Within(LowerId(s), UpperId(s)), hidden);
  }
}
