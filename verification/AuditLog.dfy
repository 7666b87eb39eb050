/**
The audit log as data: rows of a hash chain, content-addressed archive segments
and the checkpoint that anchors the live rows to the archived ones.

A stream identity `milliseconds-sequence` is written as the one number
`milliseconds * 2^64 + sequence`, so stream order is numeric order and Redis's
identity increment is `+ 1`; module `StreamIds` justifies that reading.
 */
module AuditLog {
  import opened Options

  type Hash = string
  type Digest = string

  datatype Stream = Messages | SecurityEvents

  /** `body` stands for the remaining fields, which no operation here inspects. */
  datatype Entry =
    | Message(messageId: string, sender: string, target: string, decision: string,
              body: string, previous: Option<Hash>, version: nat)
    | Security(body: string, previous: Option<Hash>, version: nat)

  /** Stored fields either decode to a record or are malformed. */
  datatype Fields = Malformed(text: string) | Decoded(entry: Entry)

  datatype Row = Row(id: nat, fields: Fields)

  /** The names of the secondary index streams. */
  datatype Key = BySender(sender: string) | ByTarget(target: string)

  datatype Checkpoint = Checkpoint(
    stream: Stream, lastId: nat, lastHash: Hash, digest: Digest, total: nat)

  datatype Segment = Segment(
    stream: Stream, previous: Option<Checkpoint>, rows: seq<Row>, lastHash: Hash)

  function Total(anchor: Option<Checkpoint>): nat {
    if anchor.Some? then anchor.value.total else 0
  }

  function AnchorHash(anchor: Option<Checkpoint>): Option<Hash> {
    if anchor.Some? then Some(anchor.value.lastHash) else None
  }

  function AnchorId(anchor: Option<Checkpoint>): nat {
    if anchor.Some? then anchor.value.lastId else 0
  }

  /** Strictly increasing identities, all above `low`. */
  ghost predicate Ordered(low: nat, rows: seq<Row>) {
    && (forall i :: 0 <= i < |rows| ==> low < rows[i].id)
    && (forall i, j :: 0 <= i < j < |rows| ==> rows[i].id < rows[j].id)
  }

  /** Redis keeps a stream in the order of its identities. */
  ghost predicate Increasing(rows: seq<Row>) {
    forall i, j :: 0 <= i < j < |rows| ==> rows[i].id < rows[j].id
  }

  /** The rows satisfying `p`, in order. */
  function Select(p: Row -> bool, rows: seq<Row>): seq<Row> {
    if rows == [] then []
    else
      var n := |rows| - 1;
      Select(p, rows[..n]) + if p(rows[n]) then [rows[n]] else []
  }

  function Take<T>(count: Option<nat>, rows: seq<T>): seq<T> {
    if count.Some? && count.value < |rows| then rows[..count.value] else rows
  }

  function Matches(key: Key, row: Row): bool {
    row.fields.Decoded? && row.fields.entry.Message? &&
    match key
    case BySender(s) => row.fields.entry.sender == s
    case ByTarget(t) => row.fields.entry.target == t
  }

  /** One audit stream with its record hash and its segment digest. */
  datatype Log = Log(stream: Stream, hash: Entry -> Hash, digest: Segment -> Digest) {

    /** The row decodes as a version-2 record of this stream. */
    predicate Sound(row: Row) {
      && row.fields.Decoded?
      && (row.fields.entry.Message? <==> stream.Messages?)
      && row.fields.entry.version == 2
    }

    function HashOf(row: Row): Hash {
      match row.fields
      case Decoded(entry) => hash(entry)
      case Malformed(text) => text
    }

    /** The hash a successor of `rows` must link to. */
    function Tip(previous: Option<Hash>, rows: seq<Row>): Option<Hash> {
      if rows == [] then previous else Some(HashOf(rows[|rows| - 1]))
    }

    /** Every row is sound and links to the row before it, the first to `previous`. */
    predicate Chained(previous: Option<Hash>, rows: seq<Row>) {
      forall i :: 0 <= i < |rows| ==> LinkedAt(previous, rows, i)
    }

    predicate LinkedAt(previous: Option<Hash>, rows: seq<Row>, i: nat)
      requires i < |rows|
    {
      Sound(rows[i]) &&
      rows[i].fields.entry.previous == if i == 0 then previous else Some(HashOf(rows[i - 1]))
    }

    /** Reading a segment checks its content identity and that it holds rows. */
    function Read(segments: map<Digest, Segment>, name: Digest): Option<Segment> {
      if name in segments && digest(segments[name]) == name && segments[name].rows != []
      then Some(segments[name]) else None
    }

    /** The rows archived below an anchor, oldest first. */
    function Archived(segments: map<Digest, Segment>, anchor: Option<Checkpoint>): seq<Row>
      decreases Total(anchor)
    {
      if anchor.None? || anchor.value.digest !in segments then []
      else
        var segment := segments[anchor.value.digest];
        if Total(segment.previous) < anchor.value.total
        then Archived(segments, segment.previous) + segment.rows
        else segment.rows
    }

    /** A segment agrees with the checkpoint naming it and links to its predecessor. */
    ghost predicate Agrees(anchor: Checkpoint, segment: Segment) {
      && segment.rows != []
      && segment.stream == stream && anchor.stream == stream
      && segment.lastHash == anchor.lastHash
      && segment.rows[|segment.rows| - 1].id == anchor.lastId
      && anchor.total == Total(segment.previous) + |segment.rows|
      && Chained(AnchorHash(segment.previous), segment.rows)
      && Ordered(AnchorId(segment.previous), segment.rows)
      && Tip(None, segment.rows) == Some(anchor.lastHash)
    }

    ghost predicate SegmentIntact(segments: map<Digest, Segment>, anchor: Checkpoint) {
      Read(segments, anchor.digest).Some? && Agrees(anchor, segments[anchor.digest])
    }

    /** The whole archive below an anchor is present and forms one chain. */
    ghost predicate Intact(segments: map<Digest, Segment>, anchor: Option<Checkpoint>)
      decreases Total(anchor)
    {
      anchor.Some? ==>
        && SegmentIntact(segments, anchor.value)
        && Intact(segments, segments[anchor.value.digest].previous)
    }

    lemma ChainedConcat(previous: Option<Hash>, a: seq<Row>, b: seq<Row>)
      ensures Chained(previous, a + b) <==> Chained(previous, a) && Chained(Tip(previous, a), b)
      ensures Tip(previous, a + b) == Tip(Tip(previous, a), b)
    {
      var c := a + b;
      assert forall i :: 0 <= i < |a| ==> (LinkedAt(previous, c, i) <==> LinkedAt(previous, a, i));
      assert forall i :: 0 <= i < |b| ==> (LinkedAt(previous, c, |a| + i) <==> LinkedAt(Tip(previous, a), b, i));
      if Chained(previous, a) && Chained(Tip(previous, a), b) {
        forall i | 0 <= i < |c| ensures LinkedAt(previous, c, i) {
          if i >= |a| { assert LinkedAt(Tip(previous, a), b, i - |a|); }
        }
      }
    }

    /** An intact archive is one ordered chain from the first record to its anchor. */
    lemma {:induction false} ArchivedChain(segments: map<Digest, Segment>, anchor: Option<Checkpoint>)
      requires Intact(segments, anchor)
      ensures var rows := Archived(segments, anchor);
        && Chained(None, rows) && Tip(None, rows) == AnchorHash(anchor)
        && Ordered(0, rows) && |rows| == Total(anchor)
        && (rows == [] <==> anchor.None?)
        && (rows != [] ==> rows[|rows| - 1].id == AnchorId(anchor))
      decreases Total(anchor)
    {
      if anchor.Some? {
        var segment := segments[anchor.value.digest];
        ArchivedChain(segments, segment.previous);
        ChainedConcat(None, Archived(segments, segment.previous), segment.rows);
      }
    }

    /** Publishing more segments leaves an intact archive as it was. */
    lemma {:induction false} ArchivedStable(
      segments: map<Digest, Segment>, more: map<Digest, Segment>, anchor: Option<Checkpoint>)
      requires Intact(segments, anchor)
      requires forall d :: d in segments ==> d in more && more[d] == segments[d]
      ensures Intact(more, anchor) && Archived(more, anchor) == Archived(segments, anchor)
      decreases Total(anchor)
    {
      if anchor.Some? {
        ArchivedStable(segments, more, segments[anchor.value.digest].previous);
      }
    }
  }

  lemma SelectConcat(p: Row -> bool, a: seq<Row>, b: seq<Row>)
    ensures Select(p, a + b) == Select(p, a) + Select(p, b)
  {
    if b == [] {
      assert a + b == a;
    } else {
      var n := |b| - 1;
      SelectConcat(p, a, b[..n]);
      assert (a + b)[..|a| + n] == a + b[..n];
    }
  }

  lemma SelectAll(p: Row -> bool, rows: seq<Row>)
    requires forall r :: r in rows ==> p(r)
    ensures Select(p, rows) == rows
  {
    if rows != [] { assert rows == rows[..|rows| - 1] + [rows[|rows| - 1]]; }
  }

  lemma SelectNone(p: Row -> bool, rows: seq<Row>)
    requires forall r :: r in rows ==> !p(r)
    ensures Select(p, rows) == []
  {
  }

  lemma SelectCommute(p: Row -> bool, q: Row -> bool, rows: seq<Row>)
    ensures Select(p, Select(q, rows)) == Select(q, Select(p, rows))
  {
    if rows != [] {
      var n := |rows| - 1;
      SelectCommute(p, q, rows[..n]);
      SelectConcat(p, Select(q, rows[..n]), if q(rows[n]) then [rows[n]] else []);
      SelectConcat(q, Select(p, rows[..n]), if p(rows[n]) then [rows[n]] else []);
    }
  }

  lemma SelectMember(p: Row -> bool, rows: seq<Row>)
    ensures forall r :: r in Select(p, rows) <==> r in rows && p(r)
  {
    if rows != [] {
      SelectMember(p, rows[..|rows| - 1]);
      assert rows == rows[..|rows| - 1] + [rows[|rows| - 1]];
    }
  }

  lemma SelectIncreasing(p: Row -> bool, rows: seq<Row>)
    requires Increasing(rows)
    ensures Increasing(Select(p, rows))
  {
    if rows != [] {
      var n := |rows| - 1;
      SelectIncreasing(p, rows[..n]);
      SelectMember(p, rows[..n]);
      forall i | 0 <= i < |Select(p, rows[..n])| ensures Select(p, rows[..n])[i].id < rows[n].id {
        assert Select(p, rows[..n])[i] in rows[..n];
      }
    }
  }
}
