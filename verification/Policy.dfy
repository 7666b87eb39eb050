/**
The ingress pipeline: checks decide about a message, its audit record is committed, and only
then, or in the same script, is its envelope put on an agent stream.  Any number of
messages are in the pipeline at once; their log batches, enqueues and the archiving of the
audit stream interleave.
 */
module Policy {
  import opened Options
  import opened AuditLog
  import opened AuditScripts
  import AuditRuns
  import opened AuditFeeds
  import AuditBatch

  datatype Action = Block | Redact | Alert

  /** What the data scan found. */
  datatype Scan = Clean | Found(action: Action, redacted: Option<string>)

  /** The answers of the checks; `None` for a check that is not configured. */
  datatype Checks = Checks(authorized: bool, rateAllowed: bool, circuitAllowed: Option<bool>, scan: Option<Scan>)

  /** The audit decision and the payload it is about. */
  function Decision(c: Checks): string {
    if !c.authorized then "AUTHZ_DENIED"
    else if !c.rateAllowed then "RATE_LIMITED"
    else if c.circuitAllowed == Some(false) then "CIRCUIT_OPEN"
    else if c.scan.None? || c.scan.value.Clean? then "ALLOWED"
    else match c.scan.value.action
      case Block => "DLP_BLOCKED"
      case Redact => "DLP_REDACTED"
      case Alert => "ALERT"
  }

  function Payload(c: Checks, data: string): string {
    if Decision(c) == "DLP_REDACTED" && c.scan.Some? && c.scan.value.Found? && c.scan.value.redacted.Some?
    then c.scan.value.redacted.value else data
  }

  /** A message in the pipeline.  `separate` holds for replies and for audit and routing
      stores that cannot commit together. */
  datatype Ingest = Ingest(id: string, sender: string, target: string, data: string, stream: string,
                           separate: bool, checks: Checks) {
    predicate Routable() { Decision(checks) in AuditRuns.ROUTABLE }

    /** What is audited and what is delivered: the same payload. */
    function Record(): Entry { Message(id, sender, target, Decision(checks), Payload(checks, data), None, 2) }

    function Effect(): Effect { AuditScripts.Effect(stream, Envelope(id, Payload(checks, data))) }

    function Submission(): Submission {
      AuditScripts.Submission(Record(), if Routable() && !separate then Some(Effect()) else None)
    }
  }

  /** The pipeline's branches: a message is routable exactly when every check lets it pass,
      the first refusal names the decision, and exactly a redaction replaces its payload. */
  lemma DecisionMeans(c: Checks, data: string)
    ensures Decision(c) in AuditRuns.ROUTABLE <==>
      c.authorized && c.rateAllowed && c.circuitAllowed != Some(false)
      && (c.scan.Some? && c.scan.value.Found? ==> c.scan.value.action != Block)
    ensures Decision(c) == "AUTHZ_DENIED" <==> !c.authorized
    ensures Decision(c) == "RATE_LIMITED" <==> c.authorized && !c.rateAllowed
    ensures Decision(c) == "CIRCUIT_OPEN" <==> c.authorized && c.rateAllowed && c.circuitAllowed == Some(false)
    ensures c.authorized && c.rateAllowed && c.circuitAllowed != Some(false) && c.scan.Some? && c.scan.value.Found? ==>
      && (Decision(c) == "DLP_BLOCKED" <==> c.scan.value.action == Block)
      && (Decision(c) == "ALERT" <==> c.scan.value.action == Alert)
      && (c.scan.value.action == Redact && c.scan.value.redacted.Some? ==>
            Payload(c, data) == c.scan.value.redacted.value)
    ensures Payload(c, data) != data ==>
      Decision(c) in AuditRuns.ROUTABLE && c.scan.Some? && c.scan.value.Found? && c.scan.value.action == Redact
  {
    assert "ALLOWED" in AuditRuns.ROUTABLE && "ALERT" in AuditRuns.ROUTABLE && "DLP_REDACTED" in AuditRuns.ROUTABLE;
    assert |"AUTHZ_DENIED"| == 12 && |"RATE_LIMITED"| == 12 && |"CIRCUIT_OPEN"| == 12 && |"DLP_BLOCKED"| == 11;
    assert |"ALLOWED"| == 7 && |"ALERT"| == 5 && |"DLP_REDACTED"| == 12;
    assert "DLP_REDACTED"[0] == 'D' && "AUTHZ_DENIED"[0] == 'A' && "RATE_LIMITED"[0] == 'R' && "CIRCUIT_OPEN"[0] == 'C';
  }

  /** The stores and the messages whose record is committed and whose envelope is not. */
  datatype Gateway = Gateway(store: Store, logged: set<Ingest>)

  datatype Step =
    | LogBatch(ingests: seq<Ingest>, expected: Option<Hash>, capacity: nat, clock: nat)
    | Enqueue(ingest: Ingest, clock: nat)
    | Maintain(step: AuditRuns.Step)

  function Submissions(ingests: seq<Ingest>): (r: seq<Submission>)
    ensures |r| == |ingests| && forall i :: 0 <= i < |r| ==> r[i] == ingests[i].Submission()
  {
    seq(|ingests|, i requires 0 <= i < |ingests| => ingests[i].Submission())
  }

  /** `route_message` after `log_message` returned; nothing else guards it. */
  function Next(log: Log, g: Gateway, step: Step): Gateway {
    match step
    case LogBatch(ingests, expected, capacity, clock) =>
      var after := AuditRuns.Next(log, g.store, AuditRuns.Append(expected, Submissions(ingests), capacity, clock));
      if after == g.store then g
      else Gateway(after, g.logged + set x | x in ingests && x.Routable() && x.separate)
    case Enqueue(ingest, clock) =>
      if ingest !in g.logged then g
      else Gateway(g.store.(feeds := Deliver(g.store.feeds, Some(ingest.Effect()), clock)), g.logged - {ingest})
    case Maintain(step) =>
      if step.PublishSegment? || step.Archive? then g.(store := AuditRuns.Next(log, g.store, step)) else g
  }

  const START := Gateway(EMPTY, {})

  function Run(log: Log, steps: seq<Step>): Gateway {
    if steps == [] then START else Next(log, Run(log, steps[..|steps| - 1]), steps[|steps| - 1])
  }

  /** The step as the audit stream sees it, if it does anything. */
  function Seen(g: Gateway, step: Step): seq<AuditRuns.Step> {
    match step
    case LogBatch(ingests, expected, capacity, clock) =>
      [AuditRuns.Append(expected, Submissions(ingests), capacity, clock)]
    case Enqueue(ingest, clock) => if ingest in g.logged then [AuditRuns.Route(ingest.Effect(), clock)] else []
    case Maintain(step) => if step.PublishSegment? || step.Archive? then [step] else []
  }

  function Trace(log: Log, steps: seq<Step>): seq<AuditRuns.Step> {
    if steps == [] then []
    else Trace(log, steps[..|steps| - 1]) + Seen(Run(log, steps[..|steps| - 1]), steps[|steps| - 1])
  }

  /** The row is the audit record of this message. */
  predicate Logs(row: Row, x: Ingest) {
    row.fields.Decoded? && row.fields.entry.Message? && row.fields.entry.(previous := None) == x.Record()
  }

  ghost predicate HasRecord(rows: seq<Row>, x: Ingest) {
    exists row :: row in rows && Logs(row, x)
  }

  ghost predicate Accounts(rows: seq<Row>, envelope: Envelope, x: Ingest) {
    x.Effect().envelope == envelope && x.Routable() && HasRecord(rows, x)
  }

  /** Some routable message has both this envelope and a record among the rows. */
  ghost predicate Explained(rows: seq<Row>, envelope: Envelope) {
    exists x :: Accounts(rows, envelope, x)
  }

  ghost predicate AllExplained(feeds: map<string, Feed>, rows: seq<Row>) {
    forall name, i :: name in feeds && 0 <= i < |feeds[name].items| ==> Explained(rows, feeds[name].items[i].envelope)
  }

  ghost predicate AllRecorded(logged: set<Ingest>, rows: seq<Row>) {
    forall x :: x in logged ==> x.Routable() && HasRecord(rows, x)
  }

  ghost predicate Inv(log: Log, g: Gateway) {
    && AuditRuns.Inv(log, g.store)
    && AllExplained(g.store.feeds, AuditRuns.History(log, g.store))
    && AllRecorded(g.logged, AuditRuns.History(log, g.store))
  }

  lemma ExplainedGrows(feeds: map<string, Feed>, rows: seq<Row>, more: seq<Row>)
    requires AllExplained(feeds, rows)
    ensures AllExplained(feeds, rows + more)
  {
    forall name, i | name in feeds && 0 <= i < |feeds[name].items|
      ensures Explained(rows + more, feeds[name].items[i].envelope)
    {
      var envelope := feeds[name].items[i].envelope;
      assert Explained(rows, envelope);
      var x :| Accounts(rows, envelope, x);
      RecordGrows(rows, more, x);
      assert Accounts(rows + more, envelope, x);
    }
  }

  lemma RecordGrows(rows: seq<Row>, more: seq<Row>, x: Ingest)
    requires HasRecord(rows, x)
    ensures HasRecord(rows + more, x)
  {
    var row :| row in rows && Logs(row, x);
    assert row in rows + more;
  }

  lemma DeliverExplained(feeds: map<string, Feed>, rows: seq<Row>, x: Ingest, clock: nat)
    requires AllExplained(feeds, rows) && x.Routable() && HasRecord(rows, x)
    ensures AllExplained(Deliver(feeds, Some(x.Effect()), clock), rows)
  {
    assert Accounts(rows, x.Effect().envelope, x);
  }

  /** What a batch attaches for a stream are the envelopes of its routable messages. */
  lemma {:induction false} AttachedFrom(ingests: seq<Ingest>, name: string, j: nat) returns (i: nat)
    requires j < |Attached(Submissions(ingests), name)|
    ensures i < |ingests| && ingests[i].Routable() && !ingests[i].separate && ingests[i].stream == name
    ensures Attached(Submissions(ingests), name)[j] == ingests[i].Effect().envelope
  {
    var n := |ingests| - 1;
    assert Submissions(ingests)[..n] == Submissions(ingests[..n]);
    if j < |Attached(Submissions(ingests[..n]), name)| {
      i := AttachedFrom(ingests[..n], name, j);
    } else {
      i := n;
    }
  }

  lemma JoinedExplained(feeds: map<string, Feed>, after: map<string, Feed>, rows: seq<Row>, ingests: seq<Ingest>,
                        clock: nat)
    requires AllExplained(feeds, rows) && forall i :: 0 <= i < |ingests| ==> HasRecord(rows, ingests[i])
    requires Joined(feeds, after, Submissions(ingests), clock)
    ensures AllExplained(after, rows)
  {
    forall name, i | name in after && 0 <= i < |after[name].items|
      ensures Explained(rows, after[name].items[i].envelope)
    {
      var was, attached := FeedOf(feeds, name), Attached(Submissions(ingests), name);
      assert Receives(was, after[name], attached, clock);
      if i < |was.items| {
        assert after[name].items[i] == was.items[i];
      } else {
        var j := i - |was.items|;
        assert Envelopes(after[name].items)[i] == attached[j];
        var k := AttachedFrom(ingests, name, j);
        assert Accounts(rows, after[name].items[i].envelope, ingests[k]);
      }
    }
  }

  lemma {:induction false} LinkOnlyLinks(log: Log, previous: Option<Hash>, batch: seq<Submission>, i: nat)
    requires i < |batch|
    ensures exists p :: Link(log, previous, batch)[i] == batch[i].(entry := batch[i].entry.(previous := p))
  {
    var n := |batch| - 1;
    if i < n {
      LinkOnlyLinks(log, previous, batch[..n], i);
    } else {
      var tip := LinkTip(log, previous, batch[..n]);
      assert Link(log, previous, batch)[i] == batch[n].(entry := batch[n].entry.(previous := tip));
    }
  }

  /** A committed batch adds a record for each of its messages and puts exactly the envelopes
      attached to them on their streams. */
  lemma BatchRecorded(log: Log, s: Store, ingests: seq<Ingest>, step: AuditRuns.Step, rows: seq<Row>)
    requires step.Append? && step.batch == Submissions(ingests) && AuditRuns.Next(log, s, step) != s
    requires rows == AuditRuns.Added(log, s, step)
    ensures forall i :: 0 <= i < |ingests| ==> HasRecord(rows, ingests[i])
    ensures Joined(s.feeds, AuditRuns.Next(log, s, step).feeds, Submissions(ingests), step.clock)
  {
    BatchJoins(log, s, step.expected, step.batch, step.clock);
    forall i | 0 <= i < |ingests| ensures HasRecord(rows, ingests[i]) {
      LinkOnlyLinks(log, step.expected, step.batch, i);
      assert rows[i] in rows && Logs(rows[i], ingests[i]);
    }
  }

  lemma RowsKeep(rows: seq<Row>, more: seq<Row>, logged: set<Ingest>, ingests: seq<Ingest>,
                 feeds: map<string, Feed>, after: map<string, Feed>, clock: nat)
    requires AllExplained(feeds, rows) && AllRecorded(logged, rows)
    requires Joined(feeds, after, Submissions(ingests), clock)
    requires forall i :: 0 <= i < |ingests| ==> HasRecord(more, ingests[i])
    ensures AllExplained(after, rows + more)
    ensures AllRecorded(logged + (set x | x in ingests && x.Routable() && x.separate), rows + more)
  {
    ExplainedGrows(feeds, rows, more);
    forall i | 0 <= i < |ingests| ensures HasRecord(rows + more, ingests[i]) {
      assert HasRecord(more, ingests[i]);
      var row :| row in more && Logs(row, ingests[i]);
      assert row in rows + more;
    }
    JoinedExplained(feeds, after, rows + more, ingests, clock);
    forall x | x in logged ensures HasRecord(rows + more, x) { RecordGrows(rows, more, x); }
  }

  lemma LogKeeps(log: Log, g: Gateway, ingests: seq<Ingest>, step: AuditRuns.Step, after: Store)
    requires Inv(log, g) && step.Append? && step.batch == Submissions(ingests)
    requires after == AuditRuns.Next(log, g.store, step) && after != g.store
    ensures Inv(log, Gateway(after, g.logged + set x | x in ingests && x.Routable() && x.separate))
  {
    AuditRuns.NextKeeps(log, g.store, step);
    var rows, more := AuditRuns.History(log, g.store), AuditRuns.Added(log, g.store, step);
    BatchRecorded(log, g.store, ingests, step, more);
    RowsKeep(rows, more, g.logged, ingests, g.store.feeds, after.feeds, step.clock);
  }

  lemma MaintainKeeps(log: Log, g: Gateway, step: AuditRuns.Step)
    requires Inv(log, g) && (step.PublishSegment? || step.Archive?)
    ensures Inv(log, g.(store := AuditRuns.Next(log, g.store, step)))
  {
    AuditRuns.NextKeeps(log, g.store, step);
    assert AuditRuns.Added(log, g.store, step) == [];
    assert AuditRuns.History(log, g.store) + [] == AuditRuns.History(log, g.store);
  }

  /** An unguarded enqueue is the audit stream's guarded routing step: its guard holds. */
  lemma EnqueueKeeps(log: Log, g: Gateway, x: Ingest, clock: nat)
    requires Inv(log, g) && x in g.logged
    ensures Inv(log, Next(log, g, Enqueue(x, clock)))
    ensures Next(log, g, Enqueue(x, clock)).store == AuditRuns.Next(log, g.store, AuditRuns.Route(x.Effect(), clock))
  {
    var rows := AuditRuns.History(log, g.store);
    var row :| row in rows && Logs(row, x);
    assert AuditRuns.Records(row, x.id);
    AuditRuns.NextKeeps(log, g.store, AuditRuns.Route(x.Effect(), clock));
    assert rows + [] == rows;
    DeliverExplained(g.store.feeds, rows, x, clock);
  }

  lemma {:induction false} RunKeeps(log: Log, steps: seq<Step>)
    ensures Inv(log, Run(log, steps))
    ensures Run(log, steps).store == AuditRuns.Run(log, EMPTY, Trace(log, steps))
  {
    if steps == [] {
      AuditRuns.EmptyInv(log);
    } else {
      var n := |steps| - 1;
      var g, step := Run(log, steps[..n]), steps[n];
      RunKeeps(log, steps[..n]);
      AuditBatch.RunConcat(log, EMPTY, Trace(log, steps[..n]), Seen(g, step));
      StepKeeps(log, g, step);
    }
  }

  lemma StepKeeps(log: Log, g: Gateway, step: Step)
    requires Inv(log, g)
    ensures Inv(log, Next(log, g, step))
    ensures Next(log, g, step).store == AuditRuns.Run(log, g.store, Seen(g, step))
  {
    var seen := Seen(g, step);
    assert |seen| == 1 ==> seen[..0] == [];
    match step
    case LogBatch(ingests, expected, capacity, clock) =>
      if Next(log, g, step) != g { LogKeeps(log, g, ingests, seen[0], Next(log, g, step).store); }
    case Enqueue(x, clock) => if x in g.logged { EnqueueKeeps(log, g, x, clock); }
    case Maintain(s) => if seen != [] { MaintainKeeps(log, g, s); }
  }

  /**
  In every run of the pipeline, each envelope on an agent stream belongs to a message whose
  audit record, with a routable decision and the very payload delivered, was committed no
  later; the audit stream sees one of its own runs, with no enqueue ahead of its record.
   */
  lemma EnqueuedIsAudited(log: Log, steps: seq<Step>, name: string, i: nat, envelope: Envelope, rows: seq<Row>)
    requires var feeds := Run(log, steps).store.feeds;
      name in feeds && i < |feeds[name].items| && envelope == feeds[name].items[i].envelope
    requires rows == AuditRuns.Logged(log, EMPTY, Trace(log, steps))
    ensures Explained(rows, envelope)
    ensures exists row :: row in rows && Audits(row, envelope)
  {
    RunKeeps(log, steps);
    AuditRuns.RunKeepsOneChain(log, Trace(log, steps));
    var x :| Accounts(rows, envelope, x);
    var row :| row in rows && Logs(row, x);
    OnePayload(x);
    assert Audits(row, envelope);
  }

  /** The row is the record of this envelope's message: let through, with the payload delivered. */
  predicate Audits(row: Row, envelope: Envelope) {
    && row.fields.Decoded? && row.fields.entry.Message?
    && row.fields.entry.messageId == envelope.messageId && row.fields.entry.body == envelope.text
    && row.fields.entry.decision in AuditRuns.ROUTABLE
  }

  /** The record tells who sent what to whom and how it was decided; what is delivered is the
      payload it tells of, to the stream of the target. */
  lemma OnePayload(x: Ingest)
    ensures var record, effect := x.Record(), x.Effect();
      && record.messageId == x.id == effect.envelope.messageId && record.sender == x.sender
      && record.target == x.target && record.decision == Decision(x.checks) && record.previous.None?
      && record.body == effect.envelope.text == Payload(x.checks, x.data) && effect.stream == x.stream
  {
  }

  /**
  And whatever was let through is delivered: a committed batch puts the envelopes of its
  routable messages on their streams or leaves them to be enqueued, and an enqueue puts the
  envelope at the end of its stream and forgets the message.
   */
  lemma LoggedIsRouted(log: Log, g: Gateway, ingests: seq<Ingest>, step: Step, x: Ingest)
    requires step.LogBatch? && step.ingests == ingests && Next(log, g, step) != g
    requires x in ingests && x.Routable()
    ensures x.separate ==> x in Next(log, g, step).logged
    ensures !x.separate ==>
      x.Effect().envelope in Attached(Submissions(ingests), x.stream)
      && Joined(g.store.feeds, Next(log, g, step).store.feeds, Submissions(ingests), step.clock)
  {
    var append := AuditRuns.Append(step.expected, Submissions(ingests), step.capacity, step.clock);
    BatchRecorded(log, g.store, ingests, append, AuditRuns.Added(log, g.store, append));
    var i :| 0 <= i < |ingests| && ingests[i] == x;
    if !x.separate { AttachedIn(ingests, i); }
  }

  lemma {:induction false} AttachedIn(ingests: seq<Ingest>, i: nat)
    requires i < |ingests| && ingests[i].Routable() && !ingests[i].separate
    ensures ingests[i].Effect().envelope in Attached(Submissions(ingests), ingests[i].stream)
  {
    var n := |ingests| - 1;
    assert Submissions(ingests)[..n] == Submissions(ingests[..n]);
    if i < n { AttachedIn(ingests[..n], i); }
  }

  lemma EnqueueDelivers(log: Log, g: Gateway, x: Ingest, clock: nat)
    requires x in g.logged
    ensures var h := Next(log, g, Enqueue(x, clock));
      && h.logged == g.logged - {x}
      && Receives(FeedOf(g.store.feeds, x.stream), FeedOf(h.store.feeds, x.stream), [x.Effect().envelope], clock)
      && forall name :: name != x.stream ==> FeedOf(h.store.feeds, name) == FeedOf(g.store.feeds, name)
  {
    var write := AuditScripts.Submission(x.Record(), Some(x.Effect()));
    DeliverJoins(g.store.feeds, write, clock);
    forall name ensures Attached([write], name) == if name == x.stream then [x.Effect().envelope] else [] {
      assert [write][..0] == [];
    }
  }

  /** A message is always fit for the log of messages, so no batch is refused for its content. */
  lemma AlwaysAdmissible(log: Log, x: Ingest)
    requires log.stream.Messages?
    ensures AuditRuns.Admissible(log, x.Submission())
  {
  }

  /** An incoming message; the pipeline may replace its payload. */
  class Incoming {
    var data: string

    /** `ingest_and_route` up to the audit record: checks in order, the first refusal decides. */
    method Judge(c: Checks) returns (decision: string, accepted: bool)
      modifies this
      ensures decision == Decision(c) && data == Payload(c, old(data))
      ensures accepted <==> decision in AuditRuns.ROUTABLE
    {
      DecisionMeans(c, data);
      accepted := false;
      decision := "ALLOWED";
      if !c.authorized { return "AUTHZ_DENIED", false; }
      if !c.rateAllowed { return "RATE_LIMITED", false; }
      if c.circuitAllowed.Some? && !c.circuitAllowed.value { return "CIRCUIT_OPEN", false; }
      if c.scan.Some? && c.scan.value.Found? {
        if c.scan.value.action == Block { return "DLP_BLOCKED", false; }
        if c.scan.value.action == Alert { decision := "ALERT"; }
        else if c.scan.value.action == Redact { decision := "DLP_REDACTED"; }
        if c.scan.value.action == Redact && c.scan.value.redacted.Some? { data := c.scan.value.redacted.value; }
      }
      accepted := true;
    }
  }
}
