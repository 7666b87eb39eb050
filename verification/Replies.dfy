/**
Request/reply correlation: the pending-request key, the receipt key and the reply stream.
Times are Redis milliseconds; a key with expiry `e` can be read while the clock is at
most `e`.  `requests` and `enqueued` record everything that ever happened.
 */
module Replies {
  import opened Options

  datatype Origin = Origin(agent: string, instance: string, target: string, deadline: nat)

  datatype Receipt = Receipt(sender: string, fingerprint: string, messageId: string)

  datatype Timed<T> = Timed(value: T, expires: nat)

  /** A reply envelope appended to the stream of one agent instance. */
  datatype Reply = Reply(correlation: string, agent: string, instance: string, receipt: Receipt)

  datatype World = World(
    now: nat,
    pending: map<string, Timed<Origin>>,
    receipts: map<string, Timed<Receipt>>,
    requests: map<string, Origin>,
    enqueued: seq<Reply>)

  function Get<T>(keys: map<string, Timed<T>>, key: string, now: nat): Option<T> {
    if key in keys && now <= keys[key].expires then Some(keys[key].value) else None
  }

  datatype Step =
    | Tick(elapsed: nat)
    | Request(correlation: string, origin: Origin, timeout: nat)
    | Forget(correlation: string)
    | Commit(correlation: string, expected: Origin, receipt: Receipt)
    | Replay(correlation: string, sender: string, fingerprint: string)

  /** Answer from a stored receipt: the original message identity, or a refusal. */
  function FromReceipt(stored: Receipt, sender: string, fingerprint: string): Option<string> {
    if stored.sender == sender && stored.fingerprint == fingerprint then Some(stored.messageId) else None
  }

  function Remaining(w: World, correlation: string, expected: Origin): int
    requires correlation in w.pending
  {
    var ttl, deadline := w.pending[correlation].expires - w.now, expected.deadline - w.now;
    if ttl < deadline then ttl else deadline
  }

  /** `_COMMIT_REPLY_SCRIPT`. */
  function CommitScript(w: World, correlation: string, expected: Origin, receipt: Receipt): (World, Option<string>) {
    var completed := Get(w.receipts, correlation, w.now);
    if completed.Some? then (w, FromReceipt(completed.value, receipt.sender, receipt.fingerprint))
    else if Get(w.pending, correlation, w.now) != Some(expected) then (w, None)
    else if Remaining(w, correlation, expected) <= 0 then (w, None)
    else
      (w.(enqueued := w.enqueued + [Reply(correlation, expected.agent, expected.instance, receipt)],
          receipts := w.receipts[correlation := Timed(receipt, w.now + Remaining(w, correlation, expected))],
          pending := w.pending - {correlation}),
       Some(receipt.messageId))
  }

  /** `_REPLAY_REPLY_SCRIPT`. */
  function ReplayScript(w: World, correlation: string, sender: string, fingerprint: string): Option<string> {
    var completed := Get(w.receipts, correlation, w.now);
    if completed.Some? then FromReceipt(completed.value, sender, fingerprint) else None
  }

  /** A request computes its deadline before it stores the key; correlation identities are
      never used twice.  A reply is committed only by the request's target. */
  function Next(w: World, step: Step): World {
    match step
    case Tick(elapsed) => w.(now := w.now + elapsed)
    case Request(correlation, origin, timeout) =>
      if correlation in w.requests || origin.deadline > w.now + timeout then w
      else w.(pending := w.pending[correlation := Timed(origin, w.now + timeout)],
              requests := w.requests[correlation := origin])
    case Forget(correlation) => w.(pending := w.pending - {correlation})
    case Commit(correlation, expected, receipt) =>
      if receipt.sender != expected.target then w else CommitScript(w, correlation, expected, receipt).0
    case Replay(correlation, sender, fingerprint) => w
  }

  function Run(w: World, steps: seq<Step>): World {
    if steps == [] then w else Next(Run(w, steps[..|steps| - 1]), steps[|steps| - 1])
  }

  const EMPTY := World(0, map[], map[], map[], [])

  /** The reply goes from the asked agent to the instance that asked. */
  predicate Answers(requests: map<string, Origin>, r: Reply) {
    && r.correlation in requests
    && r.agent == requests[r.correlation].agent && r.instance == requests[r.correlation].instance
    && r.receipt.sender == requests[r.correlation].target
  }

  /** The receipt belongs to a reply that was enqueued. */
  ghost predicate Receipted(enqueued: seq<Reply>, c: string, receipt: Receipt) {
    exists i :: 0 <= i < |enqueued| && enqueued[i].correlation == c && enqueued[i].receipt == receipt
  }

  ghost predicate Inv(w: World) {
    && (forall c :: c in w.pending ==> c in w.requests && w.pending[c].value == w.requests[c])
    && (forall i :: 0 <= i < |w.enqueued| ==>
          Answers(w.requests, w.enqueued[i]) && w.enqueued[i].correlation !in w.pending)
    && (forall i, j :: 0 <= i < j < |w.enqueued| ==> w.enqueued[i].correlation != w.enqueued[j].correlation)
    && (forall c :: c in w.receipts ==>
          && c in w.requests && w.receipts[c].expires <= w.requests[c].deadline
          && Receipted(w.enqueued, c, w.receipts[c].value))
  }

  lemma ReceiptedLater(enqueued: seq<Reply>, more: Reply, c: string, receipt: Receipt)
    requires Receipted(enqueued, c, receipt)
    ensures Receipted(enqueued + [more], c, receipt)
  {
    var i :| 0 <= i < |enqueued| && enqueued[i].correlation == c && enqueued[i].receipt == receipt;
    assert (enqueued + [more])[i] == enqueued[i];
  }

  lemma CommitKeeps(w: World, correlation: string, expected: Origin, receipt: Receipt)
    requires Inv(w) && receipt.sender == expected.target
    ensures Inv(CommitScript(w, correlation, expected, receipt).0)
  {
    var after := CommitScript(w, correlation, expected, receipt).0;
    if after != w {
      var n := |w.enqueued|;
      forall c | c in after.receipts ensures Receipted(after.enqueued, c, after.receipts[c].value) {
        if c == correlation {
          assert after.enqueued[n].correlation == c;
        } else {
          ReceiptedLater(w.enqueued, after.enqueued[n], c, w.receipts[c].value);
        }
      }
    }
  }

  lemma NextKeeps(w: World, step: Step)
    requires Inv(w)
    ensures Inv(Next(w, step))
  {
    if step.Commit? && step.receipt.sender == step.expected.target {
      CommitKeeps(w, step.correlation, step.expected, step.receipt);
    }
  }

  /**
  Over every run: at most one reply per correlation, from the asked agent to the asking
  instance, and a receipt that can still be read has not outlived its request's deadline.
   */
  lemma {:induction false} AtMostOneReply(steps: seq<Step>)
    ensures var w := Run(EMPTY, steps);
      && Inv(w)
      && (forall i, j :: 0 <= i < |w.enqueued| && 0 <= j < |w.enqueued| && i != j ==>
            w.enqueued[i].correlation != w.enqueued[j].correlation)
      && (forall i :: 0 <= i < |w.enqueued| ==> Answers(w.requests, w.enqueued[i]))
      && (forall c :: Get(w.receipts, c, w.now).Some? ==> c in w.requests && w.now <= w.requests[c].deadline)
  {
    if steps != [] {
      AtMostOneReply(steps[..|steps| - 1]);
      NextKeeps(Run(EMPTY, steps[..|steps| - 1]), steps[|steps| - 1]);
    }
  }

  /** While its receipt lives, repeating a reply returns the identity of the one reply that
      was enqueued, by either script; any other reply is refused.  Nothing changes. */
  lemma RetryIsIdempotent(w: World, k: nat, expected: Origin, retry: Receipt)
    requires Inv(w) && k < |w.enqueued| && Get(w.receipts, w.enqueued[k].correlation, w.now).Some?
    ensures var original := w.enqueued[k];
      var same := retry.sender == original.receipt.sender && retry.fingerprint == original.receipt.fingerprint;
      var answer := if same then Some(original.receipt.messageId) else None;
      && CommitScript(w, original.correlation, expected, retry) == (w, answer)
      && ReplayScript(w, original.correlation, retry.sender, retry.fingerprint) == answer
  {
    var c := w.enqueued[k].correlation;
    var i :| 0 <= i < |w.enqueued| && w.enqueued[i].correlation == c && w.enqueued[i].receipt == w.receipts[c].value;
    assert i == k;
  }

  /** Once answered, a correlation accepts no further reply, even after its receipt expired. */
  lemma AnsweredStaysAnswered(w: World, k: nat, expected: Origin, receipt: Receipt)
    requires Inv(w) && k < |w.enqueued|
    ensures CommitScript(w, w.enqueued[k].correlation, expected, receipt).0 == w
  {
    assert Answers(w.requests, w.enqueued[k]);
  }

  // ----- when a reply is accepted -----

  /** When the receipt of an accepted reply expires. */
  function ReceiptEnd(w: World, correlation: string, expected: Origin): nat
    requires correlation in w.pending
  {
    if w.pending[correlation].expires < expected.deadline then w.pending[correlation].expires else expected.deadline
  }

  /**
  Where no receipt can be read, a reply is accepted if and only if its request is pending as
  the caller read it and both its key and its deadline lie ahead.  The answer is then the
  identity of the reply, which is put on the stream of the asking instance, the request is no
  longer pending, and the receipt can be read exactly until the earlier of the two ends.
  Otherwise nothing changes.
   */
  lemma AcceptedIff(w: World, correlation: string, expected: Origin, receipt: Receipt)
    requires Get(w.receipts, correlation, w.now).None?
    ensures var (after, answer) := CommitScript(w, correlation, expected, receipt);
      && (answer.Some? <==>
            Get(w.pending, correlation, w.now) == Some(expected)
            && w.now < w.pending[correlation].expires && w.now < expected.deadline)
      && (answer.None? ==> after == w)
      && (answer.Some? ==> answer.value == receipt.messageId && Accepted(w, after, correlation, expected, receipt))
  {
  }

  ghost predicate Accepted(w: World, after: World, correlation: string, expected: Origin, receipt: Receipt) {
    && correlation in w.pending && after.now == w.now && after.requests == w.requests
    && after.enqueued == w.enqueued + [Reply(correlation, expected.agent, expected.instance, receipt)]
    && after.pending == w.pending - {correlation}
    && (forall t: nat :: Get(after.receipts, correlation, t)
          == if t <= ReceiptEnd(w, correlation, expected) then Some(receipt) else None)
    && (forall c, t: nat :: c != correlation ==> Get(after.receipts, c, t) == Get(w.receipts, c, t))
  }

  /** As long as a receipt can be read, no step replaces it. */
  lemma {:induction false} ReceiptStays(w: World, steps: seq<Step>, c: string)
    requires c in w.receipts && Run(w, steps).now <= w.receipts[c].expires
    ensures w.now <= Run(w, steps).now
    ensures c in Run(w, steps).receipts && Run(w, steps).receipts[c] == w.receipts[c]
  {
    if steps != [] {
      var n := |steps| - 1;
      var mid := Run(w, steps[..n]);
      assert mid.now <= Next(mid, steps[n]).now;
      ReceiptStays(w, steps[..n], c);
    }
  }

  /** From its acceptance until its receipt ends, whatever happens meanwhile, a reply that is
      repeated gets its identity from either script, and any other reply is refused. */
  lemma RetryGetsIdentity(w: World, correlation: string, expected: Origin, receipt: Receipt, steps: seq<Step>,
                          again: Origin, retry: Receipt)
    requires Get(w.receipts, correlation, w.now).None?
    requires CommitScript(w, correlation, expected, receipt).1.Some?
    requires var later := Run(CommitScript(w, correlation, expected, receipt).0, steps);
      correlation in w.pending && later.now <= ReceiptEnd(w, correlation, expected)
    ensures var later := Run(CommitScript(w, correlation, expected, receipt).0, steps);
      var same := retry.sender == receipt.sender && retry.fingerprint == receipt.fingerprint;
      var answer := if same then Some(receipt.messageId) else None;
      && CommitScript(later, correlation, again, retry) == (later, answer)
      && ReplayScript(later, correlation, retry.sender, retry.fingerprint) == answer
  {
    AcceptedIff(w, correlation, expected, receipt);
    var after := CommitScript(w, correlation, expected, receipt).0;
    assert Get(after.receipts, correlation, ReceiptEnd(w, correlation, expected)) == Some(receipt);
    ReceiptStays(after, steps, correlation);
  }

  predicate Touches(step: Step, c: string) {
    (step.Forget? && step.correlation == c) || (step.Commit? && step.correlation == c)
  }

  lemma {:induction false} PendingStays(w: World, steps: seq<Step>, c: string)
    requires c in w.pending && c in w.requests && c !in w.receipts
    requires forall i :: 0 <= i < |steps| ==> !Touches(steps[i], c)
    ensures var later := Run(w, steps);
      && c in later.pending && later.pending[c] == w.pending[c] && c in later.requests && c !in later.receipts
  {
    if steps != [] {
      var n := |steps| - 1;
      PendingStays(w, steps[..n], c);
      assert !Touches(steps[n], c);
    }
  }

  /** A new request can be answered by its target until its timeout and its deadline, as long
      as it is neither withdrawn nor answered. */
  lemma RequestIsAnswerable(w: World, c: string, origin: Origin, timeout: nat, steps: seq<Step>, receipt: Receipt)
    requires Inv(w) && c !in w.requests && origin.deadline <= w.now + timeout
    requires forall i :: 0 <= i < |steps| ==> !Touches(steps[i], c)
    requires Run(Next(w, Request(c, origin, timeout)), steps).now < origin.deadline
    ensures var later := Run(Next(w, Request(c, origin, timeout)), steps);
      CommitScript(later, c, origin, receipt).1 == Some(receipt.messageId)
  {
    PendingStays(Next(w, Request(c, origin, timeout)), steps, c);
    AcceptedIff(Run(Next(w, Request(c, origin, timeout)), steps), c, origin, receipt);
  }

  class ReplyKeys {
    var now: nat
    var pending: map<string, Timed<Origin>>
    var receipts: map<string, Timed<Receipt>>
    var stream: seq<Reply>
    ghost var requests: map<string, Origin>

    ghost function View(): World reads this { World(now, pending, receipts, requests, stream) }

    method CommitReply(correlation: string, expected: Origin, receipt: Receipt) returns (result: Option<string>)
      modifies this
      ensures (View(), result) == CommitScript(old(View()), correlation, expected, receipt)
    {
      var completed := Get(receipts, correlation, now);
      if completed.Some? {
        return FromReceipt(completed.value, receipt.sender, receipt.fingerprint);
      }
      if Get(pending, correlation, now) != Some(expected) { return None; }
      var remaining := pending[correlation].expires - now;
      if expected.deadline - now < remaining { remaining := expected.deadline - now; }
      if remaining <= 0 { return None; }
      stream := stream + [Reply(correlation, expected.agent, expected.instance, receipt)];
      receipts := receipts[correlation := Timed(receipt, now + remaining)];
      pending := pending - {correlation};
      result := Some(receipt.messageId);
    }
  }
}
