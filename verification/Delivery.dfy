/**
At-least-once delivery of one agent stream: the consumer group, its pending entries, the
lease keys that fence its consumers, the dead-letter queue, and every script that touches
them.  A claim is what a session holds while a delivery is in flight; claims are never
taken back, so a session may finish a claim late, twice, or after it lost its lease.
The last four components of `World` only record what happened.
 */
module Delivery {
  datatype Envelope = Blank | Message(id: string)

  datatype Entry = Entry(envelope: Envelope, attempt: int)

  datatype Consumer = Consumer(instance: string, owner: string)

  datatype Claim = Claim(id: nat, entry: Entry, consumer: Consumer)

  datatype Outcome = Acknowledged | Requeued | DeadLettered

  datatype Finish = Finish(id: nat, outcome: Outcome, consumer: Consumer, owner: string)

  datatype World = World(
    entries: map<nat, Entry>,
    lastId: nat,
    delivered: nat,
    pending: map<nat, Consumer>,
    owners: map<string, string>,
    dlq: seq<Envelope>,
    claims: set<Claim>,
    routed: set<string>,
    acked: set<string>,
    dead: set<string>,
    finished: seq<Finish>)

  const EMPTY := World(map[], 0, 0, map[], map[], [], {}, {}, {}, {}, [])

  datatype Step =
    | Route(message: string)
    | Inject(attempt: int)
    | Acquire(instance: string, owner: string)
    | Expire(instance: string)
    | Read(consumer: Consumer, upTo: nat)
    | Reclaim(consumer: Consumer, ids: set<nat>)
    | Ack(claim: Claim, owner: string)
    | Nack(claim: Claim, owner: string, retryable: bool, dlqEnabled: bool)

  predicate Owns(w: World, instance: string, owner: string) {
    instance in w.owners && w.owners[instance] == owner
  }

  /** The test every finishing script makes: current lease owner and pending consumer. */
  predicate MayFinish(w: World, claim: Claim, owner: string) {
    && Owns(w, claim.consumer.instance, owner)
    && claim.id in w.pending && w.pending[claim.id] == claim.consumer
  }

  function Add(w: World, entry: Entry): World {
    w.(entries := w.entries[w.lastId + 1 := entry], lastId := w.lastId + 1)
  }

  /** `XACK` and `XDEL` of one entry, with the record that it was finished. */
  function Remove(w: World, claim: Claim, owner: string, outcome: Outcome): World {
    w.(entries := w.entries - {claim.id}, pending := w.pending - {claim.id},
       finished := w.finished + [Finish(claim.id, outcome, claim.consumer, owner)])
  }

  function Due(w: World, upTo: nat): set<nat> {
    set id | id in w.entries && w.delivered < id <= upTo
  }

  /** Hand the entries `ids` to `consumer`. */
  function Assign(w: World, ids: set<nat>, consumer: Consumer): World {
    w.(pending := map id | id in w.pending.Keys + ids :: if id in ids then consumer else w.pending[id],
       claims := w.claims + set id | id in ids && id in w.entries :: Claim(id, w.entries[id], consumer))
  }

  function ReadScript(w: World, consumer: Consumer, upTo: nat): World {
    if !Owns(w, consumer.instance, consumer.owner) || upTo !in w.entries || upTo <= w.delivered then w
    else Assign(w, Due(w, upTo), consumer).(delivered := upTo)
  }

  function ClaimScript(w: World, consumer: Consumer, ids: set<nat>): World {
    if !Owns(w, consumer.instance, consumer.owner) || !(ids <= w.pending.Keys) then w
    else Assign(w, ids, consumer)
  }

  function Ids(envelope: Envelope): set<string> {
    if envelope.Message? then {envelope.id} else {}
  }

  function AckScript(w: World, claim: Claim, owner: string): World {
    if !MayFinish(w, claim, owner) then w
    else Remove(w, claim, owner, Acknowledged).(acked := w.acked + Ids(claim.entry.envelope))
  }

  function RequeueScript(w: World, claim: Claim, owner: string): World {
    if !MayFinish(w, claim, owner) then w
    else Remove(Add(w, claim.entry.(attempt := claim.entry.attempt + 1)), claim, owner, Requeued)
  }

  function CommitDeliveryScript(w: World, claim: Claim, owner: string, dlqEnabled: bool): World {
    if !MayFinish(w, claim, owner) then w
    else
      Remove(w, claim, owner, DeadLettered)
      .(dlq := if dlqEnabled then w.dlq + [claim.entry.envelope] else w.dlq,
        dead := w.dead + Ids(claim.entry.envelope))
  }

  /** `handle_nack`, and the refusal of an entry whose attempt is out of range. */
  function NackScript(w: World, claim: Claim, owner: string, retryable: bool, dlqEnabled: bool,
                      maxAttempts: nat): World
  {
    if retryable && 1 <= claim.entry.attempt < maxAttempts
    then RequeueScript(w, claim, owner)
    else CommitDeliveryScript(w, claim, owner, dlqEnabled)
  }

  function Next(w: World, step: Step, maxAttempts: nat): World {
    match step
    case Route(message) =>
      if message in w.routed then w
      else Add(w, Entry(Message(message), 1)).(routed := w.routed + {message})
    case Inject(attempt) => Add(w, Entry(Blank, attempt))
    case Acquire(instance, owner) => if instance in w.owners then w else w.(owners := w.owners[instance := owner])
    case Expire(instance) => w.(owners := w.owners - {instance})
    case Read(consumer, upTo) => ReadScript(w, consumer, upTo)
    case Reclaim(consumer, ids) => ClaimScript(w, consumer, ids)
    case Ack(claim, owner) => if claim !in w.claims then w else AckScript(w, claim, owner)
    case Nack(claim, owner, retryable, dlqEnabled) =>
      if claim !in w.claims || claim.entry.envelope.Blank? then w
      else NackScript(w, claim, owner, retryable, dlqEnabled, maxAttempts)
  }

  function Run(w: World, steps: seq<Step>, maxAttempts: nat): World {
    if steps == [] then w
    else Next(Run(w, steps[..|steps| - 1], maxAttempts), steps[|steps| - 1], maxAttempts)
  }

  /** Every entry is either not yet delivered or pending; claims agree with their entries. */
  ghost predicate Tracked(w: World) {
    && w.delivered <= w.lastId
    && (forall id :: id in w.entries ==> id <= w.lastId && (id > w.delivered || id in w.pending))
    && (forall id :: id in w.pending ==> id in w.entries && id <= w.delivered)
    && (forall c :: c in w.claims ==> c.id <= w.delivered && (c.id in w.entries ==> w.entries[c.id] == c.entry))
    && (forall i :: 0 <= i < |w.finished| ==> w.finished[i].id <= w.lastId && w.finished[i].id !in w.entries)
    && (forall i, j :: 0 <= i < j < |w.finished| ==> w.finished[i].id != w.finished[j].id)
  }

  predicate Copy(entries: map<nat, Entry>, id: nat, message: string) {
    id in entries && entries[id].envelope == Message(message)
  }

  /** The messages are divided into live, acknowledged and dead ones. */
  ghost predicate Accounted(entries: map<nat, Entry>, routed: set<string>, acked: set<string>, dead: set<string>,
                            maxAttempts: nat)
  {
    && (forall id :: id in entries && entries[id].envelope.Message? ==>
          && entries[id].envelope.id in routed && entries[id].envelope.id !in acked + dead
          && 1 <= entries[id].attempt <= maxAttempts)
    && (forall a, b, m :: Copy(entries, a, m) && Copy(entries, b, m) ==> a == b)
    && acked !! dead && acked + dead <= routed
    && (forall m :: m in routed && m !in acked + dead ==> exists id :: Copy(entries, id, m))
  }

  ghost predicate Inv(w: World, maxAttempts: nat) {
    Tracked(w) && Accounted(w.entries, w.routed, w.acked, w.dead, maxAttempts)
  }

  lemma AddTracked(w: World, entry: Entry)
    requires Tracked(w)
    ensures Tracked(Add(w, entry))
  {
  }

  lemma AssignTracked(w: World, ids: set<nat>, consumer: Consumer, upTo: nat)
    requires Tracked(w) && w.delivered <= upTo <= w.lastId
    requires Due(w, upTo) <= ids <= w.entries.Keys && forall id :: id in ids ==> id <= upTo
    ensures Tracked(Assign(w, ids, consumer).(delivered := upTo))
  {
    forall id | id in w.entries ensures id > upTo || id in w.pending.Keys + ids {
      if w.delivered < id <= upTo { assert id in Due(w, upTo); }
    }
  }

  lemma RemoveTracked(w: World, claim: Claim, owner: string, outcome: Outcome)
    requires Tracked(w) && claim in w.claims && claim.id in w.pending
    ensures Tracked(Remove(w, claim, owner, outcome))
  {
  }

  /** Adding an entry for a message without a live copy makes it live. */
  lemma AddAccounted(entries: map<nat, Entry>, id: nat, entry: Entry, routed: set<string>, acked: set<string>,
                     dead: set<string>, maxAttempts: nat)
    requires Accounted(entries, routed, acked, dead, maxAttempts) && id !in entries
    requires entry.envelope.Message? ==>
      && entry.envelope.id !in routed && 1 <= entry.attempt <= maxAttempts
    ensures Accounted(entries[id := entry], routed + Ids(entry.envelope), acked, dead, maxAttempts)
  {
    var after := entries[id := entry];
    forall a, b, m | Copy(after, a, m) && Copy(after, b, m) ensures a == b {
      if a != id { assert Copy(entries, a, m) && entries[a].envelope.id in routed; }
      if b != id { assert Copy(entries, b, m) && entries[b].envelope.id in routed; }
    }
    forall m | m in routed + Ids(entry.envelope) && m !in acked + dead ensures exists k :: Copy(after, k, m) {
      if m in routed {
        var k: nat :| Copy(entries, k, m);
        assert Copy(after, k, m);
      } else {
        assert Copy(after, id, m);
      }
    }
  }

  /** Removing an entry while settling its message leaves the others accounted for. */
  lemma SettleAccounted(entries: map<nat, Entry>, id: nat, routed: set<string>, acked: set<string>, dead: set<string>,
                        acked': set<string>, dead': set<string>, maxAttempts: nat)
    requires Accounted(entries, routed, acked, dead, maxAttempts) && id in entries
    requires acked' + dead' == acked + dead + Ids(entries[id].envelope) && acked' !! dead'
    ensures Accounted(entries - {id}, routed, acked', dead', maxAttempts)
  {
    forall a, b, m | Copy(entries - {id}, a, m) && Copy(entries - {id}, b, m) ensures a == b {
      assert Copy(entries, a, m) && Copy(entries, b, m);
    }
    forall k | k in entries - {id} && entries[k].envelope.Message? ensures entries[k].envelope.id !in acked' + dead' {
      if entries[k].envelope == entries[id].envelope {
        assert Copy(entries, k, entries[k].envelope.id) && Copy(entries, id, entries[k].envelope.id);
      }
    }
    forall m | m in routed && m !in acked' + dead' ensures exists k :: Copy(entries - {id}, k, m) {
      var k: nat :| Copy(entries, k, m);
      assert Copy(entries - {id}, k, m);
    }
  }

  /** Replacing an entry by its next attempt keeps its message live. */
  lemma RequeueAccounted(entries: map<nat, Entry>, id: nat, newId: nat, routed: set<string>, acked: set<string>,
                         dead: set<string>, maxAttempts: nat)
    requires Accounted(entries, routed, acked, dead, maxAttempts) && id in entries && newId !in entries
    requires 1 <= entries[id].attempt < maxAttempts
    ensures Accounted(entries[newId := entries[id].(attempt := entries[id].attempt + 1)] - {id},
                      routed, acked, dead, maxAttempts)
  {
    var after := entries[newId := entries[id].(attempt := entries[id].attempt + 1)] - {id};
    forall a, b, m | Copy(after, a, m) && Copy(after, b, m) ensures a == b {
      assert Copy(entries, if a == newId then id else a, m) && Copy(entries, if b == newId then id else b, m);
    }
    forall m | m in routed && m !in acked + dead ensures exists k :: Copy(after, k, m) {
      var k: nat :| Copy(entries, k, m);
      assert Copy(after, if k == id then newId else k, m);
    }
  }

  lemma RequeueTracked(w: World, claim: Claim, owner: string)
    requires Tracked(w) && claim in w.claims && MayFinish(w, claim, owner)
    ensures Tracked(RequeueScript(w, claim, owner))
  {
    var next := claim.entry.(attempt := claim.entry.attempt + 1);
    AddTracked(w, next);
    RemoveTracked(Add(w, next), claim, owner, Requeued);
  }

  lemma RequeueKeeps(w: World, claim: Claim, owner: string, maxAttempts: nat)
    requires Inv(w, maxAttempts) && claim in w.claims && MayFinish(w, claim, owner)
    requires 1 <= claim.entry.attempt < maxAttempts
    ensures Inv(RequeueScript(w, claim, owner), maxAttempts)
  {
    RequeueTracked(w, claim, owner);
    assert w.entries[claim.id] == claim.entry && w.lastId + 1 !in w.entries;
    RequeueAccounted(w.entries, claim.id, w.lastId + 1, w.routed, w.acked, w.dead, maxAttempts);
  }

  lemma SettleKeeps(w: World, claim: Claim, owner: string, outcome: Outcome, after: World, maxAttempts: nat)
    requires Inv(w, maxAttempts) && claim in w.claims && claim.id in w.pending
    requires after == Remove(w, claim, owner, outcome).(dlq := after.dlq, acked := after.acked, dead := after.dead)
    requires
      || (after.acked == w.acked + Ids(claim.entry.envelope) && after.dead == w.dead)
      || (after.acked == w.acked && after.dead == w.dead + Ids(claim.entry.envelope))
    ensures Inv(after, maxAttempts)
  {
    RemoveTracked(w, claim, owner, outcome);
    SettleAccounted(w.entries, claim.id, w.routed, w.acked, w.dead, after.acked, after.dead, maxAttempts);
  }

  lemma NackKeeps(w: World, claim: Claim, owner: string, retryable: bool, dlqEnabled: bool, maxAttempts: nat)
    requires Inv(w, maxAttempts) && claim in w.claims
    ensures Inv(NackScript(w, claim, owner, retryable, dlqEnabled, maxAttempts), maxAttempts)
  {
    var after := NackScript(w, claim, owner, retryable, dlqEnabled, maxAttempts);
    if MayFinish(w, claim, owner) {
      if retryable && 1 <= claim.entry.attempt < maxAttempts {
        RequeueKeeps(w, claim, owner, maxAttempts);
      } else {
        SettleKeeps(w, claim, owner, DeadLettered, after, maxAttempts);
      }
    }
  }

  lemma AddKeeps(w: World, entry: Entry, maxAttempts: nat)
    requires Inv(w, maxAttempts)
    requires entry.envelope.Message? ==> entry.envelope.id !in w.routed && 1 <= entry.attempt <= maxAttempts
    ensures Inv(Add(w, entry).(routed := w.routed + Ids(entry.envelope)), maxAttempts)
  {
    AddTracked(w, entry);
    AddAccounted(w.entries, w.lastId + 1, entry, w.routed, w.acked, w.dead, maxAttempts);
  }

  lemma NextKeeps(w: World, step: Step, maxAttempts: nat)
    requires Inv(w, maxAttempts) && 1 <= maxAttempts
    ensures Inv(Next(w, step, maxAttempts), maxAttempts)
  {
    var after := Next(w, step, maxAttempts);
    if after != w {
      match step
      case Route(message) =>
        AddKeeps(w, Entry(Message(message), 1), maxAttempts);
      case Inject(attempt) =>
        AddKeeps(w, Entry(Blank, attempt), maxAttempts);
        assert w.routed + {} == w.routed;
      case Acquire(instance, owner) =>
      case Expire(instance) =>
      case Read(consumer, upTo) => AssignTracked(w, Due(w, upTo), consumer, upTo);
      case Reclaim(consumer, ids) => AssignTracked(w, ids, consumer, w.delivered);
      case Ack(claim, owner) => SettleKeeps(w, claim, owner, Acknowledged, after, maxAttempts);
      case Nack(claim, owner, retryable, dlqEnabled) => NackKeeps(w, claim, owner, retryable, dlqEnabled, maxAttempts);
    }
  }

  ghost function Copies(w: World, message: string): set<nat> {
    set id | id in w.entries && Copy(w.entries, id, message)
  }

  /** Where a routed message can be. */
  ghost predicate Live(w: World, m: string, maxAttempts: nat) {
    exists id ::
      Copies(w, m) == {id} && 1 <= w.entries[id].attempt <= maxAttempts && (id > w.delivered || id in w.pending)
  }

  lemma MessageIsSomewhere(w: World, m: string, maxAttempts: nat)
    requires Inv(w, maxAttempts) && m in w.routed
    ensures m !in w.acked + w.dead ==> Live(w, m, maxAttempts)
    ensures m in w.acked + w.dead ==> Copies(w, m) == {}
  {
    if m !in w.acked + w.dead {
      var id: nat :| Copy(w.entries, id, m);
      forall k | k in Copies(w, m) ensures k == id { assert Copy(w.entries, k, m); }
      assert Copies(w, m) == {id};
    }
  }

  /**
  Over every run, each routed message is in exactly one place: one live copy, which is
  undelivered or pending and within its attempts, or acknowledged, or dead-lettered.
  And no stream entry is finished twice.
   */
  lemma {:induction false} EveryMessageHasOneFate(steps: seq<Step>, maxAttempts: nat)
    requires 1 <= maxAttempts
    ensures var w := Run(EMPTY, steps, maxAttempts);
      && Inv(w, maxAttempts)
      && (forall m :: m in w.routed ==>
            || (Live(w, m, maxAttempts) && m !in w.acked && m !in w.dead)
            || (Copies(w, m) == {} && m in w.acked && m !in w.dead)
            || (Copies(w, m) == {} && m !in w.acked && m in w.dead))
      && (forall i, j :: 0 <= i < j < |w.finished| ==> w.finished[i].id != w.finished[j].id)
  {
    if steps != [] {
      EveryMessageHasOneFate(steps[..|steps| - 1], maxAttempts);
      NextKeeps(Run(EMPTY, steps[..|steps| - 1], maxAttempts), steps[|steps| - 1], maxAttempts);
    }
    var w := Run(EMPTY, steps, maxAttempts);
    forall m | m in w.routed
      ensures
        || (Live(w, m, maxAttempts) && m !in w.acked && m !in w.dead)
        || (Copies(w, m) == {} && m in w.acked && m !in w.dead)
        || (Copies(w, m) == {} && m !in w.acked && m in w.dead)
    {
      MessageIsSomewhere(w, m, maxAttempts);
    }
  }

  function Retried(entry: Entry): Entry { entry.(attempt := entry.attempt + 1) }

  /** How an acknowledgement or refusal ends an entry. */
  function Ending(step: Step, maxAttempts: nat): Outcome
    requires step.Ack? || step.Nack?
  {
    if step.Ack? then Acknowledged
    else if step.retryable && 1 <= step.claim.entry.attempt < maxAttempts then Requeued
    else DeadLettered
  }

  /** Only the pending consumer under the current lease finishes an entry, once: it leaves
      the stream, and comes back with the next attempt, goes to the dead-letter queue, or
      neither.  A step by anyone else leaves everything as it was. */
  lemma FinishIsFenced(w: World, step: Step, maxAttempts: nat)
    requires (step.Ack? || step.Nack?) && Tracked(w)
    ensures var after := Next(w, step, maxAttempts);
      var claim, ending := step.claim, Ending(step, maxAttempts);
      if MayFinish(w, claim, step.owner) && claim in w.claims && (step.Ack? || !claim.entry.envelope.Blank?) then
        && after.finished == w.finished + [Finish(claim.id, ending, claim.consumer, step.owner)]
        && after.pending == w.pending - {claim.id}
        && after.entries == (if ending == Requeued
                             then (w.entries - {claim.id})[w.lastId + 1 := Retried(claim.entry)]
                             else w.entries - {claim.id})
        && after.dlq == (if ending == DeadLettered && step.dlqEnabled then w.dlq + [claim.entry.envelope] else w.dlq)
        && after.acked == (if ending == Acknowledged then w.acked + Ids(claim.entry.envelope) else w.acked)
        && after.dead == (if ending == DeadLettered then w.dead + Ids(claim.entry.envelope) else w.dead)
      else after == w
  {
    var after := Next(w, step, maxAttempts);
    if Ending(step, maxAttempts) == Requeued && after != w {
      var next := Retried(step.claim.entry);
      assert w.entries[w.lastId + 1 := next] - {step.claim.id} == (w.entries - {step.claim.id})[w.lastId + 1 := next];
    }
  }

  // ----- every message can be delivered -----

  /** Routing a new message puts one copy of it, in its first attempt, behind all entries. */
  lemma RouteEnqueues(w: World, m: string, maxAttempts: nat)
    requires m !in w.routed && Tracked(w)
    ensures var after := Next(w, Route(m), maxAttempts);
      && after.routed == w.routed + {m} && after.lastId == w.lastId + 1 && after.delivered == w.delivered
      && (forall id :: id in after.entries <==> id in w.entries || id == after.lastId)
      && (forall id :: id in w.entries ==> after.entries[id] == w.entries[id])
      && after.entries[after.lastId] == Entry(Message(m), 1) && after.pending == w.pending
  {
  }

  /** `ids` pass to `consumer`, who may then finish them; everything else stays. */
  ghost predicate HandedOver(w: World, after: World, ids: set<nat>, consumer: Consumer) {
    && after.entries == w.entries && after.owners == w.owners && after.finished == w.finished
    && (forall id :: id in after.pending <==> id in w.pending || id in ids)
    && (forall id :: id in after.pending ==> after.pending[id] == if id in ids then consumer else w.pending[id])
    && (forall id :: id in ids ==> id in w.entries && Claim(id, w.entries[id], consumer) in after.claims)
    && w.claims <= after.claims
  }

  /** A read under the lease hands over exactly the undelivered entries up to its last one. */
  lemma ReadHandsOver(w: World, consumer: Consumer, upTo: nat)
    requires Tracked(w) && Owns(w, consumer.instance, consumer.owner) && upTo in w.entries && w.delivered < upTo
    ensures var after := ReadScript(w, consumer, upTo);
      after.delivered == upTo && HandedOver(w, after, Due(w, upTo), consumer)
  {
  }

  /** A claim under the lease hands over exactly the pending entries it names. */
  lemma ClaimHandsOver(w: World, consumer: Consumer, ids: set<nat>)
    requires Tracked(w) && Owns(w, consumer.instance, consumer.owner) && ids <= w.pending.Keys
    ensures var after := ClaimScript(w, consumer, ids);
      after.delivered == w.delivered && HandedOver(w, after, ids, consumer)
  {
  }

  /** The step by which a consumer gets the entry. */
  function Fetch(w: World, consumer: Consumer, id: nat): Step {
    if id > w.delivered then Read(consumer, id) else Reclaim(consumer, {id})
  }

  /**
  In every reachable state a routed message that is neither acknowledged nor dead can be
  acknowledged: whoever holds a lease gets its one copy by a read or a reclaim, and the
  acknowledgement settles it.
   */
  lemma LiveMessageCanBeSettled(w: World, m: string, consumer: Consumer, maxAttempts: nat) returns (id: nat)
    requires Inv(w, maxAttempts) && m in w.routed && m !in w.acked + w.dead
    requires Owns(w, consumer.instance, consumer.owner)
    ensures Copy(w.entries, id, m)
    ensures var fetched := Next(w, Fetch(w, consumer, id), maxAttempts);
      var claim := Claim(id, w.entries[id], consumer);
      var after := Next(fetched, Ack(claim, consumer.owner), maxAttempts);
      claim in fetched.claims && m in after.acked && Copies(after, m) == {}
  {
    id :| Copy(w.entries, id, m);
    var fetched, claim := Next(w, Fetch(w, consumer, id), maxAttempts), Claim(id, w.entries[id], consumer);
    if id > w.delivered { ReadHandsOver(w, consumer, id); } else { ClaimHandsOver(w, consumer, {id}); }
    assert MayFinish(fetched, claim, consumer.owner);
    var after := Next(fetched, Ack(claim, consumer.owner), maxAttempts);
    forall k | k in Copies(after, m) ensures false { assert Copy(w.entries, k, m); }
  }

  /** The dead-letter queue holds exactly the dead messages, once each. */
  ghost predicate DeadLetters(dlq: seq<Envelope>, dead: set<string>) {
    && (forall i :: 0 <= i < |dlq| ==> dlq[i].Message? && dlq[i].id in dead)
    && (forall i, j :: 0 <= i < j < |dlq| ==> dlq[i] != dlq[j])
    && (forall m :: m in dead ==> Message(m) in dlq)
  }

  lemma DeadLettersAppend(dlq: seq<Envelope>, dead: set<string>, m: string)
    requires DeadLetters(dlq, dead) && m !in dead
    ensures DeadLetters(dlq + [Message(m)], dead + {m})
  {
  }

  lemma NextDeadLetters(w: World, step: Step, maxAttempts: nat)
    requires Inv(w, maxAttempts) && DeadLetters(w.dlq, w.dead) && (step.Nack? ==> step.dlqEnabled)
    ensures DeadLetters(Next(w, step, maxAttempts).dlq, Next(w, step, maxAttempts).dead)
  {
    if step.Nack? && step.claim in w.claims && MayFinish(w, step.claim, step.owner)
       && step.claim.entry.envelope.Message? && Ending(step, maxAttempts) == DeadLettered {
      assert w.entries[step.claim.id] == step.claim.entry;
      DeadLettersAppend(w.dlq, w.dead, step.claim.entry.envelope.id);
    }
  }

  /** Over every run with the queue enabled, dead-lettered means in the queue, once. */
  lemma {:induction false} QueueHoldsTheDead(steps: seq<Step>, maxAttempts: nat)
    requires 1 <= maxAttempts && forall i :: 0 <= i < |steps| && steps[i].Nack? ==> steps[i].dlqEnabled
    ensures var w := Run(EMPTY, steps, maxAttempts); DeadLetters(w.dlq, w.dead)
  {
    if steps != [] {
      var n := |steps| - 1;
      QueueHoldsTheDead(steps[..n], maxAttempts);
      EveryMessageHasOneFate(steps[..n], maxAttempts);
      NextDeadLetters(Run(EMPTY, steps[..n], maxAttempts), steps[n], maxAttempts);
    }
  }

  /** A session finishes its claims under its own lease. */
  predicate OwnLease(step: Step) {
    step.Ack? || step.Nack? ==> step.owner == step.claim.consumer.owner
  }

  /** The entry was pending with this consumer, and its lease was the current one. */
  predicate Entitled(w: World, f: Finish) {
    && f.consumer.owner == f.owner && Owns(w, f.consumer.instance, f.consumer.owner)
    && f.id in w.pending && w.pending[f.id] == f.consumer
  }

  /**
  Over every run of sessions that use their own leases, whatever step finishes an entry does
  so for its pending consumer while that consumer's lease is current: a session that lost its
  lease, or whose entry was reclaimed, finishes nothing.
   */
  lemma OnlyOwnersFinish(steps: seq<Step>, n: nat, maxAttempts: nat)
    requires n < |steps| && forall i :: 0 <= i < |steps| ==> OwnLease(steps[i])
    ensures var w, after := Run(EMPTY, steps[..n], maxAttempts), Run(EMPTY, steps[..n + 1], maxAttempts);
      || after.finished == w.finished
      || (|after.finished| == |w.finished| + 1 && after.finished[..|w.finished|] == w.finished
          && Entitled(w, after.finished[|w.finished|]))
  {
    assert steps[..n + 1][..n] == steps[..n];
    OnlyOwnerFinishes(Run(EMPTY, steps[..n], maxAttempts), steps[n], maxAttempts);
  }

  lemma OnlyOwnerFinishes(w: World, step: Step, maxAttempts: nat)
    requires OwnLease(step)
    ensures var after := Next(w, step, maxAttempts);
      || after.finished == w.finished
      || (|after.finished| == |w.finished| + 1 && after.finished[..|w.finished|] == w.finished
          && Entitled(w, after.finished[|w.finished|]))
  {
  }
}
