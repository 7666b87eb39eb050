/** The delivery scripts run in place on the stream, its consumer group and the lease keys. */
module DeliveryKeys {
  import opened Delivery

  ghost predicate Sorted(ids: seq<nat>) {
    forall i, j :: 0 <= i < j < |ids| ==> ids[i] < ids[j]
  }

  function Elements(ids: seq<nat>): set<nat> { set id | id in ids }

  lemma ElementsNext(ids: seq<nat>, i: nat)
    requires i < |ids|
    ensures Elements(ids[..i + 1]) == Elements(ids[..i]) + {ids[i]} <= Elements(ids)
  {
    assert ids[..i + 1] == ids[..i] + [ids[i]];
  }

  lemma NothingAssigned(w: World, consumer: Consumer)
    ensures Assign(w, Elements([]), consumer) == w
  {
  }

  lemma AssignMore(w: World, ids: set<nat>, id: nat, consumer: Consumer)
    requires id in w.entries && ids <= w.entries.Keys
    ensures Assign(w, ids + {id}, consumer)
         == Assign(w, ids, consumer).(pending := Assign(w, ids, consumer).pending[id := consumer],
                                      claims := Assign(w, ids, consumer).claims + {Claim(id, w.entries[id], consumer)})
  {
  }

  lemma AssignNone(w: World, consumer: Consumer, delivered: nat)
    requires delivered <= w.delivered
    ensures Assign(w, Due(w, delivered), consumer) == w
  {
    assert Due(w, delivered) == {};
  }

  /** The next undelivered entry joins those already handed out. */
  lemma AssignNext(w: World, consumer: Consumer, delivered: nat, id: nat)
    requires id in w.entries && w.delivered <= delivered < id
    requires forall k :: k in w.entries && delivered < k ==> id <= k
    ensures Assign(w, Due(w, id), consumer)
         == Assign(w, Due(w, delivered), consumer).(
              pending := Assign(w, Due(w, delivered), consumer).pending[id := consumer],
              claims := Assign(w, Due(w, delivered), consumer).claims + {Claim(id, w.entries[id], consumer)})
  {
    assert Due(w, id) == Due(w, delivered) + {id};
    AssignMore(w, Due(w, delivered), id, consumer);
  }

  /** The pending entries in `[low, high)`. */
  function Between(pending: map<nat, Consumer>, low: nat, high: nat): set<nat> {
    set id | id in pending && low <= id < high
  }

  lemma BetweenNext(pending: map<nat, Consumer>, low: nat, id: nat)
    requires low <= id
    ensures Between(pending, low, id + 1) == Between(pending, low, id) + (if id in pending then {id} else {})
    ensures id !in Between(pending, low, id)
  {
  }

  /**
  What `XAUTOCLAIM start COUNT count` picks: up to `next`, or to the end when that is zero,
  every pending entry that is idle, and nothing else.  It stops early only with a full batch
  or after examining ten times `count` entries.
   */
  ghost predicate Picked(pending: map<nat, Consumer>, idle: set<nat>, start: nat, count: nat,
                         batch: seq<nat>, next: nat)
  {
    && |batch| <= count && Sorted(batch)
    && (forall id :: id in batch ==> id in idle && id in pending && start <= id && (next == 0 || id < next))
    && (forall id :: id in pending && id in idle && start <= id && (next == 0 || id < next) ==> id in batch)
    && (next != 0 ==> start < next)
    && (next != 0 && |batch| < count ==> |Between(pending, start, next)| == 10 * count)
  }

  lemma SortedAppend(ids: seq<nat>, id: nat)
    requires Sorted(ids) && forall k :: k in ids ==> k < id
    ensures Sorted(ids + [id])
  {
    assert forall i :: 0 <= i < |ids| ==> ids[i] in ids;
  }

  method PickIdle(pending: map<nat, Consumer>, idle: set<nat>, start: nat, count: nat, lastId: nat)
    returns (batch: seq<nat>, next: nat)
    requires count > 0 && forall id :: id in pending ==> id <= lastId
    ensures Picked(pending, idle, start, count, batch, next) && next <= lastId
  {
    batch, next := [], 0;
    assert Between(pending, start, start) == {};
    var id, examined := start, 0;
    while id <= lastId
      invariant |batch| <= examined <= 10 * count && |batch| <= count && Sorted(batch) && start <= id
      invariant forall k :: k in batch ==> k < id && k in idle && k in pending && start <= k
      invariant forall k :: k in pending && k in idle && start <= k < id ==> k in batch
      invariant examined == |Between(pending, start, id)| && (examined > 0 ==> start < id)
    {
      BetweenNext(pending, start, id);
      if id in pending {
        if |batch| == count || examined == 10 * count { return batch, id; }
        examined := examined + 1;
        if id in idle {
          SortedAppend(batch, id);
          batch := batch + [id];
        }
      }
      id := id + 1;
    }
  }

  /** A claim keeps the stream's books. */
  lemma ClaimTracked(w: World, consumer: Consumer, batch: seq<nat>)
    requires Tracked(w) && Elements(batch) <= w.pending.Keys
    ensures Tracked(ClaimScript(w, consumer, Elements(batch)))
  {
    if Owns(w, consumer.instance, consumer.owner) {
      assert Due(w, w.delivered) == {};
      AssignTracked(w, Elements(batch), consumer, w.delivered);
      assert Assign(w, Elements(batch), consumer).(delivered := w.delivered) == Assign(w, Elements(batch), consumer);
    }
  }

  class DeliveryKeys {
    var entries: map<nat, Entry>
    var lastId: nat
    var delivered: nat
    var pending: map<nat, Consumer>
    var owners: map<string, string>
    var dlq: seq<Envelope>
    ghost var claims: set<Claim>
    ghost var routed: set<string>
    ghost var acked: set<string>
    ghost var dead: set<string>
    ghost var finished: seq<Finish>

    ghost function View(): World reads this {
      World(entries, lastId, delivered, pending, owners, dlq, claims, routed, acked, dead, finished)
    }

    /** One entry becomes pending for `consumer`, and the last delivered one. */
    method HandOver(consumer: Consumer, id: nat)
      requires id in entries
      modifies this
      ensures View() == old(View()).(pending := old(pending)[id := consumer], delivered := id,
                                     claims := old(claims) + {Claim(id, old(entries)[id], consumer)})
    {
      pending := pending[id := consumer];
      claims := claims + {Claim(id, entries[id], consumer)};
      delivered := id;
    }

    /** `XREADGROUP COUNT count`: the oldest undelivered entries, marked pending. */
    method ReadNew(consumer: Consumer, count: nat) returns (owned: bool, batch: seq<nat>)
      requires Tracked(View())
      modifies this
      ensures owned <==> Owns(old(View()), consumer.instance, consumer.owner)
      ensures |batch| <= count && Sorted(batch) && (batch != [] ==> owned && batch[0] > old(delivered))
      ensures View() == if batch == [] then old(View()) else ReadScript(old(View()), consumer, batch[|batch| - 1])
      ensures owned && |batch| < count ==> forall id :: id in entries ==> id <= delivered
    {
      owned := consumer.instance in owners && owners[consumer.instance] == consumer.owner;
      batch := [];
      if !owned { return; }
      ghost var start := View();
      AssignNone(start, consumer, delivered);
      var id := delivered;
      while id < lastId && |batch| < count
        invariant start.delivered <= delivered <= id <= lastId
        invariant |batch| <= count && Sorted(batch)
        invariant forall i :: 0 <= i < |batch| ==> start.delivered < batch[i] <= delivered
        invariant if batch == [] then delivered == start.delivered
                  else delivered == batch[|batch| - 1] && delivered in entries
        invariant forall k :: k in entries && delivered < k ==> id < k
        invariant View() == Assign(start, Due(start, delivered), consumer).(delivered := delivered)
      {
        id := id + 1;
        if id in entries {
          AssignNext(start, consumer, delivered, id);
          batch := batch + [id];
          HandOver(consumer, id);
        }
      }
    }

    /** `XAUTOCLAIM start COUNT count`: the picked entries change their consumer. */
    method ClaimIdle(consumer: Consumer, start: nat, count: nat, idle: set<nat>)
      returns (owned: bool, batch: seq<nat>, next: nat)
      requires Tracked(View()) && count > 0
      modifies this
      ensures owned <==> Owns(old(View()), consumer.instance, consumer.owner)
      ensures owned ==> Picked(old(pending), idle, start, count, batch, next) && next <= lastId
      ensures View() == if owned then ClaimScript(old(View()), consumer, Elements(batch)) else old(View())
      ensures !owned ==> batch == []
    {
      owned := consumer.instance in owners && owners[consumer.instance] == consumer.owner;
      batch, next := [], 0;
      if !owned { return; }
      batch, next := PickIdle(pending, idle, start, count, lastId);
      TakeAll(batch, consumer);
    }

    method TakeAll(batch: seq<nat>, consumer: Consumer)
      requires Elements(batch) <= pending.Keys <= entries.Keys
      modifies this
      ensures View() == Assign(old(View()), Elements(batch), consumer)
    {
      ghost var before := View();
      NothingAssigned(before, consumer);
      for i := 0 to |batch|
        invariant pending.Keys == before.pending.Keys && entries == before.entries
        invariant View() == Assign(before, Elements(batch[..i]), consumer)
      {
        ElementsNext(batch, i);
        TakeOver(batch[i], consumer, before, Elements(batch[..i]));
      }
      assert batch[..|batch|] == batch;
    }

    /**
    Reclaiming on from each reply until the end, as the loop does turn by turn: every entry
    that was pending and idle is then pending with the reclaiming owner.
     */
    method SweepIdle(consumer: Consumer, count: nat, idle: set<nat>)
      requires Tracked(View()) && count > 0 && Owns(View(), consumer.instance, consumer.owner)
      modifies this
      ensures Tracked(View()) && entries == old(entries) && pending.Keys == old(pending.Keys)
      ensures forall id :: id in old(pending) ==>
        pending[id] == if id in idle then consumer else old(pending)[id]
    {
      var start := 0;
      while true
        invariant Tracked(View()) && entries == old(entries) && owners == old(owners) && lastId == old(lastId)
        invariant pending.Keys == old(pending.Keys)
        invariant forall id :: id in old(pending) ==>
          pending[id] == old(pending)[id] || (id in idle && pending[id] == consumer)
        invariant forall id :: id in old(pending) && id in idle && id < start ==> pending[id] == consumer
        decreases lastId + 1 - start
      {
        ghost var w := View();
        var owned, batch, next := ClaimIdle(consumer, start, count, idle);
        ClaimTracked(w, consumer, batch);
        if next == 0 { return; }
        start := next;
      }
    }

    /** One pending entry changes its consumer. */
    method TakeOver(id: nat, consumer: Consumer, ghost before: World, ghost ids: set<nat>)
      requires id in entries && ids <= before.entries.Keys && View() == Assign(before, ids, consumer)
      modifies this
      ensures View() == Assign(before, ids + {id}, consumer) && pending.Keys == old(pending.Keys) + {id}
    {
      AssignMore(before, ids, id, consumer);
      pending := pending[id := consumer];
      claims := claims + {Claim(id, entries[id], consumer)};
    }

    method Acknowledge(claim: Claim, owner: string) returns (done: bool)
      modifies this
      ensures View() == AckScript(old(View()), claim, owner) && done == MayFinish(old(View()), claim, owner)
    {
      done := claim.consumer.instance in owners && owners[claim.consumer.instance] == owner
              && claim.id in pending && pending[claim.id] == claim.consumer;
      if !done { return; }
      pending := pending - {claim.id};
      entries := entries - {claim.id};
      acked := acked + Ids(claim.entry.envelope);
      finished := finished + [Finish(claim.id, Acknowledged, claim.consumer, owner)];
    }

    method Requeue(claim: Claim, owner: string) returns (done: bool)
      modifies this
      ensures View() == RequeueScript(old(View()), claim, owner) && done == MayFinish(old(View()), claim, owner)
    {
      done := claim.consumer.instance in owners && owners[claim.consumer.instance] == owner
              && claim.id in pending && pending[claim.id] == claim.consumer;
      if !done { return; }
      lastId := lastId + 1;
      entries := entries[lastId := Entry(claim.entry.envelope, claim.entry.attempt + 1)];
      pending := pending - {claim.id};
      entries := entries - {claim.id};
      finished := finished + [Finish(claim.id, Requeued, claim.consumer, owner)];
    }

    method CommitDelivery(claim: Claim, owner: string, dlqEnabled: bool) returns (done: bool)
      modifies this
      ensures View() == CommitDeliveryScript(old(View()), claim, owner, dlqEnabled)
      ensures done == MayFinish(old(View()), claim, owner)
    {
      done := claim.consumer.instance in owners && owners[claim.consumer.instance] == owner
              && claim.id in pending && pending[claim.id] == claim.consumer;
      if !done { return; }
      if dlqEnabled { dlq := dlq + [claim.entry.envelope]; }
      pending := pending - {claim.id};
      entries := entries - {claim.id};
      dead := dead + Ids(claim.entry.envelope);
      finished := finished + [Finish(claim.id, DeadLettered, claim.consumer, owner)];
    }
  }
}
