/**
The local side of delivery: a session's in-flight deliveries and its bounded outbound
queue, and the loop that fills both from the shared and the own stream.  Acknowledgements
and the transport may remove items at any await point; only the loop adds any.  What a turn
of the loop does to both is given as a function; class `Session` runs it in place.
 */
module DeliverySession {
  datatype Inflight = Inflight(stream: string, entryId: nat, attempt: int)

  /** One stream entry as a read or claim script returns it. */
  datatype Item = Item(entryId: nat, blank: bool, attempt: int)

  /** What other coroutines removed meanwhile: acknowledged deliveries and sent ones. */
  datatype Freed = Freed(acked: set<nat>, sent: nat)

  function Min(a: int, b: int): int { if a < b then a else b }

  function Max(a: nat, b: nat): nat { if a < b then b else a }

  /** `_available_capacity`; a queue limit of zero means unbounded. */
  function Available(inflight: nat, outbound: nat, maxInFlight: nat, maxOutbound: nat): int {
    if maxOutbound > 0 then Min(maxInFlight - inflight, maxOutbound - outbound) else maxInFlight - inflight
  }

  /** The streams selected by one read, and the count asked of each. */
  function Selected(capacity: nat): nat { Min(2, capacity) }

  function ReadCount(capacity: nat): nat requires capacity > 0 { Min(50, capacity / Selected(capacity)) }

  /** Every selected stream is asked for at least one entry, all together for no more than
      the free capacity. */
  lemma ReadBudget(capacity: nat)
    requires capacity > 0
    ensures 1 <= Selected(capacity) <= 2 && ReadCount(capacity) >= 1
    ensures ReadCount(capacity) * Selected(capacity) <= capacity
  {
  }

  /** Both streams are selected as soon as there is room for two, and each is asked for as
      many entries as fit, up to fifty. */
  lemma ReadBudgetIsUsed(capacity: nat)
    requires capacity > 0
    ensures Selected(capacity) == 2 <==> capacity >= 2
    ensures ReadCount(capacity) <= 50
    ensures ReadCount(capacity) == 50 || (ReadCount(capacity) + 1) * Selected(capacity) > capacity
  {
  }

  /** What is available can be added without passing a limit, and no more. */
  lemma AvailableIsRoom(inflight: nat, outbound: nat, maxInFlight: nat, maxOutbound: nat, more: nat)
    ensures more as int <= Available(inflight, outbound, maxInFlight, maxOutbound) <==>
      inflight + more <= maxInFlight && (maxOutbound > 0 ==> outbound + more <= maxOutbound)
  {
  }

  predicate Goes(item: Item, maxAttempts: nat) { !item.blank && 1 <= item.attempt <= maxAttempts }

  /** The deliveries of a newly read batch: its deliverable entries, in order. */
  function Deliveries(stream: string, batch: seq<Item>, maxAttempts: nat): seq<Inflight> {
    if batch == [] then []
    else
      var n := |batch| - 1;
      Deliveries(stream, batch[..n], maxAttempts)
      + if Goes(batch[n], maxAttempts) then [Inflight(stream, batch[n].entryId, batch[n].attempt)] else []
  }

  predicate SameEntry(a: Inflight, b: Inflight) { a.stream == b.stream && a.entryId == b.entryId }

  /** No two in-flight deliveries name the same stream entry. */
  ghost predicate Distinct(inflight: map<nat, Inflight>) {
    forall a, b ::
      (a in inflight && b in inflight && SameEntry(inflight[a], inflight[b])) ==> a == b
  }

  predicate Names(x: Inflight, stream: string, entryId: nat) { x.stream == stream && x.entryId == entryId }

  /** Some delivery in flight names this entry. */
  predicate Flying(inflight: map<nat, Inflight>, stream: string, entryId: nat) {
    exists d | d in inflight :: Names(inflight[d], stream, entryId)
  }

  /** The in-flight deliveries of a stream are entries delivered to the group by `mark`. */
  ghost predicate Below(inflight: map<nat, Inflight>, stream: string, mark: nat) {
    forall d :: d in inflight ==> inflight[d].stream != stream || inflight[d].entryId <= mark
  }

  /** Every delivery ever queued is still queued, in order, unless it was sent. */
  ghost predicate Queued(outbound: seq<nat>, sent: nat, nextDelivery: nat) {
    && sent + |outbound| == nextDelivery
    && forall i :: 0 <= i < |outbound| ==> outbound[i] == sent + i
  }

  /** Every delivery ever queued is still in flight, unless it was acknowledged. */
  ghost predicate Tracked(inflight: map<nat, Inflight>, acked: set<nat>, nextDelivery: nat) {
    && (forall d: nat :: d in inflight <==> d < nextDelivery && d !in acked)
    && (forall d :: d in acked ==> d < nextDelivery)
  }

  /** Acknowledging, sending and adding keep the books. */
  lemma Freeing(inflight: map<nat, Inflight>, acked: set<nat>, nextDelivery: nat, freed: set<nat>)
    requires Tracked(inflight, acked, nextDelivery) && Distinct(inflight)
    ensures Tracked(inflight - freed, acked + freed * inflight.Keys, nextDelivery) && Distinct(inflight - freed)
    ensures (inflight - freed).Keys == inflight.Keys - freed
  {
  }

  lemma Sending(outbound: seq<nat>, sent: nat, nextDelivery: nat, k: nat)
    requires Queued(outbound, sent, nextDelivery) && k <= |outbound|
    ensures Queued(outbound[k..], sent + k, nextDelivery)
  {
  }

  lemma Adding(inflight: map<nat, Inflight>, acked: set<nat>, id: nat, x: Inflight)
    requires Tracked(inflight, acked, id) && Distinct(inflight) && !Flying(inflight, x.stream, x.entryId)
    ensures Tracked(inflight[id := x], acked, id + 1) && Distinct(inflight[id := x])
    ensures inflight[id := x].Keys == inflight.Keys + {id} && id !in inflight
  {
    assert forall d :: d in inflight ==> !Names(inflight[d], x.stream, x.entryId);
  }

  ghost predicate Increasing(items: seq<Item>) {
    forall i, j :: 0 <= i < j < |items| ==> items[i].entryId < items[j].entryId
  }

  /** The first `count` items that satisfy `p`, in order. */
  function First(p: Item -> bool, items: seq<Item>, count: nat): (batch: seq<Item>)
    ensures |batch| <= count
    ensures forall x :: x in batch ==> x in items && p(x)
  {
    if items == [] || count == 0 then []
    else if p(items[0]) then [items[0]] + First(p, items[1..], count - 1)
    else First(p, items[1..], count)
  }

  /** How many of the first `i` items satisfy `p`. */
  function Before(p: Item -> bool, items: seq<Item>, i: nat): (n: nat)
    requires i <= |items|
    ensures n <= i
  {
    if i == 0 then 0 else Before(p, items, i - 1) + if p(items[i - 1]) then 1 else 0
  }

  lemma {:induction false} BeforeShift(p: Item -> bool, items: seq<Item>, i: nat)
    requires 0 < i <= |items|
    ensures Before(p, items, i) == Before(p, items[1..], i - 1) + if p(items[0]) then 1 else 0
  {
    if i > 1 { BeforeShift(p, items, i - 1); }
  }

  /** An item is among the first `count` exactly when fewer than `count` come before it. */
  lemma {:induction false} FirstTakes(p: Item -> bool, items: seq<Item>, count: nat, i: nat)
    requires i < |items| && p(items[i]) && Before(p, items, i) < count
    ensures items[i] in First(p, items, count)
  {
    if i > 0 {
      BeforeShift(p, items, i);
      FirstTakes(p, items[1..], if p(items[0]) then count - 1 else count, i - 1);
    }
  }

  /** All of them are taken if there are no more than `count`, else exactly `count`. */
  lemma {:induction false} FirstSize(p: Item -> bool, items: seq<Item>, count: nat)
    ensures |First(p, items, count)| == Min(count, Before(p, items, |items|))
  {
    if items != [] && count > 0 {
      BeforeShift(p, items, |items|);
      FirstSize(p, items[1..], if p(items[0]) then count - 1 else count);
    }
  }

  function New(delivered: nat): Item -> bool { (x: Item) => delivered < x.entryId }

  function Pending(delivered: nat): Item -> bool { (x: Item) => x.entryId <= delivered }

  /** `XREADGROUP COUNT count`: the first entries above the group's last delivered one. */
  function Newest(visible: seq<Item>, delivered: nat, count: nat): (batch: seq<Item>)
    ensures |batch| <= count
    ensures forall x :: x in batch ==> x in visible && delivered < x.entryId
  {
    First(New(delivered), visible, count)
  }

  lemma AboveFirst(items: seq<Item>)
    requires Increasing(items) && items != []
    ensures Increasing(items[1..]) && forall x :: x in items[1..] ==> items[0].entryId < x.entryId
  {
  }

  lemma Prepended(first: Item, rest: seq<Item>)
    requires Increasing(rest) && forall x :: x in rest ==> first.entryId < x.entryId
    ensures Increasing([first] + rest)
  {
    forall j | 0 <= j < |rest| ensures first.entryId < rest[j].entryId { assert rest[j] in rest; }
  }

  lemma {:induction false} FirstIncreasing(p: Item -> bool, items: seq<Item>, count: nat)
    requires Increasing(items)
    ensures Increasing(First(p, items, count))
  {
    if items != [] && count > 0 {
      AboveFirst(items);
      if p(items[0]) {
        var rest := First(p, items[1..], count - 1);
        FirstIncreasing(p, items[1..], count - 1);
        assert forall x :: x in rest ==> x in items[1..];
        Prepended(items[0], rest);
      } else {
        FirstIncreasing(p, items[1..], count);
      }
    }
  }

  /** `XAUTOCLAIM COUNT count`: some idle pending entries; pending means delivered before. */
  function Claimed(idle: seq<Item>, delivered: nat, count: nat): (batch: seq<Item>)
    ensures |batch| <= count
    ensures forall x :: x in batch ==> x in idle && x.entryId <= delivered
  {
    First(Pending(delivered), idle, count)
  }

  /** What one read returns: the counts are chosen from the free capacity. */
  function RoundBatches(capacity: nat, a: seq<Item>, b: seq<Item>, deliveredA: nat, deliveredB: nat)
    : (seq<Item>, seq<Item>)
    requires capacity > 0
  {
    var count := ReadCount(capacity);
    (Newest(a, deliveredA, count), if Selected(capacity) == 2 then Newest(b, deliveredB, count) else [])
  }

  /** It fits into that capacity, in order and above the marks. */
  lemma RoundFits(capacity: nat, a: seq<Item>, b: seq<Item>, deliveredA: nat, deliveredB: nat)
    requires capacity > 0 && Increasing(a) && Increasing(b)
    ensures var (one, two) := RoundBatches(capacity, a, b, deliveredA, deliveredB);
      && |one| + |two| <= capacity && Increasing(one) && Increasing(two)
      && (forall x :: x in one ==> deliveredA < x.entryId) && (forall x :: x in two ==> deliveredB < x.entryId)
  {
    ReadBudget(capacity);
    FirstIncreasing(New(deliveredA), a, ReadCount(capacity));
    FirstIncreasing(New(deliveredB), b, ReadCount(capacity));
  }

  function LastId(batch: seq<Item>, delivered: nat): nat {
    if batch == [] then delivered else batch[|batch| - 1].entryId
  }

  /** What was freed at await point `i` of a batch, and by all of them. */
  function At(awaits: seq<Freed>, i: nat): Freed { if i < |awaits| then awaits[i] else Freed({}, 0) }

  function AckedBy(awaits: seq<Freed>): set<nat> {
    if awaits == [] then {} else AckedBy(awaits[..|awaits| - 1]) + awaits[|awaits| - 1].acked
  }

  function SentBy(awaits: seq<Freed>): nat {
    if awaits == [] then 0 else SentBy(awaits[..|awaits| - 1]) + awaits[|awaits| - 1].sent
  }

  function Upto(awaits: seq<Freed>, i: nat): seq<Freed> { awaits[..Min(i, |awaits|)] }

  lemma UptoNext(awaits: seq<Freed>, i: nat)
    ensures AckedBy(Upto(awaits, i + 1)) == AckedBy(Upto(awaits, i)) + At(awaits, i).acked
    ensures SentBy(Upto(awaits, i + 1)) == SentBy(Upto(awaits, i)) + At(awaits, i).sent
  {
    if i < |awaits| { assert awaits[..i + 1][..i] == awaits[..i]; }
  }

  lemma {:induction false} UptoAll(awaits: seq<Freed>, i: nat)
    ensures AckedBy(Upto(awaits, i)) <= AckedBy(awaits) && SentBy(Upto(awaits, i)) <= SentBy(awaits)
  {
    if i >= |awaits| {
      assert awaits[..|awaits|] == awaits;
    } else {
      var n := |awaits| - 1;
      UptoAll(awaits[..n], i);
      assert Upto(awaits[..n], i) == Upto(awaits, i);
    }
  }

  /** The next entry of a read is above everything in flight on its stream. */
  lemma NextIsAbove(inflight: map<nat, Inflight>, stream: string, batch: seq<Item>, i: nat, mark: nat)
    requires i < |batch| && Increasing(batch) && Below(inflight, stream, LastId(batch[..i], mark))
    requires forall x :: x in batch ==> mark < x.entryId
    ensures LastId(batch[..i], mark) < batch[i].entryId && !Flying(inflight, stream, batch[i].entryId)
  {
    assert batch[i] in batch;
  }

  lemma DeliveriesNext(stream: string, batch: seq<Item>, i: nat, maxAttempts: nat)
    requires i < |batch|
    ensures Deliveries(stream, batch[..i + 1], maxAttempts) == Deliveries(stream, batch[..i], maxAttempts)
      + if Goes(batch[i], maxAttempts) then [Inflight(stream, batch[i].entryId, batch[i].attempt)] else []
  {
    assert batch[..i + 1][..i] == batch[..i];
  }

  /** The entries of an increasing batch are at most its last one. */
  lemma LastIsGreatest(batch: seq<Item>, delivered: nat)
    requires Increasing(batch)
    ensures forall x :: x in batch ==> x.entryId <= LastId(batch, delivered)
  {
    forall x | x in batch ensures x.entryId <= LastId(batch, delivered) {
      var i :| 0 <= i < |batch| && batch[i] == x;
    }
  }

  /**
  One stream during one turn of the loop: `others` is how far other consumers of the group
  have read, `idle` what may be reclaimed and `visible` what may be read, and the awaits are
  what other coroutines free while its entries are delivered.
   */
  datatype StreamTurn = StreamTurn(others: nat, idle: seq<Item>, visible: seq<Item>,
                                   claimAwaits: seq<Freed>, readAwaits: seq<Freed>)

  datatype Turn = Turn(before: Freed, reclaim: bool, shared: StreamTurn, own: StreamTurn)

  /** What is freed before the read of a turn, while its read is delivered, and in all. */
  function EarlyAcked(t: Turn): set<nat> {
    t.before.acked + AckedBy(t.shared.claimAwaits) + AckedBy(t.own.claimAwaits)
  }

  function EarlySent(t: Turn): nat { t.before.sent + SentBy(t.shared.claimAwaits) + SentBy(t.own.claimAwaits) }

  function ReadAcked(t: Turn): set<nat> { AckedBy(t.shared.readAwaits) + AckedBy(t.own.readAwaits) }

  function ReadSent(t: Turn): nat { SentBy(t.shared.readAwaits) + SentBy(t.own.readAwaits) }

  function TurnAcked(t: Turn): set<nat> { EarlyAcked(t) + ReadAcked(t) }

  function TurnSent(t: Turn): nat { EarlySent(t) + ReadSent(t) }

  function AllAcked(turns: seq<Turn>): set<nat> {
    if turns == [] then {} else AllAcked(turns[..|turns| - 1]) + TurnAcked(turns[|turns| - 1])
  }

  function AllSent(turns: seq<Turn>): nat {
    if turns == [] then 0 else AllSent(turns[..|turns| - 1]) + TurnSent(turns[|turns| - 1])
  }

  /** Redis returns stream entries in the order of their identities. */
  ghost predicate Orderly(turns: seq<Turn>) {
    forall t :: t in turns ==> Increasing(t.shared.visible) && Increasing(t.own.visible)
  }

  // ----- what the loop does, as functions -----

  datatype Config = Config(
    maxInFlight: nat, maxOutbound: nat, maxAttempts: nat, batchSize: nat, shared: string, own: string)

  /** A session's books.  `log` tells what every delivery ever made was, `acked` and `sent`
      what others removed; nothing reads these three. */
  datatype Desk = Desk(
    inflight: map<nat, Inflight>, outbound: seq<nat>, next: nat, log: seq<Inflight>, acked: set<nat>, sent: nat)

  const EMPTY := Desk(map[], [], 0, [], {}, 0)

  function Room(c: Config, d: Desk): int {
    Available(|d.inflight|, |d.outbound|, c.maxInFlight, c.maxOutbound)
  }

  /** Others acknowledge deliveries in flight and send queued ones. */
  function Free(d: Desk, freed: Freed): Desk {
    var gone: nat := Min(freed.sent, |d.outbound|);
    d.(inflight := d.inflight - freed.acked, acked := d.acked + freed.acked * d.inflight.Keys,
       outbound := d.outbound[gone..], sent := d.sent + gone)
  }

  /** A delivery is queued and tracked; nothing is dropped. */
  function Put(d: Desk, x: Inflight): Desk {
    d.(inflight := d.inflight[d.next := x], outbound := d.outbound + [d.next], next := d.next + 1, log := d.log + [x])
  }

  /** One entry, after whatever was freed before its turn; a reclaimed entry that is still in
      flight is skipped. */
  function One(c: Config, d: Desk, stream: string, item: Item, freed: Freed, reclaimed: bool): Desk {
    var e := Free(d, freed);
    if Goes(item, c.maxAttempts) && !(reclaimed && Flying(e.inflight, stream, item.entryId))
    then Put(e, Inflight(stream, item.entryId, item.attempt)) else e
  }

  function Batch(c: Config, d: Desk, stream: string, items: seq<Item>, awaits: seq<Freed>, reclaimed: bool): Desk {
    if items == [] then d
    else
      var n := |items| - 1;
      One(c, Batch(c, d, stream, items[..n], awaits, reclaimed), stream, items[n], At(awaits, n), reclaimed)
  }

  /** `_reclaim_pending` on one stream. */
  function Reclaimed(c: Config, d: Desk, stream: string, t: StreamTurn, delivered: nat): Desk {
    if Room(c, d) <= 0 then d
    else Batch(c, d, stream, Claimed(t.idle, delivered, Min(c.batchSize, Room(c, d))), t.claimAwaits, true)
  }

  /** The read of both streams and the delivery of what it returned. */
  function Round(c: Config, d: Desk, first: string, second: string, a: StreamTurn, b: StreamTurn,
                 deliveredA: nat, deliveredB: nat): Desk
    requires Room(c, d) > 0
  {
    var (one, two) := RoundBatches(Room(c, d), a.visible, b.visible, deliveredA, deliveredB);
    Batch(c, Batch(c, d, first, one, a.readAwaits, false), second, two, b.readAwaits, false)
  }

  /** Where the loop stands: the group's marks and which stream it serves first. */
  datatype Place = Place(desk: Desk, sharedMark: nat, ownMark: nat, swapped: bool)

  /** A turn until the read: what others freed and what is reclaimed. */
  function BeforeRead(c: Config, p: Place, t: Turn): Place {
    var sharedMark, ownMark := Max(p.sharedMark, t.shared.others), Max(p.ownMark, t.own.others);
    var freed := Free(p.desk, t.before);
    var desk :=
      if Room(c, freed) <= 0 || !t.reclaim then freed
      else Reclaimed(c, Reclaimed(c, freed, c.shared, t.shared, sharedMark), c.own, t.own, ownMark);
    Place(desk, sharedMark, ownMark, p.swapped)
  }

  /** Whether the turn goes on to read. */
  predicate Reads(c: Config, p: Place, t: Turn) {
    Room(c, Free(p.desk, t.before)) > 0 && Room(c, BeforeRead(c, p, t).desk) > 0
  }

  /** What the read of a turn returns from the shared and from the own stream. */
  function ReadBatches(c: Config, p: Place, t: Turn): (seq<Item>, seq<Item>)
    requires Reads(c, p, t)
  {
    var q := BeforeRead(c, p, t);
    if p.swapped then
      var (own, shared) := RoundBatches(Room(c, q.desk), t.own.visible, t.shared.visible, q.ownMark, q.sharedMark);
      (shared, own)
    else RoundBatches(Room(c, q.desk), t.shared.visible, t.own.visible, q.sharedMark, q.ownMark)
  }

  /** One turn of `_stream_loop`; only a turn that reads swaps the streams. */
  function TurnOf(c: Config, p: Place, t: Turn): Place {
    var q := BeforeRead(c, p, t);
    if !Reads(c, p, t) then q
    else
      var (shared, own) := ReadBatches(c, p, t);
      var desk :=
        if p.swapped then Round(c, q.desk, c.own, c.shared, t.own, t.shared, q.ownMark, q.sharedMark)
        else Round(c, q.desk, c.shared, c.own, t.shared, t.own, q.sharedMark, q.ownMark);
      Place(desk, LastId(shared, q.sharedMark), LastId(own, q.ownMark), !p.swapped)
  }

  function LoopOf(c: Config, turns: seq<Turn>): Place {
    if turns == [] then Place(EMPTY, 0, 0, false)
    else TurnOf(c, LoopOf(c, turns[..|turns| - 1]), turns[|turns| - 1])
  }

  // ----- what every step keeps -----

  /** The limits hold, nothing is in flight twice, and what is missing was acknowledged or sent. */
  ghost predicate Books(c: Config, d: Desk) {
    && |d.inflight| <= c.maxInFlight && (c.maxOutbound > 0 ==> |d.outbound| <= c.maxOutbound)
    && Tracked(d.inflight, d.acked, d.next) && Queued(d.outbound, d.sent, d.next) && Distinct(d.inflight)
    && Logged(d.inflight, d.log, d.next)
  }

  ghost predicate Logged(inflight: map<nat, Inflight>, log: seq<Inflight>, next: nat) {
    |log| == next && forall d :: d in inflight ==> d < next && inflight[d] == log[d]
  }

  /** Exactly the acknowledged deliveries leave the flight, and the oldest, those that were
      sent, the queue. */
  lemma FreeMeans(d: Desk, freed: Freed)
    ensures var e := Free(d, freed);
      && (forall k :: k in e.inflight <==> k in d.inflight && k !in freed.acked) && e.log == d.log && e.next == d.next
      && (if freed.sent <= |d.outbound| then e.outbound == d.outbound[freed.sent..] else e.outbound == [])
  {
  }

  lemma FreeKeeps(c: Config, d: Desk, freed: Freed)
    requires Books(c, d)
    ensures Books(c, Free(d, freed)) && Room(c, Free(d, freed)) >= Room(c, d)
  {
    var gone: nat := Min(freed.sent, |d.outbound|);
    Freeing(d.inflight, d.acked, d.next, freed.acked);
    FreeRoom(c, d, freed);
    Sending(d.outbound, d.sent, d.next, gone);
  }

  lemma FreeRoom(c: Config, d: Desk, freed: Freed)
    ensures var e := Free(d, freed);
      |e.inflight| <= |d.inflight| && |e.outbound| <= |d.outbound| && Room(c, e) >= Room(c, d)
  {
    FewerInFlight(d.inflight, freed.acked);
    var e := Free(d, freed);
    AvailableMore(|d.inflight|, |e.inflight|, |d.outbound|, |e.outbound|, c.maxInFlight, c.maxOutbound);
  }

  lemma AvailableMore(inflight: nat, fewer: nat, outbound: nat, shorter: nat, maxInFlight: nat, maxOutbound: nat)
    requires fewer <= inflight && shorter <= outbound
    ensures Available(inflight, outbound, maxInFlight, maxOutbound)
      <= Available(fewer, shorter, maxInFlight, maxOutbound)
  {
  }

  lemma FewerInFlight(inflight: map<nat, Inflight>, acked: set<nat>)
    ensures |inflight - acked| <= |inflight|
  {
    Smaller((inflight - acked).Keys, inflight.Keys);
    assert |inflight - acked| == |(inflight - acked).Keys| && |inflight.Keys| == |inflight|;
  }

  lemma PutKeeps(c: Config, d: Desk, x: Inflight)
    requires Books(c, d) && Room(c, d) >= 1 && !Flying(d.inflight, x.stream, x.entryId)
    ensures Books(c, Put(d, x)) && Room(c, Put(d, x)) == Room(c, d) - 1
  {
    Adding(d.inflight, d.acked, d.next, x);
    var after := d.inflight[d.next := x];
    assert |after| == |after.Keys| == |d.inflight.Keys + {d.next}|;
  }

  lemma FlyingLess(inflight: map<nat, Inflight>, acked: set<nat>, stream: string, entryId: nat)
    requires Flying(inflight - acked, stream, entryId)
    ensures Flying(inflight, stream, entryId)
  {
    var d :| d in inflight - acked && Names((inflight - acked)[d], stream, entryId);
    assert Names(inflight[d], stream, entryId);
  }

  lemma OneKeeps(c: Config, d: Desk, stream: string, item: Item, freed: Freed, reclaimed: bool)
    requires Books(c, d) && Room(c, d) >= 1 && (reclaimed || !Flying(d.inflight, stream, item.entryId))
    ensures var e := One(c, d, stream, item, freed, reclaimed);
      && Books(c, e) && Room(c, e) >= Room(c, d) - 1
      && d.log <= e.log && d.acked <= e.acked <= d.acked + freed.acked && d.sent <= e.sent <= d.sent + freed.sent
  {
    var e := Free(d, freed);
    FreeKeeps(c, d, freed);
    if Flying(e.inflight, stream, item.entryId) { FlyingLess(d.inflight, freed.acked, stream, item.entryId); }
    if Goes(item, c.maxAttempts) && !Flying(e.inflight, stream, item.entryId) {
      PutKeeps(c, e, Inflight(stream, item.entryId, item.attempt));
    }
  }

  /** The entries in flight of a stream are below a mark, which new entries may raise. */
  lemma OneBelow(c: Config, d: Desk, stream: string, item: Item, freed: Freed, reclaimed: bool,
                 name: string, mark: nat, newMark: nat)
    requires Books(c, d) && Below(d.inflight, name, mark) && mark <= newMark
    requires name == stream ==> item.entryId <= newMark
    ensures Below(One(c, d, stream, item, freed, reclaimed).inflight, name, newMark)
  {
  }

  /** The books of `e` follow those of `d`: nothing is lost but what the awaits removed. */
  ghost predicate Follows(c: Config, d: Desk, e: Desk, acked: set<nat>, sent: nat) {
    Books(c, e) && d.log <= e.log && d.acked <= e.acked <= d.acked + acked && d.sent <= e.sent <= d.sent + sent
  }

  /** New entries of a read: in order and above the mark of their stream. */
  ghost predicate Fresh(d: Desk, stream: string, items: seq<Item>, mark: nat) {
    Increasing(items) && Below(d.inflight, stream, mark) && forall x :: x in items ==> mark < x.entryId
  }

  lemma FreshPrefix(d: Desk, stream: string, items: seq<Item>, mark: nat)
    requires Fresh(d, stream, items, mark) && items != []
    ensures Fresh(d, stream, items[..|items| - 1], mark)
  {
  }

  /** A batch that fits keeps the books, and a read raises its stream's mark to its last entry. */
  lemma {:induction false} BatchKeeps(c: Config, d: Desk, stream: string, items: seq<Item>, awaits: seq<Freed>,
                                      reclaimed: bool, mark: nat)
    requires Books(c, d) && |items| <= Room(c, d) && (reclaimed || Fresh(d, stream, items, mark))
    ensures var e := Batch(c, d, stream, items, awaits, reclaimed);
      && Follows(c, d, e, AckedBy(Upto(awaits, |items|)), SentBy(Upto(awaits, |items|)))
      && Room(c, e) >= Room(c, d) - |items|
      && (!reclaimed ==> Below(e.inflight, stream, LastId(items, mark)))
  {
    if items == [] {
      assert awaits[..0] == [];
    } else {
      var n := |items| - 1;
      var b := Batch(c, d, stream, items[..n], awaits, reclaimed);
      if !reclaimed { FreshPrefix(d, stream, items, mark); }
      BatchKeeps(c, d, stream, items[..n], awaits, reclaimed, mark);
      UptoNext(awaits, n);
      if !reclaimed { NextIsAbove(b.inflight, stream, items, n, mark); }
      OneKeeps(c, b, stream, items[n], At(awaits, n), reclaimed);
      if !reclaimed {
        OneBelow(c, b, stream, items[n], At(awaits, n), false, stream, LastId(items[..n], mark), items[n].entryId);
      }
    }
  }

  /** Midway through a batch there is room for the next entry, which is not in flight. */
  lemma BatchBooks(c: Config, d: Desk, stream: string, items: seq<Item>, awaits: seq<Freed>, reclaimed: bool,
                   mark: nat, i: nat)
    requires Books(c, d) && |items| <= Room(c, d) && (reclaimed || Fresh(d, stream, items, mark)) && i < |items|
    ensures var b := Batch(c, d, stream, items[..i], awaits, reclaimed);
      Books(c, b) && Room(c, b) >= 1 && (reclaimed || !Flying(b.inflight, stream, items[i].entryId))
  {
    assert reclaimed || Fresh(d, stream, items[..i], mark);
    BatchKeeps(c, d, stream, items[..i], awaits, reclaimed, mark);
    if !reclaimed {
      NextIsAbove(Batch(c, d, stream, items[..i], awaits, reclaimed).inflight, stream, items, i, mark);
    }
  }

  /** Marks that all entries of a batch respect stay marks. */
  lemma {:induction false} BatchBelow(c: Config, d: Desk, stream: string, items: seq<Item>, awaits: seq<Freed>,
                                      reclaimed: bool, start: nat, name: string, mark: nat)
    requires Books(c, d) && |items| <= Room(c, d) && (reclaimed || Fresh(d, stream, items, start))
    requires Below(d.inflight, name, mark) && (name == stream ==> forall x :: x in items ==> x.entryId <= mark)
    ensures Below(Batch(c, d, stream, items, awaits, reclaimed).inflight, name, mark)
  {
    if items != [] {
      var n := |items| - 1;
      assert items[n] in items && forall x :: x in items[..n] ==> x in items;
      if !reclaimed { FreshPrefix(d, stream, items, start); }
      BatchBelow(c, d, stream, items[..n], awaits, reclaimed, start, name, mark);
      BatchKeeps(c, d, stream, items[..n], awaits, reclaimed, start);
      var b := Batch(c, d, stream, items[..n], awaits, reclaimed);
      OneBelow(c, b, stream, items[n], At(awaits, n), reclaimed, name, mark, mark);
    }
  }

  /** A newly read batch is delivered entry by entry: exactly its deliverable entries. */
  lemma {:induction false} BatchDeliveries(c: Config, d: Desk, stream: string, items: seq<Item>, awaits: seq<Freed>)
    ensures Batch(c, d, stream, items, awaits, false).log == d.log + Deliveries(stream, items, c.maxAttempts)
  {
    if items != [] {
      var n := |items| - 1;
      BatchDeliveries(c, d, stream, items[..n], awaits);
    }
  }

  predicate Named(log: seq<Inflight>, stream: string, entryId: nat) {
    exists x | x in log :: Names(x, stream, entryId)
  }

  /** Every deliverable entry that is claimed is delivered, unless it was in flight already. */
  ghost predicate ClaimsDelivered(c: Config, d: Desk, e: Desk, stream: string, items: seq<Item>) {
    d.log <= e.log && forall x :: x in items && Goes(x, c.maxAttempts) ==>
      Named(e.log[|d.log|..], stream, x.entryId) || Flying(d.inflight, stream, x.entryId)
  }

  /** What is in flight now was in flight then, or has been delivered since. */
  lemma FlyingSince(c: Config, d: Desk, e: Desk, stream: string, entryId: nat)
    requires Books(c, d) && Books(c, e) && d.log <= e.log && d.acked <= e.acked && Flying(e.inflight, stream, entryId)
    ensures Named(e.log[|d.log|..], stream, entryId) || Flying(d.inflight, stream, entryId)
  {
    var k :| k in e.inflight && Names(e.inflight[k], stream, entryId);
    if k < |d.log| {
      assert k in d.inflight && d.inflight[k] == d.log[k] == e.log[k];
    } else {
      assert e.log[|d.log|..][k - |d.log|] == e.log[k];
      assert e.log[k] in e.log[|d.log|..];
    }
  }

  lemma NamedLonger(log: seq<Inflight>, more: seq<Inflight>, start: nat, stream: string, entryId: nat)
    requires start <= |log| && log <= more && Named(log[start..], stream, entryId)
    ensures Named(more[start..], stream, entryId)
  {
    var x :| x in log[start..] && Names(x, stream, entryId);
    var i :| 0 <= i < |log| - start && log[start..][i] == x;
    assert more[start..][i] == x;
  }

  lemma {:induction false} ReclaimDelivers(c: Config, d: Desk, stream: string, items: seq<Item>, awaits: seq<Freed>)
    requires Books(c, d) && |items| <= Room(c, d)
    ensures ClaimsDelivered(c, d, Batch(c, d, stream, items, awaits, true), stream, items)
  {
    BatchKeeps(c, d, stream, items, awaits, true, 0);
    if items != [] {
      var n := |items| - 1;
      var b, e := Batch(c, d, stream, items[..n], awaits, true), Batch(c, d, stream, items, awaits, true);
      ReclaimDelivers(c, d, stream, items[..n], awaits);
      BatchKeeps(c, d, stream, items[..n], awaits, true, 0);
      OneKeeps(c, b, stream, items[n], At(awaits, n), true);
      forall x | x in items && Goes(x, c.maxAttempts)
        ensures Named(e.log[|d.log|..], stream, x.entryId) || Flying(d.inflight, stream, x.entryId)
      {
        if x in items[..n] {
          if Named(b.log[|d.log|..], stream, x.entryId) { NamedLonger(b.log, e.log, |d.log|, stream, x.entryId); }
        } else {
          LastDelivered(c, d, b, stream, x, At(awaits, n));
        }
      }
    }
  }

  lemma LastDelivered(c: Config, d: Desk, b: Desk, stream: string, item: Item, freed: Freed)
    requires Books(c, d) && Books(c, b) && d.log <= b.log && d.acked <= b.acked && Goes(item, c.maxAttempts)
    ensures var e := One(c, b, stream, item, freed, true);
      d.log <= e.log && (Named(e.log[|d.log|..], stream, item.entryId) || Flying(d.inflight, stream, item.entryId))
  {
    var f, e := Free(b, freed), One(c, b, stream, item, freed, true);
    FreeKeeps(c, b, freed);
    if Flying(f.inflight, stream, item.entryId) {
      FlyingSince(c, d, f, stream, item.entryId);
    } else {
      var x := Inflight(stream, item.entryId, item.attempt);
      assert e.log[|d.log|..][|b.log| - |d.log|] == x;
      assert x in e.log[|d.log|..] && Names(x, stream, item.entryId);
    }
  }

  /** Reclaiming from one stream keeps the books and both marks, and delivers what it claims. */
  lemma ReclaimedKeeps(c: Config, d: Desk, stream: string, t: StreamTurn, delivered: nat, other: string, otherMark: nat)
    requires Books(c, d) && other != stream
    requires Below(d.inflight, stream, delivered) && Below(d.inflight, other, otherMark)
    ensures var e := Reclaimed(c, d, stream, t, delivered);
      && Follows(c, d, e, AckedBy(t.claimAwaits), SentBy(t.claimAwaits))
      && Below(e.inflight, stream, delivered) && Below(e.inflight, other, otherMark)
      && (Room(c, d) > 0 ==>
            ClaimsDelivered(c, d, e, stream, Claimed(t.idle, delivered, Min(c.batchSize, Room(c, d)))))
  {
    if Room(c, d) > 0 {
      var batch := Claimed(t.idle, delivered, Min(c.batchSize, Room(c, d)));
      BatchKeeps(c, d, stream, batch, t.claimAwaits, true, delivered);
      UptoAll(t.claimAwaits, |batch|);
      BatchBelow(c, d, stream, batch, t.claimAwaits, true, delivered, stream, delivered);
      BatchBelow(c, d, stream, batch, t.claimAwaits, true, delivered, other, otherMark);
      ReclaimDelivers(c, d, stream, batch, t.claimAwaits);
    }
  }

  /** Delivering a read batch. */
  lemma ReadKeeps(c: Config, d: Desk, stream: string, batch: seq<Item>, awaits: seq<Freed>, delivered: nat,
                  other: string, otherMark: nat)
    requires Books(c, d) && |batch| <= Room(c, d) && Fresh(d, stream, batch, delivered) && other != stream
    requires Below(d.inflight, other, otherMark)
    ensures var e := Batch(c, d, stream, batch, awaits, false);
      && Follows(c, d, e, AckedBy(awaits), SentBy(awaits)) && Room(c, e) >= Room(c, d) - |batch|
      && Below(e.inflight, stream, LastId(batch, delivered)) && Below(e.inflight, other, otherMark)
      && e.log == d.log + Deliveries(stream, batch, c.maxAttempts)
  {
    BatchKeeps(c, d, stream, batch, awaits, false, delivered);
    UptoAll(awaits, |batch|);
    BatchBelow(c, d, stream, batch, awaits, false, delivered, other, otherMark);
    BatchDeliveries(c, d, stream, batch, awaits);
  }

  /** The selected streams together fit into the free capacity, so every deliverable entry of
      the read is delivered, the first stream's before the second's. */
  lemma RoundKeeps(c: Config, d: Desk, first: string, second: string, a: StreamTurn, b: StreamTurn,
                   deliveredA: nat, deliveredB: nat, one: seq<Item>, two: seq<Item>)
    requires Books(c, d) && Room(c, d) > 0 && first != second && Increasing(a.visible) && Increasing(b.visible)
    requires Below(d.inflight, first, deliveredA) && Below(d.inflight, second, deliveredB)
    requires (one, two) == RoundBatches(Room(c, d), a.visible, b.visible, deliveredA, deliveredB)
    ensures var e := Round(c, d, first, second, a, b, deliveredA, deliveredB);
      && Follows(c, d, e, AckedBy(a.readAwaits) + AckedBy(b.readAwaits), SentBy(a.readAwaits) + SentBy(b.readAwaits))
      && Below(e.inflight, first, LastId(one, deliveredA)) && Below(e.inflight, second, LastId(two, deliveredB))
      && e.log == d.log + (Deliveries(first, one, c.maxAttempts) + Deliveries(second, two, c.maxAttempts))
  {
    RoundFits(Room(c, d), a.visible, b.visible, deliveredA, deliveredB);
    ReadKeeps(c, d, first, one, a.readAwaits, deliveredA, second, deliveredB);
    var mid := Batch(c, d, first, one, a.readAwaits, false);
    ReadKeeps(c, mid, second, two, b.readAwaits, deliveredB, first, LastId(one, deliveredA));
    Regroup(d.log, Deliveries(first, one, c.maxAttempts), Deliveries(second, two, c.maxAttempts));
  }

  lemma Regroup<T>(a: seq<T>, b: seq<T>, c: seq<T>)
    ensures (a + b) + c == a + (b + c)
  {
  }

  lemma FollowsMore(c: Config, d: Desk, e: Desk, acked: set<nat>, sent: nat, moreAcked: set<nat>, moreSent: nat)
    requires Follows(c, d, e, acked, sent) && acked <= moreAcked && sent <= moreSent
    ensures Follows(c, d, e, moreAcked, moreSent)
  {
  }

  lemma FollowsTwice(c: Config, d: Desk, e: Desk, f: Desk, acked: set<nat>, sent: nat, acked': set<nat>, sent': nat)
    requires Follows(c, d, e, acked, sent) && Follows(c, e, f, acked', sent')
    ensures Follows(c, d, f, acked + acked', sent + sent')
  {
  }

  /** The books, and both streams' entries in flight at most at the group's marks. */
  ghost predicate PlaceInv(c: Config, p: Place) {
    && Books(c, p.desk) && c.shared != c.own
    && Below(p.desk.inflight, c.shared, p.sharedMark) && Below(p.desk.inflight, c.own, p.ownMark)
  }

  lemma FreePlace(c: Config, p: Place, freed: Freed, sharedMark: nat, ownMark: nat)
    requires PlaceInv(c, p) && p.sharedMark <= sharedMark && p.ownMark <= ownMark
    ensures PlaceInv(c, Place(Free(p.desk, freed), sharedMark, ownMark, p.swapped))
    ensures Follows(c, p.desk, Free(p.desk, freed), freed.acked, freed.sent)
  {
    FreeKeeps(c, p.desk, freed);
  }

  lemma BeforeReadKeeps(c: Config, p: Place, t: Turn)
    requires PlaceInv(c, p)
    ensures var q := BeforeRead(c, p, t);
      && PlaceInv(c, q) && p.sharedMark <= q.sharedMark && p.ownMark <= q.ownMark
      && Follows(c, p.desk, q.desk, EarlyAcked(t), EarlySent(t))
  {
    var sharedMark, ownMark := Max(p.sharedMark, t.shared.others), Max(p.ownMark, t.own.others);
    var freed := Free(p.desk, t.before);
    FreePlace(c, p, t.before, sharedMark, ownMark);
    if Room(c, freed) > 0 && t.reclaim {
      ReclaimedKeeps(c, freed, c.shared, t.shared, sharedMark, c.own, ownMark);
      var mid := Reclaimed(c, freed, c.shared, t.shared, sharedMark);
      ReclaimedKeeps(c, mid, c.own, t.own, ownMark, c.shared, sharedMark);
      var last := Reclaimed(c, mid, c.own, t.own, ownMark);
      FollowsTwice(c, p.desk, freed, mid, t.before.acked, t.before.sent,
                   AckedBy(t.shared.claimAwaits), SentBy(t.shared.claimAwaits));
      FollowsTwice(c, p.desk, mid, last, t.before.acked + AckedBy(t.shared.claimAwaits),
                   t.before.sent + SentBy(t.shared.claimAwaits), AckedBy(t.own.claimAwaits), SentBy(t.own.claimAwaits));
    } else {
      FollowsMore(c, p.desk, freed, t.before.acked, t.before.sent, EarlyAcked(t), EarlySent(t));
    }
  }

  /** What a turn that reads delivers after its reclaim, in the order it serves the streams. */
  function TurnDeliveries(c: Config, p: Place, t: Turn): seq<Inflight> {
    if !Reads(c, p, t) then []
    else
      var (shared, own) := ReadBatches(c, p, t);
      if p.swapped then Deliveries(c.own, own, c.maxAttempts) + Deliveries(c.shared, shared, c.maxAttempts)
      else Deliveries(c.shared, shared, c.maxAttempts) + Deliveries(c.own, own, c.maxAttempts)
  }

  lemma MarksGrow(c: Config, p: Place, t: Turn)
    requires Reads(c, p, t)
    ensures var q, batches := BeforeRead(c, p, t), ReadBatches(c, p, t);
      q.sharedMark <= LastId(batches.0, q.sharedMark) && q.ownMark <= LastId(batches.1, q.ownMark)
  {
    var batches := ReadBatches(c, p, t);
    if batches.0 != [] { assert batches.0[|batches.0| - 1] in batches.0; }
    if batches.1 != [] { assert batches.1[|batches.1| - 1] in batches.1; }
  }

  /** What a turn does to the place: the books and the marks, which only grow, are kept, and
      after what was reclaimed exactly the deliverable entries read are delivered. */
  ghost predicate TurnFits(c: Config, p: Place, t: Turn, q: Place, after: Place) {
    && PlaceInv(c, after) && p.sharedMark <= after.sharedMark && p.ownMark <= after.ownMark
    && Follows(c, p.desk, after.desk, TurnAcked(t), TurnSent(t))
    && after.desk.log == q.desk.log + TurnDeliveries(c, p, t)
  }

  lemma TurnKeeps(c: Config, p: Place, t: Turn)
    requires PlaceInv(c, p) && Increasing(t.shared.visible) && Increasing(t.own.visible)
    ensures TurnFits(c, p, t, BeforeRead(c, p, t), TurnOf(c, p, t))
  {
    BeforeReadKeeps(c, p, t);
    var q := BeforeRead(c, p, t);
    if Reads(c, p, t) { ReadingFits(c, p, t, q); } else { SkippingFits(c, p, t, q); }
  }

  lemma SkippingFits(c: Config, p: Place, t: Turn, q: Place)
    requires q == BeforeRead(c, p, t) && PlaceInv(c, q) && !Reads(c, p, t)
    requires p.sharedMark <= q.sharedMark && p.ownMark <= q.ownMark
    requires Follows(c, p.desk, q.desk, EarlyAcked(t), EarlySent(t))
    ensures TurnOf(c, p, t) == q && TurnFits(c, p, t, q, q)
  {
    FollowsMore(c, p.desk, q.desk, EarlyAcked(t), EarlySent(t), TurnAcked(t), TurnSent(t));
    assert q.desk.log + [] == q.desk.log;
  }

  lemma ReadingFits(c: Config, p: Place, t: Turn, q: Place)
    requires q == BeforeRead(c, p, t) && PlaceInv(c, q) && Reads(c, p, t)
    requires p.sharedMark <= q.sharedMark && p.ownMark <= q.ownMark
    requires Follows(c, p.desk, q.desk, EarlyAcked(t), EarlySent(t))
    requires Increasing(t.shared.visible) && Increasing(t.own.visible)
    ensures TurnFits(c, p, t, q, TurnOf(c, p, t))
  {
    ReadingTurn(c, p, t, q);
    MarksGrow(c, p, t);
    FollowsTwice(c, p.desk, q.desk, TurnOf(c, p, t).desk, EarlyAcked(t), EarlySent(t), ReadAcked(t), ReadSent(t));
  }

  /** What the read of a turn does to the place before it. */
  lemma ReadingTurn(c: Config, p: Place, t: Turn, q: Place)
    requires q == BeforeRead(c, p, t) && PlaceInv(c, q) && Reads(c, p, t)
    requires Increasing(t.shared.visible) && Increasing(t.own.visible)
    ensures PlaceInv(c, TurnOf(c, p, t)) && TurnOf(c, p, t).desk.log == q.desk.log + TurnDeliveries(c, p, t)
    ensures Follows(c, q.desk, TurnOf(c, p, t).desk, ReadAcked(t), ReadSent(t))
  {
    var batches := ReadBatches(c, p, t);
    if p.swapped {
      OwnFirst(c, q, t, batches.0, batches.1);
    } else {
      SharedFirst(c, q, t, batches.0, batches.1);
    }
  }

  lemma SharedFirst(c: Config, q: Place, t: Turn, shared: seq<Item>, own: seq<Item>)
    requires PlaceInv(c, q) && Room(c, q.desk) > 0 && Increasing(t.shared.visible) && Increasing(t.own.visible)
    requires (shared, own) == RoundBatches(Room(c, q.desk), t.shared.visible, t.own.visible, q.sharedMark, q.ownMark)
    ensures var e := Round(c, q.desk, c.shared, c.own, t.shared, t.own, q.sharedMark, q.ownMark);
      && PlaceInv(c, Place(e, LastId(shared, q.sharedMark), LastId(own, q.ownMark), true))
      && e.log == q.desk.log + (Deliveries(c.shared, shared, c.maxAttempts) + Deliveries(c.own, own, c.maxAttempts))
      && Follows(c, q.desk, e, ReadAcked(t), ReadSent(t))
  {
    RoundKeeps(c, q.desk, c.shared, c.own, t.shared, t.own, q.sharedMark, q.ownMark, shared, own);
  }

  lemma OwnFirst(c: Config, q: Place, t: Turn, shared: seq<Item>, own: seq<Item>)
    requires PlaceInv(c, q) && Room(c, q.desk) > 0 && Increasing(t.shared.visible) && Increasing(t.own.visible)
    requires (own, shared) == RoundBatches(Room(c, q.desk), t.own.visible, t.shared.visible, q.ownMark, q.sharedMark)
    ensures var e := Round(c, q.desk, c.own, c.shared, t.own, t.shared, q.ownMark, q.sharedMark);
      && PlaceInv(c, Place(e, LastId(shared, q.sharedMark), LastId(own, q.ownMark), false))
      && e.log == q.desk.log + (Deliveries(c.own, own, c.maxAttempts) + Deliveries(c.shared, shared, c.maxAttempts))
      && Follows(c, q.desk, e, ReadAcked(t), ReadSent(t))
  {
    RoundKeeps(c, q.desk, c.own, c.shared, t.own, t.shared, q.ownMark, q.sharedMark, own, shared);
    var e := Round(c, q.desk, c.own, c.shared, t.own, t.shared, q.ownMark, q.sharedMark);
    FollowsMore(c, q.desk, e, AckedBy(t.own.readAwaits) + AckedBy(t.shared.readAwaits),
                SentBy(t.own.readAwaits) + SentBy(t.shared.readAwaits), ReadAcked(t), ReadSent(t));
  }

  /**
  The whole life of a session, over any turns: the limits hold, no two deliveries in flight
  name one entry, every delivery ever made is in flight unless it was acknowledged and in the
  outbound queue unless it was sent, and nothing else removes any.
   */
  lemma {:induction false} LoopKeeps(c: Config, turns: seq<Turn>)
    requires c.shared != c.own && Orderly(turns)
    ensures PlaceInv(c, LoopOf(c, turns)) && Follows(c, EMPTY, LoopOf(c, turns).desk, AllAcked(turns), AllSent(turns))
  {
    if turns != [] {
      var n := |turns| - 1;
      assert turns[n] in turns && forall t :: t in turns[..n] ==> t in turns;
      LoopKeeps(c, turns[..n]);
      TurnKeeps(c, LoopOf(c, turns[..n]), turns[n]);
    }
  }

  lemma Smaller<T>(a: set<T>, b: set<T>)
    requires a <= b
    ensures |a| <= |b|
  {
    if a != {} {
      var x :| x in a;
      Smaller(a - {x}, b - {x});
    }
  }

  class Session {
    const c: Config
    var inflight: map<nat, Inflight>
    var outbound: seq<nat>
    var nextDelivery: nat
    ghost var log: seq<Inflight>
    ghost var acked: set<nat>
    ghost var sent: nat

    ghost function View(): Desk reads this { Desk(inflight, outbound, nextDelivery, log, acked, sent) }

    constructor (c: Config)
      ensures View() == EMPTY && this.c == c
    {
      this.c := c;
      inflight, outbound, nextDelivery, log, acked, sent := map[], [], 0, [], {}, 0;
    }

    /** Other coroutines free capacity; they never use it. */
    method Release(freed: Freed)
      requires Books(c, View())
      modifies this
      ensures View() == Free(old(View()), freed) && Books(c, View()) && Room(c, View()) >= old(Room(c, View()))
    {
      FreeKeeps(c, View(), freed);
      var gone: nat := Min(freed.sent, |outbound|);
      acked := acked + freed.acked * inflight.Keys;
      inflight := inflight - freed.acked;
      sent := sent + gone;
      outbound := outbound[gone..];
    }

    /** `drop_oldest_outbound`: make room by giving up the oldest queued deliveries. */
    method DropOldest() returns (dropped: nat)
      modifies this`inflight, this`outbound
      ensures dropped as int == if c.maxOutbound == 0 || |old(outbound)| < c.maxOutbound then 0
                                else |old(outbound)| - c.maxOutbound + 1
      ensures dropped == 0 ==> inflight == old(inflight) && outbound == old(outbound)
      ensures dropped > 0 ==>
        && dropped <= |old(outbound)| && outbound == old(outbound)[dropped..]
        && inflight == old(inflight) - (set d | d in old(outbound)[..dropped])
    {
      dropped := 0;
      assert inflight - (set d | d in outbound[..0]) == inflight;
      while c.maxOutbound > 0 && |outbound| >= c.maxOutbound
        invariant dropped <= |old(outbound)| && outbound == old(outbound)[dropped..]
        invariant inflight == old(inflight) - (set d | d in old(outbound)[..dropped])
        invariant dropped > 0 ==> 0 < c.maxOutbound <= |old(outbound)| - dropped + 1
        decreases |outbound|
      {
        assert old(outbound)[..dropped + 1] == old(outbound)[..dropped] + [outbound[0]];
        inflight := inflight - {outbound[0]};
        outbound := outbound[1..];
        dropped := dropped + 1;
      }
    }

    /** `_deliver_entry`: an attempt out of range goes to the dead-letter queue, anything
        else is queued and tracked.  With capacity nothing queued earlier is dropped. */
    method Deliver(stream: string, item: Item) returns (deadLettered: bool)
      requires Books(c, View()) && Room(c, View()) >= 1 && !Flying(inflight, stream, item.entryId)
      modifies this
      ensures deadLettered <==> !(1 <= item.attempt <= c.maxAttempts)
      ensures View() == if deadLettered then old(View())
                        else Put(old(View()), Inflight(stream, item.entryId, item.attempt))
    {
      if !(1 <= item.attempt <= c.maxAttempts) { return true; }
      var dropped := DropOldest();
      if c.maxOutbound > 0 && |outbound| >= c.maxOutbound { assert false; }
      outbound := outbound + [nextDelivery];
      inflight := inflight[nextDelivery := Inflight(stream, item.entryId, item.attempt)];
      log := log + [Inflight(stream, item.entryId, item.attempt)];
      nextDelivery := nextDelivery + 1;
      deadLettered := false;
    }

    /** One entry, after whatever was freed before its turn. */
    method DeliverOne(stream: string, item: Item, freed: Freed, reclaimed: bool)
      requires Books(c, View()) && Room(c, View()) >= 1
      requires reclaimed || !Flying(inflight, stream, item.entryId)
      modifies this
      ensures View() == One(c, old(View()), stream, item, freed, reclaimed)
    {
      ghost var before := View();
      Release(freed);
      if Flying(inflight, stream, item.entryId) { FlyingLess(before.inflight, freed.acked, stream, item.entryId); }
      if !reclaimed && |inflight| >= c.maxInFlight { assert false; }
      if !(reclaimed && Flying(inflight, stream, item.entryId)) && !item.blank {
        var _ := Deliver(stream, item);
      }
    }

    /** The entries of one read or claim; the in-flight cap is never reached midway. */
    method DeliverBatch(stream: string, batch: seq<Item>, awaits: seq<Freed>, reclaimed: bool, ghost mark: nat)
      requires Books(c, View()) && |batch| <= Room(c, View()) && (reclaimed || Fresh(View(), stream, batch, mark))
      modifies this
      ensures View() == Batch(c, old(View()), stream, batch, awaits, reclaimed)
    {
      ghost var start := View();
      for i := 0 to |batch|
        invariant View() == Batch(c, start, stream, batch[..i], awaits, reclaimed)
      {
        BatchBooks(c, start, stream, batch, awaits, reclaimed, mark, i);
        assert batch[..i + 1][..i] == batch[..i];
        DeliverOne(stream, batch[i], At(awaits, i), reclaimed);
      }
      assert batch[..|batch|] == batch;
    }

    /** `_reclaim_pending`: claim idle entries within the free capacity and deliver them. */
    method Reclaim(stream: string, t: StreamTurn, delivered: nat)
      requires Books(c, View())
      modifies this
      ensures View() == Reclaimed(c, old(View()), stream, t, delivered)
    {
      var capacity := Available(|inflight|, |outbound|, c.maxInFlight, c.maxOutbound);
      if capacity <= 0 { return; }
      var batch := Claimed(t.idle, delivered, Min(c.batchSize, capacity));
      DeliverBatch(stream, batch, t.claimAwaits, true, delivered);
    }

    /** The read of `_stream_loop` and the delivery of what it returned. */
    method ReadRound(first: string, second: string, a: StreamTurn, b: StreamTurn, deliveredA: nat, deliveredB: nat)
      returns (one: seq<Item>, two: seq<Item>)
      requires Books(c, View()) && Room(c, View()) > 0 && first != second
      requires Increasing(a.visible) && Increasing(b.visible)
      requires Below(inflight, first, deliveredA) && Below(inflight, second, deliveredB)
      modifies this
      ensures (one, two) == RoundBatches(old(Room(c, View())), a.visible, b.visible, deliveredA, deliveredB)
      ensures View() == Round(c, old(View()), first, second, a, b, deliveredA, deliveredB)
    {
      var capacity := Available(|inflight|, |outbound|, c.maxInFlight, c.maxOutbound);
      var count := ReadCount(capacity);
      one := Newest(a.visible, deliveredA, count);
      two := if Selected(capacity) == 2 then Newest(b.visible, deliveredB, count) else [];
      RoundFits(capacity, a.visible, b.visible, deliveredA, deliveredB);
      ReadKeeps(c, View(), first, one, a.readAwaits, deliveredA, second, deliveredB);
      DeliverBatch(first, one, a.readAwaits, false, deliveredA);
      DeliverBatch(second, two, b.readAwaits, false, deliveredB);
    }

    /** One turn of `_stream_loop`. */
    method LoopTurn(t: Turn, swapped: bool, sharedMark: nat, ownMark: nat)
      returns (newShared: nat, newOwn: nat, swaps: bool)
      requires PlaceInv(c, Place(View(), sharedMark, ownMark, swapped))
      requires Increasing(t.shared.visible) && Increasing(t.own.visible)
      modifies this
      ensures Place(View(), newShared, newOwn, swaps) == TurnOf(c, Place(old(View()), sharedMark, ownMark, swapped), t)
    {
      ghost var p := Place(View(), sharedMark, ownMark, swapped);
      BeforeReadKeeps(c, p, t);
      newShared, newOwn, swaps := Max(sharedMark, t.shared.others), Max(ownMark, t.own.others), swapped;
      FreePlace(c, p, t.before, newShared, newOwn);
      Release(t.before);
      if Available(|inflight|, |outbound|, c.maxInFlight, c.maxOutbound) <= 0 { return; }
      if t.reclaim {
        ReclaimedKeeps(c, View(), c.shared, t.shared, newShared, c.own, newOwn);
        Reclaim(c.shared, t.shared, newShared);
        Reclaim(c.own, t.own, newOwn);
      }
      assert Place(View(), newShared, newOwn, swapped) == BeforeRead(c, p, t);
      if Available(|inflight|, |outbound|, c.maxInFlight, c.maxOutbound) <= 0 { return; }
      if swapped {
        var own, shared := ReadRound(c.own, c.shared, t.own, t.shared, newOwn, newShared);
        newShared, newOwn, swaps := LastId(shared, newShared), LastId(own, newOwn), false;
      } else {
        var shared, own := ReadRound(c.shared, c.own, t.shared, t.own, newShared, newOwn);
        newShared, newOwn, swaps := LastId(shared, newShared), LastId(own, newOwn), true;
      }
    }

    /** The loop of a new session. */
    method StreamLoop(turns: seq<Turn>)
      requires View() == EMPTY && c.shared != c.own && Orderly(turns)
      modifies this
      ensures View() == LoopOf(c, turns).desk && Books(c, View())
    {
      var sharedMark, ownMark, swapped := 0, 0, false;
      for i := 0 to |turns|
        invariant Place(View(), sharedMark, ownMark, swapped) == LoopOf(c, turns[..i])
      {
        LoopKeeps(c, turns[..i]);
        assert turns[..i + 1][..i] == turns[..i];
        sharedMark, ownMark, swapped := LoopTurn(turns[i], swapped, sharedMark, ownMark);
      }
      assert turns[..|turns|] == turns;
      LoopKeeps(c, turns);
    }
  }

  /** A session from its connection on. */
  method Serve(c: Config, turns: seq<Turn>) returns (session: Session)
    requires c.shared != c.own && Orderly(turns)
    ensures fresh(session) && session.c == c && session.View() == LoopOf(c, turns).desk
  {
    session := new Session(c);
    session.StreamLoop(turns);
  }
}
