/**
What a turn of a session's loop delivers, told from the entries it could have: which idle
entries it reclaims, which new entries it reads, and that there is nothing else.
 */
module DeliveryTurns {
  import opened DeliverySession

  /** The entry was in flight when the turn began, or the turn delivered it. */
  predicate Gets(d: Desk, e: Desk, stream: string, entryId: nat) {
    d.log <= e.log && (Flying(d.inflight, stream, entryId) || Named(e.log[|d.log|..], stream, entryId))
  }

  /** How many entries satisfy `p`. */
  function Count(p: Item -> bool, items: seq<Item>): nat { Before(p, items, |items|) }

  /** Of the first `budget` items satisfying `p`, every deliverable one gets to the session. */
  ghost predicate ServesFirst(c: Config, d: Desk, e: Desk, stream: string, items: seq<Item>, p: Item -> bool,
                              budget: int)
  {
    forall i :: 0 <= i < |items| && p(items[i]) && Before(p, items, i) < budget && Goes(items[i], c.maxAttempts) ==>
      Gets(d, e, stream, items[i].entryId)
  }

  // ----- reclaiming -----

  lemma GetsLater(d: Desk, e: Desk, f: Desk, stream: string, entryId: nat)
    requires Gets(d, e, stream, entryId) && e.log <= f.log
    ensures Gets(d, f, stream, entryId)
  {
    if Named(e.log[|d.log|..], stream, entryId) { NamedLonger(e.log, f.log, |d.log|, stream, entryId); }
  }

  /** What is delivered from a later desk on, or in flight there, was or is delivered. */
  lemma GetsEarlier(c: Config, d: Desk, e: Desk, f: Desk, stream: string, entryId: nat)
    requires Books(c, d) && Books(c, e) && d.log <= e.log <= f.log && d.acked <= e.acked
    requires Gets(e, f, stream, entryId)
    ensures Gets(d, f, stream, entryId)
  {
    if Flying(e.inflight, stream, entryId) {
      FlyingSince(c, d, e, stream, entryId);
      GetsLater(d, e, f, stream, entryId);
    } else {
      var x :| x in f.log[|e.log|..] && Names(x, stream, entryId);
      var i :| 0 <= i < |f.log| - |e.log| && f.log[|e.log|..][i] == x;
      assert f.log[|d.log|..][i + |e.log| - |d.log|] == x;
    }
  }

  /** Reclaiming from one stream serves its idle pending entries within the budget. */
  lemma ReclaimServes(c: Config, d: Desk, stream: string, t: StreamTurn, mark: nat, other: string, otherMark: nat)
    requires Books(c, d) && other != stream && Below(d.inflight, stream, mark) && Below(d.inflight, other, otherMark)
    ensures var e := Reclaimed(c, d, stream, t, mark);
      && ServesFirst(c, d, e, stream, t.idle, Pending(mark), Min(c.batchSize, Room(c, d)))
      && Room(c, e) >= Room(c, d) - Min(c.batchSize, Count(Pending(mark), t.idle))
      && Books(c, e) && d.log <= e.log && d.acked <= e.acked
      && Below(e.inflight, stream, mark) && Below(e.inflight, other, otherMark)
  {
    ReclaimedKeeps(c, d, stream, t, mark, other, otherMark);
    var e := Reclaimed(c, d, stream, t, mark);
    if Room(c, d) > 0 {
      var count: nat := Min(c.batchSize, Room(c, d));
      var batch := Claimed(t.idle, mark, count);
      FirstSize(Pending(mark), t.idle, count);
      BatchKeeps(c, d, stream, batch, t.claimAwaits, true, mark);
      forall i | 0 <= i < |t.idle| && Pending(mark)(t.idle[i]) && Before(Pending(mark), t.idle, i) < count
                 && Goes(t.idle[i], c.maxAttempts)
        ensures Gets(d, e, stream, t.idle[i].entryId)
      {
        FirstTakes(Pending(mark), t.idle, count, i);
        assert ClaimsDelivered(c, d, e, stream, batch);
      }
    }
  }

  lemma ServesLater(c: Config, d: Desk, e: Desk, f: Desk, stream: string, items: seq<Item>, p: Item -> bool,
                    budget: int)
    requires ServesFirst(c, d, e, stream, items, p, budget) && e.log <= f.log
    ensures ServesFirst(c, d, f, stream, items, p, budget)
  {
    forall i | 0 <= i < |items| && p(items[i]) && Before(p, items, i) < budget && Goes(items[i], c.maxAttempts)
      ensures Gets(d, f, stream, items[i].entryId)
    {
      GetsLater(d, e, f, stream, items[i].entryId);
    }
  }

  lemma ServesEarlier(c: Config, d: Desk, e: Desk, f: Desk, stream: string, items: seq<Item>, p: Item -> bool,
                      budget: int, less: int)
    requires Books(c, d) && Books(c, e) && d.log <= e.log <= f.log && d.acked <= e.acked && less <= budget
    requires ServesFirst(c, e, f, stream, items, p, budget)
    ensures ServesFirst(c, d, f, stream, items, p, less)
  {
    forall i | 0 <= i < |items| && p(items[i]) && Before(p, items, i) < less && Goes(items[i], c.maxAttempts)
      ensures Gets(d, f, stream, items[i].entryId)
    {
      GetsEarlier(c, d, e, f, stream, items[i].entryId);
    }
  }

  // ----- reading -----

  lemma {:induction false} DeliveriesName(stream: string, batch: seq<Item>, maxAttempts: nat, x: Item)
    requires x in batch && Goes(x, maxAttempts)
    ensures Named(Deliveries(stream, batch, maxAttempts), stream, x.entryId)
  {
    var n := |batch| - 1;
    var all := Deliveries(stream, batch, maxAttempts);
    if batch[n] == x {
      var y := Inflight(stream, x.entryId, x.attempt);
      assert y in all && Names(y, stream, x.entryId);
    } else {
      DeliveriesName(stream, batch[..n], maxAttempts, x);
      var y :| y in Deliveries(stream, batch[..n], maxAttempts) && Names(y, stream, x.entryId);
      assert y in all;
    }
  }

  lemma NamedIn(part: seq<Inflight>, all: seq<Inflight>, stream: string, entryId: nat)
    requires Named(part, stream, entryId) && forall x :: x in part ==> x in all
    ensures Named(all, stream, entryId)
  {
  }

  /** A batch that is delivered in full serves the first entries it was taken from. */
  lemma BatchServes(c: Config, d: Desk, e: Desk, stream: string, visible: seq<Item>, mark: nat, count: nat, budget: int)
    requires d.log <= e.log && budget <= count
    requires forall y :: y in Deliveries(stream, Newest(visible, mark, count), c.maxAttempts) ==> y in e.log[|d.log|..]
    ensures ServesFirst(c, d, e, stream, visible, New(mark), budget)
  {
    var batch := Newest(visible, mark, count);
    forall i | 0 <= i < |visible| && New(mark)(visible[i]) && Before(New(mark), visible, i) < budget
               && Goes(visible[i], c.maxAttempts)
      ensures Gets(d, e, stream, visible[i].entryId)
    {
      FirstTakes(New(mark), visible, count, i);
      DeliveriesName(stream, batch, c.maxAttempts, visible[i]);
      NamedIn(Deliveries(stream, batch, c.maxAttempts), e.log[|d.log|..], stream, visible[i].entryId);
    }
  }

  lemma MoreCapacity(less: nat, more: nat)
    requires 0 < less <= more
    ensures ReadCount(less) <= ReadCount(more) && Selected(less) <= Selected(more)
  {
  }

  /** How many entries a turn may claim before its read. */
  function ClaimBudget(c: Config, t: Turn, sharedMark: nat, ownMark: nat): nat {
    if t.reclaim
    then Min(c.batchSize, Count(Pending(sharedMark), t.shared.idle))
         + Min(c.batchSize, Count(Pending(ownMark), t.own.idle))
    else 0
  }

  /** A turn that reclaims serves the idle entries of both streams that were delivered before,
      the shared stream's first, within the room and the batch size. */
  ghost predicate Reclaims(c: Config, p: Place, t: Turn, after: Place, room: int, sharedMark: nat, ownMark: nat) {
    t.reclaim && room > 0 ==>
      && ServesFirst(c, p.desk, after.desk, c.shared, t.shared.idle, Pending(sharedMark), Min(c.batchSize, room))
      && ServesFirst(c, p.desk, after.desk, c.own, t.own.idle, Pending(ownMark), Min(c.batchSize,
           room - Min(c.batchSize, Count(Pending(sharedMark), t.shared.idle))))
  }

  /** With `left` places it reads new entries of the stream whose turn it is and, if there are
      two, of the other; then the streams change places. */
  ghost predicate ReadsOn(c: Config, p: Place, t: Turn, after: Place, left: int, sharedMark: nat, ownMark: nat) {
    left >= 1 ==>
      && after.swapped == !p.swapped
      && (!p.swapped || left >= 2 ==>
            ServesFirst(c, p.desk, after.desk, c.shared, t.shared.visible, New(sharedMark), ReadCount(left)))
      && (p.swapped || left >= 2 ==>
            ServesFirst(c, p.desk, after.desk, c.own, t.own.visible, New(ownMark), ReadCount(left)))
  }

  /** Until its read a turn frees what others freed and reclaims from the shared stream, then
      from its own. */
  lemma ReclaimsFirst(c: Config, p: Place, t: Turn, q: Place, room: int, sharedMark: nat, ownMark: nat)
    requires PlaceInv(c, p) && q == BeforeRead(c, p, t) && room == Room(c, Free(p.desk, t.before))
    requires sharedMark == Max(p.sharedMark, t.shared.others) && ownMark == Max(p.ownMark, t.own.others)
    ensures Reclaims(c, p, t, q, room, sharedMark, ownMark)
  {
    var freed := Free(p.desk, t.before);
    FreePlace(c, p, t.before, sharedMark, ownMark);
    if t.reclaim && room > 0 {
      ReclaimsBoth(c, freed, t, sharedMark, ownMark, room);
      FromFreed(c, p, t, freed, q, room, sharedMark, ownMark);
    }
  }

  lemma ReclaimLeaves(c: Config, p: Place, t: Turn, q: Place, room: int, sharedMark: nat, ownMark: nat)
    requires PlaceInv(c, p) && q == BeforeRead(c, p, t) && room == Room(c, Free(p.desk, t.before))
    requires sharedMark == Max(p.sharedMark, t.shared.others) && ownMark == Max(p.ownMark, t.own.others)
    ensures q == Place(q.desk, sharedMark, ownMark, p.swapped) && p.desk.log <= q.desk.log
    ensures room > 0 ==> Room(c, q.desk) >= room - ClaimBudget(c, t, sharedMark, ownMark)
    ensures room <= 0 ==> q.desk == Free(p.desk, t.before)
  {
    FreePlace(c, p, t.before, sharedMark, ownMark);
    if t.reclaim && room > 0 { ReclaimsBoth(c, Free(p.desk, t.before), t, sharedMark, ownMark, room); }
  }

  lemma FromFreed(c: Config, p: Place, t: Turn, freed: Desk, q: Place, room: int, sharedMark: nat, ownMark: nat)
    requires Books(c, p.desk) && Books(c, freed) && p.desk.log <= freed.log && p.desk.acked <= freed.acked
    requires freed.log <= q.desk.log
    requires Reclaims(c, Place(freed, sharedMark, ownMark, p.swapped), t, q, room, sharedMark, ownMark)
    ensures Reclaims(c, p, t, q, room, sharedMark, ownMark)
  {
    if t.reclaim && room > 0 {
      var left := room - Min(c.batchSize, Count(Pending(sharedMark), t.shared.idle));
      ServesEarlier(c, p.desk, freed, q.desk, c.shared, t.shared.idle, Pending(sharedMark),
                    Min(c.batchSize, room), Min(c.batchSize, room));
      ServesEarlier(c, p.desk, freed, q.desk, c.own, t.own.idle, Pending(ownMark),
                    Min(c.batchSize, left), Min(c.batchSize, left));
    }
  }

  lemma ReclaimsBoth(c: Config, d: Desk, t: Turn, sharedMark: nat, ownMark: nat, room: int)
    requires Books(c, d) && c.shared != c.own && Below(d.inflight, c.shared, sharedMark)
    requires Below(d.inflight, c.own, ownMark) && room == Room(c, d) > 0 && t.reclaim
    ensures var mid := Reclaimed(c, d, c.shared, t.shared, sharedMark);
      var last := Reclaimed(c, mid, c.own, t.own, ownMark);
      && d.log <= last.log && Room(c, last) >= room - ClaimBudget(c, t, sharedMark, ownMark)
      && Reclaims(c, Place(d, sharedMark, ownMark, false), t, Place(last, 0, 0, false), room, sharedMark, ownMark)
  {
    ReclaimServes(c, d, c.shared, t.shared, sharedMark, c.own, ownMark);
    var mid := Reclaimed(c, d, c.shared, t.shared, sharedMark);
    ReclaimServes(c, mid, c.own, t.own, ownMark, c.shared, sharedMark);
    var last := Reclaimed(c, mid, c.own, t.own, ownMark);
    var left := room - Min(c.batchSize, Count(Pending(sharedMark), t.shared.idle));
    ServesLater(c, d, mid, last, c.shared, t.shared.idle, Pending(sharedMark), Min(c.batchSize, room));
    ServesEarlier(c, d, mid, last, c.own, t.own.idle, Pending(ownMark),
                  Min(c.batchSize, Room(c, mid)), Min(c.batchSize, left));
  }

  /** The read of a turn serves the stream whose turn it is and, with room for two, the other. */
  lemma ReadsNext(c: Config, p: Place, t: Turn, q: Place, room: nat)
    requires PlaceInv(c, p) && q == BeforeRead(c, p, t) && Increasing(t.shared.visible) && Increasing(t.own.visible)
    requires p.desk.log <= q.desk.log && Room(c, Free(p.desk, t.before)) > 0 && 1 <= room <= Room(c, q.desk)
    ensures ReadsOn(c, p, t, TurnOf(c, p, t), room, q.sharedMark, q.ownMark)
  {
    var after := TurnOf(c, p, t);
    TurnLog(c, p, t, q, after);
    BatchesAre(c, p, t, q, room);
    var count := ReadCount(Room(c, q.desk));
    if !p.swapped || room >= 2 {
      BatchServes(c, p.desk, after.desk, c.shared, t.shared.visible, q.sharedMark, count, ReadCount(room));
    }
    if p.swapped || room >= 2 {
      BatchServes(c, p.desk, after.desk, c.own, t.own.visible, q.ownMark, count, ReadCount(room));
    }
  }

  lemma BatchesAre(c: Config, p: Place, t: Turn, q: Place, room: nat)
    requires q == BeforeRead(c, p, t) && Reads(c, p, t) && 1 <= room <= Room(c, q.desk)
    ensures ReadCount(room) <= ReadCount(Room(c, q.desk))
    ensures var (shared, own) := ReadBatches(c, p, t);
      var count := ReadCount(Room(c, q.desk));
      && (!p.swapped || room >= 2 ==> shared == Newest(t.shared.visible, q.sharedMark, count))
      && (p.swapped || room >= 2 ==> own == Newest(t.own.visible, q.ownMark, count))
  {
    MoreCapacity(room, Room(c, q.desk));
  }

  lemma InSuffix(log: seq<Inflight>, more: seq<Inflight>, start: nat, y: Inflight)
    requires start <= |log| && y in more
    ensures y in (log + more)[start..]
  {
    var i :| 0 <= i < |more| && more[i] == y;
    assert (log + more)[start..][|log| - start + i] == y;
  }

  lemma TurnLog(c: Config, p: Place, t: Turn, q: Place, after: Place)
    requires PlaceInv(c, p) && Increasing(t.shared.visible) && Increasing(t.own.visible) && Reads(c, p, t)
    requires q == BeforeRead(c, p, t) && after == TurnOf(c, p, t) && p.desk.log <= q.desk.log
    ensures p.desk.log <= after.desk.log && after.swapped == !p.swapped
    ensures var (shared, own) := ReadBatches(c, p, t);
      && (forall y :: y in Deliveries(c.shared, shared, c.maxAttempts) ==> y in after.desk.log[|p.desk.log|..])
      && (forall y :: y in Deliveries(c.own, own, c.maxAttempts) ==> y in after.desk.log[|p.desk.log|..])
  {
    BeforeReadKeeps(c, p, t);
    ReadingTurn(c, p, t, q);
    TurnHas(c, p, t, q, after, c.shared, ReadBatches(c, p, t).0);
    TurnHas(c, p, t, q, after, c.own, ReadBatches(c, p, t).1);
  }

  lemma TurnHas(c: Config, p: Place, t: Turn, q: Place, after: Place, stream: string, batch: seq<Item>)
    requires Reads(c, p, t) && p.desk.log <= q.desk.log && after.desk.log == q.desk.log + TurnDeliveries(c, p, t)
    requires (stream, batch) == (c.shared, ReadBatches(c, p, t).0) || (stream, batch) == (c.own, ReadBatches(c, p, t).1)
    ensures forall y :: y in Deliveries(stream, batch, c.maxAttempts) ==> y in after.desk.log[|p.desk.log|..]
  {
    var part, all := Deliveries(stream, batch, c.maxAttempts), TurnDeliveries(c, p, t);
    forall y | y in part ensures y in after.desk.log[|p.desk.log|..] {
      assert y in all;
      InSuffix(q.desk.log, all, |p.desk.log|, y);
    }
  }

  // ----- the marks skip nothing -----

  lemma {:induction false} FirstOnly(p: Item -> bool, items: seq<Item>, count: nat, j: nat)
    requires Increasing(items) && j < |items| && items[j] in First(p, items, count)
    ensures Before(p, items, j) < count
  {
    if j > 0 {
      BeforeShift(p, items, j);
      AboveFirst(items);
      assert items[j] in items[1..];
      FirstOnly(p, items[1..], if p(items[0]) then count - 1 else count, j - 1);
    }
  }

  lemma {:induction false} BeforeGrows(p: Item -> bool, items: seq<Item>, i: nat, j: nat)
    requires i <= j <= |items|
    ensures Before(p, items, i) <= Before(p, items, j)
  {
    if i < j { BeforeGrows(p, items, i, j - 1); }
  }

  /** Everything new up to the last entry of a read is part of it. */
  lemma NothingSkipped(visible: seq<Item>, mark: nat, count: nat, x: Item)
    requires Increasing(visible) && x in visible && mark < x.entryId <= LastId(Newest(visible, mark, count), mark)
    ensures x in Newest(visible, mark, count)
  {
    var batch := Newest(visible, mark, count);
    var last := batch[|batch| - 1];
    assert last in batch;
    var i :| 0 <= i < |visible| && visible[i] == x;
    var j :| 0 <= j < |visible| && visible[j] == last;
    FirstOnly(New(mark), visible, count, j);
    BeforeGrows(New(mark), visible, i, j);
    FirstTakes(New(mark), visible, count, i);
  }

  /** Of the entries between two marks, every deliverable one was delivered. */
  ghost predicate MarkPasses(c: Config, d: Desk, e: Desk, stream: string, visible: seq<Item>, was: nat, now: nat) {
    forall x :: x in visible && was < x.entryId <= now && Goes(x, c.maxAttempts) ==> Gets(d, e, stream, x.entryId)
  }

  lemma ReadPasses(c: Config, d: Desk, e: Desk, stream: string, visible: seq<Item>, mark: nat, count: nat)
    requires Increasing(visible) && d.log <= e.log
    requires forall y :: y in Deliveries(stream, Newest(visible, mark, count), c.maxAttempts) ==> y in e.log[|d.log|..]
    ensures MarkPasses(c, d, e, stream, visible, mark, LastId(Newest(visible, mark, count), mark))
  {
    var batch := Newest(visible, mark, count);
    forall x | x in visible && mark < x.entryId <= LastId(batch, mark) && Goes(x, c.maxAttempts)
      ensures Gets(d, e, stream, x.entryId)
    {
      NothingSkipped(visible, mark, count, x);
      DeliveriesName(stream, batch, c.maxAttempts, x);
      NamedIn(Deliveries(stream, batch, c.maxAttempts), e.log[|d.log|..], stream, x.entryId);
    }
  }

  lemma MarksPass(c: Config, p: Place, t: Turn, q: Place, after: Place)
    requires PlaceInv(c, p) && q == BeforeRead(c, p, t) && Increasing(t.shared.visible) && Increasing(t.own.visible)
    requires p.desk.log <= q.desk.log && after == TurnOf(c, p, t)
    ensures p.desk.log <= after.desk.log
    ensures MarkPasses(c, p.desk, after.desk, c.shared, t.shared.visible, q.sharedMark, after.sharedMark)
    ensures MarkPasses(c, p.desk, after.desk, c.own, t.own.visible, q.ownMark, after.ownMark)
  {
    if Reads(c, p, t) {
      TurnLog(c, p, t, q, after);
      var capacity: nat := Room(c, q.desk);
      var shared, own := ReadBatches(c, p, t).0, ReadBatches(c, p, t).1;
      if shared != [] {
        ReadPasses(c, p.desk, after.desk, c.shared, t.shared.visible, q.sharedMark, ReadCount(capacity));
      }
      if own != [] { ReadPasses(c, p.desk, after.desk, c.own, t.own.visible, q.ownMark, ReadCount(capacity)); }
    }
  }

  // ----- nothing else is delivered -----

  /** The delivery is of a deliverable one of these entries. */
  predicate Of(y: Inflight, stream: string, items: seq<Item>, maxAttempts: nat) {
    exists x | x in items :: Goes(x, maxAttempts) && y == Inflight(stream, x.entryId, x.attempt)
  }

  ghost predicate Adds(c: Config, d: Desk, e: Desk, stream: string, items: seq<Item>) {
    d.log <= e.log && forall k :: |d.log| <= k < |e.log| ==> Of(e.log[k], stream, items, c.maxAttempts)
  }

  lemma {:induction false} BatchAdds(c: Config, d: Desk, stream: string, items: seq<Item>, awaits: seq<Freed>,
                                     reclaimed: bool, all: seq<Item>)
    requires forall x :: x in items ==> x in all
    ensures Adds(c, d, Batch(c, d, stream, items, awaits, reclaimed), stream, all)
  {
    if items != [] {
      var n := |items| - 1;
      BatchAdds(c, d, stream, items[..n], awaits, reclaimed, all);
      assert items[n] in all;
    }
  }

  /** The turn of one of the two streams had this entry, idle or visible. */
  predicate FromTurn(c: Config, t: Turn, y: Inflight) {
    || Of(y, c.shared, t.shared.idle + t.shared.visible, c.maxAttempts)
    || Of(y, c.own, t.own.idle + t.own.visible, c.maxAttempts)
  }

  ghost predicate OnlyFromTurn(c: Config, t: Turn, d: Desk, e: Desk) {
    d.log <= e.log && forall k :: |d.log| <= k < |e.log| ==> FromTurn(c, t, e.log[k])
  }

  lemma StreamOnly(c: Config, t: Turn, d: Desk, stream: string, items: seq<Item>, awaits: seq<Freed>, reclaimed: bool)
    requires
      || (stream == c.shared && forall x :: x in items ==> x in t.shared.idle + t.shared.visible)
      || (stream == c.own && forall x :: x in items ==> x in t.own.idle + t.own.visible)
    ensures OnlyFromTurn(c, t, d, Batch(c, d, stream, items, awaits, reclaimed))
  {
    var all :=
      if stream == c.shared && forall x :: x in items ==> x in t.shared.idle + t.shared.visible
      then t.shared.idle + t.shared.visible else t.own.idle + t.own.visible;
    BatchAdds(c, d, stream, items, awaits, reclaimed, all);
  }

  lemma OnlyTwice(c: Config, t: Turn, d: Desk, e: Desk, f: Desk)
    requires OnlyFromTurn(c, t, d, e) && OnlyFromTurn(c, t, e, f)
    ensures OnlyFromTurn(c, t, d, f)
  {
    forall k | |d.log| <= k < |f.log| ensures FromTurn(c, t, f.log[k]) {
      if k < |e.log| { assert f.log[k] == e.log[k]; }
    }
  }

  lemma ReclaimOnly(c: Config, p: Place, t: Turn, q: Place)
    requires q == BeforeRead(c, p, t)
    ensures OnlyFromTurn(c, t, p.desk, q.desk)
  {
    var freed := Free(p.desk, t.before);
    if t.reclaim && Room(c, freed) > 0 {
      var sharedMark, ownMark := Max(p.sharedMark, t.shared.others), Max(p.ownMark, t.own.others);
      var mid := Reclaimed(c, freed, c.shared, t.shared, sharedMark);
      StreamOnly(c, t, freed, c.shared, Claimed(t.shared.idle, sharedMark, Min(c.batchSize, Room(c, freed))),
                 t.shared.claimAwaits, true);
      if Room(c, mid) > 0 {
        StreamOnly(c, t, mid, c.own, Claimed(t.own.idle, ownMark, Min(c.batchSize, Room(c, mid))),
                   t.own.claimAwaits, true);
        OnlyTwice(c, t, freed, mid, q.desk);
      }
    }
  }

  lemma TurnOnly(c: Config, p: Place, t: Turn)
    ensures OnlyFromTurn(c, t, p.desk, TurnOf(c, p, t).desk)
  {
    var q := BeforeRead(c, p, t);
    ReclaimOnly(c, p, t, q);
    if Reads(c, p, t) {
      var shared, own := ReadBatches(c, p, t).0, ReadBatches(c, p, t).1;
      if p.swapped {
        var mid := Batch(c, q.desk, c.own, own, t.own.readAwaits, false);
        StreamOnly(c, t, q.desk, c.own, own, t.own.readAwaits, false);
        StreamOnly(c, t, mid, c.shared, shared, t.shared.readAwaits, false);
        OnlyTwice(c, t, q.desk, mid, TurnOf(c, p, t).desk);
      } else {
        var mid := Batch(c, q.desk, c.shared, shared, t.shared.readAwaits, false);
        StreamOnly(c, t, q.desk, c.shared, shared, t.shared.readAwaits, false);
        StreamOnly(c, t, mid, c.own, own, t.own.readAwaits, false);
        OnlyTwice(c, t, q.desk, mid, TurnOf(c, p, t).desk);
      }
      OnlyTwice(c, t, p.desk, q.desk, TurnOf(c, p, t).desk);
    }
  }

  // ----- the whole turn -----

  /** All that a turn does for the entries of both streams. */
  ghost predicate Serves(c: Config, p: Place, t: Turn, after: Place, room: int, sharedMark: nat, ownMark: nat) {
    && Reclaims(c, p, t, after, room, sharedMark, ownMark)
    && (room > 0 ==> ReadsOn(c, p, t, after, room - ClaimBudget(c, t, sharedMark, ownMark), sharedMark, ownMark))
    && MarkPasses(c, p.desk, after.desk, c.shared, t.shared.visible, sharedMark, after.sharedMark)
    && MarkPasses(c, p.desk, after.desk, c.own, t.own.visible, ownMark, after.ownMark)
    && OnlyFromTurn(c, t, p.desk, after.desk)
    && (room <= 0 ==> after == Place(Free(p.desk, t.before), sharedMark, ownMark, p.swapped))
  }

  lemma TurnReclaims(c: Config, p: Place, t: Turn, q: Place, after: Place, room: int, sharedMark: nat, ownMark: nat)
    requires q.desk.log <= after.desk.log && Reclaims(c, p, t, q, room, sharedMark, ownMark)
    ensures Reclaims(c, p, t, after, room, sharedMark, ownMark)
  {
    if t.reclaim && room > 0 {
      var left := room - Min(c.batchSize, Count(Pending(sharedMark), t.shared.idle));
      ServesLater(c, p.desk, q.desk, after.desk, c.shared, t.shared.idle, Pending(sharedMark), Min(c.batchSize, room));
      ServesLater(c, p.desk, q.desk, after.desk, c.own, t.own.idle, Pending(ownMark), Min(c.batchSize, left));
    }
  }

  lemma WithoutRoom(c: Config, p: Place, t: Turn, q: Place)
    requires q == BeforeRead(c, p, t) && Room(c, Free(p.desk, t.before)) <= 0
    ensures TurnOf(c, p, t) == q
  {
  }

  /**
  What one turn of the loop does for the entries of both streams.  It reclaims and it reads,
  each up to its budget; the group's marks pass no deliverable entry that was not delivered;
  what it delivers are deliverable entries of the two streams and nothing else; and without
  room it delivers nothing.
   */
  lemma TurnServes(c: Config, p: Place, t: Turn, after: Place, room: int, sharedMark: nat, ownMark: nat)
    requires PlaceInv(c, p) && Increasing(t.shared.visible) && Increasing(t.own.visible)
    requires room == Room(c, Free(p.desk, t.before)) && after == TurnOf(c, p, t)
    requires sharedMark == Max(p.sharedMark, t.shared.others) && ownMark == Max(p.ownMark, t.own.others)
    ensures Serves(c, p, t, after, room, sharedMark, ownMark)
  {
    var q := BeforeRead(c, p, t);
    StillReclaims(c, p, t, q, after, room, sharedMark, ownMark);
    if room > 0 { ThenReads(c, p, t, q, after, room, sharedMark, ownMark); }
    PassesNothing(c, p, t, q, after, room, sharedMark, ownMark);
    TurnOnly(c, p, t);
  }

  lemma StillReclaims(c: Config, p: Place, t: Turn, q: Place, after: Place, room: int, sharedMark: nat, ownMark: nat)
    requires PlaceInv(c, p) && Increasing(t.shared.visible) && Increasing(t.own.visible)
    requires room == Room(c, Free(p.desk, t.before)) && q == BeforeRead(c, p, t) && after == TurnOf(c, p, t)
    requires sharedMark == Max(p.sharedMark, t.shared.others) && ownMark == Max(p.ownMark, t.own.others)
    ensures Reclaims(c, p, t, after, room, sharedMark, ownMark)
  {
    ReclaimsFirst(c, p, t, q, room, sharedMark, ownMark);
    LogGrows(c, p, t, q);
    TurnReclaims(c, p, t, q, after, room, sharedMark, ownMark);
  }

  lemma ThenReads(c: Config, p: Place, t: Turn, q: Place, after: Place, room: int, sharedMark: nat, ownMark: nat)
    requires PlaceInv(c, p) && Increasing(t.shared.visible) && Increasing(t.own.visible)
    requires room == Room(c, Free(p.desk, t.before)) > 0 && q == BeforeRead(c, p, t) && after == TurnOf(c, p, t)
    requires sharedMark == Max(p.sharedMark, t.shared.others) && ownMark == Max(p.ownMark, t.own.others)
    ensures ReadsOn(c, p, t, after, room - ClaimBudget(c, t, sharedMark, ownMark), sharedMark, ownMark)
  {
    ReclaimLeaves(c, p, t, q, room, sharedMark, ownMark);
    ReadsLeft(c, p, t, q, after, room - ClaimBudget(c, t, sharedMark, ownMark));
  }

  lemma ReadsLeft(c: Config, p: Place, t: Turn, q: Place, after: Place, left: int)
    requires PlaceInv(c, p) && Increasing(t.shared.visible) && Increasing(t.own.visible)
    requires q == BeforeRead(c, p, t) && after == TurnOf(c, p, t) && p.desk.log <= q.desk.log
    requires Room(c, Free(p.desk, t.before)) > 0 && left <= Room(c, q.desk)
    ensures ReadsOn(c, p, t, after, left, q.sharedMark, q.ownMark)
  {
    if left >= 1 { ReadsNext(c, p, t, q, left); }
  }

  lemma PassesNothing(c: Config, p: Place, t: Turn, q: Place, after: Place, room: int, sharedMark: nat, ownMark: nat)
    requires PlaceInv(c, p) && Increasing(t.shared.visible) && Increasing(t.own.visible)
    requires room == Room(c, Free(p.desk, t.before)) && q == BeforeRead(c, p, t) && after == TurnOf(c, p, t)
    requires sharedMark == Max(p.sharedMark, t.shared.others) && ownMark == Max(p.ownMark, t.own.others)
    ensures MarkPasses(c, p.desk, after.desk, c.shared, t.shared.visible, sharedMark, after.sharedMark)
    ensures MarkPasses(c, p.desk, after.desk, c.own, t.own.visible, ownMark, after.ownMark)
    ensures room <= 0 ==> after == Place(Free(p.desk, t.before), sharedMark, ownMark, p.swapped)
  {
    ReclaimLeaves(c, p, t, q, room, sharedMark, ownMark);
    MarksPass(c, p, t, q, after);
    if room <= 0 { WithoutRoom(c, p, t, q); }
  }

  lemma LogGrows(c: Config, p: Place, t: Turn, q: Place)
    requires PlaceInv(c, p) && q == BeforeRead(c, p, t) && Increasing(t.shared.visible) && Increasing(t.own.visible)
    ensures q.desk.log <= TurnOf(c, p, t).desk.log
  {
    if Reads(c, p, t) {
      BeforeReadKeeps(c, p, t);
      ReadingTurn(c, p, t, q);
    }
  }

  /** Over any turns each turn of a session serves its entries like that. */
  lemma LoopServes(c: Config, turns: seq<Turn>, n: nat, p: Place, after: Place)
    requires c.shared != c.own && Orderly(turns) && n < |turns|
    requires p == LoopOf(c, turns[..n]) && after == LoopOf(c, turns[..n + 1])
    ensures Serves(c, p, turns[n], after, Room(c, Free(p.desk, turns[n].before)),
                   Max(p.sharedMark, turns[n].shared.others), Max(p.ownMark, turns[n].own.others))
  {
    assert turns[..n + 1][..n] == turns[..n] && turns[n] in turns;
    OrderlyPart(turns, n);
    LoopKeeps(c, turns[..n]);
    TurnServes(c, p, turns[n], after, Room(c, Free(p.desk, turns[n].before)),
               Max(p.sharedMark, turns[n].shared.others), Max(p.ownMark, turns[n].own.others));
  }

  lemma OrderlyPart(turns: seq<Turn>, n: nat)
    requires Orderly(turns) && n <= |turns|
    ensures Orderly(turns[..n])
  {
    assert forall t :: t in turns[..n] ==> t in turns;
  }
}
