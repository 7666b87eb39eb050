/**
The circuit breaker of one target.  `_transition` is a function on status snapshots;
`_apply_event` reads the stored hash under WATCH and writes only changed states, so the
events of all brokers form one sequence.  Times are seconds of one clock that does not go back.
 */
module Circuit {
  import opened Options

  datatype State = Closed | Open | HalfOpen

  datatype Kind = Check | Success | Failure

  datatype Config = Config(failureThreshold: nat, successThreshold: nat, timeout: real, window: real) {
    predicate Valid() { failureThreshold >= 1 && successThreshold >= 1 && timeout > 0.0 && window > 0.0 }

    /** How long a written hash stays: the ceiling of the longer of window and two timeouts. */
    function Lifetime(): (r: real)
      ensures r >= window && r >= 2.0 * timeout
      ensures r.Floor as real == r && (r - 1.0 < window || r - 1.0 < 2.0 * timeout)
    {
      var longest := if window < 2.0 * timeout then 2.0 * timeout else window;
      if longest.Floor as real == longest then longest else (longest.Floor + 1) as real
    }
  }

  datatype Status = Status(state: State, failures: nat, successes: nat,
                           lastFailure: Option<real>, openedAt: Option<real>) {
    predicate Allowed() { state != Open }
  }

  const INITIAL := Status(Closed, 0, 0, None, None)

  /** An attempt reads the hash at `read`, the clock at `at` and, if it changes the state,
      writes at `written`. */
  datatype Event = Event(kind: Kind, read: real, at: real, written: real)

  /** The timeout rule, applied before any event is recorded. */
  function Checked(c: Config, s: Status, now: real): Status {
    if s.state == Open && s.openedAt.Some? && now - s.openedAt.value >= c.timeout
    then s.(state := HalfOpen, successes := 0) else s
  }

  function Recorded(c: Config, s: Status, kind: Kind, now: real): Status {
    match kind
    case Check => s
    case Success =>
      if s.state == HalfOpen then
        if s.successes + 1 >= c.successThreshold then INITIAL else s.(successes := s.successes + 1)
      else if s.state == Closed && s.failures != 0 then s.(failures := 0, lastFailure := None)
      else s
    case Failure =>
      var kept := if s.lastFailure.None? || now - s.lastFailure.value > c.window then 0 else s.failures;
      var failed := s.(failures := kept + 1, lastFailure := Some(now));
      if s.state == HalfOpen || (s.state == Closed && kept + 1 >= c.failureThreshold)
      then failed.(state := Open, openedAt := Some(now), successes := 0) else failed
  }

  /** `_transition`: the admission state and the recorded state. */
  function Transition(c: Config, s: Status, kind: Kind, now: real): (Status, Status) {
    var checked := Checked(c, s, now);
    (checked, Recorded(c, checked, kind, now))
  }

  datatype Stored = Absent | Present(status: Status, expires: real)

  function Read(k: Stored, now: real): Status {
    if k.Present? && now <= k.expires then k.status else INITIAL
  }

  function Outcome(c: Config, k: Stored, e: Event): Status {
    Transition(c, Read(k, e.read), e.kind, e.at).1
  }

  predicate Writes(c: Config, k: Stored, e: Event) { Outcome(c, k, e) != Read(k, e.read) }

  /** `_apply_event`: an unchanged state is not written and keeps its expiry. */
  function Apply(c: Config, k: Stored, e: Event): Stored {
    if Writes(c, k, e) then Present(Outcome(c, k, e), e.written + c.Lifetime()) else k
  }

  function Run(c: Config, k: Stored, events: seq<Event>): Stored {
    if events == [] then k else Apply(c, Run(c, k, events[..|events| - 1]), events[|events| - 1])
  }

  /**
  The times of `events` on one clock.  A writing event takes its place at its write: WATCH
  lets no other write, and no expiry of a key it has read, come between its read and its
  write.  An event that writes nothing takes its place at its read, wherever that falls,
  also between the read and the write of another.
   */
  ghost predicate Timed(c: Config, k: Stored, events: seq<Event>) {
    events == [] || (
      var n := |events| - 1;
      Timed(c, k, events[..n]) && Placed(c, Run(c, k, events[..n]), Settled(c, k, events[..n]), events[n]))
  }

  /** The last write and the last time anything was read or written. */
  function Settled(c: Config, k: Stored, events: seq<Event>): (real, real) {
    if events == [] then (0.0, 0.0)
    else
      var n := |events| - 1;
      var (write, last) := Settled(c, k, events[..n]);
      if Writes(c, Run(c, k, events[..n]), events[n]) then (events[n].written, events[n].written)
      else (write, if last < events[n].read then events[n].read else last)
  }

  ghost predicate Placed(c: Config, k: Stored, settled: (real, real), e: Event) {
    && settled.0 <= e.read <= e.at <= e.written
    && (Writes(c, k, e) ==>
          && settled.1 <= e.written
          && (k.Present? && e.read <= k.expires ==> e.written <= k.expires))
  }

  /** The recorded outcomes, without the mere checks. */
  function Outcomes(events: seq<Event>): seq<Event> {
    if events == [] then []
    else Outcomes(events[..|events| - 1]) + if events[|events| - 1].kind == Check then [] else [events[|events| - 1]]
  }

  /** The last `k` outcomes are failures at most `window` apart, and no longer such run
      ends the list. */
  ghost predicate TrailingFailures(h: seq<Event>, k: nat, window: real) {
    && k <= |h|
    && (forall i :: |h| - k <= i < |h| ==> h[i].kind == Failure)
    && (forall i :: |h| - k < i < |h| ==> h[i].at - h[i - 1].at <= window)
    && (k < |h| ==> h[|h| - k - 1].kind != Failure || (k > 0 && h[|h| - k].at - h[|h| - k - 1].at > window))
  }

  ghost predicate TrailingSuccesses(h: seq<Event>, k: nat) {
    k <= |h| && forall i :: |h| - k <= i < |h| ==> h[i].kind == Success
  }

  /** The failures of `h` are too old for an event at `now` to continue their run. */
  ghost predicate Stale(h: seq<Event>, now: real, window: real) {
    h == [] || h[|h| - 1].kind == Success || now - h[|h| - 1].at > window
  }

  /** How an unexpired status summarises the outcomes so far. */
  ghost predicate Summary(c: Config, s: Status, h: seq<Event>) {
    && (s.state == Closed ==>
          && TrailingFailures(h, s.failures, c.window) && s.failures < c.failureThreshold
          && s.lastFailure == if s.failures == 0 then None else Some(h[|h| - 1].at))
    && (s.state == HalfOpen ==> s.successes < c.successThreshold && TrailingSuccesses(h, s.successes))
    && (s.state == Open ==> s.openedAt.Some?)
  }

  ghost predicate FailedLast(h: seq<Event>) { h != [] && h[|h| - 1].kind == Failure }

  ghost predicate OutcomesOf(h: seq<Event>) { forall i :: 0 <= i < |h| ==> h[i].kind != Check }

  /** The stored hash after everything up to `last`: it outlasts the window of its last
      failure, and while unexpired summarises the history. */
  ghost predicate Inv(c: Config, k: Stored, h: seq<Event>, last: real) {
    && OutcomesOf(h)
    && (FailedLast(h) ==> k.Present? && h[|h| - 1].at <= last && h[|h| - 1].at + c.window <= k.expires)
    && (k.Present? && last <= k.expires ==> Summary(c, k.status, h))
  }

  /** What a broker reads: a summary of the history, or the initial status of a history whose
      failures are too old to matter. */
  ghost predicate ReadsAs(c: Config, s: Status, h: seq<Event>, now: real) {
    Summary(c, s, h) || (s == INITIAL && Stale(h, now, c.window))
  }

  lemma ReadSummary(c: Config, k: Stored, h: seq<Event>, last: real, now: real)
    requires Inv(c, k, h, last) && (last <= now || !k.Present? || now > k.expires)
    ensures ReadsAs(c, Read(k, now), h, now)
  {
  }

  lemma FailureSummary(c: Config, s: Status, h: seq<Event>, e: Event)
    requires c.Valid() && e.kind == Failure && ReadsAs(c, s, h, e.at) && OutcomesOf(h)
    ensures Summary(c, Recorded(c, s, Failure, e.at), h + [e])
  {
    var r, h' := Recorded(c, s, Failure, e.at), h + [e];
    if r.state == Closed {
      assert h'[|h|] == e && h'[..|h|] == h;
    }
  }

  lemma SuccessSummary(c: Config, s: Status, h: seq<Event>, e: Event)
    requires c.Valid() && e.kind == Success && ReadsAs(c, s, h, e.at)
    ensures Summary(c, Recorded(c, s, Success, e.at), h + [e])
  {
    var h' := h + [e];
    assert h'[|h|] == e;
  }

  /** Failures always write, so only checks and successes can leave a state unchanged. */
  lemma FailuresWrite(c: Config, k: Stored, e: Event)
    requires c.Valid() && e.kind == Failure
    ensures Writes(c, k, e)
  {
  }

  function Extended(h: seq<Event>, e: Event): seq<Event> { if e.kind == Check then h else h + [e] }

  /** Whether the event reads before or after the expiry, what it reads is right. */
  lemma PlacedReads(c: Config, k: Stored, h: seq<Event>, settled: (real, real), e: Event)
    requires c.Valid() && Inv(c, k, h, settled.1) && Placed(c, k, settled, e) && settled.0 <= settled.1
    ensures Writes(c, k, e) ==> ReadsAs(c, Read(k, e.read), h, e.at)
    ensures !Writes(c, k, e) && e.read >= settled.1 ==> ReadsAs(c, Read(k, e.read), h, e.at)
  {
  }

  lemma ApplyKeeps(c: Config, k: Stored, h: seq<Event>, settled: (real, real), e: Event, last: real)
    requires c.Valid() && Inv(c, k, h, settled.1) && Placed(c, k, settled, e) && settled.0 <= settled.1
    requires last == if Writes(c, k, e) then e.written else if settled.1 < e.read then e.read else settled.1
    ensures Inv(c, Apply(c, k, e), Extended(h, e), last)
  {
    PlacedReads(c, k, h, settled, e);
    var checked := Checked(c, Read(k, e.read), e.at);
    if Writes(c, k, e) {
      assert ReadsAs(c, checked, h, e.at);
      match e.kind
      case Check =>
      case Success => SuccessSummary(c, checked, h, e);
      case Failure => FailureSummary(c, checked, h, e);
    } else if e.kind == Failure {
      FailuresWrite(c, k, e);
      assert false;
    } else if e.kind == Success {
      var h' := h + [e];
      assert h'[|h|] == e;
    }
  }

  lemma {:induction false} SettledOrder(c: Config, k: Stored, events: seq<Event>)
    requires Timed(c, k, events)
    ensures Settled(c, k, events).0 <= Settled(c, k, events).1
  {
    if events != [] { SettledOrder(c, k, events[..|events| - 1]); }
  }

  lemma {:induction false} RunKeeps(c: Config, events: seq<Event>)
    requires c.Valid() && Timed(c, Absent, events)
    ensures Inv(c, Run(c, Absent, events), Outcomes(events), Settled(c, Absent, events).1)
  {
    if events != [] {
      var n := |events| - 1;
      RunKeeps(c, events[..n]);
      SettledOrder(c, Absent, events[..n]);
      var k, h, settled := Run(c, Absent, events[..n]), Outcomes(events[..n]), Settled(c, Absent, events[..n]);
      ApplyKeeps(c, k, h, settled, events[n], Settled(c, Absent, events).1);
      assert Outcomes(events) == Extended(h, events[n]);
    }
  }

  /**
  Over every sequence of events of any brokers, what is read at any later time summarises the
  event history: while closed, the failure count is the length of the trailing run of failures
  with gaps within the window, below the threshold; while half-open, the success count is a
  trailing run of successes; and an expired key loses nothing a next failure could continue.
   */
  lemma CountersRefineHistory(c: Config, events: seq<Event>, now: real)
    requires c.Valid() && Timed(c, Absent, events) && Settled(c, Absent, events).1 <= now
    ensures ReadsAs(c, Read(Run(c, Absent, events), now), Outcomes(events), now)
  {
    RunKeeps(c, events);
    ReadSummary(c, Run(c, Absent, events), Outcomes(events), Settled(c, Absent, events).1, now);
  }

  /** A half-open circuit closes only when the last `successThreshold` outcomes succeeded. */
  lemma ClosingNeedsSuccesses(c: Config, events: seq<Event>, e: Event)
    requires c.Valid() && Timed(c, Absent, events + [e])
    requires var k := Run(c, Absent, events);
      Checked(c, Read(k, e.read), e.at).state == HalfOpen && Outcome(c, k, e).state == Closed
    ensures TrailingSuccesses(Outcomes(events + [e]), c.successThreshold)
  {
    assert (events + [e])[..|events|] == events && (events + [e])[|events|] == e;
    RunKeeps(c, events);
    SettledOrder(c, Absent, events);
    var k, h := Run(c, Absent, events), Outcomes(events);
    PlacedReads(c, k, h, Settled(c, Absent, events), e);
    assert Outcomes(events + [e]) == Extended(h, e);
  }

  /** An open circuit as its opening event left it. */
  ghost predicate Shut(c: Config, k: Stored, since: real) {
    && k.Present? && k.status.state == Open && k.status.openedAt == Some(since)
    && since + 2.0 * c.timeout <= k.expires
  }

  lemma OpeningIsTimed(c: Config, k: Stored, e: Event)
    requires c.Valid() && e.read <= e.at <= e.written
    requires Checked(c, Read(k, e.read), e.at).state != Open && Read(Apply(c, k, e), e.written).state == Open
    ensures Shut(c, Apply(c, k, e), e.at)
  {
  }

  /** Until the timeout has passed since opening, no event of any broker is admitted. */
  lemma {:induction false} NoEarlyReadmission(c: Config, k: Stored, since: real, events: seq<Event>)
    requires c.Valid() && Shut(c, k, since)
    requires forall i :: 0 <= i < |events| ==>
      since <= events[i].read <= events[i].at <= events[i].written && events[i].at < since + c.timeout
    ensures Shut(c, Run(c, k, events), since)
    ensures forall now :: since <= now < since + c.timeout ==>
      !Checked(c, Read(Run(c, k, events), now), now).Allowed()
  {
    if events != [] {
      NoEarlyReadmission(c, k, since, events[..|events| - 1]);
    }
  }

  /** A stored circuit that is not closed admits as closed exactly once its key has expired. */
  lemma ExpiryCloses(c: Config, k: Stored, now: real)
    requires k.Present? && k.status.state != Closed
    ensures Checked(c, Read(k, now), now).state == Closed <==> now > k.expires
    ensures now > k.expires ==> Read(k, now) == INITIAL
  {
  }

  /** A stored circuit that is not closed keeps the time of its opening, and its key outlasts
      two timeouts from then: expiry never closes it earlier. */
  ghost predicate Outlasts(c: Config, k: Stored) {
    k.Present? && k.status.state != Closed ==>
      k.status.openedAt.Some? && k.status.openedAt.value + 2.0 * c.timeout <= k.expires
  }

  lemma {:induction false} ExpiryComesLate(c: Config, events: seq<Event>)
    requires c.Valid() && Timed(c, Absent, events)
    ensures Outlasts(c, Run(c, Absent, events))
    ensures Opened(Run(c, Absent, events), Settled(c, Absent, events).0)
    ensures var k := Run(c, Absent, events);
      k.Present? && k.status.state != Closed ==>
        forall now :: Read(k, now).state == Closed ==> now > k.status.openedAt.value + 2.0 * c.timeout
  {
    if events != [] {
      ExpiryComesLate(c, events[..|events| - 1]);
    }
  }

  /** An opening lies before the last write. */
  ghost predicate Opened(k: Stored, write: real) {
    k.Present? && k.status.openedAt.Some? ==> k.status.openedAt.value <= write
  }

  /** A circuit opened at 0 and half-open from 1 on, with a timeout of one second, is closed
      at 4 without a single success. */
  lemma ClosedWithoutSuccess()
    ensures var c := Config(1, 1, 1.0, 1.0);
      var events := [Event(Failure, 0.0, 0.0, 0.0), Event(Check, 1.0, 1.0, 1.0)];
      && Timed(c, Absent, events) && (forall i :: 0 <= i < |events| ==> events[i].kind != Success)
      && Run(c, Absent, events).Present? && Run(c, Absent, events).status.state == HalfOpen
      && Read(Run(c, Absent, events), 4.0).state == Closed
  {
    var c := Config(1, 1, 1.0, 1.0);
    var a, b := Event(Failure, 0.0, 0.0, 0.0), Event(Check, 1.0, 1.0, 1.0);
    var events := [a, b];
    assert events[..1] == [a] && [a][..0] == [];
    assert c.Lifetime() == 2.0 by { assert (2.0).Floor == 2; }
    assert Run(c, Absent, []) == Absent && Settled(c, Absent, []) == (0.0, 0.0) && Timed(c, Absent, []);
    var open := Present(Status(Open, 1, 0, Some(0.0), Some(0.0)), 2.0);
    assert Apply(c, Absent, a) == open;
    assert Run(c, Absent, [a]) == open && Settled(c, Absent, [a]) == (0.0, 0.0) && Timed(c, Absent, [a]);
    var half := Present(Status(HalfOpen, 1, 0, Some(0.0), Some(0.0)), 3.0);
    assert Apply(c, open, b) == half;
    assert Run(c, Absent, events) == half;
  }

  // ----- what every outcome does -----

  /** A history ends in one run of failures. */
  lemma TrailingUnique(h: seq<Event>, j: nat, k: nat, window: real)
    requires TrailingFailures(h, j, window) && TrailingFailures(h, k, window)
    ensures j == k
  {
  }

  /** How long the run of failures is that this failure ends. */
  lemma FailureRun(c: Config, s: Status, h: seq<Event>, e: Event)
    requires c.Valid() && e.kind == Failure && s.state == Closed && ReadsAs(c, s, h, e.at) && OutcomesOf(h)
    ensures TrailingFailures(h + [e], Recorded(c, s, Failure, e.at).failures, c.window)
    ensures Recorded(c, s, Failure, e.at).state == Open <==>
      Recorded(c, s, Failure, e.at).failures >= c.failureThreshold
  {
    var h' := h + [e];
    assert h'[|h|] == e && h'[..|h|] == h;
  }

  /**
  Over every run, a failure opens a closed circuit if and only if it ends a run of at least
  `failureThreshold` failures with gaps within the window, and then at its own time.
   */
  lemma OpensIff(c: Config, events: seq<Event>, e: Event, run: nat)
    requires c.Valid() && Timed(c, Absent, events + [e]) && e.kind == Failure
    requires Checked(c, Read(Run(c, Absent, events), e.read), e.at).state == Closed
    requires TrailingFailures(Outcomes(events + [e]), run, c.window)
    ensures var after := Outcome(c, Run(c, Absent, events), e);
      && (after.state == Open <==> run >= c.failureThreshold)
      && (after.state == Open ==> after.openedAt == Some(e.at) && after.successes == 0)
      && (after.state != Open ==> after.state == Closed && after.failures == run)
  {
    assert (events + [e])[..|events|] == events && (events + [e])[|events|] == e;
    RunKeeps(c, events);
    SettledOrder(c, Absent, events);
    var k, h := Run(c, Absent, events), Outcomes(events);
    FailuresWrite(c, k, e);
    PlacedReads(c, k, h, Settled(c, Absent, events), e);
    assert Outcomes(events + [e]) == h + [e];
    var s := Read(k, e.read);
    FailureRun(c, s, h, e);
    TrailingUnique(h + [e], run, Recorded(c, s, Failure, e.at).failures, c.window);
  }

  /** A failure while half-open opens the circuit again, at its time and from no success. */
  lemma FailureReopens(c: Config, s: Status, now: real)
    requires s.state == HalfOpen
    ensures var after := Recorded(c, s, Failure, now);
      after.state == Open && after.openedAt == Some(now) && after.successes == 0 && after.lastFailure == Some(now)
  {
  }

  /** Every one of these outcomes is read before the key it finds expires. */
  ghost predicate AllRead(c: Config, k: Stored, events: seq<Event>) {
    forall i :: 0 <= i < |events| ==>
      Run(c, k, events[..i]).Present? && events[i].read <= Run(c, k, events[..i]).expires
  }

  /** A half-open circuit counts its successes and closes with exactly the one that completes
      the threshold. */
  lemma {:induction false} SuccessesClose(c: Config, k: Stored, events: seq<Event>)
    requires c.Valid() && k.Present? && k.status.state == HalfOpen && k.status.successes < c.successThreshold
    requires AllRead(c, k, events) && forall i :: 0 <= i < |events| ==> events[i].kind == Success
    requires k.status.successes + |events| <= c.successThreshold
    ensures var after := Run(c, k, events);
      && after.Present?
      && (if k.status.successes + |events| == c.successThreshold then after.status == INITIAL
          else after.status.state == HalfOpen && after.status.successes == k.status.successes + |events|)
  {
    if events != [] {
      var n := |events| - 1;
      assert forall i :: 0 <= i < n ==> events[..n][..i] == events[..i] && events[..n][i] == events[i];
      SuccessesClose(c, k, events[..n]);
      assert events[n].kind == Success;
      OneSuccess(c, Run(c, k, events[..n]), events[n]);
    }
  }

  lemma OneSuccess(c: Config, k: Stored, e: Event)
    requires c.Valid() && k.Present? && k.status.state == HalfOpen && k.status.successes < c.successThreshold
    requires e.kind == Success && e.read <= k.expires
    ensures Apply(c, k, e).Present?
    ensures Apply(c, k, e).status
      == if k.status.successes + 1 == c.successThreshold then INITIAL
         else k.status.(successes := k.status.successes + 1)
  {
    assert Outcome(c, k, e) != k.status;
  }

  /** An open circuit admits, as half-open without successes, exactly once its timeout is over. */
  lemma ReadmitsIff(c: Config, k: Stored, since: real, now: real)
    requires c.Valid() && Shut(c, k, since) && now <= k.expires
    ensures var s := Checked(c, Read(k, now), now);
      && (s.Allowed() <==> now - since >= c.timeout)
      && (s.Allowed() ==> s.state == HalfOpen && s.successes == 0)
  {
  }

  class CircuitKey {
    var stored: Stored

    /**
    `_apply_event`.  Round 0 is the plain read, later rounds run under WATCH; `others[i]` is
    what other brokers left in the key after round `i` read it.  A round that changes nothing
    answers at once; otherwise only the last round, which met no interference, writes.
     */
    method ApplyEvent(c: Config, rounds: seq<Event>, others: seq<Stored>)
      returns (checked: Status, recorded: Status, last: nat)
      requires |rounds| == |others| + 1 && |others| >= 1
      modifies this
      ensures last < |rounds|
      ensures var before, e := (if last == 0 then old(stored) else others[last - 1]), rounds[last];
        && (checked, recorded) == Transition(c, Read(before, e.read), e.kind, e.at)
        && stored == Apply(c, before, e)
        && (Writes(c, before, e) ==> last == |others|)
    {
      last := 0;
      while last < |others|
        invariant last <= |others|
        invariant stored == if last == 0 then old(stored) else others[last - 1]
      {
        var original := Read(stored, rounds[last].read);
        var both := Transition(c, original, rounds[last].kind, rounds[last].at);
        checked, recorded := both.0, both.1;
        if recorded == original { return; }
        stored := others[last];
        last := last + 1;
      }
      var original := Read(stored, rounds[last].read);
      var both := Transition(c, original, rounds[last].kind, rounds[last].at);
      checked, recorded := both.0, both.1;
      if recorded != original { stored := Present(recorded, rounds[last].written + c.Lifetime()); }
    }

    /**
    `resolve_check`: a snapshot read earlier answers alone if it is due no transition, and
    then nothing is written; otherwise the check runs on the current key.  Either way the
    answer is the checked state of a key that some read of the call has seen.
     */
    method ResolveCheck(c: Config, snapshot: Stored, e: Event, rounds: seq<Event>, others: seq<Stored>)
      returns (status: Status, ghost seen: Stored, ghost via: Event)
      requires e.kind == Check && |rounds| == |others| + 1 && |others| >= 1
      requires forall i :: 0 <= i < |rounds| ==> rounds[i].kind == Check
      modifies this
      ensures status == Checked(c, Read(seen, via.read), via.at)
      ensures !Writes(c, snapshot, e) ==> seen == snapshot && via == e && stored == old(stored)
      ensures Writes(c, snapshot, e) ==>
        via in rounds && (seen == old(stored) || seen in others) && stored == Apply(c, seen, via)
      ensures forall since :: Shut(c, seen, since) && since <= via.read <= via.at < since + c.timeout && c.Valid() ==>
        !status.Allowed()
    {
      var original := Read(snapshot, e.read);
      var both := Transition(c, original, Check, e.at);
      if both.1 == original {
        status, seen, via := both.0, snapshot, e;
        return;
      }
      var checked, recorded, last := ApplyEvent(c, rounds, others);
      status, via := checked, rounds[last];
      seen := if last == 0 then old(stored) else others[last - 1];
    }
  }
}
