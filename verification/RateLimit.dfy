/**
The sliding-window rate limiter of one agent: two sorted sets of admission times, pruned
and extended by one script, each with an expiry renewed by every admission.  A call reads
the broker's clock; its script runs later, and expiry counts from the run.  Times are seconds.
 */
module RateLimit {
  const MINUTE: real := 60.0
  const HOUR: real := 3600.0

  datatype WindowName = Minute | Hour

  datatype Call = Call(read: real, run: real)

  /** The scores of a sorted set, in the order they were added, and the expiry of its key. */
  datatype Window = Window(scores: seq<real>, expires: real)

  datatype Limits = Limits(perMinute: nat, perHour: nat)

  /** `opening` is when the oldest score of the deciding window leaves it. */
  datatype Verdict = Verdict(allowed: bool, limit: nat, remaining: nat, opening: real, window: WindowName)

  datatype Result = Result(allowed: bool, limit: nat, remaining: nat, reset: real, window: WindowName)

  datatype State = State(minute: Window, hour: Window)

  const EMPTY := State(Window([], 0.0), Window([], 0.0))

  function Part(s: State, name: WindowName): Window { if name == Minute then s.minute else s.hour }

  function Length(name: WindowName): real { if name == Minute then MINUTE else HOUR }

  function Limit(limits: Limits, name: WindowName): nat { if name == Minute then limits.perMinute else limits.perHour }

  /** The scores above `cutoff`: what `ZREMRANGEBYSCORE -inf cutoff` leaves. */
  function Above(scores: seq<real>, cutoff: real): seq<real> {
    if scores == [] then []
    else Above(scores[..|scores| - 1], cutoff) + if scores[|scores| - 1] > cutoff then [scores[|scores| - 1]] else []
  }

  /** The scores a call counts; a key that has expired when its script runs has none. */
  function Current(w: Window, call: Call, length: real): seq<real> {
    if call.run > w.expires then [] else Above(w.scores, call.read - length)
  }

  /** `ZRANGE key 0 0`: the lowest score. */
  function Oldest(scores: seq<real>): (low: real)
    requires scores != []
    ensures low in scores && forall x :: x in scores ==> low <= x
  {
    var n := |scores| - 1;
    assert scores == scores[..n] + [scores[n]];
    if n == 0 then scores[n]
    else
      var rest := Oldest(scores[..n]);
      if scores[n] < rest then scores[n] else rest
  }

  /** When the oldest score leaves its window. */
  function Opening(scores: seq<real>, read: real, length: real): real {
    if scores == [] then read + length else Oldest(scores) + length
  }

  /** `tostring` prints 14 significant digits: four decimals of a time in seconds since 1970,
      rounded to the nearest, halves to even. */
  function Printed(x: real): real {
    var scaled := x * 10000.0;
    var low, rest := scaled.Floor, scaled - scaled.Floor as real;
    (if rest < 0.5 || (rest == 0.5 && low % 2 == 0) then low else low + 1) as real / 10000.0
  }

  /** Both windows have room for the call. */
  predicate Allowed(s: State, call: Call, limits: Limits) {
    |Current(s.minute, call, MINUTE)| < limits.perMinute && |Current(s.hour, call, HOUR)| < limits.perHour
  }

  /** A window after the call: pruned, and extended if the call was admitted. */
  function Touched(w: Window, call: Call, length: real, admitted: bool): Window {
    var counted := Current(w, call, length);
    if admitted then Window(counted + [call.read], call.run + length) else Window(counted, w.expires)
  }

  function Step(s: State, call: Call, limits: Limits): State {
    var allowed := Allowed(s, call, limits);
    State(Touched(s.minute, call, MINUTE, allowed), Touched(s.hour, call, HOUR, allowed))
  }

  /** The script's verdict, from the scores before and after. */
  function Judge(s: State, call: Call, limits: Limits): Verdict {
    var minute, hour := Current(s.minute, call, MINUTE), Current(s.hour, call, HOUR);
    if |minute| >= limits.perMinute then
      Verdict(false, limits.perMinute, 0, Opening(minute, call.read, MINUTE), Minute)
    else if |hour| >= limits.perHour then
      Verdict(false, limits.perHour, 0, Opening(hour, call.read, HOUR), Hour)
    else
      var minuteLeft, hourLeft := limits.perMinute - |minute| - 1, limits.perHour - |hour| - 1;
      if hourLeft < minuteLeft
      then Verdict(true, limits.perHour, hourLeft, Opening(hour + [call.read], call.read, HOUR), Hour)
      else Verdict(true, limits.perMinute, minuteLeft, Opening(minute + [call.read], call.read, MINUTE), Minute)
  }

  /** What the script replies: the opening is printed. */
  function Reply(v: Verdict): Result { Result(v.allowed, v.limit, v.remaining, Printed(v.opening), v.window) }

  /** `_RATE_LIMIT_SCRIPT`. */
  function Script(s: State, call: Call, limits: Limits): (State, Result) {
    (Step(s, call, limits), Reply(Judge(s, call, limits)))
  }

  /** Calls in the order their scripts run. */
  datatype Calls = Start | Then(before: Calls, last: Call)

  function Run(calls: Calls, limits: Limits): State {
    match calls
    case Start => EMPTY
    case Then(before, last) => Step(Run(before, limits), last, limits)
  }

  /** The times at which admitted calls read the clock. */
  function Admitted(calls: Calls, limits: Limits): seq<real> {
    match calls
    case Start => []
    case Then(before, last) =>
      if Allowed(Run(before, limits), last, limits)
      then Admitted(before, limits) + [last.read] else Admitted(before, limits)
  }

  /** Admissions in `(low, low + length]`. */
  function CountAfter(times: seq<real>, low: real, length: real): nat {
    if times == [] then 0
    else CountAfter(times[..|times| - 1], low, length) + if low < times[|times| - 1] <= low + length then 1 else 0
  }

  /** Admissions in `[low, low + length)`. */
  function CountFrom(times: seq<real>, low: real, length: real): nat {
    if times == [] then 0
    else CountFrom(times[..|times| - 1], low, length) + if low <= times[|times| - 1] < low + length then 1 else 0
  }

  // ----- counting -----

  lemma {:induction false} AboveTwice(scores: seq<real>, low: real, high: real)
    requires low <= high
    ensures Above(Above(scores, low), high) == Above(scores, high)
    ensures |Above(scores, high)| <= |Above(scores, low)|
  {
    if scores != [] {
      var n := |scores| - 1;
      AboveTwice(scores[..n], low, high);
      if scores[n] > low { assert Above(scores, low)[..|Above(scores, low)| - 1] == Above(scores[..n], low); }
      else { assert Above(scores, low) == Above(scores[..n], low); }
    }
  }

  lemma {:induction false} AboveMembers(scores: seq<real>, cutoff: real)
    ensures forall x :: x in Above(scores, cutoff) <==> x in scores && x > cutoff
    ensures |Above(scores, cutoff)| <= |scores|
  {
    if scores != [] { AboveMembers(scores[..|scores| - 1], cutoff); }
  }

  lemma AboveAppend(scores: seq<real>, x: real, cutoff: real)
    ensures Above(scores + [x], cutoff) == Above(scores, cutoff) + if x > cutoff then [x] else []
  {
    assert (scores + [x])[..|scores|] == scores;
  }

  lemma {:induction false} AboveAll(scores: seq<real>, cutoff: real)
    requires forall x :: x in scores ==> x > cutoff
    ensures Above(scores, cutoff) == scores
  {
    if scores != [] {
      var n := |scores| - 1;
      assert scores[n] in scores && forall x :: x in scores[..n] ==> x in scores;
      AboveAll(scores[..n], cutoff);
      assert scores == scores[..n] + [scores[n]];
    }
  }

  lemma {:induction false} AboveDrops(scores: seq<real>, x: real, cutoff: real)
    requires x in scores && x <= cutoff
    ensures |Above(scores, cutoff)| < |scores|
  {
    var n := |scores| - 1;
    if x in scores[..n] { AboveDrops(scores[..n], x, cutoff); } else { AboveMembers(scores[..n], cutoff); }
  }

  /** Raising a cutoff keeps the count exactly if nothing lies between. */
  lemma AboveSame(scores: seq<real>, low: real, high: real)
    requires low <= high
    ensures |Above(scores, high)| == |Above(scores, low)| <==> NoneBetween(scores, low, high)
  {
    AboveTwice(scores, low, high);
    AboveMembers(scores, low);
    if NoneBetween(scores, low, high) {
      AboveAll(Above(scores, low), high);
    } else {
      var x :| x in scores && low < x <= high;
      AboveDrops(Above(scores, low), x, high);
    }
  }

  lemma {:induction false} CountsBelowAbove(times: seq<real>, low: real, length: real, cutoff: real)
    ensures cutoff <= low ==> CountAfter(times, low, length) <= |Above(times, cutoff)|
    ensures cutoff < low ==> CountFrom(times, low, length) <= |Above(times, cutoff)|
  {
    if times != [] { CountsBelowAbove(times[..|times| - 1], low, length, cutoff); }
  }

  /** No window of this length, closed at either end, holds more admissions than the limit. */
  ghost predicate Bounded(admitted: seq<real>, length: real, limit: nat) {
    && (forall low :: CountAfter(admitted, low, length) <= limit)
    && (forall low :: CountFrom(admitted, low, length) <= limit)
  }

  /** An admission that counted everything above its own window keeps every window within the
      limit, also when later readings were admitted before. */
  lemma AdmitBounded(admitted: seq<real>, read: real, length: real, limit: nat)
    requires Bounded(admitted, length, limit) && length > 0.0 && |Above(admitted, read - length)| < limit
    ensures Bounded(admitted + [read], length, limit)
  {
    var more := admitted + [read];
    assert more[..|admitted|] == admitted;
    forall low ensures CountAfter(more, low, length) <= limit {
      CountsBelowAbove(admitted, low, length, read - length);
      assert CountAfter(admitted, low, length) <= limit;
    }
    forall low ensures CountFrom(more, low, length) <= limit {
      CountsBelowAbove(admitted, low, length, read - length);
      assert CountFrom(admitted, low, length) <= limit;
    }
  }

  // ----- what a call counts -----

  ghost predicate AllBelow(admitted: seq<real>, cutoff: real) { forall a :: a in admitted ==> a <= cutoff }

  ghost predicate NoneBetween(admitted: seq<real>, low: real, high: real) {
    forall a :: a in admitted && a > low ==> a > high
  }

  lemma NothingAbove(admitted: seq<real>, cutoff: real)
    ensures |Above(admitted, cutoff)| == 0 <==> AllBelow(admitted, cutoff)
  {
    AboveMembers(admitted, cutoff);
    if AllBelow(admitted, cutoff) {
      NoneAbove(admitted, cutoff);
    } else {
      var a :| a in admitted && a > cutoff;
      assert a in Above(admitted, cutoff);
    }
  }

  lemma {:induction false} NoneAbove(admitted: seq<real>, cutoff: real)
    requires AllBelow(admitted, cutoff)
    ensures Above(admitted, cutoff) == []
  {
    if admitted != [] {
      var n := |admitted| - 1;
      assert admitted[n] in admitted && forall a :: a in admitted[..n] ==> a in admitted;
      NoneAbove(admitted[..n], cutoff);
    }
  }

  lemma PrunedTwice(scores: seq<real>, low: real, cutoff: real, higher: real)
    requires higher == if cutoff < low then low else cutoff
    ensures Above(Above(scores, low), cutoff) == Above(scores, higher)
  {
    if cutoff < low {
      AboveMembers(scores, low);
      AboveAll(Above(scores, low), cutoff);
    } else {
      AboveTwice(scores, low, cutoff);
    }
  }

  /** `left` is what one call leaves of the scores; how it compares above `cutoff`. */
  ghost predicate LeavesAll(left: seq<real>, w: Window, admitted: seq<real>, call: Call, length: real, cutoff: real) {
    && |Above(left, cutoff)| <= |Above(admitted, cutoff)|
    && (|Above(left, cutoff)| == |Above(admitted, cutoff)| <==>
          |Above(w.scores, cutoff)| == |Above(admitted, cutoff)| && Spares(w, admitted, call, length, cutoff))
  }

  lemma StepIff(w: Window, admitted: seq<real>, call: Call, length: real, cutoff: real, higher: real)
    requires higher == if cutoff < call.read - length then call.read - length else cutoff
    requires |Above(w.scores, cutoff)| <= |Above(admitted, cutoff)|
    requires |Above(w.scores, higher)| <= |Above(admitted, higher)| && forall x :: x in w.scores ==> x in admitted
    ensures LeavesAll(Current(w, call, length), w, admitted, call, length, cutoff)
  {
    if call.run <= w.expires {
      UnexpiredIff(w, admitted, call, length, cutoff, higher, Current(w, call, length));
    } else {
      ExpiredIff(w, admitted, call, length, cutoff, Current(w, call, length));
    }
  }

  lemma UnexpiredIff(w: Window, admitted: seq<real>, call: Call, length: real, cutoff: real, higher: real,
                     left: seq<real>)
    requires higher == if cutoff < call.read - length then call.read - length else cutoff
    requires |Above(w.scores, cutoff)| <= |Above(admitted, cutoff)|
    requires |Above(w.scores, higher)| <= |Above(admitted, higher)| && forall x :: x in w.scores ==> x in admitted
    requires call.run <= w.expires && left == Above(w.scores, call.read - length)
    ensures LeavesAll(left, w, admitted, call, length, cutoff)
  {
    PruneIff(w.scores, admitted, call.read - length, cutoff, higher);
    assert AllBelow(admitted, cutoff) ==> NoneBetween(admitted, cutoff, call.read - length);
  }

  lemma ExpiredIff(w: Window, admitted: seq<real>, call: Call, length: real, cutoff: real, left: seq<real>)
    requires call.run > w.expires && |Above(w.scores, cutoff)| <= |Above(admitted, cutoff)| && left == []
    ensures LeavesAll(left, w, admitted, call, length, cutoff)
  {
    NothingAbove(admitted, cutoff);
  }

  lemma PruneIff(scores: seq<real>, admitted: seq<real>, low: real, cutoff: real, higher: real)
    requires higher == if cutoff < low then low else cutoff
    requires |Above(scores, cutoff)| <= |Above(admitted, cutoff)|
    requires |Above(scores, higher)| <= |Above(admitted, higher)| && forall x :: x in scores ==> x in admitted
    ensures |Above(Above(scores, low), cutoff)| <= |Above(admitted, cutoff)|
    ensures |Above(Above(scores, low), cutoff)| == |Above(admitted, cutoff)| <==>
      |Above(scores, cutoff)| == |Above(admitted, cutoff)| && NoneBetween(admitted, cutoff, low)
  {
    PrunedTwice(scores, low, cutoff, higher);
    AboveTwice(admitted, cutoff, higher);
    AboveTwice(scores, cutoff, higher);
    AboveSame(admitted, cutoff, higher);
    AboveSame(scores, cutoff, higher);
    assert NoneBetween(admitted, cutoff, higher) <==> NoneBetween(admitted, cutoff, low);
    assert NoneBetween(admitted, cutoff, higher) ==> NoneBetween(scores, cutoff, higher);
  }

  /** The script of `call` forgets no admission above `cutoff`: if there is any, the key has
      not expired and the call's own cutoff is lower. */
  ghost predicate Spares(w: Window, admitted: seq<real>, call: Call, length: real, cutoff: real) {
    AllBelow(admitted, cutoff) || (call.run <= w.expires && NoneBetween(admitted, cutoff, call.read - length))
  }

  /** No script so far has forgotten an admission above `cutoff`. */
  ghost predicate NoneForgotten(calls: Calls, limits: Limits, name: WindowName, cutoff: real) {
    match calls
    case Start => true
    case Then(before, last) =>
      && NoneForgotten(before, limits, name, cutoff)
      && Spares(Part(Run(before, limits), name), Admitted(before, limits), last, Length(name), cutoff)
  }

  /** One call on one window. */
  lemma PartStep(s: State, call: Call, limits: Limits, name: WindowName)
    ensures Part(Step(s, call, limits), name) == Touched(Part(s, name), call, Length(name), Allowed(s, call, limits))
    ensures Allowed(s, call, limits) ==> |Current(Part(s, name), call, Length(name))| < Limit(limits, name)
  {
  }

  lemma {:induction false} StoredWasAdmitted(calls: Calls, limits: Limits, name: WindowName)
    ensures forall x :: x in Part(Run(calls, limits), name).scores ==> x in Admitted(calls, limits)
  {
    if calls.Then? {
      var s := Run(calls.before, limits);
      StoredWasAdmitted(calls.before, limits, name);
      PartStep(s, calls.last, limits, name);
      TouchedMembers(Part(s, name), calls.last, Length(name), Allowed(s, calls.last, limits));
    }
  }

  lemma TouchedMembers(w: Window, call: Call, length: real, allowed: bool)
    ensures forall x :: x in Touched(w, call, length, allowed).scores ==> x in w.scores || (allowed && x == call.read)
  {
    AboveMembers(w.scores, call.read - length);
  }

  /** An admission adds the same to what is stored and to what was admitted. */
  lemma TouchedAbove(w: Window, admitted: seq<real>, call: Call, length: real, allowed: bool, cutoff: real)
    ensures var after := if allowed then admitted + [call.read] else admitted;
      |Above(Touched(w, call, length, allowed).scores, cutoff)| - |Above(Current(w, call, length), cutoff)|
      == |Above(after, cutoff)| - |Above(admitted, cutoff)|
  {
    AboveAppend(Current(w, call, length), call.read, cutoff);
    AboveAppend(admitted, call.read, cutoff);
  }

  /** What is stored never exceeds what was admitted, and misses nothing above `cutoff`
      exactly if no script has forgotten any of it. */
  lemma {:induction false} StoredIff(calls: Calls, limits: Limits, name: WindowName, cutoff: real)
    ensures var stored, admitted := Part(Run(calls, limits), name).scores, Admitted(calls, limits);
      && |Above(stored, cutoff)| <= |Above(admitted, cutoff)|
      && (|Above(stored, cutoff)| == |Above(admitted, cutoff)| <==> NoneForgotten(calls, limits, name, cutoff))
  {
    if calls.Then? {
      var s, admitted := Run(calls.before, limits), Admitted(calls.before, limits);
      var call, low := calls.last, calls.last.read - Length(name);
      var higher := if cutoff < low then low else cutoff;
      StoredIff(calls.before, limits, name, cutoff);
      StoredIff(calls.before, limits, name, higher);
      StoredWasAdmitted(calls.before, limits, name);
      StepIff(Part(s, name), admitted, call, Length(name), cutoff, higher);
      PartStep(s, call, limits, name);
      TouchedAbove(Part(s, name), admitted, call, Length(name), Allowed(s, call, limits), cutoff);
    }
  }

  /** The call counts as many admissions as its window really holds. */
  ghost predicate ExactOn(w: Window, admitted: seq<real>, call: Call, length: real) {
    |Current(w, call, length)| == |Above(admitted, call.read - length)|
  }

  ghost predicate Exact(calls: Calls, limits: Limits, name: WindowName, call: Call) {
    ExactOn(Part(Run(calls, limits), name), Admitted(calls, limits), call, Length(name))
  }

  /**
  After any calls whatever, a call counts exactly its window if and only if the key has not
  expired when its script runs, or no admission lies above its cutoff, and no earlier script
  has forgotten an admission above it, by an expired key or by a later reading.
   */
  lemma CountsExactlyIff(calls: Calls, limits: Limits, name: WindowName, call: Call, w: Window, admitted: seq<real>)
    requires w == Part(Run(calls, limits), name) && admitted == Admitted(calls, limits)
    ensures var cutoff := call.read - Length(name);
      ExactOn(w, admitted, call, Length(name)) <==>
      && (call.run <= w.expires || AllBelow(admitted, cutoff))
      && NoneForgotten(calls, limits, name, cutoff)
  {
    StoredIff(calls, limits, name, call.read - Length(name));
    ExactIff(w, admitted, call, Length(name));
  }

  lemma ExactIff(w: Window, admitted: seq<real>, call: Call, length: real)
    requires |Above(w.scores, call.read - length)| <= |Above(admitted, call.read - length)|
    ensures ExactOn(w, admitted, call, length) <==>
      && (call.run <= w.expires || AllBelow(admitted, call.read - length))
      && |Above(w.scores, call.read - length)| == |Above(admitted, call.read - length)|
  {
    NothingAbove(admitted, call.read - length);
  }

  ghost predicate AllExact(calls: Calls, limits: Limits, name: WindowName) {
    calls.Then? ==> AllExact(calls.before, limits, name) && Exact(calls.before, limits, name, calls.last)
  }

  /** An exact call is admitted exactly when both windows of the real history have room. */
  lemma AdmittedIffRoom(s: State, admitted: seq<real>, call: Call, limits: Limits)
    requires ExactOn(s.minute, admitted, call, MINUTE) && ExactOn(s.hour, admitted, call, HOUR)
    ensures Judge(s, call, limits).allowed <==>
      && |Above(admitted, call.read - MINUTE)| < limits.perMinute
      && |Above(admitted, call.read - HOUR)| < limits.perHour
  {
    JudgeAllows(s, call, limits);
  }

  lemma JudgeAllows(s: State, call: Call, limits: Limits)
    ensures Judge(s, call, limits).allowed <==> Allowed(s, call, limits)
  {
  }

  /** As long as every call counts exactly, no window of any run holds more admissions than
      its limit, although expiry and pruning discard old scores. */
  lemma {:induction false} LimitsHold(calls: Calls, limits: Limits, name: WindowName)
    requires AllExact(calls, limits, name)
    ensures Bounded(Admitted(calls, limits), Length(name), Limit(limits, name))
  {
    if calls.Then? {
      LimitsHold(calls.before, limits, name);
      var s, admitted := Run(calls.before, limits), Admitted(calls.before, limits);
      BoundedStep(s, admitted, calls.last, limits, name);
    }
  }

  lemma BoundedStep(s: State, admitted: seq<real>, call: Call, limits: Limits, name: WindowName)
    requires Bounded(admitted, Length(name), Limit(limits, name))
    requires ExactOn(Part(s, name), admitted, call, Length(name))
    ensures var after := if Allowed(s, call, limits) then admitted + [call.read] else admitted;
      Bounded(after, Length(name), Limit(limits, name))
  {
    PartStep(s, call, limits, name);
    if Allowed(s, call, limits) { AdmitBounded(admitted, call.read, Length(name), Limit(limits, name)); }
  }

  // ----- what an answer means -----

  function Left(limits: Limits, s: State, name: WindowName): int { Limit(limits, name) - |Part(s, name).scores| }

  /** What the answer to an admitted call tells about the windows after it: the one with less
      room left, the shorter if both are alike, and its oldest admission. */
  lemma AllowedMeans(s: State, call: Call, limits: Limits)
    requires Judge(s, call, limits).allowed
    ensures var v, after := Judge(s, call, limits), Step(s, call, limits);
      var scores := Part(after, v.window).scores;
      && v.limit == Limit(limits, v.window) && v.remaining as int == Left(limits, after, v.window) >= 0
      && (v.window == Minute <==> Left(limits, after, Minute) <= Left(limits, after, Hour))
      && scores != [] && v.opening == Oldest(scores) + Length(v.window)
      && (forall name :: call.read in Part(after, name).scores
                         && |Part(after, name).scores| == |Current(Part(s, name), call, Length(name))| + 1)
  {
    JudgeAllows(s, call, limits);
    var after := Step(s, call, limits);
    assert after.minute.scores == Current(s.minute, call, MINUTE) + [call.read];
    assert after.hour.scores == Current(s.hour, call, HOUR) + [call.read];
  }

  /** A refusal names the first full window, the shorter one first, and leaves nothing. */
  lemma RefusedMeans(s: State, call: Call, limits: Limits)
    requires !Judge(s, call, limits).allowed
    ensures var v := Judge(s, call, limits);
      && v.limit == Limit(limits, v.window) && v.remaining == 0
      && |Current(Part(s, v.window), call, Length(v.window))| >= v.limit
      && (v.window == Hour ==> |Current(s.minute, call, MINUTE)| < limits.perMinute)
      && (forall name :: Part(Step(s, call, limits), name).scores == Current(Part(s, name), call, Length(name)))
  {
  }

  /** The same call again, `n` times. */
  function Again(s: State, call: Call, limits: Limits, n: nat): State {
    if n == 0 then s else Step(Again(s, call, limits, n - 1), call, limits)
  }

  ghost predicate Fresh(s: State, call: Call) {
    && (forall x :: x in s.minute.scores ==> x > call.read - MINUTE)
    && (forall x :: x in s.hour.scores ==> x > call.read - HOUR)
    && call.run <= s.minute.expires && call.run <= s.hour.expires
  }

  lemma FreshKeepsAll(s: State, call: Call)
    requires Fresh(s, call)
    ensures Current(s.minute, call, MINUTE) == s.minute.scores && Current(s.hour, call, HOUR) == s.hour.scores
  {
    AboveAll(s.minute.scores, call.read - MINUTE);
    AboveAll(s.hour.scores, call.read - HOUR);
  }

  lemma StepIsFresh(s: State, call: Call, limits: Limits)
    requires Allowed(s, call, limits)
    ensures Fresh(Step(s, call, limits), call)
  {
    AboveMembers(s.minute.scores, call.read - MINUTE);
    AboveMembers(s.hour.scores, call.read - HOUR);
  }

  /** Repeating a call is admitted as often as the fuller window has room. */
  lemma {:induction false} AgainAdmits(first: State, call: Call, limits: Limits, room: nat, n: nat)
    requires Fresh(first, call) && n <= room
    requires room <= Left(limits, first, Minute) && room <= Left(limits, first, Hour)
    ensures Fresh(Again(first, call, limits, n), call)
    ensures Left(limits, Again(first, call, limits, n), Minute) == Left(limits, first, Minute) - n
    ensures Left(limits, Again(first, call, limits, n), Hour) == Left(limits, first, Hour) - n
  {
    if n > 0 {
      AgainAdmits(first, call, limits, room, n - 1);
      OneMore(Again(first, call, limits, n - 1), call, limits);
    }
  }

  /** The remaining quota is exact: repeating an admitted call at once, with nobody else
      calling, is admitted just as often as was promised. */
  lemma RemainingIsExact(s: State, call: Call, limits: Limits, n: nat, room: nat)
    requires Judge(s, call, limits).allowed && room == Judge(s, call, limits).remaining && n <= room
    ensures Judge(Again(Step(s, call, limits), call, limits, n), call, limits).allowed <==> n < room
  {
    RemainingIsLeast(s, call, limits);
    AgainAdmits(Step(s, call, limits), call, limits, room, n);
    OneMore(Again(Step(s, call, limits), call, limits, n), call, limits);
  }

  lemma RemainingIsLeast(s: State, call: Call, limits: Limits)
    requires Judge(s, call, limits).allowed
    ensures var v, after := Judge(s, call, limits), Step(s, call, limits);
      && Fresh(after, call)
      && v.remaining as int <= Left(limits, after, Minute) && v.remaining as int <= Left(limits, after, Hour)
      && (v.remaining as int == Left(limits, after, Minute) || v.remaining as int == Left(limits, after, Hour))
  {
    JudgeAllows(s, call, limits);
    AllowedMeans(s, call, limits);
    StepIsFresh(s, call, limits);
  }

  /** A call in windows that hold nothing older than its own counts all their scores. */
  lemma OneMore(s: State, call: Call, limits: Limits)
    requires Fresh(s, call)
    ensures Judge(s, call, limits).allowed <==> Left(limits, s, Minute) > 0 && Left(limits, s, Hour) > 0
    ensures Left(limits, s, Minute) > 0 && Left(limits, s, Hour) > 0 ==>
      && Fresh(Step(s, call, limits), call)
      && Left(limits, Step(s, call, limits), Minute) == Left(limits, s, Minute) - 1
      && Left(limits, Step(s, call, limits), Hour) == Left(limits, s, Hour) - 1
  {
    FreshKeepsAll(s, call);
    JudgeAllows(s, call, limits);
    if Allowed(s, call, limits) { StepIsFresh(s, call, limits); }
  }

  // ----- when every call is exact -----

  function Delay(call: Call): real { call.run - call.read }

  /** Scripts run in the order of their reads, and delays do not grow. */
  ghost predicate Orderly(calls: Calls) {
    calls.Then? ==>
      && Orderly(calls.before)
      && (calls.before.Then? ==>
            calls.before.last.read <= calls.last.read && Delay(calls.last) <= Delay(calls.before.last))
  }

  /** Every admission was read by `call`, and the key outlasts it for delays like that of `call`. */
  ghost predicate Outlasts(admitted: seq<real>, w: Window, call: Call, length: real) {
    forall a :: a in admitted ==> a <= call.read && a + Delay(call) + length <= w.expires
  }

  lemma TouchedOutlasts(w: Window, admitted: seq<real>, call: Call, length: real, allowed: bool)
    requires forall a :: a in admitted ==> a <= call.read && a + Delay(call) + length <= w.expires
    ensures var after := if allowed then admitted + [call.read] else admitted;
      Outlasts(after, Touched(w, call, length, allowed), call, length)
  {
  }

  lemma {:induction false} OrderlyOutlasts(calls: Calls, limits: Limits, name: WindowName)
    requires Orderly(calls) && calls.Then?
    ensures Outlasts(Admitted(calls, limits), Part(Run(calls, limits), name), calls.last, Length(name))
  {
    if calls.before.Then? { OrderlyOutlasts(calls.before, limits, name); }
    var s, admitted := Run(calls.before, limits), Admitted(calls.before, limits);
    PartStep(s, calls.last, limits, name);
    TouchedOutlasts(Part(s, name), admitted, calls.last, Length(name), Allowed(s, calls.last, limits));
  }

  /** In order, no script forgets what a call from `read` on must count. */
  lemma {:induction false} OrderlyForgetsNothing(calls: Calls, limits: Limits, name: WindowName, cutoff: real)
    requires Orderly(calls) && (calls.Then? ==> calls.last.read - Length(name) <= cutoff)
    ensures NoneForgotten(calls, limits, name, cutoff)
  {
    if calls.Then? {
      OrderlyForgetsNothing(calls.before, limits, name, cutoff);
      if calls.before.Then? { OrderlyOutlasts(calls.before, limits, name); }
    }
  }

  lemma OrderlyNext(calls: Calls, limits: Limits, name: WindowName, call: Call, w: Window, admitted: seq<real>)
    requires w == Part(Run(calls, limits), name) && admitted == Admitted(calls, limits)
    requires Orderly(calls) && (calls.Then? ==> calls.last.read <= call.read && Delay(call) <= Delay(calls.last))
    ensures ExactOn(w, admitted, call, Length(name))
  {
    OrderlyStored(calls, limits, name, call.read - Length(name), w, admitted);
    OrderlyInTime(calls, limits, name, call, w, admitted);
    ExactWhen(w, admitted, call, Length(name));
  }

  lemma ExactWhen(w: Window, admitted: seq<real>, call: Call, length: real)
    requires call.run <= w.expires || AllBelow(admitted, call.read - length)
    requires |Above(w.scores, call.read - length)| == |Above(admitted, call.read - length)|
    ensures ExactOn(w, admitted, call, length)
  {
    NothingAbove(admitted, call.read - length);
  }

  lemma OrderlyStored(calls: Calls, limits: Limits, name: WindowName, cutoff: real, w: Window, admitted: seq<real>)
    requires Orderly(calls) && (calls.Then? ==> calls.last.read - Length(name) <= cutoff)
    requires w == Part(Run(calls, limits), name) && admitted == Admitted(calls, limits)
    ensures |Above(w.scores, cutoff)| == |Above(admitted, cutoff)|
  {
    OrderlyForgetsNothing(calls, limits, name, cutoff);
    StoredIff(calls, limits, name, cutoff);
  }

  lemma OrderlyInTime(calls: Calls, limits: Limits, name: WindowName, call: Call, w: Window, admitted: seq<real>)
    requires w == Part(Run(calls, limits), name) && admitted == Admitted(calls, limits)
    requires Orderly(calls) && (calls.Then? ==> calls.last.read <= call.read && Delay(call) <= Delay(calls.last))
    ensures call.run <= w.expires || AllBelow(admitted, call.read - Length(name))
  {
    if calls.Then? { OrderlyOutlasts(calls, limits, name); }
  }

  /** Calls whose scripts run in the order of their reads, with delays that do not grow, all
      count exactly: among them calls without any delay. */
  lemma {:induction false} OrderlyIsExact(calls: Calls, limits: Limits, name: WindowName)
    requires Orderly(calls)
    ensures AllExact(calls, limits, name)
  {
    if calls.Then? {
      OrderlyIsExact(calls.before, limits, name);
      var w, admitted := Part(Run(calls.before, limits), name), Admitted(calls.before, limits);
      OrderlyNext(calls.before, limits, name, calls.last, w, admitted);
    }
  }

  /** So for them no window of any run holds more admissions than its limit. */
  lemma OrderlyLimitsHold(calls: Calls, limits: Limits, name: WindowName)
    requires Orderly(calls)
    ensures Bounded(Admitted(calls, limits), Length(name), Limit(limits, name))
  {
    OrderlyIsExact(calls, limits, name);
    LimitsHold(calls, limits, name);
  }

  // ----- when calls are not exact -----

  function TwoCalls(a: Call, b: Call): Calls { Then(Then(Start, a), b) }

  lemma OneScore(x: real, cutoff: real)
    ensures Above([x], cutoff) == if x > cutoff then [x] else []
  {
    assert [x][..0] == [];
  }

  lemma TwoScores(x: real, y: real, cutoff: real)
    ensures Above([x, y], cutoff) == (if x > cutoff then [x] else []) + (if y > cutoff then [y] else [])
  {
    OneScore(x, cutoff);
    assert [x, y] == [x] + [y];
    AboveAppend([x], y, cutoff);
  }

  /** A call admitted by a minute window in which it finds `counted`. */
  lemma AdmitsOne(s: State, call: Call, limits: Limits, counted: seq<real>)
    requires Current(s.minute, call, MINUTE) == counted && |counted| < limits.perMinute
    requires |s.hour.scores| < limits.perHour
    ensures Allowed(s, call, limits)
    ensures Step(s, call, limits).minute == Window(counted + [call.read], call.run + MINUTE)
    ensures |Step(s, call, limits).hour.scores| <= |s.hour.scores| + 1
  {
    AboveMembers(s.hour.scores, call.read - HOUR);
  }

  /** Expiry: with one admission a minute, a call that reads 59 and runs at 61 is admitted
      although the admission at 0 is in its window. */
  lemma ExpiredKeyForgets(calls: Calls, limits: Limits)
    requires calls == TwoCalls(Call(0.0, 0.0), Call(59.0, 61.0)) && limits == Limits(1, 100)
    ensures Admitted(calls, limits) == [0.0, 59.0] && CountAfter(Admitted(calls, limits), -1.0, MINUTE) == 2
  {
    var first := Step(EMPTY, Call(0.0, 0.0), limits);
    AdmitsOne(EMPTY, Call(0.0, 0.0), limits, []);
    assert first.minute == Window([0.0], 60.0);
    AdmitsOne(first, Call(59.0, 61.0), limits, []);
    AdmittedTwo(calls, limits, Call(0.0, 0.0), Call(59.0, 61.0));
    TwoInWindow(0.0, 59.0, -1.0);
  }

  lemma AdmittedTwo(calls: Calls, limits: Limits, a: Call, b: Call)
    requires calls == TwoCalls(a, b) && Allowed(EMPTY, a, limits) && Allowed(Step(EMPTY, a, limits), b, limits)
    ensures Admitted(calls, limits) == [a.read, b.read]
  {
    AdmittedOne(limits, a);
  }

  lemma AdmittedOne(limits: Limits, a: Call)
    requires Allowed(EMPTY, a, limits)
    ensures Admitted(Then(Start, a), limits) == [a.read] && Run(Then(Start, a), limits) == Step(EMPTY, a, limits)
  {
    assert Run(Start, limits) == EMPTY && Admitted(Start, limits) == [];
  }

  lemma TwoInWindow(x: real, y: real, low: real)
    requires low < x <= low + MINUTE && low < y <= low + MINUTE
    ensures CountAfter([x, y], low, MINUTE) == 2
  {
    assert [x, y][..1] == [x] && [x][..0] == [];
    assert CountAfter([], low, MINUTE) == 0 && CountAfter([x], low, MINUTE) == 1;
  }

  /** Pruning: with two admissions a minute, a call that reads 60.05 runs before one that
      reads 59.9 and prunes what the latter must count. */
  lemma LaterReadingForgets(calls: Calls, limits: Limits)
    requires calls == Then(Then(TwoCalls(Call(0.0, 0.0), Call(0.05, 0.05)), Call(60.05, 60.05)), Call(59.9, 60.1))
    requires limits == Limits(2, 100)
    ensures Admitted(calls, limits) == [0.0, 0.05, 60.05, 59.9]
    ensures CountAfter(Admitted(calls, limits), -0.1, MINUTE) == 3
  {
    var a, b, c, d := Call(0.0, 0.0), Call(0.05, 0.05), Call(60.05, 60.05), Call(59.9, 60.1);
    var second := FirstTwo(limits, a, b);
    TwoScores(0.0, 0.05, 60.05 - MINUTE);
    var third := Step(second, c, limits);
    AdmitsOne(second, c, limits, []);
    OneScore(60.05, 59.9 - MINUTE);
    AdmitsOne(third, d, limits, [60.05]);
    AdmittedFour(calls, limits, a, b, c, d);
    ThreeInWindow();
  }

  lemma FirstTwo(limits: Limits, a: Call, b: Call) returns (s: State)
    requires a == Call(0.0, 0.0) && b == Call(0.05, 0.05) && limits == Limits(2, 100)
    ensures Allowed(EMPTY, a, limits) && Allowed(Step(EMPTY, a, limits), b, limits)
    ensures s == Step(Step(EMPTY, a, limits), b, limits)
    ensures s.minute == Window([0.0, 0.05], 60.05) && |s.hour.scores| <= 2
  {
    var first := Step(EMPTY, a, limits);
    AdmitsOne(EMPTY, a, limits, []);
    SecondCounts(first.minute, b);
    AdmitsOne(first, b, limits, [0.0]);
    s := Step(first, b, limits);
  }

  lemma SecondCounts(w: Window, b: Call)
    requires w == Window([0.0], 60.0) && b == Call(0.05, 0.05)
    ensures Current(w, b, MINUTE) == [0.0]
  {
    OneScore(0.0, 0.05 - MINUTE);
  }

  lemma AdmittedFour(calls: Calls, limits: Limits, a: Call, b: Call, c: Call, d: Call)
    requires calls == Then(Then(TwoCalls(a, b), c), d)
    requires var first := Step(EMPTY, a, limits);
      var second := Step(first, b, limits);
      && Allowed(EMPTY, a, limits) && Allowed(first, b, limits) && Allowed(second, c, limits)
      && Allowed(Step(second, c, limits), d, limits)
    ensures Admitted(calls, limits) == [a.read, b.read, c.read, d.read]
  {
    AdmittedTwo(TwoCalls(a, b), limits, a, b);
    assert Admitted(Then(TwoCalls(a, b), c), limits) == [a.read, b.read, c.read];
  }

  lemma ThreeInWindow()
    ensures CountAfter([0.0, 0.05, 60.05, 59.9], -0.1, MINUTE) == 3
  {
    var times := [0.0, 0.05, 60.05, 59.9];
    assert times[..3] == [0.0, 0.05, 60.05] && times[..3][..2] == [0.0, 0.05];
    TwoInWindow(0.0, 0.05, -0.1);
    assert CountAfter(times[..3], -0.1, MINUTE) == 2;
  }

  // ----- when a full window opens -----

  /** Pruning is physical, so no window ever stores more scores than its limit. */
  lemma {:induction false} StoredWithinLimit(calls: Calls, limits: Limits, name: WindowName)
    ensures |Part(Run(calls, limits), name).scores| <= Limit(limits, name)
  {
    if calls.Then? {
      var s := Run(calls.before, limits);
      StoredWithinLimit(calls.before, limits, name);
      PartStep(s, calls.last, limits, name);
      CurrentSmaller(Part(s, name), calls.last, Length(name));
    }
  }

  lemma CurrentSmaller(w: Window, call: Call, length: real)
    ensures |Current(w, call, length)| <= |w.scores|
  {
    AboveMembers(w.scores, call.read - length);
  }

  /** A full window has room later exactly when its oldest score has left. */
  lemma ResetOpens(counted: seq<real>, cutoff: real)
    requires counted != []
    ensures |Above(counted, cutoff)| < |counted| <==> cutoff >= Oldest(counted)
  {
    if cutoff < Oldest(counted) { AboveAll(counted, cutoff); } else { AboveDrops(counted, Oldest(counted), cutoff); }
  }

  /** The window that rejected a call has room for a later one, if nothing runs in between. */
  predicate Open(after: State, limits: Limits, name: WindowName, later: Call) {
    |Current(Part(after, name), later, Length(name))| < Limit(limits, name)
  }

  /** A call was rejected by a window with a positive limit. */
  ghost predicate Rejected(s: State, limits: Limits, call: Call, v: Verdict) {
    v == Judge(s, call, limits) && !v.allowed && Limit(limits, v.window) > 0
  }

  /** What a rejection leaves: a full window and its oldest score. */
  lemma RejectedIsFull(s: State, limits: Limits, call: Call, v: Verdict, w: Window)
    requires Rejected(s, limits, call, v) && w == Part(s, v.window) && |w.scores| <= Limit(limits, v.window)
    ensures var counted := Current(w, call, Length(v.window));
      && |counted| == Limit(limits, v.window) && v.opening == Oldest(counted) + Length(v.window)
      && Part(Step(s, call, limits), v.window) == Window(counted, w.expires)
  {
    CurrentSmaller(w, call, Length(v.window));
  }

  /**
  After any calls and a rejection, the window has room for a later call exactly if that reads
  the clock at or after the opening, or its script runs after the key has expired.
   */
  lemma WindowOpensExactly(calls: Calls, limits: Limits, call: Call, v: Verdict, s: State, later: Call)
    requires s == Run(calls, limits) && Rejected(s, limits, call, v)
    ensures Open(Step(s, call, limits), limits, v.window, later) <==>
      later.read >= v.opening || later.run > Part(s, v.window).expires
  {
    StoredWithinLimit(calls, limits, v.window);
    FullWindowOpens(s, limits, call, v, Part(s, v.window), later);
  }

  lemma FullWindowOpens(s: State, limits: Limits, call: Call, v: Verdict, w: Window, later: Call)
    requires Rejected(s, limits, call, v) && w == Part(s, v.window) && |w.scores| <= Limit(limits, v.window)
    ensures Open(Step(s, call, limits), limits, v.window, later) <==>
      later.read >= v.opening || later.run > w.expires
  {
    RejectedIsFull(s, limits, call, v, w);
    ResetOpens(Current(w, call, Length(v.window)), later.read - Length(v.window));
  }

  /** On one clock scripts run after their reads and one after another. */
  ghost predicate Clocked(calls: Calls) {
    calls.Then? ==>
      && Clocked(calls.before) && calls.last.read <= calls.last.run
      && (calls.before.Then? ==> calls.before.last.run <= calls.last.run)
  }

  /** The scores of a key lie before its expiry, and that within a window's length from now. */
  ghost predicate Timely(w: Window, length: real, now: real) {
    forall x :: x in w.scores ==> x + length <= w.expires <= now + length
  }

  lemma TouchedTimely(w: Window, call: Call, length: real, allowed: bool, before: real)
    requires Timely(w, length, before) && before <= call.run && call.read <= call.run
    ensures Timely(Touched(w, call, length, allowed), length, call.run)
  {
    TouchedMembers(w, call, length, allowed);
  }

  lemma {:induction false} KeysOutlastScores(calls: Calls, limits: Limits, name: WindowName)
    requires Clocked(calls)
    ensures Timely(Part(Run(calls, limits), name), Length(name), if calls.Then? then calls.last.run else 0.0)
  {
    if calls.Then? {
      var s, last := Run(calls.before, limits), calls.last;
      KeysOutlastScores(calls.before, limits, name);
      PartStep(s, last, limits, name);
      var before := if calls.before.Then? then calls.before.last.run else last.run;
      assert calls.before.Start? ==> Part(s, name).scores == [];
      TouchedTimely(Part(s, name), last, Length(name), Allowed(s, last, limits), before);
    }
  }

  /** On one clock the key outlasts the opening: a later call without delay finds the window
      open exactly from the opening on. */
  lemma OpensOnTime(calls: Calls, limits: Limits, call: Call, v: Verdict, s: State, at: real)
    requires Clocked(calls) && s == Run(calls, limits) && Rejected(s, limits, call, v)
    ensures Open(Step(s, call, limits), limits, v.window, Call(at, at)) <==> at >= v.opening
  {
    StoredWithinLimit(calls, limits, v.window);
    KeysOutlastScores(calls, limits, v.window);
    FullWindowOpens(s, limits, call, v, Part(s, v.window), Call(at, at));
    OpeningBeforeExpiry(s, limits, call, v, Part(s, v.window));
  }

  lemma OpeningBeforeExpiry(s: State, limits: Limits, call: Call, v: Verdict, w: Window)
    requires Rejected(s, limits, call, v) && w == Part(s, v.window) && |w.scores| <= Limit(limits, v.window)
    requires forall x :: x in w.scores ==> x + Length(v.window) <= w.expires
    ensures v.opening <= w.expires
  {
    RejectedIsFull(s, limits, call, v, w);
    AboveMembers(w.scores, call.read - Length(v.window));
  }

  predicate FourDecimals(x: real) { (x * 10000.0).Floor as real == x * 10000.0 }

  lemma PrintedIsNear(x: real)
    ensures x - 0.00005 <= Printed(x) <= x + 0.00005
    ensures FourDecimals(x) ==> Printed(x) == x
  {
  }

  /**
  What a rejected caller can rely on.  At the reported `reset_time` the window is open if and
  only if printing did not round the opening down; half a unit of the last printed digit later
  it is open always; and a time with at most four decimals is reported as it is.
   */
  lemma ReportedReset(calls: Calls, limits: Limits, call: Call, v: Verdict, s: State, after: State, at: real)
    requires Clocked(calls) && s == Run(calls, limits) && Rejected(s, limits, call, v) && after == Step(s, call, limits)
    ensures Script(s, call, limits) == (after, Reply(v))
    ensures var reset := Reply(v).reset;
      && (at == reset ==> (Open(after, limits, v.window, Call(at, at)) <==> Printed(v.opening) >= v.opening))
      && (at >= reset + 0.00005 ==> Open(after, limits, v.window, Call(at, at)))
      && (at < reset - 0.00005 ==> !Open(after, limits, v.window, Call(at, at)))
      && (FourDecimals(v.opening) ==> (Open(after, limits, v.window, Call(at, at)) <==> at >= reset))
  {
    OpensOnTime(calls, limits, call, v, s, at);
    PrintedIsNear(v.opening);
  }

  lemma RoundedDown()
    ensures Printed(1700000060.12344) == 1700000060.1234
  {
    assert (17000000601234.4).Floor == 17000000601234;
  }

  /** With an admission at 1700000000.12344 and a limit of one, a call at exactly the reported
      reset time 1700000060.1234 is rejected again. */
  lemma ReportedResetCanBeEarly(limits: Limits, admitted: Call, s: State, rejected: Call, again: Call)
    requires limits == Limits(1, 100) && admitted == Call(1700000000.12344, 1700000000.12344)
    requires s == Run(Then(Start, admitted), limits) && rejected == Call(1700000001.0, 1700000001.0)
    requires again == Call(1700000060.1234, 1700000060.1234)
    ensures var r := Script(s, rejected, limits).1; !r.allowed && r.reset == again.read
    ensures !Script(Step(s, rejected, limits), again, limits).1.allowed
  {
    AdmitsOne(EMPTY, admitted, limits, []);
    var w := Window([admitted.read], admitted.run + MINUTE);
    assert Run(Start, limits) == EMPTY;
    assert s.minute == w;
    OneScore(admitted.read, rejected.read - MINUTE);
    assert Current(w, rejected, MINUTE) == [admitted.read];
    assert Oldest([admitted.read]) == admitted.read;
    RoundedDown();
    assert Step(s, rejected, limits).minute == w;
    OneScore(admitted.read, again.read - MINUTE);
  }

  class RateLimiter {
    var minute: Window
    var hour: Window

    ghost function View(): State reads this { State(minute, hour) }

    method Check(call: Call, limits: Limits) returns (r: Result)
      modifies this
      ensures (View(), r) == Script(old(View()), call, limits)
    {
      minute := Window(Current(minute, call, MINUTE), minute.expires);
      hour := Window(Current(hour, call, HOUR), hour.expires);
      var minuteCount, hourCount := |minute.scores|, |hour.scores|;
      if minuteCount >= limits.perMinute {
        return Reply(Verdict(false, limits.perMinute, 0, Opening(minute.scores, call.read, MINUTE), Minute));
      }
      if hourCount >= limits.perHour {
        return Reply(Verdict(false, limits.perHour, 0, Opening(hour.scores, call.read, HOUR), Hour));
      }
      minute := Window(minute.scores + [call.read], call.run + MINUTE);
      hour := Window(hour.scores + [call.read], call.run + HOUR);
      var minuteLeft, hourLeft := limits.perMinute - minuteCount - 1, limits.perHour - hourCount - 1;
      if hourLeft < minuteLeft {
        return Reply(Verdict(true, limits.perHour, hourLeft, Opening(hour.scores, call.read, HOUR), Hour));
      }
      r := Reply(Verdict(true, limits.perMinute, minuteLeft, Opening(minute.scores, call.read, MINUTE), Minute));
    }
  }
}
