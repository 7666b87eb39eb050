/**
The append script handles stream identities as decimal text: `increment` adds one digit by
digit, `greater` compares lengths and then text.  Here the text functions are shown to
compute successor and order of the numbers written, which is what lets the rest of the
model use one number per identity.
 */
module StreamIds {
  import AuditScripts

  const PER_MILLISECOND: nat := AuditScripts.PER_MILLISECOND
  const MAXIMUM := "18446744073709551615"

  predicate IsDigit(c: char) { '0' <= c <= '9' }

  function Digit(c: char): nat requires IsDigit(c) { c as nat - '0' as nat }

  function DigitChar(d: nat): (c: char)
    requires d < 10
    ensures IsDigit(c) && Digit(c) == d
  {
    (d + '0' as nat) as char
  }

  predicate Decimal(s: string) { forall i :: 0 <= i < |s| ==> IsDigit(s[i]) }

  /** Redis writes numbers without leading zeros. */
  predicate Canonical(s: string) { Decimal(s) && |s| > 0 && (s[0] == '0' ==> |s| == 1) }

  function Power10(n: nat): (p: nat)
    ensures p > 0
  {
    if n == 0 then 1 else 10 * Power10(n - 1)
  }

  function Value(s: string): nat
    requires Decimal(s)
  {
    if s == "" then 0 else Digit(s[0]) * Power10(|s| - 1) + Value(s[1..])
  }

  lemma {:induction false} ValueBound(s: string)
    requires Decimal(s)
    ensures Value(s) < Power10(|s|)
  {
    if s != "" {
      ValueBound(s[1..]);
      DigitTimes(Digit(s[0]), Power10(|s| - 1));
    }
  }

  lemma DigitTimes(d: nat, p: nat)
    requires d <= 9
    ensures d * p <= 9 * p
  {
  }

  /** Digit-by-digit increment with a carry, right to left. */
  method Increment(value: string) returns (result: string)
    requires Decimal(value)
    ensures Decimal(result) && Value(result) == Value(value) + 1
    ensures Canonical(value) ==> Canonical(result)
  {
    result := "";
    var carry, i := 1, |value|;
    while i > 0
      invariant 0 <= i <= |value| && |result| == |value| - i && Decimal(result) && 0 <= carry <= 1
      invariant carry * Power10(|result|) + Value(result) == Value(value[i..]) + 1
      invariant i < |value| && value[i] != '0' ==> carry == 1 || result[0] != '0'
    {
      i := i - 1;
      ghost var tail, before := value[i + 1..], carry;
      assert value[i..][1..] == tail;
      var digit := Digit(value[i]) + carry;
      carry := if digit >= 10 then 1 else 0;
      ghost var shorter := result;
      result := [DigitChar(digit % 10)] + result;
      assert result[1..] == shorter;
      CarryStep(Digit(value[i]), before, Power10(|shorter|));
    }
    assert value[0..] == value;
    if carry == 1 {
      assert (['1'] + result)[1..] == result;
      result := ['1'] + result;
    }
  }

  lemma CarryStep(digit: nat, carry: nat, power: nat)
    ensures (digit + carry) * power == digit * power + carry * power
    ensures digit + carry >= 10 ==> (digit + carry) * power == 10 * power + (digit + carry - 10) * power
  {
  }

  /** Text order of two equally long strings. */
  predicate TextGreater(a: string, b: string)
    requires |a| == |b|
  {
    a != "" && (a[0] > b[0] || (a[0] == b[0] && TextGreater(a[1..], b[1..])))
  }

  /** One part of the script's `greater`. */
  predicate PartGreater(a: string, b: string) {
    |a| > |b| || (|a| == |b| && TextGreater(a, b))
  }

  /** `greater` on the two parts of an identity. */
  predicate Greater(lm: string, ls: string, rm: string, rs: string) {
    if lm != rm then PartGreater(lm, rm) else PartGreater(ls, rs)
  }

  lemma {:induction false} TextGreaterIsNumeric(a: string, b: string)
    requires |a| == |b| && Decimal(a) && Decimal(b)
    ensures TextGreater(a, b) <==> Value(a) > Value(b)
    ensures a == b <==> Value(a) == Value(b)
  {
    if a != "" {
      TextGreaterIsNumeric(a[1..], b[1..]);
      ValueBound(a[1..]);
      ValueBound(b[1..]);
      LeadingDigit(Digit(a[0]), Digit(b[0]), Power10(|a| - 1), Value(a[1..]), Value(b[1..]));
      assert a == [a[0]] + a[1..] && b == [b[0]] + b[1..];
    }
  }

  lemma LeadingDigit(da: nat, db: nat, power: nat, ra: nat, rb: nat)
    requires ra < power && rb < power
    ensures da > db ==> da * power + ra > db * power + rb
    ensures da < db ==> da * power + ra < db * power + rb
  {
    if da > db { assert da * power >= (db + 1) * power; }
    if da < db { assert db * power >= (da + 1) * power; }
  }

  lemma {:induction false} Power10Grows(m: nat, n: nat)
    requires m <= n
    ensures Power10(m) <= Power10(n)
    decreases n
  {
    if m < n { Power10Grows(m, n - 1); }
  }

  lemma LongerIsLarger(a: string, b: string)
    requires Canonical(a) && Canonical(b) && |a| > |b|
    ensures Value(a) > Value(b)
  {
    ValueBound(b);
    Power10Grows(|b|, |a| - 1);
    AtLeastOnce(Digit(a[0]), Power10(|a| - 1));
  }

  lemma AtLeastOnce(digit: nat, power: nat)
    requires digit >= 1
    ensures digit * power >= power
  {
  }

  lemma PartGreaterIsNumeric(a: string, b: string)
    requires Canonical(a) && Canonical(b)
    ensures PartGreater(a, b) <==> Value(a) > Value(b)
    ensures a == b <==> Value(a) == Value(b)
  {
    if |a| == |b| { TextGreaterIsNumeric(a, b); }
    else if |a| > |b| { LongerIsLarger(a, b); }
    else { LongerIsLarger(b, a); }
  }

  /** The one number standing for an identity. */
  function Flat(ms: nat, sequence: nat): nat { ms * PER_MILLISECOND + sequence }

  lemma FlatParts(ms: nat, sequence: nat)
    requires sequence < PER_MILLISECOND
    ensures Flat(ms, sequence) / PER_MILLISECOND == ms && Flat(ms, sequence) % PER_MILLISECOND == sequence
  {
  }

  /** `greater` is the order of the flattened identities. */
  lemma GreaterIsNumeric(lm: string, ls: string, rm: string, rs: string)
    requires Canonical(lm) && Canonical(ls) && Canonical(rm) && Canonical(rs)
    requires Value(ls) < PER_MILLISECOND && Value(rs) < PER_MILLISECOND
    ensures Greater(lm, ls, rm, rs) <==> Flat(Value(lm), Value(ls)) > Flat(Value(rm), Value(rs))
  {
    PartGreaterIsNumeric(lm, rm);
    PartGreaterIsNumeric(ls, rs);
    LeadingDigit(Value(lm), Value(rm), PER_MILLISECOND, Value(ls), Value(rs));
  }

  /** The identity after the last archived one, computed on its two parts. */
  function NextParts(ms: nat, sequence: nat): (nat, nat) {
    if sequence < PER_MILLISECOND - 1 then (ms, sequence + 1) else (ms + 1, 0)
  }

  lemma NextPartsIsSuccessor(ms: nat, sequence: nat)
    requires sequence < PER_MILLISECOND
    ensures var (m, q) := NextParts(ms, sequence); q < PER_MILLISECOND && Flat(m, q) == Flat(ms, sequence) + 1
  {
  }

  /** Reading one more digit on the right. */
  lemma {:induction false} ValueAppend(s: string, c: char)
    requires Decimal(s) && IsDigit(c)
    ensures Value(s + [c]) == 10 * Value(s) + Digit(c)
  {
    if s == "" {
      assert s + [c] == [c];
    } else {
      ValueAppend(s[1..], c);
      assert (s + [c])[1..] == s[1..] + [c];
      Tenfold(Digit(s[0]), Power10(|s| - 1));
    }
  }

  lemma Tenfold(digit: nat, power: nat)
    ensures digit * (10 * power) == 10 * (digit * power)
  {
  }

  /** The number written by the first `k` digits. */
  function Prefix(s: string, k: nat): nat
    requires Decimal(s) && k <= |s|
  {
    if k == 0 then 0 else 10 * Prefix(s, k - 1) + Digit(s[k - 1])
  }

  lemma {:induction false} PrefixIsValue(s: string, k: nat)
    requires Decimal(s) && k <= |s|
    ensures Prefix(s, k) == Value(s[..k])
  {
    if k > 0 {
      PrefixIsValue(s, k - 1);
      ValueAppend(s[..k - 1], s[k - 1]);
      assert s[..k] == s[..k - 1] + [s[k - 1]];
    }
  }

  lemma ValueOfMaximum(m: string)
    requires m == MAXIMUM
    ensures Canonical(m) && Value(m) == PER_MILLISECOND - 1
  {
    MaximumDigits(m);
    PrefixIsValue(m, |m|);
    assert m[..|m|] == m;
  }

  lemma FourDigits(s: string, k: nat, v: nat)
    requires Decimal(s) && k + 4 <= |s| && Prefix(s, k) == v
    ensures Prefix(s, k + 4)
         == v * 10000 + Digit(s[k]) * 1000 + Digit(s[k + 1]) * 100 + Digit(s[k + 2]) * 10 + Digit(s[k + 3])
  {
    assert Prefix(s, k + 2) == v * 100 + Digit(s[k]) * 10 + Digit(s[k + 1]);
  }

  lemma MaximumDigits(m: string)
    requires m == MAXIMUM
    ensures Decimal(m) && Prefix(m, |m|) == PER_MILLISECOND - 1
  {
    var k := |m| - 20;
    FourDigits(m, k, 0);
    FourDigits(m, k + 4, 1844);
    FourDigits(m, k + 8, 18446744);
    FourDigits(m, k + 12, 184467440737);
    FourDigits(m, k + 16, 1844674407370955);
  }

  /** The script's exhaustion test: increment the sequence `count` times, compare with the
      64-bit maximum. */
  method Exhausted(ms: string, sequence: string, count: nat) returns (exhausted: bool)
    requires Canonical(ms) && Canonical(sequence)
    requires Value(ms) < PER_MILLISECOND && Value(sequence) < PER_MILLISECOND && count < PER_MILLISECOND
    ensures exhausted <==> Flat(Value(ms), Value(sequence)) + count > Flat(PER_MILLISECOND - 1, PER_MILLISECOND - 1)
    ensures exhausted <==> AuditScripts.Exhausted(Flat(Value(ms), Value(sequence)), count)
  {
    FlatParts(Value(ms), Value(sequence));
    var maximum := MAXIMUM;
    ValueOfMaximum(maximum);
    PartGreaterIsNumeric(ms, maximum);
    if ms != maximum { return false; }
    var s := sequence;
    for i := 0 to count
      invariant Canonical(s) && Value(s) == Value(sequence) + i
    {
      s := Increment(s);
    }
    PartGreaterIsNumeric(s, maximum);
    exhausted := PartGreater(s, maximum);
  }
}
