/**
What the hashed text says: two records have one canonical text only if they are the same
record, so that hashing texts without collisions is hashing records without collisions.
 */
module AuditText {
  import opened Options
  import opened AuditLog
  import opened AuditCodec
  import AuditVerify

  // ----- reading a text from its front -----

  /** A JSON string begins with a quote and shows where it ends and what it says. */
  ghost predicate Quotes(lib: Library) {
    && (forall t :: lib.quote(t) != "" && lib.quote(t)[0] == '"')
    && (forall t, u, x, y :: lib.quote(t) + x == lib.quote(u) + y ==> t == u)
  }

  predicate NumberChar(c: char) { '0' <= c <= '9' || c in "-+.eE" }

  predicate Numeral(digits: string) {
    digits != "" && forall i :: 0 <= i < |digits| ==> NumberChar(digits[i])
  }

  /** All numbers in the value are written as numbers are. */
  predicate Proper(v: Json)
    decreases v, 1
  {
    match v
    case Number(digits) => Numeral(digits)
    case List(items) => ProperItems(items)
    case Object(members) => ProperMembers(members)
    case _ => true
  }

  predicate ProperItems(items: seq<Json>)
    decreases items, 0
  {
    items == [] || (Proper(items[0]) && ProperItems(items[1..]))
  }

  predicate ProperMembers(members: seq<Member>)
    decreases members, 0
  {
    members == [] || (Proper(members[0].value) && ProperMembers(members[1..]))
  }

  /** What may follow a value. */
  predicate Ends(x: string) { x == "" || x[0] in ",]}" }

  /** The first character of a value tells its kind. */
  function Kind(c: char): nat {
    if c == 'n' then 0 else if c == 't' then 1 else if c == 'f' then 2 else if NumberChar(c) then 3
    else if c == '"' then 4 else if c == '[' then 5 else if c == '{' then 6 else 7
  }

  function KindOf(v: Json): nat {
    match v
    case Null => 0
    case Bool(truth) => if truth then 1 else 2
    case Number(_) => 3
    case Text(_) => 4
    case List(_) => 5
    case Object(_) => 6
  }

  lemma FirstChar(lib: Library, v: Json)
    requires Quotes(lib) && Proper(v)
    ensures Dump(lib, v) != "" && Kind(Dump(lib, v)[0]) == KindOf(v)
  {
    match v
    case Text(t) => assert lib.quote(t)[0] == '"';
    case _ =>
  }

  /** How many characters of a number a text begins with. */
  function Digits(s: string): nat { if s == "" || !NumberChar(s[0]) then 0 else 1 + Digits(s[1..]) }

  lemma {:induction false} NumeralLength(a: string, x: string)
    requires Ends(x) && forall i :: 0 <= i < |a| ==> NumberChar(a[i])
    ensures Digits(a + x) == |a|
  {
    if a == "" {
      assert a + x == x;
    } else {
      NumeralLength(a[1..], x);
      assert (a + x)[1..] == a[1..] + x;
    }
  }

  lemma SameNumeral(a: string, b: string, x: string, y: string)
    requires a + x == b + y && Ends(x) && Ends(y)
    requires forall i :: 0 <= i < |a| ==> NumberChar(a[i])
    requires forall i :: 0 <= i < |b| ==> NumberChar(b[i])
    ensures a == b && x == y
  {
    NumeralLength(a, x);
    NumeralLength(b, y);
    assert a == (a + x)[..|a|] && b == (b + y)[..|b|];
    assert x == (a + x)[|a|..] && y == (b + y)[|b|..];
  }

  lemma SamePrefix(p: string, x: string, y: string)
    requires p + x == p + y
    ensures x == y
  {
    assert x == (p + x)[|p|..] && y == (p + y)[|p|..];
  }

  function ItemsTail(lib: Library, items: seq<Json>): string
    requires items != []
  {
    if |items| == 1 then "" else "," + DumpItems(lib, items[1..])
  }

  function MembersTail(lib: Library, members: seq<Member>): string
    requires members != []
  {
    if |members| == 1 then "" else "," + DumpMembers(lib, members[1..])
  }

  /** A text begins with at most one value. */
  lemma {:induction false} SameValue(lib: Library, a: Json, b: Json, x: string, y: string)
    requires Quotes(lib) && Proper(a) && Proper(b) && Ends(x) && Ends(y)
    requires Dump(lib, a) + x == Dump(lib, b) + y
    ensures a == b && x == y
    decreases a, 1
  {
    FirstChar(lib, a);
    FirstChar(lib, b);
    assert (Dump(lib, a) + x)[0] == Dump(lib, a)[0] && (Dump(lib, b) + y)[0] == Dump(lib, b)[0];
    assert KindOf(a) == KindOf(b);
    match a
    case Null => SamePrefix("null", x, y);
    case Bool(truth) => SamePrefix(if truth then "true" else "false", x, y);
    case Number(digits) => SameNumeral(digits, b.digits, x, y);
    case Text(text) =>
      assert text == b.text;
      SamePrefix(lib.quote(text), x, y);
    case List(items) =>
      Opened("[", DumpItems(lib, items), "]", x, DumpItems(lib, b.items), y);
      SameItems(lib, items, b.items, x, y);
    case Object(members) =>
      Opened("{", DumpMembers(lib, members), "}", x, DumpMembers(lib, b.members), y);
      SameMembers(lib, members, b.members, x, y);
  }

  lemma Opened(open: string, a: string, close: string, x: string, b: string, y: string)
    requires open + a + close + x == open + b + close + y
    ensures a + (close + x) == b + (close + y)
  {
    assert open + a + close + x == open + (a + (close + x));
    assert open + b + close + y == open + (b + (close + y));
    SamePrefix(open, a + (close + x), b + (close + y));
  }

  lemma {:induction false} SameItems(lib: Library, a: seq<Json>, b: seq<Json>, x: string, y: string)
    requires Quotes(lib) && ProperItems(a) && ProperItems(b) && Ends(x) && Ends(y)
    requires DumpItems(lib, a) + ("]" + x) == DumpItems(lib, b) + ("]" + y)
    ensures a == b && x == y
    decreases a, 0
  {
    ItemsBegin(lib, a, x);
    ItemsBegin(lib, b, y);
    if a == [] {
      Bare("]", x, y);
    } else {
      var s, t := ItemsTail(lib, a) + ("]" + x), ItemsTail(lib, b) + ("]" + y);
      SameValue(lib, a[0], b[0], s, t);
      if |a| == 1 {
        Bare("]", x, y);
        assert a == [a[0]] && b == [b[0]];
      } else {
        Behind(DumpItems(lib, a[1..]), "]" + x, DumpItems(lib, b[1..]), "]" + y);
        SameItems(lib, a[1..], b[1..], x, y);
        assert a == [a[0]] + a[1..] && b == [b[0]] + b[1..];
      }
    }
  }

  lemma Bare(close: string, x: string, y: string)
    ensures "" + (close + x) == "" + (close + y) ==> x == y
  {
    if "" + (close + x) == "" + (close + y) {
      SamePrefix("", close + x, close + y);
      SamePrefix(close, x, y);
    }
  }

  lemma Behind(a: string, x: string, b: string, y: string)
    requires ("," + a) + x == ("," + b) + y
    ensures a + x == b + y
  {
    assert ("," + a) + x == "," + (a + x) && ("," + b) + y == "," + (b + y);
    SamePrefix(",", a + x, b + y);
  }

  lemma NotClosing(lib: Library, v: Json)
    requires Quotes(lib) && Proper(v)
    ensures Dump(lib, v) != "" && !Ends(Dump(lib, v))
  {
    FirstChar(lib, v);
  }

  lemma Regrouped(a: string, b: string, c: string)
    ensures (a + b) + c == a + (b + c)
  {
  }

  /** What follows the first element: the closing bracket at once, or a comma. */
  lemma TailBegins(rest: string, last: bool, close: char, x: string)
    requires close in "]}"
    ensures var tail := if last then "" else "," + rest;
      Ends(tail + ([close] + x)) && ((tail + ([close] + x))[0] == close <==> last)
  {
    if last { assert "" + ([close] + x) == [close] + x; } else { assert ("," + rest + ([close] + x))[0] == ','; }
  }

  /** The first character shows whether a list, or the rest of one, is empty. */
  lemma ItemsBegin(lib: Library, a: seq<Json>, x: string)
    requires Quotes(lib) && ProperItems(a)
    ensures (DumpItems(lib, a) + ("]" + x))[0] == ']' <==> a == []
    ensures a != [] ==>
      && DumpItems(lib, a) + ("]" + x) == Dump(lib, a[0]) + (ItemsTail(lib, a) + ("]" + x))
      && Ends(ItemsTail(lib, a) + ("]" + x)) && Proper(a[0])
      && ((ItemsTail(lib, a) + ("]" + x))[0] == ']' <==> |a| == 1)
  {
    if a != [] {
      NotClosing(lib, a[0]);
      assert DumpItems(lib, a) == Dump(lib, a[0]) + ItemsTail(lib, a);
      Regrouped(Dump(lib, a[0]), ItemsTail(lib, a), "]" + x);
      TailBegins(if |a| == 1 then "" else DumpItems(lib, a[1..]), |a| == 1, ']', x);
    } else {
      assert "" + ("]" + x) == "]" + x;
    }
  }

  lemma {:induction false} SameMembers(lib: Library, a: seq<Member>, b: seq<Member>, x: string, y: string)
    requires Quotes(lib) && ProperMembers(a) && ProperMembers(b) && Ends(x) && Ends(y)
    requires DumpMembers(lib, a) + ("}" + x) == DumpMembers(lib, b) + ("}" + y)
    ensures a == b && x == y
    decreases a, 0
  {
    MembersBegin(lib, a, x);
    MembersBegin(lib, b, y);
    if a == [] {
      Bare("}", x, y);
    } else {
      var s, t := MembersTail(lib, a) + ("}" + x), MembersTail(lib, b) + ("}" + y);
      SameName(lib, a[0].name, b[0].name, Dump(lib, a[0].value) + s, Dump(lib, b[0].value) + t);
      SameValue(lib, a[0].value, b[0].value, s, t);
      if |a| == 1 {
        Bare("}", x, y);
        assert a == [a[0]] && b == [b[0]];
      } else {
        Behind(DumpMembers(lib, a[1..]), "}" + x, DumpMembers(lib, b[1..]), "}" + y);
        SameMembers(lib, a[1..], b[1..], x, y);
        assert a == [a[0]] + a[1..] && b == [b[0]] + b[1..];
      }
    }
  }

  lemma SameName(lib: Library, a: string, b: string, x: string, y: string)
    requires Quotes(lib) && lib.quote(a) + (":" + x) == lib.quote(b) + (":" + y)
    ensures a == b && x == y
  {
    SamePrefix(lib.quote(a), ":" + x, ":" + y);
    SamePrefix(":", x, y);
  }

  lemma MembersBegin(lib: Library, a: seq<Member>, x: string)
    requires Quotes(lib) && ProperMembers(a)
    ensures (DumpMembers(lib, a) + ("}" + x))[0] == '}' <==> a == []
    ensures a != [] ==>
      && DumpMembers(lib, a) + ("}" + x)
         == lib.quote(a[0].name) + (":" + (Dump(lib, a[0].value) + (MembersTail(lib, a) + ("}" + x))))
      && Ends(MembersTail(lib, a) + ("}" + x)) && Proper(a[0].value)
      && ((MembersTail(lib, a) + ("}" + x))[0] == '}' <==> |a| == 1)
  {
    if a != [] {
      var name, value := lib.quote(a[0].name), Dump(lib, a[0].value);
      MembersAre(lib, a);
      Shifted(name, value, MembersTail(lib, a), "}" + x);
      TailBegins(if |a| == 1 then "" else DumpMembers(lib, a[1..]), |a| == 1, '}', x);
    } else {
      assert "" + ("}" + x) == "}" + x;
    }
  }

  lemma MembersAre(lib: Library, a: seq<Member>)
    requires Quotes(lib) && a != []
    ensures DumpMembers(lib, a) == (lib.quote(a[0].name) + ":" + Dump(lib, a[0].value)) + MembersTail(lib, a)
    ensures lib.quote(a[0].name) != "" && lib.quote(a[0].name)[0] == '"'
  {
    var first := lib.quote(a[0].name) + ":" + Dump(lib, a[0].value);
    if |a| == 1 { assert first + "" == first; }
    else { Regrouped(first, ",", DumpMembers(lib, a[1..])); }
  }

  lemma Shifted(name: string, value: string, tail: string, x: string)
    requires name != ""
    ensures ((name + ":" + value) + tail) + x == name + (":" + (value + (tail + x)))
    ensures (((name + ":" + value) + tail) + x)[0] == name[0]
  {
  }

  /** Records with one canonical text are one record. */
  lemma CanonicalIsInjective(lib: Library, a: seq<Member>, b: seq<Member>)
    requires Quotes(lib) && ProperMembers(a) && ProperMembers(b) && Canonical(lib, a) == Canonical(lib, b)
    ensures a == b
  {
    assert Canonical(lib, a) + "" == Canonical(lib, b) + "";
    SameValue(lib, Object(a), Object(b), "", "");
  }

  // ----- the records of the two streams -----

  /** The fields of a record that no operation inspects. */
  datatype MessageBody = MessageBody(
    timestamp: string, instance: Option<string>, kind: Option<string>, correlation: Option<string>,
    latency: string, payloadHash: string, violations: seq<string>)

  datatype SecurityBody = SecurityBody(timestamp: string, eventType: string, details: Json)

  function Texts(ts: seq<string>): (r: seq<Json>)
    ensures |r| == |ts| && forall i :: 0 <= i < |ts| ==> r[i] == Text(ts[i])
  {
    seq(|ts|, i requires 0 <= i < |ts| => Text(ts[i]))
  }

  lemma {:induction false} ProperTexts(texts: seq<Json>)
    requires forall i :: 0 <= i < |texts| ==> texts[i].Text?
    ensures ProperItems(texts)
  {
    if texts != [] { ProperTexts(texts[1..]); }
  }

  /** The rest of a record as its model holds it, and the decimal text of its version. */
  datatype Shape = Shape(message: string -> MessageBody, security: string -> SecurityBody, decimal: nat -> string) {
    /** Nothing of a body is lost, and numbers are written as numbers. */
    ghost predicate Lawful() {
      && (forall s, t :: message(s) == message(t) ==> s == t)
      && (forall s, t :: security(s) == security(t) ==> s == t)
      && (forall m, n :: decimal(m) == decimal(n) ==> m == n)
      && (forall n :: Numeral(decimal(n)))
      && (forall s :: Numeral(message(s).timestamp) && Numeral(message(s).latency))
      && (forall s :: Numeral(security(s).timestamp) && Proper(security(s).details))
    }

    /** The members before and after the link, in key order. */
    function Front(e: Entry): seq<Member> {
      match e
      case Message(messageId, _, _, decision, body, _, version) =>
        var b := message(body);
        [Member("correlation_id", LinkValue(b.correlation)), Member("decision", Text(decision)),
         Member("hash_version", Number(decimal(version))), Member("latency_ms", Number(b.latency)),
         Member("message_id", Text(messageId)), Member("message_type", LinkValue(b.kind)),
         Member("payload_hash", Text(b.payloadHash))]
      case Security(body, _, version) =>
        [Member("details", security(body).details), Member("event_type", Text(security(body).eventType)),
         Member("hash_version", Number(decimal(version)))]
    }

    function Back(e: Entry): seq<Member> {
      match e
      case Message(_, sender, target, _, body, _, _) =>
        var b := message(body);
        [Member("sender_id", Text(sender)), Member("sender_instance_id", LinkValue(b.instance)),
         Member("target_id", Text(target)), Member("timestamp", Number(b.timestamp)),
         Member("violations", List(Texts(b.violations)))]
      case Security(body, _, _) => [Member("timestamp", Number(security(body).timestamp))]
    }

    function Record(e: Entry): seq<Member> { Whole(Front(e), e.previous, Back(e)) }
  }

  lemma {:induction false} ProperAll(members: seq<Member>)
    requires forall i :: 0 <= i < |members| ==> Proper(members[i].value)
    ensures ProperMembers(members)
  {
    if members != [] { ProperAll(members[1..]); }
  }

  lemma RecordIsProper(shape: Shape, e: Entry)
    requires shape.Lawful()
    ensures ProperMembers(shape.Record(e))
  {
    if e.Message? { ProperTexts(Texts(shape.message(e.body).violations)); }
    ProperAll(shape.Record(e));
  }

  lemma TextsDiffer(a: seq<string>, b: seq<string>)
    requires Texts(a) == Texts(b)
    ensures a == b
  {
    forall i | 0 <= i < |a| ensures a[i] == b[i] { assert Texts(a)[i] == Texts(b)[i]; }
  }

  lemma PartsOfWhole(a: seq<Member>, p: Option<Hash>, b: seq<Member>, c: seq<Member>, q: Option<Hash>, d: seq<Member>)
    requires Whole(a, p, b) == Whole(c, q, d) && |a| == |c|
    ensures a == c && p == q && b == d
  {
    assert a == Whole(a, p, b)[..|a|] && c == Whole(c, q, d)[..|c|];
    assert b == Whole(a, p, b)[|a| + 1..] && d == Whole(c, q, d)[|c| + 1..];
    assert Whole(a, p, b)[|a|] == Member(LINK, LinkValue(p)) && Whole(c, q, d)[|c|] == Member(LINK, LinkValue(q));
  }

  /** No two records have the same members. */
  lemma RecordIsInjective(shape: Shape, a: Entry, b: Entry)
    requires shape.Lawful() && shape.Record(a) == shape.Record(b)
    ensures a == b
  {
    assert shape.Record(a)[0] == shape.Front(a)[0] && shape.Record(b)[0] == shape.Front(b)[0];
    assert "correlation_id"[0] == 'c' && "details"[0] == 'd';
    PartsOfWhole(shape.Front(a), a.previous, shape.Back(a), shape.Front(b), b.previous, shape.Back(b));
    if a.Message? { SameMessage(shape, a, b); } else { SameSecurity(shape, a, b); }
  }

  lemma SameMessage(shape: Shape, a: Entry, b: Entry)
    requires shape.Lawful() && a.Message? && b.Message? && a.previous == b.previous
    requires shape.Front(a) == shape.Front(b) && shape.Back(a) == shape.Back(b)
    ensures a == b
  {
    var f, g, x, y := shape.Front(a), shape.Front(b), shape.Back(a), shape.Back(b);
    assert f[0] == g[0] && f[1] == g[1] && f[2] == g[2] && f[3] == g[3] && f[4] == g[4] && f[5] == g[5] && f[6] == g[6];
    assert x[0] == y[0] && x[1] == y[1] && x[2] == y[2] && x[3] == y[3] && x[4] == y[4];
    TextsDiffer(shape.message(a.body).violations, shape.message(b.body).violations);
    assert shape.message(a.body) == shape.message(b.body);
  }

  lemma SameSecurity(shape: Shape, a: Entry, b: Entry)
    requires shape.Lawful() && a.Security? && b.Security? && a.previous == b.previous
    requires shape.Front(a) == shape.Front(b) && shape.Back(a) == shape.Back(b)
    ensures a == b
  {
    var f, g, x, y := shape.Front(a), shape.Front(b), shape.Back(a), shape.Back(b);
    assert f[0] == g[0] && f[1] == g[1] && f[2] == g[2] && x[0] == y[0];
    assert shape.security(a.body) == shape.security(b.body);
  }

  /** The record hash is a hash of the canonical text. */
  ghost predicate HashesText(log: Log, lib: Library, shape: Shape, sha: string -> Hash) {
    forall e :: log.hash(e) == sha(Canonical(lib, shape.Record(e)))
  }

  /**
  If no two texts have one hash then no two records do: the chain then detects every change
  of any field, the items of a list included.
   */
  lemma TextHashIsInjective(log: Log, lib: Library, shape: Shape, sha: string -> Hash)
    requires Quotes(lib) && shape.Lawful() && HashesText(log, lib, shape, sha)
    requires forall s, t :: sha(s) == sha(t) ==> s == t
    ensures AuditVerify.Injective(log)
  {
    forall a, b | log.hash(a) == log.hash(b) ensures a == b {
      RecordIsProper(shape, a);
      RecordIsProper(shape, b);
      CanonicalIsInjective(lib, shape.Record(a), shape.Record(b));
      RecordIsInjective(shape, a, b);
    }
  }

  /** And the text spliced around the link at each attempt is the one whose hash the linked
      record has in the chain. */
  lemma SplicedHash(log: Log, lib: Library, shape: Shape, sha: string -> Hash, e: Entry, previous: Option<Hash>)
    requires HashesText(log, lib, shape, sha) && lib.quote(LINK) == "\"" + LINK + "\""
    ensures var p := FromEntry(lib, shape.Front(e), shape.Back(e));
      log.hash(e.(previous := previous)) == sha(p.prefix + Dump(lib, LinkValue(previous)) + p.suffix)
  {
    SpliceIsCanonical(lib, shape.Front(e), previous, shape.Back(e));
    assert shape.Front(e.(previous := previous)) == shape.Front(e);
    assert shape.Back(e.(previous := previous)) == shape.Back(e);
  }
}
