/**
`PreparedAuditEntry`: a record is serialised once with its chain link left open, and the
link is spliced in at every append attempt.  The spliced text, hash and stored fields are
shown to be those of serialising the whole linked record, and decoding the stored fields
gives that record back.

A record is the list of its members in key order, `previous_hash` being one of them.
 */
module AuditCodec {
  import opened Options

  datatype Json =
    | Null
    | Bool(truth: bool)
    | Number(digits: string)
    | Text(text: string)
    | List(items: seq<Json>)
    | Object(members: seq<Member>)

  datatype Member = Member(name: string, value: Json)

  /** The library functions the module calls: `quote` writes a JSON string, `dumps` and
      `loads` are the JSON text form of stored lists and objects. */
  datatype Library = Library(quote: string -> string, dumps: Json -> string, loads: string -> Option<Json>)

  const LINK := "previous_hash"

  function Dump(lib: Library, v: Json): string
    decreases v, 1
  {
    match v
    case Null => "null"
    case Bool(truth) => if truth then "true" else "false"
    case Number(digits) => digits
    case Text(text) => lib.quote(text)
    case List(items) => "[" + DumpItems(lib, items) + "]"
    case Object(members) => "{" + DumpMembers(lib, members) + "}"
  }

  function DumpItems(lib: Library, items: seq<Json>): string
    decreases items, 0
  {
    if items == [] then ""
    else if |items| == 1 then Dump(lib, items[0])
    else Dump(lib, items[0]) + "," + DumpItems(lib, items[1..])
  }

  function DumpMembers(lib: Library, members: seq<Member>): string
    decreases members, 0
  {
    if members == [] then ""
    else
      var first := lib.quote(members[0].name) + ":" + Dump(lib, members[0].value);
      if |members| == 1 then first else first + "," + DumpMembers(lib, members[1..])
  }

  function LinkValue(previous: Option<string>): Json {
    if previous.Some? then Text(previous.value) else Null
  }

  /** The whole record with its chain link filled in. */
  function Whole(before: seq<Member>, previous: Option<string>, after: seq<Member>): seq<Member> {
    before + [Member(LINK, LinkValue(previous))] + after
  }

  /** The plain path: `_hash_entry` hashes this text. */
  function Canonical(lib: Library, record: seq<Member>): string { Dump(lib, Object(record)) }

  /** A stored field: text as it is, numbers by `str`, lists and objects as JSON. */
  function Stored(lib: Library, v: Json): string {
    match v
    case Null => "None"
    case Bool(truth) => if truth then "True" else "False"
    case Number(digits) => digits
    case Text(text) => text
    case List(_) => lib.dumps(v)
    case Object(_) => lib.dumps(v)
  }

  /** The plain path: `_entry_to_stream_fields` leaves out missing values. */
  function StreamFields(lib: Library, record: seq<Member>): map<string, string> {
    if record == [] then map[]
    else
      var n := |record| - 1;
      var rest := StreamFields(lib, record[..n]);
      if record[n].value.Null? then rest else rest[record[n].name := Stored(lib, record[n].value)]
  }

  datatype Prepared = Prepared(prefix: string, suffix: string, fields: seq<(string, Option<string>)>)

  function PreparedField(lib: Library, m: Member): (string, Option<string>) {
    (m.name, if m.value.Null? then None else Some(Stored(lib, m.value)))
  }

  /** `from_entry`: serialise the members before and after the link. */
  function FromEntry(lib: Library, before: seq<Member>, after: seq<Member>): Prepared {
    var head := Dump(lib, Object(before));
    Prepared(
      head[..|head| - 1] + (if before == [] then "" else ",") + "\"" + LINK + "\":",
      (if after == [] then "" else ",") + Dump(lib, Object(after))[1..],
      OpenFields(lib, before) + [(LINK, None)] + OpenFields(lib, after))
  }

  function OpenFields(lib: Library, members: seq<Member>): seq<(string, Option<string>)> {
    if members == [] then []
    else
      var n := |members| - 1;
      OpenFields(lib, members[..n])
      + if members[n].value.Null? then [] else [PreparedField(lib, members[n])]
  }

  lemma {:induction false} DumpConcat(lib: Library, a: seq<Member>, b: seq<Member>)
    ensures DumpMembers(lib, a + b) ==
      DumpMembers(lib, a) + (if a == [] || b == [] then "" else ",") + DumpMembers(lib, b)
  {
    if a == [] {
      assert a + b == b;
    } else if b == [] {
      assert a + b == a;
    } else {
      assert (a + b)[1..] == a[1..] + b;
      DumpConcat(lib, a[1..], b);
      if |a| == 1 { assert a[1..] == []; }
    }
  }

  /** The fields a prepared record stores once its link is known. */
  function Fill(fields: seq<(string, Option<string>)>, previous: Option<string>): map<string, string> {
    if fields == [] then map[]
    else
      var n := |fields| - 1;
      var rest := Fill(fields[..n], previous);
      var value := if fields[n].0 == LINK then previous else fields[n].1;
      if value.Some? then rest[fields[n].0 := value.value] else rest
  }

  /** `linked`: fill the predecessor without serialising the record again. */
  method Linked(lib: Library, p: Prepared, previous: Option<string>)
    returns (fields: map<string, string>, canonical: string)
    ensures fields == Fill(p.fields, previous)
    ensures canonical == p.prefix + Dump(lib, LinkValue(previous)) + p.suffix
  {
    fields := map[];
    for i := 0 to |p.fields|
      invariant fields == Fill(p.fields[..i], previous)
    {
      var value := if p.fields[i].0 == LINK then previous else p.fields[i].1;
      if value.Some? { fields := fields[p.fields[i].0 := value.value]; }
      assert p.fields[..i + 1][..i] == p.fields[..i];
    }
    assert p.fields[..|p.fields|] == p.fields;
    canonical := p.prefix + Dump(lib, LinkValue(previous)) + p.suffix;
  }

  ghost predicate NotLink(members: seq<Member>) {
    forall i :: 0 <= i < |members| ==> members[i].name != LINK
  }

  lemma Regroup(head: string, comma: string, key: string, value: string, comma': string, tail: string)
    ensures ("{" + head + comma + key) + value + (comma' + tail + "}")
         == "{" + (head + comma + (key + value) + comma' + tail) + "}"
  {
  }

  lemma Trimmed(inner: string)
    ensures var text := "{" + inner + "}"; text[..|text| - 1] == "{" + inner && text[1..] == inner + "}"
  {
  }

  lemma DumpWhole(lib: Library, before: seq<Member>, link: Member, after: seq<Member>)
    ensures DumpMembers(lib, before + [link] + after) ==
      DumpMembers(lib, before) + (if before == [] then "" else ",")
      + (lib.quote(link.name) + ":" + Dump(lib, link.value))
      + (if after == [] then "" else ",") + DumpMembers(lib, after)
  {
    DumpConcat(lib, before + [link], after);
    DumpConcat(lib, before, [link]);
  }

  /** Splicing the link yields the canonical text of the whole record. */
  lemma SpliceIsCanonical(lib: Library, before: seq<Member>, previous: Option<string>, after: seq<Member>)
    requires lib.quote(LINK) == "\"" + LINK + "\""
    ensures var p := FromEntry(lib, before, after);
      p.prefix + Dump(lib, LinkValue(previous)) + p.suffix == Canonical(lib, Whole(before, previous, after))
  {
    DumpWhole(lib, before, Member(LINK, LinkValue(previous)), after);
    Trimmed(DumpMembers(lib, before));
    Trimmed(DumpMembers(lib, after));
    Splice(lib, DumpMembers(lib, before), if before == [] then "" else ",", Dump(lib, LinkValue(previous)),
           if after == [] then "" else ",", DumpMembers(lib, after));
  }

  lemma Splice(lib: Library, head: string, comma: string, value: string, comma': string, tail: string)
    requires lib.quote(LINK) == "\"" + LINK + "\""
    ensures ("{" + head) + comma + "\"" + LINK + "\":" + value + (comma' + (tail + "}"))
         == "{" + (head + comma + (lib.quote(LINK) + ":" + value) + comma' + tail) + "}"
  {
    var key := lib.quote(LINK) + ":";
    assert "\"" + LINK + "\":" == key;
    assert ("{" + head) + comma + "\"" + LINK + "\":" == "{" + head + comma + key;
    Regroup(head, comma, key, value, comma', tail);
    assert comma' + (tail + "}") == comma' + tail + "}";
  }

  lemma {:induction false} FillConcat(a: seq<(string, Option<string>)>, b: seq<(string, Option<string>)>,
                                      previous: Option<string>)
    ensures Fill(a + b, previous) == Fill(a, previous) + Fill(b, previous)
  {
    if b == [] {
      assert a + b == a;
    } else {
      var n := |b| - 1;
      FillConcat(a, b[..n], previous);
      assert (a + b)[..|a| + n] == a + b[..n];
    }
  }

  lemma {:induction false} StreamFieldsConcat(lib: Library, a: seq<Member>, b: seq<Member>)
    ensures StreamFields(lib, a + b) == StreamFields(lib, a) + StreamFields(lib, b)
  {
    if b == [] {
      assert a + b == a;
    } else {
      var n := |b| - 1;
      StreamFieldsConcat(lib, a, b[..n]);
      assert (a + b)[..|a| + n] == a + b[..n];
    }
  }

  lemma {:induction false} OpenFieldsFill(lib: Library, members: seq<Member>, previous: Option<string>)
    requires NotLink(members)
    ensures Fill(OpenFields(lib, members), previous) == StreamFields(lib, members)
  {
    if members != [] {
      var n := |members| - 1;
      OpenFieldsFill(lib, members[..n], previous);
      if !members[n].value.Null? {
        assert OpenFields(lib, members)[..|OpenFields(lib, members)| - 1] == OpenFields(lib, members[..n]);
      } else {
        assert OpenFields(lib, members) == OpenFields(lib, members[..n]);
      }
    }
  }

  /** Filling the link yields the stored fields of the whole record. */
  lemma FillIsStreamFields(lib: Library, before: seq<Member>, previous: Option<string>, after: seq<Member>)
    requires NotLink(before) && NotLink(after)
    ensures Fill(FromEntry(lib, before, after).fields, previous) == StreamFields(lib, Whole(before, previous, after))
  {
    var link, open := [Member(LINK, LinkValue(previous))], [(LINK, None)];
    FillConcat(OpenFields(lib, before) + open, OpenFields(lib, after), previous);
    FillConcat(OpenFields(lib, before), open, previous);
    StreamFieldsConcat(lib, before + link, after);
    StreamFieldsConcat(lib, before, link);
    OpenFieldsFill(lib, before, previous);
    OpenFieldsFill(lib, after, previous);
    assert open[..0] == [] && link[..0] == [];
    assert Fill(open, previous) == StreamFields(lib, link);
  }

  /** How a stored field is read back. */
  datatype Kind = TextField | NumberField | JsonField

  datatype Column = Column(name: string, kind: Kind)

  predicate Fits(lib: Library, column: Column, m: Member) {
    && m.name == column.name
    && match m.value
       case Null => true
       case Bool(_) => false
       case Number(_) => column.kind.NumberField?
       case Text(_) => column.kind.TextField?
       case _ => column.kind.JsonField? && lib.loads(lib.dumps(m.value)) == Some(m.value)
  }

  /** The record has the model's columns, each missing or of its kind. */
  ghost predicate Conforms(lib: Library, model: seq<Column>, record: seq<Member>) {
    && |model| == |record|
    && (forall i :: 0 <= i < |model| ==> Fits(lib, model[i], record[i]))
    && (forall i, j :: 0 <= i < j < |model| ==> model[i].name != model[j].name)
  }

  function DecodeField(lib: Library, column: Column, fields: map<string, string>): Option<Json> {
    if column.name !in fields then Some(Null)
    else
      match column.kind
      case TextField => Some(Text(fields[column.name]))
      case NumberField => Some(Number(fields[column.name]))
      case JsonField => lib.loads(fields[column.name])
  }

  /** Decode every column of the model; any undecodable field makes the row malformed. */
  function Decode(lib: Library, model: seq<Column>, fields: map<string, string>): Option<seq<Member>> {
    if model == [] then Some([])
    else
      var n := |model| - 1;
      var rest, value := Decode(lib, model[..n], fields), DecodeField(lib, model[n], fields);
      if rest.Some? && value.Some? then Some(rest.value + [Member(model[n].name, value.value)]) else None
  }

  lemma {:induction false} StreamFieldsAt(lib: Library, model: seq<Column>, record: seq<Member>, k: nat)
    requires Conforms(lib, model, record) && k < |record|
    ensures if record[k].value.Null? then record[k].name !in StreamFields(lib, record)
            else record[k].name in StreamFields(lib, record)
                 && StreamFields(lib, record)[record[k].name] == Stored(lib, record[k].value)
  {
    StreamFieldsNames(lib, record);
    var n := |record| - 1;
    if k < n {
      StreamFieldsAt(lib, model[..n], record[..n], k);
      assert Fits(lib, model[k], record[k]) && Fits(lib, model[n], record[n]);
    } else if record[k].value.Null? {
      StreamFieldsNames(lib, record[..n]);
      forall i | 0 <= i < n ensures record[i].name != record[n].name {
        assert Fits(lib, model[i], record[i]) && Fits(lib, model[n], record[n]);
      }
    }
  }

  lemma {:induction false} StreamFieldsNames(lib: Library, record: seq<Member>)
    ensures forall name :: name in StreamFields(lib, record) ==> exists i :: 0 <= i < |record| && record[i].name == name
  {
    if record != [] {
      StreamFieldsNames(lib, record[..|record| - 1]);
    }
  }

  lemma {:induction false} DecodeFirst(lib: Library, model: seq<Column>, record: seq<Member>, n: nat)
    requires Conforms(lib, model, record) && n <= |record|
    ensures Decode(lib, model[..n], StreamFields(lib, record)) == Some(record[..n])
  {
    if n > 0 {
      DecodeFirst(lib, model, record, n - 1);
      StreamFieldsAt(lib, model, record, n - 1);
      assert Fits(lib, model[n - 1], record[n - 1]);
      assert model[..n][..n - 1] == model[..n - 1];
      assert record[..n] == record[..n - 1] + [record[n - 1]];
    }
  }

  /** Decoding the fields that `linked` stores gives back the linked record, so its hash is
      the hash of the spliced text. */
  lemma DecodeRestoresRecord(lib: Library, model: seq<Column>, before: seq<Member>, previous: Option<string>,
                             after: seq<Member>)
    requires lib.quote(LINK) == "\"" + LINK + "\"" && NotLink(before) && NotLink(after)
    requires Conforms(lib, model, Whole(before, previous, after))
    ensures var p := FromEntry(lib, before, after);
      var decoded := Decode(lib, model, Fill(p.fields, previous));
      && decoded == Some(Whole(before, previous, after))
      && Canonical(lib, decoded.value) == p.prefix + Dump(lib, LinkValue(previous)) + p.suffix
  {
    var record := Whole(before, previous, after);
    SpliceIsCanonical(lib, before, previous, after);
    FillIsStreamFields(lib, before, previous, after);
    DecodeFirst(lib, model, record, |record|);
    assert model[..|record|] == model && record[..|record|] == record;
  }
}
