/**
 * The JSON branch of the upload panel: choosing the record array out of the
 * parsed document, taking the header from the first record's keys, and
 * turning up to 100 records into rectangular rows of strings.
 */
module JsonPreview {
  import opened Wrappers
  import opened Strings
  import opened CsvPreview

  /** A value as `JSON.parse` returns it. A number carries the text `String()` renders for it. */
  datatype Json =
    | JNull
    | JBool(b: bool)
    | JNumber(text: string)
    | JString(s: string)
    | JArray(items: seq<Json>)
    | JObject(members: seq<Member>)

  /** One `"key": value` pair of an object, in source order. */
  datatype Member = Member(key: string, value: Json)

  /** What the JSON branch throws; `message` is what the panel shows. */
  datatype ParseError =
    | NoRecordsFound
    | SyntaxError(text: string)
    | TypeError(text: string)

  /** `err.message || 'Failed to parse file'`: the error text the panel shows, never empty. */
  function ErrorMessage(e: ParseError): (m: string)
    ensures m != ""
    ensures e.NoRecordsFound? ==> m == "No records found"
    ensures !e.NoRecordsFound? && e.text != "" ==> m == e.text
    ensures !e.NoRecordsFound? && e.text == "" ==> m == "Failed to parse file"
  {
    match e
    case NoRecordsFound => "No records found"
    case SyntaxError(t) => if t == "" then "Failed to parse file" else t
    case TypeError(t) => if t == "" then "Failed to parse file" else t
  }

  /** The engine's message for `null.data`, `Object.keys(null)` and `null[h]`. */
  function ReadNullMessage(key: string): string
  {
    "Cannot read properties of null (reading '" + key + "')"
  }
  const NullToObjectMessage := "Cannot convert undefined or null to object"

  /** The value `obj[key]` of an object's own member; a repeated key keeps its last value, as `JSON.parse` does. */
  function Lookup(members: seq<Member>, key: string): (r: Option<Json>)
    ensures r.None? <==> forall i :: 0 <= i < |members| ==> members[i].key != key
    ensures r.Some? ==> exists i :: 0 <= i < |members| && members[i] == Member(key, r.value) &&
                                    (forall j :: i < j < |members| ==> members[j].key != key)
  {
    if |members| == 0 then None
    else if members[|members| - 1].key == key then Some(members[|members| - 1].value)
    else Lookup(members[..|members| - 1], key)
  }

  /** The position of the first member named `key`. */
  function FirstIndex(members: seq<Member>, key: string): (p: nat)
    requires exists i :: 0 <= i < |members| && members[i].key == key
    ensures p < |members| && members[p].key == key
    ensures forall q :: 0 <= q < p ==> members[q].key != key
  {
    var n := |members| - 1;
    if exists i :: 0 <= i < n && members[i].key == key then FirstIndex(members[..n], key) else n
  }

  /**
   * The keys of an object in the order `Object.keys` lists them: every key
   * exactly once, ordered by where it first appears.
   */
  function OwnKeys(members: seq<Member>): (keys: seq<string>)
    ensures forall k :: k in keys <==> exists i :: 0 <= i < |members| && members[i].key == k
    ensures forall i, j :: 0 <= i < j < |keys| ==> keys[i] != keys[j]
    ensures forall i :: 0 <= i < |keys| ==> exists p :: 0 <= p < |members| && members[p].key == keys[i]
    ensures forall i, j :: 0 <= i < j < |keys| ==> FirstIndex(members, keys[i]) < FirstIndex(members, keys[j])
  {
    if |members| == 0 then []
    else
      var keys := OwnKeys(members[..|members| - 1]);
      var k := members[|members| - 1].key;
      if k in keys then keys else keys + [k]
  }

  /**
   * `Array.isArray(json) ? json : json.data || []` together with the
   * `Array.isArray(arr)` test: the top-level array, or the array under an
   * object's `data` key; anything else (a missing, falsy or non-array
   * `data`, a primitive document) leaves no records.
   */
  function RecordCandidates(doc: Json): (items: seq<Json>)
    ensures doc.JArray? ==> items == doc.items
    ensures doc.JObject? && Lookup(doc.members, "data").Some? && Lookup(doc.members, "data").value.JArray? ==>
      items == Lookup(doc.members, "data").value.items
    ensures !doc.JArray? && !(doc.JObject? && Lookup(doc.members, "data").Some? && Lookup(doc.members, "data").value.JArray?) ==>
      items == []
  {
    match doc
    case JArray(items) => items
    case JObject(members) =>
      (match Lookup(members, "data")
       case Some(JArray(items)) => items
       case _ => [])
    case _ => []
  }

  /**
   * The records of the JSON branch: reading `data` of a `null` document
   * throws, and no records at all is `No records found`.
   */
  function Records(doc: Json): (r: Result<seq<Json>, ParseError>)
    ensures r.Ok? <==> |RecordCandidates(doc)| > 0 && !doc.JNull?
    ensures r.Ok? ==> r.value == RecordCandidates(doc)
    ensures doc.JNull? ==> r == Err(TypeError(ReadNullMessage("data")))
    ensures !doc.JNull? && r.Err? ==> r == Err(NoRecordsFound)
  {
    if doc.JNull? then Err(TypeError(ReadNullMessage("data")))
    else
      var items := RecordCandidates(doc);
      if |items| == 0 then Err(NoRecordsFound) else Ok(items)
  }

  /** `Object.keys(record)`: throws for `null`; keys of an object; none for booleans and numbers. */
  function KeysOf(record: Json): (r: Result<seq<string>, ParseError>)
    ensures r.Err? <==> record.JNull?
    ensures record.JObject? ==> r == Ok(OwnKeys(record.members))
    ensures r.Ok? && !record.JObject? ==> r.value == []
  {
    match record
    case JNull => Err(TypeError(NullToObjectMessage))
    case JObject(members) => Ok(OwnKeys(members))
    case _ => Ok([])
  }

  /**
   * `String(v)` converts `v` without throwing: no object reachable from `v`
   * through arrays has an own `toString` member. Such a member, whatever its
   * value, is not callable, so the conversion falls back to `valueOf`, which
   * yields the object itself, and throws.
   */
  predicate Printable(v: Json)
    decreases v
  {
    match v
    case JObject(members) => Lookup(members, "toString").None?
    case JArray(items) => forall i :: 0 <= i < |items| ==> Printable(items[i])
    case _ => true
  }

  /** The engine's message when `String` finds no primitive value for an object. */
  const ToPrimitiveMessage := "Cannot convert object to primitive value"

  /**
   * `String(v)` for a value it converts: booleans and numbers as their
   * literals, strings as themselves, objects as `[object Object]`, and arrays
   * as their elements' texts joined by commas, a `null` element showing as `""`.
   */
  function Text(v: Json): (r: string)
    requires Printable(v)
    ensures v.JNull? ==> r == "null"
    ensures v.JBool? ==> r == (if v.b then "true" else "false")
    ensures v.JNumber? ==> r == v.text
    ensures v.JString? ==> r == v.s
    ensures v.JObject? ==> r == "[object Object]"
    ensures v.JArray? && |v.items| == 0 ==> r == ""
    ensures v.JArray? && |v.items| == 1 && v.items[0].JNull? ==> r == ""
    decreases v
  {
    match v
    case JNull => "null"
    case JBool(b) => if b then "true" else "false"
    case JNumber(t) => t
    case JString(s) => s
    case JArray(items) =>
      Join(seq(|items|, i requires 0 <= i < |items| => if items[i].JNull? then "" else Text(items[i])), ',')
    case JObject(_) => "[object Object]"
  }

  /** `String` of an array of strings is those strings joined by commas, and splits back into them when none holds a comma. */
  lemma StringArrayText(ss: seq<string>)
    requires |ss| >= 1
    requires forall i :: 0 <= i < |ss| ==> ',' !in ss[i]
    ensures var v := JArray(seq(|ss|, i requires 0 <= i < |ss| => JString(ss[i])));
      Printable(v) && Split(Text(v), ',') == ss
  {
    var items := seq(|ss|, i requires 0 <= i < |ss| => JString(ss[i]));
    assert Printable(JArray(items));
    assert seq(|items|, i requires 0 <= i < |items| => if items[i].JNull? then "" else Text(items[i])) == ss;
    SplitJoin(ss, ',');
  }

  /** `String` of an array of `n` nulls is `n - 1` commas: each `null` shows as nothing. */
  lemma NullArrayText(n: nat)
    requires n >= 1
    ensures Printable(JArray(seq(n, i => JNull)))
    ensures Text(JArray(seq(n, i => JNull))) == seq(n - 1, i => ',')
  {
    var items := seq(n, i => JNull);
    assert Printable(JArray(items));
    assert seq(|items|, i requires 0 <= i < |items| => if items[i].JNull? then "" else Text(items[i])) == seq(n, i => "");
    JoinOfEmpties(n);
  }

  lemma {:induction false} JoinOfEmpties(n: nat)
    requires n >= 1
    ensures Join(seq(n, i => ""), ',') == seq(n - 1, i => ',')
  {
    if n > 1 {
      JoinOfEmpties(n - 1);
      assert seq(n, i => "")[1..] == seq(n - 1, i => "");
      assert [','] + seq(n - 2, i => ',') == seq(n - 1, i => ',');
    }
  }

  /**
   * `String(record[key] ?? '')`: a missing or `null` value shows as `""`;
   * reading a key of a `null` record throws, and so does converting a value
   * that is not `Printable`.
   */
  function CellText(record: Json, key: string): (r: Result<string, ParseError>)
    ensures record.JNull? ==> r == Err(TypeError(ReadNullMessage(key)))
    ensures record.JObject? && Lookup(record.members, key).None? ==> r == Ok("")
    ensures record.JObject? && Lookup(record.members, key) == Some(JNull) ==> r == Ok("")
    ensures record.JObject? && Lookup(record.members, key).Some? ==>
      var v := Lookup(record.members, key).value;
      && (!Printable(v) ==> r == Err(TypeError(ToPrimitiveMessage)))
      && (Printable(v) && !v.JNull? ==> r == Ok(Text(v)))
    ensures !record.JNull? && !record.JObject? ==> r == Ok("")
  {
    match record
    case JNull => Err(TypeError(ReadNullMessage(key)))
    case JObject(members) =>
      (match Lookup(members, key)
       case None => Ok("")
       case Some(JNull) => Ok("")
       case Some(v) => if Printable(v) then Ok(Text(v)) else Err(TypeError(ToPrimitiveMessage)))
    case _ => Ok("")
  }

  /**
   * `header.map((h) => String(item[h] ?? ''))` for one record: one cell per
   * header key, or the error of the first key whose cell throws.
   */
  function RowOf(record: Json, header: seq<string>): (r: Result<seq<string>, ParseError>)
    ensures r.Ok? <==> forall j :: 0 <= j < |header| ==> CellText(record, header[j]).Ok?
    ensures r.Ok? ==> |r.value| == |header|
    ensures r.Ok? ==> forall j :: 0 <= j < |header| ==> CellText(record, header[j]) == Ok(r.value[j])
    ensures r.Err? ==> exists j :: 0 <= j < |header| && CellText(record, header[j]) == Err(r.error) &&
                                   (forall k :: 0 <= k < j ==> CellText(record, header[k]).Ok?)
  {
    if |header| == 0 then Ok([])
    else
      match CellText(record, header[0])
      case Err(e) => Err(e)
      case Ok(first) =>
        assert forall j :: 1 <= j < |header| ==> header[j] == header[1..][j - 1];
        match RowOf(record, header[1..])
        case Err(e) =>
          var j :| 0 <= j < |header[1..]| && CellText(record, header[1..][j]) == Err(e) &&
                   forall k :: 0 <= k < j ==> CellText(record, header[1..][k]).Ok?;
          assert CellText(record, header[j + 1]) == Err(e);
          Err(e)
        case Ok(rest) => Ok([first] + rest)
  }

  /**
   * `records.map((item) => header.map((h) => String(item[h] ?? '')))`:
   * one row per record with one cell per header key, or the error of the
   * first record whose row throws.
   */
  function RowsOf(records: seq<Json>, header: seq<string>): (r: Result<seq<seq<string>>, ParseError>)
    ensures r.Ok? <==> forall i, j :: 0 <= i < |records| && 0 <= j < |header| ==> CellText(records[i], header[j]).Ok?
    ensures r.Ok? ==> |r.value| == |records|
    ensures r.Ok? ==> forall i :: 0 <= i < |r.value| ==> |r.value[i]| == |header|
    ensures r.Ok? ==> forall i, j :: 0 <= i < |r.value| && 0 <= j < |header| ==>
      CellText(records[i], header[j]) == Ok(r.value[i][j])
    ensures r.Err? ==> exists i :: 0 <= i < |records| && RowOf(records[i], header) == Err(r.error) &&
                                   (forall k :: 0 <= k < i ==> RowOf(records[k], header).Ok?)
  {
    if |records| == 0 then Ok([])
    else
      match RowOf(records[0], header)
      case Err(e) => Err(e)
      case Ok(first) =>
        assert forall i :: 1 <= i < |records| ==> records[i] == records[1..][i - 1];
        match RowsOf(records[1..], header)
        case Err(e) =>
          var i :| 0 <= i < |records[1..]| && RowOf(records[1..][i], header) == Err(e) &&
                   forall k :: 0 <= k < i ==> RowOf(records[1..][k], header).Ok?;
          assert RowOf(records[i + 1], header) == Err(e);
          Err(e)
        case Ok(rest) =>
          var rows := [first] + rest;
          assert forall i :: 1 <= i < |rows| ==> rows[i] == rest[i - 1];
          Ok(rows)
  }

  /** The preview table of the JSON branch together with the full record count. */
  datatype JsonTable = JsonTable(preview: Preview, recordCount: nat)

  /**
   * Lines 47-50 of the JSON branch: the header is the first record's keys,
   * the rows are the first 100 records, each with exactly one cell per
   * header key, and the record count is that of all records.
   */
  function JsonTableOf(doc: Json): (r: Result<JsonTable, ParseError>)
    ensures Records(doc).Err? ==> r == Err(Records(doc).error)
    ensures r.Ok? ==>
      var records := RecordCandidates(doc);
      && Records(doc).Ok?
      && r.value.recordCount == |records| > 0
      && KeysOf(records[0]) == Ok(r.value.preview.header)
      && |r.value.preview.rows| == Min(|records|, PreviewLimit)
      && (forall i :: 0 <= i < |r.value.preview.rows| ==> |r.value.preview.rows[i]| == |r.value.preview.header|)
      && (forall i, j :: 0 <= i < |r.value.preview.rows| && 0 <= j < |r.value.preview.header| ==>
            CellText(records[i], r.value.preview.header[j]) == Ok(r.value.preview.rows[i][j]))
  {
    var records :- Records(doc);
    var header :- KeysOf(records[0]);
    var prefix := records[..Min(|records|, PreviewLimit)];
    var rows :- RowsOf(prefix, header);
    assert forall i :: 0 <= i < |prefix| ==> prefix[i] == records[i];
    Ok(JsonTable(Preview(header, rows), |records|))
  }

  /**
   * The JSON branch fails exactly when there are no records, the first
   * record is `null`, or a previewed cell throws: a `null` record under a
   * non-empty header, or a value that is not `Printable`.
   */
  lemma JsonTableFailures(doc: Json)
    ensures JsonTableOf(doc).Err? <==>
      || Records(doc).Err?
      || (var records := RecordCandidates(doc);
          || records[0].JNull?
          || (var header := KeysOf(records[0]).value;
              exists i, j :: 0 <= i < Min(|records|, PreviewLimit) && 0 <= j < |header| &&
                CellText(records[i], header[j]).Err?))
  {
    if Records(doc).Ok? {
      var records := RecordCandidates(doc);
      if !records[0].JNull? {
        var prefix := records[..Min(|records|, PreviewLimit)];
        assert forall i :: 0 <= i < |prefix| ==> prefix[i] == records[i];
      }
    }
  }

  /** A record whose value has its own `toString` member makes the JSON branch throw. */
  lemma OwnToStringThrows()
    ensures JsonTableOf(JArray([JObject([Member("a", JObject([Member("toString", JNumber("1"))]))])])) ==
      Err(TypeError(ToPrimitiveMessage))
  {
    var v := JObject([Member("toString", JNumber("1"))]);
    var record := JObject([Member("a", v)]);
    assert Lookup(v.members, "toString").Some?;
    assert Lookup(record.members, "a") == Some(v);
    assert OwnKeys(record.members) == ["a"];
    assert CellText(record, "a") == Err(TypeError(ToPrimitiveMessage));
  }
}
