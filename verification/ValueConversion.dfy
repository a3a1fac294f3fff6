/** Conversions between hub message fields, JSON values and MessagePack values. */
module ValueConversion {
  import opened Basics
  import opened HubMessage
  import opened MessagePack

  datatype ProtocolError = InvalidPayload | BadMessagePack | Undecodable | BadFraming

  // ---- to MessagePack -----------------------------------------------------------------------

  function JsonToValue(j: Json): Value
    decreases j, 0
  {
    match j
    case Null => Nil
    case Bool(flag) => Boolean(flag)
    case Int(n) => Integer(n)
    case Float(bits) => F64(bits)
    case Str(text) => String(text)
    case Arr(items) => Array(JsonToValues(items))
    case Obj(entries) => Map(EntriesToValues(entries))
  }

  function JsonToValues(items: seq<Json>): (r: seq<Value>)
    ensures |r| == |items|
    decreases items, 1
  {
    if items == [] then [] else [JsonToValue(items[0])] + JsonToValues(items[1..])
  }

  function EntriesToValues(entries: seq<Entry>): (r: seq<Value>)
    ensures |r| == 2 * |entries|
    decreases entries, 1
  {
    if entries == [] then []
    else [String(entries[0].key), JsonToValue(entries[0].value)] + EntriesToValues(entries[1..])
  }

  function OptionalStringValue(text: Option<Text>): Value
  {
    if text.Some? then String(text.value) else Nil
  }

  function StringValues(texts: seq<Text>): seq<Value>
  {
    if texts == [] then [] else [String(texts[0])] + StringValues(texts[1..])
  }

  /** The headers in the order in which the hash map hands them out. */
  function HeaderEntries(headers: Headers, order: seq<Text>): (r: seq<Value>)
    requires forall k | k in order :: k in headers
    ensures |r| == 2 * |order|
  {
    if order == [] then []
    else [String(order[0]), String(headers[order[0]])] + HeaderEntries(headers, order[1..])
  }

  /** `order` lists the keys of `headers`, each once. */
  ghost predicate Enumerates(order: seq<Text>, headers: Headers)
  {
    && (forall k | k in order :: k in headers)
    && (forall k | k in headers :: k in order)
    && (forall i, j | 0 <= i < j < |order| :: order[i] != order[j])
  }

  // ---- from MessagePack ---------------------------------------------------------------------

  /** What serde makes of the shapes that JSON values never produce. */
  datatype Foreign = Foreign(value: Value -> Option<Json>, key: Value -> Option<Text>)

  function AsStr(v: Value): Option<Text>
  {
    if v.String? && IsUtf8(v.text) then Some(v.text) else None
  }

  function ToJson(v: Value, f: Foreign): Option<Json>
    decreases v, 0
  {
    match v
    case Nil => Some(Json.Null)
    case Boolean(flag) => Some(Bool(flag))
    case Integer(n) => Some(Int(n))
    case F64(bits) => if IsFinite(bits) then Some(Float(bits)) else Some(Json.Null)
    case String(text) => if IsUtf8(text) then Some(Str(text)) else f.value(v)
    case Array(items) =>
      var all := ToJsons(items, f);
      if all.Some? then Some(Arr(all.value)) else None
    case Map(entries) =>
      var all := ToEntries(entries, [], f);
      if all.Some? then Some(Obj(all.value)) else None
    case _ => f.value(v)
  }

  function ToJsons(vs: seq<Value>, f: Foreign): (r: Option<seq<Json>>)
    ensures r.Some? ==> |r.value| == |vs|
    decreases vs, 1
  {
    if vs == [] then Some([])
    else
      var first, rest := ToJson(vs[0], f), ToJsons(vs[1..], f);
      if first.Some? && rest.Some? then Some([first.value] + rest.value) else None
  }

  function KeyText(v: Value, f: Foreign): Option<Text>
  {
    if AsStr(v).Some? then AsStr(v) else f.key(v)
  }

  function ToEntries(vs: seq<Value>, done: seq<Entry>, f: Foreign): Option<seq<Entry>>
    decreases vs, 1
  {
    if |vs| < 2 then Some(done)
    else
      var key, value := KeyText(vs[0], f), ToJson(vs[1], f);
      if key.Some? && value.Some? then ToEntries(vs[2..], Insert(done, key.value, value.value), f) else None
  }

  /** A value that cannot be converted becomes null as a whole. */
  function ValueToJson(v: Value, f: Foreign): Json
  {
    var j := ToJson(v, f);
    if j.Some? then j.value else Json.Null
  }

  function ValuesToJson(vs: seq<Value>, f: Foreign): seq<Json>
  {
    if vs == [] then [] else [ValueToJson(vs[0], f)] + ValuesToJson(vs[1..], f)
  }

  function ValueToString(v: Value): Result<Text, ProtocolError>
  {
    if AsStr(v).Some? then Ok(AsStr(v).value) else Err(InvalidPayload)
  }

  function OptionalString(v: Value): Result<Option<Text>, ProtocolError>
  {
    if v.Nil? then Ok(None)
    else
      var text :- ValueToString(v);
      Ok(Some(text))
  }

  /** Keys and values in turn; a later value replaces an earlier one. */
  function HeadersFrom(vs: seq<Value>, done: Headers): Result<Headers, ProtocolError>
  {
    if |vs| < 2 then Ok(done)
    else
      var key :- ValueToString(vs[0]);
      var value :- ValueToString(vs[1]);
      HeadersFrom(vs[2..], done[key := value])
  }

  // ---- conversions undo each other ----------------------------------------------------------

  /** A JSON value survives the conversion to MessagePack and back. */
  lemma {:induction false} JsonSurvives(j: Json, f: Foreign)
    requires Genuine(j)
    ensures ToJson(JsonToValue(j), f) == Some(j)
    decreases j, 0
  {
    hide IsUtf8;
    match j
    case Arr(items) => JsonsSurvive(items, f);
    case Obj(entries) =>
      EntriesSurvive(entries, 0, f);
      assert entries[0..] == entries && entries[..0] == [];
    case _ =>
  }

  lemma {:induction false} JsonsSurvive(items: seq<Json>, f: Foreign)
    requires forall i | 0 <= i < |items| :: Genuine(items[i])
    ensures ToJsons(JsonToValues(items), f) == Some(items)
    decreases items, 1
  {
    if items != [] {
      JsonSurvives(items[0], f);
      JsonsSurvive(items[1..], f);
      var vs := JsonToValues(items);
      assert vs[0] == JsonToValue(items[0]) && vs[1..] == JsonToValues(items[1..]);
      assert [items[0]] + items[1..] == items;
    }
  }

  lemma {:induction false} EntriesSurvive(entries: seq<Entry>, k: nat, f: Foreign)
    requires k <= |entries| && Sorted(entries)
    requires forall i | 0 <= i < |entries| :: Genuine(entries[i].value)
    ensures ToEntries(EntriesToValues(entries[k..]), entries[..k], f) == Some(entries)
    decreases entries, 1, |entries| - k
  {
    hide IsUtf8, Less, Genuine, JsonToValue, ToJson;
    var vs := EntriesToValues(entries[k..]);
    if k == |entries| {
      assert entries[..k] == entries;
    } else {
      var e := entries[k];
      assert entries[k..][1..] == entries[k + 1..];
      assert vs[0] == String(e.key) && vs[1] == JsonToValue(e.value) && vs[2..] == EntriesToValues(entries[k + 1..]);
      JsonSurvives(e.value, f);
      InsertLast(entries[..k], e.key, e.value);
      assert entries[..k] + [e] == entries[..k + 1];
      EntriesSurvive(entries, k + 1, f);
    }
  }

  lemma {:induction false} ValuesSurvive(items: seq<Json>, f: Foreign)
    requires forall i | 0 <= i < |items| :: Genuine(items[i])
    ensures ValuesToJson(JsonToValues(items), f) == items
  {
    if items != [] {
      JsonSurvives(items[0], f);
      ValuesSurvive(items[1..], f);
      var vs := JsonToValues(items);
      assert vs[0] == JsonToValue(items[0]) && vs[1..] == JsonToValues(items[1..]);
    }
  }

  lemma {:induction false} JsonWellFormed(j: Json)
    requires Genuine(j)
    ensures WellFormed(JsonToValue(j))
    decreases j, 0
  {
    hide IsUtf8;
    match j
    case Arr(items) => JsonsWellFormed(items);
    case Obj(entries) => EntriesWellFormed(entries);
    case _ =>
  }

  lemma {:induction false} JsonsWellFormed(items: seq<Json>)
    requires forall i | 0 <= i < |items| :: Genuine(items[i])
    ensures forall i | 0 <= i < |JsonToValues(items)| :: WellFormed(JsonToValues(items)[i])
    decreases items, 1
  {
    if items != [] {
      JsonWellFormed(items[0]);
      JsonsWellFormed(items[1..]);
    }
  }

  lemma {:induction false} EntriesWellFormed(entries: seq<Entry>)
    requires forall i | 0 <= i < |entries| :: Genuine(entries[i].value)
    ensures forall i | 0 <= i < |EntriesToValues(entries)| :: WellFormed(EntriesToValues(entries)[i])
    decreases entries, 1
  {
    if entries != [] {
      JsonWellFormed(entries[0].value);
      EntriesWellFormed(entries[1..]);
    }
  }

  // ---- what is received is a JSON value -----------------------------------------------------

  ghost predicate GenuineForeign(f: Foreign)
  {
    forall v :: f.value(v).Some? ==> Genuine(f.value(v).value)
  }

  ghost predicate GenuineEntries(entries: seq<Entry>)
  {
    Sorted(entries) && forall e | e in entries :: Genuine(e.value)
  }

  /** Whatever MessagePack value arrives, what is made of it is a genuine JSON value: numbers are in range
      and finite, and the keys of every object are sorted, each once. */
  lemma {:induction false} JsonIsGenuine(v: Value, f: Foreign)
    requires WellFormed(v) && GenuineForeign(f)
    ensures ToJson(v, f).Some? ==> Genuine(ToJson(v, f).value)
    decreases v, 0
  {
    hide IsUtf8, Less;
    match v
    case Array(items) => JsonsAreGenuine(items, f);
    case Map(entries) =>
      EntriesAreGenuine(entries, [], f);
      EntriesListed(ToEntries(entries, [], f));
    case _ =>
  }

  lemma EntriesListed(entries: Option<seq<Entry>>)
    requires entries.Some? ==> GenuineEntries(entries.value)
    ensures entries.Some? ==> Genuine(Obj(entries.value))
  {
    if entries.Some? {
      assert forall i | 0 <= i < |entries.value| :: entries.value[i] in entries.value;
    }
  }

  lemma {:induction false} JsonsAreGenuine(vs: seq<Value>, f: Foreign)
    requires (forall i | 0 <= i < |vs| :: WellFormed(vs[i])) && GenuineForeign(f)
    ensures ToJsons(vs, f).Some? ==>
              forall i | 0 <= i < |vs| :: Genuine(ToJsons(vs, f).value[i])
    decreases vs, 1
  {
    hide WellFormed;
    if vs != [] {
      JsonIsGenuine(vs[0], f);
      JsonsAreGenuine(vs[1..], f);
      hide Genuine, ToJson;
    }
  }

  lemma {:induction false} EntriesAreGenuine(vs: seq<Value>, done: seq<Entry>, f: Foreign)
    requires (forall i | 0 <= i < |vs| :: WellFormed(vs[i])) && GenuineForeign(f) && GenuineEntries(done)
    ensures ToEntries(vs, done, f).Some? ==> GenuineEntries(ToEntries(vs, done, f).value)
    decreases vs, 1
  {
    hide WellFormed, Sorted, Genuine, ToJson, KeyText, IsUtf8, Insert;
    if |vs| >= 2 {
      var key, value := KeyText(vs[0], f), ToJson(vs[1], f);
      JsonIsGenuine(vs[1], f);
      if key.Some? && value.Some? {
        InsertKeeps(done, key.value, value.value);
        EntriesAreGenuine(vs[2..], Insert(done, key.value, value.value), f);
      }
    }
  }

  /** `done` with the listed headers put in. */
  function Laid(headers: Headers, order: seq<Text>, done: Headers): Headers
    requires forall k | k in order :: k in headers
  {
    if order == [] then done else Laid(headers, order[1..], done[order[0] := headers[order[0]]])
  }

  lemma {:induction false} HeadersFromEntries(headers: Headers, order: seq<Text>, done: Headers)
    requires forall k | k in order :: k in headers
    ensures HeadersFrom(HeaderEntries(headers, order), done) == Ok(Laid(headers, order, done))
  {
    hide IsUtf8;
    if order != [] {
      var vs := HeaderEntries(headers, order);
      assert vs[2..] == HeaderEntries(headers, order[1..]);
      HeadersFromEntries(headers, order[1..], done[order[0] := headers[order[0]]]);
    }
  }

  lemma {:induction false} LaidFacts(headers: Headers, order: seq<Text>, done: Headers)
    requires forall k | k in order :: k in headers
    ensures forall k :: k in Laid(headers, order, done) <==> k in done || k in order
    ensures forall k | k in Laid(headers, order, done) ::
              Laid(headers, order, done)[k] == if k in order then headers[k] else done[k]
  {
    if order != [] {
      LaidFacts(headers, order[1..], done[order[0] := headers[order[0]]]);
      assert order == [order[0]] + order[1..];
    }
  }

  /** Headers come back whatever order the hash map hands them out in. */
  lemma HeadersSurvive(headers: Headers, order: seq<Text>)
    requires Enumerates(order, headers)
    ensures HeadersFrom(HeaderEntries(headers, order), map[]) == Ok(headers)
  {
    hide IsUtf8;
    HeadersFromEntries(headers, order, map[]);
    LaidFacts(headers, order, map[]);
    assert Laid(headers, order, map[]) == headers;
  }

  lemma {:induction false} HeaderEntriesWellFormed(headers: Headers, order: seq<Text>)
    requires forall k | k in order :: k in headers
    ensures forall v | v in HeaderEntries(headers, order) :: WellFormed(v) && v.String?
  {
    if order != [] {
      HeaderEntriesWellFormed(headers, order[1..]);
    }
  }
}
