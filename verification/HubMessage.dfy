/** The hub messages, their numeric types and the JSON values they carry. */
module HubMessage {
  import opened Basics

  // ---- message types ------------------------------------------------------------------------

  datatype MessageType =
    | Invocation | StreamItem | Completion | StreamInvocation | CancelInvocation
    | Ping | Close | Ack | Sequence

  function FromI32(n: int): Option<MessageType>
  {
    if n == 1 then Some(Invocation)
    else if n == 2 then Some(StreamItem)
    else if n == 3 then Some(Completion)
    else if n == 4 then Some(StreamInvocation)
    else if n == 5 then Some(CancelInvocation)
    else if n == 6 then Some(Ping)
    else if n == 7 then Some(Close)
    else if n == 8 then Some(Ack)
    else if n == 9 then Some(Sequence)
    else None
  }

  /** The types a stateful-reconnect buffer numbers and counts. */
  predicate IsInvocationType(t: MessageType)
  {
    t.Invocation? || t.StreamInvocation? || t.StreamItem? || t.Completion? || t.CancelInvocation?
  }

  /** Of the nine types, the first five by number are numbered and counted. */
  lemma NumberedTypes(n: int)
    ensures FromI32(n).Some? <==> 1 <= n <= 9
    ensures FromI32(n).Some? && IsInvocationType(FromI32(n).value) <==> 1 <= n <= 5
  {
  }

  // ---- strings ------------------------------------------------------------------------------

  predicate Within(b: byte, low: byte, high: byte)
  {
    low <= b <= high
  }

  /** Well-formed UTF-8, as in table 3-7 of the Unicode Standard. */
  predicate IsUtf8(s: Bytes)
    decreases |s|
  {
    if s == [] then true
    else if s[0] < 0x80 then IsUtf8(s[1..])
    else if |s| < 2 then false
    else if Within(s[0], 0xc2, 0xdf) then Within(s[1], 0x80, 0xbf) && IsUtf8(s[2..])
    else if |s| < 3 then false
    else if Within(s[0], 0xe0, 0xef) then
      && Within(s[1], if s[0] == 0xe0 then 0xa0 else 0x80, if s[0] == 0xed then 0x9f else 0xbf)
      && Within(s[2], 0x80, 0xbf) && IsUtf8(s[3..])
    else if |s| < 4 then false
    else
      && Within(s[0], 0xf0, 0xf4)
      && Within(s[1], if s[0] == 0xf0 then 0x90 else 0x80, if s[0] == 0xf4 then 0x8f else 0xbf)
      && Within(s[2], 0x80, 0xbf) && Within(s[3], 0x80, 0xbf) && IsUtf8(s[4..])
  }

  /** Strings, as their UTF-8 bytes. */
  type Text = s: Bytes | IsUtf8(s)

  /** An ASCII text; other characters become question marks. */
  function Ascii(s: string): (t: Text)
    ensures |t| == |s|
  {
    if s == "" then []
    else
      var b: byte := if s[0] as int < 0x80 then s[0] as int else 0x3f;
      var rest := Ascii(s[1..]);
      assert ([b] + rest)[1..] == rest;
      [b] + rest
  }

  /** The byte-wise order of strings. */
  predicate Less(a: Bytes, b: Bytes)
  {
    if b == [] then false
    else if a == [] then true
    else a[0] < b[0] || (a[0] == b[0] && Less(a[1..], b[1..]))
  }

  lemma {:induction false} LessIsStrict(a: Bytes, b: Bytes)
    requires Less(a, b)
    ensures a != b && !Less(b, a)
  {
    if a != [] && a[0] == b[0] {
      LessIsStrict(a[1..], b[1..]);
    }
  }

  // ---- JSON values --------------------------------------------------------------------------

  /** A JSON value. Numbers are 64-bit integers or the bytes of a double; an object keeps its
      entries sorted by key. */
  datatype Json =
    | Null
    | Bool(flag: bool)
    | Int(n: int)
    | Float(bits: Bytes)
    | Str(text: Text)
    | Arr(items: seq<Json>)
    | Obj(entries: seq<Entry>)

  datatype Entry = Entry(key: Text, value: Json)

  /** Neither an infinity nor a NaN: JSON numbers are finite. */
  predicate IsFinite(bits: Bytes)
  {
    |bits| == 8 && !(bits[0] % 0x80 == 0x7f && bits[1] >= 0xf0)
  }

  predicate Sorted(entries: seq<Entry>)
  {
    forall i, j | 0 <= i < j < |entries| :: Less(entries[i].key, entries[j].key)
  }

  /** Values as the JSON library's types admit them. */
  ghost predicate Genuine(j: Json)
  {
    match j
    case Int(n) => -0x8000_0000_0000_0000 <= n < 0x1_0000_0000_0000_0000
    case Float(bits) => IsFinite(bits)
    case Arr(items) => forall i | 0 <= i < |items| :: Genuine(items[i])
    case Obj(entries) => Sorted(entries) && forall i | 0 <= i < |entries| :: Genuine(entries[i].value)
    case _ => true
  }

  /** An object with one more entry, which replaces an earlier one with the same key. */
  function Insert(entries: seq<Entry>, key: Text, value: Json): seq<Entry>
  {
    if entries == [] || Less(key, entries[0].key) then [Entry(key, value)] + entries
    else if entries[0].key == key then [Entry(key, value)] + entries[1..]
    else [entries[0]] + Insert(entries[1..], key, value)
  }

  lemma {:induction false} InsertLast(entries: seq<Entry>, key: Text, value: Json)
    requires forall i | 0 <= i < |entries| :: Less(entries[i].key, key)
    ensures Insert(entries, key, value) == entries + [Entry(key, value)]
  {
    if entries == [] {
      assert [Entry(key, value)] + entries == entries + [Entry(key, value)];
    } else {
      LessIsStrict(entries[0].key, key);
      InsertLast(entries[1..], key, value);
    }
  }

  lemma {:induction false} LessIsTotal(a: Bytes, b: Bytes)
    ensures a == b || Less(a, b) || Less(b, a)
  {
    if a != [] && b != [] && a[0] == b[0] {
      LessIsTotal(a[1..], b[1..]);
      assert a == [a[0]] + a[1..] && b == [b[0]] + b[1..];
    }
  }

  lemma {:induction false} LessIsTransitive(a: Bytes, b: Bytes, c: Bytes)
    requires Less(a, b) && Less(b, c)
    ensures Less(a, c)
  {
    if a != [] && a[0] == b[0] && b[0] == c[0] {
      LessIsTransitive(a[1..], b[1..], c[1..]);
    }
  }

  lemma SortedHead(entries: seq<Entry>)
    requires Sorted(entries) && entries != []
    ensures Sorted(entries[1..]) && forall e | e in entries[1..] :: Less(entries[0].key, e.key)
  {
    hide Less, IsUtf8;
    forall e | e in entries[1..] ensures Less(entries[0].key, e.key) {
      var i :| 0 <= i < |entries[1..]| && entries[1..][i] == e;
      assert entries[i + 1] == e;
    }
  }

  lemma SortedCons(first: Entry, rest: seq<Entry>)
    requires Sorted(rest) && forall e | e in rest :: Less(first.key, e.key)
    ensures Sorted([first] + rest)
  {
    hide Less, IsUtf8;
    var all := [first] + rest;
    forall i, j | 0 <= i < j < |all| ensures Less(all[i].key, all[j].key) {
      assert all[j] == rest[j - 1] && all[j] in rest;
      if i > 0 {
        assert all[i] == rest[i - 1];
      }
    }
  }

  /** Inserting into an object keeps it sorted and puts the value in place of an earlier one with the same
      key, leaving all others alone. */
  lemma {:induction false} InsertKeeps(entries: seq<Entry>, key: Text, value: Json)
    requires Sorted(entries)
    ensures Sorted(Insert(entries, key, value))
    ensures forall e :: e in Insert(entries, key, value) <==>
              e == Entry(key, value) || (e in entries && e.key != key)
  {
    hide IsUtf8, Less, Sorted;
    var item := Entry(key, value);
    if entries == [] {
      SortedCons(item, []);
    } else {
      var first, rest := entries[0], entries[1..];
      assert entries == [first] + rest;
      SortedHead(entries);
      if Less(key, first.key) {
        BelowAll(key, entries);
        SortedCons(item, entries);
      } else if key == first.key {
        Apart(key, rest);
        SortedCons(item, rest);
      } else {
        LessIsTotal(key, first.key);
        InsertKeeps(rest, key, value);
        SortedCons(first, Insert(rest, key, value));
      }
    }
  }

  lemma Apart(key: Text, entries: seq<Entry>)
    requires forall e | e in entries :: Less(key, e.key)
    ensures forall e | e in entries :: e.key != key
  {
    hide IsUtf8, Less;
    forall e | e in entries ensures e.key != key {
      LessIsStrict(key, e.key);
    }
  }

  lemma BelowAll(key: Text, entries: seq<Entry>)
    requires Sorted(entries) && entries != [] && Less(key, entries[0].key)
    ensures forall e | e in entries :: Less(key, e.key) && e.key != key
  {
    SortedHead(entries);
    hide IsUtf8, Less, Sorted;
    assert entries == [entries[0]] + entries[1..];
    forall e | e in entries ensures Less(key, e.key) && e.key != key {
      if e in entries[1..] {
        LessIsTransitive(key, entries[0].key, e.key);
      }
      LessIsStrict(key, e.key);
    }
  }

  // ---- messages -----------------------------------------------------------------------------

  type Headers = map<Text, Text>

  /** The arguments of an invocation as the protocol delivered them. */
  datatype Arguments = FromJson(values: seq<Json>) | FromPack(bytes: Bytes)

  datatype HubMessage =
    | InvocationMessage(headers: Headers, invocationId: Option<Text>, target: Text,
                        arguments: Arguments, streamIds: Option<seq<Text>>)
    | StreamInvocationMessage(headers: Headers, id: Text, target: Text,
                              values: seq<Json>, streamIds: Option<seq<Text>>)
    | StreamItemMessage(headers: Headers, invocationId: Option<Text>, item: Json)
    | CompletionMessage(headers: Headers, id: Text, error: Option<Text>, result: Option<Json>)
    | CancelInvocationMessage(headers: Headers, id: Text)
    | PingMessage
    | CloseMessage(error: Option<Text>, allowReconnect: Option<bool>)
    | AckMessage(sequenceId: int)
    | SequenceMessage(sequenceId: int)
}
