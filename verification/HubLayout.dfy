/**
 What a peer that follows the hub protocol finds in the frames the client writes, element by element,
 and what the client makes of a close the server writes.
 */
module HubLayout {
  import opened Basics
  import opened HubMessage
  import opened MessagePack
  import opened LazyDecode
  import opened MessageDecode
  import opened ValueConversion
  import opened PlainCodec
  import opened BrotliCodec
  import opened HubProtocol
  import opened HubRoundTrip
  import BinaryFraming

  // ---- JSON values --------------------------------------------------------------------------

  /** The MessagePack value of the same shape as a JSON value. */
  ghost predicate Represents(v: Value, j: Json)
  {
    match j
    case Null => v == Nil
    case Bool(flag) => v == Boolean(flag)
    case Int(n) => v == Integer(n)
    case Float(bits) => v == F64(bits)
    case Str(text) => v == String(text)
    case Arr(items) =>
      v.Array? && |v.items| == |items| && forall i | 0 <= i < |items| :: Represents(v.items[i], items[i])
    case Obj(entries) =>
      && v.Map? && |v.entries| == 2 * |entries|
      && forall i | 0 <= i < |entries| ::
           v.entries[2 * i] == String(entries[i].key) && Represents(v.entries[2 * i + 1], entries[i].value)
  }

  lemma {:induction false} JsonRepresented(j: Json)
    ensures Represents(JsonToValue(j), j)
    decreases j, 0
  {
    match j
    case Arr(items) => JsonsRepresented(items);
    case Obj(entries) => EntriesRepresented(entries);
    case _ =>
  }

  lemma {:induction false} JsonsRepresented(items: seq<Json>)
    ensures forall i | 0 <= i < |items| :: Represents(JsonToValues(items)[i], items[i])
    decreases items, 1
  {
    if items != [] {
      JsonRepresented(items[0]);
      JsonsRepresented(items[1..]);
      hide JsonToValue, Represents;
      var vs := JsonToValues(items);
      forall i | 0 <= i < |items| ensures Represents(vs[i], items[i]) {
        if i > 0 {
          assert vs[i] == JsonToValues(items[1..])[i - 1] && items[i] == items[1..][i - 1];
        }
      }
    }
  }

  lemma {:induction false} EntriesRepresented(entries: seq<Entry>)
    ensures var vs := EntriesToValues(entries);
            forall i | 0 <= i < |entries| ::
              vs[2 * i] == String(entries[i].key) && Represents(vs[2 * i + 1], entries[i].value)
    decreases entries, 1
  {
    if entries != [] {
      JsonRepresented(entries[0].value);
      EntriesRepresented(entries[1..]);
      hide JsonToValue, Represents, IsUtf8;
      var vs, rest := EntriesToValues(entries), EntriesToValues(entries[1..]);
      forall i | 0 <= i < |entries|
        ensures vs[2 * i] == String(entries[i].key) && Represents(vs[2 * i + 1], entries[i].value)
      {
        if i > 0 {
          assert vs[2 * i] == rest[2 * (i - 1)] && vs[2 * i + 1] == rest[2 * (i - 1) + 1];
          assert entries[i] == entries[1..][i - 1];
        }
      }
    }
  }

  // ---- the elements of a message ------------------------------------------------------------

  /** A map with the headers in the given order. */
  ghost predicate IsHeaders(v: Value, headers: Headers, order: seq<Text>)
  {
    && v.Map? && |v.entries| == 2 * |order|
    && forall i | 0 <= i < |order| ::
         && order[i] in headers
         && v.entries[2 * i] == String(order[i]) && v.entries[2 * i + 1] == String(headers[order[i]])
  }

  ghost predicate IsOptional(v: Value, text: Option<Text>)
  {
    match text
    case None => v == Nil
    case Some(t) => v == String(t)
  }

  ghost predicate IsList(v: Value, values: seq<Json>)
  {
    v.Array? && |v.items| == |values| && forall i | 0 <= i < |values| :: Represents(v.items[i], values[i])
  }

  /** The arguments: JSON values one by one, or the value that the received bytes hold. */
  ghost predicate IsArguments(v: Value, arguments: Arguments)
  {
    match arguments
    case FromJson(values) => IsList(v, values)
    case FromPack(bytes) => Decode(bytes).Got? && v == Decode(bytes).value
  }

  /** The stream ids are the last element, from index `i` on, if there are any. */
  ghost predicate EndsWithIds(vs: seq<Value>, i: nat, ids: Option<seq<Text>>)
  {
    if ids.None? || ids.value == [] then |vs| == i
    else
      && |vs| == i + 1 && vs[i].Array? && |vs[i].items| == |ids.value|
      && forall k | 0 <= k < |ids.value| :: vs[i].items[k] == String(ids.value[k])
  }

  /** The payload of a message comes at `i`, or behind a zero in the protocol that can compress it. */
  predicate Flagged(p: Protocol, vs: seq<Value>, i: nat)
  {
    p.Brotli? ==> i < |vs| && vs[i] == Integer(0)
  }

  ghost predicate CompletionLaid(p: Protocol, vs: seq<Value>, error: Option<Text>, result: Option<Json>)
  {
    var a := if p.Plain? then 4 else 5;
    if error.Some? then
      |vs| == a + 1 && vs[3] == Integer(1) && Flagged(p, vs, 4) && vs[a] == String(error.value)
    else if result.Some? then
      |vs| == a + 1 && vs[3] == Integer(3) && Flagged(p, vs, 4) && Represents(vs[a], result.value)
    else
      |vs| == 4 && vs[3] == Integer(2)
  }

  /** Where a message array holds what. */
  ghost predicate LaidOut(p: Protocol, m: HubMessage, order: seq<Text>, vs: seq<Value>)
  {
    var a := if p.Plain? then 4 else 5;
    match m
    case InvocationMessage(headers, id, target, arguments, ids) =>
      && |vs| > a && vs[0] == Integer(1) && IsHeaders(vs[1], headers, order)
      && IsOptional(vs[2], id) && vs[3] == String(target) && Flagged(p, vs, 4)
      && IsArguments(vs[a], arguments) && EndsWithIds(vs, a + 1, ids)
    case StreamInvocationMessage(headers, id, target, values, ids) =>
      && |vs| > a && vs[0] == Integer(4) && IsHeaders(vs[1], headers, order)
      && vs[2] == String(id) && vs[3] == String(target) && Flagged(p, vs, 4)
      && IsList(vs[a], values) && EndsWithIds(vs, a + 1, ids)
    case StreamItemMessage(headers, id, item) =>
      && |vs| == a && vs[0] == Integer(2) && IsHeaders(vs[1], headers, order)
      && IsOptional(vs[2], id) && Flagged(p, vs, 3) && Represents(vs[a - 1], item)
    case CompletionMessage(headers, id, error, result) =>
      && |vs| >= 4 && vs[0] == Integer(3) && IsHeaders(vs[1], headers, order)
      && vs[2] == String(id) && CompletionLaid(p, vs, error, result)
    case CancelInvocationMessage(headers, id) =>
      |vs| == 3 && vs[0] == Integer(5) && IsHeaders(vs[1], headers, order) && vs[2] == String(id)
    case PingMessage => vs == [Integer(6)]
    case CloseMessage(_, _) => vs == [Integer(7), Nil]
    case AckMessage(id) => vs == [Integer(8), Integer(id)]
    case SequenceMessage(id) => vs == [Integer(9), Integer(id)]
  }

  lemma {:induction false} EntriesInOrder(headers: Headers, order: seq<Text>)
    requires forall k | k in order :: k in headers
    ensures var vs := HeaderEntries(headers, order);
            forall i | 0 <= i < |order| ::
              vs[2 * i] == String(order[i]) && vs[2 * i + 1] == String(headers[order[i]])
  {
    hide IsUtf8;
    if order != [] {
      EntriesInOrder(headers, order[1..]);
      var vs, rest := HeaderEntries(headers, order), HeaderEntries(headers, order[1..]);
      forall i | 0 <= i < |order|
        ensures vs[2 * i] == String(order[i]) && vs[2 * i + 1] == String(headers[order[i]])
      {
        if i > 0 {
          assert vs[2 * i] == rest[2 * (i - 1)] && vs[2 * i + 1] == rest[2 * (i - 1) + 1];
          assert order[i] == order[1..][i - 1];
        }
      }
    }
  }

  lemma HeadersLaid(headers: Headers, order: seq<Text>)
    requires Enumerates(order, headers)
    ensures IsHeaders(HeadersValue(headers, order), headers, order)
  {
    EntriesInOrder(headers, order);
    hide IsUtf8, HeaderEntries;
    if order != [] {
      assert order[0] in headers;
    }
  }

  lemma {:induction false} StringsInOrder(texts: seq<Text>)
    ensures |StringValues(texts)| == |texts|
    ensures forall i | 0 <= i < |texts| :: StringValues(texts)[i] == String(texts[i])
  {
    hide IsUtf8;
    if texts != [] {
      StringsInOrder(texts[1..]);
    }
  }

  lemma IdsLaid(vs: seq<Value>, ids: Option<seq<Text>>)
    ensures EndsWithIds(vs + StreamIds(ids), |vs|, ids)
  {
    hide IsUtf8, StringValues;
    if ids.Some? {
      StringsInOrder(ids.value);
    }
  }

  lemma ListLaid(values: seq<Json>)
    ensures IsList(Array(JsonToValues(values)), values)
  {
    JsonsRepresented(values);
  }

  lemma ArgumentsLaid(arguments: Arguments)
    ensures ArgumentsValue(arguments).Ok? ==> IsArguments(ArgumentsValue(arguments).value, arguments)
    ensures ArgumentsValue(arguments).Err? <==> arguments.FromPack? && Decode(arguments.bytes).Failed?
  {
    hide Decode, Represents, JsonToValues;
    if arguments.FromJson? {
      ListLaid(arguments.values);
    }
  }

  lemma InvocationLaid(p: Protocol, m: HubMessage, order: seq<Text>)
    requires (m.InvocationMessage? || m.StreamInvocationMessage?) && Enumerates(order, HeadersOf(m))
    ensures Values(p, m, order).Ok? ==> LaidOut(p, m, order, Values(p, m, order).value)
    ensures Values(p, m, order).Err? <==>
              m.InvocationMessage? && m.arguments.FromPack? && Decode(m.arguments.bytes).Failed?
  {
    hide IsUtf8, Decode, Enumerates, IsHeaders, HeadersValue, IsArguments, ArgumentsValue, JsonToValues, IsList,
      StreamIds, EndsWithIds;
    HeadersLaid(HeadersOf(m), order);
    var vs := Values(p, m, order);
    var a := if p.Plain? then 4 else 5;
    if m.InvocationMessage? {
      ArgumentsLaid(m.arguments);
    } else {
      ListLaid(m.values);
    }
    if vs.Ok? {
      IdsLaid(vs.value[..a + 1], m.streamIds);
      assert vs.value == vs.value[..a + 1] + StreamIds(m.streamIds);
    }
  }

  lemma OtherLaid(p: Protocol, m: HubMessage, order: seq<Text>)
    requires !m.InvocationMessage? && !m.StreamInvocationMessage? && Enumerates(order, HeadersOf(m))
    ensures Values(p, m, order).Ok? && LaidOut(p, m, order, Values(p, m, order).value)
  {
    hide IsUtf8, Enumerates, IsHeaders, HeadersValue, Represents, JsonToValue;
    HeadersLaid(HeadersOf(m), order);
    match m
    case StreamItemMessage(_, _, item) => JsonRepresented(item);
    case CompletionMessage(_, _, _, result) => if result.Some? { JsonRepresented(result.value); }
    case _ =>
  }

  /** Every message is written, except an invocation whose received arguments are not MessagePack; and
      what a peer decodes from the frame is an array with the elements where the hub protocol
      puts them. */
  lemma PeerFinds(p: Protocol, m: HubMessage, order: seq<Text>)
    requires Enumerates(order, HeadersOf(m)) && GenuineMessage(m)
    ensures Values(p, m, order).Err? <==>
              m.InvocationMessage? && m.arguments.FromPack? && Decode(m.arguments.bytes).Failed?
    ensures Carried(p, m, order) ==>
              var found := Decode(Payload(p, m, order));
              && found.Got? && found.rest == [] && found.value.Array?
              && LaidOut(p, m, order, found.value.items)
  {
    hide Enumerates, GenuineMessage, Encode, Decode, LaidOut, PlainValues, BrotliValues;
    if m.InvocationMessage? || m.StreamInvocationMessage? {
      InvocationLaid(p, m, order);
    } else {
      OtherLaid(p, m, order);
    }
    if Carried(p, m, order) {
      var vs := Values(p, m, order).value;
      ValuesWellFormed(p, m, order);
      ArrayDecodes(vs);
    }
  }

  lemma ArrayDecodes(vs: seq<Value>)
    requires AllWellFormed(vs) && |Encode(Array(vs))| < 0x1_0000_0000
    ensures Decode(Encode(Array(vs))) == Got(Array(vs), [])
  {
    hide Encode, Decode;
    DecodeEncoded(Array(vs), []);
    assert Encode(Array(vs)) + [] == Encode(Array(vs));
  }

  // ---- a close from the server --------------------------------------------------------------

  /** In both protocols a close is read element by element: its error is missing, nil or a text, and
      whether to reconnect is said by a third element that is a boolean and by nothing else. */
  lemma CloseParses(p: Protocol, vs: seq<Value>, f: Foreign)
    requires AllWellFormed(vs) && |Encode(Array(vs))| < 0x1_0000_0000 && vs != [] && vs[0] == Integer(7)
    ensures var r := ParseFrame(p, Encode(Array(vs)), f);
            && (|vs| == 1 ==> r == Err(InvalidPayload))
            && (|vs| > 1 && !vs[1].Nil? && !(vs[1].String? && IsUtf8(vs[1].text)) ==> r == Err(InvalidPayload))
            && (|vs| > 1 && (vs[1].Nil? || (vs[1].String? && IsUtf8(vs[1].text))) ==>
                  && r.Ok? && r.value.Some? && r.value.value.CloseMessage?
                  && (vs[1].Nil? ==> r.value.value.error == None)
                  && (vs[1].String? ==> r.value.value.error == Some(vs[1].text))
                  && (|vs| > 2 && vs[2].Boolean? ==> r.value.value.allowReconnect == Some(vs[2].flag))
                  && (|vs| == 2 || !vs[2].Boolean? ==> r.value.value.allowReconnect == None))
  {
    hide Encode, Message, IsUtf8;
    PayloadNotEmpty(vs);
    DecodeWritten(vs, ArgumentsIndex(p));
    TypeOfWritten(vs, 7);
    hide TypeOf;
  }

  // ---- any frame ----------------------------------------------------------------------------

  /** The numbers the hub protocol gives to the kinds of messages. */
  function Code(m: HubMessage): int
  {
    match m
    case InvocationMessage(_, _, _, _, _) => 1
    case StreamItemMessage(_, _, _) => 2
    case CompletionMessage(_, _, _, _) => 3
    case StreamInvocationMessage(_, _, _, _, _) => 4
    case CancelInvocationMessage(_, _) => 5
    case PingMessage => 6
    case CloseMessage(_, _) => 7
    case AckMessage(_) => 8
    case SequenceMessage(_) => 9
  }

  /** The kind of a frame is its first element, a signed 64-bit integer. */
  predicate HasKind(vs: seq<Value>)
  {
    vs != [] && vs[0].Integer? && -0x8000_0000_0000_0000 <= vs[0].n < 0x8000_0000_0000_0000
  }

  /** Only the low 32 bits of it count. */
  predicate OfKind(vs: seq<Value>, code: int)
  {
    HasKind(vs) && (vs[0].n - code) % 0x1_0000_0000 == 0
  }

  ghost predicate ReadsHeaders(vs: seq<Value>, headers: Headers)
  {
    && |vs| >= 2
    && ((vs[1] == Nil && headers == map[]) || (vs[1].Map? && HeadersFrom(vs[1].entries, map[]) == Ok(headers)))
  }

  ghost predicate ReadsCompletion(p: Protocol, vs: seq<Value>, error: Option<Text>, result: Option<Json>, f: Foreign)
  {
    && |vs| >= 4 && vs[3].Integer?
    && (vs[3].n != 2 ==> |vs| >= 5)
    && (error.Some? ==> vs[3].n == 1) && (result.Some? ==> vs[3].n == 3)
    && (p.Plain? && vs[3].n == 1 ==> |vs| >= 5 && IsOptional(vs[4], error))
    && (p.Plain? && vs[3].n == 3 ==> |vs| >= 5 && result == Some(ValueToJson(vs[4], f)))
  }

  /** Where the fields of a parsed message come from. What the compressing protocol unpacks is the
      subject of `HubCompression`. */
  ghost predicate ReadFrom(p: Protocol, m: HubMessage, items: Items, f: Foreign)
  {
    var vs := items.values;
    && OfKind(vs, Code(m))
    && match m
       case InvocationMessage(headers, id, target, arguments, ids) =>
         && |vs| >= 5 && ReadsHeaders(vs, headers) && IsOptional(vs[2], id) && vs[3] == String(target)
         && ids == Some([]) && (p.Plain? ==> items.raw.Some? && arguments == FromPack(items.raw.value))
         && (arguments.FromPack? ==> ReadArrayLen(arguments.bytes).Some?)
       case StreamInvocationMessage(headers, id, target, _, ids) =>
         && p.Brotli? && |vs| >= 6 && ReadsHeaders(vs, headers) && vs[2] == String(id) && vs[3] == String(target)
         && ids == Some([])
       case StreamItemMessage(headers, id, item) =>
         && |vs| >= (if p.Plain? then 4 else 5) && ReadsHeaders(vs, headers) && IsOptional(vs[2], id)
         && (p.Plain? ==> item == ValueToJson(vs[3], f))
       case CompletionMessage(headers, id, error, result) =>
         |vs| >= 4 && ReadsHeaders(vs, headers) && vs[2] == String(id) && ReadsCompletion(p, vs, error, result, f)
       case CancelInvocationMessage(_, _) => false
       case PingMessage => true
       case CloseMessage(error, allow) =>
         && |vs| >= 2 && IsOptional(vs[1], error)
         && allow == if |vs| > 2 && vs[2].Boolean? then Some(vs[2].flag) else None
       case AckMessage(id) => |vs| >= 2 && vs[1] == Integer(id)
       case SequenceMessage(id) => |vs| >= 2 && vs[1] == Integer(id)
  }

  lemma LowBits(n: int, k: int)
    requires 1 <= k <= 9
    ensures TruncateToI32(n) == k <==> (n - k) % 0x1_0000_0000 == 0
  {
  }

  /** Which kind a frame is of, for any first element at all. */
  lemma TypeByLowBits(vs: seq<Value>)
    ensures TypeOf(vs).Ok? <==> HasKind(vs)
    ensures TypeOf(vs).Ok? ==>
              && (TypeOf(vs).value.None? <==> forall k | 1 <= k <= 9 :: !OfKind(vs, k))
              && (forall k | 1 <= k <= 9 && OfKind(vs, k) :: TypeOf(vs).value == FromI32(k))
  {
    hide TruncateToI32;
    if TypeOf(vs).Ok? {
      forall k | 1 <= k <= 9 ensures TruncateToI32(vs[0].n) == k <==> OfKind(vs, k) {
        LowBits(vs[0].n, k);
      }
      var k := TruncateToI32(vs[0].n);
      if 1 <= k <= 9 {
        assert OfKind(vs, k);
      }
    }
  }

  /** The kind of a frame whose type was recognised. */
  lemma KnownKind(vs: seq<Value>) returns (k: int)
    requires TypeOf(vs).Ok? && TypeOf(vs).value.Some?
    ensures 1 <= k <= 9 && OfKind(vs, k) && TypeOf(vs).value == FromI32(k)
  {
    TypeByLowBits(vs);
    hide TypeOf, OfKind;
    k :| 1 <= k <= 9 && OfKind(vs, k);
  }

  /** Frames of unknown kinds are left out, and those only a server receives. */
  ghost predicate LeftOut(p: Protocol, vs: seq<Value>)
  {
    HasKind(vs) && forall k | 1 <= k <= 9 && OfKind(vs, k) :: k == 5 || (k == 4 && p.Plain?)
  }

  lemma PlainReadFrom(items: Items, f: Foreign)
    ensures var r := PlainMessage(items, f);
            && (r.Ok? && r.value.Some? ==> ReadFrom(Plain, r.value.value, items, f))
            && (r == Ok(None) <==> LeftOut(Plain, items.values))
  {
    var vs := items.values;
    TypeByLowBits(vs);
    if TypeOf(vs).Ok? && TypeOf(vs).value.Some? {
      var k := KnownKind(vs);
    }
    hide TypeOf, ValueToJson, HeadersFrom, IsUtf8, ReadArrayLen;
  }

  lemma BrotliReadFrom(items: Items, decoder: Decoder, f: Foreign)
    ensures var r, p := BrotliMessage(items, decoder, f), Brotli(decoder);
            && (r.Ok? && r.value.Some? ==> ReadFrom(p, r.value.value, items, f))
            && (r == Ok(None) <==> LeftOut(p, items.values))
  {
    var vs := items.values;
    TypeByLowBits(vs);
    if TypeOf(vs).Ok? && TypeOf(vs).value.Some? {
      var k := KnownKind(vs);
    }
    hide TypeOf, ValueToJson, HeadersFrom, IsUtf8, ReadArrayLen, UnpackData, ValueToJsonArray, AsStr, BytesOf, Decode;
  }

  // ---- which frames are accepted ------------------------------------------------------------

  predicate IsText(v: Value)
  {
    v.String? && IsUtf8(v.text)
  }

  predicate IsTextOrNil(v: Value)
  {
    v.Nil? || IsText(v)
  }

  predicate IsI64(v: Value)
  {
    v.Integer? && -0x8000_0000_0000_0000 <= v.n < 0x8000_0000_0000_0000
  }

  /** Keys and values that are all texts. */
  ghost predicate TextPairs(vs: seq<Value>)
  {
    forall i | 0 <= i < |vs| / 2 * 2 :: IsText(vs[i])
  }

  /** Headers are nil or a map of texts. */
  ghost predicate AcceptsHeaders(vs: seq<Value>)
  {
    |vs| >= 2 && (vs[1].Nil? || (vs[1].Map? && TextPairs(vs[1].entries)))
  }

  lemma {:induction false} HeadersAccepted(vs: seq<Value>, done: Headers)
    ensures HeadersFrom(vs, done).Ok? <==> TextPairs(vs)
    decreases |vs|
  {
    if |vs| >= 2 {
      assert TextPairs(vs) <==> IsText(vs[0]) && IsText(vs[1]) && TextPairs(vs[2..]) by { PairsSplit(vs); }
      hide TextPairs;
      if IsText(vs[0]) && IsText(vs[1]) {
        HeadersAccepted(vs[2..], done[vs[0].text := vs[1].text]);
      }
    }
  }

  lemma PairsSplit(vs: seq<Value>)
    requires |vs| >= 2
    ensures TextPairs(vs) <==> IsText(vs[0]) && IsText(vs[1]) && TextPairs(vs[2..])
  {
    hide IsText;
    var rest := vs[2..];
    assert forall i | 0 <= i < |rest| :: rest[i] == vs[i + 2];
    if IsText(vs[0]) && IsText(vs[1]) && TextPairs(rest) {
      forall i | 0 <= i < |vs| / 2 * 2 ensures IsText(vs[i]) {
        if i >= 2 {
          assert IsText(rest[i - 2]);
        }
      }
    }
    if TextPairs(vs) {
      forall i | 0 <= i < |rest| / 2 * 2 ensures IsText(rest[i]) {
        assert IsText(vs[i + 2]);
      }
    }
  }

  /** The elements the parser insists on, by kind. */
  ghost predicate Accepts(items: Items, k: int)
  {
    var vs := items.values;
    match k
    case 1 =>
      && |vs| >= 5 && AcceptsHeaders(vs) && IsTextOrNil(vs[2]) && IsText(vs[3])
      && items.raw.Some? && ReadArrayLen(items.raw.value).Some?
    case 2 => |vs| >= 4 && AcceptsHeaders(vs) && IsTextOrNil(vs[2])
    case 3 =>
      && |vs| >= 4 && AcceptsHeaders(vs) && IsText(vs[2]) && IsI64(vs[3])
      && (vs[3] != Integer(2) ==> |vs| >= 5) && (vs[3] == Integer(1) ==> IsTextOrNil(vs[4]))
    case 6 => true
    case 7 => |vs| >= 2 && IsTextOrNil(vs[1])
    case 8 => |vs| >= 2 && IsI64(vs[1])
    case 9 => |vs| >= 2 && IsI64(vs[1])
    case _ => false
  }

  lemma HeadersExactly(vs: seq<Value>)
    ensures CreateMessageHeaders(vs).Ok? <==> AcceptsHeaders(vs)
  {
    if |vs| >= 2 && vs[1].Map? {
      HeadersAccepted(vs[1].entries, map[]);
    }
    hide HeadersFrom, TextPairs;
  }

  /** A frame of the plain protocol, of whatever kind, yields a message if and only if the elements its
      kind insists on are there. */
  lemma AcceptedExactly(items: Items, k: int, f: Foreign)
    requires 1 <= k <= 9 && OfKind(items.values, k)
    ensures var r := PlainMessage(items, f);
            r.Ok? && r.value.Some? <==> Accepts(items, k)
  {
    var vs := items.values;
    TypeByLowBits(vs);
    HeadersExactly(vs);
    assert TypeOf(vs) == Ok(FromI32(k));
    hide TypeOf, ValueToJson, CreateMessageHeaders, AcceptsHeaders, IsUtf8, ReadArrayLen, OfKind;
  }

  /** For every frame at all: a message that is parsed has the kind of the frame and the fields of its
      elements, and a frame is left out if and only if it decodes and its kind is unknown or one that
      only a server receives. */
  lemma FrameMeans(p: Protocol, frame: Bytes, f: Foreign)
    ensures var r, items := ParseFrame(p, frame, f), Message(frame, ArgumentsIndex(p));
            && (r.Ok? && r.value.Some? ==> items.Ok? && ReadFrom(p, r.value.value, items.value, f))
            && (r == Ok(None) <==> items.Ok? && LeftOut(p, items.value.values))
  {
    hide PlainMessage, BrotliMessage, ReadFrom, LeftOut, ReadItems, MarkerOf;
    var items := Message(frame, ArgumentsIndex(p));
    if items.Ok? {
      match p
      case Plain => PlainReadFrom(items.value, f);
      case Brotli(decoder) => BrotliReadFrom(items.value, decoder, f);
    }
  }
}
