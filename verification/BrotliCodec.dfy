/** The writers and parsers of the `messagepack+brotli` hub protocol. */
module BrotliCodec {
  import opened Basics
  import opened HubMessage
  import opened MessagePack
  import opened MessageDecode
  import opened ValueConversion
  import opened PlainCodec

  /** The decompressor, as any function from bytes to bytes or an error. */
  type Decoder = Bytes -> Result<Bytes, ProtocolError>

  // ---- writing ------------------------------------------------------------------------------

  /** The elements of the message array; payloads are written uncompressed, behind a zero. */
  function BrotliValues(m: HubMessage, order: seq<Text>): Result<seq<Value>, ProtocolError>
    requires Enumerates(order, HeadersOf(m))
  {
    var headers := HeadersValue(HeadersOf(m), order);
    match m
    case InvocationMessage(_, id, target, arguments, ids) =>
      var value :- ArgumentsValue(arguments);
      Ok([Integer(1), headers, OptionalStringValue(id), String(target), Integer(0), value] + StreamIds(ids))
    case StreamInvocationMessage(_, id, target, values, ids) =>
      Ok([Integer(4), headers, String(id), String(target), Integer(0), Array(JsonToValues(values))] + StreamIds(ids))
    case StreamItemMessage(_, id, item) =>
      Ok([Integer(2), headers, OptionalStringValue(id), Integer(0), JsonToValue(item)])
    case CompletionMessage(_, id, _, _) =>
      Ok([Integer(3), headers, String(id), Integer(ResultKind(m))]
         + if ResultKind(m) == VOID_RESULT then [] else [Integer(0), Outcome(m)])
    case _ => PlainValues(m, order)
  }

  method WriteInvocationBrotli(m: HubMessage, order: seq<Text>) returns (r: Result<Bytes, ProtocolError>)
    requires m.InvocationMessage? && Enumerates(order, m.headers)
    ensures r == PackedMessage(BrotliValues(m, order))
  {
    var arguments := ArgumentsValue(m.arguments);
    if arguments.Err? {
      return Err(arguments.error);
    }
    var payload := [Integer(1), HeadersValue(m.headers, order), OptionalStringValue(m.invocationId),
                    String(m.target), Integer(0), arguments.value];
    if m.streamIds.Some? && m.streamIds.value != [] {
      payload := payload + [Array(StringValues(m.streamIds.value))];
    }
    assert payload == BrotliValues(m, order).value;
    var bytes := PackPayload(payload);
    r := Ok(bytes);
  }

  method WriteStreamInvocationBrotli(m: HubMessage, order: seq<Text>) returns (bytes: Bytes)
    requires m.StreamInvocationMessage? && Enumerates(order, m.headers)
    ensures Ok(bytes) == PackedMessage(BrotliValues(m, order))
  {
    var payload := [Integer(4), HeadersValue(m.headers, order), String(m.id), String(m.target),
                    Integer(0), Array(JsonToValues(m.values))];
    if m.streamIds.Some? && m.streamIds.value != [] {
      payload := payload + [Array(StringValues(m.streamIds.value))];
    }
    assert payload == BrotliValues(m, order).value;
    bytes := PackPayload(payload);
  }

  method WriteCompletionBrotli(m: HubMessage, order: seq<Text>) returns (bytes: Bytes)
    requires m.CompletionMessage? && Enumerates(order, m.headers)
    ensures Ok(bytes) == PackedMessage(BrotliValues(m, order))
  {
    var resultKind := if m.error.Some? then ERROR_RESULT else if m.result.Some? then NON_VOID_RESULT else VOID_RESULT;
    var payload := [Integer(3), HeadersValue(m.headers, order), String(m.id), Integer(resultKind)];
    if resultKind == ERROR_RESULT {
      payload := payload + [Integer(0)];
      payload := payload + [OptionalStringValue(m.error)];
    } else if resultKind == NON_VOID_RESULT {
      payload := payload + [Integer(0)];
      payload := payload + [JsonToValue(m.result.value)];
    }
    assert payload == BrotliValues(m, order).value;
    bytes := PackPayload(payload);
  }

  // ---- parsing ------------------------------------------------------------------------------

  /** A payload given as a list of integers, each cut to its low byte. */
  function ListedBytes(items: seq<Value>): (r: Option<Bytes>)
    ensures r.Some? ==> |r.value| == |items|
  {
    if items == [] then Some([])
    else if !(items[0].Integer? && items[0].n >= 0) then None
    else
      var rest := ListedBytes(items[1..]);
      if rest.Some? then Some([items[0].n % 256] + rest.value) else None
  }

  function BytesOf(v: Value): Option<Bytes>
  {
    match v
    case Binary(data) => Some(data)
    case Array(items) => ListedBytes(items)
    case _ => None
  }

  /** A value that holds bytes: binary data, or one non-negative integer per byte, whose low byte it is. */
  ghost predicate Holds(v: Value, bytes: Bytes)
  {
    match v
    case Binary(data) => bytes == data
    case Array(items) =>
      && |items| == |bytes|
      && forall i | 0 <= i < |items| :: items[i].Integer? && items[i].n >= 0 && bytes[i] == items[i].n % 256
    case _ => false
  }

  lemma {:induction false} ListHolds(items: seq<Value>, bytes: Bytes)
    ensures ListedBytes(items) == Some(bytes) <==> Holds(Array(items), bytes)
    decreases |items|
  {
    if items != [] && items[0].Integer? && items[0].n >= 0 && bytes != [] {
      ListHolds(items[1..], bytes[1..]);
      if Holds(Array(items), bytes) {
        assert bytes == [items[0].n % 256] + bytes[1..];
        assert forall i | 0 <= i < |items[1..]| :: items[1..][i] == items[i + 1];
        assert Holds(Array(items[1..]), bytes[1..]);
      }
    }
  }

  lemma BytesHeld(v: Value, bytes: Bytes)
    ensures BytesOf(v) == Some(bytes) <==> Holds(v, bytes)
  {
    if v.Array? {
      ListHolds(v.items, bytes);
    }
  }

  method ValueToBytes(v: Value) returns (r: Option<Bytes>)
    ensures r == BytesOf(v)
    ensures forall bytes :: r == Some(bytes) <==> Holds(v, bytes)
  {
    hide ListedBytes, Joined;
    forall bytes ensures BytesOf(v) == Some(bytes) <==> Holds(v, bytes) {
      BytesHeld(v, bytes);
    }
    hide Holds;
    if v.Binary? {
      return Some(v.data);
    }
    if !v.Array? {
      return None;
    }
    var bytes: Bytes := [];
    assert v.items[0..] == v.items;
    ListedEnds(ListedBytes(v.items), []);
    for i := 0 to |v.items|
      invariant ListedBytes(v.items) == Joined(bytes, ListedBytes(v.items[i..]))
    {
      var item := v.items[i];
      ListedStep(bytes, v.items[i..]);
      assert v.items[i..][1..] == v.items[i + 1..];
      if !(item.Integer? && item.n >= 0) {
        return None;
      }
      bytes := bytes + [item.n % 256];
    }
    ListedEnds(None, bytes);
    r := Some(bytes);
  }

  function Joined(done: Bytes, rest: Option<Bytes>): Option<Bytes>
  {
    if rest.Some? then Some(done + rest.value) else None
  }

  lemma ListedEnds(r: Option<Bytes>, bytes: Bytes)
    ensures Joined([], r) == r
    ensures Joined(bytes, ListedBytes([])) == Some(bytes)
  {
    assert bytes + [] == bytes;
    if r.Some? {
      assert [] + r.value == r.value;
    }
  }

  lemma ListedStep(done: Bytes, items: seq<Value>)
    requires items != []
    ensures Joined(done, ListedBytes(items))
            == if items[0].Integer? && items[0].n >= 0
               then Joined(done + [items[0].n % 256], ListedBytes(items[1..])) else None
  {
    if items[0].Integer? && items[0].n >= 0 {
      var rest := ListedBytes(items[1..]);
      if rest.Some? {
        assert done + ([items[0].n % 256] + rest.value) == done + [items[0].n % 256] + rest.value;
      }
    }
  }

  function IsCompressed(data: seq<Value>, i: nat): bool
  {
    i < |data| && AsI64(data[i]) == Some(1)
  }

  /** The payload at `i`, if it is there; a compressed one that is not made of bytes counts as
      missing. */
  function UnpackData(data: seq<Value>, i: nat, compressed: bool, decoder: Decoder):
      Result<Option<Value>, ProtocolError>
  {
    if i >= |data| then Ok(None)
    else if !compressed then Ok(Some(data[i]))
    else if BytesOf(data[i]).None? then Ok(None)
    else
      var decoded :- decoder(BytesOf(data[i]).value);
      match Decode(decoded)
      case Failed => Err(BadMessagePack)
      case Got(v, _) => Ok(Some(v))
  }

  function CreateCompletionBrotli(data: seq<Value>, decoder: Decoder, f: Foreign): Result<HubMessage, ProtocolError>
  {
    if |data| < 4 then Err(InvalidPayload)
    else
      var headers :- CreateMessageHeaders(data);
      var kind :- ValueToI64(data[3]);
      if kind != VOID_RESULT && |data| < 5 then Err(InvalidPayload)
      else
        var id :- ValueToString(data[2]);
        if kind == ERROR_RESULT || kind == NON_VOID_RESULT then
          var unpacked :- UnpackData(data, 5, IsCompressed(data, 4), decoder);
          if kind == ERROR_RESULT then
            Ok(CompletionMessage(headers, id, if unpacked.Some? then AsStr(unpacked.value) else None, None))
          else
            Ok(CompletionMessage(headers, id, None,
                                 if unpacked.Some? then Some(ValueToJson(unpacked.value, f)) else None))
        else
          Ok(CompletionMessage(headers, id, None, None))
  }

  function CreateStreamItemBrotli(data: seq<Value>, decoder: Decoder, f: Foreign): Result<HubMessage, ProtocolError>
  {
    if |data| < 5 then Err(InvalidPayload)
    else
      var unpacked :- UnpackData(data, 4, IsCompressed(data, 3), decoder);
      var headers :- CreateMessageHeaders(data);
      var id :- OptionalString(data[2]);
      Ok(StreamItemMessage(headers, id, if unpacked.Some? then ValueToJson(unpacked.value, f) else Json.Null))
  }

  function UnpackArguments(raw: Option<Bytes>, compressed: bool, decoder: Decoder): Result<Arguments, ProtocolError>
  {
    if raw.None? then Ok(FromJson([]))
    else if !compressed then FromMessagePack(raw.value)
    else
      match Decode(raw.value)
      case Failed => Err(BadMessagePack)
      case Got(packed, _) =>
        if BytesOf(packed).None? then Err(InvalidPayload)
        else
          var decoded :- decoder(BytesOf(packed).value);
          FromMessagePack(decoded)
  }

  function CreateInvocationBrotli(data: seq<Value>, raw: Option<Bytes>, decoder: Decoder):
      Result<HubMessage, ProtocolError>
  {
    if |data| < 5 then Err(InvalidPayload)
    else
      var arguments :- UnpackArguments(raw, IsCompressed(data, 4), decoder);
      var headers :- CreateMessageHeaders(data);
      var id :- OptionalString(data[2]);
      var target :- ValueToString(data[3]);
      Ok(InvocationMessage(headers, id, target, arguments, Some([])))
  }

  function CreateStreamInvocationBrotli(data: seq<Value>, decoder: Decoder, f: Foreign):
      Result<HubMessage, ProtocolError>
  {
    if |data| < 6 then Err(InvalidPayload)
    else
      var unpacked :- UnpackData(data, 5, IsCompressed(data, 4), decoder);
      var arguments :- if unpacked.Some? then ValueToJsonArray(unpacked.value, f) else Ok([]);
      var headers :- CreateMessageHeaders(data);
      var id :- ValueToString(data[2]);
      var target :- ValueToString(data[3]);
      Ok(StreamInvocationMessage(headers, id, target, arguments, Some([])))
  }

  function CreateBrotli(t: MessageType, items: Items, decoder: Decoder, f: Foreign):
      Result<Option<HubMessage>, ProtocolError>
  {
    match t
    case Invocation => Present(CreateInvocationBrotli(items.values, items.raw, decoder))
    case StreamInvocation => Present(CreateStreamInvocationBrotli(items.values, decoder, f))
    case StreamItem => Present(CreateStreamItemBrotli(items.values, decoder, f))
    case Completion => Present(CreateCompletionBrotli(items.values, decoder, f))
    case _ => Create(t, items, f)
  }

  function BrotliMessage(items: Items, decoder: Decoder, f: Foreign): Result<Option<HubMessage>, ProtocolError>
  {
    var t :- TypeOf(items.values);
    if t.None? then Ok(None) else CreateBrotli(t.value, items, decoder, f)
  }
}
