/** The writers and parsers of the `messagepack` hub protocol. */
module PlainCodec {
  import opened Basics
  import opened HubMessage
  import opened MessagePack
  import opened MessageDecode
  import opened ValueConversion
  import BinaryFraming

  const ERROR_RESULT := 1
  const VOID_RESULT := 2
  const NON_VOID_RESULT := 3

  // ---- arguments ----------------------------------------------------------------------------

  /** The arguments as one MessagePack value. */
  function ArgumentsValue(a: Arguments): Result<Value, ProtocolError>
  {
    match a
    case FromJson(values) => Ok(Array(JsonToValues(values)))
    case FromPack(bytes) =>
      match Decode(bytes)
      case Failed => Err(Undecodable)
      case Got(v, _) => Ok(v)
  }

  function ValueToJsonArray(v: Value, f: Foreign): Result<seq<Json>, ProtocolError>
  {
    if v.Array? then Ok(ValuesToJson(v.items, f)) else Err(InvalidPayload)
  }

  /** The arguments as JSON values, which is also how they are compared. */
  function ArgumentsJson(a: Arguments, f: Foreign): Result<seq<Json>, ProtocolError>
  {
    if a.FromJson? then Ok(a.values)
    else
      var v :- ArgumentsValue(a);
      ValueToJsonArray(v, f)
  }

  function FromMessagePack(bytes: Bytes): Result<Arguments, ProtocolError>
  {
    if ReadArrayLen(bytes).Some? then Ok(FromPack(bytes)) else Err(InvalidPayload)
  }

  // ---- writing ------------------------------------------------------------------------------

  function HeadersOf(m: HubMessage): Headers
  {
    if m.PingMessage? || m.CloseMessage? || m.AckMessage? || m.SequenceMessage? then map[] else m.headers
  }

  function HeadersValue(headers: Headers, order: seq<Text>): Value
    requires Enumerates(order, headers)
  {
    if headers == map[] then Map([]) else Map(HeaderEntries(headers, order))
  }

  function StreamIds(ids: Option<seq<Text>>): seq<Value>
  {
    if ids.Some? && ids.value != [] then [Array(StringValues(ids.value))] else []
  }

  function ResultKind(m: HubMessage): int
    requires m.CompletionMessage?
  {
    if m.error.Some? then ERROR_RESULT else if m.result.Some? then NON_VOID_RESULT else VOID_RESULT
  }

  function Outcome(m: HubMessage): Value
    requires m.CompletionMessage?
  {
    if m.error.Some? then String(m.error.value)
    else if m.result.Some? then JsonToValue(m.result.value)
    else Nil
  }

  /** The elements of the message array of every message, as the writers lay them out. */
  function PlainValues(m: HubMessage, order: seq<Text>): Result<seq<Value>, ProtocolError>
    requires Enumerates(order, HeadersOf(m))
  {
    var headers := HeadersValue(HeadersOf(m), order);
    match m
    case InvocationMessage(_, id, target, arguments, ids) =>
      var value :- ArgumentsValue(arguments);
      Ok([Integer(1), headers, OptionalStringValue(id), String(target), value] + StreamIds(ids))
    case StreamInvocationMessage(_, id, target, values, ids) =>
      Ok([Integer(4), headers, String(id), String(target), Array(JsonToValues(values))] + StreamIds(ids))
    case StreamItemMessage(_, id, item) =>
      Ok([Integer(2), headers, OptionalStringValue(id), JsonToValue(item)])
    case CompletionMessage(_, id, _, _) =>
      Ok([Integer(3), headers, String(id), Integer(ResultKind(m))]
         + if ResultKind(m) == VOID_RESULT then [] else [Outcome(m)])
    case CancelInvocationMessage(_, id) => Ok([Integer(5), headers, String(id)])
    case PingMessage => Ok([Integer(6)])
    case CloseMessage(_, _) => Ok([Integer(7), Nil])
    case AckMessage(id) => Ok([Integer(8), Integer(id)])
    case SequenceMessage(id) => Ok([Integer(9), Integer(id)])
  }

  /** One frame with the message array in it. */
  function Packed(vs: seq<Value>): Bytes
  {
    BinaryFraming.Frame(Encode(Array(vs)))
  }

  method PackPayload(payload: seq<Value>) returns (bytes: Bytes)
    ensures bytes == Packed(payload)
  {
    bytes := BinaryFraming.Write(Encode(Array(payload)));
  }

  method WriteCompletion(m: HubMessage, order: seq<Text>) returns (bytes: Bytes)
    requires m.CompletionMessage? && Enumerates(order, m.headers)
    ensures Ok(bytes) == PackedMessage(PlainValues(m, order))
  {
    var resultKind := if m.error.Some? then ERROR_RESULT else if m.result.Some? then NON_VOID_RESULT else VOID_RESULT;
    var payload := [Integer(3), HeadersValue(m.headers, order), String(m.id), Integer(resultKind)];
    if resultKind == ERROR_RESULT {
      payload := payload + [OptionalStringValue(m.error)];
    } else if resultKind == NON_VOID_RESULT {
      payload := payload + [JsonToValue(m.result.value)];
    }
    assert payload == PlainValues(m, order).value;
    bytes := PackPayload(payload);
  }

  method WriteInvocation(m: HubMessage, order: seq<Text>) returns (r: Result<Bytes, ProtocolError>)
    requires m.InvocationMessage? && Enumerates(order, m.headers)
    ensures r == PackedMessage(PlainValues(m, order))
  {
    var arguments := ArgumentsValue(m.arguments);
    if arguments.Err? {
      return Err(arguments.error);
    }
    var payload := [Integer(1), HeadersValue(m.headers, order), OptionalStringValue(m.invocationId),
                    String(m.target), arguments.value];
    if m.streamIds.Some? && m.streamIds.value != [] {
      payload := payload + [Array(StringValues(m.streamIds.value))];
    }
    assert payload == PlainValues(m, order).value;
    var bytes := PackPayload(payload);
    r := Ok(bytes);
  }

  method WriteStreamInvocation(m: HubMessage, order: seq<Text>) returns (bytes: Bytes)
    requires m.StreamInvocationMessage? && Enumerates(order, m.headers)
    ensures Ok(bytes) == PackedMessage(PlainValues(m, order))
  {
    var payload := [Integer(4), HeadersValue(m.headers, order), String(m.id), String(m.target),
                    Array(JsonToValues(m.values))];
    if m.streamIds.Some? && m.streamIds.value != [] {
      payload := payload + [Array(StringValues(m.streamIds.value))];
    }
    assert payload == PlainValues(m, order).value;
    bytes := PackPayload(payload);
  }

  function PackedMessage(vs: Result<seq<Value>, ProtocolError>): Result<Bytes, ProtocolError>
  {
    match vs
    case Err(e) => Err(e)
    case Ok(values) => Ok(Packed(values))
  }

  // ---- parsing ------------------------------------------------------------------------------

  function ValueToI64(v: Value): Result<int, ProtocolError>
  {
    if AsI64(v).Some? then Ok(AsI64(v).value) else Err(InvalidPayload)
  }

  /** The cast of a 64-bit integer to 32 bits keeps the low bits. */
  function TruncateToI32(n: int): int
  {
    (n + 0x8000_0000) % 0x1_0000_0000 - 0x8000_0000
  }

  function CreateMessageHeaders(data: seq<Value>): Result<Headers, ProtocolError>
  {
    if |data| < 2 then Err(InvalidPayload)
    else
      match data[1]
      case Nil => Ok(map[])
      case Map(entries) => HeadersFrom(entries, map[])
      case _ => Err(InvalidPayload)
  }

  function CreateClose(data: seq<Value>): Result<HubMessage, ProtocolError>
  {
    if |data| < 2 then Err(InvalidPayload)
    else
      var error :- OptionalString(data[1]);
      Ok(CloseMessage(error, if |data| > 2 && data[2].Boolean? then Some(data[2].flag) else None))
  }

  function CreateCompletion(data: seq<Value>, f: Foreign): Result<HubMessage, ProtocolError>
  {
    if |data| < 4 then Err(InvalidPayload)
    else
      var headers :- CreateMessageHeaders(data);
      var kind :- ValueToI64(data[3]);
      if kind != VOID_RESULT && |data| < 5 then Err(InvalidPayload)
      else
        var id :- ValueToString(data[2]);
        if kind == ERROR_RESULT then
          var error :- OptionalString(data[4]);
          Ok(CompletionMessage(headers, id, error, None))
        else if kind == NON_VOID_RESULT then
          Ok(CompletionMessage(headers, id, None, Some(ValueToJson(data[4], f))))
        else
          Ok(CompletionMessage(headers, id, None, None))
  }

  function CreateStreamItem(data: seq<Value>, f: Foreign): Result<HubMessage, ProtocolError>
  {
    if |data| < 4 then Err(InvalidPayload)
    else
      var headers :- CreateMessageHeaders(data);
      var id :- OptionalString(data[2]);
      Ok(StreamItemMessage(headers, id, ValueToJson(data[3], f)))
  }

  function CreateInvocation(data: seq<Value>, raw: Option<Bytes>): Result<HubMessage, ProtocolError>
  {
    if |data| < 5 || raw.None? then Err(InvalidPayload)
    else
      var headers :- CreateMessageHeaders(data);
      var id :- OptionalString(data[2]);
      var target :- ValueToString(data[3]);
      var arguments :- FromMessagePack(raw.value);
      Ok(InvocationMessage(headers, id, target, arguments, Some([])))
  }

  function CreateAck(data: seq<Value>): Result<HubMessage, ProtocolError>
  {
    if |data| < 2 then Err(InvalidPayload)
    else
      var id :- ValueToI64(data[1]);
      Ok(AckMessage(id))
  }

  function CreateSequence(data: seq<Value>): Result<HubMessage, ProtocolError>
  {
    if |data| < 2 then Err(InvalidPayload)
    else
      var id :- ValueToI64(data[1]);
      Ok(SequenceMessage(id))
  }

  function Create(t: MessageType, items: Items, f: Foreign): Result<Option<HubMessage>, ProtocolError>
  {
    match t
    case Invocation => Present(CreateInvocation(items.values, items.raw))
    case StreamItem => Present(CreateStreamItem(items.values, f))
    case Completion => Present(CreateCompletion(items.values, f))
    case Ping => Ok(Some(PingMessage))
    case Close => Present(CreateClose(items.values))
    case Ack => Present(CreateAck(items.values))
    case Sequence => Present(CreateSequence(items.values))
    case _ => Ok(None)
  }

  function Present(r: Result<HubMessage, ProtocolError>): Result<Option<HubMessage>, ProtocolError>
  {
    match r
    case Err(e) => Err(e)
    case Ok(m) => Ok(Some(m))
  }

  /** The type of a message by its first element; unknown types are none. */
  function TypeOf(data: seq<Value>): Result<Option<MessageType>, ProtocolError>
  {
    if data == [] then Err(InvalidPayload)
    else
      var n :- ValueToI64(data[0]);
      Ok(FromI32(TruncateToI32(n)))
  }

  function PlainMessage(items: Items, f: Foreign): Result<Option<HubMessage>, ProtocolError>
  {
    var t :- TypeOf(items.values);
    if t.None? then Ok(None) else Create(t.value, items, f)
  }
}
