/**
 Both MessagePack hub protocols as a whole: `parse_messages` over a stream of frames, and its
 relation to the writers.
 */
module HubProtocol {
  import opened Basics
  import opened HubMessage
  import opened MessagePack
  import opened LazyDecode
  import opened MessageDecode
  import opened ValueConversion
  import opened PlainCodec
  import opened BrotliCodec
  import BinaryFraming

  datatype Protocol = Plain | Brotli(decoder: Decoder)

  function ArgumentsIndex(p: Protocol): nat
  {
    if p.Plain? then 4 else 5
  }

  function Values(p: Protocol, m: HubMessage, order: seq<Text>): Result<seq<Value>, ProtocolError>
    requires Enumerates(order, HeadersOf(m))
  {
    if p.Plain? then PlainValues(m, order) else BrotliValues(m, order)
  }

  function MessageOf(p: Protocol, items: Items, f: Foreign): Result<Option<HubMessage>, ProtocolError>
  {
    match p
    case Plain => PlainMessage(items, f)
    case Brotli(decoder) => BrotliMessage(items, decoder, f)
  }

  function Read(p: Protocol, items: Result<Items, DecodeError>, f: Foreign): Result<Option<HubMessage>, ProtocolError>
  {
    match items
    case Err(BadValue) => Err(BadMessagePack)
    case Err(_) => Err(InvalidPayload)
    case Ok(items) => MessageOf(p, items, f)
  }

  function ParseFrame(p: Protocol, frame: Bytes, f: Foreign): Result<Option<HubMessage>, ProtocolError>
  {
    if frame == [] then Err(InvalidPayload) else Read(p, Message(frame, ArgumentsIndex(p)), f)
  }

  function AsList(m: Option<HubMessage>): seq<HubMessage>
  {
    if m.Some? then [m.value] else []
  }

  function ParseFrames(p: Protocol, frames: seq<Bytes>, f: Foreign): Result<seq<HubMessage>, ProtocolError>
  {
    if frames == [] then Ok([])
    else
      var first :- ParseFrame(p, frames[0], f);
      var rest :- ParseFrames(p, frames[1..], f);
      Ok(AsList(first) + rest)
  }

  function Messages(p: Protocol, input: Bytes, f: Foreign): Result<seq<HubMessage>, ProtocolError>
  {
    match BinaryFraming.Parsed(input)
    case Err(_) => Err(BadFraming)
    case Ok(frames) => if frames == [] then Err(InvalidPayload) else ParseFrames(p, frames, f)
  }

  function After(done: seq<HubMessage>, r: Result<seq<HubMessage>, ProtocolError>):
      Result<seq<HubMessage>, ProtocolError>
  {
    match r
    case Err(e) => Err(e)
    case Ok(rest) => Ok(done + rest)
  }

  lemma AfterStep(done: seq<HubMessage>, p: Protocol, frames: seq<Bytes>, f: Foreign)
    requires frames != []
    ensures var first := ParseFrame(p, frames[0], f);
            After(done, ParseFrames(p, frames, f))
            == if first.Err? then Err(first.error) else After(done + AsList(first.value), ParseFrames(p, frames[1..],
                f))
  {
    hide ParseFrame;
    var first, rest := ParseFrame(p, frames[0], f), ParseFrames(p, frames[1..], f);
    if first.Ok? && rest.Ok? {
      assert done + (AsList(first.value) + rest.value) == done + AsList(first.value) + rest.value;
    }
  }

  lemma AfterEnds(done: seq<HubMessage>, p: Protocol, f: Foreign)
    ensures After(done, ParseFrames(p, [], f)) == Ok(done)
    ensures forall r :: After([], r) == r
  {
    assert done + [] == done;
    forall r: Result<seq<HubMessage>, ProtocolError> ensures After([], r) == r {
      if r.Ok? {
        assert [] + r.value == r.value;
      }
    }
  }

  method ParseMessages(p: Protocol, input: Bytes, f: Foreign) returns (r: Result<seq<HubMessage>, ProtocolError>)
    ensures r == Messages(p, input, f)
  {
    hide BinaryFraming.Parsed, ParseFrames, Message, MessageOf, After;
    var frames := BinaryFraming.Parse(input);
    if frames.Err? {
      return Err(BadFraming);
    }
    if frames.value == [] {
      return Err(InvalidPayload);
    }
    var messages: seq<HubMessage> := [];
    assert frames.value[0..] == frames.value;
    AfterEnds([], p, f);
    for i := 0 to |frames.value|
      invariant ParseFrames(p, frames.value, f) == After(messages, ParseFrames(p, frames.value[i..], f))
    {
      var frame := frames.value[i];
      AfterStep(messages, p, frames.value[i..], f);
      assert frames.value[i..][1..] == frames.value[i + 1..];
      if frame == [] {
        return Err(InvalidPayload);
      }
      var items := DecodeMessage(frame, ArgumentsIndex(p));
      var message := Read(p, items, f);
      if message.Err? {
        return Err(message.error);
      }
      messages := messages + AsList(message.value);
    }
    assert frames.value[|frames.value|..] == [];
    AfterEnds(messages, p, f);
    r := Ok(messages);
  }

  // ---- what comes back from what was written ------------------------------------------------

  /** Messages as the types of their fields admit them. */
  ghost predicate GenuineMessage(m: HubMessage)
  {
    match m
    case InvocationMessage(_, _, _, FromJson(values), _) => forall i | 0 <= i < |values| :: Genuine(values[i])
    case InvocationMessage(_, _, _, FromPack(bytes), _) => ReadArrayLen(bytes).Some?
    case StreamInvocationMessage(_, _, _, values, _) => forall i | 0 <= i < |values| :: Genuine(values[i])
    case StreamItemMessage(_, _, item) => Genuine(item)
    case CompletionMessage(_, _, _, Some(result)) => Genuine(result)
    case AckMessage(id) => -0x8000_0000_0000_0000 <= id < 0x8000_0000_0000_0000
    case SequenceMessage(id) => -0x8000_0000_0000_0000 <= id < 0x8000_0000_0000_0000
    case _ => true
  }

  /** What the receiver makes of a message: the stream ids are not read back, arguments stay
      encoded, an error hides a result, a close carries nothing, and the plain protocol drops
      what only a server sends. */
  function Received(p: Protocol, m: HubMessage): Option<HubMessage>
  {
    match m
    case InvocationMessage(headers, id, target, arguments, _) =>
      Some(InvocationMessage(headers, id, target, Encoded(arguments), Some([])))
    case StreamInvocationMessage(headers, id, target, values, _) =>
      if p.Plain? then None else Some(StreamInvocationMessage(headers, id, target, values, Some([])))
    case CompletionMessage(headers, id, error, result) =>
      Some(CompletionMessage(headers, id, error, if error.Some? then None else result))
    case CancelInvocationMessage(_, _) => None
    case CloseMessage(_, _) => Some(CloseMessage(None, None))
    case _ => Some(m)
  }

  function Encoded(a: Arguments): Arguments
  {
    match ArgumentsValue(a)
    case Err(_) => a
    case Ok(v) => FromPack(Encode(v))
  }
}
