/** Parsing undoes writing, for both MessagePack hub protocols. */
module HubRoundTrip {
  import opened Basics
  import opened HubMessage
  import opened MessagePack
  import opened LazyDecode
  import opened MessageDecode
  import opened ValueConversion
  import opened PlainCodec
  import opened BrotliCodec
  import opened HubProtocol
  import BinaryFraming

  lemma TypeOfWritten(vs: seq<Value>, n: int)
    requires vs != [] && vs[0] == Integer(n) && 1 <= n <= 9
    ensures TypeOf(vs) == Ok(FromI32(n))
  {
  }

  lemma HeadersComeBack(vs: seq<Value>, headers: Headers, order: seq<Text>)
    requires Enumerates(order, headers) && |vs| >= 2 && vs[1] == HeadersValue(headers, order)
    ensures CreateMessageHeaders(vs) == Ok(headers)
  {
    hide IsUtf8;
    if headers == map[] {
      assert HeadersFrom([], map[]) == Ok(map[]);
    } else {
      HeadersSurvive(headers, order);
    }
  }

  lemma TextComesBack(text: Text)
    ensures ValueToString(String(text)) == Ok(text)
    ensures OptionalString(String(text)) == Ok(Some(text)) && AsStr(String(text)) == Some(text)
  {
    hide IsUtf8;
  }

  lemma OptionComesBack(text: Option<Text>)
    ensures OptionalString(OptionalStringValue(text)) == Ok(text)
  {
    hide IsUtf8;
  }

  // ---- the elements of a written message ----------------------------------------------------

  lemma {:induction false} StringValuesWellFormed(texts: seq<Text>)
    ensures forall v | v in StringValues(texts) :: WellFormed(v)
  {
    if texts != [] {
      StringValuesWellFormed(texts[1..]);
    }
  }

  /** Arguments are one array that can be encoded. */
  lemma ArgumentsWellFormed(m: HubMessage)
    requires m.InvocationMessage? && GenuineMessage(m) && ArgumentsValue(m.arguments).Ok?
    ensures ArgumentsValue(m.arguments).value.Array? && WellFormed(ArgumentsValue(m.arguments).value)
  {
    hide Decode, ReadArrayLen, WellFormed, DecodeAll, Genuine;
    match m.arguments
    case FromJson(values) => ArrayWellFormed(values);
    case FromPack(bytes) =>
      DecodedIsWellFormed(bytes);
      ArrayElements(bytes);
      ArrayMarker(bytes);
  }

  lemma ArrayWellFormed(values: seq<Json>)
    requires forall i | 0 <= i < |values| :: Genuine(values[i])
    ensures WellFormed(Array(JsonToValues(values)))
  {
    JsonsWellFormed(values);
  }

  lemma ArrayMarker(bytes: Bytes)
    requires ReadArrayLen(bytes).Some? && Decode(bytes).Got?
    ensures Decode(bytes).value.Array?
  {
    hide FromBigEndian, Decode, DecodeAll, MarkerOf;
    DecodeBranch(bytes);
  }

  lemma HeadersWellFormed(headers: Headers, order: seq<Text>)
    requires Enumerates(order, headers)
    ensures WellFormed(HeadersValue(headers, order))
  {
    HeaderEntriesWellFormed(headers, order);
  }

  /** The parts of a message array can all be encoded. */
  ghost predicate AllWellFormed(vs: seq<Value>)
  {
    forall k | 0 <= k < |vs| :: WellFormed(vs[k])
  }

  lemma StreamIdsWellFormed(ids: Option<seq<Text>>)
    ensures AllWellFormed(StreamIds(ids))
  {
    if ids.Some? {
      StringValuesWellFormed(ids.value);
    }
  }

  lemma PlainValuesWellFormed(m: HubMessage, order: seq<Text>)
    requires Enumerates(order, HeadersOf(m)) && GenuineMessage(m) && PlainValues(m, order).Ok?
    ensures AllWellFormed(PlainValues(m, order).value)
  {
    hide HeadersValue, Genuine, JsonToValue, JsonToValues, Enumerates, HeaderEntries, ArgumentsValue, StreamIds;
    HeadersWellFormed(HeadersOf(m), order);
    match m
    case InvocationMessage(_, _, _, _, ids) =>
      ArgumentsWellFormed(m);
      StreamIdsWellFormed(ids);
    case StreamInvocationMessage(_, _, _, values, ids) =>
      ArrayWellFormed(values);
      StreamIdsWellFormed(ids);
    case StreamItemMessage(_, _, item) => JsonWellFormed(item);
    case CompletionMessage(_, _, _, result) => if result.Some? { JsonWellFormed(result.value); }
    case _ =>
  }

  lemma BrotliValuesWellFormed(m: HubMessage, order: seq<Text>)
    requires Enumerates(order, HeadersOf(m)) && GenuineMessage(m) && BrotliValues(m, order).Ok?
    requires m.InvocationMessage? || m.StreamInvocationMessage? || m.StreamItemMessage? || m.CompletionMessage?
    ensures AllWellFormed(BrotliValues(m, order).value)
  {
    hide HeadersValue, Genuine, JsonToValue, JsonToValues, Enumerates, HeaderEntries, ArgumentsValue, StreamIds;
    HeadersWellFormed(HeadersOf(m), order);
    match m
    case InvocationMessage(_, _, _, _, ids) =>
      ArgumentsWellFormed(m);
      StreamIdsWellFormed(ids);
    case StreamInvocationMessage(_, _, _, values, ids) =>
      ArrayWellFormed(values);
      StreamIdsWellFormed(ids);
    case StreamItemMessage(_, _, item) => JsonWellFormed(item);
    case CompletionMessage(_, _, _, result) => if result.Some? { JsonWellFormed(result.value); }
    case _ =>
  }

  lemma ValuesWellFormed(p: Protocol, m: HubMessage, order: seq<Text>)
    requires Enumerates(order, HeadersOf(m)) && GenuineMessage(m) && Values(p, m, order).Ok?
    ensures AllWellFormed(Values(p, m, order).value)
  {
    hide PlainValues, Enumerates, GenuineMessage, AllWellFormed;
    if p.Brotli?
        && (m.InvocationMessage? || m.StreamInvocationMessage? || m.StreamItemMessage? || m.CompletionMessage?) {
      BrotliValuesWellFormed(m, order);
    } else {
      PlainValuesWellFormed(m, order);
    }
  }

  // ---- one message --------------------------------------------------------------------------

  /** Arguments nested beyond what the receiver reads. */
  predicate TooNested(m: HubMessage)
  {
    m.InvocationMessage? && ArgumentsValue(m.arguments).Ok? && Depth(ArgumentsValue(m.arguments).value) > MAX_DEPTH
  }

  lemma EncodedArrayHasLength(items: seq<Value>)
    requires WellFormed(Array(items)) && |Encode(Array(items))| < 0x1_0000_0000
    ensures ReadArrayLen(Encode(Array(items))).Some?
  {
    hide ReadArrayLen;
    EncodeAllLong(items);
    ReadWrittenArrayLen(|items|, EncodeAll(items));
  }

  lemma PlainInvocationComesBack(m: HubMessage, order: seq<Text>, f: Foreign)
    requires m.InvocationMessage? && Enumerates(order, m.headers) && GenuineMessage(m)
    requires PlainValues(m, order).Ok? && |Encode(ArgumentsValue(m.arguments).value)| < 0x1_0000_0000
    ensures var vs := PlainValues(m, order).value;
            PlainMessage(Items(vs[4 := Nil], Some(Encode(vs[4]))), f) == Ok(Received(Plain, m))
  {
    hide IsUtf8, Encode, ReadArrayLen, Enumerates, HeadersValue, WellFormed, Decode, ValueToString, OptionalString,
        HeadersFrom, ArgumentsValue;
    var vs := PlainValues(m, order).value;
    var value := ArgumentsValue(m.arguments).value;
    ArgumentsWellFormed(m);
    EncodedArrayHasLength(value.items);
    var data := vs[4 := Nil];
    TypeOfWritten(data, 1);
    HeadersComeBack(data, m.headers, order);
    TextComesBack(m.target);
    OptionComesBack(m.invocationId);
    assert CreateInvocation(data, Some(Encode(value))) == Ok(Received(Plain, m).value);
  }

  lemma BrotliInvocationComesBack(p: Protocol, m: HubMessage, order: seq<Text>, f: Foreign)
    requires p.Brotli? && m.InvocationMessage? && Enumerates(order, m.headers) && GenuineMessage(m)
    requires BrotliValues(m, order).Ok? && |Encode(ArgumentsValue(m.arguments).value)| < 0x1_0000_0000
    ensures var vs := BrotliValues(m, order).value;
            BrotliMessage(Items(vs[5 := Nil], Some(Encode(vs[5]))), p.decoder, f) == Ok(Received(p, m))
  {
    hide IsUtf8, Encode, ReadArrayLen, Enumerates, HeadersValue, WellFormed, Decode, ValueToString, OptionalString,
        HeadersFrom, ArgumentsValue;
    var vs := BrotliValues(m, order).value;
    var value := ArgumentsValue(m.arguments).value;
    ArgumentsWellFormed(m);
    EncodedArrayHasLength(value.items);
    var data := vs[5 := Nil];
    TypeOfWritten(data, 1);
    HeadersComeBack(data, m.headers, order);
    TextComesBack(m.target);
    OptionComesBack(m.invocationId);
    assert CreateInvocationBrotli(data, Some(Encode(value)), p.decoder) == Ok(Received(p, m).value);
  }

  lemma PlainOtherComesBack(m: HubMessage, order: seq<Text>, f: Foreign)
    requires !m.InvocationMessage? && Enumerates(order, HeadersOf(m)) && GenuineMessage(m)
    ensures PlainMessage(Items(PlainValues(m, order).value, None), f) == Ok(Received(Plain, m))
  {
    hide IsUtf8, Enumerates, HeadersValue, ValueToString, OptionalString, HeadersFrom, TypeOf, JsonToValue, ToJson;
    var vs := PlainValues(m, order).value;
    TypeOfWritten(vs, vs[0].n);
    HeadersComeBackFrom(vs, m, order);
    match m
    case StreamItemMessage(_, id, item) =>
      OptionComesBack(id);
      JsonSurvives(item, f);
      assert CreateStreamItem(vs, f) == Ok(m);
    case CompletionMessage(_, id, error, result) =>
      TextComesBack(id);
      if error.Some? {
        TextComesBack(error.value);
      } else if result.Some? {
        JsonSurvives(result.value, f);
      }
      assert CreateCompletion(vs, f) == Ok(Received(Plain, m).value);
    case CloseMessage(_, _) => OptionComesBack(None);
    case _ =>
  }

  lemma HeadersComeBackFrom(vs: seq<Value>, m: HubMessage, order: seq<Text>)
    requires Enumerates(order, HeadersOf(m))
    ensures |vs| >= 2 && vs[1] == HeadersValue(HeadersOf(m), order) ==> CreateMessageHeaders(vs) == Ok(HeadersOf(m))
  {
    if |vs| >= 2 && vs[1] == HeadersValue(HeadersOf(m), order) {
      HeadersComeBack(vs, HeadersOf(m), order);
    }
  }

  lemma BrotliStreamItemComesBack(p: Protocol, m: HubMessage, order: seq<Text>, f: Foreign)
    requires p.Brotli? && m.StreamItemMessage? && Enumerates(order, m.headers) && GenuineMessage(m)
    ensures CreateStreamItemBrotli(BrotliValues(m, order).value, p.decoder, f) == Ok(m)
  {
    hide IsUtf8, Enumerates, HeadersValue, OptionalString, HeadersFrom, JsonToValue, ToJson;
    HeadersComeBack(BrotliValues(m, order).value, m.headers, order);
    OptionComesBack(m.invocationId);
    JsonSurvives(m.item, f);
  }

  lemma BrotliStreamInvocationComesBack(p: Protocol, m: HubMessage, order: seq<Text>, f: Foreign)
    requires p.Brotli? && m.StreamInvocationMessage? && Enumerates(order, m.headers) && GenuineMessage(m)
    ensures CreateStreamInvocationBrotli(BrotliValues(m, order).value, p.decoder, f) == Ok(Received(p, m).value)
  {
    hide IsUtf8, Enumerates, HeadersValue, ValueToString, HeadersFrom, JsonToValues, ValuesToJson, StreamIds;
    HeadersComeBack(BrotliValues(m, order).value, m.headers, order);
    TextComesBack(m.id);
    TextComesBack(m.target);
    ValuesSurvive(m.values, f);
  }

  lemma BrotliCompletionComesBack(p: Protocol, m: HubMessage, order: seq<Text>, f: Foreign)
    requires p.Brotli? && m.CompletionMessage? && Enumerates(order, m.headers) && GenuineMessage(m)
    ensures CreateCompletionBrotli(BrotliValues(m, order).value, p.decoder, f) == Ok(Received(p, m).value)
  {
    hide IsUtf8, Enumerates, HeadersValue, ValueToString, HeadersFrom, JsonToValue, ToJson, AsStr;
    HeadersComeBack(BrotliValues(m, order).value, m.headers, order);
    TextComesBack(m.id);
    if m.error.Some? {
      TextComesBack(m.error.value);
    } else if m.result.Some? {
      JsonSurvives(m.result.value, f);
    }
  }

  lemma BrotliOtherComesBack(p: Protocol, m: HubMessage, order: seq<Text>, f: Foreign)
    requires p.Brotli? && !m.InvocationMessage? && Enumerates(order, HeadersOf(m)) && GenuineMessage(m)
    ensures BrotliMessage(Items(BrotliValues(m, order).value, None), p.decoder, f) == Ok(Received(p, m))
  {
    var vs := BrotliValues(m, order).value;
    TypeOfWritten(vs, vs[0].n);
    hide Enumerates, GenuineMessage, HeadersValue, TypeOf, CreateStreamItemBrotli, CreateStreamInvocationBrotli,
      CreateCompletionBrotli, PlainMessage;
    match m
    case StreamItemMessage(_, _, _) => BrotliStreamItemComesBack(p, m, order, f);
    case StreamInvocationMessage(_, _, _, _, _) => BrotliStreamInvocationComesBack(p, m, order, f);
    case CompletionMessage(_, _, _, _) => BrotliCompletionComesBack(p, m, order, f);
    case _ => SameMessage(p, m, order, f);
  }

  /** Messages without a payload are the same in both protocols. */
  lemma SameMessage(p: Protocol, m: HubMessage, order: seq<Text>, f: Foreign)
    requires p.Brotli? && Enumerates(order, HeadersOf(m)) && GenuineMessage(m)
    requires m.CancelInvocationMessage? || m.PingMessage? || m.CloseMessage? || m.AckMessage? || m.SequenceMessage?
    ensures BrotliMessage(Items(BrotliValues(m, order).value, None), p.decoder, f) == Ok(Received(p, m))
  {
    var vs := PlainValues(m, order).value;
    TypeOfWritten(vs, vs[0].n);
    PlainOtherComesBack(m, order, f);
    hide Enumerates, HeadersValue, TypeOf, CreateClose, CreateAck, CreateSequence;
  }

  lemma EncodedElementShorter(vs: seq<Value>, i: nat)
    requires i < |vs|
    ensures |Encode(vs[i])| <= |EncodeAll(vs)| <= |Encode(Array(vs))|
  {
    ElementShorter(vs, i);
  }

  lemma {:induction false} ElementShorter(vs: seq<Value>, i: nat)
    requires i < |vs|
    ensures |Encode(vs[i])| <= |EncodeAll(vs)|
  {
    if i > 0 {
      ElementShorter(vs[1..], i - 1);
    }
  }

  /** A message the writer accepts and the framing carries. */
  ghost predicate Carried(p: Protocol, m: HubMessage, order: seq<Text>)
  {
    && Enumerates(order, HeadersOf(m)) && GenuineMessage(m)
    && Values(p, m, order).Ok? && |Encode(Array(Values(p, m, order).value))| < BinaryFraming.SIZE_LIMIT
  }

  /** The payload of the frame of a written message. */
  ghost function Payload(p: Protocol, m: HubMessage, order: seq<Text>): Bytes
    requires Carried(p, m, order)
  {
    Encode(Array(Values(p, m, order).value))
  }

  /** Only an invocation keeps an element encoded: its arguments. */
  lemma WrittenKeepsRaw(p: Protocol, m: HubMessage, order: seq<Text>)
    requires Enumerates(order, HeadersOf(m)) && Values(p, m, order).Ok?
    ensures var vs := Values(p, m, order).value;
            KeepsRaw(vs, ArgumentsIndex(p)) == m.InvocationMessage?
            && (m.InvocationMessage? ==> ArgumentsValue(m.arguments) == Ok(vs[ArgumentsIndex(p)]))
  {
    hide Enumerates, HeadersValue, JsonToValue, ArgumentsValue, JsonToValues;
  }

  lemma PayloadNotEmpty(vs: seq<Value>)
    ensures |Encode(Array(vs))| >= 1
  {
  }

  /** The frame of a written message parses to what the receiver is meant to see, except that
      arguments nested too deeply are refused. */
  lemma FrameComesBack(p: Protocol, m: HubMessage, order: seq<Text>, f: Foreign)
    requires Carried(p, m, order)
    ensures ParseFrame(p, Payload(p, m, order), f)
            == if TooNested(m) then Err(InvalidPayload) else Ok(Received(p, m))
  {
    hide Enumerates, GenuineMessage, Encode, Message, KeepsRaw, PlainMessage, BrotliMessage, Received, Depth,
        ArgumentsValue, PlainValues, BrotliValues;
    var vs, index := Values(p, m, order).value, ArgumentsIndex(p);
    PayloadNotEmpty(vs);
    ValuesWellFormed(p, m, order);
    DecodeWritten(vs, index);
    WrittenKeepsRaw(p, m, order);
    if m.InvocationMessage? {
      RawIndex(vs, index);
      EncodedElementShorter(vs, index);
      InvocationComesBack(p, m, order, f);
    } else if p.Plain? {
      PlainOtherComesBack(m, order, f);
    } else {
      BrotliOtherComesBack(p, m, order, f);
    }
  }

  lemma InvocationComesBack(p: Protocol, m: HubMessage, order: seq<Text>, f: Foreign)
    requires m.InvocationMessage? && Enumerates(order, m.headers) && GenuineMessage(m) && Values(p, m, order).Ok?
    requires var vs := Values(p, m, order).value;
             ArgumentsIndex(p) < |vs| && |Encode(vs[ArgumentsIndex(p)])| < 0x1_0000_0000
    ensures var vs, index := Values(p, m, order).value, ArgumentsIndex(p);
            MessageOf(p, Items(vs[index := Nil], Some(Encode(vs[index]))), f) == Ok(Received(p, m))
  {
    hide Enumerates, GenuineMessage, Encode, PlainMessage, BrotliMessage, Received;
    WrittenKeepsRaw(p, m, order);
    if p.Plain? {
      PlainInvocationComesBack(m, order, f);
    } else {
      BrotliInvocationComesBack(p, m, order, f);
    }
  }

  // ---- a stream of messages -----------------------------------------------------------------

  /** A message and the order its headers are written in. */
  datatype Sent = Sent(message: HubMessage, order: seq<Text>)

  ghost function Payloads(p: Protocol, sent: seq<Sent>): seq<Bytes>
    requires forall s | s in sent :: Carried(p, s.message, s.order)
  {
    if sent == [] then []
    else [Payload(p, sent[0].message, sent[0].order)] + Payloads(p, sent[1..])
  }

  function AllReceived(p: Protocol, sent: seq<Sent>): seq<HubMessage>
  {
    if sent == [] then [] else AsList(Received(p, sent[0].message)) + AllReceived(p, sent[1..])
  }

  /** Some message of a stream is nested beyond what the receiver reads. */
  predicate AnyTooNested(sent: seq<Sent>)
  {
    exists i :: 0 <= i < |sent| && TooNested(sent[i].message)
  }

  /** What a whole stream of frames parses to. */
  function StreamOutcome(p: Protocol, sent: seq<Sent>): Result<seq<HubMessage>, ProtocolError>
  {
    if AnyTooNested(sent) then Err(InvalidPayload) else Ok(AllReceived(p, sent))
  }

  lemma AnyTooNestedFirst(sent: seq<Sent>)
    requires sent != []
    ensures AnyTooNested(sent) <==> TooNested(sent[0].message) || AnyTooNested(sent[1..])
  {
    hide TooNested;
    if AnyTooNested(sent[1..]) {
      var i :| 0 <= i < |sent[1..]| && TooNested(sent[1..][i].message);
      assert TooNested(sent[i + 1].message);
    }
    if AnyTooNested(sent) {
      var i :| 0 <= i < |sent| && TooNested(sent[i].message);
      if i > 0 {
        assert TooNested(sent[1..][i - 1].message);
      }
    }
  }

  lemma {:induction false} FramesComeBack(p: Protocol, sent: seq<Sent>, f: Foreign)
    requires forall s | s in sent :: Carried(p, s.message, s.order)
    ensures ParseFrames(p, Payloads(p, sent), f) == StreamOutcome(p, sent)
    ensures BinaryFraming.Receivable(Payloads(p, sent)) && |Payloads(p, sent)| == |sent|
  {
    hide ParseFrame, Received, Carried, Payload, TooNested, AnyTooNested;
    if sent == [] {
      NoneTooNested();
    } else {
      var s := sent[0];
      AnyTooNestedFirst(sent);
      FrameComesBack(p, s.message, s.order, f);
      PayloadFits(p, s.message, s.order);
      FramesComeBack(p, sent[1..], f);
      var payloads := Payloads(p, sent);
      assert payloads[0] == Payload(p, s.message, s.order) && payloads[1..] == Payloads(p, sent[1..]);
    }
  }

  lemma NoneTooNested()
    ensures !AnyTooNested([])
  {
  }

  lemma PayloadFits(p: Protocol, m: HubMessage, order: seq<Text>)
    requires Carried(p, m, order)
    ensures |Payload(p, m, order)| < BinaryFraming.SIZE_LIMIT
  {
  }

  /** Parsing a stream of written messages gives back exactly those messages, in order; but a single
      message that is nested too deeply loses the whole stream it shares a transport frame with,
      and an empty stream is refused. */
  lemma StreamComesBack(p: Protocol, sent: seq<Sent>, f: Foreign)
    requires forall s | s in sent :: Carried(p, s.message, s.order)
    ensures Messages(p, Concat(BinaryFraming.Frames(Payloads(p, sent))), f)
            == if sent == [] then Err(InvalidPayload) else StreamOutcome(p, sent)
  {
    hide ParseFrames, Carried, StreamOutcome;
    FramesComeBack(p, sent, f);
    BinaryFraming.RoundTrip(Payloads(p, sent));
  }

  /** One written message on its own: its bytes parse to what the receiver is meant to see if
      and only if its arguments are not nested too deeply; otherwise the input is refused. */
  lemma MessageComesBack(p: Protocol, m: HubMessage, order: seq<Text>, f: Foreign)
    requires Carried(p, m, order)
    ensures Messages(p, BinaryFraming.Frame(Payload(p, m, order)), f)
            == if TooNested(m) then Err(InvalidPayload) else Ok(AsList(Received(p, m)))
  {
    hide ParseFrame, Carried, TooNested, Payload, BinaryFraming.Frame;
    var payload := Payload(p, m, order);
    PayloadFits(p, m, order);
    FrameComesBack(p, m, order, f);
    BinaryFraming.RoundTrip([payload]);
    assert Concat(BinaryFraming.Frames([payload])) == BinaryFraming.Frame(payload) by { SingleFrame(payload); }
    var none: seq<Bytes> := [payload][1..];
    assert none == [];
    assert ParseFrames(p, none, f) == Ok([]);
    assert AsList(Received(p, m)) + [] == AsList(Received(p, m));
  }

  lemma SingleFrame(payload: Bytes)
    ensures Concat(BinaryFraming.Frames([payload])) == BinaryFraming.Frame(payload)
  {
    var one := [payload];
    var none: seq<Bytes> := one[1..];
    assert none == [];
    BinaryFraming.FirstFrame(one);
    BinaryFraming.FirstFrame(none);
    hide BinaryFraming.Frame, BinaryFraming.Frames, Concat;
    assert BinaryFraming.Frame(payload) + [] == BinaryFraming.Frame(payload);
  }

  // ---- what "comes back" means for each kind ------------------------------------------------

  /** Exactly which messages parse back as they were written. */
  lemma ReceivedUnchanged(p: Protocol, m: HubMessage, order: seq<Text>, f: Foreign)
    requires Carried(p, m, order)
    ensures var r := Messages(p, BinaryFraming.Frame(Payload(p, m, order)), f);
            && (m.StreamItemMessage? || m.PingMessage? || m.AckMessage? || m.SequenceMessage? ==> r == Ok([m]))
            && (m.CompletionMessage? ==> (r == Ok([m]) <==> !(m.error.Some? && m.result.Some?)))
            && (m.CloseMessage? ==> (r == Ok([m]) <==> m == CloseMessage(None, None)))
            && (m.CancelInvocationMessage? ==> r == Ok([]))
            && (m.StreamInvocationMessage? ==>
                  r == Ok(if p.Plain? then []
                          else [StreamInvocationMessage(m.headers, m.id, m.target, m.values, Some([]))]))
  {
    MessageComesBack(p, m, order, f);
    hide Messages, Carried, Payload, BinaryFraming.Frame;
  }

  /** An invocation parses back if and only if its arguments are within the nesting limit, with the
      same id, target and headers, no stream ids, and arguments that are the same MessagePack value
      and equal as JSON values. */
  lemma InvocationUnchanged(p: Protocol, m: HubMessage, order: seq<Text>, f: Foreign)
    requires Carried(p, m, order) && m.InvocationMessage?
    ensures var r := Messages(p, BinaryFraming.Frame(Payload(p, m, order)), f);
            if TooNested(m) then r == Err(InvalidPayload)
            else && r.Ok? && |r.value| == 1 && r.value[0].InvocationMessage?
                 && r.value[0]
                    == InvocationMessage(m.headers, m.invocationId, m.target, r.value[0].arguments, Some([]))
                 && ArgumentsValue(r.value[0].arguments) == ArgumentsValue(m.arguments)
                 && ArgumentsJson(r.value[0].arguments, f) == ArgumentsJson(m.arguments, f)
  {
    MessageComesBack(p, m, order, f);
    WrittenKeepsRaw(p, m, order);
    var vs, i := Values(p, m, order).value, ArgumentsIndex(p);
    RawIndex(vs, i);
    EncodedElementShorter(vs, i);
    hide Messages, BinaryFraming.Frame, Encode, TooNested, ArgumentsValue, ArgumentsJson, KeepsRaw, PlainValues,
      BrotliValues, GenuineMessage;
    ArgumentsComeBack(m, f);
  }

  /** The arguments an invocation is received with are the arguments it was sent with: the same
      MessagePack value, and equal as JSON values. */
  lemma ArgumentsComeBack(m: HubMessage, f: Foreign)
    requires m.InvocationMessage? && GenuineMessage(m) && ArgumentsValue(m.arguments).Ok?
    requires |Encode(ArgumentsValue(m.arguments).value)| < 0x1_0000_0000
    ensures ArgumentsValue(Encoded(m.arguments)) == ArgumentsValue(m.arguments)
    ensures ArgumentsJson(m.arguments, f).Ok?
    ensures ArgumentsJson(Encoded(m.arguments), f) == ArgumentsJson(m.arguments, f)
  {
    hide Decode, Encode, ReadArrayLen, WellFormed, JsonToValues, ValuesToJson;
    var v := ArgumentsValue(m.arguments).value;
    ArgumentsWellFormed(m);
    DecodeEncoded(v, []);
    assert Encode(v) + [] == Encode(v);
    if m.arguments.FromJson? {
      ValuesSurvive(m.arguments.values, f);
    }
  }
}
