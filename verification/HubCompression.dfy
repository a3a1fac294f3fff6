/**
 Compression is invisible: for any decompressor, a `messagepack+brotli` frame with a compressed
 payload parses to the same message as the frame with the payload itself.
 */
module HubCompression {
  import opened Basics
  import opened HubMessage
  import opened MessagePack
  import opened LazyDecode
  import opened MessageDecode
  import opened ValueConversion
  import opened PlainCodec
  import opened BrotliCodec
  import opened HubProtocol
  import opened HubRoundTrip
  import BinaryFraming

  /** Where the compression flag of a message is; its payload comes next. */
  function FlagIndex(t: MessageType): nat
  {
    if t.StreamItem? then 3 else 4
  }

  predicate HasPayload(t: MessageType)
  {
    t.Invocation? || t.StreamInvocation? || t.StreamItem? || t.Completion?
  }

  /** The elements of an uncompressed message that has a payload. */
  predicate Uncompressed(vs: seq<Value>, t: MessageType)
  {
    && TypeOf(vs) == Ok(Some(t)) && HasPayload(t)
    && |vs| > FlagIndex(t) + 1 && AsI64(vs[FlagIndex(t)]) != Some(1)
  }

  /** The same message with `packed` for its payload and the flag set. */
  function Compressed(vs: seq<Value>, t: MessageType, packed: Value): seq<Value>
    requires |vs| > FlagIndex(t) + 1
  {
    vs[FlagIndex(t) := Integer(1)][FlagIndex(t) + 1 := packed]
  }

  /** `packed` holds bytes that decompress to the encoding of `payload`. */
  ghost predicate Unpacks(packed: Value, payload: Value, decoder: Decoder)
  {
    BytesOf(packed).Some? && decoder(BytesOf(packed).value) == Ok(Encode(payload))
  }

  lemma {:induction false} ListedBytesAreFlat(items: seq<Value>)
    requires ListedBytes(items).Some?
    ensures Deepest(items) == 0
  {
    if items != [] {
      ListedBytesAreFlat(items[1..]);
    }
  }

  lemma PackedIsFlat(packed: Value)
    requires BytesOf(packed).Some?
    ensures Depth(packed) <= 1
  {
    if packed.Array? {
      ListedBytesAreFlat(packed.items);
    }
  }

  lemma UnpackEqual(data: seq<Value>, i: nat, packed: Value, decoder: Decoder)
    requires i < |data| && Unpacks(packed, data[i], decoder)
    requires WellFormed(data[i]) && |Encode(data[i])| < 0x1_0000_0000
    ensures UnpackData(data[i := packed], i, true, decoder) == UnpackData(data, i, false, decoder)
  {
    hide Decode, Encode, BytesOf, WellFormed;
    DecodeEncoded(data[i], []);
    assert Encode(data[i]) + [] == Encode(data[i]);
  }

  /** The parts of a message before its payload are read the same way. */
  lemma SameFields(vs: seq<Value>, us: seq<Value>)
    requires |vs| == |us| >= 4 && vs[1] == us[1]
    ensures CreateMessageHeaders(vs) == CreateMessageHeaders(us)
  {
  }

  lemma CompressedMessage(vs: seq<Value>, t: MessageType, packed: Value, decoder: Decoder, f: Foreign)
    requires Uncompressed(vs, t) && Unpacks(packed, vs[FlagIndex(t) + 1], decoder)
    requires WellFormed(vs[FlagIndex(t) + 1]) && |Encode(vs[FlagIndex(t) + 1])| < 0x1_0000_0000
    requires !KeepsRaw(vs, 5)
    ensures BrotliMessage(Items(Compressed(vs, t, packed), None), decoder, f)
              == BrotliMessage(Items(vs, None), decoder, f)
  {
    hide Decode, Encode, BytesOf, WellFormed, UnpackData, CreateMessageHeaders, KeepsRaw, ValueToString,
        OptionalString, ValueToJson, ValueToJsonArray, AsStr;
    var i := FlagIndex(t);
    var us, flagged := Compressed(vs, t, packed), vs[i := Integer(1)];
    assert us == flagged[i + 1 := packed];
    UnpackEqual(flagged, i + 1, packed, decoder);
    UnpackPlain(flagged, vs, i + 1, decoder);
    SameFields(vs, us);
    assert TypeOf(us) == TypeOf(vs);
    assert IsCompressed(us, i) && !IsCompressed(vs, i);
    hide TypeOf;
    match t
    case Completion => assert CreateCompletionBrotli(us, decoder, f) == CreateCompletionBrotli(vs, decoder, f);
    case StreamItem => assert CreateStreamItemBrotli(us, decoder, f) == CreateStreamItemBrotli(vs, decoder, f);
    case StreamInvocation =>
      assert CreateStreamInvocationBrotli(us, decoder, f) == CreateStreamInvocationBrotli(vs, decoder, f);
    case Invocation => assert CreateInvocationBrotli(us, None, decoder) == CreateInvocationBrotli(vs, None, decoder);
  }

  lemma UnpackPlain(data: seq<Value>, other: seq<Value>, i: nat, decoder: Decoder)
    requires i < |data| && i < |other| && data[i] == other[i]
    ensures UnpackData(data, i, false, decoder) == UnpackData(other, i, false, decoder)
  {
  }

  lemma CompressedArguments(vs: seq<Value>, packed: Value, decoder: Decoder, f: Foreign)
    requires Uncompressed(vs, Invocation) && Unpacks(packed, vs[5], decoder)
    requires WellFormed(packed) && |Encode(packed)| < 0x1_0000_0000
    ensures BrotliMessage(Items(Compressed(vs, Invocation, packed)[5 := Nil], Some(Encode(packed))), decoder, f)
            == BrotliMessage(Items(vs[5 := Nil], Some(Encode(vs[5]))), decoder, f)
  {
    hide Decode, Encode, BytesOf, WellFormed, CreateMessageHeaders, ValueToString, OptionalString, FromMessagePack;
    DecodeEncoded(packed, []);
    assert Encode(packed) + [] == Encode(packed);
    var us, data := Compressed(vs, Invocation, packed)[5 := Nil], vs[5 := Nil];
    SameFields(data, us);
    assert TypeOf(us) == TypeOf(data) == TypeOf(vs);
    assert UnpackArguments(Some(Encode(packed)), true, decoder) == UnpackArguments(Some(Encode(vs[5])), false, decoder);
    assert CreateInvocationBrotli(us, Some(Encode(packed)), decoder)
        == CreateInvocationBrotli(data, Some(Encode(vs[5])), decoder);
  }

  /** What a receiver without a nesting limit reads from the elements. */
  function Unlimited(vs: seq<Value>): Items
  {
    if KeepsRaw(vs, 5) then Items(vs[5 := Nil], Some(Encode(vs[5]))) else Items(vs, None)
  }

  ghost predicate Fits(vs: seq<Value>)
  {
    && (forall k | 0 <= k < |vs| :: WellFormed(vs[k]))
    && |Encode(Array(vs))| < BinaryFraming.SIZE_LIMIT
  }

  lemma ParseElements(p: Protocol, vs: seq<Value>, f: Foreign)
    requires p.Brotli? && Fits(vs)
    ensures ParseFrame(p, Encode(Array(vs)), f)
            == if KeepsRaw(vs, 5) && Depth(vs[5]) > MAX_DEPTH then Err(InvalidPayload)
               else BrotliMessage(Unlimited(vs), p.decoder, f)
  {
    hide BrotliMessage, Encode, Message, KeepsRaw, Depth;
    PayloadNotEmpty(vs);
    DecodeWritten(vs, 5);
    if KeepsRaw(vs, 5) {
      RawIndex(vs, 5);
    }
  }

  lemma CompressedUnlimited(vs: seq<Value>, t: MessageType, packed: Value, decoder: Decoder, f: Foreign)
    requires Uncompressed(vs, t) && Unpacks(packed, vs[FlagIndex(t) + 1], decoder)
    requires Fits(vs) && Fits(Compressed(vs, t, packed))
    ensures BrotliMessage(Unlimited(Compressed(vs, t, packed)), decoder, f) == BrotliMessage(Unlimited(vs), decoder, f)
  {
    hide BrotliMessage, Encode, WellFormed, Unpacks;
    var i := FlagIndex(t);
    var us := Compressed(vs, t, packed);
    assert us[i + 1] == packed;
    EncodedElementShorter(vs, i + 1);
    EncodedElementShorter(us, i + 1);
    if KeepsRaw(vs, 5) {
      assert t == Invocation;
      CompressedArguments(vs, packed, decoder, f);
    } else {
      assert !KeepsRaw(us, 5);
      CompressedMessage(vs, t, packed, decoder, f);
    }
  }

  /** For every message with a payload and every decompressor that maps the packed bytes, be they binary
      data or a list of integers, to the payload's encoding: the compressed frame parses to the same
      result as the uncompressed one, except that only the uncompressed one is refused for
      deeply nested arguments. */
  lemma CompressionIsInvisible(p: Protocol, vs: seq<Value>, t: MessageType, packed: Value, bytes: Bytes, f: Foreign)
    requires p.Brotli? && Uncompressed(vs, t)
    requires Holds(packed, bytes) && p.decoder(bytes) == Ok(Encode(vs[FlagIndex(t) + 1]))
    requires Fits(vs) && Fits(Compressed(vs, t, packed))
    ensures var plain := ParseFrame(p, Encode(Array(vs)), f);
            var compressed := ParseFrame(p, Encode(Array(Compressed(vs, t, packed))), f);
            if KeepsRaw(vs, 5) && Depth(vs[5]) > MAX_DEPTH
            then plain == Err(InvalidPayload) && compressed == BrotliMessage(Unlimited(vs), p.decoder, f)
            else compressed == plain
  {
    hide BrotliMessage, Encode, Unlimited, Fits, ParseFrame, BytesOf, Holds;
    var us := Compressed(vs, t, packed);
    BytesHeld(packed, bytes);
    ParseElements(p, vs, f);
    ParseElements(p, us, f);
    CompressedUnlimited(vs, t, packed, p.decoder, f);
    PackedIsFlat(packed);
    assert KeepsRaw(us, 5) == KeepsRaw(vs, 5);
    if KeepsRaw(us, 5) {
      assert t == Invocation && us[5] == packed;
    }
  }

  // ---- payloads that cannot be unpacked -----------------------------------------------------

  /** The value holds no bytes. */
  ghost predicate HoldsNone(v: Value)
  {
    forall bytes :: !Holds(v, bytes)
  }

  lemma UnpackDamaged(data: seq<Value>, i: nat, decoder: Decoder)
    requires i < |data|
    ensures HoldsNone(data[i]) ==> UnpackData(data, i, true, decoder) == Ok(None)
    ensures forall bytes | Holds(data[i], bytes) && decoder(bytes).Err? ::
              UnpackData(data, i, true, decoder) == Err(decoder(bytes).error)
    ensures forall bytes | Holds(data[i], bytes) && decoder(bytes).Ok? && Decode(decoder(bytes).value).Failed? ::
              UnpackData(data, i, true, decoder) == Err(BadMessagePack)
  {
    hide Decode, BytesOf, Holds;
    if BytesOf(data[i]).Some? {
      BytesHeld(data[i], BytesOf(data[i]).value);
    }
    forall bytes | Holds(data[i], bytes) ensures BytesOf(data[i]) == Some(bytes) {
      BytesHeld(data[i], bytes);
    }
  }

  /** Why a decompressor's answer is of no use. */
  function Damage(decoded: Result<Bytes, ProtocolError>): Option<ProtocolError>
  {
    match decoded
    case Err(e) => Some(e)
    case Ok(bytes) => if Decode(bytes).Failed? then Some(BadMessagePack) else None
  }

  /** A message as it is without its payload. */
  function WithoutPayload(m: HubMessage): HubMessage
  {
    match m
    case StreamItemMessage(headers, id, _) => StreamItemMessage(headers, id, Json.Null)
    case StreamInvocationMessage(headers, id, target, _, ids) =>
      StreamInvocationMessage(headers, id, target, [], ids)
    case CompletionMessage(headers, id, _, _) => CompletionMessage(headers, id, None, None)
    case _ => m
  }

  /** Completions of other kinds than error and result have no payload. */
  predicate ReadsPayload(vs: seq<Value>, t: MessageType)
  {
    t.Completion? ==> |vs| > 3 && (vs[3] == Integer(1) || vs[3] == Integer(3))
  }

  lemma DamagedMessage(vs: seq<Value>, t: MessageType, packed: Value, decoder: Decoder, f: Foreign)
    requires Uncompressed(vs, t) && !t.Invocation?
    ensures var plain := BrotliMessage(Items(vs, None), decoder, f);
            var damaged := BrotliMessage(Items(Compressed(vs, t, packed), None), decoder, f);
            plain.Ok? && plain.value.Some? ==>
              && (HoldsNone(packed) ==> damaged == Ok(Some(WithoutPayload(plain.value.value))))
              && (forall bytes | Holds(packed, bytes) && Damage(decoder(bytes)).Some? && ReadsPayload(vs, t) ::
                    damaged == Err(Damage(decoder(bytes)).value))
  {
    hide Decode, BytesOf, Holds, HoldsNone, UnpackData, CreateMessageHeaders, ValueToString, OptionalString,
      ValueToJson, ValueToJsonArray, AsStr;
    var i := FlagIndex(t);
    var us := Compressed(vs, t, packed);
    UnpackDamaged(us, i + 1, decoder);
    SameFields(vs, us);
    assert TypeOf(us) == TypeOf(vs);
    assert IsCompressed(us, i) && !IsCompressed(vs, i);
    hide TypeOf;
  }

  lemma DamagedArguments(vs: seq<Value>, packed: Value, decoder: Decoder, f: Foreign)
    requires Uncompressed(vs, Invocation) && WellFormed(packed) && |Encode(packed)| < 0x1_0000_0000
    ensures var data := Compressed(vs, Invocation, packed)[5 := Nil];
            var r := BrotliMessage(Items(data, Some(Encode(packed))), decoder, f);
            && (HoldsNone(packed) ==> r == Err(InvalidPayload))
            && (forall bytes | Holds(packed, bytes) && decoder(bytes).Err? :: r == Err(decoder(bytes).error))
            && (forall bytes | Holds(packed, bytes) && decoder(bytes).Ok? && ReadArrayLen(decoder(bytes).value).None? ::
                  r == Err(InvalidPayload))
  {
    hide Decode, Encode, BytesOf, Holds, WellFormed, CreateMessageHeaders, ReadArrayLen;
    DecodeEncoded(packed, []);
    assert Encode(packed) + [] == Encode(packed);
    var us := Compressed(vs, Invocation, packed)[5 := Nil];
    assert TypeOf(us) == TypeOf(vs);
    assert IsCompressed(us, 4);
    hide TypeOf;
    if BytesOf(packed).Some? {
      BytesHeld(packed, BytesOf(packed).value);
    }
    forall bytes | Holds(packed, bytes) ensures BytesOf(packed) == Some(bytes) {
      BytesHeld(packed, bytes);
    }
  }

  /** A compressed payload that cannot be unpacked. One that is not made of bytes counts as missing, except
      that an invocation is refused; a failing decompressor fails the message; and so does a result that
      is not MessagePack, for an invocation one that is not an array. */
  lemma DamageShows(p: Protocol, vs: seq<Value>, t: MessageType, packed: Value, f: Foreign)
    requires p.Brotli? && Uncompressed(vs, t) && Fits(vs) && Fits(Compressed(vs, t, packed))
    ensures var plain := ParseFrame(p, Encode(Array(vs)), f);
            var damaged := ParseFrame(p, Encode(Array(Compressed(vs, t, packed))), f);
            !t.Invocation? && plain.Ok? && plain.value.Some? ==>
              && (HoldsNone(packed) ==> damaged == Ok(Some(WithoutPayload(plain.value.value))))
              && (forall bytes | Holds(packed, bytes) && Damage(p.decoder(bytes)).Some? && ReadsPayload(vs, t) ::
                    damaged == Err(Damage(p.decoder(bytes)).value))
    ensures var damaged := ParseFrame(p, Encode(Array(Compressed(vs, t, packed))), f);
            KeepsRaw(vs, 5) ==>
              && (HoldsNone(packed) ==> damaged == Err(InvalidPayload))
              && (forall bytes | Holds(packed, bytes) && p.decoder(bytes).Err? ::
                    damaged == Err(p.decoder(bytes).error))
              && (forall bytes | Holds(packed, bytes) && p.decoder(bytes).Ok?
                      && ReadArrayLen(p.decoder(bytes).value).None? ::
                    damaged == Err(InvalidPayload))
  {
    hide BrotliMessage, Encode, Fits, ParseFrame, BytesOf, Holds, HoldsNone, ReadArrayLen, Damage, WithoutPayload,
      ReadsPayload;
    var us, i := Compressed(vs, t, packed), FlagIndex(t) + 1;
    ParseElements(p, vs, f);
    ParseElements(p, us, f);
    assert KeepsRaw(us, 5) == KeepsRaw(vs, 5);
    if KeepsRaw(vs, 5) {
      assert t == Invocation && us[5] == packed;
      FitsElement(us, 5);
      DamagedArguments(vs, packed, p.decoder, f);
      forall bytes | Holds(packed, bytes) ensures Depth(packed) <= 1 {
        BytesHeld(packed, bytes);
        PackedIsFlat(packed);
      }
    } else if !t.Invocation? {
      DamagedMessage(vs, t, packed, p.decoder, f);
    }
  }

  lemma FitsElement(vs: seq<Value>, i: nat)
    requires Fits(vs) && i < |vs|
    ensures WellFormed(vs[i]) && |Encode(vs[i])| < 0x1_0000_0000
  {
    hide WellFormed, Encode;
    EncodedElementShorter(vs, i);
  }
}
