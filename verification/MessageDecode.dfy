/**
 `decode_message`: the message array of one frame, with the arguments of an invocation left
 encoded, and what it has to do with decoding the whole frame.
 */
module MessageDecode {
  import opened Basics
  import opened MessagePack
  import opened LazyDecode

  /** The decoded elements, and the encoded one that `Nil` stands for. */
  datatype Items = Items(values: seq<Value>, raw: Option<Bytes>)

  function AsI64(v: Value): Option<int>
  {
    if v.Integer? && -0x8000_0000_0000_0000 <= v.n < 0x8000_0000_0000_0000 then Some(v.n) else None
  }

  /** The number of elements of the array ahead, and what follows that number. */
  function ReadArrayLen(s: Bytes): Option<(nat, Bytes)>
  {
    if s == [] then None
    else
      var t := s[1..];
      match MarkerOf(s[0])
      case FixArray(n) => Some((n, t))
      case Array16 => if |t| < 2 then None else Some((FromBigEndian(t[..2]), t[2..]))
      case Array32 => if |t| < 4 then None else Some((FromBigEndian(t[..4]), t[4..]))
      case _ => None
  }

  predicate OfInvocation(values: seq<Value>)
  {
    values != [] && AsI64(values[0]) == Some(1)
  }

  /** Reads `n` more elements. */
  function ReadItems(s: Bytes, n: nat, done: Items, index: nat): Result<Items, DecodeError>
    decreases n
  {
    if n == 0 then Ok(done)
    else if |done.values| == index && OfInvocation(done.values) then
      match Skip(s, 0)
      case Err(e) => Err(e)
      case Ok(rest) => ReadItems(rest, n - 1, Items(done.values + [Nil], Some(Used(s, rest))), index)
    else
      match Decode(s)
      case Failed => Err(BadValue)
      case Got(v, rest) => ReadItems(rest, n - 1, Items(done.values + [v], done.raw), index)
  }

  function Message(frame: Bytes, index: nat): Result<Items, DecodeError>
  {
    match ReadArrayLen(frame)
    case None => Err(NotAnArray)
    case Some((n, body)) => ReadItems(body, n, Items([], None), index)
  }

  method DecodeMessage(frame: Bytes, argumentsIndex: nat) returns (r: Result<Items, DecodeError>)
    ensures r == Message(frame, argumentsIndex)
  {
    hide Skip, Decode, ReadArrayLen;
    var head := ReadArrayLen(frame);
    if head.None? {
      return Err(NotAnArray);
    }
    var (len, rest) := head.value;
    ghost var body := rest;
    var items: seq<Value> := [];
    var rawArguments: Option<Bytes> := None;
    for i := 0 to len
      invariant |items| == i
      invariant Message(frame, argumentsIndex) == ReadItems(rest, len - i, Items(items, rawArguments), argumentsIndex)
    {
      var isInvocation := items != [] && AsI64(items[0]) == Some(1);
      if i == argumentsIndex && isInvocation {
        var start := rest;
        var skipped := SkipValue(rest, 0);
        if skipped.Err? {
          return Err(skipped.error);
        }
        rest := skipped.value;
        rawArguments := Some(Used(start, rest));
        items := items + [Nil];
      } else {
        match Decode(rest) {
          case Failed => return Err(BadValue);
          case Got(v, tail) =>
            rest := tail;
            items := items + [v];
        }
      }
    }
    r := Ok(Items(items, rawArguments));
  }

  // ---- the lazy form against decoding everything --------------------------------------------

  /** The bytes of the `i`-th of the values in a row. */
  function ElementBytes(s: Bytes, i: nat): Bytes
  {
    match DecodeAll(s, i)
    case FailedAll => []
    case GotAll(_, start) =>
      match Decode(start)
      case Failed => []
      case Got(_, rest) => Used(start, rest)
  }

  lemma {:induction false} ElementOwnBytes(s: Bytes, n: nat, i: nat)
    requires DecodeAll(s, n).GotAll? && i < n
    ensures Decode(ElementBytes(s, i)) == Got(DecodeAll(s, n).values[i], [])
    decreases i
  {
    hide Decode;
    if i == 0 {
      DecodeLocal(s, []);
      assert Used(s, Decode(s).rest) + [] == Used(s, Decode(s).rest);
    } else {
      ElementOwnBytes(Decode(s).rest, n - 1, i - 1);
      ElementStep(s, i);
    }
  }

  lemma ElementStep(s: Bytes, i: nat)
    requires i > 0 && Decode(s).Got?
    ensures ElementBytes(s, i) == ElementBytes(Decode(s).rest, i - 1)
  {
    hide Decode;
  }

  function Plainly(all: DecodedAll, done: Items): Result<Items, DecodeError>
  {
    match all
    case FailedAll => Err(BadValue)
    case GotAll(vs, _) => Ok(Items(done.values + vs, done.raw))
  }

  /** Elements other than the arguments of an invocation are decoded. */
  lemma {:induction false} PlainItems(s: Bytes, n: nat, done: Items, index: nat)
    requires |done.values| > index || (done.values != [] && !OfInvocation(done.values))
    ensures ReadItems(s, n, done, index)
            == Plainly(DecodeAll(s, n), done)
    decreases n
  {
    hide Decode, Skip;
    if n == 0 {
      assert done.values + [] == done.values;
    } else if Decode(s).Got? {
      var d := Decode(s);
      PlainItems(d.rest, n - 1, Items(done.values + [d.value], done.raw), index);
      if DecodeAll(d.rest, n - 1).GotAll? {
        var vs := DecodeAll(d.rest, n - 1).values;
        assert done.values + [d.value] + vs == done.values + ([d.value] + vs);
      }
    }
  }

  ghost predicate Deferred(r: Result<Items, DecodeError>, s: Bytes, n: nat, before: seq<Value>, index: nat)
    requires |before| <= index
  {
    match DecodeAll(s, n)
    case FailedAll => r.Err?
    case GotAll(vs, _) =>
      var all := before + vs;
      if index >= |all| then r == Ok(Items(all, None))
      else if Depth(all[index]) > MAX_DEPTH then r == Err(TooDeep)
      else r == Ok(Items(all[index := Nil], Some(ElementBytes(s, index - |before|))))
  }

  lemma {:induction false} DeferredItems(s: Bytes, n: nat, before: seq<Value>, index: nat)
    requires OfInvocation(before) && |before| <= index
    ensures Deferred(ReadItems(s, n, Items(before, None), index), s, n, before, index)
    decreases n
  {
    hide Decode, Skip, AsI64;
    if n == 0 {
      assert before + [] == before;
    } else if |before| < index {
      if Decode(s).Got? {
        DeferredItems(Decode(s).rest, n - 1, before + [Decode(s).value], index);
        DeferredLater(s, n, before, index);
      }
    } else {
      DeferredHere(s, n, before);
    }
  }

  lemma DeferredLater(s: Bytes, n: nat, before: seq<Value>, index: nat)
    requires n > 0 && OfInvocation(before) && |before| < index && Decode(s).Got?
    requires var d := Decode(s);
             Deferred(ReadItems(d.rest, n - 1, Items(before + [d.value], None), index),
                      d.rest, n - 1, before + [d.value], index)
    ensures Deferred(ReadItems(s, n, Items(before, None), index), s, n, before, index)
  {
    hide Decode, Skip, AsI64, ElementBytes;
    var d := Decode(s);
    ElementStep(s, index - |before|);
    if DecodeAll(s, n).GotAll? {
      var vs := DecodeAll(d.rest, n - 1).values;
      assert before + DecodeAll(s, n).values == before + [d.value] + vs;
    }
  }

  lemma DeferredHere(s: Bytes, n: nat, before: seq<Value>)
    requires n > 0 && OfInvocation(before)
    ensures Deferred(ReadItems(s, n, Items(before, None), |before|), s, n, before, |before|)
  {
    hide Decode, Skip, AsI64;
    SkipAgreesWithDecode(s, 0);
    var d := Decode(s);
    if d.Got? && Depth(d.value) <= MAX_DEPTH {
      var raw := Used(s, d.rest);
      PlainItems(d.rest, n - 1, Items(before + [Nil], Some(raw)), |before|);
      assert DecodeAll(s, 0) == GotAll([], s);
      if DecodeAll(s, n).GotAll? {
        var vs := DecodeAll(d.rest, n - 1).values;
        assert (before + ([d.value] + vs))[|before| := Nil] == before + [Nil] + vs;
      }
    }
  }

  /** The elements of a frame that is one array. */
  function Elements(frame: Bytes): Option<seq<Value>>
  {
    match Decode(frame)
    case Got(Array(items), _) => Some(items)
    case _ => None
  }

  lemma ArrayElements(frame: Bytes)
    ensures match ReadArrayLen(frame)
            case None => Elements(frame).None?
            case Some((n, body)) => Elements(frame) == Everything(DecodeAll(body, n))
  {
    hide FromBigEndian, DecodeAll, MarkerOf, Decode;
    if frame != [] {
      if Branches(MarkerOf(frame[0])) {
        DecodeBranch(frame);
        assert frame[1..][0..] == frame[1..];
      } else {
        DecodeLeaf(frame);
        LeafHasNoItems(MarkerOf(frame[0]), frame[1..]);
      }
    } else {
      assert Decode(frame).Failed? by { DecodeNothing(); }
    }
  }

  lemma LeafHasNoItems(m: Marker, t: Bytes)
    requires !Branches(m)
    ensures LeafDecoded(m, t).Got? ==> !LeafDecoded(m, t).value.Array?
  {
    hide Sized, Block;
    SizedIsNoArray(Width(m), t, LeafOf(m));
    BlockIsNoArray(Width(m), t, Extra(m), LeafOf(m));
  }

  lemma SizedIsNoArray(n: nat, t: Bytes, leaf: Leaf)
    ensures Sized(n, t, leaf).Got? ==> !Sized(n, t, leaf).value.Array?
  {
    hide FromBigEndian;
  }

  lemma BlockIsNoArray(k: nat, t: Bytes, extra: nat, leaf: Leaf)
    ensures Block(k, t, extra, leaf).Got? ==> !Block(k, t, extra, leaf).value.Array?
  {
    hide FromBigEndian, Sized;
    if |t| >= k {
      SizedIsNoArray(FromBigEndian(t[..k]) + extra, t[k..], leaf);
    }
  }

  /** Whether the element at `index` stays encoded. */
  predicate KeepsRaw(values: seq<Value>, index: nat)
  {
    1 <= index < |values| && OfInvocation(values)
  }

  /** What follows the array header. */
  function Body(frame: Bytes): Bytes
  {
    match ReadArrayLen(frame)
    case None => []
    case Some((_, body)) => body
  }

  ghost predicate Faithful(r: Result<Items, DecodeError>, full: Option<seq<Value>>, body: Bytes, index: nat)
  {
    if full.None? then r.Err?
    else
      var vs := full.value;
      if !KeepsRaw(vs, index) then r == Ok(Items(vs, None))
      else if Depth(vs[index]) > MAX_DEPTH then r == Err(TooDeep)
      else && r == Ok(Items(vs[index := Nil], Some(ElementBytes(body, index))))
           && Decode(ElementBytes(body, index)) == Got(vs[index], [])
  }

  function Everything(all: DecodedAll): Option<seq<Value>>
  {
    match all
    case FailedAll => None
    case GotAll(vs, _) => Some(vs)
  }

  /** For every frame: the lazy form succeeds exactly when the whole frame decodes as an array
      and the arguments it leaves alone are nested within the limit. It then yields the fully
      decoded elements, with `Nil` for the arguments; the raw bytes are exactly those of that
      element and decode to the value that was left out. */
  lemma LazyAgreesWithFull(frame: Bytes, index: nat)
    ensures Faithful(Message(frame, index), Elements(frame), Body(frame), index)
  {
    hide Decode, Skip, ReadArrayLen;
    ArrayElements(frame);
    var head := ReadArrayLen(frame);
    if head.Some? && head.value.0 > 0 {
      var (n, body) := head.value;
      var d := Decode(body);
      if d.Got? {
        ReadItemsStart(body, n, index);
        FirstThenRest(body, n, index);
      }
    }
  }

  lemma ReadItemsStart(body: Bytes, n: nat, index: nat)
    requires n > 0 && Decode(body).Got?
    ensures ReadItems(body, n, Items([], None), index)
            == ReadItems(Decode(body).rest, n - 1, Items([Decode(body).value], None), index)
  {
    hide Decode, Skip;
    assert [] + [Decode(body).value] == [Decode(body).value];
  }

  lemma FirstThenRest(body: Bytes, n: nat, index: nat)
    requires n > 0 && Decode(body).Got?
    ensures var d := Decode(body);
            Faithful(ReadItems(d.rest, n - 1, Items([d.value], None), index),
                     Everything(DecodeAll(body, n)), body, index)
  {
    hide Decode, Skip, ElementBytes, Depth, ReadItems, AsI64;
    var d := Decode(body);
    if index == 0 || !OfInvocation([d.value]) {
      PlainItems(d.rest, n - 1, Items([d.value], None), index);
    } else {
      DeferredItems(d.rest, n - 1, [d.value], index);
      if DecodeAll(body, n).GotAll? && index < n {
        ElementOwnBytes(body, n, index);
        ElementStep(body, index);
      }
    }
  }

  // ---- frames of the writers ----------------------------------------------------------------

  lemma ReadWrittenArrayLen(n: nat, body: Bytes)
    requires n < 0x1_0000_0000
    ensures ReadArrayLen(ArrayHead(n) + body) == Some((n, body))
  {
    hide FromBigEndian, ToBigEndian;
    CountHead(n, body, 0x90, 0xdc, 0xdd);
  }

  lemma {:induction false} ElementOfEncoded(vs: seq<Value>, i: nat)
    requires i < |vs| && |EncodeAll(vs)| < 0x1_0000_0000
    requires forall k | 0 <= k < |vs| :: WellFormed(vs[k])
    ensures ElementBytes(EncodeAll(vs), i) == Encode(vs[i])
  {
    hide Decode, Encode, ElementBytes;
    var s, rest := EncodeAll(vs), EncodeAll(vs[1..]);
    DecodeEncoded(vs[0], rest);
    if i == 0 {
      FirstElement(s);
      assert Used(s, rest) == Encode(vs[0]);
    } else {
      ElementStep(s, i);
      ElementOfEncoded(vs[1..], i - 1);
    }
  }

  lemma FirstElement(s: Bytes)
    requires Decode(s).Got?
    ensures ElementBytes(s, 0) == Used(s, Decode(s).rest)
  {
    hide Decode;
  }

  /** What the receiver of an encoded message array reads. */
  function Delivered(vs: seq<Value>, index: nat): Result<Items, DecodeError>
  {
    if !KeepsRaw(vs, index) then Ok(Items(vs, None))
    else if Depth(vs[index]) > MAX_DEPTH then Err(TooDeep)
    else Ok(Items(vs[index := Nil], Some(Encode(vs[index]))))
  }

  lemma DecodeWritten(vs: seq<Value>, index: nat)
    requires |Encode(Array(vs))| < 0x1_0000_0000
    requires forall k | 0 <= k < |vs| :: WellFormed(vs[k])
    ensures Message(Encode(Array(vs)), index) == Delivered(vs, index)
  {
    hide Decode, ReadArrayLen, Message, KeepsRaw, ElementBytes, EncodeAll, ShortHead, Depth;
    var frame := Encode(Array(vs));
    EncodeAllLong(vs);
    DecodeEncoded(Array(vs), []);
    assert frame + [] == frame;
    ReadWrittenArrayLen(|vs|, EncodeAll(vs));
    LazyAgreesWithFull(frame, index);
    if KeepsRaw(vs, index) {
      assert index < |vs| by { RawIndex(vs, index); }
      ElementOfEncoded(vs, index);
    }
  }

  lemma RawIndex(vs: seq<Value>, index: nat)
    requires KeepsRaw(vs, index)
    ensures index < |vs|
  {
  }
}
