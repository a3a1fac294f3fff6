/** Binary message framing with a variable-length size prefix. */
module BinaryFraming {
  import opened Basics

  const MAX_LENGTH_PREFIX_SIZE := 5
  const NUM_BITS_TO_SHIFT: seq<nat> := [0, 7, 14, 21, 28]

  /** Payloads of this size and above cannot be received. */
  const SIZE_LIMIT := 0x8000_0000

  function Pow2(n: nat): (p: nat)
    ensures p >= 1
  {
    if n == 0 then 1 else 2 * Pow2(n - 1)
  }

  // ---- specification ------------------------------------------------------------------------

  /** The size prefix: seven bits per byte, least significant first, a set top bit on every
      byte but the last. */
  function Prefix(size: nat): (p: Bytes)
    ensures |p| >= 1
  {
    if size < 128 then [size] else [128 + size % 128] + Prefix(size / 128)
  }

  function Frame(payload: Bytes): Bytes
  {
    Prefix(|payload|) + payload
  }

  function Frames(payloads: seq<Bytes>): seq<Bytes>
  {
    if payloads == [] then [] else [Frame(payloads[0])] + Frames(payloads[1..])
  }

  /** The number whose base-128 digits are the low seven bits of the bytes, least significant first. */
  function Digits(p: Bytes): nat
  {
    if p == [] then 0 else p[0] % 128 + 128 * Digits(p[1..])
  }

  /** A prefix spells its size in seven bits per byte, with the top bit set on every byte but the last. */
  lemma {:induction false} PrefixSpells(size: nat)
    ensures Digits(Prefix(size)) == size
    ensures forall i | 0 <= i < |Prefix(size)| :: Prefix(size)[i] >= 128 <==> i < |Prefix(size)| - 1
  {
    if size < 128 {
      var rest: Bytes := [size][1..];
      assert rest == [] && Digits(rest) == 0;
    } else {
      PrefixSpells(size / 128);
      assert Prefix(size)[1..] == Prefix(size / 128);
    }
  }

  datatype Size = Size(value: nat, length: nat)

  /** Reads a prefix of at most `budget` bytes; the last byte of a full one holds three bits. */
  function ReadPrefix(s: Bytes, budget: nat): (r: Result<Size, FramingError>)
    requires budget >= 1
    ensures r.Ok? ==> 1 <= r.value.length <= budget && r.value.length <= |s|
    decreases budget
  {
    if s == [] then Err(CannotReadSize)
    else if s[0] < 128 then
      if budget == 1 && s[0] > 7 then Err(MessageTooLarge) else Ok(Size(s[0], 1))
    else if budget == 1 then Err(MessageTooLarge)
    else
      OneMore(s[0] % 128, ReadPrefix(s[1..], budget - 1))
  }

  /** A prefix whose first byte contributes `part` and whose other bytes read as `r`. */
  function OneMore(part: nat, r: Result<Size, FramingError>): Result<Size, FramingError>
  {
    match r
    case Err(e) => Err(e)
    case Ok(rest) => Ok(Size(part + 128 * rest.value, 1 + rest.length))
  }

  function Prepend(first: Bytes, rest: Result<seq<Bytes>, FramingError>): Result<seq<Bytes>, FramingError>
  {
    match rest
    case Ok(payloads) => Ok([first] + payloads)
    case Err(e) => Err(e)
  }

  function Parsed(s: Bytes): Result<seq<Bytes>, FramingError>
    decreases |s|
  {
    if s == [] then Ok([])
    else
      match ReadPrefix(s, MAX_LENGTH_PREFIX_SIZE)
      case Err(e) => Err(e)
      case Ok(size) =>
        if |s| >= size.length + size.value
        then Prepend(s[size.length..size.length + size.value], Parsed(s[size.length + size.value..]))
        else Err(IncompleteMessage)
  }

  // ---- the framing code ---------------------------------------------------------------------

  method Write(payload: Bytes) returns (output: Bytes)
    ensures output == Frame(payload)
  {
    var lenBuffer: Bytes := [];
    var size: nat := |payload|;
    while true
      invariant lenBuffer + Prefix(size) == Prefix(|payload|)
      decreases size
    {
      ghost var before := lenBuffer;
      ghost var n: nat := size;
      var sizePart: byte := size % 128;
      size := size / 128;
      if size > 0 {
        sizePart := 128 + sizePart;
      }
      lenBuffer := lenBuffer + [sizePart];
      if size == 0 {
        assert Prefix(n) == [sizePart];
        break;
      }
      assert Prefix(n) == [sizePart] + Prefix(size);
      assert before + Prefix(n) == lenBuffer + Prefix(size);
    }
    output := lenBuffer + payload;
  }

  method Parse(input: Bytes) returns (result: Result<seq<Bytes>, FramingError>)
    ensures result == Parsed(input)
  {
    hide ReadPrefix, Prepend;
    var payloads: seq<Bytes> := [];
    var offset := 0;
    assert input[0..] == input;
    AppendNothing(Parsed(input));
    while offset < |input|
      invariant 0 <= offset <= |input|
      invariant Parsed(input) == Append(payloads, Parsed(input[offset..]))
    {
      var prefix := ReadSize(input, offset);
      ghost var rest := input[offset..];
      if prefix.Err? {
        return Err(prefix.error);
      }
      var numBytes, size := prefix.value.length, prefix.value.value;
      if |input| < offset + numBytes + size {
        return Err(IncompleteMessage);
      }
      ghost var end := numBytes + size;
      assert rest[numBytes..end] == input[offset + numBytes..offset + end];
      assert rest[end..] == input[offset + end..];
      AppendPrepend(payloads, rest[numBytes..end], Parsed(rest[end..]));
      payloads := payloads + [input[offset + numBytes..offset + numBytes + size]];
      offset := offset + numBytes + size;
    }
    assert input[offset..] == [];
    AppendNothing(Ok(payloads));
    result := Ok(payloads);
  }

  /** The inner loop; the shift table is only ever indexed below its length. */
  method ReadSize(input: Bytes, offset: nat) returns (result: Result<Size, FramingError>)
    requires offset < |input|
    ensures result == ReadPrefix(input[offset..], MAX_LENGTH_PREFIX_SIZE)
  {
    hide Shifted, Pow2, ReadPrefix;
    var numBytes := 0;
    var size := 0;
    var byteRead: byte;
    ghost var rest := input[offset..];
    NothingRead(rest);
    while true
      invariant 0 <= numBytes < MAX_LENGTH_PREFIX_SIZE && numBytes <= |rest|
      invariant 0 <= size < Pow2(7 * numBytes)
      invariant ReadPrefix(rest, 5) == Shifted(size, numBytes, ReadPrefix(rest[numBytes..], 5 - numBytes))
      decreases MAX_LENGTH_PREFIX_SIZE - numBytes
    {
      if offset + numBytes >= |input| {
        assert rest[numBytes..] == [];
        ReadPrefixStep(rest, 5 - numBytes);
        ShiftedEnd(size, numBytes, 0);
        return Err(CannotReadSize);
      }
      byteRead := input[offset + numBytes];
      assert byteRead == rest[numBytes];
      assert NUM_BITS_TO_SHIFT[numBytes] == 7 * numBytes;
      ShiftOne(rest, numBytes, size);
      // the parts do not overlap, so adding is the bitwise or
      size := size + (byteRead % 128) * Pow2(NUM_BITS_TO_SHIFT[numBytes]);
      numBytes := numBytes + 1;
      if numBytes >= MAX_LENGTH_PREFIX_SIZE || numBytes >= |input| - offset || byteRead < 128 {
        break;
      }
    }
    if byteRead >= 128 && numBytes < MAX_LENGTH_PREFIX_SIZE {
      assert rest[numBytes..] == [];
      return Err(CannotReadSize);
    }
    if numBytes == MAX_LENGTH_PREFIX_SIZE && byteRead > 7 {
      return Err(MessageTooLarge);
    }
    result := Ok(Size(size, numBytes));
  }

  function Append(payloads: seq<Bytes>, rest: Result<seq<Bytes>, FramingError>): Result<seq<Bytes>, FramingError>
  {
    match rest
    case Ok(more) => Ok(payloads + more)
    case Err(e) => Err(e)
  }

  lemma AppendNothing(r: Result<seq<Bytes>, FramingError>)
    ensures Append([], r) == r
    ensures r.Ok? ==> Append(r.value, Ok([])) == r
  {
    if r.Ok? {
      assert [] + r.value == r.value && r.value + [] == r.value;
    }
  }

  lemma AppendPrepend(payloads: seq<Bytes>, first: Bytes, r: Result<seq<Bytes>, FramingError>)
    ensures Append(payloads, Prepend(first, r)) == Append(payloads + [first], r)
    ensures Prepend(first, Append(payloads, r)) == Append([first] + payloads, r)
  {
    if r.Ok? {
      assert payloads + ([first] + r.value) == payloads + [first] + r.value;
      assert [first] + (payloads + r.value) == [first] + payloads + r.value;
    }
  }

  /** The result of a prefix of which `count` bytes with value `low` were already read. */
  function Shifted(low: nat, count: nat, r: Result<Size, FramingError>): Result<Size, FramingError>
  {
    match r
    case Err(e) => Err(e)
    case Ok(size) => Ok(Size(low + Pow2(7 * count) * size.value, count + size.length))
  }

  lemma {:induction false} PowSeven(k: nat)
    ensures Pow2(7 * (k + 1)) == 128 * Pow2(7 * k)
  {
    var n := 7 * k;
    assert Pow2(n + 7) == 2 * Pow2(n + 6) == 4 * Pow2(n + 5);
    assert Pow2(n + 5) == 2 * Pow2(n + 4) == 4 * Pow2(n + 3);
    assert Pow2(n + 3) == 2 * Pow2(n + 2) == 4 * Pow2(n + 1) == 8 * Pow2(n);
  }

  lemma PartFits(low: nat, part: nat, k: nat)
    requires low < Pow2(7 * k) && part <= 127
    ensures 0 <= low + part * Pow2(7 * k) < Pow2(7 * (k + 1))
  {
    PowSeven(k);
    Multiples(part, Pow2(7 * k));
    hide Pow2;
  }

  lemma Multiples(part: nat, p: nat)
    requires part <= 127
    ensures 0 <= part * p <= 127 * p
  {
  }

  lemma ShiftedOneMore(low: nat, k: nat, part: nat, r: Result<Size, FramingError>)
    ensures Shifted(low, k, OneMore(part, r)) == Shifted(low + part * Pow2(7 * k), k + 1, r)
  {
    PowSeven(k);
    var p := Pow2(7 * k);
    if r.Ok? {
      var v := r.value.value;
      assert p * (part + 128 * v) == part * p + (128 * p) * v;
    }
  }

  lemma NothingRead(s: Bytes)
    ensures ReadPrefix(s, 5) == Shifted(0, 0, ReadPrefix(s[0..], 5))
    ensures 0 < Pow2(7 * 0)
  {
    assert s[0..] == s;
  }

  lemma ReadPrefixStep(t: Bytes, budget: nat)
    requires budget >= 1 && t != []
    ensures ReadPrefix([], budget) == Err(CannotReadSize)
    ensures t[0] > 7 && budget == 1 ==> ReadPrefix(t, budget) == Err(MessageTooLarge)
    ensures t[0] < 128 && !(budget == 1 && t[0] > 7) ==> ReadPrefix(t, budget) == Ok(Size(t[0], 1))
    ensures t[0] >= 128 && budget > 1 ==>
              ReadPrefix(t, budget) == OneMore(t[0] % 128, ReadPrefix(t[1..], budget - 1))
  {
  }

  lemma ShiftedEnd(low: nat, k: nat, part: nat)
    ensures Shifted(low, k, Ok(Size(part, 1))) == Ok(Size(low + part * Pow2(7 * k), k + 1))
    ensures forall e :: Shifted(low, k, Err(e)) == Err(e)
  {
    assert part * Pow2(7 * k) == Pow2(7 * k) * part;
  }

  /** Reading one more byte of a prefix. */
  lemma ShiftOne(s: Bytes, k: nat, low: nat)
    requires k < 5 && k < |s| && low < Pow2(7 * k)
    requires ReadPrefix(s, 5) == Shifted(low, k, ReadPrefix(s[k..], 5 - k))
    ensures var more := low + (s[k] % 128) * Pow2(7 * k);
            && 0 <= more < Pow2(7 * (k + 1))
            && (s[k] >= 128 && k < 4 ==>
                  && ReadPrefix(s, 5) == Shifted(more, k + 1, ReadPrefix(s[k + 1..], 4 - k))
                  && (k + 1 == |s| ==> ReadPrefix(s, 5) == Err(CannotReadSize)))
            && (k == 4 && s[k] > 7 ==> ReadPrefix(s, 5) == Err(MessageTooLarge))
            && (s[k] < 128 && !(k == 4 && s[k] > 7) ==> ReadPrefix(s, 5) == Ok(Size(more, k + 1)))
  {
    hide ReadPrefix, Shifted, Pow2;
    var part := s[k] % 128;
    PartFits(low, part, k);
    var t := s[k..];
    assert t[1..] == s[k + 1..];
    ReadPrefixStep(t, 5 - k);
    ShiftedEnd(low, k, part);
    if s[k] >= 128 && k < 4 {
      ShiftedOneMore(low, k, part, ReadPrefix(s[k + 1..], 4 - k));
      ReadPrefixStep(t, 4 - k);
      ShiftedEnd(low + part * Pow2(7 * k), k + 1, part);
    }
  }

  // ---- what framing promises ----------------------------------------------------------------

  /** The largest size that fits a prefix of `budget` bytes, plus one. */
  function Limit(budget: nat): nat
    requires budget >= 1
  {
    if budget == 1 then 8 else 128 * Limit(budget - 1)
  }

  /** Reading a written prefix gives the size back exactly when it is below the limit. */
  lemma {:induction false} ReadWrittenPrefix(size: nat, rest: Bytes, budget: nat)
    requires budget >= 1
    ensures ReadPrefix(Prefix(size) + rest, budget)
            == if size < Limit(budget) then Ok(Size(size, |Prefix(size)|)) else Err(MessageTooLarge)
    decreases budget
  {
    var s := Prefix(size) + rest;
    if size < 128 {
      assert budget > 1 ==> Limit(budget) >= 128 by { LimitGrows(budget); }
    } else if budget > 1 {
      assert s[0] == 128 + size % 128;
      assert s[1..] == Prefix(size / 128) + rest;
      ReadWrittenPrefix(size / 128, rest, budget - 1);
    }
  }

  lemma {:induction false} LimitGrows(budget: nat)
    requires budget >= 1
    ensures Limit(budget) >= 8 && (budget > 1 ==> Limit(budget) >= 1024)
  {
    if budget > 1 {
      LimitGrows(budget - 1);
    }
  }

  lemma LimitIsExact()
    ensures Limit(MAX_LENGTH_PREFIX_SIZE) == SIZE_LIMIT
  {
    assert Limit(2) == 1024 && Limit(3) == 131072 && Limit(4) == 16777216;
  }

  /** More input does not change a prefix that was read. */
  lemma {:induction false} ReadPrefixMore(s: Bytes, more: Bytes, budget: nat)
    requires budget >= 1 && ReadPrefix(s, budget).Ok?
    ensures ReadPrefix(s + more, budget) == ReadPrefix(s, budget)
    decreases budget
  {
    if s[0] >= 128 {
      assert (s + more)[1..] == s[1..] + more;
      ReadPrefixMore(s[1..], more, budget - 1);
    }
  }

  /** Parsing is compositional: input that parses can be followed by any other input. */
  lemma {:induction false} ParseConcatenation(a: Bytes, b: Bytes)
    requires Parsed(a).Ok?
    ensures Parsed(a + b) == Append(Parsed(a).value, Parsed(b))
    decreases |a|
  {
    if a == [] {
      assert a + b == b;
      AppendNothing(Parsed(b));
    } else {
      ReadPrefixMore(a, b, 5);
      var size := ReadPrefix(a, 5).value;
      var n := size.length + size.value;
      assert (a + b)[n..] == a[n..] + b;
      assert (a + b)[size.length..n] == a[size.length..n];
      ParseConcatenation(a[n..], b);
      AppendPrepend(Parsed(a[n..]).value, a[size.length..n], Parsed(b));
    }
  }

  /** A single written payload comes back if and only if it is shorter than 2^31 bytes; a longer
      one is always refused as too large, whatever follows it. */
  lemma WrittenPayloadParses(payload: Bytes, rest: Bytes)
    ensures |payload| < 0x8000_0000 ==> Parsed(Frame(payload) + rest) == Prepend(payload, Parsed(rest))
    ensures |payload| >= 0x8000_0000 ==> Parsed(Frame(payload) + rest) == Err(MessageTooLarge)
  {
    LimitIsExact();
    var s := Frame(payload) + rest;
    assert s == Prefix(|payload|) + (payload + rest);
    ReadWrittenPrefix(|payload|, payload + rest, 5);
    var n := |Prefix(|payload|)|;
    assert s[n..n + |payload|] == payload;
    assert s[n + |payload|..] == rest;
  }

  predicate Receivable(payloads: seq<Bytes>)
  {
    forall i | 0 <= i < |payloads| :: |payloads[i]| < SIZE_LIMIT
  }

  /** Parsing the concatenation of written payloads returns exactly the payloads. */
  lemma {:induction false} RoundTrip(payloads: seq<Bytes>)
    requires Receivable(payloads)
    ensures Parsed(Concat(Frames(payloads))) == Ok(payloads)
  {
    FirstFrame(payloads);
    hide Frame, Frames, Concat;
    if payloads == [] {
      assert Parsed([]) == Ok([]);
    } else {
      hide Parsed;
      WrittenPayloadParses(payloads[0], Concat(Frames(payloads[1..])));
      RoundTrip(payloads[1..]);
      assert [payloads[0]] + payloads[1..] == payloads;
    }
  }

  /** No frame is a proper prefix of another: equal streams start with equal payloads. */
  lemma PrefixFree(p: Bytes, a: Bytes, q: Bytes, b: Bytes)
    requires |p| < SIZE_LIMIT && |q| < SIZE_LIMIT
    requires Frame(p) + a == Frame(q) + b
    ensures p == q && a == b
  {
    LimitIsExact();
    var s := Frame(p) + a;
    assert s == Prefix(|p|) + (p + a) && s == Prefix(|q|) + (q + b);
    ReadWrittenPrefix(|p|, p + a, 5);
    ReadWrittenPrefix(|q|, q + b, 5);
    var n := |Prefix(|p|)|;
    assert s[n..n + |p|] == p && s[n..n + |p|] == q;
    assert s[n + |p|..] == a && s[n + |p|..] == b;
  }

  // ---- truncation ---------------------------------------------------------------------------

  lemma {:induction false} CutPrefix(size: nat, m: nat, budget: nat)
    requires budget >= 1 && size < Limit(budget) && m < |Prefix(size)|
    ensures ReadPrefix(Prefix(size)[..m], budget) == Err(CannotReadSize)
    decreases budget
  {
    if m > 0 {
      assert Prefix(size)[..m][1..] == Prefix(size / 128)[..m - 1];
      CutPrefix(size / 128, m - 1, budget - 1);
    }
  }

  /** What a stream that breaks off `m` bytes into a frame parses to. */
  function CutOutcome(before: seq<Bytes>, payload: Bytes, m: nat): Result<seq<Bytes>, FramingError>
  {
    if m == 0 then Ok(before)
    else if m < |Prefix(|payload|)| then Err(CannotReadSize)
    else Err(IncompleteMessage)
  }

  lemma CutFrame(payload: Bytes, m: nat)
    requires |payload| < SIZE_LIMIT && m < |Frame(payload)|
    ensures Parsed(Frame(payload)[..m]) == CutOutcome([], payload, m)
  {
    LimitIsExact();
    var p := Prefix(|payload|);
    if m < |p| {
      assert Frame(payload)[..m] == p[..m];
      CutPrefix(|payload|, m, 5);
    } else {
      assert Frame(payload)[..m] == p + payload[..m - |p|];
      ReadWrittenPrefix(|payload|, payload[..m - |p|], 5);
    }
  }

  /** Cutting a stream of frames anywhere never yields a wrong message: at a frame boundary the
      frames before it parse, inside a prefix the size cannot be read, inside a payload the
      message is incomplete. */
  lemma Truncation(payloads: seq<Bytes>, k: nat) returns (i: nat, m: nat)
    requires Receivable(payloads) && k < |Concat(Frames(payloads))|
    ensures i < |payloads| && m < |Frame(payloads[i])|
    ensures k == |Concat(Frames(payloads[..i]))| + m
    ensures Parsed(Concat(Frames(payloads))[..k]) == CutOutcome(payloads[..i], payloads[i], m)
  {
    i, m := Locate(payloads, k);
    var before := Concat(Frames(payloads[..i]));
    var all := Concat(Frames(payloads));
    assert all[..k] == before + Frame(payloads[i])[..m];
    RoundTrip(payloads[..i]);
    ParseConcatenation(before, Frame(payloads[i])[..m]);
    CutFrame(payloads[i], m);
    AppendNothing(Parsed(before));
  }

  lemma {:induction false} Locate(payloads: seq<Bytes>, k: nat) returns (i: nat, m: nat)
    requires k < |Concat(Frames(payloads))|
    ensures i < |payloads| && m < |Frame(payloads[i])|
    ensures k == |Concat(Frames(payloads[..i]))| + m
    ensures Concat(Frames(payloads)) == Concat(Frames(payloads[..i])) + Frame(payloads[i]) + Concat(Frames(payloads[i
              + 1..]))
  {
    hide Frame, Frames, Concat;
    FirstFrame(payloads);
    var first := Frame(payloads[0]);
    if k < |first| {
      i, m := 0, k;
      assert payloads[..0] == [];
      FirstFrame(payloads[..0]);
      assert [] + first == first;
    } else {
      i, m := Locate(payloads[1..], k - |first|);
      i := i + 1;
      var before, rest := payloads[..i], payloads[1..];
      assert before[1..] == rest[..i - 1] && before[0] == payloads[0];
      FirstFrame(before);
      assert rest[i - 1] == payloads[i] && rest[i..] == payloads[i + 1..];
      var a, b, c := Concat(Frames(rest[..i - 1])), Frame(payloads[i]), Concat(Frames(payloads[i + 1..]));
      Associative(first, a, b);
      Associative(first, a + b, c);
    }
  }

  lemma FirstFrame(payloads: seq<Bytes>)
    ensures payloads == [] ==> Concat(Frames(payloads)) == []
    ensures payloads != [] ==> Concat(Frames(payloads)) == Frame(payloads[0]) + Concat(Frames(payloads[1..]))
  {
    if payloads != [] {
      assert Frames(payloads)[1..] == Frames(payloads[1..]);
    }
  }
}
