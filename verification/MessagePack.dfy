/**
 MessagePack values, their encoding and a reference decoder, following the section "Formats"
 of the MessagePack specification.
 */
module MessagePack {
  import opened Basics

  /** A decoded value. Floats are kept as their bytes, strings as UTF-8 bytes; the entries of a
      map are its keys and values in turn. */
  datatype Value =
    | Nil
    | Boolean(flag: bool)
    | Integer(n: int)
    | F32(bits: Bytes)
    | F64(bits: Bytes)
    | String(text: Bytes)
    | Binary(data: Bytes)
    | Array(items: seq<Value>)
    | Map(entries: seq<Value>)
    | Ext(tag: byte, payload: Bytes)

  /** What the first byte of a value says. */
  datatype Marker =
    | FixPos(n: nat) | FixNeg(m: int) | FixMap(len: nat) | FixArray(len: nat) | FixStr(len: nat)
    | Null | Reserved | False | True
    | Bin8 | Bin16 | Bin32 | Ext8 | Ext16 | Ext32
    | Float32 | Float64 | U8 | U16 | U32 | U64 | I8 | I16 | I32 | I64
    | FixExt1 | FixExt2 | FixExt4 | FixExt8 | FixExt16
    | Str8 | Str16 | Str32 | Array16 | Array32 | Map16 | Map32

  function MarkerOf(b: byte): Marker
  {
    if b < 0x80 then FixPos(b)
    else if b < 0x90 then FixMap(b - 0x80)
    else if b < 0xa0 then FixArray(b - 0x90)
    else if b < 0xc0 then FixStr(b - 0xa0)
    else if b >= 0xe0 then FixNeg(b - 0x100)
    else match b
      case 0xc0 => Null
      case 0xc1 => Reserved
      case 0xc2 => False
      case 0xc3 => True
      case 0xc4 => Bin8
      case 0xc5 => Bin16
      case 0xc6 => Bin32
      case 0xc7 => Ext8
      case 0xc8 => Ext16
      case 0xc9 => Ext32
      case 0xca => Float32
      case 0xcb => Float64
      case 0xcc => U8
      case 0xcd => U16
      case 0xce => U32
      case 0xcf => U64
      case 0xd0 => I8
      case 0xd1 => I16
      case 0xd2 => I32
      case 0xd3 => I64
      case 0xd4 => FixExt1
      case 0xd5 => FixExt2
      case 0xd6 => FixExt4
      case 0xd7 => FixExt8
      case 0xd8 => FixExt16
      case 0xd9 => Str8
      case 0xda => Str16
      case 0xdb => Str32
      case 0xdc => Array16
      case 0xdd => Array32
      case 0xde => Map16
      case _ => Map32
  }

  // ---- big-endian numbers -------------------------------------------------------------------

  function Pow256(k: nat): (p: nat)
    ensures p >= 1
  {
    if k == 0 then 1 else 256 * Pow256(k - 1)
  }

  /** The low `k` bytes of `n`, most significant first. */
  function ToBigEndian(n: nat, k: nat): (r: Bytes)
    ensures |r| == k
    decreases k
  {
    if k == 0 then [] else ToBigEndian(n / 256, k - 1) + [n % 256]
  }

  function FromBigEndian(s: Bytes): nat
  {
    if s == [] then 0 else 256 * FromBigEndian(s[..|s| - 1]) + s[|s| - 1]
  }

  lemma {:induction false} BigEndianRoundTrip(n: nat, k: nat)
    requires n < Pow256(k)
    ensures FromBigEndian(ToBigEndian(n, k)) == n
    decreases k
  {
    if k > 0 {
      var s := ToBigEndian(n, k);
      assert s[..|s| - 1] == ToBigEndian(n / 256, k - 1);
      BigEndianRoundTrip(n / 256, k - 1);
    }
  }

  lemma {:induction false} BigEndianBound(s: Bytes)
    ensures FromBigEndian(s) < Pow256(|s|)
  {
    if s != [] {
      BigEndianBound(s[..|s| - 1]);
    }
  }

  lemma Powers()
    ensures Pow256(1) == 0x100 && Pow256(2) == 0x1_0000
    ensures Pow256(4) == 0x1_0000_0000 && Pow256(8) == 0x1_0000_0000_0000_0000
  {
    assert Pow256(3) == 0x100_0000;
    assert Pow256(5) == 0x100_0000_0000 && Pow256(6) == 0x1_0000_0000_0000;
    assert Pow256(7) == 0x100_0000_0000_0000;
  }

  /** Two's complement of `k` bytes. */
  function Signed(n: nat, k: nat): int
  {
    if 2 * n < Pow256(k) then n else n - Pow256(k)
  }

  // ---- decoding -----------------------------------------------------------------------------

  datatype Decoded = Failed | Got(value: Value, rest: Bytes)

  datatype DecodedAll = FailedAll | GotAll(values: seq<Value>, rest: Bytes)

  /** The values without children, by what their bytes mean. */
  datatype Leaf = Unsigned | TwosComplement | Single | Double | Text | Blob | Extension

  function MakeLeaf(leaf: Leaf, b: Bytes): Value
  {
    match leaf
    case Unsigned => Integer(FromBigEndian(b))
    case TwosComplement => Integer(Signed(FromBigEndian(b), |b|))
    case Single => F32(b)
    case Double => F64(b)
    case Text => String(b)
    case Blob => Binary(b)
    case Extension => if b == [] then Nil else Ext(b[0], b[1..])
  }

  /** A leaf of `n` bytes. */
  function Sized(n: nat, t: Bytes, leaf: Leaf): Decoded
  {
    if |t| < n then Failed else Got(MakeLeaf(leaf, t[..n]), t[n..])
  }

  /** A leaf whose length takes `k` bytes, followed by `extra` bytes more than that length. */
  function Block(k: nat, t: Bytes, extra: nat, leaf: Leaf): Decoded
  {
    if |t| < k then Failed else Sized(FromBigEndian(t[..k]) + extra, t[k..], leaf)
  }

  function Collected(r: DecodedAll, isMap: bool): Decoded
  {
    match r
    case FailedAll => Failed
    case GotAll(values, rest) => Got(if isMap then Map(values) else Array(values), rest)
  }

  /** Decodes one value; what follows it is returned with it. */
  function Decode(s: Bytes): (r: Decoded)
    ensures r.Got? ==> |r.rest| < |s|
    decreases |s|, 0
  {
    if s == [] then Failed
    else
      var t := s[1..];
      match MarkerOf(s[0])
      case FixPos(n) => Got(Integer(n), t)
      case FixNeg(n) => Got(Integer(n), t)
      case Null => Got(Nil, t)
      case Reserved => Failed
      case False => Got(Boolean(false), t)
      case True => Got(Boolean(true), t)
      case U8 => Sized(1, t, Unsigned)
      case U16 => Sized(2, t, Unsigned)
      case U32 => Sized(4, t, Unsigned)
      case U64 => Sized(8, t, Unsigned)
      case I8 => Sized(1, t, TwosComplement)
      case I16 => Sized(2, t, TwosComplement)
      case I32 => Sized(4, t, TwosComplement)
      case I64 => Sized(8, t, TwosComplement)
      case Float32 => Sized(4, t, Single)
      case Float64 => Sized(8, t, Double)
      case FixStr(n) => Sized(n, t, Text)
      case Str8 => Block(1, t, 0, Text)
      case Str16 => Block(2, t, 0, Text)
      case Str32 => Block(4, t, 0, Text)
      case Bin8 => Block(1, t, 0, Blob)
      case Bin16 => Block(2, t, 0, Blob)
      case Bin32 => Block(4, t, 0, Blob)
      case FixExt1 => Sized(2, t, Extension)
      case FixExt2 => Sized(3, t, Extension)
      case FixExt4 => Sized(5, t, Extension)
      case FixExt8 => Sized(9, t, Extension)
      case FixExt16 => Sized(17, t, Extension)
      case Ext8 => Block(1, t, 1, Extension)
      case Ext16 => Block(2, t, 1, Extension)
      case Ext32 => Block(4, t, 1, Extension)
      case FixArray(n) => Collected(DecodeAll(t, n), false)
      case Array16 => if |t| < 2 then Failed else Collected(DecodeAll(t[2..], FromBigEndian(t[..2])), false)
      case Array32 => if |t| < 4 then Failed else Collected(DecodeAll(t[4..], FromBigEndian(t[..4])), false)
      case FixMap(n) => Collected(DecodeAll(t, 2 * n), true)
      case Map16 => if |t| < 2 then Failed else Collected(DecodeAll(t[2..], 2 * FromBigEndian(t[..2])), true)
      case Map32 => if |t| < 4 then Failed else Collected(DecodeAll(t[4..], 2 * FromBigEndian(t[..4])), true)
  }

  /** Decodes `n` values in a row. */
  function DecodeAll(s: Bytes, n: nat): (r: DecodedAll)
    ensures r.GotAll? ==> |r.values| == n && |r.rest| <= |s|
    decreases |s|, 1
  {
    if n == 0 then GotAll([], s)
    else
      match Decode(s)
      case Failed => FailedAll
      case Got(v, rest) =>
        match DecodeAll(rest, n - 1)
        case FailedAll => FailedAll
        case GotAll(vs, end) => GotAll([v] + vs, end)
  }

  // ---- encoding -----------------------------------------------------------------------------

  /** Values as the type system of the encoder admits them. */
  ghost predicate WellFormed(v: Value)
  {
    match v
    case Integer(n) => -0x8000_0000_0000_0000 <= n < 0x1_0000_0000_0000_0000
    case F32(bits) => |bits| == 4
    case F64(bits) => |bits| == 8
    case Array(items) => forall i | 0 <= i < |items| :: WellFormed(items[i])
    case Map(entries) => |entries| % 2 == 0 && forall i | 0 <= i < |entries| :: WellFormed(entries[i])
    case _ => true
  }

  function EncodeInteger(n: int): Bytes
  {
    if 0 <= n then
      if n < 0x80 then [n]
      else if n < 0x100 then [0xcc] + ToBigEndian(n, 1)
      else if n < 0x1_0000 then [0xcd] + ToBigEndian(n, 2)
      else if n < 0x1_0000_0000 then [0xce] + ToBigEndian(n, 4)
      else [0xcf] + ToBigEndian(n, 8)
    else
      if -0x20 <= n then [0x100 + n]
      else if -0x80 <= n then [0xd0] + ToBigEndian(n + 0x100, 1)
      else if -0x8000 <= n then [0xd1] + ToBigEndian(n + 0x1_0000, 2)
      else if -0x8000_0000 <= n then [0xd2] + ToBigEndian(n + 0x1_0000_0000, 4)
      else if -0x1_0000_0000_0000_0000 <= n then [0xd3] + ToBigEndian(n + 0x1_0000_0000_0000_0000, 8)
      else []
  }

  /** A header with a short form below `fix` and lengths of two or four bytes. A length of four
      bytes is cut to its low 32 bits. */
  function ShortHead(n: nat, fix: nat, base: byte, two: byte, four: byte): Bytes
    requires base + fix <= 256
  {
    if n < fix then [base + n]
    else if n < 0x1_0000 then [two] + ToBigEndian(n, 2)
    else [four] + ToBigEndian(n, 4)
  }

  function LongHead(n: nat, one: byte, two: byte, four: byte): Bytes
  {
    if n < 0x100 then [one] + ToBigEndian(n, 1)
    else if n < 0x1_0000 then [two] + ToBigEndian(n, 2)
    else [four] + ToBigEndian(n, 4)
  }

  function StringHead(n: nat): Bytes
  {
    if n < 32 then [0xa0 + n] else LongHead(n, 0xd9, 0xda, 0xdb)
  }

  function ArrayHead(n: nat): Bytes
  {
    ShortHead(n, 16, 0x90, 0xdc, 0xdd)
  }

  function MapHead(n: nat): Bytes
  {
    ShortHead(n, 16, 0x80, 0xde, 0xdf)
  }

  function ExtHead(n: nat): Bytes
  {
    if n == 1 then [0xd4] else if n == 2 then [0xd5] else if n == 4 then [0xd6]
    else if n == 8 then [0xd7] else if n == 16 then [0xd8] else LongHead(n, 0xc7, 0xc8, 0xc9)
  }

  function Encode(v: Value): Bytes
    decreases v, 0
  {
    match v
    case Nil => [0xc0]
    case Boolean(flag) => if flag then [0xc3] else [0xc2]
    case Integer(n) => EncodeInteger(n)
    case F32(bits) => [0xca] + bits
    case F64(bits) => [0xcb] + bits
    case String(text) => StringHead(|text|) + text
    case Binary(data) => LongHead(|data|, 0xc4, 0xc5, 0xc6) + data
    case Array(items) => ArrayHead(|items|) + EncodeAll(items)
    case Map(entries) => MapHead(|entries| / 2) + EncodeAll(entries)
    case Ext(tag, payload) => ExtHead(|payload|) + [tag] + payload
  }

  function EncodeAll(vs: seq<Value>): Bytes
    decreases vs, 1
  {
    if vs == [] then [] else Encode(vs[0]) + EncodeAll(vs[1..])
  }

  lemma EncodeNonEmpty(v: Value)
    requires WellFormed(v)
    ensures |Encode(v)| >= 1
  {
  }

  lemma {:induction false} EncodeAllLong(vs: seq<Value>)
    requires forall i | 0 <= i < |vs| :: WellFormed(vs[i])
    ensures |EncodeAll(vs)| >= |vs|
  {
    if vs != [] {
      EncodeNonEmpty(vs[0]);
      EncodeAllLong(vs[1..]);
    }
  }

  // ---- decoding undoes encoding -------------------------------------------------------------

  /** A number of `k` bytes after a marker. */
  lemma NumberAfter(m: byte, n: nat, k: nat, rest: Bytes)
    requires n < Pow256(k)
    ensures var s := [m] + ToBigEndian(n, k) + rest;
            && s[0] == m && s[1..][..k] == ToBigEndian(n, k) && s[1..][k..] == rest
            && FromBigEndian(s[1..][..k]) == n && |s[1..]| == k + |rest|
  {
    BigEndianRoundTrip(n, k);
    var s := [m] + ToBigEndian(n, k) + rest;
    assert s[1..] == ToBigEndian(n, k) + rest;
  }

  /** The fixed-size number formats. */
  lemma DecodeNumber(m: byte, t: Bytes)
    ensures var d := Decode([m] + t);
            && (m < 0x80 ==> d == Got(Integer(m), t))
            && (m >= 0xe0 ==> d == Got(Integer(m - 0x100), t))
            && (m == 0xcc ==> d == Sized(1, t, Unsigned))
            && (m == 0xcd ==> d == Sized(2, t, Unsigned))
            && (m == 0xce ==> d == Sized(4, t, Unsigned))
            && (m == 0xcf ==> d == Sized(8, t, Unsigned))
            && (m == 0xd0 ==> d == Sized(1, t, TwosComplement))
            && (m == 0xd1 ==> d == Sized(2, t, TwosComplement))
            && (m == 0xd2 ==> d == Sized(4, t, TwosComplement))
            && (m == 0xd3 ==> d == Sized(8, t, TwosComplement))
  {
    hide Sized, Block, Collected, DecodeAll, FromBigEndian;
    assert ([m] + t)[1..] == t;
  }

  lemma SizedNumber(n: nat, k: nat, rest: Bytes)
    requires n < Pow256(k)
    ensures Sized(k, ToBigEndian(n, k) + rest, Unsigned) == Got(Integer(n), rest)
    ensures Sized(k, ToBigEndian(n, k) + rest, TwosComplement) == Got(Integer(Signed(n, k)), rest)
  {
    BigEndianRoundTrip(n, k);
    hide FromBigEndian, ToBigEndian, Pow256, Signed;
    var b := ToBigEndian(n, k);
    assert (b + rest)[..k] == b && (b + rest)[k..] == rest;
  }

  lemma DecodePositive(n: nat, rest: Bytes)
    requires n < 0x1_0000_0000_0000_0000
    ensures Decode(EncodeInteger(n) + rest) == Got(Integer(n), rest)
  {
    Powers();
    hide Decode, Pow256, ToBigEndian, FromBigEndian, Sized;
    if n < 0x80 {
      DecodeNumber(n, rest);
    } else {
      var m: byte :=
        if n < 0x100 then 0xcc else if n < 0x1_0000 then 0xcd else if n < 0x1_0000_0000 then 0xce else 0xcf;
      var k := if n < 0x100 then 1 else if n < 0x1_0000 then 2 else if n < 0x1_0000_0000 then 4 else 8;
      SizedNumber(n, k, rest);
      DecodeNumber(m, ToBigEndian(n, k) + rest);
      assert EncodeInteger(n) + rest == [m] + (ToBigEndian(n, k) + rest);
    }
  }

  lemma DecodeNegative(n: int, rest: Bytes)
    requires -0x8000_0000_0000_0000 <= n < 0
    ensures Decode(EncodeInteger(n) + rest) == Got(Integer(n), rest)
  {
    Powers();
    hide Decode, Pow256, ToBigEndian, FromBigEndian, Sized;
    if -0x20 <= n {
      DecodeNumber(0x100 + n, rest);
    } else {
      var m: byte :=
        if -0x80 <= n then 0xd0 else if -0x8000 <= n then 0xd1 else if -0x8000_0000 <= n then 0xd2 else 0xd3;
      var k := if -0x80 <= n then 1 else if -0x8000 <= n then 2 else if -0x8000_0000 <= n then 4 else 8;
      var u: nat := n + Pow256(k);
      SizedNumber(u, k, rest);
      DecodeNumber(m, ToBigEndian(u, k) + rest);
      assert EncodeInteger(n) + rest == [m] + (ToBigEndian(u, k) + rest);
    }
  }

  lemma SizedHead(data: Bytes, rest: Bytes, leaf: Leaf)
    ensures Sized(|data|, data + rest, leaf) == Got(MakeLeaf(leaf, data), rest)
  {
    assert (data + rest)[..|data|] == data;
    assert (data + rest)[|data|..] == rest;
  }

  /** The three length forms of a leaf. */
  lemma LongHeadDecodes(data: Bytes, extra: nat, one: byte, two: byte, four: byte, rest: Bytes, leaf: Leaf)
    requires extra <= |data| && |data| - extra < 0x1_0000_0000
    ensures var n := |data| - extra;
            var s := LongHead(n, one, two, four) + (data + rest);
            && (n < 0x100 ==> s[0] == one && Block(1, s[1..], extra, leaf) == Got(MakeLeaf(leaf, data), rest))
            && (0x100 <= n < 0x1_0000 ==>
                  s[0] == two && Block(2, s[1..], extra, leaf) == Got(MakeLeaf(leaf, data), rest))
            && (0x1_0000 <= n ==> s[0] == four && Block(4, s[1..], extra, leaf) == Got(MakeLeaf(leaf, data), rest))
  {
    Powers();
    hide Pow256, ToBigEndian, FromBigEndian, MakeLeaf;
    var n := |data| - extra;
    SizedHead(data, rest, leaf);
    if n < 0x100 {
      NumberAfter(one, n, 1, data + rest);
    } else if n < 0x1_0000 {
      NumberAfter(two, n, 2, data + rest);
    } else {
      NumberAfter(four, n, 4, data + rest);
    }
  }

  lemma DecodeShortString(text: Bytes, rest: Bytes)
    requires |text| < 32
    ensures Decode([0xa0 + |text|] + (text + rest)) == Got(String(text), rest)
  {
    SizedHead(text, rest, Text);
    hide FromBigEndian, Sized;
    assert ([0xa0 + |text|] + (text + rest))[1..] == text + rest;
  }

  lemma DecodeLongString(text: Bytes, rest: Bytes)
    requires |text| < 0x1_0000_0000
    ensures Decode(LongHead(|text|, 0xd9, 0xda, 0xdb) + (text + rest)) == Got(String(text), rest)
  {
    hide FromBigEndian, ToBigEndian, Block, Sized;
    LongHeadDecodes(text, 0, 0xd9, 0xda, 0xdb, rest, Text);
  }

  lemma DecodeString(text: Bytes, rest: Bytes)
    requires |text| < 0x1_0000_0000
    ensures Decode(StringHead(|text|) + text + rest) == Got(String(text), rest)
  {
    hide Decode, LongHead;
    assert StringHead(|text|) + text + rest == StringHead(|text|) + (text + rest);
    if |text| < 32 {
      DecodeShortString(text, rest);
    } else {
      DecodeLongString(text, rest);
    }
  }

  lemma DecodeBinary(data: Bytes, rest: Bytes)
    requires |data| < 0x1_0000_0000
    ensures Decode(LongHead(|data|, 0xc4, 0xc5, 0xc6) + data + rest) == Got(Binary(data), rest)
  {
    hide FromBigEndian, ToBigEndian, Block;
    var s := LongHead(|data|, 0xc4, 0xc5, 0xc6) + (data + rest);
    assert LongHead(|data|, 0xc4, 0xc5, 0xc6) + data + rest == s;
    LongHeadDecodes(data, 0, 0xc4, 0xc5, 0xc6, rest, Blob);
  }

  lemma DecodeExt(tag: byte, payload: Bytes, rest: Bytes)
    requires |payload| < 0x1_0000_0000
    ensures Decode(ExtHead(|payload|) + [tag] + payload + rest) == Got(Ext(tag, payload), rest)
  {
    hide FromBigEndian, ToBigEndian, Block, LongHead;
    var data := [tag] + payload;
    var s := ExtHead(|payload|) + (data + rest);
    assert ExtHead(|payload|) + [tag] + payload + rest == s;
    assert data[1..] == payload;
    LongHeadDecodes(data, 1, 0xc7, 0xc8, 0xc9, rest, Extension);
    SizedHead(data, rest, Extension);
    if |ExtHead(|payload|)| == 1 {
      assert s[1..] == data + rest;
    }
  }

  /** The forms of an array or map header, as the number of children they announce. */
  lemma CountHead(n: nat, body: Bytes, base: byte, two: byte, four: byte)
    requires n < 0x1_0000_0000 && base + 16 <= 256
    ensures var s := ShortHead(n, 16, base, two, four) + body;
            && (n < 16 ==> s[0] == base + n && s[1..] == body)
            && (16 <= n < 0x1_0000 ==>
                  s[0] == two && |s[1..]| >= 2 && FromBigEndian(s[1..][..2]) == n && s[1..][2..] == body)
            && (0x1_0000 <= n ==>
                  s[0] == four && |s[1..]| >= 4 && FromBigEndian(s[1..][..4]) == n && s[1..][4..] == body)
  {
    Powers();
    hide Pow256, ToBigEndian, FromBigEndian;
    if n < 16 {
    } else if n < 0x1_0000 {
      NumberAfter(two, n, 2, body);
    } else {
      NumberAfter(four, n, 4, body);
    }
  }

  lemma DecodeArrayHead(n: nat, body: Bytes)
    requires n < 0x1_0000_0000
    ensures Decode(ArrayHead(n) + body) == Collected(DecodeAll(body, n), false)
  {
    hide FromBigEndian, ToBigEndian, Collected, DecodeAll;
    CountHead(n, body, 0x90, 0xdc, 0xdd);
  }

  lemma DecodeMapHead(n: nat, body: Bytes)
    requires n < 0x1_0000_0000
    ensures Decode(MapHead(n) + body) == Collected(DecodeAll(body, 2 * n), true)
  {
    hide FromBigEndian, ToBigEndian, Collected, DecodeAll;
    CountHead(n, body, 0x80, 0xde, 0xdf);
  }

  /** Decoding an encoded value gives the value and whatever follows it. */
  lemma {:induction false} DecodeEncoded(v: Value, rest: Bytes)
    requires WellFormed(v) && |Encode(v)| < 0x1_0000_0000
    ensures Decode(Encode(v) + rest) == Got(v, rest)
    decreases v, 0
  {
    hide EncodeInteger, Decode, StringHead, LongHead, ExtHead;
    match v
    case Nil => DecodeConstant(0xc0, rest);
    case Boolean(flag) => DecodeConstant(if flag then 0xc3 else 0xc2, rest);
    case Integer(n) => if 0 <= n { DecodePositive(n, rest); } else { DecodeNegative(n, rest); }
    case F32(bits) => DecodeFloat(0xca, bits, rest);
    case F64(bits) => DecodeFloat(0xcb, bits, rest);
    case String(text) => DecodeString(text, rest);
    case Binary(data) => DecodeBinary(data, rest);
    case Ext(tag, payload) => DecodeExt(tag, payload, rest);
    case Array(items) =>
      EncodeAllLong(items);
      assert Encode(v) + rest == ArrayHead(|items|) + (EncodeAll(items) + rest);
      DecodeArrayHead(|items|, EncodeAll(items) + rest);
      DecodeEncodedAll(items, rest);
    case Map(entries) =>
      EncodeAllLong(entries);
      assert Encode(v) + rest == MapHead(|entries| / 2) + (EncodeAll(entries) + rest);
      DecodeMapHead(|entries| / 2, EncodeAll(entries) + rest);
      DecodeEncodedAll(entries, rest);
  }

  lemma DecodeConstant(b: byte, rest: Bytes)
    ensures b == 0xc0 ==> Decode([b] + rest) == Got(Nil, rest)
    ensures b == 0xc2 ==> Decode([b] + rest) == Got(Boolean(false), rest)
    ensures b == 0xc3 ==> Decode([b] + rest) == Got(Boolean(true), rest)
  {
    assert ([b] + rest)[1..] == rest;
  }

  lemma DecodeFloat(b: byte, bits: Bytes, rest: Bytes)
    ensures b == 0xca && |bits| == 4 ==> Decode([b] + bits + rest) == Got(F32(bits), rest)
    ensures b == 0xcb && |bits| == 8 ==> Decode([b] + bits + rest) == Got(F64(bits), rest)
  {
    assert ([b] + bits + rest)[1..] == bits + rest;
    SizedHead(bits, rest, Single);
    SizedHead(bits, rest, Double);
  }

  lemma {:induction false} DecodeEncodedAll(vs: seq<Value>, rest: Bytes)
    requires forall i | 0 <= i < |vs| :: WellFormed(vs[i])
    requires |EncodeAll(vs)| < 0x1_0000_0000
    ensures DecodeAll(EncodeAll(vs) + rest, |vs|) == GotAll(vs, rest)
    decreases vs, 1
  {
    hide Decode, Encode;
    if vs == [] {
      assert EncodeAll(vs) + rest == rest;
    } else {
      var tail := EncodeAll(vs[1..]) + rest;
      assert EncodeAll(vs) + rest == Encode(vs[0]) + tail;
      DecodeEncoded(vs[0], tail);
      DecodeEncodedAll(vs[1..], rest);
      assert [vs[0]] + vs[1..] == vs;
    }
  }
}
