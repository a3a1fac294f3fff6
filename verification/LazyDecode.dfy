/**
 Decoding the message array of one frame while leaving the arguments of an invocation encoded:
 the skipper, the cursor helpers and `decode_message`, against the reference decoder.
 */
module LazyDecode {
  import opened Basics
  import opened MessagePack

  const MAX_DEPTH := 512

  datatype DecodeError = TooDeep | Truncated | ReservedMarker | NotAnArray | BadValue

  // ---- what skipping does -------------------------------------------------------------------

  /** A value ahead: `bytes` to jump over, then `values` children, in what follows the header. */
  datatype Shape = Shape(bytes: nat, values: nat, rest: Bytes)

  function Counted(t: Bytes, k: nat, extra: nat): Result<Shape, DecodeError>
  {
    if |t| < k then Err(Truncated) else Ok(Shape(FromBigEndian(t[..k]) + extra, 0, t[k..]))
  }

  function Listed(t: Bytes, k: nat, times: nat): Result<Shape, DecodeError>
  {
    if |t| < k then Err(Truncated) else Ok(Shape(0, times * FromBigEndian(t[..k]), t[k..]))
  }

  function ShapeOf(m: Marker, t: Bytes): Result<Shape, DecodeError>
  {
    match m
    case FixPos(_) => Ok(Shape(0, 0, t))
    case FixNeg(_) => Ok(Shape(0, 0, t))
    case Null => Ok(Shape(0, 0, t))
    case True => Ok(Shape(0, 0, t))
    case False => Ok(Shape(0, 0, t))
    case U8 => Ok(Shape(1, 0, t))
    case I8 => Ok(Shape(1, 0, t))
    case U16 => Ok(Shape(2, 0, t))
    case I16 => Ok(Shape(2, 0, t))
    case U32 => Ok(Shape(4, 0, t))
    case I32 => Ok(Shape(4, 0, t))
    case Float32 => Ok(Shape(4, 0, t))
    case U64 => Ok(Shape(8, 0, t))
    case I64 => Ok(Shape(8, 0, t))
    case Float64 => Ok(Shape(8, 0, t))
    case FixStr(n) => Ok(Shape(n, 0, t))
    case Str8 => Counted(t, 1, 0)
    case Bin8 => Counted(t, 1, 0)
    case Str16 => Counted(t, 2, 0)
    case Bin16 => Counted(t, 2, 0)
    case Str32 => Counted(t, 4, 0)
    case Bin32 => Counted(t, 4, 0)
    case FixArray(n) => Ok(Shape(0, n, t))
    case Array16 => Listed(t, 2, 1)
    case Array32 => Listed(t, 4, 1)
    case FixMap(n) => Ok(Shape(0, 2 * n, t))
    case Map16 => Listed(t, 2, 2)
    case Map32 => Listed(t, 4, 2)
    case FixExt1 => Ok(Shape(2, 0, t))
    case FixExt2 => Ok(Shape(3, 0, t))
    case FixExt4 => Ok(Shape(5, 0, t))
    case FixExt8 => Ok(Shape(9, 0, t))
    case FixExt16 => Ok(Shape(17, 0, t))
    case Ext8 => Counted(t, 1, 1)
    case Ext16 => Counted(t, 2, 1)
    case Ext32 => Counted(t, 4, 1)
    case Reserved => Err(ReservedMarker)
  }

  function Skip(s: Bytes, depth: nat): Result<Bytes, DecodeError>
    decreases MAX_DEPTH + 2 - depth, 0, 0
  {
    if depth > MAX_DEPTH then Err(TooDeep)
    else if s == [] then Err(Truncated)
    else
      match ShapeOf(MarkerOf(s[0]), s[1..])
      case Err(e) => Err(e)
      case Ok(shape) =>
        if |shape.rest| < shape.bytes then Err(Truncated)
        else SkipAll(shape.rest[shape.bytes..], shape.values, depth + 1)
  }

  function SkipAll(s: Bytes, n: nat, depth: nat): Result<Bytes, DecodeError>
    requires depth <= MAX_DEPTH + 1
    decreases MAX_DEPTH + 2 - depth, 1, n
  {
    if n == 0 then Ok(s)
    else
      match Skip(s, depth)
      case Err(e) => Err(e)
      case Ok(rest) => SkipAll(rest, n - 1, depth)
  }

  // ---- the cursor code ----------------------------------------------------------------------

  method Take(rest: Bytes, len: nat) returns (r: Result<(Bytes, Bytes), DecodeError>)
    ensures r == if |rest| < len then Err(Truncated) else Ok((rest[..len], rest[len..]))
  {
    if |rest| < len {
      return Err(Truncated);
    }
    r := Ok((rest[..len], rest[len..]));
  }

  /** Reads a big-endian length of `size` bytes. */
  method ReadLen(rest: Bytes, size: nat) returns (r: Result<(nat, Bytes), DecodeError>)
    ensures r == if |rest| < size then Err(Truncated) else Ok((FromBigEndian(rest[..size]), rest[size..]))
  {
    var taken := Take(rest, size);
    if taken.Err? {
      return Err(taken.error);
    }
    var head := taken.value.0;
    var len: nat := 0;
    for i := 0 to |head|
      invariant len == FromBigEndian(head[..i])
    {
      assert head[..i + 1][..i] == head[..i];
      len := 256 * len + head[i];
    }
    assert head[..|head|] == head;
    r := Ok((len, taken.value.1));
  }

  /** Advances the cursor past one value without decoding it. */
  method SkipValue(start: Bytes, depth: nat) returns (r: Result<Bytes, DecodeError>)
    ensures r == Skip(start, depth)
    decreases MAX_DEPTH + 2 - depth
  {
    hide ShapeOf, MarkerOf;
    if depth > MAX_DEPTH {
      return Err(TooDeep);
    }
    if start == [] {
      return Err(Truncated);
    }
    var shape := ReadShape(MarkerOf(start[0]), start[1..]);
    if shape.Err? {
      return Err(shape.error);
    }
    var taken := Take(shape.value.rest, shape.value.bytes);
    if taken.Err? {
      return Err(taken.error);
    }
    var rest := taken.value.1;
    ghost var body := rest;
    var values := shape.value.values;
    for i := 0 to values
      invariant SkipAll(body, values, depth + 1) == SkipAll(rest, values - i, depth + 1)
    {
      var next := SkipValue(rest, depth + 1);
      if next.Err? {
        return Err(next.error);
      }
      rest := next.value;
    }
    r := Ok(rest);
  }

  /** The marker table of the skipper, which moves the cursor past the length it reads. */
  method ReadShape(m: Marker, rest: Bytes) returns (r: Result<Shape, DecodeError>)
    ensures r == ShapeOf(m, rest)
  {
    var size, extra, times := 0, 0, 0;
    match m {
      case FixPos(_) | FixNeg(_) | Null | True | False => return Ok(Shape(0, 0, rest));
      case U8 | I8 => return Ok(Shape(1, 0, rest));
      case U16 | I16 => return Ok(Shape(2, 0, rest));
      case U32 | I32 | Float32 => return Ok(Shape(4, 0, rest));
      case U64 | I64 | Float64 => return Ok(Shape(8, 0, rest));
      case FixStr(len) => return Ok(Shape(len, 0, rest));
      case FixArray(len) => return Ok(Shape(0, len, rest));
      case FixMap(len) => return Ok(Shape(0, 2 * len, rest));
      case FixExt1 => return Ok(Shape(2, 0, rest));
      case FixExt2 => return Ok(Shape(3, 0, rest));
      case FixExt4 => return Ok(Shape(5, 0, rest));
      case FixExt8 => return Ok(Shape(9, 0, rest));
      case FixExt16 => return Ok(Shape(17, 0, rest));
      case Reserved => return Err(ReservedMarker);
      case Str8 | Bin8 => size := 1;
      case Str16 | Bin16 => size := 2;
      case Str32 | Bin32 => size := 4;
      case Ext8 => size, extra := 1, 1;
      case Ext16 => size, extra := 2, 1;
      case Ext32 => size, extra := 4, 1;
      case Array16 => size, times := 2, 1;
      case Array32 => size, times := 4, 1;
      case Map16 => size, times := 2, 2;
      case Map32 => size, times := 4, 2;
    }
    var len := ReadLen(rest, size);
    if len.Err? {
      return Err(len.error);
    }
    var (n, tail) := len.value;
    r := Ok(if times > 0 then Shape(0, times * n, tail) else Shape(n + extra, 0, tail));
  }

  // ---- skipping agrees with decoding --------------------------------------------------------

  /** How many levels of values a value has below it. */
  function Depth(v: Value): nat
    decreases v, 1
  {
    match v
    case Array(items) => if items == [] then 0 else 1 + Deepest(items)
    case Map(entries) => if entries == [] then 0 else 1 + Deepest(entries)
    case _ => 0
  }

  function Deepest(vs: seq<Value>): nat
    decreases vs, 0
  {
    if vs == [] then 0
    else
      var d, rest := Depth(vs[0]), Deepest(vs[1..]);
      if d < rest then rest else d
  }

  /** What skipping must give where the decoder gives `d`. */
  ghost predicate Agrees(r: Result<Bytes, DecodeError>, d: Decoded, depth: nat)
  {
    match d
    case Failed => r.Err?
    case Got(v, rest) => r == if depth + Depth(v) <= MAX_DEPTH then Ok(rest) else Err(TooDeep)
  }

  ghost predicate AgreesAll(r: Result<Bytes, DecodeError>, d: DecodedAll, depth: nat)
  {
    match d
    case FailedAll => r.Err?
    case GotAll(vs, rest) =>
      r == if vs == [] || depth + Deepest(vs) <= MAX_DEPTH then Ok(rest) else Err(TooDeep)
  }

  /** What the skipper's table must say where the decoder gives `d`: a leaf is `bytes` long,
      anything else has `values` children. */
  ghost predicate LeafMatches(shape: Result<Shape, DecodeError>, d: Decoded)
  {
    match shape
    case Err(_) => d.Failed?
    case Ok(shape) =>
      && shape.values == 0
      && (|shape.rest| < shape.bytes ==> d.Failed?)
      && (|shape.rest| >= shape.bytes ==>
            d.Got? && d.rest == shape.rest[shape.bytes..] && Depth(d.value) == 0)
  }

  predicate Branches(m: Marker)
  {
    m.FixArray? || m.Array16? || m.Array32? || m.FixMap? || m.Map16? || m.Map32?
  }

  predicate IsMap(m: Marker)
  {
    m.FixMap? || m.Map16? || m.Map32?
  }

  lemma FlatLeaf(leaf: Leaf, b: Bytes)
    ensures Depth(MakeLeaf(leaf, b)) == 0
  {
    hide FromBigEndian;
  }

  lemma SizedMatches(n: nat, t: Bytes, leaf: Leaf)
    ensures LeafMatches(Ok(Shape(n, 0, t)), Sized(n, t, leaf))
  {
    hide MakeLeaf;
    if |t| >= n {
      FlatLeaf(leaf, t[..n]);
    }
  }

  lemma CountedMatches(k: nat, t: Bytes, extra: nat, leaf: Leaf)
    ensures LeafMatches(Counted(t, k, extra), Block(k, t, extra, leaf))
  {
    hide MakeLeaf, FromBigEndian, Sized;
    if |t| >= k {
      SizedMatches(FromBigEndian(t[..k]) + extra, t[k..], leaf);
    }
  }

  /** The length a marker itself announces, where it does. */
  function Width(m: Marker): nat
  {
    match m
    case U8 | I8 | Str8 | Bin8 | Ext8 => 1
    case U16 | I16 | FixExt1 | Str16 | Bin16 | Ext16 => 2
    case U32 | I32 | Float32 | Str32 | Bin32 | Ext32 => 4
    case U64 | I64 | Float64 => 8
    case FixExt2 => 3
    case FixExt4 => 5
    case FixExt8 => 9
    case FixExt16 => 17
    case FixStr(n) => n
    case _ => 0
  }

  function LeafOf(m: Marker): Leaf
  {
    match m
    case U8 | U16 | U32 | U64 => Unsigned
    case I8 | I16 | I32 | I64 => TwosComplement
    case Float32 => Single
    case Float64 => Double
    case FixStr(_) | Str8 | Str16 | Str32 => Text
    case Bin8 | Bin16 | Bin32 => Blob
    case _ => Extension
  }

  predicate Prefixed(m: Marker)
  {
    m.Str8? || m.Str16? || m.Str32? || m.Bin8? || m.Bin16? || m.Bin32? || m.Ext8? || m.Ext16? || m.Ext32?
  }

  function Extra(m: Marker): nat
  {
    if m.Ext8? || m.Ext16? || m.Ext32? then 1 else 0
  }

  function Constant(m: Marker, t: Bytes): Decoded
  {
    match m
    case FixPos(n) => Got(Integer(n), t)
    case FixNeg(n) => Got(Integer(n), t)
    case Null => Got(Nil, t)
    case False => Got(Boolean(false), t)
    case True => Got(Boolean(true), t)
    case _ => Failed
  }

  predicate IsConstant(m: Marker)
  {
    m.FixPos? || m.FixNeg? || m.Null? || m.False? || m.True? || m.Reserved?
  }

  /** Values without children, by how much of the input they take. */
  function LeafDecoded(m: Marker, t: Bytes): Decoded
  {
    if IsConstant(m) then Constant(m, t)
    else if Prefixed(m) then Block(Width(m), t, Extra(m), LeafOf(m))
    else Sized(Width(m), t, LeafOf(m))
  }

  lemma DecodeLeaf(s: Bytes)
    requires s != [] && !Branches(MarkerOf(s[0]))
    ensures Decode(s) == LeafDecoded(MarkerOf(s[0]), s[1..])
  {
    hide FromBigEndian, DecodeAll, Sized, Block, MarkerOf;
  }

  lemma LeafShape(s: Bytes)
    requires s != [] && !Branches(MarkerOf(s[0]))
    ensures LeafMatches(ShapeOf(MarkerOf(s[0]), s[1..]), Decode(s))
  {
    var m, t := MarkerOf(s[0]), s[1..];
    DecodeLeaf(s);
    hide FromBigEndian, Decode, DecodeAll, Sized, Block, Counted, Listed, MakeLeaf, MarkerOf;
    if IsConstant(m) {
    } else if Prefixed(m) {
      CountedMatches(Width(m), t, Extra(m), LeafOf(m));
    } else {
      SizedMatches(Width(m), t, LeafOf(m));
    }
  }

  /** How many bytes of length follow the marker of an array or map. */
  function HeadWidth(m: Marker): nat
  {
    if m.FixArray? || m.FixMap? then 0 else if m.Array16? || m.Map16? then 2 else 4
  }

  function Children(m: Marker, length: Bytes): nat
  {
    match m
    case FixArray(n) => n
    case FixMap(n) => 2 * n
    case Array16 | Array32 => FromBigEndian(length)
    case _ => 2 * FromBigEndian(length)
  }

  /** Decoding an array or map whose length takes `w` bytes. */
  function BranchDecoded(m: Marker, t: Bytes, w: nat): Decoded
  {
    if |t| < w then Failed else Collected(DecodeAll(t[w..], Children(m, t[..w])), IsMap(m))
  }

  lemma DecodeFixBranch(s: Bytes)
    requires s != [] && (MarkerOf(s[0]).FixArray? || MarkerOf(s[0]).FixMap?)
    ensures Decode(s) == BranchDecoded(MarkerOf(s[0]), s[1..], 0)
  {
    hide FromBigEndian, DecodeAll, Sized, Block, MarkerOf, Collected;
    assert s[1..][0..] == s[1..];
  }

  lemma DecodeBranch16(s: Bytes)
    requires s != [] && (MarkerOf(s[0]).Array16? || MarkerOf(s[0]).Map16?)
    ensures Decode(s) == BranchDecoded(MarkerOf(s[0]), s[1..], 2)
  {
    hide FromBigEndian, DecodeAll, Sized, Block, MarkerOf, Collected;
  }

  lemma DecodeBranch32(s: Bytes)
    requires s != [] && (MarkerOf(s[0]).Array32? || MarkerOf(s[0]).Map32?)
    ensures Decode(s) == BranchDecoded(MarkerOf(s[0]), s[1..], 4)
  {
    hide FromBigEndian, DecodeAll, Sized, Block, MarkerOf, Collected;
  }

  lemma DecodeBranch(s: Bytes)
    requires s != [] && Branches(MarkerOf(s[0]))
    ensures Decode(s) == BranchDecoded(MarkerOf(s[0]), s[1..], HeadWidth(MarkerOf(s[0])))
  {
    hide Decode, MarkerOf, BranchDecoded;
    var m := MarkerOf(s[0]);
    if m.FixArray? || m.FixMap? {
      DecodeFixBranch(s);
    } else if m.Array16? || m.Map16? {
      DecodeBranch16(s);
    } else {
      DecodeBranch32(s);
    }
  }

  lemma BranchHead(m: Marker, t: Bytes)
    requires Branches(m)
    ensures var w := HeadWidth(m);
            if |t| < w then ShapeOf(m, t).Err?
            else ShapeOf(m, t) == Ok(Shape(0, Children(m, t[..w]), t[w..]))
  {
    hide FromBigEndian;
    assert t[0..] == t;
  }

  lemma CollectedAgrees(r: Result<Bytes, DecodeError>, all: DecodedAll, depth: nat, isMap: bool)
    requires depth <= MAX_DEPTH && AgreesAll(r, all, depth + 1)
    ensures Agrees(r, Collected(all, isMap), depth)
  {
  }

  /** The skipper and the decoder accept the same bytes as a value and stop at the same place,
      except that the skipper refuses values nested more than `MAX_DEPTH` levels. */
  lemma {:induction false} SkipAgreesWithDecode(s: Bytes, depth: nat)
    requires depth <= MAX_DEPTH
    ensures Agrees(Skip(s, depth), Decode(s), depth)
    decreases |s|, 0
  {
    hide ShapeOf, MarkerOf, DecodeAll, SkipAll, Decode, FromBigEndian;
    DecodeNothing();
    if s != [] {
      var m := MarkerOf(s[0]);
      var shape := ShapeOf(m, s[1..]);
      if Branches(m) {
        DecodeBranch(s);
        BranchHead(m, s[1..]);
        if shape.Ok? {
          SkipAllAgrees(shape.value.rest, shape.value.values, depth + 1);
          assert shape.value.rest[0..] == shape.value.rest;
          CollectedAgrees(Skip(s, depth), DecodeAll(shape.value.rest, shape.value.values), depth, IsMap(m));
        }
      } else {
        LeafShape(s);
        if shape.Ok? && |shape.value.rest| >= shape.value.bytes {
          SkipNone(shape.value.rest[shape.value.bytes..], depth + 1);
        }
      }
    }
  }

  lemma SkipNone(s: Bytes, depth: nat)
    requires depth <= MAX_DEPTH + 1
    ensures SkipAll(s, 0, depth) == Ok(s)
  {
  }

  lemma {:induction false} SkipAllAgrees(s: Bytes, n: nat, depth: nat)
    requires depth <= MAX_DEPTH + 1
    ensures AgreesAll(SkipAll(s, n, depth), DecodeAll(s, n), depth)
    decreases |s|, 1
  {
    hide Skip, Decode, Depth;
    if n > 0 {
      if depth <= MAX_DEPTH {
        SkipAgreesWithDecode(s, depth);
        if Decode(s).Got? {
          SkipAllAgrees(Decode(s).rest, n - 1, depth);
        }
      } else {
        SkipTooDeep(s, depth);
      }
    }
  }

  lemma SkipTooDeep(s: Bytes, depth: nat)
    requires depth > MAX_DEPTH
    ensures Skip(s, depth) == Err(TooDeep)
  {
  }

  /** For an encoded value, whatever follows it, the skipper stops exactly at its end if and only
      if it is nested within the limit. */
  lemma SkipEncoded(v: Value, rest: Bytes)
    requires WellFormed(v) && |Encode(v)| < 0x1_0000_0000
    ensures Skip(Encode(v) + rest, 0) == if Depth(v) <= 512 then Ok(rest) else Err(TooDeep)
  {
    DecodeEncoded(v, rest);
    SkipAgreesWithDecode(Encode(v) + rest, 0);
  }

  // ---- a value is decoded from its own bytes alone ------------------------------------------

  ghost predicate Suffix(rest: Bytes, s: Bytes)
  {
    |rest| <= |s| && s[|s| - |rest|..] == rest
  }

  /** The bytes of `s` before its suffix `rest`. */
  function Used(s: Bytes, rest: Bytes): Bytes
  {
    if |rest| <= |s| then s[..|s| - |rest|] else s
  }

  lemma SizedLocal(n: nat, t: Bytes, leaf: Leaf, more: Bytes)
    requires Sized(n, t, leaf).Got?
    ensures var r := Sized(n, t, leaf);
            Suffix(r.rest, t) && Sized(n, Used(t, r.rest) + more, leaf) == Got(r.value, more)
  {
    hide MakeLeaf;
    assert Used(t, t[n..]) == t[..n];
    assert (t[..n] + more)[..n] == t[..n] && (t[..n] + more)[n..] == more;
  }

  lemma BlockLocal(k: nat, t: Bytes, extra: nat, leaf: Leaf, more: Bytes)
    requires Block(k, t, extra, leaf).Got?
    ensures var r := Block(k, t, extra, leaf);
            Suffix(r.rest, t) && Block(k, Used(t, r.rest) + more, extra, leaf) == Got(r.value, more)
  {
    hide MakeLeaf, FromBigEndian, Sized;
    var n := FromBigEndian(t[..k]) + extra;
    var r := Block(k, t, extra, leaf);
    SizedLocal(n, t[k..], leaf, more);
    SuffixBehind(k, t, r.rest, more);
  }

  /** A suffix of what follows the first `k` bytes. */
  lemma SuffixBehind(k: nat, t: Bytes, rest: Bytes, more: Bytes)
    requires k <= |t| && Suffix(rest, t[k..])
    ensures Suffix(rest, t)
    ensures var u := Used(t, rest) + more;
            |u| >= k && u[..k] == t[..k] && u[k..] == Used(t[k..], rest) + more
  {
    var n := |t| - |rest|;
    assert t[n..] == t[k..][n - k..];
    var u := t[..n] + more;
    assert u[..k] == t[..k] && t[k..][..n - k] == t[k..n];
    assert u[k..] == t[k..n] + more;
  }

  /** A decoded value depends on its own bytes only: with anything else behind them the same
      value is decoded. */
  lemma {:induction false} DecodeLocal(s: Bytes, more: Bytes)
    requires Decode(s).Got?
    ensures Suffix(Decode(s).rest, s)
    ensures Decode(Used(s, Decode(s).rest) + more) == Got(Decode(s).value, more)
    decreases |s|, 1
  {
    hide FromBigEndian, DecodeAll, Sized, Block, Counted, Listed, MakeLeaf, MarkerOf, ShapeOf, Collected;
    var m, t := MarkerOf(s[0]), s[1..];
    if Branches(m) {
      BranchLocal(s, more);
    } else {
      DecodeLeaf(s);
      var r := LeafDecoded(m, t);
      if IsConstant(m) {
      } else if Prefixed(m) {
        BlockLocal(Width(m), t, Extra(m), LeafOf(m), more);
      } else {
        SizedLocal(Width(m), t, LeafOf(m), more);
      }
      SuffixBehind(1, s, r.rest, more);
      DecodeLeaf(Used(s, r.rest) + more);
    }
  }

  lemma {:induction false} BranchLocal(s: Bytes, more: Bytes)
    requires s != [] && Branches(MarkerOf(s[0])) && Decode(s).Got?
    ensures Suffix(Decode(s).rest, s)
    ensures Decode(Used(s, Decode(s).rest) + more) == Got(Decode(s).value, more)
    decreases |s|, 0
  {
    hide FromBigEndian, Decode, DecodeAll, MarkerOf;
    DecodeBranch(s);
    var m, t := MarkerOf(s[0]), s[1..];
    var w := HeadWidth(m);
    var n, rest := Children(m, t[..w]), Decode(s).rest;
    DecodeAllLocal(t[w..], n, more);
    SuffixBehind(w, t, rest, more);
    SuffixBehind(1, s, rest, more);
    DecodeBranch(Used(s, rest) + more);
  }

  lemma UsedTwice(s: Bytes, middle: Bytes, end: Bytes)
    requires Suffix(middle, s) && Suffix(end, middle)
    ensures Suffix(end, s) && Used(s, end) == Used(s, middle) + Used(middle, end)
  {
    var i, j := |s| - |middle|, |s| - |end|;
    assert middle[j - i..] == s[i..][j - i..] == s[j..];
    assert middle[..j - i] == s[i..j];
    assert s[..j] == s[..i] + s[i..j];
  }

  lemma {:induction false} DecodeAllLocal(s: Bytes, n: nat, more: Bytes)
    requires DecodeAll(s, n).GotAll?
    ensures Suffix(DecodeAll(s, n).rest, s)
    ensures DecodeAll(Used(s, DecodeAll(s, n).rest) + more, n) == GotAll(DecodeAll(s, n).values, more)
    decreases |s|, 2
  {
    hide Decode;
    if n == 0 {
      assert Used(s, s) + more == more;
    } else {
      var first := Decode(s);
      var end := DecodeAll(s, n).rest;
      DecodeAllLocal(first.rest, n - 1, more);
      var tail := Used(first.rest, end) + more;
      DecodeLocal(s, tail);
      UsedTwice(s, first.rest, end);
      Associative(Used(s, first.rest), Used(first.rest, end), more);
    }
  }

  // ---- decoded values can be encoded again --------------------------------------------------

  lemma LeafWellFormed(leaf: Leaf, b: Bytes)
    requires leaf.Unsigned? || leaf.TwosComplement? ==> |b| == 1 || |b| == 2 || |b| == 4 || |b| == 8
    requires leaf.Single? ==> |b| == 4
    requires leaf.Double? ==> |b| == 8
    ensures WellFormed(MakeLeaf(leaf, b))
  {
    Powers();
    BigEndianBound(b);
    hide Pow256, FromBigEndian;
  }

  lemma {:induction false} DecodedIsWellFormed(s: Bytes)
    ensures Decode(s).Got? ==> WellFormed(Decode(s).value)
    decreases |s|, 0
  {
    hide FromBigEndian, DecodeAll, MarkerOf, Decode;
    if Decode(s).Got? {
      assert s != [] by { DecodeNothing(); }
      var m, t := MarkerOf(s[0]), s[1..];
      if Branches(m) {
        DecodeBranch(s);
        var w := HeadWidth(m);
        DecodedAllWellFormed(t[w..], Children(m, t[..w]));
      } else {
        DecodeLeaf(s);
        LeafValueWellFormed(s);
      }
    }
  }

  lemma DecodeNothing()
    ensures Decode([]) == Failed
  {
  }

  lemma LeafValueWellFormed(s: Bytes)
    requires s != [] && !Branches(MarkerOf(s[0]))
    ensures var d := LeafDecoded(MarkerOf(s[0]), s[1..]); d.Got? ==> WellFormed(d.value)
  {
    var m, t := MarkerOf(s[0]), s[1..];
    assert m.FixPos? ==> m.n < 128;
    assert m.FixNeg? ==> -32 <= m.m < 0;
    hide FromBigEndian, MakeLeaf, MarkerOf;
    if !IsConstant(m) {
      if Prefixed(m) {
        if |t| >= Width(m) {
          var n, u := FromBigEndian(t[..Width(m)]) + Extra(m), t[Width(m)..];
          if |u| >= n {
            LeafWellFormed(LeafOf(m), u[..n]);
          }
        }
      } else if |t| >= Width(m) {
        LeafWellFormed(LeafOf(m), t[..Width(m)]);
      }
    }
  }

  lemma {:induction false} DecodedAllWellFormed(s: Bytes, n: nat)
    requires DecodeAll(s, n).GotAll?
    ensures forall i | 0 <= i < n :: WellFormed(DecodeAll(s, n).values[i])
    decreases |s|, 1
  {
    hide Decode, WellFormed;
    if n > 0 {
      DecodedIsWellFormed(s);
      DecodedAllWellFormed(Decode(s).rest, n - 1);
    }
  }
}
