/**
 The table of pending invocations: who waits for which id, and what each waiting caller gets
 over a whole run of registrations, items, completions, removals and cancellations.
 */
module PendingTable {
  import opened Basics
  import opened HubMessage

  type Reply = Result<Json, Text>

  datatype Kind = Single | Stream

  /** An entry of the table: the kind of caller and the channel to it. */
  datatype Pending = Pending(kind: Kind, handle: nat)

  /** What a caller has got so far, and whether more can come. */
  datatype Output = Output(replies: seq<Reply>, open: bool)

  datatype Table = Table(pending: map<Text, Pending>, outputs: seq<Output>)

  datatype Op =
    | Register(id: Text, kind: Kind)
    | Complete(id: Text, result: Reply)
    | Item(id: Text, item: Json)
    | Remove(id: Text)
    | CancelAll(error: Text)

  const Empty := Table(map[], [])

  /** What callers are told when the connection goes without an error of its own. */
  const INVOCATION_CANCELED_MESSAGE: Text :=
    Ascii("Invocation canceled due to the underlying connection being closed.")

  function CancelWith(error: Option<Text>): (op: Op)
    ensures op.CancelAll? && (error.Some? ==> op.error == error.value)
  {
    CancelAll(if error.Some? then error.value else INVOCATION_CANCELED_MESSAGE)
  }

  // ---- operations ---------------------------------------------------------------------------

  /** The channel of an entry gets some replies; it closes when the entry goes. */
  function Sent(outputs: seq<Output>, handle: nat, replies: seq<Reply>, open: bool): (r: seq<Output>)
    ensures |r| == |outputs|
  {
    if handle < |outputs|
    then outputs[handle := Output(outputs[handle].replies + replies, open)]
    else outputs
  }

  /** An entry that is overwritten loses its channel. */
  function Registered(t: Table, id: Text, kind: Kind): Table
  {
    var outputs := if id in t.pending then Sent(t.outputs, t.pending[id].handle, [], false) else t.outputs;
    Table(t.pending[id := Pending(kind, |t.outputs|)], outputs + [Output([], true)])
  }

  /** A stream is told about errors only; its end is the end of its channel. */
  function Final(kind: Kind, result: Reply): seq<Reply>
  {
    if kind == Single || result.Err? then [result] else []
  }

  function Completed(t: Table, id: Text, result: Reply): Table
  {
    if id !in t.pending then t
    else Table(t.pending - {id}, Sent(t.outputs, t.pending[id].handle, Final(t.pending[id].kind, result), false))
  }

  function ItemSent(t: Table, id: Text, item: Json): Table
  {
    if id in t.pending && t.pending[id].kind == Stream
    then t.(outputs := Sent(t.outputs, t.pending[id].handle, [Ok(item)], true))
    else t
  }

  function Removed(t: Table, id: Text): Table
  {
    if id !in t.pending then t
    else Table(t.pending - {id}, Sent(t.outputs, t.pending[id].handle, [], false))
  }

  function Held(pending: map<Text, Pending>): set<nat>
  {
    set id | id in pending :: pending[id].handle
  }

  function Cancelled(t: Table, error: Text): Table
  {
    Table(map[], Failed(t.outputs, Held(t.pending), error))
  }

  /** The channels with one error more on the listed ones. */
  function Failed(outputs: seq<Output>, held: set<nat>, error: Text): (r: seq<Output>)
    ensures |r| == |outputs|
  {
    seq(|outputs|, h requires 0 <= h < |outputs| =>
      if h in held then Output(outputs[h].replies + [Err(error)], false) else outputs[h])
  }

  function Apply(t: Table, op: Op): Table
  {
    match op
    case Register(id, kind) => Registered(t, id, kind)
    case Complete(id, result) => Completed(t, id, result)
    case Item(id, item) => ItemSent(t, id, item)
    case Remove(id) => Removed(t, id)
    case CancelAll(error) => Cancelled(t, error)
  }

  function Run(t: Table, ops: seq<Op>): Table
    decreases |ops|
  {
    if ops == [] then t else Run(Apply(t, ops[0]), ops[1..])
  }

  // ---- what one caller is owed --------------------------------------------------------------

  /** The replies a caller gets from what happens after its registration, without looking at the
      table: everything about its id until the first operation that ends its wait. */
  function Owed(kind: Kind, id: Text, ops: seq<Op>): Output
    decreases |ops|
  {
    if ops == [] then Output([], true)
    else
      var later := Owed(kind, id, ops[1..]);
      match ops[0]
      case Register(other, _) => if other == id then Output([], false) else later
      case Complete(other, result) => if other == id then Output(Final(kind, result), false) else later
      case Item(other, item) =>
        if other == id && kind == Stream then Output([Ok(item)] + later.replies, later.open) else later
      case Remove(other) => if other == id then Output([], false) else later
      case CancelAll(error) => Output([Err(error)], false)
  }

  /** Ids have channels of their own, and a channel is open as long as the table holds it. */
  ghost predicate Inv(t: Table)
  {
    && (forall id | id in t.pending :: t.pending[id].handle < |t.outputs|)
    && (forall a, b | a in t.pending && b in t.pending && a != b :: t.pending[a].handle != t.pending[b].handle)
    && (forall h | 0 <= h < |t.outputs| :: t.outputs[h].open <==> h in Held(t.pending))
  }

  /** `more` after what a caller has already. */
  function Then(first: Output, more: Output): Output
  {
    Output(first.replies + more.replies, more.open)
  }

  lemma ApplyKeeps(t: Table, op: Op)
    requires Inv(t)
    ensures Inv(Apply(t, op)) && |Apply(t, op).outputs| >= |t.outputs|
  {
    match op
    case Register(id, kind) => RegisterKeeps(t, id, kind);
    case Complete(id, result) => if id in t.pending { ReleaseKeeps(t, id, Final(t.pending[id].kind, result)); }
    case Item(id, item) =>
    case Remove(id) => if id in t.pending { ReleaseKeeps(t, id, []); }
    case CancelAll(error) =>
  }

  lemma RegisterKeeps(t: Table, id: Text, kind: Kind)
    requires Inv(t)
    ensures Inv(Registered(t, id, kind))
  {
    var u := Registered(t, id, kind);
    forall h | 0 <= h < |u.outputs| ensures u.outputs[h].open <==> h in Held(u.pending) {
      if h == |t.outputs| {
        assert u.pending[id].handle == h;
      } else if h in Held(t.pending) && !(id in t.pending && t.pending[id].handle == h) {
        var other :| other in t.pending && t.pending[other].handle == h;
        assert u.pending[other].handle == h;
      }
    }
  }

  lemma ReleaseKeeps(t: Table, id: Text, replies: seq<Reply>)
    requires Inv(t) && id in t.pending
    ensures Inv(Table(t.pending - {id}, Sent(t.outputs, t.pending[id].handle, replies, false)))
  {
    var u := Table(t.pending - {id}, Sent(t.outputs, t.pending[id].handle, replies, false));
    forall h | 0 <= h < |u.outputs| ensures u.outputs[h].open <==> h in Held(u.pending) {
      if h in Held(t.pending) && t.pending[id].handle != h {
        var other :| other in t.pending && t.pending[other].handle == h;
        assert other in u.pending && u.pending[other].handle == h;
      }
    }
  }

  /** `u` follows `t` by an operation for which the caller of `id` is owed `owed`. */
  ghost predicate Paid(t: Table, u: Table, id: Text, owed: Output)
    requires id in t.pending && t.pending[id].handle < |t.outputs| <= |u.outputs|
  {
    var h := t.pending[id].handle;
    && u.outputs[h] == Then(t.outputs[h], owed)
    && (if owed.open then id in u.pending && u.pending[id] == t.pending[id] else h !in Held(u.pending))
  }

  lemma Untouched(t: Table, id: Text)
    requires Inv(t) && id in t.pending
    ensures Paid(t, t, id, Output([], true))
  {
    var h := t.pending[id].handle;
    assert h in Held(t.pending);
    assert t.outputs[h].replies + [] == t.outputs[h].replies;
  }

  lemma OwedNow(kind: Kind, id: Text, op: Op)
    ensures Owed(kind, id, [op]) ==
            match op
            case Register(other, _) => Output([], other != id)
            case Complete(other, result) => if other == id then Output(Final(kind, result), false) else Output([], true)
            case Item(other, item) => Output(if other == id && kind == Stream then [Ok(item)] else [], true)
            case Remove(other) => Output([], other != id)
            case CancelAll(error) => Output([Err(error)], false)
  {
    var none: seq<Op> := [op][1..];
    assert none == [] && Owed(kind, id, none) == Output([], true);
  }

  /** An entry is taken out with some replies. */
  lemma ReleasePays(t: Table, other: Text, replies: seq<Reply>, id: Text)
    requires Inv(t) && id in t.pending && other in t.pending
    ensures var u := Table(t.pending - {other}, Sent(t.outputs, t.pending[other].handle, replies, false));
            Paid(t, u, id, if other == id then Output(replies, false) else Output([], true))
  {
    var u := Table(t.pending - {other}, Sent(t.outputs, t.pending[other].handle, replies, false));
    ReleaseKeeps(t, other, replies);
    if other != id {
      Untouched(t, id);
    }
  }

  lemma RegisterPays(t: Table, other: Text, kind: Kind, id: Text)
    requires Inv(t) && id in t.pending
    ensures Paid(t, Registered(t, other, kind), id, Output([], other != id))
  {
    RegisterKeeps(t, other, kind);
    Untouched(t, id);
    var h := t.pending[id].handle;
    if other == id {
      assert !Registered(t, other, kind).outputs[h].open;
    }
  }

  lemma ItemPays(t: Table, other: Text, item: Json, id: Text)
    requires Inv(t) && id in t.pending
    ensures Paid(t, ItemSent(t, other, item), id,
                 Output(if other == id && t.pending[id].kind == Stream then [Ok(item)] else [], true))
  {
    Untouched(t, id);
  }

  /** One operation gives a waiting caller what it is owed for it, and leaves alone a caller that
      no longer waits. */
  lemma ApplyOwes(t: Table, op: Op, id: Text, h: nat)
    requires Inv(t) && h < |t.outputs|
    ensures |Apply(t, op).outputs| >= |t.outputs|
    ensures h !in Held(t.pending) ==> Apply(t, op).outputs[h] == t.outputs[h] && h !in Held(Apply(t, op).pending)
    ensures id in t.pending && t.pending[id].handle == h ==>
              Paid(t, Apply(t, op), id, Owed(t.pending[id].kind, id, [op]))
  {
    ApplyKeeps(t, op);
    if h !in Held(t.pending) {
      NotHeld(t, op, h);
    }
    if id in t.pending && t.pending[id].handle == h {
      OwedNow(t.pending[id].kind, id, op);
      Untouched(t, id);
      hide Inv, Owed, Held, Paid, Registered;
      match op
      case Register(other, kind) => RegisterPays(t, other, kind, id);
      case Complete(other, result) =>
        if other in t.pending { ReleasePays(t, other, Final(t.pending[other].kind, result), id); }
      case Item(other, item) => ItemPays(t, other, item, id);
      case Remove(other) => if other in t.pending { ReleasePays(t, other, [], id); }
      case CancelAll(error) => CancelPays(t, error, id);
    }
  }

  lemma CancelPays(t: Table, error: Text, id: Text)
    requires Inv(t) && id in t.pending
    ensures Paid(t, Cancelled(t, error), id, Output([Err(error)], false))
  {
    assert t.pending[id].handle in Held(t.pending);
  }

  lemma NotHeld(t: Table, op: Op, h: nat)
    requires Inv(t) && h < |t.outputs| && h !in Held(t.pending)
    ensures |Apply(t, op).outputs| >= |t.outputs|
    ensures Apply(t, op).outputs[h] == t.outputs[h] && h !in Held(Apply(t, op).pending)
  {
    ApplyKeeps(t, op);
  }

  lemma OwedStep(kind: Kind, id: Text, op: Op, rest: seq<Op>)
    ensures var first := Owed(kind, id, [op]);
            Owed(kind, id, [op] + rest) == if first.open then Then(first, Owed(kind, id, rest)) else first
  {
    assert [op][1..] == [] && ([op] + rest)[1..] == rest;
    var later := Owed(kind, id, rest);
    assert [] + later.replies == later.replies;
  }

  lemma ThenThen(a: Output, b: Output, c: Output)
    ensures Then(a, Then(b, c)) == Then(Then(a, b), c)
  {
    assert a.replies + (b.replies + c.replies) == a.replies + b.replies + c.replies;
  }

  /** Over every run: a waiting caller gets exactly what it is owed; any other gets nothing. */
  lemma {:induction false} RunOwes(t: Table, ops: seq<Op>, id: Text, h: nat)
    requires Inv(t) && h < |t.outputs|
    ensures Inv(Run(t, ops)) && |Run(t, ops).outputs| >= |t.outputs|
    ensures h !in Held(t.pending) ==> Run(t, ops).outputs[h] == t.outputs[h]
    ensures id in t.pending && t.pending[id].handle == h ==>
              Run(t, ops).outputs[h] == Then(t.outputs[h], Owed(t.pending[id].kind, id, ops))
    decreases |ops|
  {
    hide Apply, Owed, Inv, Held;
    if ops == [] {
      NothingOwed(t, id, h);
    } else {
      var op, rest := ops[0], ops[1..];
      var u := Apply(t, op);
      assert ops == [op] + rest;
      ApplyKeeps(t, op);
      ApplyOwes(t, op, id, h);
      RunOwes(u, rest, id, h);
      if id in t.pending && t.pending[id].handle == h {
        var kind := t.pending[id].kind;
        OwedStep(kind, id, op, rest);
        ThenThen(t.outputs[h], Owed(kind, id, [op]), Owed(kind, id, rest));
      }
    }
  }

  lemma NothingOwed(t: Table, id: Text, h: nat)
    requires Inv(t) && h < |t.outputs|
    ensures id in t.pending && t.pending[id].handle == h ==>
              t.outputs[h] == Then(t.outputs[h], Owed(t.pending[id].kind, id, []))
  {
    if id in t.pending && t.pending[id].handle == h {
      assert h in Held(t.pending);
      assert t.outputs[h].replies + [] == t.outputs[h].replies;
    }
  }

  // ---- whole runs ---------------------------------------------------------------------------

  lemma {:induction false} RunAppend(t: Table, a: seq<Op>, b: seq<Op>)
    ensures Run(t, a + b) == Run(Run(t, a), b)
    decreases |a|
  {
    if a == [] {
      assert a + b == b;
    } else {
      assert (a + b)[0] == a[0] && (a + b)[1..] == a[1..] + b;
      RunAppend(Apply(t, a[0]), a[1..], b);
    }
  }

  lemma {:induction false} RunKeeps(t: Table, ops: seq<Op>)
    requires Inv(t)
    ensures Inv(Run(t, ops))
    decreases |ops|
  {
    hide Inv, Apply;
    if ops != [] {
      ApplyKeeps(t, ops[0]);
      RunKeeps(Apply(t, ops[0]), ops[1..]);
    }
  }

  /** In every run, the caller registered by the `k`-th operation gets exactly what it is owed for
      the operations after it. */
  lemma EveryCallerGetsItsDue(ops: seq<Op>, k: nat)
    requires k < |ops| && ops[k].Register?
    ensures var h := |Run(Empty, ops[..k]).outputs|;
            && h < |Run(Empty, ops).outputs|
            && Run(Empty, ops).outputs[h] == Owed(ops[k].kind, ops[k].id, ops[k + 1..])
  {
    hide Owed, Run;
    var before, id, kind := Run(Empty, ops[..k]), ops[k].id, ops[k].kind;
    var t := Registered(before, id, kind);
    assert ops == ops[..k] + ([ops[k]] + ops[k + 1..]);
    RunAppend(Empty, ops[..k], [ops[k]] + ops[k + 1..]);
    RunOne(before, ops[k], ops[k + 1..]);
    assert Inv(Empty);
    RunKeeps(Empty, ops[..k]);
    RegisterKeeps(before, id, kind);
    var h := |before.outputs|;
    RunOwes(t, ops[k + 1..], id, h);
    var owed := Owed(kind, id, ops[k + 1..]);
    assert t.outputs[h] == Output([], true);
    assert [] + owed.replies == owed.replies;
  }

  lemma RunOne(t: Table, op: Op, rest: seq<Op>)
    ensures Run(t, [op] + rest) == Run(Apply(t, op), rest)
  {
    assert ([op] + rest)[1..] == rest;
  }

  /** The first operation that ends the wait for an id. */
  predicate Ends(op: Op, id: Text)
  {
    op.CancelAll? || (!op.Item? && op.id == id)
  }

  function EndOf(id: Text, ops: seq<Op>): (e: nat)
    ensures e <= |ops|
    decreases |ops|
  {
    if ops == [] || Ends(ops[0], id) then 0 else 1 + EndOf(id, ops[1..])
  }

  function ItemsOf(id: Text, ops: seq<Op>): seq<Reply>
    decreases |ops|
  {
    if ops == [] then []
    else (if ops[0].Item? && ops[0].id == id then [Ok(ops[0].item)] else []) + ItemsOf(id, ops[1..])
  }

  /** The reply that goes with the end of a wait: an error reaches either kind of caller, a result only
      an invocation. */
  function Ending(kind: Kind, op: Op): seq<Reply>
  {
    match op
    case Complete(_, Err(error)) => [Err(error)]
    case Complete(_, Ok(value)) => if kind == Stream then [] else [Ok(value)]
    case CancelAll(error) => [Err(error)]
    case _ => []
  }

  /** An invocation gets at most one result. A stream gets its items in order of arrival, up to
      the end of its wait, then at most one error, and nothing after. */
  lemma {:induction false} OwedMeans(kind: Kind, id: Text, ops: seq<Op>)
    ensures var e := EndOf(id, ops);
            var items := if kind == Stream then ItemsOf(id, ops[..e]) else [];
            Owed(kind, id, ops) == Output(items + (if e < |ops| then Ending(kind, ops[e]) else []), e == |ops|)
    decreases |ops|
  {
    hide Owed, EndOf, ItemsOf, Ending, Ends;
    OwedFirst(kind, id, ops);
    if ops != [] {
      var e, rest := EndOf(id, ops), ops[1..];
      if Ends(ops[0], id) {
        assert ops[..0] == [];
        OwedFirst(kind, id, ops[..0]);
      } else {
        OwedMeans(kind, id, rest);
        assert ops[..e][1..] == rest[..e - 1];
        OwedFirst(kind, id, ops[..e]);
      }
    } else {
      assert ops[..0] == [];
    }
  }

  lemma OwedFirst(kind: Kind, id: Text, ops: seq<Op>)
    ensures ops == [] ==> EndOf(id, ops) == 0 && ItemsOf(id, ops) == [] && Owed(kind, id, ops) == Output([], true)
    ensures ops != [] && Ends(ops[0], id) ==>
              EndOf(id, ops) == 0 && Owed(kind, id, ops) == Output(Ending(kind, ops[0]), false)
    ensures ops != [] && !Ends(ops[0], id) ==>
              var later := Owed(kind, id, ops[1..]);
              var item := if ops[0].Item? && ops[0].id == id then [Ok(ops[0].item)] else [];
              && EndOf(id, ops) == 1 + EndOf(id, ops[1..])
              && ItemsOf(id, ops) == item + ItemsOf(id, ops[1..])
              && Owed(kind, id, ops) == Output((if kind == Stream then item else []) + later.replies, later.open)
  {
    if ops != [] {
      var later := Owed(kind, id, ops[1..]);
      assert [] + later.replies == later.replies;
    }
  }

  lemma {:induction false} ItemsAreOk(id: Text, ops: seq<Op>)
    ensures forall r | r in ItemsOf(id, ops) :: r.Ok?
    decreases |ops|
  {
    if ops != [] {
      ItemsAreOk(id, ops[1..]);
    }
  }

  /** Errors come last and alone. */
  lemma {:induction false} AtMostOneError(kind: Kind, id: Text, ops: seq<Op>)
    ensures var owed := Owed(kind, id, ops);
            && (kind == Single ==> |owed.replies| <= 1)
            && (forall i | 0 <= i < |owed.replies| - 1 :: owed.replies[i].Ok?)
            && (owed.open ==> forall r | r in owed.replies :: r.Ok?)
  {
    OwedMeans(kind, id, ops);
    var e := EndOf(id, ops);
    ItemsAreOk(id, ops[..e]);
    assert forall i | 0 <= i < |ItemsOf(id, ops[..e])| :: ItemsOf(id, ops[..e])[i] in ItemsOf(id, ops[..e]);
  }

  /** When a wait ends with a failed completion or a cancellation, the caller gets that error behind its
      items and nothing more, be it a stream or an invocation. */
  lemma ErrorReachesItsCaller(kind: Kind, id: Text, ops: seq<Op>, error: Text)
    requires var e := EndOf(id, ops);
             e < |ops| && (ops[e] == Complete(id, Err(error)) || ops[e] == CancelAll(error))
    ensures var items := if kind == Stream then ItemsOf(id, ops[..EndOf(id, ops)]) else [];
            Owed(kind, id, ops) == Output(items + [Err(error)], false)
  {
    hide Owed, ItemsOf, EndOf;
    OwedMeans(kind, id, ops);
  }

  /** Cancelling empties the table and gives exactly one error to everyone in it. */
  lemma {:induction false} CancelAnswersEachOnce(t: Table, error: Text)
    requires Inv(t)
    ensures var u := Cancelled(t, error);
            && u.pending == map[] && |u.outputs| == |t.outputs|
            && (forall id | id in t.pending ::
                  u.outputs[t.pending[id].handle] == Then(t.outputs[t.pending[id].handle], Output([Err(error)], false)))
            && (forall h | 0 <= h < |t.outputs| && h !in Held(t.pending) :: u.outputs[h] == t.outputs[h])
            && (forall h | 0 <= h < |t.outputs| :: !u.outputs[h].open)
  {
    forall id | id in t.pending
      ensures Cancelled(t, error).outputs[t.pending[id].handle]
              == Then(t.outputs[t.pending[id].handle], Output([Err(error)], false))
    {
      ApplyOwes(t, CancelAll(error), id, t.pending[id].handle);
    }
  }

  /** When an id is used again while the first caller still waits, as after a resume that keeps
      the table but restarts the ids, the first caller gets nothing and the second one the
      result that belongs to the first. */
  lemma ReusedIdCrosses(id: Text, result: Reply)
    ensures var t := Run(Empty, [Register(id, Single), Register(id, Single), Complete(id, result)]);
            |t.outputs| == 2 && t.outputs[0] == Output([], false) && t.outputs[1] == Output([result], false)
  {
    hide Run, Apply, Owed;
    var ops := [Register(id, Single), Register(id, Single), Complete(id, result)];
    EveryCallerGetsItsDue(ops, 0);
    EveryCallerGetsItsDue(ops, 1);
    assert ops[..0] == [] && ops[..1] == [ops[0]] + [];
    RunNothing(Empty);
    RunOne(Empty, ops[0], []);
    RunNothing(Apply(Empty, ops[0]));
    ThreeOps(ops[0], ops[1], ops[2]);
    OwedMeans(Single, id, ops[1..]);
    OwedMeans(Single, id, ops[2..]);
    assert EndOf(id, ops[1..]) == 0 && EndOf(id, ops[2..]) == 0;
    OutputsGrow(id, result);
  }

  lemma RunSingle(t: Table, op: Op)
    ensures Run(t, [op]) == Apply(t, op)
  {
    hide Run, Apply;
    assert [op] == [op] + [];
    RunOne(t, op, []);
    RunNothing(Apply(t, op));
  }

  lemma RunNothing(t: Table)
    ensures Run(t, []) == t
  {
  }

  lemma ThreeOps(a: Op, b: Op, c: Op)
    ensures Run(Empty, [a, b, c]) == Apply(Apply(Apply(Empty, a), b), c)
  {
    hide Run, Apply;
    assert [a, b, c] == [a] + [b, c] && [b, c] == [b] + [c] && [c] == [c] + [];
    RunOne(Empty, a, [b, c]);
    RunOne(Apply(Empty, a), b, [c]);
    RunOne(Apply(Apply(Empty, a), b), c, []);
    RunNothing(Apply(Apply(Apply(Empty, a), b), c));
  }

  lemma OutputsGrow(id: Text, result: Reply)
    ensures |Apply(Empty, Register(id, Single)).outputs| == 1
    ensures |Apply(Apply(Apply(Empty, Register(id, Single)), Register(id, Single)), Complete(id, result)).outputs| == 2
  {
  }
}
