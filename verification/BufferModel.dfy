/**
 The state of one stateful-reconnect buffer and what each of its operations does to it.

 The two-party protocol is stated over these values; class `MessageBuffer` updates the same
 fields in place and is proved to follow them.
 */
module BufferModel {
  import opened Basics

  /** A buffered invocation message. `waiter` is an unresolved backpressure sender. */
  datatype Item = Item(message: Bytes, id: int, waiter: bool)

  /** What travels between the two ends. `Data` stands for the five invocation message types,
      `Control` for the uncounted ones that never touch the buffer (Ping, Close). */
  datatype Frame =
    | Data(payload: Bytes)
    | Ack(id: int)
    | Sequence(id: int)
    | Control

  /** The fields of a buffer. `timer` is the scheduled acknowledgement with the transport it
      captured; `issued` and `signalled` log the ids whose send returned a backpressure
      receiver and those whose receiver was resolved. */
  datatype Buffer = Buffer(
    capacity: nat,
    messages: seq<Item>,
    total: int,
    waiting: bool,
    next: int,
    latest: int,
    byteCount: nat,
    reconnecting: bool,
    timer: Option<nat>,
    issued: seq<int>,
    signalled: seq<int>)

  function Empty(capacity: nat): Buffer
  {
    Buffer(capacity, [], 0, false, 1, 0, 0, false, None, [], [])
  }

  /** Total length of the buffered messages. */
  function SumLen(items: seq<Item>): nat
  {
    if items == [] then 0 else |items[0].message| + SumLen(items[1..])
  }

  /** Ids of the items that still hold a backpressure sender, oldest first. */
  function Waiters(items: seq<Item>): seq<int>
  {
    if items == [] then []
    else (if items[0].waiter then [items[0].id] else []) + Waiters(items[1..])
  }

  function Relieved(items: seq<Item>): (r: seq<Item>)
    ensures |r| == |items|
    ensures forall i | 0 <= i < |r| :: r[i] == items[i].(waiter := false)
  {
    if items == [] then [] else [items[0].(waiter := false)] + Relieved(items[1..])
  }

  /** Number of messages the peer has acknowledged. */
  function Base(b: Buffer): int
  {
    b.total - |b.messages|
  }

  ghost predicate Increasing(ids: seq<int>)
  {
    forall i, j | 0 <= i < j < |ids| :: ids[i] < ids[j]
  }

  /** Contiguous ids from `base` on. */
  ghost predicate Numbered(messages: seq<Item>, base: int)
  {
    0 <= base && forall i | 0 <= i < |messages| :: messages[i].id == base + 1 + i
  }

  /** A pending waiter means a full buffer. */
  ghost predicate HeldBack(messages: seq<Item>, byteCount: nat, capacity: nat)
  {
    byteCount < capacity ==> forall i | 0 <= i < |messages| :: !messages[i].waiter
  }

  /** Every waiter handed out has been signalled or is pending, in this order. */
  ghost predicate Accounted(issued: seq<int>, signalled: seq<int>, messages: seq<Item>)
  {
    issued == signalled + Waiters(messages)
  }

  ghost predicate Ordered(issued: seq<int>, total: int)
  {
    Increasing(issued) && forall i | 0 <= i < |issued| :: issued[i] <= total
  }

  /** What every operation keeps: the buffer is exactly the contiguous ids Base+1..total, the
      byte counter is the sum of the buffered lengths, a pending waiter means a full buffer,
      and the issued waiters are the signalled ones followed by the pending ones. */
  ghost predicate Valid(b: Buffer)
  {
    && Numbered(b.messages, Base(b))
    && b.byteCount == SumLen(b.messages)
    && HeldBack(b.messages, b.byteCount, b.capacity)
    && Accounted(b.issued, b.signalled, b.messages)
    && Ordered(b.issued, b.total)
  }

  // ---- operations -------------------------------------------------------------------------

  /** The locked part of `send` for an invocation message. */
  function Submitted(b: Buffer, message: Bytes): Buffer
  {
    var bytes := b.byteCount + |message|;
    var full := bytes >= b.capacity;
    b.(total := b.total + 1,
       byteCount := bytes,
       messages := b.messages + [Item(message, b.total + 1, full)],
       issued := if full then b.issued + [b.total + 1] else b.issued)
  }

  /** How many buffered messages an acknowledgement of `id` covers. */
  function Covered(b: Buffer, id: int): (k: nat)
    ensures k <= |b.messages|
  {
    if id <= Base(b) then 0 else if id >= b.total then |b.messages| else id - Base(b)
  }

  function SaturatingSub(a: nat, b: nat): nat
  {
    if b <= a then a - b else 0
  }

  function Acked(b: Buffer, id: int): Buffer
  {
    var k := Covered(b, id);
    var bytes := SaturatingSub(b.byteCount, SumLen(b.messages[..k]));
    var rest := b.messages[k..];
    var freed := bytes < b.capacity;
    b.(messages := if freed then Relieved(rest) else rest,
       byteCount := bytes,
       signalled := b.signalled + Waiters(b.messages[..k]) + (if freed then Waiters(rest) else []))
  }

  function Scheduled(b: Buffer, transport: nat): Buffer
  {
    if b.timer.Some? then b else b.(timer := Some(transport))
  }

  /** Counting one incoming invocation message; the flag says whether it is processed. */
  function Counted(b: Buffer, transport: nat): (Buffer, bool)
  {
    var c := b.(next := b.next + 1);
    if b.next > b.latest then (Scheduled(c.(latest := b.next), transport), true)
    else if b.next == b.latest then (Scheduled(c, transport), false)
    else (c, false)
  }

  /** `should_process_message`: while waiting only a Sequence passes; otherwise counted messages
      are counted and everything else passes. */
  function Gate(b: Buffer, counted: bool, sequence: bool, transport: nat): (Buffer, bool)
  {
    if b.waiting then (b, sequence)
    else if !counted then (b, true)
    else Counted(b, transport)
  }

  function Disconnected(b: Buffer): Buffer
  {
    b.(reconnecting := true, waiting := true)
  }

  function FirstId(b: Buffer): int
  {
    if b.messages == [] then b.total + 1 else b.messages[0].id
  }

  function DataFrames(items: seq<Item>): (r: seq<Frame>)
    ensures |r| == |items|
    ensures forall i | 0 <= i < |r| :: r[i] == Data(items[i].message)
  {
    if items == [] then [] else [Data(items[0].message)] + DataFrames(items[1..])
  }

  /** Everything a complete resend writes. */
  function ResendFrames(b: Buffer): seq<Frame>
  {
    [Sequence(FirstId(b))] + DataFrames(b.messages)
  }

  // ---- the operations keep Valid ------------------------------------------------------------

  lemma {:induction false} SumLenSplit(items: seq<Item>, k: nat)
    requires k <= |items|
    ensures SumLen(items) == SumLen(items[..k]) + SumLen(items[k..])
  {
    if k == 0 {
      assert items[k..] == items;
    } else {
      assert items[..k][1..] == items[1..][..k - 1];
      assert items[k..] == items[1..][k - 1..];
      SumLenSplit(items[1..], k - 1);
    }
  }

  lemma {:induction false} WaitersSplit(items: seq<Item>, k: nat)
    requires k <= |items|
    ensures Waiters(items) == Waiters(items[..k]) + Waiters(items[k..])
  {
    if k == 0 {
      assert items[k..] == items;
    } else {
      assert items[..k][1..] == items[1..][..k - 1];
      assert items[k..] == items[1..][k - 1..];
      WaitersSplit(items[1..], k - 1);
    }
  }

  lemma {:induction false} RelievedFacts(items: seq<Item>)
    ensures SumLen(Relieved(items)) == SumLen(items)
    ensures Waiters(Relieved(items)) == []
  {
    if items != [] {
      assert Relieved(items)[1..] == Relieved(items[1..]);
      RelievedFacts(items[1..]);
    }
  }

  lemma OneItem(item: Item)
    ensures SumLen([item]) == |item.message|
    ensures Waiters([item]) == if item.waiter then [item.id] else []
  {
    var none: seq<Item> := [item][1..];
    assert none == [] && SumLen(none) == 0 && Waiters(none) == [];
  }

  lemma AppendItem(items: seq<Item>, item: Item)
    ensures SumLen(items + [item]) == SumLen(items) + |item.message|
    ensures Waiters(items + [item]) == Waiters(items) + if item.waiter then [item.id] else []
  {
    var all, k := items + [item], |items|;
    SumLenSplit(all, k);
    WaitersSplit(all, k);
    OneItem(item);
    hide SumLen, Waiters;
    assert all[..k] == items && all[k..] == [item];
  }

  lemma OrderedMore(issued: seq<int>, total: int)
    requires Ordered(issued, total)
    ensures Ordered(issued, total + 1) && Ordered(issued + [total + 1], total + 1)
  {
  }

  lemma HeldBackMore(messages: seq<Item>, byteCount: nat, capacity: nat, item: Item)
    requires HeldBack(messages, byteCount, capacity)
    ensures var bytes := byteCount + |item.message|;
            item.waiter == (bytes >= capacity) ==> HeldBack(messages + [item], bytes, capacity)
  {
  }

  /** Buffering keeps the invariant; the new message gets the next id, and a receiver is
      handed out exactly when the buffer is now full. */
  lemma SubmittedValid(b: Buffer, message: Bytes)
    requires Valid(b)
    ensures Valid(Submitted(b, message))
    ensures Base(Submitted(b, message)) == Base(b)
    ensures var c := Submitted(b, message);
            c.issued != b.issued <==> c.byteCount >= c.capacity
  {
    var item := Item(message, b.total + 1, b.byteCount + |message| >= b.capacity);
    AppendItem(b.messages, item);
    OrderedMore(b.issued, b.total);
    HeldBackMore(b.messages, b.byteCount, b.capacity, item);
    Associative(b.signalled, Waiters(b.messages), [item.id]);
    hide SumLen, Waiters, Ordered, HeldBack;
    assert item.waiter ==> |b.issued + [item.id]| != |b.issued|;
  }

  lemma NumberedTail(messages: seq<Item>, base: int, k: nat)
    requires Numbered(messages, base) && k <= |messages|
    ensures Numbered(messages[k..], base + k) && Numbered(Relieved(messages[k..]), base + k)
  {
    hide Relieved;
  }

  lemma HeldBackTail(messages: seq<Item>, byteCount: nat, capacity: nat, k: nat, bytes: nat)
    requires HeldBack(messages, byteCount, capacity) && k <= |messages|
    ensures HeldBack(Relieved(messages[k..]), bytes, capacity)
    ensures bytes >= capacity ==> HeldBack(messages[k..], bytes, capacity)
  {
    hide Relieved;
  }

  /** Dropping the first `k` items signals their waiters; with room, all of them. */
  lemma AccountedTail(issued: seq<int>, signalled: seq<int>, messages: seq<Item>, k: nat)
    requires Accounted(issued, signalled, messages) && k <= |messages|
    ensures var first, rest := Waiters(messages[..k]), messages[k..];
            && Accounted(issued, signalled + first, rest)
            && Accounted(issued, signalled + first + Waiters(rest), Relieved(rest))
            && signalled + first + Waiters(rest) == issued
  {
    WaitersSplit(messages, k);
    RelievedFacts(messages[k..]);
    hide Waiters, Relieved;
    Associative(signalled, Waiters(messages[..k]), Waiters(messages[k..]));
    assert issued + [] == issued;
  }

  lemma CoveredListed(messages: seq<Item>, k: nat, i: nat)
    requires i < k <= |messages| && messages[i].waiter
    ensures messages[i].id in Waiters(messages[..k])
  {
    assert messages[..k][i] == messages[i];
    WaiterListed(messages[..k], i);
  }

  /** What an acknowledgement does to the fields. */
  lemma AckedFields(b: Buffer, id: int)
    requires b.byteCount == SumLen(b.messages)
    ensures var c, k := Acked(b, id), Covered(b, id);
            var rest := b.messages[k..];
            var freed := c.byteCount < c.capacity;
            && c.total == b.total && c.capacity == b.capacity && c.issued == b.issued
            && c.byteCount + SumLen(b.messages[..k]) == b.byteCount
            && c.byteCount == SumLen(c.messages)
            && |c.messages| == |b.messages| - k
            && c.messages == (if freed then Relieved(rest) else rest)
            && c.signalled
               == b.signalled + Waiters(b.messages[..k]) + (if freed then Waiters(rest) else [])
            && b.signalled <= c.signalled
  {
    var k := Covered(b, id);
    SumLenSplit(b.messages, k);
    RelievedFacts(b.messages[k..]);
    hide SumLen, Waiters, Relieved;
  }

  /** Acknowledging any id at all keeps the invariant, drops exactly the covered prefix without
      saturating the byte counter, and leaves no waiter behind once there is room: no wakeup
      is lost. */
  lemma AckedValid(b: Buffer, id: int)
    requires Valid(b)
    ensures var c := Acked(b, id);
            && Valid(c)
            && Base(c) == Base(b) + Covered(b, id)
            && c.total == b.total
            && c.byteCount + SumLen(b.messages[..Covered(b, id)]) == b.byteCount
            && b.signalled <= c.signalled
            && (c.byteCount < c.capacity ==> c.signalled == c.issued)
            && |c.messages| == |b.messages| - Covered(b, id)
  {
    hide SumLen, Waiters, Relieved, Numbered, HeldBack, Accounted, Ordered, Acked;
    var k, c := Covered(b, id), Acked(b, id);
    AckedFields(b, id);
    NumberedTail(b.messages, Base(b), k);
    HeldBackTail(b.messages, b.byteCount, b.capacity, k, c.byteCount);
    AccountedTail(b.issued, b.signalled, b.messages, k);
    assert b.signalled + Waiters(b.messages[..k]) + [] == b.signalled + Waiters(b.messages[..k]);
  }

  /** An acknowledgement covers exactly the messages up to its id: their waiters are signalled, the
      others keep their content, and their waiters too unless there is room again. */
  lemma AckedItems(b: Buffer, id: int)
    requires Valid(b)
    ensures var c, k := Acked(b, id), Covered(b, id);
            && (forall i | 0 <= i < |b.messages| :: b.messages[i].id <= id <==> i < k)
            && (forall i | 0 <= i < k && b.messages[i].waiter :: b.messages[i].id in c.signalled)
            && (forall i | 0 <= i < |c.messages| ::
                  c.messages[i].message == b.messages[k + i].message && c.messages[i].id == b.messages[k + i].id)
            && (forall i | 0 <= i < |c.messages| ::
                  c.messages[i].waiter <==> b.messages[k + i].waiter && c.byteCount >= c.capacity)
  {
    var c, k := Acked(b, id), Covered(b, id);
    forall i | 0 <= i < k && b.messages[i].waiter ensures b.messages[i].id in c.signalled {
      CoveredListed(b.messages, k, i);
    }
    hide SumLen, Waiters, Relieved, HeldBack, Accounted, Ordered;
  }

  lemma {:induction false} WaiterListed(items: seq<Item>, i: nat)
    requires i < |items| && items[i].waiter
    ensures items[i].id in Waiters(items)
  {
    if i > 0 {
      WaiterListed(items[1..], i - 1);
    }
  }

  /** The receive side, the timer and the reconnect flag do not matter to the invariant. */
  lemma CountersValid(b: Buffer, c: Buffer)
    requires Valid(b)
    requires c == b.(timer := c.timer, next := c.next, latest := c.latest, waiting := c.waiting,
                     reconnecting := c.reconnecting)
    ensures Valid(c)
  {
    hide SumLen, Numbered, HeldBack, Accounted, Ordered;
  }
}
