/**
 What the conditions of the theorems are for. In general: a message that overtakes another one in
 flight, and a completion that bypasses the buffer, each corrupt what the peer processes, in every
 world where the peer reads them. And runs that end in a wrong state, for arbitrary messages: one
 for each of these, and one for a send that fails after the transport was reopened.
 */
module ProtocolLimits {
  import opened Basics
  import opened BufferModel
  import opened Protocol
  import opened ProtocolInvariant
  import opened ProtocolTheorems
  import opened ProtocolRecovery
  import opened ProtocolStranded
  import opened ProtocolCompleteness

  // ---- reading a resend ---------------------------------------------------------------------

  /** An endpoint that has lost its transport and has nothing in flight. */
  ghost predicate Waiting(n: Node, epoch: nat, items: seq<Item>, total: int)
  {
    && n.epoch < epoch && epoch !in n.cut && At(n.out, epoch) == []
    && n.inflight == [] && n.buf.messages == items && n.buf.total == total
  }

  /** Both ends reopen, the left one resends. */
  function Resumption(epoch: nat, frames: nat): seq<Action>
  {
    [Action(true, Reopen(epoch))] + ([Action(false, Reopen(epoch))] + ([Action(true, Resend(frames))] + []))
  }

  lemma Resumes(w: World, epoch: nat, items: seq<Item>, total: int)
    requires Waiting(w.left, epoch, items, total) && w.right.epoch < epoch
    ensures var v := Exec(w, Resumption(epoch, |items| + 1));
            && v.left.epoch == epoch && v.right.epoch == epoch
            && v.left.history == w.left.history && v.right.delivered == w.right.delivered
            && At(v.left.out, epoch) == ResendFrames(w.left.buf)
            && v.right.buf == Disconnected(w.right.buf)
            && !v.left.buf.reconnecting && v.left.inflight == [] && v.left.cut == w.left.cut
  {
    var a1, a2, a3 := Action(true, Reopen(epoch)), Action(false, Reopen(epoch)), Action(true, Resend(|items| + 1));
    var w1 := Perform(w, a1);
    var w2 := Perform(w1, a2);
    var w3 := Perform(w2, a3);
    ExecStep(w3, a3, []);
    ExecStep(w2, a3, []);
    ExecStep(w1, a2, [a3] + []);
    ExecStep(w, a1, [a2] + ([a3] + []));
    assert w2.left == AfterReopen(w.left, epoch);
    assert ResendFrames(w2.left.buf) == ResendFrames(w.left.buf);
    assert w3.left == AfterResend(w2.left, |items| + 1);
    PutFacts(w2.left, epoch, ResendFrames(w.left.buf), epoch);
  }

  function Reads(k: nat): seq<Action>
  {
    if k == 0 then [] else [Action(false, Receive)] + Reads(k - 1)
  }

  /** The right end reads the head of what the left end has written. */
  lemma ReadsOne(w: World, k: nat)
    requires At(w.left.out, w.right.epoch) != [] && k > 0
    ensures Exec(w, Reads(k))
            == Exec(World(Popped(w.left, w.right.epoch),
                          Dispatched(w.right, At(w.left.out, w.right.epoch)[0])), Reads(k - 1))
  {
    ExecStep(w, Action(false, Receive), Reads(k - 1));
  }

  /** After a resume the right end reads a Sequence and two messages, having counted one. */
  lemma ReadsSequenceAndTwo(w: World, e: nat, a: Bytes, b: Bytes)
    requires w.right.epoch == e && At(w.left.out, e) == [Sequence(1), Data(a), Data(b)]
    requires w.right.buf.waiting && w.right.buf.next == 2 && w.right.buf.latest == 1
    ensures var v := Exec(w, Reads(3));
            && v.right.delivered == w.right.delivered + [b]
            && v.left.history == w.left.history && At(v.left.out, e) == []
            && v.left.epoch == w.left.epoch && v.right.epoch == e
  {
    hide Exec, Reads;
    var f := At(w.left.out, e);
    var w1 := World(Popped(w.left, e), Dispatched(w.right, f[0]));
    assert At(w1.left.out, e) == f[1..];
    var w2 := World(Popped(w1.left, e), Dispatched(w1.right, f[1]));
    assert At(w2.left.out, e) == f[1..][1..];
    var w3 := World(Popped(w2.left, e), Dispatched(w2.right, f[2]));
    ReadsOne(w, 3);
    ReadsOne(w1, 2);
    ReadsOne(w2, 1);
    ReadsNone(w3);
    assert w1.right.buf.next == 1 && !w1.right.buf.waiting;
    assert w2.right.delivered == w.right.delivered;
  }

  lemma ReadsNone(w: World)
    ensures Exec(w, Reads(0)) == w
  {
  }

  // ---- a frame behind what the protocol wrote -----------------------------------------------

  /** An end after dispatching some frames. */
  function ReadOff(r: Node, frames: seq<Frame>): Node
    decreases |frames|
  {
    if frames == [] then r else ReadOff(Dispatched(r, frames[0]), frames[1..])
  }

  lemma {:induction false} ReadOffLast(r: Node, frames: seq<Frame>, f: Frame)
    ensures ReadOff(r, frames + [f]) == Dispatched(ReadOff(r, frames), f)
    decreases |frames|
  {
    hide Dispatched;
    var all := frames + [f];
    if frames == [] {
      assert all[0] == f && all[1..] == [];
    } else {
      assert all[0] == frames[0] && all[1..] == frames[1..] + [f];
      ReadOffLast(Dispatched(r, frames[0]), frames[1..], f);
    }
  }

  /** The right end reads `k` frames: its state is that of dispatching them. */
  lemma {:induction false} ReadsFold(w: World, k: nat)
    requires k <= |At(w.left.out, w.right.epoch)|
    ensures var v, c := Exec(w, Reads(k)), At(w.left.out, w.right.epoch);
            && v.right == ReadOff(w.right, c[..k]) && At(v.left.out, w.right.epoch) == c[k..]
            && v.left == w.left.(out := v.left.out)
            && v.right.epoch == w.right.epoch
    decreases k
  {
    hide Dispatched, Exec, Reads;
    var e, c := w.right.epoch, At(w.left.out, w.right.epoch);
    if k == 0 {
      ReadsNone(w);
      assert c[..0] == [] && c[0..] == c;
    } else {
      var next := World(Popped(w.left, e), Dispatched(w.right, c[0]));
      ReadsOne(w, k);
      DispatchedFields(w.right, c[0]);
      assert At(next.left.out, e) == c[1..];
      ReadsFold(next, k - 1);
      assert c[..k][0] == c[0] && c[..k][1..] == c[1..][..k - 1] && c[k..] == c[1..][k - 1..];
    }
  }

  /** The right end does not wait, or has the Sequence ahead of it. */
  ghost predicate Awake(w: World)
  {
    w.right.buf.waiting ==> SequencePending(Core(At(w.left.out, w.right.epoch)))
  }

  lemma ReceiveAwake(s: Node, r: Node)
    requires Link(s, r) && Awake(World(s, r)) && At(s.out, r.epoch) != []
    ensures Awake(World(Popped(s, r.epoch), Dispatched(r, At(s.out, r.epoch)[0])))
  {
    hide Link, Core, At, Dispatched, SequencePending;
    DispatchedFields(r, At(s.out, r.epoch)[0]);
    ReadsOn(s, r);
  }

  lemma PerformReads(w: World)
    requires Inv(w) && Awake(w)
    ensures var a := Action(false, Receive);
            var v := Perform(w, a);
            Orderly(w, a) && Inv(v) && Awake(v)
  {
    hide Local, Link, Awake, Dispatched;
    PerformKeeps(w, Action(false, Receive));
    if At(w.left.out, w.right.epoch) != [] {
      ReceiveAwake(w.left, w.right);
    }
  }

  /** Reading keeps the invariant, and an end that can read on stays so. */
  lemma {:induction false} ReadsKeep(w: World, k: nat)
    requires Inv(w) && Awake(w)
    ensures Inv(Exec(w, Reads(k))) && Awake(Exec(w, Reads(k)))
    decreases k
  {
    hide Inv, Awake, Perform, Exec, Reads;
    if k == 0 {
      ReadsNone(w);
    } else {
      var a := Action(false, Receive);
      PerformReads(w);
      ReadsKeep(Perform(w, a), k - 1);
      ReadsSplit(k);
      ExecStep(w, a, Reads(k - 1));
    }
  }

  lemma ReadsSplit(k: nat)
    requires k > 0
    ensures Reads(k) == [Action(false, Receive)] + Reads(k - 1)
  {
  }

  /** An end that has read everything has processed everything that was sent. */
  lemma CaughtUp(s: Node, r: Node, id: int)
    requires Link(s, r) && At(s.out, r.epoch) == [] && !r.buf.waiting && r.epoch !in s.cut
    requires ContinuesOn(s, r.buf.next, r.buf.waiting, r.epoch, r.epoch, id) && |Sent(s)| == id - 1
    ensures r.buf.next == id && r.buf.latest == id - 1 && r.delivered == Sent(s)
  {
    hide ChannelsOk, TailOk, AcksOk, SyncOk, Sent;
    assert Core(At(s.out, r.epoch)) == [] && Payloads([]) == [];
    assert Sent(s)[..id - 1] == Sent(s);
  }

  /** The id of the next message the sender writes to its transport. */
  function NextWritten(s: Node): int
  {
    if s.inflight != [] then s.inflight[0].id else s.buf.total + 1
  }

  /** The left end writes its next message to the open transport `e`, which the right one is still to
      reach, or reads without waiting in vain. */
  ghost predicate Readable(w: World, e: nat)
  {
    && e !in w.left.cut && w.right.epoch <= e
    && (if w.left.inflight != [] then w.left.inflight[0].epoch == e
        else w.left.epoch == e && !w.left.buf.reconnecting)
    && (w.right.epoch == e ==> Awake(w))
  }

  /** The right end reopens on transport `e` if it is not there yet. */
  function Arrival(r: Node, e: nat): seq<Action>
  {
    if r.epoch < e then [Action(false, Reopen(e))] else []
  }

  function Arrived(w: World, e: nat): World
  {
    if w.right.epoch < e then w.(right := AfterReopen(w.right, e)) else w
  }

  lemma ArrivalLeads(w: World, e: nat)
    ensures Exec(w, Arrival(w.right, e)) == Arrived(w, e)
  {
    var a := Action(false, Reopen(e));
    ExecStep(w, a, []);
    ExecStep(Arrived(w, e), a, []);
    hide Exec;
    assert [a] + [] == [a];
  }

  lemma ArrivalKeeps(w: World, e: nat)
    requires Inv(w) && Readable(w, e)
    ensures Inv(Arrived(w, e)) && Readable(Arrived(w, e), e) && Arrived(w, e).right.epoch == e
  {
    hide Local, CountsOk, ChannelsOk, AcksOk, SyncOk, Core;
    if w.right.epoch < e {
      PerformKeeps(w, Action(false, Reopen(e)));
      assert TailOk(w.left, w.right.buf.next, w.right.buf.waiting, w.right.epoch);
      hide Link;
    }
  }

  lemma NextIsNextWritten(s: Node, r: Node)
    requires Local(s) && Link(s, r) && Readable(World(s, r), r.epoch) && At(s.out, r.epoch) == []
    ensures !r.buf.waiting
    ensures r.buf.next == NextWritten(s) && r.buf.latest == NextWritten(s) - 1
    ensures r.delivered == s.history[..NextWritten(s) - 1]
  {
    hide Valid, OutOk, LogOk, ChannelsOk, AcksOk, SyncOk, CountsOk, ContinuesOn;
    assert |Sent(s)| == NextWritten(s) - 1 && Sent(s) == s.history[..NextWritten(s) - 1];
    assert Core([]) == [];
    CaughtUp(s, r, NextWritten(s));
  }

  /** Reading everything, and then one more message that was written out of turn. */
  lemma ReadsOneTooMany(w: World, e: nat, v: World, d: Bytes)
    requires Inv(w) && Readable(w, e)
    requires v.right == w.right && At(v.left.out, e) == At(w.left.out, e) + [Data(d)]
    ensures var id := NextWritten(w.left);
            var r := Exec(v, Arrival(w.right, e) + Reads(|At(w.left.out, e)| + 1)).right;
            && 1 <= id <= |w.left.history| + 1
            && r.delivered == w.left.history[..id - 1] + [d]
            && r.buf.next == id + 1 && r.buf.latest == id
  {
    hide Exec, Reads, Dispatched, Inv, Readable, ReadOff, Arrival;
    var c, x, y := At(w.left.out, e), Arrived(w, e), Arrived(v, e);
    ArrivalLeads(v, e);
    ArrivalKeeps(w, e);
    ExecAppend(v, Arrival(w.right, e), Reads(|c| + 1));
    ReadsFold(y, |c| + 1);
    assert (c + [Data(d)])[..|c| + 1] == c + [Data(d)];
    ReadOffLast(x.right, c, Data(d));
    AllRead(x);
    DataCounted(ReadOff(x.right, c), Data(d));
  }

  /** The left end writes a message out of turn, the right one arrives and reads everything. */
  function OutOfTurn(w: World, a: Action, e: nat): seq<Action>
  {
    [a] + (Arrival(w.right, e) + Reads(|At(w.left.out, e)| + 1))
  }

  /** What the right end has processed then: the message takes the next number. */
  lemma TakesTheNumber(w: World, a: Action, e: nat, d: Bytes)
    requires Inv(w) && Readable(w, e)
    requires Perform(w, a).right == w.right
    requires At(Perform(w, a).left.out, e) == At(w.left.out, e) + [Data(d)]
    ensures var id := NextWritten(w.left);
            var r := Exec(w, OutOfTurn(w, a, e)).right;
            && 1 <= id <= |w.left.history| + 1
            && r.delivered == w.left.history[..id - 1] + [d]
            && r.buf.next == id + 1 && r.buf.latest == id
            && (r.delivered <= w.left.history <==> id <= |w.left.history| && d == w.left.history[id - 1])
  {
    hide Inv, Exec, Perform, Readable, Reads, Arrival, At, NextWritten;
    ReadsOneTooMany(w, e, Perform(w, a), d);
    ExecStep(w, a, Arrival(w.right, e) + Reads(|At(w.left.out, e)| + 1));
    PrefixIff(w.left.history, NextWritten(w.left), d);
  }

  lemma PrefixIff(history: seq<Bytes>, f: int, d: Bytes)
    requires 1 <= f <= |history| + 1
    ensures history[..f - 1] + [d] <= history <==> f <= |history| && d == history[f - 1]
  {
    var got := history[..f - 1] + [d];
    assert got[f - 1] == d;
    if f <= |history| && d == history[f - 1] {
      assert history[..f] == got;
    }
  }

  /** The right end once it has read everything there is. */
  lemma AllRead(w: World)
    requires Inv(w) && Readable(w, w.right.epoch)
    ensures var id := NextWritten(w.left);
            var r := ReadOff(w.right, At(w.left.out, w.right.epoch));
            && 1 <= id <= |w.left.history| + 1 && !r.buf.waiting
            && r.buf.next == id && r.buf.latest == id - 1 && r.delivered == w.left.history[..id - 1]
  {
    hide Exec, Reads, Inv, ReadOff, Awake;
    var c := At(w.left.out, w.right.epoch);
    var k := |c|;
    ReadsFold(w, k);
    ReadsKeep(w, k);
    assert c[..k] == c && c[k..] == [];
    WorldNext(Exec(w, Reads(k)));
  }

  lemma WorldNext(u: World)
    requires Inv(u) && Readable(u, u.right.epoch) && At(u.left.out, u.right.epoch) == []
    ensures var id := NextWritten(u.left);
            && 1 <= id <= |u.left.history| + 1 && !u.right.buf.waiting
            && u.right.buf.next == id && u.right.buf.latest == id - 1 && u.right.delivered == u.left.history[..id - 1]
  {
    NextIsNextWritten(u.left, u.right);
    hide Link, Valid, OutOk, LogOk;
  }

  // ---- overlapping sends --------------------------------------------------------------------

  /** Whenever a send in flight is written before the first one, a peer that reads on, once it has
      reached the transport, processes it in the place of the first: what it has processed is a prefix
      of what was submitted if and only if the two messages are the same. */
  lemma OvertakingCorrupts(w: World, i: nat)
    requires Inv(w) && 1 <= i < |w.left.inflight| && Readable(w, w.left.inflight[0].epoch)
    ensures var f := w.left.inflight[0].id; 1 <= f && f + i <= |w.left.history|
    ensures var f := w.left.inflight[0];
            var r := Exec(w, OutOfTurn(w, Action(true, Transmit(i)), f.epoch)).right;
            && r.delivered == w.left.history[..f.id - 1] + [w.left.history[f.id - 1 + i]]
            && (r.delivered <= w.left.history <==> w.left.history[f.id - 1 + i] == w.left.history[f.id - 1])
  {
    hide Inv, Exec, Perform, OutOfTurn, At;
    var f := w.left.inflight[0];
    OvertakingWrites(w, i);
    hide Readable;
    TakesTheNumber(w, Action(true, Transmit(i)), f.epoch, w.left.history[f.id - 1 + i]);
  }

  /** Every other peer that has not left the transport behind is stranded: it reads on and processes
      nothing. */
  lemma OtherwiseStranded(w: World)
    requires Inv(w) && w.left.inflight != []
    requires var e := w.left.inflight[0].epoch;
             e !in w.left.cut && w.right.epoch <= e && !Readable(w, e)
    ensures StrandedIn(w, false)
  {
    hide Valid, HistoryOk, OutOk, LogOk, Link, Core;
  }

  lemma FlightsFollow(me: Node, i: nat)
    requires Local(me) && i < |me.inflight| && me.inflight[0].epoch !in me.cut
    ensures var f, g := me.inflight[0], me.inflight[i];
            1 <= f.id && g == Flight(f.id + i, f.epoch) && g.id <= |me.history|
  {
    hide Valid, OutOk, LogOk;
  }

  lemma OvertakingWrites(w: World, i: nat)
    requires Inv(w) && 1 <= i < |w.left.inflight| && w.left.inflight[0].epoch !in w.left.cut
    ensures 1 <= w.left.inflight[0].id && w.left.inflight[0].id + i <= |w.left.history|
    ensures var v := Perform(w, Action(true, Transmit(i)));
            var f := w.left.inflight[0];
            && v.right == w.right
            && At(v.left.out, f.epoch) == At(w.left.out, f.epoch) + [Data(w.left.history[f.id - 1 + i])]
  {
    hide Local, Link;
    FlightsFollow(w.left, i);
  }

  /** Two sends overlap and write in the other order; the second write gets through, is read,
      and the first fails. */
  function Overlap(a: Bytes, b: Bytes): seq<Action>
  {
    [Action(true, Submit(a))] + ([Action(true, Submit(b))] + ([Action(true, Transmit(1))]
    + ([Action(false, Receive)] + ([Action(true, TransmitFails(0, false))] + []))))
  }

  /** Two messages buffered while connected, both still to be written. */
  lemma TwoSubmitted(l: nat, a: Bytes, b: Bytes)
    ensures var n := AfterSubmit(AfterSubmit(Start(l), a), b);
            && n.inflight == [Flight(1, 0), Flight(2, 0)] && n.history == [a, b]
            && |n.buf.messages| == 2 && n.buf.total == 2
            && n.buf.messages[0].id == 1
            && DataFrames(n.buf.messages) == [Data(a), Data(b)]
            && n.epoch == 0 && n.cut == {} && n.out == map[] && !n.buf.reconnecting
  {
    var n := AfterSubmit(AfterSubmit(Start(l), a), b);
    assert n.buf.messages[0].message == a && n.buf.messages[1].message == b;
  }

  /** The endpoint after it has written the second message, and failed to write the first. */
  function Crossed(n: Node): Node
    requires n.inflight == [Flight(1, 0), Flight(2, 0)] && |n.history| == 2
  {
    var sent := AfterTransmit(n, 1);
    var read := sent.(out := sent.out[0 := []]);
    Severed(read.(inflight := []), 0, 0).(buf := Disconnected(n.buf))
  }

  lemma OverlapEffect(l: nat, r: nat, a: Bytes, b: Bytes)
    ensures var n := AfterSubmit(AfterSubmit(Start(l), a), b);
            && n.inflight == [Flight(1, 0), Flight(2, 0)] && n.history == [a, b]
            && Exec(Initial(l, r), Overlap(a, b)) == World(Crossed(n), Dispatched(Start(r), Data(b)))
  {
    var a1, a2, a3 := Action(true, Submit(a)), Action(true, Submit(b)), Action(true, Transmit(1));
    var a4, a5 := Action(false, Receive), Action(true, TransmitFails(0, false));
    TwoSubmitted(l, a, b);
    var n := AfterSubmit(AfterSubmit(Start(l), a), b);
    hide AfterSubmit, Dispatched, Exec;
    var w0 := Initial(l, r);
    var w1 := World(AfterSubmit(Start(l), a), Start(r));
    var w2 := World(n, Start(r));
    var w3 := World(AfterTransmit(n, 1), Start(r));
    assert At(w3.left.out, 0) == [Data(b)];
    var w4 := World(w3.left.(out := w3.left.out[0 := []]), Dispatched(Start(r), Data(b)));
    assert Perform(w3, a4) == w4;
    var w5 := World(Crossed(n), w4.right);
    assert Perform(w4, a5) == w5;
    ExecStep(w5, a5, []);
    ExecStep(w4, a5, []);
    ExecStep(w3, a4, [a5] + []);
    ExecStep(w2, a3, [a4] + ([a5] + []));
    ExecStep(w1, a2, [a3] + ([a4] + ([a5] + [])));
    ExecStep(w0, a1, [a2] + ([a3] + ([a4] + ([a5] + []))));
  }

  /** Sends that overlap may lose one message and deliver the other twice: with `a` and `b`
      submitted in this order, the peer processes `b` and then `b`. */
  lemma OverlappingSendsCorrupt(l: nat, r: nat, a: Bytes, b: Bytes)
    ensures var script := Overlap(a, b) + (Resumption(1, 3) + Reads(3));
            var v := Exec(Initial(l, r), script);
            && v.left.history == [a, b] && v.right.delivered == [b, b]
            && At(v.left.out, 1) == [] && v.left.epoch == v.right.epoch == 1
  {
    TwoSubmitted(l, a, b);
    OverlapEffect(l, r, a, b);
    var n := AfterSubmit(AfterSubmit(Start(l), a), b);
    hide Exec, Overlap, Resumption, Reads, AfterSubmit;
    var w := Exec(Initial(l, r), Overlap(a, b));
    assert Waiting(w.left, 1, n.buf.messages, 2);
    Resumes(w, 1, n.buf.messages, 2);
    ReadsSequenceAndTwo(Exec(w, Resumption(1, 3)), 1, a, b);
    ExecAppend(w, Resumption(1, 3), Reads(3));
    ExecAppend(Initial(l, r), Overlap(a, b), Resumption(1, 3) + Reads(3));
  }

  // ---- a completion that bypasses the buffer ------------------------------------------------

  /** Every client result that a peer reads takes the id of the next message the sender writes: what the
      peer has processed is a prefix of what was submitted if and only if that message has been
      submitted and is the same, and the peer holds it for a duplicate as soon as it is resent. */
  lemma BypassShiftsNumbering(w: World, c: Bytes)
    requires Inv(w) && Readable(w, w.left.epoch)
    ensures var id := NextWritten(w.left);
            var r := Exec(w, OutOfTurn(w, Action(true, ClientResult(c)), w.left.epoch)).right;
            && 1 <= id <= |w.left.history| + 1
            && r.delivered == w.left.history[..id - 1] + [c]
            && r.buf.latest == id && r.buf.next == id + 1
            && (r.delivered <= w.left.history <==> id <= |w.left.history| && c == w.left.history[id - 1])
  {
    var a := Action(true, ClientResult(c));
    hide Inv, Exec, OutOfTurn, NextWritten;
    assert Perform(w, a).right == w.right;
    assert At(Perform(w, a).left.out, w.left.epoch) == At(w.left.out, w.left.epoch) + [Data(c)];
    hide Perform, Readable, At;
    TakesTheNumber(w, a, w.left.epoch, c);
  }

  /** A client result goes out unbuffered and is read; then a send fails. */
  function Bypass(c: Bytes, a: Bytes): seq<Action>
  {
    [Action(true, ClientResult(c))] + ([Action(false, Receive)] + ([Action(true, Submit(a))]
    + ([Action(true, TransmitFails(0, false))] + [])))
  }

  lemma BypassSend(n: Node, a: Bytes)
    requires n.buf.messages == [] && n.buf.total == 0 && !n.buf.reconnecting && n.inflight == [] && n.history == []
    requires n.epoch == 0 && n.cut == {} && At(n.out, 1) == []
    ensures var m := AfterSubmit(n, a);
            m.inflight == [Flight(1, 0)] && m.history == [a]
    ensures var m := AfterTransmitFails(AfterSubmit(n, a), 0, false);
            && m.history == [a] && m.epoch == 0 && m.cut == {0} && At(m.out, 1) == [] && m.inflight == []
            && |m.buf.messages| == 1 && m.buf.total == 1 && ResendFrames(m.buf) == [Sequence(1), Data(a)]
  {
    var m := AfterSubmit(n, a);
    assert m.buf.messages[1..] == [];
    assert DataFrames(m.buf.messages) == [Data(a)];
  }

  /** The world after the client result was read. */
  function Bypassed(l: nat, r: nat, c: Bytes): World
  {
    var n := Put(Start(l), 0, [Data(c)]);
    World(n.(out := n.out[0 := []]), Dispatched(Start(r), Data(c)))
  }

  lemma BypassRead(l: nat, r: nat, c: Bytes)
    ensures var w := Perform(Initial(l, r), Action(true, ClientResult(c)));
            Perform(w, Action(false, Receive)) == Bypassed(l, r, c)
  {
    hide Dispatched;
    var n := Put(Start(l), 0, [Data(c)]);
    assert At(n.out, 0) == [Data(c)];
  }

  lemma BypassFails(w: World, a: Bytes)
    requires w.left.buf.messages == [] && w.left.buf.total == 0 && !w.left.buf.reconnecting
    requires w.left.inflight == [] && w.left.history == [] && w.left.epoch == 0 && w.left.cut == {}
    requires At(w.left.out, 1) == []
    ensures var w3 := Perform(w, Action(true, Submit(a)));
            Perform(w3, Action(true, TransmitFails(0, false)))
            == World(AfterTransmitFails(AfterSubmit(w.left, a), 0, false), w.right)
  {
    BypassSend(w.left, a);
    hide AfterSubmit, AfterTransmitFails;
  }

  lemma BypassEffect(l: nat, r: nat, c: Bytes, a: Bytes)
    ensures var v := Exec(Initial(l, r), Bypass(c, a));
            && v.right == Dispatched(Start(r), Data(c))
            && v.left.history == [a]
            && v.left.epoch == 0 && v.left.cut == {0} && At(v.left.out, 1) == [] && v.left.inflight == []
            && |v.left.buf.messages| == 1 && v.left.buf.total == 1
            && ResendFrames(v.left.buf) == [Sequence(1), Data(a)]
  {
    var a1, a2 := Action(true, ClientResult(c)), Action(false, Receive);
    var a3, a4 := Action(true, Submit(a)), Action(true, TransmitFails(0, false));
    var w0, w2 := Initial(l, r), Bypassed(l, r, c);
    BypassRead(l, r, c);
    BypassSend(w2.left, a);
    BypassFails(w2, a);
    hide Dispatched, Exec, Perform, AfterSubmit, AfterTransmitFails, Put, ResendFrames;
    var w1, w3 := Perform(w0, a1), Perform(w2, a3);
    ExecStep(Perform(w3, a4), a4, []);
    ExecStep(w3, a4, []);
    ExecStep(w2, a3, [a4] + []);
    ExecStep(w1, a2, [a3] + ([a4] + []));
    ExecStep(w0, a1, [a2] + ([a3] + ([a4] + [])));
  }

  lemma ReadsSequenceAndOne(w: World, e: nat, a: Bytes)
    requires w.right.epoch == e && At(w.left.out, e) == [Sequence(1), Data(a)]
    requires w.right.buf.waiting && w.right.buf.next == 2 && w.right.buf.latest == 1
    ensures var v := Exec(w, Reads(2));
            && v.right.delivered == w.right.delivered && !v.right.buf.waiting
            && v.left.history == w.left.history && At(v.left.out, e) == []
            && v.left.epoch == w.left.epoch && v.right.epoch == e
  {
    hide Exec, Reads;
    var f := At(w.left.out, e);
    var w1 := World(Popped(w.left, e), Dispatched(w.right, f[0]));
    assert At(w1.left.out, e) == f[1..];
    var w2 := World(Popped(w1.left, e), Dispatched(w1.right, f[1]));
    ReadsOne(w, 2);
    ReadsOne(w1, 1);
    ReadsNone(w2);
  }

  /** A client result is counted by the peer but never numbered by its sender: after one, the
      next message can be taken for a duplicate and is lost although it was resent. */
  lemma BypassLosesAMessage(l: nat, r: nat, c: Bytes, a: Bytes)
    ensures var script := Bypass(c, a) + (Resumption(1, 2) + Reads(2));
            var v := Exec(Initial(l, r), script);
            && v.left.history == [a] && v.right.delivered == [c]
            && At(v.left.out, 1) == [] && v.left.epoch == v.right.epoch == 1
            && !v.right.buf.waiting
  {
    BypassEffect(l, r, c, a);
    hide Exec, Bypass, Resumption, Reads;
    var w := Exec(Initial(l, r), Bypass(c, a));
    Resumes(w, 1, w.left.buf.messages, 1);
    ReadsSequenceAndOne(Exec(w, Resumption(1, 2)), 1, a);
    ExecAppend(w, Resumption(1, 2), Reads(2));
    ExecAppend(Initial(l, r), Bypass(c, a), Resumption(1, 2) + Reads(2));
  }

  // ---- a send in flight across a reopen -----------------------------------------------------

  /** A send is in flight while both ends reopen; the right end resends and the left one reads
      the Sequence; only then does the send fail, and the left end resends. */
  function LateFailure(a: Bytes): seq<Action>
  {
    LateOpening(a) + ([Action(true, TransmitFails(0, false))] + ([Action(true, Resend(2))] + []))
  }

  function LateOpening(a: Bytes): seq<Action>
  {
    [Action(true, Submit(a))] + ([Action(true, Reopen(1))] + ([Action(false, Reopen(1))]
    + ([Action(false, Resend(1))] + ([Action(true, Receive)] + []))))
  }

  /** Then the right end sends a message, which the left one reads. */
  function LateMessage(b: Bytes): seq<Action>
  {
    [Action(false, Submit(b))] + ([Action(false, Transmit(0))] + ([Action(true, Receive)] + []))
  }

  lemma ReopenedEnds(l: nat, r: nat, a: Bytes)
    ensures var left := AfterReopen(AfterSubmit(Start(l), a), 1);
            var right := AfterResend(AfterReopen(Start(r), 1), 1);
            && left.inflight == [Flight(1, 0)] && left.history == [a] && |left.buf.messages| == 1
            && left.buf.reconnecting && left.reopened && left.out == map[] && left.cut == {}
            && left.buf.next == 1 && left.delivered == []
            && At(right.out, 1) == [Sequence(1)] && right.cut == {} && right.epoch == 1
            && !right.buf.reconnecting && right.inflight == [] && right.history == []
            && right.buf.total == 0
  {
  }

  lemma LateOpeningEffect(l: nat, r: nat, a: Bytes)
    ensures OrderlyRun(Initial(l, r), LateOpening(a))
    ensures var left := AfterReopen(AfterSubmit(Start(l), a), 1);
            var right := AfterResend(AfterReopen(Start(r), 1), 1);
            Exec(Initial(l, r), LateOpening(a)) == World(Dispatched(left, Sequence(1)), Popped(right, 1))
  {
    ReopenedEnds(l, r, a);
    var a1, a2, a3 := Action(true, Submit(a)), Action(true, Reopen(1)), Action(false, Reopen(1));
    var a4, a5 := Action(false, Resend(1)), Action(true, Receive);
    hide Exec, OrderlyRun, AfterResend, AfterSubmit, Dispatched;
    var w0 := Initial(l, r);
    var w1 := World(AfterSubmit(w0.left, a), w0.right);
    var w2 := World(AfterReopen(w1.left, 1), w0.right);
    var w3 := World(w2.left, AfterReopen(w0.right, 1));
    var w4 := World(w2.left, AfterResend(w3.right, 1));
    var w5 := World(Dispatched(w2.left, Sequence(1)), Popped(w4.right, 1));
    assert w1 == Perform(w0, a1);
    assert w4 == Perform(w3, a4);
    assert w5 == Perform(w4, a5);
    ExecStep(w5, a5, []);
    ExecStep(w4, a5, []);
    ExecStep(w3, a4, [a5] + []);
    ExecStep(w2, a3, [a4] + ([a5] + []));
    ExecStep(w1, a2, [a3] + ([a4] + ([a5] + [])));
    ExecStep(w0, a1, [a2] + ([a3] + ([a4] + ([a5] + []))));
  }

  lemma LateFailureEffect(l: nat, r: nat, a: Bytes)
    ensures OrderlyRun(Initial(l, r), LateFailure(a))
    ensures var v := Exec(Initial(l, r), LateFailure(a));
            && v.left.epoch == 1 && v.right.epoch == 1 && v.left.buf.waiting
            && !v.left.buf.reconnecting && !v.right.buf.reconnecting
            && v.left.delivered == [] && v.left.inflight == [] && v.right.inflight == []
            && 1 !in v.right.cut && At(v.right.out, 1) == [] && v.right.history == []
            && v.right.buf.total == 0
  {
    ReopenedEnds(l, r, a);
    LateOpeningEffect(l, r, a);
    var w5 := Exec(Initial(l, r), LateOpening(a));
    var a6, a7 := Action(true, TransmitFails(0, false)), Action(true, Resend(2));
    hide Exec, OrderlyRun, AfterResend, AfterSubmit, LateOpening;
    LateResend(w5.left);
    assert At(w5.right.out, 1) == [];
    hide AfterTransmitFails, Dispatched, AfterReopen;
    var w6 := World(AfterTransmitFails(w5.left, 0, false), w5.right);
    var w7 := World(AfterResend(w6.left, 2), w5.right);
    ExecStep(w7, a7, []);
    ExecStep(w6, a7, []);
    ExecStep(w5, a6, [a7] + []);
    ExecAppend(Initial(l, r), LateOpening(a), [a6] + ([a7] + []));
  }

  lemma LateResend(n: Node)
    requires n.inflight == [Flight(1, 0)] && |n.history| == 1 && n.reopened && n.epoch == 1
    requires |n.buf.messages| == 1 && n.cut == {}
    ensures var m := AfterTransmitFails(n, 0, false);
            var v := AfterResend(m, 2);
            && m.inflight == [] && m.reopened && m.buf == Disconnected(n.buf) && m.epoch == 1
            && v.inflight == [] && v.epoch == 1 && v.delivered == n.delivered
            && v.buf.waiting && !v.buf.reconnecting
  {
  }

  lemma LateMessageEffect(w: World, b: Bytes)
    requires w.left.epoch == 1 && w.right.epoch == 1 && w.left.buf.waiting
    requires !w.right.buf.reconnecting && w.right.inflight == [] && 1 !in w.right.cut
    requires At(w.right.out, 1) == [] && w.right.history == [] && w.right.buf.total == 0
    ensures OrderlyRun(w, LateMessage(b))
    ensures var v := Exec(w, LateMessage(b));
            && v.left == w.left && v.right.history == [b] && Drained(v.right, v.left)
  {
    var a1, a2, a3 := Action(false, Submit(b)), Action(false, Transmit(0)), Action(true, Receive);
    var w1 := World(w.left, AfterSubmit(w.right, b));
    var w2 := World(w.left, AfterTransmit(w1.right, 0));
    assert At(w2.right.out, 1) == [Data(b)];
    var w3 := World(w.left, Popped(w2.right, 1));
    assert w3 == Perform(w2, a3);
    assert At(w3.right.out, 1) == [];
    ExecStep(w3, a3, []);
    ExecStep(w2, a3, []);
    ExecStep(w1, a2, [a3] + []);
    ExecStep(w, a1, [a2] + ([a3] + []));
  }

  /** A send that fails after the transport was reopened makes its end wait for a Sequence it
      has already had: both ends are connected, everything written was read, and a message
      was not processed, because the end is late. */
  lemma LateFailureStrands(l: nat, r: nat, a: Bytes, b: Bytes)
    ensures var script := LateFailure(a) + LateMessage(b);
            var v := Exec(Initial(l, r), script);
            && OrderlyRun(Initial(l, r), script)
            && Connected(v) && Drained(v.right, v.left)
            && v.right.history == [b] && v.left.delivered == []
            && Late(Initial(l, r), script, true, None) == Some(0)
  {
    LateFailureEffect(l, r, a);
    hide Exec, OrderlyRun, LateFailure, LateMessage, Drained, Late, Submissions;
    LateMessageEffect(Exec(Initial(l, r), LateFailure(a)), b);
    ExecAppend(Initial(l, r), LateFailure(a), LateMessage(b));
    ConnectedAndDrainedIsComplete(l, r, LateFailure(a) + LateMessage(b));
  }
}
