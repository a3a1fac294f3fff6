/**
 Two mirrored endpoints joined by transports that can fail.

 A transport is named by its epoch. Each endpoint writes to and reads from the transport it
 last reopened; the two may be on different transports for any length of time. A transport
 direction can be cut at any point, losing an arbitrary suffix of what was written to it.
 */
module Protocol {
  import opened Basics
  import opened BufferModel

  /** A send that has left the buffer lock and not yet written: it captured its transport. */
  datatype Flight = Flight(id: int, epoch: nat)

  /** One write of a buffered message to a transport, and whether its direction was still open. */
  datatype Tx = Tx(epoch: nat, id: int, reached: bool)

  /** An endpoint. `reopened` holds between reopening a transport and resending over it; `out` is
      what was written to each transport and not yet read by the peer; `cut` are the
      transports whose outgoing direction is dead. `history`, `delivered`, `log` and
      `rejected` record everything ever buffered, processed, written and refused. */
  datatype Node = Node(
    buf: Buffer,
    epoch: nat,
    reopened: bool,
    inflight: seq<Flight>,
    out: map<nat, seq<Frame>>,
    cut: set<nat>,
    history: seq<Bytes>,
    delivered: seq<Bytes>,
    log: seq<Tx>,
    rejected: nat)

  datatype World = World(left: Node, right: Node)

  function Start(capacity: nat): Node
  {
    Node(Empty(capacity), 0, false, [], map[], {}, [], [], [], 0)
  }

  function Initial(leftCapacity: nat, rightCapacity: nat): World
  {
    World(Start(leftCapacity), Start(rightCapacity))
  }

  /** The unread frames of one transport. */
  function At(out: map<nat, seq<Frame>>, e: nat): seq<Frame>
  {
    if e in out then out[e] else []
  }

  /** Writes to a transport; a cut direction swallows the frames. */
  function Put(n: Node, e: nat, frames: seq<Frame>): Node
  {
    if e in n.cut then n else n.(out := n.out[e := At(n.out, e) + frames])
  }

  /** Cuts the outgoing direction of a transport, keeping the first `kept` unread frames. */
  function Severed(n: Node, e: nat, kept: nat): Node
  {
    n.(out := n.out[e := if kept <= |At(n.out, e)| then At(n.out, e)[..kept] else At(n.out, e)],
       cut := n.cut + {e})
  }

  // ---- steps --------------------------------------------------------------------------------

  datatype Step =
    | Submit(message: Bytes)                  // `send` up to the release of the buffer lock
    | Transmit(index: nat)                    // the write of an in-flight send succeeds
    | TransmitFails(index: nat, leaked: bool) // it fails, with or without the frame going out
    | Disconnect                              // a lost transport is noticed
    | Reopen(epoch: nat)                      // a new transport is up, its reader runs
    | Resend(written: nat)                    // `resend`; that many writes succeed
    | Receive                                 // dispatch of the next incoming frame
    | AckTimer                                // the scheduled acknowledgement fires
    | Sever(epoch: nat, kept: nat)            // an outgoing direction dies
    | KeepAlive                               // a Ping is written
    | ClientResult(message: Bytes)            // a completion that bypasses the buffer

  function Remove<T>(s: seq<T>, i: nat): seq<T>
    requires i < |s|
  {
    s[..i] + s[i + 1..]
  }

  function AfterSubmit(n: Node, message: Bytes): Node
  {
    var b := Submitted(n.buf, message);
    n.(buf := b,
       history := n.history + [message],
       inflight := if n.buf.reconnecting then n.inflight else n.inflight + [Flight(b.total, n.epoch)])
  }

  function AfterTransmit(n: Node, index: nat): Node
    requires index < |n.inflight|
    requires 1 <= n.inflight[index].id <= |n.history|
  {
    var f := n.inflight[index];
    Put(n, f.epoch, [Data(n.history[f.id - 1])])
      .(inflight := Remove(n.inflight, index), log := n.log + [Tx(f.epoch, f.id, f.epoch !in n.cut)])
  }

  function AfterTransmitFails(n: Node, index: nat, leaked: bool): Node
    requires index < |n.inflight|
    requires 1 <= n.inflight[index].id <= |n.history|
  {
    var f := n.inflight[index];
    var w := if leaked then AfterTransmit(n, index)
             else n.(inflight := Remove(n.inflight, index));
    Severed(w, f.epoch, |At(w.out, f.epoch)|).(buf := Disconnected(n.buf))
  }

  function AfterReopen(n: Node, epoch: nat): Node
  {
    n.(buf := Disconnected(n.buf), epoch := epoch, reopened := true)
  }

  function TxRange(epoch: nat, first: int, count: nat, reached: bool): (r: seq<Tx>)
    ensures |r| == count
    ensures forall i | 0 <= i < count :: r[i] == Tx(epoch, first + i, reached)
  {
    seq(count, i requires 0 <= i => Tx(epoch, first + i, reached))
  }

  function AfterResend(n: Node, written: nat): Node
  {
    var frames := ResendFrames(n.buf);
    if written < |frames| then
      var w := Put(n, n.epoch, frames[..written]);
      Severed(w, n.epoch, |At(w.out, n.epoch)|)
        .(reopened := false,
          log := n.log + TxRange(n.epoch, FirstId(n.buf), if written == 0 then 0 else written - 1,
                                 n.epoch !in n.cut))
    else
      Put(n, n.epoch, frames)
        .(reopened := false,
          buf := n.buf.(reconnecting := false),
          log := n.log + TxRange(n.epoch, FirstId(n.buf), |frames| - 1, n.epoch !in n.cut))
  }

  /** `dispatch` of one frame: the gate of `should_process_message`, then the handler. */
  function Dispatched(n: Node, f: Frame): Node
  {
    var (b, process) := Gate(n.buf, f.Data?, f.Sequence?, n.epoch);
    var m := n.(buf := b);
    if !process then m
    else match f
      case Control => m
      case Ack(id) => m.(buf := Acked(b, id))
      case Sequence(id) =>
        if id > b.next then m.(rejected := n.rejected + 1)
        else m.(buf := b.(next := id, waiting := false))
      case Data(payload) => m.(delivered := n.delivered + [payload])
  }

  function AfterAckTimer(n: Node): Node
  {
    match n.buf.timer
    case None => n
    case Some(transport) =>
      var w := if n.buf.reconnecting then n else Put(n, transport, [Ack(n.buf.latest)]);
      w.(buf := w.buf.(timer := None))
  }

  /** One step of `me`; a step that is not possible changes nothing. */
  function Next(me: Node, peer: Node, step: Step): (Node, Node)
  {
    match step
    case Submit(message) => (AfterSubmit(me, message), peer)
    case Transmit(i) =>
      if i < |me.inflight| && 1 <= me.inflight[i].id <= |me.history|
      then (AfterTransmit(me, i), peer) else (me, peer)
    case TransmitFails(i, leaked) =>
      if i < |me.inflight| && 1 <= me.inflight[i].id <= |me.history|
      then (AfterTransmitFails(me, i, leaked), peer) else (me, peer)
    case Disconnect => (me.(buf := Disconnected(me.buf)), peer)
    case Reopen(e) => if e > me.epoch then (AfterReopen(me, e), peer) else (me, peer)
    case Resend(written) =>
      // the runtime's write lock waits for every in-flight send
      if me.reopened && me.inflight == [] then (AfterResend(me, written), peer) else (me, peer)
    case Receive =>
      var incoming := At(peer.out, me.epoch);
      if incoming == [] then (me, peer)
      else (Dispatched(me, incoming[0]), peer.(out := peer.out[me.epoch := incoming[1..]]))
    case AckTimer => (AfterAckTimer(me), peer)
    case Sever(e, kept) => (Severed(me, e, kept), peer)
    case KeepAlive => (Put(me, me.epoch, [Control]), peer)
    case ClientResult(message) => (Put(me, me.epoch, [Data(message)]), peer)
  }

  datatype Action = Action(left: bool, step: Step)

  function Perform(w: World, a: Action): World
  {
    if a.left then
      var (me, peer) := Next(w.left, w.right, a.step);
      World(me, peer)
    else
      var (me, peer) := Next(w.right, w.left, a.step);
      World(peer, me)
  }

  /** The world after a script of actions of the two endpoints. */
  function Exec(w: World, script: seq<Action>): World
    decreases |script|
  {
    if script == [] then w else Exec(Perform(w, script[0]), script[1..])
  }

  /** A send in flight that may be written now: the first one, or one whose transport is dead, so that
      its write reaches nobody. */
  predicate InTurn(me: Node, i: nat)
  {
    i == 0 || i >= |me.inflight| || me.inflight[i].epoch in me.cut
  }

  /** What reaches an open transport is written in the order in which it was buffered, and every
      counted message goes through the buffer. Sends overlap, fail and notice their failure in any
      order. */
  predicate Orderly(w: World, a: Action)
  {
    var me := if a.left then w.left else w.right;
    match a.step
    case Transmit(i) => InTurn(me, i)
    case TransmitFails(i, leaked) => leaked ==> InTurn(me, i)
    case ClientResult(_) => false
    case _ => true
  }

  /** Every action of the script is orderly when it is taken. */
  predicate OrderlyRun(w: World, script: seq<Action>)
    decreases |script|
  {
    script != [] ==>
      Orderly(w, script[0]) && OrderlyRun(Perform(w, script[0]), script[1..])
  }

  // ---- the invariant of one endpoint --------------------------------------------------------

  /** `a` was written earlier than `b`: to an earlier transport, or to the same one as another message,
      an older one if `b` reached the transport. */
  ghost predicate Before(a: Tx, b: Tx)
  {
    a.epoch < b.epoch || (a.epoch == b.epoch && a.id != b.id && (b.reached ==> a.id < b.id))
  }

  ghost predicate LogIncreasing(log: seq<Tx>)
  {
    forall i, j | 0 <= i < j < |log| :: Before(log[i], log[j])
  }

  ghost predicate Local(n: Node)
  {
    && Valid(n.buf)
    && HistoryOk(n.buf, n.history)
    && OutOk(n.out, n.epoch, n.reopened, n.buf.timer)
    && (n.reopened ==> n.buf.reconnecting)
    && FlightOk(n.inflight, n.buf.total, n.epoch, n.buf.reconnecting, n.reopened, n.cut, n.log)
    && LogOk(n.log, n.buf.total, n.epoch, n.reopened)
  }

  /** The buffer holds the newest messages of the history. */
  ghost predicate HistoryOk(buf: Buffer, history: seq<Bytes>)
  {
    && 0 <= Base(buf)
    && buf.total == |history|
    && (forall i | 0 <= i < |buf.messages| :: buf.messages[i].message == history[Base(buf) + i])
  }

  /** Nothing was written to a later transport, and nothing but keep-alives before a resend. */
  ghost predicate OutOk(out: map<nat, seq<Frame>>, epoch: nat, reopened: bool, timer: Option<nat>)
  {
    && (forall e: nat | epoch < e :: At(out, e) == [])
    && (reopened ==> Core(At(out, epoch)) == [])
    && (timer.Some? ==> timer.value <= epoch)
  }

  /** The sends in flight have increasing ids and share one transport, until the endpoint notices a
      loss the current one. As long as it is open they are consecutive, and end with the newest
      message until a loss is noticed. */
  ghost predicate FlightOk(inflight: seq<Flight>, total: int, epoch: nat, reconnecting: bool,
                           reopened: bool, cut: set<nat>, log: seq<Tx>)
  {
    && (forall i | 0 <= i < |inflight| ::
          inflight[i].epoch == inflight[0].epoch && 1 <= inflight[i].id <= total)
    && (forall i, j | 0 <= i < j < |inflight| :: inflight[i].id < inflight[j].id)
    && (inflight != [] ==>
          var f := inflight[0];
          && f.epoch <= epoch
          && (!reconnecting ==> f.epoch == epoch)
          && (reopened ==> f.epoch < epoch)
          && (f.epoch !in cut ==>
                && (forall i | 0 <= i < |inflight| :: inflight[i].id == f.id + i)
                && (!reconnecting ==> f.id - 1 + |inflight| == total)))
    && (forall i, j | 0 <= i < |log| && 0 <= j < |inflight| ::
          Before(log[i], Tx(inflight[j].epoch, inflight[j].id, inflight[j].epoch !in cut)))
  }

  ghost predicate LogOk(log: seq<Tx>, total: int, epoch: nat, reopened: bool)
  {
    && LogIncreasing(log)
    && (forall i | 0 <= i < |log| ::
          && 1 <= log[i].id <= total
          && log[i].epoch <= epoch
          && (reopened ==> log[i].epoch < epoch))
  }

  // ---- the invariant of one direction -------------------------------------------------------

  /** The frames other than keep-alives. */
  function Core(frames: seq<Frame>): seq<Frame>
  {
    if frames == [] then []
    else (if frames[0].Control? then [] else [frames[0]]) + Core(frames[1..])
  }

  function Payloads(frames: seq<Frame>): seq<Bytes>
  {
    if frames == [] then []
    else (if frames[0].Data? then [frames[0].payload] else []) + Payloads(frames[1..])
  }

  /** `payloads` are the messages with ids `first`, `first`+1, … of `history`. */
  ghost predicate Run(history: seq<Bytes>, first: int, payloads: seq<Bytes>)
  {
    && 1 <= first
    && first - 1 + |payloads| <= |history|
    && (forall i | 0 <= i < |payloads| :: payloads[i] == history[first - 1 + i])
  }

  ghost predicate SequencePending(frames: seq<Frame>)
  {
    frames != [] && frames[0].Sequence?
  }

  /** The id the receiver, now expecting `next`, will give to the next message of a channel. */
  function FirstUnread(frames: seq<Frame>, next: int): int
  {
    if frames != [] && frames[0].Sequence? then frames[0].id else next
  }

  /** What the receiver can still read from one transport: either a Sequence followed by the
      messages it announces, or the continuation of what it has already counted. `ahead`
      means that the receiver has not moved to the transport yet. */
  ghost predicate ChannelOk(frames: seq<Frame>, history: seq<Bytes>, base: int,
                            next: int, waiting: bool, ahead: bool)
  {
    && (forall i | 0 < i < |frames| :: !frames[i].Sequence?)
    && (SequencePending(frames) ==>
          && frames[0].id == base + 1
          && (ahead || waiting)
          && Run(history, frames[0].id, Payloads(frames)))
    && (!SequencePending(frames) ==>
          && (ahead ==> frames == [])
          && (!ahead && !waiting ==> Run(history, next, Payloads(frames))))
  }

  ghost predicate ChannelsOk(out: map<nat, seq<Frame>>, history: seq<Bytes>, base: int,
                             next: int, waiting: bool, epoch: nat)
  {
    forall e: nat | epoch <= e ::
      ChannelOk(Core(At(out, e)), history, base, next, waiting, epoch < e)
  }

  /** Message `id`, written next to an open channel, continues what the channel carries. */
  ghost predicate Continues(frames: seq<Frame>, next: int, waiting: bool, ahead: bool, id: int)
  {
    && (SequencePending(frames) || (!ahead && !waiting) ==>
          FirstUnread(frames, next) + |Payloads(frames)| == id)
    && (ahead ==> SequencePending(frames))
  }

  ghost predicate ContinuesOn(s: Node, next: int, waiting: bool, epoch: nat, e: nat, id: int)
  {
    epoch <= e && e !in s.cut ==>
      Continues(Core(At(s.out, e)), next, waiting, epoch < e, id)
  }

  /** The next message the sender writes continues what its channel already carries. */
  ghost predicate TailOk(s: Node, next: int, waiting: bool, epoch: nat)
  {
    && (s.inflight != [] ==>
          ContinuesOn(s, next, waiting, epoch, s.inflight[0].epoch, s.inflight[0].id))
    && (s.inflight == [] && !s.buf.reconnecting ==>
          ContinuesOn(s, next, waiting, epoch, s.epoch, s.buf.total + 1))
  }

  ghost predicate AcksBelow(frames: seq<Frame>, next: int)
  {
    forall f | f in frames :: f.Ack? ==> f.id + 1 <= next
  }

  /** The acknowledged count never passes the received count, and what was processed is a
      prefix of what was buffered. */
  ghost predicate CountsOk(history: seq<Bytes>, base: int, next: int, latest: int,
                           delivered: seq<Bytes>)
  {
    && base + 1 <= next <= latest + 1
    && 0 <= latest <= |history|
    && delivered == history[..latest]
  }

  /** Acknowledgements in `out` that an endpoint on transport `epoch` can still read, and the
      one the timer may still send to it. */
  ghost predicate AcksOk(out: map<nat, seq<Frame>>, next: int, latest: int, timer: Option<nat>,
                         epoch: nat)
  {
    && (forall e: nat | epoch <= e :: AcksBelow(At(out, e), next))
    && (timer.Some? ==>
          && timer.value <= epoch
          && (timer.value == epoch ==> next == latest + 1))
  }

  /** A receiver that has not yet seen the sender's Sequence on the transport it reads is
      waiting for it, and has acknowledged nothing there. */
  ghost predicate SyncOk(s: Node, r: Node)
  {
    || s.epoch < r.epoch
    || (s.epoch == r.epoch && s.reopened)
    || SequencePending(Core(At(s.out, r.epoch)))
    ==>
      && r.buf.waiting
      && r.buf.timer != Some(r.epoch)
      && (forall f | f in At(r.out, r.epoch) :: !f.Ack?)
  }

  /** The messages before the first one that is still in flight. */
  function Sent(n: Node): seq<Bytes>
  {
    if n.inflight != [] && 1 <= n.inflight[0].id <= |n.history| then n.history[..n.inflight[0].id - 1]
    else n.history
  }

  ghost predicate Link(s: Node, r: Node)
  {
    && CountsOk(Sent(s), Base(s.buf), r.buf.next, r.buf.latest, r.delivered)
    && r.rejected == 0
    && ChannelsOk(s.out, Sent(s), Base(s.buf), r.buf.next, r.buf.waiting, r.epoch)
    && TailOk(s, r.buf.next, r.buf.waiting, r.epoch)
    && AcksOk(r.out, r.buf.next, r.buf.latest, r.buf.timer, s.epoch)
    && SyncOk(s, r)
  }

  ghost predicate Inv(w: World)
  {
    Local(w.left) && Local(w.right) && Link(w.left, w.right) && Link(w.right, w.left)
  }
}
