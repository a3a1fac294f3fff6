/** Every step of either endpoint keeps the invariant of `Protocol`. */
module ProtocolInvariant {
  import opened Basics
  import opened BufferModel
  import opened Protocol

  // ---- frames -------------------------------------------------------------------------------

  lemma {:induction false} CoreAppend(a: seq<Frame>, b: seq<Frame>)
    ensures Core(a + b) == Core(a) + Core(b)
  {
    if a == [] {
      assert a + b == b;
    } else {
      assert (a + b)[1..] == a[1..] + b;
      CoreAppend(a[1..], b);
      Associative(if a[0].Control? then [] else [a[0]], Core(a[1..]), Core(b));
    }
  }

  lemma {:induction false} PayloadsAppend(a: seq<Frame>, b: seq<Frame>)
    ensures Payloads(a + b) == Payloads(a) + Payloads(b)
  {
    if a == [] {
      assert a + b == b;
    } else {
      assert (a + b)[1..] == a[1..] + b;
      PayloadsAppend(a[1..], b);
      Associative(if a[0].Data? then [a[0].payload] else [], Payloads(a[1..]), Payloads(b));
    }
  }

  lemma {:induction false} DataCore(frames: seq<Frame>)
    requires forall f | f in frames :: f.Data?
    ensures Core(frames) == frames
    ensures |Payloads(frames)| == |frames|
    ensures forall i | 0 <= i < |frames| :: Payloads(frames)[i] == frames[i].payload
  {
    if frames != [] {
      assert frames[0] in frames;
      DataCore(frames[1..]);
    }
  }

  /** The frames before a cut are a prefix of what the channel carried. */
  lemma CorePrefix(frames: seq<Frame>, k: nat)
    requires k <= |frames|
    ensures Core(frames[..k]) <= Core(frames)
    ensures Payloads(Core(frames[..k])) <= Payloads(Core(frames))
  {
    hide Core, Payloads;
    Halves(frames, k);
    var first, rest := frames[..k], frames[k..];
    CoreAppend(first, rest);
    PayloadsAppend(Core(first), Core(rest));
  }

  lemma {:induction false} MemberCore(f: Frame, frames: seq<Frame>)
    requires f in frames && !f.Control?
    ensures f in Core(frames)
  {
    if frames[0] != f {
      MemberCore(f, frames[1..]);
    }
  }

  // ---- one channel --------------------------------------------------------------------------

  lemma ChannelGrows(frames: seq<Frame>, history: seq<Bytes>, base: int,
                     next: int, waiting: bool, ahead: bool, id: int)
    requires ChannelOk(frames, history, base, next, waiting, ahead)
    requires Continues(frames, next, waiting, ahead, id)
    requires 1 <= id <= |history|
    ensures var more := frames + [Data(history[id - 1])];
            && ChannelOk(more, history, base, next, waiting, ahead)
            && Continues(more, next, waiting, ahead, id + 1)
  {
    var f := Data(history[id - 1]);
    PayloadsAppend(frames, [f]);
    OnePayload(f);
    hide Payloads;
    if frames != [] {
      assert (frames + [f])[0] == frames[0];
    }
  }

  lemma OnePayload(f: Frame)
    ensures Payloads([f]) == if f.Data? then [f.payload] else []
  {
    var none: seq<Frame> := [f][1..];
    assert none == [] && Payloads(none) == [];
  }

  lemma FirstPayload(frames: seq<Frame>)
    requires frames != []
    ensures Payloads(frames) == (if frames[0].Data? then [frames[0].payload] else []) + Payloads(frames[1..])
  {
  }

  lemma ChannelLonger(frames: seq<Frame>, history: seq<Bytes>, longer: seq<Bytes>, base: int,
                      next: int, waiting: bool, ahead: bool)
    requires ChannelOk(frames, history, base, next, waiting, ahead) && history <= longer
    ensures ChannelOk(frames, longer, base, next, waiting, ahead)
  {
  }

  lemma ChannelAck(frames: seq<Frame>, history: seq<Bytes>, base: int,
                   next: int, waiting: bool, a: int)
    requires ChannelOk(frames, history, base, next, waiting, false)
    ensures ChannelOk(frames + [Ack(a)], history, base, next, waiting, false)
    ensures forall id :: Continues(frames, next, waiting, false, id) ==>
                         Continues(frames + [Ack(a)], next, waiting, false, id)
  {
    PayloadsAppend(frames, [Ack(a)]);
    OnePayload(Ack(a));
    hide Payloads;
    if frames != [] {
      assert (frames + [Ack(a)])[0] == frames[0];
    }
  }

  lemma ChannelCut(frames: seq<Frame>, kept: seq<Frame>, history: seq<Bytes>, base: int,
                   next: int, waiting: bool, ahead: bool)
    requires ChannelOk(frames, history, base, next, waiting, ahead)
    requires kept <= frames
    ensures ChannelOk(kept, history, base, next, waiting, ahead)
  {
    assert frames == kept + frames[|kept|..];
    PayloadsAppend(kept, frames[|kept|..]);
    assert Payloads(kept) <= Payloads(frames);
    assert forall i | 0 <= i < |kept| :: kept[i] == frames[i];
  }

  /** Reading the head of a channel while waiting for a Sequence that is not there. */
  lemma ChannelSkip(frames: seq<Frame>, history: seq<Bytes>, base: int, next: int)
    requires ChannelOk(frames, history, base, next, true, false)
    requires frames != [] && !frames[0].Sequence?
    ensures ChannelOk(frames[1..], history, base, next, true, false)
    ensures forall id :: Continues(frames[1..], next, true, false, id)
  {
    if |frames| > 1 {
      assert frames[1..][0] == frames[1];
    }
  }

  lemma ChannelResync(frames: seq<Frame>, history: seq<Bytes>, base: int, next: int)
    requires ChannelOk(frames, history, base, next, true, false)
    requires frames != [] && frames[0].Sequence?
    ensures ChannelOk(frames[1..], history, base, frames[0].id, false, false)
    ensures forall id :: Continues(frames, next, true, false, id) ==>
                         Continues(frames[1..], frames[0].id, false, false, id)
  {
    FirstPayload(frames);
    hide Payloads;
    assert Payloads(frames[1..]) == Payloads(frames);
    if |frames| > 1 {
      assert frames[1..][0] == frames[1];
    }
  }

  lemma ChannelRead(frames: seq<Frame>, history: seq<Bytes>, base: int, next: int)
    requires ChannelOk(frames, history, base, next, false, false)
    requires frames != []
    ensures !frames[0].Sequence?
    ensures var step := if frames[0].Data? then 1 else 0;
            && ChannelOk(frames[1..], history, base, next + step, false, false)
            && (forall id :: Continues(frames, next, false, false, id) ==>
                             Continues(frames[1..], next + step, false, false, id))
    ensures frames[0].Data? ==> 1 <= next <= |history| && frames[0].payload == history[next - 1]
  {
    FirstPayload(frames);
    hide Payloads;
    if |frames| > 1 {
      assert frames[1..][0] == frames[1];
    }
    if frames[0].Data? {
      assert Payloads(frames)[0] == frames[0].payload;
      assert forall i | 0 <= i < |Payloads(frames[1..])| ::
          Payloads(frames[1..])[i] == Payloads(frames)[i + 1];
    } else {
      assert Payloads(frames) == Payloads(frames[1..]);
    }
  }

  // ---- submit -------------------------------------------------------------------------------

  lemma SubmitFlight(inflight: seq<Flight>, total: int, epoch: nat, reconnecting: bool, reopened: bool,
                     cut: set<nat>, log: seq<Tx>)
    requires FlightOk(inflight, total, epoch, reconnecting, reopened, cut, log)
    requires LogOk(log, total, epoch, reopened) && 0 <= total && (reopened ==> reconnecting)
    ensures reconnecting ==> FlightOk(inflight, total + 1, epoch, reconnecting, reopened, cut, log)
    ensures !reconnecting ==>
              FlightOk(inflight + [Flight(total + 1, epoch)], total + 1, epoch, reconnecting, reopened, cut, log)
  {
  }

  lemma SubmitLocal(me: Node, message: Bytes)
    requires Local(me)
    ensures Local(AfterSubmit(me, message))
  {
    hide Valid, HistoryOk, OutOk, FlightOk, LogOk, Submitted;
    SubmittedFields(me.buf, message);
    SubmittedValid(me.buf, message);
    SubmitHistory(me.buf, me.history, message);
    SubmitFlight(me.inflight, me.buf.total, me.epoch, me.buf.reconnecting, me.reopened, me.cut, me.log);
    LogLonger(me.log, me.buf.total, me.epoch, me.reopened);
  }

  lemma SubmittedFields(b: Buffer, message: Bytes)
    ensures var c := Submitted(b, message);
            && c.total == b.total + 1 && c.reconnecting == b.reconnecting && c.timer == b.timer
  {
  }

  lemma SubmitHistory(buf: Buffer, history: seq<Bytes>, message: Bytes)
    requires HistoryOk(buf, history)
    ensures HistoryOk(Submitted(buf, message), history + [message]) && 0 <= buf.total
  {
  }

  lemma LogLonger(log: seq<Tx>, total: int, epoch: nat, reopened: bool)
    requires LogOk(log, total, epoch, reopened)
    ensures LogOk(log, total + 1, epoch, reopened)
  {
  }

  /** Buffering sends nothing: at most the unsent part of the history grows. */
  lemma SubmitSent(me: Node, message: Bytes)
    requires Local(me)
    ensures Sent(me) <= Sent(AfterSubmit(me, message))
  {
    hide Valid, OutOk, LogOk;
  }

  lemma SubmitSends(me: Node, peer: Node, message: Bytes)
    requires Local(me) && Link(me, peer)
    ensures Link(AfterSubmit(me, message), peer)
  {
    var n := AfterSubmit(me, message);
    SubmitSent(me, message);
    assert me.inflight == [] ==> n.buf.reconnecting || n.inflight[0] == Flight(me.buf.total + 1, me.epoch);
    hide Local, Sent;
    LongerSends(me, n, peer);
  }

  /** Link needs what was sent, what is in flight and what is unread; more history does no harm. */
  lemma LongerSends(me: Node, n: Node, peer: Node)
    requires Link(me, peer) && Sent(me) <= Sent(n)
    requires n.out == me.out && n.epoch == me.epoch && n.cut == me.cut && n.reopened == me.reopened
    requires Base(n.buf) == Base(me.buf) && n.buf.reconnecting == me.buf.reconnecting
    requires TailOk(n, peer.buf.next, peer.buf.waiting, peer.epoch)
    ensures Link(n, peer)
  {
    hide Sent, TailOk;
    forall e: nat | peer.epoch <= e
      ensures ChannelOk(Core(At(n.out, e)), Sent(n), Base(n.buf), peer.buf.next, peer.buf.waiting, peer.epoch < e)
    {
      ChannelLonger(Core(At(me.out, e)), Sent(me), Sent(n), Base(me.buf), peer.buf.next,
                    peer.buf.waiting, peer.epoch < e);
    }
    assert Sent(me)[..peer.buf.latest] == Sent(n)[..peer.buf.latest];
  }

  lemma SubmitKeeps(me: Node, peer: Node, message: Bytes)
    requires Local(me) && Link(me, peer) && Link(peer, me)
    ensures var n := AfterSubmit(me, message);
            Local(n) && Link(n, peer) && Link(peer, n)
  {
    SubmitLocal(me, message);
    SubmitSends(me, peer, message);
  }

  // ---- writing frames -----------------------------------------------------------------------

  lemma PutFacts(n: Node, e: nat, frames: seq<Frame>, d: nat)
    ensures var w := Put(n, e, frames);
            && w == n.(out := w.out)
            && (d != e || e in n.cut ==> At(w.out, d) == At(n.out, d))
            && (d == e && e !in n.cut ==>
                  && At(w.out, d) == At(n.out, d) + frames
                  && Core(At(w.out, d)) == Core(At(n.out, d)) + Core(frames))
  {
    CoreAppend(At(n.out, e), frames);
  }

  /** Losing or gaining frames that are not acknowledgements leaves the direction that flows
      back alone. */
  lemma OutReceives(me: Node, n: Node, peer: Node)
    requires Link(peer, me)
    requires n == me.(out := n.out, cut := n.cut)
    requires forall e: nat, f | f in At(n.out, e) && f.Ack? :: f in At(me.out, e)
    ensures Link(peer, n)
  {
    forall e: nat | peer.epoch <= e ensures AcksBelow(At(n.out, e), n.buf.next) {
      assert AcksBelow(At(me.out, e), me.buf.next);
    }
  }

  lemma PutReceives(me: Node, peer: Node, e: nat, frames: seq<Frame>)
    requires Link(peer, me)
    requires forall f | f in frames :: !f.Ack?
    ensures Link(peer, Put(me, e, frames))
  {
    var n := Put(me, e, frames);
    forall d: nat, f | f in At(n.out, d) && f.Ack? ensures f in At(me.out, d) {
      PutFacts(me, e, frames, d);
    }
    OutReceives(me, n, peer);
  }

  lemma PutLocal(me: Node, e: nat, frames: seq<Frame>)
    requires Local(me) && e <= me.epoch
    requires me.reopened && e == me.epoch ==> Core(frames) == []
    ensures Local(Put(me, e, frames))
  {
    PutOut(me, e, frames);
    assert Put(me, e, frames) == me.(out := Put(me, e, frames).out);
    hide Valid, HistoryOk, OutOk, FlightOk, LogOk, Put;
  }

  lemma PutOut(me: Node, e: nat, frames: seq<Frame>)
    requires OutOk(me.out, me.epoch, me.reopened, me.buf.timer) && e <= me.epoch
    requires me.reopened && e == me.epoch ==> Core(frames) == []
    ensures OutOk(Put(me, e, frames).out, me.epoch, me.reopened, me.buf.timer)
  {
    var n := Put(me, e, frames);
    forall d: nat | me.epoch < d ensures At(n.out, d) == [] {
      PutFacts(me, e, frames, d);
    }
    PutFacts(me, e, frames, me.epoch);
    hide Core;
  }

  lemma KeepAliveSends(me: Node, peer: Node)
    requires Link(me, peer)
    ensures Link(Put(me, me.epoch, [Control]), peer)
  {
    var n := Put(me, me.epoch, [Control]);
    assert Sent(n) == Sent(me);
    assert n == me.(out := n.out);
    forall d: nat ensures Core(At(n.out, d)) == Core(At(me.out, d)) {
      PutFacts(me, me.epoch, [Control], d);
      ControlIsNoCore();
      hide Core, At;
    }
    hide Sent, Put, Core, At;
    SameCores(me, n, peer);
  }

  lemma ControlIsNoCore()
    ensures Core([Control]) == []
  {
    var none: seq<Frame> := [Control][1..];
    assert none == [] && Core(none) == [];
  }

  /** Keep-alives do not matter to what an endpoint sends. */
  lemma SameCores(me: Node, n: Node, peer: Node)
    requires Link(me, peer) && n == me.(out := n.out) && Sent(n) == Sent(me)
    requires forall d: nat :: Core(At(n.out, d)) == Core(At(me.out, d))
    ensures Link(n, peer)
  {
    hide Core, At, Sent, CountsOk, AcksOk, ChannelOk, Continues;
    forall d: nat ensures Core(At(n.out, d)) == Core(At(me.out, d)) {
    }
    SameChannels(me.out, n.out, Sent(me), Base(me.buf), peer.buf.next, peer.buf.waiting, peer.epoch);
  }

  lemma SameChannels(out: map<nat, seq<Frame>>, after: map<nat, seq<Frame>>, history: seq<Bytes>, base: int,
                     next: int, waiting: bool, epoch: nat)
    requires ChannelsOk(out, history, base, next, waiting, epoch)
    requires forall d: nat :: Core(At(after, d)) == Core(At(out, d))
    ensures ChannelsOk(after, history, base, next, waiting, epoch)
  {
    hide Core, At, ChannelOk;
    forall e: nat | epoch <= e ensures ChannelOk(Core(At(after, e)), history, base, next, waiting, epoch < e) {
      assert ChannelOk(Core(At(out, e)), history, base, next, waiting, epoch < e);
    }
  }

  lemma KeepAliveKeeps(me: Node, peer: Node)
    requires Local(me) && Link(me, peer) && Link(peer, me)
    ensures var n := Put(me, me.epoch, [Control]);
            Local(n) && Link(n, peer) && Link(peer, n)
  {
    PutLocal(me, me.epoch, [Control]);
    KeepAliveSends(me, peer);
    PutReceives(me, peer, me.epoch, [Control]);
  }

  // ---- transmit -----------------------------------------------------------------------------

  /** Every flight is in the history. */
  lemma FlightStored(me: Node, i: nat)
    requires Local(me) && i < |me.inflight|
    ensures 1 <= me.inflight[i].id <= |me.history| && 1 <= me.inflight[0].id <= |me.history|
  {
    hide Valid, OutOk, LogOk;
  }

  lemma TransmitLocal(me: Node, i: nat)
    requires Local(me) && i < |me.inflight| && 1 <= me.inflight[i].id <= |me.history| && InTurn(me, i)
    ensures Local(AfterTransmit(me, i))
  {
    var f := me.inflight[i];
    PutOut(me, f.epoch, [Data(me.history[f.id - 1])]);
    TransmitFlight(me.inflight, me.buf.total, me.epoch, me.buf.reconnecting, me.reopened, me.cut, me.log, i);
    hide Valid, HistoryOk, OutOk, FlightOk, LogOk;
  }

  lemma TransmitFlight(inflight: seq<Flight>, total: int, epoch: nat, reconnecting: bool, reopened: bool,
                       cut: set<nat>, log: seq<Tx>, i: nat)
    requires FlightOk(inflight, total, epoch, reconnecting, reopened, cut, log)
    requires LogOk(log, total, epoch, reopened)
    requires i < |inflight| && (i == 0 || inflight[i].epoch in cut)
    ensures var f := inflight[i];
            var more := log + [Tx(f.epoch, f.id, f.epoch !in cut)];
            && LogOk(more, total, epoch, reopened)
            && FlightOk(Remove(inflight, i), total, epoch, reconnecting, reopened, cut, more)
  {
    var f, rest := inflight[i], Remove(inflight, i);
    var tx := Tx(f.epoch, f.id, f.epoch !in cut);
    FlightLogged(inflight, total, epoch, reconnecting, reopened, cut, log, i);
    FlightRemoved(inflight, total, epoch, reconnecting, reopened, cut, log, i);
    LogAppend(log, total, epoch, reopened, tx);
    RestComesLater(inflight, total, epoch, reconnecting, reopened, cut, log, i);
    hide LogOk, FlightOk, Before, Remove;
    FlightsLater(rest, total, epoch, reconnecting, reopened, cut, log, tx);
  }

  lemma RestComesLater(inflight: seq<Flight>, total: int, epoch: nat, reconnecting: bool, reopened: bool,
                       cut: set<nat>, log: seq<Tx>, i: nat)
    requires FlightOk(inflight, total, epoch, reconnecting, reopened, cut, log)
    requires i < |inflight| && (i == 0 || inflight[i].epoch in cut)
    ensures var f, rest := inflight[i], Remove(inflight, i);
            forall j | 0 <= j < |rest| ::
              Before(Tx(f.epoch, f.id, f.epoch !in cut), Tx(rest[j].epoch, rest[j].id, rest[j].epoch !in cut))
  {
    var f, rest := inflight[i], Remove(inflight, i);
    forall j | 0 <= j < |rest|
      ensures Before(Tx(f.epoch, f.id, f.epoch !in cut), Tx(rest[j].epoch, rest[j].id, rest[j].epoch !in cut))
    {
      assert rest[j] == inflight[if j < i then j else j + 1];
    }
  }

  lemma FlightsLater(inflight: seq<Flight>, total: int, epoch: nat, reconnecting: bool, reopened: bool,
                     cut: set<nat>, log: seq<Tx>, tx: Tx)
    requires FlightOk(inflight, total, epoch, reconnecting, reopened, cut, log)
    requires forall j | 0 <= j < |inflight| ::
               Before(tx, Tx(inflight[j].epoch, inflight[j].id, inflight[j].epoch !in cut))
    ensures FlightOk(inflight, total, epoch, reconnecting, reopened, cut, log + [tx])
  {
    hide Before;
  }

  /** Nothing logged comes after a send in flight. */
  lemma FlightLogged(inflight: seq<Flight>, total: int, epoch: nat, reconnecting: bool, reopened: bool,
                     cut: set<nat>, log: seq<Tx>, i: nat)
    requires FlightOk(inflight, total, epoch, reconnecting, reopened, cut, log) && i < |inflight|
    ensures var f := inflight[i];
            && 1 <= f.id <= total && f.epoch <= epoch && (reopened ==> f.epoch < epoch)
            && forall k | 0 <= k < |log| :: Before(log[k], Tx(f.epoch, f.id, f.epoch !in cut))
  {
  }

  lemma LogAppend(log: seq<Tx>, total: int, epoch: nat, reopened: bool, tx: Tx)
    requires LogOk(log, total, epoch, reopened)
    requires 1 <= tx.id <= total && tx.epoch <= epoch && (reopened ==> tx.epoch < epoch)
    requires forall k | 0 <= k < |log| :: Before(log[k], tx)
    ensures LogOk(log + [tx], total, epoch, reopened)
  {
    hide Before;
  }

  /** A flight may be taken out if it is the first, or if its transport is dead. */
  lemma FlightRemoved(inflight: seq<Flight>, total: int, epoch: nat, reconnecting: bool, reopened: bool,
                      cut: set<nat>, log: seq<Tx>, i: nat)
    requires FlightOk(inflight, total, epoch, reconnecting, reopened, cut, log)
    requires i < |inflight| && (i == 0 || inflight[i].epoch in cut)
    ensures FlightOk(Remove(inflight, i), total, epoch, reconnecting, reopened, cut, log)
  {
    hide Before;
    var rest := Remove(inflight, i);
    assert forall k | 0 <= k < |rest| :: rest[k] == inflight[if k < i then k else k + 1];
  }

  /** What is sent once the first flight is out, on an open transport. */
  lemma TransmitSent(me: Node)
    requires Local(me) && me.inflight != [] && me.inflight[0].epoch !in me.cut
    requires 1 <= me.inflight[0].id <= |me.history|
    ensures var n, f := AfterTransmit(me, 0), me.inflight[0];
            && Sent(me) <= Sent(n) && |Sent(me)| < f.id <= |Sent(n)| && Sent(n)[f.id - 1] == me.history[f.id - 1]
            && (n.inflight != [] ==> n.inflight[0] == Flight(f.id + 1, f.epoch))
            && (n.inflight == [] && !n.buf.reconnecting ==> f.epoch == n.epoch && f.id == n.buf.total)
  {
    hide Valid, OutOk, LogOk, At, Before;
    var n, f := AfterTransmit(me, 0), me.inflight[0];
    assert n.inflight == me.inflight[1..];
    if n.inflight != [] {
      assert n.inflight[0] == me.inflight[1];
    }
  }

  lemma TransmitChannel(me: Node, sent: seq<Bytes>, next: int, waiting: bool, epoch: nat, e: nat)
    requires me.inflight != [] && 1 <= me.inflight[0].id <= |me.history| && epoch <= e
    requires me.inflight[0].id <= |sent| && sent[me.inflight[0].id - 1] == me.history[me.inflight[0].id - 1]
    requires ChannelOk(Core(At(me.out, e)), sent, Base(me.buf), next, waiting, epoch < e)
    requires ContinuesOn(me, next, waiting, epoch, me.inflight[0].epoch, me.inflight[0].id)
    ensures var n := AfterTransmit(me, 0);
            && ChannelOk(Core(At(n.out, e)), sent, Base(n.buf), next, waiting, epoch < e)
            && (e == me.inflight[0].epoch ==>
                  ContinuesOn(n, next, waiting, epoch, e, me.inflight[0].id + 1))
            && (SequencePending(Core(At(n.out, e))) ==> SequencePending(Core(At(me.out, e))))
  {
    hide AfterTransmit, Core, At, ChannelOk, Continues, SequencePending;
    TransmitCore(me, e);
    var f := me.inflight[0];
    var frames, open := Core(At(me.out, e)), e == f.epoch && e !in me.cut;
    assert WithWrite(frames, me.history, f.id, open) == WithWrite(frames, sent, f.id, open);
    hide WithWrite;
    ChannelWritten(frames, sent, Base(me.buf), next, waiting, epoch < e, f.id, open);
  }

  /** What a write leaves in a channel, which it reaches only if the channel is open. */
  function WithWrite(frames: seq<Frame>, history: seq<Bytes>, id: int, open: bool): seq<Frame>
    requires 1 <= id <= |history|
  {
    if open then frames + [Data(history[id - 1])] else frames
  }

  lemma ChannelWritten(frames: seq<Frame>, history: seq<Bytes>, base: int,
                       next: int, waiting: bool, ahead: bool, id: int, open: bool)
    requires 1 <= id <= |history| && ChannelOk(frames, history, base, next, waiting, ahead)
    requires open ==> Continues(frames, next, waiting, ahead, id)
    ensures var after := WithWrite(frames, history, id, open);
            && ChannelOk(after, history, base, next, waiting, ahead)
            && (open ==> Continues(after, next, waiting, ahead, id + 1))
            && (SequencePending(after) ==> SequencePending(frames))
  {
    hide ChannelOk, Continues;
    if open {
      ChannelGrows(frames, history, base, next, waiting, ahead, id);
    }
  }

  lemma TransmitCore(me: Node, e: nat)
    requires me.inflight != [] && 1 <= me.inflight[0].id <= |me.history|
    ensures var n, f := AfterTransmit(me, 0), me.inflight[0];
            && Core(At(n.out, e)) == WithWrite(Core(At(me.out, e)), me.history, f.id, e == f.epoch && e !in me.cut)
            && n.history == me.history && n.buf == me.buf && n.cut == me.cut && n.epoch == me.epoch
            && n.reopened == me.reopened
  {
    hide Core, At, Put, AfterTransmit;
    var f := me.inflight[0];
    TransmitFields(me);
    PutOne(me, f.epoch, Data(me.history[f.id - 1]), e);
  }

  lemma PutOne(me: Node, at: nat, d: Frame, e: nat)
    requires !d.Control?
    ensures Core(At(Put(me, at, [d]).out, e))
            == Core(At(me.out, e)) + if e == at && at !in me.cut then [d] else []
  {
    hide Core, At, Put;
    CoreOfData(d);
    PutFacts(me, at, [d], e);
    assert Core(At(me.out, e)) + [] == Core(At(me.out, e));
  }

  lemma TransmitFields(me: Node)
    requires me.inflight != [] && 1 <= me.inflight[0].id <= |me.history|
    ensures var n, f := AfterTransmit(me, 0), me.inflight[0];
            && n.out == Put(me, f.epoch, [Data(me.history[f.id - 1])]).out
            && n.history == me.history && n.buf == me.buf && n.cut == me.cut && n.epoch == me.epoch
            && n.reopened == me.reopened
  {
    hide At;
  }

  lemma CoreOfData(d: Frame)
    requires !d.Control?
    ensures Core([d]) == [d]
  {
    var none: seq<Frame> := [d][1..];
    assert none == [] && Core(none) == [];
  }

  lemma CountsLonger(history: seq<Bytes>, longer: seq<Bytes>, base: int, next: int, latest: int,
                     delivered: seq<Bytes>)
    requires CountsOk(history, base, next, latest, delivered) && history <= longer
    ensures CountsOk(longer, base, next, latest, delivered)
  {
    assert history[..latest] == longer[..latest];
  }

  lemma TransmitChannels(me: Node, sent: seq<Bytes>, longer: seq<Bytes>, next: int, waiting: bool, epoch: nat)
    requires me.inflight != [] && 1 <= me.inflight[0].id <= |me.history| && sent <= longer
    requires me.inflight[0].id <= |longer| && longer[me.inflight[0].id - 1] == me.history[me.inflight[0].id - 1]
    requires ChannelsOk(me.out, sent, Base(me.buf), next, waiting, epoch)
    requires ContinuesOn(me, next, waiting, epoch, me.inflight[0].epoch, me.inflight[0].id)
    ensures var n, f := AfterTransmit(me, 0), me.inflight[0];
            && ChannelsOk(n.out, longer, Base(n.buf), next, waiting, epoch)
            && ContinuesOn(n, next, waiting, epoch, f.epoch, f.id + 1)
            && (SequencePending(Core(At(n.out, epoch))) ==> SequencePending(Core(At(me.out, epoch))))
  {
    hide AfterTransmit, Core, At, ChannelOk, Continues;
    var n, f := AfterTransmit(me, 0), me.inflight[0];
    forall e: nat | epoch <= e
      ensures ChannelOk(Core(At(n.out, e)), longer, Base(n.buf), next, waiting, epoch < e)
      ensures e == f.epoch ==> ContinuesOn(n, next, waiting, epoch, e, f.id + 1)
      ensures SequencePending(Core(At(n.out, e))) ==> SequencePending(Core(At(me.out, e)))
    {
      ChannelLonger(Core(At(me.out, e)), sent, longer, Base(me.buf), next, waiting, epoch < e);
      TransmitChannel(me, longer, next, waiting, epoch, e);
    }
  }

  lemma TransmitSends(me: Node, peer: Node)
    requires Local(me) && Link(me, peer) && me.inflight != [] && me.inflight[0].epoch !in me.cut
    requires 1 <= me.inflight[0].id <= |me.history|
    ensures Link(AfterTransmit(me, 0), peer)
  {
    TransmitSent(me);
    TransmitFields(me);
    hide Local, Sent, AfterTransmit, Core, At, ChannelsOk, ContinuesOn, CountsOk, AcksOk, SequencePending;
    var n := AfterTransmit(me, 0);
    var next, waiting, epoch := peer.buf.next, peer.buf.waiting, peer.epoch;
    CountsLonger(Sent(me), Sent(n), Base(me.buf), next, peer.buf.latest, peer.delivered);
    TransmitChannels(me, Sent(me), Sent(n), next, waiting, epoch);
    SyncWritten(me, n, peer);
    hide SyncOk;
  }

  lemma SyncWritten(me: Node, n: Node, peer: Node)
    requires SyncOk(me, peer) && n.epoch == me.epoch && n.reopened == me.reopened
    requires SequencePending(Core(At(n.out, peer.epoch))) ==> SequencePending(Core(At(me.out, peer.epoch)))
    ensures SyncOk(n, peer)
  {
    hide Core, At, SequencePending;
  }

  /** What an endpoint is sending does not matter to the direction that flows back. */
  lemma BackUnchanged(w: Node, n: Node, peer: Node)
    requires Link(peer, w)
    requires n == w.(inflight := n.inflight, log := n.log, reopened := n.reopened,
                     buf := w.buf.(reconnecting := n.buf.reconnecting))
    ensures Link(peer, n)
  {
  }

  lemma TransmitKeeps(me: Node, peer: Node, i: nat)
    requires Local(me) && Link(me, peer) && Link(peer, me)
    requires i < |me.inflight| && 1 <= me.inflight[i].id <= |me.history| && InTurn(me, i)
    ensures var n := AfterTransmit(me, i);
            Local(n) && Link(n, peer) && Link(peer, n)
  {
    TransmitLocal(me, i);
    TransmitReceives(me, peer, i);
    if me.inflight[i].epoch in me.cut {
      hide Local, Link;
      DropSends(me, peer, i);
      LogUnchanged(Dropped(me, i), AfterTransmit(me, i), peer);
    } else {
      TransmitSends(me, peer);
    }
  }

  lemma TransmitReceives(me: Node, peer: Node, i: nat)
    requires i < |me.inflight| && 1 <= me.inflight[i].id <= |me.history|
    requires Link(peer, me)
    ensures Link(peer, AfterTransmit(me, i))
  {
    var f := me.inflight[i];
    var w := Put(me, f.epoch, [Data(me.history[f.id - 1])]);
    hide Link;
    PutReceives(me, peer, f.epoch, [Data(me.history[f.id - 1])]);
    assert w == me.(out := w.out);
    BackUnchanged(w, AfterTransmit(me, i), peer);
  }

  /** What was written does not matter to what the peer can read. */
  lemma LogUnchanged(w: Node, n: Node, peer: Node)
    requires Link(w, peer) && n == w.(log := n.log)
    ensures Link(n, peer)
  {
    assert Sent(n) == Sent(w);
    hide Sent;
  }

  // ---- flights on a dead transport ----------------------------------------------------------

  /** A flight ends without a trace. */
  function Dropped(n: Node, i: nat): Node
    requires i < |n.inflight|
  {
    n.(inflight := Remove(n.inflight, i))
  }

  lemma DropSent(me: Node, i: nat)
    requires Local(me) && i < |me.inflight|
    ensures Sent(me) <= Sent(Dropped(me, i))
  {
    hide Valid, OutOk, LogOk, Before;
    var n := Dropped(me, i);
    if n.inflight != [] {
      assert n.inflight[0] == me.inflight[if i == 0 then 1 else 0];
    }
  }

  lemma DropSends(me: Node, peer: Node, i: nat)
    requires Local(me) && Link(me, peer) && i < |me.inflight| && me.inflight[i].epoch in me.cut
    ensures Link(Dropped(me, i), peer)
  {
    var n := Dropped(me, i);
    DropSent(me, i);
    assert n.inflight != [] ==> n.inflight[0].epoch in n.cut;
    assert n.inflight == [] && !n.buf.reconnecting ==> n.epoch in n.cut;
    hide Local, Sent;
    LongerSends(me, n, peer);
  }

  lemma DropKeeps(me: Node, peer: Node, i: nat)
    requires Local(me) && Link(me, peer) && Link(peer, me) && i < |me.inflight| && me.inflight[i].epoch in me.cut
    ensures var n := Dropped(me, i);
            Local(n) && Link(n, peer) && Link(peer, n)
  {
    DropSends(me, peer, i);
    BackUnchanged(me, Dropped(me, i), peer);
    FlightRemoved(me.inflight, me.buf.total, me.epoch, me.buf.reconnecting, me.reopened, me.cut, me.log, i);
    hide Link, Valid, HistoryOk, OutOk, FlightOk, LogOk;
  }

  // ---- severing -----------------------------------------------------------------------------

  lemma SeveredFacts(n: Node, e: nat, kept: nat, d: nat)
    ensures var w := Severed(n, e, kept);
            && At(w.out, d) <= At(n.out, d)
            && Core(At(w.out, d)) <= Core(At(n.out, d))
            && (d != e ==> At(w.out, d) == At(n.out, d))
  {
    if d == e && kept <= |At(n.out, e)| {
      CorePrefix(At(n.out, e), kept);
    }
  }

  lemma SeverSends(me: Node, peer: Node, e: nat, kept: nat)
    requires Link(me, peer)
    ensures Link(Severed(me, e, kept), peer)
  {
    var n := Severed(me, e, kept);
    assert Sent(n) == Sent(me);
    hide Sent;
    forall d: nat | peer.epoch <= d
      ensures ChannelOk(Core(At(n.out, d)), Sent(n), Base(n.buf), peer.buf.next,
                        peer.buf.waiting, peer.epoch < d)
    {
      SeveredFacts(me, e, kept, d);
      ChannelCut(Core(At(me.out, d)), Core(At(n.out, d)), Sent(me), Base(me.buf), peer.buf.next,
                 peer.buf.waiting, peer.epoch < d);
    }
    SeveredFacts(me, e, kept, peer.epoch);
    SeverTail(me, peer.buf.next, peer.buf.waiting, peer.epoch, e, kept);
  }

  lemma SeverTail(me: Node, next: int, waiting: bool, epoch: nat, e: nat, kept: nat)
    requires TailOk(me, next, waiting, epoch)
    ensures TailOk(Severed(me, e, kept), next, waiting, epoch)
  {
    if me.inflight != [] {
      SeveredFacts(me, e, kept, me.inflight[0].epoch);
    }
    SeveredFacts(me, e, kept, me.epoch);
  }

  lemma SeverLocal(me: Node, e: nat, kept: nat)
    requires Local(me)
    ensures Local(Severed(me, e, kept))
  {
    var n := Severed(me, e, kept);
    forall d: nat | n.epoch < d ensures At(n.out, d) == [] {
      SeveredFacts(me, e, kept, d);
    }
    SeveredFacts(me, e, kept, me.epoch);
  }

  lemma SeverReceives(me: Node, peer: Node, e: nat, kept: nat)
    requires Link(peer, me)
    ensures Link(peer, Severed(me, e, kept))
  {
    var n := Severed(me, e, kept);
    forall d: nat, f | f in At(n.out, d) && f.Ack? ensures f in At(me.out, d) {
      SeveredFacts(me, e, kept, d);
    }
    OutReceives(me, n, peer);
  }

  lemma SeverKeeps(me: Node, peer: Node, e: nat, kept: nat)
    requires Local(me) && Link(me, peer) && Link(peer, me)
    ensures var n := Severed(me, e, kept);
            Local(n) && Link(n, peer) && Link(peer, n)
  {
    SeverLocal(me, e, kept);
    SeverSends(me, peer, e, kept);
    SeverReceives(me, peer, e, kept);
  }

  // ---- noticing a loss ----------------------------------------------------------------------

  function Lost(n: Node): Node
  {
    n.(buf := Disconnected(n.buf))
  }

  lemma DisconnectSends(me: Node, peer: Node)
    requires Link(me, peer)
    ensures Link(Lost(me), peer)
  {
    var n := Lost(me);
    assert TailOk(n, peer.buf.next, peer.buf.waiting, peer.epoch) by {
      if me.inflight != [] {
        assert ContinuesOn(me, peer.buf.next, peer.buf.waiting, peer.epoch,
                           me.inflight[0].epoch, me.inflight[0].id);
      }
    }
  }

  /** A channel whose receiver starts to wait needs nothing more. */
  lemma ChannelWaits(frames: seq<Frame>, history: seq<Bytes>, base: int,
                     next: int, waiting: bool, ahead: bool)
    requires ChannelOk(frames, history, base, next, waiting, ahead)
    ensures ChannelOk(frames, history, base, next, true, ahead)
    ensures forall id :: Continues(frames, next, waiting, ahead, id) ==>
                         Continues(frames, next, true, ahead, id)
  {
  }

  lemma DisconnectReceives(me: Node, peer: Node)
    requires Link(peer, me)
    ensures Link(peer, Lost(me))
  {
    var n := Lost(me);
    forall e: nat | n.epoch <= e
      ensures ChannelOk(Core(At(peer.out, e)), Sent(peer), Base(peer.buf), n.buf.next,
                        n.buf.waiting, n.epoch < e)
    {
      ChannelWaits(Core(At(peer.out, e)), Sent(peer), Base(peer.buf), me.buf.next,
                   me.buf.waiting, me.epoch < e);
    }
    WaitingTail(peer, me.buf.next, me.buf.waiting, me.epoch);
  }

  lemma WaitingTail(s: Node, next: int, waiting: bool, epoch: nat)
    requires TailOk(s, next, waiting, epoch)
    ensures TailOk(s, next, true, epoch)
  {
  }

  lemma DisconnectLocal(me: Node)
    requires Local(me)
    ensures Local(Lost(me))
  {
  }

  lemma DisconnectKeeps(me: Node, peer: Node)
    requires Local(me) && Link(me, peer) && Link(peer, me)
    ensures var n := Lost(me);
            Local(n) && Link(n, peer) && Link(peer, n)
  {
    DisconnectLocal(me);
    DisconnectSends(me, peer);
    DisconnectReceives(me, peer);
  }

  lemma TransmitFailsKeeps(me: Node, peer: Node, i: nat, leaked: bool)
    requires Local(me) && Link(me, peer) && Link(peer, me)
    requires i < |me.inflight| && 1 <= me.inflight[i].id <= |me.history| && (leaked ==> InTurn(me, i))
    ensures var n := AfterTransmitFails(me, i, leaked);
            Local(n) && Link(n, peer) && Link(peer, n)
  {
    var e := me.inflight[i].epoch;
    FailureIsACut(me, i, leaked);
    hide Local, Link, AfterTransmitFails;
    if leaked {
      var sent := AfterTransmit(me, i);
      TransmitKeeps(me, peer, i);
      hide AfterTransmit;
      SeverKeeps(sent, peer, e, |At(sent.out, e)|);
      DisconnectKeeps(Severed(sent, e, |At(sent.out, e)|), peer);
    } else {
      var dead := Severed(me, e, |At(me.out, e)|);
      SeverKeeps(me, peer, e, |At(me.out, e)|);
      DropKeeps(dead, peer, i);
      DisconnectKeeps(Dropped(dead, i), peer);
    }
  }

  /** A failing write cuts its transport after the frame went out, or before. */
  lemma FailureIsACut(me: Node, i: nat, leaked: bool)
    requires i < |me.inflight| && 1 <= me.inflight[i].id <= |me.history|
    ensures var e := me.inflight[i].epoch;
            var sent, dead := AfterTransmit(me, i), Severed(me, e, |At(me.out, e)|);
            && dead.inflight == me.inflight && e in dead.cut
            && AfterTransmitFails(me, i, leaked)
               == if leaked then Lost(Severed(sent, e, |At(sent.out, e)|)) else Lost(Dropped(dead, i))
  {
  }

  // ---- reopening ----------------------------------------------------------------------------

  lemma ReopenLocal(me: Node, e: nat)
    requires Local(me) && me.epoch < e
    ensures Local(AfterReopen(me, e))
  {
    assert At(me.out, e) == [];
  }

  lemma ReopenSends(me: Node, peer: Node, e: nat)
    requires Link(me, peer) && me.epoch < e
    ensures Link(AfterReopen(me, e), peer)
  {
    DisconnectSends(me, peer);
  }

  /** A receiver arriving on a transport waits for the Sequence that the channel may hold. */
  lemma ChannelArrives(frames: seq<Frame>, history: seq<Bytes>, base: int,
                       next: int, waiting: bool)
    requires ChannelOk(frames, history, base, next, waiting, true)
    ensures ChannelOk(frames, history, base, next, true, false)
    ensures forall id :: Continues(frames, next, waiting, true, id) ==>
                         Continues(frames, next, true, false, id)
  {
  }

  lemma ReopenReceives(me: Node, peer: Node, e: nat)
    requires Link(peer, me) && me.epoch < e
    requires OutOk(me.out, me.epoch, me.reopened, me.buf.timer)
    ensures Link(peer, AfterReopen(me, e))
  {
    var n := AfterReopen(me, e);
    forall d: nat | n.epoch <= d
      ensures ChannelOk(Core(At(peer.out, d)), Sent(peer), Base(peer.buf), n.buf.next,
                        n.buf.waiting, n.epoch < d)
    {
      if d == e {
        ChannelArrives(Core(At(peer.out, d)), Sent(peer), Base(peer.buf), me.buf.next, me.buf.waiting);
      } else {
        ChannelWaits(Core(At(peer.out, d)), Sent(peer), Base(peer.buf), me.buf.next, me.buf.waiting, true);
      }
    }
    ReopenTail(peer, me.buf.next, me.buf.waiting, me.epoch, e);
    assert At(me.out, e) == [];
  }

  lemma ReopenTail(s: Node, next: int, waiting: bool, epoch: nat, e: nat)
    requires TailOk(s, next, waiting, epoch) && epoch < e
    ensures TailOk(s, next, true, e)
  {
  }

  lemma ReopenKeeps(me: Node, peer: Node, e: nat)
    requires Local(me) && Link(me, peer) && Link(peer, me) && me.epoch < e
    ensures var n := AfterReopen(me, e);
            Local(n) && Link(n, peer) && Link(peer, n)
  {
    ReopenLocal(me, e);
    ReopenSends(me, peer, e);
    ReopenReceives(me, peer, e);
  }

  // ---- resend -------------------------------------------------------------------------------

  /** The endpoint after the first `k` frames of a resend, complete or not. */
  function Resent(n: Node, k: nat): Node
    requires k <= |ResendFrames(n.buf)|
  {
    Put(n, n.epoch, ResendFrames(n.buf)[..k])
      .(reopened := false,
        buf := n.buf.(reconnecting := n.buf.reconnecting && k < |ResendFrames(n.buf)|),
        log := n.log + TxRange(n.epoch, FirstId(n.buf), if k == 0 then 0 else k - 1, n.epoch !in n.cut))
  }

  lemma ResendIsResent(n: Node, written: nat)
    requires n.buf.reconnecting
    ensures var all := |ResendFrames(n.buf)|;
            AfterResend(n, written)
            == if written < all
               then Severed(Resent(n, written), n.epoch, |At(Resent(n, written).out, n.epoch)|)
               else Resent(n, all)
  {
    var all := ResendFrames(n.buf);
    assert all[..|all|] == all;
  }

  /** The frames of a resend are a Sequence and the buffered tail of the history. */
  lemma ResendRun(buf: Buffer, history: seq<Bytes>, k: nat)
    requires Valid(buf) && HistoryOk(buf, history)
    requires 1 <= k <= |buf.messages| + 1
    ensures var frames := ResendFrames(buf)[..k];
            && Core(frames) == frames
            && frames[0] == Sequence(Base(buf) + 1)
            && |Payloads(frames)| == k - 1
            && Run(history, Base(buf) + 1, Payloads(frames))
  {
    assert FirstId(buf) == Base(buf) + 1;
    hide Valid, Core, Payloads, ResendFrames;
    ResendCore(buf, k);
  }

  lemma ResendCore(buf: Buffer, k: nat)
    requires 1 <= k <= |buf.messages| + 1
    ensures var frames := ResendFrames(buf)[..k];
            && Core(frames) == frames && frames[0] == Sequence(FirstId(buf))
            && |Payloads(frames)| == k - 1
            && (forall i | 0 <= i < k - 1 :: Payloads(frames)[i] == buf.messages[i].message)
  {
    ResendShape(buf, k);
    var frames := ResendFrames(buf)[..k];
    hide ResendFrames;
    var data := frames[1..];
    DataCore(data);
    CoreFirst(frames);
    hide Core, Payloads;
    assert [frames[0]] + data == frames;
  }

  lemma ResendShape(buf: Buffer, k: nat)
    requires 1 <= k <= |buf.messages| + 1
    ensures var frames := ResendFrames(buf)[..k];
            && frames[0] == Sequence(FirstId(buf))
            && (forall f | f in frames[1..] :: f.Data?)
            && (forall i | 0 <= i < k - 1 :: frames[1..][i] == Data(buf.messages[i].message))
  {
    hide DataFrames;
    assert ResendFrames(buf)[..k][1..] == DataFrames(buf.messages)[..k - 1];
  }

  lemma CoreFirst(frames: seq<Frame>)
    requires frames != [] && frames[0].Sequence?
    ensures Core(frames) == [frames[0]] + Core(frames[1..]) && Payloads(frames) == Payloads(frames[1..])
  {
  }

  lemma ResendFits(buf: Buffer, history: seq<Bytes>, k: nat, next: int, waiting: bool, ahead: bool)
    requires Valid(buf) && HistoryOk(buf, history)
    requires 1 <= k <= |buf.messages| + 1
    requires ahead || waiting
    ensures var frames := ResendFrames(buf)[..k];
            && Core(frames) == frames
            && ChannelOk(frames, history, Base(buf), next, waiting, ahead)
            && (k == |buf.messages| + 1 ==> Continues(frames, next, waiting, ahead, buf.total + 1))
  {
    ResendRun(buf, history, k);
    var frames := ResendFrames(buf)[..k];
    assert forall i | 0 < i < k :: frames[i] == DataFrames(buf.messages)[i - 1];
  }

  lemma ResendChannel(me: Node, next: int, waiting: bool, epoch: nat, e: nat, k: nat)
    requires Valid(me.buf) && HistoryOk(me.buf, me.history) && Core(At(me.out, me.epoch)) == [] && me.inflight == []
    requires k <= |me.buf.messages| + 1 && epoch <= e
    requires me.epoch == epoch ==> waiting
    requires ChannelOk(Core(At(me.out, e)), Sent(me), Base(me.buf), next, waiting, epoch < e)
    ensures var n := Resent(me, k);
            && ChannelOk(Core(At(n.out, e)), Sent(me), Base(me.buf), next, waiting, epoch < e)
            && (e == me.epoch && k == |me.buf.messages| + 1 && e !in me.cut ==>
                  Continues(Core(At(n.out, e)), next, waiting, epoch < e, me.buf.total + 1))
            && (e != me.epoch ==> At(n.out, e) == At(me.out, e))
  {
    var frames := ResendFrames(me.buf)[..k];
    PutFacts(me, me.epoch, frames, e);
    if e == me.epoch && e !in me.cut {
      assert Core(At(Resent(me, k).out, e)) == Core(frames);
      if k == 0 {
        assert frames == [];
      } else {
        ResendFits(me.buf, me.history, k, next, waiting, epoch < e);
      }
    } else {
      assert At(Resent(me, k).out, e) == At(me.out, e);
    }
  }

  lemma ResendChannels(me: Node, next: int, waiting: bool, epoch: nat, k: nat)
    requires Valid(me.buf) && HistoryOk(me.buf, me.history) && Core(At(me.out, me.epoch)) == [] && me.inflight == []
    requires k <= |me.buf.messages| + 1 && (me.epoch == epoch ==> waiting)
    requires ChannelsOk(me.out, Sent(me), Base(me.buf), next, waiting, epoch)
    ensures var n := Resent(me, k);
            && ChannelsOk(n.out, Sent(me), Base(me.buf), next, waiting, epoch)
            && (k == |me.buf.messages| + 1 ==> ContinuesOn(n, next, waiting, epoch, me.epoch, me.buf.total + 1))
            && (me.epoch != epoch ==> At(n.out, epoch) == At(me.out, epoch))
  {
    hide Sent, Valid, HistoryOk, Core, At, ChannelOk, Continues, DataFrames;
    var n := Resent(me, k);
    forall e: nat | epoch <= e
      ensures ChannelOk(Core(At(n.out, e)), Sent(me), Base(me.buf), next, waiting, epoch < e)
      ensures e == me.epoch && k == |me.buf.messages| + 1 ==>
                ContinuesOn(n, next, waiting, epoch, e, me.buf.total + 1)
    {
      ResendChannel(me, next, waiting, epoch, e, k);
      ResendFields(me, k);
    }
    ResendChannel(me, next, waiting, epoch, epoch, k);
  }

  lemma ResendFields(me: Node, k: nat)
    requires k <= |ResendFrames(me.buf)|
    ensures var n := Resent(me, k);
            && n.epoch == me.epoch && n.cut == me.cut && n.inflight == me.inflight && n.history == me.history
            && !n.reopened && Base(n.buf) == Base(me.buf) && n.buf.total == me.buf.total
            && n.buf.reconnecting == (me.buf.reconnecting && k < |ResendFrames(me.buf)|)
            && Sent(n) == Sent(me)
  {
    hide At, DataFrames, TxRange;
  }

  lemma ResendSends(me: Node, peer: Node, k: nat)
    requires Local(me) && Link(me, peer) && me.reopened && me.inflight == []
    requires k <= |me.buf.messages| + 1
    ensures Link(Resent(me, k), peer)
  {
    assert me.epoch == peer.epoch ==> peer.buf.waiting;
    assert |ResendFrames(me.buf)| == |me.buf.messages| + 1;
    ResendFields(me, k);
    ResendChannels(me, peer.buf.next, peer.buf.waiting, peer.epoch, k);
    hide Local, Sent, Core, At, ChannelsOk, ContinuesOn, CountsOk, AcksOk, Resent, ResendFrames;
  }

  lemma ResendLog(log: seq<Tx>, total: int, epoch: nat, first: int, count: nat, reached: bool)
    requires LogOk(log, total, epoch, true)
    requires 1 <= first && first - 1 + count <= total
    ensures LogOk(log + TxRange(epoch, first, count, reached), total, epoch, false)
  {
  }

  lemma ResendLocal(me: Node, k: nat)
    requires Local(me) && me.reopened && me.inflight == []
    requires k <= |me.buf.messages| + 1
    ensures Local(Resent(me, k))
  {
    var n := Resent(me, k);
    forall d: nat | n.epoch < d ensures At(n.out, d) == [] {
      PutFacts(me, me.epoch, ResendFrames(me.buf)[..k], d);
    }
    ResendLog(me.log, me.buf.total, me.epoch, FirstId(me.buf), if k == 0 then 0 else k - 1, me.epoch !in me.cut);
  }

  lemma ResendReceives(me: Node, peer: Node, k: nat)
    requires Link(peer, me) && k <= |me.buf.messages| + 1
    ensures Link(peer, Resent(me, k))
  {
    var frames := ResendFrames(me.buf)[..k];
    PutReceives(me, peer, me.epoch, frames);
    BackUnchanged(Put(me, me.epoch, frames), Resent(me, k), peer);
  }

  lemma ResendKeeps(me: Node, peer: Node, written: nat)
    requires Local(me) && Link(me, peer) && Link(peer, me)
    requires me.reopened && me.inflight == []
    ensures var n := AfterResend(me, written);
            Local(n) && Link(n, peer) && Link(peer, n)
  {
    var all := |ResendFrames(me.buf)|;
    var k := if written < all then written else all;
    ResendLocal(me, k);
    ResendSends(me, peer, k);
    ResendReceives(me, peer, k);
    ResendIsResent(me, written);
    if written < all {
      SeverKeeps(Resent(me, k), peer, me.epoch, |At(Resent(me, k).out, me.epoch)|);
    }
  }

  // ---- acknowledgement timer ----------------------------------------------------------------

  lemma AckTimerLocal(me: Node)
    requires Local(me)
    ensures Local(AfterAckTimer(me))
  {
    if me.buf.timer.Some? {
      var n := AfterAckTimer(me);
      if !me.buf.reconnecting {
        PutOut(me, me.buf.timer.value, [Ack(me.buf.latest)]);
      }
      OutWithoutTimer(n.out, me.epoch, me.reopened, me.buf.timer);
      CountersValid(me.buf, n.buf);
    }
    hide Valid, OutOk, FlightOk, LogOk, Put;
  }

  lemma OutWithoutTimer(out: map<nat, seq<Frame>>, epoch: nat, reopened: bool, timer: Option<nat>)
    requires OutOk(out, epoch, reopened, timer)
    ensures OutOk(out, epoch, reopened, None)
  {
  }

  lemma AckSends(me: Node, peer: Node, c: nat, a: int)
    requires Link(me, peer) && c <= peer.epoch
    ensures Link(Put(me, c, [Ack(a)]), peer)
  {
    var n := Put(me, c, [Ack(a)]);
    assert Sent(n) == Sent(me) && n == me.(out := n.out);
    var next, waiting, epoch := peer.buf.next, peer.buf.waiting, peer.epoch;
    hide Sent, Put, Core, At, ChannelOk, Continues, CountsOk, AcksOk;
    forall e: nat | epoch <= e
      ensures ChannelOk(Core(At(n.out, e)), Sent(n), Base(n.buf), next, waiting, epoch < e)
      ensures forall id :: ContinuesOn(me, next, waiting, epoch, e, id) ==> ContinuesOn(n, next, waiting, epoch, e, id)
      ensures SequencePending(Core(At(n.out, e))) ==> SequencePending(Core(At(me.out, e)))
    {
      CoreOfData(Ack(a));
      PutFacts(me, c, [Ack(a)], e);
      assert ChannelOk(Core(At(me.out, e)), Sent(me), Base(me.buf), next, waiting, epoch < e);
      if e == c && c !in me.cut {
        ChannelAck(Core(At(me.out, e)), Sent(me), Base(me.buf), next, waiting, a);
      }
    }
    assert TailOk(n, next, waiting, epoch) by {
      if me.inflight != [] {
        assert ContinuesOn(me, next, waiting, epoch, me.inflight[0].epoch, me.inflight[0].id);
      }
    }
  }

  lemma AckTimerReceives(me: Node, peer: Node)
    requires Link(peer, me)
    ensures Link(peer, AfterAckTimer(me))
  {
    if me.buf.timer.Some? && !me.buf.reconnecting {
      var c := me.buf.timer.value;
      var n := AfterAckTimer(me);
      forall e: nat | peer.epoch <= e ensures AcksBelow(At(n.out, e), n.buf.next) {
        assert AcksBelow(At(me.out, e), me.buf.next);
        PutFacts(me, c, [Ack(me.buf.latest)], e);
      }
      PutFacts(me, c, [Ack(me.buf.latest)], me.epoch);
    }
  }

  /** What an endpoint has received does not matter to what it sends. */
  lemma ForthUnchanged(w: Node, n: Node, peer: Node)
    requires Link(w, peer)
    requires n == w.(buf := n.buf, delivered := n.delivered, rejected := n.rejected)
    requires n.buf == w.buf.(timer := n.buf.timer, next := n.buf.next, latest := n.buf.latest,
                             waiting := n.buf.waiting)
    ensures Link(n, peer)
  {
    assert Sent(n) == Sent(w);
    hide Sent;
  }

  lemma AckTimerKeeps(me: Node, peer: Node)
    requires Local(me) && Link(me, peer) && Link(peer, me)
    ensures var n := AfterAckTimer(me);
            Local(n) && Link(n, peer) && Link(peer, n)
  {
    AckTimerLocal(me);
    AckTimerReceives(me, peer);
    if me.buf.timer.Some? {
      var w := if me.buf.reconnecting then me
               else Put(me, me.buf.timer.value, [Ack(me.buf.latest)]);
      if !me.buf.reconnecting {
        AckSends(me, peer, me.buf.timer.value, me.buf.latest);
      }
      ForthUnchanged(w, AfterAckTimer(me), peer);
    }
  }

  // ---- receive ------------------------------------------------------------------------------

  function Popped(peer: Node, e: nat): Node
    requires At(peer.out, e) != []
  {
    peer.(out := peer.out[e := At(peer.out, e)[1..]])
  }

  lemma PoppedFacts(peer: Node, e: nat, d: nat)
    requires At(peer.out, e) != []
    ensures var w := Popped(peer, e);
            var head := At(peer.out, e)[0];
            && (d != e ==> At(w.out, d) == At(peer.out, d))
            && (forall f | f in At(w.out, d) :: f in At(peer.out, d))
            && (d == e && head.Control? ==> Core(At(w.out, d)) == Core(At(peer.out, d)))
            && (d == e && !head.Control? ==>
                  && Core(At(peer.out, d)) == [head] + Core(At(w.out, d))
                  && Core(At(peer.out, d)) != []
                  && Core(At(peer.out, d))[0] == head
                  && Core(At(peer.out, d))[1..] == Core(At(w.out, d)))
  {
  }

  lemma SentPopped(peer: Node, e: nat)
    requires At(peer.out, e) != []
    ensures Sent(Popped(peer, e)) == Sent(peer)
  {
  }

  lemma PoppedLocal(peer: Node, e: nat)
    requires Local(peer) && At(peer.out, e) != []
    ensures Local(Popped(peer, e))
  {
    var w := Popped(peer, e);
    forall d: nat | w.epoch < d ensures At(w.out, d) == [] {
      PoppedFacts(peer, e, d);
    }
    PoppedFacts(peer, e, peer.epoch);
  }

  lemma PoppedReceives(me: Node, peer: Node, e: nat)
    requires Link(me, peer) && At(peer.out, e) != []
    ensures Link(me, Popped(peer, e))
  {
    forall d: nat, f | f in At(Popped(peer, e).out, d) && f.Ack? ensures f in At(peer.out, d) {
      PoppedFacts(peer, e, d);
    }
    OutReceives(peer, Popped(peer, e), me);
  }

  /** A channel on a transport the receiver has not reached does not depend on its counters. */
  lemma ChannelAhead(frames: seq<Frame>, history: seq<Bytes>, base: int,
                     next: int, waiting: bool, next': int, waiting': bool)
    requires ChannelOk(frames, history, base, next, waiting, true)
    ensures ChannelOk(frames, history, base, next', waiting', true)
    ensures forall id :: Continues(frames, next, waiting, true, id) ==>
                         Continues(frames, next', waiting', true, id)
  {
  }

  /** The receiver's new counters fit what is left on the transport it reads. */
  ghost predicate Fits(me: Node, peer: Node, buf: Buffer)
    requires At(peer.out, me.epoch) != []
  {
    var unread := Core(At(peer.out, me.epoch));
    var rest := Core(At(Popped(peer, me.epoch).out, me.epoch));
    && ChannelOk(rest, Sent(peer), Base(peer.buf), buf.next, buf.waiting, false)
    && (forall id :: Continues(unread, me.buf.next, me.buf.waiting, false, id) ==>
                     Continues(rest, buf.next, buf.waiting, false, id))
  }

  lemma ReadChannels(me: Node, peer: Node, buf: Buffer)
    requires At(peer.out, me.epoch) != []
    requires ChannelsOk(peer.out, Sent(peer), Base(peer.buf), me.buf.next, me.buf.waiting, me.epoch)
    requires TailOk(peer, me.buf.next, me.buf.waiting, me.epoch)
    requires Fits(me, peer, buf)
    ensures var w := Popped(peer, me.epoch);
            && ChannelsOk(w.out, Sent(peer), Base(peer.buf), buf.next, buf.waiting, me.epoch)
            && TailOk(w, buf.next, buf.waiting, me.epoch)
  {
    var w := Popped(peer, me.epoch);
    forall e: nat | me.epoch <= e
      ensures ChannelOk(Core(At(w.out, e)), Sent(peer), Base(peer.buf), buf.next, buf.waiting, me.epoch < e)
      ensures forall id :: ContinuesOn(peer, me.buf.next, me.buf.waiting, me.epoch, e, id) ==>
                           ContinuesOn(w, buf.next, buf.waiting, me.epoch, e, id)
    {
      if e != me.epoch {
        PoppedFacts(peer, me.epoch, e);
        ChannelAhead(Core(At(peer.out, e)), Sent(peer), Base(peer.buf), me.buf.next,
                     me.buf.waiting, buf.next, buf.waiting);
      }
    }
    if peer.inflight != [] {
      assert ContinuesOn(peer, me.buf.next, me.buf.waiting, me.epoch,
                         peer.inflight[0].epoch, peer.inflight[0].id);
    }
  }

  lemma ReceiveControl(me: Node, peer: Node)
    requires Link(peer, me) && At(peer.out, me.epoch) != [] && At(peer.out, me.epoch)[0].Control?
    ensures Link(Popped(peer, me.epoch), me)
  {
    SentPopped(peer, me.epoch);
    PoppedFacts(peer, me.epoch, me.epoch);
    assert ChannelOk(Core(At(peer.out, me.epoch)), Sent(peer), Base(peer.buf), me.buf.next, me.buf.waiting, false);
    hide Sent, Core, ChannelsOk, ChannelOk, Continues, TailOk, CountsOk, AcksOk;
    ReadChannels(me, peer, me.buf);
  }

  lemma ReceiveSkipped(me: Node, peer: Node)
    requires Link(peer, me) && At(peer.out, me.epoch) != []
    requires me.buf.waiting
    requires var f := At(peer.out, me.epoch)[0]; !f.Control? && !f.Sequence?
    ensures Link(Popped(peer, me.epoch), me)
  {
    PoppedFacts(peer, me.epoch, me.epoch);
    ChannelSkip(Core(At(peer.out, me.epoch)), Sent(peer), Base(peer.buf), me.buf.next);
    ReadChannels(me, peer, me.buf);
  }

  /** A Sequence is only ever read while waiting for it, and it is never refused. */
  lemma ReceiveSequence(me: Node, peer: Node)
    requires Local(me) && Local(peer) && Link(peer, me) && At(peer.out, me.epoch) != []
    requires At(peer.out, me.epoch)[0].Sequence?
    ensures At(peer.out, me.epoch)[0].id <= me.buf.next
    ensures Link(Popped(peer, me.epoch), Dispatched(me, At(peer.out, me.epoch)[0]))
  {
    assert OutOk(me.out, me.epoch, me.reopened, me.buf.timer);
    assert OutOk(peer.out, peer.epoch, peer.reopened, peer.buf.timer);
    hide Local, OutOk, Dispatched, Sent, CountsOk, ChannelsOk, TailOk, AcksOk, Core, At;
    var f := At(peer.out, me.epoch)[0];
    SentPopped(peer, me.epoch);
    ReadsSequence(me, peer);
    SequenceRead(me, f);
    SequenceResets(me, peer, f.id);
  }

  lemma SequenceRead(me: Node, f: Frame)
    requires f.Sequence? && f.id <= me.buf.next
    ensures Dispatched(me, f) == me.(buf := me.buf.(next := f.id, waiting := false))
  {
  }

  /** The Sequence on a transport is the first frame, comes to a waiting end, and announces the oldest
      message its sender still holds. */
  lemma ReadsSequence(me: Node, peer: Node)
    requires Link(peer, me) && At(peer.out, me.epoch) != [] && At(peer.out, me.epoch)[0].Sequence?
    ensures var f, w := At(peer.out, me.epoch)[0], Popped(peer, me.epoch);
            && f.id == Base(peer.buf) + 1 && f.id <= me.buf.next && me.buf.waiting
            && SequencePending(Core(At(peer.out, me.epoch)))
            && ChannelsOk(w.out, Sent(peer), Base(peer.buf), f.id, false, me.epoch)
            && TailOk(w, f.id, false, me.epoch)
            && !SequencePending(Core(At(w.out, me.epoch)))
  {
    var f := At(peer.out, me.epoch)[0];
    var frames := Core(At(peer.out, me.epoch));
    PoppedFacts(peer, me.epoch, me.epoch);
    assert ChannelOk(frames, Sent(peer), Base(peer.buf), me.buf.next, me.buf.waiting, false);
    assert Base(peer.buf) + 1 <= me.buf.next;
    hide Sent, Core, ChannelsOk, TailOk, CountsOk, AcksOk, SyncOk;
    ChannelResync(frames, Sent(peer), Base(peer.buf), me.buf.next);
    ReadChannels(me, peer, me.buf.(next := f.id, waiting := false));
  }

  /** The counters once a Sequence was read: nothing had been acknowledged on this transport. */
  lemma SequenceResets(me: Node, peer: Node, id: int)
    requires OutOk(me.out, me.epoch, me.reopened, me.buf.timer)
    requires OutOk(peer.out, peer.epoch, peer.reopened, peer.buf.timer)
    requires Link(peer, me) && SequencePending(Core(At(peer.out, me.epoch)))
    requires Base(peer.buf) + 1 == id <= me.buf.next
    ensures CountsOk(Sent(peer), Base(peer.buf), id, me.buf.latest, me.delivered)
    ensures AcksOk(me.out, id, me.buf.latest, me.buf.timer, peer.epoch)
    ensures me.epoch <= peer.epoch && (peer.epoch == me.epoch ==> !peer.reopened)
  {
    hide Sent, ChannelsOk, TailOk;
    assert At(peer.out, me.epoch) != [];
    assert me.epoch <= peer.epoch;
    forall e: nat | peer.epoch <= e ensures AcksBelow(At(me.out, e), id) {
      if e > me.epoch {
        assert At(me.out, e) == [];
      }
    }
  }

  lemma ReceiveData(me: Node, peer: Node)
    requires Link(peer, me) && At(peer.out, me.epoch) != []
    requires At(peer.out, me.epoch)[0].Data? && !me.buf.waiting
    ensures Link(Popped(peer, me.epoch), Dispatched(me, At(peer.out, me.epoch)[0]))
  {
    assert me.buf.next <= me.buf.latest + 1 && me.epoch <= peer.epoch && me.delivered + [] == me.delivered;
    hide Dispatched, Sent, CountsOk, ChannelsOk, TailOk, AcksOk, Core, At;
    var f := At(peer.out, me.epoch)[0];
    var n := Dispatched(me, f);
    SentPopped(peer, me.epoch);
    DataCounted(me, f);
    ReadsCounted(me, peer, n.buf);
    CountOne(Sent(peer), Base(peer.buf), me.buf.next, me.buf.latest, me.delivered, f.payload);
    AcksCounted(me.out, me.buf.next, me.buf.latest, me.buf.timer, peer.epoch, me.epoch, n.buf.latest, n.buf.timer);
  }

  /** What is left of the transport after a counted message was read. */
  lemma ReadsCounted(me: Node, peer: Node, buf: Buffer)
    requires At(peer.out, me.epoch) != [] && At(peer.out, me.epoch)[0].Data? && !me.buf.waiting
    requires ChannelsOk(peer.out, Sent(peer), Base(peer.buf), me.buf.next, me.buf.waiting, me.epoch)
    requires TailOk(peer, me.buf.next, me.buf.waiting, me.epoch)
    requires buf.next == me.buf.next + 1 && !buf.waiting
    ensures var w := Popped(peer, me.epoch);
            && ChannelsOk(w.out, Sent(peer), Base(peer.buf), buf.next, buf.waiting, me.epoch)
            && TailOk(w, buf.next, buf.waiting, me.epoch)
            && !SequencePending(Core(At(w.out, me.epoch)))
    ensures 1 <= me.buf.next <= |Sent(peer)|
    ensures At(peer.out, me.epoch)[0].payload == Sent(peer)[me.buf.next - 1]
  {
    hide Sent, TailOk;
    var frames := Core(At(peer.out, me.epoch));
    PoppedFacts(peer, me.epoch, me.epoch);
    assert ChannelOk(frames, Sent(peer), Base(peer.buf), me.buf.next, me.buf.waiting, false);
    hide Core, ChannelsOk;
    ChannelRead(frames, Sent(peer), Base(peer.buf), me.buf.next);
    ReadChannels(me, peer, buf);
  }

  lemma AcksCounted(out: map<nat, seq<Frame>>, next: int, latest: int, timer: Option<nat>, epoch: nat,
                    mine: nat, newest: int, timer': Option<nat>)
    requires AcksOk(out, next, latest, timer, epoch) && next <= latest + 1
    requires newest == if next > latest then next else latest
    requires timer' == timer || (next >= latest && timer' == Some(mine))
    requires mine <= epoch
    ensures AcksOk(out, next + 1, newest, timer', epoch)
  {
    forall e: nat | epoch <= e ensures AcksBelow(At(out, e), next + 1) {
      assert AcksBelow(At(out, e), next);
    }
  }

  /** What dispatching a counted message does. */
  lemma DataCounted(me: Node, f: Frame)
    requires f.Data? && !me.buf.waiting
    ensures var n := Dispatched(me, f);
            var processed := me.buf.next > me.buf.latest;
            && n.buf.next == me.buf.next + 1 && !n.buf.waiting && n.out == me.out && n.epoch == me.epoch
            && n.buf.latest == (if processed then me.buf.next else me.buf.latest)
            && n.delivered == me.delivered + (if processed then [f.payload] else [])
            && n.rejected == me.rejected
            && (n.buf.timer == me.buf.timer || (me.buf.next >= me.buf.latest && n.buf.timer == Some(me.epoch)))
  {
  }

  lemma CountOne(history: seq<Bytes>, base: int, next: int, latest: int, delivered: seq<Bytes>, payload: Bytes)
    requires CountsOk(history, base, next, latest, delivered)
    requires 1 <= next <= |history| && payload == history[next - 1]
    ensures next > latest ==> CountsOk(history, base, next + 1, next, delivered + [payload])
    ensures next <= latest ==> CountsOk(history, base, next + 1, latest, delivered)
  {
    if next > latest {
      assert history[..next] == history[..latest] + [payload];
    }
  }

  /** An acknowledgement the endpoint can read was sent after the peer had caught up on this
      very transport, so no Sequence of the endpoint is still unread. */
  lemma NoSequenceUnread(me: Node, peer: Node, id: int)
    requires OutOk(me.out, me.epoch, me.reopened, me.buf.timer)
    requires OutOk(peer.out, peer.epoch, peer.reopened, peer.buf.timer)
    requires SyncOk(me, peer)
    requires Ack(id) in At(peer.out, me.epoch)
    ensures forall e: nat | peer.epoch <= e :: !SequencePending(Core(At(me.out, e)))
  {
    assert me.epoch <= peer.epoch;
    forall e: nat | peer.epoch <= e ensures !SequencePending(Core(At(me.out, e))) {
      if e > me.epoch {
        assert At(me.out, e) == [];
      }
    }
  }

  lemma AckedSends(me: Node, peer: Node, id: int)
    requires Local(me) && Local(peer) && Link(me, peer)
    requires Ack(id) in At(peer.out, me.epoch)
    ensures Link(me.(buf := Acked(me.buf, id)), peer)
  {
    var n := me.(buf := Acked(me.buf, id));
    AckedValid(me.buf, id);
    assert AcksBelow(At(peer.out, me.epoch), peer.buf.next);
    NoSequenceUnread(me, peer, id);
    forall e: nat | peer.epoch <= e
      ensures ChannelOk(Core(At(n.out, e)), Sent(n), Base(n.buf), peer.buf.next,
                        peer.buf.waiting, peer.epoch < e)
    {
      assert ChannelOk(Core(At(me.out, e)), Sent(me), Base(me.buf), peer.buf.next,
                       peer.buf.waiting, peer.epoch < e);
    }
  }

  lemma AckedReceives(me: Node, peer: Node, id: int)
    requires Valid(me.buf) && Link(peer, me)
    ensures Link(peer, me.(buf := Acked(me.buf, id)))
  {
  }

  lemma AckedHistory(b: Buffer, id: int, history: seq<Bytes>)
    requires HistoryOk(b, history)
    ensures HistoryOk(Acked(b, id), history)
  {
    hide SumLen, Waiters, Relieved;
    var c, k := Acked(b, id), Covered(b, id);
    var rest := b.messages[k..];
    assert |c.messages| == |rest| && Base(c) == Base(b) + k;
    forall i | 0 <= i < |c.messages| ensures c.messages[i].message == history[Base(c) + i] {
      assert c.messages[i].message == rest[i].message && rest[i] == b.messages[k + i];
    }
  }

  lemma AckedLocal(me: Node, id: int)
    requires Local(me)
    ensures Local(me.(buf := Acked(me.buf, id)))
  {
    hide Valid, HistoryOk, OutOk, FlightOk, LogOk, SumLen, Waiters;
    AckedValid(me.buf, id);
    AckedHistory(me.buf, id, me.history);
  }

  lemma ReceiveAck(me: Node, peer: Node)
    requires Local(me) && Local(peer) && Link(me, peer) && Link(peer, me)
    requires At(peer.out, me.epoch) != []
    requires At(peer.out, me.epoch)[0].Ack? && !me.buf.waiting
    ensures var n := Dispatched(me, At(peer.out, me.epoch)[0]);
            var w := Popped(peer, me.epoch);
            Local(n) && Link(n, w) && Link(w, n)
  {
    var f := At(peer.out, me.epoch)[0];
    var w := Popped(peer, me.epoch);
    assert Dispatched(me, f) == me.(buf := Acked(me.buf, f.id));
    hide Link, Dispatched, Acked;
    ReceivePassed(me, peer);
    AckedReceives(me, w, f.id);
    AckedSends(me, peer, f.id);
    PoppedReceives(me.(buf := Acked(me.buf, f.id)), peer, me.epoch);
    AckedLocal(me, f.id);
  }

  /** An acknowledgement is taken off the transport. */
  lemma ReceivePassed(me: Node, peer: Node)
    requires Link(peer, me) && At(peer.out, me.epoch) != []
    requires At(peer.out, me.epoch)[0].Ack? && !me.buf.waiting
    ensures Link(Popped(peer, me.epoch), me)
  {
    SentPopped(peer, me.epoch);
    PoppedFacts(peer, me.epoch, me.epoch);
    var frames := Core(At(peer.out, me.epoch));
    assert ChannelOk(frames, Sent(peer), Base(peer.buf), me.buf.next, me.buf.waiting, false);
    hide Sent, Core, ChannelsOk, TailOk, CountsOk, AcksOk;
    ChannelRead(frames, Sent(peer), Base(peer.buf), me.buf.next);
    ReadChannels(me, peer, me.buf);
  }

  lemma CountersLocal(me: Node, n: Node)
    requires Local(me)
    requires n == me.(buf := n.buf, delivered := n.delivered, rejected := n.rejected)
    requires n.buf == me.buf.(timer := n.buf.timer, next := n.buf.next, latest := n.buf.latest,
                              waiting := n.buf.waiting)
    requires n.buf.timer.Some? ==> n.buf.timer.value <= n.epoch
    ensures Local(n)
  {
  }

  lemma CountedLocal(me: Node, f: Frame)
    requires Local(me) && (f.Data? || f.Sequence?)
    ensures Local(Dispatched(me, f))
  {
    hide Valid, HistoryOk, FlightOk, LogOk, Acked;
    var n := Dispatched(me, f);
    assert n.buf.timer.Some? ==> n.buf.timer.value <= n.epoch;
    CountersLocal(me, n);
  }

  lemma ReceiveCounted(me: Node, peer: Node)
    requires Local(me) && Local(peer) && Link(me, peer) && Link(peer, me)
    requires At(peer.out, me.epoch) != []
    requires var f := At(peer.out, me.epoch)[0]; f.Sequence? || (f.Data? && !me.buf.waiting)
    ensures var n := Dispatched(me, At(peer.out, me.epoch)[0]);
            var w := Popped(peer, me.epoch);
            Local(n) && Link(n, w) && Link(w, n)
  {
    hide Local, Link;
    var f := At(peer.out, me.epoch)[0];
    CountedLocal(me, f);
    PoppedReceives(me, peer, me.epoch);
    ForthUnchanged(me, Dispatched(me, f), Popped(peer, me.epoch));
    if f.Sequence? {
      ReceiveSequence(me, peer);
    } else {
      ReceiveData(me, peer);
    }
  }

  lemma ReceiveKeeps(me: Node, peer: Node)
    requires Local(me) && Local(peer) && Link(me, peer) && Link(peer, me)
    requires At(peer.out, me.epoch) != []
    ensures var n := Dispatched(me, At(peer.out, me.epoch)[0]);
            var w := Popped(peer, me.epoch);
            Local(n) && Local(w) && Link(n, w) && Link(w, n)
  {
    hide Local, Link;
    var f := At(peer.out, me.epoch)[0];
    PoppedLocal(peer, me.epoch);
    if f.Control? {
      ReceiveControl(me, peer);
      PoppedReceives(me, peer, me.epoch);
    } else if me.buf.waiting && !f.Sequence? {
      ReceiveSkipped(me, peer);
      PoppedReceives(me, peer, me.epoch);
    } else if f.Ack? {
      ReceiveAck(me, peer);
    } else {
      ReceiveCounted(me, peer);
    }
  }

  // ---- every step ---------------------------------------------------------------------------

  lemma SendingKeeps(me: Node, peer: Node, step: Step)
    requires Local(me) && Local(peer) && Link(me, peer) && Link(peer, me)
    requires step.Transmit? || step.TransmitFails?
    requires step.Transmit? || step.leaked ==> InTurn(me, step.index)
    ensures var (n, w) := Next(me, peer, step);
            Local(n) && Local(w) && Link(n, w) && Link(w, n)
  {
    if step.index < |me.inflight| {
      FlightStored(me, step.index);
    }
    hide Local, Link;
    match step
    case Transmit(i) => if i < |me.inflight| { TransmitKeeps(me, peer, i); }
    case TransmitFails(i, leaked) => if i < |me.inflight| { TransmitFailsKeeps(me, peer, i, leaked); }
  }

  lemma BufferingKeeps(me: Node, peer: Node, step: Step)
    requires Local(me) && Local(peer) && Link(me, peer) && Link(peer, me)
    requires step.Submit? || step.Resend?
    ensures var (n, w) := Next(me, peer, step);
            Local(n) && Local(w) && Link(n, w) && Link(w, n)
  {
    hide Local, Link;
    match step
    case Submit(message) => SubmitKeeps(me, peer, message);
    case Resend(written) => if me.reopened && me.inflight == [] { ResendKeeps(me, peer, written); }
  }

  lemma NextKeeps(me: Node, peer: Node, step: Step)
    requires Local(me) && Local(peer) && Link(me, peer) && Link(peer, me)
    requires step.Transmit? || (step.TransmitFails? && step.leaked) ==> InTurn(me, step.index)
    requires !step.ClientResult?
    ensures var (n, w) := Next(me, peer, step);
            Local(n) && Local(w) && Link(n, w) && Link(w, n)
  {
    hide Local, Link;
    match step
    case Disconnect => DisconnectKeeps(me, peer);
    case Reopen(e) => if e > me.epoch { ReopenKeeps(me, peer, e); }
    case Receive => if At(peer.out, me.epoch) != [] { ReceiveKeeps(me, peer); }
    case AckTimer => AckTimerKeeps(me, peer);
    case Sever(e, kept) => SeverKeeps(me, peer, e, kept);
    case KeepAlive => KeepAliveKeeps(me, peer);
    case Submit(_) => BufferingKeeps(me, peer, step);
    case Resend(_) => BufferingKeeps(me, peer, step);
    case _ => SendingKeeps(me, peer, step);
  }

  /** Every orderly step of either endpoint keeps the invariant. */
  lemma PerformKeeps(w: World, a: Action)
    requires Inv(w) && Orderly(w, a)
    ensures Inv(Perform(w, a))
  {
    hide Local, Link, Next;
    if a.left {
      NextKeeps(w.left, w.right, a.step);
    } else {
      NextKeeps(w.right, w.left, a.step);
    }
  }

  lemma InitialHolds(leftCapacity: nat, rightCapacity: nat)
    ensures Inv(Initial(leftCapacity, rightCapacity))
  {
    StartLinks(leftCapacity, rightCapacity);
    StartLinks(rightCapacity, leftCapacity);
  }

  lemma StartLinks(c: nat, d: nat)
    ensures Local(Start(c)) && Link(Start(c), Start(d))
  {
    StartLocal(c);
    StartLink(c, d);
    hide Local, Link;
  }

  lemma StartLocal(c: nat)
    ensures Local(Start(c))
  {
    assert SumLen([]) == 0 && Waiters([]) == [] && Core([]) == [];
    assert forall e: nat :: At(Start(c).out, e) == [];
    hide SumLen, Waiters, Core;
  }

  lemma StartLink(c: nat, d: nat)
    ensures Link(Start(c), Start(d))
  {
    var s, r := Start(c), Start(d);
    assert Core([]) == [] && Payloads([]) == [] && Sent(s) == [];
    assert forall e: nat :: At(s.out, e) == [];
    hide Core, Payloads, Sent;
    assert ChannelOk([], [], 0, 1, false, false) && ChannelOk([], [], 0, 1, false, true);
    assert ChannelsOk(s.out, [], 0, 1, false, 0);
    assert AcksOk(r.out, 1, 0, None, 0);
    hide ChannelsOk, AcksOk;
  }
}
