/**
 The other half of completeness: an end that notices a loss when it is not waiting for a Sequence
 processes nothing more until it reopens, whatever else happens. So a loss noticed after the
 Sequence of a reopened transport was read leaves the end deaf, even once it has resent.
 */
module ProtocolStranded {
  import opened Basics
  import opened BufferModel
  import opened Protocol
  import opened ProtocolInvariant
  import opened ProtocolTheorems
  import opened ProtocolRecovery

  /** `me` waits for a Sequence that can no longer come on the transport it reads. */
  ghost predicate Stranded(me: Node, peer: Node)
  {
    && me.buf.waiting
    && (peer.epoch > me.epoch || (peer.epoch == me.epoch && !peer.reopened))
    && !SequencePending(Core(At(peer.out, me.epoch)))
  }

  /** A loss noticed while not waiting strands the end that notices it. */
  lemma LossStrands(me: Node, peer: Node)
    requires Link(peer, me) && !me.buf.waiting
    ensures Stranded(Lost(me), peer)
  {
    hide CountsOk, ChannelsOk, TailOk, AcksOk, Core;
  }

  /** Being stranded depends on the flags and the transport of one end and on the other's frames. */
  lemma StillStranded(me: Node, n: Node, peer: Node)
    requires Stranded(me, peer) && n.buf.waiting && n.epoch == me.epoch
    ensures Stranded(n, peer)
  {
  }

  // ---- steps of the stranded end ------------------------------------------------------------

  lemma StrandedReads(me: Node, peer: Node)
    requires Link(peer, me) && Stranded(me, peer) && At(peer.out, me.epoch) != []
    ensures Dispatched(me, At(peer.out, me.epoch)[0]) == me
    ensures Stranded(me, Popped(peer, me.epoch))
  {
    PoppedFacts(peer, me.epoch, me.epoch);
    var frames := Core(At(peer.out, me.epoch));
    assert ChannelOk(frames, Sent(peer), Base(peer.buf), me.buf.next, me.buf.waiting, false);
    hide Core, CountsOk, ChannelsOk, TailOk, AcksOk, SyncOk;
    if |frames| > 1 {
      assert frames[1..][0] == frames[1];
    }
  }

  /** No step of a stranded end but a reopen changes its state of waiting or what it has processed. */
  lemma StrandedActs(me: Node, peer: Node, a: Step)
    requires Link(peer, me) && Stranded(me, peer)
    requires a.Reopen? ==> a.epoch <= me.epoch
    ensures var (n, w) := Next(me, peer, a);
            Stranded(n, w) && n.delivered == me.delivered
  {
    if a.Receive? {
      if At(peer.out, me.epoch) != [] {
        StrandedReads(me, peer);
      }
      hide Stranded, Dispatched, Link;
    } else {
      var n := Next(me, peer, a).0;
      assert n.buf.waiting && n.epoch == me.epoch && n.delivered == me.delivered by { ActsQuietly(me, peer, a); }
      StillStranded(me, n, peer);
      hide Stranded, Link, AfterSubmit, AfterTransmit, AfterTransmitFails, AfterResend, AfterAckTimer;
    }
  }

  lemma ActsQuietly(me: Node, peer: Node, a: Step)
    requires me.buf.waiting && !a.Receive? && (a.Reopen? ==> a.epoch <= me.epoch)
    ensures var (n, w) := Next(me, peer, a);
            n.buf.waiting && n.epoch == me.epoch && n.delivered == me.delivered && w == peer
  {
    hide At, ResendFrames, TxRange, DataFrames;
  }

  // ---- steps of the other end ---------------------------------------------------------------

  /** The peer's frames for `me` change without a Sequence coming first. */
  lemma NoSequenceComes(me: Node, peer: Node, n: Node)
    requires Stranded(me, peer)
    requires n.epoch > me.epoch || (n.epoch == peer.epoch && n.reopened == peer.reopened)
    requires SequencePending(Core(At(n.out, me.epoch))) ==> SequencePending(Core(At(peer.out, me.epoch)))
    ensures Stranded(me, n)
  {
  }

  lemma PutNoSequence(n: Node, e: nat, f: Frame, d: nat)
    requires !f.Sequence?
    ensures SequencePending(Core(At(Put(n, e, [f]).out, d))) ==> SequencePending(Core(At(n.out, d)))
  {
    PutFacts(n, e, [f], d);
    var none: seq<Frame> := [f][1..];
    assert none == [] && Core(none) == [];
    assert Core([f]) == if f.Control? then [] else [f];
    hide Core, Put;
  }

  lemma SeverNoSequence(n: Node, e: nat, kept: nat, d: nat)
    ensures SequencePending(Core(At(Severed(n, e, kept).out, d))) ==> SequencePending(Core(At(n.out, d)))
  {
    SeveredFacts(n, e, kept, d);
    hide Core, Severed;
  }

  lemma TransmitNoSequence(me: Node, peer: Node, i: nat)
    requires Stranded(me, peer) && i < |peer.inflight| && 1 <= peer.inflight[i].id <= |peer.history|
    ensures Stranded(me, AfterTransmit(peer, i))
  {
    var f := peer.inflight[i];
    var d := Data(peer.history[f.id - 1]);
    PutNoSequence(peer, f.epoch, d, me.epoch);
    assert AfterTransmit(peer, i).out == Put(peer, f.epoch, [d]).out;
    hide Core;
    NoSequenceComes(me, peer, AfterTransmit(peer, i));
  }

  lemma FailureNoSequence(me: Node, peer: Node, i: nat, leaked: bool)
    requires Stranded(me, peer) && i < |peer.inflight| && 1 <= peer.inflight[i].id <= |peer.history|
    ensures Stranded(me, AfterTransmitFails(peer, i, leaked))
  {
    var e := peer.inflight[i].epoch;
    FailureIsACut(peer, i, leaked);
    TransmitNoSequence(me, peer, i);
    var sent := if leaked then AfterTransmit(peer, i) else peer;
    var dead := Severed(sent, e, |At(sent.out, e)|);
    SeverNoSequence(sent, e, |At(sent.out, e)|, me.epoch);
    hide AfterTransmit, AfterTransmitFails, Core, At;
    NoSequenceComes(me, sent, dead);
    NoSequenceComes(me, dead, AfterTransmitFails(peer, i, leaked));
  }

  /** The peer resends on a later transport only. */
  lemma ResendElsewhere(me: Node, peer: Node, written: nat)
    requires Stranded(me, peer) && peer.reopened
    ensures Stranded(me, AfterResend(peer, written))
  {
    var n := AfterResend(peer, written);
    assert peer.epoch > me.epoch;
    assert At(n.out, me.epoch) == At(peer.out, me.epoch);
    hide Core, ResendFrames;
  }

  lemma PeerWrites(me: Node, peer: Node, a: Step)
    requires Local(peer) && Stranded(me, peer) && (a.Transmit? || a.TransmitFails? || a.Resend?)
    ensures Stranded(me, Next(peer, me, a).0) && Next(peer, me, a).1 == me
  {
    if !a.Resend? && a.index < |peer.inflight| {
      FlightStored(peer, a.index);
    }
    hide Local, Stranded, AfterTransmit, AfterTransmitFails, AfterResend;
    match a
    case Transmit(i) => if i < |peer.inflight| { TransmitNoSequence(me, peer, i); }
    case TransmitFails(i, leaked) => if i < |peer.inflight| { FailureNoSequence(me, peer, i, leaked); }
    case Resend(written) => if peer.reopened && peer.inflight == [] { ResendElsewhere(me, peer, written); }
  }

  lemma AckElsewhere(me: Node, peer: Node)
    requires Stranded(me, peer)
    ensures Stranded(me, AfterAckTimer(peer))
  {
    if peer.buf.timer.Some? {
      PutNoSequence(peer, peer.buf.timer.value, Ack(peer.buf.latest), me.epoch);
    }
    hide Core;
    NoSequenceComes(me, peer, AfterAckTimer(peer));
  }

  lemma PeerReads(me: Node, peer: Node)
    requires Stranded(me, peer) && At(me.out, peer.epoch) != []
    ensures Stranded(Popped(me, peer.epoch), Dispatched(peer, At(me.out, peer.epoch)[0]))
  {
    hide Core, Acked;
  }

  /** No step of the other end ends it either. */
  lemma StrandedHears(me: Node, peer: Node, a: Step)
    requires Local(peer) && Stranded(me, peer)
    requires !a.ClientResult?
    ensures var (n, w) := Next(peer, me, a);
            Stranded(w, n) && w.delivered == me.delivered
  {
    match a
    case Transmit(_) => PeerWrites(me, peer, a);
    case TransmitFails(_, _) => PeerWrites(me, peer, a);
    case Resend(_) => PeerWrites(me, peer, a);
    case AckTimer => AckElsewhere(me, peer); hide Stranded, AfterAckTimer;
    case Receive =>
      if At(me.out, peer.epoch) != [] {
        PeerReads(me, peer);
      }
      hide Stranded, Dispatched;
    case KeepAlive => PutNoSequence(peer, peer.epoch, Control, me.epoch); hide Core;
    case Sever(e, kept) => SeverNoSequence(peer, e, kept, me.epoch); hide Core;
    case Submit(_) => hide Core, Submitted;
    case Disconnect => hide Core;
    case Reopen(_) => hide Core;
  }

  // ---- whole runs ---------------------------------------------------------------------------

  ghost predicate StrandedIn(w: World, left: bool)
  {
    if left then Stranded(w.left, w.right) else Stranded(w.right, w.left)
  }

  function DeliveredTo(w: World, left: bool): seq<Bytes>
  {
    if left then w.left.delivered else w.right.delivered
  }

  /** Nobody reopens the transport of one end. */
  predicate NeverReopens(script: seq<Action>, left: bool)
  {
    forall i | 0 <= i < |script| :: script[i].left == left ==> !script[i].step.Reopen?
  }

  lemma PerformStranded(w: World, a: Action, left: bool)
    requires Inv(w) && StrandedIn(w, left) && Orderly(w, a)
    requires a.left == left ==> !a.step.Reopen?
    ensures StrandedIn(Perform(w, a), left) && DeliveredTo(Perform(w, a), left) == DeliveredTo(w, left)
  {
    hide Local, Link, Next, Stranded;
    var me, peer := if left then w.left else w.right, if left then w.right else w.left;
    if a.left == left {
      StrandedActs(me, peer, a.step);
    } else {
      StrandedHears(me, peer, a.step);
    }
  }

  lemma {:induction false} StrandedRun(w: World, script: seq<Action>, left: bool)
    requires Inv(w) && StrandedIn(w, left) && OrderlyRun(w, script) && NeverReopens(script, left)
    ensures StrandedIn(Exec(w, script), left) && DeliveredTo(Exec(w, script), left) == DeliveredTo(w, left)
    decreases |script|
  {
    hide Inv, StrandedIn, Perform, Orderly, DeliveredTo;
    if script != [] {
      PerformKeeps(w, script[0]);
      PerformStranded(w, script[0], left);
      assert NeverReopens(script[1..], left);
      StrandedRun(Perform(w, script[0]), script[1..], left);
    }
  }

  /** A loss is noticed: by a failing send or from the transport. */
  predicate NoticesLoss(w: World, a: Action)
  {
    var me := if a.left then w.left else w.right;
    a.step.Disconnect? || (a.step.TransmitFails? && a.step.index < |me.inflight|)
  }

  lemma LossInWorld(w: World, a: Action)
    requires Inv(w) && NoticesLoss(w, a)
    requires !(if a.left then w.left else w.right).buf.waiting
    ensures StrandedIn(Perform(w, a), a.left) && DeliveredTo(Perform(w, a), a.left) == DeliveredTo(w, a.left)
  {
    hide Local, Link, Stranded;
    var me, peer := if a.left then w.left else w.right, if a.left then w.right else w.left;
    if a.step.TransmitFails? {
      FlightStored(me, a.step.index);
    }
    LossStrands(me, peer);
    LossNoticed(me, peer, a.step);
    hide Next;
    StillStranded(Lost(me), Next(me, peer, a.step).0, peer);
  }

  lemma LossNoticed(me: Node, peer: Node, a: Step)
    requires
      || a.Disconnect?
      || (a.TransmitFails? && a.index < |me.inflight| && 1 <= me.inflight[a.index].id <= |me.history|)
    ensures var (n, w) := Next(me, peer, a);
            n.buf.waiting && n.epoch == me.epoch && n.delivered == me.delivered && w == peer
  {
    hide At;
  }

  /** For every reachable world and every orderly continuation: a loss noticed by an end that is not
      waiting means that it processes nothing more until it reopens. */
  lemma NothingUntilReopen(w: World, a: Action, script: seq<Action>)
    requires Inv(w) && Orderly(w, a) && NoticesLoss(w, a)
    requires !(if a.left then w.left else w.right).buf.waiting
    requires OrderlyRun(Perform(w, a), script) && NeverReopens(script, a.left)
    ensures DeliveredTo(Exec(w, [a] + script), a.left) == DeliveredTo(w, a.left)
  {
    hide Inv, Perform, StrandedIn, DeliveredTo, Exec, OrderlyRun;
    LossInWorld(w, a);
    PerformKeeps(w, a);
    StrandedRun(Perform(w, a), script, a.left);
    ExecStep(w, a, script);
  }

  /** So with anything submitted to it in that time, the end has not processed everything. */
  lemma LateLossIsIncomplete(w: World, a: Action, script: seq<Action>)
    requires Inv(w) && Orderly(w, a) && NoticesLoss(w, a)
    requires !(if a.left then w.left else w.right).buf.waiting
    requires OrderlyRun(Perform(w, a), script) && NeverReopens(script, a.left) && Submissions(script, !a.left) != []
    ensures var v := Exec(w, [a] + script);
            DeliveredTo(v, a.left) != (if a.left then v.right.history else v.left.history)
  {
    hide Inv, Perform, Exec, Submissions, OrderlyRun;
    NothingUntilReopen(w, a, script);
    WorldDelivered(w);
    HistoryIsSubmissions(w, [a] + script);
    ExecStep(w, a, script);
    assert !a.step.Submit?;
  }
}
