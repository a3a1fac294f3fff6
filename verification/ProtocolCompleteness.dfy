/**
 When everything has arrived. In every orderly run, once both ends are connected and a direction is
 drained, the reader has processed everything, unless it noticed a loss between reading the
 Sequence of the transport it had reopened and resending over it, and has not reopened since:
 then it has processed exactly what it had at that loss.
 */
module ProtocolCompleteness {
  import opened Basics
  import opened BufferModel
  import opened Protocol
  import opened ProtocolInvariant
  import opened ProtocolTheorems
  import opened ProtocolRecovery
  import opened ProtocolStranded

  // ---- late losses --------------------------------------------------------------------------

  /** The end has reopened its transport, has read the peer's Sequence there, and is still to resend. */
  predicate Exposed(me: Node)
  {
    me.reopened && !me.buf.waiting
  }

  /** How many messages an end had processed when it noticed a loss too late, if it has not reopened
      since: `late` before the step, the result after it. */
  function LateNext(me: Node, a: Step, late: Option<nat>): Option<nat>
  {
    match a
    case TransmitFails(i, _) => if i < |me.inflight| && Exposed(me) then Some(|me.delivered|) else late
    case Disconnect => if Exposed(me) then Some(|me.delivered|) else late
    case Reopen(e) => if e > me.epoch then None else late
    case _ => late
  }

  function LateAfter(w: World, a: Action, left: bool, late: Option<nat>): Option<nat>
  {
    if a.left == left then LateNext(if left then w.left else w.right, a.step, late) else late
  }

  /** The same over a whole script. */
  function Late(w: World, script: seq<Action>, left: bool, late: Option<nat>): Option<nat>
    decreases |script|
  {
    if script == [] then late
    else Late(Perform(w, script[0]), script[1..], left, LateAfter(w, script[0], left, late))
  }

  // ---- the Sequence is announced ------------------------------------------------------------

  /** On an open transport the sender has resent over, a receiver that is still to arrive has the
      Sequence ahead of it; and so has one that waits although it is not about to reopen, unless it
      is late. */
  ghost predicate Announced(s: Node, r: Node, late: Option<nat>)
  {
    && s.epoch !in s.cut
    && !s.reopened
    && (|| s.epoch > r.epoch
        || (late.None? && s.epoch == r.epoch && r.buf.waiting && (r.reopened || !r.buf.reconnecting)))
    ==> SequencePending(Core(At(s.out, s.epoch)))
  }

  lemma PutAnnounced(s: Node, r: Node, late: Option<nat>, e: nat, frames: seq<Frame>)
    requires Announced(s, r, late)
    ensures Announced(Put(s, e, frames), r, late)
  {
    PutFacts(s, e, frames, s.epoch);
  }

  lemma SeveredAnnounced(s: Node, r: Node, late: Option<nat>, e: nat, kept: nat)
    requires Announced(s, r, late)
    ensures Announced(Severed(s, e, kept), r, late)
  {
    SeveredFacts(s, e, kept, s.epoch);
  }

  /** Fields a sender may change without touching what it announces. */
  lemma StillAnnounced(s: Node, n: Node, r: Node, late: Option<nat>)
    requires Announced(s, r, late)
    requires n.epoch == s.epoch && n.cut == s.cut && n.reopened == s.reopened && n.out == s.out
    ensures Announced(n, r, late)
  {
  }

  /** A receiver that stays on its transport begins to wait only when it is about to reopen, or late. */
  lemma StillHeard(s: Node, r: Node, n: Node, late: Option<nat>, after: Option<nat>)
    requires Announced(s, r, late) && n.epoch == r.epoch && n.reopened == r.reopened
    requires after.Some? || (late.None? && (n.buf.waiting ==> r.buf.waiting || (n.buf.reconnecting && !n.reopened)))
    requires r.buf.reconnecting ==> n.buf.reconnecting
    ensures Announced(s, n, after)
  {
  }

  // ---- steps of the sender ------------------------------------------------------------------

  lemma TransmitAnnounced(me: Node, peer: Node, late: Option<nat>, i: nat)
    requires i < |me.inflight| && 1 <= me.inflight[i].id <= |me.history| && Announced(me, peer, late)
    ensures Announced(AfterTransmit(me, i), peer, late)
  {
    var f := me.inflight[i];
    var frames := [Data(me.history[f.id - 1])];
    PutAnnounced(me, peer, late, f.epoch, frames);
    hide Announced;
    StillAnnounced(Put(me, f.epoch, frames), AfterTransmit(me, i), peer, late);
  }

  lemma FailureAnnounced(me: Node, peer: Node, late: Option<nat>, i: nat, leaked: bool)
    requires i < |me.inflight| && 1 <= me.inflight[i].id <= |me.history| && Announced(me, peer, late)
    ensures Announced(AfterTransmitFails(me, i, leaked), peer, late)
  {
    hide Announced;
    var e := me.inflight[i].epoch;
    TransmitAnnounced(me, peer, late, i);
    FailureIsACut(me, i, leaked);
    var sent := if leaked then AfterTransmit(me, i) else me;
    var dead := Severed(sent, e, |At(sent.out, e)|);
    SeveredAnnounced(sent, peer, late, e, |At(sent.out, e)|);
    StillAnnounced(dead, AfterTransmitFails(me, i, leaked), peer, late);
  }

  lemma AckTimerAnnounced(me: Node, peer: Node, late: Option<nat>)
    requires Announced(me, peer, late)
    ensures Announced(AfterAckTimer(me), peer, late)
  {
    if me.buf.timer.Some? {
      PutAnnounced(me, peer, late, me.buf.timer.value, [Ack(me.buf.latest)]);
    }
  }

  lemma SenderActs(me: Node, peer: Node, a: Step, late: Option<nat>)
    requires Local(me) && Announced(me, peer, late) && !a.Receive? && !a.ClientResult?
    ensures Announced(Next(me, peer, a).0, peer, late)
  {
    if (a.Transmit? || a.TransmitFails?) && a.index < |me.inflight| {
      FlightStored(me, a.index);
    }
    hide Local, Announced, AfterTransmit, AfterTransmitFails, AfterResend, AfterAckTimer, Severed, Put;
    match a
    case Transmit(i) => if i < |me.inflight| { TransmitAnnounced(me, peer, late, i); }
    case TransmitFails(i, leaked) => if i < |me.inflight| { FailureAnnounced(me, peer, late, i, leaked); }
    case Resend(written) => if me.reopened && me.inflight == [] { ResendAnnounced(me, peer, late, written); }
    case AckTimer => AckTimerAnnounced(me, peer, late);
    case Sever(e, kept) => SeveredAnnounced(me, peer, late, e, kept);
    case KeepAlive => PutAnnounced(me, peer, late, me.epoch, [Control]);
    case Reopen(e) => if e > me.epoch { ReopenAnnounced(me, peer, late, e); }
    case Submit(message) => StillAnnounced(me, AfterSubmit(me, message), peer, late);
    case Disconnect => StillAnnounced(me, Lost(me), peer, late);
  }

  lemma ResendAnnounced(me: Node, peer: Node, late: Option<nat>, written: nat)
    requires Local(me) && me.reopened
    ensures Announced(AfterResend(me, written), peer, late)
  {
    ResendLeads(me, written);
  }

  lemma ReopenAnnounced(me: Node, peer: Node, late: Option<nat>, e: nat)
    ensures Announced(AfterReopen(me, e), peer, late)
  {
  }

  // ---- steps of the receiver ----------------------------------------------------------------

  /** What the receiver's own steps, other than reading and reopening, do to its flags. */
  lemma ActsFlags(me: Node, peer: Node, a: Step)
    requires Local(me) && !a.Receive? && !a.Reopen? && !a.Resend?
    ensures var n := Next(me, peer, a).0;
            && n.epoch == me.epoch && n.reopened == me.reopened
            && (me.buf.reconnecting ==> n.buf.reconnecting)
            && (n.buf.waiting ==>
                  || me.buf.waiting || LateNext(me, a, None).Some?
                  || (n.buf.reconnecting && !n.reopened))
  {
    if (a.Transmit? || a.TransmitFails?) && a.index < |me.inflight| {
      FlightStored(me, a.index);
    }
    hide Local, At;
  }

  lemma ReceiverActs(me: Node, peer: Node, a: Step, late: Option<nat>)
    requires Local(me) && Announced(peer, me, late) && !a.Receive?
    ensures Announced(peer, Next(me, peer, a).0, LateNext(me, a, late))
  {
    if a.Resend? {
      hide Local, At, ResendFrames, TxRange, Core, DataFrames;
    } else if !a.Reopen? {
      ActsFlags(me, peer, a);
      hide Local, Announced, Next;
      StillHeard(peer, me, Next(me, peer, a).0, late, LateNext(me, a, late));
    }
  }

  lemma ReceiveAnnounced(me: Node, peer: Node, late: Option<nat>)
    requires Announced(peer, me, late) && Link(peer, me) && At(peer.out, me.epoch) != []
    ensures Announced(Popped(peer, me.epoch), Dispatched(me, At(peer.out, me.epoch)[0]), late)
  {
    PoppedFacts(peer, me.epoch, peer.epoch);
    hide Link, Core, At, Dispatched, SequencePending;
    DispatchedFields(me, At(peer.out, me.epoch)[0]);
    ReadsOn(peer, me);
  }

  /** Reading leaves alone what the reader announces. */
  lemma ReaderAnnounces(me: Node, peer: Node, late: Option<nat>)
    requires Announced(me, peer, late) && At(peer.out, me.epoch) != []
    ensures Announced(Dispatched(me, At(peer.out, me.epoch)[0]), Popped(peer, me.epoch), late)
  {
    hide Core, At, Dispatched, SequencePending;
    DispatchedFields(me, At(peer.out, me.epoch)[0]);
  }

  /** Every orderly step keeps what is announced in both directions. */
  lemma NextAnnounced(me: Node, peer: Node, a: Step, mine: Option<nat>, others: Option<nat>)
    requires Local(me) && Link(peer, me) && !a.ClientResult?
    requires Announced(me, peer, others) && Announced(peer, me, mine)
    ensures var (n, w) := Next(me, peer, a);
            Announced(n, w, others) && Announced(w, n, LateNext(me, a, mine))
  {
    hide Local, Link, Announced;
    if a.Receive? {
      if At(peer.out, me.epoch) != [] {
        ReceiveAnnounced(me, peer, mine);
        ReaderAnnounces(me, peer, others);
      }
      hide Dispatched;
    } else {
      SenderActs(me, peer, a, others);
      ReceiverActs(me, peer, a, mine);
      PeerStays(me, peer, a);
      hide Next, LateNext;
    }
  }

  lemma PeerStays(me: Node, peer: Node, a: Step)
    requires !a.Receive?
    ensures Next(me, peer, a).1 == peer
  {
  }

  // ---- a late end is stranded ---------------------------------------------------------------

  ghost predicate Tracked(me: Node, peer: Node, late: Option<nat>)
  {
    late.Some? ==> Stranded(me, peer) && |me.delivered| == late.value
  }

  lemma ActsTracked(me: Node, peer: Node, a: Step, late: Option<nat>)
    requires Local(me) && Link(peer, me) && Tracked(me, peer, late)
    ensures var (n, w) := Next(me, peer, a);
            Tracked(n, w, LateNext(me, a, late))
  {
    if a.TransmitFails? && a.index < |me.inflight| {
      FlightStored(me, a.index);
    }
    hide Local, Link, Stranded;
    if LateNext(me, a, late) != late && !a.Reopen? {
      LossStrands(me, peer);
      LossNoticed(me, peer, a);
      hide Next;
      StillStranded(Lost(me), Next(me, peer, a).0, peer);
    } else if late.Some? && !(a.Reopen? && a.epoch > me.epoch) {
      StrandedActs(me, peer, a);
      hide Next;
    }
  }

  lemma HearsTracked(me: Node, peer: Node, a: Step, late: Option<nat>)
    requires Local(peer) && Tracked(me, peer, late) && !a.ClientResult?
    ensures var (n, w) := Next(peer, me, a);
            Tracked(w, n, late)
  {
    hide Local, Stranded, Next;
    if late.Some? {
      StrandedHears(me, peer, a);
    }
  }

  // ---- whole runs ---------------------------------------------------------------------------

  /** What both ends announce, and what being late means, in a world with these late losses. */
  ghost predicate Accounts(w: World, left: Option<nat>, right: Option<nat>)
  {
    && Announced(w.left, w.right, right) && Announced(w.right, w.left, left)
    && Tracked(w.left, w.right, left) && Tracked(w.right, w.left, right)
  }

  lemma PerformAccounts(w: World, a: Action, left: Option<nat>, right: Option<nat>)
    requires Inv(w) && Orderly(w, a) && Accounts(w, left, right)
    ensures Accounts(Perform(w, a), LateAfter(w, a, true, left), LateAfter(w, a, false, right))
  {
    hide Local, Link, Next, Announced, Tracked, LateNext;
    if a.left {
      NextAnnounced(w.left, w.right, a.step, left, right);
      ActsTracked(w.left, w.right, a.step, left);
      HearsTracked(w.right, w.left, a.step, right);
    } else {
      NextAnnounced(w.right, w.left, a.step, right, left);
      ActsTracked(w.right, w.left, a.step, right);
      HearsTracked(w.left, w.right, a.step, left);
    }
  }

  lemma {:induction false} RunAccounts(w: World, script: seq<Action>, left: Option<nat>, right: Option<nat>)
    requires Inv(w) && OrderlyRun(w, script) && Accounts(w, left, right)
    ensures Accounts(Exec(w, script), Late(w, script, true, left), Late(w, script, false, right))
    decreases |script|
  {
    hide Inv, Accounts, Perform, Orderly, LateAfter;
    if script != [] {
      var a := script[0];
      PerformKeeps(w, a);
      PerformAccounts(w, a, left, right);
      RunAccounts(Perform(w, a), script[1..], LateAfter(w, a, true, left), LateAfter(w, a, false, right));
    }
  }

  lemma InitialAccounts(leftCapacity: nat, rightCapacity: nat)
    ensures Accounts(Initial(leftCapacity, rightCapacity), None, None)
  {
  }

  /** Both ends have noticed no loss since they last resent: the connection is up. */
  predicate Connected(w: World)
  {
    !w.left.buf.reconnecting && !w.right.buf.reconnecting
  }

  /** `delivered` is everything submitted, or for a late end what it had processed at the loss. */
  ghost predicate Complete(r: Node, submitted: seq<Bytes>, late: Option<nat>)
  {
    && (r.buf.waiting <==> late.Some?)
    && (late.None? ==> r.delivered == submitted)
    && (late.Some? ==> late.value <= |submitted| && r.delivered == submitted[..late.value])
  }

  lemma AccountedIsComplete(s: Node, r: Node, late: Option<nat>)
    requires Local(s) && Link(s, r) && Announced(s, r, late) && Tracked(r, s, late)
    requires !r.buf.reconnecting && Drained(s, r)
    ensures Complete(r, s.history, late)
  {
    PrefixDelivered(s, r);
    assert !s.reopened;
    assert Stranded(r, s) ==> r.buf.waiting;
    if !r.buf.waiting {
      DrainedIsComplete(s, r);
    }
    hide Local, Link, Core, Stranded;
  }

  lemma WorldIsComplete(w: World, left: Option<nat>, right: Option<nat>)
    requires Inv(w) && Accounts(w, left, right) && Connected(w)
    ensures Drained(w.left, w.right) ==> Complete(w.right, w.left.history, right)
    ensures Drained(w.right, w.left) ==> Complete(w.left, w.right.history, left)
  {
    hide Local, Link, Announced, Tracked, Drained, Complete;
    if Drained(w.left, w.right) {
      AccountedIsComplete(w.left, w.right, right);
    }
    if Drained(w.right, w.left) {
      AccountedIsComplete(w.right, w.left, left);
    }
  }

  /** In every orderly run, once the ends are connected and a direction is drained: the reader waits if
      and only if it is late; if not, it has processed everything that was submitted, and if it is,
      exactly what it had processed at the late loss. */
  lemma ConnectedAndDrainedIsComplete(leftCapacity: nat, rightCapacity: nat, script: seq<Action>)
    requires OrderlyRun(Initial(leftCapacity, rightCapacity), script)
    requires Connected(Exec(Initial(leftCapacity, rightCapacity), script))
    ensures var start := Initial(leftCapacity, rightCapacity);
            var w := Exec(start, script);
            && (Drained(w.left, w.right) ==>
                  Complete(w.right, Submissions(script, true), Late(start, script, false, None)))
            && (Drained(w.right, w.left) ==>
                  Complete(w.left, Submissions(script, false), Late(start, script, true, None)))
  {
    hide Inv, Accounts, Exec, Submissions, Drained, Connected, OrderlyRun, Late, Complete;
    var start := Initial(leftCapacity, rightCapacity);
    InitialHolds(leftCapacity, rightCapacity);
    InitialAccounts(leftCapacity, rightCapacity);
    Reachable(leftCapacity, rightCapacity, script);
    RunAccounts(start, script, None, None);
    HistoryIsSubmissions(start, script);
    WorldIsComplete(Exec(start, script), Late(start, script, true, None), Late(start, script, false, None));
    assert [] + Submissions(script, true) == Submissions(script, true);
    assert [] + Submissions(script, false) == Submissions(script, false);
  }
}
