/** What the protocol guarantees over whole runs. */
module ProtocolTheorems {
  import opened Basics
  import opened BufferModel
  import opened Protocol
  import opened ProtocolInvariant

  lemma {:induction false} RunKeeps(w: World, script: seq<Action>)
    requires Inv(w) && OrderlyRun(w, script)
    ensures Inv(Exec(w, script))
    decreases |script|
  {
    hide Inv, Perform, Orderly;
    if script != [] {
      PerformKeeps(w, script[0]);
      RunKeeps(Perform(w, script[0]), script[1..]);
    }
  }

  /** The invariant holds of every world an orderly run leads to. */
  lemma Reachable(leftCapacity: nat, rightCapacity: nat, script: seq<Action>)
    requires OrderlyRun(Initial(leftCapacity, rightCapacity), script)
    ensures Inv(Exec(Initial(leftCapacity, rightCapacity), script))
  {
    hide Inv, Exec, OrderlyRun;
    InitialHolds(leftCapacity, rightCapacity);
    RunKeeps(Initial(leftCapacity, rightCapacity), script);
  }

  // ---- exactly once, in order ---------------------------------------------------------------

  /** The messages one side submitted, in order. */
  function Submissions(script: seq<Action>, left: bool): seq<Bytes>
  {
    if script == [] then []
    else (if script[0].left == left && script[0].step.Submit? then [script[0].step.message] else [])
         + Submissions(script[1..], left)
  }

  lemma NextHistory(me: Node, peer: Node, step: Step)
    ensures var (n, w) := Next(me, peer, step);
            && n.history == me.history + (if step.Submit? then [step.message] else [])
            && w.history == peer.history
  {
  }

  lemma PerformHistory(w: World, a: Action)
    ensures Perform(w, a).left.history == w.left.history + Submissions([a], true)
    ensures Perform(w, a).right.history == w.right.history + Submissions([a], false)
  {
    if a.left {
      NextHistory(w.left, w.right, a.step);
    } else {
      NextHistory(w.right, w.left, a.step);
    }
  }

  lemma SubmissionsSplit(script: seq<Action>, left: bool)
    requires script != []
    ensures Submissions(script, left) == Submissions([script[0]], left) + Submissions(script[1..], left)
  {
    assert Submissions([script[0]][1..], left) == [];
  }

  lemma {:induction false} HistoryIsSubmissions(w: World, script: seq<Action>)
    ensures Exec(w, script).left.history == w.left.history + Submissions(script, true)
    ensures Exec(w, script).right.history == w.right.history + Submissions(script, false)
    decreases |script|
  {
    hide Perform;
    if script != [] {
      var v := Perform(w, script[0]);
      PerformHistory(w, script[0]);
      HistoryIsSubmissions(v, script[1..]);
      SubmissionsSplit(script, true);
      SubmissionsSplit(script, false);
    }
  }

  /** In every orderly run, across any number of losses, what each end has processed is a
      prefix of what the other submitted, and no Sequence was ever refused. */
  lemma ExactlyOnceInOrder(leftCapacity: nat, rightCapacity: nat, script: seq<Action>)
    requires OrderlyRun(Initial(leftCapacity, rightCapacity), script)
    ensures var w := Exec(Initial(leftCapacity, rightCapacity), script);
            && w.right.delivered <= Submissions(script, true)
            && w.left.delivered <= Submissions(script, false)
            && w.left.rejected == 0 && w.right.rejected == 0
  {
    var w0 := Initial(leftCapacity, rightCapacity);
    var w := Exec(w0, script);
    hide Inv, Exec, Submissions;
    Reachable(leftCapacity, rightCapacity, script);
    HistoryIsSubmissions(w0, script);
    WorldDelivered(w);
    assert w0.left.history == [] && w0.right.history == [];
    assert [] + Submissions(script, true) == Submissions(script, true);
    assert [] + Submissions(script, false) == Submissions(script, false);
  }

  lemma WorldDelivered(w: World)
    requires Inv(w)
    ensures w.right.delivered <= w.left.history && w.left.delivered <= w.right.history
    ensures w.left.rejected == 0 && w.right.rejected == 0
  {
    hide Local, Link;
    PrefixDelivered(w.left, w.right);
    PrefixDelivered(w.right, w.left);
  }

  lemma PrefixDelivered(s: Node, r: Node)
    requires Link(s, r)
    ensures r.delivered <= s.history && |r.delivered| == r.buf.latest && r.rejected == 0
  {
  }

  // ---- no loss ------------------------------------------------------------------------------

  /** The buffer is exactly the contiguous ids after the acknowledged ones, each with the
      message it was given, and everything the peer has not processed is still in it. */
  ghost predicate NothingLost(s: Node, r: Node)
  {
    var acked := |s.history| - |s.buf.messages|;
    && 0 <= acked <= |r.delivered|
    && (forall i | 0 <= i < |s.buf.messages| ::
          && s.buf.messages[i].id == acked + 1 + i
          && s.buf.messages[i].message == s.history[acked + i])
  }

  lemma BufferCoversUndelivered(leftCapacity: nat, rightCapacity: nat, script: seq<Action>)
    requires OrderlyRun(Initial(leftCapacity, rightCapacity), script)
    ensures var w := Exec(Initial(leftCapacity, rightCapacity), script);
            NothingLost(w.left, w.right) && NothingLost(w.right, w.left)
  {
    hide Inv, Exec, NothingLost;
    var w := Exec(Initial(leftCapacity, rightCapacity), script);
    Reachable(leftCapacity, rightCapacity, script);
    WorldLosesNothing(w);
  }

  lemma WorldLosesNothing(w: World)
    requires Inv(w)
    ensures NothingLost(w.left, w.right) && NothingLost(w.right, w.left)
  {
    hide Local, Link, NothingLost;
    LinkLosesNothing(w.left, w.right);
    LinkLosesNothing(w.right, w.left);
  }

  lemma LinkLosesNothing(s: Node, r: Node)
    requires Local(s) && Link(s, r)
    ensures NothingLost(s, r)
  {
  }

  /** The sender's traffic is through: both ends are on one transport, the sender has resent
      and has nothing in flight, its direction is open and holds nothing but keep-alives. */
  ghost predicate Drained(s: Node, r: Node)
  {
    && s.epoch == r.epoch
    && s.epoch !in s.cut
    && !s.buf.reconnecting
    && s.inflight == []
    && Core(At(s.out, s.epoch)) == []
  }

  /** Once the channel is drained, a receiver that is not waiting for a Sequence has processed
      every message ever buffered. */
  lemma DrainedIsComplete(s: Node, r: Node)
    requires Local(s) && Link(s, r) && Drained(s, r)
    requires !r.buf.waiting
    ensures r.delivered == s.history
  {
    assert ContinuesOn(s, r.buf.next, r.buf.waiting, r.epoch, s.epoch, s.buf.total + 1);
    assert Payloads(Core(At(s.out, s.epoch))) == [];
  }

  // ---- no refusal ---------------------------------------------------------------------------

  /** Whatever is still readable from the sender is within the receiver's count: a Sequence
      announces at most the id the receiver expects, an acknowledgement covers only messages
      the receiver would not ask for again. */
  ghost predicate WithinCount(s: Node, r: Node)
  {
    && (forall e: nat, id | r.epoch <= e && Sequence(id) in At(s.out, e) :: id <= r.buf.next)
    && (forall e: nat, id | s.epoch <= e && Ack(id) in At(r.out, e) :: id + 1 <= r.buf.next)
  }

  lemma NeverRefused(leftCapacity: nat, rightCapacity: nat, script: seq<Action>)
    requires OrderlyRun(Initial(leftCapacity, rightCapacity), script)
    ensures var w := Exec(Initial(leftCapacity, rightCapacity), script);
            WithinCount(w.left, w.right) && WithinCount(w.right, w.left)
  {
    hide Inv, Exec, WithinCount;
    var w := Exec(Initial(leftCapacity, rightCapacity), script);
    Reachable(leftCapacity, rightCapacity, script);
    WorldWithinCount(w);
  }

  lemma WorldWithinCount(w: World)
    requires Inv(w)
    ensures WithinCount(w.left, w.right) && WithinCount(w.right, w.left)
  {
    hide Local, Link, WithinCount;
    LinkWithinCount(w.left, w.right);
    LinkWithinCount(w.right, w.left);
  }

  lemma LinkWithinCount(s: Node, r: Node)
    requires Link(s, r)
    ensures WithinCount(s, r)
  {
    forall e: nat, id | r.epoch <= e && Sequence(id) in At(s.out, e) ensures id <= r.buf.next {
      var frames := Core(At(s.out, e));
      MemberCore(Sequence(id), At(s.out, e));
      assert ChannelOk(frames, Sent(s), Base(s.buf), r.buf.next, r.buf.waiting, r.epoch < e);
      var i :| 0 <= i < |frames| && frames[i] == Sequence(id);
      assert i == 0;
    }
    forall e: nat, id | s.epoch <= e && Ack(id) in At(r.out, e) ensures id + 1 <= r.buf.next {
      assert AcksBelow(At(r.out, e), r.buf.next);
    }
  }

  // ---- one transmission per transport -------------------------------------------------------

  /** Nothing goes to an earlier transport once a later one has been written to; within one transport
      no buffered message is written twice, by `send` or by `resend`, and those that reach it come
      in the order of their ids. */
  ghost predicate WrittenOnce(log: seq<Tx>)
  {
    forall i, j | 0 <= i < j < |log| ::
      && log[i].epoch <= log[j].epoch
      && (log[i].epoch == log[j].epoch ==> log[i].id != log[j].id && (log[j].reached ==> log[i].id < log[j].id))
  }

  lemma TransmittedAtMostOnce(leftCapacity: nat, rightCapacity: nat, script: seq<Action>)
    requires OrderlyRun(Initial(leftCapacity, rightCapacity), script)
    ensures var w := Exec(Initial(leftCapacity, rightCapacity), script);
            WrittenOnce(w.left.log) && WrittenOnce(w.right.log)
  {
    hide Inv, Exec, WrittenOnce;
    Reachable(leftCapacity, rightCapacity, script);
    WorldWrittenOnce(Exec(Initial(leftCapacity, rightCapacity), script));
  }

  lemma WorldWrittenOnce(w: World)
    requires Inv(w)
    ensures WrittenOnce(w.left.log) && WrittenOnce(w.right.log)
  {
    hide Local, Link, WrittenOnce;
    LocalWrittenOnce(w.left);
    LocalWrittenOnce(w.right);
  }

  lemma LocalWrittenOnce(n: Node)
    requires Local(n)
    ensures WrittenOnce(n.log)
  {
    forall i, j | 0 <= i < j < |n.log|
      ensures && n.log[i].epoch <= n.log[j].epoch
              && (n.log[i].epoch == n.log[j].epoch ==>
                    n.log[i].id != n.log[j].id && (n.log[j].reached ==> n.log[i].id < n.log[j].id))
    {
      assert Before(n.log[i], n.log[j]);
    }
  }

  // ---- the acknowledgement timer ------------------------------------------------------------

  lemma TimerStays(me: Node, peer: Node, step: Step)
    requires me.buf.timer.Some? && !step.AckTimer?
    ensures var (n, w) := Next(me, peer, step);
            n.buf.timer == me.buf.timer && w.buf == peer.buf
  {
    hide At, ResendFrames, TxRange, SumLen, Waiters, Relieved;
  }

  lemma PeerTimerStays(me: Node, peer: Node, step: Step)
    ensures Next(me, peer, step).1.buf == peer.buf
  {
    hide Dispatched, Disconnected, At, ResendFrames, TxRange;
  }

  /** In every run at all, a scheduled acknowledgement keeps the transport it captured until it fires,
      whatever is lost, reopened or received meanwhile. */
  lemma {:induction false} TimerKeepsItsTransport(w: World, script: seq<Action>, left: bool)
    requires (if left then w.left else w.right).buf.timer.Some?
    requires forall i | 0 <= i < |script| :: script[i].left == left ==> !script[i].step.AckTimer?
    ensures var v := Exec(w, script);
            if left then v.left.buf.timer == w.left.buf.timer else v.right.buf.timer == w.right.buf.timer
    decreases |script|
  {
    hide Next;
    if script != [] {
      var a := script[0];
      var me, peer := if a.left then w.left else w.right, if a.left then w.right else w.left;
      if a.left == left {
        TimerStays(me, peer, a.step);
      } else {
        PeerTimerStays(me, peer, a.step);
      }
      assert forall i | 0 <= i < |script[1..]| :: script[1..][i] == script[i + 1];
      TimerKeepsItsTransport(Perform(w, a), script[1..], left);
    }
  }

  // ---- backpressure -------------------------------------------------------------------------

  lemma DispatchedSound(me: Node, f: Frame)
    requires Valid(me.buf)
    ensures Valid(Dispatched(me, f).buf)
  {
    if f.Ack? {
      AckedValid(me.buf, f.id);
    } else {
      CountersValid(me.buf, Dispatched(me, f).buf);
    }
  }

  lemma NextSound(me: Node, peer: Node, step: Step)
    requires Valid(me.buf)
    ensures var (n, w) := Next(me, peer, step);
            Valid(n.buf) && w.buf == peer.buf
  {
    hide Valid, Dispatched;
    match step
    case Submit(message) => SubmittedValid(me.buf, message);
    case Receive =>
      if At(peer.out, me.epoch) != [] {
        DispatchedSound(me, At(peer.out, me.epoch)[0]);
      }
    case _ => CountersValid(me.buf, Next(me, peer, step).0.buf);
  }

  /** In every run at all, orderly or not, each end's byte counter is the sum of the buffered
      lengths, a pending waiter means a full buffer, and the waiters handed out are, in order
      and once each, those signalled and then those still pending. */
  lemma {:induction false} NoLostWakeup(w: World, script: seq<Action>)
    requires Valid(w.left.buf) && Valid(w.right.buf)
    ensures var v := Exec(w, script);
            Valid(v.left.buf) && Valid(v.right.buf)
    decreases |script|
  {
    if script != [] {
      var a := script[0];
      if a.left {
        NextSound(w.left, w.right, a.step);
      } else {
        NextSound(w.right, w.left, a.step);
      }
      NoLostWakeup(Perform(w, a), script[1..]);
    }
  }
}
