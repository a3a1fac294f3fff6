/**
 Recovery: from every world an orderly run leads to, one reopen and resend on each side delivers
 everything.
 */
module ProtocolRecovery {
  import opened Basics
  import opened BufferModel
  import opened Protocol
  import opened ProtocolInvariant
  import opened ProtocolTheorems

  /** A complete resend puts its Sequence in front of a transport that is still open. */
  lemma ResendLeads(me: Node, written: nat)
    requires Local(me) && me.reopened
    ensures var n := AfterResend(me, written);
            && !n.reopened && n.epoch == me.epoch
            && (me.epoch !in n.cut ==> SequencePending(Core(At(n.out, me.epoch))))
  {
    var all := |ResendFrames(me.buf)|;
    ResendIsResent(me, written);
    if written >= all && me.epoch !in me.cut {
      PutFacts(me, me.epoch, ResendFrames(me.buf)[..all], me.epoch);
      ResendFits(me.buf, me.history, all, 0, true, true);
    }
  }

  lemma {:induction false} ExecAppend(w: World, a: seq<Action>, b: seq<Action>)
    ensures Exec(w, a + b) == Exec(Exec(w, a), b)
    ensures OrderlyRun(w, a) && OrderlyRun(Exec(w, a), b) ==> OrderlyRun(w, a + b)
    decreases |a|
  {
    hide Perform;
    if a == [] {
      assert a + b == b;
    } else {
      assert (a + b)[1..] == a[1..] + b;
      ExecAppend(Perform(w, a[0]), a[1..], b);
    }
  }

  /** `s` is connected to `r` over transport `e`, with nothing in flight, and `r` either has the
      Sequence ahead of it or does not wait for one. */
  ghost predicate Flowing(s: Node, r: Node, e: nat)
  {
    && s.epoch == e && r.epoch == e && e !in s.cut
    && !s.buf.reconnecting && s.inflight == []
    && (SequencePending(Core(At(s.out, e))) || !r.buf.waiting)
  }

  ghost predicate Up(w: World, e: nat)
  {
    Flowing(w.left, w.right, e) && Flowing(w.right, w.left, e)
  }

  /** What dispatching a frame leaves as it is. */
  lemma DispatchedFields(r: Node, f: Frame)
    ensures var n := Dispatched(r, f);
            && n.epoch == r.epoch && n.reopened == r.reopened && n.out == r.out && n.cut == r.cut
            && n.inflight == r.inflight && n.buf.reconnecting == r.buf.reconnecting
            && (n.buf.waiting ==> r.buf.waiting)
  {
  }

  /** An end that still waits after reading a frame has not read the Sequence. */
  lemma ReadsOn(s: Node, r: Node)
    requires Link(s, r) && At(s.out, r.epoch) != []
    ensures var n, w := Dispatched(r, At(s.out, r.epoch)[0]), Popped(s, r.epoch);
            n.buf.waiting && SequencePending(Core(At(s.out, r.epoch))) ==> SequencePending(Core(At(w.out, r.epoch)))
  {
    hide Link, Core, At, Dispatched;
    var f := At(s.out, r.epoch)[0];
    PoppedFacts(s, r.epoch, r.epoch);
    if f.Sequence? {
      ReadsSequence(r, s);
      SequenceRead(r, f);
    }
  }

  lemma ReceiveFlows(me: Node, peer: Node, e: nat)
    requires Link(peer, me)
    requires Flowing(me, peer, e) && Flowing(peer, me, e) && At(peer.out, e) != []
    ensures var n := Dispatched(me, At(peer.out, e)[0]);
            var w := Popped(peer, e);
            && Flowing(n, w, e) && Flowing(w, n, e) && n.out == me.out
            && |At(w.out, e)| < |At(peer.out, e)|
  {
    assert |At(Popped(peer, e).out, e)| < |At(peer.out, e)|;
    hide Link, Core, At, Dispatched, SequencePending;
    DispatchedFields(me, At(peer.out, e)[0]);
    ReadsOn(peer, me);
  }

  /** What `s` still has buffered is acknowledged once `r` has read on and its timer has fired: the timer
      is set for this transport, or the last message is still unread. */
  ghost predicate Owing(s: Node, r: Node, e: nat)
  {
    && (r.buf.timer.None? || r.buf.timer == Some(e))
    && (s.buf.messages == [] || r.buf.timer == Some(e) || Payloads(Core(At(s.out, e))) != [])
  }

  ghost predicate Tidy(w: World, e: nat)
  {
    Owing(w.left, w.right, e) && Owing(w.right, w.left, e)
  }

  /** One more unread message than the receiver has counted is the newest one. */
  lemma LastUnread(s: Node, r: Node, e: nat)
    requires Local(s) && Link(s, r) && Flowing(s, r, e) && !SequencePending(Core(At(s.out, e)))
    ensures r.buf.next + |Payloads(Core(At(s.out, e)))| == s.buf.total + 1 && r.buf.latest <= s.buf.total
  {
    hide Valid, OutOk, FlightOk, LogOk, ChannelsOk, AcksOk, SyncOk, Core;
    assert ContinuesOn(s, r.buf.next, r.buf.waiting, r.epoch, e, s.buf.total + 1);
  }

  /** Reading the newest message sets the timer. */
  lemma ReceiveOwes(me: Node, peer: Node, e: nat)
    requires Local(peer) && Link(peer, me) && Flowing(peer, me, e) && Owing(peer, me, e) && At(peer.out, e) != []
    ensures Owing(Popped(peer, e), Dispatched(me, At(peer.out, e)[0]), e)
  {
    var f := At(peer.out, e)[0];
    PoppedFacts(peer, e, e);
    var frames, rest := Core(At(peer.out, e)), Core(At(Popped(peer, e).out, e));
    if !f.Control? {
      FirstPayload(frames);
    }
    TimerKept(me, f, e);
    if f.Data? && !me.buf.waiting && Payloads(rest) == [] {
      assert !SequencePending(frames);
      LastUnread(peer, me, e);
      TimerSet(me, f);
    }
    hide Link, Local, Core, Payloads, Dispatched, At;
  }

  lemma TimerKept(me: Node, f: Frame, e: nat)
    requires me.epoch == e && (me.buf.timer.None? || me.buf.timer == Some(e))
    ensures var t := Dispatched(me, f).buf.timer;
            && (t.None? || t == Some(e))
            && (me.buf.timer == Some(e) ==> t == Some(e))
  {
  }

  lemma TimerSet(me: Node, f: Frame)
    requires f.Data? && !me.buf.waiting && me.buf.next >= me.buf.latest
    requires me.buf.timer.None? || me.buf.timer == Some(me.epoch)
    ensures Dispatched(me, f).buf.timer == Some(me.epoch)
  {
  }

  /** Reading leaves alone what the reader itself is owed. */
  lemma ReaderOwed(me: Node, peer: Node, e: nat)
    requires Owing(me, peer, e) && At(peer.out, me.epoch) != []
    ensures Owing(Dispatched(me, At(peer.out, me.epoch)[0]), Popped(peer, me.epoch), e)
  {
    hide Core, Payloads, Dispatched, At;
    var f := At(peer.out, me.epoch)[0];
    DispatchedFields(me, f);
    StaysEmpty(me, f);
  }

  lemma StaysEmpty(me: Node, f: Frame)
    ensures me.buf.messages == [] ==> Dispatched(me, f).buf.messages == []
  {
    hide SumLen, Waiters, Relieved;
  }

  /** One side reads everything the other has written to it. */
  lemma {:induction false} Drain(w: World, left: bool, e: nat) returns (script: seq<Action>)
    requires Inv(w) && Up(w, e)
    ensures OrderlyRun(w, script)
    ensures var v := Exec(w, script);
            && Inv(v) && Up(v, e) && (Tidy(w, e) ==> Tidy(v, e))
            && (if left then At(v.right.out, e) == [] && v.left.out == w.left.out
                else At(v.left.out, e) == [] && v.right.out == w.right.out)
    ensures Submissions(script, true) == [] && Submissions(script, false) == []
    decreases |At(if left then w.right.out else w.left.out, e)|
  {
    hide Inv, Flowing, Dispatched, Exec, OrderlyRun, Submissions, Perform, Tidy;
    script := [];
    var a := Action(left, Receive);
    if At(if left then w.right.out else w.left.out, e) != [] {
      var v := Perform(w, a);
      PerformKeeps(w, a);
      PerformReceive(w, left, e);
      PerformTidy(w, left, e);
      var rest := Drain(v, left, e);
      script := [a] + rest;
      ExecStep(w, a, rest);
      NoSubmissions(a, rest);
    } else {
      ExecStep(w, a, []);
      NoSubmissions(a, []);
    }
  }

  lemma NoSubmissions(a: Action, rest: seq<Action>)
    requires !a.step.Submit?
    ensures forall left :: Submissions([a] + rest, left) == Submissions(rest, left)
    ensures forall left :: Submissions([], left) == []
  {
    assert ([a] + rest)[1..] == rest;
  }

  lemma PerformReceive(w: World, left: bool, e: nat)
    requires Inv(w) && Up(w, e) && At(if left then w.right.out else w.left.out, e) != []
    ensures var v := Perform(w, Action(left, Receive));
            && Up(v, e)
            && (if left then v.left.out == w.left.out && |At(v.right.out, e)| < |At(w.right.out, e)|
                else v.right.out == w.right.out && |At(v.left.out, e)| < |At(w.left.out, e)|)
  {
    hide Local, Link, Dispatched, Core, SequencePending;
    assert w.left.epoch == e && w.right.epoch == e;
    hide Flowing;
    ReceiveFlows(if left then w.left else w.right, if left then w.right else w.left, e);
  }

  lemma PerformTidy(w: World, left: bool, e: nat)
    requires Inv(w) && Up(w, e) && At(if left then w.right.out else w.left.out, e) != []
    ensures Tidy(w, e) ==> Tidy(Perform(w, Action(left, Receive)), e)
  {
    hide Local, Link, Dispatched, Core, SequencePending;
    assert w.left.epoch == e && w.right.epoch == e;
    hide Flowing, Owing;
    if Tidy(w, e) {
      var me, peer := if left then w.left else w.right, if left then w.right else w.left;
      ReceiveOwes(me, peer, e);
      ReaderOwed(me, peer, e);
    }
  }

  lemma {:induction false} Above(s: set<nat>) returns (m: nat)
    ensures forall x | x in s :: x < m
    decreases s
  {
    m := 0;
    if s != {} {
      var x :| x in s;
      var k := Above(s - {x});
      m := if x < k then k else x + 1;
      assert forall y | y in s :: y == x || y in s - {x};
    }
  }

  predicate SameTimers(w: World, v: World)
  {
    v.left.buf.timer == w.left.buf.timer && v.right.buf.timer == w.right.buf.timer
  }

  lemma PerformFailure(w: World, left: bool)
    requires Inv(w) && (if left then w.left else w.right).inflight != []
    ensures var a := Action(left, TransmitFails(0, false));
            var v := Perform(w, a);
            && Inv(v)
            && SameTimers(w, v)
            && (if left then |v.left.inflight| == |w.left.inflight| - 1 && v.right == w.right
                else |v.right.inflight| == |w.right.inflight| - 1 && v.left == w.left)
  {
    var me := if left then w.left else w.right;
    hide Local, Link, At;
    PerformKeeps(w, Action(left, TransmitFails(0, false)));
    FlightStored(me, 0);
    hide Inv;
    assert |Remove(me.inflight, 0)| == |me.inflight| - 1;
    assert AfterTransmitFails(me, 0, false).inflight == Remove(me.inflight, 0);
  }

  /** The writes of the sends in flight fail, one after the other. */
  lemma {:induction false} Settle(w: World, left: bool) returns (script: seq<Action>)
    requires Inv(w)
    ensures OrderlyRun(w, script)
    ensures var v := Exec(w, script);
            && Inv(v) && SameTimers(w, v)
            && (if left then v.left.inflight == [] && v.right == w.right
                else v.right.inflight == [] && v.left == w.left)
    ensures Submissions(script, true) == [] && Submissions(script, false) == []
    decreases |(if left then w.left else w.right).inflight|
  {
    hide Inv, Perform, Exec, Submissions, OrderlyRun;
    var a := Action(left, TransmitFails(0, false));
    script := [];
    if (if left then w.left else w.right).inflight != [] {
      PerformFailure(w, left);
      var rest := Settle(Perform(w, a), left);
      script := [a] + rest;
      ExecStep(w, a, rest);
      NoSubmissions(a, rest);
    } else {
      ExecStep(w, a, []);
      NoSubmissions(a, []);
    }
  }

  lemma ReopenAndResend(me: Node, e: nat)
    requires Local(me) && me.inflight == [] && me.epoch < e && e !in me.cut
    ensures var n := AfterReopen(me, e);
            var r := AfterResend(n, |ResendFrames(n.buf)|);
            && r.epoch == e && r.cut == me.cut && !r.buf.reconnecting && r.inflight == []
            && r.buf.timer == me.buf.timer
            && SequencePending(Core(At(r.out, e)))
  {
    ReopenLocal(me, e);
    var n := AfterReopen(me, e);
    var all := |ResendFrames(n.buf)|;
    ResendLeads(n, all);
  }

  /** Both ends reopen on transport `e` and resend completely. */
  lemma Reconnect(w: World, e: nat) returns (script: seq<Action>)
    requires Inv(w) && w.left.inflight == [] && w.right.inflight == []
    requires w.left.epoch < e && w.right.epoch < e && e !in w.left.cut && e !in w.right.cut
    ensures OrderlyRun(w, script)
    ensures var v := Exec(w, script);
            && Inv(v) && Up(v, e) && SameTimers(w, v)
            && SequencePending(Core(At(v.left.out, e))) && SequencePending(Core(At(v.right.out, e)))
    ensures Submissions(script, true) == [] && Submissions(script, false) == []
  {
    hide Local, Link, AfterResend, Core;
    var a1 := Action(true, Reopen(e));
    var w1 := Perform(w, a1);
    var a2 := Action(false, Reopen(e));
    var w2 := Perform(w1, a2);
    var a3 := Action(true, Resend(|ResendFrames(w2.left.buf)|));
    var w3 := Perform(w2, a3);
    var a4 := Action(false, Resend(|ResendFrames(w2.right.buf)|));
    var w4 := Perform(w3, a4);
    script := [a1] + ([a2] + ([a3] + ([a4] + [])));
    ReopenAndResend(w.left, e);
    ReopenAndResend(w.right, e);
    PerformKeeps(w, a1);
    PerformKeeps(w1, a2);
    PerformKeeps(w2, a3);
    PerformKeeps(w3, a4);
    ExecStep(w4, a1, []);
    ExecStep(w3, a4, []);
    ExecStep(w2, a3, [a4] + []);
    ExecStep(w1, a2, [a3] + ([a4] + []));
    ExecStep(w, a1, [a2] + ([a3] + ([a4] + [])));
  }

  lemma ExecStep(w: World, a: Action, rest: seq<Action>)
    ensures Exec(w, [a] + rest) == Exec(Perform(w, a), rest)
    ensures Orderly(w, a) && OrderlyRun(Perform(w, a), rest) ==> OrderlyRun(w, [a] + rest)
    ensures Exec(w, []) == w && OrderlyRun(w, [])
    ensures forall left :: Submissions([a] + rest, left) ==
              (if a.left == left && a.step.Submit? then [a.step.message] else []) + Submissions(rest, left)
  {
    assert ([a] + rest)[1..] == rest;
  }

  // ---- acknowledging what was delivered -----------------------------------------------------

  /** A resend leaves every buffered message unread. */
  lemma ResentOwes(s: Node, r: Node, e: nat)
    requires Local(s) && Link(s, r) && Flowing(s, r, e) && SequencePending(Core(At(s.out, e)))
    requires r.buf.timer.None?
    ensures Owing(s, r, e)
  {
    hide Valid, OutOk, FlightOk, LogOk, AcksOk, SyncOk, Core, CountsOk;
    var frames := Core(At(s.out, e));
    assert ContinuesOn(s, r.buf.next, r.buf.waiting, r.epoch, e, s.buf.total + 1);
    assert ChannelOk(frames, Sent(s), Base(s.buf), r.buf.next, r.buf.waiting, r.epoch < e);
    hide ChannelsOk;
    assert |Payloads(frames)| == |s.buf.messages|;
  }

  lemma ResentIsTidy(w: World, e: nat)
    requires Inv(w) && Up(w, e) && w.left.buf.timer.None? && w.right.buf.timer.None?
    requires SequencePending(Core(At(w.left.out, e))) && SequencePending(Core(At(w.right.out, e)))
    ensures Tidy(w, e)
  {
    hide Local, Link, Flowing, Owing, Core;
    ResentOwes(w.left, w.right, e);
    ResentOwes(w.right, w.left, e);
  }

  /** Nothing is buffered and nobody is held back. */
  predicate Released(b: Buffer)
  {
    b.messages == [] && b.signalled == b.issued
  }

  lemma EmptyIsReleased(b: Buffer)
    requires Valid(b) && b.messages == []
    ensures Released(b)
  {
    assert Waiters([]) == [] && b.signalled + [] == b.signalled;
  }

  lemma AckedAll(b: Buffer, id: int)
    requires Valid(b) && id >= b.total
    ensures Released(Acked(b, id))
  {
    hide Valid, Acked;
    AckedValid(b, id);
    EmptyIsReleased(Acked(b, id));
  }

  lemma NewestIsCounted(s: Node, r: Node, e: nat)
    requires Local(s) && Link(s, r) && Flowing(s, r, e) && At(s.out, e) == []
    ensures !r.buf.waiting && r.buf.latest == s.buf.total && Core(At(s.out, e)) == []
  {
    assert Core([]) == [];
    hide Core;
    DrainedIsComplete(s, r);
    PrefixDelivered(s, r);
    hide Link;
  }

  /** The two ends after `r` has fired its timer and `s` has read what came of it. */
  ghost predicate Rounded(s: Node, r: Node, n: Node, w: Node, e: nat)
  {
    && Released(n.buf) && n.buf.timer == s.buf.timer && !n.buf.waiting
    && n == s.(buf := n.buf) && n.buf.reconnecting == s.buf.reconnecting
    && w == r.(buf := r.buf.(timer := None), out := w.out) && At(w.out, e) == []
  }

  lemma RoundQuiet(s: Node, r: Node, e: nat)
    requires Local(s) && Owing(s, r, e) && At(s.out, e) == [] && At(r.out, e) == []
    requires r.buf.timer.None? && s.epoch == e && !s.buf.waiting
    ensures var (n, w) := Next(s, AfterAckTimer(r), Receive); Rounded(s, r, n, w, e)
  {
    assert Core([]) == [] && Payloads([]) == [];
    EmptyIsReleased(s.buf);
    hide Local, Valid, Core, Payloads, Dispatched;
  }

  lemma RoundAcked(s: Node, r: Node, e: nat)
    requires Local(s) && At(r.out, e) == [] && r.buf.timer == Some(e) && !r.buf.reconnecting && e !in r.cut
    requires s.epoch == e && !s.buf.waiting && r.buf.latest == s.buf.total
    ensures var (n, w) := Next(s, AfterAckTimer(r), Receive); Rounded(s, r, n, w, e)
  {
    AckedAll(s.buf, r.buf.latest);
    hide Local, Valid;
    AckWritten(r, e);
    AckRead(s, r.buf.latest);
    hide Dispatched, AfterAckTimer, At, Released;
  }

  lemma AckWritten(r: Node, e: nat)
    requires At(r.out, e) == [] && r.buf.timer == Some(e) && !r.buf.reconnecting && e !in r.cut
    ensures var w := AfterAckTimer(r);
            && At(w.out, e) == [Ack(r.buf.latest)] && w == r.(buf := r.buf.(timer := None), out := w.out)
            && At(w.out[e := At(w.out, e)[1..]], e) == []
  {
  }

  lemma AckRead(s: Node, id: int)
    requires !s.buf.waiting
    ensures var n := Dispatched(s, Ack(id));
            && n == s.(buf := Acked(s.buf, id)) && n.buf.timer == s.buf.timer && !n.buf.waiting
            && n.buf.reconnecting == s.buf.reconnecting
  {
    hide SumLen, Waiters, Relieved;
  }

  /** `s` has everything acknowledged by one round. */
  lemma RoundNodes(s: Node, r: Node, e: nat)
    requires Local(s) && Local(r) && Link(s, r) && Link(r, s)
    requires Flowing(s, r, e) && Flowing(r, s, e) && Owing(s, r, e)
    requires At(s.out, e) == [] && At(r.out, e) == []
    ensures var (n, w) := Next(s, AfterAckTimer(r), Receive); Rounded(s, r, n, w, e)
    ensures !s.buf.waiting && !r.buf.waiting
  {
    hide Local, Link;
    NewestIsCounted(s, r, e);
    NewestIsCounted(r, s, e);
    hide Next, Rounded, Core, Payloads;
    if r.buf.timer.None? {
      RoundQuiet(s, r, e);
    } else {
      RoundAcked(s, r, e);
    }
  }

  /** One end fires its timer and the other one reads. */
  function Round(left: bool): seq<Action>
  {
    [Action(!left, AckTimer)] + ([Action(left, Receive)] + [])
  }

  /** Both directions of transport `e` are read to the end. */
  ghost predicate Quiet(w: World, e: nat)
  {
    Inv(w) && Up(w, e) && Tidy(w, e) && At(w.left.out, e) == [] && At(w.right.out, e) == []
  }

  lemma RoundLeads(w: World, left: bool)
    ensures OrderlyRun(w, Round(left))
    ensures Exec(w, Round(left)) == Perform(Perform(w, Action(!left, AckTimer)), Action(left, Receive))
    ensures Submissions(Round(left), true) == [] && Submissions(Round(left), false) == []
    ensures Inv(w) ==> Inv(Exec(w, Round(left)))
  {
    hide Exec, OrderlyRun, Perform, Inv, Submissions;
    var a, b := Action(!left, AckTimer), Action(left, Receive);
    var w1 := Perform(w, a);
    ExecStep(w, a, [b] + []);
    ExecStep(w1, b, []);
    ExecStep(Perform(w1, b), b, []);
    NoSubmissions(a, [b] + []);
    NoSubmissions(b, []);
    if Inv(w) {
      PerformKeeps(w, a);
      PerformKeeps(w1, b);
    }
  }

  /** A round releases one end and leaves the other as it was, but for its timer. */
  lemma RoundEmpties(w: World, left: bool, e: nat)
    requires Quiet(w, e)
    ensures var v := Exec(w, Round(left));
            && Quiet(v, e)
            && v.left.history == w.left.history && v.right.history == w.right.history
            && v.left.delivered == w.left.delivered && v.right.delivered == w.right.delivered
            && (if left then Released(v.left.buf) && v.right.buf == w.right.buf.(timer := None)
                else Released(v.right.buf) && v.left.buf == w.left.buf.(timer := None))
  {
    RoundLeads(w, left);
    hide Exec, Round, Local, Link, AfterAckTimer, Dispatched, Core, Payloads;
    var s, r := if left then w.left else w.right, if left then w.right else w.left;
    RoundNodes(s, r, e);
  }

  // ---- recovery -----------------------------------------------------------------------------

  /** Both timers fire, wherever their acknowledgements go. */
  lemma FireTimers(w: World) returns (script: seq<Action>)
    requires Inv(w)
    ensures OrderlyRun(w, script)
    ensures var v := Exec(w, script);
            Inv(v) && v.left.buf.timer.None? && v.right.buf.timer.None?
    ensures Submissions(script, true) == [] && Submissions(script, false) == []
  {
    hide Exec, OrderlyRun, Inv, Submissions, At;
    var a, b := Action(true, AckTimer), Action(false, AckTimer);
    var w1 := Perform(w, a);
    script := [a] + ([b] + []);
    PerformKeeps(w, a);
    PerformKeeps(w1, b);
    ExecStep(w, a, [b] + []);
    ExecStep(w1, b, []);
    ExecStep(Perform(w1, b), b, []);
    NoSubmissions(a, [b] + []);
    NoSubmissions(b, []);
  }

  /** From every world an orderly run leads to, there is an orderly continuation, with no new
      messages, after which each end has processed everything the other ever submitted, every
      message has been acknowledged, and no caller is held back any more. */
  lemma EveryWorldRecovers(w: World) returns (script: seq<Action>)
    requires Inv(w)
    ensures OrderlyRun(w, script)
    ensures var v := Exec(w, script);
            && v.left.history == w.left.history && v.right.history == w.right.history
            && v.right.delivered == w.left.history
            && v.left.delivered == w.right.history
            && v.left.buf.messages == [] && v.left.buf.signalled == v.left.buf.issued
            && v.right.buf.messages == [] && v.right.buf.signalled == v.right.buf.issued
  {
    hide Exec, OrderlyRun, Inv, Tidy, Flowing, Round;
    var s0 := FireTimers(w);
    var w0 := Exec(w, s0);
    var s1 := Settle(w0, true);
    var w1 := Exec(w0, s1);
    var s2 := Settle(w1, false);
    var w2 := Exec(w1, s2);
    var e := Above({w2.left.epoch, w2.right.epoch} + w2.left.cut + w2.right.cut);
    var s3 := Reconnect(w2, e);
    var w3 := Exec(w2, s3);
    ResentIsTidy(w3, e);
    var s4 := Drain(w3, true, e);
    var w4 := Exec(w3, s4);
    var s5 := Drain(w4, false, e);
    var w5 := Exec(w4, s5);
    script := s0 + (s1 + (s2 + (s3 + (s4 + (s5 + (Round(true) + Round(false)))))));
    FlowedIsComplete(w5, e);
    RoundEmpties(w5, true, e);
    var w6 := Exec(w5, Round(true));
    RoundEmpties(w6, false, e);
    RoundLeads(w5, true);
    RoundLeads(w6, false);
    ExecAppend(w5, Round(true), Round(false));
    ExecAppend(w4, s5, Round(true) + Round(false));
    ExecAppend(w3, s4, s5 + (Round(true) + Round(false)));
    ExecAppend(w2, s3, s4 + (s5 + (Round(true) + Round(false))));
    ExecAppend(w1, s2, s3 + (s4 + (s5 + (Round(true) + Round(false)))));
    ExecAppend(w0, s1, s2 + (s3 + (s4 + (s5 + (Round(true) + Round(false))))));
    ExecAppend(w, s0, s1 + (s2 + (s3 + (s4 + (s5 + (Round(true) + Round(false)))))));
    HistoryIsSubmissions(w, s0);
    HistoryIsSubmissions(w0, s1);
    HistoryIsSubmissions(w1, s2);
    HistoryIsSubmissions(w2, s3);
    HistoryIsSubmissions(w3, s4);
    HistoryIsSubmissions(w4, s5);
  }

  lemma FlowedIsComplete(v: World, e: nat)
    requires Inv(v) && Up(v, e)
    requires At(v.left.out, e) == [] && At(v.right.out, e) == []
    ensures v.right.delivered == v.left.history && v.left.delivered == v.right.history
  {
    DrainedIsComplete(v.left, v.right);
    DrainedIsComplete(v.right, v.left);
  }
}
