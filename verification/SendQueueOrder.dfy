/**
 What is written: in every run the frames carry exactly the submitted payloads that were not
 turned away, in the order of submission.
 */
module SendQueueOrder {
  import opened Basics
  import opened SendQueue

  /** Answers that mean the payload never reaches a frame. */
  predicate TurnsAway(outcome: Outcome)
  {
    outcome == MixedKinds || outcome == Closed || outcome == Dropped
  }

  function TurnedAway(answers: seq<Answer>): set<nat>
  {
    set i | 0 <= i < |answers| && TurnsAway(answers[i].outcome) :: answers[i].handle
  }

  /** The handles below `n` outside `out`, in order. */
  function Kept(n: nat, out: set<nat>): seq<nat>
  {
    if n == 0 then []
    else Kept(n - 1, out) + if n - 1 in out then [] else [n - 1]
  }

  /** Everything that went into frames, in order. */
  function Flat(batches: seq<Batch>): seq<Item>
  {
    if batches == [] then [] else Flat(batches[..|batches| - 1]) + batches[|batches| - 1].items
  }

  predicate InOrder(n: nat, answers: seq<Answer>, batches: seq<Batch>, open: seq<Item>, inbox: seq<Command>)
  {
    Kept(n, TurnedAway(answers)) == ItemHandles(Flat(batches)) + ItemHandles(open) + Handles(inbox)
  }

  predicate HonestItems(items: seq<Item>, submitted: seq<Payload>)
  {
    forall i | 0 <= i < |items| :: items[i].handle < |submitted| && submitted[items[i].handle] == items[i].payload
  }

  predicate HonestCommands(inbox: seq<Command>, submitted: seq<Payload>)
  {
    forall i | 0 <= i < |inbox| && inbox[i].Send? ::
      inbox[i].handle < |submitted| && submitted[inbox[i].handle] == inbox[i].payload
  }

  predicate OrderInv(s: State)
  {
    && InOrder(|s.submitted|, s.answers, s.batches, s.open, s.inbox)
    && HonestItems(Flat(s.batches), s.submitted) && HonestItems(s.open, s.submitted)
    && HonestCommands(s.inbox, s.submitted)
  }

  // ---- the kept handles ---------------------------------------------------------------------

  lemma {:induction false} KeptBelow(n: nat, out: set<nat>)
    ensures forall h | h in Kept(n, out) :: h < n
  {
    if n > 0 {
      KeptBelow(n - 1, out);
    }
  }

  /** Turning away a handle that is kept takes just that one out. */
  lemma {:induction false} KeptWithout(n: nat, out: set<nat>, a: seq<nat>, h: nat, b: seq<nat>)
    requires Kept(n, out) == a + [h] + b
    ensures Kept(n, out + {h}) == a + b
  {
    var k := Kept(n, out);
    assert n > 0 by { assert |k| > 0; }
    var shorter := Kept(n - 1, out);
    KeptBelow(n - 1, out);
    assert k[|a|] == h;
    if n - 1 in out {
      KeptWithout(n - 1, out, a, h, b);
    } else if b == [] {
      assert k[|k| - 1] == n - 1 == h;
      assert shorter == k[..|k| - 1] == a;
      KeptUnchanged(n - 1, out, h);
      assert a + b == a;
    } else {
      var front := b[..|b| - 1];
      assert k[|k| - 1] == b[|b| - 1] == n - 1;
      assert shorter == k[..|k| - 1] == a + [h] + front;
      assert h in shorter by { assert shorter[|a|] == h; }
      KeptWithout(n - 1, out, a, h, front);
      assert a + front + [n - 1] == a + b;
    }
  }

  lemma {:induction false} KeptUnchanged(n: nat, out: set<nat>, h: nat)
    requires n <= h
    ensures Kept(n, out + {h}) == Kept(n, out)
  {
    if n > 0 {
      KeptUnchanged(n - 1, out, h);
    }
  }

  lemma {:induction false} KeptWithoutTail(n: nat, out: set<nat>, a: seq<nat>, tail: seq<nat>)
    requires Kept(n, out) == a + tail
    ensures Kept(n, out + set h | h in tail) == a
    decreases |tail|
  {
    if tail == [] {
      assert out + (set h | h in tail) == out && a + tail == a;
    } else {
      var last, front := tail[|tail| - 1], tail[..|tail| - 1];
      assert a + tail == a + front + [last] + [];
      KeptWithout(n, out, a + front, last, []);
      assert a + front + [] == a + front;
      KeptWithoutTail(n, out + {last}, a, front);
      assert (set h | h in tail) == (set h | h in front) + {last} by { assert tail == front + [last]; }
      assert out + {last} + (set h | h in front) == out + set h | h in tail;
    }
  }

  lemma TurnedAwayMore(answers: seq<Answer>, more: seq<Answer>)
    ensures TurnedAway(answers + more) == TurnedAway(answers) + TurnedAway(more)
  {
    var all := answers + more;
    forall h | h in TurnedAway(answers) + TurnedAway(more) ensures h in TurnedAway(all) {
      if h in TurnedAway(answers) {
        var i :| 0 <= i < |answers| && TurnsAway(answers[i].outcome) && answers[i].handle == h;
        assert all[i] == answers[i];
      } else {
        var i :| 0 <= i < |more| && TurnsAway(more[i].outcome) && more[i].handle == h;
        assert all[|answers| + i] == more[i];
      }
    }
  }

  lemma TurnedAwayOne(answers: seq<Answer>, handle: nat, outcome: Outcome)
    requires TurnsAway(outcome)
    ensures TurnedAway(answers + [Answer(handle, outcome)]) == TurnedAway(answers) + {handle}
  {
    var one := [Answer(handle, outcome)];
    TurnedAwayMore(answers, one);
    assert one[0].handle in TurnedAway(one);
  }

  lemma {:induction false} TurnedAwayAll(answers: seq<Answer>, handles: seq<nat>, outcome: Outcome)
    ensures TurnedAway(answers + Answers(handles, outcome))
            == TurnedAway(answers) + if TurnsAway(outcome) then set h | h in handles else {}
  {
    var more := Answers(handles, outcome);
    TurnedAwayMore(answers, more);
    AnswersFacts(handles, outcome);
    if TurnsAway(outcome) {
      forall h | h in handles ensures h in TurnedAway(more) {
        AnswerOf(handles, outcome, h);
      }
    }
  }

  lemma {:induction false} AnswerOf(handles: seq<nat>, outcome: Outcome, h: nat)
    requires h in handles
    ensures exists i :: 0 <= i < |Answers(handles, outcome)| && Answers(handles, outcome)[i] == Answer(h, outcome)
  {
    var all := Answers(handles, outcome);
    if handles[0] == h {
      assert all[0] == Answer(h, outcome);
    } else {
      AnswerOf(handles[1..], outcome, h);
      var i :| 0 <= i < |all[1..]| && all[1..][i] == Answer(h, outcome);
      assert all[i + 1] == Answer(h, outcome);
    }
  }

  lemma FlatMore(batches: seq<Batch>, batch: Batch)
    ensures Flat(batches + [batch]) == Flat(batches) + batch.items
  {
    var all := batches + [batch];
    assert all[..|all| - 1] == batches;
  }

  // ---- each step ----------------------------------------------------------------------------

  lemma HonestMore(items: seq<Item>, inbox: seq<Command>, submitted: seq<Payload>, payload: Payload)
    requires HonestItems(items, submitted) && HonestCommands(inbox, submitted)
    ensures HonestItems(items, submitted + [payload])
    ensures HonestCommands(inbox + [Send(payload, |submitted|)], submitted + [payload])
    ensures HonestCommands(inbox, submitted + [payload]) && HonestCommands(inbox + [Shutdown], submitted)
  {
  }

  lemma {:induction false} UptoBelow(n: nat)
    ensures forall h | h in Upto(n) :: h < n
  {
    if n > 0 {
      UptoBelow(n - 1);
    }
  }

  lemma {:induction false} AnsweredHandle(answers: seq<Answer>, i: nat)
    requires i < |answers|
    ensures answers[i].handle in Answered(answers)
  {
    if i > 0 {
      AnsweredHandle(answers[1..], i - 1);
    }
  }

  lemma ConservedBelow(n: nat, inbox: seq<Command>, pending: seq<nat>, answers: seq<Answer>, h: nat)
    requires Conserved(n, inbox, pending, answers) && h in Answered(answers)
    ensures h < n
  {
    hide Upto, Handles, Answered;
    assert h in multiset(Answered(answers));
    assert h in multiset(Upto(n));
    assert h in Upto(n);
    UptoBelow(n);
  }

  /** Only submitted sends are answered. */
  lemma AnsweredIsSubmitted(s: State)
    requires Inv(s)
    ensures forall i | 0 <= i < |s.answers| :: s.answers[i].handle < |s.submitted|
    ensures |s.submitted| !in TurnedAway(s.answers)
  {
    hide BufferInv, FrameInv, AnswersInv, Conserved;
    forall i | 0 <= i < |s.answers| ensures s.answers[i].handle < |s.submitted| {
      AnsweredHandle(s.answers, i);
      ConservedBelow(|s.submitted|, s.inbox, s.pending, s.answers, s.answers[i].handle);
    }
  }

  lemma SubmitOrder(s: State, payload: Payload)
    requires Inv(s) && OrderInv(s)
    ensures OrderInv(Arrived(s, payload))
  {
    hide HonestItems, HonestCommands, Kept, TurnedAway, BufferInv, FrameInv, AnswersInv, Conserved;
    var n, out := |s.submitted|, TurnedAway(s.answers);
    HonestMore(s.open, s.inbox, s.submitted, payload);
    HonestMore(Flat(s.batches), s.inbox, s.submitted, payload);
    OneMoreSend(s.inbox, payload, n);
    OneMoreKept(n, out);
    if s.phase == Gone {
      TurnedAwayOne(s.answers, n, Closed);
    } else {
      AnsweredIsSubmitted(s);
      assert ItemHandles(Flat(s.batches)) + ItemHandles(s.open) + Handles(s.inbox) + [n]
          == ItemHandles(Flat(s.batches)) + ItemHandles(s.open) + (Handles(s.inbox) + [n]);
    }
  }

  lemma OneMoreKept(n: nat, out: set<nat>)
    ensures n !in out ==> Kept(n + 1, out) == Kept(n, out) + [n]
    ensures Kept(n + 1, out + {n}) == Kept(n, out)
  {
    KeptUnchanged(n, out, n);
  }

  lemma FirstHandle(inbox: seq<Command>)
    requires inbox != [] && inbox[0].Send?
    ensures Handles(inbox) == [inbox[0].handle] + Handles(inbox[1..])
  {
  }

  lemma OneMoreItem(open: seq<Item>, item: Item)
    ensures ItemHandles(open + [item]) == ItemHandles(open) + [item.handle]
  {
    var one := [item];
    assert one[1..] == [] && ItemHandles(one) == [item.handle];
    PayloadsAppend(open, one);
  }

  lemma AcceptedInOrder(n: nat, answers: seq<Answer>, batches: seq<Batch>, open: seq<Item>, inbox: seq<Command>)
    requires InOrder(n, answers, batches, open, inbox) && inbox != [] && inbox[0].Send?
    ensures InOrder(n, answers, batches, open + [Item(inbox[0].payload, inbox[0].handle)], inbox[1..])
  {
    hide Kept, TurnedAway, Flat, ItemHandles, Handles;
    var flat, mine, h, rest := ItemHandles(Flat(batches)), ItemHandles(open), inbox[0].handle, Handles(inbox[1..]);
    FirstHandle(inbox);
    OneMoreItem(open, Item(inbox[0].payload, h));
    Associative(flat, mine, [h]);
    Associative(flat + mine, [h], rest);
  }

  lemma RefusedInOrder(n: nat, answers: seq<Answer>, batches: seq<Batch>, open: seq<Item>, inbox: seq<Command>)
    requires InOrder(n, answers, batches, open, inbox) && inbox != [] && inbox[0].Send?
    ensures InOrder(n, answers + [Answer(inbox[0].handle, MixedKinds)], batches, open, inbox[1..])
  {
    hide Kept, TurnedAway, Flat, ItemHandles, Handles;
    var before, h, rest := ItemHandles(Flat(batches)) + ItemHandles(open), inbox[0].handle, Handles(inbox[1..]);
    FirstHandle(inbox);
    Associative(before, [h], rest);
    TurnedAwayOne(answers, h, MixedKinds);
    KeptWithout(n, TurnedAway(answers), before, h, rest);
  }

  lemma HonestFirst(open: seq<Item>, inbox: seq<Command>, submitted: seq<Payload>)
    requires HonestItems(open, submitted) && HonestCommands(inbox, submitted) && inbox != [] && inbox[0].Send?
    ensures HonestItems(open + [Item(inbox[0].payload, inbox[0].handle)], submitted)
    ensures HonestCommands(inbox[1..], submitted)
  {
  }

  lemma PushOrder(s: State)
    requires OrderInv(s) && s.inbox != [] && s.inbox[0].Send?
    ensures OrderInv(Pushed(Rest(s), s.inbox[0].payload, s.inbox[0].handle))
  {
    hide InOrder, HonestItems, HonestCommands;
    HonestFirst(s.open, s.inbox, s.submitted);
    AcceptedInOrder(|s.submitted|, s.answers, s.batches, s.open, s.inbox);
    RefusedInOrder(|s.submitted|, s.answers, s.batches, s.open, s.inbox);
  }

  lemma ExitOrder(s: State)
    requires OrderInv(s)
    ensures OrderInv(Exited(s))
  {
    hide Kept, TurnedAway;
    var t := Responded(s, Stopped);
    TurnedAwayAll(s.answers, s.pending, Stopped);
    assert TurnedAway(s.answers) + {} == TurnedAway(s.answers);
    TurnedAwayAll(t.answers, Handles(s.inbox), Dropped);
    var before := ItemHandles(Flat(s.batches)) + ItemHandles(s.open);
    KeptWithoutTail(|s.submitted|, TurnedAway(s.answers), before, Handles(s.inbox));
    assert before + [] == before;
  }

  lemma RestOrder(s: State)
    requires OrderInv(s) && s.inbox != [] && s.inbox[0].Shutdown?
    ensures OrderInv(Rest(s))
  {
    assert Handles(s.inbox) == Handles(s.inbox[1..]);
  }

  lemma RespondedOrder(s: State, outcome: Outcome)
    requires !TurnsAway(outcome)
    ensures TurnedAway(Responded(s, outcome).answers) == TurnedAway(s.answers)
  {
    TurnedAwayAll(s.answers, s.pending, outcome);
  }

  lemma BatchedInOrder(n: nat, answers: seq<Answer>, batches: seq<Batch>, open: seq<Item>, inbox: seq<Command>,
                       ok: bool)
    requires InOrder(n, answers, batches, open, inbox)
    ensures InOrder(n, answers, batches + [Batch(open, ok)], [], inbox)
  {
    hide Kept, TurnedAway, Handles;
    FlatMore(batches, Batch(open, ok));
    hide Flat;
    PayloadsAppend(Flat(batches), open);
    assert ItemHandles(Flat(batches)) + ItemHandles(open) + [] == ItemHandles(Flat(batches)) + ItemHandles(open);
  }

  lemma HonestBatch(batches: seq<Batch>, open: seq<Item>, ok: bool, submitted: seq<Payload>)
    requires HonestItems(Flat(batches), submitted) && HonestItems(open, submitted)
    ensures HonestItems(Flat(batches + [Batch(open, ok)]), submitted) && HonestItems([], submitted)
  {
    FlatMore(batches, Batch(open, ok));
  }

  lemma SameTurnedAway(n: nat, answers: seq<Answer>, more: seq<Answer>, batches: seq<Batch>, open: seq<Item>,
                       inbox: seq<Command>)
    requires InOrder(n, answers, batches, open, inbox) && TurnedAway(more) == TurnedAway(answers)
    ensures InOrder(n, more, batches, open, inbox)
  {
  }

  lemma FlushOrder(s: State, ok: bool)
    requires OrderInv(s) && s.buffer != []
    ensures OrderInv(Flushed(s, ok))
  {
    hide InOrder, HonestItems, HonestCommands, TurnedAway;
    var t := Responded(s, if ok then Sent else WriteFailed);
    RespondedOrder(s, if ok then Sent else WriteFailed);
    SameTurnedAway(|s.submitted|, s.answers, t.answers, s.batches, s.open, s.inbox);
    BatchedInOrder(|s.submitted|, t.answers, s.batches, s.open, s.inbox, ok);
    HonestBatch(s.batches, s.open, ok, s.submitted);
  }

  lemma BufferWhenFlushing(s: State)
    requires Inv(s) && s.phase == Flushing
    ensures s.buffer != []
  {
    EmptyWhenWaiting(s.phase, s.buffer, s.pending, s.open);
  }

  lemma NextOrder(s: State, step: Step)
    requires Inv(s) && OrderInv(s) && Enabled(s, step)
    ensures OrderInv(Next(s, step))
  {
    hide Inv, InOrder, HonestItems, HonestCommands, Pushed, Exited, Flushed, Arrived;
    match step
    case Submit(payload) => SubmitOrder(s, payload);
    case RequestStop => StopOrder(s);
    case Close =>
    case Receive =>
      if s.inbox == [] {
        ExitOrder(s);
      } else if s.inbox[0].Shutdown? {
        RestOrder(s);
        ExitOrder(Rest(s));
      } else {
        PushOrder(s);
      }
    case Take =>
      if s.inbox[0].Shutdown? {
        RestOrder(s);
        StopTakenOrder(Rest(s));
      } else {
        PushOrder(s);
      }
    case DrainEnds =>
    case Flush(ok) =>
      BufferWhenFlushing(s);
      FlushOrder(s, ok);
  }

  lemma StopOrder(s: State)
    requires OrderInv(s)
    ensures OrderInv(s.(inbox := s.inbox + [Shutdown]))
  {
    OneMoreSend(s.inbox, Text([]), 0);
    HonestMore([], s.inbox, s.submitted, Text([]));
  }

  lemma StopTakenOrder(s: State)
    requires OrderInv(s)
    ensures OrderInv(Responded(s, Stopped))
  {
    hide HonestItems, HonestCommands, Kept, TurnedAway;
    RespondedOrder(s, Stopped);
  }

  lemma {:induction false} RunOrder(s: State, steps: seq<Step>)
    requires Inv(s) && OrderInv(s)
    ensures OrderInv(Exec(s, steps))
    decreases |steps|
  {
    hide Inv, OrderInv, Next;
    if steps != [] {
      if Enabled(s, steps[0]) {
        NextKeeps(s, steps[0]);
        NextOrder(s, steps[0]);
        RunOrder(Next(s, steps[0]), steps[1..]);
      } else {
        RunOrder(s, steps[1..]);
      }
    }
  }

  // ---- the theorem --------------------------------------------------------------------------

  function FramePayloads(frames: seq<Written>): seq<Payload>
  {
    if frames == [] then [] else FramePayloads(frames[..|frames| - 1]) + [frames[|frames| - 1].payload]
  }

  lemma {:induction false} TextsAppend(a: seq<Payload>, b: seq<Payload>)
    ensures Texts(a + b) == Texts(a) + Texts(b) && Binaries(a + b) == Binaries(a) + Binaries(b)
  {
    if a == [] {
      assert a + b == b;
    } else {
      assert (a + b)[1..] == a[1..] + b;
      TextsAppend(a[1..], b);
      Associative(match a[0] case Text(t) => t case Binary(_) => [], Texts(a[1..]), Texts(b));
      Associative(match a[0] case Binary(c) => c case Text(_) => [], Binaries(a[1..]), Binaries(b));
    }
  }

  lemma {:induction false} OneKind(payloads: seq<Payload>)
    requires Homogeneous(payloads) && payloads != []
    ensures payloads[0].Text? ==> Binaries(payloads) == []
    ensures payloads[0].Binary? ==> Texts(payloads) == []
  {
    if |payloads| > 1 {
      assert SameKind(payloads[0], payloads[1]);
      assert Homogeneous(payloads[1..]);
      OneKind(payloads[1..]);
    } else {
      assert payloads[1..] == [];
    }
  }

  lemma JoinedStreams(payloads: seq<Payload>)
    requires Homogeneous(payloads) && payloads != []
    ensures Texts([Joined(payloads)]) == Texts(payloads) && Binaries([Joined(payloads)]) == Binaries(payloads)
  {
    OneKind(payloads);
    var one := [Joined(payloads)];
    assert one[1..] == [];
  }

  lemma {:induction false} FramesAreBatches(frames: seq<Written>, batches: seq<Batch>)
    requires FrameInv(frames, batches)
    ensures Texts(FramePayloads(frames)) == Texts(Payloads(Flat(batches)))
    ensures Binaries(FramePayloads(frames)) == Binaries(Payloads(Flat(batches)))
    decreases |frames|
  {
    if frames != [] {
      hide Texts, Binaries, Joined, Homogeneous;
      var k := |frames| - 1;
      FramesAreBatches(frames[..k], batches[..k]);
      var items := batches[k].items;
      assert BatchInv(batches[k], frames[k]);
      JoinedStreams(Payloads(items));
      TextsAppend(FramePayloads(frames[..k]), [frames[k].payload]);
      PayloadsAppend(Flat(batches[..k]), items);
      TextsAppend(Payloads(Flat(batches[..k])), Payloads(items));
    }
  }

  /** The payloads of the listed submissions. */
  function Chosen(submitted: seq<Payload>, handles: seq<nat>): seq<Payload>
    requires forall i | 0 <= i < |handles| :: handles[i] < |submitted|
  {
    if handles == [] then [] else [submitted[handles[0]]] + Chosen(submitted, handles[1..])
  }

  lemma {:induction false} HonestChosen(items: seq<Item>, submitted: seq<Payload>)
    requires HonestItems(items, submitted)
    ensures forall i | 0 <= i < |ItemHandles(items)| :: ItemHandles(items)[i] < |submitted|
    ensures Chosen(submitted, ItemHandles(items)) == Payloads(items)
  {
    if items != [] {
      HonestChosen(items[1..], submitted);
      var hs := ItemHandles(items);
      assert hs[1..] == ItemHandles(items[1..]);
      assert forall i | 0 <= i < |hs| :: i > 0 ==> hs[i] == hs[1..][i - 1];
    }
  }

  /** For every arrival schedule, whenever the worker is blocked or gone and its channel empty:
      the text and the bytes on the wire are those of the submitted payloads, in order of
      submission, without the ones that were turned away. */
  lemma WrittenInOrder(steps: seq<Step>)
    ensures var s := Exec(Initial, steps);
            s.inbox == [] && (s.phase == Waiting || s.phase == Gone) ==>
              && var kept := Kept(|s.submitted|, TurnedAway(s.answers));
              && (forall i | 0 <= i < |kept| :: kept[i] < |s.submitted|)
              && Texts(FramePayloads(s.frames)) == Texts(Chosen(s.submitted, kept))
              && Binaries(FramePayloads(s.frames)) == Binaries(Chosen(s.submitted, kept))
  {
    hide Conserved, AnswersInv, FrameInv, Kept, TurnedAway, Texts, Binaries;
    Reachable(steps);
    InitialOrder();
    RunOrder(Initial, steps);
    var s := Exec(Initial, steps);
    if s.inbox == [] && (s.phase == Waiting || s.phase == Gone) {
      FramesAreBatches(s.frames, s.batches);
      HonestChosen(Flat(s.batches), s.submitted);
      assert ItemHandles(Flat(s.batches)) + [] + [] == ItemHandles(Flat(s.batches));
    }
  }

  lemma InitialOrder()
    ensures Inv(Initial) && OrderInv(Initial)
  {
  }
}
