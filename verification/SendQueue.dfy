/**
 The transport send queue: callers put commands into a channel, one worker takes them out,
 batches payloads and answers the callers. Arrivals interleave with the worker's steps in any
 way.
 */
module SendQueue {
  import opened Basics

  datatype Payload = Text(text: string) | Binary(bytes: Bytes)

  /** A send with the handle its caller waits on, or a request to stop. */
  datatype Command = Send(payload: Payload, handle: nat) | Shutdown

  datatype Outcome = Sent | WriteFailed | MixedKinds | Stopped | Closed | Dropped

  datatype Answer = Answer(handle: nat, outcome: Outcome)

  /** A frame handed to the transport, and whether the transport took it. */
  datatype Written = Written(payload: Payload, ok: bool)

  datatype Item = Item(payload: Payload, handle: nat)

  /** What went into one frame. */
  datatype Batch = Batch(items: seq<Item>, ok: bool)

  /** Where the worker is: blocked in `recv`, in the drain, about to flush, or gone. */
  datatype Phase = Waiting | Draining | Flushing | Gone

  /** The worker's variables and its channel, then what the outside sees, then history. */
  datatype State = State(
    inbox: seq<Command>,
    closed: bool,
    phase: Phase,
    buffer: seq<Payload>,
    pending: seq<nat>,
    answers: seq<Answer>,
    frames: seq<Written>,
    batches: seq<Batch>,
    open: seq<Item>,
    submitted: seq<Payload>,
    swallowed: nat)

  const Initial := State([], false, Waiting, [], [], [], [], [], [], [], 0)

  datatype Step =
    | Submit(payload: Payload)   // a caller puts a send with a new handle into the channel
    | RequestStop                // a caller puts a shutdown into the channel
    | Close                      // the last sender is dropped
    | Receive                    // the blocking `recv` returns
    | Take                       // `try_recv` returns a command
    | DrainEnds                  // `try_recv` finds nothing
    | Flush(ok: bool)            // the buffer is written

  // ---- the worker's operations --------------------------------------------------------------

  predicate SameKind(a: Payload, b: Payload)
  {
    a.Text? == b.Text?
  }

  function Answers(handles: seq<nat>, outcome: Outcome): seq<Answer>
  {
    if handles == [] then [] else [Answer(handles[0], outcome)] + Answers(handles[1..], outcome)
  }

  /** A send joins the buffer, or is answered at once when its kind does not match. */
  function Pushed(s: State, payload: Payload, handle: nat): State
  {
    if s.buffer != [] && !SameKind(s.buffer[0], payload) then
      s.(answers := s.answers + [Answer(handle, MixedKinds)])
    else
      s.(buffer := s.buffer + [payload], pending := s.pending + [handle], open := s.open + [Item(payload, handle)])
  }

  function Responded(s: State, outcome: Outcome): State
  {
    s.(answers := s.answers + Answers(s.pending, outcome), pending := [])
  }

  function Handles(commands: seq<Command>): seq<nat>
  {
    if commands == [] then []
    else (if commands[0].Send? then [commands[0].handle] else []) + Handles(commands[1..])
  }

  /** The worker returns: the channel goes with it, and callers still in it see their response
      dropped. */
  function Exited(s: State): State
  {
    var t := Responded(s, Stopped);
    t.(phase := Gone, inbox := [], answers := t.answers + Answers(Handles(t.inbox), Dropped))
  }

  function Texts(payloads: seq<Payload>): string
  {
    if payloads == [] then []
    else (match payloads[0] case Text(t) => t case Binary(_) => []) + Texts(payloads[1..])
  }

  function Binaries(payloads: seq<Payload>): Bytes
  {
    if payloads == [] then []
    else (match payloads[0] case Binary(b) => b case Text(_) => []) + Binaries(payloads[1..])
  }

  /** The payloads of a batch in one frame. */
  function Joined(payloads: seq<Payload>): Payload
    requires payloads != []
  {
    if payloads[0].Text? then Text(Texts(payloads)) else Binary(Binaries(payloads))
  }

  function Flushed(s: State, ok: bool): State
  {
    if s.buffer == [] then Responded(s, Sent).(phase := Waiting)
    else
      Responded(s, if ok then Sent else WriteFailed).(
        phase := Waiting, buffer := [], open := [],
        frames := s.frames + [Written(Joined(s.buffer), ok)],
        batches := s.batches + [Batch(s.open, ok)])
  }

  function Rest(s: State): State
    requires s.inbox != []
  {
    s.(inbox := s.inbox[1..])
  }

  predicate Enabled(s: State, step: Step)
  {
    match step
    case Submit(_) => !s.closed
    case RequestStop => !s.closed
    case Close => !s.closed
    case Receive => s.phase == Waiting && (s.inbox != [] || s.closed)
    case Take => s.phase == Draining && s.inbox != []
    case DrainEnds => s.phase == Draining && s.inbox == []
    case Flush(_) => s.phase == Flushing
  }

  /** A send that finds the worker gone fails at once. */
  function Arrived(s: State, payload: Payload): State
  {
    var handle := |s.submitted|;
    var t := s.(submitted := s.submitted + [payload]);
    if s.phase == Gone then t.(answers := s.answers + [Answer(handle, Closed)])
    else t.(inbox := s.inbox + [Send(payload, handle)])
  }

  function Received(s: State): State
    requires s.inbox != [] || s.closed
  {
    if s.inbox == [] then Exited(s)
    else
      match s.inbox[0]
      case Shutdown => Exited(Rest(s))
      case Send(payload, handle) =>
        var t := Pushed(Rest(s), payload, handle);
        if |t.buffer| == |s.buffer| then t else t.(phase := Draining)
  }

  function Taken(s: State): State
    requires s.inbox != []
  {
    match s.inbox[0]
    case Shutdown => Responded(Rest(s), Stopped).(phase := Flushing, swallowed := s.swallowed + 1)
    case Send(payload, handle) => Pushed(Rest(s), payload, handle)
  }

  function Next(s: State, step: Step): State
    requires Enabled(s, step)
  {
    match step
    case Submit(payload) => Arrived(s, payload)
    case RequestStop => if s.phase == Gone then s else s.(inbox := s.inbox + [Shutdown])
    case Close => s.(closed := true)
    case Receive => Received(s)
    case Take => Taken(s)
    case DrainEnds => s.(phase := Flushing)
    case Flush(ok) => Flushed(s, ok)
  }

  /** Steps that are not enabled change nothing. */
  function Exec(s: State, steps: seq<Step>): State
    decreases |steps|
  {
    if steps == [] then s
    else Exec(if Enabled(s, steps[0]) then Next(s, steps[0]) else s, steps[1..])
  }

  // ---- what every step keeps ----------------------------------------------------------------

  function Payloads(items: seq<Item>): seq<Payload>
  {
    if items == [] then [] else [items[0].payload] + Payloads(items[1..])
  }

  function ItemHandles(items: seq<Item>): seq<nat>
  {
    if items == [] then [] else [items[0].handle] + ItemHandles(items[1..])
  }

  function Answered(answers: seq<Answer>): seq<nat>
  {
    if answers == [] then [] else [answers[0].handle] + Answered(answers[1..])
  }

  predicate Homogeneous(payloads: seq<Payload>)
  {
    forall i | 0 <= i < |payloads| :: SameKind(payloads[0], payloads[i])
  }

  predicate BufferInv(phase: Phase, buffer: seq<Payload>, pending: seq<nat>, open: seq<Item>)
  {
    && Homogeneous(buffer)
    && buffer == Payloads(open)
    && (pending == ItemHandles(open) || (pending == [] && phase == Flushing))
    && (phase == Waiting || phase == Gone ==> open == [])
    && (phase == Draining || phase == Flushing ==> open != [])
  }

  predicate BatchInv(b: Batch, w: Written)
  {
    && b.items != [] && Homogeneous(Payloads(b.items)) && |Payloads(b.items)| == |b.items|
    && w == Written(Joined(Payloads(b.items)), b.ok)
  }

  predicate FrameInv(frames: seq<Written>, batches: seq<Batch>)
  {
    |frames| == |batches| && forall i | 0 <= i < |frames| :: BatchInv(batches[i], frames[i])
  }

  /** The handles below `n`. */
  function Upto(n: nat): seq<nat>
  {
    if n == 0 then [] else Upto(n - 1) + [n - 1]
  }

  /** Every submitted send is in the channel, waiting for its batch, or answered, and in one of
      these places only. */
  ghost predicate Conserved(n: nat, inbox: seq<Command>, pending: seq<nat>, answers: seq<Answer>)
  {
    multiset(Upto(n)) == multiset(Handles(inbox)) + multiset(pending) + multiset(Answered(answers))
  }

  /** The handle is in a batch that was written with this result. */
  ghost predicate InBatch(batches: seq<Batch>, handle: nat, ok: bool)
  {
    exists i :: 0 <= i < |batches| && batches[i].ok == ok && handle in ItemHandles(batches[i].items)
  }

  ghost predicate AnswerInv(a: Answer, batches: seq<Batch>)
  {
    && (a.outcome == Sent ==> InBatch(batches, a.handle, true))
    && (a.outcome == WriteFailed ==> InBatch(batches, a.handle, false))
  }

  ghost predicate AnswersInv(answers: seq<Answer>, batches: seq<Batch>)
  {
    forall i | 0 <= i < |answers| :: AnswerInv(answers[i], batches)
  }

  ghost predicate Inv(s: State)
  {
    && BufferInv(s.phase, s.buffer, s.pending, s.open)
    && FrameInv(s.frames, s.batches)
    && Conserved(|s.submitted|, s.inbox, s.pending, s.answers)
    && AnswersInv(s.answers, s.batches)
    && (s.phase == Gone ==> s.inbox == [])
  }

  // ---- list lemmas --------------------------------------------------------------------------

  lemma {:induction false} PayloadsAppend(a: seq<Item>, b: seq<Item>)
    ensures Payloads(a + b) == Payloads(a) + Payloads(b)
    ensures ItemHandles(a + b) == ItemHandles(a) + ItemHandles(b)
  {
    if a == [] {
      assert a + b == b;
    } else {
      assert (a + b)[1..] == a[1..] + b;
      PayloadsAppend(a[1..], b);
      Associative([a[0].payload], Payloads(a[1..]), Payloads(b));
      Associative([a[0].handle], ItemHandles(a[1..]), ItemHandles(b));
    }
  }

  lemma {:induction false} PayloadsLength(a: seq<Item>)
    ensures |Payloads(a)| == |a|
  {
    if a != [] {
      PayloadsLength(a[1..]);
    }
  }

  lemma {:induction false} AnsweredAppend(a: seq<Answer>, b: seq<Answer>)
    ensures Answered(a + b) == Answered(a) + Answered(b)
  {
    if a == [] {
      assert a + b == b;
    } else {
      assert (a + b)[1..] == a[1..] + b;
      AnsweredAppend(a[1..], b);
      Associative([a[0].handle], Answered(a[1..]), Answered(b));
    }
  }

  lemma {:induction false} HandlesAppend(a: seq<Command>, b: seq<Command>)
    ensures Handles(a + b) == Handles(a) + Handles(b)
  {
    if a == [] {
      assert a + b == b;
    } else {
      assert (a + b)[1..] == a[1..] + b;
      HandlesAppend(a[1..], b);
      Associative(if a[0].Send? then [a[0].handle] else [], Handles(a[1..]), Handles(b));
    }
  }

  lemma {:induction false} AnswersFacts(handles: seq<nat>, outcome: Outcome)
    ensures Answered(Answers(handles, outcome)) == handles
    ensures forall i | 0 <= i < |Answers(handles, outcome)| ::
              Answers(handles, outcome)[i].outcome == outcome && Answers(handles, outcome)[i].handle in handles
  {
    if handles != [] {
      AnswersFacts(handles[1..], outcome);
      assert Answers(handles, outcome)[1..] == Answers(handles[1..], outcome);
      assert [handles[0]] + handles[1..] == handles;
    }
  }

  // ---- each operation keeps the invariant ---------------------------------------------------

  lemma AnswersConserve(n: nat, inbox: seq<Command>, pending: seq<nat>, answers: seq<Answer>, outcome: Outcome)
    requires Conserved(n, inbox, pending, answers)
    ensures Conserved(n, inbox, [], answers + Answers(pending, outcome))
  {
    AnswersFacts(pending, outcome);
    AnsweredAppend(answers, Answers(pending, outcome));
  }

  /** The commands still in the channel are answered instead. */
  lemma DroppedConserve(n: nat, inbox: seq<Command>, pending: seq<nat>, answers: seq<Answer>, outcome: Outcome)
    requires Conserved(n, inbox, pending, answers)
    ensures Conserved(n, [], pending, answers + Answers(Handles(inbox), outcome))
  {
    AnswersFacts(Handles(inbox), outcome);
    AnsweredAppend(answers, Answers(Handles(inbox), outcome));
  }

  lemma FirstConserved(n: nat, inbox: seq<Command>, pending: seq<nat>, answers: seq<Answer>)
    requires Conserved(n, inbox, pending, answers) && inbox != []
    ensures inbox[0].Shutdown? ==> Conserved(n, inbox[1..], pending, answers)
    ensures inbox[0].Send? ==>
              && Conserved(n, inbox[1..], pending + [inbox[0].handle], answers)
              && forall o :: Conserved(n, inbox[1..], pending, answers + [Answer(inbox[0].handle, o)])
  {
    if inbox[0].Send? {
      var h := inbox[0].handle;
      assert multiset(Handles(inbox)) == multiset{h} + multiset(Handles(inbox[1..]));
      assert multiset(pending + [h]) == multiset(pending) + multiset{h};
      forall o ensures multiset(Answered(answers + [Answer(h, o)])) == multiset(Answered(answers)) + multiset{h} {
        OneMoreAnswer(answers, h, o);
      }
    }
  }

  lemma OneMoreAnswer(answers: seq<Answer>, handle: nat, outcome: Outcome)
    ensures Answered(answers + [Answer(handle, outcome)]) == Answered(answers) + [handle]
  {
    AnsweredAppend(answers, [Answer(handle, outcome)]);
    assert [Answer(handle, outcome)][1..] == [];
    assert Answered([Answer(handle, outcome)]) == [handle];
  }

  lemma SubmitConserves(n: nat, inbox: seq<Command>, pending: seq<nat>, answers: seq<Answer>, payload: Payload)
    requires Conserved(n, inbox, pending, answers)
    ensures Conserved(n + 1, inbox + [Send(payload, n)], pending, answers)
    ensures Conserved(n + 1, inbox, pending, answers + [Answer(n, Closed)])
  {
    OneMoreSend(inbox, payload, n);
    OneMoreAnswer(answers, n, Closed);
    hide Handles, Answered;
    assert multiset(Upto(n + 1)) == multiset(Upto(n)) + multiset{n};
    assert multiset(Handles(inbox) + [n]) == multiset(Handles(inbox)) + multiset{n};
    assert multiset(Answered(answers) + [n]) == multiset(Answered(answers)) + multiset{n};
  }

  lemma OneMoreSend(inbox: seq<Command>, payload: Payload, handle: nat)
    ensures Handles(inbox + [Send(payload, handle)]) == Handles(inbox) + [handle]
    ensures Handles(inbox + [Shutdown]) == Handles(inbox)
  {
    var c := [Send(payload, handle)];
    HandlesAppend(inbox, c);
    HandlesAppend(inbox, [Shutdown]);
    assert c[1..] == [] && [Shutdown][1..] == [];
    assert Handles(c) == [handle] && Handles([Shutdown]) == [];
  }

  lemma StopConserves(n: nat, inbox: seq<Command>, pending: seq<nat>, answers: seq<Answer>)
    requires Conserved(n, inbox, pending, answers)
    ensures Conserved(n, inbox + [Shutdown], pending, answers)
  {
    OneMoreSend(inbox, Text([]), 0);
  }

  lemma AnswersKept(answers: seq<Answer>, batches: seq<Batch>, more: seq<Answer>, batch: seq<Batch>)
    requires AnswersInv(answers, batches)
    requires forall i | 0 <= i < |more| :: AnswerInv(more[i], batches + batch)
    ensures AnswersInv(answers + more, batches + batch)
  {
    hide AnswerInv;
    forall i | 0 <= i < |answers| ensures AnswerInv(answers[i], batches + batch) {
      AnswerKept(answers[i], batches, batch);
    }
  }

  lemma AnswerKept(answer: Answer, batches: seq<Batch>, batch: seq<Batch>)
    requires AnswerInv(answer, batches)
    ensures AnswerInv(answer, batches + batch)
  {
    var ok := answer.outcome == Sent;
    if InBatch(batches, answer.handle, ok) {
      var i :| 0 <= i < |batches| && batches[i].ok == ok && answer.handle in ItemHandles(batches[i].items);
      assert (batches + batch)[i] == batches[i];
    }
  }

  /** Answers that claim nothing about a frame. */
  lemma AnswersAdded(answers: seq<Answer>, batches: seq<Batch>, handles: seq<nat>, outcome: Outcome)
    requires AnswersInv(answers, batches) && outcome != Sent && outcome != WriteFailed
    ensures AnswersInv(answers + Answers(handles, outcome), batches)
  {
    AnswersFacts(handles, outcome);
    assert batches + [] == batches;
    AnswersKept(answers, batches, Answers(handles, outcome), []);
  }

  lemma AnswerAdded(answers: seq<Answer>, batches: seq<Batch>, handle: nat, outcome: Outcome)
    requires AnswersInv(answers, batches) && outcome != Sent && outcome != WriteFailed
    ensures AnswersInv(answers + [Answer(handle, outcome)], batches)
  {
    AnswersAdded(answers, batches, [handle], outcome);
    assert [handle][1..] == [];
    assert Answers([handle], outcome) == [Answer(handle, outcome)];
  }

  /** Answers that report a write are about the batch just written. */
  lemma WriteAnswered(answers: seq<Answer>, batches: seq<Batch>, batch: Batch, handles: seq<nat>)
    requires AnswersInv(answers, batches) && forall h | h in handles :: h in ItemHandles(batch.items)
    ensures AnswersInv(answers + Answers(handles, if batch.ok then Sent else WriteFailed), batches + [batch])
  {
    var outcome := if batch.ok then Sent else WriteFailed;
    AnswersFacts(handles, outcome);
    var more, all := Answers(handles, outcome), batches + [batch];
    assert all[|batches|] == batch;
    forall i | 0 <= i < |more| ensures AnswerInv(more[i], all) {
      assert InBatch(all, more[i].handle, batch.ok);
    }
    AnswersKept(answers, batches, more, [batch]);
  }

  lemma BufferGrows(phase: Phase, buffer: seq<Payload>, pending: seq<nat>, open: seq<Item>, payload: Payload,
      handle: nat)
    requires BufferInv(phase, buffer, pending, open) && phase != Flushing
    requires buffer != [] ==> SameKind(buffer[0], payload)
    ensures BufferInv(Draining, buffer + [payload], pending + [handle], open + [Item(payload, handle)])
  {
    PayloadsAppend(open, [Item(payload, handle)]);
    assert [Item(payload, handle)][1..] == [];
    assert Payloads([Item(payload, handle)]) == [payload];
    assert ItemHandles([Item(payload, handle)]) == [handle];
  }

  /** Pushing a send taken from the channel, from the blocking `recv` or in the drain. */
  lemma PushKeeps(s: State)
    requires Inv(s) && s.inbox != [] && s.inbox[0].Send? && (s.phase == Waiting || s.phase == Draining)
    ensures Inv(Pushed(Rest(s), s.inbox[0].payload, s.inbox[0].handle).(phase := Draining))
    ensures |Pushed(Rest(s), s.inbox[0].payload, s.inbox[0].handle).buffer| > |s.buffer| || s.phase == Draining
  {
    hide BufferInv, Conserved, AnswersInv, FrameInv;
    var c := s.inbox[0];
    FirstConserved(|s.submitted|, s.inbox, s.pending, s.answers);
    if s.buffer != [] && !SameKind(s.buffer[0], c.payload) {
      AnswerAdded(s.answers, s.batches, c.handle, MixedKinds);
      assert s.phase == Draining by { EmptyWhenWaiting(s.phase, s.buffer, s.pending, s.open); }
    } else {
      BufferGrows(s.phase, s.buffer, s.pending, s.open, c.payload, c.handle);
    }
  }

  lemma EmptyWhenWaiting(phase: Phase, buffer: seq<Payload>, pending: seq<nat>, open: seq<Item>)
    requires BufferInv(phase, buffer, pending, open)
    ensures phase == Waiting || phase == Gone ==> buffer == [] && pending == [] && open == []
    ensures phase == Draining || phase == Flushing ==> buffer != [] && open != []
    ensures pending == ItemHandles(open) || pending == []
  {
    PayloadsLength(open);
  }

  lemma ExitKeeps(s: State)
    requires Inv(s) && s.phase == Waiting
    ensures Inv(Exited(s))
  {
    hide Conserved, AnswersInv, FrameInv;
    AnswersConserve(|s.submitted|, s.inbox, s.pending, s.answers, Stopped);
    AnswersAdded(s.answers, s.batches, s.pending, Stopped);
    var t := Responded(s, Stopped);
    DroppedConserve(|t.submitted|, t.inbox, t.pending, t.answers, Dropped);
    AnswersAdded(t.answers, t.batches, Handles(t.inbox), Dropped);
  }

  lemma ReceiveKeeps(s: State)
    requires Inv(s) && Enabled(s, Receive)
    ensures Inv(Next(s, Receive))
  {
    hide BufferInv, Conserved, AnswersInv, FrameInv, Pushed;
    if s.inbox == [] {
      ExitKeeps(s);
    } else if s.inbox[0].Shutdown? {
      FirstConserved(|s.submitted|, s.inbox, s.pending, s.answers);
      ExitKeeps(Rest(s));
    } else {
      PushKeeps(s);
    }
  }

  lemma TakeKeeps(s: State)
    requires Inv(s) && Enabled(s, Take)
    ensures Inv(Next(s, Take))
  {
    hide Conserved, AnswersInv, FrameInv, Homogeneous;
    if s.inbox[0].Shutdown? {
      FirstConserved(|s.submitted|, s.inbox, s.pending, s.answers);
      AnswersConserve(|s.submitted|, s.inbox[1..], s.pending, s.answers, Stopped);
      AnswersAdded(s.answers, s.batches, s.pending, Stopped);
    } else {
      PushKeeps(s);
    }
  }

  lemma FlushKeeps(s: State, ok: bool)
    requires Inv(s) && Enabled(s, Flush(ok))
    ensures Inv(Next(s, Flush(ok)))
  {
    hide Conserved, AnswersInv, Homogeneous;
    PayloadsLength(s.open);
    AnswersConserve(|s.submitted|, s.inbox, s.pending, s.answers, if ok then Sent else WriteFailed);
    WriteAnswered(s.answers, s.batches, Batch(s.open, ok), s.pending);
    assert Homogeneous([]) by { NothingIsHomogeneous(); }
  }

  lemma NothingIsHomogeneous()
    ensures Homogeneous([])
  {
  }

  lemma SubmitKeeps(s: State, payload: Payload)
    requires Inv(s)
    ensures Inv(Arrived(s, payload))
  {
    hide BufferInv, Conserved, AnswersInv, FrameInv;
    SubmitConserves(|s.submitted|, s.inbox, s.pending, s.answers, payload);
    AnswerAdded(s.answers, s.batches, |s.submitted|, Closed);
  }

  lemma NextKeeps(s: State, step: Step)
    requires Inv(s) && Enabled(s, step)
    ensures Inv(Next(s, step))
  {
    match step
    case Submit(payload) => SubmitKeeps(s, payload);
    case RequestStop => StopConserves(|s.submitted|, s.inbox, s.pending, s.answers);
    case Close =>
    case Receive => ReceiveKeeps(s);
    case Take => TakeKeeps(s);
    case DrainEnds =>
    case Flush(ok) => FlushKeeps(s, ok);
  }

  lemma {:induction false} RunKeeps(s: State, steps: seq<Step>)
    requires Inv(s)
    ensures Inv(Exec(s, steps))
    decreases |steps|
  {
    hide Inv, Next;
    if steps != [] {
      if Enabled(s, steps[0]) {
        NextKeeps(s, steps[0]);
        RunKeeps(Next(s, steps[0]), steps[1..]);
      } else {
        RunKeeps(s, steps[1..]);
      }
    }
  }

  lemma Reachable(steps: seq<Step>)
    ensures Inv(Exec(Initial, steps))
  {
    assert Inv(Initial);
    RunKeeps(Initial, steps);
  }
}
