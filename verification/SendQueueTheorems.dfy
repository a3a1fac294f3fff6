/** What the send queue promises its callers and the receiver, over every run. */
module SendQueueTheorems {
  import opened Basics
  import opened SendQueue
  import opened SendQueueOrder
  import BinaryFraming
  import TextFraming

  // ---- answers ------------------------------------------------------------------------------

  /** How often a caller has been answered. */
  function Times(answers: seq<Answer>, handle: nat): nat
  {
    multiset(Answered(answers))[handle]
  }

  lemma {:induction false} UptoOnce(n: nat, h: nat)
    ensures multiset(Upto(n))[h] == if h < n then 1 else 0
  {
    if n > 0 {
      UptoOnce(n - 1, h);
    }
  }

  lemma ConservedTimes(n: nat, inbox: seq<Command>, pending: seq<nat>, answers: seq<Answer>, h: nat)
    requires Conserved(n, inbox, pending, answers)
    ensures (if h < n then 1 else 0) == multiset(Handles(inbox))[h] + multiset(pending)[h] + Times(answers, h)
  {
    UptoOnce(n, h);
    hide Upto, Handles, Answered;
  }

  /** In every reachable state: a blocked worker holds nothing back; the buffer has one kind of
      payload; no caller is answered twice; a caller whose send has left the channel of a
      blocked worker has been answered; success means the payload is in a frame the transport
      took, and a write error that it is in one the transport refused. */
  lemma ResponseSafety(steps: seq<Step>)
    ensures var s := Exec(Initial, steps);
            && (s.phase == Waiting || s.phase == Gone ==> s.buffer == [] && s.pending == [])
            && Homogeneous(s.buffer)
            && (forall h: nat :: Times(s.answers, h) <= 1)
            && (forall h: nat | h < |s.submitted| && (s.phase == Waiting || s.phase == Gone) ::
                  Times(s.answers, h) == 1 <==> h !in Handles(s.inbox))
            && (forall i | 0 <= i < |s.answers| :: s.answers[i].handle < |s.submitted|
                  && AnswerInv(s.answers[i], s.batches))
  {
    hide Conserved, AnswerInv, FrameInv, Homogeneous, Exec, Handles, Times;
    Reachable(steps);
    var s := Exec(Initial, steps);
    EmptyWhenWaiting(s.phase, s.buffer, s.pending, s.open);
    AnsweredIsSubmitted(s);
    forall h: nat ensures Times(s.answers, h) <= 1 {
      ConservedTimes(|s.submitted|, s.inbox, s.pending, s.answers, h);
    }
    forall h: nat | h < |s.submitted| && (s.phase == Waiting || s.phase == Gone)
      ensures Times(s.answers, h) == 1 <==> h !in Handles(s.inbox)
    {
      ConservedTimes(|s.submitted|, s.inbox, s.pending, s.answers, h);
      assert h in Handles(s.inbox) <==> h in multiset(Handles(s.inbox));
    }
  }

  // ---- the receiver -------------------------------------------------------------------------

  function TextMessages(messages: seq<string>): seq<Payload>
  {
    if messages == [] then [] else [Text(messages[0])] + TextMessages(messages[1..])
  }

  function BinaryMessages(messages: seq<Bytes>): seq<Payload>
  {
    if messages == [] then [] else [Binary(messages[0])] + BinaryMessages(messages[1..])
  }

  /** The messages the receiver finds in one frame. */
  function Read(p: Payload): Option<seq<Payload>>
  {
    match p
    case Text(text) =>
      var r := TextFraming.Parse(text);
      if r.Ok? then Some(TextMessages(r.value)) else None
    case Binary(bytes) =>
      var r := BinaryFraming.Parsed(bytes);
      if r.Ok? then Some(BinaryMessages(r.value)) else None
  }

  function ReadAll(payloads: seq<Payload>): seq<Payload>
  {
    if payloads == [] then []
    else (if Read(payloads[0]).Some? then Read(payloads[0]).value else []) + ReadAll(payloads[1..])
  }

  predicate Readable(payloads: seq<Payload>)
  {
    forall i | 0 <= i < |payloads| :: Read(payloads[i]).Some?
  }

  lemma {:induction false} MessagesAppend(a: seq<string>, b: seq<string>, c: seq<Bytes>, d: seq<Bytes>)
    ensures TextMessages(a + b) == TextMessages(a) + TextMessages(b)
    ensures BinaryMessages(c + d) == BinaryMessages(c) + BinaryMessages(d)
    decreases |a| + |c|
  {
    if a == [] && c == [] {
      assert a + b == b && c + d == d;
    } else if a == [] {
      assert a + b == b && (c + d)[1..] == c[1..] + d;
      MessagesAppend(a, b, c[1..], d);
    } else {
      assert (a + b)[1..] == a[1..] + b;
      MessagesAppend(a[1..], b, c, d);
    }
  }

  lemma ReadConcatenation(a: Payload, b: Payload)
    requires Read(a).Some? && Read(b).Some? && SameKind(a, b)
    ensures a.Text? ==> Read(Text(a.text + b.text)) == Some(Read(a).value + Read(b).value)
    ensures a.Binary? ==> Read(Binary(a.bytes + b.bytes)) == Some(Read(a).value + Read(b).value)
  {
    hide TextFraming.Parse, BinaryFraming.Parsed, TextMessages, BinaryMessages;
    if a.Text? {
      TextFraming.ParseConcatenation(a.text, b.text);
      MessagesAppend(TextFraming.Parse(a.text).value, TextFraming.Parse(b.text).value, [], []);
    } else {
      BinaryFraming.ParseConcatenation(a.bytes, b.bytes);
      MessagesAppend([], [], BinaryFraming.Parsed(a.bytes).value, BinaryFraming.Parsed(b.bytes).value);
    }
  }

  /** A batch in one frame reads as its payloads read one by one. */
  lemma {:induction false} ReadJoined(payloads: seq<Payload>)
    requires payloads != [] && Homogeneous(payloads) && Readable(payloads)
    ensures Read(Joined(payloads)) == Some(ReadAll(payloads))
  {
    hide Read;
    var rest := payloads[1..];
    if rest == [] {
      assert Texts(rest) == [] && Binaries(rest) == [] && ReadAll(rest) == [];
      assert Joined(payloads) == payloads[0];
      assert Read(payloads[0]).Some? && ReadAll(payloads) == Read(payloads[0]).value + ReadAll(rest);
      assert ReadAll(payloads) == Read(payloads[0]).value;
    } else {
      assert SameKind(payloads[0], payloads[1]);
      ReadJoined(rest);
      ReadConcatenation(payloads[0], Joined(rest));
      assert Joined(payloads) == if payloads[0].Text? then Text(payloads[0].text + Texts(rest))
                                 else Binary(payloads[0].bytes + Binaries(rest));
    }
  }

  lemma {:induction false} ReadAllAppend(a: seq<Payload>, b: seq<Payload>)
    ensures ReadAll(a + b) == ReadAll(a) + ReadAll(b)
  {
    hide Read;
    if a == [] {
      assert a + b == b;
    } else {
      assert (a + b)[1..] == a[1..] + b;
      ReadAllAppend(a[1..], b);
    }
  }

  lemma ReadLast(p: Payload)
    requires Read(p).Some?
    ensures ReadAll([p]) == Read(p).value
  {
    hide Read;
    var none: seq<Payload> := [p][1..];
    assert none == [] && ReadAll(none) == [];
  }

  lemma {:induction false} ReadFrames(frames: seq<Written>, batches: seq<Batch>)
    requires FrameInv(frames, batches) && Readable(Payloads(Flat(batches)))
    ensures ReadAll(FramePayloads(frames)) == ReadAll(Payloads(Flat(batches)))
    ensures forall i | 0 <= i < |frames| :: Read(frames[i].payload) == Some(ReadAll(Payloads(batches[i].items)))
    decreases |frames|
  {
    hide Read, Joined, Homogeneous;
    if frames != [] {
      var k := |frames| - 1;
      var items, before := Payloads(batches[k].items), Payloads(Flat(batches[..k]));
      assert BatchInv(batches[k], frames[k]);
      PayloadsAppend(Flat(batches[..k]), batches[k].items);
      assert Payloads(Flat(batches)) == before + items;
      ReadableParts(before, items);
      ReadFrames(frames[..k], batches[..k]);
      ReadJoined(items);
      ReadAllAppend(before, items);
      var last := [frames[k].payload];
      ReadAllAppend(FramePayloads(frames[..k]), last);
      ReadLast(frames[k].payload);
      hide ReadAll, Payloads, Flat;
      assert forall i | 0 <= i < k :: frames[i] == frames[..k][i] && batches[i] == batches[..k][i];
    }
  }

  lemma ReadableParts(a: seq<Payload>, b: seq<Payload>)
    requires Readable(a + b)
    ensures Readable(a) && Readable(b)
  {
    hide Read;
    assert forall i | 0 <= i < |a| :: (a + b)[i] == a[i];
    assert forall i | 0 <= i < |b| :: (a + b)[|a| + i] == b[i];
  }

  lemma {:induction false} ChosenReadable(submitted: seq<Payload>, handles: seq<nat>)
    requires Readable(submitted) && forall i | 0 <= i < |handles| :: handles[i] < |submitted|
    ensures Readable(Chosen(submitted, handles))
  {
    hide Read;
    if handles != [] {
      ChosenReadable(submitted, handles[1..]);
    }
  }

  /** For every arrival schedule: if each submitted payload is a complete message stream, the
      frames read one after the other give the messages of the payloads that were not turned
      away, sent one by one in order of submission; and each frame gives those of its batch. */
  lemma BatchingIsInvisible(steps: seq<Step>)
    ensures var s := Exec(Initial, steps);
            Readable(s.submitted) && s.inbox == [] && (s.phase == Waiting || s.phase == Gone) ==>
              && var kept := Kept(|s.submitted|, TurnedAway(s.answers));
              && (forall i | 0 <= i < |kept| :: kept[i] < |s.submitted|)
              && ReadAll(FramePayloads(s.frames)) == ReadAll(Chosen(s.submitted, kept))
              && |s.frames| == |s.batches|
              && forall i | 0 <= i < |s.frames| ::
                   Read(s.frames[i].payload) == Some(ReadAll(Payloads(s.batches[i].items)))
  {
    hide Conserved, AnswersInv, Kept, TurnedAway, Read, Exec;
    Reachable(steps);
    InitialOrder();
    RunOrder(Initial, steps);
    var s := Exec(Initial, steps);
    if Readable(s.submitted) && s.inbox == [] && (s.phase == Waiting || s.phase == Gone) {
      HonestChosen(Flat(s.batches), s.submitted);
      assert ItemHandles(Flat(s.batches)) + [] + [] == ItemHandles(Flat(s.batches));
      ChosenReadable(s.submitted, ItemHandles(Flat(s.batches)));
      ReadFrames(s.frames, s.batches);
    }
  }

  // ---- progress -----------------------------------------------------------------------------

  predicate WorkerStep(step: Step)
  {
    step.Receive? || step.Take? || step.DrainEnds? || step.Flush?
  }

  /** The worker is gone, or blocked on an empty channel that can still get commands. */
  predicate Settled(s: State)
  {
    s.phase == Gone || (s.phase == Waiting && s.inbox == [] && !s.closed)
  }

  function Rank(s: State): nat
  {
    3 * |s.inbox| + match s.phase case Gone => 0 case Waiting => 1 case Flushing => 2 case Draining => 3
  }

  /** Unless it is settled the worker can move, and every move brings it closer; a settled worker
      cannot move. */
  lemma WorkerProgress(s: State, step: Step)
    requires Inv(s) && WorkerStep(step)
    ensures Enabled(s, step) ==> Rank(Next(s, step)) < Rank(s)
    ensures Settled(s) ==> !Enabled(s, step)
    ensures !Settled(s) ==> Enabled(s, Receive) || Enabled(s, Take) || Enabled(s, DrainEnds) || Enabled(s, Flush(true))
  {
    hide Conserved, AnswersInv, FrameInv;
    EmptyWhenWaiting(s.phase, s.buffer, s.pending, s.open);
  }

  /** Steps of the worker alone, each possible where it is taken. */
  predicate WorkerRun(s: State, steps: seq<Step>)
    decreases |steps|
  {
    steps == [] || (WorkerStep(steps[0]) && Enabled(s, steps[0]) && WorkerRun(Next(s, steps[0]), steps[1..]))
  }

  /** Without further commands every run of the worker ends, whatever becomes of its writes. */
  lemma {:induction false} WorkerRunsEnd(s: State, steps: seq<Step>)
    requires Inv(s) && WorkerRun(s, steps)
    ensures |steps| + Rank(Exec(s, steps)) <= Rank(s) && Inv(Exec(s, steps))
    decreases |steps|
  {
    hide Inv, Next, Rank, Enabled;
    if steps != [] {
      WorkerProgress(s, steps[0]);
      NextKeeps(s, steps[0]);
      WorkerRunsEnd(Next(s, steps[0]), steps[1..]);
    }
  }

  /** Once the worker is settled every caller has been answered exactly once. */
  lemma SettledMeansAnswered(steps: seq<Step>)
    requires Settled(Exec(Initial, steps))
    ensures var s := Exec(Initial, steps);
            forall h: nat | h < |s.submitted| :: Times(s.answers, h) == 1
  {
    hide Times, Exec, BufferInv, FrameInv, Conserved, AnswersInv;
    ResponseSafety(steps);
    Reachable(steps);
    var s := Exec(Initial, steps);
    assert Handles(s.inbox) == [];
  }

  // ---- callers that nobody disturbs ---------------------------------------------------------

  /** Payloads of one kind, and nobody stops the queue or leaves it. */
  predicate Undisturbed(step: Step, text: bool)
  {
    match step
    case Submit(payload) => payload.Text? == text
    case RequestStop => false
    case Close => false
    case _ => true
  }

  predicate Served(outcome: Outcome, faultless: bool)
  {
    outcome == Sent || (outcome == WriteFailed && !faultless)
  }

  predicate Peace(s: State, text: bool, faultless: bool)
  {
    && !s.closed && s.phase != Gone
    && (forall i | 0 <= i < |s.inbox| :: s.inbox[i].Send? && s.inbox[i].payload.Text? == text)
    && (forall i | 0 <= i < |s.buffer| :: s.buffer[i].Text? == text)
    && (forall i | 0 <= i < |s.answers| :: Served(s.answers[i].outcome, faultless))
  }

  lemma {:induction false} AnswersOutcome(handles: seq<nat>, outcome: Outcome)
    ensures forall i | 0 <= i < |Answers(handles, outcome)| :: Answers(handles, outcome)[i].outcome == outcome
  {
    if handles != [] {
      AnswersOutcome(handles[1..], outcome);
    }
  }

  lemma PeaceStep(s: State, step: Step, text: bool, faultless: bool)
    requires Peace(s, text, faultless) && Enabled(s, step) && Undisturbed(step, text)
    requires faultless ==> step != Flush(false)
    ensures Peace(Next(s, step), text, faultless)
  {
    AnswersOutcome(s.pending, Sent);
    AnswersOutcome(s.pending, WriteFailed);
    hide Joined, Answers;
  }

  lemma {:induction false} PeaceRun(s: State, steps: seq<Step>, text: bool, faultless: bool)
    requires Peace(s, text, faultless) && forall i | 0 <= i < |steps| :: Undisturbed(steps[i], text)
    requires faultless ==> forall i | 0 <= i < |steps| :: steps[i] != Flush(false)
    ensures Peace(Exec(s, steps), text, faultless)
    decreases |steps|
  {
    hide Peace, Next, Undisturbed, Enabled;
    if steps != [] {
      assert forall i | 0 <= i < |steps[1..]| :: steps[1..][i] == steps[i + 1];
      if Enabled(s, steps[0]) {
        PeaceStep(s, steps[0], text, faultless);
        PeaceRun(Next(s, steps[0]), steps[1..], text, faultless);
      } else {
        PeaceRun(s, steps[1..], text, faultless);
      }
    }
  }

  /** As long as payloads are of one kind and nobody stops or closes the queue, no caller is turned away
      or dropped: each is told of success, or of a write that failed, if one did; and once the
      worker is blocked on an empty channel each has been told exactly once. */
  lemma UndisturbedCallersAreServed(steps: seq<Step>, text: bool)
    requires forall i | 0 <= i < |steps| :: Undisturbed(steps[i], text)
    ensures var s := Exec(Initial, steps);
            var faultless := forall i | 0 <= i < |steps| :: steps[i] != Flush(false);
            && s.phase != Gone
            && (forall i | 0 <= i < |s.answers| :: Served(s.answers[i].outcome, faultless))
            && (s.phase == Waiting && s.inbox == [] ==>
                  forall h: nat | h < |s.submitted| :: Times(s.answers, h) == 1)
  {
    hide Exec, Times, Undisturbed;
    var faultless := forall i | 0 <= i < |steps| :: steps[i] != Flush(false);
    PeaceRun(Initial, steps, text, faultless);
    var s := Exec(Initial, steps);
    if s.phase == Waiting && s.inbox == [] {
      SettledMeansAnswered(steps);
    }
  }

  // ---- stopping -----------------------------------------------------------------------------

  predicate AllSends(commands: seq<Command>)
  {
    forall i | 0 <= i < |commands| :: commands[i].Send?
  }

  /** No further request to stop, and no closing. */
  predicate Quiet(steps: seq<Step>)
  {
    forall i | 0 <= i < |steps| :: !steps[i].RequestStop? && !steps[i].Close?
  }

  /** The shutdown is next for the blocking `recv`, or was taken by it. */
  predicate WillStop(s: State)
  {
    && !s.closed
    && (s.phase == Gone || (s.phase != Draining && s.inbox != [] && s.inbox[0].Shutdown?))
  }

  /** The drain will meet the shutdown, or there is none any more. */
  ghost predicate WillGoOn(s: State)
  {
    && !s.closed && s.phase != Gone
    && (AllSends(s.inbox) || exists k :: DrainMeets(s, k))
  }

  predicate DrainMeets(s: State, k: int)
  {
    && 0 <= k < |s.inbox| && s.inbox[k].Shutdown?
    && AllSends(s.inbox[..k]) && AllSends(s.inbox[k + 1..])
    && (s.phase == Draining || k > 0)
  }

  lemma WillStopStays(s: State, step: Step)
    requires WillStop(s) && Enabled(s, step) && !step.RequestStop? && !step.Close?
    ensures WillStop(Next(s, step))
  {
  }

  lemma PushedInbox(s: State, payload: Payload, handle: nat)
    ensures var t := Pushed(s, payload, handle);
            t.inbox == s.inbox && t.phase == s.phase && t.closed == s.closed && |t.buffer| >= |s.buffer|
    ensures s.buffer == [] ==> |Pushed(s, payload, handle).buffer| == 1
  {
  }

  lemma SendsOnlyGoOn(s: State, step: Step)
    requires Inv(s) && !s.closed && s.phase != Gone && AllSends(s.inbox)
    requires Enabled(s, step) && !step.RequestStop? && !step.Close?
    ensures WillGoOn(Next(s, step)) && AllSends(Next(s, step).inbox)
  {
    hide BufferInv, Conserved, AnswersInv, FrameInv, Pushed;
    if s.inbox != [] {
      assert s.inbox[0].Send?;
      PushedInbox(Rest(s), s.inbox[0].payload, s.inbox[0].handle);
      assert AllSends(s.inbox[1..]);
    }
  }

  lemma DrainMeetsLater(s: State, k: int)
    requires DrainMeets(s, k) && k > 0
    ensures s.inbox[0].Send? && DrainMeets(Rest(s).(phase := Draining), k - 1)
  {
    var rest := s.inbox[1..];
    assert s.inbox[..k][0].Send?;
    assert rest[..k - 1] == s.inbox[..k][1..] && rest[k..] == s.inbox[k + 1..];
  }

  lemma DrainMeetsMore(s: State, k: int, payload: Payload)
    requires DrainMeets(s, k) && s.phase != Gone
    ensures DrainMeets(Arrived(s, payload), k)
  {
    var t := Arrived(s, payload);
    assert t.inbox[..k] == s.inbox[..k];
    assert t.inbox[k + 1..] == s.inbox[k + 1..] + [Send(payload, |s.submitted|)];
  }

  lemma DrainMeetsStays(s: State, k: int, step: Step)
    requires Inv(s) && !s.closed && s.phase != Gone && DrainMeets(s, k)
    requires Enabled(s, step) && !step.RequestStop? && !step.Close?
    ensures WillGoOn(Next(s, step))
  {
    hide Conserved, AnswersInv, FrameInv, Pushed, Arrived;
    var t := Next(s, step);
    match step
    case Submit(payload) =>
      DrainMeetsMore(s, k, payload);
      assert t.phase == s.phase && !t.closed by { ArrivedPhase(s, payload); }
      assert DrainMeets(t, k);
    case Receive =>
      DrainMeetsLater(s, k);
      EmptyWhenWaiting(s.phase, s.buffer, s.pending, s.open);
      PushedInbox(Rest(s), s.inbox[0].payload, s.inbox[0].handle);
      SameMeeting(Rest(s).(phase := Draining), t, k - 1);
    case Take =>
      if k > 0 {
        DrainMeetsLater(s, k);
        PushedInbox(Rest(s), s.inbox[0].payload, s.inbox[0].handle);
        SameMeeting(Rest(s).(phase := Draining), t, k - 1);
      }
    case Flush(_) => SameMeeting(s, t, k);
  }

  lemma ArrivedPhase(s: State, payload: Payload)
    ensures Arrived(s, payload).phase == s.phase && Arrived(s, payload).closed == s.closed
  {
  }

  lemma SameMeeting(s: State, t: State, k: int)
    requires DrainMeets(s, k) && t.inbox == s.inbox && (t.phase == Draining || k > 0)
    ensures DrainMeets(t, k)
  {
  }

  lemma {:induction false} FateStays(s: State, steps: seq<Step>)
    requires Inv(s) && Quiet(steps)
    ensures WillStop(s) ==> WillStop(Exec(s, steps))
    ensures WillGoOn(s) ==> WillGoOn(Exec(s, steps))
    decreases |steps|
  {
    hide Inv, Next, Enabled, WillStop, DrainMeets, AllSends;
    if steps != [] {
      var step := steps[0];
      assert Quiet(steps[1..]);
      if Enabled(s, step) {
        NextKeeps(s, step);
        if WillStop(s) {
          WillStopStays(s, step);
        }
        if WillGoOn(s) {
          if AllSends(s.inbox) {
            SendsOnlyGoOn(s, step);
          } else {
            var k :| DrainMeets(s, k);
            DrainMeetsStays(s, k, step);
          }
        }
        FateStays(Next(s, step), steps[1..]);
      } else {
        FateStays(s, steps[1..]);
      }
    }
  }

  /** A request to stop ends the worker if and only if, when it is made, the worker is not in
      its drain and nothing is queued. Otherwise the drain takes it: the sends taken so far are
      failed, the loop goes on, and whoever waits for the worker waits for ever. */
  lemma StopEndsTheWorkerIff(s: State, steps: seq<Step>)
    requires Inv(s) && s.phase != Gone && !s.closed && AllSends(s.inbox) && Quiet(steps)
    ensures var t := Exec(Next(s, RequestStop), steps);
            Settled(t) ==> (t.phase == Gone <==> s.phase != Draining && s.inbox == [])
  {
    hide BufferInv, Conserved, AnswersInv, FrameInv, Exec;
    var r := Next(s, RequestStop);
    NextKeeps(s, RequestStop);
    FateStays(r, steps);
    if s.phase != Draining && s.inbox == [] {
      assert WillStop(r);
    } else {
      var k := |s.inbox|;
      assert r.inbox[..k] == s.inbox && r.inbox[k + 1..] == [];
      assert DrainMeets(r, k);
    }
  }

  /** A run in which `stop` is never answered by the worker's end, and in which the caller is told
      that its send failed although the frame was written. */
  lemma StopCanHang(payload: Payload)
    ensures var steps := [Submit(payload), Receive, RequestStop, Take, Flush(true)];
            var s := Exec(Initial, steps);
            && Settled(s) && s.phase == Waiting && s.swallowed == 1
            && s.answers == [Answer(0, Stopped)] && s.frames == [Written(Joined([payload]), true)]
  {
    var one: seq<Command> := [Send(payload, 0)];
    var s1 := Next(Initial, Submit(payload));
    assert s1.inbox == one && one[1..] == [];
    var s2 := Next(s1, Receive);
    assert s2.pending == [0] && s2.buffer == [payload] && s2.inbox == [];
    var s3 := Next(s2, RequestStop);
    var two: seq<Command> := [Shutdown];
    assert s3.inbox == two && two[1..] == [];
    var s4 := Next(s3, Take);
    var none: seq<nat> := s3.pending[1..];
    assert none == [] && Answers(none, Stopped) == [];
    assert s4.answers == [Answer(0, Stopped)];
    var s5 := Next(s4, Flush(true));
    ExecFive(Initial, Submit(payload), Receive, RequestStop, Take, Flush(true));
  }

  lemma ExecFive(s: State, a: Step, b: Step, c: Step, d: Step, e: Step)
    ensures Exec(s, [a, b, c, d, e])
            == One(One(One(One(One(s, a), b), c), d), e)
  {
    hide One, Exec;
    var steps := [a, b, c, d, e];
    assert steps == [a] + [b, c, d, e];
    ExecFirst(s, a, [b, c, d, e]);
    assert [b, c, d, e] == [b] + [c, d, e] && [c, d, e] == [c] + [d, e];
    ExecFirst(One(s, a), b, [c, d, e]);
    ExecFirst(One(One(s, a), b), c, [d, e]);
    assert [d, e] == [d] + [e] && [e] == [e] + [];
    ExecFirst(One(One(One(s, a), b), c), d, [e]);
    ExecFirst(One(One(One(One(s, a), b), c), d), e, []);
    assert Exec(One(One(One(One(One(s, a), b), c), d), e), []) == One(One(One(One(One(s, a), b), c), d), e) by {
      ExecNothing(One(One(One(One(One(s, a), b), c), d), e));
    }
  }

  lemma ExecFirst(s: State, step: Step, rest: seq<Step>)
    ensures Exec(s, [step] + rest) == Exec(One(s, step), rest)
  {
    hide Next, Enabled;
    assert ([step] + rest)[1..] == rest;
  }

  lemma ExecNothing(s: State)
    ensures Exec(s, []) == s
  {
  }

  function One(s: State, step: Step): State
  {
    if Enabled(s, step) then Next(s, step) else s
  }
}
