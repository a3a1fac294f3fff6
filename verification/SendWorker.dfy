/**
 The worker loop of the send queue as it is written, over the commands that are in the channel
 while it runs. Every method is tied to the steps of `SendQueue`.
 */
module SendWorkers {
  import opened Basics
  import opened SendQueue

  /** The drain of a channel that nobody adds to meanwhile. */
  function Drained(s: State): State
    decreases |s.inbox|
  {
    if s.inbox == [] then s.(phase := Flushing)
    else if s.inbox[0].Shutdown? then Taken(s)
    else Drained(Pushed(Rest(s), s.inbox[0].payload, s.inbox[0].handle))
  }

  lemma DrainedStep(s: State)
    ensures s.inbox == [] ==> Drained(s) == s.(phase := Flushing)
    ensures s.inbox != [] && s.inbox[0].Shutdown? ==> Drained(s) == Taken(s)
    ensures s.inbox != [] && s.inbox[0].Send? ==>
              Drained(s) == Drained(Pushed(Rest(s), s.inbox[0].payload, s.inbox[0].handle))
  {
    hide Pushed, Taken;
  }

  /** The drain is a run of the worker's steps. */
  lemma {:induction false} DrainedIsARun(s: State) returns (steps: seq<Step>)
    requires s.phase == Draining
    ensures Exec(s, steps) == Drained(s)
    ensures forall i | 0 <= i < |steps| :: steps[i].Take? || steps[i].DrainEnds?
    decreases |s.inbox|
  {
    hide Pushed, Responded;
    if s.inbox == [] {
      steps := [DrainEnds];
      RunFirst(s, DrainEnds, []);
    } else {
      var next := Taken(s);
      var rest: seq<Step> := [];
      if s.inbox[0].Send? {
        PushedSame(Rest(s), s.inbox[0].payload, s.inbox[0].handle);
        rest := DrainedIsARun(next);
      }
      steps := [Take] + rest;
      RunFirst(s, Take, rest);
    }
  }

  lemma PushedSame(s: State, payload: Payload, handle: nat)
    ensures Pushed(s, payload, handle).inbox == s.inbox && Pushed(s, payload, handle).phase == s.phase
  {
  }

  lemma RunFirst(s: State, step: Step, rest: seq<Step>)
    requires Enabled(s, step)
    ensures Exec(s, [step] + rest) == Exec(Next(s, step), rest)
    ensures rest == [] ==> Exec(s, [step] + rest) == Next(s, step)
  {
    hide Next, Enabled;
    assert ([step] + rest)[1..] == rest;
  }

  /** One turn of the loop, with the channel as it is. */
  function Turned(s: State, ok: bool): State
    requires s.phase == Waiting || s.phase == Flushing
    requires s.phase == Waiting ==> s.inbox != [] || s.closed
  {
    if s.phase == Flushing then Flushed(s, ok)
    else
      var t := Received(s);
      if t.phase == Draining then Drained(t) else t
  }

  class SendWorker {
    var inbox: seq<Command>
    var closed: bool
    var running: bool
    var buffer: seq<Payload>
    var pending: seq<nat>
    var waitForData: bool
    var answers: seq<Answer>
    var frames: seq<Written>

    ghost var batches: seq<Batch>
    ghost var open: seq<Item>
    ghost var submitted: seq<Payload>
    ghost var swallowed: nat

    ghost function In(phase: Phase): State
      reads this
    {
      State(inbox, closed, phase, buffer, pending, answers, frames, batches, open, submitted, swallowed)
    }

    ghost function Current(): State
      reads this
    {
      In(if !running then Gone else if waitForData then Waiting else Flushing)
    }

    constructor ()
      ensures Current() == Initial
    {
      inbox, closed, running := [], false, true;
      buffer, pending, waitForData := [], [], true;
      answers, frames := [], [];
      batches, open, submitted, swallowed := [], [], [], 0;
    }

    /** Appends a payload unless its kind differs from what is already there. */
    method PushPayload(payload: Payload) returns (pushed: bool)
      modifies this`buffer
      ensures pushed == (old(buffer) == [] || SameKind(old(buffer)[0], payload))
      ensures buffer == if pushed then old(buffer) + [payload] else old(buffer)
    {
      if buffer != [] {
        var sameType := buffer[0].Text? == payload.Text?;
        if !sameType {
          return false;
        }
      }
      buffer := buffer + [payload];
      pushed := true;
    }

    /** A send from the channel joins the batch, or fails at once. */
    method Accept(payload: Payload, handle: nat) returns (pushed: bool)
      modifies this`buffer, this`pending, this`open, this`answers
      ensures In(Waiting) == Pushed(old(In(Waiting)), payload, handle)
      ensures In(Draining) == Pushed(old(In(Draining)), payload, handle)
      ensures pushed == (|buffer| != |old(buffer)|)
    {
      pushed := PushPayload(payload);
      if pushed {
        pending := pending + [handle];
        open := open + [Item(payload, handle)];
      } else {
        answers := answers + [Answer(handle, MixedKinds)];
      }
    }

    /** Answers every waiting caller. */
    method Respond(outcome: Outcome)
      modifies this`answers, this`pending
      ensures answers == old(answers) + Answers(old(pending), outcome) && pending == []
    {
      ghost var all := pending;
      assert answers + Answers(pending, outcome) == old(answers) + Answers(all, outcome);
      while pending != []
        invariant answers + Answers(pending, outcome) == old(answers) + Answers(all, outcome)
        decreases |pending|
      {
        assert answers + Answers(pending, outcome) == answers + [Answer(pending[0], outcome)] + Answers(pending[1..],
            outcome);
        answers := answers + [Answer(pending[0], outcome)];
        pending := pending[1..];
      }
      assert answers + [] == answers;
    }

    method DrainReadyCommands()
      modifies this`inbox, this`buffer, this`pending, this`answers, this`open, this`swallowed
      ensures In(Flushing) == Drained(old(In(Draining)))
    {
      hide Answers, Drained, Pushed;
      DrainedStep(In(Draining));
      while inbox != []
        invariant Drained(In(Draining)) == Drained(old(In(Draining)))
        decreases |inbox|
      {
        DrainedStep(In(Draining));
        var command := inbox[0];
        inbox := inbox[1..];
        if command.Shutdown? {
          swallowed := swallowed + 1;
          Respond(Stopped);
          return;
        }
        var _ := Accept(command.payload, command.handle);
      }
      DrainedStep(In(Draining));
    }

    /** Joins the buffered payloads into one frame and hands it to the transport, which takes it
        or not. The buffer holds one kind of payload, so that neither join meets the other. */
    method FlushBuffer(ok: bool) returns (sent: bool)
      requires Homogeneous(buffer)
      modifies this`buffer, this`frames, this`batches, this`open
      ensures sent == (ok || old(buffer) == [])
      ensures buffer == []
      ensures old(buffer) == [] ==> frames == old(frames) && batches == old(batches) && open == old(open)
      ensures old(buffer) != [] ==>
                && frames == old(frames) + [Written(Joined(old(buffer)), ok)]
                && batches == old(batches) + [Batch(old(open), ok)] && open == []
    {
      if buffer == [] {
        return true;
      }
      hide Texts, Binaries;
      var first := buffer[0];
      var text: string, bytes: Bytes := [], [];
      var entries := buffer;
      assert entries[0..] == entries;
      JoinStep(entries, text, bytes);
      for i := 0 to |entries|
        invariant first.Text? ==> text + Texts(entries[i..]) == Texts(entries)
        invariant first.Binary? ==> bytes + Binaries(entries[i..]) == Binaries(entries)
        invariant frames == old(frames) && batches == old(batches) && open == old(open)
      {
        assert SameKind(entries[0], entries[i]);
        JoinStep(entries[i..], text, bytes);
        assert entries[i..][1..] == entries[i + 1..];
        if first.Text? {
          text := text + entries[i].text;
        } else {
          bytes := bytes + entries[i].bytes;
        }
      }
      assert entries[|entries|..] == [];
      JoinStep(entries[|entries|..], text, bytes);
      assert (if first.Text? then Text(text) else Binary(bytes)) == Joined(entries);
      buffer := [];
      frames := frames + [Written(if first.Text? then Text(text) else Binary(bytes), ok)];
      batches := batches + [Batch(open, ok)];
      open := [];
      sent := ok;
    }

    /** The worker returns: its receiver is dropped with whatever is in the channel. */
    method Exit()
      modifies this`inbox, this`answers, this`pending, this`running
      ensures !running && In(Gone) == Exited(old(In(Waiting)))
    {
      hide Answers, Handles;
      Respond(Stopped);
      answers := answers + Answers(Handles(inbox), Dropped);
      inbox := [];
      running := false;
    }

    /** What the loop does when it waits for data and `recv` returns. */
    method Await()
      requires running && waitForData && (inbox != [] || closed)
      modifies this
      ensures Current() == Turned(old(Current()), true)
    {
      hide Answers, Drained, Exited, Pushed;
      ghost var s := Current();
      if inbox == [] {
        Exit();
        return;
      }
      var command := inbox[0];
      inbox := inbox[1..];
      if command.Shutdown? {
        Exit();
        return;
      }
      var pushed := Accept(command.payload, command.handle);
      if !pushed {
        return;
      }
      assert In(Draining) == Received(s);
      DrainReadyCommands();
      waitForData := false;
    }

    /** One turn of the worker's loop, which is a run of the worker's steps. */
    method Turn(ok: bool) returns (ghost steps: seq<Step>)
      requires running && Inv(Current())
      requires waitForData ==> inbox != [] || closed
      modifies this
      ensures Current() == Turned(old(Current()), ok)
      ensures Current() == Exec(old(Current()), steps) && WorkerSteps(steps)
      ensures Inv(Current())
    {
      hide Inv, Answers, Joined, Homogeneous, Received, Drained, Exec;
      ghost var s := Current();
      steps := TurnedIsARun(s, ok);
      RunKeeps(s, steps);
      if waitForData {
        Await();
      } else {
        InvHomogeneous(s);
        var sent := FlushBuffer(ok);
        Respond(if sent then Sent else WriteFailed);
        waitForData := true;
      }
    }
  }

  /** One more entry joined. */
  lemma JoinStep(entries: seq<Payload>, text: string, bytes: Bytes)
    ensures entries == [] ==> text + Texts(entries) == text && bytes + Binaries(entries) == bytes
    ensures [] + Texts(entries) == Texts(entries) && [] + Binaries(entries) == Binaries(entries)
    ensures entries != [] && entries[0].Text? ==>
              text + Texts(entries) == text + entries[0].text + Texts(entries[1..])
    ensures entries != [] && entries[0].Binary? ==>
              bytes + Binaries(entries) == bytes + entries[0].bytes + Binaries(entries[1..])
  {
    JoinFirst(entries);
    hide Texts, Binaries;
    if entries != [] {
      if entries[0].Text? {
        Associative(text, entries[0].text, Texts(entries[1..]));
      } else {
        Associative(bytes, entries[0].bytes, Binaries(entries[1..]));
      }
    }
  }

  lemma JoinFirst(entries: seq<Payload>)
    ensures entries == [] ==> Texts(entries) == [] && Binaries(entries) == []
    ensures entries != [] && entries[0].Text? ==> Texts(entries) == entries[0].text + Texts(entries[1..])
    ensures entries != [] && entries[0].Binary? ==> Binaries(entries) == entries[0].bytes + Binaries(entries[1..])
  {
  }

  lemma InvHomogeneous(s: State)
    requires Inv(s)
    ensures Homogeneous(s.buffer)
  {
  }

  /** Steps of the worker, not of its callers. */
  predicate WorkerSteps(steps: seq<Step>)
  {
    forall i | 0 <= i < |steps| :: steps[i].Receive? || steps[i].Take? || steps[i].DrainEnds? || steps[i].Flush?
  }

  /** A turn of the loop is a flush, or a receive and the drain after it. */
  lemma TurnedIsARun(s: State, ok: bool) returns (steps: seq<Step>)
    requires s.phase == Waiting || s.phase == Flushing
    requires s.phase == Waiting ==> s.inbox != [] || s.closed
    ensures Exec(s, steps) == Turned(s, ok) && WorkerSteps(steps)
  {
    hide Flushed, Received, Exec, Drained;
    if s.phase == Flushing {
      steps := [Flush(ok)] + [];
      RunFirst(s, Flush(ok), []);
    } else {
      var t := Received(s);
      var rest: seq<Step> := [];
      if t.phase == Draining {
        rest := DrainedIsARun(t);
      }
      steps := [Receive] + rest;
      RunFirst(s, Receive, rest);
    }
  }
}
