/**
 The stateful-reconnect buffer as the object that is updated in place. Every method is proved
 to do to the fields exactly what `BufferModel` says, so the theorems about the two-party
 protocol are theorems about these methods.
 */
module MessageBuffers {
  import opened Basics
  import opened BufferModel
  import HubMessage

  datatype Error = SequenceTooLarge | TransportFailed | NotSerialized

  class MessageBuffer {
    const bufferSize: nat
    var messages: seq<Item>
    var totalMessageCount: int
    var waitForSequenceMessage: bool
    var nextReceivingSequenceId: int
    var latestReceivedSequenceId: int
    var bufferedByteCount: nat
    var reconnectInProgress: bool
    var ackTimer: Option<nat>   // the transport a scheduled acknowledgement captured
    ghost var issued: seq<int>
    ghost var signalled: seq<int>

    ghost function State(): Buffer
      reads this
    {
      Buffer(bufferSize, messages, totalMessageCount, waitForSequenceMessage, nextReceivingSequenceId,
             latestReceivedSequenceId, bufferedByteCount, reconnectInProgress, ackTimer, issued, signalled)
    }

    constructor (size: nat)
      ensures State() == Empty(size) && Valid(State())
    {
      bufferSize := size;
      messages, totalMessageCount, bufferedByteCount := [], 0, 0;
      waitForSequenceMessage, reconnectInProgress := false, false;
      nextReceivingSequenceId, latestReceivedSequenceId := 1, 0;
      ackTimer := None;
      issued, signalled := [], [];
    }

    /** Buffers a message and writes it unless a reconnect is in progress. `serialized` is what the
        protocol's writer made of it, if anything, and `accepted` the transport's answer. The answer
        tells whether the caller got a backpressure receiver. */
    method Send(serialized: Option<Bytes>, kind: HubMessage.MessageType, accepted: bool)
      returns (answer: Result<bool, Error>, written: bool)
      requires Valid(State())
      modifies this
      ensures Valid(State())
      ensures serialized.None? ==> State() == old(State()) && answer == Err(NotSerialized) && !written
      ensures serialized.Some? ==>
                var b := if HubMessage.IsInvocationType(kind) then Submitted(old(State()), serialized.value)
                         else old(State());
                && written == (!old(reconnectInProgress) && accepted)
                && State() == (if !old(reconnectInProgress) && !accepted then Disconnected(b) else b)
                && answer == (if !old(reconnectInProgress) && !accepted then Err(TransportFailed)
                              else Ok(b.issued != old(issued)))
    {
      hide Valid;
      if serialized.None? {
        return Err(NotSerialized), false;
      }
      var message := serialized.value;
      var backpressure := false;
      if HubMessage.IsInvocationType(kind) {
        backpressure := Store(message);
      }
      var sendNow := !reconnectInProgress;
      written := sendNow && accepted;
      if sendNow && !accepted {
        ghost var before := State();
        NoticeDisconnect();
        CountersValid(before, State());
        return Err(TransportFailed), written;
      }
      answer := Ok(backpressure);
    }

    /** Numbers and buffers an invocation message; the answer says whether the buffer is now full. */
    method Store(message: Bytes) returns (backpressure: bool)
      requires Valid(State())
      modifies this
      ensures Valid(State()) && State() == Submitted(old(State()), message)
      ensures backpressure == (issued != old(issued))
    {
      hide Valid;
      SubmittedValid(State(), message);
      backpressure := false;
      totalMessageCount := totalMessageCount + 1;
      var id := totalMessageCount;
      bufferedByteCount := bufferedByteCount + |message|;
      if bufferedByteCount >= bufferSize {
        backpressure := true;
        issued := issued + [id];
      }
      messages := messages + [Item(message, id, backpressure)];
    }

    /** Resolves the backpressure sender of item `i`, if it is still there. */
    method Signal(i: nat)
      requires i < |messages|
      modifies this`messages, this`signalled
      ensures messages == old(messages)[i := old(messages)[i].(waiter := false)]
      ensures signalled == old(signalled) + Waiters([old(messages)[i]])
    {
      var item := messages[i];
      assert [item][1..] == [];
      if item.waiter {
        messages := messages[i := item.(waiter := false)];
        signalled := signalled + [item.id];
      }
    }

    method Acknowledge(id: int)
      requires Valid(State())
      modifies this
      ensures Valid(State())
      ensures State() == Acked(old(State()), id)
    {
      ghost var b := State();
      var newestAcked := Release(id);
      if newestAcked.Some? {
        Retain(newestAcked.value);
      }
      AckedValid(b, id);
    }

    /** The loop of an acknowledgement: counts down the acknowledged lengths and signals. */
    method Release(id: int) returns (newestAcked: Option<int>)
      requires Valid(State())
      modifies this`messages, this`bufferedByteCount, this`signalled
      ensures var c := Acked(old(State()), id);
              && State() == c.(messages := messages)
              && (newestAcked.None? ==> messages == c.messages)
              && (newestAcked.Some? ==> Later(messages, newestAcked.value) == c.messages)
    {
      hide Valid, Acked, Scanned, Waiters, Later;
      ghost var b := State();
      newestAcked := None;
      var i := 0;
      ScanStart(b, id);
      while i < |messages|
        invariant i <= |messages| == |b.messages|
        invariant Scanned(b, id, i, State(), newestAcked)
      {
        ScanStep(b, id, i, State(), newestAcked);
        var item := messages[i];
        if item.id <= id {
          newestAcked := Some(item.id);
          bufferedByteCount := SaturatingSub(bufferedByteCount, |item.message|);
          Signal(i);
        } else if bufferedByteCount < bufferSize {
          Signal(i);
        } else {
          break;
        }
        i := i + 1;
      }
      ScanEnd(b, id, i, State(), newestAcked);
    }

    /** Keeps the items with a later id. */
    method Retain(id: int)
      modifies this`messages
      ensures messages == Later(old(messages), id)
    {
      var kept: seq<Item> := [];
      var i := 0;
      while i < |messages|
        invariant 0 <= i <= |messages|
        invariant messages == old(messages)
        invariant kept == Later(messages[..i], id)
      {
        assert messages[..i + 1][..i] == messages[..i];
        if messages[i].id > id {
          kept := kept + [messages[i]];
        }
        i := i + 1;
      }
      assert messages[..i] == messages;
      messages := kept;
    }

    /** Whether an incoming message is to be processed. */
    method ShouldProcessMessage(kind: HubMessage.MessageType, transport: nat) returns (process: bool)
      modifies this
      ensures (State(), process)
              == Gate(old(State()), HubMessage.IsInvocationType(kind), kind.Sequence?, transport)
    {
      if waitForSequenceMessage {
        return kind.Sequence?;
      }
      if !HubMessage.IsInvocationType(kind) {
        return true;
      }
      var currentId := nextReceivingSequenceId;
      nextReceivingSequenceId := nextReceivingSequenceId + 1;
      var latest := latestReceivedSequenceId;
      if currentId <= latest {
        if currentId == latest {
          ScheduleAckTimer(transport);
        }
        return false;
      }
      latestReceivedSequenceId := currentId;
      ScheduleAckTimer(transport);
      process := true;
    }

    method ResetSequence(id: int) returns (answer: Result<(), Error>)
      modifies this
      ensures id > old(nextReceivingSequenceId) ==>
                answer == Err(SequenceTooLarge) && State() == old(State())
      ensures id <= old(nextReceivingSequenceId) ==>
                answer == Ok(()) && State() == old(State()).(next := id, waiting := false)
    {
      if id > nextReceivingSequenceId {
        return Err(SequenceTooLarge);
      }
      nextReceivingSequenceId := id;
      waitForSequenceMessage := false;
      answer := Ok(());
    }

    method NoticeDisconnect()
      modifies this
      ensures State() == Disconnected(old(State()))
    {
      reconnectInProgress := true;
      waitForSequenceMessage := true;
    }

    /** Writes a Sequence and every buffered message; the transport accepts `accepted` writes. */
    method Resend(accepted: nat) returns (written: seq<Frame>, ok: bool)
      requires Valid(State())
      modifies this`reconnectInProgress
      ensures var all := ResendFrames(State());
              && ok == (accepted >= |all|)
              && written == (if ok then all else all[..accepted])
      ensures reconnectInProgress == (old(reconnectInProgress) && !ok)
    {
      hide Valid, DataFrames;
      ghost var all := ResendFrames(State());
      written := [];
      var sequenceId := if messages != [] then messages[0].id else totalMessageCount + 1;
      if accepted == 0 {
        return [], false;
      }
      written := [Sequence(sequenceId)];
      var i := 0;
      while i < |messages|
        invariant 0 <= i <= |messages|
        invariant written == all[..i + 1]
        invariant i + 1 <= accepted
        invariant reconnectInProgress == old(reconnectInProgress)
      {
        if i + 1 == accepted {
          return written, false;
        }
        written := written + [Data(messages[i].message)];
        i := i + 1;
      }
      reconnectInProgress := false;
      ok := true;
    }

    method ScheduleAckTimer(transport: nat)
      modifies this`ackTimer
      ensures State() == Scheduled(old(State()), transport)
    {
      if ackTimer.None? {
        ackTimer := Some(transport);
      }
    }

    /** The scheduled task after its delay: the acknowledgement goes to the captured transport. */
    method FireAckTimer() returns (sent: Option<(nat, Frame)>)
      modifies this`ackTimer
      ensures State() == old(State()).(timer := None)
      ensures sent == (if old(ackTimer).Some? && !reconnectInProgress
                       then Some((old(ackTimer).value, Ack(latestReceivedSequenceId))) else None)
    {
      sent := None;
      if ackTimer.Some? {
        if !reconnectInProgress {
          sent := Some((ackTimer.value, Ack(latestReceivedSequenceId)));
        }
        ackTimer := None;
      }
    }
  }

  // ---- the acknowledgement loop -------------------------------------------------------------

  function Later(items: seq<Item>, id: int): seq<Item>
  {
    if items == [] then []
    else
      var last := items[|items| - 1];
      Later(items[..|items| - 1], id) + (if last.id > id then [last] else [])
  }

  /** The buffer `c` after the loop has passed the first `i` items of `b`. */
  ghost predicate Scanned(b: Buffer, id: int, i: nat, c: Buffer, newest: Option<int>)
  {
    var k := Covered(b, id);
    var done := if i < k then i else k;
    && i <= |b.messages|
    && c == b.(messages := Relieved(b.messages[..i]) + b.messages[i..],
               byteCount := c.byteCount,
               signalled := b.signalled + Waiters(b.messages[..i]))
    && c.byteCount + SumLen(b.messages[..done]) == b.byteCount
    && newest == (if done == 0 then None else Some(Base(b) + done))
    && (i > k ==> c.byteCount < c.capacity)
  }

  lemma LengthSplit(items: seq<Item>, i: nat)
    requires i < |items|
    ensures SumLen(items[..i + 1]) == SumLen(items[..i]) + |items[i].message| <= SumLen(items)
  {
    SumLenSplit(items, i + 1);
    SumLenSplit(items[..i + 1], i);
    assert items[..i + 1][..i] == items[..i];
    assert items[..i + 1][i..] == [items[i]];
    assert [items[i]][1..] == [];
  }

  lemma Extend(items: seq<Item>, i: nat)
    requires i < |items|
    ensures Waiters(items[..i + 1]) == Waiters(items[..i]) + Waiters([items[i]])
    ensures (Relieved(items[..i]) + items[i..])[i := items[i].(waiter := false)]
            == Relieved(items[..i + 1]) + items[i + 1..]
  {
    WaitersSplit(items[..i + 1], i);
    assert items[..i + 1][..i] == items[..i];
    assert items[..i + 1][i..] == [items[i]];
  }

  lemma ScanStart(b: Buffer, id: int)
    ensures Scanned(b, id, 0, b, None)
  {
  }

  lemma ScanStep(b: Buffer, id: int, i: nat, c: Buffer, newest: Option<int>)
    requires Valid(b) && i < |b.messages| && Scanned(b, id, i, c, newest)
    ensures |c.messages| == |b.messages| && c.messages[i] == b.messages[i]
    ensures var item := b.messages[i];
            var acked := item.id <= id;
            acked || c.byteCount < c.capacity ==>
              Scanned(b, id, i + 1,
                      c.(messages := c.messages[i := item.(waiter := false)],
                         byteCount := if acked then SaturatingSub(c.byteCount, |item.message|) else c.byteCount,
                         signalled := c.signalled + Waiters([item])),
                      if acked then Some(item.id) else newest)
  {
    Extend(b.messages, i);
    LengthSplit(b.messages, i);
    assert b.messages[i].id == Base(b) + 1 + i && b.byteCount == SumLen(b.messages);
    hide Valid, SumLen, Waiters, Relieved;
    Associative(b.signalled, Waiters(b.messages[..i]), Waiters([b.messages[i]]));
  }

  lemma {:induction false} LaterTail(head: seq<Item>, tail: seq<Item>, id: int)
    requires forall q | 0 <= q < |head| :: head[q].id <= id
    requires forall q | 0 <= q < |tail| :: tail[q].id > id
    ensures Later(head + tail, id) == tail
    decreases |head| + |tail|
  {
    var all := head + tail;
    if tail != [] {
      assert all[..|all| - 1] == head + tail[..|tail| - 1];
      LaterTail(head, tail[..|tail| - 1], id);
    } else if head != [] {
      assert all[..|all| - 1] == head[..|head| - 1] + [];
      LaterTail(head[..|head| - 1], [], id);
    }
  }

  /** What is left of the scanned items once the acknowledged ones are dropped. */
  lemma ScanTail(items: seq<Item>, base: int, k: nat, i: nat)
    requires k <= i <= |items|
    requires forall q | 0 <= q < |items| :: items[q].id == base + 1 + q
    ensures var all := Relieved(items[..i]) + items[i..];
            && all[k..] == Relieved(items[k..i]) + items[i..]
            && Later(all, base + k) == all[k..]
  {
    var all := Relieved(items[..i]) + items[i..];
    assert all == all[..k] + all[k..];
    LaterTail(all[..k], all[k..], base + k);
  }

  lemma ScanRelieved(b: Buffer, id: int, c: Buffer, newest: Option<int>)
    requires Valid(b) && Scanned(b, id, |b.messages|, c, newest) && c.byteCount < c.capacity
    ensures var r := Acked(b, id);
            && c == r.(messages := c.messages)
            && r.messages == c.messages[Covered(b, id)..]
  {
    var k := Covered(b, id);
    SumLenSplit(b.messages, k);
    WaitersSplit(b.messages, k);
    assert b.byteCount == SumLen(b.messages);
    hide Valid, SumLen, Waiters, Relieved;
    assert b.messages[..|b.messages|] == b.messages;
    assert c.byteCount == Acked(b, id).byteCount;
    Associative(b.signalled, Waiters(b.messages[..k]), Waiters(b.messages[k..]));
    assert c.messages == Relieved(b.messages);
    assert c.messages[k..] == Relieved(b.messages[k..]);
  }

  lemma ScanFull(b: Buffer, id: int, c: Buffer, newest: Option<int>)
    requires Valid(b) && Scanned(b, id, Covered(b, id), c, newest) && c.byteCount >= c.capacity
    ensures var r := Acked(b, id);
            && c == r.(messages := c.messages)
            && r.messages == c.messages[Covered(b, id)..]
  {
    SumLenSplit(b.messages, Covered(b, id));
    assert c.byteCount == Acked(b, id).byteCount;
  }

  lemma ScanPassed(b: Buffer, id: int, i: nat)
    requires Valid(b) && i <= |b.messages|
    requires i < |b.messages| ==> b.messages[i].id > id
    ensures var k := Covered(b, id);
            var all := Relieved(b.messages[..i]) + b.messages[i..];
            k <= i && Later(all, Base(b) + k) == all[k..]
  {
    ScanTail(b.messages, Base(b), Covered(b, id), i);
  }

  lemma ScanEnd(b: Buffer, id: int, i: nat, c: Buffer, newest: Option<int>)
    requires Valid(b) && Scanned(b, id, i, c, newest)
    requires i == |b.messages| || (b.messages[i].id > id && c.byteCount >= c.capacity)
    ensures var r := Acked(b, id);
            && c == r.(messages := c.messages)
            && (newest.None? ==> c.messages == r.messages)
            && (newest.Some? ==> Later(c.messages, newest.value) == r.messages)
  {
    hide Valid, Acked, Waiters, SumLen, Later;
    var k := Covered(b, id);
    ScanPassed(b, id, i);
    if c.byteCount < c.capacity {
      ScanRelieved(b, id, c, newest);
    } else {
      ScanFull(b, id, c, newest);
    }
  }
}
