/** What the client does with messages from the server. */
module Dispatch {
  import opened Basics
  import opened HubMessage
  import PendingTable

  /** How one handler of an invoked method ends. */
  datatype Outcome = Returned(value: Json) | Nothing | Failed(error: Text)

  /** What the server is told about an invocation. */
  datatype Answer = Result(value: Json) | HandlerError(error: Text) | MultipleResults | NoResult

  datatype Reply = Reply(id: Text, answer: Answer)

  function Values(outcomes: seq<Outcome>): seq<Json>
  {
    if outcomes == [] then []
    else
      var last := outcomes[|outcomes| - 1];
      Values(outcomes[..|outcomes| - 1]) + if last.Returned? then [last.value] else []
  }

  function Errors(outcomes: seq<Outcome>): seq<Text>
  {
    if outcomes == [] then []
    else
      var last := outcomes[|outcomes| - 1];
      Errors(outcomes[..|outcomes| - 1]) + if last.Failed? then [last.error] else []
  }

  /** The answer by what the handlers returned, not by the order they were called in: two values
      are an error, else the last error counts, else the one value. */
  function Verdict(values: seq<Json>, errors: seq<Text>): Answer
  {
    if |values| >= 2 then MultipleResults
    else if errors != [] then HandlerError(errors[|errors| - 1])
    else if values != [] then Result(values[0])
    else NoResult
  }

  /** Runs the handlers one after the other; the result is the completion that is sent. */
  method HandleInvocation(invocationId: Option<Text>, outcomes: seq<Outcome>) returns (sent: Option<Reply>)
    ensures sent == match invocationId
                    case None => None
                    case Some(id) => Some(Reply(id, Verdict(Values(outcomes), Errors(outcomes))))
  {
    hide Values, Errors;
    OneMore(outcomes, 0);
    assert outcomes[..0] == [];
    if outcomes == [] {
      if invocationId.Some? {
        return Some(Reply(invocationId.value, NoResult));
      }
      return None;
    }
    var expectsResponse := invocationId.Some?;
    var result: Option<Json> := None;
    var handlerError: Option<Text> := None;
    var multipleResults := false;
    for i := 0 to |outcomes|
      invariant expectsResponse ==> multipleResults == (|Values(outcomes[..i])| >= 2)
      invariant expectsResponse ==> result == if Values(outcomes[..i]) == [] then None
          else Some(Values(outcomes[..i])[0])
      invariant !multipleResults ==>
                  handlerError == if Errors(outcomes[..i]) == [] then None
                                  else Some(Errors(outcomes[..i])[|Errors(outcomes[..i])| - 1])
    {
      OneMore(outcomes, i);
      match outcomes[i] {
        case Returned(value) =>
          if expectsResponse && result.Some? {
            multipleResults := true;
            handlerError := None;
          } else {
            result := Some(value);
          }
        case Nothing =>
        case Failed(error) =>
          if !multipleResults {
            handlerError := Some(error);
          }
      }
    }
    assert outcomes[..|outcomes|] == outcomes;
    if invocationId.None? {
      return None;
    }
    var answer :=
      if multipleResults then MultipleResults
      else if handlerError.Some? then HandlerError(handlerError.value)
      else if result.Some? then Result(result.value)
      else NoResult;
    sent := Some(Reply(invocationId.value, answer));
  }

  lemma OneMore(outcomes: seq<Outcome>, i: nat)
    requires i <= |outcomes|
    ensures Values([]) == [] && Errors([]) == []
    ensures i < |outcomes| ==>
              && Values(outcomes[..i + 1]) == Values(outcomes[..i]) + (if outcomes[i].Returned?
                    then [outcomes[i].value] else [])
              && Errors(outcomes[..i + 1]) == Errors(outcomes[..i]) + (if outcomes[i].Failed? then [outcomes[i].error]
                    else [])
  {
    if i < |outcomes| {
      assert outcomes[..i + 1][..i] == outcomes[..i];
    }
  }

  ghost predicate TwoReturned(outcomes: seq<Outcome>)
  {
    exists i, j :: 0 <= i < j < |outcomes| && outcomes[i].Returned? && outcomes[j].Returned?
  }

  lemma {:induction false} ValuesMean(outcomes: seq<Outcome>)
    ensures Values(outcomes) == [] <==> forall i | 0 <= i < |outcomes| :: !outcomes[i].Returned?
    ensures forall v | v in Values(outcomes) :: Returned(v) in outcomes
    ensures |Values(outcomes)| >= 2 <==> TwoReturned(outcomes)
  {
    if outcomes != [] {
      var k := |outcomes| - 1;
      var shorter := outcomes[..k];
      assert outcomes == shorter + [outcomes[k]];
      assert forall i | 0 <= i < k :: shorter[i] == outcomes[i];
      ValuesMean(shorter);
      if TwoReturned(shorter) {
        var i, j :| 0 <= i < j < k && shorter[i].Returned? && shorter[j].Returned?;
        assert outcomes[i].Returned? && outcomes[j].Returned?;
      } else if outcomes[k].Returned? && Values(shorter) != [] {
        var i :| 0 <= i < k && shorter[i].Returned?;
        assert outcomes[i].Returned? && outcomes[k].Returned?;
      }
    }
  }

  lemma {:induction false} ErrorsMean(outcomes: seq<Outcome>)
    ensures Errors(outcomes) == [] <==> forall i | 0 <= i < |outcomes| :: !outcomes[i].Failed?
    ensures Errors(outcomes) != [] ==> LastFailed(outcomes, Errors(outcomes)[|Errors(outcomes)| - 1])
  {
    hide LastFailed;
    if outcomes != [] {
      var k := |outcomes| - 1;
      var shorter := outcomes[..k];
      assert forall i | 0 <= i < k :: shorter[i] == outcomes[i];
      ErrorsMean(shorter);
      if outcomes[k].Failed? {
        LastFailedMore(outcomes, outcomes[k].error);
      } else if Errors(shorter) != [] {
        LastFailedMore(outcomes, Errors(shorter)[|Errors(shorter)| - 1]);
      }
    }
  }

  lemma LastFailedMore(outcomes: seq<Outcome>, error: Text)
    requires outcomes != []
    requires var k := |outcomes| - 1;
             outcomes[k] == Failed(error) || (!outcomes[k].Failed? && LastFailed(outcomes[..k], error))
    ensures LastFailed(outcomes, error)
  {
    hide IsUtf8;
    var k := |outcomes| - 1;
    if !outcomes[k].Failed? {
      var shorter := outcomes[..k];
      var i :| 0 <= i < k && shorter[i] == Failed(error) && forall j | i < j < k :: !shorter[j].Failed?;
      assert outcomes[i] == Failed(error);
      forall j | i < j < |outcomes| ensures !outcomes[j].Failed? {
        assert j < k ==> outcomes[j] == shorter[j];
      }
    }
  }

  ghost predicate LastFailed(outcomes: seq<Outcome>, error: Text)
  {
    exists i :: 0 <= i < |outcomes| && outcomes[i] == Failed(error)
                && forall j | i < j < |outcomes| :: !outcomes[j].Failed?
  }

  /** The answer by the handlers' outcomes themselves: two of them returned values; or the error is that
      of the last handler that failed; or one returned the value and none failed; or nothing
      was returned at all. */
  lemma VerdictMeans(outcomes: seq<Outcome>)
    ensures var answer := Verdict(Values(outcomes), Errors(outcomes));
            && (answer.MultipleResults? <==> TwoReturned(outcomes))
            && (answer.HandlerError? ==> LastFailed(outcomes, answer.error))
            && (answer.Result? ==> Returned(answer.value) in outcomes)
            && (answer.Result? ==> forall i | 0 <= i < |outcomes| :: !outcomes[i].Failed?)
            && (answer.NoResult? ==> forall i | 0 <= i < |outcomes| :: outcomes[i].Nothing?)
  {
    hide Values, Errors;
    ValuesMean(outcomes);
    ErrorsMean(outcomes);
  }

  // ---- messages that belong to a pending invocation -----------------------------------------

  /** A completion with an error fails the caller whatever result it carries. */
  function ResultOf(m: HubMessage): PendingTable.Reply
    requires m.CompletionMessage?
  {
    if m.error.Some? then Err(m.error.value)
    else Ok(if m.result.Some? then m.result.value else Json.Null)
  }

  /** Stream items, completions and closes become operations on the pending table: an item without
      an id is dropped, and a close cancels everybody, with its own error if it has one. */
  function TableOp(m: HubMessage): seq<PendingTable.Op>
  {
    match m
    case StreamItemMessage(_, id, item) => if id.Some? then [PendingTable.Item(id.value, item)] else []
    case CompletionMessage(_, id, _, _) => [PendingTable.Complete(id, ResultOf(m))]
    case CloseMessage(error, _) => [PendingTable.CancelWith(error)]
    case _ => []
  }

  function TableOps(messages: seq<HubMessage>): seq<PendingTable.Op>
  {
    if messages == [] then [] else TableOp(messages[0]) + TableOps(messages[1..])
  }

  /** The wait for `id` ends with a completion for it or with any close. */
  predicate EndsWait(id: Text, m: HubMessage)
  {
    m.CloseMessage? || (m.CompletionMessage? && m.id == id)
  }

  function FirstEnding(id: Text, messages: seq<HubMessage>): (k: nat)
    ensures k <= |messages|
    ensures k < |messages| ==> EndsWait(id, messages[k])
    ensures forall i | 0 <= i < k :: !EndsWait(id, messages[i])
  {
    if messages == [] || EndsWait(id, messages[0]) then 0 else 1 + FirstEnding(id, messages[1..])
  }

  /** The reply that goes with the end of a wait. The error of a completion or of a close fails either
      kind of caller, a close without one with the common message. A completion without an error
      brings an invocation its result, null if it has none, and a stream nothing. */
  function EndingReply(kind: PendingTable.Kind, m: HubMessage): seq<PendingTable.Reply>
    requires m.CloseMessage? || m.CompletionMessage?
  {
    match m
    case CompletionMessage(_, _, Some(error), _) => [Err(error)]
    case CompletionMessage(_, _, None, Some(value)) => if kind == PendingTable.Stream then [] else [Ok(value)]
    case CompletionMessage(_, _, None, None) => if kind == PendingTable.Stream then [] else [Ok(Json.Null)]
    case CloseMessage(Some(error), _) => [Err(error)]
    case CloseMessage(None, _) => [Err(PendingTable.INVOCATION_CANCELED_MESSAGE)]
  }

  function ItemsFor(id: Text, messages: seq<HubMessage>): seq<PendingTable.Reply>
  {
    if messages == [] then []
    else ItemFrom(id, messages[0]) + ItemsFor(id, messages[1..])
  }

  function ItemFrom(id: Text, m: HubMessage): seq<PendingTable.Reply>
  {
    if m.StreamItemMessage? && m.invocationId == Some(id) then [Ok(m.item)] else []
  }

  /** What a caller waiting for `id` is to get from some messages. */
  function Heard(kind: PendingTable.Kind, id: Text, messages: seq<HubMessage>): PendingTable.Output
  {
    var k := FirstEnding(id, messages);
    var items := if kind == PendingTable.Stream then ItemsFor(id, messages[..k]) else [];
    var last := if k < |messages| then EndingReply(kind, messages[k]) else [];
    PendingTable.Output(items + last, k == |messages|)
  }

  /** Whatever messages arrive, a caller registered under `id` gets, of a stream, the items for it
      up to the first completion for it or close, in order, then the outcome of that message, and
      nothing after. */
  lemma {:induction false} MessagesReachTheirCaller(kind: PendingTable.Kind, id: Text, messages: seq<HubMessage>)
    ensures PendingTable.Owed(kind, id, TableOps(messages)) == Heard(kind, id, messages)
    decreases |messages|
  {
    hide PendingTable.Owed, PendingTable.CancelWith, TableOps, EndingReply;
    OneMessage(kind, id, messages);
    if messages == [] {
      assert messages[..0] == [];
    } else {
      var k, rest := FirstEnding(id, messages), messages[1..];
      if k == 0 {
        assert messages[..0] == [];
      } else {
        MessagesReachTheirCaller(kind, id, rest);
        FirstItem(id, messages, k);
        hide ItemsFor;
        var item := if kind == PendingTable.Stream then ItemFrom(id, messages[0]) else [];
        var items := if kind == PendingTable.Stream then ItemsFor(id, rest[..k - 1]) else [];
        var last := if k < |messages| then EndingReply(kind, messages[k]) else [];
        Associative(item, items, last);
      }
    }
  }

  lemma FirstItem(id: Text, messages: seq<HubMessage>, k: nat)
    requires 0 < k <= |messages|
    ensures ItemsFor(id, messages[..k]) == ItemFrom(id, messages[0]) + ItemsFor(id, messages[1..][..k - 1])
  {
    assert messages[..k][1..] == messages[1..][..k - 1] && messages[..k][0] == messages[0];
  }

  /** A message that ends the wait becomes the operation that ends it, with the same reply. */
  lemma EndingOp(kind: PendingTable.Kind, id: Text, m: HubMessage)
    requires EndsWait(id, m)
    ensures |TableOp(m)| == 1 && PendingTable.Ends(TableOp(m)[0], id)
    ensures PendingTable.Ending(kind, TableOp(m)[0]) == EndingReply(kind, m)
  {
    hide Ascii;
  }

  lemma OneMessage(kind: PendingTable.Kind, id: Text, messages: seq<HubMessage>)
    ensures messages == [] ==> PendingTable.Owed(kind, id, TableOps(messages)) == PendingTable.Output([], true)
    ensures messages != [] ==>
              var owed, m := PendingTable.Owed(kind, id, TableOps(messages)), messages[0];
              var later := PendingTable.Owed(kind, id, TableOps(messages[1..]));
              var item := if kind == PendingTable.Stream then ItemFrom(id, m) else [];
              if EndsWait(id, m) then owed == PendingTable.Output(EndingReply(kind, m), false)
              else owed == PendingTable.Output(item + later.replies, later.open)
  {
    hide PendingTable.CancelWith, EndingReply, PendingTable.Ending;
    var ops := TableOps(messages);
    PendingTable.OwedFirst(kind, id, ops);
    if messages != [] {
      var op, rest := TableOp(messages[0]), TableOps(messages[1..]);
      hide PendingTable.Owed, TableOps, ResultOf;
      if EndsWait(id, messages[0]) {
        EndingOp(kind, id, messages[0]);
      }
      if op == [] {
        assert ops == rest;
        var later := PendingTable.Owed(kind, id, rest);
        assert [] + later.replies == later.replies;
      } else {
        assert ops[0] == op[0] && ops[1..] == rest;
      }
    }
  }

  /** In the table itself: after any operations, a caller is registered and messages are dispatched. */
  lemma CallerHears(before: seq<PendingTable.Op>, kind: PendingTable.Kind, id: Text, messages: seq<HubMessage>)
    ensures var ops := before + ([PendingTable.Register(id, kind)] + TableOps(messages));
            var h, outputs := |PendingTable.Run(PendingTable.Empty, before).outputs|,
                              PendingTable.Run(PendingTable.Empty, ops).outputs;
            h < |outputs| && outputs[h] == Heard(kind, id, messages)
  {
    hide PendingTable.Run, PendingTable.Owed, Heard, TableOps;
    var ops := before + ([PendingTable.Register(id, kind)] + TableOps(messages));
    PendingTable.EveryCallerGetsItsDue(ops, |before|);
    assert ops[..|before|] == before && ops[|before| + 1..] == TableOps(messages);
    MessagesReachTheirCaller(kind, id, messages);
  }

  // ---- the answer does not depend on the order of the handlers ------------------------------

  lemma {:induction false} ValuesAppend(a: seq<Outcome>, b: seq<Outcome>)
    ensures Values(a + b) == Values(a) + Values(b) && Errors(a + b) == Errors(a) + Errors(b)
    decreases |b|
  {
    if b == [] {
      assert a + b == a;
    } else {
      var k := |b| - 1;
      assert (a + b)[..|a + b| - 1] == a + b[..k];
      ValuesAppend(a, b[..k]);
    }
  }

  /** Exchanging two neighbours of which at most one failed changes the answer only by which of
      two returned values is meant, and those two are refused anyway. */
  lemma NeighboursExchange(a: seq<Outcome>, x: Outcome, y: Outcome, b: seq<Outcome>)
    requires !(x.Failed? && y.Failed?)
    ensures Verdict(Values(a + [x, y] + b), Errors(a + [x, y] + b))
            == Verdict(Values(a + [y, x] + b), Errors(a + [y, x] + b))
  {
    Pair(x, y);
    Pair(y, x);
    ValuesAppend(a, [x, y]);
    ValuesAppend(a, [y, x]);
    ValuesAppend(a + [x, y], b);
    ValuesAppend(a + [y, x], b);
    hide Values, Errors;
  }

  lemma Pair(x: Outcome, y: Outcome)
    ensures Values([x, y]) == (if x.Returned? then [x.value] else []) + (if y.Returned? then [y.value] else [])
    ensures Errors([x, y]) == (if x.Failed? then [x.error] else []) + (if y.Failed? then [y.error] else [])
  {
    assert [x, y] == [x] + [y];
    ValuesAppend([x], [y]);
    Alone(x);
    Alone(y);
  }

  lemma Alone(x: Outcome)
    ensures Values([x]) == (if x.Returned? then [x.value] else [])
    ensures Errors([x]) == (if x.Failed? then [x.error] else [])
  {
    assert [x][..0] == [];
    assert Values([x][..0]) == [] && Errors([x][..0]) == [];
  }
}
