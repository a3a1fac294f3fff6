/**
 The reconnect supervisor of a hub connection, interleaved with `start` and `close`: which
 lifecycle callbacks the application sees, and how often the server is tried.
 */
module Supervisor {
  import opened Basics
  import HubMessage
  import PendingTable

  type Delay = nat

  // ---- retry policies -----------------------------------------------------------------------

  /** The list policy: the given delays, then no more. */
  function PolicyDelays(delays: seq<Delay>): (r: seq<Option<Delay>>)
    ensures |r| == |delays| + 1
  {
    if delays == [] then [None] else [Some(delays[0])] + PolicyDelays(delays[1..])
  }

  function NextRetryDelay(list: seq<Option<Delay>>, previousRetryCount: nat): Option<Delay>
  {
    if previousRetryCount < |list| then list[previousRetryCount] else None
  }

  /** A policy built from a list answers exactly the retry counts below its length. */
  lemma {:induction false} ListPolicy(delays: seq<Delay>, count: nat)
    ensures NextRetryDelay(PolicyDelays(delays), count) == if count < |delays| then Some(delays[count]) else None
    decreases delays
  {
    if delays != [] && count > 0 {
      ListPolicy(delays[1..], count - 1);
    }
  }

  /** The retry loop of one outage that nobody interrupts. `succeeds` says which of the attempts
      connect. The policy is asked about 0, 1, 2 and so on; attempts are made after the delays
      in list order, until one succeeds or the list is used up. */
  method RetryLoop(delays: seq<Delay>, succeeds: nat -> bool)
    returns (connected: bool, asked: seq<nat>, slept: seq<Delay>, attempts: nat)
    ensures attempts <= |delays| && slept == delays[..attempts]
    ensures connected ==> attempts > 0 && succeeds(attempts - 1) && |asked| == attempts
    ensures !connected ==> attempts == |delays| && |asked| == attempts + 1
    ensures forall i | 0 <= i < attempts && (connected ==> i < attempts - 1) :: !succeeds(i)
    ensures forall i | 0 <= i < |asked| :: asked[i] == i
  {
    var list := PolicyDelays(delays);
    asked, slept, attempts := [0], [], 0;
    ListPolicy(delays, 0);
    var delay := NextRetryDelay(list, 0);
    while delay.Some?
      invariant attempts <= |delays| && slept == delays[..attempts]
      invariant delay == if attempts < |delays| then Some(delays[attempts]) else None
      invariant |asked| == attempts + 1 && forall i | 0 <= i < |asked| :: asked[i] == i
      invariant forall i | 0 <= i < attempts :: !succeeds(i)
      decreases |delays| - attempts
    {
      slept := slept + [delay.value];
      attempts := attempts + 1;
      if succeeds(attempts - 1) {
        return true, asked, slept, attempts;
      }
      asked := asked + [attempts];
      ListPolicy(delays, attempts);
      delay := NextRetryDelay(list, attempts);
    }
    connected := false;
  }

  // ---- the supervisor among other tasks -----------------------------------------------------

  datatype ConnectionState = Disconnected | Connected | Reconnecting | Disconnecting

  datatype CloseInfo = CloseInfo(error: Option<HubMessage.Text>, dropped: bool, allowReconnect: Option<bool>)

  /** Where the supervisor task is. */
  datatype Phase =
    | Ended
    | Listening                   // waits for an event or for the stop signal
    | Resuming(info: CloseInfo)   // tries the same connection over a new transport
    | Failing(info: CloseInfo)    // about to give up or to announce a reconnect
    | Announced                   // has told the application that it reconnects
    | Sleeping                    // waits before the next attempt
    | Trying                      // an attempt is under way

  datatype Callback = Started | OnReconnecting | OnReconnected | OnClosed

  /** `table` holds the pending invocations, `closes` counts the calls of `close` under way; `asked`,
      `slept` and `attempts` belong to the current outage. */
  datatype System = System(
    phase: Phase,
    state: ConnectionState,
    closing: bool,
    closes: nat,
    started: bool,
    log: seq<Callback>,
    table: PendingTable.Table,
    outage: nat,
    asked: seq<nat>,
    slept: seq<Delay>,
    attempts: nat)

  const Initial := System(Ended, Disconnected, false, 0, false, [], PendingTable.Empty, 0, [], [], 0)

  /** The reconnect policy, if there is one. What it answers in the n-th outage may depend on the
      outage, on the retry count and on everything else. */
  type Policy = Option<(nat, nat) -> Option<Delay>>

  function Answer(policy: Policy, outage: nat, count: nat): Option<Delay>
  {
    if policy.Some? then policy.value(outage, count) else None
  }

  datatype Step =
    | Start                                        // a successful `start`
    | BeginClose                                   // `close` raises its flags
    | EndClose(ok: bool)                           // it aborts the supervisor; shutting down may fail
    | StopSeen
    | EventsEnd
    | Event(info: CloseInfo, resumable: bool)
    | ResumeDone(ok: bool)
    | Fail
    | Proceed
    | Wake
    | Attempt(ok: bool)
    | Use(op: PendingTable.Op)                     // a caller registers, or a message is dispatched

  /** All pending invocations are cancelled, with the error of the close if it has one. */
  function Cancelled(s: System, error: Option<HubMessage.Text>): System
  {
    s.(table := PendingTable.Apply(s.table, PendingTable.CancelWith(error)))
  }

  /** The closed callback is invoked once per start. */
  function Closed(s: System): System
  {
    if s.started then s.(started := false, log := s.log + [OnClosed]) else s
  }

  function GivenUp(s: System): System
  {
    Closed(s.(state := Disconnected)).(phase := Ended)
  }

  predicate Enabled(s: System, step: Step)
  {
    match step
    case Start => s.state == Disconnected
    case BeginClose => s.state != Disconnected && s.state != Disconnecting
    case EndClose(_) => s.closes > 0
    case StopSeen => s.phase.Listening? && s.closing
    case EventsEnd => s.phase.Listening?
    case Event(_, _) => s.phase.Listening?
    case ResumeDone(_) => s.phase.Resuming?
    case Fail => s.phase.Failing?
    case Proceed => s.phase.Announced?
    case Wake => s.phase.Sleeping?
    case Attempt(_) => s.phase.Trying?
    case Use(_) => true
  }

  function Failed(s: System, policy: Policy): System
    requires s.phase.Failing?
  {
    var t := Cancelled(s, s.phase.info.error);
    if policy.None? || s.phase.info.allowReconnect == Some(false) then GivenUp(t)
    else
      var delay := Answer(policy, s.outage + 1, 0);
      var u := t.(outage := s.outage + 1, asked := [0], slept := [], attempts := 0);
      if delay.None? then GivenUp(u)
      else u.(state := Reconnecting, log := s.log + [OnReconnecting], phase := Announced, slept := [delay.value])
  }

  function Attempted(s: System, ok: bool, policy: Policy): System
  {
    var t := s.(attempts := s.attempts + 1);
    if ok then t.(state := Connected, log := s.log + [OnReconnected], phase := Listening)
    else
      var count := |s.slept|;
      var delay := Answer(policy, s.outage, count);
      var u := t.(asked := s.asked + [count]);
      if delay.None? then GivenUp(u)
      else u.(slept := s.slept + [delay.value], phase := Sleeping)
  }

  function Next(s: System, step: Step, policy: Policy): System
    requires Enabled(s, step)
  {
    match step
    case Start => s.(phase := Listening, state := Connected, closing := false, started := true,
        log := s.log + [Started])
    case BeginClose => s.(state := Disconnecting, closing := true, closes := s.closes + 1)
    case EndClose(ok) =>
      var t := Cancelled(s, None).(phase := Ended, closes := s.closes - 1);
      if ok then Closed(t.(state := Disconnected)) else t
    case StopSeen => s.(phase := Ended)
    case EventsEnd => s.(phase := Ended)
    case Event(info, resumable) =>
      if s.closing then s.(phase := Ended)
      else if info.dropped && resumable then s.(phase := Resuming(info))
      else s.(phase := Failing(info))
    case ResumeDone(ok) => s.(phase := if ok then Listening else Failing(s.phase.info))
    case Fail => Failed(s, policy)
    case Proceed => s.(phase := if s.closing || s.state != Reconnecting then Ended else Sleeping)
    case Wake => s.(phase := if s.closing || s.state != Reconnecting then Listening else Trying)
    case Attempt(ok) => Attempted(s, ok, policy)
    case Use(op) => s.(table := PendingTable.Apply(s.table, op))
  }

  function Run(s: System, steps: seq<Step>, policy: Policy): System
    decreases |steps|
  {
    if steps == [] then s
    else Run(if Enabled(s, steps[0]) then Next(s, steps[0], policy) else s, steps[1..], policy)
  }

  // ---- the grammar of callbacks -------------------------------------------------------------

  /** Per start: pairs of reconnecting and reconnected, then at most one reconnecting left alone,
      then one closed, before anything is started again. */
  datatype Grammar = NotStarted | Up | Down | Over | Wrong

  function Read(log: seq<Callback>): Grammar
  {
    if log == [] then NotStarted
    else
      var before := Read(log[..|log| - 1]);
      match log[|log| - 1]
      case Started => if before == NotStarted || before == Over then Up else Wrong
      case OnReconnecting => if before == Up then Down else Wrong
      case OnReconnected => if before == Down then Up else Wrong
      case OnClosed => if before == Up || before == Down then Over else Wrong
  }

  lemma ReadMore(log: seq<Callback>, c: Callback)
    ensures var before := Read(log);
            Read(log + [c]) ==
            match c
            case Started => if before == NotStarted || before == Over then Up else Wrong
            case OnReconnecting => if before == Up then Down else Wrong
            case OnReconnected => if before == Down then Up else Wrong
            case OnClosed => if before == Up || before == Down then Over else Wrong
  {
    assert (log + [c])[..|log|] == log;
  }

  /** What the state of the connection says about the callbacks so far. */
  predicate StateTells(s: System)
  {
    var g := Read(s.log);
    && (s.state == Disconnected <==> g == NotStarted || g == Over)
    && (s.state == Connected ==> g == Up)
    && (s.state == Reconnecting ==> g == Down)
    && (s.state == Disconnecting ==> s.closing && (g == Up || g == Down))
  }

  predicate CallbackInv(s: System)
  {
    var g := Read(s.log);
    && g != Wrong && StateTells(s)
    && s.started == (g == Up || g == Down)
    && (!s.phase.Ended? ==> s.started)
    && (s.phase.Listening? && !s.closing ==> g == Up)
    && (s.phase.Resuming? || s.phase.Failing? ==> g == Up)
    && (s.phase.Announced? || s.phase.Sleeping? || s.phase.Trying? ==> g == Down)
    && ((s.phase.Announced? || s.phase.Sleeping? || s.phase.Trying?) && s.state != Reconnecting ==> s.closing)
    && (!s.phase.Ended? && s.closing ==> s.closes > 0)
  }

  lemma CallbackStep(s: System, step: Step, policy: Policy)
    requires CallbackInv(s) && Enabled(s, step)
    ensures CallbackInv(Next(s, step, policy))
  {
    hide Read, Cancelled, PendingTable.Apply;
    CancelledFields(s);
    ReadMore(s.log, Started);
    ReadMore(s.log, OnReconnecting);
    ReadMore(s.log, OnReconnected);
    ReadMore(s.log, OnClosed);
  }

  lemma {:induction false} CallbackRun(s: System, steps: seq<Step>, policy: Policy)
    requires CallbackInv(s)
    ensures CallbackInv(Run(s, steps, policy))
    decreases |steps|
  {
    hide CallbackInv, Next;
    if steps != [] {
      if Enabled(s, steps[0]) {
        CallbackStep(s, steps[0], policy);
        CallbackRun(Next(s, steps[0], policy), steps[1..], policy);
      } else {
        CallbackRun(s, steps[1..], policy);
      }
    }
  }

  /** In every run, whatever the policy, the server and the callers of `start` and `close` do, the
      callbacks follow the grammar, and the state tells where in it they are: the connection is
      Disconnected if and only if nothing was started or the closed callback has come, Connected
      only after a start or a reconnected, Reconnecting only after a reconnecting. A supervisor at
      work sees the closing flag only while a close is under way. */
  lemma CallbacksFollowTheGrammar(steps: seq<Step>, policy: Policy)
    ensures var s := Run(Initial, steps, policy);
            && Read(s.log) != Wrong
            && (s.state == Disconnected <==> Read(s.log) == NotStarted || Read(s.log) == Over)
            && (s.state == Connected ==> Read(s.log) == Up)
            && (s.state == Reconnecting ==> Read(s.log) == Down)
            && (s.state == Disconnecting ==> s.closing)
            && s.started == (Read(s.log) == Up || Read(s.log) == Down)
            && (s.state == Disconnected ==> s.phase.Ended?)
            && (!s.phase.Ended? && s.closing ==> s.closes > 0)
  {
    assert CallbackInv(Initial);
    CallbackRun(Initial, steps, policy);
  }

  // ---- what an outage does to the application -----------------------------------------------

  /** What a step does to the pending invocations: only giving up on a transport and closing cancel
      them, a resume does nothing. */
  function TableOp(s: System, step: Step): seq<PendingTable.Op>
    requires Enabled(s, step)
  {
    match step
    case Use(op) => [op]
    case Fail => [PendingTable.CancelWith(s.phase.info.error)]
    case EndClose(_) => [PendingTable.CancelWith(None)]
    case _ => []
  }

  /** An outage is announced when there is a policy, the server allows it, and the policy answers. */
  predicate Announces(s: System, step: Step, policy: Policy)
    requires Enabled(s, step)
  {
    step.Fail? && s.phase.info.allowReconnect != Some(false) && Answer(policy, s.outage + 1, 0).Some?
  }

  /** What a run does, step by step. */
  function TableOps(s: System, steps: seq<Step>, policy: Policy): seq<PendingTable.Op>
    decreases |steps|
  {
    if steps == [] then []
    else if Enabled(s, steps[0]) then
      TableOp(s, steps[0]) + TableOps(Next(s, steps[0], policy), steps[1..], policy)
    else TableOps(s, steps[1..], policy)
  }

  function Announcements(s: System, steps: seq<Step>, policy: Policy): nat
    decreases |steps|
  {
    if steps == [] then 0
    else if Enabled(s, steps[0]) then
      (if Announces(s, steps[0], policy) then 1 else 0) + Announcements(Next(s, steps[0], policy), steps[1..], policy)
    else Announcements(s, steps[1..], policy)
  }

  function Count(log: seq<Callback>, c: Callback): nat
  {
    if log == [] then 0 else Count(log[..|log| - 1], c) + if log[|log| - 1] == c then 1 else 0
  }

  lemma CountMore(log: seq<Callback>, last: Callback, c: Callback)
    ensures Count(log + [last], c) == Count(log, c) + if last == c then 1 else 0
  {
    assert (log + [last])[..|log|] == log;
  }

  lemma StepDoes(s: System, step: Step, policy: Policy)
    requires Enabled(s, step)
    ensures Next(s, step, policy).table == PendingTable.Run(s.table, TableOp(s, step))
    ensures Count(Next(s, step, policy).log, OnReconnecting)
            == Count(s.log, OnReconnecting) + if Announces(s, step, policy) then 1 else 0
  {
    hide Next, TableOp, Announces, Count, PendingTable.Run;
    TableStep(s, step, policy);
    LogStep(s, step, policy);
  }

  lemma LogStep(s: System, step: Step, policy: Policy)
    requires Enabled(s, step)
    ensures Count(Next(s, step, policy).log, OnReconnecting)
            == Count(s.log, OnReconnecting) + if Announces(s, step, policy) then 1 else 0
  {
    hide Count, Cancelled, PendingTable.Apply;
    CancelledFields(s);
    CountMore(s.log, Started, OnReconnecting);
    CountMore(s.log, OnReconnecting, OnReconnecting);
    CountMore(s.log, OnReconnected, OnReconnecting);
    CountMore(s.log, OnClosed, OnReconnecting);
  }

  lemma CancelledFields(s: System)
    ensures forall e :: Cancelled(s, e) == s.(table := Cancelled(s, e).table)
  {
  }

  lemma TableStep(s: System, step: Step, policy: Policy)
    requires Enabled(s, step)
    ensures Next(s, step, policy).table == PendingTable.Run(s.table, TableOp(s, step))
  {
    hide PendingTable.Apply, PendingTable.CancelWith;
    if TableOp(s, step) != [] {
      PendingTable.RunSingle(s.table, TableOp(s, step)[0]);
    }
    PendingTable.RunNothing(s.table);
    hide PendingTable.Run;
  }

  /** In every run, whatever interleaves: the pending invocations see the operations of callers and
      messages, one cancellation for every outage that was not resumed and for every close, and
      nothing else; and the application is told of reconnecting once per announced outage. */
  lemma {:induction false} RunDoes(s: System, steps: seq<Step>, policy: Policy)
    ensures Run(s, steps, policy).table == PendingTable.Run(s.table, TableOps(s, steps, policy))
    ensures Count(Run(s, steps, policy).log, OnReconnecting)
            == Count(s.log, OnReconnecting) + Announcements(s, steps, policy)
    decreases |steps|
  {
    hide Next, TableOp, Announces, Count, PendingTable.Run;
    PendingTable.RunNothing(s.table);
    if steps != [] {
      if Enabled(s, steps[0]) {
        var t := Next(s, steps[0], policy);
        StepDoes(s, steps[0], policy);
        RunDoes(t, steps[1..], policy);
        PendingTable.RunAppend(s.table, TableOp(s, steps[0]), TableOps(t, steps[1..], policy));
      } else {
        RunDoes(s, steps[1..], policy);
      }
    }
  }

  /** A caller that waits when a run begins gets what it is owed for those operations. */
  lemma CallersThroughOutages(s: System, steps: seq<Step>, policy: Policy, id: HubMessage.Text)
    requires PendingTable.Inv(s.table) && id in s.table.pending
    ensures var p, t := s.table.pending[id], Run(s, steps, policy).table;
            && p.handle < |s.table.outputs| <= |t.outputs|
            && t.outputs[p.handle]
               == PendingTable.Then(s.table.outputs[p.handle],
                                    PendingTable.Owed(p.kind, id, TableOps(s, steps, policy)))
  {
    RunDoes(s, steps, policy);
    PendingTable.RunOwes(s.table, TableOps(s, steps, policy), id, s.table.pending[id].handle);
  }

  /** Every loss of this part of a run is resumed, and nobody starts or closes. */
  predicate OnlyResumed(steps: seq<Step>)
  {
    forall i | 0 <= i < |steps| ::
      match steps[i]
      case Event(info, resumable) => info.dropped && resumable
      case ResumeDone(ok) => ok
      case Start => false
      case BeginClose => false
      case EndClose(_) => false
      case _ => true
  }

  /** What callers and messages did in the meantime. */
  function Used(steps: seq<Step>): seq<PendingTable.Op>
  {
    if steps == [] then []
    else (if steps[0].Use? then [steps[0].op] else []) + Used(steps[1..])
  }

  predicate Calm(s: System)
  {
    s.phase.Ended? || s.phase.Listening? || s.phase.Resuming?
  }

  lemma CalmStep(s: System, step: Step, policy: Policy)
    requires Calm(s) && Enabled(s, step) && OnlyResumed([step])
    ensures var t := Next(s, step, policy);
            && Calm(t) && t == s.(phase := t.phase, table := t.table)
            && TableOp(s, step) == if step.Use? then [step.op] else []
  {
    assert [step][0] == step;
    hide PendingTable.Apply;
  }

  /** Any number of resumed outages, interleaved with anything: state, callbacks, retries and flags are
      unchanged, and the pending invocations are where the operations of callers and messages
      alone have brought them. */
  lemma {:induction false} ResumeIsInvisible(s: System, steps: seq<Step>, policy: Policy)
    requires Calm(s) && OnlyResumed(steps)
    ensures var t := Run(s, steps, policy);
            && Calm(t) && t == s.(phase := t.phase, table := t.table)
            && t.table == PendingTable.Run(s.table, Used(steps))
    decreases |steps|
  {
    CalmOps(s, steps, policy);
    RunDoes(s, steps, policy);
    hide PendingTable.Run;
  }

  lemma {:induction false} CalmOps(s: System, steps: seq<Step>, policy: Policy)
    requires Calm(s) && OnlyResumed(steps)
    ensures var t := Run(s, steps, policy);
            Calm(t) && t == s.(phase := t.phase, table := t.table) && TableOps(s, steps, policy) == Used(steps)
    decreases |steps|
  {
    hide Next, TableOp, Enabled;
    if steps != [] {
      var step := steps[0];
      assert forall i | 0 <= i < |steps[1..]| :: steps[1..][i] == steps[i + 1];
      assert OnlyResumed(steps[1..]) && OnlyResumed([step]);
      if Enabled(s, step) {
        CalmStep(s, step, policy);
        CalmOps(Next(s, step, policy), steps[1..], policy);
      } else {
        AlwaysUsable(s, step);
        CalmOps(s, steps[1..], policy);
      }
    }
  }

  lemma AlwaysUsable(s: System, step: Step)
    ensures step.Use? ==> Enabled(s, step)
  {
  }

  // ---- a close that fails -------------------------------------------------------------------

  /** No task is left that could change the state, and neither `start` nor `close` will. */
  predicate Stuck(s: System)
  {
    s.phase.Ended? && s.state == Disconnecting && s.closes == 0
  }

  lemma StuckStep(s: System, step: Step, policy: Policy)
    requires Stuck(s) && Enabled(s, step)
    ensures step.Use? && Next(s, step, policy) == s.(table := PendingTable.Run(s.table, [step.op]))
  {
    hide PendingTable.Apply;
    PendingTable.RunSingle(s.table, step.op);
  }

  lemma {:induction false} StuckRun(s: System, steps: seq<Step>, policy: Policy)
    requires Stuck(s)
    ensures Run(s, steps, policy) == s.(table := PendingTable.Run(s.table, Used(steps)))
    decreases |steps|
  {
    hide Next, Enabled, PendingTable.Run;
    PendingTable.RunNothing(s.table);
    if steps != [] {
      AlwaysUsable(s, steps[0]);
      if Enabled(s, steps[0]) {
        StuckStep(s, steps[0], policy);
        StuckRun(Next(s, steps[0], policy), steps[1..], policy);
        PendingTable.RunAppend(s.table, [steps[0].op], Used(steps[1..]));
      } else {
        StuckRun(s, steps[1..], policy);
        assert Used(steps) == Used(steps[1..]);
      }
    }
  }

  /** When the only close under way fails to shut the transport down, the pending invocations are
      cancelled as always, but whatever is called or happens afterwards, the connection stays
      Disconnecting for ever, and no callback comes. */
  lemma FailedCloseIsFinal(s: System, steps: seq<Step>, policy: Policy)
    requires s.state == Disconnecting && s.closes == 1
    ensures var t := Run(s, [EndClose(false)] + steps, policy);
            && t.state == Disconnecting && t.phase.Ended? && t.closes == 0
            && t.log == s.log && t.started == s.started
            && t.table == PendingTable.Run(s.table, [PendingTable.CancelWith(None)] + Used(steps))
  {
    hide PendingTable.Apply, PendingTable.CancelWith, PendingTable.Run;
    var all := [EndClose(false)] + steps;
    assert all[0] == EndClose(false) && all[1..] == steps;
    StepDoes(s, EndClose(false), policy);
    StuckRun(Next(s, EndClose(false), policy), steps, policy);
    PendingTable.RunAppend(s.table, [PendingTable.CancelWith(None)], Used(steps));
  }

  // ---- retries ------------------------------------------------------------------------------

  /** Counts 0, 1, 2, … have been asked; every delay waited is the policy's answer to its count;
      each wait but the last was followed by an attempt. */
  ghost predicate RetryInv(s: System, policy: Policy)
  {
    OutageInv(s.phase, s.outage, s.asked, s.slept, s.attempts, policy)
  }

  ghost predicate OutageInv(phase: Phase, outage: nat, asked: seq<nat>, slept: seq<Delay>, attempts: nat,
      policy: Policy)
  {
    && (forall i | 0 <= i < |asked| :: asked[i] == i)
    && (forall i | 0 <= i < |slept| :: Answer(policy, outage, i) == Some(slept[i]))
    && attempts <= |slept| <= |asked| <= |slept| + 1
    && (phase.Announced? || phase.Sleeping? || phase.Trying? ==> |asked| == |slept| == attempts + 1)
    && (|asked| == |slept| + 1 ==>
          attempts == |slept| && Answer(policy, outage, |slept|).None?)
  }

  lemma OutageBegins(outage: nat, delay: Option<Delay>, policy: Policy)
    requires Answer(policy, outage, 0) == delay
    ensures delay.None? ==> OutageInv(Ended, outage, [0], [], 0, policy)
    ensures delay.Some? ==> OutageInv(Announced, outage, [0], [delay.value], 0, policy)
  {
  }

  lemma AttemptFails(outage: nat, asked: seq<nat>, slept: seq<Delay>, attempts: nat, delay: Option<Delay>,
      policy: Policy)
    requires OutageInv(Trying, outage, asked, slept, attempts, policy)
    requires delay == Answer(policy, outage, |slept|)
    ensures delay.None? ==> OutageInv(Ended, outage, asked + [|slept|], slept, attempts + 1, policy)
    ensures delay.Some? ==> OutageInv(Sleeping, outage, asked + [|slept|], slept + [delay.value], attempts + 1, policy)
  {
    var counts := asked + [|slept|];
    assert forall i | 0 <= i < |counts| :: counts[i] == i;
    if delay.Some? {
      var more := slept + [delay.value];
      assert forall i | 0 <= i < |more| :: Answer(policy, outage, i) == Some(more[i]);
    }
  }

  lemma OtherPhase(phase: Phase, next: Phase, outage: nat, asked: seq<nat>, slept: seq<Delay>, attempts: nat,
      policy: Policy)
    requires OutageInv(phase, outage, asked, slept, attempts, policy)
    ensures next.Ended? || next.Listening? || next.Resuming? || next.Failing? ==>
              OutageInv(next, outage, asked, slept, attempts, policy)
    ensures (phase.Announced? || phase.Sleeping?) && (next.Sleeping? || next.Trying?) ==>
              OutageInv(next, outage, asked, slept, attempts, policy)
    ensures phase.Trying? ==> OutageInv(Listening, outage, asked, slept, attempts + 1, policy)
  {
  }

  lemma RetryStep(s: System, step: Step, policy: Policy)
    requires RetryInv(s, policy) && Enabled(s, step)
    ensures RetryInv(Next(s, step, policy), policy)
  {
    hide OutageInv, Cancelled, PendingTable.Apply;
    CancelledFields(s);
    var t := Next(s, step, policy);
    OtherPhase(s.phase, t.phase, s.outage, s.asked, s.slept, s.attempts, policy);
    if step.Fail? && policy.Some? {
      OutageBegins(s.outage + 1, Answer(policy, s.outage + 1, 0), policy);
    } else if step.Attempt? {
      AttemptFails(s.outage, s.asked, s.slept, s.attempts,
                   Answer(policy, s.outage, |s.slept|), policy);
    }
  }

  lemma {:induction false} RetryRun(s: System, steps: seq<Step>, policy: Policy)
    requires RetryInv(s, policy)
    ensures RetryInv(Run(s, steps, policy), policy)
    decreases |steps|
  {
    hide RetryInv, Next;
    if steps != [] {
      if Enabled(s, steps[0]) {
        RetryStep(s, steps[0], policy);
        RetryRun(Next(s, steps[0], policy), steps[1..], policy);
      } else {
        RetryRun(s, steps[1..], policy);
      }
    }
  }

  /** The list policy, in every outage. */
  ghost predicate IsList(policy: Policy, delays: seq<Delay>)
  {
    policy.Some? && forall o, n :: policy.value(o, n) == NextRetryDelay(PolicyDelays(delays), n)
  }

  /** In every run with a list of delays: the delays waited in an outage are the beginning of the
      list, in order; and an outage in which the policy has run out, so that the connection was
      given up, saw exactly one attempt per delay. */
  lemma ListPolicyRuns(steps: seq<Step>, policy: Policy, delays: seq<Delay>)
    requires IsList(policy, delays)
    ensures var s := Run(Initial, steps, policy);
            && |s.slept| <= |delays| && s.slept == delays[..|s.slept|]
            && (forall i | 0 <= i < |s.asked| :: s.asked[i] == i)
            && (|s.asked| > |s.slept| ==> s.attempts == |delays| && s.slept == delays)
  {
    hide PolicyDelays, NextRetryDelay, Run;
    assert RetryInv(Initial, policy);
    RetryRun(Initial, steps, policy);
    var s := Run(Initial, steps, policy);
    forall i | 0 <= i < |s.slept| ensures i < |delays| && s.slept[i] == delays[i] {
      ListPolicy(delays, i);
      assert policy.value(s.outage, i) == NextRetryDelay(PolicyDelays(delays), i);
      assert Answer(policy, s.outage, i) == Some(s.slept[i]);
    }
    if s.slept != [] {
      var last := |s.slept| - 1;
      assert s.slept[last] in s.slept;
      assert last < |delays|;
    }
    ListPolicy(delays, |s.slept|);
  }

  // ---- a whole outage -----------------------------------------------------------------------

  /** Waking and trying, until as many attempts as there can be. */
  function Tries(succeeds: nat -> bool, k: nat, n: nat): seq<Step>
    requires k <= n
    decreases n - k
  {
    if k == n then [] else [Wake] + ([Attempt(succeeds(k))] + Tries(succeeds, k + 1, n))
  }

  function FirstSuccess(succeeds: nat -> bool, k: nat, n: nat): (j: nat)
    requires k <= n
    ensures k <= j <= n && (j < n ==> succeeds(j))
    ensures forall i: nat | k <= i < j :: !succeeds(i)
    decreases n - k
  {
    if k == n || succeeds(k) then k else FirstSuccess(succeeds, k + 1, n)
  }

  lemma RunStep(s: System, step: Step, rest: seq<Step>, policy: Policy)
    ensures Run(s, [step] + rest, policy)
            == Run(if Enabled(s, step) then Next(s, step, policy) else s, rest, policy)
    ensures Run(s, [], policy) == s
  {
    assert ([step] + rest)[0] == step && ([step] + rest)[1..] == rest;
  }

  predicate AtRest(s: System)
  {
    s.phase.Ended? || s.phase.Listening?
  }

  /** Once an outage is over the remaining attempts are not made. */
  lemma {:induction false} TriesIdle(s: System, succeeds: nat -> bool, k: nat, n: nat, policy: Policy)
    requires AtRest(s) && k <= n
    ensures Run(s, Tries(succeeds, k, n), policy) == s
    decreases n - k
  {
    hide Run, Next;
    RunStep(s, Wake, [], policy);
    if k < n {
      var rest := Tries(succeeds, k + 1, n);
      RunStep(s, Wake, [Attempt(succeeds(k))] + rest, policy);
      RunStep(s, Attempt(succeeds(k)), rest, policy);
      TriesIdle(s, succeeds, k + 1, n, policy);
    }
  }

  /** The supervisor waits before attempt `k`, and nobody interferes. */
  predicate Retrying(s: System, delays: seq<Delay>, k: nat)
  {
    && s.phase.Sleeping? && s.state == Reconnecting && !s.closing && s.started
    && k < |delays| && s.attempts == k && s.slept == delays[..k + 1]
  }

  /** The outage ended: with attempt `j`, or given up when the delays were used up. */
  predicate Settled(t: System, table: PendingTable.Table, log: seq<Callback>, j: nat, delays: seq<Delay>)
  {
    && t.table == table
    && (j < |delays| ==>
          && t.state == Connected && t.phase.Listening? && t.started
          && t.log == log + [OnReconnected] && t.attempts == j + 1 && t.slept == delays[..j + 1])
    && (j >= |delays| ==>
          && t.state == Disconnected && t.phase.Ended? && !t.started
          && t.log == log + [OnClosed] && t.attempts == |delays| && t.slept == delays)
  }

  lemma OneTry(s: System, ok: bool, k: nat, policy: Policy, delays: seq<Delay>)
    requires Retrying(s, delays, k) && IsList(policy, delays)
    ensures Enabled(s, Wake)
    ensures var w := Next(s, Wake, policy);
            && Enabled(w, Attempt(ok))
            && var t := Next(w, Attempt(ok), policy);
               && t.table == s.table
               && (ok ==> Settled(t, s.table, s.log, k, delays))
               && (!ok && k + 1 == |delays| ==> Settled(t, s.table, s.log, k + 1, delays))
               && (!ok && k + 1 < |delays| ==> Retrying(t, delays, k + 1) && t.log == s.log)
  {
    ListPolicy(delays, k + 1);
    hide PolicyDelays, NextRetryDelay;
    assert policy.value(s.outage, k + 1) == NextRetryDelay(PolicyDelays(delays), k + 1);
    if k + 1 < |delays| {
      assert delays[..k + 1] + [delays[k + 1]] == delays[..k + 2];
    } else {
      assert delays[..k + 1] == delays;
    }
  }

  lemma {:induction false} TriesLead(s: System, succeeds: nat -> bool, k: nat, policy: Policy, delays: seq<Delay>)
    requires Retrying(s, delays, k) && IsList(policy, delays)
    ensures Settled(Run(s, Tries(succeeds, k, |delays|), policy), s.table, s.log,
                    FirstSuccess(succeeds, k, |delays|), delays)
    decreases |delays| - k
  {
    hide Run, Next, Enabled, IsList;
    var ok, rest := succeeds(k), Tries(succeeds, k + 1, |delays|);
    OneTry(s, ok, k, policy, delays);
    var w := Next(s, Wake, policy);
    var t := Next(w, Attempt(ok), policy);
    RunStep(s, Wake, [Attempt(ok)] + rest, policy);
    RunStep(w, Attempt(ok), rest, policy);
    if ok || k + 1 == |delays| {
      TriesIdle(t, succeeds, k + 1, |delays|, policy);
    } else {
      TriesLead(t, succeeds, k + 1, policy, delays);
    }
  }

  /** An event from the transport, and everything the supervisor does about it. */
  function Outage(info: CloseInfo, resumable: bool, resumed: bool, succeeds: nat -> bool, n: nat): seq<Step>
  {
    [Event(info, resumable)] + ([ResumeDone(resumed)] + ([Fail] + ([Proceed] + Tries(succeeds, 0, n))))
  }

  /** The supervisor up to its first wait. */
  lemma OutageOpens(s: System, info: CloseInfo, resumable: bool, resumed: bool, succeeds: nat -> bool, n: nat,
                    policy: Policy)
    requires s.phase.Listening? && !s.closing
    ensures var t := if info.dropped && resumable && resumed then s
                     else Failed(s.(phase := Failing(info)), policy);
            var all, tries := Outage(info, resumable, resumed, succeeds, n), Tries(succeeds, 0, n);
            && (AtRest(t) ==> Run(s, all, policy) == Run(t, tries, policy))
            && (t.phase.Announced? ==> Run(s, all, policy) == Run(Next(t, Proceed, policy), tries, policy))
  {
    hide Run, Failed;
    var tries := Tries(succeeds, 0, n);
    var e, r := Event(info, resumable), ResumeDone(resumed);
    var s1 := Next(s, e, policy);
    var s2 := if Enabled(s1, r) then Next(s1, r, policy) else s1;
    var s3 := if Enabled(s2, Fail) then Next(s2, Fail, policy) else s2;
    RunStep(s, e, [r] + ([Fail] + ([Proceed] + tries)), policy);
    RunStep(s1, r, [Fail] + ([Proceed] + tries), policy);
    RunStep(s2, Fail, [Proceed] + tries, policy);
    RunStep(s3, Proceed, tries, policy);
  }

  /** The connection was given up without a retry. */
  predicate GaveUp(t: System, table: PendingTable.Table, log: seq<Callback>)
  {
    t.table == table && t.state == Disconnected && t.phase.Ended? && !t.started && t.log == log + [OnClosed]
  }

  /** What failing does: nothing is left of the event but its error and its permission. */
  lemma FailedLeads(s: System, info: CloseInfo, policy: Policy, delays: seq<Delay>)
    requires s.phase.Listening? && !s.closing && s.started
    requires policy.Some? ==> IsList(policy, delays)
    ensures var f := Failed(s.(phase := Failing(info)), policy);
            var table := PendingTable.Cancelled(s.table, PendingTable.CancelWith(info.error).error);
            if policy.None? || info.allowReconnect == Some(false) || delays == [] then GaveUp(f, table, s.log)
            else
              && f.phase.Announced? && Retrying(Next(f, Proceed, policy), delays, 0)
              && Next(f, Proceed, policy).table == table && Next(f, Proceed, policy).log == s.log + [OnReconnecting]
  {
    hide PendingTable.Cancelled, PendingTable.CancelWith, PolicyDelays, NextRetryDelay;
    ListPolicy(delays, 0);
    if policy.Some? {
      assert policy.value(s.outage + 1, 0) == NextRetryDelay(PolicyDelays(delays), 0);
      assert delays != [] ==> delays[..1] == [delays[0]];
    }
  }

  /** What an event leads to when nobody interferes. A dropped transport that can be resumed and is leaves
      everything as it was. Otherwise all pending invocations fail with the error of the event, and
      without a policy, without the server's permission or without delays the connection is
      closed; else the application hears of reconnecting, the delays of the list are waited for
      one by one, and the first attempt that succeeds makes the connection Connected again, or
      the last that fails closes it. */
  lemma OutageRuns(s: System, info: CloseInfo, resumable: bool, resumed: bool, succeeds: nat -> bool,
                   policy: Policy, delays: seq<Delay>)
    requires s.phase.Listening? && !s.closing && s.started
    requires policy.Some? ==> IsList(policy, delays)
    ensures var t := Run(s, Outage(info, resumable, resumed, succeeds, |delays|), policy);
            var table := PendingTable.Cancelled(s.table, PendingTable.CancelWith(info.error).error);
            if info.dropped && resumable && resumed then t == s
            else if policy.None? || info.allowReconnect == Some(false) || delays == [] then GaveUp(t, table, s.log)
            else
              Settled(t, table, s.log + [OnReconnecting], FirstSuccess(succeeds, 0, |delays|), delays)
  {
    hide Run, Next, Settled, Tries, Failed, Outage, Retrying, IsList, FirstSuccess, PendingTable.Cancelled,
      PendingTable.CancelWith;
    OutageOpens(s, info, resumable, resumed, succeeds, |delays|, policy);
    FailedLeads(s, info, policy, delays);
    var f := Failed(s.(phase := Failing(info)), policy);
    if info.dropped && resumable && resumed {
      TriesIdle(s, succeeds, 0, |delays|, policy);
    } else if policy.None? || info.allowReconnect == Some(false) || delays == [] {
      TriesIdle(f, succeeds, 0, |delays|, policy);
    } else {
      TriesLead(Next(f, Proceed, policy), succeeds, 0, policy, delays);
    }
  }

  /** Whatever came before, a start is followed by a first outage in this way: the connection is
      supervised, and no earlier close is mistaken for a new one. */
  lemma FirstOutageRuns(s: System, info: CloseInfo, resumable: bool, resumed: bool, succeeds: nat -> bool,
                        policy: Policy, delays: seq<Delay>)
    requires s.state == Disconnected && (policy.Some? ==> IsList(policy, delays))
    ensures var t := Run(s, [Start] + Outage(info, resumable, resumed, succeeds, |delays|), policy);
            var table := PendingTable.Cancelled(s.table, PendingTable.CancelWith(info.error).error);
            if info.dropped && resumable && resumed then
              t.state == Connected && t.phase.Listening? && t.table == s.table && t.log == s.log + [Started]
            else if policy.None? || info.allowReconnect == Some(false) || delays == [] then
              GaveUp(t, table, s.log + [Started])
            else
              Settled(t, table, s.log + [Started] + [OnReconnecting], FirstSuccess(succeeds, 0, |delays|), delays)
  {
    var u := Next(s, Start, policy);
    assert u.phase.Listening? && !u.closing && u.started && u.state == Connected;
    assert u.table == s.table && u.log == s.log + [Started];
    hide Run, Next, Settled, GaveUp, Outage, IsList, FirstSuccess, PendingTable.Cancelled, PendingTable.CancelWith;
    RunStep(s, Start, Outage(info, resumable, resumed, succeeds, |delays|), policy);
    OutageRuns(u, info, resumable, resumed, succeeds, policy, delays);
  }
}
