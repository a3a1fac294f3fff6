# Verified model of the signalrr client

This project models the parts of the signalrr SignalR client where correctness is hard to see
from the code, and proves what they promise for all inputs and all runs. `dafny verify
dfyconfig.toml` checks everything.

**Stateful reconnect** (`BufferModel`, `MessageBuffer`, `Protocol*`). One end is a buffer that
numbers outgoing messages, keeps them until they are acknowledged, holds callers back when it is
full, and counts and deduplicates what comes in. `MessageBuffer` is the class with the source's
fields; each method is tied to a function of `BufferModel`. `Protocol` joins two mirrored ends by
transports named by an epoch. Submitting, writing, failing writes, noticing a loss, reopening,
resending (also partly), reading, the acknowledgement timer with its captured transport, keep-alives
and the death of either direction at any point interleave freely, and the two ends may sit on
different transports for any length of time. No id travels with a message, so the proof rests on one
invariant that links both counters, the buffer, the writes in flight and every unread frame.
`ProtocolTheorems`, `ProtocolRecovery` and `ProtocolCompleteness` draw the conclusions; `ProtocolStranded`
and `ProtocolLimits` prove what happens, in every world, where delivery is not complete or in order.

**Wire codec** (`BinaryFraming`, `TextFraming`, `MessagePack`, `LazyDecode`, `MessageDecode`,
`ValueConversion`, `PlainCodec`, `BrotliCodec`, `HubProtocol`, `HubRoundTrip`, `HubCompression`, `HubLayout`).
Length-prefixed frames, a reference decoder for the formats of the MessagePack specification (section
"Formats"), the skipper that passes over values without decoding them, the lazy decoding of a message
array, and the writers and parsers of both MessagePack hub protocols. `HubLayout` says, position by
position, what a peer finds in a written frame and what any received frame means.

**Send queue** (`SendQueue`, `SendQueueOrder`, `SendQueueTheorems`, `SendWorker`). The batching worker
as a state machine whose steps interleave with arrivals in any way, and the loop itself as a class.

**Smaller machines.** The table of pending invocations (`PendingTable`, `MessageBus`), the fold over
handler results (`Dispatch`), the negotiate loop (`Negotiate`) and the reconnect supervisor among
`start` and `close` (`Supervisor`).

## What the code does not guarantee

Each of these is a lemma with the condition that decides it, or with a run that shows it.

- Sends may overlap between the release of the buffer lock and the write
  (`src/hub_connection/message_buffer.rs:102-105`). Delivery is proved for any overlap in which the
  writes that reach an open transport keep the order of buffering, which is what the FIFO of the send
  queue gives them once they are in it (`Orderly`); writes fail, and failures are noticed, in any
  order. Whenever a later send is written to an open transport first, a peer that reads on, now or
  once it has reached that transport, processes it in the place of the first, and the result is a
  prefix of what was submitted if and only if the two messages are equal (`OvertakingCorrupts`;
  `OverlappingSendsCorrupt` is a complete run). Any other peer that has not left the transport behind
  processes nothing (`OtherwiseStranded`). The comment at line 73 promises more than the code does:
  only the decision to send is made under the lock.
- Client results bypass the buffer (`src/hub_connection/dispatch.rs:215-224`) although the peer counts
  them: each takes the id of the next message the sender writes (`BypassShiftsNumbering`), which can
  then be lost as a duplicate (`BypassLosesAMessage`). They are excluded from the counted traffic.
- When both ends are connected and a direction is drained, the reader has processed everything unless
  it is late: from noticing a loss between reading the Sequence of a reopened transport and resending
  over it, until it reopens again. A late reader, and no other, still waits, and has processed exactly
  what it had at that loss (`ConnectedAndDrainedIsComplete`, for every orderly run). More generally a
  loss noticed by an end that is not waiting means that it processes nothing more until it reopens,
  in every continuation (`NothingUntilReopen`, `LateLossIsIncomplete`; `LateFailureStrands` is a
  complete run).
- A scheduled acknowledgement keeps the transport it captured until it fires, and blocks any other until
  then (`TimerKeepsItsTransport`). So after a reopen nothing is acknowledged on the new transport
  before an old timer has fired and another message has come; recovery is proved with the old timers
  firing first (`EveryWorldRecovers`).
- A `close` that fails to shut the transport down leaves the connection in the state Disconnecting for
  ever, without the closed callback: `start` is refused and a later `close` waits for a signal that
  never comes (`FailedCloseIsFinal`).
- A request to stop the send queue ends the worker if and only if the worker is not draining and
  nothing is queued when it is made (`StopEndsTheWorkerIff`). Otherwise `stop` waits for ever, and a
  caller can be told that its send failed although it was written (`StopCanHang`).
- One message whose arguments are nested too deeply loses every message it shares a transport frame
  with (`StreamComesBack`), so batching is visible above the level of framing.
- Compressed arguments are not subject to the nesting limit, uncompressed ones are
  (`CompressionIsInvisible` states the exact condition).
- A completion that carries an error and a result loses the result, and a written close message
  loses its fields (`ReceivedUnchanged`).
- Invocation ids restart with each runtime while pending entries survive a resume; when an id is used
  again the first caller gets nothing and the second one its result (`ReusedIdCrosses`).

## Model

| member | source | states |
|---|---|---|
| BufferModel.SubmittedValid | src/hub_connection/message_buffer.rs:77-100 | buffering a message keeps contiguous ids, exact byte count and ordered waiters; a backpressure receiver is handed out exactly when the buffer is now full |
| BufferModel.AckedValid | src/hub_connection/message_buffer.rs:114-138 | acknowledging any id keeps the invariant, drops exactly the covered prefix, never saturates the byte counter, and once there is room leaves no waiter unsignalled |
| BufferModel.AckedItems | src/hub_connection/message_buffer.rs:119-137 | exactly the messages up to the id are covered and their waiters signalled; the others keep id and content, and their waiters if and only if the buffer is still full |
| MessageBuffers.MessageBuffer.Send | src/hub_connection/message_buffer.rs:61-112 | a message that cannot be serialized changes nothing; only invocation messages are buffered and numbered; the message goes out unless a reconnect is in progress; a failed write marks the connection lost but leaves the message buffered |
| MessageBuffers.MessageBuffer.Acknowledge | src/hub_connection/message_buffer.rs:114-138 | the scan with its early exit followed by the retain has the effect of the acknowledgement function, for every id |
| MessageBuffers.MessageBuffer.Release | src/hub_connection/message_buffer.rs:119-133 | the scan releases the covered items and, while there is room, later waiters, and reports the newest covered id |
| MessageBuffers.MessageBuffer.Retain | src/hub_connection/message_buffer.rs:135-137 | keeps exactly the items above the newest covered id, in order |
| MessageBuffers.MessageBuffer.ShouldProcessMessage | src/hub_connection/message_buffer.rs:140-172 | while a Sequence is awaited nothing else passes; otherwise invocation messages are counted, duplicates refused, and an acknowledgement scheduled at or above the latest id |
| MessageBuffers.MessageBuffer.ResetSequence | src/hub_connection/message_buffer.rs:174-186 | a Sequence is refused if and only if it is above the next expected id, and otherwise sets it and ends the wait |
| MessageBuffers.MessageBuffer.Resend | src/hub_connection/message_buffer.rs:194-220 | writes the Sequence of the oldest buffered id and all buffered messages in order; only a complete resend ends the reconnect |
| MessageBuffers.MessageBuffer.FireAckTimer | src/hub_connection/message_buffer.rs:243-256 | the acknowledgement carries the latest id to the captured transport, unless a reconnect is in progress |
| ProtocolInvariant.NextKeeps | src/hub_connection/message_buffer.rs:61-260 | every step of one end keeps the invariant of both ends and of both directions, with any number of sends in flight that fail in any order |
| ProtocolTheorems.Reachable | src/hub_connection/message_buffer.rs:61-260 | the invariant holds after every orderly run |
| ProtocolTheorems.HistoryIsSubmissions | src/hub_connection/message_buffer.rs:61-112 | what an end has buffered is what its callers submitted, failed sends included |
| ProtocolTheorems.ExactlyOnceInOrder | src/hub_connection/message_buffer.rs:61-220 | across any number of losses and with any overlap of sends, failing and noticed in any order, whose writes to an open transport keep the buffer order, what each end processes is a prefix of what the other submitted: no gap, duplicate or reordering; no Sequence is refused |
| ProtocolTheorems.BufferCoversUndelivered | src/hub_connection/message_buffer.rs:114-138 | the acknowledged count never passes the processed count, and the buffer is exactly the messages after it |
| ProtocolTheorems.DrainedIsComplete | src/hub_connection/message_buffer.rs:194-220 | when the sender has resent and its channel is drained, a receiver that does not wait for a Sequence has processed everything |
| ProtocolTheorems.NeverRefused | src/hub_connection/message_buffer.rs:174-186 | every readable Sequence is at most the id the receiver expects, and every readable acknowledgement lies below it, on all transports |
| ProtocolTheorems.TransmittedAtMostOnce | src/hub_connection/message_buffer.rs:72-109 | on one transport no message is written twice by send or resend, those that reach it come in the order of their ids, and nothing is written to an earlier transport after a later one, for both ends |
| ProtocolTheorems.NoLostWakeup | src/hub_connection/message_buffer.rs:83-138 | in every run at all the byte counter is the sum of the buffered lengths, a pending waiter means a full buffer, and waiters are signalled in order and once |
| ProtocolTheorems.TimerKeepsItsTransport | src/hub_connection/message_buffer.rs:228-259 | in every run at all a scheduled acknowledgement keeps the transport it captured until it fires |
| ProtocolRecovery.EveryWorldRecovers | src/hub_connection/mod.rs:825-859 | from every reachable world, once the old timers have fired and the sends in flight have failed, one reopen and resend on each side and one acknowledgement each way deliver everything ever submitted, in both directions, empty both buffers and signal every caller that was held back |
| ProtocolRecovery.Drain | src/hub_connection/dispatch.rs:32-67 | reading a transport to its end is possible and keeps the connection up |
| ProtocolRecovery.Reconnect | src/hub_connection/mod.rs:825-859 | two ends without sends in flight can reopen on a new transport and resend completely |
| ProtocolRecovery.ReceiveOwes | src/hub_connection/message_buffer.rs:140-172 | reading the newest message of a peer, new or resent, leaves an acknowledgement scheduled for that transport |
| ProtocolRecovery.RoundEmpties | src/hub_connection/message_buffer.rs:114-138 | then one firing of the timer and one read acknowledge every buffered message and release every caller held back |
| ProtocolStranded.NothingUntilReopen | src/hub_connection/message_buffer.rs:104-109 | for every reachable world and orderly continuation: an end that notices a loss while it is not waiting processes nothing more until it reopens |
| ProtocolStranded.LateLossIsIncomplete | src/hub_connection/message_buffer.rs:188-192 | so with anything submitted to it in that time it has not processed everything, whatever is resent or drained |
| ProtocolStranded.StrandedRun | src/hub_connection/message_buffer.rs:140-148 | an end that waits for a Sequence which its transport no longer holds stays so through every step of either end but its own reopen |
| ProtocolCompleteness.RunAccounts | src/hub_connection/message_buffer.rs:140-220 | in every orderly run an end that has still to reach the sender's open, resent transport, or waits there and is not late, has the Sequence ahead of it; a late end waits in vain and has processed what it had at the late loss |
| ProtocolCompleteness.ConnectedAndDrainedIsComplete | src/hub_connection/mod.rs:825-859 | in every orderly run, once both ends are connected and a direction is drained, the reader waits if and only if it is late; if it is not, it has processed everything submitted, and if it is, exactly what it had processed at the late loss |
| ProtocolLimits.OvertakingCorrupts | src/hub_connection/message_buffer.rs:101-109 | in every reachable world where a later send in flight is written first and the peer reads on, at once, after the Sequence ahead of it, or after reopening on that transport, it is processed in the place of the first; the result is a prefix of the submissions if and only if the two messages are equal |
| ProtocolLimits.OtherwiseStranded | src/hub_connection/message_buffer.rs:140-148 | every other peer that has not left that transport behind waits for a Sequence that does not come |
| ProtocolLimits.OverlappingSendsCorrupt | src/hub_connection/message_buffer.rs:101-109 | two overlapping sends: the peer processes the second message twice and never the first |
| ProtocolLimits.BypassShiftsNumbering | src/hub_connection/dispatch.rs:215-224 | every client result a peer reads, whatever is in flight, is processed behind the messages written so far and takes the id of the next one; the result is a prefix of the submissions if and only if that message has been submitted and is equal |
| ProtocolLimits.BypassLosesAMessage | src/hub_connection/dispatch.rs:215-224 | an unbuffered completion makes the peer drop the next message although it was resent |
| ProtocolLimits.LateFailureStrands | src/hub_connection/message_buffer.rs:104-109 | a send that fails after the reopen makes its end late and leaves a message unprocessed on a connected, drained pair |
| BinaryFraming.Write | src/framing/binary.rs:13-33 | the loop produces the length prefix, seven bits per byte with continuation bits, then the payload |
| BinaryFraming.Parse | src/framing/binary.rs:36-79 | the nested loops compute the frame-by-frame parse, with its three errors |
| BinaryFraming.ReadSize | src/framing/binary.rs:41-67 | the inner loop never leaves the shift table and reads the prefix, its truncation and its overflow |
| BinaryFraming.ReadWrittenPrefix | src/framing/binary.rs:13-67 | a written length is read back if and only if it is below the limit, whatever follows |
| BinaryFraming.PrefixSpells | src/framing/binary.rs:13-33 | the written prefix spells the size in base 128, least significant first, with the top bit set on all bytes but the last |
| BinaryFraming.WrittenPayloadParses | src/framing/binary.rs:13-79 | a payload comes back if it is shorter than 2^31 bytes; any longer one is refused as too large |
| BinaryFraming.ParseConcatenation | src/framing/binary.rs:36-79 | input that parses can be followed by any other input: the results are joined, errors of the rest kept |
| BinaryFraming.RoundTrip | src/framing/binary.rs:13-79 | parsing the concatenation of any list of written payloads returns that list |
| BinaryFraming.PrefixFree | src/framing/binary.rs:13-33 | no frame is a proper prefix of another |
| BinaryFraming.CutFrame | src/framing/binary.rs:45-73 | a frame cut anywhere gives nothing, an unreadable size or an incomplete message, by where the cut is |
| BinaryFraming.Truncation | src/framing/binary.rs:40-76 | cutting a stream of frames at any byte gives the frames before the cut or the matching error, never a wrong message |
| TextFraming.ParseConcatenation | src/framing/text.rs:20-30 | complete texts parse to the concatenation of their messages |
| TextFraming.RoundTripExactly | src/framing/text.rs:13-30 | a list of texts comes back if and only if it is not empty and every text is non-empty and free of separators |
| MessagePack.DecodeEncoded | src/hub/messagepack/write.rs:156-162 | decoding an encoded value gives the value and leaves whatever follows it |
| LazyDecode.ReadLen | src/hub/messagepack/parse.rs:111-115 | the fold computes a big-endian length |
| LazyDecode.ReadShape | src/hub/messagepack/parse.rs:63-94 | the marker table: bytes to jump over and children to skip |
| LazyDecode.SkipValue | src/hub/messagepack/parse.rs:53-99 | the recursive skipper with its depth limit terminates and advances the cursor as specified |
| LazyDecode.SkipAgreesWithDecode | src/hub/messagepack/parse.rs:53-99 | on any bytes at all the skipper succeeds exactly where the decoder does and the nesting is within the limit, and stops at the same place |
| LazyDecode.SkipEncoded | src/hub/messagepack/parse.rs:53-99 | for an encoded value the skipper consumes exactly its encoding if and only if it is nested at most 512 levels |
| LazyDecode.DecodeLocal | src/hub/messagepack/parse.rs:22-50 | a decoded value depends on its own bytes only |
| LazyDecode.DecodedIsWellFormed | src/hub/arguments.rs:82-91 | whatever was decoded can be encoded again |
| MessageDecode.DecodeMessage | src/hub/messagepack/parse.rs:26-50 | the loop over the elements with the encoded arguments kept aside |
| MessageDecode.LazyAgreesWithFull | src/hub/messagepack/parse.rs:26-50 | for every frame the lazy form succeeds exactly when the full decoding does and the arguments are nested within the limit; items, raw bytes and their value agree with it |
| MessageDecode.DecodeWritten | src/hub/messagepack/parse.rs:26-50 | what the receiver of an encoded message array reads, with the raw bytes equal to the argument's encoding |
| ValueConversion.JsonSurvives | src/hub/messagepack/write.rs:197-224 | a JSON value survives the conversion to MessagePack and back |
| ValueConversion.ValuesSurvive | src/hub/messagepack/parse.rs:311-320 | so does a list of arguments |
| ValueConversion.HeadersSurvive | src/hub/messagepack/parse.rs:152-167 | headers come back whatever order the hash map is written in |
| ValueConversion.JsonIsGenuine | src/hub/messagepack/parse.rs:307-320 | whatever value arrives becomes a genuine JSON value: finite numbers, sorted objects |
| HubMessage.InsertKeeps | src/hub/messagepack/parse.rs:307-309 | an object read key by key stays sorted, a later value replaces an earlier one of the same key and nothing else |
| PlainCodec.WriteCompletion | src/hub/messagepack/write.rs:46-74 | error, result and void completions are laid out by kind |
| PlainCodec.WriteInvocation | src/hub/messagepack/write.rs:110-131 | stream ids are written only when there are any; undecodable arguments are an error |
| PlainCodec.WriteStreamInvocation | src/hub/messagepack/write.rs:85-108 | stream ids are written only when there are any |
| BrotliCodec.WriteInvocationBrotli | src/hub/messagepack/brotli/write.rs:33-55 | the arguments follow a zero flag |
| BrotliCodec.WriteStreamInvocationBrotli | src/hub/messagepack/brotli/write.rs:57-81 | the arguments follow a zero flag |
| BrotliCodec.WriteCompletionBrotli | src/hub/messagepack/brotli/write.rs:93-127 | error or result follow a zero flag, a void completion has neither |
| BrotliCodec.ValueToBytes | src/hub/messagepack/brotli/parse.rs:219-232 | bytes are found if and only if the value is binary data or a list of non-negative integers, and are the data or their low bytes |
| HubProtocol.ParseMessages | src/hub/messagepack/mod.rs:38-67 | frame by frame, the first error ends the parse, unknown messages are left out |
| HubRoundTrip.FrameComesBack | src/hub/messagepack/parse.rs:123-265 | for both protocols a written message parses to what the receiver is meant to see, or is refused when its arguments are nested too deeply |
| HubRoundTrip.MessageComesBack | src/hub/messagepack/mod.rs:34-71 | the same through framing, for every message below 2^31 bytes |
| HubRoundTrip.StreamComesBack | src/hub/messagepack/mod.rs:34-71 | a concatenation of written messages parses to all of them in order; if one is nested too deeply, or there is none, the whole input is refused |
| HubRoundTrip.ReceivedUnchanged | src/hub/messagepack/mod.rs:34-71 | which written messages parse back as they were, with the exact condition for completions and closes, and what the others parse to |
| HubRoundTrip.InvocationUnchanged | src/hub/messagepack/parse.rs:248-265 | an invocation parses back if and only if its arguments are within the nesting limit, with equal headers, id, target and arguments and without stream ids |
| HubRoundTrip.ArgumentsComeBack | src/hub/arguments.rs:61-92 | the received arguments are the same MessagePack value and equal as JSON values |
| HubMessage.NumberedTypes | src/hub_connection/message_buffer.rs:262-271 | of the nine message types, those with the numbers 1 to 5 are numbered and counted |
| HubLayout.JsonRepresented | src/hub/messagepack/write.rs:197-224 | a JSON value is written as the MessagePack value of the same shape |
| HubLayout.PeerFinds | src/hub/messagepack/write.rs:32-154 | for both protocols and every kind: a peer decodes an array with type, headers, id, target, flag, arguments and stream ids at the positions of the hub protocol; only an invocation with undecodable arguments is not written |
| HubLayout.CloseParses | src/hub/messagepack/parse.rs:169-180 | a close from the server yields its error and its permission to reconnect, element by element, or is refused |
| HubLayout.FrameMeans | src/hub/messagepack/parse.rs:123-150 | for every byte string: a parsed message has the kind and the fields of the frame's elements, and a frame is left out if and only if its kind, by its low 32 bits, is unknown or one only a server receives |
| HubLayout.AcceptedExactly | src/hub/messagepack/parse.rs:152-289 | a frame of the plain protocol yields a message if and only if the elements its kind insists on are there and of the right type |
| HubCompression.CompressionIsInvisible | src/hub/messagepack/brotli/parse.rs:26-232 | for any decompressor, frames of all four kinds compressed to binary data or to a list of integers parse to the same result as uncompressed ones, unless the uncompressed arguments are nested too deeply |
| HubCompression.DamageShows | src/hub/messagepack/brotli/parse.rs:63-232 | a compressed payload that is not made of bytes counts as missing, or refuses an invocation; a failing decompressor and a result that is not MessagePack fail the message |
| SendQueue.Reachable | src/transport/send_queue.rs:68-102 | the invariant of the queue holds after every interleaving of arrivals and worker steps |
| SendQueueOrder.WrittenInOrder | src/transport/send_queue.rs:147-187 | for every arrival schedule the written text and bytes are those of the submitted payloads in order, without the ones turned away |
| SendQueueTheorems.ResponseSafety | src/transport/send_queue.rs:76-102 | a blocked worker holds nothing back, the buffer has one kind of payload, no caller is answered twice, and success or a write error mean the payload was in a frame with that outcome |
| SendQueueTheorems.ReadJoined | src/transport/send_queue.rs:155-177 | a batch in one frame reads as its payloads read one by one, binary or text |
| SendQueueTheorems.BatchingIsInvisible | src/transport/send_queue.rs:104-187 | the receiver finds the same messages as if every payload had been sent alone |
| SendQueueTheorems.WorkerProgress | src/transport/send_queue.rs:76-101 | the worker can move unless it is settled, and every move brings it closer |
| SendQueueTheorems.WorkerRunsEnd | src/transport/send_queue.rs:76-101 | without new commands every run of the worker ends |
| SendQueueTheorems.SettledMeansAnswered | src/transport/send_queue.rs:50-58 | then every caller has been answered exactly once |
| SendQueueTheorems.UndisturbedCallersAreServed | src/transport/send_queue.rs:76-207 | with payloads of one kind and nobody stopping the queue, no caller is turned away or dropped: each is told of success, or of a failed write if there was one |
| SendQueueTheorems.StopEndsTheWorkerIff | src/transport/send_queue.rs:60-65 | a stop request ends the worker if and only if nothing is queued and no drain is running when it is made |
| SendQueueTheorems.StopCanHang | src/transport/send_queue.rs:118-124 | a stop taken by the drain leaves the worker blocked, with a written frame whose sender was told it failed |
| SendWorkers.DrainedIsARun | src/transport/send_queue.rs:104-127 | the drain loop is a run of the worker's steps |
| SendWorkers.TurnedIsARun | src/transport/send_queue.rs:76-101 | a turn is a flush, or a receive and the drain after it |
| SendWorkers.SendWorker.PushPayload | src/transport/send_queue.rs:129-145 | a payload of the other kind is refused and leaves the buffer alone |
| SendWorkers.SendWorker.Respond | src/transport/send_queue.rs:189-207 | every waiting caller gets the outcome, in order, and none is left |
| SendWorkers.SendWorker.DrainReadyCommands | src/transport/send_queue.rs:104-127 | takes what is ready up to a shutdown, which fails the waiting callers and leaves the batch |
| SendWorkers.SendWorker.FlushBuffer | src/transport/send_queue.rs:147-187 | writes the concatenation of the batch; its other-kind branches are never reached |
| SendWorkers.SendWorker.Await | src/transport/send_queue.rs:78-95 | a received send starts a batch, a shutdown or a closed channel ends the worker |
| SendWorkers.SendWorker.Turn | src/transport/send_queue.rs:76-101 | one turn of the loop is a run of worker steps, which it returns, and keeps the invariant |
| PendingTable.EveryCallerGetsItsDue | src/bus.rs:130-194 | in every run each registered caller gets exactly the replies owed by the operations on its id after its registration |
| PendingTable.OwedMeans | src/bus.rs:142-194 | an invocation gets at most one result; a stream its items in order of arrival, then at most one error, nothing after |
| PendingTable.AtMostOneError | src/bus.rs:142-194 | errors come last and alone, and only when the wait is over |
| PendingTable.ErrorReachesItsCaller | src/bus.rs:142-194 | a failed completion or a cancellation gives the waiting stream or invocation exactly that error, behind its items |
| PendingTable.CancelAnswersEachOnce | src/bus.rs:180-194 | cancelling empties the table with exactly one error per entry |
| PendingTable.ReusedIdCrosses | src/bus.rs:130-155 | registering an id again hands the first caller's result to the second |
| MessageBuses.MessageBus.Register | src/bus.rs:130-167 | the new entry replaces an old one, whose channel closes |
| MessageBuses.MessageBus.CompleteInvocation | src/bus.rs:142-155 | removes the entry; a stream hears of errors only |
| MessageBuses.MessageBus.SendStreamItem | src/bus.rs:169-173 | an item reaches a stream entry and nobody else |
| MessageBuses.MessageBus.RemovePending | src/bus.rs:175-177 | removes the entry without a reply and says whether there was one |
| MessageBuses.MessageBus.CancelAllPending | src/bus.rs:180-194 | failing the drained entries in any order has the effect of cancelling all |
| Dispatch.HandleInvocation | src/hub_connection/dispatch.rs:69-158 | the fold gives multiple results if two handlers returned values, else the last error, else the value, else no result; one completion with an id, none without |
| Dispatch.VerdictMeans | src/hub_connection/dispatch.rs:92-158 | by the outcomes themselves: multiple results if and only if two handlers returned values, else the error of the last that failed, else the value that was returned, else nothing was returned |
| Dispatch.MessagesReachTheirCaller | src/hub_connection/dispatch.rs:160-200 | whatever messages arrive, a stream gets the items for its id up to the first completion for it or close; then the error of that message goes to either kind of caller, the result, or null, to an invocation alone, and nothing comes after |
| Dispatch.CallerHears | src/hub_connection/dispatch.rs:160-200 | the same in the pending table, after any earlier operations |
| Dispatch.NeighboursExchange | src/hub_connection/dispatch.rs:92-113 | the answer does not depend on where values and errors stand relative to each other |
| Negotiate.NegotiateWithSource | src/negotiate.rs:117-217 | for every server and factory: each request follows from the answers before it and none that may follow is left out, at most 101 rounds and 202 requests, at most one factory call plus one per 401, the result carries the last redirect, the latest token and its origin, and a failure is accounted for by the last answer; with a factory, only a second 401 in a row is refused |
| Negotiate.Ask | src/negotiate.rs:177-182 | one round: a 401 is retried with a new token if and only if the source can make one and the server has issued none, and only once |
| Negotiate.ServerTokenStays | src/negotiate.rs:194-197 | once an answer carries a token, later requests use the latest server token and the factory is not called again |
| Negotiate.UnauthorizedOnce | src/negotiate.rs:155-163 | a 401 is followed by another request only for a factory, before any server token, and only once in a row |
| Negotiate.IssuedTokenIsLatest | src/negotiate.rs:194-205 | the server-token flag holds exactly when some answer carried a token, and the token is that of the last such answer |
| Negotiate.RequestUrl | src/negotiate.rs:170-214 | the first request goes to the hub, every other one where the answer before it redirects, or after a 401 to the same place |
| Negotiate.RequestToken | src/access_token.rs:22-30 | before a server token, a request carries the fixed token or what the last factory call gave, an empty one counting as none |
| Supervisor.ListPolicy | src/hub_connection/retry.rs:38-53 | a list policy answers exactly the retry counts below its length |
| Supervisor.RetryLoop | src/hub_connection/mod.rs:640-719 | counts 0, 1, 2, … are asked, delays are waited in list order, attempts end with the first success or after exactly as many attempts as delays |
| Supervisor.CallbacksFollowTheGrammar | src/hub_connection/mod.rs:573-722 | whatever start, close, policy and server do, the callbacks after each start are pairs of reconnecting and reconnected, an optional reconnecting, and one closed before the next start; the connection is Disconnected if and only if nothing was started or closed has come, Connected and Reconnecting only at their places in the grammar |
| Supervisor.RunDoes | src/hub_connection/mod.rs:611-660 | in every run the pending table sees the operations of callers and messages, one cancellation per outage that was not resumed and per close, and nothing else; reconnecting is announced once per announced outage |
| Supervisor.CallersThroughOutages | src/hub_connection/mod.rs:590-615 | a caller that waits when a run begins gets exactly what it is owed for those operations |
| Supervisor.ResumeIsInvisible | src/hub_connection/mod.rs:590-609 | any number of resumed outages, interleaved with anything but start and close, changes no state, callback, flag or retry count, and the pending table is where callers and messages alone have brought it |
| Supervisor.OutageRuns | src/hub_connection/mod.rs:573-722 | a whole outage: resumed only if the transport dropped and can be resumed, and then nothing changes; otherwise every pending invocation fails with its error, and the connection is closed at once without policy, permission or delays, Connected again with the first successful attempt, or closed after exactly one attempt per delay |
| Supervisor.FirstOutageRuns | src/hub_connection/mod.rs:573-722 | the same after a start, whatever came before it |
| Supervisor.FailedCloseIsFinal | src/hub_connection/mod.rs:208-253 | when the only close under way cannot shut the transport down, pending invocations are cancelled and in every run afterwards the state stays Disconnecting, no callback comes and only callers and messages touch the pending table |
| Supervisor.ListPolicyRuns | src/hub_connection/mod.rs:640-719 | in every interleaving the delays waited are a prefix of the list, and an outage that used the list up made one attempt per delay |

## Left out

- ProtocolTheorems.ExactlyOnceInOrder: writes that reach an open transport keep the order of buffering and client results are not counted, because the code does not deliver exactly once otherwise (see above).
- ProtocolInvariant.NextKeeps: a failed write cuts its transport for good; a transport that refuses one frame and then accepts the next is not modelled.
- MessageDecode.LazyAgreesWithFull: elements other than the arguments are read by the MessagePack library, whose own nesting limit the reference decoder does not have.
- MessageBuffers.MessageBuffer.Send: the buffer lock is not modelled; what happens under it is one step, and the write is another one in `Protocol`.
- Supervisor.CallbacksFollowTheGrammar: writing the connection state together with the callback that follows it is one step, and aborting the supervisor is atomic.
- A full reconnect replaces the buffers of both ends; the protocol theorems are about the life of one pair.
- Counters are unbounded integers; 64-bit overflow of ids and of byte counts is not modelled.
- The peer is taken to follow the same buffer algorithm as the client.
- Ping and Close are uncounted frames without content in `Protocol`; closing by message is not modelled there.
- The MessagePack library's own nesting limit and its handling of the reserved marker: the reference decoder has no limit and refuses the marker.
- Conversions between MessagePack values and JSON of shapes that JSON values never produce (single floats, binary data, extensions, invalid UTF-8, other map keys) are a parameter.
- Error messages are reduced to their kinds; typed deserialization of arguments, the JSON text protocol and handshakes are not modelled.
- Brotli decompression is a parameter; nothing is proved about it.
- WebSocket, TLS and HTTP: connecting, writing and answering are arbitrary outcomes.
- Keep-alive and server timeouts, delays and the clock.
- The invocation id generator, builders, options, logging, handler registration and panics in callbacks: nothing hard to state.
- A failing or aborted `start`, also one whose shutdown fails, leaves no trace in `Supervisor`; the connecting state is not modelled.
