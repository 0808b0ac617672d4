# Verified model of the Wheeltec VCU serial core

A Dafny model of the part of the repository that decides whether a motion frame
may reach the serial line, with proofs over every run of it:

- the **safety session** (`src/safety_session.cpp`): eight modes, eight public
  operations that interleave freely, an adversarial transport and clock;
- the **feedback parser** (`src/feedback_parser.cpp`): a rolling 24-byte buffer
  that resynchronises in place;
- the **keyboard controller** (`python/wheeltec_keyboard_teleop.py`): deadman,
  authorization, conflict inhibit, emergency stop;
- the **write loop** and the connection bookkeeping of the serial transport
  (`src/transport.cpp`);
- the two **wire formats** (`src/protocol.cpp`) and the **line protocol**
  between the controller and the command line tool (`apps/wheeltec_vcu_cli.cpp`).

## How it is laid out

Where the source is an object that updates its fields, the model has a class
with those fields, and each public method is proved to make the step of a pure
function on the object's abstract value (`View()`): `SafetySessions.SafetySession`
against `SessionModel`, `TeleopControllers.TeleopController` against
`TeleopModel`, `FeedbackParsing.FeedbackParser` against one scan of the whole
stream (`StreamScan`). The theorems are then about those functions.

A **world** is a session, its link, and a **log** with one entry for each call,
with the reply, and one for each write: kind, frame, generation, start, deadline
and outcome. A turn is any call, on any link, with any outcome of the at most two
writes it makes; an outcome is any result or an exception, completion time
included, and leaves any link, be it down or up again under a new generation. The
main theorems hold of every `Reachability.Reachable` world, and
`Reachability.ReachableExactlyByRuns` says that these are exactly the worlds at
the end of a run, so each theorem is about every call sequence and every
interleaving. They speak of the log alone wherever they can; `LogReading` says how
a log is read, and `Answers` what it demands of the next call: `SessionAnswers`
proves that every reply and every write of every run is the one the log before it
asks for. All that `Reachable` assumes of the transport is
`TransportModel.LinkFollows`: generations never go back, and a lost link returns
only under a larger generation.

The bounds on the number and rate of writes need more, and say so: that a write
which reports a disconnect has taken the link down (`WriteBudgets.LossesHonest`),
and that no link comes up again during a write (`WriteBudgets.LinksKept`).
`ContractNeeded` gives runs that overspend the budget without either.
`SerialTransports` proves that the serial transport keeps both, and that it meets
the deadlines it is given.

| files | contents |
|---|---|
| `Wrappers`, `Protocol` | integer ranges; the codecs |
| `StreamScan`, `FeedbackParser` | the scan as a specification; the parser |
| `TransportModel`, `Transport`, `WriteLoop`, `SerialTransport` | what a session sees of a transport; a scripted adversary; the write loop; the serial transport |
| `SessionModel`, `Reachability`, `SessionInvariant`, `SafetySession` | operations, runs and logs; reachable worlds; the state invariant; the class |
| `LogReading`, `Answers`, `SessionFrames` | what a log says, and what it demands of the next call; what one step may change |
| `StopBarrier`, `Ladder`, `WriteBudgets`, `Refusals`, `SessionMarks`, `SessionProgress` | invariants that tie the state to the log |
| `SessionRuns`, `SessionAnswers`, `SessionRecovery`, `ContractNeeded` | the theorems about all reachable worlds: what never happens, what every call answers and writes, what can always be reached, and which assumptions are needed |
| `TeleopModel`, `TeleopTheorems`, `TeleopController` | the controller, its line discipline, the class |
| `TeleopReading`, `TeleopExact` | what the controller's log says; the lines every input is answered with |
| `LineProtocol`, `LineText`, `Cli` | lines and decimals; the lines as text; dispatch to the session |
| `TeleopFits`, `FitsExactly`, `Deadman` | the two programs together: when every command encodes; the deadman from key press to completed write |

## Two points about the code

**Expiry stops motion and keeps the authorization.** `docs/safety.md:22-23` lists
expired commands and expired feedback among the things that withdraw the
permission to move. The code (`src/safety_session.cpp:428-433`) drops the stored
command and sends a zero; a fresh run of commands then suffices, and the operator
is not asked to authorize again. `SessionRecovery.ExpiryKeepsAuthorization` shows
such a log under every valid configuration, and `StopBarrier.PermitExactly` says
exactly which events cost the authorization. The document does not say that they
include an expiry; the model follows the code.

**Not every validated configuration lets the controller drive.** The controller
prints commands with nine decimals, rounded to nearest, so a maximum speed with
more decimals can be printed as a number above the session's limit, which the
encoder turns down. `FitsExactly.CommandsFitExactly` gives the exact condition for
all configurations that both programs accept: no command is ever turned down if
and only if the highest speed that can be selected, as printed straight on and
turning, is within the two limits. Nine decimals in the limits are enough
(`FitsExactly.NineDecimalsFit`); `FitsExactly.TenthDecimal` gives a configuration
on each side of the line.

## Model

| member | source | states |
|---|---|---|
| SessionRuns.MotionLadder | src/safety_session.cpp:380-487 | each motion write on a generation stands, in order, on a completed exact-zero write, an accepted authorization with a token above every earlier one, and an unbroken run (no zero write, no other accepted command) of at least the required number of accepted commands with increasing sequence and creation, all created after that authorization and all on that generation; the frame is the encoding of the last, still within its deadline and age |
| SessionRuns.MotionIsWatched | src/safety_session.cpp:428-433 | each motion write starts within the feedback timeout of feedback that allowed control on the same generation, with neither inhibited feedback nor an emergency stop since |
| StopBarrier.StopBarrier | src/safety_session.cpp:118-684 | after a disarm, latch, inhibited feedback, clock regression, malformed command, failed motion write, lost link or first sight of a new generation, whatever the call returned, the next motion write comes after a later completed zero write and a later accepted authorization; after a stop request, a stale command, a failed zero write or a cycle that finds command or feedback expired, after a later completed zero write |
| StopBarrier.PermitExactly | src/safety_session.cpp:489-495 | the converse as well: on a live connection the session is stopping or faulted exactly when its log owes a zero, and, unless faulted, holds a permit exactly when its log shows an authorization with nothing owed since |
| StopBarrier.ZerosAreOwed | src/safety_session.cpp:612-684 | no zero write that nothing demands, and every zero write is the exact zero frame |
| StopBarrier.FeedbackExactly | src/safety_session.cpp:295-327 | the feedback a session relies on is the latest allowed one its log shows on this connection, with nothing since that withdraws it |
| StopBarrier.FreshCountIsRunLength | src/safety_session.cpp:263-292 | a command is stored exactly while the log shows an unbroken run of accepted commands; the counter is the length of that run, capped at the required number, and the command its last |
| SessionRuns.NoResurrection | src/safety_session.cpp:171-293 | no sequence number is accepted twice, across reconnects and authorizations, and a command refused at a valid time not before its creation is never accepted later |
| SessionRuns.EmergencyStopHolds | src/safety_session.cpp:329-354 | from a latch until an accepted reset there is no motion write and no accepted authorization, across any reconnects |
| SessionRuns.ResetIsEarned | src/safety_session.cpp:356-378 | an accepted reset comes after a zero write completed and allowed feedback observed since the latch, with a token above every earlier accepted one |
| SessionRuns.ResetNeedsAuthorization | src/safety_session.cpp:360-377 | after an accepted reset, the next motion write comes after an authorization accepted later than the reset |
| SessionRuns.NoAuthorizationWhileLatched | src/safety_session.cpp:92-94 | no authorization is accepted between a latch and an accepted reset |
| SessionRuns.ZeroBudget | src/safety_session.cpp:668-683 | over a transport that keeps its contract, at every point of every run, on every generation, at most the configured number of zero writes have failed in a row |
| SessionRuns.SpentBudgetSilences | src/safety_session.cpp:406-412 | over such a transport, once that budget is spent on a generation, nothing is ever written on it again, whatever is called in between |
| SessionRuns.ZeroRetriesSpaced | src/safety_session.cpp:612-684 | over such a transport, after a failed zero write the next one on that generation starts no earlier than the later of start and completion plus the retry interval, capped at the largest int64 |
| SessionRuns.MotionRateBound | src/safety_session.cpp:435-469 | while reported losses are real, any N completed motion writes on one generation span at least N - 1 transmit periods from first to last start, whatever happens in between |
| SessionRuns.ReachableHeld | src/safety_session.cpp:65-684 | the induction behind these theorems: in every reachable world every invariant that ties the state to the log holds, and every entry has passed its checks |
| Reachability.ReachableExactlyByRuns | include/wheeltec_vcu_serial/safety_session.hpp:124-166 | the reachable worlds are exactly those at the end of a sequence of public calls over a transport that keeps its contract |
| SessionInvariant.RunSound | src/safety_session.cpp:65-684 | after every run, for any link behaviour and outcomes: stop-pending exactly when a zero episode is open; a stored command implies a live permit on the current generation, no latch, and permit time < created <= receipt <= last seen time; active exactly when the run is long enough |
| SessionInvariant.StepSound | src/safety_session.cpp:78-487 | every public operation keeps that invariant from any state that has it |
| ContractNeeded.FalseLossesSpendNothing | src/safety_session.cpp:645-651 | for every valid configuration and every n, a run in which n zero writes in a row fail on one live generation, because each reports a disconnect that is none |
| ContractNeeded.ReconnectSpendsTwice | src/safety_session.cpp:473-487 | with a budget of one, a run in which two zero writes in a row fail on one generation although every loss is real, because the first belongs to an episode opened before the reconnect |
| StopBarrier.ReachableKept | src/safety_session.cpp:497-610 | the induction behind these: in every reachable world the last time seen, latch, feedback, fresh run and debts of the log are those of the session, and every write so far was owed what it had to be |
| StopBarrier.ReachableInert | src/safety_session.cpp:41-76 | with an invalid configuration nothing is ever written, and every call gives the reply that says so |
| LogReading.OwedUntilPaid | src/safety_session.cpp:587-610 | a debt in the log is discharged only by a completed zero write, or an accepted authorization, after the event that caused it |
| SessionAnswers.ZeroSentExactlyWhenDue | src/safety_session.cpp:406-408 | in every log, while a zero is demanded, a cycle with a valid time on a usable link writes the exact zero frame if the budget and the retry interval allow it, and otherwise writes nothing and says why |
| SessionAnswers.MotionSentExactlyWhenDue | src/safety_session.cpp:409-469 | in every log, with no zero demanded, such a cycle writes the encoding of the latest accepted command, on the link's generation, starting at the cycle's time, with the lesser of write bound and command deadline, whenever the run is long enough and no motion on this connection ended less than a transmit period ago; otherwise it writes nothing, rate limited or with no action |
| SessionAnswers.CycleExactly | src/safety_session.cpp:380-487 | every field a cycle reports and every write it makes, the second after a failed motion included, is what the log before it and the outcomes of its writes demand |
| SessionAnswers.AcceptedExactly | src/safety_session.cpp:171-293 | in every log a command is taken if and only if time, link, sequence, age, deadline, authorization, limits, feedback and predecessor are all in order as the log shows them, and accepted rather than pending if and only if its run then reaches the required length |
| SessionAnswers.SubmissionExactly | src/safety_session.cpp:171-293 | every other command is turned down for the first reason that applies, read off the log |
| SessionAnswers.AuthorizationExactly | src/safety_session.cpp:78-116 | in every log an authorization is granted, or turned down for the first reason that applies, as the log shows |
| SessionAnswers.ResetExactly | src/safety_session.cpp:356-378 | in every log a reset is accepted exactly when the latch holds, nothing is owed, feedback is recent and the token is larger than every accepted one |
| SessionAnswers.StopsExactly | src/safety_session.cpp:118-169 | in every log a disarm or a stop reports success exactly when its time is good and the zero attempts of its connection are not spent |
| SessionAnswers.ObservationExactly | src/safety_session.cpp:295-327 | in every log, at a valid time on a usable link, feedback is allowed exactly when the frame is well formed and byte 1 is 0, inhibited exactly when byte 1 is 1, and otherwise the frame is invalid |
| SessionAnswers.ModeExactly | src/safety_session.cpp:65-684 | on a live connection, or without any, the session's mode is the one its log shows |
| SessionAnswers.ReachableExact | src/safety_session.cpp:65-684 | the induction behind these: in every reachable world the marks, the mode and the debts of the session are those of its log, and every entry has been answered as its log demands |
| SessionProgress.ReachablePunctual | src/safety_session.cpp:587-610 | a new zero episode is due at once, and the attempts of an open one are those the log shows |
| SessionRecovery.MotionCanBeRegained | src/safety_session.cpp:78-487 | from every reachable world that is not latched and has zero attempts left and due, a world is reachable whose log goes on to a motion write of the wanted motion's encoding |
| SessionRecovery.ExpiryKeepsAuthorization | src/safety_session.cpp:428-433 | under every valid configuration some log shows a cycle that finds an expiry, its completed zero, and a later motion write with no authorization accepted in between |
| SafetySessions.SafetySession.constructor | src/safety_session.cpp:65-76 | a new session is the initial state of the model on its transport's link |
| SafetySessions.SafetySession.Authorize | src/safety_session.cpp:78-116 | makes the model's step and returns its status |
| SafetySessions.SafetySession.Disarm | src/safety_session.cpp:118-142 | makes the model's step and returns its flag |
| SafetySessions.SafetySession.RequestStop | src/safety_session.cpp:144-169 | makes the model's step and returns its flag |
| SafetySessions.SafetySession.Submit | src/safety_session.cpp:171-293 | makes the model's step and returns the first applicable status, without int64 overflow |
| SafetySessions.SafetySession.ObserveFeedback | src/safety_session.cpp:295-327 | makes the model's step and returns its observation |
| SafetySessions.SafetySession.LatchEmergencyStop | src/safety_session.cpp:329-354 | makes the model's step |
| SafetySessions.SafetySession.ResetEmergencyStop | src/safety_session.cpp:356-378 | makes the model's step and returns its flag |
| SafetySessions.SafetySession.Tick | src/safety_session.cpp:380-487 | makes the model's step, reports its cycle, and hands the transport exactly the model's writes: frame, deadline, order, nothing else |
| SafetySessions.SafetySession.TryZero | src/safety_session.cpp:612-684 | makes the model's zero attempt and exactly its writes |
| SafetySessions.SafetySession.BeginZeroEpisode | src/safety_session.cpp:587-610 | opens an episode, or tightens an open one, without restoring its budget |
| SafetySessions.SafetySession.SynchronizeConnection | src/safety_session.cpp:497-509 | follows the link as the model does |
| SafetySessions.SafetySession.HandleNewConnection | src/safety_session.cpp:552-571 | starts over on a new generation with a zero episode, keeping the high-water marks and the latch |
| SafetySessions.SafetySession.HandleDisconnect | src/safety_session.cpp:537-550 | forgets everything that belongs to one connection |
| SafetySessions.SafetySession.HandleClockFailure | src/safety_session.cpp:524-535 | revokes and opens a zero episode when the link is up |
| SafetySessions.SafetySession.ObserveMonotonicTime | src/safety_session.cpp:511-522 | refuses a time that is not positive or goes back |
| SafetySessions.SafetySession.FeedbackFresh | src/safety_session.cpp:686-692 | agrees with the model's predicate and cannot overflow |
| SafetySessions.SafetySession.CommandFresh | src/safety_session.cpp:694-704 | agrees with the model's predicate and cannot overflow |
| SafetySessions.SafetySession.Authorized | src/safety_session.cpp:489-495 | agrees with the model's predicate |
| FeedbackParsing.FeedbackParser.Consume | src/feedback_parser.cpp:8-55 | after any number of calls, buffer and counters are those of one leftmost scan of all bytes received, and a call reports, decoded, exactly the frames its chunk completes; a null chunk with a size is counted and changes nothing else |
| FeedbackParsing.FeedbackParser.ConsumeByte | src/feedback_parser.cpp:20-54 | one byte extends the scanned stream by that byte |
| FeedbackParsing.FeedbackParser.ResynchronizeAfterInvalidCandidate | src/feedback_parser.cpp:63-77 | keeps the window from its next header on and counts what it drops |
| FeedbackParsing.FeedbackParser.Reset | src/feedback_parser.cpp:57-61 | the parser of an empty stream |
| FeedbackParsing.ByteAppended | src/feedback_parser.cpp:20-54 | how one more byte changes the scan of a stream, in every case |
| StreamScan.EveryByteAccountedFor | src/feedback_parser.cpp:8-77 | bytes = 24 valid + discarded + retained, failures <= discarded, at most 23 retained, header first |
| StreamScan.ScanIsTheGreedySelection | src/feedback_parser.cpp:20-54 | a set of windows is the leftmost-greedy non-overlapping selection exactly when it is the one emitted |
| StreamScan.FailuresExactly | src/feedback_parser.cpp:20-54 | the checksum counter is the number of uncovered windows with header and tail in place and a wrong exclusive or, the framing counter the number of the other uncovered windows with a header |
| StreamScan.NoWindowMissed | src/feedback_parser.cpp:63-77 | every valid window fully received is emitted or overlaps an earlier emitted one |
| StreamScan.EmittedOnlyGrows | src/feedback_parser.cpp:31-41 | more input never retracts or alters an emitted frame |
| StreamScan.FramesInNoiseRecovered | src/feedback_parser.cpp:20-54 | valid frames separated by header-free noise come back exactly, with nothing pending and no failure counted |
| StreamScan.CuttingDoesNotMatter | src/feedback_parser.cpp:8-55 | however a stream is cut, the calls together report the frames of one scan |
| Protocol.EncodeCommand | src/protocol.cpp:69-113 | fills the frame, or names the first failing check, as the specification says |
| Protocol.QuantizeWireValue | src/protocol.cpp:22-31 | succeeds exactly on finite values that fit after truncation |
| Protocol.StoreSignedBigEndian | src/protocol.cpp:33-38 | writes the two's complement pattern and nothing else |
| Protocol.XorRange | src/protocol.cpp:14-20 | the reduction of a prefix by bitwise exclusive or |
| Protocol.LoadOfStore | src/protocol.cpp:33-49 | loading what was stored gives every 16-bit value back |
| Protocol.StoreOfLoad | src/protocol.cpp:33-49 | storing what was loaded gives every byte pair back |
| Protocol.CommandRoundTrip | src/protocol.cpp:96-112 | bytes 3, 5 and 7 of an accepted command load back to the truncated values, and bytes 0 to 9 reduce to zero |
| Protocol.FramesEqualExactly | src/protocol.cpp:69-113 | two accepted commands give the same frame exactly when all three components truncate alike |
| Protocol.RejectedExactly | src/protocol.cpp:69-113 | which commands are encoded, by their numbers, and for every other one the first error that applies |
| Protocol.QuantizationError | src/protocol.cpp:22-31 | truncation loses less than one wire unit and never enlarges a magnitude; the linear wire value stays within 1000 times the limit, below 6000 |
| Protocol.ZeroFrameExactly | src/protocol.cpp:115-121 | an accepted command is the exact zero frame exactly when every component is below 0.001 in magnitude |
| Protocol.DecodedOnBytes | src/protocol.cpp:123-174 | a frame decodes exactly when its size, marks, checksum and flag byte are right; it allows control exactly when byte 1 is 0 and inhibits it exactly when byte 1 is 1 |
| Protocol.UndecodableOnBytes | src/protocol.cpp:123-146 | each decoding error is returned exactly when its check is the first to fail |
| Protocol.RebuildInvertsDecode | src/protocol.cpp:123-174 | a valid feedback frame can be rebuilt from its decoded record |
| Protocol.DecodingIsInjective | src/protocol.cpp:123-174 | two valid feedback frames decode alike exactly when they are equal |
| Protocol.SingleByteCorruptionDetected | src/protocol.cpp:123-146 | changing any one byte of a valid feedback frame makes decoding fail |
| WriteLoop.WriteAllWithOperations | src/transport.cpp:251-331 | for every script of write results, poll results and clock readings: each write is offered exactly the bytes not yet taken and starts before the deadline; success is exactly "all bytes out by the deadline"; a failure not marked uncertain put nothing out; every failure has its cause in the script, everything before the cause let the loop go on, and if nothing went wrong the loop succeeds; the loops end when the clock strictly advances |
| WriteLoop.CooperationSucceeds | src/transport.cpp:269-327 | an ended loop whose readings were all before the deadline, whose refusals were EINTR or EAGAIN and whose polls were ready or spurious has succeeded |
| WriteLoop.WaitForEvent | src/transport.cpp:75-120 | ready means ready by the deadline; a wait goes on exactly through spurious polls and ends with the status and error number of the clock reading or poll that ended it; each poll starts before the deadline and may last at least until it but less than a millisecond beyond |
| WriteLoop.AfterRefusal | src/transport.cpp:302-326 | EINTR and a wait that ends ready lead to another try; anything else to a faithful failure with the status and error number of the write or poll that caused it |
| WriteLoop.AfterReply | src/transport.cpp:280-326 | a claim above the offer, and nothing else about a positive result, is an input/output error; progress completes, goes on or is too late |
| WriteLoop.TimeoutMilliseconds | src/transport.cpp:53-65 | the least whole number of milliseconds that covers the remaining time, capped at the largest int |
| WriteLoop.WireGrows | src/transport.cpp:276-286 | one more write extends the prefix that went out by exactly what it took |
| WriteLoop.StillEarlyBound | src/transport.cpp:269-275 | under a strictly advancing clock no more iterations than nanoseconds before the deadline |
| SerialTransports.PosixSerialTransport.OpenNewGeneration | src/transport.cpp:469-562 | either nothing changes or the next generation is connected, exactly when path, counter and device allow it |
| SerialTransports.PosixSerialTransport.Open | src/transport.cpp:400-405 | an open transport is left alone; otherwise a new generation |
| SerialTransports.PosixSerialTransport.Reopen | src/transport.cpp:407-410 | a successful reopen is always a new generation |
| SerialTransports.PosixSerialTransport.Close | src/transport.cpp:412-420 | the link goes down and keeps its generation |
| SerialTransports.PosixSerialTransport.WriteAll | src/transport.cpp:428-450 | keeps the contract that sessions assume, meets its deadline, writes nothing when read-only or closed, and closes on a disconnect |
| ScriptedTransports.ScriptedTransport.WriteAll | include/wheeltec_vcu_serial/transport.hpp:64-65 | the adversary: ends as its script says, on any link, and records what it was given |
| TeleopControllers.ValidateConfig | python/wheeltec_keyboard_teleop.py:90-150 | accepts exactly the valid configurations |
| TeleopControllers.Create | python/wheeltec_keyboard_teleop.py:298-321 | a controller exists exactly for a valid configuration |
| TeleopControllers.TeleopController.HandleEvent | python/wheeltec_keyboard_teleop.py:491-565 | makes the model's step and prints its lines |
| TeleopControllers.TeleopController.Tick | python/wheeltec_keyboard_teleop.py:567-578 | makes the model's step and prints its lines |
| TeleopControllers.TeleopController.ForceStop | python/wheeltec_keyboard_teleop.py:393-395 | makes the model's step and prints its lines |
| TeleopControllers.TeleopController.FinishUp | python/wheeltec_keyboard_teleop.py:593-600 | makes the model's step and prints its lines |
| TeleopControllers.TeleopController.ValidNow | python/wheeltec_keyboard_teleop.py:371-381 | a bad time revokes, clears and stops |
| TeleopControllers.TeleopController.Authorize | python/wheeltec_keyboard_teleop.py:403-425 | makes the model's authorization |
| TeleopControllers.TeleopController.ChangeSpeed | python/wheeltec_keyboard_teleop.py:427-440 | makes the model's speed change |
| TeleopControllers.TeleopController.Motion | python/wheeltec_keyboard_teleop.py:442-452 | the velocities of the held direction; none where the source raises |
| TeleopControllers.TeleopController.EmitCommand | python/wheeltec_keyboard_teleop.py:454-478 | makes the model's command |
| TeleopControllers.TeleopController.ExpireDirectionIfNeeded | python/wheeltec_keyboard_teleop.py:480-489 | stops exactly when the release timeout has passed |
| TeleopExact.LinesExactly | python/wheeltec_keyboard_teleop.py:371-600 | in every history, the lines printed between an input and the next are exactly those its log demands, for every key, release, tick, forced stop and finish, at good and bad times |
| TeleopExact.EstopExactly | python/wheeltec_keyboard_teleop.py:515-522 | x at a good time is answered with ESTOP and STOP, after the STOP of an expiry, and nothing else is ever answered with an ESTOP |
| TeleopExact.AuthorizeExactly | python/wheeltec_keyboard_teleop.py:403-425 | r at a good time is answered with an AUTH of the next token and a STOP exactly when x was never pressed and a token is left, and nothing else is ever answered with an AUTH |
| TeleopExact.CommandExactly | python/wheeltec_keyboard_teleop.py:454-578 | a CMD is printed exactly when the log says one is due and it fits, with its sequence, times and velocities, for the direction pressed last |
| TeleopExact.CommandSigns | python/wheeltec_keyboard_teleop.py:442-452 | w prints forward, s backward, a forward with a positive yaw rate, d forward with a negative one; a printed velocity is zero only where it rounds to zero |
| TeleopExact.DirectionSigns | python/wheeltec_keyboard_teleop.py:442-475 | forward and backward are opposite numbers, and so are the two arcs |
| TeleopExact.StateExactly | python/wheeltec_keyboard_teleop.py:295-600 | the latch holds exactly when x was pressed at a good time; authorization, quit request, held direction and speed are those the log shows |
| TeleopExact.ReachableExactlyHeld | python/wheeltec_keyboard_teleop.py:371-600 | the induction behind these, over every sequence of inputs |
| TeleopTheorems.ReachableTeleopHeld | python/wheeltec_keyboard_teleop.py:295-600 | after every sequence of inputs, the controller's fields account for all its lines |
| TeleopTheorems.NoDirectionMeansStopped | python/wheeltec_keyboard_teleop.py:388-401 | whenever no direction is held there has been a STOP since the last CMD |
| TeleopTheorems.CommandsSpaced | python/wheeltec_keyboard_teleop.py:454-478 | two CMDs with no STOP between them are at least one command period apart |
| TeleopTheorems.LineOrder | python/wheeltec_keyboard_teleop.py:403-478 | sequence numbers and tokens strictly increase within their types, and no AUTH or CMD follows an ESTOP |
| TeleopTheorems.DeadmanCommands | python/wheeltec_keyboard_teleop.py:454-489 | every CMD printed is created less than the release timeout after the last direction-key press before it, and expires one release timeout after its creation |
| TeleopTheorems.ReachableLogLines | python/wheeltec_keyboard_teleop.py:388-478 | the lines in the controller's history are the lines it has written, in order |
| FitsExactly.CommandsFitExactly | python/wheeltec_keyboard_teleop.py:427-475 | under one configuration valid for both programs, no command is ever turned down by the encoder, whatever the operator and the session's surroundings do, if and only if the highest selectable speed, as printed straight on and turning, is within the session's limits |
| FitsExactly.ClimbToTop | python/wheeltec_keyboard_teleop.py:427-433 | when a step is more than half a unit of the rounding, the operator reaches the rounded maximum speed by pressing faster |
| FitsExactly.NineDecimalsFit | python/wheeltec_keyboard_teleop.py:467-475 | with limits of at most nine decimals no command is ever turned down |
| FitsExactly.TenthDecimal | python/wheeltec_keyboard_teleop.py:467-475 | two valid configurations with the same ten-decimal speed, one whose commands a session turns down and one whose commands it never does |
| TeleopFits.HalfEvenExactly | python/wheeltec_keyboard_teleop.py:433 | decimal rounding gives the nearest number of units, and the even one on a tie |
| TeleopFits.TopHolds | python/wheeltec_keyboard_teleop.py:427-433 | no speed up to the highest selectable one steps over it, however small the step |
| TeleopFits.ReachableInRange | python/wheeltec_keyboard_teleop.py:427-452 | in every history the selected speed is at most the highest selectable one, and every printed velocity has nine decimals and is at most what that speed is printed as |
| Cli.SafetyConfigAccepted | src/config.cpp:118-181 | whatever the configuration check lets through, the session accepts |
| Cli.ProcessLine | apps/wheeltec_vcu_cli.cpp:268-347 | each kind of line makes exactly its session call: AUTH authorizes, CMD submits with no lateral speed, STOP and QUIT request a stop, ESTOP latches, RESET resets; an invalid line or time disarms |
| Deadmen.Deadman | src/safety_session.cpp:443-469 | on one clock, a motion write completed over the serial transport carries a command the controller printed less than the release timeout after the operator's last direction-key press, and ends less than two release timeouts after that press |
| Deadmen.SerialWritesBounded | src/transport.cpp:428-450 | over the serial transport the bound on failed zero writes holds as it stands |
| LineText.PrintedLinesArrive | apps/wheeltec_vcu_cli.cpp:268-347 | whatever the operator does and however the stream is cut, the tool reads every printed line, in order and with every field, and finds none malformed |
| LineText.ReadRendered | python/wheeltec_keyboard_teleop.py:468-475 | the text of a line reads back as that line |
| LineText.Fixed9RoundTrip | python/wheeltec_keyboard_teleop.py:468-475 | nine-decimal text of any number reads back as that number rounded to nine decimals |
| LineText.WordsOfSpaced | apps/wheeltec_vcu_cli.cpp:274-276 | words written with single spaces are the words read |
| LineProtocol.TakeCompleteLines | apps/wheeltec_vcu_cli.cpp:412-430 | takes exactly the complete lines and leaves exactly the rest |
| LineProtocol.LinesRoundTrip | python/wheeltec_keyboard_teleop.py:260-264 | any list of emitted lines comes back unchanged from the stream, however it is cut |
| LineProtocol.CutsDoNotMatter | apps/wheeltec_vcu_cli.cpp:412-430 | reading chunk by chunk takes the lines, and keeps the rest, of the whole text |
| LineProtocol.ParseUint64Decimal | apps/wheeltec_vcu_cli.cpp:239-261 | accepts exactly the digit strings with a value below 2^64 and returns that value |
| LineProtocol.DecimalRoundTrip | apps/wheeltec_vcu_cli.cpp:239-261 | parsing inverts decimal printing of every natural number |

## Left out

- Doubles are exact reals with explicit NaN and infinities; IEEE-754 rounding is not modelled, so no result is claimed bit for bit.
- FeedbackParsing.FeedbackParser.Consume: counts with natural numbers; the 64-bit wrap-around of the parser's statistics is not modelled.
- SessionRuns.ZeroBudget: assumes that reported losses are real and that no link comes up again during a write; `ContractNeeded` shows that both are needed.
- SessionRuns.SpentBudgetSilences: assumes the same.
- SessionRuns.ZeroRetriesSpaced: assumes the same.
- SessionRuns.MotionRateBound: assumes that reported losses are real and that no completed write reports an end before its start; without that a wrong completion time would shorten the spacing.
- Deadmen.Deadman: assumes one clock for both programs, that every submitted command is one the controller printed, and that the write ended as the serial transport's writes do, which `SerialTransports.PosixSerialTransport.WriteAll` proves.
- StopBarrier.StopBarrier: a reset call while nothing is latched is no stop event, because the code then looks at neither the clock nor the link (`src/safety_session.cpp:358-360`).
- WriteLoop.WriteAllWithOperations: the loop is watched for a given number of iterations, since under a clock that stands still it need not end; a write that claims more than it was offered counts as having taken nothing.
- WriteLoop.WaitForEvent: the difference between deadline and clock is exact; the source's would overflow only for a negative clock reading.
- SerialTransports.PosixSerialTransport.OpenNewGeneration: opening, locking and configuring the device is one parameter that says how it ended.
- A null transport, and the private counter that ties the latch to a generation.
- `readSome` and its loop, an easier sibling of the write loop.
- The command line tool's run loop, options, standard input with its size caps, status names, and the final zero it writes past the session at shutdown; the theorems about writes are about the session's writes.
- Cli.ProcessLine: lines arrive as parsed fields; `LineText.ReadText` reads them from text.
- LineText.ReadRendered: a CMD whose numbers are spelled otherwise than as plain decimals (exponents, hexadecimal, a leading plus sign, numbers run together) is read by the stream library in ways that are not modelled; the reading then says nothing. The sign of a negative zero is not kept.
- TeleopControllers.ValidateConfig: says whether a configuration is accepted, not the message of the error.
- The read-only monitor, the INI files, the terminal and input-event key sources, help text, poll timeouts and signal plumbing; keys arrive in lower case.
- What the vehicle does after a host write: the repository claims nothing about it.
