// What every call must answer and every cycle must write, read off the log alone.
// That the session does so is proved in SessionAnswers.

module Answers {
  import opened Wrappers
  import opened Protocol
  import opened TransportModel
  import opened SessionModel
  import opened LogReading

  // ----- Commands -----

  // Finite, without a sideways part, and within the configured limits.
  predicate WithinLimits(config: SafetyConfig, motion: MotionCommand) {
    && config.maxLinear.Finite? && config.maxYaw.Finite?
    && motion.linear.Finite? && motion.yaw.Finite? && motion.lateral == Finite(0.0)
    && -config.maxLinear.value <= motion.linear.value <= config.maxLinear.value
    && -config.maxYaw.value <= motion.yaw.value <= config.maxYaw.value
  }

  const STANDSTILL := MotionCommand(Finite(0.0), Finite(0.0), Finite(0.0))

  // Authorized on the connection that the call finds, and no zero outstanding.
  predicate Cleared(config: SafetyConfig, log: seq<Entry>, link: Link) {
    SameLink(log, link) && !ZeroOwed(config, log) && !AuthorizationOwed(config, log)
  }

  predicate AfterAuthorization(log: seq<Entry>, command: TimedMotionCommand) {
    var a := LatestAuthorization(log);
    a.Some? && command.created > a.value.call.at
  }

  // There is a run to continue, and its last command is not stale.
  predicate RunGoesOn(config: SafetyConfig, log: seq<Entry>, at: int) {
    FreshRun(config, log) > 0 && !LatestStale(config, log, at)
  }

  // Created after the command it would follow.
  predicate Follows(config: SafetyConfig, log: seq<Entry>, command: TimedMotionCommand, at: int) {
    RunGoesOn(config, log, at) ==>
      var l := LatestAccepted(log);
      l.Some? && command.created > l.value.call.command.created
  }

  // The length of the run that an accepted command would end.
  function RunWith(config: SafetyConfig, log: seq<Entry>, at: int): nat {
    if RunGoesOn(config, log, at) then FreshRun(config, log) + 1 else 1
  }

  // Times that make sense together, and not in the future.
  predicate WellTimed(command: TimedMotionCommand, at: int) {
    0 < command.created <= at && command.created < command.deadline
  }

  predicate InTime(config: SafetyConfig, command: TimedMotionCommand, at: int) {
    at <= command.deadline && at - command.created <= config.maxCommandAge
  }

  // The first reason to turn a command down, or how far its run has come.
  function SubmissionDue(config: SafetyConfig, log: seq<Entry>, call: Call, link: Link): SubmissionStatus
    requires call.CallSubmit?
  {
    var command, at := call.command, call.at;
    if ClockRegressed(log, call) then SubmissionStatus.TimestampInvalid
    else if !link.Usable() then SubmissionStatus.Disconnected
    else if Latched(log) then SubmissionStatus.EmergencyStopLatched
    else if Spent(config, log, link) then SubmissionStatus.Faulted
    else if command.sequence <= TopSequence(config, log) then SequenceInvalid
    else if !WellTimed(command, at) then SubmissionStatus.TimestampInvalid
    else if !InTime(config, command, at) then Stale
    else if !Cleared(config, log, link) then NotAuthorized
    else if !AfterAuthorization(log, command) then PredatesAuthorization
    else if !WithinLimits(config, command.motion) then EncodingRejected
    else if command.motion == STANDSTILL then StopAccepted
    else if !FeedbackTimely(config, log, at) then SubmissionStatus.FeedbackUnavailable
    else if !Follows(config, log, command, at) then SubmissionStatus.TimestampInvalid
    else if RunWith(config, log, at) < config.freshRequired then RecoveryPending
    else Accepted
  }

  // ----- Other calls -----

  function AuthorizationDue(config: SafetyConfig, log: seq<Entry>, call: Call, link: Link): AuthorizationStatus
    requires call.CallAuthorize?
  {
    if ClockRegressed(log, call) then AuthorizationStatus.TimestampInvalid
    else if !link.Usable() then AuthorizationStatus.Disconnected
    else if Latched(log) then AuthorizationStatus.EmergencyStopLatched
    else if Spent(config, log, link) then AuthorizationStatus.Faulted
    else if !SameLink(log, link) || ZeroOwed(config, log) then InitialZeroPending
    else if call.token <= TopToken(log) then TokenInvalid
    else if !FeedbackTimely(config, log, call.at) then AuthorizationStatus.FeedbackUnavailable
    else Authorized
  }

  // A reset is earned by a stop that got out, feedback and a new token.
  predicate ResetDue(config: SafetyConfig, log: seq<Entry>, call: Call, link: Link)
    requires call.CallReset?
  {
    && Latched(log) && !ClockRegressed(log, call)
    && SameLink(log, link) && !ZeroOwed(config, log)
    && call.token > TopReset(log) && FeedbackTimely(config, log, call.at)
  }

  // A stop is taken unless its time is bad or the connection is beyond stopping.
  predicate StopTaken(config: SafetyConfig, log: seq<Entry>, call: Call, link: Link) {
    !ClockRegressed(log, call) && !Spent(config, log, link)
  }

  function ObservationDue(log: seq<Entry>, call: Call, link: Link): FeedbackObservation
    requires call.CallObserveFeedback?
  {
    if ClockRegressed(log, call) then FeedbackObservation(FeedbackStatus.TimestampInvalid, false, false)
    else if !link.Usable() then FeedbackObservation(FeedbackStatus.Disconnected, false, false)
    else if !WellFormedFeedback(call.frame) then FeedbackObservation(FrameInvalid, false, false)
    else if call.frame[1] == 0 then FeedbackObservation(AcceptedControlAllowed, true, true)
    else FeedbackObservation(AcceptedControlInhibited, true, false)
  }

  function ReplyDue(config: SafetyConfig, log: seq<Entry>, call: Call, link: Link): Reply
    requires !call.CallTick?
  {
    match call
    case CallAuthorize(_, _) => Authorization(AuthorizationDue(config, log, call, link))
    case CallDisarm(_) => Flag(StopTaken(config, log, call, link))
    case CallRequestStop(_) => Flag(StopTaken(config, log, call, link))
    case CallSubmit(_, _) => Submission(SubmissionDue(config, log, call, link))
    case CallObserveFeedback(_, _) => Observation(ObservationDue(log, call, link))
    case CallLatch(_) => NoReply
    case CallReset(_, _) => Flag(ResetDue(config, log, call, link))
  }

  // ----- The mode -----

  // What a session on a live connection is doing.
  function ModeDue(config: SafetyConfig, log: seq<Entry>): Mode {
    if Met(log).None? then Mode.Disconnected
    else if Attempts(log) >= config.maxZeroAttempts then Mode.Faulted
    else if ZeroOwed(config, log) then StopPending
    else if Latched(log) then Mode.EmergencyStopLatched
    else if AuthorizationOwed(config, log) then ConnectedInhibited
    else if FreshRun(config, log) >= config.freshRequired then Active
    else Recovering
  }

  // ----- Cycles -----

  // The budget is not spent, and the retry interval after a failure is over.
  predicate ZeroDue(config: SafetyConfig, log: seq<Entry>, at: int) {
    && Attempts(log) < config.maxZeroAttempts
    && (Attempts(log) > 0 ==> LatestZeroWrite(log).Some? && at >= RetryTime(config, LatestZeroWrite(log).value))
  }

  // The exact zero frame, written at once on this generation.
  predicate WritesZero(config: SafetyConfig, generation: uint64, at: int, e: Entry) {
    && IsZero(e) && e.frame == ZERO_FRAME && e.generation == generation
    && e.start == at && e.deadline == SaturatingAdd(at, config.writeTimeout)
  }

  // The latest accepted command, written at once on this generation.
  predicate WritesMotion(config: SafetyConfig, log: seq<Entry>, generation: uint64, at: int, e: Entry) {
    var l := LatestAccepted(log);
    && IsMotion(e) && l.Some? && Encode(l.value.call.command.motion, config.maxLinear) == Encoded(e.frame)
    && e.generation == generation && e.start == at
    && e.deadline == Min(SaturatingAdd(at, config.writeTimeout), l.value.call.command.deadline)
  }

  // The last motion on this connection ended less than a period ago.
  predicate TooSoon(config: SafetyConfig, log: seq<Entry>, at: int) {
    LastMotion(log) > 0 && at - LastMotion(log) < config.transmitPeriod
  }

  // The report of a cycle that did nothing, its mode aside.
  const IDLE := CycleResult(NoAction, Mode.Disconnected, Ok, false, false, false, false, false, 0)

  function StatusOf(o: Outcome): TransportStatus {
    if o.Returned? then o.result.status else IoError
  }

  predicate SaysComplete(o: Outcome) {
    o.Returned? && o.result.hostWriteComplete
  }

  predicate Uncertain(o: Outcome) {
    o.Threw? || o.result.outcomeUncertain
  }

  function Disconnecting(report: CycleResult): CycleResult {
    report.(action := CycleAction.Disconnected, transportStatus := TransportStatus.Disconnected, uncertain := true)
  }

  // The report after the n-th zero write in a row.
  function ZeroReported(config: SafetyConfig, n: nat, e: WriteEntry, before: CycleResult): CycleResult {
    var report := before.(zeroAttempted := true, zeroComplete := SaysComplete(e.outcome), zeroAttempts := n,
                          transportStatus := StatusOf(e.outcome),
                          uncertain := before.uncertain || Uncertain(e.outcome));
    if DropsSession(e) then Disconnecting(report)
    else if WriteDone(e) then report.(action := ZeroHostWriteComplete)
    else if n >= config.maxZeroAttempts then report.(action := ZeroRetriesExhausted, uncertain := true)
    else report.(action := ZeroHostWriteFailed)
  }

  function MotionReported(e: WriteEntry): CycleResult {
    var report := IDLE.(motionAttempted := true, motionComplete := SaysComplete(e.outcome),
                        transportStatus := StatusOf(e.outcome), uncertain := Uncertain(e.outcome));
    if WriteDone(e) then report.(action := MotionHostWriteComplete)
    else if DropsSession(e) then Disconnecting(report)
    else report
  }

  // The same report, whatever the mode.
  predicate Reports(reply: Reply, report: CycleResult) {
    reply.Cycle? && reply.cycle == report.(mode := reply.cycle.mode)
  }

  // A cycle while a zero is owed, once it has looked at clock and link.
  predicate ZeroAnswers(config: SafetyConfig, log: seq<Entry>, e: Entry, writes: seq<WriteEntry>)
    requires e.Called?
  {
    if Attempts(log) >= config.maxZeroAttempts then writes == [] && Reports(e.reply, IDLE)
    else if !ZeroDue(config, log, e.call.at) then
      writes == [] && Reports(e.reply, IDLE.(action := ZeroRetryPending, zeroAttempts := Attempts(log)))
    else
      && |writes| == 1 && WritesZero(config, e.link.generation, e.call.at, writes[0])
      && Reports(e.reply, ZeroReported(config, Attempts(log) + 1, writes[0], IDLE))
  }

  // A cycle that writes motion; if that fails on a link that stays up, a zero
  // write follows on the spot.
  predicate MotionAnswers(config: SafetyConfig, log: seq<Entry>, e: Entry, writes: seq<WriteEntry>)
    requires e.Called?
  {
    && writes != [] && WritesMotion(config, log, e.link.generation, e.call.at, writes[0])
    && var m := writes[0];
       if WriteDone(m) || DropsSession(m) then |writes| == 1 && Reports(e.reply, MotionReported(m))
       else
         && |writes| == 2
         && WritesZero(config, m.outcome.after.generation, Max(m.start, WriteEnd(m)), writes[1])
         && Reports(e.reply, ZeroReported(config, 1, writes[1], MotionReported(m)))
  }

  // A cycle with a valid time on a usable link.  The log ends with its entry.
  predicate LiveAnswers(config: SafetyConfig, log: seq<Entry>, e: Entry, writes: seq<WriteEntry>)
    requires e.Called?
  {
    if ZeroOwed(config, log) then ZeroAnswers(config, log, e, writes)
    else if FreshRun(config, log) < config.freshRequired then writes == [] && Reports(e.reply, IDLE)
    else if TooSoon(config, log, e.call.at) then
      writes == [] && Reports(e.reply, IDLE.(action := TransmitRateLimited))
    else MotionAnswers(config, log, e, writes)
  }

  predicate CycleAnswers(config: SafetyConfig, log: seq<Entry>, e: Entry, writes: seq<WriteEntry>)
    requires e.Called?
  {
    if ClockRegressed(log, e.call) then
      && writes == []
      && Reports(e.reply, IDLE.(action := ClockInvalid, transportStatus := InvalidArgument, uncertain := true))
    else if !e.link.Usable() then writes == [] && Reports(e.reply, Disconnecting(IDLE))
    else
      && LiveAnswers(config, log + [e], e, writes)
      && ((forall w :: w in writes ==> KeepsLink(w) || DropsSession(w)) ==>
            e.reply.Cycle? && e.reply.cycle.mode == ModeDue(config, log + [e] + writes))
  }

  // Entry e, coming after `log`, and the writes it makes are as they must be.
  predicate Proper(config: SafetyConfig, log: seq<Entry>, e: Entry, writes: seq<WriteEntry>)
    requires e.Called?
  {
    if e.call.CallTick? then CycleAnswers(config, log, e, writes)
    else writes == [] && e.reply == ReplyDue(config, log, e.call, e.link)
  }

  // ----- Positions in a log -----

  // The writes that the call at i made.
  function WritesAfter(log: seq<Entry>, i: nat): seq<WriteEntry>
    decreases |log| - i
  {
    if i + 1 < |log| && log[i + 1].Wrote? then [log[i + 1]] + WritesAfter(log, i + 1) else []
  }

  predicate ProperAt(config: SafetyConfig, log: seq<Entry>, i: nat)
    requires i < |log|
  {
    log[i].Called? ==> Proper(config, log[..i], log[i], WritesAfter(log, i))
  }

  predicate AllProper(config: SafetyConfig, log: seq<Entry>) {
    forall i :: 0 <= i < |log| ==> ProperAt(config, log, i)
  }
}
