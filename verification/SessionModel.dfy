// What each public operation of the safety session means, as a function on the
// session's state, and the runs and logs the theorems speak about.

module SessionModel {
  import opened Wrappers
  import opened Protocol
  import opened TransportModel

  datatype SafetyConfig = SafetyConfig(
    maxLinear: Double, maxYaw: Double,
    maxCommandAge: int64, feedbackTimeout: int64, transmitPeriod: int64,
    writeTimeout: int64, zeroRetryInterval: int64,
    maxZeroAttempts: uint32, freshRequired: uint32)

  const MAXIMUM_DURATION: int64 := 60_000_000_000

  predicate ConfigIsValid(c: SafetyConfig) {
    && IsValidMaxLinearSpeed(c.maxLinear)
    && c.maxYaw.Finite? && 0.0 < c.maxYaw.value <= 32.767
    && 0 < c.maxCommandAge <= MAXIMUM_DURATION
    && 0 < c.feedbackTimeout <= MAXIMUM_DURATION
    && 0 < c.transmitPeriod <= MAXIMUM_DURATION
    && 0 < c.writeTimeout <= MAXIMUM_DURATION
    && 0 < c.zeroRetryInterval <= MAXIMUM_DURATION
    && c.writeTimeout <= c.transmitPeriod < c.maxCommandAge
    && c.transmitPeriod < c.feedbackTimeout
    && 0 < c.maxZeroAttempts <= 20
    && 0 < c.freshRequired <= 100
  }

  datatype TimedMotionCommand = TimedMotionCommand(
    sequence: uint64, created: int64, deadline: int64, motion: MotionCommand)

  datatype Mode =
    | ConfigurationInvalid
    | Disconnected
    | ConnectedInhibited
    | Recovering
    | Active
    | StopPending
    | EmergencyStopLatched
    | Faulted

  datatype AuthorizationStatus =
    | Authorized
    | ConfigurationInvalid
    | Disconnected
    | InitialZeroPending
    | FeedbackUnavailable
    | EmergencyStopLatched
    | Faulted
    | TokenInvalid
    | TimestampInvalid

  datatype SubmissionStatus =
    | Accepted
    | RecoveryPending
    | StopAccepted
    | ConfigurationInvalid
    | Disconnected
    | NotAuthorized
    | SequenceInvalid
    | TimestampInvalid
    | Stale
    | PredatesAuthorization
    | FeedbackUnavailable
    | EncodingRejected
    | EmergencyStopLatched
    | Faulted

  datatype FeedbackStatus =
    | AcceptedControlAllowed
    | AcceptedControlInhibited
    | FrameInvalid
    | TimestampInvalid
    | Disconnected
    | ConfigurationInvalid

  datatype FeedbackObservation = FeedbackObservation(
    status: FeedbackStatus, validFrame: bool, controlAllowed: bool)

  datatype CycleAction =
    | NoAction
    | TransmitRateLimited
    | MotionHostWriteComplete
    | ZeroHostWriteComplete
    | ZeroHostWriteFailed
    | ZeroRetryPending
    | ZeroRetriesExhausted
    | Disconnected
    | ConfigurationInvalid
    | ClockInvalid

  datatype CycleResult = CycleResult(
    action: CycleAction, mode: Mode, transportStatus: TransportStatus,
    motionAttempted: bool, motionComplete: bool,
    zeroAttempted: bool, zeroComplete: bool,
    uncertain: bool, zeroAttempts: nat)

  datatype Sync = Unchanged | NewGeneration | Lost

  // ----- State -----

  datatype Permit = NoPermit | Permit(generation: uint64, time: int)

  // The stored command and the length, capped, of the run it ends.
  datatype Intent = NoIntent | Intent(command: TimedMotionCommand, frame: CommandFrame, receipt: int, streak: nat)

  // A pending attempt to get a zero frame out.
  datatype Episode = NoEpisode | Episode(after: Mode, attempts: nat, next: int)

  datatype Session = Session(
    config: SafetyConfig, configured: bool, mode: Mode,
    known: bool, generation: uint64, seen: int,
    permit: Permit, topToken: uint64, topSequence: uint64,
    intent: Intent, lastMotion: int, feedback: Option<int>,
    episode: Episode, latched: bool, topReset: uint64)

  predicate SameSetup(s: Session, r: Session) {
    r.config == s.config && r.configured == s.configured
  }

  function SaturatingAdd(value: int, delta: int): int {
    if delta <= 0 then value
    else if value > INT64_MAX - delta then INT64_MAX
    else value + delta
  }

  function Revoke(s: Session): Session {
    s.(permit := NoPermit)
  }

  function ClearIntent(s: Session): Session {
    s.(intent := NoIntent)
  }

  function Halt(s: Session): Session {
    ClearIntent(Revoke(s))
  }

  predicate IsAuthorized(s: Session) {
    && s.configured && s.known && s.permit.Permit? && !s.latched
    && s.permit.generation == s.generation && s.permit.time > 0
    && !s.mode.Faulted?
  }

  predicate FeedbackIsFresh(s: Session, now: int) {
    s.feedback.Some? && 0 < s.feedback.value <= now && now - s.feedback.value <= s.config.feedbackTimeout
  }

  predicate CommandIsFresh(s: Session, now: int) {
    && s.intent.Intent? && s.intent.receipt > 0
    && s.intent.command.created <= now && s.intent.receipt <= now
    && now <= s.intent.command.deadline
    && now - s.intent.command.created <= s.config.maxCommandAge
    && now - s.intent.receipt <= s.config.maxCommandAge
  }

  function WriteDeadline(s: Session, now: int, commandDeadline: int): int {
    Min(SaturatingAdd(now, s.config.writeTimeout), commandDeadline)
  }

  function BeginZero(s: Session, link: Link, after: Mode, earliest: int): (r: Session)
    ensures SameSetup(s, r)
  {
    if !s.known || !link.connected then s.(mode := Mode.Disconnected)
    else if s.mode.Faulted? then s
    else if s.episode.Episode? then
      if after.EmergencyStopLatched? || (after.ConnectedInhibited? && s.episode.after.Recovering?)
      then s.(episode := s.episode.(after := after))
      else s
    else s.(episode := Episode(after, 0, Max(0, earliest)), mode := StopPending)
  }

  // The mode to return to when motion is not to be resumed.
  function RestMode(s: Session): Mode {
    if s.latched then Mode.EmergencyStopLatched else ConnectedInhibited
  }

  // Nothing that belongs to one connection survives its end.
  function Forgotten(s: Session): Session {
    s.(permit := NoPermit, intent := NoIntent, feedback := None, episode := NoEpisode, lastMotion := 0)
  }

  function Dropped(s: Session): (r: Session)
    ensures SameSetup(s, r)
  {
    Forgotten(s).(known := false, mode := if s.configured then Mode.Disconnected else s.mode)
  }

  function Attached(s: Session, link: Link): (r: Session)
    ensures SameSetup(s, r)
  {
    BeginZero(Forgotten(s).(known := true, generation := link.generation, mode := ConnectedInhibited),
              link, RestMode(s), 0)
  }

  function Synchronize(s: Session, link: Link): (r: (Session, Sync))
    ensures SameSetup(s, r.0)
  {
    if !link.Usable() then (Dropped(s), Lost)
    else if !s.known || link.generation != s.generation then (Attached(s, link), NewGeneration)
    else (s, Unchanged)
  }

  predicate ClockOk(s: Session, now: int) {
    now > 0 && !(s.seen > 0 && now < s.seen)
  }

  function Observe(s: Session, now: int): Session {
    s.(seen := Max(s.seen, now))
  }

  function ClockFailed(s: Session, link: Link): (r: Session)
    ensures SameSetup(s, r)
  {
    var h := Halt(s).(feedback := None);
    if s.known && link.connected then BeginZero(h, link, RestMode(s), s.seen) else h
  }

  // Halt and send a zero, staying inhibited afterwards.
  function Inhibit(s: Session, link: Link, now: int): (r: Session)
    ensures SameSetup(s, r)
  {
    BeginZero(Halt(s), link, RestMode(s), now)
  }

  // ----- Operations -----

  function Authorize(s: Session, link: Link, token: uint64, now: int): (r: (Session, AuthorizationStatus))
    ensures SameSetup(s, r.0)
  {
    if !s.configured then (s, AuthorizationStatus.ConfigurationInvalid)
    else if !ClockOk(s, now) then (ClockFailed(s, link), AuthorizationStatus.TimestampInvalid)
    else
      var (c, sync) := Synchronize(Observe(s, now), link);
      if sync.Lost? then (c, AuthorizationStatus.Disconnected)
      else if c.latched then (c, AuthorizationStatus.EmergencyStopLatched)
      else if c.mode.Faulted? then (c, AuthorizationStatus.Faulted)
      else if c.episode.Episode? || sync.NewGeneration? then (c, InitialZeroPending)
      else if token == 0 || token <= c.topToken then (c, TokenInvalid)
      else if !FeedbackIsFresh(c, now) then (c, AuthorizationStatus.FeedbackUnavailable)
      else
        (ClearIntent(c).(topToken := token, permit := Permit(c.generation, now), mode := Recovering), Authorized)
  }

  function Disarm(s: Session, link: Link, now: int): (r: (Session, bool))
    ensures SameSetup(s, r.0)
  {
    if !s.configured then (s, false)
    else if !ClockOk(s, now) then (ClockFailed(s, link), false)
    else
      var (c, sync) := Synchronize(Observe(s, now), link);
      if sync.Lost? then (c, true)
      else if c.mode.Faulted? then (c, false)
      else (Inhibit(c, link, now), true)
  }

  function RequestStop(s: Session, link: Link, now: int): (r: (Session, bool))
    ensures SameSetup(s, r.0)
  {
    if !s.configured then (s, false)
    else if !ClockOk(s, now) then (ClockFailed(s, link), false)
    else
      var (c, sync) := Synchronize(Observe(s, now), link);
      if sync.Lost? then (c, true)
      else if c.mode.Faulted? then (c, false)
      else
        var after := if IsAuthorized(c) then Recovering else RestMode(c);
        (BeginZero(ClearIntent(c), link, after, now), true)
  }

  predicate MotionAllowed(config: SafetyConfig, motion: MotionCommand) {
    && motion.yaw.Finite? && config.maxYaw.Finite? && Abs(motion.yaw.value) <= config.maxYaw.value
    && motion.lateral == Finite(0.0)
    && Encode(motion, config.maxLinear).Encoded?
  }

  predicate PredecessorStale(s: Session, now: int) {
    s.intent.Intent? &&
    (now > s.intent.command.deadline || now - s.intent.receipt > s.config.maxCommandAge)
  }

  // The length of the run that an accepted command ends, capped.
  function FreshCount(s: Session, now: int): nat {
    var before := if s.intent.NoIntent? || PredecessorStale(s, now) then 0 else s.intent.streak;
    if before < s.config.freshRequired then before + 1 else before
  }

  // The first reason to turn a command down, judged on the synchronised state.
  function Verdict(s: Session, sync: Sync, command: TimedMotionCommand, now: int): SubmissionStatus {
    if sync.Lost? then SubmissionStatus.Disconnected
    else if s.latched then SubmissionStatus.EmergencyStopLatched
    else if s.mode.Faulted? then SubmissionStatus.Faulted
    else if command.sequence == 0 || command.sequence <= s.topSequence then SequenceInvalid
    else NewVerdict(s, sync, command, now)
  }

  // The same for a command with a new sequence number.
  function NewVerdict(s: Session, sync: Sync, command: TimedMotionCommand, now: int): (v: SubmissionStatus)
    ensures v.Accepted? || v.RecoveryPending? ==> Encode(command.motion, s.config.maxLinear).Encoded?
    ensures !v.ConfigurationInvalid? && !v.Disconnected? && !v.EmergencyStopLatched?
    ensures !v.Faulted? && !v.SequenceInvalid?
  {
    if command.created <= 0 || command.created > now || command.deadline <= command.created then
      SubmissionStatus.TimestampInvalid
    else if now > command.deadline || now - command.created > s.config.maxCommandAge then Stale
    else TimelyVerdict(s, sync, command, now)
  }

  // The same for a new command that is neither malformed nor late.
  function TimelyVerdict(s: Session, sync: Sync, command: TimedMotionCommand, now: int): (v: SubmissionStatus)
    ensures v.Accepted? || v.RecoveryPending? ==> Encode(command.motion, s.config.maxLinear).Encoded?
    ensures !v.ConfigurationInvalid? && !v.Disconnected? && !v.EmergencyStopLatched?
    ensures !v.Faulted? && !v.SequenceInvalid?
  {
    if !IsAuthorized(s) || s.episode.Episode? || sync.NewGeneration? then NotAuthorized
    else if command.created <= s.permit.time then PredatesAuthorization
    else if !MotionAllowed(s.config, command.motion) then EncodingRejected
    else if CommandIsExactZero(command.motion) then StopAccepted
    else if !FeedbackIsFresh(s, now) then SubmissionStatus.FeedbackUnavailable
    else if s.intent.Intent? && !PredecessorStale(s, now) && command.created <= s.intent.command.created then
      SubmissionStatus.TimestampInvalid
    else if FreshCount(s, now) >= s.config.freshRequired then Accepted
    else RecoveryPending
  }

  function Settle(s: Session, link: Link, command: TimedMotionCommand, now: int, verdict: SubmissionStatus)
    : (r: Session)
    requires verdict.Accepted? || verdict.RecoveryPending? ==> Encode(command.motion, s.config.maxLinear).Encoded?
    ensures SameSetup(s, r)
  {
    var c := s.(topSequence := command.sequence);
    match verdict
    case ConfigurationInvalid | Disconnected | EmergencyStopLatched | Faulted => s
    case SequenceInvalid => BeginZero(Halt(s), link, ConnectedInhibited, now)
    case TimestampInvalid | EncodingRejected => BeginZero(Halt(c), link, ConnectedInhibited, now)
    case Stale =>
      BeginZero(ClearIntent(c), link, if IsAuthorized(c) then Recovering else ConnectedInhibited, now)
    case NotAuthorized => ClearIntent(c)
    case PredatesAuthorization | StopAccepted | FeedbackUnavailable =>
      BeginZero(ClearIntent(c), link, Recovering, now)
    case Accepted | RecoveryPending =>
      c.(intent := Intent(command, Encode(command.motion, s.config.maxLinear).frame, now, FreshCount(s, now)),
         mode := if verdict.Accepted? then Active else Recovering)
  }

  function Submit(s: Session, link: Link, command: TimedMotionCommand, now: int): (r: (Session, SubmissionStatus))
    ensures SameSetup(s, r.0)
  {
    if !s.configured then (s, SubmissionStatus.ConfigurationInvalid)
    else if !ClockOk(s, now) then (ClockFailed(s, link), SubmissionStatus.TimestampInvalid)
    else
      var (c, sync) := Synchronize(Observe(s, now), link);
      var verdict := Verdict(c, sync, command, now);
      (Settle(c, link, command, now, verdict), verdict)
  }

  function ObserveFeedback(s: Session, link: Link, frame: seq<Byte>, now: int): (r: (Session, FeedbackObservation))
    ensures SameSetup(s, r.0)
  {
    if !s.configured then (s, FeedbackObservation(FeedbackStatus.ConfigurationInvalid, false, false))
    else if !ClockOk(s, now) then
      (ClockFailed(s, link), FeedbackObservation(FeedbackStatus.TimestampInvalid, false, false))
    else
      var (c, sync) := Synchronize(Observe(s, now), link);
      if sync.Lost? then (c, FeedbackObservation(FeedbackStatus.Disconnected, false, false))
      else if !IsFeedbackFrame(frame) then (c, FeedbackObservation(FrameInvalid, false, false))
      else if AllowsControl(frame) then
        (c.(feedback := Some(now)), FeedbackObservation(AcceptedControlAllowed, true, true))
      else
        (Inhibit(c.(feedback := None), link, now), FeedbackObservation(AcceptedControlInhibited, true, false))
  }

  function LatchEmergencyStop(s: Session, link: Link, now: int): (r: Session)
    ensures SameSetup(s, r)
  {
    var h := Halt(s).(latched := true, feedback := None);
    if !s.configured then h.(mode := Mode.ConfigurationInvalid)
    else
      var observed := if ClockOk(s, now) then Observe(h, now) else h;
      var (c, sync) := Synchronize(observed, link);
      if sync.Lost? || c.mode.Faulted? then c
      else BeginZero(c, link, Mode.EmergencyStopLatched, if ClockOk(s, now) then now else s.seen)
  }

  function ResetEmergencyStop(s: Session, link: Link, token: uint64, now: int): (r: (Session, bool))
    ensures SameSetup(s, r.0)
  {
    if !s.configured || !s.latched then (s, false)
    else if !ClockOk(s, now) then (ClockFailed(s, link), false)
    else
      var (c, sync) := Synchronize(Observe(s, now), link);
      if !sync.Unchanged? || c.episode.Episode? || c.mode.Faulted?
         || token == 0 || token <= c.topReset || !FeedbackIsFresh(c, now)
      then (c, false)
      else (Halt(c).(topReset := token, latched := false, mode := ConnectedInhibited), true)
  }

  // ----- The write log -----

  datatype Reply =
    | Authorization(authorization: AuthorizationStatus)
    | Flag(flag: bool)
    | Submission(submission: SubmissionStatus)
    | Observation(observation: FeedbackObservation)
    | Cycle(cycle: CycleResult)
    | NoReply

  datatype Call =
    | CallAuthorize(token: uint64, at: int64)
    | CallDisarm(at: int64)
    | CallRequestStop(at: int64)
    | CallSubmit(command: TimedMotionCommand, at: int64)
    | CallObserveFeedback(frame: seq<Byte>, at: int64)
    | CallLatch(at: int64)
    | CallReset(token: uint64, at: int64)
    | CallTick(at: int64)

  // One entry per public call, with the link it met and what it returned,
  // followed by one entry per writeAll it made.
  datatype Entry =
    | Called(call: Call, link: Link, reply: Reply)
    | Wrote(motion: bool, frame: CommandFrame, generation: uint64,
            start: int, deadline: int, outcome: Outcome)

  // The result the session works with; a throw counts as an uncertain I/O error.
  function ResultOf(o: Outcome, now: int): IoResult
    requires INT64_MIN <= now <= INT64_MAX
  {
    if o.Returned? then o.result else IoResult(IoError, 0, EIO, false, true, now)
  }

  type WriteEntry = e: Entry | e.Wrote?
    witness Wrote(false, ZERO_FRAME, 0, 0, 0, Threw(Link(false, 0)))

  predicate Delivered(r: IoResult) {
    r.status.Ok? && r.hostWriteComplete && r.bytesTransferred == COMMAND_FRAME_SIZE
  }

  predicate WriteDone(e: Entry) {
    e.Wrote? && e.outcome.Returned? && Delivered(e.outcome.result)
  }

  // The instant the write ended, as far as the session knows.
  function WriteEnd(e: Entry): int
    requires e.Wrote?
  {
    if e.outcome.Returned? then e.outcome.result.completion else e.start
  }

  // ----- The cycle -----

  datatype Ticked = Ticked(session: Session, link: Link, cycle: CycleResult, writes: seq<WriteEntry>)

  function DisconnectedCycle(s: Session, cycle: CycleResult): CycleResult {
    cycle.(action := CycleAction.Disconnected, mode := s.mode,
           transportStatus := TransportStatus.Disconnected, uncertain := true)
  }

  function ZeroCounted(s: Session, r: IoResult): Session
    requires s.episode.Episode?
  {
    s.(episode := s.episode.(attempts := s.episode.attempts + 1), seen := Max(s.seen, r.completion))
  }

  function ZeroReport(s: Session, r: IoResult, before: CycleResult): CycleResult
    requires s.episode.Episode?
  {
    before.(zeroAttempted := true, zeroAttempts := s.episode.attempts + 1,
            zeroComplete := r.hostWriteComplete,
            uncertain := before.uncertain || r.outcomeUncertain,
            transportStatus := r.status)
  }

  // The state that a zero write which ended with `r` leaves behind.
  function ZeroLeft(s: Session, up: bool, now: int, r: IoResult): (n: Session)
    requires s.episode.Episode?
    ensures SameSetup(s, n)
  {
    var tried := ZeroCounted(s, r);
    if r.status.Disconnected? || !up then Dropped(tried)
    else if Delivered(r) then
      tried.(episode := NoEpisode, mode := if s.latched then Mode.EmergencyStopLatched else s.episode.after)
    else if tried.episode.attempts >= s.config.maxZeroAttempts then
      tried.(episode := NoEpisode, mode := Mode.Faulted)
    else
      tried.(episode := tried.episode.(next := SaturatingAdd(Max(now, r.completion), s.config.zeroRetryInterval)))
  }

  function ZeroEnded(s: Session, up: bool, now: int64, r: IoResult, before: CycleResult): (e: (Session, CycleResult))
    requires s.episode.Episode?
    ensures SameSetup(s, e.0)
  {
    var n := ZeroLeft(s, up, now, r);
    var report := ZeroReport(s, r, before);
    (n,
     if r.status.Disconnected? || !up then DisconnectedCycle(n, report)
     else if Delivered(r) then report.(action := ZeroHostWriteComplete, mode := n.mode)
     else if s.episode.attempts + 1 >= s.config.maxZeroAttempts then
       report.(action := ZeroRetriesExhausted, mode := n.mode, uncertain := true)
     else report.(action := ZeroHostWriteFailed, mode := s.mode))
  }

  function AttemptZero(s: Session, link: Link, now: int64, o: Outcome, before: CycleResult): (r: Ticked)
    ensures SameSetup(s, r.session)
  {
    var cycle := before.(mode := s.mode);
    if s.episode.NoEpisode? then Ticked(s, link, cycle, [])
    else if now < s.episode.next then
      Ticked(s, link, cycle.(action := ZeroRetryPending, zeroAttempts := s.episode.attempts), [])
    else
      var entry := Wrote(false, ZERO_FRAME, link.generation, now, WriteDeadline(s, now, INT64_MAX), o);
      var (ended, report) := ZeroEnded(s, o.after.connected, now, ResultOf(o, now), cycle);
      Ticked(ended, o.after, report, [entry])
  }

  // A motion write that did not get out: stop, and try a zero at once.
  function MotionFailed(s: Session, after: Link, now: int64, r: IoResult, second: Outcome, report: CycleResult)
    : (t: Ticked)
    ensures SameSetup(s, t.session)
  {
    if r.status.Disconnected? || !after.connected then
      var d := Dropped(Halt(s));
      Ticked(d, after, DisconnectedCycle(d, report), [])
    else
      var start := Max(now, r.completion);
      AttemptZero(BeginZero(Halt(s), after, ConnectedInhibited, start), after, start, second, report)
  }

  // The motion write of a cycle that found everything in order.
  function SendMotion(s: Session, link: Link, now: int64, first: Outcome, second: Outcome, before: CycleResult)
    : (t: Ticked)
    requires s.intent.Intent?
    ensures SameSetup(s, t.session)
  {
    var r := ResultOf(first, now);
    var entry := Wrote(true, s.intent.frame, link.generation, now,
                       WriteDeadline(s, now, s.intent.command.deadline), first);
    var report := before.(motionAttempted := true, transportStatus := r.status,
                          motionComplete := r.hostWriteComplete, uncertain := r.outcomeUncertain);
    if Delivered(r) then
      var end := if r.completion > 0 then r.completion else now;
      Ticked(s.(lastMotion := end, seen := Max(s.seen, end)), first.after,
             report.(action := MotionHostWriteComplete, mode := s.mode), [entry])
    else
      var z := MotionFailed(s, first.after, now, r, second, report);
      z.(writes := [entry] + z.writes)
  }

  // Stop motion and try a zero in the same cycle.
  function StopAndTry(s: Session, link: Link, after: Mode, now: int64, o: Outcome, blank: CycleResult): (r: Ticked)
    ensures SameSetup(s, r.session)
  {
    AttemptZero(BeginZero(ClearIntent(s), link, after, now), link, now, o, blank)
  }

  // A cycle on a synchronised, connected session.
  function ConnectedTick(s: Session, link: Link, now: int64, first: Outcome, second: Outcome, blank: CycleResult)
    : (r: Ticked)
    ensures SameSetup(s, r.session)
  {
    if s.episode.Episode? then AttemptZero(s, link, now, first, blank)
    else if s.mode.Faulted? then Ticked(s, link, blank.(mode := s.mode), [])
    else if s.latched then
      Ticked(s.(mode := Mode.EmergencyStopLatched), link, blank.(mode := Mode.EmergencyStopLatched), [])
    else if !s.mode.Active? then Ticked(s, link, blank.(mode := s.mode), [])
    else if !IsAuthorized(s) then StopAndTry(s, link, ConnectedInhibited, now, first, blank)
    else if !FeedbackIsFresh(s, now) || !CommandIsFresh(s, now) then
      StopAndTry(s, link, Recovering, now, first, blank)
    else if s.lastMotion > 0 && now - s.lastMotion < s.config.transmitPeriod then
      Ticked(s, link, blank.(action := TransmitRateLimited, mode := s.mode), [])
    else SendMotion(s, link, now, first, second, blank)
  }

  function Tick(s: Session, link: Link, now: int64, first: Outcome, second: Outcome): (r: Ticked)
    ensures SameSetup(s, r.session)
  {
    var blank := CycleResult(NoAction, s.mode, Ok, false, false, false, false, false, 0);
    if !s.configured then
      Ticked(s, link, blank.(action := CycleAction.ConfigurationInvalid, mode := Mode.ConfigurationInvalid,
                             transportStatus := InvalidArgument), [])
    else if !ClockOk(s, now) then
      var f := ClockFailed(s, link);
      Ticked(f, link, blank.(action := ClockInvalid, mode := f.mode, transportStatus := InvalidArgument,
                             uncertain := true), [])
    else
      var (c, sync) := Synchronize(Observe(s, now), link);
      if sync.Lost? then Ticked(c, link, DisconnectedCycle(c, blank), [])
      else ConnectedTick(c, link, now, first, second, blank)
  }

  // ----- Runs -----

  // A call, the link it meets, and how the at most two writes it makes end.
  datatype Turn = Turn(call: Call, link: Link, first: Outcome, second: Outcome)

  datatype Stepped = Stepped(session: Session, link: Link, reply: Reply, writes: seq<WriteEntry>)

  function Step(s: Session, t: Turn): (r: Stepped)
    ensures SameSetup(s, r.session)
  {
    match t.call
    case CallAuthorize(token, at) =>
      var (n, status) := Authorize(s, t.link, token, at); Stepped(n, t.link, Authorization(status), [])
    case CallDisarm(at) =>
      var (n, ok) := Disarm(s, t.link, at); Stepped(n, t.link, Flag(ok), [])
    case CallRequestStop(at) =>
      var (n, ok) := RequestStop(s, t.link, at); Stepped(n, t.link, Flag(ok), [])
    case CallSubmit(command, at) =>
      var (n, status) := Submit(s, t.link, command, at); Stepped(n, t.link, Submission(status), [])
    case CallObserveFeedback(frame, at) =>
      var (n, o) := ObserveFeedback(s, t.link, frame, at); Stepped(n, t.link, Observation(o), [])
    case CallLatch(at) =>
      Stepped(LatchEmergencyStop(s, t.link, at), t.link, NoReply, [])
    case CallReset(token, at) =>
      var (n, ok) := ResetEmergencyStop(s, t.link, token, at); Stepped(n, t.link, Flag(ok), [])
    case CallTick(at) =>
      var k := Tick(s, t.link, at, t.first, t.second); Stepped(k.session, k.link, Cycle(k.cycle), k.writes)
  }

  function Created(config: SafetyConfig): Session {
    Session(config, ConfigIsValid(config),
            if ConfigIsValid(config) then Mode.Disconnected else Mode.ConfigurationInvalid,
            false, 0, 0, NoPermit, 0, 0, NoIntent, 0, None, NoEpisode, false, 0)
  }

  // A new session over a transport in the given condition.
  function Initial(config: SafetyConfig, link: Link): Session {
    if ConfigIsValid(config) then Synchronize(Created(config), link).0 else Created(config)
  }

  datatype World = World(session: Session, link: Link, log: seq<Entry>)

  function Next(w: World, t: Turn): World {
    var r := Step(w.session, t);
    World(r.session, r.link, w.log + [Called(t.call, t.link, r.reply)] + r.writes)
  }

  function Run(config: SafetyConfig, link: Link, turns: seq<Turn>): World {
    if turns == [] then World(Initial(config, link), link, [])
    else Next(Run(config, link, turns[..|turns| - 1]), turns[|turns| - 1])
  }

  // Links follow on one another between calls and through each write.
  predicate TurnAllowed(link: Link, t: Turn) {
    LinkFollows(link, t.link) && LinkFollows(t.link, t.first.after) && LinkFollows(t.first.after, t.second.after)
  }

  // Links followed on one another all through the run.
  predicate Admissible(config: SafetyConfig, link: Link, turns: seq<Turn>) {
    turns != [] ==>
      var before := turns[..|turns| - 1];
      Admissible(config, link, before) && TurnAllowed(Run(config, link, before).link, turns[|turns| - 1])
  }
}
