// The safety session as the source writes it: an object whose methods update
// its fields.  Each public method is proved to make the step of the session
// model on its abstract value, to hand its transport exactly the writes of that
// step, and to keep `Valid`.  Its times are int64 throughout.

module SafetySessions {
  import opened Wrappers
  import opened Protocol
  import opened TransportModel
  import opened ScriptedTransports
  import opened SessionModel
  import Spec = SessionModel

  const NO_COMMAND := TimedMotionCommand(0, 0, 0, MotionCommand(Finite(0.0), Finite(0.0), Finite(0.0)))
  const NO_FRAME: CommandFrame := Zeros(COMMAND_FRAME_SIZE)

  ghost function SentOf(e: WriteEntry): Sent {
    Sent(e.frame, e.generation, e.deadline, e.outcome)
  }

  ghost function AllSent(writes: seq<WriteEntry>): seq<Sent> {
    seq(|writes|, i requires 0 <= i < |writes| => SentOf(writes[i]))
  }

  lemma AllSentCons(sent: seq<Sent>, e: WriteEntry, rest: seq<WriteEntry>)
    ensures sent + AllSent([e] + rest) == (sent + [SentOf(e)]) + AllSent(rest)
  {
  }

  // The fields that a flag switches on are one optional value.

  function ThePermit(active: bool, generation: uint64, time: int64): Permit {
    if active then Permit(generation, time) else NoPermit
  }

  function TheIntent(valid: bool, command: TimedMotionCommand, frame: CommandFrame, receipt: int64, streak: uint32)
    : Intent
  {
    if valid then Intent(command, frame, receipt, streak) else NoIntent
  }

  function TheFeedback(seen: bool, receipt: int64): Option<int> {
    if seen then Some(receipt) else None
  }

  function TheEpisode(active: bool, after: Mode, attempts: uint32, next: int64): Episode {
    if active then Episode(after, attempts, next) else NoEpisode
  }

  // Consuming the sequence number first changes neither verdict nor outcome.
  lemma SettleIgnoresTop(s: Session, sync: Sync, link: Link, command: TimedMotionCommand, now: int)
    ensures var c := s.(topSequence := command.sequence);
            && NewVerdict(c, sync, command, now) == NewVerdict(s, sync, command, now)
            && Settle(c, link, command, now, NewVerdict(c, sync, command, now))
               == Settle(s, link, command, now, NewVerdict(s, sync, command, now))
  {
  }

  // What is left of a cycle once its motion write has returned.
  ghost function MotionEnded(s: Session, link: Link, now: int64, r: IoResult, second: Outcome, report: CycleResult)
    : Ticked
  {
    if Delivered(r) then
      var end := if r.completion > 0 then r.completion else now;
      Ticked(s.(lastMotion := end, seen := Max(s.seen, end)), link,
             report.(action := MotionHostWriteComplete, mode := s.mode), [])
    else MotionFailed(s, link, now, r, second, report)
  }

  lemma SendMotionEnds(s: Session, link: Link, now: int64, first: Outcome, second: Outcome, before: CycleResult)
    requires s.intent.Intent?
    ensures var r := ResultOf(first, now);
            var entry := Wrote(true, s.intent.frame, link.generation, now,
                               WriteDeadline(s, now, s.intent.command.deadline), first);
            var report := before.(motionAttempted := true, transportStatus := r.status,
                                  motionComplete := r.hostWriteComplete, uncertain := r.outcomeUncertain);
            var ended := MotionEnded(s, first.after, now, r, second, report);
            SendMotion(s, link, now, first, second, before) == ended.(writes := [entry] + ended.writes)
  {
  }

  class SafetySession {
    const config: SafetyConfig
    const transport: ScriptedTransport
    const configurationValid: bool

    var mode: Mode
    var connectionKnown: bool
    var connectionGeneration: uint64
    var lastObserved: int64

    var authorizationActive: bool
    var highestAuthorizationToken: uint64
    var authorizedGeneration: uint64
    var authorizationTime: int64

    var highestSequence: uint64
    var consecutiveFresh: uint32
    var latestCommandValid: bool
    var latestCommand: TimedMotionCommand
    var latestFrame: CommandFrame
    var latestReceipt: int64
    var lastMotionCompletion: int64

    var feedbackAllowedSeen: bool
    var latestFeedbackReceipt: int64

    var zeroEpisodeActive: bool
    var modeAfterZero: Mode
    var zeroAttempts: uint32
    var nextZeroAttempt: int64

    var emergencyStopLatched: bool
    var highestResetToken: uint64

    // The abstract value.
    ghost function View(): Session
      reads this
    {
      Session(config, configurationValid, mode, connectionKnown, connectionGeneration, lastObserved,
              ThePermit(authorizationActive, authorizedGeneration, authorizationTime),
              highestAuthorizationToken, highestSequence,
              TheIntent(latestCommandValid, latestCommand, latestFrame, latestReceipt, consecutiveFresh),
              lastMotionCompletion,
              TheFeedback(feedbackAllowedSeen, latestFeedbackReceipt),
              TheEpisode(zeroEpisodeActive, modeAfterZero, zeroAttempts, nextZeroAttempt),
              emergencyStopLatched, highestResetToken)
    }

    ghost function TheLink(): Link
      reads transport
    {
      transport.TheLink()
    }

    // What the fields keep among themselves; what their values mean over whole
    // runs is `Sound` of the abstract value.
    ghost predicate Fit()
      reads this
    {
      && configurationValid == ConfigIsValid(config)
      && (!latestCommandValid ==> consecutiveFresh == 0)
      && (latestCommandValid ==> 0 < latestCommand.created && 0 < latestReceipt)
      && 0 <= lastMotionCompletion
      && consecutiveFresh <= 100
    }

    ghost predicate Valid()
      reads this
    {
      Fit() && (configurationValid && zeroEpisodeActive ==> zeroAttempts < config.maxZeroAttempts)
    }

    constructor (config: SafetyConfig, transport: ScriptedTransport)
      ensures Valid()
      ensures this.config == config && this.transport == transport
      ensures View() == Initial(config, transport.TheLink())
    {
      this.config := config;
      this.transport := transport;
      configurationValid := ConfigIsValid(config);
      mode := if ConfigIsValid(config) then Mode.Disconnected else Mode.ConfigurationInvalid;
      connectionKnown, connectionGeneration, lastObserved := false, 0, 0;
      authorizationActive, highestAuthorizationToken, authorizedGeneration, authorizationTime := false, 0, 0, 0;
      highestSequence, consecutiveFresh, latestCommandValid := 0, 0, false;
      latestCommand, latestFrame, latestReceipt, lastMotionCompletion := NO_COMMAND, NO_FRAME, 0, 0;
      feedbackAllowedSeen, latestFeedbackReceipt := false, 0;
      zeroEpisodeActive, modeAfterZero, zeroAttempts, nextZeroAttempt := false, ConnectedInhibited, 0, 0;
      emergencyStopLatched, highestResetToken := false, 0;
      new;
      assert View() == Created(config);
      if configurationValid {
        var _ := SynchronizeConnection();
      }
    }

    // ----- Private helpers -----

    predicate Authorized()
      reads this
      ensures Authorized() == IsAuthorized(View())
    {
      configurationValid && connectionKnown && authorizationActive && !emergencyStopLatched
      && authorizedGeneration == connectionGeneration && authorizationTime > 0
      && mode != Mode.Faulted
    }

    predicate FeedbackFresh(now: int64)
      reads this
      ensures FeedbackFresh(now) == FeedbackIsFresh(View(), now)
    {
      feedbackAllowedSeen && latestFeedbackReceipt > 0 && latestFeedbackReceipt <= now
      && (var age: int64 := now - latestFeedbackReceipt; age <= config.feedbackTimeout)
    }

    predicate CommandFresh(now: int64)
      requires Valid()
      reads this
      ensures CommandFresh(now) == CommandIsFresh(View(), now)
    {
      latestCommandValid && latestReceipt > 0
      && latestCommand.created <= now && latestReceipt <= now && now <= latestCommand.deadline
      && (var age: int64 := now - latestCommand.created; age <= config.maxCommandAge)
      && (var wait: int64 := now - latestReceipt; wait <= config.maxCommandAge)
    }

    method RevokeAuthorization()
      modifies `authorizationActive, `authorizedGeneration, `authorizationTime
      ensures !authorizationActive && View() == Revoke(old(View()))
    {
      authorizationActive, authorizedGeneration, authorizationTime := false, 0, 0;
    }

    method ClearMotionIntent()
      modifies `latestCommandValid, `latestCommand, `latestFrame, `latestReceipt, `consecutiveFresh
      ensures !latestCommandValid && consecutiveFresh == 0 && View() == ClearIntent(old(View()))
    {
      latestCommandValid := false;
      latestCommand, latestFrame, latestReceipt, consecutiveFresh := NO_COMMAND, NO_FRAME, 0, 0;
    }

    method ForgetFeedback()
      modifies `feedbackAllowedSeen, `latestFeedbackReceipt
      ensures !feedbackAllowedSeen && View() == old(View()).(feedback := None)
    {
      feedbackAllowedSeen, latestFeedbackReceipt := false, 0;
    }

    method RecordFeedback(at: int64)
      modifies `feedbackAllowedSeen, `latestFeedbackReceipt
      ensures View() == old(View()).(feedback := Some(at))
    {
      feedbackAllowedSeen := true;
      latestFeedbackReceipt := at;
    }

    method OpenEpisode(after: Mode, earliest: int64)
      modifies `mode, `zeroEpisodeActive, `modeAfterZero, `zeroAttempts, `nextZeroAttempt
      ensures zeroAttempts == 0
      ensures View() == old(View()).(episode := Episode(after, 0, Max(0, earliest)), mode := StopPending)
    {
      zeroEpisodeActive := true;
      modeAfterZero := after;
      zeroAttempts := 0;
      nextZeroAttempt := Max(0, earliest);
      mode := StopPending;
    }

    method BeginZeroEpisode(after: Mode, earliest: int64)
      requires Valid() && configurationValid
      modifies `mode, `zeroEpisodeActive, `modeAfterZero, `zeroAttempts, `nextZeroAttempt
      ensures Valid() && View() == BeginZero(old(View()), TheLink(), after, earliest)
    {
      if !connectionKnown || !transport.connected {
        mode := Mode.Disconnected;
        return;
      }
      if mode == Mode.Faulted {
        return;
      }
      if zeroEpisodeActive {
        if after == Mode.EmergencyStopLatched
           || (after == ConnectedInhibited && modeAfterZero == Recovering) {
          modeAfterZero := after;
        }
        return;
      }
      OpenEpisode(after, earliest);
    }

    method ForgetConnection()
      modifies this
      ensures !authorizationActive && !latestCommandValid && consecutiveFresh == 0
      ensures !feedbackAllowedSeen && !zeroEpisodeActive && lastMotionCompletion == 0
      ensures mode == old(mode) && connectionKnown == old(connectionKnown)
      ensures connectionGeneration == old(connectionGeneration) && lastObserved == old(lastObserved)
      ensures highestAuthorizationToken == old(highestAuthorizationToken) && highestSequence == old(highestSequence)
      ensures emergencyStopLatched == old(emergencyStopLatched) && highestResetToken == old(highestResetToken)
    {
      RevokeAuthorization();
      ClearMotionIntent();
      feedbackAllowedSeen, latestFeedbackReceipt := false, 0;
      zeroEpisodeActive, zeroAttempts, nextZeroAttempt := false, 0, 0;
      lastMotionCompletion := 0;
    }

    method HandleDisconnect()
      requires Fit()
      modifies this
      ensures Fit() && !zeroEpisodeActive && View() == Dropped(old(View()))
    {
      connectionKnown := false;
      ForgetConnection();
      if configurationValid {
        mode := Mode.Disconnected;
      }
    }

    method HandleNewConnection(generation: uint64)
      requires Valid() && configurationValid && generation == transport.generation
      modifies this
      ensures Valid() && View() == Attached(old(View()), TheLink())
    {
      connectionKnown := true;
      connectionGeneration := generation;
      ForgetConnection();
      mode := ConnectedInhibited;
      BeginZeroEpisode(if emergencyStopLatched then Mode.EmergencyStopLatched else ConnectedInhibited, 0);
    }

    method SynchronizeConnection() returns (sync: Sync)
      requires Valid() && configurationValid
      modifies this
      ensures Valid() && (View(), sync) == Synchronize(old(View()), TheLink())
    {
      if !transport.connected || transport.generation == 0 {
        HandleDisconnect();
        return Lost;
      }
      if !connectionKnown || transport.generation != connectionGeneration {
        HandleNewConnection(transport.generation);
        return NewGeneration;
      }
      return Unchanged;
    }

    method ObserveMonotonicTime(now: int64) returns (ok: bool)
      requires Valid()
      modifies this
      ensures Valid() && ok == ClockOk(old(View()), now)
      ensures View() == if ok then Observe(old(View()), now) else old(View())
    {
      if now <= 0 || (lastObserved > 0 && now < lastObserved) {
        return false;
      }
      if now > lastObserved {
        lastObserved := now;
      }
      return true;
    }

    method HandleClockFailure()
      requires Valid() && configurationValid
      modifies this
      ensures Valid() && View() == ClockFailed(old(View()), TheLink())
    {
      RevokeAuthorization();
      ClearMotionIntent();
      ForgetFeedback();
      if connectionKnown && transport.connected {
        BeginZeroEpisode(if emergencyStopLatched then Mode.EmergencyStopLatched else ConnectedInhibited,
                         lastObserved);
      }
    }

    // How nearly every public operation starts: check the clock, then the link.
    method BeginCall(at: int64) returns (clock: bool, connection: Sync)
      requires Valid() && configurationValid
      modifies this
      ensures Valid() && clock == ClockOk(old(View()), at)
      ensures !clock ==> View() == ClockFailed(old(View()), TheLink())
      ensures clock ==> (View(), connection) == Synchronize(Observe(old(View()), at), TheLink())
    {
      connection := Lost;
      clock := ObserveMonotonicTime(at);
      if !clock {
        HandleClockFailure();
        return;
      }
      connection := SynchronizeConnection();
    }

    // Drop the stored command, perhaps the authorization too, and send a zero.
    method Reject(after: Mode, at: int64, revoke: bool)
      requires Valid() && configurationValid
      modifies this
      ensures Valid()
      ensures View() == BeginZero(if revoke then Halt(old(View())) else ClearIntent(old(View())), TheLink(), after, at)
    {
      if revoke {
        RevokeAuthorization();
      }
      ClearMotionIntent();
      BeginZeroEpisode(after, at);
    }

    // ----- Public operations -----

    method Authorize(token: uint64, at: int64) returns (status: AuthorizationStatus)
      requires Valid()
      modifies this
      ensures Valid()
      ensures (View(), status) == Spec.Authorize(old(View()), TheLink(), token, at)
    {
      if !configurationValid {
        return AuthorizationStatus.ConfigurationInvalid;
      }
      var clock, connection := BeginCall(at);
      if !clock {
        return AuthorizationStatus.TimestampInvalid;
      }
      if connection == Lost {
        return AuthorizationStatus.Disconnected;
      }
      if emergencyStopLatched {
        return AuthorizationStatus.EmergencyStopLatched;
      }
      if mode == Mode.Faulted {
        return AuthorizationStatus.Faulted;
      }
      if zeroEpisodeActive || connection == NewGeneration {
        return InitialZeroPending;
      }
      if token == 0 || token <= highestAuthorizationToken {
        return TokenInvalid;
      }
      if !FeedbackFresh(at) {
        return AuthorizationStatus.FeedbackUnavailable;
      }
      Grant(token, at);
      return AuthorizationStatus.Authorized;
    }

    method Grant(token: uint64, at: int64)
      modifies `highestAuthorizationToken, `authorizationActive, `authorizedGeneration, `authorizationTime, `mode
      modifies `latestCommandValid, `latestCommand, `latestFrame, `latestReceipt, `consecutiveFresh
      ensures !latestCommandValid && consecutiveFresh == 0
      ensures var s := old(View());
              View() == ClearIntent(s).(topToken := token, permit := Permit(s.generation, at), mode := Recovering)
    {
      GrantPermit(token, at);
      ClearMotionIntent();
      mode := Recovering;
    }

    method GrantPermit(token: uint64, at: int64)
      modifies `highestAuthorizationToken, `authorizationActive, `authorizedGeneration, `authorizationTime
      ensures View() == old(View()).(topToken := token, permit := Permit(old(connectionGeneration), at))
    {
      highestAuthorizationToken := token;
      authorizationActive := true;
      authorizedGeneration := connectionGeneration;
      authorizationTime := at;
    }

    method Disarm(at: int64) returns (ok: bool)
      requires Valid()
      modifies this
      ensures Valid()
      ensures (View(), ok) == Spec.Disarm(old(View()), TheLink(), at)
    {
      if !configurationValid {
        return false;
      }
      var clock, connection := BeginCall(at);
      if !clock {
        return false;
      }
      if connection == Lost {
        return true;
      }
      if mode == Mode.Faulted {
        return false;
      }
      Reject(if emergencyStopLatched then Mode.EmergencyStopLatched else ConnectedInhibited, at, true);
      return true;
    }

    method RequestStop(at: int64) returns (ok: bool)
      requires Valid()
      modifies this
      ensures Valid()
      ensures (View(), ok) == Spec.RequestStop(old(View()), TheLink(), at)
    {
      if !configurationValid {
        return false;
      }
      var clock, connection := BeginCall(at);
      if !clock {
        return false;
      }
      if connection == Lost {
        return true;
      }
      if mode == Mode.Faulted {
        return false;
      }
      ClearMotionIntent();
      var after := if emergencyStopLatched then Mode.EmergencyStopLatched
                   else if Authorized() then Recovering else ConnectedInhibited;
      BeginZeroEpisode(after, at);
      return true;
    }

    method Submit(command: TimedMotionCommand, at: int64) returns (status: SubmissionStatus)
      requires Valid()
      modifies this
      ensures Valid()
      ensures (View(), status) == Spec.Submit(old(View()), TheLink(), command, at)
    {
      if !configurationValid {
        return SubmissionStatus.ConfigurationInvalid;
      }
      var clock, connection := BeginCall(at);
      if !clock {
        return SubmissionStatus.TimestampInvalid;
      }
      if connection == Lost {
        return SubmissionStatus.Disconnected;
      }
      status := SubmitConnected(connection, command, at);
    }

    // Submission on a synchronised, connected session.
    method SubmitConnected(connection: Sync, command: TimedMotionCommand, at: int64) returns (status: SubmissionStatus)
      requires Valid() && configurationValid && connection != Lost && 0 < at
      modifies this
      ensures Valid()
      ensures status == Verdict(old(View()), connection, command, at)
      ensures View() == Settle(old(View()), TheLink(), command, at, status)
    {
      if emergencyStopLatched {
        return SubmissionStatus.EmergencyStopLatched;
      }
      if mode == Mode.Faulted {
        return SubmissionStatus.Faulted;
      }
      if command.sequence == 0 || command.sequence <= highestSequence {
        Reject(ConnectedInhibited, at, true);
        return SequenceInvalid;
      }
      highestSequence := command.sequence;
      SettleIgnoresTop(old(View()), connection, TheLink(), command, at);
      status := SubmitNew(connection, command, at);
    }

    // The checks on the command's own times; the sequence is consumed already.
    method SubmitNew(connection: Sync, command: TimedMotionCommand, at: int64) returns (status: SubmissionStatus)
      requires Valid() && configurationValid && connection != Lost && 0 < at
      requires !emergencyStopLatched && mode != Mode.Faulted && highestSequence == command.sequence
      modifies this
      ensures Valid()
      ensures status == NewVerdict(old(View()), connection, command, at)
      ensures View() == Settle(old(View()), TheLink(), command, at, status)
    {
      if command.created <= 0 || command.created > at || command.deadline <= command.created {
        Reject(ConnectedInhibited, at, true);
        return SubmissionStatus.TimestampInvalid;
      }
      var age: int64 := at - command.created;
      if at > command.deadline || age > config.maxCommandAge {
        Reject(if Authorized() then Recovering else ConnectedInhibited, at, false);
        return Stale;
      }
      status := SubmitTimely(connection, command, at);
    }

    // The checks from authorization on; the sequence is consumed already.
    method SubmitTimely(connection: Sync, command: TimedMotionCommand, at: int64) returns (status: SubmissionStatus)
      requires Valid() && configurationValid && connection != Lost && 0 < at
      requires !emergencyStopLatched && mode != Mode.Faulted && highestSequence == command.sequence
      requires 0 < command.created <= at <= command.deadline && command.created < command.deadline
      requires at - command.created <= config.maxCommandAge
      modifies this
      ensures Valid()
      ensures status == TimelyVerdict(old(View()), connection, command, at)
      ensures View() == Settle(old(View()), TheLink(), command, at, status)
    {
      if !Authorized() || zeroEpisodeActive || connection == NewGeneration {
        ClearMotionIntent();
        return NotAuthorized;
      }
      if command.created <= authorizationTime {
        Reject(Recovering, at, false);
        return PredatesAuthorization;
      }
      if !command.motion.yaw.Finite? || Abs(command.motion.yaw.value) > config.maxYaw.value
         || command.motion.lateral != Finite(0.0) {
        Reject(ConnectedInhibited, at, true);
        return EncodingRejected;
      }
      var encoded := EncodeCommand(command.motion, config.maxLinear);
      if !encoded.Encoded? {
        Reject(ConnectedInhibited, at, true);
        return EncodingRejected;
      }
      if CommandIsExactZero(command.motion) {
        Reject(Recovering, at, false);
        return StopAccepted;
      }
      if !FeedbackFresh(at) {
        Reject(Recovering, at, false);
        return SubmissionStatus.FeedbackUnavailable;
      }
      status := Accept(command, encoded.frame, at);
    }

    // The last steps, once only the predecessor can still stop the command.
    method Accept(command: TimedMotionCommand, frame: CommandFrame, at: int64) returns (status: SubmissionStatus)
      requires Valid() && configurationValid && 0 < at && 0 < command.created
      requires Encode(command.motion, config.maxLinear) == Encoded(frame)
      requires highestSequence == command.sequence
      modifies this
      ensures Valid()
      ensures var s := old(View());
              && status == (if s.intent.Intent? && !PredecessorStale(s, at)
                               && command.created <= s.intent.command.created then SubmissionStatus.TimestampInvalid
                            else if FreshCount(s, at) >= s.config.freshRequired then Accepted
                            else RecoveryPending)
              && View() == Settle(s, TheLink(), command, at, status)
    {
      if latestCommandValid {
        var wait: int64 := at - latestReceipt;
        var previousIsStale := at > latestCommand.deadline || wait > config.maxCommandAge;
        if previousIsStale {
          ClearMotionIntent();
        } else if command.created <= latestCommand.created {
          Reject(ConnectedInhibited, at, true);
          return SubmissionStatus.TimestampInvalid;
        }
      }
      status := Store(command, frame, at);
    }

    method Store(command: TimedMotionCommand, frame: CommandFrame, at: int64) returns (status: SubmissionStatus)
      requires Valid() && configurationValid && 0 < at && 0 < command.created
      modifies `mode, `latestCommandValid, `latestCommand, `latestFrame, `latestReceipt, `consecutiveFresh
      ensures Valid()
      ensures var before := if old(View()).intent.NoIntent? then 0 else old(View()).intent.streak;
              var streak := if before < config.freshRequired then before + 1 else before;
              && status == (if streak >= config.freshRequired then Accepted else RecoveryPending)
              && View() == old(View()).(intent := Intent(command, frame, at, streak),
                                        mode := if status.Accepted? then Active else Recovering)
    {
      Keep(command, frame, at);
      if consecutiveFresh >= config.freshRequired {
        mode := Active;
        return Accepted;
      }
      mode := Recovering;
      return RecoveryPending;
    }

    method Keep(command: TimedMotionCommand, frame: CommandFrame, at: int64)
      requires Valid()
      modifies `latestCommandValid, `latestCommand, `latestFrame, `latestReceipt, `consecutiveFresh
      ensures latestCommandValid && latestCommand == command && latestFrame == frame && latestReceipt == at
      ensures consecutiveFresh == old(consecutiveFresh) + if old(consecutiveFresh) < config.freshRequired then 1 else 0
    {
      latestCommand := command;
      latestFrame := frame;
      latestCommandValid := true;
      latestReceipt := at;
      if consecutiveFresh < config.freshRequired {
        consecutiveFresh := consecutiveFresh + 1;
      }
    }

    method ObserveFeedback(frame: seq<Byte>, at: int64) returns (result: FeedbackObservation)
      requires Valid()
      modifies this
      ensures Valid()
      ensures (View(), result) == Spec.ObserveFeedback(old(View()), TheLink(), frame, at)
    {
      if !configurationValid {
        return FeedbackObservation(FeedbackStatus.ConfigurationInvalid, false, false);
      }
      var clock, connection := BeginCall(at);
      if !clock {
        return FeedbackObservation(FeedbackStatus.TimestampInvalid, false, false);
      }
      if connection == Lost {
        return FeedbackObservation(FeedbackStatus.Disconnected, false, false);
      }
      var decoded := Decode(frame);
      if !decoded.Decoded? {
        return FeedbackObservation(FrameInvalid, false, false);
      }
      if decoded.feedback.controlAllowed {
        RecordFeedback(at);
        return FeedbackObservation(AcceptedControlAllowed, true, true);
      }
      ForgetFeedback();
      Reject(if emergencyStopLatched then Mode.EmergencyStopLatched else ConnectedInhibited, at, true);
      return FeedbackObservation(AcceptedControlInhibited, true, false);
    }

    method LatchEmergencyStop(at: int64)
      requires Valid()
      modifies this
      ensures Valid()
      ensures View() == Spec.LatchEmergencyStop(old(View()), TheLink(), at)
    {
      RaiseLatch();
      if !configurationValid {
        mode := Mode.ConfigurationInvalid;
        return;
      }
      var timeValid := ObserveMonotonicTime(at);
      var connection := SynchronizeConnection();
      if connection == Lost {
        return;
      }
      if mode == Mode.Faulted {
        return;
      }
      BeginZeroEpisode(Mode.EmergencyStopLatched, if timeValid then at else lastObserved);
    }

    method RaiseLatch()
      modifies `emergencyStopLatched, `feedbackAllowedSeen, `latestFeedbackReceipt
      modifies `authorizationActive, `authorizedGeneration, `authorizationTime
      modifies `latestCommandValid, `latestCommand, `latestFrame, `latestReceipt, `consecutiveFresh
      ensures !latestCommandValid && consecutiveFresh == 0
      ensures View() == Halt(old(View())).(latched := true, feedback := None)
    {
      emergencyStopLatched := true;
      RevokeAuthorization();
      ClearMotionIntent();
      ForgetFeedback();
    }

    method ResetEmergencyStop(token: uint64, at: int64) returns (ok: bool)
      requires Valid()
      modifies this
      ensures Valid()
      ensures (View(), ok) == Spec.ResetEmergencyStop(old(View()), TheLink(), token, at)
    {
      if !configurationValid || !emergencyStopLatched {
        return false;
      }
      var clock, connection := BeginCall(at);
      if !clock {
        return false;
      }
      if connection != Unchanged || zeroEpisodeActive || mode == Mode.Faulted
         || token == 0 || token <= highestResetToken || !FeedbackFresh(at) {
        return false;
      }
      LowerLatch(token);
      return true;
    }

    method LowerLatch(token: uint64)
      requires Valid()
      modifies this
      ensures Valid()
      ensures View() == Halt(old(View())).(topReset := token, latched := false, mode := ConnectedInhibited)
    {
      highestResetToken := token;
      emergencyStopLatched := false;
      RevokeAuthorization();
      ClearMotionIntent();
      mode := ConnectedInhibited;
    }

    // ----- The cycle -----

    // The transport has made exactly these writes since it was at `step`.
    ghost predicate Made(writes: seq<WriteEntry>, link: Link, step: nat, sent: seq<Sent>)
      reads transport
    {
      && transport.TheLink() == link
      && transport.step == step + |writes|
      && transport.sent == sent + AllSent(writes)
    }

    method Tick(at: int64) returns (cycle: CycleResult)
      requires Valid()
      modifies this, transport
      ensures Valid()
      ensures var r := Spec.Tick(old(View()), old(TheLink()), at, transport.script(old(transport.step)),
                                 transport.script(old(transport.step) + 1));
              && View() == r.session && cycle == r.cycle
              && Made(r.writes, r.link, old(transport.step), old(transport.sent))
    {
      assert Made([], TheLink(), transport.step, transport.sent);
      cycle := CycleResult(NoAction, mode, Ok, false, false, false, false, false, 0);
      if !configurationValid {
        cycle := cycle.(action := CycleAction.ConfigurationInvalid, mode := Mode.ConfigurationInvalid,
                        transportStatus := InvalidArgument);
        return;
      }
      var clock, connection := BeginCall(at);
      if !clock {
        cycle := cycle.(action := ClockInvalid, mode := mode, transportStatus := InvalidArgument, uncertain := true);
        return;
      }
      if connection == Lost {
        cycle := cycle.(action := CycleAction.Disconnected, mode := mode,
                        transportStatus := TransportStatus.Disconnected, uncertain := true);
        return;
      }
      ghost var first, second := transport.script(transport.step), transport.script(transport.step + 1);
      assert Spec.Tick(old(View()), TheLink(), at, first, second) ==
             ConnectedTick(View(), TheLink(), at, first, second, cycle);
      cycle := TickConnected(at, cycle);
    }

    method TickConnected(at: int64, blank: CycleResult) returns (cycle: CycleResult)
      requires Valid() && configurationValid && 0 < at
      modifies this, transport
      ensures Valid()
      ensures var r := ConnectedTick(old(View()), old(TheLink()), at, transport.script(old(transport.step)),
                                     transport.script(old(transport.step) + 1), blank);
              && View() == r.session && cycle == r.cycle
              && Made(r.writes, r.link, old(transport.step), old(transport.sent))
    {
      if zeroEpisodeActive {
        cycle := TryZero(at, blank);
        return;
      }
      cycle := blank;
      if mode == Mode.Faulted {
        cycle := cycle.(mode := mode);
        return;
      }
      if emergencyStopLatched {
        mode := Mode.EmergencyStopLatched;
        cycle := cycle.(mode := mode);
        return;
      }
      if mode != Active {
        cycle := cycle.(mode := mode);
        return;
      }
      if !Authorized() {
        Reject(ConnectedInhibited, at, false);
        cycle := TryZero(at, cycle);
        return;
      }
      if !FeedbackFresh(at) || !CommandFresh(at) {
        Reject(Recovering, at, false);
        cycle := TryZero(at, cycle);
        return;
      }
      var wait: int64 := at - lastMotionCompletion;
      if lastMotionCompletion > 0 && wait < config.transmitPeriod {
        cycle := cycle.(action := TransmitRateLimited, mode := mode);
        return;
      }
      cycle := WriteMotion(at, cycle);
    }

    method WriteMotion(at: int64, before: CycleResult) returns (cycle: CycleResult)
      requires Valid() && configurationValid && latestCommandValid && 0 < at
      modifies this, transport
      ensures Valid()
      ensures var r := SendMotion(old(View()), old(TheLink()), at, transport.script(old(transport.step)),
                                  transport.script(old(transport.step) + 1), before);
              && View() == r.session && cycle == r.cycle
              && Made(r.writes, r.link, old(transport.step), old(transport.sent))
    {
      var deadline := Min(Spec.SaturatingAdd(at, config.writeTimeout), latestCommand.deadline);
      var answer := transport.WriteAll(latestFrame, deadline);
      var result := match answer case Some(r) => r case None => IoResult(IoError, 0, EIO, false, true, at);
      cycle := before.(motionAttempted := true, transportStatus := result.status,
                       motionComplete := result.hostWriteComplete, uncertain := result.outcomeUncertain);
      ghost var first, second := transport.script(old(transport.step)), transport.script(transport.step);
      ghost var ended := MotionEnded(View(), TheLink(), at, result, second, cycle);
      SendMotionEnds(View(), old(TheLink()), at, first, second, before);
      AllSentCons(old(transport.sent), Wrote(true, latestFrame, old(transport.generation), at, deadline, first),
                  ended.writes);
      cycle := FinishMotion(at, result, cycle);
    }

    // Everything after the motion write returned.
    method FinishMotion(at: int64, result: IoResult, report: CycleResult) returns (cycle: CycleResult)
      requires Valid() && configurationValid && latestCommandValid && 0 < at
      modifies this, transport
      ensures Valid()
      ensures var r := MotionEnded(old(View()), old(TheLink()), at, result,
                                   transport.script(old(transport.step)), report);
              && View() == r.session && cycle == r.cycle
              && Made(r.writes, r.link, old(transport.step), old(transport.sent))
    {
      assert Made([], TheLink(), transport.step, transport.sent);
      cycle := report;
      if result.status == Ok && result.hostWriteComplete && result.bytesTransferred == |latestFrame| {
        RecordMotion(if result.completion > 0 then result.completion else at);
        cycle := cycle.(action := MotionHostWriteComplete, mode := mode);
        return;
      }
      cycle := StopAfterFailure(at, result, cycle);
    }

    method RecordMotion(end: int64)
      requires Valid() && 0 < end
      modifies this
      ensures Valid() && View() == old(View()).(lastMotion := end, seen := Max(old(lastObserved), end))
    {
      lastMotionCompletion := end;
      lastObserved := Max(lastObserved, end);
    }

    // Everything after a motion write that did not get out.
    method StopAfterFailure(at: int64, result: IoResult, report: CycleResult) returns (cycle: CycleResult)
      requires Valid() && configurationValid
      modifies this, transport
      ensures Valid()
      ensures var r := MotionFailed(old(View()), old(TheLink()), at, result,
                                    transport.script(old(transport.step)), report);
              && View() == r.session && cycle == r.cycle
              && Made(r.writes, r.link, old(transport.step), old(transport.sent))
    {
      RevokeAuthorization();
      ClearMotionIntent();
      if result.status == TransportStatus.Disconnected || !transport.connected {
        HandleDisconnect();
        cycle := report.(action := CycleAction.Disconnected, mode := mode,
                         transportStatus := TransportStatus.Disconnected, uncertain := true);
        return;
      }
      var zeroStart := Max(at, result.completion);
      BeginZeroEpisode(ConnectedInhibited, zeroStart);
      cycle := TryZero(zeroStart, report);
    }

    method TryZero(at: int64, before: CycleResult) returns (cycle: CycleResult)
      requires Valid() && configurationValid
      modifies this, transport
      ensures Valid()
      ensures var r := AttemptZero(old(View()), old(TheLink()), at, transport.script(old(transport.step)), before);
              && View() == r.session && cycle == r.cycle
              && Made(r.writes, r.link, old(transport.step), old(transport.sent))
    {
      cycle := before.(mode := mode);
      if !zeroEpisodeActive {
        return;
      }
      if at < nextZeroAttempt {
        cycle := cycle.(action := ZeroRetryPending, zeroAttempts := zeroAttempts);
        return;
      }
      var answer := transport.WriteAll(ZERO_FRAME, Min(Spec.SaturatingAdd(at, config.writeTimeout), INT64_MAX));
      var result := match answer case Some(r) => r case None => IoResult(IoError, 0, EIO, false, true, at);
      cycle := FinishZero(at, result, cycle);
    }

    // Everything after the zero write returned.
    method FinishZero(at: int64, result: IoResult, before: CycleResult) returns (cycle: CycleResult)
      requires Valid() && configurationValid && zeroEpisodeActive
      modifies this
      ensures Valid()
      ensures var e := ZeroEnded(old(View()), transport.connected, at, result, before);
              View() == e.0 && cycle == e.1
    {
      cycle := CountAttempt(result, before);
      if result.status == TransportStatus.Disconnected || !transport.connected {
        HandleDisconnect();
        cycle := cycle.(action := CycleAction.Disconnected, mode := mode,
                        transportStatus := TransportStatus.Disconnected, uncertain := true);
        return;
      }
      if result.status == Ok && result.hostWriteComplete && result.bytesTransferred == |ZERO_FRAME| {
        CloseEpisode();
        cycle := cycle.(action := ZeroHostWriteComplete, mode := mode);
        return;
      }
      cycle := RetryOrFault(at, result, cycle);
    }

    method CloseEpisode()
      requires Fit() && zeroEpisodeActive
      modifies this
      ensures Valid()
      ensures var s := old(View());
              View() == s.(episode := NoEpisode,
                           mode := if s.latched then Mode.EmergencyStopLatched else s.episode.after)
    {
      zeroEpisodeActive, zeroAttempts, nextZeroAttempt := false, 0, 0;
      mode := if emergencyStopLatched then Mode.EmergencyStopLatched else modeAfterZero;
    }

    method CountAttempt(result: IoResult, before: CycleResult) returns (cycle: CycleResult)
      requires Valid() && configurationValid && zeroEpisodeActive
      modifies this
      ensures Fit() && zeroEpisodeActive
      ensures View() == ZeroCounted(old(View()), result)
      ensures cycle == ZeroReport(old(View()), result, before)
    {
      zeroAttempts := zeroAttempts + 1;
      cycle := before.(zeroAttempted := true, zeroAttempts := zeroAttempts,
                       zeroComplete := result.hostWriteComplete,
                       uncertain := before.uncertain || result.outcomeUncertain,
                       transportStatus := result.status);
      if result.completion > lastObserved {
        lastObserved := result.completion;
      }
    }

    method RetryOrFault(at: int64, result: IoResult, report: CycleResult) returns (cycle: CycleResult)
      requires Fit() && configurationValid && zeroEpisodeActive
      modifies this
      ensures Valid()
      ensures var s := old(View());
              if s.episode.attempts >= config.maxZeroAttempts then
                && View() == s.(episode := NoEpisode, mode := Mode.Faulted)
                && cycle == report.(action := ZeroRetriesExhausted, mode := Mode.Faulted, uncertain := true)
              else
                && View() == s.(episode := s.episode.(next :=
                                  Spec.SaturatingAdd(Max(at, result.completion), config.zeroRetryInterval)))
                && cycle == report.(action := ZeroHostWriteFailed, mode := s.mode)
    {
      cycle := report;
      if zeroAttempts >= config.maxZeroAttempts {
        zeroEpisodeActive := false;
        mode := Mode.Faulted;
        cycle := cycle.(action := ZeroRetriesExhausted, mode := mode, uncertain := true);
        return;
      }
      var retryBase := Max(at, result.completion);
      nextZeroAttempt := Spec.SaturatingAdd(retryBase, config.zeroRetryInterval);
      cycle := cycle.(action := ZeroHostWriteFailed, mode := mode);
    }
  }
}
