// The command line tool's use of the session: its configuration and the
// dispatch of one protocol line.  Lines arrive split into parsed fields.

module Cli {
  import opened Wrappers
  import opened Protocol
  import opened TransportModel
  import opened SessionModel
  import Spec = SessionModel
  import opened SafetySessions
  import Teleop = TeleopModel

  // The numeric part of the shared configuration file.
  datatype RuntimeConfig = RuntimeConfig(
    maxLinear: Double, maxYaw: Double,
    reconnectIntervalMs: int64, commandTimeoutMs: int64, feedbackTimeoutMs: int64, transmitPeriodMs: int64,
    freshRequired: uint32, writeTimeoutMs: int64, zeroRetryIntervalMs: int64, zeroRetryAttempts: uint32,
    minSelected: Double, initialSelected: Double, maxSelected: Double,
    speedStep: Double, curvature: Double, releaseTimeoutMs: int64, commandRateHz: Double)

  const MAXIMUM_WATCHDOG_MS: int64 := 60_000

  predicate FinitePositive(d: Double) {
    d.Finite? && d.value > 0.0
  }

  predicate Watchdog(ms: int64) {
    0 < ms <= MAXIMUM_WATCHDOG_MS
  }

  predicate RuntimeConfigIsValid(c: RuntimeConfig) {
    && c.maxLinear.Finite? && 0.0 < c.maxLinear.value < 6.0
    && FinitePositive(c.maxYaw) && c.maxYaw.value <= 32.767
    && 10 <= c.reconnectIntervalMs <= 60_000
    && Watchdog(c.commandTimeoutMs) && Watchdog(c.feedbackTimeoutMs) && Watchdog(c.transmitPeriodMs)
    && Watchdog(c.writeTimeoutMs) && Watchdog(c.zeroRetryIntervalMs)
    && 0 < c.freshRequired <= 100 && 0 < c.zeroRetryAttempts <= 20
    && c.writeTimeoutMs <= c.transmitPeriodMs < c.commandTimeoutMs
    && c.transmitPeriodMs < c.feedbackTimeoutMs
    && FinitePositive(c.minSelected) && FinitePositive(c.initialSelected) && FinitePositive(c.maxSelected)
    && c.minSelected.value <= c.initialSelected.value <= c.maxSelected.value <= c.maxLinear.value
    && FinitePositive(c.speedStep) && c.speedStep.value <= c.maxSelected.value
    && FinitePositive(c.curvature)
    && FinitePositive(c.commandRateHz) && c.commandRateHz.value <= 1000.0
    && 0 < c.releaseTimeoutMs <= c.commandTimeoutMs
    && c.maxSelected.value * c.curvature.value <= c.maxYaw.value
    && 1000.0 / c.commandRateHz.value < c.commandTimeoutMs as real
  }

  function Nanoseconds(ms: int64): (ns: int64)
    requires Watchdog(ms)
    ensures 0 < ns <= MAXIMUM_DURATION
  {
    ms * 1_000_000
  }

  function MakeSafetyConfig(c: RuntimeConfig): SafetyConfig
    requires RuntimeConfigIsValid(c)
  {
    SafetyConfig(c.maxLinear, c.maxYaw,
                 Nanoseconds(c.commandTimeoutMs), Nanoseconds(c.feedbackTimeoutMs),
                 Nanoseconds(c.transmitPeriodMs), Nanoseconds(c.writeTimeoutMs),
                 Nanoseconds(c.zeroRetryIntervalMs), c.zeroRetryAttempts, c.freshRequired)
  }

  // Whatever the configuration check lets through, the session accepts.
  lemma SafetyConfigAccepted(c: RuntimeConfig)
    requires RuntimeConfigIsValid(c)
    ensures ConfigIsValid(MakeSafetyConfig(c))
  {
  }

  // The front end's configuration from the same file.
  function TeleopConfigOf(c: RuntimeConfig): Teleop.TeleopConfig {
    Teleop.TeleopConfig(c.maxLinear, c.minSelected, c.initialSelected, c.maxSelected, c.speedStep, c.curvature,
                        Finite(c.releaseTimeoutMs as real), c.commandRateHz)
  }

  // A line after field parsing; anything else is malformed.
  datatype CliLine =
    | LineAuth(token: uint64)
    | LineCmd(sequence: uint64, created: int64, deadline: int64, linear: Double, yaw: Double)
    | LineStop
    | LineEstop
    | LineReset(token: uint64)
    | LineQuit
    | Malformed

  // The one session call a line leads to.
  function CallOf(line: CliLine, now: int64): Call {
    if now <= 0 then CallDisarm(now)
    else match line
      case LineAuth(token) => CallAuthorize(token, now)
      case LineCmd(sequence, created, deadline, linear, yaw) =>
        CallSubmit(TimedMotionCommand(sequence, created, deadline, MotionCommand(linear, Finite(0.0), yaw)), now)
      case LineStop => CallRequestStop(now)
      case LineEstop => CallLatch(now)
      case LineReset(token) => CallReset(token, now)
      case LineQuit => CallRequestStop(now)
      case Malformed => CallDisarm(now)
  }

  // A line makes exactly the session step of its call; an invalid line disarms.
  method ProcessLine(line: CliLine, now: int64, session: SafetySession) returns (quit: bool, valid: bool)
    requires session.Valid()
    modifies session
    ensures session.Valid()
    ensures valid <==> now > 0 && !line.Malformed?
    ensures quit <==> valid && line.LineQuit?
    ensures forall first, second ::
              session.View() ==
              Step(old(session.View()), Turn(CallOf(line, now), session.TheLink(), first, second)).session
    // The session call of each kind of line.
    ensures valid && line.LineAuth? ==>
              session.View() == Spec.Authorize(old(session.View()), session.TheLink(), line.token, now).0
    ensures valid && line.LineCmd? ==>
              var motion := MotionCommand(line.linear, Finite(0.0), line.yaw);
              var command := TimedMotionCommand(line.sequence, line.created, line.deadline, motion);
              session.View() == Spec.Submit(old(session.View()), session.TheLink(), command, now).0
    ensures valid && (line.LineStop? || line.LineQuit?) ==>
              session.View() == Spec.RequestStop(old(session.View()), session.TheLink(), now).0
    ensures valid && line.LineEstop? ==>
              session.View() == Spec.LatchEmergencyStop(old(session.View()), session.TheLink(), now)
    ensures valid && line.LineReset? ==>
              session.View() == Spec.ResetEmergencyStop(old(session.View()), session.TheLink(), line.token, now).0
    ensures !valid ==> session.View() == Spec.Disarm(old(session.View()), session.TheLink(), now).0
  {
    quit, valid := false, true;
    if now <= 0 {
      valid := false;
    } else {
      match line {
        case LineAuth(token) =>
          var status := session.Authorize(token, now);
        case LineCmd(sequence, created, deadline, linear, yaw) =>
          var command := TimedMotionCommand(sequence, created, deadline, MotionCommand(linear, Finite(0.0), yaw));
          var status := session.Submit(command, now);
        case LineStop =>
          var started := session.RequestStop(now);
        case LineEstop =>
          session.LatchEmergencyStop(now);
        case LineReset(token) =>
          var reset := session.ResetEmergencyStop(token, now);
        case LineQuit =>
          var started := session.RequestStop(now);
          quit := true;
        case Malformed =>
          valid := false;
      }
    }
    if !valid {
      var ok := session.Disarm(now);
    }
  }

  // A line of the front end as the tool parses it.
  function Parsed(line: Teleop.Line): CliLine {
    match line
    case Auth(token) => if 0 <= token <= UINT64_MAX then LineAuth(token) else Malformed
    case Cmd(sequence, created, deadline, linear, yaw) =>
      if 0 <= sequence <= UINT64_MAX && INT64_MIN <= created <= INT64_MAX && INT64_MIN <= deadline <= INT64_MAX
      then LineCmd(sequence, created, deadline, Finite(linear), Finite(yaw)) else Malformed
    case Stop => LineStop
    case Estop => LineEstop
    case Quit => LineQuit
  }

  // Every command submitted was printed by the front end.
  predicate FedBy(printed: seq<Teleop.Event>, log: seq<Entry>) {
    forall i :: 0 <= i < |log| && log[i].Called? && log[i].call.CallSubmit? ==>
      exists k :: 0 <= k < |printed| && PrintedAs(printed[k], log[i].call)
  }

  predicate PrintedAs(e: Teleop.Event, call: Call) {
    e.Printed? && e.line.Cmd? && CallOf(Parsed(e.line), call.at) == call
  }
}
