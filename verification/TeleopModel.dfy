// The keyboard front end's controller as a function on its state, and the
// histories it can have over every sequence of key events and ticks.

module TeleopModel {
  import opened Wrappers
  import opened Protocol

  datatype TeleopConfig = TeleopConfig(
    maxLinear: Double, minSelected: Double, initialSelected: Double, maxSelected: Double,
    speedStep: Double, curvature: Double, releaseTimeoutMs: Double, commandRateHz: Double)

  const WIRE_POSITIVE_MAX := 32.767
  const MAX_RELEASE_TIMEOUT_MS := 1000.0
  const MAX_COMMAND_RATE_HZ := 1000.0

  function Ceiling(x: real): int {
    -((-x).Floor)
  }

  function ReleaseTimeout(c: TeleopConfig): int
    requires c.releaseTimeoutMs.Finite?
  {
    Trunc(c.releaseTimeoutMs.value * 1_000_000.0)
  }

  function CommandPeriod(c: TeleopConfig): int
    requires c.commandRateHz.Finite? && c.commandRateHz.value > 0.0
  {
    Ceiling(1_000_000_000.0 / c.commandRateHz.value)
  }

  predicate AllFinite(c: TeleopConfig) {
    && c.maxLinear.Finite? && c.minSelected.Finite? && c.initialSelected.Finite? && c.maxSelected.Finite?
    && c.speedStep.Finite? && c.curvature.Finite? && c.releaseTimeoutMs.Finite? && c.commandRateHz.Finite?
  }

  predicate TeleopConfigIsValid(c: TeleopConfig) {
    && AllFinite(c)
    && 0.0 < c.maxLinear.value < 6.0
    && 0.0 < c.minSelected.value <= c.initialSelected.value <= c.maxSelected.value
    && c.minSelected.value < c.maxSelected.value <= c.maxLinear.value
    && 0.0 < c.speedStep.value <= c.maxLinear.value
    && 0.0 < c.curvature.value
    && c.maxSelected.value * c.curvature.value <= WIRE_POSITIVE_MAX
    && 0.0 < c.releaseTimeoutMs.value <= MAX_RELEASE_TIMEOUT_MS
    && 0.0 < c.commandRateHz.value <= MAX_COMMAND_RATE_HZ
    && 0 < ReleaseTimeout(c) <= INT64_MAX
    && 0 < CommandPeriod(c) < ReleaseTimeout(c)
  }

  // The validated numbers the controller works with.
  datatype Limits = Limits(
    minSelected: real, maxSelected: real, speedStep: real, curvature: real, release: int, period: int)

  function LimitsOf(c: TeleopConfig): Limits
    requires TeleopConfigIsValid(c)
  {
    Limits(c.minSelected.value, c.maxSelected.value, c.speedStep.value, c.curvature.value,
           ReleaseTimeout(c), CommandPeriod(c))
  }

  datatype Key = W | S | A | D | R | Q | E | Space | X | Esc | Other(name: string)

  predicate IsDirection(k: Key) {
    k.W? || k.S? || k.A? || k.D?
  }

  type Direction = k: Key | IsDirection(k) witness W

  // One line of the machine protocol; the two numbers of a CMD are as printed.
  datatype Line =
    | Auth(token: int)
    | Cmd(sequence: int, created: int, deadline: int, linear: real, yaw: real)
    | Stop
    | Estop
    | Quit

  datatype Input = KeyEvent(key: Key, pressed: bool, at: int) | TickAt(at: int) | ForceStop | Finish

  datatype Teleop = Teleop(
    limits: Limits, speed: real, authorized: bool, latched: bool,
    active: Option<Direction>, activity: Option<int>, next: Option<int>, lastClock: Option<int>,
    lastToken: int, authEvent: int, sequence: int, conflictUntil: int, stopped: bool,
    quitRequested: bool, finished: bool,
    lines: seq<Line>)

  // ----- Decimal rounding -----

  // The nearest integer, ties to the even one.
  function HalfEven(y: real): int {
    var f := y.Floor;
    var fraction := y - f as real;
    if fraction < 0.5 then f
    else if fraction > 0.5 then f + 1
    else if f % 2 == 0 then f
    else f + 1
  }

  // The nearest multiple of 1/units.
  function RoundUnits(x: real, units: real): int {
    HalfEven(x * units)
  }

  const UNITS_9 := 1_000_000_000.0
  const UNITS_12 := 1_000_000_000_000.0

  function Round9(x: real): real {
    RoundUnits(x, UNITS_9) as real / UNITS_9
  }

  function Round12(x: real): real {
    RoundUnits(x, UNITS_12) as real / UNITS_12
  }

  // ----- Steps -----

  function Emit(t: Teleop, line: Line): Teleop {
    t.(lines := t.lines + [line])
  }

  function ClearDirection(t: Teleop): Teleop {
    t.(active := None, activity := None, next := None)
  }

  function EmitStop(t: Teleop, force: bool): (r: Teleop)
    ensures r.limits == t.limits
  {
    if force || !t.stopped then Emit(t, Stop).(stopped := true) else t
  }

  function StopAndClear(t: Teleop): (r: Teleop)
    ensures r.limits == t.limits
  {
    EmitStop(ClearDirection(t), false)
  }

  predicate NowIsValid(t: Teleop, now: int) {
    now > 0 && (t.lastClock.Some? ==> t.lastClock.value <= now)
  }

  function ClockInvalid(t: Teleop): (r: Teleop)
    ensures r.limits == t.limits
  {
    EmitStop(ClearDirection(t.(authorized := false)), true)
  }

  function Granted(t: Teleop, token: int, now: int): (r: Teleop)
    ensures r.limits == t.limits
  {
    ClearDirection(t.(lastToken := token, authorized := true, authEvent := now, conflictUntil := 0))
  }

  function Authorize(t: Teleop, now: int): (r: Teleop)
    ensures r.limits == t.limits
  {
    var token := Max(now, t.lastToken + 1);
    if t.latched || token > INT64_MAX then StopAndClear(t.(authorized := false))
    else EmitStop(Emit(Granted(t, token, now), Auth(token)), true)
  }

  // The selected speed after a change, within its bounds and rounded.
  function Changed(l: Limits, speed: real, delta: real): real {
    var wanted := speed + delta;
    var raised := if wanted < l.minSelected then l.minSelected else wanted;
    Round12(if raised > l.maxSelected then l.maxSelected else raised)
  }

  function ChangeSpeed(t: Teleop, delta: real): (r: Teleop)
    ensures r.limits == t.limits
  {
    var halted := if t.active.Some? then StopAndClear(t) else t;
    halted.(speed := Changed(t.limits, t.speed, delta))
  }

  // The yaw rate that keeps an arc of the given curvature.
  function ArcRate(speed: real, curvature: real): real {
    speed * curvature
  }

  // The velocities of the held direction; None where the source raises.
  function Motion(t: Teleop): (m: Option<(real, real)>)
    ensures m.Some? <==> t.active.Some?
  {
    if t.active.None? then None
    else
      match t.active.value
      case W => Some((t.speed, 0.0))
      case S => Some((-t.speed, 0.0))
      case A => Some((t.speed, ArcRate(t.speed, t.limits.curvature)))
      case D => Some((t.speed, ArcRate(-t.speed, t.limits.curvature)))
  }

  function EmitCommand(t: Teleop, now: int): (r: Teleop)
    requires t.active.Some?
    ensures r.limits == t.limits
  {
    var release := t.limits.release;
    if t.sequence >= UINT64_MAX || now > INT64_MAX - release then StopAndClear(t.(authorized := false))
    else
      var sequence := Max(t.sequence + 1, now);
      var (linear, yaw) := Motion(t).value;
      Emit(t, Cmd(sequence, now, now + release, Round9(linear), Round9(yaw)))
        .(sequence := sequence, stopped := false, next := Some(now + t.limits.period))
  }

  predicate Expired(t: Teleop, now: int) {
    t.active.Some? && t.activity.Some? && now - t.activity.value >= t.limits.release
  }

  function Conflict(t: Teleop, now: int): (r: Teleop)
    ensures r.limits == t.limits
  {
    StopAndClear(t.(conflictUntil := Min(INT64_MAX, now + t.limits.release)))
  }

  // Keep the direction going, with a command if one is due.
  function Hold(t: Teleop, key: Direction, now: int): (r: Teleop)
    ensures r.limits == t.limits
  {
    var next := if t.next.None? then now else t.next.value;
    var held := t.(active := Some(key), activity := Some(now), next := Some(next));
    if now >= next then EmitCommand(held, now) else held
  }

  function PressDirection(t: Teleop, key: Direction, now: int): (r: Teleop)
    ensures r.limits == t.limits
  {
    if now < t.conflictUntil then Conflict(t, now)
    else if !t.authorized then StopAndClear(t)
    else if now <= t.authEvent then StopAndClear(t)
    else if t.active.Some? && t.active.value != key then Conflict(t, now)
    else Hold(t, key, now)
  }

  function RaiseEstop(t: Teleop): (r: Teleop)
    ensures r.limits == t.limits
  {
    EmitStop(Emit(ClearDirection(t.(authorized := false, latched := true)), Estop), true)
  }

  function Press(t: Teleop, key: Key, now: int): (r: Teleop)
    ensures r.limits == t.limits
  {
    match key
    case R => Authorize(t, now)
    case Q => ChangeSpeed(t, t.limits.speedStep)
    case E => ChangeSpeed(t, -t.limits.speedStep)
    case Space => StopAndClear(t.(conflictUntil := 0))
    case X => RaiseEstop(t)
    case Esc => StopAndClear(t.(quitRequested := true))
    case Other(_) => if t.active.Some? then Conflict(t, now) else t
    case _ => PressDirection(t, key, now)
  }

  function ExpireDirection(t: Teleop, now: int): (r: Teleop)
    ensures r.limits == t.limits
  {
    if Expired(t, now) then StopAndClear(t) else t
  }

  function Respond(t: Teleop, key: Key, pressed: bool, now: int): (r: Teleop)
    ensures r.limits == t.limits
  {
    if pressed then Press(t, key, now)
    else if t.active.Some? && t.active.value == key then StopAndClear(t)
    else t
  }

  function HandleEvent(t: Teleop, key: Key, pressed: bool, now: int): (r: Teleop)
    ensures r.limits == t.limits
  {
    if !NowIsValid(t, now) then ClockInvalid(t)
    else Respond(ExpireDirection(t.(lastClock := Some(now)), now), key, pressed, now)
  }

  function Tick(t: Teleop, now: int): (r: Teleop)
    ensures r.limits == t.limits
  {
    if !NowIsValid(t, now) then ClockInvalid(t)
    else
      var seen := t.(lastClock := Some(now));
      if Expired(seen, now) then StopAndClear(seen)
      else if seen.authorized && seen.active.Some? && seen.next.Some? && now >= seen.next.value then
        EmitCommand(seen, now)
      else seen
  }

  function FinishUp(t: Teleop): (r: Teleop)
    ensures r.limits == t.limits
  {
    if t.finished then t
    else Emit(EmitStop(ClearDirection(t.(finished := true, authorized := false)), true), Quit)
  }

  function Step(t: Teleop, i: Input): (r: Teleop)
    ensures r.limits == t.limits
  {
    match i
    case KeyEvent(key, pressed, at) => HandleEvent(t, key, pressed, at)
    case TickAt(at) => Tick(t, at)
    case ForceStop => EmitStop(ClearDirection(t), true)
    case Finish => FinishUp(t)
  }

  function Started(config: TeleopConfig): Teleop
    requires TeleopConfigIsValid(config)
  {
    Teleop(LimitsOf(config), config.initialSelected.value, false, false, None, None, None, None,
           0, 0, 0, 0, false, false, false, [])
  }

  // ----- Histories -----

  // What the controller heard and printed, in order.
  datatype Event = Heard(input: Input) | Printed(line: Line)

  datatype History = History(controller: Teleop, log: seq<Event>)

  function LinesAdded(before: seq<Line>, after: seq<Line>): seq<Event> {
    if before <= after then
      seq(|after| - |before|, k requires 0 <= k < |after| - |before| => Printed(after[|before| + k]))
    else []
  }

  function Next(h: History, i: Input): History {
    var n := Step(h.controller, i);
    History(n, h.log + [Heard(i)] + LinesAdded(h.controller.lines, n.lines))
  }

  function Beginning(config: TeleopConfig): History
    requires TeleopConfigIsValid(config)
  {
    History(Started(config), [])
  }

  // A set of histories that has the beginning and that no input leaves.
  ghost predicate Closed(config: TeleopConfig, histories: iset<History>)
    requires TeleopConfigIsValid(config)
  {
    && Beginning(config) in histories
    && (forall h, i :: h in histories ==> Next(h, i) in histories)
  }

  // In every such set: what any sequence of inputs can lead to.
  ghost predicate Reachable(config: TeleopConfig, h: History) {
    TeleopConfigIsValid(config) && forall histories :: Closed(config, histories) ==> h in histories
  }

  lemma ReachableBegins(config: TeleopConfig)
    requires TeleopConfigIsValid(config)
    ensures Reachable(config, Beginning(config))
  {
  }

  lemma ReachableGoesOn(config: TeleopConfig, h: History, i: Input)
    requires Reachable(config, h)
    ensures Reachable(config, Next(h, i))
  {
  }
}
