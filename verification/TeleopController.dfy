// The controller as the source writes it: an object that updates its fields and
// prints lines.  Every public method is proved to make the model's step.

module TeleopControllers {
  import opened Wrappers
  import opened Protocol
  import opened TeleopModel
  import Spec = TeleopModel

  // The checks in the source's order; false where it raises.
  method ValidateConfig(c: TeleopConfig) returns (ok: bool)
    ensures ok <==> TeleopConfigIsValid(c)
  {
    if !AllFinite(c) { return false; }
    var immutableLimit := c.maxLinear.value;
    if !(0.0 < immutableLimit < 6.0) { return false; }
    if !(0.0 < c.minSelected.value) { return false; }
    if !(c.minSelected.value <= c.initialSelected.value <= c.maxSelected.value) { return false; }
    if !(c.minSelected.value < c.maxSelected.value) { return false; }
    if c.maxSelected.value > immutableLimit { return false; }
    if !(0.0 < c.speedStep.value <= immutableLimit) { return false; }
    if !(0.0 < c.curvature.value) { return false; }
    if c.maxSelected.value * c.curvature.value > WIRE_POSITIVE_MAX { return false; }
    if !(0.0 < c.releaseTimeoutMs.value <= MAX_RELEASE_TIMEOUT_MS) { return false; }
    if !(0.0 < c.commandRateHz.value <= MAX_COMMAND_RATE_HZ) { return false; }
    if ReleaseTimeout(c) <= 0 || ReleaseTimeout(c) > INT64_MAX { return false; }
    if CommandPeriod(c) <= 0 { return false; }
    return CommandPeriod(c) < ReleaseTimeout(c);
  }

  // A controller exists only for a valid configuration; null where the source raises.
  method Create(config: TeleopConfig) returns (controller: TeleopController?)
    ensures controller != null <==> TeleopConfigIsValid(config)
    ensures controller != null ==> fresh(controller) && controller.View() == Started(config)
  {
    var ok := ValidateConfig(config);
    if !ok {
      return null;
    }
    controller := new TeleopController(config);
  }

  class TeleopController {
    const limits: Limits
    var speed: real
    var authorized: bool
    var latched: bool
    var active: Option<Direction>
    var activity: Option<int>
    var next: Option<int>
    var lastClock: Option<int>
    var lastToken: int
    var authEvent: int
    var sequence: int
    var conflictUntil: int
    var stopped: bool
    var quitRequested: bool
    var finished: bool
    var lines: seq<Line>

    ghost function View(): Teleop
      reads this
    {
      Teleop(limits, speed, authorized, latched, active, activity, next, lastClock,
             lastToken, authEvent, sequence, conflictUntil, stopped, quitRequested, finished, lines)
    }

    constructor (config: TeleopConfig)
      requires TeleopConfigIsValid(config)
      ensures View() == Started(config)
    {
      limits := LimitsOf(config);
      speed := config.initialSelected.value;
      authorized, latched := false, false;
      active, activity, next, lastClock := None, None, None, None;
      lastToken, authEvent, sequence, conflictUntil := 0, 0, 0, 0;
      stopped, quitRequested, finished := false, false, false;
      lines := [];
    }

    method EmitProtocol(line: Line)
      modifies `lines
      ensures View() == Emit(old(View()), line)
    {
      lines := lines + [line];
    }

    method ClearDirection()
      modifies `active, `activity, `next
      ensures active == None && activity == None && next == None
    {
      active, activity, next := None, None, None;
    }

    method EmitStop(force: bool)
      modifies `lines, `stopped
      ensures View() == Spec.EmitStop(old(View()), force)
    {
      if force || !stopped {
        EmitProtocol(Stop);
        stopped := true;
      }
    }

    method ForceStop()
      modifies `active, `activity, `next, `lines, `stopped
      ensures View() == Step(old(View()), Input.ForceStop)
    {
      ClearDirection();
      EmitStop(true);
    }

    method StopAndClear()
      modifies `active, `activity, `next, `lines, `stopped
      ensures View() == Spec.StopAndClear(old(View()))
    {
      ClearDirection();
      EmitStop(false);
    }

    method RevokeAndStop()
      modifies `authorized, `active, `activity, `next, `lines, `stopped
      ensures View() == Spec.StopAndClear(old(View()).(authorized := false))
    {
      authorized := false;
      StopAndClear();
    }

    method ValidNow(now: int) returns (ok: bool)
      modifies this
      ensures ok == NowIsValid(old(View()), now)
      ensures View() == if ok then old(View()).(lastClock := Some(now)) else ClockInvalid(old(View()))
    {
      if now <= 0 || (lastClock.Some? && now < lastClock.value) {
        authorized := false;
        ForceStop();
        return false;
      }
      lastClock := Some(now);
      return true;
    }

    method Authorize(now: int)
      modifies this
      ensures View() == Spec.Authorize(old(View()), now)
    {
      if latched {
        RevokeAndStop();
        return;
      }
      var token := Max(now, lastToken + 1);
      if token > INT64_MAX {
        RevokeAndStop();
        return;
      }
      Grant(token, now);
      EmitProtocol(Auth(token));
      EmitStop(true);
    }

    method Grant(token: int, now: int)
      modifies `lastToken, `authorized, `authEvent, `conflictUntil, `active, `activity, `next
      ensures lastToken == token && authorized && authEvent == now && conflictUntil == 0
      ensures active == None && activity == None && next == None
    {
      lastToken := token;
      authorized := true;
      authEvent := now;
      conflictUntil := 0;
      ClearDirection();
    }

    method ChangeSpeed(delta: real)
      modifies this
      ensures View() == Spec.ChangeSpeed(old(View()), delta)
    {
      if active.Some? {
        StopAndClear();
      }
      var selected := speed + delta;
      selected := if selected < limits.minSelected then limits.minSelected else selected;
      selected := if selected > limits.maxSelected then limits.maxSelected else selected;
      speed := Round12(selected);
    }

    // None where the source raises.
    method Motion() returns (motion: Option<(real, real)>)
      ensures motion == Spec.Motion(View())
    {
      if active == Some(W) {
        return Some((speed, 0.0));
      }
      if active == Some(S) {
        return Some((-speed, 0.0));
      }
      if active == Some(A) {
        return Some((speed, ArcRate(speed, limits.curvature)));
      }
      if active == Some(D) {
        return Some((speed, ArcRate(-speed, limits.curvature)));
      }
      return None;
    }

    method EmitCommand(now: int)
      requires active.Some?
      modifies this
      ensures View() == Spec.EmitCommand(old(View()), now)
    {
      if sequence >= UINT64_MAX {
        RevokeAndStop();
        return;
      }
      if now > INT64_MAX - limits.release {
        RevokeAndStop();
        return;
      }
      sequence := Max(sequence + 1, now);
      var deadline := now + limits.release;
      var motion := Motion();
      var (linear, yaw) := motion.value;
      EmitProtocol(Cmd(sequence, now, deadline, Round9(linear), Round9(yaw)));
      stopped := false;
      next := Some(now + limits.period);
    }

    method ExpireDirectionIfNeeded(now: int) returns (expired: bool)
      modifies this
      ensures expired == Expired(old(View()), now)
      ensures View() == ExpireDirection(old(View()), now)
    {
      if active.Some? && activity.Some? && now - activity.value >= limits.release {
        StopAndClear();
        return true;
      }
      return false;
    }

    method InhibitConflict(now: int)
      modifies `conflictUntil, `active, `activity, `next, `lines, `stopped
      ensures View() == Conflict(old(View()), now)
    {
      conflictUntil := Min(INT64_MAX, now + limits.release);
      StopAndClear();
    }

    method HandleDirection(key: Direction, now: int)
      modifies this
      ensures View() == PressDirection(old(View()), key, now)
    {
      if now < conflictUntil {
        InhibitConflict(now);
        return;
      }
      if !authorized {
        StopAndClear();
        return;
      }
      if now <= authEvent {
        StopAndClear();
        return;
      }
      if active.Some? && active.value != key {
        InhibitConflict(now);
        return;
      }
      active := Some(key);
      activity := Some(now);
      if next.None? {
        next := Some(now);
      }
      if now >= next.value {
        EmitCommand(now);
      }
    }

    method StopAndForgive()
      modifies this
      ensures View() == Spec.StopAndClear(old(View()).(conflictUntil := 0))
    {
      conflictUntil := 0;
      StopAndClear();
    }

    method RaiseEstop()
      modifies this
      ensures View() == Spec.RaiseEstop(old(View()))
    {
      authorized := false;
      latched := true;
      ClearDirection();
      EmitProtocol(Estop);
      EmitStop(true);
    }

    method HandlePress(key: Key, now: int)
      modifies this
      ensures View() == Press(old(View()), key, now)
    {
      match key {
        case R => Authorize(now);
        case Q => ChangeSpeed(limits.speedStep);
        case E => ChangeSpeed(-limits.speedStep);
        case Space => StopAndForgive();
        case X => RaiseEstop();
        case Esc =>
          quitRequested := true;
          StopAndClear();
        case Other(_) =>
          if active.Some? {
            InhibitConflict(now);
          }
        case _ => HandleDirection(key, now);
      }
    }

    method HandleEvent(key: Key, pressed: bool, now: int)
      modifies this
      ensures View() == Step(old(View()), KeyEvent(key, pressed, now))
    {
      var ok := ValidNow(now);
      if !ok {
        return;
      }
      var expired := ExpireDirectionIfNeeded(now);
      if !pressed {
        if active.Some? && active.value == key {
          StopAndClear();
        }
        return;
      }
      HandlePress(key, now);
    }

    method Tick(now: int)
      modifies this
      ensures View() == Step(old(View()), TickAt(now))
    {
      var ok := ValidNow(now);
      if !ok {
        return;
      }
      var expired := ExpireDirectionIfNeeded(now);
      if expired {
        return;
      }
      if authorized && active.Some? && next.Some? && now >= next.value {
        EmitCommand(now);
      }
    }

    method FinishUp()
      modifies this
      ensures View() == Step(old(View()), Finish)
    {
      if finished {
        return;
      }
      finished := true;
      authorized := false;
      ForceStop();
      EmitProtocol(Quit);
    }
  }
}
