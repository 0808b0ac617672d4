// When the front end's commands encode: its speed limits, roundings and turn
// rates against the session's limits, exactly.

module TeleopFits {
  import opened Wrappers
  import opened Protocol
  import opened TransportModel
  import opened SessionModel
  import opened Cli
  import Teleop = TeleopModel
  import opened TeleopTheorems

  // ----- Decimal rounding -----

  lemma ScaleKeepsOrder(x: real, y: real, units: real)
    requires units > 0.0 && x <= y
    ensures x * units <= y * units
  {
    assert (y - x) * units >= 0.0;
    assert (y - x) * units == y * units - x * units;
  }

  lemma HalfEvenKeepsOrder(a: real, b: real)
    requires a <= b
    ensures Teleop.HalfEven(a) <= Teleop.HalfEven(b)
  {
    assert a.Floor <= b.Floor;
    assert Teleop.HalfEven(a) <= a.Floor + 1;
  }

  lemma HalfEvenIsOdd(y: real)
    ensures Teleop.HalfEven(-y) == -Teleop.HalfEven(y)
  {
    if y == y.Floor as real {
      assert (-y).Floor == -y.Floor;
    } else {
      assert (-y).Floor == -y.Floor - 1;
    }
  }

  // Nearest, and even on a tie.
  lemma HalfEvenExactly(y: real, n: int)
    ensures n == Teleop.HalfEven(y) <==>
            -0.5 < y - n as real < 0.5 || ((y - n as real == 0.5 || y - n as real == -0.5) && n % 2 == 0)
  {
    var f := y.Floor;
    assert f as real <= y < f as real + 1.0;
    assert n < f ==> n as real <= f as real - 1.0;
    assert n > f + 1 ==> n as real >= f as real + 2.0;
  }

  lemma RoundKeepsOrder(x: real, y: real, units: real)
    requires units > 0.0 && x <= y
    ensures Teleop.RoundUnits(x, units) <= Teleop.RoundUnits(y, units)
  {
    ScaleKeepsOrder(x, y, units);
    HalfEvenKeepsOrder(x * units, y * units);
  }

  lemma RoundIsOdd(x: real, units: real)
    requires units > 0.0
    ensures Teleop.RoundUnits(-x, units) == -Teleop.RoundUnits(x, units)
  {
    assert (-x) * units == -(x * units);
    HalfEvenIsOdd(x * units);
  }

  // What is on the grid stays.
  lemma RoundOfGrid(n: int, units: real)
    requires units > 0.0
    ensures Teleop.RoundUnits(n as real / units, units) == n
  {
    assert n as real / units * units == n as real;
  }

  lemma Round9KeepsOrder(x: real, y: real)
    requires x <= y
    ensures Teleop.Round9(x) <= Teleop.Round9(y)
  {
    RoundKeepsOrder(x, y, Teleop.UNITS_9);
  }

  lemma Round12KeepsOrder(x: real, y: real)
    requires x <= y
    ensures Teleop.Round12(x) <= Teleop.Round12(y)
  {
    RoundKeepsOrder(x, y, Teleop.UNITS_12);
  }

  lemma Round9Within(x: real, bound: real)
    requires -bound <= x <= bound
    ensures -Teleop.Round9(bound) <= Teleop.Round9(x) <= Teleop.Round9(bound)
  {
    Round9KeepsOrder(x, bound);
    Round9KeepsOrder(-bound, x);
    RoundIsOdd(bound, Teleop.UNITS_9);
  }

  // ----- The highest speed a session can select -----

  predicate LimitsSound(l: Teleop.Limits) {
    && 0.0 < l.minSelected < l.maxSelected
    && 0.0 < l.speedStep && 0.0 < l.curvature
  }

  function Up(l: Teleop.Limits, speed: real): real {
    Teleop.Changed(l, speed, l.speedStep)
  }

  lemma ChangedKeepsOrder(l: Teleop.Limits, s: real, d: real, s': real, d': real)
    requires s + d <= s' + d'
    ensures Teleop.Changed(l, s, d) <= Teleop.Changed(l, s', d')
  {
    var clamp := (wanted: real) =>
      var raised := if wanted < l.minSelected then l.minSelected else wanted;
      if raised > l.maxSelected then l.maxSelected else raised;
    Round12KeepsOrder(clamp(s + d), clamp(s' + d'));
  }

  lemma ChangedBounds(l: Teleop.Limits, s: real, d: real)
    requires LimitsSound(l)
    ensures Teleop.Round12(l.minSelected) <= Teleop.Changed(l, s, d) <= Teleop.Round12(l.maxSelected)
    ensures 0.0 <= Teleop.Changed(l, s, d)
    ensures s + d >= l.maxSelected ==> Teleop.Changed(l, s, d) == Teleop.Round12(l.maxSelected)
    ensures s + d >= l.minSelected ==> Teleop.Changed(l, s, d) <= Teleop.Round12(s + d)
    ensures s + d <= l.maxSelected ==> Teleop.Changed(l, s, d) >= Teleop.Round12(s + d)
  {
    var wanted := s + d;
    var raised := if wanted < l.minSelected then l.minSelected else wanted;
    var selected := if raised > l.maxSelected then l.maxSelected else raised;
    Round12KeepsOrder(l.minSelected, selected);
    Round12KeepsOrder(selected, l.maxSelected);
    Round12KeepsOrder(0.0, l.minSelected);
    if s + d >= l.minSelected {
      Round12KeepsOrder(selected, s + d);
    }
    if s + d <= l.maxSelected {
      Round12KeepsOrder(s + d, selected);
    }
  }

  // A step of more than half a unit always gets somewhere; a smaller one is
  // swallowed by the rounding after at most two.
  predicate StepCounts(l: Teleop.Limits) {
    2.0 * l.speedStep * Teleop.UNITS_12 > 1.0
  }

  function MaxReal(a: real, b: real): (m: real)
    ensures m >= a && m >= b && (m == a || m == b)
  {
    if a >= b then a else b
  }

  function TopSpeed(l: Teleop.Limits, initial: real): real {
    MaxReal(initial, if StepCounts(l) then Teleop.Round12(l.maxSelected) else Up(l, Up(l, initial)))
  }

  // A number of units, as every changed speed is.
  predicate OnGrid(speed: real) {
    speed == Teleop.Round12(speed)
  }

  lemma ChangedOnGrid(l: Teleop.Limits, s: real, d: real)
    ensures OnGrid(Teleop.Changed(l, s, d))
  {
    var wanted := s + d;
    var raised := if wanted < l.minSelected then l.minSelected else wanted;
    var selected := if raised > l.maxSelected then l.maxSelected else raised;
    RoundOfGrid(Teleop.RoundUnits(selected, Teleop.UNITS_12), Teleop.UNITS_12);
  }

  // Half a unit or less, added to n units.
  lemma SmallStepRounds(n: int, step: real)
    requires 0.0 < step && 2.0 * step * Teleop.UNITS_12 <= 1.0
    ensures var r := Teleop.RoundUnits(n as real / Teleop.UNITS_12 + step, Teleop.UNITS_12);
            r == n || (r == n + 1 && n % 2 != 0)
  {
    var y := (n as real / Teleop.UNITS_12 + step) * Teleop.UNITS_12;
    assert y == n as real + step * Teleop.UNITS_12;
    assert y.Floor == n;
  }

  // A number of units as a speed.
  function GridAt(n: int): real {
    n as real / Teleop.UNITS_12
  }

  lemma SwallowedBetween(n: int, m: int, step: real)
    requires 0.0 < step && 2.0 * step * Teleop.UNITS_12 <= 1.0
    requires GridAt(n) <= GridAt(m) <= Teleop.Round12(GridAt(n) + step)
    ensures m == n || (n % 2 != 0 && m == n + 1)
  {
    SmallStepRounds(n, step);
  }

  lemma GridStays(n: int)
    ensures Teleop.Round12(GridAt(n)) == GridAt(n)
  {
    RoundOfGrid(n, Teleop.UNITS_12);
  }

  // Such a step stays, or goes from an odd number of units to the next.
  lemma SmallStepUp(l: Teleop.Limits, n: int) returns (m: int)
    requires LimitsSound(l) && !StepCounts(l)
    requires Teleop.Round12(l.minSelected) <= GridAt(n) <= Teleop.Round12(l.maxSelected)
    ensures Up(l, GridAt(n)) == GridAt(m)
    ensures m == n || (n % 2 != 0 && m == n + 1)
    ensures Teleop.Round12(l.minSelected) <= GridAt(m) <= Teleop.Round12(l.maxSelected)
  {
    var s := GridAt(n);
    m := Teleop.RoundUnits(Up(l, s), Teleop.UNITS_12);
    GridStays(n);
    ChangedBounds(l, s, l.speedStep);
    ChangedOnGrid(l, s, l.speedStep);
    Round12KeepsOrder(s, s + l.speedStep);
    if s + l.speedStep >= l.minSelected {
      SwallowedBetween(n, m, l.speedStep);
    } else {
      Round12KeepsOrder(s + l.speedStep, l.minSelected);
    }
  }

  // After two such steps, another changes nothing.
  lemma SmallStepsEnd(l: Teleop.Limits, n: int)
    requires LimitsSound(l) && !StepCounts(l)
    requires Teleop.Round12(l.minSelected) <= GridAt(n) <= Teleop.Round12(l.maxSelected)
    ensures GridAt(n) <= Up(l, GridAt(n)) && Up(l, Up(l, GridAt(n))) == Up(l, GridAt(n))
  {
    var m := SmallStepUp(l, n);
    var k := SmallStepUp(l, m);
  }

  // No speed up to the top steps over it.
  lemma TopHolds(l: Teleop.Limits, initial: real)
    requires LimitsSound(l) && l.minSelected <= initial <= l.maxSelected
    ensures Up(l, TopSpeed(l, initial)) <= TopSpeed(l, initial)
  {
    var first, top := Up(l, initial), TopSpeed(l, initial);
    ChangedBounds(l, top, l.speedStep);
    if !StepCounts(l) {
      ChangedBounds(l, initial, l.speedStep);
      ChangedOnGrid(l, initial, l.speedStep);
      SmallStepsEnd(l, Teleop.RoundUnits(first, Teleop.UNITS_12));
    }
  }

  // ----- Every printed command stays below the top -----

  // The largest velocities that are printed.
  datatype Range = Range(straight: real, turning: real)

  // A speed as printed straight on and turning.
  function RangeOf(speed: real, curvature: real): Range {
    Range(Teleop.Round9(speed), Teleop.Round9(Teleop.ArcRate(speed, curvature)))
  }

  // At most nine decimals.
  predicate NineDecimals(x: real) {
    x == Teleop.Round9(x)
  }

  lemma RoundedNine(x: real)
    ensures NineDecimals(Teleop.Round9(x))
  {
    RoundOfGrid(Teleop.RoundUnits(x, Teleop.UNITS_9), Teleop.UNITS_9);
  }

  predicate Printable(line: Teleop.Line, r: Range) {
    line.Cmd? ==>
      && -r.straight <= line.linear <= r.straight && NineDecimals(line.linear)
      && -r.turning <= line.yaw <= r.turning && NineDecimals(line.yaw)
  }

  predicate AllPrintable(lines: seq<Teleop.Line>, r: Range) {
    forall k :: 0 <= k < |lines| ==> Printable(lines[k], r)
  }

  predicate SpeedHeld(t: Teleop.Teleop, top: real) {
    LimitsSound(t.limits) && 0.0 <= t.speed <= top && Up(t.limits, top) <= top
  }

  // A step leaves the speed in range and prints only commands in range.
  predicate PrintsInRange(t: Teleop.Teleop, n: Teleop.Teleop, top: real) {
    && n.limits == t.limits && 0.0 <= n.speed <= top
    && t.lines <= n.lines
    && forall k :: |t.lines| <= k < |n.lines| ==> Printable(n.lines[k], RangeOf(top, t.limits.curvature))
  }

  lemma ArcWithin(speed: real, top: real, curvature: real)
    requires 0.0 <= speed <= top && 0.0 < curvature
    ensures 0.0 <= Teleop.ArcRate(speed, curvature) <= Teleop.ArcRate(top, curvature)
    ensures Teleop.ArcRate(-speed, curvature) == -Teleop.ArcRate(speed, curvature)
  {
    ScaleKeepsOrder(speed, top, curvature);
    ScaleKeepsOrder(0.0, speed, curvature);
  }

  lemma BothRound9Within(x: real, bound: real)
    requires 0.0 <= x <= bound
    ensures -Teleop.Round9(bound) <= Teleop.Round9(x) <= Teleop.Round9(bound)
    ensures -Teleop.Round9(bound) <= Teleop.Round9(-x) <= Teleop.Round9(bound)
    ensures -Teleop.Round9(bound) <= Teleop.Round9(0.0) <= Teleop.Round9(bound)
  {
    Round9Within(x, bound);
    Round9Within(-x, bound);
    Round9Within(0.0, bound);
  }

  // Both turns at a speed stay within the top speed's.
  lemma TurnInRange(speed: real, top: real, curvature: real)
    requires 0.0 <= speed <= top && 0.0 < curvature
    ensures var widest := RangeOf(top, curvature).turning;
            && -widest <= Teleop.Round9(Teleop.ArcRate(speed, curvature)) <= widest
            && -widest <= Teleop.Round9(Teleop.ArcRate(-speed, curvature)) <= widest
            && -widest <= Teleop.Round9(0.0) <= widest
  {
    ArcWithin(speed, top, curvature);
    BothRound9Within(Teleop.ArcRate(speed, curvature), Teleop.ArcRate(top, curvature));
  }

  lemma MotionInRange(t: Teleop.Teleop, top: real)
    requires SpeedHeld(t, top) && t.active.Some?
    ensures var ((linear, yaw), r) := (Teleop.Motion(t).value, RangeOf(top, t.limits.curvature));
            && -r.straight <= Teleop.Round9(linear) <= r.straight
            && -r.turning <= Teleop.Round9(yaw) <= r.turning
            && NineDecimals(Teleop.Round9(linear)) && NineDecimals(Teleop.Round9(yaw))
  {
    TurnInRange(t.speed, top, t.limits.curvature);
    Round9Within(t.speed, top);
    Round9Within(-t.speed, top);
    RoundedNine(Teleop.Motion(t).value.0);
    RoundedNine(Teleop.Motion(t).value.1);
  }

  lemma StopInRange(t: Teleop.Teleop, n: Teleop.Teleop, force: bool, top: real)
    requires n.limits == t.limits && n.lines == t.lines && n.speed == t.speed && 0.0 <= t.speed <= top
    ensures PrintsInRange(t, Teleop.EmitStop(Teleop.ClearDirection(n), force), top)
  {
  }

  lemma CommandInRange(t: Teleop.Teleop, now: int, top: real)
    requires SpeedHeld(t, top) && t.active.Some?
    ensures PrintsInRange(t, Teleop.EmitCommand(t, now), top)
  {
    MotionInRange(t, top);
  }

  lemma SpeedChangeInRange(t: Teleop.Teleop, delta: real, top: real)
    requires SpeedHeld(t, top) && delta <= t.limits.speedStep
    ensures PrintsInRange(t, Teleop.ChangeSpeed(t, delta), top)
  {
    ChangedKeepsOrder(t.limits, t.speed, delta, top, t.limits.speedStep);
    ChangedBounds(t.limits, t.speed, delta);
  }

  lemma HoldInRange(t: Teleop.Teleop, key: Teleop.Direction, now: int, top: real)
    requires SpeedHeld(t, top)
    ensures PrintsInRange(t, Teleop.Hold(t, key, now), top)
  {
    var next := if t.next.None? then now else t.next.value;
    CommandInRange(t.(active := Some(key), activity := Some(now), next := Some(next)), now, top);
  }

  lemma DirectionInRange(t: Teleop.Teleop, key: Teleop.Direction, now: int, top: real)
    requires SpeedHeld(t, top)
    ensures PrintsInRange(t, Teleop.PressDirection(t, key, now), top)
  {
    StopInRange(t, t.(conflictUntil := Min(INT64_MAX, now + t.limits.release)), false, top);
    StopInRange(t, t, false, top);
    HoldInRange(t, key, now, top);
  }

  lemma PressInRange(t: Teleop.Teleop, key: Teleop.Key, now: int, top: real)
    requires SpeedHeld(t, top)
    ensures PrintsInRange(t, Teleop.Press(t, key, now), top)
  {
    match key
    case Q => SpeedChangeInRange(t, t.limits.speedStep, top);
    case E => SpeedChangeInRange(t, -t.limits.speedStep, top);
    case W | S | A | D => DirectionInRange(t, key, now, top);
    case _ => QuietKeyInRange(t, key, now, top);
  }

  // A key that neither moves nor changes the speed.
  lemma QuietKeyInRange(t: Teleop.Teleop, key: Teleop.Key, now: int, top: real)
    requires !Teleop.IsDirection(key) && !key.Q? && !key.E? && 0.0 <= t.speed <= top
    ensures PrintsInRange(t, Teleop.Press(t, key, now), top)
  {
  }

  // What follows a step without commands keeps its range.
  lemma InRangeOn(t: Teleop.Teleop, c: Teleop.Teleop, n: Teleop.Teleop, top: real)
    requires PrintsInRange(t, c, top) && PrintsInRange(c, n, top)
    ensures PrintsInRange(t, n, top)
  {
  }

  lemma RespondInRange(t: Teleop.Teleop, key: Teleop.Key, pressed: bool, now: int, top: real)
    requires SpeedHeld(t, top)
    ensures PrintsInRange(t, Teleop.Respond(t, key, pressed, now), top)
  {
    if pressed {
      PressInRange(t, key, now, top);
    } else {
      StopInRange(t, t, false, top);
    }
  }

  lemma EventInRange(t: Teleop.Teleop, key: Teleop.Key, pressed: bool, now: int, top: real)
    requires SpeedHeld(t, top)
    ensures PrintsInRange(t, Teleop.HandleEvent(t, key, pressed, now), top)
  {
    if Teleop.NowIsValid(t, now) {
      var seen := t.(lastClock := Some(now));
      StopInRange(seen, seen, false, top);
      var c := Teleop.ExpireDirection(seen, now);
      RespondInRange(c, key, pressed, now, top);
      InRangeOn(t, c, Teleop.Respond(c, key, pressed, now), top);
    } else {
      StopInRange(t, t.(authorized := false), true, top);
    }
  }

  lemma TickInRange(t: Teleop.Teleop, now: int, top: real)
    requires SpeedHeld(t, top)
    ensures PrintsInRange(t, Teleop.Tick(t, now), top)
  {
    if Teleop.NowIsValid(t, now) {
      var seen := t.(lastClock := Some(now));
      StopInRange(seen, seen, false, top);
      if seen.active.Some? {
        CommandInRange(seen, now, top);
      }
    } else {
      StopInRange(t, t.(authorized := false), true, top);
    }
  }

  lemma StepInRange(t: Teleop.Teleop, i: Teleop.Input, top: real)
    requires SpeedHeld(t, top)
    ensures PrintsInRange(t, Teleop.Step(t, i), top)
  {
    match i
    case KeyEvent(key, pressed, now) => EventInRange(t, key, pressed, now, top);
    case TickAt(now) => TickInRange(t, now, top);
    case ForceStop => StopInRange(t, t, true, top);
    case Finish => StopInRange(t, t.(finished := true, authorized := false), true, top);
  }

  function TopOf(config: Teleop.TeleopConfig): real
    requires Teleop.TeleopConfigIsValid(config)
  {
    TopSpeed(Teleop.LimitsOf(config), config.initialSelected.value)
  }

  ghost predicate RangeHeld(config: Teleop.TeleopConfig, h: Teleop.History)
    requires Teleop.TeleopConfigIsValid(config)
  {
    && SpeedHeld(h.controller, TopOf(config)) && h.controller.limits == Teleop.LimitsOf(config)
    && AllPrintable(h.controller.lines, RangeOf(TopOf(config), config.curvature.value))
  }

  // Every selected speed is at most the top speed, and every printed velocity at
  // most what that rounds to.
  lemma ReachableInRange(config: Teleop.TeleopConfig, h: Teleop.History)
    requires Teleop.Reachable(config, h)
    ensures RangeHeld(config, h)
  {
    TopHolds(Teleop.LimitsOf(config), config.initialSelected.value);
    var held := iset g: Teleop.History | RangeHeld(config, g);
    forall g, i | g in held
      ensures Teleop.Next(g, i) in held
    {
      StepInRange(g.controller, i, TopOf(config));
    }
    assert Teleop.Closed(config, held);
  }
}
