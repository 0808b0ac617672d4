// The front end and the session under one configuration: no command is ever
// turned down by the encoder exactly when the top speed, as printed, is within
// the session's limits.

module FitsExactly {
  import opened Wrappers
  import opened Protocol
  import opened TransportModel
  import opened SessionModel
  import opened Reachability
  import opened LogReading
  import opened SessionFrames
  import opened StopBarrier
  import opened SessionRecovery
  import opened Cli
  import Teleop = TeleopModel
  import opened TeleopTheorems
  import opened TeleopFits

  predicate BothValid(c: RuntimeConfig) {
    RuntimeConfigIsValid(c) && Teleop.TeleopConfigIsValid(TeleopConfigOf(c))
  }

  predicate RangeFits(c: RuntimeConfig, r: Range)
    requires BothValid(c)
  {
    r.straight <= c.maxLinear.value && r.turning <= c.maxYaw.value
  }

  // The highest selectable speed, as printed straight on and turning.
  function TopRange(config: Teleop.TeleopConfig): Range
    requires Teleop.TeleopConfigIsValid(config)
  {
    RangeOf(TopOf(config), config.curvature.value)
  }

  predicate TopFits(c: RuntimeConfig)
    requires BothValid(c)
  {
    RangeFits(c, TopRange(TeleopConfigOf(c)))
  }

  ghost predicate NeverRejected(c: RuntimeConfig)
    requires BothValid(c)
  {
    forall h, w, i ::
      Teleop.Reachable(TeleopConfigOf(c), h) && Reachable(MakeSafetyConfig(c), w) && FedBy(h.log, w.log)
      && 0 <= i < |w.log| && w.log[i].Called? ==>
        w.log[i].reply != Submission(EncodingRejected)
  }

  // ----- Enough -----

  ghost predicate RejectionsEarned(config: SafetyConfig, w: World) {
    && w.session.config == config
    && forall i :: 0 <= i < |w.log| && w.log[i].Called? && w.log[i].reply == Submission(EncodingRejected) ==>
         w.log[i].call.CallSubmit? && !MotionAllowed(config, w.log[i].call.command.motion)
  }

  lemma RejectionEarned(s: Session, t: Turn)
    requires Step(s, t).reply == Submission(EncodingRejected)
    ensures t.call.CallSubmit? && !MotionAllowed(s.config, t.call.command.motion)
  {
  }

  lemma RejectionsGoOn(config: SafetyConfig, w: World, t: Turn)
    requires RejectionsEarned(config, w)
    ensures RejectionsEarned(config, Next(w, t))
  {
    var r := Step(w.session, t);
    if r.reply == Submission(EncodingRejected) {
      RejectionEarned(w.session, t);
    }
  }

  lemma ReachableRejectionsEarned(config: SafetyConfig, w: World)
    requires Reachable(config, w)
    ensures RejectionsEarned(config, w)
  {
    var earned := iset v: World | RejectionsEarned(config, v);
    forall v, t | v in earned && TurnAllowed(v.link, t)
      ensures Next(v, t) in earned
    {
      RejectionsGoOn(config, v, t);
    }
    assert Closed(config, earned);
  }

  lemma SubmittedLine(line: Teleop.Line, command: TimedMotionCommand, now: int64)
    requires CallOf(Parsed(line), now) == CallSubmit(command, now)
    ensures line.Cmd? && command.motion == MotionCommand(Finite(line.linear), Finite(0.0), Finite(line.yaw))
  {
  }

  lemma PrintableFits(config: SafetyConfig, line: Teleop.Line, r: Range)
    requires ConfigIsValid(config) && line.Cmd? && Printable(line, r)
    requires r.straight <= config.maxLinear.value && r.turning <= config.maxYaw.value
    ensures MotionAllowed(config, MotionCommand(Finite(line.linear), Finite(0.0), Finite(line.yaw)))
  {
    InRangeEncodes(config, MotionCommand(Finite(line.linear), Finite(0.0), Finite(line.yaw)));
  }

  // No history prints a velocity out of this range.
  ghost predicate NothingFaster(config: Teleop.TeleopConfig, r: Range) {
    forall h :: Teleop.Reachable(config, h) ==> AllPrintable(h.controller.lines, r)
  }

  // Every line of a log is in range.
  lemma PrintedInRange(config: Teleop.TeleopConfig, h: Teleop.History, k: nat, r: Range)
    requires Teleop.Reachable(config, h) && k < |h.log| && h.log[k].Printed? && NothingFaster(config, r)
    ensures Printable(h.log[k].line, r)
  {
    ReachableLogLines(config, h);
    LineOfLog(h.log, k);
    var l: nat :| l < |LinesIn(h.log)| && LinesIn(h.log)[l] == h.log[k].line;
    assert Printable(h.controller.lines[l], r);
  }

  lemma PrintedCommandFits(config: SafetyConfig, line: Teleop.Line, call: Call, r: Range)
    requires ConfigIsValid(config) && Printable(line, r)
    requires r.straight <= config.maxLinear.value && r.turning <= config.maxYaw.value
    requires call.CallSubmit? && CallOf(Parsed(line), call.at) == call
    ensures MotionAllowed(config, call.command.motion)
  {
    SubmittedLine(line, call.command, call.at);
    PrintableFits(config, line, r);
  }

  lemma FittingNeverRejected(c: RuntimeConfig, r: Range)
    requires BothValid(c) && NothingFaster(TeleopConfigOf(c), r) && RangeFits(c, r)
    ensures NeverRejected(c)
  {
    SafetyConfigAccepted(c);
    forall h, w, i | Teleop.Reachable(TeleopConfigOf(c), h) && Reachable(MakeSafetyConfig(c), w)
                     && FedBy(h.log, w.log) && 0 <= i < |w.log| && w.log[i].Called?
      ensures w.log[i].reply != Submission(EncodingRejected)
    {
      ReachableRejectionsEarned(MakeSafetyConfig(c), w);
      if w.log[i].reply == Submission(EncodingRejected) {
        var k :| 0 <= k < |h.log| && PrintedAs(h.log[k], w.log[i].call);
        PrintedInRange(TeleopConfigOf(c), h, k, r);
        PrintedCommandFits(MakeSafetyConfig(c), h.log[k].line, w.log[i].call, r);
      }
    }
  }

  // ----- Needed: the operator can select the top speed -----

  // Authorized, nothing held, this speed selected, no time gone by.
  predicate Poised(t: Teleop.Teleop, l: Teleop.Limits, speed: real) {
    && t.limits == l && t.speed == speed && t.authorized && !t.latched
    && t.active.None? && t.activity.None? && t.next.None?
    && t.lastClock == Some(1) && t.authEvent == 1 && t.sequence == 0 && t.conflictUntil == 0
  }

  const AUTHORIZE := Teleop.KeyEvent(Teleop.R, true, 1)
  const FASTER := Teleop.KeyEvent(Teleop.Q, true, 1)

  lemma AuthorizedFirst(config: Teleop.TeleopConfig) returns (h: Teleop.History)
    requires Teleop.TeleopConfigIsValid(config)
    ensures Teleop.Reachable(config, h)
    ensures Poised(h.controller, Teleop.LimitsOf(config), config.initialSelected.value)
  {
    h := Teleop.Next(Teleop.Beginning(config), AUTHORIZE);
    Teleop.ReachableBegins(config);
    Teleop.ReachableGoesOn(config, Teleop.Beginning(config), AUTHORIZE);
  }

  lemma Faster(config: Teleop.TeleopConfig, h: Teleop.History, l: Teleop.Limits, speed: real)
    returns (n: Teleop.History)
    requires Teleop.Reachable(config, h) && Poised(h.controller, l, speed)
    ensures Teleop.Reachable(config, n) && Poised(n.controller, l, Up(l, speed))
  {
    n := Teleop.Next(h, FASTER);
    Teleop.ReachableGoesOn(config, h, FASTER);
  }

  // More than half a unit, added to n units.
  lemma StepRises(n: int, step: real)
    requires 2.0 * step * Teleop.UNITS_12 > 1.0
    ensures Teleop.RoundUnits(n as real / Teleop.UNITS_12 + step, Teleop.UNITS_12) >= n + 1
  {
    var y := (n as real / Teleop.UNITS_12 + step) * Teleop.UNITS_12;
    assert y == n as real + step * Teleop.UNITS_12;
  }

  lemma {:induction false} ClimbToTop(config: Teleop.TeleopConfig, h: Teleop.History, l: Teleop.Limits, speed: real)
    returns (n: Teleop.History)
    requires Teleop.Reachable(config, h) && Poised(h.controller, l, speed)
    requires LimitsSound(l) && StepCounts(l) && OnGrid(speed) && speed <= Teleop.Round12(l.maxSelected)
    ensures Teleop.Reachable(config, n) && Poised(n.controller, l, Teleop.Round12(l.maxSelected))
    decreases Teleop.RoundUnits(l.maxSelected, Teleop.UNITS_12) - Teleop.RoundUnits(speed, Teleop.UNITS_12)
  {
    var units := Teleop.RoundUnits(speed, Teleop.UNITS_12);
    n := Faster(config, h, l, speed);
    ChangedBounds(l, speed, l.speedStep);
    if speed + l.speedStep < l.maxSelected {
      ChangedOnGrid(l, speed, l.speedStep);
      StepRises(units, l.speedStep);
      n := ClimbToTop(config, n, l, Up(l, speed));
    }
  }

  lemma TopSelected(config: Teleop.TeleopConfig) returns (h: Teleop.History)
    requires Teleop.TeleopConfigIsValid(config)
    ensures Teleop.Reachable(config, h) && Poised(h.controller, Teleop.LimitsOf(config), TopOf(config))
  {
    var l, initial := Teleop.LimitsOf(config), config.initialSelected.value;
    h := AuthorizedFirst(config);
    if TopOf(config) != initial {
      h := Faster(config, h, l, initial);
      if StepCounts(l) {
        ChangedBounds(l, initial, l.speedStep);
        ChangedOnGrid(l, initial, l.speedStep);
        h := ClimbToTop(config, h, l, Up(l, initial));
      } else {
        h := Faster(config, h, l, Up(l, initial));
      }
    }
  }

  // ----- Needed: what it prints is turned down -----

  // A first command, just after the authorization, that a session takes at once.
  ghost predicate PrintedFirst(config: Teleop.TeleopConfig, h: Teleop.History, line: Teleop.Line) {
    && Teleop.Reachable(config, h) && h.log != [] && h.log[|h.log| - 1] == Teleop.Printed(line)
    && line.Cmd? && line.sequence == line.created == 2 < line.deadline <= INT64_MAX
  }

  function PressAt(key: Teleop.Direction): Teleop.Input {
    Teleop.KeyEvent(key, true, 2)
  }

  lemma ReleaseBounded(config: Teleop.TeleopConfig)
    requires Teleop.TeleopConfigIsValid(config)
    ensures 0 < Teleop.ReleaseTimeout(config) <= 1_000_000_000
  {
    assert config.releaseTimeoutMs.value * 1_000_000.0 <= 1_000_000_000.0;
  }

  function Held(t: Teleop.Teleop, key: Teleop.Direction): Teleop.Teleop {
    t.(lastClock := Some(2), active := Some(key), activity := Some(2), next := Some(2))
  }

  function FirstLine(t: Teleop.Teleop, key: Teleop.Direction): Teleop.Line {
    var (linear, yaw) := Teleop.Motion(Held(t, key)).value;
    Teleop.Cmd(2, 2, 2 + t.limits.release, Teleop.Round9(linear), Teleop.Round9(yaw))
  }

  lemma PressPrints(t: Teleop.Teleop, l: Teleop.Limits, speed: real, key: Teleop.Direction)
    requires Poised(t, l, speed) && 0 < l.release <= 1_000_000_000
    ensures Teleop.Step(t, PressAt(key)).lines == t.lines + [FirstLine(t, key)]
  {
    assert Teleop.Step(t, PressAt(key)) == Teleop.PressDirection(t.(lastClock := Some(2)), key, 2);
    assert Teleop.Step(t, PressAt(key)) == Teleop.EmitCommand(Held(t, key), 2);
  }

  lemma FirstLineLogged(h: Teleop.History, i: Teleop.Input, line: Teleop.Line)
    requires Teleop.Step(h.controller, i).lines == h.controller.lines + [line]
    ensures var n := Teleop.Next(h, i);
            n.log != [] && n.log[|n.log| - 1] == Teleop.Printed(line)
  {
    var before, after := h.controller.lines, Teleop.Step(h.controller, i).lines;
    assert before <= after && after[|before|] == line;
  }

  lemma PrintsAtOnce(config: Teleop.TeleopConfig, h: Teleop.History, l: Teleop.Limits, speed: real,
                     key: Teleop.Direction)
    requires Teleop.Reachable(config, h) && l == Teleop.LimitsOf(config) && Poised(h.controller, l, speed)
    ensures PrintedFirst(config, Teleop.Next(h, PressAt(key)), FirstLine(h.controller, key))
  {
    ReleaseBounded(config);
    Teleop.ReachableGoesOn(config, h, PressAt(key));
    PressPrints(h.controller, l, speed, key);
    FirstLineLogged(h, PressAt(key), FirstLine(h.controller, key));
  }

  // No submission in these logs yet.
  predicate Unsubmitted(log: seq<Entry>) {
    forall k :: 0 <= k < |log| && log[k].Called? ==> !log[k].call.CallSubmit?
  }

  lemma TurnUnsubmitted(w: World, t: Turn)
    requires Unsubmitted(w.log) && !t.call.CallSubmit?
    ensures Unsubmitted(Next(w, t).log)
  {
  }

  lemma {:induction false} TurnsUnsubmitted(w: World, turns: seq<Turn>)
    requires Unsubmitted(w.log) && forall t :: t in turns ==> !t.call.CallSubmit?
    ensures Unsubmitted(Fold(Next, w, turns).log)
    decreases |turns|
  {
    if turns != [] {
      var n := |turns| - 1;
      TurnsUnsubmitted(w, turns[..n]);
      assert turns[n] in turns;
      TurnUnsubmitted(Fold(Next, w, turns[..n]), turns[n]);
    }
  }

  lemma ArmedRejects(s: Session, p: Plan, config: SafetyConfig, command: TimedMotionCommand)
    requires ConfigIsValid(config) && PlanFits(p, config) && Armed(s, p, config, 0)
    requires command.created == p.start + 1 < command.deadline && s.topSequence < command.sequence
    requires !MotionAllowed(config, command.motion)
    ensures Step(s, TurnOf(p, CallSubmit(command, p.start + 1))).reply == Submission(EncodingRejected)
  {
    assert Synchronize(Observe(s, p.start + 1), p.link).1 == Unchanged;
  }

  // A session on its first connection turns down a command that does not fit.
  lemma CommandRejected(c: RuntimeConfig, h: Teleop.History, line: Teleop.Line)
    requires BothValid(c) && PrintedFirst(TeleopConfigOf(c), h, line)
    requires !MotionAllowed(MakeSafetyConfig(c), MotionCommand(Finite(line.linear), Finite(0.0), Finite(line.yaw)))
    ensures !NeverRejected(c)
  {
    SafetyConfigAccepted(c);
    var config := MakeSafetyConfig(c);
    var p, first := FirstPlan(config), FirstWorld(config);
    FirstPlanWorks(config);
    OpenedArmed(config, first, p);
    TurnsUnsubmitted(first, Opening(p));
    var armed := Opened(first, p);
    var call := CallOf(Parsed(line), 2);
    ArmedRejects(armed.session, p, config, call.command);
    ReachableGoesOn(config, armed, TurnOf(p, call));
    RejectedWorld(c, h, line, armed, p, call);
  }

  lemma RejectedWorld(c: RuntimeConfig, h: Teleop.History, line: Teleop.Line, armed: World, p: Plan, call: Call)
    requires BothValid(c) && PrintedFirst(TeleopConfigOf(c), h, line)
    requires Unsubmitted(armed.log) && call.CallSubmit? && call == CallOf(Parsed(line), 2)
    requires Reachable(MakeSafetyConfig(c), Next(armed, TurnOf(p, call)))
    requires Step(armed.session, TurnOf(p, call)).reply == Submission(EncodingRejected)
    ensures !NeverRejected(c)
  {
    var w, n := Next(armed, TurnOf(p, call)), |armed.log|;
    assert w.log[n] == Called(call, p.link, Submission(EncodingRejected));
    CallQuiet(armed.session, TurnOf(p, call));
    assert |w.log| == n + 1;
    assert PrintedAs(h.log[|h.log| - 1], call);
    assert FedBy(h.log, w.log);
  }

  lemma OverLimitsNotAllowed(config: SafetyConfig, linear: real, yaw: real)
    requires ConfigIsValid(config) && (linear > config.maxLinear.value || yaw > config.maxYaw.value)
    ensures !MotionAllowed(config, MotionCommand(Finite(linear), Finite(0.0), Finite(yaw)))
  {
  }

  lemma OverLimitRejected(c: RuntimeConfig, h: Teleop.History, line: Teleop.Line)
    requires BothValid(c) && PrintedFirst(TeleopConfigOf(c), h, line)
    requires line.linear > c.maxLinear.value || line.yaw > c.maxYaw.value
    ensures !NeverRejected(c)
  {
    SafetyConfigAccepted(c);
    OverLimitsNotAllowed(MakeSafetyConfig(c), line.linear, line.yaw);
    CommandRejected(c, h, line);
  }

  // Both ends of the range can be printed, and nothing out of it.
  ghost predicate Widest(config: Teleop.TeleopConfig, r: Range) {
    && NothingFaster(config, r)
    && (exists h, line :: PrintedFirst(config, h, line) && line.linear == r.straight)
    && (exists h, line :: PrintedFirst(config, h, line) && line.yaw == r.turning)
  }

  lemma FitsExactlyAt(c: RuntimeConfig, r: Range)
    requires BothValid(c) && Widest(TeleopConfigOf(c), r)
    ensures NeverRejected(c) <==> RangeFits(c, r)
  {
    var config := TeleopConfigOf(c);
    if RangeFits(c, r) {
      FittingNeverRejected(c, r);
    } else if r.straight > c.maxLinear.value {
      var h, line :| PrintedFirst(config, h, line) && line.linear == r.straight;
      OverLimitRejected(c, h, line);
    } else {
      var h, line :| PrintedFirst(config, h, line) && line.yaw == r.turning;
      OverLimitRejected(c, h, line);
    }
  }

  lemma TopIsWidest(config: Teleop.TeleopConfig)
    requires Teleop.TeleopConfigIsValid(config)
    ensures Widest(config, TopRange(config))
  {
    var h := TopSelected(config);
    PrintsAtOnce(config, h, Teleop.LimitsOf(config), TopOf(config), Teleop.W);
    PrintsAtOnce(config, h, Teleop.LimitsOf(config), TopOf(config), Teleop.A);
    assert FirstLine(h.controller, Teleop.W).linear == TopRange(config).straight;
    assert FirstLine(h.controller, Teleop.A).yaw == TopRange(config).turning;
    forall g | Teleop.Reachable(config, g)
      ensures AllPrintable(g.controller.lines, TopRange(config))
    {
      ReachableInRange(config, g);
    }
  }

  // No command that the front end prints is ever turned down by the encoder,
  // exactly when the highest selectable speed, as printed, fits.
  lemma CommandsFitExactly(c: RuntimeConfig)
    requires BothValid(c)
    ensures NeverRejected(c) <==> TopFits(c)
  {
    TopIsWidest(TeleopConfigOf(c));
    FitsExactlyAt(c, TopRange(TeleopConfigOf(c)));
  }

  // ----- Nine decimals -----

  lemma NineDecimalsStay(x: real)
    requires NineDecimals(x)
    ensures Teleop.Round12(x) == x
  {
    var n := Teleop.RoundUnits(x, Teleop.UNITS_9);
    assert x * Teleop.UNITS_12 == (n * 1000) as real;
    assert (x * Teleop.UNITS_12).Floor == n * 1000;
  }

  lemma TopAtMost(l: Teleop.Limits, initial: real)
    requires LimitsSound(l) && l.minSelected <= initial <= l.maxSelected && NineDecimals(l.maxSelected)
    ensures TopSpeed(l, initial) <= l.maxSelected
  {
    NineDecimalsStay(l.maxSelected);
    ChangedBounds(l, Up(l, initial), l.speedStep);
  }

  lemma NineDecimalsFitAt(maxLinear: real, maxYaw: real, max: real, curvature: real, top: real)
    requires NineDecimals(max) && NineDecimals(maxYaw) && 0.0 < curvature
    requires top <= max <= maxLinear && Teleop.ArcRate(max, curvature) <= maxYaw
    ensures RangeOf(top, curvature).straight <= maxLinear && RangeOf(top, curvature).turning <= maxYaw
  {
    Round9KeepsOrder(top, max);
    ScaleKeepsOrder(top, max, curvature);
    Round9KeepsOrder(Teleop.ArcRate(top, curvature), maxYaw);
  }

  lemma LimitsOrdered(c: RuntimeConfig)
    requires BothValid(c)
    ensures 0.0 < c.curvature.value && c.maxSelected.value <= c.maxLinear.value
    ensures Teleop.ArcRate(c.maxSelected.value, c.curvature.value) <= c.maxYaw.value
    ensures LimitsSound(Teleop.LimitsOf(TeleopConfigOf(c)))
    ensures c.minSelected.value <= c.initialSelected.value <= c.maxSelected.value
  {
  }

  lemma NineDecimalsRange(c: RuntimeConfig)
    requires BothValid(c) && NineDecimals(c.maxSelected.value) && NineDecimals(c.maxYaw.value)
    ensures TopFits(c)
  {
    LimitsOrdered(c);
    TopAtMost(Teleop.LimitsOf(TeleopConfigOf(c)), c.initialSelected.value);
    NineDecimalsFitAt(c.maxLinear.value, c.maxYaw.value, c.maxSelected.value, c.curvature.value,
                      TopOf(TeleopConfigOf(c)));
  }

  // With limits of at most nine decimals everything fits.
  lemma NineDecimalsFit(c: RuntimeConfig)
    requires BothValid(c) && NineDecimals(c.maxSelected.value) && NineDecimals(c.maxYaw.value)
    ensures NeverRejected(c)
  {
    NineDecimalsRange(c);
    CommandsFitExactly(c);
  }

  function Tenth(maxLinear: real): RuntimeConfig {
    RuntimeConfig(Finite(maxLinear), Finite(2.0), 100, 1000, 1000, 50, 3, 20, 100, 5,
                  Finite(0.5), Finite(1.0000000006), Finite(1.0000000006), Finite(0.1), Finite(1.0), 500, Finite(10.0))
  }

  // A top speed of 1.0000000006 m/s is printed as 1.000000001: a session limited
  // to 1.0000000006 m/s turns such a command down, one limited to 2 m/s never.
  lemma TenthDecimal()
    ensures BothValid(Tenth(1.0000000006)) && !NeverRejected(Tenth(1.0000000006))
    ensures BothValid(Tenth(2.0)) && NeverRejected(Tenth(2.0))
  {
    TenthTop(1.0000000006);
    TenthTop(2.0);
    CommandsFitExactly(Tenth(1.0000000006));
    CommandsFitExactly(Tenth(2.0));
  }

  lemma TenthTop(maxLinear: real)
    requires maxLinear == 1.0000000006 || maxLinear == 2.0
    ensures BothValid(Tenth(maxLinear)) && TopOf(TeleopConfigOf(Tenth(maxLinear))) == 1.0000000006
    ensures TopFits(Tenth(maxLinear)) <==> maxLinear == 2.0
  {
    assert Teleop.Round12(1.0000000006) == 1.0000000006;
    assert Teleop.Round9(1.0000000006) == 1.000000001;
  }
}
