// What the log of a keyboard front end says about it, and the lines it therefore
// has to print on the next input.

module TeleopReading {
  import opened Wrappers
  import opened TeleopModel
  import opened TeleopTheorems

  // ----- Readings of the lines -----

  // A STOP stands after the last CMD.
  predicate Halted(lines: seq<Line>) {
    if lines == [] then false
    else
      match lines[|lines| - 1]
      case Stop => true
      case Cmd(_, _, _, _, _) => false
      case _ => Halted(lines[..|lines| - 1])
  }

  function TopToken(l: Limits, log: seq<Event>): int {
    Read(l, LinesIn(log)).token
  }

  function TopSequence(l: Limits, log: seq<Event>): int {
    Read(l, LinesIn(log)).sequence
  }

  // When the next CMD of an unbroken row is due.
  function NextDue(l: Limits, log: seq<Event>): int {
    Read(l, LinesIn(log)).latest + l.period
  }

  // No STOP stands after the last CMD.
  predicate Driving(l: Limits, log: seq<Event>) {
    Read(l, LinesIn(log)).owed
  }

  // ----- The time of an input -----

  function TimeOf(i: Input): Option<int> {
    match i
    case KeyEvent(_, _, at) => Some(at)
    case TickAt(at) => Some(at)
    case _ => None
  }

  // The latest time that was in order.
  function ClockSeen(log: seq<Event>): Option<int>
    decreases |log|, 0
  {
    if log == [] then None
    else
      var before, e := log[..|log| - 1], log[|log| - 1];
      if e.Heard? && InOrder(before, e.input) then TimeOf(e.input) else ClockSeen(before)
  }

  predicate InOrder(log: seq<Event>, i: Input)
    decreases |log|, 1
  {
    && TimeOf(i).Some? && TimeOf(i).value > 0
    && (ClockSeen(log).Some? ==> ClockSeen(log).value <= TimeOf(i).value)
  }

  // ----- Readings of the keys -----

  // A press of the key at a time in order.
  predicate Presses(log: seq<Event>, i: Input, key: Key) {
    InOrder(log, i) && i.KeyEvent? && i.pressed && i.key == key
  }

  predicate EverPressed(log: seq<Event>, key: Key) {
    exists k :: 0 <= k < |log| && log[k].Heard? && Presses(log[..k], log[k].input, key)
  }

  predicate Latched(log: seq<Event>) {
    EverPressed(log, X)
  }

  // When r was last pressed, or 0.
  function LastRequest(log: seq<Event>): int {
    if log == [] then 0
    else
      var before, e := log[..|log| - 1], log[|log| - 1];
      if e.Heard? && Presses(before, e.input, R) then e.input.at else LastRequest(before)
  }

  // The direction key that was last pressed.
  function LastDirection(log: seq<Event>): Option<Direction> {
    if log == [] then None
    else
      var before, e := log[..|log| - 1], log[|log| - 1];
      if e.Heard? && e.input.KeyEvent? && e.input.pressed && IsDirection(e.input.key) then Some(e.input.key)
      else LastDirection(before)
  }

  // The selected speed.
  function Selected(l: Limits, initial: real, log: seq<Event>): real {
    if log == [] then initial
    else
      var before, e := log[..|log| - 1], log[|log| - 1];
      var speed := Selected(l, initial, before);
      if e.Heard? && Presses(before, e.input, Q) then Changed(l, speed, l.speedStep)
      else if e.Heard? && Presses(before, e.input, E) then Changed(l, speed, -l.speedStep)
      else speed
  }

  // ----- What an input finds -----

  // The release timeout has run out while driving.
  predicate Expiring(l: Limits, log: seq<Event>, at: int) {
    Driving(l, log) && LastPress(log).Some? && at - LastPress(log).value >= l.release
  }

  predicate StillDriving(l: Limits, log: seq<Event>, at: int) {
    Driving(l, log) && !Expiring(l, log, at)
  }

  // r is answered with a token.
  predicate Grants(l: Limits, log: seq<Event>, at: int) {
    !Latched(log) && Max(at, TopToken(l, log) + 1) <= INT64_MAX
  }

  predicate Overflows(l: Limits, log: seq<Event>, at: int) {
    TopSequence(l, log) >= UINT64_MAX || at > INT64_MAX - l.release
  }

  // An AUTH was answered to r, and nothing has taken it back since.
  predicate Authorized(l: Limits, log: seq<Event>)
    decreases |log|, 0
  {
    log != [] &&
    var before, e := log[..|log| - 1], log[|log| - 1];
    if e.Heard? && Presses(before, e.input, R) then Grants(l, before, e.input.at)
    else Authorized(l, before) && !(e.Heard? && Revokes(l, before, e.input))
  }

  // A time out of order, x, the first finish, or a command past its last number
  // or time.
  predicate Revokes(l: Limits, log: seq<Event>, i: Input)
    decreases |log|, 4
  {
    if i.Finish? then Quit !in LinesIn(log)
    else if i.ForceStop? then false
    else if !InOrder(log, i) then true
    else Presses(log, i, X) || (CommandDue(l, log, i) && Overflows(l, log, TimeOf(i).value))
  }

  // Directions are refused before this time.
  function InhibitedUntil(l: Limits, log: seq<Event>): int
    decreases |log|, 0
  {
    if log == [] then 0
    else
      var before, e := log[..|log| - 1], log[|log| - 1];
      if e.Printed? || !InOrder(before, e.input) then InhibitedUntil(l, before)
      else if Conflicts(l, before, e.input) then Min(INT64_MAX, e.input.at + l.release)
      else if Presses(before, e.input, Space) then 0
      else if Presses(before, e.input, R) && Grants(l, before, e.input.at) then 0
      else InhibitedUntil(l, before)
  }

  // A second direction or an unknown key while driving, or a direction too soon
  // after such a conflict.
  predicate Conflicts(l: Limits, log: seq<Event>, i: Input)
    decreases |log|, 2
  {
    && InOrder(log, i) && i.KeyEvent? && i.pressed
    && if i.key.Other? then StillDriving(l, log, i.at)
       else
         && IsDirection(i.key)
         && (|| i.at < InhibitedUntil(l, log)
             || (&& Authorized(l, log) && i.at > LastRequest(log) && StillDriving(l, log, i.at)
                 && LastDirection(log) != Some(i.key)))
  }

  // A press of a direction that is let through.
  predicate Admitted(l: Limits, log: seq<Event>, i: Input)
    decreases |log|, 2
  {
    && InOrder(log, i) && i.KeyEvent? && i.pressed && IsDirection(i.key)
    && i.at >= InhibitedUntil(l, log) && Authorized(l, log) && i.at > LastRequest(log)
    && (StillDriving(l, log, i.at) ==> LastDirection(log) == Some(i.key))
  }

  // A CMD is due: for the first press of a direction, and then on every press or
  // tick that finds the period over.
  predicate CommandDue(l: Limits, log: seq<Event>, i: Input)
    decreases |log|, 3
  {
    match i
    case KeyEvent(_, _, at) => Admitted(l, log, i) && (StillDriving(l, log, at) ==> at >= NextDue(l, log))
    case TickAt(at) => InOrder(log, i) && StillDriving(l, log, at) && at >= NextDue(l, log)
    case _ => false
  }

  // ----- The lines due -----

  // The velocities of a direction, as printed: w forward, s backward, a an arc to
  // the left and d the same arc to the right.
  function Printing(speed: real, curvature: real, key: Direction): (real, real) {
    match key
    case W => (Round9(speed), 0.0)
    case S => (-Round9(speed), 0.0)
    case A => (Round9(speed), Round9(ArcRate(speed, curvature)))
    case D => (Round9(speed), -Round9(ArcRate(speed, curvature)))
  }

  function CommandLine(l: Limits, initial: real, log: seq<Event>, key: Direction, at: int): Line {
    var (linear, yaw) := Printing(Selected(l, initial, log), l.curvature, key);
    Cmd(Max(TopSequence(l, log) + 1, at), at, at + l.release, linear, yaw)
  }

  function StopIf(stops: bool): seq<Line> {
    if stops then [Stop] else []
  }

  // A STOP unless the last one still holds.
  function StopUnlessHalted(l: Limits, log: seq<Event>, at: int): seq<Line> {
    StopIf(!Halted(LinesIn(log)) && !Expiring(l, log, at))
  }

  // The command that is due, or a STOP where it would not fit.
  function CommandLines(l: Limits, initial: real, log: seq<Event>, key: Direction, at: int): seq<Line> {
    if Overflows(l, log, at) then StopUnlessHalted(l, log, at) else [CommandLine(l, initial, log, key, at)]
  }

  // What a press at a time in order is answered with, after the STOP of an expiry.
  function PressLines(l: Limits, initial: real, log: seq<Event>, i: Input): seq<Line>
    requires i.KeyEvent?
  {
    match i.key
    case R =>
      if Grants(l, log, i.at) then [Auth(Max(i.at, TopToken(l, log) + 1)), Stop] else StopUnlessHalted(l, log, i.at)
    case X => [Estop, Stop]
    case Space => StopUnlessHalted(l, log, i.at)
    case Esc => StopUnlessHalted(l, log, i.at)
    case Q => StopIf(StillDriving(l, log, i.at))
    case E => StopIf(StillDriving(l, log, i.at))
    case Other(_) => StopIf(StillDriving(l, log, i.at))
    case _ =>
      if !Admitted(l, log, i) then StopUnlessHalted(l, log, i.at)
      else if CommandDue(l, log, i) then CommandLines(l, initial, log, i.key, i.at)
      else []
  }

  // What any input is answered with.
  function LinesDue(l: Limits, initial: real, log: seq<Event>, i: Input): seq<Line> {
    if i.ForceStop? then [Stop]
    else if i.Finish? then (if Quit in LinesIn(log) then [] else [Stop, Quit])
    else if !InOrder(log, i) then [Stop]
    else
      var at := TimeOf(i).value;
      StopIf(Expiring(l, log, at)) +
      if i.TickAt? then
        (if CommandDue(l, log, i) && LastDirection(log).Some? then
           CommandLines(l, initial, log, LastDirection(log).value, at)
         else [])
      else if i.pressed then PressLines(l, initial, log, i)
      else StopIf(StillDriving(l, log, at) && LastDirection(log) == Some(i.key))
  }

  // The lines printed between the k-th event and the next input.
  function Following(log: seq<Event>, k: nat): seq<Line>
    requires k < |log|
    decreases |log| - k
  {
    if k + 1 < |log| && log[k + 1].Printed? then [log[k + 1].line] + Following(log, k + 1) else []
  }
}
