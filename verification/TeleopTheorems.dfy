// What the controller's output lines keep over every sequence of inputs.

module TeleopTheorems {
  import opened Wrappers
  import opened TeleopModel

  // ----- Reading the lines -----

  // What the lines so far say: whether each fits after those before it, whether
  // a CMD has no STOP after it, when the latest CMD was created (or 0), and the
  // highest sequence number and token.
  datatype Reading = Reading(fit: bool, owed: bool, latest: int, sequence: int, token: int, estop: bool)

  const NOTHING_READ := Reading(true, false, 0, 0, 0, false)

  predicate LineFits(limits: Limits, r: Reading, line: Line) {
    match line
    case Cmd(sequence, created, deadline, _, _) =>
      && 0 < created && deadline == created + limits.release <= INT64_MAX
      && r.sequence < sequence <= UINT64_MAX
      && (r.owed ==> created - r.latest >= limits.period)
      && !r.estop
    case Auth(token) => r.token < token <= INT64_MAX && !r.estop
    case _ => true
  }

  function ReadLine(limits: Limits, r: Reading, line: Line): Reading {
    var c := r.(fit := r.fit && LineFits(limits, r, line));
    match line
    case Cmd(sequence, created, _, _, _) =>
      c.(owed := true, latest := created, sequence := Max(r.sequence, sequence))
    case Auth(token) => c.(token := Max(r.token, token))
    case Stop => c.(owed := false)
    case Estop => c.(estop := true)
    case Quit => c
  }

  function Read(limits: Limits, lines: seq<Line>): Reading {
    if lines == [] then NOTHING_READ
    else ReadLine(limits, Read(limits, lines[..|lines| - 1]), lines[|lines| - 1])
  }

  lemma LineAppended(limits: Limits, lines: seq<Line>, line: Line)
    ensures Read(limits, lines + [line]) == ReadLine(limits, Read(limits, lines), line)
  {
    assert (lines + [line])[..|lines|] == lines;
  }

  lemma {:induction false} FitsAt(limits: Limits, lines: seq<Line>, j: nat)
    requires Read(limits, lines).fit && j < |lines|
    ensures Read(limits, lines[..j]).fit && LineFits(limits, Read(limits, lines[..j]), lines[j])
    decreases |lines|
  {
    if j < |lines| - 1 {
      var before := lines[..|lines| - 1];
      FitsAt(limits, before, j);
      assert before[..j] == lines[..j];
    }
  }

  lemma {:induction false} TopsBound(limits: Limits, lines: seq<Line>, k: nat)
    requires k < |lines|
    ensures lines[k].Cmd? ==> lines[k].sequence <= Read(limits, lines).sequence
    ensures lines[k].Auth? ==> lines[k].token <= Read(limits, lines).token
    ensures lines[k].Estop? ==> Read(limits, lines).estop
    decreases |lines|
  {
    if k < |lines| - 1 {
      TopsBound(limits, lines[..|lines| - 1], k);
    }
  }

  lemma {:induction false} TopsNonnegative(limits: Limits, lines: seq<Line>)
    ensures Read(limits, lines).sequence >= 0 && Read(limits, lines).token >= 0
  {
    if lines != [] {
      TopsNonnegative(limits, lines[..|lines| - 1]);
    }
  }

  // ----- The controller against its lines -----

  predicate LinesHeld(t: Teleop) {
    var r := Read(t.limits, t.lines);
    && r.fit && r.sequence <= t.sequence && r.token <= t.lastToken
    && (r.estop ==> t.latched)
  }

  predicate HandHeld(t: Teleop) {
    var r := Read(t.limits, t.lines);
    && 0 < t.limits.period < t.limits.release
    && 0 <= t.sequence && 0 <= t.lastToken
    && (t.latched ==> !t.authorized)
    && (t.active.Some? ==> t.authorized && t.activity.Some? && t.next.Some?)
    && (t.active.Some? ==> t.lastClock.Some? && t.activity.value <= t.lastClock.value)
    && (t.active.None? ==> t.activity.None? && t.next.None?)
    && (r.owed ==> t.active.Some? && !t.stopped && t.next == Some(r.latest + t.limits.period))
  }

  predicate TeleopHeld(t: Teleop) {
    LinesHeld(t) && HandHeld(t)
  }

  // Everything but the obligation to stop, with no direction held.
  predicate Released(t: Teleop) {
    && LinesHeld(t)
    && 0 < t.limits.period < t.limits.release && 0 <= t.sequence && 0 <= t.lastToken
    && (t.latched ==> !t.authorized)
    && (t.stopped ==> !Read(t.limits, t.lines).owed)
  }

  // Stopping, with whatever else a branch changes first, re-establishes everything.
  lemma StopHolds(t: Teleop, force: bool)
    requires Released(t)
    ensures TeleopHeld(EmitStop(ClearDirection(t), force))
  {
    if force || !t.stopped {
      LineAppended(t.limits, t.lines, Stop);
    }
  }

  lemma ForcedStopHolds(t: Teleop)
    requires Released(t) && ClearDirection(t) == t
    ensures TeleopHeld(EmitStop(t, true))
  {
    StopHolds(t, true);
  }

  // The fields that decide nothing about lines may change on the way.
  predicate Alike(t: Teleop, n: Teleop) {
    n.lines == t.lines && n.limits == t.limits && n.stopped == t.stopped
    && n.sequence == t.sequence && n.lastToken == t.lastToken
    && (t.latched ==> n.latched) && (n.latched ==> !n.authorized)
  }

  lemma ReleasedIfHeld(t: Teleop, n: Teleop)
    requires TeleopHeld(t) && Alike(t, n)
    ensures Released(n)
  {
  }

  lemma StopFromHeld(t: Teleop, n: Teleop, force: bool)
    requires TeleopHeld(t) && Alike(t, n)
    ensures TeleopHeld(EmitStop(ClearDirection(n), force))
  {
    ReleasedIfHeld(t, n);
    StopHolds(n, force);
  }

  // The state after a command, whatever its velocities.
  lemma CommandPrintedHolds(t: Teleop, now: int, line: Line)
    requires TeleopHeld(t) && t.active.Some? && now > 0 && t.next.value <= now
    requires t.sequence < UINT64_MAX && now <= INT64_MAX - t.limits.release
    requires line.Cmd? && line.created == now && line.deadline == now + t.limits.release
    requires line.sequence == Max(t.sequence + 1, now)
    ensures TeleopHeld(Emit(t, line).(sequence := line.sequence, stopped := false, next := Some(now + t.limits.period)))
  {
    LineAppended(t.limits, t.lines, line);
  }

  lemma CommandHolds(t: Teleop, now: int)
    requires TeleopHeld(t) && t.active.Some? && now > 0 && t.next.value <= now
    ensures TeleopHeld(EmitCommand(t, now))
  {
    if t.sequence >= UINT64_MAX || now > INT64_MAX - t.limits.release {
      StopFromHeld(t, t.(authorized := false), false);
    } else {
      CommandPrintedHolds(t, now, EmitCommand(t, now).lines[|t.lines|]);
    }
  }

  lemma PrintedReleased(t: Teleop, n: Teleop, line: Line)
    requires line.Auth? || line.Estop?
    requires TeleopHeld(t) && n.lines == t.lines + [line] && n.limits == t.limits && n.stopped == t.stopped
    requires n.sequence == t.sequence && (n.latched ==> !n.authorized)
    requires if line.Auth? then
               !t.latched && t.lastToken < line.token <= INT64_MAX && n.lastToken == line.token && !n.latched
             else n.lastToken == t.lastToken && n.latched
    ensures Released(n)
  {
    LineAppended(t.limits, t.lines, line);
  }

  lemma GrantHolds(t: Teleop, token: int, now: int)
    requires TeleopHeld(t) && !t.latched && t.lastToken < token <= INT64_MAX
    ensures TeleopHeld(EmitStop(Emit(Granted(t, token, now), Auth(token)), true))
  {
    var printed := Emit(Granted(t, token, now), Auth(token));
    PrintedReleased(t, printed, Auth(token));
    ForcedStopHolds(printed);
  }

  lemma AuthorizeHolds(t: Teleop, now: int)
    requires TeleopHeld(t)
    ensures TeleopHeld(Authorize(t, now))
  {
    var token := Max(now, t.lastToken + 1);
    if t.latched || token > INT64_MAX {
      assert Authorize(t, now) == StopAndClear(t.(authorized := false));
      StopFromHeld(t, t.(authorized := false), false);
    } else {
      assert Authorize(t, now) == EmitStop(Emit(Granted(t, token, now), Auth(token)), true);
      GrantHolds(t, token, now);
    }
  }

  lemma EstopHolds(t: Teleop)
    requires TeleopHeld(t)
    ensures TeleopHeld(RaiseEstop(t))
  {
    var printed := Emit(ClearDirection(t.(authorized := false, latched := true)), Estop);
    PrintedReleased(t, printed, Estop);
    ForcedStopHolds(printed);
  }

  lemma ConflictHolds(t: Teleop, now: int)
    requires TeleopHeld(t)
    ensures TeleopHeld(Conflict(t, now))
  {
    StopFromHeld(t, t.(conflictUntil := Min(INT64_MAX, now + t.limits.release)), false);
  }

  lemma HoldHolds(t: Teleop, key: Direction, now: int)
    requires TeleopHeld(t) && t.authorized && now > 0 && t.lastClock == Some(now)
    ensures TeleopHeld(Hold(t, key, now))
  {
    var next := if t.next.None? then now else t.next.value;
    var held := t.(active := Some(key), activity := Some(now), next := Some(next));
    assert TeleopHeld(held);
    if now >= next {
      CommandHolds(held, now);
    }
  }

  lemma DirectionHolds(t: Teleop, key: Direction, now: int)
    requires TeleopHeld(t) && now > 0 && t.lastClock == Some(now)
    ensures TeleopHeld(PressDirection(t, key, now))
  {
    ConflictHolds(t, now);
    StopFromHeld(t, t, false);
    if t.authorized {
      HoldHolds(t, key, now);
    }
  }

  lemma SpeedHolds(t: Teleop, delta: real)
    requires TeleopHeld(t)
    ensures TeleopHeld(ChangeSpeed(t, delta))
  {
    StopFromHeld(t, t, false);
    var halted := if t.active.Some? then StopAndClear(t) else t;
    SpeedIgnored(halted, ChangeSpeed(t, delta).speed);
  }

  lemma SpeedIgnored(t: Teleop, speed: real)
    requires TeleopHeld(t)
    ensures TeleopHeld(t.(speed := speed))
  {
  }

  lemma PressHolds(t: Teleop, key: Key, now: int)
    requires TeleopHeld(t) && now > 0 && t.lastClock == Some(now)
    ensures TeleopHeld(Press(t, key, now))
  {
    match key
    case R => AuthorizeHolds(t, now);
    case Q => SpeedHolds(t, t.limits.speedStep);
    case E => SpeedHolds(t, -t.limits.speedStep);
    case Space => StopFromHeld(t, t.(conflictUntil := 0), false);
    case X => EstopHolds(t);
    case Esc => StopFromHeld(t, t.(quitRequested := true), false);
    case Other(_) => ConflictHolds(t, now);
    case _ => DirectionHolds(t, key, now);
  }

  lemma SeenHolds(t: Teleop, now: int)
    requires TeleopHeld(t) && NowIsValid(t, now)
    ensures TeleopHeld(t.(lastClock := Some(now)))
  {
  }

  lemma EventHolds(t: Teleop, key: Key, pressed: bool, now: int)
    requires TeleopHeld(t)
    ensures TeleopHeld(HandleEvent(t, key, pressed, now))
  {
    if NowIsValid(t, now) {
      var seen := t.(lastClock := Some(now));
      SeenHolds(t, now);
      StopFromHeld(seen, seen, false);
      var c := ExpireDirection(seen, now);
      StopFromHeld(c, c, false);
      if pressed {
        PressHolds(c, key, now);
      }
    } else {
      StopFromHeld(t, t.(authorized := false), true);
    }
  }

  lemma TickHolds(t: Teleop, now: int)
    requires TeleopHeld(t)
    ensures TeleopHeld(Tick(t, now))
  {
    if NowIsValid(t, now) {
      var seen := t.(lastClock := Some(now));
      SeenHolds(t, now);
      StopFromHeld(seen, seen, false);
      if seen.active.Some? && seen.next.value <= now {
        CommandHolds(seen, now);
      }
    } else {
      StopFromHeld(t, t.(authorized := false), true);
    }
  }

  lemma FinishHolds(t: Teleop)
    requires TeleopHeld(t)
    ensures TeleopHeld(FinishUp(t))
  {
    if !t.finished {
      var closed := t.(finished := true, authorized := false);
      StopFromHeld(t, closed, true);
      LineAppended(t.limits, EmitStop(ClearDirection(closed), true).lines, Quit);
    }
  }

  lemma StepHolds(t: Teleop, i: Input)
    requires TeleopHeld(t)
    ensures TeleopHeld(Step(t, i))
  {
    match i
    case KeyEvent(key, pressed, at) => EventHolds(t, key, pressed, at);
    case TickAt(at) => TickHolds(t, at);
    case ForceStop => StopFromHeld(t, t, true);
    case Finish => FinishHolds(t);
  }

  ghost predicate HistoryHeld(config: TeleopConfig, h: History)
    requires TeleopConfigIsValid(config)
  {
    TeleopHeld(h.controller) && h.controller.limits == LimitsOf(config)
  }

  lemma ReachableTeleopHeld(config: TeleopConfig, h: History)
    requires Reachable(config, h)
    ensures HistoryHeld(config, h)
  {
    var held := iset g: History | HistoryHeld(config, g);
    forall g, i | g in held
      ensures Next(g, i) in held
    {
      StepHolds(g.controller, i);
    }
    assert Closed(config, held);
  }

  // ----- The trace discipline -----

  // Without a held direction, a STOP follows the last CMD.
  lemma NoDirectionMeansStopped(config: TeleopConfig, h: History)
    requires Reachable(config, h) && h.controller.active.None?
    ensures !Read(LimitsOf(config), h.controller.lines).owed
  {
    ReachableTeleopHeld(config, h);
  }

  lemma {:induction false} StopOwedWithout(limits: Limits, lines: seq<Line>, i: nat)
    requires i < |lines| && lines[i].Cmd?
    requires forall k :: i < k < |lines| ==> !lines[k].Stop?
    ensures Read(limits, lines).owed
    decreases |lines|
  {
    if i < |lines| - 1 {
      StopOwedWithout(limits, lines[..|lines| - 1], i);
    }
  }

  lemma {:induction false} LatestIsLater(limits: Limits, lines: seq<Line>, i: nat)
    requires Read(limits, lines).fit && 0 < limits.period
    requires i < |lines| && lines[i].Cmd?
    requires forall k :: i < k < |lines| ==> !lines[k].Stop?
    ensures Read(limits, lines).latest >= lines[i].created
    decreases |lines|
  {
    var n := |lines| - 1;
    if i < n {
      LatestIsLater(limits, lines[..n], i);
      StopOwedWithout(limits, lines[..n], i);
    }
  }

  // Two CMDs with no STOP between them are at least one command period apart.
  lemma CommandsSpaced(config: TeleopConfig, h: History, i: nat, j: nat)
    requires Reachable(config, h) && i < j < |h.controller.lines|
    requires h.controller.lines[i].Cmd? && h.controller.lines[j].Cmd?
    requires forall k :: i < k < j ==> !h.controller.lines[k].Stop?
    ensures h.controller.lines[j].created - h.controller.lines[i].created >= CommandPeriod(config)
  {
    ReachableTeleopHeld(config, h);
    var lines, limits := h.controller.lines, LimitsOf(config);
    FitsAt(limits, lines, j);
    StopOwedWithout(limits, lines[..j], i);
    LatestIsLater(limits, lines[..j], i);
  }

  // Sequence numbers and tokens strictly increase and fit their types, and no
  // AUTH or CMD ever follows an ESTOP.
  lemma LineOrder(config: TeleopConfig, h: History, i: nat, j: nat)
    requires Reachable(config, h) && i < j < |h.controller.lines|
    ensures var before, after := h.controller.lines[i], h.controller.lines[j];
            && (before.Cmd? && after.Cmd? ==> 0 < before.sequence < after.sequence <= UINT64_MAX)
            && (before.Auth? && after.Auth? ==> 0 < before.token < after.token <= INT64_MAX)
            && (before.Estop? ==> !after.Auth? && !after.Cmd?)
  {
    ReachableTeleopHeld(config, h);
    var lines := h.controller.lines;
    FitsAt(LimitsOf(config), lines, i);
    FitsAt(LimitsOf(config), lines, j);
    TopsNonnegative(LimitsOf(config), lines[..i]);
    TopsBound(LimitsOf(config), lines[..j], i);
  }

  // ----- The deadman -----

  // When a direction key was last pressed.
  function LastPress(log: seq<Event>): Option<int> {
    if log == [] then None
    else
      var e := log[|log| - 1];
      if e.Heard? && e.input.KeyEvent? && e.input.pressed && IsDirection(e.input.key) then Some(e.input.at)
      else LastPress(log[..|log| - 1])
  }

  // The command was created while the last press was recent.
  predicate Recent(log: seq<Event>, release: int, line: Line) {
    line.Cmd? && LastPress(log).Some?
    && LastPress(log).value <= line.created < LastPress(log).value + release
  }

  predicate ActivityHeld(t: Teleop, log: seq<Event>) {
    t.active.Some? ==> t.activity == LastPress(log)
  }

  // A step adds lines, and a CMD only while the last press is recent.
  predicate Prints(t: Teleop, n: Teleop, log: seq<Event>) {
    && t.lines <= n.lines
    && (forall k :: |t.lines| <= k < |n.lines| && n.lines[k].Cmd? ==> Recent(log, t.limits.release, n.lines[k]))
  }

  // What a step does to the held direction and its time, and which lines it adds.
  predicate Follows(t: Teleop, n: Teleop, log: seq<Event>) {
    Prints(t, n, log) && ActivityHeld(n, log)
  }

  lemma CommandFollows(t: Teleop, now: int, log: seq<Event>)
    requires t.active.Some? && t.activity == LastPress(log) && t.activity.Some?
    requires t.activity.value <= now < t.activity.value + t.limits.release
    ensures Follows(t, EmitCommand(t, now), log)
  {
  }

  lemma StopFollows(t: Teleop, n: Teleop, force: bool, log: seq<Event>)
    requires n.lines == t.lines && n.limits == t.limits
    ensures Follows(t, EmitStop(ClearDirection(n), force), log)
  {
  }

  lemma DirectionFollows(t: Teleop, key: Direction, now: int, log: seq<Event>)
    requires LastPress(log) == Some(now) && 0 < t.limits.release
    ensures Follows(t, PressDirection(t, key, now), log)
  {
    StopFollows(t, t.(conflictUntil := Min(INT64_MAX, now + t.limits.release)), false, log);
    StopFollows(t, t, false, log);
    var next := if t.next.None? then now else t.next.value;
    CommandFollows(t.(active := Some(key), activity := Some(now), next := Some(next)), now, log);
  }

  // Nothing but other lines are added, and the direction is kept or cleared.
  predicate Quiet(t: Teleop, n: Teleop) {
    && t.lines <= n.lines
    && (forall k :: |t.lines| <= k < |n.lines| ==> !n.lines[k].Cmd?)
    && (n.active.Some? ==> n.active == t.active && n.activity == t.activity)
  }

  lemma QuietFollows(t: Teleop, n: Teleop, log: seq<Event>)
    requires Quiet(t, n) && ActivityHeld(t, log)
    ensures Follows(t, n, log)
  {
  }

  lemma AuthorizeIsQuiet(t: Teleop, now: int)
    ensures Quiet(t, Authorize(t, now))
  {
  }

  lemma ChangeSpeedIsQuiet(t: Teleop, delta: real)
    ensures Quiet(t, ChangeSpeed(t, delta))
  {
  }

  lemma EstopIsQuiet(t: Teleop)
    ensures Quiet(t, RaiseEstop(t))
  {
  }

  lemma StopIsQuiet(t: Teleop, n: Teleop)
    requires n.lines == t.lines
    ensures Quiet(t, StopAndClear(n))
  {
  }

  // Any other key clears the direction or leaves it alone.
  lemma OtherKeyIsQuiet(t: Teleop, key: Key, now: int)
    requires !IsDirection(key)
    ensures Quiet(t, Press(t, key, now))
  {
    match key
    case Q => ChangeSpeedIsQuiet(t, t.limits.speedStep);
    case E => ChangeSpeedIsQuiet(t, -t.limits.speedStep);
    case R => AuthorizeIsQuiet(t, now);
    case X => EstopIsQuiet(t);
    case _ => StoppingKeyIsQuiet(t, key, now);
  }

  lemma StoppingKeyIsQuiet(t: Teleop, key: Key, now: int)
    requires key.Space? || key.Esc? || key.Other?
    ensures Quiet(t, Press(t, key, now))
  {
    match key
    case Space => StopIsQuiet(t, t.(conflictUntil := 0));
    case Esc => StopIsQuiet(t, t.(quitRequested := true));
    case Other(_) => StopIsQuiet(t, t.(conflictUntil := Min(INT64_MAX, now + t.limits.release)));
  }

  lemma PressFollows(t: Teleop, key: Key, now: int, log: seq<Event>)
    requires 0 < t.limits.release
    requires if IsDirection(key) then LastPress(log) == Some(now) else ActivityHeld(t, log)
    ensures Follows(t, Press(t, key, now), log)
  {
    if IsDirection(key) {
      DirectionFollows(t, key, now, log);
    } else {
      OtherKeyIsQuiet(t, key, now);
      QuietFollows(t, Press(t, key, now), log);
    }
  }

  // The lines of a first step that prints no CMD come along.
  lemma FollowsOn(t: Teleop, c: Teleop, n: Teleop, log: seq<Event>)
    requires Follows(c, n, log) && c.limits == t.limits && t.lines <= c.lines
    requires forall k :: |t.lines| <= k < |c.lines| ==> !c.lines[k].Cmd?
    ensures Follows(t, n, log)
  {
  }

  lemma RespondFollows(t: Teleop, key: Key, pressed: bool, now: int, log: seq<Event>)
    requires 0 < t.limits.release
    requires if pressed && IsDirection(key) then LastPress(log) == Some(now) else ActivityHeld(t, log)
    ensures Follows(t, Respond(t, key, pressed, now), log)
  {
    if pressed {
      PressFollows(t, key, now, log);
    } else {
      StopFollows(t, t, false, log);
    }
  }

  lemma EventFollows(t: Teleop, key: Key, pressed: bool, now: int, log: seq<Event>)
    requires TeleopHeld(t)
    requires if pressed && IsDirection(key) then LastPress(log) == Some(now) else ActivityHeld(t, log)
    ensures Follows(t, HandleEvent(t, key, pressed, now), log)
  {
    if NowIsValid(t, now) {
      var seen := t.(lastClock := Some(now));
      var c := ExpireDirection(seen, now);
      RespondFollows(c, key, pressed, now, log);
      FollowsOn(t, c, Respond(c, key, pressed, now), log);
    } else {
      StopFollows(t, t.(authorized := false), true, log);
    }
  }

  lemma TickFollows(t: Teleop, now: int, log: seq<Event>)
    requires TeleopHeld(t) && ActivityHeld(t, log)
    ensures Follows(t, Tick(t, now), log)
  {
    if NowIsValid(t, now) {
      var seen := t.(lastClock := Some(now));
      if !Expired(seen, now) && seen.active.Some? {
        CommandFollows(seen, now, log);
      }
    }
  }

  lemma StepFollows(t: Teleop, i: Input, log: seq<Event>)
    requires TeleopHeld(t) && ActivityHeld(t, log)
    ensures Follows(t, Step(t, i), log + [Heard(i)])
  {
    var all := log + [Heard(i)];
    assert all[..|all| - 1] == log;
    match i
    case KeyEvent(key, pressed, at) => EventFollows(t, key, pressed, at, all);
    case TickAt(at) => TickFollows(t, at, all);
    case ForceStop =>
    case Finish =>
  }

  // ----- The deadman over histories -----

  // A printed command was created while the last press before it was recent.
  predicate Timely(release: int, log: seq<Event>, j: nat)
    requires j < |log|
  {
    log[j].Printed? && log[j].line.Cmd? ==> Recent(log[..j], release, log[j].line)
  }

  predicate AllTimely(release: int, log: seq<Event>) {
    forall j :: 0 <= j < |log| ==> Timely(release, log, j)
  }

  // Printed lines are no presses.
  lemma {:induction false} PrintingKeepsPress(log: seq<Event>, printed: seq<Event>)
    requires forall e :: e in printed ==> e.Printed?
    ensures LastPress(log + printed) == LastPress(log)
    decreases |printed|
  {
    if printed == [] {
      assert log + printed == log;
    } else {
      var n := |printed| - 1;
      assert (log + printed)[..|log| + n] == log + printed[..n];
      assert printed[n] in printed;
      PrintingKeepsPress(log, printed[..n]);
    }
  }

  lemma TimelyGrows(release: int, log: seq<Event>, i: Input, t: Teleop, n: Teleop)
    requires AllTimely(release, log) && Prints(t, n, log + [Heard(i)]) && t.limits.release == release
    ensures AllTimely(release, log + [Heard(i)] + LinesAdded(t.lines, n.lines))
  {
    var heard, added := log + [Heard(i)], LinesAdded(t.lines, n.lines);
    var all := heard + added;
    forall j | 0 <= j < |all|
      ensures Timely(release, all, j)
    {
      if j < |log| {
        assert Timely(release, log, j);
        assert all[..j] == log[..j] && all[j] == log[j];
      } else if j > |log| {
        var k := j - |heard|;
        assert all[j] == added[k] && added[k].line == n.lines[|t.lines| + k];
        assert all[..j] == heard + added[..k];
        PrintingKeepsPress(heard, added[..k]);
      }
    }
  }

  ghost predicate DeadmanHeld(config: TeleopConfig, h: History)
    requires TeleopConfigIsValid(config)
  {
    HistoryHeld(config, h) && ActivityHeld(h.controller, h.log) && AllTimely(ReleaseTimeout(config), h.log)
  }

  lemma DeadmanGoesOn(config: TeleopConfig, h: History, i: Input)
    requires TeleopConfigIsValid(config) && DeadmanHeld(config, h)
    ensures DeadmanHeld(config, Next(h, i))
  {
    var t, n := h.controller, Step(h.controller, i);
    StepHolds(t, i);
    StepFollows(t, i, h.log);
    TimelyGrows(ReleaseTimeout(config), h.log, i, t, n);
    PrintingKeepsPress(h.log + [Heard(i)], LinesAdded(t.lines, n.lines));
  }

  lemma ReachableDeadmanHeld(config: TeleopConfig, h: History)
    requires Reachable(config, h)
    ensures DeadmanHeld(config, h)
  {
    var held := iset g: History | DeadmanHeld(config, g);
    forall g, i | g in held
      ensures Next(g, i) in held
    {
      DeadmanGoesOn(config, g, i);
    }
    assert Closed(config, held);
  }

  function LinesIn(log: seq<Event>): seq<Line> {
    if log == [] then []
    else
      var e := log[|log| - 1];
      LinesIn(log[..|log| - 1]) + (if e.Printed? then [e.line] else [])
  }

  lemma {:induction false} LinesInAdded(log: seq<Event>, printed: seq<Event>)
    requires forall e :: e in printed ==> e.Printed?
    ensures LinesIn(log + printed) == LinesIn(log) + seq(|printed|, k requires 0 <= k < |printed| => printed[k].line)
    decreases |printed|
  {
    if printed == [] {
      assert log + printed == log;
    } else {
      var n := |printed| - 1;
      assert (log + printed)[..|log| + n] == log + printed[..n];
      LinesInAdded(log, printed[..n]);
    }
  }

  lemma LinesInGrow(log: seq<Event>, i: Input, before: seq<Line>, after: seq<Line>)
    requires LinesIn(log) == before && before <= after
    ensures LinesIn(log + [Heard(i)] + LinesAdded(before, after)) == after
  {
    var heard := log + [Heard(i)];
    assert heard[..|log|] == log;
    LinesInAdded(heard, LinesAdded(before, after));
  }

  // Every CMD printed was created less than the release timeout after the
  // operator's last direction-key press, and expires one release timeout after
  // it was created.
  lemma DeadmanCommands(config: TeleopConfig, h: History, j: nat)
    requires Reachable(config, h) && j < |h.log| && h.log[j].Printed? && h.log[j].line.Cmd?
    ensures LastPress(h.log[..j]).Some?
    ensures var line, press := h.log[j].line, LastPress(h.log[..j]).value;
            && press <= line.created < press + ReleaseTimeout(config)
            && line.deadline == line.created + ReleaseTimeout(config)
  {
    ReachableDeadmanHeld(config, h);
    ReachableLogLines(config, h);
    LineOfLog(h.log, j);
    assert Timely(ReleaseTimeout(config), h.log, j);
    var k: nat :| k < |LinesIn(h.log)| && LinesIn(h.log)[k] == h.log[j].line;
    FitsAt(LimitsOf(config), h.controller.lines, k);
  }

  // The lines of the log are the lines the controller has written.
  lemma ReachableLogLines(config: TeleopConfig, h: History)
    requires Reachable(config, h)
    ensures LinesIn(h.log) == h.controller.lines
  {
    var held := iset g: History | DeadmanHeld(config, g) && LinesIn(g.log) == g.controller.lines;
    forall g, i | g in held
      ensures Next(g, i) in held
    {
      DeadmanGoesOn(config, g, i);
      StepFollows(g.controller, i, g.log);
      LinesInGrow(g.log, i, g.controller.lines, Step(g.controller, i).lines);
    }
    assert Closed(config, held);
  }

  lemma {:induction false} LineOfLog(log: seq<Event>, j: nat)
    requires j < |log| && log[j].Printed?
    ensures exists k: nat :: k < |LinesIn(log)| && LinesIn(log)[k] == log[j].line
    decreases |log|
  {
    var n := |log| - 1;
    if j < n {
      LineOfLog(log[..n], j);
      var k: nat :| k < |LinesIn(log[..n])| && LinesIn(log[..n])[k] == log[j].line;
      assert LinesIn(log)[k] == log[j].line;
    } else {
      assert LinesIn(log)[|LinesIn(log[..n])|] == log[j].line;
    }
  }
}
