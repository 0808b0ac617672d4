// Every input is answered with exactly the lines the log asks for, in every
// history of a keyboard front end.

module TeleopExact {
  import opened Wrappers
  import opened TeleopModel
  import opened TeleopTheorems
  import opened TeleopReading
  import Fits = TeleopFits

  // ----- The controller against its lines -----

  predicate FieldsMirrored(t: Teleop) {
    var r := Read(t.limits, t.lines);
    && t.stopped == Halted(t.lines) && t.sequence == r.sequence && t.lastToken == r.token
    && (t.finished <==> Quit in t.lines)
  }

  predicate Mirrored(t: Teleop) {
    TeleopHeld(t) && FieldsMirrored(t) && (t.active.Some? <==> Read(t.limits, t.lines).owed)
  }

  lemma LineMirrored(l: Limits, lines: seq<Line>, line: Line)
    ensures Read(l, lines + [line]) == ReadLine(l, Read(l, lines), line)
    ensures Halted(lines + [line]) <==> line.Stop? || (!line.Cmd? && Halted(lines))
    ensures Quit in lines + [line] <==> Quit in lines || line.Quit?
  {
    assert (lines + [line])[..|lines|] == lines;
  }

  lemma {:induction false} HaltedOwesNothing(l: Limits, lines: seq<Line>)
    ensures Halted(lines) ==> !Read(l, lines).owed
  {
    if lines != [] {
      HaltedOwesNothing(l, lines[..|lines| - 1]);
    }
  }

  // Clearing the direction and stopping, with whatever else changes on the way.
  lemma StopMirrored(t: Teleop, force: bool)
    requires FieldsMirrored(t)
    ensures var n := EmitStop(ClearDirection(t), force);
            && FieldsMirrored(n) && !Read(n.limits, n.lines).owed
            && n.lines == t.lines + StopIf(force || !Halted(t.lines))
  {
    HaltedOwesNothing(t.limits, t.lines);
    LineMirrored(t.limits, t.lines, Stop);
  }

  // ----- What an input finds -----

  // The controller and the log it has come from.
  predicate Shown(t: Teleop, l: Limits, initial: real, log: seq<Event>) {
    && t.limits == l && t.lastClock == ClockSeen(log)
    && t.latched == Latched(log) && t.quitRequested == EverPressed(log, Esc) && t.authorized == Authorized(l, log)
    && (t.authorized ==> t.authEvent == LastRequest(log))
    && t.conflictUntil == InhibitedUntil(l, log) && t.speed == Selected(l, initial, log)
    && (t.active.Some? ==> t.active == LastDirection(log) && t.activity == LastPress(log))
  }

  predicate Traced(t: Teleop, l: Limits, initial: real, log: seq<Event>) {
    Mirrored(t) && Shown(t, l, initial, log) && LinesIn(log) == t.lines
  }

  // The controller that a key is handed to: the time is in order, and an expired
  // direction is gone.
  predicate Found(c: Teleop, l: Limits, initial: real, log: seq<Event>, at: int) {
    && c.limits == l && c.latched == Latched(log) && c.quitRequested == EverPressed(log, Esc)
    && c.authorized == Authorized(l, log)
    && (c.authorized ==> c.authEvent == LastRequest(log))
    && c.conflictUntil == InhibitedUntil(l, log) && c.speed == Selected(l, initial, log)
    && (c.active.Some? <==> StillDriving(l, log, at))
    && (c.active.Some? ==>
          c.authorized && !c.stopped && c.active == LastDirection(log) && c.activity == LastPress(log)
          && c.next == Some(NextDue(l, log)))
    && (c.active.None? ==> c.next.None?)
    && c.stopped == (Halted(LinesIn(log)) || Expiring(l, log, at))
    && c.sequence == TopSequence(l, log) && c.lastToken == TopToken(l, log)
    && c.lastClock == Some(at)
  }

  lemma DirectionFound(t: Teleop, l: Limits, initial: real, log: seq<Event>, at: int)
    requires Traced(t, l, initial, log) && NowIsValid(t, at)
    ensures var seen := t.(lastClock := Some(at));
            && Expired(seen, at) == Expiring(l, log, at)
            && Found(ExpireDirection(seen, at), l, initial, log, at)
            && FieldsMirrored(ExpireDirection(seen, at))
            && ExpireDirection(seen, at).lines == t.lines + StopIf(Expiring(l, log, at))
  {
    var seen := t.(lastClock := Some(at));
    HaltedOwesNothing(l, t.lines);
    if Expiring(l, log, at) {
      assert ExpireDirection(seen, at) == StopAndClear(seen);
      StopMirrored(seen, false);
    } else {
      assert ExpireDirection(seen, at) == seen;
    }
  }

  lemma PressedNow(log: seq<Event>, e: Event, key: Key)
    ensures EverPressed(log + [e], key) <==> EverPressed(log, key) || (e.Heard? && Presses(log, e.input, key))
  {
    var all := log + [e];
    assert all[..|log|] == log;
    forall k | 0 <= k < |log|
      ensures all[k] == log[k] && all[..k] == log[..k]
    {
    }
    if EverPressed(log, key) {
      var k :| 0 <= k < |log| && log[k].Heard? && Presses(log[..k], log[k].input, key);
      assert all[k].Heard? && Presses(all[..k], all[k].input, key);
    }
    if e.Heard? && Presses(log, e.input, key) {
      assert all[|log|].Heard? && Presses(all[..|log|], all[|log|].input, key);
    }
  }

  // ----- Printed lines leave what the keys said alone -----

  lemma PrintedOnce(l: Limits, initial: real, log: seq<Event>, e: Event)
    requires e.Printed?
    ensures var all := log + [e];
            && ClockSeen(all) == ClockSeen(log) && Latched(all) == Latched(log)
            && EverPressed(all, Esc) == EverPressed(log, Esc)
            && Authorized(l, all) == Authorized(l, log) && LastRequest(all) == LastRequest(log)
            && InhibitedUntil(l, all) == InhibitedUntil(l, log)
            && Selected(l, initial, all) == Selected(l, initial, log)
            && LastDirection(all) == LastDirection(log) && LastPress(all) == LastPress(log)
  {
    PressedNow(log, e, X);
    PressedNow(log, e, Esc);
    assert (log + [e])[..|log|] == log;
  }

  lemma {:induction false} PrintingShows(t: Teleop, l: Limits, initial: real, log: seq<Event>, printed: seq<Event>)
    requires Shown(t, l, initial, log) && forall e :: e in printed ==> e.Printed?
    ensures Shown(t, l, initial, log + printed)
    decreases |printed|
  {
    if printed == [] {
      assert log + printed == log;
    } else {
      var n := |printed| - 1;
      PrintingShows(t, l, initial, log, printed[..n]);
      PrintedOnce(l, initial, log + printed[..n], printed[n]);
      assert log + printed == log + printed[..n] + [printed[n]];
    }
  }

  // ----- What an input changes in the readings -----

  lemma HeardOnce(l: Limits, initial: real, log: seq<Event>, i: Input)
    ensures var all := log + [Heard(i)];
            && ClockSeen(all) == (if InOrder(log, i) then TimeOf(i) else ClockSeen(log))
            && (Latched(all) <==> Latched(log) || Presses(log, i, X))
            && (EverPressed(all, Esc) <==> EverPressed(log, Esc) || Presses(log, i, Esc))
            && LastRequest(all) == (if Presses(log, i, R) then i.at else LastRequest(log))
            && (Authorized(l, all) <==>
                  if Presses(log, i, R) then Grants(l, log, i.at) else Authorized(l, log) && !Revokes(l, log, i))
    ensures var all := log + [Heard(i)];
            && LastPress(all) == (if i.KeyEvent? && i.pressed && IsDirection(i.key) then Some(i.at) else LastPress(log))
            && LastDirection(all) ==
               (if i.KeyEvent? && i.pressed && IsDirection(i.key) then Some(i.key) else LastDirection(log))
            && Selected(l, initial, all) ==
               (if Presses(log, i, Q) then Changed(l, Selected(l, initial, log), l.speedStep)
                else if Presses(log, i, E) then Changed(l, Selected(l, initial, log), -l.speedStep)
                else Selected(l, initial, log))
            && InhibitedUntil(l, all) ==
               (if !InOrder(log, i) then InhibitedUntil(l, log)
                else if Conflicts(l, log, i) then Min(INT64_MAX, i.at + l.release)
                else if Presses(log, i, Space) || (Presses(log, i, R) && Grants(l, log, i.at)) then 0
                else InhibitedUntil(l, log))
  {
    PressedNow(log, Heard(i), X);
    PressedNow(log, Heard(i), Esc);
    assert (log + [Heard(i)])[..|log|] == log;
  }

  // A key that is no pressed direction.
  lemma HeardKey(l: Limits, initial: real, log: seq<Event>, i: Input)
    requires InOrder(log, i) && i.KeyEvent? && !(i.pressed && IsDirection(i.key))
    ensures var all := log + [Heard(i)];
            && ClockSeen(all) == Some(i.at)
            && (Latched(all) <==> Latched(log) || (i.pressed && i.key.X?))
            && (EverPressed(all, Esc) <==> EverPressed(log, Esc) || (i.pressed && i.key.Esc?))
            && LastRequest(all) == (if i.pressed && i.key.R? then i.at else LastRequest(log))
            && (Authorized(l, all) <==>
                  if i.pressed && i.key.R? then Grants(l, log, i.at)
                  else Authorized(l, log) && !(i.pressed && i.key.X?))
            && LastPress(all) == LastPress(log) && LastDirection(all) == LastDirection(log)
            && (!(i.pressed && (i.key.Q? || i.key.E?)) ==> Selected(l, initial, all) == Selected(l, initial, log))
            && InhibitedUntil(l, all) ==
               (if i.pressed && i.key.Other? && StillDriving(l, log, i.at) then Min(INT64_MAX, i.at + l.release)
                else if i.pressed && (i.key.Space? || (i.key.R? && Grants(l, log, i.at))) then 0
                else InhibitedUntil(l, log))
  {
    HeardOnce(l, initial, log, i);
    assert !Admitted(l, log, i);
    assert !CommandDue(l, log, i);
    assert Conflicts(l, log, i) <==> i.pressed && i.key.Other? && StillDriving(l, log, i.at);
  }

  // A pressed direction.
  lemma HeardDirection(l: Limits, initial: real, log: seq<Event>, i: Input)
    requires InOrder(log, i) && i.KeyEvent? && i.pressed && IsDirection(i.key)
    ensures var all := log + [Heard(i)];
            && ClockSeen(all) == Some(i.at) && Latched(all) == Latched(log) && LastRequest(all) == LastRequest(log)
            && EverPressed(all, Esc) == EverPressed(log, Esc)
            && (Authorized(l, all) <==> Authorized(l, log) && !(CommandDue(l, log, i) && Overflows(l, log, i.at)))
            && LastPress(all) == Some(i.at) && LastDirection(all) == Some(i.key)
            && Selected(l, initial, all) == Selected(l, initial, log)
            && InhibitedUntil(l, all) ==
               (if Conflicts(l, log, i) then Min(INT64_MAX, i.at + l.release) else InhibitedUntil(l, log))
  {
    HeardOnce(l, initial, log, i);
  }

  // Anything else: a tick, a time out of order, or an input without a time.
  lemma HeardOther(l: Limits, initial: real, log: seq<Event>, i: Input)
    requires !(i.KeyEvent? && InOrder(log, i))
    ensures var all := log + [Heard(i)];
            && ClockSeen(all) == (if InOrder(log, i) then TimeOf(i) else ClockSeen(log))
            && Latched(all) == Latched(log) && LastRequest(all) == LastRequest(log)
            && EverPressed(all, Esc) == EverPressed(log, Esc)
            && (Authorized(l, all) <==> Authorized(l, log) && !Revokes(l, log, i))
            && (!i.KeyEvent? ==> LastPress(all) == LastPress(log) && LastDirection(all) == LastDirection(log))
            && Selected(l, initial, all) == Selected(l, initial, log)
            && InhibitedUntil(l, all) == InhibitedUntil(l, log)
  {
    HeardOnce(l, initial, log, i);
    assert i.TickAt? ==> !Conflicts(l, log, i);
  }

  // ----- One key -----

  // What a key is answered with, and what the controller shows then.
  predicate Answers(c: Teleop, n: Teleop, l: Limits, initial: real, log: seq<Event>, i: Input, lines: seq<Line>) {
    && n.lines == c.lines + lines && FieldsMirrored(n) && (n.active.Some? <==> Read(l, n.lines).owed)
    && Shown(n, l, initial, log + [Heard(i)])
  }

  // A command that is due: printed, or a stop where it does not fit.
  lemma CommandMirrored(c: Teleop, key: Direction, now: int, line: Line)
    requires FieldsMirrored(c) && 0 <= c.sequence && c.active == Some(key)
    requires EmitCommand(c, now).lines == c.lines + [line] && line.Cmd? && line.sequence == Max(c.sequence + 1, now)
    requires c.sequence < UINT64_MAX && now <= INT64_MAX - c.limits.release
    ensures var n := EmitCommand(c, now);
            FieldsMirrored(n) && Read(n.limits, n.lines).owed
  {
    LineMirrored(c.limits, c.lines, line);
  }

  lemma PrintingIsMotion(c: Teleop, key: Direction)
    requires c.active == Some(key)
    ensures Motion(c).Some?
    ensures var (linear, yaw) := Motion(c).value;
            (Round9(linear), Round9(yaw)) == Printing(c.speed, c.limits.curvature, key)
  {
    Fits.RoundIsOdd(c.speed, UNITS_9);
    Fits.RoundIsOdd(ArcRate(c.speed, c.limits.curvature), UNITS_9);
    assert ArcRate(-c.speed, c.limits.curvature) == -ArcRate(c.speed, c.limits.curvature);
    Fits.RoundOfGrid(0, UNITS_9);
  }

  // What every key finds.
  predicate Given(c: Teleop, l: Limits, initial: real, log: seq<Event>, i: Input) {
    && InOrder(log, i) && i.KeyEvent? && Found(c, l, initial, log, i.at) && FieldsMirrored(c)
    && 0 < l.period && 0 <= c.sequence && (c.active.Some? <==> Read(l, c.lines).owed)
  }

  lemma SpaceAnswers(c: Teleop, l: Limits, initial: real, log: seq<Event>, i: Input)
    requires Given(c, l, initial, log, i) && i.pressed && i.key.Space?
    ensures Answers(c, Press(c, i.key, i.at), l, initial, log, i, PressLines(l, initial, log, i))
  {
    HeardKey(l, initial, log, i);
    StopMirrored(c.(conflictUntil := 0), false);
  }

  lemma EscAnswers(c: Teleop, l: Limits, initial: real, log: seq<Event>, i: Input)
    requires Given(c, l, initial, log, i) && i.pressed && i.key.Esc?
    ensures Answers(c, Press(c, i.key, i.at), l, initial, log, i, PressLines(l, initial, log, i))
  {
    HeardKey(l, initial, log, i);
    StopMirrored(c.(quitRequested := true), false);
  }

  lemma OtherAnswers(c: Teleop, l: Limits, initial: real, log: seq<Event>, i: Input)
    requires Given(c, l, initial, log, i) && i.pressed && i.key.Other?
    ensures Answers(c, Press(c, i.key, i.at), l, initial, log, i, PressLines(l, initial, log, i))
  {
    HeardKey(l, initial, log, i);
    if c.active.Some? {
      assert Press(c, i.key, i.at) == Conflict(c, i.at);
      StopMirrored(c.(conflictUntil := Min(INT64_MAX, i.at + l.release)), false);
    } else {
      assert Press(c, i.key, i.at) == c;
    }
  }

  lemma TwoLines(lines: seq<Line>, first: Line, second: Line)
    ensures lines + [first] + [second] == lines + [first, second]
  {
  }

  lemma EstopMirrored(c: Teleop)
    requires FieldsMirrored(c)
    ensures var n := RaiseEstop(c);
            FieldsMirrored(n) && !Read(n.limits, n.lines).owed && n.lines == c.lines + [Estop, Stop]
  {
    var printed := Emit(ClearDirection(c.(authorized := false, latched := true)), Estop);
    LineMirrored(c.limits, c.lines, Estop);
    assert FieldsMirrored(printed) && ClearDirection(printed) == printed;
    StopMirrored(printed, true);
    TwoLines(c.lines, Estop, Stop);
  }

  lemma GrantMirrored(c: Teleop, token: int, now: int)
    requires FieldsMirrored(c) && token > c.lastToken
    ensures var n := EmitStop(Emit(Granted(c, token, now), Auth(token)), true);
            FieldsMirrored(n) && !Read(n.limits, n.lines).owed && n.lines == c.lines + [Auth(token), Stop]
  {
    var printed := Emit(Granted(c, token, now), Auth(token));
    LineMirrored(c.limits, c.lines, Auth(token));
    assert FieldsMirrored(printed) && ClearDirection(printed) == printed;
    StopMirrored(printed, true);
    TwoLines(c.lines, Auth(token), Stop);
  }

  lemma EstopAnswers(c: Teleop, l: Limits, initial: real, log: seq<Event>, i: Input)
    requires Given(c, l, initial, log, i) && i.pressed && i.key.X?
    ensures Answers(c, Press(c, i.key, i.at), l, initial, log, i, PressLines(l, initial, log, i))
  {
    HeardKey(l, initial, log, i);
    EstopMirrored(c);
  }

  // What a change of speed does to everything else.
  lemma SpeedMirrored(c: Teleop, n: Teleop, speed: real)
    requires FieldsMirrored(c) && (c.active.Some? <==> Read(c.limits, c.lines).owed) && (c.active.Some? ==> !c.stopped)
    requires n == (if c.active.Some? then StopAndClear(c) else c).(speed := speed)
    ensures n.lines == c.lines + StopIf(c.active.Some?) && FieldsMirrored(n)
    ensures n.active.Some? <==> Read(n.limits, n.lines).owed
    ensures n == c.(speed := speed, active := n.active, activity := n.activity, next := n.next,
                    lines := n.lines, stopped := n.stopped)
    ensures n.active.None?
  {
    if c.active.Some? {
      StopMirrored(c, false);
    }
  }

  lemma SpeedSelected(l: Limits, initial: real, log: seq<Event>, i: Input)
    requires InOrder(log, i) && i.KeyEvent? && i.pressed && (i.key.Q? || i.key.E?)
    ensures Selected(l, initial, log + [Heard(i)]) ==
            Changed(l, Selected(l, initial, log), if i.key.Q? then l.speedStep else -l.speedStep)
  {
    HeardOnce(l, initial, log, i);
  }

  lemma SpeedShown(c: Teleop, n: Teleop, l: Limits, initial: real, log: seq<Event>, i: Input)
    requires Given(c, l, initial, log, i) && i.pressed && (i.key.Q? || i.key.E?)
    requires n.speed == Selected(l, initial, log + [Heard(i)])
    requires n == c.(speed := n.speed, active := None, activity := n.activity, next := n.next,
                     lines := n.lines, stopped := n.stopped)
    ensures Shown(n, l, initial, log + [Heard(i)])
  {
    HeardKey(l, initial, log, i);
  }

  lemma SpeedChanged(c: Teleop, n: Teleop, l: Limits, initial: real, log: seq<Event>, i: Input)
    requires Given(c, l, initial, log, i) && i.pressed && (i.key.Q? || i.key.E?)
    requires n == (if c.active.Some? then StopAndClear(c) else c).(speed := n.speed)
    requires n.speed == Selected(l, initial, log + [Heard(i)])
    ensures Answers(c, n, l, initial, log, i, StopIf(c.active.Some?))
  {
    SpeedMirrored(c, n, n.speed);
    SpeedShown(c, n, l, initial, log, i);
  }

  lemma SpeedAnswers(c: Teleop, l: Limits, initial: real, log: seq<Event>, i: Input)
    requires Given(c, l, initial, log, i) && i.pressed && (i.key.Q? || i.key.E?)
    ensures Answers(c, Press(c, i.key, i.at), l, initial, log, i, PressLines(l, initial, log, i))
  {
    var delta := if i.key.Q? then l.speedStep else -l.speedStep;
    var n := ChangeSpeed(c, delta);
    SpeedSelected(l, initial, log, i);
    assert Press(c, i.key, i.at) == n;
    SpeedChanged(c, n, l, initial, log, i);
    assert PressLines(l, initial, log, i) == StopIf(c.active.Some?);
  }

  lemma GrantShown(c: Teleop, n: Teleop, l: Limits, initial: real, log: seq<Event>, i: Input)
    requires Given(c, l, initial, log, i) && i.pressed && i.key.R? && Grants(l, log, i.at)
    requires n == Granted(c, n.lastToken, i.at).(lines := n.lines, stopped := n.stopped)
    ensures Shown(n, l, initial, log + [Heard(i)])
  {
    HeardKey(l, initial, log, i);
  }

  lemma GrantPrints(c: Teleop, token: int, l: Limits, initial: real, log: seq<Event>, i: Input)
    requires Given(c, l, initial, log, i) && i.pressed && i.key.R? && Grants(l, log, i.at)
    requires token > c.lastToken
    ensures var n := EmitStop(Emit(Granted(c, token, i.at), Auth(token)), true);
            Answers(c, n, l, initial, log, i, [Auth(token), Stop])
  {
    GrantMirrored(c, token, i.at);
    GrantShown(c, EmitStop(Emit(Granted(c, token, i.at), Auth(token)), true), l, initial, log, i);
  }

  lemma GrantAnswers(c: Teleop, l: Limits, initial: real, log: seq<Event>, i: Input)
    requires Given(c, l, initial, log, i) && i.pressed && i.key.R? && Grants(l, log, i.at)
    ensures Answers(c, Press(c, i.key, i.at), l, initial, log, i, PressLines(l, initial, log, i))
  {
    GrantPrints(c, Max(i.at, c.lastToken + 1), l, initial, log, i);
  }

  lemma RequestAnswers(c: Teleop, l: Limits, initial: real, log: seq<Event>, i: Input)
    requires Given(c, l, initial, log, i) && i.pressed && i.key.R?
    ensures Answers(c, Press(c, i.key, i.at), l, initial, log, i, PressLines(l, initial, log, i))
  {
    if Grants(l, log, i.at) {
      GrantAnswers(c, l, initial, log, i);
    } else {
      HeardKey(l, initial, log, i);
      assert Press(c, i.key, i.at) == StopAndClear(c.(authorized := false));
      StopMirrored(c.(authorized := false), false);
    }
  }

  // ----- Directions and commands -----

  lemma ConflictShown(c: Teleop, n: Teleop, l: Limits, initial: real, log: seq<Event>, i: Input)
    requires Given(c, l, initial, log, i) && i.pressed && IsDirection(i.key) && Conflicts(l, log, i)
    requires n == ClearDirection(c.(conflictUntil := Min(INT64_MAX, i.at + l.release)))
                    .(lines := n.lines, stopped := n.stopped)
    ensures Shown(n, l, initial, log + [Heard(i)])
  {
    HeardDirection(l, initial, log, i);
    assert !Admitted(l, log, i);
  }

  lemma ConflictAnswers(c: Teleop, l: Limits, initial: real, log: seq<Event>, i: Input)
    requires Given(c, l, initial, log, i) && i.pressed && IsDirection(i.key) && Conflicts(l, log, i)
    ensures Answers(c, Conflict(c, i.at), l, initial, log, i, StopUnlessHalted(l, log, i.at))
  {
    StopMirrored(c.(conflictUntil := Min(INT64_MAX, i.at + l.release)), false);
    ConflictShown(c, Conflict(c, i.at), l, initial, log, i);
  }

  lemma ConflictingDirection(c: Teleop, l: Limits, initial: real, log: seq<Event>, i: Input)
    requires Given(c, l, initial, log, i) && i.pressed && IsDirection(i.key) && Conflicts(l, log, i)
    ensures Answers(c, Press(c, i.key, i.at), l, initial, log, i, StopUnlessHalted(l, log, i.at))
  {
    ConflictAnswers(c, l, initial, log, i);
    assert Press(c, i.key, i.at) == PressDirection(c, i.key, i.at) == Conflict(c, i.at);
  }

  lemma RefusedDirection(c: Teleop, l: Limits, initial: real, log: seq<Event>, i: Input)
    requires Given(c, l, initial, log, i) && i.pressed && IsDirection(i.key)
    requires !Admitted(l, log, i) && !Conflicts(l, log, i)
    ensures Answers(c, Press(c, i.key, i.at), l, initial, log, i, StopUnlessHalted(l, log, i.at))
  {
    HeardDirection(l, initial, log, i);
    assert !CommandDue(l, log, i);
    assert Press(c, i.key, i.at) == StopAndClear(c);
    StopMirrored(c, false);
  }


  // A direction held by this press or the last, with a command due now.
  predicate CommandReady(c: Teleop, l: Limits, initial: real, log: seq<Event>, i: Input, key: Direction, at: int) {
    && c.limits == l && c.active == Some(key) && c.authorized && CommandDue(l, log, i) && TimeOf(i) == Some(at)
    && c.speed == Selected(l, initial, log) && c.sequence == TopSequence(l, log) && 0 <= c.sequence
    && c.stopped == (Halted(LinesIn(log)) || Expiring(l, log, at))
    && FieldsMirrored(c)
  }

  lemma CommandAnswers(c: Teleop, l: Limits, initial: real, log: seq<Event>, i: Input, key: Direction, at: int)
    requires CommandReady(c, l, initial, log, i, key, at)
    ensures var n := EmitCommand(c, at);
            && n.lines == c.lines + CommandLines(l, initial, log, key, at)
            && FieldsMirrored(n) && (n.active.Some? <==> Read(l, n.lines).owed)
            && if Overflows(l, log, at) then n.active.None? && !n.authorized
               else n.active == c.active && n.activity == c.activity && n.authorized
  {
    if Overflows(l, log, at) {
      StopMirrored(c.(authorized := false), false);
    } else {
      PrintingIsMotion(c, key);
      CommandMirrored(c, key, at, CommandLine(l, initial, log, key, at));
    }
  }

  lemma AdmittedDirection(c: Teleop, l: Limits, initial: real, log: seq<Event>, i: Input)
    requires Given(c, l, initial, log, i) && Admitted(l, log, i)
    ensures Answers(c, Press(c, i.key, i.at), l, initial, log, i, PressLines(l, initial, log, i))
  {
    var next := if c.next.None? then i.at else c.next.value;
    var held := c.(active := Some(i.key), activity := Some(i.at), next := Some(next));
    assert Press(c, i.key, i.at) == if i.at >= next then EmitCommand(held, i.at) else held;
    if i.at >= next {
      DirectionCommands(c, held, l, initial, log, i);
    } else {
      HeardDirection(l, initial, log, i);
    }
  }

  lemma DirectionCommands(c: Teleop, held: Teleop, l: Limits, initial: real, log: seq<Event>, i: Input)
    requires Given(c, l, initial, log, i) && Admitted(l, log, i) && CommandDue(l, log, i)
    requires held == c.(active := Some(i.key), activity := Some(i.at), next := held.next)
    ensures Answers(c, EmitCommand(held, i.at), l, initial, log, i, CommandLines(l, initial, log, i.key, i.at))
  {
    HeardDirection(l, initial, log, i);
    CommandAnswers(held, l, initial, log, i, i.key, i.at);
  }

  lemma PressAnswers(c: Teleop, l: Limits, initial: real, log: seq<Event>, i: Input)
    requires Given(c, l, initial, log, i) && i.pressed
    ensures Answers(c, Press(c, i.key, i.at), l, initial, log, i, PressLines(l, initial, log, i))
  {
    match i.key
    case R => RequestAnswers(c, l, initial, log, i);
    case Q => SpeedAnswers(c, l, initial, log, i);
    case E => SpeedAnswers(c, l, initial, log, i);
    case Space => SpaceAnswers(c, l, initial, log, i);
    case X => EstopAnswers(c, l, initial, log, i);
    case Esc => EscAnswers(c, l, initial, log, i);
    case Other(_) => OtherAnswers(c, l, initial, log, i);
    case _ =>
      if Admitted(l, log, i) {
        AdmittedDirection(c, l, initial, log, i);
      } else if Conflicts(l, log, i) {
        ConflictingDirection(c, l, initial, log, i);
      } else {
        RefusedDirection(c, l, initial, log, i);
      }
  }

  lemma ReleaseAnswers(c: Teleop, l: Limits, initial: real, log: seq<Event>, i: Input)
    requires Given(c, l, initial, log, i) && !i.pressed
    ensures var lines := StopIf(StillDriving(l, log, i.at) && LastDirection(log) == Some(i.key));
            Answers(c, Respond(c, i.key, false, i.at), l, initial, log, i, lines)
  {
    HeardKey(l, initial, log, i);
    StopMirrored(c, false);
  }

  // ----- Every input -----

  lemma OutOfOrderAnswers(t: Teleop, l: Limits, initial: real, log: seq<Event>, i: Input)
    requires Traced(t, l, initial, log) && TimeOf(i).Some? && !InOrder(log, i)
    ensures Answers(t, ClockInvalid(t), l, initial, log, i, LinesDue(l, initial, log, i))
  {
    StopMirrored(t.(authorized := false), true);
    OutOfOrderShown(t, ClockInvalid(t), l, initial, log, i);
  }

  lemma OutOfOrderShown(t: Teleop, n: Teleop, l: Limits, initial: real, log: seq<Event>, i: Input)
    requires Shown(t, l, initial, log) && TimeOf(i).Some? && !InOrder(log, i)
    requires n == ClearDirection(t.(authorized := false)).(lines := n.lines, stopped := n.stopped)
    ensures Shown(n, l, initial, log + [Heard(i)])
  {
    HeardOther(l, initial, log, i);
  }

  // The stop of an expiry comes first.
  lemma AnswersOn(t: Teleop, c: Teleop, n: Teleop, l: Limits, initial: real, log: seq<Event>, i: Input,
                  lines: seq<Line>)
    requires Answers(c, n, l, initial, log, i, lines) && TimeOf(i).Some?
    requires c.lines == t.lines + StopIf(Expiring(l, log, TimeOf(i).value))
    ensures Answers(t, n, l, initial, log, i, StopIf(Expiring(l, log, TimeOf(i).value)) + lines)
  {
    assert c.lines + lines == t.lines + (StopIf(Expiring(l, log, TimeOf(i).value)) + lines);
  }

  lemma KeyFound(t: Teleop, l: Limits, initial: real, log: seq<Event>, i: Input)
    requires Traced(t, l, initial, log) && i.KeyEvent? && InOrder(log, i)
    ensures var c := ExpireDirection(t.(lastClock := Some(i.at)), i.at);
            && Given(c, l, initial, log, i) && c.lines == t.lines + StopIf(Expiring(l, log, i.at))
            && Step(t, i) == Respond(c, i.key, i.pressed, i.at)
  {
    var seen := t.(lastClock := Some(i.at));
    DirectionFound(t, l, initial, log, i.at);
    StopMirrored(seen, false);
  }

  lemma KeyAnswers(t: Teleop, l: Limits, initial: real, log: seq<Event>, i: Input)
    requires Traced(t, l, initial, log) && i.KeyEvent? && InOrder(log, i)
    ensures Answers(t, Step(t, i), l, initial, log, i, LinesDue(l, initial, log, i))
  {
    KeyFound(t, l, initial, log, i);
    var c := ExpireDirection(t.(lastClock := Some(i.at)), i.at);
    if i.pressed {
      PressAnswers(c, l, initial, log, i);
      AnswersOn(t, c, Step(t, i), l, initial, log, i, PressLines(l, initial, log, i));
    } else {
      ReleaseAnswers(c, l, initial, log, i);
      AnswersOn(t, c, Step(t, i), l, initial, log, i,
                StopIf(StillDriving(l, log, i.at) && LastDirection(log) == Some(i.key)));
    }
  }

  lemma TickCommands(seen: Teleop, l: Limits, initial: real, log: seq<Event>, i: Input)
    requires i.TickAt? && CommandDue(l, log, i) && Found(seen, l, initial, log, i.at) && FieldsMirrored(seen)
    requires 0 <= seen.sequence
    ensures var lines := CommandLines(l, initial, log, seen.active.value, i.at);
            Answers(seen, EmitCommand(seen, i.at), l, initial, log, i, lines)
  {
    HeardOther(l, initial, log, i);
    CommandAnswers(seen, l, initial, log, i, seen.active.value, i.at);
  }

  lemma TickAnswers(t: Teleop, l: Limits, initial: real, log: seq<Event>, i: Input)
    requires Traced(t, l, initial, log) && i.TickAt? && InOrder(log, i)
    ensures Answers(t, Step(t, i), l, initial, log, i, LinesDue(l, initial, log, i))
  {
    DirectionFound(t, l, initial, log, i.at);
    var seen := t.(lastClock := Some(i.at));
    if Expiring(l, log, i.at) {
      assert Step(t, i) == StopAndClear(seen);
      TickStops(t, l, initial, log, i);
    } else {
      assert Found(seen, l, initial, log, i.at);
      TickGoesOn(t, seen, l, initial, log, i);
    }
  }

  lemma TickGoesOn(t: Teleop, seen: Teleop, l: Limits, initial: real, log: seq<Event>, i: Input)
    requires i.TickAt? && InOrder(log, i) && Found(seen, l, initial, log, i.at) && !Expiring(l, log, i.at)
    requires FieldsMirrored(seen) && 0 <= seen.sequence && (seen.active.Some? <==> Read(l, seen.lines).owed)
    requires Step(t, i) == (if CommandDue(l, log, i) then EmitCommand(seen, i.at) else seen) && t.lines == seen.lines
    ensures Answers(t, Step(t, i), l, initial, log, i, LinesDue(l, initial, log, i))
  {
    if CommandDue(l, log, i) {
      TickCommands(seen, l, initial, log, i);
    } else {
      HeardOther(l, initial, log, i);
    }
  }

  lemma TickStops(t: Teleop, l: Limits, initial: real, log: seq<Event>, i: Input)
    requires Traced(t, l, initial, log) && i.TickAt? && InOrder(log, i) && Expiring(l, log, i.at)
    ensures Answers(t, StopAndClear(t.(lastClock := Some(i.at))), l, initial, log, i, [Stop])
  {
    HaltedOwesNothing(l, t.lines);
    StopMirrored(t.(lastClock := Some(i.at)), false);
    HeardOther(l, initial, log, i);
    assert !CommandDue(l, log, i);
  }

  lemma FinishMirrored(t: Teleop)
    requires FieldsMirrored(t) && !t.finished
    ensures var n := FinishUp(t);
            FieldsMirrored(n) && !Read(n.limits, n.lines).owed && n.lines == t.lines + [Stop, Quit]
  {
    LineMirrored(t.limits, t.lines, Stop);
    LineMirrored(t.limits, t.lines + [Stop], Quit);
    TwoLines(t.lines, Stop, Quit);
  }

  lemma FinishAnswers(t: Teleop, l: Limits, initial: real, log: seq<Event>)
    requires Traced(t, l, initial, log)
    ensures Answers(t, FinishUp(t), l, initial, log, Finish, LinesDue(l, initial, log, Finish))
  {
    HeardOther(l, initial, log, Finish);
    if !t.finished {
      FinishMirrored(t);
    }
  }

  lemma ForceStopAnswers(t: Teleop, l: Limits, initial: real, log: seq<Event>)
    requires Traced(t, l, initial, log)
    ensures Answers(t, Step(t, ForceStop), l, initial, log, ForceStop, LinesDue(l, initial, log, ForceStop))
  {
    HeardOther(l, initial, log, ForceStop);
    StopMirrored(t, true);
  }

  lemma StepAnswers(t: Teleop, l: Limits, initial: real, log: seq<Event>, i: Input)
    requires Traced(t, l, initial, log)
    ensures Answers(t, Step(t, i), l, initial, log, i, LinesDue(l, initial, log, i))
  {
    match i
    case ForceStop => ForceStopAnswers(t, l, initial, log);
    case Finish => FinishAnswers(t, l, initial, log);
    case KeyEvent(_, _, _) =>
      if InOrder(log, i) {
        KeyAnswers(t, l, initial, log, i);
      } else {
        OutOfOrderAnswers(t, l, initial, log, i);
      }
    case TickAt(_) =>
      if InOrder(log, i) {
        TickAnswers(t, l, initial, log, i);
      } else {
        OutOfOrderAnswers(t, l, initial, log, i);
      }
  }

  // ----- Histories -----

  // The lines between an input and the next are those that were due, and whoever
  // drives has pressed a direction.
  predicate AnsweredAt(l: Limits, initial: real, log: seq<Event>, k: nat)
    requires k < |log|
  {
    log[k].Heard? ==>
      && Following(log, k) == LinesDue(l, initial, log[..k], log[k].input)
      && Steered(l, log[..k])
  }

  predicate Steered(l: Limits, log: seq<Event>) {
    Driving(l, log) ==> LastDirection(log).Some?
  }

  predicate AllAnswered(l: Limits, initial: real, log: seq<Event>) {
    forall k :: 0 <= k < |log| ==> AnsweredAt(l, initial, log, k)
  }

  lemma {:induction false} FollowingKept(log: seq<Event>, more: seq<Event>, k: nat)
    requires k < |log| && more != [] && more[0].Heard?
    ensures Following(log + more, k) == Following(log, k)
    decreases |log| - k
  {
    if k + 1 < |log| {
      FollowingKept(log, more, k + 1);
    }
  }

  lemma {:induction false} FollowingThose(log: seq<Event>, added: seq<Event>, lines: seq<Line>)
    requires log != [] && |added| == |lines| && forall j :: 0 <= j < |lines| ==> added[j] == Printed(lines[j])
    ensures Following(log + added, |log| - 1) == lines
    decreases |lines|
  {
    if lines == [] {
      assert log + added == log;
    } else {
      assert log + added == log + [added[0]] + added[1..];
      FollowingThose(log + [added[0]], added[1..], lines[1..]);
      assert lines == [lines[0]] + lines[1..];
    }
  }

  lemma AddedAre(before: seq<Line>, lines: seq<Line>)
    ensures var added := LinesAdded(before, before + lines);
            |added| == |lines| && forall j :: 0 <= j < |lines| ==> added[j] == Printed(lines[j])
  {
  }

  lemma AnsweredGoesOn(l: Limits, initial: real, log: seq<Event>, i: Input, added: seq<Event>, lines: seq<Line>)
    requires AllAnswered(l, initial, log) && lines == LinesDue(l, initial, log, i) && Steered(l, log)
    requires |added| == |lines| && forall j :: 0 <= j < |lines| ==> added[j] == Printed(lines[j])
    ensures AllAnswered(l, initial, log + [Heard(i)] + added)
  {
    var more, all := [Heard(i)] + added, log + [Heard(i)] + added;
    assert all == log + more;
    forall k | 0 <= k < |all|
      ensures AnsweredAt(l, initial, all, k)
    {
      if k < |log| {
        FollowingKept(log, more, k);
        assert AnsweredAt(l, initial, log, k) && all[..k] == log[..k];
      } else if k == |log| {
        FollowingThose(log + [Heard(i)], added, lines);
        assert all[..k] == log;
      }
    }
  }

  ghost predicate ExactlyHeld(config: TeleopConfig, h: History)
    requires TeleopConfigIsValid(config)
  {
    var l, initial := LimitsOf(config), config.initialSelected.value;
    Traced(h.controller, l, initial, h.log) && AllAnswered(l, initial, h.log)
  }

  lemma TracedGoesOn(t: Teleop, l: Limits, initial: real, log: seq<Event>, i: Input)
    requires Traced(t, l, initial, log)
    ensures var n := Step(t, i);
            && n.lines == t.lines + LinesDue(l, initial, log, i)
            && Traced(n, l, initial, log + [Heard(i)] + LinesAdded(t.lines, n.lines))
  {
    var n := Step(t, i);
    StepAnswers(t, l, initial, log, i);
    StepHolds(t, i);
    PrintingShows(n, l, initial, log + [Heard(i)], LinesAdded(t.lines, n.lines));
    LinesInGrow(log, i, t.lines, n.lines);
  }

  lemma TracedSteers(t: Teleop, l: Limits, initial: real, log: seq<Event>)
    requires Traced(t, l, initial, log)
    ensures Steered(l, log)
  {
  }

  lemma ExactlyGoesOn(config: TeleopConfig, h: History, i: Input)
    requires TeleopConfigIsValid(config) && ExactlyHeld(config, h)
    ensures ExactlyHeld(config, Next(h, i))
  {
    var l, initial := LimitsOf(config), config.initialSelected.value;
    TracedGoesOn(h.controller, l, initial, h.log, i);
    TracedSteers(h.controller, l, initial, h.log);
    var before, lines := h.controller.lines, LinesDue(l, initial, h.log, i);
    AddedAre(before, lines);
    AnsweredGoesOn(l, initial, h.log, i, LinesAdded(before, before + lines), lines);
  }

  lemma ExactlyBegins(config: TeleopConfig)
    requires TeleopConfigIsValid(config)
    ensures ExactlyHeld(config, Beginning(config))
  {
  }

  lemma ReachableExactlyHeld(config: TeleopConfig, h: History)
    requires Reachable(config, h)
    ensures ExactlyHeld(config, h)
  {
    var held := iset g: History | ExactlyHeld(config, g);
    forall g, i | g in held
      ensures Next(g, i) in held
    {
      ExactlyGoesOn(config, g, i);
    }
    ExactlyBegins(config);
    assert Closed(config, held);
  }

  // ----- What every input is answered with -----

  // Whatever is heard, the lines printed next are exactly the lines due.
  lemma LinesExactly(config: TeleopConfig, h: History, k: nat)
    requires Reachable(config, h) && k < |h.log| && h.log[k].Heard?
    ensures Following(h.log, k) ==
            LinesDue(LimitsOf(config), config.initialSelected.value, h.log[..k], h.log[k].input)
  {
    ReachableExactlyHeld(config, h);
    assert AnsweredAt(LimitsOf(config), config.initialSelected.value, h.log, k);
  }

  // The latch, the authorization, the speed and the held direction are what the
  // log says.
  lemma StateExactly(config: TeleopConfig, h: History)
    requires Reachable(config, h)
    ensures var l, t := LimitsOf(config), h.controller;
            && (t.latched <==> Latched(h.log)) && (t.quitRequested <==> EverPressed(h.log, Esc))
            && (t.authorized <==> Authorized(l, h.log))
            && (t.active.Some? <==> Driving(l, h.log))
            && (t.active.Some? ==> t.active == LastDirection(h.log))
            && t.speed == Selected(l, config.initialSelected.value, h.log)
  {
    ReachableExactlyHeld(config, h);
  }

  // x is answered with ESTOP and STOP, after the STOP of an expiry, and nothing
  // else is ever answered with an ESTOP.
  lemma EstopExactly(config: TeleopConfig, h: History, k: nat)
    requires Reachable(config, h) && k < |h.log| && h.log[k].Heard?
    ensures var log, i, lines := h.log[..k], h.log[k].input, Following(h.log, k);
            && (Estop in lines <==> Presses(log, i, X))
            && (Presses(log, i, X) ==> lines == StopIf(Expiring(LimitsOf(config), log, i.at)) + [Estop, Stop])
  {
    LinesExactly(config, h, k);
  }

  lemma TokenPrinted(l: Limits, initial: real, log: seq<Event>, i: Input)
    requires Presses(log, i, R) && Grants(l, log, i.at)
    ensures var token := Auth(Max(i.at, TopToken(l, log) + 1));
            LinesDue(l, initial, log, i) == StopIf(Expiring(l, log, i.at)) + [token, Stop]
            && token in LinesDue(l, initial, log, i)
  {
  }

  lemma NoTokenPrinted(l: Limits, initial: real, log: seq<Event>, i: Input)
    requires !(Presses(log, i, R) && Grants(l, log, i.at))
    ensures !exists line :: line in LinesDue(l, initial, log, i) && line.Auth?
  {
  }

  // r is answered with AUTH and STOP exactly when x was never pressed and a token
  // is left, and nothing else is ever answered with an AUTH.
  lemma AuthorizeExactly(config: TeleopConfig, h: History, k: nat)
    requires Reachable(config, h) && k < |h.log| && h.log[k].Heard?
    ensures var l, log, i, lines := LimitsOf(config), h.log[..k], h.log[k].input, Following(h.log, k);
            && ((exists line :: line in lines && line.Auth?) <==> Presses(log, i, R) && Grants(l, log, i.at))
            && (Presses(log, i, R) && Grants(l, log, i.at) ==>
                  lines == StopIf(Expiring(l, log, i.at)) + [Auth(Max(i.at, TopToken(l, log) + 1)), Stop])
  {
    LinesExactly(config, h, k);
    var l, initial, log, i := LimitsOf(config), config.initialSelected.value, h.log[..k], h.log[k].input;
    if Presses(log, i, R) && Grants(l, log, i.at) {
      TokenPrinted(l, initial, log, i);
    } else {
      NoTokenPrinted(l, initial, log, i);
    }
  }

  lemma SteeredBy(l: Limits, initial: real, log: seq<Event>, i: Input)
    requires Steered(l, log) && CommandDue(l, log, i)
    ensures var key := LastDirection(log + [Heard(i)]);
            key.Some? && (if i.TickAt? then LastDirection(log) == key else i.KeyEvent? && Some(i.key) == key)
    ensures if i.TickAt? then InOrder(log, i) else Admitted(l, log, i)
  {
    HeardOnce(l, initial, log, i);
  }

  lemma CommandPrinted(l: Limits, initial: real, log: seq<Event>, i: Input)
    requires Steered(l, log) && CommandDue(l, log, i) && !Overflows(l, log, TimeOf(i).value)
    ensures var at, key, lines := TimeOf(i).value, LastDirection(log + [Heard(i)]), LinesDue(l, initial, log, i);
            && key.Some? && (exists line :: line in lines && line.Cmd?)
            && lines == StopIf(Expiring(l, log, at)) + [CommandLine(l, initial, log, key.value, at)]
  {
    SteeredBy(l, initial, log, i);
    var line := CommandLine(l, initial, log, LastDirection(log + [Heard(i)]).value, TimeOf(i).value);
    assert line.Cmd? && [line][0] in StopIf(Expiring(l, log, TimeOf(i).value)) + [line];
  }

  lemma NoCommandPrinted(l: Limits, initial: real, log: seq<Event>, i: Input)
    requires !(CommandDue(l, log, i) && !Overflows(l, log, TimeOf(i).value))
    ensures !exists line :: line in LinesDue(l, initial, log, i) && line.Cmd?
  {
  }

  // A CMD is printed exactly when one is due and fits, and it is that one, for the
  // direction key that was pressed last.
  lemma CommandExactly(config: TeleopConfig, h: History, k: nat)
    requires Reachable(config, h) && k < |h.log| && h.log[k].Heard?
    ensures var l, log, i, lines := LimitsOf(config), h.log[..k], h.log[k].input, Following(h.log, k);
            var prints := CommandDue(l, log, i) && !Overflows(l, log, TimeOf(i).value);
            && ((exists line :: line in lines && line.Cmd?) <==> prints)
            && (prints ==>
                  var at, key := TimeOf(i).value, LastDirection(h.log[..k + 1]);
                  && key.Some?
                  && lines == StopIf(Expiring(l, log, at)) +
                              [CommandLine(l, config.initialSelected.value, log, key.value, at)])
  {
    ReachableExactlyHeld(config, h);
    var l, initial, log, i := LimitsOf(config), config.initialSelected.value, h.log[..k], h.log[k].input;
    assert AnsweredAt(l, initial, h.log, k);
    assert h.log[..k + 1] == log + [Heard(i)];
    if CommandDue(l, log, i) && !Overflows(l, log, TimeOf(i).value) {
      CommandPrinted(l, initial, log, i);
    } else {
      NoCommandPrinted(l, initial, log, i);
    }
  }

  // ----- Signs -----

  lemma RoundedSign(x: real)
    requires x >= 0.0
    ensures Round9(x) >= 0.0 && (Round9(x) > 0.0 <==> x * UNITS_9 > 0.5)
  {
    var y := x * UNITS_9;
    assert y >= 0.0;
    assert HalfEven(y) >= 0 && (HalfEven(y) > 0 <==> y > 0.5);
  }

  // Forward and backward are opposite, so are the two arcs, and a velocity is
  // zero only where its nine decimals are.
  lemma DirectionSigns(speed: real, curvature: real)
    requires speed >= 0.0 && curvature > 0.0
    ensures var (forward, straight) := Printing(speed, curvature, W);
            var (linear, left) := Printing(speed, curvature, A);
            && straight == 0.0 && forward == linear >= 0.0 && left >= 0.0
            && Printing(speed, curvature, S) == (-forward, 0.0) && Printing(speed, curvature, D) == (linear, -left)
            && (forward > 0.0 <==> speed * UNITS_9 > 0.5)
            && (left > 0.0 <==> ArcRate(speed, curvature) * UNITS_9 > 0.5)
  {
    RoundedSign(speed);
    assert ArcRate(speed, curvature) >= 0.0;
    RoundedSign(ArcRate(speed, curvature));
  }

  lemma {:induction false} SelectedNonnegative(l: Limits, initial: real, log: seq<Event>)
    requires Fits.LimitsSound(l) && initial >= 0.0
    ensures Selected(l, initial, log) >= 0.0
  {
    if log != [] {
      SelectedNonnegative(l, initial, log[..|log| - 1]);
      var speed := Selected(l, initial, log[..|log| - 1]);
      Fits.ChangedBounds(l, speed, l.speedStep);
      Fits.ChangedBounds(l, speed, -l.speedStep);
    }
  }

  // Signed like this, and zero only where its nine decimals are.
  predicate SignedLike(key: Direction, linear: real, yaw: real, speed: real, curvature: real) {
    && (linear != 0.0 <==> speed * UNITS_9 > 0.5)
    && (key.A? || key.D? ==> (yaw != 0.0 <==> ArcRate(speed, curvature) * UNITS_9 > 0.5))
    && match key
       case W => linear >= 0.0 && yaw == 0.0
       case S => linear <= 0.0 && yaw == 0.0
       case A => linear >= 0.0 && yaw >= 0.0
       case D => linear >= 0.0 && yaw <= 0.0
  }

  // w drives forward, s backward, a forward to the left and d forward to the right.
  lemma CommandSigns(config: TeleopConfig, h: History, k: nat, line: Line)
    requires Reachable(config, h) && k < |h.log| && h.log[k].Heard?
    requires line in Following(h.log, k) && line.Cmd?
    ensures var key := LastDirection(h.log[..k + 1]);
            var speed := Selected(LimitsOf(config), config.initialSelected.value, h.log[..k]);
            key.Some? && SignedLike(key.value, line.linear, line.yaw, speed, config.curvature.value)
  {
    CommandExactly(config, h, k);
    var l, initial, log := LimitsOf(config), config.initialSelected.value, h.log[..k];
    SelectedNonnegative(l, initial, log);
    DirectionSigns(Selected(l, initial, log), l.curvature);
    PrintedLike(l, initial, log, LastDirection(h.log[..k + 1]).value, TimeOf(h.log[k].input).value);
  }

  lemma PrintedLike(l: Limits, initial: real, log: seq<Event>, key: Direction, at: int)
    requires Selected(l, initial, log) >= 0.0 && l.curvature > 0.0
    ensures var line, speed := CommandLine(l, initial, log, key, at), Selected(l, initial, log);
            line.Cmd? && SignedLike(key, line.linear, line.yaw, speed, l.curvature)
  {
    DirectionSigns(Selected(l, initial, log), l.curvature);
  }
}
