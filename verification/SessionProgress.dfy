// The schedule of zero writes: a new episode is due at once, and the attempts of
// an open one are those that the log shows.

module SessionProgress {
  import opened Wrappers
  import opened Protocol
  import opened TransportModel
  import opened SessionModel
  import opened Reachability
  import opened SessionInvariant
  import opened LogReading
  import opened SessionFrames
  import opened StopBarrier

  // ----- A new episode is due at once -----

  predicate FreshDue(s: Session) {
    s.episode.Episode? && s.episode.attempts == 0 ==> s.episode.next <= s.seen
  }

  lemma BeginZeroDue(s: Session, link: Link, after: Mode, earliest: int)
    requires FreshDue(s) && 0 <= s.seen && earliest <= s.seen
    ensures FreshDue(BeginZero(s, link, after, earliest))
  {
  }

  lemma SynchronizeDue(s: Session, link: Link)
    requires FreshDue(s) && 0 <= s.seen
    ensures var c := Synchronize(s, link).0;
            FreshDue(c) && c.seen == s.seen
  {
  }

  lemma ClockFailedDue(s: Session, link: Link)
    requires FreshDue(s) && 0 <= s.seen
    ensures FreshDue(ClockFailed(s, link))
  {
  }

  lemma SettleDue(s: Session, link: Link, command: TimedMotionCommand, now: int64, v: SubmissionStatus)
    requires FreshDue(s) && 0 < now <= s.seen
    requires v.Accepted? || v.RecoveryPending? ==> Encode(command.motion, s.config.maxLinear).Encoded?
    ensures FreshDue(Settle(s, link, command, now, v))
  {
  }

  lemma AttemptZeroDue(s: Session, link: Link, now: int64, o: Outcome, before: CycleResult)
    requires FreshDue(s)
    ensures FreshDue(AttemptZero(s, link, now, o, before).session)
  {
  }

  lemma FailedAttemptDue(s: Session, link: Link, now: int64, o: Outcome, before: CycleResult)
    requires s.episode.Episode? ==> s.episode.attempts > 0 || s.episode.next <= Max(now, s.seen)
    ensures FreshDue(AttemptZero(s, link, now, o, before).session)
  {
  }

  // The episode after a failed motion write is attempted on the spot.
  lemma MotionFailedDue(s: Session, after: Link, now: int64, r: IoResult, second: Outcome, report: CycleResult)
    requires FreshDue(s) && 0 < now <= s.seen
    ensures FreshDue(MotionFailed(s, after, now, r, second, report).session)
  {
    var f, start := MotionFailed(s, after, now, r, second, report), Max(now, r.completion);
    var begun := BeginZero(Halt(s), after, ConnectedInhibited, start);
    FailedAttemptDue(begun, after, start, second, report);
    assert f.session == Dropped(Halt(s)) || f == AttemptZero(begun, after, start, second, report);
  }

  lemma SendMotionDue(s: Session, link: Link, now: int64, first: Outcome, second: Outcome, before: CycleResult)
    requires s.intent.Intent? && FreshDue(s) && 0 < now <= s.seen
    ensures FreshDue(SendMotion(s, link, now, first, second, before).session)
  {
    var r := ResultOf(first, now);
    var report := before.(motionAttempted := true, transportStatus := r.status,
                          motionComplete := r.hostWriteComplete, uncertain := r.outcomeUncertain);
    MotionFailedDue(s, first.after, now, r, second, report);
  }

  lemma ConnectedTickDue(s: Session, link: Link, now: int64, first: Outcome, second: Outcome, blank: CycleResult)
    requires FreshDue(s) && 0 < now <= s.seen
    ensures FreshDue(ConnectedTick(s, link, now, first, second, blank).session)
  {
    if s.episode.Episode? {
      AttemptZeroDue(s, link, now, first, blank);
    } else if s.mode.Active? && !s.latched {
      if !IsAuthorized(s) || !FeedbackIsFresh(s, now) || !CommandIsFresh(s, now) {
        var after := if !IsAuthorized(s) then ConnectedInhibited else Recovering;
        BeginZeroDue(ClearIntent(s), link, after, now);
        AttemptZeroDue(BeginZero(ClearIntent(s), link, after, now), link, now, first, blank);
      } else {
        SendMotionDue(s, link, now, first, second, blank);
      }
    }
  }

  lemma TickDue(s: Session, t: Turn)
    requires Sound(s) && s.configured && FreshDue(s) && t.call.CallTick?
    ensures FreshDue(Step(s, t).session)
  {
    var at := t.call.at;
    if ClockOk(s, at) {
      SynchronizeDue(Observe(s, at), t.link);
      var blank := CycleResult(NoAction, s.mode, Ok, false, false, false, false, false, 0);
      ConnectedTickDue(Synchronize(Observe(s, at), t.link).0, t.link, at, t.first, t.second, blank);
    } else {
      ClockFailedDue(s, t.link);
    }
  }

  lemma LatchDue(s: Session, t: Turn)
    requires Sound(s) && s.configured && FreshDue(s) && t.call.CallLatch?
    ensures FreshDue(Step(s, t).session)
  {
    var h := Halt(s).(latched := true, feedback := None);
    SynchronizeDue(if ClockOk(s, t.call.at) then Observe(h, t.call.at) else h, t.link);
  }

  lemma SubmitDue(s: Session, t: Turn)
    requires Sound(s) && FreshDue(s) && t.call.CallSubmit? && ClockOk(s, t.call.at)
    ensures FreshDue(Submit(s, t.link, t.call.command, t.call.at).0)
  {
    var at := t.call.at;
    SynchronizeDue(Observe(s, at), t.link);
    var (c, sync) := Synchronize(Observe(s, at), t.link);
    SettleDue(c, t.link, t.call.command, at, Verdict(c, sync, t.call.command, at));
  }

  // The schedule of a synchronised session is kept, or a new episode is due now.
  predicate Rescheduled(c: Session, n: Session, at: int64) {
    && n.seen == c.seen
    && (n.episode.Episode? ==>
          || n.episode.next == at
          || (c.episode.Episode? && n.episode.attempts == c.episode.attempts && n.episode.next == c.episode.next))
  }

  lemma BeginZeroReschedules(c: Session, h: Session, link: Link, after: Mode, at: int64)
    requires h.episode == c.episode && h.seen == c.seen && 0 < at
    ensures Rescheduled(c, BeginZero(h, link, after, at), at)
  {
  }

  lemma CallReschedules(s: Session, t: Turn)
    requires s.configured && ClockOk(s, t.call.at)
    requires !t.call.CallTick? && !t.call.CallLatch? && !t.call.CallSubmit?
    requires t.call.CallReset? ==> s.latched
    ensures Rescheduled(Synchronize(Observe(s, t.call.at), t.link).0, Step(s, t).session, t.call.at)
  {
    var at, link, n := t.call.at, t.link, Step(s, t).session;
    var c := Synchronize(Observe(s, at), link).0;
    var after := if IsAuthorized(c) then Recovering else RestMode(c);
    BeginZeroReschedules(c, Halt(c), link, RestMode(c), at);
    BeginZeroReschedules(c, Halt(c.(feedback := None)), link, RestMode(c), at);
    BeginZeroReschedules(c, ClearIntent(c), link, after, at);
    assert || (n.episode == c.episode && n.seen == c.seen)
           || n == BeginZero(Halt(c), link, RestMode(c), at)
           || n == BeginZero(Halt(c.(feedback := None)), link, RestMode(c), at)
           || n == BeginZero(ClearIntent(c), link, after, at);
  }

  lemma CallDue(s: Session, t: Turn)
    requires Sound(s) && s.configured && FreshDue(s) && !t.call.CallTick? && !t.call.CallLatch?
    ensures FreshDue(Step(s, t).session)
  {
    var at := t.call.at;
    if t.call.CallReset? && !s.latched {
      assert Step(s, t).session == s;
    } else if !ClockOk(s, at) {
      ClockFailedDue(s, t.link);
      assert Step(s, t).session == ClockFailed(s, t.link);
    } else if t.call.CallSubmit? {
      SubmitDue(s, t);
    } else {
      SynchronizeDue(Observe(s, at), t.link);
      CallReschedules(s, t);
    }
  }

  lemma StepDue(s: Session, t: Turn)
    requires Sound(s) && s.configured && FreshDue(s)
    ensures FreshDue(Step(s, t).session)
  {
    if t.call.CallTick? {
      TickDue(s, t);
    } else if t.call.CallLatch? {
      LatchDue(s, t);
    } else {
      CallDue(s, t);
    }
  }

  // ----- Attempts counted off the log -----

  predicate AttemptsMirrored(s: Session, log: seq<Entry>) {
    && (Met(log).None? ==> Attempts(log) == 0)
    && (s.known ==>
          && (Clean(s) ==> Attempts(log) == 0)
          && (s.mode.Faulted? ==> Attempts(log) == s.config.maxZeroAttempts)
          && (s.episode.Episode? ==>
                && s.episode.attempts == Attempts(log)
                && (s.episode.attempts > 0 ==>
                      var z := LatestZeroWrite(log);
                      z.Some? && s.episode.next == RetryTime(s.config, z.value))))
  }

  lemma AttemptsAfterCall(s: Session, n: Session, link: Link, log: seq<Entry>, e: Entry)
    requires e.Called? && e.link == link && Framed(s, n, link, e)
    requires Consistent(s, link, log) && Consistent(n, link, log + [e]) && AttemptsMirrored(s, log)
    ensures AttemptsMirrored(n, log + [e])
  {
    Snoc(log, e);
  }

  lemma AttemptsAfterZero(s: Session, link: Link, log: seq<Entry>, e: WriteEntry, n: Session, after: Link)
    requires Sound(s) && s.configured && ZeroStep(s, link, e, n, after) && Met(log).Some? && AttemptsMirrored(s, log)
    ensures AttemptsMirrored(n, log + [e])
  {
    Snoc(log, e);
  }

  lemma AttemptsAfterMotion(s: Session, link: Link, log: seq<Entry>, e: WriteEntry)
    requires Sound(s) && s.configured && Ready(s, link, e) && AttemptsMirrored(s, log)
    ensures AttemptsMirrored(MotionLeft(s, e), log + [e])
  {
    Snoc(log, e);
  }

  // ----- Whole runs -----

  // A new episode is due at once also within a cycle.
  lemma TickOpenedDue(s: Session, link: Link, now: int64)
    requires Sound(s) && s.configured && FreshDue(s) && ClockOk(s, now)
    ensures FreshDue(TickOpened(s, link, now)) && TickOpened(s, link, now).seen == now
  {
    SynchronizeDue(Observe(s, now), link);
    var c := Synchronize(Observe(s, now), link).0;
    BeginZeroDue(ClearIntent(c), link, ConnectedInhibited, now);
    BeginZeroDue(ClearIntent(c), link, Recovering, now);
  }

  predicate Punctual(s: Session, log: seq<Entry>) {
    FreshDue(s) && AttemptsMirrored(s, log)
  }

  lemma AttemptsAfterWrites(a: Session, link: Link, log: seq<Entry>, r: Stepped)
    requires Sound(a) && a.configured && CyclePhases(a, link, r) && AttemptsMirrored(a, log)
    requires r.writes != [] ==> Met(log).Some?
    ensures AttemptsMirrored(r.session, log + r.writes)
  {
    if r.writes == [] {
      assert log + r.writes == log;
    } else if |r.writes| == 2 {
      var e, z := r.writes[0], r.writes[1];
      Snoc(log, e);
      assert log + r.writes == log + [e] + [z];
      AttemptsAfterMotion(a, link, log, e);
      MotionLeftSound(a, link, e);
      AttemptsAfterZero(MotionLeft(a, e), e.outcome.after, log + [e], z, r.session, r.link);
    } else {
      assert r.writes == [r.writes[0]];
      if r.writes[0].motion {
        AttemptsAfterMotion(a, link, log, r.writes[0]);
      } else {
        AttemptsAfterZero(a, link, log, r.writes[0], r.session, r.link);
      }
    }
  }

  lemma PunctualAfterTick(s: Session, log: seq<Entry>, t: Turn)
    requires Consistent(s, t.link, log) && Punctual(s, log) && t.call.CallTick?
    requires LinkFollows(t.link, t.first.after) && LinkFollows(t.first.after, t.second.after)
    ensures var r := Step(s, t);
            Punctual(r.session, log + [CallEntry(s, t)] + r.writes)
  {
    var e, a := CallEntry(s, t), TickOpened(s, t.link, t.call.at);
    TickTold(s, log, t);
    StepDue(s, t);
    AttemptsAfterCall(s, a, t.link, log, e);
    AttemptsAfterWrites(a, t.link, log + [e], Step(s, t));
  }

  lemma PunctualAfterCall(s: Session, log: seq<Entry>, t: Turn)
    requires Consistent(s, t.link, log) && Punctual(s, log) && !t.call.CallTick?
    ensures var r := Step(s, t);
            Punctual(r.session, log + [CallEntry(s, t)] + r.writes)
  {
    var e := CallEntry(s, t);
    CallConsistent(s, log, t);
    CallFramed(s, t);
    CallQuiet(s, t);
    StepDue(s, t);
    AttemptsAfterCall(s, Step(s, t).session, t.link, log, e);
    assert log + [e] + [] == log + [e];
  }

  lemma PunctualAfterTurn(w: World, t: Turn)
    requires Consistent(w.session, w.link, w.log) && Punctual(w.session, w.log) && TurnAllowed(w.link, t)
    ensures Punctual(Next(w, t).session, Next(w, t).log)
  {
    LinkMoved(w.session, w.link, t.link, w.log);
    if t.call.CallTick? {
      PunctualAfterTick(w.session, w.log, t);
    } else {
      PunctualAfterCall(w.session, w.log, t);
    }
  }

  ghost predicate PunctualIfConfigured(config: SafetyConfig, w: World) {
    KeptIfConfigured(config, w) && (ConfigIsValid(config) ==> Punctual(w.session, w.log))
  }

  lemma ReachablePunctual(config: SafetyConfig, w: World)
    requires ConfigIsValid(config) && Reachable(config, w)
    ensures Punctual(w.session, w.log) && w.session.config == config
  {
    var punctual := iset v: World | PunctualIfConfigured(config, v);
    forall link
      ensures World(Initial(config, link), link, []) in punctual
    {
      KeptInitially(config, link);
    }
    forall v, t | v in punctual && TurnAllowed(v.link, t)
      ensures Next(v, t) in punctual
    {
      TurnKept(v, t);
      PunctualAfterTurn(v, t);
    }
    assert Closed(config, punctual);
  }
}
