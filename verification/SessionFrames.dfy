// What one call can change at all, and what a cycle does between its writes.
// The theorems about whole runs are proved from these facts.

module SessionFrames {
  import opened Wrappers
  import opened Protocol
  import opened TransportModel
  import opened SessionModel
  import opened SessionInvariant
  import opened LogReading

  // The session's connection is gone, whether it has noticed or not.
  predicate Detached(s: Session, link: Link) {
    !s.known || !link.Usable() || link.generation != s.generation
  }

  lemma SynchronizeFacts(s: Session, link: Link)
    requires Sound(s) && s.configured
    ensures var (c, sync) := Synchronize(s, link);
            && (sync.Unchanged? <==> !Detached(s, link))
            && (sync.Unchanged? ==> c == s)
            && (sync.Lost? <==> !link.Usable())
            && (sync.Lost? ==> !c.known)
            && (sync.NewGeneration? ==> c.known && c.generation == link.generation && c.episode.Episode?)
            && (!sync.Unchanged? ==> c.permit.NoPermit? && c.intent.NoIntent? && c.feedback.None?)
            && c.seen == s.seen && c.latched == s.latched && SameSetup(s, c)
  {
  }

  // Connected, with the zero obligation met.
  predicate Clean(s: Session) {
    s.known && s.episode.NoEpisode? && !s.mode.Faulted?
  }

  // The call found another connection and started over on it.
  predicate Reattached(s: Session, n: Session, link: Link) {
    && Detached(s, link) && link.Usable()
    && n.known && n.generation == link.generation
    && n.permit.NoPermit? && n.intent.NoIntent? && n.lastMotion == 0
    && n.episode.Episode? && n.episode.attempts == 0
  }

  predicate GoneOffline(s: Session, n: Session, link: Link) {
    !link.Usable() && !n.known && n.generation == s.generation
  }

  predicate SameConnection(s: Session, n: Session, link: Link) {
    && n.known == s.known && n.generation == s.generation && n.lastMotion == s.lastMotion
    && (n.mode.Faulted? <==> s.mode.Faulted?)
    && (s.episode.Episode? ==>
          n.episode.Episode? && n.episode.attempts == s.episode.attempts && n.episode.next == s.episode.next)
    && (s.episode.NoEpisode? && n.episode.Episode? ==> !s.mode.Faulted? && n.episode.attempts == 0)
  }

  predicate PermitFramed(s: Session, n: Session, link: Link, e: Entry)
    requires e.Called?
  {
    if AuthorizationAccepted(e) then
      && n.permit == Permit(s.generation, e.call.at)
      && !Detached(s, link) && Clean(s) && !s.latched && n.intent.NoIntent?
      && 0 < e.call.at && s.seen <= e.call.at && s.feedback.Some?
    else n.permit.NoPermit? || n.permit == s.permit
  }

  predicate IntentFramed(s: Session, n: Session, link: Link, e: Entry)
    requires e.Called?
  {
    if SubmissionAccepted(e) then
      && n.intent.Intent? && n.intent.command == e.call.command
      && !Detached(s, link) && Clean(s) && s.permit.Permit? && n.permit == s.permit
      && s.permit.time < e.call.command.created
      && (n.intent.streak == 1
          || (s.intent.Intent? && s.intent.command.created < e.call.command.created
              && n.intent.streak == Min(s.intent.streak + 1, s.config.freshRequired)))
    else n.intent.NoIntent? || n.intent == s.intent
  }

  predicate MarksFramed(s: Session, n: Session, e: Entry)
    requires e.Called?
  {
    && (if AuthorizationAccepted(e) then s.topToken < e.call.token == n.topToken
        else n.topToken == s.topToken)
    && (if ResetAccepted(e) then s.topReset < e.call.token == n.topReset else n.topReset == s.topReset)
    && s.topSequence <= n.topSequence
    && (SubmissionAccepted(e) ==> s.topSequence < e.call.command.sequence == n.topSequence)
  }

  predicate FeedbackFramed(s: Session, n: Session, e: Entry)
    requires e.Called?
  {
    if FeedbackAllowed(e) then n.feedback == Some(e.call.at) && n.generation == e.link.generation
    else
      || n.feedback.None?
      || (n.feedback == s.feedback && n.generation == s.generation
          && !e.call.CallLatch? && !FeedbackInhibited(e))
  }

  // How a call without writes may change the session.
  predicate Framed(s: Session, n: Session, link: Link, e: Entry)
    requires e.Called?
  {
    && (Reattached(s, n, link) || GoneOffline(s, n, link) || SameConnection(s, n, link))
    && PermitFramed(s, n, link, e) && IntentFramed(s, n, link, e)
    && MarksFramed(s, n, e) && FeedbackFramed(s, n, e)
    && s.seen <= n.seen
    && SameSetup(s, n)
  }

  function CallEntry(s: Session, t: Turn): Entry {
    Called(t.call, t.link, Step(s, t).reply)
  }

  predicate StepFramed(s: Session, t: Turn) {
    Framed(s, Step(s, t).session, t.link, CallEntry(s, t))
  }

  predicate Neutral(e: Entry) {
    e.Called? && !AuthorizationAccepted(e) && !SubmissionAccepted(e) && !ResetAccepted(e)
  }

  // Intent and permit kept or dropped, a zero perhaps begun, nothing else.
  predicate Softened(c: Session, n: Session, link: Link) {
    && SameConnection(c, n, link) && SameSetup(c, n)
    && (n.permit.NoPermit? || n.permit == c.permit)
    && (n.intent.NoIntent? || n.intent == c.intent)
    && n.topToken == c.topToken && n.topReset == c.topReset && n.seen == c.seen
    && c.topSequence <= n.topSequence
  }

  lemma BeginZeroSoftened(c: Session, h: Session, link: Link, after: Mode, earliest: int)
    requires c.known && link.connected && SameSetup(c, h)
    requires h == c.(permit := h.permit, intent := h.intent, feedback := h.feedback, topSequence := h.topSequence)
    requires h.permit.NoPermit? || h.permit == c.permit
    requires h.intent.NoIntent? || h.intent == c.intent
    requires c.topSequence <= h.topSequence
    ensures Softened(c, BeginZero(h, link, after, earliest), link)
    ensures BeginZero(h, link, after, earliest).feedback == h.feedback
  {
  }

  // A softened synchronised state is framed against the state before the call.
  lemma SoftenedFramed(s: Session, c: Session, sync: Sync, n: Session, link: Link, e: Entry)
    requires Sound(s) && s.configured && Neutral(e)
    requires s.seen <= c.seen && (c, sync) == Synchronize(s.(seen := c.seen), link)
    requires Softened(c, n, link) && FeedbackFramed(c, n, e)
    ensures Framed(s, n, link, e)
  {
  }

  lemma ClockFailedFramed(s: Session, link: Link, e: Entry)
    requires Sound(s) && s.configured && Neutral(e) && !FeedbackAllowed(e) && !ClockOk(s, e.call.at)
    ensures Framed(s, ClockFailed(s, link), link, e)
  {
  }

  lemma AuthorizeFramed(s: Session, t: Turn)
    requires Sound(s) && s.configured && t.call.CallAuthorize?
    ensures StepFramed(s, t)
  {
    if !ClockOk(s, t.call.at) {
      ClockFailedFramed(s, t.link, CallEntry(s, t));
    } else {
      var (c, sync) := Synchronize(Observe(s, t.call.at), t.link);
      if Neutral(CallEntry(s, t)) {
        SoftenedFramed(s, c, sync, c, t.link, CallEntry(s, t));
      } else {
        SynchronizeFacts(Observe(s, t.call.at), t.link);
      }
    }
  }

  lemma DisarmFramed(s: Session, t: Turn)
    requires Sound(s) && s.configured && t.call.CallDisarm?
    ensures StepFramed(s, t)
  {
    var at, e := t.call.at, CallEntry(s, t);
    if !ClockOk(s, at) {
      ClockFailedFramed(s, t.link, e);
    } else {
      var (c, sync) := Synchronize(Observe(s, at), t.link);
      if !sync.Lost? {
        SynchronizeSound(Observe(s, at), t.link);
        BeginZeroSoftened(c, Halt(c), t.link, RestMode(c), at);
      }
      SoftenedFramed(s, c, sync, Step(s, t).session, t.link, e);
    }
  }

  lemma RequestStopFramed(s: Session, t: Turn)
    requires Sound(s) && s.configured && t.call.CallRequestStop?
    ensures StepFramed(s, t)
  {
    var at, e := t.call.at, CallEntry(s, t);
    if !ClockOk(s, at) {
      ClockFailedFramed(s, t.link, e);
    } else {
      var (c, sync) := Synchronize(Observe(s, at), t.link);
      if !sync.Lost? {
        SynchronizeSound(Observe(s, at), t.link);
        BeginZeroSoftened(c, ClearIntent(c), t.link, if IsAuthorized(c) then Recovering else RestMode(c), at);
      }
      SoftenedFramed(s, c, sync, Step(s, t).session, t.link, e);
    }
  }

  // A command turned down.
  lemma RefusalSoftened(s: Session, link: Link, command: TimedMotionCommand, now: int64, sync: Sync)
    requires s.known && link.connected
    requires var v := Verdict(s, sync, command, now); !v.Accepted? && !v.RecoveryPending?
    ensures var n := Settle(s, link, command, now, Verdict(s, sync, command, now));
            Softened(s, n, link) && n.feedback == s.feedback
  {
    var v := Verdict(s, sync, command, now);
    var c := s.(topSequence := command.sequence);
    match v
    case ConfigurationInvalid | Disconnected | EmergencyStopLatched | Faulted | NotAuthorized =>
    case SequenceInvalid => BeginZeroSoftened(s, Halt(s), link, ConnectedInhibited, now);
    case TimestampInvalid | EncodingRejected => BeginZeroSoftened(s, Halt(c), link, ConnectedInhibited, now);
    case Stale =>
      BeginZeroSoftened(s, ClearIntent(c), link, if IsAuthorized(c) then Recovering else ConnectedInhibited, now);
    case PredatesAuthorization | StopAccepted | FeedbackUnavailable =>
      BeginZeroSoftened(s, ClearIntent(c), link, Recovering, now);
  }

  lemma AcceptanceFramed(s: Session, link: Link, command: TimedMotionCommand, now: int64, e: Entry)
    requires Sound(s) && s.configured && ClockOk(s, now) && !Detached(s, link)
    requires e.Called? && e.call == CallSubmit(command, now) && SubmissionAccepted(e)
    requires var v := Verdict(Observe(s, now), Unchanged, command, now); v.Accepted? || v.RecoveryPending?
    ensures var c := Observe(s, now);
            Framed(s, Settle(c, link, command, now, Verdict(c, Unchanged, command, now)), link, e)
  {
  }

  lemma AcceptedFramed(s: Session, t: Turn)
    requires Sound(s) && s.configured && t.call.CallSubmit? && ClockOk(s, t.call.at)
    requires SubmissionAccepted(CallEntry(s, t))
    ensures StepFramed(s, t)
  {
    var at, e, c := t.call.at, CallEntry(s, t), Observe(s, t.call.at);
    SynchronizeFacts(c, t.link);
    SynchronizeSound(c, t.link);
    assert Synchronize(c, t.link) == (c, Unchanged);
    assert Step(s, t).session == Settle(c, t.link, t.call.command, at, Verdict(c, Unchanged, t.call.command, at));
    AcceptanceFramed(s, t.link, t.call.command, at, e);
  }

  lemma RefusalFramed(s: Session, t: Turn)
    requires Sound(s) && s.configured && t.call.CallSubmit? && ClockOk(s, t.call.at)
    requires !SubmissionAccepted(CallEntry(s, t))
    ensures StepFramed(s, t)
  {
    var at := t.call.at;
    var (c, sync) := Synchronize(Observe(s, at), t.link);
    var n := Settle(c, t.link, t.call.command, at, Verdict(c, sync, t.call.command, at));
    assert Step(s, t).session == n;
    if sync.Lost? {
      assert n == c;
    } else {
      SynchronizeFacts(Observe(s, at), t.link);
      RefusalSoftened(c, t.link, t.call.command, at, sync);
    }
    SoftenedFramed(s, c, sync, n, t.link, CallEntry(s, t));
  }

  lemma SubmitFramed(s: Session, t: Turn)
    requires Sound(s) && s.configured && t.call.CallSubmit?
    ensures StepFramed(s, t)
  {
    if !ClockOk(s, t.call.at) {
      ClockFailedFramed(s, t.link, CallEntry(s, t));
    } else if SubmissionAccepted(CallEntry(s, t)) {
      AcceptedFramed(s, t);
    } else {
      RefusalFramed(s, t);
    }
  }

  lemma ObservationSoftened(c: Session, link: Link, frame: seq<Byte>, at: int64, e: Entry)
    requires c.known && link.connected && IsFeedbackFrame(frame) && e.Called?
    requires c.generation == link.generation == e.link.generation
    requires e.call == CallObserveFeedback(frame, at) && (FeedbackAllowed(e) <==> AllowsControl(frame))
    ensures var n := if AllowsControl(frame) then c.(feedback := Some(at)) else Inhibit(c.(feedback := None), link, at);
            Softened(c, n, link) && FeedbackFramed(c, n, e)
  {
    BeginZeroSoftened(c, Halt(c.(feedback := None)), link, RestMode(c), at);
  }

  lemma ObserveFeedbackFramed(s: Session, t: Turn)
    requires Sound(s) && s.configured && t.call.CallObserveFeedback?
    ensures StepFramed(s, t)
  {
    var at, e := t.call.at, CallEntry(s, t);
    if !ClockOk(s, at) {
      ClockFailedFramed(s, t.link, e);
    } else {
      var (c, sync) := Synchronize(Observe(s, at), t.link);
      if sync.Lost? || !IsFeedbackFrame(t.call.frame) {
        assert Step(s, t).session == c;
        SoftenedFramed(s, c, sync, c, t.link, e);
      } else {
        var n := if AllowsControl(t.call.frame) then c.(feedback := Some(at))
                 else Inhibit(c.(feedback := None), t.link, at);
        assert Step(s, t).session == n;
        SynchronizeFacts(Observe(s, at), t.link);
        ObservationSoftened(c, t.link, t.call.frame, at, e);
        SoftenedFramed(s, c, sync, n, t.link, e);
      }
    }
  }

  lemma LatchFramed(s: Session, t: Turn)
    requires Sound(s) && s.configured && t.call.CallLatch?
    ensures StepFramed(s, t)
  {
    var at, e := t.call.at, CallEntry(s, t);
    var h := Halt(s).(latched := true, feedback := None);
    var observed := if ClockOk(s, at) then Observe(h, at) else h;
    var (c, sync) := Synchronize(observed, t.link);
    if !sync.Lost? {
      SynchronizeSound(observed, t.link);
      BeginZeroSoftened(c, c, t.link, Mode.EmergencyStopLatched, if ClockOk(s, at) then at else s.seen);
    }
    SoftenedFramed(h, c, sync, Step(s, t).session, t.link, e);
  }

  lemma ResetFramed(s: Session, t: Turn)
    requires Sound(s) && s.configured && t.call.CallReset?
    ensures StepFramed(s, t)
  {
    if !ClockOk(s, t.call.at) {
      ClockFailedFramed(s, t.link, CallEntry(s, t));
    }
  }

  // ----- Inside a cycle -----

  // A synchronised session as a cycle finds it, with motion stopped if it must be.
  function CycleOpened(c: Session, link: Link, now: int): (a: Session)
    ensures SameSetup(c, a)
  {
    if c.episode.Episode? || c.mode.Faulted? then c
    else if c.latched then c.(mode := Mode.EmergencyStopLatched)
    else if !c.mode.Active? then c
    else if !IsAuthorized(c) then BeginZero(ClearIntent(c), link, ConnectedInhibited, now)
    else if !FeedbackIsFresh(c, now) || !CommandIsFresh(c, now) then
      BeginZero(ClearIntent(c), link, Recovering, now)
    else c
  }

  // The session just before the first write of a cycle, or at its end without one.
  function TickOpened(s: Session, link: Link, now: int): (a: Session)
    ensures SameSetup(s, a)
  {
    if !ClockOk(s, now) then ClockFailed(s, link)
    else
      var (c, sync) := Synchronize(Observe(s, now), link);
      if sync.Lost? then c else CycleOpened(c, link, now)
  }

  // A zero write from a session with an open episode.
  predicate ZeroStep(s: Session, link: Link, e: WriteEntry, n: Session, after: Link) {
    && s.known && s.episode.Episode? && link.connected
    && !e.motion && e.frame == ZERO_FRAME && e.generation == link.generation
    && s.episode.next <= e.start && 0 < e.start <= INT64_MAX
    && after == e.outcome.after
    && n == ZeroLeft(s, after.connected, e.start, ResultOf(e.outcome, e.start))
  }

  // Everything a session checks before it writes motion.
  predicate Ready(s: Session, link: Link, e: WriteEntry) {
    && e.motion && s.mode.Active? && Clean(s) && IsAuthorized(s) && s.intent.Intent?
    && !Detached(s, link)
    && FeedbackIsFresh(s, e.start) && CommandIsFresh(s, e.start)
    && (s.lastMotion > 0 ==> e.start - s.lastMotion >= s.config.transmitPeriod)
    && e.frame == s.intent.frame && e.generation == link.generation
    && e.deadline == WriteDeadline(s, e.start, s.intent.command.deadline)
    && 0 < e.start <= s.seen
  }

  // What a motion write leaves behind, before any zero write in the same cycle.
  function MotionLeft(s: Session, e: WriteEntry): (n: Session)
    ensures SameSetup(s, n)
  {
    if WriteDone(e) then s.(lastMotion := MotionEnd(e), seen := Max(s.seen, MotionEnd(e)))
    else if DropsSession(e) then Dropped(Halt(s))
    else BeginZero(Halt(s), e.outcome.after, ConnectedInhibited, Max(e.start, WriteEnd(e)))
  }

  // The writes of a cycle that was at `a` before the first of them.
  predicate CyclePhases(a: Session, link: Link, r: Stepped) {
    match |r.writes|
    case 0 => r.session == a && r.link == link
    case 1 =>
      var e := r.writes[0];
      if !e.motion then ZeroStep(a, link, e, r.session, r.link)
      else
        && Ready(a, link, e) && (WriteDone(e) || DropsSession(e))
        && r.session == MotionLeft(a, e) && r.link == e.outcome.after
    case 2 =>
      var e := r.writes[0];
      && Ready(a, link, e) && !WriteDone(e) && !DropsSession(e)
      && ZeroStep(MotionLeft(a, e), e.outcome.after, r.writes[1], r.session, r.link)
    case _ => false
  }

  // Same writes, session and link, whatever the reply.
  predicate Cycled(a: Session, link: Link, r: Ticked) {
    CyclePhases(a, link, Stepped(r.session, r.link, NoReply, r.writes))
  }

  lemma AttemptPhases(a: Session, link: Link, now: int64, o: Outcome, before: CycleResult)
    requires a.known && a.episode.Episode? && link.connected && 0 < now
    ensures Cycled(a, link, AttemptZero(a, link, now, o, before))
  {
  }

  lemma MotionLeftSound(s: Session, link: Link, e: WriteEntry)
    requires Sound(s) && s.configured && Ready(s, link, e)
    ensures Sound(MotionLeft(s, e))
  {
    if !WriteDone(e) && !DropsSession(e) {
      BeginZeroSound(Halt(s), e.outcome.after, ConnectedInhibited, Max(e.start, WriteEnd(e)));
    }
  }

  lemma SendMotionPhases(s: Session, link: Link, now: int64, first: Outcome, second: Outcome, blank: CycleResult)
    requires Sound(s) && s.configured && 0 < now <= s.seen
    requires s.mode.Active? && Clean(s) && IsAuthorized(s) && s.intent.Intent? && !Detached(s, link)
    requires FeedbackIsFresh(s, now) && CommandIsFresh(s, now)
    requires s.lastMotion > 0 ==> now - s.lastMotion >= s.config.transmitPeriod
    ensures Cycled(s, link, SendMotion(s, link, now, first, second, blank))
  {
  }

  lemma StopAndTryPhases(s: Session, link: Link, after: Mode, now: int64, o: Outcome, blank: CycleResult)
    requires Sound(s) && s.configured && s.known && link.Usable() && s.generation == link.generation
    requires s.mode.Active? && !s.latched && 0 < now && (after.ConnectedInhibited? || after.Recovering?)
    ensures var a := BeginZero(ClearIntent(s), link, after, now);
            Sound(a) && Cycled(a, link, StopAndTry(s, link, after, now, o, blank))
  {
    BeginZeroSound(ClearIntent(s), link, after, now);
    AttemptPhases(BeginZero(ClearIntent(s), link, after, now), link, now, o, blank);
  }

  lemma ConnectedTickPhases(s: Session, link: Link, now: int64, first: Outcome, second: Outcome, blank: CycleResult)
    requires Sound(s) && s.configured && s.known && link.Usable() && s.generation == link.generation
    requires 0 < now <= s.seen
    ensures Sound(CycleOpened(s, link, now))
    ensures Cycled(CycleOpened(s, link, now), link, ConnectedTick(s, link, now, first, second, blank))
  {
    var a, r := CycleOpened(s, link, now), ConnectedTick(s, link, now, first, second, blank);
    if s.episode.Episode? {
      assert a == s && r == AttemptZero(s, link, now, first, blank);
      AttemptPhases(s, link, now, first, blank);
    } else if s.mode.Active? && !s.latched {
      if !IsAuthorized(s) || !FeedbackIsFresh(s, now) || !CommandIsFresh(s, now) {
        var after := if !IsAuthorized(s) then ConnectedInhibited else Recovering;
        assert a == BeginZero(ClearIntent(s), link, after, now);
        assert r == StopAndTry(s, link, after, now, first, blank);
        StopAndTryPhases(s, link, after, now, first, blank);
      } else if !(s.lastMotion > 0 && now - s.lastMotion < s.config.transmitPeriod) {
        assert a == s && r == SendMotion(s, link, now, first, second, blank);
        SendMotionPhases(s, link, now, first, second, blank);
      }
    }
  }

  lemma CycleOpenedSoftened(s: Session, link: Link, now: int)
    requires s.known && link.connected
    ensures Softened(s, CycleOpened(s, link, now), link) && CycleOpened(s, link, now).feedback == s.feedback
  {
    BeginZeroSoftened(s, ClearIntent(s), link, ConnectedInhibited, now);
    BeginZeroSoftened(s, ClearIntent(s), link, Recovering, now);
  }

  lemma CycledPhases(a: Session, link: Link, r: Ticked, step: Stepped)
    requires Cycled(a, link, r)
    requires step.session == r.session && step.link == r.link && step.writes == r.writes
    ensures CyclePhases(a, link, step)
  {
  }

  lemma AttachedPhases(s: Session, t: Turn)
    requires Sound(s) && s.configured && t.call.CallTick? && ClockOk(s, t.call.at) && t.link.Usable()
    ensures var a := TickOpened(s, t.link, t.call.at);
            Sound(a) && CyclePhases(a, t.link, Step(s, t))
  {
    var now := t.call.at;
    var c := Synchronize(Observe(s, now), t.link).0;
    var blank := CycleResult(NoAction, s.mode, Ok, false, false, false, false, false, 0);
    var r := ConnectedTick(c, t.link, now, t.first, t.second, blank);
    assert TickOpened(s, t.link, now) == CycleOpened(c, t.link, now);
    assert Step(s, t).session == r.session && Step(s, t).link == r.link && Step(s, t).writes == r.writes;
    SynchronizeSound(Observe(s, now), t.link);
    SynchronizeFacts(Observe(s, now), t.link);
    ConnectedTickPhases(c, t.link, now, t.first, t.second, blank);
    CycledPhases(CycleOpened(c, t.link, now), t.link, r, Step(s, t));
  }

  lemma TickPhases(s: Session, t: Turn)
    requires Sound(s) && s.configured && t.call.CallTick?
    ensures Sound(TickOpened(s, t.link, t.call.at))
    ensures CyclePhases(TickOpened(s, t.link, t.call.at), t.link, Step(s, t))
  {
    var now := t.call.at;
    if !ClockOk(s, now) {
      ClockFailedSound(s, t.link);
    } else if t.link.Usable() {
      AttachedPhases(s, t);
    } else {
      SynchronizeSound(Observe(s, now), t.link);
    }
  }

  lemma TickFramed(s: Session, t: Turn)
    requires Sound(s) && s.configured && t.call.CallTick?
    ensures Framed(s, TickOpened(s, t.link, t.call.at), t.link, CallEntry(s, t))
  {
    var now, e := t.call.at, CallEntry(s, t);
    if !ClockOk(s, now) {
      ClockFailedFramed(s, t.link, e);
    } else {
      var (c, sync) := Synchronize(Observe(s, now), t.link);
      if !sync.Lost? {
        SynchronizeSound(Observe(s, now), t.link);
        CycleOpenedSoftened(c, t.link, now);
      }
      SoftenedFramed(s, c, sync, TickOpened(s, t.link, now), t.link, e);
    }
  }

  lemma CallFramed(s: Session, t: Turn)
    requires Sound(s) && s.configured && !t.call.CallTick?
    ensures StepFramed(s, t)
  {
    match t.call {
      case CallAuthorize(_, _) => AuthorizeFramed(s, t);
      case CallDisarm(_) => DisarmFramed(s, t);
      case CallRequestStop(_) => RequestStopFramed(s, t);
      case CallSubmit(_, _) => SubmitFramed(s, t);
      case CallObserveFeedback(_, _) => ObserveFeedbackFramed(s, t);
      case CallLatch(_) => LatchFramed(s, t);
      case CallReset(_, _) => ResetFramed(s, t);
    }
  }
}
