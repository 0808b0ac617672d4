// The rest of what a session keeps, against its log: high-water marks, the time
// of its authorization, the end of its last motion write, and its mode.

module SessionMarks {
  import opened Wrappers
  import opened Protocol
  import opened TransportModel
  import opened SessionModel
  import opened SessionInvariant
  import opened LogReading
  import opened SessionFrames
  import opened StopBarrier
  import opened SessionProgress
  import opened Answers

  // ----- Marks -----

  predicate PermitMarked(s: Session, log: seq<Entry>) {
    s.permit.Permit? ==>
      var a := LatestAuthorization(log);
      a.Some? && a.value.call.at == s.permit.time
  }

  predicate Marked(s: Session, log: seq<Entry>) {
    && s.topToken == TopToken(log) && s.topReset == TopReset(log) && s.topSequence == TopSequence(s.config, log)
    && s.lastMotion == LastMotion(log) && (Met(log).None? ==> LastMotion(log) == 0) && PermitMarked(s, log)
  }

  // A session that a call finds faulted is one whose connection is spent.
  lemma FaultedIfSpent(s: Session, link: Link, log: seq<Entry>)
    requires Consistent(s, link, log) && AttemptsMirrored(s, log) && link.Usable()
    ensures Synchronize(s, link).0.mode.Faulted? <==> Spent(s.config, log, link)
  {
    SynchronizeFacts(s, link);
  }

  // Which submissions have their sequence number looked at.
  lemma SequenceLooked(s: Session, link: Link, command: TimedMotionCommand, at: int64)
    requires s.configured && ClockOk(s, at)
    ensures var (c, sync) := Synchronize(Observe(s, at), link);
            Submit(s, link, command, at).0.topSequence ==
            if !sync.Lost? && !c.latched && !c.mode.Faulted? && command.sequence > s.topSequence
            then command.sequence else s.topSequence
  {
    var (c, sync) := Synchronize(Observe(s, at), link);
    SettleSequence(c, link, command, at, sync);
  }

  lemma SettleSequence(c: Session, link: Link, command: TimedMotionCommand, at: int64, sync: Sync)
    requires c.configured
    ensures Settle(c, link, command, at, Verdict(c, sync, command, at)).topSequence ==
            if !sync.Lost? && !c.latched && !c.mode.Faulted? && command.sequence > c.topSequence
            then command.sequence else c.topSequence
  {
    var v := Verdict(c, sync, command, at);
    VerdictConsumes(c, sync, command, at);
    SettleConsumes(c, link, command, at, v);
  }

  // The refusals that come before the sequence number is looked at, or name it.
  predicate LeavesSequence(v: SubmissionStatus) {
    v.ConfigurationInvalid? || v.Disconnected? || v.EmergencyStopLatched? || v.Faulted? || v.SequenceInvalid?
  }

  lemma VerdictConsumes(c: Session, sync: Sync, command: TimedMotionCommand, at: int64)
    requires c.configured
    ensures LeavesSequence(Verdict(c, sync, command, at)) <==>
            sync.Lost? || c.latched || c.mode.Faulted? || command.sequence <= c.topSequence
  {
  }

  lemma SettleConsumes(c: Session, link: Link, command: TimedMotionCommand, at: int64, v: SubmissionStatus)
    requires v.Accepted? || v.RecoveryPending? ==> Encode(command.motion, c.config.maxLinear).Encoded?
    ensures Settle(c, link, command, at, v).topSequence == if LeavesSequence(v) then c.topSequence else command.sequence
  {
  }

  lemma ConnectionKeepsSequence(s: Session, link: Link)
    ensures Synchronize(s, link).0.topSequence == s.topSequence
    ensures ClockFailed(s, link).topSequence == s.topSequence
  {
  }

  lemma StopsKeepSequence(s: Session, link: Link, at: int64)
    ensures Disarm(s, link, at).0.topSequence == s.topSequence
    ensures RequestStop(s, link, at).0.topSequence == s.topSequence
  {
    ConnectionKeepsSequence(Observe(s, at), link);
    ConnectionKeepsSequence(s, link);
  }

  lemma LatchKeepsSequence(s: Session, link: Link, at: int64)
    ensures LatchEmergencyStop(s, link, at).topSequence == s.topSequence
  {
    var h := Halt(s).(latched := true, feedback := None);
    ConnectionKeepsSequence(if ClockOk(s, at) then Observe(h, at) else h, link);
  }

  lemma TokensKeepSequence(s: Session, link: Link, token: uint64, at: int64)
    ensures Authorize(s, link, token, at).0.topSequence == s.topSequence
    ensures ResetEmergencyStop(s, link, token, at).0.topSequence == s.topSequence
  {
    ConnectionKeepsSequence(Observe(s, at), link);
    ConnectionKeepsSequence(s, link);
  }

  lemma FeedbackKeepsSequence(s: Session, link: Link, frame: seq<Byte>, at: int64)
    ensures ObserveFeedback(s, link, frame, at).0.topSequence == s.topSequence
  {
    ConnectionKeepsSequence(Observe(s, at), link);
    ConnectionKeepsSequence(s, link);
  }

  // No other call looks at a sequence number.
  lemma SequenceKept(s: Session, t: Turn)
    requires !t.call.CallSubmit? && !t.call.CallTick?
    ensures Step(s, t).session.topSequence == s.topSequence
  {
    match t.call
    case CallAuthorize(token, at) => TokensKeepSequence(s, t.link, token, at);
    case CallReset(token, at) => TokensKeepSequence(s, t.link, token, at);
    case CallLatch(at) => LatchKeepsSequence(s, t.link, at);
    case CallObserveFeedback(frame, at) => FeedbackKeepsSequence(s, t.link, frame, at);
    case CallDisarm(at) => StopsKeepSequence(s, t.link, at);
    case CallRequestStop(at) => StopsKeepSequence(s, t.link, at);
  }

  lemma OpeningKeepsSequence(s: Session, link: Link, now: int64)
    ensures TickOpened(s, link, now).topSequence == s.topSequence
  {
    ConnectionKeepsSequence(Observe(s, now), link);
    ConnectionKeepsSequence(s, link);
  }

  // A call that looks at a link that is gone forgets the connection.
  lemma LostIsForgotten(s: Session, t: Turn)
    requires s.configured && !t.link.Usable() && !t.call.CallTick?
    requires t.call.CallLatch? || (ClockOk(s, t.call.at) && (t.call.CallReset? ==> s.latched))
    ensures !Step(s, t).session.known
  {
    if t.call.CallLatch? {
      var h := Halt(s).(latched := true, feedback := None);
      assert Step(s, t).session == Dropped(if ClockOk(s, t.call.at) then Observe(h, t.call.at) else h);
    } else {
      assert Synchronize(Observe(s, t.call.at), t.link) == (Dropped(Observe(s, t.call.at)), Lost);
      assert Step(s, t).session == Dropped(Observe(s, t.call.at));
    }
  }

  // ----- Marks after each entry -----

  lemma MarkedAfterCall(s: Session, n: Session, link: Link, log: seq<Entry>, e: Entry)
    requires e.Called? && e.link == link && Framed(s, n, link, e)
    requires Consistent(s, link, log) && Consistent(n, link, log + [e]) && Marked(s, log)
    requires n.topSequence == TopSequence(s.config, log + [e])
    requires LooksAtLink(log, e.call) && !link.Usable() ==> !n.known
    ensures Marked(n, log + [e])
  {
    Snoc(log, e);
  }

  lemma MarkedAfterZero(s: Session, link: Link, log: seq<Entry>, e: WriteEntry, n: Session, after: Link)
    requires Marked(s, log) && ZeroStep(s, link, e, n, after) && Met(log).Some?
    ensures Marked(n, log + [e])
  {
    Snoc(log, e);
  }

  lemma MarkedAfterMotion(s: Session, link: Link, log: seq<Entry>, e: WriteEntry)
    requires Marked(s, log) && Ready(s, link, e) && Met(log).Some?
    ensures Marked(MotionLeft(s, e), log + [e])
  {
    Snoc(log, e);
  }

  // ----- Modes -----

  // What a permit asks for once the zeros are out.
  function ModeToRest(s: Session): Mode {
    if s.permit.Permit? then Recovering else ConnectedInhibited
  }

  // A session without a latch returns from a zero episode to where its permit
  // says, and shows its mode otherwise.
  predicate AtRest(s: Session) {
    && (s.episode.Episode? && !s.latched ==> s.episode.after == ModeToRest(s))
    && (Clean(s) && s.latched ==> s.mode.EmergencyStopLatched?)
    && (Clean(s) && !s.latched ==> s.mode == ModeToRest(s) || (s.permit.Permit? && s.mode.Active?))
  }

  predicate Rests(s: Session, link: Link) {
    !Detached(s, link) ==> AtRest(s)
  }

  lemma BeginZeroRests(c: Session, h: Session, link: Link, after: Mode, at: int)
    requires AtRest(c) && EpisodeSound(c) && c.known && link.connected
    requires h == c.(permit := h.permit, intent := h.intent, feedback := h.feedback, topSequence := h.topSequence)
    requires h.permit.NoPermit? || h.permit == c.permit
    requires !c.latched ==> after == ModeToRest(h)
    ensures AtRest(BeginZero(h, link, after, at))
  {
  }

  lemma SynchronizeRests(s: Session, link: Link)
    requires Sound(s) && s.configured && Rests(s, link) && link.Usable()
    ensures var c := Synchronize(s, link).0;
            AtRest(c) && Sound(c) && c.known && c.generation == link.generation
  {
    SynchronizeSound(s, link);
    SynchronizeFacts(s, link);
  }

  lemma ClockFailedRests(s: Session, link: Link)
    requires Sound(s) && s.configured && Rests(s, link)
    ensures Rests(ClockFailed(s, link), link)
  {
    if !Detached(s, link) {
      BeginZeroRests(s, Halt(s).(feedback := None), link, RestMode(s), s.seen);
    }
  }

  // What a stop, a latch, an observation or a token does on a connection.
  lemma StopsRest(c: Session, link: Link, at: int64)
    requires Sound(c) && c.configured && AtRest(c) && c.known && link.connected
    ensures AtRest(Inhibit(c, link, at)) && AtRest(Inhibit(c.(feedback := None), link, at))
    ensures !c.mode.Faulted? ==> AtRest(StopOn(c, link, at))
  {
    BeginZeroRests(c, Halt(c), link, RestMode(c), at);
    BeginZeroRests(c, Halt(c.(feedback := None)), link, RestMode(c), at);
    if !c.mode.Faulted? {
      BeginZeroRests(c, ClearIntent(c), link, if IsAuthorized(c) then Recovering else RestMode(c), at);
    }
  }

  lemma LatchRests(s: Session, link: Link, at: int64)
    requires Sound(s) && s.configured
    ensures Rests(LatchEmergencyStop(s, link, at), link)
  {
    LatchFacts(s, link, at);
  }

  lemma SettleRests(c: Session, link: Link, command: TimedMotionCommand, at: int64, sync: Sync)
    requires Sound(c) && c.configured && AtRest(c) && c.known && link.connected && !sync.Lost?
    ensures AtRest(Settle(c, link, command, at, Verdict(c, sync, command, at)))
  {
    var v, n := Verdict(c, sync, command, at), c.(topSequence := command.sequence);
    VerdictFits(c, command, at, sync);
    match v
    case SequenceInvalid => BeginZeroRests(c, Halt(c), link, ConnectedInhibited, at);
    case TimestampInvalid | EncodingRejected => BeginZeroRests(c, Halt(n), link, ConnectedInhibited, at);
    case Stale =>
      BeginZeroRests(c, ClearIntent(n), link, if IsAuthorized(n) then Recovering else ConnectedInhibited, at);
    case PredatesAuthorization | StopAccepted | FeedbackUnavailable =>
      BeginZeroRests(c, ClearIntent(n), link, Recovering, at);
    case _ =>
  }

  lemma TokenCallRests(s: Session, t: Turn)
    requires Sound(s) && s.configured && Rests(s, t.link) && t.link.Usable() && ClockOk(s, t.call.at)
    requires t.call.CallAuthorize? || (t.call.CallReset? && s.latched)
    ensures AtRest(Step(s, t).session)
  {
    var at, n := t.call.at, Step(s, t).session;
    SynchronizeRests(Observe(s, at), t.link);
    var c := Synchronize(Observe(s, at), t.link).0;
    assert || n == c || n == Granted(c, t.call.token, at)
           || (t.call.CallReset?
               && n == Halt(c).(topReset := t.call.token, latched := false, mode := ConnectedInhibited));
  }

  lemma StopCallRests(s: Session, t: Turn)
    requires Sound(s) && s.configured && Rests(s, t.link) && t.link.Usable() && ClockOk(s, t.call.at)
    requires t.call.CallDisarm? || t.call.CallRequestStop? || t.call.CallObserveFeedback?
    ensures AtRest(Step(s, t).session)
  {
    var at, n := t.call.at, Step(s, t).session;
    SynchronizeRests(Observe(s, at), t.link);
    var c := Synchronize(Observe(s, at), t.link).0;
    StopsRest(c, t.link, at);
    assert || n == c || n == c.(feedback := Some(at))
           || n == Inhibit(c, t.link, at)
           || n == Inhibit(c.(feedback := None), t.link, at)
           || (!c.mode.Faulted? && n == StopOn(c, t.link, at));
  }

  lemma CallRests(s: Session, t: Turn)
    requires Sound(s) && s.configured && Rests(s, t.link) && !t.call.CallTick?
    ensures Rests(Step(s, t).session, t.link)
  {
    var at := t.call.at;
    if t.call.CallReset? && !s.latched {
      assert Step(s, t).session == s;
    } else if t.call.CallLatch? {
      LatchRests(s, t.link, at);
    } else if !ClockOk(s, at) {
      assert Step(s, t).session == ClockFailed(s, t.link);
      ClockFailedRests(s, t.link);
    } else if !t.link.Usable() {
      LostIsForgotten(s, t);
    } else if t.call.CallSubmit? {
      SynchronizeRests(Observe(s, at), t.link);
      var (c, sync) := Synchronize(Observe(s, at), t.link);
      assert Step(s, t).session == Settle(c, t.link, t.call.command, at, Verdict(c, sync, t.call.command, at));
      SettleRests(c, t.link, t.call.command, at, sync);
    } else if t.call.CallAuthorize? || t.call.CallReset? {
      TokenCallRests(s, t);
    } else {
      StopCallRests(s, t);
    }
  }

  lemma OpenedRests(s: Session, link: Link, now: int64)
    requires Sound(s) && s.configured && Rests(s, link)
    ensures Rests(TickOpened(s, link, now), link)
  {
    if !ClockOk(s, now) {
      ClockFailedRests(s, link);
    } else if link.Usable() {
      SynchronizeRests(Observe(s, now), link);
      CycleRests(Synchronize(Observe(s, now), link).0, link, now);
    }
  }

  lemma CycleRests(c: Session, link: Link, now: int64)
    requires Sound(c) && c.configured && AtRest(c) && c.known && link.connected
    ensures AtRest(CycleOpened(c, link, now))
  {
    var a := CycleOpened(c, link, now);
    if c.mode.Active? && !c.latched && c.permit.Permit? {
      BeginZeroRests(c, ClearIntent(c), link, Recovering, now);
      assert a == c || a == BeginZero(ClearIntent(c), link, Recovering, now);
    } else {
      assert a == c || a == c.(mode := Mode.EmergencyStopLatched);
    }
  }

  lemma ZeroRests(s: Session, link: Link, e: WriteEntry, n: Session, after: Link)
    requires AtRest(s) && ZeroStep(s, link, e, n, after)
    ensures Rests(n, after)
  {
  }

  lemma MotionRests(s: Session, link: Link, e: WriteEntry)
    requires Sound(s) && Rests(s, link) && Ready(s, link, e)
    ensures Rests(MotionLeft(s, e), e.outcome.after) && (MotionLeft(s, e).known ==> AtRest(MotionLeft(s, e)))
  {
    if !WriteDone(e) && !DropsSession(e) {
      BeginZeroRests(s, Halt(s), e.outcome.after, ConnectedInhibited, Max(e.start, WriteEnd(e)));
    }
  }

  lemma LinkRests(s: Session, before: Link, after: Link)
    requires Sound(s) && s.configured && Rests(s, before) && LinkFollows(before, after)
    requires s.generation <= before.generation
    ensures Rests(s, after)
  {
    if Detached(s, before) {
      DetachedStays(s, before, after);
    }
  }

  // The mode is the one the log shows, on a live connection or without any.
  lemma ModeMirrored(s: Session, link: Link, log: seq<Entry>)
    requires Consistent(s, link, log) && AttemptsMirrored(s, log) && Rests(s, link)
    requires if s.known then Met(log).Some? && !Detached(s, link) else true
    ensures s.mode == ModeDue(s.config, log)
  {
  }
}
