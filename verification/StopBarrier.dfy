// The session knows what its log says: on a live connection an open zero episode
// is exactly an owed zero, and a permit exactly an authorization with nothing
// owed since.  What must happen before motion again follows.

module StopBarrier {
  import opened Wrappers
  import opened Protocol
  import opened TransportModel
  import opened SessionModel
  import opened Reachability
  import opened SessionInvariant
  import opened LogReading
  import opened SessionFrames

  // ----- The session against the log -----

  predicate IntentMirrored(s: Session, log: seq<Entry>) {
    var run, latest := FreshRun(s.config, log), LatestAccepted(log);
    if s.intent.Intent? then
      && run > 0 && s.intent.streak == Min(run, s.config.freshRequired)
      && latest.Some? && latest.value.call.command == s.intent.command && latest.value.call.at == s.intent.receipt
    else run == 0
  }

  predicate LinkMirrored(s: Session, log: seq<Entry>) {
    match Met(log)
    case Some(generation) => s.known && s.generation == generation
    case None =>
      && ZeroOwed(s.config, log) && AuthorizationOwed(s.config, log)
      && (s.known ==>
            s.episode.Episode? && s.episode.attempts == 0
            && s.permit.NoPermit? && s.intent.NoIntent? && s.feedback.None?)
  }

  // No motion can be written until a zero write completes.
  predicate Stopped(s: Session) {
    s.episode.Episode? || s.mode.Faulted?
  }

  predicate DebtsMirrored(s: Session, link: Link, log: seq<Entry>) {
    !Detached(s, link) ==>
      && (Stopped(s) <==> ZeroOwed(s.config, log))
      && (!s.mode.Faulted? ==> (s.permit.Permit? <==> !AuthorizationOwed(s.config, log)))
      && (s.mode.Active? ==> s.intent.Intent?)
  }

  predicate Consistent(s: Session, link: Link, log: seq<Entry>) {
    && Sound(s) && s.configured && s.generation <= link.generation
    && s.seen == LastSeen(log) && s.latched == Latched(log) && s.feedback == AllowedTime(log)
    && IntentMirrored(s, log) && LinkMirrored(s, log) && DebtsMirrored(s, link, log)
  }

  lemma DetachedStays(s: Session, before: Link, after: Link)
    requires Detached(s, before) && LinkFollows(before, after)
    requires s.known ==> s.generation != 0 && s.generation <= before.generation
    ensures Detached(s, after)
  {
  }

  // The link has moved between calls: nothing is lost.
  lemma LinkMoved(s: Session, before: Link, after: Link, log: seq<Entry>)
    requires Consistent(s, before, log) && LinkFollows(before, after)
    ensures Consistent(s, after, log)
  {
    if Detached(s, before) {
      DetachedStays(s, before, after);
    }
  }

  // ----- Calls -----

  // A synchronised session against the log before the call.
  predicate Synchronized(c: Session, link: Link, log: seq<Entry>) {
    && Sound(c) && c.configured && c.generation <= link.generation && c.latched == Latched(log)
    && (c.known <==> link.Usable()) && (c.known ==> c.generation == link.generation)
    && (if SameLink(log, link) then
          c.feedback == AllowedTime(log) && IntentMirrored(c, log) && DebtsMirrored(c, link, log)
        else
          && c.permit.NoPermit? && c.intent.NoIntent? && c.feedback.None? && (c.known ==> c.episode.Episode?)
          && (link.Usable() ==> MeetsNewLink(log, link)
                                || (ZeroOwed(c.config, log) && AuthorizationOwed(c.config, log))))
  }

  lemma SynchronizeMirrors(s: Session, link: Link, log: seq<Entry>, seen: int)
    requires Consistent(s, link, log) && s.seen <= seen <= INT64_MAX
    ensures var (c, sync) := Synchronize(s.(seen := seen), link);
            && Synchronized(c, link, log) && c.seen == seen && SameSetup(s, c)
            && (sync.Lost? <==> !link.Usable()) && (sync.NewGeneration? ==> c.episode.Episode?)
  {
    SynchronizeFacts(s.(seen := seen), link);
    SynchronizeSound(s.(seen := seen), link);
  }

  // How a call leaves a synchronised session, told by its entry.
  predicate Answered(c: Session, n: Session, link: Link, log: seq<Entry>, e: Entry)
    requires e.Called?
  {
    && Sound(n) && SameSetup(c, n) && n.known == c.known && n.generation == c.generation
    && n.latched == Latched(log + [e])
    && n.feedback == (if FeedbackAllowed(e) then Some(e.call.at)
                      else if e.call.CallLatch? || FeedbackInhibited(e) then None else c.feedback)
    && (if SubmissionAccepted(e) then
          && SameLink(log, link) && n.intent.Intent? && n.intent.command == e.call.command
          && n.intent.receipt == e.call.at && n.intent.streak == FreshCount(c, e.call.at)
        else if e.call.CallSubmit? || e.call.CallDisarm? || e.call.CallRequestStop? || e.call.CallLatch?
             || AuthorizationAccepted(e) || FeedbackInhibited(e) || FindsExpiry(c.config, log, e.call) then
          n.intent.NoIntent?
        else n.intent == c.intent)
    && (c.known ==>
          var severity := SeverityOf(c.config, log, e);
          && (Stopped(n) <==> Stopped(c) || !severity.Harmless?)
          && (c.mode.Faulted? ==> n.mode.Faulted?)
          && (!n.mode.Faulted? ==>
                (n.permit.Permit? <==>
                   AuthorizationAccepted(e) || (c.permit.Permit? && !severity.NeedsZeroAndAuthorization?)))
          && (n.mode.Active? ==> n.intent.Intent?))
  }

  lemma AnsweredConsistent(c: Session, n: Session, link: Link, log: seq<Entry>, e: Entry)
    requires e.Called? && e.link == link && LooksAtLink(log, e.call)
    requires Synchronized(c, link, log) && Answered(c, n, link, log, e)
    requires AuthorizationAccepted(e) || FeedbackAllowed(e) ==> link.Usable()
    requires AuthorizationAccepted(e) ==> !SeverityOf(c.config, log, e).NeedsZeroAndAuthorization?
    requires n.seen == LastSeen(log + [e])
    ensures Consistent(n, link, log + [e])
  {
    Snoc(log, e);
  }

  // A call with a bad time, latch aside.
  lemma ClockFailedConsistent(s: Session, link: Link, log: seq<Entry>, e: Entry)
    requires Consistent(s, link, log) && e.Called? && e.link == link && !e.call.CallLatch?
    requires ReadsClock(log, e.call) && !ClockOk(s, e.call.at)
    requires !AuthorizationAccepted(e) && !SubmissionAccepted(e) && !FeedbackAllowed(e) && !ResetAccepted(e)
    ensures Consistent(ClockFailed(s, link), link, log + [e])
  {
    Snoc(log, e);
    ClockFailedSound(s, link);
  }

  // A reset without a latch.
  lemma IgnoredConsistent(s: Session, link: Link, log: seq<Entry>, e: Entry)
    requires Consistent(s, link, log) && e.Called? && !ReadsClock(log, e.call) && e.reply == Flag(false)
    ensures Consistent(s, link, log + [e])
  {
    Snoc(log, e);
  }

  function Granted(c: Session, token: uint64, at: int64): Session {
    ClearIntent(c).(topToken := token, permit := Permit(c.generation, at), mode := Recovering)
  }

  lemma AuthorizeAnswered(c: Session, n: Session, link: Link, log: seq<Entry>, token: uint64, at: int64, reply: Reply)
    requires Synchronized(c, link, log) && Sound(n) && reply.Authorization?
    requires LooksAtLink(log, CallAuthorize(token, at)) && !ClockRegressed(log, CallAuthorize(token, at))
    requires n == if reply == Authorization(Authorized) then Granted(c, token, at) else c
    requires reply == Authorization(Authorized) ==> !Stopped(c)
    ensures Answered(c, n, link, log, Called(CallAuthorize(token, at), link, reply))
  {
    Snoc(log, Called(CallAuthorize(token, at), link, reply));
  }

  lemma AuthorizeConsistent(s: Session, log: seq<Entry>, t: Turn)
    requires Consistent(s, t.link, log) && t.call.CallAuthorize? && ClockOk(s, t.call.at)
    ensures Consistent(Step(s, t).session, t.link, log + [CallEntry(s, t)])
  {
    var e, at := CallEntry(s, t), t.call.at;
    Snoc(log, e);
    SynchronizeMirrors(s, t.link, log, Max(s.seen, at));
    var (c, sync) := Synchronize(Observe(s, at), t.link);
    AuthorizeSound(s, t.link, t.call.token, at);
    var n := if AuthorizationAccepted(e) then Granted(c, t.call.token, at) else c;
    assert Step(s, t).session == n;
    AuthorizeAnswered(c, n, t.link, log, t.call.token, at, e.reply);
    AnsweredConsistent(c, n, t.link, log, e);
  }

  lemma DisarmAnswered(c: Session, link: Link, log: seq<Entry>, at: int64, reply: Reply)
    requires Synchronized(c, link, log) && c.seen >= at > 0 && reply.Flag?
    requires LooksAtLink(log, CallDisarm(at)) && !ClockRegressed(log, CallDisarm(at))
    ensures var n := if !link.Usable() || c.mode.Faulted? then c else Inhibit(c, link, at);
            Answered(c, n, link, log, Called(CallDisarm(at), link, reply))
  {
    Snoc(log, Called(CallDisarm(at), link, reply));
    if link.Usable() {
      InhibitSound(c, link, at);
    }
  }

  lemma DisarmConsistent(s: Session, log: seq<Entry>, t: Turn)
    requires Consistent(s, t.link, log) && t.call.CallDisarm? && ClockOk(s, t.call.at)
    ensures Consistent(Step(s, t).session, t.link, log + [CallEntry(s, t)])
  {
    var e, at := CallEntry(s, t), t.call.at;
    Snoc(log, e);
    SynchronizeMirrors(s, t.link, log, Max(s.seen, at));
    var (c, sync) := Synchronize(Observe(s, at), t.link);
    var n := if !t.link.Usable() || c.mode.Faulted? then c else Inhibit(c, t.link, at);
    assert Step(s, t).session == n;
    DisarmAnswered(c, t.link, log, at, e.reply);
    AnsweredConsistent(c, n, t.link, log, e);
  }

  function StopOn(c: Session, link: Link, at: int64): Session {
    BeginZero(ClearIntent(c), link, if IsAuthorized(c) then Recovering else RestMode(c), at)
  }

  lemma RequestStopAnswered(c: Session, link: Link, log: seq<Entry>, at: int64, reply: Reply)
    requires Synchronized(c, link, log) && c.seen >= at > 0 && reply.Flag?
    requires LooksAtLink(log, CallRequestStop(at)) && !ClockRegressed(log, CallRequestStop(at))
    ensures var n := if !link.Usable() || c.mode.Faulted? then c else StopOn(c, link, at);
            Answered(c, n, link, log, Called(CallRequestStop(at), link, reply))
  {
    Snoc(log, Called(CallRequestStop(at), link, reply));
    if link.Usable() {
      BeginZeroSound(ClearIntent(c), link, if IsAuthorized(c) then Recovering else RestMode(c), at);
    }
  }

  lemma RequestStopConsistent(s: Session, log: seq<Entry>, t: Turn)
    requires Consistent(s, t.link, log) && t.call.CallRequestStop? && ClockOk(s, t.call.at)
    ensures Consistent(Step(s, t).session, t.link, log + [CallEntry(s, t)])
  {
    var e, at := CallEntry(s, t), t.call.at;
    Snoc(log, e);
    SynchronizeMirrors(s, t.link, log, Max(s.seen, at));
    var (c, sync) := Synchronize(Observe(s, at), t.link);
    var n := if !t.link.Usable() || c.mode.Faulted? then c else StopOn(c, t.link, at);
    assert Step(s, t).session == n;
    RequestStopAnswered(c, t.link, log, at, e.reply);
    AnsweredConsistent(c, n, t.link, log, e);
  }

  lemma StoredAnswered(c: Session, link: Link, log: seq<Entry>, command: TimedMotionCommand, now: int64, sync: Sync)
    requires Synchronized(c, link, log) && link.Usable() && !sync.Lost? && c.seen >= now > 0
    requires sync.NewGeneration? ==> c.episode.Episode?
    requires LooksAtLink(log, CallSubmit(command, now))
    requires var v := Verdict(c, sync, command, now); v.Accepted? || v.RecoveryPending?
    ensures var v := Verdict(c, sync, command, now);
            Answered(c, Settle(c, link, command, now, v), link, log,
                     Called(CallSubmit(command, now), link, Submission(v)))
  {
    Snoc(log, Called(CallSubmit(command, now), link, Submission(Verdict(c, sync, command, now))));
    StoredSound(c, link, command, now, sync);
  }

  // Which refusals a connected session gives.
  predicate RefusalFits(c: Session, v: SubmissionStatus) {
    && !v.Accepted? && !v.RecoveryPending? && !v.ConfigurationInvalid? && !v.Disconnected?
    && (if v.EmergencyStopLatched? then c.latched
        else if v.Faulted? then c.mode.Faulted?
        else !c.latched && !c.mode.Faulted?)
  }

  lemma VerdictFits(c: Session, command: TimedMotionCommand, now: int64, sync: Sync)
    requires c.configured && !sync.Lost?
    ensures var v := Verdict(c, sync, command, now);
            v.Accepted? || v.RecoveryPending? || RefusalFits(c, v)
  {
  }

  // What a refusal leaves behind.
  lemma RefusedFacts(c: Session, link: Link, command: TimedMotionCommand, now: int64, v: SubmissionStatus)
    requires Sound(c) && c.configured && c.known && link.connected && RefusalFits(c, v)
    ensures var n := Settle(c, link, command, now, v);
            && n.intent.NoIntent? && n.feedback == c.feedback && n.latched == c.latched
            && n.known && n.generation == c.generation
            && (n.mode.Faulted? <==> c.mode.Faulted?)
            && (Stopped(n) <==> Stopped(c) || !VerdictSeverity(v).Harmless?)
            && n.permit == (if VerdictSeverity(v).NeedsZeroAndAuthorization? then NoPermit else c.permit)
            && (n.mode.Active? ==> c.mode.Active? && !Stopped(n))
  {
  }

  lemma RefusedAnswered(c: Session, link: Link, log: seq<Entry>, command: TimedMotionCommand, now: int64, sync: Sync)
    requires Synchronized(c, link, log) && link.Usable() && !sync.Lost? && c.seen >= now > 0
    requires sync.NewGeneration? ==> c.episode.Episode?
    requires LooksAtLink(log, CallSubmit(command, now)) && !ClockRegressed(log, CallSubmit(command, now))
    requires var v := Verdict(c, sync, command, now); !v.Accepted? && !v.RecoveryPending?
    ensures var v := Verdict(c, sync, command, now);
            Answered(c, Settle(c, link, command, now, v), link, log,
                     Called(CallSubmit(command, now), link, Submission(v)))
  {
    Snoc(log, Called(CallSubmit(command, now), link, Submission(Verdict(c, sync, command, now))));
    SettleSound(c, link, command, now, sync);
    VerdictFits(c, command, now, sync);
    RefusedFacts(c, link, command, now, Verdict(c, sync, command, now));
  }

  lemma SettleAnswered(c: Session, link: Link, log: seq<Entry>, command: TimedMotionCommand, now: int64, sync: Sync)
    requires Synchronized(c, link, log) && link.Usable() && !sync.Lost? && c.seen >= now > 0
    requires sync.NewGeneration? ==> c.episode.Episode?
    requires LooksAtLink(log, CallSubmit(command, now)) && !ClockRegressed(log, CallSubmit(command, now))
    ensures var v := Verdict(c, sync, command, now);
            Answered(c, Settle(c, link, command, now, v), link, log,
                     Called(CallSubmit(command, now), link, Submission(v)))
  {
    var v := Verdict(c, sync, command, now);
    if v.Accepted? || v.RecoveryPending? {
      StoredAnswered(c, link, log, command, now, sync);
    } else {
      RefusedAnswered(c, link, log, command, now, sync);
    }
  }

  // A submission or an observation without a link.
  lemma LostAnswered(c: Session, link: Link, log: seq<Entry>, e: Entry)
    requires Synchronized(c, link, log) && !c.known && c.intent.NoIntent? && e.Called?
    requires !AuthorizationAccepted(e) && !SubmissionAccepted(e) && !ResetAccepted(e) && !FeedbackAllowed(e)
    requires !FeedbackInhibited(e) && !e.call.CallLatch?
    ensures Answered(c, c, link, log, e)
  {
    Snoc(log, e);
  }

  // A call that reads the clock, on a session synchronised for it.
  predicate Reads(c: Session, log: seq<Entry>, e: Entry, sync: Sync)
    requires e.Called?
  {
    && Synchronized(c, e.link, log) && LooksAtLink(log, e.call) && !ClockRegressed(log, e.call)
    && c.seen == LastSeen(log + [e]) && c.seen >= e.call.at > 0
    && (sync.Lost? <==> !e.link.Usable()) && (sync.NewGeneration? ==> c.episode.Episode?)
  }

  lemma CallReads(s: Session, log: seq<Entry>, e: Entry)
    requires e.Called? && Consistent(s, e.link, log) && ReadsClock(log, e.call) && ClockOk(s, e.call.at)
    ensures var (c, sync) := Synchronize(Observe(s, e.call.at), e.link);
            Reads(c, log, e, sync) && (sync.Lost? ==> c.intent.NoIntent?)
  {
    Snoc(log, e);
    SynchronizeMirrors(s, e.link, log, Max(s.seen, e.call.at));
  }

  lemma SubmitReads(c: Session, log: seq<Entry>, e: Entry, sync: Sync)
    requires e.Called? && e.call.CallSubmit? && Reads(c, log, e, sync) && (sync.Lost? ==> c.intent.NoIntent?)
    requires e.reply == Submission(Verdict(c, sync, e.call.command, e.call.at))
    ensures var v := Verdict(c, sync, e.call.command, e.call.at);
            Consistent(Settle(c, e.link, e.call.command, e.call.at, v), e.link, log + [e])
  {
    var v := Verdict(c, sync, e.call.command, e.call.at);
    var n := Settle(c, e.link, e.call.command, e.call.at, v);
    if sync.Lost? {
      assert n == c;
      LostAnswered(c, e.link, log, e);
    } else {
      assert e == Called(CallSubmit(e.call.command, e.call.at), e.link, Submission(v));
      SettleAnswered(c, e.link, log, e.call.command, e.call.at, sync);
    }
    AnsweredConsistent(c, n, e.link, log, e);
  }

  lemma SubmitConsistent(s: Session, log: seq<Entry>, t: Turn)
    requires Consistent(s, t.link, log) && t.call.CallSubmit? && ClockOk(s, t.call.at)
    ensures Consistent(Step(s, t).session, t.link, log + [CallEntry(s, t)])
  {
    var e, at := CallEntry(s, t), t.call.at;
    var (c, sync) := Synchronize(Observe(s, at), t.link);
    var v := Verdict(c, sync, t.call.command, at);
    assert e == Called(t.call, t.link, Submission(v));
    assert Step(s, t).session == Settle(c, t.link, t.call.command, at, v);
    CallReads(s, log, e);
    SubmitReads(c, log, e, sync);
  }

  lemma FeedbackReads(c: Session, log: seq<Entry>, e: Entry, sync: Sync)
    requires e.Called? && e.call.CallObserveFeedback? && Reads(c, log, e, sync)
    requires !sync.Lost? && IsFeedbackFrame(e.call.frame)
    requires e.reply == Observation(if AllowsControl(e.call.frame) then
                                      FeedbackObservation(AcceptedControlAllowed, true, true)
                                    else FeedbackObservation(AcceptedControlInhibited, true, false))
    ensures var n := if AllowsControl(e.call.frame) then c.(feedback := Some(e.call.at))
                     else Inhibit(c.(feedback := None), e.link, e.call.at);
            Consistent(n, e.link, log + [e])
  {
    Snoc(log, e);
    if AllowsControl(e.call.frame) {
      AllowedSound(c, e.call.at);
      AnsweredConsistent(c, c.(feedback := Some(e.call.at)), e.link, log, e);
    } else {
      InhibitSound(c, e.link, e.call.at);
      AnsweredConsistent(c, Inhibit(c.(feedback := None), e.link, e.call.at), e.link, log, e);
    }
  }

  // An observation that tells nothing.
  lemma UnreadConsistent(c: Session, log: seq<Entry>, e: Entry, sync: Sync)
    requires e.Called? && e.call.CallObserveFeedback? && Reads(c, log, e, sync)
    requires e.reply.Observation? && !FeedbackAllowed(e) && !FeedbackInhibited(e)
    ensures Consistent(c, e.link, log + [e])
  {
    Snoc(log, e);
    AnsweredConsistent(c, c, e.link, log, e);
  }

  lemma ObserveFeedbackConsistent(s: Session, log: seq<Entry>, t: Turn)
    requires Consistent(s, t.link, log) && t.call.CallObserveFeedback? && ClockOk(s, t.call.at)
    ensures Consistent(Step(s, t).session, t.link, log + [CallEntry(s, t)])
  {
    var e, at := CallEntry(s, t), t.call.at;
    var (c, sync) := Synchronize(Observe(s, at), t.link);
    CallReads(s, log, e);
    if sync.Lost? || !IsFeedbackFrame(t.call.frame) {
      assert Step(s, t).session == c;
      UnreadConsistent(c, log, e, sync);
    } else {
      assert Step(s, t).session == if AllowsControl(t.call.frame) then c.(feedback := Some(at))
                                   else Inhibit(c.(feedback := None), t.link, at);
      FeedbackReads(c, log, e, sync);
    }
  }

  // What a latch leaves behind.
  predicate LatchLeaves(c: Session, n: Session) {
    && SameSetup(c, n) && n.known == c.known && n.generation == c.generation && n.latched
    && n.seen == c.seen && n.permit.NoPermit? && n.intent.NoIntent? && n.feedback.None?
    && (n.mode.Faulted? <==> c.mode.Faulted?)
  }

  function LatchedAt(s: Session, seen: int): Session {
    Halt(s).(latched := true, feedback := None, seen := seen)
  }

  // Latching before or after the link is looked at.
  lemma LatchCommutes(s: Session, link: Link, seen: int)
    ensures var (c, sync) := Synchronize(s.(seen := seen), link);
            var (d, also) := Synchronize(LatchedAt(s, seen), link);
            LatchLeaves(c, d) && sync == also && (sync.Lost? <==> !link.Usable())
  {
  }

  lemma BeginLatched(c: Session, d: Session, link: Link, at: int)
    requires LatchLeaves(c, d) && d.known && link.connected && !d.mode.Faulted?
    requires Sound(BeginZero(d, link, Mode.EmergencyStopLatched, at))
    ensures var n := BeginZero(d, link, Mode.EmergencyStopLatched, at);
            LatchLeaves(c, n) && !n.mode.Active? && Stopped(n)
  {
  }

  lemma LatchFacts(s: Session, link: Link, at: int64)
    requires Sound(s) && s.configured
    ensures var seen := if ClockOk(s, at) then Max(s.seen, at) else s.seen;
            var (c, n) := (Synchronize(s.(seen := seen), link).0, LatchEmergencyStop(s, link, at));
            LatchLeaves(c, n) && Sound(n) && (c.known ==> link.connected && !n.mode.Active? && Stopped(n))
  {
    var seen, earliest := if ClockOk(s, at) then Max(s.seen, at) else s.seen, if ClockOk(s, at) then at else s.seen;
    var c := Synchronize(s.(seen := seen), link).0;
    var (d, sync) := Synchronize(LatchedAt(s, seen), link);
    assert LatchEmergencyStop(s, link, at) ==
           if sync.Lost? || d.mode.Faulted? then d else BeginZero(d, link, Mode.EmergencyStopLatched, earliest);
    LatchCommutes(s, link, seen);
    LatchSound(s, link, at);
    if link.Usable() && !d.mode.Faulted? {
      BeginLatched(c, d, link, earliest);
    }
  }

  lemma LatchAnswered(c: Session, n: Session, link: Link, log: seq<Entry>, at: int64, reply: Reply)
    requires Synchronized(c, link, log) && LatchLeaves(c, n) && Sound(n)
    requires c.known ==> !n.mode.Active? && Stopped(n)
    ensures Answered(c, n, link, log, Called(CallLatch(at), link, reply))
  {
    Snoc(log, Called(CallLatch(at), link, reply));
  }

  lemma LatchConsistent(s: Session, log: seq<Entry>, t: Turn)
    requires Consistent(s, t.link, log) && t.call.CallLatch?
    ensures Consistent(Step(s, t).session, t.link, log + [CallEntry(s, t)])
  {
    var e, at, n := CallEntry(s, t), t.call.at, LatchEmergencyStop(s, t.link, t.call.at);
    var seen := if ClockOk(s, at) then Max(s.seen, at) else s.seen;
    var c := Synchronize(s.(seen := seen), t.link).0;
    assert Step(s, t).session == n;
    Snoc(log, e);
    SynchronizeMirrors(s, t.link, log, seen);
    LatchFacts(s, t.link, at);
    LatchAnswered(c, n, t.link, log, at, e.reply);
    AnsweredConsistent(c, n, t.link, log, e);
  }

  lemma ResetConsistent(s: Session, log: seq<Entry>, t: Turn)
    requires Consistent(s, t.link, log) && t.call.CallReset? && s.latched && ClockOk(s, t.call.at)
    ensures Consistent(Step(s, t).session, t.link, log + [CallEntry(s, t)])
  {
    var e, at := CallEntry(s, t), t.call.at;
    Snoc(log, e);
    SynchronizeMirrors(s, t.link, log, Max(s.seen, at));
    var (c, sync) := Synchronize(Observe(s, at), t.link);
    ResetSound(s, t.link, t.call.token, at);
    AnsweredConsistent(c, Step(s, t).session, t.link, log, e);
  }

  // ----- The cycle -----

  lemma CycleAnswered(c: Session, link: Link, log: seq<Entry>, now: int64, reply: Reply)
    requires Synchronized(c, link, log) && link.Usable() && c.seen == now > 0
    requires reply.Cycle? && LooksAtLink(log, CallTick(now))
    ensures Answered(c, CycleOpened(c, link, now), link, log, Called(CallTick(now), link, reply))
  {
    Snoc(log, Called(CallTick(now), link, reply));
    if c.mode.Active? && !Stopped(c) && !c.latched {
      BeginZeroSound(ClearIntent(c), link, ConnectedInhibited, now);
      BeginZeroSound(ClearIntent(c), link, Recovering, now);
    }
  }

  lemma LostTickConsistent(c: Session, log: seq<Entry>, e: Entry, sync: Sync)
    requires e.Called? && e.call.CallTick? && e.reply.Cycle? && Reads(c, log, e, sync)
    requires sync.Lost? && c.intent.NoIntent?
    ensures Consistent(c, e.link, log + [e])
  {
    LostAnswered(c, e.link, log, e);
    AnsweredConsistent(c, c, e.link, log, e);
  }

  lemma CycleConsistent(c: Session, log: seq<Entry>, e: Entry, sync: Sync)
    requires e.Called? && e.call.CallTick? && e.reply.Cycle? && Reads(c, log, e, sync) && !sync.Lost?
    requires c.seen == e.call.at
    ensures var a := CycleOpened(c, e.link, e.call.at);
            Consistent(a, e.link, log + [e]) && Met(log + [e]).Some? && !Detached(a, e.link)
  {
    var a := CycleOpened(c, e.link, e.call.at);
    Snoc(log, e);
    assert e == Called(CallTick(e.call.at), e.link, e.reply);
    CycleAnswered(c, e.link, log, e.call.at, e.reply);
    AnsweredConsistent(c, a, e.link, log, e);
  }

  lemma TickOpenedConsistent(s: Session, log: seq<Entry>, t: Turn)
    requires Consistent(s, t.link, log) && t.call.CallTick?
    ensures var all := log + [CallEntry(s, t)];
            Consistent(TickOpened(s, t.link, t.call.at), t.link, all)
            && (Step(s, t).writes != [] ==> Met(all).Some? && !Detached(TickOpened(s, t.link, t.call.at), t.link))
  {
    var e, now, a := CallEntry(s, t), t.call.at, TickOpened(s, t.link, t.call.at);
    if ClockOk(s, now) {
      CallReads(s, log, e);
      var (c, sync) := Synchronize(Observe(s, now), t.link);
      if sync.Lost? {
        assert a == c && Step(s, t).writes == [];
        LostTickConsistent(c, log, e, sync);
      } else {
        assert a == CycleOpened(c, t.link, now);
        CycleConsistent(c, log, e, sync);
      }
    } else {
      assert a == ClockFailed(s, t.link) && Step(s, t).writes == [];
      ClockFailedConsistent(s, t.link, log, e);
    }
  }

  lemma ZeroStepConsistent(s: Session, link: Link, log: seq<Entry>, e: WriteEntry, n: Session, after: Link)
    requires Consistent(s, link, log) && ZeroStep(s, link, e, n, after) && Sound(n)
    requires Met(log).Some? && LinkFollows(link, after)
    ensures Consistent(n, after, log + [e]) && Met(log + [e]).Some? == n.known
  {
    Snoc(log, e);
  }

  lemma MotionConsistent(s: Session, link: Link, log: seq<Entry>, e: WriteEntry)
    requires Consistent(s, link, log) && Ready(s, link, e) && LinkFollows(link, e.outcome.after)
    ensures Consistent(MotionLeft(s, e), e.outcome.after, log + [e])
    ensures MotionLeft(s, e).known ==> Met(log + [e]).Some?
  {
    Snoc(log, e);
    MotionLeftSound(s, link, e);
  }

  // Motion is written only when nothing is owed, and a zero only when one is.
  predicate WriteOwed(config: SafetyConfig, log: seq<Entry>, e: Entry) {
    && (IsMotion(e) ==> !ZeroOwed(config, log) && !AuthorizationOwed(config, log))
    && (IsZero(e) ==> ZeroOwed(config, log) && e.frame == ZERO_FRAME)
  }

  predicate AllOwed(config: SafetyConfig, log: seq<Entry>) {
    forall j :: 0 <= j < |log| ==> WriteOwed(config, log[..j], log[j])
  }

  lemma OwedGrows(config: SafetyConfig, log: seq<Entry>, e: Entry)
    requires AllOwed(config, log) && WriteOwed(config, log, e)
    ensures AllOwed(config, log + [e])
  {
    var all := log + [e];
    forall j | 0 <= j < |all|
      ensures WriteOwed(config, all[..j], all[j])
    {
      assert j < |log| ==> all[..j] == log[..j];
      assert all[..|log|] == log;
    }
  }

  // A log that the session mirrors, with every write accounted for.
  predicate Kept(s: Session, link: Link, log: seq<Entry>) {
    Consistent(s, link, log) && AllOwed(s.config, log)
  }

  // The writes of a cycle end as its turn says.
  predicate EndAs(writes: seq<WriteEntry>, first: Outcome, second: Outcome) {
    && |writes| <= 2
    && (|writes| > 0 ==> writes[0].outcome == first)
    && (|writes| == 2 ==> writes[1].outcome == second)
  }

  lemma NoneEnds(first: Outcome, second: Outcome)
    ensures EndAs([], first, second)
  {
  }

  lemma ZeroEnds(s: Session, link: Link, now: int64, first: Outcome, second: Outcome, blank: CycleResult)
    ensures EndAs(AttemptZero(s, link, now, first, blank).writes, first, second)
  {
  }

  lemma MotionEnds(s: Session, link: Link, now: int64, first: Outcome, second: Outcome, blank: CycleResult)
    requires s.intent.Intent?
    ensures EndAs(SendMotion(s, link, now, first, second, blank).writes, first, second)
  {
  }

  lemma ConnectedEnds(s: Session, link: Link, now: int64, first: Outcome, second: Outcome, blank: CycleResult)
    ensures EndAs(ConnectedTick(s, link, now, first, second, blank).writes, first, second)
  {
    var r := ConnectedTick(s, link, now, first, second, blank);
    NoneEnds(first, second);
    ZeroEnds(s, link, now, first, second, blank);
    ZeroEnds(BeginZero(ClearIntent(s), link, ConnectedInhibited, now), link, now, first, second, blank);
    ZeroEnds(BeginZero(ClearIntent(s), link, Recovering, now), link, now, first, second, blank);
    if s.intent.Intent? {
      MotionEnds(s, link, now, first, second, blank);
    }
    assert || r.writes == []
           || r == AttemptZero(s, link, now, first, blank)
           || r == StopAndTry(s, link, ConnectedInhibited, now, first, blank)
           || r == StopAndTry(s, link, Recovering, now, first, blank)
           || (s.intent.Intent? && r == SendMotion(s, link, now, first, second, blank));
  }

  lemma TurnEnds(s: Session, t: Turn)
    ensures EndAs(Step(s, t).writes, t.first, t.second)
  {
    NoneEnds(t.first, t.second);
    if !t.call.CallTick? {
      assert Step(s, t).writes == [];
    } else {
      var (c, sync) := Synchronize(Observe(s, t.call.at), t.link);
      var blank := CycleResult(NoAction, s.mode, Ok, false, false, false, false, false, 0);
      ConnectedEnds(c, t.link, t.call.at, t.first, t.second, blank);
      assert || Step(s, t).writes == []
             || Step(s, t).writes == ConnectedTick(c, t.link, t.call.at, t.first, t.second, blank).writes;
    }
  }

  // Links follow on one another through the writes.
  predicate LinksFollow(link: Link, writes: seq<WriteEntry>) {
    && (forall k :: 0 <= k < |writes| ==> LinkFollows(link, writes[k].outcome.after))
    && (|writes| == 2 ==> LinkFollows(writes[0].outcome.after, writes[1].outcome.after))
  }

  lemma TurnLinks(s: Session, t: Turn)
    requires LinkFollows(t.link, t.first.after) && LinkFollows(t.first.after, t.second.after)
    ensures LinksFollow(t.link, Step(s, t).writes)
  {
    TurnEnds(s, t);
  }

  // All there is to know of a cycle: its entry e leads to a, its writes to r.
  ghost predicate CycleTold(s: Session, a: Session, link: Link, log: seq<Entry>, e: Entry, r: Stepped) {
    && e.Called? && e.link == link && e.call.CallTick? && Framed(s, a, link, e)
    && Consistent(a, link, log + [e]) && CyclePhases(a, link, r) && Sound(r.session)
    && (r.writes != [] ==> Met(log + [e]).Some? && !Detached(a, link))
    && LinksFollow(link, r.writes)
  }

  lemma TickTold(s: Session, log: seq<Entry>, t: Turn)
    requires Consistent(s, t.link, log) && t.call.CallTick?
    requires LinkFollows(t.link, t.first.after) && LinkFollows(t.first.after, t.second.after)
    ensures CycleTold(s, TickOpened(s, t.link, t.call.at), t.link, log, CallEntry(s, t), Step(s, t))
  {
    TickOpenedConsistent(s, log, t);
    TickPhases(s, t);
    TickFramed(s, t);
    TurnLinks(s, t);
    StepSound(s, t);
  }

  lemma KeptAfterWrites(a: Session, link: Link, log: seq<Entry>, r: Stepped)
    requires Kept(a, link, log) && CyclePhases(a, link, r) && Sound(r.session)
    requires r.writes != [] ==> Met(log).Some? && !Detached(a, link)
    requires LinksFollow(link, r.writes)
    ensures Kept(r.session, r.link, log + r.writes)
  {
    if r.writes == [] {
      assert log + r.writes == log;
    } else {
      var e := r.writes[0];
      if e.motion {
        MotionConsistent(a, link, log, e);
        OwedGrows(a.config, log, e);
        if |r.writes| == 2 {
          ZeroAfterMotion(a, link, log, r);
        } else {
          assert r.writes == [e];
        }
      } else {
        assert r.writes == [e];
        ZeroStepConsistent(a, link, log, e, r.session, r.link);
        OwedGrows(a.config, log, e);
      }
    }
  }

  lemma ZeroAfterMotion(a: Session, link: Link, log: seq<Entry>, r: Stepped)
    requires |r.writes| == 2 && CyclePhases(a, link, r) && Sound(r.session)
    requires LinkFollows(r.writes[0].outcome.after, r.writes[1].outcome.after)
    requires var e := r.writes[0];
             && Kept(MotionLeft(a, e), e.outcome.after, log + [e])
             && (MotionLeft(a, e).known ==> Met(log + [e]).Some?)
    ensures Kept(r.session, r.link, log + r.writes)
  {
    var e, z := r.writes[0], r.writes[1];
    Snoc(log, e);
    ZeroStepConsistent(MotionLeft(a, e), e.outcome.after, log + [e], z, r.session, r.link);
    OwedGrows(a.config, log + [e], z);
    assert log + [e] + [z] == log + r.writes;
  }

  // ----- Whole runs -----

  lemma CallConsistent(s: Session, log: seq<Entry>, t: Turn)
    requires Consistent(s, t.link, log) && !t.call.CallTick?
    ensures Consistent(Step(s, t).session, t.link, log + [CallEntry(s, t)])
  {
    if !ReadsClock(log, t.call) {
      IgnoredConsistent(s, t.link, log, CallEntry(s, t));
    } else if !ClockOk(s, t.call.at) && !t.call.CallLatch? {
      ClockFailedConsistent(s, t.link, log, CallEntry(s, t));
    } else {
      match t.call {
        case CallAuthorize(_, _) => AuthorizeConsistent(s, log, t);
        case CallDisarm(_) => DisarmConsistent(s, log, t);
        case CallRequestStop(_) => RequestStopConsistent(s, log, t);
        case CallSubmit(_, _) => SubmitConsistent(s, log, t);
        case CallObserveFeedback(_, _) => ObserveFeedbackConsistent(s, log, t);
        case CallLatch(_) => LatchConsistent(s, log, t);
        case CallReset(_, _) => ResetConsistent(s, log, t);
      }
    }
  }

  // Only a cycle writes.
  lemma CallQuiet(s: Session, t: Turn)
    requires !t.call.CallTick?
    ensures Step(s, t).writes == [] && Step(s, t).link == t.link
  {
  }

  lemma KeptAfterCycle(s: Session, a: Session, link: Link, log: seq<Entry>, e: Entry, r: Stepped)
    requires Kept(s, link, log) && CycleTold(s, a, link, log, e, r)
    ensures Kept(r.session, r.link, log + [e] + r.writes)
  {
    OwedGrows(s.config, log, e);
    KeptAfterWrites(a, link, log + [e], r);
  }

  lemma TickKept(s: Session, log: seq<Entry>, t: Turn)
    requires Kept(s, t.link, log) && t.call.CallTick?
    requires LinkFollows(t.link, t.first.after) && LinkFollows(t.first.after, t.second.after)
    ensures var r := Step(s, t);
            Kept(r.session, r.link, log + [CallEntry(s, t)] + r.writes)
  {
    TickTold(s, log, t);
    KeptAfterCycle(s, TickOpened(s, t.link, t.call.at), t.link, log, CallEntry(s, t), Step(s, t));
  }

  lemma CallKept(s: Session, log: seq<Entry>, t: Turn)
    requires Kept(s, t.link, log) && !t.call.CallTick?
    ensures var r := Step(s, t);
            Kept(r.session, r.link, log + [CallEntry(s, t)] + r.writes)
  {
    OwedGrows(s.config, log, CallEntry(s, t));
    CallConsistent(s, log, t);
    CallQuiet(s, t);
    assert log + [CallEntry(s, t)] + [] == log + [CallEntry(s, t)];
  }

  lemma TurnKept(w: World, t: Turn)
    requires Kept(w.session, w.link, w.log) && TurnAllowed(w.link, t)
    ensures var n := Next(w, t);
            Kept(n.session, n.link, n.log)
  {
    LinkMoved(w.session, w.link, t.link, w.log);
    if t.call.CallTick? {
      TickKept(w.session, w.log, t);
    } else {
      CallKept(w.session, w.log, t);
    }
  }

  lemma KeptInitially(config: SafetyConfig, link: Link)
    requires ConfigIsValid(config)
    ensures Kept(Initial(config, link), link, [])
  {
    SynchronizeSound(Created(config), link);
  }

  ghost predicate KeptIfConfigured(config: SafetyConfig, w: World) {
    w.session.config == config && (ConfigIsValid(config) ==> Kept(w.session, w.link, w.log))
  }

  // In every reachable world the session mirrors its log.
  lemma ReachableKept(config: SafetyConfig, w: World)
    requires ConfigIsValid(config) && Reachable(config, w)
    ensures Kept(w.session, w.link, w.log) && w.session.config == config
  {
    var kept := iset v: World | KeptIfConfigured(config, v);
    forall link
      ensures World(Initial(config, link), link, []) in kept
    {
      KeptInitially(config, link);
    }
    forall v, t | v in kept && TurnAllowed(v.link, t)
      ensures Next(v, t) in kept
    {
      TurnKept(v, t);
    }
    assert Closed(config, kept);
  }

  // ----- An invalid configuration -----

  // A call that is turned down for the configuration, and writes nothing.
  predicate Inert(e: Entry) {
    e.Called? &&
    match e.call
    case CallAuthorize(_, _) => e.reply == Authorization(AuthorizationStatus.ConfigurationInvalid)
    case CallSubmit(_, _) => e.reply == Submission(SubmissionStatus.ConfigurationInvalid)
    case CallObserveFeedback(_, _) =>
      e.reply == Observation(FeedbackObservation(FeedbackStatus.ConfigurationInvalid, false, false))
    case CallLatch(_) => e.reply == NoReply
    case CallTick(_) =>
      e.reply.Cycle? && e.reply.cycle == CycleResult(CycleAction.ConfigurationInvalid, Mode.ConfigurationInvalid,
                                                     InvalidArgument, false, false, false, false, false, 0)
    case _ => e.reply == Flag(false)
  }

  ghost predicate AllInert(config: SafetyConfig, w: World) {
    && w.session.config == config && w.session.configured == ConfigIsValid(config)
    && forall e :: e in w.log ==> Inert(e)
  }

  lemma UnconfiguredStep(s: Session, t: Turn)
    requires !s.configured
    ensures Inert(Called(t.call, t.link, Step(s, t).reply)) && Step(s, t).writes == []
  {
  }

  // A session with an invalid configuration never writes and never accepts anything.
  lemma ReachableInert(config: SafetyConfig, w: World, j: nat)
    requires !ConfigIsValid(config) && Reachable(config, w) && j < |w.log|
    ensures Inert(w.log[j])
  {
    var inert := iset v: World | AllInert(config, v);
    forall v, t | v in inert && TurnAllowed(v.link, t)
      ensures Next(v, t) in inert
    {
      UnconfiguredStep(v.session, t);
    }
    assert Closed(config, inert);
    assert w.log[j] in w.log;
  }

  lemma ConfiguredIfWriting(config: SafetyConfig, w: World, j: nat)
    requires Reachable(config, w) && j < |w.log| && w.log[j].Wrote?
    ensures ConfigIsValid(config)
  {
    if !ConfigIsValid(config) {
      ReachableInert(config, w, j);
    }
  }

  // ----- The barrier, stated on the log alone -----

  // After any event that demands it, and whatever the call returned, the next
  // motion write comes after a zero write completed later than the event, and
  // where the event revoked it, after a newly accepted authorization.
  lemma StopBarrier(config: SafetyConfig, w: World, i: nat, j: nat)
    requires Reachable(config, w) && i < j < |w.log| && IsMotion(w.log[j])
    ensures !SeverityOf(config, w.log[..i], w.log[i]).Harmless? ==>
              exists k :: i < k < j && ZeroDone(w.log[k])
    ensures SeverityOf(config, w.log[..i], w.log[i]).NeedsZeroAndAuthorization? ==>
              exists k :: i < k < j && AuthorizationAccepted(w.log[k])
  {
    ConfiguredIfWriting(config, w, j);
    ReachableKept(config, w);
    assert WriteOwed(config, w.log[..j], w.log[j]);
    assert w.log[..j][..i] == w.log[..i];
    OwedUntilPaid(config, w.log[..j], i);
  }

  // No zero is written that nothing demands.
  lemma ZerosAreOwed(config: SafetyConfig, w: World, j: nat)
    requires Reachable(config, w) && j < |w.log| && IsZero(w.log[j])
    ensures w.log[j].frame == ZERO_FRAME && ZeroOwed(config, w.log[..j])
  {
    ConfiguredIfWriting(config, w, j);
    ReachableKept(config, w);
    assert WriteOwed(config, w.log[..j], w.log[j]);
  }

  // On a live connection the session holds a permit exactly while its log shows
  // an authorization with nothing owed since, and is stopping or faulted exactly
  // while its log shows a zero owed.
  lemma PermitExactly(config: SafetyConfig, w: World)
    requires ConfigIsValid(config) && Reachable(config, w) && !Detached(w.session, w.link)
    ensures Stopped(w.session) <==> ZeroOwed(config, w.log)
    ensures !w.session.mode.Faulted? ==> (w.session.permit.Permit? <==> !AuthorizationOwed(config, w.log))
  {
    ReachableKept(config, w);
  }

  // The session's counter of fresh commands is the length of the run that the
  // log shows, capped; it stores a command exactly while there is such a run.
  lemma FreshCountIsRunLength(config: SafetyConfig, w: World)
    requires ConfigIsValid(config) && Reachable(config, w)
    ensures w.session.intent.Intent? <==> FreshRun(config, w.log) > 0
    ensures w.session.intent.Intent? ==>
              && w.session.intent.streak == Min(FreshRun(config, w.log), config.freshRequired)
              && LatestAccepted(w.log).Some?
              && LatestAccepted(w.log).value.call.command == w.session.intent.command
  {
    ReachableKept(config, w);
  }

  // The feedback the session relies on is the one its log shows.
  lemma FeedbackExactly(config: SafetyConfig, w: World)
    requires ConfigIsValid(config) && Reachable(config, w)
    ensures w.session.feedback == AllowedTime(w.log)
  {
    ReachableKept(config, w);
  }
}
