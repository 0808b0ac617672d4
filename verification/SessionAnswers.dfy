// The session answers every call, and writes in every cycle, exactly as its log
// demands: the theorems that say what must happen, not only what must not.

module SessionAnswers {
  import opened Wrappers
  import opened Protocol
  import opened TransportModel
  import opened SessionModel
  import opened Reachability
  import opened SessionInvariant
  import opened LogReading
  import opened SessionFrames
  import opened StopBarrier
  import opened SessionProgress
  import opened SessionMarks
  import opened Answers

  // ----- A synchronised session against the log before the call -----

  predicate MarkedFor(c: Session, link: Link, log: seq<Entry>) {
    && c.topToken == TopToken(log) && c.topReset == TopReset(log) && c.topSequence == TopSequence(c.config, log)
    && PermitMarked(c, log) && (link.Usable() ==> (c.mode.Faulted? <==> Spent(c.config, log, link)))
  }

  lemma CallMarked(s: Session, link: Link, log: seq<Entry>, at: int64)
    requires Consistent(s, link, log) && AttemptsMirrored(s, log) && Marked(s, log) && ClockOk(s, at)
    ensures MarkedFor(Synchronize(Observe(s, at), link).0, link, log)
  {
    ConnectionKeepsSequence(Observe(s, at), link);
    if link.Usable() {
      FaultedIfSpent(s, link, log);
    }
  }

  lemma RegressedIfBad(s: Session, link: Link, log: seq<Entry>, call: Call)
    requires Consistent(s, link, log) && ReadsClock(log, call)
    ensures ClockRegressed(log, call) <==> !ClockOk(s, call.at)
  {
  }

  // ----- Commands -----

  // Within a valid configuration, fitting the wire is no further condition.
  lemma LimitsAreAll(config: SafetyConfig, motion: MotionCommand)
    requires ConfigIsValid(config)
    ensures MotionAllowed(config, motion) <==> WithinLimits(config, motion)
  {
  }

  // What a synchronised session knows of authorization and run on the link it
  // shares with its log.
  lemma ClearedIfAuthorized(c: Session, log: seq<Entry>, e: Entry, sync: Sync)
    requires e.Called? && Reads(c, log, e, sync) && MarkedFor(c, e.link, log) && e.link.Usable() && !c.mode.Faulted?
    ensures IsAuthorized(c) && c.episode.NoEpisode? && !sync.NewGeneration? <==> Cleared(c.config, log, e.link)
  {
  }

  lemma FeedbackTimelyIfFresh(c: Session, log: seq<Entry>, e: Entry, sync: Sync)
    requires e.Called? && Reads(c, log, e, sync) && SameLink(log, e.link)
    ensures FeedbackIsFresh(c, e.call.at) <==> FeedbackTimely(c.config, log, e.call.at)
  {
  }

  lemma RunKnown(c: Session, log: seq<Entry>, e: Entry, sync: Sync)
    requires e.Called? && Reads(c, log, e, sync) && SameLink(log, e.link)
    ensures var at := e.call.at;
            && (c.intent.Intent? && !PredecessorStale(c, at) <==> RunGoesOn(c.config, log, at))
            && (FreshCount(c, at) >= c.config.freshRequired <==> RunWith(c.config, log, at) >= c.config.freshRequired)
            && (c.intent.Intent? ==>
                  LatestAccepted(log).Some? && LatestAccepted(log).value.call.command == c.intent.command)
  {
  }

  // The status of a command that is neither malformed nor late.
  lemma TimelyAnswered(c: Session, log: seq<Entry>, e: Entry, sync: Sync)
    requires e.Called? && e.call.CallSubmit? && Reads(c, log, e, sync) && MarkedFor(c, e.link, log)
    requires Cleared(c.config, log, e.link) && !c.mode.Faulted? && !c.latched
    requires e.call.command.sequence > c.topSequence
    requires WellTimed(e.call.command, e.call.at) && InTime(c.config, e.call.command, e.call.at)
    ensures TimelyVerdict(c, sync, e.call.command, e.call.at) == SubmissionDue(c.config, log, e.call, e.link)
  {
    ClearedIfAuthorized(c, log, e, sync);
    FeedbackTimelyIfFresh(c, log, e, sync);
    RunKnown(c, log, e, sync);
    LimitsAreAll(c.config, e.call.command.motion);
  }

  lemma SubmissionAnswered(c: Session, log: seq<Entry>, e: Entry, sync: Sync)
    requires e.Called? && e.call.CallSubmit? && Reads(c, log, e, sync) && MarkedFor(c, e.link, log)
    ensures Verdict(c, sync, e.call.command, e.call.at) == SubmissionDue(c.config, log, e.call, e.link)
  {
    if e.link.Usable() && !c.mode.Faulted? {
      ClearedIfAuthorized(c, log, e, sync);
      var command, at := e.call.command, e.call.at;
      if Cleared(c.config, log, e.link) && !c.latched && command.sequence > c.topSequence
         && WellTimed(command, at) && InTime(c.config, command, at) {
        TimelyAnswered(c, log, e, sync);
      }
    }
  }

  // ----- Other calls -----

  lemma AuthorizationAnswered(c: Session, log: seq<Entry>, e: Entry, sync: Sync)
    requires e.Called? && e.call.CallAuthorize? && Reads(c, log, e, sync) && MarkedFor(c, e.link, log)
    requires !sync.Lost? && !c.latched && !c.mode.Faulted?
    ensures c.episode.Episode? || sync.NewGeneration? <==> !SameLink(log, e.link) || ZeroOwed(c.config, log)
    ensures SameLink(log, e.link) ==> (FeedbackIsFresh(c, e.call.at) <==> FeedbackTimely(c.config, log, e.call.at))
  {
  }

  // A call whose time is bad is answered without a look at anything else.
  lemma BadTimeReply(s: Session, t: Turn, log: seq<Entry>)
    requires s.configured && !t.call.CallTick? && !ClockOk(s, t.call.at) && (t.call.CallReset? ==> s.latched)
    requires Latched(log) == s.latched && ClockRegressed(log, t.call)
    ensures Step(s, t).reply == ReplyDue(s.config, log, t.call, t.link)
  {
  }

  lemma SubmitReply(s: Session, t: Turn, log: seq<Entry>, c: Session, sync: Sync)
    requires s.configured && t.call.CallSubmit? && ClockOk(s, t.call.at)
    requires (c, sync) == Synchronize(Observe(s, t.call.at), t.link)
    requires Reads(c, log, CallEntry(s, t), sync) && MarkedFor(c, t.link, log)
    ensures Step(s, t).reply == ReplyDue(s.config, log, t.call, t.link)
  {
    SubmissionAnswered(c, log, CallEntry(s, t), sync);
    assert Step(s, t).reply == Submission(Verdict(c, sync, t.call.command, t.call.at));
  }

  lemma AuthorizeReply(s: Session, t: Turn, log: seq<Entry>, c: Session, sync: Sync)
    requires s.configured && t.call.CallAuthorize? && ClockOk(s, t.call.at)
    requires (c, sync) == Synchronize(Observe(s, t.call.at), t.link)
    requires Reads(c, log, CallEntry(s, t), sync) && MarkedFor(c, t.link, log)
    ensures Step(s, t).reply == ReplyDue(s.config, log, t.call, t.link)
  {
    if !sync.Lost? && !c.latched && !c.mode.Faulted? {
      AuthorizationAnswered(c, log, CallEntry(s, t), sync);
    }
  }

  lemma ResetReply(s: Session, t: Turn, log: seq<Entry>, c: Session, sync: Sync)
    requires s.configured && t.call.CallReset? && s.latched && ClockOk(s, t.call.at)
    requires (c, sync) == Synchronize(Observe(s, t.call.at), t.link)
    requires Reads(c, log, CallEntry(s, t), sync) && MarkedFor(c, t.link, log)
    ensures Step(s, t).reply == ReplyDue(s.config, log, t.call, t.link)
  {
  }

  lemma OtherReply(s: Session, t: Turn, log: seq<Entry>, c: Session, sync: Sync)
    requires s.configured && ClockOk(s, t.call.at)
    requires t.call.CallDisarm? || t.call.CallRequestStop? || t.call.CallObserveFeedback?
    requires (c, sync) == Synchronize(Observe(s, t.call.at), t.link)
    requires Reads(c, log, CallEntry(s, t), sync) && MarkedFor(c, t.link, log)
    ensures Step(s, t).reply == ReplyDue(s.config, log, t.call, t.link)
  {
    if t.call.CallObserveFeedback? {
      DecodedOnBytes(t.call.frame);
    }
  }

  lemma CallAnswered(s: Session, log: seq<Entry>, t: Turn)
    requires Consistent(s, t.link, log) && AttemptsMirrored(s, log) && Marked(s, log) && !t.call.CallTick?
    ensures Proper(s.config, log, CallEntry(s, t), Step(s, t).writes)
  {
    CallQuiet(s, t);
    if t.call.CallLatch? {
      assert Step(s, t).reply == NoReply;
    } else if !ReadsClock(log, t.call) {
      assert Step(s, t).reply == Flag(false);
    } else {
      RegressedIfBad(s, t.link, log, t.call);
      if !ClockOk(s, t.call.at) {
        BadTimeReply(s, t, log);
      } else {
        var (c, sync) := Synchronize(Observe(s, t.call.at), t.link);
        CallReads(s, log, CallEntry(s, t));
        CallMarked(s, t.link, log, t.call.at);
        match t.call
        case CallSubmit(_, _) => SubmitReply(s, t, log, c, sync);
        case CallAuthorize(_, _) => AuthorizeReply(s, t, log, c, sync);
        case CallReset(_, _) => ResetReply(s, t, log, c, sync);
        case _ => OtherReply(s, t, log, c, sync);
      }
    }
  }

  // ----- Cycles -----

  // What a cycle does once it is opened.
  function CycleFrom(a: Session, link: Link, now: int64, first: Outcome, second: Outcome, blank: CycleResult): Ticked {
    if a.episode.Episode? then AttemptZero(a, link, now, first, blank)
    else if a.intent.NoIntent? || !a.mode.Active? then Ticked(a, link, blank.(mode := a.mode), [])
    else if a.lastMotion > 0 && now - a.lastMotion < a.config.transmitPeriod then
      Ticked(a, link, blank.(action := TransmitRateLimited, mode := a.mode), [])
    else SendMotion(a, link, now, first, second, blank)
  }

  lemma OpenedCycle(c: Session, link: Link, now: int64, first: Outcome, second: Outcome, blank: CycleResult)
    requires Sound(c) && c.configured && c.known && link.connected && (c.mode.Active? ==> c.intent.Intent?)
    ensures ConnectedTick(c, link, now, first, second, blank) ==
            CycleFrom(CycleOpened(c, link, now), link, now, first, second, blank)
  {
    if c.mode.Active? && !c.latched && IsAuthorized(c) && FeedbackIsFresh(c, now) && CommandIsFresh(c, now) {
      assert CycleOpened(c, link, now) == c;
    } else if c.mode.Active? && !c.latched {
      var after := if IsAuthorized(c) then Recovering else ConnectedInhibited;
      BeginZeroSound(ClearIntent(c), link, after, now);
      assert CycleOpened(c, link, now) == BeginZero(ClearIntent(c), link, after, now);
      assert ConnectedTick(c, link, now, first, second, blank) == StopAndTry(c, link, after, now, first, blank);
    }
  }

  // The one zero write of an attempt that is due.
  function ZeroEntry(s: Session, link: Link, now: int64, o: Outcome): WriteEntry {
    Wrote(false, ZERO_FRAME, link.generation, now, WriteDeadline(s, now, INT64_MAX), o)
  }

  lemma EndReported(s: Session, link: Link, now: int64, o: Outcome, before: CycleResult)
    requires s.episode.Episode?
    ensures var report := ZeroEnded(s, o.after.connected, now, ResultOf(o, now), before).1;
            Reports(Cycle(report), ZeroReported(s.config, s.episode.attempts + 1, ZeroEntry(s, link, now, o), before))
  {
    match o
    case Threw(_) =>
    case Returned(_, _) =>
  }

  lemma ZeroEntryWrites(s: Session, link: Link, now: int64, o: Outcome)
    ensures WritesZero(s.config, link.generation, now, ZeroEntry(s, link, now, o))
  {
  }

  lemma AttemptReported(s: Session, link: Link, now: int64, o: Outcome, before: CycleResult)
    requires s.episode.Episode? && now >= s.episode.next
    ensures var r, z := AttemptZero(s, link, now, o, before), ZeroEntry(s, link, now, o);
            && r.writes == [z] && WritesZero(s.config, link.generation, now, z)
            && Reports(Cycle(r.cycle), ZeroReported(s.config, s.episode.attempts + 1, z, before))
  {
    var cycle := before.(mode := s.mode);
    EndReported(s, link, now, o, cycle);
    ZeroEntryWrites(s, link, now, o);
    var ended := ZeroEnded(s, o.after.connected, now, ResultOf(o, now), cycle);
    assert AttemptZero(s, link, now, o, before).cycle == ended.1;
    ReportIgnoresMode(s.config, s.episode.attempts + 1, ZeroEntry(s, link, now, o), before, s.mode);
  }

  lemma ReportIgnoresMode(config: SafetyConfig, n: nat, e: WriteEntry, before: CycleResult, mode: Mode)
    ensures ZeroReported(config, n, e, before.(mode := mode)) ==
            ZeroReported(config, n, e, before).(mode := mode)
  {
  }

  // ----- Motion -----

  function MotionEntry(s: Session, link: Link, now: int64, o: Outcome): WriteEntry
    requires s.intent.Intent?
  {
    Wrote(true, s.intent.frame, link.generation, now, WriteDeadline(s, now, s.intent.command.deadline), o)
  }

  lemma MotionEntryWrites(a: Session, link: Link, log: seq<Entry>, now: int64, o: Outcome)
    requires Consistent(a, link, log) && a.intent.Intent?
    ensures WritesMotion(a.config, log, link.generation, now, MotionEntry(a, link, now, o))
  {
  }

  // The report so far of a cycle whose motion write did not get out.
  function Unsent(o: Outcome, now: int64, blank: CycleResult): CycleResult {
    var r := ResultOf(o, now);
    blank.(motionAttempted := true, transportStatus := r.status,
           motionComplete := r.hostWriteComplete, uncertain := r.outcomeUncertain)
  }

  lemma UnsentReport(a: Session, link: Link, now: int64, o: Outcome, mode: Mode)
    requires a.intent.Intent? && !WriteDone(MotionEntry(a, link, now, o))
    ensures var m, u := MotionEntry(a, link, now, o), Unsent(o, now, IDLE.(mode := mode));
            && (DropsSession(m) ==> forall d :: Reports(Cycle(DisconnectedCycle(d, u)), MotionReported(m)))
            && (!DropsSession(m) ==> u == MotionReported(m).(mode := mode))
  {
  }

  // A motion write, by how it ends.
  lemma SendReported(a: Session, link: Link, now: int64, first: Outcome, second: Outcome, mode: Mode)
    requires Sound(a) && a.configured && a.known && a.mode.Active? && a.intent.Intent? && 0 < now
    ensures var r, m := SendMotion(a, link, now, first, second, IDLE.(mode := mode)), MotionEntry(a, link, now, first);
            if WriteDone(m) || DropsSession(m) then r.writes == [m] && Reports(Cycle(r.cycle), MotionReported(m))
            else
              && |r.writes| == 2 && r.writes[0] == m
              && WritesZero(a.config, m.outcome.after.generation, Max(now, WriteEnd(m)), r.writes[1])
              && Reports(Cycle(r.cycle), ZeroReported(a.config, 1, r.writes[1], MotionReported(m)))
  {
    var r, m := SendMotion(a, link, now, first, second, IDLE.(mode := mode)), MotionEntry(a, link, now, first);
    if WriteDone(m) {
      assert r.writes == [m];
    } else {
      var u := Unsent(first, now, IDLE.(mode := mode));
      var f := MotionFailed(a, first.after, now, ResultOf(first, now), second, u);
      assert r == f.(writes := [m] + f.writes);
      UnsentReport(a, link, now, first, mode);
      FailedReported(a, link, now, first, second, u);
      if !DropsSession(m) {
        ReportIgnoresMode(a.config, 1, f.writes[0], MotionReported(m), mode);
      }
    }
  }

  // What follows a motion write that did not get out.
  lemma FailedReported(a: Session, link: Link, now: int64, first: Outcome, second: Outcome, u: CycleResult)
    requires Sound(a) && a.configured && a.known && a.mode.Active? && a.intent.Intent? && 0 < now
    requires !WriteDone(MotionEntry(a, link, now, first))
    ensures var m := MotionEntry(a, link, now, first);
            var f := MotionFailed(a, first.after, now, ResultOf(first, now), second, u);
            if DropsSession(m) then f.writes == [] && f.cycle == DisconnectedCycle(Dropped(Halt(a)), u)
            else
              && |f.writes| == 1
              && WritesZero(a.config, first.after.generation, Max(now, WriteEnd(m)), f.writes[0])
              && Reports(Cycle(f.cycle), ZeroReported(a.config, 1, f.writes[0], u))
  {
    var m, start := MotionEntry(a, link, now, first), Max(now, ResultOf(first, now).completion);
    if !DropsSession(m) {
      var begun := BeginZero(Halt(a), first.after, ConnectedInhibited, start);
      assert begun.episode == Episode(ConnectedInhibited, 0, start);
      assert MotionFailed(a, first.after, now, ResultOf(first, now), second, u) ==
             AttemptZero(begun, first.after, start, second, u);
      AttemptReported(begun, first.after, start, second, u);
    }
  }

  // ----- The whole cycle -----

  lemma StoppedAnswered(a: Session, link: Link, log: seq<Entry>, e: Entry, first: Outcome, second: Outcome, mode: Mode)
    requires Consistent(a, link, log) && AttemptsMirrored(a, log) && FreshDue(a) && !Detached(a, link)
    requires e.Called? && e.link == link && 0 < e.call.at == a.seen && Stopped(a)
    requires e.reply == Cycle(CycleFrom(a, link, e.call.at, first, second, IDLE.(mode := mode)).cycle)
    ensures ZeroAnswers(a.config, log, e, CycleFrom(a, link, e.call.at, first, second, IDLE.(mode := mode)).writes)
  {
    var now, blank := e.call.at, IDLE.(mode := mode);
    DueIfScheduled(a, log, now);
    if a.episode.Episode? {
      var r := AttemptZero(a, link, now, first, blank);
      assert CycleFrom(a, link, now, first, second, blank) == r;
      if now >= a.episode.next {
        AttemptReported(a, link, now, first, blank);
        ReportIgnoresMode(a.config, a.episode.attempts + 1, ZeroEntry(a, link, now, first), IDLE, mode);
      } else {
        assert r.writes == [];
        assert Reports(Cycle(r.cycle), IDLE.(action := ZeroRetryPending, zeroAttempts := Attempts(log)));
      }
    } else {
      assert CycleFrom(a, link, now, first, second, blank) == Ticked(a, link, blank.(mode := a.mode), []);
    }
  }

  // The schedule of a stopping session, read off the log.
  lemma DueIfScheduled(a: Session, log: seq<Entry>, now: int64)
    requires Sound(a) && a.configured && a.known && AttemptsMirrored(a, log) && FreshDue(a)
    requires a.seen == now && Stopped(a)
    ensures Attempts(log) >= a.config.maxZeroAttempts <==> a.mode.Faulted?
    ensures a.episode.Episode? ==> a.episode.attempts == Attempts(log)
    ensures a.episode.Episode? ==> (now >= a.episode.next <==> ZeroDue(a.config, log, now))
  {
  }

  // A session that is not stopping is active exactly with a full run.
  lemma ActiveWithFullRun(a: Session, link: Link, log: seq<Entry>)
    requires Consistent(a, link, log) && !Detached(a, link) && !Stopped(a)
    ensures a.mode.Active? && a.intent.Intent? <==> FreshRun(a.config, log) >= a.config.freshRequired
  {
  }

  lemma MovingAnswered(a: Session, link: Link, log: seq<Entry>, e: Entry, first: Outcome, second: Outcome, mode: Mode)
    requires Consistent(a, link, log) && Marked(a, log) && !Detached(a, link) && !Stopped(a)
    requires a.mode.Active? && a.intent.Intent?
    requires e.Called? && e.link == link && 0 < e.call.at && !TooSoon(a.config, log, e.call.at)
    requires e.reply == Cycle(CycleFrom(a, link, e.call.at, first, second, IDLE.(mode := mode)).cycle)
    ensures MotionAnswers(a.config, log, e, CycleFrom(a, link, e.call.at, first, second, IDLE.(mode := mode)).writes)
  {
    var now, blank := e.call.at, IDLE.(mode := mode);
    assert CycleFrom(a, link, now, first, second, blank) == SendMotion(a, link, now, first, second, blank);
    MotionEntryWrites(a, link, log, now, first);
    SendReported(a, link, now, first, second, mode);
  }

  lemma LiveAnswered(a: Session, link: Link, log: seq<Entry>, e: Entry, first: Outcome, second: Outcome, mode: Mode)
    requires Consistent(a, link, log) && AttemptsMirrored(a, log) && Marked(a, log) && FreshDue(a) && !Detached(a, link)
    requires e.Called? && e.link == link && 0 < e.call.at == a.seen
    requires e.reply == Cycle(CycleFrom(a, link, e.call.at, first, second, IDLE.(mode := mode)).cycle)
    ensures LiveAnswers(a.config, log, e, CycleFrom(a, link, e.call.at, first, second, IDLE.(mode := mode)).writes)
  {
    if Stopped(a) {
      StoppedAnswered(a, link, log, e, first, second, mode);
    } else {
      ActiveWithFullRun(a, link, log);
      if a.mode.Active? && a.intent.Intent? && !TooSoon(a.config, log, e.call.at) {
        MovingAnswered(a, link, log, e, first, second, mode);
      }
    }
  }

  // The cycle reports the mode that the session is left in.
  lemma EndShowsMode(s: Session, up: bool, now: int64, r: IoResult, before: CycleResult)
    requires s.episode.Episode?
    ensures var (n, report) := ZeroEnded(s, up, now, r, before);
            report.mode == n.mode
  {
  }

  lemma AttemptShowsMode(s: Session, link: Link, now: int64, o: Outcome, before: CycleResult)
    ensures var r := AttemptZero(s, link, now, o, before);
            r.cycle.mode == r.session.mode
  {
    var r, cycle := AttemptZero(s, link, now, o, before), before.(mode := s.mode);
    if s.episode.Episode? && now >= s.episode.next {
      var ended := ZeroEnded(s, o.after.connected, now, ResultOf(o, now), cycle);
      EndShowsMode(s, o.after.connected, now, ResultOf(o, now), cycle);
      assert r.session == ended.0 && r.cycle == ended.1;
    }
  }

  lemma SendShowsMode(s: Session, link: Link, now: int64, first: Outcome, second: Outcome, before: CycleResult)
    requires s.intent.Intent?
    ensures var r := SendMotion(s, link, now, first, second, before);
            r.cycle.mode == r.session.mode
  {
    var r, u := ResultOf(first, now), Unsent(first, now, before);
    var start := Max(now, r.completion);
    AttemptShowsMode(BeginZero(Halt(s), first.after, ConnectedInhibited, start), first.after, start, second, u);
  }

  lemma CycleShowsMode(s: Session, t: Turn)
    requires s.configured && t.call.CallTick?
    ensures Step(s, t).reply.cycle.mode == Step(s, t).session.mode
  {
    var now := t.call.at;
    if ClockOk(s, now) && t.link.Usable() {
      var c, blank := Synchronize(Observe(s, now), t.link).0, IDLE.(mode := s.mode);
      AttemptShowsMode(c, t.link, now, t.first, blank);
      AttemptShowsMode(BeginZero(ClearIntent(c), t.link, ConnectedInhibited, now), t.link, now, t.first, blank);
      AttemptShowsMode(BeginZero(ClearIntent(c), t.link, Recovering, now), t.link, now, t.first, blank);
      if c.intent.Intent? {
        SendShowsMode(c, t.link, now, t.first, t.second, blank);
      }
      var r := ConnectedTick(c, t.link, now, t.first, t.second, blank);
      assert || (c.intent.Intent? && r == SendMotion(c, t.link, now, t.first, t.second, blank))
             || r == AttemptZero(c, t.link, now, t.first, blank)
             || r == StopAndTry(c, t.link, ConnectedInhibited, now, t.first, blank)
             || r == StopAndTry(c, t.link, Recovering, now, t.first, blank)
             || r.cycle.mode == r.session.mode;
      assert Step(s, t).reply == Cycle(r.cycle) && Step(s, t).session == r.session;
    }
  }

  // ----- The mode after a cycle -----

  predicate Whole(writes: seq<WriteEntry>) {
    forall w :: w in writes ==> KeepsLink(w) || DropsSession(w)
  }

  lemma MetUntilDropped(log: seq<Entry>, writes: seq<WriteEntry>)
    requires |writes| <= 2 && forall w :: w in writes ==> !DropsSession(w)
    ensures Met(log + writes) == Met(log)
  {
    if |writes| == 0 {
      assert log + writes == log;
    } else {
      Snoc(log, writes[0]);
      if |writes| == 1 {
        assert log + writes == log + [writes[0]];
      } else {
        Snoc(log + [writes[0]], writes[1]);
        assert log + writes == log + [writes[0]] + [writes[1]];
      }
    }
  }

  // After whole writes the session is on its link or without one.
  lemma AfterWholeWrites(a: Session, link: Link, log: seq<Entry>, r: Stepped)
    requires CyclePhases(a, link, r) && Whole(r.writes) && Sound(a) && a.configured && !Detached(a, link)
    requires Met(log).Some?
    ensures r.session.known ==> Met(log + r.writes).Some? && !Detached(r.session, r.link)
  {
    if r.session.known {
      MetUntilDropped(log, r.writes);
    }
  }

  lemma RestsAfterWrites(a: Session, link: Link, r: Stepped)
    requires Sound(a) && a.configured && Rests(a, link) && CyclePhases(a, link, r)
    requires r.writes != [] ==> !Detached(a, link)
    ensures Rests(r.session, r.link)
  {
    if r.writes != [] {
      var e := r.writes[0];
      if !e.motion {
        ZeroRests(a, link, e, r.session, r.link);
      } else {
        MotionRests(a, link, e);
        if |r.writes| == 2 {
          ZeroRests(MotionLeft(a, e), e.outcome.after, r.writes[1], r.session, r.link);
        }
      }
    }
  }

  lemma MarkedAfterWrites(a: Session, link: Link, log: seq<Entry>, r: Stepped)
    requires Marked(a, log) && CyclePhases(a, link, r) && (r.writes != [] ==> Met(log).Some?)
    ensures Marked(r.session, log + r.writes)
  {
    if r.writes == [] {
      assert log + r.writes == log;
    } else {
      var e := r.writes[0];
      Snoc(log, e);
      if !e.motion {
        assert r.writes == [e];
        MarkedAfterZero(a, link, log, e, r.session, r.link);
      } else {
        MarkedAfterMotion(a, link, log, e);
        if |r.writes| == 2 {
          assert log + r.writes == log + [e] + [r.writes[1]];
          MarkedAfterZero(MotionLeft(a, e), e.outcome.after, log + [e], r.writes[1], r.session, r.link);
        } else {
          assert r.writes == [e];
        }
      }
    }
  }

  // ----- The entry of a cycle -----

  // All that the opened session of a cycle keeps.
  ghost predicate Opened(a: Session, link: Link, log: seq<Entry>) {
    Consistent(a, link, log) && AttemptsMirrored(a, log) && Marked(a, log) && Rests(a, link)
  }

  lemma TickOpens(s: Session, log: seq<Entry>, t: Turn)
    requires Consistent(s, t.link, log) && Punctual(s, log) && Marked(s, log) && Rests(s, t.link) && t.call.CallTick?
    requires LinkFollows(t.link, t.first.after) && LinkFollows(t.first.after, t.second.after)
    ensures Opened(TickOpened(s, t.link, t.call.at), t.link, log + [CallEntry(s, t)])
    ensures CycleTold(s, TickOpened(s, t.link, t.call.at), t.link, log, CallEntry(s, t), Step(s, t))
  {
    var e, a := CallEntry(s, t), TickOpened(s, t.link, t.call.at);
    TickTold(s, log, t);
    AttemptsAfterCall(s, a, t.link, log, e);
    OpeningKeepsSequence(s, t.link, t.call.at);
    Snoc(log, e);
    if ClockOk(s, t.call.at) && !t.link.Usable() {
      LostOpening(s, t.link, t.call.at);
    }
    MarkedAfterCall(s, a, t.link, log, e);
    OpenedRests(s, t.link, t.call.at);
  }

  lemma LostOpening(s: Session, link: Link, now: int64)
    requires !link.Usable() && ClockOk(s, now)
    ensures !TickOpened(s, link, now).known
  {
  }

  // A cycle with a bad time, or without a link.
  lemma DeadTickAnswered(s: Session, log: seq<Entry>, t: Turn)
    requires Consistent(s, t.link, log) && t.call.CallTick? && (!ClockOk(s, t.call.at) || !t.link.Usable())
    ensures CycleAnswers(s.config, log, CallEntry(s, t), Step(s, t).writes)
  {
  }

  // A live cycle goes on from the session as it was opened.
  lemma LiveTickGoesOn(s: Session, t: Turn)
    requires Sound(s) && s.configured && t.call.CallTick? && ClockOk(s, t.call.at) && t.link.Usable()
    requires Synchronize(Observe(s, t.call.at), t.link).0.mode.Active? ==>
               Synchronize(Observe(s, t.call.at), t.link).0.intent.Intent?
    ensures var r := CycleFrom(TickOpened(s, t.link, t.call.at), t.link, t.call.at, t.first, t.second,
                               IDLE.(mode := s.mode));
            Step(s, t).reply == Cycle(r.cycle) && Step(s, t).writes == r.writes
  {
    var c := Synchronize(Observe(s, t.call.at), t.link).0;
    SynchronizeSound(Observe(s, t.call.at), t.link);
    OpenedCycle(c, t.link, t.call.at, t.first, t.second, IDLE.(mode := s.mode));
    assert TickOpened(s, t.link, t.call.at) == CycleOpened(c, t.link, t.call.at);
  }

  // On a connection the session is active only with a stored command.
  lemma ActiveIsStored(s: Session, link: Link, log: seq<Entry>, at: int64)
    requires Consistent(s, link, log) && link.Usable() && ClockOk(s, at)
    ensures var c := Synchronize(Observe(s, at), link).0;
            c.mode.Active? ==> c.intent.Intent?
  {
    SynchronizeFacts(Observe(s, at), link);
  }

  lemma LiveTickAnswered(s: Session, log: seq<Entry>, t: Turn)
    requires Consistent(s, t.link, log) && Punctual(s, log) && t.call.CallTick?
    requires ClockOk(s, t.call.at) && t.link.Usable()
    requires Opened(TickOpened(s, t.link, t.call.at), t.link, log + [CallEntry(s, t)])
    ensures LiveAnswers(s.config, log + [CallEntry(s, t)], CallEntry(s, t), Step(s, t).writes)
  {
    var a, e := TickOpened(s, t.link, t.call.at), CallEntry(s, t);
    TickOpenedDue(s, t.link, t.call.at);
    SynchronizeFacts(Observe(s, t.call.at), t.link);
    ActiveIsStored(s, t.link, log, t.call.at);
    LiveTickGoesOn(s, t);
    LiveAnswered(a, t.link, log + [e], e, t.first, t.second, s.mode);
  }

  // ----- Whole runs -----

  lemma {:induction false} WritesAfterCall(log: seq<Entry>, more: seq<Entry>, i: nat)
    requires i < |log| && more != [] && more[0].Called?
    ensures WritesAfter(log + more, i) == WritesAfter(log, i)
    decreases |log| - i
  {
    if i + 1 < |log| {
      assert (log + more)[i + 1] == log[i + 1];
      WritesAfterCall(log, more, i + 1);
    } else {
      assert (log + more)[i + 1] == more[0];
    }
  }

  lemma {:induction false} WritesAtEnd(log: seq<Entry>, writes: seq<WriteEntry>, i: nat)
    requires log != [] && |log| - 1 <= i < |log| + |writes|
    ensures WritesAfter(log + writes, i) == writes[i + 1 - |log|..]
    decreases |writes| + |log| - i
  {
    if i + 1 < |log| + |writes| {
      assert (log + writes)[i + 1] == writes[i + 1 - |log|];
      WritesAtEnd(log, writes, i + 1);
    }
  }

  lemma AllProperGrows(config: SafetyConfig, log: seq<Entry>, e: Entry, writes: seq<WriteEntry>)
    requires AllProper(config, log) && e.Called? && Proper(config, log, e, writes)
    ensures AllProper(config, log + [e] + writes)
  {
    var all, more: seq<Entry> := log + [e] + writes, [e] + writes;
    assert all == log + more;
    forall i | 0 <= i < |all|
      ensures ProperAt(config, all, i)
    {
      if i < |log| {
        WritesAfterCall(log, more, i);
        assert all[..i] == log[..i] && ProperAt(config, log, i);
      } else if i == |log| {
        WritesAtEnd(log + [e], writes, i);
        assert all[..i] == log;
      }
    }
  }

  lemma TickProper(w: World, t: Turn)
    requires Kept(w.session, t.link, w.log) && Punctual(w.session, w.log) && t.call.CallTick?
    requires Marked(w.session, w.log) && Rests(w.session, t.link)
    requires LinkFollows(t.link, t.first.after) && LinkFollows(t.first.after, t.second.after)
    ensures Proper(w.session.config, w.log, CallEntry(w.session, t), Step(w.session, t).writes)
  {
    var s, e, r := w.session, CallEntry(w.session, t), Step(w.session, t);
    TickOpens(s, w.log, t);
    RegressedIfBad(s, t.link, w.log, t.call);
    if !ClockOk(s, t.call.at) || !t.link.Usable() {
      DeadTickAnswered(s, w.log, t);
    } else {
      LiveTickAnswered(s, w.log, t);
      CycleShowsMode(s, t);
      if Whole(r.writes) {
        ModeReported(s, w.log, t);
      }
    }
  }

  lemma ModeReported(s: Session, log: seq<Entry>, t: Turn)
    requires Kept(s, t.link, log) && Punctual(s, log) && Rests(s, t.link) && t.call.CallTick?
    requires LinkFollows(t.link, t.first.after) && LinkFollows(t.first.after, t.second.after)
    requires Opened(TickOpened(s, t.link, t.call.at), t.link, log + [CallEntry(s, t)])
    requires CycleTold(s, TickOpened(s, t.link, t.call.at), t.link, log, CallEntry(s, t), Step(s, t))
    requires ClockOk(s, t.call.at) && t.link.Usable() && Whole(Step(s, t).writes)
    ensures Step(s, t).session.mode == ModeDue(s.config, log + [CallEntry(s, t)] + Step(s, t).writes)
  {
    var a, e, r := TickOpened(s, t.link, t.call.at), CallEntry(s, t), Step(s, t);
    TickKept(s, log, t);
    PunctualAfterTick(s, log, t);
    StillAttached(s, t.link, t.call.at);
    MetOnLink(s, t.link, log, e);
    RestsAfterWrites(a, t.link, r);
    AfterWholeWrites(a, t.link, log + [e], r);
    ModeMirrored(r.session, r.link, log + [e] + r.writes);
  }

  // A cycle with a valid time on a usable link works on that link.
  lemma StillAttached(s: Session, link: Link, now: int64)
    requires Sound(s) && s.configured && ClockOk(s, now) && link.Usable()
    ensures !Detached(TickOpened(s, link, now), link)
  {
    SynchronizeFacts(Observe(s, now), link);
  }

  lemma MetOnLink(s: Session, link: Link, log: seq<Entry>, e: Entry)
    requires Consistent(s, link, log) && e.Called? && e.call.CallTick? && e.link == link
    requires ClockOk(s, e.call.at) && link.Usable()
    ensures Met(log + [e]).Some?
  {
    Snoc(log, e);
  }

  ghost predicate Exact(w: World) {
    && Kept(w.session, w.link, w.log) && Punctual(w.session, w.log)
    && Marked(w.session, w.log) && Rests(w.session, w.link) && AllProper(w.session.config, w.log)
  }

  lemma TickExact(w: World, t: Turn)
    requires Exact(w) && TurnAllowed(w.link, t) && t.call.CallTick?
    ensures Exact(Next(w, t))
  {
    var s, e, r := w.session, CallEntry(w.session, t), Step(w.session, t);
    LinkMoved(s, w.link, t.link, w.log);
    LinkRests(s, w.link, t.link);
    TickKept(s, w.log, t);
    PunctualAfterTick(s, w.log, t);
    TickOpens(s, w.log, t);
    MarkedAfterWrites(TickOpened(s, t.link, t.call.at), t.link, w.log + [e], r);
    RestsAfterWrites(TickOpened(s, t.link, t.call.at), t.link, r);
    TickProper(w, t);
    AllProperGrows(s.config, w.log, e, r.writes);
  }

  lemma MarkedAfterQuietCall(s: Session, log: seq<Entry>, t: Turn)
    requires Consistent(s, t.link, log) && AttemptsMirrored(s, log) && Marked(s, log) && !t.call.CallTick?
    ensures Marked(Step(s, t).session, log + [CallEntry(s, t)])
  {
    var e := CallEntry(s, t);
    CallConsistent(s, log, t);
    CallFramed(s, t);
    SequenceAfterCall(s, log, t);
    if LooksAtLink(log, t.call) && !t.link.Usable() {
      RegressedIfBad(s, t.link, log, t.call);
      LostIsForgotten(s, t);
    }
    MarkedAfterCall(s, Step(s, t).session, t.link, log, e);
  }

  lemma SequenceAfterCall(s: Session, log: seq<Entry>, t: Turn)
    requires Consistent(s, t.link, log) && AttemptsMirrored(s, log) && Marked(s, log) && !t.call.CallTick?
    ensures Step(s, t).session.topSequence == TopSequence(s.config, log + [CallEntry(s, t)])
  {
    Snoc(log, CallEntry(s, t));
    if t.call.CallSubmit? && ClockOk(s, t.call.at) {
      SequenceLooked(s, t.link, t.call.command, t.call.at);
      CallMarked(s, t.link, log, t.call.at);
      SynchronizeFacts(Observe(s, t.call.at), t.link);
      assert Step(s, t).session == Submit(s, t.link, t.call.command, t.call.at).0;
    } else {
      SequenceUnlooked(s, t);
    }
  }

  lemma SequenceUnlooked(s: Session, t: Turn)
    requires s.configured && !t.call.CallTick? && (t.call.CallSubmit? ==> !ClockOk(s, t.call.at))
    ensures Step(s, t).session.topSequence == s.topSequence
  {
    if t.call.CallSubmit? {
      ConnectionKeepsSequence(s, t.link);
      assert Step(s, t).session == ClockFailed(s, t.link);
    } else {
      SequenceKept(s, t);
    }
  }

  lemma CallExact(w: World, t: Turn)
    requires Exact(w) && TurnAllowed(w.link, t) && !t.call.CallTick?
    ensures Exact(Next(w, t))
  {
    var s, e := w.session, CallEntry(w.session, t);
    LinkMoved(s, w.link, t.link, w.log);
    LinkRests(s, w.link, t.link);
    CallQuiet(s, t);
    CallKept(s, w.log, t);
    PunctualAfterCall(s, w.log, t);
    MarkedAfterQuietCall(s, w.log, t);
    CallRests(s, t);
    CallAnswered(s, w.log, t);
    AllProperGrows(s.config, w.log, e, []);
    assert w.log + [e] + [] == w.log + [e];
  }

  lemma ExactInitially(config: SafetyConfig, link: Link)
    requires ConfigIsValid(config)
    ensures Exact(World(Initial(config, link), link, []))
  {
    KeptInitially(config, link);
  }

  ghost predicate ExactIfConfigured(config: SafetyConfig, w: World) {
    w.session.config == config && (ConfigIsValid(config) ==> Exact(w))
  }

  // Every reachable session answers as its log demands, at every point.
  lemma ReachableExact(config: SafetyConfig, w: World)
    requires ConfigIsValid(config) && Reachable(config, w)
    ensures Exact(w) && w.session.config == config
  {
    var exact := iset v: World | ExactIfConfigured(config, v);
    forall link
      ensures World(Initial(config, link), link, []) in exact
    {
      ExactInitially(config, link);
    }
    forall v, t | v in exact && TurnAllowed(v.link, t)
      ensures Next(v, t) in exact
    {
      if t.call.CallTick? {
        TickExact(v, t);
      } else {
        CallExact(v, t);
      }
    }
    assert Closed(config, exact);
  }

  // ----- The theorems, position by position -----

  lemma ProperEntry(config: SafetyConfig, w: World, i: nat)
    requires ConfigIsValid(config) && Reachable(config, w) && i < |w.log| && w.log[i].Called?
    ensures Proper(config, w.log[..i], w.log[i], WritesAfter(w.log, i))
  {
    ReachableExact(config, w);
    assert ProperAt(config, w.log, i);
  }

  // Which commands are taken.
  predicate Acceptable(config: SafetyConfig, log: seq<Entry>, command: TimedMotionCommand, at: int64, link: Link) {
    // A good time, on the connection that the calls before it found.
    && 0 < at && LastSeen(log) <= at && SameLink(log, link)
    // A new sequence number, and times in order, none of them past.
    && command.sequence > TopSequence(config, log)
    && 0 < command.created <= at <= command.deadline && command.created < command.deadline
    && at - command.created <= config.maxCommandAge
    // Authorized before the command was made, and nothing owed since.
    && !Latched(log) && !ZeroOwed(config, log) && !AuthorizationOwed(config, log)
    && AfterAuthorization(log, command)
    // A motion within the limits, allowed feedback, and no newer command before it.
    && WithinLimits(config, command.motion) && command.motion != STANDSTILL
    && FeedbackTimely(config, log, at) && Follows(config, log, command, at)
  }

  // Failed attempts leave a zero owed.
  lemma {:induction false} AttemptsOweZero(config: SafetyConfig, log: seq<Entry>)
    requires Attempts(log) > 0
    ensures ZeroOwed(config, log)
    decreases |log|
  {
    if Attempts(Before(log)) > 0 {
      AttemptsOweZero(config, Before(log));
    }
  }

  lemma DueIfAcceptable(config: SafetyConfig, log: seq<Entry>, call: Call, link: Link)
    requires ConfigIsValid(config) && call.CallSubmit?
    ensures var v := SubmissionDue(config, log, call, link);
            v.Accepted? || v.RecoveryPending? <==> Acceptable(config, log, call.command, call.at, link)
  {
    if Attempts(log) > 0 {
      AttemptsOweZero(config, log);
    }
  }

  // A command is taken exactly when nothing speaks against it, and fully
  // accepted exactly when its run is then long enough.
  lemma AcceptedExactly(config: SafetyConfig, w: World, i: nat)
    requires ConfigIsValid(config) && Reachable(config, w)
    requires i < |w.log| && w.log[i].Called? && w.log[i].call.CallSubmit?
    ensures var log, e := w.log[..i], w.log[i];
            && (SubmissionAccepted(e) <==> Acceptable(config, log, e.call.command, e.call.at, e.link))
            && (e.reply == Submission(Accepted) <==>
                  && Acceptable(config, log, e.call.command, e.call.at, e.link)
                  && RunWith(config, log, e.call.at) >= config.freshRequired)
  {
    ProperEntry(config, w, i);
    DueIfAcceptable(config, w.log[..i], w.log[i].call, w.log[i].link);
  }

  // Every other command is turned down for the first reason that applies, and
  // nothing is written.
  lemma SubmissionExactly(config: SafetyConfig, w: World, i: nat)
    requires ConfigIsValid(config) && Reachable(config, w)
    requires i < |w.log| && w.log[i].Called? && w.log[i].call.CallSubmit?
    ensures w.log[i].reply == Submission(SubmissionDue(config, w.log[..i], w.log[i].call, w.log[i].link))
  {
    ProperEntry(config, w, i);
  }

  // An authorization is granted, or turned down for the first reason that applies.
  lemma AuthorizationExactly(config: SafetyConfig, w: World, i: nat)
    requires ConfigIsValid(config) && Reachable(config, w)
    requires i < |w.log| && w.log[i].Called? && w.log[i].call.CallAuthorize?
    ensures w.log[i].reply == Authorization(AuthorizationDue(config, w.log[..i], w.log[i].call, w.log[i].link))
  {
    ProperEntry(config, w, i);
  }

  // A reset is accepted exactly when it is due.
  lemma ResetExactly(config: SafetyConfig, w: World, i: nat)
    requires ConfigIsValid(config) && Reachable(config, w)
    requires i < |w.log| && w.log[i].Called? && w.log[i].call.CallReset?
    ensures ResetAccepted(w.log[i]) <==> ResetDue(config, w.log[..i], w.log[i].call, w.log[i].link)
    ensures w.log[i].reply.Flag?
  {
    ProperEntry(config, w, i);
  }

  // A disarm or a stop says that it was taken exactly when its time is good and
  // the attempts of its connection are not spent.
  lemma StopsExactly(config: SafetyConfig, w: World, i: nat)
    requires ConfigIsValid(config) && Reachable(config, w)
    requires i < |w.log| && w.log[i].Called? && (w.log[i].call.CallDisarm? || w.log[i].call.CallRequestStop?)
    ensures var log, e := w.log[..i], w.log[i];
            && e.reply.Flag?
            && (e.reply.flag <==>
                  && 0 < e.call.at && LastSeen(log) <= e.call.at
                  && (SameLink(log, e.link) ==> Attempts(log) < config.maxZeroAttempts))
  {
    ProperEntry(config, w, i);
  }

  // On a good time and a usable link the bytes of a frame decide: its sizes,
  // marks, checksum and flag byte whether it is one, and byte 1 what it allows.
  lemma ObservationExactly(config: SafetyConfig, w: World, i: nat)
    requires ConfigIsValid(config) && Reachable(config, w)
    requires i < |w.log| && w.log[i].Called? && w.log[i].call.CallObserveFeedback?
    requires 0 < w.log[i].call.at && LastSeen(w.log[..i]) <= w.log[i].call.at && w.log[i].link.Usable()
    ensures var e, frame := w.log[i], w.log[i].call.frame;
            && (FeedbackAllowed(e) <==> WellFormedFeedback(frame) && frame[1] == 0)
            && (FeedbackInhibited(e) <==> WellFormedFeedback(frame) && frame[1] == 1)
            && e.reply == Observation(
                 if !WellFormedFeedback(frame) then FeedbackObservation(FrameInvalid, false, false)
                 else if frame[1] == 0 then FeedbackObservation(AcceptedControlAllowed, true, true)
                 else FeedbackObservation(AcceptedControlInhibited, true, false))
  {
    ProperEntry(config, w, i);
  }

  // ----- Cycles, position by position -----

  // A cycle at position i with a valid time on a usable link.
  predicate LiveCycle(log: seq<Entry>, i: nat) {
    && i < |log| && log[i].Called? && log[i].call.CallTick? && log[i].link.Usable()
    && !ClockRegressed(log[..i], log[i].call)
  }

  predicate NothingFollows(log: seq<Entry>, i: nat) {
    i + 1 < |log| ==> log[i + 1].Called?
  }

  predicate Acts(log: seq<Entry>, i: nat, action: CycleAction)
    requires i < |log|
  {
    log[i].Called? && log[i].reply.Cycle? && log[i].reply.cycle.action == action
  }

  // As long as a zero write is owed, a cycle with a valid time on a usable link
  // writes the exact zero frame when it is due and nothing otherwise.
  lemma ZeroSentExactlyWhenDue(config: SafetyConfig, w: World, i: nat)
    requires ConfigIsValid(config) && Reachable(config, w) && LiveCycle(w.log, i)
    requires ZeroOwed(config, w.log[..i + 1])
    ensures if ZeroDue(config, w.log[..i + 1], w.log[i].call.at) then
              i + 1 < |w.log| && WritesZero(config, w.log[i].link.generation, w.log[i].call.at, w.log[i + 1])
            else
              && NothingFollows(w.log, i)
              && Acts(w.log, i,
                      if Attempts(w.log[..i + 1]) >= config.maxZeroAttempts then NoAction else ZeroRetryPending)
  {
    ProperEntry(config, w, i);
    assert w.log[..i] + [w.log[i]] == w.log[..i + 1];
  }

  // With no zero owed and a full run of fresh commands, a cycle writes the latest
  // command again and again, unless the last motion on the connection ended less
  // than a transmit period ago; without a full run it writes nothing.
  lemma MotionSentExactlyWhenDue(config: SafetyConfig, w: World, i: nat)
    requires ConfigIsValid(config) && Reachable(config, w) && LiveCycle(w.log, i)
    requires !ZeroOwed(config, w.log[..i + 1])
    ensures var log, at := w.log[..i + 1], w.log[i].call.at;
            if FreshRun(config, log) < config.freshRequired then
              NothingFollows(w.log, i) && Acts(w.log, i, NoAction)
            else if LastMotion(log) > 0 && at - LastMotion(log) < config.transmitPeriod then
              NothingFollows(w.log, i) && Acts(w.log, i, TransmitRateLimited)
            else
              && i + 1 < |w.log| && IsMotion(w.log[i + 1])
              && LatestAccepted(log).Some?
              && var command := LatestAccepted(log).value.call.command;
                 && Encode(command.motion, config.maxLinear) == Encoded(w.log[i + 1].frame)
                 && w.log[i + 1].generation == w.log[i].link.generation && w.log[i + 1].start == at
                 && w.log[i + 1].deadline == Min(SaturatingAdd(at, config.writeTimeout), command.deadline)
  {
    ProperEntry(config, w, i);
    assert w.log[..i] + [w.log[i]] == w.log[..i + 1];
  }

  // Everything a cycle reports and writes is what its log demands.
  lemma CycleExactly(config: SafetyConfig, w: World, i: nat)
    requires ConfigIsValid(config) && Reachable(config, w)
    requires i < |w.log| && w.log[i].Called? && w.log[i].call.CallTick?
    ensures CycleAnswers(config, w.log[..i], w.log[i], WritesAfter(w.log, i))
  {
    ProperEntry(config, w, i);
  }

  // On a live connection, or without any, the session's mode is the one its log shows.
  lemma ModeExactly(config: SafetyConfig, w: World)
    requires ConfigIsValid(config) && Reachable(config, w)
    requires w.session.known ==> Met(w.log).Some? && !Detached(w.session, w.link)
    ensures w.session.mode == ModeDue(config, w.log)
  {
    ReachableExact(config, w);
    ModeMirrored(w.session, w.link, w.log);
  }
}
