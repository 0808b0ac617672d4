// What holds of the session's state after every public call of every run,
// whatever the transport does.

module SessionInvariant {
  import opened Wrappers
  import opened Protocol
  import opened TransportModel
  import opened SessionModel

  predicate IntentSound(s: Session) {
    s.intent.Intent? ==>
      var c := s.intent.command;
      && s.permit.Permit? && s.permit.time < c.created <= s.intent.receipt <= s.seen
      && c.created < c.deadline && 0 < c.sequence <= s.topSequence
      && MotionAllowed(s.config, c.motion) && !CommandIsExactZero(c.motion)
      && Encode(c.motion, s.config.maxLinear) == Encoded(s.intent.frame)
      && 1 <= s.intent.streak <= s.config.freshRequired
      && s.mode == if s.intent.streak == s.config.freshRequired then Active else Recovering
  }

  predicate EpisodeSound(s: Session) {
    && (s.episode.Episode? <==> s.mode.StopPending?)
    && (s.episode.Episode? ==>
          && s.intent.NoIntent?
          && s.episode.attempts < s.config.maxZeroAttempts
          && (|| s.episode.after.ConnectedInhibited? || s.episode.after.Recovering?
              || s.episode.after.EmergencyStopLatched?)
          && 0 <= s.episode.next <= INT64_MAX)
  }

  predicate LinkSound(s: Session) {
    && (s.known ==> s.generation != 0)
    && (s.mode.Disconnected? <==> !s.known)
    && (!s.known ==>
          s.permit.NoPermit? && s.intent.NoIntent? && s.feedback.None? && s.episode.NoEpisode? && s.lastMotion == 0)
  }

  predicate PermitSound(s: Session) {
    && (s.permit.Permit? ==> s.permit.generation == s.generation && 0 < s.permit.time <= s.seen && !s.latched)
    && (s.mode.Active? && s.permit.Permit? ==> s.intent.Intent?)
  }

  predicate ClocksSound(s: Session) {
    && 0 <= s.seen <= INT64_MAX
    && 0 <= s.lastMotion <= s.seen
    && (s.feedback.Some? ==> 0 < s.feedback.value <= s.seen)
  }

  predicate Sound(s: Session) {
    && s.configured == ConfigIsValid(s.config)
    && (s.configured ==>
          && !s.mode.ConfigurationInvalid?
          && ClocksSound(s) && LinkSound(s) && PermitSound(s) && EpisodeSound(s) && IntentSound(s))
    && (!s.configured ==> s.mode.ConfigurationInvalid? && s.permit.NoPermit? && s.intent.NoIntent?)
  }

  lemma BeginZeroSound(s: Session, link: Link, after: Mode, earliest: int)
    requires s.configured && ConfigIsValid(s.config) && !s.mode.ConfigurationInvalid?
    requires ClocksSound(s) && LinkSound(s) && EpisodeSound(s) && s.intent.NoIntent?
    requires s.permit.Permit? ==> s.permit.generation == s.generation && 0 < s.permit.time <= s.seen && !s.latched
    requires s.known && link.connected && earliest <= INT64_MAX
    requires after.ConnectedInhibited? || after.Recovering? || after.EmergencyStopLatched?
    ensures var r := BeginZero(s, link, after, earliest);
            Sound(r) && (r.episode.Episode? || r.mode.Faulted?)
  {
  }

  lemma SynchronizeSound(s: Session, link: Link)
    requires Sound(s) && s.configured
    ensures var (c, sync) := Synchronize(s, link);
            && Sound(c)
            && (sync.Lost? <==> !c.known)
            && (sync.Lost? <==> !link.Usable())
            && (!sync.Lost? ==> c.generation == link.generation)
            && (sync.NewGeneration? ==> c.episode.Episode?)
  {
  }

  lemma ClockFailedSound(s: Session, link: Link)
    requires Sound(s) && s.configured
    ensures Sound(ClockFailed(s, link))
  {
  }

  lemma StoredSound(s: Session, link: Link, command: TimedMotionCommand, now: int64, sync: Sync)
    requires Sound(s) && s.configured && s.seen >= now > 0
    requires var v := Verdict(s, sync, command, now); v.Accepted? || v.RecoveryPending?
    ensures Sound(Settle(s, link, command, now, Verdict(s, sync, command, now)))
  {
  }

  lemma SettleSound(s: Session, link: Link, command: TimedMotionCommand, now: int64, sync: Sync)
    requires Sound(s) && s.configured
    requires s.seen >= now > 0
    requires sync.Lost? <==> !s.known
    requires s.known ==> link.connected
    requires sync.NewGeneration? ==> s.episode.Episode?
    ensures Sound(Settle(s, link, command, now, Verdict(s, sync, command, now)))
  {
    var verdict := Verdict(s, sync, command, now);
    var c := s.(topSequence := command.sequence);
    match verdict
    case ConfigurationInvalid | Disconnected | EmergencyStopLatched | Faulted =>
    case SequenceInvalid => BeginZeroSound(Halt(s), link, ConnectedInhibited, now);
    case TimestampInvalid | EncodingRejected => BeginZeroSound(Halt(c), link, ConnectedInhibited, now);
    case Stale =>
      BeginZeroSound(ClearIntent(c), link, if IsAuthorized(c) then Recovering else ConnectedInhibited, now);
    case NotAuthorized =>
    case PredatesAuthorization | StopAccepted | FeedbackUnavailable =>
      BeginZeroSound(ClearIntent(c), link, Recovering, now);
    case Accepted | RecoveryPending => StoredSound(s, link, command, now, sync);
  }

  lemma AttemptZeroSound(s: Session, link: Link, now: int64, o: Outcome, before: CycleResult)
    requires Sound(s) && s.configured && s.known && now > 0
    ensures Sound(AttemptZero(s, link, now, o, before).session)
  {
  }

  lemma SendMotionSound(s: Session, link: Link, now: int64, first: Outcome, second: Outcome, before: CycleResult)
    requires Sound(s) && s.configured && s.known && s.intent.Intent? && now > 0
    ensures Sound(SendMotion(s, link, now, first, second, before).session)
  {
    var r, after := ResultOf(first, now), first.after;
    if !Delivered(r) && !r.status.Disconnected? && after.connected {
      var start := Max(now, r.completion);
      BeginZeroSound(Halt(s), after, ConnectedInhibited, start);
      var report := before.(motionAttempted := true, transportStatus := r.status,
                            motionComplete := r.hostWriteComplete, uncertain := r.outcomeUncertain);
      AttemptZeroSound(BeginZero(Halt(s), after, ConnectedInhibited, start), after, start, second, report);
    }
  }

  lemma ConnectedTickSound(s: Session, link: Link, now: int64, first: Outcome, second: Outcome, blank: CycleResult)
    requires Sound(s) && s.configured && s.known && link.connected && now > 0
    ensures Sound(ConnectedTick(s, link, now, first, second, blank).session)
  {
    if s.episode.Episode? {
      AttemptZeroSound(s, link, now, first, blank);
    } else if s.mode.Active? && !s.latched {
      if !IsAuthorized(s) {
        StopAndTrySound(s, link, ConnectedInhibited, now, first, blank);
      } else if !FeedbackIsFresh(s, now) || !CommandIsFresh(s, now) {
        StopAndTrySound(s, link, Recovering, now, first, blank);
      } else {
        SendMotionSound(s, link, now, first, second, blank);
      }
    }
  }

  lemma StopAndTrySound(s: Session, link: Link, after: Mode, now: int64, o: Outcome, blank: CycleResult)
    requires Sound(s) && s.configured && s.known && link.connected && now > 0
    requires after.ConnectedInhibited? || after.Recovering?
    ensures Sound(StopAndTry(s, link, after, now, o, blank).session)
  {
    var z := BeginZero(ClearIntent(s), link, after, now);
    BeginZeroSound(ClearIntent(s), link, after, now);
    AttemptZeroSound(z, link, now, o, blank);
  }

  lemma TickSound(s: Session, link: Link, now: int64, first: Outcome, second: Outcome)
    requires Sound(s)
    ensures Sound(Tick(s, link, now, first, second).session)
  {
    if s.configured {
      if ClockOk(s, now) {
        var (c, sync) := Synchronize(Observe(s, now), link);
        SynchronizeSound(Observe(s, now), link);
        if !sync.Lost? {
          var blank := CycleResult(NoAction, s.mode, Ok, false, false, false, false, false, 0);
          ConnectedTickSound(c, link, now, first, second, blank);
        }
      } else {
        ClockFailedSound(s, link);
      }
    }
  }

  lemma AuthorizeSound(s: Session, link: Link, token: uint64, now: int64)
    requires Sound(s) && s.configured
    ensures Sound(Authorize(s, link, token, now).0)
  {
    if ClockOk(s, now) {
      SynchronizeSound(Observe(s, now), link);
    } else {
      ClockFailedSound(s, link);
    }
  }

  lemma InhibitSound(s: Session, link: Link, now: int64)
    requires Sound(s) && s.configured && s.known && link.connected
    ensures Sound(Inhibit(s, link, now))
    ensures Sound(Inhibit(s.(feedback := None), link, now))
  {
    BeginZeroSound(Halt(s), link, RestMode(s), now);
    BeginZeroSound(Halt(s.(feedback := None)), link, RestMode(s), now);
  }

  lemma DisarmSound(s: Session, link: Link, now: int64)
    requires Sound(s) && s.configured
    ensures Sound(Disarm(s, link, now).0)
  {
    if ClockOk(s, now) {
      SynchronizeSound(Observe(s, now), link);
      var (c, sync) := Synchronize(Observe(s, now), link);
      if !sync.Lost? {
        InhibitSound(c, link, now);
      }
    } else {
      ClockFailedSound(s, link);
    }
  }

  lemma RequestStopSound(s: Session, link: Link, now: int64)
    requires Sound(s) && s.configured
    ensures Sound(RequestStop(s, link, now).0)
  {
    if ClockOk(s, now) {
      SynchronizeSound(Observe(s, now), link);
      var (c, sync) := Synchronize(Observe(s, now), link);
      if !sync.Lost? {
        BeginZeroSound(ClearIntent(c), link, if IsAuthorized(c) then Recovering else RestMode(c), now);
      }
    } else {
      ClockFailedSound(s, link);
    }
  }

  lemma SubmitSound(s: Session, link: Link, command: TimedMotionCommand, now: int64)
    requires Sound(s) && s.configured
    ensures Sound(Submit(s, link, command, now).0)
  {
    if ClockOk(s, now) {
      SynchronizeSound(Observe(s, now), link);
      var (c, sync) := Synchronize(Observe(s, now), link);
      SettleSound(c, link, command, now, sync);
    } else {
      ClockFailedSound(s, link);
    }
  }

  lemma ObserveFeedbackSound(s: Session, link: Link, frame: seq<Byte>, now: int64)
    requires Sound(s) && s.configured
    ensures Sound(ObserveFeedback(s, link, frame, now).0)
  {
    if ClockOk(s, now) {
      SynchronizeSound(Observe(s, now), link);
      var (c, sync) := Synchronize(Observe(s, now), link);
      if !sync.Lost? {
        InhibitSound(c, link, now);
        AllowedSound(c, now);
      }
    } else {
      ClockFailedSound(s, link);
    }
  }

  lemma AllowedSound(s: Session, now: int64)
    requires Sound(s) && s.configured && s.known && 0 < now <= s.seen
    ensures Sound(s.(feedback := Some(now)))
  {
  }

  lemma LatchSound(s: Session, link: Link, now: int64)
    requires Sound(s)
    ensures Sound(LatchEmergencyStop(s, link, now))
  {
    if s.configured {
      var h := Halt(s).(latched := true, feedback := None);
      var observed := if ClockOk(s, now) then Observe(h, now) else h;
      SynchronizeSound(observed, link);
      var (c, sync) := Synchronize(observed, link);
      if !sync.Lost? {
        BeginZeroSound(c, link, Mode.EmergencyStopLatched, if ClockOk(s, now) then now else s.seen);
      }
    }
  }

  lemma ResetSound(s: Session, link: Link, token: uint64, now: int64)
    requires Sound(s) && s.configured
    ensures Sound(ResetEmergencyStop(s, link, token, now).0)
  {
    if ClockOk(s, now) {
      SynchronizeSound(Observe(s, now), link);
    } else {
      ClockFailedSound(s, link);
    }
  }

  lemma StepSound(s: Session, t: Turn)
    requires Sound(s)
    ensures Sound(Step(s, t).session)
  {
    match t.call
    case CallLatch(at) => LatchSound(s, t.link, at);
    case CallTick(at) => TickSound(s, t.link, at, t.first, t.second);
    case _ =>
      if s.configured {
        match t.call
        case CallAuthorize(token, at) => AuthorizeSound(s, t.link, token, at);
        case CallDisarm(at) => DisarmSound(s, t.link, at);
        case CallRequestStop(at) => RequestStopSound(s, t.link, at);
        case CallSubmit(command, at) => SubmitSound(s, t.link, command, at);
        case CallObserveFeedback(frame, at) => ObserveFeedbackSound(s, t.link, frame, at);
        case CallReset(token, at) => ResetSound(s, t.link, token, at);
      }
  }

  // The invariant over every run, for any link behaviour and write outcomes.
  lemma {:induction false} RunSound(config: SafetyConfig, link: Link, turns: seq<Turn>)
    ensures var s := Run(config, link, turns).session;
            Sound(s) && s.config == config && s.configured == ConfigIsValid(config)
  {
    if turns == [] {
      if ConfigIsValid(config) {
        SynchronizeSound(Created(config), link);
      }
    } else {
      var n := |turns| - 1;
      RunSound(config, link, turns[..n]);
      var s := Run(config, link, turns[..n]).session;
      StepSound(s, turns[n]);
    }
  }
}
