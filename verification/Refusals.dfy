// What a latch keeps out, and why a refused command stays refused.

module Refusals {
  import opened Wrappers
  import opened Protocol
  import opened TransportModel
  import opened SessionModel
  import opened SessionInvariant
  import opened LogReading
  import opened SessionFrames

  // ----- Emergency stop -----

  // A latch call since the last feedback that allowed control.
  predicate FeedbackOwed(log: seq<Entry>) {
    log != [] && (
      var e := Last(log);
      if e.Called? && e.call.CallLatch? then true
      else if FeedbackAllowed(e) then false
      else FeedbackOwed(Before(log)))
  }

  predicate FeedbackHeld(s: Session, log: seq<Entry>) {
    FeedbackOwed(log) ==> s.feedback.None?
  }

  lemma FeedbackAfterCall(s: Session, n: Session, link: Link, log: seq<Entry>, e: Entry)
    requires e.Called? && Framed(s, n, link, e) && FeedbackHeld(s, log)
    ensures FeedbackHeld(n, log + [e])
  {
    Snoc(log, e);
  }

  lemma FeedbackAfterZero(s: Session, link: Link, log: seq<Entry>, e: WriteEntry, n: Session, after: Link)
    requires ZeroStep(s, link, e, n, after) && FeedbackHeld(s, log)
    ensures FeedbackHeld(n, log + [e])
  {
    Snoc(log, e);
  }

  lemma FeedbackAfterMotion(s: Session, log: seq<Entry>, e: WriteEntry)
    requires FeedbackHeld(s, log)
    ensures FeedbackHeld(MotionLeft(s, e), log + [e])
  {
    Snoc(log, e);
  }

  // ----- Feedback watchdog -----

  // Control was allowed at position f and nothing has withdrawn it since.
  predicate AllowedSince(log: seq<Entry>, f: nat, generation: uint64) {
    && f < |log| && FeedbackAllowed(log[f]) && log[f].link.generation == generation
    && forall k :: f < k < |log| ==> !FeedbackInhibited(log[k]) && !(log[k].Called? && log[k].call.CallLatch?)
  }

  ghost predicate FeedbackKnown(s: Session, log: seq<Entry>) {
    s.feedback.Some? ==>
      exists f: nat :: AllowedSince(log, f, s.generation) && log[f].call.at == s.feedback.value
  }

  // What a motion write needs of the feedback before it.
  ghost predicate Watched(config: SafetyConfig, log: seq<Entry>, e: Entry)
    requires e.Wrote?
  {
    exists f: nat :: AllowedSince(log, f, e.generation) && 0 <= e.start - log[f].call.at <= config.feedbackTimeout
  }

  lemma AllowedStays(log: seq<Entry>, f: nat, generation: uint64, e: Entry)
    requires AllowedSince(log, f, generation)
    requires !FeedbackInhibited(e) && !(e.Called? && e.call.CallLatch?)
    ensures AllowedSince(log + [e], f, generation) && (log + [e])[f] == log[f]
  {
  }

  lemma KnownAfterCall(s: Session, n: Session, link: Link, log: seq<Entry>, e: Entry)
    requires e.Called? && e.link == link && Framed(s, n, link, e) && FeedbackKnown(s, log)
    ensures FeedbackKnown(n, log + [e])
  {
    if FeedbackAllowed(e) {
      assert AllowedSince(log + [e], |log|, n.generation);
    } else if n.feedback.Some? {
      var f: nat :| AllowedSince(log, f, s.generation) && log[f].call.at == s.feedback.value;
      AllowedStays(log, f, s.generation, e);
    }
  }

  lemma KnownAfterWrite(s: Session, n: Session, log: seq<Entry>, e: WriteEntry)
    requires FeedbackKnown(s, log)
    requires n.feedback.None? || (n.feedback == s.feedback && n.generation == s.generation)
    ensures FeedbackKnown(n, log + [e])
  {
    if n.feedback.Some? {
      var f: nat :| AllowedSince(log, f, s.generation) && log[f].call.at == s.feedback.value;
      AllowedStays(log, f, s.generation, e);
    }
  }

  lemma ReadyIsWatched(s: Session, link: Link, log: seq<Entry>, e: WriteEntry)
    requires Ready(s, link, e) && FeedbackKnown(s, log)
    ensures Watched(s.config, log, e)
  {
    var f: nat :| AllowedSince(log, f, s.generation) && log[f].call.at == s.feedback.value;
  }

  // An accepted reset finds no zero owed, and feedback allowed.
  lemma ResetAcceptedFacts(s: Session, link: Link, token: uint64, now: int64)
    requires Sound(s) && ResetEmergencyStop(s, link, token, now).1
    ensures !Detached(s, link) && s.episode.NoEpisode? && !s.mode.Faulted? && s.feedback.Some?
    ensures s.latched && s.topReset < token
  {
    SynchronizeFacts(Observe(s, now), link);
  }

  // From a latch on, without an accepted reset, the log reads as latched.
  lemma {:induction false} LatchedUntilReset(log: seq<Entry>, i: nat)
    requires i < |log| && log[i].Called? && log[i].call.CallLatch?
    requires forall k :: i < k < |log| ==> !ResetAccepted(log[k])
    ensures Latched(log)
    decreases |log|
  {
    if i < |log| - 1 {
      LatchedUntilReset(Before(log), i);
    }
  }

  // A log that reads as latched has a latch call with no accepted reset after it.
  lemma {:induction false} LatchBehind(log: seq<Entry>) returns (l: nat)
    requires Latched(log)
    ensures l < |log| && log[l].Called? && log[l].call.CallLatch?
    ensures forall k :: l < k < |log| ==> !ResetAccepted(log[k])
    decreases |log|
  {
    l := |log| - 1;
    if !(log[l].Called? && log[l].call.CallLatch?) {
      l := LatchBehind(Before(log));
    }
  }

  lemma {:induction false} FeedbackOwedUntilAllowed(log: seq<Entry>, i: nat)
    requires i < |log| && log[i].Called? && log[i].call.CallLatch?
    ensures FeedbackOwed(log) || exists k :: i < k < |log| && FeedbackAllowed(log[k])
    decreases |log|
  {
    if i < |log| - 1 {
      FeedbackOwedUntilAllowed(Before(log), i);
    }
  }

  // ----- No resurrection -----

  // A command turned down at a valid receipt time not before its creation.
  predicate RefusedInTime(log: seq<Entry>, e: Entry) {
    && e.Called? && e.call.CallSubmit? && !SubmissionAccepted(e)
    && !ClockRegressed(log, e.call) && e.call.command.created <= e.call.at
  }

  // Nothing the session can do will make it accept this command.
  predicate Dead(s: Session, c: TimedMotionCommand) {
    || c.sequence <= s.topSequence
    || (c.created <= s.seen && (s.permit.NoPermit? || s.mode.Faulted? || c.created <= s.permit.time))
  }

  predicate RefusalsHeld(s: Session, log: seq<Entry>) {
    forall k :: 0 <= k < |log| && RefusedInTime(log[..k], log[k]) ==> Dead(s, log[k].call.command)
  }

  lemma DeadAfterCall(s: Session, n: Session, link: Link, e: Entry, c: TimedMotionCommand)
    requires e.Called? && Framed(s, n, link, e) && n.configured && Sound(n) && Dead(s, c)
    ensures Dead(n, c)
  {
  }

  lemma RefusedIsDead(s: Session, t: Turn)
    requires Sound(s) && s.configured && t.call.CallSubmit? && ClockOk(s, t.call.at)
    requires t.call.command.created <= t.call.at && !SubmissionAccepted(CallEntry(s, t))
    ensures Dead(Step(s, t).session, t.call.command)
  {
    var at := t.call.at;
    SynchronizeFacts(Observe(s, at), t.link);
    SynchronizeSound(Observe(s, at), t.link);
    var (c, sync) := Synchronize(Observe(s, at), t.link);
    if !sync.Lost? {
      RefusalSoftened(c, t.link, t.call.command, at, sync);
      RefusalConsumes(c, t.link, t.call.command, at, sync);
    }
  }

  // A refusal either consumes the sequence or meets a latch, a fault or no link.
  lemma RefusalConsumes(s: Session, link: Link, command: TimedMotionCommand, now: int64, sync: Sync)
    requires Sound(s) && s.configured && s.known && link.connected && !sync.Lost?
    requires var v := Verdict(s, sync, command, now); !v.Accepted? && !v.RecoveryPending?
    ensures var n := Settle(s, link, command, now, Verdict(s, sync, command, now));
            command.sequence <= n.topSequence || ((s.latched || s.mode.Faulted?) && n == s)
  {
  }

  lemma RefusalsGrow(s: Session, n: Session, log: seq<Entry>, e: Entry)
    requires RefusalsHeld(s, log)
    requires forall c :: Dead(s, c) ==> Dead(n, c)
    requires RefusedInTime(log, e) ==> Dead(n, e.call.command)
    ensures RefusalsHeld(n, log + [e])
  {
    var all := log + [e];
    forall k | 0 <= k < |all| && RefusedInTime(all[..k], all[k])
      ensures Dead(n, all[k].call.command)
    {
      assert k < |log| ==> all[..k] == log[..k];
      assert all[..|log|] == log;
    }
  }

  lemma RefusalsAfterCall(s: Session, n: Session, link: Link, log: seq<Entry>, e: Entry)
    requires e.Called? && Framed(s, n, link, e) && n.configured && Sound(n) && RefusalsHeld(s, log)
    requires RefusedInTime(log, e) ==> Dead(n, e.call.command)
    ensures RefusalsHeld(n, log + [e])
  {
    forall c | Dead(s, c) ensures Dead(n, c) {
      DeadAfterCall(s, n, link, e, c);
    }
    RefusalsGrow(s, n, log, e);
  }

  lemma RefusalsAfterZero(s: Session, link: Link, log: seq<Entry>, e: WriteEntry, n: Session, after: Link)
    requires Sound(s) && s.configured && ZeroStep(s, link, e, n, after) && RefusalsHeld(s, log)
    ensures RefusalsHeld(n, log + [e])
  {
    RefusalsGrow(s, n, log, e);
  }

  lemma RefusalsAfterMotion(s: Session, link: Link, log: seq<Entry>, e: WriteEntry)
    requires Sound(s) && s.configured && Ready(s, link, e) && RefusalsHeld(s, log)
    ensures RefusalsHeld(MotionLeft(s, e), log + [e])
  {
    RefusalsGrow(s, MotionLeft(s, e), log, e);
  }
}
