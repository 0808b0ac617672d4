// The theorems about every reachable log of a session: any calls in any order,
// any link behaviour and any write outcomes.

module SessionRuns {
  import opened Wrappers
  import opened Protocol
  import opened TransportModel
  import opened SessionModel
  import opened Reachability
  import opened SessionInvariant
  import opened LogReading
  import opened SessionFrames
  import opened StopBarrier
  import opened Ladders
  import opened WriteBudgets
  import opened Refusals

  // ----- One invariant for everything the log says of the session -----

  ghost predicate LadderKept(s: Session, link: Link, log: seq<Entry>) {
    exists clean: nat, r: Rungs :: LadderHeld(s, link, log, clean, r)
  }

  // What a transport that keeps its contract adds.
  ghost predicate BoundsHeld(s: Session, link: Link, log: seq<Entry>) {
    && (LossesHonest(log) ==> RateHeld(s, link, log))
    && (ContractKept(log) ==> BudgetHeld(s, link, log))
  }

  // What the session remembers of feedback, and what it will never take again.
  ghost predicate MarksHeld(s: Session, log: seq<Entry>) {
    FeedbackHeld(s, log) && FeedbackKnown(s, log) && RefusalsHeld(s, log)
  }

  ghost predicate Held(s: Session, link: Link, log: seq<Entry>) {
    && Sound(s) && s.configured && s.generation <= link.generation
    && LadderKept(s, link, log) && BoundsHeld(s, link, log) && MarksHeld(s, log)
  }

  // What holds of each entry, given the log before it.
  ghost predicate Checked(config: SafetyConfig, log: seq<Entry>, e: Entry) {
    && (e.Wrote? && LossesHonest(log) ==> WithinRate(config, log, e))
    && (e.Wrote? && ContractKept(log) ==> WithinBudget(config, log, e))
    && (IsMotion(e) ==> Watched(config, log, e))
    && (IsMotion(e) ==> exists r: Rungs :: Climbed(config, log + [e], |log|, r))
    && (AuthorizationAccepted(e) ==> !Latched(log))
    && (ResetAccepted(e) ==>
          Latched(log) && !ZeroOwed(config, log) && !FeedbackOwed(log)
          && forall k :: 0 <= k < |log| && ResetAccepted(log[k]) ==> log[k].call.token < e.call.token)
    && (SubmissionAccepted(e) ==>
          forall k :: 0 <= k < |log| && SubmissionAccepted(log[k]) ==>
            log[k].call.command.sequence < e.call.command.sequence)
    && (SubmissionAccepted(e) ==>
          forall k :: 0 <= k < |log| && RefusedInTime(log[..k], log[k]) ==>
            log[k].call.command != e.call.command)
  }

  ghost predicate AllChecked(config: SafetyConfig, log: seq<Entry>) {
    forall j :: 0 <= j < |log| ==> Checked(config, log[..j], log[j])
  }

  lemma AllCheckedGrows(config: SafetyConfig, log: seq<Entry>, e: Entry)
    requires AllChecked(config, log) && Checked(config, log, e)
    ensures AllChecked(config, log + [e])
  {
    var all := log + [e];
    forall j | 0 <= j < |all|
      ensures Checked(config, all[..j], all[j])
    {
      assert j < |log| ==> all[..j] == log[..j];
      assert all[..|log|] == log;
    }
  }

  lemma HeldAfterCall(s: Session, n: Session, link: Link, log: seq<Entry>, e: Entry)
    requires Held(s, link, log) && Sound(n) && e.Called? && e.link == link && Framed(s, n, link, e)
    requires RefusedInTime(log, e) ==> Dead(n, e.call.command)
    ensures Held(n, link, log + [e])
  {
    var clean: nat, r: Rungs :| LadderHeld(s, link, log, clean, r);
    var r' := LadderAfterCall(s, n, link, log, e, clean, r);
    ContractOfPrefix(log, [e]);
    if LossesHonest(log) {
      RateAfterCall(s, n, link, log, e);
    }
    if ContractKept(log) {
      BudgetAfterCall(s, n, link, log, e);
    }
    FeedbackAfterCall(s, n, link, log, e);
    KnownAfterCall(s, n, link, log, e);
    RefusalsAfterCall(s, n, link, log, e);
  }

  // The contract up to a write covers that write.
  lemma ContractOfLast(log: seq<Entry>, e: WriteEntry)
    ensures LossesHonest(log + [e]) ==> LossesHonest(log) && HonestLoss(e.outcome)
    ensures LinksKept(log + [e]) ==> LinksKept(log) && LinkKept(e.generation, e.outcome)
  {
    ContractOfPrefix(log, [e]);
    assert (log + [e])[|log|] == e;
  }

  lemma HeldAfterZero(s: Session, link: Link, log: seq<Entry>, e: WriteEntry, n: Session, after: Link)
    requires Held(s, link, log) && ZeroStep(s, link, e, n, after) && Sound(n) && LinkFollows(link, after)
    requires ContractKept(log) ==> s.generation == link.generation
    ensures Held(n, after, log + [e]) && Checked(s.config, log, e)
  {
    var clean: nat, r: Rungs :| LadderHeld(s, link, log, clean, r);
    var clean' := LadderAfterZero(s, link, log, e, n, after, clean, r);
    ContractOfLast(log, e);
    if LossesHonest(log) && HonestLoss(e.outcome) {
      RateAfterZero(s, link, log, e, n, after);
    }
    if ContractKept(log) {
      BudgetAfterZero(s, link, log, e, n, after);
    }
    FeedbackAfterZero(s, link, log, e, n, after);
    KnownAfterWrite(s, n, log, e);
    RefusalsAfterZero(s, link, log, e, n, after);
  }

  lemma BoundsAfterMotion(s: Session, link: Link, log: seq<Entry>, e: WriteEntry)
    requires Sound(s) && s.configured && BoundsHeld(s, link, log)
    requires Ready(s, link, e) && LinkFollows(link, e.outcome.after)
    ensures BoundsHeld(MotionLeft(s, e), e.outcome.after, log + [e])
    ensures LossesHonest(log) ==> WithinRate(s.config, log, e)
    ensures ContractKept(log) ==> WithinBudget(s.config, log, e)
  {
    ContractOfLast(log, e);
    if LossesHonest(log) {
      RateAfterMotion(s, link, log, e);
    }
    if ContractKept(log) {
      BudgetAfterMotion(s, link, log, e);
    }
  }

  lemma MarksAfterMotion(s: Session, link: Link, log: seq<Entry>, e: WriteEntry)
    requires Sound(s) && MarksHeld(s, log) && Ready(s, link, e)
    ensures MarksHeld(MotionLeft(s, e), log + [e]) && Watched(s.config, log, e)
  {
    FeedbackAfterMotion(s, log, e);
    KnownAfterWrite(s, MotionLeft(s, e), log, e);
    ReadyIsWatched(s, link, log, e);
    RefusalsAfterMotion(s, link, log, e);
  }

  lemma HeldAfterMotion(s: Session, link: Link, log: seq<Entry>, e: WriteEntry)
    requires Held(s, link, log) && Ready(s, link, e) && LinkFollows(link, e.outcome.after)
    ensures Held(MotionLeft(s, e), e.outcome.after, log + [e]) && Checked(s.config, log, e)
  {
    var clean: nat, r: Rungs :| LadderHeld(s, link, log, clean, r);
    MotionLeftSound(s, link, e);
    LadderAfterMotion(s, link, log, e, clean, r);
    MotionClimbed(s, link, log, e, clean, r);
    BoundsAfterMotion(s, link, log, e);
    MarksAfterMotion(s, link, log, e);
  }

  // The entry of the call itself.
  lemma CallChecked(s: Session, log: seq<Entry>, t: Turn, n: Session)
    requires Held(s, t.link, log) && Consistent(s, t.link, log)
    requires Framed(s, n, t.link, CallEntry(s, t))
    ensures Checked(s.config, log, CallEntry(s, t))
  {
    var e := CallEntry(s, t);
    var clean: nat, r: Rungs :| LadderHeld(s, t.link, log, clean, r);
    if ResetAccepted(e) {
      ResetAcceptedFacts(s, t.link, t.call.token, t.call.at);
    }
  }

  lemma RefusalOfTurn(s: Session, log: seq<Entry>, t: Turn)
    requires Sound(s) && s.configured && Consistent(s, t.link, log)
    ensures RefusedInTime(log, CallEntry(s, t)) ==> Dead(Step(s, t).session, t.call.command)
  {
    if RefusedInTime(log, CallEntry(s, t)) {
      RefusedIsDead(s, t);
    }
  }

  // A log that passes all checks, of a session that everything holds of.
  ghost predicate Proven(s: Session, link: Link, log: seq<Entry>) {
    Held(s, link, log) && AllChecked(s.config, log)
  }

  lemma ProvenAfterZero(s: Session, link: Link, log: seq<Entry>, e: WriteEntry, n: Session, after: Link)
    requires Proven(s, link, log) && ZeroStep(s, link, e, n, after) && Sound(n) && LinkFollows(link, after)
    requires ContractKept(log) ==> s.generation == link.generation
    ensures Proven(n, after, log + [e])
  {
    HeldAfterZero(s, link, log, e, n, after);
    AllCheckedGrows(s.config, log, e);
  }

  lemma ProvenAfterMotion(s: Session, link: Link, log: seq<Entry>, e: WriteEntry)
    requires Proven(s, link, log) && Ready(s, link, e) && LinkFollows(link, e.outcome.after)
    ensures Proven(MotionLeft(s, e), e.outcome.after, log + [e])
  {
    HeldAfterMotion(s, link, log, e);
    AllCheckedGrows(s.config, log, e);
  }

  // A failed motion write and the zero write after it.
  lemma ProvenAfterBoth(a: Session, link: Link, log: seq<Entry>, e: WriteEntry, z: WriteEntry, n: Session, after: Link)
    requires Proven(a, link, log) && Ready(a, link, e) && LinkFollows(link, e.outcome.after)
    requires !WriteDone(e) && !DropsSession(e)
    requires ZeroStep(MotionLeft(a, e), e.outcome.after, z, n, after) && Sound(n)
    requires LinkFollows(e.outcome.after, after)
    ensures Proven(n, after, log + [e] + [z])
  {
    ProvenAfterMotion(a, link, log, e);
    ContractOfLast(log, e);
    ProvenAfterZero(MotionLeft(a, e), e.outcome.after, log + [e], z, n, after);
  }

  lemma ProvenAfterOne(a: Session, link: Link, log: seq<Entry>, r: Stepped)
    requires Proven(a, link, log) && CyclePhases(a, link, r) && Sound(r.session)
    requires |r.writes| == 1 && !Detached(a, link) && LinksFollow(link, r.writes)
    ensures Proven(r.session, r.link, log + r.writes)
  {
    var e := r.writes[0];
    assert r.writes == [e];
    if e.motion {
      assert r.session == MotionLeft(a, e) && r.link == e.outcome.after;
      ProvenAfterMotion(a, link, log, e);
    } else {
      ProvenAfterZero(a, link, log, e, r.session, r.link);
    }
  }

  lemma ProvenAfterTwo(a: Session, link: Link, log: seq<Entry>, r: Stepped)
    requires Proven(a, link, log) && CyclePhases(a, link, r) && Sound(r.session)
    requires |r.writes| == 2 && !Detached(a, link) && LinksFollow(link, r.writes)
    ensures Proven(r.session, r.link, log + r.writes)
  {
    var e, z := r.writes[0], r.writes[1];
    assert log + r.writes == log + [e] + [z];
    assert ZeroStep(MotionLeft(a, e), e.outcome.after, z, r.session, r.link);
    ProvenAfterBoth(a, link, log, e, z, r.session, r.link);
  }

  lemma ProvenAfterWrites(a: Session, link: Link, log: seq<Entry>, r: Stepped)
    requires Proven(a, link, log) && CyclePhases(a, link, r) && Sound(r.session)
    requires (r.writes != [] ==> !Detached(a, link)) && LinksFollow(link, r.writes)
    ensures Proven(r.session, r.link, log + r.writes)
  {
    if r.writes == [] {
      assert log + r.writes == log;
    } else if |r.writes| == 2 {
      ProvenAfterTwo(a, link, log, r);
    } else {
      ProvenAfterOne(a, link, log, r);
    }
  }

  lemma ProvenAfterCall(s: Session, n: Session, link: Link, log: seq<Entry>, e: Entry)
    requires Proven(s, link, log) && Sound(n) && e.Called? && e.link == link && Framed(s, n, link, e)
    requires RefusedInTime(log, e) ==> Dead(n, e.call.command)
    requires Checked(s.config, log, e)
    ensures Proven(n, link, log + [e])
  {
    HeldAfterCall(s, n, link, log, e);
    AllCheckedGrows(s.config, log, e);
  }

  // The entry of a cycle and its writes.
  lemma ProvenAfterCycle(s: Session, a: Session, link: Link, log: seq<Entry>, e: Entry, r: Stepped)
    requires Proven(s, link, log) && CycleTold(s, a, link, log, e, r) && Checked(s.config, log, e)
    ensures Proven(r.session, r.link, log + [e] + r.writes)
  {
    ProvenAfterCall(s, a, link, log, e);
    ProvenAfterWrites(a, link, log + [e], r);
  }

  // The entry of a cycle accepts nothing.
  lemma CycleChecked(s: Session, log: seq<Entry>, t: Turn)
    requires t.call.CallTick?
    ensures Checked(s.config, log, CallEntry(s, t))
  {
  }

  lemma ProvenAfterTick(s: Session, log: seq<Entry>, t: Turn)
    requires Proven(s, t.link, log) && Consistent(s, t.link, log) && t.call.CallTick?
    requires LinkFollows(t.link, t.first.after) && LinkFollows(t.first.after, t.second.after)
    ensures var r := Step(s, t);
            Proven(r.session, r.link, log + [CallEntry(s, t)] + r.writes)
  {
    TickTold(s, log, t);
    CycleChecked(s, log, t);
    ProvenAfterCycle(s, TickOpened(s, t.link, t.call.at), t.link, log, CallEntry(s, t), Step(s, t));
  }

  lemma ProvenAfterNonTick(s: Session, log: seq<Entry>, t: Turn)
    requires Proven(s, t.link, log) && Consistent(s, t.link, log) && !t.call.CallTick?
    ensures var r := Step(s, t);
            Proven(r.session, r.link, log + [CallEntry(s, t)] + r.writes)
  {
    var r, e := Step(s, t), CallEntry(s, t);
    CallQuiet(s, t);
    CallFramed(s, t);
    StepSound(s, t);
    RefusalOfTurn(s, log, t);
    CallChecked(s, log, t, r.session);
    ProvenAfterCall(s, r.session, t.link, log, e);
    assert log + [e] + r.writes == log + [e];
  }

  lemma ProvenLinkMoved(s: Session, before: Link, after: Link, log: seq<Entry>)
    requires Proven(s, before, log) && LinkFollows(before, after)
    ensures Proven(s, after, log)
  {
    BudgetLinkMoved(s, before, after, log);
    var clean: nat, r: Rungs :| LadderHeld(s, before, log, clean, r);
    LadderLinkMoved(s, before, after, log, clean, r);
  }

  lemma ProvenAfterTurn(w: World, t: Turn)
    requires Proven(w.session, w.link, w.log) && Consistent(w.session, w.link, w.log) && TurnAllowed(w.link, t)
    ensures var n := Next(w, t);
            Proven(n.session, n.link, n.log)
  {
    LinkMoved(w.session, w.link, t.link, w.log);
    ProvenLinkMoved(w.session, w.link, t.link, w.log);
    if t.call.CallTick? {
      ProvenAfterTick(w.session, w.log, t);
    } else {
      ProvenAfterNonTick(w.session, w.log, t);
    }
  }

  lemma HeldInitially(config: SafetyConfig, link: Link)
    requires ConfigIsValid(config)
    ensures Held(Initial(config, link), link, [])
  {
    SynchronizeSound(Created(config), link);
    assert LadderHeld(Initial(config, link), link, [], 0, Rungs(0, 0, []));
  }

  ghost predicate HeldIfConfigured(config: SafetyConfig, w: World) {
    && KeptIfConfigured(config, w)
    && (ConfigIsValid(config) ==> Proven(w.session, w.link, w.log))
  }

  lemma ReachableHeld(config: SafetyConfig, w: World)
    requires ConfigIsValid(config) && Reachable(config, w)
    ensures Held(w.session, w.link, w.log) && AllChecked(config, w.log) && w.session.config == config
  {
    var held := iset v: World | HeldIfConfigured(config, v);
    forall link
      ensures World(Initial(config, link), link, []) in held
    {
      KeptInitially(config, link);
      HeldInitially(config, link);
    }
    forall v, t | v in held && TurnAllowed(v.link, t)
      ensures Next(v, t) in held
    {
      TurnKept(v, t);
      ProvenAfterTurn(v, t);
    }
    assert Closed(config, held);
  }

  lemma CheckedAt(config: SafetyConfig, w: World, j: nat)
    requires ConfigIsValid(config) && Reachable(config, w) && j < |w.log|
    ensures Checked(config, w.log[..j], w.log[j])
  {
    ReachableHeld(config, w);
  }

  // ----- The theorems -----

  // The ladder: each motion write on a generation stands on a completed exact
  // zero write, then an authorization with a token above every earlier one,
  // then an unbroken run of enough fresh commands, all on that generation; the
  // frame is the encoding of the run's last command.
  lemma MotionLadder(config: SafetyConfig, w: World, j: nat)
    requires Reachable(config, w)
    requires j < |w.log| && IsMotion(w.log[j])
    ensures exists r: Rungs :: Climbed(config, w.log, j, r)
  {
    ConfiguredIfActing(config, w, j);
    CheckedAt(config, w, j);
    var r: Rungs :| Climbed(config, w.log[..j] + [w.log[j]], |w.log[..j]|, r);
    ClimbedStays(config, w.log, j, r);
  }

  // The feedback watchdog: each motion write starts within the feedback timeout
  // of a feedback that allowed control on that generation, with neither
  // inhibited feedback nor a latch since.
  lemma MotionIsWatched(config: SafetyConfig, w: World, j: nat)
    requires Reachable(config, w)
    requires j < |w.log| && IsMotion(w.log[j])
    ensures Watched(config, w.log[..j], w.log[j])
  {
    ConfiguredIfActing(config, w, j);
    CheckedAt(config, w, j);
  }

  lemma ClimbedStays(config: SafetyConfig, log: seq<Entry>, j: nat, r: Rungs)
    requires j < |log| && Climbed(config, log[..j] + [log[j]], j, r)
    ensures Climbed(config, log, j, r)
  {
    var cut := log[..j] + [log[j]];
    assert forall k :: 0 <= k <= j ==> cut[k] == log[k];
  }

  lemma ConfiguredIfActing(config: SafetyConfig, w: World, j: nat)
    requires Reachable(config, w) && j < |w.log|
    requires var e := w.log[j];
             e.Wrote? || ResetAccepted(e) || SubmissionAccepted(e) || AuthorizationAccepted(e)
    ensures ConfigIsValid(config)
  {
    if !ConfigIsValid(config) {
      ReachableInert(config, w, j);
    }
  }

  // ----- With the transport's contract -----

  lemma BudgetedThroughout(config: SafetyConfig, w: World)
    requires ConfigIsValid(config) && Reachable(config, w) && ContractKept(w.log)
    ensures AllWithinBudget(config, w.log)
  {
    ReachableHeld(config, w);
    forall j | 0 <= j < |w.log| && w.log[j].Wrote?
      ensures WithinBudget(config, w.log[..j], w.log[j])
    {
      assert w.log[..j] + w.log[j..] == w.log;
      ContractOfPrefix(w.log[..j], w.log[j..]);
    }
  }

  lemma RatedThroughout(config: SafetyConfig, w: World)
    requires ConfigIsValid(config) && Reachable(config, w) && LossesHonest(w.log)
    ensures AllWithinRate(config, w.log)
  {
    ReachableHeld(config, w);
    forall j | 0 <= j < |w.log| && w.log[j].Wrote?
      ensures WithinRate(config, w.log[..j], w.log[j])
    {
      assert w.log[..j] + w.log[j..] == w.log;
      ContractOfPrefix(w.log[..j], w.log[j..]);
    }
  }

  // Zero budget, at every point of every log: never more failed zero writes in a
  // row on a generation than the configuration allows.
  lemma ZeroBudget(config: SafetyConfig, w: World, i: nat, generation: uint64)
    requires ConfigIsValid(config) && Reachable(config, w) && ContractKept(w.log) && i <= |w.log|
    ensures FailStreak(w.log[..i], generation) <= config.maxZeroAttempts
  {
    BudgetedThroughout(config, w);
    StreakWithin(config, w.log, i, generation);
  }

  // Once the budget is spent nothing is written on that generation again.
  lemma SpentBudgetSilences(config: SafetyConfig, w: World, i: nat, j: nat, generation: uint64)
    requires Reachable(config, w) && ContractKept(w.log) && i <= j < |w.log|
    requires FailStreak(w.log[..i], generation) >= config.maxZeroAttempts
    ensures var e := w.log[j];
            e.Wrote? ==> e.generation != generation
  {
    if w.log[j].Wrote? {
      ConfiguredIfActing(config, w, j);
      BudgetedThroughout(config, w);
      SpentMeansSilent(config, w.log, i, j, generation);
    }
  }

  // Successive zero attempts on a generation keep the retry interval after a failure.
  lemma ZeroRetriesSpaced(config: SafetyConfig, w: World, i: nat, j: nat)
    requires Reachable(config, w) && ContractKept(w.log)
    requires i < j < |w.log| && IsZero(w.log[i]) && IsZero(w.log[j])
    requires w.log[i].generation == w.log[j].generation && !WriteDone(w.log[i])
    requires forall k :: i < k < j ==> !(IsZero(w.log[k]) && w.log[k].generation == w.log[i].generation)
    ensures w.log[j].start >= RetryTime(config, w.log[i])
  {
    ConfiguredIfActing(config, w, j);
    BudgetedThroughout(config, w);
    RetriesSpaced(config, w.log, i, j);
  }

  // Rate bound: N completed motion writes on a generation span at least N - 1
  // transmit periods, whatever happens in between.
  lemma MotionRateBound(config: SafetyConfig, w: World, at: seq<nat>, generation: uint64)
    requires Reachable(config, w) && LossesHonest(w.log) && HonestClock(w.log) && at != []
    requires forall k :: 0 <= k < |at| ==> at[k] < |w.log| && CompletedMotionOn(w.log[at[k]], generation)
    requires forall k, l :: 0 <= k < l < |at| ==> at[k] < at[l]
    ensures var first, last := w.log[at[0]], w.log[at[|at| - 1]];
            first.Wrote? && last.Wrote? && last.start - first.start >= (|at| - 1) * config.transmitPeriod
  {
    ConfiguredIfActing(config, w, at[0]);
    RatedThroughout(config, w);
    MotionsSpaced(config, w.log, at, generation);
  }

  // ----- Emergency stop -----

  lemma NoAuthorizationWhileLatched(config: SafetyConfig, w: World, i: nat, j: nat)
    requires Reachable(config, w)
    requires i < j < |w.log| && w.log[i].Called? && w.log[i].call.CallLatch?
    requires forall k :: i < k < j ==> !ResetAccepted(w.log[k])
    ensures !AuthorizationAccepted(w.log[j])
  {
    if AuthorizationAccepted(w.log[j]) {
      ConfiguredIfActing(config, w, j);
      LatchedUntilReset(w.log[..j], i);
      CheckedAt(config, w, j);
    }
  }

  // An emergency stop holds until a reset is accepted: no motion write and no
  // accepted authorization, across any reconnects.
  lemma EmergencyStopHolds(config: SafetyConfig, w: World, i: nat, j: nat)
    requires Reachable(config, w)
    requires i < j < |w.log| && w.log[i].Called? && w.log[i].call.CallLatch?
    requires forall k :: i < k < j ==> !ResetAccepted(w.log[k])
    ensures var e := w.log[j];
            !IsMotion(e) && !AuthorizationAccepted(e)
  {
    forall k | i < k <= j
      ensures !AuthorizationAccepted(w.log[k])
    {
      NoAuthorizationWhileLatched(config, w, i, k);
    }
    if IsMotion(w.log[j]) {
      StopBarrier.StopBarrier(config, w, i, j);
    }
  }

  // An accepted reset: since the latch a zero write has completed and allowed
  // feedback has been observed, and its token is above every earlier one.
  lemma ResetIsEarned(config: SafetyConfig, w: World, i: nat, j: nat)
    requires Reachable(config, w)
    requires i < j < |w.log| && w.log[i].Called? && w.log[i].call.CallLatch? && ResetAccepted(w.log[j])
    ensures exists k :: i < k < j && ZeroDone(w.log[k])
    ensures exists k :: i < k < j && FeedbackAllowed(w.log[k])
    ensures forall k :: 0 <= k < j && ResetAccepted(w.log[k]) ==> w.log[k].call.token < w.log[j].call.token
  {
    ConfiguredIfActing(config, w, j);
    CheckedAt(config, w, j);
    assert w.log[..j][..i] == w.log[..i];
    OwedUntilPaid(config, w.log[..j], i);
    FeedbackOwedUntilAllowed(w.log[..j], i);
    assert forall k :: 0 <= k < j ==> w.log[..j][k] == w.log[k];
  }

  // No sequence number is accepted twice, and a command refused in time is
  // never accepted later.
  lemma NoResurrection(config: SafetyConfig, w: World, i: nat, j: nat)
    requires Reachable(config, w)
    requires i < j < |w.log| && SubmissionAccepted(w.log[j])
    ensures SubmissionAccepted(w.log[i]) ==> w.log[i].call.command.sequence < w.log[j].call.command.sequence
    ensures RefusedInTime(w.log[..i], w.log[i]) ==> w.log[i].call.command != w.log[j].call.command
  {
    ConfiguredIfActing(config, w, j);
    CheckedAt(config, w, j);
    assert w.log[..j][i] == w.log[i] && w.log[..j][..i] == w.log[..i];
  }

  // An accepted reset gives no permission back: the next motion write needs an
  // authorization accepted after it.
  lemma ResetNeedsAuthorization(config: SafetyConfig, w: World, i: nat, j: nat)
    requires Reachable(config, w)
    requires i < j < |w.log| && ResetAccepted(w.log[i]) && IsMotion(w.log[j])
    ensures exists k :: i < k < j && AuthorizationAccepted(w.log[k])
  {
    ConfiguredIfActing(config, w, i);
    CheckedAt(config, w, i);
    var l := LatchBehind(w.log[..i]);
    assert forall k :: 0 <= k < i ==> w.log[..i][k] == w.log[k];
    StopBarrier.StopBarrier(config, w, l, j);
    var k :| l < k < j && AuthorizationAccepted(w.log[k]);
    if k < i {
      NoAuthorizationWhileLatched(config, w, l, k);
    }
  }
}
