// Why the write budgets ask for the transport's contract: without either half of
// it more zero writes fail in a row than the configuration allows.

module ContractNeeded {
  import opened Wrappers
  import opened Protocol
  import opened TransportModel
  import opened SessionModel
  import opened Reachability
  import opened SessionInvariant
  import opened LogReading
  import opened SessionFrames
  import opened StopBarrier
  import opened WriteBudgets
  import opened SessionRecovery

  const LIVE := Link(true, 1)

  // A write that reports a disconnect on a link that stays up.
  const FALSE_LOSS := Returned(IoResult(TransportStatus.Disconnected, 0, 0, false, true, 0), LIVE)

  // After n cycles whose zero writes all ended that way.
  predicate Misled(w: World, n: nat) {
    && w.session.configured && Sound(w.session) && w.link == LIVE && w.session.seen == n
    && (w.session.known <==> w.session.episode.Episode?)
    && (w.session.known ==>
          w.session.generation == 1 && w.session.episode.attempts == w.session.episode.next == 0)
    && FailStreak(w.log, 1) == n && LinksKept(w.log)
    && (n > 0 ==> !LossesHonest(w.log))
  }

  lemma OneMoreFalseLoss(w: World, n: nat)
    requires Misled(w, n) && n < INT64_MAX
    ensures var v := Next(w, Turn(CallTick(n + 1), LIVE, FALSE_LOSS, FALSE_LOSS));
            Misled(v, n + 1) && !v.session.known
  {
    var t := Turn(CallTick(n + 1), LIVE, FALSE_LOSS, FALSE_LOSS);
    var v, r := Next(w, t), Step(w.session, t);
    StepSound(w.session, t);
    var e := Called(t.call, t.link, r.reply);
    assert |r.writes| == 1 && IsZero(r.writes[0]) && r.writes[0].generation == 1 && r.writes[0].outcome == FALSE_LOSS;
    assert v.log == w.log + [e] + [r.writes[0]];
    Snoc(w.log, e);
    Snoc(w.log + [e], r.writes[0]);
    assert v.log[|w.log| + 1] == r.writes[0];
  }

  // For every valid configuration and every n: a log on which n zero writes in a
  // row failed on one generation.  Only the honesty of losses rules it out.
  lemma {:induction false} FalseLossesSpendNothing(config: SafetyConfig, n: nat) returns (w: World)
    requires ConfigIsValid(config) && n <= INT64_MAX
    ensures Reachable(config, w) && FailStreak(w.log, 1) == n && LinksKept(w.log)
    ensures Misled(w, n)
  {
    if n == 0 {
      w := FirstWorld(config);
      ReachableBegins(config, LIVE);
      SynchronizeSound(Created(config), LIVE);
    } else {
      var before := FalseLossesSpendNothing(config, n - 1);
      var t := Turn(CallTick(n), LIVE, FALSE_LOSS, FALSE_LOSS);
      OneMoreFalseLoss(before, n - 1);
      ReachableGoesOn(config, before, t);
      w := Next(before, t);
    }
  }

  // ----- A link that comes up again during a write -----

  const OTHER := Link(true, 2)

  function Failure(at: int64): Outcome {
    Returned(IoResult(IoError, 0, 0, false, true, at), OTHER)
  }

  // A cycle whose motion write fails while the link changes over to another
  // generation, so that its zero write fails there too; and a cycle after that.
  function Changeover(at: int64): Turn {
    Turn(CallTick(at), LIVE, Failure(at), Failure(at))
  }

  function CycleOnOther(at: int64): Turn {
    Turn(CallTick(at), OTHER, Failure(at), Failure(at))
  }

  lemma ChangeoverFails(s: Session, p: Plan, config: SafetyConfig)
    requires ConfigIsValid(config) && PlanFits(p, config) && p.link == LIVE
    requires Armed(s, p, config, config.freshRequired)
    ensures var at := p.start + config.freshRequired;
            var r := Step(s, Changeover(at));
            && |r.writes| == 2 && IsMotion(r.writes[0]) && IsZero(r.writes[1])
            && r.writes[1].generation == 2 && r.writes[0].outcome == r.writes[1].outcome == Failure(at)
            && r.session.seen == at && r.session.configured && r.session.config == config
            && r.link == OTHER && (r.session.known ==> r.session.generation == 1)
  {
    var at := p.start + config.freshRequired;
    assert Synchronize(Observe(s, at), p.link) == (s, Unchanged);
    assert FeedbackIsFresh(s, at) && CommandIsFresh(s, at);
  }

  lemma OtherFails(s: Session, at: int64)
    requires s.configured && s.seen < at && 0 < at && (s.known ==> s.generation == 1)
    ensures var r := Step(s, CycleOnOther(at));
            && |r.writes| == 1 && IsZero(r.writes[0])
            && r.writes[0].generation == 2 && r.writes[0].outcome == Failure(at)
  {
  }

  lemma TwoFailures(log: seq<Entry>, a: Entry, m: Entry, z: Entry, b: Entry, y: Entry)
    requires a.Called? && b.Called? && IsMotion(m) && IsZero(z) && IsZero(y)
    requires z.generation == y.generation == 2 && !WriteDone(z) && !WriteDone(y)
    ensures FailStreak(log + [a, m, z, b, y], 2) == FailStreak(log, 2) + 2
  {
    Snoc(log, a);
    Snoc(log + [a], m);
    Snoc(log + [a] + [m], z);
    Snoc(log + [a] + [m] + [z], b);
    Snoc(log + [a] + [m] + [z] + [b], y);
    assert FailStreak(log + [a] + [m], 2) == FailStreak(log + [a], 2) == FailStreak(log, 2);
    assert FailStreak(log + [a] + [m] + [z] + [b], 2) == FailStreak(log + [a] + [m] + [z], 2);
    assert log + [a, m, z, b, y] == log + [a] + [m] + [z] + [b] + [y];
  }

  predicate HonestTurns(turns: seq<Turn>) {
    forall t :: t in turns ==> HonestLoss(t.first) && HonestLoss(t.second)
  }

  lemma HonestTurn(w: World, t: Turn)
    requires LossesHonest(w.log) && HonestLoss(t.first) && HonestLoss(t.second)
    ensures LossesHonest(Next(w, t).log)
  {
    TurnEnds(w.session, t);
  }

  lemma {:induction false} HonestThroughout(w: World, turns: seq<Turn>)
    requires LossesHonest(w.log) && HonestTurns(turns)
    ensures LossesHonest(Fold(Next, w, turns).log)
    decreases |turns|
  {
    if turns != [] {
      var n := |turns| - 1;
      HonestThroughout(w, turns[..n]);
      assert turns[n] in turns;
      HonestTurn(Fold(Next, w, turns[..n]), turns[n]);
    }
  }

  lemma {:induction false} FlattenHonest(blocks: seq<seq<Turn>>)
    requires forall k :: 0 <= k < |blocks| ==> HonestTurns(blocks[k])
    ensures HonestTurns(Flatten(blocks))
  {
    if blocks != [] {
      FlattenHonest(blocks[..|blocks| - 1]);
    }
  }

  lemma FirstHonest(config: SafetyConfig)
    requires ConfigIsValid(config)
    ensures var (p, first) := (FirstPlan(config), FirstWorld(config));
            PlanFits(p, config) && LossesHonest(Commanded(Opened(first, p), p, config.freshRequired).log)
  {
    var p, first, n := FirstPlan(config), FirstWorld(config), config.freshRequired;
    FirstPlanWorks(config);
    HonestThroughout(first, Opening(p));
    FlattenHonest(Pairs(p, n));
    HonestThroughout(Opened(first, p), Flatten(Pairs(p, n)));
  }

  // A world about to send motion on the first connection.
  lemma FirstArmed(config: SafetyConfig) returns (w: World)
    requires ConfigIsValid(config)
    ensures Reachable(config, w) && LossesHonest(w.log) && LinkFollows(w.link, LIVE)
    ensures PlanFits(FirstPlan(config), config) && Armed(w.session, FirstPlan(config), config, config.freshRequired)
  {
    var p, first := FirstPlan(config), FirstWorld(config);
    FirstPlanWorks(config);
    OpenedArmed(config, first, p);
    CommandedArmed(config, Opened(first, p), p);
    FirstHonest(config);
    w := Commanded(Opened(first, p), p, config.freshRequired);
  }

  // With a budget of one, two zero writes in a row fail on the second generation
  // although every loss was honest: the first belonged to the old connection.
  lemma ReconnectSpendsTwice(config: SafetyConfig) returns (w: World)
    requires ConfigIsValid(config) && config.maxZeroAttempts == 1
    ensures Reachable(config, w) && LossesHonest(w.log) && FailStreak(w.log, 2) > config.maxZeroAttempts
  {
    var p := FirstPlan(config);
    var at := p.start + config.freshRequired;
    var armed := FirstArmed(config);
    ChangeoverFails(armed.session, p, config);
    ReachableGoesOn(config, armed, Changeover(at));
    HonestTurn(armed, Changeover(at));
    var changed := Next(armed, Changeover(at));
    OtherFails(changed.session, at + 1);
    ReachableGoesOn(config, changed, CycleOnOther(at + 1));
    HonestTurn(changed, CycleOnOther(at + 1));
    w := Next(changed, CycleOnOther(at + 1));
    BothFailed(armed, at);
  }

  lemma BothFailed(armed: World, at: int64)
    requires at < INT64_MAX
    requires var r := Step(armed.session, Changeover(at));
             && |r.writes| == 2 && IsMotion(r.writes[0]) && IsZero(r.writes[1])
             && r.writes[1].generation == 2 && r.writes[1].outcome == Failure(at)
             && r.session == Next(armed, Changeover(at)).session
    requires var q := Step(Next(armed, Changeover(at)).session, CycleOnOther(at + 1));
             && |q.writes| == 1 && IsZero(q.writes[0])
             && q.writes[0].generation == 2 && q.writes[0].outcome == Failure(at + 1)
    ensures FailStreak(Next(Next(armed, Changeover(at)), CycleOnOther(at + 1)).log, 2) >= 2
  {
    var r, changed := Step(armed.session, Changeover(at)), Next(armed, Changeover(at));
    var q := Step(changed.session, CycleOnOther(at + 1));
    var a, b := Called(CallTick(at), LIVE, r.reply), Called(CallTick(at + 1), OTHER, q.reply);
    assert changed.log == armed.log + [a, r.writes[0], r.writes[1]];
    assert Next(changed, CycleOnOther(at + 1)).log == changed.log + [b, q.writes[0]];
    assert armed.log + [a, r.writes[0], r.writes[1]] + [b, q.writes[0]]
        == armed.log + [a, r.writes[0], r.writes[1], b, q.writes[0]];
    TwoFailures(armed.log, a, r.writes[0], r.writes[1], b, q.writes[0]);
  }
}
