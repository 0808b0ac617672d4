// Motion can be had again from every reachable world that is neither latched nor
// out of zero attempts: a script of calls that ends in a motion write.

module SessionRecovery {
  import opened Wrappers
  import opened Protocol
  import opened TransportModel
  import opened SessionModel
  import opened Reachability
  import opened SessionInvariant
  import opened LogReading
  import opened SessionFrames
  import opened StopBarrier
  import opened SessionProgress
  import opened Answers

  // What the operator's side does: from `start` on, one nanosecond per command.
  datatype Plan = Plan(
    link: Link, start: int64, token: uint64, base: uint64, feedback: seq<Byte>,
    motion: MotionCommand, wire: CommandFrame)

  // A write that succeeds at once.
  function Prompt(at: int64, link: Link): Outcome {
    Returned(IoResult(Ok, COMMAND_FRAME_SIZE, 0, true, false, at), link)
  }

  function TurnOf(p: Plan, call: Call): Turn {
    Turn(call, p.link, Prompt(call.at, p.link), Prompt(call.at, p.link))
  }

  predicate PlanFits(p: Plan, config: SafetyConfig) {
    && 0 < p.start && p.start + config.freshRequired + 1 <= INT64_MAX
    && p.base + config.freshRequired <= UINT64_MAX
    && p.link.Usable() && AllowsControl(p.feedback)
    && MotionAllowed(config, p.motion) && !CommandIsExactZero(p.motion)
    && Encode(p.motion, config.maxLinear) == Encoded(p.wire)
  }

  function NthCommand(p: Plan, k: nat): TimedMotionCommand
    requires p.start + k + 1 <= INT64_MAX && p.base + k <= UINT64_MAX
  {
    TimedMotionCommand(p.base + k, p.start + k, p.start + k + 1, p.motion)
  }

  // Stop, zero, allowed feedback, authorization.
  function Opening(p: Plan): seq<Turn> {
    [TurnOf(p, CallDisarm(p.start)), TurnOf(p, CallTick(p.start)),
     TurnOf(p, CallObserveFeedback(p.feedback, p.start)), TurnOf(p, CallAuthorize(p.token, p.start))]
  }

  // Fresh feedback and the k-th command.
  function Pair(p: Plan, k: nat): seq<Turn>
    requires p.start + k + 1 <= INT64_MAX && p.base + k <= UINT64_MAX
  {
    [TurnOf(p, CallObserveFeedback(p.feedback, p.start + k)), TurnOf(p, CallSubmit(NthCommand(p, k), p.start + k))]
  }

  function Pairs(p: Plan, n: nat): seq<seq<Turn>>
    requires p.start + n + 1 <= INT64_MAX && p.base + n <= UINT64_MAX
  {
    seq(n, i requires 0 <= i < n => Pair(p, i + 1))
  }

  // Then n fresh commands.
  function Commands(p: Plan, n: nat): seq<Turn>
    requires p.start + n + 1 <= INT64_MAX && p.base + n <= UINT64_MAX
  {
    Opening(p) + Flatten(Pairs(p, n))
  }

  function Final(p: Plan, config: SafetyConfig): Turn
    requires PlanFits(p, config)
  {
    TurnOf(p, CallTick(p.start + config.freshRequired))
  }

  function Script(p: Plan, config: SafetyConfig): seq<Turn>
    requires PlanFits(p, config)
  {
    Commands(p, config.freshRequired) + [Final(p, config)]
  }

  // ----- Folds -----

  function Fold<S, T>(move: (S, T) -> S, s: S, ts: seq<T>): S {
    if ts == [] then s else move(Fold(move, s, ts[..|ts| - 1]), ts[|ts| - 1])
  }

  lemma FoldOne<S, T>(move: (S, T) -> S, s: S, ts: seq<T>, t: T)
    ensures Fold(move, s, ts + [t]) == move(Fold(move, s, ts), t)
  {
    assert (ts + [t])[..|ts|] == ts;
  }

  lemma {:induction false} FoldBoth<S, T>(move: (S, T) -> S, s: S, a: seq<T>, b: seq<T>)
    ensures Fold(move, s, a + b) == Fold(move, Fold(move, s, a), b)
    decreases |b|
  {
    if b == [] {
      assert a + b == a;
    } else {
      var n := |b| - 1;
      FoldBoth(move, s, a, b[..n]);
      assert a + b == a + b[..n] + [b[n]] && b == b[..n] + [b[n]];
      FoldOne(move, s, a + b[..n], b[n]);
      FoldOne(move, Fold(move, s, a), b[..n], b[n]);
    }
  }

  // What each block carries from one index to the next holds at the end.
  lemma {:induction false} FoldCarries<S(!new), T>(move: (S, T) -> S, Q: (S, nat) -> bool, s: S, blocks: seq<seq<T>>)
    requires Q(s, 0)
    requires forall i: nat, b: S :: i < |blocks| && Q(b, i) ==> Q(Fold(move, b, blocks[i]), i + 1)
    ensures Q(Fold(move, s, Flatten(blocks)), |blocks|)
    decreases |blocks|
  {
    if blocks != [] {
      var n := |blocks| - 1;
      FoldCarries(move, Q, s, blocks[..n]);
      FoldBoth(move, s, Flatten(blocks[..n]), blocks[n]);
    }
  }

  function Move(s: Session, t: Turn): Session {
    Step(s, t).session
  }

  // ----- The opening -----

  // Nothing stands in the way at `start`.
  predicate Recoverable(s: Session, p: Plan) {
    && s.configured && !s.latched && s.seen <= p.start
    && s.topToken < p.token && s.topSequence <= p.base
    && (!Detached(s, p.link) ==>
          && !s.mode.Faulted?
          && (s.episode.Episode? ==> s.episode.next <= p.start)
          && (s.lastMotion > 0 ==> p.start - s.lastMotion >= s.config.transmitPeriod))
  }

  predicate Halted(s: Session, p: Plan) {
    && Recoverable(s, p) && !Detached(s, p.link) && s.seen == p.start && s.intent.NoIntent?
  }

  lemma DisarmStops(s: Session, p: Plan)
    requires Sound(s) && Recoverable(s, p) && PlanFits(p, s.config)
    ensures var n := Move(s, TurnOf(p, CallDisarm(p.start)));
            Halted(n, p) && n.episode.Episode? && n.config == s.config && Sound(n)
  {
    StepSound(s, TurnOf(p, CallDisarm(p.start)));
  }

  lemma ZeroCompletes(s: Session, p: Plan)
    requires Sound(s) && Halted(s, p) && s.episode.Episode? && PlanFits(p, s.config)
    ensures var n := Move(s, TurnOf(p, CallTick(p.start)));
            Halted(n, p) && n.episode.NoEpisode? && n.config == s.config && Sound(n)
  {
    StepSound(s, TurnOf(p, CallTick(p.start)));
  }

  // The state after k commands: authorized, with the run of the k commands stored.
  predicate Armed(s: Session, p: Plan, config: SafetyConfig, k: nat)
    requires p.start + k + 1 <= INT64_MAX && p.base + k <= UINT64_MAX
  {
    && s.config == config && s.configured && !s.latched && !Detached(s, p.link)
    && s.episode.NoEpisode? && s.mode == (if k == config.freshRequired then Active else Recovering)
    && s.permit.Permit? && s.permit.generation == s.generation && 0 < s.permit.time <= p.start
    && s.seen == p.start + k
    && s.feedback == Some(p.start + k) && s.topSequence <= p.base + k
    && (s.lastMotion > 0 ==> p.start - s.lastMotion >= config.transmitPeriod)
    && if k == 0 then s.intent.NoIntent?
       else s.intent == Intent(NthCommand(p, k), p.wire, p.start + k, k)
  }

  lemma AuthorizeArms(s: Session, p: Plan, config: SafetyConfig)
    requires Halted(s, p) && s.episode.NoEpisode? && s.config == config && ConfigIsValid(config) && PlanFits(p, config)
    ensures var fed := Move(s, TurnOf(p, CallObserveFeedback(p.feedback, p.start)));
            Armed(Move(fed, TurnOf(p, CallAuthorize(p.token, p.start))), p, config, 0)
  {
    var fed := Move(s, TurnOf(p, CallObserveFeedback(p.feedback, p.start)));
    assert fed == s.(feedback := Some(p.start));
  }

  lemma OpeningArms(s: Session, p: Plan, config: SafetyConfig)
    requires Sound(s) && Recoverable(s, p) && s.config == config && PlanFits(p, config)
    ensures Armed(Fold(Move, s, Opening(p)), p, config, 0)
  {
    var o := Opening(p);
    assert o == [o[0]] + [o[1]] + [o[2]] + [o[3]];
    FoldOne(Move, s, [], o[0]);
    FoldOne(Move, s, [o[0]], o[1]);
    FoldOne(Move, s, [o[0]] + [o[1]], o[2]);
    FoldOne(Move, s, [o[0]] + [o[1]] + [o[2]], o[3]);
    DisarmStops(s, p);
    ZeroCompletes(Fold(Move, s, [o[0]]), p);
    AuthorizeArms(Fold(Move, s, [o[0]] + [o[1]]), p, config);
  }

  // ----- The commands -----

  // The state after k commands and one more feedback.
  predicate Fed(s: Session, p: Plan, config: SafetyConfig, k: nat, f: Session)
    requires p.start + k + 1 <= INT64_MAX && p.base + k <= UINT64_MAX
  {
    Armed(s, p, config, k) && f == s.(seen := p.start + k + 1, feedback := Some(p.start + k + 1))
  }

  lemma FeedbackFeeds(s: Session, p: Plan, config: SafetyConfig, k: nat)
    requires ConfigIsValid(config) && PlanFits(p, config) && k < config.freshRequired && Armed(s, p, config, k)
    ensures var f := Move(s, TurnOf(p, CallObserveFeedback(p.feedback, p.start + k + 1)));
            Fed(s, p, config, k, f)
  {
  }

  lemma CommandAccepted(s: Session, p: Plan, config: SafetyConfig, k: nat, f: Session)
    requires ConfigIsValid(config) && PlanFits(p, config) && k < config.freshRequired && Fed(s, p, config, k, f)
    ensures var at, v := p.start + k + 1, Verdict(f, Unchanged, NthCommand(p, k + 1), p.start + k + 1);
            && v == (if FreshCount(f, at) >= config.freshRequired then Accepted else RecoveryPending)
            && FreshCount(f, at) == k + 1
  {
  }

  lemma CommandArms(s: Session, p: Plan, config: SafetyConfig, k: nat, f: Session)
    requires ConfigIsValid(config) && PlanFits(p, config) && k < config.freshRequired && Fed(s, p, config, k, f)
    ensures Armed(Move(f, TurnOf(p, CallSubmit(NthCommand(p, k + 1), p.start + k + 1))), p, config, k + 1)
  {
    var at := p.start + k + 1;
    CommandAccepted(s, p, config, k, f);
    assert ClockOk(f, at) && Synchronize(Observe(f, at), p.link) == (f, Unchanged);
  }

  lemma PairArms(s: Session, p: Plan, config: SafetyConfig, k: nat)
    requires ConfigIsValid(config) && PlanFits(p, config) && k < config.freshRequired && Armed(s, p, config, k)
    ensures Armed(Fold(Move, s, Pair(p, k + 1)), p, config, k + 1)
  {
    var pair := Pair(p, k + 1);
    assert pair == [pair[0]] + [pair[1]];
    FoldOne(Move, s, [], pair[0]);
    FoldOne(Move, s, [pair[0]], pair[1]);
    FeedbackFeeds(s, p, config, k);
    CommandArms(s, p, config, k, Move(s, pair[0]));
  }

  // Each block of turns takes a session armed by k commands to one armed by k + 1.
  ghost predicate BlocksArm(move: (Session, Turn) -> Session, p: Plan, config: SafetyConfig)
    requires PlanFits(p, config)
  {
    forall k: nat, b: Session :: k < config.freshRequired && Armed(b, p, config, k) ==>
      Armed(Fold(move, b, Pair(p, k + 1)), p, config, k + 1)
  }

  lemma MoveBlocksArm(p: Plan, config: SafetyConfig)
    requires ConfigIsValid(config) && PlanFits(p, config)
    ensures BlocksArm(Move, p, config)
  {
    forall k: nat, b: Session | k < config.freshRequired && Armed(b, p, config, k)
      ensures Armed(Fold(Move, b, Pair(p, k + 1)), p, config, k + 1)
    {
      PairArms(b, p, config, k);
    }
  }

  lemma CommandsArm(move: (Session, Turn) -> Session, s: Session, p: Plan, config: SafetyConfig)
    requires PlanFits(p, config) && Armed(s, p, config, 0) && BlocksArm(move, p, config)
    ensures Armed(Fold(move, s, Flatten(Pairs(p, config.freshRequired))), p, config, config.freshRequired)
  {
    var n := config.freshRequired;
    var Q := (b: Session, k: nat) => k <= n && Armed(b, p, config, k);
    FoldCarries(move, Q, s, Pairs(p, n));
  }

  lemma ArmedMoves(s: Session, p: Plan, config: SafetyConfig)
    requires ConfigIsValid(config) && PlanFits(p, config) && Armed(s, p, config, config.freshRequired)
    ensures var writes := Step(s, Final(p, config)).writes;
            && |writes| == 1 && writes[0].motion
            && writes[0].frame == p.wire
  {
    var at := p.start + config.freshRequired;
    assert Synchronize(Observe(s, at), p.link) == (s, Unchanged);
    assert FeedbackIsFresh(s, at) && CommandIsFresh(s, at);
  }

  // ----- Worlds -----

  lemma {:induction false} FoldSession(w: World, turns: seq<Turn>)
    ensures Fold(Next, w, turns).session == Fold(Move, w.session, turns)
  {
    if turns != [] {
      FoldSession(w, turns[..|turns| - 1]);
    }
  }

  // Every turn meets the link and leaves it as it is.
  predicate Steady(turns: seq<Turn>, link: Link) {
    forall t :: t in turns ==> t.link == t.first.after == t.second.after == link
  }

  lemma SteadyStep(s: Session, t: Turn)
    requires t.link == t.first.after == t.second.after
    ensures Step(s, t).link == t.link
  {
  }

  lemma {:induction false} ReachableAfter(config: SafetyConfig, w: World, turns: seq<Turn>, link: Link)
    requires Reachable(config, w) && LinkFollows(w.link, link) && Steady(turns, link)
    ensures Reachable(config, Fold(Next, w, turns))
    ensures LinkFollows(Fold(Next, w, turns).link, link)
    decreases |turns|
  {
    if turns != [] {
      var n := |turns| - 1;
      ReachableAfter(config, w, turns[..n], link);
      var v := Fold(Next, w, turns[..n]);
      assert turns[n] in turns;
      SteadyStep(v.session, turns[n]);
      ReachableGoesOn(config, v, turns[n]);
    }
  }

  // The log goes on, with no authorization asked for that no turn asks for.
  lemma {:induction false} LogGoesOn(w: World, turns: seq<Turn>)
    ensures w.log <= Fold(Next, w, turns).log
    ensures (forall t :: t in turns ==> !t.call.CallAuthorize?) ==>
              forall k :: |w.log| <= k < |Fold(Next, w, turns).log| ==>
                !AuthorizationAccepted(Fold(Next, w, turns).log[k])
    decreases |turns|
  {
    if turns != [] {
      var n := |turns| - 1;
      LogGoesOn(w, turns[..n]);
      TurnLogged(Fold(Next, w, turns[..n]), turns[n]);
    }
  }

  lemma TurnLogged(w: World, t: Turn)
    ensures w.log <= Next(w, t).log
    ensures forall k :: |w.log| <= k < |Next(w, t).log| && AuthorizationAccepted(Next(w, t).log[k]) ==>
              t.call.CallAuthorize?
  {
    var r := Step(w.session, t);
    assert forall k :: 0 <= k < |r.writes| ==> r.writes[k].Wrote?;
  }

  lemma {:induction false} FlattenKeeps(blocks: seq<seq<Turn>>, link: Link)
    requires forall k :: 0 <= k < |blocks| ==> Steady(blocks[k], link)
    requires forall k :: 0 <= k < |blocks| ==> forall t :: t in blocks[k] ==> !t.call.CallAuthorize?
    ensures Steady(Flatten(blocks), link) && forall t :: t in Flatten(blocks) ==> !t.call.CallAuthorize?
  {
    if blocks != [] {
      FlattenKeeps(blocks[..|blocks| - 1], link);
    }
  }

  lemma PairsSteady(p: Plan, n: nat)
    requires p.start + n + 1 <= INT64_MAX && p.base + n <= UINT64_MAX
    ensures Steady(Flatten(Pairs(p, n)), p.link)
    ensures forall t :: t in Flatten(Pairs(p, n)) ==> !t.call.CallAuthorize?
  {
    FlattenKeeps(Pairs(p, n), p.link);
  }

  // The world after the opening, and after n commands from there.

  function Opened(w: World, p: Plan): World {
    Fold(Next, w, Opening(p))
  }

  function Commanded(w: World, p: Plan, n: nat): World
    requires p.start + n + 1 <= INT64_MAX && p.base + n <= UINT64_MAX
  {
    Fold(Next, w, Flatten(Pairs(p, n)))
  }

  lemma OpenedArmed(config: SafetyConfig, w: World, p: Plan)
    requires Sound(w.session) && Recoverable(w.session, p) && w.session.config == config && PlanFits(p, config)
    requires Reachable(config, w) && LinkFollows(w.link, p.link)
    ensures var v := Opened(w, p);
            && Armed(v.session, p, config, 0) && w.log <= v.log
            && Reachable(config, v) && LinkFollows(v.link, p.link)
  {
    OpeningArms(w.session, p, config);
    FoldSession(w, Opening(p));
    ReachableAfter(config, w, Opening(p), p.link);
    LogGoesOn(w, Opening(p));
  }

  lemma CommandedArmed(config: SafetyConfig, w: World, p: Plan)
    requires ConfigIsValid(config) && PlanFits(p, config) && Armed(w.session, p, config, 0)
    requires Reachable(config, w) && LinkFollows(w.link, p.link)
    ensures var v := Commanded(w, p, config.freshRequired);
            && Armed(v.session, p, config, config.freshRequired) && w.log <= v.log
            && Reachable(config, v) && LinkFollows(v.link, p.link)
            && forall k :: |w.log| <= k < |v.log| ==> !AuthorizationAccepted(v.log[k])
  {
    var turns := Flatten(Pairs(p, config.freshRequired));
    MoveBlocksArm(p, config);
    CommandsArm(Move, w.session, p, config);
    FoldSession(w, turns);
    PairsSteady(p, config.freshRequired);
    ReachableAfter(config, w, turns, p.link);
    LogGoesOn(w, turns);
  }

  // The cycle after the last command ends the log with its motion write.
  lemma LastWrite(config: SafetyConfig, w: World, p: Plan)
    requires ConfigIsValid(config) && PlanFits(p, config) && Armed(w.session, p, config, config.freshRequired)
    requires Reachable(config, w) && LinkFollows(w.link, p.link)
    ensures var v := Next(w, Final(p, config));
            && Reachable(config, v) && |v.log| == |w.log| + 2 && w.log <= v.log && v.log[|w.log|].Called?
            && !AuthorizationAccepted(v.log[|w.log|])
            && IsMotion(Last(v.log)) && Last(v.log).frame == p.wire
  {
    ArmedMoves(w.session, p, config);
    ReachableGoesOn(config, w, Final(p, config));
  }

  // What the log has to say for a plan to work: no latch, zero attempts left and
  // due on the plan's link, the last motion a transmit period ago.
  predicate PlanDue(config: SafetyConfig, w: World, p: Plan) {
    && !Latched(w.log) && LastSeen(w.log) <= p.start && LinkFollows(w.link, p.link)
    && (!Detached(w.session, p.link) ==>
          && ZeroDue(config, w.log, p.start)
          && (w.session.lastMotion > 0 ==> p.start - w.session.lastMotion >= config.transmitPeriod))
    && w.session.topToken < p.token && w.session.topSequence <= p.base
  }

  lemma PlanRecovers(config: SafetyConfig, w: World, p: Plan)
    requires ConfigIsValid(config) && Reachable(config, w) && PlanFits(p, config) && PlanDue(config, w, p)
    ensures Sound(w.session) && Recoverable(w.session, p) && w.session.config == config
  {
    ReachablePunctual(config, w);
    ReachableKept(config, w);
  }

  // From every reachable world that is not latched and has zero attempts left on
  // the connection, the operator gets motion back: after a stop, allowed
  // feedback, a new authorization and enough fresh commands, a cycle writes the
  // encoding of the last command.
  lemma MotionCanBeRegained(config: SafetyConfig, w: World, p: Plan)
    requires ConfigIsValid(config) && Reachable(config, w) && PlanFits(p, config) && PlanDue(config, w, p)
    ensures exists v ::
              && Reachable(config, v) && w.log <= v.log
              && v.log != [] && IsMotion(Last(v.log)) && Last(v.log).frame == p.wire
  {
    PlanRecovers(config, w, p);
    OpenedArmed(config, w, p);
    CommandedArmed(config, Opened(w, p), p);
    var armed := Commanded(Opened(w, p), p, config.freshRequired);
    LastWrite(config, armed, p);
    assert Reachable(config, Next(armed, Final(p, config)));
  }

  // ----- A plan for any configuration -----

  const ALLOWED_FRAME: seq<Byte> := [FRAME_HEADER] + Zeros(21) + [FRAME_HEADER, FRAME_TAIL]

  lemma AllowedFrameAllows()
    ensures AllowsControl(ALLOWED_FRAME)
  {
    assert ALLOWED_FRAME[..22] == [FRAME_HEADER] + Zeros(21);
    XorWithZeros([FRAME_HEADER], 21);
    assert [FRAME_HEADER][..0] == [];
    BitXorZero(FRAME_HEADER);
  }

  lemma InRangeEncodes(config: SafetyConfig, motion: MotionCommand)
    requires ConfigIsValid(config)
    requires motion.linear.Finite? && motion.yaw.Finite? && motion.lateral == Finite(0.0)
    requires Abs(motion.linear.value) <= config.maxLinear.value && Abs(motion.yaw.value) <= config.maxYaw.value
    ensures MotionAllowed(config, motion)
  {
    TruncBounds(motion.linear.value * WIRE_UNITS);
    TruncBounds(motion.yaw.value * WIRE_UNITS);
    assert Quantize(Finite(0.0)) == 0;
  }

  // Full speed ahead on a first connection.
  function FirstPlan(config: SafetyConfig): Plan
    requires ConfigIsValid(config)
  {
    var motion := MotionCommand(config.maxLinear, Finite(0.0), Finite(0.0));
    InRangeEncodes(config, motion);
    Plan(Link(true, 1), 1, 1, 0, ALLOWED_FRAME, motion, Encode(motion, config.maxLinear).frame)
  }

  function FirstWorld(config: SafetyConfig): World {
    World(Initial(config, Link(true, 1)), Link(true, 1), [])
  }

  lemma FirstPlanWorks(config: SafetyConfig)
    requires ConfigIsValid(config)
    ensures var p, w := FirstPlan(config), FirstWorld(config);
            && Reachable(config, w) && PlanFits(p, config)
            && Sound(w.session) && Recoverable(w.session, p) && w.session.config == config
  {
    ReachableBegins(config, Link(true, 1));
    SynchronizeSound(Created(config), Link(true, 1));
    AllowedFrameAllows();
    InRangeEncodes(config, FirstPlan(config).motion);
  }

  // ----- An expiry costs no authorization -----

  // A cycle after the last command's deadline.
  function Late(p: Plan, config: SafetyConfig): Turn
    requires PlanFits(p, config) && p.start + config.freshRequired + 2 <= INT64_MAX
  {
    TurnOf(p, CallTick(p.start + config.freshRequired + 2))
  }

  lemma LateStops(s: Session, p: Plan, config: SafetyConfig)
    requires ConfigIsValid(config) && PlanFits(p, config) && Armed(s, p, config, config.freshRequired)
    requires p.start + config.freshRequired + 2 <= INT64_MAX
    ensures var r, at := Step(s, Late(p, config)), p.start + config.freshRequired + 2;
            && |r.writes| == 1 && ZeroDone(r.writes[0])
            && r.session == s.(intent := NoIntent, mode := Recovering, seen := at)
  {
    assert Synchronize(Observe(s, p.start + config.freshRequired + 2), p.link).1 == Unchanged;
  }

  // The plan to go on with after that, without another authorization.
  function NextPlan(p: Plan, config: SafetyConfig): Plan
    requires PlanFits(p, config) && p.start + 2 * config.freshRequired + 3 <= INT64_MAX
    requires p.base + 2 * config.freshRequired <= UINT64_MAX
  {
    p.(start := p.start + config.freshRequired + 2, base := p.base + config.freshRequired)
  }

  lemma FeedbackRearms(s: Session, p: Plan, config: SafetyConfig)
    requires ConfigIsValid(config) && PlanFits(p, config)
    requires p.start + 2 * config.freshRequired + 3 <= INT64_MAX && p.base + 2 * config.freshRequired <= UINT64_MAX
    requires Armed(s, p, config, config.freshRequired)
    ensures var q := NextPlan(p, config);
            var stopped := s.(intent := NoIntent, mode := Recovering, seen := q.start);
            Armed(Move(stopped, TurnOf(q, CallObserveFeedback(q.feedback, q.start))), q, config, 0)
  {
  }

  // At i a cycle finds command or feedback expired and completes a zero; motion
  // is written again at j, with no authorization accepted in between.
  predicate ExpiryOvercome(config: SafetyConfig, log: seq<Entry>, i: nat, j: nat) {
    && i + 1 < j < |log|
    && log[i].Called? && FindsExpiry(config, log[..i], log[i].call) && ZeroDone(log[i + 1])
    && IsMotion(log[j]) && forall k :: i < k < j ==> !AuthorizationAccepted(log[k])
  }

  // The late cycle, read off the log.
  lemma LateLogged(config: SafetyConfig, w: World, p: Plan)
    requires ConfigIsValid(config) && PlanFits(p, config) && Armed(w.session, p, config, config.freshRequired)
    requires p.start + config.freshRequired + 2 <= INT64_MAX
    requires Reachable(config, w) && LinkFollows(w.link, p.link)
    ensures var v, n := Next(w, Late(p, config)), |w.log|;
            && Reachable(config, v) && LinkFollows(v.link, p.link)
            && |v.log| == n + 2 && v.log[..n] == w.log
            && v.log[n].Called? && v.log[n].call.CallTick? && FindsExpiry(config, w.log, v.log[n].call)
            && ZeroDone(v.log[n + 1])
  {
    LateStops(w.session, p, config);
    ReachableGoesOn(config, w, Late(p, config));
    SteadyStep(w.session, Late(p, config));
    ReachableKept(config, w);
  }

  lemma RearmedWorld(config: SafetyConfig, w: World, p: Plan, v: World)
    requires ConfigIsValid(config) && PlanFits(p, config) && Armed(w.session, p, config, config.freshRequired)
    requires p.start + 2 * config.freshRequired + 3 <= INT64_MAX && p.base + 2 * config.freshRequired <= UINT64_MAX
    requires v == Next(w, Late(p, config)) && Reachable(config, v) && LinkFollows(v.link, p.link)
    ensures var q := NextPlan(p, config);
            var fed := Next(v, TurnOf(q, CallObserveFeedback(q.feedback, q.start)));
            && PlanFits(q, config) && Armed(fed.session, q, config, 0)
            && Reachable(config, fed) && LinkFollows(fed.link, q.link)
            && v.log <= fed.log && forall k :: |v.log| <= k < |fed.log| ==> !AuthorizationAccepted(fed.log[k])
  {
    var q := NextPlan(p, config);
    var observe := TurnOf(q, CallObserveFeedback(q.feedback, q.start));
    LateStops(w.session, p, config);
    FeedbackRearms(w.session, p, config);
    ReachableGoesOn(config, v, observe);
    SteadyStep(v.session, observe);
    TurnLogged(v, observe);
  }

  lemma ExpiryIsOvercome(config: SafetyConfig, w: World, p: Plan) returns (v: World)
    requires ConfigIsValid(config) && PlanFits(p, config) && Armed(w.session, p, config, config.freshRequired)
    requires p.start + 2 * config.freshRequired + 3 <= INT64_MAX && p.base + 2 * config.freshRequired <= UINT64_MAX
    requires Reachable(config, w) && LinkFollows(w.link, p.link)
    ensures Reachable(config, v) && |w.log| + 2 <= |v.log| && ExpiryOvercome(config, v.log, |w.log|, |v.log| - 1)
  {
    var i, q, late := |w.log|, NextPlan(p, config), Next(w, Late(p, config));
    LateLogged(config, w, p);
    RearmedWorld(config, w, p, late);
    var fed := Next(late, TurnOf(q, CallObserveFeedback(q.feedback, q.start)));
    CommandedArmed(config, fed, q);
    var armed := Commanded(fed, q, config.freshRequired);
    LastWrite(config, armed, q);
    v := Next(armed, Final(q, config));
    OvercomeAt(config, w.log, late.log, fed.log, armed.log, v.log);
  }

  lemma OvercomeAt(config: SafetyConfig, log: seq<Entry>, late: seq<Entry>, fed: seq<Entry>, armed: seq<Entry>,
                   all: seq<Entry>)
    requires |late| == |log| + 2 && late[..|log|] == log && late <= fed <= armed <= all && |all| == |armed| + 2
    requires late[|log|].Called? && late[|log|].call.CallTick? && FindsExpiry(config, log, late[|log|].call)
    requires ZeroDone(late[|log| + 1])
    requires forall k :: |late| <= k < |fed| ==> !AuthorizationAccepted(fed[k])
    requires forall k :: |fed| <= k < |armed| ==> !AuthorizationAccepted(armed[k])
    requires all[|armed|].Called? && !AuthorizationAccepted(all[|armed|]) && IsMotion(Last(all))
    ensures ExpiryOvercome(config, all, |log|, |all| - 1)
  {
    var i := |log|;
    assert all[..i] == log && all[i] == late[i] && all[i + 1] == late[i + 1];
    forall k | i < k < |all| - 1
      ensures !AuthorizationAccepted(all[k])
    {
      if k < |late| {
        assert all[k] == late[k];
      } else if k < |fed| {
        assert all[k] == fed[k];
      } else if k < |armed| {
        assert all[k] == armed[k];
      }
    }
  }

  // An expiry does not cost the authorization: under every valid configuration
  // some log shows motion again after one, with no new authorization.
  lemma ExpiryKeepsAuthorization(config: SafetyConfig)
    requires ConfigIsValid(config)
    ensures exists v, i, j :: Reachable(config, v) && ExpiryOvercome(config, v.log, i, j)
  {
    var p, w := FirstPlan(config), FirstWorld(config);
    FirstPlanWorks(config);
    OpenedArmed(config, w, p);
    CommandedArmed(config, Opened(w, p), p);
    var armed := Commanded(Opened(w, p), p, config.freshRequired);
    var v := ExpiryIsOvercome(config, armed, p);
    assert Reachable(config, v) && ExpiryOvercome(config, v.log, |armed.log|, |v.log| - 1);
  }
}
