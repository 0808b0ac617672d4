// How often a session writes on one connection: the budget of failed zero
// writes, their spacing, and the spacing of motion writes.

module WriteBudgets {
  import opened Wrappers
  import opened Protocol
  import opened TransportModel
  import opened SessionModel
  import opened SessionInvariant
  import opened LogReading
  import opened SessionFrames

  // Zero writes in a row that have failed on a generation, up to the log's end.
  function FailStreak(log: seq<Entry>, generation: uint64): nat {
    if log == [] then 0
    else
      var e, before := Last(log), FailStreak(Before(log), generation);
      if !IsZero(e) || e.generation != generation then before
      else if WriteDone(e) then 0
      else before + 1
  }

  // The latest zero write on a generation.
  function LatestZero(log: seq<Entry>, generation: uint64): (z: Option<Entry>)
    ensures z.Some? ==> IsZero(z.value)
  {
    if log == [] then None
    else
      var e := Last(log);
      if IsZero(e) && e.generation == generation then Some(e) else LatestZero(Before(log), generation)
  }

  // When the latest completed motion write on a generation ended, or 0.
  function LatestMotionEnd(log: seq<Entry>, generation: uint64): int {
    if log == [] then 0
    else
      var e := Last(log);
      if IsMotion(e) && WriteDone(e) && e.generation == generation then MotionEnd(e)
      else LatestMotionEnd(Before(log), generation)
  }

  // ----- What is assumed of the transport, read off the log -----

  // No write reported a disconnect and left the link up.
  predicate LossesHonest(log: seq<Entry>) {
    forall k :: 0 <= k < |log| && log[k].Wrote? ==> HonestLoss(log[k].outcome)
  }

  // No link came up again during a write.
  predicate LinksKept(log: seq<Entry>) {
    forall k :: 0 <= k < |log| && log[k].Wrote? ==> LinkKept(log[k].generation, log[k].outcome)
  }

  predicate ContractKept(log: seq<Entry>) {
    LossesHonest(log) && LinksKept(log)
  }

  lemma ContractOfPrefix(log: seq<Entry>, more: seq<Entry>)
    ensures LossesHonest(log + more) ==> LossesHonest(log)
    ensures LinksKept(log + more) ==> LinksKept(log)
  {
    assert forall k :: 0 <= k < |log| ==> (log + more)[k] == log[k];
  }

  // ----- The session against the log -----

  // A connection that the session has given up does not come back.
  predicate Gone(s: Session, link: Link) {
    && s.generation <= link.generation
    && (!s.known ==> !link.connected || link.generation > s.generation || link.generation == 0)
  }

  predicate RateHeld(s: Session, link: Link, log: seq<Entry>) {
    && Gone(s, link)
    && (forall k :: 0 <= k < |log| && IsMotion(log[k]) ==> log[k].generation <= s.generation)
    && (s.known ==> LatestMotionEnd(log, s.generation) == s.lastMotion)
  }

  predicate BudgetHeld(s: Session, link: Link, log: seq<Entry>) {
    && Gone(s, link)
    && (forall k :: 0 <= k < |log| && log[k].Wrote? ==> log[k].generation <= s.generation)
    && (forall g: uint64 :: FailStreak(log, g) <= s.config.maxZeroAttempts)
    && (s.known && s.mode.Faulted? ==> FailStreak(log, s.generation) == s.config.maxZeroAttempts)
    && (Clean(s) ==> FailStreak(log, s.generation) == 0)
    && (s.known && s.episode.Episode? ==>
          && FailStreak(log, s.generation) == s.episode.attempts
          && (s.episode.attempts > 0 ==>
                var z := LatestZero(log, s.generation);
                z.Some? && !WriteDone(z.value) && s.episode.next == RetryTime(s.config, z.value)))
  }

  // What is true of each write, given the log before it.
  predicate WithinBudget(config: SafetyConfig, log: seq<Entry>, e: Entry)
    requires e.Wrote?
  {
    && FailStreak(log, e.generation) < config.maxZeroAttempts
    && (!e.motion && FailStreak(log, e.generation) > 0 ==>
          var z := LatestZero(log, e.generation);
          z.Some? && !WriteDone(z.value) && e.start >= RetryTime(config, z.value))
  }

  predicate WithinRate(config: SafetyConfig, log: seq<Entry>, e: Entry)
    requires e.Wrote?
  {
    && 0 < e.start
    && (e.motion ==>
          var end := LatestMotionEnd(log, e.generation);
          end > 0 ==> e.start - end >= config.transmitPeriod)
  }

  lemma {:induction false} NoMotionYet(log: seq<Entry>, generation: uint64)
    requires forall k :: 0 <= k < |log| && IsMotion(log[k]) ==> log[k].generation != generation
    ensures LatestMotionEnd(log, generation) == 0
  {
    if log != [] {
      NoMotionYet(Before(log), generation);
    }
  }

  lemma {:induction false} NothingYet(log: seq<Entry>, generation: uint64)
    requires forall k :: 0 <= k < |log| && log[k].Wrote? ==> log[k].generation != generation
    ensures FailStreak(log, generation) == 0
  {
    if log != [] {
      NothingYet(Before(log), generation);
    }
  }

  lemma BudgetLinkMoved(s: Session, before: Link, after: Link, log: seq<Entry>)
    requires Sound(s) && s.configured && LinkFollows(before, after)
    ensures RateHeld(s, before, log) ==> RateHeld(s, after, log)
    ensures BudgetHeld(s, before, log) ==> BudgetHeld(s, after, log)
  {
  }

  lemma CallLeavesStreaks(log: seq<Entry>, e: Entry)
    requires e.Called?
    ensures forall g: uint64 :: FailStreak(log + [e], g) == FailStreak(log, g)
    ensures forall g: uint64 :: LatestZero(log + [e], g) == LatestZero(log, g)
    ensures forall g: uint64 :: LatestMotionEnd(log + [e], g) == LatestMotionEnd(log, g)
  {
    Snoc(log, e);
  }

  lemma RateAfterCall(s: Session, n: Session, link: Link, log: seq<Entry>, e: Entry)
    requires Sound(s) && s.configured && Sound(n) && e.Called? && e.link == link && Framed(s, n, link, e)
    requires RateHeld(s, link, log)
    ensures RateHeld(n, link, log + [e])
  {
    CallLeavesStreaks(log, e);
    if Reattached(s, n, link) {
      NoMotionYet(log, link.generation);
    }
  }

  lemma BudgetAfterCall(s: Session, n: Session, link: Link, log: seq<Entry>, e: Entry)
    requires Sound(s) && s.configured && Sound(n) && e.Called? && e.link == link && Framed(s, n, link, e)
    requires BudgetHeld(s, link, log)
    ensures BudgetHeld(n, link, log + [e])
  {
    CallLeavesStreaks(log, e);
    if Reattached(s, n, link) {
      NothingYet(log, link.generation);
    }
  }

  lemma RateAfterZero(s: Session, link: Link, log: seq<Entry>, e: WriteEntry, n: Session, after: Link)
    requires Sound(s) && s.configured && ZeroStep(s, link, e, n, after) && LinkFollows(link, after)
    requires RateHeld(s, link, log) && HonestLoss(e.outcome)
    ensures RateHeld(n, after, log + [e])
  {
    Snoc(log, e);
  }

  lemma RateAfterMotion(s: Session, link: Link, log: seq<Entry>, e: WriteEntry)
    requires Sound(s) && s.configured && Ready(s, link, e) && LinkFollows(link, e.outcome.after)
    requires RateHeld(s, link, log)
    ensures WithinRate(s.config, log, e)
    ensures HonestLoss(e.outcome) ==> RateHeld(MotionLeft(s, e), e.outcome.after, log + [e])
  {
    Snoc(log, e);
  }

  lemma BudgetAfterZero(s: Session, link: Link, log: seq<Entry>, e: WriteEntry, n: Session, after: Link)
    requires Sound(s) && s.configured && ZeroStep(s, link, e, n, after) && LinkFollows(link, after)
    requires s.generation == link.generation && BudgetHeld(s, link, log)
    ensures WithinBudget(s.config, log, e)
    ensures HonestLoss(e.outcome) ==> BudgetHeld(n, after, log + [e])
  {
    Snoc(log, e);
    var g := s.generation;
    assert FailStreak(log + [e], g) == if WriteDone(e) then 0 else s.episode.attempts + 1;
    assert forall h: uint64 :: h != g ==> FailStreak(log + [e], h) == FailStreak(log, h);
  }

  lemma BudgetAfterMotion(s: Session, link: Link, log: seq<Entry>, e: WriteEntry)
    requires Sound(s) && s.configured && Ready(s, link, e) && LinkFollows(link, e.outcome.after)
    requires BudgetHeld(s, link, log)
    ensures WithinBudget(s.config, log, e)
    ensures HonestLoss(e.outcome) ==> BudgetHeld(MotionLeft(s, e), e.outcome.after, log + [e])
  {
    Snoc(log, e);
    assert forall h: uint64 :: FailStreak(log + [e], h) == FailStreak(log, h);
    assert forall h: uint64 :: LatestZero(log + [e], h) == LatestZero(log, h);
  }

  // ----- Reading the budget off a whole log -----

  predicate AllWithinBudget(config: SafetyConfig, log: seq<Entry>) {
    forall j :: 0 <= j < |log| && log[j].Wrote? ==> WithinBudget(config, log[..j], log[j])
  }

  predicate AllWithinRate(config: SafetyConfig, log: seq<Entry>) {
    forall j :: 0 <= j < |log| && log[j].Wrote? ==> WithinRate(config, log[..j], log[j])
  }

  // A streak lasts until a zero write on the same generation completes.
  lemma {:induction false} StreakStays(log: seq<Entry>, i: nat, generation: uint64)
    requires i <= |log|
    requires forall k :: i <= k < |log| ==> !(IsZero(log[k]) && log[k].generation == generation)
    ensures FailStreak(log, generation) == FailStreak(log[..i], generation)
    ensures LatestZero(log, generation) == LatestZero(log[..i], generation)
    decreases |log|
  {
    if i < |log| {
      assert Before(log)[..i] == log[..i];
      StreakStays(Before(log), i, generation);
    } else {
      assert log[..i] == log;
    }
  }

  // No prefix of such a log shows a longer streak than the budget.
  lemma {:induction false} StreakWithin(config: SafetyConfig, log: seq<Entry>, i: nat, generation: uint64)
    requires AllWithinBudget(config, log) && i <= |log| && 0 < config.maxZeroAttempts
    ensures FailStreak(log[..i], generation) <= config.maxZeroAttempts
    decreases i
  {
    if i > 0 {
      StreakWithin(config, log, i - 1, generation);
      Snoc(log[..i - 1], log[i - 1]);
      assert log[..i] == log[..i - 1] + [log[i - 1]];
    }
  }

  // Once the budget is spent on a generation nothing is written on it again.
  lemma SpentMeansSilent(config: SafetyConfig, log: seq<Entry>, i: nat, j: nat, generation: uint64)
    requires AllWithinBudget(config, log) && i <= j < |log|
    requires FailStreak(log[..i], generation) >= config.maxZeroAttempts
    ensures log[j].Wrote? ==> log[j].generation != generation
    decreases j
  {
    forall k | i <= k < j
      ensures !(IsZero(log[k]) && log[k].generation == generation)
    {
      SpentMeansSilent(config, log, i, k, generation);
    }
    StreakStays(log[..j], i, generation);
    assert log[..j][..i] == log[..i];
  }

  // Successive zero writes with the first of them failed keep the retry interval.
  lemma RetriesSpaced(config: SafetyConfig, log: seq<Entry>, i: nat, j: nat)
    requires AllWithinBudget(config, log) && i < j < |log|
    requires IsZero(log[i]) && IsZero(log[j]) && log[i].generation == log[j].generation && !WriteDone(log[i])
    requires forall k :: i < k < j ==> !(IsZero(log[k]) && log[k].generation == log[i].generation)
    ensures log[j].start >= RetryTime(config, log[i])
  {
    var g := log[i].generation;
    StreakStays(log[..j], i + 1, g);
    assert log[..j][..i + 1] == log[..i + 1];
    Snoc(log[..i], log[i]);
    assert log[..i + 1] == log[..i] + [log[i]];
  }

  predicate CompletedMotionOn(e: Entry, generation: uint64) {
    IsMotion(e) && WriteDone(e) && e.generation == generation
  }

  // No write on this log ended before it started.
  predicate HonestClock(log: seq<Entry>) {
    forall k :: 0 <= k < |log| && log[k].Wrote? && WriteDone(log[k]) ==> log[k].start <= WriteEnd(log[k])
  }

  lemma {:induction false} LatestEndIsLate(config: SafetyConfig, log: seq<Entry>, i: nat, generation: uint64)
    requires AllWithinRate(config, log) && HonestClock(log) && 0 < config.transmitPeriod
    requires i < |log| && CompletedMotionOn(log[i], generation)
    ensures LatestMotionEnd(log, generation) >= log[i].start > 0
    decreases |log|
  {
    var n := |log| - 1;
    var before := log[..n];
    if i < n {
      assert before[i] == log[i];
      assert AllWithinRate(config, before) by {
        assert forall j :: 0 <= j < n ==> before[..j] == log[..j];
      }
      LatestEndIsLate(config, before, i, generation);
      if CompletedMotionOn(log[n], generation) {
        assert WithinRate(config, log[..n], log[n]);
      }
    }
  }

  lemma MotionPairSpaced(config: SafetyConfig, log: seq<Entry>, i: nat, j: nat, generation: uint64)
    requires AllWithinRate(config, log) && HonestClock(log) && 0 < config.transmitPeriod
    requires i < j < |log| && CompletedMotionOn(log[i], generation) && CompletedMotionOn(log[j], generation)
    ensures log[j].start - log[i].start >= config.transmitPeriod
  {
    var before := log[..j];
    assert before[i] == log[i];
    assert AllWithinRate(config, before) by {
      assert forall k :: 0 <= k < j ==> before[..k] == log[..k];
    }
    LatestEndIsLate(config, before, i, generation);
    assert WithinRate(config, log[..j], log[j]);
  }

  // N completed motion writes on one generation span at least N - 1 periods.
  lemma {:induction false} MotionsSpaced(config: SafetyConfig, log: seq<Entry>, at: seq<nat>, generation: uint64)
    requires AllWithinRate(config, log) && HonestClock(log) && 0 < config.transmitPeriod
    requires at != []
    requires forall k :: 0 <= k < |at| ==>
               at[k] < |log| && CompletedMotionOn(log[at[k]], generation)
    requires forall k, l :: 0 <= k < l < |at| ==> at[k] < at[l]
    ensures var first, last := log[at[0]], log[at[|at| - 1]];
            first.Wrote? && last.Wrote? && last.start - first.start >= (|at| - 1) * config.transmitPeriod
    decreases |at|
  {
    var n := |at| - 1;
    if n > 0 {
      MotionsSpaced(config, log, at[..n], generation);
      MotionPairSpaced(config, log, at[n - 1], at[n], generation);
    }
  }
}
