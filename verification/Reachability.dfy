// The worlds a session can get into, as a least set, and the runs that lead there.

module Reachability {
  import opened Wrappers
  import opened TransportModel
  import opened SessionModel

  // A set of worlds that has all the beginnings and that no turn leaves.
  ghost predicate Closed(config: SafetyConfig, worlds: iset<World>) {
    && (forall link :: World(Initial(config, link), link, []) in worlds)
    && (forall w, t :: w in worlds && TurnAllowed(w.link, t) ==> Next(w, t) in worlds)
  }

  // In every such set: what any calls in any order can lead to, whatever the
  // transport does.
  ghost predicate Reachable(config: SafetyConfig, w: World) {
    forall worlds :: Closed(config, worlds) ==> w in worlds
  }

  lemma ReachableBegins(config: SafetyConfig, link: Link)
    ensures Reachable(config, World(Initial(config, link), link, []))
  {
  }

  lemma ReachableGoesOn(config: SafetyConfig, w: World, t: Turn)
    requires Reachable(config, w) && TurnAllowed(w.link, t)
    ensures Reachable(config, Next(w, t))
  {
  }

  lemma RunUnfolds(config: SafetyConfig, link: Link, turns: seq<Turn>, t: Turn)
    ensures Run(config, link, turns + [t]) == Next(Run(config, link, turns), t)
  {
    assert (turns + [t])[..|turns|] == turns;
  }

  lemma AdmissibleGrows(config: SafetyConfig, link: Link, turns: seq<Turn>, t: Turn)
    requires Admissible(config, link, turns) && TurnAllowed(Run(config, link, turns).link, t)
    ensures Admissible(config, link, turns + [t])
  {
    assert (turns + [t])[..|turns|] == turns;
  }

  lemma {:induction false} RunStaysIn(config: SafetyConfig, link: Link, turns: seq<Turn>, worlds: iset<World>)
    requires Closed(config, worlds) && Admissible(config, link, turns)
    ensures Run(config, link, turns) in worlds
  {
    if turns != [] {
      RunStaysIn(config, link, turns[..|turns| - 1], worlds);
    }
  }

  lemma RunReachable(config: SafetyConfig, link: Link, turns: seq<Turn>)
    requires Admissible(config, link, turns)
    ensures Reachable(config, Run(config, link, turns))
  {
    forall worlds | Closed(config, worlds)
      ensures Run(config, link, turns) in worlds
    {
      RunStaysIn(config, link, turns, worlds);
    }
  }

  ghost predicate IsRun(config: SafetyConfig, w: World) {
    exists link, turns :: Admissible(config, link, turns) && w == Run(config, link, turns)
  }

  lemma RunsBegin(config: SafetyConfig, link: Link)
    ensures IsRun(config, World(Initial(config, link), link, []))
  {
    assert Admissible(config, link, []) && Run(config, link, []) == World(Initial(config, link), link, []);
  }

  lemma RunsGoOn(config: SafetyConfig, w: World, t: Turn)
    requires IsRun(config, w) && TurnAllowed(w.link, t)
    ensures IsRun(config, Next(w, t))
  {
    var link, turns :| Admissible(config, link, turns) && w == Run(config, link, turns);
    AdmissibleGrows(config, link, turns, t);
    RunUnfolds(config, link, turns, t);
  }

  // The reachable worlds are exactly those at the end of an admissible run.
  lemma ReachableExactlyByRuns(config: SafetyConfig, w: World)
    ensures Reachable(config, w) <==> IsRun(config, w)
  {
    if Reachable(config, w) {
      var worlds := iset v: World | IsRun(config, v);
      forall link
        ensures World(Initial(config, link), link, []) in worlds
      {
        RunsBegin(config, link);
      }
      forall v, t | v in worlds && TurnAllowed(v.link, t)
        ensures Next(v, t) in worlds
      {
        RunsGoOn(config, v, t);
      }
      assert Closed(config, worlds);
    } else if IsRun(config, w) {
      var link, turns :| Admissible(config, link, turns) && w == Run(config, link, turns);
      RunReachable(config, link, turns);
    }
  }
}
