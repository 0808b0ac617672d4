// The deadman from the operator's key press to the completed write: a theorem
// across the front end, the line protocol, the session and the transport.

module Deadmen {
  import opened Wrappers
  import opened Protocol
  import opened TransportModel
  import opened SessionModel
  import opened Reachability
  import opened LogReading
  import opened Ladders
  import opened WriteBudgets
  import opened SessionRuns
  import opened Cli
  import Teleop = TeleopModel
  import opened TeleopTheorems

  // Every write ended as the serial transport's do.
  predicate OverSerial(log: seq<Entry>) {
    forall k :: 0 <= k < |log| && log[k].Wrote? ==>
      SerialOutcome(log[k].generation, log[k].deadline, log[k].outcome)
  }

  // Over the serial transport the bounds on writes hold as they stand.
  lemma SerialWritesBounded(config: SafetyConfig, w: World, i: nat, g: uint64)
    requires ConfigIsValid(config) && Reachable(config, w) && OverSerial(w.log) && i <= |w.log|
    ensures FailStreak(w.log[..i], g) <= config.maxZeroAttempts
  {
    assert ContractKept(w.log);
    ZeroBudget(config, w, i, g);
  }

  // The command that a motion write carries.
  lemma CommandCarried(config: SafetyConfig, w: World, j: nat) returns (i: nat)
    requires Reachable(config, w) && j < |w.log| && IsMotion(w.log[j])
    ensures i < j && w.log[i].Called? && w.log[i].call.CallSubmit?
    ensures Encode(w.log[i].call.command.motion, config.maxLinear) == Encoded(w.log[j].frame)
    ensures w.log[j].deadline <= w.log[i].call.command.deadline
  {
    MotionLadder(config, w, j);
    var r: Rungs :| Climbed(config, w.log, j, r);
    i := r.run[|r.run| - 1];
  }

  // On one clock and over the serial transport: when a motion write completes
  // successfully, it carries a command that the front end printed less than the
  // release timeout after the operator's last direction-key press, and less than
  // two release timeouts have passed since that press.
  lemma Deadman(teleop: Teleop.TeleopConfig, h: Teleop.History, config: SafetyConfig, w: World, j: nat)
    returns (i: nat, k: nat, press: int)
    requires Teleop.Reachable(teleop, h) && Reachable(config, w) && FedBy(h.log, w.log)
    requires j < |w.log| && IsMotion(w.log[j]) && WriteDone(w.log[j])
    requires SerialOutcome(w.log[j].generation, w.log[j].deadline, w.log[j].outcome)
    ensures i < j && w.log[i].Called? && w.log[i].call.CallSubmit?
    ensures Encode(w.log[i].call.command.motion, config.maxLinear) == Encoded(w.log[j].frame)
    ensures k < |h.log| && PrintedAs(h.log[k], w.log[i].call) && LastPress(h.log[..k]) == Some(press)
    ensures press <= w.log[i].call.command.created < press + Teleop.ReleaseTimeout(teleop)
    ensures WriteEnd(w.log[j]) < press + 2 * Teleop.ReleaseTimeout(teleop)
  {
    i := CommandCarried(config, w, j);
    k :| 0 <= k < |h.log| && PrintedAs(h.log[k], w.log[i].call);
    DeadmanCommands(teleop, h, k);
    press := LastPress(h.log[..k]).value;
  }
}
