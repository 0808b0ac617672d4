// A transport that does whatever its script says: the next write's outcome, with
// the link it leaves, and a link that the surroundings may change between calls.
// Quantifying over scripts makes it the adversary of the session.

module ScriptedTransports {
  import opened Wrappers
  import opened Protocol
  import opened TransportModel

  // What one writeAll was given, and how it ended.
  datatype Sent = Sent(frame: CommandFrame, generation: uint64, deadline: int, outcome: Outcome)

  class ScriptedTransport {
    const script: nat -> Outcome
    var step: nat
    var connected: bool
    var generation: uint64
    ghost var sent: seq<Sent>

    ghost function TheLink(): Link
      reads this
    {
      Link(connected, generation)
    }

    constructor (script: nat -> Outcome, connected: bool, generation: uint64)
      ensures this.script == script && step == 0 && sent == []
      ensures TheLink() == Link(connected, generation)
    {
      this.script := script;
      step, sent := 0, [];
      this.connected, this.generation := connected, generation;
    }

    // None stands for an exception.
    method WriteAll(frame: CommandFrame, deadline: int64) returns (result: Option<IoResult>)
      modifies this
      ensures var o := script(old(step));
              && result == (if o.Returned? then Some(o.result) else None)
              && step == old(step) + 1
              && TheLink() == o.after
              && sent == old(sent) + [Sent(frame, old(generation), deadline, o)]
    {
      var o := script(step);
      sent := sent + [Sent(frame, generation, deadline, o)];
      step := step + 1;
      connected, generation := o.after.connected, o.after.generation;
      result := if o.Returned? then Some(o.result) else None;
    }
  }
}
