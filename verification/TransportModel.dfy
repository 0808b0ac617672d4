// What a session can see of its transport: a link that comes and goes, and the
// result of each write.

module TransportModel {
  import opened Wrappers

  datatype TransportStatus =
    | Ok
    | DeadlineExceeded
    | Disconnected
    | WriteDisabled
    | InvalidArgument
    | ConfigurationError
    | IoError

  const EIO: int := 5

  datatype IoResult = IoResult(
    status: TransportStatus, bytesTransferred: nat, osError: int,
    hostWriteComplete: bool, outcomeUncertain: bool, completion: int64)

  datatype Link = Link(connected: bool, generation: uint64) {
    predicate Usable() {
      connected && generation != 0
    }
  }

  // How one writeAll ends: it throws or returns a result, and leaves a link
  // that may have gone down, or come up again, meanwhile.
  datatype Outcome = Threw(after: Link) | Returned(result: IoResult, after: Link)

  // Generations never go back, and a link that was down comes up again only
  // under a larger generation.
  predicate LinkFollows(before: Link, after: Link) {
    && before.generation <= after.generation
    && (before.generation == after.generation && after.connected ==> before.connected)
  }

  predicate ReportsLoss(o: Outcome) {
    o.Returned? && o.result.status.Disconnected?
  }

  // A write that reports a disconnect has taken the link down.
  predicate HonestLoss(o: Outcome) {
    ReportsLoss(o) ==> !o.after.connected
  }

  // A link that is up after a write is the one that was up before it.
  predicate LinkKept(generation: uint64, o: Outcome) {
    o.after.connected ==> o.after.generation == generation
  }

  // The session's bound on a write is met: success means done by the deadline.
  predicate DeadlineKept(o: Outcome, deadline: int) {
    o.Returned? && o.result.status.Ok? ==> o.result.completion <= deadline
  }

  // What the serial transport promises of each write.
  predicate SerialOutcome(generation: uint64, deadline: int, o: Outcome) {
    HonestLoss(o) && LinkKept(generation, o) && DeadlineKept(o, deadline)
  }
}
