// What a log says: each function or predicate here reads entries only, and the
// theorems say that the session knows exactly that.

module LogReading {
  import opened Wrappers
  import opened Protocol
  import opened TransportModel
  import opened SessionModel

  function Before(log: seq<Entry>): seq<Entry>
    requires log != []
  {
    log[..|log| - 1]
  }

  function Last(log: seq<Entry>): Entry
    requires log != []
  {
    log[|log| - 1]
  }

  lemma Snoc(log: seq<Entry>, e: Entry)
    ensures Last(log + [e]) == e && Before(log + [e]) == log
  {
  }

  // ----- Entries -----

  predicate IsMotion(e: Entry) {
    e.Wrote? && e.motion
  }

  predicate IsZero(e: Entry) {
    e.Wrote? && !e.motion
  }

  predicate AuthorizationAccepted(e: Entry) {
    e.Called? && e.call.CallAuthorize? && e.reply == Authorization(Authorized)
  }

  predicate SubmissionAccepted(e: Entry) {
    e.Called? && e.call.CallSubmit? && e.reply.Submission?
    && (e.reply.submission.Accepted? || e.reply.submission.RecoveryPending?)
  }

  predicate ResetAccepted(e: Entry) {
    e.Called? && e.call.CallReset? && e.reply == Flag(true)
  }

  predicate FeedbackAllowed(e: Entry) {
    && e.Called? && e.call.CallObserveFeedback? && e.reply.Observation?
    && e.reply.observation.status.AcceptedControlAllowed?
  }

  predicate FeedbackInhibited(e: Entry) {
    e.Called? && e.reply.Observation? && e.reply.observation.status.AcceptedControlInhibited?
  }

  // The link is up after the write, and still the same one.
  predicate KeepsLink(e: Entry)
    requires e.Wrote?
  {
    e.outcome.after.connected && e.outcome.after.generation == e.generation
  }

  predicate ZeroDone(e: Entry) {
    WriteDone(e) && !e.motion && KeepsLink(e)
  }

  // The write makes the session forget its connection.
  predicate DropsSession(e: Entry)
    requires e.Wrote?
  {
    (!e.motion || !WriteDone(e)) && (ReportsLoss(e.outcome) || !e.outcome.after.connected)
  }

  // ----- Latch and clock -----

  // A latch stands from a latch call to an accepted reset.
  predicate Latched(log: seq<Entry>) {
    log != [] && (
      var e := Last(log);
      if e.Called? && e.call.CallLatch? then true
      else if ResetAccepted(e) then false
      else Latched(Before(log)))
  }

  // Whether a call reads its time at all: a reset without a latch does not.
  predicate ReadsClock(log: seq<Entry>, call: Call) {
    call.CallReset? ==> Latched(log)
  }

  // The latest instant the log has shown.
  function LastSeen(log: seq<Entry>): (t: int)
    ensures t >= 0
  {
    if log == [] then 0
    else
      var e, before := Last(log), LastSeen(Before(log));
      match e
      case Called(call, _, _) => if ReadsClock(Before(log), call) then Max(before, call.at) else before
      case Wrote(motion, _, _, start, _, _) =>
        if motion then
          if WriteDone(e) then Max(before, if WriteEnd(e) > 0 then WriteEnd(e) else start) else before
        else Max(before, WriteEnd(e))
  }

  // A time that is not positive or earlier than one already seen.
  predicate ClockRegressed(log: seq<Entry>, call: Call) {
    ReadsClock(log, call) && (call.at <= 0 || call.at < LastSeen(log))
  }

  // ----- Connection -----

  // Whether a call looks at the link: a latch does so even when its time is bad.
  predicate LooksAtLink(log: seq<Entry>, call: Call) {
    call.CallLatch? || (ReadsClock(log, call) && !ClockRegressed(log, call))
  }

  // The generation that the calls so far have found, unless it was lost since.
  function Met(log: seq<Entry>): Option<uint64> {
    if log == [] then None
    else
      var e, before := Last(log), Met(Before(log));
      match e
      case Called(call, link, _) =>
        if !LooksAtLink(Before(log), call) then before
        else if link.Usable() then Some(link.generation)
        else None
      case Wrote(_, _, _, _, _, _) => if DropsSession(e) then None else before
  }

  // The call finds the connection that the calls before it found.
  predicate SameLink(log: seq<Entry>, link: Link) {
    link.Usable() && Met(log) == Some(link.generation)
  }

  // The call finds another connection than the calls before it found.
  predicate MeetsNewLink(log: seq<Entry>, link: Link) {
    Met(log).Some? && link.generation != Met(log).value
  }

  // ----- Feedback -----

  // When control was last allowed, unless that was withdrawn since.
  function AllowedTime(log: seq<Entry>): Option<int> {
    if log == [] then None
    else
      var e, before := Last(log), AllowedTime(Before(log));
      match e
      case Called(call, link, _) =>
        if !ReadsClock(Before(log), call) then before
        else if FeedbackAllowed(e) then Some(call.at)
        else if call.CallLatch? || ClockRegressed(Before(log), call) || !SameLink(Before(log), link)
             || FeedbackInhibited(e) then None
        else before
      case Wrote(_, _, _, _, _, _) => if DropsSession(e) then None else before
  }

  predicate FeedbackTimely(config: SafetyConfig, log: seq<Entry>, at: int) {
    AllowedTime(log).Some? && at - AllowedTime(log).value <= config.feedbackTimeout
  }

  // ----- The run of fresh commands -----

  // The latest accepted command's entry.
  function LatestAccepted(log: seq<Entry>): (l: Option<Entry>)
    ensures l.Some? ==> SubmissionAccepted(l.value)
  {
    if log == [] then None
    else if SubmissionAccepted(Last(log)) then Some(Last(log))
    else LatestAccepted(Before(log))
  }

  // A command accepted after the latest one would start a run of its own.
  predicate LatestStale(config: SafetyConfig, log: seq<Entry>, at: int) {
    var l := LatestAccepted(log);
    l.Some? && (at > l.value.call.command.deadline || at - l.value.call.at > config.maxCommandAge)
  }

  // The latest command may still be sent.
  predicate CommandTimely(config: SafetyConfig, log: seq<Entry>, at: int) {
    var l := LatestAccepted(log);
    && l.Some? && at <= l.value.call.command.deadline
    && at - l.value.call.command.created <= config.maxCommandAge
    && at - l.value.call.at <= config.maxCommandAge
  }

  // A cycle that would send motion, did it not find command or feedback expired.
  predicate FindsExpiry(config: SafetyConfig, log: seq<Entry>, call: Call)
    decreases |log|, 1
  {
    && call.CallTick? && FreshRun(config, log) >= config.freshRequired > 0
    && (!CommandTimely(config, log, call.at) || !FeedbackTimely(config, log, call.at))
  }

  // How many accepted commands in a row the session holds itself to have: every
  // other submission, stop, disarm, latch, inhibited feedback, new authorization,
  // lost link, bad clock, expiry, zero write or failed motion write ends the run,
  // and a command after a stale one starts another.
  function FreshRun(config: SafetyConfig, log: seq<Entry>): nat
    decreases |log|, 0
  {
    if log == [] then 0
    else
      var e, before := Last(log), FreshRun(config, Before(log));
      match e
      case Called(call, link, _) =>
        if !ReadsClock(Before(log), call) then before
        else if ClockRegressed(Before(log), call) || !SameLink(Before(log), link) then 0
        else if SubmissionAccepted(e) then
          if LatestStale(config, Before(log), call.at) then 1 else before + 1
        else if call.CallSubmit? || call.CallDisarm? || call.CallRequestStop? || call.CallLatch?
             || AuthorizationAccepted(e) || FeedbackInhibited(e) || FindsExpiry(config, Before(log), call) then 0
        else before
      case Wrote(motion, _, _, _, _, _) => if motion && WriteDone(e) then before else 0
  }

  // ----- Attempts at a zero -----

  // The latest zero write.
  function LatestZeroWrite(log: seq<Entry>): (z: Option<Entry>)
    ensures z.Some? ==> IsZero(z.value)
  {
    if log == [] then None
    else if IsZero(Last(log)) then Some(Last(log))
    else LatestZeroWrite(Before(log))
  }

  // Zero writes in a row that have failed since the connection was met.
  function Attempts(log: seq<Entry>): nat {
    if log == [] then 0
    else
      var e, before := Last(log), Attempts(Before(log));
      match e
      case Called(call, link, _) =>
        if LooksAtLink(Before(log), call) && (!link.Usable() || MeetsNewLink(Before(log), link)) then 0 else before
      case Wrote(motion, _, _, _, _, _) =>
        if DropsSession(e) then 0
        else if motion then before
        else if WriteDone(e) then 0
        else before + 1
  }

  // The earliest start of the attempt after a failed one.
  function RetryTime(config: SafetyConfig, e: Entry): int
    requires e.Wrote?
  {
    Min(Max(e.start, WriteEnd(e)) + config.zeroRetryInterval, INT64_MAX)
  }

  // ----- Marks that only rise -----

  // The highest token of an accepted authorization.
  function TopToken(log: seq<Entry>): uint64 {
    if log == [] then 0
    else
      var e, before := Last(log), TopToken(Before(log));
      if AuthorizationAccepted(e) && e.call.token > before then e.call.token else before
  }

  // The highest token of an accepted reset.
  function TopReset(log: seq<Entry>): uint64 {
    if log == [] then 0
    else
      var e, before := Last(log), TopReset(Before(log));
      if ResetAccepted(e) && e.call.token > before then e.call.token else before
  }

  // All zero attempts on the connection that a call finds have failed.
  predicate Spent(config: SafetyConfig, log: seq<Entry>, link: Link) {
    SameLink(log, link) && Attempts(log) >= config.maxZeroAttempts
  }

  // The submission gets as far as having its sequence number looked at.
  predicate LooksAtSequence(config: SafetyConfig, log: seq<Entry>, call: Call, link: Link) {
    call.CallSubmit? && !ClockRegressed(log, call) && link.Usable() && !Latched(log) && !Spent(config, log, link)
  }

  // The highest sequence number looked at, whatever became of its command.
  function TopSequence(config: SafetyConfig, log: seq<Entry>): uint64 {
    if log == [] then 0
    else
      var e, before := Last(log), TopSequence(config, Before(log));
      if e.Called? && LooksAtSequence(config, Before(log), e.call, e.link) && e.call.command.sequence > before
      then e.call.command.sequence
      else before
  }

  // ----- Authorization and motion -----

  // The latest accepted authorization's entry.
  function LatestAuthorization(log: seq<Entry>): (a: Option<Entry>)
    ensures a.Some? ==> AuthorizationAccepted(a.value)
  {
    if log == [] then None
    else if AuthorizationAccepted(Last(log)) then Some(Last(log))
    else LatestAuthorization(Before(log))
  }

  // When a write ended, or started if its end is not known.
  function MotionEnd(e: Entry): int
    requires e.Wrote?
  {
    if WriteEnd(e) > 0 then WriteEnd(e) else e.start
  }

  // When the latest completed motion write on this connection ended, or 0.
  function LastMotion(log: seq<Entry>): int {
    if log == [] then 0
    else
      var e, before := Last(log), LastMotion(Before(log));
      match e
      case Called(call, link, _) => if LooksAtLink(Before(log), call) && !SameLink(Before(log), link) then 0 else before
      case Wrote(_, _, _, _, _, _) =>
        if DropsSession(e) then 0 else if IsMotion(e) && WriteDone(e) then MotionEnd(e) else before
  }

  // ----- What is owed -----

  datatype Severity = Harmless | NeedsZero | NeedsZeroAndAuthorization

  // What a refused command demands, by status.
  function VerdictSeverity(v: SubmissionStatus): Severity {
    if v.SequenceInvalid? || v.TimestampInvalid? || v.EncodingRejected? then NeedsZeroAndAuthorization
    else if v.Stale? || v.PredatesAuthorization? || v.StopAccepted? || v.FeedbackUnavailable? then NeedsZero
    else Harmless
  }

  // What entry `e`, coming after `log`, demands before motion may be written again.
  function SeverityOf(config: SafetyConfig, log: seq<Entry>, e: Entry): Severity {
    match e
    case Called(call, link, reply) =>
      // A reset without a latch looks at neither clock nor link.
      if !ReadsClock(log, call) then Harmless
      else if call.CallDisarm? || call.CallLatch? || !link.Usable()
              || ClockRegressed(log, call) || MeetsNewLink(log, link) then
        NeedsZeroAndAuthorization
      else if FeedbackInhibited(e) then NeedsZeroAndAuthorization
      else if reply.Submission? then VerdictSeverity(reply.submission)
      else if call.CallRequestStop? || FindsExpiry(config, log, call) then NeedsZero
      else Harmless
    case Wrote(motion, _, _, _, _, outcome) =>
      if !KeepsLink(e) || ReportsLoss(outcome) || (motion && !WriteDone(e)) then NeedsZeroAndAuthorization
      else if !WriteDone(e) then NeedsZero
      else Harmless
  }

  // A session starts out owing both.
  predicate ZeroOwed(config: SafetyConfig, log: seq<Entry>) {
    log == [] || (
      var e := Last(log);
      if !SeverityOf(config, Before(log), e).Harmless? then true
      else if ZeroDone(e) then false
      else ZeroOwed(config, Before(log)))
  }

  predicate AuthorizationOwed(config: SafetyConfig, log: seq<Entry>) {
    log == [] || (
      var e := Last(log);
      if SeverityOf(config, Before(log), e).NeedsZeroAndAuthorization? then true
      else if AuthorizationAccepted(e) then false
      else AuthorizationOwed(config, Before(log)))
  }

  // What is owed is paid by nothing but a later zero or authorization.
  lemma {:induction false} OwedUntilPaid(config: SafetyConfig, log: seq<Entry>, i: nat)
    requires i < |log|
    ensures !SeverityOf(config, log[..i], log[i]).Harmless? && !ZeroOwed(config, log) ==>
              exists k :: i < k < |log| && ZeroDone(log[k])
    ensures SeverityOf(config, log[..i], log[i]).NeedsZeroAndAuthorization? && !AuthorizationOwed(config, log) ==>
              exists k :: i < k < |log| && AuthorizationAccepted(log[k])
    decreases |log|
  {
    var n := |log| - 1;
    if i < n {
      assert log[..n][..i] == log[..i];
      OwedUntilPaid(config, log[..n], i);
    }
  }
}
