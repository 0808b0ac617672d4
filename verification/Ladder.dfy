// What has to have happened, in order and on the same connection, before a
// motion frame is written.

module Ladders {
  import opened Wrappers
  import opened Protocol
  import opened TransportModel
  import opened SessionModel
  import opened SessionInvariant
  import opened LogReading
  import opened SessionFrames

  // Log positions: a completed zero write, an accepted authorization, and the
  // accepted commands of the current run.
  datatype Rungs = Rungs(zero: nat, auth: nat, run: seq<nat>)

  predicate ZeroAt(log: seq<Entry>, z: nat, generation: uint64) {
    z < |log| && ZeroDone(log[z]) && log[z].frame == ZERO_FRAME && log[z].generation == generation
  }

  predicate AuthAt(log: seq<Entry>, a: nat, generation: uint64) {
    && a < |log| && AuthorizationAccepted(log[a]) && log[a].link.generation == generation
    && forall k :: 0 <= k < a && AuthorizationAccepted(log[k]) ==> log[k].call.token < log[a].call.token
  }

  predicate Increasing(run: seq<nat>) {
    forall k, l :: 0 <= k < l < |run| ==> run[k] < run[l]
  }

  // Accepted commands after the authorization at `a`, each strictly newer than the one before.
  predicate RunMembers(log: seq<Entry>, a: nat, run: seq<nat>, generation: uint64) {
    && a < |log| && AuthorizationAccepted(log[a]) && Increasing(run)
    && (forall k :: 0 <= k < |run| ==>
          && a < run[k] < |log| && SubmissionAccepted(log[run[k]]) && log[run[k]].link.generation == generation
          && log[a].call.at < log[run[k]].call.command.created)
    && (forall k, l :: 0 <= k < l < |run| ==>
          && log[run[k]].call.command.sequence < log[run[l]].call.command.sequence
          && log[run[k]].call.command.created < log[run[l]].call.command.created)
  }

  // From the run's first command up to `end`: no zero write, no other accepted command.
  predicate Unbroken(log: seq<Entry>, end: nat, run: seq<nat>)
    requires run != [] && end <= |log|
  {
    && (forall i :: run[0] < i < end ==> !IsZero(log[i]))
    && (forall i :: run[0] <= i < end && SubmissionAccepted(log[i]) ==> i in run)
  }

  predicate RunAt(log: seq<Entry>, end: nat, a: nat, run: seq<nat>, generation: uint64) {
    && run != [] && run[|run| - 1] < end <= |log|
    && AuthAt(log, a, generation)
    && RunMembers(log, a, run, generation)
    && Unbroken(log, end, run)
  }

  function LastCommand(log: seq<Entry>, run: seq<nat>): TimedMotionCommand
    requires run != [] && run[|run| - 1] < |log| && SubmissionAccepted(log[run[|run| - 1]])
  {
    log[run[|run| - 1]].call.command
  }

  // The ladder under the motion write at position j.
  predicate Climbed(config: SafetyConfig, log: seq<Entry>, j: nat, r: Rungs) {
    && j < |log| && IsMotion(log[j])
    && r.zero < r.auth && ZeroAt(log, r.zero, log[j].generation)
    && RunAt(log, j, r.auth, r.run, log[j].generation)
    && |r.run| >= config.freshRequired
    && var command := LastCommand(log, r.run);
       && Encode(command.motion, config.maxLinear) == Encoded(log[j].frame)
       && log[j].deadline <= command.deadline
       && log[j].start <= command.deadline
       && log[j].start - command.created <= config.maxCommandAge
  }

  predicate PermitHeld(s: Session, log: seq<Entry>, r: Rungs) {
    s.permit.Permit? ==>
      && r.zero < r.auth && ZeroAt(log, r.zero, s.generation)
      && AuthAt(log, r.auth, s.generation) && log[r.auth].call.at == s.permit.time
  }

  predicate IntentHeld(s: Session, log: seq<Entry>, r: Rungs) {
    s.intent.Intent? ==>
      && RunAt(log, |log|, r.auth, r.run, s.generation)
      && s.intent.streak == Min(|r.run|, s.config.freshRequired)
      && LastCommand(log, r.run) == s.intent.command
  }

  predicate MarksHeld(s: Session, log: seq<Entry>) {
    && (forall k :: 0 <= k < |log| && AuthorizationAccepted(log[k]) ==> log[k].call.token <= s.topToken)
    && (forall k :: 0 <= k < |log| && SubmissionAccepted(log[k]) ==> log[k].call.command.sequence <= s.topSequence)
    && (forall k :: 0 <= k < |log| && ResetAccepted(log[k]) ==> log[k].call.token <= s.topReset)
  }

  predicate LadderHeld(s: Session, link: Link, log: seq<Entry>, clean: nat, r: Rungs) {
    && (Clean(s) && !Detached(s, link) ==> ZeroAt(log, clean, s.generation))
    && PermitHeld(s, log, r) && IntentHeld(s, log, r) && MarksHeld(s, log)
  }

  // ----- Growing logs -----

  lemma RunGrows(log: seq<Entry>, a: nat, run: seq<nat>, generation: uint64, e: Entry)
    requires RunAt(log, |log|, a, run, generation)
    requires !IsZero(e) && !SubmissionAccepted(e)
    ensures RunAt(log + [e], |log| + 1, a, run, generation)
  {
    var all := log + [e];
    assert forall i :: 0 <= i < |log| ==> all[i] == log[i];
  }

  // A command newer than the run's last one is newer than all of the run.
  lemma NewestOfRun(log: seq<Entry>, a: nat, run: seq<nat>, generation: uint64, c: TimedMotionCommand)
    requires RunAt(log, |log|, a, run, generation)
    requires LastCommand(log, run).created < c.created && LastCommand(log, run).sequence < c.sequence
    ensures forall k :: 0 <= k < |run| ==>
              run[k] < |log| && log[run[k]].call.command.sequence < c.sequence
              && log[run[k]].call.command.created < c.created
  {
    var n := |run| - 1;
    forall k | 0 <= k < |run|
      ensures log[run[k]].call.command.sequence < c.sequence && log[run[k]].call.command.created < c.created
    {
      if k < n {
        assert log[run[k]].call.command.sequence < log[run[n]].call.command.sequence;
      }
    }
  }

  lemma RunExtended(log: seq<Entry>, a: nat, run: seq<nat>, generation: uint64, e: Entry)
    requires RunAt(log, |log|, a, run, generation)
    requires SubmissionAccepted(e) && e.link.generation == generation
    requires log[a].call.at < e.call.command.created
    requires LastCommand(log, run).created < e.call.command.created
    requires LastCommand(log, run).sequence < e.call.command.sequence
    ensures RunAt(log + [e], |log| + 1, a, run + [|log|], generation)
  {
    AuthGrows(log, a, generation, e);
    MembersExtended(log, a, run, generation, e);
    UnbrokenExtended(log, run, e);
  }

  lemma MembersExtended(log: seq<Entry>, a: nat, run: seq<nat>, generation: uint64, e: Entry)
    requires RunAt(log, |log|, a, run, generation)
    requires SubmissionAccepted(e) && e.link.generation == generation
    requires log[a].call.at < e.call.command.created
    requires LastCommand(log, run).created < e.call.command.created
    requires LastCommand(log, run).sequence < e.call.command.sequence
    ensures RunMembers(log + [e], a, run + [|log|], generation)
  {
    var all := log + [e];
    assert forall i :: 0 <= i < |log| ==> all[i] == log[i];
    NewestOfRun(log, a, run, generation, e.call.command);
  }

  lemma UnbrokenExtended(log: seq<Entry>, run: seq<nat>, e: Entry)
    requires run != [] && run[0] < |log| && Unbroken(log, |log|, run) && !IsZero(e)
    ensures Unbroken(log + [e], |log| + 1, run + [|log|])
  {
    var all, longer := log + [e], run + [|log|];
    forall i | longer[0] <= i < |all| && SubmissionAccepted(all[i])
      ensures i in longer
    {
      if i < |log| {
        assert i in run;
      } else {
        assert longer[|run|] == i;
      }
    }
  }

  lemma RunStarted(log: seq<Entry>, a: nat, generation: uint64, e: Entry)
    requires AuthAt(log, a, generation)
    requires SubmissionAccepted(e) && e.link.generation == generation
    requires log[a].call.at < e.call.command.created
    ensures RunAt(log + [e], |log| + 1, a, [|log|], generation)
  {
    var all := log + [e];
    assert forall i :: 0 <= i < |log| ==> all[i] == log[i];
  }

  // ----- Preservation -----

  lemma ZeroGrows(log: seq<Entry>, z: nat, generation: uint64, e: Entry)
    requires ZeroAt(log, z, generation)
    ensures ZeroAt(log + [e], z, generation)
  {
  }

  lemma AuthGrows(log: seq<Entry>, a: nat, generation: uint64, e: Entry)
    requires AuthAt(log, a, generation)
    ensures AuthAt(log + [e], a, generation)
  {
    assert forall i :: 0 <= i < |log| ==> (log + [e])[i] == log[i];
  }

  lemma MarksAfterCall(s: Session, n: Session, log: seq<Entry>, e: Entry)
    requires e.Called? && MarksFramed(s, n, e) && MarksHeld(s, log)
    ensures MarksHeld(n, log + [e])
  {
    var all := log + [e];
    assert forall i :: 0 <= i < |log| ==> all[i] == log[i];
  }

  // The run after an accepted command.
  lemma RunAfterSubmission(s: Session, n: Session, link: Link, log: seq<Entry>, e: Entry, r: Rungs)
    returns (run: seq<nat>)
    requires Sound(s) && s.configured && SubmissionAccepted(e) && e.link == link
    requires IntentFramed(s, n, link, e) && s.topSequence < e.call.command.sequence
    requires PermitHeld(s, log, r) && IntentHeld(s, log, r)
    ensures RunAt(log + [e], |log| + 1, r.auth, run, s.generation)
    ensures n.intent.streak == Min(|run|, s.config.freshRequired)
    ensures LastCommand(log + [e], run) == n.intent.command
  {
    if s.intent.Intent? && s.intent.command.created < e.call.command.created
       && n.intent.streak == Min(s.intent.streak + 1, s.config.freshRequired) {
      RunExtended(log, r.auth, r.run, s.generation, e);
      run := r.run + [|log|];
    } else {
      RunStarted(log, r.auth, s.generation, e);
      run := [|log|];
    }
  }

  lemma LadderAfterAuthorize(s: Session, n: Session, link: Link, log: seq<Entry>, e: Entry, clean: nat, r: Rungs)
    returns (r': Rungs)
    requires Sound(s) && s.configured && Sound(n) && AuthorizationAccepted(e) && e.link == link && Framed(s, n, link, e)
    requires LadderHeld(s, link, log, clean, r)
    ensures LadderHeld(n, link, log + [e], clean, r')
  {
    r' := Rungs(clean, |log|, []);
    MarksAfterCall(s, n, log, e);
    ZeroGrows(log, clean, s.generation, e);
    assert AuthAt(log + [e], |log|, s.generation) by {
      assert forall i :: 0 <= i < |log| ==> (log + [e])[i] == log[i];
    }
  }

  lemma LadderAfterSubmission(s: Session, n: Session, link: Link, log: seq<Entry>, e: Entry, clean: nat, r: Rungs)
    returns (r': Rungs)
    requires Sound(s) && s.configured && Sound(n) && SubmissionAccepted(e) && e.link == link && Framed(s, n, link, e)
    requires LadderHeld(s, link, log, clean, r)
    ensures LadderHeld(n, link, log + [e], clean, r')
  {
    MarksAfterCall(s, n, log, e);
    var run := RunAfterSubmission(s, n, link, log, e, r);
    r' := r.(run := run);
    ZeroGrows(log, clean, s.generation, e);
    ZeroGrows(log, r.zero, s.generation, e);
    AuthGrows(log, r.auth, s.generation, e);
  }

  lemma LadderAfterNeutral(s: Session, n: Session, link: Link, log: seq<Entry>, e: Entry, clean: nat, r: Rungs)
    requires Sound(s) && s.configured && Sound(n) && e.Called? && e.link == link && Framed(s, n, link, e)
    requires !AuthorizationAccepted(e) && !SubmissionAccepted(e)
    requires LadderHeld(s, link, log, clean, r)
    ensures LadderHeld(n, link, log + [e], clean, r)
  {
    MarksAfterCall(s, n, log, e);
    if n.known && !Reattached(s, n, link) {
      if Clean(n) && !Detached(n, link) {
        ZeroGrows(log, clean, s.generation, e);
      }
      if n.permit.Permit? {
        ZeroGrows(log, r.zero, s.generation, e);
        AuthGrows(log, r.auth, s.generation, e);
      }
      if n.intent.Intent? {
        RunGrows(log, r.auth, r.run, s.generation, e);
      }
    }
  }

  lemma LadderAfterCall(s: Session, n: Session, link: Link, log: seq<Entry>, e: Entry, clean: nat, r: Rungs)
    returns (r': Rungs)
    requires Sound(s) && s.configured && Sound(n) && e.Called? && e.link == link && Framed(s, n, link, e)
    requires LadderHeld(s, link, log, clean, r)
    ensures LadderHeld(n, link, log + [e], clean, r')
  {
    if AuthorizationAccepted(e) {
      r' := LadderAfterAuthorize(s, n, link, log, e, clean, r);
    } else if SubmissionAccepted(e) {
      r' := LadderAfterSubmission(s, n, link, log, e, clean, r);
    } else {
      LadderAfterNeutral(s, n, link, log, e, clean, r);
      r' := r;
    }
  }

  lemma MarksAfterWrite(s: Session, n: Session, log: seq<Entry>, e: WriteEntry)
    requires MarksHeld(s, log)
    requires s.topToken == n.topToken && s.topSequence <= n.topSequence && s.topReset == n.topReset
    ensures MarksHeld(n, log + [e])
  {
    var all := log + [e];
    assert forall i :: 0 <= i < |log| ==> all[i] == log[i];
  }

  lemma LadderAfterZero(s: Session, link: Link, log: seq<Entry>, e: WriteEntry, n: Session, after: Link,
                        clean: nat, r: Rungs)
    returns (clean': nat)
    requires Sound(s) && s.configured && ZeroStep(s, link, e, n, after)
    requires s.generation <= link.generation && LinkFollows(link, after)
    requires LadderHeld(s, link, log, clean, r)
    ensures LadderHeld(n, after, log + [e], clean', r)
  {
    MarksAfterWrite(s, n, log, e);
    if s.permit.Permit? {
      ZeroGrows(log, r.zero, s.generation, e);
      AuthGrows(log, r.auth, s.generation, e);
    }
    clean' := if ZeroDone(e) then |log| else clean;
  }

  lemma LadderAfterMotion(s: Session, link: Link, log: seq<Entry>, e: WriteEntry, clean: nat, r: Rungs)
    requires Sound(s) && s.configured && Ready(s, link, e)
    requires LadderHeld(s, link, log, clean, r)
    ensures LadderHeld(MotionLeft(s, e), e.outcome.after, log + [e], clean, r)
  {
    MarksAfterWrite(s, MotionLeft(s, e), log, e);
    ZeroGrows(log, clean, s.generation, e);
    ZeroGrows(log, r.zero, s.generation, e);
    AuthGrows(log, r.auth, s.generation, e);
    RunGrows(log, r.auth, r.run, s.generation, e);
  }

  lemma LadderLinkMoved(s: Session, before: Link, after: Link, log: seq<Entry>, clean: nat, r: Rungs)
    requires Sound(s) && s.configured && LinkFollows(before, after) && s.generation <= before.generation
    requires LadderHeld(s, before, log, clean, r)
    ensures LadderHeld(s, after, log, clean, r)
  {
  }

  lemma MotionClimbed(s: Session, link: Link, log: seq<Entry>, e: WriteEntry, clean: nat, r: Rungs)
    requires Sound(s) && s.configured && Ready(s, link, e)
    requires LadderHeld(s, link, log, clean, r)
    ensures Climbed(s.config, log + [e], |log|, r)
  {
    ZeroGrows(log, r.zero, s.generation, e);
    RunGrows(log, r.auth, r.run, s.generation, e);
    RunCut(log + [e], r.auth, r.run, s.generation);
  }

  // What is a run up to the end is one up to any later point than its last command.
  lemma RunCut(log: seq<Entry>, a: nat, run: seq<nat>, generation: uint64)
    requires log != [] && RunAt(log, |log|, a, run, generation) && run[|run| - 1] < |log| - 1
    ensures RunAt(log, |log| - 1, a, run, generation)
  {
  }
}
