// The deadline-bounded write loop over a scripted operating system: every clock
// reading, write result and poll result is the script's.  A loop that may spin
// for ever is watched for `patience` iterations; None means it was still going.

module WriteLoop {
  import opened Wrappers
  import opened Protocol
  import opened TransportModel

  const EINTR: int := 4
  const ENXIO: int := 6
  const EBADF: int := 9
  const EAGAIN: int := 11
  const EACCES: int := 13
  const ENODEV: int := 19
  const EINVAL: int := 22
  const EPIPE: int := 32
  const ENOTCONN: int := 107
  const ETIMEDOUT: int := 110
  const INT_MAX: int := 0x7FFF_FFFF

  datatype WriteReply = WriteReply(result: int, errno: int)

  // `broken` stands for POLLERR, POLLHUP or POLLNVAL, `invalid` for POLLNVAL.
  datatype PollReply = PollReply(result: int, broken: bool, invalid: bool, ready: bool, errno: int)

  datatype Script = Script(clock: nat -> int64, writes: nat -> WriteReply, polls: nat -> PollReply)

  // How far a script has been consumed.
  datatype Cursor = Cursor(readings: nat, writeCalls: nat, pollCalls: nat)

  // One write call: what it was offered, the clock reading just before it, by its
  // number and its value, and the result.
  datatype Attempt = Attempt(offered: seq<Byte>, reading: nat, at: int, result: int)

  predicate IsDisconnectError(errno: int) {
    errno in {EBADF, EPIPE, ENODEV, ENXIO, EIO, ENOTCONN}
  }

  // Poll timeouts round up, never below one millisecond before the deadline.
  function TimeoutMilliseconds(remaining: int): (ms: int)
    ensures 0 <= ms <= INT_MAX
    ensures remaining > 0 ==> ms > 0 && ms * 1_000_000 < remaining + 1_000_000
    ensures remaining > 0 && ms < INT_MAX ==> remaining <= ms * 1_000_000
  {
    if remaining <= 0 then 0
    else
      var ms := remaining / 1_000_000 + (if remaining % 1_000_000 != 0 then 1 else 0);
      Min(ms, INT_MAX)
  }

  // The clock never repeats a reading.
  ghost predicate StrictlyAdvancing(script: Script) {
    forall i: nat, j: nat :: i < j ==> script.clock(i) < script.clock(j)
  }

  lemma {:induction false} ReadingsSpread(script: Script, i: nat, j: nat)
    requires StrictlyAdvancing(script) && i <= j
    ensures script.clock(j) - script.clock(i) >= j - i
    decreases j - i
  {
    if i < j {
      ReadingsSpread(script, i, j - 1);
      assert script.clock(j - 1) < script.clock(j);
    }
  }

  // After n iterations that did not give up, some reading no earlier than the
  // n-th was still before the deadline.
  ghost predicate StillEarly(script: Script, deadline: int, first: nat, n: int) {
    n > 0 ==> exists k: nat :: first + n - 1 <= k && script.clock(k) < deadline
  }

  lemma StillEarlyBound(script: Script, deadline: int, n: nat)
    requires StillEarly(script, deadline, 0, n) && StrictlyAdvancing(script)
    ensures n <= Max(0, deadline - script.clock(0))
  {
    if n > 0 {
      var k: nat :| n - 1 <= k && script.clock(k) < deadline;
      ReadingsSpread(script, 0, k);
    }
  }

  lemma EarlyAdds(script: Script, deadline: int, first: nat, n: nat, from: nat, m: int)
    requires StillEarly(script, deadline, first, n) && first + n <= from && m >= 0
    ensures StillEarly(script, deadline, from, m) ==> StillEarly(script, deadline, first, n + m)
  {
    if m > 0 && StillEarly(script, deadline, from, m) {
      var k: nat :| from + m - 1 <= k && script.clock(k) < deadline;
    }
  }

  // One poll call: the clock reading just before and the timeout it was given.
  datatype Wait = Wait(at: int, timeout: int)

  // Every poll starts before the deadline and is allowed to last at least until
  // the deadline but less than a millisecond past it, as far as its type reaches.
  predicate Bounded(waits: seq<Wait>, deadline: int) {
    forall w :: w in waits ==>
      && w.at < deadline && 0 < w.timeout <= INT_MAX
      && w.timeout * 1_000_000 < deadline - w.at + 1_000_000
      && (w.timeout < INT_MAX ==> deadline - w.at <= w.timeout * 1_000_000)
  }

  // ----- Why a wait ends -----

  // The file is ready for writing.
  predicate PollReady(p: PollReply) {
    p.result > 0 && !p.broken && !p.invalid && p.ready
  }

  // Neither ready nor an end: wait again.
  predicate PollSpurious(p: PollReply) {
    (p.result > 0 && !p.broken && !p.invalid && !p.ready) || (p.result < 0 && p.errno == EINTR)
  }

  predicate PollFails(p: PollReply, status: TransportStatus, osError: int) {
    match status
    case DeadlineExceeded => p.result == 0 && osError == ETIMEDOUT
    case Disconnected =>
      || (p.result > 0 && p.invalid && osError == EBADF)
      || (p.result > 0 && p.broken && !p.invalid && osError == EPIPE)
      || (p.result < 0 && IsDisconnectError(p.errno) && osError == p.errno)
    case IoError => p.result < 0 && p.errno != EINTR && !IsDisconnectError(p.errno) && osError == p.errno
    case _ => false
  }

  // A wait that took the polls and readings between two cursors ended like this,
  // each poll standing between two readings: a reading at or past the deadline
  // before a poll, or the first poll that was not spurious.
  predicate WaitEnded(script: Script, deadline: int, start: Cursor, c: Cursor, status: TransportStatus, osError: int) {
    && c.writeCalls == start.writeCalls && start.pollCalls <= c.pollCalls
    && if c.readings == start.readings + 2 * (c.pollCalls - start.pollCalls) + 1 then
         && (forall k :: start.pollCalls <= k < c.pollCalls ==> PollSpurious(script.polls(k)))
         && status.DeadlineExceeded? && osError == ETIMEDOUT && script.clock(c.readings - 1) >= deadline
       else
         && c.readings == start.readings + 2 * (c.pollCalls - start.pollCalls) && start.pollCalls < c.pollCalls
         && (forall k :: start.pollCalls <= k < c.pollCalls - 1 ==> PollSpurious(script.polls(k)))
         && var p, after := script.polls(c.pollCalls - 1), script.clock(c.readings - 1);
            if !PollReady(p) then PollFails(p, status, osError)
            else if after <= deadline then status.Ok? && osError == 0
            else status.DeadlineExceeded? && osError == ETIMEDOUT
  }

  datatype WaitResult = WaitResult(status: TransportStatus, osError: int, completion: int64)

  method WaitForEvent(deadline: int64, script: Script, start: Cursor, patience: nat)
    returns (wait: Option<WaitResult>, c: Cursor, left: nat, waits: seq<Wait>)
    ensures left <= patience && c.readings >= start.readings + (patience - left)
    ensures wait.Some? ==> c.readings > start.readings && wait.value.completion == script.clock(c.readings - 1)
    ensures wait.Some? ==>
              wait.value.status.Ok? || wait.value.status.DeadlineExceeded?
              || wait.value.status.Disconnected? || wait.value.status.IoError?
    ensures wait.Some? && wait.value.status.Ok? ==> wait.value.completion <= deadline
    ensures |waits| == c.pollCalls - start.pollCalls && Bounded(waits, deadline)
    ensures wait.Some? ==> WaitEnded(script, deadline, start, c, wait.value.status, wait.value.osError)
    ensures wait.None? ==> left == 0 && c.writeCalls == start.writeCalls
    ensures wait.None? || wait.value.status.Ok? ==> |waits| == patience - left
    ensures wait.None? || wait.value.status.Ok? ==> StillEarly(script, deadline, start.readings, patience - left)
  {
    c, left, waits := start, patience, [];
    while left > 0
      invariant left <= patience && c.readings >= start.readings + (patience - left)
      invariant |waits| == c.pollCalls - start.pollCalls && Bounded(waits, deadline)
      invariant c.writeCalls == start.writeCalls && c.readings == start.readings + 2 * |waits|
      invariant |waits| == patience - left
      invariant forall k :: start.pollCalls <= k < c.pollCalls ==> PollSpurious(script.polls(k))
      invariant StillEarly(script, deadline, start.readings, patience - left)
    {
      left := left - 1;
      var beforePoll := script.clock(c.readings);
      c := c.(readings := c.readings + 1);
      if beforePoll >= deadline {
        return Some(WaitResult(DeadlineExceeded, ETIMEDOUT, beforePoll)), c, left, waits;
      }
      waits := waits + [Wait(beforePoll, TimeoutMilliseconds(deadline - beforePoll))];
      var poll := script.polls(c.pollCalls);
      var afterPoll := script.clock(c.readings);
      c := c.(readings := c.readings + 1, pollCalls := c.pollCalls + 1);
      if poll.result > 0 {
        if poll.broken || poll.invalid {
          return Some(WaitResult(Disconnected, if poll.invalid then EBADF else EPIPE, afterPoll)), c, left, waits;
        }
        if poll.ready {
          if afterPoll > deadline {
            return Some(WaitResult(DeadlineExceeded, ETIMEDOUT, afterPoll)), c, left, waits;
          }
          return Some(WaitResult(Ok, 0, afterPoll)), c, left, waits;
        }
        continue;
      }
      if poll.result == 0 {
        return Some(WaitResult(DeadlineExceeded, ETIMEDOUT, afterPoll)), c, left, waits;
      }
      if poll.errno == EINTR {
        continue;
      }
      return Some(WaitResult(if IsDisconnectError(poll.errno) then Disconnected else IoError,
                             poll.errno, afterPoll)), c, left, waits;
    }
    return None, c, left, waits;
  }

  // ----- What the transcript of a loop says -----

  // The bytes the write calls took.  A call that claims more than it was
  // offered breaks POSIX.1-2017 write() and counts as taking nothing.
  function Wire(attempts: seq<Attempt>): seq<Byte> {
    if attempts == [] then [] else Wire(attempts[..|attempts| - 1]) + Taken(attempts[|attempts| - 1])
  }

  function Taken(a: Attempt): seq<Byte> {
    if 0 < a.result <= |a.offered| then a.offered[..a.result] else []
  }

  lemma WireAppended(attempts: seq<Attempt>, a: Attempt)
    ensures Wire(attempts + [a]) == Wire(attempts) + Taken(a)
  {
    assert (attempts + [a])[..|attempts|] == attempts;
  }

  predicate ObeysPosix(attempts: seq<Attempt>) {
    forall a :: a in attempts ==> a.result <= |a.offered|
  }

  // Every call was offered exactly what the calls before it had not taken, and
  // none was made at or after the deadline.
  predicate Orderly(data: seq<Byte>, deadline: int, attempts: seq<Attempt>) {
    forall i {:trigger attempts[..i]} :: 0 <= i < |attempts| ==>
      && Wire(attempts[..i]) + attempts[i].offered == data
      && attempts[i].offered != []
      && attempts[i].at < deadline
  }

  // The first bytes of a buffer, and then the next ones of the rest.
  lemma PrefixGrows(data: seq<Byte>, taken: nat, more: nat)
    requires taken + more <= |data|
    ensures data[..taken] + data[taken..][..more] == data[..taken + more]
  {
  }

  lemma WireGrows(data: seq<Byte>, deadline: int, attempts: seq<Attempt>, a: Attempt, taken: nat)
    requires Orderly(data, deadline, attempts)
    requires taken < |data| && Wire(attempts) == data[..taken] && a.offered == data[taken..] && a.at < deadline
    ensures Orderly(data, deadline, attempts + [a])
    ensures var grown := attempts + [a];
            if 0 < a.result <= |data| - taken then Wire(grown) == data[..taken + a.result]
            else Wire(grown) == data[..taken]
  {
    OrderlyGrows(data, deadline, attempts, a);
    WireAppended(attempts, a);
    if 0 < a.result <= |data| - taken {
      PrefixGrows(data, taken, a.result);
    }
  }

  lemma OrderlyGrows(data: seq<Byte>, deadline: int, attempts: seq<Attempt>, a: Attempt)
    requires Orderly(data, deadline, attempts)
    requires Wire(attempts) + a.offered == data && a.offered != [] && a.at < deadline
    ensures Orderly(data, deadline, attempts + [a])
  {
    var grown := attempts + [a];
    forall i | 0 <= i < |grown|
      ensures Wire(grown[..i]) + grown[i].offered == data && grown[i].offered != [] && grown[i].at < deadline
    {
      if i < |attempts| {
        assert grown[..i] == attempts[..i];
      } else {
        assert grown[..i] == attempts;
      }
    }
  }

  // What has been handed over so far: the first bytes, in order, in time.
  ghost predicate Handed(bytes: seq<Byte>, deadline: int, attempts: seq<Attempt>, taken: nat) {
    && taken <= |bytes| && Orderly(bytes, deadline, attempts) && Wire(attempts) == bytes[..taken]
  }

  // No call that took nothing, or a single one that was offered the rest in time
  // and took so many bytes.
  predicate OneCall(attempts: seq<Attempt>, rest: seq<Byte>, deadline: int, took: int) {
    if attempts == [] then took == 0
    else
      && |attempts| == 1 && attempts[0].offered == rest && attempts[0].at < deadline
      && took == if 0 < attempts[0].result <= |rest| then attempts[0].result else 0
  }

  lemma HandedGrows(bytes: seq<Byte>, deadline: int, before: seq<Attempt>, attempts: seq<Attempt>,
                    taken: nat, took: nat)
    requires Handed(bytes, deadline, before, taken)
    requires taken < |bytes| && OneCall(attempts, bytes[taken..], deadline, took)
    ensures Handed(bytes, deadline, before + attempts, taken + took)
  {
    if attempts == [] {
      assert before + attempts == before;
    } else {
      var a := attempts[0];
      assert attempts == [a];
      CallHanded(bytes, deadline, before, a, taken, took);
    }
  }

  lemma CallHanded(bytes: seq<Byte>, deadline: int, before: seq<Attempt>, a: Attempt, taken: nat, took: nat)
    requires Handed(bytes, deadline, before, taken)
    requires taken < |bytes| && OneCall([a], bytes[taken..], deadline, took)
    ensures Handed(bytes, deadline, before + [a], taken + took)
  {
    WireGrows(bytes, deadline, before, a, taken);
  }

  lemma ObeysGrows(before: seq<Attempt>, attempts: seq<Attempt>)
    requires ObeysPosix(before)
    ensures ObeysPosix(before + attempts) <==> ObeysPosix(attempts)
  {
    forall a | a in attempts
      ensures a in before + attempts
    {
    }
  }

  // The calls are the script's: each saw a clock reading of its own, and the
  // result is what the script replied to that call.
  ghost predicate Replied(script: Script, attempts: seq<Attempt>, c: Cursor) {
    && |attempts| == c.writeCalls
    && (forall i :: 0 <= i < |attempts| ==>
          && attempts[i].result == script.writes(i).result
          && attempts[i].reading < c.readings && attempts[i].at == script.clock(attempts[i].reading))
    && (forall i, j :: 0 <= i < j < |attempts| ==> attempts[i].reading < attempts[j].reading)
  }

  // The calls between two cursors: none, or one.
  ghost predicate RepliedOnce(script: Script, attempts: seq<Attempt>, start: Cursor, c: Cursor) {
    && |attempts| <= 1 && c.writeCalls == start.writeCalls + |attempts| && c.readings > start.readings
    && (attempts != [] ==>
          && attempts[0].result == script.writes(start.writeCalls).result
          && attempts[0].reading == start.readings && attempts[0].at == script.clock(start.readings))
  }

  lemma RepliedGrows(script: Script, before: seq<Attempt>, attempts: seq<Attempt>, start: Cursor, c: Cursor)
    requires Replied(script, before, start) && RepliedOnce(script, attempts, start, c)
    ensures Replied(script, before + attempts, c)
  {
  }

  lemma NothingHanded(bytes: seq<Byte>, deadline: int)
    ensures Handed(bytes, deadline, [], 0) && ObeysPosix([])
  {
  }

  function Finished(status: TransportStatus, taken: nat, errno: int, complete: bool, uncertain: bool, end: int64)
    : Option<IoResult>
  {
    Some(IoResult(status, taken, errno, complete, uncertain, end))
  }

  // What a result says about the `taken` bytes that were handed over: success
  // is exactly "everything out, by the deadline", and a failure that is not
  // marked uncertain has put nothing on the wire.
  predicate Faithful(r: IoResult, taken: nat, size: nat, deadline: int) {
    && r.bytesTransferred == taken
    && (r.hostWriteComplete <==> taken == size)
    && (r.status.Ok? <==> taken == size && r.completion <= deadline)
    && (r.status.Ok? ==> !r.outcomeUncertain)
    && (!r.status.Ok? && !r.outcomeUncertain ==> taken == 0)
    && (r.status.Disconnected? ==> r.outcomeUncertain)
  }

  // ----- Why the loop ends -----

  // A write call after which the loop goes on, perhaps once the file is ready.
  predicate WritePasses(w: WriteReply) {
    w.result > 0 || (w.result < 0 && (w.errno == EINTR || w.errno == EAGAIN))
  }

  predicate MustWait(w: WriteReply) {
    w.result < 0 && w.errno == EAGAIN
  }

  // A write call that ends the loop by itself, with so many bytes still to go.
  predicate WriteFails(w: WriteReply, remaining: int, status: TransportStatus, osError: int) {
    match status
    case Disconnected =>
      || (w.result == 0 && osError == EPIPE)
      || (w.result < 0 && IsDisconnectError(w.errno) && osError == w.errno)
    case IoError =>
      || (w.result > remaining && osError == EIO)
      || (w.result < 0 && !WritePasses(w) && !IsDisconnectError(w.errno) && osError == w.errno)
    case _ => false
  }

  // How many of the first n write calls had to wait, and of the first n polls
  // found the file ready.
  ghost function Waits(script: Script, n: nat): nat {
    if n == 0 then 0 else Waits(script, n - 1) + if MustWait(script.writes(n - 1)) then 1 else 0
  }

  ghost function Readies(script: Script, n: nat): nat {
    if n == 0 then 0 else Readies(script, n - 1) + if PollReady(script.polls(n - 1)) then 1 else 0
  }

  // So far every write call passed, and each that had to wait did until the file
  // was ready.
  ghost predicate Passed(script: Script, c: Cursor) {
    && (forall k :: 0 <= k < c.writeCalls ==> WritePasses(script.writes(k)))
    && (forall k :: 0 <= k < c.pollCalls ==> PollReady(script.polls(k)) || PollSpurious(script.polls(k)))
    && Waits(script, c.writeCalls) == Readies(script, c.pollCalls)
  }

  // What ended the loop at c: the clock, the last write call or the last poll.
  predicate Caused(script: Script, deadline: int, c: Cursor, remaining: int, r: IoResult)
  {
    && c.readings > 0 && r.completion == script.clock(c.readings - 1)
    && match r.status
       case Ok => r.osError == 0
       case DeadlineExceeded =>
         && r.osError == ETIMEDOUT
         && (|| script.clock(c.readings - 1) >= deadline
             || (c.pollCalls > 0 && script.polls(c.pollCalls - 1).result == 0))
       case _ =>
         && c.writeCalls > 0
         && var w := script.writes(c.writeCalls - 1);
            || WriteFails(w, remaining, r.status, r.osError)
            || (MustWait(w) && c.pollCalls > 0 && PollFails(script.polls(c.pollCalls - 1), r.status, r.osError))
  }

  // Everything before the last write call and the last poll passed, and what
  // they say agrees with how the loop ended.
  ghost predicate PassedUntil(script: Script, c: Cursor, r: IoResult) {
    && (forall k :: 0 <= k < c.writeCalls - 1 ==> WritePasses(script.writes(k)))
    && (forall k :: 0 <= k < c.pollCalls - 1 ==> PollReady(script.polls(k)) || PollSpurious(script.polls(k)))
    && (r.status.Ok? || r.status.DeadlineExceeded? ==>
          forall k :: 0 <= k < c.writeCalls ==> WritePasses(script.writes(k)))
    && Readies(script, c.pollCalls) <= Waits(script, c.writeCalls) <= Readies(script, c.pollCalls) + 1
    && (r.status.Ok? ==> Passed(script, c))
  }

  lemma {:induction false} SpuriousReadies(script: Script, first: nat, last: nat)
    requires first <= last && forall k :: first <= k < last ==> PollSpurious(script.polls(k))
    ensures Readies(script, last) == Readies(script, first)
    decreases last
  {
    if first < last {
      SpuriousReadies(script, first, last - 1);
    }
  }

  // The last write call aside, everything passed.
  ghost predicate PassedBefore(script: Script, c: Cursor) {
    c.writeCalls > 0 && Passed(script, c.(writeCalls := c.writeCalls - 1))
  }

  lemma CalledOnce(script: Script, start: Cursor, c: Cursor)
    requires Passed(script, start)
    requires c.writeCalls == start.writeCalls + 1 && c.pollCalls == start.pollCalls
    ensures PassedBefore(script, c)
  {
  }

  // What a wait adds to the ready polls: one, if its last poll was ready.
  lemma WaitCounts(script: Script, deadline: int, start: Cursor, c: Cursor, status: TransportStatus, osError: int)
    requires WaitEnded(script, deadline, start, c, status, osError)
    ensures Readies(script, c.pollCalls) == Readies(script, start.pollCalls)
            + if c.pollCalls > start.pollCalls && PollReady(script.polls(c.pollCalls - 1)) then 1 else 0
    ensures forall k :: start.pollCalls <= k < c.pollCalls - 1 ==> PollSpurious(script.polls(k))
  {
    if c.pollCalls > start.pollCalls {
      SpuriousReadies(script, start.pollCalls, c.pollCalls - 1);
    }
  }

  // A wait after a write call that had to, and ended well.
  lemma WaitPasses(script: Script, deadline: int, start: Cursor, c: Cursor)
    requires PassedBefore(script, start) && MustWait(script.writes(start.writeCalls - 1))
    requires WaitEnded(script, deadline, start, c, Ok, 0)
    ensures Passed(script, c)
  {
    WaitCounts(script, deadline, start, c, Ok, 0);
  }

  // A wait that ended the loop.
  lemma WaitCauses(script: Script, deadline: int, start: Cursor, c: Cursor, remaining: int, r: IoResult)
    requires PassedBefore(script, start) && MustWait(script.writes(start.writeCalls - 1))
    requires WaitEnded(script, deadline, start, c, r.status, r.osError) && !r.status.Ok?
    requires c.readings > 0 && r.completion == script.clock(c.readings - 1)
    ensures Caused(script, deadline, c, remaining, r) && PassedUntil(script, c, r)
  {
    WaitCounts(script, deadline, start, c, r.status, r.osError);
  }

  // How the loop ended, and why.
  ghost predicate Explained(script: Script, deadline: int, c: Cursor, taken: nat, size: nat, r: IoResult) {
    && !r.status.InvalidArgument? && Faithful(r, taken, size, deadline)
    && Caused(script, deadline, c, size - taken, r) && PassedUntil(script, c, r)
  }

  // The loop ended with an error after a write call that reported progress.
  predicate Overclaimed(script: Script, c: Cursor, r: IoResult) {
    r.status.IoError? && c.writeCalls > 0 && script.writes(c.writeCalls - 1).result > 0
  }

  // After a write call that took nothing: give up, or wait and try again.
  method AfterRefusal(reply: WriteReply, taken: nat, size: nat, deadline: int64,
                      script: Script, start: Cursor, patience: nat)
    returns (ended: Option<IoResult>, c: Cursor, left: nat)
    requires reply.result <= 0 && taken < size
    requires PassedBefore(script, start) && reply == script.writes(start.writeCalls - 1)
    ensures left <= patience && c.readings >= start.readings + (patience - left)
    ensures ended.Some? ==> Explained(script, deadline, c, taken, size, ended.value)
    ensures c.writeCalls == start.writeCalls
    ensures ended.None? ==> Passed(script, c) || left == 0
    ensures ended.None? ==> c.pollCalls - start.pollCalls == patience - left
    ensures ended.None? ==> StillEarly(script, deadline, start.readings, patience - left)
  {
    c, left := start, patience;
    if reply.result < 0 && reply.errno == EINTR {
      return None, c, left;
    }
    if reply.result < 0 && reply.errno == EAGAIN {
      var wait, waits;
      wait, c, left, waits := WaitForEvent(deadline, script, c, left);
      if wait.None? {
        return None, c, left;
      }
      if wait.value.status.Ok? {
        WaitPasses(script, deadline, start, c);
        return None, c, left;
      }
      ended := Finished(wait.value.status, taken, wait.value.osError, false,
                        taken != 0 || wait.value.status.Disconnected?, wait.value.completion);
      WaitCauses(script, deadline, start, c, size - taken, ended.value);
      return;
    }
    var completion := script.clock(c.readings);
    c := c.(readings := c.readings + 1);
    if reply.result == 0 {
      return Finished(Disconnected, taken, EPIPE, false, true, completion), c, left;
    }
    var status := if IsDisconnectError(reply.errno) then Disconnected else IoError;
    return Finished(status, taken, reply.errno, false, taken != 0 || status.Disconnected?, completion), c, left;
  }

  // After a write call that took something: done, too late, or on to the rest.
  method AfterProgress(taken: nat, size: nat, deadline: int64, script: Script, start: Cursor)
    returns (ended: Option<IoResult>, c: Cursor)
    requires 0 < taken <= size && Passed(script, start)
    ensures c == start.(readings := start.readings + 1)
    ensures ended.Some? ==> Explained(script, deadline, c, taken, size, ended.value)
    ensures ended.None? ==> taken < size && Passed(script, c)
    ensures ended.Some? ==> !ended.value.status.IoError?
  {
    var completion := script.clock(start.readings);
    c := start.(readings := start.readings + 1);
    if taken == size {
      var late := completion > deadline;
      return Finished(if late then DeadlineExceeded else Ok, taken, if late then ETIMEDOUT else 0,
                      true, late, completion), c;
    }
    if completion >= deadline {
      return Finished(DeadlineExceeded, taken, ETIMEDOUT, false, true, completion), c;
    }
    return None, c;
  }

  // The bytes that are still to be handed over.
  method RestOf(data: array<Byte>, size: nat, taken: nat) returns (rest: seq<Byte>)
    requires taken <= size <= data.Length
    ensures rest == data[..size][taken..]
  {
    rest := data[taken..size];
  }

  // What follows from the reply of a write call.
  method AfterReply(reply: WriteReply, beforeWrite: int64, taken: nat, size: nat, deadline: int64,
                    script: Script, start: Cursor, patience: nat)
    returns (ended: Option<IoResult>, transferred: nat, c: Cursor, left: nat)
    requires taken < size && PassedBefore(script, start) && reply == script.writes(start.writeCalls - 1)
    requires start.readings > 0 && beforeWrite == script.clock(start.readings - 1)
    ensures left <= patience && c.readings >= start.readings + (patience - left)
    ensures transferred == taken + if 0 < reply.result <= size - taken then reply.result else 0
    ensures ended.Some? ==> Explained(script, deadline, c, transferred, size, ended.value)
    ensures reply.result > size - taken ==> ended.Some? && ended.value.status.IoError?
    ensures ended.Some? && Overclaimed(script, c, ended.value) ==> reply.result > size - taken
    ensures c.writeCalls == start.writeCalls
    ensures ended.None? ==> transferred < size && (left > 0 ==> Passed(script, c))
    ensures ended.None? ==> c.pollCalls - start.pollCalls == patience - left
    ensures ended.None? ==> StillEarly(script, deadline, start.readings, patience - left)
  {
    transferred, c, left := taken, start, patience;
    if reply.result > 0 {
      if reply.result > size - taken {
        ended := Finished(IoError, taken, EIO, false, taken != 0, beforeWrite);
        return;
      }
      transferred := taken + reply.result;
      ended, c := AfterProgress(transferred, size, deadline, script, c);
      return;
    }
    ended, c, left := AfterRefusal(reply, taken, size, deadline, script, c, left);
  }

  // One pass of the loop: a write call, and what follows from its reply.
  method WriteSome(data: array<Byte>, size: nat, deadline: int64, script: Script, taken: nat,
                   start: Cursor, patience: nat)
    returns (ended: Option<IoResult>, attempts: seq<Attempt>, transferred: nat, c: Cursor, left: nat)
    requires taken < size <= data.Length && patience > 0 && Passed(script, start)
    ensures left < patience && c.readings >= start.readings + (patience - left)
    ensures OneCall(attempts, data[..size][taken..], deadline, transferred - taken)
    ensures RepliedOnce(script, attempts, start, c)
    ensures ended.None? ==> c.writeCalls + c.pollCalls - start.writeCalls - start.pollCalls == patience - left
    ensures ended.Some? ==> Explained(script, deadline, c, transferred, size, ended.value)
    ensures ended.None? || !ended.value.status.IoError? ==> ObeysPosix(attempts)
    ensures ended.None? ==> transferred < size && (left > 0 ==> Passed(script, c))
    ensures ended.None? ==> StillEarly(script, deadline, start.readings, patience - left)
    ensures ended.Some? && Overclaimed(script, c, ended.value) ==> !ObeysPosix(attempts)
  {
    attempts, transferred, left := [], taken, patience - 1;
    var beforeWrite := script.clock(start.readings);
    c := start.(readings := start.readings + 1);
    if beforeWrite >= deadline {
      ended := TooLate(taken, size, deadline, script, c, beforeWrite);
      return;
    }
    var reply := script.writes(c.writeCalls);
    c := c.(writeCalls := c.writeCalls + 1);
    var rest := RestOf(data, size, taken);
    attempts := [Attempt(rest, start.readings, beforeWrite, reply.result)];
    CalledOnce(script, start, c);
    ended, transferred, c, left := AfterReply(reply, beforeWrite, taken, size, deadline, script, c, left);
    if ended.None? {
      EarlyAdds(script, deadline, start.readings, 1, start.readings + 1, patience - 1 - left);
    }
  }

  // No write call at or after the deadline.
  method TooLate(taken: nat, size: nat, deadline: int64, script: Script, c: Cursor, now: int64)
    returns (ended: Option<IoResult>)
    requires taken < size && Passed(script, c) && c.readings > 0 && now == script.clock(c.readings - 1) >= deadline
    ensures ended.Some? && ended.value.status.DeadlineExceeded?
    ensures Explained(script, deadline, c, taken, size, ended.value)
  {
    ended := Finished(DeadlineExceeded, taken, ETIMEDOUT, false, taken != 0, now);
  }

  // What the transcript so far shows, in order, in time and as the script replied.
  ghost predicate Recorded(script: Script, bytes: seq<Byte>, deadline: int, attempts: seq<Attempt>,
                           taken: nat, c: Cursor) {
    Handed(bytes, deadline, attempts, taken) && Replied(script, attempts, c)
  }

  // The transcript with the calls of one pass.
  lemma RecordedGrows(script: Script, bytes: seq<Byte>, deadline: int, before: seq<Attempt>, taken: nat, start: Cursor,
                      calls: seq<Attempt>, transferred: nat, c: Cursor, attempts: seq<Attempt>)
    requires Recorded(script, bytes, deadline, before, taken, start) && ObeysPosix(before)
    requires taken < |bytes| && OneCall(calls, bytes[taken..], deadline, transferred - taken)
    requires RepliedOnce(script, calls, start, c) && attempts == before + calls
    ensures Recorded(script, bytes, deadline, attempts, transferred, c)
    ensures ObeysPosix(attempts) <==> ObeysPosix(calls)
  {
    HandedGrows(bytes, deadline, before, calls, taken, transferred - taken);
    ObeysGrows(before, calls);
    RepliedGrows(script, before, calls, start, c);
  }

  // Write calls until the bytes are out or the loop has to end.
  method WriteBytes(data: array<Byte>, size: nat, deadline: int64, script: Script, patience: nat)
    returns (ended: Option<IoResult>, attempts: seq<Attempt>, transferred: nat, c: Cursor, left: nat)
    requires 0 < size <= data.Length
    ensures Recorded(script, data[..size], deadline, attempts, transferred, c)
    ensures ended.Some? ==> Explained(script, deadline, c, transferred, size, ended.value)
    ensures ended.None? || !ended.value.status.IoError? ==> ObeysPosix(attempts)
    ensures ended.None? ==> left == 0 && StillEarly(script, deadline, 0, patience)
    ensures ended.None? ==> transferred < size && c.writeCalls + c.pollCalls == patience
    ensures ended.Some? && Overclaimed(script, c, ended.value) ==> !ObeysPosix(attempts)
  {
    attempts, transferred, c, left := [], 0, Cursor(0, 0, 0), patience;
    ghost var bytes := data[..size];
    NothingHanded(bytes, deadline);
    while left > 0
      invariant left <= patience && c.readings >= patience - left
      invariant StillEarly(script, deadline, 0, patience - left)
      invariant transferred < size && Recorded(script, bytes, deadline, attempts, transferred, c)
      invariant ObeysPosix(attempts)
      invariant left > 0 ==> Passed(script, c)
      invariant c.writeCalls + c.pollCalls == patience - left
    {
      ghost var before, was, taken := left, c, transferred;
      var calls;
      ended, calls, transferred, c, left := WriteSome(data, size, deadline, script, transferred, c, left);
      ghost var sofar := attempts;
      attempts := attempts + calls;
      RecordedGrows(script, bytes, deadline, sofar, taken, was, calls, transferred, c, attempts);
      if ended.Some? {
        return;
      }
      EarlyAdds(script, deadline, 0, patience - before, was.readings, before - left);
      assert StillEarly(script, deadline, 0, patience - left);
    }
    ended := None;
  }

  // Nothing went wrong up to c: every reading was before the deadline, every write
  // call took what it could of its offer or may be tried again, and every poll
  // was ready or spurious.
  ghost predicate Cooperative(script: Script, deadline: int, attempts: seq<Attempt>, c: Cursor) {
    && ObeysPosix(attempts)
    && (forall k :: 0 <= k < c.readings ==> script.clock(k) < deadline)
    && (forall k :: 0 <= k < c.writeCalls ==> WritePasses(script.writes(k)))
    && (forall k :: 0 <= k < c.pollCalls ==> PollReady(script.polls(k)) || PollSpurious(script.polls(k)))
  }

  // A loop that ended without success met something that went wrong.
  lemma CooperationSucceeds(script: Script, deadline: int, attempts: seq<Attempt>, c: Cursor, remaining: nat,
                            r: IoResult)
    requires Caused(script, deadline, c, remaining, r) && !r.status.InvalidArgument?
    requires Overclaimed(script, c, r) ==> !ObeysPosix(attempts)
    requires Cooperative(script, deadline, attempts, c)
    ensures r.status.Ok?
  {
    assert script.clock(c.readings - 1) < deadline;
    assert c.writeCalls > 0 ==> WritePasses(script.writes(c.writeCalls - 1));
  }

  method WriteAllWithOperations(validFd: bool, operationsComplete: bool, data: array?<Byte>, size: nat,
                                deadline: int64, script: Script, patience: nat)
    returns (result: Option<IoResult>, attempts: seq<Attempt>, c: Cursor, left: nat)
    requires data != null ==> size <= data.Length
    // An invalid call touches nothing.
    ensures !validFd || (data == null && size != 0) || !operationsComplete <==>
            result.Some? && result.value.status.InvalidArgument?
    ensures result.Some? && result.value.status.InvalidArgument? ==>
              attempts == [] && !result.value.hostWriteComplete && !result.value.outcomeUncertain
    // The bytes handed over are always an unrepeated prefix of the buffer.
    ensures data == null ==> attempts == []
    ensures data != null ==> Orderly(data[..size], deadline, attempts) && Wire(attempts) <= data[..size]
    // What the result says is true, and the last thing that happened is its cause.
    ensures result.Some? && !result.value.status.InvalidArgument? ==>
              Explained(script, deadline, c, |Wire(attempts)|, size, result.value)
    ensures Replied(script, attempts, c)
    // A call that claims more than it was offered ends the loop with an error, and
    // after a call that took something nothing else does.
    ensures result.Some? && !result.value.status.IoError? ==> ObeysPosix(attempts)
    ensures result.Some? && Overclaimed(script, c, result.value) ==> !ObeysPosix(attempts)
    // And when nothing goes wrong the loop succeeds.
    ensures result.Some? && !result.value.status.InvalidArgument? && Cooperative(script, deadline, attempts, c) ==>
              result.value.status.Ok?
    // The loops end when the clock strictly advances.
    ensures result.None? ==> left == 0 && |Wire(attempts)| < size && c.writeCalls + c.pollCalls == patience
    ensures StrictlyAdvancing(script) && patience > Max(0, deadline - script.clock(0)) ==> result.Some?
  {
    attempts, c, left := [], Cursor(0, 0, 0), patience;
    if !validFd || (data == null && size != 0) || !operationsComplete {
      return Finished(InvalidArgument, 0, EINVAL, false, false, 0), attempts, c, left;
    }
    if size == 0 {
      var completion := script.clock(0);
      var late := completion > deadline;
      c := c.(readings := 1);
      return Finished(if late then DeadlineExceeded else Ok, 0, if late then ETIMEDOUT else 0, true, late, completion),
             attempts, c, left;
    }

    var transferred;
    result, attempts, transferred, c, left := WriteBytes(data, size, deadline, script, patience);
    if result.None? && StrictlyAdvancing(script) {
      StillEarlyBound(script, deadline, patience);
    }
    if result.Some? && Cooperative(script, deadline, attempts, c) {
      CooperationSucceeds(script, deadline, attempts, c, size - transferred, result.value);
    }
  }
}
