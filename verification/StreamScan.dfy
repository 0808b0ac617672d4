// What the parser means: one leftmost scan of the whole byte stream by
// position.  No buffer, no chunks.

module StreamScan {
  import opened Protocol
  import opened Wrappers

  datatype Tally = Tally(valid: nat, checksum: nat, framing: nat, discarded: nat)

  // The windows found (by start position), the counters, and where the pending
  // suffix begins.
  datatype Scan = Scan(starts: seq<nat>, tally: Tally, pending: nat)

  predicate Window(stream: seq<Byte>, p: nat) {
    p + FEEDBACK_FRAME_SIZE <= |stream| && IsFeedbackFrame(stream[p..p + FEEDBACK_FRAME_SIZE])
  }

  function Discard(t: Tally): Tally {
    t.(discarded := t.discarded + 1)
  }

  // The counters after a full window that does not decode.
  function Fail(t: Tally, window: seq<Byte>): Tally {
    if DecodeFailure(window) == Some(ChecksumMismatch)
    then t.(checksum := t.checksum + 1)
    else t.(framing := t.framing + 1)
  }

  // Scan on from position p with the results so far.
  function ScanFrom(stream: seq<Byte>, p: nat, starts: seq<nat>, t: Tally): (r: Scan)
    requires p <= |stream|
    ensures p <= r.pending <= |stream|
    decreases |stream| - p
  {
    if p == |stream| then Scan(starts, t, p)
    else if stream[p] != FRAME_HEADER then ScanFrom(stream, p + 1, starts, Discard(t))
    else if p + FEEDBACK_FRAME_SIZE > |stream| then Scan(starts, t, p)
    else if Window(stream, p) then
      ScanFrom(stream, p + FEEDBACK_FRAME_SIZE, starts + [p], t.(valid := t.valid + 1))
    else
      ScanFrom(stream, p + 1, starts, Discard(Fail(t, stream[p..p + FEEDBACK_FRAME_SIZE])))
  }

  const NOTHING := Tally(0, 0, 0, 0)

  function ScanAll(stream: seq<Byte>): Scan {
    ScanFrom(stream, 0, [], NOTHING)
  }

  // ----- One more byte -----

  // Past the pending position only headerless bytes or too short a suffix
  // remain, so a longer stream is scanned exactly as far and goes on there.
  lemma {:induction false} ScanPrefix(stream: seq<Byte>, more: seq<Byte>, p: nat, starts: seq<nat>, t: Tally)
    requires p <= |stream|
    ensures var r := ScanFrom(stream, p, starts, t);
            ScanFrom(stream + more, p, starts, t) == ScanFrom(stream + more, r.pending, r.starts, r.tally)
    decreases |stream| - p
  {
    var all := stream + more;
    if p == |stream| {
    } else if stream[p] != FRAME_HEADER {
      ScanPrefix(stream, more, p + 1, starts, Discard(t));
    } else if p + FEEDBACK_FRAME_SIZE > |stream| {
    } else {
      assert all[p..p + FEEDBACK_FRAME_SIZE] == stream[p..p + FEEDBACK_FRAME_SIZE];
      if Window(stream, p) {
        ScanPrefix(stream, more, p + FEEDBACK_FRAME_SIZE, starts + [p], t.(valid := t.valid + 1));
      } else {
        ScanPrefix(stream, more, p + 1, starts, Discard(Fail(t, stream[p..p + FEEDBACK_FRAME_SIZE])));
      }
    }
  }

  // The scan of a continued stream resumes from the pending position.
  lemma ScanResumes(stream: seq<Byte>, more: seq<Byte>)
    ensures var r := ScanAll(stream);
            ScanAll(stream + more) == ScanFrom(stream + more, r.pending, r.starts, r.tally)
  {
    ScanPrefix(stream, more, 0, [], NOTHING);
  }

  // Headerless bytes are dropped one by one.
  lemma {:induction false} ScanSkips(stream: seq<Byte>, p: nat, q: nat, starts: seq<nat>, t: Tally)
    requires p <= q <= |stream|
    requires forall k :: p <= k < q ==> stream[k] != FRAME_HEADER
    ensures ScanFrom(stream, p, starts, t) ==
            ScanFrom(stream, q, starts, t.(discarded := t.discarded + (q - p)))
    decreases q - p
  {
    if p < q {
      ScanSkips(stream, p + 1, q, starts, Discard(t));
      assert Discard(t).(discarded := Discard(t).discarded + (q - (p + 1)))
          == t.(discarded := t.discarded + (q - p));
    }
  }

  // ----- Accounting -----

  ghost predicate Balanced(p: nat, starts: seq<nat>, t: Tally) {
    && t.valid == |starts|
    && p == FEEDBACK_FRAME_SIZE * t.valid + t.discarded
    && t.checksum + t.framing <= t.discarded
  }

  lemma {:induction false} ScanBalanced(stream: seq<Byte>, p: nat, starts: seq<nat>, t: Tally)
    requires p <= |stream| && Balanced(p, starts, t)
    ensures var r := ScanFrom(stream, p, starts, t);
            Balanced(r.pending, r.starts, r.tally)
    decreases |stream| - p
  {
    if p == |stream| {
    } else if stream[p] != FRAME_HEADER {
      ScanBalanced(stream, p + 1, starts, Discard(t));
    } else if p + FEEDBACK_FRAME_SIZE > |stream| {
    } else if Window(stream, p) {
      ScanBalanced(stream, p + FEEDBACK_FRAME_SIZE, starts + [p], t.(valid := t.valid + 1));
    } else {
      ScanBalanced(stream, p + 1, starts, Discard(Fail(t, stream[p..p + FEEDBACK_FRAME_SIZE])));
    }
  }

  lemma {:induction false} PendingShape(stream: seq<Byte>, p: nat, starts: seq<nat>, t: Tally)
    requires p <= |stream|
    ensures var r := ScanFrom(stream, p, starts, t);
            && |stream| - r.pending < FEEDBACK_FRAME_SIZE
            && (r.pending < |stream| ==> stream[r.pending] == FRAME_HEADER)
    decreases |stream| - p
  {
    if p == |stream| {
    } else if stream[p] != FRAME_HEADER {
      PendingShape(stream, p + 1, starts, Discard(t));
    } else if p + FEEDBACK_FRAME_SIZE > |stream| {
    } else if Window(stream, p) {
      PendingShape(stream, p + FEEDBACK_FRAME_SIZE, starts + [p], t.(valid := t.valid + 1));
    } else {
      PendingShape(stream, p + 1, starts, Discard(Fail(t, stream[p..p + FEEDBACK_FRAME_SIZE])));
    }
  }

  // Every byte received is in a frame, discarded or pending; failures never
  // outnumber discarded bytes; at most 23 bytes are pending, header first.
  lemma EveryByteAccountedFor(stream: seq<Byte>)
    ensures var r := ScanAll(stream);
            && r.tally.valid == |r.starts|
            && |stream| == 24 * r.tally.valid + r.tally.discarded + (|stream| - r.pending)
            && r.tally.checksum + r.tally.framing <= r.tally.discarded
            && |stream| - r.pending <= 23
            && (r.pending < |stream| ==> stream[r.pending] == FRAME_HEADER)
  {
    ScanBalanced(stream, 0, [], NOTHING);
    PendingShape(stream, 0, [], NOTHING);
  }

  // ----- Completeness -----

  // The start positions of all valid windows, overlapping or not.
  ghost function Windows(stream: seq<Byte>): set<nat> {
    set p: nat | p < |stream| && Window(stream, p)
  }

  // Windows chosen greedily from the left: each is valid, they do not overlap,
  // and every valid window starting before `limit` is one of them or overlaps
  // an earlier one.
  ghost predicate Greedy(windows: set<nat>, starts: seq<nat>, limit: nat) {
    && (forall i :: 0 <= i < |starts| ==> starts[i] in windows && starts[i] < limit)
    && (forall i, j :: 0 <= i < j < |starts| ==> starts[i] + FEEDBACK_FRAME_SIZE <= starts[j])
    && (forall q {:trigger Covered(starts, q)} :: q in windows && q < limit ==> Covered(starts, q))
  }

  ghost predicate Covered(starts: seq<nat>, q: nat) {
    exists i :: 0 <= i < |starts| && starts[i] <= q < starts[i] + FEEDBACK_FRAME_SIZE
  }

  lemma {:induction false} ScanGreedy(stream: seq<Byte>, p: nat, starts: seq<nat>, t: Tally)
    requires p <= |stream| && Greedy(Windows(stream), starts, p)
    requires forall i :: 0 <= i < |starts| ==> starts[i] + FEEDBACK_FRAME_SIZE <= p
    ensures Greedy(Windows(stream), ScanFrom(stream, p, starts, t).starts, |stream|)
    decreases |stream| - p
  {
    if p == |stream| {
    } else if stream[p] != FRAME_HEADER {
      NoWindowWithoutHeader(stream, p);
      ScanGreedy(stream, p + 1, starts, Discard(t));
    } else if p + FEEDBACK_FRAME_SIZE > |stream| {
    } else if Window(stream, p) {
      GreedyExtended(Windows(stream), p, starts);
      ScanGreedy(stream, p + FEEDBACK_FRAME_SIZE, starts + [p], t.(valid := t.valid + 1));
    } else {
      ScanGreedy(stream, p + 1, starts, Discard(Fail(t, stream[p..p + FEEDBACK_FRAME_SIZE])));
    }
  }

  lemma NoWindowWithoutHeader(stream: seq<Byte>, p: nat)
    requires p < |stream| && stream[p] != FRAME_HEADER
    ensures !Window(stream, p)
  {
    if p + FEEDBACK_FRAME_SIZE <= |stream| {
      assert stream[p..p + FEEDBACK_FRAME_SIZE][0] == stream[p];
    }
  }

  lemma GreedyExtended(windows: set<nat>, p: nat, starts: seq<nat>)
    requires Greedy(windows, starts, p) && p in windows
    requires forall i :: 0 <= i < |starts| ==> starts[i] + FEEDBACK_FRAME_SIZE <= p
    ensures Greedy(windows, starts + [p], p + FEEDBACK_FRAME_SIZE)
  {
    var next := starts + [p];
    forall q | q in windows && q < p + FEEDBACK_FRAME_SIZE
      ensures Covered(next, q)
    {
      if q < p {
        assert Covered(starts, q);
        var i :| 0 <= i < |starts| && starts[i] <= q < starts[i] + FEEDBACK_FRAME_SIZE;
        assert next[i] == starts[i];
      } else {
        assert next[|starts|] == p;
      }
    }
  }

  // There is only one greedy selection.
  lemma {:induction false} GreedyUnique(windows: set<nat>, limit: nat, a: seq<nat>, b: seq<nat>, k: nat)
    requires Greedy(windows, a, limit) && Greedy(windows, b, limit)
    requires k <= |a| && k <= |b| && a[..k] == b[..k]
    ensures a == b
    decreases |a| - k
  {
    if k < |a| {
      NextNoLater(windows, limit, a, b, k);
      NextNoLater(windows, limit, b, a, k);
      assert a[..k + 1] == b[..k + 1];
      GreedyUnique(windows, limit, a, b, k + 1);
    } else if k < |b| {
      NextNoLater(windows, limit, b, a, k);
    }
  }

  // After a common prefix, the next window of one selection cannot come after
  // the next window of the other.
  lemma NextNoLater(windows: set<nat>, limit: nat, a: seq<nat>, b: seq<nat>, k: nat)
    requires Greedy(windows, a, limit) && Greedy(windows, b, limit)
    requires k < |a| && k <= |b| && a[..k] == b[..k]
    ensures k < |b| && b[k] <= a[k]
  {
    var q := a[k];
    assert forall i :: 0 <= i < k ==> a[i] == a[..k][i] == b[..k][i] == b[i];
    assert q in windows && Covered(b, q);
    var i :| 0 <= i < |b| && b[i] <= q < b[i] + FEEDBACK_FRAME_SIZE;
    assert k <= i;
  }

  // The emitted windows are exactly the leftmost-greedy non-overlapping ones.
  lemma ScanIsTheGreedySelection(stream: seq<Byte>, starts: seq<nat>)
    ensures Greedy(Windows(stream), starts, |stream|) <==> starts == ScanAll(stream).starts
  {
    ScanGreedy(stream, 0, [], NOTHING);
    if Greedy(Windows(stream), starts, |stream|) {
      GreedyUnique(Windows(stream), |stream|, starts, ScanAll(stream).starts, 0);
    }
  }

  // Every valid window fully received is emitted or overlaps an earlier emitted one.
  lemma NoWindowMissed(stream: seq<Byte>, q: nat)
    requires Window(stream, q)
    ensures Covered(ScanAll(stream).starts, q)
  {
    ScanGreedy(stream, 0, [], NOTHING);
    assert q in Windows(stream);
  }

  // ----- Frames -----

  function Frames(stream: seq<Byte>, starts: seq<nat>): (frames: seq<seq<Byte>>)
    requires forall i :: 0 <= i < |starts| ==> starts[i] + FEEDBACK_FRAME_SIZE <= |stream|
  {
    seq(|starts|, i requires 0 <= i < |starts| => stream[starts[i]..starts[i] + FEEDBACK_FRAME_SIZE])
  }

  lemma ScanInBounds(stream: seq<Byte>)
    ensures var starts := ScanAll(stream).starts;
            forall i :: 0 <= i < |starts| ==> Window(stream, starts[i])
  {
    ScanGreedy(stream, 0, [], NOTHING);
  }

  ghost function Emitted(stream: seq<Byte>): (frames: seq<seq<Byte>>)
    ensures |frames| == |ScanAll(stream).starts|
    ensures forall f :: f in frames ==> IsFeedbackFrame(f)
  {
    ScanInBounds(stream);
    Frames(stream, ScanAll(stream).starts)
  }

  // Frames found later start later.
  lemma {:induction false} LaterStarts(stream: seq<Byte>, p: nat, starts: seq<nat>, t: Tally)
    requires p <= |stream|
    ensures var r := ScanFrom(stream, p, starts, t);
            starts <= r.starts && forall i :: |starts| <= i < |r.starts| ==> r.starts[i] >= p
    decreases |stream| - p
  {
    if p < |stream| {
      if stream[p] != FRAME_HEADER {
        LaterStarts(stream, p + 1, starts, Discard(t));
      } else if p + FEEDBACK_FRAME_SIZE <= |stream| {
        if Window(stream, p) {
          LaterStarts(stream, p + FEEDBACK_FRAME_SIZE, starts + [p], t.(valid := t.valid + 1));
        } else {
          LaterStarts(stream, p + 1, starts, Discard(Fail(t, stream[p..p + FEEDBACK_FRAME_SIZE])));
        }
      }
    }
  }

  // More input never retracts or alters a frame already emitted.
  lemma EmittedOnlyGrows(stream: seq<Byte>, more: seq<Byte>)
    ensures Emitted(stream) <= Emitted(stream + more)
  {
    var r, all := ScanAll(stream), stream + more;
    ScanResumes(stream, more);
    LaterStarts(all, r.pending, r.starts, r.tally);
    ScanInBounds(stream);
    forall i | 0 <= i < |r.starts|
      ensures Emitted(stream)[i] == Emitted(all)[i]
    {
      var p := r.starts[i];
      assert ScanAll(all).starts[i] == p;
      assert all[p..p + FEEDBACK_FRAME_SIZE] == stream[p..p + FEEDBACK_FRAME_SIZE];
    }
  }

  // ----- What the counters count -----

  // A framed window whose checksum is wrong.
  predicate ChecksumFails(window: seq<Byte>) {
    |window| == 24 && window[0] == 0x7B && window[23] == 0x7D && window[22] != Xor(window[..22])
  }

  // A window with a header and no tail, or with a stop flag that means nothing.
  predicate FramingFails(window: seq<Byte>) {
    && |window| == 24 && window[0] == 0x7B
    && (window[23] != 0x7D || (window[22] == Xor(window[..22]) && window[1] > 1))
  }

  // The bad windows from p on that no emitted frame covers.
  ghost function FailedFrom(stream: seq<Byte>, p: nat, starts: seq<nat>, bad: seq<Byte> -> bool): set<nat> {
    set q: nat | p <= q < |stream| && q + FEEDBACK_FRAME_SIZE <= |stream| && !Covered(starts, q)
                 && bad(stream[q..q + FEEDBACK_FRAME_SIZE])
  }

  // Every window that does not decode is counted in one of the two counters.
  lemma FailureKind(window: seq<Byte>, t: Tally)
    requires |window| == FEEDBACK_FRAME_SIZE && window[0] == FRAME_HEADER && !IsFeedbackFrame(window)
    ensures ChecksumFails(window) <==> !FramingFails(window)
    ensures Fail(t, window) ==
            if ChecksumFails(window) then t.(checksum := t.checksum + 1) else t.(framing := t.framing + 1)
  {
    UndecodableOnBytes(window);
  }

  // One position on: a bad window joins, anything else does not.
  lemma FailedStep(stream: seq<Byte>, p: nat, starts: seq<nat>, bad: seq<Byte> -> bool)
    requires p < |stream| && !Covered(starts, p)
    ensures FailedFrom(stream, p, starts, bad) ==
            FailedFrom(stream, p + 1, starts, bad)
            + if p + FEEDBACK_FRAME_SIZE <= |stream| && bad(stream[p..p + FEEDBACK_FRAME_SIZE]) then {p} else {}
  {
  }

  lemma FailedOverFrame(stream: seq<Byte>, p: nat, starts: seq<nat>, bad: seq<Byte> -> bool)
    requires p + FEEDBACK_FRAME_SIZE <= |stream| && p in starts
    ensures FailedFrom(stream, p, starts, bad) == FailedFrom(stream, p + FEEDBACK_FRAME_SIZE, starts, bad)
  {
    var i :| 0 <= i < |starts| && starts[i] == p;
    assert forall q: nat :: p <= q < p + FEEDBACK_FRAME_SIZE ==> Covered(starts, q);
  }

  lemma Uncovered(starts: seq<nat>, more: seq<nat>, p: nat)
    requires starts <= more && forall i :: 0 <= i < |starts| ==> starts[i] + FEEDBACK_FRAME_SIZE <= p
    requires forall i :: |starts| <= i < |more| ==> more[i] > p
    ensures !Covered(more, p)
  {
  }

  // The counters after a scan, by what it leaves uncovered.
  ghost predicate Counted(stream: seq<Byte>, p: nat, t: Tally, r: Scan) {
    && r.tally.checksum == t.checksum + |FailedFrom(stream, p, r.starts, ChecksumFails)|
    && r.tally.framing == t.framing + |FailedFrom(stream, p, r.starts, FramingFails)|
  }

  lemma CountedHeaderless(stream: seq<Byte>, p: nat, t: Tally, r: Scan)
    requires p < |stream| && stream[p] != FRAME_HEADER && !Covered(r.starts, p)
    requires Counted(stream, p + 1, Discard(t), r)
    ensures Counted(stream, p, t, r)
  {
    FailedStep(stream, p, r.starts, ChecksumFails);
    FailedStep(stream, p, r.starts, FramingFails);
  }

  lemma CountedFailure(stream: seq<Byte>, p: nat, t: Tally, r: Scan)
    requires p + FEEDBACK_FRAME_SIZE <= |stream| && stream[p] == FRAME_HEADER && !Window(stream, p)
    requires !Covered(r.starts, p)
    requires Counted(stream, p + 1, Discard(Fail(t, stream[p..p + FEEDBACK_FRAME_SIZE])), r)
    ensures Counted(stream, p, t, r)
  {
    FailedStep(stream, p, r.starts, ChecksumFails);
    FailedStep(stream, p, r.starts, FramingFails);
    FailureKind(stream[p..p + FEEDBACK_FRAME_SIZE], t);
  }

  lemma {:induction false} ScanCounts(stream: seq<Byte>, p: nat, starts: seq<nat>, t: Tally)
    requires p <= |stream| && forall i :: 0 <= i < |starts| ==> starts[i] + FEEDBACK_FRAME_SIZE <= p
    ensures Counted(stream, p, t, ScanFrom(stream, p, starts, t))
    decreases |stream| - p
  {
    var r := ScanFrom(stream, p, starts, t);
    if p == |stream| || (stream[p] == FRAME_HEADER && p + FEEDBACK_FRAME_SIZE > |stream|) {
      assert FailedFrom(stream, p, r.starts, ChecksumFails) == {};
      assert FailedFrom(stream, p, r.starts, FramingFails) == {};
    } else if stream[p] != FRAME_HEADER {
      ScanCounts(stream, p + 1, starts, Discard(t));
      LaterStarts(stream, p + 1, starts, Discard(t));
      Uncovered(starts, r.starts, p);
      CountedHeaderless(stream, p, t, r);
    } else if Window(stream, p) {
      ScanCounts(stream, p + FEEDBACK_FRAME_SIZE, starts + [p], t.(valid := t.valid + 1));
      LaterStarts(stream, p + FEEDBACK_FRAME_SIZE, starts + [p], t.(valid := t.valid + 1));
      assert (starts + [p])[|starts|] == p;
      FailedOverFrame(stream, p, r.starts, ChecksumFails);
      FailedOverFrame(stream, p, r.starts, FramingFails);
    } else {
      var failed := Discard(Fail(t, stream[p..p + FEEDBACK_FRAME_SIZE]));
      ScanCounts(stream, p + 1, starts, failed);
      LaterStarts(stream, p + 1, starts, failed);
      Uncovered(starts, r.starts, p);
      CountedFailure(stream, p, t, r);
    }
  }

  // The checksum counter is the number of framed windows with a wrong checksum
  // that no emitted frame covers, the framing counter that of the other windows
  // with a header that do not decode.
  lemma FailuresExactly(stream: seq<Byte>)
    ensures var r := ScanAll(stream);
            && r.tally.checksum == |FailedFrom(stream, 0, r.starts, ChecksumFails)|
            && r.tally.framing == |FailedFrom(stream, 0, r.starts, FramingFails)|
  {
    ScanCounts(stream, 0, [], NOTHING);
  }

  // ----- Frames separated by noise -----

  predicate HeaderFree(noise: seq<Byte>) {
    forall k :: 0 <= k < |noise| ==> noise[k] != FRAME_HEADER
  }

  // noise[0] frame[0] noise[1] frame[1] ... and a last stretch of noise.
  function Interleave(noise: seq<seq<Byte>>, frames: seq<seq<Byte>>): seq<Byte>
    requires |noise| == |frames| + 1
  {
    if frames == [] then noise[0]
    else noise[0] + frames[0] + Interleave(noise[1..], frames[1..])
  }

  // Where the frames of an interleaving start, `base` bytes further on.
  function Positions(noise: seq<seq<Byte>>, frames: seq<seq<Byte>>, base: nat): (starts: seq<nat>)
    requires |noise| == |frames| + 1
    ensures |starts| == |frames|
  {
    if frames == [] then []
    else
      var at := base + |noise[0]|;
      [at] + Positions(noise[1..], frames[1..], at + |frames[0]|)
  }

  lemma InterleavingStep(prefix: seq<Byte>, noise: seq<seq<Byte>>, frames: seq<seq<Byte>>)
    requires |noise| == |frames| + 1 && frames != []
    requires |frames[0]| == FEEDBACK_FRAME_SIZE
    ensures var stream, at := prefix + Interleave(noise, frames), |prefix| + |noise[0]|;
            && at + FEEDBACK_FRAME_SIZE <= |stream|
            && stream[at] == frames[0][0]
            && stream[at..at + FEEDBACK_FRAME_SIZE] == frames[0]
            && stream == prefix + noise[0] + frames[0] + Interleave(noise[1..], frames[1..])
  {
    var stream, at := prefix + Interleave(noise, frames), |prefix| + |noise[0]|;
    assert stream == prefix + noise[0] + frames[0] + Interleave(noise[1..], frames[1..]);
    assert stream[at..at + FEEDBACK_FRAME_SIZE] == frames[0];
    assert stream[at] == frames[0][0];
  }

  lemma NoiseSkipped(prefix: seq<Byte>, noise: seq<seq<Byte>>, frames: seq<seq<Byte>>, starts: seq<nat>, t: Tally)
    requires |noise| == |frames| + 1 && HeaderFree(noise[0])
    ensures var stream := prefix + Interleave(noise, frames);
            ScanFrom(stream, |prefix|, starts, t) ==
            ScanFrom(stream, |prefix| + |noise[0]|, starts, t.(discarded := t.discarded + |noise[0]|))
  {
    var stream, at := prefix + Interleave(noise, frames), |prefix| + |noise[0]|;
    assert forall k :: |prefix| <= k < at ==> stream[k] == noise[0][k - |prefix|];
    ScanSkips(stream, |prefix|, at, starts, t);
  }

  // The first stretch of noise and the first frame, scanned.
  lemma FrameScanned(prefix: seq<Byte>, noise: seq<seq<Byte>>, frames: seq<seq<Byte>>, starts: seq<nat>, t: Tally)
    requires |noise| == |frames| + 1 && frames != []
    requires HeaderFree(noise[0]) && IsFeedbackFrame(frames[0])
    ensures var stream, at := prefix + Interleave(noise, frames), |prefix| + |noise[0]|;
            && stream == (prefix + noise[0] + frames[0]) + Interleave(noise[1..], frames[1..])
            && ScanFrom(stream, |prefix|, starts, t) ==
               ScanFrom(stream, at + FEEDBACK_FRAME_SIZE, starts + [at],
                        t.(discarded := t.discarded + |noise[0]|, valid := t.valid + 1))
  {
    NoiseSkipped(prefix, noise, frames, starts, t);
    InterleavingStep(prefix, noise, frames);
  }

  lemma PositionsStep(noise: seq<seq<Byte>>, frames: seq<seq<Byte>>, base: nat, starts: seq<nat>)
    requires |noise| == |frames| + 1 && frames != []
    ensures var at := base + |noise[0]|;
            starts + [at] + Positions(noise[1..], frames[1..], at + |frames[0]|)
            == starts + Positions(noise, frames, base)
  {
  }

  lemma {:induction false} ScanInterleaving(prefix: seq<Byte>, noise: seq<seq<Byte>>, frames: seq<seq<Byte>>,
                                            starts: seq<nat>, t: Tally)
    requires |noise| == |frames| + 1
    requires forall n :: n in noise ==> HeaderFree(n)
    requires forall f :: f in frames ==> IsFeedbackFrame(f)
    ensures var stream := prefix + Interleave(noise, frames);
            var r := ScanFrom(stream, |prefix|, starts, t);
            && r.starts == starts + Positions(noise, frames, |prefix|)
            && r.pending == |stream|
            && r.tally.checksum == t.checksum && r.tally.framing == t.framing
    decreases |frames|
  {
    if frames == [] {
      NoiseSkipped(prefix, noise, frames, starts, t);
    } else {
      assert IsFeedbackFrame(frames[0]);
      var at, next := |prefix| + |noise[0]|, prefix + noise[0] + frames[0];
      FrameScanned(prefix, noise, frames, starts, t);
      ScanInterleaving(next, noise[1..], frames[1..], starts + [at],
                       t.(discarded := t.discarded + |noise[0]|, valid := t.valid + 1));
      PositionsStep(noise, frames, |prefix|, starts);
    }
  }

  ghost predicate FrameAt(stream: seq<Byte>, at: nat, frame: seq<Byte>) {
    at + |frame| <= |stream| && stream[at..at + |frame|] == frame
  }

  lemma {:induction false} FramesInPlace(stream: seq<Byte>, prefix: seq<Byte>, noise: seq<seq<Byte>>,
                                         frames: seq<seq<Byte>>, i: nat)
    requires |noise| == |frames| + 1 && i < |frames|
    requires stream == prefix + Interleave(noise, frames)
    ensures FrameAt(stream, Positions(noise, frames, |prefix|)[i], frames[i])
    decreases i
  {
    var next := prefix + noise[0] + frames[0];
    assert stream == next + Interleave(noise[1..], frames[1..]);
    if i == 0 {
      assert stream[|prefix| + |noise[0]|..|next|] == frames[0];
    } else {
      FramesInPlace(stream, next, noise[1..], frames[1..], i - 1);
    }
  }

  // The frames found at the places where the interleaving put them.
  lemma FramesFound(noise: seq<seq<Byte>>, frames: seq<seq<Byte>>, i: nat)
    requires |noise| == |frames| + 1 && i < |frames| && |frames[i]| == FEEDBACK_FRAME_SIZE
    requires ScanAll(Interleave(noise, frames)).starts == Positions(noise, frames, 0)
    ensures Emitted(Interleave(noise, frames))[i] == frames[i]
  {
    var stream := Interleave(noise, frames);
    assert [] + stream == stream;
    FramesInPlace(stream, [], noise, frames, i);
    ScanInBounds(stream);
  }

  // Valid frames separated by header-free noise parse back to those frames.
  lemma FramesInNoiseRecovered(noise: seq<seq<Byte>>, frames: seq<seq<Byte>>)
    requires |noise| == |frames| + 1
    requires forall n :: n in noise ==> HeaderFree(n)
    requires forall f :: f in frames ==> IsFeedbackFrame(f)
    ensures Emitted(Interleave(noise, frames)) == frames
    ensures var r := ScanAll(Interleave(noise, frames));
            r.pending == |Interleave(noise, frames)| && r.tally.checksum == r.tally.framing == 0
  {
    var stream := Interleave(noise, frames);
    assert [] + stream == stream;
    ScanInterleaving([], noise, frames, [], NOTHING);
    assert ScanAll(stream).starts == Positions(noise, frames, 0);
    forall i | 0 <= i < |frames|
      ensures Emitted(stream)[i] == frames[i]
    {
      assert IsFeedbackFrame(frames[i]);
      FramesFound(noise, frames, i);
    }
  }

  // ----- Chunks -----

  // The frames one call reports for `chunk` after `before` was received.
  ghost function Reported(before: seq<Byte>, chunk: seq<Byte>): seq<seq<Byte>> {
    EmittedOnlyGrows(before, chunk);
    Emitted(before + chunk)[|Emitted(before)|..]
  }

  ghost function ReportedOver(chunks: seq<seq<Byte>>): seq<seq<Byte>> {
    if chunks == [] then []
    else
      var n := |chunks| - 1;
      ReportedOver(chunks[..n]) + Reported(Flatten(chunks[..n]), chunks[n])
  }

  // However a stream is cut, the calls together report the frames of one scan.
  lemma {:induction false} CuttingDoesNotMatter(chunks: seq<seq<Byte>>)
    ensures ReportedOver(chunks) == Emitted(Flatten(chunks))
  {
    if chunks != [] {
      var n := |chunks| - 1;
      CuttingDoesNotMatter(chunks[..n]);
      EmittedOnlyGrows(Flatten(chunks[..n]), chunks[n]);
    }
  }
}
