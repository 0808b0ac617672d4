// The rolling feedback parser, byte by byte in its fixed 24-byte buffer.  Its
// ghost `stream` is every byte received since construction or reset; `Valid`
// says that buffer and counters are those of one scan of that stream.

module FeedbackParsing {
  import opened Wrappers
  import opened Protocol
  import opened StreamScan

  datatype ParsedFeedbackFrame = ParsedFeedbackFrame(frame: seq<Byte>, feedback: FeedbackData)

  // The first header after position 0, or the window's end.
  function NextHeader(window: seq<Byte>, from: nat): (k: nat)
    requires from <= |window|
    ensures from <= k <= |window|
    ensures k < |window| ==> window[k] == FRAME_HEADER
    ensures forall i :: from <= i < k ==> window[i] != FRAME_HEADER
    decreases |window| - from
  {
    if from == |window| || window[from] == FRAME_HEADER then from
    else NextHeader(window, from + 1)
  }

  // How one more byte changes the scan of a stream.
  lemma ByteAppended(stream: seq<Byte>, b: Byte)
    ensures var r := ScanAll(stream);
            var held := stream[r.pending..] + [b];
            && |held| <= FEEDBACK_FRAME_SIZE
            && (|held| > 1 ==> held[0] == FRAME_HEADER)
            && ScanAll(stream + [b]) ==
               if held[0] != FRAME_HEADER then Scan(r.starts, Discard(r.tally), r.pending + 1)
               else if |held| < FEEDBACK_FRAME_SIZE then r
               else if IsFeedbackFrame(held) then
                 Scan(r.starts + [r.pending], r.tally.(valid := r.tally.valid + 1), r.pending + FEEDBACK_FRAME_SIZE)
               else
                 var k := NextHeader(held, 1);
                 var t := Fail(r.tally, held);
                 Scan(r.starts, t.(discarded := t.discarded + k), r.pending + k)
  {
    var r, all := ScanAll(stream), stream + [b];
    var held := stream[r.pending..] + [b];
    PendingShape(stream, 0, [], NOTHING);
    ScanResumes(stream, [b]);
    assert all[r.pending..] == held;
    if held[0] == FRAME_HEADER && |held| == FEEDBACK_FRAME_SIZE {
      assert all[r.pending..r.pending + FEEDBACK_FRAME_SIZE] == held;
      if !IsFeedbackFrame(held) {
        Resynchronized(all, r.pending, r.starts, r.tally);
      }
    }
  }

  // After a bad last window the scan drops up to the next header and holds the rest.
  lemma Resynchronized(all: seq<Byte>, p: nat, starts: seq<nat>, tally: Tally)
    requires p + FEEDBACK_FRAME_SIZE == |all| && all[p] == FRAME_HEADER && !Window(all, p)
    ensures var held := all[p..];
            var k := NextHeader(held, 1);
            var t := Fail(tally, held);
            ScanFrom(all, p, starts, tally) == Scan(starts, t.(discarded := t.discarded + k), p + k)
  {
    var held := all[p..];
    assert all[p..p + FEEDBACK_FRAME_SIZE] == held;
    var k := NextHeader(held, 1);
    var t := Fail(tally, held);
    assert forall i :: p + 1 <= i < p + k ==> all[i] == held[i - p];
    ScanSkips(all, p + 1, p + k, starts, Discard(t));
    assert Discard(t).(discarded := Discard(t).discarded + (p + k - (p + 1)))
        == t.(discarded := t.discarded + k);
  }

  // A buffer and counters agree with the scan of a stream, up to `nulls` calls
  // without data that claimed `nullBytes` bytes.
  ghost predicate Agrees(held: seq<Byte>, statistics: Tally, stream: seq<Byte>, nulls: nat, nullBytes: nat) {
    var r := ScanAll(stream);
    && held == stream[r.pending..]
    && |held| < FEEDBACK_FRAME_SIZE
    && statistics == r.tally.(framing := r.tally.framing + nulls,
                              discarded := r.tally.discarded + nullBytes)
  }

  // Each branch of the byte loop keeps the agreement.

  lemma AfterNoise(st: Tally, stream: seq<Byte>, nulls: nat, nullBytes: nat, b: Byte)
    requires Agrees([], st, stream, nulls, nullBytes) && b != FRAME_HEADER
    ensures Agrees([], Discard(st), stream + [b], nulls, nullBytes)
    ensures Emitted(stream + [b]) == Emitted(stream)
  {
    ByteAppended(stream, b);
    EmittedOnlyGrows(stream, [b]);
    assert stream[ScanAll(stream).pending..] + [b] == [b];
  }

  lemma AfterHeld(held: seq<Byte>, st: Tally, stream: seq<Byte>, nulls: nat, nullBytes: nat, b: Byte)
    requires Agrees(held, st, stream, nulls, nullBytes)
    requires held != [] || b == FRAME_HEADER
    requires |held| + 1 < FEEDBACK_FRAME_SIZE
    ensures Agrees(held + [b], st, stream + [b], nulls, nullBytes)
    ensures Emitted(stream + [b]) == Emitted(stream)
  {
    var p := ScanAll(stream).pending;
    ByteAppended(stream, b);
    EmittedOnlyGrows(stream, [b]);
    assert (stream + [b])[p..] == held + [b];
  }

  lemma AfterFrame(held: seq<Byte>, st: Tally, stream: seq<Byte>, nulls: nat, nullBytes: nat, b: Byte)
    requires Agrees(held, st, stream, nulls, nullBytes) && IsFeedbackFrame(held + [b])
    ensures Agrees([], st.(valid := st.valid + 1), stream + [b], nulls, nullBytes)
    ensures Emitted(stream + [b]) == Emitted(stream) + [held + [b]]
  {
    ByteAppended(stream, b);
    EmittedOneMore(stream, b);
    assert (stream + [b])[|stream| + 1..] == [];
  }

  lemma AfterBadFrame(held: seq<Byte>, st: Tally, stream: seq<Byte>, nulls: nat, nullBytes: nat, b: Byte)
    requires Agrees(held, st, stream, nulls, nullBytes)
    requires |held| + 1 == FEEDBACK_FRAME_SIZE && !IsFeedbackFrame(held + [b])
    ensures var now := held + [b];
            var k := NextHeader(now, 1);
            var t := Fail(st, now);
            Agrees(now[k..], t.(discarded := t.discarded + k), stream + [b], nulls, nullBytes)
    ensures Emitted(stream + [b]) == Emitted(stream)
  {
    var p, now := ScanAll(stream).pending, held + [b];
    ByteAppended(stream, b);
    EmittedOnlyGrows(stream, [b]);
    assert now[0] == FRAME_HEADER;
    var k := NextHeader(now, 1);
    assert (stream + [b])[p + k..] == now[k..];
  }

  class FeedbackParser {
    const retained: array<Byte>
    var retainedSize: nat
    var statistics: Tally
    ghost var stream: seq<Byte>
    ghost var nullCalls: nat
    ghost var nullBytes: nat

    ghost predicate Valid()
      reads this, retained
    {
      && retained.Length == FEEDBACK_FRAME_SIZE
      && retainedSize < FEEDBACK_FRAME_SIZE
      && Agrees(retained[..retainedSize], statistics, stream, nullCalls, nullBytes)
    }

    constructor ()
      ensures Valid() && fresh(retained)
      ensures stream == [] && nullCalls == nullBytes == 0
    {
      retained := new Byte[FEEDBACK_FRAME_SIZE](_ => 0);
      retainedSize := 0;
      statistics := NOTHING;
      stream, nullCalls, nullBytes := [], 0, 0;
    }

    method Reset()
      requires Valid()
      modifies this, retained
      ensures Valid()
      ensures stream == [] && nullCalls == nullBytes == 0
    {
      for i := 0 to retained.Length {
        retained[i] := 0;
      }
      retainedSize := 0;
      statistics := NOTHING;
      stream, nullCalls, nullBytes := [], 0, 0;
    }

    method Consume(data: array?<Byte>, size: nat) returns (parsed: seq<ParsedFeedbackFrame>)
      requires Valid()
      requires data != null ==> size <= data.Length && data != retained
      modifies this, retained
      ensures Valid()
      ensures data == null ==> stream == old(stream) && parsed == []
      ensures data == null && size > 0 ==> nullCalls == old(nullCalls) + 1 && nullBytes == old(nullBytes) + size
      ensures data != null || size == 0 ==> nullCalls == old(nullCalls) && nullBytes == old(nullBytes)
      ensures data != null ==> stream == old(stream) + data[..size]
      ensures data != null ==> |parsed| == |Reported(old(stream), data[..size])|
      ensures data != null ==>
                forall i :: 0 <= i < |parsed| ==>
                  && parsed[i].frame == Reported(old(stream), data[..size])[i]
                  && Decode(parsed[i].frame) == Decoded(parsed[i].feedback)
    {
      parsed := [];
      if size == 0 {
        if data != null { assert old(stream) + data[..0] == old(stream); }
        return;
      }
      if data == null {
        statistics := statistics.(framing := statistics.framing + 1,
                                  discarded := statistics.discarded + size);
        nullCalls, nullBytes := nullCalls + 1, nullBytes + size;
        return;
      }
      parsed := ConsumeBytes(data, size);
      RawReported(old(stream), data[..size], parsed);
    }

    // The loop over the input.
    method ConsumeBytes(data: array<Byte>, size: nat) returns (parsed: seq<ParsedFeedbackFrame>)
      requires Valid() && size <= data.Length && data != retained
      modifies this, retained
      ensures Valid() && stream == old(stream) + data[..size]
      ensures nullCalls == old(nullCalls) && nullBytes == old(nullBytes)
      ensures Emitted(stream) == Emitted(old(stream)) + Raw(parsed) && AllDecoded(parsed)
    {
      parsed := [];
      assert old(stream) + data[..0] == old(stream);
      for index := 0 to size
        invariant Valid()
        invariant stream == old(stream) + data[..index]
        invariant nullCalls == old(nullCalls) && nullBytes == old(nullBytes)
        invariant Emitted(stream) == Emitted(old(stream)) + Raw(parsed) && AllDecoded(parsed)
      {
        var found := ConsumeByte(data[index]);
        RawAppended(Emitted(old(stream)), parsed, found);
        assert data[..index + 1] == data[..index] + [data[index]];
        parsed := parsed + found;
      }
    }

    // One iteration of the source's loop over the input.
    method ConsumeByte(byte: Byte) returns (found: seq<ParsedFeedbackFrame>)
      requires Valid()
      modifies this, retained
      ensures Valid()
      ensures stream == old(stream) + [byte]
      ensures nullCalls == old(nullCalls) && nullBytes == old(nullBytes)
      ensures Emitted(stream) == Emitted(old(stream)) + Raw(found)
      ensures AllDecoded(found)
    {
      ghost var held := retained[..retainedSize];
      found := [];
      if retainedSize == 0 && byte != FRAME_HEADER {
        AfterNoise(statistics, stream, nullCalls, nullBytes, byte);
        stream := stream + [byte];
        statistics := Discard(statistics);
        return;
      }

      retained[retainedSize] := byte;
      retainedSize := retainedSize + 1;
      assert retained[..retainedSize] == held + [byte];
      if retainedSize < FEEDBACK_FRAME_SIZE {
        AfterHeld(held, statistics, stream, nullCalls, nullBytes, byte);
        stream := stream + [byte];
        return;
      }
      found := CompleteCandidate(held, byte);
    }

    // The buffer holds a whole candidate: emit it or drop its first bytes.
    method CompleteCandidate(ghost held: seq<Byte>, ghost byte: Byte) returns (found: seq<ParsedFeedbackFrame>)
      requires retained.Length == retainedSize == FEEDBACK_FRAME_SIZE && retained[..] == held + [byte]
      requires Agrees(held, statistics, stream, nullCalls, nullBytes)
      modifies this, retained
      ensures Valid()
      ensures stream == old(stream) + [byte]
      ensures nullCalls == old(nullCalls) && nullBytes == old(nullBytes)
      ensures Emitted(stream) == Emitted(old(stream)) + Raw(found)
      ensures AllDecoded(found)
    {
      found := [];
      var decoded := Decode(retained[..]);
      if decoded.Decoded? {
        AfterFrame(held, statistics, stream, nullCalls, nullBytes, byte);
        found := [ParsedFeedbackFrame(retained[..], decoded.feedback)];
        assert Raw(found) == [held + [byte]];
        retainedSize := 0;
        stream := stream + [byte];
        statistics := statistics.(valid := statistics.valid + 1);
        return;
      }

      AfterBadFrame(held, statistics, stream, nullCalls, nullBytes, byte);
      stream := stream + [byte];
      if decoded.error == ChecksumMismatch {
        statistics := statistics.(checksum := statistics.checksum + 1);
      } else {
        statistics := statistics.(framing := statistics.framing + 1);
      }
      ResynchronizeAfterInvalidCandidate();
    }

    method ResynchronizeAfterInvalidCandidate()
      requires retained.Length == FEEDBACK_FRAME_SIZE
      modifies `retainedSize, `statistics, retained
      ensures var k := NextHeader(old(retained[..]), 1);
              && retainedSize == FEEDBACK_FRAME_SIZE - k
              && retained[..retainedSize] == old(retained[..])[k..]
              && statistics == old(statistics).(discarded := old(statistics).discarded + k)
    {
      ghost var window := retained[..];
      var next := 1;
      while next < retained.Length && retained[next] != FRAME_HEADER
        invariant 1 <= next <= retained.Length
        invariant NextHeader(window, 1) == NextHeader(window, next)
      {
        next := next + 1;
      }
      statistics := statistics.(discarded := statistics.discarded + next);
      if next == retained.Length {
        retainedSize := 0;
        return;
      }
      var suffix := retained.Length - next;
      for i := 0 to suffix
        invariant statistics == old(statistics).(discarded := old(statistics).discarded + next)
        invariant forall j :: 0 <= j < i ==> retained[j] == window[next + j]
        invariant forall j :: i <= j < retained.Length ==> retained[j] == window[j]
      {
        retained[i] := retained[next + i];
      }
      retainedSize := suffix;
    }
  }

  function Raw(parsed: seq<ParsedFeedbackFrame>): (frames: seq<seq<Byte>>)
    ensures |frames| == |parsed|
    ensures forall i :: 0 <= i < |parsed| ==> frames[i] == parsed[i].frame
  {
    seq(|parsed|, i requires 0 <= i < |parsed| => parsed[i].frame)
  }

  predicate AllDecoded(parsed: seq<ParsedFeedbackFrame>) {
    forall i :: 0 <= i < |parsed| ==> Decode(parsed[i].frame) == Decoded(parsed[i].feedback)
  }

  lemma RawAppended(first: seq<seq<Byte>>, parsed: seq<ParsedFeedbackFrame>, found: seq<ParsedFeedbackFrame>)
    requires AllDecoded(parsed) && AllDecoded(found)
    ensures first + Raw(parsed) + Raw(found) == first + Raw(parsed + found) && AllDecoded(parsed + found)
  {
    assert Raw(parsed + found) == Raw(parsed) + Raw(found);
  }

  lemma RawReported(before: seq<Byte>, chunk: seq<Byte>, parsed: seq<ParsedFeedbackFrame>)
    requires Emitted(before + chunk) == Emitted(before) + Raw(parsed)
    ensures Reported(before, chunk) == Raw(parsed)
  {
  }

  // A byte that completes a valid window adds exactly that window.
  lemma EmittedOneMore(stream: seq<Byte>, b: Byte)
    requires var held := stream[ScanAll(stream).pending..] + [b]; IsFeedbackFrame(held)
    ensures Emitted(stream + [b]) == Emitted(stream) + [stream[ScanAll(stream).pending..] + [b]]
  {
    var r := ScanAll(stream);
    var held := stream[r.pending..] + [b];
    ByteAppended(stream, b);
    EmittedOnlyGrows(stream, [b]);
    assert (stream + [b])[r.pending..r.pending + FEEDBACK_FRAME_SIZE] == held;
  }
}
