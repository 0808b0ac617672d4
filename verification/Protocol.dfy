// The two wire formats: the 11-byte command frame and the 24-byte feedback
// frame.  Doubles are exact reals plus explicit NaN and infinities.

module Protocol {
  import opened Wrappers

  type Byte = b: int | 0 <= b < 0x100

  const FRAME_HEADER: Byte := 0x7B
  const FRAME_TAIL: Byte := 0x7D
  const COMMAND_FRAME_SIZE: nat := 11
  const FEEDBACK_FRAME_SIZE: nat := 24
  const WIRE_UNITS := 1000.0
  const ACCELEROMETER_DIVISOR := 1671.84
  const GYROSCOPE_MULTIPLIER := 0.00026644

  datatype Double = NaN | Infinite(negative: bool) | Finite(value: real)

  datatype MotionCommand = MotionCommand(linear: Double, lateral: Double, yaw: Double)

  datatype EncodeError =
    | InvalidMaxLinearSpeed
    | NonFiniteLinearSpeed
    | NonFiniteLateralSpeed
    | NonFiniteYawRate
    | LinearWireRange
    | LateralWireRange
    | YawRateWireRange
    | LinearSpeedLimitExceeded

  type CommandFrame = f: seq<Byte> | |f| == COMMAND_FRAME_SIZE witness seq(11, _ => 0)

  datatype EncodeResult = Encoded(frame: CommandFrame) | Rejected(error: EncodeError)

  datatype Axes = Axes(x: real, y: real, z: real)

  datatype FeedbackData = FeedbackData(
    stopFlag: Byte, controlAllowed: bool, controlInhibited: bool,
    linear: real, lateral: real, yaw: real,
    acceleration: Axes, angularVelocity: Axes, voltage: real,
    vcuAckAvailable: bool, sourceTimeAvailable: bool)

  datatype DecodeError =
    | InvalidFrameSize
    | InvalidHeader
    | InvalidTail
    | ChecksumMismatch
    | InvalidCompositeStopFlag

  datatype DecodeResult = Decoded(feedback: FeedbackData) | Undecodable(error: DecodeError)

  // ----- Bytes -----

  // Exclusive or of the binary digits.
  function BitXor(a: nat, b: nat): nat
    decreases a + b
  {
    if a == 0 && b == 0 then 0 else 2 * BitXor(a / 2, b / 2) + (a % 2 + b % 2) % 2
  }

  function Pow2(k: nat): nat {
    if k == 0 then 1 else 2 * Pow2(k - 1)
  }

  lemma {:induction false} BitXorBelow(a: nat, b: nat, k: nat)
    requires a < Pow2(k) && b < Pow2(k)
    ensures BitXor(a, b) < Pow2(k)
    decreases k
  {
    if k > 0 {
      BitXorBelow(a / 2, b / 2, k - 1);
    }
  }

  lemma Digits(a: nat, b: nat)
    ensures BitXor(a, b) / 2 == BitXor(a / 2, b / 2)
    ensures BitXor(a, b) % 2 == (a % 2 + b % 2) % 2
  {
  }

  lemma {:induction false} BitXorZero(a: nat)
    ensures BitXor(a, 0) == a && BitXor(0, a) == a && BitXor(a, a) == 0
    decreases a
  {
    if a > 0 {
      BitXorZero(a / 2);
    }
  }

  lemma {:induction false} BitXorCommutes(a: nat, b: nat)
    ensures BitXor(a, b) == BitXor(b, a)
    decreases a + b
  {
    if a > 0 || b > 0 {
      BitXorCommutes(a / 2, b / 2);
    }
  }

  lemma ParityAssociates(a: nat, b: nat, c: nat, ab: nat, bc: nat, left: nat, right: nat)
    requires ab % 2 == (a % 2 + b % 2) % 2 && bc % 2 == (b % 2 + c % 2) % 2
    requires left % 2 == (ab % 2 + c % 2) % 2 && right % 2 == (a % 2 + bc % 2) % 2
    ensures left % 2 == right % 2
  {
  }

  lemma SameDigits(left: nat, right: nat)
    requires left / 2 == right / 2 && left % 2 == right % 2
    ensures left == right
  {
  }

  lemma {:induction false} AssociatesFrom(a: nat, b: nat, c: nat, ab: nat, bc: nat)
    requires ab == BitXor(a, b) && bc == BitXor(b, c)
    ensures BitXor(ab, c) == BitXor(a, bc)
    decreases a + b + c
  {
    if a > 0 || b > 0 || c > 0 {
      Digits(a, b);
      Digits(b, c);
      AssociatesFrom(a / 2, b / 2, c / 2, ab / 2, bc / 2);
      Digits(ab, c);
      Digits(a, bc);
      ParityAssociates(a, b, c, ab, bc, BitXor(ab, c), BitXor(a, bc));
      SameDigits(BitXor(ab, c), BitXor(a, bc));
    }
  }

  lemma BitXorAssociates(a: nat, b: nat, c: nat)
    ensures BitXor(BitXor(a, b), c) == BitXor(a, BitXor(b, c))
  {
    AssociatesFrom(a, b, c, BitXor(a, b), BitXor(b, c));
  }

  function Xor8(a: Byte, b: Byte): Byte {
    assert Pow2(8) == 0x100 by {
      assert Pow2(4) == 16;
      assert Pow2(6) == 64;
    }
    BitXorBelow(a, b, 8);
    BitXor(a, b)
  }

  // Replacing one operand replaces its contribution.
  lemma Xor8Replace(x: Byte, before: Byte, after: Byte)
    ensures Xor8(Xor8(Xor8(x, before), before), after) == Xor8(x, after)
    ensures before != after ==> Xor8(x, before) != Xor8(x, after)
  {
    BitXorAssociates(x, before, before);
    BitXorZero(before);
    BitXorZero(x);
    BitXorAssociates(x, x, before);
    BitXorAssociates(x, x, after);
    BitXorZero(after);
  }

  lemma Xor8Swap(x: Byte, a: Byte, b: Byte)
    ensures Xor8(Xor8(x, a), b) == Xor8(Xor8(x, b), a)
  {
    BitXorAssociates(x, a, b);
    BitXorAssociates(x, b, a);
    BitXorCommutes(a, b);
  }

  function Xor(s: seq<Byte>): Byte {
    if s == [] then 0 else Xor8(Xor(s[..|s| - 1]), s[|s| - 1])
  }

  method XorRange(data: array<Byte>, size: nat) returns (value: Byte)
    requires size <= data.Length
    ensures value == Xor(data[..size])
  {
    value := 0;
    for index := 0 to size
      invariant value == Xor(data[..index])
    {
      assert data[..index + 1][..index] == data[..index];
      value := Xor8(value, data[index]);
    }
  }

  predicate IsInt16(v: int) {
    -0x8000 <= v <= 0x7FFF
  }

  // The 16-bit two's complement pattern, high byte first.  On a 16-bit value
  // the source's `>> 8` and `& 0xFF` are division and remainder by 256.
  function StoreSigned(v: int): (bytes: seq<Byte>)
    requires IsInt16(v)
    ensures |bytes| == 2
  {
    var bits := v % 0x1_0000;
    [bits / 0x100, bits % 0x100]
  }

  function LoadUnsigned(high: Byte, low: Byte): (bits: int)
    ensures 0 <= bits < 0x1_0000
  {
    high * 0x100 + low
  }

  function LoadSigned(high: Byte, low: Byte): (v: int)
    ensures IsInt16(v)
  {
    var bits := LoadUnsigned(high, low);
    if bits >= 0x8000 then bits - 0x1_0000 else bits
  }

  // Storing and loading are inverse to each other.
  lemma LoadOfStore(v: int)
    requires IsInt16(v)
    ensures LoadSigned(StoreSigned(v)[0], StoreSigned(v)[1]) == v
  {
  }

  lemma StoreOfLoad(high: Byte, low: Byte)
    ensures StoreSigned(LoadSigned(high, low)) == [high, low]
  {
    assert LoadSigned(high, low) % 0x1_0000 == LoadUnsigned(high, low);
  }

  method StoreSignedBigEndian(v: int, destination: array<Byte>, offset: nat)
    requires IsInt16(v) && offset + 2 <= destination.Length
    modifies destination
    ensures destination[..] ==
            old(destination[..offset]) + StoreSigned(v) + old(destination[offset + 2..])
  {
    var bits := v % 0x1_0000;
    destination[offset] := bits / 0x100;
    destination[offset + 1] := bits % 0x100;
  }

  // ----- Commands -----

  // std::trunc
  function Trunc(x: real): int {
    if x >= 0.0 then x.Floor else -((-x).Floor)
  }

  function Abs(x: real): (a: real)
    ensures a >= 0.0 && (a == x || a == -x)
  {
    if x >= 0.0 then x else -x
  }

  function Quantize(d: Double): (wire: int)
    requires d.Finite?
  {
    Trunc(d.value * WIRE_UNITS)
  }

  predicate FitsWire(d: Double) {
    d.Finite? && IsInt16(Quantize(d))
  }

  predicate IsValidMaxLinearSpeed(limit: Double) {
    limit.Finite? && 0.0 < limit.value < 6.0
  }

  predicate WithinLimit(d: Double, limit: Double) {
    d.Finite? && limit.Finite? && Abs(d.value) <= limit.value
  }

  const ZERO_FRAME: CommandFrame :=
    [FRAME_HEADER, 0, 0, 0, 0, 0, 0, 0, 0, FRAME_HEADER, FRAME_TAIL]

  function FrameBody(linear: int, lateral: int, yaw: int): (body: seq<Byte>)
    requires IsInt16(linear) && IsInt16(lateral) && IsInt16(yaw)
    ensures |body| == 9
  {
    [FRAME_HEADER, 0, 0] + StoreSigned(linear) + StoreSigned(lateral) + StoreSigned(yaw)
  }

  // The first failing check in the source's order, if any.
  function Encode(command: MotionCommand, limit: Double): EncodeResult {
    if !IsValidMaxLinearSpeed(limit) then Rejected(InvalidMaxLinearSpeed)
    else if !command.linear.Finite? then Rejected(NonFiniteLinearSpeed)
    else if !command.lateral.Finite? then Rejected(NonFiniteLateralSpeed)
    else if !command.yaw.Finite? then Rejected(NonFiniteYawRate)
    else if !FitsWire(command.linear) then Rejected(LinearWireRange)
    else if !FitsWire(command.lateral) then Rejected(LateralWireRange)
    else if !FitsWire(command.yaw) then Rejected(YawRateWireRange)
    else if !WithinLimit(command.linear, limit) then Rejected(LinearSpeedLimitExceeded)
    else
      var body := FrameBody(Quantize(command.linear), Quantize(command.lateral), Quantize(command.yaw));
      Encoded(body + [Xor(body), FRAME_TAIL])
  }

  method QuantizeWireValue(d: Double) returns (ok: bool, wire: int)
    ensures ok == FitsWire(d)
    ensures IsInt16(wire)
    ensures ok ==> wire == Quantize(d)
  {
    if !d.Finite? || Quantize(d) < -0x8000 || Quantize(d) > 0x7FFF {
      return false, 0;
    }
    return true, Quantize(d);
  }

  method EncodeCommand(command: MotionCommand, limit: Double) returns (result: EncodeResult)
    ensures result == Encode(command, limit)
  {
    if !IsValidMaxLinearSpeed(limit) { return Rejected(InvalidMaxLinearSpeed); }
    if !command.linear.Finite? { return Rejected(NonFiniteLinearSpeed); }
    if !command.lateral.Finite? { return Rejected(NonFiniteLateralSpeed); }
    if !command.yaw.Finite? { return Rejected(NonFiniteYawRate); }
    var ok, linear := QuantizeWireValue(command.linear);
    if !ok { return Rejected(LinearWireRange); }
    var lateral;
    ok, lateral := QuantizeWireValue(command.lateral);
    if !ok { return Rejected(LateralWireRange); }
    var yaw;
    ok, yaw := QuantizeWireValue(command.yaw);
    if !ok { return Rejected(YawRateWireRange); }
    if Abs(command.linear.value) > limit.value { return Rejected(LinearSpeedLimitExceeded); }

    var frame := new Byte[COMMAND_FRAME_SIZE](_ => 0);
    frame[0] := FRAME_HEADER;
    StoreSignedBigEndian(linear, frame, 3);
    StoreSignedBigEndian(lateral, frame, 5);
    StoreSignedBigEndian(yaw, frame, 7);
    assert frame[..9] == FrameBody(linear, lateral, yaw);
    var checksum := XorRange(frame, 9);
    frame[9] := checksum;
    frame[10] := FRAME_TAIL;
    assert frame[..] == FrameBody(linear, lateral, yaw) + [checksum, FRAME_TAIL];
    result := Encoded(frame[..]);
  }

  // Finite, and within the 16 bits of the wire once truncated.
  predicate OnWire(d: Double) {
    d.Finite? && -32.769 < d.value < 32.768
  }

  lemma FitsWireExactly(d: Double)
    ensures FitsWire(d) <==> OnWire(d)
  {
  }

  // Which commands are encoded, and why the others are not: the first of these
  // that applies.
  lemma RejectedExactly(command: MotionCommand, limit: Double)
    ensures var r := Encode(command, limit);
            var (x, y, z) := (command.linear, command.lateral, command.yaw);
            if !(limit.Finite? && 0.0 < limit.value < 6.0) then r == Rejected(InvalidMaxLinearSpeed)
            else if !x.Finite? then r == Rejected(NonFiniteLinearSpeed)
            else if !y.Finite? then r == Rejected(NonFiniteLateralSpeed)
            else if !z.Finite? then r == Rejected(NonFiniteYawRate)
            else if !OnWire(x) then r == Rejected(LinearWireRange)
            else if !OnWire(y) then r == Rejected(LateralWireRange)
            else if !OnWire(z) then r == Rejected(YawRateWireRange)
            else if !(-limit.value <= x.value <= limit.value) then r == Rejected(LinearSpeedLimitExceeded)
            else r.Encoded?
  {
    FitsWireExactly(command.linear);
    FitsWireExactly(command.lateral);
    FitsWireExactly(command.yaw);
  }

  predicate CommandIsExactZero(command: MotionCommand) {
    command.linear == command.lateral == command.yaw == Finite(0.0)
  }

  lemma TruncBounds(x: real)
    ensures 0.0 <= Abs(x) - Abs(Trunc(x) as real) < 1.0
    ensures Trunc(x) == 0 <==> Abs(x) < 1.0
  {
  }

  // What a receiver reads back from an accepted command.
  lemma CommandRoundTrip(command: MotionCommand, limit: Double)
    requires Encode(command, limit).Encoded?
    ensures var f := Encode(command, limit).frame;
            && f[0] == FRAME_HEADER && f[1] == f[2] == 0 && f[10] == FRAME_TAIL
            && LoadSigned(f[3], f[4]) == Quantize(command.linear)
            && LoadSigned(f[5], f[6]) == Quantize(command.lateral)
            && LoadSigned(f[7], f[8]) == Quantize(command.yaw)
            && Xor(f[..10]) == 0
  {
    FrameShape(Quantize(command.linear), Quantize(command.lateral), Quantize(command.yaw));
  }

  // Two accepted commands give the same frame exactly when they truncate alike.
  lemma FramesEqualExactly(a: MotionCommand, b: MotionCommand, limit: Double)
    requires Encode(a, limit).Encoded? && Encode(b, limit).Encoded?
    ensures Encode(a, limit) == Encode(b, limit) <==>
            Quantize(a.linear) == Quantize(b.linear) && Quantize(a.lateral) == Quantize(b.lateral)
            && Quantize(a.yaw) == Quantize(b.yaw)
  {
    CommandRoundTrip(a, limit);
    CommandRoundTrip(b, limit);
  }

  lemma FrameShape(l: int, t: int, y: int)
    requires IsInt16(l) && IsInt16(t) && IsInt16(y)
    ensures var body := FrameBody(l, t, y);
            var f := body + [Xor(body), FRAME_TAIL];
            && f[0] == FRAME_HEADER && f[1] == f[2] == 0 && f[10] == FRAME_TAIL
            && LoadSigned(f[3], f[4]) == l && LoadSigned(f[5], f[6]) == t && LoadSigned(f[7], f[8]) == y
            && Xor(f[..10]) == 0
  {
    var body := FrameBody(l, t, y);
    var f := body + [Xor(body), FRAME_TAIL];
    LoadOfStore(l);
    LoadOfStore(t);
    LoadOfStore(y);
    assert f[..10][..9] == body;
    BitXorZero(Xor(body));
  }

  // Truncation towards zero loses less than one wire unit and never enlarges a
  // magnitude, so the wire value respects the configured limit.
  lemma QuantizationError(command: MotionCommand, limit: Double)
    requires Encode(command, limit).Encoded?
    ensures forall d :: d in {command.linear, command.lateral, command.yaw} ==>
              0.0 <= 1000.0 * Abs(d.value) - Abs(Quantize(d) as real) < 1.0
    ensures Abs(Quantize(command.linear) as real) <= 1000.0 * limit.value < 6000.0
  {
    forall d | d in {command.linear, command.lateral, command.yaw}
      ensures 0.0 <= 1000.0 * Abs(d.value) - Abs(Quantize(d) as real) < 1.0
    {
      TruncBounds(d.value * WIRE_UNITS);
    }
  }

  lemma FrameOfZeros()
    ensures var body := FrameBody(0, 0, 0); body + [Xor(body), FRAME_TAIL] == ZERO_FRAME
  {
    assert StoreSigned(0) == [0, 0];
    assert FrameBody(0, 0, 0) == ZERO_FRAME[..9];
    XorOfZeroBody();
  }

  // A command looks like the exact zero frame exactly when it truncates to it.
  lemma ZeroFrameExactly(command: MotionCommand, limit: Double)
    requires Encode(command, limit).Encoded?
    ensures Encode(command, limit).frame == ZERO_FRAME <==>
            Abs(command.linear.value) < 0.001 && Abs(command.lateral.value) < 0.001
            && Abs(command.yaw.value) < 0.001
  {
    var l, t, y := Quantize(command.linear), Quantize(command.lateral), Quantize(command.yaw);
    TruncBounds(command.linear.value * WIRE_UNITS);
    TruncBounds(command.lateral.value * WIRE_UNITS);
    TruncBounds(command.yaw.value * WIRE_UNITS);
    if l == t == y == 0 {
      FrameOfZeros();
    } else {
      NonzeroFrame(command, limit);
    }
  }

  lemma NonzeroFrame(command: MotionCommand, limit: Double)
    requires Encode(command, limit).Encoded?
    requires Quantize(command.linear) != 0 || Quantize(command.lateral) != 0 || Quantize(command.yaw) != 0
    ensures Encode(command, limit).frame != ZERO_FRAME
  {
    CommandRoundTrip(command, limit);
    assert LoadSigned(0, 0) == 0;
  }

  lemma {:induction false} XorWithZeros(s: seq<Byte>, n: nat)
    ensures Xor(s + Zeros(n)) == Xor(s)
  {
    if n == 0 {
      assert s + Zeros(0) == s;
    } else {
      XorWithZeros(s, n - 1);
      assert (s + Zeros(n))[..|s| + n - 1] == s + Zeros(n - 1);
      BitXorZero(Xor(s));
    }
  }

  function Zeros(n: nat): (zeros: seq<Byte>)
    ensures |zeros| == n
  {
    seq(n, _ => 0)
  }

  lemma XorOfZeroBody()
    ensures Xor(ZERO_FRAME[..9]) == FRAME_HEADER
  {
    assert ZERO_FRAME[..9] == [FRAME_HEADER] + Zeros(8);
    XorWithZeros([FRAME_HEADER], 8);
    assert [FRAME_HEADER][..0] == [];
    BitXorZero(FRAME_HEADER);
  }

  // ----- Feedback -----

  // The first failing check in the source's order, if any.
  function DecodeFailure(data: seq<Byte>): Option<DecodeError> {
    if |data| != FEEDBACK_FRAME_SIZE then Some(InvalidFrameSize)
    else if data[0] != FRAME_HEADER then Some(InvalidHeader)
    else if data[23] != FRAME_TAIL then Some(InvalidTail)
    else if Xor(data[..22]) != data[22] then Some(ChecksumMismatch)
    else if data[1] > 1 then Some(InvalidCompositeStopFlag)
    else None
  }

  function Decode(data: seq<Byte>): DecodeResult {
    match DecodeFailure(data)
    case Some(error) => Undecodable(error)
    case None => Decoded(Payload(data))
  }

  function Payload(data: seq<Byte>): FeedbackData
    requires |data| == FEEDBACK_FRAME_SIZE
  {
    FeedbackData(
        data[1], data[1] == 0, data[1] == 1,
        LoadSigned(data[2], data[3]) as real / WIRE_UNITS,
        LoadSigned(data[4], data[5]) as real / WIRE_UNITS,
        LoadSigned(data[6], data[7]) as real / WIRE_UNITS,
        Axes(LoadSigned(data[8], data[9]) as real / ACCELEROMETER_DIVISOR,
             LoadSigned(data[10], data[11]) as real / ACCELEROMETER_DIVISOR,
             LoadSigned(data[12], data[13]) as real / ACCELEROMETER_DIVISOR),
        Axes(LoadSigned(data[14], data[15]) as real * GYROSCOPE_MULTIPLIER,
             LoadSigned(data[16], data[17]) as real * GYROSCOPE_MULTIPLIER,
             LoadSigned(data[18], data[19]) as real * GYROSCOPE_MULTIPLIER),
        LoadUnsigned(data[20], data[21]) as real / WIRE_UNITS,
        false, false)
  }

  predicate IsFeedbackFrame(data: seq<Byte>) {
    DecodeFailure(data).None?
  }

  // A valid feedback frame, on its bytes.
  predicate WellFormedFeedback(data: seq<Byte>) {
    && |data| == 24 && data[0] == 0x7B && data[23] == 0x7D
    && data[22] == Xor(data[..22]) && data[1] <= 1
  }

  // The bytes decide whether a frame decodes and what it permits.
  lemma DecodedOnBytes(data: seq<Byte>)
    ensures Decode(data).Decoded? <==> WellFormedFeedback(data)
    ensures Decode(data).Decoded? ==>
              var fb := Decode(data).feedback;
              && fb.stopFlag == data[1]
              && (fb.controlAllowed <==> data[1] == 0) && (fb.controlInhibited <==> data[1] == 1)
              && !fb.vcuAckAvailable && !fb.sourceTimeAvailable
  {
  }

  // A frame that does not decode is refused for the first mark that is wrong.
  lemma UndecodableOnBytes(data: seq<Byte>)
    ensures Decode(data) == Undecodable(InvalidFrameSize) <==> |data| != 24
    ensures Decode(data) == Undecodable(InvalidHeader) <==> |data| == 24 && data[0] != 0x7B
    ensures Decode(data) == Undecodable(InvalidTail) <==> |data| == 24 && data[0] == 0x7B && data[23] != 0x7D
    ensures Decode(data) == Undecodable(ChecksumMismatch) <==>
            |data| == 24 && data[0] == 0x7B && data[23] == 0x7D && data[22] != Xor(data[..22])
    ensures Decode(data) == Undecodable(InvalidCompositeStopFlag) <==>
            |data| == 24 && data[0] == 0x7B && data[23] == 0x7D && data[22] == Xor(data[..22]) && data[1] > 1
  {
  }

  // What decoding such a frame reports as its control permission.
  predicate AllowsControl(data: seq<Byte>) {
    IsFeedbackFrame(data) && data[1] == 0
  }

  // The wire units of the i-th 16-bit field, recovered from a decoded record.
  function WireUnits(fb: FeedbackData, i: nat): real
    requires i < 10
  {
    match i
    case 0 => fb.linear * WIRE_UNITS
    case 1 => fb.lateral * WIRE_UNITS
    case 2 => fb.yaw * WIRE_UNITS
    case 3 => fb.acceleration.x * ACCELEROMETER_DIVISOR
    case 4 => fb.acceleration.y * ACCELEROMETER_DIVISOR
    case 5 => fb.acceleration.z * ACCELEROMETER_DIVISOR
    case 6 => fb.angularVelocity.x / GYROSCOPE_MULTIPLIER
    case 7 => fb.angularVelocity.y / GYROSCOPE_MULTIPLIER
    case 8 => fb.angularVelocity.z / GYROSCOPE_MULTIPLIER
    case 9 => fb.voltage * WIRE_UNITS
  }

  // A word of either signedness as two bytes.
  function StoreWord(v: int): (bytes: seq<Byte>)
    ensures |bytes| == 2
  {
    if IsInt16(v) then StoreSigned(v)
    else if 0x8000 <= v <= 0xFFFF then StoreSigned(v - 0x1_0000)
    else [0, 0]
  }

  function Assemble(stopFlag: Byte, w: seq<seq<Byte>>): seq<Byte>
    requires |w| == 10
  {
    var body := [FRAME_HEADER, stopFlag]
      + w[0] + w[1] + w[2] + w[3] + w[4] + w[5] + w[6] + w[7] + w[8] + w[9];
    body + [Xor(body), FRAME_TAIL]
  }

  function Rebuild(fb: FeedbackData): seq<Byte> {
    Assemble(fb.stopFlag, seq(10, i requires 0 <= i < 10 => StoreWord(WireUnits(fb, i).Floor)))
  }

  function Word(data: seq<Byte>, i: nat): int
    requires |data| == FEEDBACK_FRAME_SIZE && i < 10
  {
    if i == 9 then LoadUnsigned(data[20], data[21])
    else LoadSigned(data[2 + 2 * i], data[3 + 2 * i])
  }

  lemma WireUnitsOfPayload(data: seq<Byte>, i: nat)
    requires |data| == FEEDBACK_FRAME_SIZE && i < 10
    ensures WireUnits(Payload(data), i) == Word(data, i) as real
  {
  }

  lemma WordOfBytes(high: Byte, low: Byte)
    ensures StoreWord(LoadSigned(high, low)) == [high, low]
    ensures StoreWord(LoadUnsigned(high, low)) == [high, low]
  {
    StoreOfLoad(high, low);
  }

  lemma FieldRebuilt(data: seq<Byte>, i: nat)
    requires |data| == FEEDBACK_FRAME_SIZE && i < 10
    ensures StoreWord(WireUnits(Payload(data), i).Floor) == data[2 + 2 * i..4 + 2 * i]
  {
    WireUnitsOfPayload(data, i);
    WordOfBytes(data[2 + 2 * i], data[3 + 2 * i]);
  }

  lemma AssembleSlices(data: seq<Byte>, w: seq<seq<Byte>>)
    requires |data| == FEEDBACK_FRAME_SIZE && |w| == 10
    requires data[0] == FRAME_HEADER && data[22] == Xor(data[..22]) && data[23] == FRAME_TAIL
    requires forall i :: 0 <= i < 10 ==> w[i] == data[2 + 2 * i..4 + 2 * i]
    ensures Assemble(data[1], w) == data
  {
    assert [data[0], data[1]] + w[0] == data[..4];
    assert data[..4] + w[1] == data[..6];
    assert data[..6] + w[2] == data[..8];
    assert data[..8] + w[3] == data[..10];
    assert data[..10] + w[4] == data[..12];
    assert data[..12] + w[5] == data[..14];
    assert data[..14] + w[6] == data[..16];
    assert data[..16] + w[7] == data[..18];
    assert data[..18] + w[8] == data[..20];
    assert data[..20] + w[9] == data[..22];
    assert data == data[..22] + [data[22], data[23]];
  }

  // A valid frame is rebuilt from its decoded record.
  lemma RebuildInvertsDecode(data: seq<Byte>)
    requires IsFeedbackFrame(data)
    ensures Rebuild(Decode(data).feedback) == data
  {
    var fb := Payload(data);
    var w := seq(10, i requires 0 <= i < 10 => StoreWord(WireUnits(fb, i).Floor));
    forall i | 0 <= i < 10
      ensures w[i] == data[2 + 2 * i..4 + 2 * i]
    {
      FieldRebuilt(data, i);
    }
    AssembleSlices(data, w);
  }

  // No information is lost by decoding: distinct valid frames decode apart.
  lemma DecodingIsInjective(a: seq<Byte>, b: seq<Byte>)
    requires IsFeedbackFrame(a) && IsFeedbackFrame(b)
    ensures Decode(a) == Decode(b) <==> a == b
  {
    RebuildInvertsDecode(a);
    RebuildInvertsDecode(b);
  }

  lemma {:induction false} XorOfUpdate(s: seq<Byte>, k: nat, b: Byte)
    requires k < |s|
    ensures Xor(s[k := b]) == Xor8(Xor8(Xor(s), s[k]), b)
  {
    var n := |s| - 1;
    var body := s[..n];
    if k == n {
      assert s[k := b][..n] == body;
      Xor8Replace(Xor(body), s[k], b);
    } else {
      XorOfUpdate(body, k, b);
      assert s[k := b][..n] == body[k := b];
      Xor8Swap(Xor8(Xor(body), s[k]), b, s[n]);
      Xor8Swap(Xor(body), s[k], s[n]);
    }
  }

  // The checksum catches every single-byte corruption.
  lemma SingleByteCorruptionDetected(data: seq<Byte>, k: nat, b: Byte)
    requires IsFeedbackFrame(data)
    requires k < FEEDBACK_FRAME_SIZE && b != data[k]
    ensures !IsFeedbackFrame(data[k := b])
  {
    var bad := data[k := b];
    if k < 22 {
      assert bad[..22] == data[..22][k := b];
      XorOfUpdate(data[..22], k, b);
      var x := Xor8(Xor(data[..22]), data[k]);
      Xor8Replace(x, data[k], b);
      BitXorAssociates(Xor(data[..22]), data[k], data[k]);
      BitXorZero(data[k]);
      BitXorZero(Xor(data[..22]));
    } else {
      assert bad[..22] == data[..22];
    }
  }
}
