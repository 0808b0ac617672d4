// The lines of the front end as text, and the tool's reading of them: every
// printed line comes back with all its fields.

module LineText {
  import opened Wrappers
  import opened Protocol
  import opened LineProtocol
  import opened Cli
  import Teleop = TeleopModel
  import opened TeleopTheorems
  import opened TeleopFits

  // ----- Words -----

  predicate IsBlank(c: char) {
    c == ' ' || c == '\t' || c == '\n' || c == '\r' || c == '\U{000B}' || c == '\U{000C}'
  }

  predicate IsWord(s: string) {
    s != "" && forall k :: 0 <= k < |s| ==> !IsBlank(s[k])
  }

  predicate AllWords(words: seq<string>) {
    forall k :: 0 <= k < |words| ==> IsWord(words[k])
  }

  function WordEnd(s: string): (k: nat)
    ensures k <= |s|
    ensures forall i :: 0 <= i < k ==> !IsBlank(s[i])
    ensures k < |s| ==> IsBlank(s[k])
  {
    if s == "" || IsBlank(s[0]) then 0 else 1 + WordEnd(s[1..])
  }

  // What is between the blanks.
  function Words(s: string): seq<string> {
    if s == "" then []
    else if IsBlank(s[0]) then Words(s[1..])
    else
      var k := WordEnd(s);
      [s[..k]] + Words(s[k..])
  }

  function Spaced(words: seq<string>): string {
    if words == [] then "" else " " + words[0] + Spaced(words[1..])
  }

  lemma WordFirst(word: string, rest: string)
    requires IsWord(word) && (rest == "" || IsBlank(rest[0]))
    ensures Words(word + rest) == [word] + Words(rest)
  {
    var s := word + rest;
    var k := WordEnd(s);
    assert forall i :: 0 <= i < |word| ==> s[i] == word[i];
    assert rest != "" ==> s[|word|] == rest[0];
    assert s[..k] == word && s[k..] == rest;
  }

  lemma {:induction false} WordsOfSpaced(words: seq<string>)
    requires AllWords(words)
    ensures Words(Spaced(words)) == words
  {
    if words != [] {
      var s, rest := Spaced(words), Spaced(words[1..]);
      assert s[1..] == words[0] + rest;
      WordFirst(words[0], rest);
      WordsOfSpaced(words[1..]);
    }
  }

  // ----- Numbers -----

  predicate IsNegative(word: string) {
    word != "" && word[0] == '-'
  }

  function Unsigned(word: string): string {
    if IsNegative(word) then word[1..] else word
  }

  predicate IsInteger(word: string) {
    Unsigned(word) != "" && AllDigits(Unsigned(word))
  }

  function IntegerValue(word: string): int
    requires IsInteger(word)
  {
    if IsNegative(word) then -(Value(Unsigned(word)) as int) else Value(Unsigned(word))
  }

  function Power10(n: nat): (p: nat)
    ensures p > 0
  {
    if n == 0 then 1 else 10 * Power10(n - 1)
  }

  predicate IsDecimal(word: string) {
    var s := Unsigned(word);
    var k := Find(s, '.');
    k > 0 && AllDigits(s[..k]) && (k < |s| ==> AllDigits(s[k + 1..]))
  }

  function Magnitude(s: string): real
    requires var k := Find(s, '.'); AllDigits(s[..k]) && (k < |s| ==> AllDigits(s[k + 1..]))
  {
    var k := Find(s, '.');
    var fraction := if k < |s| then Value(s[k + 1..]) as real / Power10(|s| - k - 1) as real else 0.0;
    Value(s[..k]) as real + fraction
  }

  function DecimalValue(word: string): real
    requires IsDecimal(word)
  {
    if IsNegative(word) then -Magnitude(Unsigned(word)) else Magnitude(Unsigned(word))
  }

  // The last digits of a number.
  function Padded(n: nat, width: nat): string {
    if width == 0 then "" else Padded(n / 10, width - 1) + [('0' as int + n % 10) as char]
  }

  lemma {:induction false} PaddedRoundTrip(n: nat, width: nat)
    requires n < Power10(width)
    ensures |Padded(n, width)| == width && AllDigits(Padded(n, width)) && Value(Padded(n, width)) == n
  {
    if width > 0 {
      PaddedRoundTrip(n / 10, width - 1);
      assert Padded(n, width)[..width - 1] == Padded(n / 10, width - 1);
    }
  }

  function Absolute(n: int): nat {
    if n < 0 then -n else n
  }

  const BILLION := 1_000_000_000

  function Unpointed(n: nat): string {
    Decimal(n / BILLION) + "." + Padded(n % BILLION, 9)
  }

  // A number of billionths with nine decimals.
  function Billionths(units: int): string {
    if units < 0 then "-" + Unpointed(Absolute(units)) else Unpointed(Absolute(units))
  }

  lemma UnpointedRoundTrip(n: nat)
    ensures var s := Unpointed(n);
            var k := Find(s, '.');
            && 0 < k < |s| && AllDigits(s[..k]) && AllDigits(s[k + 1..]) && s[0] != '-'
            && Magnitude(s) == n as real / Teleop.UNITS_9
            && IsWord(s)
  {
    var s, whole := Unpointed(n), Decimal(n / BILLION);
    DecimalRoundTrip(n / BILLION);
    assert Power10(9) == BILLION;
    PaddedRoundTrip(n % BILLION, 9);
    assert s[..|whole|] == whole && s[|whole| + 1..] == Padded(n % BILLION, 9);
    assert '.' !in whole;
    FindFirst(s, '.', |whole|);
    WholeAndFraction(n);
    assert s[0] == whole[0];
    DigitsAndPoint(s, |whole|);
  }

  lemma DigitsAndPoint(s: string, k: nat)
    requires k < |s| && AllDigits(s[..k]) && s[k] == '.' && AllDigits(s[k + 1..])
    ensures IsWord(s)
  {
    forall i | 0 <= i < |s|
      ensures !IsBlank(s[i])
    {
      assert i < k ==> s[i] == s[..k][i];
      assert i > k ==> s[i] == s[k + 1..][i - k - 1];
    }
  }

  lemma WholeAndFraction(n: nat)
    ensures (n / BILLION) as real + (n % BILLION) as real / BILLION as real == n as real / Teleop.UNITS_9
  {
    assert n == n / BILLION * BILLION + n % BILLION;
    assert n as real == (n / BILLION) as real * Teleop.UNITS_9 + (n % BILLION) as real;
  }

  lemma SignedDecimal(s: string)
    requires IsWord(s) && IsDecimal(s) && !IsNegative(s)
    ensures IsWord("-" + s) && IsDecimal("-" + s) && DecimalValue("-" + s) == -DecimalValue(s)
  {
    assert ("-" + s)[1..] == s;
  }

  lemma BillionthsRoundTrip(units: int)
    ensures IsWord(Billionths(units)) && IsDecimal(Billionths(units))
    ensures DecimalValue(Billionths(units)) == units as real / Teleop.UNITS_9
  {
    var s := Unpointed(Absolute(units));
    UnpointedRoundTrip(Absolute(units));
    if units < 0 {
      SignedDecimal(s);
    }
  }

  // A number printed with nine decimals.
  function Fixed9(x: real): string {
    Billionths(Teleop.RoundUnits(x, Teleop.UNITS_9))
  }

  lemma Fixed9RoundTrip(x: real)
    ensures IsWord(Fixed9(x)) && IsDecimal(Fixed9(x)) && DecimalValue(Fixed9(x)) == Teleop.Round9(x)
  {
    BillionthsRoundTrip(Teleop.RoundUnits(x, Teleop.UNITS_9));
  }

  function Integer(n: int): string {
    if n < 0 then "-" + Decimal(-n) else Decimal(n)
  }

  lemma IntegerRoundTrip(n: int)
    ensures IsWord(Integer(n)) && IsInteger(Integer(n)) && IntegerValue(Integer(n)) == n
    ensures n >= 0 ==> AllDigits(Integer(n)) && Value(Integer(n)) == n
  {
    DecimalRoundTrip(Absolute(n));
    if n < 0 {
      assert Integer(n)[1..] == Decimal(-n);
    }
  }

  // ----- Lines -----

  function Fields(line: Teleop.Line): seq<string> {
    match line
    case Auth(token) => [Integer(token)]
    case Cmd(sequence, created, deadline, linear, yaw) =>
      [Integer(sequence), Integer(created), Integer(deadline), Fixed9(linear), Fixed9(yaw)]
    case _ => []
  }

  function Operation(line: Teleop.Line): string {
    match line
    case Auth(_) => "AUTH"
    case Cmd(_, _, _, _, _) => "CMD"
    case Stop => "STOP"
    case Estop => "ESTOP"
    case Quit => "QUIT"
  }

  // What the front end hands to its writer.
  function Render(line: Teleop.Line): string {
    Operation(line) + Spaced(Fields(line))
  }

  predicate IsInt64(value: int) {
    INT64_MIN <= value <= INT64_MAX
  }

  // A CMD after its operation; None for number spellings other than plain ones.
  function ReadCommand(fields: seq<string>): Option<CliLine> {
    if fields == [] || !IsUint64(fields[0]) then Some(Malformed)
    else if |fields| != 5 || !IsInteger(fields[1]) || !IsInteger(fields[2]) then None
    else if !IsDecimal(fields[3]) || !IsDecimal(fields[4]) then None
    else if !IsInt64(IntegerValue(fields[1])) || !IsInt64(IntegerValue(fields[2])) then Some(Malformed)
    else Some(LineCmd(Value(fields[0]), IntegerValue(fields[1]), IntegerValue(fields[2]),
                      Finite(DecimalValue(fields[3])), Finite(DecimalValue(fields[4]))))
  }

  function ReadToken(fields: seq<string>): Option<uint64> {
    if |fields| == 1 && IsUint64(fields[0]) then Some(Value(fields[0])) else None
  }

  // The tool's reading of a line.
  function ReadText(text: string): Option<CliLine> {
    var words := Words(text);
    if words == [] then Some(Malformed)
    else
      var operation, fields := words[0], words[1..];
      if operation == "AUTH" then
        var token := ReadToken(fields);
        Some(if token.Some? then LineAuth(token.value) else Malformed)
      else if operation == "RESET_ESTOP" then
        var token := ReadToken(fields);
        Some(if token.Some? then LineReset(token.value) else Malformed)
      else if operation == "CMD" then ReadCommand(fields)
      else if fields != [] then Some(Malformed)
      else if operation == "STOP" then Some(LineStop)
      else if operation == "ESTOP" then Some(LineEstop)
      else if operation == "QUIT" then Some(LineQuit)
      else Some(Malformed)
  }

  lemma CommandFieldsAreWords(line: Teleop.Line)
    requires line.Cmd?
    ensures AllWords(Fields(line))
  {
    IntegerRoundTrip(line.sequence);
    IntegerRoundTrip(line.created);
    IntegerRoundTrip(line.deadline);
    Fixed9RoundTrip(line.linear);
    Fixed9RoundTrip(line.yaw);
  }

  lemma FieldsAreWords(line: Teleop.Line)
    ensures AllWords(Fields(line))
  {
    if line.Auth? {
      IntegerRoundTrip(line.token);
    } else if line.Cmd? {
      CommandFieldsAreWords(line);
    }
  }

  lemma WordsOfRendered(line: Teleop.Line)
    ensures Words(Render(line)) == [Operation(line)] + Fields(line)
  {
    FieldsAreWords(line);
    WordsOfSpaced(Fields(line));
    WordFirst(Operation(line), Spaced(Fields(line)));
  }

  // Within the widths of the wire's integers, and printed with nine decimals.
  predicate InWidth(line: Teleop.Line) {
    && (line.Auth? ==> 0 <= line.token <= UINT64_MAX)
    && (line.Cmd? ==>
          && 0 <= line.sequence <= UINT64_MAX && 0 <= line.created <= INT64_MAX && 0 <= line.deadline <= INT64_MAX
          && NineDecimals(line.linear) && NineDecimals(line.yaw))
  }

  lemma CommandRead(line: Teleop.Line)
    requires line.Cmd? && InWidth(line)
    ensures ReadCommand(Fields(line)) == Some(Parsed(line))
  {
    IntegerRoundTrip(line.sequence);
    IntegerRoundTrip(line.created);
    IntegerRoundTrip(line.deadline);
    Fixed9RoundTrip(line.linear);
    Fixed9RoundTrip(line.yaw);
  }

  // Reading inverts rendering, fields and all.
  lemma ReadRendered(line: Teleop.Line)
    requires InWidth(line)
    ensures ReadText(Render(line)) == Some(Parsed(line)) && !Parsed(line).Malformed?
  {
    WordsOfRendered(line);
    if line.Auth? {
      IntegerRoundTrip(line.token);
    } else if line.Cmd? {
      CommandRead(line);
    }
  }

  // ----- A whole session of lines -----

  lemma PrintedInWidth(config: Teleop.TeleopConfig, h: Teleop.History, k: nat)
    requires Teleop.Reachable(config, h) && k < |h.controller.lines|
    ensures InWidth(h.controller.lines[k])
  {
    ReachableInRange(config, h);
    ReachableTeleopHeld(config, h);
    var lines := h.controller.lines;
    FitsAt(h.controller.limits, lines, k);
    TopsNonnegative(h.controller.limits, lines[..k]);
    assert Printable(lines[k], RangeOf(TopOf(config), config.curvature.value));
  }

  function Rendered(lines: seq<Teleop.Line>): seq<string> {
    seq(|lines|, k requires 0 <= k < |lines| => Render(lines[k]))
  }

  lemma WordIsPlain(word: string)
    requires IsWord(word)
    ensures Plain(word)
  {
  }

  lemma RenderedPlain(line: Teleop.Line)
    ensures Plain(Render(line))
  {
    FieldsAreWords(line);
    SpacedPlain(Fields(line));
  }

  lemma {:induction false} SpacedPlain(words: seq<string>)
    requires AllWords(words)
    ensures Plain(Spaced(words))
  {
    if words != [] {
      WordIsPlain(words[0]);
      SpacedPlain(words[1..]);
    }
  }

  // Whatever the operator does and however the stream is cut, the tool reads the
  // printed lines, in order and field by field, and finds none of them malformed.
  lemma PrintedLinesArrive(config: Teleop.TeleopConfig, h: Teleop.History, chunks: seq<string>)
    requires Teleop.Reachable(config, h)
    ensures forall text :: text in Rendered(h.controller.lines) ==> Plain(text)
    ensures Flatten(chunks) == EmitAll(Rendered(h.controller.lines)) ==>
              var (taken, pending) := TakenOver(chunks);
              && pending == "" && |taken| == |h.controller.lines|
              && forall k :: 0 <= k < |taken| ==>
                   && !Parsed(h.controller.lines[k]).Malformed?
                   && ReadText(taken[k]) == Some(Parsed(h.controller.lines[k]))
  {
    var lines := h.controller.lines;
    forall k | 0 <= k < |lines|
      ensures Plain(Rendered(lines)[k])
      ensures ReadText(Rendered(lines)[k]) == Some(Parsed(lines[k])) && !Parsed(lines[k]).Malformed?
    {
      RenderedPlain(lines[k]);
      PrintedInWidth(config, h, k);
      ReadRendered(lines[k]);
    }
    if Flatten(chunks) == EmitAll(Rendered(lines)) {
      LinesRoundTrip(Rendered(lines), chunks);
    }
  }
}
