// The text between the front end and the command line tool: whole lines over a
// stream cut anywhere, and decimal uint64 fields.

module LineProtocol {
  import opened Wrappers

  // ----- Lines -----

  predicate Plain(line: string) {
    '\n' !in line && '\r' !in line
  }

  // What the front end writes for one line; a line with a line break is an error.
  function EmitText(line: string): Option<string> {
    if Plain(line) then Some(line + "\n") else None
  }

  function EmitAll(lines: seq<string>): string
    requires forall line :: line in lines ==> Plain(line)
  {
    if lines == [] then "" else EmitText(lines[0]).value + EmitAll(lines[1..])
  }

  function Find(s: string, c: char): (k: nat)
    ensures k <= |s|
    ensures k < |s| ==> s[k] == c
    ensures c !in s[..k]
  {
    if s == "" || s[0] == c then 0
    else
      var k := 1 + Find(s[1..], c);
      assert s[..k] == [s[0]] + s[1..][..k - 1];
      k
  }

  function StripReturn(line: string): string {
    if line != "" && line[|line| - 1] == '\r' then line[..|line| - 1] else line
  }

  // The complete lines of a text, and what follows the last line feed.
  function Lines(s: string): seq<string> {
    var k := Find(s, '\n');
    if k == |s| then [] else [StripReturn(s[..k])] + Lines(s[k + 1..])
  }

  function Rest(s: string): string {
    var k := Find(s, '\n');
    if k == |s| then s else Rest(s[k + 1..])
  }

  lemma FirstLine(s: string, k: nat)
    requires k < |s| && k == Find(s, '\n')
    ensures Lines(s) == [StripReturn(s[..k])] + Lines(s[k + 1..])
    ensures Rest(s) == Rest(s[k + 1..])
  {
  }

  lemma NoLine(s: string)
    requires Find(s, '\n') == |s|
    ensures Lines(s) == [] && Rest(s) == s
  {
  }

  lemma Prepended(output: seq<string>, line: string, lines: seq<string>)
    ensures output + ([line] + lines) == (output + [line]) + lines
  {
  }

  method TakeCompleteLines(text: string) returns (output: seq<string>, pending: string)
    ensures output == Lines(text) && pending == Rest(text)
  {
    output, pending := [], text;
    var newline := Find(pending, '\n');
    while newline != |pending|
      invariant newline == Find(pending, '\n')
      invariant Lines(text) == output + Lines(pending)
      invariant Rest(text) == Rest(pending)
      decreases |pending|
    {
      FirstLine(pending, newline);
      Prepended(output, StripReturn(pending[..newline]), Lines(pending[newline + 1..]));
      var line := pending[..newline];
      if line != "" && line[|line| - 1] == '\r' {
        line := line[..|line| - 1];
      }
      output := output + [line];
      pending := pending[newline + 1..];
      newline := Find(pending, '\n');
    }
    NoLine(pending);
  }

  lemma FindFirst(s: string, c: char, k: nat)
    requires k <= |s| && c !in s[..k] && (k < |s| ==> s[k] == c)
    ensures Find(s, c) == k
  {
    var f := Find(s, c);
    assert forall i :: 0 <= i < k ==> s[i] == s[..k][i];
    assert forall i :: 0 <= i < f ==> s[i] == s[..f][i];
  }

  lemma LinesAssociate(line: string, a: seq<string>, b: seq<string>)
    ensures [line] + (a + b) == ([line] + a) + b
  {
  }

  // More text after some complete lines: the unfinished rest carries over.
  lemma {:induction false} LinesContinue(s: string, more: string)
    ensures Lines(s + more) == Lines(s) + Lines(Rest(s) + more)
    ensures Rest(s + more) == Rest(Rest(s) + more)
    decreases |s|
  {
    var k := Find(s, '\n');
    if k < |s| {
      var all, tail := s + more, s[k + 1..];
      assert all[..k] == s[..k] && all[k + 1..] == tail + more;
      FindFirst(all, '\n', k);
      FirstLine(all, k);
      FirstLine(s, k);
      LinesContinue(tail, more);
      LinesAssociate(StripReturn(s[..k]), Lines(tail), Lines(Rest(tail) + more));
    } else {
      NoLine(s);
    }
  }

  // The lines taken after each chunk, and the text still pending, when the
  // reader appends every chunk to what it holds.
  function TakenOver(chunks: seq<string>): (r: (seq<string>, string)) {
    if chunks == [] then ([], "")
    else
      var (taken, pending) := TakenOver(chunks[..|chunks| - 1]);
      var held := pending + chunks[|chunks| - 1];
      (taken + Lines(held), Rest(held))
  }

  lemma {:induction false} CutsDoNotMatter(chunks: seq<string>)
    ensures TakenOver(chunks) == (Lines(Flatten(chunks)), Rest(Flatten(chunks)))
  {
    if chunks != [] {
      var before := chunks[..|chunks| - 1];
      CutsDoNotMatter(before);
      LinesContinue(Flatten(before), chunks[|chunks| - 1]);
    }
  }

  lemma {:induction false} EmittedLinesRead(lines: seq<string>)
    requires forall line :: line in lines ==> Plain(line)
    ensures Lines(EmitAll(lines)) == lines && Rest(EmitAll(lines)) == ""
  {
    if lines != [] {
      var text, k := EmitAll(lines), |lines[0]|;
      assert Plain(lines[0]);
      assert text[..k] == lines[0];
      FindFirst(text, '\n', k);
      assert text[k + 1..] == EmitAll(lines[1..]);
      EmittedLinesRead(lines[1..]);
      assert k > 0 ==> lines[0][k - 1] in lines[0];
    }
  }

  // Lines written by the front end come back unchanged, however the stream is cut.
  lemma LinesRoundTrip(lines: seq<string>, chunks: seq<string>)
    requires forall line :: line in lines ==> Plain(line)
    requires Flatten(chunks) == EmitAll(lines)
    ensures TakenOver(chunks) == (lines, "")
  {
    CutsDoNotMatter(chunks);
    EmittedLinesRead(lines);
  }

  // ----- Decimal numbers -----

  predicate IsDigit(c: char) {
    '0' <= c <= '9'
  }

  predicate AllDigits(s: string) {
    forall i :: 0 <= i < |s| ==> IsDigit(s[i])
  }

  function DigitValue(c: char): nat
    requires IsDigit(c)
  {
    (c - '0') as nat
  }

  function Value(s: string): nat
    requires AllDigits(s)
  {
    if s == "" then 0 else Value(s[..|s| - 1]) * 10 + DigitValue(s[|s| - 1])
  }

  lemma {:induction false} ValueGrows(s: string, k: nat)
    requires AllDigits(s) && k <= |s|
    ensures AllDigits(s[..k]) && Value(s[..k]) <= Value(s)
    decreases |s| - k
  {
    if k < |s| {
      assert s[..k + 1][..k] == s[..k];
      ValueGrows(s, k + 1);
    } else {
      assert s[..k] == s;
    }
  }

  predicate IsUint64(token: string) {
    token != "" && AllDigits(token) && Value(token) <= UINT64_MAX
  }

  // A token is accepted exactly when it is a digit string of a value below 2^64.
  method ParseUint64Decimal(token: string) returns (ok: bool, output: uint64)
    ensures ok <==> IsUint64(token)
    ensures ok ==> output == Value(token)
  {
    output := 0;
    if token == "" {
      return false, 0;
    }
    for i := 0 to |token|
      invariant AllDigits(token[..i]) && output == Value(token[..i])
    {
      var character := token[i];
      if character < '0' || character > '9' {
        return false, 0;
      }
      assert AllDigits(token[..i + 1]) && token[..i + 1][..i] == token[..i];
      var digit: uint64 := (character - '0') as int;
      if output > (UINT64_MAX - digit) / 10 {
        if AllDigits(token) {
          ValueGrows(token, i + 1);
        }
        return false, 0;
      }
      output := output * 10 + digit;
    }
    assert token[..|token|] == token;
    return true, output;
  }

  function Decimal(n: nat): string {
    var digit := ('0' as int + n % 10) as char;
    if n < 10 then [digit] else Decimal(n / 10) + [digit]
  }

  // Parsing inverts decimal printing.
  lemma {:induction false} DecimalRoundTrip(n: nat)
    ensures Decimal(n) != "" && AllDigits(Decimal(n)) && Value(Decimal(n)) == n
  {
    var digit := ('0' as int + n % 10) as char;
    if n >= 10 {
      DecimalRoundTrip(n / 10);
      assert Decimal(n)[..|Decimal(n)| - 1] == Decimal(n / 10);
    } else {
      assert Decimal(n)[..0] == "";
    }
  }
}
