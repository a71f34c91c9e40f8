/** Record construction in monitor/reader.go: a line of the access log in
    Common Log Format becomes a Log record, or is skipped. The CLF regular
    expression and time.Parse are parameters: `clfMatch` returns the
    submatch slice of FindStringSubmatch (empty for no match) and
    `parseTime` returns None where time.Parse fails. */
module Reader {
  import opened Common

  /** Number of captured fields in a Common Log Format entry. */
  const ClfNumParts: nat := 7

  /** One HTTP log entry. */
  datatype Log = Log(
    remoteAddr: string,
    identity: string,
    userID: string,
    timestamp: Time,
    request: string,
    status: int,
    size: int)

  predicate IsDigit(c: char) {
    '0' <= c <= '9'
  }

  predicate AllDigits(s: string) {
    forall i :: 0 <= i < |s| ==> IsDigit(s[i])
  }

  /** The decimal value of a digit string, most significant digit first. */
  function DigitsValue(s: string): nat
    requires AllDigits(s)
  {
    if s == [] then 0 else 10 * DigitsValue(s[..|s| - 1]) + (s[|s| - 1] as int - '0' as int)
  }

  /** Base-10 strconv.ParseInt / strconv.Atoi: an optional sign followed by at
      least one decimal digit; None is a syntax error. */
  function ParseInt(s: string): (r: Option<int>)
    ensures s == "-" || s == "+" || s == "" ==> r.None?
    ensures s != [] && AllDigits(s) ==> r == Some(DigitsValue(s))
    ensures r.Some? && s[0] != '-' ==> r.value >= 0
  {
    if s == [] then None
    else if s[0] == '+' || s[0] == '-' then
      var digits := s[1..];
      var magnitude: int := if AllDigits(digits) then DigitsValue(digits) else 0;
      if digits == [] || !AllDigits(digits) then None
      else if s[0] == '-' then Some(-magnitude)
      else Some(magnitude)
    else if AllDigits(s) then Some(DigitsValue(s))
    else None
  }

  /** The decimal digits of n, without sign or leading zeros. */
  function FormatDecimal(n: nat): (s: string)
    ensures s != [] && AllDigits(s)
  {
    if n < 10 then [('0' as int + n) as char]
    else FormatDecimal(n / 10) + [('0' as int + n % 10) as char]
  }

  lemma {:induction false} DigitsOfFormat(n: nat)
    ensures DigitsValue(FormatDecimal(n)) == n
  {
    if n >= 10 {
      var s := FormatDecimal(n);
      assert s[..|s| - 1] == FormatDecimal(n / 10);
      DigitsOfFormat(n / 10);
    }
  }

  /** Parsing undoes formatting: a digit capture yields its decimal value. */
  lemma ParseFormatRoundTrip(n: nat)
    ensures ParseInt(FormatDecimal(n)) == Some(n)
  {
    DigitsOfFormat(n);
  }

  /** The record built from the captures of a matching line (lines 137-151):
      string fields copied verbatim, the timestamp left at the zero time when
      it does not parse, status and size 0 when they do not parse (the "-"
      placeholder among them), and their decimal value when they are digits. */
  function RecordOf(parts: seq<string>, parseTime: string -> Option<Time>): (l: Log)
    requires |parts| >= ClfNumParts + 1
    ensures l.remoteAddr == parts[1] && l.identity == parts[2]
    ensures l.userID == parts[3] && l.request == parts[5]
    ensures parts[6] == "-" ==> l.status == 0
    ensures parts[6] != [] && AllDigits(parts[6]) ==> l.status == DigitsValue(parts[6])
    ensures parts[7] == "-" ==> l.size == 0
    ensures parts[7] != [] && AllDigits(parts[7]) ==> l.size == DigitsValue(parts[7])
    ensures parseTime(parts[4]).None? ==> l.timestamp == ZeroTime
    ensures parseTime(parts[4]).Some? ==> l.timestamp == parseTime(parts[4]).value
  {
    Log(
      remoteAddr := parts[1],
      identity := parts[2],
      userID := parts[3],
      timestamp := parseTime(parts[4]).GetOr(ZeroTime),
      request := parts[5],
      status := ParseInt(parts[6]).GetOr(0),
      size := ParseInt(parts[7]).GetOr(0))
  }

  /** The records the read loop emits for the given lines, in line order. */
  function RecordsOf(lines: seq<string>, clfMatch: string -> seq<string>, parseTime: string -> Option<Time>): (logs: seq<Log>)
    ensures |logs| <= |lines|
  {
    if lines == [] then []
    else
      var parts := clfMatch(lines[|lines| - 1]);
      RecordsOf(lines[..|lines| - 1], clfMatch, parseTime)
        + (if |parts| < ClfNumParts + 1 then [] else [RecordOf(parts, parseTime)])
  }

  /** The body of the read loop over the lines the file yields: lines the
      pattern does not match are skipped, every other line is sent on as one
      record. */
  method Read(lines: seq<string>, clfMatch: string -> seq<string>, parseTime: string -> Option<Time>)
    returns (logs: seq<Log>)
    ensures logs == RecordsOf(lines, clfMatch, parseTime)
    ensures |logs| <= |lines|
  {
    logs := [];
    var i := 0;
    while i < |lines|
      invariant 0 <= i <= |lines|
      invariant logs == RecordsOf(lines[..i], clfMatch, parseTime)
    {
      assert lines[..i + 1][..i] == lines[..i];
      var parts := clfMatch(lines[i]);
      if |parts| < ClfNumParts + 1 {
        i := i + 1;
        continue;
      }
      var l := RecordOf(parts, parseTime);
      logs := logs + [l];
      i := i + 1;
    }
    assert lines[..i] == lines;
  }

  /** Reading is compositional: the records of two runs of lines are those of
      the first run followed by those of the second, so records keep the
      order of their lines. */
  lemma {:induction false} RecordsOfAppend(a: seq<string>, b: seq<string>, clfMatch: string -> seq<string>, parseTime: string -> Option<Time>)
    ensures RecordsOf(a + b, clfMatch, parseTime) == RecordsOf(a, clfMatch, parseTime) + RecordsOf(b, clfMatch, parseTime)
  {
    if b != [] {
      assert (a + b)[..|a + b| - 1] == a + b[..|b| - 1];
      RecordsOfAppend(a, b[..|b| - 1], clfMatch, parseTime);
    } else {
      assert a + b == a;
    }
  }

  /** One line yields at most one record: none when the pattern does not
      match, otherwise the record built from its captures. */
  lemma RecordsOfLine(line: string, clfMatch: string -> seq<string>, parseTime: string -> Option<Time>)
    ensures |clfMatch(line)| < ClfNumParts + 1 ==> RecordsOf([line], clfMatch, parseTime) == []
    ensures |clfMatch(line)| >= ClfNumParts + 1
        ==> RecordsOf([line], clfMatch, parseTime) == [RecordOf(clfMatch(line), parseTime)]
  {
    assert [line][..0] == [];
  }

  /** A line that does not match is skipped and reading goes on with the next
      line: it contributes nothing between the records around it. */
  lemma UnmatchedLineSkipped(before: seq<string>, line: string, after: seq<string>, clfMatch: string -> seq<string>, parseTime: string -> Option<Time>)
    requires |clfMatch(line)| < ClfNumParts + 1
    ensures RecordsOf(before + [line] + after, clfMatch, parseTime)
         == RecordsOf(before, clfMatch, parseTime) + RecordsOf(after, clfMatch, parseTime)
  {
    RecordsOfAppend(before + [line], after, clfMatch, parseTime);
    RecordsOfAppend(before, [line], clfMatch, parseTime);
    RecordsOfLine(line, clfMatch, parseTime);
  }
}
