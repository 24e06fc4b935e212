/**
 * The shell layer: commands framed by a delimiter line on a shared output stream, and single-quoting read back by
 * the token rules of sections 2.2 and 2.3 of the POSIX.1-2017 Shell Command Language.
 */
module Shell {
  import opened Seqs
  import opened Text

  // ---- Exit codes ------------------------------------------------------------------------

  const MAX_INT := 0x7FFF_FFFF_FFFF_FFFF

  predicate IsDigit(c: char) { '0' <= c <= '9' }

  function Itoa(n: nat): (s: string)
    ensures s != "" && forall i :: 0 <= i < |s| ==> IsDigit(s[i])
  {
    if n < 10 then [(n + '0' as int) as char] else Itoa(n / 10) + [(n % 10 + '0' as int) as char]
  }

  /** The value of a string of digits. */
  function Digits(s: string): Option<nat> {
    if s == "" then Some(0)
    else if !IsDigit(s[|s| - 1]) then None
    else
      match Digits(s[..|s| - 1])
      case None => None
      case Some(high) => Some(10 * high + (s[|s| - 1] as int - '0' as int))
  }

  /** strconv.Atoi: an optional sign, digits, and the range of a 64-bit int. */
  function Atoi(s: string): Option<int> {
    var unsigned := if s != "" && (s[0] == '+' || s[0] == '-') then s[1..] else s;
    if unsigned == "" then None
    else
      match Digits(unsigned)
      case None => None
      case Some(n) =>
        if s[0] == '-' then (if n <= MAX_INT + 1 then Some(-(n as int)) else None)
        else if n <= MAX_INT then Some(n) else None
  }

  lemma {:induction false} DigitsOfItoa(n: nat)
    ensures Digits(Itoa(n)) == Some(n)
  {
    if n >= 10 {
      DigitsOfItoa(n / 10);
      var s := Itoa(n);
      assert s[..|s| - 1] == Itoa(n / 10);
    } else {
      assert Itoa(n)[..0] == "";
    }
  }

  lemma AtoiOfItoa(n: nat)
    requires n <= MAX_INT
    ensures Atoi(Trim(Itoa(n))) == Some(n)
  {
    hide Itoa, Atoi, Trim, TrimLeft;
    DigitsOfItoa(n);
    AtoiOfDigits(Itoa(n), n);
    DigitsAreTrimmed(Itoa(n));
  }

  /** With a sign, and up to the ends of the range. */
  lemma AtoiOfSigned(n: nat)
    ensures Atoi(Itoa(n)) == (if n <= MAX_INT then Some(n) else None)
    ensures Atoi("+" + Itoa(n)) == Atoi(Itoa(n))
    ensures Atoi("-" + Itoa(n)) == if n <= MAX_INT + 1 then Some(-(n as int)) else None
  {
    var s := Itoa(n);
    DigitsOfItoa(n);
    assert s != "" && IsDigit(s[0]) && ("+" + s)[1..] == s && ("-" + s)[1..] == s;
    hide Digits, Itoa;
  }

  lemma AtoiOfDigits(s: string, n: nat)
    requires s != "" && IsDigit(s[0]) && Digits(s) == Some(n) && n <= MAX_INT
    ensures Atoi(s) == Some(n)
  {
    hide Digits;
  }

  lemma DigitsAreTrimmed(s: string)
    requires s != "" && IsDigit(s[0]) && IsDigit(s[|s| - 1])
    ensures Trim(s) == s
  {
    hide Trim, TrimLeft;
    TrimOfTrimmed(s);
  }

  // ---- Framing ------------------------------------------------------------------------------

  /** What one Exec returns, and what it leaves unread. A stream that ends first gives code -1. */
  datatype Result = Result(output: string, code: int, rest: string)

  /** The code on a delimiter line, or -1 when it is not a number. */
  function CodeOf(text: string): int {
    match Atoi(Trim(text)) case Some(n) => n case None => -1
  }

  /** bufio's ReadString: a line without its newline and what follows it, if there is a newline. */
  function NextLine(stream: string): (r: Option<(string, string)>)
    ensures r.Some? ==> '\n' !in r.value.0 && stream == r.value.0 + ("\n" + r.value.1)
    ensures r.None? <==> '\n' !in stream
  {
    var n := Span(NotNewline, stream);
    if n == |stream| then None
    else
      CutAt(stream, n);
      Some((stream[..n], stream[n + 1..]))
  }

  /** Reading lines up to the delimiter line. */
  function ReadOutput(delim: string, stream: string): Result
    decreases |stream|
  {
    match NextLine(stream)
    case None => Result("", -1, "")
    case Some((line, rest)) =>
      if delim + "=" <= line then Result("", CodeOf(line[|delim| + 1..]), rest)
      else Prepend(line + "\n", ReadOutput(delim, rest))
  }

  function Prepend(line: string, r: Result): Result {
    Result(line + r.output, r.code, r.rest)
  }

  /** A command's output and then the line that reports its exit code. */
  function Framed(output: string, delim: string, code: nat, rest: string): string {
    output + (delim + "=" + Itoa(code)) + "\n" + rest
  }

  /** Some line of text, complete or not, starts with the prefix. */
  ghost predicate LineStartsWith(text: string, prefix: string)
    decreases |text|
  {
    match NextLine(text)
    case None => prefix <= text
    case Some((line, rest)) => prefix <= line || LineStartsWith(rest, prefix)
  }

  predicate NewlineTerminated(s: string) {
    s == "" || s[|s| - 1] == '\n'
  }

  ghost predicate GoodDelimiter(delim: string) {
    delim != "" && '\n' !in delim && '=' !in delim
  }

  lemma NextLineIs(line: string, rest: string)
    requires '\n' !in line
    ensures NextLine(line + ("\n" + rest)) == Some((line, rest))
  {
    var s, n := line + ("\n" + rest), |line|;
    SpanIs(NotNewline, s, n);
    assert s[..n] == line && s[n + 1..] == rest;
  }

  /** Reading a stream whose first line is known. */
  lemma ReadFirst(delim: string, line: string, rest: string)
    requires '\n' !in line
    ensures ReadOutput(delim, line + ("\n" + rest))
            == if delim + "=" <= line then Result("", CodeOf(line[|delim| + 1..]), rest)
               else Prepend(line + "\n", ReadOutput(delim, rest))
  {
    NextLineIs(line, rest);
    hide NextLine, CodeOf;
  }

  lemma {:induction false} OutputIsTerminated(delim: string, stream: string)
    ensures NewlineTerminated(ReadOutput(delim, stream).output)
    decreases |stream|
  {
    hide CodeOf;
    match NextLine(stream)
    case None =>
    case Some((line, rest)) => OutputIsTerminated(delim, rest);
  }

  /** The last, incomplete line of an output runs into the delimiter line and hides it. */
  lemma HiddenDelimiter(delim: string, tail: string, code: string)
    requires GoodDelimiter(delim) && tail != "" && !(delim + "=" <= tail)
    ensures !(delim + "=" <= tail + (delim + "=" + code))
  {
    var line, d := tail + (delim + "=" + code), |delim|;
    assert (delim + "=")[d] == '=';
    if d < |tail| {
      assert line[..d + 1] == tail[..d + 1];
    } else {
      assert line[d] == delim[d - |tail|] && delim[d - |tail|] in delim;
    }
  }

  /**
   * Exec returns exactly the command's output and code and leaves the stream just past the delimiter line if and only
   * if the output is empty or newline-terminated and none of its lines starts like the delimiter line.
   */
  lemma {:induction false} FramingIff(output: string, delim: string, code: nat, rest: string)
    requires GoodDelimiter(delim) && code <= MAX_INT
    ensures ReadOutput(delim, Framed(output, delim, code, rest)) == Result(output, code, rest)
            <==> NewlineTerminated(output) && !LineStartsWith(output, delim + "=")
    decreases |output|
  {
    hide CodeOf, Itoa;
    match NextLine(output)
    case None => FramingOfTail(output, delim, code, rest);
    case Some((line, more)) =>
      FramingIff(more, delim, code, rest);
      FramingOfLine(line, more, delim, code, rest);
  }

  /** The last line of an output, if it is not empty, is lost among the output for good. */
  lemma FramingOfTail(tail: string, delim: string, code: nat, rest: string)
    requires GoodDelimiter(delim) && code <= MAX_INT && '\n' !in tail
    ensures ReadOutput(delim, Framed(tail, delim, code, rest)) == Result(tail, code, rest) <==> tail == ""
  {
    var report := delim + "=" + Itoa(code);
    ReportIsOneLine(delim, code);
    assert Framed(tail, delim, code, rest) == (tail + report) + ("\n" + rest);
    OutputIsTerminated(delim, Framed(tail, delim, code, rest));
    if tail == "" {
      ReadFirst(delim, tail + report, rest);
      assert tail + report == report;
      ReportedCode(delim, code);
    }
    hide ReadOutput;
  }

  lemma FramingOfLine(line: string, more: string, delim: string, code: nat, rest: string)
    requires GoodDelimiter(delim) && '\n' !in line
    ensures var r, framed := Result(line + ("\n" + more), code, rest), Framed(more, delim, code, rest);
            ReadOutput(delim, Framed(line + ("\n" + more), delim, code, rest)) == r
            <==> !(delim + "=" <= line) && ReadOutput(delim, framed) == Result(more, code, rest)
    ensures NewlineTerminated(line + ("\n" + more)) <==> NewlineTerminated(more)
  {
    FramedAfterLine(line, more, delim, code, rest);
    TerminatedAfterLine(line, more);
    hide ReadOutput, CodeOf, Framed, NewlineTerminated;
    var output, framed := line + ("\n" + more), Framed(more, delim, code, rest);
    ReadFirst(delim, line, framed);
    assert output == (line + "\n") + more;
    SameHead(line + "\n", ReadOutput(delim, framed), more, code, rest);
  }

  lemma FramedAfterLine(line: string, more: string, delim: string, code: nat, rest: string)
    ensures Framed(line + ("\n" + more), delim, code, rest) == line + ("\n" + Framed(more, delim, code, rest))
  {
  }

  lemma TerminatedAfterLine(line: string, more: string)
    ensures NewlineTerminated(line + ("\n" + more)) <==> NewlineTerminated(more)
  {
    var output := line + ("\n" + more);
    assert output[|output| - 1] == if more == "" then '\n' else more[|more| - 1];
  }

  lemma SameHead(head: string, r: Result, more: string, code: int, rest: string)
    ensures Prepend(head, r) == Result(head + more, code, rest) <==> r == Result(more, code, rest)
  {
    if head + r.output == head + more {
      assert (head + r.output)[|head|..] == r.output && (head + more)[|head|..] == more;
    }
  }

  lemma ReportIsOneLine(delim: string, code: nat)
    requires GoodDelimiter(delim)
    ensures '\n' !in delim + "=" + Itoa(code)
  {
  }

  lemma ReportedCode(delim: string, code: nat)
    requires code <= MAX_INT
    ensures var report := delim + "=" + Itoa(code);
            delim + "=" <= report && CodeOf(report[|delim| + 1..]) == code
  {
    var report := delim + "=" + Itoa(code);
    assert report[|delim| + 1..] == Itoa(code);
    AtoiOfItoa(code);
  }

  /** Complete lines that do not start like the delimiter line are read as output, whatever follows them. */
  lemma {:induction false} ReadPast(delim: string, text: string, more: string)
    requires !LineStartsWith(text, delim + "=")
    ensures ReadOutput(delim, text + more) == Prepend(Flat(CompleteLines(text)), ReadOutput(delim, Tail(text) + more))
    decreases |text|
  {
    match NextLine(text)
    case None =>
      NoLine(text);
      hide ReadOutput, CompleteLines, Tail;
      PrependTwice("", "", ReadOutput(delim, text + more));
    case Some((line, rest)) =>
      ReadPast(delim, rest, more);
      ReadPastLine(delim, line, rest, more);
  }

  lemma ReadPastLine(delim: string, line: string, rest: string, more: string)
    requires '\n' !in line && !(delim + "=" <= line)
    requires ReadOutput(delim, rest + more) == Prepend(Flat(CompleteLines(rest)), ReadOutput(delim, Tail(rest) + more))
    ensures var text := line + ("\n" + rest);
            ReadOutput(delim, text + more) == Prepend(Flat(CompleteLines(text)), ReadOutput(delim, Tail(text) + more))
  {
    hide ReadOutput, CompleteLines, Tail, Flat, Prepend;
    FirstLine(line, rest);
    ReadFirst(delim, line, rest + more);
    LineAnd(line, rest, more);
    PrependTwice(line + "\n", Flat(CompleteLines(rest)), ReadOutput(delim, Tail(rest) + more));
    FlatCons(line + "\n", CompleteLines(rest));
  }

  lemma LineAnd(line: string, rest: string, more: string)
    ensures line + ("\n" + rest) + more == line + ("\n" + (rest + more))
  {
  }

  lemma FlatCons(first: string, rest: seq<string>)
    ensures Flat([first] + rest) == first + Flat(rest)
  {
    assert ([first] + rest)[1..] == rest;
  }

  lemma {:induction false} TailOfText(text: string, prefix: string)
    ensures Tail(text) == "" <==> NewlineTerminated(text)
    ensures prefix != "" && !LineStartsWith(text, prefix) ==> !(prefix <= Tail(text))
    decreases |text|
  {
    match NextLine(text)
    case None => NoLine(text);
    case Some((line, rest)) =>
      TailOfText(rest, prefix);
      FirstLine(line, rest);
      TerminatedAfterLine(line, rest);
  }

  /**
   * Output without a final newline: the delimiter line is taken for output, and reading goes on into what follows.
   * While bash runs and nothing more arrives, the source waits there; the code is lost.
   */
  lemma UnterminatedOutputHidesCode(output: string, delim: string, code: nat, rest: string)
    requires GoodDelimiter(delim) && !NewlineTerminated(output) && !LineStartsWith(output, delim + "=")
    ensures var report := delim + "=" + Itoa(code);
            ReadOutput(delim, Framed(output, delim, code, rest)) == Prepend(output + report + "\n", ReadOutput(delim, rest))
  {
    var report, tail := delim + "=" + Itoa(code), Tail(output);
    TailOfText(output, delim + "=");
    ReportIsOneLine(delim, code);
    HiddenDelimiter(delim, tail, Itoa(code));
    LinesAndTailAreText(output);
    hide Itoa, CodeOf, ReadOutput, Tail, CompleteLines, LineStartsWith, NewlineTerminated, GoodDelimiter, Flat, Prepend;
    ReadPast(delim, output, report + ("\n" + rest));
    FramedIs(output, report, rest);
    Assoc(tail, report, "\n" + rest);
    ReadFirst(delim, tail + report, rest);
    PrependTwice(Flat(CompleteLines(output)), tail + report + "\n", ReadOutput(delim, rest));
    Regroup(Flat(CompleteLines(output)), tail, report, "\n");
  }

  lemma FramedIs(output: string, report: string, rest: string)
    ensures output + report + "\n" + rest == output + (report + ("\n" + rest))
  {
  }

  lemma Regroup(a: string, b: string, c: string, d: string)
    ensures a + (b + c + d) == a + b + c + d
  {
  }

  // ---- Any sequence of commands ------------------------------------------------------------------

  datatype Command = Command(output: string, delim: string, code: nat)

  ghost predicate WellBehaved(c: Command) {
    GoodDelimiter(c.delim) && c.code <= MAX_INT && NewlineTerminated(c.output) && !LineStartsWith(c.output, c.delim + "=")
  }

  function FramedAll(commands: seq<Command>, rest: string): string {
    if commands == [] then rest
    else Framed(commands[0].output, commands[0].delim, commands[0].code, FramedAll(commands[1..], rest))
  }

  /** One Exec after the other on the same stream. */
  function ExecAll(delims: seq<string>, stream: string): (seq<(string, int)>, string)
    decreases |delims|
  {
    if delims == [] then ([], stream)
    else
      var r := ReadOutput(delims[0], stream);
      var (more, rest) := ExecAll(delims[1..], r.rest);
      ([(r.output, r.code)] + more, rest)
  }

  function Delims(commands: seq<Command>): seq<string> {
    if commands == [] then [] else [commands[0].delim] + Delims(commands[1..])
  }

  function Reports(commands: seq<Command>): seq<(string, int)> {
    if commands == [] then [] else [(commands[0].output, commands[0].code)] + Reports(commands[1..])
  }

  /** Each Exec of a session gets its own output and code, and what follows the last one is left unread. */
  lemma {:induction false} EachGetsItsOwn(commands: seq<Command>, rest: string)
    requires forall c :: c in commands ==> WellBehaved(c)
    ensures ExecAll(Delims(commands), FramedAll(commands, rest)) == (Reports(commands), rest)
    decreases |commands|
  {
    if commands != [] {
      var c, more := commands[0], FramedAll(commands[1..], rest);
      assert WellBehaved(c);
      FramingIff(c.output, c.delim, c.code, more);
      EachGetsItsOwn(commands[1..], rest);
      assert Delims(commands)[1..] == Delims(commands[1..]);
      hide ReadOutput, Framed;
    }
  }

  // ---- The streaming form, and a client that goes away ---------------------------------------------

  /** What one ExecStream sends and leaves unread; the code is missing when the client's stream broke before it. */
  datatype Sent = Sent(chunks: seq<string>, code: Option<int>, rest: string)

  /** The conversion to a 32-bit exit code. */
  function Int32(n: int): int {
    (n + 0x8000_0000) % 0x1_0000_0000 - 0x8000_0000
  }

  lemma Int32Is(n: int)
    ensures -0x8000_0000 <= Int32(n) < 0x8000_0000 && (Int32(n) - n) % 0x1_0000_0000 == 0
  {
  }

  /** A line at a time, for a client's stream that accepts so many messages and then fails. */
  function Streamed(delim: string, stream: string, accepts: nat): Sent
    decreases |stream|
  {
    match NextLine(stream)
    case None => Sent([], LastMessage(-1, accepts), "")
    case Some((line, rest)) =>
      if delim + "=" <= line then Sent([], LastMessage(CodeOf(line[|delim| + 1..]), accepts), rest)
      else if accepts == 0 then Sent([], None, rest)
      else SendFirst(line + "\n", Streamed(delim, rest, accepts - 1))
  }

  function LastMessage(code: int, accepts: nat): Option<int> {
    if accepts > 0 then Some(Int32(code)) else None
  }

  function SendFirst(chunk: string, s: Sent): Sent {
    Sent([chunk] + s.chunks, s.code, s.rest)
  }

  /**
   * Against what Exec returns: the lines of its output are the chunks, as far as they are accepted. A line that is
   * not ends the call: it is lost, and the rest of the output and the delimiter line stay on the stream.
   */
  ghost predicate StreamsLines(stream: string, accepts: nat, r: Result, s: Sent) {
    var lines := CompleteLines(r.output);
    if |lines| <= accepts then s == Sent(lines, if |lines| < accepts then Some(Int32(r.code)) else None, r.rest)
    else s.chunks == lines[..accepts] && s.code == None && stream == Flat(lines[..accepts + 1]) + s.rest
  }

  lemma {:induction false} StreamedIs(delim: string, stream: string, accepts: nat)
    ensures StreamsLines(stream, accepts, ReadOutput(delim, stream), Streamed(delim, stream, accepts))
    decreases |stream|
  {
    hide *;
    ReadOneLine(delim, stream, accepts);
    match NextLine(stream)
    case None => NothingToSend(stream, accepts, -1, "");
    case Some((line, rest)) =>
      if delim + "=" <= line {
        NothingToSend(stream, accepts, CodeOf(line[|delim| + 1..]), rest);
      } else if accepts == 0 {
        LostLine(line, rest, ReadOutput(delim, rest));
      } else {
        StreamedIs(delim, rest, accepts - 1);
        SentLine(line, rest, accepts, ReadOutput(delim, rest), Streamed(delim, rest, accepts - 1));
      }
  }

  lemma ReadOneLine(delim: string, stream: string, accepts: nat)
    ensures var r, s := ReadOutput(delim, stream), Streamed(delim, stream, accepts);
            match NextLine(stream)
            case None => r == Result("", -1, "") && s == Sent([], LastMessage(-1, accepts), "")
            case Some((line, rest)) =>
              if delim + "=" <= line then
                var code := CodeOf(line[|delim| + 1..]);
                r == Result("", code, rest) && s == Sent([], LastMessage(code, accepts), rest)
              else
                && r == Prepend(line + "\n", ReadOutput(delim, rest))
                && s == if accepts == 0 then Sent([], None, rest)
                        else SendFirst(line + "\n", Streamed(delim, rest, accepts - 1))
  {
    hide NextLine, CodeOf, LastMessage, Prepend, SendFirst;
  }

  lemma NothingToSend(stream: string, accepts: nat, code: int, rest: string)
    ensures StreamsLines(stream, accepts, Result("", code, rest), Sent([], LastMessage(code, accepts), rest))
  {
    NoLine("");
  }

  lemma LostLine(line: string, rest: string, r: Result)
    requires '\n' !in line
    ensures StreamsLines(line + ("\n" + rest), 0, Prepend(line + "\n", r), Sent([], None, rest))
  {
    OutputFirst(line, r);
    var lines := CompleteLines(Prepend(line + "\n", r).output);
    assert lines[..1] == [line + "\n"] + [];
    FlatCons(line + "\n", []);
    hide CompleteLines, Prepend, Flat;
    Assoc(line, "\n", rest);
    assert Flat([]) == "" && (line + "\n") + "" == line + "\n";
  }

  lemma SentLine(line: string, rest: string, accepts: nat, r: Result, s: Sent)
    requires '\n' !in line && accepts > 0 && StreamsLines(rest, accepts - 1, r, s)
    ensures StreamsLines(line + ("\n" + rest), accepts, Prepend(line + "\n", r), SendFirst(line + "\n", s))
  {
    OutputFirst(line, r);
    var lines := CompleteLines(r.output);
    hide CompleteLines, LastMessage, Flat;
    if |lines| >= accepts {
      assert ([line + "\n"] + lines)[..accepts] == [line + "\n"] + lines[..accepts - 1];
      ChunkFirst(line, rest, lines, s, accepts);
    }
  }

  lemma OutputFirst(line: string, r: Result)
    requires '\n' !in line
    ensures CompleteLines(Prepend(line + "\n", r).output) == [line + "\n"] + CompleteLines(r.output)
  {
    Assoc(line, "\n", r.output);
    FirstLine(line, r.output);
  }

  lemma ChunkFirst(line: string, rest: string, lines: seq<string>, s: Sent, accepts: nat)
    requires 0 < accepts <= |lines|
    requires rest == Flat(lines[..accepts]) + s.rest
    ensures line + ("\n" + rest) == Flat(([line + "\n"] + lines)[..accepts + 1]) + s.rest
  {
    assert ([line + "\n"] + lines)[..accepts + 1] == [line + "\n"] + lines[..accepts];
    FlatCons(line + "\n", lines[..accepts]);
    hide Flat;
    var a, b := line + "\n", Flat(lines[..accepts]);
    Assoc(a, b, s.rest);
    Assoc(line, "\n", rest);
  }

  /**
   * The command after one that was streamed gets its own output and code exactly when the client's stream accepted
   * all lines. Otherwise it also gets what was left unread: the lines after the lost one, and the delimiter line.
   */
  lemma BrokenStreamSpoilsNext(c: Command, c2: Command, accepts: nat, rest: string)
    requires WellBehaved(c) && WellBehaved(c2) && c.delim != c2.delim && !LineStartsWith(c.output, c2.delim + "=")
    ensures var following := Framed(c2.output, c2.delim, c2.code, rest);
            var sent := Streamed(c.delim, Framed(c.output, c.delim, c.code, following), accepts);
            var lines, next := CompleteLines(c.output), ReadOutput(c2.delim, sent.rest);
            if |lines| <= accepts then
              sent == Sent(lines, if |lines| < accepts then Some(Int32(c.code)) else None, following)
              && next == Result(c2.output, c2.code, rest)
            else
              && sent.chunks == lines[..accepts] && sent.code == None
              && next.output == Flat(lines[accepts + 1..]) + c.delim + "=" + Itoa(c.code) + "\n" + c2.output
              && next.output != c2.output && next.code == c2.code && next.rest == rest
  {
    var following, report := Framed(c2.output, c2.delim, c2.code, rest), c.delim + "=" + Itoa(c.code);
    var stream := Framed(c.output, c.delim, c.code, following);
    var sent, lines := Streamed(c.delim, stream, accepts), CompleteLines(c.output);
    FramingIff(c.output, c.delim, c.code, following);
    FramingIff(c2.output, c2.delim, c2.code, rest);
    StreamedIs(c.delim, stream, accepts);
    hide ReadOutput, Streamed, CompleteLines, Itoa, Flat, LineStartsWith, LastMessage, NewlineTerminated;
    if |lines| > accepts {
      var left := Flat(lines[accepts + 1..]);
      FramedIs(c.output, report, following);
      Leftover(c.output, accepts + 1, report + ("\n" + following), sent.rest, c2.delim + "=");
      ReadLeftover(left, c, c2.delim, following, c2.output, c2.code, rest);
    }
  }

  /** A terminated text is its lines, and after some of them come the others. */
  lemma Leftover(text: string, k: nat, more: string, rest: string, prefix: string)
    requires NewlineTerminated(text) && k <= |CompleteLines(text)| && prefix != "" && !LineStartsWith(text, prefix)
    requires text + more == Flat(CompleteLines(text)[..k]) + rest
    ensures var left := Flat(CompleteLines(text)[k..]);
            rest == left + more && NewlineTerminated(left) && !LineStartsWith(left, prefix)
  {
    var lines := CompleteLines(text);
    TailOfText(text, prefix);
    LinesAndTailAreText(text);
    FlatSplit(lines, k);
    LaterLines(text, k, prefix);
    hide CompleteLines, Flat, LineStartsWith, NewlineTerminated;
    var head, left := Flat(lines[..k]), Flat(lines[k..]);
    assert text == head + left;
    Assoc(head, left, more);
    SameHeadSameRest(head, left + more, rest);
  }

  lemma SameHeadSameRest(head: string, a: string, b: string)
    requires head + a == head + b
    ensures a == b
  {
    assert (head + a)[|head|..] == a && (head + b)[|head|..] == b;
  }

  lemma {:induction false} FlatSplit(texts: seq<string>, k: nat)
    requires k <= |texts|
    ensures Flat(texts) == Flat(texts[..k]) + Flat(texts[k..])
  {
    if k > 0 {
      FlatSplit(texts[1..], k - 1);
      assert texts[..k] == [texts[0]] + texts[1..][..k - 1] && texts[k..] == texts[1..][k - 1..];
      FlatCons(texts[0], texts[1..][..k - 1]);
    } else {
      assert texts[0..] == texts;
    }
  }

  lemma {:induction false} LaterLines(text: string, k: nat, prefix: string)
    requires NewlineTerminated(text) && k <= |CompleteLines(text)| && prefix != "" && !LineStartsWith(text, prefix)
    ensures var left := Flat(CompleteLines(text)[k..]); NewlineTerminated(left) && !LineStartsWith(left, prefix)
    decreases k
  {
    TailOfText(text, prefix);
    LinesAndTailAreText(text);
    if k == 0 {
      assert CompleteLines(text)[0..] == CompleteLines(text) && Flat(CompleteLines(text)) == text;
    } else {
      match NextLine(text)
      case None => NoLine(text);
      case Some((line, rest)) =>
        FirstLine(line, rest);
        TerminatedAfterLine(line, rest);
        assert !LineStartsWith(rest, prefix);
        LaterLines(rest, k - 1, prefix);
        assert CompleteLines(text)[k..] == CompleteLines(rest)[k - 1..];
    }
  }

  /** A later command takes the unread lines and the delimiter line of an earlier one for output. */
  lemma ReadLeftover(left: string, c: Command, delim: string, following: string, output: string, code: int, rest: string)
    requires GoodDelimiter(c.delim) && GoodDelimiter(delim) && c.delim != delim
    requires NewlineTerminated(left) && !LineStartsWith(left, delim + "=")
    requires ReadOutput(delim, following) == Result(output, code, rest)
    ensures var report := c.delim + "=" + Itoa(c.code);
            var r := ReadOutput(delim, left + (report + ("\n" + following)));
            r == Result(left + c.delim + "=" + Itoa(c.code) + "\n" + output, code, rest) && r.output != output
  {
    var report := c.delim + "=" + Itoa(c.code);
    ReportIsOneLine(c.delim, c.code);
    DelimitersDiffer(c.delim, delim, Itoa(c.code));
    ReadTerminated(delim, left, report + ("\n" + following));
    hide ReadOutput, Itoa, LineStartsWith, NewlineTerminated, GoodDelimiter;
    ReadFirst(delim, report, following);
    PrependTwice(left, report + "\n", ReadOutput(delim, following));
    ReportAfter(left, c.delim, Itoa(c.code), output);
  }

  lemma ReadTerminated(delim: string, text: string, more: string)
    requires NewlineTerminated(text) && !LineStartsWith(text, delim + "=")
    ensures ReadOutput(delim, text + more) == Prepend(text, ReadOutput(delim, more))
  {
    TailOfText(text, delim + "=");
    LinesAndTailAreText(text);
    ReadPast(delim, text, more);
    EmptyLeft(more);
    hide ReadOutput, Flat, CompleteLines, LineStartsWith, NewlineTerminated;
    assert Flat(CompleteLines(text)) + "" == Flat(CompleteLines(text));
  }

  lemma ReportAfter(left: string, delim: string, code: string, output: string)
    ensures left + (delim + "=" + code + "\n") + output == left + delim + "=" + code + "\n" + output
    ensures left + (delim + "=" + code + "\n") + output != output
  {
    assert |left + (delim + "=" + code + "\n") + output| > |output|;
  }

  lemma DelimitersDiffer(a: string, b: string, code: string)
    requires GoodDelimiter(a) && GoodDelimiter(b) && a != b
    ensures !(b + "=" <= a + "=" + code)
  {
    var line := a + "=" + code;
    if |b| < |a| {
      assert line[|b|] == a[|b|] && a[|b|] in a && (b + "=")[|b|] == '=';
    } else if |a| < |b| {
      assert line[|a|] == '=' && (b + "=")[|a|] == b[|a|] && b[|a|] in b;
    } else {
      assert line[..|a|] == a && (b + "=")[..|b|] == b;
    }
  }

  // ---- The reading loops ----------------------------------------------------------------------------

  class ShellSession {
    /** What bash has written and nobody has read yet. */
    var reader: string
    var lastCommand: string

    constructor (reader: string)
      ensures this.reader == reader && lastCommand == ""
    {
      this.reader, lastCommand := reader, "";
    }

    /** A line off the reader; without a newline the rest is read, too, and dropped. */
    method ReadString() returns (line: Option<string>)
      modifies this`reader
      ensures match NextLine(old(reader))
              case None => line == None && reader == ""
              case Some((text, rest)) => line == Some(text) && reader == rest
    {
      match NextLine(reader) {
        case None =>
          reader := "";
          return None;
        case Some((text, rest)) =>
          reader := rest;
          return Some(text);
      }
    }

    method Exec(command: string, delim: string) returns (output: string, code: int)
      modifies this
      ensures Result(output, code, reader) == ReadOutput(delim, old(reader))
      ensures lastCommand == ""
    {
      hide NextLine, CodeOf;
      lastCommand := command;
      output := "";
      PrependTwice("", "", ReadOutput(delim, reader));
      while true
        invariant Prepend(output, ReadOutput(delim, reader)) == ReadOutput(delim, old(reader))
        decreases |reader|
      {
        var next := ReadString();
        match next {
          case None =>
            code, lastCommand := -1, "";
            return;
          case Some(line) =>
            if delim + "=" <= line {
              code, lastCommand := CodeOf(line[|delim| + 1..]), "";
              return;
            }
            PrependTwice(output, line + "\n", ReadOutput(delim, reader));
            output := output + (line + "\n");
        }
      }
    }

    /** The streaming form, for a client's stream that accepts so many messages. */
    method ExecStream(command: string, delim: string, accepts: nat) returns (chunks: seq<string>, code: Option<int>)
      modifies this
      ensures Sent(chunks, code, reader) == Streamed(delim, old(reader), accepts)
      ensures lastCommand == ""
    {
      hide NextLine, CodeOf, LastMessage;
      lastCommand := command;
      chunks, code := [], None;
      var left := accepts;
      while true
        invariant SendAll(chunks, Streamed(delim, reader, left)) == Streamed(delim, old(reader), accepts)
        invariant code == None
        decreases |reader|
      {
        var next := ReadString();
        match next {
          case None =>
            code, lastCommand := LastMessage(-1, left), "";
            return;
          case Some(line) =>
            if delim + "=" <= line {
              code, lastCommand := LastMessage(CodeOf(line[|delim| + 1..]), left), "";
              return;
            }
            if left == 0 {
              lastCommand := "";
              return;
            }
            left := left - 1;
            Assoc(chunks, [line + "\n"], Streamed(delim, reader, left).chunks);
            chunks := chunks + [line + "\n"];
        }
      }
    }
  }

  ghost function SendAll(chunks: seq<string>, s: Sent): Sent {
    Sent(chunks + s.chunks, s.code, s.rest)
  }

  lemma PrependTwice(a: string, b: string, r: Result)
    ensures Prepend(a, Prepend(b, r)) == Prepend(a + b, r)
    ensures Prepend("", r) == r
  {
    Assoc(a, b, r.output);
    EmptyLeft(r.output);
  }

  // ---- Quoting --------------------------------------------------------------------------------------

  /** Every single quote becomes: close, an escaped quote, open. */
  function EscapeQuotes(s: string): string {
    if s == "" then "" else (if s[0] == '\'' then "'\\''" else [s[0]]) + EscapeQuotes(s[1..])
  }

  function BashQuote(s: string): string {
    "'" + EscapeQuotes(s) + "'"
  }

  datatype Mode = Unquoted | Escaped | SingleQuoted

  /** A word and the text behind it; text that ends inside a quote; or text this model of the shell stops at. */
  datatype Token = Word(word: string, rest: string) | Unclosed | Beyond

  /** Blanks, newlines and operator characters end a word. */
  predicate EndsWord(c: char) {
    c == ' ' || c == '\t' || c == '\n' || c == ';' || c == '&' || c == '|' || c == '<' || c == '>' || c == '(' || c == ')'
  }

  /** Double quotes and expansions. */
  predicate IsExpansion(c: char) {
    c == '"' || c == '$' || c == '`'
  }

  /** Reading a word: sections 2.2.1 and 2.2.2 for the quoting, 2.3 for where the word ends. */
  function ReadWord(text: string, mode: Mode, word: string): Token
    decreases |text|
  {
    if text == "" then (if mode == Unquoted then Word(word, "") else Unclosed)
    else
      var c, more := text[0], text[1..];
      match mode
      case SingleQuoted => if c == '\'' then ReadWord(more, Unquoted, word) else ReadWord(more, SingleQuoted, word + [c])
      case Escaped => ReadWord(more, Unquoted, if c == '\n' then word else word + [c])
      case Unquoted =>
        if c == '\'' then ReadWord(more, SingleQuoted, word)
        else if c == '\\' then ReadWord(more, Escaped, word)
        else if EndsWord(c) then Word(word, text)
        else if IsExpansion(c) then Beyond
        else ReadWord(more, Unquoted, word + [c])
  }

  lemma {:induction false} ReadEscaped(s: string, follow: string, word: string)
    ensures ReadWord(EscapeQuotes(s) + ("'" + follow), SingleQuoted, word) == ReadWord(follow, Unquoted, word + s)
    decreases |s|
  {
    var text := EscapeQuotes(s) + ("'" + follow);
    if s == "" {
      assert text == "'" + follow && text[1..] == follow && word + s == word;
    } else {
      var more := EscapeQuotes(s[1..]) + ("'" + follow);
      ReadEscaped(s[1..], follow, word + [s[0]]);
      assert (word + [s[0]]) + s[1..] == word + s;
      if s[0] == '\'' {
        assert text == "'\\''" + more;
        ReadQuoteEscape(more, word);
      } else {
        assert text == [s[0]] + more && text[1..] == more;
      }
    }
  }

  lemma ReadQuoteEscape(more: string, word: string)
    ensures ReadWord("'\\''" + more, SingleQuoted, word) == ReadWord(more, SingleQuoted, word + "'")
  {
    var a, b, c := "\\''" + more, "''" + more, "'" + more;
    assert ("'\\''" + more)[1..] == a && a[1..] == b && b[1..] == c && c[1..] == more;
    assert ReadWord(c, Unquoted, word + "'") == ReadWord(more, SingleQuoted, word + "'");
    assert ReadWord(b, Escaped, word) == ReadWord(c, Unquoted, word + "'");
    assert ReadWord(a, Unquoted, word) == ReadWord(b, Escaped, word);
  }

  /**
   * Wherever it stands in a word, a quoted string adds exactly the string, leaves the shell unquoted again, and
   * leaves the text behind it untouched.
   */
  lemma QuotedReadsBack(s: string, follow: string, word: string)
    ensures ReadWord(BashQuote(s) + follow, Unquoted, word) == ReadWord(follow, Unquoted, word + s)
  {
    var text, inner := BashQuote(s) + follow, EscapeQuotes(s) + ("'" + follow);
    assert text == "'" + inner && text[1..] == inner;
    ReadEscaped(s, follow, word);
  }

  /** On its own it is one word. */
  lemma QuotedIsOneWord(s: string, follow: string)
    requires follow == "" || follow[0] in {' ', '\t', '\n', ';', '&', '|', '<', '>', '(', ')'}
    ensures ReadWord(BashQuote(s) + follow, Unquoted, "") == Word(s, follow)
  {
    QuotedReadsBack(s, follow, "");
    assert "" + s == s;
  }

  /** The token rules: quotes must be closed, a backslash keeps the next character but drops a newline, blanks separate. */
  lemma TokenRules(s: string, c: char, more: string, word: string)
    requires '\'' !in s
    ensures ReadWord("'" + s, Unquoted, word) == Unclosed && ReadWord("\\", Unquoted, word) == Unclosed
    ensures ReadWord("\\" + ([c] + more), Unquoted, word) == ReadWord(more, Unquoted, if c == '\n' then word else word + [c])
    ensures c in {'"', '$', '`'} ==> ReadWord([c] + more, Unquoted, word) == Beyond
    ensures c in {' ', '\t'} ==> ReadCommand([c] + more, [word]) == ReadCommand(more, [word])
    ensures c in {'\n', ';'} ==> ReadCommand([c] + more, [word]) == Some(([word], more))
  {
    assert ("'" + s)[1..] == s && ("\\" + ([c] + more))[1..] == [c] + more && ([c] + more)[1..] == more && "\\"[1..] == "";
    assert ReadWord("\\" + ([c] + more), Unquoted, word) == ReadWord([c] + more, Escaped, word);
    NotClosed(s, word);
  }

  lemma {:induction false} NotClosed(s: string, word: string)
    requires '\'' !in s
    ensures ReadWord(s, SingleQuoted, word) == Unclosed
    decreases |s|
  {
    if s != "" { NotClosed(s[1..], word + [s[0]]); }
  }

  /** Characters that stand for themselves outside quotes. */
  predicate IsPlain(c: char) {
    c != '\'' && c != '\\' && !EndsWord(c) && !IsExpansion(c)
  }

  predicate AllPlain(s: string) {
    forall i :: 0 <= i < |s| ==> IsPlain(s[i])
  }

  lemma {:induction false} ReadPlain(plain: string, follow: string, word: string)
    requires AllPlain(plain)
    ensures ReadWord(plain + follow, Unquoted, word) == ReadWord(follow, Unquoted, word + plain)
    decreases |plain|
  {
    if plain == "" {
      assert plain + follow == follow && word + plain == word;
    } else {
      assert (plain + follow)[1..] == plain[1..] + follow;
      ReadPlain(plain[1..], follow, word + [plain[0]]);
      assert (word + [plain[0]]) + plain[1..] == word + plain;
    }
  }

  /** A simple command: the words up to a newline or semicolon, and the text behind it. */
  function ReadCommand(text: string, words: seq<string>): Option<(seq<string>, string)>
    decreases |text|
  {
    if text == "" then Some((words, ""))
    else if text[0] == ' ' || text[0] == '\t' then ReadCommand(text[1..], words)
    else if text[0] == '\n' || text[0] == ';' then Some((words, text[1..]))
    else
      match ReadWord(text, Unquoted, "")
      case Word(word, rest) => if |rest| < |text| then ReadCommand(rest, words + [word]) else None
      case Unclosed => None
      case Beyond => None
  }

  /** The first word of a command is plain, and a blank follows it. */
  lemma ReadFirstWord(plain: string, more: string)
    requires plain != "" && AllPlain(plain)
    ensures ReadCommand(plain + (" " + more), []) == ReadCommand(more, [plain])
  {
    ReadPlain(plain, " " + more, "");
    assert "" + plain == plain && (" " + more)[1..] == more && [] + [plain] == [plain];
    assert IsPlain((plain + (" " + more))[0]);
    assert ReadWord(plain + (" " + more), Unquoted, "") == Word(plain, " " + more);
    hide ReadWord, AllPlain;
    assert ReadCommand(" " + more, [plain]) == ReadCommand(more, [plain]);
  }

  /** The last word of a command, and the character that ends the command. */
  lemma ReadLastWord(text: string, word: string, end: char, more: string, words: seq<string>)
    requires text != "" && (text[0] == '\'' || IsPlain(text[0])) && (end == '\n' || end == ';')
    requires ReadWord(text, Unquoted, "") == Word(word, [end] + more) && |more| + 1 < |text|
    ensures ReadCommand(text, words) == Some((words + [word], more))
  {
    hide ReadWord;
    assert ([end] + more)[1..] == more;
    assert ReadCommand([end] + more, words + [word]) == Some((words + [word], more));
  }

  /** `cd` to any directory, whatever characters it is made of, is the command it was meant to be. */
  lemma CdIsOneCommand(dir: string, more: string)
    ensures ReadCommand("cd " + BashQuote(dir) + "\n" + more, []) == Some((["cd", dir], more))
  {
    var quoted := BashQuote(dir) + ("\n" + more);
    assert "cd " + BashQuote(dir) + "\n" + more == "cd" + (" " + quoted);
    QuotedIsOneWord(dir, "\n" + more);
    hide ReadWord, ReadCommand, EscapeQuotes;
    assert ['\n'] + more == "\n" + more && ["cd"] + [dir] == ["cd", dir];
    ReadFirstWord("cd", quoted);
    ReadLastWord(quoted, dir, '\n', more, ["cd"]);
  }

  /** An exported variable gets exactly its value. */
  lemma ExportIsOneCommand(name: string, value: string, more: string)
    requires name != "" && AllPlain(name)
    ensures ReadCommand("export " + name + "=" + BashQuote(value) + "; " + more, [])
              == Some((["export", name + "=" + value], " " + more))
  {
    var quoted := BashQuote(value) + ("; " + more);
    var binding := (name + "=") + quoted;
    assert "export " + name + "=" + BashQuote(value) + "; " + more == "export" + (" " + binding);
    BindingIsOneWord(name, value, "; " + more);
    hide ReadWord, ReadCommand, EscapeQuotes;
    assert [';'] + (" " + more) == "; " + more && ["export"] + [name + "=" + value] == ["export", name + "=" + value];
    ReadFirstWord("export", binding);
    assert binding[0] == name[0] && IsPlain(name[0]);
    ReadLastWord(binding, name + "=" + value, ';', " " + more, ["export"]);
  }

  lemma BindingIsOneWord(name: string, value: string, follow: string)
    requires AllPlain(name) && follow != "" && EndsWord(follow[0])
    ensures ReadWord((name + "=") + (BashQuote(value) + follow), Unquoted, "") == Word(name + "=" + value, follow)
  {
    assert AllPlain(name + "=");
    ReadPlain(name + "=", BashQuote(value) + follow, "");
    assert "" + (name + "=") == name + "=";
    QuotedReadsBack(value, follow, name + "=");
  }

  // ---- The whole command line ------------------------------------------------------------------------

  datatype Variable = Variable(name: string, value: string)

  function Exports(variables: seq<Variable>): string {
    if variables == [] then ""
    else "export " + variables[0].name + "=" + BashQuote(variables[0].value) + "; " + Exports(variables[1..])
  }

  /** What Exec writes to the shell: the directory, the variables, the command, and the line that reports its code. */
  function CommandLine(dir: string, variables: seq<Variable>, command: string, delim: string): string {
    (if dir == "" then "" else "cd " + BashQuote(dir) + "\n") + (Exports(variables) + CommandAndReport(command, delim))
  }

  function CommandAndReport(command: string, delim: string): string {
    command + " 2>&1\necho \"" + delim + "=$?\"\n"
  }

  /** The first n commands of a text, and the text behind them. */
  function ReadCommands(text: string, n: nat): Option<(seq<seq<string>>, string)>
    decreases n
  {
    if n == 0 then Some(([], text))
    else
      match ReadCommand(text, [])
      case None => None
      case Some((words, rest)) =>
        match ReadCommands(rest, n - 1)
        case None => None
        case Some((more, left)) => Some(([words] + more, left))
  }

  function ExportWords(variables: seq<Variable>): seq<seq<string>> {
    if variables == [] then []
    else [["export", variables[0].name + "=" + variables[0].value]] + ExportWords(variables[1..])
  }

  predicate IsBlank(lead: string) {
    lead == "" || lead == " "
  }

  lemma {:induction false} ExportsAreCommands(lead: string, variables: seq<Variable>, more: string)
    requires IsBlank(lead) && forall v :: v in variables ==> v.name != "" && AllPlain(v.name)
    ensures ReadCommands(lead + (Exports(variables) + more), |variables|)
            == Some((ExportWords(variables), (if variables == [] then lead else " ") + more))
    decreases |variables|
  {
    if variables == [] {
      EmptyLeft(more);
    } else {
      var v, rest := variables[0], Exports(variables[1..]) + more;
      assert v in variables;
      ExportsAreCommands(" ", variables[1..], more);
      ExportIsOneCommand(v.name, v.value, rest);
      var one := "export " + v.name + "=" + BashQuote(v.value) + "; ";
      assert Exports(variables) == one + Exports(variables[1..]);
      hide ReadCommand, BashQuote, Exports, AllPlain;
      Assoc(one, Exports(variables[1..]), more);
      SkipBlank(lead, one + rest);
      OneMoreCommand(lead + (one + rest), ["export", v.name + "=" + v.value], " " + rest, |variables| - 1,
                     ExportWords(variables[1..]), " " + more);
    }
  }

  lemma SkipBlank(lead: string, text: string)
    requires IsBlank(lead)
    ensures ReadCommand(lead + text, []) == ReadCommand(text, [])
  {
    EmptyLeft(text);
    if lead == " " { assert (lead + text)[1..] == text; }
  }

  /**
   * The shell reads the line Exec writes as: the directory change, if any, one export for each variable, in order and
   * with exactly its value, and then, untouched, the command and the report.
   */
  lemma LineIsItsCommands(dir: string, variables: seq<Variable>, command: string, delim: string)
    requires forall v :: v in variables ==> v.name != "" && AllPlain(v.name)
    ensures var cd: seq<seq<string>> := if dir == "" then [] else [["cd", dir]];
            ReadCommands(CommandLine(dir, variables, command, delim), |cd| + |variables|)
            == Some((cd + ExportWords(variables), (if variables == [] then "" else " ") + CommandAndReport(command, delim)))
  {
    var more := CommandAndReport(command, delim);
    var text, words := Exports(variables) + more, ExportWords(variables);
    ExportsAreCommands("", variables, more);
    EmptyLeft(text);
    EmptyLeft(words);
    if dir != "" {
      CdIsOneCommand(dir, text);
      assert CommandLine(dir, variables, command, delim) == ("cd " + BashQuote(dir) + "\n") + text;
      hide ReadCommand, BashQuote, Exports, CommandAndReport, ExportWords, CommandLine, AllPlain;
      var left := (if variables == [] then "" else " ") + more;
      OneMoreCommand("cd " + BashQuote(dir) + "\n" + text, ["cd", dir], text, |variables|, words, left);
    }
  }

  lemma OneMoreCommand(text: string, words: seq<string>, rest: string, n: nat, more: seq<seq<string>>, left: string)
    requires ReadCommand(text, []) == Some((words, rest)) && ReadCommands(rest, n) == Some((more, left))
    ensures ReadCommands(text, 1 + n) == Some(([words] + more, left))
  {
    hide ReadCommand;
  }

  // ---- What the report prints ------------------------------------------------------------------------

  /** Reading inside double quotes, section 2.2.3, where the only expansion is the code of the last command. */
  function ReadDoubleQuoted(text: string, code: nat, word: string): Token
    decreases |text|
  {
    if text == "" then Unclosed
    else if text[0] == '"' then Word(word, text[1..])
    else if text[0] == '\\' || text[0] == '`' then Beyond
    else if text[0] == '$' then
      (if |text| > 1 && text[1] == '?' then ReadDoubleQuoted(text[2..], code, word + Itoa(code)) else Beyond)
    else ReadDoubleQuoted(text[1..], code, word + [text[0]])
  }

  /** Everything else that is special there is beyond this model, and the quote must be closed. */
  lemma DoubleQuoteRules(c: char, more: string, code: nat, word: string)
    ensures c in {'\\', '`'} ==> ReadDoubleQuoted([c] + more, code, word) == Beyond
    ensures more == "" || more[0] != '?' ==> ReadDoubleQuoted("$" + more, code, word) == Beyond
    ensures ReadDoubleQuoted("\"" + more, code, word) == Word(word, more) && ReadDoubleQuoted("", code, word) == Unclosed
  {
    assert ([c] + more)[1..] == more && ("\"" + more)[1..] == more && ("$" + more)[1..] == more;
  }

  /** Characters that stand for themselves inside double quotes. */
  predicate IsLiteral(s: string) {
    forall i :: 0 <= i < |s| ==> s[i] != '"' && s[i] != '\\' && s[i] != '`' && s[i] != '$'
  }

  lemma {:induction false} ReadLiteral(plain: string, more: string, code: nat, word: string)
    requires IsLiteral(plain)
    ensures ReadDoubleQuoted(plain + more, code, word) == ReadDoubleQuoted(more, code, word + plain)
    decreases |plain|
  {
    hide Itoa;
    if plain == "" {
      assert plain + more == more && word + plain == word;
    } else {
      assert (plain + more)[1..] == plain[1..] + more;
      ReadLiteral(plain[1..], more, code, word + [plain[0]]);
      assert (word + [plain[0]]) + plain[1..] == word + plain;
    }
  }

  /** What echo prints for one word. */
  function Echoed(word: string): string {
    word + "\n"
  }

  /**
   * The report behind a command: after `echo` comes one double-quoted word, which reads as the delimiter, an equals sign
   * and the command's code; echoed behind the command's output it is the line the session looks for.
   */
  lemma ReportIsTheDelimiterLine(command: string, delim: string, output: string, code: nat, rest: string)
    requires IsLiteral(delim)
    ensures var report := "\"" + delim + "=$?\"\n";
            && CommandAndReport(command, delim) == command + " 2>&1\n" + "echo " + report
            && ReadDoubleQuoted(report[1..], code, "") == Word(delim + "=" + Itoa(code), "\n")
            && Framed(output, delim, code, rest) == output + Echoed(delim + "=" + Itoa(code)) + rest
  {
    hide Itoa;
    var report, tail := "\"" + delim + "=$?\"\n", "=$?\"\n";
    assert report[1..] == delim + tail;
    ReadLiteral(delim, tail, code, "");
    assert "" + delim == delim;
    ReadLiteral("=", "$?\"\n", code, delim);
    assert tail == "=" + "$?\"\n";
    var expand := "$?\"\n";
    assert expand[2..] == "\"\n" && expand[2..][1..] == "\n";
    assert ReadDoubleQuoted(expand, code, delim + "=") == ReadDoubleQuoted(expand[2..], code, (delim + "=") + Itoa(code));
    FramedEchoes(output, delim + "=" + Itoa(code), rest);
    CommandText(command, delim);
  }

  lemma FramedEchoes(output: string, report: string, rest: string)
    ensures output + report + "\n" + rest == output + Echoed(report) + rest
  {
  }

  lemma CommandText(command: string, delim: string)
    ensures CommandAndReport(command, delim) == command + " 2>&1\n" + "echo " + ("\"" + delim + "=$?\"\n")
  {
    assert " 2>&1\necho \"" == " 2>&1\n" + "echo " + "\"";
  }
}
