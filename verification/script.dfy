/**
 * The parser of `.dsh` scripts. Two separate scanners run over the same quoted text: one collects the value, the
 * other, started two characters in, looks for the end of the value.
 */
module Script {
  import Seqs
  import opened Text

  // ---- Steps and results --------------------------------------------------------------

  datatype Step =
    | Exec(rawLine: string, command: string)
    | Confirm(rawLine: string, message: string, varName: string)
    | Input(rawLine: string, message: string, varName: string)
    | Choose(rawLine: string, message: string, options: seq<string>, defaultIdx: nat, varName: string)

  datatype Error = ExpectedQuoted | Unclosed | NoOptions | Malformed | UnknownDirective

  /** Slicing past the end of a Go string panics: that is Crash. */
  datatype Outcome<T> = Ok(value: T) | Err(error: Error) | Crash

  // ---- Quoted strings -----------------------------------------------------------------------

  /** The value scan, over the text after the opening quote. */
  function Value(t: string): Outcome<string> {
    if t == "" then Err(Unclosed)
    else if t[0] == '"' then Ok("")
    else if t[0] == '\\' && |t| > 1 then Prefixed([t[1]], Value(t[2..]))
    else Prefixed([t[0]], Value(t[1..]))
  }

  function Prefixed(read: string, r: Outcome<string>): Outcome<string> {
    match r case Ok(v) => Ok(read + v) case _ => r
  }

  /** extractQuotedString: what follows the closing quote is ignored. */
  function QuotedString(s: string): Outcome<string> {
    var t := Trim(s);
    if |t| < 2 || t[0] != '"' then Err(ExpectedQuoted) else Value(t[1..])
  }

  /** The end scan: what is left of t after its end, or Crash when a final backslash takes it past the end. */
  function Rest(t: string): Outcome<string> {
    if t == "" then Ok("")
    else if t[0] == '"' then (if |t| > 1 && t[1] == '"' then Rest(t[1..]) else Ok(t[1..]))
    else if t[0] == '\\' then (if |t| == 1 then Crash else Rest(t[2..]))
    else Rest(t[1..])
  }

  predicate NotQuote(c: char) { c != '"' }

  /** extractFirstQuoted: the value, and the trimmed text after it. The end scan starts two past the first quote. */
  function FirstQuoted(s: string): Outcome<(string, string)> {
    var t := Trim(s);
    FirstQuotedAt(t, Span(NotQuote, t))
  }

  function FirstQuotedAt(t: string, idx: nat): Outcome<(string, string)>
    requires idx <= |t|
  {
    if idx == |t| then Err(ExpectedQuoted)
    else
      match QuotedString(t[idx..])
      case Err(e) => Err(e)
      case Crash => Crash
      case Ok(value) => WithRest(value, Rest(Behind(t, idx)))
  }

  function Behind(t: string, idx: nat): string {
    if idx + 2 <= |t| then t[idx + 2..] else ""
  }

  function WithRest(value: string, rest: Outcome<string>): Outcome<(string, string)> {
    match rest
    case Ok(r) => Ok((value, Trim(r)))
    case Err(e) => Err(e)
    case Crash => Crash
  }

  // ---- Directives -----------------------------------------------------------------------------

  /** Whether the lower-cased text starts with "as ". */
  predicate StartsAs(s: string) {
    |s| >= 3 && (s[0] == 'a' || s[0] == 'A') && (s[1] == 's' || s[1] == 'S') && s[2] == ' '
  }

  /** The options and the variable name after the prompt. */
  function ChooseOptions(rest: string): (r: Outcome<(seq<string>, string)>)
    decreases |rest|
  {
    if rest == "" then Ok(([], "_choose"))
    else if StartsAs(rest) then
      var name := Trim(rest[3..]);
      Ok(([], if name == "" then "_choose" else name))
    else
      match FirstQuoted(rest)
      case Err(_) => Ok(([], "_choose"))
      case Crash => Crash
      case Ok((value, more)) =>
        FirstQuotedShrinks(rest);
        AddOptions([value], ChooseOptions(Trim(more)))
  }

  function AddOptions(read: seq<string>, r: Outcome<(seq<string>, string)>): Outcome<(seq<string>, string)> {
    match r case Ok((options, name)) => Ok((read + options, name)) case _ => r
  }

  function ChooseArgs(args: string): Outcome<(string, seq<string>, string)> {
    match FirstQuoted(Trim(args))
    case Err(e) => Err(e)
    case Crash => Crash
    case Ok((prompt, rest)) =>
      match ChooseOptions(Trim(rest))
      case Ok((options, name)) => Ok((prompt, options, name))
      case Err(e) => Err(e)
      case Crash => Crash
  }

  predicate IsWord(c: char) { 'a' <= c <= 'z' || 'A' <= c <= 'Z' || '0' <= c <= '9' || c == '_' }

  predicate IsPatternSpace(c: char) { c == '\t' || c == '\n' || c == '\r' || c == ' ' || c == '\U{0C}' }

  /** The word and the arguments of a line `@word args`. */
  function MatchDirective(line: string): Outcome<(string, string)> {
    if line == "" || line[0] != '@' then Err(Malformed)
    else
      var w := Span(IsWord, line[1..]);
      var after := line[1 + w..];
      var b := Span(IsPatternSpace, after);
      var args := after[b..];
      if w == 0 || b == 0 then Err(Malformed) else Ok((line[1..1 + w], args[..Span(NotNewline, args)]))
  }

  function InputName(rest: string): string {
    var r := Trim(rest);
    if rest != "" && StartsAs(r) then Trim(r[3..]) else "_input"
  }

  /** The step a directive stands for. */
  function ParseArgs(line: string, directive: string, args: string): Outcome<Step> {
    if directive == "confirm" then
      match QuotedString(args)
      case Err(e) => Err(e)
      case Crash => Crash
      case Ok(message) => Ok(Confirm(line, message, "_confirm"))
    else if directive == "input" then
      match FirstQuoted(args)
      case Err(e) => Err(e)
      case Crash => Crash
      case Ok((message, rest)) => Ok(Input(line, message, InputName(rest)))
    else if directive == "choose" then
      match ChooseArgs(args)
      case Err(e) => Err(e)
      case Crash => Crash
      case Ok((message, options, name)) =>
        if options == [] then Err(NoOptions) else Ok(Choose(line, message, options, 0, name))
    else Err(UnknownDirective)
  }

  function ParseDirective(line: string): Outcome<Step> {
    match MatchDirective(line)
    case Err(e) => Err(e)
    case Crash => Crash
    case Ok((directive, args)) => ParseArgs(line, directive, args)
  }

  /** What one line of a script adds to the steps. */
  function ParseLine(raw: string): Outcome<seq<Step>> {
    var line := Trim(raw);
    if line == "" || line[0] == '#' then Ok([])
    else if line[0] != '@' then Ok([Exec(line, line)])
    else OneStep(ParseDirective(line))
  }

  function OneStep(r: Outcome<Step>): Outcome<seq<Step>> {
    match r case Ok(step) => Ok([step]) case Err(e) => Err(e) case Crash => Crash
  }

  /** The steps of all lines, or the number of the first bad line, counted from `lineNum`. */
  datatype Parsed = Steps(steps: seq<Step>) | BadLine(lineNum: nat, error: Error) | Panic

  function ParseLines(lines: seq<string>, lineNum: nat): Parsed {
    if lines == [] then Steps([])
    else
      match ParseLine(lines[0])
      case Err(e) => BadLine(lineNum, e)
      case Crash => Panic
      case Ok(here) => AddSteps(here, ParseLines(lines[1..], lineNum + 1))
  }

  function AddSteps(read: seq<Step>, r: Parsed): Parsed {
    match r case Steps(steps) => Steps(read + steps) case _ => r
  }

  // ---- The scanners agree or not ----------------------------------------------------------------

  lemma {:induction false} RestIsSuffix(t: string)
    ensures Rest(t).Ok? ==> |Rest(t).value| <= |t| && Rest(t).value == t[|t| - |Rest(t).value|..]
    ensures Rest(t).Ok? && t != "" ==> |Rest(t).value| < |t|
    ensures !Rest(t).Err?
    decreases |t|
  {
    if t == "" {
    } else if t[0] == '"' {
      if |t| > 1 && t[1] == '"' { RestIsSuffix(t[1..]); }
    } else if t[0] == '\\' {
      if |t| > 1 { RestIsSuffix(t[2..]); }
    } else {
      RestIsSuffix(t[1..]);
    }
  }

  lemma FirstQuotedShrinks(s: string)
    ensures FirstQuoted(s).Ok? ==> |FirstQuoted(s).value.1| < |s|
  {
    var t := Trim(s);
    FirstQuotedAtShrinks(t, Span(NotQuote, t));
  }

  lemma FirstQuotedAtShrinks(t: string, idx: nat)
    requires idx <= |t|
    ensures FirstQuotedAt(t, idx).Ok? ==> |FirstQuotedAt(t, idx).value.1| < |t|
  {
    if idx < |t| {
      RestIsSuffix(Behind(t, idx));
      var value := QuotedString(t[idx..]);
      if value.Ok? { RestShorter(value.value, Rest(Behind(t, idx))); }
    }
  }

  lemma RestShorter(value: string, rest: Outcome<string>)
    ensures WithRest(value, rest).Ok? ==> rest.Ok? && |WithRest(value, rest).value.1| <= |rest.value|
  {
  }

  predicate Special(c: char) { c == '"' || c == '\\' }

  /** Escaping of the documented syntax. */
  function Escape(v: string): string {
    if v == "" then ""
    else (if Special(v[0]) then ['\\', v[0]] else [v[0]]) + Escape(v[1..])
  }

  function Quote(v: string): string {
    "\"" + Escape(v) + "\""
  }

  lemma {:induction false} ValueOfEscaped(v: string, follow: string)
    ensures Value(Escape(v) + "\"" + follow) == Ok(v)
    decreases |v|
  {
    var t := Escape(v) + "\"" + follow;
    if v == "" {
      assert t == "\"" + follow;
    } else {
      ValueOfEscaped(v[1..], follow);
      var more := Escape(v[1..]) + "\"" + follow;
      if Special(v[0]) {
        assert t == ['\\', v[0]] + more && t[2..] == more;
      } else {
        assert t == [v[0]] + more && t[1..] == more;
      }
      assert [v[0]] + v[1..] == v;
    }
  }

  /** Right after a closing quote the end scan stops, unless another quote follows at once. */
  function AfterClose(follow: string): Outcome<string> {
    if follow != "" && follow[0] == '"' then Rest(follow) else Ok(follow)
  }

  lemma {:induction false} RestAligned(v: string, follow: string)
    ensures Rest(Escape(v) + "\"" + follow) == AfterClose(follow)
    decreases |v|
  {
    var t := Escape(v) + "\"" + follow;
    if v == "" {
      assert t == "\"" + follow && t[1..] == follow;
    } else {
      RestAligned(v[1..], follow);
      var more := Escape(v[1..]) + "\"" + follow;
      if Special(v[0]) {
        assert t == ['\\', v[0]] + more && t[2..] == more;
      } else {
        assert t == [v[0]] + more && t[1..] == more;
      }
    }
  }

  function LeadingBackslashes(v: string): (k: nat)
    ensures k <= |v|
  {
    if v != "" && v[0] == '\\' then 1 + LeadingBackslashes(v[1..]) else 0
  }

  lemma RestOfBackslash(more: string)
    requires more != ""
    ensures Rest(("\\\\" + more)[1..]) == Rest(more[1..])
  {
    assert ("\\\\" + more)[1..] == "\\" + more && ("\\" + more)[2..] == more[1..];
  }

  lemma RestOfQuote(more: string)
    ensures Rest(("\\\"" + more)[1..]) == AfterClose(more)
  {
    assert ("\\\"" + more)[1..] == "\"" + more && ("\"" + more)[1..] == more;
  }

  /** The escaped value, its closing quote and what follows, by the first character of the value. */
  lemma EscapedFirst(v: string, follow: string)
    requires v != ""
    ensures Escape(v) + "\"" + follow
            == (if Special(v[0]) then ['\\', v[0]] else [v[0]]) + (Escape(v[1..]) + "\"" + follow)
  {
    var first := if Special(v[0]) then ['\\', v[0]] else [v[0]];
    assert Escape(v) == first + Escape(v[1..]);
    hide Escape;
  }

  lemma EscapedStart(v: string, follow: string)
    ensures var t := Escape(v) + "\"" + follow;
            t != "" && (t[0] == '"' <==> v == "") && (v == "" ==> t[1..] == follow)
  {
    var t := Escape(v) + "\"" + follow;
    if v == "" { assert t == "\"" + follow; }
  }

  /** Where the end scan of a printed value really ends: it starts one character into the escaped value. */
  lemma {:induction false} RestSkewed(v: string, follow: string)
    ensures var k := LeadingBackslashes(v);
            Rest((Escape(v) + "\"" + follow)[1..]) ==
              if k == |v| then Rest(follow)
              else if v[k] == '"' && k + 1 < |v| then Ok(Escape(v[k + 1..]) + "\"" + follow)
              else AfterClose(follow)
    decreases |v|
  {
    EscapedStart(v, follow);
    if v != "" {
      var more := Escape(v[1..]) + "\"" + follow;
      EscapedFirst(v, follow);
      EscapedStart(v[1..], follow);
      var k := LeadingBackslashes(v[1..]);
      assert v[0] == '\\' ==> LeadingBackslashes(v) == k + 1;
      assert v[0] != '\\' ==> LeadingBackslashes(v) == 0;
      hide Rest, Escape, LeadingBackslashes;
      if v[0] == '\\' {
        RestSkewed(v[1..], follow);
        RestOfBackslash(more);
        if k < |v| - 1 { assert v[k + 1] == v[1..][k] && v[1..][k + 1..] == v[k + 2..]; }
      } else if v[0] == '"' {
        RestOfQuote(more);
        AfterOwnClose(more, follow, |v| == 1);
      } else {
        assert ([v[0]] + more)[1..] == more;
        RestAligned(v[1..], follow);
      }
    }
  }

  /** Behind an escaped quote: what follows the end of the value, or the rest of the value. */
  lemma AfterOwnClose(more: string, follow: string, last: bool)
    requires more != "" && (more[0] == '"' <==> last) && (last ==> more[1..] == follow)
    ensures AfterClose(more) == if last then AfterClose(follow) else Ok(more)
  {
  }

  /** The printed values after which the end scan stops at the value's own closing quote. */
  predicate ScansAgree(v: string, follow: string) {
    var k := LeadingBackslashes(v);
    if k == |v| then follow == ""
    else (v[k] == '"' ==> |v| == k + 1) && (follow == "" || follow[0] != '"')
  }

  /** Scanning text that is not empty never leaves it as it was. */
  lemma {:induction false} RestLosesText(t: string)
    requires t != "" && RightTrimmed(t)
    ensures Rest(t).Ok? ==> |Trim(Rest(t).value)| < |Trim(t)|
    decreases |t|
  {
    TrimOfRightTrimmed(t);
    if IsSpace(t[0]) {
      assert Rest(t) == Rest(t[1..]) && t[1..] != "" && t[1..][|t| - 2] == t[|t| - 1];
      RestLosesText(t[1..]);
      TrimOfRightTrimmed(t[1..]);
      assert TrimLeft(t) == TrimLeft(t[1..]);
    } else {
      RestIsSuffix(t);
    }
  }

  /** Text with a quote in front of the rest of it is longer than the rest, also after trimming. */
  lemma TrimKeepsQuote(x: string, follow: string)
    requires RightTrimmed(follow)
    ensures |Trim(x + "\"" + follow)| > |Trim(follow)|
  {
    var s := x + "\"" + follow;
    assert s[|s| - 1] == if follow == "" then '"' else follow[|follow| - 1];
    TrimOfRightTrimmed(s);
    assert s[|x|] == '"' && !IsSpace(s[|x|]);
    assert Span(IsSpace, s) <= |x|;
  }

  /** The value always comes back; the text behind it is what the end scan leaves. */
  lemma QuoteThen(v: string, follow: string)
    requires RightTrimmed(follow)
    ensures FirstQuoted(Quote(v) + follow) == WithRest(v, Rest((Escape(v) + "\"" + follow)[1..]))
  {
    var t := Quote(v) + follow;
    var body := Escape(v) + "\"" + follow;
    assert t == "\"" + body && t[1..] == body && t[2..] == body[1..];
    assert t[|t| - 1] == if follow == "" then '"' else follow[|follow| - 1];
    TrimOfTrimmed(t);
    assert Span(NotQuote, t) == 0 && t[0..] == t;
    ValueOfEscaped(v, follow);
    assert QuotedString(t) == Ok(v);
  }

  /**
   * Reading back a printed value and the text behind it: the value always comes back, and the text behind it
   * comes back exactly when the two scans agree.
   */
  lemma FirstQuotedReadsBackIff(v: string, follow: string)
    requires RightTrimmed(follow)
    ensures FirstQuoted(Quote(v) + follow) == Ok((v, Trim(follow))) <==> ScansAgree(v, follow)
    ensures FirstQuoted(Quote(v) + follow).Ok? ==> FirstQuoted(Quote(v) + follow).value.0 == v
  {
    QuoteThen(v, follow);
    EndsAtCloseIff(v, follow);
    OtherRest(v, Rest((Escape(v) + "\"" + follow)[1..]), follow);
  }

  lemma EndsAtCloseIff(v: string, follow: string)
    requires RightTrimmed(follow)
    ensures var r := Rest((Escape(v) + "\"" + follow)[1..]);
            if ScansAgree(v, follow) then r == Ok(follow)
            else !r.Err? && (r.Ok? ==> |Trim(r.value)| != |Trim(follow)|)
  {
    hide Trim, Escape;
    RestSkewed(v, follow);
    RestIsSuffix((Escape(v) + "\"" + follow)[1..]);
    var k := LeadingBackslashes(v);
    if k == |v| {
      if follow != "" { RestLosesText(follow); }
    } else if v[k] == '"' && k + 1 < |v| {
      TrimKeepsQuote(Escape(v[k + 1..]), follow);
    } else if follow != "" && follow[0] == '"' {
      RestLosesText(follow);
    }
  }

  lemma OtherRest(v: string, r: Outcome<string>, follow: string)
    requires !r.Err? && (r == Ok(follow) || (r.Ok? ==> |Trim(r.value)| != |Trim(follow)|))
    ensures WithRest(v, r) == Ok((v, Trim(follow))) <==> r == Ok(follow)
    ensures WithRest(v, r).Ok? ==> WithRest(v, r).value.0 == v
  {
  }

  lemma {:induction false} RestOfPlain(plain: string, tail: string)
    requires forall c :: c in plain ==> !Special(c)
    ensures Rest(plain + tail) == Rest(tail)
  {
    if plain == "" {
      assert plain + tail == tail;
    } else {
      assert plain[0] in plain && (plain + tail)[1..] == plain[1..] + tail;
      RestOfPlain(plain[1..], tail);
    }
  }

  /** Behind an empty prompt a variable clause is lost, and one that ends in a backslash makes the parser panic. */
  lemma EmptyPromptFails(clause: string)
    requires clause != "" && RightTrimmed(clause) && forall c :: c in clause ==> !Special(c)
    ensures FirstQuoted(Quote("") + clause) == Ok(("", ""))
    ensures FirstQuoted(Quote("") + (clause + "\\")) == Crash
  {
    hide FirstQuoted;
    QuoteThen("", clause);
    QuoteThen("", clause + "\\");
    assert (Escape("") + "\"" + clause)[1..] == clause + "";
    assert (Escape("") + "\"" + (clause + "\\"))[1..] == clause + "\\";
    RestOfPlain(clause, "");
    RestOfPlain(clause, "\\");
  }

  // ---- When the parser panics ---------------------------------------------------------------------

  /** How many backslashes a text ends in. */
  function EndingBackslashes(t: string): (k: nat)
    ensures k <= |t|
  {
    if t != "" && t[|t| - 1] == '\\' then 1 + EndingBackslashes(t[..|t| - 1]) else 0
  }

  /** A quote at j that no backslash escapes. */
  predicate BareQuoteAt(t: string, j: nat) {
    j < |t| && t[j] == '"' && EndingBackslashes(t[..j]) % 2 == 0
  }

  ghost predicate HasBareQuote(t: string) {
    exists j: nat :: BareQuoteAt(t, j)
  }

  /** A character that is no backslash changes nothing for what follows it. */
  lemma {:induction false} BackslashesAfterOne(c: char, u: string)
    requires c != '\\'
    ensures EndingBackslashes([c] + u) == EndingBackslashes(u)
  {
    var t := [c] + u;
    if u != "" {
      assert t[|t| - 1] == u[|u| - 1] && t[..|t| - 1] == [c] + u[..|u| - 1];
      BackslashesAfterOne(c, u[..|u| - 1]);
    }
  }

  /** Neither do a backslash and what it escapes, counting by pairs. */
  lemma {:induction false} BackslashesAfterPair(x: char, u: string)
    ensures EndingBackslashes(['\\', x] + u) % 2 == EndingBackslashes(u) % 2 || u == ""
    ensures u == "" ==> EndingBackslashes(['\\', x] + u) % 2 == 0
  {
    var t := ['\\', x] + u;
    if u == "" {
      assert t == ['\\', x] && t[..1] == "\\" && "\\"[..0] == "";
    } else {
      assert t[|t| - 1] == u[|u| - 1] && t[..|t| - 1] == ['\\', x] + u[..|u| - 1];
      BackslashesAfterPair(x, u[..|u| - 1]);
    }
  }

  lemma BareAfterOne(c: char, u: string)
    requires c != '\\'
    ensures HasBareQuote([c] + u) <==> c == '"' || HasBareQuote(u)
  {
    var t := [c] + u;
    forall j: nat | j < |u| ensures BareQuoteAt(t, j + 1) <==> BareQuoteAt(u, j) {
      assert t[..j + 1] == [c] + u[..j];
      BackslashesAfterOne(c, u[..j]);
    }
    assert t[..0] == "" && (BareQuoteAt(t, 0) <==> c == '"');
    if HasBareQuote(u) {
      var j: nat :| BareQuoteAt(u, j);
      assert BareQuoteAt(t, j + 1);
    }
    if j: nat :| BareQuoteAt(t, j) {
      if j > 0 { assert BareQuoteAt(u, j - 1); }
    }
  }

  lemma BareAfterPair(x: char, u: string)
    ensures HasBareQuote(['\\', x] + u) <==> HasBareQuote(u)
  {
    var t := ['\\', x] + u;
    forall j: nat | j < |u| ensures BareQuoteAt(t, j + 2) <==> BareQuoteAt(u, j) {
      assert t[..j + 2] == ['\\', x] + u[..j];
      BackslashesAfterPair(x, u[..j]);
    }
    assert t[..1] == "\\" && "\\"[..0] == "" && !BareQuoteAt(t, 0) && !BareQuoteAt(t, 1);
    if HasBareQuote(u) {
      var j: nat :| BareQuoteAt(u, j);
      assert BareQuoteAt(t, j + 2);
    }
    if j: nat :| BareQuoteAt(t, j) {
      assert BareQuoteAt(u, j - 2);
    }
  }

  /** The value scan succeeds exactly when there is a quote for it to stop at. */
  lemma {:induction false} ValueOkIff(t: string)
    ensures Value(t).Ok? <==> HasBareQuote(t)
    ensures !Value(t).Ok? ==> Value(t) == Err(Unclosed)
    decreases |t|
  {
    if t != "" {
      assert t == [t[0]] + t[1..];
      if t[0] == '\\' {
        if |t| > 1 {
          assert t == ['\\', t[1]] + t[2..];
          ValueOkIff(t[2..]);
          BareAfterPair(t[1], t[2..]);
        }
      } else {
        BareAfterOne(t[0], t[1..]);
        if t[0] != '"' { ValueOkIff(t[1..]); }
      }
    }
  }

  /** The end scan runs past the end exactly when it has no quote to stop at and the last backslash escapes nothing. */
  lemma {:induction false} RestCrashesIff(t: string)
    ensures Rest(t).Crash? <==> !HasBareQuote(t) && EndingBackslashes(t) % 2 == 1
    decreases |t|
  {
    if t != "" {
      assert t == [t[0]] + t[1..];
      if t[0] == '\\' {
        if |t| > 1 {
          assert t == ['\\', t[1]] + t[2..];
          RestCrashesIff(t[2..]);
          BareAfterPair(t[1], t[2..]);
          BackslashesAfterPair(t[1], t[2..]);
        } else {
          assert t[..0] == "";
        }
      } else {
        BareAfterOne(t[0], t[1..]);
        BackslashesAfterOne(t[0], t[1..]);
        if t[0] != '"' || (|t| > 1 && t[1] == '"') { RestCrashesIff(t[1..]); }
        if |t| > 1 && t[1] == '"' {
          assert t[1..] == ['"'] + t[2..];
          BareAfterOne('"', t[2..]);
        }
      }
    }
  }

  /**
   * Whatever it is given, extractFirstQuoted panics exactly when the text behind the first quote has a closing quote,
   * the text one character further has none, and that text ends in a backslash that escapes nothing.
   */
  lemma FirstQuotedCrashesIff(s: string)
    ensures var t := Trim(s); var q := Span(NotQuote, t);
            FirstQuoted(s).Crash? <==>
              q + 2 <= |t| && HasBareQuote(t[q + 1..]) && !HasBareQuote(t[q + 2..]) && EndingBackslashes(t[q + 2..]) % 2 == 1
  {
    FirstVerdictIs(s);
    hide FirstQuoted, HasBareQuote, EndingBackslashes, Trim, Span;
  }

  lemma QuotedStringIs(u: string)
    requires Trimmed(u) && u != "" && u[0] == '"'
    ensures QuotedString(u) == if |u| < 2 then Err(ExpectedQuoted) else Value(u[1..])
  {
    TrimOfTrimmed(u);
  }

  /** Where the end scan stops: at a bare quote with no quote behind it. */
  predicate StopsAt(t: string, j: nat) {
    BareQuoteAt(t, j) && (j + 1 == |t| || t[j + 1] != '"')
  }

  lemma StopsAfterOne(c: char, u: string, j: nat)
    requires c != '\\' && j < |u|
    ensures StopsAt([c] + u, j + 1) <==> StopsAt(u, j)
  {
    assert ([c] + u)[..j + 1] == [c] + u[..j];
    BackslashesAfterOne(c, u[..j]);
  }

  lemma StopsAfterPair(x: char, u: string, j: nat)
    requires j < |u|
    ensures StopsAt(['\\', x] + u, j + 2) <==> StopsAt(u, j)
  {
    assert (['\\', x] + u)[..j + 2] == ['\\', x] + u[..j];
    BackslashesAfterPair(x, u[..j]);
  }

  /** For every text, what the end scan leaves: all behind its first stop. */
  lemma {:induction false} RestIs(t: string, j: nat)
    requires StopsAt(t, j) && forall i: nat :: i < j ==> !StopsAt(t, i)
    ensures Rest(t) == Ok(t[j + 1..])
    decreases |t|
  {
    assert t == [t[0]] + t[1..] && t[..0] == "";
    if t[0] == '\\' {
      assert t[..1] == "\\" && "\\"[..0] == "" && EndingBackslashes(t[..1]) == 1;
      assert t == ['\\', t[1]] + t[2..];
      forall i: nat | i < |t| - 2 ensures StopsAt(t[2..], i) <==> StopsAt(t, i + 2) { StopsAfterPair(t[1], t[2..], i); }
      RestIs(t[2..], j - 2);
    } else if j > 0 {
      forall i: nat | i < |t| - 1 ensures StopsAt(t[1..], i) <==> StopsAt(t, i + 1) { StopsAfterOne(t[0], t[1..], i); }
      if t[0] == '"' { assert !StopsAt(t, 0) && BareQuoteAt(t, 0); }
      RestIs(t[1..], j - 1);
    }
  }

  /** A character, or a backslash and the character it escapes, whichever that is. */
  datatype Unit = Plain(c: char) | Escaped(c: char)

  function UnitText(u: Unit): string {
    match u case Plain(c) => [c] case Escaped(c) => ['\\', c]
  }

  function UnitsText(units: seq<Unit>): string {
    if units == [] then "" else UnitText(units[0]) + UnitsText(units[1..])
  }

  function UnitsValue(units: seq<Unit>): string {
    if units == [] then "" else [units[0].c] + UnitsValue(units[1..])
  }

  /** Every backslash escapes what follows it, be that special or not, and the first quote left closes the value. */
  lemma {:induction false} ValueOfUnits(units: seq<Unit>, follow: string)
    requires forall u :: u in units ==> u.Plain? ==> !Special(u.c)
    ensures Value(UnitsText(units) + "\"" + follow) == Ok(UnitsValue(units))
    decreases |units|
  {
    if units == [] {
      assert UnitsText(units) + "\"" + follow == "\"" + follow;
    } else {
      var u, more := units[0], UnitsText(units[1..]) + "\"" + follow;
      assert u in units;
      ValueOfUnits(units[1..], follow);
      assert UnitsText(units) + "\"" + follow == UnitText(u) + more;
      hide UnitsText;
      assert (UnitText(u) + more)[|UnitText(u)|..] == more;
    }
  }

  // ---- Which lines are accepted ---------------------------------------------------------------------

  datatype Verdict = Accepted | Rejected(error: Error) | Panics

  /** A directive line: a word, blanks, and arguments. */
  ghost predicate IsDirective(line: string, word: string, args: string) {
    && word != "" && (forall c :: c in word ==> IsWord(c))
    && exists blanks: string, tail: string ::
         && line == "@" + word + blanks + (args + tail)
         && blanks != "" && (forall c :: c in blanks ==> IsPatternSpace(c))
         && (args + tail == "" || !IsPatternSpace((args + tail)[0]))
         && '\n' !in args && (tail == "" || tail[0] == '\n')
  }

  lemma ShapeMatches(line: string, word: string, args: string)
    requires IsDirective(line, word, args)
    ensures MatchDirective(line) == Ok((word, args))
  {
    var blanks: string, tail: string :|
      && line == "@" + word + blanks + (args + tail)
      && blanks != "" && (forall c :: c in blanks ==> IsPatternSpace(c))
      && (args + tail == "" || !IsPatternSpace((args + tail)[0]))
      && '\n' !in args && (tail == "" || tail[0] == '\n');
    Seqs.Assoc("@" + word, blanks, args + tail);
    PartsMatch(line, word, blanks, args + tail);
    SpanOf(NotNewline, args, tail);
    assert (args + tail)[..|args|] == args;
    hide MatchDirective, IsWord, IsPatternSpace;
  }

  lemma PartsMatch(line: string, word: string, blanks: string, rest: string)
    requires word != "" && (forall c :: c in word ==> IsWord(c)) && blanks != "" && (forall c :: c in blanks ==> IsPatternSpace(c))
    requires line == "@" + word + (blanks + rest) && (rest == "" || !IsPatternSpace(rest[0]))
    ensures MatchDirective(line) == Ok((word, rest[..Span(NotNewline, rest)]))
  {
    var after := blanks + rest;
    assert blanks[0] in blanks && !IsWord(after[0]);
    SpanOf(IsWord, word, after);
    SpanOf(IsPatternSpace, blanks, rest);
    hide IsWord, IsPatternSpace, Span;
    CutWord(line, word, after);
    assert after[|blanks|..] == rest;
  }

  lemma CutWord(line: string, word: string, after: string)
    requires line == "@" + word + after
    ensures line != "" && line[0] == '@' && line[1..] == word + after
    ensures line[1..1 + |word|] == word && line[1 + |word|..] == after
  {
  }

  /** The pattern matches exactly the directive lines, and gives their word and arguments. */
  lemma MatchDirectiveIff(line: string, word: string, args: string)
    ensures MatchDirective(line) == Ok((word, args)) <==> IsDirective(line, word, args)
    ensures !MatchDirective(line).Ok? ==> MatchDirective(line) == Err(Malformed)
  {
    if MatchDirective(line).Ok? {
      MatchedShape(line);
    }
    if IsDirective(line, word, args) { ShapeMatches(line, word, args); }
    hide IsDirective;
  }

  lemma MatchedShape(line: string)
    requires MatchDirective(line).Ok?
    ensures IsDirective(line, MatchDirective(line).value.0, MatchDirective(line).value.1)
  {
    var body := line[1..];
    var w := Span(IsWord, body);
    var after := line[1 + w..];
    var b := Span(IsPatternSpace, after);
    var rest := after[b..];
    var n := Span(NotNewline, rest);
    assert MatchDirective(line).value == (line[1..1 + w], rest[..n]) && line[0] == '@' && w > 0 && b > 0;
    hide MatchDirective, IsDirective, IsWord, IsPatternSpace;
    Cut(IsWord, body, w);
    Cut(IsPatternSpace, after, b);
    Cut(NotNewline, rest, n);
    hide Span;
    CutBody(line, w);
    ShapeFrom(line, body[..w], after[..b], rest[..n], rest[n..]);
  }

  lemma CutBody(line: string, w: nat)
    requires w < |line| && line[0] == '@'
    ensures line == "@" + line[1..][..w] + line[1 + w..] && line[1..][..w] == line[1..1 + w]
  {
  }

  lemma Cut(p: char -> bool, s: string, n: nat)
    requires n == Span(p, s)
    ensures s == s[..n] + s[n..] && (s[n..] == "" || !p(s[n..][0])) && forall c :: c in s[..n] ==> p(c)
  {
  }

  lemma ShapeFrom(line: string, word: string, blanks: string, args: string, tail: string)
    requires word != "" && (forall c :: c in word ==> IsWord(c)) && blanks != "" && (forall c :: c in blanks ==> IsPatternSpace(c))
    requires line == "@" + word + (blanks + (args + tail)) && (args + tail == "" || !IsPatternSpace((args + tail)[0]))
    requires (forall c :: c in args ==> NotNewline(c)) && (tail == "" || !NotNewline(tail[0]))
    ensures IsDirective(line, word, args)
  {
    Seqs.Assoc("@" + word, blanks, args + tail);
  }

  /** Any blank separates the word from its arguments. */
  lemma AnyBlankSeparates(word: string, blank: char, args: string)
    requires word != "" && (forall c :: c in word ==> IsWord(c)) && '\n' !in args && (args == "" || !IsPatternSpace(args[0]))
    requires blank in {' ', '\t', '\n', '\r', '\U{0C}'}
    ensures MatchDirective("@" + word + [blank] + args) == Ok((word, args))
  {
    var line := "@" + word + [blank] + args;
    assert line == "@" + word + [blank] + (args + "") && args + "" == args;
    assert IsDirective(line, word, args);
    ShapeMatches(line, word, args);
  }

  /** A quoted string, whatever follows its closing quote. */
  ghost function QuotedVerdict(s: string): Verdict {
    var t := Trim(s);
    if |t| < 2 || t[0] != '"' then Rejected(ExpectedQuoted)
    else if !HasBareQuote(t[1..]) then Rejected(Unclosed)
    else Accepted
  }

  /** Some text with a quoted string in it. */
  ghost function FirstVerdict(s: string): Verdict {
    var t := Trim(s);
    var q := Span(NotQuote, t);
    if |t| < q + 2 then Rejected(ExpectedQuoted)
    else if !HasBareQuote(t[q + 1..]) then Rejected(Unclosed)
    else if !HasBareQuote(t[q + 2..]) && EndingBackslashes(t[q + 2..]) % 2 == 1 then Panics
    else Accepted
  }

  /** The options behind a prompt: none of them can panic, or one does. */
  ghost predicate OptionsPanic(rest: string)
    decreases |rest|
  {
    rest != "" && !StartsAs(rest)
    && (FirstVerdict(rest) == Panics
        || (FirstQuoted(rest).Ok? && |Trim(FirstQuoted(rest).value.1)| < |rest| && OptionsPanic(Trim(FirstQuoted(rest).value.1))))
  }

  ghost predicate NoOption(rest: string) {
    rest == "" || StartsAs(rest) || FirstVerdict(rest).Rejected?
  }

  ghost function ChooseVerdict(args: string): Verdict {
    var v := FirstVerdict(Trim(args));
    if v != Accepted then v
    else if !FirstQuoted(Trim(args)).Ok? then Accepted
    else
      var rest := Trim(FirstQuoted(Trim(args)).value.1);
      if OptionsPanic(rest) then Panics else if NoOption(rest) then Rejected(NoOptions) else Accepted
  }

  /** Blank lines, comments and commands are accepted; a directive must be well formed, known, and have its strings. */
  ghost function LineVerdict(raw: string): Verdict {
    var line := Trim(raw);
    if line == "" || line[0] != '@' then Accepted
    else
      match MatchDirective(line)
      case Ok((word, args)) => ArgsVerdict(word, args)
      case _ => Rejected(Malformed)
  }

  ghost function ArgsVerdict(word: string, args: string): Verdict {
    if word == "confirm" then QuotedVerdict(args)
    else if word == "input" then FirstVerdict(args)
    else if word == "choose" then ChooseVerdict(args)
    else Rejected(UnknownDirective)
  }

  function VerdictOf<T>(r: Outcome<T>): Verdict {
    match r case Ok(_) => Accepted case Err(e) => Rejected(e) case Crash => Panics
  }

  lemma QuotedVerdictIs(s: string)
    ensures VerdictOf(QuotedString(s)) == QuotedVerdict(s)
  {
    var t := Trim(s);
    if |t| >= 2 { ValueOkIff(t[1..]); }
  }

  lemma FirstVerdictIs(s: string)
    ensures VerdictOf(FirstQuoted(s)) == FirstVerdict(s)
  {
    var t := Trim(s);
    var q := Span(NotQuote, t);
    if q < |t| {
      QuotedStringIs(t[q..]);
      hide Trim, QuotedString, HasBareQuote, EndingBackslashes, Value, Rest;
      if q + 2 <= |t| {
        assert t[q..][1..] == t[q + 1..];
        ValueOkIff(t[q + 1..]);
        RestIsSuffix(t[q + 2..]);
        RestCrashesIff(t[q + 2..]);
      }
    }
  }

  lemma {:induction false} OptionsVerdictIs(rest: string)
    ensures ChooseOptions(rest).Crash? <==> OptionsPanic(rest)
    ensures !ChooseOptions(rest).Err?
    ensures ChooseOptions(rest).Ok? ==> (ChooseOptions(rest).value.0 == [] <==> NoOption(rest))
    decreases |rest|
  {
    if rest != "" && !StartsAs(rest) {
      FirstVerdictIs(rest);
      FirstQuotedShrinks(rest);
      hide FirstQuoted, FirstVerdict, Trim;
      if FirstQuoted(rest).Ok? { OptionsVerdictIs(Trim(FirstQuoted(rest).value.1)); }
    }
  }

  lemma ChooseVerdictIs(args: string)
    ensures ChooseArgs(args).Crash? <==> ChooseVerdict(args) == Panics
    ensures VerdictOf(if ChooseArgs(args).Ok? && ChooseArgs(args).value.1 == [] then Err(NoOptions) else ChooseArgs(args))
         == ChooseVerdict(args)
  {
    FirstVerdictIs(Trim(args));
    hide FirstQuoted, FirstVerdict, Trim;
    var first := FirstQuoted(Trim(args));
    if first.Ok? {
      OptionsVerdictIs(Trim(first.value.1));
      hide ChooseOptions, OptionsPanic, NoOption;
    }
  }

  lemma ArgsVerdictIs(line: string, word: string, args: string)
    ensures VerdictOf(ParseArgs(line, word, args)) == ArgsVerdict(word, args)
  {
    QuotedVerdictIs(args);
    FirstVerdictIs(args);
    ChooseVerdictIs(args);
    hide QuotedString, FirstQuoted, ChooseArgs, QuotedVerdict, FirstVerdict, ChooseVerdict, InputName;
  }

  lemma LineVerdictIs(raw: string)
    ensures VerdictOf(ParseLine(raw)) == LineVerdict(raw)
  {
    var line := Trim(raw);
    hide Trim, ParseArgs, ArgsVerdict, MatchDirective;
    if line != "" && line[0] == '@' {
      MatchDirectiveIff(line, "", "");
      var m := MatchDirective(line);
      if m.Ok? { ArgsVerdictIs(line, m.value.0, m.value.1); }
    }
  }

  /** A directive of any other word, in letters of either case, digits and underscores, is unknown, whatever its arguments. */
  lemma OtherWordsAreUnknown(word: string, blank: char, args: string)
    requires word != "" && word != "confirm" && word != "input" && word != "choose"
    requires forall c :: c in word ==> 'a' <= c <= 'z' || 'A' <= c <= 'Z' || '0' <= c <= '9' || c == '_'
    requires blank in {' ', '\t'} && args != "" && Trimmed(args) && '\n' !in args
    ensures LineVerdict("@" + word + [blank] + args) == Rejected(UnknownDirective)
  {
    var line := "@" + word + [blank] + args;
    TrimmedLine("@" + word, blank, args);
    AnyBlankSeparates(word, blank, args);
    hide *;
    DirectiveVerdict(line, word, args);
  }

  lemma TrimmedLine(head: string, blank: char, args: string)
    requires head != "" && head[0] == '@' && args != "" && Trimmed(args)
    ensures var line := head + [blank] + args; Trim(line) == line != "" && line[0] == '@'
  {
    var line := head + [blank] + args;
    assert line[0] == '@' && line[|line| - 1] == args[|args| - 1];
    TrimOfTrimmed(line);
  }

  lemma DirectiveVerdict(raw: string, word: string, args: string)
    requires Trim(raw) == raw != "" && raw[0] == '@' && MatchDirective(raw) == Ok((word, args))
    requires word != "confirm" && word != "input" && word != "choose"
    ensures LineVerdict(raw) == Rejected(UnknownDirective)
  {
    hide Trim, MatchDirective;
  }

  /** Line k is the first that is not accepted. */
  ghost predicate FirstBad(lines: seq<string>, k: nat) {
    k < |lines| && LineVerdict(lines[k]) != Accepted && forall j :: 0 <= j < k ==> LineVerdict(lines[j]) == Accepted
  }

  ghost predicate AllAccepted(lines: seq<string>) {
    forall j :: 0 <= j < |lines| ==> LineVerdict(lines[j]) == Accepted
  }

  /** The steps of lines that are all accepted, in order. */
  function StepsOfLines(lines: seq<string>): seq<Step> {
    if lines == [] then [] else (match ParseLine(lines[0]) case Ok(here) => here case _ => []) + StepsOfLines(lines[1..])
  }

  /**
   * The first line that is not accepted decides: its error is reported with its number, counted from one, or its panic is
   * the parser's. Only if all are accepted are there steps: those of the lines, in order.
   */
  ghost predicate Judged(r: Parsed, lines: seq<string>, lineNum: nat) {
    && (r.Steps? <==> AllAccepted(lines)) && (r.Steps? ==> r.steps == StepsOfLines(lines))
    && forall k: nat :: FirstBad(lines, k) ==>
         r == match LineVerdict(lines[k]) case Rejected(e) => BadLine(lineNum + k, e) case _ => Panic
  }

  lemma {:induction false} ScriptVerdict(lines: seq<string>, lineNum: nat)
    ensures Judged(ParseLines(lines, lineNum), lines, lineNum)
    decreases |lines|
  {
    if lines != [] {
      LineVerdictIs(lines[0]);
      hide Judged, LineVerdict, ParseLine;
      if ParseLine(lines[0]).Ok? {
        ScriptVerdict(lines[1..], lineNum + 1);
        JudgedAfterGood(ParseLines(lines[1..], lineNum + 1), lines, lineNum);
      } else {
        JudgedAtBad(ParseLines(lines, lineNum), lines, lineNum);
      }
    }
  }

  lemma JudgedAtBad(r: Parsed, lines: seq<string>, lineNum: nat)
    requires lines != [] && LineVerdict(lines[0]) != Accepted
    requires r == match LineVerdict(lines[0]) case Rejected(e) => BadLine(lineNum, e) case _ => Panic
    ensures Judged(r, lines, lineNum)
  {
    hide LineVerdict;
  }

  lemma JudgedAfterGood(r: Parsed, lines: seq<string>, lineNum: nat)
    requires lines != [] && LineVerdict(lines[0]) == Accepted && ParseLine(lines[0]).Ok? && Judged(r, lines[1..], lineNum + 1)
    ensures Judged(AddSteps(ParseLine(lines[0]).value, r), lines, lineNum)
  {
    hide LineVerdict, ParseLine;
    var rest := lines[1..];
    assert forall j :: 0 <= j < |rest| ==> rest[j] == lines[j + 1];
    assert AllAccepted(lines) <==> AllAccepted(rest) by {
      if AllAccepted(rest) {
        forall j | 0 <= j < |lines| ensures LineVerdict(lines[j]) == Accepted {
          if j > 0 { assert LineVerdict(rest[j - 1]) == Accepted; }
        }
      }
    }
    forall k: nat | FirstBad(lines, k) ensures k > 0 && FirstBad(rest, k - 1) && rest[k - 1] == lines[k] {
      assert k > 0;
    }
  }

  /** The step of a directive by its word. */
  function DirectiveGives(line: string, word: string, args: string): seq<Step> {
    if word == "confirm" && QuotedString(args).Ok? then [Confirm(line, QuotedString(args).value, "_confirm")]
    else if word == "input" && FirstQuoted(args).Ok? then
      var (message, rest) := FirstQuoted(args).value;
      [Input(line, message, VariableName(rest, "_input"))]
    else if word == "choose" && ChooseArgs(args).Ok? then
      var (message, options, name) := ChooseArgs(args).value;
      [Choose(line, message, options, 0, name)]
    else []
  }

  /** The step of an accepted line, told from its text. */
  lemma LineGives(raw: string)
    requires LineVerdict(raw) == Accepted
    ensures var line, r := Trim(raw), ParseLine(raw);
            && r.Ok?
            && (line == "" || line[0] == '#' ==> r.value == [])
            && (line != "" && line[0] != '#' && line[0] != '@' ==> r.value == [Exec(line, line)])
            && forall word, args :: IsDirective(line, word, args) ==> r.value == DirectiveGives(line, word, args)
  {
    LineVerdictIs(raw);
    var line := Trim(raw);
    hide Trim, QuotedString, FirstQuoted, ChooseArgs, LineVerdict, ParseArgs;
    forall word, args | IsDirective(line, word, args) ensures ParseLine(raw).value == DirectiveGives(line, word, args) {
      assert line[0] == '@';
      ShapeMatches(line, word, args);
      hide IsDirective, MatchDirective;
      ArgsGive(line, word, args);
    }
  }

  lemma ArgsGive(line: string, word: string, args: string)
    requires ParseArgs(line, word, args).Ok?
    ensures DirectiveGives(line, word, args) == [ParseArgs(line, word, args).value]
  {
    ConfirmGives(line, args);
    InputGives(line, args);
    ChooseGives(line, args);
    KnownWord(line, word, args);
    hide ParseArgs, DirectiveGives;
  }

  lemma KnownWord(line: string, word: string, args: string)
    requires ParseArgs(line, word, args).Ok?
    ensures word == "confirm" || word == "input" || word == "choose"
  {
    hide QuotedString, FirstQuoted, ChooseArgs, InputName;
  }

  lemma ConfirmGives(line: string, args: string)
    ensures var r := ParseArgs(line, "confirm", args); r.Ok? ==> DirectiveGives(line, "confirm", args) == [r.value]
  {
    hide QuotedString, FirstQuoted, ChooseArgs;
  }

  lemma InputGives(line: string, args: string)
    ensures var r := ParseArgs(line, "input", args); r.Ok? ==> DirectiveGives(line, "input", args) == [r.value]
  {
    if FirstQuoted(args).Ok? { VariableNameIs(FirstQuoted(args).value.1); }
    hide QuotedString, FirstQuoted, ChooseArgs, InputName, VariableName;
  }

  lemma ChooseGives(line: string, args: string)
    ensures var r := ParseArgs(line, "choose", args); r.Ok? ==> DirectiveGives(line, "choose", args) == [r.value]
  {
    hide QuotedString, FirstQuoted, ChooseArgs;
  }

  lemma VariableNameIs(rest: string)
    ensures InputName(rest) == VariableName(rest, "_input")
  {
    if rest == "" { assert Trim(rest) == ""; }
  }

  /** What stands behind "as", or the default. */
  function VariableName(rest: string, default: string): string {
    if StartsAs(Trim(rest)) then Trim(Trim(rest)[3..]) else default
  }

  /** "as" in any case, and a blank. */
  lemma StartsAsIs(s: string)
    ensures StartsAs(s) <==> "as " <= s || "As " <= s || "aS " <= s || "AS " <= s
  {
  }

  // ---- Printing and reading back -------------------------------------------------------------------

  /** What a script says, in the documented syntax. */
  datatype Action =
    | Run(command: string)
    | Ask(message: string)
    | Prompt(message: string, name: string)
    | Pick(message: string, options: seq<string>, name: string)
    | Note(text: string)

  function AsClause(name: string, default: string): string {
    if name == default then "" else " as " + name
  }

  function OptionsText(options: seq<string>, name: string): string {
    if options == [] then AsClause(name, "_choose")
    else " " + Quote(options[0]) + OptionsText(options[1..], name)
  }

  function DirectiveLine(word: string, message: string, tail: string): string {
    "@" + word + " " + (Quote(message) + tail)
  }

  function Print(a: Action): string {
    match a
    case Run(command) => command
    case Ask(message) => DirectiveLine("confirm", message, "")
    case Prompt(message, name) => DirectiveLine("input", message, AsClause(name, "_input"))
    case Pick(message, options, name) => DirectiveLine("choose", message, OptionsText(options, name))
    case Note(text) => "#" + text
  }

  function StepsOf(a: Action): seq<Step> {
    match a
    case Run(command) => [Exec(command, command)]
    case Ask(message) => [Confirm(Print(a), message, "_confirm")]
    case Prompt(message, name) => [Input(Print(a), message, name)]
    case Pick(message, options, name) => [Choose(Print(a), message, options, 0, name)]
    case Note(_) => []
  }

  predicate OneLine(s: string) { '\n' !in s }

  predicate GoodName(name: string, default: string) {
    name == default || (name != "" && Trimmed(name) && OneLine(name))
  }

  predicate GoodOptions(options: seq<string>, name: string) {
    options == []
    || (OneLine(options[0]) && ScansAgree(options[0], OptionsText(options[1..], name)) && GoodOptions(options[1..], name))
  }

  /** The actions that can be written down: only the strings the two scanners disagree on are shut out. */
  predicate Printable(a: Action) {
    match a
    case Run(command) => command != "" && Trimmed(command) && OneLine(command) && command[0] != '#' && command[0] != '@'
    case Ask(message) => OneLine(message)
    case Prompt(message, name) =>
      OneLine(message) && GoodName(name, "_input") && ScansAgree(message, AsClause(name, "_input"))
    case Pick(message, options, name) =>
      OneLine(message) && GoodName(name, "_choose") && options != [] && GoodOptions(options, name)
      && ScansAgree(message, OptionsText(options, name))
    case Note(text) => OneLine(text)
  }

  function PrintAll(script: seq<Action>): string {
    if script == [] then "" else Print(script[0]) + "\n" + PrintAll(script[1..])
  }

  function StepsOfAll(script: seq<Action>): seq<Step> {
    if script == [] then [] else StepsOf(script[0]) + StepsOfAll(script[1..])
  }

  /** A non-empty string that starts with neither a quote nor a backslash can be printed anywhere. */
  lemma PlainStartAgrees(v: string, name: string, options: seq<string>)
    requires v != "" && !Special(v[0])
    ensures ScansAgree(v, "") && ScansAgree(v, AsClause(name, "_input")) && ScansAgree(v, OptionsText(options, name))
  {
  }

  lemma {:induction false} EscapeOneLine(v: string)
    requires OneLine(v)
    ensures OneLine(Quote(v))
  {
    if v != "" {
      assert v[0] in v && OneLine(v[1..]);
      EscapeOneLine(v[1..]);
      assert OneLine(Escape(v[1..])) by {
        var q := Quote(v[1..]);
        assert forall i :: 0 <= i < |Escape(v[1..])| ==> Escape(v[1..])[i] == q[i + 1];
      }
    }
  }

  /** The text behind a prompt: one line, blank first, nothing blank last. */
  predicate GoodTail(s: string) {
    OneLine(s) && (s == "" || (s[0] == ' ' && s != " " && Trimmed(s[1..])))
  }

  lemma AsClauseGood(name: string, default: string)
    requires GoodName(name, default)
    ensures GoodTail(AsClause(name, default))
  {
    if name != default {
      var s := AsClause(name, default);
      assert s[1..] == "as " + name && s[1..][|s| - 2] == name[|name| - 1];
    }
  }

  lemma {:induction false} OptionsTextGood(options: seq<string>, name: string)
    requires GoodName(name, "_choose") && GoodOptions(options, name)
    ensures GoodTail(OptionsText(options, name))
  {
    hide Escape, ScansAgree;
    if options == [] {
      AsClauseGood(name, "_choose");
    } else {
      var quoted, more := Quote(options[0]), OptionsText(options[1..], name);
      OptionsTextGood(options[1..], name);
      EscapeOneLine(options[0]);
      assert OptionsText(options, name) == " " + quoted + more;
      assert quoted[0] == '"' && quoted[|quoted| - 1] == '"' && |quoted| >= 2;
      hide OptionsText, Quote;
      QuotedGoodTail(quoted, more);
    }
  }

  lemma QuotedGoodTail(quoted: string, more: string)
    requires OneLine(quoted) && |quoted| >= 2 && quoted[0] == '"' && quoted[|quoted| - 1] == '"' && GoodTail(more)
    ensures GoodTail(" " + quoted + more)
  {
    var s := " " + quoted + more;
    assert s[1..] == quoted + more;
    assert s[|s| - 1] == if more == "" then '"' else more[1..][|more| - 2];
  }

  lemma TrimOfGoodTail(s: string)
    requires GoodTail(s)
    ensures Trim(s) == if s == "" then "" else s[1..]
    ensures RightTrimmed(s)
  {
    if s != "" {
      assert s == " " + s[1..];
      TrimOfSpaced(s[1..]);
      assert s[|s| - 1] == s[1..][|s| - 2];
    }
  }

  /** A value followed by a printable tail reads back, tail and all. */
  lemma QuoteReadsBack(v: string, tail: string)
    requires GoodTail(tail) && ScansAgree(v, tail)
    ensures FirstQuoted(Quote(v) + tail) == Ok((v, if tail == "" then "" else tail[1..]))
  {
    TrimOfGoodTail(tail);
    FirstQuotedReadsBackIff(v, tail);
  }

  lemma {:induction false} OptionsReadBack(options: seq<string>, name: string)
    requires GoodName(name, "_choose") && GoodOptions(options, name)
    ensures ChooseOptions(Trim(OptionsText(options, name))) == Ok((options, name))
  {
    hide FirstQuoted, Trim, ScansAgree, Quote;
    OptionsTextGood(options, name);
    TrimOfGoodTail(OptionsText(options, name));
    if options == [] {
      if name != "_choose" { NameReadsBack(name); }
    } else {
      var more := OptionsText(options[1..], name);
      assert OptionsText(options, name)[1..] == Quote(options[0]) + more;
      OptionsTextGood(options[1..], name);
      OptionReadsBack(options[0], more);
      OptionsReadBack(options[1..], name);
      assert [options[0]] + options[1..] == options;
    }
  }

  lemma NameReadsBack(name: string)
    requires name != "" && Trimmed(name)
    ensures (" as " + name)[1..] == "as " + name && StartsAs("as " + name) && Trim(("as " + name)[3..]) == name
    ensures Trim("as " + name) == "as " + name
  {
    assert (" as " + name)[1..] == "as " + name && ("as " + name)[3..] == name;
    assert ("as " + name)[2 + |name|] == name[|name| - 1];
    TrimOfTrimmed(name);
    TrimOfTrimmed("as " + name);
  }

  lemma OptionReadsBack(v: string, more: string)
    requires GoodTail(more) && ScansAgree(v, more)
    ensures ChooseOptions(Quote(v) + more) == AddOptions([v], ChooseOptions(Trim(more)))
  {
    hide FirstQuoted, Trim, ScansAgree, Escape;
    var s := Quote(v) + more;
    assert s[0] == '"' && !StartsAs(s);
    QuoteReadsBack(v, more);
    TrimOfGoodTail(more);
    TrimOfTrimmed(Trim(more));
  }

  predicate AllWord(s: string) { forall c :: c in s ==> IsWord(c) }

  lemma DirectiveMatches(word: string, args: string)
    requires word != "" && AllWord(word)
    requires args != "" && args[0] == '"' && OneLine(args)
    ensures MatchDirective("@" + word + " " + args) == Ok((word, args))
  {
    var line := "@" + word + " " + args;
    assert line[1..] == word + (" " + args);
    SpanOf(IsWord, word, " " + args);
    var after := line[1 + |word|..];
    assert after == " " + args;
    SpanOf(IsPatternSpace, " ", args);
    assert after[1..] == args;
    assert args == args + "";
    SpanOf(NotNewline, args, "");
    assert line[1..1 + |word|] == word;
  }

  /** The printed line is one trimmed line, and its word and arguments are found again. */
  lemma DirectiveLineGood(word: string, message: string, tail: string)
    requires word != "" && AllWord(word) && OneLine(message) && GoodTail(tail)
    ensures var line := DirectiveLine(word, message, tail);
            && OneLine(line) && Trimmed(line) && line != "" && line[0] == '@' && RightTrimmed(Quote(message) + tail)
            && ParseDirective(line) == ParseArgs(line, word, Quote(message) + tail)
  {
    hide ParseArgs, MatchDirective, Escape;
    var args := Quote(message) + tail;
    EscapeOneLine(message);
    DirectiveMatches(word, args);
    assert args[|args| - 1] == if tail == "" then '"' else tail[1..][|tail| - 2];
    assert OneLine(word) && OneLine("@") && OneLine(" ");
    var line := DirectiveLine(word, message, tail);
    assert line[|line| - 1] == args[|args| - 1];
  }

  lemma AskReadsBack(line: string, message: string)
    ensures ParseArgs(line, "confirm", Quote(message) + "") == Ok(Confirm(line, message, "_confirm"))
  {
    var q := Quote(message);
    assert q + "" == q && q[1..] == Escape(message) + "\"" + "";
    TrimOfTrimmed(q);
    ValueOfEscaped(message, "");
  }

  lemma PromptReadsBack(line: string, message: string, name: string)
    requires Printable(Prompt(message, name))
    ensures ParseArgs(line, "input", Quote(message) + AsClause(name, "_input")) == Ok(Input(line, message, name))
  {
    hide FirstQuoted, Trim;
    AsClauseGood(name, "_input");
    QuoteReadsBack(message, AsClause(name, "_input"));
    if name != "_input" { NameReadsBack(name); }
  }

  lemma PickReadsBack(line: string, message: string, options: seq<string>, name: string)
    requires Printable(Pick(message, options, name))
    ensures ParseArgs(line, "choose", Quote(message) + OptionsText(options, name)) == Ok(Choose(line, message, options, 0, name))
  {
    hide ChooseArgs, FirstQuoted;
    var tail := OptionsText(options, name);
    ChooseReadsBack(message, options, name);
    assert ChooseArgs(Quote(message) + tail) == Ok((message, options, name));
  }

  lemma ChooseReadsBack(message: string, options: seq<string>, name: string)
    requires GoodName(name, "_choose") && GoodOptions(options, name) && ScansAgree(message, OptionsText(options, name))
    ensures ChooseArgs(Quote(message) + OptionsText(options, name)) == Ok((message, options, name))
  {
    hide FirstQuoted, ChooseOptions, Trim, GoodOptions, ScansAgree;
    var args, tail := Quote(message) + OptionsText(options, name), OptionsText(options, name);
    OptionsTextGood(options, name);
    assert args[|args| - 1] == if tail == "" then '"' else tail[1..][|tail| - 2];
    TrimOfTrimmed(args);
    QuoteReadsBack(message, tail);
    TrimOfGoodTail(tail);
    TrimOfTrimmed(Trim(tail));
    OptionsReadBack(options, name);
  }

  /** A trimmed line that holds a directive. */
  lemma DirectiveLineParses(line: string)
    requires line != "" && line[0] == '@' && Trimmed(line)
    ensures ParseLine(DropCr(line)) == OneStep(ParseDirective(line))
  {
    hide ParseDirective;
    TrimOfTrimmed(line);
  }

  lemma LineReadsBack(a: Action)
    requires Printable(a)
    ensures OneLine(Print(a)) && ParseLine(DropCr(Print(a))) == Ok(StepsOf(a))
  {
    hide ParseArgs, ParseDirective, DirectiveLine, OptionsText, AsClause, ScansAgree, Quote;
    match a {
      case Run(command) =>
        TrimOfTrimmed(command);
      case Ask(message) =>
        DirectiveLineGood("confirm", message, "");
        AskReadsBack(Print(a), message);
        DirectiveLineParses(Print(a));
      case Prompt(message, name) =>
        AsClauseGood(name, "_input");
        DirectiveLineGood("input", message, AsClause(name, "_input"));
        PromptReadsBack(Print(a), message, name);
        DirectiveLineParses(Print(a));
      case Pick(message, options, name) =>
        OptionsTextGood(options, name);
        DirectiveLineGood("choose", message, OptionsText(options, name));
        PickReadsBack(Print(a), message, options, name);
        DirectiveLineParses(Print(a));
      case Note(text) =>
        TrimKeepsHead(DropCr(Print(a)));
    }
  }

  /** Printing a script and parsing the text gives its steps back. */
  lemma {:induction false} ScriptReadsBack(script: seq<Action>, lineNum: nat)
    requires forall a :: a in script ==> Printable(a)
    ensures ParseLines(Lines(PrintAll(script)), lineNum) == Steps(StepsOfAll(script))
    decreases |script|
  {
    if script != [] {
      assert script[0] in script;
      LineReadsBack(script[0]);
      LinesOfPrinted(Print(script[0]), PrintAll(script[1..]));
      ScriptReadsBack(script[1..], lineNum + 1);
    }
  }

  // ---- The parser as the source runs it ------------------------------------------------------------

  method ExtractQuotedString(input: string) returns (r: Outcome<string>)
    ensures r == QuotedString(input)
  {
    var s := Trim(input);
    if |s| < 2 || s[0] != '"' {
      return Err(ExpectedQuoted);
    }
    var buf, i, found := "", 1, false;
    PrefixedTwice("", "", Value(s[1..]));
    while i < |s|
      invariant 1 <= i <= |s| && !found
      invariant Value(s[1..]) == Prefixed(buf, Value(s[i..]))
    {
      var ch := s[i];
      if ch == '"' {
        assert Value(s[i..]) == Ok("") && buf + "" == buf;
        i, found := i + 1, true;
        break;
      }
      if ch == '\\' && i + 1 < |s| {
        assert s[i..][2..] == s[i + 2..];
        PrefixedTwice(buf, [s[i + 1]], Value(s[i + 2..]));
        i := i + 1;
        buf := buf + [s[i]];
      } else {
        assert s[i..][1..] == s[i + 1..];
        PrefixedTwice(buf, [ch], Value(s[i + 1..]));
        buf := buf + [ch];
      }
      i := i + 1;
    }
    if !found {
      return Err(Unclosed);
    }
    r := Ok(buf);
  }

  lemma PrefixedTwice(a: string, b: string, r: Outcome<string>)
    ensures Prefixed(a, Prefixed(b, r)) == Prefixed(a + b, r)
    ensures Prefixed("", r) == r
  {
    if r.Ok? { assert a + (b + r.value) == (a + b) + r.value && "" + r.value == r.value; }
  }

  method ExtractFirstQuoted(input: string) returns (r: Outcome<(string, string)>)
    ensures r == FirstQuoted(input)
  {
    var s := Trim(input);
    var idx := Span(NotQuote, s);
    if idx == |s| {
      return Err(ExpectedQuoted);
    }
    var value := ExtractQuotedString(s[idx..]);
    match value {
      case Err(e) => return Err(e);
      case Crash => return Crash;
      case Ok(val) =>
        var endIdx := EndIndex(s, idx);
        if endIdx > |s| {
          return Crash;
        }
        r := Ok((val, Trim(s[endIdx..])));
    }
  }

  /** The end scan as the source runs it; a result beyond the end of s is the panic to come. */
  method EndIndex(s: string, idx: nat) returns (endIdx: nat)
    requires idx < |s|
    ensures Rest(Behind(s, idx)) == if endIdx <= |s| then Ok(s[endIdx..]) else Crash
  {
    endIdx := idx + 2;
    if endIdx > |s| {
      assert s[|s|..] == "";
      return |s|;
    }
    while endIdx < |s|
      invariant idx + 2 <= endIdx <= |s| + 1
      invariant Rest(s[idx + 2..]) == if endIdx <= |s| then Rest(s[endIdx..]) else Crash
    {
      if s[endIdx] == '"' {
        assert s[endIdx..][1..] == s[endIdx + 1..];
        endIdx := endIdx + 1;
        if endIdx < |s| && s[endIdx] == '"' {
          continue;
        }
        return;
      }
      if s[endIdx] == '\\' {
        if endIdx + 2 <= |s| { assert s[endIdx..][2..] == s[endIdx + 2..]; }
        endIdx := endIdx + 1;
      } else {
        assert s[endIdx..][1..] == s[endIdx + 1..];
      }
      endIdx := endIdx + 1;
    }
  }

  method ParseChooseArgs(args: string) returns (r: Outcome<(string, seq<string>, string)>)
    ensures r == ChooseArgs(args)
  {
    hide FirstQuoted, ChooseOptions, Trim;
    var first := ExtractFirstQuoted(Trim(args));
    match first {
      case Err(e) => return Err(e);
      case Crash => return Crash;
      case Ok((prompt, after)) =>
        var parsed := ParseOptions(Trim(after));
        match parsed {
          case Err(e) => return Err(e);
          case Crash => return Crash;
          case Ok((options, name)) => return Ok((prompt, options, name));
        }
    }
  }

  /** The loop over the options. */
  method ParseOptions(text: string) returns (r: Outcome<(seq<string>, string)>)
    ensures r == ChooseOptions(text)
  {
    hide FirstQuoted, Trim;
    var options, varName, rest := [], "", text;
    AddOptionsTwice([], [], ChooseOptions(text));
    while rest != ""
      invariant varName == "" && ChooseOptions(text) == AddOptions(options, ChooseOptions(rest))
      decreases |rest|
    {
      if StartsAs(rest) {
        varName := Trim(rest[3..]);
        break;
      }
      FirstQuotedShrinks(rest);
      var next := ExtractFirstQuoted(rest);
      match next {
        case Err(_) => break;
        case Crash => return Crash;
        case Ok((value, more)) =>
          AddOptionsTwice(options, [value], ChooseOptions(Trim(more)));
          options := options + [value];
          rest := Trim(more);
      }
    }
    if varName == "" {
      varName := "_choose";
    }
    assert options + [] == options;
    r := Ok((options, varName));
  }

  lemma AddOptionsTwice(a: seq<string>, b: seq<string>, r: Outcome<(seq<string>, string)>)
    ensures AddOptions(a, AddOptions(b, r)) == AddOptions(a + b, r)
    ensures AddOptions([], r) == r
  {
    if r.Ok? { assert a + (b + r.value.0) == (a + b) + r.value.0 && [] + r.value.0 == r.value.0; }
  }

  method ParseScript(content: string) returns (r: Parsed)
    ensures r == ParseLines(Lines(content), 1)
    ensures Judged(r, Lines(content), 1)
  {
    var lines, steps := Lines(content), [];
    ScriptVerdict(lines, 1);
    hide Judged, ParseLine;
    AddStepsTwice([], [], ParseLines(lines, 1));
    assert lines[0..] == lines;
    for i := 0 to |lines|
      invariant ParseLines(lines, 1) == AddSteps(steps, ParseLines(lines[i..], i + 1))
    {
      assert lines[i..][0] == lines[i] && lines[i..][1..] == lines[i + 1..];
      match ParseLine(lines[i]) {
        case Err(e) => return BadLine(i + 1, e);
        case Crash => return Panic;
        case Ok(here) =>
          AddStepsTwice(steps, here, ParseLines(lines[i + 1..], i + 2));
          steps := steps + here;
      }
    }
    r := Steps(steps);
  }

  lemma AddStepsTwice(a: seq<Step>, b: seq<Step>, r: Parsed)
    ensures AddSteps(a, AddSteps(b, r)) == AddSteps(a + b, r)
    ensures AddSteps([], r) == r
  {
    if r.Steps? { assert a + (b + r.steps) == (a + b) + r.steps && [] + r.steps == r.steps; }
  }
}
