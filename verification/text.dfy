/** Plain operations on text: spans of characters, trimming, lines. */
module Text {
  import Seqs

  /** The length of the longest prefix of s whose characters all satisfy p. */
  function Span(p: char -> bool, s: string): (n: nat)
    ensures n <= |s|
    ensures forall i :: 0 <= i < n ==> p(s[i])
    ensures n < |s| ==> !p(s[n])
  {
    if s != "" && p(s[0]) then 1 + Span(p, s[1..]) else 0
  }

  lemma {:induction false} SpanOf(p: char -> bool, a: string, b: string)
    requires (forall i :: 0 <= i < |a| ==> p(a[i])) && (b == "" || !p(b[0]))
    ensures Span(p, a + b) == |a|
  {
    if a == "" {
      assert a + b == b;
    } else {
      assert (a + b)[0] == a[0] && (a + b)[1..] == a[1..] + b;
      SpanOf(p, a[1..], b);
    }
  }

  lemma SpanIs(p: char -> bool, s: string, n: nat)
    requires n <= |s| && (forall i :: 0 <= i < n ==> p(s[i])) && (n < |s| ==> !p(s[n]))
    ensures Span(p, s) == n
  {
  }

  predicate IsSpace(c: char) {
    var n := c as int;
    9 <= n <= 13 || n == 0x20 || n == 0x85 || n == 0xA0 || n == 0x1680 || 0x2000 <= n <= 0x200A
    || n == 0x2028 || n == 0x2029 || n == 0x202F || n == 0x205F || n == 0x3000
  }

  function TrimLeft(s: string): (r: string)
    ensures |r| <= |s| && r == s[|s| - |r|..]
    ensures r == "" || !IsSpace(r[0])
  {
    s[Span(IsSpace, s)..]
  }

  function TrimRight(s: string): (r: string)
    ensures r <= s
    ensures r == "" || !IsSpace(r[|r| - 1])
    ensures r != s ==> s != "" && IsSpace(s[|s| - 1])
  {
    if s != "" && IsSpace(s[|s| - 1]) then TrimRight(s[..|s| - 1]) else s
  }

  function Trim(s: string): (r: string)
    ensures |r| <= |s|
    ensures r == "" || (!IsSpace(r[0]) && !IsSpace(r[|r| - 1]))
  {
    TrimRight(TrimLeft(s))
  }

  /** s does not end in a space. */
  predicate RightTrimmed(s: string) {
    s == "" || !IsSpace(s[|s| - 1])
  }

  predicate Trimmed(s: string) {
    s == "" || (!IsSpace(s[0]) && !IsSpace(s[|s| - 1]))
  }

  lemma TrimOfTrimmed(s: string)
    requires Trimmed(s)
    ensures Trim(s) == s && TrimLeft(s) == s
  {
  }

  lemma TrimOfRightTrimmed(s: string)
    requires RightTrimmed(s)
    ensures Trim(s) == TrimLeft(s)
  {
    var l := TrimLeft(s);
    if l != "" { assert l[|l| - 1] == s[|s| - 1]; }
  }

  /** A blank in front of trimmed text is all that trimming removes. */
  lemma TrimOfSpaced(s: string)
    requires Trimmed(s)
    ensures Trim(" " + s) == s
  {
    assert RightTrimmed(" " + s) || s == "";
    if s == "" {
      assert (" " + s)[1..] == "";
    } else {
      assert (" " + s)[|" " + s| - 1] == s[|s| - 1];
      TrimOfRightTrimmed(" " + s);
      SpanOf(IsSpace, " ", s);
      assert (" " + s)[1..] == s;
    }
  }

  lemma {:induction false} TrimRightKeepsHead(s: string)
    requires s != "" && !IsSpace(s[0])
    ensures TrimRight(s) != "" && TrimRight(s)[0] == s[0]
  {
    if IsSpace(s[|s| - 1]) { TrimRightKeepsHead(s[..|s| - 1]); }
  }

  lemma TrimKeepsHead(s: string)
    requires s != "" && !IsSpace(s[0])
    ensures Trim(s) != "" && Trim(s)[0] == s[0]
  {
    TrimRightKeepsHead(s);
  }

  // ---- Lines ------------------------------------------------------------------------

  predicate NotNewline(c: char) { c != '\n' }

  function DropCr(s: string): string {
    if s != "" && s[|s| - 1] == '\r' then s[..|s| - 1] else s
  }

  /** The lines a line scanner gives: newlines dropped, one carriage return before each dropped too. */
  function Lines(content: string): seq<string> {
    if content == "" then []
    else
      var n := Span(NotNewline, content);
      if n == |content| then [DropCr(content)] else [DropCr(content[..n])] + Lines(content[n + 1..])
  }

  lemma LinesOfPrinted(line: string, rest: string)
    requires '\n' !in line
    ensures Lines(line + "\n" + rest) == [DropCr(line)] + Lines(rest)
  {
    var content := line + "\n" + rest;
    assert content == line + ("\n" + rest);
    SpanOf(NotNewline, line, "\n" + rest);
    assert content[..|line|] == line && content[|line| + 1..] == rest;
  }

  /** A last line without a newline is a line, too; and only one carriage return goes with a newline. */
  lemma LinesOfLast(line: string)
    requires '\n' !in line
    ensures Lines(line) == if line == "" then [] else [DropCr(line)]
    ensures DropCr(line + "\r") == line && (line == "" || line[|line| - 1] != '\r' ==> DropCr(line) == line)
  {
    assert line + "" == line;
    SpanOf(NotNewline, line, "");
    assert (line + "\r")[..|line|] == line;
  }

  // ---- Complete lines and the tail ----------------------------------------------------

  /** The newline-terminated lines of t, newlines included. */
  function CompleteLines(t: string): seq<string> {
    var n := Span(NotNewline, t);
    if n == |t| then [] else [t[..n + 1]] + CompleteLines(t[n + 1..])
  }

  /** What follows the last newline of t. */
  function Tail(t: string): (r: string)
    ensures '\n' !in r
  {
    var n := Span(NotNewline, t);
    if n == |t| then t else Tail(t[n + 1..])
  }

  function Flat(texts: seq<string>): string {
    if texts == [] then "" else texts[0] + Flat(texts[1..])
  }

  /** No byte is lost or added: the lines and the tail are the text. */
  lemma {:induction false} LinesAndTailAreText(t: string)
    ensures Flat(CompleteLines(t)) + Tail(t) == t
    decreases |t|
  {
    var n := Span(NotNewline, t);
    if n < |t| {
      LinesAndTailAreText(t[n + 1..]);
      var line, rest := t[..n + 1], t[n + 1..];
      assert CompleteLines(t) == [line] + CompleteLines(rest) && Tail(t) == Tail(rest);
      hide CompleteLines, Tail;
      assert ([line] + CompleteLines(rest))[1..] == CompleteLines(rest);
      Seqs.Assoc(line, Flat(CompleteLines(rest)), Tail(rest));
    }
  }

  /** Splitting a text anywhere: the tail of the first part is carried over to the second. */
  lemma {:induction false} SplitAnywhere(a: string, b: string)
    ensures CompleteLines(a + b) == CompleteLines(a) + CompleteLines(Tail(a) + b)
    ensures Tail(a + b) == Tail(Tail(a) + b)
    decreases |a|
  {
    var n := Span(NotNewline, a);
    if n == |a| {
      NoLine(a);
      assert [] + CompleteLines(a + b) == CompleteLines(a + b);
    } else {
      AtNewline(a, n);
      SplitAnywhere(a[n + 1..], b);
      SplitAfterLine(a[..n], a[n + 1..], b);
    }
  }

  /** A text cut at its first newline. */
  lemma AtNewline(t: string, n: nat)
    requires n < |t| && !NotNewline(t[n]) && forall i :: 0 <= i < n ==> NotNewline(t[i])
    ensures t == t[..n] + ("\n" + t[n + 1..]) && t[..n + 1] == t[..n] + "\n" && '\n' !in t[..n]
    ensures CompleteLines(t) == [t[..n + 1]] + CompleteLines(t[n + 1..]) && Tail(t) == Tail(t[n + 1..])
  {
    CutAt(t, n);
    SpanIs(NotNewline, t, n);
    hide Span;
  }

  lemma CutAt(t: string, n: nat)
    requires n < |t| && t[n] == '\n' && forall i :: 0 <= i < n ==> t[i] != '\n'
    ensures t == t[..n] + ("\n" + t[n + 1..]) && t[..n + 1] == t[..n] + "\n" && '\n' !in t[..n]
  {
  }

  lemma SplitAfterLine(body: string, rest: string, b: string)
    requires '\n' !in body
    requires CompleteLines(rest + b) == CompleteLines(rest) + CompleteLines(Tail(rest) + b)
    requires Tail(rest + b) == Tail(Tail(rest) + b)
    ensures var a := body + ("\n" + rest);
            && CompleteLines(a + b) == CompleteLines(a) + CompleteLines(Tail(a) + b)
            && Tail(a + b) == Tail(Tail(a) + b)
  {
    hide CompleteLines, Tail;
    FirstLine(body, rest);
    FirstLine(body, rest + b);
    assert body + ("\n" + rest) + b == body + ("\n" + (rest + b));
    var line, more := [body + "\n"], CompleteLines(Tail(rest) + b);
    assert line + (CompleteLines(rest) + more) == (line + CompleteLines(rest)) + more;
  }

  lemma FirstLine(body: string, rest: string)
    requires '\n' !in body
    ensures CompleteLines(body + ("\n" + rest)) == [body + "\n"] + CompleteLines(rest)
    ensures Tail(body + ("\n" + rest)) == Tail(rest)
  {
    var t := body + ("\n" + rest);
    assert t[..|body| + 1] == body + "\n" && t[|body| + 1..] == rest;
    AtNewline(t, |body|);
  }

  lemma NoLine(t: string)
    requires '\n' !in t
    ensures CompleteLines(t) == [] && Tail(t) == t
  {
    assert t + "" == t;
    SpanOf(NotNewline, t, "");
  }

  // ---- Dotted names -----------------------------------------------------------------------

  predicate NotDot(c: char) { c != '.' }

  predicate NoDot(s: string) {
    forall i :: 0 <= i < |s| ==> NotDot(s[i])
  }

  function Join(parts: seq<string>): string {
    if parts == [] then "" else if |parts| == 1 then parts[0] else parts[0] + ("." + Join(parts[1..]))
  }

  function Split(s: string): (parts: seq<string>)
    ensures parts != []
  {
    var n := Span(NotDot, s);
    if n == |s| then [s] else [s[..n]] + Split(s[n + 1..])
  }

  lemma {:induction false} SplitOfJoin(parts: seq<string>)
    requires parts != [] && forall i :: 0 <= i < |parts| ==> NoDot(parts[i])
    ensures Split(Join(parts)) == parts
    decreases |parts|
  {
    if |parts| == 1 {
      SpanIs(NotDot, parts[0], |parts[0]|);
    } else {
      var rest := parts[1..];
      SplitOfJoin(rest);
      SplitFirst(parts[0], Join(rest));
      assert parts == [parts[0]] + rest;
    }
  }

  lemma SplitFirst(first: string, rest: string)
    requires NoDot(first)
    ensures Split(first + ("." + rest)) == [first] + Split(rest)
  {
    var s, n := first + ("." + rest), |first|;
    SpanIs(NotDot, s, n);
    assert s[..n] == first && s[n + 1..] == rest;
  }
}
