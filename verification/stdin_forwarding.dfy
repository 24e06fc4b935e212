/**
 * The two loops that take stdin out of a call: the terminal session's goroutine, which stops at the first answer with
 * the end set, and a plugin's reader, which reads on until an empty answer with the end set. Before every read the
 * call is looked up again, so closing and unregistering can come in between.
 */
module StdinForwarding {
  import opened Seqs
  import CallRegistry

  /** The loop is between two reads, holds the call it has looked up, or is done. */
  datatype Loop = Between | Holding | Stopped

  /** One call as its loop sees it. `stored` and `forwarded` record every byte put in and passed on. */
  datatype State<B> = State(buf: seq<B>, eof: bool, registered: bool, loop: Loop, stored: seq<B>, forwarded: seq<B>)

  datatype Event<B> = Put(data: seq<B>) | SetEnd | Unregister | Turn

  /** What a read of a call that was found gives: the bytes passed on, the bytes left, and where the loop goes. */
  function Answer<B>(buf: seq<B>, eof: bool, max: int, stopsAtEnd: bool): (seq<B>, seq<B>, Loop) {
    if buf != [] then
      var n := CallRegistry.Amount(buf, max);
      (buf[..n], buf[n..], if eof && stopsAtEnd then Stopped else Between)
    else ([], [], if eof then Stopped else Holding)
  }

  function Step<B>(s: State<B>, e: Event<B>, max: int, stopsAtEnd: bool): State<B> {
    match e
    case Put(data) => s.(buf := s.buf + data, stored := s.stored + data)
    case SetEnd => s.(eof := true)
    case Unregister => s.(registered := false)
    case Turn =>
      match s.loop
      case Stopped => s
      case Between => s.(loop := if s.registered then Holding else Stopped)
      case Holding =>
        var (sent, left, loop) := Answer(s.buf, s.eof, max, stopsAtEnd);
        s.(buf := left, loop := loop, forwarded := s.forwarded + sent)
  }

  function Run<B>(s: State<B>, events: seq<Event<B>>, max: int, stopsAtEnd: bool): State<B>
    decreases |events|
  {
    if events == [] then s else Run(Step(s, events[0], max, stopsAtEnd), events[1..], max, stopsAtEnd)
  }

  // ---- What every run keeps -----------------------------------------------------------------

  ghost predicate Accounts<B(!new)>(s: State<B>) {
    s.stored == s.forwarded + s.buf
  }

  lemma StepKeepsAccounts<B(!new)>(s: State<B>, e: Event<B>, max: int, stopsAtEnd: bool)
    requires Accounts(s)
    ensures Accounts(Step(s, e, max, stopsAtEnd))
  {
    match e {
      case Put(data) => Assoc(s.forwarded, s.buf, data);
      case Turn =>
        if s.loop == Holding && s.buf != [] {
          var n := CallRegistry.Amount(s.buf, max);
          assert s.buf == s.buf[..n] + s.buf[n..];
          Assoc(s.forwarded, s.buf[..n], s.buf[n..]);
        } else {
          assert s.forwarded + [] == s.forwarded;
        }
      case _ =>
    }
  }

  lemma {:induction false} RunKeepsAccounts<B(!new)>(s: State<B>, events: seq<Event<B>>, max: int, stopsAtEnd: bool)
    requires Accounts(s)
    ensures Accounts(Run(s, events, max, stopsAtEnd))
    decreases |events|
  {
    if events != [] {
      StepKeepsAccounts(s, events[0], max, stopsAtEnd);
      RunKeepsAccounts(Step(s, events[0], max, stopsAtEnd), events[1..], max, stopsAtEnd);
    }
  }

  /** With the accounts in order, all stored bytes were passed on exactly when none is left. */
  lemma AllForwardedIffEmpty<B(!new)>(s: State<B>)
    requires Accounts(s)
    ensures s.forwarded == s.stored <==> s.buf == []
  {
    if s.forwarded == s.stored { assert |s.stored| == |s.forwarded| + |s.buf|; }
    if s.buf == [] { assert s.forwarded + [] == s.forwarded; }
  }

  /** All data put in, in order. */
  function PutData<B>(events: seq<Event<B>>): seq<B> {
    if events == [] then [] else (match events[0] case Put(data) => data case _ => []) + PutData(events[1..])
  }

  /** Over every run: what was passed on and what is left is what was there and what was put in since, in order. */
  lemma {:induction false} PutsArePassedOn<B(!new)>(s: State<B>, events: seq<Event<B>>, max: int, stopsAtEnd: bool)
    ensures var n := Run(s, events, max, stopsAtEnd); n.forwarded + n.buf == s.forwarded + s.buf + PutData(events)
    ensures Run(s, events, max, stopsAtEnd).eof <==> s.eof || SetEnd in events
    ensures Run(s, events, max, stopsAtEnd).registered <==> s.registered && Unregister !in events
    decreases |events|
  {
    var all := s.forwarded + s.buf;
    if events == [] {
      assert all + [] == all;
    } else {
      var n, rest := Step(s, events[0], max, stopsAtEnd), events[1..];
      PutsArePassedOn(n, rest, max, stopsAtEnd);
      StepPassesOn(s, events[0], max, stopsAtEnd);
      assert events == [events[0]] + rest;
      var here := match events[0] case Put(data) => data case _ => [];
      hide Step, Run;
      Assoc(all, here, PutData(rest));
    }
  }

  lemma StepPassesOn<B(!new)>(s: State<B>, e: Event<B>, max: int, stopsAtEnd: bool)
    ensures var n := Step(s, e, max, stopsAtEnd);
            && n.forwarded + n.buf == s.forwarded + s.buf + (match e case Put(data) => data case _ => [])
            && (n.eof <==> s.eof || e == SetEnd) && (n.registered <==> s.registered && e != Unregister)
  {
    var all := s.forwarded + s.buf;
    assert all + [] == all;
    match e {
      case Put(data) => Assoc(s.forwarded, s.buf, data);
      case Turn =>
        if s.loop == Holding && s.buf != [] {
          var k := CallRegistry.Amount(s.buf, max);
          assert s.buf == s.buf[..k] + s.buf[k..];
          Assoc(s.forwarded, s.buf[..k], s.buf[k..]);
        } else {
          assert s.forwarded + [] == s.forwarded;
        }
      case _ =>
    }
  }

  /** A loop stops only at the end or on a call that is gone; an empty buffer alone makes it wait. */
  lemma {:induction false} StopsOnlyAtEnd<B(!new)>(s: State<B>, events: seq<Event<B>>, max: int, stopsAtEnd: bool)
    requires s.loop != Stopped
    ensures var n := Run(s, events, max, stopsAtEnd); n.loop == Stopped ==> n.eof || !n.registered
    decreases |events|
  {
    if events != [] {
      var n := Step(s, events[0], max, stopsAtEnd);
      if n.loop != Stopped {
        StopsOnlyAtEnd(n, events[1..], max, stopsAtEnd);
      } else {
        EndsLast(n, events[1..], max, stopsAtEnd);
      }
    }
  }

  lemma {:induction false} EndsLast<B(!new)>(s: State<B>, events: seq<Event<B>>, max: int, stopsAtEnd: bool)
    requires s.eof || !s.registered
    ensures var n := Run(s, events, max, stopsAtEnd); n.eof || !n.registered
    decreases |events|
  {
    if events != [] { EndsLast(Step(s, events[0], max, stopsAtEnd), events[1..], max, stopsAtEnd); }
  }

  /** One turn of a loop that holds its call: it passes on what one answer takes, and waits if there is nothing yet. */
  lemma TurnPassesOn<B(!new)>(s: State<B>, max: int, stopsAtEnd: bool)
    requires s.loop == Holding
    ensures var n := Step(s, Turn, max, stopsAtEnd);
            && |n.buf| == (if 0 < max < |s.buf| then |s.buf| - max else 0)
            && (n.loop == Holding <==> s.buf == [] && !s.eof)
            && (n.loop == Stopped <==> s.eof && (stopsAtEnd || s.buf == []))
  {
  }

  // ---- After the end is set -----------------------------------------------------------------

  /** Nothing more is stored. */
  ghost predicate NoPuts<B(!new)>(events: seq<Event<B>>) {
    forall i :: 0 <= i < |events| ==> !events[i].Put?
  }

  ghost predicate StaysRegistered<B(!new)>(events: seq<Event<B>>) {
    forall i :: 0 <= i < |events| ==> !events[i].Unregister?
  }

  predicate OneAnswer<B>(buf: seq<B>, max: int) {
    max <= 0 || |buf| <= max
  }

  /** Whenever the loop comes to its end, it has passed on every stored byte. */
  ghost predicate GetsAll<B(!new)>(s: State<B>, max: int, stopsAtEnd: bool) {
    forall more :: NoPuts(more) ==> Complete(Run(s, more, max, stopsAtEnd))
  }

  /** The same as long as the call stays registered. */
  ghost predicate GetsAllRegistered<B(!new)>(s: State<B>, max: int, stopsAtEnd: bool) {
    forall more :: NoPuts(more) && StaysRegistered(more) ==> Complete(Run(s, more, max, stopsAtEnd))
  }

  ghost predicate Complete<B(!new)>(s: State<B>) {
    s.loop == Stopped ==> s.forwarded == s.stored
  }

  /** The bytes left fit the answer to a read that has its call already. */
  ghost predicate LastAnswer<B(!new)>(s: State<B>, max: int) {
    s.eof && (s.buf == [] || (s.loop == Holding && OneAnswer(s.buf, max)))
  }

  lemma {:induction false} LastAnswerLasts<B(!new)>(s: State<B>, events: seq<Event<B>>, max: int, stopsAtEnd: bool)
    requires LastAnswer(s, max) && NoPuts(events)
    ensures LastAnswer(Run(s, events, max, stopsAtEnd), max)
    decreases |events|
  {
    if events != [] {
      assert forall i :: 0 <= i < |events[1..]| ==> events[1..][i] == events[i + 1];
      LastAnswerLasts(Step(s, events[0], max, stopsAtEnd), events[1..], max, stopsAtEnd);
    }
  }

  /** When the call can be unregistered at any time, taking a whole answer and being unregistered loses the rest. */
  function LosingMoves<B>(s: State<B>): seq<Event<B>> {
    if s.loop == Holding then [Turn, Unregister, Turn] else [Unregister, Turn]
  }

  lemma LosingMovesLose<B(!new)>(s: State<B>, max: int, stopsAtEnd: bool)
    requires s.eof && Accounts(s) && !LastAnswer(s, max)
    ensures NoPuts(LosingMoves(s)) && !Complete(Run(s, LosingMoves(s), max, stopsAtEnd))
  {
    var moves := LosingMoves(s);
    RunKeepsAccounts(s, moves, max, stopsAtEnd);
    if s.loop == Holding {
      var a := Step(s, Turn, max, stopsAtEnd);
      var b := Step(a, Unregister, max, stopsAtEnd);
      var c := Step(b, Turn, max, stopsAtEnd);
      assert moves[1..] == [Unregister, Turn] && moves[1..][1..] == [Turn] && moves[1..][1..][1..] == [];
      assert c.loop == Stopped && c.buf == s.buf[CallRegistry.Amount(s.buf, max)..] && c.buf != [];
      assert Run(b, [Turn], max, stopsAtEnd) == c && Run(a, [Unregister, Turn], max, stopsAtEnd) == c;
      AllForwardedIffEmpty(c);
    } else {
      var b := Step(s, Unregister, max, stopsAtEnd);
      var c := Step(b, Turn, max, stopsAtEnd);
      assert moves[1..] == [Turn] && moves[1..][1..] == [];
      assert c.loop == Stopped && c.buf == s.buf != [];
      assert Run(b, [Turn], max, stopsAtEnd) == c;
      AllForwardedIffEmpty(c);
    }
  }

  /**
   * Closing and unregistering a call are two steps of its handler, and a loop may find the call gone after either.
   * Once the end is set, both loops are sure to pass on every stored byte if and only if none is buffered, or the loop
   * holds the call already and one answer takes them all.
   */
  lemma GetsAllIff<B(!new)>(s: State<B>, max: int, stopsAtEnd: bool)
    requires s.eof && Accounts(s)
    ensures GetsAll(s, max, stopsAtEnd) <==> s.buf == [] || (s.loop == Holding && OneAnswer(s.buf, max))
  {
    if LastAnswer(s, max) {
      forall more: seq<Event<B>> | NoPuts(more) ensures Complete(Run(s, more, max, stopsAtEnd)) {
        LastAnswerLasts(s, more, max, stopsAtEnd);
        RunKeepsAccounts(s, more, max, stopsAtEnd);
        AllForwardedIffEmpty(Run(s, more, max, stopsAtEnd));
      }
    } else {
      LosingMovesLose(s, max, stopsAtEnd);
    }
  }

  /** What keeps a loop complete while the call stays registered. */
  ghost predicate Completing<B(!new)>(s: State<B>, max: int, stopsAtEnd: bool) {
    s.eof && s.registered && (s.loop == Stopped ==> s.buf == []) && (stopsAtEnd ==> OneAnswer(s.buf, max))
  }

  lemma {:induction false} CompletingLasts<B(!new)>(s: State<B>, events: seq<Event<B>>, max: int, stopsAtEnd: bool)
    requires Completing(s, max, stopsAtEnd) && NoPuts(events) && StaysRegistered(events)
    ensures Completing(Run(s, events, max, stopsAtEnd), max, stopsAtEnd)
    decreases |events|
  {
    if events != [] {
      assert forall i :: 0 <= i < |events[1..]| ==> events[1..][i] == events[i + 1];
      assert !events[0].Put? && !events[0].Unregister?;
      CompletingLasts(Step(s, events[0], max, stopsAtEnd), events[1..], max, stopsAtEnd);
    }
  }

  lemma LongInputIsCutOff<B(!new)>(s: State<B>, max: int)
    requires s.eof && s.registered && Accounts(s) && s.loop != Stopped && !OneAnswer(s.buf, max)
    ensures !GetsAllRegistered(s, max, true)
  {
    var held := if s.loop == Holding then s else Step(s, Turn, max, true);
    var end := Step(held, Turn, max, true);
    assert end.loop == Stopped && end.buf == s.buf[CallRegistry.Amount(s.buf, max)..] && end.buf != [];
    StepKeepsAccounts(held, Turn, max, true);
    AllForwardedIffEmpty(end);
    var moves: seq<Event<B>> := if s.loop == Holding then [Turn] else [Turn, Turn];
    var one: seq<Event<B>> := [Turn];
    assert one[1..] == [] && [Turn] + one == [Turn, Turn] && ([Turn] + one)[1..] == one;
    assert Run(held, [Turn], max, true) == end;
    assert Run(s, moves, max, true) == end && NoPuts(moves) && StaysRegistered(moves);
  }

  /**
   * While the call stays registered, a plugin's reader passes on every stored byte; the terminal session does so if and
   * only if one answer takes all that is buffered when the end is set.
   */
  lemma GetsAllRegisteredIff<B(!new)>(s: State<B>, max: int, stopsAtEnd: bool)
    requires s.eof && s.registered && Accounts(s) && s.loop != Stopped
    ensures GetsAllRegistered(s, max, stopsAtEnd) <==> !stopsAtEnd || OneAnswer(s.buf, max)
  {
    if !stopsAtEnd || OneAnswer(s.buf, max) {
      forall more: seq<Event<B>> | NoPuts(more) && StaysRegistered(more) ensures Complete(Run(s, more, max, stopsAtEnd)) {
        CompletingLasts(s, more, max, stopsAtEnd);
        RunKeepsAccounts(s, more, max, stopsAtEnd);
        AllForwardedIffEmpty(Run(s, more, max, stopsAtEnd));
      }
    } else {
      LongInputIsCutOff(s, max);
    }
  }

  function Turns<B>(n: nat): seq<Event<B>> {
    if n == 0 then [] else [Turn] + Turns(n - 1)
  }

  /** The loops do come to their end: once the end is set, some number of turns stops them. */
  lemma {:induction false} TurnsStop<B(!new)>(s: State<B>, max: int, stopsAtEnd: bool) returns (n: nat)
    requires s.eof
    ensures Run(s, Turns(n), max, stopsAtEnd).loop == Stopped
    decreases |s.buf|, if s.loop == Between then 2 else if s.loop == Holding then 1 else 0
  {
    if s.loop == Stopped {
      n := 0;
    } else {
      var next := Step(s, Turn, max, stopsAtEnd);
      var k := TurnsStop(next, max, stopsAtEnd);
      n := k + 1;
      assert Turns<B>(n)[1..] == Turns(k);
    }
  }

  // ---- One turn as the source runs it ----------------------------------------------------------

  /** A read of the call the loop holds, and what the loop makes of the answer. */
  method TakeTurn<K, B>(call: CallRegistry.ActiveCall<K, B>, max: int, stopsAtEnd: bool) returns (sent: seq<B>, next: Loop)
    modifies call
    ensures (sent, call.stdinBuf, next) == Answer(old(call.stdinBuf), call.stdinEof, max, stopsAtEnd)
    ensures call.stdinEof == old(call.stdinEof) && sent + call.stdinBuf == old(call.stdinBuf)
  {
    var r := call.TryRead(max);
    match r {
      case Bytes(data, eof) =>
        sent, next := data, if eof && stopsAtEnd then Stopped else Between;
      case End =>
        sent, next := [], Stopped;
      case Wait =>
        sent, next := [], Holding;
    }
  }
}
