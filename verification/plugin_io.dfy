/** The plugin side of streaming I/O: the line-buffering writer, and the readers of stdin and of a terminal. */
module PluginIo {
  import opened Seqs
  import opened Text
  import OutputQueue

  // ---- The writer ----------------------------------------------------------------------------

  /** The message a line is sent as: every trailing carriage return goes with the newline. */
  function Message(line: string): string {
    if line != "" && (line[|line| - 1] == '\r' || line[|line| - 1] == '\n') then Message(line[..|line| - 1]) else line
  }

  function Messages(lines: seq<string>): seq<string> {
    if lines == [] then [] else [Message(lines[0])] + Messages(lines[1..])
  }

  /** All carriage returns and newlines at the end go, and nothing else does. */
  lemma {:induction false} MessageIs(body: string, ends: string)
    requires forall c :: c in ends ==> c == '\r' || c == '\n'
    requires body == "" || (body[|body| - 1] != '\r' && body[|body| - 1] != '\n')
    ensures Message(body + ends) == body
    decreases |ends|
  {
    if ends == "" {
      assert body + ends == body;
    } else {
      var n := |ends| - 1;
      assert ends[n] in ends && (body + ends)[..|body| + n] == body + ends[..n];
      forall c | c in ends[..n] ensures c in ends { }
      MessageIs(body, ends[..n]);
    }
  }

  /** Each line is sent as its own message and queued as its own chunk, in order. */
  lemma {:induction false} EachLineIsSent(lines: seq<string>)
    ensures |Messages(lines)| == |Chunks(lines)| == |lines|
    ensures forall i :: 0 <= i < |lines| ==>
              Messages(lines)[i] == Message(lines[i]) && Chunks(lines)[i] == Message(lines[i]) + "\n"
  {
    if lines != [] { EachLineIsSent(lines[1..]); }
  }

  class DaemonLogWriter {
    var buf: string
    var sent: seq<string>

    constructor ()
      ensures Valid() && buf == "" && sent == []
    {
      buf, sent := "", [];
    }

    /** Between writes the buffer holds no complete line. */
    ghost predicate Valid()
      reads this
    {
      '\n' !in buf
    }

    method Write(data: string) returns (n: nat)
      requires Valid()
      modifies this
      ensures Valid() && n == |data|
      ensures sent == old(sent) + Messages(CompleteLines(old(buf) + data))
      ensures buf == Tail(old(buf) + data)
    {
      n := |data|;
      var p := data;
      while p != ""
        invariant '\n' !in buf
        invariant sent + Messages(CompleteLines(buf + p)) == old(sent) + Messages(CompleteLines(old(buf) + data))
        invariant Tail(buf + p) == Tail(old(buf) + data)
        decreases |p|
      {
        var idx := Span(NotNewline, p);
        if idx == |p| {
          NoLine(buf + p);
          buf := buf + p;
          return;
        }
        var line, rest := buf + p[..idx + 1], p[idx + 1..];
        NextLine(buf, p, idx);
        MessagesCons(sent, line, CompleteLines(rest));
        assert "" + rest == rest;
        sent, buf, p := sent + [Message(line)], "", rest;
      }
      NoLine(buf);
      assert buf + p == buf;
    }
  }

  lemma NextLine(buf: string, p: string, idx: nat)
    requires '\n' !in buf && idx < |p| && p[idx] == '\n' && forall i :: 0 <= i < idx ==> NotNewline(p[i])
    ensures CompleteLines(buf + p) == [buf + p[..idx + 1]] + CompleteLines(p[idx + 1..])
    ensures Tail(buf + p) == Tail(p[idx + 1..])
  {
    var body := buf + p[..idx];
    assert buf + p == body + ("\n" + p[idx + 1..]) && buf + p[..idx + 1] == body + "\n";
    FirstLine(body, p[idx + 1..]);
  }

  lemma MessagesCons(sent: seq<string>, line: string, more: seq<string>)
    ensures sent + Messages([line] + more) == (sent + [Message(line)]) + Messages(more)
  {
    assert ([line] + more)[1..] == more;
  }

  /** The lines sent and the text left in the buffer after a series of writes. */
  function Written(buf: string, writes: seq<string>): (seq<string>, string)
    decreases |writes|
  {
    if writes == [] then ([], buf)
    else
      var (lines, end) := Written(Tail(buf + writes[0]), writes[1..]);
      (CompleteLines(buf + writes[0]) + lines, end)
  }

  /** However the text is split into writes, its complete lines are sent and its tail stays in the buffer. */
  lemma {:induction false} SplitsDoNotMatter(buf: string, writes: seq<string>)
    requires '\n' !in buf
    ensures Written(buf, writes) == (CompleteLines(buf + Flat(writes)), Tail(buf + Flat(writes)))
    decreases |writes|
  {
    if writes == [] {
      assert buf + Flat(writes) == buf;
      NoLine(buf);
    } else {
      hide CompleteLines, Tail;
      SplitsDoNotMatter(Tail(buf + writes[0]), writes[1..]);
      SplitAnywhere(buf + writes[0], Flat(writes[1..]));
      FlatFirst(buf, writes);
    }
  }

  /** No byte of a series of writes is lost, doubled or moved: it is in a line sent or still in the buffer. */
  lemma WritesLoseNothing(writes: seq<string>)
    ensures var (lines, end) := Written("", writes); Flat(lines) + end == Flat(writes)
  {
    SplitsDoNotMatter("", writes);
    EmptyLeft(Flat(writes));
    LinesAndTailAreText(Flat(writes));
  }

  lemma FlatFirst(buf: string, writes: seq<string>)
    requires writes != []
    ensures (buf + writes[0]) + Flat(writes[1..]) == buf + Flat(writes)
  {
  }

  // ---- From the writer to the queue of the call ---------------------------------------------

  /** What is queued for a line: its message and a newline. */
  function Chunk(line: string): string {
    Message(line) + "\n"
  }

  function Chunks(lines: seq<string>): seq<string> {
    if lines == [] then [] else [Chunk(lines[0])] + Chunks(lines[1..])
  }

  /** A line arrives as it was written exactly when it has no carriage return before its newline. */
  lemma ChunkIsLineIff(body: string)
    requires '\n' !in body
    ensures Chunk(body + "\n") == body + "\n" <==> (body == "" || body[|body| - 1] != '\r')
  {
    var line := body + "\n";
    assert line[..|body|] == body;
    assert Message(line) == Message(body);
    MessageShrinks(body);
  }

  lemma {:induction false} MessageShrinks(line: string)
    ensures Message(line) <= line
    ensures line != "" && (line[|line| - 1] == '\r' || line[|line| - 1] == '\n') ==> |Message(line)| < |line|
  {
    if line != "" && (line[|line| - 1] == '\r' || line[|line| - 1] == '\n') { MessageShrinks(line[..|line| - 1]); }
  }

  lemma {:induction false} ChunksAreLines(t: string)
    requires '\r' !in t
    ensures Chunks(CompleteLines(t)) == CompleteLines(t)
    decreases |t|
  {
    var n := Span(NotNewline, t);
    if n < |t| {
      ChunksAreLines(t[n + 1..]);
      AtNewline(t, n);
      ChunkIsLineIff(t[..n]);
    }
  }

  /**
   * End to end for one writer whose call nobody reads yet: the call's channel holds exactly the chunks of the last
   * lines of what the plugin wrote, however it was split into writes.
   */
  lemma QueueHoldsLastChunks(writes: seq<string>, capacity: nat)
    ensures OutputQueue.Pushed([], Chunks(Written("", writes).0), capacity)
            == LastN(Chunks(CompleteLines(Flat(writes))), capacity)
  {
    SplitsDoNotMatter("", writes);
    EmptyLeft(Flat(writes));
    var chunks := Chunks(CompleteLines(Flat(writes)));
    OutputQueue.PushedIsLastN([], chunks, capacity);
    EmptyLeft(chunks);
  }

  /** Without carriage returns these are the lines themselves. */
  lemma QueueHoldsLastLines(writes: seq<string>, capacity: nat)
    requires '\r' !in Flat(writes)
    ensures OutputQueue.Pushed([], Chunks(Written("", writes).0), capacity) == LastN(CompleteLines(Flat(writes)), capacity)
  {
    QueueHoldsLastChunks(writes, capacity);
    ChunksAreLines(Flat(writes));
  }

  datatype Output = Stdout | Stderr

  /** The last slash of a source, if any. */
  function LastSlash(source: string): (r: Option<nat>)
    ensures r.Some? ==> r.value < |source| && source[r.value] == '/' && '/' !in source[r.value + 1..]
    ensures r.None? ==> '/' !in source
  {
    if source == "" then None
    else if source[|source| - 1] == '/' then Some(|source| - 1)
    else
      assert source == source[..|source| - 1] + [source[|source| - 1]];
      LastSlash(source[..|source| - 1])
  }

  /** The plugin and stream a log record is forwarded for. */
  function Route(source: string): Option<(string, Output)> {
    match LastSlash(source)
    case None => None
    case Some(slash) =>
      if slash == 0 then None
      else if source[slash..] == "/stdout" then Some((source[..slash], Stdout))
      else if source[slash..] == "/stderr" then Some((source[..slash], Stderr))
      else None
  }

  /** A plugin's own streams are forwarded under its own name, slashes in it included, unless the name is empty. */
  lemma RouteFindsPlugin(name: string)
    ensures Route(name + "/stdout") == if name == "" then None else Some((name, Stdout))
    ensures Route(name + "/stderr") == if name == "" then None else Some((name, Stderr))
  {
    SlashBefore(name, "stdout");
    SlashBefore(name, "stderr");
    assert name + ("/" + "stdout") == name + "/stdout" && name + ("/" + "stderr") == name + "/stderr";
    assert (name + "/stdout")[..|name|] == name && (name + "/stdout")[|name|..] == "/stdout";
    assert (name + "/stderr")[..|name|] == name && (name + "/stderr")[|name|..] == "/stderr";
  }

  /** Nothing else is forwarded. */
  lemma RouteIff(source: string, name: string, out: Output)
    ensures Route(source) == Some((name, out)) <==>
              name != "" && source == name + match out case Stdout => "/stdout" case Stderr => "/stderr"
  {
    RouteFindsPlugin(name);
    if Route(source).Some? { assert source == source[..LastSlash(source).value] + source[LastSlash(source).value..]; }
    hide LastSlash;
  }

  lemma {:induction false} SlashBefore(name: string, stream: string)
    requires '/' !in stream
    ensures LastSlash(name + ("/" + stream)) == Some(|name|)
  {
    var s := name + ("/" + stream);
    if stream == "" {
      assert s[|s| - 1] == '/';
    } else {
      assert s[..|s| - 1] == name + ("/" + stream[..|stream| - 1]) && s[|s| - 1] == stream[|stream| - 1];
      SlashBefore(name, stream[..|stream| - 1]);
    }
  }

  predicate EndsWith(s: string, suffix: string) {
    |s| >= |suffix| && s[|s| - |suffix|..] == suffix
  }

  lemma EndsWithIff(s: string, suffix: string)
    ensures EndsWith(s, suffix) <==> exists start: string :: s == start + suffix
  {
    if EndsWith(s, suffix) { assert s == s[..|s| - |suffix|] + suffix; }
    forall start: string | s == start + suffix ensures EndsWith(s, suffix) { assert s[|start|..] == suffix; }
  }

  /** The two output channels of a live call. */
  class OutputCall {
    const stdout: OutputQueue.Channel<string>
    const stderr: OutputQueue.Channel<string>

    ghost predicate Valid()
      reads stdout, stderr
    {
      stdout != stderr && stdout.Valid() && stderr.Valid()
      && stdout.capacity == stderr.capacity == OutputQueue.CALL_CAPACITY
    }

    constructor ()
      ensures Valid() && fresh(stdout) && fresh(stderr) && stdout.queue == [] && stderr.queue == []
    {
      stdout := new OutputQueue.Channel(OutputQueue.CALL_CAPACITY);
      stderr := new OutputQueue.Channel(OutputQueue.CALL_CAPACITY);
    }

    /** A line goes to the channel its source names; of a full channel the last 256 lines stay, this one included. */
    method Push(source: string, line: string)
      requires Valid()
      modifies stdout, stderr
      ensures Valid()
      ensures stdout.queue == if EndsWith(source, "/stdout") then LastN(old(stdout.queue) + [line + "\n"], 256) else old(stdout.queue)
      ensures stderr.queue == if !EndsWith(source, "/stdout") && EndsWith(source, "/stderr")
                              then LastN(old(stderr.queue) + [line + "\n"], 256) else old(stderr.queue)
    {
      var chunk := line + "\n";
      if EndsWith(source, "/stdout") {
        stdout.Push(chunk);
      } else if EndsWith(source, "/stderr") {
        stderr.Push(chunk);
      }
    }
  }

  // ---- Reading stdin -----------------------------------------------------------------------------

  /** Carriage returns become newlines. */
  function Newlines(data: string): (r: string)
    ensures |r| == |data| && forall i :: 0 <= i < |data| ==> r[i] == if data[i] == '\r' then '\n' else data[i]
  {
    seq(|data|, i requires 0 <= i < |data| => if data[i] == '\r' then '\n' else data[i])
  }

  datatype Response = Response(data: string, eof: bool)

  datatype ReadResult = Data(bytes: string) | Eof | Failed

  /** What copy(p, data) takes when p has room for `size` bytes. */
  function Taken(data: string, size: nat): nat {
    if size < |data| then size else |data|
  }

  /** The data of an answer; a call that failed brings none. */
  function DataOf(answer: Option<Response>): string {
    match answer case Some(resp) => resp.data case None => ""
  }

  class StdinReader {
    var buf: string
    /** The daemon's answers to come, None for a call that fails. */
    var answers: seq<Option<Response>>
    /** The data of the answers used so far, and the bytes returned. */
    ghost var used: string
    ghost var returned: string

    constructor (answers: seq<Option<Response>>)
      ensures Valid() && this.answers == answers && used == "" && returned == ""
    {
      buf, this.answers, used, returned := "", answers, "", "";
    }

    /** Every byte received is returned or buffered, in order, with carriage returns turned into newlines. */
    ghost predicate Valid()
      reads this
    {
      returned + buf == Newlines(used)
    }

    /**
     * The daemon is asked only when the buffer is empty. A failed call is passed on and loses nothing; the end is
     * reported only for an empty last answer.
     */
    method Read(size: nat) returns (r: ReadResult)
      requires Valid() && (buf == "" ==> answers != [])
      modifies this
      ensures Valid()
      ensures old(buf) != "" ==> r.Data? && answers == old(answers) && used == old(used)
      ensures old(buf) == "" ==>
                && answers == old(answers)[1..]
                && used == old(used) + match old(answers)[0] case Some(resp) => resp.data case None => ""
      ensures r.Failed? <==> old(buf) == "" && old(answers)[0].None?
      ensures r.Eof? <==> old(buf) == "" && old(answers)[0] == Some(Response("", true))
      ensures returned == old(returned) + if r.Data? then r.bytes else ""
      ensures !r.Data? ==> buf == ""
      ensures r.Data? ==>
                var n := if old(buf) != "" then |old(buf)| else |used| - |old(used)|;
                |r.bytes| == if size < n then size else n
    {
      if buf != "" {
        var n := Taken(buf, size);
        r := Data(buf[..n]);
        returned := returned + buf[..n];
        buf := buf[n..];
        return;
      }
      var answer := answers[0];
      answers, used := answers[1..], used + DataOf(answer);
      if answer.None? {
        return Failed;
      }
      var resp := answer.value;
      if resp.data == "" && resp.eof {
        return Eof;
      }
      var data := Newlines(resp.data);
      var n := Taken(data, size);
      r := Data(data[..n]);
      returned, buf := returned + data[..n], data[n..];
      assert returned + buf == old(returned) + data;
    }
  }

  // ---- Reading a terminal ----------------------------------------------------------------------------

  datatype Packet = Packet(data: string, eof: bool, width: int, height: int)

  datatype TtyResult = Bytes(bytes: string) | EndOfInput | Broken | Closed

  /** A packet that only announces a new window size. */
  predicate IsResize(p: Packet) {
    !p.eof && p.width > 0 && p.height > 0 && p.data == ""
  }

  /** The packets from the first one with data or an end on. */
  function Skip(packets: seq<Packet>): seq<Packet> {
    if packets == [] || packets[0].eof || packets[0].data != "" then packets else Skip(packets[1..])
  }

  /** The sizes announced before that packet. */
  function Sizes(packets: seq<Packet>): seq<(int, int)> {
    if packets == [] || packets[0].eof || packets[0].data != "" then []
    else (if IsResize(packets[0]) then [(packets[0].width, packets[0].height)] else []) + Sizes(packets[1..])
  }

  /** The bytes sent before the end. */
  function Payload(packets: seq<Packet>): string {
    if packets == [] || packets[0].eof then "" else packets[0].data + Payload(packets[1..])
  }

  lemma {:induction false} SkipKeepsPayload(packets: seq<Packet>)
    ensures Payload(Skip(packets)) == Payload(packets)
  {
    if packets != [] && !packets[0].eof && packets[0].data == "" {
      SkipKeepsPayload(packets[1..]);
      assert packets[0].data + Payload(packets[1..]) == Payload(packets[1..]);
    }
  }

  predicate IsQuiet(p: Packet) {
    !p.eof && p.data == ""
  }

  /** The window sizes among some packets, in order. */
  function SizesOf(packets: seq<Packet>): seq<(int, int)> {
    if packets == [] then []
    else
      var p := packets[|packets| - 1];
      SizesOf(packets[..|packets| - 1]) + if 0 < p.width && 0 < p.height then [(p.width, p.height)] else []
  }

  /** Quiet packets are passed over, and the sizes they announce, both positive, are what the handler sees, in order. */
  lemma {:induction false} QuietIsSkipped(quiet: seq<Packet>, more: seq<Packet>)
    requires (forall p :: p in quiet ==> IsQuiet(p)) && (more == [] || !IsQuiet(more[0]))
    ensures Skip(quiet + more) == more && Sizes(quiet + more) == SizesOf(quiet)
    decreases |quiet|
  {
    if quiet == [] {
      assert quiet + more == more;
    } else {
      assert quiet[0] in quiet && (quiet + more)[1..] == quiet[1..] + more;
      QuietIsSkipped(quiet[1..], more);
      SizesFirst(quiet);
    }
  }

  lemma {:induction false} SizesFirst(packets: seq<Packet>)
    requires packets != []
    ensures var p := packets[0];
            SizesOf(packets) == (if 0 < p.width && 0 < p.height then [(p.width, p.height)] else []) + SizesOf(packets[1..])
    decreases |packets|
  {
    if |packets| == 1 {
      assert packets[..0] == [] && packets[1..] == [];
    } else {
      var n := |packets| - 1;
      SizesFirst(packets[..n]);
      assert packets[..n][1..] == packets[1..][..n - 1];
      assert packets[1..][n - 1] == packets[n];
    }
  }

  /** The data of some packets, in order. */
  function DataOfAll(packets: seq<Packet>): string {
    if packets == [] then "" else DataOfAll(packets[..|packets| - 1]) + packets[|packets| - 1].data
  }

  /** What a terminal gets to read in all is the data of the packets before the first end. */
  lemma {:induction false} PayloadIs(packets: seq<Packet>, more: seq<Packet>)
    requires (forall p :: p in packets ==> !p.eof) && (more == [] || more[0].eof)
    ensures Payload(packets + more) == DataOfAll(packets)
    decreases |packets|
  {
    if packets == [] {
      assert packets + more == more;
    } else {
      assert packets[0] in packets && (packets + more)[1..] == packets[1..] + more;
      PayloadIs(packets[1..], more);
      DataFirst(packets);
    }
  }

  lemma {:induction false} DataFirst(packets: seq<Packet>)
    requires packets != []
    ensures DataOfAll(packets) == packets[0].data + DataOfAll(packets[1..])
    decreases |packets|
  {
    if |packets| == 1 {
      assert packets[..0] == [] && packets[1..] == [];
      assert "" + packets[0].data == packets[0].data + "";
    } else {
      var n := |packets| - 1;
      DataFirst(packets[..n]);
      assert packets[..n][1..] == packets[1..][..n - 1] && packets[1..][n - 1] == packets[n];
      Assoc(packets[0].data, DataOfAll(packets[1..][..n - 1]), packets[n].data);
    }
  }

  class TtyConn {
    var packets: seq<Packet>
    var readBuf: string
    var closed: bool
    var hasHandler: bool
    var resizes: seq<(int, int)>

    constructor (packets: seq<Packet>, hasHandler: bool)
      ensures this.packets == packets && readBuf == "" && !closed && this.hasHandler == hasHandler && resizes == []
    {
      this.packets, readBuf, closed, this.hasHandler, resizes := packets, "", false, hasHandler, [];
    }

    /**
     * A read returns the next of the bytes still to be read and leaves the others; window sizes on the way reach the handler and
     * never end a read.
     */
    method Read(size: nat) returns (r: TtyResult)
      modifies this`packets, this`readBuf, this`resizes
      ensures r.Closed? <==> closed
      ensures r.Bytes? ==> r.bytes + (readBuf + Payload(packets)) == old(readBuf) + Payload(old(packets))
      ensures !r.Bytes? && !closed ==> old(readBuf) == "" && Payload(old(packets)) == ""
      ensures r.Bytes? && 0 < size ==> r.bytes != ""
      ensures r.Bytes? ==> |r.bytes| <= size && (|r.bytes| < size ==> readBuf == "")
      ensures r.EndOfInput? ==> Skip(old(packets)) != [] && Skip(old(packets))[0].eof && packets == Skip(old(packets))[1..]
      ensures r.Broken? ==> Skip(old(packets)) == [] && packets == []
      ensures resizes == old(resizes) + if hasHandler && !closed && old(readBuf) == "" then Sizes(old(packets)) else []
    {
      if closed {
        return Closed;
      }
      if readBuf != "" {
        var n := Taken(readBuf, size);
        r := Bytes(readBuf[..n]);
        readBuf := readBuf[n..];
        return;
      }
      SkipKeepsPayload(packets);
      var received := Receive();
      match received {
        case None => r := Broken;
        case Some(pkt) =>
          if pkt.eof {
            return EndOfInput;
          }
          var n := Taken(pkt.data, size);
          r := Bytes(pkt.data[..n]);
          readBuf := pkt.data[n..];
          BytesThenRest(pkt.data, n, Payload(packets));
      }
    }

    /** The receive loop: the next packet with data or an end. */
    method Receive() returns (r: Option<Packet>)
      modifies this`packets, this`resizes
      ensures match r
              case None => Skip(old(packets)) == [] == packets
              case Some(pkt) => Skip(old(packets)) == [pkt] + packets && (pkt.eof || pkt.data != "")
      ensures resizes == old(resizes) + if hasHandler then Sizes(old(packets)) else []
    {
      while packets != []
        invariant Skip(packets) == Skip(old(packets))
        invariant resizes + (if hasHandler then Sizes(packets) else []) == old(resizes) + if hasHandler then Sizes(old(packets)) else []
        decreases |packets|
      {
        var pkt := packets[0];
        if pkt.eof || pkt.data != "" {
          packets := packets[1..];
          return Some(pkt);
        }
        ResizeFirst(resizes, packets);
        packets := packets[1..];
        if pkt.width > 0 && pkt.height > 0 && hasHandler {
          resizes := resizes + [(pkt.width, pkt.height)];
        }
      }
      r := None;
    }
  }

  lemma ResizeFirst(resizes: seq<(int, int)>, packets: seq<Packet>)
    requires packets != [] && !packets[0].eof && packets[0].data == ""
    ensures var next := if IsResize(packets[0]) then resizes + [(packets[0].width, packets[0].height)] else resizes;
            resizes + Sizes(packets) == next + Sizes(packets[1..])
  {
    var more := Sizes(packets[1..]);
    if IsResize(packets[0]) {
      Assoc(resizes, [(packets[0].width, packets[0].height)], more);
    } else {
      EmptyLeft(more);
    }
  }

  lemma BytesThenRest(data: string, n: nat, more: string)
    requires n <= |data|
    ensures data[..n] + (data[n..] + more) == data + more
  {
    assert data == data[..n] + data[n..];
  }
}
