/**
 * Plugin output on its way to the channels of calls: registry and channels in one run. A push keeps the registry's read
 * lock from the look-up to its end, so calls come and go only between pushes.
 */
module OutputRouting {
  import opened Seqs
  import CallRegistry
  import OutputQueue

  // ---- State --------------------------------------------------------------------------------

  datatype Side = Stdout | Stderr

  datatype Channel = Channel(call: nat, side: Side)

  type Channels<!P> = map<Channel, OutputQueue.State<P>>

  /** The pushes in progress, with the channel each goes to. */
  type Targets<!P> = map<P, Channel>

  datatype Push<P> = Push(p: P, to: Channel)

  /** `pushes` are all pushes begun so far, in order. */
  datatype State<!K, B, !T, !P> = State(
    reg: CallRegistry.State<K, B, T>, channels: Channels<P>, at: Targets<P>, pushes: seq<Push<P>>)

  datatype Event<K, B, T, P> =
    | Registry(e: CallRegistry.Event<K, B, T>)
    | Begin(p: P, plugin: K, client: K, side: Side)
    | Move(p: P)
    | Receive(ch: Channel)

  function Start<K, B, T, P>(): State<K, B, T, P> {
    State(CallRegistry.Start(), map[], map[], [])
  }

  // ---- Steps --------------------------------------------------------------------------------

  /** A channel nobody has used yet is empty. */
  function ChannelOf<P(!new)>(channels: Channels<P>, ch: Channel, producers: set<P>): OutputQueue.State<P> {
    if ch in channels then channels[ch] else OutputQueue.Start(producers)
  }

  /** The registry steps that need the write lock. */
  predicate Writes<K, B, T>(e: CallRegistry.Event<K, B, T>) {
    e.Open? || e.Unregister?
  }

  function Step<K(==), B, T(==), P(!new)>(s: State<K, B, T, P>, e: Event<K, B, T, P>, producers: set<P>, capacity: nat): State<K, B, T, P> {
    match e
    case Registry(e) =>
      if Writes(e) && s.at != map[] then s else s.(reg := CallRegistry.Step(s.reg, e))
    case Begin(p, plugin, client, side) =>
      if p !in producers || p in s.at then s
      else
        (match CallRegistry.Target(s.reg.byPlugin, s.reg.byClient, plugin, client)
         case None => s
         case Some(c) => s.(at := s.at[p := Channel(c, side)], pushes := s.pushes + [Push(p, Channel(c, side))]))
    case Move(p) =>
      if p !in s.at then s
      else
        var q := OutputQueue.Step(ChannelOf(s.channels, s.at[p], producers), OutputQueue.Move(p), capacity);
        var done := p in q.pcs && q.pcs[p].Ready?;
        s.(channels := s.channels[s.at[p] := q], at := if done then s.at - {p} else s.at)
    case Receive(ch) =>
      s.(channels := s.channels[ch := OutputQueue.Step(ChannelOf(s.channels, ch, producers), OutputQueue.Receive, capacity)])
  }

  function Run<K(==), B, T(==), P(!new)>(s: State<K, B, T, P>, events: seq<Event<K, B, T, P>>, producers: set<P>, capacity: nat)
    : State<K, B, T, P>
    decreases |events|
  {
    if events == [] then s else Run(Step(s, events[0], producers, capacity), events[1..], producers, capacity)
  }

  // ---- Which push a chunk stands for -----------------------------------------------------------

  /** How many pushes of p into a channel have begun. */
  function Count<P(==)>(pushes: seq<Push<P>>, x: Push<P>): nat {
    if pushes == [] then 0
    else Count(pushes[..|pushes| - 1], x) + if pushes[|pushes| - 1] == x then 1 else 0
  }

  /** Where push number k of p into the channel stands among all pushes. */
  function Position<P(==)>(pushes: seq<Push<P>>, x: Push<P>, k: nat): (i: nat)
    requires k < Count(pushes, x)
    ensures i < |pushes| && pushes[i] == x && Count(pushes[..i], x) == k
  {
    var init := pushes[..|pushes| - 1];
    if k < Count(init, x) then
      var i := Position(init, x, k);
      assert pushes[..i] == init[..i];
      i
    else |pushes| - 1
  }

  lemma {:induction false} CountGrows<P>(pushes: seq<Push<P>>, x: Push<P>, i: nat)
    requires i <= |pushes|
    ensures Count(pushes[..i], x) <= Count(pushes, x)
    decreases |pushes|
  {
    if i < |pushes| {
      assert pushes[..i] == pushes[..|pushes| - 1][..i];
      CountGrows(pushes[..|pushes| - 1], x, i);
    } else {
      assert pushes[..i] == pushes;
    }
  }

  /** Of two pushes into a channel the one with the smaller number was begun first. */
  lemma PositionsAscend<P>(pushes: seq<Push<P>>, x: Push<P>, j: nat, k: nat)
    requires j < k < Count(pushes, x)
    ensures Position(pushes, x, j) < Position(pushes, x, k)
  {
    var a, b := Position(pushes, x, j), Position(pushes, x, k);
    if b <= a {
      assert pushes[..a][..b] == pushes[..b];
      CountGrows(pushes[..a], x, b);
    }
  }

  // ---- What every step keeps ---------------------------------------------------------------------

  /** One channel: its own invariant, and its numbers are those of the pushes into it. */
  ghost predicate ChannelInv<P(!new)>(q: OutputQueue.State<P>, ch: Channel, at: Targets<P>, pushes: seq<Push<P>>, producers: set<P>, capacity: nat) {
    && OutputQueue.Inv(q, capacity)
    && q.pcs.Keys == producers
    && forall p :: p in producers ==>
         && Count(pushes, Push(p, ch)) == q.pcs[p].k + (if p in at && at[p] == ch then 1 else 0)
         && (q.pcs[p].Ready? || (p in at && at[p] == ch))
  }

  ghost predicate AllChannels<P(!new)>(channels: Channels<P>, at: Targets<P>, pushes: seq<Push<P>>, producers: set<P>, capacity: nat) {
    forall ch :: ChannelInv(ChannelOf(channels, ch, producers), ch, at, pushes, producers, capacity)
  }

  ghost predicate Inv<K, B, T, P(!new)>(s: State<K, B, T, P>, producers: set<P>, capacity: nat) {
    && s.at.Keys <= producers
    && AllChannels(s.channels, s.at, s.pushes, producers, capacity)
    && (forall p :: p in s.at ==> s.at[p].call in s.reg.byPlugin.Values + s.reg.byClient.Values)
  }

  lemma StartInv<K, B, T, P(!new)>(producers: set<P>, capacity: nat)
    ensures Inv(Start<K, B, T, P>(), producers, capacity)
  {
    OutputQueue.StartInv(producers, capacity);
  }

  /** Steps that need no write lock leave both maps alone. */
  lemma MapsStay<K, B, T>(s: CallRegistry.State<K, B, T>, e: CallRegistry.Event<K, B, T>)
    requires !Writes(e)
    ensures CallRegistry.Step(s, e).byPlugin == s.byPlugin && CallRegistry.Step(s, e).byClient == s.byClient
  {
  }

  lemma BeginKeepsInv<K, B, T, P(!new)>(s: State<K, B, T, P>, p: P, ch: Channel, producers: set<P>, capacity: nat)
    requires Inv(s, producers, capacity) && p in producers && p !in s.at
    requires ch.call in s.reg.byPlugin.Values + s.reg.byClient.Values
    ensures Inv(s.(at := s.at[p := ch], pushes := s.pushes + [Push(p, ch)]), producers, capacity)
  {
    var at, pushes := s.at[p := ch], s.pushes + [Push(p, ch)];
    assert pushes[..|s.pushes|] == s.pushes;
    hide OutputQueue.Inv;
    forall c ensures ChannelInv(ChannelOf(s.channels, c, producers), c, at, pushes, producers, capacity) {
      var q := ChannelOf(s.channels, c, producers);
      assert ChannelInv(q, c, s.at, s.pushes, producers, capacity);
      hide ChannelOf;
      forall x | x in producers
        ensures Count(pushes, Push(x, c)) == q.pcs[x].k + (if x in at && at[x] == c then 1 else 0)
      {
        assert Count(pushes, Push(x, c)) == Count(s.pushes, Push(x, c)) + if x == p && c == ch then 1 else 0;
      }
    }
  }

  /** A move of p changes p's own place in its channel, and completes the push exactly when it is ready again. */
  lemma MoveIs<P>(q: OutputQueue.State<P>, p: P, capacity: nat)
    requires p in q.pcs
    ensures var n := OutputQueue.Step(q, OutputQueue.Move(p), capacity);
            && n.pcs.Keys == q.pcs.Keys
            && (forall x :: x in q.pcs && x != p ==> n.pcs[x] == q.pcs[x])
            && n.pcs[p].k == q.pcs[p].k + if n.pcs[p].Ready? then 1 else 0
  {
  }

  lemma ReceiveIs<P>(q: OutputQueue.State<P>, capacity: nat)
    ensures OutputQueue.Step(q, OutputQueue.Receive, capacity).pcs == q.pcs
  {
  }

  /** The same producers are on their way to this channel. */
  ghost predicate SameFor<P(!new)>(was: Targets<P>, at: Targets<P>, ch: Channel) {
    forall p :: (p in at && at[p] == ch) <==> (p in was && was[p] == ch)
  }

  lemma SameForKeeps<P(!new)>(q: OutputQueue.State<P>, ch: Channel, was: Targets<P>, at: Targets<P>, pushes: seq<Push<P>>,
                              producers: set<P>, capacity: nat)
    requires ChannelInv(q, ch, was, pushes, producers, capacity) && SameFor(was, at, ch)
    ensures ChannelInv(q, ch, at, pushes, producers, capacity)
  {
    hide OutputQueue.Inv, Count;
  }

  /** A step on one channel leaves the others as they are. */
  lemma ReplaceKeeps<P(!new)>(channels: Channels<P>, ch: Channel, q: OutputQueue.State<P>, was: Targets<P>, at: Targets<P>,
                              pushes: seq<Push<P>>, producers: set<P>, capacity: nat)
    requires AllChannels(channels, was, pushes, producers, capacity)
    requires ChannelInv(q, ch, at, pushes, producers, capacity) && forall c :: c != ch ==> SameFor(was, at, c)
    ensures AllChannels(channels[ch := q], at, pushes, producers, capacity)
  {
    hide ChannelInv, SameFor;
    var now := channels[ch := q];
    forall c ensures ChannelInv(ChannelOf(now, c, producers), c, at, pushes, producers, capacity) {
      if c != ch { SameForKeeps(ChannelOf(channels, c, producers), c, was, at, pushes, producers, capacity); }
    }
  }

  lemma MoveKeepsInv<K, B, T, P(!new)>(s: State<K, B, T, P>, p: P, producers: set<P>, capacity: nat)
    requires Inv(s, producers, capacity) && p in s.at
    ensures Inv(Step(s, Move(p), producers, capacity), producers, capacity)
  {
    hide OutputQueue.Inv, OutputQueue.Step, ChannelOf;
    var ch := s.at[p];
    var q := ChannelOf(s.channels, ch, producers);
    assert ChannelInv(q, ch, s.at, s.pushes, producers, capacity);
    OutputQueue.StepKeepsInv(q, OutputQueue.Move(p), capacity);
    MoveIs(q, p, capacity);
    var q' := OutputQueue.Step(q, OutputQueue.Move(p), capacity);
    var at := if q'.pcs[p].Ready? then s.at - {p} else s.at;
    assert Step(s, Move(p), producers, capacity) == s.(channels := s.channels[ch := q'], at := at);
    hide AllChannels, Step;
    OwnChannelKept(q, q', p, s.at, at, ch, s.pushes, producers, capacity);
    hide ChannelInv;
    ReplaceKeeps(s.channels, ch, q', s.at, at, s.pushes, producers, capacity);
  }

  lemma OwnChannelKept<P(!new)>(q: OutputQueue.State<P>, q': OutputQueue.State<P>, p: P, was: Targets<P>, at: Targets<P>, ch: Channel,
                                pushes: seq<Push<P>>, producers: set<P>, capacity: nat)
    requires ChannelInv(q, ch, was, pushes, producers, capacity) && p in producers && p in was && was[p] == ch
    requires OutputQueue.Inv(q', capacity) && q'.pcs.Keys == q.pcs.Keys
    requires forall x :: x in q.pcs && x != p ==> q'.pcs[x] == q.pcs[x]
    requires q'.pcs[p].k == q.pcs[p].k + if q'.pcs[p].Ready? then 1 else 0
    requires at == if q'.pcs[p].Ready? then was - {p} else was
    ensures ChannelInv(q', ch, at, pushes, producers, capacity)
  {
    hide OutputQueue.Inv, Count;
  }

  lemma ReceiveKeepsInv<K, B, T, P(!new)>(s: State<K, B, T, P>, ch: Channel, producers: set<P>, capacity: nat)
    requires Inv(s, producers, capacity)
    ensures Inv(Step(s, Receive(ch), producers, capacity), producers, capacity)
  {
    hide OutputQueue.Inv, OutputQueue.Step, ChannelOf, Count;
    var q := ChannelOf(s.channels, ch, producers);
    assert ChannelInv(q, ch, s.at, s.pushes, producers, capacity);
    OutputQueue.StepKeepsInv(q, OutputQueue.Receive, capacity);
    ReceiveIs(q, capacity);
    var q' := OutputQueue.Step(q, OutputQueue.Receive, capacity);
    assert ChannelInv(q', ch, s.at, s.pushes, producers, capacity);
    hide ChannelInv, AllChannels;
    ReplaceKeeps(s.channels, ch, q', s.at, s.at, s.pushes, producers, capacity);
  }

  lemma StepKeepsInv<K, B, T, P(!new)>(s: State<K, B, T, P>, e: Event<K, B, T, P>, producers: set<P>, capacity: nat)
    requires Inv(s, producers, capacity)
    ensures Inv(Step(s, e, producers, capacity), producers, capacity)
  {
    match e {
      case Registry(r) =>
        if !Writes(r) { MapsStay(s.reg, r); }
        hide CallRegistry.Step, ChannelInv;
      case Begin(p, plugin, client, side) =>
        var target := CallRegistry.Target(s.reg.byPlugin, s.reg.byClient, plugin, client);
        if p in producers && p !in s.at && target.Some? {
          BeginKeepsInv(s, p, Channel(target.value, side), producers, capacity);
        }
      case Move(p) => if p in s.at { MoveKeepsInv(s, p, producers, capacity); }
      case Receive(ch) => ReceiveKeepsInv(s, ch, producers, capacity);
    }
  }

  lemma {:induction false} RunKeepsInv<K, B, T, P(!new)>(s: State<K, B, T, P>, events: seq<Event<K, B, T, P>>, producers: set<P>, capacity: nat)
    requires Inv(s, producers, capacity)
    ensures Inv(Run(s, events, producers, capacity), producers, capacity)
    decreases |events|
  {
    if events != [] {
      StepKeepsInv(s, events[0], producers, capacity);
      RunKeepsInv(Step(s, events[0], producers, capacity), events[1..], producers, capacity);
    }
  }

  // ---- Whatever the registry does -------------------------------------------------------------------

  /** The chunk stands for a push of its producer into this channel. */
  ghost predicate StandsFor<P>(x: OutputQueue.Chunk<P>, ch: Channel, pushes: seq<Push<P>>) {
    x.k < Count(pushes, Push(x.producer, ch))
  }

  /**
   * However calls come and go between a producer's pushes: a push in progress has a call that is registered; each channel
   * keeps to its capacity; what is received from it are pushes into it, those of a producer in the order in which they
   * were begun; and each push into it that is complete has its chunk in exactly one place.
   */
  lemma AnyInterleaving<K, B, T, P(!new)>(events: seq<Event<K, B, T, P>>, producers: set<P>, capacity: nat, ch: Channel)
    ensures var s := Run(Start<K, B, T, P>(), events, producers, capacity);
            var q := ChannelOf(s.channels, ch, producers);
            && (forall p :: p in s.at ==> s.at[p].call in s.reg.byPlugin.Values + s.reg.byClient.Values)
            && |q.queue| <= capacity
            && (forall i :: 0 <= i < |q.received| ==> StandsFor(q.received[i], ch, s.pushes))
            && (forall i, j :: 0 <= i < j < |q.received| && q.received[i].producer == q.received[j].producer ==>
                  var x := Push(q.received[i].producer, ch);
                  Position(s.pushes, x, q.received[i].k) < Position(s.pushes, x, q.received[j].k))
            && (forall p, k: nat :: p in producers ==>
                  OutputQueue.Places(q)[OutputQueue.Chunk(p, k)]
                  == if k + (if p in s.at && s.at[p] == ch then 1 else 0) < Count(s.pushes, Push(p, ch)) then 1 else 0)
  {
    StartInv<K, B, T, P>(producers, capacity);
    RunKeepsInv(Start<K, B, T, P>(), events, producers, capacity);
    var s := Run(Start<K, B, T, P>(), events, producers, capacity);
    var q := ChannelOf(s.channels, ch, producers);
    assert ChannelInv(q, ch, s.at, s.pushes, producers, capacity);
    hide Run, ChannelOf, OutputQueue.Places;
    forall i | 0 <= i < |q.received| ensures StandsFor(q.received[i], ch, s.pushes) {
      assert OutputQueue.Stream(q)[i] == q.received[i];
    }
    forall i, j | 0 <= i < j < |q.received| && q.received[i].producer == q.received[j].producer
      ensures var x := Push(q.received[i].producer, ch);
              Position(s.pushes, x, q.received[i].k) < Position(s.pushes, x, q.received[j].k)
    {
      assert OutputQueue.Stream(q)[i] == q.received[i] && OutputQueue.Stream(q)[j] == q.received[j];
      PositionsAscend(s.pushes, Push(q.received[i].producer, ch), q.received[i].k, q.received[j].k);
    }
  }

  /**
   * Between channels there is no order: when a second client calls the plugin, what it writes next for the first client
   * goes to the second, and is received there while the earlier line still waits.
   */
  lemma LaterPushOvertakes()
    ensures exists events: seq<Event<int, int, int, int>> ::
              var s := Run(Start(), events, {3}, OutputQueue.CALL_CAPACITY);
              && s.pushes == [Push(3, Channel(0, Stdout)), Push(3, Channel(1, Stdout))]
              && ChannelOf(s.channels, Channel(0, Stdout), {3}).received == []
              && ChannelOf(s.channels, Channel(1, Stdout), {3}).received == [OutputQueue.Chunk(3, 0)]
  {
    var n, one, two := OutputQueue.CALL_CAPACITY, Channel(0, Stdout), Channel(1, Stdout);
    var write := Begin(3, 1, 7, Stdout);
    var e1, e4 := Registry(CallRegistry.Open(7, 1)), Registry(CallRegistry.Open(8, 1));
    var s0 := Start<int, int, int, int>();
    var s1 := Step(s0, e1, {3}, n);
    var s2 := Step(s1, write, {3}, n);
    var s3 := Step(s2, Move(3), {3}, n);
    OnePush(s1, 3, 1, 7, one, {3}, n);
    var s4 := Step(s3, e4, {3}, n);
    assert s4 == s3.(reg := CallRegistry.Step(s3.reg, CallRegistry.Open(8, 1)));
    var s5 := Step(s4, write, {3}, n);
    var s6 := Step(s5, Move(3), {3}, n);
    OnePush(s4, 3, 1, 7, two, {3}, n);
    var s7 := Step(s6, Receive(two), {3}, n);
    assert s7.channels[two].received == [OutputQueue.Chunk(3, 0)] && s7.channels[one] == s3.channels[one];
    assert s7.pushes == [Push(3, one), Push(3, two)];
    hide Step, Run;
    RunSeven(s0, e1, write, Move(3), e4, write, Move(3), Receive(two), {3}, n);
  }

  lemma RunSeven<K, B, T, P(!new)>(s: State<K, B, T, P>, a: Event<K, B, T, P>, b: Event<K, B, T, P>, c: Event<K, B, T, P>, d: Event<K, B, T, P>,
                                   e: Event<K, B, T, P>, f: Event<K, B, T, P>, g: Event<K, B, T, P>, producers: set<P>, capacity: nat)
    ensures Run(s, [a] + ([b] + ([c] + ([d] + ([e] + ([f] + [g]))))), producers, capacity)
            == Step(Step(Step(Step(Step(Step(Step(s, a, producers, capacity), b, producers, capacity), c, producers, capacity),
                 d, producers, capacity), e, producers, capacity), f, producers, capacity), g, producers, capacity)
  {
    hide Step;
    var s1 := Step(s, a, producers, capacity);
    var s2 := Step(s1, b, producers, capacity);
    var s3 := Step(s2, c, producers, capacity);
    var s4 := Step(s3, d, producers, capacity);
    var s5 := Step(s4, e, producers, capacity);
    var s6 := Step(s5, f, producers, capacity);
    RunFirst(s6, g, [], producers, capacity);
    RunFirst(s5, f, [g], producers, capacity);
    RunFirst(s4, e, [f] + [g], producers, capacity);
    RunFirst(s3, d, [e] + ([f] + [g]), producers, capacity);
    RunFirst(s2, c, [d] + ([e] + ([f] + [g])), producers, capacity);
    RunFirst(s1, b, [c] + ([d] + ([e] + ([f] + [g]))), producers, capacity);
    RunFirst(s, a, [b] + ([c] + ([d] + ([e] + ([f] + [g])))), producers, capacity);
  }

  /** An undisturbed push into a channel with room. */
  lemma OnePush<K, B, T, P(!new)>(s: State<K, B, T, P>, p: P, plugin: K, client: K, ch: Channel, producers: set<P>, capacity: nat)
    requires p in producers && p !in s.at
    requires CallRegistry.Target(s.reg.byPlugin, s.reg.byClient, plugin, client) == Some(ch.call)
    requires var q := ChannelOf(s.channels, ch, producers); p in q.pcs && q.pcs[p].Ready? && |q.queue| < capacity
    ensures var q := ChannelOf(s.channels, ch, producers);
            var k := q.pcs[p].k;
            var pushed := q.(queue := q.queue + [OutputQueue.Chunk(p, k)], pcs := q.pcs[p := OutputQueue.Ready(k + 1)]);
            Step(Step(s, Begin(p, plugin, client, ch.side), producers, capacity), Move(p), producers, capacity)
            == s.(channels := s.channels[ch := pushed], pushes := s.pushes + [Push(p, ch)])
  {
    assert s.at[p := ch] - {p} == s.at;
  }

  lemma RunFirst<K, B, T, P(!new)>(s: State<K, B, T, P>, e: Event<K, B, T, P>, rest: seq<Event<K, B, T, P>>, producers: set<P>, capacity: nat)
    ensures Run(s, [e] + rest, producers, capacity) == Run(Step(s, e, producers, capacity), rest, producers, capacity)
    ensures rest == [] ==> Run(s, [e], producers, capacity) == Step(s, e, producers, capacity)
  {
    assert ([e] + rest)[1..] == rest;
    if rest == [] { assert [e] + rest == [e]; }
  }
}
