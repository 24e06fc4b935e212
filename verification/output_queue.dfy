/** The bounded output channel of a call: a full channel drops its oldest chunk to make room. */
module OutputQueue {
  import opened Seqs

  /** The capacity of the two output channels of a call. */
  const CALL_CAPACITY: nat := 256

  // ---- One producer at a time ----------------------------------------------------------

  /** The channel as the source uses it: sends and receives that give up instead of blocking. */
  class Channel<T> {
    const capacity: nat
    var queue: seq<T>

    ghost predicate Valid()
      reads this
    {
      0 < capacity && |queue| <= capacity
    }

    constructor (capacity: nat)
      requires 0 < capacity
      ensures Valid() && queue == [] && this.capacity == capacity
    {
      this.capacity, queue := capacity, [];
    }

    method TrySend(x: T) returns (sent: bool)
      requires Valid()
      modifies this`queue
      ensures Valid()
      ensures sent == (|old(queue)| < capacity)
      ensures queue == if sent then old(queue) + [x] else old(queue)
    {
      sent := |queue| < capacity;
      if sent { queue := queue + [x]; }
    }

    method TryReceive() returns (x: Option<T>)
      requires Valid()
      modifies this`queue
      ensures Valid()
      ensures match x case None => old(queue) == queue == [] case Some(head) => old(queue) == [head] + queue
    {
      if queue == [] {
        return None;
      }
      x, queue := Some(queue[0]), queue[1..];
    }

    /** Undisturbed, pushing keeps the newest chunks: nothing is dropped unless the channel is full. */
    method Push(x: T)
      requires Valid()
      modifies this`queue
      ensures Valid()
      ensures queue == LastN(old(queue) + [x], capacity)
    {
      var sent := TrySend(x);
      if !sent {
        var _ := TryReceive();
        sent := TrySend(x);
      }
    }
  }

  /** What a channel holds after pushing all of xs, one by one. */
  function Pushed<T>(queue: seq<T>, xs: seq<T>, capacity: nat): seq<T>
    decreases |xs|
  {
    if xs == [] then queue else Pushed(LastN(queue + [xs[0]], capacity), xs[1..], capacity)
  }

  /** With no reader, the channel holds exactly the last chunks that fit. */
  lemma {:induction false} PushedIsLastN<T>(queue: seq<T>, xs: seq<T>, capacity: nat)
    requires |queue| <= capacity
    ensures Pushed(queue, xs, capacity) == LastN(queue + xs, capacity)
    decreases |xs|
  {
    if xs == [] {
      assert queue + xs == queue;
    } else {
      var head, rest := queue + [xs[0]], xs[1..];
      assert head + rest == queue + xs;
      hide LastN;
      PushedIsLastN(LastN(head, capacity), rest, capacity);
      LastNConcat(head, rest, capacity);
      assert Pushed(queue, xs, capacity) == Pushed(LastN(head, capacity), rest, capacity);
    }
  }

  lemma LastNConcat<T>(a: seq<T>, b: seq<T>, n: nat)
    ensures LastN(LastN(a, n) + b, n) == LastN(a + b, n)
  {
    if |a| > n {
      var cut := |a| - n;
      var kept := a[cut..] + b;
      assert LastN(a, n) == a[cut..];
      assert kept[|b|..] == (a + b)[cut + |b|..];
    } else {
      assert LastN(a, n) == a;
    }
  }

  // ---- Any number of producers ----------------------------------------------------------

  /** The k-th chunk of a producer. */
  datatype Chunk<P> = Chunk(producer: P, k: nat)

  /** Where a producer stands: about to send chunk k, found the channel full, or made room and about to retry. */
  datatype Pc = Ready(k: nat) | Full(k: nat) | Retry(k: nat)

  datatype State<!P> = State(
    queue: seq<Chunk<P>>,
    pcs: map<P, Pc>,
    received: seq<Chunk<P>>,
    evicted: seq<Chunk<P>>,
    discarded: seq<Chunk<P>>)

  /** A producer makes its next move, or the consumer receives. */
  datatype Event<P> = Move(p: P) | Receive

  function Start<P(!new)>(producers: set<P>): State<P> {
    State([], map p | p in producers :: Ready(0), [], [], [])
  }

  function Step<P>(s: State<P>, e: Event<P>, capacity: nat): State<P> {
    match e
    case Receive =>
      if s.queue == [] then s else s.(queue := s.queue[1..], received := s.received + [s.queue[0]])
    case Move(p) =>
      if p !in s.pcs then s
      else
        match s.pcs[p]
        case Ready(k) =>
          if |s.queue| < capacity
          then s.(queue := s.queue + [Chunk(p, k)], pcs := s.pcs[p := Ready(k + 1)])
          else s.(pcs := s.pcs[p := Full(k)])
        case Full(k) =>
          if s.queue == [] then s.(pcs := s.pcs[p := Retry(k)])
          else s.(queue := s.queue[1..], evicted := s.evicted + [s.queue[0]], pcs := s.pcs[p := Retry(k)])
        case Retry(k) =>
          if |s.queue| < capacity
          then s.(queue := s.queue + [Chunk(p, k)], pcs := s.pcs[p := Ready(k + 1)])
          else s.(discarded := s.discarded + [Chunk(p, k)], pcs := s.pcs[p := Ready(k + 1)])
  }

  function Run<P>(s: State<P>, events: seq<Event<P>>, capacity: nat): State<P>
    decreases |events|
  {
    if events == [] then s else Run(Step(s, events[0], capacity), events[1..], capacity)
  }

  /** All that has come out of the channel so far, and then what is still inside. */
  function Stream<P>(s: State<P>): seq<Chunk<P>> {
    s.received + s.queue
  }

  /** No chunk twice, and the chunks of a producer in its order. */
  ghost predicate InOrder<P(!new)>(xs: seq<Chunk<P>>) {
    forall i, j :: 0 <= i < j < |xs| && xs[i].producer == xs[j].producer ==> xs[i].k < xs[j].k
  }

  /** Every chunk was produced already. */
  ghost predicate Produced<P(!new)>(xs: seq<Chunk<P>>, pcs: map<P, Pc>) {
    forall i :: 0 <= i < |xs| ==> xs[i].producer in pcs && xs[i].k < pcs[xs[i].producer].k
  }

  /** Where the chunks of the completed pushes are. */
  function Places<P>(s: State<P>): multiset<Chunk<P>> {
    multiset(s.received) + multiset(s.queue) + multiset(s.evicted) + multiset(s.discarded)
  }

  /** Chunk by chunk: one place for each completed push, none for the others. */
  ghost predicate EachOnce<P(!new)>(s: State<P>) {
    forall p, k: nat :: Places(s)[Chunk(p, k)] == if p in s.pcs && k < s.pcs[p].k then 1 else 0
  }

  ghost predicate Inv<P(!new)>(s: State<P>, capacity: nat) {
    |s.queue| <= capacity && InOrder(Stream(s)) && Produced(Stream(s), s.pcs) && EachOnce(s)
  }

  lemma StartInv<P(!new)>(producers: set<P>, capacity: nat)
    ensures Inv(Start(producers), capacity)
  {
    var s := Start(producers);
    forall p, k: nat ensures Places(s)[Chunk(p, k)] == if p in s.pcs && k < s.pcs[p].k then 1 else 0 {
      assert Chunk(p, k) !in Places(s);
    }
  }

  /** The stream only ever grows at its end, or loses one chunk. */
  lemma RemoveKeepsOrder<P(!new)>(a: seq<Chunk<P>>, q: seq<Chunk<P>>, pcs: map<P, Pc>)
    requires q != [] && InOrder(a + q) && Produced(a + q, pcs)
    ensures InOrder(a + q[1..]) && Produced(a + q[1..], pcs)
  {
    var was, now := a + q, a + q[1..];
    forall i, j | 0 <= i < j < |now| && now[i].producer == now[j].producer ensures now[i].k < now[j].k {
      var i', j' := if i < |a| then i else i + 1, if j < |a| then j else j + 1;
      assert now[i] == was[i'] && now[j] == was[j'];
    }
    forall i | 0 <= i < |now| ensures now[i].producer in pcs && now[i].k < pcs[now[i].producer].k {
      assert now[i] == was[if i < |a| then i else i + 1];
    }
  }

  lemma AppendKeepsOrder<P(!new)>(xs: seq<Chunk<P>>, pcs: map<P, Pc>, p: P)
    requires InOrder(xs) && Produced(xs, pcs) && p in pcs
    ensures var k := pcs[p].k;
            InOrder(xs + [Chunk(p, k)]) && Produced(xs + [Chunk(p, k)], pcs[p := Ready(k + 1)])
  {
  }

  lemma SendPlaces<P(!new)>(s: State<P>, t: State<P>, x: Chunk<P>)
    requires t.received == s.received && t.evicted == s.evicted
    requires (t.queue == s.queue + [x] && t.discarded == s.discarded) || (t.queue == s.queue && t.discarded == s.discarded + [x])
    ensures Places(t) == Places(s) + multiset{x}
  {
  }

  lemma MovePlaces<P(!new)>(s: State<P>)
    requires s.queue != []
    ensures Places(s.(queue := s.queue[1..], received := s.received + [s.queue[0]])) == Places(s)
    ensures Places(s.(queue := s.queue[1..], evicted := s.evicted + [s.queue[0]])) == Places(s)
  {
    assert s.queue == [s.queue[0]] + s.queue[1..];
  }

  /** The push of chunk k is complete: one more chunk has its place. */
  lemma CompleteKeepsEachOnce<P(!new)>(s: State<P>, t: State<P>, p: P)
    requires EachOnce(s) && p in s.pcs && t.pcs == s.pcs[p := Ready(s.pcs[p].k + 1)]
    requires Places(t) == Places(s) + multiset{Chunk(p, s.pcs[p].k)}
    ensures EachOnce(t)
  {
    hide Places;
    forall q, j: nat ensures Places(t)[Chunk(q, j)] == if q in t.pcs && j < t.pcs[q].k then 1 else 0 {
      assert Places(s)[Chunk(q, j)] == if q in s.pcs && j < s.pcs[q].k then 1 else 0;
    }
  }

  lemma SameKeepsEachOnce<P(!new)>(s: State<P>, t: State<P>)
    requires EachOnce(s) && Places(t) == Places(s)
    requires t.pcs.Keys == s.pcs.Keys && forall p :: p in s.pcs ==> t.pcs[p].k == s.pcs[p].k
    ensures EachOnce(t)
  {
    hide Places;
    forall q, j: nat ensures Places(t)[Chunk(q, j)] == if q in t.pcs && j < t.pcs[q].k then 1 else 0 {
      assert Places(s)[Chunk(q, j)] == if q in s.pcs && j < s.pcs[q].k then 1 else 0;
    }
  }

  lemma ReceiveKeepsInv<P(!new)>(s: State<P>, capacity: nat)
    requires Inv(s, capacity)
    ensures Inv(Step(s, Receive, capacity), capacity)
  {
    if s.queue != [] {
      var t := Step(s, Receive, capacity);
      assert Stream(t) == Stream(s);
      MovePlaces(s);
      SameKeepsEachOnce(s, t);
    }
  }

  lemma EvictKeepsInv<P(!new)>(s: State<P>, p: P, capacity: nat)
    requires Inv(s, capacity) && p in s.pcs && s.pcs[p].Full?
    ensures Inv(Step(s, Move(p), capacity), capacity)
  {
    var t := Step(s, Move(p), capacity);
    if s.queue != [] {
      RemoveKeepsOrder(s.received, s.queue, s.pcs);
      MovePlaces(s);
    }
    SameKeepsEachOnce(s, t);
  }

  lemma SendKeepsInv<P(!new)>(s: State<P>, p: P, capacity: nat)
    requires Inv(s, capacity) && p in s.pcs && !s.pcs[p].Full?
    ensures Inv(Step(s, Move(p), capacity), capacity)
  {
    var t, x := Step(s, Move(p), capacity), Chunk(p, s.pcs[p].k);
    assert s.pcs[p].Ready? && |s.queue| >= capacity ==> Places(t) == Places(s);
    hide Places, EachOnce;
    if |s.queue| < capacity {
      AppendKeepsOrder(Stream(s), s.pcs, p);
      assert Stream(t) == Stream(s) + [x];
      SendPlaces(s, t, x);
      CompleteKeepsEachOnce(s, t, p);
    } else if s.pcs[p].Retry? {
      SendPlaces(s, t, x);
      CompleteKeepsEachOnce(s, t, p);
    } else {
      SameKeepsEachOnce(s, t);
    }
  }

  lemma StepKeepsInv<P(!new)>(s: State<P>, e: Event<P>, capacity: nat)
    requires Inv(s, capacity)
    ensures Inv(Step(s, e, capacity), capacity)
  {
    hide Inv;
    match e {
      case Receive => ReceiveKeepsInv(s, capacity);
      case Move(p) =>
        if p in s.pcs {
          if s.pcs[p].Full? { EvictKeepsInv(s, p, capacity); } else { SendKeepsInv(s, p, capacity); }
        }
    }
  }

  lemma {:induction false} RunKeepsInv<P(!new)>(s: State<P>, events: seq<Event<P>>, capacity: nat)
    requires Inv(s, capacity)
    ensures Inv(Run(s, events, capacity), capacity)
    decreases |events|
  {
    if events != [] {
      StepKeepsInv(s, events[0], capacity);
      RunKeepsInv(Step(s, events[0], capacity), events[1..], capacity);
    }
  }

  /**
   * Under every interleaving the channel stays within its capacity; no chunk is received twice; the chunks of a
   * producer are received in its order; and every completed push has its chunk in exactly one place.
   */
  lemma AnyInterleaving<P(!new)>(producers: set<P>, events: seq<Event<P>>, capacity: nat)
    ensures var s := Run(Start(producers), events, capacity);
            && |s.queue| <= capacity
            && InOrder(s.received)
            && (forall p, k: nat :: Places(s)[Chunk(p, k)] == if p in s.pcs && k < s.pcs[p].k then 1 else 0)
  {
    StartInv(producers, capacity);
    RunKeepsInv(Start(producers), events, capacity);
    var s := Run(Start(producers), events, capacity);
    assert forall i :: 0 <= i < |s.received| ==> Stream(s)[i] == s.received[i];
  }

  /** The consumer gets the oldest chunk, and the others stay. */
  lemma ReceiveTakesOldest<P(!new)>(s: State<P>, capacity: nat)
    ensures var n := Step(s, Receive, capacity);
            && n.pcs == s.pcs && n.evicted == s.evicted && n.discarded == s.discarded
            && (s.queue == [] ==> n == s)
            && (s.queue != [] ==> n.received == s.received + [s.queue[0]] && s.queue == [s.queue[0]] + n.queue)
  {
  }

  /** A push that nobody disturbs leaves the newest chunks, as the channel on its own does; what is dropped is the oldest. */
  lemma UndisturbedPush<P(!new)>(s: State<P>, p: P, capacity: nat)
    requires 0 < capacity && |s.queue| <= capacity && p in s.pcs && s.pcs[p].Ready?
    ensures var k, room := s.pcs[p].k, |s.queue| < capacity;
            var n := if room then Step(s, Move(p), capacity)
                     else Step(Step(Step(s, Move(p), capacity), Move(p), capacity), Move(p), capacity);
            && n.queue == LastN(s.queue + [Chunk(p, k)], capacity) && n.pcs == s.pcs[p := Ready(k + 1)]
            && n.received == s.received && n.discarded == s.discarded
            && n.evicted == if room then s.evicted else s.evicted + [s.queue[0]]
  {
    var k := s.pcs[p].k;
    if |s.queue| == capacity {
      FullPush(s, p, k, capacity);
      assert (s.queue + [Chunk(p, k)])[1..] == s.queue[1..] + [Chunk(p, k)];
      hide Step;
    }
  }

  /** In a full channel the push evicts, and then finds the room it made. */
  lemma FullPush<P(!new)>(s: State<P>, p: P, k: nat, capacity: nat)
    requires 0 < |s.queue| == capacity && p in s.pcs && s.pcs[p] == Ready(k)
    ensures var n := Step(Step(Step(s, Move(p), capacity), Move(p), capacity), Move(p), capacity);
            && n.queue == s.queue[1..] + [Chunk(p, k)] && n.pcs == s.pcs[p := Ready(k + 1)]
            && n.received == s.received && n.discarded == s.discarded && n.evicted == s.evicted + [s.queue[0]]
  {
    var s1 := s.(pcs := s.pcs[p := Full(k)]);
    var s2 := s1.(queue := s.queue[1..], evicted := s.evicted + [s.queue[0]], pcs := s1.pcs[p := Retry(k)]);
    var s3 := s2.(queue := s.queue[1..] + [Chunk(p, k)], pcs := s2.pcs[p := Ready(k + 1)]);
    assert Step(s, Move(p), capacity) == s1;
    assert Step(s1, Move(p), capacity) == s2;
    assert Step(s2, Move(p), capacity) == s3;
    hide Step;
    assert s3.pcs == s.pcs[p := Ready(k + 1)];
  }

  // ---- Losing a new chunk ------------------------------------------------------------------

  /** There is at most one producer, and the room it makes is still there when it retries. */
  ghost predicate RoomKept<P(!new)>(s: State<P>, capacity: nat) {
    && (forall p, q :: p in s.pcs && q in s.pcs ==> p == q)
    && s.discarded == []
    && |s.queue| <= capacity
    && (forall p :: p in s.pcs && s.pcs[p].Retry? ==> |s.queue| < capacity)
  }

  lemma {:induction false} SoleProducerLosesNoNewChunk<P(!new)>(s: State<P>, events: seq<Event<P>>, capacity: nat)
    requires 0 < capacity && RoomKept(s, capacity)
    ensures RoomKept(Run(s, events, capacity), capacity)
    decreases |events|
  {
    if events != [] {
      var t := Step(s, events[0], capacity);
      assert RoomKept(t, capacity);
      SoleProducerLosesNoNewChunk(t, events[1..], capacity);
    }
  }

  lemma {:induction false} RunConcat<P>(s: State<P>, a: seq<Event<P>>, b: seq<Event<P>>, capacity: nat)
    ensures Run(s, a + b, capacity) == Run(Run(s, a, capacity), b, capacity)
    decreases |a|
  {
    if a == [] {
      assert a + b == b;
    } else {
      assert (a + b)[1..] == a[1..] + b;
      RunConcat(Step(s, a[0], capacity), a[1..], b, capacity);
    }
  }

  /** n moves of one producer. */
  function Moves<P>(p: P, n: nat): seq<Event<P>> {
    if n == 0 then [] else [Move(p)] + Moves(p, n - 1)
  }

  lemma {:induction false} MovesFill<P>(s: State<P>, p: P, n: nat, capacity: nat)
    requires p in s.pcs && s.pcs[p].Ready? && |s.queue| + n <= capacity
    ensures var t := Run(s, Moves(p, n), capacity);
            |t.queue| == |s.queue| + n && t.pcs == s.pcs[p := Ready(s.pcs[p].k + n)] && t.discarded == s.discarded
    decreases n
  {
    if n == 0 {
      assert s.pcs[p := s.pcs[p]] == s.pcs;
    } else {
      var k := s.pcs[p].k;
      MovesFill(Step(s, Move(p), capacity), p, n - 1, capacity);
      assert Moves(p, n)[1..] == Moves(p, n - 1);
      assert s.pcs[p := Ready(k + 1)][p := Ready(k + n)] == s.pcs[p := Ready(k + n)];
    }
  }

  /** Producer p fills the channel, finds it full and evicts; q sends into the room; p retries. */
  function Overtaking<P>(p: P, q: P, capacity: nat): seq<Event<P>> {
    Moves(p, capacity) + [Move(p), Move(p), Move(q), Move(p)]
  }

  /** Any second producer can take the room that the first has just made, whatever the capacity. */
  lemma SecondProducerTakesTheRoom<P(!new)>(producers: set<P>, p: P, q: P, capacity: nat)
    requires 0 < capacity && p in producers && q in producers && p != q
    ensures Run(Start(producers), Overtaking(p, q, capacity), capacity).discarded == [Chunk(p, capacity)]
  {
    var s := Start(producers);
    MovesFill(s, p, capacity, capacity);
    RunConcat(s, Moves(p, capacity), [Move(p), Move(p), Move(q), Move(p)], capacity);
    RetryTooLate(Run(s, Moves(p, capacity), capacity), p, q, capacity);
  }

  lemma RetryTooLate<P>(s: State<P>, p: P, q: P, capacity: nat)
    requires 0 < capacity == |s.queue| && p in s.pcs && q in s.pcs && p != q && s.discarded == []
    requires s.pcs[p] == Ready(capacity) && s.pcs[q].Ready?
    ensures Run(s, [Move(p), Move(p), Move(q), Move(p)], capacity).discarded == [Chunk(p, capacity)]
  {
    var a := Step(s, Move(p), capacity);
    var b := Step(a, Move(p), capacity);
    var c := Step(b, Move(q), capacity);
    var d := Step(c, Move(p), capacity);
    assert a.pcs[p] == Full(capacity) && b.pcs[p] == Retry(capacity) && c.pcs[p] == Retry(capacity);
    assert |b.queue| == capacity - 1 && |c.queue| == capacity && d.discarded == [Chunk(p, capacity)];
    var events := [Move(p), Move(p), Move(q), Move(p)];
    assert events[1..] == [Move(p), Move(q), Move(p)] && events[1..][1..] == [Move(q), Move(p)];
    assert events[1..][1..][1..] == [Move(p)] && [Move(p)][1..] == [];
    assert Run(d, [], capacity) == d;
    hide Step;
    assert Run(c, [Move(p)], capacity) == d;
    assert Run(b, [Move(q), Move(p)], capacity) == d;
    assert Run(a, [Move(p), Move(q), Move(p)], capacity) == d;
  }

  /** A chunk that was just made room for survives every interleaving exactly when there is at most one producer. */
  lemma NewChunksSurviveIff<P(!new)>(producers: set<P>, capacity: nat)
    requires 0 < capacity
    ensures (forall events :: Run(Start(producers), events, capacity).discarded == []) <==> |producers| <= 1
  {
    if |producers| <= 1 {
      forall p, q | p in producers && q in producers ensures p == q { SubsetSize({p, q}, producers); }
      forall events ensures Run(Start(producers), events, capacity).discarded == [] {
        SoleProducerLosesNoNewChunk(Start(producers), events, capacity);
      }
    } else {
      var p :| p in producers;
      assert producers != {p};
      var q :| q in producers && q != p;
      SecondProducerTakesTheRoom(producers, p, q, capacity);
    }
  }

  /** With the capacity the source gives its channels: the 257th chunk of the first of two producers can be lost. */
  lemma CallChannelLosesNewChunk()
    ensures Run(Start({1, 2}), Overtaking(1, 2, CALL_CAPACITY), CALL_CAPACITY).discarded == [Chunk(1, 256)]
  {
    SecondProducerTakesTheRoom({1, 2}, 1, 2, CALL_CAPACITY);
  }
}
