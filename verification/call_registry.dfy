/**
 * The registry of live calls and the blocking stdin buffer of each, as interleaved steps. Locks are held only
 * within a step; K is the type of client ids and plugin names, B of bytes, T of threads.
 */
module CallRegistry {
  import opened Seqs

  // ---- State ------------------------------------------------------------------------------

  /** How far the handler of a call has got: its deferred close is a look-up, a store and a broadcast of its own. */
  datatype Phase = Serving | Closing(found: Option<nat>) | Notifying(target: nat) | Closed | Gone

  /** `stored` and `returned` record every byte that went into and came out of the buffer. */
  datatype Call<K, B> = Call(
    client: K, plugin: K, buf: seq<B>, eof: bool, phase: Phase, stored: seq<B>, returned: seq<B>)

  datatype Op<B> = Store(data: seq<B>) | Close | Read(max: int)

  /** Signal: the buffer was changed and the broadcast is still to come. Waiting: asleep until a broadcast. */
  datatype Pc<B> =
    | Idle
    | Looked(found: Option<nat>, op: Op<B>)
    | Signal(target: nat)
    | Waiting(target: nat, max: int)
    | Woken(target: nat, max: int)

  datatype State<!K, B, !T> = State(
    calls: seq<Call<K, B>>, byClient: map<K, nat>, byPlugin: map<K, nat>, threads: map<T, Pc<B>>)

  datatype Event<K, B, T> =
    | Open(client: K, plugin: K)
    | BeginClose(c: nat)
    | SetEof(c: nat)
    | NotifyClosed(c: nat)
    | Unregister(c: nat)
    | LookUp(t: T, client: K, op: Op<B>)
    | Act(t: T)
    | Notify(t: T)

  function Start<K, B, T>(): State<K, B, T> {
    State([], map[], map[], map[])
  }

  // ---- Steps --------------------------------------------------------------------------------

  function Find<K(==)>(m: map<K, nat>, k: K): Option<nat> {
    if k in m then Some(m[k]) else None
  }

  /** How many bytes one read takes: a limit that is not positive is no limit. */
  function Amount<B>(buf: seq<B>, max: int): nat {
    if max <= 0 || max > |buf| then |buf| else max
  }

  function Wake<B, T(==)>(threads: map<T, Pc<B>>, c: nat): map<T, Pc<B>> {
    map t | t in threads ::
      if threads[t].Waiting? && threads[t].target == c then Woken(c, threads[t].max) else threads[t]
  }

  function SetPhase<K, B>(calls: seq<Call<K, B>>, c: nat, phase: Phase): seq<Call<K, B>>
    requires c < |calls|
  {
    calls[c := calls[c].(phase := phase)]
  }

  function SetEofOf<K, B>(calls: seq<Call<K, B>>, c: nat): seq<Call<K, B>>
    requires c < |calls|
  {
    calls[c := calls[c].(eof := true)]
  }

  function Stored<K, B>(call: Call<K, B>, data: seq<B>): Call<K, B> {
    call.(buf := call.buf + data, stored := call.stored + data)
  }

  function Taken<K, B>(call: Call<K, B>, max: int): Call<K, B> {
    var n := Amount(call.buf, max);
    call.(buf := call.buf[n..], returned := call.returned + call.buf[..n])
  }

  /** One step of a read that has its call: take bytes, report the end, or wait. */
  function ReadStep<K(==), B, T(==)>(s: State<K, B, T>, t: T, c: nat, max: int): State<K, B, T> {
    if c >= |s.calls| then s
    else
      var call := s.calls[c];
      if call.buf != [] then s.(calls := s.calls[c := Taken(call, max)], threads := s.threads[t := Idle])
      else if call.eof then s.(threads := s.threads[t := Idle])
      else s.(threads := s.threads[t := Waiting(c, max)])
  }

  function ActStep<K(==), B, T(==)>(s: State<K, B, T>, t: T): State<K, B, T> {
    if t !in s.threads then s
    else
      match s.threads[t]
      case Looked(None, _) => s.(threads := s.threads[t := Idle])
      case Looked(Some(c), Store(data)) =>
        if c >= |s.calls| then s
        else s.(calls := s.calls[c := Stored(s.calls[c], data)], threads := s.threads[t := Signal(c)])
      case Looked(Some(c), Close) =>
        if c >= |s.calls| then s
        else s.(calls := SetEofOf(s.calls, c), threads := s.threads[t := Signal(c)])
      case Looked(Some(c), Read(max)) => ReadStep(s, t, c, max)
      case Woken(c, max) => ReadStep(s, t, c, max)
      case _ => s
  }

  /** The steps of the goroutine that handles call c. */
  function HandlerStep<K(==), B, T(==)>(s: State<K, B, T>, c: nat, e: Event<K, B, T>): State<K, B, T>
    requires c < |s.calls|
  {
    var call := s.calls[c];
    match e
    case BeginClose(_) =>
      if call.phase != Serving then s
      else s.(calls := SetPhase(s.calls, c, Closing(Find(s.byClient, call.client))))
    case SetEof(_) =>
      (match call.phase
       case Closing(None) => s.(calls := SetPhase(s.calls, c, Closed))
       case Closing(Some(d)) =>
         if d >= |s.calls| then s else s.(calls := SetPhase(SetEofOf(s.calls, d), c, Notifying(d)))
       case _ => s)
    case NotifyClosed(_) =>
      if !call.phase.Notifying? then s
      else s.(calls := SetPhase(s.calls, c, Closed), threads := Wake(s.threads, call.phase.target))
    case Unregister(_) =>
      if call.phase != Closed then s
      else s.(calls := SetPhase(s.calls, c, Gone), byClient := s.byClient - {call.client}, byPlugin := s.byPlugin - {call.plugin})
    case _ => s
  }

  function Step<K(==), B, T(==)>(s: State<K, B, T>, e: Event<K, B, T>): State<K, B, T> {
    match e
    case Open(client, plugin) =>
      var c := |s.calls|;
      s.(calls := s.calls + [Call(client, plugin, [], false, Serving, [], [])],
         byClient := s.byClient[client := c], byPlugin := s.byPlugin[plugin := c])
    case LookUp(t, client, op) =>
      if t in s.threads && s.threads[t] != Idle then s
      else s.(threads := s.threads[t := Looked(Find(s.byClient, client), op)])
    case Act(t) => ActStep(s, t)
    case Notify(t) =>
      if t in s.threads && s.threads[t].Signal?
      then s.(threads := Wake(s.threads, s.threads[t].target)[t := Idle])
      else s
    case BeginClose(c) => if c < |s.calls| then HandlerStep(s, c, e) else s
    case SetEof(c) => if c < |s.calls| then HandlerStep(s, c, e) else s
    case NotifyClosed(c) => if c < |s.calls| then HandlerStep(s, c, e) else s
    case Unregister(c) => if c < |s.calls| then HandlerStep(s, c, e) else s
  }

  function Run<K(==), B, T(==)>(s: State<K, B, T>, events: seq<Event<K, B, T>>): State<K, B, T>
    decreases |events|
  {
    if events == [] then s else Run(Step(s, events[0]), events[1..])
  }

  // ---- Every byte is kept, whatever the ids -----------------------------------------------------

  ghost predicate Accounts<K(!new), B(!new)>(calls: seq<Call<K, B>>) {
    forall c :: 0 <= c < |calls| ==> calls[c].stored == calls[c].returned + calls[c].buf
  }

  lemma ReadKeepsAccounts<K(!new), B(!new), T(!new)>(s: State<K, B, T>, t: T, c: nat, max: int)
    requires Accounts(s.calls)
    ensures Accounts(ReadStep(s, t, c, max).calls)
  {
    if c < |s.calls| && s.calls[c].buf != [] {
      var call := s.calls[c];
      var n := Amount(call.buf, max);
      assert call.buf == call.buf[..n] + call.buf[n..];
      Assoc(call.returned, call.buf[..n], call.buf[n..]);
    }
  }

  lemma StepKeepsAccounts<K(!new), B(!new), T(!new)>(s: State<K, B, T>, e: Event<K, B, T>)
    requires Accounts(s.calls)
    ensures Accounts(Step(s, e).calls)
  {
    match e {
      case Act(t) =>
        if t in s.threads {
          match s.threads[t] {
            case Looked(Some(c), Store(data)) =>
              if c < |s.calls| { Assoc(s.calls[c].returned, s.calls[c].buf, data); }
            case Looked(Some(c), Read(max)) => ReadKeepsAccounts(s, t, c, max);
            case Woken(c, max) => ReadKeepsAccounts(s, t, c, max);
            case _ =>
          }
        }
      case _ =>
    }
  }

  /** In every run, even one that reuses ids, the bytes returned and those buffered are the bytes stored, in order. */
  lemma {:induction false} BytesAreKept<K(!new), B(!new), T(!new)>(s: State<K, B, T>, events: seq<Event<K, B, T>>)
    requires Accounts(s.calls)
    ensures Accounts(Run(s, events).calls)
    decreases |events|
  {
    if events != [] {
      StepKeepsAccounts(s, events[0]);
      BytesAreKept(Step(s, events[0]), events[1..]);
    }
  }

  // ---- What was stored is what can be read -----------------------------------------------------------

  /** A thread that has looked call c up puts its data behind what is buffered there, and changes no other call. */
  lemma StoreReachesCall<K(!new), B(!new), T(!new)>(s: State<K, B, T>, t: T, c: nat, data: seq<B>)
    requires t in s.threads && s.threads[t] == Looked(Some(c), Store(data)) && c < |s.calls|
    ensures var n := Step(s, Act(t));
            && |n.calls| == |s.calls| && (forall d :: 0 <= d < |s.calls| && d != c ==> n.calls[d] == s.calls[d])
            && n.calls[c].buf == s.calls[c].buf + data && n.calls[c].returned == s.calls[c].returned
            && n.calls[c].eof == s.calls[c].eof && n.calls[c].phase == s.calls[c].phase
            && n.calls[c].client == s.calls[c].client && n.calls[c].plugin == s.calls[c].plugin
            && n.threads == s.threads[t := Signal(c)] && n.byClient == s.byClient && n.byPlugin == s.byPlugin
  {
  }

  /** A thread that has looked call c up to close its input sets its end, and changes nothing else. */
  lemma CloseReachesCall<K(!new), B(!new), T(!new)>(s: State<K, B, T>, t: T, c: nat)
    requires t in s.threads && s.threads[t] == Looked(Some(c), Close) && c < |s.calls|
    ensures var n := Step(s, Act(t));
            && |n.calls| == |s.calls| && (forall d :: 0 <= d < |s.calls| && d != c ==> n.calls[d] == s.calls[d])
            && n.calls[c].eof && n.calls[c].buf == s.calls[c].buf && n.calls[c].returned == s.calls[c].returned
            && n.calls[c].phase == s.calls[c].phase
            && n.calls[c].client == s.calls[c].client && n.calls[c].plugin == s.calls[c].plugin
            && n.threads == s.threads[t := Signal(c)] && n.byClient == s.byClient && n.byPlugin == s.byPlugin
  {
  }

  /** A reader that has its call takes bytes off the front, as many as it may and there are; or it ends, or sleeps. */
  lemma ReadReachesCall<K(!new), B(!new), T(!new)>(s: State<K, B, T>, t: T, c: nat, max: int)
    requires t in s.threads && (s.threads[t] == Looked(Some(c), Read(max)) || s.threads[t] == Woken(c, max)) && c < |s.calls|
    ensures var n, call := Step(s, Act(t)), s.calls[c];
            && |n.calls| == |s.calls| && (forall d :: 0 <= d < |s.calls| && d != c ==> n.calls[d] == s.calls[d])
            && call.buf == n.calls[c].returned[|call.returned|..] + n.calls[c].buf && call.returned <= n.calls[c].returned
            && |n.calls[c].buf| == (if 0 < max < |call.buf| then |call.buf| - max else 0)
            && n.calls[c].eof == call.eof && n.calls[c].phase == call.phase
            && n.threads == s.threads[t := if call.buf == [] && !call.eof then Waiting(c, max) else Idle]
            && n.byClient == s.byClient && n.byPlugin == s.byPlugin
  {
    var call := s.calls[c];
    if call.buf == [] {
      assert call.returned[|call.returned|..] == [];
    } else {
      var k := if 0 < max < |call.buf| then max else |call.buf|;
      assert (call.returned + call.buf[..k])[|call.returned|..] == call.buf[..k];
      assert call.buf == call.buf[..k] + call.buf[k..];
    }
  }

  /** A look-up finds the call registered under the id, and nothing changes but where its thread stands. */
  lemma LookUpFinds<K(!new), B(!new), T(!new)>(s: State<K, B, T>, t: T, client: K, op: Op<B>)
    requires t in s.threads ==> s.threads[t] == Idle
    ensures var n := Step(s, LookUp(t, client, op));
            && n.calls == s.calls && n.byClient == s.byClient && n.byPlugin == s.byPlugin
            && t in n.threads && n.threads == s.threads[t := n.threads[t]] && n.threads[t].Looked? && n.threads[t].op == op
            && (if client in s.byClient then n.threads[t].found == Some(s.byClient[client]) else n.threads[t].found == None)
  {
  }

  /** A thread that found no call is done, and has changed nothing. */
  lemma NothingFound<K(!new), B(!new), T(!new)>(s: State<K, B, T>, t: T, op: Op<B>)
    requires t in s.threads && s.threads[t] == Looked(None, op)
    ensures Step(s, Act(t)) == s.(threads := s.threads[t := Idle])
  {
  }

  /** A broadcast wakes all that sleep on its call and nobody else, and its thread is done. */
  lemma NotifyWakes<K(!new), B(!new), T(!new)>(s: State<K, B, T>, t: T, c: nat)
    requires t in s.threads && s.threads[t] == Signal(c)
    ensures var n := Step(s, Notify(t));
            && n.calls == s.calls && n.byClient == s.byClient && n.byPlugin == s.byPlugin
            && n.threads.Keys == s.threads.Keys && n.threads[t] == Idle
            && forall u :: u in s.threads && u != t ==>
                 n.threads[u] == if s.threads[u].Waiting? && s.threads[u].target == c then Woken(c, s.threads[u].max) else s.threads[u]
  {
  }

  /** Opening registers a new call under both names; unregistering takes both names away, whoever they lead to. */
  lemma OpenRegisters<K(!new), B(!new), T(!new)>(s: State<K, B, T>, client: K, plugin: K)
    ensures var n, c := Step(s, Open(client, plugin)), |s.calls|;
            && |n.calls| == c + 1 && n.calls[..c] == s.calls
            && n.calls[c] == Call(client, plugin, [], false, Serving, [], [])
            && n.byClient == s.byClient[client := c] && n.byPlugin == s.byPlugin[plugin := c] && n.threads == s.threads
  {
  }

  lemma UnregisterForgets<K(!new), B(!new), T(!new)>(s: State<K, B, T>, c: nat)
    requires c < |s.calls| && s.calls[c].phase == Closed
    ensures var n := Step(s, Unregister(c));
            && n.byClient == s.byClient - {s.calls[c].client} && n.byPlugin == s.byPlugin - {s.calls[c].plugin}
            && n.calls == s.calls[c := s.calls[c].(phase := Gone)] && n.threads == s.threads
  {
  }

  /** What the Store operations that found call c put into it, in the order of their turns. */
  function StoredBy<K(==), B, T(==)>(s: State<K, B, T>, events: seq<Event<K, B, T>>, c: nat): seq<B>
    decreases |events|
  {
    if events == [] then []
    else
      var here :=
        if events[0].Act? && events[0].t in s.threads && c < |s.calls|
        then
          match s.threads[events[0].t]
          case Looked(Some(d), Store(data)) => if d == c then data else []
          case _ => []
        else [];
      here + StoredBy(Step(s, events[0]), events[1..], c)
  }

  /** What has ever been put into call c and not been lost. */
  function Content<K, B, T>(s: State<K, B, T>, c: nat): seq<B> {
    if c < |s.calls| then s.calls[c].returned + s.calls[c].buf else []
  }

  lemma StepContent<K(!new), B(!new), T(!new)>(s: State<K, B, T>, e: Event<K, B, T>, c: nat)
    ensures Content(Step(s, e), c) == Content(s, c) + StoredBy(s, [e], c)
  {
    assert [e][1..] == [];
    match e {
      case Act(t) =>
        if t in s.threads {
          match s.threads[t] {
            case Looked(Some(d), Store(data)) =>
              if d < |s.calls| {
                StoreReachesCall(s, t, d, data);
                Assoc(s.calls[d].returned, s.calls[d].buf, data);
              }
            case Looked(Some(d), Read(max)) => ReadContent(s, t, d, max, c);
            case Woken(d, max) => ReadContent(s, t, d, max, c);
            case _ =>
          }
        }
      case _ =>
    }
  }

  lemma ReadContent<K(!new), B(!new), T(!new)>(s: State<K, B, T>, t: T, d: nat, max: int, c: nat)
    requires t in s.threads && (s.threads[t] == Looked(Some(d), Read(max)) || s.threads[t] == Woken(d, max))
    ensures Content(Step(s, Act(t)), c) == Content(s, c)
  {
    if d < |s.calls| {
      ReadReachesCall(s, t, d, max);
      var call, n := s.calls[d], Step(s, Act(t)).calls[d];
      assert n.returned == call.returned + n.returned[|call.returned|..];
      Assoc(call.returned, n.returned[|call.returned|..], n.buf);
    }
  }

  /**
   * Over every run, even one that reuses ids: the bytes returned from a call and those still buffered are the data of the
   * Store operations that found it, in the order of their turns.
   */
  lemma {:induction false} StoredIsReadable<K(!new), B(!new), T(!new)>(s: State<K, B, T>, events: seq<Event<K, B, T>>, c: nat)
    ensures Content(Run(s, events), c) == Content(s, c) + StoredBy(s, events, c)
    decreases |events|
  {
    if events != [] {
      var e, n := events[0], Step(s, events[0]);
      StepContent(s, e, c);
      StoredIsReadable(n, events[1..], c);
      assert [e][1..] == [];
      assert StoredBy(s, [e], c) + [] == StoredBy(s, [e], c);
      StoredByFirst(s, e, events[1..], c);
      assert events == [e] + events[1..];
      hide Content, Step;
      Assoc(Content(s, c), StoredBy(s, [e], c), StoredBy(n, events[1..], c));
    }
  }

  lemma StoredByFirst<K(!new), B(!new), T(!new)>(s: State<K, B, T>, e: Event<K, B, T>, rest: seq<Event<K, B, T>>, c: nat)
    ensures StoredBy(s, [e] + rest, c) == StoredBy(s, [e], c) + StoredBy(Step(s, e), rest, c)
  {
    assert ([e] + rest)[1..] == rest && [e][1..] == [];
    hide Step;
  }

  // ---- While no live id is reused -------------------------------------------------------------------

  /** No live call has this id; calls that are gone do not matter. */
  ghost predicate IdFree<K(!new), B(!new)>(calls: seq<Call<K, B>>, client: K) {
    forall c :: 0 <= c < |calls| && calls[c].phase != Gone ==> calls[c].client != client
  }

  /** Whenever a call is opened, its id is not that of a live call. */
  ghost predicate Fresh<K(!new), B(!new), T(!new)>(s: State<K, B, T>, events: seq<Event<K, B, T>>)
    decreases |events|
  {
    events == []
    || ((events[0].Open? ==> IdFree(s.calls, events[0].client)) && Fresh(Step(s, events[0]), events[1..]))
  }

  /** A map holds only live calls. */
  ghost predicate Live<K(!new), B(!new)>(calls: seq<Call<K, B>>, m: map<K, nat>) {
    forall k :: k in m ==> m[k] < |calls| && calls[m[k]].phase != Gone
  }

  ghost predicate UnderOwnClient<K(!new), B(!new)>(calls: seq<Call<K, B>>, byClient: map<K, nat>) {
    forall k :: k in byClient ==> byClient[k] < |calls| && calls[byClient[k]].client == k
  }

  ghost predicate UnderOwnPlugin<K(!new), B(!new)>(calls: seq<Call<K, B>>, byPlugin: map<K, nat>) {
    forall k :: k in byPlugin ==> byPlugin[k] < |calls| && calls[byPlugin[k]].plugin == k
  }

  /** Every live call is found by its client id. */
  ghost predicate AllFound<K(!new), B(!new)>(calls: seq<Call<K, B>>, byClient: map<K, nat>) {
    forall c :: 0 <= c < |calls| && calls[c].phase != Gone ==> Find(byClient, calls[c].client) == Some(c)
  }

  /** Both maps hold only live calls under their own keys, and every live call is found by its client id. */
  ghost predicate MapsLive<K(!new), B(!new)>(calls: seq<Call<K, B>>, byClient: map<K, nat>, byPlugin: map<K, nat>) {
    && Live(calls, byClient) && UnderOwnClient(calls, byClient) && AllFound(calls, byClient)
    && Live(calls, byPlugin) && UnderOwnPlugin(calls, byPlugin)
  }

  /** A call closes itself and no other, and once closed its end is set. */
  ghost predicate PhasesOwn<K(!new), B(!new)>(calls: seq<Call<K, B>>) {
    forall c :: 0 <= c < |calls| ==> PhaseOwn(c, calls[c].phase, calls[c].eof)
  }

  ghost predicate PhaseOwn(c: nat, phase: Phase, eof: bool) {
    match phase
    case Serving => true
    case Closing(d) => d == Some(c)
    case Notifying(d) => d == c && eof
    case Closed => eof
    case Gone => eof
  }

  ghost predicate TargetsExist<B(!new), T(!new)>(threads: map<T, Pc<B>>, n: nat) {
    forall t :: t in threads ==>
      (threads[t].Signal? || threads[t].Waiting? || threads[t].Woken? ==> threads[t].target < n)
      && (threads[t].Looked? && threads[t].found.Some? ==> threads[t].found.value < n)
  }

  /** A broadcast for call c is still to come. */
  ghost predicate Pending<K(!new), B(!new), T(!new)>(s: State<K, B, T>, c: nat)
    requires c < |s.calls|
  {
    s.calls[c].phase == Notifying(c) || exists u :: u in s.threads && s.threads[u] == Signal(c)
  }

  /** A thread asleep on c has nothing to read, or will be woken; and nobody sleeps on a closed call. */
  ghost predicate SleeperSafe<K(!new), B(!new), T(!new)>(s: State<K, B, T>, t: T)
    requires t in s.threads
  {
    s.threads[t].Waiting? && s.threads[t].target < |s.calls| ==>
      var c := s.threads[t].target;
      && !s.calls[c].phase.Closed? && !s.calls[c].phase.Gone?
      && (s.calls[c].buf != [] || s.calls[c].eof ==> Pending(s, c))
  }

  ghost predicate SleepersSafe<K(!new), B(!new), T(!new)>(s: State<K, B, T>) {
    forall t :: t in s.threads ==> SleeperSafe(s, t)
  }

  ghost predicate Inv<K(!new), B(!new), T(!new)>(s: State<K, B, T>) {
    && MapsLive(s.calls, s.byClient, s.byPlugin)
    && PhasesOwn(s.calls)
    && TargetsExist(s.threads, |s.calls|)
    && SleepersSafe(s)
  }

  /** The signals for call c in s are there in n. */
  ghost predicate SignalsStay<K(!new), B(!new), T(!new)>(s: State<K, B, T>, n: State<K, B, T>, c: nat) {
    forall v :: v in s.threads && s.threads[v] == Signal(c) ==> v in n.threads && n.threads[v] == Signal(c)
  }

  /** A sleeper is not disturbed by a step that leaves its call and the signals for it alone. */
  lemma SleeperStays<K(!new), B(!new), T(!new)>(s: State<K, B, T>, n: State<K, B, T>, t: T)
    requires t in s.threads && t in n.threads && n.threads[t] == s.threads[t] && SleeperSafe(s, t)
    requires n.threads[t].Waiting? ==>
               var c := n.threads[t].target;
               && c < |s.calls| && c < |n.calls|
               && n.calls[c].phase == s.calls[c].phase
               && (n.calls[c].buf != [] || n.calls[c].eof ==> s.calls[c].buf != [] || s.calls[c].eof)
               && SignalsStay(s, n, c)
    ensures SleeperSafe(n, t)
  {
    if n.threads[t].Waiting? {
      var c := n.threads[t].target;
      if Pending(s, c) && s.calls[c].phase != Notifying(c) {
        var v :| v in s.threads && s.threads[v] == Signal(c);
        assert n.threads[v] == Signal(c);
      }
    }
  }

  /** Steps that change neither ids nor liveness leave the maps right. */
  lemma SameIdsKeepMaps<K(!new), B(!new)>(was: seq<Call<K, B>>, now: seq<Call<K, B>>, byClient: map<K, nat>, byPlugin: map<K, nat>)
    requires MapsLive(was, byClient, byPlugin) && |now| == |was|
    requires forall c :: 0 <= c < |was| ==> now[c].client == was[c].client && now[c].plugin == was[c].plugin
    requires forall c :: 0 <= c < |was| ==> (now[c].phase == Gone <==> was[c].phase == Gone)
    ensures MapsLive(now, byClient, byPlugin)
  {
  }

  lemma OpenKeepsMaps<K(!new), B(!new), T(!new)>(s: State<K, B, T>, client: K, plugin: K)
    requires MapsLive(s.calls, s.byClient, s.byPlugin)
    requires IdFree(s.calls, client)
    ensures var n := Step(s, Open(client, plugin)); MapsLive(n.calls, n.byClient, n.byPlugin)
  {
    var n := Step(s, Open(client, plugin));
    assert AllFound(n.calls, n.byClient) && UnderOwnClient(n.calls, n.byClient);
    assert Live(n.calls, n.byClient) && Live(n.calls, n.byPlugin) && UnderOwnPlugin(n.calls, n.byPlugin);
  }

  lemma OpenKeepsInv<K(!new), B(!new), T(!new)>(s: State<K, B, T>, client: K, plugin: K)
    requires Inv(s) && IdFree(s.calls, client)
    ensures Inv(Step(s, Open(client, plugin)))
  {
    var n := Step(s, Open(client, plugin));
    OpenKeepsMaps(s, client, plugin);
    hide MapsLive;
    forall t | t in n.threads ensures SleeperSafe(n, t) { SleeperStays(s, n, t); }
  }

  lemma LookUpKeepsInv<K(!new), B(!new), T(!new)>(s: State<K, B, T>, t: T, client: K, op: Op<B>)
    requires Inv(s)
    ensures Inv(Step(s, LookUp(t, client, op)))
  {
    var n := Step(s, LookUp(t, client, op));
    forall u | u in n.threads ensures SleeperSafe(n, u) {
      if u != t { SleeperStays(s, n, u); }
    }
  }

  /** Changing one call's buffer and announcing it with a signal of the same thread. */
  lemma ChangeKeepsInv<K(!new), B(!new), T(!new)>(s: State<K, B, T>, t: T, c: nat, call: Call<K, B>)
    requires Inv(s) && c < |s.calls| && t in s.threads && !s.threads[t].Signal?
    requires call.client == s.calls[c].client && call.plugin == s.calls[c].plugin && call.phase == s.calls[c].phase
    requires s.calls[c].eof ==> call.eof
    ensures Inv(s.(calls := s.calls[c := call], threads := s.threads[t := Signal(c)]))
  {
    var n := s.(calls := s.calls[c := call], threads := s.threads[t := Signal(c)]);
    SameIdsKeepMaps(s.calls, n.calls, s.byClient, s.byPlugin);
    hide MapsLive;
    assert PhaseOwn(c, s.calls[c].phase, s.calls[c].eof);
    forall u | u in n.threads ensures SleeperSafe(n, u) {
      if u != t {
        if n.threads[u].Waiting? && n.threads[u].target == c {
          assert SleeperSafe(s, u) && n.threads[t] == Signal(c);
        } else {
          SleeperStays(s, n, u);
        }
      }
    }
  }

  /** Taking bytes out of a buffer that had some. */
  lemma TakeKeepsInv<K(!new), B(!new), T(!new)>(s: State<K, B, T>, t: T, c: nat, call: Call<K, B>)
    requires Inv(s) && c < |s.calls| && t in s.threads && !s.threads[t].Signal? && s.calls[c].buf != []
    requires call.client == s.calls[c].client && call.plugin == s.calls[c].plugin && call.phase == s.calls[c].phase
    requires call.eof == s.calls[c].eof
    ensures Inv(s.(calls := s.calls[c := call], threads := s.threads[t := Idle]))
  {
    var n := s.(calls := s.calls[c := call], threads := s.threads[t := Idle]);
    SameIdsKeepMaps(s.calls, n.calls, s.byClient, s.byPlugin);
    hide MapsLive;
    assert PhaseOwn(c, s.calls[c].phase, s.calls[c].eof);
    forall u | u in n.threads ensures SleeperSafe(n, u) {
      if u != t { SleeperStays(s, n, u); }
    }
  }

  /** Finding nothing: report the end, or go to sleep on a call that is not closed. */
  lemma SettleKeepsInv<K(!new), B(!new), T(!new)>(s: State<K, B, T>, t: T, c: nat, pc: Pc<B>)
    requires Inv(s) && c < |s.calls| && t in s.threads && !s.threads[t].Signal? && s.calls[c].buf == []
    requires pc == Idle || (pc.Waiting? && pc.target == c && !s.calls[c].eof)
    ensures Inv(s.(threads := s.threads[t := pc]))
  {
    var n := s.(threads := s.threads[t := pc]);
    hide MapsLive;
    assert PhaseOwn(c, s.calls[c].phase, s.calls[c].eof);
    forall u | u in n.threads ensures SleeperSafe(n, u) {
      if u != t { SleeperStays(s, n, u); }
    }
  }

  lemma ReadKeepsInv<K(!new), B(!new), T(!new)>(s: State<K, B, T>, t: T, c: nat, max: int)
    requires Inv(s) && c < |s.calls| && t in s.threads && !s.threads[t].Signal?
    ensures Inv(ReadStep(s, t, c, max))
  {
    hide Inv;
    var call := s.calls[c];
    if call.buf != [] {
      TakeKeepsInv(s, t, c, Taken(call, max));
    } else {
      SettleKeepsInv(s, t, c, if call.eof then Idle else Waiting(c, max));
    }
  }

  lemma ActKeepsInv<K(!new), B(!new), T(!new)>(s: State<K, B, T>, t: T)
    requires Inv(s)
    ensures Inv(Step(s, Act(t)))
  {
    if t in s.threads {
      match s.threads[t] {
        case Looked(None, _) =>
          var n := Step(s, Act(t));
          forall u | u in n.threads ensures SleeperSafe(n, u) {
            if u != t { SleeperStays(s, n, u); }
          }
        case Looked(Some(c), Store(data)) =>
          ChangeKeepsInv(s, t, c, Stored(s.calls[c], data));
        case Looked(Some(c), Close) =>
          ChangeKeepsInv(s, t, c, s.calls[c].(eof := true));
        case Looked(Some(c), Read(max)) => ReadKeepsInv(s, t, c, max);
        case Woken(c, max) => ReadKeepsInv(s, t, c, max);
        case _ =>
      }
    }
  }

  lemma NotifyKeepsInv<K(!new), B(!new), T(!new)>(s: State<K, B, T>, t: T)
    requires Inv(s)
    ensures Inv(Step(s, Notify(t)))
  {
    if t in s.threads && s.threads[t].Signal? {
      var n := Step(s, Notify(t));
      forall u | u in n.threads ensures SleeperSafe(n, u) {
        if n.threads[u].Waiting? { SleeperStays(s, n, u); }
      }
    }
  }

  /** The handler of c moves on to a phase in which no sleeper of c is left unsafe. */
  lemma PhaseChangeKeepsSleepersSafe<K(!new), B(!new), T(!new)>(s: State<K, B, T>, n: State<K, B, T>, c: nat)
    requires SleepersSafe(s) && |n.calls| == |s.calls| && c < |s.calls| && TargetsExist(s.threads, |s.calls|)
    requires forall d :: 0 <= d < |s.calls| && d != c ==> n.calls[d] == s.calls[d]
    requires forall u :: u in s.threads && s.threads[u].Signal? ==> u in n.threads && n.threads[u] == s.threads[u]
    requires forall u :: u in n.threads && n.threads[u].Waiting? ==> u in s.threads && s.threads[u] == n.threads[u]
    requires n.calls[c].phase == Notifying(c)
             || (forall u :: u in n.threads && n.threads[u].Waiting? ==> n.threads[u].target != c)
    ensures SleepersSafe(n)
  {
    forall u | u in n.threads ensures SleeperSafe(n, u) {
      if n.threads[u].Waiting? && n.threads[u].target != c { SleeperStays(s, n, u); }
    }
  }

  /** Starting to close changes nothing for the sleepers. */
  lemma BeginCloseKeepsInv<K(!new), B(!new), T(!new)>(s: State<K, B, T>, c: nat)
    requires Inv(s) && c < |s.calls| && s.calls[c].phase == Serving
    ensures Inv(Step(s, BeginClose(c)))
  {
    hide SetEofOf, Wake, ActStep;
    var n := Step(s, BeginClose(c));
    SameIdsKeepMaps(s.calls, n.calls, s.byClient, s.byPlugin);
    assert Find(s.byClient, s.calls[c].client) == Some(c);
    hide MapsLive;
    forall u | u in n.threads ensures SleeperSafe(n, u) {
      assert SleeperSafe(s, u);
      if n.threads[u].Waiting? {
        var d := n.threads[u].target;
        if Pending(s, d) && s.calls[d].phase != Notifying(d) {
          var v :| v in s.threads && s.threads[v] == Signal(d);
          assert n.threads[v] == Signal(d);
        }
      }
    }
  }

  lemma SetEofKeepsInv<K(!new), B(!new), T(!new)>(s: State<K, B, T>, c: nat)
    requires Inv(s) && c < |s.calls| && s.calls[c].phase.Closing?
    ensures Inv(Step(s, SetEof(c)))
  {
    var n := Step(s, SetEof(c));
    assert PhaseOwn(c, s.calls[c].phase, s.calls[c].eof);
    SameIdsKeepMaps(s.calls, n.calls, s.byClient, s.byPlugin);
    hide MapsLive;
    PhaseChangeKeepsSleepersSafe(s, n, c);
  }

  lemma NotifyClosedKeepsInv<K(!new), B(!new), T(!new)>(s: State<K, B, T>, c: nat)
    requires Inv(s) && c < |s.calls| && s.calls[c].phase.Notifying?
    ensures Inv(Step(s, NotifyClosed(c)))
  {
    var n := Step(s, NotifyClosed(c));
    assert PhaseOwn(c, s.calls[c].phase, s.calls[c].eof);
    SameIdsKeepMaps(s.calls, n.calls, s.byClient, s.byPlugin);
    hide MapsLive;
    PhaseChangeKeepsSleepersSafe(s, n, c);
  }

  lemma UnregisterKeepsInv<K(!new), B(!new), T(!new)>(s: State<K, B, T>, c: nat)
    requires Inv(s) && c < |s.calls| && s.calls[c].phase == Closed
    ensures Inv(Step(s, Unregister(c)))
  {
    var n := Step(s, Unregister(c));
    assert PhaseOwn(c, s.calls[c].phase, s.calls[c].eof);
    UnregisterKeepsMaps(s, c);
    hide MapsLive;
    NobodySleepsOnClosed(s, c);
    PhaseChangeKeepsSleepersSafe(s, n, c);
  }

  lemma NobodySleepsOnClosed<K(!new), B(!new), T(!new)>(s: State<K, B, T>, c: nat)
    requires SleepersSafe(s) && c < |s.calls| && (s.calls[c].phase == Closed || s.calls[c].phase == Gone)
    ensures forall u :: u in s.threads && s.threads[u].Waiting? ==> s.threads[u].target != c
  {
    forall u | u in s.threads && s.threads[u].Waiting? ensures s.threads[u].target != c {
      assert SleeperSafe(s, u);
    }
  }

  lemma UnregisterKeepsMaps<K(!new), B(!new), T(!new)>(s: State<K, B, T>, c: nat)
    requires MapsLive(s.calls, s.byClient, s.byPlugin) && c < |s.calls| && s.calls[c].phase == Closed
    ensures var n := Step(s, Unregister(c)); MapsLive(n.calls, n.byClient, n.byPlugin)
  {
    var n := Step(s, Unregister(c));
    forall k | k in n.byClient ensures n.byClient[k] != c { assert k != s.calls[c].client; }
    forall k | k in n.byPlugin ensures n.byPlugin[k] != c { assert k != s.calls[c].plugin; }
    assert Live(n.calls, n.byClient) && Live(n.calls, n.byPlugin);
    assert UnderOwnClient(n.calls, n.byClient) && UnderOwnPlugin(n.calls, n.byPlugin);
    forall d | 0 <= d < |n.calls| && n.calls[d].phase != Gone ensures Find(n.byClient, n.calls[d].client) == Some(d) {
      assert Find(s.byClient, s.calls[d].client) == Some(d);
    }
  }

  lemma StepKeepsInv<K(!new), B(!new), T(!new)>(s: State<K, B, T>, e: Event<K, B, T>)
    requires Inv(s) && (e.Open? ==> IdFree(s.calls, e.client))
    ensures Inv(Step(s, e))
  {
    hide Inv;
    match e {
      case Open(client, plugin) => OpenKeepsInv(s, client, plugin);
      case LookUp(t, client, op) => LookUpKeepsInv(s, t, client, op);
      case Act(t) => ActKeepsInv(s, t);
      case Notify(t) => NotifyKeepsInv(s, t);
      case BeginClose(c) => if c < |s.calls| && s.calls[c].phase == Serving { BeginCloseKeepsInv(s, c); }
      case SetEof(c) => if c < |s.calls| && s.calls[c].phase.Closing? { SetEofKeepsInv(s, c); }
      case NotifyClosed(c) => if c < |s.calls| && s.calls[c].phase.Notifying? { NotifyClosedKeepsInv(s, c); }
      case Unregister(c) => if c < |s.calls| && s.calls[c].phase == Closed { UnregisterKeepsInv(s, c); }
    }
  }

  lemma {:induction false} RunKeepsInv<K(!new), B(!new), T(!new)>(s: State<K, B, T>, events: seq<Event<K, B, T>>)
    requires Inv(s) && Fresh(s, events)
    ensures Inv(Run(s, events))
    decreases |events|
  {
    if events != [] {
      StepKeepsInv(s, events[0]);
      RunKeepsInv(Step(s, events[0]), events[1..]);
    }
  }

  lemma StartInv<K(!new), B(!new), T(!new)>()
    ensures Inv(Start<K, B, T>())
  {
  }

  /**
   * Under every interleaving in which no id of a live call is used again, both maps hold only live calls, every live
   * call is found by its client id, every closed call has its end set, and nobody sleeps on a closed call.
   */
  lemma AnyInterleaving<K(!new), B(!new), T(!new)>(events: seq<Event<K, B, T>>, t: T)
    requires Fresh(Start<K, B, T>(), events)
    ensures var s := Run(Start<K, B, T>(), events);
            && Accounts(s.calls)
            && MapsLive(s.calls, s.byClient, s.byPlugin)
            && (forall c :: 0 <= c < |s.calls| && (s.calls[c].phase == Closed || s.calls[c].phase == Gone) ==> s.calls[c].eof)
            && (t in s.threads && s.threads[t].Waiting? ==>
                  s.threads[t].target < |s.calls|
                  && !s.calls[s.threads[t].target].phase.Closed? && !s.calls[s.threads[t].target].phase.Gone?)
  {
    StartInv<K, B, T>();
    RunKeepsInv(Start<K, B, T>(), events);
    BytesAreKept(Start<K, B, T>(), events);
    var s := Run(Start<K, B, T>(), events);
    forall c | 0 <= c < |s.calls| && (s.calls[c].phase == Closed || s.calls[c].phase == Gone) ensures s.calls[c].eof {
      assert PhaseOwn(c, s.calls[c].phase, s.calls[c].eof);
    }
    if t in s.threads { assert SleeperSafe(s, t); }
  }

  /** In every state of the run both maps hold only live calls, and every live call is found by its client id. */
  ghost predicate AlwaysMapped<K(!new), B(!new), T(!new)>(s: State<K, B, T>, events: seq<Event<K, B, T>>)
    decreases |events|
  {
    MapsLive(s.calls, s.byClient, s.byPlugin) && (events == [] || AlwaysMapped(Step(s, events[0]), events[1..]))
  }

  /** The exact condition: calls stay mapped throughout a run if and only if no live id is used again in it. */
  lemma {:induction false} AlwaysMappedIffFresh<K(!new), B(!new), T(!new)>(s: State<K, B, T>, events: seq<Event<K, B, T>>)
    requires Inv(s)
    ensures AlwaysMapped(s, events) <==> Fresh(s, events)
    decreases |events|
  {
    if events != [] {
      var e := events[0];
      if e.Open? && !IdFree(s.calls, e.client) {
        ReuseHidesCall(s, e.client, e.plugin);
      } else {
        StepKeepsInv(s, e);
        AlwaysMappedIffFresh(Step(s, e), events[1..]);
      }
    }
  }

  lemma ReuseHidesCall<K(!new), B(!new), T(!new)>(s: State<K, B, T>, client: K, plugin: K)
    requires !IdFree(s.calls, client)
    ensures var n := Step(s, Open(client, plugin)); !MapsLive(n.calls, n.byClient, n.byPlugin)
  {
    var n := Step(s, Open(client, plugin));
    var c :| 0 <= c < |s.calls| && s.calls[c].phase != Gone && s.calls[c].client == client;
    assert n.calls[c].client == client && Find(n.byClient, client) == Some(|s.calls|);
  }

  /** The broadcast that will wake the sleepers of c, if one is on its way. */
  ghost predicate WakesUp<K(!new), B(!new), T(!new)>(s: State<K, B, T>, e: Event<K, B, T>, t: T) {
    t in s.threads && s.threads[t].Waiting? && t in Step(s, e).threads
    && Step(s, e).threads[t] == Woken(s.threads[t].target, s.threads[t].max)
  }

  /** No wake-up is lost: when a sleeper has bytes or the end to read, a broadcast that wakes it can be taken. */
  lemma NoLostWakeUp<K(!new), B(!new), T(!new)>(s: State<K, B, T>, t: T)
    requires Inv(s) && t in s.threads && s.threads[t].Waiting?
    requires var call := s.calls[s.threads[t].target]; call.buf != [] || call.eof
    ensures exists e :: WakesUp(s, e, t)
  {
    var c := s.threads[t].target;
    assert SleeperSafe(s, t) && Pending(s, c);
    if s.calls[c].phase == Notifying(c) {
      assert WakesUp(s, NotifyClosed(c), t);
    } else {
      var u :| u in s.threads && s.threads[u] == Signal(c);
      assert WakesUp(s, Notify(u), t);
    }
  }

  /** A woken reader with bytes or the end to read returns at its next step: with bytes, if there are any. */
  lemma WokenReaderReturns<K(!new), B(!new), T(!new)>(s: State<K, B, T>, t: T)
    requires t in s.threads && s.threads[t].Woken? && s.threads[t].target < |s.calls|
    requires var call := s.calls[s.threads[t].target]; call.buf != [] || call.eof
    ensures var c, n := s.threads[t].target, Step(s, Act(t));
            && n.threads[t] == Idle
            && (s.calls[c].buf != [] ==> |n.calls[c].returned| > |s.calls[c].returned|)
  {
  }

  /** The steps that are left to the handler of c once it has looked its call up. */
  function Finish<K(==), B, T(==)>(s: State<K, B, T>, c: nat): State<K, B, T> {
    Step(Step(Step(s, SetEof(c)), NotifyClosed(c)), Unregister(c))
  }

  /** The handler of c closes its call. */
  function CloseCall<K(==), B, T(==)>(s: State<K, B, T>, c: nat): State<K, B, T> {
    Finish(Step(s, BeginClose(c)), c)
  }

  /**
   * A new call with the id of call c, which is still being served: closing c ends the new call instead and takes it
   * out of the map, though it is still served. Unless its own end was set before, c itself is gone without it, and
   * a reader asleep on c stays asleep with no broadcast to come.
   */
  lemma ReuseOfServedId<K(!new), B(!new), T(!new)>(s: State<K, B, T>, c: nat, plugin: K, t: T)
    requires c < |s.calls| && s.calls[c].phase == Serving
    ensures var d, client := |s.calls|, s.calls[c].client;
            var n := CloseCall(Step(s, Open(client, plugin)), c);
            && |n.calls| == d + 1
            && n.calls[d].phase == Serving && n.calls[d].eof && client !in n.byClient
            && n.calls[c].phase == Gone && n.calls[c].eof == s.calls[c].eof
            && (t in s.threads && s.threads[t].Waiting? && s.threads[t].target == c ==> t in n.threads && n.threads[t] == s.threads[t])
            && (Pending(n, c) ==> Pending(s, c))
  {
    var d, client := |s.calls|, s.calls[c].client;
    var a := Step(s, Open(client, plugin));
    assert a.calls[c] == s.calls[c] && Find(a.byClient, client) == Some(d);
    ServedClose(a, c, d);
    var n := CloseCall(a, c);
    if Pending(n, c) {
      var u :| u in n.threads && n.threads[u] == Signal(c);
      assert s.threads[u] == Signal(c);
    }
  }

  lemma ServedClose<K(!new), B(!new), T(!new)>(a: State<K, B, T>, c: nat, d: nat)
    requires c < |a.calls| && d < |a.calls| && c != d && a.calls[c].phase == Serving
    requires Find(a.byClient, a.calls[c].client) == Some(d)
    ensures var n := CloseCall(a, c);
            && n.calls == a.calls[d := a.calls[d].(eof := true)][c := a.calls[c].(phase := Gone)]
            && n.byClient == a.byClient - {a.calls[c].client} && n.threads == Wake(a.threads, d)
  {
    var k := a.calls[d].(eof := true);
    var b := Step(a, BeginClose(c));
    assert b.calls == a.calls[c := a.calls[c].(phase := Closing(Some(d)))];
    var e := Step(b, SetEof(c));
    assert e.calls == a.calls[d := k][c := a.calls[c].(phase := Notifying(d))];
    var f := Step(e, NotifyClosed(c));
    assert f.calls == a.calls[d := k][c := a.calls[c].(phase := Closed)];
  }

  /** A new call with the id of call c, which is closing already: the new call goes without its end being set. */
  lemma ReuseOfClosingId<K(!new), B(!new), T(!new)>(s: State<K, B, T>, c: nat, plugin: K)
    requires Inv(s) && c < |s.calls| && s.calls[c].phase != Serving && s.calls[c].phase != Gone
    ensures var d, client := |s.calls|, s.calls[c].client;
            var n := CloseCall(Finish(Step(s, Open(client, plugin)), c), d);
            |n.calls| == d + 1 && n.calls[d].phase == Gone && !n.calls[d].eof
  {
    var d, client := |s.calls|, s.calls[c].client;
    var a := Step(s, Open(client, plugin));
    assert PhaseOwn(c, s.calls[c].phase, s.calls[c].eof) && a.calls[c] == s.calls[c];
    ClosingFinishes(a, c, d);
    var b := Finish(a, c);
    UnfoundClose(b, d);
  }

  lemma ClosingFinishes<K(!new), B(!new), T(!new)>(a: State<K, B, T>, c: nat, d: nat)
    requires c < |a.calls| && d < |a.calls| && c != d
    requires PhaseOwn(c, a.calls[c].phase, a.calls[c].eof) && a.calls[c].phase != Serving && a.calls[c].phase != Gone
    ensures var b := Finish(a, c); |b.calls| == |a.calls| && b.calls[d] == a.calls[d] && a.calls[c].client !in b.byClient
  {
    var b := Step(a, SetEof(c));
    assert |b.calls| == |a.calls| && b.calls[d] == a.calls[d] && b.calls[c].client == a.calls[c].client;
    assert b.calls[c].phase.Notifying? || b.calls[c].phase.Closed?;
    var e := Step(b, NotifyClosed(c));
    assert |e.calls| == |a.calls| && e.calls[d] == a.calls[d] && e.calls[c].client == a.calls[c].client;
    assert e.calls[c].phase == Closed;
  }

  lemma UnfoundClose<K(!new), B(!new), T(!new)>(b: State<K, B, T>, d: nat)
    requires d < |b.calls| && b.calls[d].phase == Serving && b.calls[d].client !in b.byClient
    ensures var n := CloseCall(b, d);
            |n.calls| == |b.calls| && n.calls[d].phase == Gone && n.calls[d].eof == b.calls[d].eof
  {
    var a := Step(b, BeginClose(d));
    assert a.calls[d].phase == Closing(None);
    var e := Step(a, SetEof(d));
    assert e.calls[d].phase == Closed && e.calls[d].eof == b.calls[d].eof;
    var f := Step(e, NotifyClosed(d));
    assert f.calls[d] == e.calls[d];
  }

  /** One such state: the reader of call 0 sleeps for good. */
  lemma ReusedIdStrandsReader(s: State<int, int, int>)
    requires s.calls == [Call(7, 1, [], false, Serving, [], []), Call(7, 2, [], false, Serving, [], [])]
    requires s.byClient == map[7 := 1] && s.byPlugin == map[1 := 0, 2 := 1] && s.threads == map[0 := Waiting(0, 10)]
    ensures var n := CloseCall(s, 0);
            && n.calls[0].phase == Gone && !n.calls[0].eof && n.threads == map[0 := Waiting(0, 10)] && !Pending(n, 0)
            && n.calls[1].phase == Serving && n.calls[1].eof && 7 !in n.byClient
  {
    ServedClose(s, 0, 1);
    assert Wake(s.threads, 1) == s.threads;
  }

  lemma RunFirst<K(!new), B(!new), T(!new)>(s: State<K, B, T>, e: Event<K, B, T>, rest: seq<Event<K, B, T>>)
    ensures Run(s, [e] + rest) == Run(Step(s, e), rest)
  {
    assert ([e] + rest)[1..] == rest;
  }

  /** That state is reached: two calls with one id, and a reader that looked the first one up in between. */
  lemma ReusedIdReached()
    ensures Run(Start<int, int, int>(), [Open(7, 1)] + ([LookUp(0, 7, Read(10))] + ([Act(0)] + ([Open(7, 2)] + []))))
              == State([Call(7, 1, [], false, Serving, [], []), Call(7, 2, [], false, Serving, [], [])],
                       map[7 := 1], map[1 := 0, 2 := 1], map[0 := Waiting(0, 10)])
  {
    var first := Call(7, 1, [], false, Serving, [], []);
    var a: State<int, int, int> := State([first], map[7 := 0], map[1 := 0], map[]);
    var b: State<int, int, int> := a.(threads := map[0 := Looked(Some(0), Read(10))]);
    var c: State<int, int, int> := a.(threads := map[0 := Waiting(0, 10)]);
    OpenAndLookUp(a, b, c);
    var d := Step(c, Open(7, 2));
    assert d.calls == [first, Call(7, 2, [], false, Serving, [], [])];
    assert Run(d, []) == d;
    hide Step, Run;
    RunFirst(Start<int, int, int>(), Open(7, 1), [LookUp(0, 7, Read(10))] + ([Act(0)] + ([Open(7, 2)] + [])));
    RunFirst(a, LookUp(0, 7, Read(10)), [Act(0)] + ([Open(7, 2)] + []));
    RunFirst(b, Act(0), [Open(7, 2)] + []);
    RunFirst(c, Open(7, 2), []);
  }

  lemma OpenAndLookUp(a: State<int, int, int>, b: State<int, int, int>, c: State<int, int, int>)
    requires a == State([Call(7, 1, [], false, Serving, [], [])], map[7 := 0], map[1 := 0], map[])
    requires b == a.(threads := map[0 := Looked(Some(0), Read(10))]) && c == a.(threads := map[0 := Waiting(0, 10)])
    ensures Step(Start(), Open(7, 1)) == a && Step(a, LookUp(0, 7, Read(10))) == b && Step(b, Act(0)) == c
  {
  }

  // ---- When a reused id leaves every end set --------------------------------------------------------

  /** Every closed call has its end set. */
  ghost predicate EndsSet<K(!new), B(!new)>(calls: seq<Call<K, B>>) {
    forall x :: 0 <= x < |calls| && (calls[x].phase == Closed || calls[x].phase == Gone) ==> calls[x].eof
  }

  ghost predicate NoOpens<K(!new), B(!new), T(!new)>(events: seq<Event<K, B, T>>) {
    forall i :: 0 <= i < |events| ==> !events[i].Open?
  }

  /** Call d has taken the id of call c, whose end is set already; the other calls are as ever. */
  ghost predicate SharedId<K(!new), B(!new)>(calls: seq<Call<K, B>>, byClient: map<K, nat>, c: nat, d: nat) {
    && c < |calls| && d < |calls| && c != d && calls[c].client == calls[d].client && calls[c].eof
    && (Find(byClient, calls[c].client) == Some(d) || (calls[c].client !in byClient && calls[d].eof))
    && (calls[c].phase == Serving || calls[c].phase == Closing(Some(d)) || calls[d].eof)
    && (calls[d].phase == Serving || calls[d].phase == Closing(Some(d)) || calls[d].eof)
    && (calls[c].phase.Closing? && calls[c].phase.found.Some? ==> calls[c].phase.found == Some(d))
    && (calls[d].phase.Closing? && calls[d].phase.found.Some? ==> calls[d].phase.found == Some(d))
    && forall x :: 0 <= x < |calls| && x != c && x != d ==> OtherCall(calls, byClient, x, calls[c].client)
  }

  ghost predicate OtherCall<K(!new), B(!new)>(calls: seq<Call<K, B>>, byClient: map<K, nat>, x: nat, client: K)
    requires x < |calls|
  {
    && PhaseOwn(x, calls[x].phase, calls[x].eof)
    && (calls[x].phase != Gone ==> calls[x].client != client && Find(byClient, calls[x].client) == Some(x))
  }

  lemma SharedEndsSet<K(!new), B(!new)>(calls: seq<Call<K, B>>, byClient: map<K, nat>, c: nat, d: nat)
    requires SharedId(calls, byClient, c, d)
    ensures EndsSet(calls)
  {
    forall x | 0 <= x < |calls| && (calls[x].phase == Closed || calls[x].phase == Gone) ensures calls[x].eof {
      if x != c && x != d { assert OtherCall(calls, byClient, x, calls[c].client); }
    }
  }

  /** Only buffers changed, and ends were only set. */
  ghost predicate SameButData<K(!new), B(!new)>(was: seq<Call<K, B>>, now: seq<Call<K, B>>) {
    |now| == |was|
    && forall x :: 0 <= x < |was| ==>
         now[x].client == was[x].client && now[x].plugin == was[x].plugin && now[x].phase == was[x].phase && (was[x].eof ==> now[x].eof)
  }

  lemma ReadChangesData<K(!new), B(!new), T(!new)>(s: State<K, B, T>, t: T, c: nat, max: int)
    ensures SameButData(s.calls, ReadStep(s, t, c, max).calls)
  {
  }

  /** Looking up, reading, storing and broadcasting only change data. */
  lemma ThreadsChangeData<K(!new), B(!new), T(!new)>(s: State<K, B, T>, e: Event<K, B, T>)
    requires e.LookUp? || e.Act? || e.Notify?
    ensures var n := Step(s, e); SameButData(s.calls, n.calls) && n.byClient == s.byClient && n.byPlugin == s.byPlugin
  {
    if e.Act? && e.t in s.threads {
      match s.threads[e.t] {
        case Looked(Some(c), Read(max)) => ReadChangesData(s, e.t, c, max);
        case Woken(c, max) => ReadChangesData(s, e.t, c, max);
        case _ =>
      }
      hide ReadStep;
    }
  }

  /** Reading, storing and setting ends cannot break it. */
  lemma EndsOnlySet<K(!new), B(!new)>(was: seq<Call<K, B>>, now: seq<Call<K, B>>, byClient: map<K, nat>, c: nat, d: nat)
    requires SharedId(was, byClient, c, d) && SameButData(was, now)
    ensures SharedId(now, byClient, c, d)
  {
    forall x | 0 <= x < |now| && x != c && x != d ensures OtherCall(now, byClient, x, now[c].client) {
      assert OtherCall(was, byClient, x, was[c].client);
    }
  }

  /** The handler of one call moves on; where the two calls that share the id are concerned, as the steps do. */
  lemma PhaseKeepsShared<K(!new), B(!new)>(calls: seq<Call<K, B>>, byClient: map<K, nat>, c: nat, d: nat, x: nat, phase: Phase)
    requires SharedId(calls, byClient, c, d) && x < |calls|
    requires calls[x].phase != Gone && phase != Gone && phase != Serving
    requires x != c && x != d ==> PhaseOwn(x, phase, calls[x].eof)
    requires x == c || x == d ==> phase == Closing(Some(d)) || (calls[d].eof && (phase.Closing? ==> phase.found.None?))
    ensures SharedId(calls[x := calls[x].(phase := phase)], byClient, c, d)
  {
    var now := calls[x := calls[x].(phase := phase)];
    forall y | 0 <= y < |now| && y != c && y != d ensures OtherCall(now, byClient, y, now[c].client) {
      assert OtherCall(calls, byClient, y, calls[c].client);
    }
  }

  lemma BeginCloseKeepsShared<K(!new), B(!new), T(!new)>(s: State<K, B, T>, x: nat, c: nat, d: nat)
    requires SharedId(s.calls, s.byClient, c, d) && x < |s.calls|
    ensures SharedId(Step(s, BeginClose(x)).calls, Step(s, BeginClose(x)).byClient, c, d)
  {
    if s.calls[x].phase == Serving {
      if x != c && x != d { assert OtherCall(s.calls, s.byClient, x, s.calls[c].client); }
      PhaseKeepsShared(s.calls, s.byClient, c, d, x, Closing(Find(s.byClient, s.calls[x].client)));
    }
  }

  lemma SetEofKeepsShared<K(!new), B(!new), T(!new)>(s: State<K, B, T>, x: nat, c: nat, d: nat)
    requires SharedId(s.calls, s.byClient, c, d) && x < |s.calls|
    ensures SharedId(Step(s, SetEof(x)).calls, Step(s, SetEof(x)).byClient, c, d)
  {
    if x != c && x != d { assert OtherCall(s.calls, s.byClient, x, s.calls[c].client); }
    match s.calls[x].phase {
      case Closing(None) => PhaseKeepsShared(s.calls, s.byClient, c, d, x, Closed);
      case Closing(Some(y)) =>
        var ended := SetEofOf(s.calls, y);
        EndsOnlySet(s.calls, ended, s.byClient, c, d);
        PhaseKeepsShared(ended, s.byClient, c, d, x, Notifying(y));
      case _ =>
    }
  }

  lemma NotifyClosedKeepsShared<K(!new), B(!new), T(!new)>(s: State<K, B, T>, x: nat, c: nat, d: nat)
    requires SharedId(s.calls, s.byClient, c, d) && x < |s.calls|
    ensures SharedId(Step(s, NotifyClosed(x)).calls, Step(s, NotifyClosed(x)).byClient, c, d)
  {
    if s.calls[x].phase.Notifying? {
      if x != c && x != d { assert OtherCall(s.calls, s.byClient, x, s.calls[c].client); }
      PhaseKeepsShared(s.calls, s.byClient, c, d, x, Closed);
    }
  }

  lemma UnregisterKeepsShared<K(!new), B(!new), T(!new)>(s: State<K, B, T>, x: nat, c: nat, d: nat)
    requires SharedId(s.calls, s.byClient, c, d) && x < |s.calls|
    ensures SharedId(Step(s, Unregister(x)).calls, Step(s, Unregister(x)).byClient, c, d)
  {
    if s.calls[x].phase == Closed {
      var n := Step(s, Unregister(x));
      if x != c && x != d { assert OtherCall(s.calls, s.byClient, x, s.calls[c].client); }
      forall y | 0 <= y < |n.calls| && y != c && y != d ensures OtherCall(n.calls, n.byClient, y, n.calls[c].client) {
        assert OtherCall(s.calls, s.byClient, y, s.calls[c].client);
      }
    }
  }

  lemma {:induction false} RunKeepsShared<K(!new), B(!new), T(!new)>(s: State<K, B, T>, events: seq<Event<K, B, T>>, c: nat, d: nat)
    requires SharedId(s.calls, s.byClient, c, d) && NoOpens(events)
    ensures var n := Run(s, events); SharedId(n.calls, n.byClient, c, d)
    decreases |events|
  {
    if events != [] {
      var e := events[0];
      var n := Step(s, e);
      match e {
        case BeginClose(x) => if x < |s.calls| { BeginCloseKeepsShared(s, x, c, d); }
        case SetEof(x) => if x < |s.calls| { SetEofKeepsShared(s, x, c, d); }
        case NotifyClosed(x) => if x < |s.calls| { NotifyClosedKeepsShared(s, x, c, d); }
        case Unregister(x) => if x < |s.calls| { UnregisterKeepsShared(s, x, c, d); }
        case _ =>
          ThreadsChangeData(s, e);
          EndsOnlySet(s.calls, n.calls, s.byClient, c, d);
      }
      hide Step, SharedId;
      RunKeepsShared(n, events[1..], c, d);
    }
  }

  function CloseEvents<K, B, T>(c: nat): seq<Event<K, B, T>> {
    [BeginClose(c), SetEof(c), NotifyClosed(c), Unregister(c)]
  }

  lemma CloseCallIsRun<K(!new), B(!new), T(!new)>(s: State<K, B, T>, c: nat)
    ensures Run(s, CloseEvents(c)) == CloseCall(s, c)
  {
    hide Step;
    var events: seq<Event<K, B, T>> := CloseEvents(c);
    assert events[1..] == [SetEof(c), NotifyClosed(c), Unregister(c)] && events[1..][1..] == [NotifyClosed(c), Unregister(c)];
    assert events[1..][1..][1..] == [Unregister(c)] && events[1..][1..][1..][1..] == [];
    var a := Step(s, BeginClose(c));
    var b := Step(a, SetEof(c));
    var f := Step(b, NotifyClosed(c));
    assert Run(f, [Unregister(c)]) == Step(f, Unregister(c));
    assert Run(b, [NotifyClosed(c), Unregister(c)]) == Run(f, [Unregister(c)]);
    assert Run(a, [SetEof(c), NotifyClosed(c), Unregister(c)]) == Run(b, [NotifyClosed(c), Unregister(c)]);
  }

  lemma {:induction false} RunConcat<K(!new), B(!new), T(!new)>(s: State<K, B, T>, a: seq<Event<K, B, T>>, b: seq<Event<K, B, T>>)
    ensures Run(s, a + b) == Run(Run(s, a), b)
    decreases |a|
  {
    if a == [] {
      assert a + b == b;
    } else {
      assert (a + b)[1..] == a[1..] + b;
      hide Step;
      RunConcat(Step(s, a[0]), a[1..], b);
    }
  }

  /** Whatever happens until the next call is opened, every closed call has its end set. */
  ghost predicate EndsStaySet<K(!new), B(!new), T(!new)>(s: State<K, B, T>) {
    forall more: seq<Event<K, B, T>> :: NoOpens(more) ==> EndsSet(Run(s, more).calls)
  }

  /**
   * The exact condition for the ends: opening a call leaves every closed call with its end set, whatever happens next,
   * if and only if its id is free, or the live call that has it is still served and has its own end set already.
   */
  lemma EndsStaySetIff<K(!new), B(!new), T(!new)>(s: State<K, B, T>, client: K, plugin: K)
    requires Inv(s)
    ensures EndsStaySet(Step(s, Open(client, plugin))) <==>
              forall c :: 0 <= c < |s.calls| && s.calls[c].client == client && s.calls[c].phase != Gone ==>
                s.calls[c].phase == Serving && s.calls[c].eof
  {
    if IdFree(s.calls, client) {
      FreeIdKeepsEnds(s, client, plugin);
    } else {
      var c :| 0 <= c < |s.calls| && s.calls[c].phase != Gone && s.calls[c].client == client;
      assert forall x :: 0 <= x < |s.calls| && s.calls[x].client == client && s.calls[x].phase != Gone ==> x == c by {
        assert Find(s.byClient, client) == Some(c);
      }
      if s.calls[c].phase == Serving && s.calls[c].eof {
        EndedCallKeepsEnds(s, c, plugin);
      } else if s.calls[c].phase == Serving {
        ServedReuseLosesEnd(s, c, plugin);
      } else {
        ClosingReuseLosesEnd(s, c, plugin);
      }
    }
  }

  lemma FreeIdKeepsEnds<K(!new), B(!new), T(!new)>(s: State<K, B, T>, client: K, plugin: K)
    requires Inv(s) && IdFree(s.calls, client)
    ensures EndsStaySet(Step(s, Open(client, plugin)))
  {
    OpenKeepsInv(s, client, plugin);
    var a := Step(s, Open(client, plugin));
    hide Step;
    forall more: seq<Event<K, B, T>> | NoOpens(more) ensures EndsSet(Run(a, more).calls) {
      NoOpensIsFresh(a, more);
      RunKeepsInv(a, more);
      var n := Run(a, more);
      forall x | 0 <= x < |n.calls| && (n.calls[x].phase == Closed || n.calls[x].phase == Gone) ensures n.calls[x].eof {
        assert PhaseOwn(x, n.calls[x].phase, n.calls[x].eof);
      }
    }
  }

  lemma {:induction false} NoOpensIsFresh<K(!new), B(!new), T(!new)>(s: State<K, B, T>, events: seq<Event<K, B, T>>)
    requires NoOpens(events)
    ensures Fresh(s, events)
    decreases |events|
  {
    if events != [] {
      hide Step;
      assert forall i :: 0 <= i < |events[1..]| ==> events[1..][i] == events[i + 1];
      NoOpensIsFresh(Step(s, events[0]), events[1..]);
    }
  }

  lemma EndedCallKeepsEnds<K(!new), B(!new), T(!new)>(s: State<K, B, T>, c: nat, plugin: K)
    requires Inv(s) && c < |s.calls| && s.calls[c].phase == Serving && s.calls[c].eof
    ensures EndsStaySet(Step(s, Open(s.calls[c].client, plugin)))
  {
    var d, client := |s.calls|, s.calls[c].client;
    var a := Step(s, Open(client, plugin));
    assert Find(s.byClient, client) == Some(c);
    forall x | 0 <= x < |a.calls| && x != c && x != d ensures OtherCall(a.calls, a.byClient, x, client) {
      assert PhaseOwn(x, s.calls[x].phase, s.calls[x].eof);
    }
    assert SharedId(a.calls, a.byClient, c, d);
    hide Step;
    forall more: seq<Event<K, B, T>> | NoOpens(more) ensures EndsSet(Run(a, more).calls) {
      RunKeepsShared(a, more, c, d);
      SharedEndsSet(Run(a, more).calls, Run(a, more).byClient, c, d);
    }
  }

  lemma ServedReuseLosesEnd<K(!new), B(!new), T(!new)>(s: State<K, B, T>, c: nat, plugin: K)
    requires c < |s.calls| && s.calls[c].phase == Serving && !s.calls[c].eof
    ensures !EndsStaySet(Step(s, Open(s.calls[c].client, plugin)))
  {
    var d, client := |s.calls|, s.calls[c].client;
    var a := Step(s, Open(client, plugin));
    assert a.calls[c] == s.calls[c] && Find(a.byClient, client) == Some(d);
    ServedClose(a, c, d);
    CloseCallIsRun(a, c);
    var n := CloseCall(a, c);
    hide Step;
    assert n.calls[c] == s.calls[c].(phase := Gone);
    var events: seq<Event<K, B, T>> := CloseEvents(c);
    assert NoOpens(events) && !EndsSet(Run(a, events).calls);
  }

  lemma ClosingReuseLosesEnd<K(!new), B(!new), T(!new)>(s: State<K, B, T>, c: nat, plugin: K)
    requires Inv(s) && c < |s.calls| && s.calls[c].phase != Serving && s.calls[c].phase != Gone
    ensures !EndsStaySet(Step(s, Open(s.calls[c].client, plugin)))
  {
    ReuseOfClosingId(s, c, plugin);
    var d := |s.calls|;
    var a := Step(s, Open(s.calls[c].client, plugin));
    assert a.calls[c] == s.calls[c];
    assert Step(a, BeginClose(c)) == a;
    hide Step;
    CloseCallIsRun(a, c);
    var b := Finish(a, c);
    CloseCallIsRun(b, d);
    RunConcat(a, CloseEvents(c), CloseEvents(d));
    var events: seq<Event<K, B, T>> := CloseEvents(c) + CloseEvents(d);
    assert NoOpens(events) && !EndsSet(Run(a, events).calls);
  }

  // ---- Where output goes -------------------------------------------------------------------------------

  /** The call a line of output goes to: the one found by plugin name, or else the one found by client id. */
  function Target<K(==)>(byPlugin: map<K, nat>, byClient: map<K, nat>, plugin: K, client: K): Option<nat> {
    if plugin in byPlugin then Some(byPlugin[plugin]) else Find(byClient, client)
  }

  /** No call of that plugin was opened after call c. */
  ghost predicate LastOfPlugin<K(!new), B(!new)>(calls: seq<Call<K, B>>, c: nat, plugin: K) {
    forall e :: c < e < |calls| ==> calls[e].plugin != plugin
  }

  /** A plugin name leads to the call of that plugin opened last. */
  ghost predicate LeadsToLast<K(!new), B(!new)>(calls: seq<Call<K, B>>, byPlugin: map<K, nat>) {
    forall p :: p in byPlugin ==> byPlugin[p] < |calls| && calls[byPlugin[p]].plugin == p && LastOfPlugin(calls, byPlugin[p], p)
  }

  lemma StepLeadsToLast<K(!new), B(!new), T(!new)>(s: State<K, B, T>, e: Event<K, B, T>)
    requires LeadsToLast(s.calls, s.byPlugin)
    ensures LeadsToLast(Step(s, e).calls, Step(s, e).byPlugin)
  {
    var n := Step(s, e);
    if !e.Open? {
      PluginsKept(s, e);
      hide Step;
    }
    forall p | p in n.byPlugin
      ensures n.byPlugin[p] < |n.calls| && n.calls[n.byPlugin[p]].plugin == p && LastOfPlugin(n.calls, n.byPlugin[p], p)
    {
      if p in s.byPlugin { assert LastOfPlugin(s.calls, s.byPlugin[p], p); }
    }
  }

  /** Apart from opening calls, steps leave the plugins of calls alone and at most forget a plugin name. */
  lemma PluginsKept<K(!new), B(!new), T(!new)>(s: State<K, B, T>, e: Event<K, B, T>)
    requires !e.Open?
    ensures var n := Step(s, e);
            && |n.calls| == |s.calls|
            && (forall c :: 0 <= c < |s.calls| ==> n.calls[c].plugin == s.calls[c].plugin)
            && forall p :: p in n.byPlugin ==> p in s.byPlugin && n.byPlugin[p] == s.byPlugin[p]
  {
    if e.LookUp? || e.Act? || e.Notify? {
      ThreadsChangeData(s, e);
      hide Step;
    }
  }

  lemma {:induction false} RunLeadsToLast<K(!new), B(!new), T(!new)>(s: State<K, B, T>, events: seq<Event<K, B, T>>)
    requires LeadsToLast(s.calls, s.byPlugin)
    ensures LeadsToLast(Run(s, events).calls, Run(s, events).byPlugin)
    decreases |events|
  {
    if events != [] {
      StepLeadsToLast(s, events[0]);
      RunLeadsToLast(Step(s, events[0]), events[1..]);
    }
  }

  /**
   * Output that a plugin writes for live call c reaches it exactly when c is the plugin's latest call, or the plugin
   * name leads nowhere because one of its calls has been unregistered since.
   */
  lemma OutputReachesCallIff<K(!new), B(!new), T(!new)>(events: seq<Event<K, B, T>>, c: nat)
    requires Fresh(Start<K, B, T>(), events)
    requires var s := Run(Start<K, B, T>(), events); c < |s.calls| && s.calls[c].phase != Gone
    ensures var s := Run(Start<K, B, T>(), events);
            var call := s.calls[c];
            Target(s.byPlugin, s.byClient, call.plugin, call.client) == Some(c)
            <==> call.plugin !in s.byPlugin || LastOfPlugin(s.calls, c, call.plugin)
  {
    StartInv<K, B, T>();
    RunKeepsInv(Start<K, B, T>(), events);
    RunLeadsToLast(Start<K, B, T>(), events);
    var s := Run(Start<K, B, T>(), events);
    hide Run;
    var p := s.calls[c].plugin;
    assert Find(s.byClient, s.calls[c].client) == Some(c);
    if p in s.byPlugin { assert LastOfPlugin(s.calls, s.byPlugin[p], p); }
  }

  /** Two clients call one plugin: what it writes for the first goes to the second. */
  lemma OutputGoesToLaterCall()
    ensures var s: State<int, int, int> := Step(Step(Start(), Open(7, 1)), Open(8, 1));
            s.calls[0].client == 7 && s.calls[1].client == 8 && Target(s.byPlugin, s.byClient, 1, 7) == Some(1)
  {
  }

  // ---- The critical sections of a call --------------------------------------------------------------------

  /** What a reader that holds the lock finds out: bytes, the end, or that it has to wait. */
  datatype Found<B> = Bytes(data: seq<B>, eof: bool) | End | Wait

  class ActiveCall<K, B> {
    const client: K
    const plugin: K
    var stdinBuf: seq<B>
    var stdinEof: bool
    ghost var stored: seq<B>
    ghost var returned: seq<B>
    ghost var phase: Phase

    constructor (client: K, plugin: K)
      ensures Value() == Call(client, plugin, [], false, Serving, [], [])
    {
      this.client, this.plugin, stdinBuf, stdinEof, stored, returned, phase := client, plugin, [], false, [], [], Serving;
    }

    ghost function Value(): Call<K, B>
      reads this
    {
      Call(client, plugin, stdinBuf, stdinEof, phase, stored, returned)
    }

    method Write(data: seq<B>)
      modifies this`stdinBuf, this`stored
      ensures Value() == Stored(old(Value()), data)
      ensures stdinBuf == old(stdinBuf) + data
    {
      stdinBuf, stored := stdinBuf + data, stored + data;
    }

    method CloseInput()
      modifies this`stdinEof
      ensures Value() == old(Value()).(eof := true)
    {
      stdinEof := true;
    }

    /** One turn of the read loop: bytes first, then the end, and only then waiting. */
    method TryRead(max: int) returns (r: Found<B>)
      modifies this`stdinBuf, this`returned
      ensures r.Wait? <==> old(stdinBuf) == [] && !stdinEof
      ensures r.End? <==> old(stdinBuf) == [] && stdinEof
      ensures r.Bytes? ==> Value() == Taken(old(Value()), max) && r.data + stdinBuf == old(stdinBuf) && r.eof == stdinEof
      ensures r.Bytes? ==> |r.data| == if 0 < max < |old(stdinBuf)| then max else |old(stdinBuf)|
      ensures !r.Bytes? ==> Value() == old(Value())
    {
      if stdinBuf == [] {
        return if stdinEof then End else Wait;
      }
      var n := max;
      if n <= 0 || n > |stdinBuf| {
        n := |stdinBuf|;
      }
      r := Bytes(stdinBuf[..n], stdinEof);
      returned := returned + stdinBuf[..n];
      stdinBuf := stdinBuf[n..];
    }
  }
}
