/**
 * Requests to the MCP client and their responses: senders, responders and cancellations as interleaved steps, and
 * the lock held only within a step. T names sender threads, R responder threads, D is response data.
 */
module McpBridge {
  import opened Seqs
  import Shell

  // ---- Ids --------------------------------------------------------------------------------

  function IdText(n: nat): string {
    "srv_" + Shell.Itoa(n)
  }

  /** Different sequence numbers give different ids. */
  lemma IdsDiffer(m: nat, n: nat)
    ensures IdText(m) == IdText(n) <==> m == n
  {
    hide Shell.Itoa;
    Shell.DigitsOfItoa(m);
    Shell.DigitsOfItoa(n);
    assert IdText(m)[4..] == Shell.Itoa(m) && IdText(n)[4..] == Shell.Itoa(n);
  }

  // ---- State --------------------------------------------------------------------------------

  datatype Response<D> = Response(id: string, data: D)

  /** A sender numbers its request, registers it, waits, and ends with a response or, cancelled, without one. */
  datatype Sender<D> =
    | Allocated(n: nat)
    | Waiting(n: nat)
    | Cancelling(n: nat)
    | Answered(n: nat, response: Response<D>)
    | Cancelled(n: nat)

  /** A responder that has taken request n out of the pending map and is about to send on its channel. */
  datatype Responder<D> = Delivering(n: nat, response: Response<D>) | Rejected | Delivered

  /** Channel n belongs to request n. It has room for one response: the one in `channels`, if any. */
  datatype State<!T, !R, D> = State(
    next: nat,
    pending: map<string, nat>,
    channels: map<nat, Response<D>>,
    senders: map<T, Sender<D>>,
    responders: map<R, Responder<D>>)

  datatype Event<T, R, D> =
    | Begin(t: T)
    | Register(t: T)
    | Receive(t: T)
    | Cancel(t: T)
    | Forget(t: T)
    | LookUp(r: R, response: Response<D>)
    | Deliver(r: R)

  function Start<T, R, D>(): State<T, R, D> {
    State(1, map[], map[], map[], map[])
  }

  predicate Busy<D>(sender: Sender<D>) {
    !sender.Answered? && !sender.Cancelled?
  }

  function SenderStep<T(==), R(==), D>(s: State<T, R, D>, t: T, e: Event<T, R, D>): State<T, R, D>
    requires t in s.senders
  {
    match (s.senders[t], e)
    case (Allocated(n), Register(_)) =>
      s.(pending := s.pending[IdText(n) := n], senders := s.senders[t := Waiting(n)])
    case (Waiting(n), Receive(_)) =>
      if n in s.channels
      then s.(channels := s.channels - {n}, senders := s.senders[t := Answered(n, s.channels[n])])
      else s
    case (Waiting(n), Cancel(_)) => s.(senders := s.senders[t := Cancelling(n)])
    case (Cancelling(n), Forget(_)) =>
      s.(pending := s.pending - {IdText(n)}, senders := s.senders[t := Cancelled(n)])
    case _ => s
  }

  function Step<T(==), R(==), D>(s: State<T, R, D>, e: Event<T, R, D>): State<T, R, D> {
    match e
    case Begin(t) =>
      if t in s.senders && Busy(s.senders[t]) then s
      else s.(next := s.next + 1, senders := s.senders[t := Allocated(s.next)])
    case Register(t) => if t in s.senders then SenderStep(s, t, e) else s
    case Receive(t) => if t in s.senders then SenderStep(s, t, e) else s
    case Cancel(t) => if t in s.senders then SenderStep(s, t, e) else s
    case Forget(t) => if t in s.senders then SenderStep(s, t, e) else s
    case LookUp(r, response) =>
      if r in s.responders && s.responders[r].Delivering? then s
      else if response.id in s.pending
      then s.(pending := s.pending - {response.id},
              responders := s.responders[r := Delivering(s.pending[response.id], response)])
      else s.(responders := s.responders[r := Rejected])
    case Deliver(r) =>
      if r in s.responders && s.responders[r].Delivering? && s.responders[r].n !in s.channels
      then s.(channels := s.channels[s.responders[r].n := s.responders[r].response],
              responders := s.responders[r := Delivered])
      else s
  }

  function Run<T(==), R(==), D>(s: State<T, R, D>, events: seq<Event<T, R, D>>): State<T, R, D>
    decreases |events|
  {
    if events == [] then s else Run(Step(s, events[0]), events[1..])
  }

  // ---- The invariant ----------------------------------------------------------------------------

  /** A pending id is the one of its channel. */
  ghost predicate PendingOk(pending: map<string, nat>, next: nat) {
    forall id :: id in pending ==> pending[id] < next && id == IdText(pending[id])
  }

  /** No two senders share a number, and none is used before it is allocated. */
  ghost predicate SendersOk<T(!new), D(!new)>(senders: map<T, Sender<D>>, next: nat) {
    && (forall t :: t in senders ==> senders[t].n < next)
    && (forall t, u :: t in senders && u in senders && t != u ==> senders[t].n != senders[u].n)
  }

  /** A response is on its way to at most one place: its request is not pending any more and its channel is free. */
  ghost predicate ResponderOk<T(!new), R(!new), D(!new)>(s: State<T, R, D>, r: R)
    requires r in s.responders
  {
    s.responders[r].Delivering? ==>
      var n := s.responders[r].n;
      && n < s.next && n !in s.channels && IdText(n) !in s.pending && s.responders[r].response.id == IdText(n)
      && forall q :: q in s.responders && q != r && s.responders[q].Delivering? ==> s.responders[q].n != n
  }

  ghost predicate ChannelsOk<T(!new), R(!new), D(!new)>(s: State<T, R, D>) {
    forall n :: n in s.channels ==> n < s.next && IdText(n) !in s.pending && s.channels[n].id == IdText(n)
  }

  ghost predicate OnItsWay<T(!new), R(!new), D(!new)>(s: State<T, R, D>, n: nat) {
    exists r :: r in s.responders && s.responders[r].Delivering? && s.responders[r].n == n
  }

  /** What each sender can rely on. */
  ghost predicate SenderOk<T(!new), R(!new), D(!new)>(s: State<T, R, D>, t: T)
    requires t in s.senders
  {
    match s.senders[t]
    case Allocated(n) => IdText(n) !in s.pending && n !in s.channels && !OnItsWay(s, n)
    case Waiting(n) => Find(s.pending, IdText(n)) == Some(n) || n in s.channels || OnItsWay(s, n)
    case Cancelling(_) => true
    case Answered(n, response) => response.id == IdText(n) && IdText(n) !in s.pending && n !in s.channels && !OnItsWay(s, n)
    case Cancelled(n) => IdText(n) !in s.pending
  }

  function Find(m: map<string, nat>, k: string): Option<nat> {
    if k in m then Some(m[k]) else None
  }

  ghost predicate Inv<T(!new), R(!new), D(!new)>(s: State<T, R, D>) {
    && PendingOk(s.pending, s.next) && SendersOk(s.senders, s.next) && ChannelsOk(s)
    && (forall r :: r in s.responders ==> ResponderOk(s, r))
    && (forall t :: t in s.senders ==> SenderOk(s, t))
  }

  lemma BeginKeepsInv<T(!new), R(!new), D(!new)>(s: State<T, R, D>, t: T)
    requires Inv(s)
    ensures Inv(Step(s, Begin(t)))
  {
    var n := Step(s, Begin(t));
    hide IdText;
    if n != s {
      if IdText(s.next) in s.pending { IdsDiffer(s.pending[IdText(s.next)], s.next); }
      forall r | r in n.responders ensures ResponderOk(n, r) { assert ResponderOk(s, r); }
      forall u | u in n.senders ensures SenderOk(n, u) {
        if u == t {
          forall r | r in s.responders && s.responders[r].Delivering? ensures s.responders[r].n != s.next {
            assert ResponderOk(s, r);
          }
        } else {
          SenderUndisturbed(s, n, u);
        }
      }
    }
  }

  /** A step leaves a sender alone if it leaves its id, its channel and the deliveries to it alone. */
  lemma SenderUndisturbed<T(!new), R(!new), D(!new)>(s: State<T, R, D>, n: State<T, R, D>, t: T)
    requires t in s.senders && t in n.senders && n.senders[t] == s.senders[t] && SenderOk(s, t)
    requires var k := s.senders[t].n;
             && Find(n.pending, IdText(k)) == Find(s.pending, IdText(k))
             && (k in n.channels <==> k in s.channels)
             && (OnItsWay(n, k) <==> OnItsWay(s, k))
    ensures SenderOk(n, t)
  {
  }

  lemma SameDeliveries<T(!new), R(!new), D(!new)>(s: State<T, R, D>, n: State<T, R, D>, k: nat)
    requires n.responders == s.responders
    ensures OnItsWay(n, k) <==> OnItsWay(s, k)
  {
  }

  /** The other senders after a step that touches only request k. */
  lemma OthersUndisturbed<T(!new), R(!new), D(!new)>(s: State<T, R, D>, n: State<T, R, D>, t: T, k: nat)
    requires Inv(s) && t in s.senders && s.senders[t].n == k && n.responders == s.responders
    requires n.senders.Keys == s.senders.Keys && forall u :: u in s.senders && u != t ==> n.senders[u] == s.senders[u]
    requires forall id :: id != IdText(k) ==> Find(n.pending, id) == Find(s.pending, id)
    requires forall m: nat :: m != k ==> (m in n.channels <==> m in s.channels)
    ensures forall u :: u in n.senders && u != t ==> SenderOk(n, u)
  {
    hide IdText, Find;
    forall u | u in n.senders && u != t ensures SenderOk(n, u) {
      IdsDiffer(s.senders[u].n, k);
      SameDeliveries(s, n, s.senders[u].n);
      SenderUndisturbed(s, n, u);
    }
  }

  lemma RegisterKeepsInv<T(!new), R(!new), D(!new)>(s: State<T, R, D>, t: T, k: nat)
    requires Inv(s) && t in s.senders && s.senders[t] == Allocated(k)
    ensures Inv(s.(pending := s.pending[IdText(k) := k], senders := s.senders[t := Waiting(k)]))
  {
    var n := s.(pending := s.pending[IdText(k) := k], senders := s.senders[t := Waiting(k)]);
    assert SenderOk(s, t);
    OthersUndisturbed(s, n, t, k);
    RegisterKeepsOthers(s, n, k);
    hide IdText, ChannelsOk, ResponderOk;
    assert Find(n.pending, IdText(k)) == Some(k);
  }

  /** Registering request k disturbs no channel and no delivery: none of them is for k. */
  lemma RegisterKeepsOthers<T(!new), R(!new), D(!new)>(s: State<T, R, D>, n: State<T, R, D>, k: nat)
    requires ChannelsOk(s) && (forall r :: r in s.responders ==> ResponderOk(s, r))
    requires k !in s.channels && !OnItsWay(s, k)
    requires n.channels == s.channels && n.responders == s.responders && n.next == s.next && n.pending == s.pending[IdText(k) := k]
    ensures ChannelsOk(n) && forall r :: r in n.responders ==> ResponderOk(n, r)
  {
    hide IdText;
    forall m | m in n.channels ensures IdText(m) !in n.pending { IdsDiffer(m, k); }
    forall r | r in n.responders ensures ResponderOk(n, r) {
      assert ResponderOk(s, r);
      if s.responders[r].Delivering? {
        assert s.responders[r].n == k ==> OnItsWay(s, k);
        IdsDiffer(s.responders[r].n, k);
      }
    }
  }

  lemma ReceiveKeepsInv<T(!new), R(!new), D(!new)>(s: State<T, R, D>, t: T, k: nat)
    requires Inv(s) && t in s.senders && s.senders[t] == Waiting(k) && k in s.channels
    ensures Inv(s.(channels := s.channels - {k}, senders := s.senders[t := Answered(k, s.channels[k])]))
  {
    var n := s.(channels := s.channels - {k}, senders := s.senders[t := Answered(k, s.channels[k])]);
    hide IdText;
    NotOnItsWay(s, k);
    SameDeliveries(s, n, k);
    OthersUndisturbed(s, n, t, k);
    forall r | r in n.responders ensures ResponderOk(n, r) { assert ResponderOk(s, r); }
  }

  lemma CancelKeepsInv<T(!new), R(!new), D(!new)>(s: State<T, R, D>, t: T, k: nat)
    requires Inv(s) && t in s.senders && s.senders[t] == Waiting(k)
    ensures Inv(s.(senders := s.senders[t := Cancelling(k)]))
  {
    var n := s.(senders := s.senders[t := Cancelling(k)]);
    hide IdText;
    OthersUndisturbed(s, n, t, k);
    forall r | r in n.responders ensures ResponderOk(n, r) { assert ResponderOk(s, r); }
  }

  lemma ForgetKeepsInv<T(!new), R(!new), D(!new)>(s: State<T, R, D>, t: T, k: nat)
    requires Inv(s) && t in s.senders && s.senders[t] == Cancelling(k)
    ensures Inv(s.(pending := s.pending - {IdText(k)}, senders := s.senders[t := Cancelled(k)]))
  {
    var n := s.(pending := s.pending - {IdText(k)}, senders := s.senders[t := Cancelled(k)]);
    hide IdText;
    OthersUndisturbed(s, n, t, k);
    forall r | r in n.responders ensures ResponderOk(n, r) { assert ResponderOk(s, r); }
  }

  lemma SenderStepKeepsInv<T(!new), R(!new), D(!new)>(s: State<T, R, D>, t: T, e: Event<T, R, D>)
    requires Inv(s) && t in s.senders
    ensures Inv(SenderStep(s, t, e))
  {
    hide Inv, IdText;
    match (s.senders[t], e) {
      case (Allocated(n), Register(_)) => RegisterKeepsInv(s, t, n);
      case (Waiting(n), Receive(_)) => if n in s.channels { ReceiveKeepsInv(s, t, n); }
      case (Waiting(n), Cancel(_)) => CancelKeepsInv(s, t, n);
      case (Cancelling(n), Forget(_)) => ForgetKeepsInv(s, t, n);
      case _ =>
    }
  }

  /** A channel that holds its response gets no other. */
  lemma NotOnItsWay<T(!new), R(!new), D(!new)>(s: State<T, R, D>, n: nat)
    requires Inv(s) && n in s.channels
    ensures !OnItsWay(s, n)
  {
    forall r | r in s.responders && s.responders[r].Delivering? ensures s.responders[r].n != n {
      assert ResponderOk(s, r);
    }
  }

  lemma RejectKeepsInv<T(!new), R(!new), D(!new)>(s: State<T, R, D>, r: R)
    requires Inv(s) && (r in s.responders ==> !s.responders[r].Delivering?)
    ensures Inv(s.(responders := s.responders[r := Rejected]))
  {
    var n := s.(responders := s.responders[r := Rejected]);
    hide IdText;
    forall q | q in n.responders ensures ResponderOk(n, q) {
      if q != r { assert ResponderOk(s, q); }
    }
    forall u | u in n.senders ensures SenderOk(n, u) {
      OtherDeliveries(s, n, r, s.senders[u].n);
      SenderUndisturbed(s, n, u);
    }
  }

  /** Taking request k out of the pending map makes the responder the only one to deliver to it. */
  lemma TakeKeepsInv<T(!new), R(!new), D(!new)>(s: State<T, R, D>, r: R, k: nat, response: Response<D>)
    requires Inv(s) && (r in s.responders ==> !s.responders[r].Delivering?)
    requires Find(s.pending, response.id) == Some(k)
    ensures Inv(s.(pending := s.pending - {response.id}, responders := s.responders[r := Delivering(k, response)]))
  {
    var n := s.(pending := s.pending - {response.id}, responders := s.responders[r := Delivering(k, response)]);
    hide IdText;
    assert response.id == IdText(k);
    forall q | q in s.responders && s.responders[q].Delivering? ensures s.responders[q].n != k {
      assert ResponderOk(s, q);
    }
    forall q | q in n.responders ensures ResponderOk(n, q) {
      if q != r { assert ResponderOk(s, q); }
    }
    assert n.responders[r].n == k && OnItsWay(n, k);
    forall u | u in n.senders ensures SenderOk(n, u) {
      TakeKeepsSender(s, n, r, k, u);
    }
  }

  lemma TakeKeepsSender<T(!new), R(!new), D(!new)>(s: State<T, R, D>, n: State<T, R, D>, r: R, k: nat, u: T)
    requires u in s.senders && SenderOk(s, u) && Find(s.pending, IdText(k)) == Some(k) && OnItsWay(n, k)
    requires r in s.responders ==> !s.responders[r].Delivering?
    requires r in n.responders && n.responders[r].Delivering? && n.responders[r].n == k
    requires n == s.(pending := s.pending - {IdText(k)}, responders := s.responders[r := n.responders[r]])
    ensures SenderOk(n, u)
  {
    hide IdText;
    if s.senders[u].n != k {
      IdsDiffer(s.senders[u].n, k);
      OtherDeliveries(s, n, r, s.senders[u].n);
      SenderUndisturbed(s, n, u);
    }
  }

  lemma LookUpKeepsInv<T(!new), R(!new), D(!new)>(s: State<T, R, D>, r: R, response: Response<D>)
    requires Inv(s)
    ensures Inv(Step(s, LookUp(r, response)))
  {
    hide Inv;
    if !(r in s.responders && s.responders[r].Delivering?) {
      if response.id in s.pending {
        TakeKeepsInv(s, r, s.pending[response.id], response);
      } else {
        RejectKeepsInv(s, r);
      }
    }
  }

  lemma OtherDeliveries<T(!new), R(!new), D(!new)>(s: State<T, R, D>, n: State<T, R, D>, r: R, k: nat)
    requires forall q :: q in s.responders && q != r ==> q in n.responders && n.responders[q] == s.responders[q]
    requires forall q :: q in n.responders && q != r ==> q in s.responders
    requires r in s.responders && s.responders[r].Delivering? ==> s.responders[r].n != k
    requires r in n.responders && n.responders[r].Delivering? ==> n.responders[r].n != k
    ensures OnItsWay(n, k) <==> OnItsWay(s, k)
  {
    if OnItsWay(s, k) {
      var q :| q in s.responders && s.responders[q].Delivering? && s.responders[q].n == k;
      assert q in n.responders && n.responders[q] == s.responders[q];
    }
  }

  lemma DeliverKeepsInv<T(!new), R(!new), D(!new)>(s: State<T, R, D>, r: R)
    requires Inv(s)
    ensures Inv(Step(s, Deliver(r)))
  {
    var n := Step(s, Deliver(r));
    hide IdText;
    if n != s {
      var k := s.responders[r].n;
      assert ResponderOk(s, r);
      assert OnItsWay(s, k);
      forall q | q in n.responders ensures ResponderOk(n, q) {
        if q != r { assert ResponderOk(s, q); }
      }
      forall u | u in n.senders ensures SenderOk(n, u) {
        assert SenderOk(s, u);
        if s.senders[u].n != k {
          OtherDeliveries(s, n, r, s.senders[u].n);
          SenderUndisturbed(s, n, u);
        }
      }
    }
  }

  lemma StepKeepsInv<T(!new), R(!new), D(!new)>(s: State<T, R, D>, e: Event<T, R, D>)
    requires Inv(s)
    ensures Inv(Step(s, e))
  {
    hide Inv, SenderStep;
    match e {
      case Begin(t) => BeginKeepsInv(s, t);
      case Register(t) => if t in s.senders { SenderStepKeepsInv(s, t, e); }
      case Receive(t) => if t in s.senders { SenderStepKeepsInv(s, t, e); }
      case Cancel(t) => if t in s.senders { SenderStepKeepsInv(s, t, e); }
      case Forget(t) => if t in s.senders { SenderStepKeepsInv(s, t, e); }
      case LookUp(r, response) => LookUpKeepsInv(s, r, response);
      case Deliver(r) => DeliverKeepsInv(s, r);
    }
  }

  lemma {:induction false} RunKeepsInv<T(!new), R(!new), D(!new)>(s: State<T, R, D>, events: seq<Event<T, R, D>>)
    requires Inv(s)
    ensures Inv(Run(s, events))
    decreases |events|
  {
    if events != [] {
      StepKeepsInv(s, events[0]);
      RunKeepsInv(Step(s, events[0]), events[1..]);
    }
  }

  // ---- Consequences -----------------------------------------------------------------------------------

  /**
   * In every interleaving: an id stands for one channel; a sender that returns, returns a response with its own id; a
   * sender that was cancelled has left no pending entry; and a responder about to send finds its channel empty, so
   * it never blocks.
   */
  lemma AnyInterleaving<T(!new), R(!new), D(!new)>(events: seq<Event<T, R, D>>, t: T, r: R)
    ensures var s := Run(Start<T, R, D>(), events);
            && (forall id :: id in s.pending ==> id == IdText(s.pending[id]))
            && (t in s.senders && s.senders[t].Answered? ==> s.senders[t].response.id == IdText(s.senders[t].n))
            && (t in s.senders && s.senders[t].Cancelled? ==> IdText(s.senders[t].n) !in s.pending)
            && (r in s.responders && s.responders[r].Delivering? ==> Step(s, Deliver(r)).responders[r] == Delivered)
  {
    RunKeepsInv(Start<T, R, D>(), events);
    var s := Run(Start<T, R, D>(), events);
    hide IdText, Run;
    if t in s.senders { assert SenderOk(s, t); }
    if r in s.responders { assert ResponderOk(s, r); }
  }

  // ---- A response finds its sender -----------------------------------------------------------------

  /** States that runs reach. */
  ghost predicate Reachable<T(!new), R(!new), D(!new)>(s: State<T, R, D>) {
    exists events :: s == Run(Start<T, R, D>(), events)
  }

  /**
   * Handling a response: if its id is pending, the entry is taken out and the response goes to the channel of that entry;
   * it is rejected, with nothing else changed, exactly when its id is not pending.
   */
  lemma ResponseIsTakenIff<T(!new), R(!new), D(!new)>(s: State<T, R, D>, r: R, response: Response<D>)
    requires r in s.responders ==> !s.responders[r].Delivering?
    ensures var n := Step(s, LookUp(r, response));
            && r in n.responders
            && (response.id in s.pending ==> n.responders[r] == Delivering(s.pending[response.id], response))
            && (n.responders[r] == Rejected <==> response.id !in s.pending)
            && n.pending == s.pending - {response.id}
            && n.channels == s.channels && n.senders == s.senders && n.next == s.next
            && (forall q :: q != r ==> (q in n.responders <==> q in s.responders))
            && (forall q :: q != r && q in s.responders ==> n.responders[q] == s.responders[q])
  {
    if response.id !in s.pending { assert s.pending - {response.id} == s.pending; }
  }

  /** A thread that has no request under way: it never sent one, or its last one ended. */
  ghost predicate IsFree<T(!new), D(!new)>(senders: map<T, Sender<D>>, t: T) {
    t in senders ==> senders[t].Answered? || senders[t].Cancelled?
  }

  /** A sender under way changes only by what it does itself: it registers, receives what its channel holds, or gives up. */
  lemma SenderKeepsWaiting<T(!new), R(!new), D(!new)>(s: State<T, R, D>, e: Event<T, R, D>, t: T)
    requires t in s.senders && !IsFree(s.senders, t)
    ensures var n, was := Step(s, e), s.senders[t];
            && t in n.senders
            && (n.senders[t] == was
                || (e == Register(t) && was.Allocated? && n.senders[t] == Waiting(was.n))
                || (e == Receive(t) && was.Waiting? && was.n in s.channels && n.senders[t] == Answered(was.n, s.channels[was.n]))
                || (e == Cancel(t) && was.Waiting? && n.senders[t] == Cancelling(was.n))
                || (e == Forget(t) && was.Cancelling? && n.senders[t] == Cancelled(was.n)))
  {
    hide IdText;
  }

  /** A sender gets a number of its own and registers its channel under the id of that number. */
  lemma RequestIsRegistered<T(!new), R(!new), D(!new)>(s: State<T, R, D>, t: T)
    requires IsFree(s.senders, t)
    ensures var a := Step(s, Begin(t)); var n := Step(a, Register(t));
            && a.pending == s.pending && a.next == s.next + 1 && t in a.senders && a.senders == s.senders[t := a.senders[t]]
            && n.senders == s.senders[t := Waiting(s.next)] && n.pending == s.pending[IdText(s.next) := s.next]
            && n.next == s.next + 1 && n.channels == s.channels && n.responders == s.responders
  {
    assert s.senders[t := Allocated(s.next)][t := Waiting(s.next)] == s.senders[t := Waiting(s.next)];
  }

  /** A waiting sender that is cancelled leaves without a response, and nobody finds its entry any more. */
  lemma CancelledIsForgotten<T(!new), R(!new), D(!new)>(s: State<T, R, D>, t: T, r: R, response: Response<D>)
    requires t in s.senders && s.senders[t].Waiting? && response.id == IdText(s.senders[t].n)
    requires r in s.responders ==> !s.responders[r].Delivering?
    ensures var k := s.senders[t].n;
            var n := Step(Step(s, Cancel(t)), Forget(t));
            && n.senders == s.senders[t := Cancelled(k)] && n.pending == s.pending - {IdText(k)}
            && n.channels == s.channels && n.responders == s.responders && n.next == s.next
            && Step(n, LookUp(r, response)).responders[r] == Rejected
  {
    assert s.senders[t := Cancelling(s.senders[t].n)][t := Cancelled(s.senders[t].n)] == s.senders[t := Cancelled(s.senders[t].n)];
    hide IdText;
  }

  /** A response for a pending request ends the wait of its sender, with exactly that response. */
  lemma ResponseIsReceived<T(!new), R(!new), D(!new)>(s: State<T, R, D>, t: T, r: R, response: Response<D>)
    requires Reachable(s) && t in s.senders && s.senders[t].Waiting?
    requires Find(s.pending, IdText(s.senders[t].n)) == Some(s.senders[t].n) && response.id == IdText(s.senders[t].n)
    requires r in s.responders ==> !s.responders[r].Delivering?
    ensures var n := Step(Step(Step(s, LookUp(r, response)), Deliver(r)), Receive(t));
            && n.senders[t] == Answered(s.senders[t].n, response) && n.responders[r] == Delivered
            && response.id !in n.pending && s.senders[t].n !in n.channels
  {
    var events :| s == Run(Start<T, R, D>(), events);
    RunKeepsInv(Start<T, R, D>(), events);
    var k := s.senders[t].n;
    assert k !in s.channels;
    ResponseIsTakenIff(s, r, response);
    hide IdText, Inv, Run;
    var a := Step(s, LookUp(r, response));
    var b := Step(a, Deliver(r));
    assert b.channels == s.channels[k := response] && b.senders == s.senders && b.pending == a.pending;
  }

  /** A waiting sender that is no longer pending needs no more than the delivery on its way and a look into its channel. */
  lemma AnswerArrives<T(!new), R(!new), D(!new)>(s: State<T, R, D>, t: T)
    requires Reachable(s) && t in s.senders && s.senders[t].Waiting? && IdText(s.senders[t].n) !in s.pending
    ensures var k := s.senders[t].n;
            if k in s.channels then Step(s, Receive(t)).senders[t] == Answered(k, s.channels[k])
            else exists r :: r in s.responders && s.responders[r].Delivering? && s.responders[r].n == k
                   && Step(Step(s, Deliver(r)), Receive(t)).senders[t] == Answered(k, s.responders[r].response)
  {
    var events :| s == Run(Start<T, R, D>(), events);
    RunKeepsInv(Start<T, R, D>(), events);
    assert SenderOk(s, t);
    hide IdText, Inv, Run;
    var k := s.senders[t].n;
    if k !in s.channels {
      var r :| r in s.responders && s.responders[r].Delivering? && s.responders[r].n == k;
      var a := Step(s, Deliver(r));
      assert a.channels == s.channels[k := s.responders[r].response] && a.senders == s.senders;
    }
  }

  /** The whole exchange: a request, the response to it, and the sender has that response. */
  lemma RequestIsAnswered<T(!new), R(!new), D(!new)>(s: State<T, R, D>, t: T, r: R, data: D)
    requires Reachable(s) && IsFree(s.senders, t) && (r in s.responders ==> !s.responders[r].Delivering?)
    ensures var response := Response(IdText(s.next), data);
            var n := Step(Step(Step(Step(Step(s, Begin(t)), Register(t)), LookUp(r, response)), Deliver(r)), Receive(t));
            t in n.senders && n.senders[t] == Answered(s.next, response)
  {
    var a := Step(s, Begin(t));
    var b := Step(a, Register(t));
    RequestIsRegistered(s, t);
    StepReachable(s, Begin(t));
    StepReachable(a, Register(t));
    hide Step, IdText, Reachable;
    ResponseIsReceived(b, t, r, Response(IdText(s.next), data));
  }

  lemma StepReachable<T(!new), R(!new), D(!new)>(s: State<T, R, D>, e: Event<T, R, D>)
    requires Reachable(s)
    ensures Reachable(Step(s, e))
  {
    var events :| s == Run(Start<T, R, D>(), events);
    RunSnoc(Start<T, R, D>(), events, e);
    assert Step(s, e) == Run(Start<T, R, D>(), events + [e]);
  }

  lemma {:induction false} RunSnoc<T(!new), R(!new), D(!new)>(s: State<T, R, D>, events: seq<Event<T, R, D>>, e: Event<T, R, D>)
    ensures Run(s, events + [e]) == Step(Run(s, events), e)
    decreases |events|
  {
    hide Step;
    if events == [] {
      assert [] + [e] == [e] && [e][1..] == [];
    } else {
      assert (events + [e])[1..] == events[1..] + [e];
      RunSnoc(Step(s, events[0]), events[1..], e);
    }
  }

  // ---- At most one response a channel ------------------------------------------------------------------

  /** How many responses are put into channel n from state s on. */
  function Deliveries<T(==), R(==), D>(s: State<T, R, D>, events: seq<Event<T, R, D>>, n: nat): nat
    decreases |events|
  {
    if events == [] then 0
    else
      var t := Step(s, events[0]);
      (if n !in s.channels && n in t.channels then 1 else 0) + Deliveries(t, events[1..], n)
  }

  /** The responses channel n can still get: none once its request is neither pending nor unregistered. */
  ghost predicate Spent<T(!new), R(!new), D(!new)>(s: State<T, R, D>, n: nat) {
    && n < s.next && IdText(n) !in s.pending && !OnItsWay(s, n)
    && forall t :: t in s.senders ==> s.senders[t] != Allocated(n)
  }

  lemma SpentStays<T(!new), R(!new), D(!new)>(s: State<T, R, D>, e: Event<T, R, D>, n: nat)
    requires Inv(s) && Spent(s, n)
    ensures Spent(Step(s, e), n) && (n in Step(s, e).channels ==> n in s.channels)
  {
    var t := Step(s, e);
    hide IdText, SendersOk;
    forall m: nat ensures IdText(m) == IdText(n) <==> m == n { IdsDiffer(m, n); }
    if OnItsWay(t, n) {
      var r :| r in t.responders && t.responders[r].Delivering? && t.responders[r].n == n;
      assert !(r in s.responders && s.responders[r] == t.responders[r]);
    }
  }

  /** A channel gets at most one response, and none once it is spent. */
  lemma {:induction false} OneDelivery<T(!new), R(!new), D(!new)>(s: State<T, R, D>, events: seq<Event<T, R, D>>, n: nat)
    requires Inv(s)
    ensures Deliveries(s, events, n) <= 1
    ensures Spent(s, n) ==> Deliveries(s, events, n) == 0
    decreases |events|
  {
    if events != [] {
      var e := events[0];
      var t := Step(s, e);
      StepKeepsInv(s, e);
      OneDelivery(t, events[1..], n);
      if Spent(s, n) { SpentStays(s, e, n); }
      if n !in s.channels && n in t.channels { DeliveredIsSpent(s, e, n); }
    }
  }

  lemma DeliveredIsSpent<T(!new), R(!new), D(!new)>(s: State<T, R, D>, e: Event<T, R, D>, n: nat)
    requires Inv(s) && n !in s.channels && n in Step(s, e).channels
    ensures Spent(Step(s, e), n)
  {
    var t := Step(s, e);
    hide IdText;
    assert e.Deliver?;
    StepKeepsInv(s, e);
    NotOnItsWay(t, n);
    forall u | u in t.senders ensures t.senders[u] != Allocated(n) { assert SenderOk(t, u); }
  }

  /** No response is lost: a waiting sender is still pending, or its response is in its channel or on its way there. */
  lemma WaitingIsAnswerable<T(!new), R(!new), D(!new)>(events: seq<Event<T, R, D>>, t: T)
    requires var s := Run(Start<T, R, D>(), events); t in s.senders && s.senders[t].Waiting?
    ensures var s := Run(Start<T, R, D>(), events);
            var n := s.senders[t].n;
            Find(s.pending, IdText(n)) == Some(n) || n in s.channels || OnItsWay(s, n)
  {
    RunKeepsInv(Start<T, R, D>(), events);
    assert SenderOk(Run(Start<T, R, D>(), events), t);
  }

  /** Over a whole run each channel gets at most one response. */
  lemma OneResponseEach<T(!new), R(!new), D(!new)>(events: seq<Event<T, R, D>>, n: nat)
    ensures Deliveries(Start<T, R, D>(), events, n) <= 1
  {
    OneDelivery(Start<T, R, D>(), events, n);
  }

  /** The channel of an answered sender got exactly one response: the one it was answered with. */
  lemma {:induction false} AnsweredOnce<T(!new), R(!new), D(!new)>(s: State<T, R, D>, events: seq<Event<T, R, D>>, t: T, n: nat)
    requires !(t in s.senders && s.senders[t].Answered? && s.senders[t].n == n) && n !in s.channels
    requires var e := Run(s, events); t in e.senders && e.senders[t].Answered? && e.senders[t].n == n
    ensures Deliveries(s, events, n) >= 1
    decreases |events|
  {
    var e, rest := events[0], events[1..];
    var next := Step(s, e);
    if n !in next.channels {
      AnsweredNeedsChannel(s, e, t, n);
      AnsweredOnce(next, rest, t, n);
    }
  }

  lemma AnsweredNeedsChannel<T(!new), R(!new), D(!new)>(s: State<T, R, D>, e: Event<T, R, D>, t: T, n: nat)
    requires !(t in s.senders && s.senders[t].Answered? && s.senders[t].n == n) && n !in s.channels
    ensures var next := Step(s, e); !(t in next.senders && next.senders[t].Answered? && next.senders[t].n == n)
  {
    hide IdText;
  }

  /** Over every run: an answered sender's channel got one response, no fewer and no more. */
  lemma AnsweredByOne<T(!new), R(!new), D(!new)>(events: seq<Event<T, R, D>>, t: T)
    requires var s := Run(Start<T, R, D>(), events); t in s.senders && s.senders[t].Answered?
    ensures Deliveries(Start<T, R, D>(), events, Run(Start<T, R, D>(), events).senders[t].n) == 1
  {
    var n := Run(Start<T, R, D>(), events).senders[t].n;
    AnsweredOnce(Start<T, R, D>(), events, t, n);
    OneResponseEach<T, R, D>(events, n);
  }

  // ---- The critical sections of the bridge ------------------------------------------------------------------

  class Bridge {
    var idSeq: nat
    var pending: map<string, nat>

    constructor ()
      ensures idSeq == 0 && pending == map[]
    {
      idSeq, pending := 0, map[];
    }

    /** Pending ids are ids of numbers handed out, each with its own channel. */
    ghost predicate Valid()
      reads this
    {
      PendingOk(pending, idSeq + 1)
    }

    /** A new number makes an id that is not pending. */
    method NextId() returns (n: nat)
      requires Valid()
      modifies this`idSeq
      ensures Valid() && n == idSeq == old(idSeq) + 1 && IdText(n) !in pending
    {
      hide IdText;
      idSeq := idSeq + 1;
      n := idSeq;
      forall id | id in pending ensures id != IdText(n) { IdsDiffer(pending[id], n); }
    }

    method Register(n: nat)
      requires Valid() && n <= idSeq
      modifies this`pending
      ensures Valid() && pending == old(pending)[IdText(n) := n]
    {
      pending := pending[IdText(n) := n];
    }

    /** A response takes the entry of its id away with it, so no second one finds it. */
    method TakePending(id: string) returns (ch: Option<nat>)
      requires Valid()
      modifies this`pending
      ensures Valid() && ch == Find(old(pending), id) && pending == old(pending) - {id}
      ensures ch.Some? ==> id == IdText(ch.value)
    {
      if id !in pending {
        assert pending == pending - {id};
        return None;
      }
      ch, pending := Some(pending[id]), pending - {id};
    }

    method Forget(n: nat)
      requires Valid()
      modifies this`pending
      ensures Valid() && pending == old(pending) - {IdText(n)}
    {
      pending := pending - {IdText(n)};
    }
  }
}
