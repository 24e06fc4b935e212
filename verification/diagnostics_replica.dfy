/** The diagnostics client's replica of the engine, kept from the event stream alone. */
module DiagnosticsReplica {
  import opened Seqs
  import opened Diagnostics

  // ---- The replica as a value ---------------------------------------------------

  /** A nil status of the engine has no counterpart here: NoStatus is the empty string. */
  datatype MirrorStatus = NoStatus | Shown(status: Status)

  /** A replica entry. Unlike in the engine, the number 0 stands for a time that is not set. */
  datatype Mirror = Mirror(
    id: string, typ: string, displayLabel: string, parentId: string, status: MirrorStatus,
    startedAt: int, finishedAt: int, durationNs: int, attrs: map<string, string>)

  /** int64 subtraction wraps around. */
  function Wrap64(x: int): (r: int)
    ensures IsInt64(r) && (IsInt64(x) ==> r == x)
  {
    (x - MIN_INT64) % 0x1_0000_0000_0000_0000 + MIN_INT64
  }

  /** strings.Index(id, ":"): the position of the first colon, or -1. */
  function FirstColon(id: string): (i: int)
    ensures -1 <= i < |id|
    ensures i >= 0 ==> id[i] == ':' && forall j :: 0 <= j < i ==> id[j] != ':'
    ensures i < 0 ==> ':' !in id
  {
    if id == "" then -1
    else if id[0] == ':' then 0
    else var i := FirstColon(id[1..]); if i < 0 then -1 else i + 1
  }

  function NodeType(id: string): string {
    var i := FirstColon(id);
    if i > 0 then id[..i] else id
  }

  function NewMirror(e: Event): Mirror {
    Mirror(e.resource, NodeType(e.resource), e.resource, "", NoStatus, 0, 0, 0, map[])
  }

  function Decorate(m: Mirror, e: Event): Mirror {
    m.(attrs := m.attrs + e.attrs,
       parentId := if e.parent != "" then e.parent else m.parentId,
       displayLabel := if "label" in e.labels && e.labels["label"] != "" then e.labels["label"] else m.displayLabel)
  }

  function Follow(m: Mirror, e: Event): Mirror {
    var d := Decorate(m, e);
    if IsStartType(e.typ) then
      if d.startedAt == 0 then d.(startedAt := e.timestamp, status := Shown(Active)) else d
    else if IsEndType(e.typ) then
      if d.finishedAt == 0 then
        d.(finishedAt := e.timestamp, durationNs := Wrap64(e.timestamp - d.startedAt),
           status := Shown(if e.typ.PluginCrash? then Crashed else Finished))
      else d
    else d
  }

  type Mirrors = map<string, Mirror>

  function CurrentMirror(m: Mirrors, e: Event): Mirror {
    if e.resource in m then m[e.resource] else NewMirror(e)
  }

  function AfterStreamed(m: Mirrors, e: Event): Mirrors {
    m[e.resource := Follow(CurrentMirror(m, e), e)]
  }

  /** The replica sees the events of a trace; a change of parent is not streamed. */
  function Replica(trace: seq<Change>): Mirrors {
    if trace == [] then map[]
    else
      var m := Replica(trace[..|trace| - 1]);
      match trace[|trace| - 1]
      case Push(e) => AfterStreamed(m, e)
      case Reparent(_, _) => m
  }

  // ---- Agreement with the engine ---------------------------------------------------

  /** The timestamps the wire format carries faithfully and the replica can tell from "not set". */
  predicate Streamable(t: Time) {
    t != 0 && IsInt64(t)
  }

  ghost predicate AllStreamable(trace: seq<Change>) {
    forall i :: 0 <= i < |trace| && trace[i].Push? ==> Streamable(trace[i].e.timestamp)
  }

  /** Same status, start and finish, up to the two notations for "pending" and "not set". */
  ghost predicate Agree(r: Resource, m: Mirror) {
    && m.status == (if r.status == Pending then NoStatus else Shown(r.status))
    && (if r.startedAt == ZERO_TIME then m.startedAt == 0 else m.startedAt == r.startedAt != 0)
    && (match r.finishedAt case None => m.finishedAt == 0 case Some(f) => m.finishedAt == f != 0)
  }

  lemma {:induction false} StepAgrees(r: Resource, m: Mirror, e: Event, code: ParseCode)
    requires Streamable(e.timestamp) && Agree(r, m)
    ensures Agree(Advance(r, e, code), Follow(m, e))
  {
  }

  /** After every sequence of events, parent changes in between, replica and engine agree everywhere. */
  lemma {:induction false} ReplicaTracksEngine(trace: seq<Change>, code: ParseCode)
    requires AllStreamable(trace)
    ensures Replica(trace).Keys == Store(trace, code).Keys
    ensures forall id :: id in Replica(trace) ==> Agree(Store(trace, code)[id], Replica(trace)[id])
    decreases |trace|
  {
    if trace != [] {
      var init, last := trace[..|trace| - 1], trace[|trace| - 1];
      ReplicaTracksEngine(init, code);
      if last.Push? {
        StepAgrees(Current(Store(init, code), last.e), CurrentMirror(Replica(init), last.e), last.e, code);
      }
    }
  }

  // ---- What the entries show -----------------------------------------------------------------------

  predicate EventAt(trace: seq<Change>, j: nat, id: string) {
    j < |trace| && trace[j].Push? && trace[j].e.resource == id
  }

  predicate HasParent(e: Event) { e.parent != "" }

  predicate HasLabel(e: Event) { "label" in e.labels && e.labels["label"] != "" }

  /** The last event of the resource with a property, if there is one. */
  function LastEvent(trace: seq<Change>, id: string, has: Event -> bool): (k: Option<nat>)
    ensures k.Some? ==> EventAt(trace, k.value, id) && has(trace[k.value].e)
    ensures k.Some? ==> forall j :: k.value < j < |trace| && EventAt(trace, j, id) ==> !has(trace[j].e)
    ensures k.None? ==> forall j :: 0 <= j < |trace| && EventAt(trace, j, id) ==> !has(trace[j].e)
  {
    if trace == [] then None
    else
      var init, n := trace[..|trace| - 1], |trace| - 1;
      var k := LastEvent(init, id, has);
      assert forall j :: 0 <= j < n ==> init[j] == trace[j];
      if EventAt(trace, n, id) && has(trace[n].e) then Some(n) else k
  }

  /** An entry is under the parent its events named last, with the label they gave last, or its id. */
  ghost predicate ShownFromEvents(m: Mirror, trace: seq<Change>, id: string) {
    && m.id == id && m.typ == NodeType(id)
    && m.parentId == (match LastEvent(trace, id, HasParent) case Some(k) => trace[k].e.parent case None => "")
    && m.displayLabel == (match LastEvent(trace, id, HasLabel) case Some(k) => trace[k].e.labels["label"] case None => id)
  }

  lemma {:induction false} EntriesThere(trace: seq<Change>, id: string)
    ensures id in Replica(trace) <==> exists j: nat :: EventAt(trace, j, id)
    decreases |trace|
  {
    if trace != [] {
      var init, n := trace[..|trace| - 1], |trace| - 1;
      EntriesThere(init, id);
      forall j: nat | j < n ensures EventAt(trace, j, id) <==> EventAt(init, j, id) {}
      ReplicaGrows(trace, id);
      hide Replica;
      if id in Replica(init) { var j: nat :| EventAt(init, j, id); assert EventAt(trace, j, id); }
      if EventAt(trace, n, id) { assert id in Replica(trace); }
    }
  }

  lemma {:induction false} EntriesShow(trace: seq<Change>, id: string)
    ensures ShownFromEvents(EntryOf(Replica(trace), id), trace, id)
    decreases |trace|
  {
    if trace != [] {
      var init, n := trace[..|trace| - 1], |trace| - 1;
      EntriesShow(init, id);
      LastEventGrows(trace, id, HasParent);
      LastEventGrows(trace, id, HasLabel);
      ReplicaGrows(trace, id);
      if trace[n].Push? { FollowShows(EntryOf(Replica(init), id), trace[n].e); }
      hide Replica, LastEvent, NodeType, Follow;
    }
  }

  function EntryOf(m: Mirrors, id: string): Mirror {
    if id in m then m[id] else NewMirrorOf(id)
  }

  lemma FollowShows(m: Mirror, e: Event)
    ensures var n := Follow(m, e);
            && n.id == m.id && n.typ == m.typ && n.parentId == (if HasParent(e) then e.parent else m.parentId)
            && n.displayLabel == (if HasLabel(e) then e.labels["label"] else m.displayLabel)
            && n.attrs == m.attrs + e.attrs
  {
  }

  /** The entry of a resource nobody has named. */
  function NewMirrorOf(id: string): Mirror {
    Mirror(id, NodeType(id), id, "", NoStatus, 0, 0, 0, map[])
  }

  lemma LastEventGrows(trace: seq<Change>, id: string, has: Event -> bool)
    requires trace != []
    ensures var init, n := trace[..|trace| - 1], |trace| - 1;
            LastEvent(trace, id, has) == if EventAt(trace, n, id) && has(trace[n].e) then Some(n) else LastEvent(init, id, has)
  {
  }

  lemma ReplicaGrows(trace: seq<Change>, id: string)
    requires trace != []
    ensures var init, c := trace[..|trace| - 1], trace[|trace| - 1];
            && (id in Replica(trace) <==> id in Replica(init) || (c.Push? && c.e.resource == id))
            && (c.Push? && c.e.resource == id ==>
                  Replica(trace)[id] == Follow(EntryOf(Replica(init), id), c.e))
            && (!(c.Push? && c.e.resource == id) && id in Replica(init) ==> Replica(trace)[id] == Replica(init)[id])
  {
  }

  /** An attribute of an entry is the one of the last event of the resource that has it. */
  lemma {:induction false} EntryAttrs(trace: seq<Change>, id: string, a: string)
    ensures var attrs := EntryOf(Replica(trace), id).attrs;
            match LastEvent(trace, id, (e: Event) => a in e.attrs)
            case Some(k) => a in attrs && attrs[a] == trace[k].e.attrs[a]
            case None => a !in attrs
    decreases |trace|
  {
    if trace != [] {
      EntryAttrs(trace[..|trace| - 1], id, a);
      LastEventGrows(trace, id, (e: Event) => a in e.attrs);
      ReplicaGrows(trace, id);
      var init, c := trace[..|trace| - 1], trace[|trace| - 1];
      if c.Push? { FollowShows(EntryOf(Replica(init), id), c.e); }
      hide Replica, LastEvent, NodeType, Follow;
    }
  }

  // ---- Durations ------------------------------------------------------------------------

  /** The time of the first start event of a resource, 0 when there is none. */
  function ClientStart(trace: seq<Change>, id: string): Time {
    if trace == [] then 0
    else
      var s, last := ClientStart(trace[..|trace| - 1], id), trace[|trace| - 1];
      if s == 0 && last.Push? && last.e.resource == id && IsStartType(last.e.typ) then last.e.timestamp else s
  }

  /** At the first end event of a resource: its time, and the start known by then. */
  function ClientEnd(trace: seq<Change>, id: string): Option<(Time, Time)> {
    if trace == [] then None
    else
      var init, last := trace[..|trace| - 1], trace[|trace| - 1];
      var e := ClientEnd(init, id);
      if e.None? && last.Push? && last.e.resource == id && IsEndType(last.e.typ)
      then Some((last.e.timestamp, ClientStart(init, id))) else e
  }

  /** What each side's duration is: the same distance, saturated in one and wrapped in the other. */
  ghost predicate DurationsFrom(trace: seq<Change>, id: string, r: Resource, m: Mirror) {
    && m.startedAt == ClientStart(trace, id)
    && match ClientEnd(trace, id)
       case None => r.duration.None? && r.finishedAt.None? && m.durationNs == 0
       case Some((finish, start)) =>
         && r.finishedAt.Some? && IsInt64(start) && IsInt64(finish)
         && r.duration == Some(Sub(finish, if start == 0 then ZERO_TIME else start))
         && m.durationNs == Wrap64(finish - start)
  }

  /** DurationsFrom for the entries a resource has, or would be given by its first event. */
  ghost predicate Traced(trace: seq<Change>, id: string, code: ParseCode) {
    && IsInt64(ClientStart(trace, id))
    && (id in Replica(trace) <==> id in Store(trace, code))
    && (if id in Replica(trace) && id in Store(trace, code)
        then DurationsFrom(trace, id, Store(trace, code)[id], Replica(trace)[id])
        else ClientStart(trace, id) == 0 && ClientEnd(trace, id).None?)
  }

  lemma {:induction false} DurationsTraced(trace: seq<Change>, id: string, code: ParseCode)
    requires AllStreamable(trace)
    ensures Traced(trace, id, code)
    decreases |trace|
  {
    if trace != [] {
      var init, last := trace[..|trace| - 1], trace[|trace| - 1];
      assert AllStreamable(init) && init + [last] == trace;
      DurationsTraced(init, id, code);
      if last.Push? && last.e.resource == id {
        ReplicaTracksEngine(init, code);
        DurationsOwn(init, last.e, code);
      } else {
        DurationsOther(init, last, id, code);
      }
    }
  }

  lemma {:induction false} DurationsOwn(init: seq<Change>, e: Event, code: ParseCode)
    requires Traced(init, e.resource, code) && Streamable(e.timestamp)
    requires Agree(Current(Store(init, code), e), CurrentMirror(Replica(init), e))
    ensures Traced(init + [Push(e)], e.resource, code)
  {
    var trace := init + [Push(e)];
    assert trace[..|init|] == init;
    DurationsStep(init, trace, Current(Store(init, code), e), CurrentMirror(Replica(init), e), e, code);
    assert ClientStart(trace, e.resource) == ClientStart(init, e.resource) || ClientStart(trace, e.resource) == e.timestamp;
  }

  lemma DurationsOther(init: seq<Change>, last: Change, id: string, code: ParseCode)
    requires !(last.Push? && last.e.resource == id)
    requires Traced(init, id, code)
    ensures Traced(init + [last], id, code)
  {
    hide Advance, Follow, NewMirror, NewResource, Sub, Wrap64, StartResource, EndResource, IsStartType, IsEndType;
    assert (init + [last])[..|init|] == init;
  }

  lemma {:induction false} DurationsStep(init: seq<Change>, trace: seq<Change>, r: Resource, m: Mirror, e: Event, code: ParseCode)
    requires trace == init + [Push(e)] && Streamable(e.timestamp) && Agree(r, m)
    requires IsInt64(ClientStart(init, e.resource)) && DurationsFrom(init, e.resource, r, m)
    ensures DurationsFrom(trace, e.resource, Advance(r, e, code), Follow(m, e))
  {
    hide Sub, Wrap64, Store, Replica;
    assert trace[..|trace| - 1] == init;
  }

  /**
   * Once a resource has ended, the two durations are equal exactly when the start came before the end and the
   * distance fits a Duration. (With no start yet, the engine saturates and the replica shows the raw finish
   * time; they meet only at the largest int64.)
   */
  lemma {:induction false} DurationsAgreeIff(trace: seq<Change>, id: string, code: ParseCode)
    requires AllStreamable(trace) && ClientEnd(trace, id).Some?
    ensures id in Store(trace, code) && id in Replica(trace)
    ensures var (finish, start) := ClientEnd(trace, id).value;
            (Store(trace, code)[id].duration == Some(Replica(trace)[id].durationNs)
             <==> if start == 0 then finish == MAX_INT64 else IsInt64(finish - start))
  {
    hide Store, Replica, ClientStart, ClientEnd, Sub, Wrap64;
    DurationsTraced(trace, id, code);
    var (finish, start) := ClientEnd(trace, id).value;
    SaturatedMeetsWrapped(finish, start);
  }

  lemma SaturatedMeetsWrapped(finish: Time, start: Time)
    requires IsInt64(finish) && IsInt64(start)
    ensures Sub(finish, if start == 0 then ZERO_TIME else start) == Wrap64(finish - start)
       <==> (if start == 0 then finish == MAX_INT64 else IsInt64(finish - start))
  {
  }

  /** The engine's loop over the id cuts it at the first colon. */
  lemma {:induction false} TypeOfIdIsCut(id: string)
    ensures var i := FirstColon(id); TypeOfId(id) == if i < 0 then id else id[..i]
  {
    if id != "" && id[0] != ':' {
      TypeOfIdIsCut(id[1..]);
      var i := FirstColon(id[1..]);
      assert id == [id[0]] + id[1..];
      if i >= 0 { assert id[..i + 1] == [id[0]] + id[1..][..i]; }
    }
  }

  /** At a leading colon the engine cuts and the replica does not; at every other id the two derive the same type. */
  lemma {:induction false} NodeTypeAgreesIff(id: string)
    ensures NodeType(id) == TypeOfId(id) <==> !(id != "" && id[0] == ':')
  {
    TypeOfIdIsCut(id);
  }

  // ---- The replica as the source runs it -----------------------------------------------------

  const MAX_EVENTS: nat := 1000

  class MirrorState {
    var id: string
    var typ: string
    var displayLabel: string
    var parentId: string
    var status: MirrorStatus
    var startedAt: int
    var finishedAt: int
    var durationNs: int
    var attrs: map<string, string>

    function Value(): Mirror
      reads this
    {
      Mirror(id, typ, displayLabel, parentId, status, startedAt, finishedAt, durationNs, attrs)
    }

    constructor (e: Event)
      ensures Value() == NewMirror(e)
    {
      id, typ, displayLabel, parentId := e.resource, NodeType(e.resource), e.resource, "";
      status, startedAt, finishedAt, durationNs, attrs := NoStatus, 0, 0, 0, map[];
    }

    /** The part of applyEvent that mutates the entry. */
    method Update(e: Event)
      modifies this
      ensures Value() == Follow(old(Value()), e)
    {
      attrs := attrs + e.attrs;
      if e.parent != "" {
        parentId := e.parent;
      }
      if "label" in e.labels && e.labels["label"] != "" {
        displayLabel := e.labels["label"];
      }
      if IsStartType(e.typ) {
        if startedAt == 0 {
          startedAt, status := e.timestamp, Shown(Active);
        }
      } else if IsEndType(e.typ) {
        if finishedAt == 0 {
          finishedAt, durationNs := e.timestamp, Wrap64(e.timestamp - startedAt);
          status := Shown(if e.typ.PluginCrash? then Crashed else Finished);
        }
      }
    }
  }

  lemma OneMirrorChanged(before: Mirrors, after: Mirrors, e: Event)
    requires after.Keys == before.Keys + {e.resource}
    requires forall k :: k in before && k != e.resource ==> after[k] == before[k]
    requires after[e.resource] == Follow(CurrentMirror(before, e), e)
    ensures after == AfterStreamed(before, e)
  {
  }

  class LocalCache {
    var resources: map<string, MirrorState>
    var events: seq<Event>
    ghost var Repr: set<MirrorState>

    ghost predicate Valid()
      reads this`resources, this`Repr
    {
      && (forall k :: k in resources ==> resources[k] in Repr)
      && (forall a, b :: a in resources && b in resources && a != b ==> resources[a] != resources[b])
    }

    ghost function View(): Mirrors
      requires Valid()
      reads this`resources, this`Repr, Repr
    {
      map k | k in resources :: resources[k].Value()
    }

    constructor ()
      ensures Valid() && View() == Replica([]) && events == [] && fresh(Repr)
    {
      resources, events, Repr := map[], [], {};
    }

    method FindOrCreate(e: Event) returns (res: MirrorState)
      requires Valid()
      modifies this`resources, this`Repr
      ensures Valid() && old(Repr) <= Repr && fresh(Repr - old(Repr))
      ensures e.resource in resources && res == resources[e.resource] && res.Value() == CurrentMirror(old(View()), e)
      ensures resources == old(resources)[e.resource := res]
      ensures e.resource in old(resources) ==> res == old(resources[e.resource])
    {
      if e.resource !in resources {
        var created := new MirrorState(e);
        resources, Repr := resources[e.resource := created], Repr + {created};
      }
      res := resources[e.resource];
    }

    method AppendEvent(e: Event)
      modifies this`events
      ensures events == LastN(old(events) + [e], MAX_EVENTS)
    {
      events := events + [e];
      if |events| > MAX_EVENTS {
        events := events[|events| - MAX_EVENTS..];
      }
    }

    method ApplyEvent(e: Event)
      requires Valid()
      modifies this, Repr
      ensures Valid() && old(Repr) <= Repr && fresh(Repr - old(Repr))
      ensures View() == AfterStreamed(old(View()), e)
      ensures events == LastN(old(events) + [e], MAX_EVENTS)
    {
      hide Follow;
      ghost var before := View();
      var res := FindOrCreate(e);
      res.Update(e);
      OneMirrorChanged(before, View(), e);
      AppendEvent(e);
    }
  }
}
