/** The diagnostics engine's resource store and event history. */
module Diagnostics {
  import opened Seqs

  // ---- Time -----------------------------------------------------------------

  /** An instant in nanoseconds since the Unix epoch. */
  type Time = int

  /** Go's zero time.Time, 1 January of year 1. */
  const ZERO_TIME: Time := -62135596800 * 1000000000

  const MAX_INT64 := 0x7fff_ffff_ffff_ffff
  const MIN_INT64 := -0x8000_0000_0000_0000

  predicate IsInt64(x: int) {
    MIN_INT64 <= x <= MAX_INT64
  }

  /** time.Time.Sub: the difference, saturated to the range of a Duration. */
  function Sub(a: Time, b: Time): int {
    if a - b > MAX_INT64 then MAX_INT64 else if a - b < MIN_INT64 then MIN_INT64 else a - b
  }

  // ---- Events -----------------------------------------------------------------

  datatype EventType =
    | DaemonStart | DaemonStop
    | PluginSpawn | PluginCrash | PluginStop
    | ClientConnect | ClientDisconn
    | ExecStart | ExecStop
    | ExecutorOpen | ExecutorClose
    | SessionCreate | SessionEnd
    | BgTaskStart | BgTaskStop
    | ScriptStart | ScriptStop
    | PluginRpcOpen | PluginRpcClose
    | OtherType(name: string)

  predicate IsStartType(t: EventType) {
    t.DaemonStart? || t.PluginSpawn? || t.ClientConnect? || t.ExecStart? || t.ExecutorOpen? ||
    t.SessionCreate? || t.BgTaskStart? || t.ScriptStart? || t.PluginRpcOpen?
  }

  predicate IsEndType(t: EventType) {
    t.DaemonStop? || t.PluginStop? || t.PluginCrash? || t.ClientDisconn? || t.ExecStop? ||
    t.ExecutorClose? || t.SessionEnd? || t.BgTaskStop? || t.ScriptStop? || t.PluginRpcClose?
  }

  predicate IsLifecycle(t: EventType) {
    IsStartType(t) || IsEndType(t)
  }

  datatype Status = Pending | Active | Finished | Crashed

  function TerminalStatus(t: EventType): Status {
    if t.PluginCrash? then Crashed else Finished
  }

  datatype Event = Event(
    timestamp: Time, typ: EventType, resource: string, parent: string,
    labels: map<string, string>, message: string, attrs: map<string, string>)

  // ---- One resource as a value --------------------------------------------------

  /** The fields of a tracked resource. A nil field of the source is None. */
  datatype Resource = Resource(
    id: string, typ: string, displayLabel: string, parentId: string, status: Status,
    createdAt: Time, startedAt: Time, finishedAt: Option<Time>, duration: Option<int>,
    attrs: map<string, string>, exitCode: Option<int>)

  function TypeOfId(id: string): string {
    if id == [] || id[0] == ':' then [] else [id[0]] + TypeOfId(id[1..])
  }

  /** json.Unmarshal of the exit code into an int; anything it rejects leaves 0. */
  type ParseCode = string -> int

  function NewResource(e: Event): Resource {
    Resource(e.resource, TypeOfId(e.resource), e.message, e.parent, Pending, e.timestamp, ZERO_TIME, None, None, map[], None)
  }

  function StartResource(r: Resource, e: Event): Resource {
    if IsStartType(e.typ) && r.startedAt == ZERO_TIME then
      r.(status := Active, startedAt := e.timestamp,
         createdAt := if r.createdAt == ZERO_TIME then e.timestamp else r.createdAt,
         attrs := r.attrs + e.attrs, displayLabel := e.message)
    else r
  }

  function EndResource(r: Resource, e: Event, code: ParseCode): Resource {
    if IsEndType(e.typ) && r.finishedAt.None? then
      r.(status := TerminalStatus(e.typ), finishedAt := Some(e.timestamp),
         duration := Some(Sub(e.timestamp, r.startedAt)), attrs := r.attrs + e.attrs,
         exitCode := if "exit_code" in e.attrs then Some(code(e.attrs["exit_code"])) else r.exitCode)
    else r
  }

  /** What one event does to the resource it names. */
  function Advance(r: Resource, e: Event, code: ParseCode): Resource {
    var r1 := EndResource(StartResource(r, e), e, code);
    if IsLifecycle(e.typ) then r1 else r1.(attrs := r1.attrs + e.attrs)
  }

  type Resources = map<string, Resource>

  function Current(m: Resources, e: Event): Resource {
    if e.resource in m then m[e.resource] else NewResource(e)
  }

  function AfterEvent(m: Resources, e: Event, code: ParseCode): Resources {
    m[e.resource := Advance(Current(m, e), e, code)]
  }

  /** Which event types start a resource and which end it; only a plugin's crash ends it as crashed. */
  lemma LifecycleTypes(t: EventType)
    ensures IsStartType(t) <==> t in {DaemonStart, PluginSpawn, ClientConnect, ExecStart, ExecutorOpen, SessionCreate,
                                      BgTaskStart, ScriptStart, PluginRpcOpen}
    ensures IsEndType(t) <==> !IsStartType(t) && !t.OtherType?
    ensures TerminalStatus(t) == if t == PluginCrash then Crashed else Finished
  {
  }

  /** Go's time subtraction: the distance, or the nearest a duration can come to it. */
  lemma SubIs(a: Time, b: Time)
    ensures MIN_INT64 <= Sub(a, b) <= MAX_INT64
    ensures MIN_INT64 <= a - b <= MAX_INT64 ==> Sub(a, b) == a - b
    ensures a - b > MAX_INT64 ==> Sub(a, b) == MAX_INT64
    ensures a - b < MIN_INT64 ==> Sub(a, b) == MIN_INT64
  {
  }

  // ---- Runs of the engine -----------------------------------------------------------

  /** A change to the store: an event, or a session moved under another parent. */
  datatype Change = Push(e: Event) | Reparent(id: string, parent: string)

  function Target(c: Change): string {
    match c case Push(e) => e.resource case Reparent(id, _) => id
  }

  function AfterChange(m: Resources, c: Change, code: ParseCode): Resources {
    match c
    case Push(e) => AfterEvent(m, e, code)
    case Reparent(id, parent) => if id in m then m[id := m[id].(parentId := parent)] else m
  }

  function Store(trace: seq<Change>, code: ParseCode): Resources {
    if trace == [] then map[] else AfterChange(Store(trace[..|trace| - 1], code), trace[|trace| - 1], code)
  }

  /** The changes of a trace that are about one resource. */
  function Own(trace: seq<Change>, id: string): seq<Change> {
    if trace == [] then []
    else
      var last := trace[|trace| - 1];
      Own(trace[..|trace| - 1], id) + if Target(last) == id then [last] else []
  }

  /** A resource's own changes are all those of the trace that are about it, in order, and no others. */
  lemma {:induction false} OwnAreOwn(trace: seq<Change>, id: string)
    ensures forall c :: c in Own(trace, id) <==> c in trace && Target(c) == id
    ensures multiset(Own(trace, id)) <= multiset(trace)
    decreases |trace|
  {
    if trace != [] {
      var init := trace[..|trace| - 1];
      OwnAreOwn(init, id);
      assert trace == init + [trace[|trace| - 1]];
    }
  }

  /** A resource's state is the fold over its own changes alone. */
  lemma {:induction false} StateIsFoldOfOwnEvents(trace: seq<Change>, id: string, code: ParseCode)
    ensures id in Store(trace, code) <==> id in Store(Own(trace, id), code)
    ensures id in Store(trace, code) ==> Store(trace, code)[id] == Store(Own(trace, id), code)[id]
    decreases |trace|
  {
    if trace != [] {
      var init, last := trace[..|trace| - 1], trace[|trace| - 1];
      StateIsFoldOfOwnEvents(init, id, code);
      var own := Own(init, id);
      if Target(last) == id {
        assert (own + [last])[..|own|] == own;
        assert Store(own + [last], code) == AfterChange(Store(own, code), last, code);
      } else {
        assert own + [] == own;
      }
    }
  }

  /** Store keys name their resources, and every stored resource has had an event. */
  lemma {:induction false} StoredUnderOwnId(trace: seq<Change>, id: string, code: ParseCode)
    requires id in Store(trace, code)
    ensures Store(trace, code)[id].id == id
    ensures exists e :: Push(e) in trace && e.resource == id
    decreases |trace|
  {
    var init, last := trace[..|trace| - 1], trace[|trace| - 1];
    if id in Store(init, code) {
      StoredUnderOwnId(init, id, code);
      var e :| Push(e) in init && e.resource == id;
      assert Push(e) in trace;
    } else {
      assert last in trace;
    }
  }

  // ---- Replaying events ---------------------------------------------------------------

  /** The event has left its mark: a second copy of it would find nothing to do. */
  predicate Absorbed(r: Resource, e: Event) {
    && (IsStartType(e.typ) ==> r.startedAt != ZERO_TIME)
    && (IsEndType(e.typ) ==> r.finishedAt.Some?)
  }

  /** Some start event of the resource carried a time. */
  ghost predicate StartSeen(trace: seq<Change>, id: string) {
    exists e :: Push(e) in trace && e.resource == id && IsStartType(e.typ) && e.timestamp != ZERO_TIME
  }

  lemma {:induction false} StartedIffStartSeen(trace: seq<Change>, id: string, code: ParseCode)
    ensures (id in Store(trace, code) && Store(trace, code)[id].startedAt != ZERO_TIME) <==> StartSeen(trace, id)
    decreases |trace|
  {
    if trace != [] {
      var init, last := trace[..|trace| - 1], trace[|trace| - 1];
      StartedIffStartSeen(init, id, code);
      assert forall e :: Push(e) in trace <==> Push(e) in init || Push(e) == last;
    }
  }

  lemma {:induction false} EndSeenFinishes(trace: seq<Change>, e: Event, code: ParseCode)
    requires Push(e) in trace
    ensures e.resource in Store(trace, code)
    ensures IsEndType(e.typ) ==> Store(trace, code)[e.resource].finishedAt.Some?
    decreases |trace|
  {
    var init, last := trace[..|trace| - 1], trace[|trace| - 1];
    if last != Push(e) {
      assert Push(e) in init;
      EndSeenFinishes(init, e, code);
    }
  }

  /** A copy of a lifecycle event in the trace is absorbed, exactly when a start with a time backs a start. */
  lemma {:induction false} OwnEventAbsorbedIff(trace: seq<Change>, e: Event, code: ParseCode)
    requires Push(e) in trace && IsLifecycle(e.typ)
    ensures e.resource in Store(trace, code)
    ensures Absorbed(Store(trace, code)[e.resource], e) <==> (IsStartType(e.typ) ==> StartSeen(trace, e.resource))
  {
    EndSeenFinishes(trace, e, code);
    StartedIffStartSeen(trace, e.resource, code);
  }

  /** A start event at the zero time, replayed after the end, brings the resource back to life. */
  lemma ZeroTimeReplayReactivates(code: ParseCode)
    ensures var start := Event(ZERO_TIME, PluginSpawn, "plugin:p", "", map[], "p", map[]);
            var stop := Event(5, PluginStop, "plugin:p", "", map[], "p", map[]);
            var before := Store([Push(start), Push(stop)], code);
            && before["plugin:p"].status == Finished
            && AfterEvent(before, start, code)["plugin:p"].status == Active
  {
    var start := Event(ZERO_TIME, PluginSpawn, "plugin:p", "", map[], "p", map[]);
    var stop := Event(5, PluginStop, "plugin:p", "", map[], "p", map[]);
    assert [Push(start), Push(stop)][..1] == [Push(start)];
    assert [Push(start)][..0] == [];
    assert Store([Push(start)], code) == map["plugin:p" := Advance(NewResource(start), start, code)];
  }

  // ---- Stability after the end ------------------------------------------------------------

  datatype Lifecycle = Lifecycle(status: Status, startedAt: Time, finishedAt: Option<Time>, duration: Option<int>)

  function LifecycleOf(r: Resource): Lifecycle {
    Lifecycle(r.status, r.startedAt, r.finishedAt, r.duration)
  }

  function Continue(m: Resources, more: seq<Change>, code: ParseCode): Resources
    decreases |more|
  {
    if more == [] then m else Continue(AfterChange(m, more[0], code), more[1..], code)
  }

  lemma {:induction false} AbsorbedStays(m: Resources, e: Event, more: seq<Change>, code: ParseCode)
    requires IsLifecycle(e.typ) && e.resource in m && Absorbed(m[e.resource], e)
    ensures var after := Continue(m, more, code); e.resource in after && Absorbed(after[e.resource], e)
    decreases |more|
  {
    if more != [] {
      AbsorbedStays(AfterChange(m, more[0], code), e, more[1..], code);
    }
  }

  /** After the changes `more`, the event changes nothing. */
  ghost predicate NoChangeAfter(m: Resources, more: seq<Change>, e: Event, code: ParseCode) {
    AfterEvent(Continue(m, more, code), e, code) == Continue(m, more, code)
  }

  /**
   * A lifecycle event that was pushed can be pushed again at any later time without changing anything exactly when,
   * if it is a start, some start of its resource carried a time.
   */
  lemma {:induction false} ReplayHarmlessIff(trace: seq<Change>, e: Event, code: ParseCode)
    requires Push(e) in trace && IsLifecycle(e.typ)
    ensures (forall more :: NoChangeAfter(Store(trace, code), more, e, code))
       <==> (IsStartType(e.typ) ==> StartSeen(trace, e.resource))
  {
    OwnEventAbsorbedIff(trace, e, code);
    var s := Store(trace, code);
    if IsStartType(e.typ) ==> StartSeen(trace, e.resource) {
      forall more ensures NoChangeAfter(s, more, e, code) {
        AbsorbedStays(s, e, more, code);
      }
    } else {
      StartedIffStartSeen(trace, e.resource, code);
      var other := e.(message := e.message + "'");
      var more := [Push(other)];
      assert more[1..] == [];
      var m := AfterEvent(s, other, code);
      assert Continue(s, more, code) == Continue(m, more[1..], code) == m;
      assert m[e.resource].startedAt == ZERO_TIME && m[e.resource].displayLabel == other.message != e.message;
      assert AfterEvent(m, e, code)[e.resource].displayLabel == e.message;
      assert !NoChangeAfter(s, more, e, code);
    }
  }

  lemma {:induction false} EndedStaysEnded(m: Resources, id: string, more: seq<Change>, code: ParseCode)
    requires id in m && m[id].finishedAt.Some? && m[id].startedAt != ZERO_TIME
    ensures id in Continue(m, more, code)
    ensures LifecycleOf(Continue(m, more, code)[id]) == LifecycleOf(m[id])
    decreases |more|
  {
    if more != [] {
      EndedStaysEnded(AfterChange(m, more[0], code), id, more[1..], code);
    }
  }

  /**
   * Once a resource has ended, its status and times are final under every continuation exactly when its start
   * was seen. Otherwise a late start event re-activates it.
   */
  lemma {:induction false} EndIsFinalIff(m: Resources, id: string, code: ParseCode)
    requires id in m && m[id].finishedAt.Some? && m[id].status in {Finished, Crashed}
    ensures (forall more :: id in Continue(m, more, code) && LifecycleOf(Continue(m, more, code)[id]) == LifecycleOf(m[id]))
       <==> m[id].startedAt != ZERO_TIME
  {
    if m[id].startedAt != ZERO_TIME {
      forall more ensures id in Continue(m, more, code) && LifecycleOf(Continue(m, more, code)[id]) == LifecycleOf(m[id]) {
        EndedStaysEnded(m, id, more, code);
      }
    } else {
      var late := [Push(Event(7, SessionCreate, id, "", map[], "", map[]))];
      assert late[1..] == [];
      assert Continue(m, late, code) == AfterChange(m, late[0], code);
      assert LifecycleOf(Continue(m, late, code)[id]) != LifecycleOf(m[id]);
    }
  }

  /** A stop that arrives before its start: the late start makes the finished resource active again. */
  lemma LateStartReactivates(code: ParseCode)
    ensures var stop := Event(5, PluginStop, "plugin:p", "", map[], "p", map[]);
            var start := Event(7, PluginSpawn, "plugin:p", "", map[], "p", map[]);
            var before, after := Store([Push(stop)], code), Store([Push(stop), Push(start)], code);
            && before["plugin:p"].status == Finished
            && after["plugin:p"].status == Active && after["plugin:p"].finishedAt == Some(5)
  {
    var stop := Event(5, PluginStop, "plugin:p", "", map[], "p", map[]);
    var start := Event(7, PluginSpawn, "plugin:p", "", map[], "p", map[]);
    assert [Push(stop), Push(start)][..1] == [Push(stop)];
    assert [Push(stop)][..0] == [];
    assert Store([Push(stop)], code) == map["plugin:p" := Advance(NewResource(stop), stop, code)];
  }

  // ---- Where the lifecycle fields come from -----------------------------------------------------

  predicate StartsAt(trace: seq<Change>, k: nat, id: string) {
    k < |trace| && trace[k].Push? && trace[k].e.resource == id && IsStartType(trace[k].e.typ)
  }

  predicate EndsAt(trace: seq<Change>, k: nat, id: string) {
    k < |trace| && trace[k].Push? && trace[k].e.resource == id && IsEndType(trace[k].e.typ)
  }

  /** The first time other than zero that a start event of the resource carried, or zero. */
  function FirstStart(trace: seq<Change>, id: string): Time {
    if trace == [] then ZERO_TIME
    else
      var before := FirstStart(trace[..|trace| - 1], id);
      if before == ZERO_TIME && StartsAt(trace, |trace| - 1, id) then trace[|trace| - 1].e.timestamp else before
  }

  /** The position of the resource's first end event. */
  function FirstEnd(trace: seq<Change>, id: string): (k: Option<nat>)
    ensures k.Some? ==> EndsAt(trace, k.value, id) && forall j :: 0 <= j < k.value ==> !EndsAt(trace, j, id)
    ensures k.None? ==> forall j :: 0 <= j < |trace| ==> !EndsAt(trace, j, id)
  {
    if trace == [] then None
    else
      var init := trace[..|trace| - 1];
      var k := FirstEnd(init, id);
      assert forall j :: 0 <= j < |init| ==> (EndsAt(trace, j, id) <==> EndsAt(init, j, id));
      if k.None? && EndsAt(trace, |trace| - 1, id) then Some(|trace| - 1) else k
  }

  /** A start event after position k while the resource still had no start time. */
  ghost predicate RestartedAfter(trace: seq<Change>, k: int, id: string) {
    exists j :: k < j < |trace| && 0 <= j && StartsAt(trace, j, id) && FirstStart(trace[..j], id) == ZERO_TIME
  }

  /**
   * The lifecycle of a resource in terms of its events: the start is the first that carried a time; the first end event
   * sets the finish, the duration since the start known by then, and the final status, unless a start without a start
   * time before it re-activates the resource.
   */
  ghost predicate LifecycleFromEvents(l: Lifecycle, trace: seq<Change>, id: string) {
    && l.startedAt == FirstStart(trace, id)
    && match FirstEnd(trace, id)
       case None =>
         l.finishedAt == None && l.duration == None
         && l.status == if RestartedAfter(trace, -1, id) then Active else Pending
       case Some(k) =>
         var end := trace[k].e;
         l.finishedAt == Some(end.timestamp) && l.duration == Some(Sub(end.timestamp, FirstStart(trace[..k], id)))
         && l.status == if RestartedAfter(trace, k, id) then Active else TerminalStatus(end.typ)
  }

  /** The lifecycle of a resource, or of one no event has named. */
  function LifecycleIn(m: Resources, id: string): Lifecycle {
    if id in m then LifecycleOf(m[id]) else Lifecycle(Pending, ZERO_TIME, None, None)
  }

  lemma {:induction false} StoreLifecycle(trace: seq<Change>, id: string, code: ParseCode)
    ensures LifecycleFromEvents(LifecycleIn(Store(trace, code), id), trace, id)
    decreases |trace|
  {
    if trace == [] {
      assert !RestartedAfter(trace, -1, id);
    } else {
      StoreLifecycle(trace[..|trace| - 1], id, code);
      LifecycleStep(trace, id, code);
    }
  }

  function StartLifecycle(l: Lifecycle, e: Event): Lifecycle {
    if IsStartType(e.typ) && l.startedAt == ZERO_TIME then l.(status := Active, startedAt := e.timestamp) else l
  }

  function EndLifecycle(l: Lifecycle, e: Event): Lifecycle {
    if IsEndType(e.typ) && l.finishedAt.None? then
      l.(status := TerminalStatus(e.typ), finishedAt := Some(e.timestamp), duration := Some(Sub(e.timestamp, l.startedAt)))
    else l
  }

  /** Only events of the resource touch its lifecycle. */
  lemma LifecycleAfter(m: Resources, c: Change, id: string, code: ParseCode)
    ensures LifecycleIn(AfterChange(m, c, code), id)
            == if c.Push? && c.e.resource == id then EndLifecycle(StartLifecycle(LifecycleIn(m, id), c.e), c.e)
               else LifecycleIn(m, id)
  {
  }

  lemma LifecycleStep(trace: seq<Change>, id: string, code: ParseCode)
    requires trace != [] && LifecycleFromEvents(LifecycleIn(Store(trace[..|trace| - 1], code), id), trace[..|trace| - 1], id)
    ensures LifecycleFromEvents(LifecycleIn(Store(trace, code), id), trace, id)
  {
    var init, n := trace[..|trace| - 1], |trace| - 1;
    LifecycleAfter(Store(init, code), trace[n], id, code);
    EventsStep(LifecycleIn(Store(init, code), id), trace, id);
    hide LifecycleFromEvents, LifecycleIn, AfterChange;
  }

  lemma EventsStep(l: Lifecycle, trace: seq<Change>, id: string)
    requires trace != [] && LifecycleFromEvents(l, trace[..|trace| - 1], id)
    ensures var c := trace[|trace| - 1];
            LifecycleFromEvents(if c.Push? && c.e.resource == id then EndLifecycle(StartLifecycle(l, c.e), c.e) else l, trace, id)
  {
    var init, n := trace[..|trace| - 1], |trace| - 1;
    FirstEndGrows(trace, id);
    RestartedGrows(trace, -1, id);
    RestartedNotYet(trace, n, id);
    match FirstEnd(init, id) {
      case Some(k) =>
        RestartedGrows(trace, k, id);
        assert trace[..k] == init[..k];
      case None =>
    }
    hide FirstEnd, RestartedAfter, Sub;
  }

  lemma RestartedNotYet(trace: seq<Change>, k: int, id: string)
    requires k >= |trace| - 1
    ensures !RestartedAfter(trace, k, id)
  {
  }

  lemma FirstEndGrows(trace: seq<Change>, id: string)
    requires trace != []
    ensures var init, n := trace[..|trace| - 1], |trace| - 1;
            FirstEnd(trace, id) == if FirstEnd(init, id) == None && EndsAt(trace, n, id) then Some(n) else FirstEnd(init, id)
  {
  }

  lemma RestartedGrows(trace: seq<Change>, k: int, id: string)
    requires trace != []
    ensures var init, n := trace[..|trace| - 1], |trace| - 1;
            RestartedAfter(trace, k, id)
            <==> RestartedAfter(init, k, id) || (k < n && StartsAt(trace, n, id) && FirstStart(init, id) == ZERO_TIME)
  {
    var init, n := trace[..|trace| - 1], |trace| - 1;
    forall j | 0 <= j < n
      ensures (StartsAt(trace, j, id) <==> StartsAt(init, j, id)) && FirstStart(trace[..j], id) == FirstStart(init[..j], id)
    {
      assert trace[..j] == init[..j];
    }
  }

  // ---- Where the other fields come from ------------------------------------------------------------

  /** The first event of the resource, which created it. */
  function FirstPush(trace: seq<Change>, id: string): (k: Option<nat>)
    ensures k.Some? ==> k.value < |trace| && trace[k.value].Push? && trace[k.value].e.resource == id
    ensures k.Some? ==> forall j :: 0 <= j < k.value ==> !(trace[j].Push? && trace[j].e.resource == id)
    ensures k.None? ==> forall j :: 0 <= j < |trace| ==> !(trace[j].Push? && trace[j].e.resource == id)
  {
    if trace == [] then None
    else
      var init, last := trace[..|trace| - 1], trace[|trace| - 1];
      var k := FirstPush(init, id);
      assert forall j :: 0 <= j < |init| ==> init[j] == trace[j];
      if k.None? && last.Push? && last.e.resource == id then Some(|trace| - 1) else k
  }

  /** The last move under another parent since the resource was created. */
  function LastMove(trace: seq<Change>, id: string): (k: Option<nat>)
    ensures k.Some? ==> k.value < |trace| && trace[k.value].Reparent? && trace[k.value].id == id && FirstPush(trace[..k.value], id).Some?
    ensures k.Some? ==> forall j :: k.value < j < |trace| ==> !(trace[j].Reparent? && trace[j].id == id)
  {
    if trace == [] then None
    else
      var init, last := trace[..|trace| - 1], trace[|trace| - 1];
      var k := LastMove(init, id);
      assert k.Some? ==> init[..k.value] == trace[..k.value];
      if last.Reparent? && last.id == id && FirstPush(init, id).Some? then Some(|trace| - 1) else k
  }

  /** A start event that found no start time. */
  predicate EffectiveStart(trace: seq<Change>, j: nat, id: string) {
    StartsAt(trace, j, id) && FirstStart(trace[..j], id) == ZERO_TIME
  }

  lemma SameInPrefix(trace: seq<Change>, j: nat, id: string)
    requires trace != [] && j < |trace| - 1
    ensures var init := trace[..|trace| - 1];
            (EffectiveStart(trace, j, id) <==> EffectiveStart(init, j, id)) && (Contributes(trace, j, id) <==> Contributes(init, j, id))
  {
    assert trace[..|trace| - 1][..j] == trace[..j];
  }

  /** The last of them. */
  function LastEffectiveStart(trace: seq<Change>, id: string): (k: Option<nat>)
    ensures k.Some? ==> EffectiveStart(trace, k.value, id) && forall j :: k.value < j < |trace| ==> !EffectiveStart(trace, j, id)
    ensures k.None? ==> forall j :: 0 <= j < |trace| ==> !EffectiveStart(trace, j, id)
  {
    if trace == [] then None
    else
      var init, n := trace[..|trace| - 1], |trace| - 1;
      var k := LastEffectiveStart(init, id);
      assert forall j: nat :: j < n ==> (EffectiveStart(trace, j, id) <==> EffectiveStart(init, j, id)) by {
        forall j: nat | j < n ensures EffectiveStart(trace, j, id) <==> EffectiveStart(init, j, id) { SameInPrefix(trace, j, id); }
      }
      if EffectiveStart(trace, n, id) then Some(n) else k
  }

  /** An event whose attributes reach the resource: an effective start, the first end, or no lifecycle event at all. */
  predicate Contributes(trace: seq<Change>, j: nat, id: string) {
    && j < |trace| && trace[j].Push? && trace[j].e.resource == id
    && (IsStartType(trace[j].e.typ) ==> FirstStart(trace[..j], id) == ZERO_TIME)
    && (IsEndType(trace[j].e.typ) ==> FirstEnd(trace[..j], id) == None)
  }

  /** The last of them that has the attribute. */
  function AttrSource(trace: seq<Change>, id: string, a: string): (k: Option<nat>)
    ensures k.Some? ==> Contributes(trace, k.value, id) && a in trace[k.value].e.attrs
    ensures k.Some? ==> forall j :: k.value < j < |trace| && Contributes(trace, j, id) ==> a !in trace[j].e.attrs
    ensures k.None? ==> forall j :: 0 <= j < |trace| && Contributes(trace, j, id) ==> a !in trace[j].e.attrs
  {
    if trace == [] then None
    else
      var init, n := trace[..|trace| - 1], |trace| - 1;
      var k := AttrSource(init, id, a);
      assert forall j: nat :: j < n ==> (Contributes(trace, j, id) <==> Contributes(init, j, id)) by {
        forall j: nat | j < n ensures Contributes(trace, j, id) <==> Contributes(init, j, id) { SameInPrefix(trace, j, id); }
      }
      if Contributes(trace, n, id) && a in trace[n].e.attrs then Some(n) else k
  }

  /** One event, field by field. */
  lemma AdvanceIs(r: Resource, e: Event, code: ParseCode)
    ensures var n := Advance(r, e, code);
            var starts, ends := IsStartType(e.typ) && r.startedAt == ZERO_TIME, IsEndType(e.typ) && r.finishedAt == None;
            && n.id == r.id && n.typ == r.typ && n.parentId == r.parentId
            && n.displayLabel == (if starts then e.message else r.displayLabel)
            && n.createdAt == (if starts && r.createdAt == ZERO_TIME then e.timestamp else r.createdAt)
            && n.exitCode == (if ends && "exit_code" in e.attrs then Some(code(e.attrs["exit_code"])) else r.exitCode)
            && n.attrs == (if (IsStartType(e.typ) ==> starts) && (IsEndType(e.typ) ==> ends) then r.attrs + e.attrs else r.attrs)
  {
  }

  /** One change: the resource an event names advances, or is created and advances; a move gives another parent. */
  lemma ChangeIs(m: Resources, c: Change, id: string, code: ParseCode)
    ensures var n := AfterChange(m, c, code);
            && (id in n <==> id in m || (c.Push? && c.e.resource == id))
            && (c.Push? && c.e.resource == id ==>
                  n[id] == Advance(if id in m then m[id] else NewResource(c.e), c.e, code))
            && (!(c.Push? && c.e.resource == id) && id in m ==>
                  n[id] == if c.Reparent? && c.id == id then m[id].(parentId := c.parent) else m[id])
  {
  }

  lemma FirstPushGrows(trace: seq<Change>, id: string)
    requires trace != []
    ensures var init, n := trace[..|trace| - 1], |trace| - 1;
            FirstPush(trace, id) == if FirstPush(init, id) == None && trace[n].Push? && trace[n].e.resource == id then Some(n)
                                    else FirstPush(init, id)
  {
  }

  /** A stored resource is named and typed by its id, and it is there since the first event that names it. */
  lemma {:induction false} StoreNames(trace: seq<Change>, id: string, code: ParseCode)
    ensures id in Store(trace, code) <==> FirstPush(trace, id).Some?
    ensures id in Store(trace, code) ==> Store(trace, code)[id].id == id && Store(trace, code)[id].typ == TypeOfId(id)
    decreases |trace|
  {
    if trace != [] {
      var init, c := trace[..|trace| - 1], trace[|trace| - 1];
      StoreNames(init, id, code);
      FirstPushGrows(trace, id);
      ChangeIs(Store(init, code), c, id, code);
      if c.Push? { AdvanceIs(Current(Store(init, code), c.e), c.e, code); }
      hide AfterChange, Advance, FirstPush, TypeOfId;
    }
  }

  /** Its parent is the one of the first event, or the last it was moved under. */
  lemma {:induction false} StoreParent(trace: seq<Change>, id: string, code: ParseCode)
    requires id in Store(trace, code)
    ensures FirstPush(trace, id).Some?
    ensures Store(trace, code)[id].parentId
         == match LastMove(trace, id) case Some(k) => trace[k].parent case None => trace[FirstPush(trace, id).value].e.parent
    decreases |trace|
  {
    var init, c := trace[..|trace| - 1], trace[|trace| - 1];
    StoreNames(trace, id, code);
    StoreNames(init, id, code);
    FirstPushGrows(trace, id);
    LastMoveGrows(trace, id);
    ChangeIs(Store(init, code), c, id, code);
    if c.Push? { AdvanceIs(Current(Store(init, code), c.e), c.e, code); }
    if id in Store(init, code) { StoreParent(init, id, code); } else { NoMoveBefore(init, id); }
    hide AfterChange, Advance, FirstPush, LastMove, TypeOfId;
  }

  lemma LastMoveGrows(trace: seq<Change>, id: string)
    requires trace != []
    ensures var init, c := trace[..|trace| - 1], trace[|trace| - 1];
            LastMove(trace, id) == if c.Reparent? && c.id == id && FirstPush(init, id).Some? then Some(|trace| - 1) else LastMove(init, id)
  {
  }

  lemma {:induction false} NoMoveBefore(trace: seq<Change>, id: string)
    requires FirstPush(trace, id) == None
    ensures LastMove(trace, id) == None
    decreases |trace|
  {
    if trace != [] {
      FirstPushGrows(trace, id);
      NoMoveBefore(trace[..|trace| - 1], id);
    }
  }

  /** Its label is the message of the last effective start, or of the first event. */
  lemma {:induction false} StoreLabel(trace: seq<Change>, id: string, code: ParseCode)
    requires id in Store(trace, code)
    ensures FirstPush(trace, id).Some?
    ensures Store(trace, code)[id].displayLabel
         == match LastEffectiveStart(trace, id)
            case Some(k) => trace[k].e.message
            case None => trace[FirstPush(trace, id).value].e.message
    decreases |trace|
  {
    var init, c := trace[..|trace| - 1], trace[|trace| - 1];
    StoreNames(trace, id, code);
    StoreNames(init, id, code);
    StoreLifecycle(init, id, code);
    FirstPushGrows(trace, id);
    EffectiveStartGrows(trace, id);
    ChangeIs(Store(init, code), c, id, code);
    if c.Push? { AdvanceIs(Current(Store(init, code), c.e), c.e, code); }
    if id in Store(init, code) { StoreLabel(init, id, code); } else { NoStartBefore(init, id); }
    hide AfterChange, Advance, FirstPush, LastEffectiveStart, TypeOfId, FirstEnd, FirstStart, RestartedAfter, Sub;
  }

  lemma EffectiveStartGrows(trace: seq<Change>, id: string)
    requires trace != []
    ensures var init, n := trace[..|trace| - 1], |trace| - 1;
            LastEffectiveStart(trace, id)
            == if StartsAt(trace, n, id) && FirstStart(init, id) == ZERO_TIME then Some(n) else LastEffectiveStart(init, id)
  {
  }

  lemma {:induction false} NoStartBefore(trace: seq<Change>, id: string)
    requires FirstPush(trace, id) == None
    ensures LastEffectiveStart(trace, id) == None && FirstStart(trace, id) == ZERO_TIME && FirstEnd(trace, id) == None
    decreases |trace|
  {
    if trace != [] {
      FirstPushGrows(trace, id);
      NoStartBefore(trace[..|trace| - 1], id);
    }
  }

  /** It was created at the time of the first event, or, if that carried none, when it started. */
  lemma {:induction false} StoreCreated(trace: seq<Change>, id: string, code: ParseCode)
    requires id in Store(trace, code)
    ensures FirstPush(trace, id).Some?
    ensures var first := trace[FirstPush(trace, id).value].e.timestamp;
            Store(trace, code)[id].createdAt == if first != ZERO_TIME then first else FirstStart(trace, id)
    decreases |trace|
  {
    var init, c := trace[..|trace| - 1], trace[|trace| - 1];
    StoreNames(trace, id, code);
    StoreNames(init, id, code);
    StoreLifecycle(init, id, code);
    FirstPushGrows(trace, id);
    ChangeIs(Store(init, code), c, id, code);
    if c.Push? { AdvanceIs(Current(Store(init, code), c.e), c.e, code); }
    if id in Store(init, code) { StoreCreated(init, id, code); } else { NoStartBefore(init, id); }
    hide AfterChange, Advance, FirstPush, TypeOfId, FirstEnd, RestartedAfter, Sub;
  }

  /** Its exit code is the one of its first end event, if that has one. */
  lemma {:induction false} StoreExitCode(trace: seq<Change>, id: string, code: ParseCode)
    requires id in Store(trace, code)
    ensures Store(trace, code)[id].exitCode
         == match FirstEnd(trace, id)
            case Some(k) =>
              if "exit_code" in trace[k].e.attrs then Some(code(trace[k].e.attrs["exit_code"])) else None
            case None => None
    decreases |trace|
  {
    var init, c := trace[..|trace| - 1], trace[|trace| - 1];
    StoreNames(init, id, code);
    StoreLifecycle(init, id, code);
    FirstEndGrows(trace, id);
    ChangeIs(Store(init, code), c, id, code);
    if c.Push? { AdvanceIs(Current(Store(init, code), c.e), c.e, code); }
    if id in Store(init, code) { StoreExitCode(init, id, code); } else { NoStartBefore(init, id); }
    hide AfterChange, Advance, FirstPush, TypeOfId, FirstEnd, RestartedAfter, Sub, FirstStart;
  }

  /** Each of its attributes comes from the last event that contributed one of that name, and it has no others. */
  ghost predicate AttrsFromEvents(attrs: map<string, string>, trace: seq<Change>, id: string) {
    forall a :: match AttrSource(trace, id, a)
                case Some(k) => a in attrs && attrs[a] == trace[k].e.attrs[a]
                case None => a !in attrs
  }

  function AttrsIn(m: Resources, id: string): map<string, string> {
    if id in m then m[id].attrs else map[]
  }

  lemma {:induction false} StoreAttrs(trace: seq<Change>, id: string, code: ParseCode)
    ensures AttrsFromEvents(AttrsIn(Store(trace, code), id), trace, id)
    decreases |trace|
  {
    if trace != [] {
      var init, c := trace[..|trace| - 1], trace[|trace| - 1];
      StoreAttrs(init, id, code);
      StoreLifecycle(init, id, code);
      ChangeIs(Store(init, code), c, id, code);
      if c.Push? { AdvanceIs(Current(Store(init, code), c.e), c.e, code); }
      hide AttrsFromEvents, AfterChange, Advance, FirstStart, FirstEnd, RestartedAfter, Sub, TypeOfId;
      AttrsGrow(AttrsIn(Store(init, code), id), trace, id);
    }
  }

  lemma AttrsGrow(attrs: map<string, string>, trace: seq<Change>, id: string)
    requires trace != [] && AttrsFromEvents(attrs, trace[..|trace| - 1], id)
    ensures var n := |trace| - 1;
            AttrsFromEvents(if Contributes(trace, n, id) then attrs + trace[n].e.attrs else attrs, trace, id)
  {
    var init, n := trace[..|trace| - 1], |trace| - 1;
    forall a ensures AttrSource(trace, id, a)
                     == if Contributes(trace, n, id) && a in trace[n].e.attrs then Some(n) else AttrSource(init, id, a) {}
    hide AttrSource, Contributes;
  }

  // ---- History -------------------------------------------------------------------------------

  type History = map<EventType, seq<Event>>

  /** The maximum count per event type; 0 or no policy means unlimited. */
  type Retention = map<EventType, nat>

  function HistoryOf(h: History, t: EventType): seq<Event> {
    if t in h then h[t] else []
  }

  function Retain(s: seq<Event>, t: EventType, max: Retention): seq<Event> {
    if t in max && max[t] > 0 then LastN(s, max[t]) else s
  }

  function Record(h: History, e: Event, max: Retention): History {
    h[e.typ := Retain(HistoryOf(h, e.typ) + [e], e.typ, max)]
  }

  lemma RetainIs(s: seq<Event>, t: EventType, max: Retention, now: Retention)
    requires (t in now <==> t in max) && (t in max ==> now[t] == max[t])
    ensures Retain(s, t, now) == if t in max && 0 < max[t] then LastN(s, max[t]) else s
  {
  }

  lemma RetainAppend(h: seq<Event>, all: seq<Event>, e: Event, max: Retention)
    requires IsSuffix(h, all)
    ensures IsSuffix(Retain(h + [e], e.typ, max), all + [e])
    ensures h == Retain(all, e.typ, max) ==> Retain(h + [e], e.typ, max) == Retain(all + [e], e.typ, max)
  {
    SuffixAppend(h, all, e);
    SuffixOfSuffix(Retain(h + [e], e.typ, max), h + [e], all + [e]);
    if e.typ in max {
      LastNAppend(all, e, max[e.typ]);
    }
  }

  lemma RecordKeepsRecent(h: History, own: seq<Event>, e: Event, max: Retention, t: EventType)
    requires IsSuffix(HistoryOf(h, t), own)
    ensures var h', own' := HistoryOf(Record(h, e, max), t), if e.typ == t then own + [e] else own;
            && IsSuffix(h', own')
            && (HistoryOf(h, t) == Retain(own, t, max) ==> h' == Retain(own', t, max))
  {
    if e.typ == t {
      RetainAppend(HistoryOf(h, t), own, e, max);
    }
  }

  /** A push into the history, or a change of retention policy. */
  datatype HistoryOp = Pushed(e: Event) | Retained(t: EventType, maxCount: nat)

  /** History lists and policies after a run of operations on an engine created with policies `max`. */
  function Histories(ops: seq<HistoryOp>, max: Retention): (History, Retention) {
    if ops == [] then (map[], max)
    else
      var (h, m) := Histories(ops[..|ops| - 1], max);
      match ops[|ops| - 1]
      case Pushed(e) => (Record(h, e, m), m)
      case Retained(t, n) => (h, m[t := n])
  }

  function PushedOfType(ops: seq<HistoryOp>, t: EventType): seq<Event> {
    if ops == [] then []
    else
      var before := PushedOfType(ops[..|ops| - 1], t);
      match ops[|ops| - 1]
      case Pushed(e) => if e.typ == t then before + [e] else before
      case Retained(_, _) => before
  }

  /** Whatever policies were in force, a history list is the most recent events of its type. */
  lemma {:induction false} HistoryIsMostRecent(ops: seq<HistoryOp>, max: Retention, t: EventType)
    ensures IsSuffix(HistoryOf(Histories(ops, max).0, t), PushedOfType(ops, t))
    decreases |ops|
  {
    if ops != [] {
      var init, last := ops[..|ops| - 1], ops[|ops| - 1];
      HistoryIsMostRecent(init, max, t);
      var (h, m) := Histories(init, max);
      if last.Pushed? {
        RecordKeepsRecent(h, PushedOfType(init, t), last.e, m, t);
      }
    }
  }

  /** Under one policy for its type from the start, it is exactly the last maxCount of them. */
  lemma {:induction false} HistoryIsLastOfType(ops: seq<HistoryOp>, max: Retention, t: EventType)
    requires forall i :: 0 <= i < |ops| && ops[i].Retained? ==> ops[i].t != t
    ensures var own := PushedOfType(ops, t);
            HistoryOf(Histories(ops, max).0, t) == if t in max && 0 < max[t] then LastN(own, max[t]) else own
    ensures t in Histories(ops, max).1 <==> t in max
    ensures t in max ==> Histories(ops, max).1[t] == max[t]
    decreases |ops|
  {
    if ops != [] {
      var init, last := ops[..|ops| - 1], ops[|ops| - 1];
      HistoryIsLastOfType(init, max, t);
      HistoryIsMostRecent(init, max, t);
      var (h, m) := Histories(init, max);
      if last.Pushed? {
        hide Retain, LastN, Record, IsSuffix;
        RecordKeepsRecent(h, PushedOfType(init, t), last.e, m, t);
        RetainIs(PushedOfType(ops, t), t, max, m);
      }
    }
  }

  lemma OneResourceChanged(before: Resources, after: Resources, e: Event, code: ParseCode)
    requires after.Keys == before.Keys + {e.resource}
    requires forall k :: k in before && k != e.resource ==> after[k] == before[k]
    requires after[e.resource] == Advance(Current(before, e), e, code)
    ensures after == AfterEvent(before, e, code)
  {
  }

  // ---- The engine as the source runs it --------------------------------------------------------

  /** A tracked resource, changed in place. */
  class ResourceState {
    var id: string
    var typ: string
    var displayLabel: string
    var parentId: string
    var status: Status
    var createdAt: Time
    var startedAt: Time
    var finishedAt: Option<Time>
    var duration: Option<int>
    var attrs: map<string, string>
    var exitCode: Option<int>

    function Value(): Resource
      reads this
    {
      Resource(id, typ, displayLabel, parentId, status, createdAt, startedAt, finishedAt, duration, attrs, exitCode)
    }

    constructor (e: Event)
      ensures Value() == NewResource(e)
    {
      id, typ, displayLabel, parentId := e.resource, TypeOfId(e.resource), e.message, e.parent;
      status, createdAt, startedAt, finishedAt, duration := Pending, e.timestamp, ZERO_TIME, None, None;
      attrs, exitCode := map[], None;
    }

    /** The start block of applyEvent. */
    method Start(e: Event)
      modifies this
      ensures Value() == StartResource(old(Value()), e)
    {
      if IsStartType(e.typ) && startedAt == ZERO_TIME {
        status := Active;
        startedAt := e.timestamp;
        if createdAt == ZERO_TIME {
          createdAt := e.timestamp;
        }
        attrs := attrs + e.attrs;
        displayLabel := e.message;
      }
    }

    /** The end block of applyEvent. */
    method End(e: Event, code: ParseCode)
      modifies this
      ensures Value() == EndResource(old(Value()), e, code)
    {
      if IsEndType(e.typ) && finishedAt.None? {
        status := TerminalStatus(e.typ);
        finishedAt := Some(e.timestamp);
        duration := Some(Sub(e.timestamp, startedAt));
        attrs := attrs + e.attrs;
        if "exit_code" in e.attrs {
          exitCode := Some(code(e.attrs["exit_code"]));
        }
      }
    }

    /** The part of applyEvent that mutates the resource. */
    method Update(e: Event, code: ParseCode)
      modifies this
      ensures Value() == Advance(old(Value()), e, code)
    {
      Start(e);
      End(e, code);
      if !IsStartType(e.typ) && !IsEndType(e.typ) {
        attrs := attrs + e.attrs;
      }
    }
  }

  class StateCache {
    var resources: map<string, ResourceState>
    var version: nat
    ghost var Repr: set<ResourceState>

    /** No two names share a resource object. */
    ghost predicate Valid()
      reads this`resources, this`Repr
    {
      && (forall k :: k in resources ==> resources[k] in Repr)
      && (forall a, b :: a in resources && b in resources && a != b ==> resources[a] != resources[b])
    }

    ghost function View(): Resources
      requires Valid()
      reads this`resources, this`Repr, Repr
    {
      map k | k in resources :: resources[k].Value()
    }

    constructor ()
      ensures Valid() && View() == map[] && version == 0 && fresh(Repr)
    {
      resources, version, Repr := map[], 0, {};
    }

    method FindOrCreate(e: Event) returns (rs: ResourceState)
      requires Valid()
      modifies this`resources, this`Repr
      ensures Valid() && old(Repr) <= Repr && fresh(Repr - old(Repr))
      ensures e.resource in resources && rs == resources[e.resource] && rs.Value() == Current(old(View()), e)
      ensures resources == old(resources)[e.resource := rs]
      ensures e.resource in old(resources) ==> rs == old(resources[e.resource])
    {
      if e.resource !in resources {
        var created := new ResourceState(e);
        resources, Repr := resources[e.resource := created], Repr + {created};
      }
      rs := resources[e.resource];
    }

    method ApplyEvent(e: Event, code: ParseCode)
      requires Valid()
      modifies this, Repr
      ensures Valid() && old(Repr) <= Repr && fresh(Repr - old(Repr))
      ensures View() == AfterEvent(old(View()), e, code)
      ensures version == old(version) + 1
    {
      ghost var before := View();
      var rs := FindOrCreate(e);
      rs.Update(e, code);
      version := version + 1;
      OneResourceChanged(before, View(), e, code);
    }
  }

  class Engine {
    const state: StateCache
    const code: ParseCode
    var history: History
    var retention: Retention

    constructor (retention: Retention, code: ParseCode)
      ensures state.Valid() && state.View() == Store([], code) && (history, this.retention) == Histories([], retention)
      ensures this.code == code && fresh(state) && fresh(state.Repr)
    {
      this.retention, this.code, history := retention, code, map[];
      state := new StateCache();
    }

    /** The history half of PushEvent. */
    method AppendHistory(e: Event)
      modifies this`history
      ensures history == Record(old(history), e, retention)
      ensures var all := (if e.typ in old(history) then old(history)[e.typ] else []) + [e];
              var n := if e.typ in retention && 0 < retention[e.typ] < |all| then retention[e.typ] else |all|;
              history == old(history)[e.typ := all[|all| - n..]]
    {
      var h := (if e.typ in history then history[e.typ] else []) + [e];
      if e.typ in retention && retention[e.typ] > 0 && |h| > retention[e.typ] {
        h := h[|h| - retention[e.typ]..];
      }
      history := history[e.typ := h];
    }

    method PushEvent(e: Event)
      requires state.Valid()
      modifies this`history, state, state.Repr
      ensures state.Valid() && old(state.Repr) <= state.Repr && fresh(state.Repr - old(state.Repr))
      ensures state.View() == AfterEvent(old(state.View()), e, code)
      ensures history == Record(old(history), e, retention)
      ensures state.version == old(state.version) + 1
    {
      state.ApplyEvent(e, code);
      AppendHistory(e);
    }

    method UpdateParent(id: string, newParent: string)
      requires state.Valid()
      modifies state, state.Repr
      ensures state.Valid() && state.Repr == old(state.Repr)
      ensures state.View() == AfterChange(old(state.View()), Reparent(id, newParent), code)
      ensures state.version == old(state.version) + if id in old(state.View()) then 1 else 0
    {
      if id !in state.resources {
        return;
      }
      var rs := state.resources[id];
      rs.parentId := newParent;
      state.version := state.version + 1;
    }

    /** Loosening or tightening a policy touches no list until the next push of that type. */
    method SetRetention(t: EventType, maxCount: nat)
      modifies this`retention
      ensures retention == old(retention)[t := maxCount]
    {
      retention := retention[t := maxCount];
    }
  }
}
