/** The plugin manager: load, unload and reload over the plugin, supervisor and dependency maps. */
module PluginManager {
  import opened Seqs
  import opened DependencyGraph

  // ---- The manager's maps and its two atomic changes --------------------------

  /** How one build-and-launch attempt ends: before registration, at the supervisor, or well. */
  datatype LoadResult = Registered | BuildFailed | SupervisorFailed

  /** What one attempt sees of the world: the dependencies its go.mod lists, and how it ends. */
  datatype Outcome = Outcome(deps: seq<string>, result: LoadResult)

  datatype Step = Load(name: string, outcome: Outcome) | Unload(name: string)

  datatype State = State(plugins: set<string>, supervisors: set<string>, depGraph: Graph)

  /** The loaded plugins other than `name` whose recorded dependencies list it. */
  function Dependents(s: State, name: string): set<string> {
    set p | p in s.depGraph && p != name && p in s.plugins && name in s.depGraph[p]
  }

  function Apply(s: State, step: Step): State {
    match step
    case Load(name, Outcome(deps, result)) =>
      var g := s.depGraph[name := deps];
      (match result
       case BuildFailed => s.(depGraph := g)
       case Registered => State(s.plugins + {name}, s.supervisors + {name}, g)
       case SupervisorFailed => State(s.plugins - {name}, s.supervisors, g))
    case Unload(name) =>
      if Dependents(s, name) != {} then s
      else State(s.plugins - {name}, s.supervisors - {name}, s.depGraph - {name})
  }

  function Run(s: State, steps: seq<Step>): State
    decreases |steps|
  {
    if steps == [] then s else Run(Apply(s, steps[0]), steps[1..])
  }

  lemma {:induction false} RunConcat(s: State, a: seq<Step>, b: seq<Step>)
    ensures Run(s, a + b) == Run(Run(s, a), b)
    decreases |a|
  {
    if a == [] {
      assert a + b == b;
    } else {
      assert (a + b)[1..] == a[1..] + b;
      RunConcat(Apply(s, a[0]), a[1..], b);
    }
  }

  lemma RunSnoc(s: State, a: seq<Step>, step: Step)
    ensures Run(s, a + [step]) == Apply(Run(s, a), step)
  {
    RunConcat(s, a, [step]);
    assert [step][1..] == [];
  }

  lemma TakeStep(s: State, history: seq<Step>, steps: seq<Step>, step: Step, rest: seq<Step>)
    requires steps == [step] + rest
    ensures Run(s, steps) == Run(Apply(s, step), rest)
    ensures history + steps == history + [step] + rest
  {
    assert steps[1..] == rest;
  }

  // ---- No dependency is pulled out from under a loaded plugin -------------------

  /** Plugin p and its recorded dependency d are both loaded. */
  predicate LoadedPair(s: State, p: string, d: string) {
    p in s.plugins && d in s.plugins && p in s.depGraph && d in s.depGraph[p]
  }

  /** Every loaded pair of s is still one in t, unless its plugin is gone. */
  ghost predicate Protects(s: State, t: State) {
    forall p, d :: LoadedPair(s, p, d) && p in t.plugins ==> LoadedPair(t, p, d)
  }

  /** A load of a plugin that is already loaded, ending in the loss of a pair. */
  ghost predicate BadReload(s: State, step: Step) {
    && step.Load? && step.name in s.plugins
    && if step.outcome.result == SupervisorFailed then Dependents(s, step.name) != {}
       else exists d :: LoadedPair(s, step.name, d) && d !in step.outcome.deps
  }

  /** The exact condition: only loading a loaded plugin again can pull a dependency out. */
  lemma {:induction false} StepProtectsIff(s: State, step: Step)
    ensures Protects(s, Apply(s, step)) <==> !BadReload(s, step)
  {
    var t := Apply(s, step);
    if BadReload(s, step) {
      if step.outcome.result == SupervisorFailed {
        var p :| p in Dependents(s, step.name);
        assert LoadedPair(s, p, step.name) && p in t.plugins && !LoadedPair(t, p, step.name);
      } else {
        var d :| LoadedPair(s, step.name, d) && d !in step.outcome.deps;
        assert step.name in t.plugins && !LoadedPair(t, step.name, d);
      }
    } else {
      assert forall p :: LoadedPair(s, p, step.name) && p != step.name ==> p in Dependents(s, step.name);
    }
  }

  /** Loaded plugins have a dependency entry and are exactly the supervised ones. */
  ghost predicate Consistent(s: State) {
    s.plugins <= s.depGraph.Keys && s.supervisors == s.plugins
  }

  predicate Fresh(s: State, step: Step) {
    step.Load? ==> step.name !in s.plugins
  }

  ghost predicate FreshRun(s: State, steps: seq<Step>) {
    forall k {:trigger steps[..k]} :: 0 <= k < |steps| ==> Fresh(Run(s, steps[..k]), steps[k])
  }

  lemma {:induction false} FreshRunTail(s: State, steps: seq<Step>)
    requires FreshRun(s, steps) && steps != []
    ensures Fresh(s, steps[0]) && FreshRun(Apply(s, steps[0]), steps[1..])
  {
    assert steps[..0] == [];
    forall k | 0 <= k < |steps| - 1 ensures Fresh(Run(Apply(s, steps[0]), steps[1..][..k]), steps[1..][k]) {
      assert steps[..k + 1][1..] == steps[1..][..k];
    }
  }

  lemma {:induction false} FreshRunCons(s: State, step: Step, rest: seq<Step>)
    requires Fresh(s, step) && FreshRun(Apply(s, step), rest)
    ensures FreshRun(s, [step] + rest)
  {
    var steps := [step] + rest;
    forall k | 0 <= k < |steps| ensures Fresh(Run(s, steps[..k]), steps[k]) {
      if k > 0 {
        assert steps[..k] == [step] + rest[..k - 1];
        assert steps[..k][1..] == rest[..k - 1];
      }
    }
  }

  lemma {:induction false} FreshRunConcat(s: State, a: seq<Step>, b: seq<Step>)
    requires FreshRun(s, a) && FreshRun(Run(s, a), b)
    ensures FreshRun(s, a + b)
    decreases |a|
  {
    if a == [] {
      assert a + b == b;
    } else {
      FreshRunTail(s, a);
      FreshRunConcat(Apply(s, a[0]), a[1..], b);
      FreshRunCons(s, a[0], a[1..] + b);
      assert a + b == [a[0]] + (a[1..] + b);
    }
  }

  lemma {:induction false} ConsistentKept(s: State, steps: seq<Step>)
    requires Consistent(s) && FreshRun(s, steps)
    ensures Consistent(Run(s, steps))
    decreases |steps|
  {
    if steps != [] {
      FreshRunTail(s, steps);
      ConsistentKept(Apply(s, steps[0]), steps[1..]);
    }
  }

  /** Over a whole run: from the moment both are loaded, d stays loaded for as long as p does. */
  lemma {:induction false} DependencyOutlivesDependent(s: State, steps: seq<Step>, i: nat, j: nat, p: string, d: string)
    requires FreshRun(s, steps) && i <= j <= |steps|
    requires LoadedPair(Run(s, steps[..i]), p, d)
    requires forall k :: i <= k <= j ==> p in Run(s, steps[..k]).plugins
    ensures LoadedPair(Run(s, steps[..j]), p, d)
    decreases j
  {
    if i < j {
      DependencyOutlivesDependent(s, steps, i, j - 1, p, d);
      RunSnoc(s, steps[..j - 1], steps[j - 1]);
      assert steps[..j - 1] + [steps[j - 1]] == steps[..j];
      var before := Run(s, steps[..j - 1]);
      assert Fresh(before, steps[j - 1]);
      StepProtectsIff(before, steps[j - 1]);
    }
  }

  // ---- LoadPluginByName as the steps it takes -----------------------------------

  /** The plugins directory at the time of a call. A go.mod that cannot be read parses to None. */
  datatype Disk = Disk(isGoPlugin: string -> bool, parse: string -> Option<seq<string>>)

  function ParsedDeps(disk: Disk, name: string): seq<string> {
    match disk.parse(name)
    case Some(deps) => deps
    case None => []
  }

  /** The outcome of the load attempted as step number t of the history. */
  type World = (nat, string) -> Outcome

  /** The dependency loop: steps taken, and whether every attempt registered. */
  function DepSteps(s: State, disk: Disk, deps: seq<string>, world: World, t: nat): (r: (seq<Step>, bool))
    ensures !r.1 ==> r.0 != [] && r.0[|r.0| - 1].Load? && r.0[|r.0| - 1].outcome.result != Registered
    decreases |deps|
  {
    if deps == [] then ([], true)
    else if !disk.isGoPlugin(deps[0]) || deps[0] in s.plugins then DepSteps(s, disk, deps[1..], world, t)
    else
      var step := Load(deps[0], world(t, deps[0]));
      if step.outcome.result != Registered then ([step], false)
      else
        var (rest, ok) := DepSteps(Apply(s, step), disk, deps[1..], world, t + 1);
        ([step] + rest, ok)
  }

  /** The steps of a call that attempts something, with the history before it. */
  lemma LoadByNameIs(s: State, disk: Disk, name: string, deps: seq<string>, world: World, history: seq<Step>)
    requires disk.isGoPlugin(name) && name !in s.plugins && deps == ParsedDeps(disk, name)
    ensures var (steps, ok) := DepSteps(s, disk, deps, world, |history|);
            var all, last := LoadByNameSteps(s, disk, name, world, |history|), Load(name, world(|history + steps|, name));
            if ok then Run(s, all) == Apply(Run(s, steps), last) && Grew(history, history + steps + [last], all)
            else all == steps
  {
    var steps := DepSteps(s, disk, deps, world, |history|).0;
    RunSnoc(s, steps, Load(name, world(|history + steps|, name)));
    hide Run, Apply, DepSteps;
    Assoc(history, steps, [Load(name, world(|history + steps|, name))]);
  }

  /** A turn of the dependency loop that attempts nothing. */
  lemma SkipDep(s: State, disk: Disk, deps: seq<string>, i: nat, world: World, t: nat)
    requires i < |deps| && (!disk.isGoPlugin(deps[i]) || deps[i] in s.plugins)
    ensures DepSteps(s, disk, deps[i..], world, t) == DepSteps(s, disk, deps[i + 1..], world, t)
  {
    assert deps[i..][1..] == deps[i + 1..];
  }

  lemma NoDepLeft(s: State, disk: Disk, deps: seq<string>, world: World, t: nat)
    requires deps == []
    ensures DepSteps(s, disk, deps, world, t) == ([], true) && Run(s, []) == s && RegisteredNames([]) == []
  {
  }

  /** A turn that attempts a load, with the history and the report before it. */
  lemma TakeDep(s: State, disk: Disk, deps: seq<string>, i: nat, world: World, history: seq<Step>, loadedDeps: seq<string>)
    requires i < |deps| && disk.isGoPlugin(deps[i]) && deps[i] !in s.plugins
    ensures var (steps, ok) := DepSteps(s, disk, deps[i..], world, |history|);
            var step := Load(deps[i], world(|history|, deps[i]));
            var s1, h1 := Apply(s, step), history + [step];
            var (later, ok1) := DepSteps(s1, disk, deps[i + 1..], world, |h1|);
            if step.outcome.result != Registered then
              !ok && steps == [step] && Run(s, steps) == s1 && RegisteredNames(steps) == []
            else
              && ok == ok1 && Run(s, steps) == Run(s1, later) && history + steps == h1 + later
              && loadedDeps + RegisteredNames(steps) == loadedDeps + [deps[i]] + RegisteredNames(later)
  {
    var step := Load(deps[i], world(|history|, deps[i]));
    var later := DepSteps(Apply(s, step), disk, deps[i + 1..], world, |history| + 1).0;
    assert deps[i..][1..] == deps[i + 1..];
    assert ([step] + later)[1..] == later && [step][1..] == [];
    Assoc(history, [step], later);
    Assoc(loadedDeps, [deps[i]], RegisteredNames(later));
    hide Apply;
  }

  function LoadByNameSteps(s: State, disk: Disk, name: string, world: World, t: nat): seq<Step> {
    if !disk.isGoPlugin(name) || name in s.plugins then []
    else
      var (steps, ok) := DepSteps(s, disk, ParsedDeps(disk, name), world, t);
      if ok then steps + [Load(name, world(t + |steps|, name))] else steps
  }

  lemma {:induction false} DepStepsFresh(s: State, disk: Disk, deps: seq<string>, world: World, t: nat)
    ensures var (steps, ok) := DepSteps(s, disk, deps, world, t);
            && FreshRun(s, steps)
            && (forall i :: 0 <= i < |steps| ==> steps[i].Load? && steps[i].name in deps)
            && s.plugins <= Run(s, steps).plugins
            && (forall x :: x in Run(s, steps).plugins ==> x in s.plugins || (x in deps && disk.isGoPlugin(x)))
            && (ok ==> forall d :: d in deps && disk.isGoPlugin(d) ==> d in Run(s, steps).plugins)
    decreases |deps|
  {
    if deps == [] {
    } else if !disk.isGoPlugin(deps[0]) || deps[0] in s.plugins {
      DepStepsFresh(s, disk, deps[1..], world, t);
    } else {
      var step := Load(deps[0], world(t, deps[0]));
      var s1 := Apply(s, step);
      if step.outcome.result == Registered {
        DepStepsFresh(s1, disk, deps[1..], world, t + 1);
        var (rest, ok) := DepSteps(s1, disk, deps[1..], world, t + 1);
        FreshRunCons(s, step, rest);
        assert ([step] + rest)[1..] == rest;
      } else {
        FreshRunCons(s, step, []);
        assert [step] + [] == [step] && [step][1..] == [];
      }
    }
  }

  /** The call will load the plugin, and once already as a dependency of itself. */
  predicate LoadsItself(s: State, disk: Disk, name: string) {
    disk.isGoPlugin(name) && name !in s.plugins && name in ParsedDeps(disk, name)
  }

  lemma {:induction false} LoadByNameFresh(s: State, disk: Disk, name: string, world: World, t: nat)
    requires !LoadsItself(s, disk, name)
    ensures FreshRun(s, LoadByNameSteps(s, disk, name, world, t))
  {
    if disk.isGoPlugin(name) && name !in s.plugins {
      var deps := ParsedDeps(disk, name);
      DepStepsFresh(s, disk, deps, world, t);
      var (steps, ok) := DepSteps(s, disk, deps, world, t);
      var s1 := Run(s, steps);
      var last := Load(name, world(t + |steps|, name));
      FreshRunCons(s1, last, []);
      assert [last] + [] == [last];
      FreshRunConcat(s, steps, [last]);
    }
  }

  /** Whatever the attempts come to, a call loads only plugins not loaded, exactly when it does not load itself. */
  lemma {:induction false} LoadByNameFreshIff(s: State, disk: Disk, name: string)
    ensures (forall world, t :: FreshRun(s, LoadByNameSteps(s, disk, name, world, t))) <==> !LoadsItself(s, disk, name)
  {
    if LoadsItself(s, disk, name) {
      var deps := ParsedDeps(disk, name);
      var world: World := (t: nat, n: string) => Outcome([], Registered);
      AllRegister(s, disk, deps, world, 0);
      DepStepsFresh(s, disk, deps, world, 0);
      var steps := DepSteps(s, disk, deps, world, 0).0;
      var all := LoadByNameSteps(s, disk, name, world, 0);
      assert all[..|steps|] == steps && all[|steps|] == Load(name, world(|steps|, name));
      assert !Fresh(Run(s, all[..|steps|]), all[|steps|]);
    } else {
      forall world, t ensures FreshRun(s, LoadByNameSteps(s, disk, name, world, t)) {
        LoadByNameFresh(s, disk, name, world, t);
      }
    }
  }

  lemma {:induction false} AllRegister(s: State, disk: Disk, deps: seq<string>, world: World, t: nat)
    requires forall k, n :: world(k, n).result == Registered
    ensures DepSteps(s, disk, deps, world, t).1
    decreases |deps|
  {
    if deps == [] {
    } else if !disk.isGoPlugin(deps[0]) || deps[0] in s.plugins {
      AllRegister(s, disk, deps[1..], world, t);
    } else {
      AllRegister(Apply(s, Load(deps[0], world(t, deps[0]))), disk, deps[1..], world, t + 1);
    }
  }

  // ---- What a call reports as loaded -----------------------------------------------

  function RegisteredNames(steps: seq<Step>): seq<string> {
    if steps == [] then []
    else
      var rest := RegisteredNames(steps[1..]);
      if steps[0].Load? && steps[0].outcome.result == Registered then [steps[0].name] + rest else rest
  }

  lemma {:induction false} RegisteredNamesSnoc(steps: seq<Step>, step: Step)
    ensures RegisteredNames(steps + [step]) == RegisteredNames(steps) + RegisteredNames([step])
  {
    if steps == [] {
      assert [] + [step] == [step];
    } else {
      assert (steps + [step])[1..] == steps[1..] + [step];
      RegisteredNamesSnoc(steps[1..], step);
    }
  }

  /** In a fresh run of loads, the attempts that registered are those of the plugins loaded since, each once. */
  lemma {:induction false} RegisteredAreNew(s: State, steps: seq<Step>)
    requires FreshRun(s, steps) && forall k :: 0 <= k < |steps| ==> steps[k].Load?
    ensures NoDuplicates(RegisteredNames(steps))
    ensures forall x :: x in RegisteredNames(steps) <==> x in Run(s, steps).plugins && x !in s.plugins
    ensures s.plugins <= Run(s, steps).plugins
    decreases |steps|
  {
    if steps != [] {
      FreshRunTail(s, steps);
      RegisteredAreNew(Apply(s, steps[0]), steps[1..]);
    }
  }

  /** The dependencies a load by name reports are those it loaded, each once and in the order of go.mod. */
  lemma ReportedDepsAreNew(s: State, disk: Disk, deps: seq<string>, world: World, t: nat)
    ensures var steps := DepSteps(s, disk, deps, world, t).0;
            && NoDuplicates(RegisteredNames(steps))
            && (forall x :: x in RegisteredNames(steps) <==> x in Run(s, steps).plugins && x !in s.plugins)
  {
    DepStepsFresh(s, disk, deps, world, t);
    RegisteredAreNew(s, DepSteps(s, disk, deps, world, t).0);
  }

  /** The direct dependencies that are on disk. */
  function DirectOnDisk(disk: Disk, name: string): set<string> {
    set d | d in ParsedDeps(disk, name) && disk.isGoPlugin(d)
  }

  /** Every attempt of the call registers, the plugin's own included. */
  predicate Succeeds(s: State, disk: Disk, name: string, world: World, t: nat) {
    var (steps, ok) := DepSteps(s, disk, ParsedDeps(disk, name), world, t);
    disk.isGoPlugin(name) && name !in s.plugins && ok && world(t + |steps|, name).result == Registered
  }

  /**
   * What a call loads: in every case loaded plugins stay and only the plugin and its direct dependencies on disk can be
   * added; on success exactly these are loaded besides what was.
   */
  lemma {:induction false} LoadByNameLoadsDirectOnly(s: State, disk: Disk, name: string, world: World, t: nat)
    ensures var s' := Run(s, LoadByNameSteps(s, disk, name, world, t));
            && s.plugins <= s'.plugins <= s.plugins + {name} + DirectOnDisk(disk, name)
            && (Succeeds(s, disk, name, world, t) ==> s'.plugins == s.plugins + {name} + DirectOnDisk(disk, name))
  {
    if disk.isGoPlugin(name) && name !in s.plugins {
      var deps := ParsedDeps(disk, name);
      DepStepsFresh(s, disk, deps, world, t);
      var (steps, ok) := DepSteps(s, disk, deps, world, t);
      var last := Load(name, world(t + |steps|, name));
      RunSnoc(s, steps, last);
      hide Run, DepSteps, FreshRun;
    }
  }

  /** x is reached from a plugin through dependencies on disk, in that many steps. */
  ghost predicate Needs(disk: Disk, name: string, x: string, n: nat)
    decreases n
  {
    if n == 0 then x == name
    else exists d :: d in DirectOnDisk(disk, name) && Needs(disk, d, x, n - 1)
  }

  /** The on-disk dependencies of these plugins are among them. */
  ghost predicate DepsWithin(disk: Disk, plugins: set<string>, all: set<string>) {
    forall x :: x in plugins ==> DirectOnDisk(disk, x) <= all
  }

  lemma {:induction false} NeedsStayWithin(disk: Disk, all: set<string>, name: string, x: string, n: nat)
    requires DepsWithin(disk, all, all) && name in all && Needs(disk, name, x, n)
    ensures x in all
    decreases n
  {
    if n > 0 {
      var d :| d in DirectOnDisk(disk, name) && Needs(disk, d, x, n - 1);
      NeedsStayWithin(disk, all, d, x, n - 1);
    }
  }

  /**
   * If nothing was missing before, a successful call leaves nothing missing, at any depth, exactly when what its direct
   * dependencies list on disk was loaded before, or is the plugin, or is a direct dependency itself.
   */
  lemma {:induction false} AllNeedsLoadedIff(s: State, disk: Disk, name: string, world: World, t: nat)
    requires Succeeds(s, disk, name, world, t) && DepsWithin(disk, s.plugins, s.plugins)
    ensures var s' := Run(s, LoadByNameSteps(s, disk, name, world, t));
            (forall x, n: nat :: Needs(disk, name, x, n) ==> x in s'.plugins)
            <==> DepsWithin(disk, DirectOnDisk(disk, name), s.plugins + {name} + DirectOnDisk(disk, name))
  {
    LoadByNameLoadsDirectOnly(s, disk, name, world, t);
    NeedsWithinIff(disk, name, s.plugins);
  }

  lemma NeedsWithinIff(disk: Disk, name: string, plugins: set<string>)
    requires DepsWithin(disk, plugins, plugins)
    ensures var direct := DirectOnDisk(disk, name); var all := plugins + {name} + direct;
            (forall x, n: nat :: Needs(disk, name, x, n) ==> x in all) <==> DepsWithin(disk, direct, all)
  {
    var direct := DirectOnDisk(disk, name);
    var all := plugins + {name} + direct;
    if DepsWithin(disk, direct, all) {
      assert DepsWithin(disk, all, all);
      forall x, n: nat | Needs(disk, name, x, n) ensures x in all {
        NeedsStayWithin(disk, all, name, x, n);
      }
    }
    if d :| d in direct && !(DirectOnDisk(disk, d) <= all) {
      var e :| e in DirectOnDisk(disk, d) && e !in all;
      assert Needs(disk, e, e, 0);
      assert Needs(disk, d, e, 1);
      assert Needs(disk, name, e, 2);
    }
  }

  lemma OneDependencyByName(s: State, disk: Disk, name: string, d: string, world: World)
    requires disk.isGoPlugin(name) && name !in s.plugins && ParsedDeps(disk, name) == [d]
    requires disk.isGoPlugin(d) && d !in s.plugins && world(0, d).result == Registered
    ensures var l0, l1 := Load(d, world(0, d)), Load(name, world(1, name));
            && LoadByNameSteps(s, disk, name, world, 0) == [l0, l1]
            && Run(s, [l0]) == Apply(s, l0)
            && Run(s, [l0, l1]) == Apply(Apply(s, l0), l1)
  {
    var l0, l1 := Load(d, world(0, d)), Load(name, world(1, name));
    assert [d][1..] == [];
    assert DepSteps(Apply(s, l0), disk, [d][1..], world, 1) == ([], true);
    assert [l0] + [] == [l0] && [l0] + [l1] == [l0, l1];
    assert [l0, l1][1..] == [l1] && [l1][1..] == [] && [l0][1..] == [];
    assert Run(Apply(s, l0), [l1]) == Apply(Apply(s, l0), l1);
  }

  /** A transitive dependency that is on disk but not loaded is not loaded by name. */
  lemma TransitiveDependencyNotLoaded()
    ensures exists disk, world ::
              var s' := Run(State({}, {}, map[]), LoadByNameSteps(State({}, {}, map[]), disk, "a", world, 0));
              && disk.isGoPlugin("c") && ParsedDeps(disk, "b") == ["c"] && ParsedDeps(disk, "a") == ["b"]
              && "a" in s'.plugins && "b" in s'.plugins && "c" !in s'.plugins
  {
    var parse := (n: string) => if n == "a" then Some(["b"]) else if n == "b" then Some(["c"]) else Some([]);
    var disk := Disk((n: string) => true, parse);
    var world := (t: nat, n: string) => Outcome(ParsedDeps(disk, n), Registered);
    var s := State({}, {}, map[]);
    OneDependencyByName(s, disk, "a", "b", world);
  }

  /** A plugin that lists itself is loaded twice, and the second attempt can pull it from under q. */
  lemma SelfDependencyPulledOut()
    ensures exists disk, world, s ::
              var steps := LoadByNameSteps(s, disk, "p", world, 0);
              && Consistent(s) && |steps| == 2
              && LoadedPair(Run(s, steps[..1]), "q", "p")
              && "q" in Run(s, steps).plugins && "p" !in Run(s, steps).plugins
  {
    var disk := Disk((n: string) => true, (n: string) => Some(["p"]));
    var world := (t: nat, n: string) => Outcome(["p"], if t == 0 then Registered else SupervisorFailed);
    var s := State({"q"}, {"q"}, map["q" := ["p"]]);
    OneDependencyByName(s, disk, "p", "p", world);
    var steps := LoadByNameSteps(s, disk, "p", world, 0);
    assert steps[..1] == [steps[0]];
    assert LoadedPair(Run(s, steps[..1]), "q", "p");
  }

  // ---- ReloadPlugins as the steps it takes ---------------------------------------

  function UnloadSteps(order: seq<string>): seq<Step> {
    seq(|order|, i requires 0 <= i < |order| => Unload(order[i]))
  }

  /** Loads along the build order, skipping what is already loaded; a failure does not stop it. */
  function LoadOrderSteps(s: State, order: seq<string>, world: World, t: nat): seq<Step>
    decreases |order|
  {
    if order == [] then []
    else if order[0] in s.plugins then LoadOrderSteps(s, order[1..], world, t)
    else
      var step := Load(order[0], world(t, order[0]));
      [step] + LoadOrderSteps(Apply(s, step), order[1..], world, t + 1)
  }

  function ReloadSteps(s: State, gone: seq<string>, order: seq<string>, world: World, t: nat): seq<Step> {
    var unloads := UnloadSteps(gone);
    unloads + LoadOrderSteps(Run(s, unloads), order, world, t + |unloads|)
  }

  lemma ReloadIs(s: State, gone: seq<string>, order: seq<string>, world: World, t: nat)
    ensures var unloads := UnloadSteps(gone);
            var s1 := Run(s, unloads);
            var loads := LoadOrderSteps(s1, order, world, t + |gone|);
            && ReloadSteps(s, gone, order, world, t) == unloads + loads
            && Run(s, unloads + loads) == Run(s1, loads)
  {
    hide Apply;
    var unloads := UnloadSteps(gone);
    RunConcat(s, unloads, LoadOrderSteps(Run(s, unloads), order, world, t + |gone|));
  }

  lemma {:induction false} LoadOrderFresh(s: State, order: seq<string>, world: World, t: nat)
    ensures FreshRun(s, LoadOrderSteps(s, order, world, t))
    decreases |order|
  {
    if order == [] {
    } else if order[0] in s.plugins {
      LoadOrderFresh(s, order[1..], world, t);
    } else {
      var step := Load(order[0], world(t, order[0]));
      LoadOrderFresh(Apply(s, step), order[1..], world, t + 1);
      FreshRunCons(s, step, LoadOrderSteps(Apply(s, step), order[1..], world, t + 1));
    }
  }

  /** Whatever order the stale plugins come in, a reload only loads plugins that are not loaded. */
  lemma {:induction false} ReloadFresh(s: State, gone: seq<string>, order: seq<string>, world: World, t: nat)
    ensures FreshRun(s, ReloadSteps(s, gone, order, world, t))
  {
    var unloads := UnloadSteps(gone);
    LoadOrderFresh(Run(s, unloads), order, world, t + |unloads|);
    FreshRunConcat(s, unloads, LoadOrderSteps(Run(s, unloads), order, world, t + |unloads|));
  }

  /** Each stale plugin is preceded, in the unload order, by every loaded plugin that depends on it. */
  ghost predicate DependentsFirst(s: State, gone: seq<string>) {
    forall j, p :: 0 <= j < |gone| && p in Dependents(s, gone[j]) ==> p in gone[..j]
  }

  /**
   * "Unloading plugins whose directories no longer exist" depends on the map iteration order: the stale
   * plugins are all gone after the unload loop exactly when dependents happened to come first.
   */
  lemma {:induction false} ReloadUnloadsAllIff(s: State, gone: seq<string>)
    requires NoDuplicates(gone) && forall x :: x in gone ==> x in s.plugins
    ensures AllGone(s, gone) <==> DependentsFirst(s, gone)
    decreases |gone|
  {
    if gone == [] { return; }
    var x := gone[0];
    var s1 := Apply(s, Unload(x));
    assert UnloadSteps(gone)[0] == Unload(x);
    assert UnloadSteps(gone)[1..] == UnloadSteps(gone[1..]);
    if Dependents(s, x) != {} {
      var p :| p in Dependents(s, x);
      assert gone[..0] == [];
      assert !DependentsFirst(s, gone);
      UnloadOnlyTouches(s, gone[1..], x);
    } else {
      assert forall y :: y in gone[1..] ==> y != x;
      forall y | y in gone[1..] ensures y in s1.plugins && Dependents(s1, y) == Dependents(s, y) - {x} {}
      ReloadUnloadsAllIff(s1, gone[1..]);
      UnloadOnlyTouches(s1, gone[1..], x);
      assert DependentsFirst(s1, gone[1..]) <==> DependentsFirst(s, gone) by { DependentsFirstTail(s, gone); }
      assert forall y :: y in gone <==> y == x || y in gone[1..];
    }
  }

  /**
   * For a caller, who does not choose the order: the stale plugins are sure to go exactly when no loaded plugin
   * lists one of them, be that plugin itself stale or not.
   */
  lemma ReloadSureIff(s: State, stale: set<string>)
    requires stale <= s.plugins
    ensures (forall gone :: IsOrderOf(gone, stale) ==> AllGone(s, gone)) <==> (forall x :: x in stale ==> Dependents(s, x) == {})
  {
    if x :| x in stale && Dependents(s, x) != {} {
      var gone := [x] + SomeOrder(stale - {x});
      assert IsOrderOf(gone, stale);
      assert gone[..0] == [] && gone[0] == x;
      ReloadUnloadsAllIff(s, gone);
    } else {
      forall gone | IsOrderOf(gone, stale) ensures AllGone(s, gone) {
        ReloadUnloadsAllIff(s, gone);
      }
    }
  }

  ghost predicate IsOrderOf(gone: seq<string>, stale: set<string>) {
    NoDuplicates(gone) && forall x :: x in gone <==> x in stale
  }

  ghost predicate AllGone(s: State, gone: seq<string>) {
    forall x :: x in gone ==> x !in Run(s, UnloadSteps(gone)).plugins
  }

  ghost function SomeOrder(names: set<string>): (order: seq<string>)
    ensures IsOrderOf(order, names)
  {
    if names == {} then []
    else
      var x :| x in names;
      [x] + SomeOrder(names - {x})
  }

  /** Of two stale plugins, the one the other lists stays when it is visited first. */
  lemma DependencyFirstStays()
    ensures var s := State({"a", "b"}, {"a", "b"}, map["a" := [], "b" := ["a"]]);
            Run(s, UnloadSteps(["a", "b"])).plugins == {"a"} && Run(s, UnloadSteps(["b", "a"])).plugins == {}
  {
    var s := State({"a", "b"}, {"a", "b"}, map["a" := [], "b" := ["a"]]);
    var ua, ub := Unload("a"), Unload("b");
    assert UnloadSteps(["a", "b"]) == [ua] + [ub] && UnloadSteps(["b", "a"]) == [ub] + [ua];
    RunSnoc(s, [ua], ub);
    RunSnoc(s, [ub], ua);
    assert "b" in Dependents(s, "a") && Dependents(s, "b") == {};
    var sa, sb := Apply(s, ua), Apply(s, ub);
    assert Run(s, [ua]) == sa && Run(s, [ub]) == sb by { assert [ua][1..] == [] && [ub][1..] == []; }
    assert sa == s && sb.plugins == {"a"} && Dependents(sb, "a") == {};
  }

  /** The names not in the set, in their order. */
  function Without(names: seq<string>, left: set<string>): (kept: seq<string>)
    ensures forall x :: x in kept <==> x in names && x !in left
  {
    if names == [] then []
    else
      var rest := Without(names[..|names| - 1], left);
      if names[|names| - 1] in left then rest else rest + [names[|names| - 1]]
  }

  lemma {:induction false} WithoutOnlyAsks(names: seq<string>, left: set<string>, x: string)
    requires x !in names
    ensures Without(names, left - {x}) == Without(names, left)
  {
    if names != [] { WithoutOnlyAsks(names[..|names| - 1], left, x); }
  }

  lemma {:induction false} UnloadOnlyTouches(s: State, gone: seq<string>, x: string)
    requires x !in gone
    ensures x in Run(s, UnloadSteps(gone)).plugins <==> x in s.plugins
    decreases |gone|
  {
    if gone != [] {
      assert UnloadSteps(gone)[0] == Unload(gone[0]);
      assert UnloadSteps(gone)[1..] == UnloadSteps(gone[1..]);
      UnloadOnlyTouches(Apply(s, Unload(gone[0])), gone[1..], x);
    }
  }

  lemma {:induction false} DependentsFirstTail(s: State, gone: seq<string>)
    requires gone != [] && NoDuplicates(gone) && Dependents(s, gone[0]) == {}
    ensures DependentsFirst(Apply(s, Unload(gone[0])), gone[1..]) <==> DependentsFirst(s, gone)
  {
    var x := gone[0];
    var s1 := Apply(s, Unload(x));
    forall j | 0 <= j < |gone| - 1
      ensures Dependents(s1, gone[1..][j]) == Dependents(s, gone[j + 1]) - {x}
      ensures gone[..j + 1] == [x] + gone[1..][..j]
    {
      assert gone[j + 1] != x;
    }
    if DependentsFirst(s, gone) {
      forall j, p | 0 <= j < |gone| - 1 && p in Dependents(s1, gone[1..][j]) ensures p in gone[1..][..j] {
        assert p in Dependents(s, gone[j + 1]) && p in gone[..j + 1] && p != x;
      }
    }
    if DependentsFirst(s1, gone[1..]) {
      forall j, p | 0 <= j < |gone| && p in Dependents(s, gone[j]) ensures p in gone[..j] {
        if j > 0 && p != x {
          assert p in Dependents(s1, gone[1..][j - 1]);
        }
      }
    }
  }

  /** What a reload reports: each stale plugin that went, and each plugin its load loop added, once. */
  lemma {:induction false} ReloadReports(s: State, gone: seq<string>, order: seq<string>, world: World, t: nat)
    requires NoDuplicates(gone) && forall x :: x in gone ==> x in s.plugins
    ensures var s1 := Run(s, UnloadSteps(gone));
            var s2 := Run(s, ReloadSteps(s, gone, order, world, t));
            var unloaded, loaded := Without(gone, s1.plugins), RegisteredNames(LoadOrderSteps(s1, order, world, t + |gone|));
            && NoDuplicates(unloaded) && NoDuplicates(loaded)
            && (forall x :: x in unloaded <==> x in s.plugins && x !in s1.plugins)
            && (forall x :: x in loaded <==> x in s2.plugins && x !in s1.plugins)
  {
    var s1 := Run(s, UnloadSteps(gone));
    var loads := LoadOrderSteps(s1, order, world, t + |gone|);
    RunConcat(s, UnloadSteps(gone), loads);
    LoadOrderFresh(s1, order, world, t + |gone|);
    LoadOrderLoads(s1, order, world, t + |gone|);
    RegisteredAreNew(s1, loads);
    WithoutOnce(gone, s1.plugins);
    forall x | x in s.plugins && x !in s1.plugins ensures x in gone {
      if x !in gone { UnloadOnlyTouches(s, gone, x); }
    }
  }

  lemma {:induction false} LoadOrderLoads(s: State, order: seq<string>, world: World, t: nat)
    ensures forall step :: step in LoadOrderSteps(s, order, world, t) ==> step.Load?
    decreases |order|
  {
    if order == [] {
    } else if order[0] in s.plugins {
      LoadOrderLoads(s, order[1..], world, t);
    } else {
      LoadOrderLoads(Apply(s, Load(order[0], world(t, order[0]))), order[1..], world, t + 1);
    }
  }

  lemma {:induction false} WithoutOnce(names: seq<string>, left: set<string>)
    requires NoDuplicates(names)
    ensures NoDuplicates(Without(names, left))
  {
    if names != [] { WithoutOnce(names[..|names| - 1], left); }
  }

  // ---- What the load loops attempt --------------------------------------------------------------

  /** The steps are one attempt for each name, in this order, each ending as the world has it at its turn. */
  ghost predicate AttemptEach(steps: seq<Step>, names: seq<string>, world: World, t: nat) {
    |steps| == |names| && forall i :: 0 <= i < |names| ==> steps[i] == Load(names[i], world(t + i, names[i]))
  }

  /** The names whose attempt registers. */
  function Succeeded(names: seq<string>, world: World, t: nat): set<string> {
    set i | 0 <= i < |names| && world(t + i, names[i]).result == Registered :: names[i]
  }

  /** What is loaded after attempting each of the names: one that failed at the supervisor is taken back. */
  function LoadedAfter(plugins: set<string>, names: seq<string>, world: World, t: nat): set<string> {
    plugins - (set i | 0 <= i < |names| && world(t + i, names[i]).result == SupervisorFailed :: names[i])
    + Succeeded(names, world, t)
  }

  /** Attempting different names: each attempt decides about its own plugin alone. */
  lemma {:induction false} AttemptsLoad(s: State, steps: seq<Step>, names: seq<string>, world: World, t: nat)
    requires AttemptEach(steps, names, world, t) && NoDuplicates(names)
    ensures Run(s, steps).plugins == LoadedAfter(s.plugins, names, world, t)
    decreases |names|
  {
    AttemptsInit(steps, names, world, t);
    if names != [] {
      hide LoadedAfter, AttemptEach, Apply, Run;
      var n := |names| - 1;
      AttemptsLoad(s, steps[..n], names[..n], world, t);
      RunSnoc(s, steps[..n], steps[n]);
      LoadedAfterOneMore(s.plugins, names, world, t);
      LoadTouches(Run(s, steps[..n]), names[n], world(t + n, names[n]));
    }
  }

  lemma AttemptsInit(steps: seq<Step>, names: seq<string>, world: World, t: nat)
    requires AttemptEach(steps, names, world, t)
    ensures |steps| == |names|
    ensures names != [] ==>
              var n := |names| - 1;
              && AttemptEach(steps[..n], names[..n], world, t) && steps[n] == Load(names[n], world(t + n, names[n]))
              && steps[..n] + [steps[n]] == steps && (NoDuplicates(names) ==> NoDuplicates(names[..n]))
  {
  }

  lemma LoadTouches(s: State, name: string, outcome: Outcome)
    ensures Apply(s, Load(name, outcome)).plugins == match outcome.result
                                                     case Registered => s.plugins + {name}
                                                     case BuildFailed => s.plugins
                                                     case SupervisorFailed => s.plugins - {name}
  {
  }

  /** Whatever it comes to, an attempt records what the plugin lists; the last attempt's list stays. */
  lemma {:induction false} AttemptsRecord(s: State, steps: seq<Step>, names: seq<string>, world: World, t: nat, i: nat)
    requires AttemptEach(steps, names, world, t) && NoDuplicates(names) && i < |names|
    ensures var g := Run(s, steps).depGraph; names[i] in g && g[names[i]] == world(t + i, names[i]).deps
    decreases |names|
  {
    var n := |names| - 1;
    RunSnoc(s, steps[..n], steps[n]);
    assert steps[..n] + [steps[n]] == steps && steps[n] == Load(names[n], world(t + n, names[n]));
    if i < n {
      AttemptsRecord(s, steps[..n], names[..n], world, t, i);
      assert names[i] != names[n];
    }
  }

  lemma {:induction false} LoadedAfterOneMore(plugins: set<string>, names: seq<string>, world: World, t: nat)
    requires names != [] && NoDuplicates(names)
    ensures var n := |names| - 1;
            var before := LoadedAfter(plugins, names[..n], world, t);
            LoadedAfter(plugins, names, world, t) == match world(t + n, names[n]).result
                                                     case Registered => before + {names[n]}
                                                     case BuildFailed => before
                                                     case SupervisorFailed => before - {names[n]}
  {
    var n := |names| - 1;
    var init := names[..n];
    assert forall i :: 0 <= i < n ==> init[i] == names[i] != names[n];
  }

  /** Of a list without duplicates the load loop of a reload attempts exactly the names not loaded, whatever fails. */
  lemma {:induction false} ReloadAttemptsMissing(s: State, order: seq<string>, world: World, t: nat)
    requires NoDuplicates(order)
    ensures AttemptEach(LoadOrderSteps(s, order, world, t), Missing(order, s.plugins), world, t)
    decreases |order|
  {
    if order != [] {
      var step, rest := Load(order[0], world(t, order[0])), order[1..];
      LoadOrderUnfolds(s, order, world, t);
      hide LoadOrderSteps, AttemptEach;
      if order[0] in s.plugins {
        ReloadAttemptsMissing(s, rest, world, t);
      } else {
        ReloadAttemptsMissing(Apply(s, step), rest, world, t + 1);
        MissingElsewhere(rest, s.plugins, Apply(s, step).plugins, order[0]);
        AttemptFirst(LoadOrderSteps(Apply(s, step), rest, world, t + 1), order[0], Missing(rest, s.plugins), world, t);
        assert Missing(order, s.plugins) == [order[0]] + Missing(rest, s.plugins);
        hide Missing, Apply;
      }
    }
  }

  lemma LoadOrderUnfolds(s: State, order: seq<string>, world: World, t: nat)
    requires order != []
    ensures var step := Load(order[0], world(t, order[0]));
            LoadOrderSteps(s, order, world, t)
            == if order[0] in s.plugins then LoadOrderSteps(s, order[1..], world, t)
               else [step] + LoadOrderSteps(Apply(s, step), order[1..], world, t + 1)
  {
  }

  lemma AttemptFirst(rest: seq<Step>, name: string, names: seq<string>, world: World, t: nat)
    requires AttemptEach(rest, names, world, t + 1)
    ensures AttemptEach([Load(name, world(t, name))] + rest, [name] + names, world, t)
  {
    var steps, all := [Load(name, world(t, name))] + rest, [name] + names;
    forall i | 0 <= i < |all| ensures steps[i] == Load(all[i], world(t + i, all[i])) {
      if i > 0 { assert rest[i - 1] == Load(names[i - 1], world(t + 1 + (i - 1), names[i - 1])); }
    }
  }

  /** The names of the order that are not loaded, in order. */
  function Missing(order: seq<string>, loaded: set<string>): (missing: seq<string>)
    ensures forall x :: x in missing <==> x in order && x !in loaded
    ensures NoDuplicates(order) ==> NoDuplicates(missing)
  {
    if order == [] then []
    else
      assert NoDuplicates(order) ==> NoDuplicates(order[1..]) && order[0] !in order[1..];
      (if order[0] in loaded then [] else [order[0]]) + Missing(order[1..], loaded)
  }

  lemma {:induction false} MissingElsewhere(order: seq<string>, a: set<string>, b: set<string>, x: string)
    requires x !in order && a - {x} == b - {x}
    ensures Missing(order, a) == Missing(order, b)
  {
    if order != [] {
      assert order[0] in order && order[0] != x;
      assert order[0] in a <==> order[0] in a - {x};
      assert order[0] in b <==> order[0] in b - {x};
      MissingElsewhere(order[1..], a, b, x);
    }
  }

  /** What comes first in the order comes first among the missing. */
  lemma {:induction false} MissingInOrder(order: seq<string>, loaded: set<string>, i: nat, j: nat)
    requires NoDuplicates(order) && i < j < |Missing(order, loaded)|
    ensures Before(order, Missing(order, loaded)[i], Missing(order, loaded)[j])
    decreases |order|
  {
    hide Before;
    var names := Missing(order, loaded);
    var rest := Missing(order[1..], loaded);
    assert NoDuplicates(order[1..]);
    hide NoDuplicates;
    if order[0] in loaded {
      MissingInOrder(order[1..], loaded, i, j);
      BeforeInTail(order, names[i], names[j]);
    } else if i > 0 {
      MissingInOrder(order[1..], loaded, i - 1, j - 1);
      BeforeInTail(order, names[i], names[j]);
    } else {
      assert names[j] == rest[j - 1] && rest[j - 1] in order[1..];
      hide Missing, Before;
      FirstIsBefore(order, names[j]);
    }
  }

  lemma FirstIsBefore(order: seq<string>, x: string)
    requires order != [] && x in order[1..]
    ensures Before(order, order[0], x)
  {
    var k :| 0 <= k < |order[1..]| && order[1..][k] == x;
    assert order[k + 1] == x;
  }

  lemma BeforeInTail(order: seq<string>, x: string, y: string)
    requires order != [] && Before(order[1..], x, y)
    ensures Before(order, x, y)
  {
    var i, j :| 0 <= i < j < |order[1..]| && order[1..][i] == x && order[1..][j] == y;
    assert order[i + 1] == x && order[j + 1] == y;
  }

  /** The dependencies a load by name has to attempt: on disk, not loaded, each once, in the order of go.mod. */
  function Wanted(disk: Disk, deps: seq<string>, loaded: set<string>): (wanted: seq<string>)
    ensures forall x :: x in wanted <==> x in deps && disk.isGoPlugin(x) && x !in loaded
    ensures NoDuplicates(wanted)
  {
    if deps == [] then []
    else if !disk.isGoPlugin(deps[0]) || deps[0] in loaded then Wanted(disk, deps[1..], loaded)
    else [deps[0]] + Wanted(disk, deps[1..], loaded + {deps[0]})
  }

  /** One attempt after the other until one does not register. */
  ghost predicate AttemptUntilFailure(steps: seq<Step>, ok: bool, names: seq<string>, world: World, t: nat) {
    && |steps| <= |names| && AttemptEach(steps, names[..|steps|], world, t)
    && (forall i :: 0 <= i < |steps| - 1 ==> steps[i].outcome.result == Registered)
    && (ok <==> |steps| == |names| && (steps != [] ==> steps[|steps| - 1].outcome.result == Registered))
  }

  /** So does the dependency loop with the dependencies it wants. */
  lemma {:induction false} DepsAttempted(s: State, disk: Disk, deps: seq<string>, world: World, t: nat)
    ensures var (steps, ok) := DepSteps(s, disk, deps, world, t);
            AttemptUntilFailure(steps, ok, Wanted(disk, deps, s.plugins), world, t)
    decreases |deps|
  {
    if deps == [] {
    } else if !disk.isGoPlugin(deps[0]) || deps[0] in s.plugins {
      DepsAttempted(s, disk, deps[1..], world, t);
    } else {
      var step := Load(deps[0], world(t, deps[0]));
      var names := Wanted(disk, deps[1..], s.plugins + {deps[0]});
      FailedFirst(deps[0], names, world, t);
      if step.outcome.result == Registered {
        DepsAttempted(Apply(s, step), disk, deps[1..], world, t + 1);
        var (later, ok) := DepSteps(Apply(s, step), disk, deps[1..], world, t + 1);
        hide AttemptUntilFailure;
        RegisteredFirst(later, ok, deps[0], names, world, t);
      }
    }
  }

  lemma RegisteredFirst(later: seq<Step>, ok: bool, name: string, names: seq<string>, world: World, t: nat)
    requires AttemptUntilFailure(later, ok, names, world, t + 1) && world(t, name).result == Registered
    ensures AttemptUntilFailure([Load(name, world(t, name))] + later, ok, [name] + names, world, t)
  {
    AttemptFirst(later, name, names[..|later|], world, t);
    assert ([name] + names)[..|later| + 1] == [name] + names[..|later|];
    var steps := [Load(name, world(t, name))] + later;
    hide AttemptEach;
    forall i | 0 <= i < |steps| - 1 ensures steps[i].outcome.result == Registered {
      if i > 0 { assert steps[i] == later[i - 1]; }
    }
  }

  lemma FailedFirst(name: string, names: seq<string>, world: World, t: nat)
    ensures world(t, name).result != Registered ==>
              AttemptUntilFailure([Load(name, world(t, name))], false, [name] + names, world, t)
  {
    assert ([name] + names)[..1] == [name];
  }

  /** A reload's steps: one refusable unload for each stale plugin, then one attempt for each name not loaded then. */
  ghost predicate UnloadsThenAttempts(steps: seq<Step>, gone: seq<string>, names: seq<string>, world: World, t: nat) {
    && |steps| == |gone| + |names| && (forall i :: 0 <= i < |gone| ==> steps[i] == Unload(gone[i]))
    && AttemptEach(steps[|gone|..], names, world, t + |gone|)
  }

  /**
   * What a reload does and leaves: the steps above; loaded is what its unload loop left, and of the build order's other
   * names those whose attempt registered, which is also what it reports. No failure stops the attempts behind it.
   */
  ghost predicate LoadsMissing(steps: seq<Step>, plugins: set<string>, loaded: seq<string>, left: set<string>, gone: seq<string>,
                               order: seq<string>, world: World, t: nat) {
    var names := Missing(order, left);
    var succeeded := Succeeded(names, world, t + |gone|);
    && UnloadsThenAttempts(steps, gone, names, world, t)
    && plugins == left + succeeded
    && forall x :: x in loaded <==> x in succeeded
  }

  lemma ReloadLoads(s: State, gone: seq<string>, order: seq<string>, world: World, t: nat)
    requires NoDuplicates(order)
    ensures var s1 := Run(s, UnloadSteps(gone));
            LoadsMissing(ReloadSteps(s, gone, order, world, t), Run(s, ReloadSteps(s, gone, order, world, t)).plugins,
                         RegisteredNames(LoadOrderSteps(s1, order, world, t + |gone|)), s1.plugins, gone, order, world, t)
  {
    hide *;
    var unloads, t1 := UnloadSteps(gone), t + |gone|;
    var s1 := Run(s, unloads);
    var loads := LoadOrderSteps(s1, order, world, t1);
    ReloadIs(s, gone, order, world, t);
    LoopLoads(s1, order, world, t1);
    UnloadsThen(gone, loads, Missing(order, s1.plugins), world, t);
    LoadsMissingIs(unloads + loads, Run(s, unloads + loads).plugins, RegisteredNames(loads), s1.plugins, gone, order, world, t);
  }

  lemma LoadsMissingIs(steps: seq<Step>, plugins: set<string>, loaded: seq<string>, left: set<string>, gone: seq<string>,
                       order: seq<string>, world: World, t: nat)
    requires var names := Missing(order, left);
             && UnloadsThenAttempts(steps, gone, names, world, t)
             && plugins == left + Succeeded(names, world, t + |gone|)
             && forall x :: x in loaded <==> x in Succeeded(names, world, t + |gone|)
    ensures LoadsMissing(steps, plugins, loaded, left, gone, order, world, t)
  {
  }

  lemma LoopLoads(s: State, order: seq<string>, world: World, t: nat)
    requires NoDuplicates(order)
    ensures var loads, names := LoadOrderSteps(s, order, world, t), Missing(order, s.plugins);
            && AttemptEach(loads, names, world, t)
            && Run(s, loads).plugins == s.plugins + Succeeded(names, world, t)
            && forall x :: x in RegisteredNames(loads) <==> x in Succeeded(names, world, t)
  {
    var loads, names := LoadOrderSteps(s, order, world, t), Missing(order, s.plugins);
    hide Run, LoadOrderSteps, LoadedAfter, Succeeded, AttemptEach, RegisteredNames;
    ReloadAttemptsMissing(s, order, world, t);
    AttemptsLoad(s, loads, names, world, t);
    NoFailureCounts(s.plugins, names, world, t);
    AttemptsRegistered(loads, names, world, t);
  }

  lemma UnloadsThen(gone: seq<string>, loads: seq<Step>, names: seq<string>, world: World, t: nat)
    requires AttemptEach(loads, names, world, t + |gone|)
    ensures UnloadsThenAttempts(UnloadSteps(gone) + loads, gone, names, world, t)
  {
    assert (UnloadSteps(gone) + loads)[|gone|..] == loads;
    hide AttemptEach;
    assert |loads| == |names| by { AttemptsCounted(loads, names, world, t + |gone|); }
  }

  lemma AttemptsCounted(loads: seq<Step>, names: seq<string>, world: World, t: nat)
    requires AttemptEach(loads, names, world, t)
    ensures |loads| == |names|
  {
  }

  lemma OrderedOnce(deps: Graph, order: seq<string>)
    requires Ordered(deps, order)
    ensures NoDuplicates(order)
  {
  }

  /** Attempting plugins that are not loaded, none can be lost. */
  lemma NoFailureCounts(plugins: set<string>, names: seq<string>, world: World, t: nat)
    requires forall x :: x in names ==> x !in plugins
    ensures LoadedAfter(plugins, names, world, t) == plugins + Succeeded(names, world, t)
  {
    forall i | 0 <= i < |names| ensures names[i] !in plugins { assert names[i] in names; }
  }

  lemma {:induction false} AttemptsRegistered(steps: seq<Step>, names: seq<string>, world: World, t: nat)
    requires AttemptEach(steps, names, world, t)
    ensures forall x :: x in RegisteredNames(steps) <==> x in Succeeded(names, world, t)
    decreases |steps|
  {
    if steps != [] {
      forall i | 0 <= i < |names| - 1 ensures steps[1..][i] == Load(names[1..][i], world(t + 1 + i, names[1..][i])) {
        assert steps[i + 1] == Load(names[i + 1], world(t + (i + 1), names[i + 1]));
      }
      AttemptsRegistered(steps[1..], names[1..], world, t + 1);
      SucceededFirst(names, world, t);
    }
  }

  lemma SucceededFirst(names: seq<string>, world: World, t: nat)
    requires names != []
    ensures Succeeded(names, world, t)
         == (if world(t, names[0]).result == Registered then {names[0]} else {}) + Succeeded(names[1..], world, t + 1)
  {
    var rest := names[1..];
    forall i | 0 <= i < |rest| ensures rest[i] == names[i + 1] && world(t + 1 + i, rest[i]) == world(t + (i + 1), names[i + 1]) {}
    forall x | x in Succeeded(names, world, t)
      ensures x in (if world(t, names[0]).result == Registered then {names[0]} else {}) + Succeeded(rest, world, t + 1)
    {
      var i :| 0 <= i < |names| && world(t + i, names[i]).result == Registered && names[i] == x;
      if i > 0 { assert rest[i - 1] == x && world(t + 1 + (i - 1), rest[i - 1]).result == Registered; }
    }
    forall x | x in Succeeded(rest, world, t + 1) ensures x in Succeeded(names, world, t) {
      var i :| 0 <= i < |rest| && world(t + 1 + i, rest[i]).result == Registered && rest[i] == x;
      assert names[i + 1] == x && world(t + (i + 1), names[i + 1]).result == Registered;
    }
    assert world(t + 0, names[0]) == world(t, names[0]);
  }

  /** Startup attempts the whole order. */
  lemma StartupAttemptsAll(order: seq<string>, world: World, t: nat)
    ensures AttemptEach(LoadAllSteps(order, world, t), order, world, t)
  {
  }

  // ---- Startup and whole runs -------------------------------------------------------

  /** Startup loads the whole build order and checks nothing. */
  function LoadAllSteps(order: seq<string>, world: World, t: nat): seq<Step> {
    seq(|order|, i requires 0 <= i < |order| => Load(order[i], world(t + i, order[i])))
  }

  lemma {:induction false} StartupFresh(s: State, order: seq<string>, world: World, t: nat)
    requires NoDuplicates(order) && forall x :: x in order ==> x !in s.plugins
    ensures FreshRun(s, LoadAllSteps(order, world, t))
    decreases |order|
  {
    if order != [] {
      var step := Load(order[0], world(t, order[0]));
      StartupFresh(Apply(s, step), order[1..], world, t + 1);
      FreshRunCons(s, step, LoadAllSteps(order[1..], world, t + 1));
      assert LoadAllSteps(order, world, t) == [step] + LoadAllSteps(order[1..], world, t + 1);
    }
  }

  /** A call of the manager after startup, with what it finds on disk and in the map order. */
  datatype Call =
    | LoadByName(disk: Disk, name: string, world: World)
    | UnloadByName(name: string)
    | Reload(gone: seq<string>, order: seq<string>, world: World)

  function CallSteps(s: State, call: Call, t: nat): seq<Step> {
    match call
    case LoadByName(disk, name, world) => LoadByNameSteps(s, disk, name, world, t)
    case UnloadByName(name) => [Unload(name)]
    case Reload(gone, order, world) => ReloadSteps(s, gone, order, world, t)
  }

  function CallsSteps(s: State, calls: seq<Call>, t: nat): seq<Step>
    decreases |calls|
  {
    if calls == [] then []
    else
      var steps := CallSteps(s, calls[0], t);
      steps + CallsSteps(Run(s, steps), calls[1..], t + |steps|)
  }

  /** One more call takes its steps from where the others have left the manager. */
  lemma {:induction false} CallsStepsSnoc(s: State, calls: seq<Call>, call: Call, t: nat)
    ensures var before := CallsSteps(s, calls, t);
            CallsSteps(s, calls + [call], t) == before + CallSteps(Run(s, before), call, t + |before|)
    decreases |calls|
  {
    hide CallSteps;
    if calls == [] {
      assert [] + [call] == [call] && [call][1..] == [];
      var steps := CallSteps(s, call, t);
      assert steps + [] == steps && [] + steps == steps;
    } else {
      assert (calls + [call])[1..] == calls[1..] + [call];
      var steps := CallSteps(s, calls[0], t);
      var s1, t1 := Run(s, steps), t + |steps|;
      CallsStepsSnoc(s1, calls[1..], call, t1);
      var rest := CallsSteps(s1, calls[1..], t1);
      RunConcat(s, steps, rest);
      hide Run;
      Assoc(steps, rest, CallSteps(Run(s1, rest), call, t1 + |rest|));
    }
  }

  /** Whether some call, when its turn comes, loads a plugin that lists itself. */
  predicate SomeLoadsItself(s: State, calls: seq<Call>, t: nat)
    decreases |calls|
  {
    calls != []
    && (|| (calls[0].LoadByName? && LoadsItself(s, calls[0].disk, calls[0].name))
        || var steps := CallSteps(s, calls[0], t); SomeLoadsItself(Run(s, steps), calls[1..], t + |steps|))
  }

  /** Call k is a load by name that loads itself in the state the earlier calls have left. */
  ghost predicate SelfLoadAt(s: State, calls: seq<Call>, k: nat, t: nat)
    requires k < |calls|
  {
    calls[k].LoadByName? && LoadsItself(Run(s, CallsSteps(s, calls[..k], t)), calls[k].disk, calls[k].name)
  }

  lemma {:induction false} SomeLoadsItselfIff(s: State, calls: seq<Call>, t: nat)
    ensures SomeLoadsItself(s, calls, t) <==> exists k: nat :: k < |calls| && SelfLoadAt(s, calls, k, t)
    decreases |calls|
  {
    hide *;
    SelfLoadNow(s, calls, t);
    if calls != [] {
      var steps, rest := CallSteps(s, calls[0], t), calls[1..];
      var s1, t1 := Run(s, steps), t + |steps|;
      SomeLoadsItselfIff(s1, rest, t1);
      SelfLoadFirst(s, calls, t);
      if k: nat :| k < |rest| && SelfLoadAt(s1, rest, k, t1) {
        SelfLoadLater(s, calls, k, t);
        assert SelfLoadAt(s, calls, k + 1, t);
      }
      if k: nat :| k < |calls| && SelfLoadAt(s, calls, k, t) {
        if k > 0 {
          SelfLoadLater(s, calls, k - 1, t);
          assert SelfLoadAt(s1, rest, k - 1, t1);
        }
      }
    }
  }

  lemma SelfLoadNow(s: State, calls: seq<Call>, t: nat)
    ensures calls == [] ==> !SomeLoadsItself(s, calls, t)
    ensures calls != [] ==>
              var steps := CallSteps(s, calls[0], t);
              SomeLoadsItself(s, calls, t) <==>
                (calls[0].LoadByName? && LoadsItself(s, calls[0].disk, calls[0].name))
                || SomeLoadsItself(Run(s, steps), calls[1..], t + |steps|)
  {
    hide Run, CallSteps, LoadsItself;
  }

  lemma SelfLoadFirst(s: State, calls: seq<Call>, t: nat)
    requires calls != []
    ensures SelfLoadAt(s, calls, 0, t) <==> calls[0].LoadByName? && LoadsItself(s, calls[0].disk, calls[0].name)
  {
    hide CallSteps, LoadsItself;
    assert calls[..0] == [] && Run(s, CallsSteps(s, [], t)) == s;
  }

  lemma SelfLoadLater(s: State, calls: seq<Call>, k: nat, t: nat)
    requires k + 1 < |calls|
    ensures var steps := CallSteps(s, calls[0], t);
            SelfLoadAt(s, calls, k + 1, t) <==> SelfLoadAt(Run(s, steps), calls[1..], k, t + |steps|)
  {
    hide Run, CallSteps, LoadsItself;
    var steps, rest := CallSteps(s, calls[0], t), calls[1..];
    assert calls[..k + 1][1..] == rest[..k] && calls[k + 1] == rest[k];
    RunConcat(s, steps, CallsSteps(Run(s, steps), rest[..k], t + |steps|));
  }

  lemma {:induction false} CallFresh(s: State, call: Call, t: nat)
    requires call.LoadByName? ==> !LoadsItself(s, call.disk, call.name)
    ensures FreshRun(s, CallSteps(s, call, t))
  {
    match call {
      case LoadByName(disk, name, world) => LoadByNameFresh(s, disk, name, world, t);
      case UnloadByName(name) =>
      case Reload(gone, order, world) => ReloadFresh(s, gone, order, world, t);
    }
  }

  /** A sequence of calls none of which loads itself is a fresh run, so DependencyOutlivesDependent holds of all of it. */
  lemma {:induction false} CallsFresh(s: State, calls: seq<Call>, t: nat)
    requires Consistent(s) && !SomeLoadsItself(s, calls, t)
    ensures FreshRun(s, CallsSteps(s, calls, t)) && Consistent(Run(s, CallsSteps(s, calls, t)))
    decreases |calls|
  {
    if calls == [] { return; }
    hide Run, Consistent, FreshRun, CallSteps;
    var steps := CallSteps(s, calls[0], t);
    CallFresh(s, calls[0], t);
    ConsistentKept(s, steps);
    var rest := CallsSteps(Run(s, steps), calls[1..], t + |steps|);
    CallsFresh(Run(s, steps), calls[1..], t + |steps|);
    hide SomeLoadsItself;
    FreshRunConcat(s, steps, rest);
    RunConcat(s, steps, rest);
  }

  ghost predicate Grew(before: seq<Step>, after: seq<Step>, steps: seq<Step>) {
    after == before + steps
  }

  lemma GrewTwice(before: seq<Step>, mid: seq<Step>, after: seq<Step>, a: seq<Step>, b: seq<Step>)
    requires Grew(before, mid, a) && Grew(mid, after, b)
    ensures Grew(before, after, a + b)
  {
    Assoc(before, a, b);
  }

  lemma GrewIs(before: seq<Step>, after: seq<Step>, steps: seq<Step>)
    requires Grew(before, after, steps)
    ensures before <= after && after[|before|..] == steps
  {
  }

  /** What a reload has done once both of its loops have ended. */
  lemma ReloadDone(s: State, gone: seq<string>, order: seq<string>, world: World, before: seq<Step>, mid: seq<Step>,
                   after: seq<Step>, loads: seq<Step>)
    requires NoDuplicates(order) && loads == LoadOrderSteps(Run(s, UnloadSteps(gone)), order, world, |before| + |gone|)
    requires Grew(before, mid, UnloadSteps(gone)) && Grew(mid, after, loads)
    ensures var steps, t := ReloadSteps(s, gone, order, world, |before|), |before|;
            && CallSteps(s, Reload(gone, order, world), t) == steps
            && Grew(before, after, steps) && before <= after
            && var s1 := Run(s, UnloadSteps(gone));
               && Run(s, steps) == Run(s1, loads)
               && LoadsMissing(after[t..], Run(s1, loads).plugins, RegisteredNames(loads), s1.plugins, gone, order, world, t)
  {
    hide *;
    ReloadIsCall(s, gone, order, world, |before|);
    var steps := ReloadSteps(s, gone, order, world, |before|);
    ReloadIs(s, gone, order, world, |before|);
    ReloadLoads(s, gone, order, world, |before|);
    GrewTwice(before, mid, after, UnloadSteps(gone), loads);
    GrewIs(before, after, steps);
  }

  lemma NothingToDo(s: State, history: seq<Step>, world: World)
    ensures Run(s, []) == s && Grew(history, history, []) && NoDuplicates<string>([])
    ensures var loads := LoadOrderSteps(s, [], world, |history|); loads == [] && RegisteredNames(loads) == []
  {
  }

  lemma ReloadIsCall(s: State, gone: seq<string>, order: seq<string>, world: World, t: nat)
    ensures CallSteps(s, Reload(gone, order, world), t) == ReloadSteps(s, gone, order, world, t)
  {
  }

  // ---- The manager as the source runs it ----------------------------------------------

  datatype LoadReport =
    | NotOnDisk
    | AlreadyLoaded
    | DependencyFailed(dep: string, loadedDeps: seq<string>)
    | LoadFailed(loadedDeps: seq<string>)
    | Loaded(loadedDeps: seq<string>)

  datatype UnloadReport = HasDependents(dependents: set<string>) | NotFound | Unloaded

  class Manager {
    var plugins: set<string>
    var supervisors: set<string>
    var depGraph: Graph
    /** Every change made so far; its length dates the attempts a World answers. */
    var history: seq<Step>

    function S(): State
      reads this
    {
      State(plugins, supervisors, depGraph)
    }

    /** The call made these changes, in this order, and no others. */
    twostate predicate Took(steps: seq<Step>)
      reads this
    {
      S() == Run(old(S()), steps) && Grew(old(history), history, steps)
    }

    constructor ()
      ensures S() == State({}, {}, map[]) && history == []
    {
      plugins, supervisors, depGraph, history := {}, {}, map[], [];
    }

    method LoadPlugin(name: string, outcome: Outcome) returns (ok: bool)
      modifies this
      ensures S() == Apply(old(S()), Load(name, outcome)) && history == old(history) + [Load(name, outcome)]
      ensures ok <==> outcome.result == Registered
      ensures depGraph == old(depGraph)[name := outcome.deps]
      ensures plugins == match outcome.result
                         case Registered => old(plugins) + {name}
                         case BuildFailed => old(plugins)
                         case SupervisorFailed => old(plugins) - {name}
      ensures supervisors == if ok then old(supervisors) + {name} else old(supervisors)
    {
      history := history + [Load(name, outcome)];
      depGraph := depGraph[name := outcome.deps];
      if outcome.result == BuildFailed {
        return false;
      }
      plugins := plugins + {name};
      if outcome.result == SupervisorFailed {
        plugins := plugins - {name};
        assert plugins == old(plugins) - {name};
        return false;
      }
      supervisors := supervisors + {name};
      return true;
    }

    method UnloadPluginByName(name: string) returns (r: UnloadReport)
      modifies this
      ensures S() == Apply(old(S()), Unload(name)) && history == old(history) + [Unload(name)]
      ensures r == if Dependents(old(S()), name) != {} then HasDependents(Dependents(old(S()), name))
                   else if name in old(plugins) then Unloaded else NotFound
      ensures Took(CallSteps(old(S()), UnloadByName(name), old(|history|)))
      ensures r.HasDependents? ==> S() == old(S())
      ensures !r.HasDependents? ==>
                plugins == old(plugins) - {name} && supervisors == old(supervisors) - {name} && depGraph == old(depGraph) - {name}
    {
      history := history + [Unload(name)];
      var dependents, rest := {}, depGraph.Keys;
      while rest != {}
        invariant rest <= depGraph.Keys && S() == old(S()) && history == old(history) + [Unload(name)]
        invariant forall p :: p in dependents <==> p in Dependents(S(), name) && p !in rest
        decreases rest
      {
        var p :| p in rest;
        rest := rest - {p};
        if p == name || p !in plugins { continue; }
        var deps := depGraph[p];
        for i := 0 to |deps|
          invariant p !in dependents && name !in deps[..i]
          invariant forall q :: q in dependents <==> q in Dependents(S(), name) && q !in rest && q != p
        {
          if deps[i] == name {
            dependents := dependents + {p};
            break;
          }
        }
      }
      assert dependents == Dependents(S(), name);
      if dependents != {} {
        return HasDependents(dependents);
      }
      var hasInfo := name in plugins;
      if name in supervisors { supervisors := supervisors - {name}; }
      if hasInfo { plugins := plugins - {name}; }
      depGraph := depGraph - {name};
      assert S() == Apply(old(S()), Unload(name));
      return if hasInfo then Unloaded else NotFound;
    }

    /** The dependency loop of LoadPluginByName. */
    method LoadDependencies(disk: Disk, deps: seq<string>, world: World)
      returns (failed: Option<string>, loadedDeps: seq<string>)
      modifies this
      ensures Took(DepSteps(old(S()), disk, deps, world, old(|history|)).0)
      ensures failed.None? <==> DepSteps(old(S()), disk, deps, world, old(|history|)).1
      ensures loadedDeps == RegisteredNames(DepSteps(old(S()), disk, deps, world, old(|history|)).0)
      ensures failed.Some? ==>
                var steps := DepSteps(old(S()), disk, deps, world, old(|history|)).0;
                steps != [] && failed.value == steps[|steps| - 1].name
    {
      failed, loadedDeps := None, [];
      ghost var (all, ok) := DepSteps(S(), disk, deps, world, |history|);
      assert deps[0..] == deps;
      hide Apply, Run, Dependents, DepSteps, RegisteredNames;
      for i := 0 to |deps|
        invariant var (rest, ok1) := DepSteps(S(), disk, deps[i..], world, |history|);
                  && ok1 == ok && Run(S(), rest) == Run(old(S()), all) && history + rest == old(history) + all
                  && loadedDeps + RegisteredNames(rest) == RegisteredNames(all)
      {
        if !disk.isGoPlugin(deps[i]) || deps[i] in plugins {
          SkipDep(S(), disk, deps, i, world, |history|);
          continue;
        }
        TakeDep(S(), disk, deps, i, world, history, loadedDeps);
        ghost var rest := DepSteps(S(), disk, deps[i..], world, |history|).0;
        SameLast(history, rest, old(history), all);
        var outcome := world(|history|, deps[i]);
        var registered := LoadPlugin(deps[i], outcome);
        if !registered {
          return Some(deps[i]), loadedDeps;
        }
        loadedDeps := loadedDeps + [deps[i]];
      }
      NoDepLeft(S(), disk, deps[|deps|..], world, |history|);
    }

    method LoadPluginByName(disk: Disk, name: string, world: World) returns (r: LoadReport)
      modifies this
      ensures Took(LoadByNameSteps(old(S()), disk, name, world, old(|history|)))
      ensures Took(CallSteps(old(S()), LoadByName(disk, name, world), old(|history|)))
      ensures r.Loaded? <==> Succeeds(old(S()), disk, name, world, old(|history|))
      ensures r.NotOnDisk? <==> !disk.isGoPlugin(name)
      ensures r.AlreadyLoaded? <==> disk.isGoPlugin(name) && name in old(plugins)
      ensures disk.isGoPlugin(name) && name !in old(plugins) ==>
                var (steps, ok) := DepSteps(old(S()), disk, ParsedDeps(disk, name), world, old(|history|));
                && r.loadedDeps == RegisteredNames(steps)
                && (r.DependencyFailed? <==> !ok)
                && (r.DependencyFailed? ==> r.dep == steps[|steps| - 1].name)
                && (r.Loaded? <==> ok && world(old(|history|) + |steps|, name).result == Registered)
      ensures r.Loaded? ==> name in plugins
    {
      if !disk.isGoPlugin(name) {
        return NotOnDisk;
      }
      if name in plugins {
        return AlreadyLoaded;
      }
      var deps := match disk.parse(name) case Some(ds) => ds case None => [];
      LoadByNameIs(S(), disk, name, deps, world, history);
      hide Apply, DepSteps, RegisteredNames, Run, Dependents, ParsedDeps, LoadByNameSteps;
      ghost var steps := DepSteps(S(), disk, deps, world, |history|).0;
      var failed, loadedDeps := LoadDependencies(disk, deps, world);
      if failed.Some? {
        return DependencyFailed(failed.value, loadedDeps);
      }
      var outcome := world(|history|, name);
      var ok := LoadPlugin(name, outcome);
      return if ok then Loaded(loadedDeps) else LoadFailed(loadedDeps);
    }

    /** The unload loop of ReloadPlugins; Go iterates the map in any order. */
    method UnloadStale(onDisk: set<string>) returns (ghost gone: seq<string>, unloaded: seq<string>)
      modifies this
      ensures NoDuplicates(gone)
      ensures forall x :: x in gone <==> x in old(plugins) && x !in onDisk
      ensures Took(UnloadSteps(gone)) && |history| == |old(history)| + |gone|
      ensures unloaded == Without(gone, plugins)
    {
      gone, unloaded := [], [];
      var rest := plugins;
      assert UnloadSteps(gone) == [] && Run(S(), []) == S();
      hide Apply, Dependents, Run;
      while rest != {}
        invariant NoDuplicates(gone) && rest <= old(plugins)
        invariant forall x :: x in gone <==> x in old(plugins) && x !in onDisk && x !in rest
        invariant Took(UnloadSteps(gone))
        invariant rest <= plugins && unloaded == Without(gone, plugins)
        decreases rest
      {
        var name :| name in rest;
        rest := rest - {name};
        if name !in onDisk {
          ghost var were := plugins;
          var r := UnloadPluginByName(name);
          RunSnoc(old(S()), UnloadSteps(gone), Unload(name));
          assert UnloadSteps(gone + [name]) == UnloadSteps(gone) + [Unload(name)];
          WithoutOnlyAsks(gone, were, name);
          assert (gone + [name])[..|gone|] == gone;
          gone := gone + [name];
          if r.Unloaded? { unloaded := unloaded + [name]; }
        }
      }
    }

    /** The load loop of ReloadPlugins. */
    method LoadMissing(order: seq<string>, world: World) returns (loaded: seq<string>)
      modifies this
      ensures Took(LoadOrderSteps(old(S()), order, world, old(|history|)))
      ensures loaded == RegisteredNames(LoadOrderSteps(old(S()), order, world, old(|history|)))
    {
      loaded := [];
      ghost var all := LoadOrderSteps(S(), order, world, |history|);
      ghost var rest := all;
      assert order[0..] == order;
      for i := 0 to |order|
        invariant rest == LoadOrderSteps(S(), order[i..], world, |history|)
        invariant Run(S(), rest) == Run(old(S()), all) && history + rest == old(history) + all
        invariant loaded + RegisteredNames(rest) == RegisteredNames(all)
      {
        assert order[i..][1..] == order[i + 1..];
        if order[i] in plugins { continue; }
        ghost var s, h := S(), history;
        var outcome := world(|history|, order[i]);
        var ok := LoadPlugin(order[i], outcome);
        ghost var later := LoadOrderSteps(S(), order[i + 1..], world, |history|);
        TakeStep(s, h, rest, Load(order[i], outcome), later);
        rest := later;
        if ok { loaded := loaded + [order[i]]; }
      }
    }

    /** `onDisk` is the first directory scan and `discovered` the second; None is a read error. */
    method ReloadPlugins(onDisk: Option<set<string>>, discovered: Option<Graph>, world: World)
      returns (ghost gone: seq<string>, ghost order: seq<string>, loaded: seq<string>, unloaded: seq<string>)
      modifies this
      ensures onDisk.None? ==> Took([]) && loaded == unloaded == []
      ensures onDisk.Some? ==>
                && NoDuplicates(gone)
                && (forall x :: x in gone <==> x in old(plugins) && x !in onDisk.value)
                && (if discovered.None? then order == [] else IsBuildOrder(discovered.value, order))
                && Took(ReloadSteps(old(S()), gone, order, world, old(|history|)))
                && Took(CallSteps(old(S()), Reload(gone, order, world), old(|history|)))
                && var s := Run(old(S()), UnloadSteps(gone));
                   && unloaded == Without(gone, s.plugins)
                   && loaded == RegisteredNames(LoadOrderSteps(s, order, world, old(|history|) + |gone|))
      ensures onDisk.Some? ==>
                && old(history) <= history
                && LoadsMissing(history[|old(history)|..], plugins, loaded, Run(old(S()), UnloadSteps(gone)).plugins, gone, order,
                                world, old(|history|))
    {
      hide Apply, Run, UnloadSteps, LoadOrderSteps, ReloadSteps, CallSteps, RegisteredNames, NoDuplicates;
      hide Grew, Dependents, IsBuildOrder, Without, LoadsMissing, Ordered;
      gone, order, loaded, unloaded := [], [], [], [];
      if onDisk.None? {
        NothingToDo(S(), history, world);
        return;
      }
      gone, unloaded := UnloadStale(onDisk.value);
      NothingToDo(S(), history, world);
      ghost var mid, loads := history, LoadOrderSteps(S(), [], world, |history|);
      if discovered.Some? {
        var build := TopologicalSort(discovered.value);
        order := build;
        OrderedOnce(discovered.value, build);
        loads := LoadOrderSteps(S(), build, world, |history|);
        loaded := LoadMissing(build, world);
      }
      ReloadDone(old(S()), gone, order, world, old(history), mid, history, loads);
    }

    /** Startup: the graph found on disk replaces the cached one and everything is built in order. */
    method LoadPlugins(discovered: Option<Graph>, world: World) returns (ghost order: seq<string>)
      modifies this
      ensures discovered.None? ==> Took([])
      ensures discovered.Some? ==>
                && IsBuildOrder(discovered.value, order)
                && S() == Run(old(S()).(depGraph := discovered.value), LoadAllSteps(order, world, old(|history|)))
                && history == old(history) + LoadAllSteps(order, world, old(|history|))
      ensures discovered.Some? ==>
                && NoDuplicates(order) && old(history) <= history
                && AttemptEach(history[|old(history)|..], order, world, old(|history|))
                && plugins == LoadedAfter(old(plugins), order, world, old(|history|))
      ensures discovered.Some? && old(plugins) == {} && old(supervisors) == {} ==> Consistent(S())
    {
      order := [];
      if discovered.None? {
        return;
      }
      depGraph := discovered.value;
      ghost var s := S();
      var build := TopologicalSort(discovered.value);
      order := build;
      ghost var all := LoadAllSteps(order, world, |history|);
      assert all[..0] == [];
      for i := 0 to |build|
        invariant S() == Run(s, all[..i]) && history == old(history) + all[..i]
      {
        var outcome := world(|history|, build[i]);
        var ok := LoadPlugin(build[i], outcome);
        RunSnoc(s, all[..i], all[i]);
        assert all[..i] + [all[i]] == all[..i + 1];
      }
      assert all[..|build|] == all;
      StartupAttemptsAll(build, world, old(|history|));
      AttemptsLoad(s, all, build, world, old(|history|));
      if old(plugins) == {} && old(supervisors) == {} {
        StartupFresh(s, order, world, old(|history|));
        ConsistentKept(s, all);
      }
    }
  }
}
