/** Resolving a logger name against configured names, and the memo table in front of it. */
module LoggerResolution {
  import opened Seqs

  // ---- Resolution ---------------------------------------------------------------------------

  const ROOT := "root"

  predicate DottedPrefix(l: string, name: string) {
    l + "." <= name
  }

  predicate Matches(l: string, name: string) {
    l == name || l == ROOT || DottedPrefix(l, name)
  }

  /** Whether l replaces the best match so far, which is the empty string when there is none. */
  predicate Better(l: string, best: string, name: string) {
    |l| > |best| || (l == name && best != name)
  }

  function NameAt(names: seq<string>, k: Option<nat>): string
    requires k.Some? ==> k.value < |names|
  {
    match k case None => "" case Some(i) => names[i]
  }

  /** The best match among the first i configured names. */
  function Best(names: seq<string>, i: nat, name: string): (k: Option<nat>)
    requires i <= |names|
    ensures k.Some? ==> k.value < i
  {
    if i == 0 then None
    else
      var k := Best(names, i - 1, name);
      if Matches(names[i - 1], name) && Better(names[i - 1], NameAt(names, k), name) then Some(i - 1) else k
  }

  /** The loop of the source. */
  method Resolve(names: seq<string>, name: string) returns (k: Option<nat>)
    ensures k == Best(names, |names|, name)
  {
    var bestMatch := "";
    k := None;
    for i := 0 to |names|
      invariant k == Best(names, i, name) && bestMatch == NameAt(names, k)
    {
      var l := names[i];
      if l == name || l == ROOT || l + "." <= name {
        if |l| > |bestMatch| || (l == name && bestMatch != name) {
          bestMatch, k := l, Some(i);
        }
      }
    }
  }

  /** A dotted prefix ends where a component does: the name goes on with a dot. */
  lemma DottedPrefixIs(l: string, name: string)
    ensures DottedPrefix(l, name) <==> |l| < |name| && name[..|l|] == l && name[|l|] == '.'
  {
    if DottedPrefix(l, name) { assert name[|l|] == (l + ".")[|l|] && name[..|l|] == (l + ".")[..|l|]; }
    if |l| < |name| && name[..|l|] == l && name[|l|] == '.' { assert name[..|l| + 1] == l + "."; }
  }

  // ---- What resolution should pick ------------------------------------------------------------

  ghost predicate Distinct(names: seq<string>) {
    forall i, j :: 0 <= i < j < |names| ==> names[i] != names[j]
  }

  /** The exact name, else the longest dotted prefix, else root. */
  ghost predicate IsIdeal(names: seq<string>, name: string, k: nat) {
    k < |names|
    && (names[k] == name
        || (name !in names && DottedPrefix(names[k], name) && LongestPrefix(names, name, k))
        || (name !in names && NoPrefix(names, name) && names[k] == ROOT))
  }

  ghost predicate LongestPrefix(names: seq<string>, name: string, k: nat)
    requires k < |names|
  {
    forall j :: 0 <= j < |names| && DottedPrefix(names[j], name) ==> |names[j]| <= |names[k]|
  }

  ghost predicate NoPrefix(names: seq<string>, name: string) {
    forall j :: 0 <= j < |names| ==> !DottedPrefix(names[j], name)
  }

  /** Names that can win. */
  predicate Candidate(l: string, name: string) {
    l != "" && Matches(l, name)
  }

  /** Candidate k keeps its place against candidate j, given the order in which they are configured. */
  predicate Beats(names: seq<string>, name: string, k: nat, j: nat)
    requires k < |names| && j < |names|
  {
    if names[k] == name then !(|names[j]| > |name| && k < j)
    else if names[j] == name then |names[k]| > |name| && j < k
    else |names[k]| > |names[j]| || (|names[k]| == |names[j]| && k < j)
  }

  ghost predicate Wins(names: seq<string>, i: nat, name: string, k: nat)
    requires i <= |names|
  {
    k < i && Candidate(names[k], name)
    && forall j :: 0 <= j < i && j != k && Candidate(names[j], name) ==> Beats(names, name, k, j)
  }

  /** A candidate other than the name itself is root or shorter than the name. */
  lemma CandidateIsRootOrShorter(l: string, name: string)
    requires Candidate(l, name) && l != name
    ensures l == ROOT || |l| < |name|
  {
  }

  lemma {:induction false} BestWins(names: seq<string>, i: nat, name: string)
    requires Distinct(names) && i <= |names| && name != ""
    ensures match Best(names, i, name)
            case Some(k) => Wins(names, i, name, k)
            case None => forall j :: 0 <= j < i ==> !Candidate(names[j], name)
  {
    if i > 0 {
      BestWins(names, i - 1, name);
      var l, k := names[i - 1], Best(names, i - 1, name);
      hide Matches;
      if k.Some? && Matches(l, name) && Better(l, names[k.value], name) {
        forall j | 0 <= j < i - 1 && Candidate(names[j], name) ensures Beats(names, name, i - 1, j) {
          NewBeatsOld(names, name, k.value, i - 1, j);
        }
      }
    }
  }

  /** What replaces the winner beats all that the winner beat. */
  lemma NewBeatsOld(names: seq<string>, name: string, k: nat, n: nat, j: nat)
    requires Distinct(names) && k < n < |names| && j < n && name != ""
    requires Candidate(names[k], name) && Candidate(names[n], name) && Candidate(names[j], name)
    requires Better(names[n], names[k], name) && (j != k ==> Beats(names, name, k, j))
    ensures Beats(names, name, n, j)
  {
    assert names[n] != names[k] && names[n] != names[j] && (j != k ==> names[j] != names[k]);
    hide Candidate, Distinct;
    if names[n] != name { CandidateIsRootOrShorter(names[n], name); }
    if names[k] != name { CandidateIsRootOrShorter(names[k], name); }
    if names[j] != name { CandidateIsRootOrShorter(names[j], name); }
  }

  /**
   * Against root the ideal choice k keeps its place when its name is longer than "root"; as long, and exact or
   * configured first; or exact and configured after root. A caller can read this off the configuration.
   */
  predicate HoldsAgainstRoot(names: seq<string>, name: string, k: nat)
    requires k < |names|
  {
    forall r :: 0 <= r < |names| && names[r] == ROOT ==>
      r == k || |names[k]| > 4 || (|names[k]| == 4 && (names[k] == name || k < r)) || (names[k] == name && r < k)
  }

  /** Resolution picks the ideal name exactly when that name holds against root. */
  lemma ResolvesIdeallyIff(names: seq<string>, name: string, k: nat)
    requires Distinct(names) && name != "" && "" !in names && IsIdeal(names, name, k)
    ensures Best(names, |names|, name) == Some(k) <==> HoldsAgainstRoot(names, name, k)
  {
    BestWins(names, |names|, name);
    assert Candidate(names[k], name);
    var m := Best(names, |names|, name).value;
    if m == k {
      forall r | 0 <= r < |names| && names[r] == ROOT && r != k
        ensures |names[k]| > 4 || (|names[k]| == 4 && (names[k] == name || k < r)) || (names[k] == name && r < k)
      {
        assert Candidate(names[r], name) && Beats(names, name, k, r);
      }
    } else {
      IdealLosesOnlyToRoot(names, name, k, m);
    }
  }

  lemma IdealLosesOnlyToRoot(names: seq<string>, name: string, k: nat, m: nat)
    requires Distinct(names) && name != "" && "" !in names && IsIdeal(names, name, k)
    requires m < |names| && m != k && Candidate(names[m], name) && Beats(names, name, m, k)
    ensures !HoldsAgainstRoot(names, name, k)
  {
    assert names[m] != names[k] && names[m] in names;
    if names[m] != name { CandidateIsRootOrShorter(names[m], name); }
    if names[m] != ROOT {
      assert names[k] != name ==> names[m] != name && DottedPrefix(names[m], name);
      SamePrefixSameName(names[m], names[k], name);
    }
  }

  /** Two dotted prefixes of one name that are equally long are the same. */
  lemma SamePrefixSameName(a: string, b: string, name: string)
    ensures DottedPrefix(a, name) && DottedPrefix(b, name) && |a| == |b| ==> a == b
  {
    if DottedPrefix(a, name) && DottedPrefix(b, name) && |a| == |b| {
      assert a == name[..|a|] == b by {
        assert a == (a + ".")[..|a|] && b == (b + ".")[..|b|];
      }
    }
  }

  /** With names longer than four characters besides root, resolution is ideal in any configuration order. */
  lemma LongNamesResolveIdeally(names: seq<string>, name: string, k: nat)
    requires Distinct(names) && name != "" && IsIdeal(names, name, k)
    requires forall i :: 0 <= i < |names| ==> names[i] == ROOT || |names[i]| > 4
    ensures Best(names, |names|, name) == Some(k)
  {
    assert forall r :: 0 <= r < |names| && names[r] == ROOT && names[k] == ROOT ==> r == k;
    ResolvesIdeallyIff(names, name, k);
  }

  /** A short configured name loses even its own logger to a root configured after it. */
  lemma ShortNameLosesToRoot()
    ensures Best(["cli", ROOT], 2, "cli") == Some(1) && Best([ROOT, "cli"], 2, "cli") == Some(1)
    ensures IsIdeal(["cli", ROOT], "cli", 0)
  {
    assert Best(["cli", ROOT], 1, "cli") == Some(0);
    assert Best([ROOT, "cli"], 1, "cli") == Some(0);
  }

  // ---- Levels, sources and sinks -------------------------------------------------------------------

  datatype Level = Trace | Debug | Info | Warn | Error | Fatal

  /** A configured logger; level None is a level text that cannot be parsed. */
  datatype Config = Config(name: string, level: Option<Level>, sinks: seq<string>, source: bool)

  /** A sink; the id tells apart two sinks made for one name. */
  datatype Sink = Sink(name: string, id: nat)

  /** The sinks by name, and the names in the order in which they were first added. */
  datatype Registry = Registry(order: seq<string>, sinks: map<string, Sink>)

  datatype Resolved = Resolved(level: Level, source: bool, sinks: seq<Sink>)

  ghost predicate GoodRegistry(r: Registry) {
    NoDuplicates(r.order) && (forall x :: x in r.order <==> x in r.sinks) && (forall x :: x in r.sinks ==> r.sinks[x].name == x)
  }

  /** A sink of a name already there takes the place of the old one. */
  function Add(r: Registry, s: Sink): (after: Registry)
    ensures GoodRegistry(r) ==> GoodRegistry(after)
  {
    Registry(if s.name in r.sinks then r.order else r.order + [s.name], r.sinks[s.name := s])
  }

  /** The sinks registered under these names, in the order of the names. */
  function Registered(names: seq<string>, r: Registry): (sinks: seq<Sink>)
    ensures forall s :: s in sinks <==> exists x :: x in names && x in r.sinks && r.sinks[x] == s
    ensures sinks == [] <==> forall x :: x in names ==> x !in r.sinks
  {
    if names == [] then []
    else
      var last := names[|names| - 1];
      var sinks := Registered(names[..|names| - 1], r);
      assert forall x :: x in names <==> x in names[..|names| - 1] || x == last;
      if last in r.sinks then sinks + [r.sinks[last]] else sinks
  }

  /** The loop over sink names. */
  method SinksNamed(names: seq<string>, r: Registry) returns (sinks: seq<Sink>)
    ensures sinks == Registered(names, r)
  {
    sinks := [];
    for i := 0 to |names|
      invariant sinks == Registered(names[..i], r)
    {
      assert names[..i + 1][..i] == names[..i];
      if names[i] in r.sinks { sinks := sinks + [r.sinks[names[i]]]; }
    }
    assert names[..|names|] == names;
  }

  function Names(loggers: seq<Config>): (names: seq<string>)
    ensures |names| == |loggers| && forall i :: 0 <= i < |names| ==> names[i] == loggers[i].name
  {
    seq(|loggers|, i requires 0 <= i < |loggers| => loggers[i].name)
  }

  /** The registered sinks among those configured; all sinks when there are none. */
  function SinksOf(configured: seq<string>, r: Registry): seq<Sink> {
    if Registered(configured, r) == [] then Registered(r.order, r) else Registered(configured, r)
  }

  /** The sinks that the best match for a name lists. */
  function Listed(loggers: seq<Config>, name: string): seq<string> {
    match Best(Names(loggers), |loggers|, name) case None => [] case Some(k) => loggers[k].sinks
  }

  function Settings(loggers: seq<Config>, r: Registry, name: string): Resolved {
    var sinks := SinksOf(Listed(loggers, name), r);
    match Best(Names(loggers), |loggers|, name)
    case None => Resolved(Info, false, sinks)
    case Some(k) =>
      var c := loggers[k];
      Resolved(if c.level.Some? then c.level.value else Info, c.source, sinks)
  }

  /** What resolution gives is the level and source of the best match's configuration, and sinks it lists, if any is there. */
  lemma SettingsAreOfBest(loggers: seq<Config>, r: Registry, name: string)
    ensures var s, k := Settings(loggers, r, name), Best(Names(loggers), |loggers|, name);
            if k.None? then s.level == Info && !s.source && s.sinks == Registered(r.order, r)
            else
              var c := loggers[k.value];
              && s.source == c.source && s.level == (if c.level == None then Info else c.level.value)
              && s.sinks == Registered(if exists x :: x in c.sinks && x in r.sinks then c.sinks else r.order, r)
  {
  }

  /** A name that is configured itself, and holds against root, gets its own configuration. */
  lemma OwnConfiguration(loggers: seq<Config>, r: Registry, k: nat)
    requires k < |loggers| && Distinct(Names(loggers)) && loggers[k].name != "" && "" !in Names(loggers)
    requires HoldsAgainstRoot(Names(loggers), loggers[k].name, k)
    ensures var s := Settings(loggers, r, loggers[k].name);
            s.source == loggers[k].source && s.level == (if loggers[k].level == None then Info else loggers[k].level.value)
  {
    ResolvesIdeallyIff(Names(loggers), loggers[k].name, k);
    SettingsAreOfBest(loggers, r, loggers[k].name);
  }

  /** The resolution of the source: the best match, its settings, its sinks. */
  method ResolveLogger(loggers: seq<Config>, r: Registry, name: string) returns (resolved: Resolved)
    ensures resolved == Settings(loggers, r, name)
  {
    var k := Resolve(Names(loggers), name);
    hide Best;
    var sinks := SinksNamed(r.order, r);
    match k {
      case None => return Resolved(Info, false, sinks);
      case Some(i) =>
        var c := loggers[i];
        var named := SinksNamed(c.sinks, r);
        if |named| > 0 { sinks := named; }
        return Resolved(if c.level.Some? then c.level.value else Info, c.source, sinks);
    }
  }

  function PluginConfig(plugin: string): Config {
    var n := "plugin." + plugin;
    Config(n, Some(Debug), [n, "stdout"], false)
  }

  /** The names a plugin's configuration is for. */
  predicate AtOrUnder(name: string, plugin: string) {
    name == "plugin." + plugin || DottedPrefix("plugin." + plugin, name)
  }

  lemma {:induction false} BestOfPrefix(names: seq<string>, more: seq<string>, i: nat, name: string)
    requires i <= |names| && names <= more
    ensures Best(more, i, name) == Best(names, i, name)
  {
    if i > 0 { BestOfPrefix(names, more, i - 1, name); }
  }

  /** The names whose best match a new plugin's configuration replaces. */
  predicate TakenOver(loggers: seq<Config>, plugin: string, name: string) {
    AtOrUnder(name, plugin) && Better("plugin." + plugin, NameAt(Names(loggers), Best(Names(loggers), |loggers|, name)), name)
  }

  function PluginSink(plugin: string, id: nat): Sink {
    Sink("plugin." + plugin, id)
  }

  /** What resolution gives for a name once the plugin's sink has been added. */
  function AfterSink(loggers: seq<Config>, r: Registry, plugin: string, id: nat, name: string): Resolved {
    Settings(loggers + [PluginConfig(plugin)], Add(r, PluginSink(plugin, id)), name)
  }

  predicate SameLevelAndSource(a: Resolved, b: Resolved) {
    a.level == b.level && a.source == b.source
  }

  predicate IsDebugPlain(a: Resolved) {
    a.level == Debug && !a.source
  }

  /** The names whose level or source a new plugin's sink changes, told from the configuration before it. */
  predicate LevelChanged(loggers: seq<Config>, r: Registry, plugin: string, name: string) {
    TakenOver(loggers, plugin, name) && !IsDebugPlain(Settings(loggers, r, name))
  }

  /** The names whose settings change in any way, sinks included. */
  predicate Changed(loggers: seq<Config>, r: Registry, plugin: string, name: string) {
    TakenOver(loggers, plugin, name)
    || "plugin." + plugin in Listed(loggers, name)
    || (forall x :: x in Listed(loggers, name) ==> x !in r.sinks)
  }

  /** The plugin's configuration is the best match of the names it takes over, and of no others. */
  lemma AfterSinkIs(loggers: seq<Config>, r: Registry, plugin: string, id: nat, name: string)
    ensures var now, more, after := AfterSink(loggers, r, plugin, id, name), loggers + [PluginConfig(plugin)], Add(r, PluginSink(plugin, id));
            if TakenOver(loggers, plugin, name)
            then IsDebugPlain(now) && now.sinks == SinksOf(PluginConfig(plugin).sinks, after)
            else SameLevelAndSource(Settings(loggers, r, name), now) && now.sinks == SinksOf(Listed(loggers, name), after)
  {
    var l := "plugin." + plugin;
    var names, more := Names(loggers), Names(loggers + [PluginConfig(plugin)]);
    assert names <= more && more[|loggers|] == l;
    assert l[0] != ROOT[0];
    BestOfPrefix(names, more, |loggers|, name);
    assert Matches(l, name) <==> AtOrUnder(name, plugin);
    hide Matches, Better, AtOrUnder, Add, SinksOf;
  }

  /** With a new sink the sinks named by a list change exactly when it is one of them, or when no other was found. */
  lemma SinksChangeIff(configured: seq<string>, r: Registry, s: Sink)
    requires GoodRegistry(r) && forall x :: x in r.sinks ==> r.sinks[x] != s
    ensures var was, now := SinksOf(configured, r), SinksOf(configured, Add(r, s));
            if s.name !in configured && exists x :: x in configured && x in r.sinks then now == was else s !in was && s in now
  {
    var after := Add(r, s);
    if s.name in configured {
      assert s in Registered(configured, after);
    } else {
      OthersStay(configured, r, s);
      assert s.name in after.order && after.sinks[s.name] == s;
    }
  }

  lemma {:induction false} OthersStay(names: seq<string>, r: Registry, s: Sink)
    requires s.name !in names
    ensures Registered(names, Add(r, s)) == Registered(names, r)
  {
    if names != [] { OthersStay(names[..|names| - 1], r, s); }
  }

  /**
   * Adding a plugin sink changes the level or source of a name exactly when the name is at or under the plugin,
   * the plugin's configuration replaces the name's best match, and that match gave something else.
   */
  lemma PluginSinkChangesIff(loggers: seq<Config>, r: Registry, plugin: string, id: nat, name: string)
    ensures var was, now := Settings(loggers, r, name), AfterSink(loggers, r, plugin, id, name);
            SameLevelAndSource(was, now) <==> !LevelChanged(loggers, r, plugin, name)
  {
    AfterSinkIs(loggers, r, plugin, id, name);
    hide Settings, AfterSink, TakenOver;
  }

  /**
   * It changes anything at all exactly for the names it takes over, those whose best match lists the sink already, and
   * those, anywhere, whose best match lists no registered sink. What it gives them is the new sink.
   */
  lemma SettingsChangeIff(loggers: seq<Config>, r: Registry, plugin: string, id: nat, name: string)
    requires GoodRegistry(r) && forall x :: x in r.sinks ==> r.sinks[x].id != id
    ensures var was, now, s := Settings(loggers, r, name), AfterSink(loggers, r, plugin, id, name), PluginSink(plugin, id);
            if Changed(loggers, r, plugin, name) then s !in was.sinks && s in now.sinks else now == was
  {
    AfterSinkIs(loggers, r, plugin, id, name);
    SinksChangeIff(Listed(loggers, name), r, PluginSink(plugin, id));
    var after := Add(r, PluginSink(plugin, id));
    var own := PluginConfig(plugin).sinks;
    assert own[0] in own && after.sinks[own[0]] == PluginSink(plugin, id);
    assert PluginSink(plugin, id) in Registered(own, after);
    assert Settings(loggers, r, name).sinks == SinksOf(Listed(loggers, name), r);
    hide AfterSink, TakenOver, Listed, Add;
  }

  /** A name outside the plugin keeps its level and source. */
  lemma PluginSinkIsLocal(loggers: seq<Config>, r: Registry, plugin: string, id: nat, name: string)
    requires !AtOrUnder(name, plugin)
    ensures SameLevelAndSource(Settings(loggers, r, name), AfterSink(loggers, r, plugin, id, name))
  {
    PluginSinkChangesIff(loggers, r, plugin, id, name);
    hide Settings, AfterSink;
  }

  /** A name under the plugin that has a closer configuration of its own keeps what that gives it. */
  lemma CloserNameIsKept()
    ensures var loggers := [Config("plugin.git.sub", Some(Warn), ["stdout"], false)];
            AtOrUnder("plugin.git.sub", "git")
            && !Changed(loggers, Registry(["stdout"], map["stdout" := Sink("stdout", 0)]), "git", "plugin.git.sub")
  {
    var names := Names([Config("plugin.git.sub", Some(Warn), ["stdout"], false)]);
    assert names[0] == "plugin.git.sub" && "plugin." + "git" == "plugin.git";
    assert Best(names, 0, "plugin.git.sub") == None;
    assert Best(names, 1, "plugin.git.sub") == Some(0);
    assert DottedPrefix("plugin.git", "plugin.git.sub");
    assert "stdout" in ["stdout"];
  }

  // ---- The same by sink names ----------------------------------------------------------------------------

  function NamesOf(sinks: seq<Sink>): seq<string> {
    if sinks == [] then [] else NamesOf(sinks[..|sinks| - 1]) + [sinks[|sinks| - 1].name]
  }

  /** The names among these that are registered. */
  function Known(names: seq<string>, r: Registry): (known: seq<string>)
    ensures forall x :: x in known <==> x in names && x in r.sinks
    ensures known == [] <==> forall x :: x in names ==> x !in r.sinks
  {
    if names == [] then []
    else
      var last := names[|names| - 1];
      var known := Known(names[..|names| - 1], r);
      assert forall x :: x in names <==> x in names[..|names| - 1] || x == last;
      if last in r.sinks then known + [last] else known
  }

  lemma {:induction false} NamesOfRegistered(names: seq<string>, r: Registry)
    requires GoodRegistry(r)
    ensures NamesOf(Registered(names, r)) == Known(names, r)
  {
    if names != [] { NamesOfRegistered(names[..|names| - 1], r); }
  }

  lemma {:induction false} KnownAfterAdd(names: seq<string>, r: Registry, s: Sink)
    requires s.name in r.sinks || s.name !in names
    ensures Known(names, Add(r, s)) == Known(names, r)
  {
    if names != [] { KnownAfterAdd(names[..|names| - 1], r, s); }
  }

  lemma SinkNames(configured: seq<string>, r: Registry)
    requires GoodRegistry(r)
    ensures NamesOf(SinksOf(configured, r)) == if Known(configured, r) == [] then Known(r.order, r) else Known(configured, r)
  {
    NamesOfRegistered(configured, r);
    NamesOfRegistered(r.order, r);
  }

  /** The names change less often: not when the sink only takes the place of one of its name. */
  lemma SinkNamesChangeIff(configured: seq<string>, r: Registry, s: Sink)
    requires GoodRegistry(r)
    ensures NamesOf(SinksOf(configured, Add(r, s))) == NamesOf(SinksOf(configured, r))
            <==> s.name in r.sinks || (s.name !in configured && exists x :: x in configured && x in r.sinks)
  {
    var after := Add(r, s);
    SinkNames(configured, r);
    SinkNames(configured, after);
    var was, now := Known(configured, r), Known(configured, after);
    if s.name in r.sinks {
      KnownAfterAdd(configured, r, s);
      KnownAfterAdd(r.order, r, s);
    } else if s.name in configured {
      assert s.name in now;
      assert s.name !in was && s.name !in Known(r.order, r);
    } else {
      KnownAfterAdd(configured, r, s);
      if x :| x in configured && x in r.sinks {
        assert x in was;
      } else {
        assert s.name in after.order && s.name in Known(after.order, after) && s.name !in Known(r.order, r);
      }
    }
  }

  /** For a name and a new plugin sink, told from the configuration before it. */
  lemma PluginSinkNamesChangeIff(loggers: seq<Config>, r: Registry, plugin: string, id: nat, name: string)
    requires GoodRegistry(r)
    ensures var was, now := NamesOf(Settings(loggers, r, name).sinks), NamesOf(AfterSink(loggers, r, plugin, id, name).sinks);
            var l := "plugin." + plugin;
            now == was <==>
              if TakenOver(loggers, plugin, name) then was == if "stdout" in r.sinks then [l, "stdout"] else [l]
              else l in r.sinks || (l !in Listed(loggers, name) && exists x :: x in Listed(loggers, name) && x in r.sinks)
  {
    AfterSinkIs(loggers, r, plugin, id, name);
    if TakenOver(loggers, plugin, name) {
      OwnSinkNames(r, plugin, id);
    } else {
      assert Settings(loggers, r, name).sinks == SinksOf(Listed(loggers, name), r);
      hide Settings, AfterSink, TakenOver, Listed;
      SinkNamesChangeIff(Listed(loggers, name), r, PluginSink(plugin, id));
    }
  }

  lemma OwnSinkNames(r: Registry, plugin: string, id: nat)
    requires GoodRegistry(r)
    ensures var l := "plugin." + plugin;
            NamesOf(SinksOf(PluginConfig(plugin).sinks, Add(r, PluginSink(plugin, id))))
            == if "stdout" in r.sinks then [l, "stdout"] else [l]
  {
    var l, after := "plugin." + plugin, Add(r, PluginSink(plugin, id));
    assert l[0] != "stdout"[0];
    assert l in after.sinks && ("stdout" in after.sinks <==> "stdout" in r.sinks);
    SinkNames([l, "stdout"], after);
    hide Add, SinksOf, Registered;
    KnownOfTwo(l, "stdout", after);
  }

  lemma KnownOfTwo(a: string, b: string, r: Registry)
    requires a in r.sinks
    ensures Known([a, b], r) == if b in r.sinks then [a, b] else [a]
  {
    assert [a, b][..1] == [a] && [a][..0] == [];
    assert Known([a], r) == [a];
  }

  // ---- The memo table ----------------------------------------------------------------------------------

  class Manager {
    var loggers: seq<Config>
    var registry: Registry
    var resolved: map<string, Resolved>
    /** More than the id of every sink made so far. */
    var nextId: nat

    constructor (loggers: seq<Config>, registry: Registry, nextId: nat)
      requires GoodRegistry(registry) && forall x :: x in registry.sinks ==> registry.sinks[x].id < nextId
      ensures Valid() && this.loggers == loggers && this.registry == registry && resolved == map[] && this.nextId == nextId
      ensures Stale() == StaleLevels() == {}
    {
      this.loggers, this.registry, resolved, this.nextId := loggers, registry, map[], nextId;
    }

    /** The memoised names whose settings are not what resolution would give now. */
    ghost function Stale(): set<string>
      reads this
    {
      set n | n in resolved && resolved[n] != Settings(loggers, registry, n)
    }

    /** Those among them that differ in level or source. */
    ghost function StaleLevels(): set<string>
      reads this
    {
      set n | n in resolved && !SameLevelAndSource(resolved[n], Settings(loggers, registry, n))
    }

    /**
     * Sinks have been made already, wherever they are held, and levels went stale only by a plugin's configuration, which
     * is what resolution gives ever since.
     */
    ghost predicate Valid()
      reads this
    {
      && GoodRegistry(registry)
      && (forall x :: x in registry.sinks ==> registry.sinks[x].id < nextId)
      && (forall n, s :: n in resolved && s in resolved[n].sinks ==> s.id < nextId)
      && (forall n :: n in StaleLevels() ==> IsDebugPlain(Settings(loggers, registry, n)))
    }

    /** A logger requested once keeps its settings; a new one gets those of the configuration now in force. */
    method Logger(name: string) returns (r: Resolved)
      requires Valid()
      modifies this`resolved
      ensures Valid() && Stale() == old(Stale()) && StaleLevels() == old(StaleLevels())
      ensures var n := if name == "" then ROOT else name;
              && (n in old(resolved) ==> r == old(resolved)[n] && resolved == old(resolved))
              && (n !in old(resolved) ==> r == Settings(loggers, registry, n) && resolved == old(resolved)[n := r])
    {
      hide Settings, GoodRegistry;
      var n := if name == "" then ROOT else name;
      if n in resolved {
        return resolved[n];
      }
      r := ResolveLogger(loggers, registry, n);
      SinksAreOld(loggers, registry, n, nextId);
      resolved := resolved[n := r];
    }

    /** The memoised loggers that the new sink or its configuration changes go stale; no others do, and none recovers. */
    method AddPluginSink(plugin: string)
      requires Valid()
      modifies this
      ensures Valid() && resolved == old(resolved) && loggers == old(loggers) + [PluginConfig(plugin)]
      ensures registry == Add(old(registry), PluginSink(plugin, old(nextId)))
      ensures Stale() == old(Stale()) + set n | n in resolved && Changed(old(loggers), old(registry), plugin, n)
      ensures StaleLevels() == old(StaleLevels()) + set n | n in resolved && LevelChanged(old(loggers), old(registry), plugin, n)
    {
      var sink, config := PluginSink(plugin, nextId), PluginConfig(plugin);
      forall n: string
        ensures var was, now := Settings(loggers, registry, n), Settings(loggers + [config], Add(registry, sink), n);
                && (if Changed(loggers, registry, plugin, n) then sink in now.sinks && sink !in was.sinks else now == was)
                && (if LevelChanged(loggers, registry, plugin, n) then !IsDebugPlain(was) && IsDebugPlain(now)
                    else SameLevelAndSource(was, now))
      {
        AfterSinkIs(loggers, registry, plugin, nextId, n);
        SettingsChangeIff(loggers, registry, plugin, nextId, n);
      }
      AddKeepsIds(registry, sink, nextId);
      hide Settings, Changed, LevelChanged, Add, GoodRegistry, PluginConfig;
      registry := Add(registry, sink);
      loggers := loggers + [config];
      nextId := nextId + 1;
    }
  }

  lemma AddKeepsIds(r: Registry, s: Sink, nextId: nat)
    requires s.id == nextId && forall x :: x in r.sinks ==> r.sinks[x].id < nextId
    ensures forall x :: x in Add(r, s).sinks ==> Add(r, s).sinks[x].id < nextId + 1
  {
  }

  lemma SinksAreOld(loggers: seq<Config>, r: Registry, name: string, nextId: nat)
    requires forall x :: x in r.sinks ==> r.sinks[x].id < nextId
    ensures forall s :: s in Settings(loggers, r, name).sinks ==> s.id < nextId
  {
  }

  /** A plugin's logger requested before its sink was added keeps the level of root. */
  method StaleAfterAddPluginSink() returns (r: Resolved, now: Resolved)
    ensures r.level == Info && now.level == Debug
  {
    PluginTakesItsName();
    assert Settings([], Registry([], map[]), "plugin.git").level == Info;
    hide Settings, Add, Changed, LevelChanged;
    var m := new Manager([], Registry([], map[]), 0);
    var first := m.Logger("plugin.git");
    m.AddPluginSink("git");
    r := m.Logger("plugin.git");
    now := ResolveLogger(m.loggers, m.registry, "plugin.git");
  }

  lemma PluginTakesItsName()
    ensures Settings([] + [PluginConfig("git")], Add(Registry([], map[]), PluginSink("git", 0)), "plugin.git").level == Debug
  {
    var names := Names([] + [PluginConfig("git")]);
    assert "plugin." + "git" == "plugin.git" && names[0] == "plugin.git";
    assert Best(names, 0, "plugin.git") == None;
    assert Best(names, 1, "plugin.git") == Some(0);
    hide SinksOf;
  }

  /** A logger that has nothing to do with the plugin goes stale, too, if it logs to whatever sinks there are. */
  method StaleSinksElsewhere() returns (r: Resolved, now: Resolved)
    ensures !AtOrUnder("daemon", "git") && SameLevelAndSource(r, now)
    ensures Sink("plugin.git", 1) !in r.sinks && Sink("plugin.git", 1) in now.sinks
  {
    var registry := Registry(["stdout"], map["stdout" := Sink("stdout", 0)]);
    ElsewhereChanges(registry);
    hide Settings, Add, Changed, LevelChanged, AtOrUnder;
    var m := new Manager([], registry, 1);
    var first := m.Logger("daemon");
    m.AddPluginSink("git");
    r := m.Logger("daemon");
    now := ResolveLogger(m.loggers, m.registry, "daemon");
  }

  lemma ElsewhereChanges(r: Registry)
    requires GoodRegistry(r) && forall x :: x in r.sinks ==> r.sinks[x].id != 1
    ensures !AtOrUnder("daemon", "git")
    ensures var was, now := Settings([], r, "daemon"), Settings([] + [PluginConfig("git")], Add(r, PluginSink("git", 1)), "daemon");
            SameLevelAndSource(was, now) && Sink("plugin.git", 1) !in was.sinks && Sink("plugin.git", 1) in now.sinks
  {
    assert Listed([], "daemon") == [] && PluginSink("git", 1) == Sink("plugin.git", 1);
    assert AfterSink([], r, "git", 1, "daemon") == Settings([] + [PluginConfig("git")], Add(r, PluginSink("git", 1)), "daemon");
    hide Settings, AfterSink, Add;
    SettingsChangeIff([], r, "git", 1, "daemon");
    PluginSinkIsLocal([], r, "git", 1, "daemon");
  }
}
