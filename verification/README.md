# Verification of dotfilesd

A Dafny 4.11 model of the algorithms and protocols inside the `dotfilesd` daemon, its command line and its plugin
library, with proofs of what they keep. `dafny verify dfyconfig.toml` checks the whole project.

| file | what it models |
|---|---|
| `dependency_graph.dfy` | the topological sort of plugins, cycles included |
| `plugin_manager.dfy` | load, unload and reload over the plugin, supervisor and dependency maps |
| `diagnostics.dfy` | the resource store of the diagnostics engine and its event history |
| `diagnostics_replica.dfy` | the replica the terminal client keeps from the event stream |
| `forest.dfy`, `diagnostics_tree.dfy` | rebuilding the resource tree from arbitrary parent links |
| `schema.dfy` | unfolding cyclic message graphs into schemas, and the two type searches |
| `schema_walks.dfy`, `flag_values.dfy` | tool schemas, command-line flags, the JSON body, enum names, arrays of messages |
| `flag_names.dfy` | the kebab-case names of flags, and when two fields share one |
| `script.dfy` | the `.dsh` script parser with its two scanners |
| `output_queue.dfy`, `call_registry.dfy` | the bounded output channels and the registry of live calls, as interleaved steps |
| `output_routing.dfy` | registry and channels in one run: where each line of output goes while calls come and go |
| `stdin_forwarding.dfy` | the loops that pass a call's input on, against close and unregistration |
| `plugin_io.dfy` | the line-buffering writer, the stdin reader and the terminal reader of plugins |
| `shell.dfy` | delimiter framing of shell output, and single-quoting |
| `session.dfy` | the sudo password cache, its keys, and finalized sessions |
| `mcp_bridge.dfy` | requests, responses and cancellations on the MCP bridge |
| `logger_resolution.dfy` | resolving logger names, and the memo table in front |
| `doc_paths.dfy` | the documentation generator's index, paths and circular types |
| `seqs.dfy`, `text.dfy` | shared vocabulary for sequences and text |

Code that updates fields or loops over locals is a class or a method, proved against functions; what the source
promises is proved about those functions. Concurrent parts are state machines whose steps are the stretches between
two lock operations or channel operations, and the theorems are about every sequence of steps. Times are integers,
in nanoseconds where the unit matters. Type parameters stand for ids, bytes and keys that the code only compares.

## Where the code does less than it says

The model follows the code. Each point names the lemmas that give the exact condition or a concrete case.

- Reload says it unloads plugins whose directories are gone. Whether it does depends on the map iteration order
  (`PluginManager.ReloadUnloadsAllIff`); it is sure only if no loaded plugin lists one of them
  (`PluginManager.ReloadSureIff`, `PluginManager.DependencyFirstStays`).
- Loading by name loads direct dependencies only, and a plugin that lists itself is loaded twice
  (`PluginManager.LoadByNameLoadsDirectOnly`, `PluginManager.AllNeedsLoadedIff`, `PluginManager.LoadByNameFreshIff`,
  `PluginManager.SelfDependencyPulledOut`).
- An end event seen before its start is not final (`Diagnostics.EndIsFinalIff`, `Diagnostics.LateStartReactivates`), and
  a start at the zero time is not safe to replay (`Diagnostics.ReplayHarmlessIff`, `Diagnostics.ZeroTimeReplayReactivates`).
- The diagnostics client cuts a resource type at the first colon only behind the first character, the engine anywhere
  (`DiagnosticsReplica.NodeTypeAgreesIff`).
- The flag walk does not end on a message with a singular field of its own type (`SchemaWalks.FlagsTerminateIff`,
  `SchemaWalks.OwnTypeNeverEnds`). Fields whose names differ only in capitals and underscores can share a flag; fields
  that proto3 accepts side by side cannot (`FlagNames.FlagsDistinctIff`, `FlagNames.CapitalsCollide`,
  `FlagNames.AcceptedNamesGiveDistinctFlags`).
- Looking a type up in a schema can find a copy unfolded deeper, in which other types look like stubs
  (`Schema.LookupGivesOwnChildIff`, `Schema.FindsOwnChildIff`, `Schema.LookupFindsDeeperCopy`).
- The array flag cannot set two fields of one element (`FlagValues.SecondFieldOfElementRejected`).
- The script parser's second scan starts two characters in, so some printable values swallow what follows them, and a
  trailing backslash can make it panic (`Script.FirstQuotedReadsBackIff`, `Script.FirstQuotedCrashesIff`,
  `Script.EmptyPromptFails`).
- With more than one producer a new chunk can be lost for which room was made (`OutputQueue.NewChunksSurviveIff`,
  `OutputQueue.CallChannelLosesNewChunk`).
- Opening a call under the client id of a live call hides that call, and can leave one without its end set and its reader
  asleep for good (`CallRegistry.AlwaysMappedIffFresh`, `CallRegistry.EndsStaySetIff`, `CallRegistry.ReusedIdStrandsReader`).
- A plugin's output goes to its latest call, whichever client it is for (`CallRegistry.OutputReachesCallIff`,
  `CallRegistry.OutputGoesToLaterCall`, `OutputRouting.LaterPushOvertakes`).
- The terminal session cuts off input longer than one answer when the call closes, and unregistering a call drops what is
  still buffered (`StdinForwarding.GetsAllRegisteredIff`, `StdinForwarding.GetsAllIff`).
- Command output without a final newline hides the delimiter (`Shell.FramingIff`, `Shell.UnterminatedOutputHidesCode`),
  and a client that goes away in the middle of a stream leaves lines to the next command (`Shell.BrokenStreamSpoilsNext`).
- Dropping an expired shared key can leave ciphertext to be read as the password (`Session.StepKeepsReadableIff`).
- Short logger names can lose to root. Memoised loggers ignore sinks added later; this concerns names at or under the
  plugin, and any other name whose configuration lists no registered sink, or lists the plugin's
  (`LoggerResolution.ResolvesIdeallyIff`, `LoggerResolution.SettingsChangeIff`, `LoggerResolution.Manager.AddPluginSink`,
  `LoggerResolution.StaleSinksElsewhere`).

## Model

| member | source | states |
|---|---|---|
| DependencyGraph.TopologicalSort | dotfilesd/internal/pkg/plugin/manager.go:582-615 | For every dependency graph, cycles included, the sort ends with the unique build order of the sorted keys: each node reachable from the keys exactly once, each dependency before its dependent unless the two are on a cycle |
| DependencyGraph.Sorter.VisitNode | dotfilesd/internal/pkg/plugin/manager.go:587-603 | The recursive closure over `visited`, `tempMark` and `result` computes the pure visit, restores the temporary marks, and ends on cycles |
| DependencyGraph.BuildOrderListsReachableOnce | dotfilesd/internal/pkg/plugin/manager.go:582-615 | A name is listed if and only if some key reaches it, and never twice |
| DependencyGraph.DependenciesFirst | dotfilesd/internal/pkg/plugin/manager.go:587-603 | For every edge u to v, v stands before u unless v itself reaches u |
| DependencyGraph.AcyclicDependenciesFirst | dotfilesd/internal/pkg/plugin/manager.go:582-615 | Without cycles every dependency stands before its dependent and never after it |
| DependencyGraph.BuildOrderUnique | dotfilesd/internal/pkg/plugin/manager.go:605-614 | The order is a function of the graph, since the keys have only one sorted order |
| PluginManager.Manager.LoadPlugin | dotfilesd/internal/pkg/plugin/manager.go:295-445 | One build-and-launch attempt changes the three maps by exactly the load step of its outcome: entry recorded, plugin registered, or registered and taken back |
| PluginManager.Manager.UnloadPluginByName | dotfilesd/internal/pkg/plugin/manager.go:242-290 | The plugin goes from all maps unless a loaded plugin depends on it, and the reported dependents are exactly those |
| PluginManager.Manager.LoadPluginByName | dotfilesd/internal/pkg/plugin/manager.go:189-238 | The call takes exactly its planned steps; each report arises exactly in its case, a failed dependency is the one whose attempt came last, and the dependencies reported are those whose attempts registered |
| PluginManager.Manager.ReloadPlugins | dotfilesd/internal/pkg/plugin/manager.go:449-507 | For every map iteration order: the unload attempts of the stale plugins, then one attempt for each name of the build order not loaded by then, in order, whatever fails; loaded are those the unload loop left and those whose attempt registered, and both are reported |
| PluginManager.Manager.LoadPlugins | dotfilesd/internal/pkg/plugin/manager.go:149-183 | Startup attempts each name of the discovered build order once, in order; plugins, supervisors and graph are consistent afterwards, and loaded are those whose attempt registered |
| PluginManager.StepProtectsIff | dotfilesd/internal/pkg/plugin/manager.go:242-290 | A step keeps every loaded plugin together with its loaded dependencies if and only if it is not a load of a loaded plugin that loses one |
| PluginManager.DependencyOutlivesDependent | dotfilesd/internal/pkg/plugin/manager.go:242-278 | Over a whole run, once a plugin and a recorded dependency are both loaded, the dependency stays loaded until the plugin goes |
| PluginManager.ConsistentKept | dotfilesd/internal/pkg/plugin/manager.go:295-301 | In every such run each loaded plugin keeps a dependency entry and the supervised plugins are the loaded ones |
| PluginManager.CallsFresh | dotfilesd/internal/pkg/plugin/manager.go:189-290 | Any sequence of load, unload and reload calls is such a run, whatever the disk and the map orders, unless a load by name finds its plugin on disk, not loaded, and listing itself |
| PluginManager.SomeLoadsItselfIff | dotfilesd/internal/pkg/plugin/manager.go:189-290 | The excluded sequences are exactly those with a load by name that finds its plugin listing itself in the state the earlier calls have left |
| PluginManager.CallsStepsSnoc | dotfilesd/internal/pkg/plugin/manager.go:189-290 | One more call takes its steps from where the calls before it have left the manager |
| PluginManager.LoadByNameFreshIff | dotfilesd/internal/pkg/plugin/manager.go:189-238 | However its attempts end, a load by name loads only plugins not loaded if and only if it does not find its plugin on disk, not loaded, and listing itself |
| PluginManager.ReportedDepsAreNew | dotfilesd/internal/pkg/plugin/manager.go:214-237 | The dependencies reported as loaded are the plugins that were not loaded before and are now, each once |
| PluginManager.ReloadReports | dotfilesd/internal/pkg/plugin/manager.go:449-507 | The plugins a reload reports as unloaded are those its unload loop removed, and the ones reported as loaded those its load loop added, each once |
| PluginManager.ReloadLoads | dotfilesd/internal/pkg/plugin/manager.go:449-507 | For every state, build order and world: a reload takes one unload for each stale plugin and one attempt for each missing name, and leaves loaded what the unloads left and what registered |
| PluginManager.ReloadAttemptsMissing | dotfilesd/internal/pkg/plugin/manager.go:494-504 | The load loop attempts exactly the names not loaded, each once, in build order, no failure stopping it |
| PluginManager.MissingInOrder | dotfilesd/internal/pkg/plugin/manager.go:494-504 | What comes first in the build order is attempted first |
| PluginManager.AttemptsLoad | dotfilesd/internal/pkg/plugin/manager.go:295-445 | Attempting different names, each attempt decides about its own plugin alone: registered ones are loaded, ones that failed at the supervisor are not, others stay as they were |
| PluginManager.AttemptsRecord | dotfilesd/internal/pkg/plugin/manager.go:295-301 | Whatever an attempt comes to, the dependencies it found are recorded |
| PluginManager.DepsAttempted | dotfilesd/internal/pkg/plugin/manager.go:214-230 | A load by name attempts the dependencies on disk that are not loaded, each once, in the order of go.mod, up to the first that does not register |
| PluginManager.LoadByNameLoadsDirectOnly | dotfilesd/internal/pkg/plugin/manager.go:207-230 | However it ends, loading by name unloads nothing and adds at most the plugin and its direct dependencies on disk; on success it adds exactly these |
| PluginManager.AllNeedsLoadedIff | dotfilesd/internal/pkg/plugin/manager.go:207-234 | If no loaded plugin missed a dependency before, a successful load leaves none missing at any depth if and only if all that its direct dependencies list on disk was loaded, or is the plugin or a direct dependency |
| PluginManager.TransitiveDependencyNotLoaded | dotfilesd/internal/pkg/plugin/manager.go:214-230 | A dependency of a dependency that is on disk can stay unloaded although the call succeeds |
| PluginManager.SelfDependencyPulledOut | dotfilesd/internal/pkg/plugin/manager.go:214-234 | A plugin that lists itself is loaded twice in one call, and the second attempt can pull it from under a dependent |
| PluginManager.ReloadUnloadsAllIff | dotfilesd/internal/pkg/plugin/manager.go:447-483 | All stale plugins are gone after the unload loop if and only if the map iteration visited dependents before their dependencies |
| PluginManager.ReloadSureIff | dotfilesd/internal/pkg/plugin/manager.go:447-483 | Every iteration order removes all stale plugins if and only if no loaded plugin lists one of them |
| PluginManager.DependencyFirstStays | dotfilesd/internal/pkg/plugin/manager.go:447-483 | Of two stale plugins, the one the other lists stays loaded in one order and goes in the other |
| Diagnostics.StateCache.ApplyEvent | dotfilesd/internal/pkg/diagnostics/state.go:116-169 | One event changes the stored resources exactly by the fold step of the resource it names, and the version by one |
| Diagnostics.Engine.PushEvent | dotfilesd/internal/pkg/diagnostics/engine.go:147-163 | The store takes the event, and the history list of its type is appended to and trimmed |
| Diagnostics.Engine.UpdateParent | dotfilesd/internal/pkg/diagnostics/engine.go:169-179 | Only the parent of an existing resource changes |
| Diagnostics.StateIsFoldOfOwnEvents | dotfilesd/internal/pkg/diagnostics/state.go:116-169 | For every trace a resource is the fold over its own changes alone |
| Diagnostics.OwnAreOwn | dotfilesd/internal/pkg/diagnostics/state.go:116-169 | A resource's own changes are exactly those of the trace about it |
| Diagnostics.LifecycleTypes | dotfilesd/internal/pkg/diagnostics/state.go:83-113 | Which event types start and end a resource, no type doing both; only a plugin's crash ends it as crashed |
| Diagnostics.SubIs | dotfilesd/internal/pkg/diagnostics/state.go:141-157 | A duration is the distance, or the nearest 64-bit number of nanoseconds to it |
| Diagnostics.ReplayHarmlessIff | dotfilesd/internal/pkg/diagnostics/state.go:127-169 | A lifecycle event of the trace, pushed again after any continuation, changes no resource, if and only if, for a start, some start of its resource carried a time |
| Diagnostics.OwnEventAbsorbedIff | dotfilesd/internal/pkg/diagnostics/state.go:127-157 | A copy of an event of the trace finds nothing to do if and only if, for a start event, some start carried a time |
| Diagnostics.ZeroTimeReplayReactivates | dotfilesd/internal/pkg/diagnostics/state.go:127-138 | A start at the zero time, replayed after the end, makes the resource active again |
| Diagnostics.EndIsFinalIff | dotfilesd/internal/pkg/diagnostics/state.go:141-157 | After the end, status, times and duration are final under every continuation if and only if the start was seen |
| Diagnostics.LateStartReactivates | dotfilesd/internal/pkg/diagnostics/state.go:127-157 | A stop pushed before its start: the start makes the finished resource active again |
| Diagnostics.StoreLifecycle | dotfilesd/internal/pkg/diagnostics/state.go:116-169 | For every trace: the start is the first that carried a time; the first end event sets finish, status, and the duration since the start known by then; only a start that finds no start time makes a finished resource active again |
| Diagnostics.StoreNames | dotfilesd/internal/pkg/diagnostics/state.go:116-126 | A resource is stored from the first event that names it on, under its id and with the type of its id |
| Diagnostics.StoreParent | dotfilesd/internal/pkg/diagnostics/engine.go:169-179 | Its parent is that of its first event, or the one it was moved under last |
| Diagnostics.StoreLabel | dotfilesd/internal/pkg/diagnostics/state.go:127-138 | Its label is the message of the last start that found no start time, or of its first event |
| Diagnostics.StoreCreated | dotfilesd/internal/pkg/diagnostics/state.go:116-138 | It was created at its first event, or, if that carried no time, when it started |
| Diagnostics.StoreExitCode | dotfilesd/internal/pkg/diagnostics/state.go:141-157 | Its exit code is that of its first end event, if that has one |
| Diagnostics.StoreAttrs | dotfilesd/internal/pkg/diagnostics/state.go:127-169 | Each attribute is that of the last event that contributed it, which a start after the start and an end after the end do not, and there are no others |
| Diagnostics.HistoryIsMostRecent | dotfilesd/internal/pkg/diagnostics/engine.go:147-163 | Whatever the retention policies, a history list is the most recent events of its type |
| Diagnostics.HistoryIsLastOfType | dotfilesd/internal/pkg/diagnostics/engine.go:136-163 | Under one policy it is exactly the last maxCount events of its type |
| DiagnosticsReplica.ReplicaTracksEngine | dotfilesd/cmd/tui-diag/main.go:44-94 | After every sequence of events with times other than "not set", replica and engine agree on each status, start and finish |
| DiagnosticsReplica.DurationsAgreeIff | dotfilesd/cmd/tui-diag/main.go:80-88 | After the first end the durations are equal if and only if the start came first and the distance fits a duration (or a corner value) |
| DiagnosticsReplica.EntriesThere | dotfilesd/cmd/tui-diag/main.go:44-60 | The replica has an entry for exactly the resources some event named |
| DiagnosticsReplica.EntriesShow | dotfilesd/cmd/tui-diag/main.go:44-70 | An entry is under the parent its events named last, with the label they gave last, or its id |
| DiagnosticsReplica.EntryAttrs | dotfilesd/cmd/tui-diag/main.go:44-70 | An attribute of an entry is that of the last event that has it, and there are no others |
| DiagnosticsReplica.NodeTypeAgreesIff | dotfilesd/cmd/tui-diag/main.go:96-101 | The type cut at the first colon, if that is not the first character, is the engine's type if and only if the id has no leading colon |
| DiagnosticsReplica.TypeOfIdIsCut | dotfilesd/internal/pkg/diagnostics/state.go:173-180 | The engine's type of a resource is its id up to the first colon, all of it without one, and nothing for a leading colon |
| DiagnosticsReplica.LocalCache.ApplyEvent | dotfilesd/cmd/tui-diag/main.go:44-94 | The replica entry follows the event, the others stay, and the event list is the last 1000 events |
| DiagnosticsTree.FilterSnapshot | dotfilesd/internal/pkg/diagnostics/tree.go:82-118 | Exactly the entries that pass the time gate and every filter are kept, unchanged |
| DiagnosticsTree.InWindowIff | dotfilesd/internal/pkg/diagnostics/tree.go:82-118 | The time gate lets an active resource through, and another one if and only if the window is endless, or it has not finished, or it finished at most a window ago in true, unsaturated time |
| DiagnosticsTree.ReconstructTree | dotfilesd/internal/pkg/diagnostics/tree.go:32-79 | For arbitrary parent links the build ends; a kept resource appears exactly once if its parent chain ends, else not at all; siblings are in start order |
| DiagnosticsTree.CollectChildren | dotfilesd/internal/pkg/diagnostics/tree.go:44-58 | The adjacency map and the roots list each kept resource once under its kept parent, or as a root |
| DiagnosticsTree.LinksAre | dotfilesd/internal/pkg/diagnostics/tree.go:44-58 | A resource hangs below the kept resource its parent id names, and is a root if the id is empty or names none; siblings rank by start time |
| DiagnosticsTree.MissingIffCyclic | dotfilesd/internal/pkg/diagnostics/tree.go:44-79 | A resource is missing if and only if climbing from it never meets a root |
| DiagnosticsTree.LookupById | dotfilesd/internal/pkg/diagnostics/tree.go:124-136 | Looking children up under the id a resource carries finds those under its key, for every snapshot of the engine's store |
| Forest.ForestHoldsRooted | dotfilesd/internal/pkg/diagnostics/tree.go:124-143 | The recursive assembly over a fixed adjacency map holds exactly the rooted keys, each once |
| Forest.BuildWellShaped | dotfilesd/internal/pkg/diagnostics/tree.go:60-71 | At every level siblings are ordered and sit under their own parent |
| Forest.DepthBounded | dotfilesd/internal/pkg/diagnostics/tree.go:124-143 | A parent chain that ends is shorter than the number of resources, which is why the recursion ends |
| Schema.Unfolder.BuildMessageSchema | dotfilesd/internal/pkg/rpcreflection/rpcreflection.go:340-420 | The recursion over the shared mark set ends, restores the marks, and builds the pure unfolding over the current path |
| Schema.UnfoldCarriesAll | dotfilesd/internal/pkg/rpcreflection/rpcreflection.go:340-420 | A schema carries the unfolding of each type declared inside, in order, and then of each message field's type, in order; a type being unfolded gives a stub |
| Schema.RefsSnoc | dotfilesd/internal/pkg/rpcreflection/rpcreflection.go:380-388 | Each message field adds its type at the end, other fields nothing |
| Schema.BuildServiceSchema | dotfilesd/internal/pkg/rpcreflection/rpcreflection.go:301-318 | Each method's schemas are what its types give on their own: no method depends on the ones before it |
| Schema.LookupSucceeds | dotfilesd/internal/pkg/cli/protoflags.go:1012-1025 | From a node with the field, looking up the field's type succeeds; it gives a stub exactly when the type is already being unfolded above |
| Schema.LookupBelowSucceeds | dotfilesd/internal/pkg/cli/mcp.go:380-394 | The tool server's search also succeeds, and gives a strictly smaller schema: a stub for the node's own type |
| Schema.FindGivesCopy | dotfilesd/internal/pkg/cli/protoflags.go:1012-1025 | Whatever is found is a copy of the type unfolded further down, never something else of that name |
| Schema.FindIsOnPath | dotfilesd/internal/pkg/cli/protoflags.go:1012-1025 | Searching an unfolding is searching the message graph: it finds the copy unfolded on the path of the first way to the type, depth first, that avoids the types being unfolded |
| Schema.FindPathIff | dotfilesd/internal/pkg/cli/protoflags.go:1012-1025 | Something is found if and only if such a walk meets the type |
| Schema.FindsOwnChildIff | dotfilesd/internal/pkg/cli/protoflags.go:1012-1025 | The copy found is the node's own child if and only if nothing carried before that child meets the type |
| Schema.LookupGivesOwnChildIff | dotfilesd/internal/pkg/cli/protoflags.go:1012-1025 | What is found equals the node's own child if and only if walking from the type meets none of the types the search had entered on its way |
| Schema.SameUnfoldIff | dotfilesd/internal/pkg/rpcreflection/rpcreflection.go:340-420 | Marking more types changes an unfolding if and only if walking from its type meets one of them |
| Schema.DeeperCopyHasStubs | dotfilesd/internal/pkg/cli/protoflags.go:1012-1025 | In the copy found, exactly the types the search had entered look like stubs that the node's own child would show in full |
| Schema.SearchesAgreeIff | dotfilesd/internal/pkg/cli/mcp.go:380-394 | The tool server's search and the command line's agree on every schema and type, but for a node's own type that occurs again below it |
| Schema.LookupFindsDeeperCopy | dotfilesd/internal/pkg/cli/protoflags.go:1012-1025 | The depth-first search can return a copy inside an earlier sibling, from which a type looks like a stub that is none on the direct way |
| SchemaWalks.UnfoldNavigable | dotfilesd/internal/pkg/rpcreflection/rpcreflection.go:329-420 | In an unfolded schema every node can resolve the message types of its fields |
| SchemaWalks.ProtoSchemaToToolSchema | dotfilesd/internal/pkg/cli/mcp.go:289-295 | The loop fills the property map; the recursion through the fields ends for recursive types, too |
| SchemaWalks.ToolFieldOfMessage | dotfilesd/internal/pkg/cli/mcp.go:298-353 | A message field becomes an object: empty for a type being unfolded, else with a property for each declared field; a repeated one an array of that |
| SchemaWalks.FieldPropIs | dotfilesd/internal/pkg/cli/mcp.go:298-353 | A field is an array exactly when it is repeated, and otherwise of the type of its kind, or an object |
| SchemaWalks.ToolPropsAt | dotfilesd/internal/pkg/cli/mcp.go:289-295 | With distinct names each field has its own property |
| SchemaWalks.FlagsTerminateIff | dotfilesd/internal/pkg/cli/protoflags.go:273-356 | Flag registration ends if and only if no visited message has a singular field of its own type |
| SchemaWalks.OwnTypeNeverEnds | dotfilesd/internal/pkg/cli/protoflags.go:273-356 | A message with one singular field of its own type is such a case |
| SchemaWalks.UnfoldSelfFree | dotfilesd/internal/pkg/cli/protoflags.go:273-356 | It is enough that no message type of the graph has such a field, recursive or not |
| SchemaWalks.Command.AddFlagsFromSchema | dotfilesd/internal/pkg/cli/protoflags.go:273-297 | With a stack of any depth: the walk ends if and only if the depth suffices, never on a schema with a singular field of its own type, and then the flags of the schema are registered, in field order |
| SchemaWalks.Command.BuildJsonFromSchema | dotfilesd/internal/pkg/cli/protoflags.go:625-674 | With a stack of any depth, on any schema: the nested loops give the object, or the first failure, or run out of stack, as the bounded build says |
| SchemaWalks.BuildsWhatItRegistered | dotfilesd/internal/pkg/cli/protoflags.go:625-674 | A stack on which the flags could be registered is deep enough for the build, which then gives the object of the schema or fails with it |
| SchemaWalks.JsonHoldsSetFlags | dotfilesd/internal/pkg/cli/protoflags.go:625-674 | At every field path the object has a leaf if and only if the path ends in a flag that was set, with that flag's value |
| SchemaWalks.JsonFilled | dotfilesd/internal/pkg/cli/protoflags.go:639-647 | Objects appear only around set flags: none is empty |
| SchemaWalks.JsonFailsIff | dotfilesd/internal/pkg/cli/protoflags.go:641-671 | Building fails if and only if the value of some set flag cannot be read |
| SchemaWalks.FlagsAreLeaves | dotfilesd/internal/pkg/cli/protoflags.go:273-380 | A flag is registered if and only if some field path ends in it |
| SchemaWalks.FlagReadWasRegistered | dotfilesd/internal/pkg/cli/protoflags.go:889-945 | Every flag the builder reads was registered, with the type of the getter that reads it |
| SchemaWalks.WalkersAgreeOnScalars | dotfilesd/internal/pkg/cli/mcp.go:356-376 | Tool schema and command line agree for every scalar kind on text, number or truth value, and the flags keep apart widths, signs and fractions |
| FlagNames.FlagIsKebabPath | dotfilesd/internal/pkg/cli/protoflags.go:1042-1075 | The flag of a field is its path with each name in kebab case and dots between them, although prefixes are converted again at each level; a capitalized name below the top gets a hyphen in front |
| FlagNames.KebabOfCamel | dotfilesd/internal/pkg/cli/protoflags.go:1042-1075 | A camel-case name becomes its words in lower case with hyphens between them |
| FlagNames.AcronymStaysTogether | dotfilesd/internal/pkg/cli/protoflags.go:1042-1075 | An acronym stays together, but for a last capital that starts the next word |
| FlagNames.FlagsDistinctIff | dotfilesd/internal/pkg/cli/protoflags.go:273-297 | No flag is registered twice, which would be fatal, if and only if different paths to flags differ in kebab case |
| FlagNames.FlagsDistinct | dotfilesd/internal/pkg/cli/protoflags.go:273-297 | It is enough that the names within each message differ in kebab case and have no dots |
| FlagNames.AcceptedNamesGiveDistinctFlags | dotfilesd/internal/pkg/cli/protoflags.go:273-297 | Names that differ in lower case without underscores, capitals or not, and distinct names in snake case never share a flag |
| FlagNames.CapitalsCollide | dotfilesd/internal/pkg/cli/protoflags.go:273-297 | A schema with fields aB and a_b registers one flag twice |
| FlagValues.ShownChoiceResolvesIff | dotfilesd/internal/pkg/cli/protoflags.go:967-1003 | The choice shown for an enum value resolves back to it if and only if it is not the full name of another value |
| FlagValues.ResolvedIsKnownIff | dotfilesd/internal/pkg/cli/protoflags.go:979-1003 | An input resolves to a known value if and only if it is one, or is one with the enum's prefix in front; otherwise it is kept |
| FlagValues.EnumPrefixOfWords | dotfilesd/internal/pkg/cli/protoflags.go:953-975 | The prefix of an enum named in camel case is its words in upper case, an underscore behind each |
| FlagValues.ShownChoiceAmbiguous | dotfilesd/internal/pkg/cli/protoflags.go:967-1003 | With values MODE_ON and ON, the choice shown for the first resolves to the second |
| FlagValues.BuildRepeatedMessage | dotfilesd/internal/pkg/cli/protoflags.go:682-768 | The array comes out if and only if the keys are well formed, name each index from 0 on exactly once, and fit the element type; each element is in its place |
| FlagValues.AcceptedIff | dotfilesd/internal/pkg/cli/protoflags.go:698-768 | Key by key, a flag is accepted if and only if every key parses to an index below the number of keys, no two to the same one, and each path and value fit the element type |
| FlagValues.ParseKeyIff | dotfilesd/internal/pkg/cli/protoflags.go:700-723 | A key is accepted if and only if it is a bracketed number, a dot and a path |
| FlagValues.SecondFieldOfElementRejected | dotfilesd/internal/pkg/cli/protoflags.go:675-723 | Two fields of one element are never accepted |
| FlagValues.SetInEmpty | dotfilesd/internal/pkg/cli/protoflags.go:774-825 | Setting one path in a new object never panics, and the object then has that leaf and no other |
| FlagValues.SetInEmptyIff | dotfilesd/internal/pkg/cli/protoflags.go:774-825 | A path is set if and only if it leads to a field through message fields and the text can be read for that field; the leaf is then what it reads as |
| FlagValues.SetKeepsOthers | dotfilesd/internal/pkg/cli/protoflags.go:774-825 | In any object, setting one path leaves all others as they are |
| FlagValues.SetPanicsIff | dotfilesd/internal/pkg/cli/protoflags.go:774-825 | Setting a path to a field panics if and only if a value that is no object stands on the way |
| Script.ExtractQuotedString | dotfilesd/internal/pkg/daemon/script.go:461-489 | The value scan, as an index loop, computes the value function |
| Script.ExtractFirstQuoted | dotfilesd/internal/pkg/daemon/script.go:493-522 | Value, trimmed remainder, error or panic, for every input |
| Script.EndIndex | dotfilesd/internal/pkg/daemon/script.go:504-519 | The remainder scan ends where the pure scan does, past the end exactly when slicing will panic |
| Script.ParseChooseArgs | dotfilesd/internal/pkg/daemon/script.go:525-557 | Prompt, options and variable name, for every input |
| Script.ParseScript | dotfilesd/internal/pkg/daemon/script.go:332-364 | Steps if and only if every line is accepted, and then those of the lines in order; otherwise the first line that is not decides: its number and error, or its panic |
| Script.ScriptVerdict | dotfilesd/internal/pkg/daemon/script.go:332-364 | The same about any list of lines, numbered from any start |
| Script.LineVerdictIs | dotfilesd/internal/pkg/daemon/script.go:341-446 | Whether a line is accepted, its error, or its panic, told from its text: malformed directive, unknown word, missing or unclosed quote, no option |
| Script.LineGives | dotfilesd/internal/pkg/daemon/script.go:341-446 | The step of an accepted line, told from its text; blank lines and comments give none |
| Script.MatchDirectiveIff | dotfilesd/internal/pkg/daemon/script.go:318-318 | The pattern matches exactly the lines of an at sign, a word, blanks and arguments, and gives word and arguments |
| Script.OtherWordsAreUnknown | dotfilesd/internal/pkg/daemon/script.go:380-431 | Any other word of letters, digits and underscores makes an unknown directive, whatever trimmed arguments follow the blank |
| Script.AnyBlankSeparates | dotfilesd/internal/pkg/daemon/script.go:318-318 | Any blank separates the word from its arguments |
| Script.StartsAsIs | dotfilesd/internal/pkg/daemon/script.go:395-403 | A variable clause is "as" in any case and a blank |
| Text.LinesOfLast | dotfilesd/internal/pkg/daemon/script.go:332-338 | A last line without a newline is a line, too, and at most one carriage return goes with a newline |
| Script.FirstVerdictIs | dotfilesd/internal/pkg/daemon/script.go:493-522 | When a quoted string is found in a text, which error there is otherwise, and when the parser panics |
| Script.ValueOfEscaped | dotfilesd/internal/pkg/daemon/script.go:461-489 | Reading an escaped value gives the value back, whatever follows the closing quote |
| Script.RestSkewed | dotfilesd/internal/pkg/daemon/script.go:504-519 | Where the remainder scan ends for every printed value: it starts one character inside the value |
| Script.FirstQuotedReadsBackIff | dotfilesd/internal/pkg/daemon/script.go:493-522 | A printed value and the text behind it both come back if and only if the two scanners agree on the closing quote, by a test on leading backslashes and quotes |
| Script.EmptyPromptFails | dotfilesd/internal/pkg/daemon/script.go:493-522 | Behind an empty prompt a variable clause is lost, and one ending in a backslash makes the parser panic |
| Script.FirstQuotedCrashesIff | dotfilesd/internal/pkg/daemon/script.go:493-522 | For every text, extractFirstQuoted panics if and only if there is a closing quote behind the first quote, none one character further, and a last backslash that escapes nothing |
| Script.RestCrashesIff | dotfilesd/internal/pkg/daemon/script.go:504-519 | The remainder scan runs past the end if and only if it meets no unescaped quote and the text ends in an odd number of backslashes |
| Script.RestIs | dotfilesd/internal/pkg/daemon/script.go:504-519 | For every text the remainder is all behind the first unescaped quote that no quote follows |
| Script.ValueOfUnits | dotfilesd/internal/pkg/daemon/script.go:461-489 | Every backslash escapes what follows it, be that special or not, and the first quote left closes the value |
| Script.ValueOkIff | dotfilesd/internal/pkg/daemon/script.go:461-489 | The value scan succeeds if and only if there is an unescaped quote |
| Script.PlainStartAgrees | dotfilesd/internal/pkg/daemon/script.go:504-519 | A non-empty string that starts with neither quote nor backslash can be printed anywhere |
| Script.ScriptReadsBack | dotfilesd/internal/pkg/daemon/script.go:321-431 | Printing any list of printable steps and parsing the text gives exactly those steps |
| OutputQueue.Channel.Push | dotfilesd/internal/pkg/daemon/executor_svc.go:81-94 | Undisturbed, a push leaves the newest chunks that fit, the new one included |
| OutputQueue.PushedIsLastN | dotfilesd/internal/pkg/daemon/executor_svc.go:81-94 | With no reader, the channel holds exactly the last chunks that fit |
| OutputQueue.AnyInterleaving | dotfilesd/internal/pkg/daemon/executor_svc.go:66-108 | Under every interleaving of producers and consumer the channel keeps to its capacity, no chunk is received twice or out of its producer's order, and every completed push has its chunk in exactly one place |
| OutputQueue.ReceiveTakesOldest | dotfilesd/internal/pkg/daemon/executor_svc.go:326-360 | The consumer gets the oldest chunk, and the others stay |
| OutputQueue.UndisturbedPush | dotfilesd/internal/pkg/daemon/executor_svc.go:81-94 | A push nobody disturbs leaves the newest chunks that fit, and drops at most the oldest |
| OutputQueue.SoleProducerLosesNoNewChunk | dotfilesd/internal/pkg/daemon/executor_svc.go:81-94 | A single producer's retry always finds the room it made, with any reader |
| OutputQueue.NewChunksSurviveIff | dotfilesd/internal/pkg/daemon/executor_svc.go:81-94 | No run ever discards a new chunk if and only if there is at most one producer, for any capacity and any reader |
| OutputQueue.CallChannelLosesNewChunk | dotfilesd/internal/pkg/daemon/executor_svc.go:47-48 | The losing run on a call's channel, with its 256 places |
| CallRegistry.AnyInterleaving | dotfilesd/internal/pkg/daemon/executor_svc.go:41-64 | If no call is opened under the id of a live call, in every interleaving: bytes are accounted for, both maps hold only live calls, live calls are found, closed calls have their end set, and nobody sleeps on a closed call |
| CallRegistry.BytesAreKept | dotfilesd/internal/pkg/daemon/executor_svc.go:111-122 | In every run, even with ids reused at will, bytes returned and bytes buffered are the bytes counted as stored |
| CallRegistry.StoredIsReadable | dotfilesd/internal/pkg/daemon/executor_svc.go:111-122 | Over every run, bytes returned from a call and bytes buffered are the data of the store operations that found it, in the order of their turns |
| CallRegistry.StoreReachesCall | dotfilesd/internal/pkg/daemon/executor_svc.go:111-122 | A store that found a call puts its data behind what is buffered there, and changes no other call |
| CallRegistry.CloseReachesCall | dotfilesd/internal/pkg/daemon/executor_svc.go:125-137 | A close that found a call sets its end, and changes nothing else |
| CallRegistry.ReadReachesCall | dotfilesd/internal/pkg/daemon/executor_svc.go:174-196 | A read that has its call takes bytes off the front, as many as it may and there are; else it ends, or sleeps |
| CallRegistry.LookUpFinds | dotfilesd/internal/pkg/daemon/executor_svc.go:111-116 | A look-up finds the call registered under the id, and changes nothing |
| CallRegistry.NothingFound | dotfilesd/internal/pkg/daemon/executor_svc.go:111-116 | Without a call an operation changes nothing |
| CallRegistry.NotifyWakes | dotfilesd/internal/pkg/daemon/executor_svc.go:120-121 | A broadcast wakes all that sleep on its call and nobody else |
| CallRegistry.OpenRegisters | dotfilesd/internal/pkg/daemon/executor_svc.go:41-57 | A new call is empty, open, and registered under both names |
| CallRegistry.UnregisterForgets | dotfilesd/internal/pkg/daemon/executor_svc.go:59-64 | Unregistering takes both names away, whichever calls they lead to |
| CallRegistry.ActiveCall.Write | dotfilesd/internal/pkg/daemon/executor_svc.go:117-120 | The buffer is what it was with the data behind it |
| CallRegistry.NoLostWakeUp | dotfilesd/internal/pkg/daemon/executor_svc.go:174-196 | A sleeping reader with bytes or the end to read has a broadcast on its way that wakes it |
| CallRegistry.WokenReaderReturns | dotfilesd/internal/pkg/daemon/executor_svc.go:184-196 | A woken reader with something to read returns at its next step |
| CallRegistry.AlwaysMappedIffFresh | dotfilesd/internal/pkg/daemon/executor_svc.go:41-64 | Every live call is found under its id throughout a run if and only if no call is opened under the id of a live one |
| CallRegistry.EndsStaySetIff | dotfilesd/internal/pkg/daemon/executor_svc.go:41-64 | Opening a call leaves every closed call with its end set, whatever follows, if and only if its id is free or the live call that has it is still served with its end set |
| CallRegistry.ReuseOfServedId | dotfilesd/internal/pkg/daemon/executor_svc.go:238-242 | For every state: after a call is opened under the id of a served one, closing the older one ends the newer, removes it from the map, and leaves the older gone as it was, its sleepers asleep |
| CallRegistry.ReuseOfClosingId | dotfilesd/internal/pkg/daemon/executor_svc.go:238-242 | For every state: a call opened under the id of one that is closing goes without its end being set |
| CallRegistry.OutputReachesCallIff | dotfilesd/internal/pkg/daemon/executor_svc.go:66-77 | Output written for a live call reaches it if and only if it is the plugin's latest call, or the plugin name leads nowhere any more |
| CallRegistry.OutputGoesToLaterCall | dotfilesd/internal/pkg/daemon/executor_svc.go:66-77 | Two clients call one plugin: what it writes for the first goes to the second |
| OutputRouting.AnyInterleaving | dotfilesd/internal/pkg/daemon/executor_svc.go:66-108 | However calls come and go between pushes: a push in progress has a registered call, each channel keeps to its capacity, hands out a producer's lines in the order they were written to it, and has each completed push into it in exactly one place |
| OutputRouting.LaterPushOvertakes | dotfilesd/internal/pkg/daemon/executor_svc.go:66-108 | Between channels there is no order: a line written later, to a call opened in between, is received while the earlier one waits |
| CallRegistry.ReusedIdStrandsReader | dotfilesd/internal/pkg/daemon/executor_svc.go:238-242 | One such state: closing the first call closes the second, and a reader of the first sleeps for good |
| CallRegistry.ReusedIdReached | dotfilesd/internal/pkg/daemon/executor_svc.go:41-57 | That situation is reached from the start |
| CallRegistry.ActiveCall.TryRead | dotfilesd/internal/pkg/daemon/executor_svc.go:182-196 | One turn of the read loop: bytes first, then the end, and only then waiting; limits that are not positive are no limit |
| StdinForwarding.GetsAllIff | dotfilesd/internal/pkg/daemon/executor_svc.go:174-196 | Once the end is set, a loop that reads on or stops at the end passes on every stored byte, whatever closes or unregisters the call, if and only if nothing is buffered or it holds the call and one answer takes the rest |
| StdinForwarding.GetsAllRegisteredIff | dotfilesd/internal/pkg/daemon/io.go:146-178 | While the call stays registered, a loop that reads on passes on every byte, and the terminal session, which stops at the first answer with the end set, if and only if one answer holds the rest |
| StdinForwarding.LongInputIsCutOff | dotfilesd/internal/pkg/daemon/io.go:146-178 | The terminal session loses the rest of every input longer than one answer |
| StdinForwarding.TurnsStop | dotfilesd/internal/pkg/daemon/io.go:146-178 | Once the end is set, the loop stops after some number of turns |
| StdinForwarding.PutsArePassedOn | dotfilesd/internal/pkg/daemon/io.go:146-178 | Over every run, what was passed on and what is buffered is all that was put in, in order; the end is set and the call unregistered exactly if some step did so |
| StdinForwarding.StopsOnlyAtEnd | dotfilesd/internal/pkg/daemon/io.go:146-178 | A loop stops only when the end is set or the call is gone; an empty buffer makes it wait |
| StdinForwarding.TurnPassesOn | dotfilesd/internal/pkg/daemon/executor_svc.go:174-196 | A turn passes on as much as one answer takes, and stops at the end: a reader on the empty buffer, the terminal session at once |
| StdinForwarding.TakeTurn | dotfilesd/internal/pkg/daemon/executor_svc.go:174-196 | One turn on the call's own read computes the answer of the state machine |
| PluginIo.DaemonLogWriter.Write | dotfilesd/plugin/context.go:610-634 | A write sends the lines it completes and keeps the tail |
| PluginIo.SplitsDoNotMatter | dotfilesd/plugin/context.go:610-634 | However the text is split into writes, its complete lines are sent and its tail stays buffered |
| PluginIo.WritesLoseNothing | dotfilesd/plugin/context.go:610-634 | Every byte of a series of writes is in a line sent or in the buffer, once and in order |
| PluginIo.MessageIs | dotfilesd/plugin/context.go:636-656 | A line is sent without the carriage returns and newlines at its end and otherwise unchanged |
| PluginIo.EachLineIsSent | dotfilesd/internal/pkg/daemon/executor_svc.go:66-94 | Each line is sent as one message and queued as that message and a newline, in order |
| PluginIo.QueueHoldsLastChunks | dotfilesd/internal/pkg/daemon/executor_svc.go:66-94 | For one writer and no reader the channel holds exactly the last lines of the text written, each as its message and a newline |
| PluginIo.ChunkIsLineIff | dotfilesd/plugin/context.go:636-656 | A line arrives as written if and only if no carriage return stands before its newline |
| PluginIo.QueueHoldsLastLines | dotfilesd/internal/pkg/daemon/executor_svc.go:66-94 | Without carriage returns these are exactly the last lines of the text written |
| PluginIo.RouteFindsPlugin | dotfilesd/internal/pkg/daemon/io.go:64-77 | A plugin's own streams are routed under its own name, slashes included, unless the name is empty |
| PluginIo.RouteIff | dotfilesd/internal/pkg/daemon/io.go:64-77 | A record is forwarded if and only if its source is a non-empty name followed by one of the two streams |
| PluginIo.OutputCall.Push | dotfilesd/internal/pkg/daemon/executor_svc.go:80-108 | A line goes to the channel its source names, and of a full channel the last 256 stay |
| PluginIo.StdinReader.Read | dotfilesd/plugin/context.go:562-594 | Bytes returned and buffered are the bytes received, carriage returns turned into newlines; a failed call is passed on and loses nothing; the end is reported only for an empty last answer |
| PluginIo.TtyConn.Read | dotfilesd/plugin/context.go:884-923 | A read returns the next bytes and leaves the others; window sizes on the way reach the handler and never end a read |
| PluginIo.QuietIsSkipped | dotfilesd/plugin/context.go:895-915 | Packets with neither data nor an end are passed over, and the positive sizes among them reach the handler in order |
| PluginIo.PayloadIs | dotfilesd/plugin/context.go:884-923 | What a terminal gets to read in all is the data of the packets before the first end |
| Shell.ShellSession.Exec | dotfilesd/internal/pkg/daemon/session.go:181-225 | The reading loop returns output and code and leaves the reader as the framing function says, for every stream |
| Shell.ShellSession.ExecStream | dotfilesd/internal/pkg/daemon/session.go:231-293 | For a client's stream that breaks after any number of messages, the chunks sent, the code sent if any, and what stays unread are those of the streaming function |
| Shell.StreamedIs | dotfilesd/internal/pkg/daemon/session.go:257-293 | Against Exec on the same stream: the chunks are the lines of its output as far as they are accepted; if all are, the stream is left the same, otherwise just past the lost line, and no code is sent |
| Shell.Int32Is | dotfilesd/internal/pkg/daemon/session.go:284-284 | The streamed code is the one 32-bit code congruent to the shell's modulo 2^32 |
| Shell.BrokenStreamSpoilsNext | dotfilesd/internal/pkg/daemon/session.go:257-293 | The next command gets its own output if and only if all lines were accepted; otherwise it also gets the lines after the lost one and the old delimiter line |
| Shell.FramingIff | dotfilesd/internal/pkg/daemon/session.go:203-224 | Exec returns exactly the command's output and code and leaves the reader past the delimiter line if and only if the output is empty or newline-terminated and no line of it starts like that line |
| Shell.UnterminatedOutputHidesCode | dotfilesd/internal/pkg/daemon/session.go:203-224 | Output that does not end in a newline swallows the delimiter line, and reading goes on into what follows it |
| Shell.EachGetsItsOwn | dotfilesd/internal/pkg/daemon/session.go:181-225 | In any sequence of well-behaved commands each Exec gets its own output and code |
| Shell.AtoiOfItoa | dotfilesd/internal/pkg/daemon/session.go:213-220 | Exit codes survive being printed, trimmed and parsed |
| Shell.AtoiOfSigned | dotfilesd/internal/pkg/daemon/session.go:213-220 | A code is parsed with either sign as far as it fits a 64-bit integer |
| Shell.QuotedReadsBack | dotfilesd/internal/pkg/daemon/session.go:177-179 | Read by the POSIX token rules, a quoted string adds exactly the string to a word, ends unquoted, and leaves what follows untouched |
| Shell.TokenRules | dotfilesd/internal/pkg/daemon/session.go:177-179 | The token rules used for reading back: an open quote or final backslash never ends, a backslash keeps the next character and drops a newline, expansions are not read, blanks separate words, newlines and semicolons end a command |
| Shell.QuotedIsOneWord | dotfilesd/internal/pkg/daemon/exec.go:605-609 | A quoted string before a blank or operator is one word equal to the string |
| Shell.CdIsOneCommand | dotfilesd/internal/pkg/daemon/session.go:191-195 | The prepended directory change is one command with the directory as its argument, whatever characters it has |
| Shell.ExportIsOneCommand | dotfilesd/internal/pkg/daemon/session.go:197-200 | A prepended export assigns exactly the variable's value |
| Shell.LineIsItsCommands | dotfilesd/internal/pkg/daemon/session.go:191-206 | The line written to the shell reads as the directory change, then each variable's export in order with exactly its value (for names of plain characters), then the command and its report untouched |
| Shell.ReportIsTheDelimiterLine | dotfilesd/internal/pkg/daemon/session.go:201-224 | The report command's word reads as delimiter, equals sign and the command's code; echoed behind the output it is exactly the line the session looks for |
| Session.Session.GetSudoCache | dotfilesd/internal/pkg/daemon/session.go:676-695 | Reading follows the state function: expired or undecryptable passwords are cleared with the key |
| Session.Session.NegotiateSharedKey | dotfilesd/internal/pkg/daemon/session.go:723-770 | The negotiated key is stored, under "sudo" also as the cache key, with the default lifetime when none is asked for |
| Session.Session.GetSharedKey | dotfilesd/internal/pkg/daemon/session.go:774-791 | A shared key is handed out until it expires; asking later drops it |
| Session.Session.StartShell | dotfilesd/internal/pkg/daemon/session.go:415-430 | A finalized session refuses; otherwise success means there is a shell |
| Session.Session.FinalizeSession | dotfilesd/internal/pkg/daemon/session.go:906-917 | Afterwards there is no password, no deadline, no cache key, no shared key and no shell, and the session is finalized |
| Session.ForgottenUntilStored | dotfilesd/internal/pkg/daemon/session.go:698-712 | After clearing or finalizing, until a password is stored again, every read gives nothing |
| Session.SharedForgottenUntilNegotiated | dotfilesd/internal/pkg/daemon/session.go:432-444 | After finalizing, until it is negotiated again, no shared key is handed out |
| Session.SharedKeyIff | dotfilesd/internal/pkg/daemon/session.go:723-791 | Over every run a shared key is there if and only if some negotiation stands: not replaced, not found expired, not finalized away; and then with its secret and deadline |
| Session.ShellIff | dotfilesd/internal/pkg/daemon/session.go:415-430 | Over every run there is a shell if and only if one was started and the session is not finalized |
| Session.Session.ClearSudoCache | dotfilesd/internal/pkg/daemon/session.go:698-712 | Password, deadline and cache key are gone; shared keys and shell stay |
| Session.Session.SetSudoCache | dotfilesd/internal/pkg/daemon/session.go:654-672 | A password that is not empty is stored, sealed under the cache key, else under the shared sudo key, else as it is, with its deadline |
| Session.StepKeepsReadableIff | dotfilesd/internal/pkg/daemon/session.go:556-626 | Exactly one step breaks the cache: dropping the expired shared key when it alone can open a sealed password |
| Session.CacheReadsBack | dotfilesd/internal/pkg/daemon/session.go:654-695 | Without that step, in every run a read gives nothing or the password stored last, and nothing after its deadline |
| Session.StoredIsReadUntilDeadline | dotfilesd/internal/pkg/daemon/session.go:654-695 | A stored password can be read until its deadline while no key changes |
| Session.ReadHitsIff | dotfilesd/internal/pkg/daemon/session.go:599-626 | A password comes back exactly while its deadline lasts and the key is the one it was sealed with, or still none; ciphertext exactly when its key is gone |
| Session.DroppedKeyGivesCiphertext | dotfilesd/internal/pkg/daemon/session.go:774-786 | Four calls after which the cache hands out ciphertext as the password |
| Session.FinalizedHasNoShell | dotfilesd/internal/pkg/daemon/session.go:415-430 | A finalized session stays finalized and never has a shell again |
| McpBridge.IdsDiffer | dotfilesd/internal/pkg/cli/mcp_bridge.go:48-48 | Different sequence numbers give different ids |
| McpBridge.AnyInterleaving | dotfilesd/internal/pkg/cli/mcp_bridge.go:47-95 | In every interleaving an id stands for one channel, a sender returns only a response with its own id (JSON-RPC 2.0, section 5), a cancelled sender leaves no pending entry, and delivery never blocks |
| McpBridge.OneResponseEach | dotfilesd/internal/pkg/cli/mcp_bridge.go:82-95 | Each channel gets at most one response |
| McpBridge.WaitingIsAnswerable | dotfilesd/internal/pkg/cli/mcp_bridge.go:70-95 | No accepted response is lost: a waiting sender is pending, or its response is in its channel or on its way |
| McpBridge.ResponseIsTakenIff | dotfilesd/internal/pkg/cli/mcp_bridge.go:82-95 | A response whose id is pending takes the entry out and goes to its channel; it is rejected if and only if its id is not pending |
| McpBridge.ResponseIsReceived | dotfilesd/internal/pkg/cli/mcp_bridge.go:47-95 | A response for a pending request, looked up, delivered and received, ends the wait of its sender with exactly that response |
| McpBridge.AnswerArrives | dotfilesd/internal/pkg/cli/mcp_bridge.go:70-95 | A waiting sender no longer pending gets the response in its channel, or the one on its way once that is delivered |
| McpBridge.RequestIsRegistered | dotfilesd/internal/pkg/cli/mcp_bridge.go:47-54 | A request gets the next number and is pending under its id |
| McpBridge.RequestIsAnswered | dotfilesd/internal/pkg/cli/mcp_bridge.go:47-95 | From any reachable state the whole exchange gives the sender the response to its own request |
| McpBridge.SenderKeepsWaiting | dotfilesd/internal/pkg/cli/mcp_bridge.go:47-80 | A sender under way changes only by registering, receiving what its channel holds, or giving up |
| McpBridge.AnsweredByOne | dotfilesd/internal/pkg/cli/mcp_bridge.go:70-95 | Over every run an answered sender's channel got exactly one response |
| McpBridge.CancelledIsForgotten | dotfilesd/internal/pkg/cli/mcp_bridge.go:70-80 | A cancelled sender leaves without a response, and a late response is rejected |
| McpBridge.Bridge.NextId | dotfilesd/internal/pkg/cli/mcp_bridge.go:48-48 | A new number makes an id that is not pending |
| McpBridge.Bridge.TakePending | dotfilesd/internal/pkg/cli/mcp_bridge.go:82-90 | A response takes the entry of its own id with it |
| LoggerResolution.Resolve | dotfilesd/internal/pkg/logging/manager.go:109-131 | The loop over the configured names picks the best match |
| LoggerResolution.DottedPrefixIs | dotfilesd/internal/pkg/logging/manager.go:119-123 | A configured name covers another only where that goes on with a dot |
| LoggerResolution.ResolvesIdeallyIff | dotfilesd/internal/pkg/logging/manager.go:109-131 | The exact name, else the longest dotted prefix, else root is picked if and only if that name holds against root by length and position |
| LoggerResolution.LongNamesResolveIdeally | dotfilesd/internal/pkg/logging/manager.go:107-131 | With names longer than four characters besides root this holds in any configuration order |
| LoggerResolution.ShortNameLosesToRoot | dotfilesd/internal/pkg/logging/manager.go:119-128 | A configured logger "cli" loses its own name to a root configured after it |
| LoggerResolution.PluginSinkIsLocal | dotfilesd/internal/pkg/logging/manager.go:172-186 | Adding a plugin sink changes level and source only for names at or under the plugin |
| LoggerResolution.PluginSinkChangesIff | dotfilesd/internal/pkg/logging/manager.go:172-186 | The level or source of a name changes if and only if it is at or under the plugin, the plugin's configuration beats its best match, and that gave something else than debug without source |
| LoggerResolution.SettingsChangeIff | dotfilesd/internal/pkg/logging/manager.go:107-186 | Anything at all changes, and then the new sink is among the sinks, if and only if the name is taken over, or its best match lists the plugin's sink or no registered one |
| LoggerResolution.PluginSinkNamesChangeIff | dotfilesd/internal/pkg/logging/manager.go:107-186 | The names of the sinks change if and only if, for a name taken over, they were others than the plugin's two; for the rest, the sink is new and its best match lists it or no registered one |
| LoggerResolution.ResolveLogger | dotfilesd/internal/pkg/logging/manager.go:107-165 | The loops over configurations and sink names compute level, source and sinks |
| LoggerResolution.SettingsAreOfBest | dotfilesd/internal/pkg/logging/manager.go:107-151 | Level, source and sinks are those of the best match's configuration, with the defaults where it has none |
| LoggerResolution.OwnConfiguration | dotfilesd/internal/pkg/logging/manager.go:107-151 | A configured name that holds against root gets its own level and source |
| LoggerResolution.CloserNameIsKept | dotfilesd/internal/pkg/logging/manager.go:172-186 | A name under the plugin with a configuration of its own can keep what that gives it |
| LoggerResolution.Manager.Logger | dotfilesd/internal/pkg/logging/manager.go:80-105 | A requested logger keeps its settings; a new one gets those now in force; the disagreeing names stay the same |
| LoggerResolution.Manager.AddPluginSink | dotfilesd/internal/pkg/logging/manager.go:172-186 | The memoised names whose settings disagree with resolution, sinks included, are those that did before and those the new sink changes, by the exact condition; none recovers. The same for level and source alone |
| LoggerResolution.StaleAfterAddPluginSink | dotfilesd/internal/pkg/logging/manager.go:80-105 | A plugin logger requested before its sink was added keeps the old level |
| LoggerResolution.StaleSinksElsewhere | dotfilesd/internal/pkg/logging/manager.go:80-105 | A logger outside the plugin, requested before, does not log to the new sink although resolution gives it |
| DocPaths.PathLeadsToIndexed | dotfilesd/cmd/protoc-gen-docs/main.go:482-490 | For every indexed name the path found leads back to the very message the lookup map holds |
| DocPaths.EveryMessageIsIndexed | dotfilesd/cmd/protoc-gen-docs/main.go:454-463 | The index holds every message, nested ones included, under its qualified name |
| DocPaths.FindFromIsPathOf | dotfilesd/cmd/protoc-gen-docs/main.go:531-545 | With different sibling names the backtracking search finds the one path along the names, or nothing |
| DocPaths.KeysDiffer | dotfilesd/cmd/protoc-gen-docs/main.go:719-725 | Different paths have different keys, so marks kept under keys are marks of paths |
| DocPaths.Generator.IndexFile | dotfilesd/cmd/protoc-gen-docs/main.go:391-395 | The nested loops build the index |
| DocPaths.Generator.BuildMessageDoc | dotfilesd/cmd/protoc-gen-docs/main.go:552-619 | Documentation is built to an end for circular types, restores its marks, and depends on them only |
| DocPaths.FieldsAreDocumented | dotfilesd/cmd/protoc-gen-docs/main.go:588-602 | A field of message type is documented with that message under its name, with a stub exactly when the message is being documented already |
| DocPaths.NestedAreDocumented | dotfilesd/cmd/protoc-gen-docs/main.go:605-609 | A nested message is documented in its place under its qualified name, in full unless it is being documented already |

## Left out

- Processes, builds, pipes, pseudo-terminals, signals, HTTP and RPC transport, file access and configuration decoding: a build-and-launch attempt, a parsed dependency file, a response or a stream of packets is a parameter.
- Cryptography: sealing and opening are ideal functions, and a shared secret is a value; zeroing buffers is not modelled.
- The real shell: the model has its output stream, exit codes and quoting rules, not double quotes or expansions.
- `PushSnapshot` (dotfilesd/internal/pkg/diagnostics/engine.go): it overwrites resources under other ids; history retention by age is not enforced by the code.
- Metrics, subscriptions, TUI drawing, help text, colours, log formatting and rotation.
- Tree nodes carry resource ids where the source fills display fields; the regular-expression filters are arbitrary predicates.
- `sort.Slice` and `sort.Strings`: used as sorts that permute their input into order; the source does not rely on more.
- Enum details, descriptions and default values inside schemas, and the choices listed for enum flags.
- `SchemaWalks.ToolProps`, `SchemaWalks.AddFlags` and the walks built on them take schemas in which each node holds the message types of its fields, as the unfolding guarantees; the fallbacks for unknown message types are not reached then and are left out.
- FlagValues.SetInEmpty: about a new object, because an accepted flag sets one path in each element; numbers in keys are read by a parameter, and an empty flag gives an empty array where the source gives null.
- Script: the line-length limit of the scanner, and byte offsets inside multi-byte characters, which change neither scan.
- CallRegistry: window sizes, which are stored and broadcast like stdin data, and the stdout and stderr channels, which are in OutputQueue and OutputRouting.
- PluginIo.TtyConn.Read: concurrent readers are serialised by a mutex in the source, so one read at a time is modelled.
- PluginManager.Manager: calls are sequential. In the source the dependency entry and the registration of a load are two locked sections, so an unload between them removes the entry of a plugin that is then loaded.
- Shell.LineIsItsCommands: the command itself can be any shell text, so what it and the report behind it do is not read further.
- Shell.ShellSession.Exec: a command line that cannot be written to the shell, which returns -1 at once; the read that waits for more output while the shell lives is the end of the stream here.
- Session: calls are sequential; callbacks, session variables and the session store's map are left out.
- LoggerResolution.Manager.Logger: the two checks of the memo table around the lock are one step, and so are the two halves of adding a plugin sink.
- Enum documentation paths and source comments in the documentation generator; sibling names must differ and have no dots, as protobuf requires.
- Go's integer widths, except where overflow is visible: durations and exit codes.
