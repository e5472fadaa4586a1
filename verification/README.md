# Recur: verified model of the daemon core

Recur is an automation daemon: recurfiles declare triggers, triggers deliver events, events run
actions. This project models the parts of it where many small steps have to fit together, and
proves what they keep. `dafny verify dfyconfig.toml` checks everything in a few minutes.

**The trigger engine.** An active trigger shares a little state between the dispatch loop, timer
callbacks and worker goroutines. Every critical section of `at.mu`, every handler return and every
timer firing is one atomic step; the theorems hold for every interleaving of any number of them.
`QueueMode.dfy`, `AbortMode.dfy`, `DropMode.dfy` and `Debounce.dfy` hold the state machines and
their histories, `DebouncedAbort.dfy` two of them together; `ActiveTrigger.dfy` holds the critical
sections as methods on the shared fields, each tied to a step of a state machine.
`Engine.dfy` is the set of active triggers with the calls on their drivers, up to shutdown;
`ErrorThreshold.dfy` covers error counting of actions.

**Registry, index and daemon.** `EntityIndex.dfy` is the tombstoned identifier index, refined to a
plain list. `Identity.dfy` and `Entities.dfy` say which entities a recurfile has, under which IDs.
`RegistryState.dfy` and `RegistryOps.dfy` treat the registry as a value with the invariant
`Integrity`: it is the disjoint union of the entities of the registered files, no two of which are
the same physical file, and the index holds one ref for each entity. `Registry.dfy` is the class
with the four maps. `Daemon.dfy` states how registry and engine change together, `Service.dfy` is
the handlers as methods; `StateFile.dfy` and `StateRoundTrip.dfy` cover saving and restarting.
`Lookups.dfy` says which names and IDs find a registered entity, and `Effects.dfy` what every
request, callback and event does to the fields of every entity.

**Layered configuration.** `Overlay.dfy` (recursive overlay of maps), `MapStore.dfy` and
`Store.dfy` (cached layer stores), `Settings.dfy` (precedence chain of trigger settings),
`Resolve.dfy` (aliases and option inheritance), `Inheritance.dfy` (whose options win),
`ConfigKeys.dfy` (configuration keys).

**Suggestions.** `Levenshtein.dfy` and `CloseMatches.dfy`.

Classes carry the fields the source updates in place; their methods equate the new state with a
function of the old one, and lemmas are about those functions.

## Where the code and its documentation differ

The model follows the code.

- The documentation lets aliases stand in option keys (docs/content/docs/reference/recurfile.md:42).
  The option keys of actions are never expanded: they come out with aliases replaced exactly if
  they went in so (`Resolving.ActionKeysAreLeftAlone`; `Resolving.ActionKeyStaysAnAlias` is an
  example).
- The type of an action inherited from the group is expanded twice
  (`Resolving.InheritedTypesAreExpandedTwice`), which is as good as once exactly for stable alias
  maps (`Resolving.InheritedTypesAreRightIff`).
- The comment on `Similarity` says that entirely different strings score 0. The score divides an
  edit distance in runes by a length in bytes, so two different two-byte letters score one half
  (`Suggestions.DifferentLettersScoreHalf`; `Suggestions.DisjointScoreIsZeroIff` is the condition).
- Abort mode is meant to let a new event replace the running handler. With a debounced trigger two
  timer callbacks can wait for the same handler and both start (`DebouncedAbort.BurstsOverlap`).
  Handlers are exclusive in every run exactly if debounce is off
  (`DebouncedAbort.ExclusiveIffNotDebounced`). Exclusiveness is all that debounce breaks
  (`DebouncedAbort.DebounceBreaksNothingElse`, `DebouncedAbort.BurstsAreHandled`).
- A debounced trigger takes events in order but can hand two bursts on in the wrong order
  (`Debouncing.BurstsCanBeReordered`). From a reachable state the order is safe exactly if at most
  one callback holds an event, none is then pending, and it is later than all before
  (`Debouncing.PassedOnInOrderIff`); a submission keeps that exactly if no callback holds an event
  at that moment (`Debouncing.SubmissionIsSafeIff`, `Debouncing.CalmRunsKeepOrder`).
- `OverlayMaps` is not associative (`Overlay.NotAssociative`, `Overlay.AssociativeIff`), and
  resolving is idempotent only for stable alias maps (`Resolving.ResolveIdempotentIff`).
- `Store.SetField` keeps the cache on its error path although it may have created a layer. That is
  right exactly for structs of nillable fields (`Stores.EmptyLayersNeutralIff`); for every other
  struct `Stores.StaleRead` is a run with a wrong answer.
- Setting one plugin key can make another unreadable (`ConfigKeys.PluginKeyDisappears`); it leaves
  the other alone exactly if a more specific layer decides, the layer had plugin keys before, or
  there was nothing to read (`ConfigKeys.PluginSetKeepsOtherIff`). Deleting the key again does not
  bring the other back, under the same condition (`ConfigKeys.PluginDeleteUndoesSetIff`). Setting
  a plugin key in an unknown layer reports success and changes nothing
  (`ConfigKeys.PluginSetThenGet`).
- `DeregisterRecurfile` looks its identifier up twice. If the identifier is an ID prefix shared by
  two recurfiles, it can stop the triggers of one and remove the other
  (`Daemons.DeregisterIsSafeIff` is the condition).
- Resuming an action keeps its error count (`ErrorThresholds.ResumeKeepsCount`).
- Group names may repeat in a file, but then their IDs collide (`Entities.IDsDistinctIff`).

## Assumptions

- SHA-256 is a function with results of fixed width that gives different inputs of the entities of
  the registered files different IDs (`CollisionFree`); no injectivity is assumed beyond those.
- `sameRecurfilePath` is a fixed equivalence relation. Paths are normalized already.
- In the daemon's runs what the factories answer depends on the type of a trigger only, the engine is
  not stopped, and requests are served one after the other.
- `strings.ToLower`, `time.ParseDuration`, `strconv.Atoi`, YAML decoding and the system clock are
  parameters. Floating point scores are exact rationals. RFC 3339 texts are seconds.

## Model

| member | source | states |
|---|---|---|
| QueueMode.InvAlways | src/app/recurd/triggerengine/engine.go:291-327 | the inductive invariant of queue mode holds after every interleaving of submitters and workers |
| QueueMode.QueueModeIsSafe | src/app/recurd/triggerengine/engine.go:291-327 | `running` exactly while one worker exists; accepted = handled ++ what that worker holds ++ queue (strict FIFO, nothing lost or doubled); the queue stays within the configured size, or 100 without one |
| QueueMode.HandledInOrder | src/app/recurd/triggerengine/engine.go:291-327 | the handled events are a prefix of the accepted ones, the queue is a suffix, and at most one event is between them |
| QueueMode.DroppedExactlyWhenFull | src/app/recurd/triggerengine/engine.go:292-308 | a submission is dropped iff a worker runs and the queue has its configured size, or 100 without one; otherwise it is accepted at the end of the line |
| QueueMode.DrainTerminates | src/app/recurd/triggerengine/engine.go:310-326 | without submissions every schedule of the worker is bounded |
| QueueMode.StuckMeansDone | src/app/recurd/triggerengine/engine.go:310-326 | a schedule that cannot go on has handled everything accepted |
| QueueMode.DrainsEverything | src/app/recurd/triggerengine/engine.go:310-326 | from every reachable state the backlog drains completely, in order |
| AbortMode.AbortModeIsSafe | src/app/recurd/triggerengine/engine.go:260-283 | with one dispatcher: handler bodies exclusive, in dispatch order, each after the one before has returned; `running` implies cancel and done are set; each done channel closed once |
| AbortMode.DispatchCancelsTheRunningOne | src/app/recurd/triggerengine/engine.go:262-268 | a dispatch cancels exactly the handler that still holds the trigger |
| AbortMode.StuckMeansDone | src/app/recurd/triggerengine/engine.go:260-283 | no deadlock; when nothing can move every dispatched event has been handled to the end, in order |
| AbortMode.SettlesWithoutNewEvents | src/app/recurd/triggerengine/engine.go:260-283 | without new events every schedule ends, with everything handled |
| AbortMode.TwoCallbacksOverlap | src/app/recurd/triggerengine/engine.go:212-220 | a reachable state in which two handler bodies run, when two goroutines dispatch |
| AbortMode.ExclusiveIffOneDispatcher | src/app/recurd/triggerengine/engine.go:260-283 | handlers are exclusive in every run iff at most one goroutine dispatches |
| AbortMode.SafeWithManyDispatchers | src/app/recurd/triggerengine/engine.go:260-283 | with any number of dispatchers nothing panics, cancel and done are set exactly while running, every handler begins and ends at most once, channels are closed once and after the end, and dispatched = installed plus held |
| AbortMode.ManyDispatchersSettle | src/app/recurd/triggerengine/engine.go:260-283 | with any number of dispatchers every schedule without new events is bounded, and one that cannot go on has handled every dispatched event to the end |
| DebouncedAbort.WithoutDebounce | src/app/recurd/triggerengine/engine.go:205-225 | without debounce the dispatch loop is the only dispatcher: every run is one of abort mode with one dispatcher |
| DebouncedAbort.BurstsOverlap | src/app/recurd/triggerengine/engine.go:205-283 | three bursts of submissions, their timers and callbacks lead to two handler bodies at a time |
| DebouncedAbort.ExclusiveIffNotDebounced | src/app/recurd/triggerengine/engine.go:205-283 | abort mode keeps handlers exclusive in every run iff debounce is off |
| DebouncedAbort.DebounceBreaksNothingElse | src/app/recurd/triggerengine/engine.go:205-283 | with or without debounce nothing panics, channels are closed once, and every dispatched event is handled once or still held |
| DebouncedAbort.BurstsAreHandled | src/app/recurd/triggerengine/engine.go:205-283 | without submissions every schedule of timers, callbacks and handlers is bounded; one that cannot go on has handled everything passed on, the last submission included |
| Debouncing.DebounceIsSafe | src/app/recurd/triggerengine/engine.go:205-223 | a pending event has an armed timer or a live callback; taken events are strictly increasing submissions; every untaken one was superseded |
| Debouncing.QuietMeansLastPassedOn | src/app/recurd/triggerengine/engine.go:205-223 | when all timers are through, the last submission has been passed on |
| Debouncing.QuietsDown | src/app/recurd/triggerengine/engine.go:205-223 | from every reachable state, without submissions: every schedule is bounded, and one that cannot go on has all timers through and the last submission passed on |
| Debouncing.BurstsCanBeReordered | src/app/recurd/triggerengine/engine.go:212-220 | a run that passes two taken events on in the wrong order |
| Debouncing.PassedOnInOrderIff | src/app/recurd/triggerengine/engine.go:205-223 | from a reachable state every continuation without submissions passes events on in order iff at most one callback holds an event, none is then pending, and it is later than all passed on |
| Debouncing.SubmissionIsSafeIff | src/app/recurd/triggerengine/engine.go:207-221 | a submission keeps the state orderly iff no callback holds an event at that moment |
| Debouncing.CalmRunsKeepOrder | src/app/recurd/triggerengine/engine.go:205-223 | runs of such submissions pass everything on in the order of submission |
| DropMode.DropModeIsSafe | src/app/recurd/triggerengine/engine.go:244-258 | at most one handler goroutine, and one exactly while `running`; accepted = handled ++ what it holds |
| DropMode.DroppedExactlyWhileHandling | src/app/recurd/triggerengine/engine.go:244-252 | an event is dropped iff a handler goroutine is under way |
| DropMode.WorkerFinishes | src/app/recurd/triggerengine/engine.go:253-258 | without submissions every schedule is bounded and ends with everything accepted handled and the trigger free |
| ActiveTriggers.ActiveTrigger.EnqueueSection | src/app/recurd/triggerengine/engine.go:291-308 | the section on the shared fields equals the enqueue step of the state machine |
| ActiveTriggers.ActiveTrigger.DrainSection | src/app/recurd/triggerengine/engine.go:310-326 | the section equals the dequeue step |
| ActiveTriggers.ActiveTrigger.AbortEnterSection | src/app/recurd/triggerengine/engine.go:260-272 | the section equals the dispatch step of abort mode |
| ActiveTriggers.ActiveTrigger.AbortInstallSection | src/app/recurd/triggerengine/engine.go:267-274 | the section after the wait installs the new handler |
| ActiveTriggers.ActiveTrigger.AbortReleaseSection | src/app/recurd/triggerengine/engine.go:275-283 | the section of a returned handler releases the trigger |
| ActiveTriggers.ActiveTrigger.ArmSection | src/app/recurd/triggerengine/engine.go:205-223 | the section equals the submit step of debouncing |
| ActiveTriggers.ActiveTrigger.TakeSection | src/app/recurd/triggerengine/engine.go:212-220 | the section of a timer callback equals the take step |
| ActiveTriggers.ActiveTrigger.DropEnterSection | src/app/recurd/triggerengine/engine.go:244-252 | the section equals the enter step of drop mode |
| ActiveTriggers.ActiveTrigger.DropLeaveSection | src/app/recurd/triggerengine/engine.go:253-258 | the section equals the leave step of drop mode, which `DropMode.DropModeIsSafe` is about |
| ErrorThresholds.CountIsStreak | src/app/recurd/daemon/daemon.go:258-285 | over any serial run ErrorCount is the streak of uncancelled failures, plus what was restored until the first success |
| ErrorThresholds.ErrorExactlyAtThreshold | src/app/recurd/daemon/daemon.go:267-283 | an execution turns an action to error iff it is an uncancelled failure that makes the count reach a positive threshold |
| ErrorThresholds.NeverExecutedBeforeResume | src/app/recurd/triggerengine/engine.go:353-359 | an action that is not active is not executed again before a resume, whatever arrives |
| ErrorThresholds.ActiveMeansBelowThreshold | src/app/recurd/daemon/daemon.go:258-285 | without resumes an active action is below its threshold |
| ErrorThresholds.ResumeKeepsCount | src/app/recurd/daemon/registry.go:692-711 | resuming does not reset the count, and what that means for the next failure |
| Daemons.ActionRunsSerially | src/app/recurd/daemon/daemon.go:258-285 | in every run that leaves the registration of its recurfile alone, whatever happens to others, an action goes through a serial run of its own executions, suspensions and resumptions |
| Daemons.EveryActionRunsSerially | src/app/recurd/daemon/daemon.go:258-285 | after every run, registrations and deregistrations included, every registered action has gone through a serial run of its own since its recurfile was last registered, which started it afresh |
| Daemons.StepOfAction | src/app/recurd/daemon/api.go:231-803 | what any step is for any action: it goes on serially, is gone, or has just been registered and starts afresh |
| Daemons.ErrorCountIsStreak | src/app/recurd/daemon/daemon.go:270-283 | after every run ErrorCount of every registered action is the streak of uncancelled failures since its recurfile was last registered, plus what it started the run with if that was before the run and nothing has succeeded since |
| Effects.TriggerErrorsAddUp | src/app/recurd/daemon/daemon.go:297-315 | while its recurfile stays registered, the error count of a trigger goes up by one with each exit of its driver and is never taken down |
| EntityIndexes.EntityIndex.Add | src/app/recurd/daemon/entity_index.go:37-47 | appends one ref to the live list; the maps stay consistent |
| EntityIndexes.EntityIndex.Lookup | src/app/recurd/daemon/entity_index.go:53-90 | exact ID, else folded name in insertion order, else the bag of prefix matches of three bytes or more |
| EntityIndexes.EntityIndex.Remove | src/app/recurd/daemon/entity_index.go:94-107 | removes exactly the ref with the ID from the live list; compacts iff the tombstones reach flushAt |
| EntityIndexes.EntityIndex.Flush | src/app/recurd/daemon/entity_index.go:111-132 | compaction keeps the live list and drops all tombstones |
| EntityIndexes.EntityIndex.PrefixScan | src/app/recurd/daemon/entity_index.go:76-88 | collects every live ref with the prefix once, in an arbitrary order |
| EntityIndexes.Replay | src/app/recurd/daemon/entity_index.go:37-132 | over every run the index answers as the plain list and stores fewer than live + flushAt entries |
| EntityIndexes.LiveCount | src/app/recurd/daemon/entity_index.go:94-132 | storage is live refs plus tombstones |
| EntityIndexes.LiveDistinct | src/app/recurd/daemon/entity_index.go:37-47 | no two live refs share an ID |
| EntityIndexes.ReproducibleIff | src/app/recurd/daemon/entity_index.go:76-88 | a lookup has one possible answer iff it is not decided by a prefix that several live refs share |
| Lookups.IndexedUnderNames | src/app/recurd/daemon/registry.go:184-239 | a registered trigger or action is in the index under its name, or its type if it has none; groups under their names, recurfiles under their paths |
| Lookups.FoundByID | src/app/recurd/daemon/registry.go:305-332 | an ID finds its own entity, if that is of the kind looked for, and nothing else |
| Lookups.FoundByName | src/app/recurd/daemon/registry.go:305-332 | otherwise a name in any case finds the entity of the kind that was indexed first under it |
| Lookups.FoundByPrefix | src/app/recurd/daemon/registry.go:305-332 | otherwise an ID prefix of three characters or more finds some entity of the kind that has it; a shorter one finds nothing |
| Lookups.NamedTriggerIsFound | src/app/recurd/daemon/registry.go:184-189 | a registered trigger is found by its name, if that is no ID and no other trigger shares it |
| Lookups.NamedActionIsFound | src/app/recurd/daemon/registry.go:215-220 | the same for an action |
| Lookups.RecurfileIsFound | src/app/recurd/daemon/registry.go:230-231 | a recurfile is found by its ID, and by its path if no other has it |
| Lookups.LaterNamesakeIsNotFound | src/app/recurd/daemon/registry.go:150-226 | of two triggers, or two actions, of a file that share a name the one declared later is never found |
| Identity.GroupSeedInjective | src/domain/recurfile/builder.go:103-105 | group seeds determine recurfile ID and name |
| Identity.TriggerSeedInjective | src/domain/recurfile/builder.go:95-97 | trigger seeds determine group ID, type and occurrence, for IDs of one width and any type text |
| Identity.ActionSeedInjective | src/domain/recurfile/builder.go:99-101 | the same for action seeds |
| Identity.WidthMatters | src/domain/recurfile/builder.go:103-105 | two seeds that coincide when ID widths differ |
| Identity.OccurrenceDistinct | src/app/recurd/daemon/registry.go:149-155 | siblings of one type have different occurrence indices |
| Identity.TallyNext | src/app/recurd/daemon/registry.go:149-155 | the counter of the registration loop is the occurrence index |
| Identity.IDsAreByOccurrence | src/app/recurd/daemon/registry.go:149-155 | the k-th trigger of a type has the ID of occurrence k, whatever other types surround it |
| Identity.OtherTypesDoNotMatter | src/domain/recurfile/builder.go:85-86 | inserting, removing or permuting triggers of other types changes no ID; a further trigger of the type leaves the earlier IDs alone |
| Identity.DecimalIsNumeral | src/domain/recurfile/builder.go:95-101 | counts are written in decimal without leading zeros |
| Identity.OccurrenceIsCount | src/app/recurd/daemon/registry.go:151-155 | the occurrence index is the number of earlier siblings of the type |
| Entities.FileHash | src/domain/recurfile/builder.go:74-90 | the text hashed for a recurfile |
| Entities.GroupHash | src/domain/recurfile/builder.go:74-105 | the text hashed for a group: its file's ID and its name |
| Entities.TriggerHash | src/domain/recurfile/builder.go:74-97 | the text hashed for a trigger: its group's ID, its type and the number of earlier triggers of that type |
| Entities.ActionHash | src/domain/recurfile/builder.go:74-101 | the same for an action of a trigger |
| Entities.IDIdentifies | src/app/recurd/daemon/registry.go:126-199 | an ID determines the path, the kind of entity and, within a file, its position |
| Entities.IDsDistinctIff | src/app/recurd/daemon/registry.go:138-199 | all IDs of a file differ iff its group names do |
| Entities.CoordsAre | src/app/recurd/daemon/registry.go:138-231 | registration visits every entity of the file exactly once |
| Entities.GroupActionIDsDiffer | src/app/recurd/daemon/registry.go:194-221 | the action list of a group has no duplicates |
| RegistryStates.InsertAllKeepsIndexed | src/app/recurd/daemon/registry.go:138-231 | inserting the entities of a file stores exactly those besides what was stored, with one ref each |
| RegistryStates.BackPointersAgree | src/app/recurd/daemon/registry.go:107-241 | every listed ID exists and points back, whatever points back is listed, and no list repeats an ID |
| RegistryStates.DeregisteredIs | src/app/recurd/daemon/registry.go:265-288 | following the lists removes exactly the entities that name the recurfile as owner |
| RegistryOps.DeregisterKeepsIntegrity | src/app/recurd/daemon/registry.go:243-288 | deregistering keeps the registry the union of the remaining files |
| RegistryOps.RegisterKeepsIntegrity | src/app/recurd/daemon/registry.go:107-241 | registering, or reloading under another path form, keeps the registry the union of the files, no two the same |
| RegistryOps.ListedIsOwned | src/app/recurd/daemon/registry.go:292-300 | the triggers listed for a recurfile are those that name it as owner |
| RegistryOps.TriggersInFileOrder | src/app/recurd/daemon/registry.go:292-300 | the triggers listed for a recurfile stand in the order of the file, each at its place |
| Effects.TriggerIsStored | src/app/recurd/daemon/registry.go:157-182 | every field of a registered trigger: type, name, parents, plugin, options, and its settings from the five layers |
| Effects.ActionIsStored | src/app/recurd/daemon/registry.go:194-213 | every field of a registered action, with the threshold from its trigger's settings |
| Effects.ListsAreStored | src/app/recurd/daemon/registry.go:224-231 | the fields of a registered group and recurfile, with their lists in file order |
| RegistryOps.ActionsInDeclarationOrder | src/app/recurd/daemon/registry.go:442-468 | the actions found for a trigger are the declared ones, in order of declaration |
| RegistryOps.FindIsReproducibleIff | src/app/recurd/daemon/registry.go:305-332 | a lookup by type has one possible outcome iff no prefix shared by two entities of the type decides it |
| Registries.Registry.RegisterActions | src/app/recurd/daemon/registry.go:192-222 | the innermost loop equals inserting the actions of the trigger in order, under their IDs |
| Registries.Registry.RegisterTriggers | src/app/recurd/daemon/registry.go:149-223 | the trigger loop equals inserting triggers and actions in order, and collects the lists of the group |
| Registries.Registry.RegisterEntities | src/app/recurd/daemon/registry.go:126-231 | the whole loop nest equals inserting every entity of the file |
| Registries.Registry.RegisterResolved | src/app/recurd/daemon/registry.go:107-241 | a previous registration of the same physical file is removed first and its triggers are reported; the invariant holds again (for files with distinct group names) |
| Registries.Registry.UnlockedDeregisterRecurfile | src/app/recurd/daemon/registry.go:265-288 | the loops equal the specified removal, on all maps and the index |
| Registries.Registry.UnlockedTriggerIDs | src/app/recurd/daemon/registry.go:292-300 | lists the triggers of the groups of a recurfile |
| Registries.Registry.TriggerIDsForRecurfile | src/app/recurd/daemon/registry.go:471-492 | the same for what an identifier finds |
| Registries.Registry.FindSame | src/app/recurd/daemon/registry.go:114-124 | finds a registered recurfile that is the same physical file iff there is one |
| Registries.Registry.FindEntityByType | src/app/recurd/daemon/registry.go:305-332 | gives the first match of the type among some admissible answer of the index |
| Registries.Registry.GetActionsForTrigger | src/app/recurd/daemon/registry.go:442-468 | equals the actions of the trigger, in list order |
| Registries.Registry.DeregisterRecurfile | src/app/recurd/daemon/registry.go:244-261 | removes what the identifier finds, or nothing |
| Registries.Registry.SetTriggerStatus | src/app/recurd/daemon/registry.go:631-669 | suspends or resumes exactly the trigger found and reports whether it already was |
| Registries.Registry.SetActionStatus | src/app/recurd/daemon/registry.go:673-711 | the same for actions |
| Registries.Registry.SuspendByPluginID | src/app/recurd/daemon/registry.go:722-740 | suspends all entities of the plugin and returns the triggers that were not suspended before |
| Daemons.RegistryAndEngineAgree | src/app/recurd/daemon/api.go:231-803 | after every run in which each deregistration finds one recurfile with both lookups, or stops nothing that runs, the registry is the union of the registered files and the engine runs exactly the active triggers of supported type |
| Daemons.AgreeFromTheStart | src/app/recurd/daemon/api.go:231-803 | for a daemon that starts with nothing registered, after every such run a trigger runs iff it is registered, active and of supported type |
| Effects.RegisteredFileRuns | src/app/recurd/daemon/api.go:246-268 | after a registration every trigger of the file is active with nothing counted, and runs iff its type is supported |
| Effects.OtherFilesRunOn | src/app/recurd/daemon/api.go:246-268 | a registration neither changes nor starts nor stops a trigger of another recurfile |
| Effects.DeregisteredFileStops | src/app/recurd/daemon/api.go:289-298 | deregistering removes and stops the triggers of the recurfile and leaves all others as they are |
| Effects.ToggledTrigger | src/app/recurd/daemon/api.go:577-624 | suspending or resuming a trigger sets its status, keeps its count and time, stops or starts it, and touches nothing else |
| Effects.ToggledAction | src/app/recurd/daemon/api.go:628-663 | the same for an action, which runs nothing |
| Effects.SuspendedByPlugin | src/app/recurd/daemon/registry.go:722-740 | every trigger and action of the plugin is suspended and keeps its count and time; all others are as before; the triggers reported are those that were not suspended |
| Effects.UninstallStops | src/app/recurd/daemon/api.go:779-788 | after uninstalling the engine runs no trigger of the plugin, and all it ran of others |
| Effects.FailedDriver | src/app/recurd/daemon/daemon.go:297-315 | a driver exit adds one to the count of its trigger; the one that reaches a positive threshold turns it to error and stops it; nothing else changes |
| Effects.FiredTrigger | src/app/recurd/triggerengine/engine.go:330-349 | an event of an active trigger is timed, and of any other ignored |
| Effects.ExecutedAction | src/app/recurd/daemon/daemon.go:258-285 | one execution of an active action: time, count and status for each outcome, and nothing else; of any other action none |
| Effects.EventInFileOrder | src/app/recurd/triggerengine/engine.go:330-359 | an event fires the trigger and then executes each of its actions once, in file order, each with its own outcome |
| Effects.EventExecutesEachOnce | src/app/recurd/triggerengine/engine.go:330-359 | after an event each active action of the trigger has been executed once and nothing else has changed; an event of a trigger that is not active changes nothing |
| Daemons.RegisterKeepsAgreement | src/app/recurd/daemon/api.go:246-268 | registering and reloading keep registry and engine in step |
| Daemons.DeregisterAgreesIff | src/app/recurd/daemon/api.go:289-298 | the two lookups keep agreement iff they find the same recurfile or the engine runs no trigger of either |
| Daemons.DeregisterIsSafeIff | src/app/recurd/daemon/api.go:289-298 | deregistering by an identifier keeps agreement whatever is found iff no shared prefix decides it or all candidates are idle |
| Daemons.StatusKeepsAgreement | src/app/recurd/daemon/api.go:577-803 | suspend, resume, uninstall, driver error and execution keep agreement |
| Daemons.StepKeepsIntegrity | src/app/recurd/daemon/api.go:231-803 | every step keeps the registry invariant |
| Services.Service.RegisterRecurfile | src/app/recurd/daemon/api.go:231-280 | the handler equals the register step: old triggers stopped, new ones started (for files with distinct group names) |
| Services.Service.ActivateTriggers | src/app/recurd/daemon/api.go:260-268 | starts exactly the active, supported triggers of the recurfile |
| Engines.Engine.Activate | src/app/recurd/triggerengine/engine.go:83-127 | the first factory that does not decline decides; a trigger becomes active iff its driver starts and the engine is not stopped; a driver that fails to start is stopped |
| Engines.Engine.Deactivate | src/app/recurd/triggerengine/engine.go:130-147 | removes exactly one trigger from the active set, cancelling its dispatch loop and stopping its driver |
| Engines.Engine.StopAll | src/app/recurd/triggerengine/engine.go:159-169 | the loop over the active triggers ends each driver once, in any order, and stops the engine |
| Engines.FirstAnswerDecides | src/app/recurd/triggerengine/engine.go:95-118 | the first factory that does not decline decides whether a trigger becomes active, and which driver calls are made |
| Engines.DriversAreThoseOfTheActive | src/app/recurd/triggerengine/engine.go:83-169 | at every point of every run exactly the drivers of the active triggers run: none is started twice, leaks or is stopped twice |
| Engines.StoppedForGood | src/app/recurd/triggerengine/engine.go:83-169 | the engine is stopped iff StopAll has been called; from then on the active set is empty, every activation fails and no driver is called |
| Services.Service.DeregisterRecurfile | src/app/recurd/daemon/api.go:283-308 | the handler equals the deregister step with its two lookups |
| Services.Service.StopTriggers | src/app/recurd/daemon/api.go:288-293 | stops exactly the triggers of the recurfile the first lookup finds |
| Services.Service.ToggleTrigger | src/app/recurd/daemon/api.go:577-624 | the handlers equal the suspend and resume steps |
| Services.Service.UninstallPlugin | src/app/recurd/daemon/api.go:760-803 | once the plugin is found and removed from the list, the handler equals the uninstall step on registry and engine |
| Services.Service.OnTriggerError | src/app/recurd/daemon/daemon.go:297-315 | the callback equals the driver-error step, with the threshold |
| Services.Service.ActivateRegisteredTriggers | src/app/recurd/daemon/daemon.go:417-429 | start-up establishes agreement for any restored registry |
| Services.Service.HandleEvent | src/app/recurd/triggerengine/engine.go:329-364 | an event equals firing the trigger and then executing its actions in order |
| Services.Service.ExecuteAction | src/app/recurd/daemon/daemon.go:258-285 | executing one action equals the execute step; an action that is not active is skipped |
| StateFiles.Snapshot | src/app/recurd/daemon/registry.go:759-812 | lists every recurfile once with the states of its triggers and actions in list order |
| StateFiles.RestoreEntityStates | src/app/recurd/daemon/registry.go:815-847 | overwrites exactly the saved entities of the recurfile |
| StateFiles.RestoresTheSaved | src/app/recurd/daemon/registry.go:815-847 | status, count and time of each saved entity of the recurfile after restoring, and everything else as before |
| StateRoundTrip.EntryIsComplete | src/app/recurd/daemon/registry.go:759-812 | the saved entry of a recurfile: its path, and ID, status, count and time in seconds of exactly its triggers and actions |
| StateRoundTrip.LoadState | src/app/recurd/daemon/daemon.go:477-517 | the loop equals registering and restoring one recurfile after the other |
| StateRoundTrip.LoadingKeepsIntegrity | src/app/recurd/daemon/daemon.go:477-517 | loading any state file establishes the registry invariant |
| StateRoundTrip.SaveAndRestart | src/app/recurd/daemon/daemon.go:441-517 | saving, registering the unchanged files in an empty registry in any order, and restoring: the same entities with the same statuses and counts and with times cut to the second, saved the same way, and the same triggers to run |
| Overlay.OverlayMaps | pkg/config/overlay.go:90-123 | the loops, visiting the keys of a layer in any order, compute the specified overlay; nil iff there are no layers at all |
| Overlay.OverlayLayer | pkg/config/overlay.go:102-119 | one turn of the outer loop lays one layer over the result |
| Overlay.ClosedForm | pkg/config/overlay.go:90-123 | at every depth a key takes its last definition, or the overlay of the run of maps that ends the definitions |
| Overlay.KeysAreUnion | pkg/config/overlay.go:90-123 | the keys are the union of the keys of the layers |
| Overlay.NilLayersVanish | pkg/config/overlay.go:93-97 | nil layers can be left out |
| Overlay.PairAbsorbs | pkg/config/overlay.go:102-119 | overlay(g, overlay(g, t)) = overlay(g, t) at every depth |
| Overlay.VanishesIffWithin | pkg/config/overlay.go:102-119 | an older map leaves no trace under a newer one iff the newer one has all its keys, at every depth at which both are maps |
| Overlay.NotAssociative | pkg/config/overlay.go:106-116 | three layers for which grouping matters |
| Overlay.AssociativeIff | pkg/config/overlay.go:102-119 | grouping matters only where a value that is not a map sits between two maps and the older map has a key, at some depth, that the newer one lacks |
| MapStores.MapStore.Get | pkg/config/map_store.go:76-102 | the cached answer is the overlay recomputed from the layers |
| MapStores.MapStore.Set | pkg/config/map_store.go:37-53 | sets a known layer to a copy, empty for nil; an unknown layer is an error that changes nothing |
| MapStores.MapStore.SetField | pkg/config/map_store.go:58-71 | sets one key of a known layer and drops the cache |
| MapStores.MapStore.ClearField | pkg/config/map_store.go:164-174 | removes the key from every layer |
| MapStores.MapStore.ClearLayerField | pkg/config/map_store.go:178-186 | removes the key from one layer |
| MapStores.MapStore.GetField | pkg/config/map_store.go:106-110 | the effective value of one key |
| MapStores.MapStore.Inspect | pkg/config/map_store.go:190-211 | lists the definitions of a key, most specific layer first |
| MapStores.Replay | pkg/config/map_store.go:37-222 | over every run of mutators, failing ones included, every Get is answered as without a cache |
| MapStores.InspectExplainsGet | pkg/config/map_store.go:190-222 | the first defined row of Inspect decides what Get holds |
| MapStores.LayersHoldLastWritten | pkg/config/map_store.go:37-186 | after every run each key of each layer holds what the last call that concerns it left |
| MapStores.RowsAreLayers | pkg/config/map_store.go:190-211 | Inspect has one row a layer, most specific first, with what that layer says |
| Stores.Overlay | pkg/config/overlay.go:23-57 | the field loops compute the specified struct overlay |
| Stores.EffectiveIsTop | pkg/config/store.go:267-281 | an effective field is its most specific defined value, else its zero value |
| Stores.Store.SetField | pkg/config/store.go:54-84 | the layers and the cache after success and after each failure, and when the cache stays right |
| Stores.Store.Get | pkg/config/store.go:89-108 | a right cache answers with the overlay recomputed, a wrong one with what it holds |
| Stores.Store.ClearField | pkg/config/store.go:181-205 | the field is reset in every layer |
| Stores.Store.Set | pkg/config/store.go:37-48 | replaces a known layer; an unknown one is an error that changes nothing |
| Stores.Store.Clear | pkg/config/store.go:170-176 | drops a layer |
| Stores.Store.ClearLayerField | pkg/config/store.go:210-235 | resets the field in one layer, with each error |
| Stores.Store.Inspect | pkg/config/store.go:240-264 | lists the values of a field, most specific layer first |
| Stores.Replay | pkg/config/store.go:37-281 | over every run of mutators, failing ones included, a store of nillable fields answers every Get as without a cache |
| Stores.InspectShowsEffective | pkg/config/store.go:240-264 | the first defined row of Inspect is the value Get returns |
| Stores.EmptyLayersNeutralIff | pkg/config/store.go:54-84 | creating an empty layer never changes the overlay iff every field is nillable |
| Stores.StaleRead | pkg/config/store.go:54-108 | for every struct with a plain field, a run in which a failing SetField makes the next Get wrong |
| Stores.ZeroValues | pkg/config/store.go:181-205 | an undefined pointer or map is nil, an undefined scalar its zero value |
| Stores.LayersHoldLastWritten | pkg/config/store.go:37-235 | after every run, failing calls included, each field of each layer holds what was last written there |
| Stores.RowsAreLayers | pkg/config/store.go:240-264 | Inspect has one row a layer, most specific first, with what that layer says and whether it counts as defined |
| Settings.BuildTriggerSettings | src/domain/recurfile/builder.go:48-72 | the store chain equals a direct scan of the five layers; each setting is what the most specific layer that defines its own key says, converted, and 0 or empty for a wrong type or no definition |
| Settings.DirectIsRight | src/domain/recurfile/builder.go:48-151 | the same of the direct scan, key by key |
| Settings.OneKeyOneSetting | src/domain/recurfile/builder.go:65-71 | changing one key in one layer changes no other setting |
| Settings.StoredFieldIsMostSpecific | src/domain/recurfile/builder.go:109-154 | a field read from the store is the most specific definition, up to maps, which no setting is |
| Settings.GroupLayerIsRedundant | src/domain/recurfile/resolve.go:14-36 | in a resolved group, leaving out the group layer changes no setting of any trigger |
| Resolving.MergeAliases | src/domain/recurfile/aliases.go:7-20 | group aliases override file aliases |
| Resolving.ExpandsFirstSegment | src/domain/recurfile/aliases.go:24-42 | exactly the first segment is looked up and replaced |
| Resolving.ExpandAliasIdempotentIff | src/domain/recurfile/aliases.go:24-42 | expanding twice equals expanding once for every name iff every reachable alias stands for a name whose first segment is no alias or an alias for itself |
| Resolving.ExpansionIsDeterministic | src/domain/recurfile/aliases.go:46-55 | without colliding keys the outcome is unique and holds every option under its expanded name |
| Resolving.Resolve | src/domain/recurfile/resolve.go:14-58 | rewrites every group of the file as specified |
| Resolving.ExpandOptionAliases | src/domain/recurfile/aliases.go:46-55 | the expanded keys are those of the options, and each holds the value of an option that expands to it, in any visiting order |
| Resolving.ResolveGroup | src/domain/recurfile/resolve.go:15-57 | one group is rewritten as specified |
| Resolving.ResolveTrigger | src/domain/recurfile/resolve.go:29-56 | one trigger inherits options and actions as specified |
| Inheritance.ActionOptionsWin | src/domain/recurfile/resolve.go:39-54 | a resolved action keeps its name, and its own options win over those of the group, maps key by key |
| Inheritance.TriggerOptionsWin | src/domain/recurfile/resolve.go:32-36 | the expanded options of a trigger win over those of its group |
| Inheritance.OneResult | pkg/config/overlay.go:90-123 | what is laid over what determines the result |
| Inheritance.NamesAreResolved | src/domain/recurfile/resolve.go:14-54 | names and order are kept; types get their first segment replaced, by a group alias before a file alias |
| Inheritance.GroupOptionsAreRenamed | src/domain/recurfile/resolve.go:21-22 | every option of a group comes out under its renamed key with its value, and nothing else |
| Resolving.InheritTwice | src/domain/recurfile/resolve.go:35-54 | merging the group options again changes nothing |
| Resolving.ResolveIsIdempotent | src/domain/recurfile/resolve.go:14-58 | resolving a resolved file changes nothing, for stable alias maps |
| Resolving.UnstableIsNotIdempotent | src/domain/recurfile/resolve.go:14-58 | every unstable alias map has a file for which it does |
| Resolving.ResolveIdempotentIff | src/domain/recurfile/resolve.go:14-58 | idempotent on all files with given file and group aliases iff the merged alias map is stable |
| Resolving.ActionKeysAreLeftAlone | src/domain/recurfile/resolve.go:32-55 | trigger options come out with aliases expanded; those of an action do iff they went in so |
| Resolving.ActionKeyStaysAnAlias | src/domain/recurfile/resolve.go:52-55 | an action option key that is an alias and stays one |
| Resolving.InheritedTypesAreExpandedTwice | src/domain/recurfile/resolve.go:24-54 | the type of an inherited action is the expansion of the expansion |
| Resolving.InheritedTypesAreRightIff | src/domain/recurfile/resolve.go:24-54 | inherited types are expanded as if once, in every group with given aliases, iff the merged alias map is stable |
| ConfigKeys.SetThenGet | src/domain/config/keys.go:72-133 | an accepted value is read back unless a more specific layer sets the key, and then nothing changes |
| ConfigKeys.SetChangesNoOtherKey | src/domain/config/keys.go:72-133 | other keys read as before, except unset thresholds falling back to the key, which read what it has become |
| ConfigKeys.DeleteUncoversLowerLayers | src/domain/config/keys.go:136-147 | deleting from the layer that decides uncovers the lower layers or the fallback; from any other layer it changes no reading of the key |
| ConfigKeys.DeleteChangesNoOtherKey | src/domain/config/keys.go:136-147 | other keys read as before, except unset thresholds falling back to the key, which read what it has become |
| ConfigKeys.DeleteUndoesSet | src/domain/config/keys.go:99-147 | setting and deleting leaves every field as before |
| ConfigKeys.SplitInvertsPrintingIff | src/domain/config/keys.go:250-262 | splitting inverts the printed form iff the namespace is not empty and the field has no dot |
| ConfigKeys.PluginSetThenGet | src/domain/config/keys.go:182-221 | a plugin key is read back iff the layer is known and no more specific layer sets plugin keys |
| ConfigKeys.PluginKeysHideLowerLayers | src/domain/config/keys.go:202-221 | setting the first plugin key of a deciding layer makes every key of less specific layers unreadable |
| ConfigKeys.PluginSetKeepsOtherIff | src/domain/config/keys.go:182-221 | setting a plugin key leaves another as it reads iff a more specific layer decides, the layer had plugin keys already, or the other could not be read |
| ConfigKeys.PluginKeyDisappears | src/domain/config/keys.go:182-221 | a readable key of the file that is unreadable once the command line sets another |
| ConfigKeys.PluginDeleteThenGet | src/domain/config/keys.go:223-246 | a deleted key is unreadable if its layer decides, whatever the layers below say; otherwise it reads as before |
| ConfigKeys.PluginDeleteUndoesSetIff | src/domain/config/keys.go:202-246 | setting and deleting a plugin key leaves a key as it reads under the same condition as setting alone |
| ConfigKeys.DaemonOk | src/domain/config/keys.go:21-33 | the table of the daemon meets what the laws need: typed fields, one key a field, fallbacks that are keys |
| ConfigKeys.DaemonSetThenGet | src/domain/config/keys.go:72-133 | the read-back law for the daemon's own keys |
| ConfigKeys.DaemonChoices | src/domain/config/keys.go:109-120 | concurrency mode and log level accept exactly their choices, in any case, and store them in lower case |
| ConfigKeys.OtherKeysAcceptAnything | src/domain/config/keys.go:122-132 | every other daemon key takes any text, or any number |
| ConfigKeys.DaemonFields | src/domain/config/keys.go:21-33 | the keys, the field each stands for, and which fall back to the general threshold |
| ConfigKeys.KeysAreTold | src/domain/config/keys.go:72-75 | keys that start with plugins are plugin keys, and no daemon key does |
| ConfigKeys.PluginFieldIsSet | src/domain/config/keys.go:202-221 | setting a plugin key changes that field of that layer and no other |
| ConfigKeys.PluginFieldIsDeleted | src/domain/config/keys.go:223-246 | deleting a plugin key removes that field, and its namespace iff no field is left, and nothing else |
| ConfigKeys.GetByKey | src/domain/config/keys.go:72-95 | the method equals the specified read, with fallbacks |
| ConfigKeys.SetByKey | src/domain/config/keys.go:99-133 | the method equals the specified update, with each error |
| ConfigKeys.SetPluginByKey | src/domain/config/keys.go:202-221 | equals the specified plugin update |
| ConfigKeys.DeleteByKey | src/domain/config/keys.go:136-147 | the method equals the specified deletion, for daemon and plugin keys, with each error |
| ConfigKeys.DeletePluginByKey | src/domain/config/keys.go:223-246 | equals the specified plugin deletion; what is not there is no error |
| EditDistance.CheapestScript | src/app/recur/text/suggest.go:61-87 | some edit script from a to b costs exactly the distance |
| EditDistance.NoCheaperScript | src/app/recur/text/suggest.go:61-87 | no edit script from a to b costs less |
| EditDistance.Levenshtein | src/app/recur/text/suggest.go:61-87 | the two swapped rows compute the minimum cost of an edit script |
| EditDistance.ZeroIffEqual | src/app/recur/text/suggest.go:61-87 | distance 0 iff equal |
| EditDistance.Symmetric | src/app/recur/text/suggest.go:61-87 | symmetric |
| EditDistance.Triangle | src/app/recur/text/suggest.go:61-87 | triangle inequality |
| EditDistance.LengthBounds | src/app/recur/text/suggest.go:61-87 | at most the longer length, at least the difference |
| Suggestions.Similarity | src/app/recur/text/suggest.go:43-56 | the method computes the score |
| Suggestions.ScoreLaws | src/app/recur/text/suggest.go:43-56 | scores lie in [0, 1], are 1 iff the strings are equal, are symmetric, and are 0 against an empty string |
| Suggestions.Widths | src/app/recur/text/suggest.go:47-55 | the byte length of each rune, which scores are measured in |
| Suggestions.DifferentLettersScoreHalf | src/app/recur/text/suggest.go:41-56 | two different two-byte letters score one half |
| Suggestions.DisjointScoreIsZeroIff | src/app/recur/text/suggest.go:41-56 | strings without a common rune score 0 iff the longer byte length is a rune length |
| Suggestions.CloseMatches | src/app/recur/text/suggest.go:15-38 | a best-first selection of at most n choices: only choices scoring 0.6 or more, all of them if there is room, otherwise none better than those taken |
| Suggestions.SelectionIsBest | src/app/recur/text/suggest.go:15-38 | no choice left out is better than one selected |

## Left out

- Parallel mode: it starts every handler at once and has no shared state.
- Engines.Engine.Activate: what factories and drivers do themselves, and the dispatch loop that is started, are not modelled.
- Engines.Engine.Deactivate: stopping the debounce timer and waiting for an abort handler are not modelled.
- Services.Service.RegisterRecurfile: group names of a file are distinct; entity counts, warnings and persisting after the request are not modelled; requests do not overlap.
- Services.Service.UninstallPlugin: finding the plugin and removing it from the list of plugins are left to the caller.
- StateFiles.Snapshot: the JSON file, its atomic replacement and the launch arguments are not modelled.
- Suggestions.CloseMatches: `n` is not negative (the source would panic), `sort.Slice` is any sorting permutation, scores are exact rationals instead of floats.
- MapStores.MapStore.Get: layers and results are values; that callers could write into a returned map they share with a layer is not captured.
- Overlay.OverlayMaps: nested maps are values, so sharing between layers and result is not captured.
- Stores.Overlay: fields hold strings, integers or plugin maps; other reflected kinds and a nil interface passed to SetField are not modelled.
- ConfigKeys.SetPluginByKey: plugin maps are values; that the source writes into the maps the layer already holds is not captured.
- Registries.Registry.RegisterResolved: group names of a file are distinct; with duplicates the registration overwrites entities (see `Entities.IDsDistinctIff`).
- Cancellation of handlers by Deactivate and StopAll in the middle of a run is not part of the state machines, which look at a trigger while it stays active.
- Data races on status and counter fields, and RPCs that overlap.
- External plugin processes and event routing (src/app/recurd/triggerengine/external.go, router.go): process handling.
- src/domain/recurfile/merge.go: its edits share a backing array, which a model on values would not show.
- Secrets, log redaction, gRPC, CLI, terminal output, archives, plugin discovery and manifest validation: input and output or thin wrappers.
