# Linktools: a verified model

This project models seven parts of the Linktools repository and proves what they are for. Each
module stands beside one piece of source; code that changes fields or loops is a class or a method
proved against a specification, code that only computes is a function with lemmas.

- **Architecture gate** (`Digraphs`, `Tarjan`, `CycleGate`). The recursive search for strongly
  connected components over its shared counter, stack, indices and lowlinks, and the gate that runs
  it on the import graph and on its quotient by owner. Reachability is defined by closed sets and
  proved to be the existence of a walk. Nodes and targets are taken in any order.
- **Container deployment** (`Compose`, `DependentActions`, `NamespaceProviders`, `RequiredSelection`,
  `IntegrationConsumers`, `BuildScope`, `SharedInputs`, `Deployment`, `Recovery`). The stable start order, the
  worklists and fixpoints that decide what an operation touches, and the start/recover state machine
  against a Docker that may fail part-way at every command and leave what it touched in any state.
- **Rate limiter** (`RateLimit`, `RateLimiter`). Runs of any number of clients over one bucket, with
  the full history kept beside the pruned deque, and the class with its mutable charges and events.
- **Applied snapshots and generated trees** (`Snapshots`, `GeneratedSources`, `ConsumerConfig`,
  `Pruning`). Per-service snapshot files and their index entries, provenance of generated files,
  the check that extra consumers changed nowhere else, and staging and deleting immutable trees.
- **Local dependency closure** (`InstallClosure`). The worklist over modules and their extras against
  the least set of facts closed under the dependency rules.
- **Failure capture** (`ExceptionCapture`, `SafeJson`). The traversal of a possibly cyclic graph of
  exceptions with an explicit stack, proved to list what a recursive walk lists, and the recursive
  normaliser whose cycle check still allows sharing.
- **TTL cache** (`CacheStore`, `CacheConnection`). Rows with lazy expiry and transactions refining a
  map whose entries stop existing when they expire.

Contracts of the main operations speak of the fields of the models. Functions that bodies evaluate are
proved to mean the same in lemmas of their own.

`Options`, `Sequences`, `Paths` and `KeyOrder` hold what several modules share: the result types, lists
without repetition, paths as lists of parts, and the order in which SQLite lists keys.

Where a plausible reading of the code fails, a failing input and a condition are proved:

- A module cycle across two areas need not be an owner cycle: it may run through the root package
  (`CycleGate.RootHidesOwnerCycle`). It forces one exactly when the imports along it alone leave the
  areas without layers (`CycleGate.CycleForcesOwnerCycle`); avoiding the root is the common case
  (`CycleGate.SpanningCycleForcesOwnerCycle`).
- Lazy expiry in the cache is visible in one place, the answer of `delete` for a row that expired
  and was not looked at since (`CacheStore.LazyDeletionShowsInDelete`; the condition is
  `SameOutcome`). Restoring a snapshot undoes recording it exactly when the disk held the captured
  snapshots before (`Snapshots.RestoreUndoesRecord`); a service whose captured text came from an
  older declaration had no file, and has one afterwards (`Snapshots.RestoreMayLeaveFile`).
- Pruning itself does not look for trees inside trees. On an arbitrary index it can delete a mounted
  path, exactly in the case of `Pruning.LossIsExactlyNesting` (an instance is
  `Pruning.NestedTreeIsLost`). Staging never records such an index, so no source in use is lost
  (`Pruning.NothingInUseIsObsolete`).
- The `updated` flag of `validate_consumer_config` never drops a service: when the comparison
  succeeds the result is all the changed consumers (`ConsumerConfig.ValidateConsumerConfig`).

## Model

| member | source | states |
|---|---|---|
| `Digraphs.ReachesIsWalk` | scripts/check/ai/architecture.py:647-687 | the reachability all specifications use (every closed set around a holds b) is the existence of a walk of edges |
| `Digraphs.CycleIsReturningEdge` | scripts/check/ai/architecture.py:315-321 | a graph has a closed walk, self-loops included, exactly when some edge's target reaches its source |
| `Digraphs.AcyclicIsLayered` | scripts/check/ai/architecture.py:315-321 | a graph has no closed walk exactly when its nodes can be put into layers so that every edge leads to a lower one |
| `Tarjan.StronglyConnectedComponents` | scripts/check/ai/architecture.py:647-687 | for every finite graph, targets that are not keys included, the components partition all nodes, two nodes share one exactly when each reaches the other, none is empty, every edge leaving one goes to one emitted earlier; terminates |
| `Tarjan.Search.Visit` | scripts/check/ai/architecture.py:657-679 | a visit keeps the search invariant, the old stack and the emitted components, and ends with its node emitted, or still stacked with a lowlink that is the index of a stacked node it reaches |
| `Tarjan.Search.Discover` | scripts/check/ai/architecture.py:659-663 | the node gets the next number, its own lowlink and the top of the stack; the five fields stay in step |
| `Tarjan.Search.FollowNew` | scripts/check/ai/architecture.py:665-667 | after the recursive visit the minimum of the lowlinks bounds every edge seen so far and is still reached |
| `Tarjan.Search.FollowKnown` | scripts/check/ai/architecture.py:668-669 | a target already numbered counts only while stacked; an emitted one needs no update |
| `Tarjan.Search.PopDownTo` | scripts/check/ai/architecture.py:672-678 | takes exactly the stack from the node upwards, top first, and keeps the on-stack set equal to the stack |
| `Tarjan.Search.EmitComponent` | scripts/check/ai/architecture.py:670-679 | when the lowlink is the node's own index, emitting what was popped keeps the invariant |
| `Tarjan.EnterKeepsInv` | scripts/check/ai/architecture.py:659-663 | numbering an undiscovered node that every open visit reaches keeps the search invariant |
| `Tarjan.LeaveKeepsInv` | scripts/check/ai/architecture.py:670-671 | returning without emitting is safe when the node reaches a lower stacked node |
| `Tarjan.EmitKeepsInv` | scripts/check/ai/architecture.py:672-679 | what is emitted is connected, repeats nobody and has its edges go back to emitted components |
| `Tarjan.ReachableIsEmittedEarlier` | scripts/check/ai/architecture.py:647-687 | whatever a component's member reaches was emitted in that component or before it |
| `Tarjan.ComponentsAreMaximal` | scripts/check/ai/architecture.py:647-687 | mutually reachable nodes are in one component, from the emission order alone |
| `Tarjan.FinishedSearch` | scripts/check/ai/architecture.py:681-687 | with every node numbered and no visit open, the emitted components are the condensation |
| `Tarjan.VisitEndsWaiting` | scripts/check/ai/architecture.py:670-671 | a lowlink below the index leaves the node waiting for an earlier one, and the visit's promise holds |
| `Tarjan.VisitEndsEmitting` | scripts/check/ai/architecture.py:670-679 | a lowlink equal to the index means the stack from the node upwards is a whole component |
| `CycleGate.ValidateRuntimeCycles` | scripts/check/ai/architecture.py:291-312 | a module cycle is reported exactly when the import graph has a closed walk, an owner cycle exactly when the quotient has one, that is exactly when the areas cannot be put into layers so that every import between areas leads to a lower one; each report is one component of nodes on closed walks, and all are reported |
| `CycleGate.ReportCycles` | scripts/check/ai/architecture.py:293-295 | exactly the components that hold a closed walk are reported, each once |
| `CycleGate.OwnerEdges` | scripts/check/ai/architecture.py:297-308 | the quotient: an edge between two areas exactly when a module that belongs to one imports a module that belongs to the other; root and outside modules and edges within an area do not count, and every target is a key |
| `CycleGate.ComponentCycleIsClosedWalk` | scripts/check/ai/architecture.py:315-321 | the size-or-self-loop test of a component holds exactly when its members lie on closed walks |
| `CycleGate.SelectedComponentsReport` | scripts/check/ai/architecture.py:293-295 | choosing the components that pass the test reports every cycle, and something exactly when there is one |
| `CycleGate.OwnerIsArea` | scripts/check/ai/architecture.py:630-644 | the owner found for a module is the area it belongs to: the longest public package around it below `linktools.ai`, its first part when there is none, and none for the root, modules elsewhere and the name `__root__` |
| `CycleGate.OwnerCycleMeansNoLayers` | scripts/check/ai/architecture.py:297-311 | for every import graph there is an owner cycle exactly when no layering of the areas sends every import between areas to a lower layer |
| `CycleGate.CycleForcesOwnerCycle` | scripts/check/ai/architecture.py:297-311 | a module cycle forces an owner cycle in every import graph that has it exactly when the imports along it alone leave the areas without layers |
| `CycleGate.SpanningCycleForcesOwnerCycle` | scripts/check/ai/architecture.py:297-311 | the usual case: a module cycle all of whose modules belong to areas, two of them different, forces an owner cycle |
| `CycleGate.RootHidesOwnerCycle` | scripts/check/ai/architecture.py:300-301 | through the root it need not: two areas importing each other through the root are a module cycle and no owner cycle |
| `Compose.OrderServices` | linktools-cntr/src/linktools/cntr/runtime/compose.py:81-109 | an error exactly for a required dependency outside the selection or, failing that, a cycle; otherwise a permutation with dependencies first that at every place takes the first listed service that is ready |
| `Compose.OrderServiceSubset` | linktools-cntr/src/linktools/cntr/runtime/compose.py:111-117 | the stable order of the given services alone; fails exactly on a cycle among them |
| `Compose.StableOrderIsUnique` | linktools-cntr/src/linktools/cntr/runtime/compose.py:102-108 | only one order meets the specification, so set iteration cannot show in the result |
| `Compose.OrderExcludesCycles` | linktools-cntr/src/linktools/cntr/runtime/compose.py:81-109 | a graph with an order that respects its edges has no cycle |
| `Digraphs.StuckSetHasCycle` | linktools-cntr/src/linktools/cntr/runtime/compose.py:103-105 | when no pending service is ready there is a cycle among them |
| `Compose.RestrictedEdges` | linktools-cntr/src/linktools/cntr/runtime/compose.py:114-117 | cutting dependencies down to the subset changes no edge inside it and leaves no missing dependency |
| `DependentActions.Propagate` | linktools-cntr/src/linktools/cntr/_operations.py:726-758 | one pass in dependency order computes the least simultaneous fixpoint of the recreate and restart rules; each listed action is what the final sets demand, in dependency order; fails exactly on a cycle |
| `DependentActions.DependentActionsFor` | linktools-cntr/src/linktools/cntr/_operations.py:726-749 | the same for the services actually considered: running or applied, not selected, with the current model for applied ones and the captured model for the others |
| `DependentActions.FixpointReadsBack` | linktools-cntr/src/linktools/cntr/_operations.py:751-758 | a service is recreated exactly when it was to begin with or a namespace provider is, updated exactly when it was or one of the rules applies |
| `DependentActions.PropagationAnswers` | linktools-cntr/src/linktools/cntr/_operations.py:726-756 | for each service looked at, by the definition it is judged by: listed as rebuilt exactly if it reads a namespace of a replaced or rebuilt one, and listed exactly if rebuilt or asking to restart with a renewed or listed one; nobody else is listed |
| `DependentActions.PassService` | linktools-cntr/src/linktools/cntr/_operations.py:738-749 | one service's turn keeps: nothing beyond the least fixpoint, everything already passed settled for good |
| `DependentActions.LaterChangesDoNotMatter` | linktools-cntr/src/linktools/cntr/_operations.py:751-758 | the decision for a service does not change when something it does not depend on is updated later |
| `NamespaceProviders.StoppedNamespaceProviders` | linktools-cntr/src/linktools/cntr/_operations.py:868-887 | exactly the initially stopped candidates reached from the consumers, one or more steps along captured namespace edges, through candidates |
| `NamespaceProviders.RequireRollbackModels` | linktools-cntr/src/linktools/cntr/_operations.py:847-866 | terminates with the least extension of the captured models by old declarations under which every provider has a model and an image and every running selected service an image and a model; refused when there is none, naming a running selected service or a provider that lacks it, or for a dependency cycle among the saved definitions of running selected services or of providers (on success the running selected ones have none) |
| `NamespaceProviders.HaveOrder` | linktools-cntr/src/linktools/cntr/runtime/compose.py:525-548 | saving the models of services that have one fails exactly on a dependency cycle among their saved definitions |
| `NamespaceProviders.ProvidersGrow` | linktools-cntr/src/linktools/cntr/_operations.py:857-866 | capturing more models can only add providers |
| `NamespaceProviders.CaptureMore` | linktools-cntr/src/linktools/cntr/_operations.py:857-866 | one round keeps the loop's invariant and shrinks the uncaptured candidates |
| `NamespaceProviders.CaptureIsForced` | linktools-cntr/src/linktools/cntr/_operations.py:857-866 | what a round captures is in every extension that secures a rollback |
| `NamespaceProviders.ProviderIsNeeded` | linktools-cntr/src/linktools/cntr/_operations.py:861-863 | a provider without image or model means that no extension does |
| `RequiredSelection.RequireSelection` | linktools-cntr/src/linktools/cntr/_operations.py:90-180 | with a resolved model: the selection is the least one around the start that is complete, read off the installation: containers asked for as a whole, running consumers of providers, owners and co-owners, Compose dependencies asked for; on success its services in the one stable dependency order of the containers' listing, and their owners with the chosen containers that have no services; an error is something asked for that is not installed in every complete selection, a cycle, or nothing to run |
| `RequiredSelection.ClosedIsComplete` | linktools-cntr/src/linktools/cntr/_operations.py:122-165 | the rules the loop is proved against say the same as completeness, and its defects are things asked for and not installed |
| `RequiredSelection.StartIsStart` | linktools-cntr/src/linktools/cntr/_operations.py:104-110 | the loop starts with the chosen containers that have something to run or nothing at all, and with the requested services, or all of theirs, that the model has |
| `RequiredSelection.Close` | linktools-cntr/src/linktools/cntr/_operations.py:122-165 | the loop terminates with the least selection closed under container dependencies, running consumers, owners and required Compose dependencies, and raises exactly when every closed selection is defective |
| `RequiredSelection.Pass` | linktools-cntr/src/linktools/cntr/_operations.py:122-165 | one turn adds only what every closed selection has; if it adds nothing the selection is closed and without defect; if it raises every closed selection is defective |
| `RequiredSelection.FollowContainers` | linktools-cntr/src/linktools/cntr/_operations.py:124-134 | adds what containers depend on and nothing that is not forced; raises exactly for a dependency not installed |
| `RequiredSelection.FollowConsumers` | linktools-cntr/src/linktools/cntr/_operations.py:135-148 | adds the running integration consumers of the providers and nothing that is not forced |
| `RequiredSelection.FollowServices` | linktools-cntr/src/linktools/cntr/_operations.py:149-163 | adds owners and followed Compose dependencies and nothing that is not forced; an error is one every closed selection has |
| `RequiredSelection.EverythingIsClosed` | linktools-cntr/src/linktools/cntr/_operations.py:122-165 | the selection of everything installed is closed, which bounds the loop |
| `RequiredSelection.QuietPassIsClosed` | linktools-cntr/src/linktools/cntr/_operations.py:164-165 | a pass that leaves all four sets as they were has reached a closed selection |
| `RequiredSelection.DefectsSpread` | linktools-cntr/src/linktools/cntr/_operations.py:128-130 | a defect of a selection is a defect of every larger one, so raising early is the same as raising late |
| `IntegrationConsumers.FindConsumers` | linktools-cntr/src/linktools/cntr/_operations.py:182-206 | exactly the containers at the end of a chain from a target in which each feeds the next, by a present or recorded declaration, and each behind the target is installed, not selected and running; in project order |
| `IntegrationConsumers.ConsumerIsChained` | linktools-cntr/src/linktools/cntr/_operations.py:182-206 | the reachability the worklist computes is standing at the end of such a chain |
| `IntegrationConsumers.ConsumerIsFed` | linktools-cntr/src/linktools/cntr/_operations.py:197-205 | each is eligible and directly fed by a target or another one |
| `BuildScope.CheckBuildScope` | linktools-cntr/src/linktools/cntr/_operations.py:643-663 | refused with exactly the unselected services that some build needs, directly or through selected builds; accepted only if every service a context of a build names is selected |
| `BuildScope.SourcesAreTaken` | linktools-cntr/src/linktools/cntr/_operations.py:643-663 | what is collected of a build's contexts are exactly the services named by a value `service:name`, in a mapping or behind the first `=` of a line |
| `BuildScope.AcceptedNeedsNothingElse` | linktools-cntr/src/linktools/cntr/_operations.py:643-663 | stopping at unselected services loses nothing: accepted exactly when everything any of the builds needs, at any distance in the whole graph, is selected |
| `BuildScope.LineNamesService` | linktools-cntr/src/linktools/cntr/_operations.py:652-654 | of a "name=value" line exactly the value after the first "=" is read, whatever it contains |
| `SharedInputs.SharedInputConsumers` | linktools-cntr/src/linktools/cntr/_operations.py:819-845 | exactly the applied services linked to the failed one by changed bind inputs, through applied services |
| `SharedInputs.AffectedServices` | linktools-cntr/src/linktools/cntr/_operations.py:515-522 | the failed services and the applied ones linked to them; no applied service outside shares a changed bind input with one inside |
| `SharedInputs.SettledHoldsLinked` | linktools-cntr/src/linktools/cntr/_operations.py:836-845 | a set that nothing outside shares an input with holds every linked service |
| `SharedInputs.LinkedTwice` | linktools-cntr/src/linktools/cntr/_operations.py:517-522 | links of links are links, so a second round of the recovery's loop adds nothing |
| `SharedInputs.SharingIsMutual` | linktools-cntr/src/linktools/cntr/_operations.py:828-845 | sharing a changed input, equal or one inside the other, is symmetric |
| `SharedInputs.ChangedAreNew` | linktools-cntr/src/linktools/cntr/_operations.py:823-832 | the sources collected are exactly those mounted now at a target whose last previous bind mount did not have them |
| `SharedInputs.ShareIsMet` | linktools-cntr/src/linktools/cntr/_operations.py:838-841 | two services share an input exactly when a new source of one is, contains as a directory, or lies inside a new source of the other |
| `Recovery.Start` | linktools-cntr/src/linktools/cntr/_operations.py:396-625 | for every way the steps can fail: success means the stop, the one apply of the selection and the commands that the updated and recreated services demand of running dependents, in order and nothing else, with Docker showing every selected service as wanted and its model recorded; a rollback ends as `Recover` promises from a state that recovery can start in; an ordering failure names known definitions with a cycle; after a capture that secures the rollback, recovery never ends for lack of a model; if every step of the attempt works it fails only when Docker does not show the selection as wanted or the dependents' definitions have a cycle, and if every step of the recovery works, recovery fails for no step |
| `Recovery.Recover` | linktools-cntr/src/linktools/cntr/_operations.py:482-625 | when recovery completes, from what the inspection proved: the decision is the one `DecisionIsDetermined` allows; every selected service that ran at the start is exactly as Docker first showed it, restarted in place, confirmed with its current model recorded and still shown as it was confirmed unless recovery itself renewed it, or re-applied from its previous model with that recorded; applied services without a command show what was wanted; everything discarded, temporarily started, or failed without having run shows no replica and no new snapshot; services neither selected nor running are as they were; no applied service outside the affected set shares a changed bind input with one inside; no running service keeps a namespace that was replaced or stopped; restored services are rebuilt and of the others exactly those are acted on that restored services, standing updates and each other's actions demand; the commands given are the stop of the discarded services, one command per action with everything its definition depends on first, and the stop of the temporary ones. An ordering failure names known definitions with a cycle; if every step works it ends completed, or for such a cycle or a missing model; when it breaks off it has given no command, or the stop of the discarded services, or then a front of the ordered actions and the stop of the temporary ones among them |
| `Recovery.NobodyIsForgotten` | linktools-cntr/src/linktools/cntr/_operations.py:553-557 | after a completed recovery a running service that is neither restored nor discarded was rebuilt if it reads a namespace of something restored, rebuilt or recreated by a standing update, acted on if it asks to restart with something restored, acted on or updated, and not acted on without such a cause |
| `Recovery.ChooseActions` | linktools-cntr/src/linktools/cntr/_operations.py:552-570 | the actions are the restored services and exactly what they, the standing updates and each other demand; it fails for known definitions with a cycle or a restored service without any model |
| `Deployment.StopPhase` | linktools-cntr/src/linktools/cntr/_operations.py:408-423 | however the stop of a restart breaks off, what recovery relies on holds and nothing outside the selection was touched; the stop counts as attempted exactly when its one command was given, and as done only if nothing of the stopped services runs; what counts as running and as waiting for its restart is stated service by service |
| `Deployment.PlanEffects` | linktools-cntr/src/linktools/cntr/_operations.py:424-450 | the one pass over the ordered selection finds sets in which exactly those services are recreated whose definition or image changed, that are new, or that read a namespace of a recreated one, and exactly those updated that are recreated, restart with an updated dependency, depend on an existing recreated one, are to be stopped, or do not run |
| `Deployment.BatchPhase` | linktools-cntr/src/linktools/cntr/_operations.py:451-464 | success leaves everything recorded and shown by Docker as it was confirmed, by one apply of the whole selection; a failure anywhere in it counts every selected service as failed and none as applied; services outside the selection are as before; what counts as running follows Docker once the batch is complete |
| `Deployment.DependentsPhase` | linktools-cntr/src/linktools/cntr/_operations.py:465-481 | on success exactly the actions that the least propagation from the updated and recreated services demands were given, each service its own, in dependency order, and nobody else was touched; if one fails it alone is failed, it ran outside the selection, and the batch stays applied, recorded and shown by Docker |
| `Deployment.RunDependents` | linktools-cntr/src/linktools/cntr/_operations.py:465-481 | the commands given are the listed actions in their order; a service's last command is its action |
| `Deployment.NobodyIsLeftBehind` | linktools-cntr/src/linktools/cntr/_operations.py:465-481 | after a successful operation a service running outside the selection, judged by its captured definition, was recreated exactly if it reads a namespace of something recreated, else restarted exactly if it asks to restart with something updated or acted on, and else not touched |
| `Recovery.SettleBatch` | linktools-cntr/src/linktools/cntr/_operations.py:484-500 | after a broken batch exactly those selected services count as applied, and are recorded, that Docker shows as wanted and that are unchanged or new, or have a configuration hash on every instance and none that an instance had before; the rest of the selection counts as failed, and what runs is what Docker shows; Docker is not touched |
| `Recovery.Reinspect` | linktools-cntr/src/linktools/cntr/_operations.py:501-513 | after a stop that broke off, what counts as running is what a new inspection shows; that inspection may fail |
| `Recovery.Decide` | linktools-cntr/src/linktools/cntr/_operations.py:501-550 | restore and cleanup are disjoint and are, apart from the temporary services, exactly the services interrupted by the stop, the affected ones, and the readers that the least namespace-only propagation from the discarded ones reaches, by whether they ran at the start; temporary are exactly the discarded providers the restored ones reach; outside both sets no running service reads a namespace of a discarded one; it fails only for known definitions with a cycle |
| `Recovery.DecisionIsDetermined` | linktools-cntr/src/linktools/cntr/_operations.py:501-550 | these guarantees leave no choice: two decisions that meet them are equal, so nothing is restored or discarded that need not be |
| `Recovery.ReadersAreListed` | linktools-cntr/src/linktools/cntr/_operations.py:521-536 | what the pass lists are exactly the readers of what the least propagation discards |
| `Recovery.ConsumersAreDealtWith` | linktools-cntr/src/linktools/cntr/_operations.py:525-534 | the namespace-only propagation lists every running reader of what is discarded |
| `Recovery.RecoveryIsEquipped` | linktools-cntr/src/linktools/cntr/_operations.py:847-866 | after a capture that secures the rollback every restored service has a captured or older model, every temporary provider a captured model and its image, and every restored selected service its original image |
| `Recovery.CaptureSecures` | linktools-cntr/src/linktools/cntr/_operations.py:387-389 | the capture before the first change secures the plan with the models it returns |
| `Recovery.Discard` | linktools-cntr/src/linktools/cntr/_operations.py:538-546 | on success one stop of the discarded services was given if there are any, each of them shows no replica and has its old snapshot back; every other service, its observation and its snapshot are as before; the discarded ones no longer count as running |
| `Recovery.CarryOutAll` | linktools-cntr/src/linktools/cntr/_operations.py:553-619 | the commands given are one per action, in an order that puts dependencies first, up to the one that fails if one does, and then one stop of the temporary services among them if there are any; on success every action was carried out, restored snapshots are put back, temporary providers show no replica again, and services without an action are as before; an ordering failure means a cycle and nothing done |
| `Recovery.RecoveryAddsUp` | linktools-cntr/src/linktools/cntr/_operations.py:501-621 | the parts compose to the whole guarantee |
| `Recovery.StoppedStayDown` | linktools-cntr/src/linktools/cntr/_operations.py:538-619 | what was discarded or ran for a while shows no replica in the end, whatever was started in between |
| `Recovery.BystandersAreLeft` | linktools-cntr/src/linktools/cntr/_operations.py:396-621 | a service neither selected nor running at the start is as it was found |
| `Recovery.SelectedIsBack` | linktools-cntr/src/linktools/cntr/_operations.py:501-611 | the three ways in which a selected service that ran at the start can end; a confirmed one that recovery gave no command is still what Docker showed when it was confirmed |
| `Recovery.AppliedAreStillShown` | linktools-cntr/src/linktools/cntr/_operations.py:538-619 | nothing happens to an applied service that recovery gives no command: Docker shows it as wanted in the end |
| `Recovery.NamespacesAreFresh` | linktools-cntr/src/linktools/cntr/_operations.py:553-607 | a running dependent of a restored namespace provider is itself recreated, from the current model if it was applied and from its previous one otherwise |
| `RateLimit.RpmBound` | linktools-ai/examples/runtime_rate_limits.py:122-140 | in every run every half-open 60-second window holds at most rpm admissions of the full history, although the deque is pruned |
| `RateLimit.TpmBound` | linktools-ai/examples/runtime_rate_limits.py:122-169 | in every reachable state the reservations of live charges fit tpm, and live tokens exceed tpm by at most what live finished requests used beyond their reservations |
| `RateLimit.AdmitKeepsSpacing` | linktools-ai/examples/runtime_rate_limits.py:133-140 | with room in the deque, the admission rpm places back is a full window old |
| `RateLimit.StepKeepsInv` | linktools-ai/examples/runtime_rate_limits.py:95-169 | every step of every client keeps the window, the charges, the match of charges and requests in flight, and that no wait has lost its wake-up |
| `RateLimit.RunKeepsInv` | linktools-ai/examples/runtime_rate_limits.py:95-169 | every state of every run from an empty bucket has these properties |
| `RateLimit.RunExtendsHistory` | linktools-ai/examples/runtime_rate_limits.py:161-169 | over a run admissions are only added and a settlement never lowers a charge |
| `RateLimit.OnlyAdmissionAndCompletionTouchCharges` | linktools-ai/examples/runtime_rate_limits.py:151-152 | a queued or cancelled waiter holds no charge: one is made only by an admitted attempt and settled only by its own completion |
| `RateLimit.AdmittedExactlyWhenItFits` | linktools-ai/examples/runtime_rate_limits.py:118-140 | an attempt is admitted exactly when the full history has fewer than rpm admissions in the last minute and the tokens of charges in flight or finished within it leave the reservation free; it is recorded as reserved and nothing recorded before changes |
| `RateLimit.DeadlineIsEarliest` | linktools-ai/examples/runtime_rate_limits.py:142-158 | a queued attempt waits until the first time at which a finished charge or an admission stops counting, and without limit only if none will |
| `RateLimit.CompletionSettles` | linktools-ai/examples/runtime_rate_limits.py:161-169 | a completion raises its own charge to what was observed, never below the reservation, starts its last minute, touches no other charge and wakes everybody |
| `RateLimit.SettlementStands` | linktools-ai/examples/runtime_rate_limits.py:161-169 | in every later state of a run the charge has the larger of its reservation and what its completion observed, and the expiry set then |
| `RateLimit.WaiterWakesWithCause` | linktools-ai/examples/runtime_rate_limits.py:151-159 | a queued client can give up at any time and wakes only when its event is set or its deadline has come; either changes nobody else and nothing in the bucket |
| `RateLimit.SubmissionIsChecked` | linktools-ai/examples/runtime_rate_limits.py:102-120 | a request goes to its first attempt exactly when its reservation is positive and fits tpm |
| `RateLimit.TimePasses` | linktools-ai/examples/runtime_rate_limits.py:124-124 | time may pass at any moment, never backwards, and changes nothing else |
| `RateLimit.NobodyStuck` | linktools-ai/examples/runtime_rate_limits.py:142-169 | a waiting client can wake now, or after a strictly positive time, or by the completion of some request in flight, which sets its event whatever it observed |
| `RateLimit.RefusalCanEnd` | linktools-ai/examples/runtime_rate_limits.py:142-159 | a refused attempt waits a strictly positive time, or without limit only while a charge is in flight; no busy spin |
| `RateLimit.SoloAcquire` | linktools-ai/examples/runtime_rate_limits.py:122-159 | with nothing in flight and no competitor a valid reservation retried at its deadlines is admitted by the latest expiry |
| `RateLimiter.GlobalRateLimit.Open` | linktools-ai/examples/runtime_rate_limits.py:79-93 | accepted exactly for a label that is not blank, positive limits and a fixed reservation within tpm; starts with the empty bucket |
| `RateLimiter.SpacesAreWhitespace` | linktools-ai/examples/runtime_rate_limits.py:79-80 | what counts as blank are exactly the 29 code points that stripping takes away |
| `RateLimiter.GlobalRateLimit.Attempt` | linktools-ai/examples/runtime_rate_limits.py:124-149 | one pass over the mutable fields does what the bucket function says, and gives a new charge object, or the deadline and the event to wait for |
| `RateLimiter.GlobalRateLimit.Clean` | linktools-ai/examples/runtime_rate_limits.py:125-131 | the deque loop and the list filter together are the pruning of the bucket |
| `RateLimiter.GlobalRateLimit.Totals` | linktools-ai/examples/runtime_rate_limits.py:132-148 | the sum and the minimum over charge objects are those of the held part of the history |
| `RateLimiter.GlobalRateLimit.Record` | linktools-ai/examples/runtime_rate_limits.py:137-140 | the admission appends one time and one new charge object |
| `RateLimiter.GlobalRateLimit.Settle` | linktools-ai/examples/runtime_rate_limits.py:161-169 | the charge gets the larger of its tokens and the observed ones and expires 60 seconds later, no other charge changes, the bucket is settled likewise, and everyone waiting on the event is woken; a new event takes its place |
| `RateLimiter.FilterIsRelease` | linktools-ai/examples/runtime_rate_limits.py:128-131 | filtering the list of objects is releasing the expired entries of the history |
| `RateLimiter.HeldFigures` | linktools-ai/examples/runtime_rate_limits.py:132-148 | the list of objects adds up to the held entries of the history |
| `Snapshots.FilesAreDistinct` | linktools-cntr/src/linktools/cntr/artifacts.py:601-602 | distinct services never share a snapshot file |
| `Snapshots.HexIsInjective` | linktools-cntr/src/linktools/cntr/artifacts.py:601-602 | the hexadecimal spelling of the bytes determines the name |
| `Snapshots.HexAt` | linktools-cntr/src/linktools/cntr/artifacts.py:601-602 | the file name spells each byte of the name in two digits, in order |
| `Snapshots.AppliedServiceModels.Record` | linktools-cntr/src/linktools/cntr/artifacts.py:604-622 | refused as a whole, with nothing written, when a service is not in the model; otherwise each service's file and index hash are those of its current text and every other file and entry is as it was |
| `Snapshots.AppliedServiceModels.Restore` | linktools-cntr/src/linktools/cntr/artifacts.py:624-640 | each service's file and entry are those of its captured text, or absent where none was captured; everything else as it was |
| `Snapshots.AppliedServiceModels.UpdateIndex` | linktools-cntr/src/linktools/cntr/artifacts.py:195-223 | entries merged, removed paths gone (removal wins), unrelated entries kept |
| `Snapshots.SnapshotsFollowLastCall` | linktools-cntr/src/linktools/cntr/artifacts.py:604-640 | after any sequence of calls a service's file and index entry are those of the last call that named it, or the initial ones |
| `Snapshots.OtherArtifactsSurvive` | linktools-cntr/src/linktools/cntr/artifacts.py:195-223 | files and entries of other artifacts survive every sequence of calls |
| `Snapshots.RestoreUndoesRecord` | linktools-cntr/src/linktools/cntr/artifacts.py:604-640 | restoring what was recorded gives the original disk back if and only if it held the captured snapshots |
| `Snapshots.CapturedTextLeavesFile` | linktools-cntr/src/linktools/cntr/artifacts.py:604-640 | a service with captured text and no snapshot file has one after record and restore, on any disk; `RestoreMayLeaveFile` is an instance on the empty disk |
| `Snapshots.RestoreMayLeaveFile` | linktools-cntr/src/linktools/cntr/artifacts.py:604-640 | the concrete service and texts for which restoring does not undo recording |
| `GeneratedSources.IndexedSources` | linktools-cntr/src/linktools/cntr/artifacts.py:361-388 | every path that a well-formed record of a tree, or of a file at its place in one, accounts for, with owner, file and tree, and no other; refused exactly when two records disagree about a path |
| `GeneratedSources.ClaimsAreSaid` | linktools-cntr/src/linktools/cntr/artifacts.py:361-388 | what is taken from one record is exactly what it says of paths |
| `GeneratedSources.ClaimIsInsideTree` | linktools-cntr/src/linktools/cntr/artifacts.py:376-383 | an indexed path is its tree followed by its file name, and the tree is one the index records for that owner |
| `GeneratedSources.DeclaredSources` | linktools-cntr/src/linktools/cntr/artifacts.py:391-402 | exactly the paths the hooks will write, each with every owner and file it is declared for |
| `ConsumerConfig.ConsumerConfigChanges` | linktools-cntr/src/linktools/cntr/artifacts.py:405-429 | the services with a bind mount of a path some hook will write that was not at its place with its source before, each once in the order given; refused exactly when a service with such a mount has no applied model |
| `ConsumerConfig.ConsumersRead` | linktools-cntr/src/linktools/cntr/artifacts.py:405-429 | the tests made on models and declared sources mean that, read off the mounts and the hooks |
| `ConsumerConfig.ValidateConsumerConfig` | linktools-cntr/src/linktools/cntr/artifacts.py:432-464 | accepted exactly when every moved consumer differs from its applied model only by bind mounts that follow one generated file of one container from a recorded to a declared tree, and nothing else it refers to is defined differently; then all of them are named |
| `ConsumerConfig.FilesMovedExactly` | linktools-cntr/src/linktools/cntr/artifacts.py:432-464 | the comparison of candidate and support means exactly that |
| `ConsumerConfig.SurroundingsAreUsed` | linktools-cntr/src/linktools/cntr/artifacts.py:342-360 | the definitions compared are exactly those of the networks, volumes, secrets and configs the service refers to: the default network when it names none, no network under a network mode or an empty list |
| `ConsumerConfig.MapBack` | linktools-cntr/src/linktools/cntr/artifacts.py:443-459 | the spec with sources mapped back equals the old spec exactly when nothing but such moves separates them, and then the flag is set whenever they differ at all |
| `ConsumerConfig.CheckConsumer` | linktools-cntr/src/linktools/cntr/artifacts.py:440-463 | one changed consumer is accepted exactly when only its generated files moved, and then the flag is set |
| `ConsumerConfig.SupportsCompareSurroundings` | linktools-cntr/src/linktools/cntr/artifacts.py:342-358 | after such moves, equal supports mean that every network, volume, secret and config the service refers to has the same definition or none in both, and the rest of the model is the same |
| `ConsumerConfig.ExactUpdateKeepsNames` | linktools-cntr/src/linktools/cntr/artifacts.py:342-358 | moving bind sources changes none of the names a service refers to |
| `ConsumerConfig.MovesStayWithTheirOwner` | linktools-cntr/src/linktools/cntr/artifacts.py:453-458 | every accepted move goes from an indexed tree of a container to a tree a hook of the same container declares, at the same place in both |
| `Pruning.GeneratedTrees.Stage` | linktools-cntr/src/linktools/cntr/artifacts.py:268-339 | the tree directory is in the container's home under the revision's or the content's digest; afterwards it holds exactly the given files and the folders on their way, with the modes asked for if it is new, and the index lists it and each file with digest and producers and is otherwise as before; nothing that was on disk changes; refused exactly for a name that leads out of the tree or a tree that holds anything else, and then nothing is listed; it fails otherwise exactly when the place cannot be written, something on the way is no directory, or one name is a folder of another |
| `Pruning.LayoutIsHeld` | linktools-cntr/src/linktools/cntr/artifacts.py:288-305 | the comparison with a tree already there succeeds exactly when it holds these files, the folders on their way and nothing else |
| `Pruning.RecognisedNames` | linktools-cntr/src/linktools/cntr/artifacts.py:491-494 | a tree's name is recognised exactly if it is 64 lower-case hexadecimal digits, alone or behind `revision-` |
| `Pruning.MatchIsExact` | linktools-cntr/src/linktools/cntr/artifacts.py:290-303 | the comparison with a tree already there succeeds exactly when it holds those files and their folders and nothing else, no name being both |
| `Pruning.TreePlanted` | linktools-cntr/src/linktools/cntr/artifacts.py:304-320 | a new tree adds exactly its layout below its directory and keeps the disk well formed |
| `Pruning.TreeListed` | linktools-cntr/src/linktools/cntr/artifacts.py:326-338 | the recorded entries are in their owner's home and agree with the disk |
| `Pruning.NamesIdentifyContent` | linktools-cntr/src/linktools/cntr/artifacts.py:235-241 | barring a hash collision, a tree named by content shares its directory with no other mode or content, and never with a revision |
| `Pruning.StagedTreesDoNotNest` | linktools-cntr/src/linktools/cntr/artifacts.py:276-287 | in an index that staging kept, two trees that overlap are one tree of one owner |
| `Pruning.StagedHasOneClaim` | linktools-cntr/src/linktools/cntr/artifacts.py:384-387 | such an index says one thing about each path, so reading it is never refused |
| `Pruning.GeneratedTrees.Prune` | linktools-cntr/src/linktools/cntr/artifacts.py:467-508 | nothing changes exactly when an untracked service runs that this operation does not apply and, in a full project, a container declares; otherwise exactly the left-over trees go, with their records: recorded as a container's own, beside the one it prepared, of a tree's name, and no current or previous bind mount belongs to them or may reach their directory unrecorded; on an index that staging kept, every path on disk that equals, contains or lies inside a current or previous bind source stays as it was, and so does every prepared tree |
| `Pruning.LeftOverIsObsolete` | linktools-cntr/src/linktools/cntr/artifacts.py:482-500 | the set arithmetic of the code selects exactly the left-over trees |
| `Pruning.GeneratedTrees.PruneOwner` | linktools-cntr/src/linktools/cntr/artifacts.py:487-508 | one container's turn deletes its obsolete trees only, and all of them |
| `Pruning.GeneratedTrees.Delete` | linktools-cntr/src/linktools/cntr/artifacts.py:502-508 | exactly the tree's directory and that owner's records of it go |
| `Pruning.NothingInUseIsObsolete` | linktools-cntr/src/linktools/cntr/artifacts.py:487-501 | on an index that staging kept, no deleted tree equals, contains or lies inside a source in use |
| `Pruning.LossIsExactlyNesting` | linktools-cntr/src/linktools/cntr/artifacts.py:489-497 | on any index, a deleted tree touches a source in use if and only if the source belongs to another indexed tree inside it, or around it with the deleted one on the mounted file's way |
| `Pruning.NestedTreeIsLost` | linktools-cntr/src/linktools/cntr/artifacts.py:489-507 | an index with a tree recorded inside another container's tree, whose mounted source pruning deletes |
| `Pruning.DeletedIsInsideData` | linktools-cntr/src/linktools/cntr/artifacts.py:372-379 | nothing outside the data directory is ever deleted, since records of such trees are not read back |
| `Pruning.PreparedStays` | linktools-cntr/src/linktools/cntr/artifacts.py:496-497 | nothing in a tree this operation prepared is deleted, whichever container is pruned |
| `Pruning.AgreementOutlivesTrees` | linktools-cntr/src/linktools/cntr/artifacts.py:502-508 | after pruning every remaining entry's tree or file is still on disk with its digest |
| `InstallClosure.InstallRequirements` | manage.py:578-661 | without requests every module as listed; with an unknown name an error; otherwise the least closure of the requests, each module once: requested ones as they first come, later ones behind one that needs them; every requirement that a listed module asks for, by a plain dependency or by an optional list that one of its extras names or that `all` names, has the local module it names listed with its extras |
| `InstallClosure.TargetIsNamed` | manage.py:613-613 | a requirement without a URL is resolved to the last module spelled like it, and to nothing if there is none |
| `InstallClosure.ClosureServes` | manage.py:621-661 | in a closed set of facts everything asked for, read off the declarations, is served |
| `InstallClosure.Worklist.Include` | manage.py:592-602 | adds exactly the module and its extras, and queues it when anything was new |
| `InstallClosure.Worklist.Request` | manage.py:604-611 | one more request is held, nothing else is added, a new module goes to the end |
| `InstallClosure.Worklist.Drain` | manage.py:621-652 | the queue runs empty with the least closure of the requests |
| `InstallClosure.Worklist.Visit` | manage.py:621-652 | after its turn a module is queued again or closed under the rules; if nothing was added the queue shrank |
| `InstallClosure.Worklist.Follow` | manage.py:642-652 | one declaration is skipped or granted, and the module stays queued or unchanged |
| `InstallClosure.DeclarationsAreNeeds` | manage.py:628-650 | the declarations built for a turn that are not skipped are exactly the requirements the rules give the module with its present extras |
| `InstallClosure.VisitedIsClosed` | manage.py:621-652 | granting them closes the module unless it gained an extra and is queued again |
| `InstallClosure.GrantingIsSound` | manage.py:642-652 | what a turn adds is in every closed set that holds the requests |
| `InstallClosure.NewNameIsNeeded` | manage.py:592-602 | a module first included by a dependency stands behind one that needs it |
| `InstallClosure.EmptyQueueIsLeastClosure` | manage.py:621-661 | an empty queue means the least closure |
| `InstallClosure.ClosureIgnoresOrder` | manage.py:604-652 | modules and extras do not depend on the order of the arguments |
| `ExceptionCapture.Capture` | linktools-ai/src/linktools/ai/errors.py:334-403 | terminates on cyclic graphs; the list is that of the recursive walk: cause or context first, then the group members in order, each with everything below it; every reachable exception has exactly one full entry; under each full entry there is one entry for each group member, for the cause, and for the context if there is no cause and it is not suppressed, under its own path, and no others; no path and no dotted path text occurs twice; every alias names an earlier full entry of the same exception |
| `ExceptionCapture.LinksAreAll` | linktools-ai/src/linktools/ai/errors.py:395-403 | the links queued for an exception are exactly what it leads to, each once |
| `ExceptionCapture.WalkInTurn` | linktools-ai/src/linktools/ai/errors.py:336-403 | walking two lists one behind the other is walking them in turn with one table of exceptions seen, which is what a stack of waiting links stands for |
| `ExceptionCapture.AliasTurnKeepsInv` | linktools-ai/src/linktools/ai/errors.py:336-365 | an exception met again adds one alias and follows nothing |
| `ExceptionCapture.FullTurnKeepsInv` | linktools-ai/src/linktools/ai/errors.py:336-403 | an exception met first adds one full entry and queues each of its links under a new path |
| `ExceptionCapture.NewPathsAreFresh` | linktools-ai/src/linktools/ai/errors.py:395-403 | the paths built for an exception's links belong to nothing listed or waiting |
| `ExceptionCapture.ChildIsInjective` | linktools-ai/src/linktools/ai/errors.py:397-403 | a path determines its parent and its last link although causes and contexts of the root drop the root's name |
| `ExceptionCapture.PathTextIsInjective` | linktools-ai/src/linktools/ai/errors.py:394-403 | different paths have different dotted texts, group indices in decimal included |
| `ExceptionCapture.ChildText` | linktools-ai/src/linktools/ai/errors.py:394-403 | the text of a link's path is its parent's text, a dot and the link's name, or the bare name for a cause or context where the parent's text is `root` |
| `ExceptionCapture.TraversalEnds` | linktools-ai/src/linktools/ai/errors.py:336-403 | with nothing waiting, the list is as promised |
| `SafeJson.Detach` | linktools-ai/src/linktools/ai/errors.py:57-89 | a value is detached exactly when it has a tree unfolding; with valid leaves and string keys it raises exactly when a cycle is below it; sharing is allowed |
| `SafeJson.Normalizer.Normalize` | linktools-ai/src/linktools/ai/errors.py:57-89 | returns the unfolding, or raises for a problem that is there when there is no unfolding; the seen set is as found either way; terminates by the objects not seen |
| `SafeJson.Normalizer.NormalizeList` | linktools-ai/src/linktools/ai/errors.py:64-72 | the same for a list just entered |
| `SafeJson.Normalizer.NormalizeMapping` | linktools-ai/src/linktools/ai/errors.py:73-86 | the same for a mapping just entered, keys in any order |
| `SafeJson.UnfoldingIsUnique` | linktools-ai/src/linktools/ai/errors.py:57-89 | a value has at most one detached form |
| `SafeJson.CycleHasNoUnfolding` | linktools-ai/src/linktools/ai/errors.py:66-67 | an object on a cycle has none |
| `SafeJson.UnfoldedHasNoCycle` | linktools-ai/src/linktools/ai/errors.py:66-76 | whatever has one has no cycle anywhere below it |
| `CacheStore.RunRefines` | linktools/src/linktools/core/_cache.py:207-342 | over any run on one connection with a clock that does not go back the store answers like a map whose entries vanish at expiry, `delete` of a dead row excepted, and rows agree with the map throughout |
| `CacheStore.StepRefines` | linktools/src/linktools/core/_cache.py:207-342 | the same for one call, the open transaction's saved state included |
| `CacheStore.WritesAgree` | linktools/src/linktools/core/_cache.py:224-249 | the UPSERT and the UPDATE-then-INSERT leave identical rows |
| `CacheStore.TouchIsInvisible` | linktools/src/linktools/core/_cache.py:142-157 | deleting an expired row on the way changes nothing a reader can see, now or later |
| `CacheStore.LazyDeletionShowsInDelete` | linktools/src/linktools/core/_cache.py:262-272 | the exception: deleting an expired row answers true, and false after a lookup |
| `CacheStore.RaisingBlockRestores` | linktools/src/linktools/core/_cache.py:327-342 | a transaction block that raises puts back the rows held at its beginning, whatever ran inside |
| `CacheStore.ListingMatchesLookup` | linktools/src/linktools/core/_cache.py:303-325 | the listing names exactly the keys `contains` finds with the values `get` returns, and fails exactly when some live entry cannot be decoded |
| `CacheStore.IncrementKeepsLiveExpiry` | linktools/src/linktools/core/_cache.py:274-301 | an increment keeps the expiry of a live row and gives none in place of a dead or missing one |
| `CacheConnection.Connection.Fetch` | linktools/src/linktools/core/_cache.py:207-212 | the statements of `get` do one lookup of the model |
| `CacheConnection.Connection.Store` | linktools/src/linktools/core/_cache.py:217-251 | `set` with its own transaction or inside an open one is one write of the model; refused values change nothing |
| `CacheConnection.Connection.Remove` | linktools/src/linktools/core/_cache.py:262-272 | `delete` is one removal of the model, in either transaction state |
| `CacheConnection.Connection.Add` | linktools/src/linktools/core/_cache.py:274-301 | `increment` with BEGIN, COMMIT and ROLLBACK is one step of the model; a failure outside a transaction also undoes the lazy deletion |
| `CacheConnection.Connection.Write` | linktools/src/linktools/core/_cache.py:224-249 | either SQL path leaves the same rows |
| `CacheConnection.Connection.SelectLive` | linktools/src/linktools/core/_cache.py:142-157 | the row if it is live; a dead one is deleted and nothing else |
| `CacheConnection.Connection.List` | linktools/src/linktools/core/_cache.py:303-325 | the loop over the namespace's rows in key order changes no row and gives the live entries, as one listing of the model, in increasing key order, each once; it fails only when some live row cannot be decoded |
| `CacheConnection.Connection.Enter` | linktools/src/linktools/core/_cache.py:327-334 | a nested block is refused; otherwise the rows are saved |
| `CacheConnection.Connection.Exit` | linktools/src/linktools/core/_cache.py:335-342 | a normal exit keeps the rows, a raising one brings the saved ones back, and the flag is cleared either way |

## Left out

- `Recovery.Start`: what lifecycle hooks, records and reports do, pulls, builds and image inspection, and what state a recovery that itself fails leaves (its reason and the commands it gave are stated); a missing original image of a running dependent outside the selection is one of the failing steps; Docker is an environment that may do anything to the services a command names.
- `Recovery.SettleBatch`: replica counts, image ids and health are one observation, "as wanted"; configuration hashes are compared as sets.
- `RateLimit.NobodyStuck`: states that a way to wake is always open, not that the scheduler takes it; event-loop fairness is outside the model.
- `RateLimiter.GlobalRateLimit.Open`: arguments have their types, so Python's refusal of booleans and of non-text labels has no counterpart.
- `InstallClosure.InstallRequirements`: the order of one module's extras is not stated; parsing of requirement text, markers and YAML is a parameter, as is the choice of dependency lists in force.
- `CacheStore.RunRefines`: one connection only; outside a transaction `get` selects and deletes in two statements, so nothing is claimed for several connections. Busy and backend errors of SQLite are left out.
- `CacheConnection.Connection.List`: the one statement that reads all rows is an ordering of their keys; connections per thread are left out.
- `RequiredSelection.RequireSelection`: the retry paths without a resolved model, which call native Compose; the profile and shared-file special cases belong to them. The order of the notified containers is left open; the listing of services is an input.
- `Snapshots.AppliedServiceModels.Record`: a write that fails half-way, file modes and the creation of the directory; model text is taken as normalised.
- `Pruning.GeneratedTrees.Stage`: locks and the temporary directory before the rename; symbolic links are leaves, so links among the parent directories count as a failure; a refused write leaves at most new parent directories; application directories outside the data directory are left out of staging.
- `Pruning.GeneratedTrees.Prune`: a deletion that fails half-way; bind sources are absolute, and a relative one is not resolved.
- `ConsumerConfig.ValidateConsumerConfig`: keys of a spec or mount that the check only compares as a whole are one field each; hook file names are relative, as `prepared_files_path` demands.
- `ExceptionCapture.Capture`: messages, traceback text and the content-omission mode; the traversal keeps paths as the sequences of their parts, and their texts are a function of those.
- `CycleGate.ValidateRuntimeCycles`: the texts and their sorting; reports are the components. Building the import graph from syntax trees, exports and private-symbol checks are left out.
- `Tarjan.StronglyConnectedComponents`: the sorted order of the roots is left open, so the result holds for every order.
- `_legacy_recovery_services`: it unions uncertain old definitions and its actions need not match the ordered pass.
- `_check_external_requirements` and `_check_external_dependents`: plain membership checks over the same edges.
- `AppliedServiceModels` loading, normalisation and `set_model`: YAML and JSON text; `image` preparation and the Doctor checks.
- `Timeout.split`, the CLI modules, device selection, Frida agents and the Android examples: small minima, interfaces and foreign runtimes.
