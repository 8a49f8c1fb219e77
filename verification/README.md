# Alerts adapter: a verified model

The alerts adapter polls Alertmanager and creates an AgenticRun for every alert that is eligible.
It keeps no state of its own: that there is at most one active run per target and alert group,
that a finished run is followed by a cooldown, and that failing create calls are spaced out all
come from listing the runs, appending created runs to that list within a cycle, waiting for every
target task before the next cycle, and an in-memory backoff table. This project models that
protocol in Dafny, with the naming, fingerprint, sanitizing and target-registry code it rests on,
and proves what it guarantees.

## How the model is laid out

| file | contents |
|---|---|
| Text.dfy | strings, number formats, trimming |
| Fingerprints.dfy | the group key: filter, sort, length-prefix, hash; decoder; the imperative hasher |
| Names.dfy | base names, retry names and their search loop, spoke identities |
| Sanitizers.dfy | label values and prompt text |
| Runs.dfy | runs, phases, the scans over a run list |
| Backoffs.dfy | the backoff object and its meaning as a schedule of failures |
| Clients.dfy | the run store and the scoped list/create client |
| Decisions.dfy | the verdict on one alert, and what it means |
| Tasks.dfy, Solo.dfy | a target task as interleavable steps and as one recursive function |
| AdapterLoop.dfy, Cycle.dfy | the alert loop and a poll cycle as imperative methods |
| Interleaving.dfy | concurrent target tasks with fixed answers from the world |
| Listings.dfy | list answers that come from the store, whatever the interleaving |
| Clashes.dfy | an input on which two target tasks ask for one run name |
| Protocol.dfy | the whole adapter as a transition system |
| Concurrency.dfy | semaphore, wait group, progress and termination |
| Dedup.dfy, Safety.dfy | the deduplication invariant and the theorems it gives |
| Collisions.dfy | exactly which sets of targets deduplication, cooldown and spacing work for |
| Cooldown.dfy, Schedule.dfy | cooldown and backoff over whole histories |
| Targets.dfy | the target registry and its controller |
| Examples.dfy | a small known world for the statements about what goes wrong |

One function, `Tasks.Step`, is the step of a task everywhere: the transition system interleaves it
with everything else, `Interleaving` schedules it with fixed answers, `Solo` shows that its steps
add up to the recursive `Tasks.Scan`, and the imperative loop in `AdapterLoop` refines `Scan`.

## Assumptions

- One adapter process. A create request takes effect before its call returns, or never; the call
  may report an error although it took effect. A restart may happen at any moment; it loses the
  tasks and the backoff table and nothing else.
- The run store is linearizable, because runs are read and written through an uncached client.
- The operator never makes a terminal run active again and never moves its terminal time; a
  terminal time that appears lies between the run's creation and the present. Any run may be
  deleted at any time; the cooldown results say nothing about runs deleted while active or within
  their cooldown. Runs of another origin may be created under any free name at any time.
- There is one monotone clock. Condition times have its resolution.
- `DerivePhase` is unknown except that a run without conditions is not terminal. FNV, SHA-256,
  lower-casing, RFC 3339 formatting, Unicode classes and template rendering are unknown functions.
- The backoff table follows the contract of client-go's `flowcontrol.Backoff` without jitter.

Distinct target names are no assumption but a result. The program enforces neither distinct names
nor distinct run-client scopes, and where two targets of a snapshot share one, and tasks overlap,
deduplication itself fails, not only the separation of backoff keys: `Collisions.DeduplicationIff`
says exactly when it holds, `Collisions.RegistryGuaranteesIff` says so in terms of the registry's
contents, and `Collisions.SpokeCalledLocal` is a failing registry (the hub target beside a spoke
called "local"). `Collisions.CooldownIff`, `Collisions.SpacingIff` and `Collisions.ScheduleIff` do
the same for the cooldown, the spacing of create calls and the backoff schedule. The theorems about
one active run and cooldown are stated for `Protocol.Separated` behaviors (one task at a time, or a
registry whose targets are distinct), and spacing and schedule for `Protocol.NamesSeparated` ones,
where only the names count.

Where the documentation and the code differ, the code is modelled: a namespace of 53 characters or
more makes a name that is too long (`Names.BuildNameFits` has the exact condition), and a run
completed by analysis alone has no cooldown (`Cooldown.AnalysisOnlyGap`, `Cooldown.CooldownSees`).

## Model

| member | source | states |
|---|---|---|
| Safety.OneActivePerGroup | internal/adapter/adapter.go:170-330 | in every `Protocol.Separated` behavior, once a target scope and group has at most one active stored run it never has two again, over all cycles, interleavings, operator steps, deletions of any run, runs of other origin, restarts and creates applied but reported as errors; `Collisions.DeduplicationIff` shows that nothing less than `Separated` will do |
| Collisions.DeduplicationIff | internal/adapter/adapter.go:149-322 | for a fixed set of targets, and wherever some group can fire three times under different run names, no behavior ever gives a scope and group a second active run exactly when no two targets share a name or a scope, or one task runs at a time |
| Collisions.RegistryGuaranteesIff | cmd/alerts-adapter/main.go:171-181 | the same for the targets a registry delivers: exactly when no spoke takes the hub target's name and no two spokes share an identity, or one task runs at a time |
| Collisions.SpokeCalledLocal | cmd/alerts-adapter/main.go:175-181 | a spoke called "local" has a scope of its own, and beside the hub target and with overlapping tasks it costs the guarantee |
| Safety.CreationAfterCooldown | internal/adapter/adapter.go:224-243 | at every creation in every `Protocol.Separated` behavior (one task at a time, or a registry that never holds two targets of one name or scope), each run of the same scope and group that ever existed, and was not deleted while active or within its cooldown, is in a terminal phase, and with a positive postRunDelay the condition that ended it, if it has one, changed at least postRunDelay ago |
| Collisions.CooldownIff | internal/adapter/adapter.go:149-243 | for a fixed set of targets every creation waits for the cooldown of its group exactly when no two targets share a name or a scope, or one task runs at a time |
| Cooldown.CreationsPerWindow | internal/adapter/adapter.go:234-243 | over the whole history of any `Separated` behavior, any window of length W holds at most floor(W / postRunDelay) + 1 creations of one scope and group, provided its terminal runs carry the condition their time is read from and none was deleted early |
| Cooldown.AlwaysHistory | internal/adapter/adapter.go:234-243 | under the same provisos, creations of one scope and group are pairwise at least postRunDelay apart, runs deleted since included |
| Cooldown.CooldownSees | internal/adapter/adapter.go:430-469 | exactly which terminal runs have a terminal time, phase by phase |
| Cooldown.AnalysisOnlyGap | internal/adapter/adapter.go:435-436 | a concrete run completed by analysis alone at this moment is held back by no cooldown |
| Safety.TargetTasksDisciplined | internal/adapter/adapter.go:140-168 | no more goroutines work than max(1, maxConcurrentTargets), a token is to be had at a select with targets left exactly when fewer are held, the goroutines of a cycle serve the first targets of its snapshot one each (so no two serve one name or scope when the snapshot has no two such targets), nothing is left running between cycles, and a cycle returns only with nothing running, the semaphore empty and, unless cancelled, every snapshot target served exactly once |
| Safety.CyclesEnd | internal/adapter/adapter.go:149-168 | in every reachable state of a cycle some step of the cycle can be taken, each one decreases a well-founded measure, and short of a restart nothing the world does changes that measure, the snapshot or the tasks of a running cycle |
| Concurrency.PollStarts | internal/adapter/adapter.go:125-147 | a poll starts a cycle exactly when the suspension state was read and is off, on the targets of that moment, dropping exactly the backoff entries older than twenty minutes; otherwise it changes nothing |
| Safety.OperatorIsFree | internal/adapter/adapter.go:430-460 | the operator may give a run any conditions that keep a terminal run terminal at its time and date a new end between creation and now |
| Safety.WorldIsFree | cmd/alerts-adapter/main.go:206-217 | at any moment time may pass, the process be cancelled or restarted, the targets change, any run be deleted and a run of other origin appear |
| Cooldown.CreationsRecorded | internal/adapter/adapter.go:278-321 | whatever appears in the store was created by a task and recorded as a creation, or is of another origin |
| Cooldown.PurgedIff | internal/adapter/adapter.go:234-243 | a deletion counts as early exactly when the run was active or the condition that ended it had changed within the cooldown |
| Dedup.ProposalIsCooled | internal/adapter/adapter.go:224-288 | under the invariant, a run waiting to be created is of a group whose known runs are all terminal and past their cooldown |
| Dedup.OwnStep | internal/adapter/adapter.go:170-322 | each step of a task keeps the relation between its run list, the backoff table and every stored or deleted run of its scope |
| Safety.FrameTask | internal/adapter/adapter.go:170-322 | that relation survives whatever other tasks, the operator, deletion and the clock do in between |
| Schedule.AttemptsFollowSchedule | internal/adapter/adapter.go:264-302 | in every reachable state in which overlapping tasks have targets of different names, an alert that passes the other checks leads to a create call iff min(2^(k-1), 10) minutes have passed since the k-th failure in a row among the answers to its group's create calls, any answer that is no error ending the row |
| Collisions.ScheduleIff | internal/adapter/adapter.go:264-310 | for a fixed set of targets attempts follow that schedule exactly when no two targets share a name, or one task runs at a time |
| Schedule.CreateCallsSpaced | internal/adapter/adapter.go:264-302 | at every create call in every behavior in which tasks that overlap have targets of different names, whatever their scopes, at least min(2^(k-1), 10) minutes have passed since the k-th failure in a row among the answers to its group's calls |
| Collisions.SpacingIff | internal/adapter/adapter.go:264-310 | for a fixed set of targets every create call is spaced exactly when no two targets share a name, or one task runs at a time |
| Backoffs.BackoffIsSchedule | internal/adapter/adapter.go:22-25 | after any history of failures, successes and collections, a key is in backoff exactly while fewer than min(2^(k-1), 10) minutes have passed since its k-th consecutive unexpired failure |
| Backoffs.WaitTable | internal/adapter/adapter.go:22-25 | the waits in nanoseconds: one, two, four and eight minutes, then ten |
| Backoffs.StreakIs | internal/adapter/adapter.go:284-302 | what a row of failures is, from the key's last event: a success ends it, a failure continues the one before unless that is more than twenty minutes older |
| Backoffs.NoStreak | internal/adapter/adapter.go:264-284 | a key of which nothing is on record has no failures in a row |
| Tasks.TurnBackoff | internal/adapter/adapter.go:278-310 | what a call's answer leaves of the group's backoff: no entry after an answer that is no error; after an error one minute, or twice the old delay up to ten minutes; other keys untouched |
| Backoffs.CollectionTransparent | internal/adapter/adapter.go:138 | the per-cycle garbage collection changes no backoff answer |
| Backoffs.Backoff.Next | internal/adapter/adapter.go:284-285 | a failure enters the initial delay or doubles it up to the maximum, stamped with the clock |
| Backoffs.Backoff.GC | internal/adapter/adapter.go:138 | exactly the entries last updated more than twenty minutes ago go |
| Interleaving.ConfluenceIff | internal/adapter/adapter.go:149-168 | with the world's answers to each task fixed, targets of different names and scopes, and any number of targets, alerts, faults and cancellations: all complete interleavings of the target tasks end alike exactly when no two tasks, each run alone, add a run of one name |
| Interleaving.Confluence | internal/adapter/adapter.go:149-168 | for targets of different names, if no two tasks run alone add one run name, any two complete interleavings end in the same store, backoff table and task states, and each task ends as if it had run alone, so a failing target changes nothing for the others |
| Interleaving.InterleavingIsSequential | internal/adapter/adapter.go:149-168 | under that condition every complete interleaving ends like running the targets one after another |
| Interleaving.Projection | internal/adapter/adapter.go:158-164 | under that condition, at every point of every interleaving a task, its backoff keys and the names it adds are where they would be alone after as many steps |
| Listings.TrueAnswersIff | internal/agenticrun/client.go:51-72 | with distinct scopes, in any complete schedule every list answer is a listing of the store at that moment exactly when it is one of the store the cycle began with |
| Listings.TrueConfluence | internal/adapter/adapter.go:149-168 | under that condition and with distinct scopes, answers that agree with the store in one complete schedule do so in every one, and all of them end alike |
| Interleaving.RoomyNamesApart | internal/agenticrun/build.go:143-176 | a condition that can be checked beforehand and implies that one: distinct occurrence hashes and, where a stopped run in the listing makes a retry name possible, room in the base name for the largest retry suffix and no hash of another target that reads as a retry number |
| Interleaving.UnstoppedApart | internal/adapter/adapter.go:394-404 | in particular it holds, however long the names, when no listing holds an EmergencyStopped run and occurrence hashes differ |
| Interleaving.ShortIsRoomy | internal/agenticrun/build.go:290-292 | base names of at most 49 characters and fewer than ten million runs always leave room |
| Clashes.RetryNamesSplit | internal/agenticrun/build.go:292 | an input on which the condition and confluence fail: two spokes of a registry with stopped runs of full-length names ask for one retry name, and two complete schedules with true list answers end in different stores |
| Solo.WholeIsMoves | internal/adapter/adapter.go:170-330 | the steps of one task add up to the recursive task function |
| Tasks.CallShape | internal/adapter/adapter.go:224-321 | in one task the create calls of a group are answered AlreadyExists any number of times and then Created or an error at most once |
| Tasks.BlockedStaysQuiet | internal/adapter/adapter.go:264-321 | once a group has an active run in the list or is in backoff, the task makes no further call for it |
| Tasks.ScanConserves | internal/adapter/adapter.go:184-329 | every alert reached is counted once: alerts = created + skipped + build errors + create errors + AlreadyExists on a cycle that is not cut short |
| Tasks.ScanRecords | internal/adapter/adapter.go:278-321 | stored runs stay, every new one was sent by a call, created runs are stored and appended to the list in order, AlreadyExists means the name is taken |
| AdapterLoop.Adapter.ProcessAlert | internal/adapter/adapter.go:186-322 | one pass of the loop body changes store, backoff table, run list and counters like one turn of the recursive loop |
| AdapterLoop.Adapter.ScanAlerts | internal/adapter/adapter.go:184-329 | the mutating loop ends in the state and with the counts of the recursive specification |
| AdapterLoop.Adapter.ReconcileTarget | internal/adapter/adapter.go:170-330 | a failed alert or list call changes nothing; otherwise the task is the recursive specification run on a complete listing |
| Cycle.Reconcile | internal/adapter/adapter.go:125-168 | a suspended or unreadable cycle changes nothing; otherwise collecting expired entries and reconciling each target in turn gives the sequential specification, and for distinct targets every complete concurrent schedule of the same tasks ends in the same store and backoff table, with true list answers, exactly when no two tasks run alone add one run name |
| Decisions.VerdictIff | internal/adapter/adapter.go:199-258 | an alert is skipped exactly when a filter holds it back (no allowed receiver, not old enough, an active run of the group in the list, or one whose ending condition changed within the cooldown), the build fails exactly when it passes and fingerprint, start time or a renderable request is missing, and otherwise a run is proposed |
| Tasks.TurnTally | internal/adapter/adapter.go:199-276 | a turn calls iff the alert passes, can be built and is not in backoff; a failed build counts as a build error and everything else as skipped |
| Tasks.TurnCancelled | internal/adapter/adapter.go:187-189 | cancellation ends the task before the next alert or after a failed call, with no backoff entered |
| Decisions.BuiltLabels | internal/agenticrun/build.go:178-188 | the labels of a built run, key by key |
| Decisions.BaseNameLayout | internal/agenticrun/build.go:143-176 | a base name is the cleaned "alertname" label, cut only as far as the rest needs, the cleaned "namespace" label if there is one, and the first eight digits of the digest of start time and target identity |
| Decisions.ProposedName | internal/adapter/adapter.go:260-262 | the proposed name is the base name, or a retry name not in the list exactly when an EmergencyStopped run of the group has the base name |
| Decisions.CreateListRoundTrip | internal/agenticrun/client.go:51-91 | once applied, a run is in every later listing of its target under the key the next check recomputes, and in no other scope's listing |
| Decisions.BackoffKeyInjective | internal/adapter/adapter.go:346-348 | backoff keys of differently named targets or different groups differ |
| Decisions.SkipReceiverIff | internal/adapter/adapter.go:350-360 | an alert is skipped iff none of its named receivers, lower-cased, is allowed |
| Runs.HasActiveRunIff | internal/adapter/adapter.go:379-390 | the scan answers whether some listed run of the group is active |
| Runs.TooRecentIff | internal/adapter/adapter.go:415-426 | the scan answers whether some listed run of the group ended within the window |
| Runs.TerminalTimeIs | internal/adapter/adapter.go:430-460 | the terminal time of a run is the transition time of the condition that ended it: the first of the type "Verified", "Denied", "Escalated" or "EmergencyStopped" that goes with its phase, and for a failed run the first of the non-empty type of its first condition with status False |
| Decisions.ConflictIff | internal/adapter/adapter.go:394-404 | a name conflict is reported exactly when an EmergencyStopped run of that name and group is listed |
| Clients.Client.ListAgenticRuns | internal/agenticrun/client.go:51-72 | the list is exactly the stored runs of the client's scope, each once |
| Clients.Client.CreateAgenticRun | internal/agenticrun/client.go:76-91 | the run is sent with the scope label written into it, and the answers tell created, existing and failed apart |
| Clients.InScopeIff | internal/agenticrun/client.go:51-80 | scopes in terms of the label keys and values that are asked for and written |
| Fingerprints.HashedDecodes | internal/agenticrun/build.go:312-332 | decoding the hashed bytes gives exactly the labels that are not ignored, each with its value |
| Fingerprints.StreamCanonical | internal/agenticrun/build.go:312-332 | two label maps feed the same bytes to the hash iff every label is present and not ignored in both or in neither, with equal values |
| Decisions.SameGroupIff | internal/agenticrun/build.go:312-335 | two alerts are of one group iff they agree on every label not ignored, or else their different byte streams collide in the upper 32 bits of the hash |
| Fingerprints.StreamLayout | internal/agenticrun/build.go:320-332 | the stream is the least key behind its length and its value behind its length, then the stream of the rest |
| Fingerprints.UvarintDigits | internal/agenticrun/build.go:326-331 | the bytes of a length prefix: base 128, least significant first, the high bit on all but the last, no more than needed |
| Fingerprints.FingerprintDigits | internal/agenticrun/build.go:334 | a group key is the first eight of the sixteen hex digits of the hash |
| Text.LessIff | internal/agenticrun/build.go:320 | the order of keys: at the first difference the smaller ends or has the smaller byte |
| Fingerprints.UvarintRoundTrip | internal/agenticrun/build.go:326-331 | a length prefix is read back whatever follows it |
| Fingerprints.FingerprintCollides | internal/agenticrun/build.go:334 | group keys are equal iff the hashes agree in their upper 32 bits |
| Fingerprints.StableFingerprint | internal/agenticrun/build.go:312-335 | the program's collect, sort and hash loops compute the canonical key whatever the map iteration order |
| Fingerprints.PutUvarint | internal/agenticrun/build.go:323-329 | the length buffer never overflows and holds the varint |
| Names.NextAvailableName | internal/agenticrun/build.go:280-297 | the retry loop terminates with the base name when it is free and otherwise the first free retry name |
| Names.NextName | internal/agenticrun/build.go:286-296 | the result is never an existing name, and a retry number is at most one more than the number of existing names, all earlier ones being taken |
| Names.CandidateInjective | internal/agenticrun/build.go:291-292 | retry names with different numbers differ, whatever was truncated |
| Names.RetryLayout | internal/agenticrun/build.go:290-306 | a retry name is the base, cut only as far as the suffix needs, then "-retry-" and the decimal number |
| Text.DecimalDigits | internal/agenticrun/build.go:291 | the digits of a retry number |
| Text.DecimalMeasure | internal/agenticrun/build.go:291 | a retry number has as many digits as it needs |
| Names.RetryNameFits | internal/agenticrun/build.go:290-296 | a retry name has at most 63 characters for every slice that can exist |
| Names.BuildNameShape | internal/agenticrun/build.go:143-166 | for all inputs a name has only [a-z0-9-], ends in a dash and the hash, and has at most max(63, namespace length + 11) characters |
| Names.BuildNameFits | internal/agenticrun/build.go:149-165 | exactly when a name fits 63 characters |
| Names.HashInputInjective | internal/agenticrun/build.go:170-175 | different start times or target identities give the digest different inputs |
| Names.BaseNamesDiffer | internal/agenticrun/build.go:143-176 | names with different occurrence hashes differ |
| Names.BaseIsRetryIff | internal/agenticrun/build.go:290-292 | exactly when a base name is spelled like a retry name: its hash reads as the number, and what precedes it ends in "-retry" behind the truncated base |
| Names.RetryNamesClashIff | internal/agenticrun/build.go:291-292 | exactly when retry names of bases with different hashes clash: same number, no room for it behind one of the bases, and bases that truncation makes equal |
| Names.SpokeTargetID | internal/agenticrun/client.go:25-34 | an identity has the prefix and at most 63 characters, and is never "local" or empty |
| Names.SpokeIdLayout | internal/agenticrun/client.go:25-34 | an identity keeps a name of at most 57 bytes, and otherwise its first 44 bytes and the first 12 digits of its digest |
| Names.SpokeIdsClash | internal/agenticrun/client.go:25-34 | exactly when two spoke names share an identity |
| Sanitizers.LabelValueNormalForm | internal/agenticrun/build.go:236-251 | the output is always a Kubernetes label value, a value is left alone iff it is one, and sanitizing is idempotent |
| Sanitizers.LabelValueKeeps | internal/agenticrun/build.go:236-251 | character by character the output is the input with invalid characters as hyphens; only characters beyond the 63rd and separators at the ends are dropped |
| Sanitizers.PromptValueNormalForm | internal/agenticrun/build.go:255-266 | the output has no hidden character and no run of three backticks, text is left alone iff it is clean, and sanitizing is idempotent |
| Sanitizers.PromptValueKeepsText | internal/agenticrun/build.go:255-266 | apart from backticks and hidden characters the text is unchanged |
| Sanitizers.PromptValueIs | internal/agenticrun/build.go:255-266 | exactly the backticks that stand in runs of three or more, once hidden characters are gone, are deleted |
| Sanitizers.StripConcat | internal/agenticrun/build.go:256-264 | hidden characters are stripped character by character |
| Sanitizers.StripOne | internal/agenticrun/build.go:256-264 | a single character is stripped exactly when it is hidden and no newline |
| Targets.RegistryConverges | internal/multicluster/controller.go:25-64 | after any calls a spoke is present, with that target, iff its last reconcile that did not fail found the object with a non-empty credential label and a buildable target; a spoke never reconciled keeps its initial status |
| Targets.Reconciler.Reconcile | internal/multicluster/controller.go:25-64 | after a call that does not fail its spoke is present, with the built target, iff the object has a credential label and a target could be built; every other spoke, and after a failing call every spoke, is unchanged |
| Targets.ReconcileAfterSnapshot | internal/multicluster/registry.go:50-60 | a snapshot handed out before stays as it was through any calls |
| Targets.Registry.constructor | internal/multicluster/registry.go:18-27 | the registry owns a copy of the local targets, and the spokes by name |
| Targets.ByNameIs | internal/multicluster/registry.go:18-27 | of initial spokes with one name the last is kept |
| Targets.Registry.SetSpoke | internal/multicluster/registry.go:31-37 | the spoke is stored under its name, and newness reported |
| Targets.Registry.RemoveSpoke | internal/multicluster/registry.go:41-47 | exactly the named spoke goes, and its presence is reported |
| Targets.Registry.Targets | internal/multicluster/registry.go:50-60 | a fresh array with the local targets and each spoke once |
| Targets.SnapshotDistinct | internal/multicluster/target.go:77-82 | a snapshot has distinct names and scopes iff no spoke takes the hub target's name and no two spokes share an identity |

## Left out

- Alert retrieval over HTTP, TLS and tokens: an alert list or an error is an answer of the world.
- Configuration reading and clamping, process start-up and signal wiring: a configuration is a value.
- Building spoke targets from Secrets: whether a target can be built is part of what a reconcile call sees.
- The request text, annotations, agents, skills and `spec.targetCluster`: straight-line formatting that no check reads back.
- Log messages: the entering/increasing wording of the backoff message is the only use of the previous delay beyond resetting it.
- Cycle.Reconcile: runs the targets one after another in code; the semaphore, the wait group and the goroutines are the transition system of Protocol.dfy, and the method's last clause speaks of every other schedule.
- Interleaving.Confluence: fixes what the world answers to each task, the order of its listing included; that these answers stay true in every schedule is `Listings.TrueConfluence`.
- Interleaving.RoomyNamesApart: sufficient only, because it does not know which retry names are taken; the exact condition is in `Interleaving.ConfluenceIff`.
- The registry's mutex: each registry method is one atomic call.
- Context cancellation as an object: each poll of the context is a separate answer, which allows more behaviors than a context that stays cancelled.
- A separate namespace per target: all targets share the adapter's namespace, as start-up configures them.
- UTF-8 decoding: strings cut by byte offset have one character per byte, and names and sanitizers work on decoded runes.
- The absolute numbers of terminal times: Kubernetes stores condition times in whole seconds, the model's clock has no such rounding.
- Schedule.AttemptsFollowSchedule: counts failures since the last restart only, because the table is in memory.
