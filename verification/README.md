# Fortsa, verified

Fortsa decides which Deployments, StatefulSets and DaemonSets run an outdated Istio sidecar and stamps
their pod templates so that they restart. This project models that pipeline in Dafny and proves properties
of it: when the time-based skip test agrees with scanning everything, how often a workload can be
restarted, that no configuration change is lost between the watches and the scans, and what a pass may
touch. What a scan reports is also told from the raw objects of the cluster (`Scanner.ScanReportsReasons`).

The model reads the cluster as a value (`Cluster`): pods, owner lists of ReplicaSets and
ControllerRevisions, workload documents as JSON trees, namespace labels, ConfigMaps,
MutatingWebhookConfigurations, and the reads and lists that fail. Time is a count of nanoseconds since
Go's zero time. Code that only computes is functions and lemmas; loops are methods with invariants; the API
server, the annotator and the reconciler are classes whose methods are proved against specification
functions, about which the lemmas speak.

| file | models |
|---|---|
| `Prelude.dfy`, `Cluster.dfy` | shared vocabulary and the cluster |
| `Json.dfy` | JSON trees and the merge patch of section 2 of RFC 7396 |
| `Images.dfy` | parsing and comparing image references |
| `LastModified.dfy`, `ConfigMaps.dfy`, `TagWebhooks.dfy` | revisions, tags and their change times |
| `Owners.dfy`, `Scanner.dfy` | owner traversal and the scan |
| `SkipRefinement.dfy`, `SkipWitnesses.dfy` | the skip test against the full scan, and where it fails |
| `Annotator.dfy`, `Runs.dfy` | cooldown, patch and retry; whole runs of attempts |
| `Triggers.dfy`, `TriggerQueue.dfy` | watch filters and routing; the work queue as a step system |
| `Reconciler.dfy` | one pass from wait to annotation |
| `SkipNamespaces.dfy` | the list of skipped namespaces |

`dafny verify dfyconfig.toml` verifies everything.

## Assumptions

- The skip refinement (`SkipRefinement.SkipRefinesFullScan`) speaks of a scan with all that is behind it (a
  `World`) and names its assumptions as predicates: a change of a revision or tag is served within a latency
  (`ServedWithin`); tags are unique and record their changes (`TagsRecorded`); the webhook answers from what is
  served now (`WebhookServes`); creation times are recorded to the second (`CreationRecorded`); each change of
  what a tested pod's workload selects is served before the first whole second at which a pod is skipped for it
  (`Covered`). These make a world `Faithful`. Besides, a pod keeps the image that its workload's template and
  selection got at its creation (`Kept`). A world is covered when ConfigMaps parse and record changes to the
  second (`ConfigRecorded`) and the delay covers the latency (`RecordedIsFaithful`). `SkipWitnesses` drops the
  latency, the record of the ConfigMaps and the selection, one at a time, each with the exact condition under
  which the scans still agree.
- Runs of the annotator: the clock never goes back, reads see the last patch, and nothing else writes the
  annotation. A patch that is not accepted does not commit.
- Timestamps: formatting and parsing RFC 3339 (section 5.6) is a pair of functions with one law,
  `Annotator.RoundTrips`, for the seconds up to the end of the year 9999.
- The webhook is any function of the pod built from the template, the revision, and the preference for the
  default tag's webhook.
- The work queue: informers update their cache before they deliver an event; a request added while it is
  processed is queued again at the end; a failed request is added again after a backoff; there is one worker.
- One pass sees one snapshot of the cluster, but for its own patches.

## Findings

- The delay is one second too short for its purpose. Creation and change times are whole seconds, so a
  skipped pod may have been created up to a second earlier, relative to the change, than the test suggests.
  The test is safe exactly for a latency of istiod up to the delay, rounded up to seconds, less one second
  (`RoundingBound`, `AgreesIffLatencyIsSafe`); for every longer latency some world has a hidden pod
  (`LatencyBeyondBoundHides`).
- A namespace moved to another revision changes no time, so the skip test hides pods that the old revision
  injected. With and without the skip test the scan agrees over such a move in all faithful worlds exactly when
  nothing was moved, or when no injection is selected any more (`AgreesIffNotMoved`).
- Between two configs a pod comes to be skipped for some creation time exactly when the effective time does
  not move forward (`NothingNewlySkippedIffMovesForward`). New ConfigMaps, and newer times of those that keep
  their revision, hide no pod whose revision or tag already had a time (`GrownConfigNeverHides`); one that is
  relabelled to another revision does (`RelabelledConfigMapHides`).
- A tag whose revision has no ConfigMap that parses is judged by the tag's time alone, which hides pods as well
  (`UnparsedConfigMapHides`). Within the safe latency, an unrecorded change does no harm exactly when there is no
  time at all, or when the change is served before the first whole second at which pods are skipped
  (`AgreesIffChangeIsCovered`).
- Between two kinds with the same namespace and name only one is reported; the result is complete exactly
  when no two reportable workloads clash like that (`CompleteIffKindsDoNotClash`).
- With two configurations for one tag the last in list order decides, not the newest; the table is
  independent of the order exactly when they agree (`TableIsOrderFreeIffTagsAgree`).
- Restart stamps are spaced by whole seconds; in real time two restarts can be one second (less a
  nanosecond) closer than the cooldown, and no closer (`AlwaysApartIffLeast`). So every positive cooldown is
  undercut in some run (`CooldownIsKeptIffNone`).
- Image references with a digest match when the hub is ignored and their names and tags agree, whatever the
  digests are (`DigestsNeverDiffer`; `HubBlindMatch` has the exact condition). An untagged reference with a
  registry port has everything behind the port colon as its tag (`PortIsReadAsTag`).
- The owner traversal ends exactly when it does not, before its first hit, come to a ReplicaSet or
  ControllerRevision that it is already inside of; else it recurses forever (`EndsIffNoCycleIsMet`). A
  ReplicaSet whose first reference makes itself its controller is such a case (`SelfOwnerNeverEnds`).
- The watch of namespaces passes updates only. A creation or deletion that it rejects changes what a scan
  derives exactly when readable workloads of the namespace have no revision label of their own
  (`RejectedEventIsIrrelevant`).

## Model

| member | source | states |
|---|---|---|
| `Images.ParsePrintRoundTrip` | internal/podscanner/pod_scanner.go:52-76 | parsing a printed reference, with or without a digest, gives back its parts exactly when no part has `@`, the name has no `/` and the tag no `:`; registry ports are allowed |
| `Images.PrintParseRoundTrip` | internal/podscanner/pod_scanner.go:52-76 | printing the parsed parts gives the reference back exactly when it has a tag colon, no digest, and no empty registry spelled with a slash |
| `Images.ParseNormalises` | internal/podscanner/pod_scanner.go:52-76 | the parts of any reference survive another print and parse |
| `Images.PortIsReadAsTag` | internal/podscanner/pod_scanner.go:61-65 | an untagged `host:port/name` has tag `port/name` |
| `Images.UntaggedIsLatest` | internal/podscanner/pod_scanner.go:52-65 | a reference without a tag parses as the one with tag `latest`, whatever digests either has |
| `Images.DigestsNeverDiffer` | internal/podscanner/pod_scanner.go:55-59 | references that differ only in digests match when the hub is ignored |
| `Images.HubBlindMatch` | internal/podscanner/pod_scanner.go:81-88 | without the hub, printed references match exactly when names and tags agree |
| `Images.HubAwareMatch` | internal/podscanner/pod_scanner.go:81-84 | with the hub, printed references match exactly when registries, names, tags and digests agree |
| `LastModified.GetLastModified` | internal/configmap/configmap_parser.go:39-47 | the loop finds the newest of creation and managed-field times; the webhook package has the same loop |
| `ConfigMaps.ParseConfigMapValues` | internal/configmap/configmap_parser.go:52-100 | fails exactly for missing or malformed values and for those that are neither an object nor null; the revision is the first non-empty of top level, `global`, label and `default` |
| `ConfigMaps.RevisionPrecedence` | internal/configmap/configmap_parser.go:63-86 | the revision is the text at `revision` of the values, else at `global.revision`, else the label `istio.io/rev`, else `default`; empty or non-string entries do not count |
| `ConfigMaps.BuildLastModifiedByRevision` | internal/configmap/fetch.go:33-54 | fails exactly when the list does; otherwise maps exactly the revisions of watched, parseable ConfigMaps to their newest change |
| `ConfigMaps.LastModifiedIsMaximum` | internal/configmap/fetch.go:38-53 | that is the maximum over all single creation and managed-field times |
| `ConfigMaps.LastModifiedIgnoresOrder` | internal/configmap/fetch.go:38-53 | the map depends neither on list order nor on ConfigMaps that are not watched |
| `TagWebhooks.FetchTagToRevisionAndLastModified` | internal/mwc/trigger.go:71-91 | both maps are the revisions and times of the tag table of the list |
| `TagWebhooks.LastEntryWins` | internal/mwc/trigger.go:78-89 | the last configuration of the list that carries a tag decides it, whatever its time |
| `TagWebhooks.TagTimeIsMaximum` | internal/mwc/trigger.go:58-89 | the last configuration named `istio-revision-tag-*` that carries a tag and a revision gives the tag this revision, and as its time the maximum of its creation and managed-field times |
| `TagWebhooks.MapsKnowCarriedTags` | internal/mwc/trigger.go:78-89 | both maps know exactly the tags that such a configuration carries |
| `TagWebhooks.TableComesFromList` | internal/mwc/trigger.go:78-89 | a tag is in the table exactly when some configuration carries it, with that one's revision and time |
| `TagWebhooks.TableIsOrderFreeIffTagsAgree` | internal/mwc/trigger.go:85-88 | every reordering gives the same table exactly when configurations of one tag agree |
| `Owners.FirstInDepthFirstOrder` | internal/podscanner/pod_scanner.go:251-295 | a traversal that ends returns the first existing workload, or read error, in depth-first order of controller references, and nothing exactly when there is none |
| `Owners.OwnerIgnoresOtherReferences` | internal/podscanner/pod_scanner.go:272-295 | a pod has the same owner when every reference whose controller field is not true is removed, from the pod and from every intermediate |
| `Owners.FirstControllerDecides` | internal/podscanner/pod_scanner.go:212-295 | the first reference with a true controller field decides, for each kind and each way it reads, or passes on to the rest when it leads nowhere |
| `Owners.EndsIffNoCycleIsMet` | internal/podscanner/pod_scanner.go:242-295 | on every graph and owner list, the recursion ends for some nesting, and then within one call per intermediate and one for the pod, exactly when it does not re-enter an intermediate before its first hit |
| `Owners.TraversalEnds` | internal/podscanner/pod_scanner.go:242-295 | corollary: on a graph without any cycle of controller references every traversal ends within the bound |
| `Owners.NestingBound` | internal/podscanner/pod_scanner.go:242-295 | on every graph, the result of a recursion that ends at all is the one within that bound |
| `Owners.SelfOwnerNeverEnds` | internal/podscanner/pod_scanner.go:242-295 | corollary: a ReplicaSet whose first reference is a controller reference to itself never ends it, whatever other references it has |
| `Owners.OwnerStaysInNamespace` | internal/podscanner/pod_scanner.go:251-255 | the workload found exists and is in the namespace of the pod |
| `Scanner.ListPods` | internal/podscanner/pod_scanner.go:141-167 | for every list of namespaces, with duplicates and in any map order, each pod in scope is listed as often as it exists and no other; fails exactly when one of its lists does |
| `Scanner.ScanOutdatedPods` | internal/podscanner/pod_scanner.go:487-536 | for pods whose owner traversal ends, the loop returns the scan result of a listing of the pods in scope; without a webhook nothing, and an error exactly when listing fails |
| `Scanner.ScanReportsReasons` | internal/podscanner/pod_scanner.go:409-536 | the scan returns exactly the namespaces and names for which some listed pod gives a reason, told from the raw objects: literal label paths, first sidecar containers, change times, template fields and the webhook's answer to them |
| `Scanner.ReportedIffReason` | internal/podscanner/pod_scanner.go:409-480 | so a single pod leads to a report exactly for such a reason |
| `Scanner.ScanSpecification` | internal/podscanner/pod_scanner.go:503-535 | no namespace and name twice, only reportable workloads, every reportable name, in order of first appearance |
| `Scanner.CompleteIffKindsDoNotClash` | internal/podscanner/pod_scanner.go:503-532 | every reportable workload is returned exactly when no two of them differ only in kind |
| `Scanner.NamesIgnoreOrder` | internal/podscanner/pod_scanner.go:513-533 | every reordering of the pods reports the same namespaces and names |
| `Scanner.CompareHubOnlyAdds` | internal/podscanner/pod_scanner.go:468-470 | comparing the hub as well reports at least the same namespaces and names |
| `Scanner.ScanStaysInNamespaces` | internal/podscanner/pod_scanner.go:506-518 | reported workloads exist, share a namespace with a listed pod, and are in no skipped namespace |
| `Scanner.NamespaceDecidesIffTemplateDoesNot` | internal/podscanner/pod_scanner.go:301-347 | the namespace's labels matter to a workload's revision exactly when its template has no revision label |
| `Scanner.InjectionLabelDecidesIffNoRevision` | internal/podscanner/pod_scanner.go:301-347 | the `istio-injection` label of a namespace matters to a workload's revision exactly when neither its template nor the namespace has a revision label |
| `Scanner.SkipsIffAfterAllChanges` | internal/podscanner/pod_scanner.go:172-185 | the test skips a pod exactly when the revision or the tag has a non-zero time and the pod was created the delay after each such time |
| `Scanner.BuiltPodIsTemplate` | internal/podscanner/pod_scanner.go:349-408 | the built pod shows in labels, annotations and spec exactly what is written at these paths of the pod template, and nothing that is written beside the template; its namespace is the workload's |
| `Scanner.RegularSidecarFirst` | internal/podscanner/pod_scanner.go:188-202 | the sidecar image is that of a regular container if one has the name, else of an init container, else empty |
| `SkipRefinement.RoundingBound` | internal/podscanner/pod_scanner.go:183-184 | with whole-second times, every skipped pod was created `latency` after the change exactly when the latency is within the safe bound |
| `SkipRefinement.WholeSecondDelay` | internal/podscanner/pod_scanner.go:183-184 | for whole-second delays the bound is one second below the delay (plus a nanosecond), so the delay itself is too long a latency |
| `SkipRefinement.EffectiveCoversChanges` | internal/podscanner/pod_scanner.go:172-182 | the effective time is no older, to the second, than any change of the tag, nor than any change of the revision that a ConfigMap records |
| `SkipRefinement.RecordedIsFaithful` | internal/podscanner/pod_scanner.go:172-185 | where ConfigMaps record every change and the latency is within the safe bound, every change of what is selected is served before a pod can be skipped for it |
| `SkipRefinement.InjectionUnchanged` | internal/podscanner/pod_scanner.go:169-185 | in every faithful world, the revision and the config version of a skipped pod's injection are those in force now |
| `SkipRefinement.SkipRefinesFullScan` | internal/podscanner/pod_scanner.go:441-470 | in every faithful world whose pods keep their injection the scan returns the same list with and without the skip test; nothing is asked of revisions that no pod selects or that have no time |
| `SkipRefinement.FullScanReportsOutdated` | internal/podscanner/pod_scanner.go:407-476 | once every change of what is selected had its latency, the full scan reports a name exactly when some pod of a workload with it runs another sidecar than the last config injects |
| `SkipRefinement.SkipOnlyHides` | internal/podscanner/pod_scanner.go:441-444 | without any assumption, whatever the skipping scan reports the full scan reports too |
| `SkipRefinement.NewConfigMapGrows` | internal/configmap/fetch.go:38-53 | a ConfigMap that comes, anywhere in the list, takes no change away |
| `SkipRefinement.AddedTimeRewrites` | internal/configmap/configmap_parser.go:39-47 | one more managed-field time is such a rewrite of a ConfigMap as the next row is about |
| `SkipRefinement.RewrittenConfigMapGrows` | internal/configmap/fetch.go:38-53 | a ConfigMap that keeps its revision and its times, and gains more, only moves its change forward |
| `SkipRefinement.NothingNewlySkippedIffMovesForward` | internal/podscanner/pod_scanner.go:172-185 | between two configs no creation time comes to be skipped exactly when the effective time moves forward or vanishes |
| `SkipRefinement.GrownConfigNeverHides` | internal/podscanner/pod_scanner.go:172-185 | when the changes of the ConfigMaps only grow and each selected revision or tag had a time, the whole scan reports at least the same namespaces and names as before |
| `SkipWitnesses.LatencyBeyondBoundHides` | internal/podscanner/pod_scanner.go:183-184 | for every delay and every latency beyond the bound there is a world, meeting all other assumptions, in which an outdated pod is hidden |
| `SkipWitnesses.AgreesIffLatencyIsSafe` | internal/podscanner/pod_scanner.go:183-184 | the skip test agrees with the full scan in all recorded worlds of a latency exactly when the latency is within the safe bound |
| `SkipWitnesses.MoveHides` | internal/podscanner/pod_scanner.go:172-185 | for every delay and every two selections, a namespace moved from one to the other hides an outdated pod in a faithful world |
| `SkipWitnesses.AgreesIffNotMoved` | internal/podscanner/pod_scanner.go:172-185 | over a move from one selection to another the skip test agrees with the full scan in all faithful worlds exactly when the two are equal or nothing is selected any more, for every delay |
| `SkipWitnesses.RelabelledConfigMapHides` | internal/podscanner/pod_scanner.go:172-185 | relabelling a ConfigMap to another revision makes a pod skipped that was not, for every delay and every two revisions |
| `SkipWitnesses.AgreesIffChangeIsCovered` | internal/podscanner/pod_scanner.go:172-185 | for every effective time and every change of the selected revision, the skip test agrees with the full scan in all worlds with them and a safe latency exactly when there is no time or the change is served before the first whole second that the test skips |
| `SkipWitnesses.UnparsedConfigMapHides` | internal/configmap/fetch.go:44-47 | for every delay, safe latency, tag time and change served too late for it, a ConfigMap that does not parse leaves the tag's time alone to decide, and an outdated pod is hidden |
| `Annotator.SaturationIsHarmless` | internal/annotator/workload_annotator.go:67 | the saturation of `time.Since` never changes the cooldown decision |
| `Annotator.PatchFrame` | internal/annotator/workload_annotator.go:72-87 | on any document the merge patch sets the annotation, changes no path beside it, and a later stamp overrides an earlier one |
| `Annotator.PatchKeepsAncestors` | internal/annotator/workload_annotator.go:73-83 | objects on the way to the annotation keep their members and gain at most the next one |
| `Annotator.PatchLosesNothingIffObjectsOnPath` | internal/annotator/workload_annotator.go:73-83 | no value of the document is lost exactly when everything on the way to the annotation is an object |
| `Annotator.StampIsRead` | internal/annotator/workload_annotator.go:164-175 | the stored restart time after a patch is its instant, cut to whole seconds |
| `Annotator.StampIsInTemplate` | internal/annotator/workload_annotator.go:72-83 | on any document the patch sets exactly the annotation `fortsa.scaffidi.net/restartedAt` below `spec.template.metadata.annotations` |
| `Annotator.StampRollsTemplate` | internal/annotator/workload_annotator.go:72-87 | the pod built from a stamped template carries the value among its annotations, and differs from the one before exactly when the workload did not store the value already |
| `Annotator.StampKeepsSelection` | internal/podscanner/pod_scanner.go:301-347 | a stamp changes no workload's revision or tag, and of the pod built from its template only the annotations |
| `Annotator.WorkloadAnnotator.PatchWithRetry` | internal/annotator/workload_annotator.go:117-137 | at most three attempts, all but the last answered by conflicts; success exactly when one is accepted, which is then the only commit |
| `Annotator.WorkloadAnnotator.GetRestartedAt` | internal/annotator/workload_annotator.go:140-176 | fails exactly when a known kind cannot be read; otherwise the stored time, zero if absent or unparseable |
| `Annotator.WorkloadAnnotator.Annotate` | internal/annotator/workload_annotator.go:61-114 | is the step of the specification: a stamp is reported exactly when one patch committed, the template then holds a time, and nothing is committed on a skip, an unknown kind or an error |
| `Annotator.StampsIff` | internal/annotator/workload_annotator.go:61-137 | an attempt stamps exactly when the workload is of one of three kinds and exists, the cooldown is off or the workload can be read and stores no time younger than it, and one of three replies accepts after conflicts only |
| `Annotator.StampedHolds` | internal/annotator/workload_annotator.go:72-115 | after a reported stamp the pod template holds its time |
| `Runs.AttemptFrame` | internal/annotator/workload_annotator.go:61-114 | an attempt changes only its workload's document, by its stamp, and only when it reports one |
| `Runs.StampAfterCooldown` | internal/annotator/workload_annotator.go:62-72 | a stamp follows the stored one by at least the cooldown |
| `Runs.StampsAreSpaced` | internal/annotator/workload_annotator.go:62-72 | over every run and for every cooldown, consecutive stamps of a workload are in order, floor(cooldown) whole seconds apart, and really more than the cooldown less a second |
| `Runs.RestartRate` | internal/annotator/workload_annotator.go:62-72 | over every run, a window of W seconds holds at most W/floor(cooldown) + 1 stamps of a workload |
| `Runs.SpacingIsSharp` | internal/annotator/workload_annotator.go:67-72 | for every cooldown some run reaches the least real distance |
| `Runs.AlwaysApartIffLeast` | internal/annotator/workload_annotator.go:67-72 | all runs keep a distance in real time exactly when it is at most the cooldown less a second and plus a nanosecond, or zero for shorter cooldowns |
| `Runs.CooldownIsKeptIffNone` | internal/annotator/workload_annotator.go:67-72 | so all runs keep the cooldown itself in real time exactly when it is not positive |
| `Runs.RunOfConcat` | internal/controller/istio_change_reconciler.go:237-263 | runs compose, so that the bounds hold over any number of passes |
| `Triggers.AcceptedIffConcernsIstio` | internal/namespace/trigger.go:30-58 | the watches accept exactly injector ConfigMaps of the system namespace, tag configurations, and updates of namespaces whose old or new labels have a revision, even an empty one, or a non-empty injection label; `internal/configmap/trigger.go` and `internal/mwc/trigger.go` hold the other two filters |
| `Triggers.RequestsAreHandled` | internal/controller/istio_change_reconciler.go:147-170 | the ticker's and the config requests ask for a full pass, a namespace request for its namespace, unless the namespace is empty or named like the other two |
| `Triggers.RequestedPassCoversChange` | internal/controller/istio_change_reconciler.go:98-170 | the pass that an accepted event asks for has in scope every workload whose revision or tag the event changes; config events ask for a full pass, namespace events for no more than their namespace |
| `Triggers.RejectedEventIsIrrelevant` | internal/namespace/trigger.go:30-58 | an event that the watch predicates reject changes neither map of the scan nor any workload's revision or tag, exactly unless it creates or deletes a namespace that readable workloads depend on |
| `Triggers.RejectedRunIsIrrelevant` | internal/configmap/trigger.go:45-52 | neither does any run of such events |
| `Triggers.RejectedRunKeepsConfig` | internal/configmap/fetch.go:38-53 | the change times built before and after such a run are the same map |
| `TriggerQueue.StepKeepsInv` | internal/controller/istio_change_reconciler.go:95-128 | every step of the queue, the informers and the worker keeps the invariant |
| `TriggerQueue.NoLostTrigger` | internal/controller/istio_change_reconciler.go:95-128 | over every run, each delivered change of a ConfigMap, webhook configuration or namespace is served by a pass that covers it, started after its delivery and read at least the delay after the change, or a request that covers it waits, or such a pass is under way |
| `TriggerQueue.QuietMeansServed` | internal/controller/istio_change_reconciler.go:174-205 | when everything is delivered and nothing waits or runs, every change has been served |
| `TriggerQueue.EventsCoalesce` | internal/constants/constants.go:22-23 | a request waits in the queue at most once, however many events arrive |
| `TriggerQueue.EveryRequestIsHandled` | internal/controller/istio_change_reconciler.go:95-170 | over every run, no request that waits or is in process is dropped as unhandled |
| `TriggerQueue.RequestsHaveCauses` | internal/controller/istio_change_reconciler.go:95-128 | over every run, each request that waits or is in process is just the one of a delivered namespace change, a delivered config change or a tick: no pass is asked for without a cause, nor a wider one |
| `TriggerQueue.CanBecomeQuiet` | internal/controller/istio_change_reconciler.go:95-128 | the queue never gets stuck: from every reachable state some steps, without another change, lead to one in which everything is delivered and nothing waits or runs |
| `TriggerQueue.CanServeAll` | internal/controller/istio_change_reconciler.go:95-205 | so every change ever made can still be served |
| `Reconciler.PassAttemptsPrefix` | internal/controller/istio_change_reconciler.go:237-263 | a live pass attempts a prefix of its workloads, each once and in order; a dry run none |
| `Reconciler.TurnsAreDelayed` | internal/controller/istio_change_reconciler.go:239-244 | in a pass after anything, dry or live, turns i and j are at least (j - i) restart delays apart |
| `Reconciler.DryTurnsAreExact` | internal/controller/istio_change_reconciler.go:237-250 | with waits of exactly the delay, turn i of a dry run comes i delays after the start: there is no wait before the first |
| `Reconciler.RunLeavesStamps` | internal/controller/istio_change_reconciler.go:237-263 | after any run that attempts each workload at most once and without errors, each was stamped at its attempt or had a stamp younger than the cooldown, and still carries that stamp |
| `Reconciler.IstioChangeReconciler.PassIsDelayed` | internal/controller/istio_change_reconciler.go:174-263 | in every whole pass each attempt begins at least the istiod delay after the start, and attempts i and j at least (j - i) restart delays apart |
| `Reconciler.IstioChangeReconciler.PassLeavesStamps` | internal/controller/istio_change_reconciler.go:174-263 | after every whole pass without errors all workloads that it attempted carry a stamp, written or younger than the cooldown at their turn |
| `Reconciler.IstioChangeReconciler.PassServesFullScan` | internal/controller/istio_change_reconciler.go:174-263 | in a faithful world whose pods keep their injection, an uncancelled live pass attempts exactly the namespaces and names that the full scan reports, which are those with an outdated pod once every change had its latency, and without errors leaves each with such a stamp |
| `Reconciler.RunOnlyStamps` | internal/controller/istio_change_reconciler.go:237-263 | a run changes only documents of workloads it attempts, and those only by a stamp |
| `Reconciler.ScannedIsConfined` | internal/podscanner/pod_scanner.go:141-167 | scanned workloads are distinct, in scope, outside skipped namespaces, and share a namespace with a pod |
| `Reconciler.IstioChangeReconciler.AwaitIstiodConfigReadDelay` | internal/controller/istio_change_reconciler.go:54-61 | unless cancelled, at least the delay passes; without a delay no time passes |
| `Reconciler.IstioChangeReconciler.AnnotateWorkloadsWithDelay` | internal/controller/istio_change_reconciler.go:237-263 | the store is that of the trace of its turns; fewer than all turns happen only at a cancelled wait |
| `Reconciler.IstioChangeReconciler.Scan` | internal/controller/istio_change_reconciler.go:174-206 | fails exactly when the wait is cancelled or a list fails; else scans, with the maps of the lists, at least the delay after the start |
| `Reconciler.IstioChangeReconciler.ReconcileAll` | internal/controller/istio_change_reconciler.go:174-233 | unless it fails, the run is a whole pass of its scope; nothing is attempted on error or in a dry run; every changed document is a stamped one of a confined workload |
| `Reconciler.IstioChangeReconciler.Reconcile` | internal/controller/istio_change_reconciler.go:147-170 | a handled request is a whole pass of its scope; a namespace request touches only its namespace; an unhandled one nothing |
| `SkipNamespaces.TrimSpace` | cmd/main.go:70 | trimming cuts only white space, from both ends, and leaves none there |
| `SkipNamespaces.ParseSkipNamespaces` | cmd/main.go:63-75 | the loop returns the trimmed non-empty parts in order |
| `SkipNamespaces.ParsedOfConcat` | cmd/main.go:63-75 | parsing works comma by comma, in order |
| `SkipNamespaces.JoinParseRoundTrip` | cmd/main.go:63-75 | parsing the comma-join of a list gives it back exactly when its members are non-empty, trimmed and comma-free |
| `SkipNamespaces.ParseNormalises` | cmd/main.go:63-75 | every parsed list consists of such names, and survives another join and parse |

## Left out

- Owners.FindWorkloadOwner: the source has no bound on its recursion; the model counts nested calls and calls a traversal that needs more `OutOfDepth`. `EndsIffNoCycleIsMet` and `NestingBound` show that the count used by the scan cuts off no traversal that ends.
- Scanner.ProcessPod: reads an unending traversal as no owner; the scan method demands that the traversals of its pods end (`EndsIffNoCycleIsMet` says when they do), where the source would exhaust its stack.
- Scanner.BuildPod: leaves out the placeholder name of the built pod, whose length is bounded by a constant.
- TriggerQueue.NoLostTrigger: claims no fairness: `CanServeAll` says that everything can be served, not that a scheduler gets there; pods whose processing fails and workloads in cooldown are not requeued by the source.
- Annotator.RoundTrips: the RFC 3339 formatter and parser of the Go library are assumed, not modelled.
- The webhook client: HTTP, TLS, admission reviews and JSON Patch; the webhook is a function.
- JSON text: ConfigMap values start as a decoded tree or a decode failure.
- The informer cache, rate limiting and leader election of controller-runtime, beyond the stated assumptions.
- The periodic ticker beyond its request, logging, flags and manager setup.
- Convergence of the cluster: that every outdated pod is restarted in the end.
