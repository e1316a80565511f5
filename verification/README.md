# HyperFleet operator: a verified model

The operator reconciles one cluster-wide configuration resource into a set of operands: an
API Deployment and one Sentinel Deployment per registered entity type, with their
ConfigMaps, RBAC objects and Services. This project models that reconciler in Dafny and
proves what it promises about the cluster over whole runs.

The code that changes things step by step is a class or a method with loops, proved against
a specification function; the promises are lemmas about those functions. Files, from the
parts to the whole:

- `Strings`, `Sorting`: byte strings, `strings.Join` with NUL, the unstable sort, compaction.
- `ConfigHash`, `Stamping`: the length-delimited encoding behind the rollout hash, its
  decoder, the annotation, and exactly when a component's hash changes.
- `AddressPolicy`, `DialPolicy`, `AddressTable`: longest-prefix match over any table, the
  51 registry records, and which addresses discovery may dial.
- `Conditions`, `Status`, `StatusRuns`: the published status, one update, and whole runs of
  updates that collect health, abort, or fail to be written.
- `Operands`, `ApiComponent`, `SentinelComponent`, `Bundle`, `Health`: the custom resource,
  what each component renders, references and reports, and how a bundle resolves to components.
- `Rollouts`, `ReconcileLoop`: applying with a failure at any request, detecting and counting
  rollouts, and the component loop over an arbitrary store.
- `Discovery`: the acceptance of a discovery document and the per-issuer cache.
- `Controller`, `Convergence`, `ControllerRuns`: one reconcile as a function of the world,
  what it achieves, and runs that mix reconciles with Secret writes and deletions, Deployment
  status changes, out-of-band edits and removals, and operator restarts.
- `MissingSecrets`, `PublishedStatus`, `PublishedRuns`: the list of missing Secrets a reconcile
  publishes, and what the three top-level conditions say about the cluster, at any moment of a run.
- `RenderedPods`, `StoredOperands`, `ServedConfig`, `StatusInWords`: the values: what containers find
  at the paths they look at, what the cluster holds and who owns it, which key source the API is
  served, and the published status word for word.
- `LostRollouts`, `AppliedConfig`: which steps of a run roll a Deployment, which rollouts the counter
  never sees, what a rotation adds to it, and what the applied-config metric says.
- `Reconciler`: the reconciler itself, with its early returns and deferred status update,
  proved to take exactly that step.
- `RelatedImages`: the bundle validator, three passes against one declarative policy.

A Go string is a sequence of bytes, one Dafny `char` for each. SHA-256, the JSON digest of a
pod template, the YAML marshallers, `url.Parse`, the network and the pullspec parser are
parameters, so each theorem holds for all of them; a hypothesis on one of them (NUL-free
YAML, a non-empty digest) is written where it is used. Time is passed to each update.

Results that needed a condition:

- The hash preimage is injective only up to the values of absent entries, which
  `resolveSecretEntries` leaves empty. Joining files determines them exactly when there is one
  file or none holds a NUL (`Strings.JoinDeterminesIff`, `Stamping.DeterminedIff`), given every
  ConfigMap is present (`Stamping.SkippedEntryAmbiguous`).
- The hashed bytes are a function of the entries exactly when entries of one id encode alike
  (`ConfigHash.PreimageUnique`), because `slices.SortFunc` is not stable.
- Names and operand keys are disjoint exactly when no plural equals another or another
  followed by "-broker" (`Bundle.DisjointIff`): the config ConfigMap of the one would be the
  broker ConfigMap of the other.
- The rollout counter is not the number of rollouts: one whose detection read, apply reply or
  refresh fails is never counted, later retries included, nor is a template change on a Deployment
  whose digest was never recorded. On an empty cluster a failing refresh of the API Deployment loses
  its creation for good (`LostRollouts.CreationNeverCounted`). What was gained and what was lost add
  up exactly (`ControllerRuns.RolloutConservation`), the two numbers agree if and only if no step
  lost a rollout (`ControllerRuns.CounterExactIff`), and `LostRollouts.LosesExactlyWhen` says which
  steps do.
- An error inside the Secret loop returns before the missing roles are sorted. With the database
  and broker Secrets absent and the read for the node-pool Sentinel failing, the list is
  "database", "broker", and the next reconcile publishes it the other way round
  (`MissingSecrets.AbortedListOutOfOrder`); `MissingSecrets.SortedAndExactIff` says exactly when
  it is sorted and complete.
- Editing the address table changes exactly the lookups that `AddressPolicy.AddedRecord` and
  `AddressPolicy.RemovedRecord` name, for every table. A record with the flag of the next shorter one
  around it is redundant in a table that lists no block under both flags, which the registry table
  does not (`AddressTable.TableConsistent`), but not in every table
  (`AddressPolicy.RedundantNeedsConsistent`).

Where comments and code differ, the model follows the code: several comments refer to a
`referencedSecretData` that is not there, since references now come from each component and
resourceVersions are hashed; others speak of a pinned JWKS URL, which the resource does not
have; and the `::ffff:0:0/96` record of the table can never match, since such an address counts
as IPv4 in the lookup and is refused before it.

## Model

| member | source | states |
|---|---|---|
| `Convergence.Converges` | internal/controller/hyperfleetconfig_controller.go:222-276 | from any store whatever, a reconcile that succeeds leaves the operator-owned part of every operand of every component equal to its stamped desired value under the configuration's name, which is computed without the store |
| `StoredOperands.AsRendered` | internal/apply/apply.go:33-89 | so the store then holds every operand of every component as rendered, with the configuration as owner; a Deployment besides has the rollout hash in its pod template and that template's digest on itself, and nothing else differs |
| `StoredOperands.OwnedByConfiguration` | internal/apply/apply.go:67-71 | after a successful reconcile every operand key of every component is stored and owned by the configuration |
| `StoredOperands.ChangesAreOwned` | internal/apply/apply.go:67-88 | however a reconcile ends, nothing is deleted and every object whose owned part it created or changed is owned by the configuration |
| `StoredOperands.BodyRaises` | internal/apply/apply.go:81-83 | however a reconcile ends, a Deployment whose spec it changed has a higher generation than before and the status the Deployment controller gave it |
| `Convergence.StartDoesNotMatter` | internal/controller/hyperfleetconfig_controller.go:121-290 | two stores that went through the same inputs agree on every operand, whatever was edited or missing in them before |
| `Convergence.TouchesOnlyOperands` | internal/apply/apply.go:33-89 | however a reconcile ends, it deletes nothing, writes no field of another manager and no Deployment status, and leaves every object that is not an operand as it was |
| `Convergence.SecondWritesNothing` | internal/controller/hyperfleetconfig_controller.go:121-290 | a second reconcile on the same inputs writes no object and counts no rollout, even when it is cut short |
| `Convergence.SecondReconcileIsSilent` | internal/controller/hyperfleetconfig_controller.go:121-290 | a second successful reconcile on the same inputs changes no object, no counter, no metric label and no status at whatever later time, and does not fail even if a status write would |
| `Convergence.FailsExactlyWhen` | internal/controller/hyperfleetconfig_controller.go:171-276 | a reconcile's body fails exactly when the bundle has no component set, a Secret read fails, the JWKS URL cannot be resolved, the Sentinel image or broker is unusable, or a request for an operand fails; stored objects and missing Secrets never make it fail |
| `Convergence.SucceedsWithoutFaults` | internal/controller/hyperfleetconfig_controller.go:171-289 | with a usable setup, no failing request and a JWKS URL, every reconcile succeeds, whatever is stored and whichever Secrets are missing |
| `Convergence.FailsIff` | internal/controller/hyperfleetconfig_controller.go:148-158 | health counts as collected exactly when the body did not fail, and it fails exactly when it stops before the component loop or a component of the loop fails |
| `Convergence.ApiAlwaysRenders` | internal/component/api/config.go:226-264 | in a reconcile that reaches the component loop the "no JWKS source resolved" error of the API renderer cannot be met |
| `Convergence.BodyReportsGood` | internal/component/api/api.go:203-209 | every reconcile, aborted or not, reports distinct components with distinct condition types, and none that is rolled out but not available |
| `ControllerRuns.StatusSafety` | internal/controller/hyperfleetconfig_status.go:36-81 | every status published in any run (aborts, edits, deletions, restarts, failed status writes, rising generations) is in lockstep with its generation, and publishes Progressing=False only with Available=True |
| `ControllerRuns.TransitionTimes` | internal/controller/hyperfleetconfig_status.go:116-145 | over any run the transition time of each top-level and component condition is the start of its current streak in the history of reports |
| `ControllerRuns.DiscoverySafety` | internal/controller/hyperfleetconfig_rollout.go:280-314 | in any run, a reconcile past the Secret loop fails in discovery exactly when discovery fails and this issuer has not succeeded since the process started; and the API then always renders |
| `ControllerRuns.SecretChangedIff` | internal/controller/hyperfleetconfig_rollout.go:427-459 | a Secret reads differently at two moments of a run exactly when it was written or deleted in between and exists at one of them |
| `ControllerRuns.RotationRolls` | internal/controller/hyperfleetconfig_rollout.go:443-524 | the bytes hashed for a component change between two moments of a run exactly when a mounted ConfigMap's data changed or a Secret its pods use was rotated in between |
| `ControllerRuns.RolloutConservation` | internal/controller/observability.go:97-156 | over every prefix of any run without out-of-band changes to its Deployment, for each component and each trigger: what the counter gained plus the rollouts that were hidden equals the creations, template-digest changes or image changes that the stores show |
| `ControllerRuns.CounterExactIff` | internal/controller/observability.go:97-156 | the counter never exceeds the rollouts of its trigger, and equals them exactly when no step of the run rolled the Deployment while hidden from it |
| `ControllerRuns.LostForGood` | internal/controller/observability.go:133-156 | once a step lost a rollout the counter stays behind for the rest of the run, retries included |
| `ControllerRuns.HiddenIffUnobserved` | internal/controller/observability.go:124-156 | from stores whose digests this operator recorded, a step of a run hides rollouts exactly when it is a reconcile whose detection read, apply reply or refresh for that Deployment fails |
| `LostRollouts.RollsExactlyWhen` | internal/controller/hyperfleetconfig_controller.go:222-257 | a step of a run rolls a Deployment for a trigger exactly when it is a reconcile whose requests get as far as carrying out that write, and the Deployment was absent, or had other images, or a template of another digest than the rendered and stamped one |
| `LostRollouts.LosesExactlyWhen` | internal/controller/observability.go:97-156 | a step loses a rollout exactly when it rolls in that sense while the detection read, the apply reply or the refresh fails, or the template changes on a Deployment without a recorded digest |
| `LostRollouts.UnobservedWriteLoses` | internal/apply/apply.go:81-86 | a step of a run that carries out the write while its detection read, its reply or its refresh fails loses exactly the rollout that was pending; if the Deployment was absent it loses a creation |
| `LostRollouts.CreationNeverCounted` | internal/apply/apply.go:81-86 | an input: on an empty cluster the refresh of the API Deployment fails after the create, and in every continuation of the run the counter stays below the number of creations |
| `LostRollouts.RotationCounted` | internal/controller/observability.go:97-156 | between two successful reconciles of one spec and configuration with no reconcile and no out-of-band change of the Deployment in between, the second adds exactly one ConfigChange of a component if a mounted ConfigMap's data changed or a Secret its pods use was rotated, else none, and no other trigger |
| `ControllerRuns.RotationReachesPods` | internal/controller/hyperfleetconfig_rollout.go:443-524 | for a hash without collisions: between two successful reconciles of one spec and configuration in a run, a component's stored pod template changes exactly when a mounted ConfigMap's data changed or a Secret its pods use was rotated in between |
| `ControllerRuns.StoredTemplate` | internal/controller/hyperfleetconfig_controller.go:223-276 | after a successful reconcile the stored Deployment of every component has its rendered template, stamped with the hash of that moment's Secrets, and records that template's digest |
| `PublishedStatus.StatusMeansHealth` | internal/controller/hyperfleetconfig_status.go:51-81 | after a successful reconcile whose status is stored: Available is True exactly when every component's stored Deployment has the replicas it wants available, Progressing is False exactly when every one has finished rolling out, and Degraded is False exactly when no referenced Secret is missing |
| `PublishedRuns.HealthInRuns` | internal/controller/hyperfleetconfig_status.go:51-81 | at any moment of any run, Available and Progressing say exactly that of the Deployments as the last successful reconcile with a stored status left them; aborted and unstored reconciles, restarts and edits in between change neither |
| `StatusInWords.HealthInWords` | internal/controller/hyperfleetconfig_status.go:51-81 | after a successful reconcile whose status is stored, Available and Progressing carry the generation and, word for word, either the verdict for all or the status, reason and message of the first component in bundle order whose stored Deployment stands against it |
| `StatusInWords.HealthInWordsInRuns` | internal/controller/hyperfleetconfig_status.go:51-81 | at any moment of any run the two conditions still read so for the last reconcile that published health |
| `StatusInWords.ComponentsInWords` | internal/controller/hyperfleetconfig_status.go:105-160 | after such a reconcile the published entry of every component reads, word for word, what its own stored Deployment shows |
| `StatusInWords.DegradedInWords` | internal/controller/hyperfleetconfig_status.go:206-230 | however a reconcile ended, once its status is stored Degraded names the missing Secrets in the published order, else the failure, else nothing |
| `StatusInWords.RolloutIsProgressing` | internal/component/api/api.go:279-308 | a successful reconcile that replaces the pods of any component and whose status is stored publishes Progressing=True |
| `PublishedRuns.NothingClaimedBefore` | internal/controller/hyperfleetconfig_status.go:51-81 | until a first such reconcile neither condition is published with any status |
| `PublishedRuns.DegradedInRuns` | internal/controller/hyperfleetconfig_status.go:51-81 | at any moment of any run Degraded is False exactly when the last reconcile with a stored status succeeded and found every referenced Secret |
| `AppliedConfig.LabelInRuns` | internal/controller/hyperfleetconfig_controller.go:274-279 | at any moment of a run the applied-config metric carries the digest of the last successful reconcile since the process started |
| `AppliedConfig.NoLabelAfterRestart` | internal/controller/hyperfleetconfig_controller.go:274-279 | after a start and until a reconcile succeeds the metric has no label |
| `AppliedConfig.LabelChangesIff` | internal/controller/observability.go:44-66 | for hashes without collisions: between two successful reconciles of one configuration the label stays the same exactly when the spec is the same and no component got other mounted data or a rotated Secret |
| `ControllerRuns.ReconcileCounts` | internal/controller/hyperfleetconfig_controller.go:230-245 | one reconcile adds to a component's counter for a trigger exactly one if the stores before and after it show such a rollout that nothing hid, else nothing |
| `ReconcileLoop.LoopConverges` | internal/controller/hyperfleetconfig_controller.go:223-275 | a component loop that does not fail leaves every operand converged, given components with disjoint operands |
| `ReconcileLoop.LoopReports` | internal/controller/hyperfleetconfig_controller.go:248-274 | the reported conditions are the health read off the final store: later components do not disturb what was read for earlier ones |
| `ReconcileLoop.LoopIdempotent` | internal/apply/apply.go:45-88 | over a converged store the loop writes and counts nothing even when cut short, and reports the health it finds |
| `ReconcileLoop.LoopFrame` | internal/apply/apply.go:67-88 | objects that no component renders are untouched, however the loop ends |
| `ReconcileLoop.LoopFailsIff` | internal/controller/hyperfleetconfig_controller.go:224-257 | the loop fails exactly when a component does not render or a request for one of its operands fails, whatever the store holds |
| `ReconcileLoop.LoopCounts` | internal/controller/observability.go:97-156 | a component loop, cut short or not, adds for each component and trigger exactly one event if the stores show that rollout and it was not hidden, else none; the recorded digests stay truthful |
| `ReconcileLoop.DetectionMatches` | internal/controller/observability.go:124-142 | detection before the write agrees with the stores after it: one event of the trigger that replaced the pods unless hidden, none of any other trigger |
| `ReconcileLoop.AppliedLast` | internal/apply/apply.go:81-86 | the last operand of a pass is either untouched, or written; written without success only when its own reply or refresh was lost |
| `ReconcileLoop.RefreshFailureLosesEvent` | internal/apply/apply.go:81-86 | when the reply or the refresh fails after the write of a component's Deployment, the store holds the desired Deployment and no trigger is counted |
| `ReconcileLoop.LoopMisses` | internal/apply/apply.go:55-89 | when a request before the write of a component's Deployment fails, or that write is refused, the Deployment is untouched |
| `Rollouts.DetectRollouts` | internal/controller/observability.go:104-146 | the in-place loop stamps each Deployment's template digest and returns the events specified against the live store |
| `Rollouts.SameContainerImages` | internal/controller/observability.go:167-180 | true exactly when both templates have the same images in the same order |
| `Rollouts.AppliedConverges` | internal/apply/apply.go:67-88 | a pass that succeeds leaves each of its distinct operands owned as desired |
| `Rollouts.AppliedIdempotent` | internal/apply/apply.go:45-88 | reapplying what is there writes nothing, even when the pass is cut short |
| `Rollouts.AppliedKeepsForeign` | internal/apply/apply.go:33-88 | applying deletes nothing, keeps foreign fields and Deployment status, and never lowers a generation |
| `Rollouts.AppliedFrame` | internal/apply/apply.go:67-88 | an object outside the pass keeps its presence and contents |
| `Rollouts.ConvergedRaisesNothing` | internal/controller/observability.go:133-142 | no event is raised for Deployments that are already applied with their digest recorded |
| `Rollouts.RolloutIff` | internal/controller/observability.go:133-146 | with a digest that tells templates apart, a rollout is a creation or a change of the desired template, and every such change is one |
| `Rollouts.ReplacesIff` | internal/controller/observability.go:140-180 | an image rollout is exactly a change of the list of container images, a configuration rollout exactly a change of digest under the same images |
| `Operands.ApplyIdempotent` | internal/apply/apply.go:45-88 | applying identical state changes neither fields nor generation |
| `MissingSecrets.MissingIsExact` | internal/controller/hyperfleetconfig_controller.go:192-210 | when no Secret read fails, the published missing list is strictly increasing and is exactly the set of roles whose Secret does not exist, whatever else fails |
| `MissingSecrets.AbortListsPrefix` | internal/controller/hyperfleetconfig_controller.go:192-206 | when a Secret read fails, the published list holds exactly the roles missing among the components before the first failing one |
| `MissingSecrets.AbortPublishes` | internal/controller/hyperfleetconfig_controller.go:192-206 | the list published by an aborted Secret loop, element by element: the API's roles in reference order, then one "broker" per Sentinel read |
| `MissingSecrets.SortedAndExactIff` | internal/controller/hyperfleetconfig_controller.go:192-210 | the published list is strictly increasing and exact if and only if no read fails or a condition holds on the first failing component and on which of the four Secrets are absent |
| `MissingSecrets.AbortedListOutOfOrder` | internal/controller/hyperfleetconfig_controller.go:192-210 | an input that publishes "database" before "broker", and the same input with the read succeeding, which publishes them the other way round |
| `Controller.ComponentsSound` | internal/bundle/bundle.go:137-173 | the components of every resolvable bundle have disjoint names and operands, each with its Deployment last |
| `Controller.GatheredMissing` | internal/controller/hyperfleetconfig_controller.go:201-205 | a role is collected exactly when some component refers to an absent Secret under it |
| `Reconciler.HyperFleetConfigReconciler.Reconcile` | internal/controller/hyperfleetconfig_controller.go:129-290 | the method with its early returns and deferred update leaves exactly the objects, cache, counter, metric label and status of the specified step, fails exactly when the body or the status write does, and leaves what it changed, and after a success every operand, owned by the configuration |
| `Reconciler.HyperFleetConfigReconciler.ReconcileBody` | internal/controller/hyperfleetconfig_controller.go:171-289 | the phases in order, each abort leaving what the earlier phases learned |
| `Reconciler.HyperFleetConfigReconciler.ReconcileComponents` | internal/controller/hyperfleetconfig_controller.go:223-276 | the component loop computes the specified progress and stops at the first failure |
| `Reconciler.HyperFleetConfigReconciler.ReconcileComponent` | internal/controller/hyperfleetconfig_controller.go:224-274 | render, stamp, detect, apply under the configuration's name, commit and report, in that order, with nothing committed when the apply fails |
| `Reconciler.HyperFleetConfigReconciler.ApplyObjects` | internal/apply/apply.go:55-89 | the apply-then-refresh loop writes the specified prefix and, on success, returns every object as the store holds it |
| `Reconciler.HyperFleetConfigReconciler.GatherSecrets` | internal/controller/hyperfleetconfig_controller.go:192-206 | the loop files every component's entries under its own name, none overwriting another's, and collects the missing roles up to the first failing read |
| `Reconciler.HyperFleetConfigReconciler.ResolveSecretEntries` | internal/controller/hyperfleetconfig_rollout.go:443-459 | entries carry presence and resourceVersion, an absent one no value; any other read error fails |
| `Reconciler.HyperFleetConfigReconciler.CommitRollouts` | internal/controller/observability.go:152-156 | every detected event is counted, in order |
| `Reconciler.HyperFleetConfigReconciler.FindDeployment` | internal/component/sentinel/sentinel.go:143-151 | the Deployment of that name among the refreshed objects, or none if there is none |
| `Reconciler.HyperFleetConfigReconciler.UpdateStatus` | internal/controller/hyperfleetconfig_controller.go:160-166 | the status is written exactly when it changed, and a failed write of a change is an error |
| `Reconciler.HyperFleetConfigReconciler.ReconcileStep` | internal/controller/hyperfleetconfig_controller.go:129-290 | running the method moves the whole world by one reconcile step of `ControllerRuns`, which every theorem about runs speaks about, fails exactly when that step does, and keeps ownership |
| `ConfigHash.RoundTrip` | internal/controller/hyperfleetconfig_rollout.go:465-493 | a decoder returns the config and the entries from the bytes hashed, for all byte strings, with absent entries carrying no value |
| `ConfigHash.DecodeCanonical` | internal/controller/hyperfleetconfig_rollout.go:471-491 | what decodes re-encodes to the same bytes: the encoding has no second spelling |
| `ConfigHash.EncodeInjective` | internal/controller/hyperfleetconfig_rollout.go:461-493 | two inputs collide exactly when they differ at most in the values of absent entries |
| `ConfigHash.PreimageUnique` | internal/controller/hyperfleetconfig_rollout.go:465-493 | the bytes are determined by the entries exactly when entries of one id encode alike, because the sort is not stable |
| `ConfigHash.PermutationInvariant` | internal/controller/hyperfleetconfig_rollout.go:465-493 | permuting entries of distinct ids does not change the bytes |
| `ConfigHash.ComputeConfigHash` | internal/controller/hyperfleetconfig_rollout.go:465-493 | the hasher loop digests one of the preimages of its arguments, and the only one when the ids differ |
| `ConfigHash.Hasher.WriteField` | internal/controller/hyperfleetconfig_rollout.go:471-476 | a field is its decimal length, a colon, its bytes and a NUL |
| `Strings.JoinNulInjective` | internal/controller/hyperfleetconfig_rollout.go:509 | joining with NUL determines NUL-free parts, as many as there are |
| `Strings.JoinDeterminesIff` | internal/controller/hyperfleetconfig_rollout.go:509 | a join determines its parts among all lists of as many exactly when there is one part or no part holds a NUL |
| `Strings.JoinNulShifts` | internal/controller/hyperfleetconfig_rollout.go:509 | with a NUL in one of several parts, another list of as many parts joins alike |
| `Strings.JoinNulAmbiguous` | internal/controller/hyperfleetconfig_rollout.go:509 | two concrete lists of two parts with one join |
| `Sorting.SortFunc` | internal/controller/hyperfleetconfig_rollout.go:466-468 | sorted and a permutation, determined only when the keys differ |
| `Sorting.SortCompact` | internal/controller/hyperfleetconfig_controller.go:209-210 | the distinct members in strictly increasing order |
| `Sorting.StrictlyIncreasingUnique` | internal/controller/hyperfleetconfig_controller.go:207-210 | a strictly increasing list is determined by its members, so the Degraded message does not flip-flop |
| `Stamping.StampConfigHash` | internal/controller/hyperfleetconfig_rollout.go:499-524 | the joined files and entries are hashed and the named Deployments stamped in place |
| `Stamping.StampFrame` | internal/controller/hyperfleetconfig_rollout.go:513-522 | only one annotation of the named Deployments changes; undoing it gives the operand back |
| `Stamping.JoinDetermines` | internal/controller/hyperfleetconfig_rollout.go:500-509 | with every ConfigMap present, the joined text agrees exactly when every file agrees, if the files of one side are NUL-free or there is only one |
| `Stamping.DeterminedIff` | internal/controller/hyperfleetconfig_rollout.go:500-509 | that provision is exact: the join determines the files of a rendering against every other exactly when they are NUL-free or there is only one |
| `Stamping.SkippedEntryAmbiguous` | internal/controller/hyperfleetconfig_rollout.go:500-508 | without a ConfigMap the join no longer determines the files |
| `Stamping.RenderComplete` | internal/component/sentinel/sentinel.go:73-83 | what a component renders holds every ConfigMap its rollout target names, with exactly the hashed file in it |
| `Stamping.SelectiveRollout` | internal/controller/hyperfleetconfig_rollout.go:443-524 | with spec and images fixed, the hashed bytes agree exactly when every mounted ConfigMap has the same data and every Secret the pod template uses kept its presence and resourceVersion |
| `Stamping.EntriesDetermine` | internal/controller/hyperfleetconfig_rollout.go:443-459 | the sorted entries agree exactly when every referenced Secret kept its presence and version |
| `Stamping.HashConfig` | internal/controller/observability.go:52-66 | the loop digests the spec and the component hashes joined by NUL |
| `Stamping.HashConfigInjective` | internal/controller/observability.go:44-66 | those bytes determine the spec and every component hash, in order |
| `Bundle.DisjointIff` | internal/component/sentinel/render.go:73-91 | names and operand keys of a tier are pairwise distinct exactly when the plurals are and none is another followed by "-broker" |
| `Bundle.CloudCAPISeparated` | internal/bundle/bundle.go:89-113 | the cloud-capi plurals meet that condition |
| `Bundle.EveryEntityDecides` | internal/component/sentinel/config.go:241-273 | every cloud-capi entity has a message decision |
| `Bundle.SharedTier` | internal/bundle/bundle.go:141-173 | the loop builds the API and one Sentinel per entity, or fails without entities or broker |
| `Bundle.Resolve` | internal/bundle/bundle.go:187-193 | the shared tier followed by nothing bundle-specific, or its error |
| `Bundle.SetResolvedJWKSURL` | internal/bundle/bundle.go:198-205 | only the first API component is assigned |
| `Bundle.SetAPIBaseURL` | internal/bundle/bundle.go:207-213 | every Sentinel is assigned and nothing else |
| `Bundle.WiredTier` | internal/controller/hyperfleetconfig_controller.go:182-220 | both setters together reach the API and every Sentinel of a resolved tier, in either order |
| `Bundle.ReferencesMatch` | internal/bundle/bundle.go:45-59 | for every component and spec the pod template refers to exactly the Secrets and ConfigMaps that are hashed |
| `Bundle.RolesDistinct` | internal/component/api/api.go:93-112 | the roles of one component's references differ, so its hash does not depend on the sort |
| `Bundle.RenderKeys` | internal/component/api/api.go:143-150 | a component renders exactly its own operand keys |
| `Bundle.RenderDeployment` | internal/component/api/api.go:143-150 | the Deployment comes last, alone of its kind, under the rollout target's name and unstamped |
| `ApiComponent.ReferencesMatch` | internal/component/api/render.go:187-266 | the API pods refer to exactly the Secrets and the ConfigMap that are hashed, for every combination of TLS, auth and pinned JWKS |
| `ApiComponent.BuildDeployment` | internal/component/api/render.go:187-266 | the conditional appends build the specified volumes and mounts |
| `RenderedPods.ApiPodMounts` | internal/component/api/render.go:202-266 | for every spec, what every container of the API sees at every path: the ConfigMap, the database Secret, the TLS Secret and the pinned keys, each at its own path, the latter two exactly when the spec has them, and nothing else |
| `RenderedPods.ApiWellMounted` | internal/component/api/render.go:202-266 | every mount names a volume, and no volume name and no path is used twice |
| `RenderedPods.ApiDatabaseFiles` | internal/component/api/render.go:188-200 | each of the five variables names the file under which the container finds that key of the database Secret |
| `RenderedPods.ApiConfigIs` | internal/component/api/config.go:235-272 | the rendered configuration, field by field, for every spec, entity list and URL |
| `RenderedPods.ApiKeyFile` | internal/component/api/api.go:181-197 | the key file named in the configuration is where every container finds the pinned Secret |
| `RenderedPods.ApiReadsItsConfig` | internal/component/api/api.go:143-150 | every container of the API runs the configured image and reads the configuration rendered for it at the path it is told |
| `RenderedPods.ApiServiceRendered` | internal/component/api/api.go:143-150 | the API is rendered a Service whose port speaks https exactly with TLS |
| `ApiComponent.NoSourceIff` | internal/component/api/config.go:255-264 | no JWKS source exactly when auth is on, no Secret is pinned and discovery supplied nothing; otherwise exactly one source |
| `ApiComponent.RenderConfig` | internal/component/api/config.go:235-272 | the conditional assignments build the specified document or fail without a source |
| `SentinelComponent.ReferencesMatch` | internal/component/sentinel/render.go:142-200 | the Sentinel pods refer to exactly the Secret and the two ConfigMaps that are hashed, for every broker |
| `SentinelComponent.BuildDeployment` | internal/component/sentinel/render.go:142-200 | the conditional appends build the specified environment, volumes and mounts |
| `RenderedPods.SentinelPodMounts` | internal/component/sentinel/render.go:142-200 | for every spec, what a Sentinel sees at every path: its own two files under their sub-paths and, with auth on, a token for the API's audience, and nothing else |
| `RenderedPods.SentinelConfigIs` | internal/component/sentinel/config.go:146-192 | what a Sentinel is configured to be, field by field |
| `RenderedPods.BrokerConfigIs` | internal/component/sentinel/config.go:195-222 | the broker configuration for every broker, or none |
| `RenderedPods.SentinelCredential` | internal/component/sentinel/render.go:142-156 | the broker credential is handed over exactly for RabbitMQ |
| `RenderedPods.SentinelReadsItsConfig` | internal/component/sentinel/sentinel.go:102-121 | a Sentinel runs the configured image and reads the two files rendered for it where it looks |
| `RenderedPods.SentinelsCallTheApi` | internal/bundle/bundle.go:207-213 | every Sentinel of a wired tier calls the Service the API renders, in its namespace, over https exactly when the API's configuration turns TLS on, and is configured from its own entity |
| `RenderedPods.ParentsAreRegistered` | internal/bundle/bundle.go:81-113 | every entity with a parent names one registered before it |
| `SentinelComponent.RenderFailsIff` | internal/component/sentinel/sentinel.go:102-121 | rendering fails exactly on a missing image, an unknown resource type or an unusable broker |
| `Health.RolledOutImpliesAvailable` | internal/component/api/api.go:191-231 | for every Deployment state of either component, rolled out implies available; each condition's meaning in replica counts |
| `Health.SingleReplica` | internal/component/api/api.go:223-308 | both conditions word for word for a Deployment that wants one replica |
| `Health.OtherCounts` | internal/component/api/api.go:223-308 | an unset count means one replica, zero means available, some but too few is said in numbers, and an absent Deployment is neither available nor rolled out |
| `Discovery.DiscoverJWKSURL` | internal/controller/hyperfleetconfig_rollout.go:348-414 | a URL is returned exactly for an acceptable document: matching issuer up to one trailing slash, non-empty https URL with a host |
| `Discovery.DiscoveryCache.ResolveJWKSURL` | internal/controller/hyperfleetconfig_rollout.go:294-314 | the fresh URL whatever is cached, else the cached one for exactly this issuer, else an error; nothing when no discovery is needed |
| `Discovery.AcceptedIff` | internal/controller/hyperfleetconfig_rollout.go:348-414 | what it takes for a document to be accepted, down to the characters |
| `Discovery.ResolvesTo` | internal/controller/hyperfleetconfig_rollout.go:294-314 | over every run a resolution returns exactly the URL of the document just fetched if acceptable, else that of the latest success for the issuer, "" when discovery is not looked to, and fails otherwise |
| `Discovery.FreshWins` | internal/controller/hyperfleetconfig_rollout.go:312-313 | an acceptable document wins over whatever is cached |
| `ServedConfig.RendersResolvedURL` | internal/component/api/config.go:226-272 | every reconcile of a run that reaches the component loop renders the API a configuration whose one issuer names exactly that URL, or the pinned Secret's file, or has no issuer when auth is off |
| `ServedConfig.ServesResolvedURL` | internal/controller/hyperfleetconfig_controller.go:215-257 | and a successful one leaves exactly that configuration in the cluster, owned by the resource |
| `Discovery.CacheHoldsLatest` | internal/controller/hyperfleetconfig_rollout.go:316-332 | over every run an issuer is cached exactly when it has succeeded, with the URL of its latest success |
| `Discovery.CachedIsAcceptable` | internal/controller/hyperfleetconfig_rollout.go:394-413 | every cached URL came from an acceptable document for its own issuer |
| `Discovery.NeverFailsAgain` | internal/controller/hyperfleetconfig_rollout.go:286-314 | once an issuer has succeeded, resolution never fails for it again; before that it fails exactly with discovery |
| `Discovery.SourceResolved` | internal/component/api/config.go:226-264 | after a successful resolution the renderer always has its source |
| `AddressPolicy.SpecialPurposeGloballyReachable` | internal/controller/hyperfleetconfig_rollout.go:227-250 | the running best match finds the first record of maximal length among those that match |
| `AddressPolicy.Lookup` | internal/controller/hyperfleetconfig_rollout.go:224-250 | the flag of some longest matching record, or none exactly when none matches |
| `AddressPolicy.LookupIsLongest` | internal/controller/hyperfleetconfig_rollout.go:224-250 | in a consistent table the flag is that of every longest match |
| `AddressPolicy.OrderIndependent` | internal/controller/hyperfleetconfig_rollout.go:227-250 | every permutation of a table gives the same answer exactly when its longest matches agree |
| `AddressPolicy.LookupByMembership` | internal/controller/hyperfleetconfig_rollout.go:227-250 | where no denial is nested in an exception, an exception that matches decides, else a denial that matches |
| `AddressPolicy.AddedRecord` | internal/controller/hyperfleetconfig_rollout.go:227-250 | adding a record to any table at any place changes exactly the lookups of the addresses inside it that it decides (longer than every match before it, at least as long as every match after it) and that had another answer |
| `AddressPolicy.RemovedRecord` | internal/controller/hyperfleetconfig_rollout.go:227-250 | deleting a record from any table changes exactly the lookups of the addresses it decided that the rest of the table answers otherwise |
| `AddressPolicy.RedundantRecord` | internal/controller/hyperfleetconfig_rollout.go:227-250 | so, in a table that lists no block under both flags, deleting a record whose flag is that of the next-shorter enclosing one changes no result |
| `AddressPolicy.AddedAnywhere` | internal/controller/hyperfleetconfig_rollout.go:227-250 | likewise, in a table that then lists no block under both flags, the place of an added record does not matter: it changes exactly the addresses inside it that no record of equal or greater length covered and that had another answer |
| `AddressPolicy.RedundantNeedsConsistent` | internal/controller/hyperfleetconfig_rollout.go:227-250 | a table that lists a block under both flags, where such a deletion changes a result |
| `AddressTable.TableExceptionsAreLeaves` | internal/controller/hyperfleetconfig_rollout.go:144-199 | no denial of the 51 records is nested in an exception |
| `AddressTable.TableConsistent` | internal/controller/hyperfleetconfig_rollout.go:144-199 | no block of the 51 records is listed under both flags |
| `AddressTable.TableClosedForm` | internal/controller/hyperfleetconfig_rollout.go:144-199 | the table's answer for every address of both families, in closed form |
| `AddressTable.TableOrderIrrelevant` | internal/controller/hyperfleetconfig_rollout.go:144-199 | the same answer for every permutation of the 51 records |
| `AddressTable.PolicyClosedForm` | internal/controller/hyperfleetconfig_rollout.go:104-124 | which addresses are refused, over the whole of both address spaces |
| `AddressTable.Nat64Verdict` | internal/controller/hyperfleetconfig_rollout.go:259-264 | all 2^32 embeddings get the verdict of the IPv4 address they embed, although the table marks the prefix reachable |
| `DialPolicy.CategoriesSubsumed` | internal/controller/hyperfleetconfig_rollout.go:265-278 | loopback, private, link-local unicast and unspecified addresses are all in the table |
| `DialPolicy.ListedOrMulticast` | internal/controller/hyperfleetconfig_rollout.go:265-278 | outside NAT64 a listed address gets the negated flag and an unlisted one is disallowed exactly when multicast |
| `Conditions.SetStatusCondition` | internal/controller/hyperfleetconfig_status.go:65 | the library call: update by type or append, move the time only with the status, report exactly whether anything changed |
| `Conditions.FindSet` | internal/controller/hyperfleetconfig_status.go:65 | writing one type leaves the entries of all others |
| `Status.HyperFleetConfig.AggregateStatus` | internal/controller/hyperfleetconfig_status.go:51-81 | the in-place update leaves a specified status and flag, whatever an unstable sort does |
| `Status.HyperFleetConfig.SetComponentStatuses` | internal/controller/hyperfleetconfig_status.go:105-160 | entries are rebuilt in name order from the reports and the published entries, and the comparison is against the sorted old list |
| `Status.HyperFleetConfig.MergeConditions` | internal/controller/hyperfleetconfig_status.go:123-144 | seed with the types still reported, then overlay |
| `Status.HyperFleetConfig.SetConditions` | internal/controller/hyperfleetconfig_status.go:63-68 | the writes accumulate and the flag is exact |
| `Status.ChangeFlagExact` | internal/controller/hyperfleetconfig_status.go:63-80 | with distinct names the update is a function, and the flag is false exactly when the new status is the old one with its components sorted |
| `Status.FlattenConditions` | internal/controller/hyperfleetconfig_status.go:85-95 | every component's conditions in order |
| `Status.RollupCondition` | internal/controller/hyperfleetconfig_status.go:173-193 | the status, reason and message of the first condition of the type not in the expected state, else the expected status and the defaults |
| `Status.RollupShows` | internal/controller/hyperfleetconfig_status.go:173-193 | the same of the specification: the roll-up shows the first unexpected condition as it is reported |
| `Status.FirstUnexpected` | internal/controller/hyperfleetconfig_status.go:174-184 | none exactly when all are as expected |
| `Status.DegradedCondition` | internal/controller/hyperfleetconfig_status.go:206-230 | False exactly when nothing is missing and nothing failed; a missing Secret takes precedence |
| `Status.AvailableRollup` | internal/controller/hyperfleetconfig_status.go:58 | True exactly when every component is available |
| `Status.ProgressingRollup` | internal/controller/hyperfleetconfig_status.go:59 | False exactly when no component is progressing |
| `Status.FindSetAll` | internal/controller/hyperfleetconfig_status.go:140-143 | each type written once carries the generation and its own time; every other type keeps its entry |
| `StatusRuns.RunLockstep` | internal/controller/hyperfleetconfig_status.go:51-81 | over every mixture of collected and aborted rounds: generations in lockstep, unique types, sorted unique components |
| `StatusRuns.TopTimes` | internal/controller/hyperfleetconfig_status.go:63-68 | a top-level time changes only in rounds where its status changes or it first appears |
| `StatusRuns.ComponentTimes` | internal/controller/hyperfleetconfig_status.go:116-145 | a component condition's time depends on that component's reports alone |
| `StatusRuns.SkippingLosesNothing` | internal/controller/hyperfleetconfig_status.go:51-81 | on every reachable status, the persisted result of a round is the aggregate itself |
| `StatusRuns.RepeatChangesNothing` | internal/controller/hyperfleetconfig_status.go:147-159 | a repeated update changes and reports nothing, even with a component's conditions reordered |
| `StatusRuns.OrderOfComponents` | internal/controller/hyperfleetconfig_status.go:51-95 | permuting reports leaves Available=True, Progressing=False and the published list unchanged |
| `StatusRuns.RunRolledOut` | internal/controller/hyperfleetconfig_status.go:36-81 | if components report so, every reachable status with Progressing=False has Available=True |
| `RelatedImages.ValidateCSVData` | validators/related-images/main.go:146-166 | the three passes report message by message the specified sequence, then each unmatched container image once; as a set these are exactly the violations, and there are none exactly for a conforming document |
| `RelatedImages.EveryVariableInspected` | validators/related-images/main.go:209-236 | for every container or init container of every deployment, a variable named "RELATED_IMAGE_" followed by anything is reported if its value is no digest, if its name came before, or if its value is not listed |
| `RelatedImages.ContainersInOrder` | validators/related-images/main.go:169-174 | the passes visit the deployments in order and in each the containers before the init containers, leaving none out |
| `RelatedImages.ReportComplete` | validators/related-images/main.go:146-236 | every report of that form holds exactly the violations, and is empty exactly for a conforming document |
| `RelatedImages.ConformsIffNoViolation` | validators/related-images/main.go:146-236 | the declarative policy, over all containers and init containers and all variables with the prefix, holds exactly when there is no violation |
| `RelatedImages.ManifestResult.ValidateContainerImages` | validators/related-images/main.go:169-182 | the first pass appends one message per non-digest container, in order, and records all images unmatched |
| `RelatedImages.ManifestResult.ValidateRelatedImages` | validators/related-images/main.go:185-205 | the second pass appends, entry by entry, non-digest and duplicate messages and marks the listed images |
| `RelatedImages.ManifestResult.ValidateEnvVars` | validators/related-images/main.go:209-236 | the third pass appends, variable by variable, what each RELATED_IMAGE_ variable is reported for; a repeated name is not looked up |
| `RelatedImages.ManifestResult.ReportUnmatched` | validators/related-images/main.go:159-164 | the last loop reports each image never matched exactly once, in any order |

## Left out

- Convergence.Converges: a reconcile is atomic towards the environment; edits by others happen between reconciles, not between two of its requests, and an informer cache never lags.
- ControllerRuns.RolloutConservation: assumes the same coherent reads; it counts changes of the 12-character template digest rather than of the template, and increments across restarts add up.
- ControllerRuns.StatusSafety: speaks of one custom resource; a resource that is deleted and created again starts a new run, and garbage collection of its operands is not modelled.
- Reconciler.HyperFleetConfigReconciler.Reconcile: requires the published component entries to have distinct names, which the schema's list-map key guarantees.
- Reconciler.HyperFleetConfigReconciler.ApplyObjects: the refreshed objects are returned as a list instead of overwriting the rendered ones in place, and setting the owner reference or converting an object cannot fail.
- Bundle.SetAPIBaseURL: a component is a value in an array; in the source it is an object referred to from a slice, created separately, so nothing else aliases it.
- Rollouts.DetectRollouts: the containers of a live Deployment are those the operator owns; containers injected and fields defaulted by the API server are not modelled.
- RelatedImages.ValidateCSVData: the text of a message is its constructor, and the last loop visits its map in an order that Go leaves open.
- AppliedConfig.LabelChangesIff: assumes that no two different inputs share a digest, although the label keeps 12 hexadecimal digits; the JSON of the spec stands for the fields modelled here.
- Discovery.DiscoverJWKSURL: building the request, dialing, redirects, the body limit and JSON parsing are one oracle per URL; `AddressTable.PolicyClosedForm` covers the dial check on the resolved address.
- AddressTable.PolicyClosedForm: starts from a parsed 4-byte or 16-byte address; splitting and parsing the dial string, and address slices of any other length, are left out.
- Health.RolledOutImpliesAvailable: replica counts and generations are natural numbers without a width; the two components' message texts share one form.
- ApiComponent.BuildDeployment: ports, probes, resources, labels, security contexts, scheduling and the selector are constants and are left out; so are those of the Sentinel Deployment.
- Server-side apply is a store update that replaces the operator's fields, keeps foreign ones and raises the generation with the spec; the API server, its validation and its defaulting are not modelled.
- SHA-256, hexadecimal encoding, truncation to 12 characters and YAML or JSON marshalling stay uninterpreted; marshalling does not fail.
- The message-decision expressions of the Sentinel configuration are evaluated in another repository; only which resource types have one is modelled.
- `isSHA256DigestPullspec` depends on an external parser and stays an arbitrary predicate.
- The readiness gauge, reconcile latency and error metrics, logging, the manager wiring, watches and ServiceMonitor bootstrap have no property here.
- The discovery mutex and `sync.Once` are not modelled: one worker reconciles the singleton.
