# Verification of the model operator's core protocols

This project models, in Dafny, the parts of the LLM operator whose correctness is hardest to see by
reading, and proves what they promise for every input, every run and every reachable state.

- **The transition protocol** (`Transition`, `TransitionSafety`, `StandardWriters`, `Exclusion`,
  `ExclusionExact`, `Aftermath`, `Provisos`, `BrokenExclusion`, `Settling`). One reconcile of an `LLMActiveModel`
  is an attempt that walks through lookup, generation token, scale-down, cache, patch, rollout, health and the
  Stable write. Each API call is one step. Between any two steps the environment may edit the spec, touch
  metadata, reconcile a backend, report Deployment status or crash the controller; answers may be errors, lost
  replies or timeouts. Reads are linearizable, a status update is a compare-and-set on the resource version, and
  each Deployment update is one atomic step.
- **Two writers of one Deployment** (`Workload`, `Confluence`, `StoredRuns`, `LiveDeployments`). Activation and
  backend reconciliation as functions on values, with an object that updates its fields step by step and is
  proved to compute those functions.
- **The cache manager** (`Paths`, `CacheKeys`, `FileSystem`, `Layout`, `Archive`, `RoundTrip`, `Repair`,
  `Retained`, `Capacity`, `Cache`, `ColdStore`, `Revival`, `Download`, `Disks`, `CacheManagers`). A file system of
  physical paths with the kernel's link resolution carries archiving, promotion, download, repair, eviction and the
  invariant over hot markers and cold artifacts. Artifacts may lie as an earlier release left them, with links
  into the old blob store, until a repair moves it.
- **Request coalescing** (`Coalesce`, `CoalesceProgress`). The proxy's per-model single flight as interleaved
  threads, and how soon its leaders and followers can end.
- **Argument compilation, overlays and labels** (`DriverArgs`, `Overlay`, `Labels`).

Some promises turned out to hold only under a condition. In each case the model follows the code, a lemma
exhibits the failure, and another says when the promise holds:

- *Exclusion* needs three provisos (`Exclusion.Orderly`), and each is matched by the exact condition under which
  breaking it lets two Deployments come up. A spec edit between the last currency check before the target patch
  and the Stable write does so if and only if it is dangerous (`Aftermath.EditInWindowBreaksExclusionIff`). When a
  lookup of the previous model or its backend fails, executeTransition may go on without scaling the right
  Deployment down; that does so if and only if the answers are careless
  (`Provisos.LostLookupBreaksExclusionIff`). A backend reconcile does so if and only if it creates its Deployment
  with a nonzero baseline beside one that is up (`Provisos.BaselineBreaksExclusionIff`). `BrokenExclusion` holds a
  concrete run for each, with the controllers' own writers, from a quiet start.
- *The fast path* reports Stable for the current generation without looking at replicas
  (`Settling.FastPathIgnoresReplicas`). A reconcile of a settled Stable object is quiet if and only if its lookups
  are answered; otherwise it overwrites Stable with Failed (`Settling.ReconcileAfterStableIsQuiet`).
- *The two writers* commute exactly when neither of two hazards is present (`Confluence.WritersCommute`):
  duplicate reserved volumes on the live template, or an empty digest annotation. The API server stores no
  Deployment with two volumes of one name, so that the first stays on paper
  (`Confluence.DuplicateVolumeHappens`); for one reserved volume at most the second is the exact condition
  (`Confluence.UniqueVolumesCommute`), and it happens on a Deployment that can be stored, with a reserved volume
  that nothing mounts (`Confluence.EmptyDigestHappens`). Neither writer brings one about, so that they meet at
  every point of every run that starts without them (`StoredRuns.WritersMeetThroughout`).
- *Coalescing*: a leader that has withdrawn its entry but not yet returned may overlap with the next leader of
  the same model (`Coalesce.WithdrawnLeaderMayOverlap`); uniqueness holds for registered leaders.
- *Launch arguments* read back exactly when no injected value starts with a dash
  (`DriverArgs.InjectedValuesReadBack`, `DriverArgs.DashValueIsLost`).
- *Label parsing* inverts printing exactly when no value ends in a backslash (`Labels.RoundTrip`); what is
  lost otherwise is exactly the first such label and everything after it (`Labels.ParsePrinted`).
- *Repair* succeeds, with a store that holds no links, if and only if every requested file is a link whose blob
  lies in the one store that repair works with (`Repair.RepairSucceedsIff`); once there is a new store, blobs left
  in the old one are out of its reach (`Repair.NewStoreBlocksRepair`). However it ends, it keeps hot cache and
  cold storage sound, and on success the artifact is installed (`Revival.RepairKeeps`). It can succeed and leave
  files unserved: with a blob that is itself a link out of the cache
  (`Repair.LinkedBlobEscapes`). A successful repair makes the artifact exist if and only if the blob named by each
  requested link leads to a place below gguf (`Repair.RepairServesIff`). Every other way to a file is kept if it
  does not climb out of the moved store, ends where it passes a requested link, that link being faithful, and has
  a link to spare for each pass of the store's old name (`Retained.RepairKeepsResolution`,
  `Retained.ClimbingOutIsLost`). A requested link is redirected by name alone and keeps its bytes if and only if
  the blob of that name holds them (`Retained.RepairKeepsRequestedIff`).
- *Promotion* links a blob that is already hot without reading it: the file reads as archived if and only if that
  blob holds the same bytes (`Archive.PromotedIsTrusted`), which content-addressed names guarantee.
- *Archiving* computes a link's blob from the link's text. That is the place the kernel goes to for relative links
  that turn back from real directories only (`Archive.TextIsKernel`), and not for absolute ones
  (`Archive.AbsoluteLinkIsRefused`).
- *Cache keys* collide for some repositories (`CacheKeys.KeysCollide`) and never among tidy names
  (`CacheKeys.KeysIdentify`). The key leaves out the file list, so a request for other files of a marked
  revision is reported hot (`Cache.SharedKeyReportsHot`).
- *Materialization targets*: the blob store itself is an accepted target (`Paths.BlobStoreIsAccepted`);
  the results about payloads ask for targets apart from it.
- *Capacity arithmetic* is exact exactly while the products fit 64 bits (`Capacity.PercentExact`); just
  beyond, no artifact is ever admitted (`Capacity.OverflowRefuses`).

## Model

| member | source | states |
|---|---|---|
| Exclusion.AtMostOneDeploymentUp | internal/controller/llmactivemodel_controller.go:244-466 | in every orderly run from a quiet start, at every point at most one Deployment has desired replicas, across failures, timeouts, lost replies, crashes, retries of one generation and backend reconciles |
| Exclusion.ApplyKeepsSafe | internal/controller/llmactivemodel_controller.go:262-466 | every action of every party keeps the invariant behind exclusion: besides the active model's Deployment only the target of a current attempt past its scale-down can be up |
| Exclusion.StableTargetAlone | internal/controller/llmactivemodel_controller.go:377-466 | an attempt about to declare Stable in an orderly run has its target at one replica and nothing else up |
| Exclusion.BackendKeepsReplicas | internal/controller/backend_workload.go:140-188 | a backend reconcile never changes the replicas of an existing Deployment, and brings one up if and only if it creates it with a nonzero baseline |
| ExclusionExact.OvertakenReachesTwo | internal/controller/llmactivemodel_controller.go:244-382 | with a Deployment up that is neither the goal's nor the one its attempts scale down first, the controller alone starts the goal's beside it |
| Aftermath.AloneRunKeeps | internal/controller/llmactivemodel_controller.go:97-466 | after a spec edit in the window every run of the controller alone keeps: only the old target is up, and the new goal once it could be started; if attempts scale the old target down first, never both; an overtaken attempt acts at most once more |
| Aftermath.EditInWindowBreaksExclusionIff | internal/controller/llmactivemodel_controller.go:244-466 | after a spec edit in the window the controller alone can reach two Deployments up if and only if the old target is up or about to be, the new model is served by another Deployment that can be started from there, and its attempts will not scale the old target down first |
| Provisos.LostLookupBreaksExclusionIff | internal/controller/llmactivemodel_controller.go:298-332 | after lookups that lose the previous Deployment the controller alone can reach two Deployments up if and only if the attempt is current and valid, the active model's Deployment is up beside the goal's, and the goal can be started |
| Provisos.BaselineBreaksExclusionIff | internal/controller/backend_workload.go:140-175 | a backend reconcile brings a second Deployment up if and only if it creates its own with a nonzero baseline beside one that is up |
| BrokenExclusion.EditInWindowHappens | internal/controller/llmactivemodel_controller.go:244-466 | a concrete orderly run from a quiet start, one spec edit in the window, and two Deployments up |
| BrokenExclusion.LostLookupHappens | internal/controller/llmactivemodel_controller.go:298-316 | a concrete orderly run from a quiet start, one failed lookup of the previous model, and two Deployments up |
| BrokenExclusion.BaselineHappens | internal/controller/backend_workload.go:142-175 | a concrete quiet start, one backend reconcile with baseline one, and two Deployments up |
| Settling.ReconcileAfterStableIsQuiet | internal/controller/llmactivemodel_controller.go:120-160 | a reconcile of a settled Stable object changes nothing if and only if its lookups are answered; otherwise a landed write replaces Stable by Failed |
| Settling.FastPathIgnoresReplicas | internal/controller/llmactivemodel_controller.go:142-159 | the fast path declares Stable for the current generation with the Deployment at zero replicas |
| Settling.RunStands | internal/controller/llmactivemodel_controller.go:377-466 | in every run an attempt past its patch has its target matching the model, through any interleaved backend reconciles |
| Settling.RestingRunIsQuiet | internal/controller/llmactivemodel_controller.go:97-160 | from a settled Stable world, with lookups answered and the spec not edited, the object and every Deployment evolve as if the controller did not run |
| Settling.CompletedTransitionIsQuiet | internal/controller/llmactivemodel_controller.go:142-466 | in every run, once a Stable write has landed, the same holds for any number of later reconciles, crashes, failed reads, backend reconciles and status reports |
| TransitionSafety.RunKeepsInv | internal/controller/llmactivemodel_controller.go:97-184 | every run keeps the status invariant and the agreement of the attempt's copy with the live object while its generation stands |
| TransitionSafety.StatusTruthful | internal/controller/llmactivemodel_controller.go:105-184 | in every run from a fresh object, Stable with the current observed generation names the requested model, and a recorded token comes with its start time |
| TransitionSafety.StartedSetAtStable | internal/controller/llmactivemodel_controller.go:455-466 | the start time dereferenced at the Stable write is set in every run |
| TransitionSafety.FailedStaysVisible | internal/controller/llmactivemodel_controller.go:253-279 | a Failed phase of the current generation is never followed by Transitioning |
| TransitionSafety.StaleAttemptNeverWrites | internal/controller/llmactivemodel_controller.go:504-534 | an attempt whose generation has passed lands no further write on the active-model status |
| TransitionSafety.AtMostOneLateEffect | internal/controller/llmactivemodel_controller.go:281-464 | in every run no attempt performs more than one external effect after its generation has passed |
| TransitionSafety.CheckGoesOn | internal/controller/llmactivemodel_controller.go:504-516 | a currency check only reads, and goes on if and only if it is answered in time and generation, model and token are the attempt's |
| TransitionSafety.RunKeepsEvidence | internal/controller/llmactivemodel_controller.go:310-466 | in every run an attempt at a stage has gathered, in order, the evidence that stage presupposes |
| TransitionSafety.StableWriteJustified | internal/controller/llmactivemodel_controller.go:310-466 | whenever the Stable write lands, the same attempt saw the previous Deployment at zero, a cache answer if one was asked for, the target matching the model at one replica, the rollout and a healthy probe, in that order, and the live spec names that model |
| TransitionSafety.OfflinePatchOnlyHot | internal/controller/llmactivemodel_controller.go:343-382 | an offline target is patched only right after a hot cache answer |
| StandardWriters.StandardDependable | internal/controller/llmactivemodel_controller.go:536-606 | the controllers' own Deployment writers have the properties the protocol proofs use: activation leaves a match at one replica, reconciliation keeps replicas and, for a well-formed backend, a match, and neither replicas nor the clock decide whether a model can be activated |
| Workload.ActivateMatches | internal/controller/llmactivemodel_controller.go:536-606 | after a successful activation deploymentMatchesModel holds and replicas are one |
| Workload.ActivateFixpoint | internal/controller/llmactivemodel_controller.go:536-581 | activation changes nothing if and only if the template matches and replicas are one already |
| Workload.ActivateIdempotent | internal/controller/llmactivemodel_controller.go:536-581 | a second activation changes nothing, the timestamp included, whatever the clock says |
| Workload.ActivateFrame | internal/controller/llmactivemodel_controller.go:548-576 | other containers, other volumes and mounts in their order, and other annotations are kept |
| Workload.ApplyMounts | internal/controller/llmactivemodel_controller.go:610-647 | after applyChatTemplate chatTemplateMounted holds for the wanted template |
| Workload.ApplyChangesIffUnmounted | internal/controller/llmactivemodel_controller.go:610-690 | applyChatTemplate reports a change exactly when the wanted template was not mounted |
| Workload.ChangedIffNotMatching | internal/controller/llmactivemodel_controller.go:548-606 | activation stamps and rewrites exactly when deploymentMatchesModel is false |
| Confluence.WritersCommute | internal/controller/backend_workload.go:140-266 | activation and backend reconcile give the same Deployment in both orders, the timestamp aside, if and only if no hazard is present |
| Confluence.UniqueVolumesCommute | internal/controller/backend_workload.go:192-266 | with at most one reserved volume, as every stored template has, the two writers commute if and only if a chat template is wanted or there is no empty digest annotation that one order drops |
| Confluence.StoredWritersCommute | internal/controller/backend_workload.go:192-266 | on every live template with at most one reserved volume and no empty digest annotation the two writers commute |
| Confluence.DuplicateVolumeHappens | internal/controller/backend_workload.go:227-266 | a Deployment value with a second reserved volume on which the two orders end apart; a cluster does not store such a template |
| Confluence.EmptyDigestHappens | internal/controller/backend_workload.go:214-244 | a Deployment with one reserved volume that nothing mounts and an empty digest annotation on which the two orders end apart |
| Confluence.ActivateKeepsStored | internal/controller/llmactivemodel_controller.go:548-576 | activation leaves at most one reserved volume whatever it finds, and brings about no empty digest annotation |
| Confluence.ReconcileKeepsStored | internal/controller/backend_workload.go:192-266 | so does a backend reconcile, and a created Deployment starts that way |
| StoredRuns.WritersMeetThroughout | internal/controller/backend_workload.go:140-266 | at every point of every run that starts from such Deployments the next activation and the next reconcile of a Deployment can happen in either order |
| Confluence.MissingContainerDoesNotCommute | internal/controller/llmactivemodel_controller.go:546-580 | without the runtime container on the live template activation fails first and succeeds after a reconcile |
| Confluence.ReconcileKeepsMatch | internal/controller/backend_workload.go:192-266 | a backend reconcile keeps deploymentMatchesModel true |
| Confluence.ReconcileIdempotent | internal/controller/backend_workload.go:140-188 | a second backend reconcile changes nothing |
| Confluence.WritersQuiesce | internal/controller/backend_workload.go:140-188 | once activation and then a reconcile have run, neither writer writes again |
| Confluence.ReconcileForm | internal/controller/backend_workload.go:192-266 | a reconcile yields the user's template with exactly the arguments, reserved pair and transition annotations of the live one |
| LiveDeployments.LiveDeployment.ChatTemplateMounted | internal/controller/llmactivemodel_controller.go:652-690 | the scans answer whether exactly the wanted volume and mount are present |
| LiveDeployments.LiveDeployment.ApplyChatTemplate | internal/controller/llmactivemodel_controller.go:610-647 | filtering within the backing arrays and appending compute the specified lists, and the answer says whether they changed |
| LiveDeployments.LiveDeployment.ActivateDeployment | internal/controller/llmactivemodel_controller.go:536-581 | the updates in place compute activation, with one patch if anything changed and none otherwise |
| LiveDeployments.LiveDeployment.ReconcileBackend | internal/controller/backend_workload.go:140-188 | the updates in place compute reconciliation, with one patch if anything changed and none otherwise |
| LiveDeployments.LiveDeployment.PreserveTransitionRuntime | internal/controller/backend_workload.go:192-225 | the loops compute the preserved template |
| LiveDeployments.LiveDeployment.PreserveChatTemplateMount | internal/controller/backend_workload.go:227-266 | a complete reserved pair of the live template replaces the user's, otherwise nothing changes |
| Prelude.CompactInPlace | internal/controller/backend_workload.go:246-251 | filtering into the same backing array leaves the kept elements in order at its front |
| Coalesce.RunKeepsInv | cmd/llm-proxy/main.go:1673-1720 | every interleaving keeps the invariant over waiters, entries and threads |
| Coalesce.OneLeaderPerModel | cmd/llm-proxy/main.go:1673-1720 | in every interleaving each model has at most one registered leader, which issues at most one patch |
| Coalesce.EntriesAreOpen | cmd/llm-proxy/main.go:1678-1689 | an entry in switchWaiters is never already done |
| Coalesce.InFlightIffLeader | cmd/llm-proxy/main.go:2189-2193 | anySwitchInFlight is true exactly when some leader has not yet withdrawn |
| Coalesce.FollowersAreNotStranded | cmd/llm-proxy/main.go:1678-1686 | every blocked follower has a live leader that still will close its channel |
| Coalesce.ClosedOnceAfterError | cmd/llm-proxy/main.go:1708-1712 | a channel is closed once, after its error is set, and never reopened |
| Coalesce.EveryCallReturnsTheSharedResult | cmd/llm-proxy/main.go:1678-1719 | a call returns its own context error or the outcome of the one leader it shared |
| Coalesce.SwitchesTotalCountsSuccesses | cmd/llm-proxy/main.go:1698-1706 | switchesTotal equals the number of successful leaders in every reachable state |
| CoalesceProgress.LeaderCloses | cmd/llm-proxy/main.go:1690-1719 | in every run a leader takes at most six steps before its channel is closed with its outcome, and until then one of its steps is always enabled, whatever the other calls do |
| CoalesceProgress.LeaderCanClose | cmd/llm-proxy/main.go:1690-1719 | from every state that keeps the invariant a leader's own steps alone, at most as many as it has left, end its flight |
| CoalesceProgress.FollowerCanReturn | cmd/llm-proxy/main.go:1678-1686 | in every run a waiting call has a leader that can go on, or can return that leader's outcome at once |
| CoalesceProgress.NoCallIsStuck | cmd/llm-proxy/main.go:1673-1720 | every waiting call of every run can be brought to return within seven more steps |
| Coalesce.WithdrawnLeaderMayOverlap | cmd/llm-proxy/main.go:1708-1712 | after its entry is deleted a leader can coexist with the next leader of the same model |
| Overlay.FilledAtEveryPath | cmd/llm-proxy/main.go:1624-1637 | at every path the merge holds the client's value where it has one, and the default exactly where the client does not shadow it |
| Overlay.ClientValueKept | cmd/llm-proxy/main.go:1622-1637 | every client value survives at every path, null included |
| Overlay.FillIdempotent | cmd/llm-proxy/main.go:1624-1637 | merging the same defaults twice is merging them once |
| Overlay.OverlayForcesModelOnly | cmd/llm-proxy/main.go:1608-1620 | an overlay forces the model key and differs from the merge nowhere else |
| Overlay.MergeDefaults | cmd/llm-proxy/main.go:1624-1637 | the recursion in place, in any key order, leaves the merged document in the request and the defaults unmodified, sharing what it grafts |
| DriverArgs.LaunchArguments | internal/backend/driver.go:359-373 | the cursor loop computes the specified reading of an argument list |
| DriverArgs.EntriesProper | internal/backend/driver.go:173-199 | the flags injected for one model are dashed and pairwise distinct |
| DriverArgs.AcceptedArgsAvoidEntries | internal/backend/driver.go:106-149 | arguments that Validate accepts contain none of the flags EffectiveArgs injects |
| DriverArgs.InjectedFlagsOccurOnce | internal/backend/driver.go:173-186 | for an accepted model none of whose injected values starts with a dash, every injected flag occurs exactly once in the effective arguments |
| DriverArgs.LaunchOfEffective | internal/backend/driver.go:173-186 | if no injected value starts with a dash, the reading of the effective arguments is the reading of the user's arguments overlaid with the injected ones |
| DriverArgs.UserArgumentsSurvive | internal/backend/driver.go:173-186 | for an accepted model none of whose injected values starts with a dash, every entry read from the user's own arguments survives unchanged |
| DriverArgs.InjectedValuesReadBack | internal/backend/driver.go:359-373 | every injected flag reads back as the model's value, switches as true, if and only if no injected value starts with a dash |
| DriverArgs.DashValueIsLost | internal/backend/driver.go:361-371 | a value that starts with a dash is read as a flag of its own |
| Labels.ParsePrometheusLabels | internal/backend/driver.go:392-419 | the nested loops end on every input and compute the specified parse |
| Labels.ParsePrinted | internal/backend/driver.go:392-419 | parsing any printed list records exactly the labels before the first value that ends in a backslash |
| Labels.RoundTrip | internal/backend/driver.go:392-419 | printing then parsing labels with distinct good names gives a map of exactly those labels if and only if no value ends in a backslash |
| Labels.UnquoteEscaped | internal/backend/driver.go:411-414 | an escaped value unquotes to itself, and to an error when text follows its closing quote |
| Paths.RelativeLinkReachesBlob | cmd/llm-proxy/cache_manager.go:1094-1096 | following the computed link from the link's directory yields the blob |
| Paths.RelativeLinkStaysInside | cmd/llm-proxy/cache_manager.go:520-542 | while a link between two places of one tree is followed, no intermediate position leaves the tree |
| Paths.RelativeLinkSurvivesReRooting | cmd/llm-proxy/cache_manager.go:832-852 | such a link is the same text wherever the tree is mounted or renamed to |
| Paths.EscapeTest | cmd/llm-proxy/cache_manager.go:823-827 | the relative path starts with ".." exactly when the target is not below the base |
| Paths.TargetsAccepted | cmd/llm-proxy/cache_manager.go:281-287 | exactly the targets strictly below gguf whose components are proper names are accepted |
| Paths.BlobStoreIsAccepted | cmd/llm-proxy/cache_manager.go:281-287 | the shared blob store is an accepted target |
| CacheKeys.KeysCollide | cmd/llm-proxy/cache_manager.go:609-611 | two different repositories share a key |
| CacheKeys.KeysIdentify | cmd/llm-proxy/cache_manager.go:609-611 | among tidy repository names and revisions of one length, equal keys mean equal kind, repository and revision |
| Layout.FollowLink | cmd/llm-proxy/cache_manager.go:1094-1112 | kernel resolution of a relative link between physical places ends at the blob |
| Layout.LaidReads | cmd/llm-proxy/cache_manager.go:835-857 | every laid-out file reads as its bytes |
| Layout.PutKeeps | cmd/llm-proxy/cache_manager.go:1057-1089 | laying out one more file keeps every entry there was and adds exactly that file |
| Archive.TextIsKernel | cmd/llm-proxy/cache_manager.go:1065-1073 | the blob computed from the text of a relative link is the place the kernel goes to, for every link that turns back from real directories only |
| Archive.AbsoluteLinkIsRefused | cmd/llm-proxy/cache_manager.go:1065-1073 | an absolute link is read as if it were relative and refused although it leads to a file |
| Archive.CopyIsPut | cmd/llm-proxy/cache_manager.go:1057-1089 | copyHuggingFaceFile succeeds and lays out exactly the requested file, regular or linked |
| Archive.MaterializeIsPut | cmd/llm-proxy/cache_manager.go:802-858 | one round of materialize succeeds and lays out exactly the file of its manifest entry, whether or not its blob is hot |
| Archive.PromotedIsTrusted | cmd/llm-proxy/cache_manager.go:832-852 | promotion links an existing hot blob as it is; the file then reads as the cold blob if and only if the hot one holds the same |
| Archive.CopyFilesLays | cmd/llm-proxy/cache_manager.go:556-561 | the copy loop lays out every requested file and disturbs nothing |
| RoundTrip.InventoryLists | cmd/llm-proxy/cache_manager.go:743-799 | the inventory of a staged payload lists exactly the requested files with what they hold |
| RoundTrip.MaterializeLays | cmd/llm-proxy/cache_manager.go:801-861 | the promotion loop lays out every listed file and disturbs nothing |
| RoundTrip.ArchiveWorks | cmd/llm-proxy/cache_manager.go:544-576 | archiving succeeds, leaves a complete cold artifact for exactly the requested files, and outside the destination changes nothing but missing directories above it |
| RoundTrip.ManifestFound | cmd/llm-proxy/cache_manager.go:716-734 | the manifest of a complete artifact is found for its own request |
| RoundTrip.PromoteWorks | cmd/llm-proxy/cache_manager.go:385-393 | clearing and promoting a complete cold artifact succeeds and leaves exactly its files below the target |
| RoundTrip.ArchiveThenPromote | cmd/llm-proxy/cache_manager.go:544-861 | after archiving, and any later change that spares the artifact, promotion restores exactly the requested files, each reading as before |
| RoundTrip.PromotedIsArchivable | cmd/llm-proxy/cache_manager.go:544-861 | what promotion leaves satisfies what archiving and promoting ask for, so the round trip can be repeated |
| Disks.Disk.CopyFiles | cmd/llm-proxy/cache_manager.go:556-561 | the loop in place does what the copy function says, stopping at the first failure |
| Disks.Disk.Materialize | cmd/llm-proxy/cache_manager.go:801-861 | the loop in place does what the promotion function says, stopping at the first failure |
| Disks.Disk.Promote | cmd/llm-proxy/cache_manager.go:385-393 | clearing and the promotion loop in place do what the promotion function says |
| Disks.Disk.DownloadFiles | cmd/llm-proxy/cache_manager.go:480-514 | staging, tool, copy loop and removal of the staging directory in place do what the download function says |
| Disks.Disk.RelinkFiles | cmd/llm-proxy/cache_manager.go:458-477 | the loop in place does what the relinking function says, stopping at the first failure |
| Disks.Disk.AllServed | cmd/llm-proxy/cache_manager.go:520-542 | the loop answers whether every file leads to something below gguf |
| Disks.Disk.ArtifactInventory | cmd/llm-proxy/cache_manager.go:743-799 | every regular file and link below the root is recorded once, with its target or its size and digest |
| Disks.Disk.ArchiveHot | cmd/llm-proxy/cache_manager.go:544-576 | the steps in place are the archive function applied to the inventory of what was staged |
| Repair.RepairIs | cmd/llm-proxy/cache_manager.go:435-478 | a successful repair leaves exactly the store in its place, its old name as a link if it moved, and the requested links redirected |
| Repair.RepairSucceedsIff | cmd/llm-proxy/cache_manager.go:435-478 | with a store that holds no links, the repair succeeds if and only if the artifact is one of files, there is a blob store, and every requested file is a link whose name is a blob of it |
| Repair.NewStoreBlocksRepair | cmd/llm-proxy/cache_manager.go:439-470 | once the new store exists, a requested link whose blob lies only in the legacy store makes the repair fail |
| Repair.RepairServesIff | cmd/llm-proxy/cache_manager.go:435-542 | after a successful repair hotArtifactExists holds if and only if the blob named by each requested link leads to a place below gguf in what the repair leaves |
| Repair.RepairServesIffSettled | cmd/llm-proxy/cache_manager.go:435-542 | if no blob leads back through a requested link, the condition can be read off the relocated store before any link is touched |
| Repair.RepairServes | cmd/llm-proxy/cache_manager.go:435-542 | with a store that holds no links, a successful repair always makes hotArtifactExists hold |
| Repair.RepairKeepsBytes | cmd/llm-proxy/cache_manager.go:439-456 | every regular file keeps its bytes, blobs in the store's new place |
| Retained.RepairKeepsResolution | cmd/llm-proxy/cache_manager.go:435-478 | whatever a path led to, by relative or absolute links, chains or aliases of requested links, it leads to afterwards in its new place and reads as the same bytes, if it does not climb out of the moved store, requested links on it are faithful, and a link is to spare for each pass of the old name |
| Retained.RepairKeepsOtherLinks | cmd/llm-proxy/cache_manager.go:441-456 | every unrequested link whose text speaks of a regular file of the legacy store, relatively or absolutely, reads as the same bytes before and after |
| Retained.ClimbingOutIsLost | cmd/llm-proxy/cache_manager.go:445-453 | a path that climbs out of the legacy store and back in is read before the repair and leads nowhere after it |
| Retained.RepairKeepsRequestedIff | cmd/llm-proxy/cache_manager.go:458-477 | with a store that holds no links, a requested link reads as given bytes after the repair if and only if the blob of its name holds them |
| Repair.RelinkAll | cmd/llm-proxy/cache_manager.go:458-477 | every requested link leads to the retained blob of its old name, and no other entry has changed |
| Repair.RelocateIs | cmd/llm-proxy/cache_manager.go:439-456 | relocation finds the store in place or moves the legacy store as a whole and leaves a link |
| Repair.ServedExactly | cmd/llm-proxy/cache_manager.go:520-542 | a redirected link is served if and only if its blob leads to something below gguf |
| Repair.LinkedBlobEscapes | cmd/llm-proxy/cache_manager.go:458-542 | with a blob that links out of the cache, the repair succeeds and the file is still not served |
| Capacity.PercentExact | cmd/llm-proxy/cache_manager.go:581-602 | capacity*percent/100 is exact if and only if the product fits 64 bits |
| Capacity.SumExact | cmd/llm-proxy/cache_manager.go:911-931 | used+incoming is exact if and only if it fits 64 bits |
| Capacity.HysteresisOrdered | cmd/llm-proxy/cache_manager.go:581-602 | below the limit the 65 percent threshold is at most the 80 percent threshold and at most the capacity |
| Capacity.OverflowRefuses | cmd/llm-proxy/cache_manager.go:908-910 | just beyond the limit the admission threshold is negative |
| Capacity.SortByAge | cmd/llm-proxy/cache_manager.go:588-590 | the entries in some oldest-first order, one without a time counting as oldest |
| CacheManagers.CacheManager.EvictUntil | cmd/llm-proxy/cache_manager.go:591-605 | evictions follow the order, skip the preserved marker, and stop at the first measurement at or below the limit, at a failed one, or when no candidate is left |
| CacheManagers.CacheManager.Sweep | cmd/llm-proxy/cache_manager.go:578-607 | nothing is evicted up to 80 percent; otherwise an oldest-first prefix of the non-preserved markers down to 65 percent |
| CacheManagers.CacheManager.MakeSpace | cmd/llm-proxy/cache_manager.go:903-936 | nothing is evicted if there is room or the artifact alone is too large; otherwise oldest first until there is room |
| CacheManagers.SweptOldestFirst | cmd/llm-proxy/cache_manager.go:588-605 | a marker that could have gone and stayed is no older than any that went, and the preserved one never goes |
| CacheManagers.OnlyPreservedRemains | cmd/llm-proxy/cache_manager.go:591-606 | when every candidate is gone only the preserved marker can remain |
| CacheManagers.SpaceIsThere | cmd/llm-proxy/cache_manager.go:903-936 | on success the last measured use plus the incoming bytes is at most 95 percent of the capacity rounded down, for numbers that fit |
| CacheManagers.InsufficientMeansAll | cmd/llm-proxy/cache_manager.go:923-935 | insufficient capacity is reported only after every marker has been evicted |
| Cache.EvictKeeps | cmd/llm-proxy/cache_manager.go:979-996 | evicting keeps the invariant, removes the marker, and keeps every other complete marker |
| Cache.PopulateKeeps | cmd/llm-proxy/cache_manager.go:385-402 | filling the payload of an unmarked artifact keeps the invariant and every marker |
| Cache.MarkKeeps | cmd/llm-proxy/cache_manager.go:404-413 | marking an installed artifact keeps the invariant and, on success, completes its marker |
| Cache.PromotePopulates | cmd/llm-proxy/cache_manager.go:385-393 | promoting a complete cold artifact fills the payload as required, succeeds, and keeps blob names content addresses |
| Cache.InstalledExists | cmd/llm-proxy/cache_manager.go:520-542 | an installed artifact passes hotArtifactExists |
| Cache.SharedKeyReportsHot | cmd/llm-proxy/cache_manager.go:245-256 | a request for other files under a marked key is reported hot although they are absent |
| ColdStore.EvictKeeps | cmd/llm-proxy/cache_manager.go:979-996 | evicting keeps hot cache and cold storage sound, every other complete marker and every other installed artifact |
| ColdStore.PromoteFills | cmd/llm-proxy/cache_manager.go:384-393 | on sound storage a manifest that fits the request is promoted successfully and installs every requested file |
| Download.DownloadFills | cmd/llm-proxy/cache_manager.go:394-514 | a download of files, by a tool that writes below its staging directory only and on success leaves the requested snapshot there, fills the cleared payload: it adds there and to the blob store only, under content addresses even when it fails half way, installs the artifact on success and removes its staging directory |
| ColdStore.HubFills | cmd/llm-proxy/cache_manager.go:384-402 | whatever brings a hub artifact in and adds below its payload only fills the cleared payload within the same bounds |
| Revival.RepairKeeps | cmd/llm-proxy/cache_manager.go:353-366 | repairing a marked artifact that is no longer served keeps hot cache and cold storage sound and every marker as it was, however it ends, and on success the artifact is installed |
| Revival.RevivedIff | cmd/llm-proxy/cache_manager.go:435-478 | on sound storage the repair of such an artifact succeeds if and only if every requested file is a link whose name is a blob of the store at hand |
| ColdStore.FillKeeps | cmd/llm-proxy/cache_manager.go:384-402 | filling the payload of an unmarked artifact keeps everything sound and every marker |
| ColdStore.MarkKeeps | cmd/llm-proxy/cache_manager.go:404-413 | marking an installed artifact keeps everything sound and, on success, completes its marker |
| ColdStore.ArchiveKeeps | cmd/llm-proxy/cache_manager.go:544-576 | archiving an installed file artifact succeeds, its manifest is found for the request, and hot cache and all cold artifacts stay sound |
| CacheManagers.CacheManager.Revive | cmd/llm-proxy/cache_manager.go:353-366 | after a successful repair of a marked artifact hotArtifactExists holds exactly under the condition of Repair.RepairServesIff |
| CacheManagers.CacheManager.EnsureHit | cmd/llm-proxy/cache_manager.go:350-379 | a hit keeps everything sound and its marker complete, and on success leaves the artifact installed, whatever its sweep evicts, unless it lies as an earlier release left it and was served as it was; a hit that repairs any link-free store and evicts nothing leaves the artifact existing |
| CacheManagers.CacheManager.ArchiveComplete | cmd/llm-proxy/cache_manager.go:419-426 | archiving at any time while the artifact is complete, and installed if it may lie in an old layout, keeps everything sound, and on success leaves a manifest the next ensure will find |
| CacheManagers.CacheManager.Ensured | cmd/llm-proxy/cache_manager.go:346-428 | on a sound site ensureArtifact keeps it sound, keeps every complete marker it did not evict, and on success leaves its own marker complete and the artifact in place, by promotion, download, repair or as it was |
| CacheManagers.CacheManager.Ensure | cmd/llm-proxy/cache_manager.go:192-217 | the reported state is the one before the operation; after a success the state is hot and hotArtifactExists holds, except that an old layout that was served before is only kept as the sweep leaves it |
| CacheManagers.CacheManager.SweepRequest | cmd/llm-proxy/cache_manager.go:169-190 | a requested sweep never evicts the requested artifact |
| CacheManagers.CacheManager.Serve | cmd/llm-proxy/cache_manager.go:192-217 | over any sequence of ensures, sweeps and archivings every complete marker has its payload and every complete cold file artifact can be promoted, an ensured artifact stays complete until it is evicted, and until then every further successful ensure reports it hot |

## Left out

- TransitionsEnabled false (internal/controller/llmactivemodel_controller.go:162-169), the duplicate check
  for several LLMActiveModel objects and deletion of the object: the protocol is modelled for one object with
  transitions enabled.
- Interleavings inside one controller's read-modify-patch of a Deployment: each such update is one step.
- Settling.CompletedTransitionIsQuiet: asks, as `Settling.Coherent` says, that every workload backend that writes
  the target's Deployment has a well-formed template for the same runtime container.
- Lengths of timeouts and poll intervals: a wait may end at any time, with any answer.
- The service half of ensureBackendWorkload, status conditions, events and metrics.
- The artifact checks of Validate (internal/backend/driver.go:150-169), except that accepted targets are
  characterised by Paths.TargetsAccepted.
- Non-ASCII case folding in the offline flag of a container's environment.
- Labels.RoundTrip: text is a sequence of Unicode characters; `\x` and octal escapes that denote a byte above
  127 are rejected by the model, and printed values contain none.
- Archive.CopyIsPut: requested files are regular files or links; a requested name that is a directory, and
  with it the recursion of copyTree and hub artifacts, is not modelled and fails in the model.
- Archive.TextIsKernel: gives the condition in one direction; a link that turns back out of a linked directory may
  still speak, by accident, of the right place. Archiving asks only that text and kernel agree (`Archive.Holds`).
- RoundTrip.ArchiveThenPromote: asks for content-addressed blob names, blobs that are regular files, real
  directories above the paths the manager names, and a target apart from the blob store and the artifact.
- Disks.Disk.ArtifactInventory: leaves the order of the records open; the results hold for every order.
- Writing through a dangling link: os.Create would create the link's target; the model refuses.
- Repair.RepairIs: the hot root, gguf, the blob store, old or new, and the directories of the requested files are
  real directories; a blob store that is itself a link is outside this model.
- Retained.RepairKeepsResolution: gives the condition in one direction; a way that climbs out of the moved store
  may still end, by accident, at the same bytes.
- CacheManagers.CacheManager.Ensured: failed removals inside evict and the refresh of a marker's modification time
  are not part of the object.
- Copies are atomic: a copy that is cut short and leaves a truncated blob behind is not modelled.
  `Archive.PromotedIsTrusted` says what promotion would then make of it.
- CacheManagers.CacheManager.ArchiveComplete: archiving is one operation among the others, run while the artifact
  is complete; a background copy that overlaps an eviction or a download of the same artifact is not modelled, nor
  is the archiving of hub artifacts.
- CacheManagers.CacheManager.Serve: asks of the download tool that it keeps to `Download.Fetches` (it writes below
  its staging directory only, and on success leaves the requested files there, links being relative ones to
  blobs under content addresses), and of whatever brings hub artifacts in that it keeps to `ColdStore.BringsIn`.
  Artifacts that may lie in an old layout (`Cache.Specs`) are ensured, repaired and evicted, not archived. Keys are
  distinct, payloads do not overlap, and hot and cold storage lie apart, as `ColdStore.Planned` says.
- Modification times and usage measurements are arbitrary answers of the environment; how cacheUsage obtains
  them is not modelled.
- HTTP handlers, reverse proxying, JSON encoding, Hugging Face calls, volume limits discovery, the CRDs,
  admission, conversion, the overlay and model status controllers and the migration tool are not part of this
  model.
