# The Konflux operator's scrape wiring, orphan cleanup and merges, verified

This project models the parts of the Konflux operator where several reconciles, several API calls or
several loops have to agree, and proves what they keep. It is written in Dafny 4.11;
`dafny verify dfyconfig.toml` checks all of it.

**Metrics-scrape wiring.** Every operand reconcile ensures a bound scrape token, gates on the metrics TLS
Secret, applies, keeps or gives up the ServiceMonitor, nudges it with annotation patches driven by a
settle deadline and two recorded resource versions, and returns a delay. `Wiring` holds the state
(`World`) and two forms of the reconcile: functions (`EnsureToken`, `Retain`, `Plan`, `ResyncSm`, `Scrape`)
that say what one reconcile does for every clock reading, every answer to the token request and every
failing call (a write may be done, lost, or done and reported as failed), and the class
`OperandNamespace`, whose methods do it step by step and are proved equal to the functions, for operands and
for the operator's own rotator (`Writer`). `Operand` adds
orphan cleanup and turns reconciles and the changes of others (to both Secrets, to the ServiceMonitor's
owner and annotations, deletions) into runs. The whole-run theorems are in `ServiceMonitorGate` (when the
ServiceMonitor appears and disappears), `Nudges` (no change lost, amortised bound on patches, fixpoint,
settle window), `Completion` (when a reconcile completes, the delay it returns and what it leaves, for every
combination of failures), `TokenLifetime` (the token outlives every delay, for operands and for the rotator) and
`Wakeups` (the rotator's select loop and the broadcaster lose no wake-up).

**Tracked apply and orphan cleanup.** `Tracking` models the concurrent cleanup as all interleavings of the
list and delete calls of one task per kind, with errors at every call, and proves exactness, safety and
idempotence. `Operand.ReconciledIsCleanup` composes it with the wiring: a reconcile of the runs does what
its wiring and then any interleaving of the cleanup tasks do.

**Merges done in place.** `KeyedLists` holds the laws of lists that are read as maps; `Containers` (env
and args), `Pipelines` and `Conditions` prove the loops of the operator equal to functions over these
lists and then prove what those functions mean. `ContentHash` covers the text that is hashed into names,
`RegistryCredentials` the two Secrets of the internal registry.

Time is in nanoseconds and durations saturate like 64-bit ones; a formatted stamp drops the sub-second
part, so stored expiries and deadlines are floors. Resource versions are natural numbers, 0 standing for
an empty one; a real change uses up a fresh version and an apply that changes nothing does not.

## Where the code does not do what one would expect

The code is modelled as it is; each of these has its exact condition proved.

- *Refresh and requeue agree* except beyond the range of a duration: waking after the returned delay finds
  the token due exactly when the Secret has no token or its refresh instant is at most 2^63 - 1 ns away
  (`ScrapeTokens.RefreshDueAtWake`). The subtraction saturates, so the reconciler then merely wakes early; an
  expiry 300 years ahead is such a case (`ScrapeTokens.RefreshNotDueAtWake`).
- *A completed reconcile records current versions or has a deadline running* exactly unless the token was
  fresh, its Secret did not yet carry the metadata that an apply writes, and no deadline was running
  (`Nudges.NoLostChange`): the recorded version was read before the apply moved it. `Nudges.StaleVersion` is
  a reconcile without any fault that does so; the next completed one repairs it (`Nudges.Converges`).
- *A failed ServiceMonitor probe* is treated like an absent ServiceMonitor, so the reconciler sees neither
  marker nor recorded versions. Inside the settle window it then patches and returns the token's delay
  instead of the remaining seconds, and after the deadline it leaves the marker; the window is kept, and the
  marker cleared, exactly when the probe succeeds (`Nudges.SettleWindow`, `Nudges.SettleDue`). With 15
  seconds left one failed probe patches and waits 20 minutes (`Nudges.ProbeBreaksWindow`).
- *The nudge bound* of one patch, two per mint and one per other change needs a term for blind patches: those
  written after a failed probe that hid a marker, or recorded versions that were current
  (`Nudges.NudgeBound`). A failed probe that hid neither, or after which no patch is written, adds nothing. When nothing is minted and nothing else changes, the patches are exactly the one owed, if it is no
  longer owed at the end, and the blind ones, which says which of these runs keep to one patch
  (`Nudges.NudgeLaw`). In a world that owes none, n failed probes make n patches
  (`Nudges.FailedProbesPatch`), and two exceed the bound without the term (`Nudges.PlainBoundFails`).
- *Typed fields take precedence over user entries*, but `pacWebhookInsecureSSL: false` only removes the
  user's entry; a variable of the base manifest stays (`Containers.InsecureSslOff`).
- *Copied conditions* are given the sub-resource's observed generation, and setting them replaces it by the
  parent's, so the former is never seen (`Conditions.CopiedSays`).
- *A registry rotation* that stops between its two writes while the client Secret holds another password
  leaves a mismatch (`RegistryCredentials.SyncKept`) that no later reconcile repairs
  (`RegistryCredentials.MismatchStays`); `RegistryCredentials.TornRotation` is one.
- *The canonical text* is injective among maps without `=` in keys and without line breaks in values, and
  keys may contain line breaks (`ContentHash.CanonicalInjective`). Among all maps a text is that of one map
  only exactly when the map is empty or its single entry has no `=` (`ContentHash.OnlyText`): two `=` in a
  text always make it that of two maps (`ContentHash.TwoMarksAmbiguous`).

## Model

| member | source | states |
|---|---|---|
| ScrapeTokens.RefreshDueAtWake | operator/pkg/kubernetes/scrape_token.go:159-202 | waking at now plus the requeue delay finds the token due for refresh, if and only if it is empty or its refresh instant is within the range of a duration |
| ScrapeTokens.RefreshNotDueAtWake | operator/pkg/kubernetes/scrape_token.go:191-202 | a concrete token with an expiry 300 years ahead that is not due when its delay has passed |
| ScrapeTokens.RefreshNotEarly | operator/pkg/kubernetes/scrape_token.go:159-172 | for a non-empty token with a parseable expiry, refresh is due exactly from expiry minus half the TTL on |
| ScrapeTokens.FreshTokenOutlivesDelay | operator/pkg/kubernetes/scrape_token.go:159-202 | a fresh token has more than 29 minutes left after its own requeue delay, also when the one-minute floor applies |
| ScrapeTokens.StoredExpiryIsFloor | operator/pkg/kubernetes/scrape_token.go:280-282 | the stored expiry never exceeds the true one and is less than a second short of it |
| ServiceMonitors.SettleRemaining | operator/pkg/kubernetes/servicemonitor_resync.go:203-220 | positive exactly when a parseable deadline lies ahead; the legacy marker and unparseable text count as due |
| ServiceMonitors.NudgePatchKeepsOthers | operator/pkg/kubernetes/servicemonitor_resync.go:137-162 | the merge patch touches no foreign annotation even if the object moved on, keeps a recorded version it was not given and a marker it was not to change, and equals the edit when nothing moved |
| ServiceMonitors.DeadlineAhead | operator/pkg/kubernetes/servicemonitor_resync.go:153-156 | the truncated deadline still lies ahead of the mark, by at most the settle delay |
| MetricsTls.EvaluateMetricsScrapeTls | operator/pkg/kubernetes/metrics_tls.go:96-147 | ready exactly when the Secret is there with a CA and a leaf that verifies against it; the exact reason in each other case; the CA version is the Secret's |
| Wiring.OperandNamespace.ApplyTokenSecret | operator/pkg/tracking/tracking.go:202-228 | the Secret is stored unless the call was lost, a version is used up only by a change, and it is tracked exactly when the call succeeded |
| Wiring.OperandNamespace.EnsurePrometheusScrapeToken | operator/pkg/kubernetes/scrape_token.go:225-315 | state, result and tracked set are those of EnsureToken for every reading, mint answer and failure |
| Wiring.OperandNamespace.ApplyServiceMonitor | operator/internal/operatormetrics/scrape_wiring.go:93-132 | state, result and tracked set are those of ApplySm, for the rotator's create or merge and for the operand's apply as owner; annotations survive |
| Wiring.OperandNamespace.RetainOperandServiceMonitorIfPresent | operator/internal/common/scrape_token.go:209-243 | state, result and tracked set are those of Retain: re-applied if present, never created |
| Wiring.OperandNamespace.ResyncOperandServiceMonitor | operator/pkg/kubernetes/servicemonitor_resync.go:106-179 | the annotation edit, its skip and its failures are those of ResyncSm |
| Wiring.OperandNamespace.ReconcilePrometheusScrapeToken | operator/internal/common/scrape_token.go:93-164 | the stepwise reconcile leaves exactly the state, result and tracked set of Scrape |
| Wiring.EnsureKeeps | operator/pkg/kubernetes/scrape_token.go:225-315 | ensuring the token touches neither the TLS Secret nor the ServiceMonitor |
| Wiring.ScrapeKeeps | operator/internal/common/scrape_token.go:113-164 | after the token is ensured the wiring changes nothing but the ServiceMonitor |
| Tracking.InvStep | operator/pkg/tracking/tracking.go:426-501 | every API call of every task keeps the invariant: only orphans are gone, and each task still holds every orphan of its kind that is left |
| Tracking.InvHolds | operator/pkg/tracking/tracking.go:406-419 | the invariant holds after every interleaving of the tasks |
| Tracking.OnlyOrphansRemoved | operator/pkg/tracking/tracking.go:463-497 | at every point of every interleaving, also after errors, whatever is gone was labelled, of a listed kind, untracked, controlled by the owner, and, if cluster-scoped and of a restricted kind, named in the allow list |
| Tracking.CleanupExact | operator/pkg/tracking/tracking.go:391-501 | when all tasks succeed, an object is gone if and only if it was labelled, of a listed kind, untracked, controlled, and namespaced, unrestricted or named in the allow list; also with repeated kinds |
| Tracking.CleanupIdempotent | operator/pkg/tracking/tracking.go:391-501 | a second run with the same tracked set removes nothing, in any interleaving |
| Tracking.CleanupProgress | operator/pkg/tracking/tracking.go:406-419 | no interleaving is stuck: while a task is not over, a call that does not fail is possible |
| Tracking.Client.Track | operator/pkg/tracking/tracking.go:306-327 | exactly the key is added to the tracked set |
| Tracking.Client.ApplyOwned | operator/pkg/tracking/tracking.go:202-254 | unless the call was lost or another controller holds the object, it carries the label and, except for a custom resource definition, the controller reference; it is tracked exactly on success; without an owner it fails and changes nothing |
| Tracking.Client.CleanupOrphansForGvk | operator/pkg/tracking/tracking.go:426-501 | the loop over a listing removes exactly such objects of its kind on success, only such on any error, and fails exactly when the listing or a delete does |
| Operand.CleanupRefinesCleaned | operator/internal/controller/buildservice/konfluxbuildservice_controller.go:239-245 | every interleaving of cleanup over any other objects does to the wiring's state what Cleaned says; the tracked token survives |
| Operand.ReconciledIsCleanup | operator/internal/controller/buildservice/konfluxbuildservice_controller.go:197-245 | after a completed wiring, with anything tracked before it but the ServiceMonitor, every interleaving of the cleanup tasks, successful or not, leaves exactly the world of Reconciled |
| Operand.CompletedTracksToken | operator/pkg/kubernetes/scrape_token.go:256-292 | a wiring that completes has tracked the token Secret |
| Operand.ApplyManifests | operator/internal/controller/buildservice/konfluxbuildservice_controller.go:264-333 | succeeds if and only if every manifest that the mode selects can be prepared and applied, and then exactly those are tracked besides what was: the ServiceMonitor only when it is not deferred, scrape resources only with metrics, OpenShift's only on OpenShift |
| Operand.Reconcile | operator/internal/controller/buildservice/konfluxbuildservice_controller.go:155-259 | the order of steps from the manifests on, which failure ends the reconcile before cleanup, and what its one tracking client has tracked, are those of Reconciled |
| Operand.OnlyEnsureChangesSecrets | operator/internal/controller/buildservice/konfluxbuildservice_controller.go:204-245 | a reconcile, cleanup included, changes the Secrets only by ensuring the token |
| Completion.RefreshUnlessFresh | operator/pkg/kubernetes/scrape_token.go:159-172 | a token is refreshed exactly when absent, empty, without a readable expiry, or with at most half an hour left |
| Completion.ScrapeCompletes | operator/internal/common/scrape_token.go:93-164 | the wiring of an operand or of the rotator completes if and only if the calls of the branch that the TLS Secret selects succeed |
| Completion.Completes | operator/internal/controller/buildservice/konfluxbuildservice_controller.go:155-259 | a reconcile completes if and only if its early steps, the token's read, request and apply, the calls of its TLS branch, cleanup and status update succeed |
| Completion.DelayReturned | operator/internal/common/scrape_token.go:134-163 | the exact delay of each branch: 15 seconds, the rest of the settle window, or the time to the token's refresh but at least a minute |
| Completion.TokenExactly | operator/pkg/kubernetes/scrape_token.go:247-292 | the exact token Secret after a reconcile for every failure, with a version used up exactly by a change |
| Completion.ServiceMonitorAfter | operator/internal/common/scrape_token.go:113-140 | presence, label and controller of the ServiceMonitor after a reconcile for every failure |
| Completion.ResyncSays | operator/pkg/kubernetes/servicemonitor_resync.go:106-179 | when the resync patch is made, when it fails, and each annotation it writes |
| Completion.RotatorLeavesSm | operator/internal/operatormetrics/scrape_wiring.go:93-132 | a completed round of the rotator leaves a ServiceMonitor if and only if there was one or TLS is verified and the kind installed, with its controller and, unless nudged, its annotations |
| ServiceMonitorGate.GateStep | operator/internal/common/scrape_token.go:113-140 | the ServiceMonitor appears in one step only in a reconcile that met a TLS Secret with a CA and a verified leaf, and that left a non-empty token stored |
| ServiceMonitorGate.GateRun | operator/internal/common/scrape_token.go:93-164 | in every run from absent to present such a reconcile created it, and it has been there since |
| ServiceMonitorGate.DeletedOnlyWhenCertMissing | operator/internal/common/scrape_token.go:117-135 | a reconcile deletes the ServiceMonitor only when it read the TLS Secret as missing, and only its own |
| ServiceMonitorGate.ErrorDeletesNothing | operator/internal/controller/buildservice/konfluxbuildservice_controller.go:197-244 | a reconcile that fails before cleanup deletes nothing |
| ServiceMonitorGate.AbsentAfterCertMissing | operator/internal/common/scrape_token.go:118-128 | after a completed reconcile without the TLS Secret the ServiceMonitor is gone, unless it was not the reconciler's own |
| ServiceMonitorGate.RetainedDuringTlsWait | operator/internal/common/scrape_token.go:206-243 | with a TLS Secret that is not ready, a completed reconcile keeps the ServiceMonitor with its annotations, takes ownership and waits the TLS delay |
| Nudges.NoLostChange | operator/internal/common/scrape_token.go:266-318 | after a completed reconcile with TLS ready, a deadline lies ahead or both recorded versions are current, if and only if it minted, the token was already adopted, or a deadline was running |
| Nudges.StaleVersion | operator/pkg/kubernetes/scrape_token.go:256-262 | a concrete fault-free reconcile that ends with neither a deadline nor the current version |
| Nudges.AnnotationsAfter | operator/internal/common/scrape_token.go:260-320 | the exact annotations after such a reconcile, when it patched, and that a mint always patches and asks for the settle delay |
| Nudges.NudgeStep | operator/internal/common/scrape_token.go:260-320 | for each event the patches and the one still owed are at most the one owed before, two per mint, one per other change and one per blind patch; with no mint and no other change they are equal |
| Nudges.NudgeBound | operator/internal/common/scrape_token.go:260-320 | in every run the patches are at most 1 + 2 x mints + other changes and deletions + blind patches, of which there are none when no probe fails |
| Nudges.NudgeLaw | operator/internal/common/scrape_token.go:260-320 | in every run without mints and other changes, patches + owed at the end == owed at the start + blind patches; so it keeps to one patch if and only if owed at the start + blind is at most 1 + owed at the end |
| Nudges.PatchedExactly | operator/internal/common/scrape_token.go:137-153 | in every world and whatever fails, a reconcile patches if and only if it reaches planning, a nudge is due and the patch is written |
| Nudges.FailedProbesPatch | operator/internal/common/scrape_token.go:340-353 | from quiet, n completed reconciles with failed probes and no mint make exactly n patches and stay quiet |
| Nudges.PlainBoundFails | operator/internal/common/scrape_token.go:340-353 | a concrete run of two failed probes exceeds the bound without them |
| Nudges.QuietIsFixpoint | operator/internal/common/scrape_token.go:93-164 | with nothing owed and no mint, a completed reconcile whose probe succeeds changes nothing and returns the token's delay |
| Nudges.Converges | operator/internal/common/scrape_token.go:137-163 | from any state with TLS ready, two completed reconciles reach that fixpoint if and only if the second mints nothing and, if its probe succeeded, no deadline was ahead or, if it failed, no marker was there |
| Nudges.CompletedAdopts | operator/internal/common/scrape_token.go:137-140 | a completed reconcile with TLS ready leaves token and ServiceMonitor as its own |
| Nudges.SettleWindow | operator/internal/common/scrape_token.go:296-302 | before the deadline a completed reconcile that does not mint leaves the annotations alone if and only if its probe succeeded, and returns exactly the remaining time; with a failed probe the exact patch and the token's delay |
| Nudges.SettleDue | operator/internal/common/scrape_token.go:303-307 | the first such reconcile at or after the deadline records the versions it read, and clears the marker if and only if its probe succeeded |
| Nudges.ProbeBreaksWindow | operator/internal/common/scrape_token.go:340-353 | a concrete failed probe 15 seconds before the deadline: a patch and a delay of 20 minutes |
| Nudges.WindowPatch | operator/internal/common/scrape_token.go:137-153 | before the deadline a reconcile, completed or not, patches if and only if it minted or failed its probe and its patch is written |
| Nudges.SettleWindowRun | operator/internal/common/scrape_token.go:155-162 | over a whole run inside the window, as long as no reconcile is one of those and no one else edits them, the annotations stay as they are, whatever else fails or changes |
| Nudges.MarkerRun | operator/pkg/kubernetes/servicemonitor_resync.go:153-156 | under a monotone clock no deadline is ever further ahead than 15 seconds, unless someone else writes such a one |
| Nudges.SettleWaitBounded | operator/pkg/kubernetes/servicemonitor_resync.go:200-220 | in such runs the remaining wait for a settle deadline is positive and at most 15 seconds |
| TokenLifetime.EnsuredTokenLasts | operator/pkg/kubernetes/scrape_token.go:225-315 | a successful ensure leaves a token valid for more than 30 minutes, a failing one leaves the old one or such a token, and the annotation never overstates |
| TokenLifetime.TokenAfter | operator/pkg/kubernetes/scrape_token.go:256-292 | a fresh token is never replaced; a due one is left or replaced by the minted one with its floored expiry, and is replaced if the reconcile completed |
| TokenLifetime.DelayLeavesToken | operator/internal/common/scrape_token.go:134-163 | every successful reconcile, whichever way it goes, returns a positive delay that leaves more than 29 minutes of validity |
| TokenLifetime.PunctualStep | operator/internal/common/scrape_token.go:93-164 | a reconcile, failed or not, leaves a deadline for the next one within the validity of the token then held |
| TokenLifetime.PunctualRunKeeps | operator/internal/common/scrape_token.go:93-164 | the same over every run of punctual reconciles, which may fail in every way |
| TokenLifetime.TokenNeverLapses | operator/internal/common/scrape_token.go:93-164 | in such a run, once a reconcile has succeeded, a held token is valid at every instant up to the next permitted wake-up |
| TokenLifetime.RotatorTolerates | operator/internal/operatormetrics/scrape_token_rotator.go:93-119 | in every run of the rotator in which, after the first success, no two rounds in a row fail, a held token has more than 14 minutes left, less two lags, at every wake |
| Wakeups.StillPending | operator/internal/operatormetrics/scrape_token_rotator.go:90-120 | until a reconcile starts after a matching Secret event, the wake channel stays full |
| Wakeups.NoLostWakeup | operator/internal/operatormetrics/scrape_token_rotator.go:90-120 | in every interleaving, once the loop moved twice after a matching event, a reconcile started after it or the loop stopped |
| Wakeups.WakeupNotBlocked | operator/internal/operatormetrics/scrape_token_rotator.go:104-119 | until then the loop can always move, without its timer |
| Wakeups.StopsOnlyWhenCancelled | operator/internal/operatormetrics/scrape_token_rotator.go:105-110 | the loop stops only after its context was cancelled |
| Wakeups.NotifyScrapeWiringWake | operator/internal/operatormetrics/scrape_token_rotator.go:148-167 | afterwards the channel is full exactly when it was or the notice, or the object of one tombstone, is one of the two named Secrets of the non-empty namespace |
| Wakeups.Channel.TrySend | operator/internal/operatormetrics/scrape_token_rotator.go:163-166 | the channel is full afterwards; the send happened exactly if it was empty |
| Wakeups.Broadcaster.Subscribe | operator/internal/common/scrape_token_rotation.go:50-54 | appends a fresh, empty channel |
| Wakeups.Broadcaster.Broadcast | operator/internal/common/scrape_token_rotation.go:95-106 | every subscriber holds an event afterwards, and exactly those skipped held one before |
| Pipelines.ClosedForm | operator/internal/controller/buildservice/pipeline_config.go:74-116 | for any lists and any name: the last user entry decides presence and bundle, the last description since the last removal wins, else the default's is inherited |
| Pipelines.MergeIdempotent | operator/internal/controller/buildservice/pipeline_config.go:74-116 | merging the same user entries again changes no lookup |
| Pipelines.MergeKeepsUnique | operator/internal/controller/buildservice/pipeline_config.go:83-113 | unique names stay unique, also when the user repeats names |
| Pipelines.MergeKeepsOrder | operator/internal/controller/buildservice/pipeline_config.go:83-113 | defaults that no entry removes keep their order and number |
| Pipelines.MergeOneMore | operator/internal/controller/buildservice/pipeline_config.go:83-113 | a further entry appends a new name at the end, replaces a name where it stands, or drops every entry of it |
| Pipelines.StaysPresent | operator/internal/controller/buildservice/pipeline_config.go:83-113 | a kept default that no entry removes is still present |
| Pipelines.Filter | operator/internal/controller/buildservice/pipeline_config.go:83-93 | exactly the entries of other names remain, in order |
| Pipelines.UpsertEntry | operator/internal/controller/buildservice/pipeline_config.go:94-113 | the first entry of the name is replaced in place, keeping its description unless one is given, or one is appended |
| Pipelines.MergePipelines | operator/internal/controller/buildservice/pipeline_config.go:74-116 | the nested loops merge over the defaults, unless these are removed, and the result has the closed form for every name |
| Pipelines.PipelineConfig.EnsureDefaultPipeline | operator/internal/controller/buildservice/pipeline_config.go:123-138 | the default name ends empty, or in the list, or the list is empty; it changes only to the first entry and only when it was missing |
| Pipelines.PipelineConfig.ApplyMerge | operator/internal/controller/buildservice/pipeline_config.go:34-68 | when it fails, and that nothing changes then; else list and default name after the merge, with the same guarantee for the default |
| Containers.ArgKey | operator/pkg/customization/pod.go:380-385 | the longest prefix without '=', ending at the first one or at the end |
| Containers.EnvMerge | operator/pkg/customization/pod.go:391-405 | each name has the overlay's last whole entry, else the base's; base names keep their places and unique names stay unique |
| Containers.ArgReplacement | operator/pkg/customization/pod.go:357-370 | per flag: the count, the first occurrence, and which positions stay untouched |
| Containers.ArgReplacementIdempotent | operator/pkg/customization/pod.go:357-370 | replacing the same arguments again changes nothing |
| Containers.OverlaidSays | operator/pkg/customization/pod.go:327-370 | merging an overlay and replacements gives each variable the overlay's last whole entry else the old one, and keeps arguments in place but for the first of a replaced flag |
| Containers.Container.FromContainerSpec | operator/pkg/customization/container.go:45-57 | the user's entries are appended and the user's resources, if given, replace those before |
| Containers.Container.WithEnv | operator/pkg/customization/container.go:67-71 | the variables are appended |
| Containers.Container.WithoutEnv | operator/pkg/customization/container.go:92-102 | exactly the variables of other names remain, in order |
| Containers.Container.WithEnvOverride | operator/pkg/customization/container.go:76-88 | the literal replaces every variable of its name |
| Containers.Container.WithOptionalEnvOverride | operator/pkg/customization/container.go:149-154 | the same, and an empty value changes nothing |
| Containers.Container.MergeEnvByName | operator/pkg/customization/pod.go:391-405 | the loops compute PutAll by name |
| Containers.Container.ReplaceArg | operator/pkg/customization/pod.go:358-369 | the first argument of the flag is replaced, or one is appended |
| Containers.Container.ReplaceArgs | operator/pkg/customization/pod.go:357-370 | the loops compute PutAll by flag |
| Containers.MergeContainerList | operator/pkg/customization/pod.go:322-373 | for every container before the first failing merge: per name the overlay's last whole entry else the old one, per flag the last replacement else the first old or added argument, counts, and every other position as it was; that container and those after it are unchanged |
| Containers.BuildIntegrationOverlay | operator/internal/controller/integrationservice/konfluxintegrationservice_controller.go:336-364 | the option order yields IntegrationOverlayEnv, the user's resources and the leader-election argument for more than one replica, of which there is one by default |
| Containers.IntegrationEnvPrecedence | operator/internal/controller/integrationservice/konfluxintegrationservice_controller.go:352-363 | in the merged container: typed value if set, else the user's last whole entry, else the base's |
| Containers.CustomizeIntegration | operator/internal/controller/integrationservice/konfluxintegrationservice_controller.go:336-364 | overlay and merge together leave that in every container called manager, and every other container as it was |
| Containers.ConsoleSays | operator/internal/controller/integrationservice/konfluxintegrationservice_controller.go:337-343 | both URL templates, with or without one trailing slash |
| Containers.BuildBuildOverlay | operator/internal/controller/buildservice/konfluxbuildservice_controller.go:359-418 | the option order yields BuildOverlayEnv, the user's resources, the log-encoder and leader-election arguments and the renamed volume |
| Containers.ManagerArgs | operator/pkg/customization/pod.go:161-178 | end to end: the log encoder and leader election win over the base's flags when asked for, every other flag is the base's |
| Containers.BuildEnvPrecedence | operator/internal/controller/buildservice/konfluxbuildservice_controller.go:359-418 | in the merged container: typed field, then user, then the operator's own values outside OpenShift, then base; the typed field, when false, yields the base's |
| Containers.CustomizeBuild | operator/internal/controller/buildservice/konfluxbuildservice_controller.go:337-418 | overlay and merge together: the environment and arguments of every container called manager are those merges, every other container is as it was |
| Containers.MergedArgs | operator/pkg/customization/pod.go:161-178 | in the merged container the log encoder and leader election win when asked for, every other flag is the base's |
| Containers.FlagTexts | operator/pkg/customization/pod.go:173-178 | the two arguments, and when there is none |
| Containers.InsecureSslOff | operator/internal/controller/buildservice/konfluxbuildservice_controller.go:359-418 | the typed field, when false, leaves the variable unset exactly when the base does not have it |
| Conditions.CopiedSays | operator/internal/condition/condition.go:233-277 | under the prefix exactly the sanitised images remain, the last of each kind, with the time kept exactly when every status was; every other condition is untouched |
| Conditions.CopiedEach | operator/internal/condition/condition.go:246-260 | each condition that no later one of the same sanitised kind replaces is shown with its status, reason and message and the parent's generation |
| Conditions.PrefixesApart | operator/internal/condition/condition.go:238-250 | prefixes without a dot never share a kind |
| Conditions.CopiedAllSays | operator/internal/controller/konflux/konflux_controller.go:287-405 | after copying any sub-resources each kind shows exactly what its last owner has over what those before left, all others are as before |
| Conditions.CopiedAllDistinct | operator/internal/controller/konflux/konflux_controller.go:287-405 | with distinct dot-free prefixes each kind shows exactly its owner's condition over what was there at the start, times included |
| Conditions.CopyOrderIrrelevant | operator/internal/controller/konflux/konflux_controller.go:287-405 | with distinct dot-free prefixes the copying order does not matter: what is found under every kind is equal, transition time included |
| Conditions.CollectedReady | operator/internal/controller/konflux/konflux_controller.go:407-412 | the first Ready condition of the result is there and true if and only if that of every sub-resource is, and cert-manager is not known to be missing |
| Conditions.CollectedSays | operator/internal/controller/konflux/konflux_controller.go:407-412 | reason and message of Ready: the missing dependency's, else the aggregate's; and what is said of cert-manager |
| Conditions.AggregatedSays | operator/internal/condition/condition.go:188-228 | status, reason and message of the aggregate, with one text for each sub-resource that is not ready |
| Conditions.FindOverridden | operator/internal/condition/condition.go:332-351 | the first explicitly false dependency sets Ready to false with its reason and message, and nothing else changes |
| Conditions.CollectedOthers | operator/internal/controller/konflux/konflux_controller.go:407-412 | every kind but Ready and CertManagerAvailable is what copying left |
| Conditions.FindSetAll | operator/internal/condition/condition.go:37-43 | setting many conditions leaves the last of each kind; its transition time is the prior one exactly when a prior one was there and no status differs from its |
| Conditions.FindKeepKinds | operator/internal/condition/condition.go:59-67 | cleaning keeps exactly the kinds asked for |
| Conditions.ComponentStatusesSay | operator/internal/condition/condition.go:292-317 | the component has the last condition of each deployment name and Ready and no other, with times that move only with the status; Ready is true exactly when every deployment is ready |
| Conditions.Resource.SetCondition | operator/internal/condition/condition.go:37-43 | the first condition of the kind is replaced or one appended; the transition time moves only with the status |
| Conditions.Resource.CleanupStaleConditions | operator/internal/condition/condition.go:59-67 | the loop computes KeepKinds |
| Conditions.Resource.CopySubCrStatus | operator/internal/condition/condition.go:233-277 | the loops compute Copied, and the returned status is ready exactly when the first Ready condition is there and true |
| Conditions.Resource.UpdateComponentStatuses | operator/internal/condition/condition.go:292-317 | computes ComponentStatuses, texts included; when listing fails nothing changes |
| Conditions.Resource.SetDeploymentConditions | operator/internal/condition/condition.go:126-147 | the loop sets the condition of each deployment in order and collects the names not ready |
| Conditions.MakeDeploymentCondition | operator/internal/condition/condition.go:78-110 | the loop renders status and problems as DeploymentCondition does |
| Conditions.DeploymentSays | operator/internal/condition/condition.go:70-110 | kind, status, reason and text of a deployment's condition |
| Conditions.OneMoreProblem | operator/internal/condition/condition.go:94-102 | what each further deployment condition adds to the text |
| Conditions.Resource.OverrideReadyIfDependencyFalse | operator/internal/condition/condition.go:332-351 | the first explicitly false dependency overrides Ready, and only it |
| Conditions.Resource.SetAggregatedReadyCondition | operator/internal/condition/condition.go:188-228 | Ready with the joined reasons of those not ready, or with their number |
| Conditions.Resource.CheckCertManagerAvailability | operator/internal/controller/konflux/konflux_controller.go:432-477 | the condition set, the override after it and the requeue delay for each answer |
| Conditions.Resource.CopySubCrStatuses | operator/internal/controller/konflux/konflux_controller.go:284-405 | computes CopiedAll and each status, ready exactly when the first Ready condition is there and true; fails at the first unreadable sub-resource with those before it copied |
| Conditions.Resource.CollectStatuses | operator/internal/controller/konflux/konflux_controller.go:284-412 | the whole status collection computes Collected, with Ready true exactly under the condition of CollectedReady; at a failing read the sub-resources before it are copied and nothing else is set |
| ContentHash.Sort | operator/pkg/contenthash/contenthash.go:44-48 | sorted, with the same elements |
| ContentHash.AtMostSays | operator/pkg/contenthash/contenthash.go:44 | the order is ascending and lexicographic: prefix, or smaller at the first difference |
| ContentHash.SortedUnique | operator/pkg/contenthash/contenthash.go:44-48 | a sorted list is determined by its elements |
| ContentHash.CanonicalText | operator/pkg/contenthash/contenthash.go:43-53 | the loop builds Canonical |
| ContentHash.OrderFree | operator/pkg/contenthash/contenthash.go:43-53 | the iteration order of the map does not matter |
| ContentHash.LinesInjective | operator/pkg/contenthash/contenthash.go:48-52 | the joined lines determine keys and values |
| ContentHash.CanonicalInjective | operator/pkg/contenthash/contenthash.go:43-53 | without '=' in keys and line breaks in values, texts are equal exactly when the maps are |
| ContentHash.AmbiguousKey | operator/pkg/contenthash/contenthash.go:48-52 | every one-entry map whose key has '=' shares its text with the one split at an earlier '=' |
| ContentHash.AmbiguousValue | operator/pkg/contenthash/contenthash.go:48-52 | every two-entry map shares its text with a one-entry map whose value has the line break |
| ContentHash.TwoMarksAmbiguous | operator/pkg/contenthash/contenthash.go:48-52 | every text with two '=' is that of two different maps |
| ContentHash.OnlyText | operator/pkg/contenthash/contenthash.go:43-53 | for every map: its text is that of no other map if and only if it is empty or its single entry has no '=' |
| RegistryCredentials.Registry.EnsureRegistryCredentials | operator/internal/controller/internalregistry/konfluxinternalregistry_controller.go:211-306 | both Secrets after one reconcile, for every failure, and when it succeeds |
| RegistryCredentials.DataIsKept | operator/internal/controller/internalregistry/konfluxinternalregistry_controller.go:226-238 | two Secrets with data are left alone by every reconcile |
| RegistryCredentials.MissingRotates | operator/internal/controller/internalregistry/konfluxinternalregistry_controller.go:226-298 | when either is missing or empty, a fault-free reconcile gives both the new password |
| RegistryCredentials.SyncKept | operator/internal/controller/internalregistry/konfluxinternalregistry_controller.go:211-306 | the Secrets stay in sync if and only if no rotation stopped between its writes while the client Secret held another password |
| RegistryCredentials.TornRotation | operator/internal/controller/internalregistry/konfluxinternalregistry_controller.go:211-306 | a concrete rotation that stops between its writes and leaves a mismatch |
| RegistryCredentials.SyncRun | operator/internal/controller/internalregistry/konfluxinternalregistry_controller.go:211-306 | every run of deletions and fault-free reconciles keeps them in sync, with both present after each reconcile |
| RegistryCredentials.MismatchStays | operator/internal/controller/internalregistry/konfluxinternalregistry_controller.go:211-306 | a mismatch outlasts every run of reconciles |
| RegistryCredentials.MismatchHeals | operator/internal/controller/internalregistry/konfluxinternalregistry_controller.go:211-306 | deleting or emptying either Secret lets one fault-free reconcile bring both back in sync |

## Left out

- Interference inside a reconcile: in runs of the wiring no one else changes an object between two API calls of one reconcile; cleanup tasks do interleave.
- Informer cache staleness, ownership of fields in server-side apply, finalizers, RBAC and the watches that enqueue reconciles.
- The text of time stamps: a stamp is missing, unparseable or an instant, and years outside 0 to 9999 are not considered.
- Floating-point rounding when a TTL is halved; it differs from the integer halving only for TTLs above 2^53 ns (104 days).
- Certificates, digests, bcrypt and randomness: a TLS Secret carries its verdict, a generated password is a parameter, and nothing is claimed about hash collisions.
- Scrape wiring without a ServiceMonitor name or without an apply function, and its argument checks: no caller uses them.
- An absent ServiceMonitor kind shows as a failing apply of an operand; only the rotator passes over it.
- Components with metrics switched off or without a token creator appear in ApplyManifests only; runs have both.
- TokenLifetime.TokenNeverLapses: the delay counts from the reconcile's first clock reading, so the reconcile's duration is part of the lateness; others may delete the token Secret but not overwrite it, and may edit the annotations but set no marker further ahead than the reconciler does, for the code would wait for it.
- Wakeups.NoLostWakeup: an event counts from its notice, after the handlers are registered; fairness of the scheduler and of the API calls inside a reconcile is not modelled.
- TokenLifetime.RotatorTolerates: the token Secret is applied as an operand's is, without tracking mattering; others are restricted as in TokenLifetime.TokenNeverLapses.
- Wiring.OperandNamespace.ResyncOperandServiceMonitor: a ServiceMonitor kind that is uninstalled between the read and the patch, which the code takes for success, is interference inside a reconcile.
- The fields of a container that the strategic merge handles: it is taken to leave nil arguments and environment alone and may fail.
- All conditions set in one reconcile share one clock reading.
- The other operands' reconcilers have the same shape as the build service's and are not repeated.
- Operand.Reconcile: fetching the operand's own resource, its namespace and its configuration maps are one flag; that a resource which is gone ends the reconcile without an error is not modelled.
- Logging and the conflicts of the persisted status update.
- JSON and YAML codecs, ingress, OAuth and Dex configuration, overrides on the file system: plumbing with only easy properties.
