# Verification model of the NSX Container Plugin operator

A Dafny model of the reconcile loops of the operator, with proofs about whole runs of them. The operator keeps state
in memory, compares it with the cluster and decides whether to act; the proofs say when those decisions are right.

The project has five parts.

1. **Configuration diff and apply machine** (`Ini.dfy`, `ConfigDiff.dfy`, `Projection.dfy`, `Pipeline.dfy`,
   `Reconciler.dfy`, `ConfigRuns.dfy`, `WatchedObjects.dfy`, `PodRestarts.dfy`, `PartialApply.dfy`, `Stuck.dfy`,
   `Samples.dfy`, `ExampleRuns.dfy`). The submitted `ncp.ini` is defaulted, validated, projected onto two ConfigMaps,
   compared with the last applied configuration and turned into three restart flags. The main theorems are about every
   run: a successful Reconcile, including one that changes nothing and one right after a process restart, leaves both
   ConfigMaps with the option values of the submitted configuration, every other object as rendered, and the pods of
   every workload started with the options that matter to them.
2. **Canary companion policy** (`Canary.dfy`, `CanaryRuns.dfy`). The reads and the write of a Reconcile are separate
   steps that interleave with cluster events, some of which are filtered out. Whenever nothing is pending the companion
   policy is the one the current cluster asks for, as long as there are node addresses and service ports to build it
   from.
3. **Status manager** (`Conditions.dfy`, `StatusManager.dfy`). A keyed merge of conditions, a priority array of failures
   and a retried read-modify-write of a versioned object that others write too.
4. **Rollouts and node conditions** (`Rollout.dfy`, `NodeCondition.dfy`). Hung-rollout detection over a history of
   syncs; the per-node start time that rejects outdated pods; the 180-second grace period.
5. **Node tagging** (`NodeTags.dfy`). The success cache that drives the published failure, the tag loop, and the tags
   that NSX stores, which only a successful update changes.

## Modelling choices

- An INI file is an ordered list of sections with a map from option to value each; DEFAULT always exists, and reading
  `Section(s).Key(k)` creates what is missing. Section and option names the operator mentions are constructors, all
  others are `OtherSection(name)` and `OtherOption(name)`.
- A ConfigMap text is either malformed or a file together with a `layout` (comments, spacing, key order). Two trimmed
  texts are equal when both parts are. Writing a file and loading it again gives the file back.
- Client calls are inputs: what a read returns, and whether a call fails. Clock readings are inputs.
- The rendered manifests are a list of the objects the controller reads back, in manifest order. One further object
  stands for the custom resource definitions and the access-control objects, and on OpenShift another one for the
  definition at the end of the manifest.
- A workload starts its pods when it is created, when its template changes, and when the annotation of a patch comes or
  goes. Pods may also start on their own.
- `Apply` overwrites the object. Message texts of node conditions and node results are opaque values.
- Runs are sequences of events folded over a state. Classes with mutable fields carry the operations as the source
  performs them, and the run theorems are about functions. Most methods are proved equal to a function of the old
  state. The status manager's are not, because what they store depends on what others write meanwhile: its contract
  relates the new history of versions to the old one, and the theorems are about every such history.

## Where the code does not do what one would expect

For each of these there is a theorem with the exact condition under which the code is right, and a run or an input on
which it is not.

- A part-way failed apply followed by a revert of the operator configuration is taken for no change, whatever object the
  loop stopped at, unless the Deployment got new replicas or the inputs never settle
  (`PartialApply.RevertAfterPartialApply`, `ExampleRuns.StaleAfterRevert`).
- A part-way failed apply followed by a restart and the same configuration again is taken for no change when the loop
  stopped between the two ConfigMaps and what is recovered from the nsx-node-agent one alone did not change
  (`PartialApply.ResubmitAfterRestart`, `ExampleRuns.StaleAfterRestart`).
- In general a no-change return is right exactly when the ConfigMaps showed the configuration it was compared with
  (`ConfigRuns.NoChangeExactly`); after a restart that is exactly when the two ConfigMaps agree
  (`ConfigRuns.NoChangeAfterRestartExactly`).
- A remembered configuration without a cluster name rejects every configuration that validation accepts. Some Reconcile
  can succeed if and only if the remembered configuration has a cluster name (`StuckRuns.SucceedsExactly`); after a
  restart, if and only if a ConfigMap is missing or cannot be read, or both load and a cluster name is recovered from them
  (`StuckRuns.SucceedsAfterRestartExactly`). Repairing the ConfigMaps does not help before the next restart
  (`StuckRuns.StuckUntilRestart`, `ExampleRuns.StuckAfterMalformed`), and restarting does not help while they stay as
  they are (`StuckRuns.StuckAcrossRestarts`, `ExampleRuns.StuckWithoutClusterName`).
- After a restart the two immutable options are protected exactly when both ConfigMaps exist and can be read
  (`ConfigRuns.RestartGuardsImmutableExactly`, `ExampleRuns.ImmutableLostAfterRestart`,
  `ExampleRuns.ImmutableLostWithoutConfigMap`).
- A second Reconcile applies everything again when `NCP_IMAGE` is empty, lb-secret carries a `tls.ca` entry, or a selector
  or toleration list of ncp-install is there but empty, and only then (`ConfigRuns.ConvergesExactly`,
  `ExampleRuns.AppliesAgainWithoutImage`, `ExampleRuns.AppliesAgainWithEmptyTolerations`).
- A no-change return leaves every object as rendered exactly when the ConfigMaps showed the configuration it was compared
  with and so was what it does not look at: the nsx-ncp-bootstrap tolerations, whether the secrets exist, and edits that
  only make the cluster equal to an empty image or a tls.ca of lb-secret (`WatchedObjects.NoChangeRendersExactly`,
  `ExampleRuns.BootstrapEditUnnoticed`).
- An apply without a remembered or recovered configuration patches no workload, so it leaves pods with old options unless
  something else starts them (`PodRestarts.MissedExactly`, `ExampleRuns.NotRestartedAfterFailedRead`). An apply that stops
  behind both ConfigMaps followed by a restart leaves the workloads it had not got to with old options
  (`PodRestarts.NotRestartedExactly`, `ExampleRuns.NotRestartedAfterStop`).
- The companion policy admits exactly the IPv4 node addresses if and only if there is one and none is written as an
  IPv4-mapped IPv6 address; without any, the rule has no sources and admits everybody (`Canary.AdmitsExactly`,
  `CanaryRuns.V6OnlyOpens`).
- While there are no node addresses or no service ports the old companion stays, with the addresses of nodes that have
  left (`CanaryRuns.AskedExactly`, `CanaryRuns.KeptWhileLacking`, `CanaryRuns.ServiceGoneKeepsOld`).
- The port filter leaves one port if and only if exactly one pair of a candidate and a node address matches; the only
  right port of a dual-stack node is rejected (`NodeTags.FilteredOneExactly`, `NodeTags.DualStackRejected`).
- Switching node tagging off and on again loses the ClusterNode failure until a Reconcile that does not skip
  (`NodeTags.AfterToggleExactly`, `NodeTags.ToggleLosesFailure`).
- Merging the same conditions a second time reports a change exactly when two of them have the same type and differ, and
  changes the list exactly when two of one type differ in their status and time has passed
  (`Conditions.SecondMergeReports`, `Conditions.SecondMergeExactly`, `Conditions.RepeatedTypeFlips`). The lists the status
  manager passes have distinct types, so for them neither happens.

The text near pkg/controller/configmap/config.go:221 says a prefix must be larger than 30 where the code demands at most
30; this check is an input of the model.

## Model

| member | source | states |
|---|---|---|
| `ConfigDiff.NeedApplyChange` | pkg/controller/configmap/config.go:555-672 | returns the decision that an option-by-option comparison prescribes: no previous configuration raises everything, equal texts raise nothing, a changed immutable option is an error, otherwise each flag holds exactly when the tables say a differing section or option matters |
| `ConfigDiff.ImmutableFieldChanged` | pkg/controller/configmap/config.go:694-702 | true exactly when an immutable option differs, absent counting as empty; the reads create the two options in both files |
| `ConfigDiff.DiffSections` | pkg/controller/configmap/config.go:587-646 | lists, without repetition, exactly the sections whose contents differ, missing counting as empty |
| `ConfigDiff.CheckOptionsChange` | pkg/controller/configmap/config.go:674-692 | true exactly when the section is in the table and came, went, or differs in a listed option |
| `ConfigDiff.SectionFlags` | pkg/controller/configmap/config.go:647-665 | the loop over differing sections, with its early break, computes all three flags |
| `ConfigDiff.FlagsUpToMonotone` | pkg/controller/configmap/config.go:662-664 | breaking out once all flags are raised loses nothing |
| `ConfigDiff.BootstrapImpliesAgent` | pkg/types/defaults.go:18-27 | whatever restarts bootstrap restarts the agent |
| `ConfigDiff.QuietExactly` | pkg/types/defaults.go:11-34 | no flag is raised exactly when no section the operator renders differs |
| `ConfigDiff.ShortcutAgrees` | pkg/controller/configmap/config.go:564-568 | the shortcut on equal texts agrees with the full comparison |
| `Projection.GenerateConfigMap` | pkg/controller/configmap/config.go:725-740 | computes the projection onto the listed sections |
| `Projection.ProjectExactly` | pkg/controller/configmap/config.go:725-740 | a projection has exactly the listed sections the source has, with all their options |
| `Projection.RenderedSections` | pkg/types/defaults.go:12-17 | which sections go to which ConfigMap, by name |
| `Projection.GenerateOperatorConfigMap` | pkg/controller/configmap/config.go:742-789 | recombines two files, the nsx-ncp one first |
| `Projection.RecoverProjections` | pkg/controller/configmap/config.go:742-789 | projecting onto both ConfigMaps and recombining gives back exactly the operator sections |
| `Projection.QuietMeansSameRendering` | pkg/controller/configmap/config.go:402-426 | no flag is raised if and only if both rendered ConfigMaps keep all their option values |
| `Projection.RestartTransparent` | pkg/controller/configmap/configmap_controller.go:360-401 | against its own recovered form no configuration raises an error or a flag |
| `Pipeline.FillDefault` | pkg/controller/configmap/config.go:279-293 | sets a forced option always and a default only over an absent or empty one; fails without the section |
| `Pipeline.FillDefaultsK8s` | pkg/controller/configmap/config.go:65-93 | creates a missing coe section, then fills the Kubernetes defaults, failing when another section is missing |
| `Pipeline.FillDefaultsOc` | pkg/controller/configmap/config.go:95-132 | creates a missing coe section, then fills the OpenShift defaults and the cluster network |
| `Pipeline.AcceptedHasCoe` | pkg/controller/configmap/config.go:77-140 | a configuration without a coe section is never accepted, although filling creates one |
| `Pipeline.TargetedOption` | pkg/controller/configmap/config.go:284-291 | a listed option ends up as the forcing rule says |
| `Pipeline.UntargetedOption` | pkg/controller/configmap/config.go:279-293 | filling changes no other option |
| `Pipeline.ValidateUnSupportedOptions` | pkg/controller/configmap/config.go:350-391 | deletes exactly the non-empty unsupported options and a non-empty cf section, and rewrites only when something changed |
| `Pipeline.UnsupportedIsListed` | pkg/types/defaults.go:39-58 | the unsupported options are those of the two tables |
| `Pipeline.SubmittedOptions` | pkg/controller/configmap/config.go:65-192 | an accepted configuration, option by option: forced, defaulted, removed or preserved |
| `Pipeline.SubmittedValues` | pkg/controller/configmap/config.go:65-132 | every option of an accepted configuration with the forced and default values of each platform, in terms of the submitted option |
| `Pipeline.SubmittedHasSection` | pkg/controller/configmap/config.go:350-391 | which sections an accepted configuration has; cf goes with its options and is created when something else was removed |
| `Pipeline.AcceptedExactly` | pkg/controller/configmap/config.go:65-192 | a submitted configuration is accepted if and only if it has the needed sections, cluster name and managers, pools unless SNAT is given and off, a gateway, an integer MTU if any, no log_file, and IP blocks on Kubernetes or a valid network on OpenShift |
| `Pipeline.IntegersExactly` | pkg/controller/configmap/config.go:323-328 | a decimal number with or without a sign passes the MTU check if and only if it fits 64 bits |
| `Pipeline.SubmitIdempotent` | pkg/controller/configmap/config.go:65-192 | submitting an accepted configuration again is accepted and changes nothing, not even sections |
| `Pipeline.FillNsxAuthCfg` | pkg/controller/configmap/config.go:856-890 | each non-empty nsx-secret entry forces its path |
| `Pipeline.FillLbCertCfg` | pkg/controller/configmap/config.go:892-922 | each non-empty lb-secret entry forces its path |
| `Pipeline.NsxAuthOptions` | pkg/controller/configmap/config.go:868-880 | exactly the path options of non-empty nsx-secret entries change |
| `Pipeline.LbCertOptions` | pkg/controller/configmap/config.go:904-912 | exactly the path options of non-empty lb-secret entries change |
| `Pipeline.AcceptedHasNsx` | pkg/controller/configmap/configmap_controller.go:317-342 | the certificate steps cannot fail on an accepted configuration |
| `Pipeline.Prepare` | pkg/controller/configmap/configmap_controller.go:293-342 | runs defaults, validation and certificate paths in that order, reporting every error |
| `Pipeline.PreparedOptions` | pkg/controller/configmap/configmap_controller.go:293-342 | each of the five path options takes its path if and only if the matching entry of nsx-secret or lb-secret is there and not empty; every other option is as accepted, and no secret makes an accepted configuration fail |
| `Pipeline.PreparedExactly` | pkg/controller/configmap/configmap_controller.go:293-342 | which submitted configurations are rendered, and every option of them in terms of the submitted file and the secrets |
| `Reconciler.ReplicasExactly` | pkg/controller/configmap/config.go:435-449 | replicas are cut to one without HA, never raised, and kept with it; an ha.enable that is no boolean is an error |
| `Reconciler.InstanceExactly` | pkg/controller/configmap/configmap_controller.go:293-342 | which inputs of a Reconcile give a configuration |
| `Reconciler.InstanceOption` | pkg/controller/configmap/configmap_controller.go:293-342 | every option of it, in terms of the submitted file, the network and the secrets |
| `Reconciler.Controller.ApplyObjects` | pkg/controller/configmap/configmap_controller.go:461-526 | patches and applies the objects in order up to the first failure, and which pods that starts |
| `Reconciler.Controller.RecoverApplied` | pkg/controller/configmap/configmap_controller.go:360-388 | recovers the applied configuration when memory has none; a ConfigMap that does not load leaves the empty configuration behind |
| `Reconciler.Controller.CompareSecrets` | pkg/controller/configmap/configmap_controller.go:737-768 | which secrets are read, and true exactly when one differs, absent entries counting as empty |
| `Reconciler.Controller.CompareObjects` | pkg/controller/configmap/configmap_controller.go:402-457 | which reads are made, which failures stop them, and exactly when something calls for applying |
| `Reconciler.Controller.ApplyRendered` | pkg/controller/configmap/configmap_controller.go:461-542 | renders, patches when there is an applied configuration, applies, and remembers the configuration only after the last object |
| `Reconciler.Controller.CompareAndApply` | pkg/controller/configmap/configmap_controller.go:390-459 | when it applies, what that leaves in the cluster and which pods it starts |
| `Reconciler.Controller.Reconcile` | pkg/controller/configmap/configmap_controller.go:217-542 | what a Reconcile does to memory, cluster and pods, as a function of them, the inputs and the failing calls |
| `ConfigRuns.ReconcileKeepsSync` | pkg/controller/configmap/configmap_controller.go:361-459 | from a consistent state a successful Reconcile leaves both ConfigMaps showing the submitted configuration, and consistency only breaks when the apply loop stops part-way |
| `ConfigRuns.RunKeepsInv` | pkg/controller/configmap/configmap_controller.go:361-528 | over every run with restarts, outside edits and failing calls, a cluster that is not dirty is traced to one configuration that the applied cache represents |
| `ConfigRuns.SuccessMeansInSync` | pkg/controller/configmap/configmap_controller.go:361-528 | in every run a successful Reconcile that applied, or found the cluster not dirty, leaves both ConfigMaps with the submitted option values |
| `ConfigRuns.NoChangeExactly` | pkg/controller/configmap/configmap_controller.go:425-457 | a no-change return is right if and only if the ConfigMaps showed the configuration it was compared with, remembered or recovered |
| `ConfigRuns.RecoveredInSyncExactly` | pkg/controller/configmap/config.go:742-789 | two ConfigMaps show what is recovered from them if and only if each has its own sections only and shared ones are the same |
| `ConfigRuns.NoChangeAfterRestartExactly` | pkg/controller/configmap/configmap_controller.go:360-457 | after a restart a no-change return is right if and only if the two ConfigMaps agree |
| `ConfigRuns.ReconcileKeepsImmutable` | pkg/controller/configmap/configmap_controller.go:398-401 | once an applied configuration exists one Reconcile keeps its immutable values whatever fails |
| `ConfigRuns.RunKeepsImmutable` | pkg/controller/configmap/configmap_controller.go:398-401 | the same over every run without a restart |
| `ConfigRuns.RestartGuardsImmutableExactly` | pkg/controller/configmap/configmap_controller.go:361-401 | after a restart, for every cluster, a changed immutable option is rejected if both ConfigMaps exist and can be read, and applied otherwise |
| `ConfigRuns.ConvergesExactly` | pkg/controller/configmap/configmap_controller.go:344-459 | after a Reconcile that applied, with or without the replica clamp, the next one applies nothing if and only if the image is set, lb-secret has no tls.ca and no selector or toleration list is there but empty |
| `ConfigRuns.StaysQuiet` | pkg/controller/configmap/configmap_controller.go:402-457 | a no-change Reconcile is followed by no-change Reconciles |
| `WatchedObjects.SecretsCompared` | pkg/controller/configmap/configmap_controller.go:770-792 | two secrets differ exactly when one of tls.crt, tls.key and tls.ca does, absent counting as empty |
| `WatchedObjects.RenderedEntries` | pkg/controller/configmap/config.go:486-505 | rendering keeps every entry of both secrets, except that lb-secret has no tls.ca |
| `WatchedObjects.ReadBlockedExactly` | pkg/controller/configmap/configmap_controller.go:402-457 | exactly which failing reads stop a Reconcile, given which entries and workloads are there |
| `WatchedObjects.NoChangeReturnedExactly` | pkg/controller/configmap/configmap_controller.go:390-459 | a Reconcile returns without a change if and only if everything is accepted, no relevant option changed, every entry of both secrets is the submitted one, the three workloads are there with the given image, replicas and lists, and no read nor a due network status fails |
| `WatchedObjects.AppliedExactly` | pkg/controller/configmap/configmap_controller.go:390-542 | it applies if and only if there is a reason to, no needed read and no object fails, and a due network status is written |
| `WatchedObjects.OutcomeExactly` | pkg/controller/configmap/configmap_controller.go:217-542 | with no failing call: skipped, failed, no change or applied, and exactly when |
| `WatchedObjects.NoChangeRendersExactly` | pkg/controller/configmap/configmap_controller.go:402-457 | from any cluster, after a no-change return every object is as rendered if and only if the ConfigMaps showed the compared configuration and what is not looked at was as rendered |
| `WatchedObjects.SuccessMeansRendered` | pkg/controller/configmap/configmap_controller.go:402-528 | in every run a successful Reconcile that applied, or found the cluster not dirty, leaves every object as the submitted inputs render it: every entry of both secrets, image, replicas and lists |
| `PodRestarts.UnflaggedSameFor` | pkg/types/defaults.go:11-34 | when a flag is not raised no option relevant to its workload changed |
| `PodRestarts.RelevantIsListed` | pkg/types/defaults.go:11-34 | the options relevant to each workload, by name, are those of the tables |
| `PodRestarts.FlagExactly` | pkg/controller/configmap/config.go:647-692 | a flag is raised if and only if an option relevant to its pods changed, or nsx_node_agent (bootstrap) or k8s (agent) came or went with some option |
| `PodRestarts.StartsExactly` | pkg/controller/configmap/configmap_controller.go:461-526 | an apply loop starts a workload with its new ConfigMap exactly when it got to it and it is new, its template changes, or it is or was patched |
| `PodRestarts.SecretRestartsNcp` | pkg/controller/configmap/configmap_controller.go:402-508 | a complete apply after any entry of a secret changed starts the nsx-ncp pods anew |
| `PodRestarts.RestartsSuffice` | pkg/controller/configmap/configmap_controller.go:402-528 | over every run, restarts included, a successful Reconcile leaves the pods of every workload with the submitted values of all options relevant to them, unless an apply stopped part-way or had no applied configuration |
| `PodRestarts.MissedExactly` | pkg/controller/configmap/configmap_controller.go:478-508 | an apply without an applied configuration leaves pods right if and only if something else starts them or nothing relevant to them changed |
| `PodRestarts.NotRestartedExactly` | pkg/controller/configmap/configmap_controller.go:360-528 | after a stop behind both ConfigMaps and a restart no change is reported, and pods are right if and only if the loop had got to them or nothing relevant to them changed |
| `StuckRuns.PreparedHasCluster` | pkg/controller/configmap/config.go:134-192 | every configuration that is compared has a cluster name |
| `StuckRuns.StuckUntilRestart` | pkg/controller/configmap/configmap_controller.go:398-401 | with a configuration without a cluster name remembered, in every run without a restart no Reconcile succeeds or changes anything |
| `StuckRuns.StuckAcrossRestarts` | pkg/controller/configmap/configmap_controller.go:360-401 | while the ConfigMaps can be read and one does not load or they hold no cluster name, no Reconcile succeeds over any run with restarts |
| `StuckRuns.SucceedsExactly` | pkg/controller/configmap/configmap_controller.go:398-401 | with a configuration remembered some Reconcile can succeed if and only if it has a cluster name |
| `StuckRuns.SucceedsAfterRestartExactly` | pkg/controller/configmap/configmap_controller.go:360-401 | after a restart some Reconcile can succeed if and only if a ConfigMap is missing or cannot be read, or a cluster name is recovered |
| `StuckRuns.MalformedRemembersEmpty` | pkg/controller/configmap/configmap_controller.go:377-387 | a ConfigMap that does not load after a restart makes the Reconcile fail with the empty configuration remembered |
| `StuckRuns.RemembersNamelessExactly` | pkg/controller/configmap/configmap_controller.go:360-388 | after a restart a configuration without a cluster name is remembered if and only if both ConfigMaps are read and that is what they hold |
| `PartialApply.RevertAfterPartialApply` | pkg/controller/configmap/configmap_controller.go:520-528 | for all configurations and every stopping point: when a revert is taken for no change, and exactly when the ConfigMaps are then right |
| `PartialApply.ResubmitAfterRestart` | pkg/controller/configmap/configmap_controller.go:360-528 | for all configurations and every stopping point: when the same configuration is taken for no change after a restart, and exactly when the ConfigMaps are then right |
| `ExampleRuns.StaleAfterRevert` | pkg/controller/configmap/configmap_controller.go:520-528 | the concrete run, through defaults and validation, in which a reverted part-way apply stays unnoticed |
| `ExampleRuns.StaleAfterRestart` | pkg/controller/configmap/configmap_controller.go:360-388 | the concrete run in which a part-way apply stays unnoticed after a restart |
| `ExampleRuns.ImmutableLostAfterRestart` | pkg/controller/configmap/configmap_controller.go:360-401 | the concrete run in which a changed cluster name is applied after a restart and a failed read |
| `ExampleRuns.ImmutableLostWithoutConfigMap` | pkg/controller/configmap/configmap_controller.go:360-401 | the same without a failing call when a ConfigMap was deleted |
| `ExampleRuns.AppliesAgainWithoutImage` | pkg/controller/configmap/configmap_controller.go:402-459 | the concrete run in which a second Reconcile applies everything again |
| `ExampleRuns.AppliesAgainWithEmptyTolerations` | pkg/controller/configmap/configmap_controller.go:697-730 | the same with an empty toleration list |
| `ExampleRuns.StuckAfterMalformed` | pkg/controller/configmap/configmap_controller.go:377-401 | the concrete run in which the operator stays stuck after the ConfigMap is repaired |
| `ExampleRuns.StuckWithoutClusterName` | pkg/controller/configmap/configmap_controller.go:360-401 | the concrete ConfigMaps with which no Reconcile succeeds over any run of Reconciles and restarts |
| `ExampleRuns.BootstrapEditUnnoticed` | pkg/controller/configmap/configmap_controller.go:715-735 | the concrete run in which an edited nsx-ncp-bootstrap DaemonSet is never noticed |
| `ExampleRuns.NotRestartedAfterStop` | pkg/controller/configmap/configmap_controller.go:360-528 | the concrete run in which nsx-node-agent pods keep an old address after a stopped apply and a restart |
| `ExampleRuns.NotRestartedAfterFailedRead` | pkg/controller/configmap/configmap_controller.go:478-508 | the concrete run in which they keep it after a restart and a failed read |
| `Canary.NodeIPs` | pkg/controller/canaryworkaround/canaryworkaround_controller.go:101-115 | the internal and external addresses, each once, and no others |
| `Canary.SameNodeIPs` | pkg/controller/canaryworkaround/canaryworkaround_controller.go:117-131 | equal lengths and one-sided inclusion |
| `Canary.SameCountSameSet` | pkg/controller/canaryworkaround/canaryworkaround_controller.go:117-131 | on deduplicated lists that is set equality |
| `Canary.NodeUpdatePasses` | pkg/controller/canaryworkaround/canaryworkaround_controller.go:90-96 | an update passes the filter exactly when the address set changed |
| `Canary.ListNodeIPs` | pkg/controller/canaryworkaround/canaryworkaround_controller.go:336-354 | the strictly sorted union of all addresses, a function of that set alone |
| `SortedStrings.LessExactly` | pkg/controller/canaryworkaround/canaryworkaround_controller.go:352-353 | the order of the list is the lexicographic one |
| `SortedStrings.SortedUnique` | pkg/controller/canaryworkaround/canaryworkaround_controller.go:352-353 | a set has one strictly sorted list, so the order of nodes and addresses does not matter |
| `Canary.CanaryServicePorts` | pkg/controller/canaryworkaround/canaryworkaround_controller.go:291-315 | the TCP ports in order, numeric target ports preferred; none without a service |
| `Canary.PortsAre` | pkg/controller/canaryworkaround/canaryworkaround_controller.go:303-313 | each TCP port gives one port in its place, the numeric target port if there is one, and other protocols none |
| `Canary.FindHostNetworkSelector` | pkg/controller/canaryworkaround/canaryworkaround_controller.go:321-334 | true exactly when some peer selects the host-network label with an empty value |
| `Canary.BuildWorkaroundPolicy` | pkg/controller/canaryworkaround/canaryworkaround_controller.go:387-429 | the owner, exactly the IPv4 addresses as sources, in order, and the ports |
| `Canary.AdmitsExactly` | pkg/controller/canaryworkaround/canaryworkaround_controller.go:388-401 | the policy admits exactly the IPv4 node addresses if and only if there is one and none is written as an IPv4-mapped IPv6 address |
| `CanaryRuns.Controller.Reconcile` | pkg/controller/canaryworkaround/canaryworkaround_controller.go:230-284 | a successful Reconcile leaves the target companion, a failed one the old companion, and it succeeds exactly when no call it needs fails |
| `CanaryRuns.DroppedUpdateHarmless` | pkg/controller/canaryworkaround/canaryworkaround_controller.go:86-96 | a dropped update leaves the addresses of the cluster as they were |
| `CanaryRuns.ListingOrderIrrelevant` | pkg/controller/canaryworkaround/canaryworkaround_controller.go:336-354 | any listing of the nodes gives the same addresses |
| `CanaryRuns.NextKeepsInv` | pkg/controller/canaryworkaround/canaryworkaround_controller.go:180-284 | every step keeps: with no request pending, all that the worker has read is current |
| `CanaryRuns.QuiescentMeansSettled` | pkg/controller/canaryworkaround/canaryworkaround_controller.go:180-284 | over every interleaving, with nothing pending or running the companion is absent or exactly the policy of the current cluster |
| `CanaryRuns.UndisturbedSettles` | pkg/controller/canaryworkaround/canaryworkaround_controller.go:230-284 | one undisturbed Reconcile leaves the target companion and settles it, queueing itself exactly when that was a change; a second changes and queues nothing |
| `CanaryRuns.AskedExactly` | pkg/controller/canaryworkaround/canaryworkaround_controller.go:230-284 | with nothing pending or running the companion is what the cluster asks for unless addresses or ports are lacking, and another Reconcile would not change it |
| `CanaryRuns.KeptWhileLacking` | pkg/controller/canaryworkaround/canaryworkaround_controller.go:257-275 | as long as addresses, or ports, are lacking the old companion stays, whatever else happens |
| `CanaryRuns.ServiceGoneKeepsOld` | pkg/controller/canaryworkaround/canaryworkaround_controller.go:257-275 | the concrete run in which the companion keeps admitting an address that is gone |
| `CanaryRuns.V6OnlyOpens` | pkg/controller/canaryworkaround/canaryworkaround_controller.go:387-401 | the concrete run, from the start of the controller, that settles with a companion that admits every source |
| `Conditions.ConditionList.Find` | pkg/util/k8s/v1helpers.go:31-39 | the first condition of a type |
| `Conditions.ConditionList.SetStatusCondition` | pkg/util/k8s/v1helpers.go:10-28 | appends or updates in place; the transition time moves on insertion or a status change only |
| `Conditions.SetLookup` | pkg/util/k8s/v1helpers.go:10-28 | only the named type changes, to the new status, reason and message |
| `Conditions.SetTakesOver` | pkg/util/k8s/v1helpers.go:10-28 | the named type shows the new status, reason and message, with the time it took on this status |
| `Conditions.ConditionList.CombineConditions` | pkg/controller/statusmanager/pod_status.go:542-561 | merges all new conditions one by one and reports changed exactly when some step found a difference, which for distinct types is exactly when the list differs |
| `Conditions.ReportsExactly` | pkg/controller/statusmanager/pod_status.go:542-561 | nothing is reported exactly when no new condition differs from the list as it was, repeated types included |
| `Conditions.CombineLookup` | pkg/controller/statusmanager/pod_status.go:542-561 | named types take the new condition, others stay |
| `Conditions.CombineShape` | pkg/controller/statusmanager/pod_status.go:542-561 | order, uniqueness and untouched entries survive |
| `Conditions.CombineChanges` | pkg/controller/statusmanager/pod_status.go:546-559 | the list changes exactly when some new condition differs |
| `Conditions.CombineIdempotent` | pkg/controller/statusmanager/pod_status.go:542-561 | merging the same distinct conditions again changes nothing |
| `Conditions.SecondMergeReports` | pkg/controller/statusmanager/pod_status.go:542-561 | merging the same conditions again reports a change if and only if two entries of one type differ |
| `Conditions.SecondMergeExactly` | pkg/controller/statusmanager/pod_status.go:542-561 | merging the same conditions again at another time changes the list if and only if two entries of one type differ in status |
| `Conditions.RepeatedTypeFlips` | pkg/controller/statusmanager/pod_status.go:546-559 | two entries of one type with different statuses change any list on every merge |
| `StatusManager.Compute` | pkg/controller/statusmanager/status_manager.go:133-222 | the status either adaptor wants to store, and whether it differs |
| `StatusManager.Manager.Set` | pkg/controller/statusmanager/status_manager.go:133-250 | under every interference a success leaves a version that shows the conditions and is the update of the version right before it; nothing else is written; while no call fails and the object stays, one attempt without interference succeeds |
| `StatusManager.DesiredLookup` | pkg/controller/statusmanager/status_manager.go:133-222 | what a write of either adaptor makes of each condition type: its own ones merged, the startup condition exactly when it is due, Upgradeable on OpenShift, all others as they were |
| `StatusManager.OwnWriteLeavesOthers` | pkg/controller/statusmanager/status_manager.go:180-250 | in every history an own version merges its own conditions into the version it replaced and leaves every type it does not write exactly as there; Available counts as written only when it is named or the startup condition is due |
| `StatusManager.OwnWriteAdds` | pkg/controller/statusmanager/status_manager.go:180-222 | the startup condition is Available=False with reason Startup, and Upgradeable is True on OpenShift |
| `StatusManager.AvailableStaysInHistory` | pkg/controller/statusmanager/status_manager.go:198-210 | on OpenShift Available=True stays through all own writes |
| `StatusManager.OverallExactlyOne` | pkg/controller/statusmanager/status_manager.go:84-177 | on Kubernetes the version that a successful overall write of at least one workload wrote or found has exactly one of Available and Progressing True |
| `StatusManager.DegradedKeepsOneTrue` | pkg/controller/statusmanager/status_manager.go:253-268 | later Degraded writes keep that, as long as others do |
| `StatusManager.Manager.SyncDegraded` | pkg/controller/statusmanager/status_manager.go:253-268 | a success publishes Degraded=True with the reason and message of the lowest failing level, or Degraded=False when no level fails |
| `StatusManager.Manager.SetDegraded` | pkg/controller/statusmanager/status_manager.go:270-278 | records the failure at its level only, then publishes |
| `StatusManager.Manager.SetNotDegraded` | pkg/controller/statusmanager/status_manager.go:280-285 | clears its level only, then publishes |
| `StatusManager.Manager.SetConditions` | pkg/controller/statusmanager/status_manager.go:84-113 | publishes Progressing with what is in progress, if anything, and Available=True when reached |
| `StatusManager.FailingIsLatest` | pkg/controller/statusmanager/status_manager.go:270-285 | in every run a level fails exactly when its latest operation was a failure, with that reason and message |
| `StatusManager.Replay` | pkg/controller/statusmanager/status_manager.go:253-285 | after any run with any writes lost, a successful last sync publishes the lowest failing level of the whole run |
| `StatusManager.SetFromNodes` | pkg/controller/statusmanager/node_status.go:17-35 | the ClusterNode failure is set exactly when some node is unsuccessful, with the reasons of exactly those nodes, each once; other levels stay |
| `Rollout.SyncList` | pkg/controller/statusmanager/pod_status.go:350-433 | updates the state of every watched workload and finds exactly the progressing and the hung ones |
| `Rollout.SetFromPodsForOverall` | pkg/controller/statusmanager/pod_status.go:340-447 | states, failures and published conditions of one overall sync, on the counts of the workloads: Progressing is True if and only if some watched workload is missing, has unavailable or no available pods, an unseen generation, or not all pods updated; Available is reached if and only if something is watched and none is; on Kubernetes exactly one of them is True from the overall write on |
| `Rollout.EntryIsStreakStart` | pkg/controller/statusmanager/pod_status.go:375-391 | the stored state is the beginning of the current streak |
| `Rollout.HungExactly` | pkg/controller/statusmanager/pod_status.go:378-388 | hung exactly when the streak of the current status began more than ten minutes ago |
| `Rollout.StoredIsRemembered` | pkg/controller/statusmanager/pod_status.go:452-536 | the annotation stands for the syncs since the last failed read whose writes succeeded |
| `Rollout.HungOverRuns` | pkg/controller/statusmanager/pod_status.go:340-447 | over every run of syncs, whatever reads and writes of the annotation fail, hung exactly when the streak over the remembered syncs is too old |
| `Rollout.SyncStored` | pkg/controller/statusmanager/pod_status.go:340-536 | one sync on the stored annotation: loading, working on it and storing it, each of which may fail |
| `Rollout.ReplaySyncs` | pkg/controller/statusmanager/pod_status.go:340-536 | replaying any run of syncs keeps the specified annotation, and each sync reports exactly the workloads whose streak is too old |
| `Rollout.EverythingRemembered` | pkg/controller/statusmanager/pod_status.go:452-536 | without such failures every sync counts |
| `NodeCondition.InspectContainers` | pkg/controller/statusmanager/pod_status.go:290-334 | ready exactly when there are containers and all run; the latest start and the messages |
| `NodeCondition.LatestStartIs` | pkg/controller/statusmanager/pod_status.go:321-327 | the latest start is the maximum over the running containers |
| `NodeCondition.ReadyHasStart` | pkg/controller/statusmanager/pod_status.go:177-179 | the start time is never missing when it is dereferenced |
| `NodeCondition.SetShowsStatus` | pkg/controller/statusmanager/pod_status.go:78-98 | setting a node condition shows its status, leaves other types, and an equal one changes nothing |
| `NodeCondition.Tracker.UpdateNodeStatus` | pkg/controller/statusmanager/pod_status.go:195-235 | stores a changed condition; an unreadable node is silently left alone |
| `NodeCondition.Tracker.SetNodeNetworkUnavailable` | pkg/controller/statusmanager/pod_status.go:168-193 | the grace period, the requeue delay and the re-check |
| `NodeCondition.Tracker.SetNodeConditionFromPod` | pkg/controller/statusmanager/pod_status.go:244-336 | the whole handling of a pod event, including a pod that is gone or cannot be read |
| `NodeCondition.PodDecidesExactly` | pkg/controller/statusmanager/pod_status.go:168-336 | with working calls a pod that is not outdated makes its node unavailable unless all its containers have been running for 180 seconds; one that is only too young is looked at again at the first moment it is old enough |
| `NodeCondition.PodExplains` | pkg/controller/statusmanager/pod_status.go:290-334 | the stored reason, and a message that names exactly the containers that do not run or have just started |
| `NodeCondition.MissingDecides` | pkg/controller/statusmanager/pod_status.go:117-131 | a node without an agent pod becomes unavailable |
| `NodeCondition.FailuresExactly` | pkg/controller/statusmanager/pod_status.go:148-235 | what failing calls lead to: nothing stored, an error exactly when a needed update or the check fails, and another look after two minutes when the check finds something else |
| `NodeCondition.UnknownNode` | pkg/controller/statusmanager/pod_status.go:195-235 | a pod on a node that does not exist stores nothing and fails unless it is in its grace period |
| `NodeCondition.LatestDecides` | pkg/controller/statusmanager/pod_status.go:168-336 | over every run the latest event that counts decides the condition of its node, whatever happens to others |
| `NodeCondition.StaysUnavailable` | pkg/controller/statusmanager/pod_status.go:168-336 | over every run, whatever fails, an unavailable node stays so until a pod on it has been running long enough |
| `NodeCondition.Tracker.CheckExistingAgentPods` | pkg/controller/statusmanager/pod_status.go:103-143 | runs once, over all pods or else all nodes, stops exactly at the first one whose handling fails, and counts as done only when both listings and every update worked |
| `NodeCondition.RunIsSafe` | pkg/controller/statusmanager/pod_status.go:168-336 | over every run recorded starts never decrease, and False was stored only for pods with containers that all ran for 180 seconds |
| `NodeCondition.OutdatedIgnored` | pkg/controller/statusmanager/pod_status.go:279-288 | once a pod was seen, older pods of the node change nothing for the rest of the run |
| `NodeCondition.GraceProgress` | pkg/controller/statusmanager/pod_status.go:177-193 | a young ready pod is requeued after a positive delay, and any later look at it stores False |
| `NodeTags.FilterPortsByNodeAddresses` | pkg/controller/node/node_controller.go:208-252 | the ports repeated once for each distinct matching address, an error unless all are readable and exactly one entry is left |
| `NodeTags.FilteredIsBound` | pkg/controller/node/node_controller.go:230-239 | the filtered ports are exactly the candidates with a node address bound to them |
| `NodeTags.FilteredOneExactly` | pkg/controller/node/node_controller.go:208-252 | the filter leaves one port if and only if exactly one pair of a candidate and a node address matches |
| `NodeTags.SelectedExactly` | pkg/controller/node/node_controller.go:527-546 | the only candidate is taken as it is; among several, all readable, the one port of the only matching pair |
| `NodeTags.DualStackRejected` | pkg/controller/node/node_controller.go:230-252 | the only right port is rejected when both addresses of its node are bound to it |
| `NodeTags.CompleteTags` | pkg/controller/node/node_controller.go:551-572 | appends the missing tags and updates exactly when one was missing |
| `NodeTags.CompletedIs` | pkg/controller/node/node_controller.go:550-572 | both tags and all earlier ones are there, nothing else was added, and repeating changes nothing |
| `NodeTags.AddressesAre` | pkg/controller/node/node_controller.go:470-477 | the addresses of a node that are no host names, each once, in the order of their first occurrence |
| `NodeTags.Controller.Reconcile` | pkg/controller/node/node_controller.go:428-609 | the cache, the ClusterNode failure, the tags NSX stores and the recorded successes as a function of the answers |
| `NodeTags.ProcessesExactly` | pkg/controller/node/node_controller.go:436-609 | when a Reconcile changes nothing, forgets the node, or processes it; a processed node is a success if and only if a port was selected that carries both tags or could be updated; no other entry changes and the failure says whether some node is unsuccessful |
| `NodeTags.StoresExactly` | pkg/controller/node/node_controller.go:550-596 | the tags NSX stores change only by a needed update that was sent and succeeded, and only at the selected port, which keeps its tags and carries both; a needed update that fails leaves the node unsuccessful and the failure set |
| `NodeTags.RunKeepsInv` | pkg/controller/node/node_controller.go:437-609 | over every run the ClusterNode failure is set exactly when some cached node is unsuccessful, unless tagging was switched off and nothing published since; while NSX answers what it stores, every cached success was recorded when NSX stored both tags and all earlier ones for its selected port |
| `NodeTags.SuccessesStayTagged` | pkg/controller/node/node_controller.go:478-609 | while nobody else changes the ports, at any time every cached success has a port for which NSX stores both tags, and no port has lost a tag |
| `NodeTags.NeverStale` | pkg/controller/node/node_controller.go:428-433 | while tagging is never switched off that exception never applies |
| `NodeTags.AfterToggleExactly` | pkg/controller/configmap/configmap_controller.go:240-248 | after switching off and on a Reconcile restores the failure exactly when the node is not a cached success with the same addresses, or none is due |
| `NodeTags.ToggleLosesFailure` | pkg/controller/node/node_controller.go:478-482 | the concrete run, from the start of the controller, in which it stays lost |

## Left out

- `%(name)s` interpolation by the INI library, which the immutable comparison applies to its two options; the model compares the raw values.
- Option lookup in parent sections of dotted section names, done by the INI library; no section the operator names is dotted.
- INI, JSON and YAML text, templates and manifests: the model starts from sections, objects and answers.
- `validateClusterNetwork`, CIDR and IP parsing: inputs, as per-entry checks outside the repository's own logic.
- `HasNetworkConfigChange`: it compares an object with itself, so no claim about detecting changes is made; only that the network status is always due on OpenShift.
- The time in a restart annotation: two patches are taken to differ.
- Fields of rendered objects that others own: `Apply` overwrites the whole object.
- Mirroring the ClusterOperator into ncp-install on OpenShift: a failed mirror write is not retried, so it is no run invariant.
- One clock reading per status write and per sync: the source reads the clock once for each condition and workload.
- `Reconciler.Controller.Reconcile`: does not model the filter on request names or the failures it reports to the status manager; the node-tag switch it flips is an event of `NodeTags`.
- `Canary.BuildWorkaroundPolicy`: does not model the constant names, labels and pod selector; a peer stands for its address with a prefix of 32 bits.
- `Rollout.SetFromPodsForOverall`: describes a progressing or hung workload by its name, because message texts are opaque.
- `StatusManager.Manager.Set`: on Kubernetes reads the object once, where the source reads it twice and uses the second answer.
- NSX and vSphere calls, TLS set-up, temporary files, the VM cursor loop and provider ids: answers are inputs.
- Pod log inspection and pod deletion, the manager wiring, watches, leader election and logging.
