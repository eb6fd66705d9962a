# KubeGems: verified models of its stateful core

KubeGems keeps every application as a directory of Kubernetes manifests in Git, moves applications between
deployment strategies by editing those files, isolates tenants with NetworkPolicies, promotes Argo rollouts with JSON
patches and shows running applications as resource trees. This project models those parts in Dafny and proves what they
guarantee over whole runs. `dafny verify dfyconfig.toml` checks everything.

How it is organised:

- **Manifest store.** `ManifestStore` is the class `FsStore`: a snapshot taken once, live files, and `Create`, `Get`,
  `List`, `Update`, `Patch`, `Delete`. Because reads go to the snapshot only, the writes of a transaction are a function
  of the snapshot: each method is proved against an *effect* (the writes and the error), and `Realized` says that a call
  did what its effect says. `StoreRefinement` proves when that store is a plain map, `StorePatches` what patches do,
  on the JSON values and patch semantics of `Json`.
- **Deployment strategies.** `Workloads` has the Kubernetes objects, `Strategies` the imperative code of
  `processor_deploy_strategy.go` (each method proved against `StrategySpec`), `Routes` the VirtualService loop.
  `StrategyWrites` bounds what one transaction may write, `StrategyProofs` proves ownership and undo, `StrategyRuns`
  ownership over whole runs, `StrategyRoundTrip` reading back, `StrategyResults` what a setting leaves in place, and
  `StrategyAgain` setting again. `StrategyContents` tells what is in every resource afterwards from the request alone,
  and when a setting succeeds. `Pipeline` is the pull, edit, kustomization, commit pipeline with Git revert;
  `Transactions` joins all of it in one method.
- **Tenant isolation.** `NetworkPolicy` is the reconciler; `NetworkPolicyProofs` has convergence, the meaning of the
  policies for traffic, and independence of the order of reconciles.
- **Smaller parts.** `Promotion` (rollout promotion), `ResourceTree`, `Websocket` (interleaved steps), `RateLimit`,
  `PathRef` (application names). `Dashes` and `Wrappers` are shared helpers.

Two conditions recur. `UniqueKeys`: at most one file for every resource. `FreshNames`: where one of the given resources
would be created, there is nothing but that resource; `Covers` says the given resources include those a strategy change
may create. `HarmlessExactlyWhen` shows that a setting needs no less than free files.

What the proofs brought to light about the code, with the exact condition where something fails:

- A full promote on Argo Rollouts v0.9 reports success and does nothing (`FullPromote`).
- A canary's header and URI matches are lost when the strategy is read back (`CanaryReadsBack`), and new rolling
  parameters are ignored by a Deployment that rolls already (`RollingLossless`).
- After Recreate or RollingUpdate, a Rollout the platform did not make keeps its type as the one read back
  (`RemovedParsed`).
- A VirtualService route that stands further back only reaches the front on one call and its desired form on the next;
  with two routes of the name every call writes (`TwoCallsPlace`, `NothingWritten`).
- The store differs from a plain map exactly when a create, update or delete addresses a resource that an earlier call
  of the transaction created or deleted, or a patch makes something else of the document in the snapshot than of the
  present one (`RefinesExactlyWhen`).
- A create destroys whatever its kind-name file held (`CreateOverwrites`); a setting does harm exactly when the file of
  a resource it has to create is taken (`HarmlessExactlyWhen`).
- A kustomization.yaml that is empty, or says null, crashes every update of the application
  (`InitOrUpdateKustomization`).
- A canary or blue-green setting fails on a deployment without service and container ports, before anything is written,
  and otherwise only for want of a name (`SucceedsExactlyWhen`).
- A namespace relabelled from one tenant to another keeps the former policy along every run of reconciles and deletions
  in which each tenant that has it in scope meets it by a label it did not have before; only deleting a tenant policy
  object of its former tenant label removes it (`RelabelledNamespaceStays`). When a namespace ends up as it should is
  `ConvergesExactlyWhen`.
- An application's plain full name is shared with another one exactly when one of its components holds a dash, its own
  name included; the one exception is an environment that is a single dash (`CollidesExactlyWhen`).
- Shortened names lose more: two of them agree under every digest exactly when the components run together to the same
  string and are cut to the same (`SameUnderEveryDigest`, `ShortenedCollision`), so letters may move between tenant and
  project (`BoundaryLost`).
- A websocket whose stop flag is down can be stopped exactly when, after a failed write, the callers inside `WsWrite`
  fit into the channel, and, after a failed read, those inside `WsRead` find enough messages (`StopsExactlyWhen`);
  otherwise it hangs for ever (`WedgedForever`). An ordinary disconnect while somebody waits in `WsRead` is enough
  (`DisconnectWedges`); a failing write can do it as well (`WedgeReachable`).
- The read loop sends without the lock and panics exactly when it pushes a message after the channel was closed
  (`CrashesExactlyWhen`), which can happen (`CrashReachable`). `WsWrite`, `WsRead` and `WsClose` never panic (`Safety`).

## Model

| member | source | states |
|---|---|---|
| ManifestStore.FsStore.constructor | pkg/apps/application/manifest_contentstore.go:53-69 | the snapshot is the .yaml files of the directory at opening time |
| ManifestStore.FsStore.Find | pkg/apps/application/manifest_contentstore.go:240-260 | finds a file of the key if there is one; with unique keys the one, whatever the iteration order |
| ManifestStore.FsStore.Create | pkg/apps/application/manifest_contentstore.go:71-92 | refuses empty names and resources in the snapshot, otherwise writes the document without status under its kind-name file, overwriting |
| ManifestStore.FsStore.Delete | pkg/apps/application/manifest_contentstore.go:94-100 | removes one file of the key exactly when the snapshot has one |
| ManifestStore.FsStore.ListAll | pkg/apps/application/manifest_contentstore.go:106-115 | exactly the decodable documents of the snapshot, one item for every file |
| ManifestStore.FsStore.List | pkg/apps/application/manifest_contentstore.go:117-143 | exactly the resources of one kind, one item for every file |
| ManifestStore.FsStore.Get | pkg/apps/application/manifest_contentstore.go:145-154 | a document of the key from the snapshot, not from the live files |
| ManifestStore.FsStore.Patch | pkg/apps/application/manifest_contentstore.go:156-208 | patches the snapshot's document of a file of the key into that file, or reports a bad patch and writes nothing; a missing resource is a success without effect |
| ManifestStore.FsStore.Update | pkg/apps/application/manifest_contentstore.go:210-224 | rewrites a file that holds the key, without status; not found otherwise |
| ManifestStore.FileNameInjective | pkg/apps/application/manifest_contentstore.go:71-92 | for dash-free kinds two resources share a file name if and only if lower-case kind and name agree |
| ManifestStore.FileNameIs | pkg/apps/application/manifest_contentstore.go:71-92 | the file name is the lower-case kind, a dash and the name, with neither group nor version |
| StoreRefinement.StoreRefinesMap | pkg/apps/application/manifest_contentstore.go:53-224 | a transaction with free file names and no call that depends on what the snapshot does not show leaves files that load as the map from (kind, name) to document would be left by the same calls, with the same error, and keys stay unique |
| StoreRefinement.RefinesExactlyWhen | pkg/apps/application/manifest_contentstore.go:53-224 | store and map agree call by call if and only if no call that is made is stale: no create, update or delete of a key that was created or deleted before, no patch that makes something else of the document in the snapshot than of the present one |
| StoreRefinement.FirstPatchSeen | pkg/apps/application/manifest_contentstore.go:156-208 | a patch that is the first call on its key is never stale |
| StoreRefinement.AgreesByChance | pkg/apps/application/manifest_contentstore.go:71-92 | comparing only the end would not do: after a call that is answered wrongly, store and map may still end alike |
| StoreRefinement.ViewShows | pkg/apps/application/manifest_contentstore.go:53-69 | every directory with unique keys loads as such a map |
| StoreRefinement.SecondCreateUnseen | pkg/apps/application/manifest_contentstore.go:71-92 | for example, of two creates of one resource in an empty store the second succeeds where the map reports a conflict |
| StorePatches.StoreDropsStatus | pkg/apps/application/manifest_contentstore.go:262-274 | no file any store call writes has a top-level status |
| StorePatches.KeyReads | pkg/apps/application/manifest_contentstore.go:240-260 | a document is known by its apiVersion, kind and name alone |
| StorePatches.StatusPatchIgnored | pkg/apps/application/manifest_contentstore.go:156-208 | a merge patch of the status alone leaves the directory with a status-free manifest as it was |
| StorePatches.MergeTwiceIsOnce | pkg/apps/application/manifest_contentstore.go:156-208 | any merge patch in two successive transactions equals the patch in one, even if it renames the resource or fails |
| StorePatches.MergePatched | pkg/apps/application/manifest_contentstore.go:156-208 | a merge patch applies exactly if the result decodes; then what it gives stands in the file, where it says null there is nothing, and wherever it does not go everything but the status is as before |
| StorePatches.RollbackFrame | pkg/apps/application/deploy_strategy_ctrl.go:152-166 | a rollback succeeds if and only if the manifest has a template and the result decodes; the value sent lacks the two revision labels and is otherwise the given template; every path that diverges from spec.template, but the status, is as before, and on failure everything is |
| StorePatches.RolledBack | pkg/apps/application/deploy_strategy_ctrl.go:145-166 | in the manifest after a successful rollback neither revision label is in the template, and every path below spec.template that diverges from them reads as in the target revision |
| Json.MergeIdempotent | pkg/apps/application/manifest_contentstore.go:156-208 | merge patches (section 2 of RFC 7396) are idempotent |
| Json.MergeSets | pkg/apps/application/manifest_contentstore.go:156-208 | a value that is neither null nor an object stands at its path after the merge |
| Json.MergeRemoves | pkg/apps/application/manifest_contentstore.go:156-208 | where the patch says null the merge leaves nothing |
| Json.MergeKeeps | pkg/apps/application/manifest_contentstore.go:156-208 | where the patch does not go the merge leaves everything as it was |
| Json.ReplaceAt | pkg/apps/application/deploy_strategy_ctrl.go:152-166 | replace (section 4.3 of RFC 6902) succeeds exactly on existing paths and stores the value there |
| Json.ReplaceFrame | pkg/apps/application/deploy_strategy_ctrl.go:152-166 | replace leaves every diverging path alone |
| Strategies.DefaultAnalysisArgs | pkg/apps/application/processor_deploy_strategy.go:334-351 | blank service-name and namespace arguments get their defaults, every other argument stays |
| Strategies.FilterLabels | pkg/apps/application/processor_deploy_strategy.go:525-615 | the service selector is the pod labels without the Istio version label |
| Strategies.CollectPorts | pkg/apps/application/processor_deploy_strategy.go:525-615 | the service ports are those of all containers, in order |
| Strategies.CompleteCanarySteps | pkg/apps/application/processor_deploy_strategy.go:397-406 | at least two steps, the user's steps being a prefix |
| Strategies.CreateIfNotExist | pkg/apps/application/processor_deploy_strategy.go:617-626 | creates the resource unless the snapshot has it, and reports what it has |
| Strategies.CopyServices | pkg/apps/application/processor_deploy_strategy.go:525-615 | the copies are created up to the first error, each unless present or the stable service itself; an existing copy lends its labels, annotations and finalizers to the copies after it |
| Strategies.EnsureDeploymentServices | pkg/apps/application/processor_deploy_strategy.go:525-615 | the stable service is read or made from the pod template (an error without ports), then copied under the other names |
| Strategies.PrepareCanaryIstioRollout | pkg/apps/application/processor_deploy_strategy.go:409-523 | a new VirtualService with the canary route first, or the existing one with its route list rewritten only if that changes it |
| Strategies.FillInCanary | pkg/apps/application/processor_deploy_strategy.go:353-377 | service names, steps, analysis arguments, route names as the defaults demand |
| Strategies.PrepareCanaryRollout | pkg/apps/application/processor_deploy_strategy.go:353-392 | services first, routing only after they succeeded |
| Strategies.PrepareBlueGreenRollout | pkg/apps/application/processor_deploy_strategy.go:309-327 | the services for the completed active and preview names |
| Strategies.EnsureRollout | pkg/apps/application/processor_deploy_strategy.go:629-690 | a new annotated rollout with the deployment's replicas, or the existing one with its own metadata and replicas and the rest of the spec replaced |
| Strategies.CleanRollout | pkg/apps/application/processor_deploy_strategy.go:292-307 | with unique keys removes exactly the files of resources generated for a rollout |
| Strategies.ConfigForArgoRollout | pkg/apps/application/processor_deploy_strategy.go:263-289 | canary and blue-green prepare and then ensure the rollout, everything else cleans up |
| Strategies.ConfigForDeployment | pkg/apps/application/processor_deploy_strategy.go:201-221 | the deployment is written only when its strategy type changes; it then has the requested strategy, and metadata, replicas, selector, template, the rest and the status stay |
| Strategies.ParseMainDeployment | pkg/apps/application/helper.go:156-167 | the deployment if and only if exactly one file holds one |
| Strategies.PrepareDeploymentStrategy | pkg/apps/application/processor_deploy_strategy.go:179-199 | the whole edit, error or not, is the effect computed from the snapshot |
| Strategies.ParseUpdateStrategy | pkg/apps/application/processor_deploy_strategy.go:223-261 | the strategy is read from the rollout of the deployment's name, without one from the deployment |
| Routes.PlaceRoute | pkg/apps/application/processor_deploy_strategy.go:487-522 | the in-place loop computes the route list and the update flag of the specification |
| Routes.OthersKept | pkg/apps/application/processor_deploy_strategy.go:487-522 | all routes of other names stay, in their order, however often the target's name occurs |
| Routes.PlacedSorts | pkg/apps/application/processor_deploy_strategy.go:487-522 | the outcome for any list: first the routes of the name, in reverse order, the target in place of one that stood in front, then all others in their order; the target alone in front if the name is missing |
| Routes.PlacedOnce | pkg/apps/application/processor_deploy_strategy.go:487-522 | with the name at most once: inserted in front, replaced in front, or moved to the front as it was |
| Routes.TwoCallsPlace | pkg/apps/application/processor_deploy_strategy.go:435-522 | two calls always put the desired route in front, and a third writes nothing |
| Routes.NothingWritten | pkg/apps/application/processor_deploy_strategy.go:487-522 | nothing is written if and only if the target is in front and its name occurs nowhere else |
| StrategyWrites.StrategyLawful | pkg/apps/application/processor_deploy_strategy.go:179-690 | every write creates an annotated resource at its own file, rewrites the deployment, rollout or VirtualService in place with its metadata, or removes an annotated resource |
| StrategyWrites.Ownership | pkg/apps/application/processor_deploy_strategy.go:292-307 | for any sequence of such writes, file by file, what may be gone, changed or new |
| StrategyWrites.ReadFinal | pkg/apps/application/manifest_contentstore.go:53-224 | after any such writes each key reads as its last write left it, although one transaction may write a key more than once |
| StrategyProofs.TidyKept | pkg/apps/application/processor_deploy_strategy.go:179-199 | unique keys and free file names survive every strategy change, successful or not |
| StrategyProofs.StrategyOwnership | pkg/apps/application/processor_deploy_strategy.go:179-690 | no file without the annotation is deleted; a file changes only if it holds the deployment, the rollout of its name or the routed VirtualService; every new file carries the annotation |
| StrategyProofs.CreateOverwrites | pkg/apps/application/manifest_contentstore.go:71-92 | a successful create leaves every file as it was if and only if its kind-name file is free |
| StrategyProofs.CleanAfter | pkg/apps/application/processor_deploy_strategy.go:201-221 | a removing setting leaves the directory without its generated files and with the deployment rewritten only if its type changes |
| StrategyProofs.RunKeeps | pkg/apps/application/processor_deploy_strategy.go:179-199 | along any run of canary and blue-green settings every original file but the index stays and everything else is annotated |
| StrategyProofs.Undo | pkg/apps/application/processor_deploy_strategy.go:179-327 | after any such run a RollingUpdate or Recreate setting restores every original file, but for the index and, if its type had to change, the deployment, which changes in nothing but strategy and status |
| StrategyRuns.RunOwnership | pkg/apps/application/processor_deploy_strategy.go:179-690 | over any run of settings of all kinds, failed ones included, through the pipeline: no file without the annotation is ever deleted, one changes only if a setting targets its resource, which keeps key and metadata, and every new file but the index carries the annotation |
| StrategyRuns.RunKeepsDeployment | pkg/apps/application/processor_deploy_strategy.go:201-221 | along any run of settings of all kinds the deployment changes in nothing but its strategy and its status |
| StrategyRuns.RunKeepsIndex | pkg/apps/application/helper.go:48-95 | along any such run the index keeps everything but its list of resources, common labels and annotations, and keeps the header it has |
| StrategyRoundTrip.TemporaryParsed | pkg/apps/application/processor_deploy_strategy.go:223-289 | after a successful canary or blue-green setting exactly the completed strategy reads back |
| StrategyRoundTrip.RemovedParsed | pkg/apps/application/processor_deploy_strategy.go:201-261 | after RollingUpdate or Recreate the type reads back if and only if the deployment was not generated and no foreign rollout of its name exists |
| StrategyRoundTrip.CanarySteps | pkg/apps/application/processor_deploy_strategy.go:397-406 | a canary that reads back has at least two steps, the user's first |
| StrategyRoundTrip.CanaryReadsBack | pkg/apps/application/deploy_strategy_struct.go:31-50 | a canary reads back as completed if and only if it adds no header, URI or case matches |
| StrategyRoundTrip.RollingLossless | pkg/apps/application/processor_deploy_strategy.go:201-221 | the rolling parameters read back if and only if the type changed or they were the same |
| StrategyRoundTrip.ReadyKept | pkg/apps/application/processor_deploy_strategy.go:179-199 | a rollout of the deployment's name that is annotated, or absent, at the start stays so; so do the deployment's metadata |
| StrategyRoundTrip.SetReadsBack | pkg/apps/application/processor_deploy_strategy.go:179-289 | through the pipeline, each of the four strategies reads back after it was set |
| StrategyRoundTrip.RunStaysReady | pkg/apps/application/processor_deploy_strategy.go:179-199 | any run of settings keeps the directory ready under the same name |
| StrategyRoundTrip.RunReadsBack | pkg/apps/application/processor_deploy_strategy.go:179-289 | after any run, the next strategy reads back |
| StrategyResults.ServicesAfter | pkg/apps/application/processor_deploy_strategy.go:525-615 | after a successful canary or blue-green setting every service the strategy names exists |
| StrategyResults.NewServices | pkg/apps/application/processor_deploy_strategy.go:525-615 | every service such a setting adds sends to the same ports of the same pods as the stable service |
| StrategyResults.RolloutAfter | pkg/apps/application/processor_deploy_strategy.go:629-690 | after a successful setting the rollout carries the wanted strategy and refers to the deployment; an existing one keeps metadata and replicas, a new one is annotated and has the deployment's replicas |
| StrategyResults.RouteAfter | pkg/apps/application/processor_deploy_strategy.go:409-523 | after a successful routed canary setting the VirtualService is there, with its former routes placed once more |
| StrategyResults.HarmlessExactlyWhen | pkg/apps/application/processor_deploy_strategy.go:353-690 | a successful canary or blue-green setting destroys no file and leaves every resource it depends on in place if and only if the file of each resource it has to create is free |
| StrategyAgain.TemporaryTwice | pkg/apps/application/processor_deploy_strategy.go:263-289 | without Istio routing, setting a canary or blue-green strategy twice equals setting it once, file by file |
| StrategyAgain.RoutedThrice | pkg/apps/application/processor_deploy_strategy.go:409-523 | with Istio routing, setting three times equals setting twice, file by file, and after two the wanted route comes first |
| StrategyAgain.RemovedTwice | pkg/apps/application/processor_deploy_strategy.go:292-307 | the same for RollingUpdate, Recreate and everything else |
| StrategyContents.CompletedCanary | pkg/apps/application/processor_deploy_strategy.go:353-406 | what a canary request leaves open is filled in: service names, two steps at least, the canary service and the namespace as analysis arguments, names of VirtualService and route; everything else stays as asked for |
| StrategyContents.CompletedBlueGreen | pkg/apps/application/processor_deploy_strategy.go:309-351 | the same for a blue-green request, with the preview service in the analysis |
| StrategyContents.RolloutFollows | pkg/apps/application/processor_deploy_strategy.go:629-690 | the rollout after a successful setting carries exactly the completed request |
| StrategyContents.ReadsAsIs | pkg/apps/application/processor_deploy_strategy.go:223-261 | any directory reads back as its rollout stands, a canary before a blue-green one, or without a rollout as its deployment stands |
| StrategyContents.ReadBackContents | pkg/apps/application/processor_deploy_strategy.go:223-289 | after a canary or blue-green setting through the pipeline the completed request reads back, without matches |
| StrategyContents.RemovesMarked | pkg/apps/application/processor_deploy_strategy.go:292-307 | a setting that removes takes away exactly the files whose resource carries the annotation with its value, and adds none |
| StrategyContents.ServiceContents | pkg/apps/application/processor_deploy_strategy.go:525-615 | a new service of the deployment's name has all pod labels but the version as its selector and forwards every container port in order; any other new service is a copy of that service, marked, with what an existing copy left in shared labels, annotations and finalizers |
| StrategyContents.RoutingContents | pkg/apps/application/processor_deploy_strategy.go:435-522 | a new VirtualService is for the stable service and has the canary route, 100 to stable and 0 to canary, with a match exactly if headers or a URI were asked for, before a plain one; an existing one keeps everything but its routes |
| StrategyContents.RoutedTwice | pkg/apps/application/processor_deploy_strategy.go:409-523 | after two settings that canary route is in front in any case, and an existing VirtualService is otherwise what it was |
| StrategyContents.SucceedsExactlyWhen | pkg/apps/application/processor_deploy_strategy.go:353-690 | a canary or blue-green setting succeeds if and only if the deployment's service is there or a container declares a port, and every resource to be created has a name; without a port nothing is written |
| Pipeline.KustomizeAgrees | pkg/apps/application/helper.go:48-95 | the index comes to list exactly the other .yaml files, once each, without common labels or annotations, if and only if it does not decode to null; no other file is touched |
| Pipeline.KustomizeCarries | pkg/apps/application/helper.go:48-95 | everything else the index says, like images and patches, and the header it has, is carried over; a missing header is filled in |
| Pipeline.ResourceFileIs | pkg/apps/application/helper.go:59-77 | every file ending in .yaml but the index counts as a resource |
| Pipeline.IndexableIs | pkg/apps/application/helper.go:59-83 | only an index that decodes to null is in the way of the update |
| Pipeline.KustomizedFixed | pkg/apps/application/helper.go:48-95 | updating the index changes nothing if and only if it agrees with the files already, or decodes to null |
| Pipeline.Repository.Scan | pkg/apps/application/helper.go:59-77 | splits the listing into the resource files and the readable index |
| Pipeline.Repository.InitOrUpdateKustomization | pkg/apps/application/helper.go:48-95 | completes if and only if the index is absent or does not decode to null, and crashes without writing otherwise; an empty application gets no index; the rest of the index and its header are carried over |
| Pipeline.Repository.Commit | pkg/apps/application/processor_repository.go:83-95 | a commit only with a message and a change |
| Pipeline.Repository.UpdateKustomizeCommit | pkg/apps/application/processor_repository.go:97-110 | unless it crashes, the tree agrees with its index, which carries over the rest of the former one, and that tree is what is committed |
| Pipeline.Repository.UpdateContentFunc | pkg/apps/application/processor_manifest.go:59-65 | a failed edit or a crash commits nothing; otherwise the index agrees, carries over the rest of the one edited, and the last commit is the tree; all commits made here agree |
| Pipeline.Repository.Remove | pkg/apps/application/processor_manifest.go:232-238 | a removed application leaves no files, not even an index, and that is committed |
| Pipeline.Repository.GitRevert | pkg/apps/application/manifest_files.go:293-308 | reverting to a commit of this pipeline succeeds and gives back exactly its files; an older one comes back if and only if its index agreed, and crashes if it decodes to null |
| Pipeline.Repository.Restore | pkg/apps/application/manifest_files.go:293-308 | the commit's files with their index brought up to date, committed unless the index decodes to null |
| Pipeline.Repository.Revert | pkg/apps/application/manifest_files.go:310-330 | the tree is exactly the commit's files |
| Transactions.SetStrategy | pkg/apps/application/processor_deploy_strategy.go:179-199 | store, edit, index and commit together: the tree and the outcome are the specified ones, it is committed exactly on success and change, and the strategy reads back |
| Transactions.ReadStrategy | pkg/apps/application/processor_deploy_strategy.go:223-261 | a fresh store reads the strategy of the current tree |
| NetworkPolicy.PolicyObject.constructor | pkg/controller/controllers/controller_utils.go:73-116 | the default policy: everything outside the pod network, the plugins, and a rule still without selectors |
| NetworkPolicy.PolicyObject.AddNamespaceSelector | pkg/controller/controllers/controller_utils.go:153-162 | adds a requirement unless its key is there; policies of another shape stay |
| NetworkPolicy.PolicyObject.DelNamespaceSelector | pkg/controller/controllers/controller_utils.go:118-132 | takes out the last requirement of the key and nothing else; the other rules and peers stay |
| NetworkPolicy.FoldKnown | pkg/controller/controllers/tenantnetworkpolicy_controller.go:160-179 | folding all labelled passes gives, for each namespace, the three flags its labels call for, and nothing for a namespace out of scope |
| NetworkPolicy.Reconciler.PoliciesByNamespace | pkg/controller/controllers/tenantnetworkpolicy_controller.go:223-226 | the last listed policy for every namespace that has one |
| NetworkPolicy.Reconciler.HandleRelatedObjectList | pkg/controller/controllers/tenantnetworkpolicy_controller.go:212-252 | one pass adds what it learns to every namespace it meets and leaves the others, in any listing order |
| NetworkPolicy.Reconciler.Prepare | pkg/controller/controllers/tenantnetworkpolicy_controller.go:181-192 | one selector for every enabled level, in order, on the default policy |
| NetworkPolicy.Reconciler.Plan | pkg/controller/controllers/tenantnetworkpolicy_controller.go:193-208 | create, update or delete; a listed policy of an isolated namespace is always updated |
| NetworkPolicy.Reconciler.RunProjectPasses | pkg/controller/controllers/tenantnetworkpolicy_controller.go:169-173 | the status map after all project passes |
| NetworkPolicy.Reconciler.RunEnvironmentPasses | pkg/controller/controllers/tenantnetworkpolicy_controller.go:175-179 | the status map after all environment passes |
| NetworkPolicy.Reconciler.HandleStatusMap | pkg/controller/controllers/tenantnetworkpolicy_controller.go:160-210 | one action for exactly the namespaces in scope, as their flags and labels call for |
| NetworkPolicy.Reconciler.Apply | pkg/controller/controllers/tenantnetworkpolicy_controller.go:125-144 | one action changes only the default policy of its namespace; failed calls leave it |
| NetworkPolicy.Reconciler.ApplyAll | pkg/controller/controllers/tenantnetworkpolicy_controller.go:125-144 | all actions, in any order of the map, settle all namespaces in scope |
| NetworkPolicy.Reconciler.DeleteLabelled | pkg/controller/controllers/tenantnetworkpolicy_controller.go:103-112 | exactly the policies with the tenant's label go |
| NetworkPolicy.Reconciler.Reconcile | pkg/controller/controllers/tenantnetworkpolicy_controller.go:77-151 | a missing tenant policy changes nothing, a deleted one cleans up, any other one settles the cluster |
| NetworkPolicyProofs.ReconcileIdempotent | pkg/controller/controllers/tenantnetworkpolicy_controller.go:119-151 | a second reconcile changes no policy, whatever policies the cluster started with |
| NetworkPolicyProofs.Convergence | pkg/controller/controllers/tenantnetworkpolicy_controller.go:119-252 | in a managed cluster one reconcile leaves a default policy in exactly the isolated namespaces in scope, with contents fixed by flags and labels, touches no other policy, and keeps the cluster managed |
| NetworkPolicyProofs.ConvergesExactlyWhen | pkg/controller/controllers/tenantnetworkpolicy_controller.go:193-252 | in any cluster, a namespace ends as it should if and only if its policy was right already or the policy and the labels on policies do not disagree |
| NetworkPolicyProofs.UnseenStays | pkg/controller/controllers/tenantnetworkpolicy_controller.go:103-252 | a default policy that no tenant's pass lists and no deletion matches stays as it is along any run of reconciles and deletions |
| NetworkPolicyProofs.RelabelledNamespaceStays | pkg/controller/controllers/tenantnetworkpolicy_controller.go:103-252 | an isolated namespace whose labels change keeps its former policy along any run in which every tenant that has it in scope meets it by a label it did not have before and no policy object of its former tenant label is deleted; such a deletion, and no other, removes it |
| NetworkPolicyProofs.DesiredAdmits | pkg/controller/controllers/controller_utils.go:73-116 | what the generated policy admits: outside the pod network, plugins, and namespaces agreeing on every enabled level |
| NetworkPolicyProofs.Traffic | pkg/controller/controllers/tenantnetworkpolicy_controller.go:181-192 | after a reconcile, in-cluster traffic reaches an isolated namespace if and only if its source has the plugins label or agrees on every enabled level, or a policy of someone else admits it |
| NetworkPolicyProofs.TrafficByLabels | pkg/controller/controllers/tenantnetworkpolicy_controller.go:160-208 | the same told from spec and labels alone: on every level a namespace is isolated on, the source must have its label; the policy carries exactly the three common labels of its namespace |
| NetworkPolicyProofs.OpenTraffic | pkg/controller/controllers/tenantnetworkpolicy_controller.go:193-208 | a namespace of the tenant that no level isolates is as open as the policies of others leave it |
| NetworkPolicyProofs.TrafficMonotone | pkg/controller/controllers/controller_utils.go:144-162 | further levels never let more in, and namespaces sharing all three labels are never cut off |
| NetworkPolicyProofs.ScopesDisjoint | pkg/controller/controllers/tenantnetworkpolicy_controller.go:160-179 | if label values belong to one tenant each, no namespace is in two tenants' scope |
| NetworkPolicyProofs.RunIsLocal | pkg/controller/controllers/tenantnetworkpolicy_controller.go:77-151 | after any run of reconciles a namespace is as if only its own tenant had been reconciled, once |
| NetworkPolicyProofs.OrderIrrelevant | pkg/controller/controllers/tenantnetworkpolicy_controller.go:77-151 | any two runs that reconcile every tenant at least once end in the same policies |
| Promotion.LiveRollout.PatchStatus | pkg/apps/application/deploy_strategy_ctrl.go:191-199 | the status becomes the merge of the old one, every other member stays whatever the patch says of it; without the subresource nothing changes |
| Promotion.LiveRollout.Patch | pkg/apps/application/deploy_strategy_ctrl.go:200-206 | every member becomes its merge, except that the status stays where it has an endpoint of its own |
| Promotion.LiveRollout.PromoteRollout | pkg/apps/application/deploy_strategy_ctrl.go:179-208 | the order of patches, and the fallback to the unified patch |
| Promotion.PathsAgree | pkg/apps/application/deploy_strategy_ctrl.go:191-243 | the status and spec patches and the one unified patch lead to the same rollout state, the next abstract step |
| Promotion.FullPromote | pkg/apps/application/deploy_strategy_ctrl.go:210-218 | a full promote marks the rollout exactly when hashes differ and there is a status subresource; without one nothing changes |
| Promotion.PromoteMeans | pkg/apps/application/deploy_strategy_ctrl.go:210-259 | for any rollout, with steps or without: unpaused, pause conditions cleared, and the index advanced only where there were none and there are steps, at most to the end |
| Promotion.PromotedDocument | pkg/apps/application/deploy_strategy_ctrl.go:210-259 | the same told from the documents, member by member |
| Promotion.PromoteProgress | pkg/apps/application/deploy_strategy_ctrl.go:210-259 | each promote clears pause conditions or advances by one, never both; the measure falls until zero, where promoting changes nothing but a stray pause flag |
| Promotion.PromotesStand | pkg/apps/application/deploy_strategy_ctrl.go:210-259 | where a canary stands after any number of promotes, never past its last step |
| Promotion.PromoteFrame | pkg/apps/application/deploy_strategy_ctrl.go:168-208 | promoting writes the pause flag and three status members and nothing else, by either path |
| ResourceTree.FillTreeNodeChildren | pkg/apps/application/deploy_argocd.go:497-516 | ends if no cycle is reachable, and unfolds the node: one child for every time a node names it as a parent, all the way down |
| ResourceTree.SameReference | pkg/apps/application/deploy_argocd.go:518-520 | two references denote the same resource if and only if they differ in nothing but the version |
| ResourceTree.GrowRoots | pkg/apps/application/deploy_argocd.go:445-465 | the loop over the nodes builds one tree for every node without parents, in listing order |
| ResourceTree.GetChildren | pkg/apps/application/deploy_argocd.go:445-465 | one tree for every node without parents, with its sync status, in some order |
| ResourceTree.FilledIsCycleFree | pkg/apps/application/deploy_argocd.go:497-516 | the termination condition is necessary: a finite tree exists only if no cycle is reachable from its node |
| ResourceTree.ForestIsCycleFree | pkg/apps/application/deploy_argocd.go:445-465 | the same for the whole forest |
| ResourceTree.OccurrencesArePaths | pkg/apps/application/deploy_argocd.go:497-520 | a node occurs in a tree as often as there are reference paths to it from the tree's node |
| ResourceTree.ForestOccurrences | pkg/apps/application/deploy_argocd.go:445-520 | a node occurs in the forest as often as there are reference paths to it from nodes without parents |
| Websocket.Safety | pkg/agent/ws/websocket.go:82-140 | under every interleaving no WsWrite sends on a closed channel and no WsClose closes one twice, what was delivered is a prefix of what WsWrite accepted, and what the read loop pushed is what WsRead handed out followed by what is in the channel |
| Websocket.Delivery | pkg/agent/ws/websocket.go:49-124 | in every run what is accepted is exactly what the callers passed to WsWrite, in the order of their sends, and what is delivered is a prefix of that; what WsRead hands out is a prefix of what was read from the connection, with the exit command before a message that says close |
| Websocket.LoopEndsExactlyWhen | pkg/agent/ws/websocket.go:82-102 | the write loop has ended if and only if it found its context cancelled, not over a nil message or a failed write |
| Websocket.StopIsFinal | pkg/agent/ws/websocket.go:104-140 | once the stop flag is up no write is accepted and no WsRead is handed a message, whoever was inside |
| Websocket.CrashesExactlyWhen | pkg/agent/ws/websocket.go:49-80 | a run panics in the read loop if and only if it pushes a message after inChan was closed |
| Websocket.CrashPossibleExactlyWhen | pkg/agent/ws/websocket.go:49-80 | once inChan is closed a panic is still possible if and only if the read loop is in a read or holds a message it has not pushed |
| Websocket.CrashReachable | pkg/agent/ws/websocket.go:49-80 | such a panic is reachable from the start |
| Websocket.StopsExactlyWhen | pkg/agent/ws/websocket.go:49-140 | while the flag is down some run stops the connection if and only if, after a failed write, the callers inside WsWrite that have not sent yet fit into the channel, and, after a failed read, the channel holds enough for the callers inside WsRead |
| Websocket.WedgedForever | pkg/agent/ws/websocket.go:49-124 | otherwise no run of any threads ever stops the connection; after a failed write nothing is written to it again, after a failed read nothing comes in |
| Websocket.WedgeReachable | pkg/agent/ws/websocket.go:82-113 | a failing write with a full channel and a caller inside WsWrite is reachable from the start |
| Websocket.DisconnectWedges | pkg/agent/ws/xterm.go:45-55 | a read that fails while somebody waits in WsRead, as a terminal session does, hangs the connection |
| RateLimit.RateLimitWriter.constructor | pkg/agent/apis/pod.go:613-619 | the burst is ten seconds' worth of tokens |
| RateLimit.RateLimitWriter.Send | pkg/agent/apis/pod.go:579-611 | nothing of a chunk is sent unless the tokens for all of it were granted |
| RateLimit.RateLimitWriter.WritePages | pkg/agent/apis/pod.go:579-611 | the whole bursts go out in order, as far as they go |
| RateLimit.RateLimitWriter.Write | pkg/agent/apis/pod.go:579-611 | the count is the bytes delivered and these are that prefix of the input; success means all; no request exceeds the burst; every byte was paid for, and on success the tokens asked for sum to the length |
| PathRef.ShortStrWithHashPrefix | pkg/apps/application/pathref.go:97-113 | eight digest characters and the cut components, each after a dash |
| PathRef.CutBound | pkg/apps/application/pathref.go:97-113 | the cut components fit their budget |
| PathRef.FullName | pkg/apps/application/pathref.go:71-95 | at most 53 bytes for all components, the plain join whenever that fits, otherwise digest and tail |
| PathRef.ShortenedIs | pkg/apps/application/pathref.go:71-113 | a name that does not fit, spelled out byte by byte: the digest, the first three bytes of tenant, project and environment, and the name, cut to 32 bytes if it has to be |
| PathRef.JoinedInjective | pkg/apps/application/pathref.go:71-95 | the plain join is injective on dash-free tenants, projects and environments, an empty environment meaning the base one |
| PathRef.CollidesExactlyWhen | pkg/apps/application/pathref.go:71-95 | another application has the same plain join if and only if tenant, project, name or environment holds a dash, an environment that is a single dash not counting |
| PathRef.SameUnderEveryDigest | pkg/apps/application/pathref.go:71-113 | two shortened names agree under every digest if and only if the hashed strings and the tails are equal |
| PathRef.ShortenedCollision | pkg/apps/application/pathref.go:71-113 | with dash-free tenants, projects and environments that is: the components run together to the same string and each is cut to the same |
| PathRef.BoundaryLost | pkg/apps/application/pathref.go:71-113 | for example, one letter moved from the project to the tenant gives another application the same shortened name under every digest |

## Left out

- HTTP handlers, database, Argo, Harbor, Loki, Prometheus and Jaeger clients, command-line wiring: I/O around this core.
- Lower-casing of kinds outside ASCII; kinds are identifiers.
- Git, YAML and JSON libraries: a file is its decoded object, pull and push succeed, a listing is a fixed order on
  names, concurrent pushes are not modelled.
- Decoding: whether a patched document decodes into its type is a parameter; a `Rollout` or `Service` is modelled by the
  fields the code looks at, everything else is carried along.
- DatabseProcessor.SyncDeploies, the environment, tenant, gateway and quota reconcilers, connection pools: not needed by
  the properties here.
- OnClose callbacks of a websocket and the decoding in its terminal handler. A waiting writer does not hold up new
  readers in the model, as it does in Go; the runs that stop a connection need no new readers.
- ResourceTree.GetChildren: the comparator of creation times is not a strict order, so of the sorted list only its
  elements are modelled, not their order.
- MD5: the digest is any function to eight characters, so nothing is claimed about collisions of the digest itself.
- Strategies.EnsureDeploymentServices: the maps shared between service objects are modelled, except that a map that is
  present but empty is taken for a missing one, which is not shared.
- NetworkPolicy.Reconciler.Plan: DeepDerivative compares rules by equality, a stricter reading of that branch; the branch
  is never taken, since prepared policies have no labels.
- NetworkPolicy.Reconciler.Reconcile: errors of the API server other than conflicts and missing objects, owner
  references and other holders of finalizers are left out; a node without readable addresses panics and is left out.
- NetworkPolicyProofs.Traffic: addresses are IPv4 and CIDRs are ranges.
- RateLimit.RateLimitWriter.Write: excludes the division by zero that a burst of zero causes on a write that is not empty.
- Pipeline.Repository.UpdateContentFunc: the edit is given by the files it leaves, not by a callback.
- Pipeline.Repository.InitOrUpdateKustomization: of kustomize's fix-ups only the header and the folding of bases; an index
  that fails to decode counts as empty, although decoding may have filled in some fields.
- StrategyAgain.TemporaryTwice: excludes Istio routing, where a second call may still move the route to its place;
  `RoutedThrice` is the statement for it.
- StrategyProofs.Undo: the final setting is RollingUpdate or Recreate; the undo endpoint of the rollout controls is only
  modelled through its patch (`RollbackFrame`).
- What survives a crash of a request besides the files: locks, pools and other requests.
- Waiting for rollouts, timeouts and clocks.
