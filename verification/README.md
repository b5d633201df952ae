# Verified models of five programs

Dafny models of the five programs of this repository that hold real state machines or algorithms, with proofs of what
they promise and, where a promise fails, of exactly when it holds.

- **NFSProvisioner controller** (`nfs_*.dfy`). The API server is one shared state: an object store, the custom resource
  with resource version, finalizers and deletion mark, and calls that may fail. The controller is a machine that makes
  one API call per step (`NfsController`); a run interleaves its steps with actions of other clients. The imperative
  reconcile of `NfsReconciler` is proved to do what the machine does and to be a run of it (`ReconcileIsRun`), so the
  properties of runs are properties of the code. `NfsSafety`: what every run keeps. `NfsProgress`, `NfsDeletion`: where
  reconciles lead and what they report. `NfsLive`, `NfsStorage`: what the store looks like on the way. `NfsManifest`: what
  is built, in the terms of its users.
- **Upgrade-graph pruner** (`upgrade_graph.dfy`, `upgrade_script.dfy`). The nested colouring loops over one file per
  channel, refined to recursive functions, and what those leave of the graph.
- **Blue-green pipeline** (`bluegreen.dfy`). The stages as a machine over route, tags and deployments, with outside
  builds and rollouts, and the Jenkinsfile as straight-line code.
- **Memcached reconciler** (`memcached.dfy`). Many resources, one work queue, drift correction, status.
- **Percent-encoder and decoder** (`urlcode.dfy`). The encoder loop, the decoder as two rewrites and `printf '%b'`.

Check everything with `dafny verify dfyconfig.toml`.

## Assumptions

- NFS: one custom resource; reconciles are serial. A write may be refused, or take effect while its reply is lost; an
  Update over a stale resource version fails; a Create of a taken key fails; a marked resource disappears with its last
  finalizer. The API server files cluster-scoped objects without a namespace, although the builder of the security
  context constraints sets one. `AddFinalizer` appends a missing finalizer, `RemoveFinalizer` removes every occurrence.
- NFS: a Get tells the truth, which includes NotFound, or fails with another error (`ReadError`). Finalizer safety
  excludes that error for the two Gets of the cleanup, and other clients who create the two cluster objects or take our
  finalizer off. The frame of the controller's calls excludes nothing.
- NFS: the order of creation, the references and the storage are about a resource whose spec others leave alone. For the
  first two the resource is live, and others also keep off the controller's own objects; for the references nobody
  deletes the claim, for the storage nobody creates it either.
- Pruner: a channel lists no edge twice, gives every version one node, and its targets are sorted without repetition.
- Pipeline: runs are serial; `route-backends` makes the first backend primary; `openshiftTag` copies the image `latest`
  stands for; an approval is about what the deployment of the colour serves at that moment.
- Memcached: the order in which pods are listed does not change while pods do not.

## Findings

Each of these is proved; the code is modelled as it is.

- A `spec.Pvc` that names no existing claim (against 7.nfsprovisioner_type.go:29) makes the controller create
  `nfs-server`; from then on every reconcile whose Gets tell the truth fails at that Create. (A failed Get of the claim
  passes it over, by `NfsDeletion.ReadErrorInCreatePhase`.) Convergence and deletion both stop
  (`NfsProgress.Converges`, `NfsDeletion.BlockedReconcile`, `NfsDeletion.DeletionProgressExact`), and the first
  faultless reconcile leaves a Deployment that mounts the missing claim (`NfsLive.DanglingMount`, `NfsLive.ReferencesExact`).
- A Get error in `deleteExternalResources` skips the Delete, and the finalizer is cleared all the same
  (`NfsDeletion.CleanupExact`, `NfsDeletion.ReadErrorLeaks`).
- A marked resource whose spec is rejected is never released: 5.full_finished_controller.go:112-123 returns before the
  deletion is looked at (`NfsDeletion.RejectedNeverReleased`).
- A Get error in the create phase passes a missing object over unless it is one of the four RBAC kinds
  (`NfsDeletion.ReadErrorInCreatePhase`). Which such errors break the order of creation, the references between objects
  and the storage: `NfsLive.ReadErrorPrefixExact`, `NfsLive.ReadErrorReferencesExact`, `NfsStorage.ReadErrorStorageExact`;
  failing runs: `NfsLive.PrefixNeedsReads`, `NfsLive.ReferencesNeedReads`.
- A resource kept alive by a foreign finalizer gets its cluster objects back (`NfsDeletion.StaysCleanExact`).
- `EXT` is not reset between channels, and self-loops on a path are deleted (`UpgradeScript.ChannelExact`,
  `UpgradeGraph.EdgesExact`).
- If `openshiftVerifyDeployment` accepts the rollout before the one just triggered, an image nobody approved can go live
  (`BlueGreen.LiveImageAlwaysApproved`); a given switch is safe exactly under the condition of
  `BlueGreen.SwitchSafeExact`.
- A backslash in the input of `urldecode` that starts an escape of `printf` always changes the result
  (`UrlCode.DecodeAgreesWithReference`), and a triplet after a backslash is not decoded (`UrlCode.SpoiltTriplet`).
- `urlencode` leaves an unset `LC_COLLATE` set to the empty string (`UrlCode.Shell.UrlEncode`).

## Model

| member | source | states |
|---|---|---|
| `NfsTypes.Validate` | test_cases/operator/go-operator/nfs-provisioner-tutorial-files/5.full_finished_controller.go:51-68 | the spec is accepted if and only if at most one of Pvc, SCForNFSPvc and HostPathDir is set; of the three messages only two can occur, by whether Pvc is set |
| `Prelude.WithoutByIndex` | test_cases/operator/go-operator/nfs-provisioner-tutorial-files/5.full_finished_controller.go:397-405 | removing a string keeps exactly the elements at the ascending indices where it is not, so order and multiplicity stay |
| `NfsController.DriveIsRun` | test_cases/operator/go-operator/nfs-provisioner-tutorial-files/5.full_finished_controller.go:91-346 | from any point inside a reconcile, its rest, with any interference and faults between the calls, is a run of the step machine |
| `NfsController.ReconcileIsRun` | test_cases/operator/go-operator/nfs-provisioner-tutorial-files/5.full_finished_controller.go:91-346 | every whole reconcile, with any interference and faults between its calls, is a run of the step machine, so what holds over runs holds inside reconciles |
| `NfsController.ReconcileAllIsRun` | test_cases/operator/go-operator/nfs-provisioner-tutorial-files/5.full_finished_controller.go:91-346 | and so is any sequence of serial reconciles |
| `NfsSafety.FinalizerSafety` | test_cases/operator/go-operator/nfs-provisioner-tutorial-files/5.full_finished_controller.go:304-385 | over every run (reconcile calls, write failures, spec edits, marks, foreign finalizers and objects interleaved), our finalizer leaves the stored resource only when ClusterRole and ClusterRoleBinding are both absent |
| `NfsSafety.FailedDeleteKeepsFinalizer` | test_cases/operator/go-operator/nfs-provisioner-tutorial-files/5.full_finished_controller.go:321-329 | over every run, a Delete of the cleanup ends the reconcile in an error exactly when it fails, and then leaves the stored resource as it is, with our finalizer on it as long as nobody else takes that off |
| `NfsSafety.ErrorExact` | test_cases/operator/go-operator/nfs-provisioner-tutorial-files/5.full_finished_controller.go:91-385 | a reconcile reports an error exactly when a write is refused, loses its reply, meets a taken or absent key or goes over a stale version, or when its very first Get fails; nothing has then changed unless a reply was lost |
| `NfsSafety.SuccessExact` | test_cases/operator/go-operator/nfs-provisioner-tutorial-files/5.full_finished_controller.go:97-346 | at any point of any run, a reconcile that ends without an error reports Done for a resource that is gone, for a rejected one whose status it has just written, and for a marked one, which has just lost our finalizer if it was read with it; and Requeue for any other, which has just got it if it was read without it |
| `NfsSafety.FrameOverRuns` | test_cases/operator/go-operator/nfs-provisioner-tutorial-files/5.full_finished_controller.go:91-385 | at any point of any run whatever, a controller call only adds a missing object of the plan for the spec it read, removes the cluster object it is at for a resource it read as marked and holding our finalizer, adds or clears our finalizer or writes the rejected status; it never changes an existing object, a foreign finalizer, or a spec edit or mark made since its read; during the cleanup the stored resource is still marked and ours unless someone else takes the finalizer off |
| `NfsSafety.InvAlways` | test_cases/operator/go-operator/nfs-provisioner-tutorial-files/5.full_finished_controller.go:304-343 | the protocol invariant behind finalizer safety holds in every state of every permitted run |
| `NfsSafety.CallKeepsInv` | test_cases/operator/go-operator/nfs-provisioner-tutorial-files/5.full_finished_controller.go:91-385 | every single API call of the controller keeps that invariant, stale resource versions included |
| `NfsSafety.EnvKeepsInv` | test_cases/operator/go-operator/nfs-provisioner-tutorial-files/5.full_finished_controller.go:304-343 | what other clients may do between two calls keeps it too, and never takes our finalizer off |
| `NfsSafety.LastFinalizerDeletes` | test_cases/operator/go-operator/nfs-provisioner-tutorial-files/5.full_finished_controller.go:331-338 | the call that clears the finalizer deletes the resource, with both cluster objects gone, exactly when no foreign finalizer is left |
| `NfsSafety.GoneForever` | test_cases/operator/go-operator/nfs-provisioner-tutorial-files/5.full_finished_controller.go:99-106 | after that, however many calls of however many reconciles follow, none changes anything and the cluster objects stay away until someone creates the resource anew |
| `NfsProgress.KeysAgree` | test_cases/operator/go-operator/nfs-provisioner-tutorial-files/5.full_finished_controller.go:126-294 | for every kind the looked-up key and the created key agree, the only exception being a claim whose name the user chose |
| `NfsProgress.StuckOnlyAtClaim` | test_cases/operator/go-operator/nfs-provisioner-tutorial-files/5.full_finished_controller.go:147-174 | a create phase meets a step whose lookup misses while its object's key is taken if and only if the user's claim is missing and nfs-server exists |
| `NfsProgress.PlanAscending` | test_cases/operator/go-operator/nfs-provisioner-tutorial-files/5.full_finished_controller.go:126-294 | the create phase handles each kind at most once, in a fixed order, looking up the kind it creates |
| `NfsProgress.FillEffect` | test_cases/operator/go-operator/nfs-provisioner-tutorial-files/5.full_finished_controller.go:126-294 | a faultless create phase adds exactly the missing planned objects and touches nothing else |
| `NfsProgress.FinePass` | test_cases/operator/go-operator/nfs-provisioner-tutorial-files/5.full_finished_controller.go:126-294 | the step machine's faultless create phase ends in exactly that filled store |
| `NfsProgress.FineLive` | test_cases/operator/go-operator/nfs-provisioner-tutorial-files/5.full_finished_controller.go:304-345 | unless stuck at the claim (BlockedReconcile), a faultless reconcile of a live resource fills the store, stores the finalizer if missing, and requeues |
| `NfsProgress.FineDoomed` | test_cases/operator/go-operator/nfs-provisioner-tutorial-files/5.full_finished_controller.go:319-342 | unless stuck at the claim (BlockedReconcile), a faultless reconcile of a marked resource runs the create phase, removes both cluster objects, clears the finalizer and stops |
| `NfsProgress.ReconcileFrame` | test_cases/operator/go-operator/nfs-provisioner-tutorial-files/5.full_finished_controller.go:91-346 | whatever fails and whatever the spec, a reconcile keeps every existing object, except the two cluster objects of a marked resource, and adds only planned keys |
| `NfsProgress.MissingNeverGrows` | test_cases/operator/go-operator/nfs-provisioner-tutorial-files/5.full_finished_controller.go:111-345 | whatever fails, the number of required items an unmarked resource still misses never grows |
| `NfsProgress.Converges` | test_cases/operator/go-operator/nfs-provisioner-tutorial-files/5.full_finished_controller.go:111-345 | with at most k failed calls, reads included, k+1 reconciles complete an unmarked resource from any store if and only if its spec is accepted and its claim is one the controller creates, or exists; with a rejected spec only what was complete before is complete after |
| `NfsProgress.FineLiveCompletes` | test_cases/operator/go-operator/nfs-provisioner-tutorial-files/5.full_finished_controller.go:111-345 | one faultless reconcile of a live resource whose claim is ready completes it |
| `NfsProgress.NeverComplete` | test_cases/operator/go-operator/nfs-provisioner-tutorial-files/5.full_finished_controller.go:147-174 | if the user's claim does not exist, no number of reconciles completes the resource |
| `NfsProgress.RejectedReconcile` | test_cases/operator/go-operator/nfs-provisioner-tutorial-files/5.full_finished_controller.go:111-124 | whatever fails, a reconcile of a rejected spec, marked or not, touches nothing but the status |
| `NfsProgress.ReconcileReports` | test_cases/operator/go-operator/nfs-provisioner-tutorial-files/5.full_finished_controller.go:97-346 | what a whole reconcile reports, whatever fails: an error if its first Get fails, Done for an absent resource, Done only if a marked resource has lost our finalizer or a rejected spec is in the status, Requeue only if an accepted unmarked resource has it stored |
| `NfsManifest.BuildsManifest` | test_cases/operator/go-operator/nfs-provisioner-tutorial-files/5.full_finished_controller.go:408-826 | a faultless reconcile of a live resource whose claim is ready adds exactly what is missing of the manifest, given by the names, labels, subjects, roles, storage class, size, node selector and volume that users see |
| `NfsManifest.CompleteExact` | test_cases/operator/go-operator/nfs-provisioner-tutorial-files/5.full_finished_controller.go:126-317 | a resource is complete exactly when its manifest and any claim it names exist and the finalizer is stored under its name |
| `NfsManifest.StepInManifest` | test_cases/operator/go-operator/nfs-provisioner-tutorial-files/5.full_finished_controller.go:126-294 | kind by kind, the plan of the create phase provides exactly the manifest |
| `NfsManifest.RejectedStatusText` | test_cases/operator/go-operator/nfs-provisioner-tutorial-files/5.full_finished_controller.go:111-124 | a faultless reconcile of a spec with more than one storage field writes the three fields to the status, clears the nodes, and does nothing else |
| `NfsDeletion.SafeReconcile` | test_cases/operator/go-operator/nfs-provisioner-tutorial-files/5.full_finished_controller.go:304-385 | a whole reconcile under interference clears the finalizer only with both cluster objects gone, whatever fails except the Gets of the cleanup |
| `NfsDeletion.CleanupExact` | test_cases/operator/go-operator/nfs-provisioner-tutorial-files/5.full_finished_controller.go:349-385 | once the finalizer is off, each cluster object is still there exactly when it was there before and the cleanup's own Get of it failed |
| `NfsDeletion.ReadErrorLeaks` | test_cases/operator/go-operator/nfs-provisioner-tutorial-files/5.full_finished_controller.go:358-366 | from any complete cluster one failed Get of the ClusterRole at the right call releases the resource and leaves the ClusterRole behind |
| `NfsDeletion.ReadErrorInCreatePhase` | test_cases/operator/go-operator/nfs-provisioner-tutorial-files/5.full_finished_controller.go:126-294 | a failed Get in the create phase of an otherwise complete cluster: for the four RBAC kinds it fails the reconcile if the object exists and creates it if not; for every other kind the reconcile succeeds without noticing whether the object exists |
| `NfsDeletion.BlockedReconcile` | test_cases/operator/go-operator/nfs-provisioner-tutorial-files/5.full_finished_controller.go:147-174 | while the user's claim is missing and nfs-server exists, every reconcile whose Gets tell the truth, live or marked, fails at the claim and leaves the resource as it is, whichever writes fail |
| `NfsDeletion.DeletionProgress` | test_cases/operator/go-operator/nfs-provisioner-tutorial-files/5.full_finished_controller.go:97-343 | a marked resource with an accepted spec and a ready claim loses finalizer and cluster objects within k+1 reconciles of which at most k writes fail, although each first re-runs the create phase |
| `NfsDeletion.DeletionProgressExact` | test_cases/operator/go-operator/nfs-provisioner-tutorial-files/5.full_finished_controller.go:97-343 | for a marked resource holding our finalizer that is certain for every placement of k write failures if and only if the spec is accepted and the claim is ready, or k is 0 and nfs-server does not exist |
| `NfsDeletion.UnluckyTapes` | test_cases/operator/go-operator/nfs-provisioner-tutorial-files/5.full_finished_controller.go:147-174 | otherwise a schedule exists, one lost Create reply at most (none for a rejected spec), after which deletion never gets through |
| `NfsDeletion.RejectedNeverReleased` | test_cases/operator/go-operator/nfs-provisioner-tutorial-files/5.full_finished_controller.go:111-124 | a marked resource with a rejected spec keeps our finalizer over any number of reconciles, whatever fails, failed Gets included |
| `NfsDeletion.StaysCleanExact` | test_cases/operator/go-operator/nfs-provisioner-tutorial-files/5.full_finished_controller.go:319-342 | a faultless reconcile of a marked resource with an accepted spec cleans up exactly when it is not stuck at the claim; a further one leaves the cluster objects away exactly when ours was the only finalizer or the claim was not ready |
| `NfsDeletion.CreatesRoleAgain` | test_cases/operator/go-operator/nfs-provisioner-tutorial-files/5.full_finished_controller.go:195-205 | a marked resource held only by a foreign finalizer gets both cluster objects created again, exactly unless it is stuck at the claim |
| `NfsDeletion.Idempotent` | test_cases/operator/go-operator/nfs-provisioner-tutorial-files/5.full_finished_controller.go:126-345 | a second faultless reconcile of a live resource changes nothing; it attempts no write and requeues exactly when the claim was ready, else it fails at the claim |
| `NfsLive.CreatedIsPrefix` | test_cases/operator/go-operator/nfs-provisioner-tutorial-files/5.full_finished_controller.go:129-294 | at every point of every run over a live resource with a fixed spec, starting without its objects, the created objects are a prefix of the creation order; the claim and the StorageClass the user names may come and go; any write may fail, and any Get unless it passes an absent owned object over with an owned one to come |
| `NfsLive.ReadErrorPrefixExact` | test_cases/operator/go-operator/nfs-provisioner-tutorial-files/5.full_finished_controller.go:129-294 | at any point of any such run a failed Get keeps the prefix under every faultless continuation if and only if it does not pass an absent owned object over with an owned one to come and no stuck claim in between |
| `NfsLive.PrefixNeedsReads` | test_cases/operator/go-operator/nfs-provisioner-tutorial-files/5.full_finished_controller.go:129-145 | from every clean start with its claim ready, one failed Get of the security context constraints and then no fault at all break the prefix |
| `NfsLive.ReferencesExist` | test_cases/operator/go-operator/nfs-provisioner-tutorial-files/5.full_finished_controller.go:408-550 | at every point of every such run with the claim ready at the start and not deleted by others, each created object refers only to existing ones: subjects and roles of bindings, service account and claim of the Deployment; only a failed Get that passes over an object others refer to is excluded |
| `NfsLive.ReferencesExact` | test_cases/operator/go-operator/nfs-provisioner-tutorial-files/5.full_finished_controller.go:408-550 | from every clean start, that is so in every such run if and only if the claim is ready at the start |
| `NfsLive.DanglingMount` | test_cases/operator/go-operator/nfs-provisioner-tutorial-files/5.full_finished_controller.go:147-174 | if the user's claim is missing and not stuck, one faultless reconcile leaves a Deployment that mounts a claim that does not exist |
| `NfsLive.ReadErrorReferencesExact` | test_cases/operator/go-operator/nfs-provisioner-tutorial-files/5.full_finished_controller.go:147-190 | at any point of any such run a failed Get keeps the references under every faultless continuation if and only if it does not pass over the absent service account or default claim |
| `NfsLive.ReferencesNeedReads` | test_cases/operator/go-operator/nfs-provisioner-tutorial-files/5.full_finished_controller.go:176-190 | from every clean start with its claim ready, one failed Get of the service account and then no fault at all leave a RoleBinding stored whose subject, the service account, is absent |
| `NfsLive.ServiceSelectsPods` | test_cases/operator/go-operator/nfs-provisioner-tutorial-files/5.full_finished_controller.go:750-799 | the Service selects exactly the labels of the Deployment's pods |
| `NfsLive.OrderInPlan` | test_cases/operator/go-operator/nfs-provisioner-tutorial-files/5.full_finished_controller.go:129-294 | the creation order lists keys that the create phase looks up and itself creates |
| `NfsStorage.VolumeCoherent` | test_cases/operator/go-operator/nfs-provisioner-tutorial-files/5.full_finished_controller.go:147-174 | at any point of any run whatever, the Deployment about to be created mounts the host path exactly when the spec this reconcile has read sets one, else the claim the PVC step looks up |
| `NfsStorage.StorageCoherent` | test_cases/operator/go-operator/nfs-provisioner-tutorial-files/5.full_finished_controller.go:147-174 | the claim a Deployment about to be created mounts exists exactly when it was ready at the start, over all faults and actions of others that leave spec and claim alone, unless a failed Get passes the absent default claim over |
| `NfsStorage.ReadErrorStorageExact` | test_cases/operator/go-operator/nfs-provisioner-tutorial-files/5.full_finished_controller.go:147-174 | at any point of any such run a failed Get keeps that under every faultless continuation if and only if it does not pass the absent default claim over with the Deployment still to come |
| `NfsReconciler.Reconciler.Reconcile` | test_cases/operator/go-operator/nfs-provisioner-tutorial-files/5.full_finished_controller.go:91-346 | the imperative reconcile, under any interference and faults, ends in the state and with the result of the step machine |
| `NfsReconciler.Reconciler.EnsureOwned` | test_cases/operator/go-operator/nfs-provisioner-tutorial-files/5.full_finished_controller.go:126-294 | the create phase leads the machine to the finalizer protocol or to an error |
| `NfsReconciler.Reconciler.EnsureExists` | test_cases/operator/go-operator/nfs-provisioner-tutorial-files/5.full_finished_controller.go:129-145 | one look-up with its conditional Create, under either error policy, is the machine's two steps |
| `NfsReconciler.Reconciler.EnsureRbac` | test_cases/operator/go-operator/nfs-provisioner-tutorial-files/5.full_finished_controller.go:192-244 | the four RBAC blocks, which create on any Get error |
| `NfsReconciler.Reconciler.EnsureWorkload` | test_cases/operator/go-operator/nfs-provisioner-tutorial-files/5.full_finished_controller.go:246-294 | Deployment, Service and StorageClass, the last only for the default name |
| `NfsReconciler.Reconciler.RejectSpec` | test_cases/operator/go-operator/nfs-provisioner-tutorial-files/5.full_finished_controller.go:111-124 | an invalid spec writes the status and returns before everything else |
| `NfsReconciler.Reconciler.HandleFinalizer` | test_cases/operator/go-operator/nfs-provisioner-tutorial-files/5.full_finished_controller.go:296-345 | the finalizer branches, with their early returns and requeue results |
| `NfsReconciler.Reconciler.DeleteExternalResources` | test_cases/operator/go-operator/nfs-provisioner-tutorial-files/5.full_finished_controller.go:349-385 | the cleanup, skipping a Delete after any Get error |
| `NfsReconciler.ContainsString` | test_cases/operator/go-operator/nfs-provisioner-tutorial-files/5.full_finished_controller.go:388-395 | true exactly for a member of the slice |
| `NfsReconciler.RemoveString` | test_cases/operator/go-operator/nfs-provisioner-tutorial-files/5.full_finished_controller.go:397-405 | the slice without the string, in order |
| `NfsReconciler.ApiServer.CreateObject` | test_cases/operator/go-operator/nfs-provisioner-tutorial-files/5.full_finished_controller.go:137-137 | a Create that fails when the key is taken or the call is refused, and may lose its reply |
| `NfsReconciler.ApiServer.Update` | test_cases/operator/go-operator/nfs-provisioner-tutorial-files/5.full_finished_controller.go:335-335 | an Update that only goes through over the version it was read at |
| `UpgradeGraph.EdgesExact` | debug/shell/ocp4upc.sh:241-281 | for every graph and every EXT at entry, the surviving edges are exactly those on one-hop and two-hop paths from the source to the targets, if and only if no self-loop hides on such a path and no leftover intermediate leads off them |
| `UpgradeGraph.NodesExact` | debug/shell/ocp4upc.sh:241-281 | the surviving nodes are exactly the source and the ends of those paths' edges, for every graph |
| `UpgradeGraph.ResultEdges` | debug/shell/ocp4upc.sh:252-278 | which edges survive and the colour each ends in, in terms of the graph alone |
| `UpgradeGraph.ResultNodeColors` | debug/shell/ocp4upc.sh:252-281 | the colour every node ends in, for every graph: target, intermediate, source, or deleted |
| `UpgradeGraph.PaintTargetEffect` | debug/shell/ocp4upc.sh:252-272 | what the inner loop over the successors does to edges, nodes and EXT for one target |
| `UpgradeGraph.PaintTargetsEffect` | debug/shell/ocp4upc.sh:252-273 | what the two nested loops do together |
| `UpgradeGraph.FirstHopsEffect` | debug/shell/ocp4upc.sh:274-275 | the last loop colours exactly the still uncoloured source edges to members of EXT |
| `UpgradeGraph.DirectEdgeKeepsColor` | debug/shell/ocp4upc.sh:256-260 | a source-to-target edge survives and keeps the direct colour, also when its target is an intermediate, unless a self-loop of the source is listed before it |
| `UpgradeGraph.TargetColorExact` | debug/shell/ocp4upc.sh:189-275 | a reached target ends in the target colour exactly when it serves no target visited after it |
| `UpgradeGraph.AscendingGraph` | debug/shell/ocp4upc.sh:189-281 | with edges that only go up and targets visited from the top down, pruning is exact, direct edges are direct and every target within two hops ends in the target colour |
| `UpgradeGraph.AscendingColors` | debug/shell/ocp4upc.sh:189-281 | with edges that only go up and targets visited from the top down, every edge and node ends in the colour the legend gives its role, the source in its own, whatever earlier channels left in EXT |
| `UpgradeGraph.SelfLoopsAreLost` | debug/shell/ocp4upc.sh:257-270 | two concrete graphs with a self-loop on a path that pruning deletes |
| `UpgradeGraph.SuccessorsDistinct` | debug/shell/ocp4upc.sh:249-249 | the captured outgoing edges list no node twice |
| `UpgradeGraph.SuccessorsOrder` | debug/shell/ocp4upc.sh:249-249 | the outgoing edges are captured in line order |
| `UpgradeScript.Script.Colorize` | debug/shell/ocp4upc.sh:238-289 | the loop over the channels, with its skips, leaves each file, EXT and RES as the per-channel paint says, and aborts exactly when no channel is kept |
| `UpgradeScript.Script.ColorizeFile` | debug/shell/ocp4upc.sh:244-278 | one channel in place: capture, nested colouring, source edges, clean-up |
| `UpgradeScript.Script.ColorizeTargets` | debug/shell/ocp4upc.sh:252-273 | the loop over the targets, passing over a target without a node |
| `UpgradeScript.Script.ColorizeTarget` | debug/shell/ocp4upc.sh:255-271 | the loop over the captured nodes for one target |
| `UpgradeScript.Script.CaptureOutgoing` | debug/shell/ocp4upc.sh:249-249 | the loop that collects the outgoing edges |
| `UpgradeScript.PositionsOrder` | debug/shell/ocp4upc.sh:252-253 | the targets are visited in the order in which they are listed |
| `UpgradeScript.AscendingScript` | debug/shell/ocp4upc.sh:189-281 | so in every channel whose edges go up and whose targets are listed from the top down, every target within two hops of the source ends in the target colour, the source in its own, and all edges in theirs |
| `UpgradeScript.SkippedExact` | debug/shell/ocp4upc.sh:241-246 | a channel that does not know the version or has no targets is left as drawn and adds nothing to EXT |
| `UpgradeScript.KeptExact` | debug/shell/ocp4upc.sh:284-284 | RES lists the names of exactly the channels that know the version and have targets, in their order |
| `UpgradeScript.ChannelExact` | debug/shell/ocp4upc.sh:238-285 | a channel comes out exact if and only if no self-loop hides on its paths and the EXT left by earlier channels does no harm |
| `UpgradeScript.ExtIsAllIntermediates` | debug/shell/ocp4upc.sh:269-269 | EXT, never reset, holds exactly the nodes that were an intermediate in some channel so far |
| `UpgradeScript.FirstChannelExact` | debug/shell/ocp4upc.sh:241-281 | the first channel of a graph without self-loops is always exact |
| `UpgradeScript.LeftoverLeaks` | debug/shell/ocp4upc.sh:275-278 | two concrete channels where an intermediate of the first leaves a dangling edge in the second |
| `BlueGreen.LiveImageAlwaysApproved` | sample_scripts/cicd/jenkins-build-script/bluegreen-pipeline.yaml:26-71 | over any serial runs, aborts at any stage and builds and rollouts at any time, the image behind the weight-100 backend is the initial one or one a user approved, if and only if verifying a deployment waits for the rollout of the image just tagged |
| `BlueGreen.SwitchSafeExact` | sample_scripts/cicd/jenkins-build-script/bluegreen-pipeline.yaml:52-59 | waiting or not, at any reachable Go Live stage the live image stays approved under every continuation up to the next switch if and only if both the image the colour under deployment serves before the switch and the image its tag names are approved or the initial one |
| `BlueGreen.InvAlways` | sample_scripts/cicd/jenkins-build-script/bluegreen-pipeline.yaml:26-71 | the invariant behind its positive half, where verification waits, holds in every reachable state |
| `BlueGreen.StepKeepsInv` | sample_scripts/cicd/jenkins-build-script/bluegreen-pipeline.yaml:36-63 | where verification waits every stage, however it ends, and every outside event keeps it |
| `BlueGreen.ShapeAlways` | sample_scripts/cicd/jenkins-build-script/bluegreen-pipeline.yaml:26-71 | waiting or not, the weights, the tags and the stage fit together in every reachable state |
| `BlueGreen.ColorsAlternate` | sample_scripts/cicd/jenkins-build-script/bluegreen-pipeline.yaml:36-63 | waiting or not, exactly one colour has weight 100 and the other 0, a run works on the other colour, and the live colour is fixed by the parity of the switches |
| `BlueGreen.LiveUntouched` | sample_scripts/cicd/jenkins-build-script/bluegreen-pipeline.yaml:52-63 | waiting or not, no step but the switch moves the route or the live tag, and none but a rollout of the live colour its image; where verification waits not even that does |
| `BlueGreen.FailedRunsKeepLive` | sample_scripts/cicd/jenkins-build-script/bluegreen-pipeline.yaml:57-71 | from any reachable point failed runs leave the route and the live tag unchanged, and the live image where verification waits, except exactly when a switch took effect although its stage failed |
| `BlueGreen.UnsuccessfulStage` | sample_scripts/cicd/jenkins-build-script/bluegreen-pipeline.yaml:26-71 | a stage that fails ends the run without effect, one that takes effect but fails ends it with the effect of a success |
| `BlueGreen.PassingRunGoesLive` | sample_scripts/cicd/jenkins-build-script/bluegreen-pipeline.yaml:26-63 | from any project and with either kind of verification, a run whose stages pass and whose tag is rolled out before the verification succeeds and puts the image it built live on the other colour, approved, leaving the former live colour as it was |
| `BlueGreen.PipelineSucceeds` | sample_scripts/cicd/jenkins-build-script/bluegreen-pipeline.yaml:26-63 | a run of the Jenkinsfile succeeds if and only if all six stages pass and, where verification waits, the tag is rolled out by then; it has then switched to the other colour, tagged with what was the latest image |
| `BlueGreen.UnapprovedGoesLive` | sample_scripts/cicd/jenkins-build-script/bluegreen-pipeline.yaml:52-55 | without the wait a concrete run puts an unapproved image live |
| `BlueGreen.PipelineIsRun` | sample_scripts/cicd/jenkins-build-script/bluegreen-pipeline.yaml:26-71 | a run of the Jenkinsfile, with events between its stages and either kind of verification, is a run of the machine |
| `BlueGreen.Jenkins.RunPipeline` | sample_scripts/cicd/jenkins-build-script/bluegreen-pipeline.yaml:26-71 | the sequential stages with their aborts, under either kind of verification, end where the machine ends |
| `BlueGreen.Jenkins.DeployAndSwitch` | sample_scripts/cicd/jenkins-build-script/bluegreen-pipeline.yaml:52-63 | the stages from Deploy Test on, under either kind of verification |
| `Memcached.Converges` | test_cases/operator/go-operator/nfs-provisioner-tutorial-files/0.memcached_controller.go:46-122 | after the last disturbance a resource has converged after two reconciles more than fail, from any state and with any reconciles of other resources in between; from then on reconciles write nothing and do not requeue |
| `Memcached.RunDistance` | test_cases/operator/go-operator/nfs-provisioner-tutorial-files/0.memcached_controller.go:66-122 | over any turns of the work queue the remaining distance shrinks by at least the number of clean turns |
| `Memcached.TwoAreNeeded` | test_cases/operator/go-operator/nfs-provisioner-tutorial-files/0.memcached_controller.go:69-79 | one reconcile is not enough in general |
| `Memcached.DoneMeansConverged` | test_cases/operator/go-operator/nfs-provisioner-tutorial-files/0.memcached_controller.go:78-121 | a reconcile that succeeds without requeue has converged; a faultless one requeues exactly when it touched the Deployment |
| `Memcached.FaultsExact` | test_cases/operator/go-operator/nfs-provisioner-tutorial-files/0.memcached_controller.go:46-122 | a reconcile reports an error exactly when one of its calls fails, and has then changed nothing unless that was the write and only its reply was lost; an absent resource is done at once |
| `Memcached.ConvergedIsStable` | test_cases/operator/go-operator/nfs-provisioner-tutorial-files/0.memcached_controller.go:85-121 | on a converged resource a reconcile writes nothing |
| `Memcached.Isolation` | test_cases/operator/go-operator/nfs-provisioner-tutorial-files/0.memcached_controller.go:46-122 | a reconcile leaves every other resource and Deployment, all specs and all pods alone |
| `Memcached.StatusExact` | test_cases/operator/go-operator/nfs-provisioner-tutorial-files/0.memcached_controller.go:98-121 | after the status step the stored nodes are the names of exactly the pods with this resource's labels, in list order, nil when there is none |
| `Memcached.ListedByIndex` | test_cases/operator/go-operator/nfs-provisioner-tutorial-files/0.memcached_controller.go:101-109 | the listed pods are the selected ones in their order |
| `Memcached.NoSharedPods` | test_cases/operator/go-operator/nfs-provisioner-tutorial-files/0.memcached_controller.go:164-166 | no pod is counted for two different resources |
| `Memcached.SelectsExact` | test_cases/operator/go-operator/nfs-provisioner-tutorial-files/0.memcached_controller.go:101-104 | the List call goes by the namespace and the two labels, the selector of the Deployment by the two labels |
| `Memcached.SelectorExact` | test_cases/operator/go-operator/nfs-provisioner-tutorial-files/0.memcached_controller.go:125-166 | the selector of one resource's Deployment fits the pods of another's if and only if the two have the same name |
| `Memcached.DeploymentExact` | test_cases/operator/go-operator/nfs-provisioner-tutorial-files/0.memcached_controller.go:66-96 | a Deployment that a reconcile creates has the specified size, carries the two labels, and selects the pods of exactly this name; on an existing one at most the size changes, selector and labels stay |
| `Memcached.OwnPodsSelected` | test_cases/operator/go-operator/nfs-provisioner-tutorial-files/0.memcached_controller.go:125-160 | the pods of a resource's Deployment are counted for that resource and no other |
| `Memcached.ReconcileRequest` | test_cases/operator/go-operator/nfs-provisioner-tutorial-files/0.memcached_controller.go:46-122 | the imperative reconcile has the effect and result of the specification function |
| `Memcached.GetPodNames` | test_cases/operator/go-operator/nfs-provisioner-tutorial-files/0.memcached_controller.go:169-175 | the append loop yields the names in order, nil for no pods |
| `UrlCode.DecodeEncode` | debug/shell/urlcode.sh:1-23 | urldecode after urlencode is the identity on every string of single-byte characters 1 to 255 |
| `UrlCode.DecodeSpelling` | debug/shell/urlcode.sh:18-23 | urldecode gives back every shell string from every spelling of it by triplets, with each digit in either case |
| `UrlCode.EncodeSpells` | debug/shell/urlcode.sh:7-13 | what urlencode prints is such a spelling |
| `UrlCode.UnreservedExact` | debug/shell/urlcode.sh:10-10 | the characters printed as they are, by their codes in US-ASCII |
| `UrlCode.EncodeKeepsExact` | debug/shell/urlcode.sh:7-13 | urlencode leaves exactly the strings of unreserved characters as they are and never shortens one |
| `UrlCode.DigitExact` | debug/shell/urlcode.sh:22-22 | the value of a digit is its place in 0123456789abcdef or 0123456789ABCDEF |
| `UrlCode.EncodeDecodeExact` | debug/shell/urlcode.sh:1-23 | urlencode after urldecode gives a string back exactly when urlencode could have printed it |
| `UrlCode.DecodeAgreesWithReference` | debug/shell/urlcode.sh:18-23 | on well-formed input that names no code point by escape, urldecode is the percent-decoding of section 2.1 of RFC 3986, with plus signs as spaces, exactly when no backslash starts an escape of printf |
| `UrlCode.EscapesDecode` | debug/shell/urlcode.sh:21-22 | on well-formed input the percent rewrite and the escapes decode token by token exactly when no backslash starts an escape, however escapes and triplets are combined; u and U after a backslash count as text here, so for printf itself this speaks only of input without them |
| `UrlCode.NeverCatchesUp` | debug/shell/urlcode.sh:21-22 | output that an escape has swallowed is never made up for by what follows, again with u and U after a backslash as text |
| `UrlCode.SpoiltTriplet` | debug/shell/urlcode.sh:22-22 | a triplet right after a backslash is not decoded: it comes out as a literal x and its two digits |
| `UrlCode.ControlCharExact` | debug/shell/urlcode.sh:22-22 | the letters after a backslash that print a control character, and which |
| `UrlCode.ControlEscapePrints` | debug/shell/urlcode.sh:22-22 | such an escape prints its one character and leaves the rest to be decoded on its own; a backslash and c end the output |
| `UrlCode.OctalEscapePrints` | debug/shell/urlcode.sh:22-22 | every byte can be named by a zero and three octal digits, and further digits do not belong to it |
| `UrlCode.ShortOctalPrints` | debug/shell/urlcode.sh:22-22 | from 64 on also by the three digits alone |
| `UrlCode.PlusKeepsWellFormed` | debug/shell/urlcode.sh:21-21 | the plus rewrite keeps the triplets and changes the result exactly when there is a plus sign |
| `UrlCode.EncodeIsCanonical` | debug/shell/urlcode.sh:7-13 | the output consists of unreserved characters and upper-case triplets and decodes to the input |
| `UrlCode.Shell.UrlEncode` | debug/shell/urlcode.sh:1-16 | the index loop prints the encoding; LC_COLLATE gets its value back, but comes out empty instead of unset |

## Left out

- Kubernetes transport, caches, logging, scheme registration, manager setup, owner references and garbage collection:
  library behaviour that is not visible in the repository.
- Object payloads of the NFS builders beyond names, labels, selectors and references: constant tables.
- NfsManifest.BuildsManifest: a storage size that does not parse makes the source panic while it builds the claim; sizes
  are opaque here.
- The earlier tutorial snapshots 1 to 4 of the NFS controller: drafts of the same reconciler.
- Several NFSProvisioner resources sharing the cluster-scoped names: the code claims no isolation between them.
- UpgradeScript.Script.Colorize: models the lines of the .gv file as maps from nodes and edges to colours, not their text;
  downloading, labelling, the legend and drawing are command sequences around external tools.
- BlueGreen.LiveImageAlwaysApproved: does not model the Jenkins plugins; whether verification waits for the rollout is a
  parameter, and concurrent pipeline runs, which the pipeline does not lock out, are excluded.
- BlueGreen.Jenkins.RunPipeline: the two route look-ups of the Initialize stage are one step.
- Memcached.ReconcileRequest: other clients act between reconciles, not between the calls of one; a write over a stale
  version counts as a refused call.
- UrlCode.EscapesDecode: does not model the `\u` and `\U` escapes of `printf '%b'`, which only a backslash in the input
  can produce, and takes them as text, as UrlCode.NeverCatchesUp does; what they print depends on the locale. The round
  trips never meet them and the comparison with the reference excludes them.
- UrlCode.Encode: multi-byte characters, for which the source prints a whole code point.
- The variant decoder in urldecode.sh, and the remaining scripts, playbooks, manifests and guides of the repository:
  command sequences around external tools.
