/** What a reconcile of an NFSProvisioner resource builds, in terms of the names and values its users see. */
module NfsManifest {
  import opened Prelude
  import opened NfsTypes
  import opened NfsCluster
  import opened NfsController
  import opened NfsSafety
  import opened NfsProgress
  import opened NfsLive

  function Labels(d: Desired): map<string, string> {
    map["app" := "nfs-provisioner", "nfsprovisioner_cr" := d.name]
  }

  /** The claim the Deployment mounts if the resource names no storage of its own. */
  function ManifestClaim(d: Desired): Object {
    var storageClass := if d.spec.scForNfsPvc == "" then "local-sc" else d.spec.scForNfsPvc;
    var size := if d.spec.storageSize == "" then "10G" else d.spec.storageSize;
    Object(PersistentVolumeClaim, d.ns, "nfs-server", ClaimSpec(storageClass, size))
  }

  /** On a host path the pod goes where the user says, or to nodes labelled for it; on a claim it goes anywhere. */
  function ManifestDeployment(d: Desired): Object {
    var path := d.spec.hostPathDir;
    var nodes := match d.spec.nodeSelector case Some(chosen) => chosen case None => map["app" := "nfs-provisioner"];
    Object(Deployment, d.ns, "nfs-provisioner",
           if path == "" then
             Workload(Labels(d), map[], "nfs-provisioner", Claim(if d.spec.pvc == "" then "nfs-server" else d.spec.pvc))
           else Workload(Labels(d), nodes, "nfs-provisioner", HostPath(path)))
  }

  /** Binds the service account to a role. */
  function ManifestBinding(d: Desired, kind: Kind, ns: string, name: string, roleKind: Kind): Object {
    Object(kind, ns, name, Binding(ServiceAccount, d.ns, "nfs-provisioner", roleKind, name))
  }

  datatype Entry = Entry(key: Key, built: Object)

  /** What the controller itself provides of each kind, and under which key it is found. */
  function Manifest(d: Desired, kind: Kind): Option<Entry> {
    var sa, runner, leader := "nfs-provisioner", "nfs-provisioner-runner", "leader-locking-nfs-provisioner";
    match kind
    case SecurityContextConstraints =>
      var users := ["system:serviceaccount:" + d.ns + ":nfs-provisioner"];
      Some(Entry(Key(kind, "", "nfs-provisioner"), Object(kind, d.ns, "nfs-provisioner", Constraints(users))))
    case PersistentVolumeClaim =>
      if d.spec.hostPathDir == "" && d.spec.pvc in {"", "nfs-server"}
      then Some(Entry(Key(kind, d.ns, "nfs-server"), ManifestClaim(d))) else None
    case ServiceAccount => Some(Entry(Key(kind, d.ns, sa), Object(kind, d.ns, sa, Unmodelled)))
    case ClusterRole => Some(Entry(Key(kind, "", runner), Object(kind, "", runner, Unmodelled)))
    case ClusterRoleBinding => Some(Entry(Key(kind, "", runner), ManifestBinding(d, kind, "", runner, ClusterRole)))
    case Role => Some(Entry(Key(kind, d.ns, leader), Object(kind, d.ns, leader, Unmodelled)))
    case RoleBinding => Some(Entry(Key(kind, d.ns, leader), ManifestBinding(d, kind, d.ns, leader, Kind.Role)))
    case Deployment => Some(Entry(Key(kind, d.ns, "nfs-provisioner"), ManifestDeployment(d)))
    case Service =>
      Some(Entry(Key(kind, d.ns, "nfs-provisioner"), Object(kind, d.ns, "nfs-provisioner", Endpoint(Labels(d)))))
    case StorageClass =>
      if d.spec.scForNfs == "" then Some(Entry(Key(kind, "", "nfs"), Object(kind, "", "nfs", Unmodelled))) else None
  }

  predicate Provided(d: Desired, k: Key) {
    Manifest(d, k.kind).Some? && Manifest(d, k.kind).value.key == k
  }

  lemma LaterInManifest(d: Desired, j: nat)
    requires j < 8
    ensures var step := LaterSteps(d)[j];
            Manifest(d, step.make.kind) == if Owned(step) then Some(Entry(step.lookup, step.make)) else None
  {
  }

  /** The plan builds the manifest, kind by kind. */
  lemma StepInManifest(d: Desired, i: nat)
    requires i < |Plan(d)|
    ensures var step := Plan(d)[i];
            Manifest(d, step.make.kind) == if Owned(step) then Some(Entry(step.lookup, step.make)) else None
  {
    var first := if d.spec.hostPathDir != "" then 1 else 2;
    if i >= first {
      assert Plan(d)[i] == LaterSteps(d)[i - first];
      LaterInManifest(d, i - first);
    } else if i == 0 {
      assert ":" + SERVICE_ACCOUNT == ":nfs-provisioner";
      assert "system:serviceaccount:" + d.ns + ":" + SERVICE_ACCOUNT == "system:serviceaccount:" + d.ns + ":nfs-provisioner";
    } else {
      assert Plan(d)[1] == PvcStep(d);
    }
  }

  lemma ManifestInPlan(d: Desired, k: Key) returns (i: nat)
    requires Provided(d, k)
    ensures i < |Plan(d)| && Owned(Plan(d)[i]) && Plan(d)[i].lookup == k
  {
    var first := if d.spec.hostPathDir != "" then 1 else 2;
    if KindRank(k.kind) < 2 {
      i := KindRank(k.kind);
    } else {
      i := KindRank(k.kind) - 2 + first;
      assert Plan(d)[i] == LaterSteps(d)[i - first];
      LaterAscending(d, i - first);
      KindRankInjective(k.kind, Plan(d)[i].make.kind);
    }
    StepInManifest(d, i);
  }

  lemma KindRankInjective(a: Kind, b: Kind)
    requires KindRank(a) == KindRank(b)
    ensures a == b
  {
  }

  /** A faultless reconcile of a live resource whose claim is ready adds exactly what is missing of the manifest. */
  lemma BuildsManifest(w: World)
    requires Live(w) && ClaimReady(w.cr.value.desired, w.store)
    ensures var d, store := w.cr.value.desired, Reconcile(w, []).w.store;
            forall k ::
              && (k in store <==> k in w.store || Provided(d, k))
              && (k in store ==> store[k] == if k in w.store then w.store[k] else Manifest(d, k.kind).value.built)
  {
    var d := w.cr.value.desired;
    FineLive(w);
    var store := Fill(w.store, Plan(d));
    forall k
      ensures k in store <==> k in w.store || Provided(d, k)
      ensures k in store ==> store[k] == if k in w.store then w.store[k] else Manifest(d, k.kind).value.built
    {
      FilledKey(d, w.store, k);
    }
  }

  lemma FilledKey(d: Desired, store: map<Key, Object>, k: Key)
    requires ClaimReady(d, store)
    ensures var full := Fill(store, Plan(d));
            && (k in full <==> k in store || Provided(d, k))
            && (k in full ==> full[k] == if k in store then store[k] else Manifest(d, k.kind).value.built)
  {
    StuckOnlyAtClaim(d, store);
    PlanAscending(d);
    FillEffect(store, Plan(d));
    if k in Fill(store, Plan(d)) && k !in store {
      var i :| 0 <= i < |Plan(d)| && Missing(store, Plan(d)[i]) && k == StoredAt(Plan(d)[i].make);
      KeysAgree(d, i);
      StepInManifest(d, i);
    }
    if Provided(d, k) && k !in store {
      var i := ManifestInPlan(d, k);
      assert Missing(store, Plan(d)[i]);
    }
  }

  /** A resource is complete exactly when all of its manifest exists, the claim it names if it names one, and the finalizer
      is stored under its name. A storage class it names need not exist. */
  lemma CompleteExact(w: World)
    requires w.cr.Some?
    ensures var d := w.cr.value.desired;
            Complete(w) <==>
            && "nfsprovisioner.finalizers.jhouse.io" in w.cr.value.finalizers
            && (forall k :: Provided(d, k) ==> k in w.store)
            && (d.spec.hostPathDir == "" && d.spec.pvc != "" ==> Key(PersistentVolumeClaim, d.ns, d.spec.pvc) in w.store)
  {
    var d := w.cr.value.desired;
    if NothingMissing(w.store, d) {
      forall k | Provided(d, k)
        ensures k in w.store
      {
        var i := ManifestInPlan(d, k);
        assert !Missing(w.store, Plan(d)[i]);
      }
      if d.spec.hostPathDir == "" {
        assert Plan(d)[1] == PvcStep(d) && !Missing(w.store, Plan(d)[1]);
      }
    }
    if (forall k :: Provided(d, k) ==> k in w.store) &&
       (d.spec.hostPathDir == "" && d.spec.pvc != "" ==> Key(PersistentVolumeClaim, d.ns, d.spec.pvc) in w.store) {
      forall i | 0 <= i < |Plan(d)|
        ensures !Missing(w.store, Plan(d)[i])
      {
        KeysAgree(d, i);
        StepInManifest(d, i);
        PlanAscending(d);
        assert Owned(Plan(d)[i]) ==> Provided(d, Plan(d)[i].lookup);
      }
    }
  }

  /** A faultless reconcile of a rejected resource writes the three fields to its status and does nothing else. */
  lemma RejectedStatusText(w: World)
    requires w.cr.Some? && StorageFields(w.cr.value.desired.spec) > 1
    ensures var m := w.cr.value;
            var text := "pvc: " + m.desired.spec.pvc + " | sc: " + m.desired.spec.scForNfsPvc +
                        " | hostPathDir: " + m.desired.spec.hostPathDir;
            Reconcile(w, []) == Sys(Settle(w, m.(status := Status([], text))), Idle(Done))
  {
    var s := Tock(Sys(w, Idle(Done)), Head([]));
    assert s == Sys(w, WriteStatus(w.cr.value));
    assert Drive(s, []) == Drive(Tock(s, Head([])), []);
  }
}
