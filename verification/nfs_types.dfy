/** The NFSProvisioner custom resource and the objects its controller builds:
    names, namespaces, labels and cross-references, without the constant payload tables. */
module NfsTypes {
  import opened Prelude

  const SCC_NAME := "nfs-provisioner"
  const STORAGE_SIZE := "10G"
  const PVC_NAME := "nfs-server"
  const SC_FOR_NFS_PVC := "local-sc"
  const SERVICE_ACCOUNT := "nfs-provisioner"
  const CLUSTER_ROLE := "nfs-provisioner-runner"
  const CLUSTER_ROLE_BINDING := "nfs-provisioner-runner"
  const ROLE := "leader-locking-nfs-provisioner"
  const ROLE_BINDING := "leader-locking-nfs-provisioner"
  const DEPLOYMENT := "nfs-provisioner"
  const SERVICE := "nfs-provisioner"
  const SC_FOR_NFS := "nfs"
  const NODE_SELECTOR := map["app" := "nfs-provisioner"]
  const FINALIZER := "nfsprovisioner.finalizers.jhouse.io"

  // ---------------------------------------------------------------- the custom resource

  datatype Spec = Spec(
    hostPathDir: string,
    pvc: string,
    storageSize: string,
    scForNfsPvc: string,
    nodeSelector: Option<map<string, string>>,
    scForNfs: string)

  datatype Status = Status(nodes: seq<string>, error: string)

  /** The part of the custom resource from which the owned objects are built. */
  datatype Desired = Desired(name: string, ns: string, spec: Spec)

  /** `marked` stands for a non-zero deletion timestamp, `rv` for the resource version. */
  datatype Nfs = Nfs(desired: Desired, status: Status, finalizers: seq<string>, marked: bool, rv: nat)

  /** How many of the three mutually exclusive storage fields are set. */
  function StorageFields(spec: Spec): nat {
    (if spec.pvc != "" then 1 else 0) + (if spec.scForNfsPvc != "" then 1 else 0) + (if spec.hostPathDir != "" then 1 else 0)
  }

  /** The error message of `validate`, or None when the spec is accepted. */
  function Validate(spec: Spec): (error: Option<string>)
    ensures error.None? <==> StorageFields(spec) <= 1
    ensures error.Some? ==>
              error.value == if spec.pvc != "" then "scForPvc or hostPathDir can not set with Pvc"
                             else "scForPvc or Pvc can not set with hostPathDir"
  {
    var pvc, sc, hostPathDir := spec.pvc, spec.scForNfsPvc, spec.hostPathDir;
    if pvc != "" && (sc != "" || hostPathDir != "") then
      Some("scForPvc or hostPathDir can not set with Pvc")
    else if hostPathDir != "" && (sc != "" || pvc != "") then
      Some("scForPvc or Pvc can not set with hostPathDir")
    else if sc != "" && (pvc != "" || hostPathDir != "") then
      Some("Pvc or hostPathDir can not set with scForPvc")
    else
      None
  }

  predicate Valid(spec: Spec) {
    Validate(spec).None?
  }

  /** The status written for a rejected spec. */
  function RejectedStatus(spec: Spec): Status {
    Status([], "pvc: " + spec.pvc + " | sc: " + spec.scForNfsPvc + " | hostPathDir: " + spec.hostPathDir)
  }

  // ---------------------------------------------------------------- the owned objects

  datatype Kind =
    | SecurityContextConstraints | PersistentVolumeClaim | ServiceAccount | ClusterRole | ClusterRoleBinding
    | Role | RoleBinding | Deployment | Service | StorageClass

  predicate Namespaced(kind: Kind) {
    kind.PersistentVolumeClaim? || kind.ServiceAccount? || kind.Role? || kind.RoleBinding? || kind.Deployment? || kind.Service?
  }

  datatype Key = Key(kind: Kind, ns: string, name: string)

  datatype Volume = HostPath(path: string) | Claim(claimName: string)

  datatype Payload =
    | Unmodelled
    | Constraints(users: seq<string>)
    | ClaimSpec(storageClass: string, size: string)
    | Binding(subjectKind: Kind, subjectNs: string, subjectName: string, roleKind: Kind, roleName: string)
    | Workload(podLabels: map<string, string>, nodeSelector: map<string, string>, serviceAccount: string, volume: Volume)
    | Endpoint(selector: map<string, string>)

  datatype Object = Object(kind: Kind, ns: string, name: string, payload: Payload)

  /** Where the API server files an object: the namespace of a cluster-scoped kind is dropped. */
  function StoredAt(o: Object): Key {
    Key(o.kind, if Namespaced(o.kind) then o.ns else "", o.name)
  }

  const ROLE_KEY := Key(ClusterRole, "", CLUSTER_ROLE)
  const BINDING_KEY := Key(ClusterRoleBinding, "", CLUSTER_ROLE_BINDING)

  function LabelsFor(name: string): map<string, string> {
    map["app" := "nfs-provisioner", "nfsprovisioner_cr" := name]
  }

  /** The claim that the controller looks up and that the Deployment mounts. */
  function ClaimName(spec: Spec): string {
    if spec.pvc != "" then spec.pvc else PVC_NAME
  }

  function SccFor(d: Desired): Object {
    Object(SecurityContextConstraints, d.ns, SCC_NAME,
           Constraints(["system:serviceaccount:" + d.ns + ":" + SERVICE_ACCOUNT]))
  }

  function PvcFor(d: Desired): Object {
    Object(PersistentVolumeClaim, d.ns, PVC_NAME,
           ClaimSpec(if d.spec.scForNfsPvc != "" then d.spec.scForNfsPvc else SC_FOR_NFS_PVC,
                     if d.spec.storageSize != "" then d.spec.storageSize else STORAGE_SIZE))
  }

  function ServiceAccountFor(d: Desired): Object {
    Object(ServiceAccount, d.ns, SERVICE_ACCOUNT, Unmodelled)
  }

  function ClusterRoleFor(d: Desired): Object {
    Object(ClusterRole, "", CLUSTER_ROLE, Unmodelled)
  }

  function ClusterRoleBindingFor(d: Desired): Object {
    Object(ClusterRoleBinding, "", CLUSTER_ROLE_BINDING,
           Binding(ServiceAccount, d.ns, SERVICE_ACCOUNT, ClusterRole, CLUSTER_ROLE))
  }

  function RoleFor(d: Desired): Object {
    Object(Role, d.ns, ROLE, Unmodelled)
  }

  function RoleBindingFor(d: Desired): Object {
    Object(RoleBinding, d.ns, ROLE_BINDING, Binding(ServiceAccount, d.ns, SERVICE_ACCOUNT, Role, ROLE))
  }

  datatype StorageType = UsePvc | UseHostPath

  function VolumeFor(d: Desired, t: StorageType): Volume {
    if t.UseHostPath? then HostPath(d.spec.hostPathDir) else Claim(ClaimName(d.spec))
  }

  function DeploymentFor(d: Desired, t: StorageType): Object {
    var selector := if d.spec.nodeSelector.Some? then d.spec.nodeSelector.value else NODE_SELECTOR;
    Object(Deployment, d.ns, DEPLOYMENT,
           Workload(LabelsFor(d.name), if t.UsePvc? then map[] else selector, SERVICE_ACCOUNT, VolumeFor(d, t)))
  }

  function ServiceFor(d: Desired): Object {
    Object(Service, d.ns, SERVICE, Endpoint(LabelsFor(d.name)))
  }

  function StorageClassFor(d: Desired): Object {
    Object(StorageClass, "", if d.spec.scForNfs != "" then d.spec.scForNfs else SC_FOR_NFS, Unmodelled)
  }

  /** The keys that a stored object names in its payload. */
  function References(o: Object): set<Key> {
    match o.payload
    case Binding(subjectKind, subjectNs, subjectName, roleKind, roleName) =>
      {Key(subjectKind, subjectNs, subjectName), Key(roleKind, if Namespaced(roleKind) then o.ns else "", roleName)}
    case Workload(_, _, sa, Claim(claimName)) =>
      {Key(ServiceAccount, o.ns, sa), Key(PersistentVolumeClaim, o.ns, claimName)}
    case Workload(_, _, sa, HostPath(_)) =>
      {Key(ServiceAccount, o.ns, sa)}
    case _ => {}
  }
}
