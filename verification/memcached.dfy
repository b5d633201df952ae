/** The memcached reconciler: one Deployment per custom resource, drift correction, and a status that lists the pods. */
module Memcached {
  /** Namespace and name. */
  datatype Key = Key(ns: string, name: string)

  /** A Go slice of names: nil and empty are different values for a deep comparison. */
  datatype Nodes = Nil | Names(names: seq<string>)

  datatype Resource = Resource(size: int, nodes: Nodes)

  datatype Deployment = Deployment(replicas: int, selector: map<string, string>, podLabels: map<string, string>)

  datatype Pod = Pod(ns: string, name: string, labels: map<string, string>)

  /** `pods` is in the order in which the API lists them. */
  datatype World = World(resources: map<Key, Resource>, deployments: map<Key, Deployment>, pods: seq<Pod>)

  datatype Fault = Fine | Refused | Lost

  datatype Outcome = Done | Requeue | Error

  // ---------------------------------------------------------------- labels and pods

  function LabelsFor(name: string): map<string, string> {
    map["app" := "memcached", "memcached_cr" := name]
  }

  predicate Matches(selector: map<string, string>, labels: map<string, string>) {
    forall key :: key in selector ==> key in labels && labels[key] == selector[key]
  }

  predicate Selects(k: Key, pod: Pod) {
    pod.ns == k.ns && Matches(LabelsFor(k.name), pod.labels)
  }

  /** What the List call answers for resource `k`. */
  function Listed(pods: seq<Pod>, k: Key): (r: seq<Pod>)
    ensures forall pod :: pod in r <==> pod in pods && Selects(k, pod)
    ensures |r| <= |pods|
  {
    if pods == [] then []
    else (if Selects(k, pods[0]) then [pods[0]] else []) + Listed(pods[1..], k)
  }

  /** The slice that appending the pods' names to a nil slice yields. */
  function PodNames(pods: seq<Pod>): Nodes {
    if pods == [] then Nil else Names(seq(|pods|, i requires 0 <= i < |pods| => pods[i].name))
  }

  function DeploymentFor(k: Key, m: Resource): Deployment {
    Deployment(m.size, LabelsFor(k.name), LabelsFor(k.name))
  }

  // ---------------------------------------------------------------- one reconcile

  function FaultAt(faults: seq<Fault>, i: nat): Fault {
    if i < |faults| then faults[i] else Fine
  }

  /** A write: refused, or done with its reply lost, or done. */
  function Write(w: World, w': World, f: Fault, outcome: Outcome): (World, Outcome) {
    match f
    case Fine => (w', outcome)
    case Refused => (w, Error)
    case Lost => (w', Error)
  }

  function Reconcile(w: World, k: Key, faults: seq<Fault>): (World, Outcome) {
    if !FaultAt(faults, 0).Fine? then (w, Error)
    else if k !in w.resources then (w, Done)
    else
      var m := w.resources[k];
      if !FaultAt(faults, 1).Fine? then (w, Error)
      else if k !in w.deployments then
        Write(w, w.(deployments := w.deployments[k := DeploymentFor(k, m)]), FaultAt(faults, 2), Requeue)
      else if w.deployments[k].replicas != m.size then
        Write(w, w.(deployments := w.deployments[k := w.deployments[k].(replicas := m.size)]), FaultAt(faults, 2), Requeue)
      else if !FaultAt(faults, 2).Fine? then (w, Error)
      else
        var nodes := PodNames(Listed(w.pods, k));
        if nodes != m.nodes then Write(w, w.(resources := w.resources[k := m.(nodes := nodes)]), FaultAt(faults, 3), Done)
        else (w, Done)
  }

  /** Replicas as specified, status as listed. */
  predicate Converged(w: World, k: Key) {
    k in w.resources && k in w.deployments && w.deployments[k].replicas == w.resources[k].size &&
    w.resources[k].nodes == PodNames(Listed(w.pods, k))
  }

  /** How many undisturbed reconciles are still needed. */
  function Distance(w: World, k: Key): nat {
    if Converged(w, k) then 0
    else if k in w.resources && k in w.deployments && w.deployments[k].replicas == w.resources[k].size then 1
    else 2
  }

  /** A reconcile that reports success without asking for another has converged; with no failing call it asks for another
      exactly when it had to touch the Deployment. */
  lemma DoneMeansConverged(w: World, k: Key, faults: seq<Fault>)
    requires k in w.resources
    ensures Reconcile(w, k, faults).1.Done? ==> Converged(Reconcile(w, k, faults).0, k)
    ensures Reconcile(w, k, []).1 == if Distance(w, k) == 2 then Requeue else Done
  {
  }

  /** How many API calls a reconcile makes if none fails; with a Deployment to write, or a status, the last one is a write. */
  function CallsOf(w: World, k: Key): nat {
    if k !in w.resources then 1
    else if k !in w.deployments || w.deployments[k].replicas != w.resources[k].size then 3
    else if w.resources[k].nodes == PodNames(Listed(w.pods, k)) then 3
    else 4
  }

  /** The index of the first call that fails, or the number of calls. */
  function FirstFault(faults: seq<Fault>, n: nat): (i: nat)
    ensures i <= n && (forall j :: 0 <= j < i ==> FaultAt(faults, j).Fine?) && (i < n ==> !FaultAt(faults, i).Fine?)
  {
    if n == 0 then 0
    else
      var i := FirstFault(faults, n - 1);
      if i == n - 1 && FaultAt(faults, n - 1).Fine? then n else i
  }

  /** A reconcile reports an error exactly when one of its calls fails; for an absent resource it is done at once. After an
      error it has changed nothing, unless the call was the write and only its reply was lost: then it has done what it
      does without a fault. */
  lemma FaultsExact(w: World, k: Key, faults: seq<Fault>)
    ensures var n, r := CallsOf(w, k), Reconcile(w, k, faults);
            var i := FirstFault(faults, n);
            if i == n then r == Reconcile(w, k, []) && r.1 != Error && (k !in w.resources ==> r == (w, Done))
            else r == (if i == n - 1 && FaultAt(faults, i).Lost? then Reconcile(w, k, []).0 else w, Error)
  {
  }

  /** On a converged resource a reconcile writes nothing, and without a failing call it does not requeue. */
  lemma ConvergedIsStable(w: World, k: Key, faults: seq<Fault>)
    requires Converged(w, k)
    ensures Reconcile(w, k, faults).0 == w
    ensures Reconcile(w, k, []).1.Done?
  {
  }

  /** What a reconcile of one resource leaves alone: every other resource and Deployment, all specs, all pods. */
  lemma Isolation(w: World, k: Key, faults: seq<Fault>, other: Key)
    ensures var w' := Reconcile(w, k, faults).0;
            && w'.pods == w.pods && w'.resources.Keys == w.resources.Keys
            && (other != k ==> (other in w'.deployments <==> other in w.deployments))
            && (other != k && other in w.deployments ==> w'.deployments[other] == w.deployments[other])
            && (other != k && other in w.resources ==> w'.resources[other] == w.resources[other])
            && (other in w.resources ==> w'.resources[other].size == w.resources[other].size)
  {
  }

  // ---------------------------------------------------------------- convergence

  /** One turn of the work queue: a reconcile of some resource, with whatever goes wrong in it. */
  datatype Turn = Turn(key: Key, faults: seq<Fault>)

  function Run(w: World, turns: seq<Turn>): World
    decreases |turns|
  {
    if turns == [] then w else Run(Reconcile(w, turns[0].key, turns[0].faults).0, turns[1..])
  }

  predicate Clean(faults: seq<Fault>) {
    forall f :: f in faults ==> f.Fine?
  }

  /** Turns for `k`, and those of them in which some call fails. */
  function TurnsFor(turns: seq<Turn>, k: Key): nat {
    if turns == [] then 0 else (if turns[0].key == k then 1 else 0) + TurnsFor(turns[1..], k)
  }

  function FailedTurnsFor(turns: seq<Turn>, k: Key): nat {
    if turns == [] then 0 else (if turns[0].key == k && !Clean(turns[0].faults) then 1 else 0) + FailedTurnsFor(turns[1..], k)
  }

  lemma CleanReconcile(w: World, k: Key, faults: seq<Fault>)
    requires Clean(faults)
    ensures Reconcile(w, k, faults) == Reconcile(w, k, [])
  {
  }

  /** A turn never takes a resource further away, a clean turn takes it one step closer. */
  lemma TurnDistance(w: World, k: Key, turn: Turn)
    requires k in w.resources
    ensures var w' := Reconcile(w, turn.key, turn.faults).0;
            k in w'.resources && Distance(w', k) <= Distance(w, k) &&
            (turn.key == k && Clean(turn.faults) && Distance(w, k) > 0 ==> Distance(w', k) < Distance(w, k))
  {
    if turn.key != k {
      Isolation(w, turn.key, turn.faults, k);
    } else if Clean(turn.faults) {
      CleanReconcile(w, k, turn.faults);
    }
  }

  lemma {:induction false} RunDistance(w: World, k: Key, turns: seq<Turn>)
    requires k in w.resources
    ensures FailedTurnsFor(turns, k) <= TurnsFor(turns, k)
    ensures k in Run(w, turns).resources
    ensures Distance(Run(w, turns), k) == 0 ||
            Distance(Run(w, turns), k) + TurnsFor(turns, k) - FailedTurnsFor(turns, k) <= Distance(w, k)
    decreases |turns|
  {
    if turns != [] {
      TurnDistance(w, k, turns[0]);
      RunDistance(Reconcile(w, turns[0].key, turns[0].faults).0, k, turns[1..]);
    }
  }

  /** Convergence: once nobody edits specs, Deployments or pods any more, a resource has converged after two reconciles
      more than fail, wherever it started and however many reconciles of other resources come in between; from then on
      reconciles write nothing to it. */
  lemma Converges(w: World, k: Key, turns: seq<Turn>)
    requires k in w.resources && TurnsFor(turns, k) >= FailedTurnsFor(turns, k) + 2
    ensures Converged(Run(w, turns), k)
    ensures forall faults :: Reconcile(Run(w, turns), k, faults).0 == Run(w, turns)
    ensures Reconcile(Run(w, turns), k, []).1.Done?
  {
    RunDistance(w, k, turns);
    forall faults: seq<Fault>
      ensures Reconcile(Run(w, turns), k, faults).0 == Run(w, turns)
    {
      ConvergedIsStable(Run(w, turns), k, faults);
    }
    ConvergedIsStable(Run(w, turns), k, []);
  }

  /** Two is the least: a fresh resource with pods already carrying its labels needs both. */
  lemma TwoAreNeeded(k: Key, size: int)
    ensures var w := World(map[k := Resource(size, Nil)], map[], [Pod(k.ns, "p", LabelsFor(k.name))]);
            !Converged(Run(w, [Turn(k, [])]), k)
  {
  }

  // ---------------------------------------------------------------- the status is exact

  /** The indices of the selected pods, in list order. */
  function SelectedIndices(pods: seq<Pod>, k: Key): (r: seq<nat>)
    ensures forall i: nat :: i in r <==> i < |pods| && Selects(k, pods[i])
    ensures forall a :: 0 <= a < |r| ==> r[a] < |pods|
    ensures forall a, b :: 0 <= a < b < |r| ==> r[a] < r[b]
  {
    if pods == [] then []
    else
      SelectedIndices(pods[..|pods| - 1], k) + (if Selects(k, pods[|pods| - 1]) then [|pods| - 1] else [])
  }

  lemma {:induction false} ListedSnoc(pods: seq<Pod>, pod: Pod, k: Key)
    ensures Listed(pods + [pod], k) == Listed(pods, k) + (if Selects(k, pod) then [pod] else [])
    decreases |pods|
  {
    if pods == [] {
      assert pods + [pod] == [pod] && [pod][1..] == [];
    } else {
      assert (pods + [pod])[1..] == pods[1..] + [pod];
      ListedSnoc(pods[1..], pod, k);
    }
  }

  lemma {:induction false} ListedByIndex(pods: seq<Pod>, k: Key)
    ensures |Listed(pods, k)| == |SelectedIndices(pods, k)|
    ensures forall i :: 0 <= i < |Listed(pods, k)| ==> Listed(pods, k)[i] == pods[SelectedIndices(pods, k)[i]]
    decreases |pods|
  {
    if pods != [] {
      var init := pods[..|pods| - 1];
      assert pods == init + [pods[|pods| - 1]];
      ListedByIndex(init, k);
      ListedSnoc(init, pods[|pods| - 1], k);
      var n := |Listed(init, k)|;
      forall i | 0 <= i < |Listed(pods, k)|
        ensures Listed(pods, k)[i] == pods[SelectedIndices(pods, k)[i]]
      {
        if i < n {
          assert SelectedIndices(pods, k)[i] == SelectedIndices(init, k)[i];
        }
      }
    }
  }

  /** Whenever the status step completes, the stored nodes are the names of exactly the pods carrying this resource's
      labels in its namespace, in list order, and nil when there is none. */
  lemma StatusExact(w: World, k: Key, faults: seq<Fault>)
    requires k in w.resources && Reconcile(w, k, faults).1.Done?
    ensures var nodes, indices := Reconcile(w, k, faults).0.resources[k].nodes, SelectedIndices(w.pods, k);
            if indices == [] then nodes == Nil
            else nodes.Names? && |nodes.names| == |indices| &&
                 forall i :: 0 <= i < |indices| ==> nodes.names[i] == w.pods[indices[i]].name
  {
    DoneMeansConverged(w, k, faults);
    Isolation(w, k, faults, k);
    ListedByIndex(w.pods, k);
  }

  /** No pod is counted for two resources, and the pods of a resource's own Deployment are counted for it. */
  lemma NoSharedPods(a: Key, b: Key, pod: Pod)
    requires Selects(a, pod) && Selects(b, pod)
    ensures a == b
  {
    assert "memcached_cr" in LabelsFor(a.name) && "memcached_cr" in LabelsFor(b.name);
  }

  /** The pods of a Deployment are counted for its own resource and no other. */
  lemma OwnPodsSelected(k: Key, m: Resource, name: string, a: Key)
    ensures Selects(a, Pod(k.ns, name, DeploymentFor(k, m).podLabels)) <==> a == k
  {
    if Selects(a, Pod(k.ns, name, DeploymentFor(k, m).podLabels)) {
      NoSharedPods(a, k, Pod(k.ns, name, DeploymentFor(k, m).podLabels));
    }
  }

  predicate Labelled(labels: map<string, string>, name: string) {
    "app" in labels && labels["app"] == "memcached" && "memcached_cr" in labels && labels["memcached_cr"] == name
  }

  /** The List call and the Deployment's selector both go by the two labels, the former within the namespace. */
  lemma SelectsExact(k: Key, m: Resource, pod: Pod)
    ensures Selects(k, pod) <==> pod.ns == k.ns && Labelled(pod.labels, k.name)
    ensures Matches(DeploymentFor(k, m).selector, pod.labels) <==> Labelled(pod.labels, k.name)
  {
    var labels := LabelsFor(k.name);
    assert labels["app"] == "memcached" && labels["memcached_cr"] == k.name;
    assert "app" in labels && "memcached_cr" in labels;
  }

  /** The Deployments of two resources never claim each other's pods: a selector fits the pods of exactly its own name. */
  lemma SelectorExact(a: Key, m: Resource, b: Key, n: Resource)
    ensures Matches(DeploymentFor(a, m).selector, DeploymentFor(b, n).podLabels) <==> a.name == b.name
  {
    assert "memcached_cr" in DeploymentFor(a, m).selector;
  }

  /** What a reconcile makes of its Deployment: a missing one gets the specified size and a selector that fits the pods of
      this name only, its own among them; on an existing one at most the size changes. */
  lemma DeploymentExact(w: World, k: Key, faults: seq<Fault>)
    requires k in w.resources && k in Reconcile(w, k, faults).0.deployments
    ensures var d := Reconcile(w, k, faults).0.deployments[k];
            if k in w.deployments then
              d == w.deployments[k] || d == w.deployments[k].(replicas := w.resources[k].size)
            else
              && d.replicas == w.resources[k].size && d.selector == d.podLabels && Labelled(d.podLabels, k.name)
              && forall b: Key, n: Resource :: Matches(d.selector, DeploymentFor(b, n).podLabels) <==> b.name == k.name
  {
    if k !in w.deployments {
      forall b: Key, n: Resource
        ensures Matches(DeploymentFor(k, w.resources[k]).selector, DeploymentFor(b, n).podLabels) <==> b.name == k.name
      {
        SelectorExact(k, w.resources[k], b, n);
      }
    }
  }

  // ---------------------------------------------------------------- the reconciler

  class Cluster {
    var resources: map<Key, Resource>
    var deployments: map<Key, Deployment>
    var pods: seq<Pod>
    var faults: seq<Fault>

    constructor (w: World, faults: seq<Fault>)
      ensures View() == w && this.faults == faults
    {
      resources, deployments, pods, this.faults := w.resources, w.deployments, w.pods, faults;
    }

    ghost function View(): World
      reads this
    {
      World(resources, deployments, pods)
    }

    /** The fate of the next call. */
    method NextFault() returns (f: Fault)
      modifies this`faults
      ensures f == FaultAt(old(faults), 0)
      ensures forall i: nat :: FaultAt(faults, i) == FaultAt(old(faults), i + 1)
    {
      f := FaultAt(faults, 0);
      faults := if faults == [] then [] else faults[1..];
    }

    method PutDeployment(k: Key, d: Deployment) returns (ok: bool)
      modifies this`faults, this`deployments
      ensures var f := FaultAt(old(faults), 0);
              ok == f.Fine? && deployments == if f.Refused? then old(deployments) else old(deployments)[k := d]
    {
      var f := NextFault();
      if !f.Refused? {
        deployments := deployments[k := d];
      }
      ok := f.Fine?;
    }

    method PutStatus(k: Key, nodes: Nodes) returns (ok: bool)
      requires k in resources
      modifies this`faults, this`resources
      ensures var f := FaultAt(old(faults), 0);
              ok == f.Fine? &&
              resources == if f.Refused? then old(resources) else old(resources)[k := old(resources)[k].(nodes := nodes)]
    {
      var f := NextFault();
      if !f.Refused? {
        resources := resources[k := resources[k].(nodes := nodes)];
      }
      ok := f.Fine?;
    }
  }

  /** Appends the names of the pods one by one to a slice that starts out nil. */
  method GetPodNames(pods: seq<Pod>) returns (podNames: Nodes)
    ensures podNames == PodNames(pods)
  {
    podNames := Nil;
    for i := 0 to |pods|
      invariant podNames == PodNames(pods[..i])
    {
      podNames := Names((if podNames.Nil? then [] else podNames.names) + [pods[i].name]);
    }
    assert pods[..|pods|] == pods;
  }

  /** One reconcile of `req`, as the specification function says. */
  method ReconcileRequest(api: Cluster, req: Key) returns (outcome: Outcome)
    modifies api
    ensures (api.View(), outcome) == Reconcile(old(api.View()), req, old(api.faults))
  {
    var f := api.NextFault();
    if !f.Fine? {
      return Error;
    }
    if req !in api.resources {
      return Done;
    }
    var memcached := api.resources[req];

    f := api.NextFault();
    if !f.Fine? {
      return Error;
    }
    if req !in api.deployments {
      var created := api.PutDeployment(req, DeploymentFor(req, memcached));
      return if created then Requeue else Error;
    }
    var found := api.deployments[req];

    var size := memcached.size;
    if found.replicas != size {
      found := found.(replicas := size);
      var updated := api.PutDeployment(req, found);
      return if updated then Requeue else Error;
    }

    f := api.NextFault();
    if !f.Fine? {
      return Error;
    }
    var podNames := GetPodNames(Listed(api.pods, req));
    if podNames != memcached.nodes {
      var stored := api.PutStatus(req, podNames);
      return if stored then Done else Error;
    }
    return Done;
  }
}
