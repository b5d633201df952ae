/** The NFSProvisioner reconciler in the form of its source: straight-line code with early returns over a shared
    API server. Each method is proved to do what the machine of NfsController does. */
module NfsReconciler {
  import opened Prelude
  import opened NfsTypes
  import opened NfsCluster
  import C = NfsController

  /** The shared cluster. `ticks` says what happens before and to each of the coming calls. */
  class ApiServer {
    var store: map<Key, Object>
    var cr: Option<Nfs>
    var clock: nat
    var ticks: seq<Tick>

    constructor (w: World, ticks: seq<Tick>)
      ensures View() == w && this.ticks == ticks
    {
      store, cr, clock := w.store, w.cr, w.clock;
      this.ticks := ticks;
    }

    ghost function View(): World
      reads this
    {
      World(store, cr, clock)
    }

    /** The world as the next call finds it. */
    ghost function Found(): World
      reads this
    {
      ApplyAll(View(), Head(ticks).env)
    }

    /** Other clients act; then the next call meets its fault. */
    method Interfere() returns (f: Fault)
      modifies this
      ensures View() == old(Found()) && f == old(Head(ticks).fault) && ticks == old(Tail(ticks))
    {
      var w := ApplyAll(World(store, cr, clock), Head(ticks).env);
      f := Head(ticks).fault;
      store, cr, clock, ticks := w.store, w.cr, w.clock, Tail(ticks);
    }

    method Commit(w: World)
      modifies this
      ensures View() == w && ticks == old(ticks)
    {
      store, cr, clock := w.store, w.cr, w.clock;
    }

    method Get(k: Key) returns (reply: Reply)
      modifies this
      ensures View() == old(Found()) && ticks == old(Tail(ticks))
      ensures reply == Read(View(), k, old(Head(ticks).fault))
    {
      var f := Interfere();
      reply := Read(World(store, cr, clock), k, f);
    }

    method GetCr() returns (reply: Reply, m: Option<Nfs>)
      modifies this
      ensures View() == old(Found()) && ticks == old(Tail(ticks))
      ensures reply == ReadCr(View(), old(Head(ticks).fault))
      ensures reply.Ok? ==> m == cr && m.Some?
    {
      var f := Interfere();
      reply := ReadCr(World(store, cr, clock), f);
      m := cr;
    }

    method CreateObject(o: Object) returns (reply: Reply)
      modifies this
      ensures (View(), reply) == Create(old(Found()), o, old(Head(ticks).fault)) && ticks == old(Tail(ticks))
    {
      var f := Interfere();
      var (w, r) := Create(World(store, cr, clock), o, f);
      Commit(w);
      reply := r;
    }

    method DeleteObject(k: Key) returns (reply: Reply)
      modifies this
      ensures (View(), reply) == Delete(old(Found()), k, old(Head(ticks).fault)) && ticks == old(Tail(ticks))
    {
      var f := Interfere();
      var (w, r) := Delete(World(store, cr, clock), k, f);
      Commit(w);
      reply := r;
    }

    method Update(m: Nfs) returns (reply: Reply)
      modifies this
      ensures (View(), reply) == UpdateCr(old(Found()), m, old(Head(ticks).fault)) && ticks == old(Tail(ticks))
    {
      var f := Interfere();
      var (w, r) := UpdateCr(World(store, cr, clock), m, f);
      Commit(w);
      reply := r;
    }

    method StatusUpdate(m: Nfs) returns (reply: Reply)
      modifies this
      ensures (View(), reply) == UpdateStatus(old(Found()), m, old(Head(ticks).fault)) && ticks == old(Tail(ticks))
    {
      var f := Interfere();
      var (w, r) := UpdateStatus(World(store, cr, clock), m, f);
      Commit(w);
      reply := r;
    }
  }

  method ContainsString(slice: seq<string>, s: string) returns (found: bool)
    ensures found <==> s in slice
  {
    for i := 0 to |slice|
      invariant s !in slice[..i]
    {
      if slice[i] == s {
        return true;
      }
    }
    return false;
  }

  method RemoveString(slice: seq<string>, s: string) returns (result: seq<string>)
    ensures result == Without(slice, s)
  {
    result := [];
    for i := 0 to |slice|
      invariant result == Without(slice[..i], s)
    {
      assert slice[..i + 1] == slice[..i] + [slice[i]];
      WithoutAppend(slice[..i], [slice[i]], s);
      if slice[i] == s {
        continue;
      }
      result := result + [slice[i]];
    }
    assert slice[..|slice|] == slice;
  }

  class Reconciler {
    const api: ApiServer

    constructor (api: ApiServer)
      ensures this.api == api
    {
      this.api := api;
    }

    /** The machine state `pc` of the code, given that the whole reconcile is to end in `goal`. */
    ghost predicate Toward(goal: C.Sys, pc: C.Pc)
      reads api
    {
      goal == C.Drive(C.Sys(api.View(), pc), api.ticks)
    }

    /** Looks an object up and creates it as the policy says; `ok` is false when the Create failed. */
    method EnsureExists(lookup: Key, make: Object, policy: C.Policy, ghost m: Nfs, ghost rest: seq<C.Step>, ghost goal: C.Sys)
      returns (ok: bool)
      requires Toward(goal, C.Look(m, C.Step(lookup, make, policy), rest))
      modifies api
      ensures Toward(goal, if ok then C.Advance(m, rest) else C.Idle(C.Error))
    {
      var reply := api.Get(lookup);
      if C.Creates(policy, reply) {
        assert Toward(goal, C.Make(m, C.Step(lookup, make, policy), rest));
        var created := api.CreateObject(make);
        ok := created.Ok?;
      } else {
        ok := true;
      }
    }

    method DeleteExternalResources(ghost m: Nfs, ghost goal: C.Sys) returns (ok: bool)
      requires Toward(goal, C.LookRole(m))
      modifies api
      ensures Toward(goal, if ok then C.ClearFinalizer(m) else C.Idle(C.Error))
    {
      var reply := api.Get(ROLE_KEY);
      if reply.Ok? {
        assert Toward(goal, C.DropRole(m));
        reply := api.DeleteObject(ROLE_KEY);
        if !reply.Ok? {
          return false;
        }
      }
      assert Toward(goal, C.LookBinding(m));
      reply := api.Get(BINDING_KEY);
      if reply.Ok? {
        assert Toward(goal, C.DropBinding(m));
        reply := api.DeleteObject(BINDING_KEY);
        if !reply.Ok? {
          return false;
        }
      }
      return true;
    }

    /** ClusterRole, ClusterRoleBinding, Role and RoleBinding. */
    method EnsureRbac(m: Nfs, ghost goal: C.Sys) returns (ok: bool)
      requires Toward(goal, C.Advance(m, C.LaterSteps(m.desired)[1..]))
      modifies api
      ensures Toward(goal, if ok then C.Advance(m, C.LaterSteps(m.desired)[5..]) else C.Idle(C.Error))
    {
      var d := m.desired;
      ghost var later := C.LaterSteps(d);
      assert later[1..][1..] == later[2..];
      ok := EnsureExists(Key(ClusterRole, "", CLUSTER_ROLE), ClusterRoleFor(d), C.IfAnyError, m, later[2..], goal);
      if !ok { return; }
      assert later[2..][1..] == later[3..];
      ok := EnsureExists(Key(ClusterRoleBinding, "", CLUSTER_ROLE_BINDING), ClusterRoleBindingFor(d), C.IfAnyError, m, later[3..], goal);
      if !ok { return; }
      assert later[3..][1..] == later[4..];
      ok := EnsureExists(Key(Role, d.ns, ROLE), RoleFor(d), C.IfAnyError, m, later[4..], goal);
      if !ok { return; }
      assert later[4..][1..] == later[5..];
      ok := EnsureExists(Key(RoleBinding, d.ns, ROLE_BINDING), RoleBindingFor(d), C.IfAnyError, m, later[5..], goal);
    }

    /** Deployment, Service and StorageClass. */
    method EnsureWorkload(m: Nfs, ghost goal: C.Sys) returns (ok: bool)
      requires Toward(goal, C.Advance(m, C.LaterSteps(m.desired)[5..]))
      modifies api
      ensures Toward(goal, if ok then C.AfterCreate(m) else C.Idle(C.Error))
    {
      var d := m.desired;
      var storageType := if d.spec.hostPathDir != "" then UseHostPath else UsePvc;
      ghost var later := C.LaterSteps(d);
      assert later[5..][1..] == later[6..];
      ok := EnsureExists(Key(Deployment, d.ns, DEPLOYMENT), DeploymentFor(d, storageType), C.IfNotFound, m, later[6..], goal);
      if !ok { return; }
      assert later[6..][1..] == later[7..];
      ok := EnsureExists(Key(Service, d.ns, SERVICE), ServiceFor(d), C.IfNotFound, m, later[7..], goal);
      if !ok { return; }
      assert later[7..][1..] == [];
      var scName := if d.spec.scForNfs != "" then d.spec.scForNfs else SC_FOR_NFS;
      var policy := if d.spec.scForNfs == "" then C.IfNotFound else C.LookOnly;
      ok := EnsureExists(Key(StorageClass, "", scName), StorageClassFor(d), policy, m, [], goal);
    }

    /** The create phase. */
    method EnsureOwned(m: Nfs, ghost goal: C.Sys) returns (ok: bool)
      requires Toward(goal, C.Advance(m, C.Plan(m.desired)))
      modifies api
      ensures Toward(goal, if ok then C.AfterCreate(m) else C.Idle(C.Error))
    {
      var d := m.desired;
      ghost var plan := C.Plan(d);
      ok := EnsureExists(Key(SecurityContextConstraints, "", SCC_NAME), SccFor(d), C.IfNotFound, m, plan[1..], goal);
      if !ok { return; }
      if d.spec.hostPathDir == "" {
        assert plan[1] == C.PvcStep(d) && plan[1..][1..] == C.LaterSteps(d);
        ok := EnsureExists(Key(PersistentVolumeClaim, d.ns, ClaimName(d.spec)), PvcFor(d), C.IfNotFound, m, C.LaterSteps(d), goal);
        if !ok { return; }
      } else {
        assert plan[1..] == C.LaterSteps(d);
      }
      ok := EnsureExists(Key(ServiceAccount, d.ns, SERVICE_ACCOUNT), ServiceAccountFor(d), C.IfNotFound, m,
                         C.LaterSteps(d)[1..], goal);
      if !ok { return; }
      ok := EnsureRbac(m, goal);
      if !ok { return; }
      ok := EnsureWorkload(m, goal);
    }

    /** Reports a rejected spec in the status. */
    method RejectSpec(m: Nfs, ghost goal: C.Sys) returns (outcome: C.Outcome)
      requires Toward(goal, C.WriteStatus(m))
      modifies api
      ensures Toward(goal, C.Idle(outcome))
    {
      var reply := api.StatusUpdate(m.(status := RejectedStatus(m.desired.spec)));
      outcome := if reply.Ok? then C.Done else C.Error;
    }

    /** The delete logic: stores the finalizer, or cleans up and clears it. */
    method HandleFinalizer(m: Nfs, ghost goal: C.Sys) returns (outcome: C.Outcome)
      requires Toward(goal, C.AfterCreate(m))
      modifies api
      ensures Toward(goal, C.Idle(outcome))
    {
      var present := ContainsString(m.finalizers, FINALIZER);
      if !m.marked {
        if !present {
          assert Toward(goal, C.StoreFinalizer(m));
          var reply := api.Update(C.WithFinalizer(m));
          if !reply.Ok? {
            return C.Error;
          }
        }
        return C.Requeue;
      }
      if present {
        var ok := DeleteExternalResources(m, goal);
        if !ok {
          return C.Error;
        }
        var reply := api.Update(C.WithoutFinalizer(m));
        if !reply.Ok? {
          return C.Error;
        }
      }
      return C.Done;
    }

    /** One reconcile: whatever other clients do between its calls and whichever calls fail, it takes the cluster where
        the machine takes it and reports the machine's outcome. */
    method Reconcile() returns (outcome: C.Outcome)
      modifies api
      ensures C.Sys(api.View(), C.Idle(outcome)) == C.Reconcile(old(api.View()), old(api.ticks))
    {
      ghost var goal := C.Reconcile(api.View(), api.ticks);
      var reply, read := api.GetCr();
      if !reply.Ok? {
        return if reply.NotFound? then C.Done else C.Error;
      }
      var m := read.value;
      assert Toward(goal, C.Begin(m));
      if Validate(m.desired.spec).Some? {
        outcome := RejectSpec(m, goal);
        return;
      }
      var ok := EnsureOwned(m, goal);
      if !ok {
        return C.Error;
      }
      outcome := HandleFinalizer(m, goal);
    }
  }
}
