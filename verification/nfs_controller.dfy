/** The NFSProvisioner controller as a machine that makes one API call per step. */
module NfsController {
  import opened Prelude
  import opened NfsTypes
  import opened NfsCluster

  // ---------------------------------------------------------------- the create phase as a table

  /** When the controller creates the object it has just looked up. */
  datatype Policy = IfNotFound | IfAnyError | LookOnly

  datatype Step = Step(lookup: Key, make: Object, policy: Policy)

  predicate Creates(policy: Policy, reply: Reply) {
    match policy
    case IfNotFound => reply.NotFound?
    case IfAnyError => !reply.Ok?
    case LookOnly => false
  }

  function SccStep(d: Desired): Step {
    Step(Key(SecurityContextConstraints, "", SCC_NAME), SccFor(d), IfNotFound)
  }

  function ClaimKey(d: Desired): Key {
    Key(PersistentVolumeClaim, d.ns, ClaimName(d.spec))
  }

  function PvcStep(d: Desired): Step {
    Step(ClaimKey(d), PvcFor(d), IfNotFound)
  }

  function StorageTypeOf(spec: Spec): StorageType {
    if spec.hostPathDir != "" then UseHostPath else UsePvc
  }

  /** The eight steps after the storage decision. */
  function LaterSteps(d: Desired): seq<Step> {
    [ Step(Key(ServiceAccount, d.ns, SERVICE_ACCOUNT), ServiceAccountFor(d), IfNotFound),
      Step(Key(ClusterRole, "", CLUSTER_ROLE), ClusterRoleFor(d), IfAnyError),
      Step(Key(ClusterRoleBinding, "", CLUSTER_ROLE_BINDING), ClusterRoleBindingFor(d), IfAnyError),
      Step(Key(Role, d.ns, ROLE), RoleFor(d), IfAnyError),
      Step(Key(RoleBinding, d.ns, ROLE_BINDING), RoleBindingFor(d), IfAnyError),
      Step(Key(Deployment, d.ns, DEPLOYMENT), DeploymentFor(d, StorageTypeOf(d.spec)), IfNotFound),
      Step(Key(Service, d.ns, SERVICE), ServiceFor(d), IfNotFound),
      Step(Key(StorageClass, "", if d.spec.scForNfs != "" then d.spec.scForNfs else SC_FOR_NFS), StorageClassFor(d),
           if d.spec.scForNfs == "" then IfNotFound else LookOnly) ]
  }

  /** Everything the create phase looks up, in order. */
  function Plan(d: Desired): seq<Step> {
    if d.spec.hostPathDir != "" then [SccStep(d)] + LaterSteps(d)
    else [SccStep(d), PvcStep(d)] + LaterSteps(d)
  }

  // ---------------------------------------------------------------- the machine

  datatype Outcome = Done | Requeue | Error

  /** The next API call. `m` is the copy of the resource that this reconcile read at its start. */
  datatype Pc =
    | Idle(last: Outcome)
    | WriteStatus(m: Nfs)
    | Look(m: Nfs, step: Step, rest: seq<Step>)
    | Make(m: Nfs, step: Step, rest: seq<Step>)
    | StoreFinalizer(m: Nfs)
    | LookRole(m: Nfs)
    | DropRole(m: Nfs)
    | LookBinding(m: Nfs)
    | DropBinding(m: Nfs)
    | ClearFinalizer(m: Nfs)

  datatype Sys = Sys(w: World, pc: Pc)

  /** Past the create phase: the finalizer protocol. */
  function AfterCreate(m: Nfs): Pc {
    if !m.marked then
      if FINALIZER in m.finalizers then Idle(Requeue) else StoreFinalizer(m)
    else
      if FINALIZER in m.finalizers then LookRole(m) else Idle(Done)
  }

  function Advance(m: Nfs, todo: seq<Step>): Pc {
    if todo == [] then AfterCreate(m) else Look(m, todo[0], todo[1..])
  }

  function Begin(m: Nfs): Pc {
    if Valid(m.desired.spec) then Advance(m, Plan(m.desired)) else WriteStatus(m)
  }

  function WithFinalizer(m: Nfs): Nfs {
    m.(finalizers := m.finalizers + [FINALIZER])
  }

  function WithoutFinalizer(m: Nfs): Nfs {
    m.(finalizers := Without(m.finalizers, FINALIZER))
  }

  /** One API call and what the controller decides from its reply. An idle controller starts a reconcile. */
  function Next(s: Sys, f: Fault): Sys {
    var w := s.w;
    match s.pc
    case Idle(_) =>
      var reply := ReadCr(w, f);
      Sys(w, if reply.Ok? then Begin(w.cr.value) else Idle(if reply.NotFound? then Done else Error))
    case WriteStatus(m) =>
      var (w', reply) := UpdateStatus(w, m.(status := RejectedStatus(m.desired.spec)), f);
      Sys(w', Idle(if reply.Ok? then Done else Error))
    case Look(m, step, rest) =>
      Sys(w, if Creates(step.policy, Read(w, step.lookup, f)) then Make(m, step, rest) else Advance(m, rest))
    case Make(m, step, rest) =>
      var (w', reply) := Create(w, step.make, f);
      Sys(w', if reply.Ok? then Advance(m, rest) else Idle(Error))
    case StoreFinalizer(m) =>
      var (w', reply) := UpdateCr(w, WithFinalizer(m), f);
      Sys(w', Idle(if reply.Ok? then Requeue else Error))
    case LookRole(m) =>
      Sys(w, if Read(w, ROLE_KEY, f).Ok? then DropRole(m) else LookBinding(m))
    case DropRole(m) =>
      var (w', reply) := Delete(w, ROLE_KEY, f);
      Sys(w', if reply.Ok? then LookBinding(m) else Idle(Error))
    case LookBinding(m) =>
      Sys(w, if Read(w, BINDING_KEY, f).Ok? then DropBinding(m) else ClearFinalizer(m))
    case DropBinding(m) =>
      var (w', reply) := Delete(w, BINDING_KEY, f);
      Sys(w', if reply.Ok? then ClearFinalizer(m) else Idle(Error))
    case ClearFinalizer(m) =>
      var (w', reply) := UpdateCr(w, WithoutFinalizer(m), f);
      Sys(w', Idle(if reply.Ok? then Done else Error))
  }

  // ---------------------------------------------------------------- runs

  /** A run interleaves single calls of the controller with single actions of other clients. */
  datatype Label = Env(action: Action) | Call(fault: Fault)

  function Do(s: Sys, l: Label): Sys {
    match l
    case Env(a) => s.(w := Apply(s.w, a))
    case Call(f) => Next(s, f)
  }

  function Exec(s: Sys, run: seq<Label>): Sys
    decreases |run|
  {
    if run == [] then s else Exec(Do(s, run[0]), run[1..])
  }

  /** An upper bound on the calls left in the current reconcile. */
  function Rank(pc: Pc): nat {
    match pc
    case Idle(_) => 0
    case WriteStatus(_) => 1
    case StoreFinalizer(_) => 1
    case ClearFinalizer(_) => 1
    case DropBinding(_) => 2
    case LookBinding(_) => 3
    case DropRole(_) => 4
    case LookRole(_) => 5
    case Make(_, _, rest) => 6 + 2 * |rest|
    case Look(_, _, rest) => 7 + 2 * |rest|
  }

  /** One tick: others act, then the controller makes its call. */
  function Tock(s: Sys, t: Tick): Sys {
    Next(s.(w := ApplyAll(s.w, t.env)), t.fault)
  }

  /** Runs the current reconcile to its end, one tick a call; past the given ticks nothing goes wrong. */
  function Drive(s: Sys, ticks: seq<Tick>): (r: Sys)
    ensures r.pc.Idle?
    decreases Rank(s.pc)
  {
    if s.pc.Idle? then s else Drive(Tock(s, Head(ticks)), Tail(ticks))
  }

  /** A whole reconcile. */
  function Reconcile(w: World, ticks: seq<Tick>): (r: Sys)
    ensures r.pc.Idle?
  {
    Drive(Tock(Sys(w, Idle(Done)), Head(ticks)), Tail(ticks))
  }

  /** Serial reconciles, each with its own ticks. */
  function ReconcileAll(w: World, tapes: seq<seq<Tick>>): World
    decreases |tapes|
  {
    if tapes == [] then w else ReconcileAll(Reconcile(w, tapes[0]).w, tapes[1..])
  }

  // ---------------------------------------------------------------- a reconcile is a run

  function EnvLabels(actions: seq<Action>): seq<Label> {
    if actions == [] then [] else [Env(actions[0])] + EnvLabels(actions[1..])
  }

  function TickLabels(t: Tick): seq<Label> {
    EnvLabels(t.env) + [Call(t.fault)]
  }

  function DriveLabels(s: Sys, ticks: seq<Tick>): seq<Label>
    decreases Rank(s.pc)
  {
    if s.pc.Idle? then [] else TickLabels(Head(ticks)) + DriveLabels(Tock(s, Head(ticks)), Tail(ticks))
  }

  lemma {:induction false} ExecAppend(s: Sys, a: seq<Label>, b: seq<Label>)
    ensures Exec(s, a + b) == Exec(Exec(s, a), b)
    decreases |a|
  {
    if a == [] {
      assert a + b == b;
    } else {
      assert (a + b)[1..] == a[1..] + b;
      ExecAppend(Do(s, a[0]), a[1..], b);
    }
  }

  lemma {:induction false} TickIsRun(s: Sys, env: seq<Action>, f: Fault)
    ensures Exec(s, TickLabels(Tick(env, f))) == Tock(s, Tick(env, f))
    decreases |env|
  {
    if env == [] {
      assert TickLabels(Tick(env, f)) == [Call(f)];
      assert Exec(s, [Call(f)]) == Exec(Next(s, f), []);
    } else {
      assert TickLabels(Tick(env, f)) == [Env(env[0])] + TickLabels(Tick(env[1..], f));
      TickIsRun(s.(w := Apply(s.w, env[0])), env[1..], f);
    }
  }

  /** The rest of a reconcile under way is a run of the machine. */
  lemma {:induction false} DriveIsRun(s: Sys, ticks: seq<Tick>)
    ensures Exec(s, DriveLabels(s, ticks)) == Drive(s, ticks)
    decreases Rank(s.pc)
  {
    if !s.pc.Idle? {
      var t := Head(ticks);
      TickIsRun(s, t.env, t.fault);
      ExecAppend(s, TickLabels(t), DriveLabels(Tock(s, t), Tail(ticks)));
      DriveIsRun(Tock(s, t), Tail(ticks));
    }
  }

  /** The labels of a whole reconcile: its first call, with what happens before it, and the rest. */
  function ReconcileLabels(w: World, ticks: seq<Tick>): seq<Label> {
    TickLabels(Head(ticks)) + DriveLabels(Tock(Sys(w, Idle(Done)), Head(ticks)), Tail(ticks))
  }

  /** A whole reconcile, with whatever happens between its calls, is a run from the idle controller. */
  lemma ReconcileIsRun(w: World, last: Outcome, ticks: seq<Tick>)
    ensures Exec(Sys(w, Idle(last)), ReconcileLabels(w, ticks)) == Reconcile(w, ticks)
  {
    var s, t := Sys(w, Idle(last)), Head(ticks);
    var s1 := Tock(Sys(w, Idle(Done)), t);
    TickIsRun(s, t.env, t.fault);
    ExecAppend(s, TickLabels(t), DriveLabels(s1, Tail(ticks)));
    DriveIsRun(s1, Tail(ticks));
  }

  function ReconcileAllLabels(w: World, tapes: seq<seq<Tick>>): seq<Label>
    decreases |tapes|
  {
    if tapes == [] then [] else ReconcileLabels(w, tapes[0]) + ReconcileAllLabels(Reconcile(w, tapes[0]).w, tapes[1..])
  }

  /** So are serial reconciles, one after the other. */
  lemma {:induction false} ReconcileAllIsRun(w: World, last: Outcome, tapes: seq<seq<Tick>>)
    ensures Exec(Sys(w, Idle(last)), ReconcileAllLabels(w, tapes)).w == ReconcileAll(w, tapes)
    ensures Exec(Sys(w, Idle(last)), ReconcileAllLabels(w, tapes)).pc.Idle?
    decreases |tapes|
  {
    if tapes != [] {
      var r := Reconcile(w, tapes[0]);
      ReconcileIsRun(w, last, tapes[0]);
      ExecAppend(Sys(w, Idle(last)), ReconcileLabels(w, tapes[0]), ReconcileAllLabels(r.w, tapes[1..]));
      ReconcileAllIsRun(r.w, r.pc.last, tapes[1..]);
    }
  }
}
