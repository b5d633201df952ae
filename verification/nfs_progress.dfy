/** Where reconciles of the NFSProvisioner controller lead: convergence, deletion, idempotence,
    and the exact conditions under which each of them holds. */
module NfsProgress {
  import opened Prelude
  import opened NfsTypes
  import opened NfsCluster
  import opened NfsController
  import opened NfsSafety

  // ---------------------------------------------------------------- tapes of faults

  predicate Quiet(ticks: seq<Tick>) {
    forall t :: t in ticks ==> t.env == []
  }

  predicate ReadsTrue(ticks: seq<Tick>) {
    forall t :: t in ticks ==> !t.fault.ReadError?
  }

  function FaultCount(ticks: seq<Tick>): nat {
    if ticks == [] then 0 else (if ticks[0].fault.Fine? then 0 else 1) + FaultCount(ticks[1..])
  }

  function TotalFaults(tapes: seq<seq<Tick>>): nat {
    if tapes == [] then 0 else FaultCount(tapes[0]) + TotalFaults(tapes[1..])
  }

  predicate QuietAll(tapes: seq<seq<Tick>>) {
    forall ticks :: ticks in tapes ==> Quiet(ticks)
  }

  predicate ReadsTrueAll(tapes: seq<seq<Tick>>) {
    forall ticks :: ticks in tapes ==> ReadsTrue(ticks)
  }

  /** Ticks on which nothing happens do not matter. */
  lemma {:induction false} FineDrive(s: Sys, ticks: seq<Tick>)
    requires Quiet(ticks) && FaultCount(ticks) == 0
    ensures Drive(s, ticks) == Drive(s, [])
    decreases Rank(s.pc)
  {
    if !s.pc.Idle? {
      assert Head(ticks).env == [] && Head(ticks).fault.Fine?;
      FineDrive(Tock(s, Head(ticks)), Tail(ticks));
    }
  }

  lemma FineReconcile(w: World, ticks: seq<Tick>)
    requires Quiet(ticks) && FaultCount(ticks) == 0
    ensures Reconcile(w, ticks) == Reconcile(w, [])
  {
    assert Head(ticks).env == [] && Head(ticks).fault.Fine?;
    FineDrive(Tock(Sys(w, Idle(Done)), Head(ticks)), Tail(ticks));
  }

  // ---------------------------------------------------------------- the plan

  function KindRank(k: Kind): nat {
    match k
    case SecurityContextConstraints => 0
    case PersistentVolumeClaim => 1
    case ServiceAccount => 2
    case ClusterRole => 3
    case ClusterRoleBinding => 4
    case Role => 5
    case RoleBinding => 6
    case Deployment => 7
    case Service => 8
    case StorageClass => 9
  }

  /** No two steps are about the same kind, so no step can help or hinder another. */
  predicate Ascending(todo: seq<Step>) {
    && (forall i :: 0 <= i < |todo| ==> todo[i].lookup.kind == todo[i].make.kind)
    && (forall i, j :: 0 <= i < j < |todo| ==> KindRank(todo[i].make.kind) < KindRank(todo[j].make.kind))
  }

  lemma LaterAscending(d: Desired, i: nat)
    requires i < 8
    ensures KindRank(LaterSteps(d)[i].make.kind) == i + 2 && LaterSteps(d)[i].lookup.kind == LaterSteps(d)[i].make.kind
  {
  }

  lemma PlanAscending(d: Desired)
    ensures Ascending(Plan(d))
  {
    var first := if d.spec.hostPathDir != "" then [SccStep(d)] else [SccStep(d), PvcStep(d)];
    var later := LaterSteps(d);
    forall i | 0 <= i < 8
      ensures KindRank(later[i].make.kind) == i + 2 && later[i].lookup.kind == later[i].make.kind
    {
      LaterAscending(d, i);
    }
    assert Ascending(first + later);
    assert Plan(d) == first + later;
  }

  predicate Missing(store: map<Key, Object>, step: Step) {
    step.lookup !in store && !step.policy.LookOnly?
  }

  /** The looked-up key is missing but the key of the object to create is taken: Create must fail. */
  predicate Stuck(store: map<Key, Object>, step: Step) {
    Missing(store, step) && StoredAt(step.make) in store
  }

  predicate Own(step: Step) {
    StoredAt(step.make) == step.lookup
  }

  /** The looked-up key and the created key agree for every kind except a claim the user named. */
  lemma KeysAgree(d: Desired, i: nat)
    requires i < |Plan(d)|
    ensures var step := Plan(d)[i];
            Own(step) <==> !(step.make.kind.PersistentVolumeClaim? && ClaimName(d.spec) != PVC_NAME)
    ensures Plan(d)[i].make.kind.PersistentVolumeClaim? ==> Plan(d)[i] == PvcStep(d) && d.spec.hostPathDir == ""
  {
  }

  function DefaultClaimKey(d: Desired): Key {
    Key(PersistentVolumeClaim, d.ns, PVC_NAME)
  }

  /** The claim the Deployment will mount is one the controller creates, or exists. */
  predicate ClaimReady(d: Desired, store: map<Key, Object>) {
    d.spec.hostPathDir != "" || ClaimName(d.spec) == PVC_NAME || ClaimKey(d) in store
  }

  /** The user's claim does not exist while the default claim does: every create phase ends there. */
  predicate ClaimStuck(d: Desired, store: map<Key, Object>) {
    d.spec.hostPathDir == "" && ClaimKey(d) !in store && DefaultClaimKey(d) in store
  }

  lemma StuckOnlyAtClaim(d: Desired, store: map<Key, Object>)
    ensures ClaimStuck(d, store) <==> exists i :: 0 <= i < |Plan(d)| && Stuck(store, Plan(d)[i])
  {
    forall i | 0 <= i < |Plan(d)| && Stuck(store, Plan(d)[i])
      ensures ClaimStuck(d, store)
    {
      KeysAgree(d, i);
    }
    if ClaimStuck(d, store) {
      assert Stuck(store, Plan(d)[1]);
    }
  }

  // ---------------------------------------------------------------- a create phase without faults

  /** The store after creating every missing object of `todo`. */
  function Fill(store: map<Key, Object>, todo: seq<Step>): map<Key, Object>
    decreases |todo|
  {
    if todo == [] then store
    else Fill(if Missing(store, todo[0]) then store[StoredAt(todo[0].make) := todo[0].make] else store, todo[1..])
  }

  lemma {:induction false} FillEffect(store: map<Key, Object>, todo: seq<Step>)
    requires Ascending(todo)
    requires forall i :: 0 <= i < |todo| ==> !Stuck(store, todo[i])
    ensures forall k :: k in store ==> k in Fill(store, todo) && Fill(store, todo)[k] == store[k]
    ensures forall i :: 0 <= i < |todo| && Missing(store, todo[i]) ==>
              StoredAt(todo[i].make) in Fill(store, todo) && Fill(store, todo)[StoredAt(todo[i].make)] == todo[i].make
    ensures forall k :: k in Fill(store, todo) && k !in store ==>
              exists i :: 0 <= i < |todo| && Missing(store, todo[i]) && k == StoredAt(todo[i].make)
    decreases |todo|
  {
    if todo != [] {
      var store' := if Missing(store, todo[0]) then store[StoredAt(todo[0].make) := todo[0].make] else store;
      forall i | 0 <= i < |todo[1..]|
        ensures Missing(store', todo[1..][i]) == Missing(store, todo[i + 1]) && !Stuck(store', todo[1..][i])
      {
        assert !Stuck(store, todo[i + 1]);
      }
      FillEffect(store', todo[1..]);
      assert Fill(store, todo) == Fill(store', todo[1..]);
      forall i | 0 <= i < |todo| && Missing(store, todo[i])
        ensures StoredAt(todo[i].make) in Fill(store, todo) && Fill(store, todo)[StoredAt(todo[i].make)] == todo[i].make
      {
        if i > 0 {
          assert todo[1..][i - 1] == todo[i];
        }
      }
      forall k | k in Fill(store, todo) && k !in store
        ensures exists i :: 0 <= i < |todo| && Missing(store, todo[i]) && k == StoredAt(todo[i].make)
      {
        if k in store' {
          assert Missing(store, todo[0]) && k == StoredAt(todo[0].make);
        } else {
          var i :| 0 <= i < |todo[1..]| && Missing(store', todo[1..][i]) && k == StoredAt(todo[1..][i].make);
          assert todo[i + 1] == todo[1..][i];
        }
      }
    }
  }

  /** A create phase with no stuck step fills the store and moves on to the finalizer protocol. */
  lemma {:induction false} FinePass(w: World, m: Nfs, todo: seq<Step>)
    requires Ascending(todo)
    requires forall i :: 0 <= i < |todo| ==> !Stuck(w.store, todo[i])
    ensures Drive(Sys(w, Advance(m, todo)), []) == Drive(Sys(w.(store := Fill(w.store, todo)), AfterCreate(m)), [])
    decreases |todo|
  {
    if todo != [] {
      assert !Stuck(w.store, todo[0]);
      var w' := if Missing(w.store, todo[0]) then Create(w, todo[0].make, Fine).0 else w;
      forall i | 0 <= i < |todo[1..]|
        ensures !Stuck(w'.store, todo[1..][i])
      {
        assert !Stuck(w.store, todo[i + 1]);
      }
      FinePass(w', m, todo[1..]);
      var s := Sys(w, Advance(m, todo));
      var s1 := Tock(s, Head([]));
      assert Drive(s, []) == Drive(s1, []);
      if Missing(w.store, todo[0]) {
        assert s1 == Sys(w, Make(m, todo[0], todo[1..]));
        assert Tock(s1, Head([])) == Sys(w', Advance(m, todo[1..]));
      }
    }
  }

  predicate ValidCr(w: World) {
    w.cr.Some? && Valid(w.cr.value.desired.spec)
  }

  predicate Unmarked(w: World) {
    w.cr.Some? && !w.cr.value.marked
  }

  /** Marked for deletion and held by our finalizer. */
  predicate Held(w: World) {
    HasOurs(w.cr) && w.cr.value.marked
  }

  predicate Live(w: World) {
    ValidCr(w) && Unmarked(w)
  }

  predicate Doomed(w: World) {
    ValidCr(w) && Held(w)
  }

  function Filled(w: World): World
    requires w.cr.Some?
  {
    w.(store := Fill(w.store, Plan(w.cr.value.desired)))
  }

  /** A reconcile without faults, up to the finalizer protocol. */
  lemma FineCreatePhase(w: World)
    requires ValidCr(w) && !ClaimStuck(w.cr.value.desired, w.store)
    ensures Reconcile(w, []) == Drive(Sys(Filled(w), AfterCreate(w.cr.value)), [])
  {
    var m := w.cr.value;
    StuckOnlyAtClaim(m.desired, w.store);
    PlanAscending(m.desired);
    FinePass(w, m, Plan(m.desired));
    assert Tock(Sys(w, Idle(Done)), Head([])) == Sys(w, Advance(m, Plan(m.desired)));
  }

  lemma FineLive(w: World)
    requires Live(w) && !ClaimStuck(w.cr.value.desired, w.store)
    ensures var m := w.cr.value;
            Reconcile(w, []) ==
              Sys(if HasOurs(w.cr) then Filled(w) else Settle(Filled(w), WithFinalizer(m)), Idle(Requeue))
  {
    FineCreatePhase(w);
    var s := Sys(Filled(w), AfterCreate(w.cr.value));
    if !HasOurs(w.cr) {
      assert Drive(s, []) == Drive(Tock(s, Head([])), []);
    }
  }

  /** A Get of the cleanup and, when it finds something, the Delete. */
  lemma FineDelete(look: Sys, drop: Sys, after: Sys)
    requires !look.pc.Idle? && !drop.pc.Idle?
    requires Next(look, Fine) == after || (Next(look, Fine) == drop && Next(drop, Fine) == after)
    ensures Drive(look, []) == Drive(after, [])
  {
  }

  lemma FineDropRole(w: World, m: Nfs)
    ensures Drive(Sys(w, LookRole(m)), []) == Drive(Sys(w.(store := w.store - {ROLE_KEY}), LookBinding(m)), [])
  {
    assert ROLE_KEY !in w.store ==> w.store - {ROLE_KEY} == w.store;
    FineDelete(Sys(w, LookRole(m)), Sys(w, DropRole(m)), Sys(w.(store := w.store - {ROLE_KEY}), LookBinding(m)));
  }

  lemma FineDropBinding(w: World, m: Nfs)
    ensures Drive(Sys(w, LookBinding(m)), []) == Drive(Sys(w.(store := w.store - {BINDING_KEY}), ClearFinalizer(m)), [])
  {
    assert BINDING_KEY !in w.store ==> w.store - {BINDING_KEY} == w.store;
    FineDelete(Sys(w, LookBinding(m)), Sys(w, DropBinding(m)), Sys(w.(store := w.store - {BINDING_KEY}), ClearFinalizer(m)));
  }

  /** The cleanup and the removal of the finalizer, without faults. */
  lemma FineCleanup(w: World, m: Nfs)
    requires w.cr == Some(m)
    ensures Drive(Sys(w, LookRole(m)), []) ==
              Sys(Settle(w.(store := w.store - {ROLE_KEY, BINDING_KEY}), WithoutFinalizer(m)), Idle(Done))
  {
    FineDropRole(w, m);
    FineDropBinding(w.(store := w.store - {ROLE_KEY}), m);
    assert w.store - {ROLE_KEY} - {BINDING_KEY} == w.store - {ROLE_KEY, BINDING_KEY};
    var s := Sys(w.(store := w.store - {ROLE_KEY, BINDING_KEY}), ClearFinalizer(m));
    assert Drive(s, []) == Drive(Tock(s, Head([])), []);
  }

  lemma FineDoomed(w: World)
    requires Doomed(w) && !ClaimStuck(w.cr.value.desired, w.store)
    ensures var m := w.cr.value;
            Reconcile(w, []) ==
              Sys(Settle(w.(store := Filled(w).store - {ROLE_KEY, BINDING_KEY}), WithoutFinalizer(m)), Idle(Done))
  {
    FineCreatePhase(w);
    FineCleanup(Filled(w), w.cr.value);
  }

  // ---------------------------------------------------------------- any reconcile, with any faults

  predicate PlanKey(d: Desired, k: Key) {
    exists i :: 0 <= i < |Plan(d)| && StoredAt(Plan(d)[i].make) == k
  }

  /** What reconciles of one unedited resource can do to the cluster. */
  ghost predicate Frame(w: World, w': World, d: Desired, marked: bool) {
    && (forall k :: k in w.store ==>
          (k in w'.store && w'.store[k] == w.store[k]) || (marked && (k == ROLE_KEY || k == BINDING_KEY)))
    && (forall k :: k in w'.store && k !in w.store ==> PlanKey(d, k))
    && (w'.cr.None? ==> marked)
    && (w'.cr.Some? ==> w'.cr.value.desired == d && w'.cr.value.marked == marked)
    && (HasOurs(w.cr) && !marked ==> HasOurs(w'.cr))
    && (HasOurs(w'.cr) && marked ==> HasOurs(w.cr))
  }

  /** The resource and the controller's copy of it are about the same request. */
  ghost predicate About(s: Sys, d: Desired, marked: bool) {
    && (s.w.cr.None? ==> marked)
    && (s.w.cr.Some? ==> s.w.cr.value.desired == d && s.w.cr.value.marked == marked)
    && !s.pc.WriteStatus?
    && (s.pc.StoreFinalizer? ==> !marked)
    && (Cleaning(s.pc) ==> marked)
    && (!s.pc.Idle? ==> s.pc.m.desired == d && s.pc.m.marked == marked)
    && (!s.pc.Idle? && marked && HasOurs(Some(s.pc.m)) ==> HasOurs(s.w.cr))
    && ((s.pc.Look? || s.pc.Make?) ==> forall step :: step in [s.pc.step] + s.pc.rest ==> step in Plan(d))
  }

  lemma AdvanceAbout(w: World, m: Nfs, todo: seq<Step>, d: Desired)
    requires w.cr.None? ==> m.marked
    requires w.cr.Some? ==> w.cr.value.desired == d && w.cr.value.marked == m.marked
    requires m.desired == d && (m.marked && HasOurs(Some(m)) ==> HasOurs(w.cr))
    requires forall step :: step in todo ==> step in Plan(d)
    ensures About(Sys(w, Advance(m, todo)), d, m.marked)
  {
  }

  lemma InPlan(d: Desired, step: Step)
    requires step in Plan(d)
    ensures PlanKey(d, StoredAt(step.make))
  {
  }

  lemma LookFrame(w: World, m: Nfs, step: Step, rest: seq<Step>, f: Fault, d: Desired, marked: bool)
    requires About(Sys(w, Look(m, step, rest)), d, marked)
    ensures var s' := Next(Sys(w, Look(m, step, rest)), f); s'.w == w && About(s', d, marked)
  {
  }

  lemma MakeFrame(w: World, m: Nfs, step: Step, rest: seq<Step>, f: Fault, d: Desired, marked: bool)
    requires About(Sys(w, Make(m, step, rest)), d, marked)
    ensures var s' := Next(Sys(w, Make(m, step, rest)), f); About(s', d, marked) && Frame(w, s'.w, d, marked)
  {
    assert forall x :: x in rest ==> x in [step] + rest;
    assert step in [step] + rest;
    InPlan(d, step);
    AdvanceAbout(Create(w, step.make, f).0, m, rest, d);
  }

  lemma CallFrame(s: Sys, f: Fault, d: Desired, marked: bool)
    requires !s.pc.Idle? && About(s, d, marked)
    ensures About(Next(s, f), d, marked) && Frame(s.w, Next(s, f).w, d, marked)
  {
    if s.pc.Look? {
      LookFrame(s.w, s.pc.m, s.pc.step, s.pc.rest, f, d, marked);
    } else if s.pc.Make? {
      MakeFrame(s.w, s.pc.m, s.pc.step, s.pc.rest, f, d, marked);
    } else if s.pc.StoreFinalizer? || s.pc.ClearFinalizer? {
      FinalizerFrame(s, f, d, marked);
    } else {
      CleanupFrame(s, f, d, marked);
    }
  }

  lemma FinalizerFrame(s: Sys, f: Fault, d: Desired, marked: bool)
    requires (s.pc.StoreFinalizer? || s.pc.ClearFinalizer?) && About(s, d, marked)
    ensures About(Next(s, f), d, marked) && Frame(s.w, Next(s, f).w, d, marked)
  {
  }

  lemma CleanupFrame(s: Sys, f: Fault, d: Desired, marked: bool)
    requires (s.pc.LookRole? || s.pc.DropRole? || s.pc.LookBinding? || s.pc.DropBinding?) && About(s, d, marked)
    ensures About(Next(s, f), d, marked) && Frame(s.w, Next(s, f).w, d, marked)
  {
  }

  lemma FrameTransitive(w0: World, w1: World, w2: World, d: Desired, marked: bool)
    requires Frame(w0, w1, d, marked) && Frame(w1, w2, d, marked)
    ensures Frame(w0, w2, d, marked)
  {
  }

  lemma {:induction false} DriveFrame(s: Sys, ticks: seq<Tick>, d: Desired, marked: bool)
    requires Quiet(ticks) && About(s, d, marked)
    ensures Frame(s.w, Drive(s, ticks).w, d, marked)
    decreases Rank(s.pc)
  {
    if !s.pc.Idle? {
      assert Head(ticks).env == [];
      CallFrame(s, Head(ticks).fault, d, marked);
      DriveFrame(Tock(s, Head(ticks)), Tail(ticks), d, marked);
      FrameTransitive(s.w, Tock(s, Head(ticks)).w, Drive(s, ticks).w, d, marked);
    }
  }

  /** A rejected spec gets its status written, and that is all: no object and no finalizer is touched, so a marked
      resource is never released. */
  lemma RejectedReconcile(w: World, ticks: seq<Tick>)
    requires w.cr.Some? && !ValidCr(w) && Quiet(ticks)
    ensures var m, w' := w.cr.value, Reconcile(w, ticks).w;
            && w'.store == w.store
            && (w'.cr.None? ==> m.marked && m.finalizers == [])
            && (w'.cr.Some? ==>
                  w'.cr.value == m.(status := w'.cr.value.status, rv := w'.cr.value.rv) &&
                  w'.cr.value.status in {m.status, RejectedStatus(m.desired.spec)})
  {
    assert Head(ticks).env == [] && Head(Tail(ticks)).env == [];
    var s := Tock(Sys(w, Idle(Done)), Head(ticks));
    if !s.pc.Idle? {
      assert Drive(s, Tail(ticks)) == Tock(s, Head(Tail(ticks)));
    }
  }

  lemma ReconcileFrame(w: World, ticks: seq<Tick>)
    requires w.cr.Some? && Quiet(ticks)
    ensures Frame(w, Reconcile(w, ticks).w, w.cr.value.desired, w.cr.value.marked)
  {
    if !ValidCr(w) {
      RejectedReconcile(w, ticks);
    } else {
      var m := w.cr.value;
      assert Head(ticks).env == [];
      var s := Tock(Sys(w, Idle(Done)), Head(ticks));
      AdvanceAbout(w, m, Plan(m.desired), m.desired);
      assert s.w == w;
      DriveFrame(s, Tail(ticks), m.desired, m.marked);
    }
  }

  // ---------------------------------------------------------------- what a reconcile reports

  /** What a reconcile of `m` may report, given what it leaves behind. */
  predicate Reported(m: Nfs, r: Sys)
    requires r.pc.Idle?
  {
    match r.pc.last
    case Error => true
    case Done =>
      if Valid(m.desired.spec) then m.marked && !HasOurs(r.w.cr)
      else r.w.cr.Some? ==> r.w.cr.value.status == RejectedStatus(m.desired.spec)
    case Requeue => Valid(m.desired.spec) && !m.marked && HasOurs(r.w.cr)
  }

  lemma {:induction false} DriveReports(s: Sys, m: Nfs, ticks: seq<Tick>)
    requires Framed(s) && Quiet(ticks) && !s.pc.Idle? && s.w.cr == Some(m) && s.pc.m == m
    ensures Reported(m, Drive(s, ticks))
    decreases Rank(s.pc)
  {
    var f := Head(ticks).fault;
    assert Head(ticks).env == [];
    var s' := Next(s, f);
    assert Drive(s, ticks) == Drive(s', Tail(ticks));
    CallKeepsFramed(s, f);
    EndOfReconcile(s, f);
    if s'.pc.Idle? {
      LastCall(s, m, f);
    } else {
      InnerCall(s, m, f);
      DriveReports(s', m, Tail(ticks));
    }
  }

  lemma InnerCall(s: Sys, m: Nfs, f: Fault)
    requires !s.pc.Idle? && s.w.cr == Some(m) && s.pc.m == m && !Next(s, f).pc.Idle?
    ensures Next(s, f).w.cr == Some(m) && Next(s, f).pc.m == m
  {
  }

  lemma LastCall(s: Sys, m: Nfs, f: Fault)
    requires Framed(s) && !s.pc.Idle? && s.w.cr == Some(m) && s.pc.m == m && Next(s, f).pc.Idle?
    requires Next(s, f).pc.last != Error ==> EndsWell(s, Next(s, f))
    ensures Reported(m, Next(s, f))
  {
    CrFrame(s, f);
  }

  /** What a whole reconcile reports, whatever fails. A first Get that fails is an error, an absent resource is Done; Done
      means that a marked resource has lost our finalizer, or that a rejected spec is in the status; Requeue that an
      accepted unmarked resource has our finalizer stored. */
  lemma ReconcileReports(w: World, ticks: seq<Tick>)
    requires Dated(w) && Quiet(ticks)
    ensures var r := Reconcile(w, ticks);
            if Head(ticks).fault.ReadError? then r == Sys(w, Idle(Error))
            else if w.cr.None? then r == Sys(w, Idle(Done))
            else Reported(w.cr.value, r)
  {
    assert Head(ticks).env == [];
    var s := Sys(w, Idle(Done));
    CallKeepsFramed(s, Head(ticks).fault);
    if w.cr.Some? && !Head(ticks).fault.ReadError? {
      DriveReports(Next(s, Head(ticks).fault), w.cr.value, Tail(ticks));
    }
  }

  // ---------------------------------------------------------------- convergence

  predicate NothingMissing(store: map<Key, Object>, d: Desired) {
    forall i :: 0 <= i < |Plan(d)| ==> !Missing(store, Plan(d)[i])
  }

  /** Everything a live resource asks for exists, and the finalizer is stored. */
  predicate Complete(w: World) {
    HasOurs(w.cr) && NothingMissing(w.store, w.cr.value.desired)
  }

  function MissingKeys(w: World): set<Key>
    requires w.cr.Some?
  {
    set i | 0 <= i < |Plan(w.cr.value.desired)| && Missing(w.store, Plan(w.cr.value.desired)[i]) :: Plan(w.cr.value.desired)[i].lookup
  }

  function MissingCount(w: World): nat
    requires w.cr.Some?
  {
    |MissingKeys(w)| + if HasOurs(w.cr) then 0 else 1
  }

  lemma SubsetCardinality<T>(a: set<T>, b: set<T>)
    requires a <= b
    ensures |a| <= |b|
  {
    assert b == a + (b - a);
  }

  /** Whatever goes wrong during a reconcile of an unmarked resource, nothing that was there gets lost. */
  lemma MissingNeverGrows(w: World, ticks: seq<Tick>)
    requires Unmarked(w) && Quiet(ticks)
    ensures Unmarked(Reconcile(w, ticks).w)
    ensures MissingCount(Reconcile(w, ticks).w) <= MissingCount(w)
  {
    ReconcileFrame(w, ticks);
    SubsetCardinality(MissingKeys(Reconcile(w, ticks).w), MissingKeys(w));
  }

  /** The only claim a reconcile can bring into being is the default one. */
  lemma ClaimUntouched(w: World, w': World, d: Desired, marked: bool)
    requires Frame(w, w', d, marked)
    ensures ClaimReady(d, w'.store) == ClaimReady(d, w.store)
    ensures DefaultClaimKey(d) in w.store ==> DefaultClaimKey(d) in w'.store
  {
    if d.spec.hostPathDir == "" && ClaimName(d.spec) != PVC_NAME && ClaimKey(d) in w'.store && ClaimKey(d) !in w.store {
      var i :| 0 <= i < |Plan(d)| && StoredAt(Plan(d)[i].make) == ClaimKey(d);
      KeysAgree(d, i);
    }
  }

  /** Filling the plan leaves nothing missing once the claim is ready. */
  lemma FilledNothingMissing(store: map<Key, Object>, d: Desired)
    requires ClaimReady(d, store)
    ensures NothingMissing(Fill(store, Plan(d)), d)
  {
    StuckOnlyAtClaim(d, store);
    PlanAscending(d);
    FillEffect(store, Plan(d));
    forall i | 0 <= i < |Plan(d)|
      ensures !Missing(Fill(store, Plan(d)), Plan(d)[i])
    {
      KeysAgree(d, i);
    }
  }

  lemma FineLiveCompletes(w: World)
    requires Live(w) && ClaimReady(w.cr.value.desired, w.store)
    ensures Complete(Reconcile(w, []).w)
  {
    FineLive(w);
    FilledNothingMissing(w.store, w.cr.value.desired);
  }

  lemma CompleteStays(w: World, ticks: seq<Tick>)
    requires Live(w) && Complete(w) && Quiet(ticks)
    ensures Complete(Reconcile(w, ticks).w)
  {
    ReconcileFrame(w, ticks);
  }

  /** Convergence under faults: with at most |tapes| - 1 failed calls in all, the reconciles complete an unmarked resource
      from any store exactly when its spec is accepted and the claim it asks for is one the controller creates, or exists.
      A rejected spec is complete in the end only if it was complete from the start. */
  lemma Converges(w: World, tapes: seq<seq<Tick>>)
    requires Unmarked(w) && QuietAll(tapes) && TotalFaults(tapes) < |tapes|
    ensures Complete(ReconcileAll(w, tapes)) <==>
            if ValidCr(w) then ClaimReady(w.cr.value.desired, w.store) else Complete(w)
  {
    if ValidCr(w) {
      LiveConverges(w, tapes);
    } else {
      RejectedForever(w, tapes);
    }
  }

  lemma {:induction false} RejectedForever(w: World, tapes: seq<seq<Tick>>)
    requires w.cr.Some? && !ValidCr(w) && (w.cr.value.marked ==> HasOurs(w.cr)) && QuietAll(tapes)
    ensures var w' := ReconcileAll(w, tapes);
            w'.store == w.store && w'.cr.Some? && w'.cr.value.desired == w.cr.value.desired &&
            w'.cr.value.finalizers == w.cr.value.finalizers && w'.cr.value.marked == w.cr.value.marked
    decreases |tapes|
  {
    if tapes != [] {
      RejectedReconcile(w, tapes[0]);
      RejectedForever(Reconcile(w, tapes[0]).w, tapes[1..]);
    }
  }

  lemma {:induction false} LiveConverges(w: World, tapes: seq<seq<Tick>>)
    requires Live(w) && QuietAll(tapes) && TotalFaults(tapes) < |tapes|
    ensures Complete(ReconcileAll(w, tapes)) <==> ClaimReady(w.cr.value.desired, w.store)
    decreases |tapes|
  {
    var d := w.cr.value.desired;
    var w1 := Reconcile(w, tapes[0]).w;
    ReconcileFrame(w, tapes[0]);
    ClaimUntouched(w, w1, d, false);
    if FaultCount(tapes[0]) == 0 && ClaimReady(d, w.store) {
      FineReconcile(w, tapes[0]);
      FineLiveCompletes(w);
      CompleteAfterAll(w1, tapes[1..]);
    } else if ClaimReady(d, w.store) {
      LiveConverges(w1, tapes[1..]);
    } else {
      NeverComplete(w, tapes);
    }
  }

  lemma {:induction false} CompleteAfterAll(w: World, tapes: seq<seq<Tick>>)
    requires Live(w) && Complete(w) && QuietAll(tapes)
    ensures Complete(ReconcileAll(w, tapes))
    decreases |tapes|
  {
    if tapes != [] {
      ReconcileFrame(w, tapes[0]);
      CompleteStays(w, tapes[0]);
      CompleteAfterAll(Reconcile(w, tapes[0]).w, tapes[1..]);
    }
  }

  lemma {:induction false} NeverComplete(w: World, tapes: seq<seq<Tick>>)
    requires Live(w) && QuietAll(tapes) && !ClaimReady(w.cr.value.desired, w.store)
    ensures !Complete(ReconcileAll(w, tapes))
    decreases |tapes|
  {
    if tapes == [] {
      assert Missing(w.store, Plan(w.cr.value.desired)[1]);
    } else {
      ReconcileFrame(w, tapes[0]);
      ClaimUntouched(w, Reconcile(w, tapes[0]).w, w.cr.value.desired, false);
      NeverComplete(Reconcile(w, tapes[0]).w, tapes[1..]);
    }
  }
}
