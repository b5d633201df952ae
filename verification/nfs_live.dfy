/** What the store looks like at every point of a run over a live NFSProvisioner resource: the objects appear in the
    order of the plan and refer only to what exists; and exactly which failed Gets break either. */
module NfsLive {
  import opened NfsTypes
  import opened NfsCluster
  import opened NfsController
  import opened NfsProgress

  /** The controller itself creates what this step looks up. */
  predicate Owned(step: Step) {
    Own(step) && !step.policy.LookOnly?
  }

  predicate Watched(plan: seq<Step>, k: Key) {
    exists i :: 0 <= i < |plan| && Owned(plan[i]) && plan[i].lookup == k
  }

  /** Others leave the spec, the mark and the controller's own objects alone. A claim the user named, or a storage class,
      may come and go. */
  predicate HarmlessAction(plan: seq<Step>, a: Action) {
    match a
    case PutObject(k, _) => !Watched(plan, k)
    case RemoveObject(k) => !Watched(plan, k)
    case AddFinalizer(_) => true
    case DropFinalizer(_) => true
    case _ => false
  }

  /** The kinds that other objects refer to by name. */
  const REFERENCED := {PersistentVolumeClaim, ServiceAccount, ClusterRole, Kind.Role}

  const ALL_KINDS := {SecurityContextConstraints, PersistentVolumeClaim, ServiceAccount, ClusterRole, ClusterRoleBinding,
                      Kind.Role, RoleBinding, Deployment, Service, StorageClass}

  lemma AllKinds(kind: Kind)
    ensures kind in ALL_KINDS
  {
  }

  /** A failing Get would now pass over an absent object of one of the kinds `ks`, with an owned object still to come. */
  predicate PassesOver(s: Sys, ks: set<Kind>) {
    s.pc.Look? && Owned(s.pc.step) && s.pc.step.policy.IfNotFound? && s.pc.step.lookup !in s.w.store &&
    s.pc.step.make.kind in ks && exists k :: 0 <= k < |s.pc.rest| && Owned(s.pc.rest[k])
  }

  /** Writes may fail in any way; a Get may fail unless that passes an object of `ks` over. */
  predicate Harmless(s: Sys, plan: seq<Step>, ks: set<Kind>, l: Label) {
    match l
    case Env(a) => HarmlessAction(plan, a)
    case Call(f) => f.ReadError? ==> !PassesOver(s, ks)
  }

  predicate HarmlessRun(s: Sys, plan: seq<Step>, ks: set<Kind>, run: seq<Label>)
    decreases |run|
  {
    run == [] || (Harmless(s, plan, ks, run[0]) && HarmlessRun(Do(s, run[0]), plan, ks, run[1..]))
  }

  predicate LeavesClaim(d: Desired, l: Label) {
    d.spec.hostPathDir == "" ==> l != Env(RemoveObject(ClaimKey(d)))
  }

  /** Nobody deletes the claim the Deployment is to mount. */
  predicate ClaimStays(d: Desired, run: seq<Label>) {
    forall l :: l in run ==> LeavesClaim(d, l)
  }

  /** An owned object is there only if all owned objects of the kinds `ks` before it are. */
  ghost predicate Ladder(store: map<Key, Object>, plan: seq<Step>, ks: set<Kind>) {
    forall i, j :: 0 <= i < j < |plan| && Owned(plan[i]) && Owned(plan[j]) && plan[i].make.kind in ks ==>
                   (plan[j].lookup in store ==> plan[i].lookup in store)
  }

  ghost predicate Built(store: map<Key, Object>, plan: seq<Step>) {
    forall i :: 0 <= i < |plan| && Owned(plan[i]) && plan[i].lookup in store ==> store[plan[i].lookup] == plan[i].make
  }

  ghost predicate Placed(store: map<Key, Object>, plan: seq<Step>, ks: set<Kind>) {
    Ladder(store, plan, ks) && Built(store, plan)
  }

  function Position(plan: seq<Step>, pc: Pc): int
    requires pc.Look? || pc.Make?
  {
    |plan| - |pc.rest| - 1
  }

  /** Before the `i`-th step, the owned objects of `ks` already passed are there, as long as an owned one is to come. */
  ghost predicate Passed(store: map<Key, Object>, plan: seq<Step>, ks: set<Kind>, i: nat) {
    forall j, k :: 0 <= j < i <= k < |plan| && Owned(plan[j]) && Owned(plan[k]) && plan[j].make.kind in ks ==>
                   plan[j].lookup in store
  }

  ghost predicate AtStep(store: map<Key, Object>, plan: seq<Step>, ks: set<Kind>, pc: Pc) {
    pc.Look? || pc.Make? ==>
      var i := Position(plan, pc);
      0 <= i < |plan| && pc.step == plan[i] && pc.rest == plan[i + 1..] && Passed(store, plan, ks, i) &&
      (pc.Make? ==> !pc.step.policy.LookOnly?)
  }

  /** With `ready` set, it also says that the claim of the resource is ready. */
  ghost predicate OrderInv(s: Sys, d: Desired, plan: seq<Step>, ks: set<Kind>, ready: bool) {
    && s.w.cr.Some? && s.w.cr.value.desired == d && !s.w.cr.value.marked
    && Placed(s.w.store, plan, ks) && (ready ==> ClaimReady(d, s.w.store))
    && (s.pc.Idle? || s.pc.Look? || s.pc.Make? || s.pc.StoreFinalizer?)
    && (!s.pc.Idle? ==> s.pc.m.desired == d && !s.pc.m.marked)
    && AtStep(s.w.store, plan, ks, s.pc)
  }

  lemma EnvKeepsOrder(s: Sys, a: Action, d: Desired, plan: seq<Step>, ks: set<Kind>, ready: bool)
    requires OrderInv(s, d, plan, ks, ready) && HarmlessAction(plan, a) && (ready ==> LeavesClaim(d, Env(a)))
    ensures OrderInv(Do(s, Env(a)), d, plan, ks, ready)
  {
    var store' := Apply(s.w, a).store;
    forall i | 0 <= i < |plan| && Owned(plan[i])
      ensures plan[i].lookup in store' <==> plan[i].lookup in s.w.store
      ensures plan[i].lookup in store' ==> store'[plan[i].lookup] == s.w.store[plan[i].lookup]
    {
    }
    assert Placed(store', plan, ks);
    assert AtStep(store', plan, ks, s.pc);
  }

  lemma AdvanceOrder(w: World, m: Nfs, i: nat, d: Desired, plan: seq<Step>, ks: set<Kind>, ready: bool)
    requires w.cr.Some? && w.cr.value.desired == d && !w.cr.value.marked && Placed(w.store, plan, ks)
    requires ready ==> ClaimReady(d, w.store)
    requires m.desired == d && !m.marked && i <= |plan| && Passed(w.store, plan, ks, i)
    ensures OrderInv(Sys(w, Advance(m, plan[i..])), d, plan, ks, ready)
  {
    if i < |plan| {
      assert plan[i..][1..] == plan[i + 1..];
    }
  }

  lemma CreateKeepsPlaced(store: map<Key, Object>, i: nat, plan: seq<Step>, ks: set<Kind>)
    requires Ascending(plan) && Placed(store, plan, ks)
    requires i < |plan| && !plan[i].policy.LookOnly? && Passed(store, plan, ks, i)
    requires StoredAt(plan[i].make) !in store
    ensures Placed(store[StoredAt(plan[i].make) := plan[i].make], plan, ks)
  {
    forall j | 0 <= j < |plan| && j != i
      ensures plan[j].lookup != StoredAt(plan[i].make)
    {
      assert KindRank(plan[j].make.kind) != KindRank(plan[i].make.kind);
    }
  }

  lemma LookKeepsOrder(s: Sys, f: Fault, d: Desired, plan: seq<Step>, ks: set<Kind>, ready: bool)
    requires OrderInv(s, d, plan, ks, ready) && s.pc.Look? && (f.ReadError? ==> !PassesOver(s, ks))
    ensures OrderInv(Next(s, f), d, plan, ks, ready)
  {
    var i := Position(plan, s.pc);
    if !Creates(s.pc.step.policy, Read(s.w, s.pc.step.lookup, f)) {
      forall j, k | 0 <= j < i + 1 <= k < |plan| && Owned(plan[j]) && Owned(plan[k]) && plan[j].make.kind in ks
        ensures plan[j].lookup in s.w.store
      {
        assert s.pc.rest[k - i - 1] == plan[k];
      }
      AdvanceOrder(s.w, s.pc.m, i + 1, d, plan, ks, ready);
    }
  }

  lemma MakeKeepsOrder(s: Sys, f: Fault, d: Desired, plan: seq<Step>, ks: set<Kind>, ready: bool)
    requires OrderInv(s, d, plan, ks, ready) && s.pc.Make? && Ascending(plan)
    ensures OrderInv(Next(s, f), d, plan, ks, ready)
  {
    var i := Position(plan, s.pc);
    var (w', reply) := Create(s.w, s.pc.step.make, f);
    if StoredAt(s.pc.step.make) !in s.w.store {
      CreateKeepsPlaced(s.w.store, i, plan, ks);
    }
    if reply.Ok? {
      AdvanceOrder(w', s.pc.m, i + 1, d, plan, ks, ready);
    }
  }

  lemma CallKeepsOrder(s: Sys, f: Fault, d: Desired, plan: seq<Step>, ks: set<Kind>, ready: bool)
    requires OrderInv(s, d, plan, ks, ready) && (f.ReadError? ==> !PassesOver(s, ks))
    requires Valid(d.spec) && plan == Plan(d) && Ascending(plan)
    ensures OrderInv(Next(s, f), d, plan, ks, ready)
  {
    if s.pc.Idle? {
      AdvanceOrder(s.w, s.w.cr.value, 0, d, plan, ks, ready);
      assert plan[0..] == plan;
    } else if s.pc.Look? {
      LookKeepsOrder(s, f, d, plan, ks, ready);
    } else if s.pc.Make? {
      MakeKeepsOrder(s, f, d, plan, ks, ready);
    }
  }

  lemma {:induction false} OrderAlways(s: Sys, run: seq<Label>, d: Desired, plan: seq<Step>, ks: set<Kind>, ready: bool)
    requires OrderInv(s, d, plan, ks, ready) && HarmlessRun(s, plan, ks, run) && (ready ==> ClaimStays(d, run))
    requires Valid(d.spec) && plan == Plan(d) && Ascending(plan)
    ensures OrderInv(Exec(s, run), d, plan, ks, ready)
    decreases |run|
  {
    if run != [] {
      if run[0].Env? {
        EnvKeepsOrder(s, run[0].action, d, plan, ks, ready);
      } else {
        CallKeepsOrder(s, run[0].fault, d, plan, ks, ready);
      }
      OrderAlways(Do(s, run[0]), run[1..], d, plan, ks, ready);
    }
  }

  /** A live resource with an accepted spec, no reconcile under way, none of the controller's objects there. */
  ghost predicate CleanStart(s: Sys) {
    s.pc.Idle? && Live(s.w) &&
    var plan := Plan(s.w.cr.value.desired);
    forall i :: 0 <= i < |plan| && Owned(plan[i]) ==> plan[i].lookup !in s.w.store
  }

  /** What the resource asked for at the start. */
  function Asked(s: Sys): Desired
    requires s.w.cr.Some?
  {
    s.w.cr.value.desired
  }

  lemma OrderFromStart(start: Sys, run: seq<Label>, ks: set<Kind>, ready: bool)
    requires CleanStart(start) && HarmlessRun(start, Plan(Asked(start)), ks, run)
    requires ready ==> ClaimReady(Asked(start), start.w.store) && ClaimStays(Asked(start), run)
    ensures OrderInv(Exec(start, run), Asked(start), Plan(Asked(start)), ks, ready)
  {
    var d := Asked(start);
    PlanAscending(d);
    OrderAlways(start, run, d, Plan(d), ks, ready);
  }

  // ---------------------------------------------------------------- the creation order

  predicate OwnsClaim(d: Desired) {
    d.spec.hostPathDir == "" && ClaimName(d.spec) == PVC_NAME
  }

  /** The keys the controller may create, in the order in which it creates them. */
  function CreationOrder(d: Desired): seq<Key> {
    [Key(SecurityContextConstraints, "", SCC_NAME)]
    + (if OwnsClaim(d) then [DefaultClaimKey(d)] else [])
    + [ Key(ServiceAccount, d.ns, SERVICE_ACCOUNT), ROLE_KEY, BINDING_KEY, Key(Role, d.ns, ROLE),
        Key(RoleBinding, d.ns, ROLE_BINDING), Key(Deployment, d.ns, DEPLOYMENT), Key(Service, d.ns, SERVICE) ]
    + (if d.spec.scForNfs == "" then [Key(StorageClass, "", SC_FOR_NFS)] else [])
  }

  /** Where the `i`-th key of the order stands in the plan, and the other way round. */
  function PlanIndex(d: Desired, i: nat): nat {
    if d.spec.hostPathDir == "" && !OwnsClaim(d) && i > 0 then i + 1 else i
  }

  function OrderIndex(d: Desired, i: nat): nat {
    if d.spec.hostPathDir == "" && !OwnsClaim(d) && i > 0 then i - 1 else i
  }

  lemma OrderInPlan(d: Desired, i: nat)
    requires i < |CreationOrder(d)|
    ensures PlanIndex(d, i) < |Plan(d)|
    ensures Plan(d)[PlanIndex(d, i)].lookup == CreationOrder(d)[i] && Owned(Plan(d)[PlanIndex(d, i)])
  {
    var k := PlanIndex(d, i);
    var first := if d.spec.hostPathDir != "" then 1 else 2;
    if k >= first {
      assert Plan(d)[k] == LaterSteps(d)[k - first];
      LaterOwned(d, k - first);
      OrderLater(d, i, k - first);
    }
  }

  lemma LaterOwned(d: Desired, j: nat)
    requires j < 8
    ensures Owned(LaterSteps(d)[j]) <==> j < 7 || d.spec.scForNfs == ""
  {
  }

  lemma OrderLater(d: Desired, i: nat, j: nat)
    requires i < |CreationOrder(d)| && i == j + (if OwnsClaim(d) then 2 else 1)
    ensures j < 8 && CreationOrder(d)[i] == LaterSteps(d)[j].lookup && (j < 7 || d.spec.scForNfs == "")
  {
  }

  /** Every owned step of the plan is in the order, at the corresponding place. */
  lemma PlanInOrder(d: Desired, k: nat)
    requires k < |Plan(d)| && Owned(Plan(d)[k])
    ensures OrderIndex(d, k) < |CreationOrder(d)|
    ensures CreationOrder(d)[OrderIndex(d, k)] == Plan(d)[k].lookup && PlanIndex(d, OrderIndex(d, k)) == k
  {
    var first := if d.spec.hostPathDir != "" then 1 else 2;
    if k >= first {
      assert Plan(d)[k] == LaterSteps(d)[k - first];
      LaterOwned(d, k - first);
      OrderLater(d, OrderIndex(d, k), k - first);
    } else if k == 1 {
      assert Plan(d)[1] == PvcStep(d);
    }
  }

  // ---------------------------------------------------------------- the prefix invariant

  /** The length of the longest present prefix. */
  function Created(store: map<Key, Object>, order: seq<Key>): (n: nat)
    ensures n <= |order| && (forall i :: 0 <= i < n ==> order[i] in store) && (n < |order| ==> order[n] !in store)
  {
    if order == [] || order[0] !in store then 0 else 1 + Created(store, order[1..])
  }

  /** The objects of the order that exist are its first ones. */
  predicate IsPrefix(store: map<Key, Object>, order: seq<Key>) {
    forall i :: 0 <= i < |order| ==> (order[i] in store <==> i < Created(store, order))
  }

  lemma PrefixFromPairs(store: map<Key, Object>, order: seq<Key>)
    requires forall n, i :: 0 <= n < i < |order| && order[i] in store ==> order[n] in store
    ensures IsPrefix(store, order)
  {
  }

  lemma LadderIsPrefix(store: map<Key, Object>, d: Desired)
    requires Ladder(store, Plan(d), ALL_KINDS)
    ensures IsPrefix(store, CreationOrder(d))
  {
    var order := CreationOrder(d);
    forall n, i | 0 <= n < i < |order| && order[i] in store
      ensures order[n] in store
    {
      OrderInPlan(d, n);
      OrderInPlan(d, i);
      AllKinds(Plan(d)[PlanIndex(d, n)].make.kind);
    }
    PrefixFromPairs(store, order);
  }

  /** An owned step that is missing while a later one is there breaks the prefix. */
  lemma GapIsNoPrefix(store: map<Key, Object>, d: Desired, i: nat, j: nat)
    requires i < j < |Plan(d)| && Owned(Plan(d)[i]) && Owned(Plan(d)[j])
    requires Plan(d)[i].lookup !in store && Plan(d)[j].lookup in store
    ensures !IsPrefix(store, CreationOrder(d))
  {
    PlanInOrder(d, i);
    PlanInOrder(d, j);
    var order := CreationOrder(d);
    var a, b := OrderIndex(d, i), OrderIndex(d, j);
    assert order[a] !in store && order[b] in store && a < b;
  }

  /** Prefix invariant: at every point of every harmless run the created objects are a prefix of the creation order,
      whether the user's claim exists, comes or goes. */
  lemma CreatedIsPrefix(start: Sys, run: seq<Label>)
    requires CleanStart(start) && HarmlessRun(start, Plan(Asked(start)), ALL_KINDS, run)
    ensures IsPrefix(Exec(start, run).w.store, CreationOrder(Asked(start)))
  {
    OrderFromStart(start, run, ALL_KINDS, false);
    LadderIsPrefix(Exec(start, run).w.store, Asked(start));
  }

  // ---------------------------------------------------------------- faultless continuations

  function FineCalls(n: nat): (run: seq<Label>)
    ensures |run| == n && forall l :: l in run ==> l == Call(Fine)
  {
    seq(n, _ => Call(Fine))
  }

  lemma FineCallsCons(n: nat)
    requires n > 0
    ensures FineCalls(n)[0] == Call(Fine) && FineCalls(n)[1..] == FineCalls(n - 1)
  {
  }

  lemma {:induction false} FineCallsHarmless(s: Sys, plan: seq<Step>, ks: set<Kind>, n: nat)
    ensures HarmlessRun(s, plan, ks, FineCalls(n))
    decreases n
  {
    if n > 0 {
      FineCallsCons(n);
      FineCallsHarmless(Do(s, Call(Fine)), plan, ks, n - 1);
    }
  }

  lemma {:induction false} FineDriveIsRun(s: Sys) returns (n: nat)
    ensures Exec(s, FineCalls(n)) == Drive(s, [])
    decreases Rank(s.pc)
  {
    if s.pc.Idle? {
      n := 0;
    } else {
      var n1 := FineDriveIsRun(Tock(s, Head([])));
      n := n1 + 1;
      FineCallsCons(n);
    }
  }

  /** A faultless continuation from a state that still satisfies the order keeps it. */
  lemma FineKeepsOrder(s: Sys, n: nat, d: Desired, ks: set<Kind>, ready: bool)
    requires OrderInv(s, d, Plan(d), ks, ready) && Valid(d.spec)
    ensures OrderInv(Exec(s, FineCalls(n)), d, Plan(d), ks, ready)
  {
    PlanAscending(d);
    FineCallsHarmless(s, Plan(d), ks, n);
    OrderAlways(s, FineCalls(n), d, Plan(d), ks, ready);
  }

  lemma AscendingSuffix(plan: seq<Step>, i: nat)
    requires Ascending(plan) && i <= |plan|
    ensures Ascending(plan[i..])
  {
  }

  /** After a failed Get that passes its step over, a faultless create phase fills in everything behind it. */
  lemma SkipFills(s: Sys) returns (n: nat)
    requires s.pc.Look? && s.pc.step.policy.IfNotFound? && !s.pc.m.marked && Ascending(s.pc.rest)
    requires forall k :: 0 <= k < |s.pc.rest| ==> !Stuck(s.w.store, s.pc.rest[k])
    ensures Exec(Next(s, ReadError), FineCalls(n)).w.store == Fill(s.w.store, s.pc.rest)
  {
    assert Next(s, ReadError) == Sys(s.w, Advance(s.pc.m, s.pc.rest));
    FillsAndEnds(s.w, s.pc.m, s.pc.rest);
    n := FineDriveIsRun(Next(s, ReadError));
  }

  /** It leaves the gap. */
  lemma GapStays(s: Sys, d: Desired, plan: seq<Step>, ks: set<Kind>, ready: bool) returns (n: nat)
    requires OrderInv(s, d, plan, ks, ready) && plan == Plan(d) && s.pc.Look? && s.pc.step.policy.IfNotFound?
    requires Owned(s.pc.step) && s.pc.step.lookup !in s.w.store
    requires forall k :: 0 <= k < |s.pc.rest| ==> !Stuck(s.w.store, s.pc.rest[k])
    ensures var store := Exec(Next(s, ReadError), FineCalls(n)).w.store;
            && s.pc.step.lookup !in store
            && (forall k :: 0 <= k < |s.pc.rest| && Owned(s.pc.rest[k]) ==> s.pc.rest[k].lookup in store)
  {
    var i := Position(plan, s.pc);
    PlanAscending(d);
    AscendingSuffix(plan, i + 1);
    n := SkipFills(s);
    FillEffect(s.w.store, s.pc.rest);
    NoLaterNamesake(plan, i, s.pc.rest);
  }

  lemma NoLaterNamesake(plan: seq<Step>, i: nat, rest: seq<Step>)
    requires Ascending(plan) && i < |plan| && rest == plan[i + 1..]
    ensures forall k :: 0 <= k < |rest| ==> StoredAt(rest[k].make) != plan[i].lookup
  {
    forall k | 0 <= k < |rest|
      ensures StoredAt(rest[k].make) != plan[i].lookup
    {
      assert KindRank(plan[i].make.kind) < KindRank(plan[i + 1 + k].make.kind);
    }
  }

  lemma FillsAndEnds(w: World, m: Nfs, todo: seq<Step>)
    requires !m.marked && Ascending(todo)
    requires forall i :: 0 <= i < |todo| ==> !Stuck(w.store, todo[i])
    ensures Drive(Sys(w, Advance(m, todo)), []).w.store == Fill(w.store, todo)
  {
    FinePass(w, m, todo);
    UnmarkedEnd(w.(store := Fill(w.store, todo)), m);
  }

  lemma UnmarkedEnd(w: World, m: Nfs)
    requires !m.marked
    ensures Drive(Sys(w, AfterCreate(m)), []).w.store == w.store
  {
    var s := Sys(w, AfterCreate(m));
    if !s.pc.Idle? {
      assert Drive(s, []) == Drive(Tock(s, Head([])), []);
    }
  }

  // ---------------------------------------------------------------- which failed Gets break the prefix

  /** The create phase will not get past the claim. */
  predicate StuckAhead(s: Sys) {
    (s.pc.Look? || s.pc.Make?) && exists k :: 0 <= k < |s.pc.rest| && Stuck(s.w.store, s.pc.rest[k])
  }

  /** Exactly which failed Gets break the prefix: at any point of any harmless run, a Get that fails keeps the prefix
      under every faultless continuation, unless it passes an absent owned object over with an owned one still to come
      and no stuck claim in between. */
  lemma ReadErrorPrefixExact(start: Sys, run: seq<Label>)
    requires CleanStart(start) && HarmlessRun(start, Plan(Asked(start)), ALL_KINDS, run)
    ensures var s, order := Exec(start, run), CreationOrder(Asked(start));
            (forall n: nat :: IsPrefix(Exec(Next(s, ReadError), FineCalls(n)).w.store, order)) <==>
            !(PassesOver(s, ALL_KINDS) && !StuckAhead(s))
  {
    var d, s := Asked(start), Exec(start, run);
    OrderFromStart(start, run, ALL_KINDS, false);
    if PassesOver(s, ALL_KINDS) && !StuckAhead(s) {
      var n := GapBreaksPrefix(s, d);
    } else {
      forall n: nat
        ensures IsPrefix(Exec(Next(s, ReadError), FineCalls(n)).w.store, CreationOrder(d))
      {
        if StuckAhead(s) && PassesOver(s, ALL_KINDS) {
          StuckHidesGap(s, n, d);
        } else {
          HarmlessKeepsPrefix(s, n, d);
        }
      }
    }
  }

  lemma GapBreaksPrefix(s: Sys, d: Desired) returns (n: nat)
    requires OrderInv(s, d, Plan(d), ALL_KINDS, false) && PassesOver(s, ALL_KINDS) && !StuckAhead(s)
    ensures !IsPrefix(Exec(Next(s, ReadError), FineCalls(n)).w.store, CreationOrder(d))
  {
    var plan, rest := Plan(d), s.pc.rest;
    var i := Position(plan, s.pc);
    var k :| 0 <= k < |rest| && Owned(rest[k]);
    assert rest[k] == plan[i + 1 + k] && s.pc.step == plan[i];
    n := GapStays(s, d, plan, ALL_KINDS, false);
    var store := Exec(Next(s, ReadError), FineCalls(n)).w.store;
    assert rest[k].lookup in store;
    GapIsNoPrefix(store, d, i, i + 1 + k);
  }

  lemma HarmlessKeepsPrefix(s: Sys, n: nat, d: Desired)
    requires OrderInv(s, d, Plan(d), ALL_KINDS, false) && Valid(d.spec) && !PassesOver(s, ALL_KINDS)
    ensures IsPrefix(Exec(Next(s, ReadError), FineCalls(n)).w.store, CreationOrder(d))
  {
    PlanAscending(d);
    CallKeepsOrder(s, ReadError, d, Plan(d), ALL_KINDS, false);
    FineKeepsOrder(Next(s, ReadError), n, d, ALL_KINDS, false);
    LadderIsPrefix(Exec(Next(s, ReadError), FineCalls(n)).w.store, d);
  }

  /** With a stuck claim ahead, the reconcile ends there before it creates anything behind the gap. */
  lemma StuckHidesGap(s: Sys, n: nat, d: Desired)
    requires OrderInv(s, d, Plan(d), ALL_KINDS, false) && Valid(d.spec) && s.pc.Look?
    requires s.pc.step.policy.IfNotFound? && StuckAhead(s)
    ensures IsPrefix(Exec(Next(s, ReadError), FineCalls(n)).w.store, CreationOrder(d))
  {
    var k :| 0 <= k < |s.pc.rest| && Stuck(s.w.store, s.pc.rest[k]);
    StuckNext(s.w.store, d, Position(Plan(d), s.pc), s.pc.rest, k);
    SkipNext(s);
    IdleOrder(s, d, Plan(d), ALL_KINDS, false);
    StuckEnds(s.w, s.pc.m, s.pc.rest[1..], n, d);
  }

  lemma SkipNext(s: Sys)
    requires s.pc.Look? && s.pc.step.policy.IfNotFound? && s.pc.rest != []
    ensures Next(s, ReadError) == Sys(s.w, Look(s.pc.m, s.pc.rest[0], s.pc.rest[1..]))
  {
  }

  /** The reconcile may end at any point. */
  lemma IdleOrder(s: Sys, d: Desired, plan: seq<Step>, ks: set<Kind>, ready: bool)
    requires OrderInv(s, d, plan, ks, ready)
    ensures OrderInv(Sys(s.w, Idle(Error)), d, plan, ks, ready)
  {
  }

  lemma StuckEnds(w: World, m: Nfs, rest: seq<Step>, n: nat, d: Desired)
    requires Stuck(w.store, PvcStep(d)) && Valid(d.spec)
    requires OrderInv(Sys(w, Idle(Error)), d, Plan(d), ALL_KINDS, false)
    ensures IsPrefix(Exec(Sys(w, Look(m, PvcStep(d), rest)), FineCalls(n)).w.store, CreationOrder(d))
  {
    StuckCalls(w, m, PvcStep(d), rest, n);
    LadderIsPrefix(w.store, d);
    if n >= 2 {
      FineKeepsOrder(Sys(w, Idle(Error)), n - 2, d, ALL_KINDS, false);
      LadderIsPrefix(Exec(Sys(w, Idle(Error)), FineCalls(n - 2)).w.store, d);
    }
  }

  /** A stuck step takes two calls and ends the reconcile without changing anything. */
  lemma StuckCalls(w: World, m: Nfs, step: Step, rest: seq<Step>, n: nat)
    requires Stuck(w.store, step) && step.policy.IfNotFound?
    ensures n < 2 ==> Exec(Sys(w, Look(m, step, rest)), FineCalls(n)).w == w
    ensures n >= 2 ==> Exec(Sys(w, Look(m, step, rest)), FineCalls(n)) == Exec(Sys(w, Idle(Error)), FineCalls(n - 2))
  {
    var s0, s1, s2 := Sys(w, Look(m, step, rest)), Sys(w, Make(m, step, rest)), Sys(w, Idle(Error));
    assert Next(s0, Fine) == s1 && Next(s1, Fine) == s2;
    if n >= 1 {
      FineCallsCons(n);
    }
    if n >= 2 {
      FineCallsCons(n - 1);
    }
  }

  /** A stuck step ahead is the next one. */
  lemma StuckNext(store: map<Key, Object>, d: Desired, i: nat, rest: seq<Step>, k: nat)
    requires i < |Plan(d)| && rest == Plan(d)[i + 1..] && k < |rest| && Stuck(store, rest[k])
    ensures rest[0] == PvcStep(d) && Stuck(store, PvcStep(d))
  {
    assert rest[k] == Plan(d)[i + 1 + k];
    StuckIsSecond(d, store, i + 1 + k);
  }

  lemma StuckIsSecond(d: Desired, store: map<Key, Object>, i: nat)
    requires i < |Plan(d)| && Stuck(store, Plan(d)[i])
    ensures i == 1 && Plan(d)[1] == PvcStep(d)
  {
    KeysAgree(d, i);
    ClaimIsSecond(d, i);
  }

  lemma ClaimIsSecond(d: Desired, i: nat)
    requires i < |Plan(d)| && Plan(d)[i].make.kind.PersistentVolumeClaim?
    ensures i == 1
  {
    var first := if d.spec.hostPathDir != "" then 1 else 2;
    if i >= first {
      assert Plan(d)[i] == LaterSteps(d)[i - first];
      LaterAscending(d, i - first);
    }
  }

  lemma ReadyNotStuck(d: Desired, store: map<Key, Object>, i: nat)
    requires ClaimReady(d, store) && i < |Plan(d)|
    ensures !Stuck(store, Plan(d)[i])
  {
    KeysAgree(d, i);
  }

  /** A failing run from every clean start with its claim ready: the second call, the Get of the security context
      constraints, fails; a faultless rest of the reconcile leaves them out and creates what comes after them. */
  lemma PrefixNeedsReads(start: Sys)
    requires CleanStart(start) && ClaimReady(Asked(start), start.w.store)
    ensures exists n: nat :: !IsPrefix(Exec(Next(Exec(start, FineCalls(1)), ReadError), FineCalls(n)).w.store,
                                       CreationOrder(Asked(start)))
  {
    var d, s := Asked(start), Exec(start, FineCalls(1));
    var plan := Plan(d);
    FineCallsCons(1);
    FineCallsHarmless(start, plan, ALL_KINDS, 1);
    assert Exec(start, FineCalls(1)) == Next(start, Fine);
    assert s == Sys(start.w, Look(start.w.cr.value, plan[0], plan[1..]));
    forall k | 0 <= k < |s.pc.rest|
      ensures !Stuck(s.w.store, s.pc.rest[k])
    {
      ReadyNotStuck(d, s.w.store, k + 1);
    }
    assert Owned(plan[0]);
    AllKinds(plan[0].make.kind);
    var first := if d.spec.hostPathDir != "" then 1 else 2;
    assert s.pc.rest[first - 1] == plan[first] == LaterSteps(d)[0];
    LaterOwned(d, 0);
    ReadErrorPrefixExact(start, FineCalls(1));
  }

  // ---------------------------------------------------------------- referential closure

  lemma EarlierReferences(d: Desired, i: nat, k: Key)
    requires i < |Plan(d)| && k in References(Plan(d)[i].make)
    ensures exists j :: 0 <= j < i && Plan(d)[j].lookup == k && !Plan(d)[j].policy.LookOnly? && Plan(d)[j].make.kind in REFERENCED
  {
    var first := if d.spec.hostPathDir != "" then 1 else 2;
    assert i >= first && Plan(d)[i] == LaterSteps(d)[i - first];
    LaterReferences(d, i - first, k);
    if d.spec.hostPathDir == "" && k == ClaimKey(d) {
      assert Plan(d)[1] == PvcStep(d);
    } else {
      var j := if k == LaterSteps(d)[0].lookup then 0 else if k == LaterSteps(d)[1].lookup then 1 else 3;
      assert Plan(d)[first + j] == LaterSteps(d)[j];
    }
  }

  lemma LaterReferences(d: Desired, j: nat, k: Key)
    requires j < 8 && k in References(LaterSteps(d)[j].make)
    ensures || (j > 0 && k == LaterSteps(d)[0].lookup) || (j > 1 && k == LaterSteps(d)[1].lookup)
            || (j > 3 && k == LaterSteps(d)[3].lookup) || (d.spec.hostPathDir == "" && k == ClaimKey(d))
  {
  }

  /** Every object of the order that exists refers only to objects that exist: subjects and roles of bindings, service
      account and claim of the Deployment. */
  predicate Closed(store: map<Key, Object>, order: seq<Key>) {
    forall i :: 0 <= i < |order| && order[i] in store ==> References(store[order[i]]) <= store.Keys
  }

  lemma OrderIsClosed(s: Sys, d: Desired)
    requires OrderInv(s, d, Plan(d), REFERENCED, true)
    ensures Closed(s.w.store, CreationOrder(d))
  {
    var order := CreationOrder(d);
    forall i | 0 <= i < |order| && order[i] in s.w.store
      ensures References(s.w.store[order[i]]) <= s.w.store.Keys
    {
      StepIsClosed(s, d, i);
    }
  }

  lemma StepIsClosed(s: Sys, d: Desired, i: nat)
    requires OrderInv(s, d, Plan(d), REFERENCED, true)
    requires i < |CreationOrder(d)| && CreationOrder(d)[i] in s.w.store
    ensures References(s.w.store[CreationOrder(d)[i]]) <= s.w.store.Keys
  {
    var plan, store := Plan(d), s.w.store;
    OrderInPlan(d, i);
    var n := PlanIndex(d, i);
    forall k | k in References(plan[n].make)
      ensures k in store
    {
      EarlierReferences(d, n, k);
      var j :| 0 <= j < n && plan[j].lookup == k && !plan[j].policy.LookOnly? && plan[j].make.kind in REFERENCED;
      if Owned(plan[j]) {
        assert plan[n].lookup in store;
      } else {
        KeysAgree(d, j);
      }
    }
  }

  /** Referential closure at every point of every run that harms no object others refer to. */
  lemma ReferencesExist(start: Sys, run: seq<Label>)
    requires CleanStart(start) && ClaimReady(Asked(start), start.w.store)
    requires HarmlessRun(start, Plan(Asked(start)), REFERENCED, run) && ClaimStays(Asked(start), run)
    ensures Closed(Exec(start, run).w.store, CreationOrder(Asked(start)))
  {
    OrderFromStart(start, run, REFERENCED, true);
    OrderIsClosed(Exec(start, run), Asked(start));
  }

  /** The object at `from` refers to `to`, which does not exist. */
  predicate Dangling(store: map<Key, Object>, from: Key, to: Key) {
    from in store && to !in store && to in References(store[from])
  }

  /** A faultless create phase leaves a reference open if nothing in it makes what is referred to. */
  lemma FillDangles(store: map<Key, Object>, todo: seq<Step>, j: nat, to: Key)
    requires Ascending(todo) && forall k :: 0 <= k < |todo| ==> !Stuck(store, todo[k])
    requires j < |todo| && Owned(todo[j]) && todo[j].lookup !in store && to in References(todo[j].make)
    requires to !in store && forall k :: 0 <= k < |todo| ==> StoredAt(todo[k].make) != to
    ensures Dangling(Fill(store, todo), todo[j].lookup, to)
  {
    FillEffect(store, todo);
    assert Missing(store, todo[j]);
  }

  /** What the RoleBinding refers to, and what the Deployment mounts. */
  function Referred(d: Desired, kind: Kind): Key {
    if kind.ServiceAccount? then Key(ServiceAccount, d.ns, SERVICE_ACCOUNT) else ClaimKey(d)
  }

  function DeploymentKey(d: Desired): Key {
    Key(Deployment, d.ns, DEPLOYMENT)
  }

  function Referrer(d: Desired, kind: Kind): nat {
    (if d.spec.hostPathDir != "" then 1 else 2) + if kind.ServiceAccount? then 4 else 5
  }

  lemma ReferrerRefers(d: Desired, kind: Kind)
    ensures Referrer(d, kind) < |Plan(d)|
    ensures kind.ServiceAccount? || d.spec.hostPathDir == "" ==>
            var j := Referrer(d, kind);
            && Owned(Plan(d)[j]) && Referred(d, kind) in References(Plan(d)[j].make)
            && Plan(d)[j].lookup ==
               (if kind.ServiceAccount? then Key(RoleBinding, d.ns, ROLE_BINDING) else DeploymentKey(d))
            && OrderIndex(d, j) < |CreationOrder(d)| && CreationOrder(d)[OrderIndex(d, j)] == Plan(d)[j].lookup
  {
    var first := if d.spec.hostPathDir != "" then 1 else 2;
    var j := Referrer(d, kind);
    assert Plan(d)[j] == LaterSteps(d)[j - first];
    LaterOwned(d, j - first);
    PlanInOrder(d, j);
  }

  // ---------------------------------------------------------------- a claim that is not ready

  lemma ClaimNeverMade(d: Desired, store: map<Key, Object>, k: nat)
    requires !ClaimReady(d, store) && k < |Plan(d)|
    ensures StoredAt(Plan(d)[k].make) != ClaimKey(d)
  {
    KeysAgree(d, k);
  }

  /** If the user's claim is missing but not stuck, a faultless reconcile leaves a Deployment that mounts nothing. */
  lemma DanglingMount(start: Sys) returns (n: nat)
    requires CleanStart(start)
    requires !ClaimReady(Asked(start), start.w.store) && !ClaimStuck(Asked(start), start.w.store)
    ensures var d := Asked(start);
            Dangling(Exec(start, FineCalls(n)).w.store, DeploymentKey(d), ClaimKey(d))
  {
    var d, w := Asked(start), start.w;
    var plan, kind := Plan(d), PersistentVolumeClaim;
    PlanAscending(d);
    StuckOnlyAtClaim(d, w.store);
    FillsAndEnds(w, w.cr.value, plan);
    assert Next(start, Fine) == Sys(w, Advance(w.cr.value, plan));
    var n1 := FineDriveIsRun(Next(start, Fine));
    n := n1 + 1;
    FineCallsCons(n);
    forall k | 0 <= k < |plan|
      ensures StoredAt(plan[k].make) != ClaimKey(d)
    {
      ClaimNeverMade(d, w.store, k);
    }
    ReferrerRefers(d, kind);
    FillDangles(w.store, plan, Referrer(d, kind), ClaimKey(d));
  }

  lemma {:induction false} HarmlessAppend(s: Sys, plan: seq<Step>, ks: set<Kind>, a: seq<Label>, b: seq<Label>)
    requires HarmlessRun(s, plan, ks, a) && HarmlessRun(Exec(s, a), plan, ks, b)
    ensures HarmlessRun(s, plan, ks, a + b)
    decreases |a|
  {
    if a == [] {
      assert a + b == b;
    } else {
      assert (a + b)[1..] == a[1..] + b;
      HarmlessAppend(Do(s, a[0]), plan, ks, a[1..], b);
    }
  }

  /** A faultless start gets to the look-up of the claim. */
  lemma ReachClaim(start: Sys) returns (a: nat)
    requires CleanStart(start) && Asked(start).spec.hostPathDir == ""
    ensures var d, w := Asked(start), start.w;
            Exec(start, FineCalls(a)) ==
              Sys(w.(store := Fill(w.store, [SccStep(d)])), Look(w.cr.value, PvcStep(d), LaterSteps(d)))
  {
    var d, w := Asked(start), start.w;
    PlanAscending(d);
    KeysAgree(d, 0);
    var n := ReachStep(w, w.cr.value, Plan(d), 1);
    a := n + 1;
    FineCallsCons(a);
    assert Next(start, Fine) == Sys(w, Advance(w.cr.value, Plan(d)));
    assert Plan(d)[..1] == [SccStep(d)] && Plan(d)[1..] == [PvcStep(d)] + LaterSteps(d);
    assert Plan(d)[1..][1..] == LaterSteps(d);
  }

  /** Whatever the store: one failed Get of the missing claim passes it over, and the Deployment that mounts it follows. */
  lemma SkippedClaim(start: Sys) returns (run: seq<Label>)
    requires CleanStart(start) && !ClaimReady(Asked(start), start.w.store)
    ensures HarmlessRun(start, Plan(Asked(start)), REFERENCED, run) && ClaimStays(Asked(start), run)
    ensures var d := Asked(start); Dangling(Exec(start, run).w.store, DeploymentKey(d), ClaimKey(d))
  {
    var d := Asked(start);
    var a := ReachClaim(start);
    var s := Exec(start, FineCalls(a));
    ReferrerRefers(d, PersistentVolumeClaim);
    var n := SkippedDangles(s, start.w.store, d);
    assert !PassesOver(s, REFERENCED);
    run := OneReadError(start, Plan(d), REFERENCED, a, n);
  }

  /** A run without faults but for one failed Get that passes nothing over. */
  lemma OneReadError(start: Sys, plan: seq<Step>, ks: set<Kind>, a: nat, n: nat) returns (run: seq<Label>)
    requires !PassesOver(Exec(start, FineCalls(a)), ks)
    ensures HarmlessRun(start, plan, ks, run) && forall l :: l in run ==> l.Call?
    ensures Exec(start, run) == Exec(Next(Exec(start, FineCalls(a)), ReadError), FineCalls(n))
  {
    var s := Exec(start, FineCalls(a));
    var tail := [Call(ReadError)] + FineCalls(n);
    assert tail[1..] == FineCalls(n);
    ExecAppend(start, FineCalls(a), tail);
    FineCallsHarmless(start, plan, ks, a);
    FineCallsHarmless(Next(s, ReadError), plan, ks, n);
    HarmlessAppend(start, plan, ks, FineCalls(a), tail);
    run := FineCalls(a) + tail;
  }

  lemma SkippedDangles(s: Sys, store: map<Key, Object>, d: Desired) returns (n: nat)
    requires !ClaimReady(d, store) && DeploymentKey(d) !in store
    requires s.w.store == Fill(store, [SccStep(d)])
    requires s.pc.Look? && s.pc.step == PvcStep(d) && s.pc.rest == LaterSteps(d) && !s.pc.m.marked
    ensures Dangling(Exec(Next(s, ReadError), FineCalls(n)).w.store, DeploymentKey(d), ClaimKey(d))
  {
    var plan, rest, kind := Plan(d), LaterSteps(d), PersistentVolumeClaim;
    PlanAscending(d);
    assert plan[2..] == rest;
    AscendingSuffix(plan, 2);
    forall k | 0 <= k < |rest|
      ensures !Stuck(s.w.store, rest[k]) && StoredAt(rest[k].make) != ClaimKey(d)
    {
      assert rest[k] == plan[k + 2];
      KeysAgree(d, k + 2);
      ClaimNeverMade(d, store, k + 2);
      LaterAscending(d, k);
    }
    n := SkipFills(s);
    ReferrerRefers(d, kind);
    assert rest[5] == plan[7];
    FillDangles(s.w.store, rest, 5, ClaimKey(d));
  }

  /** Referential closure, exactly: it holds at every point of every such run if and only if the claim is ready at the
      start. */
  lemma ReferencesExact(start: Sys)
    requires CleanStart(start)
    ensures (forall run :: HarmlessRun(start, Plan(Asked(start)), REFERENCED, run) && ClaimStays(Asked(start), run) ==>
                           Closed(Exec(start, run).w.store, CreationOrder(Asked(start)))) <==>
            ClaimReady(Asked(start), start.w.store)
  {
    var d := Asked(start);
    if ClaimReady(d, start.w.store) {
      forall run | HarmlessRun(start, Plan(d), REFERENCED, run) && ClaimStays(d, run)
        ensures Closed(Exec(start, run).w.store, CreationOrder(d))
      {
        ReferencesExist(start, run);
      }
    } else {
      var run := SkippedClaim(start);
      ReferrerRefers(d, PersistentVolumeClaim);
    }
  }

  // ---------------------------------------------------------------- which failed Gets break the references

  /** A failing Get would now pass over the absent service account or default claim. */
  predicate LosesReference(s: Sys, d: Desired) {
    s.pc.Look? && s.pc.step.lookup !in s.w.store &&
    (s.pc.step.make.kind.ServiceAccount? || (s.pc.step.make.kind.PersistentVolumeClaim? && OwnsClaim(d)))
  }

  lemma PassedKinds(d: Desired, i: nat)
    requires i < |Plan(d)|
    ensures var step := Plan(d)[i];
            Owned(step) && step.policy.IfNotFound? && step.make.kind in REFERENCED <==>
            step.make.kind.ServiceAccount? || (step.make.kind.PersistentVolumeClaim? && OwnsClaim(d))
  {
    var first := if d.spec.hostPathDir != "" then 1 else 2;
    if i >= first {
      assert Plan(d)[i] == LaterSteps(d)[i - first];
      LaterAscending(d, i - first);
      LaterOwned(d, i - first);
    } else if i == 1 {
      assert Plan(d)[1] == PvcStep(d);
    }
  }

  /** Of the kinds others refer to, only these two are ever passed over. */
  lemma LosesReferenceIsPassingOver(s: Sys, d: Desired, ks: set<Kind>, ready: bool)
    requires OrderInv(s, d, Plan(d), ks, ready)
    ensures LosesReference(s, d) <==> PassesOver(s, REFERENCED)
  {
    if s.pc.Look? {
      var plan := Plan(d);
      var i := Position(plan, s.pc);
      PassedKinds(d, i);
      if LosesReference(s, d) {
        LostIsReferred(d, i);
        var j := Referrer(d, plan[i].make.kind);
        ReferrerRefers(d, plan[i].make.kind);
        assert s.pc.rest[j - i - 1] == plan[j];
      }
    }
  }

  /** Exactly which failed Gets break the references: at any point of any such run, a Get that fails keeps them under
      every faultless continuation unless it passes over the absent service account or default claim. */
  lemma ReadErrorReferencesExact(start: Sys, run: seq<Label>)
    requires CleanStart(start) && ClaimReady(Asked(start), start.w.store)
    requires HarmlessRun(start, Plan(Asked(start)), REFERENCED, run) && ClaimStays(Asked(start), run)
    ensures var s, d := Exec(start, run), Asked(start);
            (forall n: nat :: Closed(Exec(Next(s, ReadError), FineCalls(n)).w.store, CreationOrder(d))) <==> !LosesReference(s, d)
  {
    var d, s := Asked(start), Exec(start, run);
    OrderFromStart(start, run, REFERENCED, true);
    LosesReferenceIsPassingOver(s, d, REFERENCED, true);
    if !LosesReference(s, d) {
      PlanAscending(d);
      CallKeepsOrder(s, ReadError, d, Plan(d), REFERENCED, true);
      forall n: nat
        ensures Closed(Exec(Next(s, ReadError), FineCalls(n)).w.store, CreationOrder(d))
      {
        FineKeepsOrder(Next(s, ReadError), n, d, REFERENCED, true);
        OrderIsClosed(Exec(Next(s, ReadError), FineCalls(n)), d);
      }
    } else {
      var n := DanglingReference(s, d);
    }
  }

  lemma DanglingReference(s: Sys, d: Desired) returns (n: nat)
    requires OrderInv(s, d, Plan(d), REFERENCED, true) && PassesOver(s, REFERENCED) && LosesReference(s, d)
    ensures var kind := s.pc.step.make.kind;
            Dangling(Exec(Next(s, ReadError), FineCalls(n)).w.store, Plan(d)[Referrer(d, kind)].lookup, Referred(d, kind))
    ensures !Closed(Exec(Next(s, ReadError), FineCalls(n)).w.store, CreationOrder(d))
  {
    var i, j := Position(Plan(d), s.pc), Referrer(d, s.pc.step.make.kind);
    ReferrerRefers(d, s.pc.step.make.kind);
    LostIsReferred(d, i);
    LadderDown(s.w.store, Plan(d), REFERENCED, i, j);
    LostDangles(s.w.store, d, i, s.pc.rest);
    n := SkipFills(s);
  }

  lemma LadderDown(store: map<Key, Object>, plan: seq<Step>, ks: set<Kind>, i: nat, j: nat)
    requires Ladder(store, plan, ks) && i < j < |plan| && Owned(plan[i]) && Owned(plan[j])
    requires plan[i].make.kind in ks && plan[i].lookup !in store
    ensures plan[j].lookup !in store
  {
  }

  lemma LostDangles(store: map<Key, Object>, d: Desired, i: nat, rest: seq<Step>)
    requires i < |Plan(d)| && rest == Plan(d)[i + 1..] && ClaimReady(d, store)
    requires Owned(Plan(d)[i]) && Plan(d)[i].lookup !in store
    requires Plan(d)[i].make.kind.ServiceAccount? || (Plan(d)[i].make.kind.PersistentVolumeClaim? && d.spec.hostPathDir == "")
    requires Plan(d)[Referrer(d, Plan(d)[i].make.kind)].lookup !in store
    ensures Ascending(rest) && forall k :: 0 <= k < |rest| ==> !Stuck(store, rest[k])
    ensures var kind := Plan(d)[i].make.kind;
            Dangling(Fill(store, rest), Plan(d)[Referrer(d, kind)].lookup, Referred(d, kind))
  {
    var plan, kind := Plan(d), Plan(d)[i].make.kind;
    forall k | 0 <= k < |rest|
      ensures !Stuck(store, rest[k])
    {
      assert rest[k] == plan[i + 1 + k];
      ReadyNotStuck(d, store, i + 1 + k);
    }
    PlanAscending(d);
    AscendingSuffix(plan, i + 1);
    ReferrerRefers(d, kind);
    LostIsReferred(d, i);
    NoLaterNamesake(plan, i, rest);
    var j := Referrer(d, kind) - i - 1;
    assert rest[j] == plan[Referrer(d, kind)];
    FillDangles(store, rest, j, Referred(d, kind));
  }

  lemma LostIsReferred(d: Desired, i: nat)
    requires i < |Plan(d)| && Owned(Plan(d)[i])
    requires Plan(d)[i].make.kind.ServiceAccount? || Plan(d)[i].make.kind.PersistentVolumeClaim?
    ensures i < Referrer(d, Plan(d)[i].make.kind) && Plan(d)[i].lookup == Referred(d, Plan(d)[i].make.kind)
  {
    var first := if d.spec.hostPathDir != "" then 1 else 2;
    if i >= first {
      assert Plan(d)[i] == LaterSteps(d)[i - first];
      LaterAscending(d, i - first);
    }
  }

  /** One step of a create phase without faults takes one call, or two if it creates its object. */
  lemma FineStep(w: World, m: Nfs, todo: seq<Step>, n: nat)
    requires todo != [] && !Stuck(w.store, todo[0])
    ensures var s := Sys(w, Advance(m, todo));
            var w' := if Missing(w.store, todo[0]) then Create(w, todo[0].make, Fine).0 else w;
            Exec(s, FineCalls(n + if Missing(w.store, todo[0]) then 2 else 1)) ==
              Exec(Sys(w', Advance(m, todo[1..])), FineCalls(n))
  {
    var s := Sys(w, Advance(m, todo));
    if Missing(w.store, todo[0]) {
      FineCallsCons(n + 2);
      FineCallsCons(n + 1);
      assert Next(s, Fine) == Sys(w, Make(m, todo[0], todo[1..]));
    } else {
      FineCallsCons(n + 1);
    }
  }

  /** A faultless create phase gets to its `i`-th step. */
  lemma {:induction false} ReachStep(w: World, m: Nfs, todo: seq<Step>, i: nat) returns (n: nat)
    requires Ascending(todo) && i <= |todo|
    requires forall j :: 0 <= j < i ==> !Stuck(w.store, todo[j])
    ensures Exec(Sys(w, Advance(m, todo)), FineCalls(n)) ==
              Sys(w.(store := Fill(w.store, todo[..i])), Advance(m, todo[i..]))
    decreases i
  {
    if i == 0 {
      n := 0;
      assert todo[..0] == [] && todo[0..] == todo;
    } else {
      assert !Stuck(w.store, todo[0]);
      var missing := Missing(w.store, todo[0]);
      var w' := if missing then Create(w, todo[0].make, Fine).0 else w;
      forall j | 0 <= j < i - 1
        ensures !Stuck(w'.store, todo[1..][j])
      {
        assert !Stuck(w.store, todo[j + 1]);
      }
      var n1 := ReachStep(w', m, todo[1..], i - 1);
      n := n1 + if missing then 2 else 1;
      FineStep(w, m, todo, n1);
      FillHead(w.store, todo, i);
      assert todo[1..][i - 1..] == todo[i..];
    }
  }

  lemma FillHead(store: map<Key, Object>, todo: seq<Step>, i: nat)
    requires 0 < i <= |todo|
    ensures Fill(store, todo[..i]) ==
              Fill(if Missing(store, todo[0]) then store[StoredAt(todo[0].make) := todo[0].make] else store, todo[1..][..i - 1])
  {
    assert todo[..i][0] == todo[0] && todo[..i][1..] == todo[1..][..i - 1];
  }

  /** The steps before the `i`-th do not create what it looks up. */
  lemma FillStopsShort(store: map<Key, Object>, todo: seq<Step>, i: nat)
    requires Ascending(todo) && i < |todo| && todo[i].lookup !in store
    requires forall j :: 0 <= j < i ==> !Stuck(store, todo[j])
    ensures todo[i].lookup !in Fill(store, todo[..i])
  {
    FillEffect(store, todo[..i]);
    forall j | 0 <= j < i
      ensures StoredAt(todo[..i][j].make) != todo[i].lookup
    {
      assert KindRank(todo[j].make.kind) < KindRank(todo[i].make.kind);
    }
  }

  /** A failing run from every clean start with its claim ready: the Get of the service account fails, and a faultless
      rest of the reconcile creates a RoleBinding whose subject does not exist. */
  lemma ReferencesNeedReads(start: Sys) returns (a: nat, n: nat)
    requires CleanStart(start) && ClaimReady(Asked(start), start.w.store)
    ensures var s, d := Exec(start, FineCalls(a)), Asked(start);
            && s.pc.Look? && s.pc.step.make.kind.ServiceAccount?
            && Dangling(Exec(Next(s, ReadError), FineCalls(n)).w.store,
                        Key(RoleBinding, d.ns, ROLE_BINDING), Key(ServiceAccount, d.ns, SERVICE_ACCOUNT))
  {
    var d := Asked(start);
    a := ReachServiceAccount(start);
    var s := Exec(start, FineCalls(a));
    FineCallsHarmless(start, Plan(d), REFERENCED, a);
    OrderFromStart(start, FineCalls(a), REFERENCED, true);
    LosesReferenceIsPassingOver(s, d, REFERENCED, true);
    ReferrerRefers(d, ServiceAccount);
    n := DanglingReference(s, d);
  }

  lemma ReachServiceAccount(start: Sys) returns (a: nat)
    requires CleanStart(start) && ClaimReady(Asked(start), start.w.store)
    ensures LosesReference(Exec(start, FineCalls(a)), Asked(start))
    ensures Exec(start, FineCalls(a)).pc.step.make.kind.ServiceAccount?
  {
    var d, w := Asked(start), start.w;
    var plan := Plan(d);
    var first := if d.spec.hostPathDir != "" then 1 else 2;
    PlanAscending(d);
    StuckOnlyAtClaim(d, w.store);
    var n := ReachStep(w, w.cr.value, plan, first);
    a := n + 1;
    FineCallsCons(a);
    assert Next(start, Fine) == Sys(w, Advance(w.cr.value, plan));
    assert plan[first] == LaterSteps(d)[0] && plan[first..][0] == plan[first];
    LaterOwned(d, 0);
    FillStopsShort(w.store, plan, first);
  }

  /** The Service selects exactly the pods that the Deployment's template labels. */
  lemma ServiceSelectsPods(d: Desired, t: StorageType)
    ensures ServiceFor(d).payload.selector == DeploymentFor(d, t).payload.podLabels
    ensures ServiceFor(d).payload.selector["nfsprovisioner_cr"] == d.name
  {
  }
}
