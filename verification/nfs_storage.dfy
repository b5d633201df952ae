/** What the Deployment of an NFSProvisioner resource mounts: the storage its spec chose, and exactly which failed Gets
    leave it without its claim. */
module NfsStorage {
  import opened NfsTypes
  import opened NfsCluster
  import opened NfsController
  import opened NfsSafety
  import opened NfsProgress
  import opened NfsLive

  /** At every point of every run, whatever others do and whatever fails: the Deployment about to be created mounts the
      host path exactly when the spec this reconcile has read sets one, and else the claim the PVC step looks up. */
  lemma VolumeCoherent(start: Sys, run: seq<Label>)
    requires Start(start)
    ensures var s := Exec(start, run);
            s.pc.Make? && s.pc.step.make.kind.Deployment? ==>
              var d := s.pc.m.desired;
              s.pc.step.make.payload.Workload? &&
              match s.pc.step.make.payload.volume
              case HostPath(path) => path == d.spec.hostPathDir != ""
              case Claim(c) => d.spec.hostPathDir == "" && Key(PersistentVolumeClaim, d.ns, c) == ClaimKey(d)
  {
    var s := Exec(start, run);
    FramedAlways(start, run);
    if s.pc.Make? && s.pc.step.make.kind.Deployment? {
      var d := s.pc.m.desired;
      assert s.pc.step in [s.pc.step] + s.pc.rest;
      var i :| 0 <= i < |Plan(d)| && Plan(d)[i] == s.pc.step;
      DeploymentPosition(d, i);
    }
  }

  lemma DeploymentPosition(d: Desired, i: nat)
    requires i < |Plan(d)| && Plan(d)[i].make.kind.Deployment?
    ensures Plan(d)[i].make == DeploymentFor(d, StorageTypeOf(d.spec)) && i == Referrer(d, PersistentVolumeClaim)
  {
    var first := if d.spec.hostPathDir != "" then 1 else 2;
    if i >= first {
      assert Plan(d)[i] == LaterSteps(d)[i - first];
      LaterAscending(d, i - first);
    }
  }

  /** Others keep the spec and neither create nor delete the claim it asks for; the resource may be marked and go. */
  predicate LeavesStorage(d: Desired, a: Action) {
    match a
    case EditSpec(_) => false
    case CreateCr(_) => false
    case PutObject(k, _) => k != ClaimKey(d)
    case RemoveObject(k) => k != ClaimKey(d)
    case _ => true
  }

  /** A failing Get would now pass over the absent default claim. */
  predicate SkipsClaim(s: Sys, d: Desired) {
    s.pc.Look? && s.pc.step.make.kind.PersistentVolumeClaim? && OwnsClaim(d) && s.pc.step.lookup !in s.w.store
  }

  predicate StorageRun(s: Sys, d: Desired, run: seq<Label>)
    decreases |run|
  {
    run == [] ||
    ((match run[0]
      case Env(a) => LeavesStorage(d, a)
      case Call(f) => f.ReadError? ==> !SkipsClaim(s, d)) &&
     StorageRun(Do(s, run[0]), d, run[1..]))
  }

  /** Where the reconcile stands: always at a step of the plan for `d`. */
  ghost predicate OnPlan(s: Sys, d: Desired, plan: seq<Step>) {
    && (s.w.cr.Some? ==> s.w.cr.value.desired == d)
    && !s.pc.WriteStatus? && (!s.pc.Idle? ==> s.pc.m.desired == d)
    && (s.pc.Look? || s.pc.Make? ==>
          var i := Position(plan, s.pc); 0 <= i < |plan| && s.pc.step == plan[i] && s.pc.rest == plan[i + 1..])
  }

  /** The claim is there if it was ready, the default claim from its step on. */
  ghost predicate StorageInv(s: Sys, d: Desired, plan: seq<Step>, ready: bool) {
    && OnPlan(s, d, plan)
    && ClaimReady(d, s.w.store) == ready
    && ((s.pc.Look? || s.pc.Make?) && OwnsClaim(d) && Position(plan, s.pc) > 1 ==> ClaimKey(d) in s.w.store)
  }

  lemma AdvanceStorage(w: World, m: Nfs, i: nat, d: Desired, plan: seq<Step>, ready: bool)
    requires (w.cr.Some? ==> w.cr.value.desired == d) && m.desired == d && ClaimReady(d, w.store) == ready
    requires i <= |plan| && (OwnsClaim(d) && i > 1 ==> ClaimKey(d) in w.store)
    ensures StorageInv(Sys(w, Advance(m, plan[i..])), d, plan, ready)
  {
    if i < |plan| {
      assert plan[i..][1..] == plan[i + 1..];
    }
  }

  /** Creating a planned object does not bring the user's claim into being. */
  lemma MakeKeepsReady(store: map<Key, Object>, d: Desired, i: nat)
    requires i < |Plan(d)|
    ensures var step := Plan(d)[i]; ClaimReady(d, store[StoredAt(step.make) := step.make]) == ClaimReady(d, store)
  {
  }

  lemma SecondIsClaim(d: Desired)
    requires OwnsClaim(d)
    ensures Plan(d)[1] == PvcStep(d) && Owned(PvcStep(d)) && PvcStep(d).lookup == ClaimKey(d)
  {
  }

  lemma LookKeepsStorage(s: Sys, f: Fault, d: Desired, plan: seq<Step>, ready: bool)
    requires StorageInv(s, d, plan, ready) && (f.ReadError? ==> !SkipsClaim(s, d)) && s.pc.Look?
    requires OwnsClaim(d) ==> |plan| > 1 && plan[1] == PvcStep(d)
    ensures StorageInv(Next(s, f), d, plan, ready)
  {
    var i := Position(plan, s.pc);
    if !Creates(s.pc.step.policy, Read(s.w, s.pc.step.lookup, f)) {
      if OwnsClaim(d) && i == 1 {
        ClaimPassed(s, f, d);
      }
      AdvanceStorage(s.w, s.pc.m, i + 1, d, plan, ready);
    }
  }

  lemma ClaimPassed(s: Sys, f: Fault, d: Desired)
    requires OwnsClaim(d) && s.pc.Look? && s.pc.step == PvcStep(d) && (f.ReadError? ==> !SkipsClaim(s, d))
    requires !Creates(s.pc.step.policy, Read(s.w, s.pc.step.lookup, f))
    ensures ClaimKey(d) in s.w.store
  {
  }

  lemma MakeKeepsStorage(s: Sys, f: Fault, d: Desired, plan: seq<Step>, ready: bool)
    requires StorageInv(s, d, plan, ready) && s.pc.Make? && plan == Plan(d)
    ensures StorageInv(Next(s, f), d, plan, ready)
  {
    var i := Position(plan, s.pc);
    MakeKeepsReady(s.w.store, d, i);
    if OwnsClaim(d) {
      SecondIsClaim(d);
    }
    var (w', reply) := Create(s.w, s.pc.step.make, f);
    if reply.Ok? {
      AdvanceStorage(w', s.pc.m, i + 1, d, plan, ready);
    }
  }

  lemma ProtocolKeepsStorage(s: Sys, f: Fault, d: Desired, plan: seq<Step>, ready: bool)
    requires StorageInv(s, d, plan, ready) && !s.pc.Idle? && !s.pc.Look? && !s.pc.Make?
    ensures StorageInv(Next(s, f), d, plan, ready)
  {
  }

  lemma CallKeepsStorage(s: Sys, f: Fault, d: Desired, plan: seq<Step>, ready: bool)
    requires StorageInv(s, d, plan, ready) && (f.ReadError? ==> !SkipsClaim(s, d)) && Valid(d.spec) && plan == Plan(d)
    ensures StorageInv(Next(s, f), d, plan, ready)
  {
    if s.pc.Idle? {
      if s.w.cr.Some? {
        AdvanceStorage(s.w, s.w.cr.value, 0, d, plan, ready);
        assert plan[0..] == plan;
      }
    } else if s.pc.Look? {
      if OwnsClaim(d) {
        SecondIsClaim(d);
      }
      LookKeepsStorage(s, f, d, plan, ready);
    } else if s.pc.Make? {
      MakeKeepsStorage(s, f, d, plan, ready);
    } else {
      ProtocolKeepsStorage(s, f, d, plan, ready);
    }
  }

  lemma EnvKeepsStorage(s: Sys, a: Action, d: Desired, plan: seq<Step>, ready: bool)
    requires StorageInv(s, d, plan, ready) && LeavesStorage(d, a)
    ensures StorageInv(Do(s, Env(a)), d, plan, ready)
  {
  }

  lemma {:induction false} StorageAlways(s: Sys, run: seq<Label>, d: Desired, plan: seq<Step>, ready: bool)
    requires StorageInv(s, d, plan, ready) && StorageRun(s, d, run) && Valid(d.spec) && plan == Plan(d)
    ensures StorageInv(Exec(s, run), d, plan, ready)
    decreases |run|
  {
    if run != [] {
      match run[0] {
        case Env(a) => EnvKeepsStorage(s, a, d, plan, ready);
        case Call(f) => CallKeepsStorage(s, f, d, plan, ready);
      }
      StorageAlways(Do(s, run[0]), run[1..], d, plan, ready);
    }
  }

  /** When the controller is about to create a Deployment that mounts a claim, that claim exists exactly if `ready`. */
  predicate MountsReady(s: Sys, d: Desired, ready: bool) {
    s.pc.Make? && s.pc.step.make.kind.Deployment? && d.spec.hostPathDir == "" ==> (ClaimKey(d) in s.w.store <==> ready)
  }

  /** Storage coherence: at every point of every run that passes no absent default claim over, the claim of a Deployment
      about to be created exists exactly when it was ready at the start. */
  lemma StorageCoherent(start: Sys, run: seq<Label>)
    requires start.pc.Idle? && ValidCr(start.w) && StorageRun(start, Asked(start), run)
    ensures MountsReady(Exec(start, run), Asked(start), ClaimReady(Asked(start), start.w.store))
  {
    var d := Asked(start);
    StorageAlways(start, run, d, Plan(d), ClaimReady(d, start.w.store));
    ReadyAtDeployment(Exec(start, run), d, ClaimReady(d, start.w.store));
  }

  lemma ReadyAtDeployment(s: Sys, d: Desired, ready: bool)
    requires StorageInv(s, d, Plan(d), ready)
    ensures MountsReady(s, d, ready)
  {
    if s.pc.Make? && s.pc.step.make.kind.Deployment? {
      DeploymentPosition(d, Position(Plan(d), s.pc));
    }
  }

  // ---------------------------------------------------------------- which failed Gets break the storage

  /** Exactly which failed Gets break it: at any point of any such run, a Get that fails keeps every Deployment created
      under a faultless continuation on a claim that is ready, unless it passes the absent default claim over with the
      Deployment still to come. */
  lemma ReadErrorStorageExact(start: Sys, run: seq<Label>)
    requires start.pc.Idle? && ValidCr(start.w) && StorageRun(start, Asked(start), run)
    ensures var s, d := Exec(start, run), Asked(start);
            var ready := ClaimReady(d, start.w.store);
            (forall n: nat :: MountsReady(Exec(Next(s, ReadError), FineCalls(n)), d, ready)) <==>
            !(SkipsClaim(s, d) && DeploymentKey(d) !in s.w.store)
  {
    var s, d := Exec(start, run), Asked(start);
    var ready := ClaimReady(d, start.w.store);
    StorageAlways(start, run, d, Plan(d), ready);
    if SkipsClaim(s, d) && DeploymentKey(d) !in s.w.store {
      var n := MountsSkipped(s, d);
    } else {
      forall n: nat
        ensures MountsReady(Exec(Next(s, ReadError), FineCalls(n)), d, ready)
      {
        if SkipsClaim(s, d) {
          NoDeploymentAhead(s, ReadError, d);
          NeverMounts(Next(s, ReadError), d, n);
        } else {
          CallKeepsStorage(s, ReadError, d, Plan(d), ready);
          FineStorage(Next(s, ReadError), d, n);
          StorageAlways(Next(s, ReadError), FineCalls(n), d, Plan(d), ready);
          ReadyAtDeployment(Exec(Next(s, ReadError), FineCalls(n)), d, ready);
        }
      }
    }
  }

  lemma {:induction false} FineStorage(s: Sys, d: Desired, n: nat)
    ensures StorageRun(s, d, FineCalls(n))
    decreases n
  {
    if n > 0 {
      FineCallsCons(n);
      FineStorage(Do(s, Call(Fine)), d, n - 1);
    }
  }

  /** The Deployment is there and not about to be created. */
  ghost predicate Deployed(s: Sys, d: Desired) {
    OnPlan(s, d, Plan(d)) && DeploymentKey(d) in s.w.store && !(s.pc.Make? && s.pc.step.make.kind.Deployment?)
  }

  lemma AdvanceOnPlan(w: World, m: Nfs, i: nat, d: Desired, plan: seq<Step>)
    requires (w.cr.Some? ==> w.cr.value.desired == d) && m.desired == d && i <= |plan|
    ensures OnPlan(Sys(w, Advance(m, plan[i..])), d, plan) && !Advance(m, plan[i..]).Make?
  {
    if i < |plan| {
      assert plan[i..][1..] == plan[i + 1..];
    }
  }

  lemma CreatePhaseOnPlan(s: Sys, f: Fault, d: Desired, plan: seq<Step>)
    requires OnPlan(s, d, plan) && (s.pc.Look? || s.pc.Make?)
    ensures OnPlan(Next(s, f), d, plan) && Next(s, f).w.cr == s.w.cr && s.w.store.Keys <= Next(s, f).w.store.Keys
    ensures Next(s, f).pc.Make? ==> s.pc.Look? && Next(s, f).pc.step == s.pc.step && (f.Fine? ==> s.pc.step.lookup !in s.w.store)
  {
    AdvanceOnPlan(Next(s, f).w, s.pc.m, Position(plan, s.pc) + 1, d, plan);
  }

  lemma NoDeploymentAhead(s: Sys, f: Fault, d: Desired)
    requires Deployed(s, d) && Valid(d.spec) && (f.Fine? || (s.pc.Look? && !s.pc.step.make.kind.Deployment?))
    ensures Deployed(Next(s, f), d)
  {
    if s.pc.Idle? {
      if s.w.cr.Some? {
        AdvanceOnPlan(s.w, s.w.cr.value, 0, d, Plan(d));
        assert Plan(d)[0..] == Plan(d);
      }
    } else if s.pc.Look? || s.pc.Make? {
      CreatePhaseOnPlan(s, f, d, Plan(d));
      if s.pc.step.make.kind.Deployment? {
        DeploymentPosition(d, Position(Plan(d), s.pc));
        ReferrerRefers(d, PersistentVolumeClaim);
      }
    } else {
      ProtocolKeepsDeployed(s, f, d);
    }
  }

  lemma ProtocolKeepsDeployed(s: Sys, f: Fault, d: Desired)
    requires Deployed(s, d) && !s.pc.Idle? && !s.pc.Look? && !s.pc.Make?
    ensures Deployed(Next(s, f), d)
  {
  }

  lemma {:induction false} NeverMounts(s: Sys, d: Desired, n: nat)
    requires Deployed(s, d) && Valid(d.spec)
    ensures Deployed(Exec(s, FineCalls(n)), d)
    decreases n
  {
    if n > 0 {
      FineCallsCons(n);
      NoDeploymentAhead(s, Fine, d);
      NeverMounts(Next(s, Fine), d, n - 1);
    }
  }

  /** With the default claim passed over, a faultless continuation gets to the Deployment without it. */
  lemma MountsSkipped(s: Sys, d: Desired) returns (n: nat)
    requires OnPlan(s, d, Plan(d)) && SkipsClaim(s, d) && DeploymentKey(d) !in s.w.store
    ensures var s' := Exec(Next(s, ReadError), FineCalls(n));
            s'.pc.Make? && s'.pc.step.make.kind.Deployment? && ClaimKey(d) !in s'.w.store
  {
    var plan, m := Plan(d), s.pc.m;
    ClaimIsSecond(d, Position(plan, s.pc));
    SecondIsClaim(d);
    var rest := LaterSteps(d);
    assert plan[2..] == rest;
    var s1 := Next(s, ReadError);
    assert s1 == Sys(s.w, Advance(m, rest));
    LaterNeverStuck(d, s.w.store);
    var n1 := ReachStep(s.w, m, rest, 5);
    var s2 := Exec(s1, FineCalls(n1));
    StillToCome(d, s.w.store);
    n := n1 + 1;
    FineCallsAppend(s1, n1);
  }

  lemma LaterNeverStuck(d: Desired, store: map<Key, Object>)
    requires OwnsClaim(d)
    ensures Ascending(LaterSteps(d)) && forall k :: 0 <= k < 8 ==> !Stuck(store, LaterSteps(d)[k])
  {
    PlanAscending(d);
    assert Plan(d)[2..] == LaterSteps(d);
    AscendingSuffix(Plan(d), 2);
    forall k | 0 <= k < 8
      ensures !Stuck(store, LaterSteps(d)[k])
    {
      assert LaterSteps(d)[k] == Plan(d)[k + 2];
      KeysAgree(d, k + 2);
    }
  }

  /** The steps before the Deployment create neither it nor the claim. */
  lemma StillToCome(d: Desired, store: map<Key, Object>)
    requires OwnsClaim(d) && ClaimKey(d) !in store && DeploymentKey(d) !in store
    ensures ClaimKey(d) !in Fill(store, LaterSteps(d)[..5]) && DeploymentKey(d) !in Fill(store, LaterSteps(d)[..5])
  {
    var todo := LaterSteps(d)[..5];
    LaterNeverStuck(d, store);
    FillEffect(store, todo);
    forall k | 0 <= k < 5
      ensures StoredAt(todo[k].make) != ClaimKey(d) && StoredAt(todo[k].make) != DeploymentKey(d)
    {
      LaterAscending(d, k);
    }
  }

  lemma FineCallsAppend(s: Sys, n: nat)
    ensures Exec(s, FineCalls(n + 1)) == Next(Exec(s, FineCalls(n)), Fine)
  {
    var last := [Call(Fine)];
    assert FineCalls(n + 1) == FineCalls(n) + last;
    ExecAppend(s, FineCalls(n), last);
    assert Exec(Exec(s, FineCalls(n)), last) == Next(Exec(s, FineCalls(n)), Fine);
  }
}
