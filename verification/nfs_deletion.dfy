/** Deletion and repetition of NFSProvisioner reconciles: when the cleanup is complete, when it is reached,
    when it lasts, and when a second reconcile has nothing left to do. */
module NfsDeletion {
  import opened Prelude
  import opened NfsTypes
  import opened NfsCluster
  import opened NfsController
  import opened NfsSafety
  import opened NfsProgress

  // ---------------------------------------------------------------- the exact effect of read errors

  /** The finalizer can leave with a cluster object still present exactly when the cleanup's own Get of an existing
      object failed: that Get skips the Delete. */
  lemma CleanupExact(w: World, m: Nfs, ticks: seq<Tick>)
    requires w.cr == Some(m) && m.marked && HasOurs(w.cr) && Quiet(ticks)
    ensures var r := Drive(Sys(w, LookRole(m)), ticks);
            var roleDropped := ROLE_KEY in w.store && !Head(ticks).fault.ReadError?;
            var bindingTicks := if roleDropped then Tail(Tail(ticks)) else Tail(ticks);
            !HasOurs(r.w.cr) ==>
              (ROLE_KEY in r.w.store <==> ROLE_KEY in w.store && Head(ticks).fault.ReadError?) &&
              (BINDING_KEY in r.w.store <==> BINDING_KEY in w.store && Head(bindingTicks).fault.ReadError?)
  {
    assert Head(ticks).env == [] && Head(Tail(ticks)).env == [];
    var s1 := Tock(Sys(w, LookRole(m)), Head(ticks));
    if s1.pc.DropRole? {
      var s2 := Tock(s1, Head(Tail(ticks)));
      assert Drive(Sys(w, LookRole(m)), ticks) == Drive(s1, Tail(ticks)) == Drive(s2, Tail(Tail(ticks)));
      if !s2.pc.Idle? {
        BindingCleanupExact(s2.w, m, Tail(Tail(ticks)));
      }
    } else {
      BindingCleanupExact(w, m, Tail(ticks));
    }
  }

  lemma ClearKeepsStore(s: Sys, ticks: seq<Tick>)
    requires s.pc.ClearFinalizer? && Quiet(ticks)
    ensures Drive(s, ticks).w.store == s.w.store
  {
  }

  lemma BindingCleanupExact(w: World, m: Nfs, ticks: seq<Tick>)
    requires w.cr == Some(m) && m.marked && HasOurs(w.cr) && Quiet(ticks)
    ensures var r := Drive(Sys(w, LookBinding(m)), ticks);
            !HasOurs(r.w.cr) ==>
              (ROLE_KEY in r.w.store <==> ROLE_KEY in w.store) &&
              (BINDING_KEY in r.w.store <==> BINDING_KEY in w.store && Head(ticks).fault.ReadError?)
  {
    assert Head(ticks).env == [] && Head(Tail(ticks)).env == [];
    var s1 := Tock(Sys(w, LookBinding(m)), Head(ticks));
    if s1.pc.DropBinding? {
      var s2 := Tock(s1, Head(Tail(ticks)));
      assert Drive(Sys(w, LookBinding(m)), ticks) == Drive(s1, Tail(ticks)) == Drive(s2, Tail(Tail(ticks)));
      if !s2.pc.Idle? {
        ClearKeepsStore(s2, Tail(Tail(ticks)));
      }
    } else {
      ClearKeepsStore(s1, Tail(ticks));
    }
  }

  /** As long as a create phase finds what it looks for, it makes one call per step and no write. */
  lemma {:induction false} SilentSteps(w: World, m: Nfs, todo: seq<Step>, n: nat, ticks: seq<Tick>)
    requires n <= |todo| && forall i :: 0 <= i < n ==> !Missing(w.store, todo[i])
    requires n <= |ticks| && forall i :: 0 <= i < n ==> ticks[i] == Tick([], Fine)
    ensures Drive(Sys(w, Advance(m, todo)), ticks) == Drive(Sys(w, Advance(m, todo[n..])), ticks[n..])
    decreases n
  {
    if n > 0 {
      assert !Missing(w.store, todo[0]) && ticks[0] == Tick([], Fine);
      var s := Sys(w, Advance(m, todo));
      assert Tock(s, Head(ticks)) == Sys(w, Advance(m, todo[1..]));
      SilentSteps(w, m, todo[1..], n - 1, ticks[1..]);
      assert ticks[1..][n - 1..] == ticks[n..] && todo[1..][n - 1..] == todo[n..];
    } else {
      assert ticks[0..] == ticks && todo[0..] == todo;
    }
  }

  lemma {:induction false} SilentEnd(w: World, m: Nfs, todo: seq<Step>)
    requires forall i :: 0 <= i < |todo| ==> !Missing(w.store, todo[i])
    ensures Drive(Sys(w, Advance(m, todo)), []) == Drive(Sys(w, AfterCreate(m)), [])
    decreases |todo|
  {
    if todo != [] {
      assert !Missing(w.store, todo[0]);
      assert Tock(Sys(w, Advance(m, todo)), Head([])) == Sys(w, Advance(m, todo[1..]));
      SilentEnd(w, m, todo[1..]);
    }
  }

  function Calm(n: nat): seq<Tick> {
    seq(n, _ => Tick([], Fine))
  }

  lemma CalmCons(n: nat, last: seq<Tick>)
    ensures Head(Calm(1 + n) + last) == Tick([], Fine) && Tail(Calm(1 + n) + last) == Calm(n) + last
  {
  }

  /** Finalizer safety fails without the assumption on the cleanup's Gets: from any complete cluster, one read error
      at the right call releases the resource while the ClusterRole stays behind. */
  lemma ReadErrorLeaks(w: World)
    requires Doomed(w) && Complete(w)
    ensures var ticks := Calm(1 + |Plan(w.cr.value.desired)|) + [Tick([], ReadError)];
            !HasOurs(Reconcile(w, ticks).w.cr) && ROLE_KEY in Reconcile(w, ticks).w.store
  {
    var m := w.cr.value;
    var plan := Plan(m.desired);
    var last := [Tick([], ReadError)];
    var ticks, tail := Calm(1 + |plan|) + last, Calm(|plan|) + last;
    CalmCons(|plan|, last);
    assert Tock(Sys(w, Idle(Done)), Tick([], Fine)) == Sys(w, Advance(m, plan));
    assert Reconcile(w, ticks) == Drive(Sys(w, Advance(m, plan)), tail);
    SilentSteps(w, m, plan, |plan|, tail);
    assert tail[|plan|..] == last && plan[|plan|..] == [];
    RoleInComplete(w.store, m.desired);
    SkippedRole(w, m);
  }

  lemma SkippedRole(w: World, m: Nfs)
    requires w.cr == Some(m) && m.marked && HasOurs(w.cr) && ROLE_KEY in w.store
    ensures var r := Drive(Sys(w, LookRole(m)), [Tick([], ReadError)]); !HasOurs(r.w.cr) && ROLE_KEY in r.w.store
  {
    assert Tock(Sys(w, LookRole(m)), Tick([], ReadError)) == Sys(w, LookBinding(m));
    assert Tail([Tick([], ReadError)]) == [];
    FineDropBinding(w, m);
    var s2 := Sys(w.(store := w.store - {BINDING_KEY}), ClearFinalizer(m));
    assert Drive(s2, []) == Drive(Tock(s2, Head([])), []);
  }

  lemma RoleInComplete(store: map<Key, Object>, d: Desired)
    requires NothingMissing(store, d)
    ensures ROLE_KEY in store && BINDING_KEY in store
  {
    var i := if d.spec.hostPathDir != "" then 2 else 3;
    assert Plan(d)[i] == LaterSteps(d)[1] && Plan(d)[i + 1] == LaterSteps(d)[2];
    assert !Missing(store, Plan(d)[i]) && !Missing(store, Plan(d)[i + 1]);
  }

  predicate Rbac(kind: Kind) {
    kind.ClusterRole? || kind.ClusterRoleBinding? || kind.Role? || kind.RoleBinding?
  }

  lemma RbacPolicy(d: Desired, i: nat)
    requires i < |Plan(d)|
    ensures Plan(d)[i].policy.IfAnyError? <==> Rbac(Plan(d)[i].make.kind)
  {
  }

  /** A failed Get in the create phase, where nothing else is missing. The four RBAC kinds are created on any error: that
      fails if the object exists and repairs the cluster if not. All other kinds are passed over: the reconcile succeeds
      without noticing whether the object exists. */
  lemma ReadErrorInCreatePhase(w: World, i: nat)
    requires Live(w) && HasOurs(w.cr) && i < |Plan(w.cr.value.desired)|
    requires forall j :: 0 <= j < |Plan(w.cr.value.desired)| && j != i ==> !Missing(w.store, Plan(w.cr.value.desired)[j])
    ensures var step := Plan(w.cr.value.desired)[i];
            var r := Reconcile(w, Calm(1 + i) + [Tick([], ReadError)]);
            if !Rbac(step.make.kind) then r == Sys(w, Idle(Requeue))
            else if step.lookup in w.store then r == Sys(w, Idle(Error))
            else r == Sys(w.(store := w.store[step.lookup := step.make]), Idle(Requeue))
  {
    var m := w.cr.value;
    var plan := Plan(m.desired);
    var ticks := Calm(1 + i) + [Tick([], ReadError)];
    var tail := Calm(i) + [Tick([], ReadError)];
    assert ticks[0] == Tick([], Fine) && Tail(ticks) == tail;
    assert Tock(Sys(w, Idle(Done)), Tick([], Fine)) == Sys(w, Advance(m, plan));
    SilentSteps(w, m, plan, i, tail);
    assert tail[i..] == [Tick([], ReadError)] && plan[i..][1..] == plan[i + 1..];
    RbacPolicy(m.desired, i);
    KeysAgree(m.desired, i);
    PlanAscending(m.desired);
    ReadErrorAt(w, m, plan, i);
  }

  lemma ReadErrorAt(w: World, m: Nfs, plan: seq<Step>, i: nat)
    requires w.cr == Some(m) && !m.marked && HasOurs(w.cr) && Ascending(plan)
    requires i < |plan| && (plan[i].policy.IfAnyError? ==> Own(plan[i]))
    requires forall j :: 0 <= j < |plan| && j != i ==> !Missing(w.store, plan[j])
    ensures var step := plan[i];
            var r := Drive(Sys(w, Look(m, step, plan[i + 1..])), [Tick([], ReadError)]);
            if !step.policy.IfAnyError? then r == Sys(w, Idle(Requeue))
            else if step.lookup in w.store then r == Sys(w, Idle(Error))
            else r == Sys(w.(store := w.store[step.lookup := step.make]), Idle(Requeue))
  {
    var step := plan[i];
    var s := Sys(w, Look(m, step, plan[i + 1..]));
    assert Tail([Tick([], ReadError)]) == [];
    var s1 := Tock(s, Tick([], ReadError));
    if !step.policy.IfAnyError? {
      assert s1 == Sys(w, Advance(m, plan[i + 1..]));
      SilentEnd(w, m, plan[i + 1..]);
    } else {
      assert s1 == Sys(w, Make(m, step, plan[i + 1..]));
      var s2 := Tock(s1, Head([]));
      assert Drive(s1, []) == Drive(s2, []);
      if step.lookup !in w.store {
        SilentEnd(s2.w, m, plan[i + 1..]);
      }
    }
  }

  // ---------------------------------------------------------------- a missing claim blocks everything behind it

  ghost predicate BlockedAt(s: Sys, w: World) {
    && s.w.cr == w.cr && ValidCr(w) && ClaimStuck(w.cr.value.desired, s.w.store)
    && (var d := w.cr.value.desired;
        || s.pc == Idle(Error)
        || s.pc == Look(w.cr.value, SccStep(d), [PvcStep(d)] + LaterSteps(d))
        || s.pc == Make(w.cr.value, SccStep(d), [PvcStep(d)] + LaterSteps(d))
        || s.pc == Look(w.cr.value, PvcStep(d), LaterSteps(d))
        || s.pc == Make(w.cr.value, PvcStep(d), LaterSteps(d)))
  }

  lemma AdvanceToClaim(m: Nfs)
    ensures Advance(m, [PvcStep(m.desired)] + LaterSteps(m.desired)) == Look(m, PvcStep(m.desired), LaterSteps(m.desired))
  {
  }

  lemma {:induction false} BlockedDrive(s: Sys, w: World, ticks: seq<Tick>)
    requires BlockedAt(s, w) && Quiet(ticks) && ReadsTrue(ticks)
    ensures BlockedAt(Drive(s, ticks), w)
    decreases Rank(s.pc)
  {
    if !s.pc.Idle? {
      assert Head(ticks).env == [] && !Head(ticks).fault.ReadError?;
      AdvanceToClaim(w.cr.value);
      BlockedDrive(Tock(s, Head(ticks)), w, Tail(ticks));
    }
  }

  lemma PlanWithClaim(d: Desired)
    requires d.spec.hostPathDir == ""
    ensures Plan(d)[0] == SccStep(d) && Plan(d)[1..] == [PvcStep(d)] + LaterSteps(d)
  {
  }

  /** Every reconcile then fails at the claim, live or marked, and leaves the resource as it is. */
  lemma BlockedReconcile(w: World, ticks: seq<Tick>)
    requires ValidCr(w) && ClaimStuck(w.cr.value.desired, w.store) && Quiet(ticks) && ReadsTrue(ticks)
    ensures Reconcile(w, ticks).pc == Idle(Error)
    ensures Reconcile(w, ticks).w.cr == w.cr && ClaimStuck(w.cr.value.desired, Reconcile(w, ticks).w.store)
  {
    assert Head(ticks).env == [] && !Head(ticks).fault.ReadError?;
    PlanWithClaim(w.cr.value.desired);
    BlockedDrive(Tock(Sys(w, Idle(Done)), Head(ticks)), w, Tail(ticks));
  }

  lemma {:induction false} BlockedForever(w: World, tapes: seq<seq<Tick>>)
    requires ValidCr(w) && ClaimStuck(w.cr.value.desired, w.store) && QuietAll(tapes) && ReadsTrueAll(tapes)
    ensures ReconcileAll(w, tapes).cr == w.cr
    decreases |tapes|
  {
    if tapes != [] {
      BlockedReconcile(w, tapes[0]);
      BlockedForever(Reconcile(w, tapes[0]).w, tapes[1..]);
    }
  }

  // ---------------------------------------------------------------- deletion progress

  predicate Cleaned(w: World) {
    !HasOurs(w.cr) && BothAbsent(w.store)
  }

  predicate PoliteTick(s: Sys, t: Tick) {
    (forall a :: a in t.env ==> PermittedAction(a)) && Permitted(s, Call(t.fault))
  }

  predicate PoliteDrive(s: Sys, ticks: seq<Tick>)
    decreases Rank(s.pc)
  {
    s.pc.Idle? || (PoliteTick(s, Head(ticks)) && PoliteDrive(Tock(s, Head(ticks)), Tail(ticks)))
  }

  /** Within this reconcile other clients keep to what finalizer safety permits, and the cleanup's Gets do not fail. */
  predicate Polite(w: World, ticks: seq<Tick>) {
    var s := Sys(w, Idle(Done));
    PoliteTick(s, Head(ticks)) && PoliteDrive(Tock(s, Head(ticks)), Tail(ticks))
  }

  lemma {:induction false} QuietIsPolite(s: Sys, ticks: seq<Tick>)
    requires Quiet(ticks) && ReadsTrue(ticks)
    ensures PoliteDrive(s, ticks)
    decreases Rank(s.pc)
  {
    if !s.pc.Idle? {
      assert Head(ticks).env == [] && !Head(ticks).fault.ReadError?;
      QuietIsPolite(Tock(s, Head(ticks)), Tail(ticks));
    }
  }

  lemma {:induction false} InterferenceKeepsInv(s: Sys, env: seq<Action>)
    requires Inv(s) && forall a :: a in env ==> PermittedAction(a)
    ensures Inv(s.(w := ApplyAll(s.w, env)))
    ensures HasOurs(s.w.cr) ==> HasOurs(ApplyAll(s.w, env).cr)
    decreases |env|
  {
    if env != [] {
      EnvKeepsInv(s, env[0]);
      InterferenceKeepsInv(s.(w := Apply(s.w, env[0])), env[1..]);
    }
  }

  /** Within one reconcile, whatever others do between its calls, the finalizer leaves only after the cleanup. */
  lemma {:induction false} SafeDrive(s: Sys, ticks: seq<Tick>)
    requires Inv(s) && PoliteDrive(s, ticks)
    ensures Inv(Drive(s, ticks))
    ensures HasOurs(s.w.cr) && !HasOurs(Drive(s, ticks).w.cr) ==> BothAbsent(Drive(s, ticks).w.store)
    decreases Rank(s.pc)
  {
    if !s.pc.Idle? {
      SafeTock(s, Head(ticks));
      SafeDrive(Tock(s, Head(ticks)), Tail(ticks));
    }
  }

  lemma SafeTock(s: Sys, t: Tick)
    requires Inv(s) && PoliteTick(s, t)
    ensures Inv(Tock(s, t))
    ensures HasOurs(s.w.cr) && !HasOurs(Tock(s, t).w.cr) ==> Tock(s, t).pc.Idle? && BothAbsent(Tock(s, t).w.store)
  {
    InterferenceKeepsInv(s, t.env);
    var s' := s.(w := ApplyAll(s.w, t.env));
    CallKeepsInv(s', t.fault);
    if HasOurs(s.w.cr) && !HasOurs(Tock(s, t).w.cr) {
      ClearedIsIdle(s', t.fault);
    }
  }

  lemma ClearedIsIdle(s: Sys, f: Fault)
    requires Inv(s) && HasOurs(s.w.cr) && !HasOurs(Next(s, f).w.cr)
    ensures Next(s, f).pc.Idle? && BothAbsent(Next(s, f).w.store)
  {
    if !s.pc.ClearFinalizer? {
      CrFrame(s, f);
    }
  }

  /** Finalizer safety of one whole reconcile, as the code of `NfsReconciler` runs it. */
  lemma SafeReconcile(w: World, ticks: seq<Tick>)
    requires Dated(w) && Polite(w, ticks)
    ensures Dated(Reconcile(w, ticks).w)
    ensures HasOurs(w.cr) && !HasOurs(Reconcile(w, ticks).w.cr) ==> Cleaned(Reconcile(w, ticks).w)
  {
    SafeTock(Sys(w, Idle(Done)), Head(ticks));
    SafeDrive(Tock(Sys(w, Idle(Done)), Head(ticks)), Tail(ticks));
  }

  /** One reconcile of a marked resource either finishes the deletion or leaves it as possible as before. */
  lemma DeletionStep(w: World, ticks: seq<Tick>)
    requires Doomed(w) && Dated(w) && ClaimReady(w.cr.value.desired, w.store) && Quiet(ticks) && ReadsTrue(ticks)
    ensures var w1 := Reconcile(w, ticks).w;
            Cleaned(w1) || (Doomed(w1) && Dated(w1) && ClaimReady(w1.cr.value.desired, w1.store))
    ensures FaultCount(ticks) == 0 ==> Cleaned(Reconcile(w, ticks).w)
  {
    ReconcileFrame(w, ticks);
    assert Head(ticks).env == [] && !Head(ticks).fault.ReadError?;
    QuietIsPolite(Tock(Sys(w, Idle(Done)), Head(ticks)), Tail(ticks));
    SafeReconcile(w, ticks);
    ClaimUntouched(w, Reconcile(w, ticks).w, w.cr.value.desired, true);
    if FaultCount(ticks) == 0 {
      FineReconcile(w, ticks);
      FineDoomed(w);
    }
  }

  /** With at most |tapes| - 1 failed writes, one of the reconciles ends with the finalizer and both cluster objects gone. */
  lemma {:induction false} DeletionProgress(w: World, tapes: seq<seq<Tick>>) returns (j: nat)
    requires Doomed(w) && Dated(w) && ClaimReady(w.cr.value.desired, w.store)
    requires QuietAll(tapes) && ReadsTrueAll(tapes) && TotalFaults(tapes) < |tapes|
    ensures j <= |tapes| && Cleaned(ReconcileAll(w, tapes[..j]))
    decreases |tapes|
  {
    var w1 := Reconcile(w, tapes[0]).w;
    DeletionStep(w, tapes[0]);
    if Cleaned(w1) {
      j := 1;
      assert tapes[..1][1..] == [];
      assert ReconcileAll(w, tapes[..1]) == ReconcileAll(w1, []);
    } else {
      var k := DeletionProgress(w1, tapes[1..]);
      j := k + 1;
      assert tapes[..j][1..] == tapes[1..][..k];
    }
  }

  /** k+1 reconciles with at most k failed writes. */
  predicate Budget(tapes: seq<seq<Tick>>, k: nat) {
    |tapes| == k + 1 && TotalFaults(tapes) <= k && QuietAll(tapes) && ReadsTrueAll(tapes)
  }

  predicate Reaches(w: World, tapes: seq<seq<Tick>>) {
    exists j :: 0 <= j <= |tapes| && Cleaned(ReconcileAll(w, tapes[..j]))
  }

  /** Deletion progress, exactly: the deletion of a marked resource is certain to get through whatever the k failures
      are, if and only if its spec is accepted, and the claim is ready, or there are no failures and the default claim is
      not in the way. */
  lemma DeletionProgressExact(w: World, k: nat)
    requires Held(w) && Dated(w)
    ensures (forall tapes: seq<seq<Tick>> :: Budget(tapes, k) ==> Reaches(w, tapes)) <==>
            ValidCr(w) &&
            (ClaimReady(w.cr.value.desired, w.store) || (k == 0 && DefaultClaimKey(w.cr.value.desired) !in w.store))
  {
    var d := w.cr.value.desired;
    if ValidCr(w) && ClaimReady(d, w.store) {
      forall tapes: seq<seq<Tick>> | Budget(tapes, k)
        ensures Reaches(w, tapes)
      {
        var j := DeletionProgress(w, tapes);
      }
    } else if ValidCr(w) && k == 0 && DefaultClaimKey(d) !in w.store {
      forall tapes: seq<seq<Tick>> | Budget(tapes, k)
        ensures Reaches(w, tapes)
      {
        FineReconcile(w, tapes[0]);
        FineDoomed(w);
        assert tapes[..1][1..] == [];
        assert ReconcileAll(w, tapes[..1]) == ReconcileAll(Reconcile(w, tapes[0]).w, []);
      }
    } else {
      var tapes := UnluckyTapes(w, k);
    }
  }

  /** A marked resource with a rejected spec is never released, however many reconciles follow and whatever happens to
      their calls, failed Gets included. */
  lemma RejectedNeverReleased(w: World, tapes: seq<seq<Tick>>)
    requires Held(w) && !ValidCr(w) && QuietAll(tapes)
    ensures Held(ReconcileAll(w, tapes)) && !Reaches(w, tapes)
  {
    RejectedForever(w, tapes);
    forall j | 0 <= j <= |tapes|
      ensures !Cleaned(ReconcileAll(w, tapes[..j]))
    {
      RejectedForever(w, tapes[..j]);
    }
  }

  /** A schedule that deletion does not survive. With a rejected spec any will do; otherwise the first reconcile creates
      the default claim and loses the reply, unless the claim is there already, and all later ones are blocked. */
  lemma UnluckyTapes(w: World, k: nat) returns (tapes: seq<seq<Tick>>)
    requires Held(w)
    requires ValidCr(w) ==>
               !ClaimReady(w.cr.value.desired, w.store) && (k > 0 || DefaultClaimKey(w.cr.value.desired) in w.store)
    ensures Budget(tapes, k) && !Reaches(w, tapes)
  {
    if ValidCr(w) {
      tapes := BlockingTapes(w, k);
    } else {
      tapes := NoTicks(k + 1);
      EmptyTapes(k + 1);
      RejectedNeverReleased(w, tapes);
    }
  }

  lemma BlockingTapes(w: World, k: nat) returns (tapes: seq<seq<Tick>>)
    requires Doomed(w) && !ClaimReady(w.cr.value.desired, w.store)
    requires k > 0 || DefaultClaimKey(w.cr.value.desired) in w.store
    ensures Budget(tapes, k) && !Reaches(w, tapes)
  {
    var d := w.cr.value.desired;
    var first: seq<Tick> := if DefaultClaimKey(d) in w.store then [] else LoseClaim(w);
    tapes := [first] + NoTicks(k);
    EmptyTapes(k);
    assert tapes[1..] == NoTicks(k);
    var w1 := Reconcile(w, first).w;
    if DefaultClaimKey(d) in w.store {
      BlockedReconcile(w, first);
    } else {
      LoseClaimEffect(w);
    }
    forall j | 0 <= j <= |tapes|
      ensures !Cleaned(ReconcileAll(w, tapes[..j]))
    {
      if j > 0 {
        assert tapes[..j][1..] == tapes[1..][..j - 1];
        BlockedForever(w1, tapes[1..][..j - 1]);
      }
    }
  }

  /** k reconciles in which nothing goes wrong. */
  function NoTicks(k: nat): seq<seq<Tick>> {
    seq(k, _ => [])
  }

  lemma {:induction false} EmptyTapes(k: nat)
    ensures TotalFaults(NoTicks(k)) == 0
  {
    if k > 0 {
      assert NoTicks(k)[1..] == NoTicks(k - 1);
      EmptyTapes(k - 1);
    }
  }

  /** `n` calls go well, the next one is a write whose reply is lost. */
  function LoseAfter(n: nat): (ticks: seq<Tick>)
    ensures Quiet(ticks) && ReadsTrue(ticks) && FaultCount(ticks) == 1
  {
    if n == 0 then
      assert FaultCount([Tick([], WriteLost)]) == 1 + FaultCount([]);
      [Tick([], WriteLost)]
    else [Tick([], Fine)] + LoseAfter(n - 1)
  }

  lemma LoseAfterTail(n: nat)
    requires n > 0
    ensures Head(LoseAfter(n)) == Tick([], Fine) && Tail(LoseAfter(n)) == LoseAfter(n - 1)
  {
  }

  /** The Create of the default claim is the fourth call of the reconcile, or the fifth. */
  function LoseClaim(w: World): seq<Tick> {
    LoseAfter(if Key(SecurityContextConstraints, "", SCC_NAME) in w.store then 3 else 4)
  }

  lemma LoseClaimEffect(w: World)
    requires ValidCr(w) && !ClaimReady(w.cr.value.desired, w.store) && DefaultClaimKey(w.cr.value.desired) !in w.store
    ensures Reconcile(w, LoseClaim(w)).w.cr == w.cr
    ensures ClaimStuck(w.cr.value.desired, Reconcile(w, LoseClaim(w)).w.store)
  {
    var m := w.cr.value;
    var d := m.desired;
    var n := if Key(SecurityContextConstraints, "", SCC_NAME) in w.store then 3 else 4;
    PlanWithClaim(d);
    AdvanceToClaim(m);
    LoseAfterTail(n);
    var s1 := Sys(w, Look(m, SccStep(d), [PvcStep(d)] + LaterSteps(d)));
    assert Tock(Sys(w, Idle(Done)), Tick([], Fine)) == s1;
    assert Reconcile(w, LoseClaim(w)) == Drive(s1, LoseAfter(n - 1));
    LoseClaimFromScc(s1, m, n - 1);
  }

  lemma LoseClaimFromScc(s: Sys, m: Nfs, n: nat)
    requires s.pc == Look(m, SccStep(m.desired), [PvcStep(m.desired)] + LaterSteps(m.desired))
    requires n == if Key(SecurityContextConstraints, "", SCC_NAME) in s.w.store then 2 else 3
    requires ClaimKey(m.desired) !in s.w.store && DefaultClaimKey(m.desired) !in s.w.store
    requires ClaimKey(m.desired) != DefaultClaimKey(m.desired) && m.desired.spec.hostPathDir == ""
    ensures Drive(s, LoseAfter(n)).w.cr == s.w.cr && ClaimStuck(m.desired, Drive(s, LoseAfter(n)).w.store)
  {
    AdvanceToClaim(m);
    LoseAfterTail(n);
    LoseAfterTail(n - 1);
    var s1 := Next(s, Fine);
    assert Tock(s, Tick([], Fine)) == s1;
    if n == 2 {
      LoseClaimAt(s1, m);
    } else {
      var s2 := Next(s1, Fine);
      assert Tock(s1, Tick([], Fine)) == s2;
      LoseClaimAt(s2, m);
    }
  }

  lemma LoseClaimAt(s: Sys, m: Nfs)
    requires s.pc == Look(m, PvcStep(m.desired), LaterSteps(m.desired))
    requires ClaimKey(m.desired) !in s.w.store && DefaultClaimKey(m.desired) !in s.w.store
    requires ClaimKey(m.desired) != DefaultClaimKey(m.desired) && m.desired.spec.hostPathDir == ""
    ensures Drive(s, LoseAfter(1)).w.cr == s.w.cr && ClaimStuck(m.desired, Drive(s, LoseAfter(1)).w.store)
  {
    LoseAfterTail(1);
    var s1 := Sys(s.w, Make(m, PvcStep(m.desired), LaterSteps(m.desired)));
    assert Tock(s, Tick([], Fine)) == s1;
    var s2 := Tock(s1, Tick([], WriteLost));
    assert s2.pc == Idle(Error);
    assert Drive(s, LoseAfter(1)) == Drive(s1, LoseAfter(0)) == Drive(s2, []) == s2;
  }

  /** The first faultless reconcile of a marked resource cleans up unless it is stuck at the claim. The cluster objects
      then stay away under a further one exactly when ours was the only finalizer, or the first has itself made the
      claim stuck: a resource kept alive by a foreign finalizer runs the create phase again. */
  lemma StaysCleanExact(w: World)
    requires Doomed(w)
    ensures var w1 := Reconcile(w, []).w;
            var d := w.cr.value.desired;
            (Cleaned(w1) <==> !ClaimStuck(d, w.store)) &&
            (Cleaned(w1) ==>
               (Cleaned(Reconcile(w1, []).w) <==>
                  (forall x :: x in w.cr.value.finalizers ==> x == FINALIZER) || !ClaimReady(d, w.store)))
  {
    var m := w.cr.value;
    if ClaimStuck(m.desired, w.store) {
      FineBlocked(w);
    } else {
      FineDoomed(w);
      var w1 := Reconcile(w, []).w;
      var left := Without(m.finalizers, FINALIZER);
      if left == [] {
        assert Reconcile(w1, []) == Tock(Sys(w1, Idle(Done)), Head([]));
      } else {
        assert left[0] in m.finalizers && left[0] != FINALIZER;
        ReconcileFrame(w, []);
        ClaimUntouched(w, w1, m.desired, true);
        if !ClaimReady(m.desired, w.store) {
          DefaultClaimMade(w);
        }
        CreatesRoleAgain(w1);
      }
    }
  }

  /** A create phase that misses the user's claim leaves the default claim behind. */
  lemma DefaultClaimMade(w: World)
    requires ValidCr(w) && !ClaimReady(w.cr.value.desired, w.store) && !ClaimStuck(w.cr.value.desired, w.store)
    ensures DefaultClaimKey(w.cr.value.desired) in Filled(w).store
  {
    var d := w.cr.value.desired;
    StuckOnlyAtClaim(d, w.store);
    PlanAscending(d);
    FillEffect(w.store, Plan(d));
    assert Missing(w.store, Plan(d)[1]);
  }

  /** A marked resource that does not carry our finalizer gets the ClusterRole all the same, unless it is stuck at the
      claim. */
  lemma CreatesRoleAgain(w: World)
    requires ValidCr(w) && w.cr.value.marked && !HasOurs(w.cr)
    ensures Reconcile(w, []).w.cr == w.cr
    ensures ROLE_KEY in Reconcile(w, []).w.store <==> ROLE_KEY in w.store || !ClaimStuck(w.cr.value.desired, w.store)
    ensures BINDING_KEY in Reconcile(w, []).w.store <==> BINDING_KEY in w.store || !ClaimStuck(w.cr.value.desired, w.store)
  {
    var d := w.cr.value.desired;
    if ClaimStuck(d, w.store) {
      FineBlocked(w);
    } else {
      FineCreatePhase(w);
      FilledHasRole(w.store, d);
    }
  }

  lemma FilledHasRole(store: map<Key, Object>, d: Desired)
    requires !ClaimStuck(d, store)
    ensures ROLE_KEY in Fill(store, Plan(d)) && BINDING_KEY in Fill(store, Plan(d))
  {
    StuckOnlyAtClaim(d, store);
    PlanAscending(d);
    var i := if d.spec.hostPathDir != "" then 2 else 3;
    FillHas(store, Plan(d), i);
    FillHas(store, Plan(d), i + 1);
    assert Plan(d)[i] == LaterSteps(d)[1] && Plan(d)[i + 1] == LaterSteps(d)[2];
  }

  lemma FillHas(store: map<Key, Object>, todo: seq<Step>, i: nat)
    requires Ascending(todo) && forall j :: 0 <= j < |todo| ==> !Stuck(store, todo[j])
    requires i < |todo| && !todo[i].policy.LookOnly?
    ensures todo[i].lookup == StoredAt(todo[i].make) ==> todo[i].lookup in Fill(store, todo)
  {
    FillEffect(store, todo);
  }

  // ---------------------------------------------------------------- idempotence

  /** How many writes the rest of a reconcile without faults attempts. */
  function WriteCalls(s: Sys): nat
    decreases Rank(s.pc)
  {
    if s.pc.Idle? then 0 else (if Writing(s.pc) then 1 else 0) + WriteCalls(Next(s, Fine))
  }

  lemma {:induction false} FillNothing(store: map<Key, Object>, todo: seq<Step>)
    requires forall i :: 0 <= i < |todo| ==> !Missing(store, todo[i])
    ensures Fill(store, todo) == store
    decreases |todo|
  {
    if todo != [] {
      assert !Missing(store, todo[0]);
      forall i | 0 <= i < |todo[1..]|
        ensures !Missing(store, todo[1..][i])
      {
        assert todo[1..][i] == todo[i + 1];
      }
      FillNothing(store, todo[1..]);
    }
  }

  lemma {:induction false} NoWrites(w: World, m: Nfs, todo: seq<Step>)
    requires forall i :: 0 <= i < |todo| ==> !Missing(w.store, todo[i])
    requires AfterCreate(m).Idle?
    ensures WriteCalls(Sys(w, Advance(m, todo))) == 0
    decreases |todo|
  {
    if todo != [] {
      assert !Missing(w.store, todo[0]);
      forall i | 0 <= i < |todo[1..]|
        ensures !Missing(w.store, todo[1..][i])
      {
        assert todo[1..][i] == todo[i + 1];
      }
      NoWrites(w, m, todo[1..]);
    }
  }

  /** A reconcile that ends at the claim has only made sure of the security context constraints. */
  lemma FineBlocked(w: World)
    requires ValidCr(w) && ClaimStuck(w.cr.value.desired, w.store)
    ensures var scc := SccStep(w.cr.value.desired);
            Reconcile(w, []) ==
              Sys(w.(store := if Missing(w.store, scc) then w.store[StoredAt(scc.make) := scc.make] else w.store), Idle(Error))
    ensures WriteCalls(Next(Sys(w, Idle(Done)), Fine)) > 0
  {
    var m := w.cr.value;
    var d := m.desired;
    PlanWithClaim(d);
    AdvanceToClaim(m);
    var s1 := Tock(Sys(w, Idle(Done)), Head([]));
    assert s1 == Next(Sys(w, Idle(Done)), Fine) == Sys(w, Look(m, SccStep(d), [PvcStep(d)] + LaterSteps(d)));
    var w' := if Missing(w.store, SccStep(d)) then Create(w, SccFor(d), Fine).0 else w;
    var s2 := Sys(w', Look(m, PvcStep(d), LaterSteps(d)));
    if Missing(w.store, SccStep(d)) {
      assert Drive(s1, []) == Drive(Sys(w, Make(m, SccStep(d), [PvcStep(d)] + LaterSteps(d))), []) == Drive(s2, []);
    } else {
      assert Drive(s1, []) == Drive(s2, []);
    }
    BlockedEnd(s2, m);
    assert WriteCalls(s1) >= WriteCalls(s2);
  }

  lemma BlockedEnd(s: Sys, m: Nfs)
    requires s.pc == Look(m, PvcStep(m.desired), LaterSteps(m.desired)) && ClaimStuck(m.desired, s.w.store)
    ensures Drive(s, []) == Sys(s.w, Idle(Error)) && WriteCalls(s) > 0
  {
    var s1 := Sys(s.w, Make(m, PvcStep(m.desired), LaterSteps(m.desired)));
    assert Next(s, Fine) == s1 && Next(s1, Fine) == Sys(s.w, Idle(Error));
    assert Drive(s, []) == Drive(s1, []) == Drive(Sys(s.w, Idle(Error)), []);
  }

  /** Idempotence: a second faultless reconcile of a live resource never changes anything. It makes no write call, and
      asks to be requeued, exactly when the resource's claim was ready before the first; otherwise it fails at the claim. */
  lemma Idempotent(w: World)
    requires Live(w)
    ensures var w1 := Reconcile(w, []).w;
            var ready := ClaimReady(w.cr.value.desired, w.store);
            Reconcile(w1, []) == Sys(w1, Idle(if ready then Requeue else Error)) &&
            (WriteCalls(Next(Sys(w1, Idle(Done)), Fine)) == 0 <==> ready)
  {
    var d := w.cr.value.desired;
    var w1 := Reconcile(w, []).w;
    if ClaimReady(d, w.store) {
      FineLiveCompletes(w);
      ReconcileFrame(w, []);
      ClaimUntouched(w, w1, d, false);
      FineLive(w1);
      FillNothing(w1.store, Plan(d));
      NoWrites(w1, w1.cr.value, Plan(d));
    } else if ClaimStuck(d, w.store) {
      FineBlocked(w);
      FineBlocked(w1);
    } else {
      FineLive(w);
      StuckOnlyAtClaim(d, w.store);
      PlanAscending(d);
      FillEffect(w.store, Plan(d));
      ReconcileFrame(w, []);
      ClaimUntouched(w, w1, d, false);
      assert Missing(w.store, Plan(d)[1]) && !Missing(w1.store, Plan(d)[0]);
      FineBlocked(w1);
    }
  }
}
