/** What every run of the NFSProvisioner controller keeps: the finalizer leaves only after the cleanup,
    and the controller's calls touch nothing but what they own. */
module NfsSafety {
  import opened Prelude
  import opened NfsTypes
  import opened NfsCluster
  import opened NfsController

  predicate HasOurs(cr: Option<Nfs>) {
    cr.Some? && FINALIZER in cr.value.finalizers
  }

  predicate Cleaning(pc: Pc) {
    pc.LookRole? || pc.DropRole? || pc.LookBinding? || pc.DropBinding? || pc.ClearFinalizer?
  }

  predicate BothAbsent(store: map<Key, Object>) {
    ROLE_KEY !in store && BINDING_KEY !in store
  }

  /** Resource versions are never reused. */
  predicate Dated(w: World) {
    w.cr.Some? ==> w.cr.value.rv <= w.clock
  }

  /** The controller's copy is the stored resource unless the resource has changed version since. */
  predicate Fresh(w: World, m: Nfs) {
    m.rv <= w.clock && (Current(w, m) ==> w.cr.value == m)
  }

  /** What holds in every run, whatever others do and whatever fails: where the controller stands fits its copy of the
      resource. */
  ghost predicate Framed(s: Sys) {
    && Dated(s.w)
    && (!s.pc.Idle? ==> Fresh(s.w, s.pc.m))
    && (!s.pc.Idle? ==> (s.pc.WriteStatus? <==> !Valid(s.pc.m.desired.spec)))
    && (s.pc.StoreFinalizer? ==> !s.pc.m.marked && FINALIZER !in s.pc.m.finalizers)
    && (Cleaning(s.pc) ==> s.pc.m.marked && HasOurs(Some(s.pc.m)))
    && (s.pc.Look? || s.pc.Make? ==> Planned(s.pc.m, [s.pc.step] + s.pc.rest))
  }

  /** What holds as long as nobody else takes our finalizer off: a marked resource stays until the controller clears it. */
  predicate Retained(s: Sys) {
    !s.pc.Idle? && s.pc.m.marked && HasOurs(Some(s.pc.m)) ==> HasOurs(s.w.cr) && s.w.cr.value.marked
  }

  /** The cluster objects already dealt with are absent. */
  predicate CleanedSoFar(s: Sys) {
    && (s.pc.LookBinding? || s.pc.DropBinding? || s.pc.ClearFinalizer? ==> ROLE_KEY !in s.w.store)
    && (s.pc.ClearFinalizer? ==> BINDING_KEY !in s.w.store)
  }

  ghost predicate Inv(s: Sys) {
    Framed(s) && Retained(s) && CleanedSoFar(s)
  }

  /** The steps come from the plan of the resource as this reconcile read it. */
  predicate Planned(m: Nfs, todo: seq<Step>) {
    forall step :: step in todo ==> step in Plan(m.desired)
  }

  /** Other clients may do anything except take our finalizer off or create the two cluster objects;
      calls may fail in any way except that the two Gets of the cleanup tell the truth. */
  predicate Permitted(s: Sys, l: Label) {
    match l
    case Env(a) => PermittedAction(a)
    case Call(f) => f.ReadError? ==> !s.pc.LookRole? && !s.pc.LookBinding?
  }

  predicate PermittedAction(a: Action) {
    match a
    case DropFinalizer(x) => x != FINALIZER
    case PutObject(k, _) => k != ROLE_KEY && k != BINDING_KEY
    case _ => true
  }

  predicate PermittedRun(s: Sys, run: seq<Label>)
    decreases |run|
  {
    run == [] || (Permitted(s, run[0]) && PermittedRun(Do(s, run[0]), run[1..]))
  }

  /** Any state of the cluster in which no reconcile is under way. */
  predicate Start(s: Sys) {
    s.pc.Idle? && Dated(s.w)
  }

  // ---------------------------------------------------------------- the three parts of the invariant

  lemma EnvKeepsFramed(s: Sys, a: Action)
    requires Framed(s)
    ensures Framed(Do(s, Env(a)))
  {
  }

  /** Moving on within the create phase, or out of it. */
  lemma AdvanceFramed(w: World, m: Nfs, todo: seq<Step>)
    requires Dated(w) && Fresh(w, m) && Planned(m, todo) && Valid(m.desired.spec)
    ensures Framed(Sys(w, Advance(m, todo)))
  {
    if todo != [] {
      assert [todo[0]] + todo[1..] == todo;
    }
  }

  lemma BeginFramed(w: World, m: Nfs)
    requires Dated(w) && Fresh(w, m)
    ensures Framed(Sys(w, Begin(m)))
  {
    if Valid(m.desired.spec) {
      AdvanceFramed(w, m, Plan(m.desired));
    }
  }

  lemma CreatePhaseFramed(s: Sys, f: Fault)
    requires Framed(s) && (s.pc.Look? || s.pc.Make?)
    ensures Framed(Next(s, f))
  {
    AdvanceFramed(Next(s, f).w, s.pc.m, s.pc.rest);
  }

  /** The calls that write the resource. */
  lemma UpdateFramed(s: Sys, f: Fault)
    requires Framed(s) && (s.pc.WriteStatus? || s.pc.StoreFinalizer? || s.pc.ClearFinalizer?)
    ensures Framed(Next(s, f))
  {
  }

  lemma CleanupFramed(s: Sys, f: Fault)
    requires Framed(s) && (s.pc.LookRole? || s.pc.DropRole? || s.pc.LookBinding? || s.pc.DropBinding?)
    ensures Framed(Next(s, f))
  {
  }

  lemma CallKeepsFramed(s: Sys, f: Fault)
    requires Framed(s)
    ensures Framed(Next(s, f))
  {
    if s.pc.Idle? {
      if s.w.cr.Some? {
        BeginFramed(s.w, s.w.cr.value);
      }
    } else if s.pc.Look? || s.pc.Make? {
      CreatePhaseFramed(s, f);
    } else if s.pc.WriteStatus? || s.pc.StoreFinalizer? || s.pc.ClearFinalizer? {
      UpdateFramed(s, f);
    } else {
      CleanupFramed(s, f);
    }
  }

  lemma StepKeepsFramed(s: Sys, l: Label)
    requires Framed(s)
    ensures Framed(Do(s, l))
  {
    match l
    case Env(a) => EnvKeepsFramed(s, a);
    case Call(f) => CallKeepsFramed(s, f);
  }

  lemma {:induction false} FramedAlways(s: Sys, run: seq<Label>)
    requires Framed(s)
    ensures Framed(Exec(s, run))
    decreases |run|
  {
    if run != [] {
      StepKeepsFramed(s, run[0]);
      FramedAlways(Do(s, run[0]), run[1..]);
    }
  }

  lemma StepRetains(s: Sys, l: Label)
    requires Framed(s) && Retained(s) && l != Env(DropFinalizer(FINALIZER))
    ensures Retained(Do(s, l))
    ensures l.Env? && HasOurs(s.w.cr) ==> HasOurs(Do(s, l).w.cr)
  {
  }

  /** Nobody but the controller takes our finalizer off. */
  predicate Untaken(run: seq<Label>) {
    Env(DropFinalizer(FINALIZER)) !in run
  }

  lemma {:induction false} RetainedAlways(s: Sys, run: seq<Label>)
    requires Framed(s) && Retained(s) && Untaken(run)
    ensures Framed(Exec(s, run)) && Retained(Exec(s, run))
    decreases |run|
  {
    if run != [] {
      StepKeepsFramed(s, run[0]);
      StepRetains(s, run[0]);
      RetainedAlways(Do(s, run[0]), run[1..]);
    }
  }

  lemma EnvKeepsInv(s: Sys, a: Action)
    requires Inv(s) && Permitted(s, Env(a))
    ensures Inv(Do(s, Env(a)))
    ensures HasOurs(s.w.cr) ==> HasOurs(Do(s, Env(a)).w.cr)
  {
    EnvKeepsFramed(s, a);
    StepRetains(s, Env(a));
  }

  lemma CallKeepsInv(s: Sys, f: Fault)
    requires Inv(s) && Permitted(s, Call(f))
    ensures Inv(Next(s, f))
  {
    CallKeepsFramed(s, f);
    StepRetains(s, Call(f));
  }

  lemma {:induction false} InvAlways(s: Sys, run: seq<Label>)
    requires Inv(s) && PermittedRun(s, run)
    ensures Inv(Exec(s, run))
    decreases |run|
  {
    if run != [] {
      match run[0] {
        case Env(a) => EnvKeepsInv(s, a);
        case Call(f) => CallKeepsInv(s, f);
      }
      InvAlways(Do(s, run[0]), run[1..]);
    }
  }

  /** Finalizer safety: at whatever point of whatever run our finalizer leaves the stored resource,
      or the resource leaves with it, the ClusterRole and the ClusterRoleBinding are gone. */
  lemma FinalizerSafety(start: Sys, run: seq<Label>, l: Label)
    requires Start(start) && PermittedRun(start, run) && Permitted(Exec(start, run), l)
    requires HasOurs(Exec(start, run).w.cr)
    ensures !HasOurs(Do(Exec(start, run), l).w.cr) ==> BothAbsent(Do(Exec(start, run), l).w.store)
  {
    InvAlways(start, run);
    if l.Env? {
      EnvKeepsInv(Exec(start, run), l.action);
    }
  }

  /** A Delete that fails in any way ends the reconcile with the resource untouched, over every run, failed Gets of the
      cleanup included; our finalizer is still on it as long as nobody else takes it off. */
  lemma FailedDeleteKeepsFinalizer(start: Sys, run: seq<Label>, f: Fault)
    requires Start(start)
    requires Exec(start, run).pc.DropRole? || Exec(start, run).pc.DropBinding?
    ensures var s, s' := Exec(start, run), Next(Exec(start, run), f);
            var key := if s.pc.DropRole? then ROLE_KEY else BINDING_KEY;
            (s'.pc == Idle(Error) <==> f.WriteRefused? || f.WriteLost? || key !in s.w.store) &&
            s'.w.cr == s.w.cr && (Untaken(run) ==> HasOurs(s'.w.cr))
  {
    FramedAlways(start, run);
    if Untaken(run) {
      RetainedAlways(start, run);
    }
  }

  /** What one API call of the controller can do to the stored resource. */
  ghost predicate CrEffect(cr: Option<Nfs>, cr': Option<Nfs>) {
    || cr' == cr
    || (cr.Some? && cr'.None? && cr.value.marked && Without(cr.value.finalizers, FINALIZER) == [])
    || (cr.Some? && cr'.Some? &&
        var m, m' := cr.value, cr'.value;
        m'.desired == m.desired && m'.marked == m.marked &&
        (|| (m'.status == m.status && !m.marked && FINALIZER !in m.finalizers && m'.finalizers == m.finalizers + [FINALIZER])
         || (m'.status == m.status && m.marked && FINALIZER in m.finalizers && m'.finalizers == Without(m.finalizers, FINALIZER))
         || (m'.finalizers == m.finalizers && !Valid(m.desired.spec) && m'.status == RejectedStatus(m.desired.spec))))
  }

  /** What one API call of the controller can do to the object store. */
  ghost predicate StoreEffect(s: Sys, s': Sys) {
    || s'.w.store == s.w.store
    || (s.pc.Make? && s.pc.step in Plan(s.pc.m.desired) && StoredAt(s.pc.step.make) !in s.w.store &&
        s'.w.store == s.w.store[StoredAt(s.pc.step.make) := s.pc.step.make])
    || ((s.pc.DropRole? || s.pc.DropBinding?) && s.pc.m.marked && HasOurs(Some(s.pc.m)) &&
        s'.w.store == s.w.store - {if s.pc.DropRole? then ROLE_KEY else BINDING_KEY})
  }

  lemma CrFrame(s: Sys, f: Fault)
    requires Framed(s)
    ensures CrEffect(s.w.cr, Next(s, f).w.cr)
  {
    if s.pc.WriteStatus? || s.pc.StoreFinalizer? || s.pc.ClearFinalizer? {
      if s.w.cr.Some? {
        assert Current(s.w, s.pc.m) ==> s.w.cr.value == s.pc.m;
      }
    } else {
      assert Next(s, f).w.cr == s.w.cr;
    }
  }

  lemma StoreFrame(s: Sys, f: Fault)
    requires Framed(s)
    ensures StoreEffect(s, Next(s, f))
  {
    if s.pc.Make? {
      assert s.pc.step in [s.pc.step] + s.pc.rest;
    }
  }

  /** Frame over runs: at any point of any run, whatever others do and whatever fails, a call of the controller never
      changes a stored object, never undoes a spec edit or a deletion mark made by others since its read, never touches a
      foreign finalizer, and deletes only a cluster object, for a resource it read as marked and holding our finalizer.
      As long as nobody else takes the finalizer off, the stored resource is then marked and holds it too. */
  lemma FrameOverRuns(start: Sys, run: seq<Label>, f: Fault)
    requires Start(start)
    ensures var s := Exec(start, run);
            && CrEffect(s.w.cr, Next(s, f).w.cr)
            && StoreEffect(s, Next(s, f))
            && (Untaken(run) && Cleaning(s.pc) ==> HasOurs(s.w.cr) && s.w.cr.value.marked)
  {
    FramedAlways(start, run);
    CrFrame(Exec(start, run), f);
    StoreFrame(Exec(start, run), f);
    if Untaken(run) {
      RetainedAlways(start, run);
    }
  }

  // ---------------------------------------------------------------- how a call ends the reconcile

  /** The controller is about to Create, Update or Delete. */
  predicate Writing(pc: Pc) {
    pc.WriteStatus? || pc.Make? || pc.StoreFinalizer? || pc.DropRole? || pc.DropBinding? || pc.ClearFinalizer?
  }

  /** The write is refused, loses its reply, meets a taken or an absent key, or goes over a stale version. */
  predicate WriteFails(s: Sys, f: Fault) {
    || f.WriteRefused? || f.WriteLost?
    || (s.pc.Make? && StoredAt(s.pc.step.make) in s.w.store)
    || (s.pc.DropRole? && ROLE_KEY !in s.w.store)
    || (s.pc.DropBinding? && BINDING_KEY !in s.w.store)
    || ((s.pc.WriteStatus? || s.pc.StoreFinalizer? || s.pc.ClearFinalizer?) &&
        !(s.w.cr.Some? && s.w.cr.value.rv == s.pc.m.rv))
  }

  /** A reconcile reports an error exactly when a write fails, or its very first Get does; a write that fails changes
      nothing unless only its reply was lost. */
  lemma ErrorExact(s: Sys, f: Fault)
    ensures Next(s, f).pc == Idle(Error) <==> if Writing(s.pc) then WriteFails(s, f) else s.pc.Idle? && f.ReadError?
    ensures Writing(s.pc) && WriteFails(s, f) && !f.WriteLost? ==> Next(s, f).w == s.w
    ensures !Writing(s.pc) ==> Next(s, f).w == s.w
  {
  }

  /** How a reconcile ends without an error. Done: the resource is gone, its rejected spec has just been written to the
      status, or it is marked and, if read with our finalizer, has just lost it. Requeue: it is neither marked nor rejected
      and, if read without our finalizer, has just got it. */
  predicate EndsWell(s: Sys, s': Sys)
    requires s'.pc.Idle?
  {
    if s.pc.Idle? then s'.pc.last == Done && s.w.cr.None?
    else if !Valid(s.pc.m.desired.spec) then
      s'.pc.last == Done && (s'.w.cr.Some? ==> s'.w.cr.value.status == RejectedStatus(s'.w.cr.value.desired.spec))
    else if s.pc.m.marked then s'.pc.last == Done && (HasOurs(Some(s.pc.m)) ==> !HasOurs(s'.w.cr))
    else s'.pc.last == Requeue && (!HasOurs(Some(s.pc.m)) ==> HasOurs(s'.w.cr))
  }

  lemma SuccessExact(start: Sys, run: seq<Label>, f: Fault)
    requires Start(start)
    ensures var s, s' := Exec(start, run), Next(Exec(start, run), f);
            s'.pc.Idle? && s'.pc.last != Error ==> EndsWell(s, s')
  {
    FramedAlways(start, run);
    EndOfReconcile(Exec(start, run), f);
  }

  lemma EndOfReconcile(s: Sys, f: Fault)
    requires Framed(s)
    ensures Next(s, f).pc.Idle? && Next(s, f).pc.last != Error ==> EndsWell(s, Next(s, f))
  {
    if s.pc.Idle? && s.w.cr.Some? {
      assert !Begin(s.w.cr.value).Idle?;
    }
  }

  // ---------------------------------------------------------------- once the resource is gone

  /** The resource has been deleted and the cluster objects with it. */
  predicate Gone(s: Sys) {
    s.pc.Idle? && s.w.cr.None? && BothAbsent(s.w.store)
  }

  predicate LeavesGone(l: Label) {
    match l
    case Env(CreateCr(_)) => false
    case Env(PutObject(k, _)) => k != ROLE_KEY && k != BINDING_KEY
    case _ => true
  }

  /** After that, no call of the controller changes anything, and the cluster objects stay away until someone creates
      the resource anew. */
  lemma {:induction false} GoneForever(s: Sys, run: seq<Label>)
    requires Gone(s) && forall l :: l in run ==> LeavesGone(l)
    ensures Gone(Exec(s, run))
    ensures forall f :: Next(Exec(s, run), f).w == Exec(s, run).w
    decreases |run|
  {
    if run != [] {
      assert LeavesGone(run[0]);
      GoneForever(Do(s, run[0]), run[1..]);
    }
  }

  /** If ours is the last finalizer, the very call that clears it deletes the resource. */
  lemma LastFinalizerDeletes(start: Sys, run: seq<Label>, l: Label)
    requires Start(start) && PermittedRun(start, run) && Permitted(Exec(start, run), l)
    requires HasOurs(Exec(start, run).w.cr) && !HasOurs(Do(Exec(start, run), l).w.cr)
    ensures Gone(Do(Exec(start, run), l)) <==> forall x :: x in Exec(start, run).w.cr.value.finalizers ==> x == FINALIZER
  {
    FinalizerSafety(start, run, l);
    InvAlways(start, run);
    var s := Exec(start, run);
    if l.Env? {
      EnvKeepsInv(s, l.action);
    } else {
      var rest := Without(s.w.cr.value.finalizers, FINALIZER);
      if rest != [] {
        assert rest[0] in rest;
      }
    }
  }
}
