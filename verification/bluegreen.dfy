/** The blue-green pipeline: its stages, the route, tags and deployments they act on, and what any sequence of
    pipeline runs keeps. */
module BlueGreen {
  import opened Prelude

  datatype Color = Blue | Green

  function Other(c: Color): Color {
    if c.Blue? then Green else Blue
  }

  type Image = nat

  datatype Backend = Backend(service: Color, weight: nat)

  /** The public route: `to` is the primary backend, `alternate` the other one. */
  datatype Route = Route(to: Backend, alternate: Backend)

  /** `latest`, `tags`: the image stream; `running`: what the deployment of each colour serves.
      `approved` and `goLives` record history: every image a user has approved, and the number of route switches. */
  datatype Project = Project(
    route: Route,
    latest: Option<Image>,
    tags: map<Color, Image>,
    running: map<Color, Image>,
    approved: set<Image>,
    goLives: nat)

  /** The next stage; `tag` is the colour under deployment, `altTag` the other. */
  datatype Stage =
    | Idle(succeeded: bool)
    | Build(tag: Color, altTag: Color)
    | DeployTag(tag: Color, altTag: Color)
    | DeployVerify(tag: Color, altTag: Color)
    | Test(tag: Color, altTag: Color)
    | GoLive(tag: Color, altTag: Color)

  datatype Sys = Sys(p: Project, stage: Stage)

  /** How one stage ends: it succeeds, it fails, is rejected or times out without effect, or it takes effect but the run
      fails all the same. */
  datatype Outcome = Passed | Failed | Lost

  /** What happens outside the pipeline at any time: a webhook build replaces `latest`; an image-change trigger rolls
      a tag out. */
  datatype Event = Webhook(image: Image) | Rollout(color: Color)

  /** One step of a run. `built` is the image a build stage would push. */
  datatype Label = Outside(event: Event) | Step(outcome: Outcome, built: Image)

  predicate Settled(p: Project, c: Color) {
    if c in p.tags then c in p.running && p.running[c] == p.tags[c] else c !in p.running
  }

  function External(p: Project, e: Event): Project {
    match e
    case Webhook(image) => p.(latest := Some(image))
    case Rollout(c) => if c in p.tags then p.(running := p.running[c := p.tags[c]]) else p
  }

  function Retag(p: Project, c: Color): Project {
    if p.latest.Some? then p.(tags := p.tags[c := p.latest.value]) else p
  }

  /** The user tests what the deployment of the colour serves at that moment. */
  function Approve(p: Project, c: Color): Project {
    if c in p.running then p.(approved := p.approved + {p.running[c]}) else p
  }

  function SetBackends(p: Project, tag: Color, altTag: Color): Project {
    p.(route := Route(Backend(tag, 100), Backend(altTag, 0)), goLives := p.goLives + 1)
  }

  /** `tag` as the Initialize stage computes it. */
  function InactiveTag(active: Color): Color {
    if active.Blue? then Green else Blue
  }

  /** One stage of the pipeline. `waits` says whether the verification of a deployment waits for the rollout of the
      image just tagged. */
  function Advance(s: Sys, outcome: Outcome, built: Image, waits: bool): Sys {
    var p := s.p;
    if s.stage.Idle? then
      if outcome.Passed? then
        var tag := InactiveTag(p.route.to.service);
        Sys(p, Build(tag, InactiveTag(tag)))
      else Sys(p, Idle(false))
    else
      var (tag, altTag) := (s.stage.tag, s.stage.altTag);
      if outcome.Failed? then Sys(p, Idle(false)) else
      match s.stage
      case Build(_, _) =>
        Sys(p.(latest := Some(built)), if outcome.Passed? then DeployTag(tag, altTag) else Idle(false))
      case DeployTag(_, _) =>
        Sys(Retag(p, tag), if outcome.Passed? && p.latest.Some? then DeployVerify(tag, altTag) else Idle(false))
      case DeployVerify(_, _) =>
        Sys(p, if outcome.Passed? && (waits ==> Settled(p, tag)) then Test(tag, altTag) else Idle(false))
      case Test(_, _) =>
        Sys(Approve(p, tag), if outcome.Passed? then GoLive(tag, altTag) else Idle(false))
      case GoLive(_, _) =>
        Sys(SetBackends(p, tag, altTag), Idle(outcome.Passed?))
  }

  function Do(s: Sys, l: Label, waits: bool): Sys {
    match l
    case Outside(e) => s.(p := External(s.p, e))
    case Step(outcome, built) => Advance(s, outcome, built, waits)
  }

  function Exec(s: Sys, run: seq<Label>, waits: bool): Sys
    decreases |run|
  {
    if run == [] then s else Exec(Do(s, run[0], waits), run[1..], waits)
  }

  // ---------------------------------------------------------------- what runs keep

  function Live(p: Project): Color {
    p.route.to.service
  }

  /** What the deployment of a colour serves, if anything. */
  function ServedImage(p: Project, c: Color): Option<Image> {
    if c in p.running then Some(p.running[c]) else None
  }

  /** What the weight-100 backend serves. */
  function LiveImage(p: Project): Option<Image> {
    ServedImage(p, Live(p))
  }

  predicate OneLive(p: Project) {
    p.route.to.weight == 100 && p.route.alternate == Backend(Other(Live(p)), 0)
  }

  /** As the template leaves it, or as completed runs do: all the weight on one colour, whose tag is rolled out. */
  predicate Start(s: Sys) {
    s.stage.Idle? && OneLive(s.p) && Settled(s.p, Live(s.p)) && s.p.goLives == 0 && s.p.approved == {}
  }

  predicate ApprovedImage(p: Project, image: Option<Image>, initial: Option<Image>) {
    image == initial || (image.Some? && image.value in p.approved)
  }

  predicate Approved(p: Project, initial: Option<Image>) {
    ApprovedImage(p, LiveImage(p), initial)
  }

  /** What holds whether verification waits or not: one live colour, fixed by the number of switches, and a run that
      works on the other one. */
  ghost predicate Shape(s: Sys, first: Color) {
    && OneLive(s.p)
    && (!s.stage.Idle? ==> s.stage.tag == Other(Live(s.p)) && s.stage.altTag == Live(s.p))
    && (s.stage.DeployVerify? || s.stage.Test? || s.stage.GoLive? ==> s.stage.tag in s.p.tags)
    && Live(s.p) == (if s.p.goLives % 2 == 0 then first else Other(first))
  }

  lemma {:induction false} ShapeAlways(s: Sys, run: seq<Label>, first: Color, waits: bool)
    requires Shape(s, first)
    ensures Shape(Exec(s, run, waits), first)
    decreases |run|
  {
    if run != [] {
      ShapeAlways(Do(s, run[0], waits), run[1..], first, waits);
    }
  }

  /** What waiting adds: the images. */
  ghost predicate Inv(s: Sys, first: Color, initial: Option<Image>) {
    && Shape(s, first) && Settled(s.p, Live(s.p))
    && (s.stage.Test? || s.stage.GoLive? ==> Settled(s.p, s.stage.tag))
    && (s.stage.GoLive? ==> s.p.running[s.stage.tag] in s.p.approved)
    && Approved(s.p, initial)
  }

  lemma EventKeepsInv(s: Sys, e: Event, first: Color, initial: Option<Image>)
    requires Inv(s, first, initial)
    ensures Inv(s.(p := External(s.p, e)), first, initial)
  {
  }

  lemma SwitchKeepsInv(s: Sys, outcome: Outcome, built: Image, first: Color, initial: Option<Image>)
    requires Inv(s, first, initial) && s.stage.GoLive?
    ensures Inv(Advance(s, outcome, built, true), first, initial)
  {
  }

  lemma StageKeepsInv(s: Sys, outcome: Outcome, built: Image, first: Color, initial: Option<Image>)
    requires Inv(s, first, initial) && !s.stage.GoLive?
    ensures Inv(Advance(s, outcome, built, true), first, initial)
  {
  }

  lemma StepKeepsInv(s: Sys, l: Label, first: Color, initial: Option<Image>)
    requires Inv(s, first, initial)
    ensures Inv(Do(s, l, true), first, initial)
  {
    match l
    case Outside(e) => EventKeepsInv(s, e, first, initial);
    case Step(outcome, built) =>
      if s.stage.GoLive? {
        SwitchKeepsInv(s, outcome, built, first, initial);
      } else {
        StageKeepsInv(s, outcome, built, first, initial);
      }
  }

  lemma {:induction false} InvAlways(s: Sys, run: seq<Label>, first: Color, initial: Option<Image>)
    requires Inv(s, first, initial)
    ensures Inv(Exec(s, run, true), first, initial)
    decreases |run|
  {
    if run != [] {
      StepKeepsInv(s, run[0], first, initial);
      InvAlways(Do(s, run[0], true), run[1..], first, initial);
    }
  }

  predicate ImageSafe(start: Sys, run: seq<Label>, waits: bool) {
    Approved(Exec(start, run, waits).p, LiveImage(start.p))
  }

  /** The live image is always the initial one or one a user approved, over all serial runs with aborts at any stage and
      builds at any time, if and only if verifying a deployment waits for the rollout of the image just tagged. */
  lemma LiveImageAlwaysApproved(waits: bool)
    ensures (forall start: Sys, run: seq<Label> :: Start(start) ==> ImageSafe(start, run, waits)) <==> waits
  {
    if waits {
      forall start: Sys, run: seq<Label> | Start(start)
        ensures ImageSafe(start, run, waits)
      {
        InvAlways(start, run, Live(start.p), LiveImage(start.p));
      }
    } else {
      UnapprovedGoesLive();
    }
  }

  function FreshProject(): Sys {
    Sys(Project(Route(Backend(Blue, 100), Backend(Green, 0)), None, map[], map[], {}, 0), Idle(true))
  }

  /** A rejected run leaves image 1 on green; the next run's approval looks at it before image 2 is rolled out. */
  function HastyRun(): seq<Label> {
    [Step(Passed, 0), Step(Passed, 1), Step(Passed, 0), Outside(Rollout(Green)), Step(Passed, 0), Step(Failed, 0)]
    + [Step(Passed, 0), Step(Passed, 2), Step(Passed, 0), Step(Passed, 0), Step(Passed, 0), Step(Passed, 0), Outside(Rollout(Green))]
  }

  lemma {:induction false} ExecAppend(s: Sys, a: seq<Label>, b: seq<Label>, waits: bool)
    ensures Exec(s, a + b, waits) == Exec(Exec(s, a, waits), b, waits)
    decreases |a|
  {
    if a == [] {
      assert a + b == b;
    } else {
      assert (a + b)[1..] == a[1..] + b;
      ExecAppend(Do(s, a[0], waits), a[1..], b, waits);
    }
  }

  lemma UnapprovedGoesLive()
    ensures Start(FreshProject()) && !ImageSafe(FreshProject(), HastyRun(), false)
  {
    var s := FreshProject();
    var first := [Step(Passed, 0), Step(Passed, 1), Step(Passed, 0), Outside(Rollout(Green)), Step(Passed, 0), Step(Failed, 0)];
    var second := [Step(Passed, 0), Step(Passed, 2), Step(Passed, 0), Step(Passed, 0), Step(Passed, 0), Step(Passed, 0), Outside(Rollout(Green))];
    ExecAppend(s, first, second, false);
    FirstHastyRun();
    SecondHastyRun();
  }

  function AfterRejection(): Project {
    Project(FreshProject().p.route, Some(1), map[Green := 1], map[Green := 1], {}, 0)
  }

  lemma FirstHastyRun()
    ensures Exec(FreshProject(), [Step(Passed, 0), Step(Passed, 1), Step(Passed, 0), Outside(Rollout(Green)), Step(Passed, 0), Step(Failed, 0)], false)
            == Sys(AfterRejection(), Idle(false))
  {
  }

  lemma SecondHastyRun()
    ensures var r := Exec(Sys(AfterRejection(), Idle(false)),
                          [Step(Passed, 0), Step(Passed, 2), Step(Passed, 0), Step(Passed, 0), Step(Passed, 0), Step(Passed, 0), Outside(Rollout(Green))],
                          false);
            LiveImage(r.p) == Some(2) && r.p.approved == {1}
  {
    var s := Sys(AfterRejection(), Idle(false));
    var pass := Step(Passed, 0);
    var s1 := Do(s, pass, false);
    var s2 := Do(s1, Step(Passed, 2), false);
    var s3 := Do(s2, pass, false);
    var s4 := Do(s3, pass, false);
    var s5 := Do(s4, pass, false);
    var s6 := Do(s5, pass, false);
    var s7 := Do(s6, Outside(Rollout(Green)), false);
    assert s5.p.approved == {1};
    assert Exec(s7, [], false) == s7;
    assert Exec(s6, [Outside(Rollout(Green))], false) == s7;
    assert Exec(s5, [pass, Outside(Rollout(Green))], false) == s7;
    assert Exec(s4, [pass, pass, Outside(Rollout(Green))], false) == s7;
    assert Exec(s3, [pass, pass, pass, Outside(Rollout(Green))], false) == s7;
    assert Exec(s2, [pass, pass, pass, pass, Outside(Rollout(Green))], false) == s7;
    assert Exec(s1, [Step(Passed, 2), pass, pass, pass, pass, Outside(Rollout(Green))], false) == s7;
  }

  /** The image under a colour's tag, if any. */
  function TaggedImage(p: Project, c: Color): Option<Image> {
    if c in p.tags then Some(p.tags[c]) else None
  }

  /** Colour alternation: at every point exactly one colour has weight 100 and the other 0, a run under way works on the
      other colour, and the live colour is fixed by the parity of the completed switches. */
  lemma ColorsAlternate(start: Sys, run: seq<Label>, waits: bool)
    requires Start(start)
    ensures var s := Exec(start, run, waits);
            OneLive(s.p) &&
            (!s.stage.Idle? ==> s.stage.tag == Other(Live(s.p))) &&
            (Live(s.p) == Live(start.p) <==> s.p.goLives % 2 == 0)
  {
    ShapeAlways(start, run, Live(start.p), waits);
  }

  /** No step of any run moves the tag of the live colour except the switch of the route itself, and no step but a
      rollout of the live colour changes its image; if verification waits, not even that does. */
  lemma LiveUntouched(start: Sys, run: seq<Label>, l: Label, waits: bool)
    requires Start(start)
    ensures var s := Exec(start, run, waits);
            var s' := Do(s, l, waits);
            s'.p.goLives == s.p.goLives ==>
              s'.p.route == s.p.route &&
              TaggedImage(s'.p, Live(s.p)) == TaggedImage(s.p, Live(s.p)) &&
              (waits || l != Outside(Rollout(Live(s.p))) ==> LiveImage(s'.p) == LiveImage(s.p))
  {
    ShapeAlways(start, run, Live(start.p), waits);
    if waits {
      InvAlways(start, run, Live(start.p), LiveImage(start.p));
    }
    match l
    case Outside(e) =>
    case Step(outcome, built) => StageUntouched(Exec(start, run, waits), outcome, built, Live(start.p), waits);
  }

  lemma StageUntouched(s: Sys, outcome: Outcome, built: Image, first: Color, waits: bool)
    requires Shape(s, first)
    ensures var s' := Advance(s, outcome, built, waits);
            s'.p.goLives == s.p.goLives ==>
              s'.p.route == s.p.route && LiveImage(s'.p) == LiveImage(s.p) &&
              TaggedImage(s'.p, Live(s.p)) == TaggedImage(s.p, Live(s.p))
  {
  }

  /** What happens between two states with no switch in between: route and live tag stay, what the live colour serves is
      what it served or what its tag says, and approvals are never taken back. */
  ghost predicate Calm(p: Project, p': Project) {
    && p'.goLives >= p.goLives && p.approved <= p'.approved
    && (p'.goLives == p.goLives ==>
          p'.route == p.route && TaggedImage(p', Live(p)) == TaggedImage(p, Live(p)) &&
          (LiveImage(p') == LiveImage(p) || LiveImage(p') == TaggedImage(p, Live(p))))
  }

  lemma CalmEvent(p: Project, e: Event)
    ensures Calm(p, External(p, e)) && External(p, e).route == p.route && External(p, e).goLives == p.goLives
    ensures forall c :: c in p.tags ==> c in External(p, e).tags
  {
  }

  lemma CalmStage(s: Sys, outcome: Outcome, built: Image, first: Color, waits: bool)
    requires Shape(s, first)
    ensures Calm(s.p, Advance(s, outcome, built, waits).p)
  {
  }

  lemma CalmStep(s: Sys, l: Label, first: Color, waits: bool)
    requires Shape(s, first)
    ensures Shape(Do(s, l, waits), first) && Calm(s.p, Do(s, l, waits).p)
  {
    match l
    case Outside(e) => CalmEvent(s.p, e);
    case Step(outcome, built) => CalmStage(s, outcome, built, first, waits);
  }

  lemma {:induction false} CalmStretch(s: Sys, run: seq<Label>, first: Color, waits: bool)
    requires Shape(s, first)
    ensures Calm(s.p, Exec(s, run, waits).p)
    decreases |run|
  {
    if run != [] {
      CalmStep(s, run[0], first, waits);
      CalmStretch(Do(s, run[0], waits), run[1..], first, waits);
    }
  }

  /** Unless the route is switched again, the live image is approved after the stretch. */
  predicate StaysApproved(s: Sys, run: seq<Label>, initial: Option<Image>, waits: bool) {
    Exec(s, run, waits).p.goLives == s.p.goLives ==> Approved(Exec(s, run, waits).p, initial)
  }

  /** When a given switch is safe, whether verification waits or not: at any reachable Go Live stage, the live image stays
      approved under every continuation up to the next switch, if and only if both what the colour serves at the switch
      and what its tag says are approved, or the initial image. */
  lemma SwitchSafeExact(start: Sys, run: seq<Label>, outcome: Outcome, built: Image, waits: bool)
    requires Start(start) && Exec(start, run, waits).stage.GoLive? && !outcome.Failed?
    ensures var s := Exec(start, run, waits);
            var s' := Advance(s, outcome, built, waits);
            var initial, tag := LiveImage(start.p), s.stage.tag;
            (forall more: seq<Label> :: StaysApproved(s', more, initial, waits)) <==>
            ApprovedImage(s.p, ServedImage(s.p, tag), initial) && ApprovedImage(s.p, TaggedImage(s.p, tag), initial)
  {
    var s := Exec(start, run, waits);
    var s' := Advance(s, outcome, built, waits);
    var initial := LiveImage(start.p);
    ShapeAlways(start, run, Live(start.p), waits);
    var tag := s.stage.tag;
    assert LiveImage(s'.p) == ServedImage(s.p, tag);
    if ApprovedImage(s.p, ServedImage(s.p, tag), initial) && ApprovedImage(s.p, TaggedImage(s.p, tag), initial) {
      forall more: seq<Label>
        ensures StaysApproved(s', more, initial, waits)
      {
        CalmStretch(s', more, Live(start.p), waits);
      }
    } else if !ApprovedImage(s.p, ServedImage(s.p, tag), initial) {
      assert !StaysApproved(s', [], initial, waits);
    } else {
      var rollout := [Outside(Rollout(tag))];
      assert Exec(s', rollout, waits) == Exec(Do(s', rollout[0], waits), [], waits);
      assert !StaysApproved(s', rollout, initial, waits);
    }
  }

  /** Labels of a stretch in which no Go Live stage loses its reply. */
  predicate NoLostSwitch(s: Sys, run: seq<Label>, waits: bool)
    decreases |run|
  {
    run == [] ||
    ((s.stage.GoLive? && run[0].Step? ==> !run[0].outcome.Lost?) && NoLostSwitch(Do(s, run[0], waits), run[1..], waits))
  }

  /** Every pipeline run that starts in the stretch has failed by its end, and none has succeeded. */
  predicate NoneSucceeds(s: Sys, run: seq<Label>, waits: bool)
    decreases |run|
  {
    run == [] ||
    (var s' := Do(s, run[0], waits);
     (run[0].Step? ==> s'.stage != Idle(true)) && NoneSucceeds(s', run[1..], waits))
  }

  lemma {:induction false} FailedStretch(s: Sys, run: seq<Label>, first: Color, waits: bool)
    requires Shape(s, first) && NoneSucceeds(s, run, waits)
    ensures NoLostSwitch(s, run, waits) <==> Exec(s, run, waits).p.goLives == s.p.goLives
    decreases |run|
  {
    if run != [] {
      var s1 := Do(s, run[0], waits);
      CalmStep(s, run[0], first, waits);
      CalmStretch(s1, run[1..], first, waits);
      FailedStretch(s1, run[1..], first, waits);
    }
  }

  /** From any reachable point on, as long as no run succeeds, the route and the live tag stay as they are, and the live
      image too if verification waits; the one exception, exactly, is a switch that took effect although its stage
      failed. */
  lemma FailedRunsKeepLive(start: Sys, before: seq<Label>, run: seq<Label>, waits: bool)
    requires Start(start) && NoneSucceeds(Exec(start, before, waits), run, waits)
    ensures var s := Exec(start, before, waits);
            var s' := Exec(s, run, waits);
            && (NoLostSwitch(s, run, waits) <==> s'.p.goLives == s.p.goLives)
            && (NoLostSwitch(s, run, waits) ==>
                  s'.p.route == s.p.route && TaggedImage(s'.p, Live(s.p)) == TaggedImage(s.p, Live(s.p)) &&
                  (waits ==> LiveImage(s'.p) == LiveImage(s.p)))
  {
    var s := Exec(start, before, waits);
    ShapeAlways(start, before, Live(start.p), waits);
    FailedStretch(s, run, Live(start.p), waits);
    CalmStretch(s, run, Live(start.p), waits);
    if waits {
      InvAlways(start, before, Live(start.p), LiveImage(start.p));
    }
  }

  // ---------------------------------------------------------------- progress

  /** A stage that fails ends the run without effect; one whose reply is lost ends it with the effect of a success. */
  lemma UnsuccessfulStage(s: Sys, built: Image, waits: bool)
    ensures Advance(s, Failed, built, waits) == Sys(s.p, Idle(false))
    ensures Advance(s, Lost, built, waits) == Sys(Advance(s, Passed, built, waits).p, Idle(false))
  {
  }

  /** All stages pass, and what was tagged is rolled out before the verification. */
  function PassingRun(tag: Color, b: Image): seq<Label> {
    [Step(Passed, 0), Step(Passed, b), Step(Passed, 0), Outside(Rollout(tag)), Step(Passed, 0), Step(Passed, 0), Step(Passed, 0)]
  }

  /** Progress: from any project, such a run succeeds whether verification waits or not, and puts what it built live on the
      other colour, approved, without touching the image of the colour that was live. */
  lemma PassingRunGoesLive(s: Sys, b: Image, waits: bool)
    requires s.stage.Idle?
    ensures var tag := Other(Live(s.p));
            var r := Exec(s, PassingRun(tag, b), waits);
            && r.stage == Idle(true) && OneLive(r.p) && Live(r.p) == tag && LiveImage(r.p) == Some(b)
            && r.p.goLives == s.p.goLives + 1 && r.p.approved == s.p.approved + {b}
            && TaggedImage(r.p, tag) == Some(b) && r.p.latest == Some(b)
            && ServedImage(r.p, Live(s.p)) == ServedImage(s.p, Live(s.p))
            && TaggedImage(r.p, Live(s.p)) == TaggedImage(s.p, Live(s.p))
  {
    var tag := Other(Live(s.p));
    var run := PassingRun(tag, b);
    var s1 := Do(s, run[0], waits);
    var s2 := Do(s1, run[1], waits);
    var s3 := Do(s2, run[2], waits);
    var s4 := Do(s3, run[3], waits);
    var s5 := Do(s4, run[4], waits);
    var s6 := Do(s5, run[5], waits);
    var s7 := Do(s6, run[6], waits);
    assert s3.p.tags == s.p.tags[tag := b] && s3.p.latest == Some(b);
    assert s4.p.running == s.p.running[tag := b];
    assert run[1..][1..] == run[2..] && run[2..][1..] == run[3..] && run[3..][1..] == run[4..];
    assert run[4..][1..] == run[5..] && run[5..][1..] == run[6..] && run[6..][1..] == [];
    assert Exec(s, run, waits) == Exec(s1, run[1..], waits) == Exec(s2, run[2..], waits) == Exec(s3, run[3..], waits);
    assert Exec(s3, run[3..], waits) == Exec(s4, run[4..], waits) == Exec(s5, run[5..], waits) == Exec(s6, run[6..], waits);
    assert Exec(s6, run[6..], waits) == Exec(s7, [], waits) == s7;
  }

  // ---------------------------------------------------------------- the Jenkinsfile

  /** Before a stage, outside events happen; then the stage ends one way or another. */
  datatype Tick = Tick(events: seq<Event>, outcome: Outcome, built: Image)

  function Head(ticks: seq<Tick>): Tick {
    if ticks == [] then Tick([], Failed, 0) else ticks[0]
  }

  function Tail(ticks: seq<Tick>): seq<Tick> {
    if ticks == [] then [] else ticks[1..]
  }

  function ExternalAll(p: Project, events: seq<Event>): Project
    decreases |events|
  {
    if events == [] then p else ExternalAll(External(p, events[0]), events[1..])
  }

  function Tock(s: Sys, t: Tick, waits: bool): Sys {
    Advance(s.(p := ExternalAll(s.p, t.events)), t.outcome, t.built, waits)
  }

  function Rank(stage: Stage): nat {
    match stage
    case Idle(_) => 0
    case GoLive(_, _) => 1
    case Test(_, _) => 2
    case DeployVerify(_, _) => 3
    case DeployTag(_, _) => 4
    case Build(_, _) => 5
  }

  /** The rest of the current pipeline run. */
  function Drive(s: Sys, ticks: seq<Tick>, waits: bool): Sys
    decreases Rank(s.stage)
  {
    if s.stage.Idle? then s else Drive(Tock(s, Head(ticks), waits), Tail(ticks), waits)
  }

  /** A whole pipeline run. */
  function PipelineRun(p: Project, ticks: seq<Tick>, waits: bool): Sys {
    Drive(Tock(Sys(p, Idle(true)), Head(ticks), waits), Tail(ticks), waits)
  }

  function TickLabels(t: Tick): seq<Label> {
    seq(|t.events|, i requires 0 <= i < |t.events| => Outside(t.events[i])) + [Step(t.outcome, t.built)]
  }

  function DriveLabels(s: Sys, ticks: seq<Tick>, waits: bool): seq<Label>
    decreases Rank(s.stage)
  {
    if s.stage.Idle? then [] else TickLabels(Head(ticks)) + DriveLabels(Tock(s, Head(ticks), waits), Tail(ticks), waits)
  }

  lemma {:induction false} TickIsRun(s: Sys, events: seq<Event>, outcome: Outcome, built: Image, waits: bool)
    ensures Exec(s, TickLabels(Tick(events, outcome, built)), waits) == Tock(s, Tick(events, outcome, built), waits)
    decreases |events|
  {
    var labels := TickLabels(Tick(events, outcome, built));
    if events == [] {
      assert labels == [Step(outcome, built)];
      assert Exec(s, labels, waits) == Exec(Do(s, labels[0], waits), [], waits);
    } else {
      assert labels == [Outside(events[0])] + TickLabels(Tick(events[1..], outcome, built));
      TickIsRun(s.(p := External(s.p, events[0])), events[1..], outcome, built, waits);
    }
  }

  lemma {:induction false} DriveIsRun(s: Sys, ticks: seq<Tick>, waits: bool)
    ensures Exec(s, DriveLabels(s, ticks, waits), waits) == Drive(s, ticks, waits)
    decreases Rank(s.stage)
  {
    if !s.stage.Idle? {
      var t := Head(ticks);
      var s1 := Tock(s, t, waits);
      TickIsRun(s, t.events, t.outcome, t.built, waits);
      ExecAppend(s, TickLabels(t), DriveLabels(s1, Tail(ticks), waits), waits);
      DriveIsRun(s1, Tail(ticks), waits);
    }
  }

  /** A pipeline run of the Jenkinsfile is a run of the machine. */
  lemma PipelineIsRun(p: Project, ticks: seq<Tick>, waits: bool) returns (run: seq<Label>)
    ensures Exec(Sys(p, Idle(true)), run, waits) == PipelineRun(p, ticks, waits)
  {
    var t, s := Head(ticks), Sys(p, Idle(true));
    var s1 := Tock(s, t, waits);
    TickIsRun(s, t.events, t.outcome, t.built, waits);
    DriveIsRun(s1, Tail(ticks), waits);
    run := TickLabels(t) + DriveLabels(s1, Tail(ticks), waits);
    ExecAppend(s, TickLabels(t), DriveLabels(s1, Tail(ticks), waits), waits);
  }

  // ---------------------------------------------------------------- when a pipeline run succeeds

  /** The `i`-th stage passes. */
  predicate Passes(ticks: seq<Tick>, i: nat) {
    i < |ticks| && ticks[i].outcome.Passed?
  }

  predicate AllPass(ticks: seq<Tick>) {
    |ticks| >= 6 && forall i :: 0 <= i < 6 ==> Passes(ticks, i)
  }

  /** The project as the tagging stage of a run finds it, if the first two stages passed. */
  function AtTagging(p: Project, ticks: seq<Tick>): Project
    requires |ticks| >= 3
  {
    var built := ExternalAll(ExternalAll(p, ticks[0].events), ticks[1].events).(latest := Some(ticks[1].built));
    ExternalAll(built, ticks[2].events)
  }

  /** Between tagging and verification the tag is rolled out, or the colour serves the image already. */
  predicate RolledOut(p: Project, ticks: seq<Tick>)
    requires |ticks| >= 4
  {
    var q, tag := AtTagging(p, ticks), Other(Live(p));
    Rollout(tag) in ticks[3].events || ServedImage(q, tag) == q.latest
  }

  lemma {:induction false} EventsEffect(p: Project, events: seq<Event>, c: Color)
    ensures var q := ExternalAll(p, events);
            && q.route == p.route && q.tags == p.tags && q.approved == p.approved && q.goLives == p.goLives
            && (p.latest.Some? ==> q.latest.Some?)
            && ServedImage(q, c) == (if Rollout(c) in events && c in p.tags then Some(p.tags[c]) else ServedImage(p, c))
    decreases |events|
  {
    if events != [] {
      EventsEffect(External(p, events[0]), events[1..], c);
    }
  }

  /** The run has put `tag` live and left the tags of `p` as they are. */
  predicate Switched(p: Project, r: Sys, tag: Color) {
    r.stage == Idle(true) && Live(r.p) == tag && OneLive(r.p) && r.p.goLives == p.goLives + 1 && r.p.tags == p.tags
  }

  lemma FromGoLive(p: Project, tag: Color, ticks: seq<Tick>, waits: bool)
    ensures var r := Drive(Sys(p, GoLive(tag, Other(tag))), ticks, waits);
            if Passes(ticks, 0) then Switched(p, r, tag) else r.stage == Idle(false)
  {
    var s := Tock(Sys(p, GoLive(tag, Other(tag))), Head(ticks), waits);
    assert Drive(s, Tail(ticks), waits) == s;
    EventsEffect(p, Head(ticks).events, tag);
  }

  lemma FromTest(p: Project, tag: Color, ticks: seq<Tick>, waits: bool)
    ensures var r := Drive(Sys(p, Test(tag, Other(tag))), ticks, waits);
            if Passes(ticks, 0) && Passes(ticks, 1) then Switched(p, r, tag) else r.stage == Idle(false)
  {
    var s := Tock(Sys(p, Test(tag, Other(tag))), Head(ticks), waits);
    EventsEffect(p, Head(ticks).events, tag);
    if Passes(ticks, 0) {
      FromGoLive(s.p, tag, Tail(ticks), waits);
    }
  }

  lemma FromVerify(p: Project, tag: Color, ticks: seq<Tick>, waits: bool)
    requires tag in p.tags
    ensures var r := Drive(Sys(p, DeployVerify(tag, Other(tag))), ticks, waits);
            if Passes(ticks, 0) && Passes(ticks, 1) && Passes(ticks, 2) &&
               (waits ==> Rollout(tag) in ticks[0].events || ServedImage(p, tag) == Some(p.tags[tag]))
            then Switched(p, r, tag) else r.stage == Idle(false)
  {
    var s := Tock(Sys(p, DeployVerify(tag, Other(tag))), Head(ticks), waits);
    EventsEffect(p, Head(ticks).events, tag);
    if s.stage.Test? {
      FromTest(s.p, tag, Tail(ticks), waits);
    }
  }

  lemma FromTag(p: Project, tag: Color, ticks: seq<Tick>, waits: bool)
    requires p.latest.Some?
    ensures var r := Drive(Sys(p, DeployTag(tag, Other(tag))), ticks, waits);
            var q := ExternalAll(p, Head(ticks).events);
            if Passes(ticks, 0) && Passes(ticks, 1) && Passes(ticks, 2) && Passes(ticks, 3) &&
               (waits ==> Rollout(tag) in ticks[1].events || ServedImage(q, tag) == q.latest)
            then Switched(Retag(q, tag), r, tag) && q.latest.Some? else r.stage == Idle(false)
  {
    var s := Tock(Sys(p, DeployTag(tag, Other(tag))), Head(ticks), waits);
    EventsEffect(p, Head(ticks).events, tag);
    if Passes(ticks, 0) {
      FromVerify(s.p, tag, Tail(ticks), waits);
    }
  }

  lemma FromBuild(p: Project, tag: Color, ticks: seq<Tick>, waits: bool)
    ensures var r := Drive(Sys(p, Build(tag, Other(tag))), ticks, waits);
            if !Passes(ticks, 0) then r.stage == Idle(false)
            else r == Drive(Sys(ExternalAll(p, ticks[0].events).(latest := Some(ticks[0].built)), DeployTag(tag, Other(tag))),
                            Tail(ticks), waits)
  {
  }

  /** A pipeline run succeeds exactly when every stage passes and, where verification waits, the tag is rolled out by then.
      It then has put the other colour live, tagged with what was the latest image at the tagging. */
  lemma PipelineSucceeds(p: Project, ticks: seq<Tick>, waits: bool)
    ensures var r := PipelineRun(p, ticks, waits);
            && (r.stage == Idle(true) <==> AllPass(ticks) && (waits ==> RolledOut(p, ticks)))
            && (r.stage == Idle(true) ==>
                  AllPass(ticks) && Live(r.p) == Other(Live(p)) && r.p.goLives == p.goLives + 1 && OneLive(r.p) &&
                  TaggedImage(r.p, Live(r.p)) == AtTagging(p, ticks).latest)
  {
    var tag := Other(Live(p));
    var q := ExternalAll(p, Head(ticks).events);
    EventsEffect(p, Head(ticks).events, tag);
    if Passes(ticks, 0) {
      FromBuild(q, tag, Tail(ticks), waits);
      if Passes(ticks, 1) {
        assert Tail(ticks)[0] == ticks[1];
        var built := ExternalAll(q, ticks[1].events).(latest := Some(ticks[1].built));
        EventsEffect(q, ticks[1].events, tag);
        FromTag(built, tag, Tail(Tail(ticks)), waits);
        EventsEffect(built, Head(Tail(Tail(ticks))).events, tag);
        PassesFromThird(ticks);
      }
    }
  }

  lemma PassesFromThird(ticks: seq<Tick>)
    requires Passes(ticks, 0) && Passes(ticks, 1)
    ensures var t := Tail(Tail(ticks));
            AllPass(ticks) <==> Passes(t, 0) && Passes(t, 1) && Passes(t, 2) && Passes(t, 3)
    ensures |ticks| > 2 ==> Head(Tail(Tail(ticks))) == ticks[2]
    ensures |ticks| > 3 ==> Tail(Tail(ticks))[1] == ticks[3]
  {
    var t := Tail(Tail(ticks));
    assert t == ticks[2..];
    assert AllPass(ticks) ==> Passes(ticks, 2) && Passes(ticks, 3) && Passes(ticks, 4) && Passes(ticks, 5);
  }

  /** The project the pipeline works on. `ticks` says how the coming stages go, `waits` what its verification step does. */
  class Jenkins {
    const waits: bool
    var project: Project
    var ticks: seq<Tick>

    constructor (project: Project, ticks: seq<Tick>, waits: bool)
      ensures this.project == project && this.ticks == ticks && this.waits == waits
    {
      this.waits := waits;
      this.project := project;
      this.ticks := ticks;
    }

    /** Outside events happen; then the stage meets its fate. */
    method EnterStage() returns (outcome: Outcome, built: Image)
      modifies this
      ensures project == ExternalAll(old(project), old(Head(ticks).events)) && ticks == old(Tail(ticks))
      ensures outcome == old(Head(ticks).outcome) && built == old(Head(ticks).built)
    {
      var t := Head(ticks);
      project, ticks := ExternalAll(project, t.events), Tail(ticks);
      outcome, built := t.outcome, t.built;
    }

    ghost predicate Toward(goal: Sys, stage: Stage)
      reads this
    {
      goal == Drive(Sys(project, stage), ticks, waits)
    }

    /** The stages of the Jenkinsfile in order; any failure or timeout ends the run. */
    method RunPipeline() returns (succeeded: bool)
      modifies this
      ensures Sys(project, Idle(succeeded)) == PipelineRun(old(project), old(ticks), waits)
    {
      ghost var goal := PipelineRun(project, ticks, waits);
      var tag, altTag := Blue, Green;

      var outcome, built := EnterStage();
      if !outcome.Passed? { return false; }
      var activeService := project.route.to.service;
      if activeService == Blue {
        tag, altTag := Green, Blue;
      }
      assert Toward(goal, Build(tag, altTag));

      outcome, built := EnterStage();
      if !outcome.Failed? {
        project := project.(latest := Some(built));
      }
      assert Toward(goal, if outcome.Passed? then DeployTag(tag, altTag) else Idle(false));
      if !outcome.Passed? { return false; }

      succeeded := DeployAndSwitch(tag, altTag, goal);
    }

    /** The stages from Deploy Test to Go Live. */
    method DeployAndSwitch(tag: Color, altTag: Color, ghost goal: Sys) returns (succeeded: bool)
      requires Toward(goal, DeployTag(tag, altTag))
      modifies this
      ensures Sys(project, Idle(succeeded)) == goal
    {
      var outcome, built := EnterStage();
      var hasLatest := project.latest.Some?;
      if !outcome.Failed? {
        project := Retag(project, tag);
      }
      assert Toward(goal, if outcome.Passed? && hasLatest then DeployVerify(tag, altTag) else Idle(false));
      if !outcome.Passed? || !hasLatest { return false; }

      outcome, built := EnterStage();
      var verified := outcome.Passed? && (waits ==> Settled(project, tag));
      assert Toward(goal, if verified then Test(tag, altTag) else Idle(false));
      if !verified { return false; }

      outcome, built := EnterStage();
      if !outcome.Failed? {
        project := Approve(project, tag);
      }
      assert Toward(goal, if outcome.Passed? then GoLive(tag, altTag) else Idle(false));
      if !outcome.Passed? { return false; }

      succeeded := Switch(tag, altTag, goal);
    }

    /** The Go Live stage. */
    method Switch(tag: Color, altTag: Color, ghost goal: Sys) returns (succeeded: bool)
      requires Toward(goal, GoLive(tag, altTag))
      modifies this
      ensures Sys(project, Idle(succeeded)) == goal
    {
      var outcome, built := EnterStage();
      if !outcome.Failed? {
        project := SetBackends(project, tag, altTag);
      }
      succeeded := outcome.Passed?;
      assert Toward(goal, Idle(succeeded));
    }
  }
}
