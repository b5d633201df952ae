/** The upgrade-graph pruner: colours the paths of one or two hops from the source release to the target releases and
    deletes everything left uncoloured. This file holds the paint it applies and what the paint means. */
module UpgradeGraph {

  /** grey, salmon, yellowgreen and lightgrey. */
  datatype NodeColor = Unmarked | Source | Target | Indirect

  /** No colour yet; source to target (red); intermediate to target (blue, dashed); source to intermediate (blue, filled). */
  datatype EdgeColor = Plain | Direct | LastHop | FirstHop

  type Edge = (nat, nat)

  /** The coloured .gv file together with the EXT array. */
  datatype Paint = Paint(nodes: map<nat, NodeColor>, edges: map<Edge, EdgeColor>, ext: seq<nat>)

  predicate NoDuplicates<T(==)>(s: seq<T>) {
    forall i, j :: 0 <= i < j < |s| ==> s[i] != s[j]
  }

  /** The IND array: where the edge lines of `v` lead, in line order. */
  function Successors(lines: seq<Edge>, v: nat): (ns: seq<nat>)
    ensures forall n :: n in ns <==> (v, n) in lines
  {
    if lines == [] then []
    else Successors(lines[..|lines| - 1], v) + (if lines[|lines| - 1].0 == v then [lines[|lines| - 1].1] else [])
  }

  lemma {:induction false} SuccessorsDistinct(lines: seq<Edge>, v: nat)
    requires NoDuplicates(lines)
    ensures NoDuplicates(Successors(lines, v))
    decreases |lines|
  {
    if lines != [] {
      var init, last := lines[..|lines| - 1], lines[|lines| - 1];
      SuccessorsDistinct(init, v);
      assert last !in init;
      if last.0 == v {
        assert last.1 !in Successors(init, v);
      }
    }
  }

  predicate Precedes(ns: seq<nat>, a: nat, b: nat) {
    exists i, j :: 0 <= i < j < |ns| && ns[i] == a && ns[j] == b
  }

  /** The outgoing edges are captured in line order. */
  lemma {:induction false} SuccessorsOrder(lines: seq<Edge>, v: nat, i: nat, j: nat)
    requires i < j < |lines| && lines[i].0 == v && lines[j].0 == v
    ensures Precedes(Successors(lines, v), lines[i].1, lines[j].1)
    decreases |lines|
  {
    var n := |lines| - 1;
    var ns := Successors(lines[..n], v);
    if lines[n].0 == v {
      PrecedesSnoc(ns, lines[n].1, lines[i].1, lines[j].1);
    } else {
      assert Successors(lines, v) == ns;
    }
    if j < n {
      SuccessorsOrder(lines[..n], v, i, j);
    } else {
      assert lines[..n][i] in lines[..n];
    }
  }

  // ---------------------------------------------------------------- the paint, stroke by stroke

  function Recolor(edges: map<Edge, EdgeColor>, e: Edge, c: EdgeColor): map<Edge, EdgeColor> {
    if e in edges && edges[e].Plain? then edges[e := c] else edges
  }

  function RecolorNode(nodes: map<nat, NodeColor>, x: nat, c: NodeColor): map<nat, NodeColor> {
    if x in nodes then nodes[x := c] else nodes
  }

  /** Target `t` against one successor `n` of the source `v`. */
  function Stroke(p: Paint, v: nat, t: nat, n: nat): Paint {
    if n == t then
      Paint(RecolorNode(p.nodes, t, Target), Recolor(p.edges, (v, t), Direct), p.ext)
    else if (n, t) in p.edges && p.edges[(n, t)].Plain? then
      Paint(RecolorNode(RecolorNode(p.nodes, n, Indirect), t, Target), Recolor(p.edges, (n, t), LastHop), p.ext + [n])
    else p
  }

  function PaintTarget(p: Paint, v: nat, t: nat, ns: seq<nat>): Paint {
    if ns == [] then p else Stroke(PaintTarget(p, v, t, ns[..|ns| - 1]), v, t, ns[|ns| - 1])
  }

  function PaintTargets(p: Paint, v: nat, ts: seq<nat>, ns: seq<nat>): Paint {
    if ts == [] then p else PaintTarget(PaintTargets(p, v, ts[..|ts| - 1], ns), v, ts[|ts| - 1], ns)
  }

  lemma PaintTargetsSnoc(p: Paint, v: nat, ts: seq<nat>, t: nat, ns: seq<nat>)
    ensures PaintTargets(p, v, ts + [t], ns) == PaintTarget(PaintTargets(p, v, ts, ns), v, t, ns)
  {
  }

  function PaintFirstHops(edges: map<Edge, EdgeColor>, v: nat, ext: seq<nat>): map<Edge, EdgeColor> {
    if ext == [] then edges else Recolor(PaintFirstHops(edges, v, ext[..|ext| - 1]), (v, ext[|ext| - 1]), FirstHop)
  }

  function Prune(p: Paint): Paint {
    Paint(map x | x in p.nodes && !p.nodes[x].Unmarked? :: p.nodes[x],
          map e | e in p.edges && !p.edges[e].Plain? :: p.edges[e], p.ext)
  }

  function Blank(nodes: set<nat>, lines: seq<Edge>, v: nat, ext: seq<nat>): Paint {
    Paint(map x | x in nodes :: if x == v then Source else Unmarked, map e | e in lines :: Plain, ext)
  }

  /** Everything `colorize` does to one channel that has the source at `v` and the targets at `ts`. */
  function ColorizeChannel(p: Paint, lines: seq<Edge>, v: nat, ts: seq<nat>): Paint {
    var q := PaintTargets(p, v, ts, Successors(lines, v));
    Prune(q.(edges := PaintFirstHops(q.edges, v, q.ext)))
  }

  // ---------------------------------------------------------------- what one target's strokes amount to

  /** `n` serves as an intermediate for `t`. The last condition matters only if the source has an edge to itself. */
  predicate Serves(lines: seq<Edge>, v: nat, ns: seq<nat>, n: nat, t: nat) {
    n in ns && n != t && (n, t) in lines && (n == v ==> !Precedes(ns, t, v))
  }

  predicate Hit(lines: seq<Edge>, v: nat, ns: seq<nat>, t: nat) {
    t in ns || exists n :: n in ns && Serves(lines, v, ns, n, t)
  }

  function EdgeInto(lines: seq<Edge>, v: nat, ns: seq<nat>, a: nat, t: nat): EdgeColor {
    if Serves(lines, v, ns, a, t) then LastHop else if a == v && t in ns then Direct else Plain
  }

  ghost predicate Covers(p: Paint, lines: seq<Edge>) {
    forall e :: e in p.edges <==> e in lines
  }

  ghost predicate EdgesPainted(p: Paint, q: Paint, lines: seq<Edge>, v: nat, t: nat, ns: seq<nat>) {
    && Covers(p, lines) && Covers(q, lines)
    && (forall e :: e in lines ==> q.edges[e] == (if e.1 == t then EdgeInto(lines, v, ns, e.0, t) else p.edges[e]))
    && (forall n :: n in q.ext <==> n in p.ext || Serves(lines, v, ns, n, t))
  }

  ghost predicate NodesPainted(p: Paint, q: Paint, lines: seq<Edge>, v: nat, t: nat, ns: seq<nat>) {
    && q.nodes.Keys == p.nodes.Keys
    && (forall x :: x in p.nodes ==>
          q.nodes[x] == (if x == t && Hit(lines, v, ns, t) then Target
                         else if Serves(lines, v, ns, x, t) then Indirect
                         else p.nodes[x]))
  }

  ghost predicate TargetPainted(p: Paint, q: Paint, lines: seq<Edge>, v: nat, t: nat, ns: seq<nat>) {
    EdgesPainted(p, q, lines, v, t, ns) && NodesPainted(p, q, lines, v, t, ns)
  }

  lemma PrecedesSnoc(ns: seq<nat>, n: nat, a: nat, b: nat)
    ensures Precedes(ns + [n], a, b) <==> Precedes(ns, a, b) || (n == b && a in ns)
  {
    var ns' := ns + [n];
    if Precedes(ns, a, b) {
      var i, j :| 0 <= i < j < |ns| && ns[i] == a && ns[j] == b;
      assert ns'[i] == a && ns'[j] == b;
    }
    if n == b && a in ns {
      var i :| 0 <= i < |ns| && ns[i] == a;
      assert ns'[i] == a && ns'[|ns|] == b;
    }
  }

  lemma ServesSnoc(lines: seq<Edge>, v: nat, ns: seq<nat>, n: nat, t: nat, x: nat)
    requires n !in ns
    ensures Serves(lines, v, ns + [n], x, t) <==>
            Serves(lines, v, ns, x, t) || (x == n && n != t && (n, t) in lines && (n == v ==> t !in ns))
  {
    PrecedesSnoc(ns, n, t, v);
    if Precedes(ns, t, v) {
      assert v in ns;
    }
  }

  lemma {:induction false} PaintTargetEffect(p: Paint, lines: seq<Edge>, v: nat, t: nat, ns: seq<nat>)
    requires Covers(p, lines) && NoDuplicates(ns)
    requires t in p.nodes && (forall n :: n in ns ==> n in p.nodes)
    requires forall e :: e in lines && e.1 == t ==> p.edges[e].Plain?
    ensures TargetPainted(p, PaintTarget(p, v, t, ns), lines, v, t, ns)
    decreases |ns|
  {
    if ns != [] {
      var init, n := ns[..|ns| - 1], ns[|ns| - 1];
      assert ns == init + [n] && n !in init;
      PaintTargetEffect(p, lines, v, t, init);
      StrokeEdges(p, PaintTarget(p, v, t, init), lines, v, t, init, n);
      StrokeNodes(p, PaintTarget(p, v, t, init), lines, v, t, init, n);
    }
  }

  lemma HitSnoc(lines: seq<Edge>, v: nat, ns: seq<nat>, n: nat, t: nat)
    requires n !in ns
    ensures Hit(lines, v, ns + [n], t) <==> Hit(lines, v, ns, t) || n == t || ((n, t) in lines && (n == v ==> t !in ns))
  {
    ServesSnoc(lines, v, ns, n, t, n);
    if Hit(lines, v, ns, t) && t !in ns {
      var m :| m in ns && Serves(lines, v, ns, m, t);
      ServesSnoc(lines, v, ns, n, t, m);
      assert m in ns + [n];
    }
    if n != t && (n, t) in lines && (n == v ==> t !in ns) {
      assert n in ns + [n];
    }
    if Hit(lines, v, ns + [n], t) && t !in ns + [n] {
      var m :| m in ns + [n] && Serves(lines, v, ns + [n], m, t);
      ServesSnoc(lines, v, ns, n, t, m);
    }
  }

  lemma StrokeEdges(p: Paint, q: Paint, lines: seq<Edge>, v: nat, t: nat, ns: seq<nat>, n: nat)
    requires n !in ns && EdgesPainted(p, q, lines, v, t, ns)
    ensures EdgesPainted(p, Stroke(q, v, t, n), lines, v, t, ns + [n])
  {
    forall x
      ensures Serves(lines, v, ns + [n], x, t) <==>
              Serves(lines, v, ns, x, t) || (x == n && n != t && (n, t) in lines && (n == v ==> t !in ns))
    {
      ServesSnoc(lines, v, ns, n, t, x);
    }
    assert !Serves(lines, v, ns, n, t);
  }

  lemma StrokeNodes(p: Paint, q: Paint, lines: seq<Edge>, v: nat, t: nat, ns: seq<nat>, n: nat)
    requires n !in ns && t in p.nodes && n in p.nodes && TargetPainted(p, q, lines, v, t, ns)
    ensures NodesPainted(p, Stroke(q, v, t, n), lines, v, t, ns + [n])
  {
    forall x
      ensures Serves(lines, v, ns + [n], x, t) <==>
              Serves(lines, v, ns, x, t) || (x == n && n != t && (n, t) in lines && (n == v ==> t !in ns))
    {
      ServesSnoc(lines, v, ns, n, t, x);
    }
    HitSnoc(lines, v, ns, n, t);
    assert !Serves(lines, v, ns, n, t);
  }

  // ---------------------------------------------------------------- what all strokes amount to

  ghost predicate Spread(lines: seq<Edge>, v: nat, ns: seq<nat>, ts: seq<nat>, n: nat) {
    exists t :: t in ts && Serves(lines, v, ns, n, t)
  }

  ghost predicate AllPainted(p: Paint, q: Paint, lines: seq<Edge>, v: nat, ts: seq<nat>, ns: seq<nat>) {
    && Covers(q, lines)
    && (forall e :: e in lines ==> q.edges[e] == (if e.1 in ts then EdgeInto(lines, v, ns, e.0, e.1) else Plain))
    && (forall n :: n in q.ext <==> n in p.ext || Spread(lines, v, ns, ts, n))
    && q.nodes.Keys == p.nodes.Keys
    && (forall x :: x in p.nodes ==>
          (q.nodes[x].Unmarked? <==> p.nodes[x].Unmarked? && !(x in ts && Hit(lines, v, ns, x)) && !Spread(lines, v, ns, ts, x)))
  }

  lemma {:induction false} PaintTargetsEffect(p: Paint, lines: seq<Edge>, v: nat, ts: seq<nat>, ns: seq<nat>)
    requires Covers(p, lines) && NoDuplicates(ns) && NoDuplicates(ts)
    requires (forall t :: t in ts ==> t in p.nodes) && (forall n :: n in ns ==> n in p.nodes)
    requires forall e :: e in lines ==> p.edges[e].Plain?
    ensures AllPainted(p, PaintTargets(p, v, ts, ns), lines, v, ts, ns)
    decreases |ts|
  {
    if ts != [] {
      var init, t := ts[..|ts| - 1], ts[|ts| - 1];
      assert ts == init + [t] && t !in init;
      PaintTargetsEffect(p, lines, v, init, ns);
      var q := PaintTargets(p, v, init, ns);
      PaintTargetEffect(q, lines, v, t, ns);
      PaintedSnoc(p, q, PaintTarget(q, v, t, ns), lines, v, init, t, ns);
    }
  }

  lemma PaintedSnoc(p: Paint, q: Paint, r: Paint, lines: seq<Edge>, v: nat, ts: seq<nat>, t: nat, ns: seq<nat>)
    requires t !in ts && AllPainted(p, q, lines, v, ts, ns) && TargetPainted(q, r, lines, v, t, ns)
    ensures AllPainted(p, r, lines, v, ts + [t], ns)
  {
    forall n
      ensures Spread(lines, v, ns, ts + [t], n) <==> Spread(lines, v, ns, ts, n) || Serves(lines, v, ns, n, t)
    {
      SpreadSnoc(lines, v, ns, ts, t, n);
    }
  }

  lemma {:induction false} FirstHopsEffect(edges: map<Edge, EdgeColor>, v: nat, ext: seq<nat>)
    ensures PaintFirstHops(edges, v, ext).Keys == edges.Keys
    ensures forall e :: e in edges ==>
              PaintFirstHops(edges, v, ext)[e] == (if edges[e].Plain? && e.0 == v && e.1 in ext then FirstHop else edges[e])
    decreases |ext|
  {
    if ext != [] {
      var init, n := ext[..|ext| - 1], ext[|ext| - 1];
      assert ext == init + [n];
      FirstHopsEffect(edges, v, init);
    }
  }

  // ---------------------------------------------------------------- the result of one channel

  /** A channel: its node positions and its edge lines. */
  predicate WellFormed(nodes: set<nat>, lines: seq<Edge>, v: nat, ts: seq<nat>) {
    && NoDuplicates(lines) && NoDuplicates(ts)
    && v in nodes && (forall t :: t in ts ==> t in nodes)
    && (forall e :: e in lines ==> e.0 in nodes && e.1 in nodes)
  }

  function Result(nodes: set<nat>, lines: seq<Edge>, v: nat, ts: seq<nat>, ext: seq<nat>): Paint {
    ColorizeChannel(Blank(nodes, lines, v, ext), lines, v, ts)
  }

  /** The colour each edge line ends in, before plain lines are deleted. */
  ghost function FinalEdge(lines: seq<Edge>, v: nat, ts: seq<nat>, ext: seq<nat>, e: Edge): EdgeColor {
    var ns := Successors(lines, v);
    if e.1 in ts && !EdgeInto(lines, v, ns, e.0, e.1).Plain? then EdgeInto(lines, v, ns, e.0, e.1)
    else if e.0 == v && (e.1 in ext || Spread(lines, v, ns, ts, e.1)) then FirstHop
    else Plain
  }

  lemma ResultEdges(nodes: set<nat>, lines: seq<Edge>, v: nat, ts: seq<nat>, ext: seq<nat>)
    requires WellFormed(nodes, lines, v, ts)
    ensures forall e :: e in Result(nodes, lines, v, ts, ext).edges <==> e in lines && !FinalEdge(lines, v, ts, ext, e).Plain?
    ensures forall e :: e in Result(nodes, lines, v, ts, ext).edges ==>
              Result(nodes, lines, v, ts, ext).edges[e] == FinalEdge(lines, v, ts, ext, e)
  {
    var ns := Successors(lines, v);
    var p := Blank(nodes, lines, v, ext);
    SuccessorsDistinct(lines, v);
    forall n | n in ns
      ensures n in p.nodes
    {
      assert (v, n) in lines;
    }
    PaintTargetsEffect(p, lines, v, ts, ns);
    var q := PaintTargets(p, v, ts, ns);
    FirstHopsEffect(q.edges, v, q.ext);
  }

  lemma ResultNodes(nodes: set<nat>, lines: seq<Edge>, v: nat, ts: seq<nat>, ext: seq<nat>)
    requires WellFormed(nodes, lines, v, ts)
    ensures var ns := Successors(lines, v);
            forall x :: x in Result(nodes, lines, v, ts, ext).nodes <==>
              x in nodes && (x == v || (x in ts && Hit(lines, v, ns, x)) || Spread(lines, v, ns, ts, x))
  {
    var ns := Successors(lines, v);
    var p := Blank(nodes, lines, v, ext);
    SuccessorsDistinct(lines, v);
    forall n | n in ns
      ensures n in p.nodes
    {
      assert (v, n) in lines;
    }
    PaintTargetsEffect(p, lines, v, ts, ns);
  }

  // ---------------------------------------------------------------- pruning is exact

  predicate OneHop(lines: seq<Edge>, v: nat, ts: seq<nat>, e: Edge) {
    e in lines && e.0 == v && e.1 in ts
  }

  /** `n` is the middle of a path v, n, t. */
  predicate Middle(lines: seq<Edge>, v: nat, n: nat, t: nat) {
    (v, n) in lines && (n, t) in lines
  }

  /** `e` lies on a path of one or two edges from `v` to a member of `ts`. */
  ghost predicate OnPath(lines: seq<Edge>, v: nat, ts: seq<nat>, e: Edge) {
    || OneHop(lines, v, ts, e)
    || (e.0 == v && exists t :: t in ts && Middle(lines, v, e.1, t))
    || (e.1 in ts && Middle(lines, v, e.0, e.1))
  }

  /** Edges from a release to itself that `colorize` overlooks although they lie on a two-hop path. */
  ghost predicate LoopsHarmless(lines: seq<Edge>, v: nat, ts: seq<nat>, ext: seq<nat>) {
    && (forall t :: t in ts && t != v && (v, t) in lines ==> (t, t) !in lines)
    && ((v, v) in lines && v !in ts && v !in ext && (exists t :: t in ts && (v, t) in lines) ==>
          exists t :: t in ts && Serves(lines, v, Successors(lines, v), v, t))
  }

  /** Intermediates left over in EXT from earlier channels do no harm if they lie on a path here too. */
  ghost predicate LeftoversHarmless(lines: seq<Edge>, v: nat, ts: seq<nat>, ext: seq<nat>) {
    forall n :: n in ext && (v, n) in lines ==> OnPath(lines, v, ts, (v, n))
  }

  lemma SurvivorsOnPath(lines: seq<Edge>, v: nat, ts: seq<nat>, ext: seq<nat>, e: Edge)
    requires e in lines && !FinalEdge(lines, v, ts, ext, e).Plain?
    ensures OnPath(lines, v, ts, e) || (e.0 == v && e.1 in ext)
  {
  }

  lemma PathSurvives(lines: seq<Edge>, v: nat, ts: seq<nat>, ext: seq<nat>, e: Edge)
    requires OnPath(lines, v, ts, e) && (e.0 != e.1 || LoopsHarmless(lines, v, ts, ext))
    ensures e in lines && !FinalEdge(lines, v, ts, ext, e).Plain?
  {
  }

  /** Pruning is exact: for every graph, the surviving edges are the edges on the one-hop and two-hop paths from the
      source to the targets, if and only if no self-loop lies on such a path unseen and no leftover of an earlier
      channel leads off the paths. */
  lemma EdgesExact(nodes: set<nat>, lines: seq<Edge>, v: nat, ts: seq<nat>, ext: seq<nat>)
    requires WellFormed(nodes, lines, v, ts)
    ensures (forall e :: e in Result(nodes, lines, v, ts, ext).edges <==> OnPath(lines, v, ts, e)) <==>
            LoopsHarmless(lines, v, ts, ext) && LeftoversHarmless(lines, v, ts, ext)
  {
    ResultEdges(nodes, lines, v, ts, ext);
    var r := Result(nodes, lines, v, ts, ext);
    if LoopsHarmless(lines, v, ts, ext) && LeftoversHarmless(lines, v, ts, ext) {
      forall e
        ensures e in r.edges <==> OnPath(lines, v, ts, e)
      {
        if e in r.edges {
          SurvivorsOnPath(lines, v, ts, ext, e);
        }
        if OnPath(lines, v, ts, e) {
          PathSurvives(lines, v, ts, ext, e);
        }
      }
    }
    if forall e :: e in r.edges <==> OnPath(lines, v, ts, e) {
      ExactLeavesNoLoop(nodes, lines, v, ts, ext);
      forall n | n in ext && (v, n) in lines
        ensures OnPath(lines, v, ts, (v, n))
      {
        assert (v, n) in r.edges;
      }
    }
  }

  lemma TargetLoopIsLost(nodes: set<nat>, lines: seq<Edge>, v: nat, ts: seq<nat>, ext: seq<nat>, t: nat)
    requires WellFormed(nodes, lines, v, ts)
    requires t in ts && t != v && (v, t) in lines && (t, t) in lines
    ensures OnPath(lines, v, ts, (t, t)) && (t, t) !in Result(nodes, lines, v, ts, ext).edges
  {
    ResultEdges(nodes, lines, v, ts, ext);
    assert Middle(lines, v, t, t);
  }

  lemma ExactLeavesNoLoop(nodes: set<nat>, lines: seq<Edge>, v: nat, ts: seq<nat>, ext: seq<nat>)
    requires WellFormed(nodes, lines, v, ts)
    requires forall e :: e in Result(nodes, lines, v, ts, ext).edges <==> OnPath(lines, v, ts, e)
    ensures LoopsHarmless(lines, v, ts, ext)
  {
    ResultEdges(nodes, lines, v, ts, ext);
    var r := Result(nodes, lines, v, ts, ext);
    forall t | t in ts && t != v && (v, t) in lines
      ensures (t, t) !in lines
    {
      if (t, t) in lines {
        TargetLoopIsLost(nodes, lines, v, ts, ext, t);
      }
    }
    if (v, v) in lines && v !in ts && v !in ext && exists t :: t in ts && (v, t) in lines {
      var t :| t in ts && (v, t) in lines;
      assert Middle(lines, v, v, t) && (v, v) in r.edges;
    }
  }

  /** The surviving nodes are the source and the ends of the paths' edges, for every graph and whatever EXT holds. */
  lemma NodesExact(nodes: set<nat>, lines: seq<Edge>, v: nat, ts: seq<nat>, ext: seq<nat>)
    requires WellFormed(nodes, lines, v, ts)
    ensures forall x :: x in Result(nodes, lines, v, ts, ext).nodes <==>
              x == v || exists e :: e in lines && OnPath(lines, v, ts, e) && (x == e.0 || x == e.1)
  {
    ResultNodes(nodes, lines, v, ts, ext);
    forall x
      ensures x in Result(nodes, lines, v, ts, ext).nodes <==>
              x == v || exists e :: e in lines && OnPath(lines, v, ts, e) && (x == e.0 || x == e.1)
    {
      if x in Result(nodes, lines, v, ts, ext).nodes && x != v {
        NodeHasEdge(lines, v, ts, x);
      }
      if exists e :: e in lines && OnPath(lines, v, ts, e) && (x == e.0 || x == e.1) {
        var e :| e in lines && OnPath(lines, v, ts, e) && (x == e.0 || x == e.1);
        EdgeHasNode(lines, v, ts, e, x);
      }
    }
  }

  lemma NodeHasEdge(lines: seq<Edge>, v: nat, ts: seq<nat>, x: nat)
    requires (x in ts && Hit(lines, v, Successors(lines, v), x)) || Spread(lines, v, Successors(lines, v), ts, x)
    ensures exists e :: e in lines && OnPath(lines, v, ts, e) && (x == e.0 || x == e.1)
  {
  }

  lemma EdgeHasNode(lines: seq<Edge>, v: nat, ts: seq<nat>, e: Edge, x: nat)
    requires e in lines && OnPath(lines, v, ts, e) && (x == e.0 || x == e.1)
    ensures x == v || (x in ts && Hit(lines, v, Successors(lines, v), x)) || Spread(lines, v, Successors(lines, v), ts, x)
  {
  }

  // ---------------------------------------------------------------- colour precedence

  /** A direct edge keeps the direct colour, also when its target serves as an intermediate, unless the source has an
      edge to itself that is listed before it. */
  lemma DirectEdgeKeepsColor(nodes: set<nat>, lines: seq<Edge>, v: nat, ts: seq<nat>, ext: seq<nat>, t: nat)
    requires WellFormed(nodes, lines, v, ts) && t in ts && (v, t) in lines
    ensures (v, t) in Result(nodes, lines, v, ts, ext).edges
    ensures Result(nodes, lines, v, ts, ext).edges[(v, t)] == Direct <==>
            !((v, v) in lines && v != t && !Precedes(Successors(lines, v), t, v))
  {
    ResultEdges(nodes, lines, v, ts, ext);
  }

  /** `ts[i]` serves a target visited later. */
  ghost predicate ServesLater(lines: seq<Edge>, v: nat, ns: seq<nat>, ts: seq<nat>, i: nat)
    requires i < |ts|
  {
    exists j :: i < j < |ts| && Serves(lines, v, ns, ts[i], ts[j])
  }

  lemma ServesLaterSnoc(lines: seq<Edge>, v: nat, ns: seq<nat>, ts: seq<nat>, t: nat, i: nat)
    requires i < |ts|
    ensures ServesLater(lines, v, ns, ts + [t], i) <==> ServesLater(lines, v, ns, ts, i) || Serves(lines, v, ns, ts[i], t)
  {
    var all := ts + [t];
    assert all[i] == ts[i] && all[|ts|] == t;
    assert forall j :: i < j < |ts| ==> all[j] == ts[j];
  }

  /** The colour of target `ts[i]` after all strokes: whatever serves a later-visited target is repainted. */
  lemma {:induction false} TargetColorAfter(p: Paint, lines: seq<Edge>, v: nat, ts: seq<nat>, ns: seq<nat>, i: nat)
    requires Covers(p, lines) && NoDuplicates(ns) && NoDuplicates(ts) && i < |ts|
    requires (forall t :: t in ts ==> t in p.nodes) && (forall n :: n in ns ==> n in p.nodes)
    requires forall e :: e in lines ==> p.edges[e].Plain?
    requires Hit(lines, v, ns, ts[i])
    ensures ts[i] in PaintTargets(p, v, ts, ns).nodes
    ensures PaintTargets(p, v, ts, ns).nodes[ts[i]] == if ServesLater(lines, v, ns, ts, i) then Indirect else Target
    decreases |ts|
  {
    var init, t := ts[..|ts| - 1], ts[|ts| - 1];
    assert ts == init + [t] && t !in init;
    PaintTargetsEffect(p, lines, v, init, ns);
    PaintTargetEffect(PaintTargets(p, v, init, ns), lines, v, t, ns);
    if i < |init| {
      TargetColorAfter(p, lines, v, init, ns, i);
      ServesLaterSnoc(lines, v, ns, init, t, i);
    }
  }

  /** A reached target ends in the target colour exactly when it serves no target visited after it. */
  lemma TargetColorExact(nodes: set<nat>, lines: seq<Edge>, v: nat, ts: seq<nat>, ext: seq<nat>, i: nat)
    requires WellFormed(nodes, lines, v, ts) && i < |ts|
    requires Hit(lines, v, Successors(lines, v), ts[i])
    ensures ts[i] in Result(nodes, lines, v, ts, ext).nodes
    ensures Result(nodes, lines, v, ts, ext).nodes[ts[i]] == Target <==>
            forall j :: i < j < |ts| ==> !Serves(lines, v, Successors(lines, v), ts[i], ts[j])
  {
    var ns := Successors(lines, v);
    var p := Blank(nodes, lines, v, ext);
    SuccessorsDistinct(lines, v);
    forall n | n in ns
      ensures n in p.nodes
    {
      assert (v, n) in lines;
    }
    TargetColorAfter(p, lines, v, ts, ns, i);
  }

  /** The colour a node ends in: the target colour for a reached target that serves no target visited after it, else the
      intermediate colour for what serves any target, else what it was drawn in. */
  ghost function FinalNode(lines: seq<Edge>, v: nat, ts: seq<nat>, x: nat): NodeColor {
    var ns := Successors(lines, v);
    if exists i :: 0 <= i < |ts| && ts[i] == x && Hit(lines, v, ns, x) && !ServesLater(lines, v, ns, ts, i) then Target
    else if Spread(lines, v, ns, ts, x) then Indirect
    else if x == v then Source
    else Unmarked
  }

  /** After the strokes of all targets: a node that is no reached target keeps its colour unless it serves one. */
  lemma {:induction false} OtherColorAfter(p: Paint, lines: seq<Edge>, v: nat, ts: seq<nat>, ns: seq<nat>, x: nat)
    requires Covers(p, lines) && NoDuplicates(ns) && NoDuplicates(ts) && x in p.nodes
    requires (forall t :: t in ts ==> t in p.nodes) && (forall n :: n in ns ==> n in p.nodes)
    requires forall e :: e in lines ==> p.edges[e].Plain?
    requires x in ts ==> !Hit(lines, v, ns, x)
    ensures x in PaintTargets(p, v, ts, ns).nodes
    ensures PaintTargets(p, v, ts, ns).nodes[x] == if Spread(lines, v, ns, ts, x) then Indirect else p.nodes[x]
    decreases |ts|
  {
    if ts != [] {
      var init, t := ts[..|ts| - 1], ts[|ts| - 1];
      assert ts == init + [t] && t !in init;
      OtherColorAfter(p, lines, v, init, ns, x);
      PaintTargetsEffect(p, lines, v, init, ns);
      PaintTargetEffect(PaintTargets(p, v, init, ns), lines, v, t, ns);
      SpreadSnoc(lines, v, ns, init, t, x);
    }
  }

  lemma SpreadSnoc(lines: seq<Edge>, v: nat, ns: seq<nat>, ts: seq<nat>, t: nat, x: nat)
    ensures Spread(lines, v, ns, ts + [t], x) <==> Spread(lines, v, ns, ts, x) || Serves(lines, v, ns, x, t)
  {
    if Spread(lines, v, ns, ts, x) {
      var u :| u in ts && Serves(lines, v, ns, x, u);
      assert u in ts + [t];
    }
    if Serves(lines, v, ns, x, t) {
      assert t in ts + [t];
    }
  }

  /** The colour of every node, before unmarked nodes are deleted. */
  lemma ResultNodeColors(nodes: set<nat>, lines: seq<Edge>, v: nat, ts: seq<nat>, ext: seq<nat>)
    requires WellFormed(nodes, lines, v, ts)
    ensures forall x :: x in Result(nodes, lines, v, ts, ext).nodes <==> x in nodes && FinalNode(lines, v, ts, x) != Unmarked
    ensures forall x :: x in Result(nodes, lines, v, ts, ext).nodes ==>
              Result(nodes, lines, v, ts, ext).nodes[x] == FinalNode(lines, v, ts, x)
  {
    var ns := Successors(lines, v);
    var p := Blank(nodes, lines, v, ext);
    SuccessorsDistinct(lines, v);
    forall n | n in ns
      ensures n in p.nodes
    {
      assert (v, n) in lines;
    }
    PaintTargetsEffect(p, lines, v, ts, ns);
    forall x | x in nodes
      ensures PaintTargets(p, v, ts, ns).nodes[x] == FinalNode(lines, v, ts, x)
    {
      NodeColorAfter(p, lines, v, ts, ns, x);
    }
  }

  lemma NodeColorAfter(p: Paint, lines: seq<Edge>, v: nat, ts: seq<nat>, ns: seq<nat>, x: nat)
    requires Covers(p, lines) && NoDuplicates(ns) && NoDuplicates(ts) && x in p.nodes && ns == Successors(lines, v)
    requires (forall t :: t in ts ==> t in p.nodes) && (forall n :: n in ns ==> n in p.nodes)
    requires forall e :: e in lines ==> p.edges[e].Plain?
    requires p.nodes[x] == if x == v then Source else Unmarked
    ensures x in PaintTargets(p, v, ts, ns).nodes && PaintTargets(p, v, ts, ns).nodes[x] == FinalNode(lines, v, ts, x)
  {
    if x in ts && Hit(lines, v, ns, x) {
      var i :| 0 <= i < |ts| && ts[i] == x;
      TargetColorAfter(p, lines, v, ts, ns, i);
      if ServesLater(lines, v, ns, ts, i) {
        var j :| i < j < |ts| && Serves(lines, v, ns, ts[i], ts[j]);
        assert ts[j] in ts;
        assert forall k :: 0 <= k < |ts| && ts[k] == x ==> k == i;
      }
    } else {
      OtherColorAfter(p, lines, v, ts, ns, x);
    }
  }

  /** `rank` is the version order: every edge goes up, and the targets are visited from the top down. */
  ghost predicate Ascending(lines: seq<Edge>, ts: seq<nat>, rank: nat -> int) {
    (forall e :: e in lines ==> rank(e.0) < rank(e.1)) && Descending(ts, rank)
  }

  ghost predicate Descending(ts: seq<nat>, rank: nat -> int) {
    forall i, j :: 0 <= i < j < |ts| ==> rank(ts[i]) > rank(ts[j])
  }

  /** The colours as the legend explains them. Edges: source to target, intermediate to target, source to intermediate.
      Nodes: the targets within two hops, the intermediates that are no targets, the source. */
  ghost predicate ColorsAsIntended(r: Paint, lines: seq<Edge>, v: nat, ts: seq<nat>) {
    && (forall e :: e in r.edges ==>
          r.edges[e] == if e.0 == v && e.1 in ts then Direct else if e.1 in ts then LastHop else FirstHop)
    && (forall x :: x in r.nodes ==>
          r.nodes[x] == if x == v then Source else if x in ts then Target else Indirect)
  }

  /** In an ascending graph this is what comes out, whatever earlier channels left in EXT. */
  lemma AscendingColors(nodes: set<nat>, lines: seq<Edge>, v: nat, ts: seq<nat>, ext: seq<nat>, rank: nat -> int)
    requires WellFormed(nodes, lines, v, ts) && Ascending(lines, ts, rank)
    ensures ColorsAsIntended(Result(nodes, lines, v, ts, ext), lines, v, ts)
  {
    ResultEdges(nodes, lines, v, ts, ext);
    ResultNodeColors(nodes, lines, v, ts, ext);
  }

  /** With upgrades that only go up, the pruning is exact, direct edges are direct, and every target within two hops ends
      in the target colour. */
  lemma AscendingGraph(nodes: set<nat>, lines: seq<Edge>, v: nat, ts: seq<nat>, rank: nat -> int)
    requires WellFormed(nodes, lines, v, ts) && Ascending(lines, ts, rank)
    ensures var r := Result(nodes, lines, v, ts, []);
            && (forall e :: e in r.edges <==> OnPath(lines, v, ts, e))
            && (forall t :: t in ts && (v, t) in lines ==> (v, t) in r.edges && r.edges[(v, t)] == Direct)
            && (forall t :: t in ts && ((v, t) in lines || exists n :: Middle(lines, v, n, t)) ==>
                  t in r.nodes && r.nodes[t] == Target)
  {
    var r := Result(nodes, lines, v, ts, []);
    EdgesExact(nodes, lines, v, ts, []);
    forall t | t in ts && (v, t) in lines
      ensures (v, t) in r.edges && r.edges[(v, t)] == Direct
    {
      DirectEdgeKeepsColor(nodes, lines, v, ts, [], t);
    }
    var ns := Successors(lines, v);
    forall t | t in ts && ((v, t) in lines || exists n :: Middle(lines, v, n, t))
      ensures t in r.nodes && r.nodes[t] == Target
    {
      if (v, t) !in lines {
        var n :| Middle(lines, v, n, t);
        assert n in ns && Serves(lines, v, ns, n, t);
      }
      var i :| 0 <= i < |ts| && ts[i] == t;
      TargetColorExact(nodes, lines, v, ts, [], i);
    }
  }

  /** Two self-loops that break exactness: one at a target, one at the source when it is listed last. */
  lemma SelfLoopsAreLost()
    ensures var lines := [(0, 1), (1, 1)];
            OnPath(lines, 0, [1], (1, 1)) && (1, 1) !in Result({0, 1}, lines, 0, [1], []).edges
    ensures var lines := [(0, 1), (0, 0)];
            OnPath(lines, 0, [1], (0, 0)) && (0, 0) !in Result({0, 1}, lines, 0, [1], []).edges
  {
    TargetLoopIsLost({0, 1}, [(0, 1), (1, 1)], 0, [1], [], 1);
    SourceLoopIsLost();
  }

  lemma SourceLoopIsLost()
    ensures var lines := [(0, 1), (0, 0)];
            OnPath(lines, 0, [1], (0, 0)) && (0, 0) !in Result({0, 1}, lines, 0, [1], []).edges
  {
    var lines: seq<Edge> := [(0, 1), (0, 0)];
    var ns := Successors(lines, 0);
    assert lines[..1] == [(0, 1)] && [(0, 1)][..0] == [];
    assert ns == [1, 0] && Precedes(ns, 1, 0) by {
      assert Successors([(0, 1)], 0) == [1];
      assert ns[0] == 1 && ns[1] == 0;
    }
    assert !Spread(lines, 0, ns, [1], 0);
    ResultEdges({0, 1}, lines, 0, [1], []);
    assert Middle(lines, 0, 0, 1) && 1 in [1];
  }
}
