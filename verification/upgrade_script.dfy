/** The `colorize` function of the upgrade-path script in the form of its source: global arrays, nested loops,
    and .gv files edited in place, one per channel. */
module UpgradeScript {
  import opened UpgradeGraph

  /** What the API answered for one channel: node positions by version, edge lines in order, sorted target versions. */
  datatype Channel = Channel(name: string, positions: map<string, nat>, lines: seq<Edge>, targets: seq<string>) {
    function Nodes(): set<nat> {
      set version | version in positions :: positions[version]
    }

    /** The positions of the targets, in visiting order; a target without a node is passed over. */
    function TargetPositions(): seq<nat> {
      Positions(positions, targets)
    }

    predicate Skipped(ver: string) {
      ver !in positions || targets == []
    }

    function Source(ver: string): nat
      requires ver in positions
    {
      positions[ver]
    }

    /** The .gv file as `json2gv` leaves it. */
    function Drawn(ver: string, ext: seq<nat>): Paint {
      if ver in positions then Blank(Nodes(), lines, positions[ver], ext)
      else Paint(map x | x in Nodes() :: Unmarked, map e | e in lines :: Plain, ext)
    }

    /** No version and no edge twice, edges between listed nodes, targets sorted without repetition. */
    predicate Valid() {
      && NoDuplicates(lines) && NoDuplicates(targets)
      && (forall a, b :: a in positions && b in positions && positions[a] == positions[b] ==> a == b)
      && (forall e :: e in lines ==> e.0 in Nodes() && e.1 in Nodes())
    }
  }

  function Positions(positions: map<string, nat>, targets: seq<string>): (ts: seq<nat>)
    ensures forall t :: t in ts <==> exists version :: version in targets && version in positions && positions[version] == t
  {
    if targets == [] then []
    else
      var last := targets[|targets| - 1];
      Positions(positions, targets[..|targets| - 1]) + (if last in positions then [positions[last]] else [])
  }

  lemma {:induction false} PositionsDistinct(positions: map<string, nat>, targets: seq<string>)
    requires NoDuplicates(targets)
    requires forall a, b :: a in positions && b in positions && positions[a] == positions[b] ==> a == b
    ensures NoDuplicates(Positions(positions, targets))
    decreases |targets|
  {
    if targets != [] {
      var init, last := targets[..|targets| - 1], targets[|targets| - 1];
      PositionsDistinct(positions, init);
      assert last !in init;
      assert last in positions ==> positions[last] !in Positions(positions, init);
    }
  }

  /** The targets are visited in the order in which they are listed. */
  lemma {:induction false} PositionsOrder(positions: map<string, nat>, targets: seq<string>, i: nat, j: nat)
    requires i < j < |targets| && targets[i] in positions && targets[j] in positions
    ensures Precedes(Positions(positions, targets), positions[targets[i]], positions[targets[j]])
    decreases |targets|
  {
    var n := |targets| - 1;
    var init, last := targets[..n], targets[n];
    var ts := Positions(positions, init);
    if last in positions {
      PrecedesSnoc(ts, positions[last], positions[targets[i]], positions[targets[j]]);
    } else {
      assert Positions(positions, targets) == ts;
    }
    if j < n {
      PositionsOrder(positions, init, i, j);
    } else {
      assert init[i] in init;
    }
  }

  lemma ChannelWellFormed(chan: Channel, ver: string)
    requires chan.Valid() && ver in chan.positions
    ensures WellFormed(chan.Nodes(), chan.lines, chan.Source(ver), chan.TargetPositions())
  {
    PositionsDistinct(chan.positions, chan.targets);
  }

  // ---------------------------------------------------------------- all channels

  /** The EXT array after one more channel. */
  function ExtNext(chan: Channel, ver: string, ext: seq<nat>): seq<nat> {
    if chan.Skipped(ver) then ext
    else
      PaintTargets(chan.Drawn(ver, ext), chan.Source(ver), chan.TargetPositions(), Successors(chan.lines, chan.Source(ver))).ext
  }

  /** The EXT array after the given channels: it is never reset between them. */
  function ExtAfter(chans: seq<Channel>, ver: string): seq<nat> {
    if chans == [] then [] else ExtNext(chans[|chans| - 1], ver, ExtAfter(chans[..|chans| - 1], ver))
  }

  /** The RES array after the given channels. */
  function Kept(chans: seq<Channel>, ver: string): seq<string> {
    if chans == [] then []
    else Kept(chans[..|chans| - 1], ver) + (if chans[|chans| - 1].Skipped(ver) then [] else [chans[|chans| - 1].name])
  }

  lemma AfterOneMore(chans: seq<Channel>, ver: string, i: nat)
    requires i < |chans|
    ensures ExtAfter(chans[..i + 1], ver) == ExtNext(chans[i], ver, ExtAfter(chans[..i], ver))
    ensures Kept(chans[..i + 1], ver) == Kept(chans[..i], ver) + (if chans[i].Skipped(ver) then [] else [chans[i].name])
  {
    assert chans[..i + 1][..i] == chans[..i];
  }

  /** The final graph of one channel, given what EXT holds. */
  function ColorizedFrom(chan: Channel, ver: string, ext: seq<nat>): Paint {
    if chan.Skipped(ver) then chan.Drawn(ver, ext)
    else Result(chan.Nodes(), chan.lines, chan.Source(ver), chan.TargetPositions(), ext)
  }

  /** The final graph of channel `i`. */
  function Colorized(chans: seq<Channel>, ver: string, i: nat): Paint
    requires i < |chans|
  {
    ColorizedFrom(chans[i], ver, ExtAfter(chans[..i], ver))
  }

  // ---------------------------------------------------------------- the script

  class GvFile {
    const chan: Channel
    var nodes: map<nat, NodeColor>
    var edges: map<Edge, EdgeColor>

    constructor (chan: Channel, ver: string)
      ensures this.chan == chan && Draws(ver)
    {
      this.chan := chan;
      var drawn := chan.Drawn(ver, []);
      nodes, edges := drawn.nodes, drawn.edges;
    }

    ghost predicate Draws(ver: string)
      reads this
    {
      Paint(nodes, edges, []) == chan.Drawn(ver, [])
    }

    ghost predicate Paints(p: Paint)
      reads this
    {
      nodes == p.nodes && edges == p.edges
    }

    /** `sed` on the node line of `x`. */
    method SedNode(x: nat, c: NodeColor)
      modifies this
      ensures nodes == RecolorNode(old(nodes), x, c) && edges == old(edges)
    {
      if x in nodes {
        nodes := nodes[x := c];
      }
    }

    /** `sed` on the edge line `e`; it matches only while the line still ends in a bare semicolon. */
    method SedEdge(e: Edge, c: EdgeColor)
      modifies this
      ensures edges == Recolor(old(edges), e, c) && nodes == old(nodes)
    {
      if e in edges && edges[e].Plain? {
        edges := edges[e := c];
      }
    }

    /** Deletes the lines that kept their default colour. */
    method Cleanup(ghost ext: seq<nat>)
      modifies this
      ensures Paint(nodes, edges, ext) == Prune(Paint(old(nodes), old(edges), ext))
    {
      nodes := map x | x in nodes && !nodes[x].Unmarked? :: nodes[x];
      edges := map e | e in edges && !edges[e].Plain? :: edges[e];
    }
  }

  class Script {
    var ind: seq<nat>
    var ext: seq<nat>
    var res: seq<string>

    constructor ()
      ensures ext == []
    {
      ind, ext, res := [], [], [];
    }

    ghost function View(file: GvFile): Paint
      reads this, file
    {
      Paint(file.nodes, file.edges, ext)
    }

    /** Captures the outgoing edges of the source. */
    method CaptureOutgoing(lines: seq<Edge>, posV: nat)
      modifies this`ind
      ensures ind == Successors(lines, posV)
    {
      ind := [];
      for i := 0 to |lines|
        invariant ind == Successors(lines[..i], posV)
      {
        assert lines[..i + 1][..i] == lines[..i];
        if lines[i].0 == posV {
          ind := ind + [lines[i].1];
        }
      }
      assert lines[..|lines|] == lines;
    }

    /** One target against every captured node. */
    method ColorizeTarget(file: GvFile, posV: nat, posT: nat)
      modifies file, this`ext
      ensures View(file) == PaintTarget(old(View(file)), posV, posT, ind)
    {
      ghost var before := View(file);
      for j := 0 to |ind|
        invariant View(file) == PaintTarget(before, posV, posT, ind[..j])
      {
        assert ind[..j + 1][..j] == ind[..j];
        var node := ind[j];
        if node == posT {
          file.SedEdge((posV, posT), Direct);
          file.SedNode(posT, Target);
          continue;
        }
        if (node, posT) in file.edges && file.edges[(node, posT)].Plain? {
          file.SedNode(node, Indirect);
          file.SedEdge((node, posT), LastHop);
          file.SedNode(posT, Target);
          ext := ext + [node];
        }
      }
      assert ind[..|ind|] == ind;
    }

    /** The loop over the targets. */
    method ColorizeTargets(file: GvFile, posV: nat)
      modifies file, this`ext
      ensures View(file) == PaintTargets(old(View(file)), posV, file.chan.TargetPositions(), ind)
    {
      ghost var before := View(file);
      var targets, positions := file.chan.targets, file.chan.positions;
      for i := 0 to |targets|
        invariant View(file) == PaintTargets(before, posV, Positions(positions, targets[..i]), ind)
      {
        assert targets[..i + 1][..i] == targets[..i];
        ghost var done := Positions(positions, targets[..i]);
        ghost var next := Positions(positions, targets[..i + 1]);
        assert next == done + (if targets[i] in positions then [positions[targets[i]]] else []);
        if targets[i] in positions {
          PaintTargetsSnoc(before, posV, done, positions[targets[i]], ind);
          ColorizeTarget(file, posV, positions[targets[i]]);
        } else {
          assert done + [] == done;
        }
      }
      assert targets[..|targets|] == targets;
    }

    /** The loop over EXT that colours the remaining source edges. */
    method ColorizeSourceEdges(file: GvFile, posV: nat)
      modifies file
      ensures file.nodes == old(file.nodes) && file.edges == PaintFirstHops(old(file.edges), posV, ext)
    {
      ghost var before := file.edges;
      for j := 0 to |ext|
        invariant file.nodes == old(file.nodes) && file.edges == PaintFirstHops(before, posV, ext[..j])
      {
        assert ext[..j + 1][..j] == ext[..j];
        file.SedEdge((posV, ext[j]), FirstHop);
      }
      assert ext[..|ext|] == ext;
    }

    /** One channel that has the source and some targets. */
    method ColorizeFile(file: GvFile, ver: string)
      requires !file.chan.Skipped(ver)
      modifies file, this`ind, this`ext
      ensures View(file) == ColorizeChannel(old(View(file)), file.chan.lines, file.chan.Source(ver), file.chan.TargetPositions())
      ensures ext == PaintTargets(old(View(file)), file.chan.Source(ver), file.chan.TargetPositions(),
                                  Successors(file.chan.lines, file.chan.Source(ver))).ext
    {
      var posV := file.chan.positions[ver];
      CaptureOutgoing(file.chan.lines, posV);
      ColorizeTargets(file, posV);
      ColorizeSourceEdges(file, posV);
      file.Cleanup(ext);
    }

    /** One round of the loop over the channels. */
    method ColorizeOrSkip(file: GvFile, ver: string) returns (kept: bool)
      requires file.Draws(ver)
      modifies file, this`ind, this`ext
      ensures file.Paints(ColorizedFrom(file.chan, ver, old(ext)))
      ensures ext == ExtNext(file.chan, ver, old(ext)) && kept == !file.chan.Skipped(ver)
    {
      if ver !in file.chan.positions || file.chan.targets == [] {
        return false;
      }
      assert View(file) == file.chan.Drawn(ver, ext);
      ColorizeFile(file, ver);
      return true;
    }

    /** The same for the `i`-th of the files; a channel that takes part is recorded in RES. */
    method ColorizeRound(files: seq<GvFile>, i: nat, ver: string)
      requires i < |files| && files[i].Draws(ver)
      requires ext == ExtAfter(Channels(files)[..i], ver) && res == Kept(Channels(files)[..i], ver)
      modifies files[i], this
      ensures files[i].Paints(Colorized(Channels(files), ver, i))
      ensures ext == ExtAfter(Channels(files)[..i + 1], ver) && res == Kept(Channels(files)[..i + 1], ver)
    {
      AfterOneMore(Channels(files), ver, i);
      var kept := ColorizeOrSkip(files[i], ver);
      if kept {
        res := res + [files[i].chan.name];
      }
    }

    /** The first `n` files are done, the others still as drawn. */
    ghost predicate Halfway(files: seq<GvFile>, ver: string, n: nat)
      requires n <= |files|
      reads files
    {
      && (forall k :: 0 <= k < n ==> files[k].Paints(Colorized(Channels(files), ver, k)))
      && (forall k :: n <= k < |files| ==> files[k].Draws(ver))
    }

    /** The whole function: every file ends as the paint of its channel says, given what earlier channels left in EXT;
        `ok` is false when no channel is left and the script aborts. */
    method Colorize(files: seq<GvFile>, ver: string) returns (ok: bool)
      requires NoDuplicates(files) && ext == []
      requires forall i :: 0 <= i < |files| ==> files[i].Draws(ver)
      modifies this, files
      ensures var chans := Channels(files);
              && (forall i :: 0 <= i < |files| ==> files[i].Paints(Colorized(chans, ver, i)))
              && ext == ExtAfter(chans, ver) && res == Kept(chans, ver)
              && (ok <==> Kept(chans, ver) != [])
    {
      ghost var chans := Channels(files);
      res := [];
      for i := 0 to |files|
        invariant ext == ExtAfter(chans[..i], ver) && res == Kept(chans[..i], ver)
        invariant Halfway(files, ver, i)
      {
        assert forall k :: 0 <= k < |files| && k != i ==> files[k] != files[i];
        ColorizeRound(files, i, ver);
      }
      assert chans[..|files|] == chans;
      ok := res != [];
    }
  }

  ghost function Channels(files: seq<GvFile>): seq<Channel> {
    seq(|files|, i requires 0 <= i < |files| => files[i].chan)
  }

  // ---------------------------------------------------------------- which channels come out exact

  /** A channel comes out with exactly its paths if and only if no self-loop hides on them and the intermediates of
      earlier channels lead onto them. */
  lemma ChannelExact(chans: seq<Channel>, ver: string, i: nat)
    requires i < |chans| && chans[i].Valid() && !chans[i].Skipped(ver)
    ensures var chan := chans[i];
            var v, ts, ext := chan.Source(ver), chan.TargetPositions(), ExtAfter(chans[..i], ver);
            (forall e :: e in Colorized(chans, ver, i).edges <==> OnPath(chan.lines, v, ts, e)) <==>
            LoopsHarmless(chan.lines, v, ts, ext) && LeftoversHarmless(chan.lines, v, ts, ext)
  {
    ChannelWellFormed(chans[i], ver);
    EdgesExact(chans[i].Nodes(), chans[i].lines, chans[i].Source(ver), chans[i].TargetPositions(), ExtAfter(chans[..i], ver));
  }

  /** EXT lists, over all channels so far, exactly the nodes that served as an intermediate in one of them. */
  lemma {:induction false} ExtIsAllIntermediates(chans: seq<Channel>, ver: string, n: nat)
    requires forall k :: 0 <= k < |chans| ==> chans[k].Valid()
    ensures n in ExtAfter(chans, ver) <==> exists k :: 0 <= k < |chans| && Intermediate(chans[k], ver, n)
    decreases |chans|
  {
    if chans != [] {
      var init, last := chans[..|chans| - 1], chans[|chans| - 1];
      ExtIsAllIntermediates(init, ver, n);
      ExtOfChannel(last, ver, ExtAfter(init, ver), n);
      assert forall k :: 0 <= k < |init| ==> init[k] == chans[k];
    }
  }

  ghost predicate Intermediate(chan: Channel, ver: string, n: nat) {
    !chan.Skipped(ver) &&
    Spread(chan.lines, chan.Source(ver), Successors(chan.lines, chan.Source(ver)), chan.TargetPositions(), n)
  }

  lemma ExtOfChannel(chan: Channel, ver: string, ext: seq<nat>, n: nat)
    requires chan.Valid()
    ensures n in ExtNext(chan, ver, ext) <==> n in ext || Intermediate(chan, ver, n)
  {
    if !chan.Skipped(ver) {
      ChannelWellFormed(chan, ver);
      var v := chan.Source(ver);
      var ns := Successors(chan.lines, v);
      SuccessorsDistinct(chan.lines, v);
      forall m | m in ns
        ensures m in chan.Nodes()
      {
        assert (v, m) in chan.lines;
      }
      PaintTargetsEffect(chan.Drawn(ver, ext), chan.lines, v, chan.TargetPositions(), ns);
    }
  }

  /** Every edge of the channel goes up in the version order `rank`, and its targets are listed from the top down. */
  ghost predicate AscendingChannel(chan: Channel, rank: nat -> int) {
    && (forall e :: e in chan.lines ==> rank(e.0) < rank(e.1))
    && (forall i, j :: 0 <= i < j < |chan.targets| && chan.targets[i] in chan.positions && chan.targets[j] in chan.positions ==>
          rank(chan.positions[chan.targets[i]]) > rank(chan.positions[chan.targets[j]]))
  }

  /** Then they are visited from the top down. */
  lemma {:induction false} VisitedDescending(positions: map<string, nat>, targets: seq<string>, rank: nat -> int)
    requires forall i, j :: 0 <= i < j < |targets| && targets[i] in positions && targets[j] in positions ==>
               rank(positions[targets[i]]) > rank(positions[targets[j]])
    ensures Descending(Positions(positions, targets), rank)
    decreases |targets|
  {
    if targets != [] {
      var n := |targets| - 1;
      var init, ts := targets[..n], Positions(positions, targets);
      var before := Positions(positions, init);
      VisitedDescending(positions, init, rank);
      forall i, j | 0 <= i < j < |ts|
        ensures rank(ts[i]) > rank(ts[j])
      {
        if j < |before| {
          assert ts[i] == before[i] && ts[j] == before[j];
        } else {
          assert ts[i] == before[i] && ts[i] in before && targets[n] in positions;
          var version :| version in init && version in positions && positions[version] == ts[i];
          var k :| 0 <= k < n && init[k] == version;
          assert targets[k] == version && ts[j] == positions[targets[n]];
          assert rank(positions[targets[k]]) > rank(positions[targets[n]]);
        }
      }
    }
  }

  /** With upgrades that only go up, every channel comes out in the intended colours: in particular each target within two
      hops of the source is there in the target colour, whatever earlier channels left in EXT. */
  lemma AscendingScript(chans: seq<Channel>, ver: string, i: nat, rank: nat -> int)
    requires i < |chans| && chans[i].Valid() && !chans[i].Skipped(ver) && AscendingChannel(chans[i], rank)
    ensures var chan, r := chans[i], Colorized(chans, ver, i);
            var v := chan.Source(ver);
            && ColorsAsIntended(r, chan.lines, v, chan.TargetPositions())
            && v in r.nodes && r.nodes[v] == Source
            && (forall t :: t in chan.targets && t in chan.positions && WithinTwoHops(chan.lines, v, chan.positions[t]) ==>
                  chan.positions[t] in r.nodes && r.nodes[chan.positions[t]] == Target)
  {
    var chan := chans[i];
    var v, ts, ext := chan.Source(ver), chan.TargetPositions(), ExtAfter(chans[..i], ver);
    ChannelWellFormed(chan, ver);
    VisitedDescending(chan.positions, chan.targets, rank);
    AscendingColors(chan.Nodes(), chan.lines, v, ts, ext, rank);
    NodesExact(chan.Nodes(), chan.lines, v, ts, ext);
    forall t | t in chan.targets && t in chan.positions && WithinTwoHops(chan.lines, v, chan.positions[t])
      ensures chan.positions[t] in Colorized(chans, ver, i).nodes && chan.positions[t] != v && chan.positions[t] in ts
    {
      ReachedTarget(chan.lines, v, ts, chan.positions[t], rank);
    }
  }

  ghost predicate WithinTwoHops(lines: seq<Edge>, v: nat, t: nat) {
    (v, t) in lines || exists n :: Middle(lines, v, n, t)
  }

  lemma ReachedTarget(lines: seq<Edge>, v: nat, ts: seq<nat>, t: nat, rank: nat -> int)
    requires t in ts && WithinTwoHops(lines, v, t) && forall e :: e in lines ==> rank(e.0) < rank(e.1)
    ensures t != v && exists e :: e in lines && OnPath(lines, v, ts, e) && t == e.1
  {
    if (v, t) in lines {
      assert OnPath(lines, v, ts, (v, t));
    } else {
      var n :| Middle(lines, v, n, t);
      assert OnPath(lines, v, ts, (n, t));
    }
  }

  // ---------------------------------------------------------------- which channels are skipped

  /** A channel takes part exactly if it knows the version and has targets. One that does not is left as it was drawn: all
      its nodes and edges, no edge coloured and no node but the source; and it adds nothing to EXT. */
  lemma SkippedExact(chans: seq<Channel>, ver: string, i: nat)
    requires i < |chans| && !(ver in chans[i].positions && chans[i].targets != [])
    ensures var chan, r := chans[i], Colorized(chans, ver, i);
            && (forall e :: e in r.edges <==> e in chan.lines) && (forall e :: e in r.edges ==> r.edges[e] == Plain)
            && (forall x :: x in r.nodes <==> exists version :: version in chan.positions && chan.positions[version] == x)
            && (forall x :: x in r.nodes ==>
                  r.nodes[x] == if ver in chan.positions && x == chan.positions[ver] then Source else Unmarked)
            && ExtAfter(chans[..i + 1], ver) == ExtAfter(chans[..i], ver)
  {
    AfterOneMore(chans, ver, i);
  }

  /** The channels that know the version and have targets. */
  function Chosen(chans: seq<Channel>, ver: string): (r: seq<nat>)
    ensures forall a, b :: 0 <= a < b < |r| ==> r[a] < r[b]
    ensures forall k :: 0 <= k < |r| ==> r[k] < |chans| && ver in chans[r[k]].positions && chans[r[k]].targets != []
    ensures forall i :: 0 <= i < |chans| && ver in chans[i].positions && chans[i].targets != [] ==> i in r
  {
    if chans == [] then []
    else
      var n := |chans| - 1;
      Chosen(chans[..n], ver) + if ver in chans[n].positions && chans[n].targets != [] then [n] else []
  }

  /** RES lists the names of exactly these, in their order. */
  lemma {:induction false} KeptExact(chans: seq<Channel>, ver: string)
    ensures |Kept(chans, ver)| == |Chosen(chans, ver)|
    ensures forall k :: 0 <= k < |Chosen(chans, ver)| ==> Kept(chans, ver)[k] == chans[Chosen(chans, ver)[k]].name
    decreases |chans|
  {
    if chans != [] {
      KeptExact(chans[..|chans| - 1], ver);
    }
  }

  /** The first channel: nothing is left over yet. */
  lemma FirstChannelExact(chans: seq<Channel>, ver: string)
    requires chans != [] && chans[0].Valid() && !chans[0].Skipped(ver)
    requires forall e :: e in chans[0].lines ==> e.0 != e.1
    ensures var chan := chans[0];
            forall e :: e in Colorized(chans, ver, 0).edges <==> OnPath(chan.lines, chan.Source(ver), chan.TargetPositions(), e)
  {
    ChannelExact(chans, ver, 0);
    assert chans[..0] == [];
  }

  /** A channel with a source, a possible intermediate and a target. */
  function Sample(lines: seq<Edge>): Channel {
    Channel("sample", map["s" := 0, "i" := 1, "t" := 2], lines, ["t"])
  }

  lemma SampleShape(lines: seq<Edge>)
    requires NoDuplicates(lines) && forall e :: e in lines ==> e.0 <= 2 && e.1 <= 2
    ensures var chan := Sample(lines);
            chan.Valid() && !chan.Skipped("s") && chan.Source("s") == 0 && chan.TargetPositions() == [2]
  {
    var chan := Sample(lines);
    TargetIsTwo(chan.positions);
    assert "s" in chan.positions && "i" in chan.positions && "t" in chan.positions;
    assert 0 in chan.Nodes() && 1 in chan.Nodes() && 2 in chan.Nodes();
  }

  /** A later channel need not be exact: node 1 served in the first channel, so its edge survives in the second,
      where it leads nowhere, and the node line itself is gone. */
  lemma LeftoverLeaks()
    ensures var a, b := Sample([(0, 1), (1, 2)]), Sample([(0, 1), (0, 2)]);
            !OnPath(b.lines, 0, [2], (0, 1)) &&
            (0, 1) in Colorized([a, b], "s", 1).edges && 1 !in Colorized([a, b], "s", 1).nodes
  {
    var a, b := Sample([(0, 1), (1, 2)]), Sample([(0, 1), (0, 2)]);
    SampleShape(b.lines);
    assert [a, b][..1] == [a];
    LeftoverInExt(a);
    LeftoverSurvives(b, ExtAfter([a], "s"));
    NotOnPath(b.lines);
  }

  lemma NotOnPath(lines: seq<Edge>)
    requires (1, 2) !in lines
    ensures !OnPath(lines, 0, [2], (0, 1))
  {
  }

  lemma LeftoverInExt(a: Channel)
    requires a == Sample([(0, 1), (1, 2)])
    ensures 1 in ExtAfter([a], "s")
  {
    SampleShape(a.lines);
    assert Serves(a.lines, 0, Successors(a.lines, 0), 1, 2);
    assert 2 in a.TargetPositions();
    assert Intermediate(a, "s", 1);
    assert [a][0] == a;
    ExtIsAllIntermediates([a], "s", 1);
  }

  lemma LeftoverSurvives(b: Channel, ext: seq<nat>)
    requires b.Valid() && !b.Skipped("s") && b.Source("s") == 0 && b.TargetPositions() == [2]
    requires (0, 1) in b.lines && (1, 2) !in b.lines && 1 in ext
    ensures (0, 1) in ColorizedFrom(b, "s", ext).edges && 1 !in ColorizedFrom(b, "s", ext).nodes
  {
    ChannelWellFormed(b, "s");
    LeftoverEdge(b.Nodes(), b.lines, ext);
  }

  lemma LeftoverEdge(nodes: set<nat>, lines: seq<Edge>, ext: seq<nat>)
    requires WellFormed(nodes, lines, 0, [2]) && (0, 1) in lines && (1, 2) !in lines && 1 in ext
    ensures (0, 1) in Result(nodes, lines, 0, [2], ext).edges && 1 !in Result(nodes, lines, 0, [2], ext).nodes
  {
    ResultEdges(nodes, lines, 0, [2], ext);
    ResultNodes(nodes, lines, 0, [2], ext);
  }

  lemma TargetIsTwo(positions: map<string, nat>)
    requires "t" in positions && positions["t"] == 2
    ensures Positions(positions, ["t"]) == [2]
  {
  }
}
