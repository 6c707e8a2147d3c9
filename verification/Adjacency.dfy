/** Forward and reverse adjacency of the import graph (src/graph.rs, graph_signals). */
module Adjacency {
  import opened Orders
  import opened GraphModel
  import opened Topology

  function FilesAt(files: seq<Path>, indices: seq<nat>): seq<Path>
    requires forall k :: 0 <= k < |indices| ==> indices[k] < |files|
  {
    seq(|indices|, k requires 0 <= k < |indices| => files[indices[k]])
  }

  function LabelOf(t: Topology): Edge -> string {
    e => if e in t.edgeResolvers then t.edgeResolvers[e] else "heuristic"
  }

  function Flipped(tag: Edge -> string): Edge -> string {
    (e: Edge) => tag((e.1, e.0))
  }

  // ---------- One side of the adjacency ----------

  /** The resolvers recorded at i name exactly the far ends of its edges, with their labels. */
  ghost predicate Labelled(files: seq<Path>, edges: seq<Edge>, tag: Edge -> string, i: nat,
                           resolvers: map<Path, string>)
    requires InBounds(edges, |files|)
  {
    && (forall p :: p in resolvers ==> exists j :: (i, j) in edges && files[j] == p)
    && (forall j :: (i, j) in edges ==> files[j] in resolvers && resolvers[files[j]] == tag((i, j)))
  }

  /** The finished side: a strictly sorted list of the far ends, labelled. */
  ghost predicate SideAt(files: seq<Path>, edges: seq<Edge>, tag: Edge -> string, i: nat,
                         list: seq<Path>, resolvers: map<Path, string>)
    requires InBounds(edges, |files|)
  {
    && StrictlySorted(list)
    && |list| == |Heads(edges, i)|
    && (forall p :: p in list <==> exists j :: (i, j) in edges && files[j] == p)
    && resolvers.Keys == Elements(list)
    && Labelled(files, edges, tag, i, resolvers)
  }

  lemma ReversedInBounds(edges: seq<Edge>, n: nat)
    requires InBounds(edges, n)
    ensures InBounds(Reversed(edges), n)
  {
    ReversedEdges(edges);
    forall e | e in Reversed(edges)
      ensures e.0 < n && e.1 < n
    {
      assert (e.0, e.1) == e;
      assert (e.1, e.0) in edges;
    }
  }

  /** Sorting the far ends of i completes its side. */
  lemma SortedSide(files: seq<Path>, edges: seq<Edge>, tag: Edge -> string, i: nat, resolvers: map<Path, string>)
    requires StrictlySorted(files) && InBounds(edges, |files|) && Distinct(edges)
    requires Labelled(files, edges, tag, i, resolvers)
    requires forall k :: 0 <= k < |Heads(edges, i)| ==> Heads(edges, i)[k] < |files|
    ensures SideAt(files, edges, tag, i, Sort(FilesAt(files, Heads(edges, i)), PathLe), resolvers)
  {
    hide Sorted, Sort, Labelled, PathLe, TotalPreorder;
    var raw := FilesAt(files, Heads(edges, i));
    var list := Sort(raw, PathLe);
    PathOrder();
    SortPermutes(raw, PathLe);
    SortSorted(raw, PathLe);
    FarEnds(files, edges, i, raw);
    DistinctByMultiset(raw, list);
    LabelsAreFarEnds(files, edges, tag, i, list, resolvers);
  }

  lemma LabelsAreFarEnds(files: seq<Path>, edges: seq<Edge>, tag: Edge -> string, i: nat, list: seq<Path>,
                         resolvers: map<Path, string>)
    requires InBounds(edges, |files|) && Labelled(files, edges, tag, i, resolvers)
    requires forall p :: p in list <==> exists j :: (i, j) in edges && files[j] == p
    ensures resolvers.Keys == Elements(list)
  {
  }

  lemma FarEnds(files: seq<Path>, edges: seq<Edge>, i: nat, raw: seq<Path>)
    requires Distinct(files) && InBounds(edges, |files|) && Distinct(edges)
    requires forall k :: 0 <= k < |Heads(edges, i)| ==> Heads(edges, i)[k] < |files|
    requires raw == FilesAt(files, Heads(edges, i))
    ensures Distinct(raw) && forall p :: p in raw <==> exists j :: (i, j) in edges && files[j] == p
  {
    var heads := Heads(edges, i);
    HeadsAreEdges(edges, i);
    assert Distinct(raw);
    forall p
      ensures p in raw <==> exists j :: (i, j) in edges && files[j] == p
    {
      if p in raw {
        var k :| 0 <= k < |raw| && raw[k] == p;
        assert heads[k] in heads;
      }
      if j :| (i, j) in edges && files[j] == p {
        var k :| 0 <= k < |heads| && heads[k] == j;
        assert raw[k] == p;
      }
    }
  }

  lemma LabelStep(files: seq<Path>, edges: seq<Edge>, tag: Edge -> string, i: nat, resolvers: map<Path, string>,
                  e: Edge)
    requires Distinct(files) && InBounds(edges, |files|) && e.0 < |files| && e.1 < |files|
    requires Labelled(files, edges, tag, i, resolvers)
    ensures Labelled(files, edges + [e], tag, i, if e.0 == i then resolvers[files[e.1] := tag(e)] else resolvers)
  {
    var all := edges + [e];
    assert forall j :: (i, j) in all <==> (i, j) in edges || (i, j) == e;
    assert e == (e.0, e.1);
  }

  // ---------- The whole graph ----------

  ghost predicate SignalAt(u: Universe, t: Topology, i: nat, s: FileSignal)
    requires ValidTopology(u, t)
  {
    ReversedInBounds(t.edges, |u.files|);
    && SideAt(u.files, t.edges, LabelOf(t), i, s.dependencies, s.dependencyResolvers)
    && SideAt(u.files, Reversed(t.edges), Flipped(LabelOf(t)), i, s.dependents, s.dependentResolvers)
    && s.fanOut == |s.dependencies| && s.fanIn == |s.dependents|
  }

  ghost predicate SignalsOf(u: Universe, t: Topology, g: GraphSignals)
    requires ValidTopology(u, t)
  {
    && g.files.Keys == Elements(u.files)
    && (forall i :: 0 <= i < |u.files| ==> SignalAt(u, t, i, g.files[u.files[i]]))
    && g.unresolvedImports == t.unresolvedImports
  }

  datatype Side = Side(list: seq<Path>, resolvers: map<Path, string>)

  /** The side of i after the first k edges. */
  ghost predicate Collected(files: seq<Path>, edges: seq<Edge>, tag: Edge -> string, i: nat, side: Side)
    requires InBounds(edges, |files|)
  {
    && (forall k :: 0 <= k < |Heads(edges, i)| ==> Heads(edges, i)[k] < |files|)
    && side.list == FilesAt(files, Heads(edges, i))
    && Labelled(files, edges, tag, i, side.resolvers)
  }

  lemma CollectedStep(files: seq<Path>, edges: seq<Edge>, tag: Edge -> string, i: nat, side: Side, e: Edge)
    requires Distinct(files) && InBounds(edges, |files|) && e.0 < |files| && e.1 < |files|
    requires Collected(files, edges, tag, i, side)
    ensures InBounds(edges + [e], |files|)
    ensures Collected(files, edges + [e], tag, i,
                      if e.0 == i then Side(side.list + [files[e.1]], side.resolvers[files[e.1] := tag(e)]) else side)
  {
    LabelStep(files, edges, tag, i, side.resolvers, e);
    assert (edges + [e])[..|edges|] == edges;
  }

  ghost predicate AllCollected(files: seq<Path>, edges: seq<Edge>, tag: Edge -> string, sides: seq<Side>)
  {
    InBounds(edges, |files|) && |sides| == |files|
    && forall i :: 0 <= i < |files| ==> Collected(files, edges, tag, i, sides[i])
  }

  lemma AllCollectedStep(files: seq<Path>, edges: seq<Edge>, tag: Edge -> string, sides: seq<Side>, e: Edge)
    requires Distinct(files) && e.0 < |files| && e.1 < |files|
    requires AllCollected(files, edges, tag, sides)
    ensures AllCollected(files, edges + [e], tag,
                         sides[e.0 := Side(sides[e.0].list + [files[e.1]], sides[e.0].resolvers[files[e.1] := tag(e)])])
  {
    hide Collected;
    var after := sides[e.0 := Side(sides[e.0].list + [files[e.1]], sides[e.0].resolvers[files[e.1] := tag(e)])];
    assert InBounds(edges + [e], |files|);
    forall i | 0 <= i < |files|
      ensures Collected(files, edges + [e], tag, i, after[i])
    {
      CollectedStep(files, edges, tag, i, sides[i], e);
    }
  }

  lemma NothingCollected(files: seq<Path>, tag: Edge -> string)
    ensures AllCollected(files, [], tag, seq(|files|, _ => Side([], map[])))
  {
  }

  lemma ReversedStep(edges: seq<Edge>, k: nat)
    requires k < |edges|
    ensures edges[..k + 1] == edges[..k] + [edges[k]]
    ensures Reversed(edges[..k + 1]) == Reversed(edges[..k]) + [(edges[k].1, edges[k].0)]
  {
  }

  /** Both adjacency directions, filled edge by edge. */
  method CollectSides(u: Universe, t: Topology) returns (out: seq<Side>, into: seq<Side>)
    requires ValidTopology(u, t)
    ensures AllCollected(u.files, t.edges, LabelOf(t), out)
    ensures AllCollected(u.files, Reversed(t.edges), Flipped(LabelOf(t)), into)
  {
    hide Collected, AllCollected;
    out := seq(|u.files|, _ => Side([], map[]));
    into := out;
    NothingCollected(u.files, LabelOf(t));
    NothingCollected(u.files, Flipped(LabelOf(t)));
    assert Reversed(t.edges[..0]) == [];
    for k := 0 to |t.edges|
      invariant |out| == |into| == |u.files|
      invariant AllCollected(u.files, t.edges[..k], LabelOf(t), out)
      invariant AllCollected(u.files, Reversed(t.edges[..k]), Flipped(LabelOf(t)), into)
    {
      var (importer, imported) := t.edges[k];
      assert t.edges[k] in t.edges;
      ReversedStep(t.edges, k);
      AllCollectedStep(u.files, t.edges[..k], LabelOf(t), out, (importer, imported));
      AllCollectedStep(u.files, Reversed(t.edges[..k]), Flipped(LabelOf(t)), into, (imported, importer));
      var importedPath, importerPath := u.files[imported], u.files[importer];
      var resolver := LabelOf(t)((importer, imported));
      out := out[importer := Side(out[importer].list + [importedPath],
                                  out[importer].resolvers[importedPath := resolver])];
      into := into[imported := Side(into[imported].list + [importerPath],
                                    into[imported].resolvers[importerPath := resolver])];
    }
    assert t.edges[..|t.edges|] == t.edges;
  }

  method BuildSignals(u: Universe, t: Topology, fanIn: array<nat>, fanOut: array<nat>) returns (g: GraphSignals)
    requires ValidTopology(u, t) && fanIn.Length == fanOut.Length == |u.files|
    requires forall i :: 0 <= i < |u.files| ==>
               fanOut[i] == |Heads(t.edges, i)| && fanIn[i] == |Heads(Reversed(t.edges), i)|
    ensures SignalsOf(u, t, g)
  {
    hide SideAt, SignalAt;
    var out, into := CollectSides(u, t);
    var files: map<Path, FileSignal> := map[];
    for i := 0 to |u.files|
      invariant files.Keys == Elements(u.files[..i])
      invariant forall j :: 0 <= j < i ==> SignalAt(u, t, j, files[u.files[j]])
    {
      var dependencies := Sort(out[i].list, PathLe);
      var dependents := Sort(into[i].list, PathLe);
      var signal := FileSignal(fanIn[i], fanOut[i], dependencies, dependents, out[i].resolvers, into[i].resolvers);
      CompleteSignal(u, t, i, out[i], into[i], signal);
      files := files[u.files[i] := signal];
      TakeOneMore(u.files, i);
    }
    assert u.files[..|u.files|] == u.files;
    g := GraphSignals(files, t.unresolvedImports);
  }

  lemma CompleteSignal(u: Universe, t: Topology, i: nat, out: Side, into: Side, signal: FileSignal)
    requires ValidTopology(u, t) && i < |u.files| && InBounds(Reversed(t.edges), |u.files|)
    requires Collected(u.files, t.edges, LabelOf(t), i, out)
    requires Collected(u.files, Reversed(t.edges), Flipped(LabelOf(t)), i, into)
    requires signal == FileSignal(|Heads(Reversed(t.edges), i)|, |Heads(t.edges, i)|, Sort(out.list, PathLe),
                                  Sort(into.list, PathLe), out.resolvers, into.resolvers)
    ensures SignalAt(u, t, i, signal)
  {
    hide Sort, Labelled, StrictlySorted;
    ReversedEdges(t.edges);
    SortedSide(u.files, t.edges, LabelOf(t), i, out.resolvers);
    SortedSide(u.files, Reversed(t.edges), Flipped(LabelOf(t)), i, into.resolvers);
  }

  // ---------- Duality ----------

  ghost predicate Lists(g: GraphSignals, p: Path, q: Path) {
    p in g.files && q in g.files[p].dependencies
  }

  /** Forward and reverse lists are converses of each other, stay inside the graph and name no file itself. */
  ghost predicate Dual(g: GraphSignals) {
    && (forall p, q :: Lists(g, p, q) <==> DependentEdge(g, q, p))
    && (forall p :: !Lists(g, p, p))
  }

  lemma FilePosition(u: Universe, p: Path) returns (i: nat)
    requires ValidUniverse(u) && p in Elements(u.files)
    ensures i < |u.files| && u.files[i] == p
  {
    i := u.nodeIndex[p];
  }

  lemma SameFileSameIndex(files: seq<Path>, j: nat, k: nat)
    requires Distinct(files) && j < |files| && k < |files|
    ensures files[j] == files[k] ==> j == k
  {
  }

  lemma SideStaysInside(files: seq<Path>, edges: seq<Edge>, tag: Edge -> string, i: nat, list: seq<Path>,
                        resolvers: map<Path, string>, p: Path)
    requires InBounds(edges, |files|) && SideAt(files, edges, tag, i, list, resolvers) && p in list
    ensures p in Elements(files)
  {
    var j :| (i, j) in edges && files[j] == p;
  }

  lemma SideMember(files: seq<Path>, edges: seq<Edge>, tag: Edge -> string, i: nat, list: seq<Path>,
                   resolvers: map<Path, string>, j: nat)
    requires InBounds(edges, |files|) && SideAt(files, edges, tag, i, list, resolvers)
    requires Distinct(files) && j < |files|
    ensures files[j] in list <==> (i, j) in edges
    ensures (i, j) in edges ==> files[j] in resolvers && resolvers[files[j]] == tag((i, j))
  {
    if files[j] in list {
      var k :| (i, k) in edges && files[k] == files[j];
      SameFileSameIndex(files, j, k);
    }
  }

  /** What the two signals at the ends of a possible edge say about it. */
  lemma EdgeInSignals(u: Universe, t: Topology, g: GraphSignals, i: nat, j: nat)
    requires ValidTopology(u, t) && SignalsOf(u, t, g) && i < |u.files| && j < |u.files|
    ensures u.files[i] in g.files && u.files[j] in g.files
    ensures u.files[j] in g.files[u.files[i]].dependencies <==> (i, j) in t.edges
    ensures u.files[i] in g.files[u.files[j]].dependents <==> (i, j) in t.edges
    ensures (i, j) in t.edges ==>
              && u.files[j] in g.files[u.files[i]].dependencyResolvers
              && (i, j) in t.edgeResolvers
              && g.files[u.files[i]].dependencyResolvers[u.files[j]] == t.edgeResolvers[(i, j)]
    ensures (i, j) in t.edges ==>
              && u.files[i] in g.files[u.files[j]].dependentResolvers
              && g.files[u.files[j]].dependentResolvers[u.files[i]] == t.edgeResolvers[(i, j)]
  {
    hide SideAt;
    ReversedInBounds(t.edges, |u.files|);
    ReversedEdges(t.edges);
    assert u.files[i] in Elements(u.files) && u.files[j] in Elements(u.files);
    var si, sj := g.files[u.files[i]], g.files[u.files[j]];
    assert SignalAt(u, t, i, si) && SignalAt(u, t, j, sj);
    SideMember(u.files, t.edges, LabelOf(t), i, si.dependencies, si.dependencyResolvers, j);
    SideMember(u.files, Reversed(t.edges), Flipped(LabelOf(t)), j, sj.dependents, sj.dependentResolvers, i);
  }

  /** A dependency in the signals is an edge of the topology. */
  lemma ListsAreEdges(u: Universe, t: Topology, g: GraphSignals, i: nat, j: nat)
    requires ValidTopology(u, t) && SignalsOf(u, t, g) && i < |u.files| && j < |u.files|
    ensures Lists(g, u.files[i], u.files[j]) <==> (i, j) in t.edges
    ensures DependentEdge(g, u.files[j], u.files[i]) <==> (i, j) in t.edges
  {
    hide SignalsOf, ValidTopology;
    EdgeInSignals(u, t, g, i, j);
  }

  lemma ListsStayInside(u: Universe, t: Topology, g: GraphSignals, p: Path, q: Path)
    requires ValidTopology(u, t) && SignalsOf(u, t, g)
    requires Lists(g, p, q) || DependentEdge(g, q, p)
    ensures p in Elements(u.files) && q in Elements(u.files)
  {
    hide SideAt;
    ReversedInBounds(t.edges, |u.files|);
    if Lists(g, p, q) {
      var i := FilePosition(u, p);
      var s := g.files[p];
      assert SignalAt(u, t, i, s);
      SideStaysInside(u.files, t.edges, LabelOf(t), i, s.dependencies, s.dependencyResolvers, q);
    } else {
      var j := FilePosition(u, q);
      var s := g.files[q];
      assert SignalAt(u, t, j, s);
      SideStaysInside(u.files, Reversed(t.edges), Flipped(LabelOf(t)), j, s.dependents, s.dependentResolvers, p);
    }
  }

  lemma SignalsAreDual(u: Universe, t: Topology, g: GraphSignals)
    requires ValidTopology(u, t) && SignalsOf(u, t, g)
    ensures Dual(g)
  {
    hide SignalsOf, Lists, DependentEdge;
    forall p, q | Lists(g, p, q) || DependentEdge(g, q, p)
      ensures Lists(g, p, q) && DependentEdge(g, q, p) && p != q
    {
      ListsStayInside(u, t, g, p, q);
      var i := FilePosition(u, p);
      var j := FilePosition(u, q);
      ListsAreEdges(u, t, g, i, j);
    }
  }

  /** Both ends of an edge carry the same resolver. */
  lemma ResolversAgree(u: Universe, t: Topology, g: GraphSignals, p: Path, q: Path)
    requires ValidTopology(u, t) && SignalsOf(u, t, g) && Lists(g, p, q)
    ensures q in g.files && q in g.files[p].dependencyResolvers && p in g.files[q].dependentResolvers
    ensures g.files[p].dependencyResolvers[q] == g.files[q].dependentResolvers[p]
  {
    hide SignalsOf;
    ListsStayInside(u, t, g, p, q);
    var i := FilePosition(u, p);
    var j := FilePosition(u, q);
    EdgeInSignals(u, t, g, i, j);
  }
}
