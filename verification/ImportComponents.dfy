/** From imports to components: the whole chain of src/graph.rs and src/work_scope.rs in one statement. */
module ImportComponents {
  import opened Orders
  import opened GraphModel
  import opened Topology
  import opened Adjacency
  import opened Components

  /** One of the two files imports the other. */
  ghost predicate ImportLink(u: Universe, imports: seq<seq<Resolution>>, p: Path, q: Path) {
    exists i: nat, j: nat :: LinkAt(u, imports, p, q, i, j)
  }

  ghost predicate LinkAt(u: Universe, imports: seq<seq<Resolution>>, p: Path, q: Path, i: nat, j: nat) {
    && i < |u.files| && j < |u.files| && u.files[i] == p && u.files[j] == q
    && (Imports(u, imports, (i, j)) || Imports(u, imports, (j, i)))
  }

  ghost predicate LinkedIn(u: Universe, imports: seq<seq<Resolution>>, p: Path, q: Path, n: nat)
    decreases n
  {
    if n == 0 then p == q
    else exists m :: LinkedIn(u, imports, p, m, n - 1) && ImportLink(u, imports, m, q)
  }

  /** Joined by imports, in whichever direction each of them goes. */
  ghost predicate Linked(u: Universe, imports: seq<seq<Resolution>>, p: Path, q: Path) {
    exists n: nat :: LinkedIn(u, imports, p, q, n)
  }

  lemma NeighborIffLink(u: Universe, imports: seq<seq<Resolution>>, t: Topology, g: GraphSignals, p: Path, q: Path)
    requires ValidTopology(u, t) && SignalsOf(u, t, g) && forall e :: e in t.edges <==> Imports(u, imports, e)
    ensures Neighbor(g, p, q) <==> ImportLink(u, imports, p, q)
  {
    hide SignalsOf, ValidTopology, Imports;
    KeysAreFiles(u, t, g);
    if p in g.files && q in g.files {
      UniverseOf(u, t);
      var i := FilePosition(u, p);
      var j := FilePosition(u, q);
      EdgeInSignals(u, t, g, i, j);
      EdgeInSignals(u, t, g, j, i);
      if Neighbor(g, p, q) {
        assert LinkAt(u, imports, p, q, i, j);
      }
      if ImportLink(u, imports, p, q) {
        var k: nat, l: nat :| LinkAt(u, imports, p, q, k, l);
        SameFileSameIndex(u.files, i, k);
        SameFileSameIndex(u.files, j, l);
      }
    }
  }

  lemma KeysAreFiles(u: Universe, t: Topology, g: GraphSignals)
    requires ValidTopology(u, t) && SignalsOf(u, t, g)
    ensures g.files.Keys == Elements(u.files)
  {
  }

  lemma UniverseOf(u: Universe, t: Topology)
    requires ValidTopology(u, t)
    ensures ValidUniverse(u) && Distinct(u.files)
  {
  }

  lemma {:induction false} StepsIffLinked(u: Universe, imports: seq<seq<Resolution>>, t: Topology, g: GraphSignals,
                                          p: Path, q: Path, n: nat)
    requires ValidTopology(u, t) && SignalsOf(u, t, g) && forall e :: e in t.edges <==> Imports(u, imports, e)
    ensures Steps(g, p, q, n) <==> LinkedIn(u, imports, p, q, n)
    decreases n
  {
    hide ValidTopology, SignalsOf, Imports, Neighbor, ImportLink;
    if n > 0 {
      forall m
        ensures Steps(g, p, m, n - 1) <==> LinkedIn(u, imports, p, m, n - 1)
        ensures Neighbor(g, m, q) <==> ImportLink(u, imports, m, q)
      {
        StepsIffLinked(u, imports, t, g, p, m, n - 1);
        NeighborIffLink(u, imports, t, g, m, q);
      }
    }
  }

  /**
   * Extracting, counting, building and searching in turn: two files share a component exactly when imports join them.
   */
  method ComponentsOfImports(u: Universe, imports: seq<seq<Resolution>>, seeds: set<Path>)
    returns (g: GraphSignals, cs: seq<Component>)
    requires ValidUniverse(u) && |imports| == |u.files|
    ensures g.files.Keys == Elements(u.files) && Dual(g) && ComponentsOf(g, seeds, cs)
    ensures forall p, q :: p in u.files && q in u.files ==>
              ((exists c :: c in cs && p in c.paths && q in c.paths) <==> Linked(u, imports, p, q))
  {
    hide ComponentsOf, SignalsOf, ValidTopology, Imports, Dual, ValidUniverse, Linked, InBounds;
    var t := ExtractTopology(u, imports);
    TopologyBounds(u, t);
    var fanIn, fanOut := FanCounts(|u.files|, t.edges);
    g := BuildSignals(u, t, fanIn, fanOut);
    SignalsAreDual(u, t, g);
    KeysAreFiles(u, t, g);
    cs := FindComponents(g, seeds);
    forall p, q | p in u.files && q in u.files
      ensures (exists c :: c in cs && p in c.paths && q in c.paths) <==> Linked(u, imports, p, q)
    {
      assert p in Elements(u.files) && q in Elements(u.files);
      ComponentsPartition(g, seeds, cs, p, q);
      ConnectedIffLinked(u, imports, t, g, p, q);
    }
  }

  lemma TopologyBounds(u: Universe, t: Topology)
    requires ValidTopology(u, t)
    ensures InBounds(t.edges, |u.files|)
  {
  }

  lemma ConnectedIffLinked(u: Universe, imports: seq<seq<Resolution>>, t: Topology, g: GraphSignals, p: Path, q: Path)
    requires ValidTopology(u, t) && SignalsOf(u, t, g) && forall e :: e in t.edges <==> Imports(u, imports, e)
    ensures Connected(g, p, q) <==> Linked(u, imports, p, q)
  {
    forall n: nat
      ensures Steps(g, p, q, n) <==> LinkedIn(u, imports, p, q, n)
    {
      StepsIffLinked(u, imports, t, g, p, q, n);
    }
  }
}
