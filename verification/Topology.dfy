/** From resolved imports to dual adjacency signals (src/graph.rs). */
module Topology {
  import opened Orders
  import opened Fingerprint

  type Edge = (nat, nat)

  datatype Resolution =
    | Resolved(target: Path, resolver: string)
    | Unresolved
    | LocalImport
    | NonGraph
    | External

  /** Sorted distinct graph files and their positions. */
  datatype Universe = Universe(files: seq<Path>, nodeIndex: map<Path, nat>)

  ghost predicate StrictlySorted(s: seq<Path>) {
    Distinct(s) && Sorted(s, PathLe)
  }

  ghost predicate ValidUniverse(u: Universe) {
    && StrictlySorted(u.files)
    && (forall p :: p in u.nodeIndex <==> p in u.files)
    && (forall p :: p in u.nodeIndex ==> u.nodeIndex[p] < |u.files| && u.files[u.nodeIndex[p]] == p)
  }

  method SelectGraphUniverse(paths: seq<Path>, firstClass: Path -> bool) returns (u: Universe)
    ensures ValidUniverse(u)
    ensures Elements(u.files) == set p | p in paths && firstClass(p) :: Normalized(p)
  {
    var chosen := set p | p in paths && firstClass(p) :: Normalized(p);
    var files := IterateSorted(chosen);
    var nodeIndex: map<Path, nat> := map[];
    for k := 0 to |files|
      invariant forall p :: p in nodeIndex <==> p in files[..k]
      invariant forall p :: p in nodeIndex ==> nodeIndex[p] < |files| && files[nodeIndex[p]] == p
    {
      nodeIndex := nodeIndex[files[k] := k];
    }
    u := Universe(files, nodeIndex);
  }

  // ---------- Recording resolutions ----------

  /** One recorded import of file `importer`. */
  datatype Import = Import(importer: nat, resolution: Resolution)

  ghost predicate Names(u: Universe, r: Import, e: Edge) {
    && r.importer == e.0 && r.resolution.Resolved?
    && e.1 < |u.files| && r.resolution.target == u.files[e.1]
    && (e.0 < |u.files| ==> r.resolution.target != u.files[e.0])
  }

  /** The resolver of the first import that makes the edge, if any import does. */
  ghost function FirstResolver(u: Universe, log: seq<Import>, e: Edge): Option<string> {
    if log == [] then None
    else
      var earlier, last := FirstResolver(u, log[..|log| - 1], e), log[|log| - 1];
      if earlier.Some? then earlier
      else if Names(u, last, e) then Some(last.resolution.resolver)
      else None
  }

  ghost predicate SelfImport(u: Universe, r: Import) {
    r.resolution.Resolved? && r.importer < |u.files| && r.resolution.target == u.files[r.importer]
  }

  ghost function SelfImports(u: Universe, log: seq<Import>): set<Path> {
    set k | 0 <= k < |log| && SelfImport(u, log[k]) :: log[k].resolution.target
  }

  function UnresolvedIn(log: seq<Import>, importer: nat): nat {
    if log == [] then 0
    else
      var earlier := UnresolvedIn(log[..|log| - 1], importer);
      if log[|log| - 1] == Import(importer, Unresolved) then earlier + 1 else earlier
  }

  function UnresolvedTotal(log: seq<Import>): nat {
    if log == [] then 0 else UnresolvedTotal(log[..|log| - 1]) + if log[|log| - 1].resolution.Unresolved? then 1 else 0
  }

  lemma LogStep(u: Universe, log: seq<Import>, entry: Import)
    ensures forall e :: FirstResolver(u, log + [entry], e) ==
              if FirstResolver(u, log, e).Some? then FirstResolver(u, log, e)
              else if Names(u, entry, e) then Some(entry.resolution.resolver)
              else None
    ensures SelfImports(u, log + [entry]) ==
              SelfImports(u, log) + if SelfImport(u, entry) then {entry.resolution.target} else {}
    ensures forall i :: UnresolvedIn(log + [entry], i) ==
              UnresolvedIn(log, i) + if entry == Import(i, Unresolved) then 1 else 0
    ensures UnresolvedTotal(log + [entry]) == UnresolvedTotal(log) + if entry.resolution.Unresolved? then 1 else 0
  {
    var all := log + [entry];
    assert all[..|all| - 1] == log;
    forall p | p in SelfImports(u, log)
      ensures p in SelfImports(u, all)
    {
      var k :| 0 <= k < |log| && SelfImport(u, log[k]) && log[k].resolution.target == p;
      assert SelfImport(u, all[k]);
    }
    if SelfImport(u, entry) {
      assert SelfImport(u, all[|log|]);
    }
  }

  /** An edge is there exactly when some import of the one file resolves to the other, different, file. */
  lemma {:induction false} EdgeIffImported(u: Universe, log: seq<Import>, e: Edge)
    ensures FirstResolver(u, log, e).Some? <==> exists k :: 0 <= k < |log| && Names(u, log[k], e)
  {
    if log != [] {
      var front := log[..|log| - 1];
      EdgeIffImported(u, front, e);
      if FirstResolver(u, front, e).Some? {
        var k :| 0 <= k < |front| && Names(u, front[k], e);
        assert Names(u, log[k], e);
      }
      if k :| 0 <= k < |log| && Names(u, log[k], e) {
        assert k < |front| ==> Names(u, front[k], e);
      }
    }
  }

  /** The resolver is that of the import that makes the edge before any other. */
  lemma {:induction false} FirstResolverIsFirst(u: Universe, log: seq<Import>, e: Edge)
    ensures forall k :: 0 <= k < |log| && Names(u, log[k], e) && (forall j :: 0 <= j < k ==> !Names(u, log[j], e)) ==>
              FirstResolver(u, log, e) == Some(log[k].resolution.resolver)
  {
    hide Names;
    if log != [] {
      var front := log[..|log| - 1];
      FirstResolverIsFirst(u, front, e);
      EdgeIffImported(u, front, e);
      assert forall j :: 0 <= j < |front| ==> front[j] == log[j];
    }
  }

  lemma {:induction false} FirstOfJoined(u: Universe, a: seq<Import>, b: seq<Import>, e: Edge)
    ensures FirstResolver(u, a + b, e)
         == if FirstResolver(u, a, e).Some? then FirstResolver(u, a, e) else FirstResolver(u, b, e)
  {
    if b == [] {
      assert a + b == a;
    } else {
      assert (a + b)[..|a + b| - 1] == a + b[..|b| - 1];
      FirstOfJoined(u, a, b[..|b| - 1], e);
    }
  }

  /** The places of the unresolved imports. */
  function UnresolvedAt(log: seq<Import>): set<nat> {
    set k | 0 <= k < |log| && log[k].resolution.Unresolved?
  }

  lemma {:induction false} UnresolvedCounts(log: seq<Import>)
    ensures UnresolvedTotal(log) == |UnresolvedAt(log)|
  {
    if log != [] {
      var front, last := log[..|log| - 1], |log| - 1;
      UnresolvedCounts(front);
      assert UnresolvedAt(log) == UnresolvedAt(front) + if log[last].resolution.Unresolved? then {last} else {};
    }
  }

  function Sum(s: seq<nat>): nat {
    if s == [] then 0 else Sum(s[..|s| - 1]) + s[|s| - 1]
  }

  lemma {:induction false} SumUpdate(s: seq<nat>, i: nat, v: nat)
    requires i < |s|
    ensures Sum(s[i := v]) + s[i] == Sum(s) + v
  {
    var t := s[i := v];
    if i < |s| - 1 {
      SumUpdate(s[..|s| - 1], i, v);
      assert t[..|s| - 1] == s[..|s| - 1][i := v];
    } else {
      assert t[..|s| - 1] == s[..|s| - 1];
    }
  }

  lemma {:induction false} SumZero(s: seq<nat>)
    requires forall i :: 0 <= i < |s| ==> s[i] == 0
    ensures Sum(s) == 0
  {
    if s != [] {
      SumZero(s[..|s| - 1]);
    }
  }

  class TopologyState {
    const universe: Universe
    var edgeSet: set<Edge>
    var selfCycles: set<Path>
    var unresolvedImports: nat
    var unresolvedByNode: seq<nat>
    var edgeResolvers: map<Edge, string>
    ghost var log: seq<Import>

    /** The mutable fields are exactly what the log of recorded imports determines. */
    ghost predicate Valid()
      reads this
    {
      && ValidUniverse(universe)
      && (forall k :: 0 <= k < |log| ==> log[k].importer < |universe.files|)
      && edgeResolvers.Keys == edgeSet
      && (forall e :: e in edgeSet <==> FirstResolver(universe, log, e).Some?)
      && (forall e :: e in edgeSet ==> edgeResolvers[e] == FirstResolver(universe, log, e).value)
      && selfCycles == SelfImports(universe, log)
      && |unresolvedByNode| == |universe.files|
      && (forall i :: 0 <= i < |unresolvedByNode| ==> unresolvedByNode[i] == UnresolvedIn(log, i))
      && unresolvedImports == Sum(unresolvedByNode) == UnresolvedTotal(log)
    }

    constructor (u: Universe)
      requires ValidUniverse(u)
      ensures Valid() && universe == u && log == []
    {
      universe := u;
      edgeSet, selfCycles, unresolvedImports, edgeResolvers, log := {}, {}, 0, map[], [];
      unresolvedByNode := seq(|u.files|, _ => 0);
      new;
      SumZero(unresolvedByNode);
    }

    method RecordResolution(importer: nat, importerPath: Path, resolution: Resolution)
      requires Valid() && importer < |universe.files| && universe.files[importer] == importerPath
      modifies this
      ensures Valid()
      ensures log == old(log) + [Import(importer, resolution)]
    {
      hide FirstResolver, UnresolvedIn, UnresolvedTotal, StrictlySorted;
      LogStep(universe, log, Import(importer, resolution));
      match resolution {
        case Resolved(target, resolver) =>
          if target == importerPath {
            selfCycles := selfCycles + {importerPath};
          } else if target in universe.nodeIndex {
            var edge := (importer, universe.nodeIndex[target]);
            OnlyEdge(universe, Import(importer, resolution), edge);
            edgeSet := edgeSet + {edge};
            if edge !in edgeResolvers {
              edgeResolvers := edgeResolvers[edge := resolver];
            }
          }
        case Unresolved =>
          SumUpdate(unresolvedByNode, importer, unresolvedByNode[importer] + 1);
          unresolvedImports := unresolvedImports + 1;
          unresolvedByNode := unresolvedByNode[importer := unresolvedByNode[importer] + 1];
        case LocalImport =>
        case NonGraph =>
        case External =>
      }
      log := log + [Import(importer, resolution)];
    }

    /** The edges in ascending order, as later stages consume them. */
    method Finish() returns (edges: seq<Edge>)
      requires Valid()
      ensures Enumerates(edges, edgeSet) && Sorted(edges, EdgeLe)
      ensures InBounds(edges, |universe.files|) && NoSelfEdges(edges) && Ascending(edges)
    {
      var raw := Iterate(edgeSet);
      edges := Sort(raw, EdgeLe);
      SortPermutes(raw, EdgeLe);
      SortSorted(raw, EdgeLe);
      DistinctByMultiset(raw, edges);
      forall e | e in edges
        ensures e.0 < |universe.files| && e.1 < |universe.files| && e.0 != e.1
      {
        EdgeIffImported(universe, log, e);
      }
    }
  }

  lemma OnlyEdge(u: Universe, entry: Import, edge: Edge)
    requires ValidUniverse(u) && entry.resolution.Resolved? && entry.resolution.target in u.nodeIndex
    requires entry.importer < |u.files| && entry.resolution.target != u.files[entry.importer]
    requires edge == (entry.importer, u.nodeIndex[entry.resolution.target])
    ensures forall e :: Names(u, entry, e) <==> e == edge
  {
  }

  predicate EdgeLe(a: Edge, b: Edge) {
    a.0 < b.0 || (a.0 == b.0 && a.1 <= b.1)
  }

  /** By the importing file, then by the imported one, without repeats. */
  ghost predicate Ascending(edges: seq<Edge>) {
    forall i, j :: 0 <= i < j < |edges| ==>
      edges[i].0 < edges[j].0 || (edges[i].0 == edges[j].0 && edges[i].1 < edges[j].1)
  }

  ghost predicate InBounds(edges: seq<Edge>, n: nat) {
    forall e :: e in edges ==> e.0 < n && e.1 < n
  }

  ghost predicate NoSelfEdges(edges: seq<Edge>) {
    forall e :: e in edges ==> e.0 != e.1
  }

  datatype Topology = Topology(edges: seq<Edge>, edgeResolvers: map<Edge, string>, selfCycles: set<Path>,
                               unresolvedImports: nat)

  /** The resolver is that of the first import of the one file that resolves to the other. */
  ghost predicate FirstImport(u: Universe, imports: seq<seq<Resolution>>, e: Edge, resolver: string)
    requires e.0 < |imports| && e.1 < |u.files|
  {
    exists j :: 0 <= j < |imports[e.0]| && imports[e.0][j] == Resolved(u.files[e.1], resolver)
                && forall i :: 0 <= i < j ==> !Leads(imports[e.0][i], u.files[e.1])
  }

  predicate Leads(r: Resolution, target: Path) {
    r.Resolved? && r.target == target
  }

  ghost predicate Imports(u: Universe, imports: seq<seq<Resolution>>, e: Edge) {
    && e.0 < |u.files| && e.1 < |u.files| && e.0 < |imports| && e.0 != e.1
    && exists r :: r in imports[e.0] && r.Resolved? && r.target == u.files[e.1]
  }

  /** What a finished topology guarantees whatever the imports were. */
  ghost predicate ValidTopology(u: Universe, t: Topology) {
    && ValidUniverse(u)
    && Distinct(t.edges) && Sorted(t.edges, EdgeLe) && InBounds(t.edges, |u.files|) && NoSelfEdges(t.edges)
    && (forall e :: e in t.edges <==> e in t.edgeResolvers)
  }

  /** Every file's imports, file by file. */
  function Recorded(imports: seq<seq<Resolution>>): seq<Import> {
    if imports == [] then []
    else
      var importer := |imports| - 1;
      Recorded(imports[..importer]) + ImportsOf(importer, imports[importer])
  }

  function ImportsOf(importer: nat, resolutions: seq<Resolution>): seq<Import> {
    seq(|resolutions|, j requires 0 <= j < |resolutions| => Import(importer, resolutions[j]))
  }

  lemma {:induction false} RecordedIff(imports: seq<seq<Resolution>>, entry: Import)
    ensures entry in Recorded(imports) <==> entry.importer < |imports| && entry.resolution in imports[entry.importer]
  {
    if imports != [] {
      var last := |imports| - 1;
      RecordedIff(imports[..last], entry);
      var mine := ImportsOf(last, imports[last]);
      if entry.importer == last && entry.resolution in imports[last] {
        var j :| 0 <= j < |imports[last]| && imports[last][j] == entry.resolution;
        assert mine[j] == entry;
      }
      if entry in mine {
        var j :| 0 <= j < |mine| && mine[j] == entry;
      }
    }
  }

  /**
   * The edges are exactly the resolved imports between two files, each with the resolver of its first import;
   * files that import themselves and unresolved imports are kept apart and counted.
   */
  method ExtractTopology(u: Universe, imports: seq<seq<Resolution>>) returns (t: Topology)
    requires ValidUniverse(u) && |imports| == |u.files|
    ensures ValidTopology(u, t)
    ensures forall e :: e in t.edges <==> Imports(u, imports, e)
    ensures forall e :: e in t.edges ==> Some(t.edgeResolvers[e]) == FirstResolver(u, Recorded(imports), e)
    ensures Ascending(t.edges) && forall e :: e in t.edges ==> FirstImport(u, imports, e, t.edgeResolvers[e])
    ensures t.selfCycles == SelfImports(u, Recorded(imports))
            && t.unresolvedImports == UnresolvedTotal(Recorded(imports))
    ensures forall p :: p in t.selfCycles
              <==> exists i :: 0 <= i < |u.files| && u.files[i] == p && ImportsItself(u, imports, i)
    ensures t.unresolvedImports == |UnresolvedAt(Recorded(imports))|
  {
    hide SelfImports, UnresolvedTotal, UnresolvedAt, FirstImport, ImportsItself, Ascending, StrictlySorted, Names;
    hide FirstResolver, Imports;
    var state := new TopologyState(u);
    for index := 0 to |imports|
      invariant state.Valid() && state.universe == u
      invariant state.log == Recorded(imports[..index])
    {
      assert imports[..index + 1][..index] == imports[..index];
      for j := 0 to |imports[index]|
        invariant state.Valid() && state.universe == u
        invariant state.log == Recorded(imports[..index]) + ImportsOf(index, imports[index])[..j]
      {
        state.RecordResolution(index, u.files[index], imports[index][j]);
      }
      assert ImportsOf(index, imports[index])[..|imports[index]|] == ImportsOf(index, imports[index]);
    }
    assert imports[..|imports|] == imports;
    var edges := state.Finish();
    t := Topology(edges, state.edgeResolvers, state.selfCycles, state.unresolvedImports);
    EdgesAreImports(u, imports, t);
    SelfImportsAre(u, imports);
    UnresolvedCounts(Recorded(imports));
  }

  lemma ResolvedIffImported(u: Universe, imports: seq<seq<Resolution>>, e: Edge)
    requires ValidUniverse(u) && |imports| == |u.files|
    ensures FirstResolver(u, Recorded(imports), e).Some? <==> Imports(u, imports, e)
  {
    EdgeIffImported(u, Recorded(imports), e);
    RecordedImports(u, imports, e);
  }

  lemma EdgesAreImports(u: Universe, imports: seq<seq<Resolution>>, t: Topology)
    requires ValidUniverse(u) && |imports| == |u.files| && InBounds(t.edges, |u.files|) && NoSelfEdges(t.edges)
    requires forall e :: e in t.edges <==> FirstResolver(u, Recorded(imports), e).Some?
    requires forall e :: e in t.edges ==>
               e in t.edgeResolvers && Some(t.edgeResolvers[e]) == FirstResolver(u, Recorded(imports), e)
    ensures forall e :: e in t.edges <==> Imports(u, imports, e)
    ensures forall e :: e in t.edges ==> FirstImport(u, imports, e, t.edgeResolvers[e])
  {
    hide ValidUniverse, FirstResolver, Imports, FirstImport, Names;
    forall e
      ensures e in t.edges <==> Imports(u, imports, e)
    {
      ResolvedIffImported(u, imports, e);
    }
    forall e | e in t.edges
      ensures FirstImport(u, imports, e, t.edgeResolvers[e])
    {
      FirstIsImported(u, imports, e);
    }
  }

  /** A file imports itself if an import of it resolves to it. */
  ghost predicate ImportsItself(u: Universe, imports: seq<seq<Resolution>>, i: nat)
    requires i < |u.files| == |imports|
  {
    exists r :: r in imports[i] && Leads(r, u.files[i])
  }

  lemma SelfImportsAre(u: Universe, imports: seq<seq<Resolution>>)
    requires |imports| == |u.files|
    ensures forall p :: p in SelfImports(u, Recorded(imports))
              <==> exists i :: 0 <= i < |u.files| && u.files[i] == p && ImportsItself(u, imports, i)
  {
    var log := Recorded(imports);
    forall p
      ensures p in SelfImports(u, log)
              <==> exists i :: 0 <= i < |u.files| && u.files[i] == p && ImportsItself(u, imports, i)
    {
      if p in SelfImports(u, log) {
        var k :| 0 <= k < |log| && SelfImport(u, log[k]) && log[k].resolution.target == p;
        RecordedIff(imports, log[k]);
        assert ImportsItself(u, imports, log[k].importer);
      }
      if i :| 0 <= i < |u.files| && u.files[i] == p && ImportsItself(u, imports, i) {
        var r :| r in imports[i] && Leads(r, u.files[i]);
        RecordedIff(imports, Import(i, r));
        var k :| 0 <= k < |log| && log[k] == Import(i, r);
        assert SelfImport(u, log[k]);
      }
    }
  }

  lemma OfOtherFile(u: Universe, importer: nat, resolutions: seq<Resolution>, e: Edge)
    requires importer != e.0
    ensures FirstResolver(u, ImportsOf(importer, resolutions), e).None?
  {
    EdgeIffImported(u, ImportsOf(importer, resolutions), e);
  }

  /** Recording file by file keeps the imports of one file in their order. */
  lemma {:induction false} OfOneFile(u: Universe, imports: seq<seq<Resolution>>, e: Edge)
    ensures FirstResolver(u, Recorded(imports), e)
         == if e.0 < |imports| then FirstResolver(u, ImportsOf(e.0, imports[e.0]), e) else None
  {
    hide FirstResolver;
    if imports == [] {
      NothingRecorded(u, e);
    } else {
      var last := |imports| - 1;
      OfOneFile(u, imports[..last], e);
      FirstOfJoined(u, Recorded(imports[..last]), ImportsOf(last, imports[last]), e);
      if last != e.0 {
        OfOtherFile(u, last, imports[last], e);
      }
    }
  }

  lemma NothingRecorded(u: Universe, e: Edge)
    ensures FirstResolver(u, Recorded([]), e) == None
  {
  }

  lemma FirstIsImported(u: Universe, imports: seq<seq<Resolution>>, e: Edge)
    requires ValidUniverse(u) && e.0 < |imports| == |u.files| && e.1 < |u.files| && e.0 != e.1
    requires FirstResolver(u, Recorded(imports), e).Some?
    ensures FirstImport(u, imports, e, FirstResolver(u, Recorded(imports), e).value)
  {
    hide FirstResolver;
    var mine := ImportsOf(e.0, imports[e.0]);
    OfOneFile(u, imports, e);
    EdgeIffImported(u, mine, e);
    FirstResolverIsFirst(u, mine, e);
    var k :| 0 <= k < |mine| && Names(u, mine[k], e);
    var j := FirstNamed(u, mine, e, k);
    assert imports[e.0][j] == Resolved(u.files[e.1], FirstResolver(u, mine, e).value);
    forall i | 0 <= i < j
      ensures !Leads(imports[e.0][i], u.files[e.1])
    {
      assert !Names(u, mine[i], e);
    }
  }

  lemma {:induction false} FirstNamed(u: Universe, log: seq<Import>, e: Edge, k: nat) returns (j: nat)
    requires k < |log| && Names(u, log[k], e)
    ensures j <= k && Names(u, log[j], e) && forall i :: 0 <= i < j ==> !Names(u, log[i], e)
  {
    if i: nat :| i < k && Names(u, log[i], e) {
      j := FirstNamed(u, log, e, i);
    } else {
      j := k;
    }
  }

  lemma RecordedImports(u: Universe, imports: seq<seq<Resolution>>, e: Edge)
    requires ValidUniverse(u) && |imports| == |u.files|
    ensures var log := Recorded(imports);
            (exists k :: 0 <= k < |log| && Names(u, log[k], e)) <==> Imports(u, imports, e)
  {
    var log := Recorded(imports);
    if k :| 0 <= k < |log| && Names(u, log[k], e) {
      RecordedIff(imports, log[k]);
      assert log[k].resolution in imports[e.0];
    }
    if Imports(u, imports, e) {
      var r :| r in imports[e.0] && r.Resolved? && r.target == u.files[e.1];
      RecordedIff(imports, Import(e.0, r));
      var k :| 0 <= k < |log| && log[k] == Import(e.0, r);
      assert Names(u, log[k], e);
    }
  }

  // ---------- Adjacency lists ----------

  /** The far ends of the edges that leave i, in edge order. */
  function Heads(edges: seq<Edge>, i: nat): seq<nat> {
    if edges == [] then []
    else
      var earlier, last := Heads(edges[..|edges| - 1], i), edges[|edges| - 1];
      if last.0 == i then earlier + [last.1] else earlier
  }

  function Reversed(edges: seq<Edge>): seq<Edge> {
    seq(|edges|, k requires 0 <= k < |edges| => (edges[k].1, edges[k].0))
  }

  lemma {:induction false} HeadsAreEdges(edges: seq<Edge>, i: nat)
    ensures forall j :: j in Heads(edges, i) <==> (i, j) in edges
    ensures Distinct(edges) ==> Distinct(Heads(edges, i))
  {
    if edges != [] {
      HeadsAreEdges(edges[..|edges| - 1], i);
      assert edges == edges[..|edges| - 1] + [edges[|edges| - 1]];
    }
  }

  lemma ReversedEdges(edges: seq<Edge>)
    ensures forall i, j :: (i, j) in Reversed(edges) <==> (j, i) in edges
    ensures Distinct(edges) ==> Distinct(Reversed(edges))
  {
    forall i, j
      ensures (i, j) in Reversed(edges) <==> (j, i) in edges
    {
      if (j, i) in edges {
        var k :| 0 <= k < |edges| && edges[k] == (j, i);
        assert Reversed(edges)[k] == (i, j);
      }
    }
  }

  lemma EdgeStep(edges: seq<Edge>, k: nat)
    requires k < |edges|
    ensures forall i :: Heads(edges[..k + 1], i) == Heads(edges[..k], i) + if edges[k].0 == i then [edges[k].1] else []
    ensures forall i :: Heads(Reversed(edges[..k + 1]), i)
              == Heads(Reversed(edges[..k]), i) + if edges[k].1 == i then [edges[k].0] else []
  {
    assert edges[..k + 1][..k] == edges[..k];
    var reversed := Reversed(edges[..k + 1]);
    assert reversed[..|reversed| - 1] == Reversed(edges[..k]);
  }

  method FanCounts(nodeCount: nat, edges: seq<Edge>) returns (fanIn: array<nat>, fanOut: array<nat>)
    requires InBounds(edges, nodeCount)
    ensures fresh(fanIn) && fresh(fanOut) && fanIn.Length == fanOut.Length == nodeCount
    ensures forall i :: 0 <= i < nodeCount ==> fanOut[i] == |Heads(edges, i)| && fanIn[i] == |Heads(Reversed(edges), i)|
  {
    fanIn := new nat[nodeCount](_ => 0);
    fanOut := new nat[nodeCount](_ => 0);
    for k := 0 to |edges|
      invariant forall i :: 0 <= i < nodeCount ==> fanOut[i] == |Heads(edges[..k], i)|
      invariant forall i :: 0 <= i < nodeCount ==> fanIn[i] == |Heads(Reversed(edges[..k]), i)|
    {
      EdgeStep(edges, k);
      var (importer, imported) := edges[k];
      assert edges[k] in edges;
      fanOut[importer] := fanOut[importer] + 1;
      fanIn[imported] := fanIn[imported] + 1;
    }
    assert edges[..|edges|] == edges;
  }
}
