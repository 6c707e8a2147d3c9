/** Weakly connected components of the import graph and their bounded projection (src/work_scope.rs). */
module Components {
  import opened Orders
  import opened GraphModel
  import opened Adjacency

  const MAX_PATH_ENTRIES := 25
  const MAX_COMPONENTS := 10

  // ---------- Undirected reachability ----------

  ghost predicate Neighbor(g: GraphSignals, p: Path, q: Path) {
    p in g.files && q in g.files && (q in g.files[p].dependencies || q in g.files[p].dependents)
  }

  ghost predicate Steps(g: GraphSignals, p: Path, q: Path, n: nat)
    decreases n
  {
    if n == 0 then p == q
    else exists m :: Steps(g, p, m, n - 1) && Neighbor(g, m, q)
  }

  ghost predicate Connected(g: GraphSignals, p: Path, q: Path) {
    exists n: nat :: Steps(g, p, q, n)
  }

  lemma NeighborSymmetric(g: GraphSignals, p: Path, q: Path)
    requires Dual(g) && Neighbor(g, p, q)
    ensures Neighbor(g, q, p)
  {
    assert Lists(g, p, q) <==> DependentEdge(g, q, p);
    assert Lists(g, q, p) <==> DependentEdge(g, p, q);
  }

  lemma {:induction false} StepsCompose(g: GraphSignals, p: Path, q: Path, r: Path, n: nat, m: nat)
    requires Steps(g, p, q, n) && Steps(g, q, r, m)
    ensures Steps(g, p, r, n + m)
    decreases m
  {
    if m > 0 {
      var k :| Steps(g, q, k, m - 1) && Neighbor(g, k, r);
      StepsCompose(g, p, q, k, n, m - 1);
    }
  }

  lemma {:induction false} StepsReverse(g: GraphSignals, p: Path, q: Path, n: nat)
    requires Dual(g) && Steps(g, p, q, n)
    ensures Steps(g, q, p, n)
    decreases n
  {
    if n > 0 {
      var m :| Steps(g, p, m, n - 1) && Neighbor(g, m, q);
      StepsReverse(g, p, m, n - 1);
      NeighborSymmetric(g, m, q);
      assert Steps(g, q, q, 0);
      assert Steps(g, q, m, 1);
      StepsCompose(g, q, m, p, 1, n - 1);
    }
  }

  /** Thanks to the duality of the two lists, being connected is an equivalence. */
  lemma ConnectedIsEquivalence(g: GraphSignals, p: Path, q: Path, r: Path)
    requires Dual(g)
    ensures Connected(g, p, p)
    ensures Connected(g, p, q) ==> Connected(g, q, p)
    ensures Connected(g, p, q) && Connected(g, q, r) ==> Connected(g, p, r)
  {
    assert Steps(g, p, p, 0);
    if Connected(g, p, q) {
      var n: nat :| Steps(g, p, q, n);
      StepsReverse(g, p, q, n);
      if Connected(g, q, r) {
        var m: nat :| Steps(g, q, r, m);
        StepsCompose(g, p, q, r, n, m);
      }
    }
  }

  ghost predicate ClosedUnder(g: GraphSignals, s: set<Path>) {
    forall p, q :: p in s && Neighbor(g, p, q) ==> q in s
  }

  lemma {:induction false} ClosedHoldsReachable(g: GraphSignals, s: set<Path>, p: Path, q: Path, n: nat)
    requires ClosedUnder(g, s) && p in s && Steps(g, p, q, n)
    ensures q in s
    decreases n
  {
    if n > 0 {
      var m :| Steps(g, p, m, n - 1) && Neighbor(g, m, q);
      ClosedHoldsReachable(g, s, p, m, n - 1);
    }
  }

  // ---------- Components ----------

  datatype Component = Component(paths: seq<Path>, seedPaths: seq<Path>)

  /** In ascending order, exactly the seeds among the paths. */
  ghost predicate ListsSeeds(paths: seq<Path>, seeds: set<Path>, listed: seq<Path>) {
    Distinct(listed) && Sorted(listed, PathLe) && forall p :: p in listed <==> p in paths && p in seeds
  }

  /** A sorted, complete equivalence class with its seeds. */
  ghost predicate IsComponent(g: GraphSignals, seeds: set<Path>, c: Component) {
    && |c.paths| > 0 && Distinct(c.paths) && Sorted(c.paths, PathLe)
    && (forall p :: p in c.paths ==> p in g.files)
    && (forall q :: q in c.paths <==> Connected(g, c.paths[0], q))
    && ListsSeeds(c.paths, seeds, c.seedPaths)
  }

  predicate ComponentLe(a: Component, b: Component) {
    if |a.seedPaths| != |b.seedPaths| then |a.seedPaths| > |b.seedPaths|
    else if |a.paths| != |b.paths| then |a.paths| > |b.paths|
    else if a.paths == [] || b.paths == [] then a.paths == []
    else PathLe(a.paths[0], b.paths[0])
  }

  /** The listing of components: each one a class, no two the same, every file in one, in report order. */
  ghost predicate ComponentsOf(g: GraphSignals, seeds: set<Path>, cs: seq<Component>) {
    && (forall c :: c in cs ==> IsComponent(g, seeds, c))
    && Distinct(cs)
    && (forall p :: p in g.files ==> exists c :: c in cs && p in c.paths)
    && Sorted(cs, ComponentLe)
  }

  lemma ComponentOrder()
    ensures TotalPreorder(ComponentLe)
  {
    PathOrder();
  }

  /** Every member of a class generates the same class. */
  lemma SameClass(g: GraphSignals, seeds: set<Path>, c: Component, p: Path, q: Path)
    requires Dual(g) && IsComponent(g, seeds, c) && p in c.paths
    ensures q in c.paths <==> Connected(g, p, q)
  {
    ConnectedIsEquivalence(g, c.paths[0], p, q);
    ConnectedIsEquivalence(g, p, c.paths[0], q);
  }

  /** Two components that share a file are the same component. */
  lemma SharedFileSameComponent(g: GraphSignals, seeds: set<Path>, a: Component, b: Component, p: Path)
    requires Dual(g) && IsComponent(g, seeds, a) && IsComponent(g, seeds, b) && p in a.paths && p in b.paths
    ensures a == b
  {
    forall q
      ensures q in a.paths <==> q in b.paths
    {
      SameClass(g, seeds, a, p, q);
      SameClass(g, seeds, b, p, q);
    }
    assert Enumerates(a.paths, Elements(a.paths)) && Enumerates(b.paths, Elements(a.paths));
    SortedListingUnique(a.paths, b.paths, Elements(a.paths));
    SortedListingUnique(a.seedPaths, b.seedPaths, Elements(a.seedPaths));
  }

  /** The components partition the files into the classes of undirected reachability. */
  lemma ComponentsPartition(g: GraphSignals, seeds: set<Path>, cs: seq<Component>, p: Path, q: Path)
    requires Dual(g) && ComponentsOf(g, seeds, cs) && p in g.files && q in g.files
    ensures exists i :: 0 <= i < |cs| && p in cs[i].paths && forall j :: 0 <= j < |cs| && p in cs[j].paths ==> j == i
    ensures (exists c :: c in cs && p in c.paths && q in c.paths) <==> Connected(g, p, q)
  {
    var c :| c in cs && p in c.paths;
    var i :| 0 <= i < |cs| && cs[i] == c;
    forall j | 0 <= j < |cs| && p in cs[j].paths
      ensures j == i
    {
      SharedFileSameComponent(g, seeds, cs[i], cs[j], p);
    }
    SameClass(g, seeds, c, p, q);
    if d :| d in cs && p in d.paths && q in d.paths {
      SharedFileSameComponent(g, seeds, c, d, p);
    }
  }

  lemma SameMember(g: GraphSignals, seeds: set<Path>, a: seq<Component>, b: seq<Component>, c: Component)
    requires Dual(g) && ComponentsOf(g, seeds, a) && ComponentsOf(g, seeds, b) && c in a
    ensures c in b
  {
    var p := c.paths[0];
    assert p in c.paths;
    var d :| d in b && p in d.paths;
    SharedFileSameComponent(g, seeds, c, d, p);
  }

  /** No freedom is left: the listing cannot depend on any hash iteration order. */
  lemma ComponentsDetermined(g: GraphSignals, seeds: set<Path>, a: seq<Component>, b: seq<Component>)
    requires Dual(g) && ComponentsOf(g, seeds, a) && ComponentsOf(g, seeds, b)
    ensures a == b
  {
    forall c
      ensures c in a <==> c in b
    {
      if c in a {
        SameMember(g, seeds, a, b, c);
      }
      if c in b {
        SameMember(g, seeds, b, a, c);
      }
    }
    forall x, y | x in a && y in a && ComponentLe(x, y) && ComponentLe(y, x)
      ensures x == y
    {
      PathLeAntisymmetric(x.paths[0], y.paths[0]);
      SharedFileSameComponent(g, seeds, x, y, x.paths[0]);
    }
    EnumerationMultiset(a, Elements(a));
    EnumerationMultiset(b, Elements(a));
    SortedUnique(a, b, ComponentLe);
  }

  /** More seeds first; then more files; then the smaller first path. */
  ghost predicate ListedBefore(c: Component, d: Component) {
    || |c.seedPaths| > |d.seedPaths|
    || (|c.seedPaths| == |d.seedPaths| && |c.paths| > |d.paths|)
    || (|c.seedPaths| == |d.seedPaths| && |c.paths| == |d.paths| > 0 && c.paths[0] != d.paths[0]
        && PathLe(c.paths[0], d.paths[0]))
  }

  /** What the listing says of its seeds and in which order it stands. */
  lemma ListingTells(g: GraphSignals, seeds: set<Path>, cs: seq<Component>, i: nat)
    requires ComponentsOf(g, seeds, cs) && i < |cs|
    ensures forall p :: p in cs[i].seedPaths <==> p in cs[i].paths && p in seeds
    ensures Distinct(cs[i].seedPaths) && Sorted(cs[i].seedPaths, PathLe)
    ensures |cs[i].paths| == |Elements(cs[i].paths)| && |cs[i].seedPaths| == |Elements(cs[i].paths) * seeds|
    ensures |cs[i].paths| > 0 && forall p :: p in cs[i].paths ==> PathLe(cs[i].paths[0], p)
    ensures forall j :: 0 <= j < |cs| && ListedBefore(cs[i], cs[j]) ==> i < j
  {
    hide Connected, PathLe;
    var c := cs[i];
    assert c in cs;
    EnumerationSize(c.paths, Elements(c.paths));
    EnumerationSize(c.seedPaths, Elements(c.paths) * seeds);
    PathOrder();
    ComponentOrder();
    forall j | 0 <= j < |cs| && ListedBefore(cs[i], cs[j])
      ensures i < j
    {
      SmallerIsEarlier(cs, ComponentLe, i, j);
    }
  }

  // ---------- The search ----------

  /** Progress of one search from start: everything pushed is new and connected; what was popped is expanded. */
  ghost predicate Searching(g: GraphSignals, start: Path, before: set<Path>, visited: set<Path>, pushed: seq<Path>,
                            front: nat)
  {
    && front <= |pushed| && |pushed| > 0 && pushed[0] == start
    && Distinct(pushed) && Elements(pushed) !! before && visited == before + Elements(pushed)
    && (forall p :: p in pushed ==> p in g.files && Connected(g, start, p))
    && (forall i, q :: 0 <= i < front && Neighbor(g, pushed[i], q) ==> q in visited)
  }

  lemma StartSearching(g: GraphSignals, start: Path, before: set<Path>)
    requires start in g.files && start !in before
    ensures Searching(g, start, before, before + {start}, [start], 0)
  {
    assert Steps(g, start, start, 0);
  }

  lemma PushSearching(g: GraphSignals, start: Path, before: set<Path>, visited: set<Path>, pushed: seq<Path>,
                      front: nat, q: Path)
    requires Searching(g, start, before, visited, pushed, front) && front < |pushed|
    requires Neighbor(g, pushed[front], q) && q !in visited
    ensures Searching(g, start, before, visited + {q}, pushed + [q], front)
    ensures (pushed + [q])[front] == pushed[front]
  {
    var p := pushed[front];
    assert p in pushed;
    var n: nat :| Steps(g, start, p, n);
    assert Steps(g, start, q, n + 1);
    assert Elements(pushed + [q]) == Elements(pushed) + {q};
  }

  lemma PopSearching(g: GraphSignals, start: Path, before: set<Path>, visited: set<Path>, pushed: seq<Path>, front: nat)
    requires Searching(g, start, before, visited, pushed, front) && front < |pushed|
    requires forall q :: Neighbor(g, pushed[front], q) ==> q in visited
    ensures Searching(g, start, before, visited, pushed, front + 1)
  {
  }

  /** An exhausted search has found the whole class, and what is visited is again closed. */
  lemma SearchFindsClass(g: GraphSignals, start: Path, before: set<Path>, visited: set<Path>, pushed: seq<Path>)
    requires Dual(g) && ClosedUnder(g, before) && Searching(g, start, before, visited, pushed, |pushed|)
    ensures ClosedUnder(g, visited)
    ensures forall q :: q in pushed <==> Connected(g, start, q)
  {
    var found := Elements(pushed);
    forall p, q | p in found && Neighbor(g, p, q)
      ensures q in found
    {
      var i :| 0 <= i < |pushed| && pushed[i] == p;
      assert q in visited;
      NeighborSymmetric(g, p, q);
    }
    forall q | Connected(g, start, q)
      ensures q in pushed
    {
      var n: nat :| Steps(g, start, q, n);
      assert pushed[0] in found;
      ClosedHoldsReachable(g, found, start, q, n);
    }
  }

  /** Breadth-first search over both lists; the VecDeque is `pushed` with a front index. */
  method SearchComponent(g: GraphSignals, start: Path, before: set<Path>) returns (paths: seq<Path>, visited: set<Path>)
    requires Dual(g) && ClosedUnder(g, before) && start in g.files && start !in before
    ensures ClosedUnder(g, visited) && visited == before + Elements(paths) && Elements(paths) !! before
    ensures Distinct(paths) && start in paths
    ensures forall p :: p in paths ==> p in g.files
    ensures forall q :: q in paths <==> Connected(g, start, q)
  {
    hide Searching, Dual, Connected;
    visited := before + {start};
    var pushed := [start];
    var front := 0;
    StartSearching(g, start, before);
    SearchFits(g, start, before, visited, pushed, front);
    while front < |pushed|
      invariant front <= |pushed| <= |g.files.Keys|
      invariant Searching(g, start, before, visited, pushed, front)
      decreases |g.files.Keys| - front
    {
      pushed, visited := ExpandNode(g, start, before, visited, pushed, front);
      front := front + 1;
      SearchFits(g, start, before, visited, pushed, front);
    }
    paths := pushed;
    SearchFindsClass(g, start, before, visited, pushed);
    SearchResult(g, start, before, visited, pushed);
  }

  lemma SearchFits(g: GraphSignals, start: Path, before: set<Path>, visited: set<Path>, pushed: seq<Path>, front: nat)
    requires Searching(g, start, before, visited, pushed, front)
    ensures front <= |pushed| <= |g.files.Keys|
  {
    DistinctFits(pushed, g.files.Keys);
  }

  lemma SearchResult(g: GraphSignals, start: Path, before: set<Path>, visited: set<Path>, pushed: seq<Path>)
    requires Searching(g, start, before, visited, pushed, |pushed|)
    ensures visited == before + Elements(pushed) && Elements(pushed) !! before
    ensures Distinct(pushed) && start in pushed && forall p :: p in pushed ==> p in g.files
  {
  }

  method ExpandNode(g: GraphSignals, start: Path, ghost before: set<Path>, visited: set<Path>, pushed: seq<Path>,
                    front: nat)
    returns (pushed': seq<Path>, visited': set<Path>)
    requires Searching(g, start, before, visited, pushed, front) && front < |pushed|
    ensures Searching(g, start, before, visited', pushed', front + 1)
  {
    hide Searching;
    pushed', visited' := pushed, visited;
    var path := pushed[front];
    FrontIsFile(g, start, before, visited, pushed, front);
    var signal := g.files[path];
    var neighbors := signal.dependencies + signal.dependents;
    for k := 0 to |neighbors|
      invariant Searching(g, start, before, visited', pushed', front) && front < |pushed'| && pushed'[front] == path
      invariant forall i :: 0 <= i < k && neighbors[i] in g.files ==> neighbors[i] in visited'
    {
      var neighbor := neighbors[k];
      if neighbor in g.files && neighbor !in visited' {
        assert neighbor in neighbors;
        PushSearching(g, start, before, visited', pushed', front, neighbor);
        visited' := visited' + {neighbor};
        pushed' := pushed' + [neighbor];
      }
    }
    forall q | Neighbor(g, path, q)
      ensures q in visited'
    {
      assert q in neighbors;
    }
    PopSearching(g, start, before, visited', pushed', front);
  }

  lemma FrontIsFile(g: GraphSignals, start: Path, before: set<Path>, visited: set<Path>, pushed: seq<Path>, front: nat)
    requires Searching(g, start, before, visited, pushed, front) && front < |pushed|
    ensures pushed[front] in g.files
  {
    assert pushed[front] in pushed;
  }

  method FilterSeeds(paths: seq<Path>, seeds: set<Path>) returns (chosen: seq<Path>)
    requires Distinct(paths) && Sorted(paths, PathLe)
    ensures ListsSeeds(paths, seeds, chosen)
  {
    hide PathLe;
    chosen := [];
    for k := 0 to |paths|
      invariant Distinct(chosen) && Sorted(chosen, PathLe)
      invariant forall p :: p in chosen <==> p in paths[..k] && p in seeds
    {
      TakeOneMore(paths, k);
      if paths[k] in seeds {
        forall i | 0 <= i < |chosen|
          ensures chosen[i] != paths[k] && PathLe(chosen[i], paths[k])
        {
          assert chosen[i] in chosen;
          var j :| 0 <= j < k && paths[..k][j] == chosen[i];
        }
        chosen := chosen + [paths[k]];
      }
    }
    TakeAll(paths);
  }

  lemma SortedClass(found: seq<Path>)
    requires Distinct(found)
    ensures Distinct(Sort(found, PathLe)) && Sorted(Sort(found, PathLe), PathLe)
  {
    PathOrder();
    SortPermutes(found, PathLe);
    SortSorted(found, PathLe);
    DistinctByMultiset(found, Sort(found, PathLe));
  }

  lemma SortedClassIsComponent(g: GraphSignals, seeds: set<Path>, start: Path, found: seq<Path>, paths: seq<Path>,
                               seedPaths: seq<Path>)
    requires Dual(g) && Distinct(found) && start in found && (forall p :: p in found ==> p in g.files)
    requires forall q :: q in found <==> Connected(g, start, q)
    requires paths == Sort(found, PathLe) && ListsSeeds(paths, seeds, seedPaths)
    ensures IsComponent(g, seeds, Component(paths, seedPaths))
    ensures Elements(paths) == Elements(found)
  {
    hide ListsSeeds;
    SortedClass(found);
    SortPermutes(found, PathLe);
    var first := paths[0];
    assert first in paths;
    forall q
      ensures q in paths <==> Connected(g, first, q)
    {
      ConnectedIsEquivalence(g, start, first, q);
      ConnectedIsEquivalence(g, first, start, q);
    }
  }

  /** The components found so far are exactly what has been visited. */
  ghost predicate Found(g: GraphSignals, seeds: set<Path>, cs: seq<Component>, visited: set<Path>) {
    && (forall c :: c in cs ==> IsComponent(g, seeds, c))
    && Distinct(cs)
    && (forall p :: p in visited <==> exists c :: c in cs && p in c.paths)
    && ClosedUnder(g, visited)
  }

  lemma AddComponent(g: GraphSignals, seeds: set<Path>, cs: seq<Component>, before: set<Path>, visited: set<Path>,
                     c: Component)
    requires Found(g, seeds, cs, before) && IsComponent(g, seeds, c)
    requires Elements(c.paths) !! before && visited == before + Elements(c.paths) && ClosedUnder(g, visited)
    ensures Found(g, seeds, cs + [c], visited)
  {
    assert c.paths[0] in Elements(c.paths);
    assert c !in cs;
    forall p
      ensures p in visited <==> exists d :: d in cs + [c] && p in d.paths
    {
      if p in before {
        var d :| d in cs && p in d.paths;
        assert d in cs + [c];
      } else if p in c.paths {
        assert c in cs + [c];
      }
    }
  }

  lemma NothingFound(g: GraphSignals, seeds: set<Path>)
    ensures Found(g, seeds, [], {})
  {
  }

  lemma FoundIsClosed(g: GraphSignals, seeds: set<Path>, cs: seq<Component>, visited: set<Path>)
    requires Found(g, seeds, cs, visited)
    ensures ClosedUnder(g, visited)
  {
  }

  lemma SortedFound(g: GraphSignals, seeds: set<Path>, found: seq<Component>, visited: set<Path>)
    requires Found(g, seeds, found, visited) && g.files.Keys <= visited
    ensures ComponentsOf(g, seeds, Sort(found, ComponentLe))
  {
    hide IsComponent, ClosedUnder, Sort, Sorted, ComponentLe;
    var cs := Sort(found, ComponentLe);
    ComponentOrder();
    SortPermutes(found, ComponentLe);
    SortSorted(found, ComponentLe);
    DistinctByMultiset(found, cs);
    forall p | p in g.files
      ensures exists c :: c in cs && p in c.paths
    {
      assert p in visited;
      var c :| c in found && p in c.paths;
      assert c in cs;
    }
  }

  /** The component of one unvisited file (the body of the outer loop). */
  method AddClassOf(g: GraphSignals, seeds: set<Path>, start: Path, components: seq<Component>, before: set<Path>)
    returns (components': seq<Component>, visited: set<Path>)
    requires Dual(g) && Found(g, seeds, components, before) && start in g.files && start !in before
    ensures Found(g, seeds, components', visited)
    ensures before <= visited && start in visited
  {
    hide Found, IsComponent, ClosedUnder, Connected, Dual, Sorted, Distinct, ListsSeeds, Sort;
    FoundIsClosed(g, seeds, components, before);
    var found: seq<Path>;
    found, visited := SearchComponent(g, start, before);
    var paths := Sort(found, PathLe);
    SortedClass(found);
    var seedPaths := FilterSeeds(paths, seeds);
    SortedClassIsComponent(g, seeds, start, found, paths, seedPaths);
    AddComponent(g, seeds, components, before, visited, Component(paths, seedPaths));
    components' := components + [Component(paths, seedPaths)];
  }

  method FindComponents(g: GraphSignals, seeds: set<Path>) returns (cs: seq<Component>)
    requires Dual(g)
    ensures ComponentsOf(g, seeds, cs)
  {
    hide Found, ComponentsOf, Dual, Sorted;
    var orderedPaths := IterateSorted(g.files.Keys);
    var visited: set<Path> := {};
    var components: seq<Component> := [];
    NothingFound(g, seeds);
    for k := 0 to |orderedPaths|
      invariant Found(g, seeds, components, visited)
      invariant forall i :: 0 <= i < k ==> orderedPaths[i] in visited
    {
      var start := orderedPaths[k];
      assert start in g.files.Keys;
      if start !in visited {
        components, visited := AddClassOf(g, seeds, start, components, visited);
      }
    }
    assert forall p :: p in g.files.Keys ==> p in orderedPaths;
    cs := Sort(components, ComponentLe);
    SortedFound(g, seeds, components, visited);
  }
}
