/** Multi-source dependent search of the context planner (src/context.rs). */
module Reach {
  import opened Orders
  import opened GraphModel

  datatype GraphReach = GraphReach(sourceSeed: Path, distance: nat, resolver: Option<string>)

  // ---------- What the search promises ----------

  /** n is reached from s by following exactly d dependent edges. */
  ghost predicate ReachesIn(g: GraphSignals, s: Path, n: Path, d: nat)
    decreases d
  {
    if d == 0 then s == n
    else exists m :: ReachesIn(g, s, m, d - 1) && DependentEdge(g, m, n)
  }

  /** No seed reaches n in fewer edges, and among those as near the source is the least. */
  ghost predicate Nearest(g: GraphSignals, seeds: set<Path>, n: Path, d: nat, s: Path) {
    && s in seeds && ReachesIn(g, s, n, d)
    && forall s', d' :: s' in seeds && ReachesIn(g, s', n, d') ==> d < d' || (d == d' && PathLe(s, s'))
  }

  function DirectResolver(g: GraphSignals, s: Path, n: Path, d: nat): Option<string> {
    if d == 1 && s in g.files && n in g.files[s].dependentResolvers
    then Some(g.files[s].dependentResolvers[n])
    else None
  }

  /** Evidence is kept where the seed itself lists n: the resolver the seed's signal names for it, if it names one. */
  ghost predicate ShowsResolver(g: GraphSignals, n: Path, r: GraphReach) {
    && (r.resolver.Some? <==> r.distance == 1 && r.sourceSeed in g.files
                              && n in g.files[r.sourceSeed].dependentResolvers)
    && (r.resolver.Some? ==> r.resolver.value == g.files[r.sourceSeed].dependentResolvers[n])
  }

  ghost predicate IsReach(g: GraphSignals, seeds: set<Path>, reach: map<Path, GraphReach>) {
    && (forall n :: n in reach ==>
          && n !in seeds
          && Nearest(g, seeds, n, reach[n].distance, reach[n].sourceSeed)
          && ShowsResolver(g, n, reach[n]))
    && (forall n, s, d :: n !in seeds && s in seeds && ReachesIn(g, s, n, d) ==> n in reach)
  }

  /** The promise leaves no freedom: hash iteration order cannot show in the answer. */
  lemma ReachDetermined(g: GraphSignals, seeds: set<Path>, a: map<Path, GraphReach>, b: map<Path, GraphReach>)
    requires IsReach(g, seeds, a) && IsReach(g, seeds, b)
    ensures a == b
  {
    forall n | n in a || n in b
      ensures n in a && n in b && a[n] == b[n]
    {
      var r := if n in a then a[n] else b[n];
      assert ReachesIn(g, r.sourceSeed, n, r.distance);
      PathLeAntisymmetric'(a[n].sourceSeed, b[n].sourceSeed);
    }
  }

  lemma PathLeAntisymmetric'(a: Path, b: Path)
    ensures PathLe(a, b) && PathLe(b, a) ==> a == b
  {
    if PathLe(a, b) && PathLe(b, a) {
      PathLeAntisymmetric(a, b);
    }
  }

  ghost function Position(s: seq<Path>, x: Path): (i: nat)
    requires x in s
    ensures i < |s| && s[i] == x
  {
    var i :| 0 <= i < |s| && s[i] == x;
    i
  }

  // ---------- Search state ----------

  /** What is known of a discovered node: its distance and the position of its seed in sorted order. */
  datatype Mark = Mark(distance: nat, seed: nat)

  ghost predicate MarkLe(a: Mark, b: Mark) {
    a.distance < b.distance || (a.distance == b.distance && a.seed <= b.seed)
  }

  function Beyond(a: Mark): Mark {
    Mark(a.distance + 1, a.seed)
  }

  ghost predicate Closed(g: GraphSignals, marks: map<Path, Mark>, p: Path) {
    p in marks &&
    forall q :: DependentEdge(g, p, q) ==> q in marks && MarkLe(marks[q], Beyond(marks[p]))
  }

  /** Everything known so far is no farther than one step beyond p. */
  ghost predicate Bounded(marks: map<Path, Mark>, p: Path) {
    p in marks && forall n :: n in marks ==> MarkLe(marks[n], Beyond(marks[p]))
  }

  /** Nodes enter the queue at most once, in the order of their marks. */
  ghost predicate Layered(marks: map<Path, Mark>, order: seq<Path>) {
    && Distinct(order) && Elements(order) == marks.Keys
    && forall i, j :: 0 <= i < j < |order| ==> MarkLe(marks[order[i]], marks[order[j]])
  }

  /** Every mark is witnessed by a walk from its seed. */
  ghost predicate Witnessed(g: GraphSignals, seeds: seq<Path>, marks: map<Path, Mark>) {
    && (forall i :: 0 <= i < |seeds| ==> seeds[i] in marks && marks[seeds[i]] == Mark(0, i))
    && forall n :: n in marks ==> marks[n].seed < |seeds| && ReachesIn(g, seeds[marks[n].seed], n, marks[n].distance)
  }

  /** The queue is order[relaxed..]; every node popped before it has all its dependents marked. */
  ghost predicate Searching(g: GraphSignals, seeds: seq<Path>, marks: map<Path, Mark>, order: seq<Path>, relaxed: nat) {
    && relaxed <= |order|
    && Layered(marks, order)
    && Witnessed(g, seeds, marks)
    && (relaxed < |order| ==> Bounded(marks, order[relaxed]))
    && (forall i :: 0 <= i < relaxed ==> Closed(g, marks, order[i]))
  }

  /** A fully relaxed search is a lower bound on every walk. */
  lemma {:induction false} WalkBound(g: GraphSignals, seeds: seq<Path>, marks: map<Path, Mark>, i: nat, n: Path, d: nat)
    requires i < |seeds| && Witnessed(g, seeds, marks)
    requires forall p :: p in marks ==> Closed(g, marks, p)
    requires ReachesIn(g, seeds[i], n, d)
    ensures n in marks && MarkLe(marks[n], Mark(d, i))
    decreases d
  {
    if d > 0 {
      var m :| ReachesIn(g, seeds[i], m, d - 1) && DependentEdge(g, m, n);
      WalkBound(g, seeds, marks, i, m, d - 1);
      assert Closed(g, marks, m);
    }
  }

  /** Enqueuing a node discovered from the node being expanded keeps the search in shape. */
  lemma Discover(g: GraphSignals, seeds: seq<Path>, marks: map<Path, Mark>, order: seq<Path>, relaxed: nat, q: Path)
    requires Searching(g, seeds, marks, order, relaxed) && relaxed < |order|
    requires DependentEdge(g, order[relaxed], q) && q !in marks
    ensures Searching(g, seeds, marks[q := Beyond(marks[order[relaxed]])], order + [q], relaxed)
    ensures (order + [q])[relaxed] == order[relaxed]
  {
    var p := order[relaxed];
    var marks' := marks[q := Beyond(marks[p])];
    assert ReachesIn(g, seeds[marks[p].seed], q, marks[p].distance + 1);
    forall i | 0 <= i < relaxed
      ensures Closed(g, marks', (order + [q])[i])
    {
      assert Closed(g, marks, order[i]);
    }
  }

  /** Once all its dependents are known the expanded node is relaxed and the next queue head takes over. */
  lemma FinishNode(g: GraphSignals, seeds: seq<Path>, marks: map<Path, Mark>, order: seq<Path>, relaxed: nat)
    requires Searching(g, seeds, marks, order, relaxed) && relaxed < |order|
    requires forall q :: DependentEdge(g, order[relaxed], q) ==> q in marks
    ensures Searching(g, seeds, marks, order, relaxed + 1)
  {
    assert Closed(g, marks, order[relaxed]);
    if relaxed + 1 < |order| {
      assert MarkLe(marks[order[relaxed]], marks[order[relaxed + 1]]);
    }
  }

  // ---------- Linking the search variables to the marks ----------

  /** The source's three maps say exactly what the marks say. */
  ghost predicate Records(g: GraphSignals, seeds: seq<Path>, marks: map<Path, Mark>, distances: map<Path, nat>,
                          origins: map<Path, Path>, reach: map<Path, GraphReach>)
  {
    && distances.Keys == marks.Keys && origins.Keys == marks.Keys
    && (forall n :: n in marks ==> marks[n].seed < |seeds|)
    && (forall n :: n in marks ==> distances[n] == marks[n].distance && origins[n] == seeds[marks[n].seed])
    && (forall n :: n in reach <==> n in marks && n !in seeds)
    && (forall n :: n in reach ==>
          reach[n] == GraphReach(origins[n], distances[n], DirectResolver(g, origins[n], n, distances[n])))
  }

  function Found(g: GraphSignals, seeds: set<Path>, reach: map<Path, GraphReach>, q: Path, s: Path, d: nat)
    : map<Path, GraphReach>
  {
    if q in seeds then reach else reach[q := GraphReach(s, d, DirectResolver(g, s, q, d))]
  }

  lemma StartSearch(g: GraphSignals, seeds: set<Path>, ordered: seq<Path>, marks: map<Path, Mark>)
    requires Enumerates(ordered, seeds)
    requires marks == map s | s in seeds :: Mark(0, Position(ordered, s))
    ensures Searching(g, ordered, marks, ordered, 0)
    ensures Records(g, ordered, marks, map s | s in seeds :: 0, map s | s in seeds :: s, map[])
  {
    forall i | 0 <= i < |ordered|
      ensures ordered[i] in marks && marks[ordered[i]] == Mark(0, i)
    {
      assert ordered[i] in seeds;
    }
    assert Elements(ordered) == marks.Keys;
  }

  /** The layered queue means a node already known is never improved. */
  lemma NeverImproved(g: GraphSignals, seeds: seq<Path>, marks: map<Path, Mark>, order: seq<Path>, relaxed: nat,
                      distances: map<Path, nat>, origins: map<Path, Path>, reach: map<Path, GraphReach>, q: Path)
    requires Searching(g, seeds, marks, order, relaxed) && relaxed < |order|
    requires Records(g, seeds, marks, distances, origins, reach)
    ensures var p := order[relaxed];
            && p in marks && p in distances && p in origins && distances[p] == marks[p].distance
            && (q in distances <==> q in marks)
            && (q in distances ==> distances[q] <= distances[p] + 1)
  {
  }

  lemma DiscoverRecords(g: GraphSignals, seeds: set<Path>, ordered: seq<Path>, marks: map<Path, Mark>,
                        distances: map<Path, nat>, origins: map<Path, Path>, reach: map<Path, GraphReach>, p: Path,
                        q: Path)
    requires Enumerates(ordered, seeds)
    requires Records(g, ordered, marks, distances, origins, reach) && p in marks && q !in marks
    ensures Records(g, ordered, marks[q := Beyond(marks[p])], distances[q := distances[p] + 1],
                    origins[q := origins[p]], Found(g, seeds, reach, q, origins[p], distances[p] + 1))
  {
  }

  /** A resolver is read off the popped node; at distance one that node is the seed itself. */
  lemma ResolverFromSeed(g: GraphSignals, ordered: seq<Path>, marks: map<Path, Mark>, order: seq<Path>, relaxed: nat,
                         distances: map<Path, nat>, origins: map<Path, Path>, reach: map<Path, GraphReach>, q: Path)
    requires Searching(g, ordered, marks, order, relaxed) && relaxed < |order|
    requires Records(g, ordered, marks, distances, origins, reach)
    requires order[relaxed] in g.files
    ensures var p := order[relaxed];
            && p in distances && p in origins
            && (if distances[p] + 1 == 1 && q in g.files[p].dependentResolvers
                then Some(g.files[p].dependentResolvers[q]) else None)
               == DirectResolver(g, origins[p], q, distances[p] + 1)
  {
    assert order[relaxed] in marks;
  }

  lemma FinishedIsReach(g: GraphSignals, seeds: set<Path>, ordered: seq<Path>, marks: map<Path, Mark>, order: seq<Path>,
                        distances: map<Path, nat>, origins: map<Path, Path>, reach: map<Path, GraphReach>)
    requires Enumerates(ordered, seeds) && Sorted(ordered, PathLe)
    requires Searching(g, ordered, marks, order, |order|)
    requires Records(g, ordered, marks, distances, origins, reach)
    ensures IsReach(g, seeds, reach)
  {
    hide Closed, Layered, ReachesIn, ShowsResolver, Nearest, Records, Witnessed;
    AllRelaxed(g, ordered, marks, order);
    forall n | n in reach
      ensures n !in seeds && ShowsResolver(g, n, reach[n])
      ensures Nearest(g, seeds, n, reach[n].distance, reach[n].sourceSeed)
    {
      RecordedParts(g, seeds, ordered, marks, distances, origins, reach, n);
      MarkIsNearest(g, seeds, ordered, marks, n);
    }
    forall n, s, d: nat | n !in seeds && s in seeds && ReachesIn(g, s, n, d)
      ensures n in reach
    {
      ReachedIsRecorded(g, seeds, ordered, marks, distances, origins, reach, n, s, d);
    }
  }

  lemma ReachedIsRecorded(g: GraphSignals, seeds: set<Path>, ordered: seq<Path>, marks: map<Path, Mark>,
                          distances: map<Path, nat>, origins: map<Path, Path>, reach: map<Path, GraphReach>, n: Path,
                          s: Path, d: nat)
    requires Enumerates(ordered, seeds) && Witnessed(g, ordered, marks)
    requires Records(g, ordered, marks, distances, origins, reach)
    requires forall p :: p in marks ==> Closed(g, marks, p)
    requires n !in seeds && s in seeds && ReachesIn(g, s, n, d)
    ensures n in reach
  {
    hide ReachesIn, Closed, Witnessed, DirectResolver;
    WalkBound(g, ordered, marks, Position(ordered, s), n, d);
  }

  lemma RecordedParts(g: GraphSignals, seeds: set<Path>, ordered: seq<Path>, marks: map<Path, Mark>,
                      distances: map<Path, nat>, origins: map<Path, Path>, reach: map<Path, GraphReach>, n: Path)
    requires Enumerates(ordered, seeds) && Records(g, ordered, marks, distances, origins, reach) && n in reach
    ensures n in marks && n !in seeds && marks[n].seed < |ordered|
    ensures reach[n].distance == marks[n].distance && reach[n].sourceSeed == ordered[marks[n].seed]
    ensures ShowsResolver(g, n, reach[n])
  {
    hide ShowsResolver, DirectResolver;
    ResolverShown(g, n, reach[n]);
  }

  lemma ResolverShown(g: GraphSignals, n: Path, r: GraphReach)
    requires r.resolver == DirectResolver(g, r.sourceSeed, n, r.distance)
    ensures ShowsResolver(g, n, r)
  {
  }

  lemma MarkIsNearest(g: GraphSignals, seeds: set<Path>, ordered: seq<Path>, marks: map<Path, Mark>, n: Path)
    requires Enumerates(ordered, seeds) && Sorted(ordered, PathLe)
    requires Witnessed(g, ordered, marks) && n in marks
    requires forall p :: p in marks ==> Closed(g, marks, p)
    ensures Nearest(g, seeds, n, marks[n].distance, ordered[marks[n].seed])
  {
    forall s, d: nat | s in seeds && ReachesIn(g, s, n, d)
      ensures marks[n].distance < d || (marks[n].distance == d && PathLe(ordered[marks[n].seed], s))
    {
      WalkBound(g, ordered, marks, Position(ordered, s), n, d);
      PathLeTotal(s, s);
    }
  }

  lemma AllRelaxed(g: GraphSignals, seeds: seq<Path>, marks: map<Path, Mark>, order: seq<Path>)
    requires Searching(g, seeds, marks, order, |order|)
    ensures forall p :: p in marks ==> Closed(g, marks, p)
  {
    forall p | p in marks
      ensures Closed(g, marks, p)
    {
      assert p in Elements(order);
      var i := Position(order, p);
    }
  }

  /** What the finished search guarantees about the order of discovery. */
  ghost predicate DiscoveryOrder(seeds: set<Path>, reach: map<Path, GraphReach>, order: seq<Path>) {
    && Distinct(order)
    && Elements(order) == seeds + reach.Keys
    && forall i, j :: 0 <= i < j < |order| ==>
         if order[j] !in reach then order[i] in seeds
         else order[i] in reach ==> reach[order[i]].distance <= reach[order[j]].distance
  }

  lemma FinishedOrder(g: GraphSignals, seeds: set<Path>, ordered: seq<Path>, marks: map<Path, Mark>, order: seq<Path>,
                      distances: map<Path, nat>, origins: map<Path, Path>, reach: map<Path, GraphReach>)
    requires Enumerates(ordered, seeds)
    requires Searching(g, ordered, marks, order, |order|)
    requires Records(g, ordered, marks, distances, origins, reach)
    ensures DiscoveryOrder(seeds, reach, order)
  {
    hide Searching, Records, Layered, Witnessed, ReachesIn;
    OrderedNodes(g, seeds, ordered, marks, order, distances, origins, reach);
    forall i, j | 0 <= i < j < |order|
      ensures if order[j] !in reach then order[i] in seeds
              else order[i] in reach ==> reach[order[i]].distance <= reach[order[j]].distance
    {
      OrderedPair(g, seeds, ordered, marks, order, distances, origins, reach, i, j);
    }
  }

  lemma OrderedNodes(g: GraphSignals, seeds: set<Path>, ordered: seq<Path>, marks: map<Path, Mark>, order: seq<Path>,
                     distances: map<Path, nat>, origins: map<Path, Path>, reach: map<Path, GraphReach>)
    requires Enumerates(ordered, seeds)
    requires Searching(g, ordered, marks, order, |order|)
    requires Records(g, ordered, marks, distances, origins, reach)
    ensures Distinct(order) && Elements(order) == seeds + reach.Keys
  {
    hide ReachesIn, Closed;
    assert forall s :: s in seeds <==> s in ordered;
    assert forall s :: s in ordered ==> s in marks;
  }

  /** Nodes are discovered by distance, and no seed after another node. */
  lemma OrderedPair(g: GraphSignals, seeds: set<Path>, ordered: seq<Path>, marks: map<Path, Mark>, order: seq<Path>,
                    distances: map<Path, nat>, origins: map<Path, Path>, reach: map<Path, GraphReach>, i: nat, j: nat)
    requires Enumerates(ordered, seeds) && i < j < |order|
    requires Searching(g, ordered, marks, order, |order|)
    requires Records(g, ordered, marks, distances, origins, reach)
    ensures if order[j] !in reach then order[i] in seeds
            else order[i] in reach ==> reach[order[i]].distance <= reach[order[j]].distance
  {
    hide Closed, DirectResolver;
    assert order[i] in Elements(order) && order[j] in Elements(order);
    assert MarkLe(marks[order[i]], marks[order[j]]);
    assert ReachesIn(g, ordered[marks[order[i]].seed], order[i], marks[order[i]].distance);
  }

  // ---------- The search itself ----------

  // The VecDeque is the sequence of everything ever pushed and the index of its front:
  // push_back appends to `pushed`, pop_front advances `front`.

  ghost function Targets(g: GraphSignals, p: Path): set<Path> {
    if p in g.files then Elements(g.files[p].dependents) else {}
  }

  /** One dependent of the popped node (the body of the inner loop). */
  method Visit(g: GraphSignals, seeds: set<Path>, path: Path, dependent: Path, pushed: seq<Path>, ghost front: nat,
               distances: map<Path, nat>, origins: map<Path, Path>, reach: map<Path, GraphReach>,
               ghost ordered: seq<Path>, ghost marks: map<Path, Mark>)
    returns (pushed': seq<Path>, distances': map<Path, nat>, origins': map<Path, Path>, reach': map<Path, GraphReach>,
             ghost marks': map<Path, Mark>)
    requires Enumerates(ordered, seeds)
    requires Searching(g, ordered, marks, pushed, front) && front < |pushed| && path == pushed[front]
    requires Records(g, ordered, marks, distances, origins, reach)
    requires DependentEdge(g, path, dependent)
    ensures Searching(g, ordered, marks', pushed', front)
    ensures Records(g, ordered, marks', distances', origins', reach')
    ensures front < |pushed'| && pushed'[front] == path
    ensures dependent in marks' && marks.Keys <= marks'.Keys && forall n :: n in marks' ==> n in marks || n == dependent
  {
    hide Searching, Records;
    pushed', distances', origins', reach', marks' := pushed, distances, origins, reach, marks;
    NeverImproved(g, ordered, marks, pushed, front, distances, origins, reach, dependent);
    var next := distances[path] + 1;
    if dependent in distances && distances[dependent] <= next {
      return;
    }
    // The layered queue means a known node is never improved.
    assert dependent !in distances;
    Discover(g, ordered, marks, pushed, front, dependent);
    DiscoverRecords(g, seeds, ordered, marks, distances, origins, reach, path, dependent);
    ResolverFromSeed(g, ordered, marks, pushed, front, distances, origins, reach, dependent);
    marks' := marks[dependent := Beyond(marks[path])];
    distances' := distances[dependent := next];
    var sourceSeed := origins[path];
    origins' := origins[dependent := sourceSeed];
    pushed' := pushed + [dependent];
    if dependent !in seeds {
      var resolvers := g.files[path].dependentResolvers;
      var resolver := if next == 1 && dependent in resolvers then Some(resolvers[dependent]) else None;
      reach' := reach[dependent := GraphReach(sourceSeed, next, resolver)];
    }
    assert reach' == Found(g, seeds, reach, dependent, origins[path], next);
  }

  /** Follow every dependent of the popped node (the body of the queue loop). */
  method Expand(g: GraphSignals, seeds: set<Path>, path: Path, pushed: seq<Path>, ghost front: nat,
                distances: map<Path, nat>, origins: map<Path, Path>, reach: map<Path, GraphReach>,
                ghost ordered: seq<Path>, ghost marks: map<Path, Mark>)
    returns (pushed': seq<Path>, distances': map<Path, nat>, origins': map<Path, Path>, reach': map<Path, GraphReach>,
             ghost marks': map<Path, Mark>)
    requires Enumerates(ordered, seeds)
    requires Searching(g, ordered, marks, pushed, front) && front < |pushed| && path == pushed[front]
    requires Records(g, ordered, marks, distances, origins, reach)
    ensures Searching(g, ordered, marks', pushed', front + 1)
    ensures Records(g, ordered, marks', distances', origins', reach')
    ensures marks'.Keys <= marks.Keys + Targets(g, path)
  {
    hide Searching, Records;
    pushed', distances', origins', reach', marks' := pushed, distances, origins, reach, marks;
    if path in g.files {
      var signal := g.files[path];
      for k := 0 to |signal.dependents|
        invariant Searching(g, ordered, marks', pushed', front) && front < |pushed'| && pushed'[front] == path
        invariant Records(g, ordered, marks', distances', origins', reach')
        invariant marks.Keys <= marks'.Keys <= marks.Keys + Targets(g, path)
        invariant forall i :: 0 <= i < k ==> signal.dependents[i] in marks'
      {
        assert DependentEdge(g, path, signal.dependents[k]);
        pushed', distances', origins', reach', marks' :=
          Visit(g, seeds, path, signal.dependents[k], pushed', front, distances', origins', reach', ordered, marks');
      }
    }
    FinishNode(g, ordered, marks', pushed', front);
  }

  /** `pushed` lists the nodes in the order they entered the queue: each at most once, nearest first. */
  method DependentReach(graph: Option<GraphSignals>, seeds: set<Path>)
    returns (reach: map<Path, GraphReach>, pushed: seq<Path>)
    ensures graph.None? ==> reach == map[]
    ensures graph.Some? ==> IsReach(graph.value, seeds, reach) && DiscoveryOrder(seeds, reach, pushed)
  {
    reach, pushed := map[], [];
    if graph.None? {
      return;
    }
    var g := graph.value;
    var ordered := IterateSorted(seeds);
    var distances: map<Path, nat> := map s | s in seeds :: 0;
    var origins: map<Path, Path> := map s | s in seeds :: s;
    pushed := ordered;
    var front := 0;
    ghost var marks: map<Path, Mark> := map s | s in seeds :: Mark(0, Position(ordered, s));
    ghost var universe := seeds + set p, q | p in g.files && q in Targets(g, p) :: q;
    StartSearch(g, seeds, ordered, marks);
    DistinctFits(pushed, universe);
    while front < |pushed|
      invariant Searching(g, ordered, marks, pushed, front)
      invariant Records(g, ordered, marks, distances, origins, reach)
      invariant marks.Keys <= universe && |pushed| <= |universe|
      decreases |universe| - front
    {
      var path := pushed[front];
      pushed, distances, origins, reach, marks :=
        Expand(g, seeds, path, pushed, front, distances, origins, reach, ordered, marks);
      front := front + 1;
      DistinctFits(pushed, universe);
    }
    FinishedIsReach(g, seeds, ordered, marks, pushed, distances, origins, reach);
    FinishedOrder(g, seeds, ordered, marks, pushed, distances, origins, reach);
  }

  // ---------- The neighborhood of a seed set ----------

  datatype Neighborhood = Neighborhood(
    dependencies: map<Path, Option<string>>,
    dependents: map<Path, GraphReach>,
    directDependents: nat,
    transitiveDependents: nat,
    graphEligibleSeedFiles: nat,
    graphCoveredSeedFiles: nat)

  ghost predicate DependsOn(g: GraphSignals, s: Path, q: Path) {
    s in g.files && q in g.files[s].dependencies
  }

  function DependencyResolver(signal: FileSignal, q: Path): Option<string> {
    if q in signal.dependencyResolvers then Some(signal.dependencyResolvers[q]) else None
  }

  /** The resolver the signal names for the dependency, if it names one. */
  ghost predicate NamesResolver(signal: FileSignal, q: Path, resolver: Option<string>) {
    && (resolver.Some? <==> q in signal.dependencyResolvers)
    && (resolver.Some? ==> resolver.value == signal.dependencyResolvers[q])
  }

  /** The evidence for a dependency comes from the least seed that has it. */
  ghost predicate FirstSeedWins(g: GraphSignals, seeds: set<Path>, dependencies: map<Path, Option<string>>) {
    && (forall q :: q in dependencies <==> exists s :: s in seeds && DependsOn(g, s, q))
    && forall q, s :: s in seeds && DependsOn(g, s, q)
         && (forall s' :: s' in seeds && DependsOn(g, s', q) ==> PathLe(s, s'))
         ==> q in dependencies && NamesResolver(g.files[s], q, dependencies[q])
  }

  /** Among the first k seeds, each dependency is recorded from the first seed that has it. */
  ghost predicate FirstOf(g: GraphSignals, ordered: seq<Path>, k: nat, dependencies: map<Path, Option<string>>)
    requires k <= |ordered|
  {
    && (forall q :: q in dependencies ==> exists i :: 0 <= i < k && DependsOn(g, ordered[i], q))
    && (forall i, q :: 0 <= i < k && DependsOn(g, ordered[i], q) ==> q in dependencies)
    && forall i, q ::
         0 <= i < k && DependsOn(g, ordered[i], q) && (forall j :: 0 <= j < i ==> !DependsOn(g, ordered[j], q))
         ==> q in dependencies && dependencies[q] == DependencyResolver(g.files[ordered[i]], q)
  }

  lemma ResolverNamed(signal: FileSignal, q: Path)
    ensures NamesResolver(signal, q, DependencyResolver(signal, q))
  {
  }

  /** The least seed that has a dependency is the first of the sorted seeds that has it. */
  lemma LeastComesFirst(g: GraphSignals, seeds: set<Path>, ordered: seq<Path>, q: Path, s: Path) returns (i: nat)
    requires Enumerates(ordered, seeds) && Sorted(ordered, PathLe) && s in seeds && DependsOn(g, s, q)
    requires forall s' :: s' in seeds && DependsOn(g, s', q) ==> PathLe(s, s')
    ensures i < |ordered| && ordered[i] == s && forall j :: 0 <= j < i ==> !DependsOn(g, ordered[j], q)
  {
    hide PathLe, DependsOn;
    i := Position(ordered, s);
    forall j | 0 <= j < i
      ensures !DependsOn(g, ordered[j], q)
    {
      if DependsOn(g, ordered[j], q) {
        assert ordered[j] in seeds;
        PathLeAntisymmetric(s, ordered[j]);
      }
    }
  }

  lemma FirstIsRecorded(g: GraphSignals, ordered: seq<Path>, dependencies: map<Path, Option<string>>, i: nat, q: Path)
    requires FirstOf(g, ordered, |ordered|, dependencies) && i < |ordered| && DependsOn(g, ordered[i], q)
    ensures q in dependencies
    ensures (forall j :: 0 <= j < i ==> !DependsOn(g, ordered[j], q)) ==>
              NamesResolver(g.files[ordered[i]], q, dependencies[q])
  {
    ResolverNamed(g.files[ordered[i]], q);
  }

  lemma RecordedIsListed(g: GraphSignals, ordered: seq<Path>, dependencies: map<Path, Option<string>>, q: Path)
    requires FirstOf(g, ordered, |ordered|, dependencies) && q in dependencies
    ensures exists s :: s in ordered && DependsOn(g, s, q)
  {
    var i :| 0 <= i < |ordered| && DependsOn(g, ordered[i], q);
    assert ordered[i] in ordered;
  }

  lemma FirstIsLeast(g: GraphSignals, seeds: set<Path>, ordered: seq<Path>, dependencies: map<Path, Option<string>>)
    requires Enumerates(ordered, seeds) && Sorted(ordered, PathLe)
    requires FirstOf(g, ordered, |ordered|, dependencies)
    ensures FirstSeedWins(g, seeds, dependencies)
  {
    hide FirstOf, NamesResolver, PathLe, Sorted;
    forall q, s | s in seeds && DependsOn(g, s, q)
      ensures q in dependencies
      ensures (forall s' :: s' in seeds && DependsOn(g, s', q) ==> PathLe(s, s')) ==>
                NamesResolver(g.files[s], q, dependencies[q])
    {
      FirstIsRecorded(g, ordered, dependencies, Position(ordered, s), q);
      if forall s' :: s' in seeds && DependsOn(g, s', q) ==> PathLe(s, s') {
        var i := LeastComesFirst(g, seeds, ordered, q, s);
        FirstIsRecorded(g, ordered, dependencies, i, q);
      }
    }
    forall q | q in dependencies
      ensures exists s :: s in seeds && DependsOn(g, s, q)
    {
      RecordedIsListed(g, ordered, dependencies, q);
    }
  }

  /** Entries already present stay; each new dependency of this signal is added with its resolver. */
  method RecordDependencies(signal: FileSignal, before: map<Path, Option<string>>)
    returns (after: map<Path, Option<string>>)
    ensures forall q :: q in after <==> q in before || q in signal.dependencies
    ensures forall q :: q in after ==> after[q] == if q in before then before[q] else DependencyResolver(signal, q)
  {
    after := before;
    for j := 0 to |signal.dependencies|
      invariant forall q :: q in after <==> q in before || q in signal.dependencies[..j]
      invariant forall q :: q in after ==> after[q] == if q in before then before[q] else DependencyResolver(signal, q)
    {
      var dependency := signal.dependencies[j];
      if dependency !in after {
        after := after[dependency := DependencyResolver(signal, dependency)];
      }
    }
  }

  method SeedDependencies(g: GraphSignals, seeds: set<Path>) returns (dependencies: map<Path, Option<string>>)
    ensures FirstSeedWins(g, seeds, dependencies)
  {
    var ordered := IterateSorted(seeds);
    dependencies := map[];
    for k := 0 to |ordered|
      invariant FirstOf(g, ordered, k, dependencies)
    {
      var path := ordered[k];
      if path in g.files {
        dependencies := RecordDependencies(g.files[path], dependencies);
      }
    }
    FirstIsLeast(g, seeds, ordered, dependencies);
  }

  function Direct(reach: map<Path, GraphReach>): set<Path> {
    set n | n in reach && reach[n].distance == 1
  }

  function Transitive(reach: map<Path, GraphReach>): set<Path> {
    set n | n in reach && reach[n].distance > 1
  }

  /** Files that some seed lists as a dependent, other than the seeds themselves. */
  function ListedDependents(g: GraphSignals, seeds: set<Path>): set<Path> {
    (set s, q | s in seeds && s in g.files && q in g.files[s].dependents :: q) - seeds
  }

  lemma DirectPlusTransitive(g: GraphSignals, seeds: set<Path>, reach: map<Path, GraphReach>)
    requires IsReach(g, seeds, reach)
    ensures |Direct(reach)| + |Transitive(reach)| == |reach|
  {
    forall n | n in reach
      ensures reach[n].distance >= 1
    {
      assert ReachesIn(g, reach[n].sourceSeed, n, reach[n].distance);
    }
    assert Direct(reach) + Transitive(reach) == reach.Keys;
  }

  /** The direct dependents are the non-seed dependents listed by some seed. */
  lemma DirectAreListed(g: GraphSignals, seeds: set<Path>, reach: map<Path, GraphReach>)
    requires IsReach(g, seeds, reach)
    ensures Direct(reach) == ListedDependents(g, seeds)
  {
    forall q | q in Direct(reach)
      ensures q in ListedDependents(g, seeds)
    {
      var s := reach[q].sourceSeed;
      assert ReachesIn(g, s, q, 1);
      var m :| ReachesIn(g, s, m, 0) && DependentEdge(g, m, q);
    }
    forall q | q in ListedDependents(g, seeds)
      ensures q in Direct(reach)
    {
      var s :| s in seeds && s in g.files && q in g.files[s].dependents;
      assert ReachesIn(g, s, s, 0) && DependentEdge(g, s, q);
      assert ReachesIn(g, s, q, 1);
      assert ReachesIn(g, reach[q].sourceSeed, q, reach[q].distance);
    }
  }

  method GraphNeighborhood(graph: Option<GraphSignals>, seeds: set<Path>, firstClass: Path -> bool)
    returns (n: Neighborhood)
    ensures graph.None? ==> n.dependencies == map[] && n.dependents == map[] && n.graphCoveredSeedFiles == 0
    ensures graph.Some? ==>
              FirstSeedWins(graph.value, seeds, n.dependencies) && IsReach(graph.value, seeds, n.dependents)
    ensures n.directDependents + n.transitiveDependents == |n.dependents|
    ensures graph.Some? ==> n.directDependents == |ListedDependents(graph.value, seeds)|
    ensures n.graphEligibleSeedFiles == |set s | s in seeds && firstClass(s)|
    ensures graph.Some? ==> n.graphCoveredSeedFiles == |seeds * graph.value.files.Keys|
  {
    hide FirstSeedWins, IsReach, Direct, Transitive, ListedDependents;
    var dependencies := map[];
    if graph.Some? {
      dependencies := SeedDependencies(graph.value, seeds);
    }
    var dependents, _ := DependentReach(graph, seeds);
    var eligible := set s | s in seeds && firstClass(s);
    var covered := if graph.Some? then set s | s in seeds && s in graph.value.files else {};
    n := Neighborhood(dependencies, dependents, |Direct(dependents)|, |Transitive(dependents)|, |eligible|, |covered|);
    if graph.Some? {
      DirectPlusTransitive(graph.value, seeds, dependents);
      DirectAreListed(graph.value, seeds, dependents);
      assert covered == seeds * graph.value.files.Keys;
    } else {
      EmptyReach(dependents);
    }
  }

  lemma EmptyReach(reach: map<Path, GraphReach>)
    requires reach == map[]
    ensures Direct(reach) == {} && Transitive(reach) == {}
  {
  }
}
