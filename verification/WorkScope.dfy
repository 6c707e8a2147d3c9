/** Work-scope projection: one path budget shared by focus, changes and components (src/work_scope.rs). */
module WorkScope {
  import opened Orders
  import opened GraphModel
  import opened Adjacency
  import opened Components
  import opened Fingerprint

  function Min(a: nat, b: nat): (m: nat)
    ensures m <= a && m <= b && (m == a || m == b)
  {
    if a < b then a else b
  }

  class PathBudget {
    var remaining: nat

    constructor (limit: nat)
      ensures remaining == limit
    {
      remaining := limit;
    }

    method Take(paths: seq<Path>) returns (shown: seq<Path>)
      modifies this
      ensures shown == paths[..Min(|paths|, old(remaining))]
      ensures remaining == old(remaining) - |shown|
    {
      shown := paths[..if |paths| < remaining then |paths| else remaining];
      remaining := remaining - |shown|;
    }
  }

  // ---------- Sharing the budget ----------

  /** What successive Take calls show of each list. */
  function Takes(lists: seq<seq<Path>>, remaining: nat): (shown: seq<seq<Path>>)
    ensures |shown| == |lists|
  {
    if lists == [] then []
    else
      var first := lists[0][..Min(|lists[0]|, remaining)];
      [first] + Takes(lists[1..], remaining - |first|)
  }

  function Flatten(lists: seq<seq<Path>>): seq<Path> {
    if lists == [] then [] else lists[0] + Flatten(lists[1..])
  }

  function Affordable(list: seq<Path>, remaining: nat): seq<Path> {
    list[..Min(|list|, remaining)]
  }

  lemma TakesStep(lists: seq<seq<Path>>, remaining: nat)
    requires lists != []
    ensures Takes(lists, remaining)
         == [Affordable(lists[0], remaining)] + Takes(lists[1..], remaining - |Affordable(lists[0], remaining)|)
    ensures Flatten(Takes(lists, remaining))
         == Affordable(lists[0], remaining) + Flatten(Takes(lists[1..], remaining - |Affordable(lists[0], remaining)|))
  {
    var first := Affordable(lists[0], remaining);
    var rest := Takes(lists[1..], remaining - |first|);
    assert Takes(lists, remaining) == [first] + rest;
    assert ([first] + rest)[1..] == rest;
  }

  lemma AffordableConcat(a: seq<Path>, b: seq<Path>, remaining: nat)
    ensures Affordable(a + b, remaining)
            == Affordable(a, remaining) + Affordable(b, remaining - |Affordable(a, remaining)|)
  {
  }

  /** First come, first served: together the shown parts are the longest affordable prefix of all lists in order. */
  lemma {:induction false} TakesIsPrefix(lists: seq<seq<Path>>, remaining: nat)
    ensures Flatten(Takes(lists, remaining)) == Affordable(Flatten(lists), remaining)
  {
    hide Affordable, Takes;
    if lists == [] {
      EmptyTakes(remaining);
    } else {
      TakesStep(lists, remaining);
      AffordableConcat(lists[0], Flatten(lists[1..]), remaining);
      AffordableSize(lists[0], remaining);
      TakesIsPrefix(lists[1..], remaining - |Affordable(lists[0], remaining)|);
    }
  }

  lemma EmptyTakes(remaining: nat)
    ensures Takes([], remaining) == [] && Affordable([], remaining) == []
  {
  }

  lemma AffordableSize(list: seq<Path>, remaining: nat)
    ensures |Affordable(list, remaining)| <= remaining
  {
  }

  lemma {:induction false} TakesConcat(a: seq<seq<Path>>, b: seq<seq<Path>>, remaining: nat)
    ensures |Flatten(Takes(a, remaining))| <= remaining
    ensures Takes(a + b, remaining) == Takes(a, remaining) + Takes(b, remaining - |Flatten(Takes(a, remaining))|)
  {
    hide Affordable, Takes;
    if a == [] {
      assert a + b == b;
      EmptyTakes(remaining);
    } else {
      var first := Affordable(a[0], remaining);
      AffordableSize(a[0], remaining);
      assert (a + b)[1..] == a[1..] + b;
      TakesStep(a, remaining);
      TakesStep(a + b, remaining);
      TakesConcat(a[1..], b, remaining - |first|);
    }
  }

  lemma {:induction false} FlattenConcat(a: seq<seq<Path>>, b: seq<seq<Path>>)
    ensures Flatten(a + b) == Flatten(a) + Flatten(b)
  {
    if a == [] {
      assert a + b == b;
    } else {
      assert (a + b)[1..] == a[1..] + b;
      FlattenConcat(a[1..], b);
    }
  }

  // ---------- Structure ----------

  datatype Entry = Entry(files: nat, seedFiles: nat, representativePaths: seq<Path>, representativePathsOmitted: nat)

  datatype Structure = Structure(graphFiles: nat, components: nat, largestComponentFiles: nat, shown: nat, omitted: nat,
                                 entries: seq<Entry>)

  function Representatives(c: Component): seq<Path> {
    if c.seedPaths == [] then (if c.paths == [] then [] else [c.paths[0]]) else c.seedPaths
  }

  predicate Seeded(c: Component) {
    c.seedPaths != []
  }

  predicate AnySeeded(cs: seq<Component>) {
    exists i :: 0 <= i < |cs| && Seeded(cs[i])
  }

  /** Components worth showing: the seeded ones if there are any, otherwise all. */
  function Eligible(cs: seq<Component>, onlySeeded: bool): seq<Component> {
    if cs == [] then []
    else
      var rest := Eligible(cs[..|cs| - 1], onlySeeded);
      if !onlySeeded || Seeded(cs[|cs| - 1]) then rest + [cs[|cs| - 1]] else rest
  }

  function ShownComponents(cs: seq<Component>): seq<Component> {
    var eligible := Eligible(cs, AnySeeded(cs));
    eligible[..Min(|eligible|, MAX_COMPONENTS)]
  }

  function AllRepresentatives(cs: seq<Component>): seq<seq<Path>> {
    seq(|cs|, i requires 0 <= i < |cs| => Representatives(cs[i]))
  }

  function ShownPaths(entries: seq<Entry>): seq<seq<Path>> {
    seq(|entries|, i requires 0 <= i < |entries| => entries[i].representativePaths)
  }

  ghost predicate IsLargest(cs: seq<Component>, n: nat) {
    && (forall i :: 0 <= i < |cs| ==> |cs[i].paths| <= n)
    && (if cs == [] then n == 0 else exists i :: 0 <= i < |cs| && |cs[i].paths| == n)
  }

  /** The projected structure of a listing of components under a budget. */
  ghost predicate IsStructure(g: GraphSignals, cs: seq<Component>, remaining: nat, s: Structure) {
    && s.graphFiles == |g.files| && s.components == |cs| && IsLargest(cs, s.largestComponentFiles)
    && s.shown == |s.entries| == |ShownComponents(cs)| <= MAX_COMPONENTS
    && s.shown + s.omitted == s.components
    && ShownPaths(s.entries) == Takes(AllRepresentatives(ShownComponents(cs)), remaining)
    && forall i :: 0 <= i < |s.entries| ==>
         && s.entries[i].files == |ShownComponents(cs)[i].paths|
         && s.entries[i].seedFiles == |ShownComponents(cs)[i].seedPaths|
         && |s.entries[i].representativePaths| + s.entries[i].representativePathsOmitted
            == |Representatives(ShownComponents(cs)[i])|
  }

  lemma {:induction false} EligibleAtMost(cs: seq<Component>, onlySeeded: bool)
    ensures |Eligible(cs, onlySeeded)| <= |cs|
    ensures forall c :: c in Eligible(cs, onlySeeded) <==> c in cs && (onlySeeded ==> Seeded(c))
  {
    if cs != [] {
      EligibleAtMost(cs[..|cs| - 1], onlySeeded);
      assert cs == cs[..|cs| - 1] + [cs[|cs| - 1]];
    }
  }

  /** A seed never hides behind unseeded components: once one is seeded only seeded ones are shown. */
  lemma SeededComponentsFirst(cs: seq<Component>, c: Component)
    requires c in ShownComponents(cs)
    ensures c in cs && (AnySeeded(cs) ==> Seeded(c))
  {
    EligibleAtMost(cs, AnySeeded(cs));
  }

  // ---------- What the entries say ----------

  /** Where the seeded components stand first, the eligible ones are a beginning of the listing. */
  lemma {:induction false} EligibleIsPrefix(cs: seq<Component>, onlySeeded: bool)
    requires forall i, j :: 0 <= i < j < |cs| && Seeded(cs[j]) ==> Seeded(cs[i])
    ensures Eligible(cs, onlySeeded) <= cs
    ensures forall i :: 0 <= i < |cs| ==> (i < |Eligible(cs, onlySeeded)| <==> !onlySeeded || Seeded(cs[i]))
  {
    if cs != [] {
      EligibleIsPrefix(cs[..|cs| - 1], onlySeeded);
    }
  }

  lemma {:induction false} TakesPrefixes(lists: seq<seq<Path>>, remaining: nat)
    ensures forall i :: 0 <= i < |lists| ==> Takes(lists, remaining)[i] <= lists[i]
  {
    if lists != [] {
      TakesPrefixes(lists[1..], remaining - |lists[0][..Min(|lists[0]|, remaining)]|);
    }
  }

  ghost function LeastOf(paths: set<Path>): set<Path> {
    set p | p in paths && forall q :: q in paths ==> PathLe(p, q)
  }

  /** The sizes of the component, and its least seeds, or without seeds its least path, as far as they are shown. */
  ghost predicate EntryTells(e: Entry, paths: set<Path>, seeds: set<Path>) {
    var represented := if paths !! seeds then LeastOf(paths) else paths * seeds;
    && e.files == |paths| && e.seedFiles == |paths * seeds|
    && Distinct(e.representativePaths) && Sorted(e.representativePaths, PathLe)
    && Elements(e.representativePaths) <= represented
    && (forall p, q :: p in e.representativePaths && q in represented && q !in e.representativePaths ==> PathLe(p, q))
    && |e.representativePaths| + e.representativePathsOmitted == |represented|
  }

  lemma LeastAlone(paths: set<Path>, least: Path)
    requires least in paths && forall q :: q in paths ==> PathLe(least, q)
    ensures LeastOf(paths) == {least}
  {
    PathOrder();
  }

  lemma PrefixIsLeast(shown: seq<Path>, all: seq<Path>)
    requires shown <= all && Distinct(all) && Sorted(all, PathLe)
    ensures Distinct(shown) && Sorted(shown, PathLe) && Elements(shown) <= Elements(all)
    ensures forall p, q :: p in shown && q in all && q !in shown ==> PathLe(p, q)
  {
    hide PathLe;
    forall p, q | p in shown && q in all && q !in shown
      ensures PathLe(p, q)
    {
      var i :| 0 <= i < |shown| && shown[i] == p;
      var j :| 0 <= j < |all| && all[j] == q;
      assert forall k :: 0 <= k < |shown| ==> all[k] == shown[k];
    }
    forall p | p in shown
      ensures p in all
    {
      var i :| 0 <= i < |shown| && shown[i] == p;
      assert all[i] == p;
    }
  }

  lemma EntryOfComponent(g: GraphSignals, seeds: set<Path>, cs: seq<Component>, i: nat, e: Entry)
    requires ComponentsOf(g, seeds, cs) && i < |cs|
    requires e.files == |cs[i].paths| && e.seedFiles == |cs[i].seedPaths|
    requires e.representativePaths <= Representatives(cs[i])
    requires |e.representativePaths| + e.representativePathsOmitted == |Representatives(cs[i])|
    ensures EntryTells(e, Elements(cs[i].paths), seeds)
  {
    hide ComponentsOf, PathLe;
    var c := cs[i];
    var paths := Elements(c.paths);
    ListingTells(g, seeds, cs, i);
    PrefixIsLeast(e.representativePaths, Representatives(c));
    assert paths * seeds == Elements(c.seedPaths);
    if c.seedPaths == [] {
      LeastAlone(paths, c.paths[0]);
      assert Elements(Representatives(c)) == {c.paths[0]};
    } else {
      assert c.seedPaths[0] in Elements(c.seedPaths);
    }
  }

  /**
   * The entries are those of the first components of the listing, ten at most: of all of them, or where any has a seed
   * of all that have one.
   */
  lemma StructureTells(g: GraphSignals, seeds: set<Path>, cs: seq<Component>, remaining: nat, s: Structure)
    requires ComponentsOf(g, seeds, cs) && IsStructure(g, cs, remaining, s)
    ensures |s.entries| <= |cs|
    ensures forall i :: 0 <= i < |s.entries| ==> EntryTells(s.entries[i], Elements(cs[i].paths), seeds)
    ensures forall i :: 0 <= i < |cs| ==>
              (i < |s.entries|
               <==> i < MAX_COMPONENTS
                    && ((exists p :: p in seeds && p in g.files) ==> exists p :: p in seeds && p in cs[i].paths))
  {
    hide ComponentsOf, EntryTells, Representatives, Takes;
    var shown := ShownComponents(cs);
    SeedsInComponents(g, seeds, cs);
    forall i, j | 0 <= i < j < |cs| && Seeded(cs[j])
      ensures Seeded(cs[i])
    {
      ListingTells(g, seeds, cs, j);
    }
    EligibleIsPrefix(cs, AnySeeded(cs));
    TakesPrefixes(AllRepresentatives(shown), remaining);
    forall i | 0 <= i < |s.entries|
      ensures EntryTells(s.entries[i], Elements(cs[i].paths), seeds)
    {
      assert shown[i] == cs[i] && ShownPaths(s.entries)[i] == s.entries[i].representativePaths;
      EntryOfComponent(g, seeds, cs, i, s.entries[i]);
    }
  }

  /** A component is seeded if it has a seed, and any is if a seed is a file of the graph. */
  lemma SeedsInComponents(g: GraphSignals, seeds: set<Path>, cs: seq<Component>)
    requires ComponentsOf(g, seeds, cs)
    ensures forall i :: 0 <= i < |cs| ==> (Seeded(cs[i]) <==> exists p :: p in seeds && p in cs[i].paths)
    ensures AnySeeded(cs) <==> exists p :: p in seeds && p in g.files
  {
    forall i | 0 <= i < |cs|
      ensures Seeded(cs[i]) <==> exists p :: p in seeds && p in cs[i].paths
    {
      ListingTells(g, seeds, cs, i);
      assert Seeded(cs[i]) ==> cs[i].seedPaths[0] in cs[i].seedPaths;
    }
    if p :| p in seeds && p in g.files {
      var c :| c in cs && p in c.paths;
      var i :| 0 <= i < |cs| && cs[i] == c;
      assert Seeded(cs[i]);
    }
    if AnySeeded(cs) {
      var i :| 0 <= i < |cs| && Seeded(cs[i]);
      assert cs[i] in cs;
      var p :| p in seeds && p in cs[i].paths;
    }
  }

  // ---------- The projection ----------

  method Largest(cs: seq<Component>) returns (n: nat)
    ensures IsLargest(cs, n)
  {
    n := 0;
    for k := 0 to |cs|
      invariant IsLargest(cs[..k], n)
    {
      ghost var before := n;
      if |cs[k].paths| > n {
        n := |cs[k].paths|;
        assert |cs[..k + 1][k].paths| == n;
      } else if k > 0 {
        var i :| 0 <= i < k && |cs[..k][i].paths| == n;
        assert |cs[..k + 1][i].paths| == n;
      } else {
        assert |cs[..k + 1][k].paths| == n;
      }
    }
    assert cs[..|cs|] == cs;
  }

  method SelectShown(cs: seq<Component>) returns (shown: seq<Component>)
    ensures shown == ShownComponents(cs)
  {
    var hasSeeded := AnySeeded(cs);
    var eligible: seq<Component> := [];
    for k := 0 to |cs|
      invariant eligible == Eligible(cs[..k], hasSeeded)
    {
      assert cs[..k + 1][..k] == cs[..k];
      if !hasSeeded || cs[k].seedPaths != [] {
        eligible := eligible + [cs[k]];
      }
    }
    assert cs[..|cs|] == cs;
    shown := eligible[..Min(|eligible|, MAX_COMPONENTS)];
  }

  /** One Take per shown component, in report order. */
  method ProjectEntries(cs: seq<Component>, budget: PathBudget) returns (entries: seq<Entry>)
    modifies budget
    ensures |entries| == |cs|
    ensures ShownPaths(entries) == Takes(AllRepresentatives(cs), old(budget.remaining))
    ensures budget.remaining == old(budget.remaining) - |Flatten(ShownPaths(entries))|
    ensures forall i :: 0 <= i < |entries| ==>
              && entries[i].files == |cs[i].paths| && entries[i].seedFiles == |cs[i].seedPaths|
              && |entries[i].representativePaths| + entries[i].representativePathsOmitted == |Representatives(cs[i])|
  {
    hide Takes, Affordable, AllRepresentatives;
    entries := [];
    NoTakes(cs, old(budget.remaining));
    for k := 0 to |cs|
      invariant |entries| == k
      invariant ShownPaths(entries) == Takes(AllRepresentatives(cs[..k]), old(budget.remaining))
      invariant |Flatten(ShownPaths(entries))| <= old(budget.remaining)
      invariant budget.remaining == old(budget.remaining) - |Flatten(ShownPaths(entries))|
      invariant forall i :: 0 <= i < k ==>
                  && entries[i].files == |cs[i].paths| && entries[i].seedFiles == |cs[i].seedPaths|
                  && |entries[i].representativePaths| + entries[i].representativePathsOmitted
                     == |Representatives(cs[i])|
    {
      var representatives := Representatives(cs[k]);
      var shown := budget.Take(representatives);
      assert shown == Affordable(representatives, old(budget.remaining) - |Flatten(ShownPaths(entries))|) by {
        ShownIsAffordable(representatives, old(budget.remaining) - |Flatten(ShownPaths(entries))|);
      }
      var entry := Entry(|cs[k].paths|, |cs[k].seedPaths|, shown, |representatives| - |shown|);
      OneMoreTake(cs, k, old(budget.remaining), ShownPaths(entries), shown);
      assert ShownPaths(entries + [entry]) == ShownPaths(entries) + [shown];
      FlattenConcat(ShownPaths(entries), [shown]);
      assert Flatten([shown]) == shown;
      entries := entries + [entry];
    }
    assert cs[..|cs|] == cs;
  }

  lemma NoTakes(cs: seq<Component>, remaining: nat)
    ensures Takes(AllRepresentatives(cs[..0]), remaining) == []
  {
  }

  lemma ShownIsAffordable(list: seq<Path>, remaining: nat)
    ensures Affordable(list, remaining) == list[..Min(|list|, remaining)]
  {
  }

  lemma OneMoreTake(cs: seq<Component>, k: nat, remaining: nat, before: seq<seq<Path>>, shown: seq<Path>)
    requires k < |cs| && before == Takes(AllRepresentatives(cs[..k]), remaining)
    requires |Flatten(before)| <= remaining
    requires shown == Affordable(Representatives(cs[k]), remaining - |Flatten(before)|)
    ensures Takes(AllRepresentatives(cs[..k + 1]), remaining) == before + [shown]
  {
    assert AllRepresentatives(cs[..k + 1]) == AllRepresentatives(cs[..k]) + [Representatives(cs[k])];
    TakesConcat(AllRepresentatives(cs[..k]), [Representatives(cs[k])], remaining);
  }

  /** The listing of components is returned beside the structure it was projected from. */
  method ProjectStructure(g: GraphSignals, seeds: set<Path>, budget: PathBudget)
    returns (s: Structure, cs: seq<Component>)
    requires Dual(g)
    modifies budget
    ensures ComponentsOf(g, seeds, cs)
    ensures IsStructure(g, cs, old(budget.remaining), s)
    ensures budget.remaining == old(budget.remaining) - |Flatten(ShownPaths(s.entries))|
  {
    hide ComponentsOf, Dual;
    cs := FindComponents(g, seeds);
    var largest := Largest(cs);
    var shown := SelectShown(cs);
    EligibleAtMost(cs, AnySeeded(cs));
    var entries := ProjectEntries(shown, budget);
    s := Structure(|g.files|, |cs|, largest, |entries|, |cs| - |entries|, entries);
  }

  // ---------- The whole scope ----------

  datatype Focus = Focus(total: nat, resolved: nat, unresolved: nat, shown: nat, omitted: nat,
                         paths: seq<Path>, unmatchedPaths: seq<Path>)

  datatype Changes = Changes(total: nat, shown: nat, omitted: nat, paths: seq<Path>)

  datatype Scope = Scope(focus: Option<Focus>, changes: Option<Changes>, structure: Option<Structure>)

  function NormalizedSet(paths: seq<Path>): set<Path> {
    set p | p in paths :: Normalized(p)
  }

  /** The distinct normalized paths in ascending order. */
  method NormalizedPaths(paths: seq<Path>) returns (r: seq<Path>)
    ensures Enumerates(r, NormalizedSet(paths)) && Sorted(r, PathLe)
    ensures |r| == |NormalizedSet(paths)|
  {
    r := IterateSorted(NormalizedSet(paths));
    EnumerationSize(r, NormalizedSet(paths));
  }

  /** Every path the scope shows, in the order the budget was spent. */
  function ShownInScope(s: Scope): seq<Path> {
    (if s.focus.Some? then s.focus.value.paths + s.focus.value.unmatchedPaths else [])
    + (if s.changes.Some? then s.changes.value.paths else [])
    + (if s.structure.Some? then Flatten(ShownPaths(s.structure.value.entries)) else [])
  }

  /** The longest affordable beginning of the ascending listing of a set. */
  ghost predicate FirstOf(shown: seq<Path>, all: set<Path>, remaining: nat) {
    exists listing :: Enumerates(listing, all) && Sorted(listing, PathLe) && shown == Affordable(listing, remaining)
  }

  lemma ShownFirst(listing: seq<Path>, all: set<Path>, remaining: nat, shown: seq<Path>)
    requires Enumerates(listing, all) && Sorted(listing, PathLe) && |listing| == |all|
    requires shown == listing[..Min(|listing|, remaining)]
    ensures FirstOf(shown, all, remaining) && |shown| == Min(|all|, remaining)
  {
    ShownIsAffordable(listing, remaining);
  }

  /** The focus section under what is left of the budget: resolved paths first, unmatched ones from the rest. */
  ghost predicate IsFocus(f: Focus, resolved: seq<Path>, unmatched: seq<Path>, remaining: nat) {
    && f.total == |NormalizedSet(resolved)| + |NormalizedSet(unmatched)|
    && f.resolved == |resolved| && f.unresolved == |unmatched|
    && |f.paths| <= remaining && FirstOf(f.paths, NormalizedSet(resolved), remaining)
    && FirstOf(f.unmatchedPaths, NormalizedSet(unmatched), remaining - |f.paths|)
    && f.shown == |f.paths| + |f.unmatchedPaths| == Min(f.total, remaining)
    && f.shown + f.omitted == f.total
  }

  ghost predicate IsChanges(c: Changes, changed: seq<Path>, remaining: nat) {
    && c.total == |NormalizedSet(changed)| && FirstOf(c.paths, NormalizedSet(changed), remaining)
    && c.shown == |c.paths| == Min(c.total, remaining) && c.shown + c.omitted == c.total
  }

  method ProjectFocus(resolved: seq<Path>, unmatched: seq<Path>, budget: PathBudget) returns (f: Option<Focus>)
    modifies budget
    ensures f.None? <==> resolved == [] && unmatched == []
    ensures f.Some? ==> IsFocus(f.value, resolved, unmatched, old(budget.remaining))
    ensures budget.remaining == old(budget.remaining) - if f.Some? then f.value.shown else 0
  {
    if resolved == [] && unmatched == [] {
      return None;
    }
    var all := NormalizedPaths(resolved);
    var missing := NormalizedPaths(unmatched);
    var total := |all| + |missing|;
    var paths := budget.Take(all);
    ShownFirst(all, NormalizedSet(resolved), old(budget.remaining), paths);
    var unmatchedPaths := budget.Take(missing);
    ShownFirst(missing, NormalizedSet(unmatched), old(budget.remaining) - |paths|, unmatchedPaths);
    var shown := |paths| + |unmatchedPaths|;
    f := Some(Focus(total, |resolved|, |unmatched|, shown, total - shown, paths, unmatchedPaths));
  }

  method ProjectChanges(changed: seq<Path>, budget: PathBudget) returns (c: Changes)
    modifies budget
    ensures IsChanges(c, changed, old(budget.remaining))
    ensures budget.remaining == old(budget.remaining) - c.shown
  {
    var all := NormalizedPaths(changed);
    var paths := budget.Take(all);
    ShownFirst(all, NormalizedSet(changed), old(budget.remaining), paths);
    c := Changes(|all|, |paths|, |all| - |paths|, paths);
  }

  function FocusShown(s: Scope): nat {
    if s.focus.Some? then s.focus.value.shown else 0
  }

  function ChangesShown(s: Scope): nat {
    if s.changes.Some? then s.changes.value.shown else 0
  }

  /** Focus, changes and structure in turn, each under what the sections before it left of one budget. */
  ghost predicate IsScope(s: Scope, resolved: seq<Path>, unmatched: seq<Path>, changed: Option<seq<Path>>,
                          graph: Option<GraphSignals>, seeds: set<Path>, cs: seq<Component>)
  {
    && (s.focus.None? <==> resolved == [] && unmatched == [])
    && (s.focus.Some? ==> IsFocus(s.focus.value, resolved, unmatched, MAX_PATH_ENTRIES))
    && FocusShown(s) + ChangesShown(s) <= MAX_PATH_ENTRIES
    && (s.changes.Some? <==> changed.Some?)
    && (s.changes.Some? ==> IsChanges(s.changes.value, changed.value, MAX_PATH_ENTRIES - FocusShown(s)))
    && (s.structure.Some? <==> graph.Some?)
    && (s.structure.Some? ==>
          && ComponentsOf(graph.value, seeds, cs)
          && IsStructure(graph.value, cs, MAX_PATH_ENTRIES - FocusShown(s) - ChangesShown(s), s.structure.value))
  }

  /** One budget of 25 paths serves every section, so the whole scope never shows more. */
  method BuildScope(resolved: seq<Path>, unmatched: seq<Path>, changed: Option<seq<Path>>, graph: Option<GraphSignals>,
                    seeds: set<Path>) returns (s: Scope, cs: seq<Component>)
    requires graph.Some? ==> Dual(graph.value)
    ensures IsScope(s, resolved, unmatched, changed, graph, seeds, cs)
    ensures |ShownInScope(s)| <= MAX_PATH_ENTRIES
  {
    hide ComponentsOf, Dual, FirstOf, IsStructure;
    var budget := new PathBudget(MAX_PATH_ENTRIES);
    var focus := ProjectFocus(resolved, unmatched, budget);
    var changes := None;
    if changed.Some? {
      var c := ProjectChanges(changed.value, budget);
      changes := Some(c);
    }
    var structure := None;
    cs := [];
    if graph.Some? {
      var st;
      st, cs := ProjectStructure(graph.value, seeds, budget);
      structure := Some(st);
    }
    s := Scope(focus, changes, structure);
  }
}
