/** The per-file import signals shared by planning, work scope and topology (src/graph.rs). */
module GraphModel {
  import opened Orders

  datatype FileSignal = FileSignal(
    fanIn: nat,
    fanOut: nat,
    dependencies: seq<Path>,
    dependents: seq<Path>,
    dependencyResolvers: map<Path, string>,
    dependentResolvers: map<Path, string>)

  datatype GraphSignals = GraphSignals(files: map<Path, FileSignal>, unresolvedImports: nat)

  ghost predicate DependentEdge(g: GraphSignals, p: Path, q: Path) {
    p in g.files && q in g.files[p].dependents
  }
}
