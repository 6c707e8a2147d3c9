/** Comparison of finding catalogs and rename rebasing (src/findings.rs). */
module Findings {
  import opened Orders
  import opened Fingerprint

  datatype Location = Location(path: Path, startLine: nat, endLine: nat)

  datatype Record = Record(
    fingerprint: string,
    identity: string,
    kind: string,
    severity: string,
    message: string,
    primary: Location,
    related: seq<Location>,
    metrics: map<string, real>)

  datatype Catalog = Catalog(version: nat, findings: seq<Record>)

  datatype State = New | Worsened | Improved | Resolved

  datatype Change = Change(state: State, before: Option<Record>, after: Option<Record>)

  datatype Counts = Counts(added: nat, resolved: nat, worsened: nat, improved: nat)

  datatype Delta =
    | Unavailable(reason: string)
    | Complete(counts: Counts, changes: seq<Change>)

  datatype Ordering = Less | Equal | Greater

  // ---------- Severity ----------

  function CompareReal(a: real, b: real): Ordering {
    if a < b then Less else if a > b then Greater else Equal
  }

  function Metric(f: Record, name: string): real {
    if name in f.metrics then f.metrics[name] else 0.0
  }

  function CompareMetricTuple(before: Record, after: Record, names: seq<string>): Ordering {
    if names == [] then Equal
    else
      var ordering := CompareReal(Metric(after, names[0]), Metric(before, names[0]));
      if ordering != Equal then ordering else CompareMetricTuple(before, after, names[1..])
  }

  /** How a kind is compared; kinds outside the first three carry no severity. */
  datatype Scale = ComplexityScale | DuplicationScale | RiskScale | NoScale

  function ScaleOf(kind: string): Scale {
    if kind == "complexity" then ComplexityScale
    else if kind == "duplication" then DuplicationScale
    else if kind == "risk" then RiskScale
    else NoScale
  }

  function CompareSeverity(before: Record, after: Record): Ordering {
    match ScaleOf(after.kind)
    case ComplexityScale => CompareMetricTuple(before, after, ["cyclomatic", "cognitive", "max_nesting"])
    case DuplicationScale => CompareMetricTuple(before, after, ["removable_lines", "copies", "tokens"])
    case RiskScale =>
      var difference := Metric(after, "score") - Metric(before, "score");
      if -0.01 < difference < 0.01 then Equal else CompareReal(Metric(after, "score"), Metric(before, "score"))
    case NoScale => Equal
  }

  function Flip(o: Ordering): Ordering {
    match o
    case Less => Greater
    case Equal => Equal
    case Greater => Less
  }

  lemma {:induction false} TupleFlips(a: Record, b: Record, names: seq<string>)
    ensures CompareMetricTuple(b, a, names) == Flip(CompareMetricTuple(a, b, names))
  {
    if names != [] {
      TupleFlips(a, b, names[1..]);
    }
  }

  lemma {:induction false} TupleTies(a: Record, b: Record, names: seq<string>)
    requires forall name :: name in names ==> Metric(a, name) == Metric(b, name)
    ensures CompareMetricTuple(a, b, names) == Equal
  {
    if names != [] {
      TupleTies(a, b, names[1..]);
    }
  }

  lemma SameMetricsCompareEqual(a: Record, b: Record)
    requires a.metrics == b.metrics
    ensures CompareSeverity(a, b) == Equal
  {
    TupleTies(a, b, ["cyclomatic", "cognitive", "max_nesting"]);
    TupleTies(a, b, ["removable_lines", "copies", "tokens"]);
  }

  lemma SeverityFlips(a: Record, b: Record)
    requires ScaleOf(a.kind) == ScaleOf(b.kind)
    ensures CompareSeverity(b, a) == Flip(CompareSeverity(a, b))
  {
    TupleFlips(a, b, ["cyclomatic", "cognitive", "max_nesting"]);
    TupleFlips(a, b, ["removable_lines", "copies", "tokens"]);
  }

  function LeadMetric(scale: Scale): string {
    match scale
    case ComplexityScale => "cyclomatic"
    case DuplicationScale => "removable_lines"
    case RiskScale => "score"
    case NoScale => "none"
  }

  function Sample(kind: string, metrics: map<string, real>): Record {
    Record("f", "", kind, "", "", Location("", 0, 0), [], metrics)
  }

  /** A single unit of the leading metric of one scale is invisible on every other scale. */
  lemma LeadMetricDecides(before: Record, after: Record, scale: Scale)
    requires before.metrics == map[] && after.metrics == map[LeadMetric(scale) := 1.0] && scale != NoScale
    ensures CompareSeverity(before, after) == if ScaleOf(after.kind) == scale then Greater else Equal
    ensures CompareSeverity(after, before) == if ScaleOf(before.kind) == scale then Less else Equal
  {
    var lead := LeadMetric(scale);
    var complexity, duplication := ["cyclomatic", "cognitive", "max_nesting"], ["removable_lines", "copies", "tokens"];
    LeadMetricsDistinct(scale);
    if scale != ComplexityScale {
      TupleTies(before, after, complexity);
    }
    if scale != DuplicationScale {
      TupleTies(before, after, duplication);
    }
    TupleFlips(before, after, complexity);
    TupleFlips(before, after, duplication);
  }

  lemma LeadMetricsDistinct(scale: Scale)
    requires scale != NoScale
    ensures scale != ComplexityScale ==> LeadMetric(scale) !in ["cyclomatic", "cognitive", "max_nesting"]
    ensures scale != DuplicationScale ==> LeadMetric(scale) !in ["removable_lines", "copies", "tokens"]
    ensures scale != RiskScale ==> LeadMetric(scale) != "score"
  {
    assert |"cyclomatic"| == 10 && |"cognitive"| == 9 && |"max_nesting"| == 11;
    assert |"removable_lines"| == 15 && |"copies"| == 6 && |"tokens"| == 6 && |"score"| == 5;
  }

  /** Swapping the sides swaps the verdict for all metrics exactly when both kinds are measured alike. */
  lemma SwapLawIffSameScale(beforeKind: string, afterKind: string)
    ensures (forall a: Record, b: Record :: a.kind == beforeKind && b.kind == afterKind
               ==> CompareSeverity(b, a) == Flip(CompareSeverity(a, b)))
            <==> ScaleOf(beforeKind) == ScaleOf(afterKind)
  {
    if ScaleOf(beforeKind) == ScaleOf(afterKind) {
      forall a: Record, b: Record | a.kind == beforeKind && b.kind == afterKind
        ensures CompareSeverity(b, a) == Flip(CompareSeverity(a, b))
      {
        SeverityFlips(a, b);
      }
    } else {
      var scale := if ScaleOf(afterKind) != NoScale then ScaleOf(afterKind) else ScaleOf(beforeKind);
      var a, b := Sample(beforeKind, map[]), Sample(afterKind, map[LeadMetric(scale) := 1.0]);
      LeadMetricDecides(a, b, scale);
      assert CompareSeverity(b, a) != Flip(CompareSeverity(a, b));
    }
  }

  // ---------- Classification ----------

  /** Index by fingerprint; a later finding replaces an earlier one with the same fingerprint. */
  function ById(findings: seq<Record>): map<string, Record> {
    if findings == [] then map[]
    else ById(findings[..|findings| - 1])[findings[|findings| - 1].fingerprint := findings[|findings| - 1]]
  }

  ghost predicate Indexed(m: map<string, Record>) {
    forall id :: id in m ==> m[id].fingerprint == id
  }

  lemma {:induction false} ByIdIndexes(findings: seq<Record>)
    ensures Indexed(ById(findings))
    ensures forall id :: id in ById(findings) ==> ById(findings)[id] in findings
    ensures forall f :: f in findings ==> f.fingerprint in ById(findings)
  {
    if findings != [] {
      ByIdIndexes(findings[..|findings| - 1]);
      assert findings == findings[..|findings| - 1] + [findings[|findings| - 1]];
    }
  }

  /** The change, if any, that one fingerprint contributes. */
  function Classify(before: map<string, Record>, after: map<string, Record>, id: string): Option<Change> {
    if id in after then
      if id !in before then Some(Change(New, None, Some(after[id])))
      else match CompareSeverity(before[id], after[id])
        case Greater => Some(Change(Worsened, Some(before[id]), Some(after[id])))
        case Less => Some(Change(Improved, Some(before[id]), Some(after[id])))
        case Equal => None
    else if id in before then Some(Change(Resolved, Some(before[id]), None))
    else None
  }

  function Subject(c: Change): Option<Record> {
    if c.after.Some? then c.after else c.before
  }

  function IdOf(c: Change): string {
    if Subject(c).Some? then Subject(c).value.fingerprint else ""
  }

  function InState(before: map<string, Record>, after: map<string, Record>, state: State): set<string> {
    set id | id in before.Keys + after.Keys && Classify(before, after, id).Some?
             && Classify(before, after, id).value.state == state
  }

  function Unchanged(before: map<string, Record>, after: map<string, Record>): set<string> {
    set id | id in before.Keys + after.Keys && Classify(before, after, id).None?
  }

  function CountsOf(before: map<string, Record>, after: map<string, Record>): Counts {
    Counts(|InState(before, after, New)|, |InState(before, after, Resolved)|,
           |InState(before, after, Worsened)|, |InState(before, after, Improved)|)
  }

  // ---------- The order of the report ----------

  function Rank(s: State): nat {
    match s
    case New => 0
    case Worsened => 1
    case Improved => 2
    case Resolved => 3
  }

  predicate SubjectLe(pathLe: (Path, Path) -> bool, a: Record, b: Record) {
    if a.kind != b.kind then PathLe(a.kind, b.kind)
    else if !pathLe(a.primary.path, b.primary.path) then false
    else if !pathLe(b.primary.path, a.primary.path) then true
    else if a.primary.startLine != b.primary.startLine then a.primary.startLine < b.primary.startLine
    else PathLe(a.fingerprint, b.fingerprint)
  }

  predicate ChangeLe(pathLe: (Path, Path) -> bool, a: Change, b: Change) {
    if Rank(a.state) != Rank(b.state) then Rank(a.state) < Rank(b.state)
    else if Subject(a).None? || Subject(b).None? then Subject(a).None?
    else SubjectLe(pathLe, Subject(a).value, Subject(b).value)
  }

  function ReportOrder(pathLe: (Path, Path) -> bool): (Change, Change) -> bool {
    (a, b) => ChangeLe(pathLe, a, b)
  }

  lemma SubjectLeTotal(pathLe: (Path, Path) -> bool, a: Record, b: Record)
    requires TotalPreorder(pathLe)
    ensures SubjectLe(pathLe, a, b) || SubjectLe(pathLe, b, a)
  {
    PathLeTotal(a.kind, b.kind);
    PathLeTotal(a.fingerprint, b.fingerprint);
  }

  lemma SubjectLeTransitive(pathLe: (Path, Path) -> bool, a: Record, b: Record, c: Record)
    requires TotalPreorder(pathLe) && SubjectLe(pathLe, a, b) && SubjectLe(pathLe, b, c)
    ensures SubjectLe(pathLe, a, c)
  {
    if a.kind != b.kind || b.kind != c.kind {
      if PathLe(a.kind, b.kind) && PathLe(b.kind, c.kind) {
        PathLeTransitive(a.kind, b.kind, c.kind);
        if a.kind == c.kind {
          PathLeAntisymmetric(a.kind, b.kind);
        }
      }
    } else if PathLe(a.fingerprint, b.fingerprint) && PathLe(b.fingerprint, c.fingerprint) {
      PathLeTransitive(a.fingerprint, b.fingerprint, c.fingerprint);
    }
  }

  lemma ReportOrderTotal(pathLe: (Path, Path) -> bool)
    requires TotalPreorder(pathLe)
    ensures TotalPreorder(ReportOrder(pathLe))
  {
    hide SubjectLe, TotalPreorder;
    var le := ReportOrder(pathLe);
    forall a, b
      ensures le(a, b) || le(b, a)
    {
      if Subject(a).Some? && Subject(b).Some? {
        SubjectLeTotal(pathLe, Subject(a).value, Subject(b).value);
      }
    }
    forall a, b, c | le(a, b) && le(b, c)
      ensures le(a, c)
    {
      if Subject(a).Some? && Subject(b).Some? && Subject(c).Some?
         && SubjectLe(pathLe, Subject(a).value, Subject(b).value)
         && SubjectLe(pathLe, Subject(b).value, Subject(c).value)
      {
        SubjectLeTransitive(pathLe, Subject(a).value, Subject(b).value, Subject(c).value);
      }
    }
    Preorder(le);
  }

  lemma Preorder<T(!new)>(le: (T, T) -> bool)
    requires forall a, b :: le(a, b) || le(b, a)
    requires forall a, b, c :: le(a, b) && le(b, c) ==> le(a, c)
    ensures TotalPreorder(le)
  {
  }

  // ---------- The delta ----------

  /** The complete delta of two indexed catalogs. */
  ghost predicate IsDelta(pathLe: (Path, Path) -> bool, before: map<string, Record>, after: map<string, Record>,
                          d: Delta)
  {
    && d.Complete?
    && Distinct(d.changes) && Sorted(d.changes, ReportOrder(pathLe))
    && (forall c :: c in d.changes ==> Classify(before, after, IdOf(c)) == Some(c))
    && (forall id :: id in before.Keys + after.Keys && Classify(before, after, id).Some?
          ==> Classify(before, after, id).value in d.changes)
    && d.counts == CountsOf(before, after)
  }

  ghost predicate Compares(pathLe: (Path, Path) -> bool, before: Catalog, after: Catalog, d: Delta) {
    if before.version != after.version || before.version == 0
    then d == Unavailable("finding catalog versions do not match")
    else IsDelta(pathLe, ById(before.findings), ById(after.findings), d)
  }

  lemma ClassifyKnowsItsId(before: map<string, Record>, after: map<string, Record>, id: string)
    requires Indexed(before) && Indexed(after) && Classify(before, after, id).Some?
    ensures IdOf(Classify(before, after, id).value) == id && id in before.Keys + after.Keys
  {
  }

  function CountState(changes: seq<Change>, state: State): nat {
    if changes == [] then 0
    else CountState(changes[..|changes| - 1], state) + if changes[|changes| - 1].state == state then 1 else 0
  }

  function IdsIn(changes: seq<Change>, state: State): set<string> {
    set c | c in changes && c.state == state :: IdOf(c)
  }

  lemma IdsInAppend(changes: seq<Change>, last: Change, state: State)
    ensures IdsIn(changes + [last], state) == IdsIn(changes, state) + if last.state == state then {IdOf(last)} else {}
  {
    hide IdOf;
    assert forall c :: c in changes + [last] <==> c in changes || c == last;
  }

  lemma {:induction false} CountIsCardinality(changes: seq<Change>, state: State)
    requires forall i, j :: 0 <= i < j < |changes| ==> IdOf(changes[i]) != IdOf(changes[j])
    ensures CountState(changes, state) == |IdsIn(changes, state)|
  {
    hide IdOf;
    if changes != [] {
      var front, last := changes[..|changes| - 1], changes[|changes| - 1];
      CountIsCardinality(front, state);
      assert changes == front + [last];
      IdsInAppend(front, last, state);
      assert IdOf(last) !in IdsIn(front, state);
    }
  }

  lemma CountsMatch(before: map<string, Record>, after: map<string, Record>, changes: seq<Change>, state: State)
    requires Indexed(before) && Indexed(after) && Distinct(changes)
    requires forall c :: c in changes ==> Classify(before, after, IdOf(c)) == Some(c)
    requires forall id :: id in before.Keys + after.Keys && Classify(before, after, id).Some?
               ==> Classify(before, after, id).value in changes
    ensures CountState(changes, state) == |InState(before, after, state)|
  {
    forall i, j | 0 <= i < j < |changes|
      ensures IdOf(changes[i]) != IdOf(changes[j])
    {
      assert changes[i] in changes && changes[j] in changes;
    }
    CountIsCardinality(changes, state);
    var ids := IdsIn(changes, state);
    forall id | id in InState(before, after, state)
      ensures id in ids
    {
      ClassifyKnowsItsId(before, after, id);
    }
    forall id | id in ids
      ensures id in InState(before, after, state)
    {
      var c :| c in changes && c.state == state && IdOf(c) == id;
      ClassifyKnowsItsId(before, after, id);
    }
    assert ids == InState(before, after, state);
  }

  method Index(findings: seq<Record>) returns (m: map<string, Record>)
    ensures m == ById(findings)
  {
    m := map[];
    for k := 0 to |findings|
      invariant m == ById(findings[..k])
    {
      assert findings[..k + 1][..k] == findings[..k];
      m := m[findings[k].fingerprint := findings[k]];
    }
    assert findings[..|findings|] == findings;
  }

  method CountChanges(changes: seq<Change>, state: State) returns (n: nat)
    ensures n == CountState(changes, state)
  {
    n := 0;
    for k := 0 to |changes|
      invariant n == CountState(changes[..k], state)
    {
      assert changes[..k + 1][..k] == changes[..k];
      if changes[k].state == state {
        n := n + 1;
      }
    }
    assert changes[..|changes|] == changes;
  }

  ghost predicate Honest(before: map<string, Record>, after: map<string, Record>, changes: seq<Change>) {
    Distinct(changes) && forall c :: c in changes ==> Classify(before, after, IdOf(c)) == Some(c)
  }

  lemma NoChangesYet(before: map<string, Record>, after: map<string, Record>)
    ensures Honest(before, after, [])
  {
  }

  lemma AppendHonest(before: map<string, Record>, after: map<string, Record>, changes: seq<Change>, id: string)
    requires Indexed(before) && Indexed(after) && Honest(before, after, changes)
    requires Classify(before, after, id).Some? && forall c :: c in changes ==> IdOf(c) != id
    ensures Honest(before, after, changes + [Classify(before, after, id).value])
    ensures IdOf(Classify(before, after, id).value) == id
  {
    ClassifyKnowsItsId(before, after, id);
  }

  /** The first loop: everything in `after`, in fingerprint order. */
  method CollectCurrent(before: map<string, Record>, after: map<string, Record>) returns (changes: seq<Change>)
    requires Indexed(before) && Indexed(after)
    ensures Honest(before, after, changes)
    ensures forall c :: c in changes ==> IdOf(c) in after
    ensures forall id :: id in after && Classify(before, after, id).Some? ==>
              Classify(before, after, id).value in changes
  {
    hide Honest, CompareSeverity, IdOf;
    changes := [];
    var ids := IterateSorted(after.Keys);
    NoChangesYet(before, after);
    for k := 0 to |ids|
      invariant Honest(before, after, changes)
      invariant forall c :: c in changes ==> IdOf(c) in ids[..k]
      invariant forall i :: 0 <= i < k && Classify(before, after, ids[i]).Some? ==>
                  Classify(before, after, ids[i]).value in changes
    {
      var id := ids[k];
      assert id in after && id !in ids[..k];
      if Classify(before, after, id).Some? {
        AppendHonest(before, after, changes, id);
      }
      var current := after[id];
      if id !in before {
        changes := changes + [Change(New, None, Some(current))];
      } else {
        var previous := before[id];
        match CompareSeverity(previous, current)
        case Greater => changes := changes + [Change(Worsened, Some(previous), Some(current))];
        case Less => changes := changes + [Change(Improved, Some(previous), Some(current))];
        case Equal =>
      }
    }
  }

  /** The second loop: what only `before` has. */
  method CollectResolved(before: map<string, Record>, after: map<string, Record>, current: seq<Change>)
    returns (changes: seq<Change>)
    requires Indexed(before) && Indexed(after)
    requires Honest(before, after, current) && forall c :: c in current ==> IdOf(c) in after
    ensures Honest(before, after, changes)
    ensures forall c :: c in current ==> c in changes
    ensures forall id :: id in before && id !in after ==> Classify(before, after, id).value in changes
  {
    hide Honest, CompareSeverity, IdOf, Sorted, PathLe;
    changes := current;
    var ids := IterateSorted(before.Keys);
    for k := 0 to |ids|
      invariant Honest(before, after, changes)
      invariant forall c :: c in changes ==> IdOf(c) in after || IdOf(c) in ids[..k]
      invariant forall c :: c in current ==> c in changes
      invariant forall i :: 0 <= i < k && ids[i] !in after ==> Classify(before, after, ids[i]).value in changes
    {
      var id := ids[k];
      assert id in before && id !in ids[..k];
      if id !in after {
        AppendHonest(before, after, changes, id);
        changes := changes + [Change(Resolved, Some(before[id]), None)];
      }
    }
    assert forall id :: id in before ==> id in ids;
  }

  method CollectChanges(before: map<string, Record>, after: map<string, Record>) returns (changes: seq<Change>)
    requires Indexed(before) && Indexed(after)
    ensures Honest(before, after, changes)
    ensures forall id :: id in before.Keys + after.Keys && Classify(before, after, id).Some?
              ==> Classify(before, after, id).value in changes
  {
    hide Honest, IdOf, CompareSeverity;
    var current := CollectCurrent(before, after);
    changes := CollectResolved(before, after, current);
  }

  method Compare(pathLe: (Path, Path) -> bool, before: Catalog, after: Catalog) returns (d: Delta)
    requires TotalPreorder(pathLe)
    ensures Compares(pathLe, before, after, d)
  {
    if before.version != after.version || before.version == 0 {
      return Unavailable("finding catalog versions do not match");
    }
    var beforeById := Index(before.findings);
    var afterById := Index(after.findings);
    ByIdIndexes(before.findings);
    ByIdIndexes(after.findings);
    var raw := CollectChanges(beforeById, afterById);
    var changes := Sort(raw, ReportOrder(pathLe));
    ReportOrderTotal(pathLe);
    SortPermutes(raw, ReportOrder(pathLe));
    SortSorted(raw, ReportOrder(pathLe));
    DistinctByMultiset(raw, changes);
    var added := CountChanges(changes, New);
    var resolved := CountChanges(changes, Resolved);
    var worsened := CountChanges(changes, Worsened);
    var improved := CountChanges(changes, Improved);
    CountsMatch(beforeById, afterById, changes, New);
    CountsMatch(beforeById, afterById, changes, Resolved);
    CountsMatch(beforeById, afterById, changes, Worsened);
    CountsMatch(beforeById, afterById, changes, Improved);
    d := Complete(Counts(added, resolved, worsened, improved), changes);
  }

  // ---------- What the delta says ----------

  /** The finding that stands for its fingerprint: no later one has the same. */
  ghost predicate Stands(findings: seq<Record>, f: Record) {
    exists i :: 0 <= i < |findings| && findings[i] == f
                && forall j :: i < j < |findings| ==> findings[j].fingerprint != f.fingerprint
  }

  ghost predicate Absent(findings: seq<Record>, fingerprint: string) {
    forall f :: f in findings ==> f.fingerprint != fingerprint
  }

  lemma LastStands(front: seq<Record>, last: Record)
    ensures Stands(front + [last], last)
  {
    assert (front + [last])[|front|] == last;
  }

  lemma StillStands(front: seq<Record>, last: Record, f: Record)
    requires Stands(front, f) && f.fingerprint != last.fingerprint
    ensures Stands(front + [last], f)
  {
    var all := front + [last];
    var i :| 0 <= i < |front| && front[i] == f
             && forall j :: i < j < |front| ==> front[j].fingerprint != f.fingerprint;
    assert all[i] == f;
  }

  lemma {:induction false} AbsentIff(findings: seq<Record>, id: string)
    ensures id !in ById(findings) <==> Absent(findings, id)
  {
    if findings != [] {
      var front, last := findings[..|findings| - 1], findings[|findings| - 1];
      AbsentIff(front, id);
      assert forall f :: f in findings <==> f in front || f == last;
    }
  }

  lemma {:induction false} ByIdStands(findings: seq<Record>, id: string)
    requires id in ById(findings)
    ensures ById(findings)[id].fingerprint == id && Stands(findings, ById(findings)[id])
  {
    hide Stands;
    var front, last := findings[..|findings| - 1], findings[|findings| - 1];
    assert findings == front + [last];
    if id == last.fingerprint {
      LastStands(front, last);
    } else {
      ByIdStands(front, id);
      StillStands(front, last, ById(front)[id]);
    }
  }

  lemma StandsOnce(findings: seq<Record>, a: Record, b: Record)
    requires Stands(findings, a) && Stands(findings, b) && a.fingerprint == b.fingerprint
    ensures a == b
  {
  }

  /** The index holds exactly the findings that stand for their fingerprints. */
  lemma IndexedIffStands(findings: seq<Record>, f: Record)
    ensures f.fingerprint in ById(findings) && ById(findings)[f.fingerprint] == f <==> Stands(findings, f)
  {
    if Stands(findings, f) {
      assert f in findings;
      AbsentIff(findings, f.fingerprint);
      ByIdStands(findings, f.fingerprint);
      StandsOnce(findings, f, ById(findings)[f.fingerprint]);
    } else if f.fingerprint in ById(findings) {
      ByIdStands(findings, f.fingerprint);
    }
  }

  /** What a metric counts as: zero where it is missing. */
  ghost predicate Measures(f: Record, name: string, value: real) {
    if name in f.metrics then f.metrics[name] == value else value == 0.0
  }

  ghost predicate SameMetric(a: Record, b: Record, name: string) {
    exists v: real :: Measures(a, name, v) && Measures(b, name, v)
  }

  ghost predicate LargerMetric(a: Record, b: Record, name: string) {
    exists v: real, w: real :: Measures(a, name, v) && Measures(b, name, w) && v < w
  }

  /** The first of the metrics that differs is larger in b. */
  ghost predicate FirstIsLarger(a: Record, b: Record, first: string, second: string, third: string) {
    || LargerMetric(a, b, first)
    || (SameMetric(a, b, first) && LargerMetric(a, b, second))
    || (SameMetric(a, b, first) && SameMetric(a, b, second) && LargerMetric(a, b, third))
  }

  /** Measured as a finding of this kind, b is worse than a. */
  ghost predicate Worse(kind: string, a: Record, b: Record) {
    || (kind == "complexity" && FirstIsLarger(a, b, "cyclomatic", "cognitive", "max_nesting"))
    || (kind == "duplication" && FirstIsLarger(a, b, "removable_lines", "copies", "tokens"))
    || (kind == "risk" && exists v: real, w: real ::
          Measures(a, "score", v) && Measures(b, "score", w) && v + 0.01 <= w)
  }

  lemma MetricMeasures(f: Record, name: string, value: real)
    ensures Measures(f, name, value) <==> value == Metric(f, name)
  {
  }

  lemma MetricsCompared(a: Record, b: Record, name: string)
    ensures SameMetric(a, b, name) <==> Metric(a, name) == Metric(b, name)
    ensures LargerMetric(a, b, name) <==> Metric(a, name) < Metric(b, name)
  {
    assert Measures(a, name, Metric(a, name)) && Measures(b, name, Metric(b, name));
  }

  lemma TupleMeans(a: Record, b: Record, first: string, second: string, third: string)
    ensures CompareMetricTuple(a, b, [first, second, third]) == Greater <==> FirstIsLarger(a, b, first, second, third)
    ensures CompareMetricTuple(a, b, [first, second, third]) == Less <==> FirstIsLarger(b, a, first, second, third)
  {
    hide Metric, SameMetric, LargerMetric;
    forall name | name in [first, second, third]
      ensures SameMetric(a, b, name) <==> Metric(a, name) == Metric(b, name)
      ensures SameMetric(b, a, name) <==> Metric(a, name) == Metric(b, name)
      ensures LargerMetric(a, b, name) <==> Metric(a, name) < Metric(b, name)
      ensures LargerMetric(b, a, name) <==> Metric(b, name) < Metric(a, name)
    {
      MetricsCompared(a, b, name);
      MetricsCompared(b, a, name);
    }
    assert CompareMetricTuple(a, b, [third]) == CompareReal(Metric(b, third), Metric(a, third));
    assert [first, second, third][1..] == [second, third] && [second, third][1..] == [third];
    assert first in [first, second, third] && second in [first, second, third] && third in [first, second, third];
  }

  /** The kind of the newer finding decides what is compared; no other kind ever changes. */
  lemma SeverityMeans(before: Record, after: Record)
    ensures CompareSeverity(before, after) == Greater <==> Worse(after.kind, before, after)
    ensures CompareSeverity(before, after) == Less <==> Worse(after.kind, after, before)
  {
    hide CompareMetricTuple, FirstIsLarger, Metric;
    TupleMeans(before, after, "cyclomatic", "cognitive", "max_nesting");
    TupleMeans(before, after, "removable_lines", "copies", "tokens");
    MetricMeasures(before, "score", Metric(before, "score"));
    MetricMeasures(after, "score", Metric(after, "score"));
    forall v: real
      ensures Measures(before, "score", v) ==> v == Metric(before, "score")
      ensures Measures(after, "score", v) ==> v == Metric(after, "score")
    {
      MetricMeasures(before, "score", v);
      MetricMeasures(after, "score", v);
    }
  }

  /** What a reported change says of the two catalogs. */
  ghost predicate Holds(before: seq<Record>, after: seq<Record>, c: Change) {
    match c.state
    case New =>
      c.before.None? && c.after.Some? && Stands(after, c.after.value) && Absent(before, c.after.value.fingerprint)
    case Resolved =>
      c.after.None? && c.before.Some? && Stands(before, c.before.value) && Absent(after, c.before.value.fingerprint)
    case Worsened => Paired(before, after, c) && Worse(c.after.value.kind, c.before.value, c.after.value)
    case Improved => Paired(before, after, c) && Worse(c.after.value.kind, c.after.value, c.before.value)
  }

  /** Both catalogs have the fingerprint. */
  ghost predicate Paired(before: seq<Record>, after: seq<Record>, c: Change) {
    && c.before.Some? && c.after.Some? && c.before.value.fingerprint == c.after.value.fingerprint
    && Stands(before, c.before.value) && Stands(after, c.after.value)
  }

  lemma ClassifiedIffHolds(before: seq<Record>, after: seq<Record>, c: Change)
    ensures Classify(ById(before), ById(after), IdOf(c)) == Some(c) <==> Holds(before, after, c)
  {
    hide ById, Stands, Absent, Worse, CompareSeverity;
    if c.before.Some? {
      IndexedIffStands(before, c.before.value);
    }
    if c.after.Some? {
      IndexedIffStands(after, c.after.value);
    }
    AbsentIff(before, IdOf(c));
    AbsentIff(after, IdOf(c));
    if IdOf(c) in ById(before) {
      ByIdStands(before, IdOf(c));
    }
    if IdOf(c) in ById(after) {
      ByIdStands(after, IdOf(c));
    }
    if c.before.Some? && c.after.Some? {
      SeverityMeans(c.before.value, c.after.value);
    }
  }

  /** The reported changes of one state. */
  function Reported(changes: seq<Change>, state: State): set<Change> {
    set c | c in changes && c.state == state
  }

  lemma ReportedAppend(changes: seq<Change>, last: Change, state: State)
    ensures Reported(changes + [last], state) == Reported(changes, state) + if last.state == state then {last} else {}
  {
    assert forall c :: c in changes + [last] <==> c in changes || c == last;
  }

  lemma {:induction false} CountIsReported(changes: seq<Change>, state: State)
    requires Distinct(changes)
    ensures CountState(changes, state) == |Reported(changes, state)|
  {
    if changes != [] {
      var front, last := changes[..|changes| - 1], changes[|changes| - 1];
      CountIsReported(front, state);
      assert changes == front + [last];
      ReportedAppend(front, last, state);
    }
  }

  /**
   * A delta of catalogs of one version reports exactly what holds of them: a fingerprint of only one of them is new or
   * resolved, a common one has worsened or improved when the first of its kind's metrics that differs went up or down,
   * a risk by a hundredth at least, and nothing else is reported. The counts are the numbers of reported changes.
   */
  lemma DeltaSays(pathLe: (Path, Path) -> bool, before: Catalog, after: Catalog, d: Delta)
    requires before.version == after.version != 0 && Compares(pathLe, before, after, d)
    ensures d.Complete? && Distinct(d.changes)
    ensures forall c :: c in d.changes <==> Holds(before.findings, after.findings, c)
    ensures d.counts.added == |Reported(d.changes, New)| && d.counts.resolved == |Reported(d.changes, Resolved)|
    ensures d.counts.worsened == |Reported(d.changes, Worsened)|
    ensures d.counts.improved == |Reported(d.changes, Improved)|
  {
    hide Holds, Classify, InState, IdOf, ById, Reported;
    var b, a := ById(before.findings), ById(after.findings);
    ByIdIndexes(before.findings);
    ByIdIndexes(after.findings);
    forall c
      ensures c in d.changes <==> Holds(before.findings, after.findings, c)
    {
      ClassifiedIffHolds(before.findings, after.findings, c);
      if Classify(b, a, IdOf(c)) == Some(c) {
        ClassifyKnowsItsId(b, a, IdOf(c));
      }
    }
    forall state: State
      ensures CountState(d.changes, state) == |InState(b, a, state)| == |Reported(d.changes, state)|
    {
      CountsMatch(b, a, d.changes, state);
      CountIsReported(d.changes, state);
    }
  }

  /** The states in the order of the report. */
  predicate StateBefore(a: State, b: State) {
    || (a.New? && !b.New?)
    || (a.Worsened? && (b.Improved? || b.Resolved?))
    || (a.Improved? && b.Resolved?)
  }

  /** Smaller kind; in one kind the smaller path; in one file the earlier line; there the smaller fingerprint. */
  ghost predicate FindingBefore(pathLe: (Path, Path) -> bool, f: Record, g: Record) {
    var p, q := f.primary, g.primary;
    || (f.kind != g.kind && PathLe(f.kind, g.kind))
    || (f.kind == g.kind
        && (|| !pathLe(q.path, p.path)
            || (pathLe(p.path, q.path) && p.startLine < q.startLine)
            || (pathLe(p.path, q.path) && p.startLine == q.startLine
                && f.fingerprint != g.fingerprint && PathLe(f.fingerprint, g.fingerprint))))
  }

  lemma NotReportedAfter(pathLe: (Path, Path) -> bool, x: Change, y: Change, f: Record, g: Record)
    requires TotalPreorder(pathLe) && Subject(x) == Some(f) && Subject(y) == Some(g)
    requires StateBefore(x.state, y.state) || (x.state == y.state && FindingBefore(pathLe, f, g))
    ensures !ChangeLe(pathLe, y, x)
  {
    if PathLe(f.kind, g.kind) && PathLe(g.kind, f.kind) {
      PathLeAntisymmetric(f.kind, g.kind);
    }
    if PathLe(f.fingerprint, g.fingerprint) && PathLe(g.fingerprint, f.fingerprint) {
      PathLeAntisymmetric(f.fingerprint, g.fingerprint);
    }
  }

  /** New findings come first, then worsened, improved and resolved ones; in one state the finding decides. */
  lemma ReportedInOrder(pathLe: (Path, Path) -> bool, before: Catalog, after: Catalog, d: Delta, i: nat, j: nat,
                        f: Record, g: Record)
    requires before.version == after.version != 0 && Compares(pathLe, before, after, d) && TotalPreorder(pathLe)
    requires i < |d.changes| && j < |d.changes|
    requires d.changes[i].after == Some(f) || (d.changes[i].after.None? && d.changes[i].before == Some(f))
    requires d.changes[j].after == Some(g) || (d.changes[j].after.None? && d.changes[j].before == Some(g))
    requires || StateBefore(d.changes[i].state, d.changes[j].state)
             || (d.changes[i].state == d.changes[j].state && FindingBefore(pathLe, f, g))
    ensures i < j
  {
    hide Classify, InState, ById, TotalPreorder, ChangeLe, FindingBefore;
    NotReportedAfter(pathLe, d.changes[i], d.changes[j], f, g);
    ReportOrderTotal(pathLe);
    SmallerIsEarlier(d.changes, ReportOrder(pathLe), i, j);
  }

  // ---------- Laws ----------

  /** Every fingerprint of either catalog has exactly one verdict. */
  lemma VerdictsPartition(before: map<string, Record>, after: map<string, Record>)
    ensures InState(before, after, New) == after.Keys - before.Keys
    ensures InState(before, after, Resolved) == before.Keys - after.Keys
    ensures InState(before, after, Worsened) + InState(before, after, Improved) + Unchanged(before, after)
         == before.Keys * after.Keys
    ensures InState(before, after, Worsened) !! InState(before, after, Improved) !! Unchanged(before, after)
  {
  }

  lemma UnionSize<T>(a: set<T>, b: set<T>)
    ensures |a - b| + |b - a| + |a * b| == |a + b|
  {
    assert a + b == (a - b) + (b - a) + a * b;
    assert |(a - b) + (b - a) + a * b| == |(a - b) + (b - a)| + |a * b|;
  }

  lemma DisjointSizes<T>(a: set<T>, b: set<T>, c: set<T>)
    requires a !! b !! c
    ensures |a + b + c| == |a| + |b| + |c|
  {
    assert |a + b + c| == |a + b| + |c|;
  }

  /** The four counts account for every fingerprint that is not unchanged. */
  lemma CountsPartition(before: map<string, Record>, after: map<string, Record>)
    ensures CountsOf(before, after).added + CountsOf(before, after).resolved + CountsOf(before, after).worsened
          + CountsOf(before, after).improved + |Unchanged(before, after)| == |before.Keys + after.Keys|
  {
    hide InState, Unchanged, Classify;
    VerdictsPartition(before, after);
    DisjointSizes(InState(before, after, Worsened), InState(before, after, Improved), Unchanged(before, after));
    UnionSize(before.Keys, after.Keys);
  }

  lemma SameIdSameChange(pathLe: (Path, Path) -> bool, before: map<string, Record>, after: map<string, Record>,
                         x: Change, y: Change)
    requires Indexed(before) && Indexed(after)
    requires Classify(before, after, IdOf(x)) == Some(x) && Classify(before, after, IdOf(y)) == Some(y)
    requires ChangeLe(pathLe, x, y) && ChangeLe(pathLe, y, x)
    ensures x == y
  {
    ClassifyKnowsItsId(before, after, IdOf(x));
    ClassifyKnowsItsId(before, after, IdOf(y));
    if PathLe(Subject(x).value.kind, Subject(y).value.kind) && PathLe(Subject(y).value.kind, Subject(x).value.kind) {
      PathLeAntisymmetric(Subject(x).value.kind, Subject(y).value.kind);
    }
    PathLeAntisymmetric(IdOf(x), IdOf(y));
  }

  lemma SameChanges(before: map<string, Record>, after: map<string, Record>, a: seq<Change>, b: seq<Change>, c: Change)
    requires Indexed(before) && Indexed(after) && c in a
    requires forall x :: x in a ==> Classify(before, after, IdOf(x)) == Some(x)
    requires forall id :: id in before.Keys + after.Keys && Classify(before, after, id).Some?
               ==> Classify(before, after, id).value in b
    ensures c in b
  {
    hide CompareSeverity;
    ClassifyKnowsItsId(before, after, IdOf(c));
  }

  /** The delta is determined by the two indexes. */
  lemma DeltaDetermined(pathLe: (Path, Path) -> bool, before: map<string, Record>, after: map<string, Record>,
                        d: Delta, e: Delta)
    requires Indexed(before) && Indexed(after)
    requires IsDelta(pathLe, before, after, d) && IsDelta(pathLe, before, after, e)
    ensures d == e
  {
    hide Classify, ChangeLe, IdOf, InState;
    var le := ReportOrder(pathLe);
    forall c
      ensures c in d.changes <==> c in e.changes
    {
      if c in d.changes {
        SameChanges(before, after, d.changes, e.changes, c);
      }
      if c in e.changes {
        SameChanges(before, after, e.changes, d.changes, c);
      }
    }
    forall x, y | x in d.changes && y in d.changes && le(x, y) && le(y, x)
      ensures x == y
    {
      SameIdSameChange(pathLe, before, after, x, y);
    }
    var elements := Elements(d.changes);
    EnumerationMultiset(d.changes, elements);
    EnumerationMultiset(e.changes, elements);
    SortedUnique(d.changes, e.changes, le);
  }

  ghost predicate UniqueFingerprints(findings: seq<Record>) {
    forall f, g :: f in findings && g in findings && f.fingerprint == g.fingerprint ==> f == g
  }

  lemma ByIdIgnoresOrder(a: seq<Record>, b: seq<Record>)
    requires UniqueFingerprints(a) && forall f :: f in a <==> f in b
    ensures ById(a) == ById(b)
  {
    ByIdIndexes(a);
    ByIdIndexes(b);
    forall id
      ensures id in ById(a) <==> id in ById(b)
      ensures id in ById(a) && id in ById(b) ==> ById(a)[id] == ById(b)[id]
    {
      if id in ById(a) {
        assert ById(a)[id] in b;
      }
      if id in ById(b) {
        assert ById(b)[id] in a;
      }
    }
  }

  /** With unique fingerprints the report does not depend on the order of either catalog. */
  lemma CompareIgnoresOrder(pathLe: (Path, Path) -> bool, b1: Catalog, a1: Catalog, b2: Catalog, a2: Catalog,
                            d1: Delta, d2: Delta)
    requires b1.version == b2.version && a1.version == a2.version && b1.version == a1.version != 0
    requires UniqueFingerprints(b1.findings) && multiset(b1.findings) == multiset(b2.findings)
    requires UniqueFingerprints(a1.findings) && multiset(a1.findings) == multiset(a2.findings)
    requires Compares(pathLe, b1, a1, d1) && Compares(pathLe, b2, a2, d2)
    ensures d1 == d2
  {
    SameElements(b1.findings, b2.findings);
    SameElements(a1.findings, a2.findings);
    ByIdIgnoresOrder(b1.findings, b2.findings);
    ByIdIgnoresOrder(a1.findings, a2.findings);
    ByIdIndexes(b1.findings);
    ByIdIndexes(a1.findings);
    DeltaDetermined(pathLe, ById(b1.findings), ById(a1.findings), d1, d2);
  }

  lemma SameElements<T>(a: seq<T>, b: seq<T>)
    requires multiset(a) == multiset(b)
    ensures forall x :: x in a <==> x in b
  {
    forall x
      ensures x in a <==> x in b
    {
      assert x in a <==> x in multiset(a);
      assert x in b <==> x in multiset(b);
    }
  }

  /** Nothing changes between indexes whose common findings carry the same metrics. */
  lemma NoChanges(pathLe: (Path, Path) -> bool, before: map<string, Record>, after: map<string, Record>, d: Delta)
    requires Indexed(before) && Indexed(after) && before.Keys == after.Keys
    requires forall id :: id in before && id in after ==> before[id].metrics == after[id].metrics
    requires IsDelta(pathLe, before, after, d)
    ensures d == Complete(Counts(0, 0, 0, 0), [])
  {
    forall id
      ensures Classify(before, after, id).None?
    {
      if id in before && id in after {
        SameMetricsCompareEqual(before[id], after[id]);
      }
    }
    assert forall s: State :: InState(before, after, s) == {};
    assert forall c :: c !in d.changes;
    HasElement(d.changes);
  }

  lemma HasElement<T>(s: seq<T>)
    ensures s == [] || exists x :: x in s
  {
    if s != [] {
      assert s[0] in s;
    }
  }

  /** A catalog compared with itself is unchanged, even with repeated fingerprints. */
  lemma CompareWithItself(pathLe: (Path, Path) -> bool, catalog: Catalog, d: Delta)
    requires catalog.version != 0 && Compares(pathLe, catalog, catalog, d)
    ensures d == Complete(Counts(0, 0, 0, 0), [])
  {
    ByIdIndexes(catalog.findings);
    NoChanges(pathLe, ById(catalog.findings), ById(catalog.findings), d);
  }

  function Opposite(s: State): State {
    match s
    case New => Resolved
    case Worsened => Improved
    case Improved => Worsened
    case Resolved => New
  }

  function Reversed(c: Change): Change {
    Change(Opposite(c.state), c.after, c.before)
  }

  lemma ClassifyReversed(b: map<string, Record>, a: map<string, Record>, id: string)
    requires id in b && id in a ==> ScaleOf(b[id].kind) == ScaleOf(a[id].kind)
    ensures Classify(a, b, id) == if Classify(b, a, id).None? then None else Some(Reversed(Classify(b, a, id).value))
  {
    if id in b && id in a {
      SeverityFlips(b[id], a[id]);
    }
  }

  ghost predicate SameScales(b: map<string, Record>, a: map<string, Record>) {
    forall id :: id in b && id in a ==> ScaleOf(b[id].kind) == ScaleOf(a[id].kind)
  }

  lemma InStateReversed(b: map<string, Record>, a: map<string, Record>, s: State)
    requires SameScales(b, a)
    ensures InState(a, b, Opposite(s)) == InState(b, a, s)
  {
    forall id
      ensures id in InState(a, b, Opposite(s)) <==> id in InState(b, a, s)
    {
      ClassifyReversed(b, a, id);
    }
  }

  lemma ReversedIn(pathLe: (Path, Path) -> bool, b: map<string, Record>, a: map<string, Record>, d: Delta, e: Delta,
                   c: Change)
    requires Indexed(b) && Indexed(a) && SameScales(b, a)
    requires IsDelta(pathLe, b, a, d) && IsDelta(pathLe, a, b, e) && c in d.changes
    ensures Reversed(c) in e.changes
  {
    hide CompareSeverity, InState, SubjectLe;
    ClassifyKnowsItsId(b, a, IdOf(c));
    ClassifyReversed(b, a, IdOf(c));
  }

  /** Swapping the catalogs reverses every verdict, swaps the counts and sorts the reversed changes anew. */
  lemma CompareSwapped(pathLe: (Path, Path) -> bool, before: Catalog, after: Catalog, d: Delta, e: Delta)
    requires before.version == after.version != 0
    requires forall f, g :: f in before.findings && g in after.findings && f.fingerprint == g.fingerprint
               ==> ScaleOf(f.kind) == ScaleOf(g.kind)
    requires Compares(pathLe, before, after, d) && Compares(pathLe, after, before, e)
    ensures e.counts == Counts(d.counts.resolved, d.counts.added, d.counts.improved, d.counts.worsened)
    ensures forall c :: c in d.changes <==> Reversed(c) in e.changes
    ensures TotalPreorder(pathLe) ==> e.changes == Sort(ReversedAll(d.changes), ReportOrder(pathLe))
  {
    hide Classify, InState, ById, TotalPreorder;
    var b, a := ById(before.findings), ById(after.findings);
    ByIdIndexes(before.findings);
    ByIdIndexes(after.findings);
    InStateReversed(b, a, New);
    InStateReversed(b, a, Worsened);
    InStateReversed(b, a, Improved);
    InStateReversed(b, a, Resolved);
    forall c
      ensures c in d.changes <==> Reversed(c) in e.changes
    {
      if c in d.changes {
        ReversedIn(pathLe, b, a, d, e, c);
      }
      if Reversed(c) in e.changes {
        ReversedIn(pathLe, a, b, e, d, Reversed(c));
        assert Reversed(Reversed(c)) == c;
      }
    }
    if TotalPreorder(pathLe) {
      SwappedOrder(pathLe, b, a, d, e);
    }
  }

  function ReversedAll(changes: seq<Change>): seq<Change> {
    seq(|changes|, i requires 0 <= i < |changes| => Reversed(changes[i]))
  }

  lemma ReversedElements(a: seq<Change>, b: seq<Change>)
    requires Distinct(a) && forall c :: c in a <==> Reversed(c) in b
    ensures Distinct(ReversedAll(a)) && forall c :: c in ReversedAll(a) <==> c in b
  {
    var reversed := ReversedAll(a);
    forall c
      ensures c in reversed <==> c in b
    {
      assert Reversed(Reversed(c)) == c;
      if c in reversed {
        var i :| 0 <= i < |reversed| && reversed[i] == c;
        assert a[i] in a;
      }
      if c in b {
        var i :| 0 <= i < |a| && a[i] == Reversed(c);
        assert reversed[i] == c;
      }
    }
    forall i, j | 0 <= i < j < |reversed|
      ensures reversed[i] != reversed[j]
    {
      assert Reversed(reversed[i]) == a[i] && Reversed(reversed[j]) == a[j];
    }
  }

  /** The reversed changes in the report's order: nothing of the swapped delta is left open. */
  lemma SwappedOrder(pathLe: (Path, Path) -> bool, b: map<string, Record>, a: map<string, Record>, d: Delta, e: Delta)
    requires TotalPreorder(pathLe) && Indexed(a) && Indexed(b)
    requires IsDelta(pathLe, b, a, d) && IsDelta(pathLe, a, b, e)
    requires forall c :: c in d.changes <==> Reversed(c) in e.changes
    ensures e.changes == Sort(ReversedAll(d.changes), ReportOrder(pathLe))
  {
    hide Classify, ChangeLe, IdOf, InState, TotalPreorder, SubjectLe, ReversedAll;
    var le, reversed := ReportOrder(pathLe), ReversedAll(d.changes);
    ReportOrderTotal(pathLe);
    ReversedElements(d.changes, e.changes);
    EnumerationMultiset(reversed, Elements(e.changes));
    EnumerationMultiset(e.changes, Elements(e.changes));
    SortPermutes(reversed, le);
    SortSorted(reversed, le);
    forall x, y | x in e.changes && y in e.changes && le(x, y) && le(y, x)
      ensures x == y
    {
      SameIdSameChange(pathLe, a, b, x, y);
    }
    SortedUnique(e.changes, Sort(reversed, le), le);
  }
}
