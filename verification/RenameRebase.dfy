/** Rebasing a base catalog across detected renames before comparing (src/findings.rs). */
module RenameRebase {
  import opened Orders
  import opened Fingerprint
  import opened Findings
  import ChangedLines

  function RenamesOf(files: seq<ChangedLines.ChangedFile>): map<Path, Path> {
    if files == [] then map[]
    else
      var rest, file := RenamesOf(files[..|files| - 1]), files[|files| - 1];
      if file.status == "renamed" && file.oldPath.Some? && file.path.Some?
      then rest[file.oldPath.value := file.path.value]
      else rest
  }

  function Renamed(renames: map<Path, Path>, path: Path): Path {
    if path in renames then renames[path] else path
  }

  function RemapLocation(renames: map<Path, Path>, l: Location): Location {
    l.(path := Renamed(renames, l.path))
  }

  function Remap(h: Hashing, renames: map<Path, Path>, f: Record): Record {
    var primary := RemapLocation(renames, f.primary);
    f.(primary := primary,
       related := seq(|f.related|, i requires 0 <= i < |f.related| => RemapLocation(renames, f.related[i])),
       fingerprint := if f.kind != "duplication" then PathFingerprint(h, f.kind, primary.path, f.identity)
                      else f.fingerprint)
  }

  function RemapAll(h: Hashing, renames: map<Path, Path>, findings: seq<Record>): seq<Record> {
    seq(|findings|, i requires 0 <= i < |findings| => Remap(h, renames, findings[i]))
  }

  predicate FingerprintLe(a: Record, b: Record) {
    PathLe(a.fingerprint, b.fingerprint)
  }

  function Rebased(h: Hashing, catalog: Catalog, files: seq<ChangedLines.ChangedFile>): Catalog {
    var renames := RenamesOf(files);
    if renames == map[] then catalog
    else catalog.(findings := Sort(RemapAll(h, renames, catalog.findings), FingerprintLe))
  }

  method CollectRenames(files: seq<ChangedLines.ChangedFile>) returns (renames: map<Path, Path>)
    ensures renames == RenamesOf(files)
  {
    renames := map[];
    for k := 0 to |files|
      invariant renames == RenamesOf(files[..k])
    {
      assert files[..k + 1][..k] == files[..k];
      var file := files[k];
      if file.status == "renamed" && file.oldPath.Some? && file.path.Some? {
        renames := renames[file.oldPath.value := file.path.value];
      }
    }
    assert files[..|files|] == files;
  }

  method RemapRenames(h: Hashing, catalog: Catalog, files: seq<ChangedLines.ChangedFile>) returns (r: Catalog)
    ensures r == Rebased(h, catalog, files)
  {
    var renames := CollectRenames(files);
    if renames == map[] {
      return catalog;
    }
    var findings := catalog.findings;
    for k := 0 to |findings|
      invariant |findings| == |catalog.findings|
      invariant forall i :: 0 <= i < k ==> findings[i] == Remap(h, renames, catalog.findings[i])
      invariant forall i :: k <= i < |findings| ==> findings[i] == catalog.findings[i]
    {
      var f := findings[k];
      f := f.(primary := RemapLocation(renames, f.primary),
              related := seq(|f.related|, i requires 0 <= i < |f.related| => RemapLocation(renames, f.related[i])));
      if f.kind != "duplication" {
        f := f.(fingerprint := PathFingerprint(h, f.kind, f.primary.path, f.identity));
      }
      assert f.related == Remap(h, renames, catalog.findings[k]).related;
      findings := findings[k := f];
    }
    assert findings == RemapAll(h, renames, catalog.findings);
    r := catalog.(findings := Sort(findings, FingerprintLe));
  }

  // ---------- What rebasing does to a finding ----------

  ghost predicate RenamesAway(file: ChangedLines.ChangedFile, p: Path) {
    file.status == "renamed" && file.oldPath == Some(p) && file.path.Some?
  }

  /** The path after the renames: of several renames of one path the last counts. */
  ghost predicate NewPath(files: seq<ChangedLines.ChangedFile>, p: Path, q: Path) {
    || (q == p && forall i :: 0 <= i < |files| ==> !RenamesAway(files[i], p))
    || exists i :: 0 <= i < |files| && RenamesAway(files[i], p) && files[i].path == Some(q)
                   && forall j :: i < j < |files| ==> !RenamesAway(files[j], p)
  }

  lemma {:induction false} RenamedIsNewPath(files: seq<ChangedLines.ChangedFile>, p: Path)
    ensures p in RenamesOf(files) <==> exists i :: 0 <= i < |files| && RenamesAway(files[i], p)
    ensures NewPath(files, p, Renamed(RenamesOf(files), p))
  {
    if files != [] {
      var front, last := files[..|files| - 1], |files| - 1;
      RenamedIsNewPath(front, p);
      assert forall i :: 0 <= i < last ==> front[i] == files[i];
      if RenamesAway(files[last], p) {
        assert files[last].path == Some(Renamed(RenamesOf(files), p));
      } else if p in RenamesOf(front) {
        var i :| 0 <= i < last && RenamesAway(front[i], p) && front[i].path == Some(Renamed(RenamesOf(front), p))
                 && forall j :: i < j < last ==> !RenamesAway(front[j], p);
        assert RenamesAway(files[i], p) && forall j :: i < j < |files| ==> !RenamesAway(files[j], p);
      }
    }
  }

  ghost predicate SameLines(files: seq<ChangedLines.ChangedFile>, before: Location, after: Location) {
    after.startLine == before.startLine && after.endLine == before.endLine && NewPath(files, before.path, after.path)
  }

  /** Only paths and the fingerprint change, and that of a duplication not even then. */
  ghost predicate RebasedAs(h: Hashing, files: seq<ChangedLines.ChangedFile>, f: Record, r: Record) {
    && r.identity == f.identity && r.kind == f.kind && r.severity == f.severity && r.message == f.message
    && r.metrics == f.metrics && SameLines(files, f.primary, r.primary) && |r.related| == |f.related|
    && (forall i :: 0 <= i < |r.related| ==> SameLines(files, f.related[i], r.related[i]))
    && (f.kind == "duplication" ==> r.fingerprint == f.fingerprint)
    && (f.kind != "duplication" ==> r.fingerprint == PathFingerprint(h, f.kind, r.primary.path, f.identity))
  }

  lemma RemapIsRebased(h: Hashing, files: seq<ChangedLines.ChangedFile>, f: Record)
    ensures RebasedAs(h, files, f, Remap(h, RenamesOf(files), f))
  {
    hide NewPath, RenamesOf;
    RenamedIsNewPath(files, f.primary.path);
    forall i | 0 <= i < |f.related|
      ensures SameLines(files, f.related[i], RemapLocation(RenamesOf(files), f.related[i]))
    {
      RenamedIsNewPath(files, f.related[i].path);
    }
  }

  ghost predicate ByFingerprint(s: seq<Record>) {
    forall i, j :: 0 <= i < j < |s| ==> PathLe(s[i].fingerprint, s[j].fingerprint)
  }

  /**
   * Without a rename the catalog stays as it is. Otherwise every finding is rebased, and they are listed by their
   * fingerprints.
   */
  lemma RebasedTells(h: Hashing, catalog: Catalog, files: seq<ChangedLines.ChangedFile>) returns (all: seq<Record>)
    ensures (forall i, p :: 0 <= i < |files| ==> !RenamesAway(files[i], p)) ==> Rebased(h, catalog, files) == catalog
    ensures Rebased(h, catalog, files).version == catalog.version
    ensures (exists i, p :: 0 <= i < |files| && RenamesAway(files[i], p)) ==>
              && |all| == |catalog.findings|
              && (forall k :: 0 <= k < |all| ==> RebasedAs(h, files, catalog.findings[k], all[k]))
              && multiset(Rebased(h, catalog, files).findings) == multiset(all)
              && ByFingerprint(Rebased(h, catalog, files).findings)
  {
    hide RebasedAs, Remap;
    var renames := RenamesOf(files);
    all := RemapAll(h, renames, catalog.findings);
    forall p
      ensures p in renames <==> exists i :: 0 <= i < |files| && RenamesAway(files[i], p)
    {
      RenamedIsNewPath(files, p);
    }
    forall k | 0 <= k < |all|
      ensures RebasedAs(h, files, catalog.findings[k], all[k])
    {
      RemapIsRebased(h, files, catalog.findings[k]);
    }
    if i, p :| 0 <= i < |files| && RenamesAway(files[i], p) {
      assert p in renames;
      RebasedListing(h, catalog, files);
    } else {
      assert renames == map[];
    }
  }

  lemma RebasedListing(h: Hashing, catalog: Catalog, files: seq<ChangedLines.ChangedFile>)
    requires RenamesOf(files) != map[]
    ensures multiset(Rebased(h, catalog, files).findings) == multiset(RemapAll(h, RenamesOf(files), catalog.findings))
    ensures ByFingerprint(Rebased(h, catalog, files).findings)
  {
    hide Remap;
    var all := RemapAll(h, RenamesOf(files), catalog.findings);
    FingerprintOrder();
    SortPermutes(all, FingerprintLe);
    SortSorted(all, FingerprintLe);
    InOrderOf(Sort(all, FingerprintLe));
  }

  lemma InOrderOf(s: seq<Record>)
    requires Sorted(s, FingerprintLe)
    ensures ByFingerprint(s)
  {
    forall i, j | 0 <= i < j < |s|
      ensures PathLe(s[i].fingerprint, s[j].fingerprint)
    {
      assert FingerprintLe(s[i], s[j]);
    }
  }

  lemma FingerprintOrder()
    ensures TotalPreorder(FingerprintLe)
  {
    hide PathLe;
    PathOrder();
  }

  /** Catalogs as the analyzer builds them: path-based findings carry the fingerprint of their own path. */
  ghost predicate WellFingerprinted(h: Hashing, catalog: Catalog) {
    forall f :: f in catalog.findings && f.kind != "duplication"
      ==> f.fingerprint == PathFingerprint(h, f.kind, f.primary.path, f.identity)
  }

  /** g is what a new analysis reports for f once the files have their new names. */
  ghost predicate Moved(h: Hashing, renames: map<Path, Path>, f: Record, g: Record) {
    && g.kind == f.kind && g.identity == f.identity && g.metrics == f.metrics
    && g.primary.path == Renamed(renames, f.primary.path)
    && g.fingerprint == (if f.kind == "duplication" then f.fingerprint
                         else PathFingerprint(h, g.kind, g.primary.path, g.identity))
  }

  /** Every finding of the base reappears at its new place. */
  ghost predicate AllReappear(h: Hashing, renames: map<Path, Path>, before: Catalog, after: Catalog) {
    forall f :: f in before.findings ==> exists g :: g in after.findings && Moved(h, renames, f, g)
  }

  /** Every finding of the current catalog comes from one of the base. */
  ghost predicate NoneInvented(h: Hashing, renames: map<Path, Path>, before: Catalog, after: Catalog) {
    forall g :: g in after.findings ==> exists f :: f in before.findings && Moved(h, renames, f, g)
  }

  lemma MovedTo(h: Hashing, renames: map<Path, Path>, before: Catalog, after: Catalog, f: Record) returns (g: Record)
    requires AllReappear(h, renames, before, after) && f in before.findings
    ensures g in after.findings && Moved(h, renames, f, g)
  {
    g :| g in after.findings && Moved(h, renames, f, g);
  }

  lemma MovedFrom(h: Hashing, renames: map<Path, Path>, before: Catalog, after: Catalog, g: Record) returns (f: Record)
    requires NoneInvented(h, renames, before, after) && g in after.findings
    ensures f in before.findings && Moved(h, renames, f, g)
  {
    f :| f in before.findings && Moved(h, renames, f, g);
  }

  /** Every rebased finding has the metrics and the new identity of a finding of the base. */
  lemma RebasedFrom(h: Hashing, before: Catalog, files: seq<ChangedLines.ChangedFile>, r: Record) returns (f: Record)
    requires WellFingerprinted(h, before) && r in Rebased(h, before, files).findings
    ensures f in before.findings && Mirrors(h, RenamesOf(files), f, r)
  {
    var renames := RenamesOf(files);
    if renames == map[] {
      f := r;
    } else {
      var all := RemapAll(h, renames, before.findings);
      SortPermutes(all, FingerprintLe);
      var i :| 0 <= i < |all| && all[i] == r;
      f := before.findings[i];
    }
  }

  lemma RebasedTo(h: Hashing, before: Catalog, files: seq<ChangedLines.ChangedFile>, f: Record) returns (r: Record)
    requires WellFingerprinted(h, before) && f in before.findings
    ensures r in Rebased(h, before, files).findings && Mirrors(h, RenamesOf(files), f, r)
  {
    var renames := RenamesOf(files);
    if renames == map[] {
      r := f;
    } else {
      var all := RemapAll(h, renames, before.findings);
      SortPermutes(all, FingerprintLe);
      var i :| 0 <= i < |before.findings| && before.findings[i] == f;
      assert all[i] in all;
      r := all[i];
    }
  }

  ghost predicate Mirrors(h: Hashing, renames: map<Path, Path>, f: Record, r: Record) {
    && r.metrics == f.metrics
    && r.fingerprint == (if f.kind == "duplication" then f.fingerprint
                         else PathFingerprint(h, f.kind, Renamed(renames, f.primary.path), f.identity))
  }

  lemma MirrorsMoved(h: Hashing, renames: map<Path, Path>, f: Record, r: Record, g: Record)
    requires Mirrors(h, renames, f, r) && Moved(h, renames, f, g)
    ensures r.fingerprint == g.fingerprint && r.metrics == g.metrics
  {
  }

  lemma UniqueInIndex(findings: seq<Record>, g: Record)
    requires UniqueFingerprints(findings) && g in findings
    ensures g.fingerprint in ById(findings) && ById(findings)[g.fingerprint] == g
  {
    ByIdIndexes(findings);
  }

  lemma RebasedIsKnown(h: Hashing, before: Catalog, after: Catalog, files: seq<ChangedLines.ChangedFile>, r: Record)
    requires WellFingerprinted(h, before) && AllReappear(h, RenamesOf(files), before, after)
    requires UniqueFingerprints(after.findings) && r in Rebased(h, before, files).findings
    ensures r.fingerprint in ById(after.findings) && ById(after.findings)[r.fingerprint].metrics == r.metrics
  {
    hide *;
    var f := RebasedFrom(h, before, files, r);
    var g := MovedTo(h, RenamesOf(files), before, after, f);
    MirrorsMoved(h, RenamesOf(files), f, r, g);
    UniqueInIndex(after.findings, g);
  }

  lemma MovedIsRebased(h: Hashing, before: Catalog, after: Catalog, files: seq<ChangedLines.ChangedFile>, g: Record)
    requires WellFingerprinted(h, before) && NoneInvented(h, RenamesOf(files), before, after)
    requires g in after.findings
    ensures g.fingerprint in ById(Rebased(h, before, files).findings)
  {
    hide *;
    var f := MovedFrom(h, RenamesOf(files), before, after, g);
    var r := RebasedTo(h, before, files, f);
    MirrorsMoved(h, RenamesOf(files), f, r, g);
    ByIdIndexes(Rebased(h, before, files).findings);
  }

  /** When paths changed only by the detected renames, the rebased comparison is silent. */
  lemma RenamesAreNotChanges(h: Hashing, pathLe: (Path, Path) -> bool, before: Catalog, after: Catalog,
                             files: seq<ChangedLines.ChangedFile>, d: Delta)
    requires before.version == after.version != 0 && WellFingerprinted(h, before)
    requires AllReappear(h, RenamesOf(files), before, after) && NoneInvented(h, RenamesOf(files), before, after)
    requires UniqueFingerprints(after.findings)
    requires Compares(pathLe, Rebased(h, before, files), after, d)
    ensures d == Complete(Counts(0, 0, 0, 0), [])
  {
    hide AllReappear, NoneInvented, Rebased, ById, IsDelta, WellFingerprinted, UniqueFingerprints;
    var rebased := Rebased(h, before, files);
    RebasedVersion(h, before, files);
    var b, a := ById(rebased.findings), ById(after.findings);
    ByIdIndexes(rebased.findings);
    ByIdIndexes(after.findings);
    forall id | id in b
      ensures id in a && b[id].metrics == a[id].metrics
    {
      RebasedIsKnown(h, before, after, files, b[id]);
    }
    forall id | id in a
      ensures id in b
    {
      MovedIsRebased(h, before, after, files, a[id]);
    }
    NoChanges(pathLe, b, a, d);
  }

  lemma RebasedVersion(h: Hashing, before: Catalog, files: seq<ChangedLines.ChangedFile>)
    ensures Rebased(h, before, files).version == before.version
  {
  }
}
