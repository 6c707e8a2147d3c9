/** Changed line ranges (src/git.rs) and the review questions asked of them (src/review.rs). */
module ChangedLines {
  import opened Machine
  import opened Orders

  datatype LineRange = LineRange(start: usize, end: usize)

  function Max(a: usize, b: usize): usize {
    if a < b then b else a
  }

  // ---------- Collecting ranges ----------

  function Push(ranges: seq<LineRange>, line: usize): seq<LineRange> {
    if ranges != [] && line <= SaturatingAdd(ranges[|ranges| - 1].end, 1) then
      var last := ranges[|ranges| - 1];
      ranges[|ranges| - 1 := LineRange(last.start, Max(last.end, line))]
    else
      ranges + [LineRange(line, line)]
  }

  function RangesOf(lines: seq<usize>): seq<LineRange> {
    if lines == [] then [] else Push(RangesOf(lines[..|lines| - 1]), lines[|lines| - 1])
  }

  /** The diff callback: one push for every changed line, in the order the patch prints them. */
  method CollectRanges(lines: seq<usize>) returns (ranges: seq<LineRange>)
    ensures ranges == RangesOf(lines)
  {
    ranges := [];
    for k := 0 to |lines|
      invariant ranges == RangesOf(lines[..k])
    {
      assert lines[..k + 1][..k] == lines[..k];
      var line := lines[k];
      if |ranges| > 0 && line <= SaturatingAdd(ranges[|ranges| - 1].end, 1) {
        var last := ranges[|ranges| - 1];
        ranges := ranges[|ranges| - 1 := last.(end := Max(last.end, line))];
      } else {
        ranges := ranges + [LineRange(line, line)];
      }
    }
    assert lines[..|lines|] == lines;
  }

  ghost predicate Covers(ranges: seq<LineRange>, line: int) {
    exists i :: 0 <= i < |ranges| && ranges[i].start <= line <= ranges[i].end
  }

  /** Proper ranges in ascending order with at least one untouched line between neighbours. */
  ghost predicate Separated(ranges: seq<LineRange>) {
    && (forall i :: 0 <= i < |ranges| ==> ranges[i].start <= ranges[i].end)
    && (forall i, j :: 0 <= i < j < |ranges| ==> ranges[i].end + 1 < ranges[j].start)
  }

  ghost predicate Ascending(lines: seq<usize>) {
    forall i, j :: 0 <= i < j < |lines| ==> lines[i] <= lines[j]
  }

  /** The line either opens a new range or lies at or above the start of the last one. */
  predicate Recordable(ranges: seq<LineRange>, line: usize) {
    || ranges == []
    || line > SaturatingAdd(ranges[|ranges| - 1].end, 1)
    || line >= ranges[|ranges| - 1].start
  }

  lemma PushCovers(ranges: seq<LineRange>, line: usize, x: int)
    ensures Covers(Push(ranges, line), x) <==> Covers(ranges, x) || (x == line && Recordable(ranges, line))
  {
    var pushed := Push(ranges, line);
    var n := |pushed| - 1;
    if Covers(ranges, x) {
      var i :| 0 <= i < |ranges| && ranges[i].start <= x <= ranges[i].end;
      assert pushed[i].start <= x <= pushed[i].end;
    }
    if x == line && Recordable(ranges, line) {
      assert pushed[n].start <= x <= pushed[n].end;
    }
    if Covers(pushed, x) {
      var i :| 0 <= i < |pushed| && pushed[i].start <= x <= pushed[i].end;
      assert i < n ==> pushed[i] == ranges[i];
      assert i < |ranges| && x <= ranges[i].end ==> ranges[i].start <= x <= ranges[i].end;
    }
  }

  /** Exactly when one push adds its line: a line below the last range is absorbed unless it was covered already. */
  lemma PushRecordsExactly(ranges: seq<LineRange>, line: usize)
    ensures (forall x :: Covers(Push(ranges, line), x) <==> Covers(ranges, x) || x == line)
            <==> Recordable(ranges, line) || Covers(ranges, line)
  {
    forall x
      ensures Covers(Push(ranges, line), x) <==> Covers(ranges, x) || (x == line && Recordable(ranges, line))
    {
      PushCovers(ranges, line, x);
    }
  }

  /** Lines out of order can be lost: after line 5, line 3 leaves no trace. */
  lemma DescendingLineIsLost()
    ensures !Covers(RangesOf([5, 3]), 3)
  {
    assert [5, 3][..1] == [5] && [5][..0] == [];
    assert RangesOf([5]) == [LineRange(5, 5)];
    PushCovers([LineRange(5, 5)], 3, 3);
  }

  /** The line was not lost when it was pushed. */
  ghost predicate KeptAt(lines: seq<usize>, k: nat)
    requires k < |lines|
  {
    Recordable(RangesOf(lines[..k]), lines[k]) || Covers(RangesOf(lines[..k]), lines[k])
  }

  /** Below the range opened last, where nothing is recorded any more. */
  predicate Below(ranges: seq<LineRange>, line: usize) {
    ranges != [] && line < ranges[|ranges| - 1].start
  }

  ghost predicate LastProper(ranges: seq<LineRange>) {
    ranges != [] ==> ranges[|ranges| - 1].start <= ranges[|ranges| - 1].end
  }

  lemma {:induction false} LastIsProper(lines: seq<usize>)
    ensures LastProper(RangesOf(lines))
  {
    if lines != [] {
      LastIsProper(lines[..|lines| - 1]);
    }
  }

  /** What is below the last range stays below, and no later push records it. */
  lemma BelowStays(ranges: seq<LineRange>, line: usize, next: usize)
    requires LastProper(ranges) && Below(ranges, line)
    ensures Below(Push(ranges, next), line)
    ensures !Recordable(ranges, line)
  {
  }

  /** A line lost when it is pushed is not covered in the end, even if it is pushed again. */
  lemma {:induction false} LostForGood(lines: seq<usize>, k: nat, n: nat)
    requires k < n <= |lines| && !KeptAt(lines, k)
    ensures Below(RangesOf(lines[..n]), lines[k]) && !Covers(RangesOf(lines[..n]), lines[k])
  {
    var ranges, next := RangesOf(lines[..n - 1]), lines[n - 1];
    assert lines[..n][..n - 1] == lines[..n - 1];
    LastIsProper(lines[..n - 1]);
    if k < n - 1 {
      LostForGood(lines, k, n - 1);
    }
    BelowStays(ranges, lines[k], next);
    PushCovers(ranges, next, lines[k]);
  }

  lemma {:induction false} CoversOnlyLines(lines: seq<usize>, x: int)
    ensures Covers(RangesOf(lines), x) ==> x in lines
  {
    if lines != [] {
      CoversOnlyLines(lines[..|lines| - 1], x);
      assert lines == lines[..|lines| - 1] + [lines[|lines| - 1]];
      PushCovers(RangesOf(lines[..|lines| - 1]), lines[|lines| - 1], x);
    }
  }

  lemma {:induction false} KeptIsCovered(lines: seq<usize>, k: nat, n: nat)
    requires k < n <= |lines| && KeptAt(lines, k)
    ensures Covers(RangesOf(lines[..n]), lines[k])
  {
    assert lines[..n][..n - 1] == lines[..n - 1];
    if k < n - 1 {
      KeptIsCovered(lines, k, n - 1);
    }
    PushCovers(RangesOf(lines[..n - 1]), lines[n - 1], lines[k]);
  }

  /**
   * Whatever the order of the lines, the ranges cover exactly them if and only if each, when it is pushed, is not below
   * the range opened last or is covered already.
   */
  lemma ExactIffNoneIsLost(lines: seq<usize>)
    ensures (forall x :: Covers(RangesOf(lines), x) <==> x in lines)
            <==> forall k :: 0 <= k < |lines| ==> KeptAt(lines, k)
  {
    hide KeptAt, Covers;
    assert lines[..|lines|] == lines;
    forall x
      ensures Covers(RangesOf(lines), x) ==> x in lines
    {
      CoversOnlyLines(lines, x);
    }
    forall k | 0 <= k < |lines|
      ensures KeptAt(lines, k) <==> Covers(RangesOf(lines), lines[k])
    {
      if KeptAt(lines, k) {
        KeptIsCovered(lines, k, |lines|);
      } else {
        LostForGood(lines, k, |lines|);
      }
    }
    if forall k :: 0 <= k < |lines| ==> KeptAt(lines, k) {
      forall x | x in lines
        ensures Covers(RangesOf(lines), x)
      {
        var k :| 0 <= k < |lines| && lines[k] == x;
      }
    }
    if forall x :: Covers(RangesOf(lines), x) <==> x in lines {
      forall k | 0 <= k < |lines|
        ensures KeptAt(lines, k)
      {
        assert lines[k] in lines;
      }
    }
  }

  lemma PushSeparates(ranges: seq<LineRange>, line: usize)
    requires Separated(ranges)
    requires ranges != [] ==> line >= ranges[|ranges| - 1].end
    ensures Separated(Push(ranges, line))
    ensures var r := Push(ranges, line); r != [] && r[|r| - 1].end == line
  {
  }

  /** Ascending lines: separated ranges that cover exactly the changed lines. */
  lemma {:induction false} RangesAreExact(lines: seq<usize>)
    requires Ascending(lines)
    ensures Separated(RangesOf(lines))
    ensures forall x :: Covers(RangesOf(lines), x) <==> x in lines
    ensures lines != [] ==> var r := RangesOf(lines); r != [] && r[|r| - 1].end == lines[|lines| - 1]
  {
    hide Separated, Covers, Push;
    if lines != [] {
      var front, line := lines[..|lines| - 1], lines[|lines| - 1];
      RangesAreExact(front);
      assert lines == front + [line];
      if front != [] {
        assert front[|front| - 1] <= line;
      } else {
        assert RangesOf(front) == [];
      }
      PushSeparates(RangesOf(front), line);
      if front != [] {
        RangeIsProper(RangesOf(front), |RangesOf(front)| - 1);
      }
      PushRecordsExactly(RangesOf(front), line);
    } else {
      NoRanges();
    }
  }

  lemma RangeIsProper(ranges: seq<LineRange>, i: nat)
    requires Separated(ranges) && i < |ranges|
    ensures ranges[i].start <= ranges[i].end
  {
  }

  lemma NoRanges()
    ensures Separated([]) && forall x :: !Covers([], x)
  {
  }

  /** Separated ranges are a normal form: they are determined by the lines they cover. */
  lemma {:induction false} NormalFormUnique(a: seq<LineRange>, b: seq<LineRange>)
    requires Separated(a) && Separated(b)
    requires forall x :: Covers(a, x) <==> Covers(b, x)
    ensures a == b
  {
    if a != [] {
      assert a[0].start <= a[0].start <= a[0].end;
      assert Covers(a, a[0].start);
    }
    if b != [] {
      assert b[0].start <= b[0].start <= b[0].end;
      assert Covers(b, b[0].start);
    }
    if a != [] && b != [] {
      FirstRangeWithin(a, b);
      FirstRangeWithin(b, a);
      forall x
        ensures Covers(a[1..], x) <==> Covers(b[1..], x)
      {
        TailCovers(a, x);
        TailCovers(b, x);
      }
      TailSeparated(a);
      TailSeparated(b);
      NormalFormUnique(a[1..], b[1..]);
      assert a == [a[0]] + a[1..] && b == [b[0]] + b[1..];
    }
  }

  lemma TailSeparated(a: seq<LineRange>)
    requires Separated(a) && a != []
    ensures Separated(a[1..])
  {
  }

  lemma FirstRangeWithin(a: seq<LineRange>, b: seq<LineRange>)
    requires Separated(a) && Separated(b) && a != [] && b != []
    requires forall x :: Covers(a, x) <==> Covers(b, x)
    ensures b[0].start <= a[0].start && a[0].end <= b[0].end
  {
    assert a[0].start <= a[0].start <= a[0].end;
    assert Covers(a, a[0].start);
    var i :| 0 <= i < |b| && b[i].start <= a[0].start <= b[i].end;
    assert b[0].start <= b[i].start;
    GapAfterFirst(b);
    assert a[0].start <= b[0].end + 1 <= a[0].end ==> Covers(a, b[0].end + 1);
    assert i > 0 ==> b[0].end < a[0].start;
    StartsFirst(a, b);
  }

  lemma GapAfterFirst(b: seq<LineRange>)
    requires Separated(b) && b != []
    ensures !Covers(b, b[0].end + 1)
  {
  }

  /** The least covered line opens the first range of both lists. */
  lemma StartsFirst(a: seq<LineRange>, b: seq<LineRange>)
    requires Separated(a) && Separated(b) && a != [] && b != []
    requires forall x :: Covers(a, x) <==> Covers(b, x)
    ensures a[0].start == b[0].start
  {
    assert a[0].start <= a[0].start <= a[0].end;
    assert Covers(a, a[0].start);
    assert b[0].start <= b[0].start <= b[0].end;
    assert Covers(b, b[0].start);
    var i :| 0 <= i < |b| && b[i].start <= a[0].start <= b[i].end;
    var j :| 0 <= j < |a| && a[j].start <= b[0].start <= a[j].end;
    assert b[0].start <= b[i].start && a[0].start <= a[j].start;
  }

  lemma TailCovers(a: seq<LineRange>, x: int)
    requires Separated(a) && a != []
    ensures Covers(a[1..], x) <==> Covers(a, x) && x > a[0].end
  {
    if Covers(a, x) && x > a[0].end {
      var i :| 0 <= i < |a| && a[i].start <= x <= a[i].end;
      assert a[1..][i - 1] == a[i];
    }
    if Covers(a[1..], x) {
      var i :| 0 <= i < |a[1..]| && a[1..][i].start <= x <= a[1..][i].end;
      assert a[1..][i] == a[i + 1];
    }
  }

  /** The recorded ranges depend only on which lines changed. */
  lemma RangesDependOnLineSet(a: seq<usize>, b: seq<usize>)
    requires Ascending(a) && Ascending(b)
    requires forall x :: x in a <==> x in b
    ensures RangesOf(a) == RangesOf(b)
  {
    RangesAreExact(a);
    RangesAreExact(b);
    NormalFormUnique(RangesOf(a), RangesOf(b));
  }

  // ---------- Review ----------

  datatype ChangedFile = ChangedFile(
    oldPath: Option<Path>,
    path: Option<Path>,
    status: string,
    oldRanges: seq<LineRange>,
    ranges: seq<LineRange>)

  datatype Location = Location(path: Path, startLine: usize, endLine: usize)

  datatype Finding = Finding(primary: Location, related: seq<Location>)

  datatype Change = Change(before: Option<Finding>, after: Option<Finding>)

  predicate RangesOverlap(aStart: usize, aEnd: usize, bStart: usize, bEnd: usize) {
    aStart <= bEnd && bStart <= aEnd
  }

  predicate SpanHits(location: Location, ranges: seq<LineRange>) {
    exists range :: range in ranges &&
      RangesOverlap(location.startLine, Max(location.endLine, location.startLine), range.start, range.end)
  }

  predicate LocationChanged(location: Location, files: seq<ChangedFile>) {
    exists file :: file in files && file.path == Some(location.path) && SpanHits(location, file.ranges)
  }

  predicate NamesOldSide(location: Location, file: ChangedFile) {
    file.oldPath == Some(location.path) || (file.status == "renamed" && file.path == Some(location.path))
  }

  predicate OldLocationChanged(location: Location, files: seq<ChangedFile>) {
    exists file :: file in files && NamesOldSide(location, file) && SpanHits(location, file.oldRanges)
  }

  predicate FindingIntersects(finding: Finding, files: seq<ChangedFile>, oldSide: bool) {
    var matches := (location: Location) =>
      if oldSide then OldLocationChanged(location, files) else LocationChanged(location, files);
    matches(finding.primary) || exists location :: location in finding.related && matches(location)
  }

  predicate ChangeIntersects(change: Change, files: seq<ChangedFile>) {
    || (change.after.Some? && FindingIntersects(change.after.value, files, false))
    || (change.before.Some? && FindingIntersects(change.before.value, files, true))
  }

  /** The changed lines a diff reported for one file. */
  datatype Patch = Patch(oldPath: Option<Path>, path: Option<Path>, status: string, oldLines: seq<usize>,
                         lines: seq<usize>)

  ghost predicate PrintedInOrder(patches: seq<Patch>) {
    forall p :: p in patches ==> Ascending(p.lines) && Ascending(p.oldLines)
  }

  function FileOf(p: Patch): ChangedFile {
    ChangedFile(p.oldPath, p.path, p.status, RangesOf(p.oldLines), RangesOf(p.lines))
  }

  function FilesOf(patches: seq<Patch>): seq<ChangedFile> {
    seq(|patches|, i requires 0 <= i < |patches| => FileOf(patches[i]))
  }

  /** Removed lines are those of the old path; a rename also answers for findings rebased onto its new path. */
  ghost predicate RemovedFrom(p: Patch, path: Path) {
    || (p.oldPath.Some? && p.oldPath.value == path)
    || (p.status == "renamed" && p.path.Some? && p.path.value == path)
  }

  ghost predicate Within(location: Location, line: usize) {
    location.startLine == line || location.startLine <= line <= location.endLine
  }

  lemma SpanHitsALine(location: Location, lines: seq<usize>)
    requires Ascending(lines)
    ensures SpanHits(location, RangesOf(lines)) <==> exists line :: line in lines && Within(location, line)
  {
    hide Separated, RangesOf;
    RangesAreExact(lines);
    var ranges := RangesOf(lines);
    if SpanHits(location, ranges) {
      var range :| range in ranges &&
        RangesOverlap(location.startLine, Max(location.endLine, location.startLine), range.start, range.end);
      var i :| 0 <= i < |ranges| && ranges[i] == range;
      RangeIsProper(ranges, i);
      var line := Max(location.startLine, range.start);
      assert ranges[i].start <= line <= ranges[i].end;
      assert Covers(ranges, line);
      assert Within(location, line);
    }
    if line :| line in lines && Within(location, line) {
      assert Covers(ranges, line);
      var i :| 0 <= i < |ranges| && ranges[i].start <= line <= ranges[i].end;
      assert ranges[i] in ranges;
    }
  }

  /** True exactly when some changed line of that file lies in the span of the location. */
  lemma LocationChangedIffLineChanged(location: Location, patches: seq<Patch>)
    requires PrintedInOrder(patches)
    ensures LocationChanged(location, FilesOf(patches))
            <==> exists p, line ::
                   p in patches && p.path == Some(location.path) && line in p.lines && Within(location, line)
  {
    var files := FilesOf(patches);
    if LocationChanged(location, files) {
      var file :| file in files && file.path == Some(location.path) && SpanHits(location, file.ranges);
      var i :| 0 <= i < |files| && files[i] == file;
      assert patches[i] in patches;
      SpanHitsALine(location, patches[i].lines);
    }
    if p, line :| p in patches && p.path == Some(location.path) && line in p.lines && Within(location, line) {
      var i :| 0 <= i < |patches| && patches[i] == p;
      SpanHitsALine(location, p.lines);
      assert files[i] in files;
    }
  }

  /** The old side also answers for a finding already rebased onto the new name of a renamed file. */
  lemma OldLocationChangedIffLineRemoved(location: Location, patches: seq<Patch>)
    requires PrintedInOrder(patches)
    ensures OldLocationChanged(location, FilesOf(patches))
            <==> exists p, line ::
                   p in patches && RemovedFrom(p, location.path) && line in p.oldLines && Within(location, line)
  {
    var files := FilesOf(patches);
    if OldLocationChanged(location, files) {
      var file :| file in files && NamesOldSide(location, file) && SpanHits(location, file.oldRanges);
      var i :| 0 <= i < |files| && files[i] == file;
      assert patches[i] in patches;
      SpanHitsALine(location, patches[i].oldLines);
    }
    if p, line :| p in patches && RemovedFrom(p, location.path) && line in p.oldLines && Within(location, line) {
      var i :| 0 <= i < |patches| && patches[i] == p;
      SpanHitsALine(location, p.oldLines);
      assert files[i] in files;
    }
  }

  ghost predicate Mentions(finding: Finding, location: Location) {
    location == finding.primary || location in finding.related
  }

  ghost predicate LineAdded(location: Location, patches: seq<Patch>) {
    exists p, line :: p in patches && p.path == Some(location.path) && line in p.lines && Within(location, line)
  }

  ghost predicate LineRemoved(location: Location, patches: seq<Patch>) {
    exists p, line :: p in patches && RemovedFrom(p, location.path) && line in p.oldLines && Within(location, line)
  }

  /** A finding change is in the review exactly when a location of either side holds a changed line of that side. */
  lemma ChangeReviewedIffTouched(change: Change, patches: seq<Patch>)
    requires PrintedInOrder(patches)
    ensures ChangeIntersects(change, FilesOf(patches))
            <==> || (change.after.Some? && exists l :: Mentions(change.after.value, l) && LineAdded(l, patches))
                 || (change.before.Some? && exists l :: Mentions(change.before.value, l) && LineRemoved(l, patches))
  {
    forall l: Location
      ensures LocationChanged(l, FilesOf(patches)) <==> LineAdded(l, patches)
      ensures OldLocationChanged(l, FilesOf(patches)) <==> LineRemoved(l, patches)
    {
      LocationChangedIffLineChanged(l, patches);
      OldLocationChangedIffLineRemoved(l, patches);
    }
  }
}
