/** Where the occurrences of a marker scan stand, told on the text alone (src/metrics/markers.rs). */
module MarkerPlaces {
  import opened Orders
  import opened Markers
  import opened MarkerLaws

  // ---------- Positions ----------

  /** The matches taken are those from left to right: two never overlap, and one left out overlaps an earlier one. */
  lemma {:induction false} MatchesAreLeftmost(text: string, marker: string, i: nat, p: nat)
    requires marker != "" && i <= p && p + |marker| <= |text| && text[p..p + |marker|] == marker
    ensures p in MatchesFrom(text, marker, i)
            <==> forall q :: q in MatchesFrom(text, marker, i) && q < p ==> q + |marker| <= p
    decreases |text| - i
  {
    var matches := MatchesFrom(text, marker, i);
    if text[i..i + |marker|] == marker {
      var rest := MatchesFrom(text, marker, i + |marker|);
      assert matches == [i] + rest && i in matches && forall q :: q in matches <==> q == i || q in rest;
      if i + |marker| <= p {
        MatchesAreLeftmost(text, marker, i + |marker|, p);
      }
    } else {
      MatchesAreLeftmost(text, marker, i + 1, p);
    }
  }

  /** A letter or digit of ASCII, or an underscore. */
  ghost predicate GoesOn(c: char) {
    c == '_' || 'a' <= c <= 'z' || 'A' <= c <= 'Z' || '0' <= c <= '9'
  }

  /** The marker stands in the range, and inside it no word goes on at either end. */
  ghost predicate StandsIn(content: string, r: Range, marker: string, p: nat) {
    && r.start <= p && p + |marker| <= r.stop <= |content| && content[p..p + |marker|] == marker
    && (r.start < p ==> !GoesOn(content[p - 1]))
    && (p + |marker| < r.stop ==> !GoesOn(content[p + |marker|]))
  }

  lemma WordInRange(content: string, r: Range, marker: string, p: nat)
    requires marker != "" && r.start <= p
    ensures IsWord(RangeText(content, r), marker, p - r.start) <==> StandsIn(content, r, marker, p)
  {
    var text, q := RangeText(content, r), p - r.start;
    if r.start <= r.stop <= |content| && q + |marker| <= |text| {
      assert text == content[r.start..r.stop];
      assert forall i :: 0 <= i < |text| ==> text[i] == content[r.start + i];
      assert text[q..q + |marker|] == content[p..p + |marker|];
    }
  }

  lemma InShifted(words: seq<nat>, offset: nat, p: nat)
    ensures p in Shifted(words, offset) <==> p >= offset && p - offset in words
  {
    var shifted := Shifted(words, offset);
    if p in shifted {
      var i :| 0 <= i < |shifted| && shifted[i] == p;
      assert words[i] in words;
    }
    if p >= offset && p - offset in words {
      var i :| 0 <= i < |words| && words[i] == p - offset;
      assert shifted[i] in shifted;
    }
  }

  ghost predicate StandsInSome(content: string, ranges: seq<Range>, marker: string, p: nat) {
    exists r :: r in ranges && StandsIn(content, r, marker, p)
  }

  /** Positions are places where the marker stands; of a marker that is one word they are all of them. */
  lemma {:induction false} PositionsStand(src: Searched, ranges: seq<Range>, marker: string, p: nat)
    requires marker != ""
    ensures p in PositionsIn(src, ranges, marker) ==> StandsInSome(src.content, ranges, marker, p)
    ensures AllWordChars(marker) && StandsInSome(src.content, ranges, marker, p) ==>
              p in PositionsIn(src, ranges, marker)
  {
    hide StandsIn, AllWordChars, IsWord, RangeText, Shifted, WordPositions;
    if ranges != [] {
      var front, r := ranges[..|ranges| - 1], ranges[|ranges| - 1];
      assert ranges == front + [r];
      PositionsStand(src, front, marker, p);
      WordsOfRange(src, r, marker, p);
    }
  }

  lemma WordsOfRange(src: Searched, r: Range, marker: string, p: nat)
    requires marker != ""
    ensures var here := Shifted(WordPositions(RangeText(src.content, r), marker), r.start);
            && (p in here ==> StandsIn(src.content, r, marker, p))
            && (AllWordChars(marker) && StandsIn(src.content, r, marker, p) ==> p in here)
  {
    hide AllWordChars, RangeText;
    var text := RangeText(src.content, r);
    InShifted(WordPositions(text, marker), r.start, p);
    if p >= r.start {
      WordInRange(src.content, r, marker, p);
      if AllWordChars(marker) {
        WordsExactly(text, marker, p - r.start);
      }
    }
  }

  // ---------- Lines and columns ----------

  /** The newlines before a position. */
  function NewlinesBefore(content: string, p: nat): set<int>
    requires p <= |content|
  {
    set q | 0 <= q < p && content[q] == '\n'
  }

  lemma LineCountsNewlines(content: string, p: nat)
    requires p <= |content|
    ensures LineOf(content, p) == |NewlinesBefore(content, p)|
  {
    hide LineStarts, LineOf;
    var passed := NewlinesPassed(content, p);
    forall q
      ensures q in passed <==> q in NewlinesBefore(content, p)
    {
      if q in passed {
        var i :| 0 <= i < |passed| && passed[i] == q;
        PassedIsBefore(content, p, i);
      }
      if q in NewlinesBefore(content, p) {
        var i := BeforeIsPassed(content, p, q);
      }
    }
    PassedOnce(content, p);
    EnumerationSize(passed, NewlinesBefore(content, p));
  }

  /** The newlines behind which the lines up to that of p start. */
  ghost function NewlinesPassed(content: string, p: nat): (passed: seq<int>)
    requires p <= |content|
    ensures |passed| == LineOf(content, p)
  {
    var starts, line := LineStarts(content), LineOf(content, p);
    seq(line, i requires 0 <= i < line => starts[i + 1] - 1)
  }

  lemma PassedOnce(content: string, p: nat)
    requires p <= |content|
    ensures Distinct(NewlinesPassed(content, p))
  {
  }

  lemma PassedIsBefore(content: string, p: nat, i: nat)
    requires p <= |content| && i < LineOf(content, p)
    ensures NewlinesPassed(content, p)[i] in NewlinesBefore(content, p)
  {
    var starts := LineStarts(content);
    StartsUpToSplits(starts, p);
    assert starts[i + 1] in starts && starts[i + 1] <= p;
  }

  lemma BeforeIsPassed(content: string, p: nat, q: nat) returns (i: nat)
    requires p <= |content| && q in NewlinesBefore(content, p)
    ensures i < LineOf(content, p) && NewlinesPassed(content, p)[i] == q
  {
    var starts := LineStarts(content);
    StartsUpToSplits(starts, p);
    assert q + 1 in starts;
    var k :| 0 <= k < |starts| && starts[k] == q + 1;
    i := k - 1;
  }

  /** The part of the content from start to stop is the whole line that p is on. */
  ghost predicate IsLine(content: string, start: nat, stop: nat, p: nat) {
    && start <= p <= stop <= |content| && (forall q :: start <= q < stop ==> content[q] != '\n')
    && (start == 0 || content[start - 1] == '\n') && (stop == |content| || content[stop] == '\n')
  }

  lemma {:induction false} NextNewlineEnds(content: string, i: nat)
    requires i <= |content|
    ensures var stop := NextNewline(content, i);
            (forall q :: i <= q < stop ==> content[q] != '\n') && (stop == |content| || content[stop] == '\n')
    decreases |content| - i
  {
    if i < |content| && content[i] != '\n' {
      NextNewlineEnds(content, i + 1);
    }
  }

  lemma NoNewlineSince(content: string, p: nat)
    requires p <= |content|
    ensures forall q :: LineStarts(content)[LineOf(content, p)] <= q < p ==> content[q] != '\n'
  {
    forall q | LineStarts(content)[LineOf(content, p)] <= q < p && content[q] == '\n'
      ensures false
    {
      LastStart(content, p, q + 1);
    }
  }

  lemma LineOfPosition(content: string, p: nat)
    requires p <= |content|
    ensures var start := LineStarts(content)[LineOf(content, p)];
            && IsLine(content, start, NextNewline(content, p), p)
            && LineText(content, LineOf(content, p)) == content[start..NextNewline(content, p)]
  {
    var start := LineStarts(content)[LineOf(content, p)];
    assert start in LineStarts(content);
    LineAround(content, p);
    NextNewlineEnds(content, p);
    NoNewlineSince(content, p);
  }

  /** The occurrence is that of the marker at p: its line and column count from one, its hash is of the whole line. */
  ghost predicate TellsPlace(src: Searched, o: Occurrence, p: nat) {
    && p <= |src.content| && o.line == |NewlinesBefore(src.content, p)| + 1
    && exists start: nat, stop: nat :: IsLine(src.content, start, stop, p) && o.column == p - start + 1
                            && o.contextHash == src.context(src.content[start..stop])
  }

  lemma LocatedTells(src: Searched, h: Hit, ordinal: nat)
    requires h.position <= |src.content|
    ensures TellsPlace(src, OccurrenceOf(src, h, ordinal), h.position)
  {
    hide LineStarts, LineText, LineOf, IsLine;
    LineCountsNewlines(src.content, h.position);
    LineOfPosition(src.content, h.position);
  }

  // ---------- The scan ----------

  lemma {:induction false} HitsAreFound(src: Searched, markers: seq<string>, h: Hit)
    ensures h in Found(src, markers) <==> h.marker in markers && h.position in Positions(src, h.marker)
  {
    hide Positions;
    if markers != [] {
      var front, last := markers[..|markers| - 1], markers[|markers| - 1];
      assert markers == front + [last];
      HitsAreFound(src, front, h);
      InHits(last, Positions(src, last), h);
    }
  }

  lemma InHits(marker: string, positions: seq<nat>, h: Hit)
    ensures h in HitsOf(marker, positions) <==> h.marker == marker && h.position in positions
  {
    var hits := HitsOf(marker, positions);
    if h in hits {
      var i :| 0 <= i < |hits| && hits[i] == h;
    }
    if h.marker == marker && h.position in positions {
      var i :| 0 <= i < |positions| && positions[i] == h.position;
      assert hits[i] == h;
    }
  }

  lemma OccurrencesLocate(src: Searched, hits: seq<Hit>, o: Occurrence)
    ensures o in Numbered(src, hits) ==> exists h, n :: h in hits && o == OccurrenceOf(src, h, n)
  {
    hide OccurrenceOf;
    if o in Numbered(src, hits) {
      var i :| 0 <= i < |hits| && Numbered(src, hits)[i] == o;
      NumberedAt(src, hits, i);
      assert hits[i] in hits;
    }
  }

  lemma HitsAreNumbered(src: Searched, hits: seq<Hit>, h: Hit)
    ensures h in hits ==> exists n :: OccurrenceOf(src, h, n) in Numbered(src, hits)
  {
    hide OccurrenceOf;
    if h in hits {
      var i :| 0 <= i < |hits| && hits[i] == h;
      NumberedAt(src, hits, i);
      assert Numbered(src, hits)[i] in Numbered(src, hits);
    }
  }

  /** What is reported is there: each occurrence tells a place where its marker, which is listed, stands. */
  lemma EveryOccurrenceStands(src: Searched, markers: seq<string>, o: Occurrence) returns (p: nat)
    requires o in Scan(src, markers).occurrences
    ensures o.marker in markers && o.marker != ""
    ensures StandsInSome(src.content, src.ranges, o.marker, p) && TellsPlace(src, o, p)
  {
    hide OccurrenceOf, Found, Numbered, TellsPlace, StandsInSome, PositionsIn;
    SortPermutes(Numbered(src, Found(src, markers)), PlaceLe);
    OccurrencesLocate(src, Found(src, markers), o);
    var h, n :| h in Found(src, markers) && o == OccurrenceOf(src, h, n);
    p := h.position;
    MarkerOf(src, h, n);
    HitsAreFound(src, markers, h);
    PositionsStand(src, src.ranges, h.marker, p);
    PositionsInside(src, src.ranges, h.marker);
    LocatedTells(src, h, n);
  }

  /** What is there is reported, for every marker that is one word: each place where a listed one stands. */
  lemma EveryPlaceIsReported(src: Searched, markers: seq<string>, m: string, p: nat) returns (o: Occurrence)
    requires m in markers && m != "" && AllWordChars(m) && StandsInSome(src.content, src.ranges, m, p)
    ensures o in Scan(src, markers).occurrences && o.marker == m && TellsPlace(src, o, p)
  {
    hide OccurrenceOf, Found, Numbered, TellsPlace, StandsInSome, PositionsIn;
    SortPermutes(Numbered(src, Found(src, markers)), PlaceLe);
    var h := Hit(m, p);
    PositionsStand(src, src.ranges, m, p);
    PositionsInside(src, src.ranges, m);
    HitsAreFound(src, markers, h);
    HitsAreNumbered(src, Found(src, markers), h);
    var n :| OccurrenceOf(src, h, n) in Numbered(src, Found(src, markers));
    o := OccurrenceOf(src, h, n);
    MarkerOf(src, h, n);
    LocatedTells(src, h, n);
  }

  function CountIn(scan: MarkerScan, m: string): nat {
    if m in scan.counts then scan.counts[m] else 0
  }

  lemma CountedPositions(src: Searched, markers: seq<string>, m: string)
    ensures CountIn(Scan(src, markers), m) == if m in markers then |Positions(src, m)| else 0
    ensures m in Scan(src, markers).counts <==> m in markers && |Positions(src, m)| > 0
  {
    hide Positions, Numbered, Found;
  }

  lemma OccurrencesOfScan(src: Searched, markers: seq<string>, m: string)
    ensures |OccurrencesFor(Scan(src, markers).occurrences, m)| == multiset(markers)[m] * |Positions(src, m)|
  {
    hide Positions, Numbered, Found, PlaceLe, OccurrencesFor;
    var os, sorted := Numbered(src, Found(src, markers)), Scan(src, markers).occurrences;
    SortPermutes(os, PlaceLe);
    OccurrencesOfMarker(src, markers, m);
    SameMarkerByMarker(os, sorted);
    assert SameFor(os, sorted, m);
    assert |multiset(OccurrencesFor(os, m))| == |multiset(OccurrencesFor(sorted, m))|;
  }

  /** The count of a marker, once for each time it is listed, is the number of its occurrences. */
  lemma CountsTellOccurrences(src: Searched, markers: seq<string>, m: string)
    ensures |OccurrencesFor(Scan(src, markers).occurrences, m)|
         == multiset(markers)[m] * CountIn(Scan(src, markers), m)
    ensures m in Scan(src, markers).counts <==> exists o :: o in Scan(src, markers).occurrences && o.marker == m
  {
    hide Positions, Scan, OccurrencesFor, CountIn;
    CountedPositions(src, markers, m);
    OccurrencesOfScan(src, markers, m);
    SomeForMarker(Scan(src, markers).occurrences, m);
    assert m in markers <==> multiset(markers)[m] > 0 by { assert m in markers <==> m in multiset(markers); }
    if m in markers && |Positions(src, m)| > 0 {
      PositiveProduct(multiset(markers)[m], |Positions(src, m)|);
    }
  }

  lemma PositiveProduct(a: nat, b: nat)
    requires a > 0 && b > 0
    ensures a * b > 0
  {
  }

  lemma {:induction false} SomeForMarker(os: seq<Occurrence>, m: string)
    ensures OccurrencesFor(os, m) != [] <==> exists o :: o in os && o.marker == m
  {
    if os != [] {
      SomeForMarker(os[..|os| - 1], m);
      assert os == os[..|os| - 1] + [os[|os| - 1]];
    }
  }

  // ---------- Numbers and order ----------

  /** The occurrences of one marker on lines of one context. */
  function Alike(os: seq<Occurrence>, marker: string, contextHash: string): set<Occurrence> {
    set o | o in os && o.marker == marker && o.contextHash == contextHash
  }

  lemma {:induction false} NumbersCount(src: Searched, hits: seq<Hit>, key: (string, string))
    ensures |Alike(Numbered(src, hits), key.0, key.1)| == Earlier(src, hits, key)
    ensures forall o :: o in Alike(Numbered(src, hits), key.0, key.1) ==> 1 <= o.ordinal <= Earlier(src, hits, key)
  {
    hide LineOf, LineStarts, ContextHash;
    if hits != [] {
      var front, last := hits[..|hits| - 1], hits[|hits| - 1];
      NumbersCount(src, front, key);
      var before := Numbered(src, front);
      var o := OccurrenceOf(src, last, Earlier(src, front, KeyOf(src, last)) + 1);
      assert Numbered(src, hits) == before + [o];
      assert Alike(before + [o], key.0, key.1)
          == Alike(before, key.0, key.1) + if KeyOf(src, last) == key then {o} else {};
      assert KeyOf(src, last) == key ==> o !in Alike(before, key.0, key.1);
    }
  }

  /** Occurrences of one marker in one context are numbered from one to as many as there are, each number once. */
  lemma NumberedFromOne(src: Searched, markers: seq<string>, i: nat)
    requires i < |Scan(src, markers).occurrences|
    ensures var os := Scan(src, markers).occurrences;
            1 <= os[i].ordinal <= |Alike(os, os[i].marker, os[i].contextHash)|
    ensures var os := Scan(src, markers).occurrences;
            forall j :: 0 <= j < |os| && j != i ==>
              !(os[j].marker == os[i].marker && os[j].contextHash == os[i].contextHash
                && os[j].ordinal == os[i].ordinal)
  {
    hide Found, Numbered, PlaceLe;
    var numbered, os := Numbered(src, Found(src, markers)), Scan(src, markers).occurrences;
    SortPermutes(numbered, PlaceLe);
    assert os[i] in os;
    NumbersCount(src, Found(src, markers), (os[i].marker, os[i].contextHash));
    assert Alike(os, os[i].marker, os[i].contextHash) == Alike(numbered, os[i].marker, os[i].contextHash);
    forall j | 0 <= j < |os| && j != i
      ensures !(os[j].marker == os[i].marker && os[j].contextHash == os[i].contextHash
                && os[j].ordinal == os[i].ordinal)
    {
      IdentitiesAreDistinct(src, markers, if i < j then i else j, if i < j then j else i);
    }
  }

  /** Earlier line; on one line the smaller column; at one place the smaller marker, or the smaller number. */
  ghost predicate ListedBefore(a: Occurrence, b: Occurrence) {
    || a.line < b.line
    || (a.line == b.line && a.column < b.column)
    || (a.line == b.line && a.column == b.column && a.marker != b.marker && PathLe(a.marker, b.marker))
    || (a.line == b.line && a.column == b.column && a.marker == b.marker && a.ordinal < b.ordinal)
  }

  lemma ListedInOrder(src: Searched, markers: seq<string>, i: nat, j: nat)
    requires i < |Scan(src, markers).occurrences| && j < |Scan(src, markers).occurrences|
    requires ListedBefore(Scan(src, markers).occurrences[i], Scan(src, markers).occurrences[j])
    ensures i < j
  {
    hide Scan, InOrder, ListedBefore;
    var os := Scan(src, markers).occurrences;
    ScanIsOrdered(src, markers);
    NotListedAfter(os[i], os[j]);
  }

  lemma NotListedAfter(a: Occurrence, b: Occurrence)
    ensures ListedBefore(a, b) ==> a != b && !InOrder(b, a)
  {
    if PathLe(a.marker, b.marker) && PathLe(b.marker, a.marker) {
      PathLeAntisymmetric(a.marker, b.marker);
    }
  }
}
