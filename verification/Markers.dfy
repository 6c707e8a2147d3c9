/** Annotation markers: where they stand, how often, and the number each occurrence gets (src/metrics/markers.rs). */
module Markers {
  import opened Orders

  datatype Range = Range(start: nat, stop: nat)

  datatype Occurrence = Occurrence(marker: string, line: nat, column: nat, contextHash: string, ordinal: nat)

  datatype MarkerScan = MarkerScan(counts: map<string, nat>, occurrences: seq<Occurrence>)

  /** A text, the parts of it that are searched, and the hash of a line after its white space was normalized. */
  datatype Searched = Searched(content: string, ranges: seq<Range>, context: string -> string)

  // ---------- Words ----------

  predicate IsWordChar(c: char) {
    'a' <= c <= 'z' || 'A' <= c <= 'Z' || '0' <= c <= '9' || c == '_'
  }

  /** The marker stands at the position, and no word goes on at either end of it. */
  predicate IsWord(text: string, marker: string, p: nat) {
    && p + |marker| <= |text| && text[p..p + |marker|] == marker
    && (p > 0 ==> !IsWordChar(text[p - 1]))
    && (p + |marker| < |text| ==> !IsWordChar(text[p + |marker|]))
  }

  /** The matches from left to right that do not overlap, the contract of the standard library's `match_indices`. */
  function MatchesFrom(text: string, marker: string, i: nat): (matches: seq<nat>)
    requires marker != ""
    ensures forall p :: p in matches ==> i <= p && p + |marker| <= |text| && text[p..p + |marker|] == marker
    decreases |text| - i
  {
    if i + |marker| > |text| then []
    else if text[i..i + |marker|] == marker then [i] + MatchesFrom(text, marker, i + |marker|)
    else MatchesFrom(text, marker, i + 1)
  }

  function WordsAmong(text: string, marker: string, matches: seq<nat>): (words: seq<nat>)
    ensures forall p :: p in words <==> p in matches && IsWord(text, marker, p)
  {
    if matches == [] then []
    else if IsWord(text, marker, matches[0]) then [matches[0]] + WordsAmong(text, marker, matches[1..])
    else WordsAmong(text, marker, matches[1..])
  }

  function WordPositions(text: string, marker: string): seq<nat>
    requires marker != ""
  {
    WordsAmong(text, marker, MatchesFrom(text, marker, 0))
  }

  predicate AllWordChars(marker: string) {
    forall c :: c in marker ==> IsWordChar(c)
  }

  lemma NoWordInside(text: string, marker: string, i: nat, p: nat)
    requires AllWordChars(marker) && i < p && i + |marker| <= |text| && text[i..i + |marker|] == marker
    ensures IsWord(text, marker, p) ==> p >= i + |marker|
  {
    if p < i + |marker| {
      assert text[i..i + |marker|][p - 1 - i] == marker[p - 1 - i];
      assert marker[p - 1 - i] in marker;
    }
  }

  lemma {:induction false} NoWordIsSkipped(text: string, marker: string, i: nat, p: nat)
    requires marker != "" && AllWordChars(marker) && i <= p && IsWord(text, marker, p)
    ensures p in MatchesFrom(text, marker, i)
    decreases |text| - i
  {
    if text[i..i + |marker|] == marker {
      if i < p {
        NoWordInside(text, marker, i, p);
        NoWordIsSkipped(text, marker, i + |marker|, p);
      }
    } else {
      NoWordIsSkipped(text, marker, i + 1, p);
    }
  }

  /** A marker that is one word is found exactly where it stands as a word, although matches do not overlap. */
  lemma WordsExactly(text: string, marker: string, p: nat)
    requires marker != "" && AllWordChars(marker)
    ensures p in WordPositions(text, marker) <==> IsWord(text, marker, p)
  {
    if IsWord(text, marker, p) {
      NoWordIsSkipped(text, marker, 0, p);
    }
  }

  /** The text of a range; a range that is none of the content has no text. */
  function RangeText(content: string, r: Range): string {
    if r.start <= r.stop <= |content| then content[r.start..r.stop] else ""
  }

  function Shifted(positions: seq<nat>, offset: nat): seq<nat> {
    seq(|positions|, i requires 0 <= i < |positions| => offset + positions[i])
  }

  function PositionsIn(src: Searched, ranges: seq<Range>, marker: string): seq<nat>
    requires marker != ""
  {
    if ranges == [] then []
    else
      var r := ranges[|ranges| - 1];
      PositionsIn(src, ranges[..|ranges| - 1], marker)
        + Shifted(WordPositions(RangeText(src.content, r), marker), r.start)
  }

  /** Where the marker stands in the searched parts, range by range. An empty marker stands nowhere. */
  function Positions(src: Searched, marker: string): seq<nat> {
    if marker == "" then [] else PositionsIn(src, src.ranges, marker)
  }

  // ---------- Lines ----------

  function LineStarts(content: string): (starts: seq<nat>)
    ensures starts != [] && starts[0] == 0
    ensures forall i, j :: 0 <= i < j < |starts| ==> starts[i] < starts[j]
    ensures forall s :: s in starts <==> s == 0 || (0 < s <= |content| && content[s - 1] == '\n')
  {
    if content == "" then [0]
    else
      var front := content[..|content| - 1];
      assert forall i :: 0 <= i < |LineStarts(front)| ==> LineStarts(front)[i] in LineStarts(front);
      if content[|content| - 1] == '\n' then LineStarts(front) + [|content|] else LineStarts(front)
  }

  /** How many starts are at or before the position, the contract of `partition_point` on sorted starts. */
  function StartsUpTo(starts: seq<nat>, p: nat): (n: nat)
    ensures n <= |starts|
  {
    if starts == [] || starts[0] > p then 0 else 1 + StartsUpTo(starts[1..], p)
  }

  lemma {:induction false} StartsUpToSplits(starts: seq<nat>, p: nat)
    requires forall i, j :: 0 <= i < j < |starts| ==> starts[i] < starts[j]
    ensures forall i :: 0 <= i < |starts| ==> (starts[i] <= p <==> i < StartsUpTo(starts, p))
  {
    if starts != [] && starts[0] <= p {
      StartsUpToSplits(starts[1..], p);
      forall i | 0 <= i < |starts|
        ensures starts[i] <= p <==> i < StartsUpTo(starts, p)
      {
        assert i > 0 ==> starts[i] == starts[1..][i - 1];
      }
    }
  }

  function LineOf(content: string, p: nat): (line: nat)
    ensures line < |LineStarts(content)| && LineStarts(content)[line] <= p
  {
    StartsUpToSplits(LineStarts(content), p);
    StartsUpTo(LineStarts(content), p) - 1
  }

  function NextNewline(content: string, i: nat): (end: nat)
    requires i <= |content|
    ensures i <= end <= |content|
    decreases |content| - i
  {
    if i == |content| || content[i] == '\n' then i else NextNewline(content, i + 1)
  }

  function LineText(content: string, line: nat): string
    requires line < |LineStarts(content)|
  {
    var start := LineStarts(content)[line];
    assert start in LineStarts(content);
    content[start..NextNewline(content, start)]
  }

  lemma {:induction false} SameNextNewline(content: string, i: nat, p: nat)
    requires i <= p <= |content| && forall q :: i <= q < p ==> content[q] != '\n'
    ensures NextNewline(content, i) == NextNewline(content, p)
    decreases p - i
  {
    if i < p {
      SameNextNewline(content, i + 1, p);
    }
  }

  lemma LastStart(content: string, p: nat, s: nat)
    requires s in LineStarts(content) && s <= p
    ensures s <= LineStarts(content)[LineOf(content, p)]
  {
    var starts := LineStarts(content);
    StartsUpToSplits(starts, p);
    var i :| 0 <= i < |starts| && starts[i] == s;
    assert i < |starts| && i <= LineOf(content, p);
  }

  /** The line a position is on starts at or before it and ends where the next newline from it is. */
  lemma LineAround(content: string, p: nat)
    requires p <= |content|
    ensures LineStarts(content)[LineOf(content, p)] <= p
    ensures LineText(content, LineOf(content, p))
         == content[LineStarts(content)[LineOf(content, p)]..NextNewline(content, p)]
  {
    var starts, line := LineStarts(content), LineOf(content, p);
    forall q | starts[line] <= q < p
      ensures content[q] != '\n'
    {
      if content[q] == '\n' {
        LastStart(content, p, q + 1);
      }
    }
    SameNextNewline(content, starts[line], p);
  }

  // ---------- What a scan finds ----------

  datatype Hit = Hit(marker: string, position: nat)

  function HitsOf(marker: string, positions: seq<nat>): seq<Hit> {
    seq(|positions|, i requires 0 <= i < |positions| => Hit(marker, positions[i]))
  }

  /** The hits in the order of the list: a marker listed twice is found twice. */
  function Found(src: Searched, markers: seq<string>): seq<Hit> {
    if markers == [] then []
    else
      var last := markers[|markers| - 1];
      Found(src, markers[..|markers| - 1]) + HitsOf(last, Positions(src, last))
  }

  function ContextHash(src: Searched, p: nat): string {
    src.context(LineText(src.content, LineOf(src.content, p)))
  }

  function KeyOf(src: Searched, h: Hit): (string, string) {
    (h.marker, ContextHash(src, h.position))
  }

  function Earlier(src: Searched, hits: seq<Hit>, key: (string, string)): nat {
    if hits == [] then 0
    else Earlier(src, hits[..|hits| - 1], key) + if KeyOf(src, hits[|hits| - 1]) == key then 1 else 0
  }

  function OccurrenceOf(src: Searched, h: Hit, ordinal: nat): Occurrence {
    var line := LineOf(src.content, h.position);
    Occurrence(h.marker, line + 1, h.position - LineStarts(src.content)[line] + 1, ContextHash(src, h.position),
               ordinal)
  }

  /** Each hit with its number among those of the same marker on lines of the same context. */
  function Numbered(src: Searched, hits: seq<Hit>): (occurrences: seq<Occurrence>)
    ensures |occurrences| == |hits|
  {
    if hits == [] then []
    else
      var front, last := hits[..|hits| - 1], hits[|hits| - 1];
      Numbered(src, front) + [OccurrenceOf(src, last, Earlier(src, front, KeyOf(src, last)) + 1)]
  }

  function Counts(src: Searched, markers: seq<string>): map<string, nat> {
    map m | m in markers && Positions(src, m) != [] :: |Positions(src, m)|
  }

  predicate PlaceLe(a: Occurrence, b: Occurrence) {
    if a.line != b.line then a.line < b.line
    else if a.column != b.column then a.column < b.column
    else PathLe(a.marker, b.marker)
  }

  function Scan(src: Searched, markers: seq<string>): MarkerScan {
    MarkerScan(Counts(src, markers), Sort(Numbered(src, Found(src, markers)), PlaceLe))
  }

  // ---------- The scan ----------

  method LineStartsOf(content: string) returns (starts: seq<nat>)
    ensures starts == LineStarts(content)
  {
    starts := [0];
    for i := 0 to |content|
      invariant starts == LineStarts(content[..i])
    {
      assert content[..i + 1][..i] == content[..i];
      if content[i] == '\n' {
        starts := starts + [i + 1];
      }
    }
    assert content[..|content|] == content;
  }

  type Ordinals = map<(string, string), nat>

  function OrdinalOr(ordinals: Ordinals, key: (string, string)): nat {
    if key in ordinals then ordinals[key] else 0
  }

  /** The ordinals count the hits so far by marker and context. */
  ghost predicate Counting(src: Searched, hits: seq<Hit>, ordinals: Ordinals) {
    forall key :: OrdinalOr(ordinals, key) == Earlier(src, hits, key)
  }

  lemma OneMoreHit(src: Searched, hits: seq<Hit>, ordinals: Ordinals, h: Hit)
    requires Counting(src, hits, ordinals)
    ensures var ordinal := OrdinalOr(ordinals, KeyOf(src, h)) + 1;
            && Counting(src, hits + [h], ordinals[KeyOf(src, h) := ordinal])
            && Numbered(src, hits + [h]) == Numbered(src, hits) + [OccurrenceOf(src, h, ordinal)]
  {
    hide KeyOf, OccurrenceOf;
    assert (hits + [h])[..|hits|] == hits;
    assert OrdinalOr(ordinals, KeyOf(src, h)) == Earlier(src, hits, KeyOf(src, h));
    forall key
      ensures OrdinalOr(ordinals[KeyOf(src, h) := OrdinalOr(ordinals, KeyOf(src, h)) + 1], key)
           == Earlier(src, hits + [h], key)
    {
      assert OrdinalOr(ordinals, key) == Earlier(src, hits, key);
    }
  }

  /** One occurrence: its line and column, the hash of its line, and its number among those like it. */
  method Locate(src: Searched, starts: seq<nat>, marker: string, position: nat, ordinals: Ordinals)
    returns (o: Occurrence, ordinals': Ordinals)
    requires starts == LineStarts(src.content) && position <= |src.content|
    ensures var h := Hit(marker, position);
            var ordinal := OrdinalOr(ordinals, KeyOf(src, h)) + 1;
            o == OccurrenceOf(src, h, ordinal) && ordinals' == ordinals[KeyOf(src, h) := ordinal]
  {
    LineAround(src.content, position);
    var lineIndex := StartsUpTo(starts, position) - 1;
    var lineStart := starts[lineIndex];
    var lineEnd := NextNewline(src.content, position);
    var contextHash := src.context(src.content[lineStart..lineEnd]);
    var ordinal := OrdinalOr(ordinals, (marker, contextHash)) + 1;
    ordinals' := ordinals[(marker, contextHash) := ordinal];
    o := Occurrence(marker, lineIndex + 1, position - lineStart + 1, contextHash, ordinal);
  }

  lemma {:induction false} PositionsInside(src: Searched, ranges: seq<Range>, marker: string)
    requires marker != ""
    ensures forall p :: p in PositionsIn(src, ranges, marker) ==> p <= |src.content|
  {
    if ranges != [] {
      var r := ranges[|ranges| - 1];
      PositionsInside(src, ranges[..|ranges| - 1], marker);
      var words := WordPositions(RangeText(src.content, r), marker);
      forall p | p in Shifted(words, r.start)
        ensures p <= |src.content|
      {
        var i :| 0 <= i < |words| && r.start + words[i] == p;
        assert words[i] in words;
      }
    }
  }

  lemma CountsOneMore(src: Searched, markers: seq<string>, m: string)
    ensures Counts(src, markers + [m])
         == if Positions(src, m) == [] then Counts(src, markers) else Counts(src, markers)[m := |Positions(src, m)|]
  {
  }

  /** The loop over the list as it is configured: empty markers are passed over, repeats are not. */
  method ScanRanges(src: Searched, markers: seq<string>) returns (scan: MarkerScan)
    ensures scan == Scan(src, markers)
  {
    hide Positions, KeyOf, OccurrenceOf, Counting, LineStarts;
    var counts: map<string, nat> := map[];
    var occurrences: seq<Occurrence> := [];
    var ordinals: Ordinals := map[];
    var starts := LineStartsOf(src.content);
    NothingCounted(src);
    for k := 0 to |markers|
      invariant counts == Counts(src, markers[..k])
      invariant occurrences == Numbered(src, Found(src, markers[..k]))
      invariant Counting(src, Found(src, markers[..k]), ordinals)
    {
      var marker := markers[k];
      TakeOneMore(markers, k);
      assert markers[..k + 1][..k] == markers[..k];
      CountsOneMore(src, markers[..k], marker);
      if marker == "" {
        NothingFound(src);
        assert Found(src, markers[..k + 1]) == Found(src, markers[..k]);
        continue;
      }
      var positions := PositionsOf(src, marker);
      if positions != [] {
        counts := counts[marker := |positions|];
      }
      occurrences, ordinals := LocateAll(src, starts, marker, positions, Found(src, markers[..k]), occurrences,
                                         ordinals);
    }
    TakeAll(markers);
    return MarkerScan(counts, Sort(occurrences, PlaceLe));
  }

  lemma NothingCounted(src: Searched)
    ensures Counting(src, [], map[]) && Counts(src, []) == map[]
  {
  }

  lemma NothingFound(src: Searched)
    ensures Positions(src, "") == [] && HitsOf("", []) == []
  {
  }

  /** The positions of one marker, collected range by range. */
  method PositionsOf(src: Searched, marker: string) returns (positions: seq<nat>)
    requires marker != ""
    ensures positions == Positions(src, marker) && forall p :: p in positions ==> p <= |src.content|
  {
    positions := [];
    for k := 0 to |src.ranges|
      invariant positions == PositionsIn(src, src.ranges[..k], marker)
    {
      assert src.ranges[..k + 1][..k] == src.ranges[..k];
      var r := src.ranges[k];
      positions := positions + Shifted(WordPositions(RangeText(src.content, r), marker), r.start);
    }
    TakeAll(src.ranges);
    PositionsInside(src, src.ranges, marker);
  }

  method LocateAll(src: Searched, starts: seq<nat>, marker: string, positions: seq<nat>, ghost hits: seq<Hit>,
                   occurrences: seq<Occurrence>, ordinals: Ordinals)
    returns (occurrences': seq<Occurrence>, ordinals': Ordinals)
    requires starts == LineStarts(src.content) && forall p :: p in positions ==> p <= |src.content|
    requires occurrences == Numbered(src, hits) && Counting(src, hits, ordinals)
    ensures occurrences' == Numbered(src, hits + HitsOf(marker, positions))
    ensures Counting(src, hits + HitsOf(marker, positions), ordinals')
  {
    hide KeyOf, OccurrenceOf, Counting, LineStarts, Numbered;
    occurrences', ordinals' := occurrences, ordinals;
    assert hits + HitsOf(marker, positions[..0]) == hits;
    for j := 0 to |positions|
      invariant occurrences' == Numbered(src, hits + HitsOf(marker, positions[..j]))
      invariant Counting(src, hits + HitsOf(marker, positions[..j]), ordinals')
    {
      var h := Hit(marker, positions[j]);
      ghost var so := hits + HitsOf(marker, positions[..j]);
      assert positions[j] in positions;
      assert hits + HitsOf(marker, positions[..j + 1]) == so + [h];
      OneMoreHit(src, so, ordinals', h);
      var o;
      o, ordinals' := Locate(src, starts, marker, positions[j], ordinals');
      occurrences' := occurrences' + [o];
    }
    TakeAll(positions);
  }
}
