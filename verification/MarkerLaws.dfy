/**
 * What a marker scan depends on: its list as a multiset, and of that only the markers that occur
 * (src/metrics/markers.rs).
 */
module MarkerLaws {
  import opened Orders
  import opened Markers

  // ---------- One marker at a time ----------

  function HitsFor(hits: seq<Hit>, m: string): seq<Hit> {
    if hits == [] then []
    else
      var earlier, last := HitsFor(hits[..|hits| - 1], m), hits[|hits| - 1];
      if last.marker == m then earlier + [last] else earlier
  }

  function OccurrencesFor(os: seq<Occurrence>, m: string): seq<Occurrence> {
    if os == [] then []
    else
      var earlier, last := OccurrencesFor(os[..|os| - 1], m), os[|os| - 1];
      if last.marker == m then earlier + [last] else earlier
  }

  function Repeated<T>(s: seq<T>, n: nat): seq<T> {
    if n == 0 then [] else Repeated(s, n - 1) + s
  }

  lemma {:induction false} HitsForJoins(a: seq<Hit>, b: seq<Hit>, m: string)
    ensures HitsFor(a + b, m) == HitsFor(a, m) + HitsFor(b, m)
  {
    if b == [] {
      assert a + b == a;
    } else {
      assert (a + b)[..|a + b| - 1] == a + b[..|b| - 1];
      HitsForJoins(a, b[..|b| - 1], m);
    }
  }

  lemma {:induction false} HitsForOne(marker: string, positions: seq<nat>, m: string)
    ensures HitsFor(HitsOf(marker, positions), m) == if marker == m then HitsOf(marker, positions) else []
  {
    if positions != [] {
      var front := positions[..|positions| - 1];
      assert HitsOf(marker, positions)[..|positions| - 1] == HitsOf(marker, front);
      HitsForOne(marker, front, m);
      assert HitsOf(marker, positions) == HitsOf(marker, front) + [Hit(marker, positions[|positions| - 1])];
    } else {
      assert HitsOf(marker, positions) == [];
    }
  }

  lemma TimesListed(markers: seq<string>, m: string)
    requires markers != []
    ensures multiset(markers)[m]
         == multiset(markers[..|markers| - 1])[m] + if markers[|markers| - 1] == m then 1 else 0
  {
    assert markers == markers[..|markers| - 1] + [markers[|markers| - 1]];
  }

  /** Of one marker a scan finds its positions over and over, as often as it is listed. */
  lemma {:induction false} FoundAsOftenAsListed(src: Searched, markers: seq<string>, m: string)
    ensures HitsFor(Found(src, markers), m) == Repeated(HitsOf(m, Positions(src, m)), multiset(markers)[m])
  {
    hide Positions;
    if markers != [] {
      var front, last := markers[..|markers| - 1], markers[|markers| - 1];
      FoundAsOftenAsListed(src, front, m);
      TimesListed(markers, m);
      HitsForJoins(Found(src, front), HitsOf(last, Positions(src, last)), m);
      HitsForOne(last, Positions(src, last), m);
    }
  }

  lemma {:induction false} EarlierOfMarker(src: Searched, hits: seq<Hit>, key: (string, string))
    ensures Earlier(src, hits, key) == Earlier(src, HitsFor(hits, key.0), key)
  {
    hide ContextHash;
    if hits != [] {
      EarlierOfMarker(src, hits[..|hits| - 1], key);
      var front, last := HitsFor(hits[..|hits| - 1], key.0), hits[|hits| - 1];
      if last.marker == key.0 {
        assert (front + [last])[..|front|] == front;
      }
    }
  }

  lemma MarkerOf(src: Searched, h: Hit, n: nat)
    ensures OccurrenceOf(src, h, n).marker == h.marker && KeyOf(src, h).0 == h.marker
  {
    hide ContextHash, LineOf, LineStarts;
  }

  lemma NumberedOneMore(src: Searched, hits: seq<Hit>, h: Hit)
    ensures Numbered(src, hits + [h])
         == Numbered(src, hits) + [OccurrenceOf(src, h, Earlier(src, hits, KeyOf(src, h)) + 1)]
  {
    hide OccurrenceOf, KeyOf, Earlier;
    assert (hits + [h])[..|hits|] == hits;
  }

  lemma OccurrencesForOneMore(os: seq<Occurrence>, o: Occurrence, m: string)
    ensures OccurrencesFor(os + [o], m)
         == if o.marker == m then OccurrencesFor(os, m) + [o] else OccurrencesFor(os, m)
  {
    assert (os + [o])[..|os|] == os;
  }

  /** Other markers have no part in how the occurrences of one are numbered. */
  lemma {:induction false} NumberedOfMarker(src: Searched, hits: seq<Hit>, m: string)
    ensures OccurrencesFor(Numbered(src, hits), m) == Numbered(src, HitsFor(hits, m))
  {
    hide OccurrenceOf, KeyOf, Numbered, OccurrencesFor;
    if hits == [] {
      NothingNumbered(src, m);
    } else {
      var front, last := hits[..|hits| - 1], hits[|hits| - 1];
      NumberedOfMarker(src, front, m);
      assert hits == front + [last];
      NumberedOneMore(src, front, last);
      var ordinal := Earlier(src, front, KeyOf(src, last)) + 1;
      OccurrencesForOneMore(Numbered(src, front), OccurrenceOf(src, last, ordinal), m);
      MarkerOf(src, last, ordinal);
      if last.marker == m {
        EarlierOfMarker(src, front, KeyOf(src, last));
        NumberedOneMore(src, HitsFor(front, m), last);
      }
    }
  }

  lemma NothingNumbered(src: Searched, m: string)
    ensures Numbered(src, []) == [] && OccurrencesFor([], m) == []
  {
  }

  lemma {:induction false} CountOfMarker(os: seq<Occurrence>, m: string, o: Occurrence)
    ensures multiset(OccurrencesFor(os, m))[o] == if o.marker == m then multiset(os)[o] else 0
  {
    if os != [] {
      var front, last := os[..|os| - 1], os[|os| - 1];
      CountOfMarker(front, m, o);
      assert os == front + [last];
    }
  }

  ghost predicate SameFor(a: seq<Occurrence>, b: seq<Occurrence>, m: string) {
    multiset(OccurrencesFor(a, m)) == multiset(OccurrencesFor(b, m))
  }

  /** Two lists hold the same occurrences exactly when they do so marker by marker. */
  lemma SameMarkerByMarker(a: seq<Occurrence>, b: seq<Occurrence>)
    ensures multiset(a) == multiset(b) <==> forall m :: SameFor(a, b, m)
  {
    if multiset(a) == multiset(b) {
      forall m
        ensures SameFor(a, b, m)
      {
        forall o
          ensures multiset(OccurrencesFor(a, m))[o] == multiset(OccurrencesFor(b, m))[o]
        {
          CountOfMarker(a, m, o);
          CountOfMarker(b, m, o);
        }
      }
    }
    if forall m :: SameFor(a, b, m) {
      forall o
        ensures multiset(a)[o] == multiset(b)[o]
      {
        CountOfMarker(a, o.marker, o);
        CountOfMarker(b, o.marker, o);
        assert SameFor(a, b, o.marker);
      }
      assert multiset(a) == multiset(b);
    }
  }

  // ---------- The order of the result ----------

  predicate InOrder(a: Occurrence, b: Occurrence) {
    PlaceLe(a, b) && (PlaceLe(b, a) ==> a.ordinal <= b.ordinal)
  }

  lemma PlaceOrder()
    ensures TotalPreorder(PlaceLe) && forall a, b :: PlaceLe(a, b) && !PlaceLe(b, a) ==> InOrder(a, b)
    ensures forall a, b :: PlaceLe(a, b) && PlaceLe(b, a) ==>
              a.line == b.line && a.column == b.column && a.marker == b.marker
  {
    hide PathLe;
    PathOrder();
  }

  function OccurrenceAt(src: Searched, hits: seq<Hit>, i: nat): Occurrence
    requires i < |hits|
  {
    OccurrenceOf(src, hits[i], Earlier(src, hits[..i], KeyOf(src, hits[i])) + 1)
  }

  lemma {:induction false} NumberedAt(src: Searched, hits: seq<Hit>, i: nat)
    requires i < |hits|
    ensures Numbered(src, hits)[i] == OccurrenceAt(src, hits, i)
  {
    hide OccurrenceOf, KeyOf, Earlier;
    var n := |hits| - 1;
    if i < n {
      NumberedAt(src, hits[..n], i);
      assert hits[..n][..i] == hits[..i];
    }
  }

  lemma {:induction false} EarlierGrows(src: Searched, hits: seq<Hit>, key: (string, string), i: nat, j: nat)
    requires i < j <= |hits| && KeyOf(src, hits[i]) == key
    ensures Earlier(src, hits[..i], key) < Earlier(src, hits[..j], key)
  {
    hide KeyOf;
    assert hits[..j][..j - 1] == hits[..j - 1];
    if i < j - 1 {
      EarlierGrows(src, hits, key, i, j - 1);
    }
  }

  /** Where one line, column and marker come again, so does the context. */
  lemma SamePlaceSameContext(src: Searched, g: Hit, h: Hit, m: nat, n: nat)
    ensures OccurrenceOf(src, g, m).line == OccurrenceOf(src, h, n).line ==>
              OccurrenceOf(src, g, m).contextHash == OccurrenceOf(src, h, n).contextHash
  {
    hide LineStarts, LineText;
  }

  /** The occurrences of a key are numbered upwards. */
  lemma NumberedUpwards(src: Searched, hits: seq<Hit>, i: nat, j: nat)
    requires i < j < |hits|
    ensures var os := Numbered(src, hits);
            os[i].marker == os[j].marker && os[i].contextHash == os[j].contextHash ==> os[i].ordinal < os[j].ordinal
  {
    hide LineStarts, LineOf, ContextHash, Earlier;
    NumberedAt(src, hits, i);
    NumberedAt(src, hits, j);
    if KeyOf(src, hits[i]) == KeyOf(src, hits[j]) {
      EarlierGrows(src, hits, KeyOf(src, hits[i]), i, j);
    }
  }

  lemma NumberedSameContext(src: Searched, hits: seq<Hit>, i: nat, j: nat)
    requires i < |hits| && j < |hits|
    ensures Numbered(src, hits)[i].line == Numbered(src, hits)[j].line ==>
              Numbered(src, hits)[i].contextHash == Numbered(src, hits)[j].contextHash
  {
    hide OccurrenceOf;
    NumberedAt(src, hits, i);
    NumberedAt(src, hits, j);
    SamePlaceSameContext(src, hits[i], hits[j], Numbered(src, hits)[i].ordinal, Numbered(src, hits)[j].ordinal);
    SamePlaceSameContext(src, hits[i], hits[j], Earlier(src, hits[..i], KeyOf(src, hits[i])) + 1,
                         Earlier(src, hits[..j], KeyOf(src, hits[j])) + 1);
  }

  /** The stable sort leaves the occurrences at one place in the order of their numbers, so nothing is left open. */
  lemma ScanIsOrdered(src: Searched, markers: seq<string>)
    ensures Sorted(Scan(src, markers).occurrences, InOrder)
    ensures AntisymmetricOn(Scan(src, markers).occurrences, InOrder)
    ensures multiset(Scan(src, markers).occurrences) == multiset(Numbered(src, Found(src, markers)))
  {
    hide PlaceLe, Numbered;
    PlaceOrder();
    var hits := Found(src, markers);
    var os := Numbered(src, hits);
    SortPermutes(os, PlaceLe);
    forall i, j | 0 <= i < j < |os| && PlaceLe(os[i], os[j]) && PlaceLe(os[j], os[i])
      ensures InOrder(os[i], os[j])
    {
      NumberedSameContext(src, hits, i, j);
      NumberedUpwards(src, hits, i, j);
    }
    SortStable(os, PlaceLe, InOrder);
    forall x, y | x in os && y in os && InOrder(x, y) && InOrder(y, x)
      ensures x == y
    {
      var i :| 0 <= i < |os| && os[i] == x;
      var j :| 0 <= j < |os| && os[j] == y;
      NumberedSameContext(src, hits, i, j);
    }
  }

  lemma SameMultisetSameOccurrences(src: Searched, a: seq<string>, b: seq<string>)
    ensures Scan(src, a).occurrences == Scan(src, b).occurrences
            <==> multiset(Numbered(src, Found(src, a))) == multiset(Numbered(src, Found(src, b)))
  {
    hide Scan, InOrder, Numbered, Found;
    ScanIsOrdered(src, a);
    ScanIsOrdered(src, b);
    var x, y := Scan(src, a).occurrences, Scan(src, b).occurrences;
    if multiset(x) == multiset(y) {
      SortedUnique(x, y, InOrder);
    }
  }

  // ---------- What shows ----------

  /** Every marker that occurs is listed equally often. */
  ghost predicate EquallyListed(src: Searched, a: seq<string>, b: seq<string>) {
    forall m :: Positions(src, m) != [] ==> multiset(a)[m] == multiset(b)[m]
  }

  lemma {:induction false} RepeatedLength<T>(s: seq<T>, n: nat)
    ensures |Repeated(s, n)| == n * |s|
    ensures s == [] ==> Repeated(s, n) == []
  {
    if n > 0 {
      RepeatedLength(s, n - 1);
    }
  }

  lemma OccurrencesOfMarker(src: Searched, markers: seq<string>, m: string)
    ensures OccurrencesFor(Numbered(src, Found(src, markers)), m)
         == Numbered(src, Repeated(HitsOf(m, Positions(src, m)), multiset(markers)[m]))
    ensures |OccurrencesFor(Numbered(src, Found(src, markers)), m)| == multiset(markers)[m] * |Positions(src, m)|
  {
    hide Numbered, Positions;
    FoundAsOftenAsListed(src, markers, m);
    NumberedOfMarker(src, Found(src, markers), m);
    RepeatedLength(HitsOf(m, Positions(src, m)), multiset(markers)[m]);
    NumberedLength(src, Repeated(HitsOf(m, Positions(src, m)), multiset(markers)[m]));
  }

  lemma NumberedLength(src: Searched, hits: seq<Hit>)
    ensures |Numbered(src, hits)| == |hits|
  {
  }

  lemma {:induction false} TimesGrows(a: nat, b: nat, k: nat)
    requires a < b && k > 0
    ensures a * k < b * k
    decreases b
  {
    if a + 1 < b {
      TimesGrows(a, b - 1, k);
    }
    assert b * k == (b - 1) * k + k;
  }

  lemma Cancels(a: nat, b: nat, k: nat)
    requires a * k == b * k && k > 0
    ensures a == b
  {
    if a < b {
      TimesGrows(a, b, k);
    } else if b < a {
      TimesGrows(b, a, k);
    }
  }

  /**
   * The occurrences of two lists agree on a content if and only if every marker that occurs is listed equally often.
   */
  lemma OccurrencesIffEquallyListed(src: Searched, a: seq<string>, b: seq<string>)
    ensures Scan(src, a).occurrences == Scan(src, b).occurrences <==> EquallyListed(src, a, b)
  {
    hide Scan, Found, Numbered, Positions, SameFor;
    var x, y := Numbered(src, Found(src, a)), Numbered(src, Found(src, b));
    SameMultisetSameOccurrences(src, a, b);
    SameMarkerByMarker(x, y);
    forall m
      ensures SameFor(x, y, m) <==> (Positions(src, m) != [] ==> multiset(a)[m] == multiset(b)[m])
    {
      SameForIffEquallyOften(src, a, b, m);
    }
  }

  lemma SameForIffEquallyOften(src: Searched, a: seq<string>, b: seq<string>, m: string)
    ensures SameFor(Numbered(src, Found(src, a)), Numbered(src, Found(src, b)), m)
            <==> (Positions(src, m) != [] ==> multiset(a)[m] == multiset(b)[m])
  {
    hide Found, Numbered, Positions, OccurrencesFor;
    var x, y := Numbered(src, Found(src, a)), Numbered(src, Found(src, b));
    OccurrencesOfMarker(src, a, m);
    OccurrencesOfMarker(src, b, m);
    if Positions(src, m) == [] {
      assert HitsOf(m, Positions(src, m)) == [];
      RepeatedLength(HitsOf(m, Positions(src, m)), multiset(a)[m]);
      RepeatedLength(HitsOf(m, Positions(src, m)), multiset(b)[m]);
    } else if SameFor(x, y, m) {
      assert |multiset(OccurrencesFor(x, m))| == |multiset(OccurrencesFor(y, m))|;
      Cancels(multiset(a)[m], multiset(b)[m], |Positions(src, m)|);
    }
  }

  /** The counts depend only on which markers are listed: repeats and empty markers do not show in them. */
  lemma CountsIffSameMarkers(src: Searched, a: seq<string>, b: seq<string>)
    ensures Counts(src, a) == Counts(src, b) <==> forall m :: Positions(src, m) != [] ==> (m in a <==> m in b)
  {
    hide Positions;
    var x, y := Counts(src, a), Counts(src, b);
    if forall m :: Positions(src, m) != [] ==> (m in a <==> m in b) {
      assert x.Keys == y.Keys;
    }
    if x == y {
      forall m | Positions(src, m) != []
        ensures m in a <==> m in b
      {
        assert m in x <==> m in a;
        assert m in y <==> m in b;
      }
    }
  }

  /** The whole scan of two lists agrees if and only if every marker that occurs is listed equally often. */
  lemma ScanIffEquallyListed(src: Searched, a: seq<string>, b: seq<string>)
    ensures Scan(src, a) == Scan(src, b) <==> EquallyListed(src, a, b)
  {
    hide Positions, Numbered, Found, Counts;
    OccurrencesIffEquallyListed(src, a, b);
    if EquallyListed(src, a, b) {
      forall m | Positions(src, m) != []
        ensures m in a <==> m in b
      {
        assert m in multiset(a) <==> m in multiset(b);
      }
      CountsIffSameMarkers(src, a, b);
    }
  }

  /** The order of the list never shows. */
  lemma OrderNeverShows(src: Searched, a: seq<string>, b: seq<string>)
    requires multiset(a) == multiset(b)
    ensures Scan(src, a) == Scan(src, b)
  {
    hide Scan, Positions;
    ScanIffEquallyListed(src, a, b);
  }

  /** What a finding is identified by: no two occurrences of a file share it, however often a marker is listed. */
  lemma IdentitiesAreDistinct(src: Searched, markers: seq<string>, i: nat, j: nat)
    requires i < j < |Scan(src, markers).occurrences|
    ensures var x, y := Scan(src, markers).occurrences[i], Scan(src, markers).occurrences[j];
            !(x.marker == y.marker && x.contextHash == y.contextHash && x.ordinal == y.ordinal)
  {
    hide Numbered, Found, PlaceLe;
    var hits := Found(src, markers);
    var os, sorted := Numbered(src, hits), Scan(src, markers).occurrences;
    SortPermutes(os, PlaceLe);
    forall k, l | 0 <= k < l < |os|
      ensures !(os[k].marker == os[l].marker && os[k].contextHash == os[l].contextHash
                && os[k].ordinal == os[l].ordinal)
    {
      NumberedUpwards(src, hits, k, l);
    }
    DistinctByMultiset(os, sorted);
    var x, y := sorted[i], sorted[j];
    assert x in sorted && y in sorted;
    var k :| 0 <= k < |os| && os[k] == x;
    var l :| 0 <= l < |os| && os[l] == y;
  }

  // ---------- A repeated marker ----------

  /** Listing a marker twice doubles its occurrences on a text that is that marker, but not its count. */
  lemma RepeatedMarkerDoubles(marker: string, context: string -> string)
    requires marker != ""
    ensures var src := Searched(marker, [Range(0, |marker|)], context);
            && Scan(src, [marker]).counts == Scan(src, [marker, marker]).counts == map[marker := 1]
            && |Scan(src, [marker]).occurrences| == 1 && |Scan(src, [marker, marker]).occurrences| == 2
  {
    hide Scan;
    var src := Searched(marker, [Range(0, |marker|)], context);
    MarkerAlone(src, marker);
    ListedTwice(src, marker);
  }

  lemma ListedTwice(src: Searched, marker: string)
    requires |Positions(src, marker)| == 1
    ensures Scan(src, [marker]).counts == Scan(src, [marker, marker]).counts == map[marker := 1]
    ensures |Scan(src, [marker]).occurrences| == 1 && |Scan(src, [marker, marker]).occurrences| == 2
  {
    hide Positions, Counts, Numbered, Found, Sort, PlaceLe;
    assert [marker] == [] + [marker] && [marker, marker] == [marker] + [marker];
    NothingCounted(src);
    CountsOneMore(src, [], marker);
    CountsOneMore(src, [marker], marker);
    NothingListed(src);
    OneMoreListed(src, [], marker);
    OneMoreListed(src, [marker], marker);
  }

  lemma NothingListed(src: Searched)
    ensures Scan(src, []).occurrences == []
  {
  }

  lemma OneMoreListed(src: Searched, markers: seq<string>, m: string)
    ensures |Scan(src, markers + [m]).occurrences| == |Scan(src, markers).occurrences| + |Positions(src, m)|
  {
    hide Positions, Numbered, PlaceLe;
    assert (markers + [m])[..|markers|] == markers;
    SortPermutes(Numbered(src, Found(src, markers)), PlaceLe);
    SortPermutes(Numbered(src, Found(src, markers + [m])), PlaceLe);
    NumberedLength(src, Found(src, markers));
    NumberedLength(src, Found(src, markers + [m]));
  }

  lemma MarkerAlone(src: Searched, marker: string)
    requires marker != "" && src.content == marker && src.ranges == [Range(0, |marker|)]
    ensures Positions(src, marker) == [0]
  {
    var r := Range(0, |marker|);
    assert RangeText(marker, r) == marker && marker[0..0 + |marker|] == marker;
    assert MatchesFrom(marker, marker, 0) == [0] + MatchesFrom(marker, marker, |marker|) == [0];
    assert IsWord(marker, marker, 0);
    assert [0][1..] == [];
    assert WordsAmong(marker, marker, [0]) == [0];
    assert src.ranges[..0] == [];
    assert PositionsIn(src, src.ranges, marker) == PositionsIn(src, [], marker) + Shifted([0], 0);
  }
}
