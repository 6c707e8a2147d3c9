/** The part of the configuration that keys cached analyses, in canonical form (src/cache.rs). */
module AnalysisProfile {
  import opened Orders

  datatype HealthScope = Source | All

  /** `includes` holds the declaration ranks of the explicitly included formats. */
  datatype Config = Config(tokens: bool, complexity: bool, imports: bool, markersEnabled: bool, encoding: string,
                           markers: seq<string>, healthScope: HealthScope, includes: seq<nat>, excludes: seq<string>)

  datatype Profile = Profile(tokenEncoding: Option<string>, complexity: bool, imports: bool, markers: seq<string>,
                             healthScope: Option<HealthScope>, healthIncludes: seq<nat>, healthExcludes: seq<string>)

  // ---------- Sorted lists without repeats ----------

  predicate AtMost(a: nat, b: nat) {
    a <= b
  }

  /** Removes consecutive repeats. */
  function Dedup<T(==)>(s: seq<T>): seq<T> {
    if |s| <= 1 then s
    else if s[0] == s[1] then Dedup(s[1..])
    else [s[0]] + Dedup(s[1..])
  }

  function Canonical<T(==)>(s: seq<T>, le: (T, T) -> bool): seq<T> {
    Dedup(Sort(s, le))
  }

  lemma {:induction false} DedupKeepsElements<T>(s: seq<T>)
    ensures forall x :: x in Dedup(s) <==> x in s
    ensures s != [] ==> Dedup(s) != [] && Dedup(s)[0] == s[0]
  {
    if |s| > 1 {
      DedupKeepsElements(s[1..]);
      assert s == [s[0]] + s[1..];
    }
  }

  lemma {:induction false} DedupSortedDistinct<T(!new)>(s: seq<T>, le: (T, T) -> bool)
    requires Sorted(s, le) && AntisymmetricOn(s, le)
    ensures Sorted(Dedup(s), le) && Distinct(Dedup(s))
  {
    if |s| > 1 {
      var rest := s[1..];
      assert forall x :: x in rest ==> x in s;
      DedupSortedDistinct(rest, le);
      DedupKeepsElements(rest);
      var d := Dedup(rest);
      if s[0] != s[1] {
        forall k | 0 <= k < |d| ensures le(s[0], d[k]) && s[0] != d[k] {
          assert d[k] in rest;
          var j :| 0 <= j < |rest| && rest[j] == d[k];
          assert le(s[0], s[j + 1]) && le(s[0], s[1]) && (j > 0 ==> le(s[1], s[j + 1]));
        }
        assert Dedup(s) == [s[0]] + d;
      }
    }
  }

  /** Two lists have the same canonical form exactly when they have the same elements. */
  lemma CanonicalIffSameElements<T(!new)>(a: seq<T>, b: seq<T>, le: (T, T) -> bool)
    requires TotalPreorder(le) && forall x, y :: le(x, y) && le(y, x) ==> x == y
    ensures Canonical(a, le) == Canonical(b, le) <==> Elements(a) == Elements(b)
  {
    SortedListing(a, le);
    SortedListing(b, le);
    var x, y := Canonical(a, le), Canonical(b, le);
    if Elements(a) == Elements(b) {
      assert forall e :: e in x <==> e in Elements(a);
      assert forall e :: e in y <==> e in Elements(a);
      EnumerationMultiset(x, Elements(a));
      EnumerationMultiset(y, Elements(a));
      SortedUnique(x, y, le);
    }
    if x == y {
      assert forall e :: e in Elements(a) <==> e in Elements(b);
    }
  }

  lemma SortedListing<T(!new)>(s: seq<T>, le: (T, T) -> bool)
    requires TotalPreorder(le) && forall x, y :: le(x, y) && le(y, x) ==> x == y
    ensures Sorted(Canonical(s, le), le) && Distinct(Canonical(s, le))
    ensures forall x :: x in Canonical(s, le) <==> x in s
  {
    SortSorted(s, le);
    SortPermutes(s, le);
    DedupSortedDistinct(Sort(s, le), le);
    DedupKeepsElements(Sort(s, le));
  }

  // ---------- The profile of a configuration ----------

  function LowerChar(c: char): char {
    if 'A' <= c <= 'Z' then (c as int + 32) as char else c
  }

  function Lower(s: string): (r: string) {
    seq(|s|, i requires 0 <= i < |s| => LowerChar(s[i]))
  }

  function CanonicalTokenEncoding(encoding: string): string {
    var lower := Lower(encoding);
    if lower == "o200k_base" || lower == "o200k" then "o200k_base"
    else if lower == "cl100k_base" || lower == "cl100k" then "cl100k_base"
    else lower
  }

  /** Which tokenizer a counter for the encoding uses, if the encoding is known (src/metrics/tokens.rs). */
  function Tokenizer(encoding: string): Option<string> {
    var lower := Lower(encoding);
    if lower == "o200k_base" || lower == "o200k" then Some("o200k_base")
    else if lower == "cl100k_base" || lower == "cl100k" then Some("cl100k_base")
    else None
  }

  function NonEmpty(markers: seq<string>): seq<string> {
    if markers == [] then []
    else if markers[0] == "" then NonEmpty(markers[1..])
    else [markers[0]] + NonEmpty(markers[1..])
  }

  lemma {:induction false} NonEmptyElements(markers: seq<string>)
    ensures Elements(NonEmpty(markers)) == Elements(markers) - {""}
  {
    if markers != [] {
      NonEmptyElements(markers[1..]);
      assert markers == [markers[0]] + markers[1..];
      assert Elements(markers) == {markers[0]} + Elements(markers[1..]);
      if markers[0] != "" {
        assert Elements(NonEmpty(markers)) == {markers[0]} + Elements(NonEmpty(markers[1..]));
      }
    }
  }

  function CanonicalMarkers(markers: seq<string>): seq<string> {
    Canonical(NonEmpty(markers), PathLe)
  }

  function FromConfig(cfg: Config): Profile {
    var markers := if cfg.markersEnabled then CanonicalMarkers(cfg.markers) else [];
    var health := cfg.complexity || markers != [];
    Profile(if cfg.tokens then Some(CanonicalTokenEncoding(cfg.encoding)) else None,
            cfg.complexity, cfg.imports, markers,
            if health then Some(cfg.healthScope) else None,
            Canonical(if health && cfg.healthScope.Source? then cfg.includes else [], AtMost),
            Canonical(if health then cfg.excludes else [], PathLe))
  }

  // ---------- What equal profiles mean ----------

  /** The markers a scan looks for. Empty ones find nothing; how often the others are listed the profile drops. */
  function EffectiveMarkers(cfg: Config): set<string> {
    if cfg.markersEnabled then Elements(cfg.markers) - {""} else {}
  }

  predicate HealthMatters(cfg: Config) {
    cfg.complexity || EffectiveMarkers(cfg) != {}
  }

  /** The settings a profile tells apart, each only where it has an effect. */
  predicate SameSettings(a: Config, b: Config) {
    && a.tokens == b.tokens && a.complexity == b.complexity && a.imports == b.imports
    && (a.tokens ==> CanonicalTokenEncoding(a.encoding) == CanonicalTokenEncoding(b.encoding))
    && EffectiveMarkers(a) == EffectiveMarkers(b)
    && (HealthMatters(a) ==> a.healthScope == b.healthScope && Elements(a.excludes) == Elements(b.excludes))
    && (HealthMatters(a) && a.healthScope.Source? ==> Elements(a.includes) == Elements(b.includes))
  }

  lemma AtMostOrder()
    ensures TotalPreorder(AtMost) && forall x, y :: AtMost(x, y) && AtMost(y, x) ==> x == y
  {
  }

  lemma MarkersInProfile(cfg: Config)
    ensures Elements(FromConfig(cfg).markers) == EffectiveMarkers(cfg)
    ensures FromConfig(cfg).healthScope.Some? <==> HealthMatters(cfg)
  {
    PathOrder();
    NonEmptyElements(cfg.markers);
    SortedListing(NonEmpty(cfg.markers), PathLe);
    var markers := FromConfig(cfg).markers;
    assert Elements(markers) == EffectiveMarkers(cfg);
    assert markers != [] ==> markers[0] in Elements(markers);
  }

  lemma MarkersAgree(a: Config, b: Config)
    ensures FromConfig(a).markers == FromConfig(b).markers <==> EffectiveMarkers(a) == EffectiveMarkers(b)
  {
    PathOrder();
    MarkersInProfile(a);
    MarkersInProfile(b);
    NonEmptyElements(a.markers);
    NonEmptyElements(b.markers);
    CanonicalIffSameElements(NonEmpty(a.markers), NonEmpty(b.markers), PathLe);
    assert FromConfig(a).markers != [] ==> FromConfig(a).markers[0] in EffectiveMarkers(a);
    assert FromConfig(b).markers != [] ==> FromConfig(b).markers[0] in EffectiveMarkers(b);
  }

  /**
   * Two configurations share a profile, and so cached results, exactly when these settings are the same. How often a
   * marker is listed is not among them, although it can change a result.
   */
  lemma ProfileIffSameSettings(a: Config, b: Config)
    ensures FromConfig(a) == FromConfig(b) <==> SameSettings(a, b)
  {
    hide Canonical, CanonicalMarkers, CanonicalTokenEncoding, EffectiveMarkers, Elements;
    PathOrder();
    AtMostOrder();
    MarkersInProfile(a);
    MarkersInProfile(b);
    MarkersAgree(a, b);
    CanonicalIffSameElements(a.excludes, b.excludes, PathLe);
    CanonicalIffSameElements(a.includes, b.includes, AtMost);
  }

  /** The text spells the name, in capitals or not. */
  ghost predicate Spells(text: string, name: string) {
    && |text| == |name|
    && forall i :: 0 <= i < |text| ==>
         text[i] == name[i] || ('A' <= text[i] <= 'Z' && text[i] as int + 32 == name[i] as int)
  }

  predicate Lowered(name: string) {
    forall i :: 0 <= i < |name| ==> !('A' <= name[i] <= 'Z')
  }

  lemma LowerSpells(text: string, name: string)
    requires Lowered(name)
    ensures Lower(text) == name <==> Spells(text, name)
    ensures Lowered(Lower(text)) && Spells(text, Lower(text))
  {
    if Lower(text) == name {
      assert |text| == |name| && forall i :: 0 <= i < |text| ==> Lower(text)[i] == name[i];
    }
    if Spells(text, name) {
      forall i | 0 <= i < |text|
        ensures Lower(text)[i] == name[i]
      {
        assert !('A' <= name[i] <= 'Z');
      }
      assert Lower(text) == name;
    }
  }

  /** A tokenizer is known by two names, however they are capitalized; any other encoding keeps its own name. */
  lemma TokenizerByName(encoding: string)
    ensures Tokenizer(encoding) == Some("o200k_base") <==> Spells(encoding, "o200k_base") || Spells(encoding, "o200k")
    ensures Tokenizer(encoding) == Some("cl100k_base")
            <==> Spells(encoding, "cl100k_base") || Spells(encoding, "cl100k")
    ensures Tokenizer(encoding) in [None, Some("o200k_base"), Some("cl100k_base")]
    ensures Tokenizer(encoding).Some? ==> CanonicalTokenEncoding(encoding) == Tokenizer(encoding).value
    ensures Tokenizer(encoding).None? ==>
              Lowered(CanonicalTokenEncoding(encoding)) && Spells(encoding, CanonicalTokenEncoding(encoding))
  {
    hide Spells;
    assert "o200k_base"[0] != "cl100k_base"[0] && |"o200k"| == 5 && |"cl100k"| == 6;
    LowerSpells(encoding, "o200k_base");
    LowerSpells(encoding, "o200k");
    LowerSpells(encoding, "cl100k_base");
    LowerSpells(encoding, "cl100k");
  }

  /** For encodings a counter can be built for, the same profile entry means the same tokenizer. */
  lemma SameEncodingSameTokenizer(a: string, b: string)
    requires Tokenizer(a).Some? && Tokenizer(b).Some?
    ensures CanonicalTokenEncoding(a) == CanonicalTokenEncoding(b) <==> Tokenizer(a) == Tokenizer(b)
  {
    assert "o200k_base"[0] != "cl100k_base"[0];
  }
}
