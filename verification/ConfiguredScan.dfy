/**
 * What a configuration makes of a file, and scans whose configurations change over one cache directory
 * (src/scan/file_analysis.rs, src/cache.rs).
 */
module ConfiguredScan {
  import opened Orders
  import opened Markers
  import opened MarkerLaws
  import opened AnalysisProfile
  import opened AnalysisCache
  import opened CachedScan

  /**
   * What the extractors find, whatever the configuration: `format` is the rank of the include that names the format of
   * a path, if there is one, and `comments` are the ranges searched for markers.
   */
  datatype Extractors = Extractors(
    detected: Path -> bool,
    source: Path -> bool,
    format: Path -> Option<nat>,
    excluded: (set<string>, Path) -> bool,
    count: (string, Content) -> nat,
    lines: (Path, Content) -> string,
    complexity: (Path, Content) -> Option<string>,
    imports: (Path, Content) -> string,
    symbols: (Path, Content) -> Option<string>,
    comments: (Path, Content) -> seq<Range>,
    context: string -> string,
    classify: (Path, Content) -> Classification,
    testRegions: (Path, Content) -> string,
    outlines: (Path, Content) -> string,
    definitions: (Path, Content) -> string,
    lexical: (Path, Content, string) -> string,
    plans: (string, Path, Content, string) -> string,
    graph: (Path, Content, string) -> Option<string>)

  // ---------- The analysis of a configuration ----------

  /** The tokenizer of a configuration; a scan that asks for an unknown one fails before it reads any file. */
  function CounterOf(cfg: Config): Option<string> {
    if cfg.tokens then Tokenizer(cfg.encoding) else None
  }

  predicate Eligible(ex: Extractors, cfg: Config, path: Path) {
    && (cfg.healthScope.All? || ex.source(path) || (ex.format(path).Some? && ex.format(path).value in cfg.includes))
    && !ex.excluded(Elements(cfg.excludes), path)
  }

  function SearchedIn(ex: Extractors, path: Path, content: Content): Searched {
    Searched(content, ex.comments(path, content), ex.context)
  }

  function MarkerFacts(ex: Extractors, cfg: Config, path: Path, content: Content): MarkerScan {
    if !cfg.markersEnabled || !Eligible(ex, cfg, path) then MarkerScan(map[], [])
    else Scan(SearchedIn(ex, path, content), cfg.markers)
  }

  function FactsOf(ex: Extractors, cfg: Config, path: Path, content: Content): Facts {
    Facts(if CounterOf(cfg).Some? then ex.count(CounterOf(cfg).value, content) else 0,
          ex.lines(path, content),
          if cfg.complexity && Eligible(ex, cfg, path) then ex.complexity(path, content) else None,
          if cfg.imports then ex.imports(path, content) else "",
          if cfg.complexity || cfg.imports then ex.symbols(path, content) else None,
          MarkerFacts(ex, cfg, path, content))
  }

  function AnalyzerOf(ex: Extractors, cfg: Config): Analyzer {
    Analyzer(ex.detected, ex.classify, (path, content) => FactsOf(ex, cfg, path, content), ex.testRegions, ex.outlines,
             ex.definitions, ex.lexical,
             if CounterOf(cfg).Some?
             then Some((path, content, known) => ex.plans(CounterOf(cfg).value, path, content, known)) else None,
             ex.graph)
  }

  /** Measured for health: in scope, or of an included format, and not excluded. */
  ghost predicate Measured(ex: Extractors, cfg: Config, path: Path) {
    && !ex.excluded(Elements(cfg.excludes), path)
    && (cfg.healthScope == All || ex.source(path)
        || exists rank :: rank in cfg.includes && ex.format(path) == Some(rank))
  }

  /** Each fact is found exactly where the configuration asks for it. */
  ghost predicate FactsTell(ex: Extractors, cfg: Config, path: Path, content: Content, f: Facts) {
    && f.lines == ex.lines(path, content)
    && f.tokens == (if cfg.tokens && Tokenizer(cfg.encoding).Some?
                    then ex.count(Tokenizer(cfg.encoding).value, content) else 0)
    && f.complexity == (if cfg.complexity && Measured(ex, cfg, path) then ex.complexity(path, content) else None)
    && f.imports == (if cfg.imports then ex.imports(path, content) else "")
    && f.symbols == (if cfg.complexity || cfg.imports then ex.symbols(path, content) else None)
    && (if cfg.markersEnabled && Measured(ex, cfg, path)
        then f.markers == Scan(Searched(content, ex.comments(path, content), ex.context), cfg.markers)
        else f.markers.counts == map[] && f.markers.occurrences == [])
  }

  lemma MeasuredIff(ex: Extractors, cfg: Config, path: Path)
    ensures Eligible(ex, cfg, path) <==> Measured(ex, cfg, path)
  {
  }

  /** What a scan without a cache makes of a file under a configuration. */
  lemma ConfiguredTells(ex: Extractors, cfg: Config, file: SourceFile, req: Requirements, late: bool)
    ensures var outcome := Uncached(AnalyzerOf(ex, cfg), file, req, late);
            && OutcomeTells(AnalyzerOf(ex, cfg), file, late, outcome)
            && (outcome.Done? <==> !late && ex.detected(file.path))
            && (outcome.Done? ==>
                  && Tells(AnalyzerOf(ex, cfg), file.path, file.content, req, outcome.analyzed)
                  && FactsTell(ex, cfg, file.path, file.content, outcome.analyzed.report.facts)
                  && (outcome.analyzed.plans.Some? <==> req.plans && cfg.tokens && Tokenizer(cfg.encoding).Some?))
  {
    hide Scan, Measured, Eligible, Analyze, Tokenizer;
    MeasuredIff(ex, cfg, file.path);
    AnalysisTells(AnalyzerOf(ex, cfg), file.path, file.content, req);
  }

  // ---------- What a shared profile leaves open ----------

  function ListedMarkers(cfg: Config): seq<string> {
    if cfg.markersEnabled then cfg.markers else []
  }

  lemma MarkerFactsAre(ex: Extractors, cfg: Config, path: Path, content: Content)
    ensures MarkerFacts(ex, cfg, path, content)
         == if Eligible(ex, cfg, path) then Scan(SearchedIn(ex, path, content), ListedMarkers(cfg))
            else MarkerScan(map[], [])
  {
    hide Eligible, Positions;
    assert Found(SearchedIn(ex, path, content), []) == [];
  }

  lemma CounterFromProfile(a: Config, b: Config)
    requires SameSettings(a, b)
    ensures CounterOf(a) == CounterOf(b)
  {
    hide EffectiveMarkers;
    assert "o200k_base" != "cl100k_base" by {
      assert "o200k_base"[0] != "cl100k_base"[0];
    }
  }

  /** The profile fixes which files count as source, as far as anything is measured only there. */
  lemma EligibleFromProfile(ex: Extractors, a: Config, b: Config, path: Path)
    requires SameSettings(a, b) && HealthMatters(a)
    ensures Eligible(ex, a, path) == Eligible(ex, b, path)
  {
    hide EffectiveMarkers, CanonicalTokenEncoding;
    if a.healthScope.Source? && ex.format(path).Some? {
      assert ex.format(path).value in a.includes <==> ex.format(path).value in Elements(a.includes);
      assert ex.format(path).value in b.includes <==> ex.format(path).value in Elements(b.includes);
    }
  }

  lemma NothingListedWithoutHealth(src: Searched, cfg: Config)
    requires !HealthMatters(cfg)
    ensures Scan(src, ListedMarkers(cfg)) == MarkerScan(map[], [])
  {
    hide Scan;
    var markers := ListedMarkers(cfg);
    forall m | Positions(src, m) != []
      ensures multiset(markers)[m] == multiset([])[m]
    {
      assert m != "" && (m in markers ==> m in EffectiveMarkers(cfg));
    }
    ScanIffEquallyListed(src, markers, []);
    NothingScanned(src);
  }

  lemma NothingScanned(src: Searched)
    ensures Scan(src, []) == MarkerScan(map[], [])
  {
  }

  /**
   * Of two configurations with one profile the facts of a file agree if and only if the file is not measured for health
   * or every marker that occurs in it is listed equally often.
   */
  lemma FactsIffEquallyListed(ex: Extractors, a: Config, b: Config, path: Path, content: Content)
    requires FromConfig(a) == FromConfig(b)
    ensures FactsOf(ex, a, path, content) == FactsOf(ex, b, path, content)
            <==> (Eligible(ex, a, path) ==>
                    EquallyListed(SearchedIn(ex, path, content), ListedMarkers(a), ListedMarkers(b)))
  {
    hide FromConfig, SameSettings, HealthMatters, Eligible, CounterOf, Scan, EquallyListed, MarkerFacts;
    var src := SearchedIn(ex, path, content);
    ProfileIffSameSettings(a, b);
    CounterFromProfile(a, b);
    MarkerFactsAre(ex, a, path, content);
    MarkerFactsAre(ex, b, path, content);
    ScanIffEquallyListed(src, ListedMarkers(a), ListedMarkers(b));
    SettingsShared(a, b);
    if HealthMatters(a) {
      EligibleFromProfile(ex, a, b, path);
    } else {
      NothingListedWithoutHealth(src, a);
      NothingListedWithoutHealth(src, b);
      NothingScanned(src);
    }
  }

  lemma SettingsShared(a: Config, b: Config)
    requires SameSettings(a, b)
    ensures a.complexity == b.complexity && a.imports == b.imports && a.tokens == b.tokens
    ensures HealthMatters(a) <==> HealthMatters(b)
    ensures !HealthMatters(a) ==> !a.complexity
  {
    hide EffectiveMarkers, CanonicalTokenEncoding;
  }

  /** Every marker but the empty one is listed equally often. */
  ghost predicate SameRepeats(a: Config, b: Config) {
    forall m :: m != "" ==> multiset(ListedMarkers(a))[m] == multiset(ListedMarkers(b))[m]
  }

  lemma AlikeButFacts(ex: Extractors, a: Config, b: Config)
    requires FromConfig(a) == FromConfig(b)
    ensures AgreeButFacts(AnalyzerOf(ex, a), AnalyzerOf(ex, b))
  {
    hide FromConfig, SameSettings, CounterOf, FactsOf;
    ProfileIffSameSettings(a, b);
    CounterFromProfile(a, b);
  }

  /** With one profile and equal repeats two configurations find the same in every file. */
  lemma SameRepeatsAgree(ex: Extractors, a: Config, b: Config)
    requires FromConfig(a) == FromConfig(b) && SameRepeats(a, b)
    ensures Agree(AnalyzerOf(ex, a), AnalyzerOf(ex, b))
  {
    hide FromConfig, AgreeButFacts, FactsOf, Eligible;
    AlikeButFacts(ex, a, b);
    forall path, content
      ensures AnalyzerOf(ex, a).facts(path, content) == AnalyzerOf(ex, b).facts(path, content)
    {
      FactsIffEquallyListed(ex, a, b, path, content);
    }
  }

  /** A path that is measured and has no syntax tree: the whole text is searched. */
  ghost predicate SearchedWhole(ex: Extractors, cfg: Config, path: Path) {
    Eligible(ex, cfg, path) && forall content: Content :: ex.comments(path, content) == [Range(0, |content|)]
  }

  /** The condition is exact: where any file is measured without a syntax tree, unequal repeats show in some content. */
  lemma AgreeIffSameRepeats(ex: Extractors, a: Config, b: Config, path: Path)
    requires FromConfig(a) == FromConfig(b) && SearchedWhole(ex, a, path)
    ensures Agree(AnalyzerOf(ex, a), AnalyzerOf(ex, b)) <==> SameRepeats(a, b)
  {
    hide FromConfig, AgreeButFacts, FactsOf, Eligible, Positions;
    if SameRepeats(a, b) {
      SameRepeatsAgree(ex, a, b);
    }
    if Agree(AnalyzerOf(ex, a), AnalyzerOf(ex, b)) {
      forall m | m != ""
        ensures multiset(ListedMarkers(a))[m] == multiset(ListedMarkers(b))[m]
      {
        assert AnalyzerOf(ex, a).facts(path, m) == AnalyzerOf(ex, b).facts(path, m);
        FactsIffEquallyListed(ex, a, b, path, m);
        MarkerAlone(SearchedIn(ex, path, m), m);
      }
    }
  }

  /** Lists that name no marker twice have equal repeats as soon as they share a profile. */
  lemma NoRepeatsNoDifference(a: Config, b: Config)
    requires FromConfig(a) == FromConfig(b)
    requires forall m :: m != "" ==> multiset(ListedMarkers(a))[m] <= 1 && multiset(ListedMarkers(b))[m] <= 1
    ensures SameRepeats(a, b)
  {
    hide FromConfig;
    MarkersAgreeByProfile(a, b);
    forall m | m != ""
      ensures multiset(ListedMarkers(a))[m] == multiset(ListedMarkers(b))[m]
    {
      assert m in EffectiveMarkers(a) <==> m in multiset(ListedMarkers(a));
      assert m in EffectiveMarkers(b) <==> m in multiset(ListedMarkers(b));
    }
  }

  lemma MarkersAgreeByProfile(a: Config, b: Config)
    requires FromConfig(a) == FromConfig(b)
    ensures EffectiveMarkers(a) == EffectiveMarkers(b)
  {
    hide FromConfig, EffectiveMarkers;
    ProfileIffSameSettings(a, b);
  }

  // ---------- Scans with changing configurations ----------

  /** One scan with its configuration; cache location, files and requirements as in a job. */
  datatype ConfiguredJob = ConfiguredJob(cfg: Config, path: Option<string>, enabled: bool, files: seq<SourceFile>,
                                         req: Requirements, late: nat -> bool, pruneUnseen: bool, writable: bool)

  type Keys = Profile -> string

  function JobOf(ex: Extractors, key: Keys, job: ConfiguredJob): Job {
    Job(job.path, job.enabled, key(FromConfig(job.cfg)), AnalyzerOf(ex, job.cfg), job.files, job.req, job.late,
        job.pruneUnseen, job.writable)
  }

  /** What a key stands for: the analysis of the first configuration that has it. */
  function Standing(ex: Extractors, key: Keys, jobs: seq<ConfiguredJob>, otherwise: Config, k: string): Analyzer {
    if jobs == [] then AnalyzerOf(ex, otherwise)
    else if key(FromConfig(jobs[0].cfg)) == k then AnalyzerOf(ex, jobs[0].cfg)
    else Standing(ex, key, jobs[1..], otherwise, k)
  }

  /** Different profiles have different keys. */
  ghost predicate Injective(key: Keys) {
    forall x, y :: key(x) == key(y) ==> x == y
  }

  /** Configurations of one profile list every marker equally often. */
  ghost predicate EqualRepeats(jobs: seq<ConfiguredJob>) {
    forall i, j :: 0 <= i < |jobs| && 0 <= j < |jobs| && FromConfig(jobs[i].cfg) == FromConfig(jobs[j].cfg) ==>
      SameRepeats(jobs[i].cfg, jobs[j].cfg)
  }

  lemma {:induction false} StandingIsSome(ex: Extractors, key: Keys, jobs: seq<ConfiguredJob>, otherwise: Config,
                                          j: nat)
    returns (i: nat)
    requires Injective(key) && j < |jobs|
    ensures i < |jobs| && FromConfig(jobs[i].cfg) == FromConfig(jobs[j].cfg)
    ensures Standing(ex, key, jobs, otherwise, key(FromConfig(jobs[j].cfg))) == AnalyzerOf(ex, jobs[i].cfg)
  {
    hide FromConfig, AnalyzerOf;
    if key(FromConfig(jobs[0].cfg)) == key(FromConfig(jobs[j].cfg)) {
      i := 0;
    } else {
      var later := StandingIsSome(ex, key, jobs[1..], otherwise, j - 1);
      i := later + 1;
    }
  }

  lemma StandsForEach(ex: Extractors, key: Keys, jobs: seq<ConfiguredJob>, otherwise: Config, j: nat)
    requires Injective(key) && EqualRepeats(jobs) && j < |jobs|
    ensures Agree(Standing(ex, key, jobs, otherwise, key(FromConfig(jobs[j].cfg))), AnalyzerOf(ex, jobs[j].cfg))
  {
    hide FromConfig, AnalyzerOf, Agree, SameRepeats;
    var i := StandingIsSome(ex, key, jobs, otherwise, j);
    assert SameRepeats(jobs[i].cfg, jobs[j].cfg);
    SameRepeatsAgree(ex, jobs[i].cfg, jobs[j].cfg);
  }

  /**
   * Over a cache directory that starts empty, scans whose configurations change as they like report what they would
   * report without a cache, as long as configurations of one profile list every marker equally often.
   */
  method ScanConfigured(w: World, ghost contents: set<Content>, ex: Extractors, key: Keys, disk: Disk,
                        jobs: seq<ConfiguredJob>)
    returns (results: seq<seq<Outcome>>)
    requires NoCollisions(w, contents) && disk.files == map[] && Injective(key) && EqualRepeats(jobs)
    requires forall j :: 0 <= j < |jobs| ==> ContentsIn(jobs[j].files, contents)
    modifies disk
    ensures |results| == |jobs|
    ensures forall j :: 0 <= j < |jobs| ==> AgreesWithUncached(JobOf(ex, key, jobs[j]), results[j])
  {
    hide FromConfig, AnalyzerOf, Agree, SameRepeats, ContentsIn, NoCollisions, AgreesWithUncached, EntriesSound;
    results := [];
    if jobs == [] {
      return;
    }
    ghost var otherwise := jobs[0].cfg;
    ghost var stands := k => Standing(ex, key, jobs, otherwise, k);
    var plain: seq<Job> := [];
    for k := 0 to |jobs|
      invariant |plain| == k && forall j :: 0 <= j < k ==> plain[j] == JobOf(ex, key, jobs[j])
    {
      plain := plain + [JobOf(ex, key, jobs[k])];
    }
    forall j | 0 <= j < |plain|
      ensures ContentsIn(plain[j].files, contents) && Agree(stands(plain[j].key), plain[j].analyzer)
    {
      StandsForEach(ex, key, jobs, otherwise, j);
    }
    results := RunScans(w, contents, stands, disk, plain);
  }

  /**
   * A scan under one configuration and the same files again under another of the same profile: from what the first one
   * saved, a file with a detected language is answered as without a cache if and only if it is not measured for health
   * or every marker that occurs in it is listed equally often.
   */
  method ScanUnderOther(w: World, ghost contents: set<Content>, ex: Extractors, key: Keys, disk: Disk,
                        job: ConfiguredJob, other: Config, req: Requirements)
    returns (first: seq<Outcome>, second: seq<Outcome>, ghost seen: map<Path, Entry>)
    requires NoCollisions(w, contents) && ContentsIn(job.files, contents) && disk.files == map[]
    requires FromConfig(job.cfg) == FromConfig(other) && job.enabled && DistinctPaths(job.files)
    modifies disk
    ensures AgreesWithUncached(JobOf(ex, key, job), first) && |second| == |job.files|
    ensures Saves(w, JobOf(ex, key, job), map[], seen) ==>
              forall i :: 0 <= i < |job.files| && !job.late(i) && ex.detected(job.files[i].path) ==>
                (second[i] == Uncached(AnalyzerOf(ex, other), job.files[i], req, false)
                 <==> MarkersAgreeIn(ex, job.cfg, other, job.files[i]))
  {
    hide FromConfig, FactsOf, AgreeButFacts, ContentsIn, NoCollisions, AgreesWithUncached, EntriesSound, Uncached;
    hide Saves, MarkersAgreeIn, DistinctPaths;
    var one := JobOf(ex, key, job);
    var again := JobOf(ex, key, job.(cfg := other, req := req));
    ghost var stands := (k: string) => one.analyzer;
    AlikeButFacts(ex, job.cfg, other);
    AgreesWithItself(one.analyzer);
    var misses;
    first, second, misses, seen := ScanTwice(w, contents, stands, disk, one, again);
    forall i | 0 <= i < |job.files|
      ensures SameFacts(one.analyzer, again.analyzer, job.files[i])
              <==> MarkersAgreeIn(ex, job.cfg, other, job.files[i])
    {
      SameFactsIffMarkersAgree(ex, job.cfg, other, job.files[i]);
    }
  }

  ghost predicate MarkersAgreeIn(ex: Extractors, a: Config, b: Config, file: SourceFile) {
    Eligible(ex, a, file.path) ==>
      EquallyListed(SearchedIn(ex, file.path, file.content), ListedMarkers(a), ListedMarkers(b))
  }

  lemma SameFactsIffMarkersAgree(ex: Extractors, a: Config, b: Config, file: SourceFile)
    requires FromConfig(a) == FromConfig(b)
    ensures SameFacts(AnalyzerOf(ex, a), AnalyzerOf(ex, b), file) <==> MarkersAgreeIn(ex, a, b, file)
  {
    hide FromConfig, FactsOf, Eligible, EquallyListed;
    FactsIffEquallyListed(ex, a, b, file.path, file.content);
  }

  lemma AgreesWithItself(x: Analyzer)
    ensures Agree(x, x)
  {
  }

  /**
   * Listing a marker twice keeps the profile, and so the cached results; on a measured text that is the marker alone a
   * scan without a cache finds two occurrences where the first list finds one. The counts are the same.
   */
  lemma RepeatedMarkerIsNotInTheProfile(ex: Extractors, cfg: Config, path: Path, marker: string)
    requires marker != "" && cfg.markersEnabled && cfg.markers == [marker] && SearchedWhole(ex, cfg, path)
    ensures var twice := cfg.(markers := [marker, marker]);
            && FromConfig(cfg) == FromConfig(twice) && !SameRepeats(cfg, twice)
            && MarkerFacts(ex, cfg, path, marker).counts == MarkerFacts(ex, twice, path, marker).counts
            && |MarkerFacts(ex, cfg, path, marker).occurrences| == 1
            && |MarkerFacts(ex, twice, path, marker).occurrences| == 2
  {
    hide FromConfig, Scan, CanonicalTokenEncoding;
    var twice := cfg.(markers := [marker, marker]);
    assert EffectiveMarkers(cfg) == {marker} == EffectiveMarkers(twice);
    ProfileIffSameSettings(cfg, twice);
    RepeatedMarkerDoubles(marker, ex.context);
    assert multiset(ListedMarkers(cfg))[marker] == 1 && multiset(ListedMarkers(twice))[marker] == 2;
  }
}
