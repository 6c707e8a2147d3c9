/** The incremental analysis cache and the scans that use it (src/cache.rs, src/scan/file_analysis.rs). */
module AnalysisCache {
  import opened Orders
  import Markers

  const MAX_CACHE_FILE_BYTES := 256 * 1024 * 1024

  type Content = string

  // ---------- Skip hints ----------

  /** What classification makes of a file (src/metrics/classify.rs). */
  datatype Classification = Minified | Bundled | Generated | Vendored | HandWritten

  function SkipHint(c: Classification): Option<string> {
    match c
    case Minified => Some("minified")
    case Bundled => Some("bundled")
    case Generated => Some("generated")
    case Vendored => Some("vendored")
    case HandWritten => None
  }

  predicate IsDuplicationArtifact(c: Classification) {
    c.Minified? || c.Bundled?
  }

  predicate HintIsDuplicationArtifact(hint: Option<string>) {
    hint == Some("minified") || hint == Some("bundled")
  }

  /** A cached hint tells what classifying the content again would tell. */
  lemma HintTellsTheArtifact(c: Classification)
    ensures HintIsDuplicationArtifact(SkipHint(c)) <==> IsDuplicationArtifact(c)
  {
    assert "generated"[0] != "minified"[0] && "vendored"[0] != "minified"[0];
    assert "generated"[0] != "bundled"[0] && "vendored"[0] != "bundled"[0];
  }

  // ---------- Entries and analyses ----------

  /** The measured facts of a file, and the hint its classification left. */
  datatype Facts = Facts(tokens: nat, lines: string, complexity: Option<string>, imports: string,
                         symbols: Option<string>, markers: Markers.MarkerScan)

  datatype Report = Report(facts: Facts, skipHint: Option<string>)

  /** One cached file: what every scan reports, and the facts that only some scans ask for. */
  datatype Entry = Entry(hash: nat, report: Report, testRegions: string, outlines: Option<string>,
                         graph: Option<string>, definitions: Option<string>, lexical: Option<string>,
                         plans: Option<string>)

  datatype CacheData = CacheData(version: string, entries: map<Path, Entry>)

  /** A file on disk: its size, and what its bytes parse to. */
  datatype Stored = Stored(bytes: nat, data: Option<CacheData>)

  /** The analysis one profile key stands for; token plans need a counter, which the profile may not have. */
  datatype Analyzer = Analyzer(
    detected: Path -> bool,
    classify: (Path, Content) -> Classification,
    facts: (Path, Content) -> Facts,
    testRegions: (Path, Content) -> string,
    outlines: (Path, Content) -> string,
    definitions: (Path, Content) -> string,
    lexical: (Path, Content, string) -> string,
    plans: Option<(Path, Content, string) -> string>,
    graph: (Path, Content, string) -> Option<string>)

  datatype World = World(hash: Content -> nat, size: CacheData -> nat)

  datatype Requirements = Requirements(outlines: bool, lexical: bool, plans: bool, graph: bool)

  predicate NeedsDefinitions(req: Requirements) {
    req.outlines || req.lexical || req.plans || req.graph
  }

  const NO_DEFINITIONS := ""

  datatype Analyzed = Analyzed(report: Report, duplicationArtifact: bool, testRegions: string,
                               outlines: Option<string>, definitions: Option<string>,
                               lexical: Option<string>, plans: Option<string>, graph: Option<string>)

  function ReportOf(an: Analyzer, path: Path, content: Content): Report {
    Report(an.facts(path, content), SkipHint(an.classify(path, content)))
  }

  /** What a scan without a cache finds in one file. */
  function Analyze(an: Analyzer, path: Path, content: Content, req: Requirements): Option<Analyzed> {
    if !an.detected(path) then None
    else
      var needs := NeedsDefinitions(req);
      var known := if needs then an.definitions(path, content) else NO_DEFINITIONS;
      Some(Analyzed(
             ReportOf(an, path, content),
             IsDuplicationArtifact(an.classify(path, content)),
             an.testRegions(path, content),
             if needs then Some(an.outlines(path, content)) else None,
             if needs then Some(known) else None,
             if req.lexical then Some(an.lexical(path, content, known)) else None,
             if req.plans && an.plans.Some? then Some(an.plans.value(path, content, known)) else None,
             if req.graph then an.graph(path, content, known) else None))
  }

  /** What the words of a hint say, and which files are left out of duplication. */
  ghost predicate HintTells(c: Classification, hint: Option<string>, duplicationArtifact: bool) {
    && (hint == Some("minified") <==> c.Minified?) && (hint == Some("bundled") <==> c.Bundled?)
    && (hint == Some("generated") <==> c.Generated?) && (hint == Some("vendored") <==> c.Vendored?)
    && (hint == None <==> c.HandWritten?) && (duplicationArtifact <==> c.Minified? || c.Bundled?)
  }

  lemma HintsDiffer(c: Classification)
    ensures HintTells(c, SkipHint(c), IsDuplicationArtifact(c))
  {
    assert "minified"[0] == 'm' && "bundled"[0] == 'b' && "generated"[0] == 'g' && "vendored"[0] == 'v';
  }

  /** Outlines and definitions come with whatever needs them, each other fact exactly where it is asked for. */
  ghost predicate Tells(an: Analyzer, path: Path, content: Content, req: Requirements, a: Analyzed) {
    var known := if req.outlines || req.lexical || req.plans || req.graph then Some(an.definitions(path, content))
                 else None;
    && a.report.facts == an.facts(path, content) && a.testRegions == an.testRegions(path, content)
    && HintTells(an.classify(path, content), a.report.skipHint, a.duplicationArtifact)
    && a.definitions == known && (a.outlines.Some? <==> known.Some?)
    && (a.outlines.Some? ==> a.outlines.value == an.outlines(path, content))
    && (a.lexical.Some? <==> req.lexical) && (a.plans.Some? <==> req.plans && an.plans.Some?)
    && (req.lexical ==> a.lexical.value == an.lexical(path, content, known.value))
    && (req.plans && an.plans.Some? ==> a.plans.value == an.plans.value(path, content, known.value))
    && (req.graph ==> a.graph == an.graph(path, content, known.value)) && (!req.graph ==> a.graph.None?)
  }

  /** Only files with a detected language are analyzed, and the analysis tells what was asked. */
  lemma AnalysisTells(an: Analyzer, path: Path, content: Content, req: Requirements)
    ensures Analyze(an, path, content, req).Some? <==> an.detected(path)
    ensures an.detected(path) ==> Tells(an, path, content, req, Analyze(an, path, content, req).value)
  {
    hide HintTells, SkipHint, IsDuplicationArtifact;
    HintsDiffer(an.classify(path, content));
  }

  // ---------- Sound entries ----------

  /** Every fact the entry holds is the one the analysis of the content would find. */
  predicate Matches(an: Analyzer, path: Path, content: Content, e: Entry) {
    && an.detected(path)
    && e.report == ReportOf(an, path, content)
    && e.testRegions == an.testRegions(path, content)
    && (e.outlines.Some? ==> e.outlines.value == an.outlines(path, content))
    && (e.definitions.Some? ==> e.definitions.value == an.definitions(path, content))
    && (e.lexical.Some? ==> e.lexical.value == an.lexical(path, content, an.definitions(path, content)))
    && (e.plans.Some? ==>
          an.plans.Some? && e.plans.value == an.plans.value(path, content, an.definitions(path, content)))
    && (e.graph.Some? ==> e.graph == an.graph(path, content, an.definitions(path, content)))
  }

  /** The contents that ever occur do not collide. */
  ghost predicate NoCollisions(w: World, contents: set<Content>) {
    forall c, d :: c in contents && d in contents && w.hash(c) == w.hash(d) ==> c == d
  }

  ghost predicate EntrySound(w: World, contents: set<Content>, an: Analyzer, path: Path, e: Entry) {
    exists c :: c in contents && w.hash(c) == e.hash && Matches(an, path, c, e)
  }

  ghost predicate EntriesSound(w: World, contents: set<Content>, an: Analyzer, entries: map<Path, Entry>) {
    forall path :: path in entries ==> EntrySound(w, contents, an, path, entries[path])
  }

  /** Every stored entry is what the analysis its key stands for would find. */
  ghost predicate DiskSound(w: World, contents: set<Content>, stands: string -> Analyzer, files: map<string, Stored>) {
    forall f :: f in files && files[f].data.Some? ==>
        EntriesSound(w, contents, stands(files[f].data.value.version), files[f].data.value.entries)
  }

  /** A sound entry found under a content's hash describes that very content. */
  lemma FoundMatches(w: World, contents: set<Content>, an: Analyzer, path: Path, e: Entry, content: Content)
    requires NoCollisions(w, contents) && content in contents
    requires EntrySound(w, contents, an, path, e) && e.hash == w.hash(content)
    ensures Matches(an, path, content, e)
  {
    var c :| c in contents && w.hash(c) == e.hash && Matches(an, path, c, e);
    assert c == content;
  }

  lemma MatchIsSound(w: World, contents: set<Content>, an: Analyzer, path: Path, e: Entry, content: Content)
    requires content in contents && e.hash == w.hash(content) && Matches(an, path, content, e)
    ensures EntrySound(w, contents, an, path, e)
  {
  }

  lemma OneMoreSound(w: World, contents: set<Content>, an: Analyzer, entries: map<Path, Entry>, path: Path, e: Entry)
    requires EntriesSound(w, contents, an, entries) && EntrySound(w, contents, an, path, e)
    ensures EntriesSound(w, contents, an, entries[path := e])
  {
  }

  lemma OverlaySound(w: World, contents: set<Content>, an: Analyzer, loaded: map<Path, Entry>, seen: map<Path, Entry>)
    requires EntriesSound(w, contents, an, loaded) && EntriesSound(w, contents, an, seen)
    ensures EntriesSound(w, contents, an, loaded + seen)
  {
  }

  lemma WrittenDiskSound(w: World, contents: set<Content>, stands: string -> Analyzer, files: map<string, Stored>,
                         path: string, data: CacheData)
    requires DiskSound(w, contents, stands, files) && EntriesSound(w, contents, stands(data.version), data.entries)
    ensures DiskSound(w, contents, stands, files[path := Stored(w.size(data), Some(data))])
  {
  }

  // ---------- Analyses that agree ----------

  ghost predicate SameDetection(x: Analyzer, y: Analyzer) {
    forall p :: x.detected(p) == y.detected(p)
  }

  /** The two analyses find the same in every content at every path. */
  ghost predicate Agree(x: Analyzer, y: Analyzer) {
    AgreeButFacts(x, y) && forall p, c :: x.facts(p, c) == y.facts(p, c)
  }

  /** They find the same except for the measured facts of the report. */
  ghost predicate AgreeButFacts(x: Analyzer, y: Analyzer) {
    && SameDetection(x, y)
    && (forall p, c :: x.classify(p, c) == y.classify(p, c))
    && (forall p, c :: x.testRegions(p, c) == y.testRegions(p, c))
    && (forall p, c :: x.outlines(p, c) == y.outlines(p, c))
    && (forall p, c :: x.definitions(p, c) == y.definitions(p, c))
    && (forall p, c, d :: x.lexical(p, c, d) == y.lexical(p, c, d))
    && (x.plans.Some? <==> y.plans.Some?)
    && (x.plans.Some? ==> forall p, c, d :: x.plans.value(p, c, d) == y.plans.value(p, c, d))
    && (forall p, c, d :: x.graph(p, c, d) == y.graph(p, c, d))
  }

  lemma AgreeingMatch(x: Analyzer, y: Analyzer, path: Path, content: Content, e: Entry)
    requires Agree(x, y) && Matches(x, path, content, e)
    ensures Matches(y, path, content, e)
  {
  }

  /** Entries sound for one analysis are sound for any that agrees. */
  lemma AgreeingSound(w: World, contents: set<Content>, x: Analyzer, y: Analyzer, entries: map<Path, Entry>)
    requires Agree(x, y) && EntriesSound(w, contents, x, entries)
    ensures EntriesSound(w, contents, y, entries)
  {
    hide Agree, Matches;
    forall path | path in entries
      ensures EntrySound(w, contents, y, path, entries[path])
    {
      assert EntrySound(w, contents, x, path, entries[path]);
      var c :| c in contents && w.hash(c) == entries[path].hash && Matches(x, path, c, entries[path]);
      AgreeingMatch(x, y, path, c, entries[path]);
    }
  }

  // ---------- The disk and the cache ----------

  class Disk {
    var files: map<string, Stored>

    constructor (files: map<string, Stored>)
      ensures this.files == files
    {
      this.files := files;
    }
  }

  /** The entries stored at the path, unless they are missing, oversized, unreadable or of another key. */
  function Load(files: map<string, Stored>, path: string, key: string): Option<map<Path, Entry>> {
    if path !in files || files[path].bytes > MAX_CACHE_FILE_BYTES || files[path].data.None? then None
    else if files[path].data.value.version == key then Some(files[path].data.value.entries)
    else None
  }

  /** Loaded is what is stored at the path under the key, if the file is small enough; otherwise nothing. */
  ghost predicate LoadTells(files: map<string, Stored>, path: string, key: string, loaded: map<Path, Entry>) {
    if path in files && files[path].bytes <= 268_435_456 && files[path].data.Some?
       && files[path].data.value.version == key
    then loaded == files[path].data.value.entries else loaded == map[]
  }

  lemma LoadedSound(w: World, contents: set<Content>, stands: string -> Analyzer, files: map<string, Stored>,
                    path: string, key: string)
    requires DiskSound(w, contents, stands, files)
    ensures Load(files, path, key).Some? ==> EntriesSound(w, contents, stands(key), Load(files, path, key).value)
  {
  }

  class Cache {
    const enabled: bool
    const path: string
    const key: string
    const loaded: map<Path, Entry>
    var seen: map<Path, Entry>
    var hits: nat
    var misses: nat
    var enrichments: nat

    /** Without a cache directory the cache is off. */
    constructor OpenAt(path: Option<string>, enabled: bool, key: string, disk: Disk)
      ensures this.enabled == (enabled && path.Some?) && this.key == key && (path.Some? ==> this.path == path.value)
      ensures this.loaded == (if this.enabled && Load(disk.files, this.path, key).Some?
                              then Load(disk.files, this.path, key).value else map[])
      ensures this.enabled ==> LoadTells(disk.files, this.path, key, this.loaded)
      ensures !this.enabled ==> this.loaded == map[]
      ensures this.seen == map[] && hits == misses == enrichments == 0
    {
      var on := enabled && path.Some?;
      var at := if path.Some? then path.value else "reposcout-cache-disabled.json";
      var stored := if on then Load(disk.files, at, key) else None;
      this.enabled, this.path, this.key := on, at, key;
      this.loaded := if stored.Some? then stored.value else map[];
      this.seen, hits, misses, enrichments := map[], 0, 0, 0;
    }

    /** A hit needs the same hash, and carries the loaded entry into what will be saved. */
    method Get(rel: Path, hash: nat) returns (found: Option<Entry>)
      modifies this`seen, this`hits, this`misses
      ensures found.Some? <==> enabled && rel in loaded && loaded[rel].hash == hash
      ensures found.Some? ==> found.value == loaded[rel] && seen == old(seen)[rel := loaded[rel]]
      ensures found.None? ==> seen == old(seen)
      ensures hits == old(hits) + (if found.Some? then 1 else 0)
      ensures misses == old(misses) + (if enabled && found.None? then 1 else 0)
    {
      if !enabled {
        return None;
      }
      if !(rel in loaded && loaded[rel].hash == hash) {
        misses := misses + 1;
        return None;
      }
      hits := hits + 1;
      seen := seen[rel := loaded[rel]];
      return Some(loaded[rel]);
    }

    method Put(rel: Path, entry: Entry)
      modifies this`seen
      ensures seen == if enabled then old(seen)[rel := entry] else old(seen)
    {
      if enabled {
        seen := seen[rel := entry];
      }
    }

    method RecordEnrichment()
      modifies this`enrichments
      ensures enrichments == old(enrichments) + if enabled then 1 else 0
    {
      if enabled {
        enrichments := enrichments + 1;
      }
    }

    /**
     * Saving takes the seen entries: pruning keeps exactly those, otherwise they overlay the loaded ones.
     * An oversized or failed write leaves the disk as it was.
     */
    method Save(w: World, pruneUnseen: bool, disk: Disk, writable: bool) returns (ok: bool)
      modifies this`seen, disk
      ensures seen == if enabled then map[] else old(seen)
      ensures var data := CacheData(key, if pruneUnseen then old(seen) else loaded + old(seen));
              var stored := enabled && w.size(data) <= MAX_CACHE_FILE_BYTES && writable;
              && disk.files == (if stored then old(disk.files)[path := Stored(w.size(data), Some(data))]
                                else old(disk.files))
              && (ok <==> stored || !enabled || w.size(data) > MAX_CACHE_FILE_BYTES)
    {
      if !enabled {
        return true;
      }
      var taken := seen;
      seen := map[];
      var entries := taken;
      if !pruneUnseen {
        entries := loaded + taken;
      }
      var data := CacheData(key, entries);
      if w.size(data) > MAX_CACHE_FILE_BYTES {
        return true;
      }
      if writable {
        disk.files := disk.files[path := Stored(w.size(data), Some(data))];
      }
      return writable;
    }
  }

  // ---------- Analyzing one file through the cache ----------

  /** The entry with every fact the requirements ask for: what it has stays, what it lacks is computed. */
  function Enriched(an: Analyzer, path: Path, content: Content, req: Requirements, e: Entry): Entry {
    var define := NeedsDefinitions(req) && (e.outlines.None? || e.definitions.None?);
    var definitions := if define then Some(an.definitions(path, content)) else e.definitions;
    var known := if definitions.Some? then definitions.value else NO_DEFINITIONS;
    e.(outlines := if define then Some(an.outlines(path, content)) else e.outlines,
       definitions := definitions,
       lexical := if req.lexical && e.lexical.None? then Some(an.lexical(path, content, known)) else e.lexical,
       plans := if req.plans && e.plans.None? && an.plans.Some?
                then Some(an.plans.value(path, content, known)) else e.plans,
       graph := if req.graph && e.graph.None? then an.graph(path, content, known) else e.graph)
  }

  /** What a scan leaves in the cache for a file it analyzed. */
  function EntryAfter(w: World, an: Analyzer, loaded: map<Path, Entry>, path: Path, content: Content,
                      req: Requirements): Entry
    requires Hit(w, true, loaded, path, content) || Analyze(an, path, content, req).Some?
  {
    if path in loaded && loaded[path].hash == w.hash(content) then Enriched(an, path, content, req, loaded[path])
    else EntryOf(w.hash(content), Analyze(an, path, content, req).value)
  }

  lemma EnrichedMatches(an: Analyzer, path: Path, content: Content, req: Requirements, e: Entry)
    requires Matches(an, path, content, e)
    ensures Matches(an, path, content, Enriched(an, path, content, req, e))
            && Enriched(an, path, content, req, e).hash == e.hash
  {
    hide SkipHint;
  }

  /** Enriched or fresh, the facts handed on are those of a full analysis. */
  lemma EnrichedAnswers(an: Analyzer, path: Path, content: Content, req: Requirements, e: Entry)
    requires Matches(an, path, content, e)
    ensures Some(Asked(Enriched(an, path, content, req, e), req)) == Analyze(an, path, content, req)
  {
    hide SkipHint, HintIsDuplicationArtifact, IsDuplicationArtifact;
    HintTellsTheArtifact(an.classify(path, content));
  }

  /** Adds the facts this scan asks for and the entry lacks; what was there stays. */
  method EnrichCachedFacts(an: Analyzer, path: Path, content: Content, req: Requirements, e: Entry)
    returns (r: Entry, enriched: bool)
    ensures r == Enriched(an, path, content, req, e) && r.hash == e.hash && (!enriched ==> r == e)
    ensures r.report == e.report && r.testRegions == e.testRegions
    ensures e.lexical.Some? || !req.lexical ==> r.lexical == e.lexical
    ensures e.plans.Some? || !req.plans ==> r.plans == e.plans
    ensures e.graph.Some? || !req.graph ==> r.graph == e.graph
    ensures (e.outlines.Some? && e.definitions.Some?) || !(req.outlines || req.lexical || req.plans || req.graph) ==>
              r.outlines == e.outlines && r.definitions == e.definitions
    ensures enriched
            <==> || ((req.outlines || req.lexical || req.plans || req.graph)
                     && (e.outlines.None? || e.definitions.None?))
                 || (req.lexical && e.lexical.None?) || (req.plans && e.plans.None? && an.plans.Some?)
                 || (req.graph && e.graph.None?)
    ensures Matches(an, path, content, e) ==>
              Matches(an, path, content, r) && Some(Asked(r, req)) == Analyze(an, path, content, req)
  {
    hide Matches, Asked, Analyze;
    if Matches(an, path, content, e) {
      EnrichedMatches(an, path, content, req, e);
      EnrichedAnswers(an, path, content, req, e);
    }
    r, enriched := e, false;
    if NeedsDefinitions(req) && (e.outlines.None? || e.definitions.None?) {
      r := r.(outlines := Some(an.outlines(path, content)), definitions := Some(an.definitions(path, content)));
      enriched := true;
    }
    var definitions := if r.definitions.Some? then r.definitions.value else NO_DEFINITIONS;
    if req.lexical && e.lexical.None? {
      r := r.(lexical := Some(an.lexical(path, content, definitions)));
      enriched := true;
    }
    if req.plans && e.plans.None? && an.plans.Some? {
      r := r.(plans := Some(an.plans.value(path, content, definitions)));
      enriched := true;
    }
    if req.graph && e.graph.None? {
      r := r.(graph := an.graph(path, content, definitions));
      enriched := true;
    }
  }

  /** The part of an entry a scan with these requirements reports. */
  function Asked(e: Entry, req: Requirements): Analyzed {
    Analyzed(e.report, HintIsDuplicationArtifact(e.report.skipHint), e.testRegions,
             if NeedsDefinitions(req) then e.outlines else None,
             if NeedsDefinitions(req) then e.definitions else None,
             if req.lexical then e.lexical else None,
             if req.plans then e.plans else None,
             if req.graph then e.graph else None)
  }

  function EntryOf(hash: nat, a: Analyzed): Entry {
    Entry(hash, a.report, a.testRegions, a.outlines, a.graph, a.definitions, a.lexical, a.plans)
  }

  lemma FreshMatches(an: Analyzer, path: Path, content: Content, req: Requirements, hash: nat)
    requires Analyze(an, path, content, req).Some?
    ensures Matches(an, path, content, EntryOf(hash, Analyze(an, path, content, req).value))
  {
  }

  predicate Hit(w: World, enabled: bool, loaded: map<Path, Entry>, path: Path, content: Content) {
    enabled && path in loaded && loaded[path].hash == w.hash(content)
  }

  /** What a scan reports: the entry found under the hash of the content, enriched, or else a fresh analysis. */
  function Answer(w: World, an: Analyzer, enabled: bool, loaded: map<Path, Entry>, path: Path, content: Content,
                  req: Requirements): Option<Analyzed>
  {
    if Hit(w, enabled, loaded, path, content) then Some(Asked(Enriched(an, path, content, req, loaded[path]), req))
    else Analyze(an, path, content, req)
  }

  /** What is loaded is sound for this analysis. */
  ghost predicate Sound(w: World, contents: set<Content>, an: Analyzer, loaded: map<Path, Entry>, content: Content) {
    NoCollisions(w, contents) && content in contents && EntriesSound(w, contents, an, loaded)
  }

  /** From sound entries the answer is that of an analysis without a cache, and what is left is sound again. */
  lemma AnswersSoundly(w: World, contents: set<Content>, an: Analyzer, enabled: bool, loaded: map<Path, Entry>,
                       path: Path, content: Content, req: Requirements)
    requires Sound(w, contents, an, loaded, content)
    ensures Answer(w, an, enabled, loaded, path, content, req) == Analyze(an, path, content, req)
    ensures Analyze(an, path, content, req).Some? ==>
              EntrySound(w, contents, an, path, EntryAfter(w, an, loaded, path, content, req))
  {
    hide Matches, EntrySound, EntriesSound, Analyze, Asked, EntryOf, Enriched;
    if Hit(w, true, loaded, path, content) {
      LoadedEntrySound(w, contents, an, loaded, path);
      FoundMatches(w, contents, an, path, loaded[path], content);
      EnrichedMatches(an, path, content, req, loaded[path]);
      EnrichedAnswers(an, path, content, req, loaded[path]);
      MatchIsSound(w, contents, an, path, Enriched(an, path, content, req, loaded[path]), content);
    } else if Analyze(an, path, content, req).Some? {
      var a := Analyze(an, path, content, req).value;
      FreshMatches(an, path, content, req, w.hash(content));
      EntryHash(w.hash(content), a);
      MatchIsSound(w, contents, an, path, EntryOf(w.hash(content), a), content);
    }
  }

  /** An entry of one analysis answers for another, alike but for the facts, exactly where the facts are the same. */
  lemma AnswersForOtherIffSameFacts(x: Analyzer, y: Analyzer, path: Path, content: Content, req: Requirements, e: Entry)
    requires AgreeButFacts(x, y) && Matches(x, path, content, e)
    ensures Some(Asked(Enriched(y, path, content, req, e), req)) == Analyze(y, path, content, req)
            <==> x.facts(path, content) == y.facts(path, content)
  {
    hide SkipHint, HintIsDuplicationArtifact, IsDuplicationArtifact;
    HintTellsTheArtifact(y.classify(path, content));
  }

  /** Whatever the cache holds, if it is sound the result is that of an analysis without it. */
  method AnalyzeLoadedFile(w: World, ghost contents: set<Content>, an: Analyzer, cache: Cache, path: Path,
                           content: Content, req: Requirements)
    returns (r: Option<Analyzed>)
    modifies cache
    ensures r == Answer(w, an, cache.enabled, cache.loaded, path, content, req)
    ensures Sound(w, contents, an, cache.loaded, content) ==> r == Analyze(an, path, content, req)
    ensures cache.hits + cache.misses == old(cache.hits) + old(cache.misses) + if cache.enabled then 1 else 0
    ensures cache.enrichments <= old(cache.enrichments) + (cache.hits - old(cache.hits))
    ensures cache.hits == old(cache.hits) + if Hit(w, cache.enabled, cache.loaded, path, content) then 1 else 0
    ensures cache.seen == if cache.enabled && r.Some?
                          then old(cache.seen)[path := EntryAfter(w, an, cache.loaded, path, content, req)]
                          else old(cache.seen)
  {
    hide Matches, EntrySound, EntriesSound, Analyze, Asked, NeedsDefinitions, EntryOf, Enriched;
    if Sound(w, contents, an, cache.loaded, content) {
      AnswersSoundly(w, contents, an, cache.enabled, cache.loaded, path, content, req);
    }
    var found := cache.Get(path, w.hash(content));
    if found.Some? {
      var full, enriched := EnrichCachedFacts(an, path, content, req, found.value);
      if enriched {
        cache.RecordEnrichment();
        cache.Put(path, full);
      }
      return Some(Asked(full, req));
    }
    r := Analyze(an, path, content, req);
    if r.Some? {
      cache.Put(path, EntryOf(w.hash(content), r.value));
    }
  }

  lemma LoadedEntrySound(w: World, contents: set<Content>, an: Analyzer, entries: map<Path, Entry>, path: Path)
    requires EntriesSound(w, contents, an, entries) && path in entries
    ensures EntrySound(w, contents, an, path, entries[path])
  {
  }

  lemma EntryHash(hash: nat, a: Analyzed)
    ensures EntryOf(hash, a).hash == hash
  {
  }
}
