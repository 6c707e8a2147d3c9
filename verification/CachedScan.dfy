/**
 * Scans over one shared cache directory: every sequence agrees with scanning afresh (src/scan/file_analysis.rs,
 * src/cache.rs).
 */
module CachedScan {
  import opened Orders
  import opened AnalysisCache

  datatype SourceFile = SourceFile(path: Path, content: Content)

  /** A file past the deadline is not analyzed; an undetected one is unsupported. */
  datatype Outcome = DurationLimit | Unsupported | Done(analyzed: Analyzed)

  /** What scanning a file without any cache reports. */
  function Uncached(an: Analyzer, file: SourceFile, req: Requirements, late: bool): Outcome {
    if late then DurationLimit
    else
      match Analyze(an, file.path, file.content, req)
      case None => Unsupported
      case Some(a) => Done(a)
  }

  /** What a scan through a cache with these loaded entries reports. */
  function Reported(w: World, an: Analyzer, enabled: bool, loaded: map<Path, Entry>, file: SourceFile,
                    req: Requirements, late: bool): Outcome
  {
    if late then DurationLimit
    else
      match Answer(w, an, enabled, loaded, file.path, file.content, req)
      case None => Unsupported
      case Some(a) => Done(a)
  }

  ghost predicate OutcomeTells(an: Analyzer, file: SourceFile, late: bool, outcome: Outcome) {
    && (outcome.DurationLimit? <==> late) && (outcome.Unsupported? <==> !late && !an.detected(file.path))
    && (outcome.Done? <==> !late && an.detected(file.path))
  }

  lemma ReportTells(w: World, an: Analyzer, enabled: bool, loaded: map<Path, Entry>, file: SourceFile,
                    req: Requirements, late: bool)
    requires AllDetected(an, loaded)
    ensures OutcomeTells(an, file, late, Reported(w, an, enabled, loaded, file, req, late))
  {
    hide Asked, Enriched;
    AnalysisTells(an, file.path, file.content, req);
  }

  /** Entries are loaded for paths with a detected language only. */
  ghost predicate AllDetected(an: Analyzer, entries: map<Path, Entry>) {
    forall p :: p in entries ==> an.detected(p)
  }

  /** The loaded entries are sound for this analysis and the contents of these files. */
  ghost predicate SoundFor(w: World, contents: set<Content>, an: Analyzer, loaded: map<Path, Entry>,
                           files: seq<SourceFile>)
  {
    NoCollisions(w, contents) && ContentsIn(files, contents) && EntriesSound(w, contents, an, loaded)
  }

  lemma ReportsSoundly(w: World, contents: set<Content>, an: Analyzer, enabled: bool, loaded: map<Path, Entry>,
                       files: seq<SourceFile>, req: Requirements, late: bool, i: nat)
    requires SoundFor(w, contents, an, loaded, files) && i < |files|
    ensures Reported(w, an, enabled, loaded, files[i], req, late) == Uncached(an, files[i], req, late)
  {
    hide NoCollisions, EntriesSound, Answer, Analyze;
    AnswersSoundly(w, contents, an, enabled, loaded, files[i].path, files[i].content, req);
  }

  ghost predicate ContentsIn(files: seq<SourceFile>, contents: set<Content>) {
    forall i :: 0 <= i < |files| ==> files[i].content in contents
  }

  /** The paths a scan really analyzes: in time and detected. */
  function AnalyzedPaths(an: Analyzer, files: seq<SourceFile>, late: nat -> bool): set<Path> {
    set i | 0 <= i < |files| && !late(i) && an.detected(files[i].path) :: files[i].path
  }

  /** The files of a batch that were read in time, and those of them the cache answers. */
  ghost function InTime(files: seq<SourceFile>, late: nat -> bool, done: set<nat>): set<nat> {
    set i | i in done && i < |files| && !late(i)
  }

  ghost function Hits(w: World, enabled: bool, loaded: map<Path, Entry>, files: seq<SourceFile>, late: nat -> bool,
                      done: set<nat>)
    : set<nat>
  {
    set i | i in done && i < |files| && !late(i) && Hit(w, enabled, loaded, files[i].path, files[i].content)
  }

  ghost predicate DistinctPaths(files: seq<SourceFile>) {
    forall i, j :: 0 <= i < j < |files| ==> files[i].path != files[j].path
  }

  predicate Kept(an: Analyzer, files: seq<SourceFile>, late: nat -> bool, i: nat) {
    i < |files| && !late(i) && an.detected(files[i].path)
  }

  /**
   * What the files done so far left in the cache: an entry for each analyzed path and, for distinct paths, which one.
   */
  ghost predicate SeenFrom(w: World, an: Analyzer, loaded: map<Path, Entry>, files: seq<SourceFile>, req: Requirements,
                           late: nat -> bool, done: set<nat>, seen: map<Path, Entry>)
  {
    && (forall p :: p in seen ==> exists i :: i in done && Kept(an, files, late, i) && files[i].path == p)
    && (forall i :: i in done && Kept(an, files, late, i) ==> files[i].path in seen)
    && (DistinctPaths(files) ==>
          forall i :: i in done && Kept(an, files, late, i) ==>
            seen[files[i].path] == EntryAfter(w, an, loaded, files[i].path, files[i].content, req))
  }

  lemma SeenOneMore(w: World, an: Analyzer, loaded: map<Path, Entry>, files: seq<SourceFile>, req: Requirements,
                    late: nat -> bool, done: set<nat>, seen: map<Path, Entry>, i: nat)
    requires SeenFrom(w, an, loaded, files, req, late, done, seen) && i < |files| && i !in done
    ensures SeenFrom(w, an, loaded, files, req, late, done + {i},
                     if Kept(an, files, late, i)
                     then seen[files[i].path := EntryAfter(w, an, loaded, files[i].path, files[i].content, req)]
                     else seen)
  {
    hide EntryAfter, Analyze, DistinctPaths;
    var kept := Kept(an, files, late, i);
    forall p | p in seen || (kept && p == files[i].path)
      ensures exists j :: j in done + {i} && Kept(an, files, late, j) && files[j].path == p
    {
      if p in seen {
        var j :| j in done && Kept(an, files, late, j) && files[j].path == p;
        assert j in done + {i};
      } else {
        assert i in done + {i};
      }
    }
    if DistinctPaths(files) {
      forall j | j in done && Kept(an, files, late, j)
        ensures files[j].path != files[i].path
      {
        OtherPath(files, i, j);
      }
    }
  }

  lemma OtherPath(files: seq<SourceFile>, i: nat, j: nat)
    requires DistinctPaths(files) && i < |files| && j < |files| && i != j
    ensures files[i].path != files[j].path
  {
  }

  /** For distinct paths the order of the files cannot show in what is left in the cache. */
  lemma SeenDetermined(w: World, an: Analyzer, loaded: map<Path, Entry>, files: seq<SourceFile>, req: Requirements,
                       late: nat -> bool, done: set<nat>, a: map<Path, Entry>, b: map<Path, Entry>)
    requires SeenFrom(w, an, loaded, files, req, late, done, a) && SeenFrom(w, an, loaded, files, req, late, done, b)
    requires DistinctPaths(files)
    ensures a == b
  {
    hide EntryAfter;
    forall p | p in a || p in b
      ensures p in a && p in b && a[p] == b[p]
    {
      var i :| i in done && Kept(an, files, late, i) && files[i].path == p;
    }
  }

  lemma SeenPaths(w: World, an: Analyzer, loaded: map<Path, Entry>, files: seq<SourceFile>, req: Requirements,
                  late: nat -> bool, done: set<nat>, seen: map<Path, Entry>)
    requires SeenFrom(w, an, loaded, files, req, late, done, seen) && forall i :: 0 <= i < |files| ==> i in done
    ensures seen.Keys == AnalyzedPaths(an, files, late)
  {
    hide EntryAfter;
    forall p | p in seen
      ensures p in AnalyzedPaths(an, files, late)
    {
      var i :| i in done && Kept(an, files, late, i) && files[i].path == p;
    }
    forall i | 0 <= i < |files| && !late(i) && an.detected(files[i].path)
      ensures files[i].path in seen
    {
      assert Kept(an, files, late, i);
    }
  }

  predicate IsIndex(files: seq<SourceFile>, i: nat) {
    i < |files|
  }

  function AllIndices(files: seq<SourceFile>): set<nat> {
    set i: nat | i < |files| && IsIndex(files, i)
  }

  /** One file of a batch, through the cache. */
  method ScanFile(w: World, ghost contents: set<Content>, an: Analyzer, cache: Cache, file: SourceFile,
                  req: Requirements, late: bool)
    returns (outcome: Outcome)
    requires AllDetected(an, cache.loaded)
    modifies cache
    ensures outcome == Reported(w, an, cache.enabled, cache.loaded, file, req, late)
    ensures Sound(w, contents, an, cache.loaded, file.content) && EntriesSound(w, contents, an, old(cache.seen)) ==>
              EntriesSound(w, contents, an, cache.seen)
    ensures cache.seen == if cache.enabled && !late && an.detected(file.path)
                          then old(cache.seen)[file.path := EntryAfter(w, an, cache.loaded, file.path, file.content,
                                                                       req)]
                          else old(cache.seen)
    ensures cache.enabled ==> cache.hits + cache.misses == old(cache.hits) + old(cache.misses) + if late then 0 else 1
    ensures cache.hits
         == old(cache.hits) + if !late && Hit(w, cache.enabled, cache.loaded, file.path, file.content) then 1 else 0
    ensures cache.enrichments <= old(cache.enrichments) + (cache.hits - old(cache.hits))
  {
    hide EntriesSound, NoCollisions, Analyze, EntryAfter, Enriched, Asked, Sound;
    DetectedIffAnalyzed(an, file, req);
    if late {
      return DurationLimit;
    }
    var analyzed := AnalyzeLoadedFile(w, contents, an, cache, file.path, file.content, req);
    outcome := if analyzed.None? then Unsupported else Done(analyzed.value);
    if Sound(w, contents, an, cache.loaded, file.content) && EntriesSound(w, contents, an, old(cache.seen))
       && cache.enabled && analyzed.Some?
    {
      AnswersSoundly(w, contents, an, cache.enabled, cache.loaded, file.path, file.content, req);
      OneMoreSound(w, contents, an, old(cache.seen), file.path,
                   EntryAfter(w, an, cache.loaded, file.path, file.content, req));
    }
  }

  /** The outcomes found so far, by index. */
  ghost predicate FoundFrom(w: World, an: Analyzer, enabled: bool, loaded: map<Path, Entry>, files: seq<SourceFile>,
                            req: Requirements, late: nat -> bool, found: map<nat, Outcome>)
  {
    forall i :: i in found ==>
      i < |files| && found[i] == Reported(w, an, enabled, loaded, files[i], req, late(i))
  }

  lemma FoundOneMore(w: World, an: Analyzer, enabled: bool, loaded: map<Path, Entry>, files: seq<SourceFile>,
                     req: Requirements, late: nat -> bool, found: map<nat, Outcome>, i: nat)
    requires FoundFrom(w, an, enabled, loaded, files, req, late, found) && i < |files|
    ensures FoundFrom(w, an, enabled, loaded, files, req, late,
                      found[i := Reported(w, an, enabled, loaded, files[i], req, late(i))])
  {
    hide Reported;
  }

  /** The results are collected in the order of the files, not in the order they were found. */
  function InOrder(files: seq<SourceFile>, found: map<nat, Outcome>): seq<Outcome>
    requires found.Keys == AllIndices(files)
  {
    seq(|files|, i requires 0 <= i < |files| && found.Keys == AllIndices(files) => found[i])
  }

  lemma OutcomesInOrder(w: World, an: Analyzer, enabled: bool, loaded: map<Path, Entry>, files: seq<SourceFile>,
                        req: Requirements, late: nat -> bool, found: map<nat, Outcome>)
    requires FoundFrom(w, an, enabled, loaded, files, req, late, found) && found.Keys == AllIndices(files)
    ensures forall i :: 0 <= i < |files| ==>
              InOrder(files, found)[i] == Reported(w, an, enabled, loaded, files[i], req, late(i))
  {
    hide Reported;
    forall i | 0 <= i < |files|
      ensures InOrder(files, found)[i] == Reported(w, an, enabled, loaded, files[i], req, late(i))
    {
      assert i in found;
    }
  }

  /**
   * One batch, its files taken in any order whatever: the outcomes are listed in the order of the files, and exactly
   * the analyzed paths are recorded. A file past the deadline is not analyzed, one without a detected language is
   * unsupported. From sound entries the outcomes are those of a scan without a cache.
   */
  method ScanFiles(w: World, ghost contents: set<Content>, an: Analyzer, cache: Cache, files: seq<SourceFile>,
                   req: Requirements, late: nat -> bool)
    returns (outcomes: seq<Outcome>)
    requires AllDetected(an, cache.loaded)
    requires cache.seen == map[] && cache.hits == cache.misses == cache.enrichments == 0
    modifies cache
    ensures |outcomes| == |files|
    ensures forall i :: 0 <= i < |files| ==>
              outcomes[i] == Reported(w, an, cache.enabled, cache.loaded, files[i], req, late(i))
    ensures forall i :: 0 <= i < |files| ==> OutcomeTells(an, files[i], late(i), outcomes[i])
    ensures SoundFor(w, contents, an, cache.loaded, files) ==>
              && EntriesSound(w, contents, an, cache.seen)
              && forall i :: 0 <= i < |files| ==> outcomes[i] == Uncached(an, files[i], req, late(i))
    ensures cache.enabled ==> cache.seen.Keys == AnalyzedPaths(an, files, late)
    ensures cache.enabled ==> SeenFrom(w, an, cache.loaded, files, req, late, AllIndices(files), cache.seen)
    ensures cache.enabled ==> cache.hits + cache.misses == |InTime(files, late, AllIndices(files))|
    ensures cache.hits == |Hits(w, cache.enabled, cache.loaded, files, late, AllIndices(files))|
            && cache.enrichments <= cache.hits
  {
    hide EntriesSound, Hit, AnalyzedPaths, SeenFrom, InTime, Hits, EntryAfter, Uncached, Analyze, AllDetected;
    hide FoundFrom, Progress, Reported, SoundFor;
    var found: map<nat, Outcome> := map[];
    NoEntriesSound(w, contents, an);
    NoProgress(w, an, cache.enabled, cache.loaded, files, req, late);
    var left := AllIndices(files);
    while left != {}
      invariant left == AllIndices(files) - found.Keys && found.Keys <= AllIndices(files)
      invariant SoundFor(w, contents, an, cache.loaded, files) ==> EntriesSound(w, contents, an, cache.seen)
      invariant Progress(w, an, cache.enabled, cache.loaded, files, req, late, found, cache.seen,
                         Counters(cache.hits, cache.misses, cache.enrichments))
      decreases |left|
    {
      var i :| i in left;
      assert i in AllIndices(files) && i !in found.Keys;
      ghost var seen, counters := cache.seen, Counters(cache.hits, cache.misses, cache.enrichments);
      SoundForEach(w, contents, an, cache.loaded, files, i);
      var outcome := ScanFile(w, contents, an, cache, files[i], req, late(i));
      ProgressStep(w, an, cache.enabled, cache.loaded, files, req, late, found, i, seen, counters, cache.seen,
                   Counters(cache.hits, cache.misses, cache.enrichments));
      found := found[i := outcome];
      left := left - {i};
    }
    assert found.Keys == AllIndices(files);
    outcomes := InOrder(files, found);
    ProgressDone(w, an, cache.enabled, cache.loaded, files, req, late, found, cache.seen,
                 Counters(cache.hits, cache.misses, cache.enrichments));
    forall i | 0 <= i < |files|
      ensures OutcomeTells(an, files[i], late(i), outcomes[i])
    {
      ReportTells(w, an, cache.enabled, cache.loaded, files[i], req, late(i));
    }
    if SoundFor(w, contents, an, cache.loaded, files) {
      forall i | 0 <= i < |files|
        ensures outcomes[i] == Uncached(an, files[i], req, late(i))
      {
        ReportsSoundly(w, contents, an, cache.enabled, cache.loaded, files, req, late(i), i);
      }
    }
  }

  lemma SoundForEach(w: World, contents: set<Content>, an: Analyzer, loaded: map<Path, Entry>, files: seq<SourceFile>,
                     i: nat)
    requires i < |files|
    ensures SoundFor(w, contents, an, loaded, files) ==> Sound(w, contents, an, loaded, files[i].content)
  {
    hide NoCollisions, EntriesSound;
  }

  datatype Counters = Counters(hits: nat, misses: nat, enrichments: nat)

  /** What the files found so far account for. */
  ghost predicate Progress(w: World, an: Analyzer, enabled: bool, loaded: map<Path, Entry>, files: seq<SourceFile>,
                           req: Requirements, late: nat -> bool, found: map<nat, Outcome>, seen: map<Path, Entry>,
                           c: Counters)
  {
    && FoundFrom(w, an, enabled, loaded, files, req, late, found)
    && (enabled ==> SeenFrom(w, an, loaded, files, req, late, found.Keys, seen))
    && (enabled ==> c.hits + c.misses == |InTime(files, late, found.Keys)|)
    && c.hits == |Hits(w, enabled, loaded, files, late, found.Keys)| && c.enrichments <= c.hits
  }

  lemma NoProgress(w: World, an: Analyzer, enabled: bool, loaded: map<Path, Entry>, files: seq<SourceFile>,
                   req: Requirements, late: nat -> bool)
    ensures Progress(w, an, enabled, loaded, files, req, late, map[], map[], Counters(0, 0, 0))
  {
    hide SeenFrom, InTime, Hits;
    var none: map<nat, Outcome> := map[];
    assert none.Keys == {};
    NothingDone(w, an, enabled, loaded, files, req, late);
  }

  lemma ProgressStep(w: World, an: Analyzer, enabled: bool, loaded: map<Path, Entry>, files: seq<SourceFile>,
                     req: Requirements, late: nat -> bool, found: map<nat, Outcome>, i: nat, seen: map<Path, Entry>,
                     c: Counters, seen': map<Path, Entry>, c': Counters)
    requires Progress(w, an, enabled, loaded, files, req, late, found, seen, c) && i < |files| && i !in found
    requires seen' == if enabled && !late(i) && an.detected(files[i].path)
                      then seen[files[i].path := EntryAfter(w, an, loaded, files[i].path, files[i].content, req)]
                      else seen
    requires enabled ==> c'.hits + c'.misses == c.hits + c.misses + if late(i) then 0 else 1
    requires c'.hits == c.hits + if !late(i) && Hit(w, enabled, loaded, files[i].path, files[i].content) then 1 else 0
    requires c'.enrichments <= c.enrichments + (c'.hits - c.hits)
    ensures Progress(w, an, enabled, loaded, files, req, late,
                     found[i := Reported(w, an, enabled, loaded, files[i], req, late(i))], seen', c')
  {
    hide SeenFrom, InTime, Hits, EntryAfter, Hit, Reported, FoundFrom;
    var more := found[i := Reported(w, an, enabled, loaded, files[i], req, late(i))];
    assert more.Keys == found.Keys + {i};
    FoundOneMore(w, an, enabled, loaded, files, req, late, found, i);
    OneMoreInTime(files, late, found.Keys, i);
    OneMoreHit(w, enabled, loaded, files, late, found.Keys, i);
    if enabled {
      SeenOneMore(w, an, loaded, files, req, late, found.Keys, seen, i);
    }
  }

  lemma ProgressDone(w: World, an: Analyzer, enabled: bool, loaded: map<Path, Entry>, files: seq<SourceFile>,
                     req: Requirements, late: nat -> bool, found: map<nat, Outcome>, seen: map<Path, Entry>,
                     c: Counters)
    requires Progress(w, an, enabled, loaded, files, req, late, found, seen, c) && found.Keys == AllIndices(files)
    ensures forall i :: 0 <= i < |files| ==>
              InOrder(files, found)[i] == Reported(w, an, enabled, loaded, files[i], req, late(i))
    ensures enabled ==> seen.Keys == AnalyzedPaths(an, files, late)
    ensures enabled ==> SeenFrom(w, an, loaded, files, req, late, AllIndices(files), seen)
    ensures enabled ==> c.hits + c.misses == |InTime(files, late, AllIndices(files))|
    ensures c.hits == |Hits(w, enabled, loaded, files, late, AllIndices(files))| && c.enrichments <= c.hits
  {
    hide SeenFrom, InTime, Hits, Reported, FoundFrom, AnalyzedPaths, InOrder;
    OutcomesInOrder(w, an, enabled, loaded, files, req, late, found);
    if enabled {
      SeenPaths(w, an, loaded, files, req, late, found.Keys, seen);
    }
  }

  lemma NothingDone(w: World, an: Analyzer, enabled: bool, loaded: map<Path, Entry>, files: seq<SourceFile>,
                    req: Requirements, late: nat -> bool)
    ensures SeenFrom(w, an, loaded, files, req, late, {}, map[])
    ensures InTime(files, late, {}) == {} && Hits(w, enabled, loaded, files, late, {}) == {}
  {
  }

  lemma OneMoreInTime(files: seq<SourceFile>, late: nat -> bool, done: set<nat>, i: nat)
    requires i < |files| && i !in done
    ensures |InTime(files, late, done + {i})| == |InTime(files, late, done)| + if late(i) then 0 else 1
  {
    var more := InTime(files, late, done + {i});
    assert more == if late(i) then InTime(files, late, done) else InTime(files, late, done) + {i};
  }

  lemma OneMoreHit(w: World, enabled: bool, loaded: map<Path, Entry>, files: seq<SourceFile>, late: nat -> bool,
                   done: set<nat>, i: nat)
    requires i < |files| && i !in done
    ensures |Hits(w, enabled, loaded, files, late, done + {i})| == |Hits(w, enabled, loaded, files, late, done)|
              + if !late(i) && Hit(w, enabled, loaded, files[i].path, files[i].content) then 1 else 0
  {
    hide Hit;
    var less, more := Hits(w, enabled, loaded, files, late, done), Hits(w, enabled, loaded, files, late, done + {i});
    if !late(i) && Hit(w, enabled, loaded, files[i].path, files[i].content) {
      assert more == less + {i};
    } else {
      assert more == less;
    }
  }

  lemma DetectedIffAnalyzed(an: Analyzer, file: SourceFile, req: Requirements)
    ensures Analyze(an, file.path, file.content, req).Some? <==> an.detected(file.path)
  {
  }

  lemma NoEntriesSound(w: World, contents: set<Content>, an: Analyzer)
    ensures EntriesSound(w, contents, an, map[])
  {
  }

  // ---------- Any sequence of scans ----------

  /**
   * One scan: its cache location, key and analysis, what it reads, and how its save goes; full scans prune,
     scoped ones do not.
   */
  datatype Job = Job(path: Option<string>, enabled: bool, key: string, analyzer: Analyzer, files: seq<SourceFile>,
                     req: Requirements, late: nat -> bool, pruneUnseen: bool, writable: bool)

  ghost predicate AgreesWithUncached(job: Job, outcomes: seq<Outcome>) {
    && |outcomes| == |job.files|
    && forall i :: 0 <= i < |job.files| ==>
         outcomes[i] == Uncached(job.analyzer, job.files[i], job.req, job.late(i))
  }

  function LoadedOr(files: map<string, Stored>, path: string, key: string): map<Path, Entry> {
    var found := Load(files, path, key);
    if found.Some? then found.value else map[]
  }

  /** What a scan found at its cache location. */
  function LoadedBy(job: Job, files: map<string, Stored>): map<Path, Entry> {
    if job.enabled && job.path.Some? then LoadedOr(files, job.path.value, job.key) else map[]
  }

  /** What a scan would save: the seen entries, over the loaded ones unless it prunes. */
  function Saving(job: Job, files: map<string, Stored>, seen: map<Path, Entry>): CacheData {
    CacheData(job.key, if job.pruneUnseen then seen else LoadedBy(job, files) + seen)
  }

  /** The save takes place: there is a cache to write, and the data fits. */
  predicate Saves(w: World, job: Job, files: map<string, Stored>, seen: map<Path, Entry>) {
    && job.enabled && job.path.Some? && job.writable
    && w.size(Saving(job, files, seen)) <= MAX_CACHE_FILE_BYTES
  }

  function DiskAfter(w: World, job: Job, files: map<string, Stored>, seen: map<Path, Entry>): map<string, Stored> {
    if Saves(w, job, files, seen)
    then files[job.path.value := Stored(w.size(Saving(job, files, seen)), Some(Saving(job, files, seen)))]
    else files
  }

  /**
   * One scan: hits and misses for the files read in time, and the disk as it was except for what is saved: an entry for
   * every analyzed path, and for distinct paths it is fixed which. If the analysis is the one its key stands for, the
   * outcomes are those of a scan without a cache and the disk stays sound.
   */
  method RunScan(w: World, ghost contents: set<Content>, ghost stands: string -> Analyzer, disk: Disk, job: Job)
    returns (outcomes: seq<Outcome>, hits: nat, misses: nat, ghost seen: map<Path, Entry>)
    requires NoCollisions(w, contents) && ContentsIn(job.files, contents)
    requires DiskSound(w, contents, stands, disk.files) && SameDetection(stands(job.key), job.analyzer)
    modifies disk
    ensures |outcomes| == |job.files| && disk.files == DiskAfter(w, job, old(disk.files), seen)
    ensures Agree(stands(job.key), job.analyzer) ==>
              DiskSound(w, contents, stands, disk.files) && AgreesWithUncached(job, outcomes)
    ensures var on := job.enabled && job.path.Some?;
            var loaded := LoadedBy(job, old(disk.files));
            && (forall i :: 0 <= i < |job.files| ==>
                  outcomes[i] == Reported(w, job.analyzer, on, loaded, job.files[i], job.req, job.late(i)))
            && AllDetected(job.analyzer, loaded) && EntriesSound(w, contents, stands(job.key), loaded)
            && hits == |Hits(w, on, loaded, job.files, job.late, AllIndices(job.files))|
            && (on ==>
                  && SeenFrom(w, job.analyzer, loaded, job.files, job.req, job.late, AllIndices(job.files), seen)
                  && seen.Keys == AnalyzedPaths(job.analyzer, job.files, job.late)
                  && hits + misses == |InTime(job.files, job.late, AllIndices(job.files))|)
  {
    hide EntriesSound, NoCollisions, ContentsIn, DiskSound, Analyze, AnalyzedPaths, Hits, InTime, Uncached, SeenFrom;
    hide Agree, AllDetected, SameDetection, Reported;
    var cache := new Cache.OpenAt(job.path, job.enabled, job.key, disk);
    LoadedSound(w, contents, stands, disk.files, cache.path, job.key);
    NoEntriesSound(w, contents, stands(job.key));
    assert cache.loaded == LoadedBy(job, disk.files);
    SoundAreDetected(w, contents, stands(job.key), job.analyzer, cache.loaded);
    outcomes := ScanFiles(w, contents, job.analyzer, cache, job.files, job.req, job.late);
    hits, misses, seen := cache.hits, cache.misses, cache.seen;
    if Agree(stands(job.key), job.analyzer) {
      AgreeingSound(w, contents, stands(job.key), job.analyzer, cache.loaded);
      AgreeingBack(w, contents, stands(job.key), job.analyzer, seen);
      OverlaySound(w, contents, stands(job.key), cache.loaded, seen);
      WrittenDiskSound(w, contents, stands, disk.files, cache.path, Saving(job, disk.files, seen));
    }
    var _ := cache.Save(w, job.pruneUnseen, disk, job.writable);
  }

  lemma SoundAreDetected(w: World, contents: set<Content>, x: Analyzer, y: Analyzer, entries: map<Path, Entry>)
    requires EntriesSound(w, contents, x, entries) && SameDetection(x, y)
    ensures AllDetected(y, entries)
  {
    forall p | p in entries
      ensures y.detected(p)
    {
      assert EntrySound(w, contents, x, p, entries[p]);
    }
  }

  lemma AgreeingBack(w: World, contents: set<Content>, x: Analyzer, y: Analyzer, entries: map<Path, Entry>)
    requires Agree(x, y) && EntriesSound(w, contents, y, entries)
    ensures EntriesSound(w, contents, x, entries)
  {
    hide EntriesSound;
    AgreeingSound(w, contents, y, x, entries);
  }

  // ---------- Scanning again ----------

  /** The files of a batch that were read in time and have a detected language. */
  ghost function DetectedInTime(an: Analyzer, files: seq<SourceFile>, late: nat -> bool): set<nat> {
    set i | i in AllIndices(files) && i < |files| && !late(i) && an.detected(files[i].path)
  }

  lemma EntryAfterHash(w: World, an: Analyzer, loaded: map<Path, Entry>, path: Path, content: Content,
                       req: Requirements)
    requires Analyze(an, path, content, req).Some?
    ensures EntryAfter(w, an, loaded, path, content, req).hash == w.hash(content)
  {
    hide Analyze;
  }

  /** From what a scan of distinct paths left, pruned or not, a scan of the same files finds exactly those detected. */
  lemma SavedScanHits(w: World, an: Analyzer, loaded: map<Path, Entry>, files: seq<SourceFile>, req: Requirements,
                      late: nat -> bool, seen: map<Path, Entry>, pruned: bool, later: nat -> bool)
    requires AllDetected(an, loaded) && AllDetected(an, seen)
    requires SeenFrom(w, an, loaded, files, req, late, AllIndices(files), seen) && DistinctPaths(files)
    requires forall i :: 0 <= i < |files| && !later(i) ==> !late(i)
    ensures Hits(w, true, if pruned then seen else loaded + seen, files, later, AllIndices(files))
         == DetectedInTime(an, files, later)
    ensures forall i :: 0 <= i < |files| && !later(i) && an.detected(files[i].path) ==>
              && Analyze(an, files[i].path, files[i].content, req).Some?
              && files[i].path in (if pruned then seen else loaded + seen)
              && (if pruned then seen else loaded + seen)[files[i].path]
                 == EntryAfter(w, an, loaded, files[i].path, files[i].content, req)
  {
    hide EntryAfter, Analyze, Matches;
    var next := if pruned then seen else loaded + seen;
    forall i | 0 <= i < |files| && !later(i)
      ensures Hit(w, true, next, files[i].path, files[i].content) <==> an.detected(files[i].path)
      ensures an.detected(files[i].path) ==>
                && Analyze(an, files[i].path, files[i].content, req).Some?
                && files[i].path in next
                && next[files[i].path] == EntryAfter(w, an, loaded, files[i].path, files[i].content, req)
    {
      var path, content := files[i].path, files[i].content;
      if an.detected(path) {
        assert i in AllIndices(files) && Kept(an, files, late, i);
        DetectedIffAnalyzed(an, files[i], req);
        EntryAfterHash(w, an, loaded, path, content, req);
      }
    }
  }

  lemma SplitInTime(an: Analyzer, files: seq<SourceFile>, late: nat -> bool)
    ensures DetectedInTime(an, files, late) <= InTime(files, late, AllIndices(files))
    ensures |InTime(files, late, AllIndices(files))| - |DetectedInTime(an, files, late)|
         == |InTime(files, late, AllIndices(files)) - DetectedInTime(an, files, late)|
  {
    var all, some := InTime(files, late, AllIndices(files)), DetectedInTime(an, files, late);
    assert all == some + (all - some);
  }

  /**
   * The second job scans the same distinct files at the same place with the same key, in time for no more of them, and
   * its analysis is alike but for the measured facts.
   */
  ghost predicate Repeats(job: Job, again: Job) {
    && again.enabled && again.path == job.path && again.key == job.key && again.files == job.files
    && DistinctPaths(job.files) && (forall i :: 0 <= i < |job.files| && !again.late(i) ==> !job.late(i))
    && AgreeButFacts(job.analyzer, again.analyzer)
  }

  /**
   * After a scan that was saved, scanning the same files again, with whatever requirements, misses exactly the files
   * without a detected language: nothing, if all have one. The others are answered as a scan without a cache would
   * exactly where both analyses measure the same facts.
   */
  method ScanTwice(w: World, ghost contents: set<Content>, ghost stands: string -> Analyzer, disk: Disk, job: Job,
                   again: Job)
    returns (first: seq<Outcome>, second: seq<Outcome>, misses: nat, ghost seen: map<Path, Entry>)
    requires NoCollisions(w, contents) && ContentsIn(job.files, contents)
    requires DiskSound(w, contents, stands, disk.files)
    requires Agree(stands(job.key), job.analyzer) && Repeats(job, again)
    modifies disk
    ensures AgreesWithUncached(job, first) && |second| == |again.files|
    ensures Agree(stands(job.key), again.analyzer) ==> AgreesWithUncached(again, second)
    ensures Saves(w, job, old(disk.files), seen) ==>
              && misses == |InTime(job.files, again.late, AllIndices(job.files))
                            - DetectedInTime(job.analyzer, job.files, again.late)|
              && forall i :: 0 <= i < |job.files| && !again.late(i) && job.analyzer.detected(job.files[i].path) ==>
                   (second[i] == Uncached(again.analyzer, again.files[i], again.req, false)
                    <==> SameFacts(job.analyzer, again.analyzer, job.files[i]))
  {
    hide EntriesSound, NoCollisions, ContentsIn, DiskSound, Uncached, SeenFrom, InTime, Hits, DetectedInTime;
    hide AnalyzedPaths, AgreesWithUncached, DistinctPaths, Agree, AgreeButFacts, AllDetected, SameFacts, Reported;
    ghost var loaded := LoadedBy(job, disk.files);
    AlikeAreDetected(stands(job.key), job.analyzer, again.analyzer);
    var hits0, misses0, hits;
    first, hits0, misses0, seen := RunScan(w, contents, stands, disk, job);
    ghost var stored := Saves(w, job, old(disk.files), seen);
    ghost var next := LoadedBy(again, disk.files);
    if stored {
      SeenAreDetected(w, job.analyzer, loaded, job.files, job.req, job.late, seen);
      SavedScanHits(w, job.analyzer, loaded, job.files, job.req, job.late, seen, job.pruneUnseen, again.late);
      assert next == Saving(job, old(disk.files), seen).entries;
    }
    ghost var seenAgain;
    second, hits, misses, seenAgain := RunScan(w, contents, stands, disk, again);
    SplitInTime(job.analyzer, job.files, again.late);
    if stored {
      forall i | 0 <= i < |job.files| && !again.late(i) && job.analyzer.detected(job.files[i].path)
        ensures second[i] == Uncached(again.analyzer, again.files[i], again.req, false)
                <==> SameFacts(job.analyzer, again.analyzer, job.files[i])
      {
        AgreeingSound(w, contents, stands(job.key), job.analyzer, loaded);
        HitIffSameFacts(w, contents, job.analyzer, again.analyzer, loaded, next, job.files, job.req, again.req, i);
      }
    }
  }

  ghost predicate SameFacts(x: Analyzer, y: Analyzer, file: SourceFile) {
    x.facts(file.path, file.content) == y.facts(file.path, file.content)
  }

  lemma AlikeAreDetected(x: Analyzer, y: Analyzer, z: Analyzer)
    requires Agree(x, y) && AgreeButFacts(y, z)
    ensures SameDetection(x, y) && SameDetection(x, z)
  {
  }

  lemma SeenAreDetected(w: World, an: Analyzer, loaded: map<Path, Entry>, files: seq<SourceFile>, req: Requirements,
                        late: nat -> bool, seen: map<Path, Entry>)
    requires SeenFrom(w, an, loaded, files, req, late, AllIndices(files), seen)
    ensures AllDetected(an, seen)
  {
    hide EntryAfter;
    forall p | p in seen
      ensures an.detected(p)
    {
      var i :| i in AllIndices(files) && Kept(an, files, late, i) && files[i].path == p;
    }
  }

  lemma HitIffSameFacts(w: World, contents: set<Content>, x: Analyzer, y: Analyzer, loaded: map<Path, Entry>,
                        next: map<Path, Entry>, files: seq<SourceFile>, req: Requirements, asked: Requirements, i: nat)
    requires i < |files| && SoundFor(w, contents, x, loaded, files) && AgreeButFacts(x, y)
    requires Analyze(x, files[i].path, files[i].content, req).Some? && files[i].path in next
    requires next[files[i].path] == EntryAfter(w, x, loaded, files[i].path, files[i].content, req)
    ensures Reported(w, y, true, next, files[i], asked, false) == Uncached(y, files[i], asked, false)
            <==> SameFacts(x, y, files[i])
  {
    hide NoCollisions, EntriesSound, Analyze, Enriched, Asked, Matches, AgreeButFacts, EntryOf;
    var path, content, e := files[i].path, files[i].content, next[files[i].path];
    EntryAfterHash(w, x, loaded, path, content, req);
    EntryAfterMatches(w, contents, x, loaded, path, content, req);
    AnswersForOtherIffSameFacts(x, y, path, content, asked, e);
  }

  lemma EntryAfterMatches(w: World, contents: set<Content>, an: Analyzer, loaded: map<Path, Entry>, path: Path,
                          content: Content, req: Requirements)
    requires Sound(w, contents, an, loaded, content) && Analyze(an, path, content, req).Some?
    ensures Matches(an, path, content, EntryAfter(w, an, loaded, path, content, req))
  {
    hide EntrySound, EntriesSound, Analyze, Enriched, Matches;
    AnswersSoundly(w, contents, an, true, loaded, path, content, req);
    EntryAfterHash(w, an, loaded, path, content, req);
    FoundMatches(w, contents, an, path, EntryAfter(w, an, loaded, path, content, req), content);
  }

  // ---------- Sequences ----------

  /**
   * However scoped and full scans follow one another over the same directory, whichever saves fail or are refused, as
   * long as each analysis is the one its key stands for: every scan reports what it would report without a cache.
   */
  method RunScans(w: World, ghost contents: set<Content>, ghost stands: string -> Analyzer, disk: Disk, jobs: seq<Job>)
    returns (results: seq<seq<Outcome>>)
    requires NoCollisions(w, contents) && DiskSound(w, contents, stands, disk.files)
    requires forall j :: 0 <= j < |jobs| ==> ContentsIn(jobs[j].files, contents)
    requires forall j :: 0 <= j < |jobs| ==> Agree(stands(jobs[j].key), jobs[j].analyzer)
    modifies disk
    ensures DiskSound(w, contents, stands, disk.files)
    ensures |results| == |jobs|
    ensures forall j :: 0 <= j < |jobs| ==> AgreesWithUncached(jobs[j], results[j])
  {
    hide EntriesSound, NoCollisions, ContentsIn, DiskSound, Uncached, AgreesWithUncached, SeenFrom, DiskAfter;
    hide AllDetected, AnalyzedPaths, Hits, InTime, Reported;
    results := [];
    for k := 0 to |jobs|
      invariant DiskSound(w, contents, stands, disk.files)
      invariant |results| == k
      invariant forall j :: 0 <= j < k ==> AgreesWithUncached(jobs[j], results[j])
    {
      var outcomes, _, _, _ := RunScan(w, contents, stands, disk, jobs[k]);
      results := results + [outcomes];
    }
  }

  /** A batch misses nothing exactly when every file read in time is loaded under its content's hash. */
  lemma MissesNothingIffLoaded(w: World, loaded: map<Path, Entry>, files: seq<SourceFile>, late: nat -> bool)
    ensures |Hits(w, true, loaded, files, late, AllIndices(files))| == |InTime(files, late, AllIndices(files))|
            <==> forall i :: 0 <= i < |files| && !late(i) ==> Hit(w, true, loaded, files[i].path, files[i].content)
  {
    var hits, all := Hits(w, true, loaded, files, late, AllIndices(files)), InTime(files, late, AllIndices(files));
    assert hits <= all && all == hits + (all - hits);
    if forall i :: 0 <= i < |files| && !late(i) ==> Hit(w, true, loaded, files[i].path, files[i].content) {
      assert hits == all;
    }
    forall i | 0 <= i < |files| && !late(i)
      ensures i in all && (i in hits <==> Hit(w, true, loaded, files[i].path, files[i].content))
    {
    }
    if |hits| == |all| {
      assert all - hits == {};
      assert hits == all;
    }
  }
}
