/** The history processor: one event for each walked commit, resolved, capped, remembered and applied (src/git.rs). */
module HistoryWalk {
  import opened Orders
  import opened Lineage
  import opened CommitChanges
  import opened EventLimits
  import opened WalkEvents

  // ---------- What the steps of a walk report ----------

  /** An event read from the diff of a commit, with its renames if a wanted name asks for them and nothing was lost. */
  ghost predicate AnalyzedAs(repo: Repo, limits: Limits, names: set<Path>, oid: Oid, before: Stats, e: CommitEvent,
                             after: Stats)
    requires Diffed(repo, oid)
  {
    var diff := repo[oid].diff.value;
    var plain := Kept(diff, limits, limits.maxDeltasPerCommit);
    var probed := !before.partial && WithinCaps(diff, limits) && NameAppears(plain, names);
    var counted := before.(treeDiffs := before.treeDiffs + 1, deltasOmitted := before.deltasOmitted + |diff| - |plain|,
                           renameProbes := before.renameProbes + if probed then 1 else 0,
                           partial := before.partial || !WithinCaps(diff, limits));
    if probed && Detected(repo, oid) then ReadAs(repo, limits, oid, counted, e, after)
    else e == EventFrom(repo, oid, plain, false) && after == counted
  }

  /** The event with the deltas similarity detection reports, as far as the caps let them in. */
  ghost predicate ReadAs(repo: Repo, limits: Limits, oid: Oid, before: Stats, e: CommitEvent, after: Stats)
    requires Detected(repo, oid)
  {
    var similar := repo[oid].similar.value;
    && e == EventFrom(repo, oid, Kept(similar, limits, limits.maxDeltasPerCommit), true)
    && after == before.(deltasOmitted := before.deltasOmitted + |similar| - |e.deltas|,
                        partial := before.partial || !WithinCaps(similar, limits))
  }

  /** The event found for a commit: empty for a merge, cached, streamed, or analyzed where that is allowed. */
  ghost predicate DeliveredAs(repo: Repo, limits: Limits, names: set<Path>, cache: map<Oid, CommitEvent>,
                              streamed: map<Oid, CommitEvent>, oid: Oid, before: Stats, e: Option<CommitEvent>,
                              after: Stats)
  {
    if IsMerge(repo, oid) then
      e == (if repo[oid].found then Some(EventFrom(repo, oid, [], true)) else None) && after == before
    else if oid in cache then e == Some(cache[oid]) && after == before.(eventHits := before.eventHits + 1)
    else if oid in streamed then e == Some(streamed[oid]) && after == before
    else if limits.skipLibgit2Fallback then e == None && after == before.(partial := true)
    else if Diffed(repo, oid) then e.Some? && AnalyzedAs(repo, limits, names, oid, before, e.value, after)
    else e == None && after == before
  }

  /** Whether the names ask for detection, whether it may be asked, and whether it answers. */
  ghost predicate ResolvedAs(repo: Repo, limits: Limits, names: set<Path>, oid: Oid, e: CommitEvent, before: Stats,
                             e': CommitEvent, after: Stats)
  {
    if e.renamesResolved || !NameAppears(e.deltas, names) then e' == e && after == before
    else if limits.skipLibgit2Fallback || before.partial then e' == e && after == before.(partial := true)
    else
      var asked := if Diffed(repo, oid) then
                     before.(treeDiffs := before.treeDiffs + 1, renameProbes := before.renameProbes + 1) else before;
      if Detected(repo, oid) && Diffed(repo, oid) then ReadAs(repo, limits, oid, asked, e', after)
      else e' == e && after == asked
  }

  /** Names that ask where they may not be answered stop a complete run. */
  predicate Refused(limits: Limits, names: set<Path>, e: CommitEvent, partial: bool) {
    !e.renamesResolved && NameAppears(e.deltas, names) && (limits.skipLibgit2Fallback || partial)
  }

  // ---------- Unmarked steps are whole steps ----------

  /** As long as nothing is marked, what was delivered and resolved is the whole event; what marks is not. */
  lemma WholeIffUnmarked(repo: Repo, limits: Limits, names: set<Path>, cache: map<Oid, CommitEvent>,
                         streamed: map<Oid, CommitEvent>, oid: Oid, before: Stats, found: CommitEvent, middle: Stats,
                         e: CommitEvent, after: Stats)
    requires CoherentRepo(repo) && !before.partial
    requires DeliveredAs(repo, limits, names, cache, streamed, oid, before, Some(found), middle)
    requires ResolvedAs(repo, limits, names, oid, found, middle, e, after)
    ensures var s := Sourced(repo, limits, cache, streamed, oid);
            var whole := if s.Some? then Resolved(repo, limits, oid, s.value, names) else None;
            && (!after.partial ==> whole == Some(e))
            && (after.partial ==> whole.None? || !WithinCaps(whole.value.deltas, limits))
    ensures after.totalDeltas == before.totalDeltas
  {
    hide WithinCaps, Kept, NameAppears, CoherentRepo, ShowsPlain, ShowsResolved;
    if oid in repo && repo[oid].diff.Some? {
      WholeIffWithin(repo[oid].diff.value, limits);
      assert Coherent(repo[oid]) by { CoherentAt(repo, oid); }
      if repo[oid].similar.Some? {
        WholeIffWithin(repo[oid].similar.value, limits);
      }
    } else if oid in repo {
      CoherentAt(repo, oid);
    }
  }

  lemma CoherentAt(repo: Repo, oid: Oid)
    requires CoherentRepo(repo) && oid in repo
    ensures repo[oid].similar.Some? ==> repo[oid].diff.Some?
    ensures Coherent(repo[oid])
  {
  }

  lemma WholeIffWithin(ds: seq<Delta>, limits: Limits)
    ensures Kept(ds, limits, limits.maxDeltasPerCommit) == ds <==> WithinCaps(ds, limits)
  {
    KeptWithin(ds, limits, limits.maxDeltasPerCommit);
  }

  // ---------- What is left of the sources ----------

  /** After some commits: what the cache remembers, and what the stream has not delivered yet. */
  ghost predicate Left(src: Sources, done: seq<Oid>, cache: map<Oid, CommitEvent>, streamed: map<Oid, CommitEvent>) {
    && src.cache.Keys <= cache.Keys
    && (forall oid :: oid in streamed ==> oid in src.streamed && streamed[oid] == src.streamed[oid])
    && (forall oid :: oid in src.streamed && oid !in done ==> oid in streamed)
    && (forall oid :: oid in done && oid in streamed ==> IsMerge(src.repo, oid) || oid in cache)
  }

  lemma LeftIsSame(src: Sources, done: seq<Oid>, cache: map<Oid, CommitEvent>, streamed: map<Oid, CommitEvent>,
                   oid: Oid)
    requires Left(src, done, cache, streamed)
    ensures Sourced(src.repo, src.limits, cache, streamed, oid)
         == Sourced(src.repo, src.limits, cache, src.streamed - Elements(done), oid)
    ensures Available(src.repo, src.limits, src.cache, src.streamed - Elements(done), oid)
            ==> Available(src.repo, src.limits, cache, streamed, oid)
  {
    hide WithinCaps;
  }

  lemma LeftOneMore(src: Sources, oids: seq<Oid>, k: nat, cache: map<Oid, CommitEvent>, streamed: map<Oid, CommitEvent>,
                    cache': map<Oid, CommitEvent>, streamed': map<Oid, CommitEvent>)
    requires k < |oids| && Left(src, oids[..k], cache, streamed)
    requires cache.Keys <= cache'.Keys
    requires streamed' == streamed - if IsMerge(src.repo, oids[k]) || oids[k] in cache then {} else {oids[k]}
    ensures Left(src, oids[..k + 1], cache', streamed')
  {
    assert oids[..k + 1] == oids[..k] + [oids[k]];
  }

  lemma NothingUsed(src: Sources, oids: seq<Oid>)
    ensures Left(src, oids[..0], src.cache, src.streamed)
  {
  }

  /** Every commit some source had an event for was applied, up to where the walk stopped. */
  ghost predicate Tried(src: Sources, oids: seq<Oid>, stop: nat, positions: seq<nat>) {
    && stop <= |oids|
    && forall k ::
         0 <= k < stop && Available(src.repo, src.limits, src.cache, src.streamed - Elements(oids[..k]), oids[k]) ==>
           k in positions
  }

  // ---------- The steps of the processor ----------

  ghost predicate AllWithinCaps(events: seq<CommitEvent>, limits: Limits) {
    forall e :: e in events ==> WithinCaps(e.deltas, limits)
  }

  /** The parts of the processor state that capping and remembering one event must keep. */
  ghost predicate Bookkept(repo: Repo, limits: Limits, stats: Stats, cache: map<Oid, CommitEvent>,
                           applied: seq<CommitEvent>)
  {
    && AllWithinCaps(applied, limits)
    && stats.totalDeltas == DeltaCount(applied) <= limits.maxTotalDeltas
    && (stats.deltasOmitted > 0 ==> stats.partial)
    && AllIntact(repo, cache)
  }

  lemma BookkeepingHolds(repo: Repo, limits: Limits, stats: Stats, cache: map<Oid, CommitEvent>,
                         applied: seq<CommitEvent>)
    requires Bookkept(repo, limits, stats, cache, applied)
    ensures AllIntact(repo, cache) && (stats.deltasOmitted > 0 ==> stats.partial)
    ensures stats.totalDeltas == DeltaCount(applied) <= limits.maxTotalDeltas
  {
  }

  predicate FitsWhole(limits: Limits, total: nat, e: CommitEvent) {
    WithinCaps(e.deltas, limits) && total + |e.deltas| <= limits.maxTotalDeltas
  }

  lemma BoundedStep(repo: Repo, limits: Limits, oid: Oid, event: CommitEvent, bounded: CommitEvent,
                    stats: Stats, stats': Stats, cache: map<Oid, CommitEvent>, cache': map<Oid, CommitEvent>,
                    applied: seq<CommitEvent>)
    requires Bookkept(repo, limits, stats, cache, applied) && (!stats.partial ==> Intact(repo, oid, event))
    requires bounded == event.(deltas := Kept(event.deltas, limits, Room(limits, stats.totalDeltas)))
    requires stats' == stats.(deltasOmitted := stats.deltasOmitted + |event.deltas| - |bounded.deltas|,
                              totalDeltas := stats.totalDeltas + |bounded.deltas|,
                              partial := stats.partial || !FitsWhole(limits, stats.totalDeltas, event))
    requires cache' == cache || (cache' == cache[bounded.oid := bounded] && !stats'.partial)
    ensures Bookkept(repo, limits, stats', cache', applied + [bounded])
    ensures bounded == event <==> WithinCaps(event.deltas, limits) && |event.deltas| <= Room(limits, stats.totalDeltas)
    ensures !stats'.partial ==> bounded == event
  {
    hide Kept;
    KeptWithin(event.deltas, limits, Room(limits, stats.totalDeltas));
    DeltaCountStep(applied, bounded);
    assert forall e :: e in applied + [bounded] ==> e in applied || e == bounded;
    IntactOid(repo, oid, event, stats.partial);
  }

  lemma IntactOid(repo: Repo, oid: Oid, e: CommitEvent, partial: bool)
    requires !partial ==> Intact(repo, oid, e)
    ensures !partial ==> e.oid == oid
  {
  }

  // ---------- Clear steps ----------

  /** Without an event from any source the walk is not clear. */
  lemma MissingBlocks(src: Sources, late: nat -> bool, oids: seq<Oid>, applied: seq<CommitEvent>,
                      cache: map<Oid, CommitEvent>, streamed: map<Oid, CommitEvent>)
    requires |applied| < |oids| && cache == Remembered(src, applied) && Left(src, oids[..|applied|], cache, streamed)
    requires !Available(src.repo, src.limits, cache, streamed, oids[|applied|])
    ensures !Clear(src, late, oids, applied)
  {
    hide Left, Resolved, Remembered, WithinCaps, CurrentNames, DeltaCount;
    LeftIsSame(src, oids[..|applied|], cache, streamed, oids[|applied|]);
  }

  /** A step is clear exactly when it ends unmarked, and then it applies the next event of the unhindered walk. */
  lemma ClearIffUnmarked(src: Sources, late: nat -> bool, oids: seq<Oid>, applied: seq<CommitEvent>,
                         cache: map<Oid, CommitEvent>, streamed: map<Oid, CommitEvent>, before: Stats,
                         found: CommitEvent, middle: Stats, e: CommitEvent, after: Stats)
    requires CoherentRepo(src.repo) && |applied| < |oids| && !late(|applied|)
    requires cache == Remembered(src, applied) && Left(src, oids[..|applied|], cache, streamed)
    requires !before.partial && before.totalDeltas == DeltaCount(applied) < src.limits.maxTotalDeltas
    requires var names := CurrentNames(src.wanted, applied);
             && DeliveredAs(src.repo, src.limits, names, cache, streamed, oids[|applied|], before, Some(found), middle)
             && ResolvedAs(src.repo, src.limits, names, oids[|applied|], found, middle, e, after)
    ensures Clear(src, late, oids, applied) <==> !after.partial && FitsWhole(src.limits, after.totalDeltas, e)
    ensures Clear(src, late, oids, applied) ==> NextEvent(src, oids, applied) == Some(e)
  {
    hide Left, Sourced, Resolved, Remembered, WithinCaps, CurrentNames, DeltaCount, DeliveredAs, ResolvedAs;
    hide CoherentRepo;
    var oid := oids[|applied|];
    LeftIsSame(src, oids[..|applied|], cache, streamed, oid);
    WholeIffUnmarked(src.repo, src.limits, CurrentNames(src.wanted, applied), cache, streamed, oid, before, found,
                     middle, e, after);
  }

  lemma RememberedStep(src: Sources, applied: seq<CommitEvent>, e: CommitEvent)
    ensures Remembered(src, applied + [e])
         == if src.useEventCache then Remembered(src, applied)[e.oid := e] else Remembered(src, applied)
  {
    assert (applied + [e])[..|applied|] == applied;
  }

  lemma TriedOneMore(src: Sources, oids: seq<Oid>, k: nat, positions: seq<nat>, more: seq<nat>,
                     cache: map<Oid, CommitEvent>, streamed: map<Oid, CommitEvent>)
    requires k < |oids| && Tried(src, oids, k, positions) && Left(src, oids[..k], cache, streamed)
    requires more == if Available(src.repo, src.limits, cache, streamed, oids[k]) then positions + [k] else positions
    ensures Tried(src, oids, k + 1, more)
  {
    hide Left, Available;
    LeftIsSame(src, oids[..k], cache, streamed, oids[k]);
    assert forall p :: p in positions ==> p in more;
  }

  /** What is known after k commits. As long as the run is clear it follows the unhindered walk; then there is none. */
  ghost predicate Progress(src: Sources, late: nat -> bool, oids: seq<Oid>, k: nat, started: bool, clear: bool,
                           applied: seq<CommitEvent>, cache: map<Oid, CommitEvent>, streamed: map<Oid, CommitEvent>,
                           positions: seq<nat>)
  {
    && k <= |oids|
    && (clear ==> Unhindered(src, late, oids[..k], applied) && cache == Remembered(src, applied))
    && (started && !clear ==> !CanFinish(src, late, oids))
    && Left(src, oids[..k], cache, streamed)
    && FromWalk(oids[..k], applied, positions) && Tried(src, oids, k, positions)
    && forall j :: 0 <= j < k ==> !late(j)
  }

  lemma ProgressStarts(src: Sources, late: nat -> bool, oids: seq<Oid>, clear: bool)
    ensures Progress(src, late, oids, 0, clear, clear, [], src.cache, src.streamed, [])
  {
    NothingHindered(src, late, oids);
    NothingUsed(src, oids);
    assert Remembered(src, []) == src.cache;
  }

  lemma ProgressStops(src: Sources, late: nat -> bool, oids: seq<Oid>, k: nat, started: bool, clear: bool,
                      applied: seq<CommitEvent>, cache: map<Oid, CommitEvent>, streamed: map<Oid, CommitEvent>,
                      positions: seq<nat>)
    requires Progress(src, late, oids, k, started, clear, applied, cache, streamed, positions) && k < |oids|
    requires late(k) || DeltaCount(applied) >= src.limits.maxTotalDeltas
    ensures Progress(src, late, oids, k, started, false, applied, cache, streamed, positions)
  {
    hide Unhindered, CanFinish, Left, FromWalk, Tried, Remembered, NextEvent;
    if clear {
      UnhinderedLength(src, late, oids[..k], applied);
      BlockedHere(src, late, oids, k, applied);
    }
  }

  lemma UnhinderedLength(src: Sources, late: nat -> bool, oids: seq<Oid>, events: seq<CommitEvent>)
    requires Unhindered(src, late, oids, events)
    ensures |events| == |oids|
  {
  }

  lemma ProgressMisses(src: Sources, late: nat -> bool, oids: seq<Oid>, k: nat, started: bool, clear: bool,
                       applied: seq<CommitEvent>, cache: map<Oid, CommitEvent>, streamed: map<Oid, CommitEvent>,
                       streamed': map<Oid, CommitEvent>, positions: seq<nat>)
    requires Progress(src, late, oids, k, started, clear, applied, cache, streamed, positions) && k < |oids| && !late(k)
    requires !Available(src.repo, src.limits, cache, streamed, oids[k])
    requires streamed' == streamed - if IsMerge(src.repo, oids[k]) || oids[k] in cache then {} else {oids[k]}
    ensures Progress(src, late, oids, k + 1, started, false, applied, cache, streamed', positions)
  {
    hide Unhindered, CanFinish, Left, FromWalk, Tried, Remembered, Clear, Available;
    if clear {
      UnhinderedLength(src, late, oids[..k], applied);
      MissingBlocks(src, late, oids, applied, cache, streamed);
      BlockedHere(src, late, oids, k, applied);
    }
    LeftOneMore(src, oids, k, cache, streamed, cache, streamed');
    FromLongerWalk(oids[..k + 1], k, k + 1, applied, positions) by {
      assert oids[..k + 1][..k] == oids[..k];
    }
    assert oids[..k + 1][..k + 1] == oids[..k + 1];
    TriedOneMore(src, oids, k, positions, positions, cache, streamed);
  }

  lemma ProgressApplies(src: Sources, late: nat -> bool, oids: seq<Oid>, k: nat, started: bool, clear: bool,
                        applied: seq<CommitEvent>, cache: map<Oid, CommitEvent>, streamed: map<Oid, CommitEvent>,
                        positions: seq<nat>, e: CommitEvent, kept: CommitEvent, clear': bool,
                        cache': map<Oid, CommitEvent>, streamed': map<Oid, CommitEvent>)
    requires Progress(src, late, oids, k, started, clear, applied, cache, streamed, positions) && k < |oids| && !late(k)
    requires Available(src.repo, src.limits, cache, streamed, oids[k]) && kept.oid == oids[k]
    requires streamed' == streamed - if IsMerge(src.repo, oids[k]) || oids[k] in cache then {} else {oids[k]}
    requires cache' == cache || cache' == cache[oids[k] := kept]
    requires clear && |applied| < |oids| ==> (Clear(src, late, oids, applied) <==> clear')
    requires clear && clear' && |applied| < |oids| ==>
               && kept == e && NextEvent(src, oids, applied) == Some(e)
               && cache' == if src.useEventCache then cache[e.oid := e] else cache
    requires clear' ==> clear
    ensures Progress(src, late, oids, k + 1, started, clear', applied + [kept], cache', streamed', positions + [k])
  {
    hide Unhindered, CanFinish, Left, FromWalk, Tried, Remembered, Clear, Available, NextEvent;
    if clear {
      UnhinderedLength(src, late, oids[..k], applied);
      if clear' {
        UnhinderedStep(src, late, oids, k, applied);
        RememberedStep(src, applied, e);
      } else {
        BlockedHere(src, late, oids, k, applied);
      }
    }
    LeftOneMore(src, oids, k, cache, streamed, cache', streamed');
    FromWalkStep(oids, k, applied, kept, positions);
    TriedOneMore(src, oids, k, positions, positions + [k], cache, streamed);
  }

  lemma FollowsProgress(src: Sources, late: nat -> bool, oids: seq<Oid>, k: nat, started: bool,
                        applied: seq<CommitEvent>, cache: map<Oid, CommitEvent>, streamed: map<Oid, CommitEvent>,
                        positions: seq<nat>)
    requires Progress(src, late, oids, k, started, true, applied, cache, streamed, positions)
    ensures |applied| == k && cache == Remembered(src, applied) && Left(src, oids[..k], cache, streamed)
  {
    hide Left, FromWalk, Tried, Remembered, CanFinish;
  }

  lemma ProgressEnds(src: Sources, late: nat -> bool, oids: seq<Oid>, k: nat, started: bool, clear: bool,
                     applied: seq<CommitEvent>, cache: map<Oid, CommitEvent>, streamed: map<Oid, CommitEvent>,
                     positions: seq<nat>)
    requires Progress(src, late, oids, k, started, clear, applied, cache, streamed, positions)
    requires (clear ==> started) && (k < |oids| ==> !clear)
    ensures clear <==> started && CanFinish(src, late, oids)
    ensures clear ==> Unhindered(src, late, oids, applied)
    ensures FromWalk(oids, applied, positions) && Tried(src, oids, k, positions)
    ensures forall j :: 0 <= j < k ==> !late(j)
  {
    hide Unhindered, Left, FromWalk, Tried, Remembered;
    FromLongerWalk(oids, k, |oids|, applied, positions);
    assert oids[..|oids|] == oids;
  }

  // ---------- Small facts for the processor ----------

  lemma DeliveredKeeps(repo: Repo, limits: Limits, names: set<Path>, cache: map<Oid, CommitEvent>,
                       streamed: map<Oid, CommitEvent>, oid: Oid, before: Stats, e: Option<CommitEvent>, after: Stats)
    requires DeliveredAs(repo, limits, names, cache, streamed, oid, before, e, after)
    ensures (before.partial ==> after.partial) && after.totalDeltas == before.totalDeltas
  {
    hide Kept, WithinCaps, NameAppears;
  }

  lemma ResolvedKeeps(repo: Repo, limits: Limits, names: set<Path>, oid: Oid, e: CommitEvent, before: Stats,
                      e': CommitEvent, after: Stats)
    requires ResolvedAs(repo, limits, names, oid, e, before, e', after)
    ensures (before.partial ==> after.partial) && after.totalDeltas == before.totalDeltas
    ensures Refused(limits, names, e, before.partial) ==> after.partial
  {
    hide Kept, WithinCaps, NameAppears;
  }

  lemma CachedIsIntact(repo: Repo, cache: map<Oid, CommitEvent>, oid: Oid)
    requires AllIntact(repo, cache) && oid in cache
    ensures cache[oid].oid == oid && Intact(repo, oid, cache[oid])
  {
  }

  lemma MergeIsIntact(repo: Repo, oid: Oid)
    requires IsMerge(repo, oid)
    ensures Intact(repo, oid, EventFrom(repo, oid, [], true))
  {
  }

  lemma AnalyzedIsIntact(repo: Repo, limits: Limits, names: set<Path>, oid: Oid, before: Stats, e: CommitEvent,
                         after: Stats)
    requires CoherentRepo(repo) && Diffed(repo, oid) && !repo[oid].merge
    requires AnalyzedAs(repo, limits, names, oid, before, e, after) && !after.partial
    ensures Intact(repo, oid, e)
  {
    hide WithinCaps, Kept, NameAppears, ShowsPlain, ShowsResolved;
    CoherentAt(repo, oid);
    WholeIffWithin(repo[oid].diff.value, limits);
    if Detected(repo, oid) {
      WholeIffWithin(repo[oid].similar.value, limits);
    }
  }

  lemma ReadIsIntact(repo: Repo, limits: Limits, oid: Oid, before: Stats, e: CommitEvent, after: Stats)
    requires CoherentRepo(repo) && Detected(repo, oid) && ReadAs(repo, limits, oid, before, e, after)
    ensures e.oid == oid && e.renamesResolved && (!after.partial && !repo[oid].merge ==> Intact(repo, oid, e))
  {
    hide WithinCaps, Kept, ShowsPlain, ShowsResolved;
    CoherentAt(repo, oid);
    WholeIffWithin(repo[oid].similar.value, limits);
  }

  lemma IntactKnown(repo: Repo, oid: Oid, e: CommitEvent)
    requires Intact(repo, oid, e)
    ensures oid in repo && (repo[oid].merge ==> e.deltas == [])
  {
  }

  /** A merge's empty event asks for nothing. */
  lemma NothingAppears(names: set<Path>)
    ensures !NameAppears([], names)
  {
  }

  class HistoryProcessor {
    const repo: Repo
    const limits: Limits
    const useEventCache: bool
    ghost const wanted: set<Path>
    var cache: map<Oid, CommitEvent>
    var streamed: map<Oid, CommitEvent>
    var aliases: Aliases
    var acc: map<Path, Acc>
    var stats: Stats
    var complete: bool
    ghost var applied: seq<CommitEvent>

    /** Ownership and accounts follow the applied events, which obey every cap. */
    ghost predicate Valid()
      reads this
    {
      && Owns(aliases, NamesAfter(wanted, applied))
      && Accounts(acc, wanted, applied)
      && Bookkept(repo, limits, stats, cache, applied)
      && Filed(streamed) && (!stats.partial ==> AllIntact(repo, streamed))
      && CoherentRepo(repo)
    }

    lemma OwnedNames()
      requires Valid()
      ensures aliases.Keys == CurrentNames(wanted, applied)
    {
      AliasesAreCurrent(aliases, wanted, applied);
    }

    lemma ValidTotal()
      requires Valid()
      ensures stats.totalDeltas == DeltaCount(applied) && CoherentRepo(repo)
    {
      hide Owns, Accounts, AllWithinCaps, Filed, AllIntact, CoherentRepo;
    }

    constructor (src: Sources, stats: Stats, complete: bool)
      requires CoherentRepo(src.repo) && AllIntact(src.repo, src.cache)
      requires Filed(src.streamed) && (!stats.partial ==> AllIntact(src.repo, src.streamed))
      requires stats.totalDeltas == 0 && (stats.deltasOmitted > 0 ==> stats.partial)
      ensures Valid() && applied == []
      ensures Sources(repo, limits, useEventCache, wanted, cache, streamed) == src
      ensures this.stats == stats && this.complete == complete
    {
      repo, limits, useEventCache, wanted := src.repo, src.limits, src.useEventCache, src.wanted;
      cache, streamed, this.stats, this.complete := src.cache, src.streamed, stats, complete;
      aliases := map p | p in src.wanted :: {p};
      acc, applied := map[], [];
      new;
      StartsOwned(wanted);
    }

    method LimitReached(deadlineReached: bool) returns (reached: bool)
      requires Valid()
      modifies this`stats, this`complete
      ensures Valid()
      ensures reached <==> deadlineReached || old(stats).totalDeltas >= limits.maxTotalDeltas
      ensures reached ==> !complete && stats == old(stats).(partial := true)
      ensures !reached ==> complete == old(complete) && stats == old(stats)
    {
      hide Owns, Accounts, AllIntact, AllWithinCaps, Filed, CoherentRepo;
      if deadlineReached || stats.totalDeltas >= limits.maxTotalDeltas {
        complete := false;
        stats := stats.(partial := true);
        return true;
      }
      return false;
    }

    /** libgit2 analysis of one commit, with a rename probe when a wanted name appears. */
    method AnalyzeCommit(oid: Oid) returns (event: Option<CommitEvent>)
      requires Valid()
      modifies this`stats
      ensures Valid()
      ensures event.Some? <==> Diffed(repo, oid)
      ensures event.Some? ==>
                event.value.oid == oid && AnalyzedAs(repo, limits, aliases.Keys, oid, old(stats), event.value, stats)
      ensures event.None? ==> stats == old(stats)
    {
      hide Owns, Accounts, AllIntact, AllWithinCaps, Filed, CoherentRepo, NameAppears, Kept;
      if oid !in repo || repo[oid].diff.None? {
        return None;
      }
      var diff := repo[oid].diff.value;
      var stats1 := stats.(treeDiffs := stats.treeDiffs + 1);
      var deltas: seq<Delta>;
      deltas, stats1 := CachedDeltas(diff, limits, stats1);
      var resolved := false;
      if !stats1.partial && NeedsRenameResolution(deltas, aliases) && |deltas| <= limits.maxDeltasPerCommit {
        stats1 := stats1.(renameProbes := stats1.renameProbes + 1);
        if repo[oid].similar.Some? {
          deltas, stats1 := CachedDeltas(repo[oid].similar.value, limits, stats1);
          resolved := true;
        }
      }
      stats := stats1;
      return Some(EventFrom(repo, oid, deltas, resolved));
    }

    method EventFor(oid: Oid) returns (event: Option<CommitEvent>)
      requires Valid()
      modifies this`stats, this`complete, this`streamed
      ensures Valid()
      ensures DeliveredAs(repo, limits, aliases.Keys, cache, old(streamed), oid, old(stats), event, stats)
      ensures streamed == old(streamed) - if IsMerge(repo, oid) || oid in cache then {} else {oid}
      ensures complete <==> old(complete) && event.Some?
      ensures event.Some? <==> Available(repo, limits, cache, old(streamed), oid)
      ensures event.Some? ==> event.value.oid == oid && (!stats.partial ==> Intact(repo, oid, event.value))
    {
      hide Owns, Accounts, AllWithinCaps, CoherentRepo, AnalyzedAs, Intact;
      if oid in repo && repo[oid].merge {
        if !repo[oid].found {
          complete := false;
          return None;
        }
        // The change was authored on the merged branch and is counted there.
        MergeIsIntact(repo, oid);
        return Some(EventFrom(repo, oid, [], true));
      }
      if oid in cache {
        stats := stats.(eventHits := stats.eventHits + 1);
        CachedIsIntact(repo, cache, oid);
        return Some(cache[oid]);
      }
      if oid in streamed {
        event := Some(streamed[oid]);
        streamed := streamed - {oid};
        return;
      }
      if limits.skipLibgit2Fallback {
        complete := false;
        stats := stats.(partial := true);
        return None;
      }
      event := AnalyzeCommit(oid);
      if event.None? {
        complete := false;
      } else if !stats.partial {
        AnalyzedIsIntact(repo, limits, aliases.Keys, oid, old(stats), event.value, stats);
      }
    }

    /** Fails exactly when the commit, its diff or similarity detection is not to be had. */
    method ResolveCommitRenames(oid: Oid) returns (event: Option<CommitEvent>)
      requires Valid()
      modifies this`stats
      ensures Valid()
      ensures event.Some? <==> Detected(repo, oid) && Diffed(repo, oid)
      ensures var asked := if Diffed(repo, oid) then
                             old(stats).(treeDiffs := old(stats).treeDiffs + 1,
                                         renameProbes := old(stats).renameProbes + 1)
                           else old(stats);
              if event.Some? then ReadAs(repo, limits, oid, asked, event.value, stats) else stats == asked
    {
      hide Owns, Accounts, AllIntact, AllWithinCaps, Filed, CoherentRepo, Kept;
      if oid !in repo || repo[oid].diff.None? {
        return None;
      }
      stats := stats.(treeDiffs := stats.treeDiffs + 1, renameProbes := stats.renameProbes + 1);
      if repo[oid].similar.None? {
        return None;
      }
      var deltas, stats1 := CachedDeltas(repo[oid].similar.value, limits, stats);
      stats := stats1;
      return Some(EventFrom(repo, oid, deltas, true));
    }

    /**
     * Renames are resolved when an owned name appears. Without the means to it the run is marked, but a detection
     * that fails leaves the event as it was and marks nothing: that happens exactly when the commit has no answer.
     */
    method ResolveRenames(oid: Oid, event: CommitEvent) returns (event': CommitEvent)
      requires Valid() && (!stats.partial ==> Intact(repo, oid, event)) && event.oid == oid
      modifies this`stats, this`complete
      ensures Valid() && event'.oid == oid
      ensures ResolvedAs(repo, limits, aliases.Keys, oid, event, old(stats), event', stats)
      ensures complete <==> old(complete) && !Refused(limits, aliases.Keys, event, old(stats).partial)
      ensures !stats.partial ==> Intact(repo, oid, event') && Settled(repo, oid, event', aliases.Keys)
    {
      hide Owns, Accounts, AllIntact, AllWithinCaps, Filed, ShowsPlain, ShowsResolved, NameAppears, CoherentRepo;
      hide ReadAs;
      event' := event;
      var needed := !event.renamesResolved && NeedsRenameResolution(event.deltas, aliases);
      if !needed {
        return;
      }
      if limits.skipLibgit2Fallback || stats.partial {
        complete := false;
        stats := stats.(partial := true);
      } else {
        NothingAppears(aliases.Keys);
        IntactKnown(repo, oid, event);
        CoherentAt(repo, oid);
        ghost var before := if Diffed(repo, oid) then
                              stats.(treeDiffs := stats.treeDiffs + 1, renameProbes := stats.renameProbes + 1)
                            else stats;
        var resolved := ResolveCommitRenames(oid);
        if resolved.Some? {
          event' := resolved.value;
          ReadIsIntact(repo, limits, oid, before, event', stats);
        }
      }
    }
  
    /** Cap one event, remember it if nothing was lost so far, and apply it. */
    method ApplyBounded(oid: Oid, event: CommitEvent)
      requires Valid() && (!stats.partial ==> Intact(repo, oid, event))
      modifies this`stats, this`complete, this`cache, this`aliases, this`acc, this`applied
      ensures Valid()
      ensures var whole := FitsWhole(limits, old(stats).totalDeltas, event);
              && complete == (old(complete) && whole)
              && stats.partial == (old(stats).partial || !whole)
      ensures var kept := event.(deltas := Kept(event.deltas, limits, Room(limits, old(stats).totalDeltas)));
              && applied == old(applied) + [kept] && (!stats.partial ==> kept == event)
              && stats.deltasOmitted == old(stats).deltasOmitted + |event.deltas| - |kept.deltas|
              && cache == if useEventCache && !stats.partial then old(cache)[event.oid := kept] else old(cache)
    {
      hide Owns, Accounts, Intact, NamesAfter, AllIntact, AllWithinCaps, Filed, CoherentRepo, Kept, WithinCaps;
      hide DeltaCount;
      var bounded, stats1, ok := EnforceEventLimits(event, limits, stats);
      var cache1 := if useEventCache && !stats1.partial then cache[bounded.oid := bounded] else cache;
      var aliases1, acc1 := ApplyEvent(bounded, aliases, acc, wanted, applied);
      BoundedStep(repo, limits, oid, event, bounded, stats, stats1, cache, cache1, applied);
      stats, cache, aliases, acc := stats1, cache1, aliases1, acc1;
      complete := complete && ok;
      applied := applied + [bounded];
    }
  
    /** One commit of the walk: found, resolved, capped, remembered and applied, or passed over. */
    method Advance(oid: Oid, ghost src: Sources, ghost late: nat -> bool, ghost oids: seq<Oid>, ghost k: nat,
                   ghost started: bool, ghost positions: seq<nat>)
      returns (ghost positions': seq<nat>)
      requires Valid() && k < |oids| && oids[k] == oid && !late(k) && stats.totalDeltas < limits.maxTotalDeltas
      requires src == Sources(repo, limits, useEventCache, wanted, src.cache, src.streamed)
      requires Progress(src, late, oids, k, started, complete && !stats.partial, applied, cache, streamed, positions)
      modifies this
      ensures Valid() && (old(stats).partial ==> stats.partial) && (complete ==> old(complete))
      ensures Progress(src, late, oids, k + 1, started, complete && !stats.partial, applied, cache, streamed,
                       positions')
    {
      hide *;
      ghost var clear, applied0, cache0, streamed0 := complete && !stats.partial, applied, cache, streamed;
      ghost var before := stats;
      var sourced := EventFor(oid);
      ghost var middle := stats;
      DeliveredKeeps(repo, limits, aliases.Keys, cache, streamed0, oid, before, sourced, middle);
      if sourced.None? {
        ProgressMisses(src, late, oids, k, started, clear, applied, cache, streamed0, streamed, positions);
        return positions;
      }
      OwnedNames();
      ValidTotal();
      var resolved := ResolveRenames(oid, sourced.value);
      ghost var after := stats;
      ResolvedKeeps(repo, limits, aliases.Keys, oid, sourced.value, middle, resolved, after);
      ApplyBounded(oid, resolved);
      ghost var kept := applied[|applied0|];
      if clear {
        FollowsProgress(src, late, oids, k, started, applied0, cache0, streamed0, positions);
        ClearIffUnmarked(src, late, oids, applied0, cache0, streamed0, before, sourced.value, middle, resolved, after);
      }
      ProgressApplies(src, late, oids, k, started, clear, applied0, cache0, streamed0, positions, resolved, kept,
                      complete && !stats.partial, cache, streamed);
      return positions + [k];
    }

    /**
     * The walk. A run ends complete and unmarked if and only if nothing stands in its way, and it has then applied
     * the whole event of every commit. Any run applies events of walked commits only, in walk order, and of every
     * commit some source had an event for, until a deadline or the total stops it.
     */
    method Process(oids: seq<Oid>, deadlineReached: nat -> bool) returns (ghost positions: seq<nat>, ghost stop: nat)
      requires Valid() && applied == []
      modifies this
      ensures Valid()
      ensures (old(stats).partial ==> stats.partial) && (complete ==> old(complete))
      ensures var src := Sources(repo, limits, useEventCache, wanted, old(cache), old(streamed));
              && (complete && !stats.partial <==>
                    old(complete) && !old(stats).partial && CanFinish(src, deadlineReached, oids))
              && (complete && !stats.partial ==> Unhindered(src, deadlineReached, oids, applied))
              && FromWalk(oids, applied, positions) && Tried(src, oids, stop, positions)
      ensures forall k :: 0 <= k < stop ==> !deadlineReached(k)
      ensures stop == |oids| || deadlineReached(stop) || stats.totalDeltas >= limits.maxTotalDeltas
    {
      hide *;
      ghost var src := Sources(repo, limits, useEventCache, wanted, cache, streamed);
      ghost var started := complete && !stats.partial;
      ProgressStarts(src, deadlineReached, oids, started);
      positions := [];
      var k := 0;
      while k < |oids|
        invariant src == Sources(repo, limits, useEventCache, wanted, src.cache, src.streamed)
        invariant k <= |oids| && Valid() && (old(stats).partial ==> stats.partial) && (complete ==> old(complete))
        invariant Progress(src, deadlineReached, oids, k, started, complete && !stats.partial, applied, cache, streamed,
                           positions)
      {
        ghost var clear := complete && !stats.partial;
        var reached := LimitReached(deadlineReached(k));
        if reached {
          ValidTotal();
          ProgressStops(src, deadlineReached, oids, k, started, clear, applied, cache, streamed, positions);
          break;
        }
        positions := Advance(oids[k], src, deadlineReached, oids, k, started, positions);
        k := k + 1;
        if stats.partial && stats.totalDeltas >= limits.maxTotalDeltas {
          break;
        }
      }
      stop := k;
      ProgressEnds(src, deadlineReached, oids, k, started, complete && !stats.partial, applied, cache, streamed,
                   positions);
    }
  }
}
