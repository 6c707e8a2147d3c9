/**
 * Collecting churn through the view and event caches, once and over any sequence of collections
 * (src/git.rs, src/git/churn_cache.rs).
 */
module ChurnCollect {
  import opened Orders
  import opened Lineage
  import opened CommitChanges
  import opened EventLimits
  import opened WalkEvents
  import opened HistoryWalk
  import opened ChurnReference
  import opened ChurnExamples

  const MAX_VIEWS := 8

  /** Everything the result depends on: head and history state fix the walk, the state alone fixes the commits. */
  datatype ViewId = ViewId(head: string, historyState: string, maxCommits: nat, wanted: set<Path>,
                           maxDeltasPerCommit: nat, maxTotalDeltas: nat, maxOutputBytes: nat, maxPathBytes: nat,
                           maxCacheBytes: nat)

  /** The commits of a repository with given shallow and graft files, and the walk from a head, whose reads may fail. */
  datatype World = World(repo: string -> Repo, walk: (string, string) -> seq<Option<Oid>>)

  ghost predicate CoherentWorld(world: World) {
    forall state :: CoherentRepo(world.repo(state))
  }

  // ---------- What an unmarked result means ----------

  function WalkLength(walk: seq<Option<Oid>>, maxCommits: nat): nat {
    if maxCommits == 0 || |walk| < maxCommits then |walk| else maxCommits
  }

  /** The newest commits, up to the commit limit. */
  ghost predicate Newest(walk: seq<Option<Oid>>, maxCommits: nat, oids: seq<Oid>) {
    |oids| == WalkLength(walk, maxCommits) && forall k :: 0 <= k < |oids| ==> walk[k] == Some(oids[k])
  }

  /**
   * The churn of the newest commits, all readable: what some faithful walk of them counts, and for every path that is
   * stable along its own lineage the churn of the commits themselves.
   */
  ghost predicate Exact(world: World, head: string, state: string, maxCommits: nat, wanted: set<Path>,
                        churn: map<Path, Churn>)
  {
    exists oids, events :: ExactFor(world, head, state, maxCommits, wanted, churn, oids, events)
  }

  ghost predicate ExactFor(world: World, head: string, state: string, maxCommits: nat, wanted: set<Path>,
                           churn: map<Path, Churn>, oids: seq<Oid>, events: seq<CommitEvent>)
  {
    && Newest(world.walk(head, state), maxCommits, oids) && Known(world.repo(state), oids)
    && Faithful(world.repo(state), wanted, oids, events) && ChurnOf(wanted, events, churn)
    && forall p :: p in wanted && StableAlong(world.repo(state), oids, p) ==>
         ChurnAt(churn, p) == ReferenceChurn(world.repo(state), oids, p)
  }

  lemma NewestUnique(walk: seq<Option<Oid>>, maxCommits: nat, a: seq<Oid>, b: seq<Oid>)
    requires Newest(walk, maxCommits, a) && Newest(walk, maxCommits, b)
    ensures a == b
  {
    forall k | 0 <= k < |a|
      ensures a[k] == b[k]
    {
      assert walk[k] == Some(a[k]) && walk[k] == Some(b[k]);
    }
  }

  lemma ExactAt(world: World, head: string, state: string, maxCommits: nat, wanted: set<Path>, churn: map<Path, Churn>,
                oids: seq<Oid>)
    requires Exact(world, head, state, maxCommits, wanted, churn) && Newest(world.walk(head, state), maxCommits, oids)
    ensures Known(world.repo(state), oids) && churn.Keys <= wanted
    ensures forall p :: p in wanted && StableAlong(world.repo(state), oids, p) ==>
              ChurnAt(churn, p) == ReferenceChurn(world.repo(state), oids, p)
  {
    hide ReferenceChurn, StableAlong, Newest, Faithful;
    var x, events :| ExactFor(world, head, state, maxCommits, wanted, churn, x, events);
    NewestUnique(world.walk(head, state), maxCommits, x, oids);
  }

  /**
   * What the entries of an exact result say. Each is the number of events of one faithful walk that touch the path, of
   * their authors, and the earliest and the latest of their times; at a stable path those are the commits that change
   * the path under the name it has there, and every path they change has an entry.
   */
  lemma ExactTells(world: World, head: string, state: string, maxCommits: nat, wanted: set<Path>,
                   churn: map<Path, Churn>, oids: seq<Oid>)
    returns (events: seq<CommitEvent>)
    requires Exact(world, head, state, maxCommits, wanted, churn) && Newest(world.walk(head, state), maxCommits, oids)
    ensures Known(world.repo(state), oids) && Faithful(world.repo(state), wanted, oids, events)
    ensures forall p :: p in churn <==> p in wanted && Touching(events, p) != []
    ensures forall p :: p in churn ==>
              var touching, entry := Touching(events, p), churn[p];
              && entry.commits == |touching|
              && entry.authors == |AuthorsOf(touching)| <= entry.commits
              && entry.first.Some? && entry.last.Some? && entry.first.value <= entry.last.value
              && (exists e :: e in touching && e.seconds == entry.first.value)
              && (exists e :: e in touching && e.seconds == entry.last.value)
              && (forall e :: e in touching ==> entry.first.value <= e.seconds <= entry.last.value)
    ensures forall p :: p in wanted && StableAlong(world.repo(state), oids, p) ==>
              var commits := CommitsOf(world.repo(state), oids, p);
              && (p in churn <==> commits != [])
              && (p in churn ==> Tells(churn[p], commits))
  {
    hide StableAlong, Newest, Faithful, CommitsOf, Touching;
    var x;
    x, events :| ExactFor(world, head, state, maxCommits, wanted, churn, x, events);
    NewestUnique(world.walk(head, state), maxCommits, x, oids);
    forall p | p in churn
      ensures churn[p].authors <= churn[p].commits
      ensures churn[p].first.Some? && churn[p].last.Some? && churn[p].first.value <= churn[p].last.value
    {
      TellsInOrder(churn[p], Touching(events, p));
    }
    forall p | p in wanted && StableAlong(world.repo(state), oids, p)
      ensures p in churn <==> CommitsOf(world.repo(state), oids, p) != []
      ensures p in churn ==> Tells(churn[p], CommitsOf(world.repo(state), oids, p))
    {
      assert ChurnAt(churn, p) == ReferenceChurn(world.repo(state), oids, p);
    }
  }

  /**
   * Two exact results for the same commits and paths agree at every path that is stable along its own lineage,
   * whatever limits, caches and sources they came from; if all wanted paths are, they are equal.
   */
  lemma ExactResultsAgree(world: World, head: string, state: string, maxCommits: nat, wanted: set<Path>,
                          a: map<Path, Churn>, b: map<Path, Churn>, oids: seq<Oid>)
    requires Exact(world, head, state, maxCommits, wanted, a) && Exact(world, head, state, maxCommits, wanted, b)
    requires Newest(world.walk(head, state), maxCommits, oids)
    ensures Known(world.repo(state), oids)
    ensures forall p :: p in wanted && StableAlong(world.repo(state), oids, p) ==> ChurnAt(a, p) == ChurnAt(b, p)
    ensures (forall p :: p in wanted ==> StableAlong(world.repo(state), oids, p)) ==> a == b
  {
    hide Exact, ReferenceChurn, StableAlong, Newest;
    ExactAt(world, head, state, maxCommits, wanted, a, oids);
    ExactAt(world, head, state, maxCommits, wanted, b, oids);
    if forall p :: p in wanted ==> StableAlong(world.repo(state), oids, p) {
      forall p
        ensures p in a <==> p in b
        ensures p in a && p in b ==> a[p] == b[p]
      {
        assert p in wanted ==> ChurnAt(a, p) == ChurnAt(b, p);
      }
    }
  }

  // ---------- The caches ----------

  datatype ViewEntry = ViewEntry(identity: ViewId, churn: map<Path, Churn>)

  ghost predicate SoundView(world: World, v: ViewEntry) {
    Exact(world, v.identity.head, v.identity.historyState, v.identity.maxCommits, v.identity.wanted, v.churn)
  }

  ghost predicate SoundViews(world: World, views: seq<ViewEntry>) {
    forall v :: v in views ==> SoundView(world, v)
  }

  ghost predicate HasView(views: seq<ViewEntry>, identity: ViewId) {
    exists v :: v in views && v.identity == identity
  }

  /** The place of the first view of the identity, if there is one. */
  function Position(views: seq<ViewEntry>, identity: ViewId): (i: nat)
    ensures i <= |views|
  {
    if views == [] || views[0].identity == identity then 0 else 1 + Position(views[1..], identity)
  }

  lemma {:induction false} PositionIsFirst(views: seq<ViewEntry>, identity: ViewId)
    ensures var i := Position(views, identity);
            && (i < |views| ==> views[i].identity == identity)
            && forall j :: 0 <= j < i ==> views[j].identity != identity
  {
    if views != [] && views[0].identity != identity {
      PositionIsFirst(views[1..], identity);
      assert forall j :: 0 < j < |views| ==> views[j] == views[1..][j - 1];
    }
  }

  /** The views of other identities, in order. */
  function Others(views: seq<ViewEntry>, identity: ViewId): seq<ViewEntry> {
    if views == [] then []
    else
      var earlier, last := Others(views[..|views| - 1], identity), views[|views| - 1];
      if last.identity != identity then earlier + [last] else earlier
  }

  lemma {:induction false} OthersAre(views: seq<ViewEntry>, identity: ViewId)
    ensures forall v :: v in Others(views, identity) <==> v in views && v.identity != identity
  {
    if views != [] {
      OthersAre(views[..|views| - 1], identity);
      assert views == views[..|views| - 1] + [views[|views| - 1]];
    }
  }

  /** Taken apart anywhere, the views left out and kept are those of the parts, so their order is never changed. */
  lemma {:induction false} OthersJoin(a: seq<ViewEntry>, b: seq<ViewEntry>, identity: ViewId)
    ensures Others(a + b, identity) == Others(a, identity) + Others(b, identity)
  {
    if b == [] {
      assert a + b == a;
      NoOthers(identity);
    } else {
      hide Others;
      var front, last := b[..|b| - 1], b[|b| - 1];
      OthersJoin(a, front, identity);
      assert a + b == a + front + [last] && b == front + [last];
      OthersStep(a + front, last, identity);
      OthersStep(front, last, identity);
    }
  }

  lemma NoOthers(identity: ViewId)
    ensures Others([], identity) == []
  {
  }

  lemma OthersStep(views: seq<ViewEntry>, v: ViewEntry, identity: ViewId)
    ensures Others(views + [v], identity) == Others(views, identity) + if v.identity != identity then [v] else []
  {
    assert (views + [v])[..|views|] == views;
  }

  /** The events of one history state. */
  datatype StoredEvents = StoredEvents(historyState: string, events: map<Oid, CommitEvent>)

  function Loadable(stored: Option<StoredEvents>, state: string, readable: bool): map<Oid, CommitEvent> {
    if readable && stored.Some? && stored.value.historyState == state then stored.value.events else map[]
  }

  ghost predicate SoundEvents(world: World, stored: Option<StoredEvents>) {
    stored.Some? ==> AllIntact(world.repo(stored.value.historyState), stored.value.events)
  }

  /** The two cache files, as far as they can be read. */
  class ChurnDisk {
    var views: seq<ViewEntry>
    var events: Option<StoredEvents>

    constructor ()
      ensures views == [] && events == None
    {
      views, events := [], None;
    }
  }

  ghost predicate SoundDisk(world: World, views: seq<ViewEntry>, events: Option<StoredEvents>) {
    SoundViews(world, views) && SoundEvents(world, events)
  }

  class ChurnCache {
    const enabled: bool
    var views: seq<ViewEntry>
    var events: Option<map<Oid, CommitEvent>>
    var historyState: string
    var eventsDirty: bool
    var viewsDirty: bool

    constructor At(enabled: bool, disk: ChurnDisk, readable: bool)
      ensures this.enabled == enabled && events == None && !eventsDirty && !viewsDirty
      ensures views == if enabled && readable then disk.views else []
    {
      this.enabled := enabled;
      views := if enabled && readable then disk.views else [];
      events, historyState, eventsDirty, viewsDirty := None, "", false, false;
    }

    /** A hit moves to the front; the other entries keep their order. */
    method GetView(identity: ViewId) returns (r: Option<map<Path, Churn>>)
      modifies this`views, this`viewsDirty
      ensures r.Some? <==> enabled && HasView(old(views), identity)
      ensures r.None? ==> views == old(views) && viewsDirty == old(viewsDirty)
      ensures r.Some? ==>
                var i := Position(old(views), identity);
                && i < |old(views)| && old(views)[i].identity == identity && r.value == old(views)[i].churn
                && views == [old(views)[i]] + (old(views)[..i] + old(views)[i + 1..]) && viewsDirty == (i != 0)
      ensures forall v :: v in views <==> v in old(views)
    {
      if !enabled {
        return None;
      }
      var i := 0;
      while i < |views| && views[i].identity != identity
        invariant i <= |views| && Position(views, identity) == i + Position(views[i..], identity)
        invariant forall j :: 0 <= j < i ==> views[j].identity != identity
      {
        assert views[i..][1..] == views[i + 1..];
        i := i + 1;
      }
      if i == |views| {
        return None;
      }
      var entry := views[i];
      FrontKeepsEntries(views, i);
      views := [entry] + (views[..i] + views[i + 1..]);
      viewsDirty := i != 0;
      return Some(entry.churn);
    }

    /** The new view comes first, the others follow in their order without any of the same identity, eight in all. */
    method PutView(identity: ViewId, churn: map<Path, Churn>)
      modifies this`views, this`viewsDirty
      ensures views == if enabled then First([ViewEntry(identity, churn)] + Others(old(views), identity), MAX_VIEWS)
                       else old(views)
      ensures viewsDirty == (enabled || old(viewsDirty))
    {
      if !enabled {
        return;
      }
      var kept: seq<ViewEntry> := [];
      for k := 0 to |views|
        invariant views == old(views) && kept == Others(views[..k], identity)
      {
        assert views[..k + 1][..k] == views[..k];
        if views[k].identity != identity {
          kept := kept + [views[k]];
        }
      }
      assert views[..|views|] == views;
      var all := [ViewEntry(identity, churn)] + kept;
      views := if |all| <= MAX_VIEWS then all else all[..MAX_VIEWS];
      viewsDirty := true;
    }

    /** Events of another history state are not loaded. */
    method LoadEvents(state: string, disk: ChurnDisk, readable: bool)
      requires events.None?
      modifies this`events, this`historyState
      ensures !enabled ==> events == None && historyState == old(historyState)
      ensures enabled ==> historyState == state && events == Some(Loadable(disk.events, state, readable))
      ensures enabled ==>
                events == Some(match disk.events
                               case Some(stored) => if readable && stored.historyState == state then stored.events
                                                    else map[]
                               case None => map[])
    {
      if !enabled {
        return;
      }
      historyState := state;
      events := Some(if readable && disk.events.Some? && disk.events.value.historyState == state
                     then disk.events.value.events else map[]);
    }

    /** Only what changed is written, and a write that fails or is refused for its size leaves its file as it was. */
    method Save(disk: ChurnDisk, eventsWritable: bool, viewsWritable: bool)
      modifies this`eventsDirty, this`viewsDirty, disk
      ensures disk.events == (if enabled && old(eventsDirty) && eventsWritable
                              then Some(StoredEvents(historyState, if events.Some? then events.value else map[]))
                              else old(disk.events))
      ensures disk.views == (if enabled && old(viewsDirty) && viewsWritable then views else old(disk.views))
    {
      if !enabled {
        return;
      }
      if eventsDirty && eventsWritable {
        disk.events := Some(StoredEvents(historyState, if events.Some? then events.value else map[]));
        eventsDirty := false;
      }
      if viewsDirty && viewsWritable {
        disk.views := views;
        viewsDirty := false;
      }
    }
  }

  lemma FrontKeepsEntries<T>(s: seq<T>, i: nat)
    requires i < |s|
    ensures forall x :: x in [s[i]] + (s[..i] + s[i + 1..]) <==> x in s
  {
    assert s == s[..i] + [s[i]] + s[i + 1..];
  }

  // ---------- Walking ----------

  /** The readable entries. */
  function Listed(walk: seq<Option<Oid>>): (oids: seq<Oid>)
    ensures |oids| <= |walk|
    ensures (forall k :: 0 <= k < |walk| ==> walk[k].Some?) <==> |oids| == |walk|
    ensures |oids| == |walk| ==> forall k :: 0 <= k < |walk| ==> walk[k] == Some(oids[k])
  {
    if walk == [] then []
    else
      var earlier, last := Listed(walk[..|walk| - 1]), walk[|walk| - 1];
      assert walk == walk[..|walk| - 1] + [last];
      if last.Some? then earlier + [last.value] else earlier
  }

  /** The newest commits that can be read. */
  function NewestListed(walk: seq<Option<Oid>>, maxCommits: nat): seq<Oid> {
    Listed(walk[..WalkLength(walk, maxCommits)])
  }

  /** Every entry up to the limit is readable, and no deadline comes first. At the limit itself one still counts. */
  ghost predicate WalkedInTime(walk: seq<Option<Oid>>, maxCommits: nat, late: nat -> bool) {
    var n := WalkLength(walk, maxCommits);
    && (forall j :: 0 <= j < n ==> walk[j].Some? && !late(j))
    && (n < |walk| ==> !late(n))
  }

  predicate LimitMet(walk: seq<Option<Oid>>, maxCommits: nat, k: nat)
    requires k <= |walk|
  {
    maxCommits > 0 && |Listed(walk[..k])| >= maxCommits
  }

  /** The walk stops at the first deadline, at the commit limit or at its end, whichever is first. */
  ghost predicate StopsAt(walk: seq<Option<Oid>>, maxCommits: nat, late: nat -> bool, stop: nat) {
    && stop <= |walk|
    && (forall j :: 0 <= j < stop ==> !late(j) && !LimitMet(walk, maxCommits, j))
    && (stop < |walk| ==> late(stop) || LimitMet(walk, maxCommits, stop))
  }

  /** The readable entries up to where it stops; complete exactly when all were read in time. */
  method WalkHistory(walk: seq<Option<Oid>>, limits: Limits, deadlineReached: nat -> bool)
    returns (oids: seq<Oid>, complete: bool, partial: bool, ghost stop: nat)
    ensures StopsAt(walk, limits.maxCommits, deadlineReached, stop) && oids == Listed(walk[..stop])
    ensures partial <==> stop < |walk| && deadlineReached(stop)
    ensures complete <==> WalkedInTime(walk, limits.maxCommits, deadlineReached)
    ensures partial ==> !complete
    ensures complete ==> oids == NewestListed(walk, limits.maxCommits) && Newest(walk, limits.maxCommits, oids)
    ensures limits.maxCommits > 0 ==> |oids| <= limits.maxCommits
  {
    oids, complete, partial, stop := [], true, false, |walk|;
    for k := 0 to |walk|
      invariant !partial && stop == |walk| && oids == Listed(walk[..k])
      invariant complete <==> |oids| == k
      invariant forall j :: 0 <= j < k ==> !deadlineReached(j) && !LimitMet(walk, limits.maxCommits, j)
      invariant limits.maxCommits > 0 ==> |oids| <= limits.maxCommits
    {
      if deadlineReached(k) {
        complete, partial, stop := false, true, k;
        break;
      }
      if limits.maxCommits > 0 && |oids| >= limits.maxCommits {
        stop := k;
        break;
      }
      assert walk[..k + 1][..k] == walk[..k];
      match walk[k]
      case Some(oid) => oids := oids + [oid];
      case None => complete := false;
    }
    CompleteIffInTime(walk, limits.maxCommits, deadlineReached, stop);
  }

  lemma CompleteIffInTime(walk: seq<Option<Oid>>, maxCommits: nat, late: nat -> bool, stop: nat)
    requires StopsAt(walk, maxCommits, late, stop)
    ensures WalkedInTime(walk, maxCommits, late)
            <==> |Listed(walk[..stop])| == stop && !(stop < |walk| && late(stop))
    ensures WalkedInTime(walk, maxCommits, late) ==>
              stop == WalkLength(walk, maxCommits) && Newest(walk, maxCommits, Listed(walk[..stop]))
  {
    hide Listed;
    var n := WalkLength(walk, maxCommits);
    forall k | 0 <= k <= |walk|
      ensures |Listed(walk[..k])| <= k
      ensures |Listed(walk[..k])| == k <==> forall j :: 0 <= j < k ==> walk[j].Some?
    {
      ListedPrefix(walk, k);
    }
    ListedPrefix(walk, stop);
    if |Listed(walk[..stop])| == stop {
      ListedPrefix(walk, n);
      assert stop < |walk| && !late(stop) ==> maxCommits <= stop;
    }
  }

  lemma ListedPrefix(walk: seq<Option<Oid>>, k: nat)
    requires k <= |walk|
    ensures |Listed(walk[..k])| <= k
    ensures |Listed(walk[..k])| == k <==> forall j :: 0 <= j < k ==> walk[j].Some?
    ensures |Listed(walk[..k])| == k ==> forall j :: 0 <= j < k ==> walk[j] == Some(Listed(walk[..k])[j])
  {
    var some := walk[..k];
    assert forall j :: 0 <= j < k ==> some[j] == walk[j];
  }

  // ---------- Collecting ----------

  /** What the native Git stream delivered for the commits without a cached event. */
  datatype Native = Failed | Streamed(events: map<Oid, CommitEvent>, partial: bool, deltasOmitted: nat)

  /** An unmarked stream carries intact events; a stream that dropped anything is marked. */
  ghost predicate NativeContract(repo: Repo, native: Native) {
    native.Streamed? ==>
      && Filed(native.events)
      && (!native.partial ==> AllIntact(repo, native.events)) && (native.deltasOmitted > 0 ==> native.partial)
  }

  datatype Collection = Collection(churn: map<Path, Churn>, partial: bool, deltasOmitted: nat)

  const NOTHING := Collection(map[], false, 0)

  function Identity(head: string, state: string, limits: Limits, wanted: set<Path>): ViewId {
    ViewId(head, state, limits.maxCommits, wanted, limits.maxDeltasPerCommit, limits.maxTotalDeltas,
           limits.maxOutputBytes, limits.maxPathBytes, limits.maxCacheBytes)
  }

  /** A view is shared exactly by runs with the same head, history state, paths and limits, but for the fallback. */
  lemma SameViewIffSameRun(head: string, state: string, limits: Limits, wanted: set<Path>, head': string,
                           state': string, limits': Limits, wanted': set<Path>)
    ensures Identity(head, state, limits, wanted) == Identity(head', state', limits', wanted')
            <==> && head == head' && state == state' && wanted == wanted'
                 && limits.(skipLibgit2Fallback := false) == limits'.(skipLibgit2Fallback := false)
  {
  }

  method UncachedOids(repo: Repo, oids: seq<Oid>, cached: map<Oid, CommitEvent>) returns (uncached: seq<Oid>)
    ensures forall oid :: oid in uncached <==> oid in oids && !IsMerge(repo, oid) && oid !in cached
    ensures uncached == [] <==> AllCovered(repo, oids, cached)
  {
    uncached := [];
    for k := 0 to |oids|
      invariant forall oid :: oid in uncached <==> oid in oids[..k] && !IsMerge(repo, oid) && oid !in cached
    {
      if !(oids[k] in repo && repo[oids[k]].merge) && oids[k] !in cached {
        uncached := uncached + [oids[k]];
      }
    }
    assert uncached != [] ==> uncached[0] in uncached;
  }

  /** Every commit is a merge or has a cached event: the stream is not asked. */
  predicate AllCovered(repo: Repo, oids: seq<Oid>, cached: map<Oid, CommitEvent>) {
    forall oid :: oid in oids ==> IsMerge(repo, oid) || oid in cached
  }

  /** A failed stream hinders where there is no fallback, any other where it was cut. */
  predicate StreamHinders(native: Native, limits: Limits) {
    if native.Failed? then limits.skipLibgit2Fallback else native.partial
  }

  function StreamedEvents(native: Native): map<Oid, CommitEvent> {
    if native.Failed? then map[] else native.events
  }

  /** The events streamed for uncached commits and what the stream means for completeness. */
  method CollectStreamed(uncached: seq<Oid>, limits: Limits, native: Native, complete: bool, partial: bool)
    returns (events: map<Oid, CommitEvent>, stats: Stats, complete': bool)
    ensures uncached == [] ==> events == map[] && stats == NO_STATS.(partial := partial) && complete' == complete
    ensures uncached != [] ==>
              && events == StreamedEvents(native) && complete' == (complete && !StreamHinders(native, limits))
              && (complete' <==> complete && if native.Failed? then !limits.skipLibgit2Fallback else !native.partial)
              && stats == NO_STATS.(partial := partial || StreamHinders(native, limits),
                                    deltasOmitted := if native.Failed? then 0 else native.deltasOmitted)
  {
    events, stats, complete' := map[], NO_STATS.(partial := partial), complete;
    if uncached == [] {
      return;
    }
    match native
    case Failed =>
      if limits.skipLibgit2Fallback {
        stats := stats.(partial := true);
        complete' := false;
      }
    case Streamed(streamed, streamPartial, omitted) =>
      events := streamed;
      stats := stats.(partial := stats.partial || streamPartial, deltasOmitted := omitted);
      if streamPartial {
        complete' := false;
      }
  }

  /** What a replay draws on: the stream is asked only for commits that are not cached. */
  function ReplaySources(repo: Repo, limits: Limits, useEventCache: bool, wanted: set<Path>,
                         cached: map<Oid, CommitEvent>, native: Native, oids: seq<Oid>): Sources
  {
    Sources(repo, limits, useEventCache, wanted, cached,
            if AllCovered(repo, oids, cached) then map[] else StreamedEvents(native))
  }

  /**
   * Nothing stands in the way of a replay: the walk is read in time, the stream does not hinder, and the walk over what
   * is cached, streamed and readable loses nothing.
   */
  ghost predicate Succeeds(world: World, head: string, state: string, useEventCache: bool, wanted: set<Path>,
                           limits: Limits, cached: map<Oid, CommitEvent>, native: Native, walkDeadline: nat -> bool,
                           processDeadline: nat -> bool)
  {
    var repo, oids := world.repo(state), NewestListed(world.walk(head, state), limits.maxCommits);
    && WalkedInTime(world.walk(head, state), limits.maxCommits, walkDeadline)
    && (|| (forall oid :: oid in oids ==> IsMerge(repo, oid) || oid in cached)
        || (native.Failed? && !limits.skipLibgit2Fallback) || (native.Streamed? && !native.partial))
    && CanFinish(ReplaySources(repo, limits, useEventCache, wanted, cached, native, oids), processDeadline, oids)
  }

  lemma SucceedsIff(world: World, head: string, state: string, useEventCache: bool, wanted: set<Path>, limits: Limits,
                    cached: map<Oid, CommitEvent>, native: Native, walkDeadline: nat -> bool,
                    processDeadline: nat -> bool, oids: seq<Oid>, walked: bool)
    requires walked <==> WalkedInTime(world.walk(head, state), limits.maxCommits, walkDeadline)
    requires walked ==> oids == NewestListed(world.walk(head, state), limits.maxCommits)
    ensures Succeeds(world, head, state, useEventCache, wanted, limits, cached, native, walkDeadline, processDeadline)
            <==> && walked
                 && (AllCovered(world.repo(state), oids, cached) || !StreamHinders(native, limits))
                 && CanFinish(ReplaySources(world.repo(state), limits, useEventCache, wanted, cached, native, oids),
                              processDeadline, oids)
  {
    hide WalkedInTime, NewestListed, CanFinish, ReplaySources;
  }

  lemma SourcesOfReplay(repo: Repo, limits: Limits, useEventCache: bool, wanted: set<Path>,
                        cached: map<Oid, CommitEvent>, native: Native, oids: seq<Oid>)
    ensures ReplaySources(repo, limits, useEventCache, wanted, cached, native, oids)
         == Sources(repo, limits, useEventCache, wanted, cached,
                    if AllCovered(repo, oids, cached) then map[] else StreamedEvents(native))
  {
  }

  /**
   * Walk, stream the uncached events and process the walk: complete and unmarked, and then exact, iff nothing
   * hinders.
   */
  method ReplayHistory(world: World, head: string, state: string, useEventCache: bool, wanted: set<Path>,
                       limits: Limits, cached: map<Oid, CommitEvent>, native: Native, walkDeadline: nat -> bool,
                       processDeadline: nat -> bool)
    returns (churn: map<Path, Churn>, events: map<Oid, CommitEvent>, stats: Stats, complete: bool)
    requires CoherentWorld(world) && AllIntact(world.repo(state), cached) && NativeContract(world.repo(state), native)
    ensures AllIntact(world.repo(state), events) && (stats.deltasOmitted > 0 ==> stats.partial)
    ensures stats.totalDeltas <= limits.maxTotalDeltas && churn.Keys <= wanted
    ensures complete && !stats.partial
            <==> Succeeds(world, head, state, useEventCache, wanted, limits, cached, native, walkDeadline,
                          processDeadline)
    ensures complete && !stats.partial ==> Exact(world, head, state, limits.maxCommits, wanted, churn)
  {
    hide *;
    var repo := world.repo(state);
    var oids, walked, late, stop := WalkHistory(world.walk(head, state), limits, walkDeadline);
    var uncached := UncachedOids(repo, oids, cached);
    var streamed, streamStats, ready := CollectStreamed(uncached, limits, native, walked, late);
    StreamIsSound(world, state, native, limits);
    SourcesOfReplay(repo, limits, useEventCache, wanted, cached, native, oids);
    var src := Sources(repo, limits, useEventCache, wanted, cached, streamed);
    var processor := new HistoryProcessor(src, streamStats, ready);
    ghost var positions, _ := processor.Process(oids, processDeadline);
    churn, events, stats, complete := FinishChurn(processor.acc), processor.cache, processor.stats, processor.complete;
    ProcessorFinished(processor, churn);
    SucceedsIff(world, head, state, useEventCache, wanted, limits, cached, native, walkDeadline, processDeadline, oids,
                walked);
    if complete && !stats.partial {
      UnhinderedIsFaithful(src, processDeadline, oids, processor.applied);
      CompleteIsExact(world, head, state, limits.maxCommits, oids, wanted, processor.applied, churn);
    }
  }

  function FinishChurn(acc: map<Path, Acc>): map<Path, Churn> {
    map p | p in acc :: FinishAcc(acc[p])
  }

  /**
   * Through a cache just opened, as every caller passes one. Without a head, without files, or without a walk and a
   * stored view, the result is empty and unmarked. A stored view is never marked; a replay is unmarked exactly when
   * nothing hinders it. Any such result is exact and, if it may be, stored.
   */
  method Collect(world: World, head: Option<string>, state: string, cacheable: bool, walkStarts: bool, files: seq<Path>,
                 limits: Limits, cache: ChurnCache, disk: ChurnDisk, eventsReadable: bool, native: Native,
                 walkDeadline: nat -> bool, processDeadline: nat -> bool, eventsWritable: bool, viewsWritable: bool)
    returns (r: Collection)
    requires CoherentWorld(world) && NativeContract(world.repo(state), native)
    requires cache.events.None? && !cache.eventsDirty
    requires SoundViews(world, cache.views) && SoundDisk(world, disk.views, disk.events)
    modifies cache, disk
    ensures SoundViews(world, cache.views) && SoundDisk(world, disk.views, disk.events)
    ensures head.None? || files == [] ==> r == NOTHING
    ensures head.Some? && files != [] ==>
              var wanted := Elements(files);
              var identity := Identity(head.value, state, limits, wanted);
              var used := cacheable && cache.enabled;
              var loaded := if used then Loadable(old(disk.events), state, eventsReadable) else map[];
              var hit := used && HasView(old(cache.views), identity);
              && (!walkStarts && !hit ==> r == NOTHING)
              && (hit ==> !r.partial)
              && (walkStarts && !hit ==>
                    (!r.partial <==>
                       Succeeds(world, head.value, state, used, wanted, limits, loaded, native, walkDeadline,
                                processDeadline)))
              && ((walkStarts || hit) && !r.partial ==>
                    && Exact(world, head.value, state, limits.maxCommits, wanted, r.churn)
                    && (used ==> ViewEntry(identity, r.churn) in cache.views))
    ensures r.deltasOmitted > 0 ==> r.partial
    ensures head.None? || !cacheable ==>
              cache.views == old(cache.views) && disk.views == old(disk.views) && disk.events == old(disk.events)
  {
    hide Exact, AllIntact, SoundViews, SoundEvents, NativeContract, HasView, CoherentRepo, Succeeds, Others, Position;
    hide Loadable, Elements;
    var wanted := Elements(files);
    EmptyElements(files);
    if head.None? || wanted == {} {
      return NOTHING;
    }
    var identity := Identity(head.value, state, limits, wanted);
    if cacheable {
      var hit := cache.GetView(identity);
      SameViewsSound(world, old(cache.views), cache.views);
      if hit.Some? {
        HitIsExact(world, old(cache.views), identity, hit.value);
        cache.Save(disk, eventsWritable, viewsWritable);
        return Collection(hit.value, false, 0);
      }
      cache.LoadEvents(state, disk, eventsReadable);
    }
    if !walkStarts {
      return NOTHING;
    }
    var cached := if cache.events.Some? then cache.events.value else map[];
    LoadedIsIntact(world, disk.events, state, eventsReadable);
    var churn, events, stats, complete :=
      ReplayHistory(world, head.value, state, cacheable && cache.enabled, wanted, limits, cached, native, walkDeadline,
                    processDeadline);
    if cacheable && complete && !stats.partial {
      ghost var before := cache.views;
      cache.PutView(identity, churn);
      NewViewsSound(world, before, identity, churn);
    }
    if cacheable {
      if cache.enabled && events != cached {
        cache.events, cache.eventsDirty := Some(events), true;
      }
      SavedEventsSound(world, state, events);
      cache.Save(disk, eventsWritable, viewsWritable);
    }
    r := Collection(churn, stats.partial || !complete, stats.deltasOmitted);
  }

  // ---------- Any sequence of collections ----------

  /** One collection: each opens the cache anew, for its own head, history state, paths and limits. */
  datatype Job = Job(head: Option<string>, state: string, cacheable: bool, enabled: bool, walkStarts: bool,
                     files: seq<Path>, limits: Limits, native: Native, walkDeadline: nat -> bool,
                     processDeadline: nat -> bool, viewsReadable: bool, eventsReadable: bool, eventsWritable: bool,
                     viewsWritable: bool)

  /** An unmarked result is the churn of the commits, unless there was nothing to walk. */
  ghost predicate Answers(world: World, job: Job, r: Collection) {
    && (r.deltasOmitted > 0 ==> r.partial)
    && (job.head.None? || job.files == [] ==> r == NOTHING)
    && (job.head.Some? && job.files != [] && !r.partial ==>
          || Exact(world, job.head.value, job.state, job.limits.maxCommits, Elements(job.files), r.churn)
          || (!job.walkStarts && r == NOTHING))
  }

  /** A job that walks is unmarked exactly when its view is stored or nothing hinders its replay. */
  ghost predicate Marks(world: World, job: Job, views: seq<ViewEntry>, events: Option<StoredEvents>, r: Collection) {
    job.head.Some? && job.files != [] && job.walkStarts ==>
      var wanted := Elements(job.files);
      var used := job.cacheable && job.enabled;
      var loaded := if used then Loadable(events, job.state, job.eventsReadable) else map[];
      var hit := used && job.viewsReadable && HasView(views, Identity(job.head.value, job.state, job.limits, wanted));
      !r.partial <==>
        || hit
        || Succeeds(world, job.head.value, job.state, used, wanted, job.limits, loaded, job.native, job.walkDeadline,
                    job.processDeadline)
  }

  method CollectWithCache(world: World, disk: ChurnDisk, job: Job) returns (r: Collection)
    requires CoherentWorld(world) && NativeContract(world.repo(job.state), job.native)
    requires SoundDisk(world, disk.views, disk.events)
    modifies disk
    ensures SoundDisk(world, disk.views, disk.events) && Answers(world, job, r)
    ensures Marks(world, job, old(disk.views), old(disk.events), r)
  {
    hide Exact, NativeContract, SoundViews, SoundEvents, CoherentWorld, Succeeds, HasView;
    NoViewsSound(world);
    NoViewsStored(Identity(if job.head.Some? then job.head.value else "", job.state, job.limits, Elements(job.files)));
    var cache := new ChurnCache.At(job.enabled, disk, job.viewsReadable);
    r := Collect(world, job.head, job.state, job.cacheable, job.walkStarts, job.files, job.limits, cache, disk,
                 job.eventsReadable, job.native, job.walkDeadline, job.processDeadline, job.eventsWritable,
                 job.viewsWritable);
  }

  /**
   * However heads, history states, wanted paths and limits change between collections over one cache directory,
   * whichever files cannot be read or written: every unmarked result is exact.
   */
  method CollectAll(world: World, disk: ChurnDisk, jobs: seq<Job>) returns (results: seq<Collection>)
    requires CoherentWorld(world) && SoundDisk(world, disk.views, disk.events)
    requires forall j :: 0 <= j < |jobs| ==> NativeContract(world.repo(jobs[j].state), jobs[j].native)
    modifies disk
    ensures SoundDisk(world, disk.views, disk.events)
    ensures |results| == |jobs| && forall j :: 0 <= j < |jobs| ==> Answers(world, jobs[j], results[j])
  {
    hide NativeContract, SoundDisk, Answers, CoherentWorld;
    results := [];
    for k := 0 to |jobs|
      invariant SoundDisk(world, disk.views, disk.events)
      invariant |results| == k && forall j :: 0 <= j < k ==> Answers(world, jobs[j], results[j])
    {
      var r := CollectWithCache(world, disk, jobs[k]);
      results := results + [r];
    }
  }

  /** An unmarked result that is wrong: the walk cannot start, and a file that was committed has no churn. */
  lemma EmptyWalkIsUnmarked(path: Path) returns (world: World)
    ensures CoherentWorld(world) && !NOTHING.partial
    ensures !Exact(world, "head", "state", 0, {path}, NOTHING.churn)
  {
    var repo: Repo := map["a" := Creation(path)];
    world := World(state => repo, (head, state) => [Some("a")]);
    CreationIsCoherent(path);
    assert CoherentRepo(repo);
    CreationIsCounted(world, path, NOTHING.churn);
  }

  lemma CreationIsCounted(world: World, path: Path, churn: map<Path, Churn>)
    requires world.repo("state") == map["a" := Creation(path)] && world.walk("head", "state") == [Some("a")]
    ensures Exact(world, "head", "state", 0, {path}, churn) ==> path in churn
  {
    if Exact(world, "head", "state", 0, {path}, churn) {
      var repo := world.repo("state");
      assert Newest(world.walk("head", "state"), 0, ["a"]);
      ExactAt(world, "head", "state", 0, {path}, churn, ["a"]);
      assert ["a"][..0] == [] && Behind(repo, ["a"][..0], path) == path;
      assert StableAt(repo, ["a"], path, 0);
      assert TouchedBy(repo["a"], path) && CommitsOf(repo, ["a"], path) != [];
      assert ChurnAt(churn, path) == ReferenceChurn(repo, ["a"], path);
    }
  }

  // ---------- Small steps of the proof ----------

  lemma FinishedChurn(wanted: set<Path>, events: seq<CommitEvent>, acc: map<Path, Acc>)
    requires Accounts(acc, wanted, events)
    ensures ChurnOf(wanted, events, FinishChurn(acc))
  {
    hide Touching, Accumulated, Tells;
    forall p | p in acc
      ensures Tells(FinishAcc(acc[p]), Touching(events, p))
    {
      FinishedTells(Touching(events, p));
    }
  }

  lemma EmptyElements(files: seq<Path>)
    ensures Elements(files) == {} <==> files == []
  {
    assert files != [] ==> files[0] in Elements(files);
  }

  lemma NoViewsSound(world: World)
    ensures SoundViews(world, [])
  {
  }

  lemma NoViewsStored(identity: ViewId)
    ensures !HasView([], identity)
  {
  }

  lemma SameViewsSound(world: World, a: seq<ViewEntry>, b: seq<ViewEntry>)
    requires SoundViews(world, a) && forall v :: v in b ==> v in a
    ensures SoundViews(world, b)
  {
  }

  lemma NewViewsSound(world: World, views: seq<ViewEntry>, identity: ViewId, churn: map<Path, Churn>)
    requires SoundViews(world, views) && SoundView(world, ViewEntry(identity, churn))
    ensures SoundViews(world, First([ViewEntry(identity, churn)] + Others(views, identity), MAX_VIEWS))
    ensures ViewEntry(identity, churn) in First([ViewEntry(identity, churn)] + Others(views, identity), MAX_VIEWS)
  {
    hide SoundView;
    OthersAre(views, identity);
    var all := [ViewEntry(identity, churn)] + Others(views, identity);
    assert First(all, MAX_VIEWS)[0] == ViewEntry(identity, churn);
    forall v | v in First(all, MAX_VIEWS)
      ensures SoundView(world, v)
    {
      assert v in all;
    }
  }

  lemma HitIsExact(world: World, views: seq<ViewEntry>, identity: ViewId, churn: map<Path, Churn>)
    requires SoundViews(world, views) && exists v :: v in views && v.identity == identity && v.churn == churn
    ensures SoundView(world, ViewEntry(identity, churn)) && ViewEntry(identity, churn) in views
  {
  }

  /** Events loaded for a history state are intact for every head of it. */
  lemma LoadedIsIntact(world: World, stored: Option<StoredEvents>, state: string, readable: bool)
    requires SoundEvents(world, stored)
    ensures AllIntact(world.repo(state), Loadable(stored, state, readable)) && AllIntact(world.repo(state), map[])
  {
  }

  lemma StreamIsSound(world: World, state: string, native: Native, limits: Limits)
    requires CoherentWorld(world) && NativeContract(world.repo(state), native)
    ensures CoherentRepo(world.repo(state)) && Filed(StreamedEvents(native)) && Filed(map[])
    ensures !StreamHinders(native, limits) ==> AllIntact(world.repo(state), StreamedEvents(native))
    ensures AllIntact(world.repo(state), map[])
    ensures native.Streamed? && native.deltasOmitted > 0 ==> StreamHinders(native, limits)
    ensures NO_STATS.totalDeltas == 0 && NO_STATS.deltasOmitted == 0 && !NO_STATS.partial
  {
  }

  lemma ProcessorFinished(processor: HistoryProcessor, churn: map<Path, Churn>)
    requires processor.Valid() && churn == FinishChurn(processor.acc)
    ensures ChurnOf(processor.wanted, processor.applied, churn) && churn.Keys <= processor.wanted
    ensures AllIntact(processor.repo, processor.cache)
    ensures processor.stats.deltasOmitted > 0 ==> processor.stats.partial
    ensures processor.stats.totalDeltas <= processor.limits.maxTotalDeltas
  {
    hide Owns, AllWithinCaps, AllIntact, Filed, CoherentRepo;
    FinishedChurn(processor.wanted, processor.applied, processor.acc);
  }

  lemma SavedEventsSound(world: World, state: string, events: map<Oid, CommitEvent>)
    requires AllIntact(world.repo(state), events)
    ensures SoundEvents(world, Some(StoredEvents(state, events)))
  {
  }

  lemma CompleteIsExact(world: World, head: string, state: string, maxCommits: nat, oids: seq<Oid>, wanted: set<Path>,
                        events: seq<CommitEvent>, churn: map<Path, Churn>)
    requires CoherentWorld(world) && Newest(world.walk(head, state), maxCommits, oids)
    requires Faithful(world.repo(state), wanted, oids, events) && ChurnOf(wanted, events, churn)
    ensures Exact(world, head, state, maxCommits, wanted, churn)
  {
    hide Faithful, ChurnOf, Newest, CoherentRepo, StableAlong, ReferenceChurn;
    FaithfulIsKnown(world.repo(state), wanted, oids, events);
    forall p | p in wanted && StableAlong(world.repo(state), oids, p)
      ensures ChurnAt(churn, p) == ReferenceChurn(world.repo(state), oids, p)
    {
      FaithfulIsReference(world.repo(state), wanted, oids, events, churn, p);
    }
    assert ExactFor(world, head, state, maxCommits, wanted, churn, oids, events);
  }
}
