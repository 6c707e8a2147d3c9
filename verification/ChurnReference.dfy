/** The churn of a history, defined on its commits alone, and when a walk must arrive at it (src/git.rs). */
module ChurnReference {
  import opened Orders
  import opened Lineage
  import opened CommitChanges
  import opened EventLimits
  import opened WalkEvents

  datatype Churn = Churn(commits: nat, authors: nat, first: Option<int>, last: Option<int>)

  function FinishAcc(a: Acc): Churn {
    Churn(a.commits, |a.authors|, a.first, a.last)
  }

  function AuthorsOf(commits: seq<CommitEvent>): set<string> {
    set e | e in commits && e.author.Some? :: e.author.value
  }

  /** The entry tells these commits: how many they are, how many authors they have, and their first and last time. */
  ghost predicate Tells(churn: Churn, commits: seq<CommitEvent>) {
    && churn.commits == |commits| && churn.authors == |AuthorsOf(commits)|
    && churn.first.Some? && churn.last.Some?
    && (exists e :: e in commits && e.seconds == churn.first.value)
    && (exists e :: e in commits && e.seconds == churn.last.value)
    && forall e :: e in commits ==> churn.first.value <= e.seconds <= churn.last.value
  }

  /** What was accumulated, once finished, tells the events. */
  lemma FinishedTells(events: seq<CommitEvent>)
    requires events != []
    ensures Tells(FinishAcc(Accumulated(events)), events)
  {
    AccumulatedMeans(events);
    assert Accumulated(events).authors == AuthorsOf(events);
  }

  lemma {:induction false} FewerAuthors(commits: seq<CommitEvent>)
    ensures |AuthorsOf(commits)| <= |commits|
  {
    if commits != [] {
      var front, last := commits[..|commits| - 1], commits[|commits| - 1];
      FewerAuthors(front);
      assert forall e :: e in commits <==> e in front || e == last;
      assert AuthorsOf(commits) == AuthorsOf(front) + if last.author.Some? then {last.author.value} else {};
    }
  }

  /** An entry that tells any commits holds at least one, no more authors than commits, and its times in order. */
  lemma TellsInOrder(churn: Churn, commits: seq<CommitEvent>)
    requires Tells(churn, commits)
    ensures churn.commits >= 1 && churn.authors <= churn.commits
    ensures churn.first.Some? && churn.last.Some? && churn.first.value <= churn.last.value
  {
    FewerAuthors(commits);
  }

  /** The commits leave nothing of the entry open. */
  lemma TellsDetermined(a: Churn, b: Churn, commits: seq<CommitEvent>)
    requires Tells(a, commits) && Tells(b, commits)
    ensures a == b
  {
  }

  ghost predicate Known(repo: Repo, oids: seq<Oid>) {
    forall oid :: oid in oids ==> oid in repo
  }

  // ---------- The definition ----------

  /** The name of a path behind the commits, newest first, following every rename detection can find. */
  ghost function Behind(repo: Repo, oids: seq<Oid>, path: Path): Path
    requires Known(repo, oids)
  {
    if oids == [] then path
    else NameBehind(repo[oids[|oids| - 1]], Behind(repo, oids[..|oids| - 1], path))
  }

  function Signature(repo: Repo, oid: Oid): CommitEvent
    requires oid in repo
  {
    CommitEvent(oid, repo[oid].author, repo[oid].seconds, [], false)
  }

  /** The commits that change a path under the name it has at that point. */
  ghost function CommitsOf(repo: Repo, oids: seq<Oid>, path: Path): seq<CommitEvent>
    requires Known(repo, oids)
  {
    if oids == [] then []
    else
      var front, last := oids[..|oids| - 1], oids[|oids| - 1];
      if TouchedBy(repo[last], Behind(repo, front, path))
      then CommitsOf(repo, front, path) + [Signature(repo, last)]
      else CommitsOf(repo, front, path)
  }

  /** The churn of a path: a function of the commits, whatever was cached, streamed or resolved. */
  ghost function ReferenceChurn(repo: Repo, oids: seq<Oid>, path: Path): (churn: Option<Churn>)
    requires Known(repo, oids)
    ensures churn.Some? <==> CommitsOf(repo, oids, path) != []
    ensures churn.Some? ==> Tells(churn.value, CommitsOf(repo, oids, path))
  {
    var commits := CommitsOf(repo, oids, path);
    if commits == [] then None
    else
      FinishedTells(commits);
      Some(FinishAcc(Accumulated(commits)))
  }

  /** Each commit that renames the path, under the name it has there, is seen to without a type change. */
  ghost predicate StableAlong(repo: Repo, oids: seq<Oid>, path: Path)
    requires Known(repo, oids)
  {
    forall k :: 0 <= k < |oids| ==> StableAt(repo, oids, path, k)
  }

  ghost predicate StableAt(repo: Repo, oids: seq<Oid>, path: Path, k: nat)
    requires Known(repo, oids) && k < |oids|
  {
    Stable(repo[oids[k]], Behind(repo, oids[..k], path))
  }

  lemma StablePrefix(repo: Repo, oids: seq<Oid>, path: Path, n: nat)
    requires Known(repo, oids) && StableAlong(repo, oids, path) && n <= |oids|
    ensures Known(repo, oids[..n]) && StableAlong(repo, oids[..n], path)
  {
    hide Stable, Behind;
    forall k | 0 <= k < n
      ensures StableAt(repo, oids[..n], path, k)
    {
      assert oids[..n][..k] == oids[..k] && oids[..n][k] == oids[k];
      assert StableAt(repo, oids, path, k);
    }
  }

  // ---------- Every faithful walk arrives at it ----------

  ghost predicate SameSignatures(a: seq<CommitEvent>, b: seq<CommitEvent>) {
    |a| == |b| && forall i :: 0 <= i < |a| ==> a[i].author == b[i].author && a[i].seconds == b[i].seconds
  }

  lemma SignedIn(a: seq<CommitEvent>, b: seq<CommitEvent>, e: CommitEvent) returns (f: CommitEvent)
    requires SameSignatures(a, b) && e in a
    ensures f in b && f.author == e.author && f.seconds == e.seconds
  {
    var i :| 0 <= i < |a| && a[i] == e;
    f := b[i];
  }

  lemma SameAuthors(a: seq<CommitEvent>, b: seq<CommitEvent>)
    requires SameSignatures(a, b)
    ensures AuthorsOf(a) <= AuthorsOf(b)
  {
    hide SameSignatures;
    forall e | e in a && e.author.Some?
      ensures exists f :: f in b && f.author.Some? && f.author.value == e.author.value
    {
      var f := SignedIn(a, b, e);
    }
  }

  lemma WithinSigned(a: seq<CommitEvent>, b: seq<CommitEvent>, low: int, high: int)
    requires SameSignatures(b, a) && forall e :: e in a ==> low <= e.seconds <= high
    ensures forall f :: f in b ==> low <= f.seconds <= high
  {
    hide SameSignatures;
    forall f | f in b
      ensures low <= f.seconds <= high
    {
      var e := SignedIn(b, a, f);
    }
  }

  /** Only authors and times are told. */
  lemma SameSignaturesTell(churn: Churn, a: seq<CommitEvent>, b: seq<CommitEvent>)
    requires SameSignatures(a, b) && SameSignatures(b, a) && Tells(churn, a)
    ensures Tells(churn, b)
  {
    hide SameSignatures;
    SameLength(a, b);
    SameAuthors(a, b);
    SameAuthors(b, a);
    WithinSigned(a, b, churn.first.value, churn.last.value);
    var first :| first in a && first.seconds == churn.first.value;
    var sameFirst := SignedIn(a, b, first);
    var last :| last in a && last.seconds == churn.last.value;
    var sameLast := SignedIn(a, b, last);
    assert AuthorsOf(a) == AuthorsOf(b);
  }

  lemma SameLength(a: seq<CommitEvent>, b: seq<CommitEvent>)
    requires SameSignatures(a, b)
    ensures |a| == |b|
  {
  }

  lemma FaithfulIsKnown(repo: Repo, wanted: set<Path>, oids: seq<Oid>, events: seq<CommitEvent>)
    requires Faithful(repo, wanted, oids, events)
    ensures Known(repo, oids)
  {
    forall oid | oid in oids
      ensures oid in repo
    {
      var k :| 0 <= k < |oids| && oids[k] == oid;
      assert FaithfulAt(repo, wanted, oids[k], events, k);
    }
  }

  /** Whatever the sources of the events, a wanted path is followed and touched as the commits say. */
  lemma {:induction false} FaithfulFollows(repo: Repo, wanted: set<Path>, oids: seq<Oid>, events: seq<CommitEvent>,
                                           path: Path)
    requires CoherentRepo(repo) && Known(repo, oids) && StableAlong(repo, oids, path)
    requires Faithful(repo, wanted, oids, events) && path in wanted
    ensures NameAfter(events, path) == Behind(repo, oids, path)
    ensures SameSignatures(Touching(events, path), CommitsOf(repo, oids, path))
  {
    hide Stable, Coherent, Intact, Settled, ShowsPlain, ShowsResolved, TouchesName, TouchedBy, NameBehind;
    hide NameAfterDeltas;
    if oids != [] {
      var n := |oids| - 1;
      var front, last, earlier, e := oids[..n], oids[n], events[..n], events[n];
      FaithfulPrefix(repo, wanted, oids, events, n);
      StablePrefix(repo, oids, path, n);
      FaithfulFollows(repo, wanted, front, earlier, path);
      assert FaithfulAt(repo, wanted, last, events, n) && StableAt(repo, oids, path, n);
      assert last in oids && events[..|events| - 1] == earlier;
      var name := NameAfter(earlier, path);
      assert name in CurrentNames(wanted, earlier);
      LazyResolutionIsInvisible(repo, last, e, CurrentNames(wanted, earlier), name);
      SignatureOfIntact(repo, last, e);
    }
  }

  lemma SignatureOfIntact(repo: Repo, oid: Oid, e: CommitEvent)
    requires Intact(repo, oid, e)
    ensures oid in repo && e.author == Signature(repo, oid).author && e.seconds == Signature(repo, oid).seconds
  {
  }

  /** Exactly the wanted paths that some event touches have an entry, and it tells the events that touch them. */
  ghost predicate ChurnOf(wanted: set<Path>, events: seq<CommitEvent>, churn: map<Path, Churn>) {
    && (forall p :: p in churn <==> p in wanted && Touching(events, p) != [])
    && (forall p :: p in churn ==> Tells(churn[p], Touching(events, p)))
  }

  function ChurnAt(churn: map<Path, Churn>, path: Path): Option<Churn> {
    if path in churn then Some(churn[path]) else None
  }

  /**
   * Cold or warm, native or fallback, with renames resolved early, late or never needed: what a faithful walk returns
   * for a path that is stable along its own lineage is the churn of the commits, whatever happens to other paths.
   */
  lemma FaithfulIsReference(repo: Repo, wanted: set<Path>, oids: seq<Oid>, events: seq<CommitEvent>,
                            churn: map<Path, Churn>, path: Path)
    requires CoherentRepo(repo) && Known(repo, oids) && StableAlong(repo, oids, path) && path in wanted
    requires Faithful(repo, wanted, oids, events) && ChurnOf(wanted, events, churn)
    ensures ChurnAt(churn, path) == ReferenceChurn(repo, oids, path)
  {
    hide CoherentRepo, StableAlong, Faithful, Accumulated, Touching, CommitsOf, Tells;
    FaithfulFollows(repo, wanted, oids, events, path);
    if path in churn {
      SameSignaturesTell(churn[path], Touching(events, path), CommitsOf(repo, oids, path));
      TellsDetermined(churn[path], ReferenceChurn(repo, oids, path).value, CommitsOf(repo, oids, path));
    }
  }

  // ---------- When detection fails ----------

  function RenamedTo(c: RepoCommit, name: Path): Path {
    if !c.merge && name in c.renames then c.renames[name] else name
  }

  /** The name behind the commits if detection never failed. */
  ghost function TrulyBehind(repo: Repo, oids: seq<Oid>, path: Path): Path
    requires Known(repo, oids)
  {
    if oids == [] then path
    else RenamedTo(repo[oids[|oids| - 1]], TrulyBehind(repo, oids[..|oids| - 1], path))
  }

  /** After k commits the walk knows the path by its true name. */
  ghost predicate Follows(repo: Repo, oids: seq<Oid>, events: seq<CommitEvent>, path: Path, k: nat)
    requires Known(repo, oids) && k <= |oids| == |events|
  {
    NameAfter(events[..k], path) == TrulyBehind(repo, oids[..k], path)
  }

  ghost predicate RenamedAt(repo: Repo, oids: seq<Oid>, path: Path, k: nat)
    requires Known(repo, oids) && k < |oids|
  {
    !repo[oids[k]].merge && TrulyBehind(repo, oids[..k], path) in repo[oids[k]].renames
  }

  /** Where the k-th commit renames the path, its event has the renames resolved. */
  ghost predicate ResolvedAt(repo: Repo, oids: seq<Oid>, events: seq<CommitEvent>, path: Path, k: nat)
    requires Known(repo, oids) && k < |oids| == |events|
  {
    RenamedAt(repo, oids, path, k) ==> events[k].renamesResolved
  }

  /** Where the k-th commit renames the path, detection answers. */
  ghost predicate DetectedAt(repo: Repo, oids: seq<Oid>, path: Path, k: nat)
    requires Known(repo, oids) && k < |oids|
  {
    RenamedAt(repo, oids, path, k) ==> repo[oids[k]].similar.Some?
  }

  /**
   * A name that is right before a commit stays right if and only if the event of a commit that renames it is
   * resolved.
   */
  lemma FollowsOneMore(repo: Repo, wanted: set<Path>, oids: seq<Oid>, events: seq<CommitEvent>, path: Path, k: nat)
    requires CoherentRepo(repo) && Known(repo, oids) && Faithful(repo, wanted, oids, events) && k < |oids|
    requires Follows(repo, oids, events, path, k)
    ensures Follows(repo, oids, events, path, k + 1) <==> ResolvedAt(repo, oids, events, path, k)
  {
    hide ShowsPlain, ShowsResolved, NameAfterDeltas, CoherentRepo;
    assert FaithfulAt(repo, wanted, oids[k], events, k);
    assert oids[..k + 1][..k] == oids[..k] && events[..k + 1][..k] == events[..k];
    var c, e, name := repo[oids[k]], events[k], NameAfter(events[..k], path);
    CoherentCommit(repo, oids[k]);
    StepOfIntact(repo, oids[k], e, name);
    if name in c.renames {
      RenamedIsOther(c, name);
    }
  }

  lemma CoherentCommit(repo: Repo, oid: Oid)
    requires CoherentRepo(repo) && oid in repo
    ensures Coherent(repo[oid])
  {
  }

  lemma StepOfIntact(repo: Repo, oid: Oid, e: CommitEvent, name: Path)
    requires Intact(repo, oid, e) && Coherent(repo[oid])
    ensures NameAfterDeltas(e.deltas, name)
         == if e.renamesResolved then RenamedTo(repo[oid], name) else name
  {
    if !repo[oid].merge {
      if e.renamesResolved {
        ResolvedStep(repo[oid], e.deltas, name);
      } else {
        PlainStep(e.deltas, repo[oid].changes, name);
      }
    }
  }

  /**
   * On any faithful walk, stable or not, a path keeps its true name exactly as far as the renames of it were
   * resolved.
   */
  lemma {:induction false} FollowedIffResolved(repo: Repo, wanted: set<Path>, oids: seq<Oid>, events: seq<CommitEvent>,
                                               path: Path, n: nat)
    requires CoherentRepo(repo) && Known(repo, oids) && Faithful(repo, wanted, oids, events) && n <= |oids|
    ensures (forall k :: 0 <= k <= n ==> Follows(repo, oids, events, path, k))
            <==> forall k :: 0 <= k < n ==> ResolvedAt(repo, oids, events, path, k)
  {
    hide Follows, ResolvedAt, CoherentRepo, Faithful;
    FaithfulLength(repo, wanted, oids, events);
    if n == 0 {
      FollowsNothing(repo, oids, events, path);
    } else {
      FollowedIffResolved(repo, wanted, oids, events, path, n - 1);
      if Follows(repo, oids, events, path, n - 1) {
        FollowsOneMore(repo, wanted, oids, events, path, n - 1);
      }
    }
  }

  lemma FollowsNothing(repo: Repo, oids: seq<Oid>, events: seq<CommitEvent>, path: Path)
    requires Known(repo, oids) && |oids| == |events|
    ensures Follows(repo, oids, events, path, 0)
  {
  }

  /** A stable rename of a wanted path is resolved if and only if detection answers. */
  lemma ResolvedIffDetected(repo: Repo, wanted: set<Path>, oids: seq<Oid>, events: seq<CommitEvent>, path: Path, k: nat)
    requires CoherentRepo(repo) && Known(repo, oids) && Faithful(repo, wanted, oids, events) && k < |oids|
    requires StableAlong(repo, oids, path) && path in wanted && Follows(repo, oids, events, path, k)
    ensures ResolvedAt(repo, oids, events, path, k) <==> DetectedAt(repo, oids, path, k)
  {
    hide ShowsPlain, ShowsResolved, NameAfterDeltas, CoherentRepo, NameAfter, Behind, TrulyBehind, Faithful;
    hide NameAppears;
    FaithfulLength(repo, wanted, oids, events);
    var c, e, name := repo[oids[k]], events[k], NameAfter(events[..k], path);
    FaithfulCommit(repo, wanted, oids, events, k);
    FaithfulPrefix(repo, wanted, oids, events, k);
    StablePrefix(repo, oids, path, k);
    FaithfulFollows(repo, wanted, oids[..k], events[..k], path);
    assert StableAt(repo, oids, path, k);
    CoherentCommit(repo, oids[k]);
    assert name in CurrentNames(wanted, events[..k]);
    if name in c.renames && !c.merge && c.similar.Some? && !e.renamesResolved {
      RenamedIsOther(c, name);
      NoticedAppears(c, e.deltas, CurrentNames(wanted, events[..k]), name);
      assert false;
    }
  }

  lemma FaithfulLength(repo: Repo, wanted: set<Path>, oids: seq<Oid>, events: seq<CommitEvent>)
    requires Faithful(repo, wanted, oids, events)
    ensures |events| == |oids|
  {
  }

  lemma FaithfulCommit(repo: Repo, wanted: set<Path>, oids: seq<Oid>, events: seq<CommitEvent>, k: nat)
    requires Faithful(repo, wanted, oids, events) && k < |oids| == |events|
    ensures FaithfulAt(repo, wanted, oids[k], events, k)
  {
  }

  /**
   * A faithful walk knows a stable wanted path by its true name throughout exactly when detection answers at every
   * commit that renames it. Otherwise it goes on under the newer name, and nothing is marked.
   */
  lemma FollowedIffDetected(repo: Repo, wanted: set<Path>, oids: seq<Oid>, events: seq<CommitEvent>, path: Path)
    requires CoherentRepo(repo) && Known(repo, oids) && Faithful(repo, wanted, oids, events)
    requires StableAlong(repo, oids, path) && path in wanted
    ensures (forall k :: 0 <= k <= |oids| ==> Follows(repo, oids, events, path, k))
            <==> forall k :: 0 <= k < |oids| ==> DetectedAt(repo, oids, path, k)
  {
    hide Follows, ResolvedAt, DetectedAt, CoherentRepo, Faithful, StableAlong;
    FaithfulLength(repo, wanted, oids, events);
    FollowedIffResolved(repo, wanted, oids, events, path, |oids|);
    if forall k :: 0 <= k <= |oids| ==> Follows(repo, oids, events, path, k) {
      forall k | 0 <= k < |oids|
        ensures DetectedAt(repo, oids, path, k)
      {
        ResolvedIffDetected(repo, wanted, oids, events, path, k);
      }
    } else {
      var k := FirstLost(repo, oids, events, path, |oids|);
      FollowsOneMore(repo, wanted, oids, events, path, k);
      ResolvedIffDetected(repo, wanted, oids, events, path, k);
    }
  }

  lemma {:induction false} FirstLost(repo: Repo, oids: seq<Oid>, events: seq<CommitEvent>, path: Path, n: nat)
    returns (k: nat)
    requires Known(repo, oids) && n <= |oids| == |events|
    requires !forall k :: 0 <= k <= n ==> Follows(repo, oids, events, path, k)
    ensures k < n && Follows(repo, oids, events, path, k) && !Follows(repo, oids, events, path, k + 1)
  {
    hide Follows;
    FollowsNothing(repo, oids, events, path);
    if Follows(repo, oids, events, path, n - 1) && forall k :: 0 <= k < n ==> Follows(repo, oids, events, path, k) {
      k := n - 1;
    } else {
      k := FirstLost(repo, oids, events, path, n - 1);
    }
  }
}
