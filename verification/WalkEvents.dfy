/**
 * What a churn walk applies: faithful events, walk order, and the walks that nothing stands in the way of
 * (src/git.rs).
 */
module WalkEvents {
  import opened Orders
  import opened Lineage
  import opened CommitChanges
  import opened EventLimits

  // ---------- Faithful walks ----------

  /** One intact event for every walked commit, in order, with renames resolved where a wanted path needs it. */
  ghost predicate Faithful(repo: Repo, wanted: set<Path>, oids: seq<Oid>, events: seq<CommitEvent>) {
    && |events| == |oids|
    && forall k :: 0 <= k < |oids| ==> FaithfulAt(repo, wanted, oids[k], events, k)
  }

  ghost predicate FaithfulAt(repo: Repo, wanted: set<Path>, oid: Oid, events: seq<CommitEvent>, k: nat)
    requires k < |events|
  {
    Intact(repo, oid, events[k]) && Settled(repo, oid, events[k], CurrentNames(wanted, events[..k]))
  }

  lemma FaithfulPrefix(repo: Repo, wanted: set<Path>, oids: seq<Oid>, events: seq<CommitEvent>, n: nat)
    requires Faithful(repo, wanted, oids, events) && n <= |oids|
    ensures Faithful(repo, wanted, oids[..n], events[..n])
  {
    var front, earlier := oids[..n], events[..n];
    forall k | 0 <= k < n
      ensures FaithfulAt(repo, wanted, front[k], earlier, k)
    {
      assert earlier[..k] == events[..k] && front[k] == oids[k];
      assert FaithfulAt(repo, wanted, oids[k], events, k);
    }
  }

  lemma FaithfulStep(repo: Repo, wanted: set<Path>, oids: seq<Oid>, events: seq<CommitEvent>)
    requires |events| == |oids| > 0
    requires var n := |oids| - 1;
             Faithful(repo, wanted, oids[..n], events[..n]) && FaithfulAt(repo, wanted, oids[n], events, n)
    ensures Faithful(repo, wanted, oids, events)
  {
    var n := |oids| - 1;
    forall k | 0 <= k < n
      ensures FaithfulAt(repo, wanted, oids[k], events, k)
    {
      assert events[..n][..k] == events[..k] && oids[..n][k] == oids[k];
      assert FaithfulAt(repo, wanted, oids[..n][k], events[..n], k);
    }
  }

  // ---------- Walk order ----------

  /** The events are of some of the walked commits, in walk order. */
  ghost predicate FromWalk(oids: seq<Oid>, events: seq<CommitEvent>, positions: seq<nat>) {
    && |positions| == |events|
    && (forall i :: 0 <= i < |positions| ==> positions[i] < |oids| && events[i].oid == oids[positions[i]])
    && forall i, j :: 0 <= i < j < |positions| ==> positions[i] < positions[j]
  }

  lemma FromWalkStep(oids: seq<Oid>, k: nat, events: seq<CommitEvent>, e: CommitEvent, positions: seq<nat>)
    requires k < |oids| && FromWalk(oids[..k], events, positions) && e.oid == oids[k]
    ensures FromWalk(oids[..k + 1], events + [e], positions + [k])
  {
    forall i | 0 <= i <= |events|
      ensures (positions + [k])[i] < k + 1 && (events + [e])[i].oid == oids[..k + 1][(positions + [k])[i]]
    {
      assert i < |events| ==> oids[..k][positions[i]] == oids[..k + 1][positions[i]];
    }
  }

  lemma FromLongerWalk(oids: seq<Oid>, k: nat, more: nat, events: seq<CommitEvent>, positions: seq<nat>)
    requires k <= more <= |oids| && FromWalk(oids[..k], events, positions)
    ensures FromWalk(oids[..more], events, positions)
  {
    forall i | 0 <= i < |positions|
      ensures positions[i] < more && events[i].oid == oids[..more][positions[i]]
    {
      assert oids[..k][positions[i]] == oids[..more][positions[i]];
    }
  }

  function DeltaCount(events: seq<CommitEvent>): nat {
    if events == [] then 0 else DeltaCount(events[..|events| - 1]) + |events[|events| - 1].deltas|
  }

  lemma DeltaCountStep(events: seq<CommitEvent>, e: CommitEvent)
    ensures DeltaCount(events + [e]) == DeltaCount(events) + |e.deltas|
  {
    assert (events + [e])[..|events|] == events;
  }

  function EventFrom(repo: Repo, oid: Oid, deltas: seq<Delta>, resolved: bool): CommitEvent
    requires oid in repo
  {
    CommitEvent(oid, repo[oid].author, repo[oid].seconds, deltas, resolved)
  }

  // ---------- Where events come from ----------

  /** What a walk draws on, and the limits it keeps. */
  datatype Sources = Sources(repo: Repo, limits: Limits, useEventCache: bool, wanted: set<Path>,
                             cache: map<Oid, CommitEvent>, streamed: map<Oid, CommitEvent>)

  predicate IsMerge(repo: Repo, oid: Oid) {
    oid in repo && repo[oid].merge
  }

  predicate Diffed(repo: Repo, oid: Oid) {
    oid in repo && repo[oid].diff.Some?
  }

  predicate Detected(repo: Repo, oid: Oid) {
    oid in repo && repo[oid].similar.Some?
  }

  /** Some source has an event for the commit, whole or not. */
  predicate Available(repo: Repo, limits: Limits, cache: map<Oid, CommitEvent>, streamed: map<Oid, CommitEvent>,
                      oid: Oid)
  {
    if IsMerge(repo, oid) then repo[oid].found
    else oid in cache || oid in streamed || (!limits.skipLibgit2Fallback && Diffed(repo, oid))
  }

  /**
   * The whole event of a commit, before renames: empty for a merge that is found, cached, streamed, or read from its
   * diff.
   */
  ghost function Sourced(repo: Repo, limits: Limits, cache: map<Oid, CommitEvent>, streamed: map<Oid, CommitEvent>,
                         oid: Oid)
    : Option<CommitEvent>
  {
    if IsMerge(repo, oid) then if repo[oid].found then Some(EventFrom(repo, oid, [], true)) else None
    else if oid in cache then Some(cache[oid])
    else if oid in streamed then Some(streamed[oid])
    else if !limits.skipLibgit2Fallback && Diffed(repo, oid) && WithinCaps(repo[oid].diff.value, limits)
    then Some(EventFrom(repo, oid, repo[oid].diff.value, false))
    else None
  }

  /** The event after lazy resolution: detection is asked where a wanted name may come from a rename, if it may be. */
  function Resolved(repo: Repo, limits: Limits, oid: Oid, e: CommitEvent, names: set<Path>): Option<CommitEvent> {
    if e.renamesResolved || !NameAppears(e.deltas, names) then Some(e)
    else if limits.skipLibgit2Fallback then None
    else if Detected(repo, oid) then Some(EventFrom(repo, oid, repo[oid].similar.value, true))
    else Some(e)
  }

  /** The cache after the events: each event applied without loss is remembered under its commit. */
  function Remembered(src: Sources, events: seq<CommitEvent>): map<Oid, CommitEvent> {
    if events == [] || !src.useEventCache then src.cache
    else Remembered(src, events[..|events| - 1])[events[|events| - 1].oid := events[|events| - 1]]
  }

  /** The event a walk applies to the next commit when nothing is lost. */
  ghost function NextEvent(src: Sources, oids: seq<Oid>, events: seq<CommitEvent>): Option<CommitEvent>
    requires |events| < |oids|
  {
    var k := |events|;
    var sourced := Sourced(src.repo, src.limits, Remembered(src, events), src.streamed - Elements(oids[..k]), oids[k]);
    if sourced.None? then None
    else
      var event := Resolved(src.repo, src.limits, oids[k], sourced.value, CurrentNames(src.wanted, events));
      if event.Some? && WithinCaps(event.value.deltas, src.limits) then event else None
  }

  // ---------- Walks that nothing stands in the way of ----------

  /** At the next commit: no deadline, some of the total left, and room in it for a whole event. */
  ghost predicate Clear(src: Sources, late: nat -> bool, oids: seq<Oid>, events: seq<CommitEvent>)
    requires |events| < |oids|
  {
    var next := NextEvent(src, oids, events);
    && !late(|events|) && DeltaCount(events) < src.limits.maxTotalDeltas
    && next.Some? && DeltaCount(events) + |next.value.deltas| <= src.limits.maxTotalDeltas
  }

  /**
   * The walk of the commits applies these events and loses nothing. The condition is about what was there before the
   * walk; some of the total must be left before every commit, even before one that changes nothing.
   */
  ghost predicate Unhindered(src: Sources, late: nat -> bool, oids: seq<Oid>, events: seq<CommitEvent>) {
    && |events| == |oids|
    && forall k :: 0 <= k < |oids| ==> UnhinderedAt(src, late, oids, events, k)
  }

  ghost predicate UnhinderedAt(src: Sources, late: nat -> bool, oids: seq<Oid>, events: seq<CommitEvent>, k: nat)
    requires k < |oids| == |events|
  {
    Clear(src, late, oids, events[..k]) && NextEvent(src, oids, events[..k]) == Some(events[k])
  }

  /** Nothing stands in the way of a walk of these commits. */
  ghost predicate CanFinish(src: Sources, late: nat -> bool, oids: seq<Oid>) {
    exists events :: Unhindered(src, late, oids, events)
  }

  lemma NextOfPrefix(src: Sources, late: nat -> bool, oids: seq<Oid>, n: nat, events: seq<CommitEvent>)
    requires |events| < n <= |oids|
    ensures NextEvent(src, oids[..n], events) == NextEvent(src, oids, events)
    ensures Clear(src, late, oids[..n], events) <==> Clear(src, late, oids, events)
  {
    assert oids[..n][..|events|] == oids[..|events|];
  }

  lemma UnhinderedPrefix(src: Sources, late: nat -> bool, oids: seq<Oid>, events: seq<CommitEvent>, n: nat)
    requires Unhindered(src, late, oids, events) && n <= |oids|
    ensures Unhindered(src, late, oids[..n], events[..n])
  {
    hide NextEvent, Clear;
    forall k | 0 <= k < n
      ensures UnhinderedAt(src, late, oids[..n], events[..n], k)
    {
      assert UnhinderedAt(src, late, oids, events, k);
      assert events[..n][..k] == events[..k];
      NextOfPrefix(src, late, oids, n, events[..k]);
    }
  }

  /** There is one such walk at most. */
  lemma {:induction false} UnhinderedUnique(src: Sources, late: nat -> bool, oids: seq<Oid>, a: seq<CommitEvent>,
                                            b: seq<CommitEvent>)
    requires Unhindered(src, late, oids, a) && Unhindered(src, late, oids, b)
    ensures a == b
  {
    hide NextEvent, Clear;
    if oids != [] {
      var n := |oids| - 1;
      UnhinderedPrefix(src, late, oids, a, n);
      UnhinderedPrefix(src, late, oids, b, n);
      UnhinderedUnique(src, late, oids[..n], a[..n], b[..n]);
      assert UnhinderedAt(src, late, oids, a, n) && UnhinderedAt(src, late, oids, b, n);
      assert a == a[..n] + [a[n]] && b == b[..n] + [b[n]];
    }
  }

  lemma UnhinderedStep(src: Sources, late: nat -> bool, oids: seq<Oid>, k: nat, events: seq<CommitEvent>)
    requires k < |oids| && Unhindered(src, late, oids[..k], events) && Clear(src, late, oids, events)
    ensures Unhindered(src, late, oids[..k + 1], events + [NextEvent(src, oids, events).value])
  {
    hide NextEvent;
    var more, later := oids[..k + 1], events + [NextEvent(src, oids, events).value];
    forall i | 0 <= i < k + 1
      ensures UnhinderedAt(src, late, more, later, i)
    {
      NextOfPrefix(src, late, oids, k + 1, later[..i]);
      if i < k {
        assert UnhinderedAt(src, late, oids[..k], events, i);
        assert later[..i] == events[..i];
        NextOfPrefix(src, late, oids, k, later[..i]);
      } else {
        assert later[..i] == events;
      }
    }
  }

  lemma UnhinderedIsClear(src: Sources, late: nat -> bool, oids: seq<Oid>, k: nat, events: seq<CommitEvent>,
                          all: seq<CommitEvent>)
    requires k < |oids| && Unhindered(src, late, oids[..k], events) && Unhindered(src, late, oids, all)
    ensures Clear(src, late, oids, events)
  {
    hide NextEvent, Clear;
    UnhinderedPrefix(src, late, oids, all, k);
    UnhinderedUnique(src, late, oids[..k], all[..k], events);
    assert UnhinderedAt(src, late, oids, all, k);
  }

  /** Where the walk is not clear, no walk of these commits is unhindered. */
  lemma BlockedHere(src: Sources, late: nat -> bool, oids: seq<Oid>, k: nat, events: seq<CommitEvent>)
    requires k < |oids| && Unhindered(src, late, oids[..k], events) && !Clear(src, late, oids, events)
    ensures !CanFinish(src, late, oids)
  {
    hide Clear, Unhindered;
    if all :| Unhindered(src, late, oids, all) {
      UnhinderedIsClear(src, late, oids, k, events, all);
      assert false;
    }
  }

  lemma NothingHindered(src: Sources, late: nat -> bool, oids: seq<Oid>)
    ensures Unhindered(src, late, oids[..0], [])
  {
  }

  // ---------- Unhindered walks are faithful ----------

  lemma SourcedIsIntact(repo: Repo, limits: Limits, cache: map<Oid, CommitEvent>, streamed: map<Oid, CommitEvent>,
                        oid: Oid)
    requires CoherentRepo(repo) && AllIntact(repo, cache) && AllIntact(repo, streamed)
    ensures var e := Sourced(repo, limits, cache, streamed, oid); e.Some? ==> Intact(repo, oid, e.value)
  {
    hide ShowsPlain, ShowsResolved, WithinCaps;
  }

  lemma ResolvedIsSettled(repo: Repo, limits: Limits, oid: Oid, e: CommitEvent, names: set<Path>)
    requires CoherentRepo(repo) && Intact(repo, oid, e)
    ensures var r := Resolved(repo, limits, oid, e, names);
            r.Some? ==> Intact(repo, oid, r.value) && Settled(repo, oid, r.value, names)
  {
    hide ShowsPlain, ShowsResolved;
  }

  lemma NextIsFaithful(src: Sources, oids: seq<Oid>, events: seq<CommitEvent>)
    requires |events| < |oids| && CoherentRepo(src.repo)
    requires AllIntact(src.repo, Remembered(src, events)) && AllIntact(src.repo, src.streamed)
    ensures var next := NextEvent(src, oids, events);
            next.Some? ==> Intact(src.repo, oids[|events|], next.value)
                           && Settled(src.repo, oids[|events|], next.value, CurrentNames(src.wanted, events))
  {
    hide Intact, Settled, CurrentNames, Sourced, Resolved, Remembered, WithinCaps, CoherentRepo;
    var k := |events|;
    var left := src.streamed - Elements(oids[..k]);
    var sourced := Sourced(src.repo, src.limits, Remembered(src, events), left, oids[k]);
    SourcedIsIntact(src.repo, src.limits, Remembered(src, events), left, oids[k]);
    if sourced.Some? {
      ResolvedIsSettled(src.repo, src.limits, oids[k], sourced.value, CurrentNames(src.wanted, events));
    }
  }

  /** A walk that loses nothing is faithful, if what was cached and streamed is. */
  lemma {:induction false} UnhinderedIsFaithful(src: Sources, late: nat -> bool, oids: seq<Oid>,
                                                events: seq<CommitEvent>)
    requires Unhindered(src, late, oids, events)
    requires CoherentRepo(src.repo) && AllIntact(src.repo, src.cache) && AllIntact(src.repo, src.streamed)
    ensures Faithful(src.repo, src.wanted, oids, events) && AllIntact(src.repo, Remembered(src, events))
  {
    hide NextEvent, Intact, Settled, CurrentNames, CoherentRepo;
    if oids != [] {
      var n := |oids| - 1;
      UnhinderedPrefix(src, late, oids, events, n);
      UnhinderedIsFaithful(src, late, oids[..n], events[..n]);
      assert UnhinderedAt(src, late, oids, events, n);
      NextIsFaithful(src, oids, events[..n]);
      IntactIsFiled(src.repo, oids[n], events[n]);
      FaithfulStep(src.repo, src.wanted, oids, events);
    }
  }

  lemma IntactIsFiled(repo: Repo, oid: Oid, e: CommitEvent)
    requires Intact(repo, oid, e)
    ensures e.oid == oid
  {
  }
}
