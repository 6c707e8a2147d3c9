/** When the limits of a churn walk let it finish: the total that fills up, and limits large enough (src/git.rs). */
module WalkLimits {
  import opened Orders
  import opened Lineage
  import opened CommitChanges
  import opened EventLimits
  import opened WalkEvents

  /** Every event could be applied whole, the total included. */
  ghost predicate NothingToDrop(src: Sources, late: nat -> bool, oids: seq<Oid>, events: seq<CommitEvent>) {
    && |events| == |oids| && DeltaCount(events) <= src.limits.maxTotalDeltas
    && forall k :: 0 <= k < |oids| ==> !late(k) && NextEvent(src, oids, events[..k]) == Some(events[k])
  }

  lemma {:induction false} CountOfPrefix(events: seq<CommitEvent>, k: nat)
    requires k <= |events|
    ensures DeltaCount(events[..k]) <= DeltaCount(events)
  {
    if k < |events| {
      assert events[..|events| - 1][..k] == events[..k];
      CountOfPrefix(events[..|events| - 1], k);
    } else {
      assert events[..k] == events;
    }
  }

  /**
   * A run with nothing to drop still ends marked when the commits before the last one fill the total, even if the
   * last one changes nothing: the total is tested before each commit, and then it counts as spent.
   */
  lemma FullBeforeTheLastIsMarked(src: Sources, late: nat -> bool, oids: seq<Oid>, events: seq<CommitEvent>)
    requires oids != [] && NothingToDrop(src, late, oids, events)
    ensures CanFinish(src, late, oids) <==> DeltaCount(events[..|oids| - 1]) < src.limits.maxTotalDeltas
  {
    hide NextEvent;
    var n := |oids| - 1;
    if DeltaCount(events[..n]) < src.limits.maxTotalDeltas {
      forall k | 0 <= k < |oids|
        ensures UnhinderedAt(src, late, oids, events, k)
      {
        assert events[..n][..k] == events[..k] && events[..k + 1][..k] == events[..k];
        CountOfPrefix(events[..n], k);
        CountOfPrefix(events, k + 1);
        assert DeltaCount(events[..k + 1]) == DeltaCount(events[..k]) + |events[k].deltas|;
      }
      assert Unhindered(src, late, oids, events);
    } else if all :| Unhindered(src, late, oids, all) {
      FollowsUnhindered(src, late, oids, events, all, n);
      LeavesRoom(src, late, oids, all, n);
      assert false;
    }
  }

  lemma LeavesRoom(src: Sources, late: nat -> bool, oids: seq<Oid>, events: seq<CommitEvent>, n: nat)
    requires Unhindered(src, late, oids, events) && n < |oids|
    ensures DeltaCount(events[..n]) < src.limits.maxTotalDeltas
  {
    hide NextEvent;
    assert UnhinderedAt(src, late, oids, events, n);
  }

  lemma {:induction false} FollowsUnhindered(src: Sources, late: nat -> bool, oids: seq<Oid>, events: seq<CommitEvent>,
                                             all: seq<CommitEvent>, n: nat)
    requires NothingToDrop(src, late, oids, events) && Unhindered(src, late, oids, all) && n <= |oids|
    ensures all[..n] == events[..n]
  {
    hide NextEvent, Clear;
    if n > 0 {
      FollowsUnhindered(src, late, oids, events, all, n - 1);
      assert UnhinderedAt(src, late, oids, all, n - 1);
      assert all[..n] == all[..n - 1] + [all[n - 1]] && events[..n] == events[..n - 1] + [events[n - 1]];
    }
  }

  predicate AtLeast(a: Limits, b: Limits) {
    && a.maxDeltasPerCommit >= b.maxDeltasPerCommit && a.maxTotalDeltas >= b.maxTotalDeltas
    && a.maxPathBytes >= b.maxPathBytes && a.skipLibgit2Fallback == b.skipLibgit2Fallback
  }

  /** Larger limits change nothing in an unhindered walk. */
  lemma LargerLimits(src: Sources, limits: Limits, late: nat -> bool, oids: seq<Oid>, events: seq<CommitEvent>)
    requires Unhindered(src, late, oids, events) && AtLeast(limits, src.limits)
    ensures Unhindered(src.(limits := limits), late, oids, events)
  {
    hide NextEvent;
    forall k | 0 <= k < |oids|
      ensures UnhinderedAt(src.(limits := limits), late, oids, events, k)
    {
      assert UnhinderedAt(src, late, oids, events, k);
      NextUnderLarger(src, limits, oids, events[..k]);
    }
  }

  lemma {:induction false} SameMemory(src: Sources, limits: Limits, events: seq<CommitEvent>)
    ensures Remembered(src.(limits := limits), events) == Remembered(src, events)
  {
    if events != [] && src.useEventCache {
      SameMemory(src, limits, events[..|events| - 1]);
    }
  }

  lemma LargerStillWithin(ds: seq<Delta>, limits: Limits, larger: Limits)
    requires WithinCaps(ds, limits) && AtLeast(larger, limits)
    ensures WithinCaps(ds, larger)
  {
    forall d | d in ds
      ensures Fits(d, larger)
    {
      assert Fits(d, limits);
    }
  }

  lemma NextUnderLarger(src: Sources, limits: Limits, oids: seq<Oid>, events: seq<CommitEvent>)
    requires |events| < |oids| && NextEvent(src, oids, events).Some? && AtLeast(limits, src.limits)
    ensures NextEvent(src.(limits := limits), oids, events) == NextEvent(src, oids, events)
  {
    hide WithinCaps, CurrentNames, NameAppears, Remembered;
    SameMemory(src, limits, events);
    var oid := oids[|events|];
    if Diffed(src.repo, oid) && WithinCaps(src.repo[oid].diff.value, src.limits) {
      LargerStillWithin(src.repo[oid].diff.value, src.limits, limits);
    }
    LargerStillWithin(NextEvent(src, oids, events).value.deltas, src.limits, limits);
  }

  function OptionalBytes(path: Option<Path>): nat {
    if path.Some? then PathBytes(path.value) else 0
  }

  /** A bound on the bytes of every path. */
  function AllBytes(ds: seq<Delta>): nat {
    if ds == [] then 0
    else AllBytes(ds[..|ds| - 1]) + OptionalBytes(ds[|ds| - 1].oldPath) + OptionalBytes(ds[|ds| - 1].newPath)
  }

  lemma {:induction false} BoundFits(ds: seq<Delta>, limits: Limits)
    requires AllBytes(ds) <= limits.maxPathBytes
    ensures forall d :: d in ds ==> Fits(d, limits)
  {
    if ds != [] {
      BoundFits(ds[..|ds| - 1], limits);
      assert ds == ds[..|ds| - 1] + [ds[|ds| - 1]];
    }
  }

  /** Limits enlarged to take some deltas. */
  function Enlarged(limits: Limits, ds: seq<Delta>): Limits {
    limits.(maxDeltasPerCommit := limits.maxDeltasPerCommit + |ds|, maxPathBytes := limits.maxPathBytes + AllBytes(ds))
  }

  lemma EnlargedTakes(limits: Limits, ds: seq<Delta>)
    ensures AtLeast(Enlarged(limits, ds), limits) && WithinCaps(ds, Enlarged(limits, ds))
  {
    BoundFits(ds, Enlarged(limits, ds));
  }

  /** Every commit has an event from some source when its turn comes. */
  ghost predicate AllAvailable(src: Sources, oids: seq<Oid>) {
    forall k :: 0 <= k < |oids| ==>
      Available(src.repo, src.limits, src.cache, src.streamed - Elements(oids[..k]), oids[k])
  }

  /** With the fallback allowed, no deadline and an event for every commit, some limits let the walk finish. */
  lemma {:induction false} AmpleLimits(src: Sources, oids: seq<Oid>) returns (limits: Limits, events: seq<CommitEvent>)
    requires AllAvailable(src, oids) && !src.limits.skipLibgit2Fallback
    ensures AtLeast(limits, src.limits) && Unhindered(src.(limits := limits), _ => false, oids, events)
  {
    limits, events := src.limits, [];
    if oids != [] {
      var n := |oids| - 1;
      assert AllAvailable(src, oids[..n]) by {
        forall k | 0 <= k < n
          ensures Available(src.repo, src.limits, src.cache, src.streamed - Elements(oids[..n][..k]), oids[..n][k])
        {
          assert oids[..n][..k] == oids[..k];
        }
      }
      var fewer, earlier := AmpleLimits(src, oids[..n]);
      var next: CommitEvent;
      limits, next := AmpleForOneMore(src.(limits := fewer), oids, earlier);
      LargerLimits(src.(limits := fewer), limits, _ => false, oids[..n], earlier);
      UnhinderedStep(src.(limits := limits), _ => false, oids, n, earlier);
      events := earlier + [next];
      assert oids[..n + 1] == oids;
    }
  }

  lemma {:induction false} KnownStays(src: Sources, events: seq<CommitEvent>)
    ensures src.cache.Keys <= Remembered(src, events).Keys
  {
    if events != [] && src.useEventCache {
      KnownStays(src, events[..|events| - 1]);
    }
  }

  lemma AmpleForOneMore(src: Sources, oids: seq<Oid>, events: seq<CommitEvent>)
    returns (limits: Limits, next: CommitEvent)
    requires |events| < |oids| && !src.limits.skipLibgit2Fallback
    requires var k := |events|;
             Available(src.repo, src.limits, src.cache, src.streamed - Elements(oids[..k]), oids[k])
    ensures AtLeast(limits, src.limits) && NextEvent(src.(limits := limits), oids, events) == Some(next)
    ensures Clear(src.(limits := limits), _ => false, oids, events)
  {
    hide WithinCaps, CurrentNames, NameAppears, Remembered, AllBytes;
    var oid, known := oids[|events|], Remembered(src, events);
    var left := src.streamed - Elements(oids[..|events|]);
    KnownStays(src, events);
    var diff := if Diffed(src.repo, oid) then src.repo[oid].diff.value else [];
    EnlargedTakes(src.limits, diff);
    var forDiff := Enlarged(src.limits, diff);
    var sourced := Sourced(src.repo, forDiff, known, left, oid);
    next := Resolved(src.repo, forDiff, oid, sourced.value, CurrentNames(src.wanted, events)).value;
    EnlargedTakes(forDiff, next.deltas);
    var forNext := Enlarged(forDiff, next.deltas);
    limits := forNext.(maxTotalDeltas := forNext.maxTotalDeltas + DeltaCount(events) + |next.deltas| + 1);
    LargerStillWithin(diff, forDiff, limits);
    LargerStillWithin(next.deltas, forNext, limits);
    SameMemory(src, limits, events);
  }
}
