/** The caps on paths, commits and totals of a churn walk (src/git.rs). */
module EventLimits {
  import opened Orders
  import opened Lineage

  /** Zero commits means unlimited. */
  datatype Limits = Limits(maxCommits: nat, maxDeltasPerCommit: nat, maxTotalDeltas: nat, maxOutputBytes: nat,
                           maxPathBytes: nat, maxCacheBytes: nat, skipLibgit2Fallback: bool)

  datatype Stats = Stats(treeDiffs: nat, renameProbes: nat, eventHits: nat, partial: bool, deltasOmitted: nat,
                         totalDeltas: nat)

  const NO_STATS := Stats(0, 0, 0, false, 0, 0)

  // ---------- Limits ----------

  /** Bytes of a character in UTF-8. */
  function CharBytes(c: char): nat {
    if c as int < 0x80 then 1 else if c as int < 0x800 then 2 else if c as int < 0x10000 then 3 else 4
  }

  function PathBytes(path: Path): nat {
    if path == "" then 0 else PathBytes(path[..|path| - 1]) + CharBytes(path[|path| - 1])
  }

  /** The characters from this code point on. */
  function CharsFrom(path: Path, codePoint: int): set<nat> {
    set i | 0 <= i < |path| && path[i] as int >= codePoint
  }

  lemma CharsFromOneMore(path: Path, codePoint: int)
    requires path != ""
    ensures var front, last := path[..|path| - 1], path[|path| - 1];
            |CharsFrom(path, codePoint)| == |CharsFrom(front, codePoint)| + if last as int >= codePoint then 1 else 0
  {
    var front, last := path[..|path| - 1], path[|path| - 1];
    assert CharsFrom(path, codePoint)
        == CharsFrom(front, codePoint) + if last as int >= codePoint then {|path| - 1} else {};
  }

  /** A byte for every character, one more from U+0080, from U+0800 and from U+10000 on. */
  lemma {:induction false} PathBytesCount(path: Path)
    ensures PathBytes(path)
         == |path| + |CharsFrom(path, 0x80)| + |CharsFrom(path, 0x800)| + |CharsFrom(path, 0x10000)|
  {
    hide CharsFrom;
    if path == "" {
      NoChars();
    } else {
      PathBytesCount(path[..|path| - 1]);
      CharsFromOneMore(path, 0x80);
      CharsFromOneMore(path, 0x800);
      CharsFromOneMore(path, 0x10000);
    }
  }

  lemma NoChars()
    ensures forall codePoint :: CharsFrom("", codePoint) == {}
  {
  }

  predicate PathTooLong(path: Option<Path>, limits: Limits) {
    path.Some? && PathBytes(path.value) > limits.maxPathBytes
  }

  predicate Fits(d: Delta, limits: Limits) {
    !PathTooLong(d.oldPath, limits) && !PathTooLong(d.newPath, limits)
  }

  /** The deltas within the path cap, in order. */
  function Fitting(ds: seq<Delta>, limits: Limits): (kept: seq<Delta>)
    ensures |kept| <= |ds|
    ensures |kept| == |ds| ==> kept == ds
    ensures forall d :: d in kept <==> d in ds && Fits(d, limits)
  {
    if ds == [] then []
    else
      var earlier, last := Fitting(ds[..|ds| - 1], limits), ds[|ds| - 1];
      assert ds == ds[..|ds| - 1] + [last];
      if Fits(last, limits) then earlier + [last] else earlier
  }

  function First<T>(s: seq<T>, n: nat): seq<T> {
    if |s| <= n then s else s[..n]
  }

  function Min(a: nat, b: nat): nat {
    if a < b then a else b
  }

  /** What may be kept of some deltas: the first of those short enough, and no more than the caps leave room for. */
  function Kept(ds: seq<Delta>, limits: Limits, room: nat): seq<Delta> {
    First(Fitting(ds, limits), Min(limits.maxDeltasPerCommit, room))
  }

  /** What is left of the total. */
  function Room(limits: Limits, total: nat): nat {
    if limits.maxTotalDeltas > total then limits.maxTotalDeltas - total else 0
  }

  /** Every delta within the path cap and no more of them than the per-commit cap. */
  predicate WithinCaps(ds: seq<Delta>, limits: Limits) {
    |ds| <= limits.maxDeltasPerCommit && forall d :: d in ds ==> Fits(d, limits)
  }

  lemma {:induction false} AllFit(ds: seq<Delta>, limits: Limits)
    requires forall d :: d in ds ==> Fits(d, limits)
    ensures Fitting(ds, limits) == ds
  {
    if ds != [] {
      assert ds == ds[..|ds| - 1] + [ds[|ds| - 1]];
      AllFit(ds[..|ds| - 1], limits);
    }
  }

  /** What is kept is within the caps, and nothing is lost exactly when everything was and there is room. */
  lemma KeptWithin(ds: seq<Delta>, limits: Limits, room: nat)
    ensures WithinCaps(Kept(ds, limits, room), limits) && |Kept(ds, limits, room)| <= Min(|ds|, room)
    ensures Kept(ds, limits, room) == ds <==> WithinCaps(ds, limits) && |ds| <= room
    ensures |Kept(ds, limits, room)| == |ds| ==> Kept(ds, limits, room) == ds
  {
    if WithinCaps(ds, limits) {
      AllFit(ds, limits);
    }
    forall d | d in Kept(ds, limits, room)
      ensures Fits(d, limits)
    {
      assert d in Fitting(ds, limits);
    }
    if |Fitting(ds, limits)| < |ds| {
      assert Kept(ds, limits, room) != ds;
    }
  }

  /** No path of the delta is longer than the cap. */
  ghost predicate ShortEnough(d: Delta, limits: Limits) {
    && (d.oldPath.Some? ==> PathBytes(d.oldPath.value) <= limits.maxPathBytes)
    && (d.newPath.Some? ==> PathBytes(d.newPath.value) <= limits.maxPathBytes)
  }

  /** The places of the short ones among the first n. */
  ghost function ShortAmong(ds: seq<Delta>, limits: Limits, n: nat): set<nat>
    requires n <= |ds|
  {
    set i | 0 <= i < n && ShortEnough(ds[i], limits)
  }

  lemma ShortOneMore(ds: seq<Delta>, limits: Limits, n: nat)
    requires n < |ds|
    ensures |ShortAmong(ds, limits, n + 1)| == |ShortAmong(ds, limits, n)| + if ShortEnough(ds[n], limits) then 1 else 0
    ensures ShortAmong(ds[..n], limits, n) == ShortAmong(ds, limits, n)
  {
    assert ShortAmong(ds, limits, n + 1)
        == ShortAmong(ds, limits, n) + if ShortEnough(ds[n], limits) then {n} else {};
  }

  lemma {:induction false} FittingSize(ds: seq<Delta>, limits: Limits, n: nat)
    requires n <= |ds|
    ensures |Fitting(ds[..n], limits)| == |ShortAmong(ds, limits, n)|
  {
    hide ShortAmong;
    if n == 0 {
      assert |ShortAmong(ds, limits, 0)| == 0 by { NoneAmong(ds, limits); }
    } else {
      FittingSize(ds, limits, n - 1);
      ShortOneMore(ds, limits, n - 1);
      assert ds[..n][..n - 1] == ds[..n - 1];
    }
  }

  lemma NoneAmong(ds: seq<Delta>, limits: Limits)
    ensures ShortAmong(ds, limits, 0) == {}
  {
  }

  lemma {:induction false} FittingPrefix(ds: seq<Delta>, limits: Limits, n: nat)
    requires n <= |ds|
    ensures Fitting(ds[..n], limits) <= Fitting(ds, limits)
    decreases |ds|
  {
    if n == |ds| {
      assert ds[..n] == ds;
    } else {
      FittingPrefix(ds[..|ds| - 1], limits, n);
      assert ds[..|ds| - 1][..n] == ds[..n];
    }
  }

  /**
   * Kept are the first deltas short enough, in order, as many as both caps leave room for: a short one stays exactly if
   * fewer short ones than that come before it, and stands behind those.
   */
  lemma KeptAreFirst(ds: seq<Delta>, limits: Limits, room: nat, i: nat)
    requires i < |ds|
    ensures var before := |ShortAmong(ds, limits, i)|;
            ShortEnough(ds[i], limits) ==>
                && (before < |Kept(ds, limits, room)| <==> before < room && before < limits.maxDeltasPerCommit)
                && (before < |Kept(ds, limits, room)| ==> Kept(ds, limits, room)[before] == ds[i])
    ensures |Kept(ds, limits, room)| <= |ShortAmong(ds, limits, |ds|)|
    ensures |Kept(ds, limits, room)| == |ShortAmong(ds, limits, |ds|)|
            || |Kept(ds, limits, room)| == room || |Kept(ds, limits, room)| == limits.maxDeltasPerCommit
  {
    hide ShortAmong;
    var fitting := Fitting(ds, limits);
    FittingSize(ds, limits, i);
    FittingSize(ds, limits, |ds|);
    assert ds[..|ds|] == ds;
    FittingPrefix(ds, limits, i + 1);
    assert ds[..i + 1][..i] == ds[..i];
    assert ShortEnough(ds[i], limits) <==> Fits(ds[i], limits);
    if ShortEnough(ds[i], limits) {
      assert Fitting(ds[..i + 1], limits) == Fitting(ds[..i], limits) + [ds[i]];
    }
  }

  /**
   * The caps on one event: which deltas stay, how many are counted as omitted, and when the event was not whole.
   * With the total already above its limit even an event without deltas counts as cut.
   */
  method EnforceEventLimits(event: CommitEvent, limits: Limits, stats: Stats)
    returns (event': CommitEvent, stats': Stats, complete: bool)
    ensures event' == event.(deltas := Kept(event.deltas, limits, Room(limits, stats.totalDeltas)))
    ensures complete
            <==> WithinCaps(event.deltas, limits) && stats.totalDeltas + |event.deltas| <= limits.maxTotalDeltas
    ensures complete ==> event' == event
    ensures stats' == stats.(deltasOmitted := stats.deltasOmitted + |event.deltas| - |event'.deltas|,
                             totalDeltas := stats.totalDeltas + |event'.deltas|, partial := stats.partial || !complete)
  {
    hide Fitting, Fits, WithinCaps;
    KeptWithin(event.deltas, limits, Room(limits, stats.totalDeltas));
    KeptWithin(event.deltas, limits, limits.maxDeltasPerCommit);
    complete := true;
    event', stats' := event, stats;
    var kept := FilterFitting(event.deltas, limits);
    var removed := |event.deltas| - |kept|;
    event' := event'.(deltas := kept);
    if removed > 0 {
      stats' := stats'.(deltasOmitted := stats'.deltasOmitted + removed, partial := true);
      complete := false;
    }
    if |event'.deltas| > limits.maxDeltasPerCommit {
      var excess := |event'.deltas| - limits.maxDeltasPerCommit;
      stats' := stats'.(deltasOmitted := stats'.deltasOmitted + excess, partial := true);
      event' := event'.(deltas := event'.deltas[..limits.maxDeltasPerCommit]);
      complete := false;
    }
    if stats'.totalDeltas + |event'.deltas| > limits.maxTotalDeltas {
      var allowed :=
        if limits.maxTotalDeltas > stats'.totalDeltas then limits.maxTotalDeltas - stats'.totalDeltas else 0;
      stats' := stats'.(deltasOmitted := stats'.deltasOmitted + (|event'.deltas| - allowed), partial := true);
      event' := event'.(deltas := event'.deltas[..allowed]);
      complete := false;
    }
    stats' := stats'.(totalDeltas := stats'.totalDeltas + |event'.deltas|);
  }

  method FilterFitting(ds: seq<Delta>, limits: Limits) returns (kept: seq<Delta>)
    ensures kept == Fitting(ds, limits) && |kept| <= |ds| && (|kept| == |ds| ==> kept == ds)
  {
    kept := [];
    for k := 0 to |ds|
      invariant kept == Fitting(ds[..k], limits)
    {
      assert ds[..k + 1][..k] == ds[..k];
      if Fits(ds[k], limits) {
        kept := kept + [ds[k]];
      }
    }
    assert ds[..|ds|] == ds;
  }

  /** Reading a libgit2 diff under the caps: the first deltas short enough, and whatever is dropped is counted. */
  method CachedDeltas(diff: seq<Delta>, limits: Limits, stats: Stats) returns (deltas: seq<Delta>, stats': Stats)
    ensures deltas == Kept(diff, limits, limits.maxDeltasPerCommit) && WithinCaps(deltas, limits)
    ensures deltas == diff <==> WithinCaps(diff, limits)
    ensures stats' == stats.(deltasOmitted := stats.deltasOmitted + |diff| - |deltas|,
                             partial := stats.partial || !WithinCaps(diff, limits))
  {
    deltas, stats' := [], stats;
    for k := 0 to |diff|
      invariant deltas == Kept(diff[..k], limits, limits.maxDeltasPerCommit) && |deltas| <= k
      invariant stats' == stats.(deltasOmitted := stats.deltasOmitted + k - |deltas|,
                                 partial := stats.partial || |deltas| < k)
    {
      var delta := diff[k];
      assert diff[..k + 1][..k] == diff[..k];
      if |deltas| >= limits.maxDeltasPerCommit || PathTooLong(delta.oldPath, limits)
         || PathTooLong(delta.newPath, limits)
      {
        stats' := stats'.(partial := true, deltasOmitted := stats'.deltasOmitted + 1);
      } else {
        deltas := deltas + [delta];
      }
    }
    assert diff[..|diff|] == diff;
    KeptWithin(diff, limits, limits.maxDeltasPerCommit);
  }
}
