/** How many bytes a list of half-open spans covers (scripts/agent-eval/accounting.py). */
module Spans {
  import opened Orders

  datatype Span = Span(start: int, stop: int)

  predicate StartsFirst(a: Span, b: Span) {
    a.start < b.start || (a.start == b.start && a.stop <= b.stop)
  }

  /** The sweep begins at -1, so positions before that are not counted; byte positions never are. */
  const SWEEP_START := -1

  predicate Covers(s: Span, x: int) {
    s.start <= x < s.stop && SWEEP_START <= x
  }

  predicate Between(lo: int, x: int, hi: int) {
    lo <= x < hi
  }

  ghost function Covered(spans: seq<Span>): set<int> {
    set s, x | s in spans && s.start <= x < s.stop && Covers(s, x) :: x
  }

  ghost function Interval(lo: int, hi: int): set<int> {
    set x | lo <= x < hi && Between(lo, x, hi)
  }

  lemma {:induction false} IntervalSize(lo: int, hi: int)
    ensures |Interval(lo, hi)| == if lo < hi then hi - lo else 0
    decreases hi - lo
  {
    if lo < hi {
      IntervalSize(lo, hi - 1);
      assert Interval(lo, hi) == Interval(lo, hi - 1) + {hi - 1};
    } else {
      assert Interval(lo, hi) == {};
    }
  }

  lemma StartsFirstOrder()
    ensures TotalPreorder(StartsFirst)
  {
  }

  /** The stops met so far, the sweep start included. */
  ghost predicate Frontier(spans: seq<Span>, end: int) {
    && SWEEP_START <= end
    && (forall s :: s in spans ==> s.stop <= end)
    && (end == SWEEP_START || exists s :: s in spans && s.stop == end)
  }

  /** What a span adds to spans that all start no later is exactly what lies beyond the frontier. */
  lemma SpanAdds(spans: seq<Span>, end: int, s: Span)
    requires Frontier(spans, end) && forall t :: t in spans ==> t.start <= s.start
    ensures Covered(spans + [s]) == Covered(spans) + Interval(if s.start > end then s.start else end, s.stop)
    ensures Covered(spans) !! Interval(if s.start > end then s.start else end, s.stop)
  {
    var lo := if s.start > end then s.start else end;
    var more := spans + [s];
    assert s in more && forall t :: t in spans ==> t in more;
    forall x | x in Covered(more) ensures x in Covered(spans) || x in Interval(lo, s.stop) {
      var t :| t in more && t.start <= x < t.stop && Covers(t, x);
      if t !in spans {
        assert t == s && Covers(s, x);
        if x < end {
          var far :| far in spans && far.stop == end;
          assert Covers(far, x);
        } else {
          assert Between(lo, x, s.stop);
        }
      }
    }
    forall x | x in Interval(lo, s.stop) ensures x in Covered(more) && x !in Covered(spans) {
      assert Between(lo, x, s.stop) && Covers(s, x);
    }
  }

  /** The size of the union, for spans in any order, overlapping, nested, empty or reversed. */
  method UnionSize(spans: seq<Span>) returns (size: nat)
    ensures size == |Covered(spans)|
  {
    hide Covered, Frontier, Interval;
    StartsFirstOrder();
    SortSorted(spans, StartsFirst);
    SortPermutes(spans, StartsFirst);
    var sorted := Sort(spans, StartsFirst);
    var end := SWEEP_START;
    size := 0;
    NothingCovered();
    for k := 0 to |sorted|
      invariant Frontier(sorted[..k], end)
      invariant size == |Covered(sorted[..k])|
    {
      var s := sorted[k];
      var lo := if s.start > end then s.start else end;
      SortedStarts(sorted, k);
      SpanAdds(sorted[..k], end, s);
      IntervalSize(lo, s.stop);
      TakeOneMore(sorted, k);
      size := size + if s.stop - lo > 0 then s.stop - lo else 0;
      FrontierMoves(sorted[..k], end, s);
      end := if s.stop > end then s.stop else end;
    }
    TakeAll(sorted);
    SameCover(spans, sorted);
  }

  lemma NothingCovered()
    ensures Covered([]) == {} && Frontier([], SWEEP_START)
  {
  }

  lemma SortedStarts(sorted: seq<Span>, k: nat)
    requires Sorted(sorted, StartsFirst) && k < |sorted|
    ensures forall t :: t in sorted[..k] ==> t.start <= sorted[k].start
  {
    forall t | t in sorted[..k] ensures t.start <= sorted[k].start {
      var j :| 0 <= j < k && sorted[j] == t;
      assert StartsFirst(sorted[j], sorted[k]);
    }
  }

  lemma FrontierMoves(spans: seq<Span>, end: int, s: Span)
    requires Frontier(spans, end)
    ensures Frontier(spans + [s], if s.stop > end then s.stop else end)
  {
    var more := spans + [s];
    assert s in more && forall t :: t in spans ==> t in more;
  }

  lemma SameCover(a: seq<Span>, b: seq<Span>)
    requires forall s :: s in a <==> s in b
    ensures Covered(a) == Covered(b)
  {
  }

  /** With no position below the sweep start, nothing is left out of the count. */
  lemma CoveredIsUnion(spans: seq<Span>, x: int)
    requires forall s :: s in spans ==> 0 <= s.start
    ensures x in Covered(spans) <==> exists s :: s in spans && s.start <= x < s.stop
  {
    forall s | s in spans && s.start <= x < s.stop ensures x in Covered(spans) {
      assert Covers(s, x);
    }
  }

  /** The count misses part of the union exactly when some span covers a position below the sweep start. */
  lemma UnderCountIffBelowSweep(spans: seq<Span>)
    ensures (exists s, x :: s in spans && s.start <= x < s.stop && x !in Covered(spans))
            <==> exists s :: s in spans && s.start < s.stop && s.start < SWEEP_START
  {
    forall s, x | s in spans && s.start <= x < s.stop ensures x in Covered(spans) || x < SWEEP_START {
      assert x >= SWEEP_START ==> Covers(s, x);
    }
    if exists s :: s in spans && s.start < s.stop && s.start < SWEEP_START {
      var s :| s in spans && s.start < s.stop && s.start < SWEEP_START;
      assert s.start !in Covered(spans);
    }
  }
}
