/** What an accepted ledger guarantees (scripts/agent-eval/accounting.py). */
module LedgerFacts {
  import opened Orders
  import opened Spans
  import opened LedgerModel
  import opened Ledger

  // ---------- The agents form one rooted tree ----------

  /** Following parents from one agent reaches another in so many steps. */
  ghost predicate ClimbsTo(parents: map<string, Option<string>>, a: string, b: string, steps: nat)
    decreases steps
  {
    && a in parents
    && if steps == 0 then a == b
       else parents[a].Some? && ClimbsTo(parents, parents[a].value, b, steps - 1)
  }

  ghost predicate Climbs(parents: map<string, Option<string>>, a: string, b: string) {
    exists n: nat :: ClimbsTo(parents, a, b, n)
  }

  ghost predicate HasRoot(parents: map<string, Option<string>>, a: string) {
    exists r :: r in RootsIn(parents) && Climbs(parents, a, r)
  }

  lemma {:induction false} ClimbKept(parents: map<string, Option<string>>, more: map<string, Option<string>>,
                                     a: string, b: string, steps: nat)
    requires forall k :: k in parents ==> k in more && more[k] == parents[k]
    requires ClimbsTo(parents, a, b, steps)
    ensures ClimbsTo(more, a, b, steps) && b in parents
    decreases steps
  {
    if steps > 0 {
      ClimbKept(parents, more, parents[a].value, b, steps - 1);
    }
  }

  lemma {:induction false} EveryAgentHasARoot(m: Manifest, es: seq<Event>, a: string)
    requires ManifestOk(m) && EventsOk(m, es) && a in Parents(es)
    ensures HasRoot(Parents(es), a)
  {
    hide EventOk, ManifestOk;
    if es != [] {
      var last := |es| - 1;
      var before, e := Parents(es[..last]), es[last];
      EventsOkPrefix(m, es, last);
      assert EventOk(m, es[..last], e);
      NewAgent(m, es[..last], e);
      KnownParent(m, es[..last], e);
      ParentsAreAgents(es[..last]);
      if e.body.Agent? && a == e.body.agent {
        if e.body.parent.None? {
          assert ClimbsTo(Parents(es), a, a, 0) && a in RootsIn(Parents(es));
        } else {
          var p := e.body.parent.value;
          EveryAgentHasARoot(m, es[..last], p);
          var r :| r in RootsIn(before) && Climbs(before, p, r);
          var n: nat :| ClimbsTo(before, p, r, n);
          ClimbKept(before, Parents(es), p, r, n);
          assert ClimbsTo(Parents(es), a, r, n + 1) && r in RootsIn(Parents(es));
        }
      } else {
        EveryAgentHasARoot(m, es[..last], a);
        var r :| r in RootsIn(before) && Climbs(before, a, r);
        var n: nat :| ClimbsTo(before, a, r, n);
        ClimbKept(before, Parents(es), a, r, n);
        assert r in RootsIn(Parents(es));
      }
    }
  }

  lemma KnownParent(m: Manifest, before: seq<Event>, e: Event)
    requires ManifestOk(m) && EventOk(m, before, e)
    ensures e.body.Agent? && e.body.parent.Some? ==> e.body.parent.value in Gather(before, AgentOf)
  {
  }

  /** A climb that ends at a root never comes back to where it began. */
  lemma {:induction false} NoCycle(parents: map<string, Option<string>>, a: string, r: string, n: nat, k: nat)
    requires ClimbsTo(parents, a, r, n) && r in RootsIn(parents)
    ensures k > 0 ==> !ClimbsTo(parents, a, a, k)
    decreases n
  {
    if n > 0 && k > 0 && ClimbsTo(parents, a, a, k) {
      ShiftClimb(parents, a, k);
      NoCycle(parents, parents[a].value, r, n - 1, k);
    }
  }

  lemma ShiftClimb(parents: map<string, Option<string>>, a: string, k: nat)
    requires k > 0 && ClimbsTo(parents, a, a, k)
    ensures ClimbsTo(parents, parents[a].value, parents[a].value, k)
  {
    ExtendClimb(parents, parents[a].value, a, k - 1);
  }

  lemma {:induction false} ExtendClimb(parents: map<string, Option<string>>, a: string, b: string, k: nat)
    requires ClimbsTo(parents, a, b, k) && b in parents && parents[b].Some? && parents[b].value in parents
    ensures ClimbsTo(parents, a, parents[b].value, k + 1)
    decreases k
  {
    if k == 0 {
      assert ClimbsTo(parents, parents[b].value, parents[b].value, 0);
    } else {
      ExtendClimb(parents, parents[a].value, b, k - 1);
    }
  }

  /** An accepted ledger has exactly one root, every agent climbs to it, and no agent is its own ancestor. */
  lemma AgentsFormOneTree(m: Manifest, es: seq<Event>) returns (root: string)
    requires ValidLedger(m, es)
    ensures RootsIn(Parents(es)) == {root}
    ensures forall a :: a in Parents(es) ==> Climbs(Parents(es), a, root)
    ensures forall a, k: nat :: a in Parents(es) && k > 0 ==> !ClimbsTo(Parents(es), a, a, k)
  {
    hide EventsOk, ManifestOk;
    DistinctMembers(m, es);
    var parents := Parents(es);
    var roots := RootsIn(parents);
    assert roots != {};
    root :| root in roots;
    OnlyMember(roots, root);
    forall a | a in parents
      ensures Climbs(parents, a, root)
      ensures forall k: nat :: k > 0 ==> !ClimbsTo(parents, a, a, k)
    {
      EveryAgentHasARoot(m, es, a);
      var r :| r in roots && Climbs(parents, a, r);
      assert r == root;
      var n: nat :| ClimbsTo(parents, a, root, n);
      forall k: nat | k > 0 ensures !ClimbsTo(parents, a, a, k) {
        NoCycle(parents, a, root, n, k);
      }
    }
  }

  lemma OnlyMember<T>(s: set<T>, x: T)
    requires |s| == 1 && x in s
    ensures s == {x}
  {
    assert |s - {x}| == 0;
    assert s == {x} + (s - {x});
  }

  // ---------- Ends and counts ----------

  lemma {:induction false} NoEndBefore(es: seq<Event>, i: nat)
    requires i < |es| && Total(es, IsEnd) == 0
    ensures !es[i].body.RunEnd?
    decreases |es|
  {
    EndsNotNegative(es[..|es| - 1]);
    if i < |es| - 1 {
      NoEndBefore(es[..|es| - 1], i);
      assert es[..|es| - 1][i] == es[i];
    }
  }

  lemma {:induction false} EndsNotNegative(es: seq<Event>)
    ensures Total(es, IsEnd) >= 0
  {
    if es != [] {
      EndsNotNegative(es[..|es| - 1]);
    }
  }

  /** The end of the run is the last event, and no other. */
  lemma EndIsLast(m: Manifest, es: seq<Event>)
    requires ValidLedger(m, es)
    ensures es != [] && forall i :: 0 <= i < |es| ==> (es[i].body.RunEnd? <==> i == |es| - 1)
  {
    hide ManifestOk;
    var last := |es| - 1;
    assert es != [] && EventOk(m, es[..last], es[last]);
    forall i | 0 <= i < last ensures !es[i].body.RunEnd? {
      NoEndBefore(es[..last], i);
      assert es[..last][i] == es[i];
    }
  }

  /** Every call counts once: distinct calls are as many as usage events, and likewise agents and event ids. */
  lemma CallsCountOnce(m: Manifest, es: seq<Event>, s: Summary)
    requires ValidLedger(m, es) && Summarizes(es, s)
    ensures s.modelCalls == Total(es, IsUsage) && s.agents == Total(es, IsAgent)
    ensures |Gather(es, IdOf)| == |es|
  {
    hide EventsOk, ManifestOk;
    DistinctMembers(m, es);
  }

  // ---------- Conservation ----------

  /** Input tokens split exactly into their three parts, and reasoning is part of the output. */
  lemma {:induction false} TokensAddUp(m: Manifest, es: seq<Event>)
    requires ManifestOk(m) && EventsOk(m, es)
    ensures Total(es, InputOf) == Total(es, UncachedOf) + Total(es, CacheReadOf) + Total(es, CacheCreationOf)
    ensures 0 <= Total(es, ReasoningOf) <= Total(es, OutputOf)
  {
    hide EventOk, ManifestOk;
    if es != [] {
      var last := |es| - 1;
      EventsOkPrefix(m, es, last);
      TokensAddUp(m, es[..last]);
      assert EventOk(m, es[..last], es[last]);
      UsageAddsUp(m, es[..last], es[last]);
    }
  }

  lemma UsageAddsUp(m: Manifest, before: seq<Event>, e: Event)
    requires ManifestOk(m) && EventOk(m, before, e)
    ensures InputOf(e) == UncachedOf(e) + CacheReadOf(e) + CacheCreationOf(e)
    ensures 0 <= ReasoningOf(e) <= OutputOf(e)
    ensures e.body.Source? ==> 0 <= e.body.span.start <= e.body.span.stop
  {
  }

  /** No byte is counted as unique more often than it was read. */
  lemma {:induction false} UniqueWithinRead(m: Manifest, es: seq<Event>)
    requires ManifestOk(m) && EventsOk(m, es)
    ensures |Gather(es, BytesOf)| <= Total(es, SourceBytesOf)
  {
    hide EventOk, ManifestOk;
    if es != [] {
      var last := |es| - 1;
      var e := es[last];
      EventsOkPrefix(m, es, last);
      UniqueWithinRead(m, es[..last]);
      assert EventOk(m, es[..last], e);
      UsageAddsUp(m, es[..last], e);
      if e.body.Source? {
        SpanBytes(e.body.span);
        BytesAtSize((e.body.path, e.body.snapshot), Covered([e.body.span]));
      }
      UnionAtMost(Gather(es[..last], BytesOf), BytesOf(e));
    }
  }

  lemma SpanBytes(s: Span)
    requires 0 <= s.start <= s.stop
    ensures |Covered([s])| == s.stop - s.start
  {
    assert s in [s];
    forall x ensures x in Covered([s]) <==> x in Interval(s.start, s.stop) {
      assert Between(s.start, x, s.stop) <==> Covers(s, x);
    }
    IntervalSize(s.start, s.stop);
    assert Covered([s]) == Interval(s.start, s.stop);
  }

  lemma UnionAtMost<T>(a: set<T>, b: set<T>)
    ensures |a + b| <= |a| + |b|
  {
    assert |a + b| == |a| + |b| - |a * b|;
  }

  lemma {:induction false} SuccessAmongEnds(es: seq<Event>)
    ensures 0 <= Total(es, IsSuccess) <= Total(es, IsEnd)
  {
    if es != [] {
      SuccessAmongEnds(es[..|es| - 1]);
    }
  }

  lemma SuccessHasCalls(m: Manifest, es: seq<Event>, s: Summary)
    requires ValidLedger(m, es) && Summarizes(es, s) && s.status == "success"
    ensures s.modelCalls > 0
  {
    hide EventsOk, ManifestOk, TokensFor, CostsFor, Gather;
    SuccessAmongEnds(es[..|es| - 1]);
    assert Total(es, IsSuccess) == Total(es[..|es| - 1], IsSuccess) + 1;
    assert Total(es, IsSuccess) == 1;
    SomeMember(Gather(es, CallOf));
  }

  lemma SomeMember<T>(s: set<T>)
    requires s != {}
    ensures |s| > 0
  {
  }

  /** The summary of an accepted ledger conserves tokens and source bytes. */
  lemma SummaryConserves(m: Manifest, es: seq<Event>, s: Summary)
    requires ValidLedger(m, es) && Summarizes(es, s)
    ensures s.tokens.input == s.tokens.uncached + s.tokens.cacheRead + s.tokens.cacheCreation
    ensures 0 <= s.reasoning <= s.tokens.output
    ensures 0 <= s.uniqueBytes <= s.sourceBytes && s.uniqueBytes + s.duplicateBytes == s.sourceBytes
    ensures s.status == "success" ==> s.modelCalls > 0
  {
    hide EventsOk, ManifestOk, Gather, Total, CostsFor;
    TokensAddUp(m, es);
    UniqueWithinRead(m, es);
    if s.status == "success" {
      SuccessHasCalls(m, es, s);
    }
  }

  /** For every acceptable manifest there is an accepted ledger: one root agent, a verdict and an aborted end. */
  lemma ShortestLedger(m: Manifest, evidence: string, usageComplete: bool) returns (es: seq<Event>)
    requires ManifestOk(m) && Sha256Ok(evidence)
    ensures ValidLedger(m, es)
  {
    hide Gather, Total, Elements, EventOk, BodyOk, ManifestOk, Sha256Ok;
    RunIdThere(m);
    var run := m.fields["run_id"];
    var agent := Event(1, run, "a", Agent("root", None));
    var quality := Event(1, run, "b", Quality(false, evidence));
    var end := Event(1, run, "c", RunEnd("aborted", usageComplete, ["root"], []));
    es := [agent, quality, end];
    Ids("a", "b", "c");
    Prefixes(agent, quality, end, IdOf);
    Prefixes(agent, quality, end, AgentOf);
    Prefixes(agent, quality, end, CallIdOf);
    Sums(agent, quality, end, IsEnd);
    Sums(agent, quality, end, IsQuality);
    Sums(agent, quality, end, IsRoot);
    Sums(agent, quality, end, IsSuccess);
    assert es[..0] == [] && es[..1] == [agent] && es[..2] == [agent, quality];
    OneAndNone("root");
    InPlace(m, es[..0], agent);
    InPlace(m, es[..1], quality);
    InPlace(m, es[..2], end);
  }

  lemma RunIdThere(m: Manifest)
    requires ManifestOk(m)
    ensures "run_id" in m.fields
  {
    assert "run_id" in CONDITIONS + ["run_id"];
  }

  /** The records of the shortest ledger fit where they stand. */
  lemma InPlace(m: Manifest, before: seq<Event>, e: Event)
    requires ManifestOk(m) && "run_id" in m.fields && |before| < MAX_EVENTS && Total(before, IsEnd) == 0
    requires e.schema == 1 && e.runId == m.fields["run_id"] && TextOk(e.id) && e.id !in Gather(before, IdOf)
    requires || (e.body.Agent? && e.body.parent.None? && TextOk(e.body.agent)
                 && e.body.agent !in Gather(before, AgentOf))
             || (e.body.Quality? && Sha256Ok(e.body.evidence) && Total(before, IsQuality) == 0)
             || (e.body.RunEnd? && e.body.endStatus == "aborted"
                 && SameInventory(e.body.agentIds, Gather(before, AgentOf))
                 && SameInventory(e.body.callIds, Gather(before, CallIdOf)))
    ensures EventOk(m, before, e)
  {
    hide Gather, Total, Sha256Ok, SameInventory, TextOk;
  }

  lemma OneAndNone(a: string)
    ensures Elements([a]) == {a} && Elements<string>([]) == {}
  {
  }

  lemma Ids(a: string, b: string, c: string)
    requires a == "a" && b == "b" && c == "c"
    ensures a != b && b != c && a != c
  {
    assert a[0] != b[0] && b[0] != c[0] && a[0] != c[0];
  }

  lemma GatherNothing<T>(f: Event -> set<T>)
    ensures Gather([], f) == {}
  {
  }

  lemma Prefixes<T>(a: Event, b: Event, c: Event, f: Event -> set<T>)
    ensures Gather([], f) == {} && Gather([a], f) == f(a) && Gather([a, b], f) == f(a) + f(b)
    ensures Gather([a, b, c], f) == f(a) + f(b) + f(c)
  {
    GatherNothing(f);
    hide Gather;
    assert [a] == [] + [a] && [a, b] == [a] + [b] && [a, b, c] == [a, b] + [c];
    GatherOneMore([], a, f);
    GatherOneMore([a], b, f);
    GatherOneMore([a, b], c, f);
  }

  lemma Sums(a: Event, b: Event, c: Event, f: Event -> int)
    ensures Total([], f) == 0 && Total([a], f) == f(a) && Total([a, b], f) == f(a) + f(b)
    ensures Total([a, b, c], f) == f(a) + f(b) + f(c)
  {
    assert [a] == [] + [a] && [a, b] == [a] + [b] && [a, b, c] == [a, b] + [c];
    TotalOneMore([], a, f);
    TotalOneMore([a], b, f);
    TotalOneMore([a, b], c, f);
  }
}
