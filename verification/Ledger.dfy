/** Validating and totalling one run's events in a single pass (scripts/agent-eval/accounting.py). */
module Ledger {
  import opened Orders
  import opened Spans
  import opened LedgerModel

  datatype Registry = Registry(count: nat, seen: set<string>, agents: map<string, Option<string>>,
                               calls: set<(string, string)>, attempts: set<Who>)

  datatype Meter = Meter(tokens: Tokens, reasoning: int, reasoningCalls: int, costs: map<string, real>, costCalls: int,
                         toolCalls: int, toolBytes: int, sourceReads: int, followups: int, sourceBytes: int)

  type SourceKey = (string, string)

  type Reads = map<SourceKey, seq<Span>>

  datatype End = End(status: string, usageComplete: bool)

  /** The quality verdict and the end of the run, once recorded. */
  datatype Outcome = Outcome(passed: Option<bool>, end: Option<End>)

  datatype Tally = Tally(registry: Registry, meter: Meter, kept: Reads, outcome: Outcome)

  const EMPTY := Tally(Registry(0, {}, map[], {}, {}), Meter(Tokens(0, 0, 0, 0, 0), 0, 0, map[], 0, 0, 0, 0, 0, 0),
                       map[], Outcome(None, None))

  // ---------- What the running totals stand for ----------

  ghost predicate RegistryFor(es: seq<Event>, r: Registry) {
    && r.count == |es|
    && r.seen == Gather(es, IdOf)
    && r.agents == Parents(es) && r.agents.Keys == Gather(es, AgentOf)
    && r.calls == Gather(es, CallOf)
    && r.attempts == Gather(es, AttemptOf)
  }

  lemma RegistryOneMore(es: seq<Event>, e: Event, r: Registry, r': Registry)
    requires RegistryFor(es, r)
    requires r'.count == r.count + 1 && r'.seen == r.seen + {e.id} && r'.calls == r.calls + CallOf(e)
    requires r'.attempts == r.attempts + AttemptOf(e)
    requires r'.agents == if e.body.Agent? then r.agents[e.body.agent := e.body.parent] else r.agents
    ensures RegistryFor(es + [e], r')
  {
    GatherOneMore(es, e, IdOf);
    GatherOneMore(es, e, AgentOf);
    GatherOneMore(es, e, CallOf);
    GatherOneMore(es, e, AttemptOf);
    ParentsOneMore(es, e);
  }

  function CurrencyOf(e: Event): set<string> {
    if e.body.Usage? && e.body.cost.Some? then {e.body.cost.value.currency} else {}
  }

  function CostOr(costs: map<string, real>, currency: string): real {
    if currency in costs then costs[currency] else 0.0
  }

  ghost predicate CostsFor(es: seq<Event>, costs: map<string, real>) {
    && costs.Keys == Gather(es, CurrencyOf)
    && forall c :: CostOr(costs, c) == CostTotal(es, c)
  }

  ghost predicate TokensFor(es: seq<Event>, t: Tokens) {
    && t.input == Total(es, InputOf) && t.uncached == Total(es, UncachedOf) && t.cacheRead == Total(es, CacheReadOf)
    && t.cacheCreation == Total(es, CacheCreationOf) && t.output == Total(es, OutputOf)
  }

  ghost predicate MeterFor(es: seq<Event>, t: Meter) {
    && TokensFor(es, t.tokens) && CostsFor(es, t.costs)
    && t.reasoning == Total(es, ReasoningOf) && t.reasoningCalls == Total(es, ReasoningKnown)
    && t.costCalls == Total(es, CostKnown)
    && t.toolCalls == Total(es, IsTool) && t.toolBytes == Total(es, ToolBytesOf)
    && t.sourceReads == Total(es, IsSource) && t.followups == Total(es, IsFollowup)
    && t.sourceBytes == Total(es, SourceBytesOf)
  }

  lemma TokensOneMore(es: seq<Event>, e: Event, t: Tokens)
    requires TokensFor(es, t)
    ensures TokensFor(es + [e], if e.body.Usage? then AddTokens(t, e.body.tokens) else t)
  {
    TotalOneMore(es, e, InputOf);
    TotalOneMore(es, e, UncachedOf);
    TotalOneMore(es, e, CacheReadOf);
    TotalOneMore(es, e, CacheCreationOf);
    TotalOneMore(es, e, OutputOf);
  }

  function AddTokens(a: Tokens, b: Tokens): Tokens {
    Tokens(a.input + b.input, a.uncached + b.uncached, a.cacheRead + b.cacheRead, a.cacheCreation + b.cacheCreation,
           a.output + b.output)
  }

  lemma CostsOneMore(es: seq<Event>, e: Event, costs: map<string, real>)
    requires CostsFor(es, costs) && (e.body.Usage? && e.body.cost.Some? ==> e.body.cost.value.amount.Some?)
    ensures CostsFor(es + [e], AddCost(costs, e.body))
  {
    GatherOneMore(es, e, CurrencyOf);
    forall c ensures CostOr(AddCost(costs, e.body), c) == CostTotal(es + [e], c) {
      CostOneMore(es, e, c);
      assert CostOr(costs, c) == CostTotal(es, c);
    }
  }

  function AddCost(costs: map<string, real>, body: Body): map<string, real> {
    if body.Usage? && body.cost.Some? && body.cost.value.amount.Some?
    then costs[body.cost.value.currency := CostOr(costs, body.cost.value.currency) + body.cost.value.amount.value]
    else costs
  }

  lemma MeterOneMore(es: seq<Event>, e: Event, t: Meter, t': Meter)
    requires MeterFor(es, t) && (e.body.Usage? && e.body.cost.Some? ==> e.body.cost.value.amount.Some?)
    requires t'.tokens == (if e.body.Usage? then AddTokens(t.tokens, e.body.tokens) else t.tokens)
    requires t'.costs == AddCost(t.costs, e.body) && t'.costCalls == t.costCalls + CostKnown(e)
    requires t'.reasoning == t.reasoning + ReasoningOf(e) && t'.reasoningCalls == t.reasoningCalls + ReasoningKnown(e)
    requires t'.toolCalls == t.toolCalls + IsTool(e) && t'.toolBytes == t.toolBytes + ToolBytesOf(e)
    requires t'.sourceReads == t.sourceReads + IsSource(e) && t'.followups == t.followups + IsFollowup(e)
    requires t'.sourceBytes == t.sourceBytes + SourceBytesOf(e)
    ensures MeterFor(es + [e], t')
  {
    hide TokensFor, CostsFor, AddTokens, AddCost, Total;
    TokensOneMore(es, e, t.tokens);
    CostsOneMore(es, e, t.costs);
    TotalOneMore(es, e, CostKnown);
    TotalOneMore(es, e, ReasoningOf);
    TotalOneMore(es, e, ReasoningKnown);
    TotalOneMore(es, e, IsTool);
    TotalOneMore(es, e, ToolBytesOf);
    TotalOneMore(es, e, IsSource);
    TotalOneMore(es, e, IsFollowup);
    TotalOneMore(es, e, SourceBytesOf);
  }

  function SpansAt(kept: Reads, key: SourceKey): seq<Span> {
    if key in kept then kept[key] else []
  }

  /** A byte of a source snapshot was read by some event exactly when the spans kept for that snapshot cover it. */
  ghost predicate ReadsFor(es: seq<Event>, kept: Reads) {
    forall key, x :: ByteKept(es, kept, key, x)
  }

  ghost predicate ByteKept(es: seq<Event>, kept: Reads, key: SourceKey, x: int) {
    (key.0, key.1, x) in Gather(es, BytesOf) <==> x in Covered(SpansAt(kept, key))
  }

  lemma ReadsOneMore(es: seq<Event>, e: Event, kept: Reads)
    requires ReadsFor(es, kept)
    ensures ReadsFor(es + [e], AddRead(kept, e.body))
  {
    hide Covered;
    GatherOneMore(es, e, BytesOf);
    var after := AddRead(kept, e.body);
    forall key, x ensures ByteKept(es + [e], after, key, x) {
      assert ByteKept(es, kept, key, x);
      if e.body.Source? && key == (e.body.path, e.body.snapshot) {
        CoveredAppend(SpansAt(kept, key), e.body.span);
      }
    }
  }

  lemma CoveredAppend(spans: seq<Span>, s: Span)
    ensures Covered(spans + [s]) == Covered(spans) + Covered([s])
  {
    assert s in spans + [s] && s in [s] && forall t :: t in spans ==> t in spans + [s];
    forall x | x in Covered(spans + [s]) ensures x in Covered(spans) + Covered([s]) {
      var t :| t in spans + [s] && t.start <= x < t.stop && Covers(t, x);
      assert t in spans || t == s;
    }
  }

  function AddRead(kept: Reads, body: Body): Reads {
    if body.Source?
    then kept[(body.path, body.snapshot) := SpansAt(kept, (body.path, body.snapshot)) + [body.span]]
    else kept
  }

  ghost predicate OutcomeFor(es: seq<Event>, o: Outcome) {
    && Total(es, IsQuality) == (if o.passed.Some? then 1 else 0)
    && Total(es, IsPassed) == (if o.passed == Some(true) then 1 else 0)
    && Total(es, IsEnd) == (if o.end.Some? then 1 else 0)
    && Total(es, IsSuccess) == (if o.end.Some? && o.end.value.status == "success" then 1 else 0)
    && (o.end.Some? ==> EndsWith(es, o.end.value))
  }

  predicate EndsWith(es: seq<Event>, end: End) {
    && es != []
    && var last := es[|es| - 1].body;
       last.RunEnd? && last.endStatus == end.status && last.usageComplete == end.usageComplete
  }

  lemma OutcomeOneMore(es: seq<Event>, e: Event, o: Outcome, o': Outcome)
    requires OutcomeFor(es, o) && (e.body.Quality? ==> o.passed.None?) && o.end.None?
    requires o'.passed == if e.body.Quality? then Some(e.body.passed) else o.passed
    requires o'.end == if e.body.RunEnd? then Some(End(e.body.endStatus, e.body.usageComplete)) else None
    ensures OutcomeFor(es + [e], o')
  {
    TotalOneMore(es, e, IsQuality);
    TotalOneMore(es, e, IsPassed);
    TotalOneMore(es, e, IsEnd);
    TotalOneMore(es, e, IsSuccess);
  }

  ghost predicate TallyFor(es: seq<Event>, t: Tally) {
    RegistryFor(es, t.registry) && MeterFor(es, t.meter) && ReadsFor(es, t.kept) && OutcomeFor(es, t.outcome)
  }

  lemma NothingTallied()
    ensures TallyFor([], EMPTY)
  {
  }

  // ---------- One event ----------

  /** Whether the event may follow what was recorded, by what the running totals know. */
  predicate Admissible(m: Manifest, r: Registry, o: Outcome, e: Event)
    requires ManifestOk(m)
  {
    && r.count + 1 <= MAX_EVENTS
    && o.end.None?
    && e.schema == 1 && e.runId == m.fields["run_id"] && TextOk(e.id) && e.id !in r.seen
    && BodyOk(m, e.body)
    && (WhoOf(e.body).Some? ==> WhoOf(e.body).value.agent in r.agents)
    && (e.body.Agent? ==> e.body.agent !in r.agents && (e.body.parent.Some? ==> e.body.parent.value in r.agents))
    && (e.body.Usage? ==> (e.body.provider, e.body.call) !in r.calls)
    && (e.body.Quality? ==> o.passed.None?)
    && (e.body.RunEnd? ==>
          SameInventory(e.body.agentIds, r.agents.Keys) && SameInventory(e.body.callIds, CallIds(r.calls)))
  }

  lemma AdmissibleIffOk(m: Manifest, es: seq<Event>, t: Tally, e: Event)
    requires ManifestOk(m) && RegistryFor(es, t.registry) && OutcomeFor(es, t.outcome)
    ensures Admissible(m, t.registry, t.outcome, e) <==> EventOk(m, es, e)
  {
    hide ManifestOk, BodyOk, SameInventory, Gather, Total, TextOk, WhoOf, CallIds;
    IdsOfCalls(es);
  }

  /** Who is known after an event: its id, agent, call and attempt. */
  method Register(ghost es: seq<Event>, r: Registry, e: Event) returns (r': Registry)
    requires RegistryFor(es, r)
    ensures RegistryFor(es + [e], r')
  {
    hide RegistryFor, Gather;
    r' := r.(count := r.count + 1, seen := r.seen + {e.id}, attempts := r.attempts + AttemptOf(e));
    match e.body {
      case Agent(agent, parent) =>
        r' := r'.(agents := r'.agents[agent := parent]);
      case Usage(_, provider, _, call, _, _, _, _, _, _) =>
        r' := r'.(calls := r'.calls + {(provider, call)});
      case _ =>
    }
    RegistryOneMore(es, e, r, r');
  }

  /** What is counted after an event: tokens, reasoning and costs of a call, bytes of a tool or of a source. */
  method Measure(ghost es: seq<Event>, t: Meter, e: Event) returns (t': Meter)
    requires MeterFor(es, t) && (e.body.Usage? && e.body.cost.Some? ==> e.body.cost.value.amount.Some?)
    ensures MeterFor(es + [e], t')
  {
    hide MeterFor, Total;
    t' := t;
    match e.body {
      case Usage(_, _, _, _, _, _, _, tokens, reasoning, cost) =>
        t' := t'.(tokens := AddTokens(t'.tokens, tokens));
        if reasoning.Some? {
          t' := t'.(reasoning := t'.reasoning + reasoning.value, reasoningCalls := t'.reasoningCalls + 1);
        }
        if cost.Some? {
          t' := t'.(costs := AddCost(t'.costs, e.body), costCalls := t'.costCalls + 1);
        }
      case Tool(_, outputBytes, _, _) =>
        t' := t'.(toolCalls := t'.toolCalls + 1, toolBytes := t'.toolBytes + outputBytes);
      case Source(_, _, _, span, followup) =>
        t' := t'.(sourceBytes := t'.sourceBytes + (span.stop - span.start), sourceReads := t'.sourceReads + 1,
                  followups := t'.followups + if followup then 1 else 0);
      case _ =>
    }
    MeterOneMore(es, e, t, t');
  }

  /** One event: rejected exactly when it is out of place, and otherwise added to every total it concerns. */
  method Record(m: Manifest, ghost es: seq<Event>, t: Tally, e: Event) returns (r: Option<Tally>)
    requires ManifestOk(m) && TallyFor(es, t)
    ensures r.Some? <==> EventOk(m, es, e)
    ensures r.Some? ==> TallyFor(es + [e], r.value)
  {
    hide ManifestOk, RegistryFor, MeterFor, ReadsFor, OutcomeFor, EventOk, SameInventory, Gather, Total, TextOk;
    hide Sha256Ok;
    AdmissibleIffOk(m, es, t, e);
    if !Admissible(m, t.registry, t.outcome, e) {
      return None;
    }
    var registry := Register(es, t.registry, e);
    var meter := Measure(es, t.meter, e);
    var outcome := t.outcome;
    match e.body {
      case Quality(passed, _) =>
        outcome := outcome.(passed := Some(passed));
      case RunEnd(status, usageComplete, _, _) =>
        outcome := outcome.(end := Some(End(status, usageComplete)));
      case _ =>
    }
    ReadsOneMore(es, e, t.kept);
    OutcomeOneMore(es, e, t.outcome, outcome);
    r := Some(Tally(registry, meter, AddRead(t.kept, e.body), outcome));
  }

  // ---------- Closing the ledger ----------

  ghost function RootsIn(agents: map<string, Option<string>>): set<string> {
    set a | a in agents && agents[a].None?
  }

  ghost function RootsAmong(agents: map<string, Option<string>>, keys: set<string>): set<string> {
    set a | a in keys && a in agents && agents[a].None?
  }

  method CountRoots(agents: map<string, Option<string>>) returns (n: nat)
    ensures n == |RootsIn(agents)|
  {
    var order := Iterate(agents.Keys);
    n := 0;
    assert RootsAmong(agents, Elements(order[..0])) == {};
    for k := 0 to |order|
      invariant n == |RootsAmong(agents, Elements(order[..k]))|
    {
      TakeOneMore(order, k);
      OneMoreRoot(agents, Elements(order[..k]), order[k]);
      if agents[order[k]].None? {
        n := n + 1;
      }
    }
    TakeAll(order);
    assert RootsAmong(agents, Elements(order)) == RootsIn(agents);
  }

  lemma OneMoreRoot(agents: map<string, Option<string>>, keys: set<string>, a: string)
    requires a in agents && a !in keys
    ensures |RootsAmong(agents, keys + {a})| == |RootsAmong(agents, keys)| + if agents[a].None? then 1 else 0
  {
    var more := RootsAmong(agents, keys + {a});
    assert more == if agents[a].None? then RootsAmong(agents, keys) + {a} else RootsAmong(agents, keys);
  }

  ghost function ReadBytes(kept: Reads, keys: set<SourceKey>): set<(string, string, int)>
    requires keys <= kept.Keys
  {
    set key, x | key in keys && x in Covered(kept[key]) :: (key.0, key.1, x)
  }

  lemma {:induction false} BytesAtSize(key: SourceKey, bytes: set<int>)
    ensures |BytesAt(key, bytes)| == |bytes|
  {
    if forall x :: x !in bytes {
      assert bytes == {} && BytesAt(key, bytes) == {};
    } else {
      var x: int :| x in bytes;
      BytesAtSize(key, bytes - {x});
      assert BytesAt(key, bytes) == BytesAt(key, bytes - {x}) + {(key.0, key.1, x)};
    }
  }

  /** The sum of the union sizes counts each byte of each source snapshot once. */
  method UniqueSource(kept: Reads) returns (size: nat)
    ensures size == |ReadBytes(kept, kept.Keys)|
  {
    hide Covered, ReadBytes, BytesAt;
    var order := Iterate(kept.Keys);
    size := 0;
    NoReadBytes(kept);
    ghost var keys: set<SourceKey> := {};
    for k := 0 to |order|
      invariant keys == Elements(order[..k]) && keys <= kept.Keys
      invariant size == |ReadBytes(kept, keys)|
    {
      var key := order[k];
      TakeOneMore(order, k);
      var one := UnionSize(kept[key]);
      BytesAtSize(key, Covered(kept[key]));
      OneMoreKey(kept, keys, key);
      size := size + one;
      keys := keys + {key};
    }
    TakeAll(order);
    assert keys == kept.Keys;
  }

  lemma NoReadBytes(kept: Reads)
    ensures ReadBytes(kept, {}) == {}
  {
  }

  lemma OneMoreKey(kept: Reads, keys: set<SourceKey>, key: SourceKey)
    requires keys <= kept.Keys && key in kept && key !in keys
    ensures ReadBytes(kept, keys + {key}) == ReadBytes(kept, keys) + BytesAt(key, Covered(kept[key]))
    ensures ReadBytes(kept, keys) !! BytesAt(key, Covered(kept[key]))
  {
    hide Covered;
  }

  lemma AllReadBytes(es: seq<Event>, kept: Reads)
    requires ReadsFor(es, kept)
    ensures ReadBytes(kept, kept.Keys) == Gather(es, BytesOf)
  {
    forall b: (string, string, int) ensures b in ReadBytes(kept, kept.Keys) <==> b in Gather(es, BytesOf) {
      var key: SourceKey := (b.0, b.1);
      assert ByteKept(es, kept, key, b.2);
      assert b == (key.0, key.1, b.2);
    }
  }

  datatype Summary = Summary(status: string, usageComplete: bool, tokens: Tokens, totalTokens: int, reasoning: int,
                             reasoningCalls: int, agents: nat, attempts: nat, modelCalls: nat, costs: map<string, real>,
                             costCalls: int, toolCalls: int, toolBytes: int, sourceReads: int, followups: int,
                             sourceBytes: int, uniqueBytes: int, duplicateBytes: int)

  /** The totals are those of the events. */
  ghost predicate Summarizes(es: seq<Event>, s: Summary) {
    && EndsWith(es, End(s.status, s.usageComplete))
    && TokensFor(es, s.tokens) && s.totalTokens == s.tokens.input + s.tokens.output
    && s.reasoning == Total(es, ReasoningOf) && s.reasoningCalls == Total(es, ReasoningKnown)
    && s.agents == |Gather(es, AgentOf)| && s.attempts == |Gather(es, AttemptOf)|
    && s.modelCalls == |Gather(es, CallOf)|
    && CostsFor(es, s.costs) && s.costCalls == Total(es, CostKnown)
    && s.toolCalls == Total(es, IsTool) && s.toolBytes == Total(es, ToolBytesOf)
    && s.sourceReads == Total(es, IsSource) && s.followups == Total(es, IsFollowup)
    && s.sourceBytes == Total(es, SourceBytesOf) && s.uniqueBytes == |Gather(es, BytesOf)|
    && s.duplicateBytes == s.sourceBytes - s.uniqueBytes
  }

  /** A distinct member for each event of a kind: as many members as such events. */
  lemma {:induction false} CountDistinct<T>(es: seq<Event>, f: Event -> set<T>, kind: Event -> int)
    requires forall k :: 0 <= k < |es| ==> f(es[k]) !! Gather(es[..k], f) && |f(es[k])| == kind(es[k])
    ensures |Gather(es, f)| == Total(es, kind)
  {
    if es != [] {
      var shorter := es[..|es| - 1];
      forall k | 0 <= k < |shorter|
        ensures f(shorter[k]) !! Gather(shorter[..k], f) && |f(shorter[k])| == kind(shorter[k])
      {
        assert shorter[..k] == es[..k] && shorter[k] == es[k];
      }
      CountDistinct(shorter, f, kind);
    }
  }

  function RootOf(e: Event): set<string> {
    if e.body.Agent? && e.body.parent.None? then {e.body.agent} else {}
  }

  lemma {:induction false} RootsGathered(m: Manifest, es: seq<Event>)
    requires ManifestOk(m) && EventsOk(m, es)
    ensures RootsIn(Parents(es)) == Gather(es, RootOf)
    ensures Gather(es, RootOf) <= Gather(es, AgentOf)
  {
    hide EventOk, ManifestOk;
    if es != [] {
      var last := |es| - 1;
      EventsOkPrefix(m, es, last);
      RootsGathered(m, es[..last]);
      ParentsAreAgents(es[..last]);
      assert EventOk(m, es[..last], es[last]);
      NewAgent(m, es[..last], es[last]);
      if es[last].body.Agent? {
        var e := es[last];
        assert e.body.agent !in Parents(es[..last]);
        assert RootsIn(Parents(es)) == RootsIn(Parents(es[..last])) + RootOf(e);
      }
    }
  }

  lemma NewAgent(m: Manifest, before: seq<Event>, e: Event)
    requires ManifestOk(m) && EventOk(m, before, e)
    ensures AgentOf(e) !! Gather(before, AgentOf) && CallOf(e) !! Gather(before, CallOf)
            && IdOf(e) !! Gather(before, IdOf)
  {
  }

  lemma DistinctMembers(m: Manifest, es: seq<Event>)
    requires ManifestOk(m) && EventsOk(m, es)
    ensures |Gather(es, AgentOf)| == Total(es, IsAgent) && |Gather(es, CallOf)| == Total(es, IsUsage)
    ensures |Gather(es, IdOf)| == |es| && |RootsIn(Parents(es))| == Total(es, IsRoot)
  {
    hide EventOk, ManifestOk, Gather, Total;
    forall k | 0 <= k < |es|
      ensures AgentOf(es[k]) !! Gather(es[..k], AgentOf) && CallOf(es[k]) !! Gather(es[..k], CallOf)
      ensures IdOf(es[k]) !! Gather(es[..k], IdOf) && RootOf(es[k]) !! Gather(es[..k], RootOf)
    {
      assert EventOk(m, es[..k], es[k]);
      NewAgent(m, es[..k], es[k]);
      EventsOkPrefix(m, es, k);
      RootsGathered(m, es[..k]);
    }
    CountDistinct(es, AgentOf, IsAgent);
    CountDistinct(es, CallOf, IsUsage);
    CountDistinct(es, IdOf, One);
    OnesCount(es);
    CountDistinct(es, RootOf, IsRoot);
    RootsGathered(m, es);
  }

  function One(e: Event): int { 1 }

  lemma {:induction false} OnesCount(es: seq<Event>)
    ensures Total(es, One) == |es|
  {
    if es != [] {
      OnesCount(es[..|es| - 1]);
    }
  }

  /** A ledger is accepted exactly when it is valid, and the summary holds the totals of its events. */
  method Summarize(m: Manifest, events: seq<Event>) returns (r: Option<Summary>)
    ensures r.Some? <==> ValidLedger(m, events)
    ensures r.Some? ==> Summarizes(events, r.value)
  {
    hide ManifestOk, EventsOk, EventOk, RegistryFor, MeterFor, ReadsFor, OutcomeFor, Gather, Total, TallyFor, TokensFor;
    hide CostsFor;
    if !ManifestOk(m) {
      return None;
    }
    var t := EMPTY;
    NothingTallied();
    NoEventsOk(m);
    assert events[..0] == [];
    for k := 0 to |events|
      invariant EventsOk(m, events[..k]) && TallyFor(events[..k], t)
    {
      EventsOkOneMore(m, events, k);
      TakeOneMore(events, k);
      var next := Record(m, events[..k], t, events[k]);
      if next.None? {
        NotOkYet(m, events, k + 1);
        return None;
      }
      t := next.value;
    }
    TakeAll(events);
    TalliedParts(events, t);
    DistinctMembers(m, events);
    AllReadBytes(events, t.kept);
    var roots := CountRoots(t.registry.agents);
    if t.outcome.end.None? || t.outcome.passed.None? || roots != 1 {
      return None;
    }
    if t.outcome.end.value.status == "success" && (!t.outcome.passed.value || t.registry.calls == {}) {
      return None;
    }
    var unique := UniqueSource(t.kept);
    r := Some(Summary(t.outcome.end.value.status, t.outcome.end.value.usageComplete, t.meter.tokens,
                      t.meter.tokens.input + t.meter.tokens.output, t.meter.reasoning, t.meter.reasoningCalls,
                      |t.registry.agents|, |t.registry.attempts|, |t.registry.calls|, t.meter.costs, t.meter.costCalls,
                      t.meter.toolCalls, t.meter.toolBytes, t.meter.sourceReads, t.meter.followups, t.meter.sourceBytes,
                      unique, t.meter.sourceBytes - unique));
  }

  lemma NoEventsOk(m: Manifest)
    requires ManifestOk(m)
    ensures EventsOk(m, [])
  {
  }

  lemma NotOkYet(m: Manifest, es: seq<Event>, k: nat)
    requires ManifestOk(m) && k <= |es| && !EventsOk(m, es[..k])
    ensures !EventsOk(m, es)
  {
    if EventsOk(m, es) {
      EventsOkPrefix(m, es, k);
    }
  }

  lemma TalliedParts(es: seq<Event>, t: Tally)
    requires TallyFor(es, t)
    ensures OutcomeFor(es, t.outcome) && ReadsFor(es, t.kept) && RegistryFor(es, t.registry) && MeterFor(es, t.meter)
    ensures t.registry.agents == Parents(es) && |t.registry.agents| == |Gather(es, AgentOf)|
    ensures t.registry.calls == Gather(es, CallOf) && t.registry.attempts == Gather(es, AttemptOf)
    ensures Total(es, IsQuality) == (if t.outcome.passed.Some? then 1 else 0)
    ensures Total(es, IsPassed) == (if t.outcome.passed == Some(true) then 1 else 0)
    ensures Total(es, IsEnd) == (if t.outcome.end.Some? then 1 else 0)
    ensures Total(es, IsSuccess) == (if t.outcome.end.Some? && t.outcome.end.value.status == "success" then 1 else 0)
    ensures t.outcome.end.Some? ==> EndsWith(es, t.outcome.end.value)
    ensures TokensFor(es, t.meter.tokens) && CostsFor(es, t.meter.costs)
    ensures t.meter.reasoning == Total(es, ReasoningOf) && t.meter.reasoningCalls == Total(es, ReasoningKnown)
    ensures t.meter.costCalls == Total(es, CostKnown)
    ensures t.meter.toolCalls == Total(es, IsTool) && t.meter.toolBytes == Total(es, ToolBytesOf)
    ensures t.meter.sourceReads == Total(es, IsSource) && t.meter.followups == Total(es, IsFollowup)
    ensures t.meter.sourceBytes == Total(es, SourceBytesOf)
  {
    assert |t.registry.agents| == |t.registry.agents.Keys|;
  }
}
