/** Acceptance and totals of a ledger, told record by record (scripts/agent-eval/accounting.py). */
module LedgerRecords {
  import opened Orders
  import opened Spans
  import opened LedgerModel
  import opened Ledger

  // ---------- What a record must be ----------

  ghost predicate IsText(s: string) {
    s != "" && |s| <= 4096
  }

  /** A lower-case hexadecimal SHA256. */
  ghost predicate IsHash(s: string) {
    |s| == 64 && forall c :: c in s ==> '0' <= c <= '9' || 'a' <= c <= 'f'
  }

  ghost predicate HasText(m: Manifest, field: string) {
    field in m.fields && IsText(m.fields[field])
  }

  ghost predicate HasHash(m: Manifest, field: string) {
    field in m.fields && IsHash(m.fields[field])
  }

  ghost predicate ManifestFits(m: Manifest) {
    && m.schema == 1
    && HasText(m, "task_id") && HasText(m, "model") && HasText(m, "harness") && HasText(m, "provider")
    && HasText(m, "retention_policy") && HasText(m, "run_id")
    && HasHash(m, "fixture_sha256") && HasHash(m, "task_sha256") && HasHash(m, "oracle_sha256")
    && HasHash(m, "start_context_sha256")
    && "variant" in m.fields && m.fields["variant"] in ["baseline", "reposcout"]
    && "mode" in m.fields && m.fields["mode"] in ["isolated", "end-to-end"]
    && "evidence_kind" in m.fields && m.fields["evidence_kind"] in ["synthetic", "observed"]
  }

  lemma HashIsText(s: string)
    ensures Sha256Ok(s) <==> IsHash(s)
    ensures TextOk(s) <==> IsText(s)
    ensures IsHash(s) ==> IsText(s)
  {
    if Sha256Ok(s) {
      forall c | c in s
        ensures '0' <= c <= '9' || 'a' <= c <= 'f'
      {
        var i :| 0 <= i < |s| && s[i] == c;
      }
    }
    if IsHash(s) {
      forall i | 0 <= i < |s|
        ensures '0' <= s[i] <= '9' || 'a' <= s[i] <= 'f'
      {
        assert s[i] in s;
      }
    }
  }

  ghost predicate Ended(status: string) {
    status == "success" || status == "failed" || status == "aborted"
  }

  ghost predicate CallFits(m: Manifest, body: Body)
    requires body.Usage? && ManifestFits(m)
  {
    && body.provider == m.fields["provider"] && body.model == m.fields["model"] && IsText(body.call)
    && body.final && Ended(body.status)
    && IsHash(body.provenance.rawSha256) && IsText(body.provenance.mappingId)
    && IsText(body.provenance.mappingReference)
    && (var t := body.tokens;
        && t.uncached >= 0 && t.cacheRead >= 0 && t.cacheCreation >= 0 && t.output >= 0
        && t.input == t.uncached + t.cacheRead + t.cacheCreation)
    && (body.reasoning.Some? ==> 0 <= body.reasoning.value <= body.tokens.output)
    && (body.cost.Some? ==>
          IsText(body.cost.value.currency) && body.cost.value.amount.Some? && body.cost.value.amount.value >= 0.0)
  }

  /** The record by itself, against the manifest. */
  ghost predicate RecordFits(m: Manifest, body: Body)
    requires ManifestFits(m)
  {
    match body
    case Agent(agent, _) => IsText(agent)
    case Usage(who, _, _, _, _, _, _, _, _, _) => IsText(who.attempt) && CallFits(m, body)
    case Tool(who, outputBytes, phase, latencyMs) =>
      && IsText(who.attempt) && outputBytes >= 0 && latencyMs >= 0
      && (phase == "cold" || phase == "warm" || phase == "after-edit" || phase == "other")
    case Source(who, path, snapshot, span, _) =>
      IsText(who.attempt) && IsText(path) && IsHash(snapshot) && 0 <= span.start <= span.stop
    case Context(who, operation) => IsText(who.attempt) && (operation == "retention" || operation == "compaction")
    case Quality(_, evidence) => IsHash(evidence)
    case RunEnd(status, _, _, _) => Ended(status)
    case Unknown => false
  }

  /** The fields that must be texts. */
  lemma TextFields()
    ensures CONDITIONS + ["run_id"]
         == ["task_id", "fixture_sha256", "task_sha256", "oracle_sha256", "model", "harness", "start_context_sha256",
             "mode", "provider", "retention_policy", "evidence_kind", "run_id"]
  {
  }

  lemma TextThere(m: Manifest, k: nat)
    requires ManifestOk(m) && k < |CONDITIONS + ["run_id"]|
    ensures HasText(m, (CONDITIONS + ["run_id"])[k])
  {
    hide Sha256Ok, IsText, IsHash, FieldIn;
    var f := (CONDITIONS + ["run_id"])[k];
    assert f in CONDITIONS + ["run_id"];
    HashIsText(m.fields[f]);
  }

  lemma HashThere(m: Manifest, k: nat)
    requires ManifestOk(m) && k < 4
    ensures HasHash(m, ["fixture_sha256", "task_sha256", "oracle_sha256", "start_context_sha256"][k])
  {
    hide Sha256Ok, TextOk, IsText, IsHash, FieldIn;
    var hashes := ["fixture_sha256", "task_sha256", "oracle_sha256", "start_context_sha256"];
    assert hashes[k] in hashes;
    HashIsText(m.fields[hashes[k]]);
  }

  lemma ChoicesThere(m: Manifest)
    requires ManifestOk(m)
    ensures m.schema == 1 && "variant" in m.fields && m.fields["variant"] in ["baseline", "reposcout"]
    ensures "mode" in m.fields && m.fields["mode"] in ["isolated", "end-to-end"]
    ensures "evidence_kind" in m.fields && m.fields["evidence_kind"] in ["synthetic", "observed"]
  {
    hide TextOk, Sha256Ok;
  }

  lemma FieldsFit(m: Manifest)
    requires ManifestOk(m)
    ensures ManifestFits(m)
  {
    hide ManifestOk, HasText, HasHash;
    TextFields();
    ChoicesThere(m);
    forall k: nat | k < 12
      ensures HasText(m, (CONDITIONS + ["run_id"])[k])
    {
      TextThere(m, k);
    }
    HashThere(m, 0);
    HashThere(m, 1);
    HashThere(m, 2);
    HashThere(m, 3);
    assert HasText(m, (CONDITIONS + ["run_id"])[0]) && HasText(m, (CONDITIONS + ["run_id"])[4]);
    assert HasText(m, (CONDITIONS + ["run_id"])[5]) && HasText(m, (CONDITIONS + ["run_id"])[8]);
    assert HasText(m, (CONDITIONS + ["run_id"])[9]) && HasText(m, (CONDITIONS + ["run_id"])[11]);
  }

  lemma FieldsAreOk(m: Manifest)
    requires ManifestFits(m)
    ensures ManifestOk(m)
  {
    hide TextOk, Sha256Ok, IsText, IsHash;
    TextFields();
    forall s: string
      ensures (Sha256Ok(s) <==> IsHash(s)) && (TextOk(s) <==> IsText(s)) && (IsHash(s) ==> IsText(s))
    {
      HashIsText(s);
    }
    ChoicesAreTexts();
    forall f | f in CONDITIONS + ["run_id"]
      ensures f in m.fields && TextOk(m.fields[f])
    {
    }
  }

  lemma ChoicesAreTexts()
    ensures TextOk("isolated") && TextOk("end-to-end") && TextOk("synthetic") && TextOk("observed")
  {
  }

  lemma ManifestIff(m: Manifest)
    ensures ManifestOk(m) <==> ManifestFits(m)
  {
    if ManifestOk(m) {
      FieldsFit(m);
    }
    if ManifestFits(m) {
      FieldsAreOk(m);
    }
  }

  lemma RecordIff(m: Manifest, body: Body)
    requires ManifestOk(m) && ManifestFits(m)
    ensures BodyOk(m, body) <==> RecordFits(m, body)
  {
    hide TextOk, Sha256Ok, IsText, IsHash, ManifestOk;
    forall s: string
      ensures (Sha256Ok(s) <==> IsHash(s)) && (TextOk(s) <==> IsText(s)) && (IsHash(s) ==> IsText(s))
    {
      HashIsText(s);
    }
  }

  // ---------- What must come before a record ----------

  ghost predicate Registered(es: seq<Event>, agent: string) {
    exists i :: 0 <= i < |es| && es[i].body.Agent? && es[i].body.agent == agent
  }

  ghost predicate Called(es: seq<Event>, provider: string, call: string) {
    exists i :: 0 <= i < |es| && es[i].body.Usage? && es[i].body.provider == provider && es[i].body.call == call
  }

  ghost predicate CalledAnywhere(es: seq<Event>, call: string) {
    exists i :: 0 <= i < |es| && es[i].body.Usage? && es[i].body.call == call
  }

  ghost predicate NoRepeats(declared: seq<string>) {
    forall i, j :: 0 <= i < j < |declared| ==> declared[i] != declared[j]
  }

  /** What a kind of record asks of the ones before it. */
  ghost predicate KindFollows(before: seq<Event>, body: Body) {
    match body
    case Agent(agent, parent) => !Registered(before, agent) && (parent.Some? ==> Registered(before, parent.value))
    case Usage(who, provider, _, call, _, _, _, _, _, _) =>
      Registered(before, who.agent) && !Called(before, provider, call)
    case Tool(who, _, _, _) => Registered(before, who.agent)
    case Source(who, _, _, _, _) => Registered(before, who.agent)
    case Context(who, _) => Registered(before, who.agent)
    case Quality(_, _) => forall i :: 0 <= i < |before| ==> !before[i].body.Quality?
    case RunEnd(_, _, agentIds, callIds) =>
      && NoRepeats(agentIds) && (forall a :: a in agentIds <==> Registered(before, a))
      && NoRepeats(callIds) && (forall c :: c in callIds <==> CalledAnywhere(before, c))
    case Unknown => true
  }

  /** Everything asked of a record after the ones before it. */
  ghost predicate Follows(m: Manifest, before: seq<Event>, e: Event)
    requires ManifestFits(m)
  {
    && |before| < 100_000 && (forall i :: 0 <= i < |before| ==> !before[i].body.RunEnd?)
    && e.schema == 1 && e.runId == m.fields["run_id"] && IsText(e.id)
    && (forall i :: 0 <= i < |before| ==> before[i].id != e.id)
    && RecordFits(m, e.body)
    && KindFollows(before, e.body)
  }

  lemma KnownBefore(es: seq<Event>)
    ensures forall a :: a in Gather(es, AgentOf) <==> Registered(es, a)
    ensures forall p, c :: (p, c) in Gather(es, CallOf) <==> Called(es, p, c)
    ensures forall c :: c in Gather(es, CallIdOf) <==> CalledAnywhere(es, c)
    ensures forall id :: id in Gather(es, IdOf) <==> exists i :: 0 <= i < |es| && es[i].id == id
  {
    hide Gather;
    forall x: string
      ensures x in Gather(es, AgentOf) <==> Registered(es, x)
      ensures x in Gather(es, CallIdOf) <==> CalledAnywhere(es, x)
      ensures x in Gather(es, IdOf) <==> exists i :: 0 <= i < |es| && es[i].id == x
    {
      Gathered(es, AgentOf, x);
      Gathered(es, CallIdOf, x);
      Gathered(es, IdOf, x);
    }
    forall p: string, c: string
      ensures (p, c) in Gather(es, CallOf) <==> Called(es, p, c)
    {
      Gathered(es, CallOf, (p, c));
    }
  }

  /** Of a selector that counts one or nothing: the total is zero exactly if nothing counts. */
  lemma {:induction false} CountsNothing(es: seq<Event>, f: Event -> int)
    requires forall e :: 0 <= f(e) <= 1
    ensures Total(es, f) >= 0
    ensures Total(es, f) == 0 <==> forall i :: 0 <= i < |es| ==> f(es[i]) == 0
  {
    if es != [] {
      var front, last := es[..|es| - 1], es[|es| - 1];
      CountsNothing(front, f);
      assert forall i :: 0 <= i < |front| ==> front[i] == es[i];
      assert f(last) >= 0 && Total(es, f) == Total(front, f) + f(last);
    }
  }

  /** The record at i counts, and no other does. */
  ghost predicate Alone(es: seq<Event>, f: Event -> int, i: nat)
    requires i < |es|
  {
    f(es[i]) == 1 && forall j :: 0 <= j < |es| && j != i ==> f(es[j]) == 0
  }

  lemma {:induction false} AloneCountsOne(es: seq<Event>, f: Event -> int, i: nat)
    requires (forall e :: 0 <= f(e) <= 1) && i < |es| && Alone(es, f, i)
    ensures Total(es, f) == 1
  {
    var front, last := es[..|es| - 1], es[|es| - 1];
    assert forall j :: 0 <= j < |front| ==> front[j] == es[j];
    if i == |es| - 1 {
      CountsNothing(front, f);
    } else {
      assert f(last) == 0;
      AloneCountsOne(front, f, i);
    }
  }

  lemma {:induction false} OneIsAlone(es: seq<Event>, f: Event -> int) returns (i: nat)
    requires (forall e :: 0 <= f(e) <= 1) && Total(es, f) == 1
    ensures i < |es| && Alone(es, f, i)
  {
    var front, last := es[..|es| - 1], es[|es| - 1];
    assert 0 <= f(last) <= 1;
    CountsNothing(front, f);
    assert forall j :: 0 <= j < |front| ==> front[j] == es[j];
    if f(last) == 1 {
      i := |es| - 1;
    } else {
      i := OneIsAlone(front, f);
    }
  }

  lemma InventoryIff(declared: seq<string>, actual: set<string>)
    ensures SameInventory(declared, actual) <==> NoRepeats(declared) && forall x :: x in declared <==> x in actual
  {
  }

  lemma NoneBefore(before: seq<Event>)
    ensures Total(before, IsEnd) == 0 <==> forall i :: 0 <= i < |before| ==> !before[i].body.RunEnd?
    ensures Total(before, IsQuality) == 0 <==> forall i :: 0 <= i < |before| ==> !before[i].body.Quality?
  {
    hide Total;
    CountsNothing(before, IsEnd);
    CountsNothing(before, IsQuality);
  }

  /** The same, asked of the sets and totals that a pass keeps. */
  ghost predicate KindOk(before: seq<Event>, body: Body) {
    && (WhoOf(body).Some? ==> WhoOf(body).value.agent in Gather(before, AgentOf))
    && (body.Agent? ==>
          && body.agent !in Gather(before, AgentOf)
          && (body.parent.Some? ==> body.parent.value in Gather(before, AgentOf)))
    && (body.Usage? ==> (body.provider, body.call) !in Gather(before, CallOf))
    && (body.Quality? ==> Total(before, IsQuality) == 0)
    && (body.RunEnd? ==>
          && SameInventory(body.agentIds, Gather(before, AgentOf))
          && SameInventory(body.callIds, Gather(before, CallIdOf)))
  }

  lemma KindIff(before: seq<Event>, body: Body)
    ensures KindOk(before, body) <==> KindFollows(before, body)
  {
    hide Gather, Total, SameInventory, Registered, Called, CalledAnywhere, NoRepeats;
    KnownBefore(before);
    NoneBefore(before);
    if body.RunEnd? {
      InventoryIff(body.agentIds, Gather(before, AgentOf));
      InventoryIff(body.callIds, Gather(before, CallIdOf));
    }
  }

  /** The sets and totals a pass keeps decide the place of a record as a look at all records before it does. */
  lemma PlaceIff(m: Manifest, before: seq<Event>, e: Event)
    requires ManifestOk(m) && ManifestFits(m)
    ensures EventOk(m, before, e) <==> Follows(m, before, e)
  {
    hide ManifestOk, ManifestFits, BodyOk, RecordFits, Gather, Total, SameInventory, TextOk, IsText, KindFollows, WhoOf;
    RecordIff(m, e.body);
    HashIsText(e.id);
    KnownBefore(before);
    NoneBefore(before);
    KindIff(before, e.body);
  }

  // ---------- Acceptance ----------

  ghost predicate IsRootAgent(e: Event) {
    e.body.Agent? && e.body.parent.None?
  }

  /** Every record in its place, an end, a verdict, one root, and no success without a passed verdict and a call. */
  ghost predicate Acceptable(m: Manifest, es: seq<Event>) {
    && ManifestFits(m)
    && (forall k :: 0 <= k < |es| ==> Follows(m, es[..k], es[k]))
    && (exists i :: 0 <= i < |es| && es[i].body.RunEnd?)
    && (exists i :: 0 <= i < |es| && es[i].body.Quality?)
    && (exists i :: 0 <= i < |es| && IsRootAgent(es[i])
                    && forall j :: 0 <= j < |es| && j != i ==> !IsRootAgent(es[j]))
    && ((exists i :: 0 <= i < |es| && es[i].body.RunEnd? && es[i].body.endStatus == "success") ==>
          && (exists i :: 0 <= i < |es| && es[i].body.Quality? && es[i].body.passed)
          && exists i :: 0 <= i < |es| && es[i].body.Usage?)
  }

  lemma PlacesIff(m: Manifest, es: seq<Event>)
    requires ManifestOk(m) && ManifestFits(m)
    ensures EventsOk(m, es) <==> forall k :: 0 <= k < |es| ==> Follows(m, es[..k], es[k])
  {
    hide ManifestOk, ManifestFits, EventOk, Follows;
    forall k | 0 <= k < |es|
      ensures EventOk(m, es[..k], es[k]) <==> Follows(m, es[..k], es[k])
    {
      PlaceIff(m, es[..k], es[k]);
    }
  }

  /** At most one record of the kind: the total is one exactly if there is one. */
  lemma OneIff(es: seq<Event>, f: Event -> int)
    requires forall e :: 0 <= f(e) <= 1
    requires forall i, j :: 0 <= i < j < |es| ==> f(es[i]) == 0 || f(es[j]) == 0
    ensures Total(es, f) == 1 <==> exists i :: 0 <= i < |es| && f(es[i]) == 1
  {
    hide Total;
    if i :| 0 <= i < |es| && f(es[i]) == 1 {
      AloneCountsOne(es, f, i);
    }
    if Total(es, f) == 1 {
      var i := OneIsAlone(es, f);
    }
  }

  /** What no record before another can be. */
  ghost predicate Apart(earlier: Event, later: Event) {
    !earlier.body.RunEnd? && !(earlier.body.Quality? && later.body.Quality?)
  }

  lemma EndsAndVerdicts(m: Manifest, es: seq<Event>)
    requires ManifestFits(m) && forall k :: 0 <= k < |es| ==> Follows(m, es[..k], es[k])
    ensures forall i, j :: 0 <= i < j < |es| ==> Apart(es[i], es[j])
  {
    hide ManifestFits, RecordFits, Registered, Called, CalledAnywhere, NoRepeats, IsText;
    forall i, j | 0 <= i < j < |es|
      ensures Apart(es[i], es[j])
    {
      var before := es[..j];
      assert Follows(m, before, es[j]) && before[i] == es[i];
    }
  }

  lemma OnceEach(m: Manifest, es: seq<Event>)
    requires ManifestFits(m) && forall k :: 0 <= k < |es| ==> Follows(m, es[..k], es[k])
    ensures Total(es, IsEnd) == 1 <==> exists i :: 0 <= i < |es| && es[i].body.RunEnd?
    ensures Total(es, IsQuality) == 1 <==> exists i :: 0 <= i < |es| && es[i].body.Quality?
    ensures Total(es, IsSuccess) == 1
            <==> exists i :: 0 <= i < |es| && es[i].body.RunEnd? && es[i].body.endStatus == "success"
    ensures Total(es, IsPassed) == 1 <==> exists i :: 0 <= i < |es| && es[i].body.Quality? && es[i].body.passed
  {
    hide ManifestFits, Follows, Total;
    EndsAndVerdicts(m, es);
    OneIff(es, IsEnd);
    OneIff(es, IsQuality);
    OneIff(es, IsSuccess);
    OneIff(es, IsPassed);
  }

  lemma OneRoot(es: seq<Event>)
    ensures Total(es, IsRoot) == 1
            <==> exists i :: 0 <= i < |es| && IsRootAgent(es[i])
                             && forall j :: 0 <= j < |es| && j != i ==> !IsRootAgent(es[j])
  {
    hide Total;
    if Total(es, IsRoot) == 1 {
      var i := OneIsAlone(es, IsRoot);
      assert IsRootAgent(es[i]) && forall j :: 0 <= j < |es| && j != i ==> !IsRootAgent(es[j]);
    }
    if i :| 0 <= i < |es| && IsRootAgent(es[i]) && forall j :: 0 <= j < |es| && j != i ==> !IsRootAgent(es[j]) {
      assert Alone(es, IsRoot, i);
      AloneCountsOne(es, IsRoot, i);
    }
  }

  lemma SomeCall(es: seq<Event>)
    ensures Gather(es, CallOf) != {} <==> exists i :: 0 <= i < |es| && es[i].body.Usage?
  {
    hide Gather;
    KnownBefore(es);
    if c :| c in Gather(es, CallOf) {
      assert Called(es, c.0, c.1);
    }
    if i :| 0 <= i < |es| && es[i].body.Usage? {
      assert Called(es, es[i].body.provider, es[i].body.call);
    }
  }

  /** A ledger is valid exactly if it is acceptable record by record. */
  lemma ValidIffAcceptable(m: Manifest, es: seq<Event>)
    ensures ValidLedger(m, es) <==> Acceptable(m, es)
  {
    hide ManifestOk, ManifestFits, EventsOk, Follows, Total, Gather, IsRootAgent;
    ManifestIff(m);
    if ManifestFits(m) {
      PlacesIff(m, es);
      if EventsOk(m, es) {
        OnceEach(m, es);
        OneRoot(es);
        SomeCall(es);
      }
    }
  }

  // ---------- What a record adds ----------

  /** A call adds its tokens, its reasoning and its cost to the totals, and nothing to those of tools and sources. */
  lemma CallAdds(es: seq<Event>, e: Event, currency: string)
    requires e.body.Usage?
    ensures var tokens := e.body.tokens;
            && Total(es + [e], InputOf) == Total(es, InputOf) + tokens.input
            && Total(es + [e], UncachedOf) == Total(es, UncachedOf) + tokens.uncached
            && Total(es + [e], CacheReadOf) == Total(es, CacheReadOf) + tokens.cacheRead
            && Total(es + [e], CacheCreationOf) == Total(es, CacheCreationOf) + tokens.cacheCreation
            && Total(es + [e], OutputOf) == Total(es, OutputOf) + tokens.output
    ensures match e.body.reasoning
            case None => Total(es + [e], ReasoningOf) == Total(es, ReasoningOf)
                         && Total(es + [e], ReasoningKnown) == Total(es, ReasoningKnown)
            case Some(tokens) => Total(es + [e], ReasoningOf) == Total(es, ReasoningOf) + tokens
                                 && Total(es + [e], ReasoningKnown) == Total(es, ReasoningKnown) + 1
    ensures Total(es + [e], CostKnown) == Total(es, CostKnown) + if e.body.cost.Some? then 1 else 0
    ensures e.body.cost.None? ==> CostTotal(es + [e], currency) == CostTotal(es, currency)
    ensures e.body.cost.Some? && e.body.cost.value.amount.Some? ==>
              CostTotal(es + [e], currency)
              == CostTotal(es, currency)
                 + if currency == e.body.cost.value.currency then e.body.cost.value.amount.value else 0.0
    ensures Total(es + [e], IsTool) == Total(es, IsTool) && Total(es + [e], ToolBytesOf) == Total(es, ToolBytesOf)
    ensures Total(es + [e], IsSource) == Total(es, IsSource) && Total(es + [e], IsFollowup) == Total(es, IsFollowup)
    ensures Total(es + [e], SourceBytesOf) == Total(es, SourceBytesOf)
  {
    hide Total;
    AddsToEach(es, e);
    CostOneMore(es, e, currency);
  }

  lemma AddsToEach(es: seq<Event>, e: Event)
    ensures forall f: Event -> int :: Total(es + [e], f) == Total(es, f) + f(e)
  {
    forall f: Event -> int
      ensures Total(es + [e], f) == Total(es, f) + f(e)
    {
      TotalOneMore(es, e, f);
    }
  }

  /** Any other record adds no tokens and no cost: a tool call itself and its bytes, a source read its span. */
  lemma OtherAdds(es: seq<Event>, e: Event, currency: string)
    requires !e.body.Usage?
    ensures Total(es + [e], InputOf) == Total(es, InputOf) && Total(es + [e], UncachedOf) == Total(es, UncachedOf)
    ensures Total(es + [e], CacheReadOf) == Total(es, CacheReadOf)
    ensures Total(es + [e], CacheCreationOf) == Total(es, CacheCreationOf)
    ensures Total(es + [e], OutputOf) == Total(es, OutputOf)
    ensures Total(es + [e], ReasoningOf) == Total(es, ReasoningOf)
    ensures Total(es + [e], ReasoningKnown) == Total(es, ReasoningKnown)
    ensures Total(es + [e], CostKnown) == Total(es, CostKnown)
    ensures CostTotal(es + [e], currency) == CostTotal(es, currency)
    ensures Total(es + [e], IsTool) == Total(es, IsTool) + if e.body.Tool? then 1 else 0
    ensures Total(es + [e], ToolBytesOf) == Total(es, ToolBytesOf) + if e.body.Tool? then e.body.outputBytes else 0
    ensures Total(es + [e], IsSource) == Total(es, IsSource) + if e.body.Source? then 1 else 0
    ensures Total(es + [e], IsFollowup)
         == Total(es, IsFollowup) + if e.body.Source? && e.body.followup then 1 else 0
    ensures Total(es + [e], SourceBytesOf)
         == Total(es, SourceBytesOf) + if e.body.Source? then e.body.span.stop - e.body.span.start else 0
  {
    hide Total;
    AddsToEach(es, e);
    CostOneMore(es, e, currency);
  }

  /** An agent's attempt is one in which it made a call, used a tool, read a source or handled its context. */
  ghost predicate Attempted(e: Event, who: Who) {
    || (e.body.Usage? && e.body.who == who) || (e.body.Tool? && e.body.who == who)
    || (e.body.Source? && e.body.who == who) || (e.body.Context? && e.body.who == who)
  }

  /** The sets that are counted: attempts, currencies, and the source bytes that some read covers. */
  lemma CountedSets(es: seq<Event>, who: Who, currency: string, path: string, snapshot: string, x: int)
    ensures who in Gather(es, AttemptOf) <==> exists i :: 0 <= i < |es| && Attempted(es[i], who)
    ensures currency in Gather(es, CurrencyOf)
            <==> exists i :: 0 <= i < |es| && es[i].body.Usage? && es[i].body.cost.Some?
                             && es[i].body.cost.value.currency == currency
    ensures x >= 0 ==>
              ((path, snapshot, x) in Gather(es, BytesOf)
               <==> exists i :: 0 <= i < |es| && es[i].body.Source? && es[i].body.path == path
                                && es[i].body.snapshot == snapshot && es[i].body.span.start <= x < es[i].body.span.stop)
  {
    hide Gather, Covered;
    Gathered(es, AttemptOf, who);
    Gathered(es, CurrencyOf, currency);
    Gathered(es, BytesOf, (path, snapshot, x));
    forall i | 0 <= i < |es|
      ensures who in AttemptOf(es[i]) <==> Attempted(es[i], who)
      ensures x >= 0 ==>
                ((path, snapshot, x) in BytesOf(es[i])
                 <==> es[i].body.Source? && es[i].body.path == path && es[i].body.snapshot == snapshot
                      && es[i].body.span.start <= x < es[i].body.span.stop)
    {
      if es[i].body.Source? && x >= 0 {
        InSpan(es[i].body.span, x);
      }
    }
  }

  lemma InSpan(span: Span, x: int)
    requires x >= 0
    ensures x in Covered([span]) <==> span.start <= x < span.stop
  {
    assert span in [span];
    assert span.start <= x < span.stop ==> Covers(span, x);
  }
}
