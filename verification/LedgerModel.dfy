/** Events of an evaluation run and what makes a ledger of them acceptable (scripts/agent-eval/accounting.py). */
module LedgerModel {
  import opened Orders
  import opened Spans

  const MAX_EVENTS := 100_000
  const MAX_TEXT := 4096

  datatype Tokens = Tokens(input: int, uncached: int, cacheRead: int, cacheCreation: int, output: int)

  /** The amount is absent when it is no finite decimal number. */
  datatype Cost = Cost(currency: string, amount: Option<real>)

  datatype Who = Who(agent: string, attempt: string)

  datatype Provenance = Provenance(rawSha256: string, mappingId: string, mappingReference: string)

  datatype Body =
    | Agent(agent: string, parent: Option<string>)
    | Usage(who: Who, provider: string, model: string, call: string, final: bool, status: string,
            provenance: Provenance, tokens: Tokens, reasoning: Option<int>, cost: Option<Cost>)
    | Tool(who: Who, outputBytes: int, phase: string, latencyMs: int)
    | Source(who: Who, path: string, snapshot: string, span: Span, followup: bool)
    | Context(who: Who, operation: string)
    | Quality(passed: bool, evidence: string)
    | RunEnd(endStatus: string, usageComplete: bool, agentIds: seq<string>, callIds: seq<string>)
    | Unknown

  datatype Event = Event(schema: int, runId: string, id: string, body: Body)

  /** The manifest's text fields by name. */
  datatype Manifest = Manifest(schema: int, fields: map<string, string>)

  const CONDITIONS := ["task_id", "fixture_sha256", "task_sha256", "oracle_sha256", "model", "harness",
                       "start_context_sha256", "mode", "provider", "retention_policy", "evidence_kind"]

  // ---------- Checks on one record ----------

  predicate TextOk(s: string) {
    0 < |s| <= MAX_TEXT
  }

  predicate Sha256Ok(s: string) {
    |s| == 64 && forall i :: 0 <= i < |s| ==> ('0' <= s[i] <= '9' || 'a' <= s[i] <= 'f')
  }

  predicate FieldIn(m: Manifest, field: string, allowed: set<string>) {
    field in m.fields && m.fields[field] in allowed
  }

  predicate ManifestOk(m: Manifest) {
    && m.schema == 1
    && FieldIn(m, "variant", {"baseline", "reposcout"})
    && FieldIn(m, "mode", {"isolated", "end-to-end"})
    && FieldIn(m, "evidence_kind", {"synthetic", "observed"})
    && (forall f :: f in CONDITIONS + ["run_id"] ==> f in m.fields && TextOk(m.fields[f]))
    && (forall f :: f in ["fixture_sha256", "task_sha256", "oracle_sha256", "start_context_sha256"] ==>
          Sha256Ok(m.fields[f]))
  }

  predicate TokensOk(t: Tokens) {
    && t.input >= 0 && t.uncached >= 0 && t.cacheRead >= 0 && t.cacheCreation >= 0 && t.output >= 0
    && t.input == t.uncached + t.cacheRead + t.cacheCreation
  }

  predicate CostOk(c: Cost) {
    TextOk(c.currency) && c.amount.Some? && c.amount.value >= 0.0
  }

  const STATUSES := {"success", "failed", "aborted"}

  /** The checks that look at the record and the manifest alone. */
  predicate BodyOk(m: Manifest, body: Body)
    requires ManifestOk(m)
  {
    match body
    case Agent(agent, _) => TextOk(agent)
    case Usage(who, provider, model, call, final, status, p, tokens, reasoning, cost) =>
      && TextOk(who.attempt) && provider == m.fields["provider"] && model == m.fields["model"] && TextOk(call)
      && final && status in STATUSES
      && TextOk(p.rawSha256) && TextOk(p.mappingId) && TextOk(p.mappingReference) && Sha256Ok(p.rawSha256)
      && TokensOk(tokens)
      && (reasoning.Some? ==> 0 <= reasoning.value <= tokens.output)
      && (cost.Some? ==> CostOk(cost.value))
    case Tool(who, outputBytes, phase, latencyMs) =>
      TextOk(who.attempt) && outputBytes >= 0 && phase in {"cold", "warm", "after-edit", "other"} && latencyMs >= 0
    case Source(who, path, snapshot, span, _) =>
      TextOk(who.attempt) && TextOk(path) && Sha256Ok(snapshot) && 0 <= span.start <= span.stop
    case Context(who, operation) => TextOk(who.attempt) && operation in {"retention", "compaction"}
    case Quality(_, evidence) => Sha256Ok(evidence)
    case RunEnd(status, _, _, _) => status in STATUSES
    case Unknown => false
  }

  // ---------- What a list of events amounts to ----------

  ghost function Gather<T>(es: seq<Event>, f: Event -> set<T>): set<T> {
    if es == [] then {} else Gather(es[..|es| - 1], f) + f(es[|es| - 1])
  }

  ghost function Total(es: seq<Event>, f: Event -> int): int {
    if es == [] then 0 else Total(es[..|es| - 1], f) + f(es[|es| - 1])
  }

  lemma GatherOneMore<T>(es: seq<Event>, e: Event, f: Event -> set<T>)
    ensures Gather(es + [e], f) == Gather(es, f) + f(e)
  {
    assert (es + [e])[..|es|] == es;
  }

  lemma TotalOneMore(es: seq<Event>, e: Event, f: Event -> int)
    ensures Total(es + [e], f) == Total(es, f) + f(e)
  {
    assert (es + [e])[..|es|] == es;
  }

  lemma {:induction false} Gathered<T>(es: seq<Event>, f: Event -> set<T>, x: T)
    ensures x in Gather(es, f) <==> exists i :: 0 <= i < |es| && x in f(es[i])
  {
    if es != [] {
      var shorter := es[..|es| - 1];
      Gathered(shorter, f, x);
      if x in Gather(shorter, f) {
        var i :| 0 <= i < |shorter| && x in f(shorter[i]);
        assert es[i] == shorter[i];
      }
      forall i | 0 <= i < |es| && x in f(es[i]) ensures x in Gather(es, f) {
        if i < |es| - 1 {
          assert es[i] == shorter[i];
        }
      }
    }
  }

  function IdOf(e: Event): set<string> { {e.id} }

  /** A call is known by its provider and its id there. */
  function CallOf(e: Event): set<(string, string)> { if e.body.Usage? then {(e.body.provider, e.body.call)} else {} }

  function CallIdOf(e: Event): set<string> { if e.body.Usage? then {e.body.call} else {} }

  function CallIds(calls: set<(string, string)>): set<string> {
    set c | c in calls :: c.1
  }

  lemma {:induction false} IdsOfCalls(es: seq<Event>)
    ensures Gather(es, CallIdOf) == CallIds(Gather(es, CallOf))
  {
    if es != [] {
      var before, last := Gather(es[..|es| - 1], CallOf), CallOf(es[|es| - 1]);
      IdsOfCalls(es[..|es| - 1]);
      assert CallIds(before + last) == CallIds(before) + CallIds(last);
      assert CallIds(last) == CallIdOf(es[|es| - 1]);
    }
  }

  function AgentOf(e: Event): set<string> { if e.body.Agent? then {e.body.agent} else {} }

  function WhoOf(body: Body): Option<Who> {
    match body
    case Usage(who, _, _, _, _, _, _, _, _, _) => Some(who)
    case Tool(who, _, _, _) => Some(who)
    case Source(who, _, _, _, _) => Some(who)
    case Context(who, _) => Some(who)
    case _ => None
  }

  function AttemptOf(e: Event): set<Who> {
    var who := WhoOf(e.body);
    if who.Some? then {who.value} else {}
  }

  /** The distinct source bytes an event read. */
  ghost function BytesOf(e: Event): set<(string, string, int)> {
    if e.body.Source? then BytesAt((e.body.path, e.body.snapshot), Covered([e.body.span])) else {}
  }

  ghost function BytesAt(key: (string, string), bytes: set<int>): set<(string, string, int)> {
    set x | x in bytes :: (key.0, key.1, x)
  }

  function IsUsage(e: Event): int { if e.body.Usage? then 1 else 0 }

  function IsAgent(e: Event): int { if e.body.Agent? then 1 else 0 }

  function IsRoot(e: Event): int { if e.body.Agent? && e.body.parent.None? then 1 else 0 }

  function IsQuality(e: Event): int { if e.body.Quality? then 1 else 0 }

  function IsPassed(e: Event): int { if e.body.Quality? && e.body.passed then 1 else 0 }

  function IsEnd(e: Event): int { if e.body.RunEnd? then 1 else 0 }

  function IsSuccess(e: Event): int { if e.body.RunEnd? && e.body.endStatus == "success" then 1 else 0 }

  function InputOf(e: Event): int { if e.body.Usage? then e.body.tokens.input else 0 }

  function UncachedOf(e: Event): int { if e.body.Usage? then e.body.tokens.uncached else 0 }

  function CacheReadOf(e: Event): int { if e.body.Usage? then e.body.tokens.cacheRead else 0 }

  function CacheCreationOf(e: Event): int { if e.body.Usage? then e.body.tokens.cacheCreation else 0 }

  function OutputOf(e: Event): int { if e.body.Usage? then e.body.tokens.output else 0 }

  function ReasoningOf(e: Event): int { if e.body.Usage? && e.body.reasoning.Some? then e.body.reasoning.value else 0 }

  function ReasoningKnown(e: Event): int { if e.body.Usage? && e.body.reasoning.Some? then 1 else 0 }

  function CostKnown(e: Event): int { if e.body.Usage? && e.body.cost.Some? then 1 else 0 }

  function ToolBytesOf(e: Event): int { if e.body.Tool? then e.body.outputBytes else 0 }

  function IsTool(e: Event): int { if e.body.Tool? then 1 else 0 }

  function SourceBytesOf(e: Event): int { if e.body.Source? then e.body.span.stop - e.body.span.start else 0 }

  function IsSource(e: Event): int { if e.body.Source? then 1 else 0 }

  function IsFollowup(e: Event): int { if e.body.Source? && e.body.followup then 1 else 0 }

  /** Each registered agent with its parent. */
  ghost function Parents(es: seq<Event>): map<string, Option<string>> {
    if es == [] then map[]
    else
      var before, e := Parents(es[..|es| - 1]), es[|es| - 1];
      if e.body.Agent? then before[e.body.agent := e.body.parent] else before
  }

  lemma ParentsOneMore(es: seq<Event>, e: Event)
    ensures Parents(es + [e]) == if e.body.Agent? then Parents(es)[e.body.agent := e.body.parent] else Parents(es)
  {
    assert (es + [e])[..|es|] == es;
  }

  lemma {:induction false} ParentsAreAgents(es: seq<Event>)
    ensures Parents(es).Keys == Gather(es, AgentOf)
  {
    if es != [] {
      ParentsAreAgents(es[..|es| - 1]);
    }
  }

  function CostIn(e: Event, currency: string): real {
    if e.body.Usage? && e.body.cost.Some? && e.body.cost.value.currency == currency && e.body.cost.value.amount.Some?
    then e.body.cost.value.amount.value else 0.0
  }

  ghost function CostTotal(es: seq<Event>, currency: string): real {
    if es == [] then 0.0 else CostTotal(es[..|es| - 1], currency) + CostIn(es[|es| - 1], currency)
  }

  lemma CostOneMore(es: seq<Event>, e: Event, currency: string)
    ensures CostTotal(es + [e], currency) == CostTotal(es, currency) + CostIn(e, currency)
  {
    assert (es + [e])[..|es|] == es;
  }

  // ---------- The acceptable ledgers ----------

  predicate SameInventory(declared: seq<string>, actual: set<string>) {
    && (forall i, j :: 0 <= i < j < |declared| ==> declared[i] != declared[j])
    && Elements(declared) == actual
  }

  /** What an event must be, given the events before it. */
  ghost predicate EventOk(m: Manifest, before: seq<Event>, e: Event)
    requires ManifestOk(m)
  {
    && |before| < MAX_EVENTS
    && Total(before, IsEnd) == 0
    && e.schema == 1 && e.runId == m.fields["run_id"] && TextOk(e.id) && e.id !in Gather(before, IdOf)
    && BodyOk(m, e.body)
    && (WhoOf(e.body).Some? ==> WhoOf(e.body).value.agent in Gather(before, AgentOf))
    && (e.body.Agent? ==>
          && e.body.agent !in Gather(before, AgentOf)
          && (e.body.parent.Some? ==> e.body.parent.value in Gather(before, AgentOf)))
    && (e.body.Usage? ==> (e.body.provider, e.body.call) !in Gather(before, CallOf))
    && (e.body.Quality? ==> Total(before, IsQuality) == 0)
    && (e.body.RunEnd? ==>
          && SameInventory(e.body.agentIds, Gather(before, AgentOf))
          && SameInventory(e.body.callIds, Gather(before, CallIdOf)))
  }

  ghost predicate EventsOk(m: Manifest, es: seq<Event>)
    requires ManifestOk(m)
  {
    forall k :: 0 <= k < |es| ==> EventOk(m, es[..k], es[k])
  }

  /** The whole ledger: every event in its place, one end, one quality record, one root, and an honest success. */
  ghost predicate ValidLedger(m: Manifest, es: seq<Event>) {
    && ManifestOk(m)
    && EventsOk(m, es)
    && Total(es, IsEnd) == 1 && Total(es, IsQuality) == 1 && Total(es, IsRoot) == 1
    && (Total(es, IsSuccess) == 1 ==> Total(es, IsPassed) == 1 && Gather(es, CallOf) != {})
  }

  lemma EventsOkOneMore(m: Manifest, es: seq<Event>, k: nat)
    requires ManifestOk(m) && k < |es|
    ensures EventsOk(m, es[..k + 1]) <==> EventsOk(m, es[..k]) && EventOk(m, es[..k], es[k])
  {
    hide EventOk, ManifestOk;
    var more := es[..k + 1];
    if EventsOk(m, more) {
      EventsOkPrefix(m, more, k);
      assert more[..k] == es[..k];
      assert EventOk(m, more[..k], more[k]);
    }
    if EventsOk(m, es[..k]) && EventOk(m, es[..k], es[k]) {
      forall i | 0 <= i < |more| ensures EventOk(m, more[..i], more[i]) {
        assert more[..i] == es[..i];
        if i < k {
          assert es[..k][..i] == es[..i] && EventOk(m, es[..k][..i], es[..k][i]);
        }
      }
    }
  }

  lemma EventsOkPrefix(m: Manifest, es: seq<Event>, k: nat)
    requires ManifestOk(m) && k <= |es| && EventsOk(m, es)
    ensures EventsOk(m, es[..k])
  {
    hide EventOk, ManifestOk;
    forall i | 0 <= i < k ensures EventOk(m, es[..k][..i], es[..k][i]) {
      assert es[..k][..i] == es[..i] && EventOk(m, es[..i], es[i]);
    }
  }
}
