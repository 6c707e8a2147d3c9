/** What graph requests, event streams and rescan requests keep while the scan task runs on (src/daemon.rs). */
module DaemonRequests {
  import opened Orders
  import opened Daemon

  // ---------- Graph requests share one revision-keyed entry ----------

  predicate Builds(w: World, published: seq<Inputs>, revision: nat, graph: Graph) {
    0 < revision <= |published| && graph == w.build(published[revision - 1])
  }

  predicate StageSound(w: World, published: seq<Inputs>, asked: Option<nat>, stage: Stage) {
    match stage
    case Waiting(revision, inputs) =>
      0 < revision <= |published| && inputs == published[revision - 1] && (asked.Some? ==> asked.value == revision)
    case Building(revision, inputs) =>
      0 < revision <= |published| && inputs == published[revision - 1] && (asked.Some? ==> asked.value == revision)
    case Replied(GraphReply(revision, graph)) =>
      Builds(w, published, revision, graph) && (asked.Some? ==> asked.value == revision)
    case Replied(_) => true
  }

  /** Whatever revision the entry is for, it holds the graph of that revision; one request at a time builds. */
  ghost predicate GraphSound(w: World, published: seq<Inputs>, g: GraphSide) {
    && (g.entry.Some? ==> Builds(w, published, g.entry.value.revision, g.entry.value.graph))
    && (forall id :: id in g.requests ==> StageSound(w, published, g.requests[id].asked, g.requests[id].stage))
    && (forall id :: id in g.requests ==> (g.requests[id].stage.Building? <==> g.holder == Some(id)))
    && (g.holder.Some? ==> g.holder.value in g.requests)
  }

  lemma GraphSoundStep(w: World, published: seq<Inputs>, g: GraphSide, snap: Snapshot, id: nat, a: GraphAction)
    requires GraphSound(w, published, g) && CanGraph(g, id, a)
    requires snap.revision == |published| && (snap.report.Some? <==> snap.revision > 0)
    requires snap.report.Some? ==> Inputs(snap.report.value, snap.facts, snap.limits) == published[|published| - 1]
    ensures GraphSound(w, published, StepGraph(w, g, snap, id, a))
  {
    var after := StepGraph(w, g, snap, id, a);
    forall other | other in after.requests
      ensures StageSound(w, published, after.requests[other].asked, after.requests[other].stage)
    {
      if other != id {
        assert other in g.requests && StageSound(w, published, g.requests[other].asked, g.requests[other].stage);
      }
    }
  }

  /** Publishing more revisions disturbs no request, wherever it is. */
  lemma GraphSoundLater(w: World, published: seq<Inputs>, later: seq<Inputs>, g: GraphSide)
    requires GraphSound(w, published, g) && published <= later
    ensures GraphSound(w, later, g)
  {
    forall id | id in g.requests ensures StageSound(w, later, g.requests[id].asked, g.requests[id].stage) {
      assert StageSound(w, published, g.requests[id].asked, g.requests[id].stage);
    }
  }

  /**
   * A slow request for an older revision does overwrite a newer entry, and the next request
   * for the newer revision still gets the graph of that revision, because it misses and rebuilds.
   */
  lemma OldRequestOverwrites(w: World, published: seq<Inputs>, g: GraphSide, snap: Snapshot, slow: nat, next: nat)
    returns (stale: GraphSide, after: GraphSide)
    requires GraphSound(w, published, g) && g.holder.None?
    requires slow in g.requests && next in g.requests && slow != next
    requires g.requests[slow].stage.Waiting? && g.requests[next].stage.Waiting?
    requires g.entry.Some?
    requires g.requests[slow].stage.revision < g.entry.value.revision == g.requests[next].stage.revision
    ensures stale == StepGraph(w, StepGraph(w, g, snap, slow, Lock), snap, slow, Built(true))
    ensures stale.entry.Some? && stale.entry.value.revision < g.entry.value.revision
    ensures CanGraph(stale, next, Lock) && CanGraph(StepGraph(w, stale, snap, next, Lock), next, Built(true))
    ensures after == StepGraph(w, StepGraph(w, stale, snap, next, Lock), snap, next, Built(true))
    ensures after.requests[next].stage == Replied(GraphReply(g.entry.value.revision, g.entry.value.graph))
  {
    assert StageSound(w, published, g.requests[next].asked, g.requests[next].stage);
    stale := StepGraph(w, StepGraph(w, g, snap, slow, Lock), snap, slow, Built(true));
    assert stale.requests[next] == g.requests[next];
    after := StepGraph(w, StepGraph(w, stale, snap, next, Lock), snap, next, Built(true));
  }

  // ---------- Event streams receive what the log says ----------

  predicate ClientSound(log: seq<Event>, c: Client) {
    c.Refused? || (NextOf(c) <= |log| && c.received == log[c.from..NextOf(c)])
  }

  function OpenClients(clients: map<nat, Client>): set<nat> {
    set id | id in clients && clients[id].Streaming?
  }

  ghost predicate FeedSound(log: seq<Event>, f: FeedSide) {
    && (forall id :: id in f.clients ==> ClientSound(log, f.clients[id]))
    && f.slots + |OpenClients(f.clients)| == MAX_SSE_CLIENTS
  }

  lemma OneMoreOpen(clients: map<nat, Client>, id: nat, c: Client)
    requires c.Streaming? && (id in clients ==> !clients[id].Streaming?)
    ensures |OpenClients(clients[id := c])| == |OpenClients(clients)| + 1
  {
    assert OpenClients(clients[id := c]) == OpenClients(clients) + {id};
  }

  lemma OneLessOpen(clients: map<nat, Client>, id: nat, c: Client)
    requires !c.Streaming? && id in clients && clients[id].Streaming?
    ensures |OpenClients(clients[id := c])| == |OpenClients(clients)| - 1
  {
    assert OpenClients(clients[id := c]) == OpenClients(clients) - {id};
  }

  lemma SameOpen(clients: map<nat, Client>, id: nat, c: Client)
    requires c.Streaming? <==> id in clients && clients[id].Streaming?
    ensures OpenClients(clients[id := c]) == OpenClients(clients)
  {
  }

  lemma FeedSoundStep(log: seq<Event>, f: FeedSide, shutdown: bool, id: nat, a: FeedAction)
    requires FeedSound(log, f) && CanFeed(f, log, shutdown, id, a)
    ensures FeedSound(log, StepFeed(f, log, shutdown, id, a))
  {
    hide OpenClients;
    var after := StepFeed(f, log, shutdown, id, a);
    if id in f.clients {
      assert ClientSound(log, f.clients[id]);
    }
    assert ClientSound(log, after.clients[id]);
    assert forall other :: other in f.clients && other != id ==> after.clients[other] == f.clients[other];
    assert after.clients == f.clients[id := after.clients[id]];
    if a.Subscribe? && f.slots > 0 {
      OneMoreOpen(f.clients, id, after.clients[id]);
    } else if a.Leave? || (a.Poll? && after.clients[id].Closed?) {
      OneLessOpen(f.clients, id, after.clients[id]);
    } else {
      SameOpen(f.clients, id, after.clients[id]);
    }
  }

  lemma FeedSoundLater(log: seq<Event>, later: seq<Event>, f: FeedSide)
    requires FeedSound(log, f) && log <= later
    ensures FeedSound(later, f)
  {
    forall id | id in f.clients ensures ClientSound(later, f.clients[id]) {
      assert ClientSound(log, f.clients[id]);
    }
  }

  /** A client that a poll leaves open has every event of the log since it came, up to the one just read. */
  lemma PollDeliversOrCloses(log: seq<Event>, f: FeedSide, shutdown: bool, id: nat)
    requires FeedSound(log, f) && CanFeed(f, log, shutdown, id, Poll)
    ensures var before, after := f.clients[id], StepFeed(f, log, shutdown, id, Poll).clients[id];
            && after.from == before.from
            && (after.Streaming? <==> !shutdown && |log| - NextOf(before) <= BROADCAST_CAPACITY)
            && (after.Streaming? ==> after.received == log[before.from..NextOf(before) + 1])
            && (after.Closed? ==> after.received == before.received)
  {
    assert ClientSound(log, f.clients[id]);
  }

  // ---------- Rescan requests keep their distance ----------

  function AcceptedIds(answers: map<nat, Answer>): set<nat> {
    set id | id in answers && answers[id].Accepted?
  }

  function PassedIds(answers: map<nat, Answer>): set<nat> {
    set id | id in answers && (answers[id].Accepted? || answers[id].Admitted? || answers[id].Unavailable?)
  }

  /** Neighbouring admissions are at least the cooldown apart, and every request past the check has its own. */
  ghost predicate Spaced(r: RescanSide) {
    && (forall i :: 0 < i < |r.admissions| ==> r.admissions[i - 1] + RESCAN_COOLDOWN_MS <= r.admissions[i])
    && (r.last.Some? <==> r.admissions != [])
    && (r.last.Some? ==> r.last.value == r.admissions[|r.admissions| - 1] <= r.now)
    && |PassedIds(r.answers)| == |r.admissions|
  }

  lemma SpacedStep(r: RescanSide, stopped: bool, id: nat, a: RescanAction)
    requires Spaced(r) && CanRescan(r, id, a)
    ensures Spaced(StepRescan(r, stopped, id, a))
  {
    var after := StepRescan(r, stopped, id, a);
    if a.Post? && after.answers[id].Admitted? {
      assert PassedIds(after.answers) == PassedIds(r.answers) + {id};
    } else {
      assert PassedIds(after.answers) == PassedIds(r.answers);
    }
  }

  lemma {:induction false} SpacedApart(r: RescanSide, i: nat, j: nat)
    requires Spaced(r) && i <= j < |r.admissions|
    ensures r.admissions[i] + RESCAN_COOLDOWN_MS * (j - i) <= r.admissions[j]
  {
    if i < j {
      SpacedApart(r, i, j - 1);
    }
  }

  /** However many clients ask, the accepted rescans fit the clock: one at once, then one a cooldown. */
  lemma AcceptedFitTheClock(r: RescanSide)
    requires Spaced(r)
    ensures RESCAN_COOLDOWN_MS * |AcceptedIds(r.answers)| <= r.now + RESCAN_COOLDOWN_MS
  {
    assert AcceptedIds(r.answers) <= PassedIds(r.answers);
    SubsetSize(AcceptedIds(r.answers), PassedIds(r.answers));
    if r.admissions != [] {
      SpacedApart(r, 0, |r.admissions| - 1);
    }
  }

  lemma SubsetSize(a: set<nat>, b: set<nat>)
    requires a <= b
    ensures |a| <= |b|
  {
    assert b == a + (b - a);
  }
}
