/** The daemon over whole runs: every interleaving of scans, watcher callbacks and requests (src/daemon.rs). */
module DaemonRuns {
  import opened Orders
  import opened Daemon
  import opened DaemonScan
  import opened DaemonRequests

  ghost predicate Invariant(w: World, s: State) {
    && ScanInvariant(w, s.scanner)
    && GraphSound(w, s.scanner.published, s.graph)
    && FeedSound(s.scanner.log, s.feed)
    && Spaced(s.rescan)
  }

  lemma InvariantStep(w: World, s: State, a: Action)
    requires Invariant(w, s) && Can(w, s, a)
    ensures Invariant(w, Step(w, s, a))
    ensures s.scanner.published <= Step(w, s, a).scanner.published && s.scanner.log <= Step(w, s, a).scanner.log
  {
    hide ScanInvariant, GraphSound, FeedSound, Spaced, StepScan, StepGraph, StepFeed, StepRescan, Demand, CanScan;
    hide CanGraph;
    hide CanFeed;
    match a
    case OnScan(scan) =>
      ScanInvariantStep(w, s.scanner, scan);
      GraphSoundLater(w, s.scanner.published, StepScan(w, s.scanner, scan).published, s.graph);
      FeedSoundLater(s.scanner.log, StepScan(w, s.scanner, scan).log, s.feed);
    case OnGraph(id, graph) =>
      SnapshotIsPublished(w, s.scanner);
      GraphSoundStep(w, s.scanner.published, s.graph, s.scanner.snap, id, graph);
    case OnFeed(id, feed) =>
      FeedSoundStep(s.scanner.log, s.feed, s.scanner.shutdown, id, feed);
    case OnRescan(id, rescan) =>
      SpacedStep(s.rescan, s.scanner.pc.Stopped?, id, rescan);
      DemandKeeps(w, s.scanner, s.scanner.disk);
  }

  lemma SnapshotIsPublished(w: World, s: Scanner)
    requires ScanInvariant(w, s)
    ensures s.snap.revision == |s.published| && (s.snap.report.Some? <==> s.snap.revision > 0)
    ensures s.snap.report.Some? ==>
              Inputs(s.snap.report.value, s.snap.facts, s.snap.limits) == s.published[|s.published| - 1]
  {
  }

  lemma InvariantAtFirst(w: World)
    ensures Invariant(w, FIRST)
  {
    FirstScanner(w);
    assert OpenClients(FIRST_FEED.clients) == {};
    assert PassedIds(FIRST_RESCAN.answers) == {};
  }

  /** Every run keeps the invariant, and no run rewrites a published revision or a logged event. */
  lemma {:induction false} RunKeeps(w: World, s: State, actions: seq<Action>)
    requires Invariant(w, s) && CanRun(w, s, actions)
    ensures Invariant(w, After(w, s, actions))
    ensures s.scanner.published <= After(w, s, actions).scanner.published
    ensures s.scanner.log <= After(w, s, actions).scanner.log
    decreases |actions|
  {
    if actions != [] {
      InvariantStep(w, s, actions[0]);
      RunKeeps(w, Step(w, s, actions[0]), actions[1..]);
    }
  }

  lemma RunFromStart(w: World, actions: seq<Action>) returns (t: State)
    requires CanRun(w, FIRST, actions)
    ensures t == After(w, FIRST, actions) && Invariant(w, t)
  {
    InvariantAtFirst(w);
    RunKeeps(w, FIRST, actions);
    t := After(w, FIRST, actions);
  }

  // ---------- Graph responses ----------

  /**
   * In every run, an answered graph request carries the graph built from the inputs
   * published at the answered revision, which is the revision asked for if one was.
   */
  lemma EveryReplyIsOfItsRevision(w: World, actions: seq<Action>, id: nat)
    requires CanRun(w, FIRST, actions)
    ensures var t := After(w, FIRST, actions);
            id in t.graph.requests && t.graph.requests[id].stage.Replied?
              && t.graph.requests[id].stage.reply.GraphReply?
            ==> (var reply := t.graph.requests[id].stage.reply;
                 && 0 < reply.revision <= |t.scanner.published|
                 && reply.graph == w.build(t.scanner.published[reply.revision - 1])
                 && (t.graph.requests[id].asked.Some? ==> t.graph.requests[id].asked.value == reply.revision))
  {
    var t := RunFromStart(w, actions);
    if id in t.graph.requests {
      assert StageSound(w, t.scanner.published, t.graph.requests[id].asked, t.graph.requests[id].stage);
    }
  }

  // ---------- The event log and its clients ----------

  /** In every run the log alternates starts and ends, and the revision counts the completions logged or about to be. */
  lemma LogTellsTheScans(w: World, actions: seq<Action>)
    requires CanRun(w, FIRST, actions)
    ensures var s := After(w, FIRST, actions).scanner;
            && (forall i :: 0 <= i < |s.log| ==> Fits(s.log, i))
            && s.snap.revision == |s.published|
            && s.snap.revision == CompletedIn(s.log) + (if s.pc.Emitting? && s.pc.event.kind.Completed? then 1 else 0)
            && (s.snap.revision > 0 ==>
                  s.snap.report.Some? && PublishedInputs(s.snap) == s.published[s.snap.revision - 1])
  {
    var t := RunFromStart(w, actions);
    RevisionsCountCompletions(t.scanner.log);
    if t.scanner.pc.Emitting? {
      assert Fits(t.scanner.log + [t.scanner.pc.event], |t.scanner.log|);
    }
  }

  /** In every run each event stream has received a contiguous stretch of the log, from the moment it subscribed. */
  lemma EachClientSawASegment(w: World, actions: seq<Action>, id: nat)
    requires CanRun(w, FIRST, actions)
    ensures var t := After(w, FIRST, actions);
            id in t.feed.clients && !t.feed.clients[id].Refused?
            ==> (var c := t.feed.clients[id];
                 NextOf(c) <= |t.scanner.log| && c.received == t.scanner.log[c.from..NextOf(c)])
    ensures var t := After(w, FIRST, actions); |OpenClients(t.feed.clients)| + t.feed.slots == MAX_SSE_CLIENTS
  {
    var t := RunFromStart(w, actions);
    if id in t.feed.clients {
      assert ClientSound(t.scanner.log, t.feed.clients[id]);
    }
  }

  /** A client that heard of a revision finds at least that revision in every later snapshot. */
  lemma HeardRevisionIsThere(w: World, actions: seq<Action>, id: nat, e: Event)
    requires CanRun(w, FIRST, actions)
    ensures var t := After(w, FIRST, actions);
            (id in t.feed.clients && !t.feed.clients[id].Refused? && e in t.feed.clients[id].received
             ==> e.revision <= t.scanner.snap.revision)
  {
    var t := RunFromStart(w, actions);
    if id in t.feed.clients && !t.feed.clients[id].Refused? && e in t.feed.clients[id].received {
      var c := t.feed.clients[id];
      assert ClientSound(t.scanner.log, c);
      var i :| 0 <= i < |c.received| && c.received[i] == e;
      EventsTrailTheSnapshot(w, t.scanner, c.from + i);
    }
  }

  // ---------- Changes and rescans ----------

  /**
   * In every run, until the scan task stops: a demand newer than the latest scan start has a token queued
   * or the scan task is between receiving one and its next scan; otherwise that scan began after every demand.
   */
  lemma NoChangeIsLost(w: World, actions: seq<Action>)
    requires CanRun(w, FIRST, actions)
    ensures var s := After(w, FIRST, actions).scanner;
            && (s.covered < s.demands && !s.pc.Stopped? ==> s.queued || BeforeScan(s.pc))
            && (s.covered >= s.demands ==> s.heard <= s.scannedDisk)
  {
    var t := RunFromStart(w, actions);
  }

  function LoopSteps(actions: seq<Action>): nat {
    if actions == [] then 0
    else (if actions[0].OnScan? && OfTheLoop(actions[0].scan) then 1 else 0) + LoopSteps(actions[1..])
  }

  ghost predicate NoScanStarts(actions: seq<Action>) {
    forall a :: a in actions ==> a != OnScan(Announce) && a != OnScan(Stop)
  }

  lemma ProgressStep(w: World, s: State, a: Action)
    requires Can(w, s, a) && a != OnScan(Announce) && a != OnScan(Stop)
    ensures var t := Step(w, s, a);
            && t.scanner.covered == s.scanner.covered && t.scanner.demands >= s.scanner.demands
            && (t.scanner.pc.Stopped? <==> s.scanner.pc.Stopped?)
            && LoopSteps([a]) + Rank(t.scanner) + s.scanner.demands <= Rank(s.scanner) + t.scanner.demands
  {
    if a.OnScan? {
      RankFalls(w, s.scanner, a.scan);
    }
    assert LoopSteps([a]) == (if a.OnScan? && OfTheLoop(a.scan) then 1 else 0) + LoopSteps([a][1..]);
  }

  /**
   * While no scan starts the demand stays outstanding, and the scan task has taken at most as many steps
   * as its rank (never above nine) plus one for every new demand: the next scan cannot be put off otherwise.
   */
  lemma {:induction false} NextScanIsNear(w: World, s: State, actions: seq<Action>)
    requires Invariant(w, s) && CanRun(w, s, actions) && NoScanStarts(actions)
    requires s.scanner.covered < s.scanner.demands && !s.scanner.pc.Stopped?
    ensures var t := After(w, s, actions);
            && t.scanner.covered == s.scanner.covered < s.scanner.demands <= t.scanner.demands
            && !t.scanner.pc.Stopped? && (t.scanner.queued || BeforeScan(t.scanner.pc))
            && LoopSteps(actions) <= Rank(s.scanner) + (t.scanner.demands - s.scanner.demands)
            && Rank(s.scanner) <= 9
    decreases |actions|
  {
    hide ScanInvariant, GraphSound, FeedSound, Spaced, Step, Can;
    var t := After(w, s, actions);
    NearAux(w, s, actions);
    RunKeeps(w, s, actions);
    OutstandingIsQueued(w, t.scanner);
  }

  lemma OutstandingIsQueued(w: World, s: Scanner)
    requires ScanInvariant(w, s) && s.covered < s.demands && !s.pc.Stopped?
    ensures s.queued || BeforeScan(s.pc)
  {
  }

  lemma {:induction false} NearAux(w: World, s: State, actions: seq<Action>)
    requires CanRun(w, s, actions) && NoScanStarts(actions)
    ensures var t := After(w, s, actions);
            && t.scanner.covered == s.scanner.covered && s.scanner.demands <= t.scanner.demands
            && (t.scanner.pc.Stopped? <==> s.scanner.pc.Stopped?)
            && LoopSteps(actions) + Rank(t.scanner) + s.scanner.demands <= Rank(s.scanner) + t.scanner.demands
    decreases |actions|
  {
    hide Rank, OfTheLoop;
    if actions != [] {
      assert actions[0] in actions && forall a :: a in actions[1..] ==> a in actions;
      ProgressStep(w, s, actions[0]);
      assert [actions[0]][1..] == [];
      NearAux(w, Step(w, s, actions[0]), actions[1..]);
    }
  }

  /** An accepted rescan request always left a demand outstanding: a scan will start after it. */
  lemma AcceptedRescanIsDemanded(w: World, s: State, id: nat)
    requires Invariant(w, s) && Can(w, s, OnRescan(id, Send))
    ensures var t := Step(w, s, OnRescan(id, Send));
            && (t.rescan.answers[id].Accepted? <==> !s.scanner.pc.Stopped?)
            && (t.rescan.answers[id].Accepted? ==> t.scanner.covered < t.scanner.demands && t.scanner.queued)
            && (t.rescan.answers[id].Unavailable? <==> s.scanner.pc.Stopped?)
  {
  }

  /**
   * In every run: when the scan task rests, no token is queued and the watcher has reported every change,
   * then the daemon shows the tree as it is, unless the latest scan, which began after the last change, failed.
   */
  lemma RestingShowsTheTree(w: World, actions: seq<Action>)
    requires CanRun(w, FIRST, actions)
    ensures var s := After(w, FIRST, actions).scanner;
            s.startup.Serving? && s.pc.Idle? && !s.queued && s.heard == s.disk
            ==> && s.scannedDisk == s.disk && s.covered == s.demands
                && (s.snap.status.Ready? || s.snap.status.Error?)
                && (s.snap.status.Ready? ==> s.snap.report.Some? && PublishedInputs(s.snap) == w.observe(s.disk))
  {
    var t := RunFromStart(w, actions);
    if t.scanner.startup.Serving? && t.scanner.pc.Idle? && !t.scanner.queued && t.scanner.heard == t.scanner.disk {
      RestingIsCurrent(w, t.scanner);
    }
  }

  /** In every run the accepted rescans are at most one at once and then one for every second of the clock. */
  lemma RescansFitTheClock(w: World, actions: seq<Action>)
    requires CanRun(w, FIRST, actions)
    ensures var r := After(w, FIRST, actions).rescan;
            RESCAN_COOLDOWN_MS * |AcceptedIds(r.answers)| <= r.now + RESCAN_COOLDOWN_MS
  {
    var t := RunFromStart(w, actions);
    AcceptedFitTheClock(t.rescan);
  }

  lemma OneStepRun(w: World, s: State, a: Action, rest: seq<Action>)
    requires Can(w, s, a) && CanRun(w, Step(w, s, a), rest)
    ensures CanRun(w, s, [a] + rest) && After(w, s, [a] + rest) == After(w, Step(w, s, a), rest)
  {
    assert ([a] + rest)[1..] == rest;
  }

  /** From where the scan task is about to begin, a scan of the tree as it stands can always run to its end. */
  lemma ScanCanComplete(w: World, s: State) returns (actions: seq<Action>)
    requires s.scanner.pc.Locking? && !s.scanner.startup.StartupFailed?
    ensures CanRun(w, s, actions) && After(w, s, actions).graph == s.graph
    ensures var b, t := s.scanner, After(w, s, actions).scanner;
            && t.pc.Idle? && t.startup == b.startup && t.queued == b.queued && t.heard == b.heard && t.disk == b.disk
            && t.snap.status.Ready? && t.published == b.published + [w.observe(b.disk)]
            && t.log == b.log + [Event(Started, b.snap.revision), Event(Completed, b.snap.revision + 1)]
  {
    var seen := Observe(Scanned(w.observe(s.scanner.disk)));
    var s1 := Step(w, s, OnScan(Begin));
    var s2 := Step(w, s1, OnScan(Announce));
    var s3 := Step(w, s2, OnScan(seen));
    var s4 := Step(w, s3, OnScan(Publish));
    OneStepRun(w, s4, OnScan(Emit), []);
    actions := [OnScan(Emit)] + [];
    OneStepRun(w, s3, OnScan(Publish), actions);
    actions := [OnScan(Publish)] + actions;
    OneStepRun(w, s2, OnScan(seen), actions);
    actions := [OnScan(seen)] + actions;
    OneStepRun(w, s1, OnScan(Announce), actions);
    actions := [OnScan(Announce)] + actions;
    OneStepRun(w, s, OnScan(Begin), actions);
    actions := [OnScan(Begin)] + actions;
  }

  /** The resting states spoken of are reached: startup, one token, one successful scan of an unchanged tree. */
  lemma FirstScanCompletes(w: World) returns (actions: seq<Action>)
    ensures CanRun(w, FIRST, actions) && After(w, FIRST, actions).graph == FIRST_GRAPH
    ensures var s := After(w, FIRST, actions).scanner;
            && s.startup.Serving? && s.pc.Idle? && !s.queued && s.heard == s.disk && s.snap.status.Ready?
            && s.log == [Event(Started, 0), Event(Completed, 1)] && s.published == [w.observe(0)]
  {
    var s1 := Step(w, FIRST, OnScan(QueueInitial));
    var s2 := Step(w, s1, OnScan(Receive));
    var s3 := if w.debounce then Step(w, s2, OnScan(Wake)) else s2;
    var s4 := Step(w, s3, OnScan(Drain));
    actions := ScanCanComplete(w, s4);
    OneStepRun(w, s3, OnScan(Drain), actions);
    actions := [OnScan(Drain)] + actions;
    if w.debounce {
      OneStepRun(w, s2, OnScan(Wake), actions);
      actions := [OnScan(Wake)] + actions;
    }
    OneStepRun(w, s1, OnScan(Receive), actions);
    actions := [OnScan(Receive)] + actions;
    OneStepRun(w, FIRST, OnScan(QueueInitial), actions);
    actions := [OnScan(QueueInitial)] + actions;
  }
}
