/**
 * The daemon's tasks as the code writes them: locked sections that change shared fields, and the scan and the graph
 * request made of them, with any steps of other tasks in between (src/daemon.rs).
 */
module DaemonTasks {
  import opened Orders
  import opened Daemon
  import opened DaemonScan
  import opened DaemonRequests
  import opened DaemonRuns

  // ---------- What other tasks leave alone ----------

  /** None of the steps is the scan task's. */
  ghost predicate BesideTheLoop(actions: seq<Action>) {
    forall a :: a in actions ==> !(a.OnScan? && OfTheLoop(a.scan))
  }

  /** Only the scan task moves itself, writes the snapshot and logs. */
  lemma {:induction false} OthersKeepTheScan(w: World, s: State, actions: seq<Action>)
    requires CanRun(w, s, actions) && BesideTheLoop(actions) && s.scanner.startup.Serving?
    ensures var b, t := s.scanner, After(w, s, actions).scanner;
            t.pc == b.pc && t.snap == b.snap && t.log == b.log && t.published == b.published && t.startup.Serving?
    decreases |actions|
  {
    if actions != [] {
      assert actions[0] in actions && forall a :: a in actions[1..] ==> a in actions;
      OthersKeepTheScan(w, Step(w, s, actions[0]), actions[1..]);
    }
  }

  /** None of the steps is of this request. */
  ghost predicate BesideRequest(actions: seq<Action>, id: nat) {
    forall a :: a in actions ==> !(a.OnGraph? && a.id == id)
  }

  predicate Awaits(s: State, id: nat) {
    s.scanner.startup.Serving? && id in s.graph.requests && s.graph.requests[id].stage.Waiting?
  }

  /** In this round the other tasks leave the cache lock free at the end, wherever they find the request waiting. */
  ghost predicate HandsOn(w: World, others: (nat, State) -> seq<Action>, id: nat, n: nat)
    requires forall i, s :: CanRun(w, s, others(i, s))
  {
    forall s :: Invariant(w, s) && Awaits(s, id) ==>
      After(w, s, others(n, s)).graph.holder.None?
  }

  /** Another request that holds the lock stores its graph; otherwise nothing happens. */
  function HolderBuilds(id: nat, s: State): seq<Action> {
    var holder := s.graph.holder;
    if s.scanner.startup.Serving? && holder.Some? && holder.value != id && holder.value in s.graph.requests
       && s.graph.requests[holder.value].stage.Building?
    then [OnGraph(holder.value, Built(true))] else []
  }

  /** Tasks that hand the lock on exist: it is enough that whoever holds it finishes its build. */
  lemma FinishingHandsOn(w: World, id: nat, n: nat)
    ensures var others: (nat, State) -> seq<Action> := (i, s) => HolderBuilds(id, s);
            && (forall i: nat, s :: CanRun(w, s, others(i, s)) && BesideRequest(others(i, s), id))
            && HandsOn(w, others, id, n)
  {
    hide ScanInvariant, FeedSound, Spaced, StageSound, StepScan, StepFeed, StepRescan, Demand, CanScan, CanFeed;
    forall s: State
      ensures CanRun(w, s, HolderBuilds(id, s)) && BesideRequest(HolderBuilds(id, s), id)
      ensures Invariant(w, s) && Awaits(s, id) ==>
                After(w, s, HolderBuilds(id, s)).graph.holder.None?
    {
      if HolderBuilds(id, s) != [] {
        assert HolderBuilds(id, s)[1..] == [];
      }
    }
  }

  lemma {:induction false} OthersKeepTheRequest(w: World, s: State, actions: seq<Action>, id: nat)
    requires CanRun(w, s, actions) && BesideRequest(actions, id) && id in s.graph.requests
    ensures var t := After(w, s, actions); id in t.graph.requests && t.graph.requests[id] == s.graph.requests[id]
    decreases |actions|
  {
    if actions != [] {
      assert actions[0] in actions && forall a :: a in actions[1..] ==> a in actions;
      OthersKeepTheRequest(w, Step(w, s, actions[0]), actions[1..], id);
    }
  }

  lemma {:induction false} ServingLasts(w: World, s: State, actions: seq<Action>)
    requires CanRun(w, s, actions) && s.scanner.startup.Serving?
    ensures After(w, s, actions).scanner.startup.Serving?
    decreases |actions|
  {
    if actions != [] {
      ServingLasts(w, Step(w, s, actions[0]), actions[1..]);
    }
  }

  /** The shared state; the fields from `startup` to `published` and `admissions` only explain it. */
  class AppState {
    const world: World
    var snapshot: Snapshot
    var graphCache: Option<Cached>
    var events: seq<Event>
    var trigger: bool
    var shutdown: bool
    var lastRescan: Option<nat>
    var sseSlots: nat
    var pc: Pc
    var startup: Startup
    var disk: nat
    var heard: nat
    var demands: nat
    var covered: nat
    var scannedDisk: nat
    var published: seq<Inputs>
    var holder: Option<nat>
    var requests: map<nat, Request>
    var clients: map<nat, Client>
    var admissions: seq<nat>
    var answers: map<nat, Answer>
    var now: nat

    function Shown(): Scanner
      reads this
    {
      Scanner(startup, shutdown, pc, trigger, disk, heard, demands, covered, scannedDisk, snapshot, published, events)
    }

    function Graphs(): GraphSide
      reads this
    {
      GraphSide(graphCache, holder, requests)
    }

    function Feed(): FeedSide
      reads this
    {
      FeedSide(sseSlots, clients)
    }

    function Rescans(): RescanSide
      reads this
    {
      RescanSide(now, lastRescan, admissions, answers)
    }

    function Whole(): State
      reads this
    {
      State(Shown(), Graphs(), Feed(), Rescans())
    }

    constructor (world: World)
      ensures this.world == world && Whole() == FIRST
    {
      this.world := world;
      snapshot := Snapshot(0, Starting, None, None, "", "");
      graphCache, events, trigger, shutdown := None, [], false, false;
      lastRescan, sseSlots, pc := None, MAX_SSE_CLIENTS, Idle;
      startup, disk, heard, demands, covered, scannedDisk, published := Pending, 0, 0, 0, 0, 0, [];
      holder, requests, clients, admissions, answers, now := None, map[], map[], [], map[], 0;
    }

    // ---------- Sending tokens ----------

    method TrySend(version: nat) returns (closed: bool)
      modifies this`trigger, this`heard, this`demands
      ensures Shown() == Demand(old(Shown()), version) && (closed <==> pc.Stopped?)
      ensures closed ==> trigger == old(trigger) && demands == old(demands) && heard == old(heard)
      ensures !closed ==> trigger && demands == old(demands) + 1 && heard >= version && heard >= old(heard)
    {
      if pc.Stopped? {
        return true;
      }
      trigger := true;
      demands := demands + 1;
      heard := if version > heard then version else heard;
      return false;
    }

    /**
     * A request without the header is bad, one within the cooldown since the last admission comes too early, any other
     * is admitted. The token is not sent yet.
     */
    method AdmitRescan(id: nat, header: bool)
      requires CanRescan(Rescans(), id, Post(header))
      modifies this`lastRescan, this`admissions, this`answers
      ensures Rescans() == StepRescan(old(Rescans()), pc.Stopped?, id, Post(header))
      ensures id in answers && answers - {id} == old(answers) - {id}
      ensures answers[id].BadRequest? <==> !header
      ensures answers[id].TooManyRequests?
              <==> header && old(lastRescan).Some? && now < old(lastRescan).value + RESCAN_COOLDOWN_MS
      ensures answers[id].Admitted?
              <==> header && (old(lastRescan).Some? ==> old(lastRescan).value + RESCAN_COOLDOWN_MS <= now)
      ensures answers[id].Admitted? ==> lastRescan == Some(now)
      ensures !answers[id].Admitted? ==> lastRescan == old(lastRescan) && admissions == old(admissions)
      ensures trigger == old(trigger) && demands == old(demands)
    {
      if !header {
        answers := answers[id := BadRequest];
        return;
      }
      if lastRescan.Some? && now - lastRescan.value < RESCAN_COOLDOWN_MS {
        answers := answers[id := TooManyRequests];
        return;
      }
      lastRescan := Some(now);
      admissions := admissions + [now];
      answers := answers[id := Admitted];
    }

    method QueueRescan(id: nat)
      requires Can(world, Whole(), OnRescan(id, Send))
      modifies this`trigger, this`heard, this`demands, this`answers
      ensures Whole() == Step(world, old(Whole()), OnRescan(id, Send))
      ensures answers == old(answers)[id := if pc.Stopped? then Unavailable else Accepted]
      ensures trigger == (old(trigger) || !pc.Stopped?) && lastRescan == old(lastRescan)
    {
      var closed := TrySend(disk);
      answers := answers[id := if closed then Unavailable else Accepted];
    }

    method TickClock(id: nat, ms: nat)
      requires CanRescan(Rescans(), id, Tick(ms))
      modifies this`now
      ensures Rescans() == StepRescan(old(Rescans()), pc.Stopped?, id, Tick(ms))
      ensures now == old(now) + ms
    {
      now := now + ms;
    }

    // ---------- The scan task ----------

    /** The initial token; a slot already taken makes startup fail. */
    method QueueInitialScan() returns (ok: bool)
      requires CanScan(world, Shown(), QueueInitial)
      modifies this`trigger, this`heard, this`demands, this`startup
      ensures Shown() == StepScan(world, old(Shown()), QueueInitial) && (ok <==> startup.Serving?)
      ensures ok <==> !old(trigger)
      ensures ok && !pc.Stopped? ==> trigger && heard >= disk
      ensures !ok ==> startup.StartupFailed? && trigger
    {
      if trigger {
        startup := StartupFailed;
        return false;
      }
      var closed := TrySend(disk);
      startup := Serving;
      return true;
    }

    method ReceiveToken()
      requires CanScan(world, Shown(), Receive)
      modifies this`trigger, this`pc
      ensures Shown() == StepScan(world, old(Shown()), Receive)
      ensures !trigger && (pc.Debouncing? <==> world.debounce) && (pc.Draining? <==> !world.debounce)
    {
      trigger := false;
      pc := if world.debounce then Debouncing else Draining;
    }

    method DrainTriggers() returns (empty: bool)
      requires CanScan(world, Shown(), Drain)
      modifies this`trigger, this`pc
      ensures Shown() == StepScan(world, old(Shown()), Drain)
      ensures empty <==> pc.Locking?
      ensures (empty <==> !old(trigger)) && !trigger && (!empty ==> pc.Draining?)
    {
      empty := !trigger;
      if trigger {
        trigger := false;
      } else {
        pc := Locking;
      }
    }

    method BeginScan()
      requires CanScan(world, Shown(), Begin)
      modifies this`snapshot, this`pc
      ensures Shown() == StepScan(world, old(Shown()), Begin)
      ensures snapshot == old(snapshot).(status := Scanning, error := None) && pc == Announcing(old(snapshot).revision)
    {
      var current := snapshot;
      current := current.(status := Scanning);
      current := current.(error := None);
      snapshot := current;
      pc := Announcing(current.revision);
    }

    method AnnounceScan()
      requires CanScan(world, Shown(), Announce)
      modifies this`events, this`pc, this`covered, this`scannedDisk
      ensures Shown() == StepScan(world, old(Shown()), Announce)
      ensures events == old(events) + [Event(Started, old(pc).revision)] && pc.Reading?
      ensures covered == demands && scannedDisk == disk
    {
      events := events + [Event(Started, pc.revision)];
      pc := Reading;
      covered, scannedDisk := demands, disk;
    }

    method FinishScan()
      requires CanScan(world, Shown(), Publish)
      modifies this`snapshot, this`published, this`pc
      ensures Shown() == StepScan(world, old(Shown()), Publish)
      ensures match old(pc).outcome
              case Scanned(inputs) =>
                && snapshot == Snapshot(old(snapshot).revision + 1, Ready, None, Some(inputs.report), inputs.facts,
                                        inputs.limits)
                && published == old(published) + [inputs] && pc == Emitting(Event(Completed, snapshot.revision))
              case ScanFailed(error) =>
                && snapshot == old(snapshot).(status := Error, error := Some(error)) && published == old(published)
                && pc == Emitting(Event(Failed, snapshot.revision))
    {
      match pc.outcome
      case Scanned(inputs) =>
        var current := snapshot;
        current := current.(revision := current.revision + 1);
        current := current.(status := Ready, error := None);
        current := current.(report := Some(inputs.report), facts := inputs.facts, limits := inputs.limits);
        snapshot := current;
        published := published + [inputs];
        pc := Emitting(Event(Completed, current.revision));
      case ScanFailed(error) =>
        RecordScanError(error);
    }

    method RecordScanError(error: string)
      requires pc.Finishing?
      modifies this`snapshot, this`pc
      ensures Shown() == PublishOutcome(old(Shown()), ScanFailed(error))
      ensures snapshot == old(snapshot).(status := Error, error := Some(error))
      ensures pc == Emitting(Event(Failed, snapshot.revision))
    {
      var current := snapshot;
      current := current.(status := Error);
      current := current.(error := Some(error));
      snapshot := current;
      pc := Emitting(Event(Failed, current.revision));
    }

    method EmitFinished()
      requires CanScan(world, Shown(), Emit)
      modifies this`events, this`pc
      ensures Shown() == StepScan(world, old(Shown()), Emit)
      ensures events == old(events) + [old(pc).event] && pc.Idle?
    {
      events := events + [pc.event];
      pc := Idle;
    }

    // ---------- Graph requests ----------

    method ReadRevision(id: nat, asked: Option<nat>)
      requires CanGraph(Graphs(), id, Ask(asked))
      modifies this`requests
      ensures Graphs() == StepGraph(world, old(Graphs()), snapshot, id, Ask(asked))
      ensures id in requests && requests - {id} == old(requests) && requests[id].asked == asked
      ensures requests[id].stage == Replied(Conflict) <==> asked.Some? && asked.value != snapshot.revision
      ensures requests[id].stage == Replied(NoReport)
              <==> (asked.Some? ==> asked.value == snapshot.revision) && snapshot.report.None?
      ensures (asked.Some? ==> asked.value == snapshot.revision) && snapshot.report.Some? ==>
                requests[id].stage == Waiting(snapshot.revision, PublishedInputs(snapshot))
    {
      if asked.Some? && asked.value != snapshot.revision {
        requests := requests[id := Request(asked, Replied(Conflict))];
        return;
      }
      if snapshot.report.None? {
        requests := requests[id := Request(asked, Replied(NoReport))];
        return;
      }
      var inputs := Inputs(snapshot.report.value, snapshot.facts, snapshot.limits);
      requests := requests[id := Request(asked, Waiting(snapshot.revision, inputs))];
    }

    method LookUpGraph(id: nat)
      requires CanGraph(Graphs(), id, Lock)
      modifies this`requests, this`holder
      ensures Graphs() == StepGraph(world, old(Graphs()), snapshot, id, Lock)
      ensures id in requests && requests - {id} == old(requests) - {id}
      ensures var request := old(requests)[id];
              var revision := request.stage.revision;
              if graphCache.Some? && graphCache.value.revision == revision
              then holder.None?
                   && requests[id] == Request(request.asked, Replied(GraphReply(revision, graphCache.value.graph)))
              else holder == Some(id)
                   && requests[id] == Request(request.asked, Building(revision, request.stage.inputs))
    {
      var request := requests[id];
      var revision := request.stage.revision;
      if graphCache.Some? && graphCache.value.revision == revision {
        requests := requests[id := request.(stage := Replied(GraphReply(revision, graphCache.value.graph)))];
        return;
      }
      holder := Some(id);
      requests := requests[id := request.(stage := Building(revision, request.stage.inputs))];
    }

    method StoreGraph(id: nat, built: Option<Graph>)
      requires CanGraph(Graphs(), id, Built(built.Some?))
      requires built.Some? ==> built.value == world.build(requests[id].stage.inputs)
      modifies this`requests, this`holder, this`graphCache
      ensures Graphs() == StepGraph(world, old(Graphs()), snapshot, id, Built(built.Some?))
      ensures holder.None? && id in requests && requests - {id} == old(requests) - {id}
      ensures var request := old(requests)[id];
              match built
              case None =>
                graphCache == old(graphCache) && requests[id] == Request(request.asked, Replied(InternalError))
              case Some(graph) =>
                && graphCache == Some(Cached(request.stage.revision, graph))
                && requests[id] == Request(request.asked, Replied(GraphReply(request.stage.revision, graph)))
    {
      var request := requests[id];
      holder := None;
      match built
      case None =>
        requests := requests[id := request.(stage := Replied(InternalError))];
      case Some(graph) =>
        var revision := request.stage.revision;
        graphCache := Some(Cached(revision, graph));
        requests := requests[id := request.(stage := Replied(GraphReply(revision, graph)))];
    }

    method AbandonRequest(id: nat)
      requires CanGraph(Graphs(), id, Abandon)
      modifies this`requests, this`holder
      ensures Graphs() == StepGraph(world, old(Graphs()), snapshot, id, Abandon)
      ensures requests == old(requests) - {id}
      ensures holder == if old(requests)[id].stage.Building? then None else old(holder)
    {
      if requests[id].stage.Building? {
        holder := None;
      }
      requests := requests - {id};
    }

    // ---------- Event streams ----------

    method SubscribeEvents(id: nat)
      requires CanFeed(Feed(), events, shutdown, id, Subscribe)
      modifies this`clients, this`sseSlots
      ensures Feed() == StepFeed(old(Feed()), events, shutdown, id, Subscribe)
      ensures clients == old(clients)[id := if old(sseSlots) == 0 then Refused else Streaming(|events|, [])]
      ensures old(sseSlots) == sseSlots + if clients[id].Streaming? then 1 else 0
    {
      if sseSlots == 0 {
        clients := clients[id := Refused];
        return;
      }
      sseSlots := sseSlots - 1;
      clients := clients[id := Streaming(|events|, [])];
    }

    method PollEvents(id: nat)
      requires CanFeed(Feed(), events, shutdown, id, Poll)
      modifies this`clients, this`sseSlots
      ensures Feed() == StepFeed(old(Feed()), events, shutdown, id, Poll)
      ensures var client := old(clients)[id];
              var next := client.from + |client.received|;
              if shutdown || |events| > next + BROADCAST_CAPACITY
              then clients == old(clients)[id := Closed(client.from, client.received)] && sseSlots == old(sseSlots) + 1
              else clients == old(clients)[id := Streaming(client.from, client.received + [events[next]])]
                   && sseSlots == old(sseSlots)
    {
      var client := clients[id];
      var next := NextOf(client);
      var lagged := |events| - next > BROADCAST_CAPACITY;
      if shutdown || lagged {
        sseSlots := sseSlots + 1;
        clients := clients[id := Closed(client.from, client.received)];
      } else {
        clients := clients[id := Streaming(client.from, client.received + [events[next]])];
      }
    }

    method LeaveStream(id: nat)
      requires CanFeed(Feed(), events, shutdown, id, Leave)
      modifies this`clients, this`sseSlots
      ensures Feed() == StepFeed(old(Feed()), events, shutdown, id, Leave)
      ensures var client := old(clients)[id];
              clients == old(clients)[id := Closed(client.from, client.received)] && sseSlots == old(sseSlots) + 1
    {
      var client := clients[id];
      sseSlots := sseSlots + 1;
      clients := clients[id := Closed(client.from, client.received)];
    }

    // ---------- Any step of any task ----------

    method OutsideStep(a: ScanAction)
      requires CanScan(world, Shown(), a) && !OfTheLoop(a)
      modifies this`disk, this`trigger, this`heard, this`demands, this`startup, this`shutdown
      ensures Shown() == StepScan(world, old(Shown()), a)
    {
      match a
      case Touch => disk := disk + 1;
      case Hear(version) => var closed := TrySend(version);
      case QueueInitial => var ok := QueueInitialScan();
      case Shutdown => shutdown := true;
    }

    method LoopStep(a: ScanAction)
      requires CanScan(world, Shown(), a) && OfTheLoop(a)
      modifies this`trigger, this`pc, this`snapshot, this`events, this`covered, this`scannedDisk, this`published
      ensures Shown() == StepScan(world, old(Shown()), a)
    {
      match a
      case Receive => ReceiveToken();
      case Wake => pc := Draining;
      case Drain => var empty := DrainTriggers();
      case Begin => BeginScan();
      case Announce => AnnounceScan();
      case Observe(outcome) => pc := Finishing(outcome);
      case Publish => FinishScan();
      case Emit => EmitFinished();
      case Stop => pc, trigger := Stopped, false;
    }

    method GraphStep(id: nat, a: GraphAction)
      requires CanGraph(Graphs(), id, a)
      modifies this`requests, this`holder, this`graphCache
      ensures Graphs() == StepGraph(world, old(Graphs()), snapshot, id, a)
    {
      match a
      case Ask(asked) => ReadRevision(id, asked);
      case Lock => LookUpGraph(id);
      case Built(ok) => StoreGraph(id, if ok then Some(world.build(requests[id].stage.inputs)) else None);
      case Abandon => AbandonRequest(id);
    }

    method FeedStep(id: nat, a: FeedAction)
      requires CanFeed(Feed(), events, shutdown, id, a)
      modifies this`clients, this`sseSlots
      ensures Feed() == StepFeed(old(Feed()), events, shutdown, id, a)
    {
      match a
      case Subscribe => SubscribeEvents(id);
      case Poll => PollEvents(id);
      case Leave => LeaveStream(id);
    }

    method RescanStep(id: nat, a: RescanAction)
      requires Can(world, Whole(), OnRescan(id, a))
      modifies this`trigger, this`heard, this`demands, this`answers, this`lastRescan, this`admissions, this`now
      ensures Whole() == Step(world, old(Whole()), OnRescan(id, a))
    {
      match a
      case Tick(ms) => TickClock(id, ms);
      case Post(header) => AdmitRescan(id, header);
      case Send => QueueRescan(id);
    }

    /** Whoever moves next makes exactly its step and keeps the invariant. */
    method Perform(a: Action)
      requires Can(world, Whole(), a) && Invariant(world, Whole())
      modifies this
      ensures Whole() == Step(world, old(Whole()), a) && Invariant(world, Whole())
    {
      hide Invariant, StepScan, StepGraph, StepFeed, StepRescan, Demand, CanScan, CanGraph, CanFeed, OfTheLoop;
      InvariantStep(world, Whole(), a);
      {
        match a
        case OnScan(scan) =>
          if OfTheLoop(scan) {
            LoopStep(scan);
          } else {
            OutsideStep(scan);
          }
        case OnGraph(id, graph) => GraphStep(id, graph);
        case OnFeed(id, feed) => FeedStep(id, feed);
        case OnRescan(id, rescan) => RescanStep(id, rescan);
      }
    }

    /** Other tasks run for a while. */
    method Interleave(actions: seq<Action>)
      requires CanRun(world, Whole(), actions) && Invariant(world, Whole())
      modifies this
      ensures Whole() == After(world, old(Whole()), actions) && Invariant(world, Whole())
      decreases |actions|
    {
      hide Invariant, Step, Can;
      if actions != [] {
        Perform(actions[0]);
        Interleave(actions[1..]);
      }
    }

    // ---------- Whole tasks among other tasks ----------

    /**
     * One scan, whatever runs between its sections: it logs one start and one end and nothing else is logged meanwhile,
     * and it publishes one revision, whole, or none and leaves the last report.
     */
    method ScanOnce(others: (nat, State) -> seq<Action>, scan: State -> Outcome) returns (outcome: Outcome)
      requires Invariant(world, Whole()) && pc.Locking? && startup.Serving?
      requires forall i, s :: CanRun(world, s, others(i, s)) && BesideTheLoop(others(i, s))
      requires forall s: State :: s.scanner.pc.Reading? && s.scanner.startup.Serving? ==>
                 CanScan(world, s.scanner, Observe(scan(s)))
      modifies this
      ensures Invariant(world, Whole()) && pc.Idle?
      ensures var revision := old(snapshot.revision);
              match outcome
              case Scanned(inputs) =>
                && published == old(published) + [inputs] && snapshot.revision == revision + 1 && snapshot.status.Ready?
                && snapshot.report.Some? && PublishedInputs(snapshot) == inputs
                && events == old(events) + [Event(Started, revision), Event(Completed, revision + 1)]
              case ScanFailed(error) =>
                && published == old(published) && snapshot == old(snapshot).(status := Error, error := Some(error))
                && events == old(events) + [Event(Started, revision), Event(Failed, revision)]
    {
      hide Invariant, After, CanRun, BesideTheLoop, StepGraph, StepFeed, StepRescan;
      StartScan(others);
      outcome := scan(Whole());
      Perform(OnScan(Observe(outcome)));
      Beside(others(2, Whole()));
      EndScan(outcome, others);
    }

    method StartScan(others: (nat, State) -> seq<Action>)
      requires Invariant(world, Whole()) && pc.Locking? && startup.Serving?
      requires forall i, s :: CanRun(world, s, others(i, s)) && BesideTheLoop(others(i, s))
      modifies this
      ensures Invariant(world, Whole()) && pc.Reading? && startup.Serving? && published == old(published)
      ensures snapshot == old(snapshot).(status := Scanning, error := None)
      ensures events == old(events) + [Event(Started, old(snapshot.revision))]
    {
      hide Invariant, After, CanRun, BesideTheLoop, StepGraph, StepFeed, StepRescan;
      Perform(OnScan(Begin));
      Beside(others(0, Whole()));
      Perform(OnScan(Announce));
      Beside(others(1, Whole()));
    }

    method EndScan(outcome: Outcome, others: (nat, State) -> seq<Action>)
      requires Invariant(world, Whole()) && pc == Finishing(outcome) && startup.Serving?
      requires forall i, s :: CanRun(world, s, others(i, s)) && BesideTheLoop(others(i, s))
      modifies this
      ensures Invariant(world, Whole()) && pc.Idle?
      ensures outcome.Scanned? ==>
                && published == old(published) + [outcome.inputs] && snapshot.report.Some?
                && PublishedInputs(snapshot) == outcome.inputs
                && snapshot.revision == old(snapshot.revision) + 1 && snapshot.status.Ready?
                && events == old(events) + [Event(Completed, old(snapshot.revision) + 1)]
      ensures outcome.ScanFailed? ==>
                && published == old(published)
                && snapshot == old(snapshot).(status := Error, error := Some(outcome.error))
                && events == old(events) + [Event(Failed, old(snapshot.revision))]
    {
      hide Invariant, After, CanRun, BesideTheLoop, StepGraph, StepFeed, StepRescan;
      Perform(OnScan(Publish));
      Beside(others(3, Whole()));
      Perform(OnScan(Emit));
    }

    method Beside(actions: seq<Action>)
      requires CanRun(world, Whole(), actions) && Invariant(world, Whole()) && BesideTheLoop(actions)
               && startup.Serving?
      modifies this
      ensures Invariant(world, Whole())
      ensures pc == old(pc) && snapshot == old(snapshot) && events == old(events) && published == old(published)
              && startup.Serving?
    {
      OthersKeepTheScan(world, Whole(), actions);
      Interleave(actions);
    }

    /**
     * One graph request, whatever runs between its sections: an answered graph is that of the revision
     * current when the request was read, even if newer ones were published or stored meanwhile. It waits for the lock
     * as many rounds of the other tasks as it has patience; if they hand the lock on in one of them, it is answered.
     */
    method ServeGraph(id: nat, asked: Option<nat>, ok: bool, others: (nat, State) -> seq<Action>, patience: nat)
      returns (reply: Option<Reply>)
      requires Invariant(world, Whole()) && startup.Serving? && id !in requests
      requires forall i, s :: CanRun(world, s, others(i, s)) && BesideRequest(others(i, s), id)
      modifies this
      ensures Invariant(world, Whole())
      ensures id in requests && (reply.Some? <==> requests[id].stage.Replied?)
              && (reply.Some? ==> reply == Some(requests[id].stage.reply))
      ensures reply == Some(Conflict) <==> asked.Some? && asked.value != old(snapshot.revision)
      ensures reply == Some(NoReport)
              <==> !(asked.Some? && asked.value != old(snapshot.revision)) && old(snapshot.report).None?
      ensures reply.Some? && reply.value.GraphReply? ==>
                && reply.value.revision == old(snapshot.revision) == |old(published)| > 0
                && reply.value.graph == world.build(old(published)[|old(published)| - 1])
      ensures reply == Some(InternalError) ==> !ok
      ensures reply.None? ==> holder.Some? && requests[id].stage.Waiting?
      ensures (exists n :: 0 <= n <= patience && HandsOn(world, others, id, n)) ==> reply.Some?
    {
      hide Invariant, After, CanRun, BesideRequest, StepScan, StepFeed, StepRescan, HandsOn;
      SnapshotMatches();
      ghost var read := published;
      Perform(OnGraph(id, Ask(asked)));
      if requests[id].stage.Replied? {
        return Some(requests[id].stage.reply);
      }
      AwaitLock(id, others, patience);
      if holder.Some? {
        return None;
      }
      Perform(OnGraph(id, Lock));
      if requests[id].stage.Replied? {
        AnsweredSound(id, read);
        return Some(requests[id].stage.reply);
      }
      BesideOwn(id, others(patience + 1, Whole()));
      Perform(OnGraph(id, Built(ok)));
      reply := Some(requests[id].stage.reply);
    }

    /** The request waits, round by round, until the lock is free or its patience ends. */
    method AwaitLock(id: nat, others: (nat, State) -> seq<Action>, patience: nat)
      requires Invariant(world, Whole()) && startup.Serving? && id in requests && requests[id].stage.Waiting?
      requires forall i, s :: CanRun(world, s, others(i, s)) && BesideRequest(others(i, s), id)
      modifies this
      ensures Invariant(world, Whole()) && startup.Serving?
      ensures id in requests && requests[id] == old(requests)[id] && old(published) <= published
      ensures (exists n :: 0 <= n <= patience && HandsOn(world, others, id, n)) ==> holder.None?
    {
      hide Invariant, CanRun, BesideRequest, Step, Can;
      var i := 0;
      BesideOwn(id, others(0, Whole()));
      while holder.Some? && i < patience
        invariant i <= patience && Invariant(world, Whole()) && startup.Serving?
        invariant id in requests && requests[id] == old(requests)[id] && old(published) <= published
        invariant forall n :: 0 <= n <= i && HandsOn(world, others, id, n) ==> holder.None?
        decreases patience - i
      {
        i := i + 1;
        BesideOwn(id, others(i, Whole()));
      }
    }

    method BesideOwn(id: nat, actions: seq<Action>)
      requires CanRun(world, Whole(), actions) && Invariant(world, Whole()) && BesideRequest(actions, id)
      requires startup.Serving? && id in requests
      modifies this
      ensures Invariant(world, Whole()) && startup.Serving?
      ensures id in requests && requests[id] == old(requests)[id] && old(published) <= published
      ensures Whole() == After(world, old(Whole()), actions)
    {
      OthersKeepTheRequest(world, Whole(), actions, id);
      ServingLasts(world, Whole(), actions);
      RunKeeps(world, Whole(), actions);
      Interleave(actions);
    }

    lemma SnapshotMatches()
      requires Invariant(world, Whole())
      ensures snapshot.revision == |published| && (snapshot.report.Some? <==> snapshot.revision > 0)
      ensures snapshot.report.Some? ==>
                Inputs(snapshot.report.value, snapshot.facts, snapshot.limits) == published[|published| - 1]
    {
      SnapshotIsPublished(world, Shown());
    }

    lemma AnsweredSound(id: nat, read: seq<Inputs>)
      requires Invariant(world, Whole()) && id in requests && requests[id].stage.Replied? && read <= published
      ensures var reply := requests[id].stage.reply;
              reply.GraphReply? && reply.revision == |read| ==>
                  |read| > 0 && reply.graph == world.build(read[|read| - 1])
    {
      assert StageSound(world, published, requests[id].asked, requests[id].stage);
    }
  }
}
