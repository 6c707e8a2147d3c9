/** The daemon as a step system (src/daemon.rs): every stretch between two awaits or under one lock is one step. */
module Daemon {
  import opened Orders

  const BROADCAST_CAPACITY := 32
  const MAX_SSE_CLIENTS := 32
  const RESCAN_COOLDOWN_MS := 1000

  type Graph = string

  /** What one completed scan publishes and a graph is built from. */
  datatype Inputs = Inputs(report: string, facts: string, limits: string)

  /**
   * What the steps take from outside: what a scan of an unchanging tree sees,
   * what a graph build makes of its inputs, and whether a debounce is configured.
   */
  datatype World = World(observe: nat -> Inputs, build: Inputs -> Graph, debounce: bool)

  // ---------- The scan task, the watcher and the snapshot ----------

  datatype Startup = Pending | Serving | StartupFailed

  datatype Status = Starting | Scanning | Ready | Error

  datatype Snapshot = Snapshot(revision: nat, status: Status, error: Option<string>, report: Option<string>,
                               facts: string, limits: string)

  datatype EventKind = Started | Completed | Failed

  datatype Event = Event(kind: EventKind, revision: nat)

  datatype Outcome = Scanned(inputs: Inputs) | ScanFailed(error: string)

  /** Where the scan task is: the awaits of scan_loop and scan_once. */
  datatype Pc = Idle | Debouncing | Draining | Locking | Announcing(revision: nat) | Reading
              | Finishing(outcome: Outcome) | Emitting(event: Event) | Stopped

  /**
   * `queued` is the one-slot trigger channel and `disk` the version of the watched tree.
   * `heard` is the newest version any demand spoke of, `demands` counts the demands so far, and
   * `covered` and `scannedDisk` are those two when the latest scan began to read.
   * `published` lists the inputs of every revision.
   */
  datatype Scanner = Scanner(startup: Startup, shutdown: bool, pc: Pc, queued: bool,
                             disk: nat, heard: nat, demands: nat, covered: nat, scannedDisk: nat,
                             snap: Snapshot, published: seq<Inputs>, log: seq<Event>)

  datatype ScanAction = Touch | Hear(version: nat) | QueueInitial | Shutdown
                      | Receive | Wake | Drain | Begin | Announce | Observe(outcome: Outcome) | Publish | Emit | Stop

  const FIRST_SCANNER := Scanner(Pending, false, Idle, false, 0, 0, 0, 0, 0,
                                 Snapshot(0, Starting, None, None, "", ""), [], [])

  /** Sending a token: a full channel already holds one, and a stopped scan task has closed it. */
  function Demand(s: Scanner, version: nat): Scanner {
    if s.pc.Stopped? then s
    else s.(queued := true, demands := s.demands + 1, heard := if version > s.heard then version else s.heard)
  }

  /**
   * Which steps are possible. A watcher callback may be late and stand for several changes.
   * A scan whose tree did not change since it began sees exactly that tree.
   */
  predicate CanScan(w: World, s: Scanner, a: ScanAction) {
    && !s.startup.StartupFailed?
    && match a
       case Touch => true
       case Hear(version) => version <= s.disk
       case QueueInitial => s.startup.Pending?
       case Shutdown => s.startup.Serving?
       case Receive => s.pc.Idle? && s.queued
       case Wake => s.pc.Debouncing?
       case Drain => s.pc.Draining?
       case Begin => s.pc.Locking?
       case Announce => s.pc.Announcing?
       case Observe(outcome) =>
         s.pc.Reading? && (outcome.Scanned? && s.disk == s.scannedDisk ==> outcome.inputs == w.observe(s.disk))
       case Publish => s.pc.Finishing?
       case Emit => s.pc.Emitting?
       case Stop => s.pc.Idle? && s.shutdown
  }

  function StepScan(w: World, s: Scanner, a: ScanAction): Scanner
    requires CanScan(w, s, a)
  {
    match a
    case Touch => s.(disk := s.disk + 1)
    case Hear(version) => Demand(s, version)
    case QueueInitial => if s.queued then s.(startup := StartupFailed) else Demand(s, s.disk).(startup := Serving)
    case Shutdown => s.(shutdown := true)
    case Receive => s.(queued := false, pc := if w.debounce then Debouncing else Draining)
    case Wake => s.(pc := Draining)
    case Drain => if s.queued then s.(queued := false) else s.(pc := Locking)
    case Begin => s.(snap := s.snap.(status := Scanning, error := None), pc := Announcing(s.snap.revision))
    case Announce =>
      s.(log := s.log + [Event(Started, s.pc.revision)], pc := Reading, covered := s.demands, scannedDisk := s.disk)
    case Observe(outcome) => s.(pc := Finishing(outcome))
    case Publish => PublishOutcome(s, s.pc.outcome)
    case Emit => s.(log := s.log + [s.pc.event], pc := Idle)
    case Stop => s.(pc := Stopped, queued := false)
  }

  /** One write of the snapshot: all parts of a success together, only status and error of a failure. */
  function PublishOutcome(s: Scanner, outcome: Outcome): Scanner {
    match outcome
    case Scanned(inputs) =>
      var revision := s.snap.revision + 1;
      s.(snap := Snapshot(revision, Ready, None, Some(inputs.report), inputs.facts, inputs.limits),
         published := s.published + [inputs],
         pc := Emitting(Event(Completed, revision)))
    case ScanFailed(error) =>
      s.(snap := s.snap.(status := Error, error := Some(error)), pc := Emitting(Event(Failed, s.snap.revision)))
  }

  // ---------- Graph requests ----------

  datatype Cached = Cached(revision: nat, graph: Graph)

  datatype Reply = GraphReply(revision: nat, graph: Graph) | Conflict | NoReport | InternalError

  /** Waiting for the cache lock, holding it while the graph is built, or answered. */
  datatype Stage =
    | Waiting(revision: nat, inputs: Inputs)
    | Building(revision: nat, inputs: Inputs)
    | Replied(reply: Reply)

  datatype Request = Request(asked: Option<nat>, stage: Stage)

  datatype GraphSide = GraphSide(entry: Option<Cached>, holder: Option<nat>, requests: map<nat, Request>)

  datatype GraphAction = Ask(asked: Option<nat>) | Lock | Built(ok: bool) | Abandon

  const FIRST_GRAPH := GraphSide(None, None, map[])

  predicate CanGraph(g: GraphSide, id: nat, a: GraphAction) {
    match a
    case Ask(_) => id !in g.requests
    case Lock => id in g.requests && g.requests[id].stage.Waiting? && g.holder.None?
    case Built(_) => id in g.requests && g.requests[id].stage.Building?
    case Abandon => id in g.requests && !g.requests[id].stage.Replied?
  }

  function Asked(snap: Snapshot, asked: Option<nat>): Stage {
    if asked.Some? && asked.value != snap.revision then Replied(Conflict)
    else if snap.report.None? then Replied(NoReport)
    else Waiting(snap.revision, Inputs(snap.report.value, snap.facts, snap.limits))
  }

  function StepGraph(w: World, g: GraphSide, snap: Snapshot, id: nat, a: GraphAction): GraphSide
    requires CanGraph(g, id, a)
  {
    match a
    case Ask(asked) => g.(requests := g.requests[id := Request(asked, Asked(snap, asked))])
    case Lock =>
      var request := g.requests[id];
      var revision := request.stage.revision;
      if g.entry.Some? && g.entry.value.revision == revision
      then g.(requests := g.requests[id := request.(stage := Replied(GraphReply(revision, g.entry.value.graph)))])
      else g.(holder := Some(id),
              requests := g.requests[id := request.(stage := Building(revision, request.stage.inputs))])
    case Built(ok) =>
      var request := g.requests[id];
      var revision := request.stage.revision;
      var graph := w.build(request.stage.inputs);
      if ok
      then GraphSide(Some(Cached(revision, graph)), None,
                     g.requests[id := request.(stage := Replied(GraphReply(revision, graph)))])
      else g.(holder := None, requests := g.requests[id := request.(stage := Replied(InternalError))])
    case Abandon =>
      g.(holder := if g.requests[id].stage.Building? then None else g.holder, requests := g.requests - {id})
  }

  // ---------- Event streams ----------

  datatype Client = Refused | Streaming(from: nat, received: seq<Event>) | Closed(from: nat, received: seq<Event>)

  datatype FeedSide = FeedSide(slots: nat, clients: map<nat, Client>)

  datatype FeedAction = Subscribe | Poll | Leave

  const FIRST_FEED := FeedSide(MAX_SSE_CLIENTS, map[])

  /** The position a client reads next: it starts at the end of the log and never skips. */
  function NextOf(c: Client): nat
    requires !c.Refused?
  {
    c.from + |c.received|
  }

  predicate CanFeed(f: FeedSide, log: seq<Event>, shutdown: bool, id: nat, a: FeedAction) {
    match a
    case Subscribe => id !in f.clients
    case Poll => id in f.clients && f.clients[id].Streaming? && (shutdown || NextOf(f.clients[id]) < |log|)
    case Leave => id in f.clients && f.clients[id].Streaming?
  }

  function CloseClient(f: FeedSide, id: nat): FeedSide
    requires id in f.clients && f.clients[id].Streaming?
  {
    FeedSide(f.slots + 1, f.clients[id := Closed(f.clients[id].from, f.clients[id].received)])
  }

  function StepFeed(f: FeedSide, log: seq<Event>, shutdown: bool, id: nat, a: FeedAction): FeedSide
    requires CanFeed(f, log, shutdown, id, a)
  {
    match a
    case Subscribe =>
      if f.slots == 0 then f.(clients := f.clients[id := Refused])
      else FeedSide(f.slots - 1, f.clients[id := Streaming(|log|, [])])
    case Poll =>
      var c := f.clients[id];
      if shutdown || NextOf(c) + BROADCAST_CAPACITY < |log| then CloseClient(f, id)
      else f.(clients := f.clients[id := Streaming(c.from, c.received + [log[NextOf(c)]])])
    case Leave => CloseClient(f, id)
  }

  // ---------- Rescan requests ----------

  /** Admitted: past the cooldown check, but the token is not sent yet. */
  datatype Answer = Admitted | BadRequest | TooManyRequests | Accepted | Unavailable

  /** `admissions` lists the times at which a request passed the cooldown check. */
  datatype RescanSide = RescanSide(now: nat, last: Option<nat>, admissions: seq<nat>, answers: map<nat, Answer>)

  datatype RescanAction = Tick(ms: nat) | Post(header: bool) | Send

  const FIRST_RESCAN := RescanSide(0, None, [], map[])

  predicate CanRescan(r: RescanSide, id: nat, a: RescanAction) {
    match a
    case Tick(_) => true
    case Post(_) => id !in r.answers
    case Send => id in r.answers && r.answers[id].Admitted?
  }

  function StepRescan(r: RescanSide, stopped: bool, id: nat, a: RescanAction): RescanSide
    requires CanRescan(r, id, a)
  {
    match a
    case Tick(ms) => r.(now := r.now + ms)
    case Post(header) =>
      if !header then r.(answers := r.answers[id := BadRequest])
      else if r.last.Some? && r.now - r.last.value < RESCAN_COOLDOWN_MS
           then r.(answers := r.answers[id := TooManyRequests])
      else RescanSide(r.now, Some(r.now), r.admissions + [r.now], r.answers[id := Admitted])
    case Send => r.(answers := r.answers[id := if stopped then Unavailable else Accepted])
  }

  // ---------- The whole daemon ----------

  datatype State = State(scanner: Scanner, graph: GraphSide, feed: FeedSide, rescan: RescanSide)

  datatype Action = OnScan(scan: ScanAction) | OnGraph(id: nat, graph: GraphAction)
                  | OnFeed(id: nat, feed: FeedAction) | OnRescan(id: nat, rescan: RescanAction)

  const FIRST := State(FIRST_SCANNER, FIRST_GRAPH, FIRST_FEED, FIRST_RESCAN)

  /** Requests are served only once the listener is up, which is after the initial scan was queued. */
  predicate Can(w: World, s: State, a: Action) {
    match a
    case OnScan(scan) => CanScan(w, s.scanner, scan)
    case OnGraph(id, graph) => s.scanner.startup.Serving? && CanGraph(s.graph, id, graph)
    case OnFeed(id, feed) => s.scanner.startup.Serving? && CanFeed(s.feed, s.scanner.log, s.scanner.shutdown, id, feed)
    case OnRescan(id, rescan) => s.scanner.startup.Serving? && CanRescan(s.rescan, id, rescan)
  }

  function Step(w: World, s: State, a: Action): State
    requires Can(w, s, a)
  {
    match a
    case OnScan(scan) => s.(scanner := StepScan(w, s.scanner, scan))
    case OnGraph(id, graph) => s.(graph := StepGraph(w, s.graph, s.scanner.snap, id, graph))
    case OnFeed(id, feed) => s.(feed := StepFeed(s.feed, s.scanner.log, s.scanner.shutdown, id, feed))
    case OnRescan(id, rescan) =>
      s.(rescan := StepRescan(s.rescan, s.scanner.pc.Stopped?, id, rescan),
         scanner := if rescan.Send? then Demand(s.scanner, s.scanner.disk) else s.scanner)
  }

  predicate CanRun(w: World, s: State, actions: seq<Action>)
    decreases |actions|
  {
    actions == [] || (Can(w, s, actions[0]) && CanRun(w, Step(w, s, actions[0]), actions[1..]))
  }

  /** The state after a run, in any interleaving of the tasks. */
  function After(w: World, s: State, actions: seq<Action>): State
    requires CanRun(w, s, actions)
    decreases |actions|
  {
    if actions == [] then s else After(w, Step(w, s, actions[0]), actions[1..])
  }
}
