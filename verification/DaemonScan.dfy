/** What every step of the scan task, the watcher and the trigger channel keeps (src/daemon.rs). */
module DaemonScan {
  import opened Orders
  import opened Daemon

  // ---------- No change is lost ----------

  /** Between receiving a token and the moment the scan begins to read. */
  predicate BeforeScan(pc: Pc) {
    pc.Debouncing? || pc.Draining? || pc.Locking? || pc.Announcing?
  }

  /** A demand newer than the latest scan start is still on its way to a scan. */
  predicate NothingLost(s: Scanner) {
    && s.covered <= s.demands && s.heard <= s.disk && s.scannedDisk <= s.disk
    && (s.covered == s.demands ==> s.heard <= s.scannedDisk)
    && (s.covered < s.demands && !s.pc.Stopped? ==> s.queued || BeforeScan(s.pc))
    && (s.startup.Serving? ==> s.demands > 0)
  }

  lemma NothingLostStep(w: World, s: Scanner, a: ScanAction)
    requires NothingLost(s) && CanScan(w, s, a)
    requires !s.startup.Serving? ==> !s.pc.Stopped?
    ensures NothingLost(StepScan(w, s, a))
  {
  }

  // ---------- The snapshot is the latest success ----------

  function PublishedInputs(snap: Snapshot): Inputs
    requires snap.report.Some?
  {
    Inputs(snap.report.value, snap.facts, snap.limits)
  }

  /** The revision counts the successes, and the snapshot shows the last of them, whole. */
  predicate ShowsLatest(s: Scanner) {
    && |s.published| == s.snap.revision
    && (s.snap.report.Some? <==> s.snap.revision > 0)
    && (s.snap.revision > 0 ==> PublishedInputs(s.snap) == s.published[s.snap.revision - 1])
  }

  lemma ShowsLatestStep(w: World, s: Scanner, a: ScanAction)
    requires ShowsLatest(s) && CanScan(w, s, a)
    ensures ShowsLatest(StepScan(w, s, a))
    ensures s.published <= StepScan(w, s, a).published
  {
  }

  // ---------- The event log ----------

  function RevisionBefore(log: seq<Event>, i: nat): nat
    requires i <= |log|
  {
    if i == 0 then 0 else log[i - 1].revision
  }

  /** Even positions start a scan at the current revision; odd ones end it, a success with the next revision. */
  predicate Fits(log: seq<Event>, i: nat)
    requires i < |log|
  {
    if i % 2 == 0 then log[i] == Event(Started, RevisionBefore(log, i))
    else log[i] == Event(Completed, RevisionBefore(log, i) + 1) || log[i] == Event(Failed, RevisionBefore(log, i))
  }

  ghost predicate Grammar(log: seq<Event>) {
    forall i :: 0 <= i < |log| ==> Fits(log, i)
  }

  lemma GrammarStep(log: seq<Event>, e: Event)
    requires Grammar(log) && Fits(log + [e], |log|)
    ensures Grammar(log + [e])
  {
    forall i | 0 <= i < |log + [e]| ensures Fits(log + [e], i) {
      if i < |log| {
        assert Fits(log, i);
      }
    }
  }

  /** The events say where the scan task is and what revision is published. */
  ghost predicate LogAgrees(s: Scanner) {
    && Grammar(s.log)
    && (|s.log| % 2 == 1 <==> s.pc.Reading? || s.pc.Finishing? || s.pc.Emitting?)
    && (if s.pc.Emitting? then Fits(s.log + [s.pc.event], |s.log|) && s.pc.event.revision == s.snap.revision
        else RevisionBefore(s.log, |s.log|) == s.snap.revision)
    && (s.pc.Announcing? ==> s.pc.revision == s.snap.revision)
  }

  lemma LogAgreesStep(w: World, s: Scanner, a: ScanAction)
    requires LogAgrees(s) && CanScan(w, s, a)
    ensures LogAgrees(StepScan(w, s, a))
    ensures s.log <= StepScan(w, s, a).log
  {
    match a
    case Announce => GrammarStep(s.log, Event(Started, s.pc.revision));
    case Emit => GrammarStep(s.log, s.pc.event);
    case _ =>
  }

  function CompletedIn(log: seq<Event>): nat {
    if log == [] then 0 else CompletedIn(log[..|log| - 1]) + if log[|log| - 1].kind.Completed? then 1 else 0
  }

  /** In a well-formed log the last revision is the number of completed scans. */
  lemma {:induction false} RevisionsCountCompletions(log: seq<Event>)
    requires Grammar(log)
    ensures RevisionBefore(log, |log|) == CompletedIn(log)
  {
    if log != [] {
      var shorter := log[..|log| - 1];
      forall i | 0 <= i < |shorter| ensures Fits(shorter, i) {
        assert Fits(log, i);
      }
      RevisionsCountCompletions(shorter);
      assert Fits(log, |log| - 1);
    }
  }

  // ---------- Status and freshness ----------

  predicate MidScan(pc: Pc) {
    pc.Announcing? || pc.Reading? || pc.Finishing?
  }

  /** The status follows the scan. */
  predicate StatusAgrees(s: Scanner) {
    && (s.snap.status.Scanning? <==> MidScan(s.pc))
    && (s.snap.status.Starting? ==> s.log == [] && s.covered == 0 && !s.pc.Emitting?)
    && (s.snap.status.Error? <==> s.snap.error.Some?)
    && (s.snap.status.Ready? ==> s.snap.report.Some?)
    && (s.pc.Stopped? ==> s.shutdown)
    && (s.shutdown ==> s.startup.Serving?)
  }

  lemma StatusAgreesStep(w: World, s: Scanner, a: ScanAction)
    requires StatusAgrees(s) && CanScan(w, s, a)
    ensures StatusAgrees(StepScan(w, s, a))
  {
  }

  /** A report read from a tree that has not changed since shows that tree. */
  predicate Faithful(w: World, s: Scanner) {
    && (s.snap.status.Scanning? <==> MidScan(s.pc))
    && s.scannedDisk <= s.disk
    && (s.snap.status.Ready? && s.disk == s.scannedDisk ==>
          s.snap.report.Some? && PublishedInputs(s.snap) == w.observe(s.disk))
    && (s.pc.Finishing? && s.pc.outcome.Scanned? && s.disk == s.scannedDisk ==>
          s.pc.outcome.inputs == w.observe(s.disk))
  }

  lemma FaithfulStep(w: World, s: Scanner, a: ScanAction)
    requires Faithful(w, s) && CanScan(w, s, a)
    ensures Faithful(w, StepScan(w, s, a))
  {
  }

  // ---------- All of it ----------

  ghost predicate ScanInvariant(w: World, s: Scanner) {
    NothingLost(s) && ShowsLatest(s) && LogAgrees(s) && StatusAgrees(s) && Faithful(w, s)
  }

  lemma FirstScanner(w: World)
    ensures ScanInvariant(w, FIRST_SCANNER)
  {
  }

  lemma ScanInvariantStep(w: World, s: Scanner, a: ScanAction)
    requires ScanInvariant(w, s) && CanScan(w, s, a)
    ensures ScanInvariant(w, StepScan(w, s, a))
    ensures s.published <= StepScan(w, s, a).published && s.log <= StepScan(w, s, a).log
  {
    hide StepScan, NothingLost, ShowsLatest, LogAgrees, Faithful;
    NothingLostStep(w, s, a);
    ShowsLatestStep(w, s, a);
    LogAgreesStep(w, s, a);
    StatusAgreesStep(w, s, a);
    FaithfulStep(w, s, a);
  }

  lemma DemandKeeps(w: World, s: Scanner, version: nat)
    requires ScanInvariant(w, s) && version <= s.disk
    ensures ScanInvariant(w, Demand(s, version))
    ensures Demand(s, version).published == s.published && Demand(s, version).log == s.log
    ensures Demand(s, version).snap == s.snap && Demand(s, version).shutdown == s.shutdown
  {
  }

  /** No event runs ahead of the snapshot: who reads the snapshot after an event sees at least that revision. */
  lemma {:induction false} EventsTrailTheSnapshot(w: World, s: Scanner, i: nat)
    requires ScanInvariant(w, s) && i < |s.log|
    ensures s.log[i].revision <= s.snap.revision
    decreases |s.log| - i
  {
    if i + 1 < |s.log| {
      EventsTrailTheSnapshot(w, s, i + 1);
      assert Fits(s.log, i + 1);
    } else if s.pc.Emitting? {
      assert Fits(s.log + [s.pc.event], |s.log|);
    }
  }

  /**
   * Once the loop rests with no token queued and every change was reported, the latest scan began
   * after the last change: either it failed, or the snapshot shows the tree as it is.
   */
  lemma RestingIsCurrent(w: World, s: Scanner)
    requires ScanInvariant(w, s) && s.startup.Serving?
    requires s.pc.Idle? && !s.queued && s.heard == s.disk
    ensures s.covered == s.demands && s.scannedDisk == s.disk
    ensures s.snap.status.Ready? || s.snap.status.Error?
    ensures s.snap.status.Ready? ==> s.snap.report.Some? && PublishedInputs(s.snap) == w.observe(s.disk)
  {
  }

  // ---------- Progress ----------

  predicate OfTheLoop(a: ScanAction) {
    a.Receive? || a.Wake? || a.Drain? || a.Begin? || a.Announce? || a.Observe? || a.Publish? || a.Emit? || a.Stop?
  }

  /** How many steps the scan task is from its next scan at most. */
  function Rank(s: Scanner): nat {
    (if s.queued then 1 else 0)
    + match s.pc
      case Announcing(_) => 1
      case Locking => 2
      case Draining => 3
      case Debouncing => 4
      case Idle => 5
      case Emitting(_) => 6
      case Finishing(_) => 7
      case Reading => 8
      case Stopped => 0
  }

  lemma RankFalls(w: World, s: Scanner, a: ScanAction)
    requires CanScan(w, s, a) && !a.Announce?
    ensures OfTheLoop(a) ==> Rank(StepScan(w, s, a)) < Rank(s) && StepScan(w, s, a).demands == s.demands
    ensures !OfTheLoop(a) ==> Rank(StepScan(w, s, a)) - Rank(s) <= StepScan(w, s, a).demands - s.demands
  {
  }

  /** With a demand outstanding the scan task never waits for another task. */
  lemma LoopCanMove(w: World, s: Scanner) returns (a: ScanAction)
    requires ScanInvariant(w, s) && s.covered < s.demands && !s.pc.Stopped? && !s.startup.StartupFailed?
    ensures OfTheLoop(a) && !a.Stop? && CanScan(w, s, a)
  {
    match s.pc
    case Idle => a := Receive;
    case Debouncing => a := Wake;
    case Draining => a := Drain;
    case Locking => a := Begin;
    case Announcing(_) => a := Announce;
    case Reading => a := Observe(ScanFailed(""));
    case Finishing(_) => a := Publish;
    case Emitting(_) => a := Emit;
  }
}
