/** What every request of a run is answered, told from the moment it was made (src/daemon.rs). */
module DaemonAnswers {
  import opened Orders
  import opened Daemon
  import opened DaemonScan
  import opened DaemonRequests
  import opened DaemonRuns
  import opened DaemonCases

  /** The state in which the k-th step of the run is made. */
  ghost function Before(w: World, actions: seq<Action>, k: nat): State
    requires CanRun(w, FIRST, actions) && k <= |actions|
  {
    PrefixRuns(w, actions, k);
    After(w, FIRST, actions[..k])
  }

  lemma PrefixRuns(w: World, actions: seq<Action>, k: nat)
    requires CanRun(w, FIRST, actions) && k <= |actions|
    ensures CanRun(w, FIRST, actions[..k]) && CanRun(w, After(w, FIRST, actions[..k]), actions[k..])
    ensures After(w, FIRST, actions) == After(w, After(w, FIRST, actions[..k]), actions[k..])
  {
    assert actions == actions[..k] + actions[k..];
    RunAppend(w, FIRST, actions[..k], actions[k..]);
  }

  lemma MadeAt(w: World, actions: seq<Action>, k: nat) returns (rest: seq<Action>)
    requires CanRun(w, FIRST, actions) && k < |actions|
    ensures rest == actions[k + 1..]
    ensures Can(w, Before(w, actions, k), actions[k]) && CanRun(w, Step(w, Before(w, actions, k), actions[k]), rest)
    ensures Before(w, actions, k + 1) == Step(w, Before(w, actions, k), actions[k])
    ensures After(w, FIRST, actions) == After(w, Before(w, actions, k + 1), rest)
  {
    hide Can, Step;
    rest := actions[k + 1..];
    PrefixRuns(w, actions, k);
    PrefixRuns(w, actions, k + 1);
    assert actions[..k + 1] == actions[..k] + [actions[k]];
    RunOneMore(w, FIRST, actions[..k], actions[k]);
  }

  // ---------- Rescan requests ----------

  /** The k-th step is a rescan request that passes the cooldown check. */
  ghost predicate AdmitsAt(w: World, actions: seq<Action>, k: nat)
    requires CanRun(w, FIRST, actions) && k < |actions|
  {
    && actions[k].OnRescan? && actions[k].rescan.Post?
    && actions[k].id in Before(w, actions, k + 1).rescan.answers
    && Before(w, actions, k + 1).rescan.answers[actions[k].id].Admitted?
  }

  /** When a request was last admitted in the first k steps of the run, if one was. */
  ghost predicate LastAdmitted(w: World, actions: seq<Action>, k: nat, last: Option<nat>)
    requires CanRun(w, FIRST, actions) && k <= |actions|
  {
    match last
    case None => forall j :: 0 <= j < k ==> !AdmitsAt(w, actions, j)
    case Some(time) =>
      exists i :: 0 <= i < k && AdmitsAt(w, actions, i) && time == Before(w, actions, i).rescan.now
                  && forall j :: i < j < k ==> !AdmitsAt(w, actions, j)
  }

  lemma OnlyAdmissionsCount(w: World, s: State, a: Action)
    requires Can(w, s, a)
    ensures var r, t := s.rescan, Step(w, s, a).rescan;
            if a.OnRescan? && a.rescan.Post? && a.id in t.answers && t.answers[a.id].Admitted?
            then t.last == Some(r.now) else t.last == r.last
  {
  }

  lemma {:induction false} LastIsLatest(w: World, actions: seq<Action>, k: nat)
    requires CanRun(w, FIRST, actions) && k <= |actions|
    ensures LastAdmitted(w, actions, k, Before(w, actions, k).rescan.last)
  {
    hide Step, Can, AdmitsAt, Before;
    if k == 0 {
      assert Before(w, actions, 0) == FIRST by { StartsFirst(w, actions); }
    } else {
      LastIsLatest(w, actions, k - 1);
      var rest := MadeAt(w, actions, k - 1);
      OnlyAdmissionsCount(w, Before(w, actions, k - 1), actions[k - 1]);
      AdmissionShows(w, actions, k - 1);
      if AdmitsAt(w, actions, k - 1) {
        assert Before(w, actions, k).rescan.last == Some(Before(w, actions, k - 1).rescan.now);
      } else {
        StillLatest(w, actions, k - 1, Before(w, actions, k - 1).rescan.last);
      }
    }
  }

  lemma StillLatest(w: World, actions: seq<Action>, k: nat, last: Option<nat>)
    requires CanRun(w, FIRST, actions) && k < |actions| && LastAdmitted(w, actions, k, last)
    requires !AdmitsAt(w, actions, k)
    ensures LastAdmitted(w, actions, k + 1, last)
  {
    hide AdmitsAt, Before;
    if last.Some? {
      var i :| 0 <= i < k && AdmitsAt(w, actions, i) && last.value == Before(w, actions, i).rescan.now
               && forall j :: i < j < k ==> !AdmitsAt(w, actions, j);
      assert forall j :: i < j < k + 1 ==> !AdmitsAt(w, actions, j);
    }
  }

  lemma StartsFirst(w: World, actions: seq<Action>)
    requires CanRun(w, FIRST, actions)
    ensures Before(w, actions, 0) == FIRST
  {
  }

  lemma AdmissionShows(w: World, actions: seq<Action>, k: nat)
    requires CanRun(w, FIRST, actions) && k < |actions|
    ensures var t := Before(w, actions, k + 1).rescan;
            AdmitsAt(w, actions, k)
            <==> actions[k].OnRescan? && actions[k].rescan.Post? && actions[k].id in t.answers
                 && t.answers[actions[k].id].Admitted?
  {
  }

  lemma {:induction false} AnswerLasts(w: World, s: State, actions: seq<Action>, id: nat)
    requires CanRun(w, s, actions) && id in s.rescan.answers
    ensures id in After(w, s, actions).rescan.answers
    ensures var b, t := s.rescan.answers[id], After(w, s, actions).rescan.answers[id];
            (t.BadRequest? <==> b.BadRequest?) && (t.TooManyRequests? <==> b.TooManyRequests?)
    decreases |actions|
  {
    if actions != [] {
      AnswerLasts(w, Step(w, s, actions[0]), actions[1..], id);
    }
  }

  /** One request at the cooldown check, by its header, the clock and the last admission alone. */
  lemma PostedAnswer(r: RescanSide, stopped: bool, id: nat, header: bool)
    requires Spaced(r) && CanRescan(r, id, Post(header))
    ensures var t := StepRescan(r, stopped, id, Post(header));
            && id in t.answers
            && (t.answers[id].BadRequest? <==> !header)
            && (t.answers[id].TooManyRequests? <==> header && r.last.Some? && r.now < r.last.value + RESCAN_COOLDOWN_MS)
            && (t.answers[id].Admitted? <==> header && (r.last.Some? ==> r.last.value + RESCAN_COOLDOWN_MS <= r.now))
            && (t.answers[id].Admitted? ==> t.last == Some(r.now))
            && (!t.answers[id].Admitted? ==> t == r.(answers := t.answers))
            && t.answers.Keys == r.answers.Keys + {id} && t.answers - {id} == r.answers
  {
  }

  /**
   * In every run a rescan request is bad exactly if it lacks the header, and refused exactly if it has it and the
   * cooldown since the last admission is not over. Refused it changes nothing but its own answer; otherwise it is
   * admitted, and no later step takes the verdict back.
   */
  lemma EveryRescanIsJudged(w: World, actions: seq<Action>, k: nat, id: nat, header: bool) returns (last: Option<nat>)
    requires CanRun(w, FIRST, actions) && k < |actions| && actions[k] == OnRescan(id, Post(header))
    ensures LastAdmitted(w, actions, k, last) && id in After(w, FIRST, actions).rescan.answers
    ensures var answer, now := After(w, FIRST, actions).rescan.answers[id], Before(w, actions, k).rescan.now;
            && (answer.BadRequest? <==> !header)
            && (answer.TooManyRequests? <==> header && last.Some? && now < last.value + RESCAN_COOLDOWN_MS)
    ensures AdmitsAt(w, actions, k)
            <==> header && (last.Some? ==> last.value + RESCAN_COOLDOWN_MS <= Before(w, actions, k).rescan.now)
    ensures !AdmitsAt(w, actions, k) ==>
              var before, after := Before(w, actions, k), Before(w, actions, k + 1);
              && after.scanner == before.scanner && after.graph == before.graph && after.feed == before.feed
              && after.rescan == before.rescan.(answers := after.rescan.answers)
              && after.rescan.answers - {id} == before.rescan.answers
  {
    hide LastAdmitted, AdmitsAt, Before, Invariant, CanRun, StepRescan;
    var s := RunBefore(w, actions, k);
    last := s.rescan.last;
    LastIsLatest(w, actions, k);
    var rest := MadeAt(w, actions, k);
    SpacedIn(w, s);
    PostedAnswer(s.rescan, s.scanner.pc.Stopped?, id, header);
    AdmissionShows(w, actions, k);
    AnswerLasts(w, Before(w, actions, k + 1), rest, id);
  }

  lemma RunBefore(w: World, actions: seq<Action>, k: nat) returns (s: State)
    requires CanRun(w, FIRST, actions) && k <= |actions|
    ensures s == Before(w, actions, k) && Invariant(w, s)
  {
    PrefixRuns(w, actions, k);
    s := RunFromStart(w, actions[..k]);
  }

  lemma SpacedIn(w: World, s: State)
    requires Invariant(w, s)
    ensures Spaced(s.rescan)
  {
  }

  // ---------- Event streams ----------

  lemma {:induction false} ClientLasts(w: World, s: State, actions: seq<Action>, id: nat)
    requires CanRun(w, s, actions) && id in s.feed.clients
    ensures id in After(w, s, actions).feed.clients
    ensures var b, t := s.feed.clients[id], After(w, s, actions).feed.clients[id];
            (t.Refused? <==> b.Refused?) && (!b.Refused? ==> t.from == b.from)
    decreases |actions|
  {
    if actions != [] {
      ClientLasts(w, Step(w, s, actions[0]), actions[1..], id);
    }
  }

  lemma Subscribed(log: seq<Event>, f: FeedSide, shutdown: bool, id: nat)
    requires FeedSound(log, f) && CanFeed(f, log, shutdown, id, Subscribe)
    ensures var c := StepFeed(f, log, shutdown, id, Subscribe).clients[id];
            && (c.Refused? <==> |OpenClients(f.clients)| == MAX_SSE_CLIENTS)
            && (!c.Refused? ==> c == Streaming(|log|, []))
  {
  }

  /**
   * In every run a subscriber is refused exactly if as many streams as there are slots are open when it comes.
   * Otherwise its stream begins with the next event logged.
   */
  lemma EverySubscriberIsServed(w: World, actions: seq<Action>, k: nat, id: nat)
    requires CanRun(w, FIRST, actions) && k < |actions| && actions[k] == OnFeed(id, Subscribe)
    ensures id in After(w, FIRST, actions).feed.clients
    ensures var c, before := After(w, FIRST, actions).feed.clients[id], Before(w, actions, k);
            && (c.Refused? <==> |OpenClients(before.feed.clients)| == MAX_SSE_CLIENTS)
            && (!c.Refused? ==> c.from == |before.scanner.log|)
  {
    hide Before, Invariant, CanRun, StepFeed, OpenClients;
    var s := RunBefore(w, actions, k);
    var rest := MadeAt(w, actions, k);
    FeedIn(w, s);
    Subscribed(s.scanner.log, s.feed, s.scanner.shutdown, id);
    Registered(s.feed, s.scanner.log, s.scanner.shutdown, id);
    ClientLasts(w, Before(w, actions, k + 1), rest, id);
  }

  lemma Registered(f: FeedSide, log: seq<Event>, shutdown: bool, id: nat)
    requires CanFeed(f, log, shutdown, id, Subscribe)
    ensures id in StepFeed(f, log, shutdown, id, Subscribe).clients
  {
  }

  lemma FeedIn(w: World, s: State)
    requires Invariant(w, s)
    ensures FeedSound(s.scanner.log, s.feed)
  {
  }

  // ---------- Graph requests ----------

  function RevisionOf(stage: Stage): Option<nat> {
    match stage
    case Waiting(revision, _) => Some(revision)
    case Building(revision, _) => Some(revision)
    case Replied(GraphReply(revision, _)) => Some(revision)
    case Replied(_) => None
  }

  /** What becomes of a request: the verdict that it is refused is final, and its revision never changes. */
  predicate Continues(b: Stage, t: Stage) {
    && (t == Replied(Conflict) <==> b == Replied(Conflict))
    && (t == Replied(NoReport) <==> b == Replied(NoReport))
    && (RevisionOf(t).Some? ==> RevisionOf(t) == RevisionOf(b))
  }

  /** The request of this id is not made again. */
  ghost predicate NeverAsked(actions: seq<Action>, id: nat) {
    forall a :: a in actions ==> !(a.OnGraph? && a.id == id && a.graph.Ask?)
  }

  lemma ContinuesStep(w: World, s: State, a: Action, id: nat)
    requires Can(w, s, a) && !(a.OnGraph? && a.id == id && a.graph.Ask?)
    ensures id in Step(w, s, a).graph.requests ==>
              id in s.graph.requests && Continues(s.graph.requests[id].stage, Step(w, s, a).graph.requests[id].stage)
  {
  }

  lemma {:induction false} RequestContinues(w: World, s: State, actions: seq<Action>, id: nat)
    requires CanRun(w, s, actions) && NeverAsked(actions, id)
    ensures var t := After(w, s, actions).graph.requests;
            id in t ==> id in s.graph.requests && Continues(s.graph.requests[id].stage, t[id].stage)
    decreases |actions|
  {
    hide Step, Can, Continues;
    if actions == [] {
      ContinuesItself(s.graph.requests, id);
    } else {
      assert actions[0] in actions && forall a :: a in actions[1..] ==> a in actions;
      var t := After(w, s, actions).graph.requests;
      ContinuesStep(w, s, actions[0], id);
      RequestContinues(w, Step(w, s, actions[0]), actions[1..], id);
      if id in t {
        ContinuesOn(s.graph.requests[id].stage, Step(w, s, actions[0]).graph.requests[id].stage, t[id].stage);
      }
    }
  }

  lemma ContinuesItself(requests: map<nat, Request>, id: nat)
    ensures id in requests ==> Continues(requests[id].stage, requests[id].stage)
  {
  }

  lemma ContinuesOn(a: Stage, b: Stage, c: Stage)
    requires Continues(a, b) && Continues(b, c)
    ensures Continues(a, c)
  {
  }

  /** What a request reads: refused for another revision, or without any report, or to be answered for this one. */
  lemma Read(w: World, s: State, id: nat, asked: Option<nat>)
    requires Invariant(w, s) && Can(w, s, OnGraph(id, Ask(asked)))
    ensures id in Step(w, s, OnGraph(id, Ask(asked))).graph.requests
    ensures var stage, current :=
                Step(w, s, OnGraph(id, Ask(asked))).graph.requests[id].stage, |s.scanner.published|;
            && (stage == Replied(Conflict) <==> asked.Some? && asked.value != current)
            && (stage == Replied(NoReport) <==> (asked.Some? ==> asked.value == current) && current == 0)
            && (stage.Waiting? <==> (asked.Some? ==> asked.value == current) && current > 0)
            && (stage.Waiting? ==> stage.revision == current && stage.inputs == s.scanner.published[current - 1])
  {
    SnapshotIsPublished(w, s.scanner);
  }

  /**
   * In every run, an answered graph request is a conflict exactly if it asked for another revision than was published
   * when it was read, has no report exactly if there was none, and a graph it got is that of this revision,
   * however late it came.
   */
  lemma EveryRequestIsOfItsTime(w: World, actions: seq<Action>, k: nat, id: nat, asked: Option<nat>)
    requires CanRun(w, FIRST, actions) && k < |actions| && actions[k] == OnGraph(id, Ask(asked))
    requires NeverAsked(actions[k + 1..], id) && id in After(w, FIRST, actions).graph.requests
    ensures var stage, published :=
                After(w, FIRST, actions).graph.requests[id].stage, Before(w, actions, k).scanner.published;
            && (stage == Replied(Conflict) <==> asked.Some? && asked.value != |published|)
            && (stage == Replied(NoReport) <==> (asked.Some? ==> asked.value == |published|) && published == [])
            && (stage.Replied? && stage.reply.GraphReply? ==>
                  && stage.reply.revision == |published| > 0
                  && stage.reply.graph == w.build(published[|published| - 1]))
  {
    hide Before, Invariant, CanRun, Step, NeverAsked;
    var s := RunBefore(w, actions, k);
    var rest := MadeAt(w, actions, k);
    Read(w, s, id, asked);
    RequestContinues(w, Before(w, actions, k + 1), rest, id);
    EveryReplyIsOfItsRevision(w, actions, id);
    PrefixRuns(w, actions, k);
    RunKeeps(w, s, actions[k..]);
  }

  // ---------- Demands ----------

  /** The version of the tree a step speaks of when it sends a token. */
  function Demanded(s: Scanner, a: Action): Option<nat> {
    if s.pc.Stopped? then None
    else match a
      case OnScan(Hear(version)) => Some(version)
      case OnScan(QueueInitial) => if s.queued then None else Some(s.disk)
      case OnRescan(_, Send) => Some(s.disk)
      case _ => None
  }

  /**
   * Every token sent is in the slot afterwards, is counted, and moves what was heard up to the version it speaks of;
   * no other step counts. A scan covers what was demanded and sees the tree as it is when it is announced.
   */
  lemma DemandsAreCounted(w: World, s: State, a: Action)
    requires Can(w, s, a)
    ensures var b, t, version := s.scanner, Step(w, s, a).scanner, Demanded(s.scanner, a);
            && t.disk == b.disk + (if a == OnScan(Touch) then 1 else 0)
            && (version.None? ==> t.demands == b.demands && t.heard == b.heard)
            && (version.Some? ==>
                  t.queued && t.demands == b.demands + 1 && t.heard >= version.value && t.heard >= b.heard
                  && (t.heard == version.value || t.heard == b.heard))
            && (if a == OnScan(Announce) then t.covered == b.demands && t.scannedDisk == b.disk
                else t.covered == b.covered && t.scannedDisk == b.scannedDisk)
  {
    hide StepGraph, StepFeed, StepRescan, CanGraph, CanFeed, CanRescan;
  }

  lemma {:induction false} HeardGrows(w: World, s: State, actions: seq<Action>)
    requires CanRun(w, s, actions)
    ensures s.scanner.heard <= After(w, s, actions).scanner.heard
    ensures s.scanner.demands <= After(w, s, actions).scanner.demands
    decreases |actions|
  {
    hide Step, Can;
    if actions != [] {
      DemandsAreCounted(w, s, actions[0]);
      HeardGrows(w, Step(w, s, actions[0]), actions[1..]);
    }
  }

  /**
   * In every run what was heard is as new as any version a token spoke of. So if the latest scan began after every
   * demand, it began on a tree that new.
   */
  lemma EveryDemandIsHeard(w: World, actions: seq<Action>, k: nat)
    requires CanRun(w, FIRST, actions) && k < |actions| && Demanded(Before(w, actions, k).scanner, actions[k]).Some?
    ensures var t := After(w, FIRST, actions).scanner;
            var version := Demanded(Before(w, actions, k).scanner, actions[k]).value;
            version <= t.heard && (t.covered == t.demands ==> version <= t.scannedDisk)
  {
    hide Before, Step, Can, Demanded;
    var rest := MadeAt(w, actions, k);
    DemandsAreCounted(w, Before(w, actions, k), actions[k]);
    HeardGrows(w, Before(w, actions, k + 1), rest);
    NoChangeIsLost(w, actions);
  }

  // ---------- What can happen ----------

  /**
   * Once the daemon serves, a new request of any kind can be made at any time; a waiting graph request can take the
   * lock exactly while nobody has it, and whoever builds can finish; an open stream can be polled exactly when an event
   * is unread or shutdown has begun, and left at any time; the clock always goes on.
   */
  lemma AlwaysPossible(w: World, s: State, id: nat, asked: Option<nat>, flag: bool, ms: nat)
    requires s.scanner.startup.Serving?
    ensures id !in s.graph.requests <==> Can(w, s, OnGraph(id, Ask(asked)))
    ensures id !in s.feed.clients <==> Can(w, s, OnFeed(id, Subscribe))
    ensures id !in s.rescan.answers <==> Can(w, s, OnRescan(id, Post(flag)))
    ensures id in s.graph.requests ==>
              && (Can(w, s, OnGraph(id, Lock)) <==> s.graph.requests[id].stage.Waiting? && s.graph.holder.None?)
              && (Can(w, s, OnGraph(id, Built(flag))) <==> s.graph.requests[id].stage.Building?)
              && (Can(w, s, OnGraph(id, Abandon)) <==> !s.graph.requests[id].stage.Replied?)
    ensures id in s.feed.clients && s.feed.clients[id].Streaming? ==>
              && (Can(w, s, OnFeed(id, Poll))
                  <==> s.scanner.shutdown
                       || s.feed.clients[id].from + |s.feed.clients[id].received| < |s.scanner.log|)
              && Can(w, s, OnFeed(id, Leave))
    ensures Can(w, s, OnRescan(id, Tick(ms)))
    ensures id in s.rescan.answers && s.rescan.answers[id].Admitted? ==> Can(w, s, OnRescan(id, Send))
    ensures Can(w, s, OnScan(Touch)) && Can(w, s, OnScan(Hear(s.scanner.disk))) && Can(w, s, OnScan(Shutdown))
  {
  }
}
