/** Startup against early changes, and the graph cache against late requests, decided for every run (src/daemon.rs). */
module DaemonCases {
  import opened Orders
  import opened Daemon
  import opened DaemonScan
  import opened DaemonRequests
  import opened DaemonRuns

  lemma {:induction false} RunAppend(w: World, s: State, a: seq<Action>, b: seq<Action>)
    ensures CanRun(w, s, a + b) <==> CanRun(w, s, a) && CanRun(w, After(w, s, a), b)
    ensures CanRun(w, s, a + b) ==> After(w, s, a + b) == After(w, After(w, s, a), b)
    decreases |a|
  {
    if a == [] {
      assert a + b == b;
    } else {
      assert (a + b)[0] == a[0] && (a + b)[1..] == a[1..] + b;
      if Can(w, s, a[0]) {
        RunAppend(w, Step(w, s, a[0]), a[1..], b);
      }
    }
  }

  lemma RunOneMore(w: World, s: State, actions: seq<Action>, a: Action)
    ensures CanRun(w, s, actions + [a]) <==> CanRun(w, s, actions) && Can(w, After(w, s, actions), a)
    ensures CanRun(w, s, actions + [a]) ==> After(w, s, actions + [a]) == Step(w, After(w, s, actions), a)
  {
    RunAppend(w, s, actions, [a]);
    if CanRun(w, s, actions) {
      var t := After(w, s, actions);
      assert [a][1..] == [];
      if Can(w, t, a) {
        assert CanRun(w, Step(w, t, a), []);
      }
    }
  }

  // ---------- Startup ----------

  predicate Takes(a: Action) {
    a == OnScan(Receive) || a == OnScan(Drain)
  }

  predicate Hears(a: Action) {
    a.OnScan? && a.scan.Hear?
  }

  /** Of the first k steps some heard a change, and the scan task took no token since. */
  ghost predicate TokenWaits(actions: seq<Action>, k: nat)
    requires k <= |actions|
  {
    exists i :: 0 <= i < k && Hears(actions[i]) && forall j :: i < j < k ==> !Takes(actions[j])
  }

  lemma TokenWaitsStep(actions: seq<Action>, a: Action)
    ensures var all := actions + [a];
            TokenWaits(all, |all|) <==> Hears(a) || (!Takes(a) && TokenWaits(actions, |actions|))
  {
    var all := actions + [a];
    var n := |actions|;
    assert all[n] == a && forall i :: 0 <= i < n ==> all[i] == actions[i];
    if Hears(a) {
      assert Hears(all[n]);
    }
    if TokenWaits(actions, n) && !Takes(a) {
      var i :| 0 <= i < n && Hears(actions[i]) && forall j :: i < j < n ==> !Takes(actions[j]);
      assert Hears(all[i]) && forall j :: i < j < |all| ==> !Takes(all[j]);
    }
    if TokenWaits(all, |all|) {
      var i :| 0 <= i < |all| && Hears(all[i]) && forall j :: i < j < |all| ==> !Takes(all[j]);
      if i < n {
        assert !Takes(all[n]) && Hears(actions[i]) && forall j :: i < j < n ==> !Takes(actions[j]);
      }
    }
  }

  lemma NoToken()
    ensures !TokenWaits([], 0)
  {
  }

  lemma PendingStep(w: World, s: State, a: Action)
    requires Can(w, s, a) && a != OnScan(QueueInitial)
    requires s.scanner.startup.Pending? && !s.scanner.shutdown && !s.scanner.pc.Stopped?
    ensures var t := Step(w, s, a).scanner;
            && t.startup.Pending? && !t.shutdown && !t.pc.Stopped?
            && (t.queued <==> Hears(a) || (!Takes(a) && s.scanner.queued))
  {
  }

  /** Until the initial scan is queued, a token is in the slot exactly when a change was heard and not taken since. */
  lemma {:induction false} PendingSlot(w: World, actions: seq<Action>)
    requires CanRun(w, FIRST, actions) && OnScan(QueueInitial) !in actions
    ensures var s := After(w, FIRST, actions).scanner;
            && s.startup.Pending? && !s.shutdown && !s.pc.Stopped?
            && (s.queued <==> TokenWaits(actions, |actions|))
    decreases |actions|
  {
    hide Can, Step, Takes, Hears, TokenWaits;
    if actions == [] {
      NoToken();
    } else {
      var front, a := actions[..|actions| - 1], actions[|actions| - 1];
      assert actions == front + [a] && a in actions && forall x :: x in front ==> x in actions;
      RunOneMore(w, FIRST, front, a);
      PendingSlot(w, front);
      PendingStep(w, After(w, FIRST, front), a);
      TokenWaitsStep(front, a);
    }
  }

  lemma {:induction false} ServingStays(w: World, s: State, actions: seq<Action>)
    requires CanRun(w, s, actions) && s.scanner.startup.Serving?
    ensures After(w, s, actions).scanner.startup.Serving? && OnScan(QueueInitial) !in actions
    decreases |actions|
  {
    if actions != [] {
      assert Step(w, s, actions[0]).scanner.startup.Serving?;
      ServingStays(w, Step(w, s, actions[0]), actions[1..]);
      assert actions == [actions[0]] + actions[1..];
    }
  }

  lemma FailedEnds(w: World, s: State, actions: seq<Action>)
    requires CanRun(w, s, actions) && s.scanner.startup.StartupFailed?
    ensures actions == []
  {
  }

  /**
   * In every run startup fails if and only if a change was heard before the initial scan is queued
   * and the scan task, already running, has not taken its token by then.
   */
  lemma StartupFailsIffTokenWaits(w: World, actions: seq<Action>)
    requires CanRun(w, FIRST, actions)
    ensures After(w, FIRST, actions).scanner.startup.StartupFailed?
            <==> exists k :: 0 <= k < |actions| && actions[k] == OnScan(QueueInitial) && TokenWaits(actions, k)
  {
    if OnScan(QueueInitial) !in actions {
      PendingSlot(w, actions);
    } else {
      var k := FirstQueueing(actions);
      var before, rest := actions[..k], actions[k + 1..];
      assert actions == before + [actions[k]] + rest;
      RunAppend(w, FIRST, before + [actions[k]], rest);
      RunOneMore(w, FIRST, before, actions[k]);
      PendingSlot(w, before);
      SameWait(actions, k);
      var t := After(w, FIRST, before + [actions[k]]);
      if t.scanner.startup.StartupFailed? {
        FailedEnds(w, t, rest);
      } else {
        ServingStays(w, t, rest);
        QueuedOnce(actions, k);
      }
    }
  }

  lemma QueuedOnce(actions: seq<Action>, k: nat)
    requires k < |actions| && OnScan(QueueInitial) !in actions[..k] && OnScan(QueueInitial) !in actions[k + 1..]
    ensures forall j :: 0 <= j < |actions| && j != k ==> actions[j] != OnScan(QueueInitial)
  {
    forall j | 0 <= j < |actions| && j != k
      ensures actions[j] != OnScan(QueueInitial)
    {
      if j < k {
        assert actions[j] == actions[..k][j] && actions[..k][j] in actions[..k];
      } else {
        assert actions[j] == actions[k + 1..][j - k - 1] && actions[k + 1..][j - k - 1] in actions[k + 1..];
      }
    }
  }

  lemma SameWait(actions: seq<Action>, k: nat)
    requires k <= |actions|
    ensures TokenWaits(actions[..k], k) <==> TokenWaits(actions, k)
  {
    var before := actions[..k];
    assert forall i :: 0 <= i < k ==> before[i] == actions[i];
    if TokenWaits(actions, k) {
      var i :| 0 <= i < k && Hears(actions[i]) && forall j :: i < j < k ==> !Takes(actions[j]);
      assert Hears(before[i]) && forall j :: i < j < k ==> !Takes(before[j]);
    }
    if TokenWaits(before, k) {
      var i :| 0 <= i < k && Hears(before[i]) && forall j :: i < j < k ==> !Takes(before[j]);
      assert Hears(actions[i]) && forall j :: i < j < k ==> !Takes(actions[j]);
    }
  }

  lemma {:induction false} FirstQueueing(actions: seq<Action>) returns (k: nat)
    requires OnScan(QueueInitial) in actions
    ensures k < |actions| && actions[k] == OnScan(QueueInitial) && OnScan(QueueInitial) !in actions[..k]
    decreases |actions|
  {
    if actions[0] == OnScan(QueueInitial) {
      k := 0;
    } else {
      assert actions == [actions[0]] + actions[1..];
      var j := FirstQueueing(actions[1..]);
      k := j + 1;
      assert actions[..k] == [actions[0]] + actions[1..][..j];
    }
  }

  /** Both happen: the change stays in the slot and startup fails, or the running scan task takes it in time. */
  lemma EarlyChangeEitherWay(w: World)
    ensures var late := [OnScan(Touch), OnScan(Hear(1)), OnScan(QueueInitial)];
            CanRun(w, FIRST, late) && After(w, FIRST, late).scanner.startup.StartupFailed?
    ensures var taken := [OnScan(Touch), OnScan(Hear(1)), OnScan(Receive), OnScan(QueueInitial)];
            CanRun(w, FIRST, taken) && After(w, FIRST, taken).scanner.startup.Serving?
  {
    var heard := [OnScan(Touch)] + [OnScan(Hear(1))];
    assert CanRun(w, FIRST, []) && After(w, FIRST, []) == FIRST && [] + [OnScan(Touch)] == [OnScan(Touch)];
    RunOneMore(w, FIRST, [], OnScan(Touch));
    RunOneMore(w, FIRST, [OnScan(Touch)], OnScan(Hear(1)));
    RunOneMore(w, FIRST, heard, OnScan(QueueInitial));
    RunOneMore(w, FIRST, heard, OnScan(Receive));
    RunOneMore(w, FIRST, heard + [OnScan(Receive)], OnScan(QueueInitial));
    assert heard + [OnScan(QueueInitial)] == [OnScan(Touch), OnScan(Hear(1)), OnScan(QueueInitial)];
    assert heard + [OnScan(Receive)] + [OnScan(QueueInitial)]
        == [OnScan(Touch), OnScan(Hear(1)), OnScan(Receive), OnScan(QueueInitial)];
  }

  // ---------- The graph cache ----------

  /**
   * The cached revision falls in a step if and only if that step stores the graph of a request for an older revision.
   */
  lemma EntryFallsIffOlderStored(w: World, s: State, a: Action)
    requires Can(w, s, a) && s.graph.entry.Some?
    ensures var t := Step(w, s, a);
            && t.graph.entry.Some?
            && (t.graph.entry.value.revision < s.graph.entry.value.revision
                <==> && a.OnGraph? && a.graph == Built(true)
                     && s.graph.requests[a.id].stage.revision < s.graph.entry.value.revision)
  {
  }

  /**
   * Asks, waits, and holds what a run may bring about at the graph cache: the hypotheses of the overwriting are met.
   */
  predicate SlowAndNext(s: State, slow: nat, next: nat) {
    && s.graph.holder.None? && s.graph.entry.Some?
    && slow in s.graph.requests && next in s.graph.requests && slow != next
    && s.graph.requests[slow].stage.Waiting? && s.graph.requests[next].stage.Waiting?
    && s.graph.requests[slow].stage.revision < s.graph.entry.value.revision == s.graph.requests[next].stage.revision
  }

  /** A second revision is published while a request for the first still waits. */
  lemma PublishAgain(w: World, actions: seq<Action>) returns (more: seq<Action>)
    requires CanRun(w, FIRST, actions)
    requires var s := After(w, FIRST, actions).scanner;
             s.startup.Serving? && s.pc.Idle? && !s.queued && s.heard == s.disk
    ensures CanRun(w, FIRST, more)
    ensures var s, t := After(w, FIRST, actions), After(w, FIRST, more);
            && t.graph == s.graph && t.scanner.startup.Serving? && t.scanner.pc.Idle? && !t.scanner.queued
            && |t.scanner.published| == |s.scanner.published| + 1
  {
    more := Extend(w, actions, OnScan(Hear(After(w, FIRST, actions).scanner.disk)));
    more := Extend(w, more, OnScan(Receive));
    if w.debounce {
      more := Extend(w, more, OnScan(Wake));
    }
    more := Extend(w, more, OnScan(Drain));
    var s := After(w, FIRST, more);
    var scan := ScanCanComplete(w, s);
    RunAppend(w, FIRST, more, scan);
    more := more + scan;
  }

  lemma Extend(w: World, actions: seq<Action>, a: Action) returns (more: seq<Action>)
    requires CanRun(w, FIRST, actions) && Can(w, After(w, FIRST, actions), a)
    ensures more == actions + [a] && CanRun(w, FIRST, more)
            && After(w, FIRST, more) == Step(w, After(w, FIRST, actions), a)
  {
    RunOneMore(w, FIRST, actions, a);
    more := actions + [a];
  }

  /** A request for the current revision joins the ones waiting for the cache. */
  lemma AskNow(w: World, actions: seq<Action>, id: nat) returns (more: seq<Action>)
    requires CanRun(w, FIRST, actions)
    requires var s := After(w, FIRST, actions);
             s.scanner.startup.Serving? && |s.scanner.published| > 0 && id !in s.graph.requests
    ensures CanRun(w, FIRST, more)
    ensures var s, t := After(w, FIRST, actions), After(w, FIRST, more);
            && t.scanner == s.scanner && t.graph.entry == s.graph.entry && t.graph.holder == s.graph.holder
            && t.graph.requests.Keys == s.graph.requests.Keys + {id}
            && t.graph.requests[id].stage.Waiting? && t.graph.requests[id].stage.revision == |s.scanner.published|
            && forall other :: other in s.graph.requests ==> t.graph.requests[other] == s.graph.requests[other]
  {
    var s := RunFromStart(w, actions);
    AskedWaits(w, s);
    more := Extend(w, actions, OnGraph(id, Ask(Some(|s.scanner.published|))));
  }

  /**
   * Such a run: ask at revision 1, publish 2, ask and build at 2, ask again at 2 while the first request still waits.
   */
  lemma OverwriteIsReached(w: World) returns (actions: seq<Action>)
    ensures CanRun(w, FIRST, actions) && Invariant(w, After(w, FIRST, actions))
    ensures SlowAndNext(After(w, FIRST, actions), 0, 2)
  {
    hide Invariant;
    actions := FirstScanCompletes(w);
    actions := AskNow(w, actions, 0);
    actions := PublishAgain(w, actions);
    actions := AskNow(w, actions, 1);
    actions := BuildNow(w, actions, 1);
    actions := AskNow(w, actions, 2);
    var reached := RunFromStart(w, actions);
  }

  /** A waiting request that finds no entry of its revision builds and stores one. */
  lemma BuildNow(w: World, actions: seq<Action>, id: nat) returns (more: seq<Action>)
    requires CanRun(w, FIRST, actions)
    requires var s := After(w, FIRST, actions);
             && s.scanner.startup.Serving? && id in s.graph.requests && s.graph.requests[id].stage.Waiting?
             && s.graph.holder.None? && s.graph.entry.None?
    ensures CanRun(w, FIRST, more)
    ensures var s, t := After(w, FIRST, actions), After(w, FIRST, more);
            && t.scanner == s.scanner && t.graph.holder.None? && t.graph.requests.Keys == s.graph.requests.Keys
            && t.graph.entry.Some? && t.graph.entry.value.revision == s.graph.requests[id].stage.revision
            && forall other :: other in s.graph.requests && other != id ==>
                 t.graph.requests[other] == s.graph.requests[other]
  {
    more := Extend(w, actions, OnGraph(id, Lock));
    more := Extend(w, more, OnGraph(id, Built(true)));
  }

  lemma AskedWaits(w: World, s: State)
    requires Invariant(w, s) && |s.scanner.published| > 0
    ensures s.scanner.snap.revision == |s.scanner.published|
    ensures Asked(s.scanner.snap, Some(|s.scanner.published|))
            == Waiting(|s.scanner.published|, PublishedInputs(s.scanner.snap))
  {
  }
}
