/** How a watcher ends: what can never go wrong on the way, and that the workers do return. */
module Shutdown {
  import opened Machine
  import opened Invariants

  function Closes(acts: seq<Action>): nat {
    if acts == [] then 0 else (if acts[0].SeeDone? then 1 else 0) + Closes(acts[1..])
  }

  lemma {:induction false} ClosesOnce(c: Config, s: State, acts: seq<Action>)
    requires Lifecycle(c, s) && Run(c, s, acts)
    ensures Lifecycle(c, Exec(c, s, acts))
    ensures Closes(acts) + (if s.closed then 1 else 0) == (if Exec(c, s, acts).closed then 1 else 0)
    decreases |acts|
  {
    if acts != [] {
      LifecycleStep(c, s, acts[0]);
      ClosesOnce(c, Step(c, s, acts[0]), acts[1..]);
    }
  }

  /** Live counts the workers that have not returned. */
  lemma {:induction false} LiveCounts(ws: seq<Worker>)
    ensures Live(ws) == |set w | 0 <= w < |ws| && !ws[w].Exited?|
  {
    var all := set w | 0 <= w < |ws| && !ws[w].Exited?;
    if ws == [] {
      assert all == {};
    } else {
      var n := |ws| - 1;
      LiveCounts(ws[..n]);
      var before := set w | 0 <= w < |ws[..n]| && !ws[..n][w].Exited?;
      assert all == before + (if ws[n].Exited? then {} else {n});
    }
  }

  /** Over every run: nothing panics, so nothing is sent on or closes a closed channel and no wait
      group drops below zero; the channel is closed at most once, only after cancellation, and only
      by a poller that never offers again; the Stop path and the cancelled-poll path leave it open;
      and each wait group counts its live goroutines. */
  lemma ShutdownSafety(c: Config, acts: seq<Action>)
    requires WellFormed(c) && Run(c, Init(), acts)
    ensures var s := Exec(c, Init(), acts);
            && !s.panicked && |s.queue| <= c.queueSize
            && Closes(acts) <= 1 && (s.closed <==> Closes(acts) == 1)
            && (s.closed ==> s.ctxDone && (s.poller.Draining? || s.poller == Returned(ByDone)))
            && (s.poller.Returned? && s.poller.how != ByDone ==> !s.closed)
            && s.workerWg == |set w | 0 <= w < |s.workers| && !s.workers[w].Exited?|
            && s.watcherWg == (if s.poller.NotStarted? || s.poller.Returned? then 0 else 1)
  {
    ClosesOnce(c, Init(), acts);
    LiveCounts(Exec(c, Init(), acts).workers);
  }

  /** The select of a send never blocks, and takes its default exactly when neither other case is
      ready; a send that is ready finds room on an open channel. */
  lemma SelectIsTotal(c: Config, s: State)
    requires WellFormed(c) && Reachable(c, s) && Offering(s)
    ensures Enabled(c, s, Drop) <==> !Enabled(c, s, Send) && !Enabled(c, s, Abort)
    ensures Enabled(c, s, Drop) <==> |s.queue| == c.queueSize && !s.ctxDone
    ensures Enabled(c, s, Send) <==> |s.queue| < c.queueSize
    ensures Enabled(c, s, Abort) <==> s.ctxDone
  {
    ReachableInv(c, s);
  }

  /** Stop returns only when no poller is running. */
  lemma StopWaits(c: Config, s: State)
    requires WellFormed(c) && Reachable(c, s) && Enabled(c, s, StopReturns)
    ensures s.poller.NotStarted? || s.poller.Returned?
  {
    ReachableInv(c, s);
  }

  /** The poller aborted a send, waits for the workers, or has returned. */
  predicate Silent(s: State) { s.poller.Aborted? || s.poller.Draining? || s.poller.Returned? }

  /** Once it has aborted a send, closed the channel or returned, it offers nothing and moves no
      cursor in any continuation, so a cancelled window is never retried. */
  lemma {:induction false} SilentForGood(c: Config, s: State, acts: seq<Action>)
    requires Silent(s) && Run(c, s, acts)
    ensures var t := Exec(c, s, acts);
            Silent(t) && t.h.offered == s.h.offered && t.cursor == s.cursor && t.closed == s.closed
    decreases |acts|
  {
    if acts != [] {
      SilentForGood(c, Step(c, s, acts[0]), acts[1..]);
    }
  }

  // ---- Termination ----

  /** The steps a worker may still have to take. */
  function Effort(w: Worker): nat { match w case Ready => 1 case Busy(_) => 2 case Exited => 0 }

  /** The poller has left its loop: it waits for the workers, or has returned. */
  predicate Gone(s: State) { s.poller.Draining? || s.poller.Returned? }

  /** The work left once the poller is gone: two steps a queued job, one or two a worker, and the few
      steps of the poller, the context and Stop. */
  function Remaining(s: State): nat {
    2 * |s.queue| + Sum(Effort, s.workers)
    + (if s.poller.Draining? then 1 else 0) + (if s.ctxDone then 0 else 1)
    + (match s.quit case QuitOpen => 2 case QuitClosed => 1 case QuitNil => 0)
  }

  lemma RemainingDecreases(c: Config, s: State, a: Action)
    requires Gone(s) && Enabled(c, s, a)
    ensures Gone(Step(c, s, a)) && Remaining(Step(c, s, a)) < Remaining(s)
  {
    if ActsOn(a).Some? {
      var w := ActsOn(a).value;
      SumUpdate(Effort, s.workers, w, Step(c, s, a).workers[w]);
    }
  }

  /** Once the poller is gone every run is short, whatever the workers choose and whenever their
      handlers return. */
  lemma {:induction false} ShutdownBound(c: Config, s: State, acts: seq<Action>)
    requires Gone(s) && Run(c, s, acts)
    ensures Gone(Exec(c, s, acts)) && |acts| + Remaining(Exec(c, s, acts)) <= Remaining(s)
    decreases |acts|
  {
    if acts != [] {
      RemainingDecreases(c, s, acts[0]);
      ShutdownBound(c, Step(c, s, acts[0]), acts[1..]);
    }
  }

  /** No step is left but cancelling the context. */
  ghost predicate Quiescent(c: Config, s: State) {
    forall a :: Enabled(c, s, a) ==> a.Cancel?
  }

  lemma {:induction false} NoneAlive(ws: seq<Worker>)
    requires forall i :: 0 <= i < |ws| ==> ws[i].Exited?
    ensures Live(ws) == 0
  {
    if ws != [] {
      NoneAlive(ws[..|ws| - 1]);
    }
  }

  lemma QuiescentWorkers(c: Config, s: State)
    requires Lifecycle(c, s) && Quiescent(c, s)
    ensures forall i :: 0 <= i < |s.workers| ==> s.workers[i].Exited? || (s.workers[i].Ready? && s.queue == [] && !s.ctxDone)
  {
    forall i | 0 <= i < |s.workers|
      ensures s.workers[i].Exited? || (s.workers[i].Ready? && s.queue == [] && !s.ctxDone)
    {
      var finish, take, exit := Finish(i, false), Take(i), ExitDone(i);
      assert !Enabled(c, s, finish) && !Enabled(c, s, take) && !Enabled(c, s, exit);
    }
  }

  /** Where such a run can stop. After cancellation every worker has returned, and with them the
      poller and the wait of a closed channel. With the context live, every sent job has been taken
      and finished unless no worker is left. */
  lemma ShutdownEnd(c: Config, s: State)
    requires WellFormed(c) && Reachable(c, s) && Gone(s) && Quiescent(c, s)
    ensures s.poller.Returned? && !s.quit.QuitClosed?
    ensures s.ctxDone ==> Live(s.workers) == 0 && s.workerWg == 0
    ensures !s.ctxDone ==> s.poller == Returned(ByQuit) && (s.queue == [] || Live(s.workers) == 0)
  {
    ReachableInv(c, s);
    QuiescentWorkers(c, s);
    if s.ctxDone || s.queue != [] {
      NoneAlive(s.workers);
    }
    if s.poller.Draining? {
      assert Enabled(c, s, WorkersDone);
    }
    if s.quit.QuitClosed? {
      assert Enabled(c, s, StopReturns);
    }
  }

  predicate NoCancellation(acts: seq<Action>) {
    forall i :: 0 <= i < |acts| ==> !acts[i].Cancel? && !(acts[i].Finish? && acts[i].canceled)
  }

  lemma LiveStep(c: Config, s: State, a: Action)
    requires Lifecycle(c, s) && !s.ctxDone && Live(s.workers) == |s.workers|
    requires Enabled(c, s, a) && !a.Cancel? && !(a.Finish? && a.canceled)
    ensures var t := Step(c, s, a); !t.ctxDone && Live(t.workers) == |t.workers|
  {
    var t := Step(c, s, a);
    if ActsOn(a).Some? {
      var w := ActsOn(a).value;
      SumUpdate(Alive, s.workers, w, t.workers[w]);
    } else if a.SpawnWorker? {
      SumAppend(Alive, s.workers, Ready);
    }
  }

  /** Stop alone ends no worker: without cancellation every spawned worker is still alive, whatever
      else the run did. */
  lemma {:induction false} StopLeavesWorkers(c: Config, s: State, acts: seq<Action>)
    requires Lifecycle(c, s) && !s.ctxDone && Live(s.workers) == |s.workers|
    requires Run(c, s, acts) && NoCancellation(acts)
    ensures var t := Exec(c, s, acts); Live(t.workers) == |t.workers| && !t.closed
    decreases |acts|
  {
    if acts != [] {
      LiveStep(c, s, acts[0]);
      LifecycleStep(c, s, acts[0]);
      StopLeavesWorkers(c, Step(c, s, acts[0]), acts[1..]);
    }
  }
}
