/** What one watcher's worker pool can do with a queue: with several workers, finish chosen jobs last;
    with one, nothing but keep the order. */
module Rescheduling {
  import opened Routing
  import opened Machine
  import opened Invariants

  // ---- Running the same queue with some jobs held back ----

  /** The jobs whose position is held, or the others, in order. */
  function Chosen(jobs: seq<EventJob>, held: nat -> bool, keep: bool): seq<EventJob> {
    if jobs == [] then []
    else
      var n := |jobs| - 1;
      Chosen(jobs[..n], held, keep) + (if held(n) == keep then [jobs[n]] else [])
  }

  lemma ChosenAppend(jobs: seq<EventJob>, job: EventJob, held: nat -> bool, keep: bool)
    ensures Chosen(jobs + [job], held, keep) == Chosen(jobs, held, keep) + (if held(|jobs|) == keep then [job] else [])
  {
    assert (jobs + [job])[..|jobs|] == jobs;
  }

  /** The first workers hold the held jobs, one each; the rest, at least one, are ready. */
  ghost predicate Holds(ws: seq<Worker>, jobs: seq<EventJob>) {
    forall j :: 0 <= j < |ws| ==> ws[j] == if j < |jobs| then Busy(jobs[j]) else Ready
  }

  /** t has made the same poller and channel steps as s; its workers hold the held jobs they took and
      have finished the others in order. It may lag behind s in leaving. */
  ghost predicate Mirrors(s: State, t: State, held: nat -> bool) {
    && t.cursor == s.cursor && t.queue == s.queue && t.closed == s.closed && t.ctxDone == s.ctxDone
    && |t.workers| == |s.workers|
    && t.h.offered == s.h.offered && t.h.fates == s.h.fates && t.h.taken == s.h.taken
    && t.h.windows == s.h.windows && t.h.maxHead == s.h.maxHead
    && (t.poller == s.poller || (s.poller == Returned(ByDone) && t.poller.Draining?))
    && (t.quit == s.quit || (s.poller == Returned(ByDone) && s.quit.QuitNil? && t.quit.QuitClosed?))
    && t.h.finished == Chosen(s.h.taken, held, false)
    && Holds(t.workers, Chosen(s.h.taken, held, true))
  }

  /** The steps t skips: the worker's own finishing and leaving, and what waits for them. */
  predicate Skipped(s: State, a: Action) {
    a.Finish? || a.ExitDone? || a.ExitClosed? || a.WorkersDone? || (a.StopReturns? && s.poller == Returned(ByDone))
  }

  lemma SkipMirrors(c: Config, s: State, a: Action, t: State, held: nat -> bool)
    requires Mirrors(s, t, held) && Enabled(c, s, a) && Skipped(s, a)
    ensures Mirrors(Step(c, s, a), t, held)
  {
  }

  lemma FollowMirrors(c: Config, s: State, a: Action, t: State, held: nat -> bool)
    requires Mirrors(s, t, held) && Enabled(c, s, a) && !Skipped(s, a) && !a.Take?
    requires Lifecycle(c, s) && Lifecycle(c, t) && (s.poller.NotStarted? ==> s.h.taken == [])
    ensures Enabled(c, t, a) && Mirrors(Step(c, s, a), Step(c, t, a), held)
  {
    hide Live;
  }

  /** A job is only ever on the channel when all workers have been spawned. */
  lemma QueueMeansStarted(c: Config, s: State)
    requires Inv(c, s) && s.queue != []
    ensures |s.workers| == c.workerCount
  {
    assert s.poller.NotStarted? ==> Sent(s.h) == [];
  }

  lemma TakeHeld(c: Config, s: State, w: nat, t: State, held: nat -> bool)
    requires Mirrors(s, t, held) && Enabled(c, s, Take(w)) && held(|s.h.taken|)
    requires !t.panicked && |Chosen(s.h.taken, held, true)| < |t.workers|
    ensures var j := |Chosen(s.h.taken, held, true)|;
            Enabled(c, t, Take(j)) && Mirrors(Step(c, s, Take(w)), Step(c, t, Take(j)), held)
  {
    ChosenAppend(s.h.taken, s.queue[0], held, true);
    ChosenAppend(s.h.taken, s.queue[0], held, false);
  }

  lemma TakeFree(c: Config, s: State, w: nat, t: State, held: nat -> bool) returns (u: State)
    requires Mirrors(s, t, held) && Enabled(c, s, Take(w)) && !held(|s.h.taken|)
    requires !t.panicked && |Chosen(s.h.taken, held, true)| < |t.workers| && Reachable(c, t)
    ensures Reachable(c, u) && Mirrors(Step(c, s, Take(w)), u, held)
  {
    hide Reaches;
    var j := |t.workers| - 1;
    var mid := Step(c, t, Take(j));
    u := Step(c, mid, Finish(j, false));
    ReachesOne(c, t, Take(j));
    ReachesOne(c, mid, Finish(j, false));
    ReachesTrans(c, t, mid, u);
    ReachesTrans(c, Init(), t, u);
    ChosenAppend(s.h.taken, s.queue[0], held, true);
    ChosenAppend(s.h.taken, s.queue[0], held, false);
    assert u.workers == t.workers;
  }

  lemma ChosenBelow(c: Config, s: State, a: Action, held: nat -> bool)
    requires Enabled(c, s, a)
    ensures |Chosen(s.h.taken, held, true)| <= |Chosen(Step(c, s, a).h.taken, held, true)|
  {
    if a.Take? {
      ChosenAppend(s.h.taken, s.queue[0], held, true);
    }
  }

  lemma MirrorTake(c: Config, s: State, w: nat, t: State, held: nat -> bool) returns (u: State)
    requires WellFormed(c) && Reachable(c, s) && Reachable(c, t) && Mirrors(s, t, held) && Enabled(c, s, Take(w))
    requires |Chosen(s.h.taken, held, true)| < c.workerCount
    ensures Reachable(c, u) && Mirrors(Step(c, s, Take(w)), u, held)
  {
    assert |t.workers| == c.workerCount && !t.panicked by {
      ReachableInv(c, s);
      ReachableInv(c, t);
      QueueMeansStarted(c, s);
    }
    hide Reaches, Mirrors;
    var j := |Chosen(s.h.taken, held, true)|;
    if held(|s.h.taken|) {
      assert Enabled(c, t, Take(j)) by { TakeHeld(c, s, w, t, held); }
      u := Step(c, t, Take(j));
      TakeHeld(c, s, w, t, held);
      ReachesOne(c, t, Take(j));
      ReachesTrans(c, Init(), t, u);
    } else {
      assert |t.workers| == |s.workers|;
      u := TakeFree(c, s, w, t, held);
    }
  }

  lemma MirrorStep(c: Config, s: State, a: Action, t: State, held: nat -> bool) returns (u: State)
    requires WellFormed(c) && Reachable(c, s) && Reachable(c, t) && Mirrors(s, t, held) && Enabled(c, s, a)
    requires |Chosen(Step(c, s, a).h.taken, held, true)| < c.workerCount
    ensures Reachable(c, u) && Mirrors(Step(c, s, a), u, held)
  {
    hide Reaches, Mirrors;
    if a.Take? {
      ChosenBelow(c, s, a, held);
      u := MirrorTake(c, s, a.w, t, held);
    } else if Skipped(s, a) {
      SkipMirrors(c, s, a, t, held);
      u := t;
    } else {
      assert Lifecycle(c, s) && Lifecycle(c, t) && (s.poller.NotStarted? ==> s.h.taken == []) by {
        ReachableInv(c, s);
        ReachableInv(c, t);
        assert s.poller.NotStarted? ==> Sent(s.h) == [];
      }
      hide Lifecycle;
      FollowMirrors(c, s, a, t, held);
      u := Step(c, t, a);
      ReachesOne(c, t, a);
      ReachesTrans(c, Init(), t, u);
    }
  }

  lemma {:induction false} RunSnoc(c: Config, s: State, acts: seq<Action>)
    requires acts != [] && Run(c, s, acts)
    ensures var n := |acts| - 1;
            && Run(c, s, acts[..n]) && Enabled(c, Exec(c, s, acts[..n]), acts[n])
            && Exec(c, s, acts) == Step(c, Exec(c, s, acts[..n]), acts[n])
    decreases |acts|
  {
    hide Step, Enabled;
    if |acts| > 1 {
      var n := |acts| - 1;
      RunSnoc(c, Step(c, s, acts[0]), acts[1..]);
      assert acts[1..][..n - 1] == acts[..n][1..] && acts[1..][n - 1] == acts[n];
    }
  }

  lemma {:induction false} MirrorRun(c: Config, acts: seq<Action>, held: nat -> bool) returns (t: State)
    requires WellFormed(c) && Run(c, Init(), acts)
    requires |Chosen(Exec(c, Init(), acts).h.taken, held, true)| < c.workerCount
    ensures Reachable(c, t) && Mirrors(Exec(c, Init(), acts), t, held)
    decreases |acts|
  {
    hide Step, Enabled;
    if acts == [] {
      t := Init();
      ReachesSelf(c, t);
    } else {
      hide Mirrors;
      var n := |acts| - 1;
      RunSnoc(c, Init(), acts);
      var s := Exec(c, Init(), acts[..n]);
      assert Reachable(c, s) by { assert Run(c, Init(), acts[..n]); }
      ChosenBelow(c, s, acts[n], held);
      var before := MirrorRun(c, acts[..n], held);
      t := MirrorStep(c, s, acts[n], before, held);
    }
  }

  /** Workers first.. still hold their jobs; the ones before have finished. */
  ghost predicate HoldsFrom(ws: seq<Worker>, jobs: seq<EventJob>, first: nat) {
    forall j :: 0 <= j < |ws| ==> ws[j] == if first <= j < |jobs| then Busy(jobs[j]) else Ready
  }

  lemma {:induction false} FinishHeld(c: Config, t: State, jobs: seq<EventJob>, first: nat) returns (u: State)
    requires WellFormed(c) && Reachable(c, t) && HoldsFrom(t.workers, jobs, first) && first <= |jobs| <= |t.workers|
    ensures Reachable(c, u) && HoldsFrom(u.workers, jobs, |jobs|) && u.queue == t.queue
    ensures u.h == t.h.(finished := t.h.finished + jobs[first..])
    decreases |jobs| - first
  {
    if first == |jobs| {
      u := t;
    } else {
      assert !t.panicked by { ReachableInv(c, t); }
      hide Reaches;
      var a := Finish(first, false);
      var mid := Step(c, t, a);
      ReachesOne(c, t, a);
      ReachesTrans(c, Init(), t, mid);
      u := FinishHeld(c, mid, jobs, first + 1);
      assert [jobs[first]] + jobs[first + 1..] == jobs[first..];
    }
  }

  ghost predicate AllIdle(s: State) {
    s.queue == [] && forall w :: 0 <= w < |s.workers| ==> !s.workers[w].Busy?
  }

  /** Whatever a watcher's run enqueued, another run of it enqueues the same, drops the same, and has
      its workers finish any chosen jobs, fewer than there are workers, after all the others. */
  lemma Reschedule(c: Config, s: State, held: nat -> bool) returns (u: State)
    requires WellFormed(c) && Reachable(c, s) && s.queue == []
    requires |Chosen(s.h.taken, held, true)| < c.workerCount
    ensures Reachable(c, u) && AllIdle(u) && u.h.offered == s.h.offered && u.h.fates == s.h.fates
    ensures u.h.finished == Chosen(s.h.taken, held, false) + Chosen(s.h.taken, held, true)
  {
    var acts :| Run(c, Init(), acts) && Exec(c, Init(), acts) == s;
    hide Reaches;
    var t := MirrorRun(c, acts, held);
    var jobs := Chosen(s.h.taken, held, true);
    HeldFit(c, s, t, held);
    u := FinishHeld(c, t, jobs, 0);
    assert jobs[0..] == jobs;
  }

  lemma {:induction false} ChosenShorter(jobs: seq<EventJob>, held: nat -> bool, keep: bool)
    ensures |Chosen(jobs, held, keep)| <= |jobs|
  {
    if jobs != [] {
      ChosenShorter(jobs[..|jobs| - 1], held, keep);
    }
  }

  lemma HeldFit(c: Config, s: State, t: State, held: nat -> bool)
    requires WellFormed(c) && Reachable(c, s) && Mirrors(s, t, held)
    requires |Chosen(s.h.taken, held, true)| < c.workerCount
    ensures |Chosen(s.h.taken, held, true)| <= |t.workers|
  {
    ReachableInv(c, s);
    ChosenShorter(s.h.taken, held, true);
    if s.poller.NotStarted? {
      assert Sent(s.h) == [];
    }
  }

  // ---- One worker ----

  function InHand(ws: seq<Worker>): seq<EventJob> {
    if |ws| == 1 && ws[0].Busy? then [ws[0].job] else []
  }

  ghost predicate InOrder(s: State) {
    |s.workers| <= 1 && s.h.taken == s.h.finished + InHand(s.workers)
  }

  lemma {:induction false} InOrderRun(c: Config, s: State, acts: seq<Action>)
    requires c.workerCount == 1 && InOrder(s) && Run(c, s, acts)
    ensures InOrder(Exec(c, s, acts))
    decreases |acts|
  {
    if acts != [] {
      InOrderStep(c, s, acts[0]);
      InOrderRun(c, Step(c, s, acts[0]), acts[1..]);
    }
  }

  lemma InOrderStep(c: Config, s: State, a: Action)
    requires c.workerCount == 1 && InOrder(s) && Enabled(c, s, a)
    ensures InOrder(Step(c, s, a))
  {
  }

  /** A single worker finishes jobs in the order they were enqueued. */
  lemma SoleWorker(c: Config, s: State)
    requires WellFormed(c) && c.workerCount == 1 && Reachable(c, s)
    ensures s.h.finished <= Sent(s.h)
    ensures AllIdle(s) ==> s.h.finished == Sent(s.h)
  {
    var acts :| Run(c, Init(), acts) && Exec(c, Init(), acts) == s;
    InOrderRun(c, Init(), acts);
    ReachableInv(c, s);
  }

  // ---- How far back a job can be overtaken ----

  function Count(p: EventJob -> bool, jobs: seq<EventJob>): nat {
    if jobs == [] then 0 else Count(p, jobs[..|jobs| - 1]) + (if p(jobs[|jobs| - 1]) then 1 else 0)
  }

  lemma CountAppend(p: EventJob -> bool, jobs: seq<EventJob>, job: EventJob)
    ensures Count(p, jobs + [job]) == Count(p, jobs) + (if p(job) then 1 else 0)
  {
    assert (jobs + [job])[..|jobs|] == jobs;
  }

  lemma {:induction false} CountPrefix(p: EventJob -> bool, jobs: seq<EventJob>, n: nat)
    requires n <= |jobs|
    ensures Count(p, jobs[..n]) <= Count(p, jobs)
  {
    if n < |jobs| {
      CountPrefix(p, jobs[..|jobs| - 1], n);
      assert jobs[..|jobs| - 1][..n] == jobs[..n];
    } else {
      assert jobs[..n] == jobs;
    }
  }

  function Handling(p: EventJob -> bool): Worker -> nat { (w: Worker) => if w.Busy? && p(w.job) then 1 else 0 }

  /** Of each sort of job, as many are taken as are finished or in a worker's hands. */
  ghost predicate Counted(p: EventJob -> bool, s: State) {
    Count(p, s.h.taken) == Count(p, s.h.finished) + Sum(Handling(p), s.workers)
  }

  lemma CountedByTake(c: Config, p: EventJob -> bool, s: State, w: nat)
    requires Counted(p, s) && Enabled(c, s, Take(w))
    ensures Counted(p, Step(c, s, Take(w)))
  {
    SumUpdate(Handling(p), s.workers, w, Busy(s.queue[0]));
    CountAppend(p, s.h.taken, s.queue[0]);
  }

  lemma CountedByFinish(c: Config, p: EventJob -> bool, s: State, w: nat, canceled: bool)
    requires Counted(p, s) && Enabled(c, s, Finish(w, canceled))
    ensures Counted(p, Step(c, s, Finish(w, canceled)))
  {
    SumUpdate(Handling(p), s.workers, w, if canceled then Exited else Ready);
    CountAppend(p, s.h.finished, s.workers[w].job);
  }

  lemma CountedStep(c: Config, p: EventJob -> bool, s: State, a: Action)
    requires Counted(p, s) && Enabled(c, s, a)
    ensures Counted(p, Step(c, s, a))
  {
    match a {
      case Take(w) => CountedByTake(c, p, s, w);
      case Finish(w, canceled) => CountedByFinish(c, p, s, w, canceled);
      case ExitDone(w) => SumUpdate(Handling(p), s.workers, w, Exited);
      case ExitClosed(w) => SumUpdate(Handling(p), s.workers, w, Exited);
      case SpawnWorker => SumAppend(Handling(p), s.workers, Ready);
      case _ =>
    }
  }

  lemma {:induction false} CountedRun(c: Config, p: EventJob -> bool, s: State, acts: seq<Action>)
    requires Counted(p, s) && Run(c, s, acts)
    ensures Counted(p, Exec(c, s, acts))
    decreases |acts|
  {
    hide Counted;
    if acts != [] {
      CountedStep(c, p, s, acts[0]);
      CountedRun(c, p, Step(c, s, acts[0]), acts[1..]);
    }
  }

  lemma {:induction false} SumAtMost(f: Worker -> nat, ws: seq<Worker>)
    requires forall w :: f(w) <= 1
    ensures Sum(f, ws) <= |ws|
  {
    if ws != [] {
      SumAtMost(f, ws[..|ws| - 1]);
    }
  }

  /** While none of a sort is finished, no more of that sort are taken than there are workers. */
  lemma TakenAtMostWorkers(c: Config, p: EventJob -> bool, s: State)
    requires WellFormed(c) && Reachable(c, s) && Count(p, s.h.finished) == 0
    ensures Count(p, s.h.taken) <= c.workerCount
  {
    var acts :| Run(c, Init(), acts) && Exec(c, Init(), acts) == s;
    CountedRun(c, p, Init(), acts);
    SumAtMost(Handling(p), s.workers);
    ReachableInv(c, s);
  }
}
