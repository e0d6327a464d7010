/** What every step of the machine keeps, one group at a time. */
module Invariants {
  import opened Bytes
  import opened Chain
  import opened Routing
  import opened Windows
  import opened Machine

  function Sum(f: Worker -> nat, ws: seq<Worker>): nat {
    if ws == [] then 0 else Sum(f, ws[..|ws| - 1]) + f(ws[|ws| - 1])
  }

  lemma {:induction false} SumUpdate(f: Worker -> nat, ws: seq<Worker>, i: nat, v: Worker)
    requires i < |ws|
    ensures Sum(f, ws[i := v]) + f(ws[i]) == Sum(f, ws) + f(v)
  {
    var n := |ws| - 1;
    if i < n {
      assert ws[i := v][..n] == ws[..n][i := v];
      SumUpdate(f, ws[..n], i, v);
    } else {
      assert ws[i := v][..n] == ws[..n];
    }
  }

  lemma SumAppend(f: Worker -> nat, ws: seq<Worker>, v: Worker)
    ensures Sum(f, ws + [v]) == Sum(f, ws) + f(v)
  {
    assert (ws + [v])[..|ws|] == ws;
  }

  lemma {:induction false} SumBounds(f: Worker -> nat, ws: seq<Worker>, i: nat)
    requires i < |ws|
    ensures f(ws[i]) <= Sum(f, ws)
  {
    if i < |ws| - 1 {
      SumBounds(f, ws[..|ws| - 1], i);
    }
  }

  /** 1 for a worker goroutine that has not returned. */
  function Alive(w: Worker): nat { if w.Exited? then 0 else 1 }

  /** How many worker goroutines have not returned. */
  function Live(ws: seq<Worker>): nat { Sum(Alive, ws) }

  /** Wait groups count their live goroutines, the channel is closed exactly on the ctx.Done path, and
      nothing ever panics. */
  ghost predicate Lifecycle(c: Config, s: State) {
    && !s.panicked
    && |s.queue| <= c.queueSize
    && s.workerWg == Live(s.workers)
    && |s.workers| <= c.workerCount
    && (!s.poller.NotStarted? ==> |s.workers| == c.workerCount)
    && s.watcherWg == (if s.poller.NotStarted? || s.poller.Returned? then 0 else 1)
    && (s.closed <==> s.poller.Draining? || s.poller == Returned(ByDone))
    && (s.closed || s.poller.Aborted? || (s.poller.Returned? && s.poller.how.ByAbort?) ==> s.ctxDone)
    && (s.poller == Returned(ByDone) ==> s.workerWg == 0)
    && (s.poller == Returned(ByQuit) ==> !s.quit.QuitOpen?)
  }

  /** Windows tile (start, cursor]: each begins right after the one before it ended. */
  ghost predicate Tiles(start: u64, ws: seq<Window>, cursor: u64) {
    if ws == [] then cursor == start
    else
      var n := |ws| - 1;
      ws[n].last == cursor && 1 <= ws[n].first <= ws[n].last && Tiles(start, ws[..n], ws[n].first - 1)
  }

  /** The window a poll has begun and not committed, with the jobs of it not yet offered. */
  function OpenWindow(p: Poller): Option<(Window, seq<EventJob>)> {
    match p
    case Dispatching(w, rest) => Some((w, rest))
    case Aborted(w, rest) => Some((w, rest))
    case Returned(ByAbort(w, rest)) => Some((w, rest))
    case _ => None
  }

  ghost predicate Pending(p: Poller, w: Window) {
    p == Fetching(w) || (OpenWindow(p).Some? && OpenWindow(p).value.0 == w)
  }

  function Larger(a: u64, b: u64): u64 { if a < b then b else a }

  ghost predicate Progress(c: Config, s: State) {
    && (s.poller.NotStarted? ==> s.h.windows == [] && s.h.offered == [])
    && (!s.poller.NotStarted? ==> Tiles(c.startBlock, s.h.windows, s.cursor) && s.cursor <= Larger(c.startBlock, s.h.maxHead))
    && (forall w :: Pending(s.poller, w) ==> w.first == s.cursor + 1 <= w.last <= s.h.maxHead)
  }

  /** The elements of xs whose mark is keep, in order. */
  function Pick(xs: seq<EventJob>, marks: seq<bool>, keep: bool): seq<EventJob>
    requires |xs| == |marks|
  {
    if xs == [] then []
    else
      var n := |xs| - 1;
      Pick(xs[..n], marks[..n], keep) + (if marks[n] == keep then [xs[n]] else [])
  }

  lemma PickAppend(xs: seq<EventJob>, marks: seq<bool>, keep: bool, x: EventJob, mark: bool)
    requires |xs| == |marks|
    ensures Pick(xs + [x], marks + [mark], keep) == Pick(xs, marks, keep) + (if mark == keep then [x] else [])
  {
    assert (xs + [x])[..|xs|] == xs && (marks + [mark])[..|xs|] == marks;
  }

  /** The offered jobs the channel took, in order, and the ones that met a full channel. */
  function Sent(h: History): seq<EventJob> {
    if |h.offered| == |h.fates| then Pick(h.offered, h.fates, true) else []
  }

  function Dropped(h: History): seq<EventJob> {
    if |h.offered| == |h.fates| then Pick(h.offered, h.fates, false) else []
  }

  /** The channel is first in, first out: what was sent is what was taken, then what is queued. */
  ghost predicate Fifo(s: State) {
    && |s.h.offered| == |s.h.fates|
    && Sent(s.h) == s.h.taken + s.queue
  }

  /** The jobs of a list of windows, in order. */
  function Walk(c: Config, ws: seq<Window>): seq<EventJob> {
    if ws == [] then [] else Walk(c, ws[..|ws| - 1]) + WindowJobs(c, ws[|ws| - 1])
  }

  /** What has been offered of the window in progress. */
  ghost predicate OfferedPart(c: Config, p: Poller, part: seq<EventJob>) {
    match OpenWindow(p)
    case None => part == []
    case Some((w, rest)) => part + rest == WindowJobs(c, w)
  }

  /** Exactly the committed windows, and the offered part of the open one, have been offered. */
  ghost predicate Offered(c: Config, s: State) {
    exists part :: OfferedPart(c, s.poller, part) && s.h.offered == Walk(c, s.h.windows) + part
  }

  function Holding(job: EventJob): Worker -> nat { (w: Worker) => if w == Busy(job) then 1 else 0 }

  /** How many workers are running the handler of that job. */
  function Running(job: EventJob, ws: seq<Worker>): nat { Sum(Holding(job), ws) }

  lemma FinishedGrows(c: Config, s: State, a: Action)
    requires Enabled(c, s, a)
    ensures Step(c, s, a).h.finished == s.h.finished + (if a.Finish? then [s.workers[a.w].job] else [])
  {
  }

  /** A taken job is finished or running, as often as it was taken. */
  ghost predicate Conserved(s: State) {
    forall job :: multiset(s.h.taken)[job] == multiset(s.h.finished)[job] + Running(job, s.workers)
  }

  ghost predicate Inv(c: Config, s: State) {
    Lifecycle(c, s) && Progress(c, s) && Fifo(s) && Offered(c, s) && Conserved(s)
  }

  lemma InitInv(c: Config)
    requires c.queueSize > 0
    ensures Inv(c, Init())
  {
    assert OfferedPart(c, NotStarted, []);
  }

  /** What a step does to worker w, when it is a worker's step. */
  function ActsOn(a: Action): Option<nat> {
    match a
    case Take(w) => Some(w)
    case Finish(w, _) => Some(w)
    case ExitDone(w) => Some(w)
    case ExitClosed(w) => Some(w)
    case _ => None
  }

  lemma LifecycleByWorker(c: Config, s: State, a: Action, w: nat)
    requires Lifecycle(c, s) && Enabled(c, s, a) && ActsOn(a) == Some(w)
    ensures Lifecycle(c, Step(c, s, a))
  {
    SumBounds(Alive, s.workers, w);
    SumUpdate(Alive, s.workers, w, Step(c, s, a).workers[w]);
  }

  lemma LifecycleByOther(c: Config, s: State, a: Action)
    requires Lifecycle(c, s) && Enabled(c, s, a) && ActsOn(a).None?
    ensures Lifecycle(c, Step(c, s, a))
  {
    hide WindowJobs, NextWindow;
    if a.SpawnWorker? {
      SumAppend(Alive, s.workers, Ready);
    }
  }

  lemma LifecycleStep(c: Config, s: State, a: Action)
    requires Lifecycle(c, s) && Enabled(c, s, a)
    ensures Lifecycle(c, Step(c, s, a))
  {
    hide Lifecycle;
    match ActsOn(a)
    case Some(w) => LifecycleByWorker(c, s, a, w);
    case None => LifecycleByOther(c, s, a);
  }

  lemma ProgressByPoll(c: Config, s: State, head: Option<u64>)
    requires Progress(c, s) && Enabled(c, s, Poll(head))
    ensures Progress(c, Step(c, s, Poll(head)))
  {
  }

  lemma TilesAppend(start: u64, ws: seq<Window>, cursor: u64, w: Window)
    requires Tiles(start, ws, cursor) && w.first == cursor + 1 <= w.last
    ensures Tiles(start, ws + [w], w.last)
  {
    assert (ws + [w])[..|ws|] == ws;
  }

  lemma ProgressByCommit(c: Config, s: State)
    requires Progress(c, s) && Enabled(c, s, Commit)
    ensures Progress(c, Step(c, s, Commit))
  {
    hide Tiles;
    assert Pending(s.poller, s.poller.window);
    TilesAppend(c.startBlock, s.h.windows, s.cursor, s.poller.window);
  }

  /** Steps that neither poll nor commit leave windows, cursor and head alone, and open no window. */
  lemma OtherKeepsWindows(c: Config, s: State, a: Action)
    requires Enabled(c, s, a) && !a.Poll? && !a.Commit?
    ensures var t := Step(c, s, a);
            && t.h.windows == s.h.windows && t.h.maxHead == s.h.maxHead
            && (forall w :: Pending(t.poller, w) ==> Pending(s.poller, w))
            && (if a.SpawnPoller? then t.cursor == c.startBlock else t.cursor == s.cursor)
            && (t.poller.NotStarted? <==> s.poller.NotStarted? && !a.SpawnPoller?)
            && (s.poller.NotStarted? ==> t.h.offered == s.h.offered)
  {
  }

  lemma ProgressStep(c: Config, s: State, a: Action)
    requires Progress(c, s) && Enabled(c, s, a)
    ensures Progress(c, Step(c, s, a))
  {
    if a.Poll? {
      ProgressByPoll(c, s, a.head);
    } else if a.Commit? {
      ProgressByCommit(c, s);
    } else {
      hide Step, Enabled, Pending;
      OtherKeepsWindows(c, s, a);
    }
  }

  lemma FifoByOffer(c: Config, s: State, a: Action)
    requires Fifo(s) && Enabled(c, s, a) && !(a.Send? && s.closed) && (a.Send? || a.Drop?)
    ensures Fifo(Step(c, s, a))
  {
    PickAppend(s.h.offered, s.h.fates, true, s.poller.rest[0], a.Send?);
  }

  lemma FifoStep(c: Config, s: State, a: Action)
    requires Fifo(s) && Enabled(c, s, a) && !(a.Send? && s.closed)
    ensures Fifo(Step(c, s, a))
  {
    if a.Send? || a.Drop? {
      hide Step, Enabled, Fifo;
      FifoByOffer(c, s, a);
    } else {
      hide WindowJobs, NextWindow, Pick;
      if a.Take? {
        assert s.h.taken + s.queue == (s.h.taken + [s.queue[0]]) + s.queue[1..];
      }
    }
  }

  lemma OfferMovesOne(c: Config, s: State, a: Action)
    requires Enabled(c, s, a) && !(a.Send? && s.closed) && (a.Send? || a.Drop?)
    ensures Offering(s) && s.poller == Dispatching(s.poller.window, s.poller.rest)
    ensures var t := Step(c, s, a);
            && t.poller == Dispatching(s.poller.window, s.poller.rest[1..])
            && t.h.offered == s.h.offered + [s.poller.rest[0]] && t.h.windows == s.h.windows
  {
  }

  lemma PartGrows(c: Config, w: Window, rest: seq<EventJob>, part: seq<EventJob>)
    requires OfferedPart(c, Dispatching(w, rest), part) && rest != []
    ensures OfferedPart(c, Dispatching(w, rest[1..]), part + [rest[0]])
  {
    hide WindowJobs;
    assert (part + [rest[0]]) + rest[1..] == part + rest;
  }

  lemma OfferedByOffer(c: Config, s: State, a: Action)
    requires Offered(c, s) && Enabled(c, s, a) && !(a.Send? && s.closed) && (a.Send? || a.Drop?)
    ensures Offered(c, Step(c, s, a))
  {
    OfferMovesOne(c, s, a);
    hide Step, Enabled, WindowJobs, Walk, OfferedPart;
    var t := Step(c, s, a);
    var part :| OfferedPart(c, s.poller, part) && s.h.offered == Walk(c, s.h.windows) + part;
    PartGrows(c, s.poller.window, s.poller.rest, part);
    assert t.h.offered == Walk(c, s.h.windows) + (part + [s.poller.rest[0]]);
  }

  lemma CommitMovesOne(c: Config, s: State)
    requires Enabled(c, s, Commit)
    ensures var t := Step(c, s, Commit);
            && t.poller == Selecting && t.h.offered == s.h.offered && t.h.windows == s.h.windows + [s.poller.window]
            && s.poller == Dispatching(s.poller.window, [])
  {
  }

  lemma WalkAppend(c: Config, ws: seq<Window>, w: Window)
    ensures Walk(c, ws + [w]) == Walk(c, ws) + WindowJobs(c, w)
  {
    hide WindowJobs;
    assert (ws + [w])[..|ws|] == ws;
  }

  lemma OfferedByCommit(c: Config, s: State)
    requires Offered(c, s) && Enabled(c, s, Commit)
    ensures Offered(c, Step(c, s, Commit))
  {
    CommitMovesOne(c, s);
    hide Step, Enabled, WindowJobs, Walk;
    var t := Step(c, s, Commit);
    var part :| OfferedPart(c, s.poller, part) && s.h.offered == Walk(c, s.h.windows) + part;
    assert part == part + [];
    WalkAppend(c, s.h.windows, s.poller.window);
    assert OfferedPart(c, t.poller, []);
    assert t.h.offered == Walk(c, t.h.windows) + [];
  }

  lemma OtherKeepsOffers(c: Config, s: State, a: Action, part: seq<EventJob>)
    requires Enabled(c, s, a) && !(a.Send? || a.Drop? || a.Commit?) && OfferedPart(c, s.poller, part)
    ensures var t := Step(c, s, a);
            t.h.offered == s.h.offered && t.h.windows == s.h.windows && OfferedPart(c, t.poller, part)
  {
    hide WindowJobs;
    if a.Fetched? {
      assert [] + Step(c, s, a).poller.rest == Step(c, s, a).poller.rest;
    }
  }

  lemma OfferedByOther(c: Config, s: State, a: Action)
    requires Offered(c, s) && Enabled(c, s, a) && !(a.Send? || a.Drop? || a.Commit?)
    ensures Offered(c, Step(c, s, a))
  {
    hide Step, Enabled, OfferedPart;
    var part :| OfferedPart(c, s.poller, part) && s.h.offered == Walk(c, s.h.windows) + part;
    OtherKeepsOffers(c, s, a, part);
  }

  lemma OfferedStep(c: Config, s: State, a: Action)
    requires Offered(c, s) && Enabled(c, s, a) && !(a.Send? && s.closed)
    ensures Offered(c, Step(c, s, a))
  {
    hide Step, Enabled, Offered;
    if a.Send? || a.Drop? {
      OfferedByOffer(c, s, a);
    } else if a.Commit? {
      OfferedByCommit(c, s);
    } else {
      OfferedByOther(c, s, a);
    }
  }

  lemma ConservedByTake(c: Config, s: State, w: nat)
    requires Conserved(s) && Enabled(c, s, Take(w))
    ensures Conserved(Step(c, s, Take(w)))
  {
    var t := Step(c, s, Take(w));
    forall job ensures multiset(t.h.taken)[job] == multiset(t.h.finished)[job] + Running(job, t.workers) {
      SumUpdate(Holding(job), s.workers, w, t.workers[w]);
      assert multiset(t.h.taken) == multiset(s.h.taken) + multiset{s.queue[0]};
    }
  }

  lemma ConservedByFinish(c: Config, s: State, w: nat, canceled: bool)
    requires Conserved(s) && Enabled(c, s, Finish(w, canceled))
    ensures Conserved(Step(c, s, Finish(w, canceled)))
  {
    var t := Step(c, s, Finish(w, canceled));
    forall job ensures multiset(t.h.taken)[job] == multiset(t.h.finished)[job] + Running(job, t.workers) {
      SumUpdate(Holding(job), s.workers, w, t.workers[w]);
      assert multiset(t.h.finished) == multiset(s.h.finished) + multiset{s.workers[w].job};
    }
  }

  lemma ConservedByIdle(s: State, t: State, w: nat, v: Worker)
    requires Conserved(s) && t.h == s.h && Idle(s, w) && !v.Busy? && t.workers == s.workers[w := v]
    ensures Conserved(t)
  {
    forall job ensures multiset(t.h.taken)[job] == multiset(t.h.finished)[job] + Running(job, t.workers) {
      SumUpdate(Holding(job), s.workers, w, v);
    }
  }

  lemma ConservedBySpawn(s: State, t: State)
    requires Conserved(s) && t.h == s.h && t.workers == s.workers + [Ready]
    ensures Conserved(t)
  {
    forall job ensures multiset(t.h.taken)[job] == multiset(t.h.finished)[job] + Running(job, t.workers) {
      SumAppend(Holding(job), s.workers, Ready);
    }
  }

  lemma ConservedStep(c: Config, s: State, a: Action)
    requires Conserved(s) && Enabled(c, s, a)
    ensures Conserved(Step(c, s, a))
  {
    match a {
      case Take(w) => ConservedByTake(c, s, w);
      case Finish(w, canceled) => ConservedByFinish(c, s, w, canceled);
      case ExitDone(w) => ConservedByIdle(s, Step(c, s, a), w, Exited);
      case ExitClosed(w) => ConservedByIdle(s, Step(c, s, a), w, Exited);
      case SpawnWorker => ConservedBySpawn(s, Step(c, s, a));
      case _ =>
    }
  }

  lemma InvStep(c: Config, s: State, a: Action)
    requires Inv(c, s) && Enabled(c, s, a)
    ensures Inv(c, Step(c, s, a))
  {
    LifecycleStep(c, s, a);
    hide Step, Progress, Fifo, Offered, Conserved, Live;
    ProgressStep(c, s, a);
    FifoStep(c, s, a);
    OfferedStep(c, s, a);
    ConservedStep(c, s, a);
  }

  lemma {:induction false} InvRun(c: Config, s: State, acts: seq<Action>)
    requires Inv(c, s) && Run(c, s, acts)
    ensures Inv(c, Exec(c, s, acts))
    decreases |acts|
  {
    if acts != [] {
      InvStep(c, s, acts[0]);
      InvRun(c, Step(c, s, acts[0]), acts[1..]);
    }
  }

  lemma ReachableInv(c: Config, s: State)
    requires WellFormed(c) && Reachable(c, s)
    ensures Inv(c, s)
  {
    var acts :| Run(c, Init(), acts) && Exec(c, Init(), acts) == s;
    InitInv(c);
    InvRun(c, Init(), acts);
  }
}
