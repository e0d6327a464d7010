/** One watcher as a step machine: the poller goroutine, the bounded job channel, the worker pool,
    cancellation and Stop. An action names one atomic step and resolves its free choices, so a run
    is a list of enabled actions and "every interleaving" is "every run". */
module Machine {
  import opened Bytes
  import opened Chain
  import opened Routing
  import opened Windows

  /** What one Start is given: the watcher's settings, the index NewWatcher built, and the node. */
  datatype Config = Config(startBlock: u64, maxBlockSpan: u64, workerCount: nat, queueSize: nat,
                           contracts: seq<ContractConfig>, ix: Index, node: Node)

  /** What NewWatcher checks and builds. */
  ghost predicate WellFormed(c: Config) {
    c.workerCount > 0 && c.queueSize > 0 && Indexes(c.contracts, c.ix)
  }

  datatype Worker = Ready | Busy(job: EventJob) | Exited

  /** How the poller goroutine ended. */
  datatype Exit = ByDone | ByQuit | ByAbort(window: Window, rest: seq<EventJob>)

  /** Where the poller goroutine is: before Start, in its select, between the two RPC calls, sending
      the jobs of a window, past the ctx.Done case of a send, waiting for the workers, or gone. */
  datatype Poller =
    | NotStarted
    | Selecting
    | Fetching(window: Window)
    | Dispatching(window: Window, rest: seq<EventJob>)
    | Aborted(window: Window, rest: seq<EventJob>)
    | Draining
    | Returned(how: Exit)

  datatype Quit = QuitOpen | QuitClosed | QuitNil

  /** Every job the poller came to offer, whether it was sent, and what became of the sent ones. */
  datatype History = History(offered: seq<EventJob>, fates: seq<bool>, taken: seq<EventJob>,
                             finished: seq<EventJob>, windows: seq<Window>, maxHead: u64)

  datatype State = State(cursor: u64, poller: Poller, queue: seq<EventJob>, closed: bool,
                         workers: seq<Worker>, ctxDone: bool, quit: Quit,
                         watcherWg: int, workerWg: int, panicked: bool, h: History)

  datatype Action =
    | SpawnWorker                          // Start: workerWg.Add(1); go worker
    | SpawnPoller                          // Start: set the cursor; watcherWg.Add(1); go poller
    | Poll(head: Option<u64>)              // tick, then BlockNumber answers or fails
    | FetchFailed                          // FilterLogs fails
    | Fetched                              // FilterLogs answers
    | Send                                 // select: the channel takes the job
    | Drop                                 // select: default
    | Abort                                // select: ctx.Done
    | ReturnCanceled                       // the loop returns on context.Canceled
    | Commit                               // currentBlock = toBlock
    | SeeDone                              // loop select: ctx.Done; close(jobQueue)
    | WorkersDone                          // workerWg.Wait returns
    | SeeQuit                              // loop select: quit
    | Take(w: nat)                         // a worker receives a job
    | Finish(w: nat, canceled: bool)       // its handler returns, perhaps with context.Canceled
    | ExitDone(w: nat)                     // worker select: ctx.Done
    | ExitClosed(w: nat)                   // worker receive on the closed, drained channel
    | Cancel                               // the context is cancelled
    | CallStop                             // Stop: close(quit)
    | StopReturns                          // Stop: watcherWg.Wait returns; quit = nil

  function Init(): State {
    State(0, NotStarted, [], false, [], false, QuitOpen, 0, 0, false, History([], [], [], [], [], 0))
  }

  predicate Idle(s: State, w: nat) { w < |s.workers| && s.workers[w].Ready? }

  predicate Offering(s: State) { s.poller.Dispatching? && s.poller.rest != [] }

  /** Which steps a state allows. A send is ready when the channel has room or is closed; default is
      taken only when neither other case is ready. */
  predicate Enabled(c: Config, s: State, a: Action) {
    !s.panicked &&
    match a
    case SpawnWorker => s.poller.NotStarted? && |s.workers| < c.workerCount
    case SpawnPoller => s.poller.NotStarted? && |s.workers| == c.workerCount
    case Poll(_) => s.poller.Selecting?
    case FetchFailed => s.poller.Fetching?
    case Fetched => s.poller.Fetching?
    case Send => Offering(s) && (|s.queue| < c.queueSize || s.closed)
    case Drop => Offering(s) && !(|s.queue| < c.queueSize || s.closed) && !s.ctxDone
    case Abort => Offering(s) && s.ctxDone
    case ReturnCanceled => s.poller.Aborted?
    case Commit => s.poller.Dispatching? && s.poller.rest == []
    case SeeDone => s.poller.Selecting? && s.ctxDone
    case WorkersDone => s.poller.Draining? && s.workerWg == 0
    case SeeQuit => s.poller.Selecting? && s.quit.QuitClosed?
    case Take(w) => Idle(s, w) && s.queue != []
    case Finish(w, _) => w < |s.workers| && s.workers[w].Busy?
    case ExitDone(w) => Idle(s, w) && s.ctxDone
    case ExitClosed(w) => Idle(s, w) && s.closed && s.queue == []
    case Cancel => !s.ctxDone
    case CallStop => s.quit.QuitOpen?
    case StopReturns => s.quit.QuitClosed? && s.watcherWg == 0
  }

  /** The jobs of one window: what the dispatch loop finds in the node's answer. */
  function WindowJobs(c: Config, w: Window): seq<EventJob> {
    Route(c.ix, FilterLogs(c.node, ToInt64(w.first), ToInt64(w.last), c.ix.addresses, c.ix.topics))
  }

  function Leave(s: State, how: Exit): State {
    s.(poller := Returned(how), watcherWg := s.watcherWg - 1, panicked := s.panicked || s.watcherWg <= 0)
  }

  function ExitWorker(s: State, w: nat): State
    requires w < |s.workers|
  {
    s.(workers := s.workers[w := Exited], workerWg := s.workerWg - 1, panicked := s.panicked || s.workerWg <= 0)
  }

  function Offer(s: State, sent: bool): State
    requires Offering(s)
  {
    s.(poller := Dispatching(s.poller.window, s.poller.rest[1..]),
       h := s.h.(offered := s.h.offered + [s.poller.rest[0]], fates := s.h.fates + [sent]))
  }

  /** The state after one step. Sending on, or closing, a closed channel panics, and so does a wait
      group that drops below zero. */
  function Step(c: Config, s: State, a: Action): State
    requires Enabled(c, s, a)
  {
    match a
    case SpawnWorker => s.(workers := s.workers + [Ready], workerWg := s.workerWg + 1)
    case SpawnPoller => s.(cursor := c.startBlock, poller := Selecting, watcherWg := s.watcherWg + 1)
    case Poll(None) => s
    case Poll(Some(head)) =>
      var seen := s.(h := s.h.(maxHead := if head > s.h.maxHead then head else s.h.maxHead));
      (match NextWindow(s.cursor, head, c.maxBlockSpan)
       case None => seen
       case Some(w) => seen.(poller := Fetching(w)))
    case FetchFailed => s.(poller := Selecting)
    case Fetched => s.(poller := Dispatching(s.poller.window, WindowJobs(c, s.poller.window)))
    case Send =>
      if s.closed then s.(panicked := true)
      else Offer(s, true).(queue := s.queue + [s.poller.rest[0]])
    case Drop => Offer(s, false)
    case Abort => s.(poller := Aborted(s.poller.window, s.poller.rest))
    case ReturnCanceled => Leave(s, ByAbort(s.poller.window, s.poller.rest))
    case Commit =>
      s.(cursor := s.poller.window.last, poller := Selecting,
         h := s.h.(windows := s.h.windows + [s.poller.window]))
    case SeeDone => s.(poller := Draining, closed := true, panicked := s.closed)
    case WorkersDone => Leave(s, ByDone)
    case SeeQuit => Leave(s, ByQuit)
    case Take(w) =>
      s.(queue := s.queue[1..], workers := s.workers[w := Busy(s.queue[0])],
         h := s.h.(taken := s.h.taken + [s.queue[0]]))
    case Finish(w, canceled) =>
      var done := s.(h := s.h.(finished := s.h.finished + [s.workers[w].job]));
      if canceled then ExitWorker(done, w) else done.(workers := s.workers[w := Ready])
    case ExitDone(w) => ExitWorker(s, w)
    case ExitClosed(w) => ExitWorker(s, w)
    case Cancel => s.(ctxDone := true)
    case CallStop => s.(quit := QuitClosed)
    case StopReturns => s.(quit := QuitNil)
  }

  /** acts is a run from s, and Exec is where it ends. */
  predicate Run(c: Config, s: State, acts: seq<Action>)
    decreases |acts|
  {
    acts == [] || (Enabled(c, s, acts[0]) && Run(c, Step(c, s, acts[0]), acts[1..]))
  }

  function Exec(c: Config, s: State, acts: seq<Action>): State
    requires Run(c, s, acts)
    decreases |acts|
  {
    if acts == [] then s else Exec(c, Step(c, s, acts[0]), acts[1..])
  }

  ghost predicate Reaches(c: Config, s: State, t: State) {
    exists acts :: Run(c, s, acts) && Exec(c, s, acts) == t
  }

  ghost predicate Reachable(c: Config, s: State) {
    Reaches(c, Init(), s)
  }

  lemma {:induction false} RunConcat(c: Config, s: State, a: seq<Action>, b: seq<Action>)
    requires Run(c, s, a) && Run(c, Exec(c, s, a), b)
    ensures Run(c, s, a + b) && Exec(c, s, a + b) == Exec(c, Exec(c, s, a), b)
    decreases |a|
  {
    if a == [] {
      assert a + b == b;
    } else {
      assert (a + b)[1..] == a[1..] + b;
      RunConcat(c, Step(c, s, a[0]), a[1..], b);
    }
  }

  lemma ReachesSelf(c: Config, s: State)
    ensures Reaches(c, s, s)
  {
    assert Run(c, s, []) && Exec(c, s, []) == s;
  }

  lemma ReachesOne(c: Config, s: State, a: Action)
    requires Enabled(c, s, a)
    ensures Reaches(c, s, Step(c, s, a))
  {
    var t := Step(c, s, a);
    assert [a][0] == a && [a][1..] == [];
    assert Run(c, t, []) && Exec(c, t, []) == t;
    hide Step, Enabled;
    assert Run(c, s, [a]) && Exec(c, s, [a]) == t;
  }

  lemma ReachesTrans(c: Config, s: State, t: State, u: State)
    requires Reaches(c, s, t) && Reaches(c, t, u)
    ensures Reaches(c, s, u)
  {
    var a :| Run(c, s, a) && Exec(c, s, a) == t;
    var b :| Run(c, t, b) && Exec(c, t, b) == u;
    RunConcat(c, s, a, b);
  }
}
