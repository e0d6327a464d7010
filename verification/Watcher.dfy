/** The watcher object: its fields, the code of the poller goroutine that changes them, and the proof
    that whatever the other goroutines do meanwhile, the object only ever runs the step machine. */
module Watcher {
  import opened Bytes
  import opened Chain
  import opened Routing
  import opened Windows
  import opened Machine
  import opened Invariants
  import opened Records
  import opened Shutdown
  import H = Handlers
  import S = Store

  datatype WatcherConfig = WatcherConfig(hasClient: bool, hasLogger: bool, contracts: seq<ContractConfig>,
                                         maxBlockSpan: u64, startBlock: u64, workerCount: int, queueSize: int)

  datatype ConfigError = NoConfigError | NoClient | NoLogger | BadWorkerCount | BadQueueSize

  datatype PollError = NoError | HeadFailed | FilterFailed | Canceled

  /** NewWatcher's loop over the contracts; a map's keys come in any order. Every address has the
      handlers of the last contract at it, and the topics are all event ids, each once. */
  method BuildIndex(contracts: seq<ContractConfig>) returns (ix: Index)
    ensures Indexes(contracts, ix)
    ensures |ix.addresses| == |contracts| && forall i :: 0 <= i < |contracts| ==> ix.addresses[i] == contracts[i].address
    ensures ix.addressToHandlers.Keys == set c | c in contracts :: c.address
    ensures forall i :: 0 <= i < |contracts| && (forall j :: i < j < |contracts| ==> contracts[j].address != contracts[i].address)
                        ==> contracts[i].address in ix.addressToHandlers
                            && ix.addressToHandlers[contracts[i].address] == contracts[i].eventHandlers
    ensures forall t :: t in ix.topics <==> exists c :: c in contracts && t in c.eventHandlers
    ensures forall i, j :: 0 <= i < j < |ix.topics| ==> ix.topics[i] != ix.topics[j]
  {
    var addresses: seq<Address> := [];
    var topics: seq<Hash> := [];
    var addressToHandlers: map<Address, map<Hash, Handler>> := map[];
    var topicsMap: set<Hash> := {};
    for i := 0 to |contracts|
      invariant Indexes(contracts[..i], Index(addresses, topics, addressToHandlers))
      invariant forall t :: t in topicsMap <==> t in topics
    {
      var contract := contracts[i];
      addresses := addresses + [contract.address];
      addressToHandlers := addressToHandlers[contract.address := contract.eventHandlers];
      var ids := contract.eventHandlers.Keys;
      while ids != {}
        invariant ids <= contract.eventHandlers.Keys
        invariant Distinct(topics)
        invariant forall t :: t in topicsMap <==> t in topics
        invariant forall t :: t in topics <==> Handled(contracts[..i], t) || (t in contract.eventHandlers && t !in ids)
      {
        var eventID :| eventID in ids;
        if eventID !in topicsMap {
          topics := topics + [eventID];
          topicsMap := topicsMap + {eventID};
        }
        ids := ids - {eventID};
      }
      HandledExtend(contracts, i);
      assert contracts[..i + 1][..i] == contracts[..i];
    }
    assert contracts[..|contracts|] == contracts;
    ix := Index(addresses, topics, addressToHandlers);
    IndexMeans(contracts, ix);
  }

  lemma IndexMeans(contracts: seq<ContractConfig>, ix: Index)
    requires Indexes(contracts, ix)
    ensures ix.addressToHandlers.Keys == set c | c in contracts :: c.address
    ensures forall i :: 0 <= i < |contracts| && (forall j :: i < j < |contracts| ==> contracts[j].address != contracts[i].address)
                        ==> contracts[i].address in ix.addressToHandlers
                            && ix.addressToHandlers[contracts[i].address] == contracts[i].eventHandlers
    ensures forall t :: t in ix.topics <==> exists c :: c in contracts && t in c.eventHandlers
  {
    forall a: Address ensures a in ix.addressToHandlers <==> exists c :: c in contracts && c.address == a {
      LastAtMeans(contracts, a);
    }
    forall i | 0 <= i < |contracts| && forall j :: i < j < |contracts| ==> contracts[j].address != contracts[i].address
      ensures contracts[i].address in ix.addressToHandlers
      ensures ix.addressToHandlers[contracts[i].address] == contracts[i].eventHandlers
    {
      LastAtMeans(contracts, contracts[i].address);
    }
    forall t ensures t in ix.topics <==> exists c :: c in contracts && t in c.eventHandlers {
      HandledMeans(contracts, t);
    }
  }

  lemma HandledMeans(contracts: seq<ContractConfig>, t: Hash)
    ensures Handled(contracts, t) <==> exists c :: c in contracts && t in c.eventHandlers
  {
    if c :| c in contracts && t in c.eventHandlers {
      var i :| 0 <= i < |contracts| && contracts[i] == c;
      assert Handled(contracts, t);
    }
  }

  lemma HandledExtend(contracts: seq<ContractConfig>, i: nat)
    requires i < |contracts|
    ensures forall t :: Handled(contracts[..i + 1], t) <==> Handled(contracts[..i], t) || t in contracts[i].eventHandlers
  {
    forall t ensures Handled(contracts[..i + 1], t) <==> Handled(contracts[..i], t) || t in contracts[i].eventHandlers {
      if t in contracts[i].eventHandlers {
        assert contracts[..i + 1][i] == contracts[i];
      }
      if Handled(contracts[..i], t) {
        var k :| 0 <= k < i && t in contracts[..i][k].eventHandlers;
        assert contracts[..i + 1][k] == contracts[..i][k];
      }
      if Handled(contracts[..i + 1], t) {
        var k :| 0 <= k < i + 1 && t in contracts[..i + 1][k].eventHandlers;
        assert k < i ==> contracts[..i][k] == contracts[..i + 1][k];
      }
    }
  }

  /** Who takes a step: the caller of Start, the poller goroutine, a worker, whoever cancels the
      context, or the caller of Stop. */
  datatype Actor = Starter | PollerLoop | WorkerNo(w: nat) | Canceler | Stopper

  function ActorOf(a: Action): Actor {
    match a
    case SpawnWorker => Starter
    case SpawnPoller => Starter
    case Take(w) => WorkerNo(w)
    case Finish(w, _) => WorkerNo(w)
    case ExitDone(w) => WorkerNo(w)
    case ExitClosed(w) => WorkerNo(w)
    case Cancel => Canceler
    case CallStop => Stopper
    case StopReturns => Stopper
    case _ => PollerLoop
  }

  /** What the others never touch while one of them is at its own code. */
  ghost predicate Undisturbed(me: Actor, s: State, t: State) {
    && (s.ctxDone ==> t.ctxDone) && (s.closed ==> t.closed)
    && match me
       case Starter => s.poller.NotStarted? ==> t.poller.NotStarted? && |t.workers| == |s.workers|
       case PollerLoop =>
         !s.poller.NotStarted? ==>
           && t.poller == s.poller && t.cursor == s.cursor && t.closed == s.closed && t.watcherWg == s.watcherWg
           && t.h.offered == s.h.offered && t.h.fates == s.h.fates
           && t.h.windows == s.h.windows && t.h.maxHead == s.h.maxHead
       case WorkerNo(w) => w < |s.workers| ==> w < |t.workers| && t.workers[w] == s.workers[w]
       case Canceler => t.ctxDone == s.ctxDone
       case Stopper => t.quit == s.quit
  }

  lemma OthersLeavePoller(c: Config, s: State, a: Action)
    requires Enabled(c, s, a) && ActorOf(a) != PollerLoop
    ensures Undisturbed(PollerLoop, s, Step(c, s, a))
  {
  }

  lemma OthersLeaveWorker(c: Config, w: nat, s: State, a: Action)
    requires Enabled(c, s, a) && ActorOf(a) != WorkerNo(w)
    ensures Undisturbed(WorkerNo(w), s, Step(c, s, a))
  {
  }

  lemma OthersStep(c: Config, me: Actor, s: State, a: Action)
    requires Enabled(c, s, a) && ActorOf(a) != me
    ensures Undisturbed(me, s, Step(c, s, a))
  {
    match me
    case PollerLoop =>
      hide Step, Undisturbed;
      OthersLeavePoller(c, s, a);
    case WorkerNo(w) =>
      hide Step, Undisturbed;
      OthersLeaveWorker(c, w, s, a);
    case _ =>
  }

  /** One more step of a run, from origin and from the beginning. */
  lemma Extend(c: Config, origin: State, s: State, a: Action, t: State)
    requires Reaches(c, origin, s) && Reachable(c, s) && Enabled(c, s, a) && t == Step(c, s, a)
    ensures Reaches(c, origin, t) && Reachable(c, t)
  {
    ReachesOne(c, s, a);
    ReachesTrans(c, origin, s, t);
    ReachesTrans(c, Init(), s, t);
  }

  /** The tables, if there are any, are the replay of the jobs applied, and the jobs finished are among
      those. */
  ghost predicate Tracks(tables: Option<Db>, base: Db, abi: H.Abi, applied: seq<EventJob>, finished: seq<EventJob>) {
    && (tables.Some? ==> tables.value == Replay(base, H.WritesOf(abi, applied)))
    && forall job :: job in finished ==> job in applied
  }

  lemma TracksMore(tables: Option<Db>, later: Option<Db>, base: Db, abi: H.Abi, applied: seq<EventJob>,
                   finished: seq<EventJob>, job: EventJob)
    requires Tracks(tables, base, abi, applied, finished)
    requires tables.Some? <==> later.Some?
    requires tables.Some? ==> later.value == H.ApplyJob(abi, tables.value, job)
    ensures Tracks(later, base, abi, applied + [job], finished)
  {
    hide Replay, H.WritesOf, H.ApplyJob;
    H.ReplayJob(abi, base, applied, job);
  }

  /** more is before, then anything, then the job. */
  ghost predicate Appended(before: seq<EventJob>, more: seq<EventJob>, job: EventJob) {
    |before| < |more| && before <= more && more[|more| - 1] == job
  }

  class Watcher {
    const config: WatcherConfig
    const node: Node
    const ix: Index
    // What the handlers get through their context and their bindings.
    const db: S.Store?
    const abi: H.Abi
    ghost const base: Db

    var currentBlock: u64
    var jobQueue: seq<EventJob>
    var queueClosed: bool
    var quit: Quit
    var watcherWg: int
    var workerWg: int
    // The goroutines and the context, which the struct does not hold.
    var poller: Poller
    var workers: seq<Worker>
    var ctxDone: bool
    var panicked: bool
    var journal: History
    // The jobs whose handlers have run over the store, this watcher's and others'.
    ghost var applied: seq<EventJob>

    /** The machine this watcher is. */
    function Settings(): Config
      requires config.workerCount > 0 && config.queueSize > 0
    {
      Config(config.startBlock, config.maxBlockSpan, config.workerCount, config.queueSize, config.contracts, ix, node)
    }

    function View(): State
      reads this
    {
      State(currentBlock, poller, jobQueue, queueClosed, workers, ctxDone, quit, watcherWg, workerWg, panicked, journal)
    }

    /** The store holds the replay of the jobs applied, and what this watcher's workers have finished
        is among them. */
    ghost predicate Tracked()
      reads this, db
    {
      Tracks(H.Carried(db), base, abi, applied, journal.finished)
    }

    /** The fields are where some run of the machine can be. */
    ghost predicate Valid()
      reads this, db
    {
      && config.workerCount > 0 && config.queueSize > 0
      && WellFormed(Settings()) && Reachable(Settings(), View()) && Tracked()
    }

    constructor (config: WatcherConfig, node: Node, ix: Index, db: S.Store?, abi: H.Abi)
      requires config.workerCount > 0 && config.queueSize > 0 && Indexes(config.contracts, ix)
      ensures this.config == config && this.node == node && this.db == db && this.abi == abi
      ensures Valid() && View() == Init() && applied == []
    {
      this.config, this.node, this.ix, this.db, this.abi := config, node, ix, db, abi;
      base := if db == null then Db(map[], map[]) else db.Tables();
      applied := [];
      currentBlock, jobQueue, queueClosed, quit := 0, [], false, QuitOpen;
      watcherWg, workerWg := 0, 0;
      poller, workers, ctxDone, panicked := NotStarted, [], false, false;
      journal := History([], [], [], [], [], 0);
      new;
      ReachesSelf(Settings(), Init());
    }

    static method NewWatcher(config: WatcherConfig, node: Node, db: S.Store?, abi: H.Abi) returns (w: Watcher?, err: ConfigError)
      ensures err == if !config.hasClient then NoClient
                     else if !config.hasLogger then NoLogger
                     else if config.workerCount <= 0 then BadWorkerCount
                     else if config.queueSize <= 0 then BadQueueSize
                     else NoConfigError
      ensures w != null <==> err == NoConfigError
      ensures w != null ==> fresh(w) && w.config == config && w.node == node && w.db == db && w.Valid() && w.View() == Init()
    {
      w := null;
      if !config.hasClient { return w, NoClient; }
      if !config.hasLogger { return w, NoLogger; }
      if config.workerCount <= 0 { return w, BadWorkerCount; }
      if config.queueSize <= 0 { return w, BadQueueSize; }
      var ix := BuildIndex(config.contracts);
      w := new Watcher(config, node, ix, db, abi);
      return w, NoConfigError;
    }

    lemma Unpanicked()
      requires Valid()
      ensures !panicked && |jobQueue| <= config.queueSize
      ensures queueClosed <==> poller.Draining? || poller == Returned(ByDone)
      ensures watcherWg == if poller.NotStarted? || poller.Returned? then 0 else 1
    {
      ReachableInv(Settings(), View());
    }

    /** Some worker runs a handler that panics, which ends the process. */
    predicate Crashing()
      reads this
    {
      db != null && exists w :: 0 <= w < |workers| && workers[w].Busy? && H.Panics(workers[w].job)
    }

    /** A handler's run over the store. */
    method Handle(job: EventJob) returns (crashed: bool)
      requires Tracked()
      modifies this`applied, db
      ensures Tracked()
      ensures crashed <==> db != null && H.Panics(job)
      ensures applied == old(applied) + if crashed then [] else [job]
    {
      hide Tracks, H.WriteOf;
      ghost var tables := H.Carried(db);
      var err := H.RunHandler(db, abi, job);
      crashed := err == H.Panicked;
      if crashed {
        H.PanicWritesNothing(abi, job);
      } else {
        TracksMore(tables, H.Carried(db), base, abi, applied, journal.finished, job);
        applied := applied + [job];
      }
    }

    /** One step of someone else; if a worker finishes, its handler has run. */
    method Perform(me: Actor, a: Action) returns (crashed: bool)
      requires Valid() && ActorOf(a) != me && Enabled(Settings(), View(), a)
      modifies this, db
      ensures Valid() && Reaches(Settings(), old(View()), View()) && Undisturbed(me, old(View()), View())
      ensures old(applied) <= applied
      ensures if crashed then View() == old(View()) && Crashing() else View() == Step(Settings(), old(View()), a)
    {
      hide Tracks, Reaches;
      ghost var before := View();
      ReachesSelf(Settings(), before);
      OthersStep(Settings(), me, before, a);
      FinishedGrows(Settings(), before, a);
      crashed := false;
      if a.Finish? {
        crashed := Handle(workers[a.w].job);
        assert View() == before;
        if crashed {
          return;
        }
      }
      Advance(a);
    }

    /** The machine's step, taken by the fields; a job that it finishes has been applied. */
    method Advance(a: Action)
      requires Valid() && Enabled(Settings(), View(), a)
      requires a.Finish? ==> workers[a.w].job in applied
      modifies this
      ensures Valid() && Reaches(Settings(), old(View()), View()) && View() == Step(Settings(), old(View()), a)
      ensures applied == old(applied)
    {
      hide Indexes, Reaches;
      ghost var before := View();
      var t := Step(Settings(), View(), a);
      FinishedGrows(Settings(), before, a);
      ReachesSelf(Settings(), before);
      Extend(Settings(), before, before, a, t);
      hide Step, Enabled;
      currentBlock, poller, jobQueue, queueClosed, workers := t.cursor, t.poller, t.queue, t.closed, t.workers;
      ctxDone, quit, watcherWg, workerWg, panicked, journal := t.ctxDone, t.quit, t.watcherWg, t.workerWg, t.panicked, t.h;
      assert View() == t;
    }

    /** What other watchers' workers write to the store. */
    method Elsewhere()
      requires Valid()
      modifies this`applied, db
      ensures Valid() && View() == old(View()) && old(applied) <= applied
    {
      var jobs: nat := *;
      while jobs > 0
        invariant Valid() && View() == old(View()) && old(applied) <= applied
      {
        var job: EventJob := *;
        var _ := Handle(job);
        jobs := jobs - 1;
      }
    }

    /** Any steps everyone else takes before my next one. */
    method Interference(me: Actor)
      requires Valid()
      modifies this, db
      ensures Valid() && Reaches(Settings(), old(View()), View()) && Undisturbed(me, old(View()), View())
      ensures old(applied) <= applied
    {
      hide Tracks, Reaches, Step, Enabled;
      ghost var origin := View();
      ReachesSelf(Settings(), origin);
      var steps: nat := *;
      while steps > 0
        invariant Valid() && Reaches(Settings(), origin, View()) && Undisturbed(me, origin, View())
        invariant old(applied) <= applied
      {
        Elsewhere();
        var a: Action := *;
        if ActorOf(a) != me && Enabled(Settings(), View(), a) {
          ghost var mid := View();
          var _ := Perform(me, a);
          ReachesTrans(Settings(), origin, mid, View());
        }
        steps := steps - 1;
      }
    }

    /** Start: spawn the workers one by one, set the cursor, spawn the poller. */
    method Start()
      requires Valid() && poller.NotStarted? && workers == []
      modifies this, db
      ensures old(applied) <= applied
      ensures Valid() && Reaches(Settings(), old(View()), View())
      ensures poller == Selecting && currentBlock == config.startBlock && |workers| == config.workerCount
    {
      hide Indexes, Tracks, Reaches;
      ghost var origin := View();
      ReachesSelf(Settings(), origin);
      for i := 0 to config.workerCount
        invariant Valid() && Reaches(Settings(), origin, View()) && poller.NotStarted? && |workers| == i
        invariant old(applied) <= applied
      {
        ghost var s := View();
        Unpanicked();
        workerWg := workerWg + 1;
        workers := workers + [Ready];
        Extend(Settings(), origin, s, SpawnWorker, View());
        ghost var mid := View();
        Interference(Starter);
        ReachesTrans(Settings(), origin, mid, View());
      }
      ghost var s := View();
      Unpanicked();
      currentBlock := config.startBlock;
      watcherWg := watcherWg + 1;
      poller := Selecting;
      Extend(Settings(), origin, s, SpawnPoller, View());
    }

    /** The jobs of a window whose logs from the i-th on are still to be looked at. */
    function Left(w: Window, logs: seq<Log>, i: nat): Poller
      requires i <= |logs|
    {
      Dispatching(w, Route(ix, logs[i..]))
    }

    lemma LookAt(logs: seq<Log>, i: nat)
      requires i < |logs|
      ensures Route(ix, logs[i..]) == AsList(Lookup(ix, logs[i])) + Route(ix, logs[i + 1..])
    {
      assert logs[i..][1..] == logs[i + 1..];
    }

    lemma LookedAtAll(logs: seq<Log>)
      ensures Route(ix, logs[|logs|..]) == []
    {
      assert logs[|logs|..] == [];
    }

    lemma Looked(log: Log)
      ensures var found := log.address in ix.addressToHandlers && log.topics != [] && log.topics[0] in ix.addressToHandlers[log.address];
              AsList(Lookup(ix, log)) == if found then [EventJob(log, ix.addressToHandlers[log.address][log.topics[0]])] else []
    {
    }

    /** The FilterLogs call of a window. */
    method FetchLogs(fromBlock: u64, toBlock: u64, filterOk: bool) returns (logs: seq<Log>)
      requires Valid() && poller == Fetching(Window(fromBlock, toBlock))
      modifies this, db
      ensures old(applied) <= applied
      ensures Valid() && Reaches(Settings(), old(View()), View())
      ensures currentBlock == old(currentBlock) && journal.windows == old(journal.windows)
      ensures journal.offered == old(journal.offered)
      ensures forall l :: l in logs ==> l.topics != []
      ensures !filterOk ==> poller == Selecting
      ensures filterOk ==>
                && logs == FilterLogs(node, ToInt64(fromBlock), ToInt64(toBlock), ix.addresses, ix.topics)
                && poller == Left(Window(fromBlock, toBlock), logs, 0)
    {
      hide Tracks, Reaches;
      ghost var origin := View();
      Interference(PollerLoop);
      Unpanicked();
      ghost var s := View();
      if filterOk {
        logs := FilterLogs(node, ToInt64(fromBlock), ToInt64(toBlock), ix.addresses, ix.topics);
        assert logs[0..] == logs;
        poller := Left(Window(fromBlock, toBlock), logs, 0);
        Extend(Settings(), origin, s, Fetched, View());
      } else {
        logs := [];
        poller := Selecting;
        Extend(Settings(), origin, s, FetchFailed, View());
      }
    }

    /** The select around one send: the channel if it has room, ctx.Done if it is done, either if
        both are ready, default if neither is. */
    method Offer(job: EventJob, ghost origin: State) returns (canceled: bool)
      requires Valid() && Reaches(Settings(), origin, View())
      requires poller.Dispatching? && poller.rest != [] && poller.rest[0] == job
      modifies this, db
      ensures old(applied) <= applied
      ensures Valid() && Reaches(Settings(), origin, View())
      ensures currentBlock == old(currentBlock) && journal.windows == old(journal.windows)
      ensures canceled ==> ctxDone && poller == Aborted(old(poller.window), old(poller.rest)) && journal.offered == old(journal.offered)
      ensures !canceled ==>
                && poller == Dispatching(old(poller.window), old(poller.rest)[1..])
                && journal.offered == old(journal.offered) + [job]
                && |journal.fates| == |old(journal.fates)| + 1 && old(journal.fates) <= journal.fates
                && (if journal.fates[|old(journal.fates)|]
                    then jobQueue != [] && jobQueue[|jobQueue| - 1] == job
                    else |jobQueue| == config.queueSize && !ctxDone)
    {
      hide Tracks, Reaches;
      ghost var start := View();
      Interference(PollerLoop);
      ReachesTrans(Settings(), origin, start, View());
      canceled := Select(job, origin);
    }

    method Select(job: EventJob, ghost origin: State) returns (canceled: bool)
      requires Valid() && Reaches(Settings(), origin, View())
      requires poller.Dispatching? && poller.rest != [] && poller.rest[0] == job
      modifies this
      ensures Valid() && Reaches(Settings(), origin, View()) && applied == old(applied)
      ensures currentBlock == old(currentBlock) && journal.windows == old(journal.windows)
      ensures canceled ==> ctxDone && poller == Aborted(old(poller.window), old(poller.rest)) && journal.offered == old(journal.offered)
      ensures !canceled ==>
                && poller == Dispatching(old(poller.window), old(poller.rest)[1..])
                && journal.offered == old(journal.offered) + [job]
                && |journal.fates| == |old(journal.fates)| + 1 && old(journal.fates) <= journal.fates
                && (if journal.fates[|old(journal.fates)|]
                    then jobQueue != [] && jobQueue[|jobQueue| - 1] == job
                    else |jobQueue| == config.queueSize && !ctxDone)
    {
      hide Indexes, Tracks, Reaches;
      ghost var c := Settings();
      Unpanicked();
      ghost var s := View();
      var doneWins: bool := *;
      if |jobQueue| < config.queueSize && !(ctxDone && doneWins) {
        jobQueue := jobQueue + [job];
        journal := journal.(offered := journal.offered + [job], fates := journal.fates + [true]);
        poller := Dispatching(poller.window, poller.rest[1..]);
        Extend(c, origin, s, Send, View());
        return false;
      } else if ctxDone {
        poller := Aborted(poller.window, poller.rest);
        Extend(c, origin, s, Abort, View());
        return true;
      } else {
        journal := journal.(offered := journal.offered + [job], fates := journal.fates + [false]);
        poller := Dispatching(poller.window, poller.rest[1..]);
        Extend(c, origin, s, Drop, View());
        return false;
      }
    }

    /** The loop over a window's logs: look each up, offer the ones that are routed. */
    method DispatchLogs(window: Window, logs: seq<Log>) returns (canceled: bool)
      requires Valid() && poller == Left(window, logs, 0) && forall l :: l in logs ==> l.topics != []
      modifies this, db
      ensures old(applied) <= applied
      ensures Valid() && Reaches(Settings(), old(View()), View())
      ensures currentBlock == old(currentBlock) && journal.windows == old(journal.windows)
      ensures !canceled ==>
                poller == Dispatching(window, []) && journal.offered == old(journal.offered) + Route(ix, logs)
      ensures canceled ==>
                && ctxDone && poller.Aborted? && poller.rest != []
                && journal.offered + poller.rest == old(journal.offered) + Route(ix, logs)
    {
      hide Tracks, Reaches, WellFormed, Route, Lookup;
      LookedAtAll(logs);
      ghost var origin := View();
      ReachesSelf(Settings(), origin);
      assert logs[0..] == logs;
      var i := 0;
      while i < |logs|
        invariant 0 <= i <= |logs|
        invariant Valid() && Reaches(Settings(), origin, View()) && poller == Left(window, logs, i)
        invariant currentBlock == old(currentBlock) && journal.windows == old(journal.windows)
        invariant old(applied) <= applied
        invariant journal.offered + Route(ix, logs[i..]) == old(journal.offered) + Route(ix, logs)
      {
        var log := logs[i];
        LookAt(logs, i);
        Looked(log);
        if log.address in ix.addressToHandlers {
          var handlers := ix.addressToHandlers[log.address];
          if log.topics[0] in handlers {
            canceled := Offer(EventJob(log, handlers[log.topics[0]]), origin);
            if canceled {
              return;
            }
          }
        }
        i := i + 1;
      }
      assert journal.offered == journal.offered + [];
      canceled := false;
    }

    /** The dispatch of one window. filterOk is whether FilterLogs answers. */
    method ProcessAllContractEvents(fromBlock: u64, toBlock: u64, filterOk: bool) returns (err: PollError)
      requires Valid() && poller == Fetching(Window(fromBlock, toBlock))
      modifies this, db
      ensures old(applied) <= applied
      ensures Valid() && Reaches(Settings(), old(View()), View())
      ensures currentBlock == old(currentBlock) && journal.windows == old(journal.windows)
      ensures err in {NoError, FilterFailed, Canceled} && (err == FilterFailed <==> !filterOk)
      ensures err == FilterFailed ==> poller == Selecting && journal.offered == old(journal.offered)
      ensures err == NoError ==>
                && poller == Dispatching(Window(fromBlock, toBlock), [])
                && journal.offered == old(journal.offered) + WindowJobs(Settings(), Window(fromBlock, toBlock))
      ensures err == Canceled ==>
                && ctxDone && poller.Aborted? && poller.rest != []
                && journal.offered + poller.rest == old(journal.offered) + WindowJobs(Settings(), Window(fromBlock, toBlock))
    {
      hide Tracks, Reaches;
      ghost var origin := View();
      var logs := FetchLogs(fromBlock, toBlock, filterOk);
      if !filterOk {
        return FilterFailed;
      }
      ghost var fetched := View();
      var canceled := DispatchLogs(Window(fromBlock, toBlock), logs);
      ReachesTrans(Settings(), origin, fetched, View());
      return if canceled then Canceled else NoError;
    }

    /** What a head answer makes of the poll: the next window, if the head is past the cursor. */
    method BeginWindow(latestBlock: u64) returns (fromBlock: u64, toBlock: u64)
      requires Valid() && poller == Selecting
      modifies this
      ensures Valid() && Reaches(Settings(), old(View()), View()) && applied == old(applied)
      ensures currentBlock == old(currentBlock) && journal.windows == old(journal.windows)
      ensures journal.offered == old(journal.offered)
      ensures latestBlock <= currentBlock ==> poller == Selecting
      ensures latestBlock > currentBlock ==>
                && poller == Fetching(Window(fromBlock, toBlock)) && fromBlock == currentBlock + 1
                && toBlock == Min(latestBlock, currentBlock + config.maxBlockSpan + 1)
    {
      hide Indexes, Tracks, Reaches;
      ghost var origin := View();
      Unpanicked();
      ReachesSelf(Settings(), origin);
      fromBlock, toBlock := currentBlock, currentBlock;
      journal := journal.(maxHead := if latestBlock > journal.maxHead then latestBlock else journal.maxHead);
      if latestBlock > currentBlock {
        fromBlock := Add64(currentBlock, 1);
        toBlock := latestBlock;
        if Sub64(toBlock, fromBlock) > config.maxBlockSpan {
          toBlock := Add64(fromBlock, config.maxBlockSpan);
        }
        assert NextWindow(currentBlock, latestBlock, config.maxBlockSpan) == Some(Window(fromBlock, toBlock));
        poller := Fetching(Window(fromBlock, toBlock));
      }
      Extend(Settings(), origin, origin, Poll(Some(latestBlock)), View());
    }

    method CommitWindow(fromBlock: u64, toBlock: u64)
      requires Valid() && poller == Dispatching(Window(fromBlock, toBlock), [])
      modifies this
      ensures Valid() && Reaches(Settings(), old(View()), View()) && applied == old(applied)
      ensures poller == Selecting && currentBlock == toBlock
      ensures journal == old(journal).(windows := old(journal.windows) + [Window(fromBlock, toBlock)])
    {
      hide Tracks, Reaches;
      ghost var s := View();
      Unpanicked();
      ReachesSelf(Settings(), s);
      currentBlock := toBlock;
      journal := journal.(windows := journal.windows + [Window(fromBlock, toBlock)]);
      poller := Selecting;
      Extend(Settings(), s, s, Commit, View());
    }

    /** One poll. latest is BlockNumber's answer, None if it fails. */
    method PollEvents(latest: Option<u64>, filterOk: bool) returns (err: PollError)
      requires Valid() && poller == Selecting
      modifies this, db
      ensures old(applied) <= applied
      ensures Valid() && Reaches(Settings(), old(View()), View())
      ensures err == HeadFailed <==> latest.None?
      ensures err == FilterFailed <==> latest.Some? && latest.value > old(currentBlock) && !filterOk
      ensures err in {HeadFailed, FilterFailed} || (latest.Some? && latest.value <= old(currentBlock)) ==>
                && poller == Selecting && currentBlock == old(currentBlock)
                && journal.windows == old(journal.windows) && journal.offered == old(journal.offered)
      ensures latest.Some? && latest.value > old(currentBlock) && err == NoError ==>
                && poller == Selecting
                && currentBlock == Min(latest.value, old(currentBlock) + config.maxBlockSpan + 1)
                && journal.windows == old(journal.windows) + [Window(old(currentBlock) + 1, currentBlock)]
                && journal.offered == old(journal.offered) + WindowJobs(Settings(), Window(old(currentBlock) + 1, currentBlock))
      ensures err == Canceled ==>
                && ctxDone && poller.Aborted? && currentBlock == old(currentBlock) && journal.windows == old(journal.windows)
                && latest.Some? && latest.value > old(currentBlock) && filterOk
                && var to := Min(latest.value, old(currentBlock) + config.maxBlockSpan + 1);
                   journal.offered + poller.rest == old(journal.offered) + WindowJobs(Settings(), Window(old(currentBlock) + 1, to))
    {
      hide Indexes, Tracks, Reaches;
      ghost var origin := View();
      ReachesSelf(Settings(), origin);
      if latest.None? {
        return HeadFailed;
      }
      var fromBlock, toBlock := BeginWindow(latest.value);
      if latest.value <= currentBlock {
        return NoError;
      }
      ghost var polled := View();
      err := ProcessAllContractEvents(fromBlock, toBlock, filterOk);
      ReachesTrans(Settings(), origin, polled, View());
      if err == NoError {
        ghost var sent := View();
        CommitWindow(fromBlock, toBlock);
        ReachesTrans(Settings(), origin, sent, View());
      }
    }

    lemma SomeoneLeft()
      requires Valid() && workerWg != 0
      ensures exists w :: 0 <= w < |workers| && !workers[w].Exited?
    {
      ReachableInv(Settings(), View());
      if forall w :: 0 <= w < |workers| ==> workers[w].Exited? {
        NoneAlive(workers);
      }
    }

    /** A step of anyone but the poller, when it waits for a worker to leave. */
    method SomeStep() returns (a: Action)
      requires Valid() && poller == Draining && ctxDone && workerWg != 0
      ensures ActorOf(a) != PollerLoop && Enabled(Settings(), View(), a)
    {
      Unpanicked();
      a := *;
      if ActorOf(a) == PollerLoop || !Enabled(Settings(), View(), a) {
        SomeoneLeft();
        var w: nat :| w < |workers| && !workers[w].Exited?;
        a := if workers[w].Busy? then Finish(w, false) else ExitDone(w);
      }
    }

    /** The wait for the workers: whatever everyone does meanwhile, it ends. */
    method AwaitWorkers(ghost origin: State) returns (returned: bool)
      requires Valid() && Reaches(Settings(), origin, View()) && poller == Draining && ctxDone
      modifies this, db
      ensures old(applied) <= applied
      ensures Valid() && Reaches(Settings(), origin, View()) && ctxDone && poller == Draining
      ensures currentBlock == old(currentBlock) && journal.windows == old(journal.windows) && journal.offered == old(journal.offered)
      ensures if returned then workerWg == 0 else Crashing()
    {
      hide Tracks, Reaches, Step, Enabled;
      while workerWg != 0
        invariant Valid() && Reaches(Settings(), origin, View()) && ctxDone && poller == Draining
        invariant currentBlock == old(currentBlock) && journal.windows == old(journal.windows) && journal.offered == old(journal.offered)
        invariant old(applied) <= applied
        decreases Remaining(View())
      {
        Elsewhere();
        var a := SomeStep();
        ghost var mid := View();
        RemainingDecreases(Settings(), mid, a);
        var crashed := Perform(PollerLoop, a);
        ReachesTrans(Settings(), origin, mid, View());
        if crashed {
          return false;
        }
      }
      return true;
    }

    method CloseQueue()
      requires Valid() && poller == Selecting && ctxDone
      modifies this
      ensures Valid() && Reaches(Settings(), old(View()), View()) && applied == old(applied)
      ensures View() == old(View()).(closed := true, poller := Draining)
    {
      hide Indexes, Tracks, Reaches;
      ghost var s := View();
      ReachesSelf(Settings(), s);
      Unpanicked();
      queueClosed := true;
      poller := Draining;
      Extend(Settings(), s, s, SeeDone, View());
    }

    /** The ctx.Done case: close the channel, wait for the workers, return; false only if a handler's
        panic ends the process meanwhile. */
    method CloseAndWait() returns (returned: bool)
      requires Valid() && poller == Selecting && ctxDone
      modifies this, db
      ensures old(applied) <= applied
      ensures Valid() && Reaches(Settings(), old(View()), View()) && ctxDone && queueClosed
      ensures currentBlock == old(currentBlock) && journal.windows == old(journal.windows) && journal.offered == old(journal.offered)
      ensures if returned then poller == Returned(ByDone) && workerWg == 0 else poller == Draining && Crashing()
    {
      hide Indexes, Tracks, Reaches;
      ghost var origin := View();
      CloseQueue();
      returned := AwaitWorkers(origin);
      ghost var last := View();
      Unpanicked();
      if returned {
        watcherWg := watcherWg - 1;
        poller := Returned(ByDone);
        Extend(Settings(), origin, last, WorkersDone, View());
      }
    }

    /** The quit case. */
    method LeaveOnQuit()
      requires Valid() && poller == Selecting && quit == QuitClosed
      modifies this
      ensures Valid() && Reaches(Settings(), old(View()), View()) && applied == old(applied)
      ensures View() == old(View()).(poller := Returned(ByQuit), watcherWg := old(watcherWg) - 1)
    {
      hide Indexes, Tracks, Reaches;
      ghost var s := View();
      ReachesSelf(Settings(), s);
      Unpanicked();
      watcherWg := watcherWg - 1;
      poller := Returned(ByQuit);
      Extend(Settings(), s, s, SeeQuit, View());
    }

    /** The return on context.Canceled. */
    method LeaveCanceled(ghost origin: State)
      requires Valid() && Reaches(Settings(), origin, View()) && poller.Aborted?
      modifies this
      ensures Valid() && Reaches(Settings(), origin, View()) && applied == old(applied)
      ensures View() == old(View()).(poller := Returned(ByAbort(old(poller.window), old(poller.rest))), watcherWg := old(watcherWg) - 1)
    {
      hide Indexes, Tracks, Reaches;
      ghost var s := View();
      Unpanicked();
      watcherWg := watcherWg - 1;
      poller := Returned(ByAbort(poller.window, poller.rest));
      Extend(Settings(), origin, s, ReturnCanceled, View());
    }

    /** One turn of the poller's loop: whichever of its three cases is ready and chosen; it is called
        when one is. Without a tick it can only end. It moves the cursor exactly when it goes on after a
        head past the cursor and an answered filter. */
    method PollerTurn(tick: bool, latest: Option<u64>, filterOk: bool) returns (returned: bool)
      requires Valid() && poller == Selecting
      requires tick || ctxDone || quit == QuitClosed
      modifies this, db
      ensures old(applied) <= applied
      ensures Valid() && Reaches(Settings(), old(View()), View())
      ensures returned <==> poller.Returned?
      ensures !returned ==> poller == Selecting || (poller == Draining && old(ctxDone) && queueClosed && Crashing())
      ensures !tick ==> returned || (queueClosed && Crashing())
      ensures !tick && old(quit) != QuitClosed ==> queueClosed
      ensures !tick && !old(ctxDone) ==> poller == Returned(ByQuit)
      ensures returned && poller.how == ByQuit ==> old(quit) == QuitClosed && queueClosed == old(queueClosed)
      ensures returned && poller.how == ByDone ==> old(ctxDone) && queueClosed && workerWg == 0
      ensures returned && poller.how.ByAbort? ==> ctxDone && tick
      ensures var w := NextWindow(old(currentBlock), if latest.Some? then latest.value else 0, config.maxBlockSpan);
              if poller == Selecting && w.Some? && filterOk
              then
                && currentBlock == w.value.last && journal.windows == old(journal.windows) + [w.value]
                && journal.offered == old(journal.offered) + WindowJobs(Settings(), w.value)
              else
                && currentBlock == old(currentBlock) && journal.windows == old(journal.windows)
                && if returned && poller.how.ByAbort?
                   then w.Some? && filterOk && journal.offered + poller.how.rest == old(journal.offered) + WindowJobs(Settings(), w.value)
                   else journal.offered == old(journal.offered)
    {
      hide Indexes, Tracks, Reaches, WindowJobs, NextWindow;
      ghost var origin := View();
      var chooseDone: bool := *;
      var chooseQuit: bool := *;
      if ctxDone && (chooseDone || (!tick && quit != QuitClosed)) {
        returned := CloseAndWait();
      } else if quit == QuitClosed && (chooseQuit || !tick) {
        LeaveOnQuit();
        returned := true;
      } else {
        var err := PollEvents(latest, filterOk);
        if err == Canceled {
          LeaveCanceled(origin);
        }
        returned := err == Canceled;
      }
    }

    lemma LiveWorker(s: State, w: nat)
      requires config.workerCount > 0 && config.queueSize > 0 && WellFormed(Settings()) && Reachable(Settings(), s)
      requires Idle(s, w)
      ensures s.workerWg > 0
    {
      ReachableInv(Settings(), s);
      SumBounds(Alive, s.workers, w);
    }

    method ReceiveJob(w: nat)
      requires Valid() && Idle(View(), w) && jobQueue != []
      modifies this
      ensures Valid() && Reaches(Settings(), old(View()), View()) && applied == old(applied)
      ensures w < |workers| && workers[w] == Busy(old(jobQueue)[0])
    {
      hide Tracks, Reaches;
      ghost var s := View();
      ReachesSelf(Settings(), s);
      Unpanicked();
      var job := jobQueue[0];
      jobQueue := jobQueue[1..];
      workers := workers[w := Busy(job)];
      journal := journal.(taken := journal.taken + [job]);
      Extend(Settings(), s, s, Take(w), View());
    }

    /** The handlers of this repository never report context.Canceled, so the worker goes on, unless a
        panic ends the process. */
    method RunJob(w: nat, job: EventJob, ghost origin: State) returns (crashed: bool)
      requires Valid() && Reaches(Settings(), origin, View()) && w < |workers| && workers[w] == Busy(job)
      modifies this, db
      ensures Valid() && Reaches(Settings(), origin, View())
      ensures crashed <==> db != null && H.Panics(job)
      ensures w < |workers| && workers[w] == if crashed then Busy(job) else Ready
      ensures if crashed then old(applied) <= applied else Appended(old(applied), applied, job)
    {
      hide Tracks, Reaches;
      ghost var start := View();
      Interference(WorkerNo(w));
      ReachesTrans(Settings(), origin, start, View());
      ghost var s := View();
      Unpanicked();
      crashed := Handle(job);
      assert View() == s;
      if !crashed {
        Advance(Finish(w, false));
        ReachesTrans(Settings(), origin, s, View());
      }
    }

    /** One turn of a worker's loop: leave on a done context or a closed and drained channel, or
        receive a job and run its handler. It is called when one of the two cases is ready. Whatever
        everyone else writes meanwhile, the statement of the job is the last one of the turn. */
    method WorkerTurn(w: nat) returns (exits: bool, ran: Option<EventJob>)
      requires Valid() && Idle(View(), w) && (ctxDone || jobQueue != [] || queueClosed)
      modifies this, db
      ensures Valid() && Reaches(Settings(), old(View()), View())
      ensures exits <==> ran.None?
      ensures exits ==> ctxDone || (old(queueClosed) && old(jobQueue) == [])
      ensures exits ==> w < |workers| && workers[w] == Exited && applied == old(applied)
      ensures ran.Some? ==>
                && old(jobQueue) != [] && ran.value == old(jobQueue)[0] && w < |workers|
                && if db != null && H.Panics(ran.value)
                   then workers[w] == Busy(ran.value) && old(applied) <= applied
                   else workers[w] == Ready && Appended(old(applied), applied, ran.value)
    {
      hide Indexes, Tracks, Reaches;
      ghost var origin := View();
      ReachesSelf(Settings(), origin);
      Unpanicked();
      var chooseDone: bool := *;
      if ctxDone && (chooseDone || (jobQueue == [] && !queueClosed)) {
        workers := workers[w := Exited];
        workerWg := workerWg - 1;
        LiveWorker(origin, w);
        Extend(Settings(), origin, origin, ExitDone(w), View());
        return true, None;
      }
      if jobQueue == [] {
        workers := workers[w := Exited];
        workerWg := workerWg - 1;
        LiveWorker(origin, w);
        Extend(Settings(), origin, origin, ExitClosed(w), View());
        return true, None;
      }
      var job := jobQueue[0];
      ReceiveJob(w);
      var _ := RunJob(w, job, origin);
      return false, Some(job);
    }

    /** Stop up to its wait; false where it reports that the watcher is already stopped. */
    method RequestStop() returns (ok: bool)
      requires Valid() && !quit.QuitClosed?
      modifies this
      ensures Valid() && Reaches(Settings(), old(View()), View()) && applied == old(applied)
      ensures ok <==> !old(quit).QuitNil?
      ensures quit == if ok then QuitClosed else QuitNil
      ensures jobQueue == old(jobQueue) && workers == old(workers) && poller == old(poller) && queueClosed == old(queueClosed)
    {
      hide Tracks, Reaches;
      ghost var s := View();
      ReachesSelf(Settings(), s);
      Unpanicked();
      if quit.QuitNil? {
        return false;
      }
      quit := QuitClosed;
      Extend(Settings(), s, s, CallStop, View());
      return true;
    }

    /** The rest of Stop, once its wait is over. */
    method FinishStop()
      requires Valid() && quit.QuitClosed? && watcherWg == 0
      modifies this
      ensures Valid() && Reaches(Settings(), old(View()), View()) && applied == old(applied) && quit == QuitNil
      ensures poller == old(poller) && (poller.NotStarted? || poller.Returned?)
      ensures jobQueue == old(jobQueue) && workers == old(workers)
    {
      hide Tracks, Reaches;
      ghost var s := View();
      ReachesSelf(Settings(), s);
      Unpanicked();
      quit := QuitNil;
      Extend(Settings(), s, s, StopReturns, View());
    }
  }
}
