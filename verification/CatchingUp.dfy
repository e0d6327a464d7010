/** Runs that keep up: a watcher can reach any block without losing a job, fleets of such watchers
    exist, so a restart can always repair the tables; and what lies past 2^63. */
module CatchingUp {
  import opened Bytes
  import opened Chain
  import opened Routing
  import opened Windows
  import opened Machine
  import opened Invariants
  import opened PollerTheorems
  import opened Records
  import opened Replays
  import opened Handlers
  import opened Fleet
  import opened Schedules

  // ---- One watcher ----

  lemma ReachableStep(c: Config, s: State, a: Action)
    requires Reachable(c, s) && Enabled(c, s, a)
    ensures Reachable(c, Step(c, s, a))
  {
    ReachesOne(c, s, a);
    hide Step, Enabled;
    ReachesTrans(c, Init(), s, Step(c, s, a));
  }

  /** The poller is there; nothing is queued, running or lost. */
  ghost predicate At(c: Config, s: State, p: Poller) {
    && Reachable(c, s) && s.poller == p && s.queue == [] && !s.closed && !s.panicked
    && |s.workers| == c.workerCount && (forall w :: 0 <= w < |s.workers| ==> s.workers[w].Ready?)
    && |s.h.offered| == |s.h.fates| && Lossless(s.h)
  }

  lemma {:induction false} Spawned(c: Config, n: nat) returns (s: State)
    requires n <= c.workerCount
    ensures Reachable(c, s) && s == Init().(workers := seq(n, i => Ready), workerWg := n)
  {
    if n == 0 {
      s := Init();
      ReachesSelf(c, s);
    } else {
      var before := Spawned(c, n - 1);
      s := Step(c, before, SpawnWorker);
      ReachableStep(c, before, SpawnWorker);
    }
  }

  lemma Started(c: Config) returns (s: State)
    ensures At(c, s, Selecting) && s.cursor == c.startBlock
  {
    var before := Spawned(c, c.workerCount);
    s := Step(c, before, SpawnPoller);
    ReachableStep(c, before, SpawnPoller);
  }

  /** One job sent, taken and handled. */
  lemma JobDone(c: Config, s: State, w: Window, rest: seq<EventJob>) returns (t: State)
    requires WellFormed(c) && At(c, s, Dispatching(w, rest)) && rest != []
    ensures At(c, t, Dispatching(w, rest[1..])) && t.cursor == s.cursor
  {
    hide Reaches, Indexes;
    var sent := Step(c, s, Send);
    ReachableStep(c, s, Send);
    var taken := Step(c, sent, Take(0));
    ReachableStep(c, sent, Take(0));
    t := Step(c, taken, Finish(0, false));
    ReachableStep(c, taken, Finish(0, false));
  }

  lemma {:induction false} Delivered(c: Config, s: State, w: Window, rest: seq<EventJob>) returns (t: State)
    requires WellFormed(c) && At(c, s, Dispatching(w, rest))
    ensures At(c, t, Dispatching(w, [])) && t.cursor == s.cursor
    decreases |rest|
  {
    hide At;
    if rest == [] {
      t := s;
    } else {
      var mid := JobDone(c, s, w, rest);
      t := Delivered(c, mid, w, rest[1..]);
    }
  }

  /** One window polled, fetched, delivered and committed. */
  lemma WindowDone(c: Config, s: State, head: u64) returns (t: State)
    requires WellFormed(c) && At(c, s, Selecting) && s.cursor < head
    ensures At(c, t, Selecting) && s.cursor < t.cursor <= head
  {
    hide Reaches, Indexes, WindowJobs;
    var polled := Step(c, s, Poll(Some(head)));
    ReachableStep(c, s, Poll(Some(head)));
    var w := polled.poller.window;
    var fetched := Step(c, polled, Fetched);
    ReachableStep(c, polled, Fetched);
    var done := Delivered(c, fetched, w, WindowJobs(c, w));
    t := Step(c, done, Commit);
    ReachableStep(c, done, Commit);
  }

  lemma {:induction false} Advanced(c: Config, s: State, head: u64) returns (t: State)
    requires WellFormed(c) && At(c, s, Selecting) && s.cursor <= head
    ensures At(c, t, Selecting) && t.cursor == head
    decreases head - s.cursor
  {
    hide At;
    if s.cursor == head {
      t := s;
    } else {
      var mid := WindowDone(c, s, head);
      t := Advanced(c, mid, head);
    }
  }

  /** From its start block a watcher can reach any block with every job handled and none dropped. */
  lemma KeepsUp(c: Config, head: u64) returns (t: State)
    requires WellFormed(c) && c.startBlock <= head
    ensures At(c, t, Selecting) && t.cursor == head
  {
    var s := Started(c);
    t := Advanced(c, s, head);
  }

  // ---- A fleet, and a restart ----

  ghost predicate AllAt(cs: seq<Config>, ts: seq<State>, tops: seq<u64>) {
    && |cs| == |ts| == |tops|
    && forall i :: 0 <= i < |cs| ==> At(cs[i], ts[i], Selecting) && ts[i].cursor == tops[i]
  }

  ghost predicate Past(cs: seq<Config>, tops: seq<u64>) {
    |cs| == |tops| && forall i :: 0 <= i < |cs| ==> cs[i].startBlock <= tops[i] < TWO_63
  }

  lemma {:induction false} AllKeepUp(cs: seq<Config>, tops: seq<u64>) returns (ts: seq<State>)
    requires AllWellFormed(cs) && Past(cs, tops)
    ensures AllAt(cs, ts, tops)
  {
    if cs == [] {
      ts := [];
    } else {
      var n := |cs| - 1;
      var before := AllKeepUp(cs[..n], tops[..n]);
      var t := KeepsUp(cs[n], tops[n]);
      hide At;
      ts := before + [t];
      forall i | 0 <= i < |cs| ensures At(cs[i], ts[i], Selecting) && ts[i].cursor == tops[i] {
        assert i < n ==> cs[..n][i] == cs[i] && tops[..n][i] == tops[i];
      }
    }
  }

  /** The fleet has scanned every chain up to those blocks, dropped nothing and handled everything. */
  ghost predicate CaughtUp(abi: Abi, cs: seq<Config>, db: Db, tops: seq<u64>, g: Fleet) {
    FleetReachable(abi, cs, db, g) && |g.ws| == |cs| && Quiet(g) && Complete(g) && Cursors(g) == tops
  }

  lemma {:induction false} AllScansFrom(cs: seq<Config>, tops: seq<u64>, job: EventJob) returns (i: nat)
    requires |cs| == |tops| && job in AllScans(cs, tops)
    ensures i < |cs| && job in Scan(cs[i], cs[i].startBlock, tops[i])
  {
    hide Scan;
    i := |cs| - 1;
    if job !in Scan(cs[i], cs[i].startBlock, tops[i]) {
      i := AllScansFrom(cs[..i], tops[..i], job);
    }
  }

  lemma CalmStates(cs: seq<Config>, ts: seq<State>, tops: seq<u64>)
    requires AllWellFormed(cs) && Past(cs, tops) && AllAt(cs, ts, tops) && Calm(AllScans(cs, tops))
    ensures AllReachable(cs, ts)
  {
    hide Scan, Reaches;
    forall i, job | 0 <= i < |cs| && job in ts[i].h.finished ensures !Panics(job) {
      FinishedIsSent(cs[i], ts[i], job);
      LosslessIsScan(cs[i], ts[i]);
      AllScansMember(cs, tops, i, job);
    }
  }

  lemma AtIsCaughtUp(abi: Abi, cs: seq<Config>, db: Db, tops: seq<u64>, g: Fleet)
    requires Past(cs, tops) && FleetReachable(abi, cs, db, g) && AllAt(cs, g.ws, tops)
    ensures CaughtUp(abi, cs, db, tops, g)
  {
    hide FleetReachable, Reaches;
  }

  lemma FleetKeepsUp(abi: Abi, cs: seq<Config>, db: Db, tops: seq<u64>) returns (g: Fleet)
    requires AllWellFormed(cs) && Past(cs, tops) && Calm(AllScans(cs, tops))
    ensures CaughtUp(abi, cs, db, tops, g)
  {
    var ts := AllKeepUp(cs, tops);
    CalmStates(cs, ts, tops);
    hide FleetReachable, Reaches, Calm, AllAt, CaughtUp;
    LaunchReachable(abi, cs, db);
    var ran: seq<EventJob>;
    g, ran := BringOthers(abi, cs, db, Launch(cs, db), ts, |cs|, |cs|);
    assert g.ws == ts;
    AtIsCaughtUp(abi, cs, db, tops, g);
  }

  lemma CaughtUpIsCalm(abi: Abi, cs: seq<Config>, db: Db, tops: seq<u64>, g: Fleet)
    requires AllWellFormed(cs) && CaughtUp(abi, cs, db, tops, g)
    ensures Calm(AllScans(cs, tops))
  {
    FleetReachableInv(abi, cs, db, g);
    CompleteIsScans(cs, g);
    hide FleetReachable, Scan;
    forall job | job in AllScans(cs, tops) ensures !Panics(job) {
      AppliedIsSent(abi, cs, db, g, job);
    }
  }

  /** Over any tables, some run of a fleet scans every chain up to the given blocks, drops nothing and
      handles everything, exactly when no handler panics on what those blocks hold. */
  lemma CatchesUpIffCalm(abi: Abi, cs: seq<Config>, db: Db, tops: seq<u64>)
    requires AllWellFormed(cs) && Past(cs, tops)
    ensures (exists g :: CaughtUp(abi, cs, db, tops, g)) <==> Calm(AllScans(cs, tops))
  {
    hide CaughtUp, Calm;
    if Calm(AllScans(cs, tops)) {
      var g := FleetKeepsUp(abi, cs, db, tops);
    }
    if g :| CaughtUp(abi, cs, db, tops, g) {
      CaughtUpIsCalm(abi, cs, db, tops, g);
    }
  }

  /** So a restart can succeed: wherever the first run was stopped, some run of a second fleet of any
      sizes, started over the tables it left, scans past it, unless a handler panics; and any that does
      ends with the tables of one clean replay, so far as no two events race. */
  lemma RestartSucceeds(abi: Abi, cs: seq<Config>, ds: seq<Config>, db: Db, f: Fleet, tops: seq<u64>)
    requires AllWellFormed(cs) && FleetReachable(abi, cs, db, f) && InRange(f) && |f.ws| == |cs|
    requires AllWellFormed(ds) && SameChains(cs, ds) && Past(ds, tops) && Beyond(f, tops)
    ensures (exists g :: CaughtUp(abi, ds, f.db, tops, g)) <==> Calm(AllScans(cs, tops))
    ensures var log := WritesOf(abi, AllScans(cs, tops));
            forall g :: CaughtUp(abi, ds, f.db, tops, g) ==>
              && (AgreeOnSwaps(db, log) ==> g.db.swaps == Replay(db, log).swaps)
              && (AgreeOnOrders(db, log) ==> g.db.orders == Replay(db, log).orders)
  {
    hide FleetReachable, Calm, Replay, WritesOf, AgreeOnSwaps, AgreeOnOrders;
    SameScans(cs, ds, tops);
    CatchesUpIffCalm(abi, ds, f.db, tops);
    var log := WritesOf(abi, AllScans(cs, tops));
    forall g | CaughtUp(abi, ds, f.db, tops, g)
      ensures AgreeOnSwaps(db, log) ==> g.db.swaps == Replay(db, log).swaps
      ensures AgreeOnOrders(db, log) ==> g.db.orders == Replay(db, log).orders
    {
      RestartConverges(abi, cs, ds, db, f, g);
    }
  }

  // ---- Past 2^63 ----

  /** Some configured contract has a handler a job can reach. */
  ghost predicate Effective(contracts: seq<ContractConfig>) {
    exists a: Address, topic: Hash :: LastAt(contracts, a).Some? && topic in LastAt(contracts, a).value
  }

  lemma {:induction false} NothingRouted(contracts: seq<ContractConfig>, logs: seq<Log>)
    requires !Effective(contracts)
    ensures NaiveRoute(contracts, logs) == []
  {
    if logs != [] {
      NothingRouted(contracts, logs[1..]);
      assert NaiveJob(contracts, logs[0]).None?;
    }
  }

  /** That node answers the window with the jobs of its blocks. */
  ghost predicate Answers(c: Config, w: Window, node: Node)
    requires 1 <= w.first
  {
    var d := c.(node := node);
    WindowJobs(d, w) == Scan(d, w.first - 1, w.last)
  }

  lemma NoneEffective(c: Config, w: Window, node: Node)
    requires Indexes(c.contracts, c.ix) && 1 <= w.first && !Effective(c.contracts)
    ensures Answers(c, w, node)
  {
    var asked := if 0 <= ToInt64(w.first) && 0 <= ToInt64(w.last)
                 then Blocks(node.chain, ToInt64(w.first), ToInt64(w.last)) else node.odd(ToInt64(w.first), ToInt64(w.last));
    IndexRefinesNaive(c.contracts, c.ix, asked);
    NothingRouted(c.contracts, asked);
    NothingRouted(c.contracts, Blocks(node.chain, w.first, w.last));
  }

  /** Every node answers a window with the jobs of its blocks exactly when the window ends below 2^63,
      or no handler could be reached anyway. */
  lemma AnsweredIffNarrow(c: Config, w: Window)
    requires Indexes(c.contracts, c.ix) && 1 <= w.first <= w.last
    ensures (forall node: Node :: Answers(c, w, node)) <==> w.last < TWO_63 || !Effective(c.contracts)
  {
    if w.last < TWO_63 {
      forall node: Node ensures Answers(c, w, node) {
        WindowIsScan(c.(node := node), w);
      }
    } else if !Effective(c.contracts) {
      forall node: Node ensures Answers(c, w, node) {
        NoneEffective(c, w, node);
      }
    } else {
      var a: Address, topic: Hash :| LastAt(c.contracts, a).Some? && topic in LastAt(c.contracts, a).value;
      LastAtFound(c.contracts, a);
      var i :| 0 <= i < |c.contracts| && c.contracts[i] == ContractConfig(a, LastAt(c.contracts, a).value);
      var node := WideWindowIsNotScan(c, w, i, topic);
      assert !Answers(c, w, node);
    }
  }

  /** A window that reaches 2^63 is about to be fetched. */
  ghost predicate FetchesWide(s: State) {
    s.poller.Fetching? && s.poller.window.last >= TWO_63
  }

  /** Some run comes to such a window exactly when the start block leaves a block to follow. */
  lemma WideWindowReached(c: Config)
    requires WellFormed(c)
    ensures (exists s :: Reachable(c, s) && FetchesWide(s)) <==> c.startBlock < TWO_64 - 1
  {
    hide Reaches, Indexes;
    if c.startBlock < TWO_64 - 1 {
      var below: u64 := Larger(c.startBlock, TWO_63 - 1);
      var s := KeepsUp(c, below);
      var head: u64 := below + 1;
      ReachableStep(c, s, Poll(Some(head)));
      assert FetchesWide(Step(c, s, Poll(Some(head))));
    }
    forall s | Reachable(c, s) && FetchesWide(s) ensures c.startBlock < TWO_64 - 1 {
      ReachableInv(c, s);
      assert Pending(s.poller, s.poller.window);
      TilesInOrder(c.startBlock, s.h.windows, s.cursor);
    }
  }

  predicate NoneFetched(acts: seq<Action>) {
    forall i :: 0 <= i < |acts| ==> !acts[i].Fetched?
  }

  /** A node may refuse such bounds instead; while it answers no window, the watcher keeps polling at
      the same cursor and offers nothing. */
  lemma {:induction false} RefusedStays(c: Config, s: State, acts: seq<Action>)
    requires Run(c, s, acts) && NoneFetched(acts)
    requires (s.poller.Selecting? || s.poller.Fetching? || s.poller.Draining? || s.poller.Returned?)
    ensures var t := Exec(c, s, acts); t.cursor == s.cursor && t.h.offered == s.h.offered
    decreases |acts|
  {
    if acts != [] {
      RefusedStep(c, s, acts[0]);
      hide Step, Enabled;
      RefusedStays(c, Step(c, s, acts[0]), acts[1..]);
    }
  }

  lemma RefusedStep(c: Config, s: State, a: Action)
    requires Enabled(c, s, a) && !a.Fetched?
    requires (s.poller.Selecting? || s.poller.Fetching? || s.poller.Draining? || s.poller.Returned?)
    ensures var t := Step(c, s, a);
            && (t.poller.Selecting? || t.poller.Fetching? || t.poller.Draining? || t.poller.Returned?)
            && t.cursor == s.cursor && t.h.offered == s.h.offered
  {
  }
}
