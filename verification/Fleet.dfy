/** Several watchers, one a chain, over one store: every interleaving of all their goroutines. */
module Fleet {
  import opened Bytes
  import opened Chain
  import opened Routing
  import opened Machine
  import opened Invariants
  import opened PollerTheorems
  import opened Records
  import opened Replays
  import opened Handlers

  /** The watchers' states, the shared tables, and the jobs in the order their statements ran. */
  datatype Fleet = Fleet(ws: seq<State>, db: Db, applied: seq<EventJob>)

  /** One step of watcher i; a finished job has run its statement. */
  datatype Move = Move(i: nat, a: Action)

  ghost predicate AllWellFormed(cs: seq<Config>) {
    forall i :: 0 <= i < |cs| ==> WellFormed(cs[i])
  }

  /** A handler that panics never returns: it ends the process, so the run stops short of that step. */
  predicate CanMove(cs: seq<Config>, f: Fleet, m: Move) {
    && |f.ws| == |cs| && m.i < |cs| && Enabled(cs[m.i], f.ws[m.i], m.a)
    && (m.a.Finish? ==> !Panics(f.ws[m.i].workers[m.a.w].job))
  }

  ghost predicate Calm(jobs: seq<EventJob>) {
    forall job :: job in jobs ==> !Panics(job)
  }

  function Advance(abi: Abi, cs: seq<Config>, f: Fleet, m: Move): Fleet
    requires CanMove(cs, f, m)
  {
    var s := f.ws[m.i];
    var ws := f.ws[m.i := Step(cs[m.i], s, m.a)];
    if m.a.Finish?
    then Fleet(ws, ApplyJob(abi, f.db, s.workers[m.a.w].job), f.applied + [s.workers[m.a.w].job])
    else Fleet(ws, f.db, f.applied)
  }

  function Launch(cs: seq<Config>, db: Db): Fleet {
    Fleet(seq(|cs|, i => Init()), db, [])
  }

  predicate FleetRun(abi: Abi, cs: seq<Config>, f: Fleet, ms: seq<Move>)
    decreases |ms|
  {
    ms == [] || (CanMove(cs, f, ms[0]) && FleetRun(abi, cs, Advance(abi, cs, f, ms[0]), ms[1..]))
  }

  function FleetExec(abi: Abi, cs: seq<Config>, f: Fleet, ms: seq<Move>): Fleet
    requires FleetRun(abi, cs, f, ms)
    decreases |ms|
  {
    if ms == [] then f else FleetExec(abi, cs, Advance(abi, cs, f, ms[0]), ms[1..])
  }

  /** f is where some run of the fleet, started over db, can be. */
  ghost predicate FleetReachable(abi: Abi, cs: seq<Config>, db: Db, f: Fleet) {
    exists ms :: FleetRun(abi, cs, Launch(cs, db), ms) && FleetExec(abi, cs, Launch(cs, db), ms) == f
  }

  ghost predicate FinishedBy(ws: seq<State>, job: EventJob) {
    exists i :: 0 <= i < |ws| && job in ws[i].h.finished
  }

  /** Each watcher is in a state of its own machine; the tables are the replay of what was applied;
      what was applied is what the workers finished; and none of that panicked. */
  ghost predicate FleetInv(abi: Abi, cs: seq<Config>, db: Db, f: Fleet) {
    && |f.ws| == |cs|
    && (forall i :: 0 <= i < |cs| ==> Reachable(cs[i], f.ws[i]))
    && f.db == Replay(db, WritesOf(abi, f.applied))
    && (forall job :: job in f.applied <==> FinishedBy(f.ws, job))
    && Calm(f.applied)
  }

  lemma FleetInvStep(abi: Abi, cs: seq<Config>, db: Db, f: Fleet, m: Move)
    requires FleetInv(abi, cs, db, f) && CanMove(cs, f, m)
    ensures FleetInv(abi, cs, db, Advance(abi, cs, f, m))
  {
    var g := Advance(abi, cs, f, m);
    var s, t := f.ws[m.i], g.ws[m.i];
    ReachesOne(cs[m.i], s, m.a);
    ReachesTrans(cs[m.i], Init(), s, t);
    if m.a.Finish? {
      ReplayJob(abi, db, f.applied, s.workers[m.a.w].job);
    }
    forall job ensures job in g.applied <==> FinishedBy(g.ws, job) {
      FinishedStep(cs, f, m, g.ws, job);
    }
  }

  lemma FinishedStep(cs: seq<Config>, f: Fleet, m: Move, ws: seq<State>, job: EventJob)
    requires CanMove(cs, f, m) && ws == f.ws[m.i := Step(cs[m.i], f.ws[m.i], m.a)]
    ensures FinishedBy(ws, job) <==> FinishedBy(f.ws, job) || (m.a.Finish? && job == f.ws[m.i].workers[m.a.w].job)
  {
    FinishedGrows(cs[m.i], f.ws[m.i], m.a);
    hide Step;
    if FinishedBy(f.ws, job) {
      var i :| 0 <= i < |f.ws| && job in f.ws[i].h.finished;
      assert job in ws[i].h.finished;
    }
    if FinishedBy(ws, job) {
      var i :| 0 <= i < |ws| && job in ws[i].h.finished;
      assert i != m.i ==> job in f.ws[i].h.finished;
    } else if m.a.Finish? {
      assert f.ws[m.i].workers[m.a.w].job in ws[m.i].h.finished;
    }
  }

  lemma {:induction false} FleetInvRun(abi: Abi, cs: seq<Config>, db: Db, f: Fleet, ms: seq<Move>)
    requires FleetInv(abi, cs, db, f) && FleetRun(abi, cs, f, ms)
    ensures FleetInv(abi, cs, db, FleetExec(abi, cs, f, ms))
    decreases |ms|
  {
    if ms != [] {
      FleetInvStep(abi, cs, db, f, ms[0]);
      FleetInvRun(abi, cs, db, Advance(abi, cs, f, ms[0]), ms[1..]);
    }
  }

  lemma FleetReachableInv(abi: Abi, cs: seq<Config>, db: Db, f: Fleet)
    requires FleetReachable(abi, cs, db, f)
    ensures FleetInv(abi, cs, db, f)
  {
    var ms :| FleetRun(abi, cs, Launch(cs, db), ms) && FleetExec(abi, cs, Launch(cs, db), ms) == f;
    forall i | 0 <= i < |cs| ensures Reachable(cs[i], Init()) {
      ReachesSelf(cs[i], Init());
    }
    FleetInvRun(abi, cs, db, Launch(cs, db), ms);
  }

  lemma {:induction false} FleetRunConcat(abi: Abi, cs: seq<Config>, f: Fleet, a: seq<Move>, b: seq<Move>)
    requires FleetRun(abi, cs, f, a) && FleetRun(abi, cs, FleetExec(abi, cs, f, a), b)
    ensures FleetRun(abi, cs, f, a + b) && FleetExec(abi, cs, f, a + b) == FleetExec(abi, cs, FleetExec(abi, cs, f, a), b)
    decreases |a|
  {
    hide CanMove, Advance;
    if a == [] {
      assert a + b == b;
    } else {
      assert (a + b)[1..] == a[1..] + b;
      FleetRunConcat(abi, cs, Advance(abi, cs, f, a[0]), a[1..], b);
    }
  }

  lemma FleetOne(abi: Abi, cs: seq<Config>, f: Fleet, m: Move)
    requires CanMove(cs, f, m)
    ensures FleetRun(abi, cs, f, [m]) && FleetExec(abi, cs, f, [m]) == Advance(abi, cs, f, m)
  {
    var g := Advance(abi, cs, f, m);
    assert [m][0] == m && [m][1..] == [];
    assert FleetRun(abi, cs, g, []) && FleetExec(abi, cs, g, []) == g;
    hide CanMove, Advance;
    assert FleetRun(abi, cs, f, [m]);
  }

  lemma MoveReaches(abi: Abi, cs: seq<Config>, db: Db, f: Fleet, m: Move)
    requires FleetReachable(abi, cs, db, f) && CanMove(cs, f, m)
    ensures FleetReachable(abi, cs, db, Advance(abi, cs, f, m))
  {
    var ms :| FleetRun(abi, cs, Launch(cs, db), ms) && FleetExec(abi, cs, Launch(cs, db), ms) == f;
    FleetOne(abi, cs, f, m);
    hide CanMove, Advance;
    FleetRunConcat(abi, cs, Launch(cs, db), ms, [m]);
    assert FleetRun(abi, cs, Launch(cs, db), ms + [m]);
  }

  lemma LaunchReachable(abi: Abi, cs: seq<Config>, db: Db)
    ensures FleetReachable(abi, cs, db, Launch(cs, db))
  {
    assert FleetRun(abi, cs, Launch(cs, db), []) && FleetExec(abi, cs, Launch(cs, db), []) == Launch(cs, db);
  }

  // ---- What the tables depend on ----

  /** Every enqueued job has been handled: the channels are empty and no worker is busy. */
  ghost predicate Quiet(f: Fleet) {
    forall i :: 0 <= i < |f.ws| ==> f.ws[i].queue == [] && forall w :: 0 <= w < |f.ws[i].workers| ==> !f.ws[i].workers[w].Busy?
  }

  lemma {:induction false} NoneRunning(job: EventJob, ws: seq<Worker>)
    requires forall w :: 0 <= w < |ws| ==> !ws[w].Busy?
    ensures Running(job, ws) == 0
  {
    if ws != [] {
      NoneRunning(job, ws[..|ws| - 1]);
    }
  }

  /** What a watcher has finished was sent; once it is quiet, all that was sent is finished. */
  lemma FinishedIsSent(c: Config, s: State, job: EventJob)
    requires WellFormed(c) && Reachable(c, s)
    ensures job in s.h.finished ==> job in Sent(s.h)
    ensures s.queue == [] && (forall w :: 0 <= w < |s.workers| ==> !s.workers[w].Busy?) ==>
              (job in s.h.finished <==> job in Sent(s.h))
  {
    ReachableInv(c, s);
    FinishedFromConserved(s, job);
  }

  lemma FinishedFromConserved(s: State, job: EventJob)
    requires Conserved(s) && Fifo(s)
    ensures job in s.h.finished ==> job in Sent(s.h)
    ensures s.queue == [] && (forall w :: 0 <= w < |s.workers| ==> !s.workers[w].Busy?) ==>
              (job in s.h.finished <==> job in Sent(s.h))
  {
    assert job in multiset(s.h.finished) <==> job in s.h.finished;
    assert job in multiset(s.h.taken) <==> job in s.h.taken;
    assert multiset(s.h.taken)[job] == multiset(s.h.finished)[job] + Running(job, s.workers);
    if s.queue == [] && forall w :: 0 <= w < |s.workers| ==> !s.workers[w].Busy? {
      NoneRunning(job, s.workers);
    }
  }

  /** All enqueued jobs, watcher by watcher in queue order: the sequential replay of the queues. */
  function AllSent(ws: seq<State>): seq<EventJob> {
    if ws == [] then [] else AllSent(ws[..|ws| - 1]) + Sent(ws[|ws| - 1].h)
  }

  ghost predicate SentBy(ws: seq<State>, job: EventJob) {
    exists i :: 0 <= i < |ws| && job in Sent(ws[i].h)
  }

  lemma {:induction false} AllSentMembers(ws: seq<State>, job: EventJob)
    ensures job in AllSent(ws) <==> SentBy(ws, job)
  {
    hide Sent;
    if ws != [] {
      var n := |ws| - 1;
      AllSentMembers(ws[..n], job);
      assert SentBy(ws, job) <==> SentBy(ws[..n], job) || job in Sent(ws[n].h) by {
        assert ws == ws[..n] + [ws[n]];
      }
    }
  }

  lemma AppliedIsSent(abi: Abi, cs: seq<Config>, db: Db, f: Fleet, job: EventJob)
    requires AllWellFormed(cs) && FleetInv(abi, cs, db, f)
    ensures job in f.applied ==> job in AllSent(f.ws)
    ensures Quiet(f) ==> (job in f.applied <==> job in AllSent(f.ws))
  {
    forall i | 0 <= i < |f.ws|
      ensures job in f.ws[i].h.finished ==> job in Sent(f.ws[i].h)
      ensures Quiet(f) ==> (job in f.ws[i].h.finished <==> job in Sent(f.ws[i].h))
    {
      FinishedIsSent(cs[i], f.ws[i], job);
    }
    AllSentMembers(f.ws, job);
    assert job in f.applied <==> FinishedBy(f.ws, job);
  }

  lemma SameJobsSameWrites(abi: Abi, a: seq<EventJob>, b: seq<EventJob>)
    requires forall job :: job in a <==> job in b
    ensures SameWrites(WritesOf(abi, a), WritesOf(abi, b))
  {
    forall w ensures w in WritesOf(abi, a) <==> w in WritesOf(abi, b) {
      WritesMembers(abi, a, w);
      WritesMembers(abi, b, w);
    }
  }

  lemma AppliedAsSent(abi: Abi, cs: seq<Config>, db: Db, f: Fleet)
    requires AllWellFormed(cs) && FleetReachable(abi, cs, db, f) && Quiet(f)
    ensures f.db == Replay(db, WritesOf(abi, f.applied))
    ensures SameWrites(WritesOf(abi, AllSent(f.ws)), WritesOf(abi, f.applied))
  {
    FleetReachableInv(abi, cs, db, f);
    forall job ensures job in AllSent(f.ws) <==> job in f.applied {
      AppliedIsSent(abi, cs, db, f, job);
    }
    SameJobsSameWrites(abi, AllSent(f.ws), f.applied);
  }

  /** Every interleaving of any watchers' workers that handles all that was enqueued leaves, table by
      table, what one sequential replay of the queues leaves: the swaps if no two enqueued jobs race
      for the same columns of an existing row with different values, the orders if no two race for
      the same new order with different contents. */
  lemma ScheduleIndependence(abi: Abi, cs: seq<Config>, db: Db, f: Fleet)
    requires AllWellFormed(cs) && FleetReachable(abi, cs, db, f) && Quiet(f)
    ensures var log := WritesOf(abi, AllSent(f.ws));
            && (AgreeOnSwaps(db, log) ==> f.db.swaps == Replay(db, log).swaps)
            && (AgreeOnOrders(db, log) ==> f.db.orders == Replay(db, log).orders)
  {
    hide FleetReachable, Replay;
    var log := WritesOf(abi, AllSent(f.ws));
    AppliedAsSent(abi, cs, db, f);
    if AgreeOnSwaps(db, log) {
      SwapsConfluence(db, log, WritesOf(abi, f.applied));
    }
    if AgreeOnOrders(db, log) {
      OrdersConfluence(db, log, WritesOf(abi, f.applied));
    }
  }

  /** In particular when each event occurs once over all chains: the swaps then depend on no schedule,
      and the orders neither unless two of the created pairs collide. */
  lemma ScheduleIndependenceOnePerKey(abi: Abi, cs: seq<Config>, db: Db, f: Fleet)
    requires AllWellFormed(cs) && FleetReachable(abi, cs, db, f) && Quiet(f) && OnePerKey(abi, AllSent(f.ws))
    ensures var log := WritesOf(abi, AllSent(f.ws));
            && f.db.swaps == Replay(db, log).swaps
            && (NoCollision(abi, AllSent(f.ws)) ==> f.db == Replay(db, log))
  {
    OnePerKeyAgrees(abi, db, AllSent(f.ws));
    ScheduleIndependence(abi, cs, db, f);
  }

  // ---- From the chains to the tables ----

  /** One scan of every chain, up to the given blocks. */
  function AllScans(cs: seq<Config>, tops: seq<u64>): seq<EventJob>
    requires |cs| == |tops|
  {
    if cs == [] then []
    else
      var n := |cs| - 1;
      AllScans(cs[..n], tops[..n]) + Scan(cs[n], cs[n].startBlock, tops[n])
  }

  lemma {:induction false} AllScansMember(cs: seq<Config>, tops: seq<u64>, i: nat, job: EventJob)
    requires |cs| == |tops| && i < |cs| && job in Scan(cs[i], cs[i].startBlock, tops[i])
    ensures job in AllScans(cs, tops)
  {
    hide Scan;
    var n := |cs| - 1;
    if i < n {
      AllScansMember(cs[..n], tops[..n], i, job);
    }
  }

  function Cursors(f: Fleet): (r: seq<u64>)
    ensures |r| == |f.ws|
  {
    seq(|f.ws|, i requires 0 <= i < |f.ws| => f.ws[i].cursor)
  }

  /** Every watcher is started, between windows, and has dropped nothing. */
  ghost predicate Complete(f: Fleet) {
    forall i :: 0 <= i < |f.ws| ==>
      && !f.ws[i].poller.NotStarted? && OpenWindow(f.ws[i].poller).None?
      && Lossless(f.ws[i].h) && f.ws[i].cursor < TWO_63
  }

  lemma {:induction false} CompleteIsScans(cs: seq<Config>, f: Fleet)
    requires |f.ws| == |cs| && AllWellFormed(cs) && Complete(f)
    requires forall i :: 0 <= i < |cs| ==> Reachable(cs[i], f.ws[i])
    ensures AllSent(f.ws) == AllScans(cs, Cursors(f))
    decreases |cs|
  {
    forall i | 0 <= i < |cs|
      ensures Sent(f.ws[i].h) == Scan(cs[i], cs[i].startBlock, f.ws[i].cursor)
    {
      LosslessIsScan(cs[i], f.ws[i]);
    }
    if cs != [] {
      var n := |cs| - 1;
      CompleteIsScans(cs[..n], f.(ws := f.ws[..n]));
      assert Cursors(f.(ws := f.ws[..n])) == Cursors(f)[..n];
    }
  }

  /** The tables are a function of the chains. A fleet that has kept up, however its watchers batch,
      retry, are scheduled and are sized, leaves exactly the replay of one scan of each chain. */
  lemma TablesFollowChains(abi: Abi, cs: seq<Config>, db: Db, f: Fleet)
    requires AllWellFormed(cs) && FleetReachable(abi, cs, db, f) && Quiet(f) && Complete(f) && |f.ws| == |cs|
    ensures var log := WritesOf(abi, AllScans(cs, Cursors(f)));
            && (AgreeOnSwaps(db, log) ==> f.db.swaps == Replay(db, log).swaps)
            && (AgreeOnOrders(db, log) ==> f.db.orders == Replay(db, log).orders)
  {
    FleetReachableInv(abi, cs, db, f);
    CompleteIsScans(cs, f);
    ScheduleIndependence(abi, cs, db, f);
  }

  // ---- Where the contents come from ----

  /** Each started watcher's frontier is a block number the node can be asked about. */
  ghost predicate InRange(f: Fleet) {
    forall i :: 0 <= i < |f.ws| ==> Frontier(f.ws[i]) < TWO_63
  }

  /** A job any worker finished is one the scan of its chain finds, after the start block and no
      later than the last window dispatched. */
  lemma FinishedIsScanned(c: Config, s: State, job: EventJob)
    requires WellFormed(c) && Reachable(c, s) && Frontier(s) < TWO_63 && job in s.h.finished
    ensures job in Scan(c, c.startBlock, Frontier(s))
  {
    FinishedIsSent(c, s, job);
    ReachableInv(c, s);
    PickFrom(s.h.offered, s.h.fates, true, job);
    OfferedIsScanPrefix(c, s);
    var i :| 0 <= i < |s.h.offered| && s.h.offered[i] == job;
    assert Scan(c, c.startBlock, Frontier(s))[i] == job;
  }

  /** The job was handled by one of this watcher's workers; its log is on the chain in a dispatched
      block, at a contract configured to handle it that way. */
  ghost predicate Genuine(c: Config, s: State, job: EventJob) {
    && job in s.h.finished
    && NaiveJob(c.contracts, job.event) == Some(job)
    && c.startBlock < job.event.blockNumber <= Frontier(s)
    && job.event in c.node.chain(job.event.blockNumber)
  }

  lemma FinishedIsGenuine(c: Config, s: State, job: EventJob)
    requires WellFormed(c) && Numbered(c.node.chain) && Reachable(c, s) && Frontier(s) < TWO_63 && job in s.h.finished
    ensures Genuine(c, s, job)
  {
    hide Reaches;
    FinishedIsScanned(c, s, job);
    NaiveRouteFrom(c.contracts, Blocks(c.node.chain, c.startBlock + 1, Frontier(s)), job);
    BlocksRange(c.node.chain, c.startBlock + 1, Frontier(s), job.event);
  }

  lemma AppliedIsGenuine(abi: Abi, cs: seq<Config>, db: Db, f: Fleet, job: EventJob) returns (i: nat)
    requires AllWellFormed(cs) && FleetInv(abi, cs, db, f) && InRange(f) && job in f.applied
    requires forall i :: 0 <= i < |cs| ==> Numbered(cs[i].node.chain)
    ensures i < |cs| && Genuine(cs[i], f.ws[i], job)
  {
    hide Reaches, Genuine;
    assert FinishedBy(f.ws, job);
    i :| 0 <= i < |f.ws| && job in f.ws[i].h.finished;
    FinishedIsGenuine(cs[i], f.ws[i], job);
  }

  lemma ChangedGroupWritten(db: Db, ws: seq<Write>, id: string, kind: Kind)
    requires id in db.swaps && id in Replay(db, ws).swaps
    requires Get(Replay(db, ws).swaps[id], kind) != Get(db.swaps[id], kind)
    ensures Update(id, Get(Replay(db, ws).swaps[id], kind)) in ws
  {
    ReplaySwaps(db, ws, id);
    LastGroupWritten(ws, id, kind, Get(db.swaps[id], kind));
    hide Replay;
    var w :| w in ws && Writes(w, id, kind) && w.group == Get(Replay(db, ws).swaps[id], kind);
    assert w == Update(id, w.group);
  }

  lemma ChangedGroupTraced(abi: Abi, cs: seq<Config>, db: Db, f: Fleet, id: string, kind: Kind) returns (i: nat, job: EventJob)
    requires AllWellFormed(cs) && FleetInv(abi, cs, db, f) && InRange(f)
    requires forall i :: 0 <= i < |cs| ==> Numbered(cs[i].node.chain)
    requires id in db.swaps && id in f.db.swaps && Get(f.db.swaps[id], kind) != Get(db.swaps[id], kind)
    ensures i < |cs| && Genuine(cs[i], f.ws[i], job) && WriteOf(abi, job) == Some(Update(id, Get(f.db.swaps[id], kind)))
  {
    hide Genuine, Replay, WriteOf;
    var w := Update(id, Get(f.db.swaps[id], kind));
    ChangedGroupWritten(db, WritesOf(abi, f.applied), id, kind);
    WritesMembers(abi, f.applied, w);
    job :| job in f.applied && WriteOf(abi, job) == Some(w);
    i := AppliedIsGenuine(abi, cs, db, f, job);
  }

  /** After any run no row has appeared or gone, or lost its identity columns. */
  lemma Provenance(abi: Abi, cs: seq<Config>, db: Db, f: Fleet, id: string)
    requires FleetReachable(abi, cs, db, f)
    ensures id in f.db.swaps <==> id in db.swaps
    ensures id in db.swaps ==>
              var was, row := db.swaps[id], f.db.swaps[id];
              && row.swapID == was.swapID && row.chain == was.chain && row.asset == was.asset
              && row.initiator == was.initiator && row.redeemer == was.redeemer && row.timeLock == was.timeLock
              && row.amount == was.amount && row.secretHash == was.secretHash
  {
    FleetReachableInv(abi, cs, db, f);
    ReplaySwaps(db, WritesOf(abi, f.applied), id);
  }

  lemma InitiatedColumns(abi: Abi, job: EventJob, id: string, row: Swap)
    requires WriteOf(abi, job) == Some(Update(id, Get(row, Initiate)))
    ensures job.handler == HandleInitiated && abi.parseInitiated(job.event).Some?
    ensures var e := abi.parseInitiated(job.event).value;
            && HexEncode(e.orderID) == id
            && row.initiateTxHash == "0x" + HexEncode(job.event.txHash)
            && row.filledAmount == e.amount && row.initiateBlockNumber == job.event.blockNumber
  {
  }

  /** The initiate columns of a row are those it started with, or say what an Initiated event says about the
      order id the row key spells, that some watcher's worker handled and its chain holds. */
  lemma InitiatedProvenance(abi: Abi, cs: seq<Config>, db: Db, f: Fleet, id: string)
    requires AllWellFormed(cs) && FleetReachable(abi, cs, db, f) && InRange(f)
    requires |f.ws| == |cs| && forall i :: 0 <= i < |cs| ==> Numbered(cs[i].node.chain)
    requires id in db.swaps && id in f.db.swaps
    ensures var was, row := db.swaps[id], f.db.swaps[id];
            (row.initiateTxHash, row.filledAmount, row.initiateBlockNumber)
            != (was.initiateTxHash, was.filledAmount, was.initiateBlockNumber) ==>
              exists i, job ::
                && 0 <= i < |cs| && Genuine(cs[i], f.ws[i], job)
                && job.handler == HandleInitiated && abi.parseInitiated(job.event).Some?
                && var e := abi.parseInitiated(job.event).value;
                && HexEncode(e.orderID) == id
                && row.initiateTxHash == "0x" + HexEncode(job.event.txHash)
                && row.filledAmount == e.amount && row.initiateBlockNumber == job.event.blockNumber
  {
    FleetReachableInv(abi, cs, db, f);
    hide FleetReachable, FleetInv, Genuine, WriteOf;
    if Get(f.db.swaps[id], Initiate) != Get(db.swaps[id], Initiate) {
      var i, job := ChangedGroupTraced(abi, cs, db, f, id, Initiate);
      InitiatedColumns(abi, job, id, f.db.swaps[id]);
    }
  }

  lemma RedeemedColumns(abi: Abi, job: EventJob, id: string, row: Swap)
    requires WriteOf(abi, job) == Some(Update(id, Get(row, Redeem)))
    ensures job.handler == HandleRedeemed && abi.parseRedeemed(job.event).Some?
    ensures var e := abi.parseRedeemed(job.event).value;
            && HexEncode(e.orderID) == id
            && row.redeemTxHash == "0x" + HexEncode(job.event.txHash)
            && row.secret == e.secret && row.redeemBlockNumber == job.event.blockNumber
  {
  }

  /** The redeem columns of a row are those it started with, or say what a Redeemed event says about the
      order id the row key spells, that some watcher's worker handled and its chain holds. */
  lemma RedeemedProvenance(abi: Abi, cs: seq<Config>, db: Db, f: Fleet, id: string)
    requires AllWellFormed(cs) && FleetReachable(abi, cs, db, f) && InRange(f)
    requires |f.ws| == |cs| && forall i :: 0 <= i < |cs| ==> Numbered(cs[i].node.chain)
    requires id in db.swaps && id in f.db.swaps
    ensures var was, row := db.swaps[id], f.db.swaps[id];
            (row.redeemTxHash, row.secret, row.redeemBlockNumber) != (was.redeemTxHash, was.secret, was.redeemBlockNumber) ==>
              exists i, job ::
                && 0 <= i < |cs| && Genuine(cs[i], f.ws[i], job)
                && job.handler == HandleRedeemed && abi.parseRedeemed(job.event).Some?
                && var e := abi.parseRedeemed(job.event).value;
                && HexEncode(e.orderID) == id
                && row.redeemTxHash == "0x" + HexEncode(job.event.txHash)
                && row.secret == e.secret && row.redeemBlockNumber == job.event.blockNumber
  {
    FleetReachableInv(abi, cs, db, f);
    hide FleetReachable, FleetInv, Genuine, WriteOf;
    if Get(f.db.swaps[id], Redeem) != Get(db.swaps[id], Redeem) {
      var i, job := ChangedGroupTraced(abi, cs, db, f, id, Redeem);
      RedeemedColumns(abi, job, id, f.db.swaps[id]);
    }
  }

  lemma RefundedColumns(abi: Abi, job: EventJob, id: string, row: Swap)
    requires WriteOf(abi, job) == Some(Update(id, Get(row, Refund)))
    ensures job.handler == HandleRefunded && abi.parseRefunded(job.event).Some?
    ensures var e := abi.parseRefunded(job.event).value;
            && HexEncode(e.orderID) == id
            && row.refundTxHash == "0x" + HexEncode(job.event.txHash) && row.refundBlockNumber == job.event.blockNumber
  {
  }

  /** The refund columns of a row are those it started with, or say what a Refunded event says about the
      order id the row key spells, that some watcher's worker handled and its chain holds. */
  lemma RefundedProvenance(abi: Abi, cs: seq<Config>, db: Db, f: Fleet, id: string)
    requires AllWellFormed(cs) && FleetReachable(abi, cs, db, f) && InRange(f)
    requires |f.ws| == |cs| && forall i :: 0 <= i < |cs| ==> Numbered(cs[i].node.chain)
    requires id in db.swaps && id in f.db.swaps
    ensures var was, row := db.swaps[id], f.db.swaps[id];
            (row.refundTxHash, row.refundBlockNumber) != (was.refundTxHash, was.refundBlockNumber) ==>
              exists i, job ::
                && 0 <= i < |cs| && Genuine(cs[i], f.ws[i], job)
                && job.handler == HandleRefunded && abi.parseRefunded(job.event).Some?
                && var e := abi.parseRefunded(job.event).value;
                && HexEncode(e.orderID) == id
                && row.refundTxHash == "0x" + HexEncode(job.event.txHash) && row.refundBlockNumber == job.event.blockNumber
  {
    FleetReachableInv(abi, cs, db, f);
    hide FleetReachable, FleetInv, Genuine, WriteOf;
    if Get(f.db.swaps[id], Refund) != Get(db.swaps[id], Refund) {
      var i, job := ChangedGroupTraced(abi, cs, db, f, id, Refund);
      RefundedColumns(abi, job, id, f.db.swaps[id]);
    }
  }

  /** Genuine, in the terms of the configuration: the last contract at the log's address names that
      handler for its first topic. */
  lemma GenuineMeans(c: Config, s: State, job: EventJob) returns (i: nat)
    requires Genuine(c, s, job)
    ensures job in s.h.finished
    ensures c.startBlock < job.event.blockNumber <= Frontier(s) && job.event in c.node.chain(job.event.blockNumber)
    ensures i < |c.contracts| && c.contracts[i].address == job.event.address
    ensures forall j :: i < j < |c.contracts| ==> c.contracts[j].address != job.event.address
    ensures job.event.topics != [] && job.event.topics[0] in c.contracts[i].eventHandlers
    ensures c.contracts[i].eventHandlers[job.event.topics[0]] == job.handler
  {
    LastAtMeans(c.contracts, job.event.address);
    i := LastIndex(c.contracts, job.event.address);
    NaiveJobMeans(c.contracts, job.event, i);
  }

  lemma OrderTraced(abi: Abi, cs: seq<Config>, db: Db, f: Fleet, id: string) returns (i: nat, job: EventJob)
    requires AllWellFormed(cs) && FleetInv(abi, cs, db, f) && InRange(f)
    requires forall i :: 0 <= i < |cs| ==> Numbered(cs[i].node.chain)
    requires id in f.db.orders && id !in db.orders
    ensures FirstOrder(WritesOf(abi, f.applied), id) == Some(f.db.orders[id]) && f.db.orders[id].createID == id
    ensures i < |cs| && Genuine(cs[i], f.ws[i], job) && WriteOf(abi, job) == Some(Insert(f.db.orders[id]))
  {
    hide Genuine, Replay, WriteOf;
    var ws := WritesOf(abi, f.applied);
    ReplayOrders(db, ws, id);
    FirstOrderInserted(ws, id);
    var w := Insert(f.db.orders[id]);
    WritesMembers(abi, f.applied, w);
    job :| job in f.applied && WriteOf(abi, job) == Some(w);
    i := AppliedIsGenuine(abi, cs, db, f, job);
  }

  lemma OrderColumns(abi: Abi, job: EventJob, id: string, row: CreateOrder)
    requires WriteOf(abi, job) == Some(Insert(row)) && row.createID == id
    ensures job.handler == HandleCreated && |job.event.data| >= 96 && abi.unpackCreateOrder(job.event.data[96..]).Some?
    ensures var o := abi.unpackCreateOrder(job.event.data[96..]).value;
            && row.createID == id && id == HexEncode(abi.sha256(job.event.txHash + o.secretHash))
            && row.blockNumber == job.event.blockNumber
            && row.sourceChain == o.sourceChain && row.destinationChain == o.destinationChain
            && row.sourceAsset == o.sourceAsset && row.destinationAsset == o.destinationAsset
            && row.initiatorSourceAddress == o.initiatorSourceAddress
            && row.initiatorDestinationAddress == o.initiatorDestinationAddress
            && row.sourceAmount == o.sourceAmount && row.destinationAmount == o.destinationAmount
            && row.fee == o.fee && row.nonce == o.nonce && row.secretHash == o.secretHash
            && (0 <= o.minDestinationConfirmations < TWO_64 ==> row.minDestinationConfirmations == o.minDestinationConfirmations)
            && (0 <= o.timeLock < TWO_64 ==> row.timeLock == o.timeLock)
  {
  }

  /** Created orders: after any run, the order under an id is the one it started with or else the
      first one applied under it, and then its columns say what a Created event says that some
      watcher's worker handled and its chain holds. */
  lemma OrderProvenance(abi: Abi, cs: seq<Config>, db: Db, f: Fleet, id: string)
    requires AllWellFormed(cs) && FleetReachable(abi, cs, db, f) && InRange(f)
    requires |f.ws| == |cs| && forall i :: 0 <= i < |cs| ==> Numbered(cs[i].node.chain)
    ensures id in db.orders ==> id in f.db.orders && f.db.orders[id] == db.orders[id]
    ensures id in f.db.orders && id !in db.orders ==>
              && FirstOrder(WritesOf(abi, f.applied), id) == Some(f.db.orders[id])
              && exists i, job ::
                && 0 <= i < |cs| && Genuine(cs[i], f.ws[i], job)
                && job.handler == HandleCreated && |job.event.data| >= 96
                && abi.unpackCreateOrder(job.event.data[96..]).Some?
                && var row, o := f.db.orders[id], abi.unpackCreateOrder(job.event.data[96..]).value;
                && row.createID == id && id == HexEncode(abi.sha256(job.event.txHash + o.secretHash))
                && row.blockNumber == job.event.blockNumber
                && row.sourceChain == o.sourceChain && row.destinationChain == o.destinationChain
                && row.sourceAsset == o.sourceAsset && row.destinationAsset == o.destinationAsset
                && row.initiatorSourceAddress == o.initiatorSourceAddress
                && row.initiatorDestinationAddress == o.initiatorDestinationAddress
                && row.sourceAmount == o.sourceAmount && row.destinationAmount == o.destinationAmount
                && row.fee == o.fee && row.nonce == o.nonce && row.secretHash == o.secretHash
                && (0 <= o.minDestinationConfirmations < TWO_64 ==> row.minDestinationConfirmations == o.minDestinationConfirmations)
                && (0 <= o.timeLock < TWO_64 ==> row.timeLock == o.timeLock)
  {
    FleetReachableInv(abi, cs, db, f);
    ReplayOrders(db, WritesOf(abi, f.applied), id);
    hide FleetReachable, FleetInv, Genuine, WritesOf, WriteOf;
    if id in f.db.orders && id !in db.orders {
      var i, job := OrderTraced(abi, cs, db, f, id);
      OrderColumns(abi, job, id, f.db.orders[id]);
    }
  }

  /** No order is ever overwritten or removed, by any continuation of any run. */
  lemma {:induction false} OrdersKept(abi: Abi, cs: seq<Config>, f: Fleet, ms: seq<Move>, id: string)
    requires FleetRun(abi, cs, f, ms) && id in f.db.orders
    ensures var g := FleetExec(abi, cs, f, ms); id in g.db.orders && g.db.orders[id] == f.db.orders[id]
    decreases |ms|
  {
    hide Enabled, Step, WriteOf;
    if ms != [] {
      OrdersKept(abi, cs, Advance(abi, cs, f, ms[0]), ms[1..], id);
    }
  }

  /** What ReadCreateOrder gives for an id that was new: in every reachable state, and in every
      continuation of it, the first order applied under the id, and nothing before that. */
  lemma FirstOrderIsRead(abi: Abi, cs: seq<Config>, db: Db, f: Fleet, ms: seq<Move>, id: string)
    requires FleetReachable(abi, cs, db, f) && FleetRun(abi, cs, f, ms) && id !in db.orders
    ensures ReadOrder(f.db, id) == FirstOrder(WritesOf(abi, f.applied), id)
    ensures ReadOrder(f.db, id).Some? ==> ReadOrder(FleetExec(abi, cs, f, ms).db, id) == ReadOrder(f.db, id)
  {
    FleetReachableInv(abi, cs, db, f);
    ReplayOrders(db, WritesOf(abi, f.applied), id);
    if id in f.db.orders {
      OrdersKept(abi, cs, f, ms, id);
    }
  }

  // ---- Restart ----

  lemma ScanGrows(c: Config, a: u64, b: u64, job: EventJob)
    requires a <= b && job in Scan(c, c.startBlock, a)
    ensures job in Scan(c, c.startBlock, b)
  {
    if c.startBlock <= a {
      ScanSplit(c, c.startBlock, a, b);
    }
  }

  /** Blocks at least as far as anything f has dispatched. */
  ghost predicate Beyond(f: Fleet, tops: seq<u64>) {
    |tops| == |f.ws| && forall i :: 0 <= i < |tops| ==> Frontier(f.ws[i]) <= tops[i]
  }

  lemma AppliedIsScanned(abi: Abi, cs: seq<Config>, db: Db, f: Fleet, tops: seq<u64>, job: EventJob)
    requires AllWellFormed(cs) && FleetInv(abi, cs, db, f) && InRange(f) && Beyond(f, tops)
    requires job in f.applied
    ensures job in AllScans(cs, tops)
  {
    assert FinishedBy(f.ws, job);
    var i :| 0 <= i < |f.ws| && job in f.ws[i].h.finished;
    FinishedIsScanned(cs[i], f.ws[i], job);
    ScanGrows(cs[i], Frontier(f.ws[i]), tops[i], job);
    AllScansMember(cs, tops, i, job);
  }

  /** Wherever a run stopped, with jobs dropped, queued, in flight or handled out of order, replaying
      the scans from the start blocks over the tables it left gives the swaps a clean replay gives:
      with no condition at all on the events. */
  lemma RestartRepairsSwaps(abi: Abi, cs: seq<Config>, db: Db, f: Fleet, tops: seq<u64>)
    requires AllWellFormed(cs) && FleetReachable(abi, cs, db, f) && InRange(f) && Beyond(f, tops)
    requires |f.ws| == |cs|
    ensures var log := WritesOf(abi, AllScans(cs, tops)); Replay(f.db, log).swaps == Replay(db, log).swaps
  {
    FleetReachableInv(abi, cs, db, f);
    var partial := WritesOf(abi, f.applied);
    var log := WritesOf(abi, AllScans(cs, tops));
    forall w | w in partial && w.Update? ensures exists v :: v in log && Writes(v, w.swapID, w.group.Kind()) {
      AppliedIsLogged(abi, cs, db, f, tops, w);
      assert Writes(w, w.swapID, w.group.Kind());
    }
    Convergence(db, partial, log);
  }

  lemma AppliedIsLogged(abi: Abi, cs: seq<Config>, db: Db, f: Fleet, tops: seq<u64>, w: Write)
    requires AllWellFormed(cs) && FleetInv(abi, cs, db, f) && InRange(f) && Beyond(f, tops)
    requires w in WritesOf(abi, f.applied)
    ensures w in WritesOf(abi, AllScans(cs, tops))
  {
    WritesMembers(abi, f.applied, w);
    var job :| job in f.applied && WriteOf(abi, job) == Some(w);
    AppliedIsScanned(abi, cs, db, f, tops, job);
    WritesMembers(abi, AllScans(cs, tops), w);
  }

  lemma AgreeLater(db: Db, ws: seq<Write>, log: seq<Write>)
    ensures AgreeOnSwaps(db, log) ==> AgreeOnSwaps(Replay(db, ws), log)
    ensures AgreeOnOrders(db, log) ==> AgreeOnOrders(Replay(db, ws), log)
  {
    forall v, w | v in log && w in log
      ensures UpdateConflict(Replay(db, ws), v, w) ==> UpdateConflict(db, v, w)
      ensures InsertConflict(Replay(db, ws), v, w) ==> InsertConflict(db, v, w)
    {
      if v.Update? {
        ReplaySwaps(db, ws, v.swapID);
      } else {
        ReplayOrders(db, ws, v.order.createID);
      }
    }
  }

  /** And so does a real restart: a second fleet, of any sizes and schedule, started over the tables
      the first left at any moment, leaves each table as if the first had never run, once it has
      caught up past it, if no two events race for that table. */
  lemma RestartConverges(abi: Abi, cs: seq<Config>, ds: seq<Config>, db: Db, f: Fleet, g: Fleet)
    requires AllWellFormed(cs) && FleetReachable(abi, cs, db, f) && InRange(f) && |f.ws| == |cs|
    requires AllWellFormed(ds) && FleetReachable(abi, ds, f.db, g) && Quiet(g) && Complete(g) && |g.ws| == |ds|
    requires SameChains(cs, ds) && Beyond(f, Cursors(g))
    ensures var log := WritesOf(abi, AllScans(cs, Cursors(g)));
            && (AgreeOnSwaps(db, log) ==> g.db.swaps == Replay(db, log).swaps)
            && (AgreeOnOrders(db, log) ==> g.db.orders == Replay(db, log).orders)
  {
    var tops := Cursors(g);
    var log := WritesOf(abi, AllScans(cs, tops));
    SameScans(cs, ds, tops);
    FleetReachableInv(abi, cs, db, f);
    hide FleetReachable, Replay;
    AgreeLater(db, WritesOf(abi, f.applied), log);
    TablesFollowChains(abi, ds, f.db, g);
    forall w | w in WritesOf(abi, f.applied) ensures w in log {
      AppliedIsLogged(abi, cs, db, f, tops, w);
    }
    RedeliveryIsNoOp(db, WritesOf(abi, f.applied), log);
  }

  /** The same chains, contracts and start blocks; batch, worker and queue sizes may differ. */
  ghost predicate SameChains(cs: seq<Config>, ds: seq<Config>) {
    && |cs| == |ds|
    && forall i :: 0 <= i < |cs| ==>
         && cs[i].contracts == ds[i].contracts && cs[i].startBlock == ds[i].startBlock
         && cs[i].node.chain == ds[i].node.chain
  }

  lemma {:induction false} SameScans(cs: seq<Config>, ds: seq<Config>, tops: seq<u64>)
    requires SameChains(cs, ds) && |cs| == |tops|
    ensures AllScans(cs, tops) == AllScans(ds, tops)
  {
    if cs != [] {
      var n := |cs| - 1;
      SameScans(cs[..n], ds[..n], tops[..n]);
      assert Scan(cs[n], cs[n].startBlock, tops[n]) == Scan(ds[n], ds[n].startBlock, tops[n]);
    }
  }
}
