/** What holds of the poller over every run: the windows it commits, the jobs it offers, the jobs it drops. */
module PollerTheorems {
  import opened Bytes
  import opened Chain
  import opened Routing
  import opened Windows
  import opened Machine
  import opened Invariants

  /** The jobs of blocks (after, upTo], by the plain scan of the chain. */
  function Scan(c: Config, after: u64, upTo: u64): seq<EventJob> {
    NaiveRoute(c.contracts, Blocks(c.node.chain, after + 1, upTo))
  }

  lemma ScanSplit(c: Config, a: u64, b: u64, d: u64)
    requires a <= b <= d
    ensures Scan(c, a, d) == Scan(c, a, b) + Scan(c, b, d)
  {
    BlocksSplit(c.node.chain, a + 1, b, d);
    NaiveRouteConcat(c.contracts, Blocks(c.node.chain, a + 1, b), Blocks(c.node.chain, b + 1, d));
  }

  // ---- Windows ----

  predicate Covers(w: Window, b: int) { w.first <= b <= w.last }

  ghost predicate Covered(ws: seq<Window>, b: int) {
    exists i :: 0 <= i < |ws| && Covers(ws[i], b)
  }

  lemma {:induction false} TilesInOrder(start: u64, ws: seq<Window>, cursor: u64)
    requires Tiles(start, ws, cursor)
    ensures start <= cursor
    ensures forall i :: 0 <= i < |ws| ==> start < ws[i].first <= ws[i].last <= cursor
    ensures forall i :: 0 < i < |ws| ==> ws[i].first == ws[i - 1].last + 1
    ensures forall i, j :: 0 <= i < j < |ws| ==> ws[i].last < ws[j].first
  {
    if ws != [] {
      var n := |ws| - 1;
      TilesInOrder(start, ws[..n], ws[n].first - 1);
      assert n > 0 ==> ws[..n][n - 1].last == ws[n].first - 1;
    }
  }

  lemma {:induction false} TilesCover(start: u64, ws: seq<Window>, cursor: u64, b: int)
    requires Tiles(start, ws, cursor)
    ensures start < b <= cursor <==> Covered(ws, b)
  {
    TilesInOrder(start, ws, cursor);
    if ws != [] && start < b <= cursor {
      var n := |ws| - 1;
      if b < ws[n].first {
        TilesCover(start, ws[..n], ws[n].first - 1, b);
        var i :| 0 <= i < n && Covers(ws[..n][i], b);
        assert Covers(ws[i], b);
      } else {
        assert Covers(ws[n], b);
      }
    }
  }

  /** Over every run, with any head answers and failures, the committed windows are non-empty,
      ascending, disjoint and contiguous, and cover exactly (startBlock, cursor]; the cursor never
      passes the largest head seen. */
  lemma CursorPartition(c: Config, s: State)
    requires WellFormed(c) && Reachable(c, s) && !s.poller.NotStarted?
    ensures var ws := s.h.windows;
            && (forall i :: 0 <= i < |ws| ==> ws[i].first <= ws[i].last)
            && (forall i :: 0 < i < |ws| ==> ws[i].first == ws[i - 1].last + 1)
            && (forall i, j :: 0 <= i < j < |ws| ==> ws[i].last < ws[j].first)
            && (forall b :: c.startBlock < b <= s.cursor <==> Covered(ws, b))
    ensures c.startBlock <= s.cursor <= Larger(c.startBlock, s.h.maxHead)
  {
    ReachableInv(c, s);
    TilesInOrder(c.startBlock, s.h.windows, s.cursor);
    forall b ensures c.startBlock < b <= s.cursor <==> Covered(s.h.windows, b) {
      TilesCover(c.startBlock, s.h.windows, s.cursor, b);
    }
  }

  lemma CursorStep(c: Config, s: State, a: Action)
    requires Progress(c, s) && !s.poller.NotStarted? && Enabled(c, s, a)
    ensures !Step(c, s, a).poller.NotStarted?
    ensures if a.Commit? then s.cursor < Step(c, s, a).cursor else s.cursor == Step(c, s, a).cursor
  {
    if a.Commit? {
      assert Pending(s.poller, s.poller.window);
    }
  }

  /** Once set by Start, the cursor never decreases. */
  lemma {:induction false} CursorMonotone(c: Config, s: State, acts: seq<Action>)
    requires Progress(c, s) && !s.poller.NotStarted? && Run(c, s, acts)
    ensures !Exec(c, s, acts).poller.NotStarted?
    ensures s.cursor <= Exec(c, s, acts).cursor
    decreases |acts|
  {
    if acts != [] {
      CursorStep(c, s, acts[0]);
      ProgressStep(c, s, acts[0]);
      CursorMonotone(c, Step(c, s, acts[0]), acts[1..]);
    }
  }

  predicate SteadyHead(acts: seq<Action>, head: u64) {
    forall i :: 0 <= i < |acts| && acts[i].Poll? && acts[i].head.Some? ==> acts[i].head.value == head
  }

  function Commits(acts: seq<Action>): nat {
    if acts == [] then 0 else (if acts[0].Commit? then 1 else 0) + Commits(acts[1..])
  }

  /** The open window, if any, is the one a poll at this head opens. */
  ghost predicate Aims(c: Config, s: State, head: u64) {
    !s.poller.NotStarted? && forall w :: Pending(s.poller, w) ==> NextWindow(s.cursor, head, c.maxBlockSpan) == Some(w)
  }

  lemma AimsStep(c: Config, s: State, a: Action, head: u64)
    requires Aims(c, s, head) && Enabled(c, s, a) && (a.Poll? && a.head.Some? ==> a.head.value == head)
    ensures Aims(c, Step(c, s, a), head)
    ensures Step(c, s, a).cursor == if a.Commit? then NextCursor(s.cursor, head, c.maxBlockSpan) else s.cursor
  {
    var t := Step(c, s, a);
    if a.Commit? {
      assert Pending(s.poller, s.poller.window);
    } else if !a.Poll? {
      assert forall w :: Pending(t.poller, w) ==> Pending(s.poller, w);
    }
  }

  lemma {:induction false} SteadyCursorFrom(c: Config, s: State, acts: seq<Action>, head: u64, base: u64, k: nat)
    requires Run(c, s, acts) && SteadyHead(acts, head) && Aims(c, s, head)
    requires s.cursor == CursorAfter(base, head, c.maxBlockSpan, k)
    ensures Exec(c, s, acts).cursor == CursorAfter(base, head, c.maxBlockSpan, k + Commits(acts))
    decreases |acts|
  {
    hide Aims, NextCursor;
    if acts != [] {
      AimsStep(c, s, acts[0], head);
      SteadyCursorFrom(c, Step(c, s, acts[0]), acts[1..], head, base, if acts[0].Commit? then k + 1 else k);
    }
  }

  /** While the head stays put, a run brings the cursor to it exactly when it has committed
      ceil((head - cursor) / (maxBlockSpan + 1)) windows, whatever fails or interleaves. */
  lemma SteadyCatchUp(c: Config, s: State, acts: seq<Action>, head: u64)
    requires s.poller.Selecting? && Run(c, s, acts) && SteadyHead(acts, head) && s.cursor <= head
    ensures Exec(c, s, acts).cursor == head <==> Commits(acts) >= PollsNeeded(s.cursor, head, c.maxBlockSpan)
  {
    hide Run, Exec, Commits, PollsNeeded;
    SteadyCursorFrom(c, s, acts, head, s.cursor, 0);
    CatchUp(s.cursor, head, c.maxBlockSpan, Commits(acts));
  }

  // ---- Jobs ----

  /** A window that ends below 2^63 yields the jobs of a plain scan of its blocks. */
  lemma WindowIsScan(c: Config, w: Window)
    requires Indexes(c.contracts, c.ix) && 1 <= w.first <= w.last < TWO_63
    ensures WindowJobs(c, w) == Scan(c, w.first - 1, w.last)
  {
    IndexRefinesNaive(c.contracts, c.ix, Blocks(c.node.chain, w.first, w.last));
  }

  /** And only such a window does: past 2^63 the bounds reach the node negative, and some node then
      answers with a matching log that is in none of the blocks. */
  lemma WideWindowIsNotScan(c: Config, w: Window, i: nat, topic: Hash) returns (node: Node)
    requires Indexes(c.contracts, c.ix) && 1 <= w.first <= w.last && w.last >= TWO_63
    requires i < |c.contracts| && LastAt(c.contracts, c.contracts[i].address) == Some(c.contracts[i].eventHandlers)
    requires topic in c.contracts[i].eventHandlers
    ensures var d := c.(node := node); WindowJobs(d, w) != Scan(d, w.first - 1, w.last)
  {
    var log := Log(c.contracts[i].address, [topic], [], topic, 0, 0);
    node := Node(b => [], (a, b) => [log]);
    var d := c.(node := node);
    EmptyBlocks(node.chain, w.first, w.last);
    LookupIsNaiveJob(c.contracts, c.ix, log);
    assert ToInt64(w.last) < 0;
    var job := EventJob(log, c.contracts[i].eventHandlers[topic]);
    assert NaiveJob(c.contracts, log) == Some(job);
    assert [log][1..] == [];
    assert Filter(c.ix.addresses, c.ix.topics, [log]) == [log] + Filter(c.ix.addresses, c.ix.topics, []);
    assert [log] + [] == [log];
    assert Route(c.ix, [log]) == [job] + Route(c.ix, []);
  }

  lemma {:induction false} EmptyBlocks(chain: Ledger, first: nat, last: int)
    requires forall b: nat :: chain(b) == []
    ensures Blocks(chain, first, last) == []
    decreases last + 1 - first
  {
    if first <= last {
      EmptyBlocks(chain, first, last - 1);
    }
  }

  lemma NothingToScan(c: Config, a: u64)
    ensures Scan(c, a, a) == []
  {
  }

  lemma {:induction false} WalkIsScan(c: Config, ws: seq<Window>, cursor: u64)
    requires Indexes(c.contracts, c.ix) && Tiles(c.startBlock, ws, cursor) && cursor < TWO_63
    ensures Walk(c, ws) == Scan(c, c.startBlock, cursor)
  {
    hide WindowJobs, Scan;
    if ws == [] {
      NothingToScan(c, cursor);
    } else {
      var n := |ws| - 1;
      var before := ws[n].first - 1;
      assert c.startBlock <= before by {
        TilesInOrder(c.startBlock, ws[..n], before);
      }
      WalkIsScan(c, ws[..n], before);
      WindowIsScan(c, ws[n]);
      ScanSplit(c, c.startBlock, before, cursor);
    }
  }

  /** The last block any offered job can come from. */
  function Frontier(s: State): u64 {
    match OpenWindow(s.poller)
    case None => s.cursor
    case Some((w, _)) => w.last
  }

  /** The offered jobs of an open window: an initial part of its scan. */
  ghost predicate OfferedTail(c: Config, s: State, part: seq<EventJob>) {
    match OpenWindow(s.poller)
    case None => part == []
    case Some((w, rest)) => part + rest == Scan(c, s.cursor, w.last)
  }

  lemma {:induction false} PickSplits(xs: seq<EventJob>, marks: seq<bool>)
    requires |xs| == |marks|
    ensures multiset(xs) == multiset(Pick(xs, marks, true)) + multiset(Pick(xs, marks, false))
  {
    if xs != [] {
      var n := |xs| - 1;
      PickSplits(xs[..n], marks[..n]);
      assert xs == xs[..n] + [xs[n]];
    }
  }

  lemma OfferedIsScan(c: Config, s: State) returns (part: seq<EventJob>)
    requires Indexes(c.contracts, c.ix) && Progress(c, s) && Offered(c, s)
    requires !s.poller.NotStarted? && Frontier(s) < TWO_63
    ensures OfferedTail(c, s, part) && s.h.offered == Scan(c, c.startBlock, s.cursor) + part
  {
    part :| OfferedPart(c, s.poller, part) && s.h.offered == Walk(c, s.h.windows) + part;
    if OpenWindow(s.poller).Some? {
      var w := OpenWindow(s.poller).value.0;
      assert Pending(s.poller, w);
      WindowIsScan(c, w);
    }
    WalkIsScan(c, s.h.windows, s.cursor);
  }

  lemma SentOrDropped(s: State)
    requires Fifo(s)
    ensures multiset(s.h.offered) == multiset(s.h.taken) + multiset(s.queue) + multiset(Dropped(s.h))
  {
    PickSplits(s.h.offered, s.h.fates);
    assert multiset(s.h.taken + s.queue) == multiset(s.h.taken) + multiset(s.queue);
  }

  /** In every reachable state: the jobs offered so far are, in chain order, the scan of the committed
      blocks and then an initial part of the open window; the sent ones were taken, or are queued
      behind those, in that order; and every offered job is taken, queued or dropped, exactly once. */
  lemma ExactAccounting(c: Config, s: State) returns (part: seq<EventJob>)
    requires WellFormed(c) && Reachable(c, s) && !s.poller.NotStarted? && Frontier(s) < TWO_63
    ensures OfferedTail(c, s, part) && s.h.offered == Scan(c, c.startBlock, s.cursor) + part
    ensures Sent(s.h) == s.h.taken + s.queue
    ensures multiset(s.h.offered) == multiset(s.h.taken) + multiset(s.queue) + multiset(Dropped(s.h))
    ensures forall job :: multiset(s.h.taken)[job] == multiset(s.h.finished)[job] + Running(job, s.workers)
  {
    ReachableInv(c, s);
    SentOrDropped(s);
    part := OfferedIsScan(c, s);
  }

  lemma OfferedPrefixFrom(c: Config, s: State, part: seq<EventJob>)
    requires Progress(c, s) && !s.poller.NotStarted?
    requires OfferedTail(c, s, part) && s.h.offered == Scan(c, c.startBlock, s.cursor) + part
    ensures s.h.offered <= Scan(c, c.startBlock, Frontier(s))
    ensures OpenWindow(s.poller).None? ==> s.h.offered == Scan(c, c.startBlock, s.cursor)
  {
    match OpenWindow(s.poller) {
      case None =>
      case Some((w, rest)) =>
        TilesInOrder(c.startBlock, s.h.windows, s.cursor);
        assert Pending(s.poller, w);
        ScanSplit(c, c.startBlock, s.cursor, w.last);
        assert Scan(c, c.startBlock, w.last) == s.h.offered + rest;
    }
  }

  /** What has been offered is always an initial part of one scan from the start block. */
  lemma OfferedIsScanPrefix(c: Config, s: State)
    requires WellFormed(c) && Reachable(c, s) && !s.poller.NotStarted? && Frontier(s) < TWO_63
    ensures |s.h.offered| == |s.h.fates|
    ensures s.h.offered <= Scan(c, c.startBlock, Frontier(s))
    ensures OpenWindow(s.poller).None? ==> s.h.offered == Scan(c, c.startBlock, s.cursor)
  {
    ReachableInv(c, s);
    var part := OfferedIsScan(c, s);
    OfferedPrefixFrom(c, s, part);
  }

  lemma {:induction false} PickFrom(xs: seq<EventJob>, marks: seq<bool>, keep: bool, x: EventJob)
    requires |xs| == |marks| && x in Pick(xs, marks, keep)
    ensures exists i :: 0 <= i < |xs| && xs[i] == x && marks[i] == keep
  {
    var n := |xs| - 1;
    if marks[n] == keep && xs[n] == x {
    } else {
      PickFrom(xs[..n], marks[..n], keep, x);
      var i :| 0 <= i < n && xs[..n][i] == x && marks[..n][i] == keep;
      assert xs[i] == x && marks[i] == keep;
    }
  }

  lemma {:induction false} PickInOrder(xs: seq<EventJob>, marks: seq<bool>, keep: bool)
    requires |xs| == |marks| && InChainOrder(Events(xs))
    ensures InChainOrder(Events(Pick(xs, marks, keep)))
  {
    if xs != [] {
      var n := |xs| - 1;
      var init := Pick(xs[..n], marks[..n], keep);
      assert forall i :: 0 <= i < n ==> Events(xs[..n])[i] == Events(xs)[i];
      PickInOrder(xs[..n], marks[..n], keep);
      var all := Pick(xs, marks, keep);
      forall i, j | 0 <= i < j < |all| ensures Precedes(Events(all)[i], Events(all)[j]) {
        assert i < |init| && Events(all)[i] == Events(init)[i];
        if j < |init| {
          assert Events(all)[j] == Events(init)[j];
        } else {
          PickFrom(xs[..n], marks[..n], keep, init[i]);
          var k :| 0 <= k < n && xs[..n][k] == init[i];
          assert Events(xs)[k] == Events(all)[i] && Events(xs)[n] == Events(all)[j];
        }
      }
    }
  }

  lemma ScanInOrder(c: Config, after: u64, upTo: u64)
    requires Numbered(c.node.chain)
    ensures InChainOrder(Events(Scan(c, after, upTo)))
  {
    BlocksInOrder(c.node.chain, after + 1, upTo);
    NaiveRouteInOrder(c.contracts, Blocks(c.node.chain, after + 1, upTo));
  }

  lemma OrderSpelled(jobs: seq<EventJob>)
    requires InChainOrder(Events(jobs))
    ensures forall i, j :: 0 <= i < j < |jobs| ==>
              jobs[i].event.blockNumber < jobs[j].event.blockNumber
              || (jobs[i].event.blockNumber == jobs[j].event.blockNumber && jobs[i].event.index < jobs[j].event.index)
  {
    forall i, j | 0 <= i < j < |jobs| ensures Precedes(jobs[i].event, jobs[j].event) {
      assert Events(jobs)[i] == jobs[i].event && Events(jobs)[j] == jobs[j].event;
    }
  }

  /** What a scan is: in chain order, the jobs of exactly the logs on the chain in its blocks. */
  lemma ScanMeans(c: Config, after: u64, upTo: u64)
    requires Numbered(c.node.chain)
    ensures var jobs := Scan(c, after, upTo);
            forall i, j :: 0 <= i < j < |jobs| ==>
              jobs[i].event.blockNumber < jobs[j].event.blockNumber
              || (jobs[i].event.blockNumber == jobs[j].event.blockNumber && jobs[i].event.index < jobs[j].event.index)
    ensures forall job :: job in Scan(c, after, upTo) <==>
              && after < job.event.blockNumber <= upTo && job.event in c.node.chain(job.event.blockNumber)
              && NaiveJob(c.contracts, job.event) == Some(job)
  {
    ScanInOrder(c, after, upTo);
    var jobs := Scan(c, after, upTo);
    OrderSpelled(jobs);
    forall job ensures job in jobs <==>
      after < job.event.blockNumber <= upTo && job.event in c.node.chain(job.event.blockNumber)
      && NaiveJob(c.contracts, job.event) == Some(job)
    {
      var logs := Blocks(c.node.chain, after + 1, upTo);
      NaiveRouteMembers(c.contracts, logs, job);
      BlocksMembers(c.node.chain, after + 1, upTo, job.event);
      if job.event in logs {
        BlocksRange(c.node.chain, after + 1, upTo, job.event);
      }
    }
  }

  lemma PrefixInOrder(part: seq<EventJob>, all: seq<EventJob>)
    requires part <= all && InChainOrder(Events(all))
    ensures InChainOrder(Events(part))
  {
    assert forall i :: 0 <= i < |part| ==> Events(part)[i] == Events(all)[i];
  }

  /** Over any run, jobs are offered, and sent, in chain order and no chain position twice: so none is queued twice, and none is both
      queued and dropped, whatever polls fail and are retried. */
  lemma AtMostOnce(c: Config, s: State)
    requires WellFormed(c) && Numbered(c.node.chain)
    requires Reachable(c, s) && Frontier(s) < TWO_63
    ensures var jobs := s.h.offered;
            forall i, j :: 0 <= i < j < |jobs| ==>
              jobs[i].event.blockNumber < jobs[j].event.blockNumber
              || (jobs[i].event.blockNumber == jobs[j].event.blockNumber && jobs[i].event.index < jobs[j].event.index)
    ensures var jobs := Sent(s.h);
            forall i, j :: 0 <= i < j < |jobs| ==>
              jobs[i].event.blockNumber < jobs[j].event.blockNumber
              || (jobs[i].event.blockNumber == jobs[j].event.blockNumber && jobs[i].event.index < jobs[j].event.index)
  {
    hide Scan, Reaches, InChainOrder, Offered, Conserved, Tiles;
    ReachableInv(c, s);
    if s.poller.NotStarted? {
      NoneInOrder(s.h.offered);
    } else {
      OfferedIsScanPrefix(c, s);
      ScanInOrder(c, c.startBlock, Frontier(s));
      PrefixInOrder(s.h.offered, Scan(c, c.startBlock, Frontier(s)));
    }
    PickInOrder(s.h.offered, s.h.fates, true);
    OrderSpelled(s.h.offered);
    OrderSpelled(Sent(s.h));
  }

  lemma NoneInOrder(jobs: seq<EventJob>)
    requires jobs == []
    ensures InChainOrder(Events(jobs))
  {
  }

  /** No job has met a full channel. */
  ghost predicate Lossless(h: History) {
    forall i :: 0 <= i < |h.fates| ==> h.fates[i]
  }

  lemma {:induction false} PickAll(xs: seq<EventJob>, marks: seq<bool>)
    requires |xs| == |marks| && forall i :: 0 <= i < |marks| ==> marks[i]
    ensures Pick(xs, marks, true) == xs
  {
    if xs != [] {
      var n := |xs| - 1;
      PickAll(xs[..n], marks[..n]);
      assert xs == xs[..n] + [xs[n]];
    }
  }

  /** Between windows and with nothing dropped, what was enqueued is one scan of (startBlock, cursor]:
      maxBlockSpan, failed polls and intermediate heads leave no trace in it. */
  lemma LosslessIsScan(c: Config, s: State)
    requires WellFormed(c) && Reachable(c, s) && !s.poller.NotStarted? && s.cursor < TWO_63
    requires OpenWindow(s.poller).None? && Lossless(s.h)
    ensures Sent(s.h) == Scan(c, c.startBlock, s.cursor)
  {
    OfferedIsScanPrefix(c, s);
    PickAll(s.h.offered, s.h.fates);
  }

  /** Two watchers of the same chain, contracts and start, however they batch, retry and are
      scheduled, enqueue the same jobs in the same order once they reach the same block. */
  lemma BatchIndependence(c: Config, s: State, d: Config, t: State)
    requires WellFormed(c) && Reachable(c, s) && !s.poller.NotStarted? && OpenWindow(s.poller).None?
    requires WellFormed(d) && Reachable(d, t) && !t.poller.NotStarted? && OpenWindow(t.poller).None?
    requires c.contracts == d.contracts && c.startBlock == d.startBlock && c.node.chain == d.node.chain
    requires s.cursor == t.cursor < TWO_63
    requires Lossless(s.h) && Lossless(t.h)
    ensures Sent(s.h) == Sent(t.h)
  {
    LosslessIsScan(c, s);
    LosslessIsScan(d, t);
  }

  // ---- Drops ----

  /** How many jobs of the open window cannot fit the channel unless a worker makes room. */
  function Excess(c: Config, s: State): nat {
    if s.poller.Dispatching? && |s.queue| + |s.poller.rest| > c.queueSize
    then |s.queue| + |s.poller.rest| - c.queueSize else 0
  }

  function Drops(s: State): nat { |Dropped(s.h)| }

  lemma DropByOffer(c: Config, s: State, a: Action)
    requires Lifecycle(c, s) && |s.h.offered| == |s.h.fates| && Enabled(c, s, a) && (a.Send? || a.Drop?)
    ensures var t := Step(c, s, a);
            |t.h.offered| == |t.h.fates| && Drops(t) + Excess(c, t) == Drops(s) + Excess(c, s)
  {
    hide Live;
    PickAppend(s.h.offered, s.h.fates, false, s.poller.rest[0], a.Send?);
  }

  lemma DropByOther(c: Config, s: State, a: Action)
    requires Lifecycle(c, s) && Enabled(c, s, a) && !a.Send? && !a.Drop? && !a.Fetched?
    ensures var t := Step(c, s, a);
            && t.h.offered == s.h.offered && t.h.fates == s.h.fates
            && Excess(c, t) <= Excess(c, s)
            && (!a.Take? && !a.Abort? ==> Excess(c, t) == Excess(c, s))
  {
    hide Live;
  }

  lemma DropStep(c: Config, s: State, a: Action)
    requires Lifecycle(c, s) && |s.h.offered| == |s.h.fates| && Enabled(c, s, a) && !a.Fetched?
    ensures var t := Step(c, s, a); |t.h.offered| == |t.h.fates|
    ensures Drops(Step(c, s, a)) + Excess(c, Step(c, s, a)) <= Drops(s) + Excess(c, s)
    ensures !a.Take? && !a.Abort? ==> Drops(Step(c, s, a)) + Excess(c, Step(c, s, a)) == Drops(s) + Excess(c, s)
  {
    hide Step, Lifecycle;
    if a.Send? || a.Drop? {
      DropByOffer(c, s, a);
    } else {
      DropByOther(c, s, a);
    }
  }

  predicate SameWindow(acts: seq<Action>) {
    forall i :: 0 <= i < |acts| ==> !acts[i].Fetched?
  }

  predicate NoRoomMade(acts: seq<Action>) {
    forall i :: 0 <= i < |acts| ==> !acts[i].Take? && !acts[i].Abort?
  }

  lemma {:induction false} DropBound(c: Config, s: State, acts: seq<Action>)
    requires Lifecycle(c, s) && |s.h.offered| == |s.h.fates| && Run(c, s, acts) && SameWindow(acts)
    ensures Drops(Exec(c, s, acts)) + Excess(c, Exec(c, s, acts)) <= Drops(s) + Excess(c, s)
    ensures NoRoomMade(acts) && !Exec(c, s, acts).poller.Dispatching?
            ==> Drops(Exec(c, s, acts)) == Drops(s) + Excess(c, s)
    decreases |acts|
  {
    if acts != [] {
      DropStep(c, s, acts[0]);
      LifecycleStep(c, s, acts[0]);
      DropBound(c, Step(c, s, acts[0]), acts[1..]);
    }
  }

  /** A window that begins to be sent with n jobs queued and m to send loses at most
      max(0, n + m - queueSize) jobs under any worker schedule, so none when n + m fits; and exactly
      that many when it is sent to the end while no worker takes a job and the context stays live. */
  lemma WindowDrops(c: Config, s: State, acts: seq<Action>)
    requires WellFormed(c) && Reachable(c, s) && s.poller.Dispatching?
    requires Run(c, s, acts) && SameWindow(acts)
    ensures var t, overflow := Exec(c, s, acts), |s.queue| + |s.poller.rest| - c.queueSize;
            && |t.queue| <= c.queueSize
            && Drops(t) - Drops(s) <= (if overflow > 0 then overflow else 0)
            && (NoRoomMade(acts) && !t.poller.Dispatching? ==> Drops(t) - Drops(s) == if overflow > 0 then overflow else 0)
  {
    ReachableInv(c, s);
    DropBound(c, s, acts);
    InvRun(c, s, acts);
  }
}
