/** Exactly which tables the schedules of a fleet can leave. */
module Schedules {
  import opened Bytes
  import opened Routing
  import opened Machine
  import opened Invariants
  import opened Records
  import opened Replays
  import opened Handlers
  import opened Fleet
  import opened Rescheduling

  // ---- The first and the last job of a sort, and the rows they decide ----

  function LastSuch(p: EventJob -> bool, jobs: seq<EventJob>): Option<EventJob> {
    if jobs == [] then None
    else
      var n := |jobs| - 1;
      if p(jobs[n]) then Some(jobs[n]) else LastSuch(p, jobs[..n])
  }

  function FirstSuch(p: EventJob -> bool, jobs: seq<EventJob>): Option<EventJob> {
    if jobs == [] then None
    else
      var n := |jobs| - 1;
      var earlier := FirstSuch(p, jobs[..n]);
      if earlier.Some? then earlier else if p(jobs[n]) then Some(jobs[n]) else None
  }

  /** The jobs that write that group of that row. */
  function Sets(abi: Abi, id: string, kind: Kind): EventJob -> bool {
    (job: EventJob) => var w := WriteOf(abi, job); w.Some? && Writes(w.value, id, kind)
  }

  /** The jobs that insert an order under that id. */
  function Inserts(abi: Abi, id: string): EventJob -> bool {
    (job: EventJob) => var w := WriteOf(abi, job); w.Some? && w.value.Insert? && w.value.order.createID == id
  }

  lemma WritesSnoc(abi: Abi, jobs: seq<EventJob>)
    requires jobs != []
    ensures var n := |jobs| - 1;
            var earlier, last := WritesOf(abi, jobs[..n]), WriteOf(abi, jobs[n]);
            && (last.None? ==> WritesOf(abi, jobs) == earlier)
            && (last.Some? ==> WritesOf(abi, jobs) == earlier + [last.value] && WritesOf(abi, jobs)[..|earlier|] == earlier)
  {
    hide WriteOf;
  }

  lemma {:induction false} LastGroupBySuch(abi: Abi, jobs: seq<EventJob>, id: string, kind: Kind, before: Group)
    ensures var last := LastSuch(Sets(abi, id, kind), jobs);
            && (last.None? ==> LastGroup(WritesOf(abi, jobs), id, kind, before) == before)
            && (last.Some? ==> WriteOf(abi, last.value) == Some(Update(id, LastGroup(WritesOf(abi, jobs), id, kind, before)))
                               && LastGroup(WritesOf(abi, jobs), id, kind, before).Kind() == kind)
  {
    if jobs != [] {
      LastGroupBySuch(abi, jobs[..|jobs| - 1], id, kind, before);
      WritesSnoc(abi, jobs);
      hide WriteOf, WritesOf;
    }
  }

  lemma {:induction false} FirstOrderBySuch(abi: Abi, jobs: seq<EventJob>, id: string)
    ensures var first, order := FirstSuch(Inserts(abi, id), jobs), FirstOrder(WritesOf(abi, jobs), id);
            && (first.None? <==> order.None?)
            && (first.Some? ==> WriteOf(abi, first.value) == Some(Insert(order.value)) && order.value.createID == id)
  {
    if jobs != [] {
      FirstOrderBySuch(abi, jobs[..|jobs| - 1], id);
      WritesSnoc(abi, jobs);
      hide WriteOf, WritesOf;
    }
  }

  lemma {:induction false} LastSuchConcat(p: EventJob -> bool, a: seq<EventJob>, b: seq<EventJob>)
    ensures LastSuch(p, a + b) == if LastSuch(p, b).Some? then LastSuch(p, b) else LastSuch(p, a)
  {
    if b == [] {
      assert a + b == a;
    } else {
      var n := |b| - 1;
      LastSuchConcat(p, a, b[..n]);
      assert (a + b)[..|a| + n] == a + b[..n];
    }
  }

  lemma {:induction false} FirstSuchConcat(p: EventJob -> bool, a: seq<EventJob>, b: seq<EventJob>)
    ensures FirstSuch(p, a + b) == if FirstSuch(p, a).Some? then FirstSuch(p, a) else FirstSuch(p, b)
  {
    if b == [] {
      assert a + b == a;
    } else {
      var n := |b| - 1;
      FirstSuchConcat(p, a, b[..n]);
      assert (a + b)[..|a| + n] == a + b[..n];
    }
  }

  lemma FirstInPrefix(p: EventJob -> bool, front: seq<EventJob>, jobs: seq<EventJob>)
    requires front <= jobs && FirstSuch(p, front).Some?
    ensures FirstSuch(p, jobs) == FirstSuch(p, front)
  {
    FirstSuchConcat(p, front, jobs[|front|..]);
    assert front + jobs[|front|..] == jobs;
  }

  /** The position of the last job of a sort. */
  lemma {:induction false} LastSuchAt(p: EventJob -> bool, jobs: seq<EventJob>) returns (i: nat)
    requires LastSuch(p, jobs).Some?
    ensures i < |jobs| && p(jobs[i]) && LastSuch(p, jobs) == Some(jobs[i])
    ensures forall j :: i < j < |jobs| ==> !p(jobs[j])
  {
    var n := |jobs| - 1;
    if p(jobs[n]) {
      i := n;
    } else {
      i := LastSuchAt(p, jobs[..n]);
      forall j | i < j < |jobs| ensures !p(jobs[j]) {
        assert j < n ==> jobs[..n][j] == jobs[j];
      }
    }
  }

  lemma {:induction false} LastSuchIs(p: EventJob -> bool, jobs: seq<EventJob>, i: nat)
    requires i < |jobs| && p(jobs[i]) && forall j :: i < j < |jobs| ==> !p(jobs[j])
    ensures LastSuch(p, jobs) == Some(jobs[i])
  {
    var n := |jobs| - 1;
    if i < n {
      forall j | i < j < n ensures !p(jobs[..n][j]) {
        assert jobs[..n][j] == jobs[j];
      }
      LastSuchIs(p, jobs[..n], i);
    }
  }

  // ---- Putting runs of single watchers together ----

  lemma StepOne(abi: Abi, cs: seq<Config>, db: Db, f: Fleet, i: nat, a: Action) returns (g: Fleet, ran: seq<EventJob>)
    requires FleetReachable(abi, cs, db, f) && |f.ws| == |cs| && i < |cs| && Enabled(cs[i], f.ws[i], a)
    requires a.Finish? ==> !Panics(f.ws[i].workers[a.w].job)
    ensures FleetReachable(abi, cs, db, g) && g.ws == f.ws[i := Step(cs[i], f.ws[i], a)]
    ensures Step(cs[i], f.ws[i], a).h.finished == f.ws[i].h.finished + ran && g.applied == f.applied + ran
  {
    FinishedGrows(cs[i], f.ws[i], a);
    ran := if a.Finish? then [f.ws[i].workers[a.w].job] else [];
    hide FleetReachable, ApplyJob, Step;
    var m := Move(i, a);
    g := Advance(abi, cs, f, m);
    MoveReaches(abi, cs, db, f, m);
  }

  lemma {:induction false} FinishedKept(c: Config, s: State, acts: seq<Action>)
    requires Run(c, s, acts)
    ensures s.h.finished <= Exec(c, s, acts).h.finished
    decreases |acts|
  {
    if acts != [] {
      FinishedGrows(c, s, acts[0]);
      hide Step, Enabled;
      FinishedKept(c, Step(c, s, acts[0]), acts[1..]);
    }
  }

  lemma FinishedFirst(c: Config, s: State, acts: seq<Action>)
    requires acts != [] && Run(c, s, acts) && Calm(Exec(c, s, acts).h.finished)
    ensures acts[0].Finish? ==> Enabled(c, s, acts[0]) && !Panics(s.workers[acts[0].w].job)
  {
    if acts[0].Finish? {
      var job := s.workers[acts[0].w].job;
      FinishedGrows(c, s, acts[0]);
      FinishedKept(c, Step(c, s, acts[0]), acts[1..]);
      hide Step, Enabled;
      assert Exec(c, s, acts).h.finished[|s.h.finished|] == job;
    }
  }

  /** Any run of one watcher that no handler's panic ends is a run of the fleet in which the others
      stand still. */
  lemma {:induction false} RunOne(abi: Abi, cs: seq<Config>, db: Db, f: Fleet, i: nat, acts: seq<Action>)
    returns (g: Fleet, ran: seq<EventJob>)
    requires FleetReachable(abi, cs, db, f) && |f.ws| == |cs| && i < |cs| && Run(cs[i], f.ws[i], acts)
    requires Calm(Exec(cs[i], f.ws[i], acts).h.finished)
    ensures FleetReachable(abi, cs, db, g) && g.ws == f.ws[i := Exec(cs[i], f.ws[i], acts)]
    ensures Exec(cs[i], f.ws[i], acts).h.finished == f.ws[i].h.finished + ran && g.applied == f.applied + ran
    decreases |acts|
  {
    hide FleetReachable, Step, Enabled;
    if acts == [] {
      g, ran := f, [];
    } else {
      FinishedFirst(cs[i], f.ws[i], acts);
      var mid, one := StepOne(abi, cs, db, f, i, acts[0]);
      var rest: seq<EventJob>;
      g, rest := RunOne(abi, cs, db, mid, i, acts[1..]);
      ran := one + rest;
    }
  }

  /** The fleet in which watcher i has gone from its start to s. */
  lemma BringTo(abi: Abi, cs: seq<Config>, db: Db, f: Fleet, i: nat, s: State) returns (g: Fleet)
    requires FleetReachable(abi, cs, db, f) && |f.ws| == |cs| && i < |cs| && f.ws[i] == Init()
    requires Reachable(cs[i], s) && Calm(s.h.finished)
    ensures FleetReachable(abi, cs, db, g) && g.ws == f.ws[i := s] && g.applied == f.applied + s.h.finished
  {
    hide FleetReachable;
    var acts :| Run(cs[i], Init(), acts) && Exec(cs[i], Init(), acts) == s;
    var ran: seq<EventJob>;
    g, ran := RunOne(abi, cs, db, f, i, acts);
    assert [] + ran == ran;
  }

  ghost predicate AllReachable(cs: seq<Config>, ts: seq<State>) {
    |cs| == |ts| && forall i :: 0 <= i < |cs| ==> Reachable(cs[i], ts[i]) && Calm(ts[i].h.finished)
  }

  /** The first n watchers but one brought to their states, after whatever f has applied. */
  lemma {:induction false} BringOthers(abi: Abi, cs: seq<Config>, db: Db, f: Fleet, ts: seq<State>, n: nat, but: nat)
    returns (g: Fleet, ran: seq<EventJob>)
    requires FleetReachable(abi, cs, db, f) && |f.ws| == |cs| && AllReachable(cs, ts) && n <= |cs|
    requires forall j :: 0 <= j < n && j != but ==> f.ws[j] == Init()
    ensures FleetReachable(abi, cs, db, g) && |g.ws| == |cs| && g.applied == f.applied + ran
    ensures forall j :: 0 <= j < |cs| ==> g.ws[j] == if j < n && j != but then ts[j] else f.ws[j]
  {
    hide FleetReachable, Reaches;
    if n == 0 {
      g, ran := f, [];
    } else {
      var mid: Fleet;
      mid, ran := BringOthers(abi, cs, db, f, ts, n - 1, but);
      g := mid;
      if n - 1 != but {
        g := BringTo(abi, cs, db, mid, n - 1, ts[n - 1]);
        ran := ran + ts[n - 1].h.finished;
      }
    }
  }

  /** Any states of the watchers are those of a fleet that ran watcher i last, and of one that ran it first. */
  lemma Assemble(abi: Abi, cs: seq<Config>, db: Db, ts: seq<State>, i: nat) returns (last: Fleet, first: Fleet)
    requires AllReachable(cs, ts) && i < |cs|
    ensures FleetReachable(abi, cs, db, last) && last.ws == ts
    ensures FleetReachable(abi, cs, db, first) && first.ws == ts
    ensures ts[i].h.finished <= first.applied
    ensures |ts[i].h.finished| <= |last.applied| && last.applied[|last.applied| - |ts[i].h.finished|..] == ts[i].h.finished
  {
    hide FleetReachable, Reaches;
    LaunchReachable(abi, cs, db);
    var start := Launch(cs, db);
    var ran: seq<EventJob>;
    var others: Fleet;
    others, ran := BringOthers(abi, cs, db, start, ts, |cs|, i);
    last := BringTo(abi, cs, db, others, i, ts[i]);
    assert last.ws == ts;
    var own := BringTo(abi, cs, db, start, i, ts[i]);
    first, ran := BringOthers(abi, cs, db, own, ts, |cs|, i);
    assert first.ws == ts;
    assert own.applied == [] + ts[i].h.finished == ts[i].h.finished;
  }

  // ---- Schedules of the same queues ----

  /** g has enqueued what f has, watcher by watcher, and handled all of it. */
  ghost predicate Reschedules(abi: Abi, cs: seq<Config>, db: Db, f: Fleet, g: Fleet) {
    && FleetReachable(abi, cs, db, g) && Quiet(g) && |g.ws| == |f.ws|
    && forall i :: 0 <= i < |f.ws| ==> Sent(g.ws[i].h) == Sent(f.ws[i].h)
  }

  lemma {:induction false} SameAllSent(a: seq<State>, b: seq<State>)
    requires |a| == |b| && forall i :: 0 <= i < |a| ==> Sent(a[i].h) == Sent(b[i].h)
    ensures AllSent(a) == AllSent(b)
  {
    hide Sent;
    if a != [] {
      SameAllSent(a[..|a| - 1], b[..|b| - 1]);
    }
  }

  lemma QuietWatcher(cs: seq<Config>, f: Fleet, i: nat)
    requires AllWellFormed(cs) && i < |cs| == |f.ws| && Reachable(cs[i], f.ws[i]) && Quiet(f)
    ensures AllIdle(f.ws[i]) && f.ws[i].h.taken == Sent(f.ws[i].h)
  {
    ReachableInv(cs[i], f.ws[i]);
  }

  // ---- What a swap can end with ----

  /** From this queue the last write of that group can be that one: some job makes it, and with one
      worker only if none after it writes the group too. */
  ghost predicate CanEnd(abi: Abi, c: Config, sent: seq<EventJob>, id: string, g: Group) {
    exists i :: 0 <= i < |sent| && EndsAt(abi, c, sent, id, g, i)
  }

  ghost predicate EndsAt(abi: Abi, c: Config, sent: seq<EventJob>, id: string, g: Group, i: nat)
    requires i < |sent|
  {
    && WriteOf(abi, sent[i]) == Some(Update(id, g))
    && (c.workerCount > 1 || forall j :: i < j < |sent| ==> !Sets(abi, id, g.Kind())(sent[j]))
  }

  lemma {:induction false} HoldOne(jobs: seq<EventJob>, i: nat)
    ensures Chosen(jobs, (j: nat) => j == i, true) == if i < |jobs| then [jobs[i]] else []
  {
    if jobs != [] {
      HoldOne(jobs[..|jobs| - 1], i);
    }
  }

  /** One watcher's part of a schedule that ends with that write. */
  lemma EndWith(abi: Abi, c: Config, s: State, id: string, g: Group, i: nat) returns (u: State)
    requires WellFormed(c) && Reachable(c, s) && AllIdle(s) && s.h.taken == Sent(s.h)
    requires i < |s.h.taken| && EndsAt(abi, c, s.h.taken, id, g, i)
    ensures Reachable(c, u) && AllIdle(u) && Sent(u.h) == Sent(s.h)
    ensures LastSuch(Sets(abi, id, g.Kind()), u.h.finished) == Some(s.h.taken[i])
  {
    hide Reaches;
    var p := Sets(abi, id, g.Kind());
    if c.workerCount > 1 {
      var held := (j: nat) => j == i;
      HoldOne(s.h.taken, i);
      u := Reschedule(c, s, held);
      var front, back := Chosen(s.h.taken, held, false), [s.h.taken[i]];
      LastSuchConcat(p, front, back);
      assert LastSuch(p, back) == Some(s.h.taken[i]);
    } else {
      u := s;
      SoleWorker(c, s);
      LastSuchIs(p, s.h.taken, i);
    }
  }

  /** The last write of a group is the last one of some watcher's workers. */
  ghost predicate LastFrom(p: EventJob -> bool, f: Fleet) {
    LastSuch(p, f.applied).Some? ==>
      exists i :: 0 <= i < |f.ws| && LastSuch(p, f.ws[i].h.finished) == LastSuch(p, f.applied)
  }

  lemma LastFromStep(abi: Abi, cs: seq<Config>, p: EventJob -> bool, f: Fleet, m: Move)
    requires LastFrom(p, f) && CanMove(cs, f, m)
    ensures LastFrom(p, Advance(abi, cs, f, m))
  {
    var g := Advance(abi, cs, f, m);
    var s, t := f.ws[m.i], g.ws[m.i];
    FinishedGrows(cs[m.i], s, m.a);
    hide Step, Enabled, ApplyJob;
    var ran := if m.a.Finish? then [s.workers[m.a.w].job] else [];
    assert g.applied == f.applied + ran;
    LastSuchConcat(p, f.applied, ran);
    LastSuchConcat(p, s.h.finished, ran);
    if LastSuch(p, ran).Some? {
      assert LastSuch(p, g.ws[m.i].h.finished) == LastSuch(p, g.applied);
    } else if LastSuch(p, g.applied).Some? {
      var i :| 0 <= i < |f.ws| && LastSuch(p, f.ws[i].h.finished) == LastSuch(p, f.applied);
      assert LastSuch(p, g.ws[i].h.finished) == LastSuch(p, g.applied);
    }
  }

  lemma {:induction false} LastFromRun(abi: Abi, cs: seq<Config>, p: EventJob -> bool, f: Fleet, ms: seq<Move>)
    requires LastFrom(p, f) && FleetRun(abi, cs, f, ms)
    ensures LastFrom(p, FleetExec(abi, cs, f, ms))
    decreases |ms|
  {
    hide LastFrom, CanMove, Advance;
    if ms != [] {
      LastFromStep(abi, cs, p, f, ms[0]);
      LastFromRun(abi, cs, p, Advance(abi, cs, f, ms[0]), ms[1..]);
    }
  }

  lemma FinishedInSent(c: Config, s: State, job: EventJob) returns (i: nat)
    requires WellFormed(c) && Reachable(c, s) && job in s.h.finished
    ensures i < |Sent(s.h)| && Sent(s.h)[i] == job
  {
    FinishedIsSent(c, s, job);
    i :| 0 <= i < |Sent(s.h)| && Sent(s.h)[i] == job;
  }

  /** What a quiet watcher finished last of a group, its queue can end with. */
  lemma FinishedCanEnd(abi: Abi, c: Config, s: State, id: string, g: Group)
    requires WellFormed(c) && Reachable(c, s) && AllIdle(s)
    requires var last := LastSuch(Sets(abi, id, g.Kind()), s.h.finished);
             last.Some? && WriteOf(abi, last.value) == Some(Update(id, g))
    ensures CanEnd(abi, c, Sent(s.h), id, g)
  {
    hide Reaches, WriteOf;
    var p := Sets(abi, id, g.Kind());
    var i := LastSuchAt(p, s.h.finished);
    if c.workerCount > 1 {
      var j := FinishedInSent(c, s, s.h.finished[i]);
      assert EndsAt(abi, c, Sent(s.h), id, g, j);
    } else {
      SoleWorker(c, s);
      assert EndsAt(abi, c, Sent(s.h), id, g, i);
    }
  }

  lemma AllReachableBut(abi: Abi, cs: seq<Config>, db: Db, f: Fleet, i: nat, u: State)
    requires AllWellFormed(cs) && FleetReachable(abi, cs, db, f) && Quiet(f) && i < |cs|
    requires Reachable(cs[i], u) && |f.ws| == |cs| && Sent(u.h) == Sent(f.ws[i].h)
    ensures AllReachable(cs, f.ws[i := u])
  {
    FleetReachableInv(abi, cs, db, f);
    hide FleetReachable, Reaches, Replay, Sent;
    forall j, job | 0 <= j < |cs| && job in f.ws[j].h.finished ensures !Panics(job) {
      assert FinishedBy(f.ws, job);
    }
    forall job | job in u.h.finished ensures !Panics(job) {
      FinishedIsSent(cs[i], u, job);
      FinishedIsSent(cs[i], f.ws[i], job);
    }
  }

  /** Replacing one watcher by another idle one with the same queue makes another schedule. */
  lemma MovedReschedules(abi: Abi, cs: seq<Config>, db: Db, f: Fleet, i: nat, u: State, h: Fleet)
    requires i < |f.ws| && Quiet(f) && AllIdle(u) && Sent(u.h) == Sent(f.ws[i].h)
    requires FleetReachable(abi, cs, db, h) && h.ws == f.ws[i := u]
    ensures Reschedules(abi, cs, db, f, h)
  {
    hide FleetReachable, Sent;
  }

  /** The last write of a group decides it. */
  lemma LastDecides(abi: Abi, cs: seq<Config>, db: Db, h: Fleet, id: string, g: Group)
    requires FleetReachable(abi, cs, db, h) && id in db.swaps
    requires var last := LastSuch(Sets(abi, id, g.Kind()), h.applied);
             last.Some? && WriteOf(abi, last.value) == Some(Update(id, g))
    ensures id in h.db.swaps && Get(h.db.swaps[id], g.Kind()) == g
  {
    FleetReachableInv(abi, cs, db, h);
    hide FleetReachable, WriteOf, WritesOf, Replay;
    ReplaySwaps(db, WritesOf(abi, h.applied), id);
    LastGroupBySuch(abi, h.applied, id, g.Kind(), Get(db.swaps[id], g.Kind()));
  }

  /** A schedule of f's queues that leaves that group. */
  lemma ScheduleTo(abi: Abi, cs: seq<Config>, db: Db, f: Fleet, id: string, g: Group, i: nat) returns (h: Fleet)
    requires AllWellFormed(cs) && FleetReachable(abi, cs, db, f) && Quiet(f) && id in db.swaps
    requires i < |cs| == |f.ws| && CanEnd(abi, cs[i], Sent(f.ws[i].h), id, g)
    ensures Reschedules(abi, cs, db, f, h) && id in h.db.swaps && Get(h.db.swaps[id], g.Kind()) == g
  {
    assert forall j :: 0 <= j < |cs| ==> Reachable(cs[j], f.ws[j]) by { FleetReachableInv(abi, cs, db, f); }
    QuietWatcher(cs, f, i);
    var at :| 0 <= at < |Sent(f.ws[i].h)| && EndsAt(abi, cs[i], Sent(f.ws[i].h), id, g, at);
    var job := Sent(f.ws[i].h)[at];
    hide FleetReachable, Reaches, WriteOf, Quiet, AllIdle, Sent, CanEnd, Reschedules;
    var u := EndWith(abi, cs[i], f.ws[i], id, g, at);
    AllReachableBut(abi, cs, db, f, i, u);
    var first: Fleet;
    h, first := Assemble(abi, cs, db, f.ws[i := u], i);
    MovedReschedules(abi, cs, db, f, i, u, h);
    var front := h.applied[..|h.applied| - |u.h.finished|];
    assert h.applied == front + u.h.finished;
    LastSuchConcat(Sets(abi, id, g.Kind()), front, u.h.finished);
    hide AllWellFormed, AllReachable, LastSuch, Sets;
    assert WriteOf(abi, job) == Some(Update(id, g));
    LastDecides(abi, cs, db, h, id, g);
  }

  /** Over all schedules of what a fleet enqueued, a group of a row can end as g exactly when some
      watcher's queue can end with it, or nothing enqueued writes the group and it was g before. */
  lemma SwapOutcomes(abi: Abi, cs: seq<Config>, db: Db, f: Fleet, id: string, g: Group)
    requires AllWellFormed(cs) && FleetReachable(abi, cs, db, f) && Quiet(f) && |f.ws| == |cs| && id in db.swaps
    ensures (exists h :: Reschedules(abi, cs, db, f, h) && id in h.db.swaps && Get(h.db.swaps[id], g.Kind()) == g) <==>
            ((exists i :: 0 <= i < |cs| && CanEnd(abi, cs[i], Sent(f.ws[i].h), id, g)) ||
             (g == Get(db.swaps[id], g.Kind()) && forall job :: job in AllSent(f.ws) ==> !Sets(abi, id, g.Kind())(job)))
  {
    hide Reschedules, CanEnd;
    if i :| 0 <= i < |cs| && CanEnd(abi, cs[i], Sent(f.ws[i].h), id, g) {
      var h := ScheduleTo(abi, cs, db, f, id, g, i);
    } else if g == Get(db.swaps[id], g.Kind()) && forall job :: job in AllSent(f.ws) ==> !Sets(abi, id, g.Kind())(job) {
      Untouched(abi, cs, db, f, id, g.Kind());
    }
    forall h | Reschedules(abi, cs, db, f, h) && id in h.db.swaps && Get(h.db.swaps[id], g.Kind()) == g
      ensures (exists i :: 0 <= i < |cs| && CanEnd(abi, cs[i], Sent(f.ws[i].h), id, g)) ||
              (g == Get(db.swaps[id], g.Kind()) && forall job :: job in AllSent(f.ws) ==> !Sets(abi, id, g.Kind())(job))
    {
      OutcomeExplained(abi, cs, db, f, h, id, g);
    }
  }

  lemma {:induction false} NoSuchLast(p: EventJob -> bool, jobs: seq<EventJob>)
    ensures LastSuch(p, jobs).None? <==> forall job :: job in jobs ==> !p(job)
  {
    if jobs != [] {
      NoSuchLast(p, jobs[..|jobs| - 1]);
      assert jobs == jobs[..|jobs| - 1] + [jobs[|jobs| - 1]];
    }
  }

  lemma Untouched(abi: Abi, cs: seq<Config>, db: Db, f: Fleet, id: string, kind: Kind)
    requires AllWellFormed(cs) && FleetReachable(abi, cs, db, f) && Quiet(f) && id in db.swaps
    requires forall job :: job in AllSent(f.ws) ==> !Sets(abi, id, kind)(job)
    ensures Reschedules(abi, cs, db, f, f) && id in f.db.swaps && Get(f.db.swaps[id], kind) == Get(db.swaps[id], kind)
  {
    FleetReachableInv(abi, cs, db, f);
    forall job | job in f.applied ensures !Sets(abi, id, kind)(job) {
      AppliedIsSent(abi, cs, db, f, job);
    }
    hide FleetReachable, WriteOf;
    NoSuchLast(Sets(abi, id, kind), f.applied);
    LastGroupBySuch(abi, f.applied, id, kind, Get(db.swaps[id], kind));
    ReplaySwaps(db, WritesOf(abi, f.applied), id);
  }

  lemma OutcomeExplained(abi: Abi, cs: seq<Config>, db: Db, f: Fleet, h: Fleet, id: string, g: Group)
    requires AllWellFormed(cs) && |f.ws| == |cs| && id in db.swaps && Reschedules(abi, cs, db, f, h)
    requires id in h.db.swaps && Get(h.db.swaps[id], g.Kind()) == g
    ensures (exists i :: 0 <= i < |cs| && CanEnd(abi, cs[i], Sent(f.ws[i].h), id, g)) ||
            (g == Get(db.swaps[id], g.Kind()) && forall job :: job in AllSent(f.ws) ==> !Sets(abi, id, g.Kind())(job))
  {
    var p := Sets(abi, id, g.Kind());
    assert LastFrom(p, h) by {
      var ms :| FleetRun(abi, cs, Launch(cs, db), ms) && FleetExec(abi, cs, Launch(cs, db), ms) == h;
      LastFromRun(abi, cs, p, Launch(cs, db), ms);
    }
    FleetReachableInv(abi, cs, db, h);
    hide FleetReachable, Reaches, WriteOf, Replay, WritesOf, CanEnd;
    LastGroupBySuch(abi, h.applied, id, g.Kind(), Get(db.swaps[id], g.Kind()));
    ReplaySwaps(db, WritesOf(abi, h.applied), id);
    if LastSuch(p, h.applied).Some? {
      var i :| 0 <= i < |h.ws| && LastSuch(p, h.ws[i].h.finished) == LastSuch(p, h.applied);
      QuietWatcher(cs, h, i);
      FinishedCanEnd(abi, cs[i], h.ws[i], id, g);
      assert CanEnd(abi, cs[i], Sent(f.ws[i].h), id, g);
    } else {
      NoSuchLast(p, h.applied);
      SameAllSent(h.ws, f.ws);
      forall job | job in AllSent(f.ws) ensures !p(job) {
        AppliedIsSent(abi, cs, db, h, job);
      }
    }
  }

  ghost predicate SwapsSettled(abi: Abi, cs: seq<Config>, db: Db, f: Fleet) {
    forall h :: Reschedules(abi, cs, db, f, h) ==> h.db.swaps == f.db.swaps
  }

  /** No group of any row has two different values that queues can end with. */
  ghost predicate OneEnding(abi: Abi, cs: seq<Config>, db: Db, f: Fleet)
    requires |f.ws| == |cs|
  {
    forall i: nat, j: nat, id, g, h :: id in db.swaps && Ends(abi, cs, f, i, id, g) && Ends(abi, cs, f, j, id, h) ==>
      g.Kind() == h.Kind() ==> g == h
  }

  ghost predicate Ends(abi: Abi, cs: seq<Config>, f: Fleet, i: nat, id: string, g: Group) {
    i < |cs| == |f.ws| && CanEnd(abi, cs[i], Sent(f.ws[i].h), id, g)
  }

  lemma CanEndSets(abi: Abi, f: Fleet, i: nat, c: Config, id: string, g: Group)
    requires i < |f.ws| && CanEnd(abi, c, Sent(f.ws[i].h), id, g)
    ensures exists job :: job in AllSent(f.ws) && Sets(abi, id, g.Kind())(job)
  {
    hide WriteOf;
    var at :| 0 <= at < |Sent(f.ws[i].h)| && EndsAt(abi, c, Sent(f.ws[i].h), id, g, at);
    AllSentMembers(f.ws, Sent(f.ws[i].h)[at]);
    assert Sets(abi, id, g.Kind())(Sent(f.ws[i].h)[at]);
  }

  lemma SameEnding(abi: Abi, cs: seq<Config>, db: Db, f: Fleet, a: Fleet, b: Fleet, id: string, kind: Kind)
    requires AllWellFormed(cs) && |f.ws| == |cs| && OneEnding(abi, cs, db, f) && id in db.swaps
    requires Reschedules(abi, cs, db, f, a) && Reschedules(abi, cs, db, f, b) && id in a.db.swaps && id in b.db.swaps
    ensures Get(a.db.swaps[id], kind) == Get(b.db.swaps[id], kind)
  {
    hide Reschedules, CanEnd, Sets;
    var g, h := Get(a.db.swaps[id], kind), Get(b.db.swaps[id], kind);
    OutcomeExplained(abi, cs, db, f, a, id, g);
    OutcomeExplained(abi, cs, db, f, b, id, h);
    if i :| 0 <= i < |cs| && CanEnd(abi, cs[i], Sent(f.ws[i].h), id, g) {
      CanEndSets(abi, f, i, cs[i], id, g);
      assert Ends(abi, cs, f, i, id, g);
      var j :| 0 <= j < |cs| && CanEnd(abi, cs[j], Sent(f.ws[j].h), id, h);
      assert Ends(abi, cs, f, j, id, h);
    } else if j :| 0 <= j < |cs| && CanEnd(abi, cs[j], Sent(f.ws[j].h), id, h) {
      CanEndSets(abi, f, j, cs[j], id, h);
    }
  }

  lemma SameSwaps(abi: Abi, cs: seq<Config>, db: Db, f: Fleet, a: Fleet, b: Fleet)
    requires AllWellFormed(cs) && |f.ws| == |cs| && OneEnding(abi, cs, db, f)
    requires Reschedules(abi, cs, db, f, a) && Reschedules(abi, cs, db, f, b)
    ensures a.db.swaps == b.db.swaps
  {
    FleetReachableInv(abi, cs, db, a);
    FleetReachableInv(abi, cs, db, b);
    hide FleetReachable, Reaches, Replay, WritesOf, Reschedules, OneEnding;
    forall id
      ensures id in a.db.swaps <==> id in b.db.swaps
      ensures id in a.db.swaps ==> a.db.swaps[id] == b.db.swaps[id]
    {
      ReplaySwaps(db, WritesOf(abi, a.applied), id);
      ReplaySwaps(db, WritesOf(abi, b.applied), id);
      if id in db.swaps {
        forall kind: Kind ensures Get(a.db.swaps[id], kind) == Get(b.db.swaps[id], kind) {
          SameEnding(abi, cs, db, f, a, b, id, kind);
        }
        RowLaws(a.db.swaps[id], b.db.swaps[id], RefundGroup("", 0), Refund);
      }
    }
    assert a.db.swaps == b.db.swaps;
  }

  /** All schedules of what a fleet enqueued leave the same swaps exactly when no group of a row has two
      different values that queues can end with. */
  lemma SwapsSettledIffOneEnding(abi: Abi, cs: seq<Config>, db: Db, f: Fleet)
    requires AllWellFormed(cs) && FleetReachable(abi, cs, db, f) && Quiet(f) && |f.ws| == |cs|
    ensures SwapsSettled(abi, cs, db, f) <==> OneEnding(abi, cs, db, f)
  {
    assert Reschedules(abi, cs, db, f, f);
    hide FleetReachable, Reschedules, Ends, Quiet;
    if OneEnding(abi, cs, db, f) {
      forall h | Reschedules(abi, cs, db, f, h) ensures h.db.swaps == f.db.swaps {
        SameSwaps(abi, cs, db, f, h, f);
      }
    } else {
      hide SwapsSettled;
      var i: nat, j: nat, id, g, h :| id in db.swaps && Ends(abi, cs, f, i, id, g) && Ends(abi, cs, f, j, id, h)
                                      && g.Kind() == h.Kind() && g != h;
      TwoEndings(abi, cs, db, f, i, j, id, g, h);
    }
  }

  lemma TwoEndings(abi: Abi, cs: seq<Config>, db: Db, f: Fleet, i: nat, j: nat, id: string, g: Group, h: Group)
    requires AllWellFormed(cs) && FleetReachable(abi, cs, db, f) && Quiet(f)
    requires id in db.swaps && Ends(abi, cs, f, i, id, g) && Ends(abi, cs, f, j, id, h) && g.Kind() == h.Kind() && g != h
    ensures !SwapsSettled(abi, cs, db, f)
  {
    hide FleetReachable, Reschedules, CanEnd, Quiet;
    var a := ScheduleTo(abi, cs, db, f, id, g, i);
    var b := ScheduleTo(abi, cs, db, f, id, h, j);
    assert a.db.swaps != b.db.swaps;
  }

  lemma WriteCanEnd(abi: Abi, c: Config, sent: seq<EventJob>, w: Write)
    requires c.workerCount > 1 && w in WritesOf(abi, sent) && w.Update?
    ensures CanEnd(abi, c, sent, w.swapID, w.group)
  {
    hide WriteOf;
    WritesMembers(abi, sent, w);
    var job :| job in sent && WriteOf(abi, job) == Some(w);
    var at :| 0 <= at < |sent| && sent[at] == job;
    assert EndsAt(abi, c, sent, w.swapID, w.group, at);
  }

  /** So two racing updates in the queues of watchers with at least two workers are never settled. */
  lemma RacesShow(abi: Abi, cs: seq<Config>, db: Db, f: Fleet, i: nat, j: nat, v: Write, w: Write)
    requires AllWellFormed(cs) && FleetReachable(abi, cs, db, f) && Quiet(f) && |f.ws| == |cs|
    requires i < |cs| && j < |cs| && cs[i].workerCount > 1 && cs[j].workerCount > 1
    requires v in WritesOf(abi, Sent(f.ws[i].h)) && w in WritesOf(abi, Sent(f.ws[j].h)) && UpdateConflict(db, v, w)
    ensures !SwapsSettled(abi, cs, db, f)
  {
    hide FleetReachable, SwapsSettled, CanEnd;
    WriteCanEnd(abi, cs[i], Sent(f.ws[i].h), v);
    WriteCanEnd(abi, cs[j], Sent(f.ws[j].h), w);
    TwoEndings(abi, cs, db, f, i, j, v.swapID, v.group, w.group);
  }

  lemma WriteFrom(abi: Abi, ws: seq<State>, w: Write) returns (i: nat)
    requires w in WritesOf(abi, AllSent(ws))
    ensures i < |ws| && w in WritesOf(abi, Sent(ws[i].h))
  {
    hide WriteOf;
    WritesMembers(abi, AllSent(ws), w);
    var job :| job in AllSent(ws) && WriteOf(abi, job) == Some(w);
    AllSentMembers(ws, job);
    i :| 0 <= i < |ws| && job in Sent(ws[i].h);
    WritesMembers(abi, Sent(ws[i].h), w);
  }

  /** With at least two workers a watcher, they leave the same swaps exactly when no two enqueued
      updates race with different values. */
  lemma SwapsSettledIffAgree(abi: Abi, cs: seq<Config>, db: Db, f: Fleet)
    requires AllWellFormed(cs) && FleetReachable(abi, cs, db, f) && Quiet(f) && |f.ws| == |cs|
    requires forall i :: 0 <= i < |cs| ==> cs[i].workerCount > 1
    ensures SwapsSettled(abi, cs, db, f) <==> AgreeOnSwaps(db, WritesOf(abi, AllSent(f.ws)))
  {
    hide FleetReachable, WritesOf;
    var log := WritesOf(abi, AllSent(f.ws));
    if AgreeOnSwaps(db, log) {
      forall h | Reschedules(abi, cs, db, f, h) ensures h.db.swaps == f.db.swaps {
        SameAllSent(h.ws, f.ws);
        ScheduleIndependence(abi, cs, db, f);
        ScheduleIndependence(abi, cs, db, h);
      }
    } else {
      hide SwapsSettled;
      var v, w :| v in log && w in log && UpdateConflict(db, v, w);
      var i := WriteFrom(abi, f.ws, v);
      var j := WriteFrom(abi, f.ws, w);
      RacesShow(abi, cs, db, f, i, j, v, w);
    }
  }

  // ---- One watcher with one worker ----

  lemma {:induction false} SoleWatcherApplies(abi: Abi, cs: seq<Config>, f: Fleet, ms: seq<Move>)
    requires |cs| == 1 && |f.ws| == 1 && f.applied == f.ws[0].h.finished && FleetRun(abi, cs, f, ms)
    ensures var g := FleetExec(abi, cs, f, ms); |g.ws| == 1 && g.applied == g.ws[0].h.finished
    decreases |ms|
  {
    if ms != [] {
      FinishedGrows(cs[0], f.ws[0], ms[0].a);
      hide Step, Enabled, ApplyJob;
      SoleWatcherApplies(abi, cs, Advance(abi, cs, f, ms[0]), ms[1..]);
    }
  }

  lemma SoleWatcherOrder(abi: Abi, cs: seq<Config>, db: Db, f: Fleet)
    requires AllWellFormed(cs) && |cs| == 1 && cs[0].workerCount == 1
    requires FleetReachable(abi, cs, db, f) && Quiet(f)
    ensures f.applied == AllSent(f.ws)
  {
    assert |f.ws| == 1 && f.applied == f.ws[0].h.finished by {
      var ms :| FleetRun(abi, cs, Launch(cs, db), ms) && FleetExec(abi, cs, Launch(cs, db), ms) == f;
      SoleWatcherApplies(abi, cs, Launch(cs, db), ms);
    }
    assert Reachable(cs[0], f.ws[0]) by { FleetReachableInv(abi, cs, db, f); }
    hide FleetReachable, Reaches;
    QuietWatcher(cs, f, 0);
    SoleWorker(cs[0], f.ws[0]);
    assert f.ws[..0] == [] && AllSent(f.ws) == [] + Sent(f.ws[0].h);
  }

  /** A lone watcher with a lone worker leaves the sequential replay of its queue, race or no race. */
  lemma SequentialWatcher(abi: Abi, cs: seq<Config>, db: Db, f: Fleet)
    requires AllWellFormed(cs) && |cs| == 1 && cs[0].workerCount == 1
    requires FleetReachable(abi, cs, db, f) && Quiet(f)
    ensures f.db == Replay(db, WritesOf(abi, AllSent(f.ws)))
  {
    SoleWatcherOrder(abi, cs, db, f);
    FleetReachableInv(abi, cs, db, f);
  }

  // ---- What an order can end with ----

  /** The jobs that insert something else under that order's id. */
  function Rivals(abi: Abi, o: CreateOrder): EventJob -> bool {
    (job: EventJob) => Inserts(abi, o.createID)(job) && WriteOf(abi, job) != Some(Insert(o))
  }

  /** From this queue the first insert under its id can be o: some job makes it, with fewer rivals
      before it than there are workers to hold them. */
  ghost predicate CanWin(abi: Abi, c: Config, sent: seq<EventJob>, o: CreateOrder) {
    exists i :: 0 <= i < |sent| && WinsAt(abi, c, sent, o, i)
  }

  ghost predicate WinsAt(abi: Abi, c: Config, sent: seq<EventJob>, o: CreateOrder, i: nat)
    requires i < |sent|
  {
    WriteOf(abi, sent[i]) == Some(Insert(o)) && Count(Rivals(abi, o), sent[..i]) < c.workerCount
  }

  /** Positions before i that p picks, in any list that begins like jobs. */
  function Before(p: EventJob -> bool, jobs: seq<EventJob>, i: nat): nat -> bool {
    (j: nat) => j < i && j < |jobs| && p(jobs[j])
  }

  lemma {:induction false} HeldCount(p: EventJob -> bool, jobs: seq<EventJob>, i: nat, n: nat)
    requires i <= |jobs| && n <= |jobs|
    ensures |Chosen(jobs[..n], Before(p, jobs, i), true)| == Count(p, jobs[..Least(i, n)])
  {
    if n > 0 {
      var short := jobs[..n];
      assert short[..n - 1] == jobs[..n - 1] && short[n - 1] == jobs[n - 1];
      HeldCount(p, jobs, i, n - 1);
      if n <= i {
        assert jobs[..n] == jobs[..n - 1] + [jobs[n - 1]];
        CountAppend(p, jobs[..n - 1], jobs[n - 1]);
      }
    }
  }

  function Least(a: nat, b: nat): nat { if a < b then a else b }

  /** With the rivals before i held back, the first insert under the id is o. */
  lemma {:induction false} FirstUnheld(abi: Abi, o: CreateOrder, jobs: seq<EventJob>, i: nat, n: nat)
    requires i < |jobs| && WriteOf(abi, jobs[i]) == Some(Insert(o)) && n <= |jobs|
    ensures var first := FirstSuch(Inserts(abi, o.createID), Chosen(jobs[..n], Before(Rivals(abi, o), jobs, i), false));
            (i < n ==> first.Some?) && (first.Some? ==> WriteOf(abi, first.value) == Some(Insert(o)))
  {
    hide WriteOf;
    var held := Before(Rivals(abi, o), jobs, i);
    var p := Inserts(abi, o.createID);
    if n > 0 {
      var short := jobs[..n];
      assert short[..n - 1] == jobs[..n - 1] && short[n - 1] == jobs[n - 1];
      FirstUnheld(abi, o, jobs, i, n - 1);
      var earlier := Chosen(jobs[..n - 1], held, false);
      var more := if held(n - 1) == false then [jobs[n - 1]] else [];
      FirstSuchConcat(p, earlier, more);
    }
  }

  lemma WinWith(abi: Abi, c: Config, s: State, o: CreateOrder, i: nat) returns (u: State)
    requires WellFormed(c) && Reachable(c, s) && AllIdle(s) && s.h.taken == Sent(s.h)
    requires i < |s.h.taken| && WinsAt(abi, c, s.h.taken, o, i)
    ensures Reachable(c, u) && AllIdle(u) && Sent(u.h) == Sent(s.h)
    ensures var first := FirstSuch(Inserts(abi, o.createID), u.h.finished);
            first.Some? && WriteOf(abi, first.value) == Some(Insert(o))
  {
    hide Reaches, WriteOf;
    var jobs := s.h.taken;
    var held := Before(Rivals(abi, o), jobs, i);
    assert jobs[..|jobs|] == jobs;
    HeldCount(Rivals(abi, o), jobs, i, |jobs|);
    u := Reschedule(c, s, held);
    FirstUnheld(abi, o, jobs, i, |jobs|);
    FirstSuchConcat(Inserts(abi, o.createID), Chosen(jobs, held, false), Chosen(jobs, held, true));
  }

  /** The first insert under an id came from a watcher whose queue could make it win. */
  ghost predicate FirstFrom(abi: Abi, cs: seq<Config>, id: string, f: Fleet) {
    && |f.ws| == |cs|
    && (var first := FirstSuch(Inserts(abi, id), f.applied);
        first.Some? ==> exists i, o :: 0 <= i < |cs| && WriteOf(abi, first.value) == Some(Insert(o)) && CanWin(abi, cs[i], f.ws[i].h.taken, o))
  }

  lemma CanWinLonger(abi: Abi, c: Config, taken: seq<EventJob>, more: seq<EventJob>, o: CreateOrder)
    requires CanWin(abi, c, taken, o)
    ensures CanWin(abi, c, taken + more, o)
  {
    hide WriteOf;
    var i :| 0 <= i < |taken| && WinsAt(abi, c, taken, o, i);
    assert (taken + more)[..i] == taken[..i];
    assert WinsAt(abi, c, taken + more, o, i);
  }

  lemma TakenGrows(c: Config, s: State, a: Action) returns (more: seq<EventJob>)
    requires Enabled(c, s, a)
    ensures Step(c, s, a).h.taken == s.h.taken + more
  {
    more := if a.Take? then [s.queue[0]] else [];
  }

  lemma {:induction false} CountNone(p: EventJob -> bool, jobs: seq<EventJob>)
    ensures Count(p, jobs) == 0 <==> FirstSuch(p, jobs).None?
    ensures FirstSuch(p, jobs).None? <==> forall job :: job in jobs ==> !p(job)
  {
    if jobs != [] {
      CountNone(p, jobs[..|jobs| - 1]);
      assert jobs == jobs[..|jobs| - 1] + [jobs[|jobs| - 1]];
    }
  }

  lemma {:induction false} FewerRivals(abi: Abi, o: CreateOrder, jobs: seq<EventJob>)
    ensures Count(Rivals(abi, o), jobs) <= Count(Inserts(abi, o.createID), jobs)
  {
    hide WriteOf;
    if jobs != [] {
      FewerRivals(abi, o, jobs[..|jobs| - 1]);
    }
  }

  lemma BusyWasTaken(c: Config, s: State, w: nat) returns (i: nat)
    requires WellFormed(c) && Reachable(c, s) && w < |s.workers| && s.workers[w].Busy?
    ensures i < |s.h.taken| && s.h.taken[i] == s.workers[w].job
  {
    var job := s.workers[w].job;
    assert multiset(s.h.taken)[job] > 0 by {
      ReachableInv(c, s);
      SumBounds(Holding(job), s.workers, w);
    }
    assert job in s.h.taken;
    i :| 0 <= i < |s.h.taken| && s.h.taken[i] == job;
  }

  /** A worker that is about to finish the first insert under an id holds one that can win. */
  lemma AboutToWin(abi: Abi, c: Config, s: State, w: nat, o: CreateOrder)
    requires WellFormed(c) && Reachable(c, s) && w < |s.workers| && s.workers[w].Busy?
    requires WriteOf(abi, s.workers[w].job) == Some(Insert(o))
    requires forall job :: job in s.h.finished ==> !Inserts(abi, o.createID)(job)
    ensures CanWin(abi, c, s.h.taken, o)
  {
    hide Reaches, WriteOf;
    var p := Inserts(abi, o.createID);
    CountNone(p, s.h.finished);
    TakenAtMostWorkers(c, p, s);
    var i := BusyWasTaken(c, s, w);
    CountPrefix(p, s.h.taken, i + 1);
    assert s.h.taken[..i + 1] == s.h.taken[..i] + [s.h.taken[i]];
    CountAppend(p, s.h.taken[..i], s.h.taken[i]);
    FewerRivals(abi, o, s.h.taken[..i]);
    assert WinsAt(abi, c, s.h.taken, o, i);
  }

  lemma FirstFromStep(abi: Abi, cs: seq<Config>, db: Db, id: string, f: Fleet, m: Move)
    requires AllWellFormed(cs) && FleetInv(abi, cs, db, f) && FirstFrom(abi, cs, id, f) && CanMove(cs, f, m)
    ensures FirstFrom(abi, cs, id, Advance(abi, cs, f, m))
  {
    var g := Advance(abi, cs, f, m);
    var s, t := f.ws[m.i], g.ws[m.i];
    var more := TakenGrows(cs[m.i], s, m.a);
    var ran := if m.a.Finish? then [s.workers[m.a.w].job] else [];
    assert g.applied == f.applied + ran;
    assert m.a.Finish? ==> m.a.w < |s.workers| && s.workers[m.a.w].Busy? && more == [];
    hide Step, Enabled, ApplyJob, Reaches, WriteOf, CanWin;
    var p := Inserts(abi, id);
    FirstSuchConcat(p, f.applied, ran);
    if FirstSuch(p, f.applied).Some? {
      var i, o :| 0 <= i < |cs| && WriteOf(abi, FirstSuch(p, f.applied).value) == Some(Insert(o)) && CanWin(abi, cs[i], f.ws[i].h.taken, o);
      if i == m.i {
        CanWinLonger(abi, cs[i], s.h.taken, more, o);
      }
      assert CanWin(abi, cs[i], g.ws[i].h.taken, o);
    } else if FirstSuch(p, ran).Some? {
      var o := WriteOf(abi, ran[0]).value.order;
      CountNone(p, f.applied);
      forall job | job in s.h.finished ensures !p(job) {
        assert FinishedBy(f.ws, job);
      }
      AboutToWin(abi, cs[m.i], s, m.a.w, o);
      assert t.h.taken == s.h.taken;
    }
  }

  lemma {:induction false} FirstFromRun(abi: Abi, cs: seq<Config>, db: Db, id: string, f: Fleet, ms: seq<Move>)
    requires AllWellFormed(cs) && FleetInv(abi, cs, db, f) && FirstFrom(abi, cs, id, f) && FleetRun(abi, cs, f, ms)
    ensures FirstFrom(abi, cs, id, FleetExec(abi, cs, f, ms))
    decreases |ms|
  {
    hide FleetInv, FirstFrom, CanMove, Advance;
    if ms != [] {
      FleetInvStep(abi, cs, db, f, ms[0]);
      FirstFromStep(abi, cs, db, id, f, ms[0]);
      FirstFromRun(abi, cs, db, id, Advance(abi, cs, f, ms[0]), ms[1..]);
    }
  }

  lemma ReachableFirstFrom(abi: Abi, cs: seq<Config>, db: Db, id: string, f: Fleet)
    requires AllWellFormed(cs) && FleetReachable(abi, cs, db, f)
    ensures FirstFrom(abi, cs, id, f)
  {
    var ms :| FleetRun(abi, cs, Launch(cs, db), ms) && FleetExec(abi, cs, Launch(cs, db), ms) == f;
    LaunchReachable(abi, cs, db);
    FleetReachableInv(abi, cs, db, Launch(cs, db));
    hide FleetReachable, FleetInv;
    FirstFromRun(abi, cs, db, id, Launch(cs, db), ms);
  }

  /** The first insert under a new id decides it. */
  lemma FirstDecides(abi: Abi, cs: seq<Config>, db: Db, h: Fleet, o: CreateOrder)
    requires FleetReachable(abi, cs, db, h) && o.createID !in db.orders
    requires var first := FirstSuch(Inserts(abi, o.createID), h.applied);
             first.Some? && WriteOf(abi, first.value) == Some(Insert(o))
    ensures ReadOrder(h.db, o.createID) == Some(o)
  {
    FleetReachableInv(abi, cs, db, h);
    hide FleetReachable, WriteOf, WritesOf, Replay;
    FirstOrderBySuch(abi, h.applied, o.createID);
    ReplayOrders(db, WritesOf(abi, h.applied), o.createID);
  }

  lemma ScheduleToOrder(abi: Abi, cs: seq<Config>, db: Db, f: Fleet, o: CreateOrder, i: nat) returns (h: Fleet)
    requires AllWellFormed(cs) && FleetReachable(abi, cs, db, f) && Quiet(f) && o.createID !in db.orders
    requires i < |cs| == |f.ws| && CanWin(abi, cs[i], Sent(f.ws[i].h), o)
    ensures Reschedules(abi, cs, db, f, h) && ReadOrder(h.db, o.createID) == Some(o)
  {
    assert forall j :: 0 <= j < |cs| ==> Reachable(cs[j], f.ws[j]) by { FleetReachableInv(abi, cs, db, f); }
    QuietWatcher(cs, f, i);
    var at :| 0 <= at < |Sent(f.ws[i].h)| && WinsAt(abi, cs[i], Sent(f.ws[i].h), o, at);
    hide FleetReachable, Reaches, WriteOf, Quiet, AllIdle, Sent, CanWin, Reschedules;
    var u := WinWith(abi, cs[i], f.ws[i], o, at);
    AllReachableBut(abi, cs, db, f, i, u);
    var last: Fleet;
    last, h := Assemble(abi, cs, db, f.ws[i := u], i);
    MovedReschedules(abi, cs, db, f, i, u, h);
    hide AllWellFormed, AllReachable, FirstSuch, Inserts;
    FirstInPrefix(Inserts(abi, o.createID), u.h.finished, h.applied);
    FirstDecides(abi, cs, db, h, o);
  }

  /** Over all schedules of what a fleet enqueued, a new id can end with order o exactly when some
      watcher's queue has an insert of o with fewer rivals before it than that watcher has workers. */
  lemma OrderOutcomes(abi: Abi, cs: seq<Config>, db: Db, f: Fleet, o: CreateOrder)
    requires AllWellFormed(cs) && FleetReachable(abi, cs, db, f) && Quiet(f) && |f.ws| == |cs|
    requires o.createID !in db.orders
    ensures (exists h :: Reschedules(abi, cs, db, f, h) && ReadOrder(h.db, o.createID) == Some(o)) <==>
            exists i :: 0 <= i < |cs| && CanWin(abi, cs[i], Sent(f.ws[i].h), o)
  {
    hide Reschedules, CanWin, FleetReachable;
    if i :| 0 <= i < |cs| && CanWin(abi, cs[i], Sent(f.ws[i].h), o) {
      var h := ScheduleToOrder(abi, cs, db, f, o, i);
    }
    forall h | Reschedules(abi, cs, db, f, h) && ReadOrder(h.db, o.createID) == Some(o)
      ensures exists i :: 0 <= i < |cs| && CanWin(abi, cs[i], Sent(f.ws[i].h), o)
    {
      WinnerExplained(abi, cs, db, f, h, o);
    }
  }

  lemma WinnerExplained(abi: Abi, cs: seq<Config>, db: Db, f: Fleet, h: Fleet, o: CreateOrder)
    requires AllWellFormed(cs) && |f.ws| == |cs| && o.createID !in db.orders
    requires Reschedules(abi, cs, db, f, h) && ReadOrder(h.db, o.createID) == Some(o)
    ensures exists i :: 0 <= i < |cs| && CanWin(abi, cs[i], Sent(f.ws[i].h), o)
  {
    ReachableFirstFrom(abi, cs, db, o.createID, h);
    FleetReachableInv(abi, cs, db, h);
    hide FleetReachable, Reaches, WriteOf, Replay, WritesOf, CanWin;
    ReplayOrders(db, WritesOf(abi, h.applied), o.createID);
    FirstOrderBySuch(abi, h.applied, o.createID);
    var first := FirstSuch(Inserts(abi, o.createID), h.applied);
    var i, p :| 0 <= i < |cs| && WriteOf(abi, first.value) == Some(Insert(p)) && CanWin(abi, cs[i], h.ws[i].h.taken, p);
    QuietWatcher(cs, h, i);
    assert CanWin(abi, cs[i], Sent(f.ws[i].h), o);
  }
}
