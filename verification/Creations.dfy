/** Rows created while the watchers run: which updates come too early and are lost, and what brings
    them back. */
module Creations {
  import opened Bytes
  import opened Chain
  import opened Machine
  import opened Records
  import opened Replays
  import opened Handlers
  import opened Fleet

  /** What reached the swaps table: a handler's statement, or CreateSwap's insert. */
  datatype Entry = Wrote(w: Write) | Made(swap: Swap)

  function Enter(db: Db, e: Entry): Db {
    match e case Wrote(w) => Apply(db, w) case Made(swap) => Create(db, swap)
  }

  function Play(db: Db, log: seq<Entry>): Db {
    if log == [] then db else Enter(Play(db, log[..|log| - 1]), log[|log| - 1])
  }

  function WritesIn(log: seq<Entry>): seq<Write> {
    if log == [] then []
    else WritesIn(log[..|log| - 1]) + (match log[|log| - 1] case Wrote(w) => [w] case Made(_) => [])
  }

  /** The creations alone, as if every row had been there from the start. */
  function CreationsIn(log: seq<Entry>): seq<Entry> {
    if log == [] then []
    else CreationsIn(log[..|log| - 1]) + (match log[|log| - 1] case Wrote(_) => [] case Made(swap) => [Made(swap)])
  }

  /** The first row created under that key. */
  function FirstRow(log: seq<Entry>, id: string): Option<Swap> {
    if log == [] then None
    else
      var n := |log| - 1;
      var earlier := FirstRow(log[..n], id);
      if earlier.Some? then earlier
      else if log[n].Made? && log[n].swap.swapID == id then Some(log[n].swap)
      else None
  }

  /** The writes made before, and from, the first creation under that key. */
  function Early(log: seq<Entry>, id: string): seq<Write> {
    if log == [] then []
    else
      var n := |log| - 1;
      Early(log[..n], id) + (if log[n].Wrote? && FirstRow(log[..n], id).None? then [log[n].w] else [])
  }

  function Timely(log: seq<Entry>, id: string): seq<Write> {
    if log == [] then []
    else
      var n := |log| - 1;
      Timely(log[..n], id) + (if log[n].Wrote? && FirstRow(log[..n], id).Some? then [log[n].w] else [])
  }

  lemma {:induction false} EarlyThenTimely(log: seq<Entry>, id: string)
    ensures WritesIn(log) == Early(log, id) + Timely(log, id)
    ensures FirstRow(log, id).None? ==> Timely(log, id) == []
  {
    if log != [] {
      EarlyThenTimely(log[..|log| - 1], id);
    }
  }

  lemma {:induction false} LastGroupSnoc(ws: seq<Write>, w: Write, id: string, kind: Kind, before: Group)
    ensures LastGroup(ws + [w], id, kind, before) == if Writes(w, id, kind) then w.group else LastGroup(ws, id, kind, before)
  {
    assert (ws + [w])[..|ws|] == ws;
  }

  /** A row there from the start holds the last value written to each group. */
  lemma {:induction false} OldRow(db: Db, log: seq<Entry>, id: string, kind: Kind)
    requires id in db.swaps
    ensures var r := Play(db, log).swaps;
            && id in r && Identity(r[id]) == Identity(db.swaps[id])
            && Get(r[id], kind) == LastGroup(WritesIn(log), id, kind, Get(db.swaps[id], kind))
  {
    if log != [] {
      var n := |log| - 1;
      OldRow(db, log[..n], id, kind);
      if log[n].Wrote? {
        LastGroupSnoc(WritesIn(log[..n]), log[n].w, id, kind, Get(db.swaps[id], kind));
      } else {
        assert WritesIn(log[..n]) + [] == WritesIn(log[..n]);
      }
      hide Identity;
      NewEntry(Play(db, log[..n]), log[n], id, kind);
    }
  }

  /** What one entry does to a row that is there. */
  lemma NewEntry(db: Db, e: Entry, id: string, kind: Kind)
    requires id in db.swaps
    ensures var r := Enter(db, e).swaps;
            && id in r && Identity(r[id]) == Identity(db.swaps[id])
            && Get(r[id], kind) == if e.Wrote? && Writes(e.w, id, kind) then e.w.group else Get(db.swaps[id], kind)
  {
    if e.Wrote? && e.w.Update? {
      RowLaws(db.swaps[id], db.swaps[id], e.w.group, kind);
    }
  }

  /** A row created on the way holds the last value written since its creation. */
  lemma {:induction false} CreatedRow(db: Db, log: seq<Entry>, id: string, kind: Kind)
    requires id !in db.swaps
    ensures id in Play(db, log).swaps <==> FirstRow(log, id).Some?
    ensures FirstRow(log, id).Some? ==>
              var row, swap := Play(db, log).swaps[id], FirstRow(log, id).value;
              && Identity(row) == Identity(swap)
              && Get(row, kind) == LastGroup(Timely(log, id), id, kind, Get(swap, kind))
  {
    if log != [] {
      var n := |log| - 1;
      CreatedRow(db, log[..n], id, kind);
      EarlyThenTimely(log[..n], id);
      if FirstRow(log[..n], id).Some? {
        var swap := FirstRow(log[..n], id).value;
        if log[n].Wrote? {
          LastGroupSnoc(Timely(log[..n], id), log[n].w, id, kind, Get(swap, kind));
        } else {
          assert Timely(log[..n], id) + [] == Timely(log[..n], id);
        }
        hide Identity;
        NewEntry(Play(db, log[..n]), log[n], id, kind);
      }
    }
  }

  lemma {:induction false} LastGroupConcat(a: seq<Write>, b: seq<Write>, id: string, kind: Kind, before: Group)
    ensures LastGroup(a + b, id, kind, before) == LastGroup(b, id, kind, LastGroup(a, id, kind, before))
  {
    if b == [] {
      assert a + b == a;
    } else {
      var n := |b| - 1;
      LastGroupConcat(a, b[..n], id, kind, before);
      assert (a + b)[..|a| + n] == a + b[..n];
    }
  }

  // ---- A fleet, and a creator ----

  /** A fleet, and the entries its store has seen. */
  datatype Shop = Shop(f: Fleet, log: seq<Entry>)

  datatype Deed = Moves(m: Move) | Creates(swap: Swap)

  predicate CanDo(cs: seq<Config>, o: Shop, d: Deed) {
    d.Moves? ==> CanMove(cs, o.f, d.m)
  }

  function Do(abi: Abi, cs: seq<Config>, o: Shop, d: Deed): Shop
    requires CanDo(cs, o, d)
  {
    match d
    case Creates(swap) => Shop(o.f.(db := Create(o.f.db, swap)), o.log + [Made(swap)])
    case Moves(m) =>
      Shop(Advance(abi, cs, o.f, m),
           o.log + (if !m.a.Finish? then []
                    else match WriteOf(abi, o.f.ws[m.i].workers[m.a.w].job) case None => [] case Some(w) => [Wrote(w)]))
  }

  predicate ShopRun(abi: Abi, cs: seq<Config>, o: Shop, ds: seq<Deed>)
    decreases |ds|
  {
    ds == [] || (CanDo(cs, o, ds[0]) && ShopRun(abi, cs, Do(abi, cs, o, ds[0]), ds[1..]))
  }

  function ShopExec(abi: Abi, cs: seq<Config>, o: Shop, ds: seq<Deed>): Shop
    requires ShopRun(abi, cs, o, ds)
    decreases |ds|
  {
    if ds == [] then o else ShopExec(abi, cs, Do(abi, cs, o, ds[0]), ds[1..])
  }

  /** Any interleaving of the watchers' steps with creations of rows. */
  ghost predicate ShopReachable(abi: Abi, cs: seq<Config>, db: Db, o: Shop) {
    exists ds :: ShopRun(abi, cs, Shop(Launch(cs, db), []), ds) && ShopExec(abi, cs, Shop(Launch(cs, db), []), ds) == o
  }

  /** The same run without its creations. */
  function Plain(abi: Abi, db: Db, f: Fleet): Fleet {
    f.(db := Replay(db, WritesOf(abi, f.applied)))
  }

  /** Creations change nothing but the tables: without them the watchers run the same. */
  ghost predicate ShopInv(abi: Abi, cs: seq<Config>, db: Db, o: Shop) {
    && FleetReachable(abi, cs, db, Plain(abi, db, o.f))
    && o.f.db == Play(db, o.log)
    && WritesIn(o.log) == WritesOf(abi, o.f.applied)
  }

  lemma LogSnoc(db: Db, log: seq<Entry>, e: Entry)
    ensures Play(db, log + [e]) == Enter(Play(db, log), e)
    ensures WritesIn(log + [e]) == WritesIn(log) + (match e case Wrote(w) => [w] case Made(_) => [])
  {
    assert (log + [e])[..|log|] == log;
  }

  /** What one move writes: the entries it adds, and what they do to the tables. */
  lemma MoveLogged(abi: Abi, cs: seq<Config>, db: Db, o: Shop, m: Move)
    requires o.f.db == Play(db, o.log) && WritesIn(o.log) == WritesOf(abi, o.f.applied) && CanMove(cs, o.f, m)
    ensures var p := Do(abi, cs, o, Moves(m)); p.f.db == Play(db, p.log) && WritesIn(p.log) == WritesOf(abi, p.f.applied)
  {
    hide Step, Replay, WriteOf, Apply;
    if m.a.Finish? {
      var job := o.f.ws[m.i].workers[m.a.w].job;
      assert (o.f.applied + [job])[..|o.f.applied|] == o.f.applied;
      if WriteOf(abi, job).Some? {
        LogSnoc(db, o.log, Wrote(WriteOf(abi, job).value));
      } else {
        assert o.log + [] == o.log && WritesIn(o.log) + [] == WritesIn(o.log);
      }
    } else {
      assert o.log + [] == o.log;
    }
  }

  lemma PlainMove(abi: Abi, cs: seq<Config>, db: Db, f: Fleet, m: Move)
    requires CanMove(cs, f, m)
    ensures CanMove(cs, Plain(abi, db, f), m)
    ensures Plain(abi, db, Advance(abi, cs, f, m)) == Advance(abi, cs, Plain(abi, db, f), m)
  {
    hide Step, Replay, WriteOf, WritesOf;
    if m.a.Finish? {
      ReplayJob(abi, db, f.applied, f.ws[m.i].workers[m.a.w].job);
    }
  }

  lemma ShopMove(abi: Abi, cs: seq<Config>, db: Db, o: Shop, m: Move)
    requires ShopInv(abi, cs, db, o) && CanMove(cs, o.f, m)
    ensures ShopInv(abi, cs, db, Do(abi, cs, o, Moves(m)))
  {
    MoveLogged(abi, cs, db, o, m);
    PlainMove(abi, cs, db, o.f, m);
    hide FleetReachable, CanMove, Advance;
    MoveReaches(abi, cs, db, Plain(abi, db, o.f), m);
  }

  lemma {:induction false} ShopInvRun(abi: Abi, cs: seq<Config>, db: Db, o: Shop, ds: seq<Deed>)
    requires ShopInv(abi, cs, db, o) && ShopRun(abi, cs, o, ds)
    ensures ShopInv(abi, cs, db, ShopExec(abi, cs, o, ds))
    decreases |ds|
  {
    hide FleetReachable, CanMove, Advance;
    if ds != [] {
      match ds[0] {
        case Moves(m) => ShopMove(abi, cs, db, o, m);
        case Creates(swap) => LogSnoc(db, o.log, Made(swap));
      }
      ShopInvRun(abi, cs, db, Do(abi, cs, o, ds[0]), ds[1..]);
    }
  }

  lemma ShopReachableInv(abi: Abi, cs: seq<Config>, db: Db, o: Shop)
    requires ShopReachable(abi, cs, db, o)
    ensures ShopInv(abi, cs, db, o)
  {
    var ds :| ShopRun(abi, cs, Shop(Launch(cs, db), []), ds) && ShopExec(abi, cs, Shop(Launch(cs, db), []), ds) == o;
    LaunchReachable(abi, cs, db);
    hide FleetReachable;
    ShopInvRun(abi, cs, db, Shop(Launch(cs, db), []), ds);
  }

  /** Which updates are lost. After any run a row that was created on the way holds, group by group,
      what it would hold had it been there from the start, exactly when some update of the group came
      after the creation, or those before it left the group as the row was created with it. */
  lemma LostUpdates(abi: Abi, cs: seq<Config>, db: Db, o: Shop, id: string, kind: Kind)
    requires ShopReachable(abi, cs, db, o) && id !in db.swaps
    ensures id in o.f.db.swaps <==> FirstRow(o.log, id).Some?
    ensures FirstRow(o.log, id).Some? ==>
              var row, made := o.f.db.swaps[id], Get(FirstRow(o.log, id).value, kind);
              && Identity(row) == Identity(FirstRow(o.log, id).value)
              && (Get(row, kind) == LastGroup(WritesOf(abi, o.f.applied), id, kind, made) <==>
                    (exists w :: w in Timely(o.log, id) && Writes(w, id, kind)) ||
                    LastGroup(Early(o.log, id), id, kind, made) == made)
  {
    ShopReachableInv(abi, cs, db, o);
    CreatedRow(db, o.log, id, kind);
    hide FleetReachable, Identity;
    if FirstRow(o.log, id).Some? {
      var made := Get(FirstRow(o.log, id).value, kind);
      var early, timely := Early(o.log, id), Timely(o.log, id);
      EarlyThenTimely(o.log, id);
      LastGroupConcat(early, timely, id, kind, made);
      LastGroupWritten(timely, id, kind, made);
      LastGroupWritten(timely, id, kind, LastGroup(early, id, kind, made));
      if exists w :: w in timely && Writes(w, id, kind) {
        LastGroupOver(timely, id, kind, made, LastGroup(early, id, kind, made));
      }
    }
  }

  lemma {:induction false} ShopSnoc(abi: Abi, cs: seq<Config>, o: Shop, ds: seq<Deed>, d: Deed)
    requires ShopRun(abi, cs, o, ds) && CanDo(cs, ShopExec(abi, cs, o, ds), d)
    ensures ShopRun(abi, cs, o, ds + [d]) && ShopExec(abi, cs, o, ds + [d]) == Do(abi, cs, ShopExec(abi, cs, o, ds), d)
    decreases |ds|
  {
    hide CanDo, Do;
    if ds == [] {
      var p := Do(abi, cs, o, d);
      assert ShopRun(abi, cs, p, []) && ShopExec(abi, cs, p, []) == p;
      assert ([] + [d])[0] == d && ([] + [d])[1..] == [];
    } else {
      assert (ds + [d])[1..] == ds[1..] + [d];
      ShopSnoc(abi, cs, Do(abi, cs, o, ds[0]), ds[1..], d);
    }
  }

  lemma DeedReaches(abi: Abi, cs: seq<Config>, db: Db, o: Shop, d: Deed)
    requires ShopReachable(abi, cs, db, o) && CanDo(cs, o, d)
    ensures ShopReachable(abi, cs, db, Do(abi, cs, o, d))
  {
    var start := Shop(Launch(cs, db), []);
    var ds :| ShopRun(abi, cs, start, ds) && ShopExec(abi, cs, start, ds) == o;
    ShopSnoc(abi, cs, start, ds, d);
  }

  lemma {:induction false} WithoutCreations(abi: Abi, cs: seq<Config>, db: Db, o: Shop, ms: seq<Move>) returns (p: Shop)
    requires ShopReachable(abi, cs, db, o) && FleetRun(abi, cs, o.f, ms)
    ensures ShopReachable(abi, cs, db, p) && p.f == FleetExec(abi, cs, o.f, ms)
    decreases |ms|
  {
    hide ShopReachable, CanMove, Advance;
    if ms == [] {
      p := o;
    } else {
      DeedReaches(abi, cs, db, o, Moves(ms[0]));
      p := WithoutCreations(abi, cs, db, Do(abi, cs, o, Moves(ms[0])), ms[1..]);
    }
  }

  /** Every run can be such a run: whatever its workers have handled about a row that is not there,
      creating the row now leaves it as it was created. */
  lemma CreatedLate(abi: Abi, cs: seq<Config>, db: Db, f: Fleet, swap: Swap) returns (o: Shop)
    requires FleetReachable(abi, cs, db, f) && swap.swapID !in db.swaps
    ensures ShopReachable(abi, cs, db, o) && o.f == f.(db := o.f.db)
    ensures o.f.db.swaps == f.db.swaps[swap.swapID := swap]
  {
    FleetReachableInv(abi, cs, db, f);
    ReplaySwaps(db, WritesOf(abi, f.applied), swap.swapID);
    var ms :| FleetRun(abi, cs, Launch(cs, db), ms) && FleetExec(abi, cs, Launch(cs, db), ms) == f;
    var start := Shop(Launch(cs, db), []);
    assert ShopReachable(abi, cs, db, start) by {
      assert ShopRun(abi, cs, start, []) && ShopExec(abi, cs, start, []) == start;
    }
    hide ShopReachable, FleetReachable;
    var p := WithoutCreations(abi, cs, db, start, ms);
    DeedReaches(abi, cs, db, p, Creates(swap));
    o := Do(abi, cs, p, Creates(swap));
  }

  // ---- Repair ----

  lemma {:induction false} CreationsOnly(log: seq<Entry>, id: string)
    ensures FirstRow(CreationsIn(log), id) == FirstRow(log, id)
    ensures WritesIn(CreationsIn(log)) == []
    ensures Timely(CreationsIn(log), id) == []
  {
    if log != [] {
      var n := |log| - 1;
      CreationsOnly(log[..n], id);
      var before := CreationsIn(log[..n]);
      if log[n].Made? {
        assert (before + [log[n]])[..|before|] == before;
      } else {
        assert before + [] == before;
      }
    }
  }

  lemma {:induction false} TimelyAreWrites(log: seq<Entry>, id: string, w: Write)
    ensures w in Timely(log, id) ==> w in WritesIn(log)
  {
    EarlyThenTimely(log, id);
  }

  /** Groups after a replay, whether the row was there, was made, and was updated early or late. */
  lemma RepairedGroup(db: Db, entries: seq<Entry>, log: seq<Write>, id: string, kind: Kind)
    requires Rewrites(log, WritesIn(entries)) && (id in db.swaps || FirstRow(entries, id).Some?)
    ensures var r, q := Play(db, entries).swaps, Play(db, CreationsIn(entries)).swaps;
            && id in r && id in q && Identity(r[id]) == Identity(q[id])
            && LastGroup(log, id, kind, Get(r[id], kind)) == LastGroup(log, id, kind, Get(q[id], kind))
  {
    CreationsOnly(entries, id);
    var partial := if id in db.swaps then WritesIn(entries) else Timely(entries, id);
    if id in db.swaps {
      OldRow(db, entries, id, kind);
      OldRow(db, CreationsIn(entries), id, kind);
    } else {
      CreatedRow(db, entries, id, kind);
      CreatedRow(db, CreationsIn(entries), id, kind);
    }
    hide Identity;
    var made := Get(Play(db, CreationsIn(entries)).swaps[id], kind);
    var r := Get(Play(db, entries).swaps[id], kind);
    assert r == LastGroup(partial, id, kind, made);
    LastGroupWritten(partial, id, kind, made);
    if v :| v in log && Writes(v, id, kind) {
      LastGroupOver(log, id, kind, r, made);
    } else {
      forall w | w in partial && Writes(w, id, kind) ensures false {
        TimelyAreWrites(entries, id, w);
      }
    }
  }

  lemma MadeEither(db: Db, entries: seq<Entry>, id: string)
    ensures id in Play(db, entries).swaps <==> id in db.swaps || FirstRow(entries, id).Some?
    ensures id in Play(db, CreationsIn(entries)).swaps <==> id in db.swaps || FirstRow(entries, id).Some?
  {
    CreationsOnly(entries, id);
    if id in db.swaps {
      OldRow(db, entries, id, Initiate);
      OldRow(db, CreationsIn(entries), id, Initiate);
    } else {
      CreatedRow(db, entries, id, Initiate);
      CreatedRow(db, CreationsIn(entries), id, Initiate);
    }
  }

  /** A replay that rewrites every group that was written leaves the swaps as if all rows had been
      created before anything was written. */
  lemma PlayConverges(db: Db, entries: seq<Entry>, log: seq<Write>)
    requires Rewrites(log, WritesIn(entries))
    ensures Replay(Play(db, entries), log).swaps == Replay(Play(db, CreationsIn(entries)), log).swaps
  {
    hide Play, Replay, Rewrites;
    var r, q := Play(db, entries), Play(db, CreationsIn(entries));
    var a, b := Replay(r, log), Replay(q, log);
    forall id
      ensures id in a.swaps <==> id in b.swaps
      ensures id in a.swaps ==> a.swaps[id] == b.swaps[id]
    {
      MadeEither(db, entries, id);
      ReplaySwaps(r, log, id);
      ReplaySwaps(q, log, id);
      if id in r.swaps {
        forall kind: Kind ensures Get(a.swaps[id], kind) == Get(b.swaps[id], kind) && Identity(a.swaps[id]) == Identity(b.swaps[id]) {
          RepairedGroup(db, entries, log, id, kind);
        }
        assert Get(a.swaps[id], Initiate) == Get(b.swaps[id], Initiate);
        RowLaws(a.swaps[id], b.swaps[id], RefundGroup("", 0), Refund);
      }
    }
    assert a.swaps == b.swaps;
  }

  /** Wherever a run with creations stopped, replaying the scans from the start blocks brings back every
      lost update: the swaps are those of a clean replay over tables that had all the rows at once. */
  lemma ReplayRecoversLost(abi: Abi, cs: seq<Config>, db: Db, o: Shop, tops: seq<u64>)
    requires AllWellFormed(cs) && ShopReachable(abi, cs, db, o) && InRange(o.f) && Beyond(o.f, tops) && |o.f.ws| == |cs|
    ensures var log := WritesOf(abi, AllScans(cs, tops));
            Replay(o.f.db, log).swaps == Replay(Play(db, CreationsIn(o.log)), log).swaps
  {
    ShopReachableInv(abi, cs, db, o);
    var plain := Plain(abi, db, o.f);
    FleetReachableInv(abi, cs, db, plain);
    hide FleetReachable, Replay, Play;
    var log := WritesOf(abi, AllScans(cs, tops));
    forall w | w in WritesIn(o.log) && w.Update? ensures exists v :: v in log && Writes(v, w.swapID, w.group.Kind()) {
      AppliedIsLogged(abi, cs, db, plain, tops, w);
      assert Writes(w, w.swapID, w.group.Kind());
    }
    PlayConverges(db, o.log, log);
  }

  /** So does a restart after the last creation, by any fleet over the same chains that catches up. */
  lemma RestartRecoversLost(abi: Abi, cs: seq<Config>, ds: seq<Config>, db: Db, o: Shop, g: Fleet)
    requires AllWellFormed(cs) && ShopReachable(abi, cs, db, o) && InRange(o.f) && |o.f.ws| == |cs|
    requires AllWellFormed(ds) && FleetReachable(abi, ds, o.f.db, g) && Quiet(g) && Complete(g) && |g.ws| == |ds|
    requires SameChains(cs, ds) && Beyond(o.f, Cursors(g))
    ensures var made, log := Play(db, CreationsIn(o.log)), WritesOf(abi, AllScans(cs, Cursors(g)));
            AgreeOnSwaps(made, log) ==> g.db.swaps == Replay(made, log).swaps
  {
    var tops := Cursors(g);
    var made, log := Play(db, CreationsIn(o.log)), WritesOf(abi, AllScans(cs, tops));
    SameScans(cs, ds, tops);
    ReplayRecoversLost(abi, cs, db, o, tops);
    ShopReachableInv(abi, cs, db, o);
    hide FleetReachable, Replay, Play;
    TablesFollowChains(abi, ds, o.f.db, g);
    forall v, w | v in log && w in log && UpdateConflict(o.f.db, v, w) ensures UpdateConflict(made, v, w) {
      MadeEither(db, o.log, v.swapID);
    }
  }
}
