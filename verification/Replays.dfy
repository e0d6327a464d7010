/** When the order of writes matters, and what replaying a log twice leaves. */
module Replays {
  import opened Bytes
  import opened Records

  predicate Writes(w: Write, id: string, kind: Kind) {
    w.Update? && w.swapID == id && w.group.Kind() == kind
  }

  /** The last group of that kind written to that row, or the one given. */
  function LastGroup(ws: seq<Write>, id: string, kind: Kind, before: Group): Group {
    if ws == [] then before
    else
      var n := |ws| - 1;
      if Writes(ws[n], id, kind) then ws[n].group else LastGroup(ws[..n], id, kind, before)
  }

  /** The first order inserted under that id. */
  function FirstOrder(ws: seq<Write>, id: string): Option<CreateOrder> {
    if ws == [] then None
    else
      var n := |ws| - 1;
      var earlier := FirstOrder(ws[..n], id);
      if earlier.Some? then earlier
      else if ws[n].Insert? && ws[n].order.createID == id then Some(ws[n].order)
      else None
  }

  lemma {:induction false} ReplaySwaps(db: Db, ws: seq<Write>, id: string)
    ensures id in Replay(db, ws).swaps <==> id in db.swaps
    ensures id in db.swaps ==> Identity(Replay(db, ws).swaps[id]) == Identity(db.swaps[id])
    ensures id in db.swaps ==> forall kind: Kind ::
              Get(Replay(db, ws).swaps[id], kind) == LastGroup(ws, id, kind, Get(db.swaps[id], kind))
  {
    if ws != [] {
      ReplaySwaps(db, ws[..|ws| - 1], id);
    }
  }

  lemma {:induction false} ReplayOrders(db: Db, ws: seq<Write>, id: string)
    ensures id in Replay(db, ws).orders <==> id in db.orders || FirstOrder(ws, id).Some?
    ensures id in db.orders ==> Replay(db, ws).orders[id] == db.orders[id]
    ensures id !in db.orders && FirstOrder(ws, id).Some? ==> Replay(db, ws).orders[id] == FirstOrder(ws, id).value
    ensures FirstOrder(ws, id).Some? ==> FirstOrder(ws, id).value.createID == id
  {
    if ws != [] {
      ReplayOrders(db, ws[..|ws| - 1], id);
    }
  }

  /** Two updates of the same columns of an existing row, with different values. */
  ghost predicate UpdateConflict(db: Db, v: Write, w: Write) {
    v.Update? && w.Update? && v.swapID == w.swapID && v.group.Kind() == w.group.Kind() && v.swapID in db.swaps && v != w
  }

  /** Two inserts of the same new order, with different contents. */
  ghost predicate InsertConflict(db: Db, v: Write, w: Write) {
    v.Insert? && w.Insert? && v.order.createID == w.order.createID && v.order.createID !in db.orders && v != w
  }

  ghost predicate AgreeOnSwaps(db: Db, ws: seq<Write>) {
    forall v, w :: v in ws && w in ws ==> !UpdateConflict(db, v, w)
  }

  ghost predicate AgreeOnOrders(db: Db, ws: seq<Write>) {
    forall v, w :: v in ws && w in ws ==> !InsertConflict(db, v, w)
  }

  ghost predicate Agree(db: Db, ws: seq<Write>) {
    AgreeOnSwaps(db, ws) && AgreeOnOrders(db, ws)
  }

  lemma {:induction false} LastGroupWritten(ws: seq<Write>, id: string, kind: Kind, before: Group)
    ensures (exists w :: w in ws && Writes(w, id, kind))
            ==> exists w :: w in ws && Writes(w, id, kind) && w.group == LastGroup(ws, id, kind, before)
    ensures !(exists w :: w in ws && Writes(w, id, kind)) ==> LastGroup(ws, id, kind, before) == before
  {
    if ws != [] {
      var n := |ws| - 1;
      if Writes(ws[n], id, kind) {
        assert ws[n] in ws;
      } else {
        LastGroupWritten(ws[..n], id, kind, before);
        assert forall w :: w in ws && Writes(w, id, kind) ==> w in ws[..n];
      }
    }
  }

  lemma {:induction false} FirstOrderInserted(ws: seq<Write>, id: string)
    ensures FirstOrder(ws, id).Some? <==> exists o :: Insert(o) in ws && o.createID == id
    ensures FirstOrder(ws, id).Some? ==> Insert(FirstOrder(ws, id).value) in ws && FirstOrder(ws, id).value.createID == id
  {
    if ws != [] {
      var n := |ws| - 1;
      FirstOrderInserted(ws[..n], id);
      assert ws == ws[..n] + [ws[n]];
    }
  }

  ghost predicate SameWrites(v: seq<Write>, w: seq<Write>) {
    forall x :: x in v <==> x in w
  }

  lemma LastGroupConfluent(db: Db, v: seq<Write>, w: seq<Write>, id: string, kind: Kind)
    requires AgreeOnSwaps(db, v) && SameWrites(v, w) && id in db.swaps
    ensures var before := Get(db.swaps[id], kind); LastGroup(v, id, kind, before) == LastGroup(w, id, kind, before)
  {
    var before := Get(db.swaps[id], kind);
    LastGroupWritten(v, id, kind, before);
    LastGroupWritten(w, id, kind, before);
    if x :| x in v && Writes(x, id, kind) {
      var y :| y in v && Writes(y, id, kind) && y.group == LastGroup(v, id, kind, before);
      var z :| z in w && Writes(z, id, kind) && z.group == LastGroup(w, id, kind, before);
      assert !UpdateConflict(db, y, z);
    }
  }

  lemma FirstOrderConfluent(db: Db, v: seq<Write>, w: seq<Write>, id: string)
    requires AgreeOnOrders(db, v) && SameWrites(v, w) && id !in db.orders
    ensures FirstOrder(v, id) == FirstOrder(w, id)
  {
    FirstOrderInserted(v, id);
    FirstOrderInserted(w, id);
    if FirstOrder(v, id).Some? {
      assert !InsertConflict(db, Insert(FirstOrder(v, id).value), Insert(FirstOrder(w, id).value));
    }
  }

  /** Without racing updates only which writes were made matters to the swaps, not their order or
      repetition. */
  lemma SwapsConfluence(db: Db, v: seq<Write>, w: seq<Write>)
    requires AgreeOnSwaps(db, v) && SameWrites(v, w)
    ensures Replay(db, v).swaps == Replay(db, w).swaps
  {
    var a, b := Replay(db, v), Replay(db, w);
    forall id
      ensures id in a.swaps <==> id in b.swaps
      ensures id in a.swaps ==> a.swaps[id] == b.swaps[id]
    {
      ReplaySwaps(db, v, id);
      ReplaySwaps(db, w, id);
      if id in db.swaps {
        forall kind: Kind ensures Get(a.swaps[id], kind) == Get(b.swaps[id], kind) {
          LastGroupConfluent(db, v, w, id, kind);
        }
        RowLaws(a.swaps[id], b.swaps[id], RefundGroup("", 0), Refund);
      }
    }
    assert a.swaps == b.swaps;
  }

  /** And without racing inserts, to the orders. */
  lemma OrdersConfluence(db: Db, v: seq<Write>, w: seq<Write>)
    requires AgreeOnOrders(db, v) && SameWrites(v, w)
    ensures Replay(db, v).orders == Replay(db, w).orders
  {
    var a, b := Replay(db, v), Replay(db, w);
    forall id
      ensures id in a.orders <==> id in b.orders
      ensures id in a.orders ==> a.orders[id] == b.orders[id]
    {
      ReplayOrders(db, v, id);
      ReplayOrders(db, w, id);
      if id !in db.orders {
        FirstOrderConfluent(db, v, w, id);
      }
    }
    assert a.orders == b.orders;
  }

  lemma Confluence(db: Db, v: seq<Write>, w: seq<Write>)
    requires Agree(db, v) && SameWrites(v, w)
    ensures Replay(db, v) == Replay(db, w)
  {
    SwapsConfluence(db, v, w);
    OrdersConfluence(db, v, w);
  }

  ghost predicate OrderIrrelevant(db: Db, ws: seq<Write>) {
    forall v :: multiset(v) == multiset(ws) ==> Replay(db, v) == Replay(db, ws)
  }

  function Without(ws: seq<Write>, i: nat): seq<Write>
    requires i < |ws|
  {
    ws[..i] + ws[i + 1..]
  }

  lemma WithoutMultiset(ws: seq<Write>, i: nat)
    requires i < |ws|
    ensures multiset(Without(ws, i) + [ws[i]]) == multiset(ws) && multiset([ws[i]] + Without(ws, i)) == multiset(ws)
  {
    assert ws == ws[..i] + [ws[i]] + ws[i + 1..];
  }

  lemma AppliedLast(db: Db, ws: seq<Write>, w: Write)
    requires w.Update? && w.swapID in db.swaps
    ensures var r := Replay(db, ws + [w]); w.swapID in r.swaps && Get(r.swaps[w.swapID], w.group.Kind()) == w.group
  {
    assert (ws + [w])[..|ws|] == ws;
    ReplaySwaps(db, ws + [w], w.swapID);
  }

  lemma {:induction false} AppliedFirst(ws: seq<Write>, w: Write)
    requires w.Insert?
    ensures FirstOrder([w] + ws, w.order.createID) == Some(w.order)
  {
    if ws == [] {
      assert ([w] + ws)[..0] == [];
    } else {
      var n := |ws| - 1;
      AppliedFirst(ws[..n], w);
      assert ([w] + ws)[..n + 1] == [w] + ws[..n];
    }
  }

  lemma UpdatesSplit(db: Db, ws: seq<Write>, i: nat, j: nat)
    requires i < |ws| && j < |ws| && UpdateConflict(db, ws[i], ws[j])
    ensures Replay(db, Without(ws, i) + [ws[i]]) != Replay(db, Without(ws, j) + [ws[j]])
  {
    AppliedLast(db, Without(ws, i), ws[i]);
    AppliedLast(db, Without(ws, j), ws[j]);
  }

  lemma InsertsSplit(db: Db, ws: seq<Write>, i: nat, j: nat)
    requires i < |ws| && j < |ws| && InsertConflict(db, ws[i], ws[j])
    ensures Replay(db, [ws[i]] + Without(ws, i)) != Replay(db, [ws[j]] + Without(ws, j))
  {
    var id := ws[i].order.createID;
    AppliedFirst(Without(ws, i), ws[i]);
    AppliedFirst(Without(ws, j), ws[j]);
    ReplayOrders(db, [ws[i]] + Without(ws, i), id);
    ReplayOrders(db, [ws[j]] + Without(ws, j), id);
  }

  /** Conflicting writes can be ordered to end differently. */
  lemma ConflictSplits(db: Db, ws: seq<Write>, i: nat, j: nat)
    requires i < |ws| && j < |ws| && (UpdateConflict(db, ws[i], ws[j]) || InsertConflict(db, ws[i], ws[j]))
    ensures !OrderIrrelevant(db, ws)
  {
    hide Replay, Without;
    WithoutMultiset(ws, i);
    WithoutMultiset(ws, j);
    if ws[i].Update? {
      UpdatesSplit(db, ws, i, j);
    } else {
      InsertsSplit(db, ws, i, j);
    }
  }

  /** Every permutation of a list of writes ends in the same tables exactly when no two of them race
      for the same columns of an existing row, or for the same new order, with different values. */
  lemma OrderIrrelevantIffAgree(db: Db, ws: seq<Write>)
    ensures OrderIrrelevant(db, ws) <==> Agree(db, ws)
  {
    if Agree(db, ws) {
      forall v | multiset(v) == multiset(ws) ensures Replay(db, v) == Replay(db, ws) {
        forall x ensures x in v <==> x in ws {
          assert x in multiset(v) <==> x in multiset(ws);
        }
        Confluence(db, ws, v);
      }
    } else {
      var v, w :| v in ws && w in ws && (UpdateConflict(db, v, w) || InsertConflict(db, v, w));
      var i :| 0 <= i < |ws| && ws[i] == v;
      var j :| 0 <= j < |ws| && ws[j] == w;
      ConflictSplits(db, ws, i, j);
    }
  }

  // ---- Replaying after a restart ----

  lemma {:induction false} ReplayConcat(db: Db, a: seq<Write>, b: seq<Write>)
    ensures Replay(db, a + b) == Replay(Replay(db, a), b)
  {
    if b == [] {
      assert a + b == a;
    } else {
      var n := |b| - 1;
      ReplayConcat(db, a, b[..n]);
      assert (a + b)[..|a| + n] == a + b[..n];
    }
  }

  lemma {:induction false} LastGroupOver(ws: seq<Write>, id: string, kind: Kind, a: Group, b: Group)
    requires exists w :: w in ws && Writes(w, id, kind)
    ensures LastGroup(ws, id, kind, a) == LastGroup(ws, id, kind, b)
  {
    var n := |ws| - 1;
    if !Writes(ws[n], id, kind) {
      var w :| w in ws && Writes(w, id, kind);
      assert w in ws[..n];
      LastGroupOver(ws[..n], id, kind, a, b);
    }
  }

  /** log rewrites every group that partial may have written. */
  ghost predicate Rewrites(log: seq<Write>, partial: seq<Write>) {
    forall w :: w in partial && w.Update? ==> exists v :: v in log && Writes(v, w.swapID, w.group.Kind())
  }

  lemma ConvergesAt(db: Db, partial: seq<Write>, log: seq<Write>, id: string, kind: Kind)
    requires Rewrites(log, partial) && id in db.swaps
    ensures var before := Get(db.swaps[id], kind);
            LastGroup(log, id, kind, LastGroup(partial, id, kind, before)) == LastGroup(log, id, kind, before)
  {
    var before := Get(db.swaps[id], kind);
    if v :| v in log && Writes(v, id, kind) {
      LastGroupOver(log, id, kind, LastGroup(partial, id, kind, before), before);
    } else {
      LastGroupWritten(partial, id, kind, before);
    }
  }

  /** Replaying the whole log repairs the swaps table after any part of it was applied, in any order,
      with repetitions and with losses. */
  lemma Convergence(db: Db, partial: seq<Write>, log: seq<Write>)
    requires Rewrites(log, partial)
    ensures Replay(Replay(db, partial), log).swaps == Replay(db, log).swaps
  {
    var mid := Replay(db, partial);
    var a := Replay(mid, log);
    var b := Replay(db, log);
    forall id
      ensures id in a.swaps <==> id in b.swaps
      ensures id in a.swaps ==> a.swaps[id] == b.swaps[id]
    {
      ReplaySwaps(db, partial, id);
      ReplaySwaps(mid, log, id);
      ReplaySwaps(db, log, id);
      if id in db.swaps {
        forall kind: Kind ensures Get(a.swaps[id], kind) == Get(b.swaps[id], kind) {
          ConvergesAt(db, partial, log, id, kind);
        }
        RowLaws(a.swaps[id], b.swaps[id], RefundGroup("", 0), Refund);
      }
    }
    assert a.swaps == b.swaps;
  }

  /** A row whose columns of that group hold something else. */
  function OtherRow(id: string, g: Group): Swap {
    var row := Swap(id, "", "", "", "", 0, 0, 0, [], [], "", "", "", 0, 0, 0);
    match g
    case InitiateGroup(_, _, block) => row.(initiateBlockNumber := block + 1)
    case RedeemGroup(_, _, block) => row.(redeemBlockNumber := block + 1)
    case RefundGroup(_, block) => row.(refundBlockNumber := block + 1)
  }

  ghost predicate Repairs(log: seq<Write>, partial: seq<Write>) {
    forall db :: Replay(Replay(db, partial), log).swaps == Replay(db, log).swaps
  }

  lemma RepairNeedsRewrite(partial: seq<Write>, log: seq<Write>, w: Write)
    requires w in partial && w.Update? && !(exists v :: v in log && Writes(v, w.swapID, w.group.Kind()))
    ensures !Repairs(log, partial)
  {
    var id, kind := w.swapID, w.group.Kind();
    assert Writes(w, id, kind);
    var row := OtherRow(id, LastGroup(partial, id, kind, w.group));
    LastGroupOver(partial, id, kind, w.group, Get(row, kind));
    LastGroupKind(partial, id, kind, w.group);
    var db := Db(map[id := row], map[]);
    ReplaySwaps(db, partial, id);
    ReplaySwaps(Replay(db, partial), log, id);
    ReplaySwaps(db, log, id);
    LastGroupWritten(log, id, kind, Get(row, kind));
    LastGroupWritten(log, id, kind, Get(Replay(db, partial).swaps[id], kind));
    assert Replay(Replay(db, partial), log).swaps[id] != Replay(db, log).swaps[id];
  }

  lemma {:induction false} LastGroupKind(ws: seq<Write>, id: string, kind: Kind, before: Group)
    requires before.Kind() == kind
    ensures LastGroup(ws, id, kind, before).Kind() == kind
  {
    if ws != [] {
      LastGroupKind(ws[..|ws| - 1], id, kind, before);
    }
  }

  /** A full replay of log repairs every swaps table exactly when log rewrites all that was written. */
  lemma RepairsIffRewrites(partial: seq<Write>, log: seq<Write>)
    ensures Repairs(log, partial) <==> Rewrites(log, partial)
  {
    if Rewrites(log, partial) {
      forall db ensures Replay(Replay(db, partial), log).swaps == Replay(db, log).swaps {
        Convergence(db, partial, log);
      }
    } else {
      var w :| w in partial && w.Update? && !(exists v :: v in log && Writes(v, w.swapID, w.group.Kind()));
      RepairNeedsRewrite(partial, log, w);
    }
  }

  /** Once any delivery of the log has been applied, with agreement, replaying it changes nothing. */
  lemma RedeliveryIsNoOp(db: Db, partial: seq<Write>, log: seq<Write>)
    requires forall w :: w in partial ==> w in log
    ensures AgreeOnSwaps(db, log) ==> Replay(Replay(db, partial), log).swaps == Replay(db, log).swaps == Replay(Replay(db, log), partial).swaps
    ensures AgreeOnOrders(db, log) ==> Replay(Replay(db, partial), log).orders == Replay(db, log).orders == Replay(Replay(db, log), partial).orders
  {
    hide Replay;
    ReplayConcat(db, partial, log);
    ReplayConcat(db, log, partial);
    if AgreeOnSwaps(db, log) {
      SwapsConfluence(db, log, partial + log);
      SwapsConfluence(db, log, log + partial);
    }
    if AgreeOnOrders(db, log) {
      OrdersConfluence(db, log, partial + log);
      OrdersConfluence(db, log, log + partial);
    }
  }
}
