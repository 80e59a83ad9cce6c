/** Store rejection: one store order gives its stock back and leaves the payable total. */
module RejectionLaws {
  import opened Wrappers
  import opened Text
  import opened Orders
  import opened OrderStock
  import opened OrderLaws
  import opened CancellationLaws
  import I = Inventory

  predicate Rejectable(db: Db, id: nat) {
    id < |db.storeOrders|
    && db.storeOrders[id].status in {StoreOrderStatus.Rejected, StoreOrderStatus.Pending}
  }

  lemma {:induction false} RejectRowFacts(db: Db, id: nat)
    requires Rejectable(db, id)
    ensures var c, order := RejectRow(db, id), db.storeOrders[id].order;
      && c == db.(storeOrders := c.storeOrders, items := c.items)
      && c.storeOrders == db.storeOrders[id := db.storeOrders[id].(status := StoreOrderStatus.Rejected)]
      && StatusChange(db.storeOrders, c.storeOrders, order)
      && FlagsRaised(db.items, c.items) && SameRestored(db.items, c.items)
      && (forall k :: 0 <= k < |db.items| && !InScope(db.storeOrders, db.items[k], OfStoreOrder(id)) ==> c.items[k] == db.items[k])
  {
    var c := RejectRow(db, id);
    if db.storeOrders[id].status == StoreOrderStatus.Rejected {
      assert c.storeOrders == db.storeOrders;
    }
  }

  /** The rows a rejection leaves before the parent is synced and its totals recomputed. */
  function RejectedRows(db: Db, id: nat): Result<Db, Error>
    requires id < |db.storeOrders|
  {
    match RestoreFrom(RejectRow(db, id), 0, OfStoreOrder(id))
    case Err(error) => Err(error)
    case Ok(next) => Ok(next.(items := MarkRejected(next.storeOrders, next.items, OfStoreOrder(id))))
  }

  lemma {:induction false} MarkRejectedOnlyOrder(r: Db, id: nat, order: nat)
    requires StockSound(r) && id < |r.storeOrders| && r.storeOrders[id].order == order
    ensures var m := r.(items := MarkRejected(r.storeOrders, r.items, OfStoreOrder(id)));
      && StockSound(m) && OnlyOrder(r, m, order)
      && (forall k :: 0 <= k < |r.items| ==>
            m.items[k] == r.items[k].(rejected := r.items[k].rejected || InScope(r.storeOrders, r.items[k], OfStoreOrder(id))))
  {
    var m := r.(items := MarkRejected(r.storeOrders, r.items, OfStoreOrder(id)));
    StockSoundKept(r, m, order);
  }

  lemma {:induction false} RejectedRowsFacts(db: Db, id: nat)
    requires StockSound(db) && Rejectable(db, id)
    ensures RejectedRows(db, id).Ok?
    ensures var c, m, order := RejectRow(db, id), RejectedRows(db, id).value, db.storeOrders[id].order;
      && OnlyOrder(db, m, order) && StockSound(m)
      && m == c.(items := m.items, stock := m.stock)
      && (forall k :: 0 <= k < |m.items| ==>
            if InScope(db.storeOrders, db.items[k], OfStoreOrder(id))
            then m.items[k] == db.items[k].(restored := true, rejected := true)
            else m.items[k] == db.items[k])
  {
    var order := db.storeOrders[id].order;
    var c := RejectRow(db, id);
    RejectRowFacts(db, id);
    StockSoundKept(db, c, order);
    RestoreOnlyOrder(c, OfStoreOrder(id), order);
    var r := RestoreFrom(c, 0, OfStoreOrder(id)).value;
    MarkRejectedOnlyOrder(r, id, order);
    OnlyOrderTransitive(db, c, r, order);
    OnlyOrderTransitive(db, r, RejectedRows(db, id).value, order);
    ScopeKept(db, c, order, OfStoreOrder(id));
    ScopeKept(db, r, order, OfStoreOrder(id));
  }

  lemma {:induction false} RejectedLinked(db: Db, m: Db, id: nat)
    requires Linked(db) && Rejectable(db, id) && OnlyOrder(db, m, db.storeOrders[id].order)
    requires m.storeOrders == db.storeOrders[id := db.storeOrders[id].(status := StoreOrderStatus.Rejected)]
    requires forall k :: 0 <= k < |m.items| ==>
      if InScope(db.storeOrders, db.items[k], OfStoreOrder(id))
      then m.items[k].restored && m.items[k].rejected
      else m.items[k] == db.items[k]
    ensures Linked(m)
  {
    forall k | 0 <= k < |m.items| ensures ItemAgrees(m.storeOrders, m.items[k]) {
      assert ItemAgrees(db.storeOrders, db.items[k]);
    }
  }

  /** A row with the synced status and recomputed totals agrees with its store orders. */
  lemma {:induction false} SyncedRowAgrees(row: Order, before: seq<StoreOrder>, after: seq<StoreOrder>, order: nat, id: nat)
    requires OrderAgrees(row, before, order)
    requires id < |before| && before[id].order == order
    requires before[id].status in {StoreOrderStatus.Rejected, StoreOrderStatus.Pending}
    requires after == before[id := before[id].(status := StoreOrderStatus.Rejected)]
    ensures OrderAgrees(Recalculate(Synced(row, after, order), after, order), after, order)
  {
    var synced := Synced(row, after, order);
    SyncedStatus(row, after, order, id);
    RecalculatedTotals(synced, after, order);
    if before[id].status == StoreOrderStatus.Pending {
      assert Charged(before[id], order) && row.status != OrderStatus.Completed;
      NoCompletedLeft(before, after, order, id);
    } else {
      assert after == before;
      if row.status == OrderStatus.Completed {
        assert AnyCharged(before, order);
      }
      CompletedMeansCompleted(synced, row, before, order);
    }
  }

  lemma {:induction false} NoCompletedLeft(before: seq<StoreOrder>, after: seq<StoreOrder>, order: nat, id: nat)
    requires id < |before| && before[id].order == order
    requires after == before[id := before[id].(status := StoreOrderStatus.Rejected)]
    requires forall j :: 0 <= j < |before| && before[j].order == order ==> before[j].status != StoreOrderStatus.Completed
    ensures forall j :: 0 <= j < |after| && after[j].order == order ==> after[j].status != StoreOrderStatus.Completed
    ensures !(AnyCharged(after, order)
              && forall j :: 0 <= j < |after| && Charged(after[j], order) ==> after[j].status == StoreOrderStatus.Completed)
  {
    if AnyCharged(after, order) {
      var j :| 0 <= j < |after| && Charged(after[j], order);
      assert after[j].status != StoreOrderStatus.Completed;
    }
  }

  lemma {:induction false} CompletedMeansCompleted(synced: Order, row: Order, rows: seq<StoreOrder>, order: nat)
    requires Lifecycle(row, rows, order)
    requires synced.status == OrderStatus.Completed <==>
      AnyCharged(rows, order)
      && forall i :: 0 <= i < |rows| && Charged(rows[i], order) ==> rows[i].status == StoreOrderStatus.Completed
    ensures synced.status == OrderStatus.Completed <==> row.status == OrderStatus.Completed
  {
    if synced.status == OrderStatus.Completed {
      var i :| 0 <= i < |rows| && Charged(rows[i], order);
      assert rows[i].status == StoreOrderStatus.Completed;
    }
  }

  /** A permitted rejection never fails, restores exactly its own items and keeps the invariant. */
  lemma {:induction false} RejectSound(db: Db, id: nat, store: I.StoreId, reason: string)
    requires Sound(db) && Rejectable(db, id) && db.storeOrders[id].store == store && Strip(reason) != ""
    ensures Reject(db, id, store, reason).Ok?
    ensures var next, order := Reject(db, id, store, reason).value, db.storeOrders[id].order;
      && Sound(next) && OnlyOrder(db, next, order)
      && next.storeOrders == db.storeOrders[id := db.storeOrders[id].(status := StoreOrderStatus.Rejected)]
      && (forall k :: 0 <= k < |next.items| ==>
            if InScope(db.storeOrders, db.items[k], OfStoreOrder(id))
            then next.items[k] == db.items[k].(restored := true, rejected := true)
            else next.items[k] == db.items[k])
  {
    var order := db.storeOrders[id].order;
    RejectRowFacts(db, id);
    RejectedRowsFacts(db, id);
    var m := RejectedRows(db, id).value;
    var next := WithTotals(WithSync(m, order), order);
    assert Reject(db, id, store, reason) == Ok(next);
    SyncOnly(db, m, order);
    TotalsOnly(db, WithSync(m, order), order);
    RejectedLinked(db, next, id);
    MoneyKept(db, next, order);
    assert OrderAgrees(db.orders[order], db.storeOrders, order);
    SyncedRowAgrees(db.orders[order], db.storeOrders, m.storeOrders, order, id);
    OthersAgree(db, next, order);
  }

  lemma {:induction false} SyncOnly(db: Db, m: Db, order: nat)
    requires order < |db.orders| && OnlyOrder(db, m, order) && StockSound(m)
    ensures StockSound(WithSync(m, order)) && OnlyOrder(db, WithSync(m, order), order)
  {
    var next := WithSync(m, order);
    forall p | 0 <= p < |db.stock.products| ensures Claim(db, p) == Claim(next, p) {
      assert Claim(db, p) == Claim(m, p);
    }
  }

  /** When one order's row agrees again, all do: the others never changed. */
  lemma {:induction false} OthersAgree(db: Db, next: Db, order: nat)
    requires OrdersAgree(db) && order < |db.orders| && |next.orders| == |db.orders|
    requires StatusChange(db.storeOrders, next.storeOrders, order)
    requires forall o :: 0 <= o < |db.orders| && o != order ==> next.orders[o] == db.orders[o]
    requires OrderAgrees(next.orders[order], next.storeOrders, order)
    ensures OrdersAgree(next)
  {
    forall o | 0 <= o < |next.orders| ensures OrderAgrees(next.orders[o], next.storeOrders, o) {
      if o != order {
        assert OrderAgrees(db.orders[o], db.storeOrders, o);
        OtherOrdersKeep(db.storeOrders, next.storeOrders, order, o, db.orders[o]);
      }
    }
  }
}
