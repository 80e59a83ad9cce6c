/** Fulfilment moves keep the invariant: delivery, reversal and payment stay consistent. */
module FulfilmentLaws {
  import opened Orders
  import opened OrderStock
  import opened OrderLaws
  import opened CancellationLaws
  import opened RejectionLaws
  import I = Inventory

  /** A move of statuses that charges for the same store orders touches neither stock nor items. */
  lemma {:induction false} MoveKeepsRows(db: Db, next: Db, order: nat)
    requires StockSound(db) && Linked(db) && StoreOrderMoney(db) && order < |db.orders|
    requires |next.orders| == |db.orders|
    requires next == db.(storeOrders := next.storeOrders, orders := db.orders[order := next.orders[order]])
    requires next.orders[order].token == db.orders[order].token && next.orders[order].customer == db.orders[order].customer
    requires StatusChange(db.storeOrders, next.storeOrders, order) && SameCharging(db.storeOrders, next.storeOrders)
    requires forall j :: 0 <= j < |db.storeOrders| ==>
      next.storeOrders[j].status == StoreOrderStatus.Rejected ==> db.storeOrders[j].status == StoreOrderStatus.Rejected
    ensures StockSound(next) && Linked(next) && StoreOrderMoney(next) && OnlyOrder(db, next, order)
  {
    StockSoundKept(db, next, order);
    MoneyKept(db, next, order);
    forall k | 0 <= k < |next.items| ensures ItemAgrees(next.storeOrders, next.items[k]) {
      assert ItemAgrees(db.storeOrders, db.items[k]);
    }
  }

  // ----- transition_store_order -----

  lemma {:induction false} TransitionRowAgrees(row: Order, before: seq<StoreOrder>, order: nat, id: nat, action: Action)
    requires OrderAgrees(row, before, order)
    requires id < |before| && before[id].order == order && before[id].status == SourceOf(action)
    ensures var after := before[id := before[id].(status := TargetOf(action))];
      StatusChange(before, after, order) && SameCharging(before, after)
      && OrderAgrees(Synced(row, after, order), after, order)
  {
    var after := before[id := before[id].(status := TargetOf(action))];
    assert Charged(before[id], order) && Charged(after[id], order);
    SameChargingKeepsTotals(before, after, order, row);
    SyncedStatus(row, after, order, id);
    assert row.status != OrderStatus.Completed;
    assert after[id].status != StoreOrderStatus.Completed;
  }

  lemma {:induction false} TransitionSound(db: Db, id: nat, store: I.StoreId, portalOpen: bool, action: Action)
    requires Sound(db) && Transition(db, id, store, portalOpen, action).Ok?
    ensures var next := Transition(db, id, store, portalOpen, action).value;
      Sound(next) && OnlyOrder(db, next, db.storeOrders[id].order) && next.items == db.items && next.stock == db.stock
  {
    var order := db.storeOrders[id].order;
    var next := Transition(db, id, store, portalOpen, action).value;
    assert OrderAgrees(db.orders[order], db.storeOrders, order);
    TransitionRowAgrees(db.orders[order], db.storeOrders, order, id, action);
    MoveKeepsRows(db, next, order);
    OthersAgree(db, next, order);
  }

  // ----- update_order_status -----

  lemma {:induction false} CompleteRowAgrees(row: Order, before: seq<StoreOrder>, order: nat)
    requires OrderAgrees(row, before, order) && row.status != OrderStatus.Cancelled
    ensures var after := CompleteStoreOrders(before, order);
      StatusChange(before, after, order) && SameCharging(before, after)
      && OrderAgrees(row.(status := OrderStatus.Completed), after, order)
  {
    var after := CompleteStoreOrders(before, order);
    SameChargingKeepsTotals(before, after, order, row);
  }

  lemma {:induction false} ReopenRowAgrees(row: Order, before: seq<StoreOrder>, order: nat)
    requires OrderAgrees(row, before, order)
    requires row.status == OrderStatus.Completed && row.payment != PaymentStatus.Collected
    ensures var after := ReopenStoreOrders(before, order);
      StatusChange(before, after, order) && SameCharging(before, after)
      && OrderAgrees(row.(status := OrderStatus.InProgress), after, order)
  {
    var after := ReopenStoreOrders(before, order);
    SameChargingKeepsTotals(before, after, order, row);
  }

  lemma {:induction false} UpdateOrderStatusSound(db: Db, order: nat, target: OrderStatus, note: string)
    requires Sound(db) && UpdateOrderStatus(db, order, target, note).Ok?
    ensures var next := UpdateOrderStatus(db, order, target, note).value;
      Sound(next) && OnlyOrder(db, next, order) && next.items == db.items && next.stock == db.stock
  {
    var next := UpdateOrderStatus(db, order, target, note).value;
    var row := db.orders[order];
    assert OrderAgrees(row, db.storeOrders, order);
    if target == row.status {
      assert next.orders == db.orders[order := next.orders[order]];
    } else if row.status == OrderStatus.Completed && target == OrderStatus.InProgress {
      ReopenRowAgrees(row, db.storeOrders, order);
    } else if target == OrderStatus.Completed {
      CompleteRowAgrees(row, db.storeOrders, order);
    }
    MoveKeepsRows(db, next, order);
    OthersAgree(db, next, order);
  }

  // ----- update_order_payment_status -----

  lemma {:induction false} UpdatePaymentSound(db: Db, order: nat, target: PaymentStatus, note: string)
    requires Sound(db) && UpdatePayment(db, order, target, note).Ok?
    ensures var next := UpdatePayment(db, order, target, note).value;
      Sound(next) && OnlyOrder(db, next, order) && next.items == db.items && next.stock == db.stock
  {
    var next := UpdatePayment(db, order, target, note).value;
    assert OrderAgrees(db.orders[order], db.storeOrders, order);
    assert next.orders == db.orders[order := next.orders[order]];
    MoveKeepsRows(db, next, order);
    OthersAgree(db, next, order);
  }
}
