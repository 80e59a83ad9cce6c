/** Undoing and repeating: cancel undoes checkout, and a repeated request changes nothing. */
module OrderIdempotence {
  import opened Wrappers
  import opened Text
  import opened Sums
  import opened Orders
  import opened OrderStock
  import opened OrderLaws
  import opened CancellationLaws
  import opened RejectionLaws
  import opened FulfilmentLaws
  import opened CheckoutSound
  import opened OrderRuns
  import opened OrderTheorems
  import I = Inventory

  // ----- Which withdrawals are accepted -----

  /** Nothing but the published rules can refuse a customer cancellation. */
  lemma {:induction false} CustomerCancelAcceptedIff(db: Db, order: nat, customer: nat, reason: string)
    requires Sound(db)
    ensures CancelByCustomer(db, order, customer, reason).Ok? <==>
      order < |db.orders| && db.orders[order].customer == customer && Strip(reason) != "" && CustomerMayCancel(db, order)
  {
    if order < |db.orders| && CustomerMayCancel(db, order) {
      assert OrderAgrees(db.orders[order], db.storeOrders, order);
      CustomerCovers(db, order);
      CancelOrderSound(db, order, CUSTOMER_CANCELABLE);
    }
  }

  lemma {:induction false} AdminCancelAcceptedIff(db: Db, order: nat, hasActor: bool, reason: string)
    requires Sound(db)
    ensures CancelByAdmin(db, order, hasActor, reason).Ok? <==>
      hasActor && order < |db.orders| && Strip(reason) != "" && AdminMayCancel(db.orders[order])
  {
    if order < |db.orders| && AdminMayCancel(db.orders[order]) {
      assert OrderAgrees(db.orders[order], db.storeOrders, order);
      AdminCovers(db, order);
      CancelOrderSound(db, order, ACTIVE);
    }
  }

  lemma {:induction false} RejectionAcceptedIff(db: Db, id: nat, store: I.StoreId, reason: string)
    requires Sound(db)
    ensures Reject(db, id, store, reason).Ok? <==>
      Rejectable(db, id) && db.storeOrders[id].store == store && Strip(reason) != ""
  {
    if Rejectable(db, id) && db.storeOrders[id].store == store && Strip(reason) != "" {
      RejectSound(db, id, store, reason);
    }
  }

  // ----- Repeating -----

  lemma {:induction false} NothingToRestore(db: Db, from: nat, scope: Scope)
    requires forall k :: 0 <= k < |db.items| && InScope(db.storeOrders, db.items[k], scope) ==> db.items[k].restored
    ensures RestoreFrom(db, from, scope) == Ok(db)
    decreases |db.items| - from
  {
    if from < |db.items| {
      NothingToRestore(db, from + 1, scope);
    }
  }

  /** Cancelling an order whose rows are all withdrawn already leaves every table as it is. */
  lemma {:induction false} CancelAgainChangesNothing(db: Db, order: nat, statuses: set<StoreOrderStatus>)
    requires Sound(db) && order < |db.orders| && db.orders[order].status == OrderStatus.Cancelled
    requires forall k :: 0 <= k < |db.items| && InScope(db.storeOrders, db.items[k], OfOrder(order)) ==> db.items[k].cancelled
    ensures CancelOrder(db, order, statuses) == Ok(db)
  {
    CancelledHoldsNothing(db, order);
    NothingToRestore(db, 0, OfOrder(order));
    assert MarkCancelled(db.storeOrders, db.items, OfOrder(order)) == db.items;
    assert OrderAgrees(db.orders[order], db.storeOrders, order);
    RecalculateIdempotent(db.orders[order], db.storeOrders, order);
    assert WithTotals(db, order) == db;
  }

  /**
   * Repeating a rejection leaves stock, ledger, items, store orders and totals alone; the only thing
   * it can change is the parent status, which it re-derives from the store orders.
   */
  lemma {:induction false} RejectAgainOnlySyncs(db: Db, id: nat, store: I.StoreId, reason: string)
    requires Sound(db) && id < |db.storeOrders| && db.storeOrders[id].status == StoreOrderStatus.Rejected
    requires db.storeOrders[id].store == store && Strip(reason) != ""
    ensures Reject(db, id, store, reason) == Ok(WithSync(db, db.storeOrders[id].order))
    ensures Reject(db, id, store, reason) == Ok(db) <==>
      db.orders[db.storeOrders[id].order].status
        == CalculateOrderStatus(StatusesOf(db.storeOrders, db.storeOrders[id].order))
  {
    var order := db.storeOrders[id].order;
    forall k | 0 <= k < |db.items| && InScope(db.storeOrders, db.items[k], OfStoreOrder(id))
      ensures db.items[k].restored && db.items[k].rejected
    {
      assert ItemAgrees(db.storeOrders, db.items[k]);
    }
    NothingToRestore(db, 0, OfStoreOrder(id));
    assert MarkRejected(db.storeOrders, db.items, OfStoreOrder(id)) == db.items;
    var synced := WithSync(db, order);
    assert OrderAgrees(db.orders[order], db.storeOrders, order);
    RecalculateIdempotent(synced.orders[order], synced.storeOrders, order);
    assert WithTotals(synced, order) == synced;
    if synced.orders[order] == db.orders[order] {
      assert synced == db;
    }
  }

  /** Repeating a rejection straight away changes nothing at all. */
  lemma {:induction false} RejectionIdempotent(db: Db, id: nat, store: I.StoreId, reason: string, again: string)
    requires Sound(db) && Reject(db, id, store, reason).Ok? && Strip(again) != ""
    ensures var next := Reject(db, id, store, reason).value; Reject(next, id, store, again) == Ok(next)
  {
    RejectionAcceptedIff(db, id, store, reason);
    RejectSound(db, id, store, reason);
    var next := Reject(db, id, store, reason).value;
    RejectAgainOnlySyncs(next, id, store, again);
    RejectedStatusSynced(db, id, store, reason);
  }

  lemma {:induction false} RejectedStatusSynced(db: Db, id: nat, store: I.StoreId, reason: string)
    requires Sound(db) && Reject(db, id, store, reason).Ok?
    ensures var next, order := Reject(db, id, store, reason).value, db.storeOrders[id].order;
      order < |next.orders| && next.orders[order].status == CalculateOrderStatus(StatusesOf(next.storeOrders, order))
  {
    var order := db.storeOrders[id].order;
    RejectRowFacts(db, id);
    RejectedRowsFacts(db, id);
    var m := RejectedRows(db, id).value;
    assert Reject(db, id, store, reason) == Ok(WithTotals(WithSync(m, order), order));
  }

  /**
   * Management moves a partly rejected order on, and a late repeat of the rejection undoes exactly
   * that: every table is back to what it was before management acted.
   */
  lemma {:induction false} LateRejectionUndoesProgress(
      db: Db, id: nat, store: I.StoreId, reason: string, target: OrderStatus, note: string)
    requires Sound(db) && id < |db.storeOrders| && db.storeOrders[id].status == StoreOrderStatus.Rejected
    requires db.storeOrders[id].store == store && Strip(reason) != ""
    requires var order := db.storeOrders[id].order;
      && UpdateOrderStatus(db, order, target, note).Ok?
      && target !in {db.orders[order].status, OrderStatus.Completed} && db.orders[order].status != OrderStatus.Completed
      && db.orders[order].status == CalculateOrderStatus(StatusesOf(db.storeOrders, order))
    ensures var moved := UpdateOrderStatus(db, db.storeOrders[id].order, target, note).value;
      moved != db && Reject(moved, id, store, reason) == Ok(db)
  {
    var order := db.storeOrders[id].order;
    var moved := UpdateOrderStatus(db, order, target, note).value;
    UpdateOrderStatusSound(db, order, target, note);
    assert moved == db.(orders := db.orders[order := db.orders[order].(status := target)]);
    RejectAgainOnlySyncs(moved, id, store, reason);
    assert Synced(moved.orders[order], moved.storeOrders, order) == db.orders[order];
    assert moved.orders[order := db.orders[order]] == db.orders;
  }

  /** A shop in which one store has rejected its part and the other is still to answer. */
  predicate PartlyRejected(db: Db) {
    && db.stock == I.State([], []) && db.items == [] && |db.orders| == 1 && |db.storeOrders| == 2
    && db.orders[0] == Order(1, "t", OrderStatus.PartiallyCancelled, PaymentStatus.Pending, 0, 0, 0, 0)
    && db.storeOrders[0] == StoreOrder(0, 1, StoreOrderStatus.Rejected, None, 0, 0)
    && db.storeOrders[1] == StoreOrder(0, 2, StoreOrderStatus.Pending, None, 0, 0)
  }

  lemma {:induction false} NothingSoldSound(db: Db)
    requires db.stock == I.State([], []) && db.items == []
    ensures StockSound(db)
  {
    forall k: nat ensures Recorded(db.stock.ledger, db.items, k) {
    }
  }

  lemma {:induction false} PartlyRejectedAgrees(db: Db)
    requires PartlyRejected(db)
    ensures OrderAgrees(db.orders[0], db.storeOrders, 0)
  {
    var rows := db.storeOrders;
    assert Charged(rows[1], 0);
    SumZero(rows, ItemsCharged(0));
    SumZero(rows, DeliveryCharged(0));
  }

  lemma {:induction false} PartlyRejectedSound(db: Db)
    requires PartlyRejected(db)
    ensures Sound(db)
  {
    NothingSoldSound(db);
    PartlyRejectedAgrees(db);
    assert Linked(db);
    assert StoreOrderMoney(db) by {
      forall j | 0 <= j < |db.storeOrders| ensures db.storeOrders[j].itemsSubtotal == Sum(db.items, LinesIn(j)) {
      }
    }
  }

  /** Management moves that order on, and repeating the rejection takes it back. */
  lemma {:induction false} RepeatedRejectionCanMoveStatus(db: Db)
    requires PartlyRejected(db)
    ensures Sound(db) && UpdateOrderStatus(db, 0, OrderStatus.InProgress, "").Ok?
    ensures var moved := UpdateOrderStatus(db, 0, OrderStatus.InProgress, "").value;
      moved != db && Reject(moved, 0, 1, "closed") == Ok(db)
  {
    PartlyRejectedSound(db);
    TwoStatuses(db.storeOrders);
    ClosedIsReason();
    LateRejectionUndoesProgress(db, 0, 1, "closed", OrderStatus.InProgress, "");
  }

  lemma {:induction false} ClosedIsReason()
    ensures Strip("closed") != ""
  {
  }

  lemma {:induction false} TwoStatuses(rows: seq<StoreOrder>)
    requires |rows| == 2 && rows[0].order == rows[1].order == 0
    requires rows[0].status == StoreOrderStatus.Rejected && rows[1].status == StoreOrderStatus.Pending
    ensures CalculateOrderStatus(StatusesOf(rows, 0)) == OrderStatus.PartiallyCancelled
  {
    var first := rows[..1];
    var statuses := [StoreOrderStatus.Rejected, StoreOrderStatus.Pending];
    assert StatusesOf(first[..0], 0) == [];
    assert StatusesOf(first, 0) == [StoreOrderStatus.Rejected];
    assert StatusesOf(rows, 0) == StatusesOf(first, 0) + [StoreOrderStatus.Pending] == statuses;
    assert StoreOrderStatus.Rejected in statuses && StoreOrderStatus.Pending in statuses;
  }

  // ----- Cancel undoes checkout -----

  /** During a run that concerns one fresh order, every older row stays as it was. */
  ghost predicate OnlyFreshRows(start: Db, db: Db, order: nat) {
    && |start.items| <= |db.items| && db.items[..|start.items|] == start.items
    && |start.storeOrders| <= |db.storeOrders| && db.storeOrders[..|start.storeOrders|] == start.storeOrders
    && (forall k :: |start.items| <= k < |db.items| ==> InScope(db.storeOrders, db.items[k], OfOrder(order)))
  }

  lemma {:induction false} StepKeepsOlderRows(start: Db, now: Db, next: Db, order: nat)
    requires OnlyFreshRows(start, now, order) && OnlyOrder(now, next, order)
    requires Linked(start) && |start.orders| == order
    ensures OnlyFreshRows(start, next, order)
  {
    forall k | 0 <= k < |start.items| ensures next.items[k] == start.items[k] {
      assert now.items[..|start.items|][k] == now.items[k];
      assert ItemAgrees(start.storeOrders, start.items[k]);
      assert now.storeOrders[..|start.storeOrders|][now.items[k].storeOrder] == start.storeOrders[now.items[k].storeOrder];
    }
    forall j | 0 <= j < |start.storeOrders| ensures next.storeOrders[j] == start.storeOrders[j] {
      assert now.storeOrders[..|start.storeOrders|][j] == now.storeOrders[j];
    }
    forall k | |start.items| <= k < |next.items| ensures InScope(next.storeOrders, next.items[k], OfOrder(order)) {
      SameScope(now.storeOrders, next.storeOrders, order, now.items[k], next.items[k], OfOrder(order));
    }
  }

  /** A run that places one order and then only concerns that order. */
  ghost predicate SingleOrderRun(states: seq<Db>, events: seq<Event>) {
    && IsRun(states, events) && |events| > 0
    && Sound(states[0]) && CartsSound(states[0])
    && events[0].Place? && events[0].since == 0
    && |states[1].orders| == |states[0].orders| + 1
    && forall i :: 1 <= i < |events| ==> OnOneOrder(events[i]) && Concerns(states[i], events[i]) == |states[0].orders|
  }

  lemma {:induction false} PlacedRowsAreFresh(states: seq<Db>, events: seq<Event>)
    requires SingleOrderRun(states, events)
    ensures OnlyFreshRows(states[0], states[1], |states[0].orders|)
  {
    var db, req := states[0], events[0].req;
    assert states[..1] == [db];
    assert states[1] == PlaceOrder(db, db, events[0].early, req).after;
    PlacedOrderIsFresh(db, events[0].early, req);
  }

  lemma {:induction false} PlacedOrderIsFresh(db: Db, early: bool, req: Checkout)
    requires Sound(db) && CartsSound(db) && |PlaceOrder(db, db, early, req).after.orders| == |db.orders| + 1
    ensures OnlyFreshRows(db, PlaceOrder(db, db, early, req).after, |db.orders|)
  {
    if ReachesInsert(db, req) {
      var lines := ValidatedLines(db, req).value;
      LockedLinesReady(db, db, req);
      CreateOrderGraphSound(db, req, lines);
      NewRowsAreFresh(db, CreateOrderGraph(db, req, lines).value, NewStoreOrders(|db.orders|, StoreGroups(lines)), |db.orders|);
    }
  }

  lemma {:induction false} NewRowsAreFresh(db: Db, next: Db, rows: seq<StoreOrder>, order: nat)
    requires Linked(next) && db.items <= next.items && next.storeOrders == db.storeOrders + rows
    requires forall j :: 0 <= j < |rows| ==> rows[j].order == order
    requires forall k :: |db.items| <= k < |next.items| ==> next.items[k].storeOrder >= |db.storeOrders|
    ensures OnlyFreshRows(db, next, order)
  {
    forall k | |db.items| <= k < |next.items| ensures InScope(next.storeOrders, next.items[k], OfOrder(order)) {
      assert ItemAgrees(next.storeOrders, next.items[k]);
    }
  }

  lemma {:induction false} SingleOrderStep(states: seq<Db>, events: seq<Event>, i: nat)
    requires SingleOrderRun(states, events) && 1 <= i < |events|
    ensures OnlyOrder(states[i], states[i + 1], |states[0].orders|)
  {
    RunConserves(states, events, i);
    RunOrderStep(states, events, i);
  }

  lemma {:induction false} OlderRowsStay(states: seq<Db>, order: nat, n: nat)
    requires 1 <= n < |states| && Linked(states[0]) && |states[0].orders| == order
    requires OnlyFreshRows(states[0], states[1], order)
    requires forall i :: 1 <= i < n ==> OnlyOrder(states[i], states[i + 1], order)
    ensures OnlyFreshRows(states[0], states[n], order)
  {
    if n > 1 {
      OlderRowsStay(states, order, n - 1);
      StepKeepsOlderRows(states[0], states[n - 1], states[n], order);
    }
  }

  lemma {:induction false} SingleOrderKeepsOlderRows(states: seq<Db>, events: seq<Event>, n: nat)
    requires SingleOrderRun(states, events) && 1 <= n <= |events|
    ensures OnlyFreshRows(states[0], states[n], |states[0].orders|)
  {
    PlacedRowsAreFresh(states, events);
    forall i | 1 <= i < n ensures OnlyOrder(states[i], states[i + 1], |states[0].orders|) {
      SingleOrderStep(states, events, i);
    }
    OlderRowsStay(states, |states[0].orders|, n);
  }

  lemma {:induction false} OrderEventsMoveNothing(states: seq<Db>, events: seq<Event>, n: nat, p: I.ProductId)
    requires |states| == |events| + 1 && n <= |events|
    requires forall i :: 0 <= i < n ==> !events[i].Move?
    ensures ManualNet(states, events, n, p) == 0
    decreases n
  {
    if n > 0 {
      OrderEventsMoveNothing(states, events, n - 1, p);
    }
  }

  lemma {:induction false} RestoredItemsHoldNothing(start: seq<Item>, end: seq<Item>, p: I.ProductId)
    requires |start| <= |end| && end[..|start|] == start
    requires forall k :: |start| <= k < |end| ==> end[k].restored
    ensures Held(end, p) == Held(start, p)
  {
    assert end == start + end[|start|..];
    SumAppend(start, end[|start|..], HeldOf(p));
    SumZero(end[|start|..], HeldOf(p));
  }

  /**
   * Cancel undoes checkout. Place an order, then reject, advance, deliver, reverse or cancel its
   * parts in any order and as often as one likes: once the order is cancelled, every product has
   * the stock it had before the checkout.
   */
  lemma {:induction false} CancelUndoesCheckout(states: seq<Db>, events: seq<Event>, n: nat, p: I.ProductId)
    requires SingleOrderRun(states, events) && 1 <= n <= |events|
    requires |states[0].orders| < |states[n].orders|
    requires states[n].orders[|states[0].orders|].status == OrderStatus.Cancelled
    requires p < |states[0].stock.products|
    ensures p < |states[n].stock.products|
    ensures states[n].stock.products[p].stock == states[0].stock.products[p].stock
  {
    var order := |states[0].orders|;
    RunConserves(states, events, n);
    OrderEventsMoveNothing(states, events, n, p);
    SingleOrderKeepsOlderRows(states, events, n);
    CancelledHoldsNothing(states[n], order);
    RestoredItemsHoldNothing(states[0].items, states[n].items, p);
    assert Claim(states[n], p) == Claim(states[0], p);
  }
}
