/** The order services on literal columns: who may withdraw, what payment follows, and the status tables. */
module OrderRules {
  import opened Text
  import opened Orders
  import opened OrderLaws
  import opened CancellationLaws
  import opened OrderRuns
  import opened OrderIdempotence
  import opened RejectionLaws
  import I = Inventory

  /** A text with something in it besides whitespace. */
  predicate Says(text: string) {
    exists i :: 0 <= i < |text| && !IsSpace(text[i])
  }

  lemma {:induction false} SaysIff(text: string)
    ensures Says(text) <==> Strip(text) != ""
  {
    StripEmptyIff(text);
  }

  /** Every store order of `order` has one of these statuses. */
  predicate AllIn(rows: seq<StoreOrder>, order: nat, statuses: set<StoreOrderStatus>) {
    forall j :: 0 <= j < |rows| && rows[j].order == order ==> rows[j].status in statuses
  }

  // ----- Withdrawals -----

  /**
   * A customer may withdraw an order of their own, giving a reason, while it is placed or confirmed
   * and every store order is pending, accepted or already withdrawn; repeating it is allowed.
   */
  lemma {:induction false} CustomerWithdrawsIff(db: Db, order: nat, customer: nat, reason: string)
    requires Sound(db)
    ensures CancelByCustomer(db, order, customer, reason).Ok? <==>
      && order < |db.orders| && db.orders[order].customer == customer && Says(reason)
      && (db.orders[order].status == OrderStatus.Cancelled
          || (db.orders[order].status in {OrderStatus.Placed, OrderStatus.Confirmed}
              && AllIn(db.storeOrders, order, {StoreOrderStatus.Pending, StoreOrderStatus.Accepted,
                                               StoreOrderStatus.Rejected, StoreOrderStatus.Cancelled})))
  {
    SaysIff(reason);
    CustomerCancelAcceptedIff(db, order, customer, reason);
    if order < |db.orders| {
      OpenToCustomer(db, order);
    }
  }

  lemma {:induction false} OpenToCustomer(db: Db, order: nat)
    requires order < |db.orders|
    ensures CustomerMayCancel(db, order) <==>
      || db.orders[order].status == OrderStatus.Cancelled
      || (db.orders[order].status in {OrderStatus.Placed, OrderStatus.Confirmed}
          && AllIn(db.storeOrders, order, {StoreOrderStatus.Pending, StoreOrderStatus.Accepted,
                                           StoreOrderStatus.Rejected, StoreOrderStatus.Cancelled}))
  {
    forall j | 0 <= j < |db.storeOrders|
      ensures !BlocksCustomer(db.storeOrders[j].status) <==>
        db.storeOrders[j].status in {StoreOrderStatus.Pending, StoreOrderStatus.Accepted,
                                     StoreOrderStatus.Rejected, StoreOrderStatus.Cancelled}
    {
    }
  }

  /** An admin may withdraw any order that is not completed, giving a reason. */
  lemma {:induction false} AdminWithdrawsIff(db: Db, order: nat, hasActor: bool, reason: string)
    requires Sound(db)
    ensures CancelByAdmin(db, order, hasActor, reason).Ok? <==>
      hasActor && order < |db.orders| && Says(reason) && db.orders[order].status != OrderStatus.Completed
  {
    SaysIff(reason);
    AdminCancelAcceptedIff(db, order, hasActor, reason);
  }

  /** A store may reject its own store order while it is pending, giving a reason, and again after that. */
  lemma {:induction false} StoreRejectsIff(db: Db, id: nat, store: I.StoreId, reason: string)
    requires Sound(db)
    ensures Reject(db, id, store, reason).Ok? <==>
      && id < |db.storeOrders| && db.storeOrders[id].store == store && Says(reason)
      && (db.storeOrders[id].status == StoreOrderStatus.Pending || db.storeOrders[id].status == StoreOrderStatus.Rejected)
  {
    SaysIff(reason);
    RejectionAcceptedIff(db, id, store, reason);
  }

  // ----- Payment -----

  /**
   * The payment of an order follows its status: a step other than recording a payment changes it only
   * where the order becomes cancelled, and there a pending payment becomes cancelled.
   */
  predicate PaymentFollows(before: Order, after: Order) {
    after.payment ==
      if after.status == OrderStatus.Cancelled && before.payment == PaymentStatus.Pending
      then PaymentStatus.Cancelled else before.payment
  }

  lemma {:induction false} CancelPays(db: Db, order: nat, statuses: set<StoreOrderStatus>)
    requires order < |db.orders| && OrderAgrees(db.orders[order], db.storeOrders, order)
    requires CancelOrder(db, order, statuses).Ok?
    ensures var next := CancelOrder(db, order, statuses).value;
      |next.orders| == |db.orders| && PaymentFollows(db.orders[order], next.orders[order])
      && forall o :: 0 <= o < |db.orders| && o != order ==> next.orders[o] == db.orders[o]
  {
  }

  lemma {:induction false} RejectPays(db: Db, id: nat, store: I.StoreId, reason: string)
    requires Linked(db) && OrdersAgree(db) && Reject(db, id, store, reason).Ok?
    ensures var next, order := Reject(db, id, store, reason).value, db.storeOrders[id].order;
      |next.orders| == |db.orders| && PaymentFollows(db.orders[order], next.orders[order])
      && forall o :: 0 <= o < |db.orders| && o != order ==> next.orders[o] == db.orders[o]
  {
    var order := db.storeOrders[id].order;
    assert OrderAgrees(db.orders[order], db.storeOrders, order);
  }

  lemma {:induction false} FulfilmentPays(now: Db, next: Db, event: Event)
    requires OrdersAgree(now)
    requires match event
      case Advance(id, store, portalOpen, action) => next == Committed(now, Transition(now, id, store, portalOpen, action))
      case SetOrderStatus(order, status, note) => next == Committed(now, UpdateOrderStatus(now, order, status, note))
      case _ => false
    ensures |next.orders| == |now.orders|
    ensures forall o :: 0 <= o < |now.orders| ==> PaymentFollows(now.orders[o], next.orders[o])
  {
    forall o | 0 <= o < |now.orders| ensures PaymentFollows(now.orders[o], next.orders[o]) {
      assert OrderAgrees(now.orders[o], now.storeOrders, o);
    }
  }

  lemma {:induction false} SamePayments(now: Db, next: Db)
    requires OrdersAgree(now) && next.orders == now.orders
    ensures forall o :: 0 <= o < |now.orders| ==> PaymentFollows(now.orders[o], next.orders[o])
  {
    forall o | 0 <= o < |now.orders| ensures PaymentFollows(now.orders[o], next.orders[o]) {
      assert OrderAgrees(now.orders[o], now.storeOrders, o);
    }
  }

  lemma {:induction false} OthersPay(now: Db, next: Db, order: nat)
    requires OrdersAgree(now) && order < |now.orders| == |next.orders|
    requires PaymentFollows(now.orders[order], next.orders[order])
    requires forall o :: 0 <= o < |now.orders| && o != order ==> next.orders[o] == now.orders[o]
    ensures forall o :: 0 <= o < |now.orders| ==> PaymentFollows(now.orders[o], next.orders[o])
  {
    forall o | 0 <= o < |now.orders| ensures PaymentFollows(now.orders[o], next.orders[o]) {
      assert OrderAgrees(now.orders[o], now.storeOrders, o);
    }
  }

  /** No payment moves, except where `PaymentFollows` lets it. */
  predicate AllFollow(before: seq<Order>, after: seq<Order>) {
    |after| == |before| && forall o :: 0 <= o < |before| ==> PaymentFollows(before[o], after[o])
  }

  lemma {:induction false} CancellationPays(now: Db, order: nat, statuses: set<StoreOrderStatus>)
    requires OrdersAgree(now) && order < |now.orders| && CancelOrder(now, order, statuses).Ok?
    ensures AllFollow(now.orders, CancelOrder(now, order, statuses).value.orders)
  {
    assert OrderAgrees(now.orders[order], now.storeOrders, order);
    CancelPays(now, order, statuses);
    OthersPay(now, CancelOrder(now, order, statuses).value, order);
  }

  lemma {:induction false} RejectionPays(now: Db, id: nat, store: I.StoreId, reason: string)
    requires Linked(now) && OrdersAgree(now) && Reject(now, id, store, reason).Ok?
    ensures AllFollow(now.orders, Reject(now, id, store, reason).value.orders)
  {
    RejectPays(now, id, store, reason);
    OthersPay(now, Reject(now, id, store, reason).value, now.storeOrders[id].order);
  }

  lemma {:induction false} WithdrawalPays(past: seq<Db>, event: Event)
    requires past != [] && Sound(past[|past| - 1])
    requires event.CustomerCancel? || event.AdminCancel? || event.RejectStoreOrder?
    ensures AllFollow(past[|past| - 1].orders, Next(past, event).orders)
  {
    var now := past[|past| - 1];
    if Next(past, event) == now {
      SamePayments(now, now);
    } else {
      match event
      case CustomerCancel(order, _, _) => CancellationPays(now, order, CUSTOMER_CANCELABLE);
      case AdminCancel(order, _, _) => CancellationPays(now, order, ACTIVE);
      case RejectStoreOrder(id, store, reason) => RejectionPays(now, id, store, reason);
    }
  }

  /** In every step of every run, payments move only when they are recorded or their order is cancelled. */
  lemma {:induction false} PaymentsFollowOrders(past: seq<Db>, event: Event)
    requires past != [] && Sound(past[|past| - 1]) && OnOneOrder(event) && !event.SetPayment?
    ensures AllFollow(past[|past| - 1].orders, Next(past, event).orders)
  {
    if event.Advance? || event.SetOrderStatus? {
      FulfilmentPays(past[|past| - 1], Next(past, event), event);
    } else {
      WithdrawalPays(past, event);
    }
  }

  lemma {:induction false} CancellationEndsPayment(db: Db, order: nat, customer: nat, hasActor: bool, reason: string)
    requires Sound(db) && order < |db.orders|
    ensures CancelByCustomer(db, order, customer, reason).Ok? ==>
      var row := CancelByCustomer(db, order, customer, reason).value.orders;
      order < |row| && row[order].status == OrderStatus.Cancelled && row[order].payment == PaymentStatus.Cancelled
    ensures CancelByAdmin(db, order, hasActor, reason).Ok? ==>
      var row := CancelByAdmin(db, order, hasActor, reason).value.orders;
      order < |row| && row[order].status == OrderStatus.Cancelled && row[order].payment == PaymentStatus.Cancelled
  {
    assert OrderAgrees(db.orders[order], db.storeOrders, order);
    if CancelByCustomer(db, order, customer, reason).Ok? {
      CustomerCovers(db, order);
      EndsPayment(db, order, CUSTOMER_CANCELABLE);
    }
    if CancelByAdmin(db, order, hasActor, reason).Ok? {
      AdminCovers(db, order);
      EndsPayment(db, order, ACTIVE);
    }
  }

  lemma {:induction false} EndsPayment(db: Db, order: nat, statuses: set<StoreOrderStatus>)
    requires Sound(db) && order < |db.orders|
    requires Covers(db, order, statuses) && db.orders[order].status != OrderStatus.Completed
    ensures CancelOrder(db, order, statuses).Ok?
    ensures var next := CancelOrder(db, order, statuses).value;
      order < |next.orders| && next.orders[order].status == OrderStatus.Cancelled
      && next.orders[order].payment == PaymentStatus.Cancelled
  {
    CancelOrderSound(db, order, statuses);
    var next := CancelOrder(db, order, statuses).value;
    assert OrderAgrees(next.orders[order], next.storeOrders, order);
  }

  /** Rejecting the last store order of an order cancels its pending payment; any other rejection leaves it. */
  lemma {:induction false} LastRejectionEndsPayment(db: Db, id: nat, store: I.StoreId, reason: string)
    requires Sound(db) && Reject(db, id, store, reason).Ok? && db.storeOrders[id].status == StoreOrderStatus.Pending
    ensures var next, order := Reject(db, id, store, reason).value, db.storeOrders[id].order;
      && order < |next.orders|
      && var last := forall j :: 0 <= j < |db.storeOrders| && j != id && db.storeOrders[j].order == order ==>
           db.storeOrders[j].status in {StoreOrderStatus.Rejected, StoreOrderStatus.Cancelled};
         && (last <==> next.orders[order].status == OrderStatus.Cancelled)
         && (last ==> next.orders[order].payment == PaymentStatus.Cancelled)
         && (!last ==> next.orders[order].payment == db.orders[order].payment)
  {
    var next, order := Reject(db, id, store, reason).value, db.storeOrders[id].order;
    RejectPays(db, id, store, reason);
    RejectSound(db, id, store, reason);
    assert OrderAgrees(next.orders[order], next.storeOrders, order);
    assert AnyCharged(next.storeOrders, order) <==>
      exists j :: 0 <= j < |db.storeOrders| && j != id && Charged(db.storeOrders[j], order) by {
      if AnyCharged(next.storeOrders, order) {
        var j :| 0 <= j < |next.storeOrders| && Charged(next.storeOrders[j], order);
        assert j != id && Charged(db.storeOrders[j], order);
      }
      if j :| 0 <= j < |db.storeOrders| && j != id && Charged(db.storeOrders[j], order) {
        assert Charged(next.storeOrders[j], order);
      }
    }
    forall j | 0 <= j < |db.storeOrders| && db.storeOrders[j].order == order
      ensures Charged(db.storeOrders[j], order) <==>
        db.storeOrders[j].status !in {StoreOrderStatus.Rejected, StoreOrderStatus.Cancelled}
    {
    }
  }

  // ----- Discount -----

  /** `after` is `discount * subtotal / previous`, rounded to the nearest paisa and halves to the even one. */
  predicate Rescaled(discount: nat, subtotal: nat, previous: nat, after: nat) {
    if discount == 0 || previous == 0 then after == 0
    else
      var off := 2 * (previous * after - discount * subtotal);
      0 - previous <= off <= previous && (off == previous || off == 0 - previous ==> after % 2 == 0)
  }

  /** A rejection shrinks the discount in proportion to the subtotal, and to nothing with the last store order. */
  lemma {:induction false} RejectionRescales(db: Db, id: nat, store: I.StoreId, reason: string)
    requires Sound(db) && Reject(db, id, store, reason).Ok?
    ensures var next, order := Reject(db, id, store, reason).value, db.storeOrders[id].order;
      && order < |next.orders|
      && (next.orders[order].status == OrderStatus.Cancelled ==> next.orders[order].discount == 0)
      && (next.orders[order].status != OrderStatus.Cancelled ==>
            Rescaled(db.orders[order].discount, next.orders[order].itemsSubtotal, db.orders[order].itemsSubtotal,
                     next.orders[order].discount))
  {
    var next, order := Reject(db, id, store, reason).value, db.storeOrders[id].order;
    RejectedRow(db, id, store, reason);
    RecalculatedDiscount(Synced(db.orders[order], next.storeOrders, order), next.storeOrders, order);
    RejectedLifecycle(db, id, store, reason);
  }

  lemma {:induction false} RejectedLifecycle(db: Db, id: nat, store: I.StoreId, reason: string)
    requires Sound(db) && Reject(db, id, store, reason).Ok?
    ensures var next, order := Reject(db, id, store, reason).value, db.storeOrders[id].order;
      order < |next.orders| && (next.orders[order].status == OrderStatus.Cancelled <==> !AnyCharged(next.storeOrders, order))
  {
    var next, order := Reject(db, id, store, reason).value, db.storeOrders[id].order;
    RejectSound(db, id, store, reason);
    assert OrderAgrees(next.orders[order], next.storeOrders, order);
  }

  lemma {:induction false} RejectedRow(db: Db, id: nat, store: I.StoreId, reason: string)
    requires Reject(db, id, store, reason).Ok?
    ensures var next, order := Reject(db, id, store, reason).value, db.storeOrders[id].order;
      && order < |next.orders|
      && next.orders[order] == Recalculate(Synced(db.orders[order], next.storeOrders, order), next.storeOrders, order)
  {
  }

  lemma {:induction false} RecalculatedDiscount(row: Order, rows: seq<StoreOrder>, order: nat)
    ensures var after := Recalculate(row, rows, order);
      if AnyCharged(rows, order) then Rescaled(row.discount, after.itemsSubtotal, row.itemsSubtotal, after.discount)
      else after.discount == 0
  {
  }
}
