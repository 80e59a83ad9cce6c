/** The status tables on literal statuses: what the parent order shows, who moves what, and reversing a delivery. */
module StatusRules {
  import opened Orders
  import opened OrderLaws
  import opened OrderRules
  import I = Inventory

  const WITHDRAWN := {StoreOrderStatus.Rejected, StoreOrderStatus.Cancelled}

  const UNTOUCHED := {StoreOrderStatus.Pending}

  const STARTED := {StoreOrderStatus.Pending, StoreOrderStatus.Accepted}

  const DELIVERED := {StoreOrderStatus.Rejected, StoreOrderStatus.Cancelled, StoreOrderStatus.Completed}

  // ----- The derived status -----

  lemma {:induction false} AllInIff(rows: seq<StoreOrder>, order: nat, statuses: set<StoreOrderStatus>)
    ensures AllIn(rows, order, statuses) <==> forall s :: s in StatusesOf(rows, order) ==> s in statuses
  {
    forall s ensures s in StatusesOf(rows, order) <==> exists i :: 0 <= i < |rows| && rows[i].order == order && rows[i].status == s {
      StatusesMembers(rows, order, s);
    }
    if !AllIn(rows, order, statuses) {
      var j :| 0 <= j < |rows| && rows[j].order == order && rows[j].status !in statuses;
      assert rows[j].status in StatusesOf(rows, order);
    }
  }

  /**
   * The status an order gets from its store orders, the nine documented rules in six: withdrawn
   * altogether, delivered as far as it was not withdrawn, withdrawn in part, untouched, accepted at
   * most, and otherwise in progress. The rules for the ready and the processing tier decide nothing.
   */
  lemma {:induction false} ParentStatus(row: Order, rows: seq<StoreOrder>, order: nat, j: nat)
    requires j < |rows| && rows[j].order == order
    ensures Synced(row, rows, order).status ==
      if AllIn(rows, order, WITHDRAWN) then OrderStatus.Cancelled
      else if AllIn(rows, order, DELIVERED) then OrderStatus.Completed
      else if exists i :: 0 <= i < |rows| && rows[i].order == order && rows[i].status in WITHDRAWN then OrderStatus.PartiallyCancelled
      else if AllIn(rows, order, UNTOUCHED) then OrderStatus.Placed
      else if AllIn(rows, order, STARTED) then OrderStatus.Confirmed
      else OrderStatus.InProgress
  {
    var statuses := StatusesOf(rows, order);
    StatusesMembers(rows, order, rows[j].status);
    AllInIff(rows, order, WITHDRAWN);
    AllInIff(rows, order, DELIVERED);
    AllInIff(rows, order, UNTOUCHED);
    AllInIff(rows, order, STARTED);
    forall s ensures s in statuses <==> exists i :: 0 <= i < |rows| && rows[i].order == order && rows[i].status == s {
      StatusesMembers(rows, order, s);
    }
    SixRules(statuses, rows[j].status);
  }

  lemma {:induction false} SixRules(statuses: seq<StoreOrderStatus>, known: StoreOrderStatus)
    requires known in statuses
    ensures CalculateOrderStatus(statuses) ==
      if forall s :: s in statuses ==> s in WITHDRAWN then OrderStatus.Cancelled
      else if forall s :: s in statuses ==> s in DELIVERED then OrderStatus.Completed
      else if exists s :: s in statuses && s in WITHDRAWN then OrderStatus.PartiallyCancelled
      else if forall s :: s in statuses ==> s in UNTOUCHED then OrderStatus.Placed
      else if forall s :: s in statuses ==> s in STARTED then OrderStatus.Confirmed
      else OrderStatus.InProgress
  {
  }

  // ----- The store's own moves -----

  /** The three moves of a store order, in order. */
  predicate Follows(action: Action, from: StoreOrderStatus, to: StoreOrderStatus) {
    (action, from, to) in {
      (Accept, StoreOrderStatus.Pending, StoreOrderStatus.Accepted),
      (Process, StoreOrderStatus.Accepted, StoreOrderStatus.Preparing),
      (MakeReady, StoreOrderStatus.Preparing, StoreOrderStatus.Ready)}
  }

  /** A store moves its own store order one place along the chain and touches nothing but statuses. */
  lemma {:induction false} StoreAdvances(db: Db, id: nat, store: I.StoreId, portalOpen: bool, action: Action)
    requires Linked(db)
    ensures Transition(db, id, store, portalOpen, action).Ok? <==>
      && portalOpen && id < |db.storeOrders| && db.storeOrders[id].store == store
      && (exists to :: Follows(action, db.storeOrders[id].status, to))
    ensures Transition(db, id, store, portalOpen, action).Ok? ==>
      var next := Transition(db, id, store, portalOpen, action).value;
      && next == db.(storeOrders := next.storeOrders, orders := next.orders) && |next.storeOrders| == |db.storeOrders|
      && Follows(action, db.storeOrders[id].status, next.storeOrders[id].status)
      && next.storeOrders == db.storeOrders[id := db.storeOrders[id].(status := next.storeOrders[id].status)]
  {
    if Transition(db, id, store, portalOpen, action).Ok? {
      assert Follows(action, db.storeOrders[id].status, TargetOf(action));
    }
  }

  // ----- Management's moves -----

  predicate Forward(from: OrderStatus, to: OrderStatus) {
    (from, to) in {
      (OrderStatus.Placed, OrderStatus.Confirmed), (OrderStatus.Placed, OrderStatus.InProgress),
      (OrderStatus.Confirmed, OrderStatus.InProgress), (OrderStatus.Confirmed, OrderStatus.Completed),
      (OrderStatus.InProgress, OrderStatus.Completed),
      (OrderStatus.PartiallyCancelled, OrderStatus.InProgress), (OrderStatus.PartiallyCancelled, OrderStatus.Completed)}
  }

  /** The store orders that can be delivered with their order, and those withdrawn from it before. */
  const DELIVERABLE := {
    StoreOrderStatus.Ready, StoreOrderStatus.OutForDelivery, StoreOrderStatus.ReadyForPickup,
    StoreOrderStatus.Completed, StoreOrderStatus.Rejected, StoreOrderStatus.Cancelled}

  predicate MayMove(db: Db, order: nat, target: OrderStatus, note: string)
    requires order < |db.orders|
  {
    var row := db.orders[order];
    && target != OrderStatus.Cancelled
    && (|| target == row.status
        || (row.status == OrderStatus.Completed && target == OrderStatus.InProgress
            && Says(note) && row.payment != PaymentStatus.Collected)
        || (Forward(row.status, target) && (target == OrderStatus.Completed ==> AllIn(db.storeOrders, order, DELIVERABLE))))
  }

  /** Management moves an order forward once it can be delivered, or takes an unpaid delivery back with a note. */
  lemma {:induction false} ManagementMovesIff(db: Db, order: nat, target: OrderStatus, note: string)
    ensures UpdateOrderStatus(db, order, target, note).Ok? <==> order < |db.orders| && MayMove(db, order, target, note)
    ensures UpdateOrderStatus(db, order, target, note).Ok? ==>
      var next := UpdateOrderStatus(db, order, target, note).value;
      && next == db.(storeOrders := next.storeOrders, orders := db.orders[order := db.orders[order].(status := target)])
      && (target == db.orders[order].status || (Forward(db.orders[order].status, target) && target != OrderStatus.Completed)
          ==> next.storeOrders == db.storeOrders)
  {
    SaysIff(note);
    if order < |db.orders| {
      DeliverableIff(db.storeOrders, order);
      assert db.orders[order := db.orders[order].(status := db.orders[order].status)] == db.orders;
    }
  }

  lemma {:induction false} DeliverableIff(rows: seq<StoreOrder>, order: nat)
    ensures AllIn(rows, order, DELIVERABLE) <==> forall i :: 0 <= i < |rows| && Charged(rows[i], order) ==> Completable(rows[i].status)
  {
    forall i | 0 <= i < |rows| && rows[i].order == order
      ensures rows[i].status in DELIVERABLE <==> (Charged(rows[i], order) ==> Completable(rows[i].status))
    {
    }
  }

  /**
   * Delivering an order completes every store order that was not withdrawn and no other, and taking
   * the delivery back gives each of them the status it had before.
   */
  lemma {:induction false} ReversalUndoesDelivery(db: Db, order: nat, note: string, correction: string)
    requires OrdersAgree(db) && order < |db.orders| && db.orders[order].status != OrderStatus.Completed
    requires UpdateOrderStatus(db, order, OrderStatus.Completed, note).Ok? && Says(correction)
    ensures var delivered := UpdateOrderStatus(db, order, OrderStatus.Completed, note).value;
      var reversed := UpdateOrderStatus(delivered, order, OrderStatus.InProgress, correction);
      && |delivered.storeOrders| == |db.storeOrders|
      && (forall j :: 0 <= j < |db.storeOrders| ==>
            delivered.storeOrders[j].status ==
            if db.storeOrders[j].order == order && db.storeOrders[j].status !in WITHDRAWN
            then StoreOrderStatus.Completed else db.storeOrders[j].status)
      && reversed.Ok? && |reversed.value.storeOrders| == |db.storeOrders|
      && (forall j :: 0 <= j < |db.storeOrders| ==>
            reversed.value.storeOrders[j] == db.storeOrders[j].(completedFrom := reversed.value.storeOrders[j].completedFrom))
      && reversed.value == db.(storeOrders := reversed.value.storeOrders,
                               orders := db.orders[order := db.orders[order].(status := OrderStatus.InProgress)])
  {
    assert OrderAgrees(db.orders[order], db.storeOrders, order);
    SaysIff(correction);
    var delivered := UpdateOrderStatus(db, order, OrderStatus.Completed, note).value;
    var rows, back := delivered.storeOrders, ReopenStoreOrders(delivered.storeOrders, order);
    assert db.orders[order].payment != PaymentStatus.Collected;
    forall j | 0 <= j < |db.storeOrders| ensures back[j] == db.storeOrders[j].(completedFrom := back[j].completedFrom) {
      assert Charged(db.storeOrders[j], order) ==> Completable(db.storeOrders[j].status);
    }
  }

  /** Cash is recorded for a delivered order only; it can be called off, or taken back with a note. */
  lemma {:induction false} PaymentMovesIff(db: Db, order: nat, target: PaymentStatus, note: string)
    ensures UpdatePayment(db, order, target, note).Ok? <==>
      && order < |db.orders|
      && var from, status := db.orders[order].payment, db.orders[order].status;
         || target == from
         || (from == PaymentStatus.Pending && target == PaymentStatus.Collected && status == OrderStatus.Completed)
         || (from == PaymentStatus.Pending && target == PaymentStatus.Cancelled)
         || (from == PaymentStatus.Collected && target == PaymentStatus.Pending && Says(note))
    ensures UpdatePayment(db, order, target, note).Ok? ==>
      UpdatePayment(db, order, target, note).value == db.(orders := db.orders[order := db.orders[order].(payment := target)])
  {
    SaysIff(note);
    if order < |db.orders| {
      assert db.orders[order := db.orders[order].(payment := db.orders[order].payment)] == db.orders;
    }
  }
}
