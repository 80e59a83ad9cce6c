/** A cancelled order stays cancelled, and cancelling it again changes nothing at any later time. */
module OrderFinality {
  import opened Wrappers
  import opened Text
  import opened Orders
  import opened OrderLaws
  import opened CancellationLaws
  import opened CheckoutSound
  import opened OrderRuns
  import opened OrderIdempotence
  import I = Inventory

  predicate AllMarked(db: Db, order: nat) {
    forall k :: 0 <= k < |db.items| && InScope(db.storeOrders, db.items[k], OfOrder(order)) ==> db.items[k].cancelled
  }

  /** The order is cancelled and all its items are marked so, as both cancellation services leave it. */
  predicate Withdrawn(db: Db, order: nat, customer: nat) {
    && order < |db.orders| && db.orders[order].status == OrderStatus.Cancelled && db.orders[order].customer == customer
    && AllMarked(db, order)
  }

  // ----- Events on the order itself -----

  lemma {:induction false} NoneActive(db: Db, order: nat, id: nat)
    requires Sound(db) && order < |db.orders| && db.orders[order].status == OrderStatus.Cancelled
    requires id < |db.storeOrders| && db.storeOrders[id].order == order
    ensures NonChargeable(db.storeOrders[id].status)
  {
    assert OrderAgrees(db.orders[order], db.storeOrders, order);
    assert !Charged(db.storeOrders[id], order);
  }

  lemma {:induction false} SyncKeepsCancelled(db: Db, order: nat, id: nat)
    requires Sound(db) && order < |db.orders| && db.orders[order].status == OrderStatus.Cancelled
    requires id < |db.storeOrders| && db.storeOrders[id].order == order
    ensures WithSync(db, order) == db
  {
    assert OrderAgrees(db.orders[order], db.storeOrders, order);
    SyncedStatus(db.orders[order], db.storeOrders, order, id);
    assert Synced(db.orders[order], db.storeOrders, order) == db.orders[order];
    assert db.orders[order := db.orders[order]] == db.orders;
  }

  lemma {:induction false} RejectionStaysIdle(db: Db, order: nat, id: nat, store: I.StoreId, reason: string)
    requires Sound(db) && order < |db.orders| && db.orders[order].status == OrderStatus.Cancelled
    requires id < |db.storeOrders| && db.storeOrders[id].order == order
    ensures Committed(db, Reject(db, id, store, reason)) == db
  {
    NoneActive(db, order, id);
    if Reject(db, id, store, reason).Ok? {
      RejectAgainOnlySyncs(db, id, store, reason);
      SyncKeepsCancelled(db, order, id);
    }
  }

  lemma {:induction false} StoreEventKeepsCancelled(past: seq<Db>, event: Event, order: nat)
    requires past != [] && Sound(past[|past| - 1]) && (event.RejectStoreOrder? || event.Advance?)
    requires Concerns(past[|past| - 1], event) == order < |past[|past| - 1].orders|
    requires past[|past| - 1].orders[order].status == OrderStatus.Cancelled
    ensures Next(past, event) == past[|past| - 1]
  {
    var now := past[|past| - 1];
    match event
    case RejectStoreOrder(id, store, reason) =>
      if id < |now.storeOrders| {
        RejectionStaysIdle(now, order, id, store, reason);
      }
    case Advance(id, _, _, _) =>
      if id < |now.storeOrders| {
        NoneActive(now, order, id);
      }
  }

  lemma {:induction false} OwnEventKeepsCancelled(past: seq<Db>, event: Event, order: nat, customer: nat)
    requires past != [] && Sound(past[|past| - 1]) && Withdrawn(past[|past| - 1], order, customer)
    requires OnOneOrder(event) && Concerns(past[|past| - 1], event) == order
    ensures var next := Next(past, event);
      order < |next.orders| && next.orders[order].status == OrderStatus.Cancelled
  {
    var now := past[|past| - 1];
    match event
    case RejectStoreOrder(_, _, _) => StoreEventKeepsCancelled(past, event, order);
    case Advance(_, _, _, _) => StoreEventKeepsCancelled(past, event, order);
    case CustomerCancel(_, requester, reason) => CancelStaysIdle(now, order, requester, true, reason);
    case AdminCancel(_, hasActor, reason) => CancelStaysIdle(now, order, customer, hasActor, reason);
    case SetOrderStatus(_, _, _) =>
    case SetPayment(_, _, _) =>
  }

  lemma {:induction false} CancelStaysIdle(db: Db, order: nat, customer: nat, hasActor: bool, reason: string)
    requires Sound(db) && order < |db.orders| && db.orders[order].status == OrderStatus.Cancelled && AllMarked(db, order)
    ensures Committed(db, CancelByCustomer(db, order, customer, reason)) == db
    ensures Committed(db, CancelByAdmin(db, order, hasActor, reason)) == db
  {
    CancelAgainChangesNothing(db, order, CUSTOMER_CANCELABLE);
    CancelAgainChangesNothing(db, order, ACTIVE);
  }

  lemma {:induction false} MarksStay(now: Db, next: Db, c: nat, order: nat)
    requires OnlyOrder(now, next, c) && AllMarked(now, order)
    ensures AllMarked(next, order)
  {
    forall k | 0 <= k < |next.items| && InScope(next.storeOrders, next.items[k], OfOrder(order)) ensures next.items[k].cancelled {
      SameScope(now.storeOrders, next.storeOrders, c, now.items[k], next.items[k], OfOrder(order));
    }
  }

  lemma {:induction false} OrderEventStaysWithdrawn(past: seq<Db>, event: Event, order: nat, customer: nat)
    requires past != [] && Sound(past[|past| - 1]) && Withdrawn(past[|past| - 1], order, customer) && OnOneOrder(event)
    ensures Withdrawn(Next(past, event), order, customer)
  {
    var now, next, c := past[|past| - 1], Next(past, event), Concerns(past[|past| - 1], event);
    OrderEventSound(past, event);
    MarksStay(now, next, c, order);
    if c == order {
      OwnEventKeepsCancelled(past, event, order, customer);
    }
  }

  // ----- Checkout of other orders -----

  lemma {:induction false} NewRowsElsewhere(now: Db, next: Db, rows: seq<StoreOrder>, order: nat)
    requires Linked(now) && AllMarked(now, order) && now.items <= next.items && next.storeOrders == now.storeOrders + rows
    requires forall j :: 0 <= j < |rows| ==> rows[j].order != order
    requires forall k :: |now.items| <= k < |next.items| ==> next.items[k].storeOrder >= |now.storeOrders|
    ensures AllMarked(next, order)
  {
    forall k | 0 <= k < |next.items| && InScope(next.storeOrders, next.items[k], OfOrder(order)) ensures next.items[k].cancelled {
      if k < |now.items| {
        assert next.items[k] == now.items[k];
        assert ItemAgrees(now.storeOrders, now.items[k]);
      }
    }
  }

  lemma {:induction false} PlaceStaysWithdrawn(locked: Db, now: Db, early: bool, req: Checkout, order: nat, customer: nat)
    requires Sound(now) && CartsSound(locked) && Withdrawn(now, order, customer)
    requires ReachesInsert(locked, req) ==> LocksHeld(locked, now, req.customer)
    ensures Withdrawn(PlaceOrder(locked, now, early, req).after, order, customer)
  {
    if ReachesInsert(locked, req) && FindToken(now.orders, req.token).None? {
      var lines := ValidatedLines(locked, req).value;
      LockedLinesReady(locked, now, req);
      CreateOrderGraphSound(now, req, lines);
      var next := CreateOrderGraph(now, req, lines).value;
      var rows := NewStoreOrders(|now.orders|, StoreGroups(lines));
      forall j | 0 <= j < |rows| ensures rows[j].order != order {
      }
      NewRowsElsewhere(now, next, rows, order);
    }
  }

  // ----- Runs -----

  lemma {:induction false} StepStaysWithdrawn(past: seq<Db>, event: Event, order: nat, customer: nat)
    requires past != [] && Permitted(past, event) && Sound(past[|past| - 1])
    requires event.Place? ==> CartsSound(past[event.since])
    requires Withdrawn(past[|past| - 1], order, customer)
    ensures Withdrawn(Next(past, event), order, customer)
  {
    if OnOneOrder(event) {
      OrderEventStaysWithdrawn(past, event, order, customer);
    } else if event.Place? {
      PlaceStaysWithdrawn(past[event.since], past[|past| - 1], event.early, event.req, order, customer);
    }
  }

  lemma {:induction false} RunStaysWithdrawn(states: seq<Db>, events: seq<Event>, i: nat, j: nat, order: nat, customer: nat)
    requires IsRun(states, events) && Sound(states[0]) && CartsSound(states[0])
    requires i <= j <= |events| && Withdrawn(states[i], order, customer)
    ensures Withdrawn(states[j], order, customer)
    decreases j
  {
    if i < j {
      RunStaysWithdrawn(states, events, i, j - 1, order, customer);
      var past, event := states[..j], events[j - 1];
      assert Permitted(past, event) && states[j] == Next(past, event);
      assert past[|past| - 1] == states[j - 1];
      RunConserves(states, events, j - 1);
      if event.Place? {
        RunConserves(states, events, event.since);
      }
      StepStaysWithdrawn(past, event, order, customer);
    }
  }

  /** Both services leave the order withdrawn. */
  lemma {:induction false} CancellationWithdraws(db: Db, order: nat, statuses: set<StoreOrderStatus>)
    requires Sound(db) && order < |db.orders|
    requires Covers(db, order, statuses) && db.orders[order].status != OrderStatus.Completed
    ensures CancelOrder(db, order, statuses).Ok?
    ensures Withdrawn(CancelOrder(db, order, statuses).value, order, db.orders[order].customer)
  {
    CancelOrderSound(db, order, statuses);
    var next := CancelOrder(db, order, statuses).value;
    forall k | 0 <= k < |next.items| && InScope(next.storeOrders, next.items[k], OfOrder(order)) ensures next.items[k].cancelled {
      SameScope(db.storeOrders, next.storeOrders, order, db.items[k], next.items[k], OfOrder(order));
    }
  }

  /** Repeating either cancellation is accepted and changes nothing. */
  predicate CancellationIdle(db: Db, order: nat, customer: nat, again: string) {
    CancelByCustomer(db, order, customer, again) == Ok(db) && CancelByAdmin(db, order, true, again) == Ok(db)
  }

  lemma {:induction false} WithdrawnIsIdle(db: Db, order: nat, customer: nat, again: string)
    requires Sound(db) && Withdrawn(db, order, customer) && Strip(again) != ""
    ensures CancellationIdle(db, order, customer, again)
  {
    CancelAgainChangesNothing(db, order, CUSTOMER_CANCELABLE);
    CancelAgainChangesNothing(db, order, ACTIVE);
  }

  /**
   * After a customer has cancelled an order, every further cancellation of it, by customer or by
   * admin and at any later time of any run, is accepted and changes no table.
   */
  lemma {:induction false} CustomerCancellationIdempotent(
      states: seq<Db>, events: seq<Event>, i: nat, j: nat, order: nat, customer: nat, reason: string, again: string)
    requires IsRun(states, events) && Sound(states[0]) && CartsSound(states[0])
    requires i < j <= |events| && events[i] == CustomerCancel(order, customer, reason)
    requires CancelByCustomer(states[i], order, customer, reason).Ok? && Strip(again) != ""
    ensures CancellationIdle(states[j], order, customer, again)
  {
    var db := states[i];
    RunConserves(states, events, i);
    assert OrderAgrees(db.orders[order], db.storeOrders, order);
    CustomerCovers(db, order);
    CancellationWithdraws(db, order, CUSTOMER_CANCELABLE);
    assert states[i + 1] == Next(states[..i + 1], events[i]);
    RunStaysWithdrawn(states, events, i + 1, j, order, customer);
    RunConserves(states, events, j);
    WithdrawnIsIdle(states[j], order, customer, again);
  }

  /** The same after an admin cancellation. */
  lemma {:induction false} AdminCancellationIdempotent(
      states: seq<Db>, events: seq<Event>, i: nat, j: nat, order: nat, reason: string, again: string)
    requires IsRun(states, events) && Sound(states[0]) && CartsSound(states[0])
    requires i < j <= |events| && events[i] == AdminCancel(order, true, reason)
    requires CancelByAdmin(states[i], order, true, reason).Ok? && Strip(again) != ""
    ensures CancellationIdle(states[j], order, states[i].orders[order].customer, again)
  {
    var db := states[i];
    RunConserves(states, events, i);
    assert OrderAgrees(db.orders[order], db.storeOrders, order);
    AdminCovers(db, order);
    CancellationWithdraws(db, order, ACTIVE);
    assert states[i + 1] == Next(states[..i + 1], events[i]);
    RunStaysWithdrawn(states, events, i + 1, j, order, db.orders[order].customer);
    RunConserves(states, events, j);
    WithdrawnIsIdle(states[j], order, db.orders[order].customer, again);
  }
}
