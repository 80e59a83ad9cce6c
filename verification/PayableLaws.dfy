/** How far a discount drifts when it is rescaled withdrawal after withdrawal. */
module PayableLaws {
  import opened Wrappers
  import opened Sums
  import opened Rounding
  import opened Orders
  import opened OrderLaws
  import opened CancellationLaws
  import opened RejectionLaws
  import opened CheckoutSound
  import opened OrderRuns
  import opened CheckoutTheorems

  // ----- The arithmetic -----

  /** One rescaling: the error shrinks with the subtotal and gains at most half a paisa. */
  lemma {:induction false} OneStepDrift(first: nat, original: nat, d: nat, last: nat, next: nat, k: nat)
    requires first > 0 && next <= last && d <= last
    requires -(k * first) <= 2 * (first * d - original * last) <= k * first
    ensures var d' := Rescale(d, next, last);
      -((k + 1) * first) <= 2 * (first * d' - original * next) <= (k + 1) * first
  {
    var d' := Rescale(d, next, last);
    if last == 0 {
      assert d == 0 && next == 0 && d' == 0;
      assert original * next == 0;
    } else {
      RescaleNearest(d, next, last);
      DriftStep(first, original * last, d, last, next, d', k, original);
    }
  }

  lemma {:induction false} RescaleNearest(d: nat, next: nat, last: nat)
    requires last > 0
    ensures 0 - last <= 2 * (last * Rescale(d, next, last) - d * next) <= last
  {
  }

  /** The arithmetic of one step, scaled by `last`. */
  lemma {:induction false} DriftStep(first: int, scaled: int, d: int, last: int, next: int, d': int, k: int, original: int)
    requires first > 0 && last > 0 && 0 <= next <= last && k >= 0
    requires scaled == original * last
    requires -(k * first) <= 2 * (first * d - scaled) <= k * first
    requires -last <= 2 * (last * d' - d * next) <= last
    ensures -((k + 1) * first) <= 2 * (first * d' - original * next) <= (k + 1) * first
  {
    var e := 2 * (first * d - scaled);
    var r := 2 * (last * d' - d * next);
    var target := 2 * (first * d' - original * next);
    // last * target == first * r + next * e
    Expand(first, d, last, next, d', original);
    assert last * target == first * r + next * e;
    MulLe(first, r, last);
    MulLe(first, -last, r);
    MulLe(next, e, k * first);
    MulLe(next, -(k * first), e);
    MulLe(k * first, next, last);
    assert last * ((k + 1) * first) == first * last + last * (k * first);
    Divide(last, target, (k + 1) * first);
    Divide(last, -target, (k + 1) * first);
  }

  lemma {:induction false} Expand(first: int, d: int, last: int, next: int, d': int, original: int)
    ensures last * (2 * (first * d' - original * next))
      == first * (2 * (last * d' - d * next)) + next * (2 * (first * d - original * last))
  {
  }

  lemma {:induction false} MulLe(a: int, x: int, y: int)
    requires a >= 0 && x <= y
    ensures a * x <= a * y
  {
    NonNegativeProduct(a, y - x);
    assert a * (y - x) == a * y - a * x;
  }

  lemma {:induction false} Divide(a: int, x: int, y: int)
    requires a > 0 && a * x <= a * y
    ensures x <= y
  {
    if x > y {
      ProductGap(x, y, a);
    }
  }

  // ----- Sequences of order rows -----

  /** The subtotal does not grow and the discount is rescaled to it. */
  predicate PayableStep(a: Order, b: Order) {
    b.itemsSubtotal <= a.itemsSubtotal && b.discount == Rescale(a.discount, b.itemsSubtotal, a.itemsSubtotal)
  }

  predicate PayableSteps(rows: seq<Order>) {
    forall i :: 1 <= i < |rows| ==> PayableStep(rows[i - 1], rows[i])
  }

  /** How many steps really lowered the subtotal. */
  function Shrinks(rows: seq<Order>): nat {
    if |rows| < 2 then 0
    else
      var n := |rows| - 1;
      Shrinks(rows[..n]) + if rows[n].itemsSubtotal < rows[n - 1].itemsSubtotal then 1 else 0
  }

  predicate Near(first: Order, last: Order, k: nat) {
    0 - k * first.itemsSubtotal
      <= 2 * (first.itemsSubtotal * last.discount - first.discount * last.itemsSubtotal)
      <= k * first.itemsSubtotal
  }

  /**
   * After k shrinking steps the discount is within k/2 paise of `discount * remaining / original`,
   * its exact share of the original discount, and never above the remaining subtotal.
   */
  lemma {:induction false} DiscountDrift(rows: seq<Order>)
    requires rows != [] && PayableSteps(rows)
    requires rows[0].itemsSubtotal > 0 && rows[0].discount <= rows[0].itemsSubtotal
    ensures Near(rows[0], rows[|rows| - 1], Shrinks(rows))
    ensures rows[|rows| - 1].discount <= rows[|rows| - 1].itemsSubtotal
  {
    var n := |rows| - 1;
    if n == 0 {
      assert rows[0].itemsSubtotal * rows[0].discount == rows[0].discount * rows[0].itemsSubtotal;
    } else {
      DiscountDrift(rows[..n]);
      var first, last, next := rows[0], rows[n - 1], rows[n];
      assert rows[..n][n - 1] == last && PayableStep(last, next);
      RescaleBounded(last.discount, next.itemsSubtotal, last.itemsSubtotal);
      if next.itemsSubtotal == last.itemsSubtotal {
        RescaleUnchanged(last.discount, last.itemsSubtotal);
      } else {
        OneStepDrift(first.itemsSubtotal, first.discount, last.discount, last.itemsSubtotal, next.itemsSubtotal, Shrinks(rows[..n]));
      }
    }
  }

  // ----- Runs -----

  lemma {:induction false} RecalculateRescales(row: Order, storeOrders: seq<StoreOrder>, order: nat)
    ensures var after := Recalculate(row, storeOrders, order);
      after.discount == Rescale(row.discount, after.itemsSubtotal, row.itemsSubtotal)
  {
    if !AnyCharged(storeOrders, order) {
      NothingChargedIsZero(storeOrders, order);
      if row.discount != 0 && row.itemsSubtotal != 0 {
        RoundingExact(0, row.itemsSubtotal);
      }
    }
  }

  lemma {:induction false} SameRowIsPayableStep(a: Order, b: Order)
    requires a.discount <= a.itemsSubtotal && b.discount == a.discount && b.itemsSubtotal == a.itemsSubtotal
    ensures PayableStep(a, b)
  {
    RescaleUnchanged(a.discount, a.itemsSubtotal);
  }

  lemma {:induction false} CancelIsPayableStep(db: Db, order: nat, statuses: set<StoreOrderStatus>)
    requires Sound(db) && order < |db.orders|
    requires Covers(db, order, statuses) && db.orders[order].status != OrderStatus.Completed
    ensures CancelOrder(db, order, statuses).Ok? && |CancelOrder(db, order, statuses).value.orders| == |db.orders|
    ensures PayableStep(db.orders[order], CancelOrder(db, order, statuses).value.orders[order])
  {
    assert OrderAgrees(db.orders[order], db.storeOrders, order);
    CancelRowsFacts(db, order, statuses);
    CancelledRowsFacts(db, order, statuses);
    CancelOrderSound(db, order, statuses);
    var m := CancelledRows(db, order, statuses).value;
    RecalculateRescales(m.orders[order], m.storeOrders, order);
  }

  lemma {:induction false} RejectIsPayableStep(db: Db, id: nat)
    requires Sound(db) && Rejectable(db, id)
    ensures RejectedRows(db, id).Ok?
    ensures var order, m := db.storeOrders[id].order, RejectedRows(db, id).value;
      order < |db.orders| == |m.orders|
      && PayableStep(db.orders[order], WithTotals(WithSync(m, order), order).orders[order])
  {
    var order := db.storeOrders[id].order;
    assert OrderAgrees(db.orders[order], db.storeOrders, order);
    RejectRowFacts(db, id);
    RejectedRowsFacts(db, id);
    var m := RejectedRows(db, id).value;
    var synced := WithSync(m, order);
    RecalculateRescales(synced.orders[order], synced.storeOrders, order);
    RejectedRowCharged(db.storeOrders, id, order);
  }

  /** A rejected row is no longer charged, so the order's charged sum can only shrink. */
  lemma {:induction false} RejectedRowCharged(rows: seq<StoreOrder>, id: nat, order: nat)
    requires id < |rows|
    ensures var after := rows[id := rows[id].(status := StoreOrderStatus.Rejected)];
      Sum(after, ItemsCharged(order)) <= Sum(rows, ItemsCharged(order))
  {
    SumUpdate(rows, id, rows[id].(status := StoreOrderStatus.Rejected), ItemsCharged(order));
  }

  lemma {:induction false} StepIsPayable(past: seq<Db>, event: Event, o: nat)
    requires past != [] && Sound(past[|past| - 1]) && o < |past[|past| - 1].orders|
    ensures o < |Next(past, event).orders|
    ensures PayableStep(past[|past| - 1].orders[o], Next(past, event).orders[o])
  {
    var now, next := past[|past| - 1], Next(past, event);
    var row := now.orders[o];
    assert OrderAgrees(row, now.storeOrders, o);
    StepPersists(past, event);
    if OnOneOrder(event) && o == Concerns(now, event) {
      OwnStepIsPayable(past, event, o);
    } else if OnOneOrder(event) {
      OrderEventSound(past, event);
      SameRowIsPayableStep(row, next.orders[o]);
    } else {
      if event.Place? && event.since < |past| {
        PlaceKeepsOrders(past[event.since], now, event.early, event.req, o);
      }
      SameRowIsPayableStep(row, next.orders[o]);
    }
  }

  lemma {:induction false} PlaceKeepsOrders(locked: Db, now: Db, early: bool, req: Checkout, o: nat)
    requires o < |now.orders|
    ensures o < |PlaceOrder(locked, now, early, req).after.orders|
    ensures PlaceOrder(locked, now, early, req).after.orders[o] == now.orders[o]
  {
    if ReachesInsert(locked, req) {
      var lines := ValidatedLines(locked, req).value;
      if CreateOrderGraph(now, req, lines).Ok? {
        var placed := now.(orders := now.orders + [NewOrder(req, lines)]);
        AddStoreOrdersShape(placed, |now.orders|, StoreGroups(lines));
      }
    }
  }

  lemma {:induction false} WithdrawalIsPayable(now: Db, event: Event, o: nat, next: Db)
    requires Sound(now) && o < |now.orders| && o == Concerns(now, event)
    requires match event
      case CustomerCancel(_, customer, reason) => CancelByCustomer(now, o, customer, reason) == Ok(next)
      case AdminCancel(_, hasActor, reason) => CancelByAdmin(now, o, hasActor, reason) == Ok(next)
      case RejectStoreOrder(id, store, reason) => Reject(now, id, store, reason) == Ok(next)
      case _ => false
    ensures o < |next.orders| && PayableStep(now.orders[o], next.orders[o])
  {
    assert OrderAgrees(now.orders[o], now.storeOrders, o);
    match event
    case CustomerCancel(_, _, _) =>
      CustomerCovers(now, o);
      CancelIsPayableStep(now, o, CUSTOMER_CANCELABLE);
    case AdminCancel(_, _, _) =>
      AdminCovers(now, o);
      CancelIsPayableStep(now, o, ACTIVE);
    case RejectStoreOrder(id, _, _) =>
      RejectIsPayableStep(now, id);
  }

  lemma {:induction false} OwnStepIsPayable(past: seq<Db>, event: Event, o: nat)
    requires past != [] && Sound(past[|past| - 1]) && o < |past[|past| - 1].orders|
    requires OnOneOrder(event) && o == Concerns(past[|past| - 1], event)
    ensures o < |Next(past, event).orders|
    ensures PayableStep(past[|past| - 1].orders[o], Next(past, event).orders[o])
  {
    var now, next := past[|past| - 1], Next(past, event);
    assert OrderAgrees(now.orders[o], now.storeOrders, o);
    if next != now && (event.CustomerCancel? || event.AdminCancel? || event.RejectStoreOrder?) {
      WithdrawalIsPayable(now, event, o, next);
    } else {
      SameRowIsPayableStep(now.orders[o], next.orders[o]);
    }
  }

  function RowsOf(states: seq<Db>, i: nat, n: nat, o: nat): seq<Order>
    requires i <= n < |states| && forall k :: i <= k <= n ==> o < |states[k].orders|
  {
    seq(n - i + 1, k requires 0 <= k < n - i + 1 => states[i + k].orders[o])
  }

  /**
   * Over any run, an order's discount stays within half a paisa per real reduction of its exact
   * share, and within its subtotal.
   */
  lemma {:induction false} RunDiscountDrift(states: seq<Db>, events: seq<Event>, i: nat, n: nat, o: nat)
    requires IsRun(states, events) && Sound(states[0]) && CartsSound(states[0]) && i <= n <= |events|
    requires o < |states[i].orders| && states[i].orders[o].itemsSubtotal > 0
    ensures forall k :: i <= k <= n ==> o < |states[k].orders|
    ensures var rows := RowsOf(states, i, n, o);
      Near(states[i].orders[o], states[n].orders[o], Shrinks(rows))
      && states[n].orders[o].discount <= states[n].orders[o].itemsSubtotal
  {
    forall k | i <= k <= n ensures o < |states[k].orders| {
      RunPersists(states, events, i, k);
    }
    var rows := RowsOf(states, i, n, o);
    forall k | 1 <= k < |rows| ensures PayableStep(rows[k - 1], rows[k]) {
      RunStepIsPayable(states, events, i + k - 1, o);
    }
    RunConserves(states, events, i);
    assert OrderAgrees(states[i].orders[o], states[i].storeOrders, o);
    DiscountDrift(rows);
  }

  lemma {:induction false} RunStepIsPayable(states: seq<Db>, events: seq<Event>, i: nat, o: nat)
    requires IsRun(states, events) && Sound(states[0]) && CartsSound(states[0]) && i < |events|
    requires o < |states[i].orders|
    ensures o < |states[i + 1].orders| && PayableStep(states[i].orders[o], states[i + 1].orders[o])
  {
    RunConserves(states, events, i);
    var past := states[..i + 1];
    assert past[|past| - 1] == states[i];
    assert states[i + 1] == Next(past, events[i]);
    StepIsPayable(past, events[i], o);
  }
}
