/** Cancellation and rejection: stock comes back once, totals follow, nothing else moves. */
module CancellationLaws {
  import opened Wrappers
  import opened Sums
  import opened Orders
  import opened OrderStock
  import opened OrderLaws

  /** Items keep their identity and amounts; their three flags may only be raised. */
  predicate FlagsRaised(before: seq<Item>, after: seq<Item>) {
    && |before| == |after|
    && (forall k :: 0 <= k < |before| ==>
          && after[k] == before[k].(restored := after[k].restored, cancelled := after[k].cancelled, rejected := after[k].rejected)
          && (before[k].restored ==> after[k].restored)
          && (before[k].cancelled ==> after[k].cancelled)
          && (before[k].rejected ==> after[k].rejected))
  }

  predicate SameRestored(before: seq<Item>, after: seq<Item>) {
    |before| == |after| && forall k :: 0 <= k < |before| ==> before[k].restored == after[k].restored
  }

  /** What a withdrawal from `order` may touch: its own rows, and stock only within the claims. */
  ghost predicate OnlyOrder(db: Db, next: Db, order: nat) {
    && next.catalogue == db.catalogue && next.carts == db.carts
    && |next.orders| == |db.orders|
    && (forall o :: 0 <= o < |db.orders| ==>
          next.orders[o].token == db.orders[o].token && next.orders[o].customer == db.orders[o].customer)
    && (forall o :: 0 <= o < |db.orders| && o != order ==> next.orders[o] == db.orders[o])
    && StatusChange(db.storeOrders, next.storeOrders, order)
    && FlagsRaised(db.items, next.items)
    && (forall k :: 0 <= k < |db.items| && !InScope(db.storeOrders, db.items[k], OfOrder(order))
          ==> next.items[k] == db.items[k])
    && db.stock.ledger <= next.stock.ledger
    && SameClaims(db, next) && SameStores(db, next)
  }

  lemma {:induction false} StockSoundKept(db: Db, next: Db, order: nat)
    requires StockSound(db) && next.stock == db.stock
    requires FlagsRaised(db.items, next.items) && SameRestored(db.items, next.items)
    requires StatusChange(db.storeOrders, next.storeOrders, order)
    ensures StockSound(next) && SameClaims(db, next)
  {
    forall k: nat ensures Recorded(next.stock.ledger, next.items, k) {
      assert Recorded(db.stock.ledger, db.items, k);
    }
    forall k | 0 <= k < |next.items| ensures ItemPlaced(next.stock.products, next.storeOrders, next.items[k]) {
      assert ItemPlaced(db.stock.products, db.storeOrders, db.items[k]);
    }
    forall p | 0 <= p < |db.stock.products| ensures Claim(db, p) == Claim(next, p) {
      SumCongruent(db.items, next.items, HeldOf(p), HeldOf(p));
    }
  }

  lemma {:induction false} MoneyKept(db: Db, next: Db, order: nat)
    requires StoreOrderMoney(db)
    requires FlagsRaised(db.items, next.items) && StatusChange(db.storeOrders, next.storeOrders, order)
    ensures StoreOrderMoney(next)
  {
    forall j | 0 <= j < |next.storeOrders|
      ensures next.storeOrders[j].itemsSubtotal == Sum(next.items, LinesIn(j))
    {
      SumCongruent(db.items, next.items, LinesIn(j), LinesIn(j));
    }
  }

  lemma {:induction false} SameScope(before: seq<StoreOrder>, after: seq<StoreOrder>, order: nat, a: Item, b: Item, scope: Scope)
    requires StatusChange(before, after, order) && a.storeOrder == b.storeOrder
    ensures InScope(before, a, scope) <==> InScope(after, b, scope)
  {
  }

  lemma {:induction false} ScopeKept(a: Db, b: Db, order: nat, scope: Scope)
    requires StatusChange(a.storeOrders, b.storeOrders, order) && FlagsRaised(a.items, b.items)
    ensures forall k :: 0 <= k < |a.items| ==>
      (InScope(a.storeOrders, a.items[k], scope) <==> InScope(b.storeOrders, b.items[k], scope))
  {
  }

  lemma {:induction false} OnlyOrderTransitive(a: Db, b: Db, c: Db, order: nat)
    requires OnlyOrder(a, b, order) && OnlyOrder(b, c, order)
    ensures OnlyOrder(a, c, order)
  {
    ScopeKept(a, b, order, OfOrder(order));
    forall p | 0 <= p < |a.stock.products| ensures Claim(a, p) == Claim(c, p) {
      assert Claim(a, p) == Claim(b, p);
    }
  }

  predicate Within(storeOrders: seq<StoreOrder>, scope: Scope, order: nat) {
    match scope
    case OfOrder(o) => o == order
    case OfStoreOrder(id) => id < |storeOrders| && storeOrders[id].order == order
  }

  /** Restoring items of an order touches that order only, and exactly the items in the scope. */
  lemma {:induction false} RestoreOnlyOrder(c: Db, scope: Scope, order: nat)
    requires StockSound(c) && Within(c.storeOrders, scope, order)
    ensures RestoreFrom(c, 0, scope).Ok?
    ensures var r := RestoreFrom(c, 0, scope).value;
      && StockSound(r) && OnlyOrder(c, r, order)
      && r == c.(items := r.items, stock := r.stock)
      && (forall k :: 0 <= k < |c.items| ==> r.items[k] == WithRestored(c.storeOrders, c.items[k], scope))
  {
    RestoreFromSound(c, 0, scope);
  }

  // ----- Cancelling an order -----

  /** Every store order that still counts is one this cancellation moves. */
  predicate Covers(db: Db, order: nat, statuses: set<StoreOrderStatus>) {
    forall j :: 0 <= j < |db.storeOrders| && Charged(db.storeOrders[j], order) ==> db.storeOrders[j].status in statuses
  }

  lemma {:induction false} CustomerCovers(db: Db, order: nat)
    requires order < |db.orders| && OrderAgrees(db.orders[order], db.storeOrders, order)
    requires CustomerMayCancel(db, order)
    ensures Covers(db, order, CUSTOMER_CANCELABLE)
    ensures db.orders[order].status != OrderStatus.Completed
  {
    if db.orders[order].status == OrderStatus.Cancelled {
      forall j | 0 <= j < |db.storeOrders| ensures !Charged(db.storeOrders[j], order) {
      }
    }
  }

  lemma {:induction false} AdminCovers(db: Db, order: nat)
    requires order < |db.orders| && OrderAgrees(db.orders[order], db.storeOrders, order)
    requires AdminMayCancel(db.orders[order])
    ensures Covers(db, order, ACTIVE)
    ensures db.orders[order].status != OrderStatus.Completed
  {
  }

  lemma {:induction false} CancelRowsFacts(db: Db, order: nat, statuses: set<StoreOrderStatus>)
    requires order < |db.orders| && OrderAgrees(db.orders[order], db.storeOrders, order)
    requires Covers(db, order, statuses) && db.orders[order].status != OrderStatus.Completed
    ensures var c := CancelRows(db, order, statuses);
      && c == db.(orders := c.orders, storeOrders := c.storeOrders, items := c.items)
      && |c.orders| == |db.orders|
      && c.orders == db.orders[order := db.orders[order].(status := OrderStatus.Cancelled, payment := c.orders[order].payment)]
      && c.orders[order].payment == PaymentStatus.Cancelled
      && StatusChange(db.storeOrders, c.storeOrders, order)
      && !AnyCharged(c.storeOrders, order)
      && FlagsRaised(db.items, c.items) && SameRestored(db.items, c.items)
      && (forall j :: 0 <= j < |db.storeOrders| && c.storeOrders[j].status == StoreOrderStatus.Rejected
            ==> db.storeOrders[j].status == StoreOrderStatus.Rejected)
      && (forall k :: 0 <= k < |db.items| && !InScope(db.storeOrders, db.items[k], OfOrder(order)) ==> c.items[k] == db.items[k])
  {
    var c := CancelRows(db, order, statuses);
    if db.orders[order].status == OrderStatus.Cancelled {
      assert c.orders == db.orders;
    } else {
      forall j | 0 <= j < |c.storeOrders| ensures !Charged(c.storeOrders[j], order) {
        assert Charged(db.storeOrders[j], order) ==> db.storeOrders[j].status in statuses;
      }
    }
  }

  /** The rows a cancellation leaves before its totals are recomputed. */
  function CancelledRows(db: Db, order: nat, statuses: set<StoreOrderStatus>): Result<Db, Error>
    requires order < |db.orders|
  {
    match RestoreFrom(CancelRows(db, order, statuses), 0, OfOrder(order))
    case Err(error) => Err(error)
    case Ok(next) => Ok(next.(items := MarkCancelled(next.storeOrders, next.items, OfOrder(order))))
  }

  lemma {:induction false} CancelRowsOnlyOrder(db: Db, order: nat, statuses: set<StoreOrderStatus>)
    requires StockSound(db) && order < |db.orders| && OrderAgrees(db.orders[order], db.storeOrders, order)
    requires Covers(db, order, statuses) && db.orders[order].status != OrderStatus.Completed
    ensures StockSound(CancelRows(db, order, statuses)) && OnlyOrder(db, CancelRows(db, order, statuses), order)
  {
    CancelRowsFacts(db, order, statuses);
    StockSoundKept(db, CancelRows(db, order, statuses), order);
  }

  lemma {:induction false} MarkCancelledOnlyOrder(r: Db, order: nat)
    requires StockSound(r)
    ensures var m := r.(items := MarkCancelled(r.storeOrders, r.items, OfOrder(order)));
      && StockSound(m) && OnlyOrder(r, m, order)
      && (forall k :: 0 <= k < |r.items| && InScope(r.storeOrders, r.items[k], OfOrder(order))
            ==> m.items[k] == r.items[k].(cancelled := true))
  {
    var m := r.(items := MarkCancelled(r.storeOrders, r.items, OfOrder(order)));
    StockSoundKept(r, m, order);
  }

  lemma {:induction false} CancelledRowsFacts(db: Db, order: nat, statuses: set<StoreOrderStatus>)
    requires StockSound(db) && order < |db.orders| && OrderAgrees(db.orders[order], db.storeOrders, order)
    requires Covers(db, order, statuses) && db.orders[order].status != OrderStatus.Completed
    ensures CancelledRows(db, order, statuses).Ok?
    ensures var c, m := CancelRows(db, order, statuses), CancelledRows(db, order, statuses).value;
      && OnlyOrder(db, m, order) && StockSound(m)
      && m == c.(items := m.items, stock := m.stock)
      && (forall k :: 0 <= k < |m.items| && InScope(db.storeOrders, db.items[k], OfOrder(order))
            ==> m.items[k].restored && m.items[k].cancelled)
  {
    var c := CancelRows(db, order, statuses);
    CancelRowsOnlyOrder(db, order, statuses);
    RestoreOnlyOrder(c, OfOrder(order), order);
    var r := RestoreFrom(c, 0, OfOrder(order)).value;
    MarkCancelledOnlyOrder(r, order);
    OnlyOrderTransitive(db, c, r, order);
    OnlyOrderTransitive(db, r, CancelledRows(db, order, statuses).value, order);
    ScopeKept(db, c, order, OfOrder(order));
    ScopeKept(db, r, order, OfOrder(order));
  }

  lemma {:induction false} LinkedAfter(db: Db, next: Db, order: nat)
    requires Linked(db) && OnlyOrder(db, next, order)
    requires forall j :: 0 <= j < |db.storeOrders| ==>
      next.storeOrders[j].status == StoreOrderStatus.Rejected ==> db.storeOrders[j].status == StoreOrderStatus.Rejected
    requires !AnyCharged(next.storeOrders, order)
    requires forall k :: 0 <= k < |db.items| && InScope(db.storeOrders, db.items[k], OfOrder(order)) ==> next.items[k].restored
    ensures Linked(next)
  {
    forall k | 0 <= k < |next.items| ensures ItemAgrees(next.storeOrders, next.items[k]) {
      assert ItemAgrees(db.storeOrders, db.items[k]);
      var j := db.items[k].storeOrder;
      if db.storeOrders[j].order == order {
        assert !Charged(next.storeOrders[j], order);
      }
    }
  }

  /** Recomputing the totals of an order touches nothing but its row. */
  lemma {:induction false} TotalsOnly(db: Db, m: Db, order: nat)
    requires order < |db.orders| && OnlyOrder(db, m, order) && StockSound(m)
    ensures StockSound(WithTotals(m, order)) && OnlyOrder(db, WithTotals(m, order), order)
  {
    var next := WithTotals(m, order);
    forall p | 0 <= p < |db.stock.products| ensures Claim(db, p) == Claim(next, p) {
      assert Claim(db, p) == Claim(m, p);
    }
  }

  lemma {:induction false} CancelledOrdersAgree(db: Db, m: Db, order: nat)
    requires OrdersAgree(db) && order < |db.orders| && OnlyOrder(db, m, order)
    requires !AnyCharged(m.storeOrders, order) && m.orders[order].status == OrderStatus.Cancelled
    requires m.orders[order].payment == PaymentStatus.Cancelled
    requires m.orders[order].discount == db.orders[order].discount
    requires m.orders[order].itemsSubtotal == db.orders[order].itemsSubtotal
    ensures OrdersAgree(WithTotals(m, order))
    ensures var row := WithTotals(m, order).orders[order];
      row.status == OrderStatus.Cancelled && row.itemsSubtotal == 0 && row.grandTotal == 0
  {
    var next := WithTotals(m, order);
    assert OrderAgrees(db.orders[order], db.storeOrders, order);
    RecalculatedTotals(m.orders[order], m.storeOrders, order);
    NothingChargedIsZero(m.storeOrders, order);
    NoneCompleted(m.storeOrders, order);
    forall o | 0 <= o < |next.orders| ensures OrderAgrees(next.orders[o], next.storeOrders, o) {
      if o != order {
        assert OrderAgrees(db.orders[o], db.storeOrders, o);
        OtherOrdersKeep(db.storeOrders, next.storeOrders, order, o, db.orders[o]);
      }
    }
  }

  /**
   * A covered cancellation never fails. It returns the stock of exactly the items that still held
   * it, leaves the invariant standing and touches no other order.
   */
  lemma {:induction false} CancelOrderSound(db: Db, order: nat, statuses: set<StoreOrderStatus>)
    requires Sound(db) && order < |db.orders|
    requires Covers(db, order, statuses) && db.orders[order].status != OrderStatus.Completed
    ensures CancelOrder(db, order, statuses).Ok?
    ensures var next := CancelOrder(db, order, statuses).value;
      && Sound(next) && OnlyOrder(db, next, order)
      && next.orders[order].status == OrderStatus.Cancelled
      && next.orders[order].itemsSubtotal == 0 && next.orders[order].grandTotal == 0
      && (forall k :: 0 <= k < |next.items| && InScope(db.storeOrders, db.items[k], OfOrder(order))
            ==> next.items[k].restored && next.items[k].cancelled)
  {
    assert OrderAgrees(db.orders[order], db.storeOrders, order);
    CancelRowsFacts(db, order, statuses);
    CancelledRowsFacts(db, order, statuses);
    var m := CancelledRows(db, order, statuses).value;
    CancelledOrdersAgree(db, m, order);
    TotalsOnly(db, m, order);
    var next := WithTotals(m, order);
    assert CancelOrder(db, order, statuses) == Ok(next);
    LinkedAfter(db, next, order);
    MoneyKept(db, next, order);
  }

  lemma {:induction false} NoneCompleted(after: seq<StoreOrder>, order: nat)
    requires !AnyCharged(after, order)
    ensures forall j :: 0 <= j < |after| && after[j].order == order ==> after[j].status != StoreOrderStatus.Completed
  {
    forall j | 0 <= j < |after| && after[j].order == order ensures after[j].status != StoreOrderStatus.Completed {
      assert !Charged(after[j], order);
    }
  }
}
