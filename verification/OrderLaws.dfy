/** The invariant of the order tables: stock, money and statuses agree row by row. */
module OrderLaws {
  import opened Sums
  import opened Rounding
  import opened Orders
  import opened OrderStock

  function LinesIn(storeOrder: nat): Item -> int {
    (item: Item) => if item.storeOrder == storeOrder then item.lineTotal else 0
  }

  predicate UniqueTokens(orders: seq<Order>) {
    forall i, j :: 0 <= i < j < |orders| ==> orders[i].token != orders[j].token
  }

  /** An item has given its stock back exactly when its store order is no longer charged for. */
  predicate ItemAgrees(storeOrders: seq<StoreOrder>, item: Item) {
    && item.storeOrder < |storeOrders|
    && (item.restored <==> NonChargeable(storeOrders[item.storeOrder].status))
    && (storeOrders[item.storeOrder].status == StoreOrderStatus.Rejected ==> item.rejected)
  }

  predicate Linked(db: Db) {
    && UniqueTokens(db.orders)
    && (forall j :: 0 <= j < |db.storeOrders| ==> db.storeOrders[j].order < |db.orders|)
    && (forall k :: 0 <= k < |db.items| ==> ItemAgrees(db.storeOrders, db.items[k]))
  }

  predicate StoreOrderMoney(db: Db) {
    forall j :: 0 <= j < |db.storeOrders| ==> db.storeOrders[j].itemsSubtotal == Sum(db.items, LinesIn(j))
  }

  predicate Totals(row: Order, storeOrders: seq<StoreOrder>, order: nat) {
    && row.itemsSubtotal == Sum(storeOrders, ItemsCharged(order))
    && row.deliveryCharge == Sum(storeOrders, DeliveryCharged(order))
    && row.discount <= row.itemsSubtotal
    && row.grandTotal == row.itemsSubtotal + row.deliveryCharge - row.discount
  }

  predicate Lifecycle(row: Order, storeOrders: seq<StoreOrder>, order: nat) {
    && (row.status == OrderStatus.Cancelled <==> !AnyCharged(storeOrders, order))
    && (row.status == OrderStatus.Completed ==>
          forall j :: 0 <= j < |storeOrders| && Charged(storeOrders[j], order)
            ==> storeOrders[j].status == StoreOrderStatus.Completed)
    && (row.status != OrderStatus.Completed ==>
          forall j :: 0 <= j < |storeOrders| && storeOrders[j].order == order
            ==> storeOrders[j].status != StoreOrderStatus.Completed)
    && (row.payment == PaymentStatus.Collected ==> row.status == OrderStatus.Completed)
    && (row.status == OrderStatus.Cancelled ==> row.payment == PaymentStatus.Cancelled)
  }

  predicate OrderAgrees(row: Order, storeOrders: seq<StoreOrder>, order: nat) {
    Totals(row, storeOrders, order) && Lifecycle(row, storeOrders, order)
  }

  predicate OrdersAgree(db: Db) {
    forall o :: 0 <= o < |db.orders| ==> OrderAgrees(db.orders[o], db.storeOrders, o)
  }

  ghost predicate Sound(db: Db) {
    StockSound(db) && Linked(db) && StoreOrderMoney(db) && OrdersAgree(db)
  }

  // ----- Changing statuses of one order's store orders -----

  /** Only the status columns of rows of `order` differ. */
  predicate StatusChange(before: seq<StoreOrder>, after: seq<StoreOrder>, order: nat) {
    && |before| == |after|
    && (forall j :: 0 <= j < |before| ==>
          after[j] == before[j].(status := after[j].status, completedFrom := after[j].completedFrom))
    && (forall j :: 0 <= j < |before| && before[j].order != order ==> after[j] == before[j])
  }

  predicate SameCharging(before: seq<StoreOrder>, after: seq<StoreOrder>) {
    |before| == |after|
    && forall j :: 0 <= j < |before| ==> NonChargeable(before[j].status) == NonChargeable(after[j].status)
  }

  lemma {:induction false} OtherOrdersKeep(before: seq<StoreOrder>, after: seq<StoreOrder>, order: nat, o: nat, row: Order)
    requires StatusChange(before, after, order) && o != order
    requires OrderAgrees(row, before, o)
    ensures OrderAgrees(row, after, o)
  {
    SumCongruent(before, after, ItemsCharged(o), ItemsCharged(o));
    SumCongruent(before, after, DeliveryCharged(o), DeliveryCharged(o));
    assert AnyCharged(before, o) <==> AnyCharged(after, o) by {
      if AnyCharged(before, o) {
        var i :| 0 <= i < |before| && Charged(before[i], o);
        assert Charged(after[i], o);
      }
      if AnyCharged(after, o) {
        var i :| 0 <= i < |after| && Charged(after[i], o);
        assert Charged(before[i], o);
      }
    }
  }

  lemma {:induction false} SameChargingKeepsTotals(before: seq<StoreOrder>, after: seq<StoreOrder>, order: nat, row: Order)
    requires StatusChange(before, after, order) && SameCharging(before, after)
    requires Totals(row, before, order)
    ensures Totals(row, after, order)
    ensures AnyCharged(before, order) <==> AnyCharged(after, order)
  {
    SumCongruent(before, after, ItemsCharged(order), ItemsCharged(order));
    SumCongruent(before, after, DeliveryCharged(order), DeliveryCharged(order));
    if AnyCharged(before, order) {
      var i :| 0 <= i < |before| && Charged(before[i], order);
      assert Charged(after[i], order);
    }
    if AnyCharged(after, order) {
      var i :| 0 <= i < |after| && Charged(after[i], order);
      assert Charged(before[i], order);
    }
  }

  // ----- Payable totals -----

  /** Rescaling keeps a discount within its subtotal. */
  lemma {:induction false} RescaleBounded(discount: nat, subtotal: nat, previous: nat)
    requires discount <= previous
    ensures Rescale(discount, subtotal, previous) <= subtotal
  {
    if discount != 0 && previous != 0 {
      ProductMonotone(discount, previous, subtotal);
      RoundingMonotone(discount * subtotal, subtotal * previous, previous);
      RoundingExact(subtotal, previous);
    }
  }

  lemma {:induction false} ProductMonotone(a: nat, b: nat, c: nat)
    requires a <= b
    ensures a * c <= c * b
  {
    NonNegativeProduct(b - a, c);
    assert (b - a) * c == b * c - a * c;
  }

  lemma {:induction false} RescaleUnchanged(discount: nat, subtotal: nat)
    requires discount <= subtotal
    ensures Rescale(discount, subtotal, subtotal) == discount
  {
    if discount != 0 {
      RoundingExact(discount, subtotal);
    }
  }

  /** Recomputing an order keeps the discount within the subtotal, so the clamp at zero never fires. */
  lemma {:induction false} RecalculatedTotals(row: Order, storeOrders: seq<StoreOrder>, order: nat)
    requires row.discount <= row.itemsSubtotal
    ensures Totals(Recalculate(row, storeOrders, order), storeOrders, order)
  {
    SumNonNegative(storeOrders, ItemsCharged(order));
    SumNonNegative(storeOrders, DeliveryCharged(order));
    RescaleBounded(row.discount, Sum(storeOrders, ItemsCharged(order)), row.itemsSubtotal);
  }

  lemma {:induction false} NothingChargedIsZero(storeOrders: seq<StoreOrder>, order: nat)
    requires !AnyCharged(storeOrders, order)
    ensures Sum(storeOrders, ItemsCharged(order)) == 0 && Sum(storeOrders, DeliveryCharged(order)) == 0
  {
    SumZero(storeOrders, ItemsCharged(order));
    SumZero(storeOrders, DeliveryCharged(order));
  }

  /** Recomputing totals that already agree with the rows changes nothing. */
  lemma {:induction false} RecalculateIdempotent(row: Order, storeOrders: seq<StoreOrder>, order: nat)
    requires Totals(row, storeOrders, order)
    ensures Recalculate(row, storeOrders, order) == row
  {
    if AnyCharged(storeOrders, order) {
      RescaleUnchanged(row.discount, row.itemsSubtotal);
    } else {
      NothingChargedIsZero(storeOrders, order);
    }
  }

  // ----- Parent status -----

  lemma {:induction false} StatusesMembers(rows: seq<StoreOrder>, order: nat, s: StoreOrderStatus)
    ensures s in StatusesOf(rows, order) <==>
      exists j :: 0 <= j < |rows| && rows[j].order == order && rows[j].status == s
  {
    if rows != [] {
      var n := |rows| - 1;
      StatusesMembers(rows[..n], order, s);
      if s in StatusesOf(rows[..n], order) {
        var j :| 0 <= j < n && rows[..n][j].order == order && rows[..n][j].status == s;
        assert rows[j].order == order && rows[j].status == s;
      }
      if j :| 0 <= j < |rows| && rows[j].order == order && rows[j].status == s {
        if j < n {
          assert rows[..n][j] == rows[j];
        }
      }
    }
  }

  /** The synced status is Cancelled or Completed exactly when the store orders say so. */
  lemma {:induction false} SyncedStatus(row: Order, rows: seq<StoreOrder>, order: nat, j: nat)
    requires j < |rows| && rows[j].order == order
    ensures var status := Synced(row, rows, order).status;
      && (status == OrderStatus.Cancelled <==> !AnyCharged(rows, order))
      && (status == OrderStatus.Completed <==>
            AnyCharged(rows, order)
            && forall i :: 0 <= i < |rows| && Charged(rows[i], order) ==> rows[i].status == StoreOrderStatus.Completed)
  {
    var statuses := StatusesOf(rows, order);
    StatusesMembers(rows, order, rows[j].status);
    forall s ensures s in statuses <==> exists i :: 0 <= i < |rows| && rows[i].order == order && rows[i].status == s {
      StatusesMembers(rows, order, s);
    }
    if AnyCharged(rows, order) {
      var i :| 0 <= i < |rows| && Charged(rows[i], order);
      StatusesMembers(rows, order, rows[i].status);
    }
  }
}
