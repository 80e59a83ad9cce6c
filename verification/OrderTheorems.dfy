/** What the order engine promises its users, over every run. */
module OrderTheorems {
  import opened Sums
  import opened Orders
  import opened OrderStock
  import opened OrderLaws
  import opened OrderRuns
  import I = Inventory
  import L = InventoryLaws
  import R = InventoryRuns

  // ----- Stock conservation -----

  /** A shop with any catalogue balances, no ledger and no orders yet. */
  predicate Empty(db: Db) {
    && db.orders == [] && db.storeOrders == [] && db.items == [] && db.stock.ledger == []
    && db.carts == map[]
    && forall p :: 0 <= p < |db.stock.products| ==> db.stock.products[p].stock >= 0
  }

  lemma {:induction false} EmptySound(db: Db)
    requires Empty(db)
    ensures Sound(db) && CartsSound(db)
  {
    forall k: nat ensures Recorded(db.stock.ledger, db.items, k) {
    }
  }

  /** What the accepted manual movements of `p` of the given kinds moved, all quantities counted positive. */
  function Booked(states: seq<Db>, events: seq<Event>, n: nat, p: I.ProductId, kinds: set<I.Kind>): int
    requires n <= |events| && |states| == |events| + 1
  {
    if n == 0 then 0
    else Booked(states, events, n - 1, p, kinds) + BookedBy(states[n - 1], events[n - 1], p, kinds)
  }

  function BookedBy(now: Db, event: Event, p: I.ProductId, kinds: set<I.Kind>): int {
    if event.Move? && event.movement.product == p && event.movement.kind in kinds
       && I.Apply(now.stock, event.movement, false).Ok?
    then event.movement.quantity else 0
  }

  lemma {:induction false} NetIsInMinusOut(states: seq<Db>, events: seq<Event>, n: nat, p: I.ProductId)
    requires n <= |events| && |states| == |events| + 1
    ensures ManualNet(states, events, n, p)
      == Booked(states, events, n, p, L.INCOMING) - Booked(states, events, n, p, L.OUTGOING)
  {
    if n > 0 {
      NetIsInMinusOut(states, events, n - 1, p);
    }
  }

  /**
   * Stock is the initial balance, plus what openings, purchases, stock-ins, upward adjustments and
   * customer returns booked by hand brought in, minus what manual stock-outs, downward adjustments,
   * damage, expiry and supplier returns took out, minus what unrestored order items hold.
   */
  lemma {:induction false} StockIsAccountedFor(states: seq<Db>, events: seq<Event>, n: nat, p: I.ProductId)
    requires IsRun(states, events) && n <= |events| && Empty(states[0])
    requires p < |states[0].stock.products|
    ensures p < |states[n].stock.products|
    ensures states[n].stock.products[p].stock
      == states[0].stock.products[p].stock
         + Booked(states, events, n, p, {I.Opening, I.Purchase, I.StockIn, I.AdjustmentIn, I.CustomerReturn})
         - Booked(states, events, n, p, {I.StockOut, I.AdjustmentOut, I.Damaged, I.Expired, I.SupplierReturn})
         - Held(states[n].items, p)
    ensures states[n].stock.products[p].stock >= 0
  {
    EmptySound(states[0]);
    RunConserves(states, events, n);
    NetIsInMinusOut(states, events, n, p);
    assert Claim(states[0], p) == states[0].stock.products[p].stock;
  }

  function Carries(reference: string): I.Txn -> int {
    (row: I.Txn) => if row.reference == reference then 1 else 0
  }

  lemma {:induction false} CountReference(ledger: seq<I.Txn>, reference: string)
    requires R.UniqueReferences(ledger) && I.IsOrderReference(reference)
    ensures Sum(ledger, Carries(reference)) == if I.Newest(ledger, reference).Some? then 1 else 0
  {
    if ledger != [] {
      var n := |ledger| - 1;
      CountReference(ledger[..n], reference);
      if ledger[n].reference == reference {
        assert forall k :: 0 <= k < n ==> ledger[..n][k].reference != reference;
      }
    }
  }

  /** At any moment each order item has exactly one deduct row, and one restore row iff restored. */
  lemma {:induction false} OneRowPerItem(db: Db, k: nat)
    requires StockSound(db) && k < |db.items|
    ensures Sum(db.stock.ledger, Carries(I.DeductReference(k))) == 1
    ensures Sum(db.stock.ledger, Carries(I.RestoreReference(k))) == if db.items[k].restored then 1 else 0
  {
    assert Recorded(db.stock.ledger, db.items, k);
    ReferencesDistinct(k, k);
    CountReference(db.stock.ledger, I.DeductReference(k));
    CountReference(db.stock.ledger, I.RestoreReference(k));
  }

  // ----- Money follows stock -----

  function HeldLines(order: nat, rows: seq<StoreOrder>): Item -> int {
    (item: Item) =>
      if item.storeOrder < |rows| && rows[item.storeOrder].order == order && !item.restored then item.lineTotal else 0
  }

  function ChargedLines(order: nat, rows: seq<StoreOrder>, m: nat): Item -> int {
    (item: Item) =>
      if item.storeOrder < m && item.storeOrder < |rows| && Charged(rows[item.storeOrder], order) then item.lineTotal else 0
  }

  function Only(storeOrder: nat, charged: bool): Item -> int {
    (item: Item) => if charged && item.storeOrder == storeOrder then item.lineTotal else 0
  }

  lemma {:induction false} ChargedByItems(db: Db, order: nat, m: nat)
    requires StoreOrderMoney(db) && m <= |db.storeOrders|
    ensures Sum(db.storeOrders[..m], ItemsCharged(order)) == Sum(db.items, ChargedLines(order, db.storeOrders, m))
  {
    var rows := db.storeOrders;
    if m == 0 {
      SumZero(db.items, ChargedLines(order, rows, 0));
    } else {
      ChargedByItems(db, order, m - 1);
      var charged := Charged(rows[m - 1], order);
      assert rows[..m] == rows[..m - 1] + [rows[m - 1]];
      SumPush(rows[..m - 1], rows[m - 1], ItemsCharged(order));
      SumSplit(db.items, ChargedLines(order, rows, m), ChargedLines(order, rows, m - 1), Only(m - 1, charged));
      if charged {
        SumCongruent(db.items, db.items, Only(m - 1, charged), LinesIn(m - 1));
      } else {
        SumZero(db.items, Only(m - 1, charged));
      }
    }
  }

  function LiveDelivery(order: nat): StoreOrder -> int {
    (row: StoreOrder) =>
      if row.order == order && row.status != StoreOrderStatus.Rejected && row.status != StoreOrderStatus.Cancelled
      then row.deliveryCharge else 0
  }

  /**
   * The customer is charged for exactly the goods whose stock has not been given back and for the
   * delivery of the store orders that are neither rejected nor cancelled, less the discount.
   */
  lemma {:induction false} PayableIsHeldGoods(db: Db, order: nat)
    requires Sound(db) && order < |db.orders|
    ensures db.orders[order].itemsSubtotal == Sum(db.items, HeldLines(order, db.storeOrders))
    ensures db.orders[order].grandTotal + db.orders[order].discount
      == Sum(db.items, HeldLines(order, db.storeOrders)) + Sum(db.storeOrders, LiveDelivery(order))
  {
    var rows := db.storeOrders;
    assert OrderAgrees(db.orders[order], rows, order);
    ChargedByItems(db, order, |rows|);
    assert rows[..|rows|] == rows;
    forall k | 0 <= k < |db.items|
      ensures ChargedLines(order, rows, |rows|)(db.items[k]) == HeldLines(order, rows)(db.items[k])
    {
      assert ItemAgrees(rows, db.items[k]);
    }
    SumCongruent(db.items, db.items, ChargedLines(order, rows, |rows|), HeldLines(order, rows));
    SumCongruent(rows, rows, DeliveryCharged(order), LiveDelivery(order));
  }

  /** A cancelled order holds no stock and owes nothing, however it came to be cancelled. */
  lemma {:induction false} CancelledHoldsNothing(db: Db, order: nat)
    requires Sound(db) && order < |db.orders| && db.orders[order].status == OrderStatus.Cancelled
    ensures forall k :: 0 <= k < |db.items| && InScope(db.storeOrders, db.items[k], OfOrder(order)) ==> db.items[k].restored
    ensures db.orders[order].grandTotal == 0
  {
    assert OrderAgrees(db.orders[order], db.storeOrders, order);
    NothingChargedIsZero(db.storeOrders, order);
    forall k | 0 <= k < |db.items| && InScope(db.storeOrders, db.items[k], OfOrder(order)) ensures db.items[k].restored {
      assert ItemAgrees(db.storeOrders, db.items[k]);
      assert !Charged(db.storeOrders[db.items[k].storeOrder], order);
    }
  }

  /** An item counts while its order has not been cancelled. */
  function HeldByLive(db: Db, p: I.ProductId): Item -> int {
    (item: Item) => if OfLiveOrder(db, item) && item.product == p && !item.restored then item.quantity else 0
  }

  predicate OfLiveOrder(db: Db, item: Item) {
    item.storeOrder < |db.storeOrders| && db.storeOrders[item.storeOrder].order < |db.orders|
    && db.orders[db.storeOrders[item.storeOrder].order].status != OrderStatus.Cancelled
  }

  /**
   * Cancellation is as if the order had never been placed: in any run, whatever other customers,
   * stores and managers do meanwhile, stock is the initial balance plus manual movements minus what
   * the orders that are not cancelled hold.
   */
  lemma {:induction false} CancelledOrdersLeaveNoTrace(states: seq<Db>, events: seq<Event>, n: nat, p: I.ProductId)
    requires IsRun(states, events) && n <= |events| && Empty(states[0])
    requires p < |states[0].stock.products|
    ensures p < |states[n].stock.products|
    ensures states[n].stock.products[p].stock
      == states[0].stock.products[p].stock
         + Booked(states, events, n, p, {I.Opening, I.Purchase, I.StockIn, I.AdjustmentIn, I.CustomerReturn})
         - Booked(states, events, n, p, {I.StockOut, I.AdjustmentOut, I.Damaged, I.Expired, I.SupplierReturn})
         - Sum(states[n].items, HeldByLive(states[n], p))
  {
    var db := states[n];
    StockIsAccountedFor(states, events, n, p);
    EmptySound(states[0]);
    RunConserves(states, events, n);
    forall k | 0 <= k < |db.items| ensures HeldOf(p)(db.items[k]) == HeldByLive(db, p)(db.items[k]) {
      OnlyLiveOrdersHold(db, k);
    }
    SumCongruent(db.items, db.items, HeldOf(p), HeldByLive(db, p));
  }

  lemma {:induction false} OnlyLiveOrdersHold(db: Db, k: nat)
    requires Sound(db) && k < |db.items|
    ensures !db.items[k].restored ==> OfLiveOrder(db, db.items[k])
  {
    assert ItemAgrees(db.storeOrders, db.items[k]);
    var order := db.storeOrders[db.items[k].storeOrder].order;
    if order < |db.orders| && db.orders[order].status == OrderStatus.Cancelled {
      CancelledHoldsNothing(db, order);
      assert InScope(db.storeOrders, db.items[k], OfOrder(order));
    }
  }

  /** Cash is never recorded for an order that is not delivered. */
  lemma {:induction false} CollectedOnlyWhenDelivered(states: seq<Db>, events: seq<Event>, n: nat, order: nat)
    requires IsRun(states, events) && n <= |events| && Empty(states[0])
    requires order < |states[n].orders| && states[n].orders[order].payment == PaymentStatus.Collected
    ensures states[n].orders[order].status == OrderStatus.Completed
  {
    EmptySound(states[0]);
    RunConserves(states, events, n);
    assert OrderAgrees(states[n].orders[order], states[n].storeOrders, order);
  }

  /** No cancelled order is waiting for its money: however it came to be cancelled, its payment is too. */
  lemma {:induction false} CancelledAwaitsNoPayment(states: seq<Db>, events: seq<Event>, n: nat, order: nat)
    requires IsRun(states, events) && n <= |events| && Empty(states[0])
    requires order < |states[n].orders| && states[n].orders[order].status == OrderStatus.Cancelled
    ensures states[n].orders[order].payment == PaymentStatus.Cancelled
  {
    EmptySound(states[0]);
    RunConserves(states, events, n);
    assert OrderAgrees(states[n].orders[order], states[n].storeOrders, order);
  }
}
