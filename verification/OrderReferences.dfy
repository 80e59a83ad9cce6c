/** What a used order reference does: the prefix is not reserved, so a manual movement may carry an item's key. */
module OrderReferences {
  import opened Wrappers
  import opened Text
  import opened Shopfront
  import opened Sorting
  import opened Orders
  import opened OrderStock
  import I = Inventory

  // ----- Checkout -----

  function DeductionOf(db: Db, line: Line): I.OrderCall {
    I.DeductCall(line.product, line.store, line.quantity, I.DeductReference(|db.items|), "Order")
  }

  /** The key is unused, or its newest row is the very movement that is asked for. */
  predicate KeyServes(ledger: seq<I.Txn>, call: I.OrderCall) {
    var known := I.Newest(ledger, call.reference);
    known.None? || I.Matches(known.value, call)
  }

  lemma {:induction false} KnownReference(s: I.State, call: I.OrderCall)
    requires Strip(call.reference) == call.reference != "" && I.IsOrderReference(call.reference)
    requires I.Newest(s.ledger, call.reference).Some?
    ensures var o := I.OrderStock(s.ledger, s, false, call);
      o.after == s && (o.result.Ok? <==> I.Matches(I.Newest(s.ledger, call.reference).value, call))
  {
  }

  /**
   * A checkout line that the locked rows can supply goes through if and only if its key is unused or
   * already carries the same movement, and it moves stock if and only if the key is unused.
   */
  lemma {:induction false} DeductionOutcome(db: Db, storeOrder: nat, line: Line)
    requires Supplied(db.stock.products, line)
    ensures var call := DeductionOf(db, line);
      var known, added := I.Newest(db.stock.ledger, call.reference), AddLine(db, storeOrder, line);
      && (added.Ok? <==> KeyServes(db.stock.ledger, call))
      && (known.Some? && added.Ok? ==> added.value.stock == db.stock)
      && (known.None? ==> added.value.stock.products == db.stock.products[line.product :=
            db.stock.products[line.product].(stock := db.stock.products[line.product].stock - line.quantity)])
  {
    var call := DeductionOf(db, line);
    ReferencesStripped(|db.items|);
    ReferencesDistinct(|db.items|, |db.items|);
    if I.Newest(db.stock.ledger, call.reference).None? {
      OrderMoveApplies(db.stock, call);
    } else {
      KnownReference(db.stock, call);
    }
  }

  /** A checkout line takes its stock if and only if its key is unused. */
  lemma {:induction false} DeductionMovesStockIff(db: Db, storeOrder: nat, line: Line)
    requires Supplied(db.stock.products, line)
    ensures (var added := AddLine(db, storeOrder, line);
             added.Ok? && added.value.stock.products == db.stock.products[line.product :=
               db.stock.products[line.product].(stock := db.stock.products[line.product].stock - line.quantity)])
      <==> I.Newest(db.stock.ledger, I.DeductReference(|db.items|)).None?
  {
    DeductionOutcome(db, storeOrder, line);
  }

  // ----- A checkout that takes nothing -----

  lemma {:induction false} OneGroup(line: Line)
    ensures StoreGroups([line]) == [Group(line.store, [line])]
  {
    var key := StoreKey();
    assert [line][..0] == [];
    assert SortBy([], key) == [] && SortBy([line], key) == Insert([], line, key);
    assert GroupRuns([], key) == [];
    assert GroupRuns([line], key) == Extend([], line, key(line));
  }

  lemma {:induction false} OneLineGraph(db: Db, req: Checkout, line: Line)
    requires AddLine(db, |db.storeOrders|, line).Ok?
    ensures CreateOrderGraph(db, req, [line]).Ok?
    ensures var next := CreateOrderGraph(db, req, [line]).value;
      next.stock == AddLine(db, |db.storeOrders|, line).value.stock && next.items == db.items + [NewItem(|db.storeOrders|, line)]
  {
    var placed := db.(orders := db.orders + [NewOrder(req, [line])]);
    OneGroup(line);
    OneGroupAdded(placed, |db.orders|, line);
  }

  lemma {:induction false} OneGroupAdded(db: Db, order: nat, line: Line)
    requires AddLine(db, |db.storeOrders|, line).Ok?
    ensures var group := Group(line.store, [line]);
      Uniform([group], StoreKey()) && AddStoreOrders(db, order, [group]).Ok?
    ensures var next := AddStoreOrders(db, order, [Group(line.store, [line])]).value;
      next.stock == AddLine(db, |db.storeOrders|, line).value.stock && next.items == db.items + [NewItem(|db.storeOrders|, line)]
  {
    var groups := [Group(line.store, [line])];
    var started := db.(storeOrders := db.storeOrders + [NewStoreOrder(order, [line])]);
    OneLine(started, |db.storeOrders|, line);
    assert groups[1..] == [];
    var next := AddLine(started, |db.storeOrders|, line).value;
    assert AddStoreOrders(next, order, []) == Ok(next);
  }

  lemma {:induction false} OneLine(db: Db, storeOrder: nat, line: Line)
    ensures AddLines(db, storeOrder, [line]) == AddLine(db, storeOrder, line)
  {
    assert [line][1..] == [];
    if AddLine(db, storeOrder, line).Ok? {
      assert AddLines(AddLine(db, storeOrder, line).value, storeOrder, []) == AddLine(db, storeOrder, line);
    }
  }

  /** A manual stock-out of `line` booked under the key of the next order item. */
  predicate Forges(db: Db, m: I.Movement, line: Line) {
    && m.kind == I.StockOut && m.product == line.product && m.store == line.store && m.quantity == line.quantity
    && m.reference == I.DeductReference(|db.items|) && I.Apply(db.stock, m, false).Ok?
  }

  /**
   * After such a movement the checkout of that line places its order and creates its item, yet takes
   * nothing from the shelf: the movement is counted as the deduction.
   */
  lemma {:induction false} ForgedReferenceSkipsDeduction(db: Db, m: I.Movement, req: Checkout, early: bool, line: Line)
    requires Forges(db, m, line)
    requires var now := db.(stock := I.AfterMove(db.stock, m));
      ReachesInsert(now, req) && ValidatedLines(now, req) == Ok([line])
    ensures var now := db.(stock := I.AfterMove(db.stock, m));
      var placing := PlaceOrder(now, now, early, req);
      && placing.result == Ok(|db.orders|) && placing.after.stock == now.stock
      && placing.after.items == db.items + [NewItem(|db.storeOrders|, line)]
  {
    var now := db.(stock := I.AfterMove(db.stock, m));
    var call := DeductionOf(now, line);
    ReferencesStripped(|db.items|);
    ReferencesDistinct(|db.items|, |db.items|);
    var row := I.Apply(db.stock, m, false).value.row;
    assert now.stock.ledger == db.stock.ledger + [row];
    NewestPush(db.stock.ledger, row, call.reference);
    KnownReference(now.stock, call);
    assert AddLine(now, |now.storeOrders|, line).Ok?;
    OneLineGraph(now, req, line);
  }

  /** Five on the shelf, one in the cart of customer 1. */
  function SmallShop(): Db {
    Db(I.State([I.ProductRow(0, 5000)], []),
       Catalogue([Listing(ProductStatus.Approved, true, 0, None, Some(200))], [StoreRow(StoreStatus.Active, true)], [true]),
       map[1 := [CartLine(0, 1000)]], [], [], [])
  }

  /** One booked out by hand under the first item's key. */
  function BookedOut(): I.Movement {
    I.Movement(0, 0, I.StockOut, 1000, "Damaged", I.DeductReference(0), None, 0, None, None, None, None)
  }

  lemma {:induction false} SmallShopForges(db: Db, m: I.Movement, line: Line)
    requires db == SmallShop() && m == BookedOut() && line == Line(0, 0, 1000, 200, LineTotal(200, 1000))
    ensures Forges(db, m, line)
    ensures I.AfterMove(db.stock, m).products == [I.ProductRow(0, 4000)]
  {
    assert Strip("Damaged") != "";
  }

  lemma {:induction false} SmallShopSells(now: Db, req: Checkout, line: Line, shelf: int)
    requires now == SmallShop().(stock := now.stock) && now.stock.products == [I.ProductRow(0, shelf)] && shelf >= 1000
    requires req == Checkout(1, "t", true, 0) && line == Line(0, 0, 1000, 200, LineTotal(200, 1000))
    ensures ReachesInsert(now, req) && ValidatedLines(now, req) == Ok([line])
  {
    var cart := [CartLine(0, 1000)];
    assert CartOf(now, 1) == cart && cart[..|cart| - 1] == [];
    assert SortBy(cart, ProductKey()) == cart;
    assert BuildLine(now, cart[0], 0) == Ok(line);
    assert BuildLines(now, cart[..|cart| - 1], 0) == Ok([]);
    assert BuildLines(now, cart, 0) == Ok([] + [line]);
    assert [] + [line] == [line];
    assert ValidatedLines(now, req) == BuildLines(now, cart, 0);
  }

  /** In that shop the checkout sells the unit and the shelf still shows four. */
  lemma {:induction false} ForgedCheckout(now: Db, req: Checkout)
    requires now == SmallShop().(stock := I.AfterMove(SmallShop().stock, BookedOut())) && req == Checkout(1, "t", true, 0)
    ensures var placing := PlaceOrder(now, now, false, req);
      && placing.result == Ok(0) && placing.after.items == [NewItem(0, Line(0, 0, 1000, 200, LineTotal(200, 1000)))]
      && placing.after.stock.products == [I.ProductRow(0, 4000)] == now.stock.products
  {
    var line := Line(0, 0, 1000, 200, LineTotal(200, 1000));
    SmallShopForges(SmallShop(), BookedOut(), line);
    SmallShopSells(now, req, line, 4000);
    ForgedReferenceSkipsDeduction(SmallShop(), BookedOut(), req, false, line);
  }

  // ----- Restoration -----

  /** Items name products of their store and no stock is below zero; movements keep this whatever references they use. */
  predicate WellPlaced(db: Db) {
    && (forall k :: 0 <= k < |db.items| ==> ItemPlaced(db.stock.products, db.storeOrders, db.items[k]))
    && (forall p :: 0 <= p < |db.stock.products| ==> db.stock.products[p].stock >= 0)
  }

  lemma {:induction false} AnyMoveStaysPlaced(db: Db, m: I.Movement)
    requires WellPlaced(db)
    ensures WellPlaced(db.(stock := I.AfterMove(db.stock, m)))
  {
    var next := db.(stock := I.AfterMove(db.stock, m));
    forall k | 0 <= k < |db.items| ensures ItemPlaced(next.stock.products, next.storeOrders, next.items[k]) {
      assert ItemPlaced(db.stock.products, db.storeOrders, db.items[k]);
    }
  }

  lemma {:induction false} SoundStaysPlaced(db: Db)
    requires StockSound(db)
    ensures WellPlaced(db)
  {
  }

  function RestorationOf(db: Db, k: nat): I.OrderCall
    requires k < |db.items| && db.items[k].storeOrder < |db.storeOrders|
  {
    var item := db.items[k];
    I.RestoreCall(item.product, db.storeOrders[item.storeOrder].store, item.quantity, I.RestoreReference(k), "Order")
  }

  predicate CanReturn(db: Db, k: nat)
    requires k < |db.items| && WellPlaced(db)
  {
    assert ItemPlaced(db.stock.products, db.storeOrders, db.items[k]);
    KeyServes(db.stock.ledger, RestorationOf(db, k))
  }

  /**
   * An item's stock is returned if and only if its restore key is unused; a key that already carries
   * the same movement skips the return, and any other row under it makes the restoration raise.
   */
  lemma {:induction false} RestorationOutcome(db: Db, k: nat)
    requires k < |db.items| && WellPlaced(db)
    ensures db.items[k].product < |db.stock.products| && db.items[k].storeOrder < |db.storeOrders|
    ensures var item, known, restored := db.items[k], I.Newest(db.stock.ledger, I.RestoreReference(k)), RestoreItem(db, k);
      && (restored.Ok? <==> CanReturn(db, k))
      && (known.Some? && restored.Ok? ==> restored.value.stock == db.stock)
      && (known.None? ==>
            && restored.value.stock.products == db.stock.products[item.product :=
                 db.stock.products[item.product].(stock := db.stock.products[item.product].stock + item.quantity)]
            && |restored.value.stock.ledger| == |db.stock.ledger| + 1
            && restored.value.stock.ledger[..|db.stock.ledger|] == db.stock.ledger
            && restored.value.stock.ledger[|db.stock.ledger|].reference == I.RestoreReference(k))
      && (restored.Ok? ==> restored.value == db.(items := db.items[k := item.(restored := true)], stock := restored.value.stock))
  {
    assert ItemPlaced(db.stock.products, db.storeOrders, db.items[k]);
    var call := RestorationOf(db, k);
    ReferencesStripped(k);
    ReferencesDistinct(k, k);
    if I.Newest(db.stock.ledger, call.reference).None? {
      OrderMoveApplies(db.stock, call);
    } else {
      KnownReference(db.stock, call);
    }
  }

  /** A restoration gives stock back if and only if its key is unused. */
  lemma {:induction false} RestorationMovesStockIff(db: Db, k: nat)
    requires k < |db.items| && WellPlaced(db)
    ensures db.items[k].product < |db.stock.products| && db.items[k].storeOrder < |db.storeOrders|
    ensures (var item, restored := db.items[k], RestoreItem(db, k);
             restored.Ok? && restored.value.stock.products == db.stock.products[item.product :=
               db.stock.products[item.product].(stock := db.stock.products[item.product].stock + item.quantity)])
      <==> I.Newest(db.stock.ledger, I.RestoreReference(k)).None?
  {
    RestorationOutcome(db, k);
    assert ItemPlaced(db.stock.products, db.storeOrders, db.items[k]);
  }

  /** Returning one item leaves the rows well placed and every other item's key as it was. */
  lemma {:induction false} RestorationLeavesOthers(db: Db, n: nat, k: nat)
    requires n < |db.items| && k < |db.items| && n != k && WellPlaced(db) && RestoreItem(db, n).Ok?
    ensures var next := RestoreItem(db, n).value;
      && |next.items| == |db.items| && next.storeOrders == db.storeOrders && next.items[k] == db.items[k]
      && WellPlaced(next) && (CanReturn(next, k) <==> CanReturn(db, k))
  {
    RestorationOutcome(db, n);
    RestorationStaysPlaced(db, n);
    var next := RestoreItem(db, n).value;
    if I.Newest(db.stock.ledger, I.RestoreReference(n)).None? {
      var row := next.stock.ledger[|db.stock.ledger|];
      assert next.stock.ledger == db.stock.ledger + [row];
      NewestPush(db.stock.ledger, row, I.RestoreReference(k));
      ReferencesDistinct(k, n);
    }
    assert ItemPlaced(db.stock.products, db.storeOrders, db.items[k]);
    assert RestorationOf(next, k) == RestorationOf(db, k);
  }

  lemma {:induction false} RestorationStaysPlaced(db: Db, n: nat)
    requires n < |db.items| && WellPlaced(db) && RestoreItem(db, n).Ok?
    ensures WellPlaced(RestoreItem(db, n).value)
  {
    RestorationOutcome(db, n);
    var next := RestoreItem(db, n).value;
    assert ItemPlaced(db.stock.products, db.storeOrders, db.items[n]);
    forall k | 0 <= k < |next.items| ensures ItemPlaced(next.stock.products, next.storeOrders, next.items[k]) {
      assert ItemPlaced(db.stock.products, db.storeOrders, db.items[k]);
    }
  }

  /** Every item of the scope that still holds stock can return it. */
  predicate AllReturn(db: Db, from: nat, scope: Scope)
    requires WellPlaced(db)
  {
    forall k :: from <= k < |db.items| && InScope(db.storeOrders, db.items[k], scope) && !db.items[k].restored ==> CanReturn(db, k)
  }

  lemma {:induction false} RestoreFromAcceptedIff(db: Db, from: nat, scope: Scope)
    requires WellPlaced(db)
    ensures RestoreFrom(db, from, scope).Ok? <==> AllReturn(db, from, scope)
    decreases |db.items| - from
  {
    if from < |db.items| {
      if !InScope(db.storeOrders, db.items[from], scope) || db.items[from].restored {
        RestoreFromAcceptedIff(db, from + 1, scope);
      } else {
        RestorationOutcome(db, from);
        if CanReturn(db, from) {
          var next := RestoreItem(db, from).value;
          RestorationStaysPlaced(db, from);
          RestoreFromAcceptedIff(next, from + 1, scope);
          SameAfterReturn(db, from, scope);
        }
      }
    }
  }

  lemma {:induction false} SameAfterReturn(db: Db, from: nat, scope: Scope)
    requires from < |db.items| && WellPlaced(db) && RestoreItem(db, from).Ok? && WellPlaced(RestoreItem(db, from).value)
    ensures AllReturn(RestoreItem(db, from).value, from + 1, scope) <==> AllReturn(db, from + 1, scope)
  {
    var next := RestoreItem(db, from).value;
    RestorationOutcome(db, from);
    forall k | from + 1 <= k < |db.items|
      ensures next.items[k] == db.items[k] && (CanReturn(next, k) <==> CanReturn(db, k))
    {
      RestorationLeavesOthers(db, from, k);
    }
  }

  // ----- Cancellation and rejection -----

  /** Marking rows changes no item's place, key or holding. */
  predicate OnlyMarks(db: Db, marked: Db) {
    && marked.stock == db.stock && |marked.storeOrders| == |db.storeOrders| && |marked.items| == |db.items|
    && (forall j :: 0 <= j < |db.storeOrders| ==>
          marked.storeOrders[j].store == db.storeOrders[j].store && marked.storeOrders[j].order == db.storeOrders[j].order)
    && (forall k :: 0 <= k < |db.items| ==>
          marked.items[k] == db.items[k].(cancelled := marked.items[k].cancelled, rejected := marked.items[k].rejected))
  }

  lemma {:induction false} MarksKeepReturns(db: Db, marked: Db, scope: Scope)
    requires WellPlaced(db) && OnlyMarks(db, marked)
    ensures WellPlaced(marked) && (AllReturn(marked, 0, scope) <==> AllReturn(db, 0, scope))
  {
    forall k | 0 <= k < |db.items|
      ensures ItemPlaced(marked.stock.products, marked.storeOrders, marked.items[k])
      ensures ItemPlaced(db.stock.products, db.storeOrders, db.items[k])
      ensures RestorationOf(marked, k) == RestorationOf(db, k)
    {
      assert ItemPlaced(db.stock.products, db.storeOrders, db.items[k]);
    }
    forall k | 0 <= k < |db.items| ensures CanReturn(marked, k) <==> CanReturn(db, k) {
    }
  }

  /**
   * A customer cancellation passes if and only if the published rules allow it and every item's
   * restore key is unused or already carries its return. One foreign row under a key of the order
   * makes every cancellation of it raise.
   */
  lemma {:induction false} CustomerCancelNeedsKeys(db: Db, order: nat, customer: nat, reason: string)
    requires WellPlaced(db)
    ensures CancelByCustomer(db, order, customer, reason).Ok? <==>
      && order < |db.orders| && db.orders[order].customer == customer && Strip(reason) != "" && CustomerMayCancel(db, order)
      && AllReturn(db, 0, OfOrder(order))
  {
    if order < |db.orders| {
      CancelNeedsKeys(db, order, CUSTOMER_CANCELABLE);
    }
  }

  lemma {:induction false} AdminCancelNeedsKeys(db: Db, order: nat, hasActor: bool, reason: string)
    requires WellPlaced(db)
    ensures CancelByAdmin(db, order, hasActor, reason).Ok? <==>
      && hasActor && order < |db.orders| && Strip(reason) != "" && AdminMayCancel(db.orders[order])
      && AllReturn(db, 0, OfOrder(order))
  {
    if order < |db.orders| {
      CancelNeedsKeys(db, order, ACTIVE);
    }
  }

  /**
   * A movement of another kind under the restore key of an item that holds stock: from then on every
   * cancellation of its order and every rejection of its store order raises, whoever asks.
   */
  lemma {:induction false} ForeignRowBlocks(
      db: Db, m: I.Movement, k: nat, order: nat, customer: nat, hasActor: bool, store: I.StoreId, reason: string)
    requires WellPlaced(db) && k < |db.items| && !db.items[k].restored && InScope(db.storeOrders, db.items[k], OfOrder(order))
    requires m.reference == I.RestoreReference(k) && m.kind != I.CustomerReturn && I.Apply(db.stock, m, false).Ok?
    ensures var after := db.(stock := I.AfterMove(db.stock, m));
      && CancelByCustomer(after, order, customer, reason).Err? && CancelByAdmin(after, order, hasActor, reason).Err?
      && Reject(after, db.items[k].storeOrder, store, reason).Err?
  {
    var after := db.(stock := I.AfterMove(db.stock, m));
    var row := I.Apply(db.stock, m, false).value.row;
    AnyMoveStaysPlaced(db, m);
    assert after.stock.ledger == db.stock.ledger + [row];
    NewestPush(db.stock.ledger, row, I.RestoreReference(k));
    assert !CanReturn(after, k);
    assert InScope(after.storeOrders, after.items[k], OfStoreOrder(db.items[k].storeOrder));
    CustomerCancelNeedsKeys(after, order, customer, reason);
    AdminCancelNeedsKeys(after, order, hasActor, reason);
    RejectionNeedsKeys(after, db.items[k].storeOrder, store, reason);
  }

  lemma {:induction false} CancelNeedsKeys(db: Db, order: nat, statuses: set<StoreOrderStatus>)
    requires WellPlaced(db) && order < |db.orders|
    ensures CancelOrder(db, order, statuses).Ok? <==> AllReturn(db, 0, OfOrder(order))
  {
    var marked := CancelRows(db, order, statuses);
    MarksKeepReturns(db, marked, OfOrder(order));
    RestoreFromAcceptedIff(marked, 0, OfOrder(order));
  }

  lemma {:induction false} RejectionNeedsKeys(db: Db, id: nat, store: I.StoreId, reason: string)
    requires WellPlaced(db)
    ensures Reject(db, id, store, reason).Ok? <==>
      && id < |db.storeOrders| && db.storeOrders[id].order < |db.orders| && db.storeOrders[id].store == store
      && Strip(reason) != "" && db.storeOrders[id].status in {StoreOrderStatus.Rejected, StoreOrderStatus.Pending}
      && AllReturn(db, 0, OfStoreOrder(id))
  {
    if id < |db.storeOrders| {
      var marked := RejectRow(db, id);
      MarksKeepReturns(db, marked, OfStoreOrder(id));
      RestoreFromAcceptedIff(marked, 0, OfStoreOrder(id));
    }
  }
}
