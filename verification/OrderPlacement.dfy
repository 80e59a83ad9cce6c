/** What holds over every run of the shop even when movements carry foreign references. */
module OrderPlacement {
  import opened Wrappers
  import opened Text
  import opened Sums
  import opened Shopfront
  import opened Sorting
  import opened Orders
  import opened OrderStock
  import opened CheckoutLaws
  import opened CheckoutSound
  import opened CheckoutTheorems
  import opened OrderRuns
  import opened OrderReferences
  import opened OrderLaws
  import opened OrderIdempotence
  import I = Inventory
  import R = InventoryRuns

  // ----- Stock -----

  predicate StocksStand(before: I.State, after: I.State) {
    && |after.products| == |before.products|
    && (forall p :: 0 <= p < |before.products| ==> after.products[p].store == before.products[p].store)
    && ((forall p :: 0 <= p < |before.products| ==> before.products[p].stock >= 0)
        ==> forall p :: 0 <= p < |after.products| ==> after.products[p].stock >= 0)
  }

  lemma {:induction false} MoveStands(s: I.State, m: I.Movement)
    ensures StocksStand(s, I.AfterMove(s, m))
  {
  }

  lemma {:induction false} CallStands(s: I.State, call: I.OrderCall)
    ensures StocksStand(s, I.OrderStock(s.ledger, s, false, call).after)
  {
    R.OrderStockIsMove(s.ledger, s, false, call);
    MoveStands(s, I.OrderMove(call));
  }

  /** Other stock under the same items and store orders. */
  lemma {:induction false} PlacedOnStock(db: Db, next: Db)
    requires WellPlaced(db) && StocksStand(db.stock, next.stock)
    requires next.items == db.items && next.storeOrders == db.storeOrders
    ensures WellPlaced(next)
  {
    forall k | 0 <= k < |next.items| ensures ItemPlaced(next.stock.products, next.storeOrders, next.items[k]) {
      assert ItemPlaced(db.stock.products, db.storeOrders, db.items[k]);
    }
  }

  // ----- Checkout -----

  /** The line names a product of the store whose order it goes into. */
  predicate LineBelongs(products: seq<I.ProductRow>, store: I.StoreId, line: Line) {
    line.product < |products| && products[line.product].store == store && line.quantity > 0
  }

  predicate LinesBelong(products: seq<I.ProductRow>, store: I.StoreId, lines: seq<Line>) {
    forall i :: 0 <= i < |lines| ==> LineBelongs(products, store, lines[i])
  }

  lemma {:induction false} AddLinePlaced(db: Db, storeOrder: nat, line: Line)
    requires WellPlaced(db) && storeOrder < |db.storeOrders| && AddLine(db, storeOrder, line).Ok?
    requires LineBelongs(db.stock.products, db.storeOrders[storeOrder].store, line)
    ensures var next := AddLine(db, storeOrder, line).value;
      WellPlaced(next) && StocksStand(db.stock, next.stock) && next.storeOrders == db.storeOrders
  {
    CallStands(db.stock, DeductionOf(db, line));
    var next := AddLine(db, storeOrder, line).value;
    forall k | 0 <= k < |next.items| ensures ItemPlaced(next.stock.products, next.storeOrders, next.items[k]) {
      if k < |db.items| {
        assert ItemPlaced(db.stock.products, db.storeOrders, db.items[k]);
      }
    }
  }

  lemma {:induction false} AddLinesPlaced(db: Db, storeOrder: nat, lines: seq<Line>)
    requires WellPlaced(db) && storeOrder < |db.storeOrders| && AddLines(db, storeOrder, lines).Ok?
    requires LinesBelong(db.stock.products, db.storeOrders[storeOrder].store, lines)
    ensures var next := AddLines(db, storeOrder, lines).value;
      WellPlaced(next) && StocksStand(db.stock, next.stock) && next.storeOrders == db.storeOrders
    decreases |lines|
  {
    if lines != [] {
      AddLinePlaced(db, storeOrder, lines[0]);
      AddLinesPlaced(AddLine(db, storeOrder, lines[0]).value, storeOrder, lines[1..]);
    }
  }

  predicate GroupBelongs(products: seq<I.ProductRow>, group: Group<Line>) {
    group.rows != [] && LinesBelong(products, group.rows[0].store, group.rows)
  }

  predicate GroupsBelong(products: seq<I.ProductRow>, groups: seq<Group<Line>>) {
    forall g :: 0 <= g < |groups| ==> GroupBelongs(products, groups[g])
  }

  lemma {:induction false} StartedPlaced(db: Db, order: nat, lines: seq<Line>)
    requires WellPlaced(db) && lines != []
    ensures WellPlaced(db.(storeOrders := db.storeOrders + [NewStoreOrder(order, lines)]))
  {
    var next := db.(storeOrders := db.storeOrders + [NewStoreOrder(order, lines)]);
    forall k | 0 <= k < |next.items| ensures ItemPlaced(next.stock.products, next.storeOrders, next.items[k]) {
      assert ItemPlaced(db.stock.products, db.storeOrders, db.items[k]);
    }
  }

  lemma {:induction false} GroupStillBelongs(before: I.State, after: I.State, group: Group<Line>)
    requires StocksStand(before, after) && GroupBelongs(before.products, group)
    ensures GroupBelongs(after.products, group)
  {
    forall i | 0 <= i < |group.rows| ensures LineBelongs(after.products, group.rows[0].store, group.rows[i]) {
      assert LineBelongs(before.products, group.rows[0].store, group.rows[i]);
    }
  }

  lemma {:induction false} GroupsStillBelong(before: I.State, after: I.State, groups: seq<Group<Line>>)
    requires StocksStand(before, after) && GroupsBelong(before.products, groups) && groups != []
    ensures GroupsBelong(after.products, groups[1..])
  {
    var rest := groups[1..];
    forall g | 0 <= g < |rest| ensures GroupBelongs(after.products, rest[g]) {
      assert GroupBelongs(before.products, groups[g + 1]);
      GroupStillBelongs(before, after, rest[g]);
    }
  }

  lemma {:induction false} AddStoreOrdersPlaced(db: Db, order: nat, groups: seq<Group<Line>>)
    requires WellPlaced(db) && Uniform(groups, StoreKey()) && AddStoreOrders(db, order, groups).Ok?
    requires GroupsBelong(db.stock.products, groups)
    ensures WellPlaced(AddStoreOrders(db, order, groups).value)
    decreases |groups|
  {
    if groups != [] {
      var lines := groups[0].rows;
      var started := db.(storeOrders := db.storeOrders + [NewStoreOrder(order, lines)]);
      StartedPlaced(db, order, lines);
      assert GroupBelongs(db.stock.products, groups[0]);
      AddLinesPlaced(started, |db.storeOrders|, lines);
      var next := AddLines(started, |db.storeOrders|, lines).value;
      GroupsStillBelong(db.stock, next.stock, groups);
      AddStoreOrdersPlaced(next, order, groups[1..]);
    }
  }

  lemma {:induction false} InFlatten(groups: seq<Group<Line>>, g: nat, i: nat)
    requires g < |groups| && i < |groups[g].rows|
    ensures groups[g].rows[i] in Flatten(groups)
  {
    var n := |groups| - 1;
    if g < n {
      InFlatten(groups[..n], g, i);
    }
  }

  lemma {:induction false} ValidatedGroupsBelong(locked: Db, now: Db, req: Checkout)
    requires WellFormedCart(CartOf(locked, req.customer))
    requires LocksHeld(locked, now, req.customer) && ValidatedLines(locked, req).Ok?
    ensures GroupsBelong(now.stock.products, StoreGroups(ValidatedLines(locked, req).value))
  {
    var lines := ValidatedLines(locked, req).value;
    var groups := StoreGroups(lines);
    LockedLinesReady(locked, now, req);
    GroupedLinesReady(now.stock.products, lines);
    forall g | 0 <= g < |groups| ensures GroupBelongs(now.stock.products, groups[g]) {
      forall i | 0 <= i < |groups[g].rows|
        ensures LineBelongs(now.stock.products, groups[g].rows[0].store, groups[g].rows[i])
      {
        InFlatten(groups, g, i);
        assert StoreKey()(groups[g].rows[i]) == groups[g].key == StoreKey()(groups[g].rows[0]);
      }
    }
  }

  lemma {:induction false} PlacePlaced(locked: Db, now: Db, early: bool, req: Checkout)
    requires WellPlaced(now) && WellFormedCart(CartOf(locked, req.customer))
    requires ReachesInsert(locked, req) ==> LocksHeld(locked, now, req.customer)
    ensures WellPlaced(PlaceOrder(locked, now, early, req).after)
  {
    if ReachesInsert(locked, req) {
      var lines := ValidatedLines(locked, req).value;
      if CreateOrderGraph(now, req, lines).Ok? {
        var placed := now.(orders := now.orders + [NewOrder(req, lines)]);
        ValidatedGroupsBelong(locked, now, req);
        AddStoreOrdersPlaced(placed, |now.orders|, StoreGroups(lines));
        var built := AddStoreOrders(placed, |now.orders|, StoreGroups(lines)).value;
        var next := CreateOrderGraph(now, req, lines).value;
        assert next == built.(carts := next.carts);
      }
    }
  }

  // ----- Withdrawals and fulfilment -----

  lemma {:induction false} RestoreFromPlaced(db: Db, from: nat, scope: Scope)
    requires WellPlaced(db) && RestoreFrom(db, from, scope).Ok?
    ensures WellPlaced(RestoreFrom(db, from, scope).value)
    decreases |db.items| - from
  {
    if from < |db.items| {
      if !InScope(db.storeOrders, db.items[from], scope) || db.items[from].restored {
        RestoreFromPlaced(db, from + 1, scope);
      } else {
        RestorationStaysPlaced(db, from);
        RestoreFromPlaced(RestoreItem(db, from).value, from + 1, scope);
      }
    }
  }

  /** Flags, statuses and totals may differ; what is placed where does not. */
  predicate SamePlaces(db: Db, next: Db) {
    && next.stock == db.stock && |next.items| == |db.items| && |next.storeOrders| == |db.storeOrders|
    && (forall j :: 0 <= j < |db.storeOrders| ==> next.storeOrders[j].store == db.storeOrders[j].store)
    && (forall k :: 0 <= k < |db.items| ==>
          && next.items[k].storeOrder == db.items[k].storeOrder && next.items[k].product == db.items[k].product
          && next.items[k].quantity == db.items[k].quantity)
  }

  lemma {:induction false} SamePlacesPlaced(db: Db, next: Db)
    requires WellPlaced(db) && SamePlaces(db, next)
    ensures WellPlaced(next)
  {
    forall k | 0 <= k < |next.items| ensures ItemPlaced(next.stock.products, next.storeOrders, next.items[k]) {
      assert ItemPlaced(db.stock.products, db.storeOrders, db.items[k]);
    }
  }

  lemma {:induction false} CancelPlaced(db: Db, order: nat, statuses: set<StoreOrderStatus>)
    requires WellPlaced(db) && order < |db.orders|
    ensures WellPlaced(Committed(db, CancelOrder(db, order, statuses)))
  {
    if CancelOrder(db, order, statuses).Ok? {
      var rows := CancelRows(db, order, statuses);
      SamePlacesPlaced(db, rows);
      RestoreFromPlaced(rows, 0, OfOrder(order));
      var restored := RestoreFrom(rows, 0, OfOrder(order)).value;
      SamePlacesPlaced(restored, CancelOrder(db, order, statuses).value);
    }
  }

  lemma {:induction false} RejectPlaced(db: Db, id: nat, store: I.StoreId, reason: string)
    requires WellPlaced(db)
    ensures WellPlaced(Committed(db, Reject(db, id, store, reason)))
  {
    if Reject(db, id, store, reason).Ok? {
      var rows := RejectRow(db, id);
      SamePlacesPlaced(db, rows);
      RestoreFromPlaced(rows, 0, OfStoreOrder(id));
      var restored := RestoreFrom(rows, 0, OfStoreOrder(id)).value;
      SamePlacesPlaced(restored, Reject(db, id, store, reason).value);
    }
  }

  // ----- Stock work -----

  lemma {:induction false} InitialisePlaced(db: Db)
    requires WellPlaced(db)
    ensures WellPlaced(db.(stock := I.Initialise(db.stock)))
  {
    R.InitialiseRecords(db.stock, 0, 0);
    PlacedOnStock(db, db.(stock := I.Initialise(db.stock)));
  }

  lemma {:induction false} ConversionPlaced(db: Db, p: I.ProductId, store: I.StoreId, why: string, reference: string)
    requires WellPlaced(db) && I.Convert(db.stock, p, store, why, reference).Ok?
    ensures WellPlaced(db.(stock := I.Convert(db.stock, p, store, why, reference).value.after))
  {
    R.ConversionKeepsReferences(db.stock, p, store, why, reference);
    PlacedOnStock(db, db.(stock := I.Convert(db.stock, p, store, why, reference).value.after));
  }

  // ----- Runs -----

  /** What locks and the cart's own constraint guarantee; references are free. */
  predicate Locking(past: seq<Db>, event: Event)
    requires past != []
  {
    match event
    case EditCart(_, lines) => WellFormedCart(lines)
    case Place(req, since, _) =>
      since < |past| && (ReachesInsert(past[since], req) ==> LocksHeld(past[since], past[|past| - 1], req.customer))
    case _ => true
  }

  predicate IsFulfilment(event: Event) {
    event.Advance? || event.SetOrderStatus? || event.SetPayment?
  }

  lemma {:induction false} FulfilmentStands(past: seq<Db>, event: Event)
    requires past != [] && IsFulfilment(event)
    ensures SamePlaces(past[|past| - 1], Next(past, event)) && Next(past, event).carts == past[|past| - 1].carts
  {
  }

  lemma {:induction false} OrderEventPlaced(past: seq<Db>, event: Event)
    requires past != [] && WellPlaced(past[|past| - 1]) && OnOneOrder(event)
    ensures WellPlaced(Next(past, event))
  {
    var now := past[|past| - 1];
    if IsFulfilment(event) {
      FulfilmentStands(past, event);
      SamePlacesPlaced(now, Next(past, event));
    } else {
      match event
      case RejectStoreOrder(id, store, reason) => RejectPlaced(now, id, store, reason);
      case CustomerCancel(order, _, _) =>
        if order < |now.orders| {
          CancelPlaced(now, order, CUSTOMER_CANCELABLE);
        }
      case AdminCancel(order, _, _) =>
        if order < |now.orders| {
          CancelPlaced(now, order, ACTIVE);
        }
    }
  }

  lemma {:induction false} StepPlaced(past: seq<Db>, event: Event)
    requires past != [] && Locking(past, event) && WellPlaced(past[|past| - 1])
    requires event.Place? ==> CartsSound(past[event.since])
    ensures WellPlaced(Next(past, event))
  {
    var now := past[|past| - 1];
    if OnOneOrder(event) {
      OrderEventPlaced(past, event);
    } else {
      match event
      case Move(m) => AnyMoveStaysPlaced(now, m);
      case ConvertOpening(p, store, why, reference) =>
        if I.Convert(now.stock, p, store, why, reference).Ok? {
          ConversionPlaced(now, p, store, why, reference);
        }
      case InitialiseOpening => InitialisePlaced(now);
      case EditCatalogue(_) =>
      case EditCart(_, _) =>
      case Place(req, since, early) => PlacePlaced(past[since], now, early, req);
    }
  }

  lemma {:induction false} RestoreFromCarts(db: Db, from: nat, scope: Scope)
    requires RestoreFrom(db, from, scope).Ok?
    ensures RestoreFrom(db, from, scope).value.carts == db.carts
    decreases |db.items| - from
  {
    if from < |db.items| {
      if !InScope(db.storeOrders, db.items[from], scope) || db.items[from].restored {
        RestoreFromCarts(db, from + 1, scope);
      } else {
        RestoreFromCarts(RestoreItem(db, from).value, from + 1, scope);
      }
    }
  }

  lemma {:induction false} CancelCarts(db: Db, order: nat, statuses: set<StoreOrderStatus>)
    requires order < |db.orders|
    ensures Committed(db, CancelOrder(db, order, statuses)).carts == db.carts
  {
    if CancelOrder(db, order, statuses).Ok? {
      RestoreFromCarts(CancelRows(db, order, statuses), 0, OfOrder(order));
    }
  }

  lemma {:induction false} RejectCarts(db: Db, id: nat, store: I.StoreId, reason: string)
    ensures Committed(db, Reject(db, id, store, reason)).carts == db.carts
  {
    if Reject(db, id, store, reason).Ok? {
      RestoreFromCarts(RejectRow(db, id), 0, OfStoreOrder(id));
    }
  }

  lemma {:induction false} OrderEventCarts(past: seq<Db>, event: Event)
    requires past != [] && OnOneOrder(event)
    ensures Next(past, event).carts == past[|past| - 1].carts
  {
    var now := past[|past| - 1];
    if IsFulfilment(event) {
      FulfilmentStands(past, event);
    } else {
      match event
      case RejectStoreOrder(id, store, reason) => RejectCarts(now, id, store, reason);
      case CustomerCancel(order, _, _) =>
        if order < |now.orders| {
          CancelCarts(now, order, CUSTOMER_CANCELABLE);
        }
      case AdminCancel(order, _, _) =>
        if order < |now.orders| {
          CancelCarts(now, order, ACTIVE);
        }
    }
  }

  lemma {:induction false} PlaceCarts(locked: Db, now: Db, early: bool, req: Checkout)
    ensures PlaceOrder(locked, now, early, req).after.carts in {now.carts, now.carts[req.customer := []]}
  {
    if ReachesInsert(locked, req) {
      var lines := ValidatedLines(locked, req).value;
      if CreateOrderGraph(now, req, lines).Ok? {
        AddStoreOrdersShape(now.(orders := now.orders + [NewOrder(req, lines)]), |now.orders|, StoreGroups(lines));
      }
    }
  }

  lemma {:induction false} StepKeepsCarts(past: seq<Db>, event: Event)
    requires past != [] && Locking(past, event) && CartsSound(past[|past| - 1])
    ensures CartsSound(Next(past, event))
  {
    var now := past[|past| - 1];
    if event.Place? {
      PlaceCarts(past[event.since], now, event.early, event.req);
    } else if OnOneOrder(event) {
      OrderEventCarts(past, event);
    }
  }

  ghost predicate IsLockedRun(states: seq<Db>, events: seq<Event>) {
    |states| == |events| + 1
    && forall i :: 0 <= i < |events| ==>
         Locking(states[..i + 1], events[i]) && states[i + 1] == Next(states[..i + 1], events[i])
  }

  /**
   * Over every run, whatever references its movements carry, items name products of their store and
   * no stock is below zero. So the exact acceptance of cancellations and rejections by their restore
   * keys holds in every state of every run.
   */
  lemma {:induction false} RunStaysPlaced(states: seq<Db>, events: seq<Event>, n: nat)
    requires IsLockedRun(states, events) && n <= |events|
    requires WellPlaced(states[0]) && CartsSound(states[0])
    ensures WellPlaced(states[n]) && CartsSound(states[n])
    decreases n
  {
    if n > 0 {
      RunStaysPlaced(states, events, n - 1);
      var past, event := states[..n], events[n - 1];
      assert Locking(past, event) && states[n] == Next(past, event) && past[|past| - 1] == states[n - 1];
      if event.Place? {
        RunStaysPlaced(states, events, event.since);
        assert past[event.since] == states[event.since];
      }
      StepPlaced(past, event);
      StepKeepsCarts(past, event);
    }
  }

  lemma {:induction false} CustomerCancelInRun(
      states: seq<Db>, events: seq<Event>, n: nat, order: nat, customer: nat, reason: string)
    requires IsLockedRun(states, events) && n <= |events| && StockSound(states[0]) && CartsSound(states[0])
    ensures WellPlaced(states[n])
    ensures CancelByCustomer(states[n], order, customer, reason).Ok? <==>
      && order < |states[n].orders| && states[n].orders[order].customer == customer && Strip(reason) != ""
      && CustomerMayCancel(states[n], order) && AllReturn(states[n], 0, OfOrder(order))
  {
    SoundStaysPlaced(states[0]);
    RunStaysPlaced(states, events, n);
    CustomerCancelNeedsKeys(states[n], order, customer, reason);
  }

  lemma {:induction false} AdminCancelInRun(
      states: seq<Db>, events: seq<Event>, n: nat, order: nat, hasActor: bool, reason: string)
    requires IsLockedRun(states, events) && n <= |events| && StockSound(states[0]) && CartsSound(states[0])
    ensures WellPlaced(states[n])
    ensures CancelByAdmin(states[n], order, hasActor, reason).Ok? <==>
      && hasActor && order < |states[n].orders| && Strip(reason) != "" && AdminMayCancel(states[n].orders[order])
      && AllReturn(states[n], 0, OfOrder(order))
  {
    SoundStaysPlaced(states[0]);
    RunStaysPlaced(states, events, n);
    AdminCancelNeedsKeys(states[n], order, hasActor, reason);
  }

  lemma {:induction false} RejectionInRun(states: seq<Db>, events: seq<Event>, n: nat, id: nat, store: I.StoreId, reason: string)
    requires IsLockedRun(states, events) && n <= |events| && StockSound(states[0]) && CartsSound(states[0])
    ensures WellPlaced(states[n])
    ensures Reject(states[n], id, store, reason).Ok? <==>
      && id < |states[n].storeOrders| && states[n].storeOrders[id].order < |states[n].orders|
      && states[n].storeOrders[id].store == store && Strip(reason) != ""
      && states[n].storeOrders[id].status in {StoreOrderStatus.Rejected, StoreOrderStatus.Pending}
      && AllReturn(states[n], 0, OfStoreOrder(id))
  {
    SoundStaysPlaced(states[0]);
    RunStaysPlaced(states, events, n);
    RejectionNeedsKeys(states[n], id, store, reason);
  }

  // ----- A blocked cancellation -----

  lemma {:induction false} SomethingIsHeld(before: seq<Item>, after: seq<Item>, lines: seq<Line>)
    requires lines != [] && forall i :: 0 <= i < |lines| ==> lines[i].quantity > 0
    requires before <= after
    requires Held(after, lines[0].product) == Held(before, lines[0].product) + Sum(lines, QuantityOf(lines[0].product))
    ensures |before| < |after|
  {
    SumAtLeast(lines, QuantityOf(lines[0].product), 0);
    assert after == before || |before| < |after|;
  }

  lemma {:induction false} SoldItemExists(db: Db, req: Checkout, lines: seq<Line>)
    requires lines != [] && LinesReady(db.stock.products, lines)
    requires CreateOrderGraph(db, req, lines).Ok? && db.items <= CreateOrderGraph(db, req, lines).value.items
    ensures |db.items| < |CreateOrderGraph(db, req, lines).value.items|
  {
    GraphHeld(db, req, lines, lines[0].product);
    assert forall i :: 0 <= i < |lines| ==> Supplied(db.stock.products, lines[i]);
    SomethingIsHeld(db.items, CreateOrderGraph(db, req, lines).value.items, lines);
  }

  lemma {:induction false} NewRowsPending(before: seq<StoreOrder>, order: nat, groups: seq<Group<Line>>)
    requires Uniform(groups, StoreKey()) && forall j :: 0 <= j < |before| ==> before[j].order < order
    ensures var rows := before + NewStoreOrders(order, groups);
      && (forall j :: 0 <= j < |rows| && rows[j].order == order ==> rows[j].status == StoreOrderStatus.Pending)
      && (forall j :: |before| <= j < |rows| ==> rows[j].order == order)
  {
  }

  lemma {:induction false} PendingMayCancel(next: Db, order: nat, item: Item)
    requires Linked(next) && order < |next.orders| && next.orders[order].status == OrderStatus.Placed
    requires ItemAgrees(next.storeOrders, item) && next.storeOrders[item.storeOrder].order == order
    requires forall j :: 0 <= j < |next.storeOrders| && next.storeOrders[j].order == order ==>
               next.storeOrders[j].status == StoreOrderStatus.Pending
    ensures CustomerMayCancel(next, order) && !item.restored && InScope(next.storeOrders, item, OfOrder(order))
  {
  }

  /** The order just placed has an item that holds stock, and its customer may still cancel it. */
  lemma {:induction false} NewOrderHolds(db: Db, req: Checkout, lines: seq<Line>)
    requires Sound(db) && FindToken(db.orders, req.token).None?
    requires lines != [] && LinesReady(db.stock.products, lines)
    ensures CreateOrderGraph(db, req, lines).Ok?
    ensures var next, k := CreateOrderGraph(db, req, lines).value, |db.items|;
      && Sound(next) && |next.orders| == |db.orders| + 1 && next.orders[|db.orders|].customer == req.customer
      && CustomerMayCancel(next, |db.orders|)
      && k < |next.items| && !next.items[k].restored && InScope(next.storeOrders, next.items[k], OfOrder(|db.orders|))
  {
    CreateOrderGraphSound(db, req, lines);
    SoldItemExists(db, req, lines);
    StoreGroupsPartition(lines);
    NewRowsPending(db.storeOrders, |db.orders|, StoreGroups(lines));
    var next := CreateOrderGraph(db, req, lines).value;
    var item := next.items[|db.items|];
    assert ItemAgrees(next.storeOrders, item);
    PendingMayCancel(next, |db.orders|, item);
  }

  /** A delivery of the item's own product, booked under the key its return would use. */
  function DeliveryUnder(db: Db, k: nat, quantity: int): I.Movement
    requires k < |db.items| && db.items[k].storeOrder < |db.storeOrders|
  {
    I.Movement(db.items[k].product, db.storeOrders[db.items[k].storeOrder].store, I.StockIn, quantity, "Delivery",
               I.RestoreReference(k), None, 0, None, None, None, None)
  }

  lemma {:induction false} DeliveryAccepted(db: Db, k: nat, quantity: int)
    requires StockSound(db) && k < |db.items| && !db.items[k].restored && quantity > 0
    ensures db.items[k].storeOrder < |db.storeOrders|
    ensures I.Apply(db.stock, DeliveryUnder(db, k, quantity), false).Ok?
  {
    assert Recorded(db.stock.ledger, db.items, k);
    assert ItemPlaced(db.stock.products, db.storeOrders, db.items[k]);
    ReferencesStripped(k);
    ReferencesDistinct(k, k);
  }

  /**
   * Every order can be blocked. Right after any checkout its customer may cancel; one ordinary
   * stock-in booked under the restore key of the order's first item, and neither the customer nor an
   * admin can any more.
   */
  lemma {:induction false} AnyOrderCanBeBlocked(db: Db, early: bool, req: Checkout, quantity: int, hasActor: bool, reason: string)
    requires Sound(db) && CartsSound(db) && ReachesInsert(db, req) && quantity > 0 && Strip(reason) != ""
    ensures var placed := PlaceOrder(db, db, early, req).after;
      CancelByCustomer(placed, |db.orders|, req.customer, reason).Ok?
    ensures var placed, k := PlaceOrder(db, db, early, req).after, |db.items|;
      && k < |placed.items| && placed.items[k].storeOrder < |placed.storeOrders|
      && I.Apply(placed.stock, DeliveryUnder(placed, k, quantity), false).Ok?
      && var after := placed.(stock := I.AfterMove(placed.stock, DeliveryUnder(placed, k, quantity)));
         && CancelByCustomer(after, |db.orders|, req.customer, reason).Err?
         && CancelByAdmin(after, |db.orders|, hasActor, reason).Err?
  {
    var lines, k := ValidatedLines(db, req).value, |db.items|;
    LockedLinesReady(db, db, req);
    NewOrderHolds(db, req, lines);
    var placed := CreateOrderGraph(db, req, lines).value;
    CustomerCancelAcceptedIff(placed, |db.orders|, req.customer, reason);
    DeliveryAccepted(placed, k, quantity);
    SoundStaysPlaced(placed);
    ForeignRowBlocks(placed, DeliveryUnder(placed, k, quantity), k, |db.orders|, req.customer, hasActor, 0, reason);
  }
}
