/** Runs of the whole shop: every interleaving of checkout, withdrawal, fulfilment and stock work. */
module OrderRuns {
  import opened Wrappers
  import opened Shopfront
  import opened Orders
  import opened OrderStock
  import opened OrderLaws
  import opened CancellationLaws
  import opened RejectionLaws
  import opened FulfilmentLaws
  import opened CheckoutSound
  import I = Inventory
  import L = InventoryLaws
  import R = InventoryRuns

  /** `since` is the earlier state in which a checkout locked and validated its rows. */
  datatype Event =
    | Move(movement: I.Movement)
    | ConvertOpening(product: I.ProductId, store: I.StoreId, why: string, reference: string)
    | InitialiseOpening
    | EditCatalogue(catalogue: Catalogue)
    | EditCart(customer: nat, lines: seq<CartLine>)
    | Place(req: Checkout, since: nat, early: bool)
    | RejectStoreOrder(id: nat, rejecting: I.StoreId, reason: string)
    | CustomerCancel(order: nat, requester: nat, reason: string)
    | AdminCancel(order: nat, hasActor: bool, reason: string)
    | Advance(id: nat, at: I.StoreId, portalOpen: bool, action: Action)
    | SetOrderStatus(order: nat, status: OrderStatus, note: string)
    | SetPayment(order: nat, payment: PaymentStatus, note: string)

  function Committed(now: Db, r: Result<Db, Error>): Db {
    match r
    case Ok(next) => next
    case Err(_) => now
  }

  function Next(past: seq<Db>, event: Event): Db
    requires past != []
  {
    var now := past[|past| - 1];
    match event
    case Move(m) => now.(stock := I.AfterMove(now.stock, m))
    case ConvertOpening(p, store, why, reference) =>
      (match I.Convert(now.stock, p, store, why, reference)
       case Ok(applied) => now.(stock := applied.after)
       case Err(_) => now)
    case InitialiseOpening => now.(stock := I.Initialise(now.stock))
    case EditCatalogue(catalogue) => now.(catalogue := catalogue)
    case EditCart(customer, lines) => now.(carts := now.carts[customer := lines])
    case Place(req, since, early) =>
      if since < |past| then PlaceOrder(past[since], now, early, req).after else now
    case RejectStoreOrder(id, store, reason) => Committed(now, Reject(now, id, store, reason))
    case CustomerCancel(order, customer, reason) => Committed(now, CancelByCustomer(now, order, customer, reason))
    case AdminCancel(order, hasActor, reason) => Committed(now, CancelByAdmin(now, order, hasActor, reason))
    case Advance(id, store, portalOpen, action) => Committed(now, Transition(now, id, store, portalOpen, action))
    case SetOrderStatus(order, status, note) => Committed(now, UpdateOrderStatus(now, order, status, note))
    case SetPayment(order, payment, note) => Committed(now, UpdatePayment(now, order, payment, note))
  }

  /**
   * What the database and the callers guarantee: manual references stay outside the order prefix,
   * carts hold one positive line per product, and the product rows a checkout locked stand still until
   * it inserts.
   */
  predicate Permitted(past: seq<Db>, event: Event)
    requires past != []
  {
    match event
    case Move(m) => !I.IsOrderReference(m.reference)
    case ConvertOpening(_, _, _, reference) => !I.IsOrderReference(reference)
    case EditCart(_, lines) => WellFormedCart(lines)
    case Place(req, since, _) =>
      since < |past|
      && (ReachesInsert(past[since], req) ==> LocksHeld(past[since], past[|past| - 1], req.customer))
    case _ => true
  }

  ghost predicate IsRun(states: seq<Db>, events: seq<Event>) {
    |states| == |events| + 1
    && forall i :: 0 <= i < |events| ==>
         Permitted(states[..i + 1], events[i]) && states[i + 1] == Next(states[..i + 1], events[i])
  }

  predicate CartsSound(db: Db) {
    forall c :: c in db.carts ==> WellFormedCart(db.carts[c])
  }

  /** The stock a step adds to `p` from outside the order engine. */
  function ManualDelta(now: Db, event: Event, p: I.ProductId): int {
    if event.Move? && event.movement.product == p && I.Apply(now.stock, event.movement, false).Ok?
    then I.Effect(event.movement) else 0
  }

  function ManualNet(states: seq<Db>, events: seq<Event>, n: nat, p: I.ProductId): int
    requires n <= |events| && |states| == |events| + 1
  {
    if n == 0 then 0 else ManualNet(states, events, n - 1, p) + ManualDelta(states[n - 1], events[n - 1], p)
  }

  // ----- Stock work outside orders -----

  /** Rows that carry no order reference leave every item's record as it was. */
  lemma {:induction false} ForeignRow(ledger: seq<I.Txn>, items: seq<Item>, row: I.Txn)
    requires R.UniqueReferences(ledger) && (forall k: nat :: Recorded(ledger, items, k))
    requires !I.IsOrderReference(row.reference)
    ensures R.UniqueReferences(ledger + [row]) && forall k: nat :: Recorded(ledger + [row], items, k)
  {
    R.PushUnique(ledger, row);
    forall k: nat ensures Recorded(ledger + [row], items, k) {
      assert Recorded(ledger, items, k);
      ReferencesDistinct(k, k);
      NewestPush(ledger, row, I.DeductReference(k));
      NewestPush(ledger, row, I.RestoreReference(k));
    }
  }

  lemma {:induction false} MoveSound(db: Db, m: I.Movement, keepStock: bool)
    requires Sound(db) && !I.IsOrderReference(m.reference) && (keepStock ==> m.kind == I.Opening)
    requires I.Apply(db.stock, m, keepStock).Ok?
    ensures var next := db.(stock := I.Apply(db.stock, m, keepStock).value.after);
      && Sound(next) && SameStores(db, next)
      && (forall p :: 0 <= p < |db.stock.products| ==>
            Claim(next, p) == Claim(db, p) + if p == m.product && !keepStock then I.Effect(m) else 0)
  {
    L.AppliedRow(db.stock, m, keepStock);
    var a := I.Apply(db.stock, m, keepStock).value;
    ForeignRow(db.stock.ledger, db.items, a.row);
    var next := db.(stock := a.after);
    forall k | 0 <= k < |next.items| ensures ItemPlaced(next.stock.products, next.storeOrders, next.items[k]) {
      assert ItemPlaced(db.stock.products, db.storeOrders, db.items[k]);
    }
  }

  lemma {:induction false} InitialiseSound(db: Db, from: nat)
    requires Sound(db)
    ensures var next := db.(stock := I.InitialiseFrom(db.stock, from));
      Sound(next) && SameClaims(db, next)
    decreases |db.stock.products| - from
  {
    if from < |db.stock.products| {
      if I.NeedsOpening(db.stock, from) {
        R.OpeningApplies(db.stock, from);
        var m := I.OpeningMovement(db.stock, from, db.stock.products[from].store, I.INITIALISED, "");
        MoveSound(db, m, true);
        InitialiseSound(db.(stock := I.Apply(db.stock, m, true).value.after), from + 1);
      } else {
        InitialiseSound(db, from + 1);
      }
    }
  }

  // ----- One step -----

  /** Checkout as a step: whatever the race, the invariant and every claim survive. */
  lemma {:induction false} PlaceSound(locked: Db, now: Db, early: bool, req: Checkout)
    requires Sound(now) && CartsSound(now) && CartsSound(locked)
    requires ReachesInsert(locked, req) ==> LocksHeld(locked, now, req.customer)
    ensures var next := PlaceOrder(locked, now, early, req).after;
      Sound(next) && CartsSound(next) && SameClaims(now, next)
  {
    if ReachesInsert(locked, req) && FindToken(now.orders, req.token).None? {
      LockedLinesReady(locked, now, req);
      CreateOrderGraphSound(now, req, ValidatedLines(locked, req).value);
    }
  }

  lemma {:induction false} NothingChanged(db: Db, order: nat)
    ensures OnlyOrder(db, db, order)
  {
  }

  lemma {:induction false} CustomerCancelSound(now: Db, order: nat, customer: nat, reason: string)
    requires Sound(now)
    ensures var next := Committed(now, CancelByCustomer(now, order, customer, reason));
      Sound(next) && OnlyOrder(now, next, order)
  {
    if CancelByCustomer(now, order, customer, reason).Ok? {
      assert OrderAgrees(now.orders[order], now.storeOrders, order);
      CustomerCovers(now, order);
      CancelOrderSound(now, order, CUSTOMER_CANCELABLE);
    } else {
      NothingChanged(now, order);
    }
  }

  lemma {:induction false} AdminCancelSound(now: Db, order: nat, hasActor: bool, reason: string)
    requires Sound(now)
    ensures var next := Committed(now, CancelByAdmin(now, order, hasActor, reason));
      Sound(next) && OnlyOrder(now, next, order)
  {
    if CancelByAdmin(now, order, hasActor, reason).Ok? {
      assert OrderAgrees(now.orders[order], now.storeOrders, order);
      AdminCovers(now, order);
      CancelOrderSound(now, order, ACTIVE);
    } else {
      NothingChanged(now, order);
    }
  }

  lemma {:induction false} RejectCommits(now: Db, id: nat, store: I.StoreId, reason: string)
    requires Sound(now) && Reject(now, id, store, reason).Ok?
    ensures var next := Reject(now, id, store, reason).value;
      Sound(next) && OnlyOrder(now, next, now.storeOrders[id].order)
  {
    RejectSound(now, id, store, reason);
  }

  /** The order a withdrawal or fulfilment event concerns. */
  function Concerns(now: Db, event: Event): nat {
    match event
    case CustomerCancel(order, _, _) => order
    case AdminCancel(order, _, _) => order
    case SetOrderStatus(order, _, _) => order
    case SetPayment(order, _, _) => order
    case RejectStoreOrder(id, _, _) => if id < |now.storeOrders| then now.storeOrders[id].order else 0
    case Advance(id, _, _, _) => if id < |now.storeOrders| then now.storeOrders[id].order else 0
    case _ => 0
  }

  predicate OnOneOrder(event: Event) {
    event.CustomerCancel? || event.AdminCancel? || event.SetOrderStatus? || event.SetPayment?
    || event.RejectStoreOrder? || event.Advance?
  }

  lemma {:induction false} OrderEventSound(past: seq<Db>, event: Event)
    requires past != [] && Sound(past[|past| - 1]) && OnOneOrder(event)
    ensures var now, next := past[|past| - 1], Next(past, event);
      Sound(next) && OnlyOrder(now, next, Concerns(now, event))
  {
    var now := past[|past| - 1];
    if Next(past, event) == now {
      NothingChanged(now, Concerns(now, event));
    } else {
      match event
      case RejectStoreOrder(id, store, reason) => RejectCommits(now, id, store, reason);
      case Advance(id, store, portalOpen, action) => TransitionSound(now, id, store, portalOpen, action);
      case SetOrderStatus(order, status, note) => UpdateOrderStatusSound(now, order, status, note);
      case SetPayment(order, payment, note) => UpdatePaymentSound(now, order, payment, note);
      case CustomerCancel(order, customer, reason) => CustomerCancelSound(now, order, customer, reason);
      case AdminCancel(order, hasActor, reason) => AdminCancelSound(now, order, hasActor, reason);
    }
  }

  lemma {:induction false} StepSound(past: seq<Db>, event: Event)
    requires past != [] && Permitted(past, event)
    requires Sound(past[|past| - 1]) && CartsSound(past[|past| - 1])
    requires event.Place? ==> CartsSound(past[event.since])
    ensures var now, next := past[|past| - 1], Next(past, event);
      && Sound(next) && CartsSound(next)
      && |next.stock.products| == |now.stock.products|
      && (forall p :: 0 <= p < |now.stock.products| ==> Claim(next, p) == Claim(now, p) + ManualDelta(now, event, p))
  {
    var now := past[|past| - 1];
    if OnOneOrder(event) {
      OrderEventSound(past, event);
    } else {
      match event
      case Move(m) =>
        if I.Apply(now.stock, m, false).Ok? {
          MoveSound(now, m, false);
        }
      case ConvertOpening(p, store, why, reference) =>
        if I.Convert(now.stock, p, store, why, reference).Ok? {
          MoveSound(now, I.OpeningMovement(now.stock, p, store, if why == "" then I.CONVERTED else why, reference), true);
        }
      case InitialiseOpening => InitialiseSound(now, 0);
      case EditCatalogue(catalogue) =>
      case EditCart(customer, lines) =>
      case Place(req, since, early) => PlaceSound(past[since], now, early, req);
    }
  }

  /**
   * Conservation over every run. What leaves the shelf is held by an unrestored order item and what
   * an item gives back returns to the shelf: for each product, stock plus held quantity changes by
   * the manual movements and by nothing else, and the whole invariant survives every step.
   */
  lemma {:induction false} RunConserves(states: seq<Db>, events: seq<Event>, n: nat)
    requires IsRun(states, events) && n <= |events|
    requires Sound(states[0]) && CartsSound(states[0])
    ensures Sound(states[n]) && CartsSound(states[n])
    ensures |states[n].stock.products| == |states[0].stock.products|
    ensures forall p :: 0 <= p < |states[0].stock.products| ==>
      Claim(states[n], p) == Claim(states[0], p) + ManualNet(states, events, n, p)
    decreases n
  {
    if n > 0 {
      RunConserves(states, events, n - 1);
      var past, event := states[..n], events[n - 1];
      assert Permitted(past, event) && states[n] == Next(past, event);
      if event.Place? {
        RunConserves(states, events, event.since);
      }
      StepSound(past, event);
    }
  }

  /** One step of a run, for an event that concerns a single order. */
  lemma {:induction false} RunOrderStep(states: seq<Db>, events: seq<Event>, i: nat)
    requires IsRun(states, events) && i < |events| && OnOneOrder(events[i]) && Sound(states[i])
    ensures OnlyOrder(states[i], states[i + 1], Concerns(states[i], events[i]))
  {
    var past := states[..i + 1];
    assert past[|past| - 1] == states[i];
    OrderEventSound(past, events[i]);
  }
}
