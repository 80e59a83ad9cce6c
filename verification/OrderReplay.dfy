/** The ledger replays to the shelf through whole runs of the shop, not only through stock work. */
module OrderReplay {
  import opened Sorting
  import opened Orders
  import opened OrderRuns
  import I = Inventory
  import L = InventoryLaws
  import R = InventoryRuns

  /** Rows are only added, and every ledger that replays before still replays after. */
  ghost predicate ReplayKept(before: I.State, after: I.State) {
    before.ledger <= after.ledger && forall initial :: L.AllReplay(before, initial) ==> L.AllReplay(after, initial)
  }

  lemma {:induction false} MoveReplay(s: I.State, m: I.Movement)
    ensures ReplayKept(s, I.AfterMove(s, m))
  {
    R.MoveKeepsReferences(s, m);
    forall initial | L.AllReplay(s, initial) ensures L.AllReplay(I.AfterMove(s, m), initial) {
      forall p | 0 <= p < |initial| ensures |I.AfterMove(s, m).products| == |s.products| && L.Replays(I.AfterMove(s, m), p, initial[p]) {
        L.MoveReplays(s, m, p, initial[p]);
      }
      assert |I.AfterMove(s, m).products| == |s.products|;
    }
  }

  lemma {:induction false} OrderCallReplay(s: I.State, call: I.OrderCall)
    ensures ReplayKept(s, I.OrderStock(s.ledger, s, false, call).after)
  {
    R.OrderStockIsMove(s.ledger, s, false, call);
    MoveReplay(s, I.OrderMove(call));
  }

  // ----- Checkout -----

  lemma {:induction false} AddLineReplay(db: Db, storeOrder: nat, line: Line)
    requires AddLine(db, storeOrder, line).Ok?
    ensures ReplayKept(db.stock, AddLine(db, storeOrder, line).value.stock)
  {
    OrderCallReplay(db.stock, I.DeductCall(line.product, line.store, line.quantity, I.DeductReference(|db.items|), "Order"));
  }

  lemma {:induction false} AddLinesReplay(db: Db, storeOrder: nat, lines: seq<Line>)
    requires AddLines(db, storeOrder, lines).Ok?
    ensures ReplayKept(db.stock, AddLines(db, storeOrder, lines).value.stock)
    decreases |lines|
  {
    if lines != [] {
      AddLineReplay(db, storeOrder, lines[0]);
      AddLinesReplay(AddLine(db, storeOrder, lines[0]).value, storeOrder, lines[1..]);
    }
  }

  lemma {:induction false} AddStoreOrdersReplay(db: Db, order: nat, groups: seq<Group<Line>>)
    requires Uniform(groups, StoreKey()) && AddStoreOrders(db, order, groups).Ok?
    ensures ReplayKept(db.stock, AddStoreOrders(db, order, groups).value.stock)
    decreases |groups|
  {
    if groups != [] {
      var lines := groups[0].rows;
      var started := db.(storeOrders := db.storeOrders + [NewStoreOrder(order, lines)]);
      AddLinesReplay(started, |db.storeOrders|, lines);
      AddStoreOrdersReplay(AddLines(started, |db.storeOrders|, lines).value, order, groups[1..]);
    }
  }

  lemma {:induction false} PlaceReplay(locked: Db, now: Db, early: bool, req: Checkout)
    ensures ReplayKept(now.stock, PlaceOrder(locked, now, early, req).after.stock)
  {
    if ReachesInsert(locked, req) {
      var lines := ValidatedLines(locked, req).value;
      if CreateOrderGraph(now, req, lines).Ok? {
        var placed := now.(orders := now.orders + [NewOrder(req, lines)]);
        AddStoreOrdersReplay(placed, |now.orders|, StoreGroups(lines));
      }
    }
  }

  // ----- Withdrawals -----

  lemma {:induction false} RestoreFromReplay(db: Db, from: nat, scope: Scope)
    requires RestoreFrom(db, from, scope).Ok?
    ensures ReplayKept(db.stock, RestoreFrom(db, from, scope).value.stock)
    decreases |db.items| - from
  {
    if from < |db.items| {
      var item := db.items[from];
      if !InScope(db.storeOrders, item, scope) || item.restored {
        RestoreFromReplay(db, from + 1, scope);
      } else {
        var call := I.RestoreCall(item.product, db.storeOrders[item.storeOrder].store, item.quantity,
                                  I.RestoreReference(from), "Order");
        OrderCallReplay(db.stock, call);
        RestoreFromReplay(RestoreItem(db, from).value, from + 1, scope);
      }
    }
  }

  lemma {:induction false} CancelReplay(db: Db, order: nat, statuses: set<StoreOrderStatus>)
    requires order < |db.orders|
    ensures ReplayKept(db.stock, Committed(db, CancelOrder(db, order, statuses)).stock)
  {
    if CancelOrder(db, order, statuses).Ok? {
      RestoreFromReplay(CancelRows(db, order, statuses), 0, OfOrder(order));
    }
  }

  lemma {:induction false} RejectReplay(db: Db, id: nat, store: I.StoreId, reason: string)
    ensures ReplayKept(db.stock, Committed(db, Reject(db, id, store, reason)).stock)
  {
    if Reject(db, id, store, reason).Ok? {
      RestoreFromReplay(RejectRow(db, id), 0, OfStoreOrder(id));
    }
  }

  // ----- Runs -----

  lemma {:induction false} InitialiseReplay(s: I.State)
    ensures ReplayKept(s, I.Initialise(s))
  {
    R.InitialiseRecords(s, 0, 0);
    forall initial | L.AllReplay(s, initial) ensures L.AllReplay(I.Initialise(s), initial) {
      forall p | 0 <= p < |initial| ensures L.Replays(I.Initialise(s), p, initial[p]) {
        R.InitialiseKeeps(s, 0, p, initial[p]);
      }
    }
  }

  /** A conversion is accepted although its product has rows. */
  predicate MeetsHistory(now: Db, event: Event) {
    event.ConvertOpening? && I.Convert(now.stock, event.product, event.store, event.why, event.reference).Ok?
    && I.HasHistory(now.stock.ledger, event.product)
  }

  lemma {:induction false} ConversionReplay(s: I.State, p: I.ProductId, store: I.StoreId, why: string, reference: string)
    requires I.Convert(s, p, store, why, reference).Ok? && !I.HasHistory(s.ledger, p)
    ensures ReplayKept(s, I.Convert(s, p, store, why, reference).value.after)
  {
    R.ConversionKeepsReferences(s, p, store, why, reference);
    var after := I.Convert(s, p, store, why, reference).value.after;
    forall initial | L.AllReplay(s, initial) ensures L.AllReplay(after, initial) {
      forall q | 0 <= q < |initial| ensures L.Replays(after, q, initial[q]) {
        R.ConversionReplays(s, p, store, why, reference, q, initial[q]);
      }
    }
  }

  lemma {:induction false} StepReplay(past: seq<Db>, event: Event)
    requires past != [] && !MeetsHistory(past[|past| - 1], event)
    ensures ReplayKept(past[|past| - 1].stock, Next(past, event).stock)
  {
    var now := past[|past| - 1];
    match event
    case Move(m) => MoveReplay(now.stock, m);
    case InitialiseOpening => InitialiseReplay(now.stock);
    case ConvertOpening(p, store, why, reference) =>
      if I.Convert(now.stock, p, store, why, reference).Ok? {
        ConversionReplay(now.stock, p, store, why, reference);
      }
    case Place(req, since, early) =>
      if since < |past| {
        PlaceReplay(past[since], now, early, req);
      }
    case RejectStoreOrder(id, store, reason) => RejectReplay(now, id, store, reason);
    case CustomerCancel(order, _, _) =>
      if order < |now.orders| {
        CancelReplay(now, order, CUSTOMER_CANCELABLE);
      }
    case AdminCancel(order, _, _) =>
      if order < |now.orders| {
        CancelReplay(now, order, ACTIVE);
      }
    case EditCatalogue(_) =>
    case EditCart(_, _) =>
    case Advance(_, _, _, _) =>
    case SetOrderStatus(_, _, _) =>
    case SetPayment(_, _, _) =>
  }

  lemma {:induction false} StepOnlyAppends(past: seq<Db>, event: Event)
    requires past != []
    ensures past[|past| - 1].stock.ledger <= Next(past, event).stock.ledger
  {
    var now := past[|past| - 1];
    if MeetsHistory(now, event) {
      R.ConversionKeepsReferences(now.stock, event.product, event.store, event.why, event.reference);
    } else {
      StepReplay(past, event);
    }
  }

  /** Steps of the shop, whatever references its movements carry. */
  ghost predicate IsHistory(states: seq<Db>, events: seq<Event>) {
    |states| == |events| + 1 && forall i :: 0 <= i < |events| ==> states[i + 1] == Next(states[..i + 1], events[i])
  }

  lemma {:induction false} LedgerGrows(states: seq<Db>, events: seq<Event>, i: nat, n: nat)
    requires IsHistory(states, events) && i <= n <= |events|
    ensures states[i].stock.ledger <= states[n].stock.ledger
  {
    if i < n {
      LedgerGrows(states, events, i, n - 1);
      assert states[n] == Next(states[..n], events[n - 1]);
      StepOnlyAppends(states[..n], events[n - 1]);
    }
  }

  lemma {:induction false} CleanShopReplays(states: seq<Db>, events: seq<Event>, initial: seq<int>, n: nat)
    requires IsHistory(states, events) && n <= |events| && L.AllReplay(states[0].stock, initial)
    requires forall i :: 0 <= i < n ==> !MeetsHistory(states[i], events[i])
    ensures L.AllReplay(states[n].stock, initial)
  {
    if n > 0 {
      CleanShopReplays(states, events, initial, n - 1);
      var past := states[..n];
      assert past[|past| - 1] == states[n - 1] && states[n] == Next(past, events[n - 1]);
      StepReplay(past, events[n - 1]);
    }
  }

  lemma {:induction false} BrokenShopStaysBroken(states: seq<Db>, events: seq<Event>, initial: seq<int>, i: nat, n: nat)
    requires IsHistory(states, events) && i < n <= |events|
    requires L.AllReplay(states[i].stock, initial) && MeetsHistory(states[i], events[i])
    ensures !L.AllReplay(states[n].stock, initial)
  {
    var s, event := states[i].stock, events[i];
    assert states[..i + 1][i] == states[i] && states[i + 1] == Next(states[..i + 1], event);
    R.DirectConversionChainsIff(s, event.product, event.store, event.why, event.reference, initial[event.product]);
    LedgerGrows(states, events, i + 1, n);
    if L.AllReplay(states[n].stock, initial) {
      assert L.Replays(states[n].stock, event.product, initial[event.product]);
      R.ChainedPrefix(states[i + 1].stock.ledger, states[n].stock.ledger, event.product);
    }
  }

  lemma {:induction false} FirstMeeting(states: seq<Db>, events: seq<Event>, n: nat) returns (i: nat)
    requires |states| == |events| + 1 && n <= |events|
    requires exists k :: 0 <= k < n && MeetsHistory(states[k], events[k])
    ensures i < n && MeetsHistory(states[i], events[i])
    ensures forall k :: 0 <= k < i ==> !MeetsHistory(states[k], events[k])
  {
    if k :| 0 <= k < n - 1 && MeetsHistory(states[k], events[k]) {
      i := FirstMeeting(states, events, n - 1);
    } else {
      i := n - 1;
    }
  }

  /**
   * In every run of the shop, whatever references its movements use, each product's ledger replays
   * from the catalogue balance to the shelf if and only if no conversion of opening stock was
   * accepted for a product that already had rows.
   */
  lemma {:induction false} ShopReplays(states: seq<Db>, events: seq<Event>, initial: seq<int>, n: nat)
    requires IsHistory(states, events) && n <= |events| && L.AllReplay(states[0].stock, initial)
    ensures L.AllReplay(states[n].stock, initial) <==> forall i :: 0 <= i < n ==> !MeetsHistory(states[i], events[i])
  {
    if exists k :: 0 <= k < n && MeetsHistory(states[k], events[k]) {
      var i := FirstMeeting(states, events, n);
      CleanShopReplays(states, events, initial, i);
      BrokenShopStaysBroken(states, events, initial, i, n);
    } else {
      CleanShopReplays(states, events, initial, n);
    }
  }
}
