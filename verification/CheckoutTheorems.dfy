/** Checkout takes exactly the cart, once per token, or nothing at all. */
module CheckoutTheorems {
  import opened Wrappers
  import opened Sums
  import opened Shopfront
  import opened Sorting
  import opened Orders
  import opened OrderStock
  import opened OrderLaws
  import opened CheckoutLaws
  import opened CheckoutSound
  import opened OrderRuns
  import I = Inventory

  // ----- What a checkout takes -----

  function QuantityOf(p: I.ProductId): Line -> int {
    (line: Line) => if line.product == p then line.quantity else 0
  }

  function CartQuantity(p: I.ProductId): CartLine -> int {
    (line: CartLine) => if line.product == p then line.quantity else 0
  }

  lemma {:induction false} LinesHeld(items: seq<Item>, storeOrder: nat, lines: seq<Line>, p: I.ProductId)
    ensures Held(items + NewItems(storeOrder, lines), p) == Held(items, p) + Sum(lines, QuantityOf(p))
  {
    SumAppend(items, NewItems(storeOrder, lines), HeldOf(p));
    SumCongruent(NewItems(storeOrder, lines), lines, HeldOf(p), QuantityOf(p));
  }

  lemma {:induction false} GroupsHeld(db: Db, order: nat, groups: seq<Group<Line>>, p: I.ProductId)
    requires Uniform(groups, StoreKey()) && AddStoreOrders(db, order, groups).Ok?
    ensures Held(AddStoreOrders(db, order, groups).value.items, p) == Held(db.items, p) + Sum(Flatten(groups), QuantityOf(p))
    decreases |groups|
  {
    if groups != [] {
      var lines := groups[0].rows;
      var started := Started(db, order, lines);
      AddLinesShape(started, |db.storeOrders|, lines);
      var next := AddLines(started, |db.storeOrders|, lines).value;
      LinesHeld(db.items, |db.storeOrders|, lines, p);
      GroupsHeld(next, order, groups[1..], p);
      FlattenCons(groups);
      SumAppend(lines, Flatten(groups[1..]), QuantityOf(p));
    }
  }

  lemma {:induction false} LinesQuantity(db: Db, req: Checkout, p: I.ProductId)
    requires ValidatedLines(db, req).Ok?
    ensures Sum(ValidatedLines(db, req).value, QuantityOf(p)) == Sum(CartOf(db, req.customer), CartQuantity(p))
  {
    var cart := SortBy(CartOf(db, req.customer), ProductKey());
    var lines := ValidatedLines(db, req).value;
    BuildLinesValidate(db, cart, req.today);
    forall i | 0 <= i < |cart| ensures QuantityOf(p)(lines[i]) == CartQuantity(p)(cart[i]) {
      assert Validates(db, cart[i], lines[i], req.today);
    }
    SumCongruent(lines, cart, QuantityOf(p), CartQuantity(p));
    SortByKeeps(CartOf(db, req.customer), ProductKey());
    SumPermuted(cart, CartOf(db, req.customer), CartQuantity(p));
  }

  lemma {:induction false} GraphHeld(db: Db, req: Checkout, lines: seq<Line>, p: I.ProductId)
    requires CreateOrderGraph(db, req, lines).Ok?
    ensures Held(CreateOrderGraph(db, req, lines).value.items, p) == Held(db.items, p) + Sum(lines, QuantityOf(p))
  {
    var placed := db.(orders := db.orders + [NewOrder(req, lines)]);
    GroupsHeld(placed, |db.orders|, StoreGroups(lines), p);
    StoreGroupsPartition(lines);
    SumPermuted(Flatten(StoreGroups(lines)), lines, QuantityOf(p));
  }

  /**
   * A request whose validation passes always places its order, whatever rivals commit to rows it has
   * not locked, unless one of them takes its token. Each product's stock drops by exactly its cart
   * quantity, the cart is emptied, and the order is charged the sum of the lines validated.
   */
  lemma {:induction false} CheckoutTakesTheCart(locked: Db, now: Db, early: bool, req: Checkout, p: I.ProductId)
    requires Sound(now) && CartsSound(locked) && ReachesInsert(locked, req)
    requires LocksHeld(locked, now, req.customer) && FindToken(now.orders, req.token).None?
    requires p < |now.stock.products|
    ensures var placing := PlaceOrder(locked, now, early, req);
      && placing.result == Ok(|now.orders|)
      && p < |placing.after.stock.products|
      && placing.after.stock.products[p].stock
           == now.stock.products[p].stock - Sum(CartOf(locked, req.customer), CartQuantity(p))
      && CartOf(placing.after, req.customer) == []
      && |placing.after.orders| == |now.orders| + 1
      && placing.after.orders[|now.orders|].grandTotal == Subtotal(ValidatedLines(locked, req).value)
  {
    var lines := ValidatedLines(locked, req).value;
    LockedLinesReady(locked, now, req);
    CreateOrderGraphSound(now, req, lines);
    GraphHeld(now, req, lines, p);
    LinesQuantity(locked, req, p);
    var next := CreateOrderGraph(now, req, lines).value;
    assert Claim(now, p) == Claim(next, p);
  }

  /**
   * Of the products in the cart when the order is inserted, exactly those in the cart that was locked
   * are sold; the cart ends up empty in any case.
   */
  lemma {:induction false} OnlyLockedLinesSold(locked: Db, now: Db, early: bool, req: Checkout, p: I.ProductId)
    requires Sound(now) && CartsSound(locked) && ReachesInsert(locked, req)
    requires LocksHeld(locked, now, req.customer) && FindToken(now.orders, req.token).None?
    requires p < |now.stock.products|
    ensures var after := PlaceOrder(locked, now, early, req).after;
      && p < |after.stock.products| && CartOf(after, req.customer) == []
      && after.stock.products[p].stock <= now.stock.products[p].stock
      && (after.stock.products[p].stock < now.stock.products[p].stock <==>
            exists i :: 0 <= i < |CartOf(locked, req.customer)| && CartOf(locked, req.customer)[i].product == p)
  {
    CheckoutTakesTheCart(locked, now, early, req, p);
    var cart := CartOf(locked, req.customer);
    if i :| 0 <= i < |cart| && cart[i].product == p {
      SumAtLeast(cart, CartQuantity(p), i);
    } else {
      SumZero(cart, CartQuantity(p));
    }
  }

  /** The cart with one more line, as an addition by the same customer during the checkout leaves it. */
  function WithLine(db: Db, customer: nat, line: CartLine): Db {
    db.(carts := db.carts[customer := CartOf(db, customer) + [line]])
  }

  /**
   * A product added to the cart while its checkout is between locking and inserting is not in the
   * order, takes no stock, and is gone from the cart all the same.
   */
  lemma {:induction false} LateLineVanishes(locked: Db, early: bool, req: Checkout, line: CartLine)
    requires Sound(locked) && CartsSound(locked) && ReachesInsert(locked, req)
    requires line.product < |locked.stock.products|
    requires forall i :: 0 <= i < |CartOf(locked, req.customer)| ==> CartOf(locked, req.customer)[i].product != line.product
    ensures var now := WithLine(locked, req.customer, line);
      var placing := PlaceOrder(locked, now, early, req);
      && line in CartOf(now, req.customer) && placing.result == Ok(|locked.orders|)
      && CartOf(placing.after, req.customer) == []
      && line.product < |placing.after.stock.products|
      && placing.after.stock.products[line.product].stock == locked.stock.products[line.product].stock
  {
    var now := WithLine(locked, req.customer, line);
    OtherCartsSound(locked, now);
    CheckoutTakesTheCart(locked, now, early, req, line.product);
    OnlyLockedLinesSold(locked, now, early, req, line.product);
  }

  lemma {:induction false} OtherCartsSound(db: Db, next: Db)
    requires Sound(db) && next == db.(carts := next.carts)
    ensures Sound(next)
  {
    assert forall o :: 0 <= o < |next.orders| ==> OrderAgrees(next.orders[o], next.storeOrders, o);
  }

  /** A checkout that does not place a new order writes nothing. */
  lemma {:induction false} CheckoutAllOrNothing(locked: Db, now: Db, early: bool, req: Checkout)
    ensures var placing := PlaceOrder(locked, now, early, req);
      placing.after == now || (placing.result == Ok(|now.orders|) && FindToken(now.orders, req.token).None?
                               && |placing.after.orders| > |now.orders|)
  {
    if ReachesInsert(locked, req) {
      var lines := ValidatedLines(locked, req).value;
      if CreateOrderGraph(now, req, lines).Ok? {
        var placed := now.(orders := now.orders + [NewOrder(req, lines)]);
        AddStoreOrdersShape(placed, |now.orders|, StoreGroups(lines));
      }
    }
  }

  predicate FirstRefused(db: Db, cart: seq<CartLine>, today: int, i: nat) {
    && i < |cart| && BuildLine(db, cart[i], today).Err?
    && forall j :: 0 <= j < i ==> BuildLine(db, cart[j], today).Ok?
  }

  /** The first line that fails validation, in product order, is the one whose error is raised. */
  lemma {:induction false} RefusalNamesFirstLine(db: Db, cart: seq<CartLine>, today: int)
    ensures BuildLines(db, cart, today).Ok? ==> forall i :: 0 <= i < |cart| ==> BuildLine(db, cart[i], today).Ok?
    ensures BuildLines(db, cart, today).Err? ==>
      exists i: nat :: FirstRefused(db, cart, today, i)
                       && BuildLine(db, cart[i], today).error == BuildLines(db, cart, today).error
  {
    if cart != [] {
      var n := |cart| - 1;
      RefusalNamesFirstLine(db, cart[..n], today);
      if BuildLines(db, cart[..n], today).Err? {
        var i: nat :| FirstRefused(db, cart[..n], today, i)
          && BuildLine(db, cart[..n][i], today).error == BuildLines(db, cart[..n], today).error;
        assert FirstRefused(db, cart, today, i);
      } else {
        forall i | 0 <= i < n ensures BuildLine(db, cart[i], today).Ok? {
          assert cart[..n][i] == cart[i];
        }
        if BuildLine(db, cart[n], today).Err? {
          assert FirstRefused(db, cart, today, n);
        }
      }
    }
  }

  // ----- Rounding of the order total -----

  function RawTotal(): Line -> int {
    (line: Line) => line.unitPrice * line.quantity
  }

  /** With n lines the charged subtotal is within n/2 paise of the exact sum of price times quantity. */
  lemma {:induction false} SubtotalWithinHalfPaisePerLine(lines: seq<Line>)
    requires forall i :: 0 <= i < |lines| ==> lines[i].lineTotal == LineTotal(lines[i].unitPrice, lines[i].quantity)
    ensures -1000 * |lines| <= 2 * (1000 * Subtotal(lines) - Sum(lines, RawTotal())) <= 1000 * |lines|
  {
    if lines != [] {
      SubtotalWithinHalfPaisePerLine(lines[..|lines| - 1]);
    }
  }

  // ----- Tokens -----

  predicate OrdersPersist(a: Db, b: Db) {
    |a.orders| <= |b.orders|
    && forall o :: 0 <= o < |a.orders| ==>
         a.orders[o].token == b.orders[o].token && a.orders[o].customer == b.orders[o].customer
  }

  lemma {:induction false} PlacePersists(locked: Db, now: Db, early: bool, req: Checkout)
    ensures OrdersPersist(now, PlaceOrder(locked, now, early, req).after)
  {
    if ReachesInsert(locked, req) {
      var lines := ValidatedLines(locked, req).value;
      if CreateOrderGraph(now, req, lines).Ok? {
        var placed := now.(orders := now.orders + [NewOrder(req, lines)]);
        AddStoreOrdersShape(placed, |now.orders|, StoreGroups(lines));
      }
    }
  }

  lemma {:induction false} StepPersists(past: seq<Db>, event: Event)
    requires past != [] && Sound(past[|past| - 1])
    ensures OrdersPersist(past[|past| - 1], Next(past, event))
  {
    var now := past[|past| - 1];
    if OnOneOrder(event) {
      OrderEventSound(past, event);
    } else if event.Place? && event.since < |past| {
      PlacePersists(past[event.since], now, event.early, event.req);
    }
  }

  lemma {:induction false} RunPersists(states: seq<Db>, events: seq<Event>, i: nat, j: nat)
    requires IsRun(states, events) && i <= j <= |events|
    requires Sound(states[0]) && CartsSound(states[0])
    ensures OrdersPersist(states[i], states[j])
    decreases j
  {
    if i < j {
      RunPersists(states, events, i, j - 1);
      RunConserves(states, events, j - 1);
      assert states[j] == Next(states[..j], events[j - 1]);
      assert states[..j][|states[..j]| - 1] == states[j - 1];
      StepPersists(states[..j], events[j - 1]);
    }
  }

  lemma {:induction false} TokenFoundOnce(orders: seq<Order>, id: nat, token: string)
    requires UniqueTokens(orders) && id < |orders| && orders[id].token == token
    ensures FindToken(orders, token) == Some(id)
  {
  }

  /** Two orders of a run never share a token. */
  lemma {:induction false} OneOrderPerToken(states: seq<Db>, events: seq<Event>, n: nat, a: nat, b: nat)
    requires IsRun(states, events) && n <= |events| && Sound(states[0]) && CartsSound(states[0])
    requires a < |states[n].orders| && b < |states[n].orders| && states[n].orders[a].token == states[n].orders[b].token
    ensures a == b
  {
    RunConserves(states, events, n);
  }

  /**
   * Once a token has its order, any request with that token, retry or race loser, at any later point
   * of the run changes nothing. A retry that starts after the order exists gets that order, or is
   * turned away if it is another customer's.
   */
  lemma {:induction false} RetryChangesNothing(
    states: seq<Db>, events: seq<Event>, i: nat, since: nat, j: nat, id: nat, early: bool, req: Checkout)
    requires IsRun(states, events) && Sound(states[0]) && CartsSound(states[0])
    requires i <= j <= |events| && since <= j
    requires id < |states[i].orders| && states[i].orders[id].token == req.token != ""
    ensures var again, owner := PlaceOrder(states[since], states[j], early, req), states[i].orders[id].customer;
      && again.after == states[j]
      && (again.result.Ok? ==> again.result == Ok(id) && req.customer == owner)
      && (since >= i ==> again.result == if req.customer == owner then Ok(id) else Err(InvalidToken))
      && (again.result == Ok(id) <==>
            req.customer == owner
            && (FindToken(states[since].orders, req.token).Some? || (!early && ValidatedLines(states[since], req).Ok?)))
  {
    RunPersists(states, events, i, j);
    RunConserves(states, events, j);
    RunConserves(states, events, since);
    TokenFoundOnce(states[j].orders, id, req.token);
    RunPersists(states, events, since, j);
    if since >= i {
      RunPersists(states, events, i, since);
      TokenFoundOnce(states[since].orders, id, req.token);
    }
    EarlierTokenSameOrder(states[since], states[j], req.token, id);
  }

  lemma {:induction false} EarlierTokenSameOrder(a: Db, b: Db, token: string, id: nat)
    requires OrdersPersist(a, b) && UniqueTokens(b.orders)
    requires id < |b.orders| && b.orders[id].token == token
    ensures FindToken(a.orders, token).Some? ==>
      FindToken(a.orders, token) == Some(id) && a.orders[id].customer == b.orders[id].customer
  {
  }
}
