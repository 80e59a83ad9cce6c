/** A checkout that passes validation places a consistent order; any other changes nothing. */
module CheckoutSound {
  import opened Sums
  import opened Shopfront
  import opened Sorting
  import opened Orders
  import opened OrderStock
  import opened OrderLaws
  import opened CheckoutLaws

  // ----- The new rows -----

  function NewStoreOrders(order: nat, groups: seq<Group<Line>>): seq<StoreOrder>
    requires Uniform(groups, StoreKey())
  {
    seq(|groups|, g requires 0 <= g < |groups| => NewStoreOrder(order, groups[g].rows))
  }

  lemma {:induction false} NewStoreOrdersCons(rows: seq<StoreOrder>, order: nat, groups: seq<Group<Line>>)
    requires Uniform(groups, StoreKey()) && groups != []
    ensures rows + NewStoreOrders(order, groups)
      == rows + [NewStoreOrder(order, groups[0].rows)] + NewStoreOrders(order, groups[1..])
  {
  }

  /** Items of the rows a state had before stay as they were, in front of the new ones. */
  lemma {:induction false} AddStoreOrdersShape(db: Db, order: nat, groups: seq<Group<Line>>)
    requires Uniform(groups, StoreKey()) && AddStoreOrders(db, order, groups).Ok?
    ensures var next := AddStoreOrders(db, order, groups).value;
      && next == db.(storeOrders := db.storeOrders + NewStoreOrders(order, groups), items := next.items, stock := next.stock)
      && db.items <= next.items
      && (forall k :: |db.items| <= k < |next.items| ==> next.items[k].storeOrder >= |db.storeOrders|)
    decreases |groups|
  {
    if groups == [] {
      assert db.storeOrders + NewStoreOrders(order, groups) == db.storeOrders;
    } else {
      var started := Started(db, order, groups[0].rows);
      AddLinesShape(started, |db.storeOrders|, groups[0].rows);
      var first := AddLines(started, |db.storeOrders|, groups[0].rows).value;
      AddStoreOrdersShape(first, order, groups[1..]);
      NewStoreOrdersCons(db.storeOrders, order, groups);
      NewItemsBehind(db, first.items, AddStoreOrders(db, order, groups).value.items, groups[0].rows);
    }
  }

  lemma {:induction false} NewItemsBehind(db: Db, first: seq<Item>, items: seq<Item>, lines: seq<Line>)
    requires first == db.items + NewItems(|db.storeOrders|, lines) && first <= items
    requires forall k :: |first| <= k < |items| ==> items[k].storeOrder > |db.storeOrders|
    ensures db.items <= items
    ensures forall k :: |db.items| <= k < |items| ==> items[k].storeOrder >= |db.storeOrders|
  {
  }

  /** A new store order's subtotal is the sum of the lines stored under it; older ones are untouched. */
  lemma {:induction false} GroupMoney(db: Db, order: nat, lines: seq<Line>, items: seq<Item>)
    requires StoreOrderMoney(db) && lines != [] && items == db.items + NewItems(|db.storeOrders|, lines)
    requires forall k :: 0 <= k < |db.items| ==> db.items[k].storeOrder < |db.storeOrders|
    ensures StoreOrderMoney(Started(db, order, lines).(items := items))
  {
    var n := |db.storeOrders|;
    var added := NewItems(n, lines);
    forall j | 0 <= j <= n
      ensures Started(db, order, lines).storeOrders[j].itemsSubtotal == Sum(items, LinesIn(j))
    {
      SumAppend(db.items, added, LinesIn(j));
      if j < n {
        SumZero(added, LinesIn(j));
      } else {
        SumZero(db.items, LinesIn(n));
        SumCongruent(added, lines, LinesIn(n), LineTotalOf());
      }
    }
  }

  lemma {:induction false} GroupAgrees(storeOrders: seq<StoreOrder>, order: nat, lines: seq<Line>, items: seq<Item>)
    requires lines != [] && forall k :: 0 <= k < |items| ==> ItemAgrees(storeOrders, items[k])
    ensures var after := storeOrders + [NewStoreOrder(order, lines)];
      forall k :: 0 <= k < |items + NewItems(|storeOrders|, lines)| ==>
        ItemAgrees(after, (items + NewItems(|storeOrders|, lines))[k])
  {
  }

  lemma {:induction false} AddStoreOrdersMoney(db: Db, order: nat, groups: seq<Group<Line>>)
    requires Uniform(groups, StoreKey()) && AddStoreOrders(db, order, groups).Ok?
    requires StoreOrderMoney(db) && forall k :: 0 <= k < |db.items| ==> ItemAgrees(db.storeOrders, db.items[k])
    ensures var next := AddStoreOrders(db, order, groups).value;
      StoreOrderMoney(next) && forall k :: 0 <= k < |next.items| ==> ItemAgrees(next.storeOrders, next.items[k])
    decreases |groups|
  {
    if groups != [] {
      var lines := groups[0].rows;
      var started := Started(db, order, lines);
      AddLinesShape(started, |db.storeOrders|, lines);
      var next := AddLines(started, |db.storeOrders|, lines).value;
      GroupMoney(db, order, lines, next.items);
      GroupAgrees(db.storeOrders, order, lines, db.items);
      AddStoreOrdersMoney(next, order, groups[1..]);
    }
  }

  // ----- The order row -----

  lemma {:induction false} NewRowsCharged(order: nat, groups: seq<Group<Line>>, o: nat)
    requires Uniform(groups, StoreKey())
    ensures Sum(NewStoreOrders(order, groups), ItemsCharged(o))
      == if o == order then Sum(Flatten(groups), LineTotalOf()) else 0
    ensures Sum(NewStoreOrders(order, groups), DeliveryCharged(o)) == 0
    decreases |groups|
  {
    SumZero(NewStoreOrders(order, groups), DeliveryCharged(o));
    if groups != [] {
      var row := NewStoreOrder(order, groups[0].rows);
      NewStoreOrdersCons([], order, groups);
      assert NewStoreOrders(order, groups) == [row] + NewStoreOrders(order, groups[1..]);
      NewRowsCharged(order, groups[1..], o);
      SumCons(row, NewStoreOrders(order, groups[1..]), ItemsCharged(o));
      FlattenCons(groups);
      SumAppend(groups[0].rows, Flatten(groups[1..]), LineTotalOf());
    }
  }

  lemma {:induction false} OldOrderKeeps(row: Order, rows: seq<StoreOrder>, added: seq<StoreOrder>, order: nat, o: nat)
    requires OrderAgrees(row, rows, o) && o != order
    requires forall j :: 0 <= j < |added| ==> added[j].order == order
    ensures OrderAgrees(row, rows + added, o)
  {
    SumAppend(rows, added, ItemsCharged(o));
    SumAppend(rows, added, DeliveryCharged(o));
    SumZero(added, ItemsCharged(o));
    SumZero(added, DeliveryCharged(o));
    if AnyCharged(rows, o) {
      var i :| 0 <= i < |rows| && Charged(rows[i], o);
      assert Charged((rows + added)[i], o);
    }
    if AnyCharged(rows + added, o) {
      var i :| 0 <= i < |rows + added| && Charged((rows + added)[i], o);
      assert Charged(rows[i], o);
    }
  }

  lemma {:induction false} NewOrderAgrees(req: Checkout, lines: seq<Line>, rows: seq<StoreOrder>, order: nat, groups: seq<Group<Line>>)
    requires Uniform(groups, StoreKey()) && groups != []
    requires Sum(Flatten(groups), LineTotalOf()) == Subtotal(lines)
    requires forall j :: 0 <= j < |rows| ==> rows[j].order < order
    ensures OrderAgrees(NewOrder(req, lines), rows + NewStoreOrders(order, groups), order)
  {
    var added := NewStoreOrders(order, groups);
    SumAppend(rows, added, ItemsCharged(order));
    SumAppend(rows, added, DeliveryCharged(order));
    SumZero(rows, ItemsCharged(order));
    SumZero(rows, DeliveryCharged(order));
    NewRowsCharged(order, groups, order);
    assert Charged((rows + added)[|rows|], order);
  }

  // ----- The whole checkout -----

  /**
   * What row locks guarantee from validation to INSERT: the products of the locked lines stand still.
   * The cart as a whole is not locked, so lines of other products may join it meanwhile.
   */
  predicate LocksHeld(locked: Db, now: Db, customer: nat) {
    forall i :: 0 <= i < |CartOf(locked, customer)| ==>
         var p := CartOf(locked, customer)[i].product;
         p < |locked.stock.products| ==> p < |now.stock.products| && now.stock.products[p] == locked.stock.products[p]
  }

  lemma {:induction false} LockedLinesReady(locked: Db, now: Db, req: Checkout)
    requires WellFormedCart(CartOf(locked, req.customer))
    requires LocksHeld(locked, now, req.customer) && ValidatedLines(locked, req).Ok?
    ensures var lines := ValidatedLines(locked, req).value;
      lines != [] && LinesReady(now.stock.products, lines)
  {
    var cart := SortBy(CartOf(locked, req.customer), ProductKey());
    var lines := ValidatedLines(locked, req).value;
    ValidatedLinesReady(locked, req);
    BuildLinesValidate(locked, cart, req.today);
    SortByKeeps(CartOf(locked, req.customer), ProductKey());
    PermutedMembers(CartOf(locked, req.customer), cart);
    forall i | 0 <= i < |lines| ensures Supplied(now.stock.products, lines[i]) {
      assert Validates(locked, cart[i], lines[i], req.today);
      assert cart[i] in CartOf(locked, req.customer);
    }
  }

  lemma {:induction false} PlacedStockSound(db: Db, req: Checkout, lines: seq<Line>)
    requires StockSound(db)
    ensures var placed := db.(orders := db.orders + [NewOrder(req, lines)]);
      StockSound(placed) && SameClaims(db, placed)
  {
  }

  /** Validated lines always become an order: no deduction can fail, and the invariant holds after. */
  lemma {:induction false} CreateOrderGraphSound(db: Db, req: Checkout, lines: seq<Line>)
    requires Sound(db) && FindToken(db.orders, req.token).None?
    requires lines != [] && LinesReady(db.stock.products, lines)
    ensures CreateOrderGraph(db, req, lines).Ok?
    ensures var next := CreateOrderGraph(db, req, lines).value;
      && Sound(next) && SameClaims(db, next) && SameStores(db, next)
      && db.stock.ledger <= next.stock.ledger
      && next.orders == db.orders + [NewOrder(req, lines)]
      && next.storeOrders == db.storeOrders + NewStoreOrders(|db.orders|, StoreGroups(lines))
      && db.items <= next.items
      && (forall k :: |db.items| <= k < |next.items| ==> next.items[k].storeOrder >= |db.storeOrders|)
      && next.carts == db.carts[req.customer := []] && next.catalogue == db.catalogue
  {
    var order, groups := |db.orders|, StoreGroups(lines);
    var placed := db.(orders := db.orders + [NewOrder(req, lines)]);
    PlacedStockSound(db, req, lines);
    StoreGroupsPartition(lines);
    GroupedLinesReady(db.stock.products, lines);
    AddStoreOrdersSound(placed, order, groups);
    AddStoreOrdersShape(placed, order, groups);
    AddStoreOrdersMoney(placed, order, groups);
    var built := AddStoreOrders(placed, order, groups).value;
    BuiltLinked(db, built, req, groups, NewOrder(req, lines));
    BuiltAgrees(db.orders, db.storeOrders, req, lines);
    ClearingCartKeeps(built, req.customer);
  }

  lemma {:induction false} BuiltLinked(db: Db, built: Db, req: Checkout, groups: seq<Group<Line>>, row: Order)
    requires Linked(db) && FindToken(db.orders, req.token).None? && row.token == req.token
    requires Uniform(groups, StoreKey())
    requires built.orders == db.orders + [row]
    requires built.storeOrders == db.storeOrders + NewStoreOrders(|db.orders|, groups)
    requires forall k :: 0 <= k < |built.items| ==> ItemAgrees(built.storeOrders, built.items[k])
    ensures Linked(built)
  {
  }

  lemma {:induction false} BuiltAgrees(orders: seq<Order>, rows: seq<StoreOrder>, req: Checkout, lines: seq<Line>)
    requires lines != []
    requires forall j :: 0 <= j < |rows| ==> rows[j].order < |orders|
    requires forall o :: 0 <= o < |orders| ==> OrderAgrees(orders[o], rows, o)
    ensures var after, n := orders + [NewOrder(req, lines)], |orders|;
      forall o :: 0 <= o < |after| ==>
        OrderAgrees(after[o], rows + NewStoreOrders(n, StoreGroups(lines)), o)
  {
    var order, groups := |orders|, StoreGroups(lines);
    var after := orders + [NewOrder(req, lines)];
    StoreGroupsPartition(lines);
    forall o | 0 <= o < |after| ensures OrderAgrees(after[o], rows + NewStoreOrders(order, groups), o) {
      if o < order {
        OldOrderKeeps(orders[o], rows, NewStoreOrders(order, groups), order, o);
      } else {
        NewOrderAgrees(req, lines, rows, order, groups);
      }
    }
  }

  lemma {:induction false} ClearingCartKeeps(built: Db, customer: nat)
    requires StockSound(built) && Linked(built) && StoreOrderMoney(built) && OrdersAgree(built)
    ensures var next := built.(carts := built.carts[customer := []]);
      Sound(next) && SameClaims(built, next)
  {
  }
}
