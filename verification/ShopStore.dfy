/** Checkout, rejection and cancellation as they run: loops over locked rows inside one transaction. */
module ShopStore {
  import opened Wrappers
  import opened Text
  import opened Sums
  import opened Shopfront
  import opened Sorting
  import opened Orders
  import I = Inventory
  import S = InventoryStore

  /** A line that fails validation fails the whole cart, whatever follows it. */
  lemma {:induction false} RefusedPrefix(db: Db, cart: seq<CartLine>, today: int, i: nat)
    requires i < |cart| && BuildLines(db, cart[..i + 1], today).Err?
    ensures BuildLines(db, cart, today) == BuildLines(db, cart[..i + 1], today)
  {
    var n := |cart| - 1;
    if i == n {
      assert cart[..i + 1] == cart;
    } else {
      assert cart[..n][..i + 1] == cart[..i + 1];
      RefusedPrefix(db, cart[..n], today, i);
    }
  }

  lemma {:induction false} AnyChargedPush(rows: seq<StoreOrder>, row: StoreOrder, order: nat)
    ensures AnyCharged(rows + [row], order) <==> AnyCharged(rows, order) || Charged(row, order)
  {
    var after := rows + [row];
    if AnyCharged(rows, order) {
      var i :| 0 <= i < |rows| && Charged(rows[i], order);
      assert Charged(after[i], order);
    }
    if Charged(row, order) {
      assert Charged(after[|rows|], order);
    }
  }

  lemma {:induction false} AddLinesFrom(db: Db, storeOrder: nat, lines: seq<Line>, i: nat, added: Result<Db, Error>)
    requires i < |lines| && added == AddLine(db, storeOrder, lines[i])
    ensures AddLines(db, storeOrder, lines[i..]) ==
      match added
      case Err(error) => Err(error)
      case Ok(next) => AddLines(next, storeOrder, lines[i + 1..])
  {
    assert lines[i..][1..] == lines[i + 1..];
  }

  class ShopStore {
    const inventory: S.InventoryStore
    var catalogue: Catalogue
    var carts: map<nat, seq<CartLine>>
    var orders: seq<Order>
    var storeOrders: seq<StoreOrder>
    var items: seq<Item>

    function Current(): Db
      reads this, inventory
    {
      Db(inventory.Current(), catalogue, carts, orders, storeOrders, items)
    }

    constructor (db: Db)
      ensures Current() == db && fresh(inventory)
    {
      inventory := new S.InventoryStore(db.stock.products, db.stock.ledger);
      catalogue, carts := db.catalogue, db.carts;
      orders, storeOrders, items := db.orders, db.storeOrders, db.items;
    }

    /** Puts every table back, as a rollback does, or brings in what others have committed. */
    method Load(db: Db)
      modifies this, inventory
      ensures Current() == db
    {
      inventory.products, inventory.ledger := db.stock.products, db.stock.ledger;
      catalogue, carts := db.catalogue, db.carts;
      orders, storeOrders, items := db.orders, db.storeOrders, db.items;
    }

    // ----- orders/checkout.py -----

    method BuildValidatedLines(cart: seq<CartLine>, today: int) returns (r: Result<seq<Line>, Error>)
      ensures r == BuildLines(Current(), cart, today)
    {
      var lines := [];
      var i := 0;
      while i < |cart|
        invariant i <= |cart| && BuildLines(Current(), cart[..i], today) == Ok(lines)
      {
        assert cart[..i + 1][..i] == cart[..i];
        var line := BuildLine(Current(), cart[i], today);
        if line.Err? {
          RefusedPrefix(Current(), cart, today, i);
          return Err(line.error);
        }
        lines := lines + [line.value];
        i := i + 1;
      }
      assert cart[..i] == cart;
      return Ok(lines);
    }

    method PlaceOrderItem(storeOrder: nat, line: Line) returns (failure: Option<Error>)
      modifies this, inventory
      ensures match AddLine(old(Current()), storeOrder, line)
        case Ok(next) => failure.None? && Current() == next
        case Err(error) => failure == Some(error)
    {
      var item := |items|;
      items := items + [NewItem(storeOrder, line)];
      var txn := inventory.DeductOrderStock(line.product, line.store, line.quantity, I.DeductReference(item), "Order", [], false);
      return if txn.Err? then Some(StockRefused(txn.error)) else None;
    }

    method PlaceStoreOrder(order: nat, lines: seq<Line>) returns (failure: Option<Error>)
      requires lines != []
      modifies this, inventory
      ensures match AddLines(old(Current()).(storeOrders := old(storeOrders) + [NewStoreOrder(order, lines)]), |old(storeOrders)|, lines)
        case Ok(next) => failure.None? && Current() == next
        case Err(error) => failure == Some(error)
    {
      var id := |storeOrders|;
      storeOrders := storeOrders + [NewStoreOrder(order, lines)];
      failure := PlaceLines(id, lines);
    }

    method PlaceLines(storeOrder: nat, lines: seq<Line>) returns (failure: Option<Error>)
      modifies this, inventory
      ensures match AddLines(old(Current()), storeOrder, lines)
        case Ok(next) => failure.None? && Current() == next
        case Err(error) => failure == Some(error)
    {
      ghost var started := Current();
      var i := 0;
      while i < |lines|
        invariant i <= |lines|
        invariant AddLines(Current(), storeOrder, lines[i..]) == AddLines(started, storeOrder, lines)
      {
        ghost var before := Current();
        failure := PlaceOrderItem(storeOrder, lines[i]);
        AddLinesFrom(before, storeOrder, lines, i, AddLine(before, storeOrder, lines[i]));
        if failure.Some? {
          return;
        }
        i := i + 1;
      }
      return None;
    }

    method PlaceStoreOrders(order: nat, groups: seq<Group<Line>>) returns (failure: Option<Error>)
      requires Uniform(groups, StoreKey())
      modifies this, inventory
      ensures match AddStoreOrders(old(Current()), order, groups)
        case Ok(next) => failure.None? && Current() == next
        case Err(error) => failure == Some(error)
    {
      ghost var started := Current();
      var g := 0;
      while g < |groups|
        invariant g <= |groups|
        invariant AddStoreOrders(Current(), order, groups[g..]) == AddStoreOrders(started, order, groups)
      {
        assert groups[g..][1..] == groups[g + 1..];
        failure := PlaceStoreOrder(order, groups[g].rows);
        if failure.Some? {
          return;
        }
        g := g + 1;
      }
      return None;
    }

    /** `atInsert` is what this transaction's INSERT finds committed once its own rows are locked. */
    method PlaceCustomerOrder(req: Checkout, atInsert: Db, early: bool) returns (r: Result<nat, Error>)
      modifies this, inventory
      ensures var now := if ReachesInsert(old(Current()), req) then atInsert else old(Current());
        var placing := PlaceOrder(old(Current()), now, early, req);
        Current() == placing.after && r == placing.result
    {
      if req.token == "" { return Err(TokenRequired); }
      var existing := FindToken(orders, req.token);
      if existing.Some? {
        return ExistingOrder(orders[existing.value], existing.value, req.customer);
      }
      var cart := SortBy(CartOf(Current(), req.customer), ProductKey());
      if cart == [] { return Err(EmptyCart); }
      var built := BuildValidatedLines(cart, req.today);
      if built.Err? { return Err(built.error); }
      if !req.fulfilmentOk { return Err(FulfilmentRefused); }
      var lines := built.value;

      Load(atInsert);
      existing := FindToken(orders, req.token);
      if existing.Some? {
        return if early then Err(DuplicateToken)
               else ExistingOrder(orders[existing.value], existing.value, req.customer);
      }
      var id := |orders|;
      orders := orders + [NewOrder(req, lines)];
      var failure := PlaceStoreOrders(id, StoreGroups(lines));
      if failure.Some? {
        Load(atInsert);
        return Err(failure.value);
      }
      carts := carts[req.customer := []];
      return Ok(id);
    }

    // ----- orders/cancellation.py -----

    method RestoreItemStock(k: nat) returns (failure: Option<Error>)
      requires k < |items| && items[k].storeOrder < |storeOrders|
      modifies this, inventory
      ensures match RestoreItem(old(Current()), k)
        case Ok(next) => failure.None? && Current() == next
        case Err(error) => failure == Some(error)
    {
      var item := items[k];
      var txn := inventory.RestoreOrderStock(item.product, storeOrders[item.storeOrder].store, item.quantity,
                                             I.RestoreReference(k), "Order", [], false);
      if txn.Err? {
        return Some(StockRefused(txn.error));
      }
      items := items[k := item.(restored := true)];
      return None;
    }

    method RestoreOrderItemsStock(scope: Scope) returns (failure: Option<Error>)
      modifies this, inventory
      ensures match RestoreFrom(old(Current()), 0, scope)
        case Ok(next) => failure.None? && Current() == next
        case Err(error) => failure == Some(error)
    {
      var k := 0;
      while k < |items|
        invariant k <= |items|
        invariant RestoreFrom(Current(), k, scope) == RestoreFrom(old(Current()), 0, scope)
        decreases |items| - k
      {
        if InScope(storeOrders, items[k], scope) && !items[k].restored {
          failure := RestoreItemStock(k);
          if failure.Some? {
            return;
          }
        }
        k := k + 1;
      }
      return None;
    }

    method MarkOrderItemsCancelled(scope: Scope)
      modifies this`items
      ensures items == MarkCancelled(storeOrders, old(items), scope)
    {
      var k := 0;
      while k < |items|
        invariant k <= |items| == |old(items)|
        invariant forall j :: 0 <= j < |items| ==>
          items[j] == if j < k then MarkCancelled(storeOrders, old(items), scope)[j] else old(items)[j]
      {
        if InScope(storeOrders, items[k], scope) {
          items := items[k := items[k].(cancelled := true)];
        }
        k := k + 1;
      }
    }

    method MarkOrderItemsRejected(scope: Scope)
      modifies this`items
      ensures items == MarkRejected(storeOrders, old(items), scope)
    {
      var k := 0;
      while k < |items|
        invariant k <= |items| == |old(items)|
        invariant forall j :: 0 <= j < |items| ==>
          items[j] == if j < k then MarkRejected(storeOrders, old(items), scope)[j] else old(items)[j]
      {
        if InScope(storeOrders, items[k], scope) {
          items := items[k := items[k].(rejected := true)];
        }
        k := k + 1;
      }
    }

    method CancelStoreOrderRows(order: nat, statuses: set<StoreOrderStatus>)
      modifies this`storeOrders
      ensures storeOrders == CancelStoreOrders(old(storeOrders), order, statuses)
    {
      var i := 0;
      while i < |storeOrders|
        invariant i <= |storeOrders| == |old(storeOrders)|
        invariant forall j :: 0 <= j < |storeOrders| ==>
          storeOrders[j] == if j < i then CancelStoreOrders(old(storeOrders), order, statuses)[j] else old(storeOrders)[j]
      {
        if storeOrders[i].order == order && storeOrders[i].status in statuses {
          storeOrders := storeOrders[i := storeOrders[i].(status := StoreOrderStatus.Cancelled)];
        }
        i := i + 1;
      }
    }

    method RecalculateOrderPayableTotals(order: nat)
      requires order < |orders|
      modifies this`orders
      ensures orders == old(orders)[order := Recalculate(old(orders)[order], storeOrders, order)]
    {
      var charge, delivery, chargeable := 0, 0, false;
      var i := 0;
      while i < |storeOrders|
        invariant i <= |storeOrders| && orders == old(orders)
        invariant charge == Sum(storeOrders[..i], ItemsCharged(order)) >= 0
        invariant delivery == Sum(storeOrders[..i], DeliveryCharged(order)) >= 0
        invariant chargeable == AnyCharged(storeOrders[..i], order)
      {
        assert storeOrders[..i + 1] == storeOrders[..i] + [storeOrders[i]];
        SumPush(storeOrders[..i], storeOrders[i], ItemsCharged(order));
        SumPush(storeOrders[..i], storeOrders[i], DeliveryCharged(order));
        AnyChargedPush(storeOrders[..i], storeOrders[i], order);
        if Charged(storeOrders[i], order) {
          chargeable := true;
          charge := charge + storeOrders[i].itemsSubtotal;
          delivery := delivery + storeOrders[i].deliveryCharge;
        }
        i := i + 1;
      }
      assert storeOrders[..i] == storeOrders;
      var row := orders[order];
      var discount := if chargeable then Rescale(row.discount, charge, row.itemsSubtotal) else 0;
      orders := orders[order := row.(itemsSubtotal := charge, deliveryCharge := delivery, discount := discount,
                                     grandTotal := GrandTotal(charge, delivery, discount))];
    }

    /** The part of a cancellation both services share, once their guards have passed. */
    method Cancel(order: nat, statuses: set<StoreOrderStatus>) returns (failure: Option<Error>)
      requires order < |orders|
      modifies this, inventory
      ensures match CancelOrder(old(Current()), order, statuses)
        case Ok(next) => failure.None? && Current() == next
        case Err(error) => failure == Some(error) && Current() == old(Current())
    {
      var savepoint := Current();
      if orders[order].status != OrderStatus.Cancelled {
        CancelStoreOrderRows(order, statuses);
        var row := orders[order];
        orders := orders[order := row.(status := OrderStatus.Cancelled, payment := CancelPayment(row.payment))];
        MarkOrderItemsCancelled(OfOrder(order));
      }
      assert Current() == CancelRows(savepoint, order, statuses);
      failure := RestoreOrderItemsStock(OfOrder(order));
      if failure.Some? {
        Load(savepoint);
        return;
      }
      MarkOrderItemsCancelled(OfOrder(order));
      RecalculateOrderPayableTotals(order);
    }

    method CancelCustomerOrder(order: nat, customer: nat, reason: string) returns (failure: Option<Error>)
      modifies this, inventory
      ensures match CancelByCustomer(old(Current()), order, customer, reason)
        case Ok(next) => failure.None? && Current() == next
        case Err(error) => failure == Some(error) && Current() == old(Current())
    {
      if order >= |orders| { return Some(NotFound); }
      if orders[order].customer != customer { return Some(PermissionDenied); }
      if Strip(reason) == "" { return Some(ReasonRequired); }
      if !CustomerMayCancel(Current(), order) { return Some(StatusRefused); }
      failure := Cancel(order, CUSTOMER_CANCELABLE);
    }

    method CancelOrderByAdmin(order: nat, hasActor: bool, reason: string) returns (failure: Option<Error>)
      modifies this, inventory
      ensures match CancelByAdmin(old(Current()), order, hasActor, reason)
        case Ok(next) => failure.None? && Current() == next
        case Err(error) => failure == Some(error) && Current() == old(Current())
    {
      if !hasActor { return Some(ActorRequired); }
      if order >= |orders| { return Some(NotFound); }
      if Strip(reason) == "" { return Some(ReasonRequired); }
      if !AdminMayCancel(orders[order]) { return Some(StatusRefused); }
      failure := Cancel(order, ACTIVE);
    }

    method RejectStoreOrder(id: nat, store: I.StoreId, reason: string) returns (failure: Option<Error>)
      modifies this, inventory
      ensures match Reject(old(Current()), id, store, reason)
        case Ok(next) => failure.None? && Current() == next
        case Err(error) => failure == Some(error) && Current() == old(Current())
    {
      if id >= |storeOrders| || storeOrders[id].order >= |orders| { return Some(NotFound); }
      var row := storeOrders[id];
      if row.store != store { return Some(PermissionDenied); }
      if Strip(reason) == "" { return Some(ReasonRequired); }
      if row.status !in {StoreOrderStatus.Rejected, StoreOrderStatus.Pending} { return Some(StatusRefused); }

      var savepoint := Current();
      if row.status != StoreOrderStatus.Rejected {
        storeOrders := storeOrders[id := row.(status := StoreOrderStatus.Rejected)];
        MarkOrderItemsRejected(OfStoreOrder(id));
      }
      assert Current() == RejectRow(savepoint, id);
      failure := RestoreOrderItemsStock(OfStoreOrder(id));
      if failure.Some? {
        Load(savepoint);
        return;
      }
      MarkOrderItemsRejected(OfStoreOrder(id));
      orders := orders[row.order := Synced(orders[row.order], storeOrders, row.order)];
      RecalculateOrderPayableTotals(row.order);
    }
  }
}
