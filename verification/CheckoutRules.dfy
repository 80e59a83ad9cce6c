/** Checkout on literal columns: which cart can be ordered, which line is refused and why, and what rows an order gets. */
module CheckoutRules {
  import opened Wrappers
  import opened Shopfront
  import opened Sorting
  import opened Orders
  import opened OrderStock
  import opened OrderLaws
  import opened CheckoutLaws
  import opened CheckoutSound
  import opened CheckoutTheorems
  import opened OrderRuns
  import I = Inventory

  // ----- One line -----

  /**
   * A line can be sold on a day: its product is approved and active, its store is active by status and
   * by flag, its category is active, it has not expired before that day, it has a positive price, and
   * the quantity is positive and on the shelf.
   */
  predicate Sellable(db: Db, line: CartLine, today: int) {
    && line.product < |db.stock.products| && line.product < |db.catalogue.listings|
    && var row, listing := db.stock.products[line.product], db.catalogue.listings[line.product];
       && listing.status == ProductStatus.Approved && listing.active
       && row.store < |db.catalogue.stores|
       && db.catalogue.stores[row.store].status == StoreStatus.Active && db.catalogue.stores[row.store].active
       && listing.category < |db.catalogue.categories| && db.catalogue.categories[listing.category]
       && (listing.expiry.None? || today <= listing.expiry.value)
       && listing.finalPrice.Some? && listing.finalPrice.value > 0
       && 0 < line.quantity <= row.stock
  }

  /** `total` is price times quantity in paise, rounded to the nearest paisa and halves to the even one. */
  predicate RoundedTotal(price: nat, quantity: nat, total: nat) {
    var off := 1000 * total - price * quantity;
    -500 <= off <= 500 && (off == 500 || off == -500 ==> total % 2 == 0)
  }

  /** Checkout sells a line if and only if its columns allow it, at the listed price and from the product's own store. */
  lemma {:induction false} LineSoldIff(db: Db, line: CartLine, today: int)
    ensures BuildLine(db, line, today).Ok? <==> Sellable(db, line, today)
    ensures BuildLine(db, line, today).Ok? ==>
      var sold := BuildLine(db, line, today).value;
      && sold.product == line.product && sold.quantity == line.quantity
      && sold.store == db.stock.products[line.product].store
      && db.catalogue.listings[line.product].finalPrice == Some(sold.unitPrice)
      && RoundedTotal(sold.unitPrice, sold.quantity, sold.lineTotal)
  {
  }

  /** What each refusal means: the fault it names, where everything asked before was in order. */
  lemma {:induction false} RefusalMeans(db: Db, line: CartLine, today: int)
    requires BuildLine(db, line, today).Err?
    requires line.product < |db.stock.products| && line.product < |db.catalogue.listings|
    ensures var row, listing := db.stock.products[line.product], db.catalogue.listings[line.product];
      var approved, active := listing.status == ProductStatus.Approved, listing.active;
      var store := row.store < |db.catalogue.stores|
        && db.catalogue.stores[row.store] == StoreRow(StoreStatus.Active, true);
      var category := listing.category < |db.catalogue.categories| && db.catalogue.categories[listing.category];
      var unexpired := listing.expiry.Some? ==> today <= listing.expiry.value;
      var priced := listing.finalPrice.Some? && listing.finalPrice.value > 0;
      BuildLine(db, line, today) == Err(Review(line.product,
        if !approved then NotApproved
        else if !active then InactiveProduct
        else if !store then InactiveStore
        else if !category then InactiveCategory
        else if !unexpired then ExpiredProduct
        else if !priced then NoValidPrice
        else if line.quantity == 0 then QuantityNotPositive
        else OnlyRemaining))
  {
  }

  // ----- The whole cart -----

  predicate CartSellable(db: Db, cart: seq<CartLine>, today: int) {
    forall i :: 0 <= i < |cart| ==> Sellable(db, cart[i], today)
  }

  lemma {:induction false} BuildsIff(db: Db, cart: seq<CartLine>, today: int)
    ensures BuildLines(db, cart, today).Ok? <==> CartSellable(db, cart, today)
  {
    if cart != [] {
      var n := |cart| - 1;
      BuildsIff(db, cart[..n], today);
      LineSoldIff(db, cart[n], today);
    }
  }

  lemma {:induction false} SortedSellable(db: Db, cart: seq<CartLine>, today: int)
    ensures CartSellable(db, SortBy(cart, ProductKey()), today) <==> CartSellable(db, cart, today)
  {
    var sorted := SortBy(cart, ProductKey());
    SortByKeeps(cart, ProductKey());
    PermutedMembers(cart, sorted);
    PermutedMembers(sorted, cart);
  }

  /**
   * A request gets as far as inserting if and only if it has a token that no order carries, its
   * fulfilment resolves and its cart is not empty and sellable line by line.
   */
  lemma {:induction false} ReachesInsertIff(locked: Db, req: Checkout)
    ensures ReachesInsert(locked, req) <==>
      && req.token != "" && (forall o :: 0 <= o < |locked.orders| ==> locked.orders[o].token != req.token)
      && req.fulfilmentOk && CartOf(locked, req.customer) != []
      && CartSellable(locked, CartOf(locked, req.customer), req.today)
  {
    var cart := CartOf(locked, req.customer);
    SortByKeeps(cart, ProductKey());
    BuildsIff(locked, SortBy(cart, ProductKey()), req.today);
    SortedSellable(locked, cart, req.today);
  }

  /** The line of `p` cannot be sold, and every line of a lower product can. */
  predicate LowestRefused(db: Db, cart: seq<CartLine>, today: int, p: I.ProductId) {
    && (exists i :: 0 <= i < |cart| && cart[i].product == p && !Sellable(db, cart[i], today))
    && (forall j :: 0 <= j < |cart| && cart[j].product < p ==> Sellable(db, cart[j], today))
  }

  lemma {:induction false} FirstIsLowest(db: Db, sorted: seq<CartLine>, today: int, k: nat)
    requires Sorted(sorted, ProductKey()) && FirstRefused(db, sorted, today, k)
    ensures LowestRefused(db, sorted, today, sorted[k].product)
  {
    LineSoldIff(db, sorted[k], today);
    forall j | k <= j < |sorted| ensures sorted[k].product <= sorted[j].product {
      assert ProductKey()(sorted[k]) <= ProductKey()(sorted[j]);
    }
    forall j | 0 <= j < |sorted| && sorted[j].product < sorted[k].product ensures Sellable(db, sorted[j], today) {
      LineSoldIff(db, sorted[j], today);
    }
  }

  lemma {:induction false} LowestPermuted(db: Db, a: seq<CartLine>, b: seq<CartLine>, today: int, p: I.ProductId)
    requires multiset(a) == multiset(b) && LowestRefused(db, a, today, p)
    ensures LowestRefused(db, b, today, p)
  {
    PermutedMembers(a, b);
    PermutedMembers(b, a);
    var i :| 0 <= i < |a| && a[i].product == p && !Sellable(db, a[i], today);
    var j :| 0 <= j < |b| && b[j] == a[i];
  }

  /** A refused cart is refused over the lowest product in it that cannot be sold. */
  lemma {:induction false} RefusedOverLowestProduct(db: Db, req: Checkout, p: I.ProductId, refusal: Refusal)
    requires ValidatedLines(db, req) == Err(Review(p, refusal))
    ensures LowestRefused(db, CartOf(db, req.customer), req.today, p)
  {
    var cart := CartOf(db, req.customer);
    SortByKeeps(cart, ProductKey());
    SortedRefusal(db, SortBy(cart, ProductKey()), req.today, p, refusal);
    LowestPermuted(db, SortBy(cart, ProductKey()), cart, req.today, p);
  }

  lemma {:induction false} SortedRefusal(db: Db, sorted: seq<CartLine>, today: int, p: I.ProductId, refusal: Refusal)
    requires Sorted(sorted, ProductKey()) && BuildLines(db, sorted, today) == Err(Review(p, refusal))
    ensures LowestRefused(db, sorted, today, p)
  {
    RefusalNamesFirstLine(db, sorted, today);
    var k: nat :| FirstRefused(db, sorted, today, k) && BuildLine(db, sorted[k], today).error == Review(p, refusal);
    FirstIsLowest(db, sorted, today, k);
  }

  // ----- The rows of an order -----

  /** An item that carries a line as sold, in a new and pending store order of the line's store. */
  predicate Carries(storeOrders: seq<StoreOrder>, from: nat, order: nat, item: Item, line: Line) {
    && item.product == line.product && item.quantity == line.quantity
    && item.unitPrice == line.unitPrice && item.lineTotal == line.lineTotal
    && !item.restored && !item.cancelled && !item.rejected
    && from <= item.storeOrder < |storeOrders|
    && var row := storeOrders[item.storeOrder];
       row.order == order && row.store == line.store && row.status == StoreOrderStatus.Pending && row.deliveryCharge == 0
  }

  predicate AllCarried(before: Db, next: Db, order: nat, lines: seq<Line>) {
    && |next.items| == |before.items| + |lines| && before.items <= next.items
    && forall i :: 0 <= i < |lines| ==>
         Carries(next.storeOrders, |before.storeOrders|, order, next.items[|before.items| + i], lines[i])
  }

  lemma {:induction false} LinesCarried(db: Db, order: nat, groups: seq<Group<Line>>)
    requires Uniform(groups, StoreKey()) && AddStoreOrders(db, order, groups).Ok?
    ensures AllCarried(db, AddStoreOrders(db, order, groups).value, order, Flatten(groups))
    decreases |groups|
  {
    var next := AddStoreOrders(db, order, groups).value;
    if groups == [] {
      assert next == db && Flatten(groups) == [];
    } else {
      var lines := groups[0].rows;
      var started := Started(db, order, lines);
      AddLinesShape(started, |db.storeOrders|, lines);
      var first := AddLines(started, |db.storeOrders|, lines).value;
      LinesCarried(first, order, groups[1..]);
      AddStoreOrdersShape(first, order, groups[1..]);
      FlattenCons(groups);
      forall i | 0 <= i < |lines| ensures lines[i].store == lines[0].store {
        assert StoreKey()(lines[i]) == groups[0].key == StoreKey()(lines[0]);
      }
      FirstGroupCarried(db, first, next, order, lines, Flatten(groups[1..]));
    }
  }

  lemma {:induction false} FirstGroupCarried(db: Db, first: Db, next: Db, order: nat, lines: seq<Line>, rest: seq<Line>)
    requires lines != [] && forall i :: 0 <= i < |lines| ==> lines[i].store == lines[0].store
    requires first.storeOrders == db.storeOrders + [NewStoreOrder(order, lines)]
    requires first.items == db.items + NewItems(|db.storeOrders|, lines)
    requires first.storeOrders <= next.storeOrders && AllCarried(first, next, order, rest)
    ensures AllCarried(db, next, order, lines + rest)
  {
    var all, n := lines + rest, |db.items|;
    forall i | 0 <= i < |all| ensures Carries(next.storeOrders, |db.storeOrders|, order, next.items[n + i], all[i]) {
      if i < |lines| {
        assert next.items[n + i] == first.items[n + i] == NewItem(|db.storeOrders|, lines[i]);
        assert next.storeOrders[|db.storeOrders|] == first.storeOrders[|db.storeOrders|];
      } else {
        assert next.items[n + i] == next.items[|first.items| + (i - |lines|)];
      }
    }
  }

  /** An item that carries a cart line at the price and for the store its locked rows gave. */
  predicate Mirrors(locked: Db, after: Db, from: nat, order: nat, item: Item, line: CartLine)
    requires line.product < |locked.stock.products| && line.product < |locked.catalogue.listings|
  {
    && item.product == line.product && item.quantity == line.quantity
    && locked.catalogue.listings[line.product].finalPrice == Some(item.unitPrice)
    && RoundedTotal(item.unitPrice, item.quantity, item.lineTotal)
    && !item.restored && !item.cancelled && !item.rejected
    && from <= item.storeOrder < |after.storeOrders|
    && var row := after.storeOrders[item.storeOrder];
       && row.order == order && row.store == locked.stock.products[line.product].store
       && row.status == StoreOrderStatus.Pending && row.deliveryCharge == 0
  }

  /** One of the new items mirrors the line. */
  predicate HasMirror(locked: Db, now: Db, after: Db, line: CartLine) {
    && line.product < |locked.stock.products| && line.product < |locked.catalogue.listings|
    && exists k :: |now.items| <= k < |after.items|
         && Mirrors(locked, after, |now.storeOrders|, |now.orders|, after.items[k], line)
  }

  lemma {:induction false} CartMirrored(locked: Db, now: Db, next: Db, cart: seq<CartLine>, lines: seq<Line>, flat: seq<Line>, today: int)
    requires BuildLines(locked, SortBy(cart, ProductKey()), today) == Ok(lines)
    requires multiset(flat) == multiset(lines) && AllCarried(now, next, |now.orders|, flat)
    ensures |next.items| == |now.items| + |cart|
    ensures forall i :: 0 <= i < |cart| ==> HasMirror(locked, now, next, cart[i])
  {
    var sorted := SortBy(cart, ProductKey());
    SortByKeeps(cart, ProductKey());
    PermutedMembers(sorted, cart);
    BuildLinesValidate(locked, sorted, today);
    PermutedMembers(flat, lines);
    forall i | 0 <= i < |cart| ensures HasMirror(locked, now, next, cart[i]) {
      assert cart[i] in sorted;
      var m :| 0 <= m < |sorted| && sorted[m] == cart[i];
      LineMirrored(locked, now, next, cart[i], lines[m], flat, today);
    }
  }

  lemma {:induction false} LineMirrored(locked: Db, now: Db, next: Db, line: CartLine, sold: Line, flat: seq<Line>, today: int)
    requires Validates(locked, line, sold, today) && sold in flat && AllCarried(now, next, |now.orders|, flat)
    ensures HasMirror(locked, now, next, line)
  {
    var j :| 0 <= j < |flat| && flat[j] == sold;
    var item := next.items[|now.items| + j];
    assert Carries(next.storeOrders, |now.storeOrders|, |now.orders|, item, sold);
    assert Mirrors(locked, next, |now.storeOrders|, |now.orders|, item, line);
  }

  lemma {:induction false} SameCarried(placed: Db, now: Db, built: Db, next: Db, order: nat, lines: seq<Line>)
    requires AllCarried(placed, built, order, lines)
    requires placed.items == now.items && placed.storeOrders == now.storeOrders
    requires next.items == built.items && next.storeOrders == built.storeOrders
    ensures AllCarried(now, next, order, lines)
  {
  }

  lemma {:induction false} GraphCarried(now: Db, req: Checkout, lines: seq<Line>)
    requires CreateOrderGraph(now, req, lines).Ok?
    ensures AllCarried(now, CreateOrderGraph(now, req, lines).value, |now.orders|, Flatten(StoreGroups(lines)))
  {
    var placed := now.(orders := now.orders + [NewOrder(req, lines)]);
    LinesCarried(placed, |now.orders|, StoreGroups(lines));
    SameCarried(placed, now, AddStoreOrders(placed, |now.orders|, StoreGroups(lines)).value,
                CreateOrderGraph(now, req, lines).value, |now.orders|, Flatten(StoreGroups(lines)));
  }

  /**
   * The order is the cart, line by line. Every cart line has an item of its own product, quantity,
   * listed price and rounded total, in a pending store order of the product's store; there are as many
   * new items as cart lines; and the order itself is placed, unpaid, free of delivery charge and
   * discount, and carries the customer and the token of the request.
   */
  lemma {:induction false} OrderMirrorsCart(locked: Db, now: Db, early: bool, req: Checkout)
    requires Sound(now) && CartsSound(locked) && ReachesInsert(locked, req)
    requires LocksHeld(locked, now, req.customer) && FindToken(now.orders, req.token).None?
    ensures var after, cart, n := PlaceOrder(locked, now, early, req).after, CartOf(locked, req.customer), |now.orders|;
      && |after.orders| == n + 1 && after.orders[..n] == now.orders
      && after.orders[n] == Order(req.customer, req.token, OrderStatus.Placed, PaymentStatus.Pending,
                                  after.orders[n].itemsSubtotal, 0, 0, after.orders[n].itemsSubtotal)
      && now.storeOrders <= after.storeOrders && now.items <= after.items
      && |after.items| == |now.items| + |cart|
      && (forall i :: 0 <= i < |cart| ==> HasMirror(locked, now, after, cart[i]))
  {
    var lines := ValidatedLines(locked, req).value;
    LockedLinesReady(locked, now, req);
    CreateOrderGraphSound(now, req, lines);
    StoreGroupsPartition(lines);
    GraphCarried(now, req, lines);
    var after := CreateOrderGraph(now, req, lines).value;
    CartMirrored(locked, now, after, CartOf(locked, req.customer), lines, Flatten(StoreGroups(lines)), req.today);
  }
}
