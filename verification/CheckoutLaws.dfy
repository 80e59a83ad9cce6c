/** Checkout: grouping is a partition, deductions cannot fail, and the totals are the lines'. */
module CheckoutLaws {
  import opened Wrappers
  import opened Sums
  import opened Shopfront
  import opened Sorting
  import opened Orders
  import opened OrderStock
  import I = Inventory

  // ----- Validated lines -----

  function LineProduct(): Line -> int {
    (line: Line) => line.product
  }

  /** What a validated line says about the cart line and the locked rows it was built from. */
  predicate Validates(db: Db, cartLine: CartLine, line: Line, today: int) {
    && line.product == cartLine.product && line.quantity == cartLine.quantity
    && Supplied(db.stock.products, line)
    && line.product < |db.catalogue.listings|
    && db.catalogue.listings[line.product].finalPrice == Some(line.unitPrice) && line.unitPrice > 0
    && PubliclyAvailable(db.catalogue, db.catalogue.listings[line.product], db.stock.products[line.product], today)
    && line.lineTotal == LineTotal(line.unitPrice, line.quantity)
  }

  lemma {:induction false} BuildLineValidates(db: Db, cartLine: CartLine, today: int)
    requires BuildLine(db, cartLine, today).Ok?
    ensures Validates(db, cartLine, BuildLine(db, cartLine, today).value, today)
  {
  }

  lemma {:induction false} BuildLinesValidate(db: Db, cart: seq<CartLine>, today: int)
    requires BuildLines(db, cart, today).Ok?
    ensures var lines := BuildLines(db, cart, today).value;
      |lines| == |cart| && forall i :: 0 <= i < |cart| ==> Validates(db, cart[i], lines[i], today)
  {
    if cart != [] {
      var n := |cart| - 1;
      BuildLinesValidate(db, cart[..n], today);
      BuildLineValidates(db, cart[n], today);
    }
  }

  /** Lines that exist, fit the stock and name distinct products. */
  predicate LinesReady(products: seq<I.ProductRow>, lines: seq<Line>) {
    DistinctProducts(lines) && forall i :: 0 <= i < |lines| ==> Supplied(products, lines[i])
  }

  lemma {:induction false} CartProductsDistinct(cart: seq<CartLine>)
    requires WellFormedCart(cart)
    ensures WellFormedCart(SortBy(cart, ProductKey()))
  {
    SortByKeeps(cart, ProductKey());
    assert DistinctBy(cart, ProductKey());
    DistinctPermuted(cart, SortBy(cart, ProductKey()), ProductKey());
    PermutedMembers(cart, SortBy(cart, ProductKey()));
    var sorted := SortBy(cart, ProductKey());
    forall i, j | 0 <= i < j < |sorted| ensures sorted[i].product != sorted[j].product {
      assert ProductKey()(sorted[i]) != ProductKey()(sorted[j]);
    }
  }

  lemma {:induction false} ValidatedLinesReady(db: Db, req: Checkout)
    requires WellFormedCart(CartOf(db, req.customer)) && ValidatedLines(db, req).Ok?
    ensures var lines := ValidatedLines(db, req).value;
      lines != [] && LinesReady(db.stock.products, lines)
  {
    var cart := SortBy(CartOf(db, req.customer), ProductKey());
    CartProductsDistinct(CartOf(db, req.customer));
    BuildLinesValidate(db, cart, req.today);
  }

  // ----- Grouping -----

  /** Sort-then-group keeps every line exactly once and gives each store one non-empty group. */
  lemma {:induction false} StoreGroupsPartition(lines: seq<Line>)
    ensures multiset(Flatten(StoreGroups(lines))) == multiset(lines)
    ensures Uniform(StoreGroups(lines), StoreKey()) && IncreasingKeys(StoreGroups(lines))
    ensures lines != [] ==> StoreGroups(lines) != []
    ensures Sum(Flatten(StoreGroups(lines)), LineTotalOf()) == Subtotal(lines)
  {
    var sorted := SortBy(lines, StoreKey());
    SortByKeeps(lines, StoreKey());
    GroupRunsFlatten(sorted, StoreKey());
    GroupRunsIncrease(sorted, StoreKey());
    SumPermuted(sorted, lines, LineTotalOf());
    if lines != [] {
      LastGroupKey(sorted, StoreKey());
    }
  }

  lemma {:induction false} GroupedLinesReady(products: seq<I.ProductRow>, lines: seq<Line>)
    requires LinesReady(products, lines)
    ensures LinesReady(products, Flatten(StoreGroups(lines)))
  {
    StoreGroupsPartition(lines);
    var flat := Flatten(StoreGroups(lines));
    assert DistinctBy(lines, LineProduct());
    DistinctPermuted(lines, flat, LineProduct());
    PermutedMembers(lines, flat);
    forall i, j | 0 <= i < j < |flat| ensures flat[i].product != flat[j].product {
      assert LineProduct()(flat[i]) != LineProduct()(flat[j]);
    }
  }

  // ----- Creating the graph -----

  function Started(db: Db, order: nat, lines: seq<Line>): Db
    requires lines != []
  {
    db.(storeOrders := db.storeOrders + [NewStoreOrder(order, lines)])
  }

  lemma {:induction false} StartedSound(db: Db, order: nat, lines: seq<Line>)
    requires StockSound(db) && lines != []
    ensures StockSound(Started(db, order, lines)) && SameClaims(db, Started(db, order, lines))
  {
  }

  /** The first group fits its new store order, and the other groups still fit afterwards. */
  lemma {:induction false} GroupFits(db: Db, order: nat, groups: seq<Group<Line>>)
    requires StockSound(db) && groups != [] && Uniform(groups, StoreKey())
    requires LinesReady(db.stock.products, Flatten(groups))
    ensures LinesFit(Started(db, order, groups[0].rows), |db.storeOrders|, groups[0].rows)
  {
    var lines := groups[0].rows;
    FlattenCons(groups);
    ReadySplit(db.stock.products, lines, Flatten(groups[1..]));
    forall i | 0 <= i < |lines| ensures lines[i].store == lines[0].store {
      assert StoreKey()(lines[i]) == groups[0].key == StoreKey()(lines[0]);
    }
  }

  /** Lines of other products are still supplied after a batch is deducted. */
  lemma {:induction false} StillSupplied(db: Db, storeOrder: nat, lines: seq<Line>, other: Line)
    requires StockSound(db) && LinesFit(db, storeOrder, lines) && Supplied(db.stock.products, other)
    requires forall i :: 0 <= i < |lines| ==> lines[i].product != other.product
    ensures AddLines(db, storeOrder, lines).Ok?
    ensures Supplied(AddLines(db, storeOrder, lines).value.stock.products, other)
  {
    AddLinesFrame(db, storeOrder, lines, other.product);
  }

  lemma {:induction false} ReadySplit(products: seq<I.ProductRow>, lines: seq<Line>, rest: seq<Line>)
    requires LinesReady(products, lines + rest)
    ensures LinesReady(products, lines) && LinesReady(products, rest)
    ensures forall i, j :: 0 <= i < |lines| && 0 <= j < |rest| ==> lines[i].product != rest[j].product
  {
    var flat := lines + rest;
    assert forall i :: 0 <= i < |lines| ==> flat[i] == lines[i];
    assert forall j :: 0 <= j < |rest| ==> flat[|lines| + j] == rest[j];
  }

  lemma {:induction false} RestOfGroupsFit(db: Db, order: nat, groups: seq<Group<Line>>)
    requires StockSound(db) && groups != [] && Uniform(groups, StoreKey())
    requires LinesReady(db.stock.products, Flatten(groups))
    ensures var r := AddLines(Started(db, order, groups[0].rows), |db.storeOrders|, groups[0].rows);
      r.Ok? && LinesReady(r.value.stock.products, Flatten(groups[1..]))
  {
    var lines, rest := groups[0].rows, Flatten(groups[1..]);
    var started := Started(db, order, lines);
    GroupFits(db, order, groups);
    StartedSound(db, order, lines);
    FlattenCons(groups);
    ReadySplit(db.stock.products, lines, rest);
    AddLinesSound(started, |db.storeOrders|, lines);
    forall j | 0 <= j < |rest|
      ensures Supplied(AddLines(started, |db.storeOrders|, lines).value.stock.products, rest[j])
    {
      StillSupplied(started, |db.storeOrders|, lines, rest[j]);
    }
  }

  lemma {:induction false} AddStoreOrdersSound(db: Db, order: nat, groups: seq<Group<Line>>)
    requires StockSound(db) && Uniform(groups, StoreKey())
    requires LinesReady(db.stock.products, Flatten(groups))
    ensures AddStoreOrders(db, order, groups).Ok?
    ensures var next := AddStoreOrders(db, order, groups).value;
      && StockSound(next) && SameClaims(db, next) && SameStores(db, next)
      && db.stock.ledger <= next.stock.ledger
    decreases |groups|
  {
    if groups != [] {
      var lines := groups[0].rows;
      var started := Started(db, order, lines);
      GroupFits(db, order, groups);
      RestOfGroupsFit(db, order, groups);
      StartedSound(db, order, lines);
      AddLinesSound(started, |db.storeOrders|, lines);
      AddLinesClaims(started, |db.storeOrders|, lines);
      AddStoreOrdersSound(AddLines(started, |db.storeOrders|, lines).value, order, groups[1..]);
    }
  }
}
