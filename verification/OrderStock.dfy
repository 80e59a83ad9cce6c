/** Every order item holds its stock exactly until it is restored, and the ledger says so. */
module OrderStock {
  import opened Wrappers
  import opened Text
  import opened Sums
  import opened Orders
  import I = Inventory
  import R = InventoryRuns

  // ----- References -----

  lemma {:induction false} ReferencesDistinct(j: nat, k: nat)
    ensures I.IsOrderReference(I.DeductReference(k)) && I.IsOrderReference(I.RestoreReference(k))
    ensures I.DeductReference(j) != I.RestoreReference(k)
    ensures j != k ==> I.DeductReference(j) != I.DeductReference(k)
    ensures j != k ==> I.RestoreReference(j) != I.RestoreReference(k)
  {
    var a, b := I.DeductReference(j), I.RestoreReference(k);
    assert a[|a| - 1] == 't' && b[|b| - 1] == 'e';
    if j != k {
      SameAffixes(":deduct", j, k);
      SameAffixes(":restore", j, k);
    }
  }

  lemma {:induction false} SameAffixes(suffix: string, j: nat, k: nat)
    requires j != k
    ensures I.ORDER_PREFIX + Decimal(j) + suffix != I.ORDER_PREFIX + Decimal(k) + suffix
  {
    var a, b := I.ORDER_PREFIX + Decimal(j) + suffix, I.ORDER_PREFIX + Decimal(k) + suffix;
    if a == b {
      var n := |I.ORDER_PREFIX|;
      assert Decimal(j) == a[n..|a| - |suffix|];
      assert Decimal(k) == b[n..|b| - |suffix|];
      DecimalInjective(j, k);
    }
  }

  lemma {:induction false} ReferencesStripped(k: nat)
    ensures Strip(I.DeductReference(k)) == I.DeductReference(k) != ""
    ensures Strip(I.RestoreReference(k)) == I.RestoreReference(k) != ""
  {
    var a, b := I.DeductReference(k), I.RestoreReference(k);
    assert a[0] == 'o' && a[|a| - 1] == 't';
    assert b[0] == 'o' && b[|b| - 1] == 'e';
  }

  lemma {:induction false} NewestPush(ledger: seq<I.Txn>, row: I.Txn, reference: string)
    ensures I.Newest(ledger + [row], reference) ==
      if row.reference == reference then Some(row) else I.Newest(ledger, reference)
  {
    assert (ledger + [row])[..|ledger|] == ledger;
  }

  // ----- The invariant -----

  predicate RowFor(row: I.Txn, item: Item, kind: I.Kind) {
    row.product == item.product && row.quantity == item.quantity && row.kind == kind
  }

  /** Item `k` has its deduct row, and its restore row exactly when it is flagged restored. */
  predicate Recorded(ledger: seq<I.Txn>, items: seq<Item>, k: nat) {
    var deducted := I.Newest(ledger, I.DeductReference(k));
    var returned := I.Newest(ledger, I.RestoreReference(k));
    && (deducted.Some? <==> k < |items|)
    && (returned.Some? <==> k < |items| && items[k].restored)
    && (deducted.Some? ==> RowFor(deducted.value, items[k], I.StockOut))
    && (returned.Some? ==> RowFor(returned.value, items[k], I.CustomerReturn))
  }

  predicate ItemPlaced(products: seq<I.ProductRow>, storeOrders: seq<StoreOrder>, item: Item) {
    && item.storeOrder < |storeOrders| && item.product < |products| && item.quantity > 0
    && products[item.product].store == storeOrders[item.storeOrder].store
  }

  ghost predicate StockSound(db: Db) {
    && R.UniqueReferences(db.stock.ledger)
    && (forall p :: 0 <= p < |db.stock.products| ==> db.stock.products[p].stock >= 0)
    && (forall k :: 0 <= k < |db.items| ==> ItemPlaced(db.stock.products, db.storeOrders, db.items[k]))
    && (forall k: nat :: Recorded(db.stock.ledger, db.items, k))
  }

  function HeldOf(p: I.ProductId): Item -> int {
    (item: Item) => if item.product == p && !item.restored then item.quantity else 0
  }

  function Held(items: seq<Item>, p: I.ProductId): int {
    Sum(items, HeldOf(p))
  }

  /** Stock on the shelf plus stock held by order items. */
  function Claim(db: Db, p: I.ProductId): int
    requires p < |db.stock.products|
  {
    db.stock.products[p].stock + Held(db.items, p)
  }

  /** Nothing appears or vanishes between the two states, whichever product one looks at. */
  ghost predicate SameClaims(a: Db, b: Db) {
    |a.stock.products| == |b.stock.products|
    && forall p :: 0 <= p < |a.stock.products| ==> Claim(a, p) == Claim(b, p)
  }

  predicate SameStores(a: Db, b: Db) {
    |a.stock.products| == |b.stock.products|
    && forall p :: 0 <= p < |a.stock.products| ==> a.stock.products[p].store == b.stock.products[p].store
  }

  // ----- One order movement -----

  /** A fresh order reference and enough stock make the movement go through once. */
  lemma {:induction false} OrderMoveApplies(s: I.State, call: I.OrderCall)
    requires call.product < |s.products| && s.products[call.product].store == call.store
    requires call.quantity > 0 && call.kind in {I.StockOut, I.CustomerReturn} && Strip(call.reason) != ""
    requires s.products[call.product].stock >= (if call.kind == I.StockOut then call.quantity else 0)
    requires Strip(call.reference) == call.reference != "" && I.IsOrderReference(call.reference)
    requires I.Newest(s.ledger, call.reference).None?
    ensures var o := I.OrderStock(s.ledger, s, false, call);
      o.result.Ok? && o.after.ledger == s.ledger + [o.result.value]
      && o.result.value.reference == call.reference && o.result.value.product == call.product
      && o.result.value.quantity == call.quantity && o.result.value.kind == call.kind
      && o.after.products == s.products[call.product := s.products[call.product].(stock :=
           s.products[call.product].stock + if call.kind == I.StockOut then -call.quantity else call.quantity)]
  {
  }

  lemma {:induction false} RecordedAfterDeduct(ledger: seq<I.Txn>, items: seq<Item>, row: I.Txn, item: Item, k: nat)
    requires Recorded(ledger, items, k) && !item.restored
    requires row.reference == I.DeductReference(|items|) && RowFor(row, item, I.StockOut)
    ensures Recorded(ledger + [row], items + [item], k)
  {
    NewestPush(ledger, row, I.DeductReference(k));
    NewestPush(ledger, row, I.RestoreReference(k));
    ReferencesDistinct(|items|, k);
  }

  lemma {:induction false} RecordedAfterRestore(ledger: seq<I.Txn>, items: seq<Item>, row: I.Txn, n: nat, k: nat)
    requires n < |items| && Recorded(ledger, items, k)
    requires row.reference == I.RestoreReference(n) && RowFor(row, items[n], I.CustomerReturn)
    ensures Recorded(ledger + [row], items[n := items[n].(restored := true)], k)
  {
    NewestPush(ledger, row, I.DeductReference(k));
    NewestPush(ledger, row, I.RestoreReference(k));
    ReferencesDistinct(k, n);
  }

  /** A line that the locked rows can supply. */
  predicate Supplied(products: seq<I.ProductRow>, line: Line) {
    line.product < |products| && products[line.product].store == line.store
    && 0 < line.quantity <= products[line.product].stock
  }

  lemma {:induction false} AddLineSound(db: Db, storeOrder: nat, line: Line)
    requires StockSound(db) && Supplied(db.stock.products, line)
    requires storeOrder < |db.storeOrders| && db.storeOrders[storeOrder].store == line.store
    ensures var r := AddLine(db, storeOrder, line);
      r.Ok? && StockSound(r.value)
      && r.value == db.(items := db.items + [NewItem(storeOrder, line)], stock := r.value.stock)
      && r.value.stock.products == db.stock.products[line.product :=
           db.stock.products[line.product].(stock := db.stock.products[line.product].stock - line.quantity)]
      && db.stock.ledger <= r.value.stock.ledger
  {
    var n := |db.items|;
    var item := NewItem(storeOrder, line);
    var call := I.DeductCall(line.product, line.store, line.quantity, I.DeductReference(n), "Order");
    ReferencesStripped(n);
    ReferencesDistinct(n, n);
    assert Recorded(db.stock.ledger, db.items, n);
    OrderMoveApplies(db.stock, call);
    var next := AddLine(db, storeOrder, line).value;
    var row := next.stock.ledger[|db.stock.ledger|];
    R.PushUnique(db.stock.ledger, row);
    forall k: nat ensures Recorded(next.stock.ledger, next.items, k) {
      RecordedAfterDeduct(db.stock.ledger, db.items, row, item, k);
    }
  }

  lemma {:induction false} AddLineClaims(db: Db, storeOrder: nat, line: Line)
    requires StockSound(db) && Supplied(db.stock.products, line)
    requires storeOrder < |db.storeOrders| && db.storeOrders[storeOrder].store == line.store
    ensures AddLine(db, storeOrder, line).Ok? && SameClaims(db, AddLine(db, storeOrder, line).value)
  {
    AddLineSound(db, storeOrder, line);
    var item := NewItem(storeOrder, line);
    var next := AddLine(db, storeOrder, line).value;
    forall p | 0 <= p < |db.stock.products| ensures Claim(db, p) == Claim(next, p) {
      SumPush(db.items, item, HeldOf(p));
    }
  }

  lemma {:induction false} RestoreItemSound(db: Db, k: nat)
    requires StockSound(db) && k < |db.items| && !db.items[k].restored
    ensures db.items[k].storeOrder < |db.storeOrders|
    ensures var r := RestoreItem(db, k);
      r.Ok? && StockSound(r.value) && SameStores(db, r.value)
      && r.value == db.(items := db.items[k := db.items[k].(restored := true)], stock := r.value.stock)
      && db.stock.ledger <= r.value.stock.ledger
      && r.value.stock.products == db.stock.products[db.items[k].product :=
           db.stock.products[db.items[k].product].(stock := db.stock.products[db.items[k].product].stock + db.items[k].quantity)]
  {
    var item := db.items[k];
    assert ItemPlaced(db.stock.products, db.storeOrders, item);
    var call := I.RestoreCall(item.product, db.storeOrders[item.storeOrder].store, item.quantity,
                              I.RestoreReference(k), "Order");
    ReferencesStripped(k);
    ReferencesDistinct(k, k);
    assert Recorded(db.stock.ledger, db.items, k);
    OrderMoveApplies(db.stock, call);
    var next := RestoreItem(db, k).value;
    var row := next.stock.ledger[|db.stock.ledger|];
    R.PushUnique(db.stock.ledger, row);
    forall j: nat ensures Recorded(next.stock.ledger, next.items, j) {
      RecordedAfterRestore(db.stock.ledger, db.items, row, k, j);
    }
  }

  lemma {:induction false} RestoreItemClaims(db: Db, k: nat)
    requires StockSound(db) && k < |db.items| && !db.items[k].restored
    ensures db.items[k].storeOrder < |db.storeOrders|
    ensures RestoreItem(db, k).Ok? && SameClaims(db, RestoreItem(db, k).value)
  {
    RestoreItemSound(db, k);
    var next := RestoreItem(db, k).value;
    forall p | 0 <= p < |db.stock.products| ensures Claim(db, p) == Claim(next, p) {
      SumUpdate(db.items, k, db.items[k].(restored := true), HeldOf(p));
    }
  }

  // ----- Whole loops -----

  function WithRestored(storeOrders: seq<StoreOrder>, item: Item, scope: Scope): Item {
    item.(restored := item.restored || InScope(storeOrders, item, scope))
  }

  /** Restoring a scope never fails, returns exactly what its items hold, and flags exactly them. */
  lemma {:induction false} RestoreFromSound(db: Db, from: nat, scope: Scope)
    requires StockSound(db)
    ensures RestoreFrom(db, from, scope).Ok?
    ensures var next := RestoreFrom(db, from, scope).value;
      && StockSound(next) && SameClaims(db, next) && SameStores(db, next)
      && db.stock.ledger <= next.stock.ledger
      && next == db.(items := next.items, stock := next.stock)
      && |next.items| == |db.items|
      && (forall j :: 0 <= j < |db.items| ==>
            next.items[j] == if j < from then db.items[j] else WithRestored(db.storeOrders, db.items[j], scope))
  {
    RestoreFromKeeps(db, from, scope);
    RestoreFromItems(db, from, scope);
  }

  lemma {:induction false} RestoreFromKeeps(db: Db, from: nat, scope: Scope)
    requires StockSound(db)
    ensures RestoreFrom(db, from, scope).Ok?
    ensures var next := RestoreFrom(db, from, scope).value;
      && StockSound(next) && SameClaims(db, next) && SameStores(db, next)
      && db.stock.ledger <= next.stock.ledger
      && next == db.(items := next.items, stock := next.stock)
    decreases |db.items| - from
  {
    if from < |db.items| {
      if !InScope(db.storeOrders, db.items[from], scope) || db.items[from].restored {
        RestoreFromKeeps(db, from + 1, scope);
      } else {
        RestoreItemSound(db, from);
        RestoreItemClaims(db, from);
        RestoreFromKeeps(RestoreItem(db, from).value, from + 1, scope);
      }
    }
  }

  lemma {:induction false} RestoreFromItems(db: Db, from: nat, scope: Scope)
    requires StockSound(db) && RestoreFrom(db, from, scope).Ok?
    ensures var next := RestoreFrom(db, from, scope).value;
      && |next.items| == |db.items|
      && (forall j :: 0 <= j < |db.items| ==>
            next.items[j] == if j < from then db.items[j] else WithRestored(db.storeOrders, db.items[j], scope))
    decreases |db.items| - from
  {
    if from < |db.items| {
      if !InScope(db.storeOrders, db.items[from], scope) || db.items[from].restored {
        RestoreFromItems(db, from + 1, scope);
      } else {
        RestoreItemSound(db, from);
        RestoreFromItems(RestoreItem(db, from).value, from + 1, scope);
      }
    }
  }

  predicate DistinctProducts(lines: seq<Line>) {
    forall i, j :: 0 <= i < j < |lines| ==> lines[i].product != lines[j].product
  }

  function NewItems(storeOrder: nat, lines: seq<Line>): seq<Item> {
    seq(|lines|, i requires 0 <= i < |lines| => NewItem(storeOrder, lines[i]))
  }

  predicate LinesFit(db: Db, storeOrder: nat, lines: seq<Line>) {
    && storeOrder < |db.storeOrders|
    && DistinctProducts(lines)
    && (forall i :: 0 <= i < |lines| ==>
          Supplied(db.stock.products, lines[i]) && lines[i].store == db.storeOrders[storeOrder].store)
  }

  /** The rest of the lines still fit after the first: they name other products. */
  lemma {:induction false} RestFits(db: Db, storeOrder: nat, lines: seq<Line>)
    requires StockSound(db) && LinesFit(db, storeOrder, lines) && lines != []
    ensures AddLine(db, storeOrder, lines[0]).Ok?
    ensures LinesFit(AddLine(db, storeOrder, lines[0]).value, storeOrder, lines[1..])
  {
    AddLineSound(db, storeOrder, lines[0]);
    var next := AddLine(db, storeOrder, lines[0]).value;
    forall i | 0 <= i < |lines[1..]| ensures Supplied(next.stock.products, lines[1..][i]) {
      assert lines[1..][i] == lines[i + 1] && lines[0].product != lines[i + 1].product;
    }
  }

  /**
   * Once every line is supplied, no deduction of the loop can run out of stock: lines name distinct
   * products, so an earlier deduction never touches the product of a later one.
   */
  lemma {:induction false} AddLinesSound(db: Db, storeOrder: nat, lines: seq<Line>)
    requires StockSound(db) && LinesFit(db, storeOrder, lines)
    ensures AddLines(db, storeOrder, lines).Ok?
    ensures StockSound(AddLines(db, storeOrder, lines).value)
    ensures db.stock.ledger <= AddLines(db, storeOrder, lines).value.stock.ledger
    decreases |lines|
  {
    if lines != [] {
      RestFits(db, storeOrder, lines);
      AddLineSound(db, storeOrder, lines[0]);
      AddLinesSound(AddLine(db, storeOrder, lines[0]).value, storeOrder, lines[1..]);
    }
  }

  lemma {:induction false} NewItemsCons(storeOrder: nat, lines: seq<Line>, items: seq<Item>)
    requires lines != []
    ensures items + NewItems(storeOrder, lines)
      == items + [NewItem(storeOrder, lines[0])] + NewItems(storeOrder, lines[1..])
  {
  }

  lemma {:induction false} AddLineShape(db: Db, storeOrder: nat, line: Line)
    requires AddLine(db, storeOrder, line).Ok?
    ensures var next := AddLine(db, storeOrder, line).value;
      next == db.(items := db.items + [NewItem(storeOrder, line)], stock := next.stock)
  {
  }

  lemma {:induction false} AddLinesShape(db: Db, storeOrder: nat, lines: seq<Line>)
    requires AddLines(db, storeOrder, lines).Ok?
    ensures var next := AddLines(db, storeOrder, lines).value;
      next == db.(items := db.items + NewItems(storeOrder, lines), stock := next.stock)
    decreases |lines|
  {
    if lines == [] {
      assert db.items + NewItems(storeOrder, lines) == db.items;
    } else {
      AddLineShape(db, storeOrder, lines[0]);
      AddLinesShape(AddLine(db, storeOrder, lines[0]).value, storeOrder, lines[1..]);
      NewItemsCons(storeOrder, lines, db.items);
    }
  }

  lemma {:induction false} AddLinesClaims(db: Db, storeOrder: nat, lines: seq<Line>)
    requires StockSound(db) && LinesFit(db, storeOrder, lines)
    ensures AddLines(db, storeOrder, lines).Ok?
    ensures SameClaims(db, AddLines(db, storeOrder, lines).value)
    ensures SameStores(db, AddLines(db, storeOrder, lines).value)
    decreases |lines|
  {
    if lines != [] {
      RestFits(db, storeOrder, lines);
      AddLineSound(db, storeOrder, lines[0]);
      AddLineClaims(db, storeOrder, lines[0]);
      AddLinesClaims(AddLine(db, storeOrder, lines[0]).value, storeOrder, lines[1..]);
    }
  }

  /** A product none of the lines names keeps its row. */
  lemma {:induction false} AddLinesFrame(db: Db, storeOrder: nat, lines: seq<Line>, p: I.ProductId)
    requires StockSound(db) && LinesFit(db, storeOrder, lines) && p < |db.stock.products|
    requires forall i :: 0 <= i < |lines| ==> lines[i].product != p
    ensures AddLines(db, storeOrder, lines).Ok?
    ensures p < |AddLines(db, storeOrder, lines).value.stock.products|
    ensures AddLines(db, storeOrder, lines).value.stock.products[p] == db.stock.products[p]
    decreases |lines|
  {
    if lines != [] {
      RestFits(db, storeOrder, lines);
      AddLineSound(db, storeOrder, lines[0]);
      AddLinesFrame(AddLine(db, storeOrder, lines[0]).value, storeOrder, lines[1..], p);
    }
  }
}
