/** The ledger's rules on literal columns: when a movement is taken, what it does, and who gets an opening row. */
module InventoryRules {
  import opened Wrappers
  import opened Text
  import opened Inventory

  // ----- One movement -----

  predicate RowOfKind(row: Txn, p: ProductId, kind: Kind) {
    row.product == p && row.kind == kind
  }

  /**
   * When a movement is accepted: a positive quantity; a reason that is not blank for stock-outs,
   * adjustments, damage, expiry and supplier returns; dates in order and none made in the future; no
   * negative cost; a product of that store, which is the entry's store if there is an entry; no
   * second opening; enough stock for what goes out; and an unused reference under the order prefix.
   */
  predicate Acceptable(s: State, m: Movement) {
    && m.quantity > 0
    && (m.kind in {StockOut, AdjustmentIn, AdjustmentOut, Damaged, Expired, SupplierReturn} ==>
          exists i :: 0 <= i < |m.reason| && !IsSpace(m.reason[i]))
    && (m.made.Some? ==> m.made.value <= m.today && (m.expires.Some? ==> m.made.value <= m.expires.value))
    && (m.unitCost.Some? ==> m.unitCost.value >= 0)
    && m.product < |s.products| && s.products[m.product].store == m.store
    && (m.entryStore.Some? ==> m.entryStore.value == m.store)
    && (m.kind == Opening ==> forall row :: row in s.ledger ==> !RowOfKind(row, m.product, Opening))
    && (m.kind in {StockOut, AdjustmentOut, Damaged, Expired, SupplierReturn} ==> m.quantity <= s.products[m.product].stock)
    && ("order-item:" <= m.reference ==> forall row :: row in s.ledger ==> row.reference != m.reference)
  }

  lemma {:induction false} MovementAcceptedIff(s: State, m: Movement)
    requires forall p :: 0 <= p < |s.products| ==> s.products[p].stock >= 0
    ensures Apply(s, m, false).Ok? <==> Acceptable(s, m)
  {
    StripEmptyIff(m.reason);
    OpeningIsRow(s.ledger, m.product);
  }

  lemma {:induction false} OpeningIsRow(ledger: seq<Txn>, p: ProductId)
    ensures OpeningRecorded(ledger, p) <==> !forall row :: row in ledger ==> !RowOfKind(row, p, Opening)
  {
    if OpeningRecorded(ledger, p) {
      var i :| 0 <= i < |ledger| && ledger[i].product == p && ledger[i].kind == Opening;
      assert RowOfKind(ledger[i], p, Opening);
    }
    if row :| row in ledger && RowOfKind(row, p, Opening) {
      var i :| 0 <= i < |ledger| && ledger[i] == row;
    }
  }

  /**
   * What an accepted movement does: purchases, stock-ins, upward adjustments, customer returns and
   * openings raise the product's stock by the quantity; stock-outs, downward adjustments, damage,
   * expiry and supplier returns lower it. One row says so, in the movement's own words, and no other
   * product moves.
   */
  lemma {:induction false} MovementByKind(s: State, m: Movement)
    requires Apply(s, m, false).Ok?
    ensures var a, before := Apply(s, m, false).value, s.products[m.product].stock;
      var came := m.kind in {Purchase, StockIn, AdjustmentIn, CustomerReturn, Opening};
      var stock := if came then before + m.quantity else before - m.quantity;
      && (!came <==> m.kind in {StockOut, AdjustmentOut, Damaged, Expired, SupplierReturn})
      && a.after.products == s.products[m.product := ProductRow(m.store, stock)]
      && a.after.ledger == s.ledger + [a.row]
      && a.row.product == m.product && a.row.store == m.store && a.row.kind == m.kind
      && a.row.direction == (if came then In else Out)
      && a.row.quantity == m.quantity && a.row.previous == before && a.row.balance == stock >= 0
      && a.row.reason == Strip(m.reason) && a.row.reference == m.reference && a.row.unitCost == m.unitCost
      && a.row.made == m.made && a.row.expires == m.expires && a.row.line == m.line
  {
  }

  /** Ten units on the shelf, four of them damaged: six are left. */
  lemma {:induction false} DamageLowersStock(s: State, m: Movement)
    requires s == State([ProductRow(0, 10000)], [])
    requires m == Movement(0, 0, Damaged, 4000, "Broken", "", None, 0, None, None, None, None)
    ensures Apply(s, m, false).Ok? && Apply(s, m, false).value.after.products == [ProductRow(0, 6000)]
  {
    assert m.reason[0] == 'B';
    MovementAcceptedIff(s, m);
    MovementByKind(s, m);
  }

  // ----- Order calls -----

  /** Nothing stands in the ledger under this reference. */
  predicate Unused(ledger: seq<Txn>, reference: string) {
    forall row :: row in ledger ==> row.reference != reference
  }

  /** A call on an unused key and a product that can bear it writes one row and moves that product. */
  lemma {:induction false} FreshCall(s: State, call: OrderCall)
    requires call.product < |s.products| && s.products[call.product].store == call.store
    requires call.kind == StockOut || call.kind == CustomerReturn
    requires call.quantity > 0 && Strip(call.reason) != ""
    requires s.products[call.product].stock >= if call.kind == StockOut then call.quantity else 0
    requires "order-item:" <= call.reference && Strip(call.reference) == call.reference && Unused(s.ledger, call.reference)
    ensures var o, stock := OrderStock(s.ledger, s, false, call), s.products[call.product].stock;
      var balance := if call.kind == StockOut then stock - call.quantity else stock + call.quantity;
      && o.result ==
         Ok(Txn(call.product, call.store, call.kind, if call.kind == StockOut then Out else In, call.quantity, stock, balance,
                call.reference, Strip(call.reason), None, None, None, None))
      && o.after == State(s.products[call.product := ProductRow(call.store, balance)], s.ledger + [o.result.value])
  {
    assert Newest(s.ledger, call.reference).None?;
    assert s.products[call.product] == ProductRow(call.store, s.products[call.product].stock);
  }

  /** The product is the store's and has at least `needed` on the shelf, and the order key is unused. */
  predicate Bears(s: State, product: ProductId, store: StoreId, needed: int, reference: string) {
    && product < |s.products| && s.products[product].store == store && s.products[product].stock >= needed
    && "order-item:" <= reference && Strip(reference) == reference && Unused(s.ledger, reference)
  }

  /** The deduction of an order item: one stock-out row, under the caller's reason or, if that is blank, the service's own. */
  lemma {:induction false} DeductionRow(s: State, product: ProductId, store: StoreId, quantity: int, reference: string, reason: string)
    requires quantity > 0 && Bears(s, product, store, quantity, reference)
    ensures var out := OrderStock(s.ledger, s, false, DeductCall(product, store, quantity, reference, reason));
      var stock := s.products[product].stock;
      var why := if Strip(reason) == "" then "Order stock deduction" else Strip(reason);
      && out.result ==
         Ok(Txn(product, store, StockOut, Out, quantity, stock, stock - quantity, reference, why, None, None, None, None))
      && out.after == State(s.products[product := ProductRow(store, stock - quantity)], s.ledger + [out.result.value])
  {
    FreshCall(s, DeductCall(product, store, quantity, reference, reason));
  }

  /** The restoration of an order item: one customer-return row, likewise. */
  lemma {:induction false} RestorationRow(s: State, product: ProductId, store: StoreId, quantity: int, reference: string, reason: string)
    requires quantity > 0 && Bears(s, product, store, 0, reference)
    ensures var back := OrderStock(s.ledger, s, false, RestoreCall(product, store, quantity, reference, reason));
      var stock := s.products[product].stock;
      var why := if Strip(reason) == "" then "Order stock restoration" else Strip(reason);
      && back.result ==
         Ok(Txn(product, store, CustomerReturn, In, quantity, stock, stock + quantity, reference, why, None, None, None, None))
      && back.after == State(s.products[product := ProductRow(store, stock + quantity)], s.ledger + [back.result.value])
  {
    FreshCall(s, RestoreCall(product, store, quantity, reference, reason));
  }

  // ----- Initialisation -----

  predicate RowOf(row: Txn, p: ProductId) {
    row.product == p
  }

  predicate HasRow(ledger: seq<Txn>, p: ProductId) {
    exists row :: row in ledger && RowOf(row, p)
  }

  lemma {:induction false} HistoryIsRow(ledger: seq<Txn>, p: ProductId)
    ensures HasHistory(ledger, p) <==> HasRow(ledger, p)
  {
    if HasHistory(ledger, p) {
      var i :| 0 <= i < |ledger| && ledger[i].product == p;
      assert RowOf(ledger[i], p);
    }
    if HasRow(ledger, p) {
      var row :| row in ledger && RowOf(row, p);
      var i :| 0 <= i < |ledger| && ledger[i] == row;
    }
  }

  /** The row that records a balance as opening stock. */
  predicate OpensWith(s: State, row: Txn) {
    && row.product < |s.products| && row.kind == Opening && row.direction == In
    && row.store == s.products[row.product].store
    && row.previous == 0 && row.quantity == row.balance == s.products[row.product].stock > 0
    && !HasRow(s.ledger, row.product)
  }

  lemma {:induction false} OpeningRow(s: State, p: ProductId)
    requires NeedsOpening(s, p)
    ensures var a := Apply(s, OpeningMovement(s, p, s.products[p].store, INITIALISED, ""), true);
      a.Ok? && a.value.after == State(s.products, s.ledger + [a.value.row]) && a.value.row.product == p && OpensWith(s, a.value.row)
  {
    HistoryIsRow(s.ledger, p);
    assert !OpeningRecorded(s.ledger, p);
  }

  lemma {:induction false} RowPush(ledger: seq<Txn>, row: Txn, p: ProductId)
    ensures HasRow(ledger + [row], p) <==> HasRow(ledger, p) || row.product == p
  {
    assert row in ledger + [row];
    if row.product == p {
      assert RowOf(row, p);
    }
  }

  /**
   * Initialisation gives exactly the products with a positive balance and no row at all one row each,
   * which records that balance; it writes nothing else.
   */
  lemma {:induction false} InitialisationRows(s: State, from: nat)
    ensures var after := InitialiseFrom(s, from);
      && after.products == s.products && s.ledger <= after.ledger
      && (forall k :: |s.ledger| <= k < |after.ledger| ==> OpensWith(s, after.ledger[k]) && after.ledger[k].product >= from)
      && (forall j, k :: |s.ledger| <= j < k < |after.ledger| ==> after.ledger[j].product < after.ledger[k].product)
      && (forall p: nat :: from <= p < |s.products| ==>
            (HasRow(after.ledger, p) <==> HasRow(s.ledger, p) || s.products[p].stock > 0))
    decreases |s.products| - from
  {
    if from < |s.products| {
      HistoryIsRow(s.ledger, from);
      if NeedsOpening(s, from) {
        OpeningRow(s, from);
        var next := Apply(s, OpeningMovement(s, from, s.products[from].store, INITIALISED, ""), true).value.after;
        InitialisationRows(next, from + 1);
        FirstOpened(s, next, InitialiseFrom(s, from), from);
      } else {
        InitialisationRows(s, from + 1);
        LedgerGrew(s, InitialiseFrom(s, from), from);
      }
    }
  }

  lemma {:induction false} KeepsRow(ledger: seq<Txn>, after: seq<Txn>, p: ProductId)
    requires ledger <= after && forall k :: |ledger| <= k < |after| ==> after[k].product != p
    ensures HasRow(after, p) <==> HasRow(ledger, p)
  {
    if HasRow(after, p) {
      var row :| row in after && RowOf(row, p);
      var k :| 0 <= k < |after| && after[k] == row;
      assert ledger[k] == row;
    }
    if HasRow(ledger, p) {
      var row :| row in ledger && RowOf(row, p);
      assert row in after;
    }
  }

  lemma {:induction false} LedgerGrew(s: State, after: State, from: nat)
    requires from < |s.products| && (HasRow(s.ledger, from) || s.products[from].stock <= 0)
    requires s.ledger <= after.ledger
    requires forall k :: |s.ledger| <= k < |after.ledger| ==> OpensWith(s, after.ledger[k]) && after.ledger[k].product >= from + 1
    ensures HasRow(after.ledger, from) <==> HasRow(s.ledger, from) || s.products[from].stock > 0
  {
    KeepsRow(s.ledger, after.ledger, from);
  }

  lemma {:induction false} FirstOpened(s: State, next: State, after: State, from: nat)
    requires from < |s.products| && s.products[from].stock > 0 && !HasRow(s.ledger, from)
    requires next.products == s.products && |next.ledger| == |s.ledger| + 1 && s.ledger <= next.ledger <= after.ledger
    requires OpensWith(s, next.ledger[|s.ledger|]) && next.ledger[|s.ledger|].product == from
    requires forall k :: |next.ledger| <= k < |after.ledger| ==> OpensWith(next, after.ledger[k]) && after.ledger[k].product >= from + 1
    requires forall p: nat :: from + 1 <= p < |s.products| ==>
      (HasRow(after.ledger, p) <==> HasRow(next.ledger, p) || s.products[p].stock > 0)
    ensures forall k :: |s.ledger| <= k < |after.ledger| ==> OpensWith(s, after.ledger[k]) && after.ledger[k].product >= from
    ensures forall p: nat :: from <= p < |s.products| ==>
      (HasRow(after.ledger, p) <==> HasRow(s.ledger, p) || s.products[p].stock > 0)
  {
    var row := next.ledger[|s.ledger|];
    assert next.ledger == s.ledger + [row];
    assert after.ledger[|s.ledger|] == row;
    forall p: nat ensures HasRow(next.ledger, p) <==> HasRow(s.ledger, p) || p == from {
      RowPush(s.ledger, row, p);
    }
    assert row in after.ledger && RowOf(row, from);
  }
}
