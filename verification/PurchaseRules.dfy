/** Purchases against what was submitted: which requests pass, and what they leave in entries, lines, stock and ledger. */
module PurchaseRules {
  import opened Wrappers
  import opened Text
  import opened Sums
  import opened Purchases
  import opened PurchaseLaws
  import opened PurchaseRuns
  import I = Inventory
  import IR = InventoryRules

  // ----- Lines -----

  /** A line as submitted: a product, a positive quantity, no negative cost, dates in order and none made later than today. */
  predicate Complete(raw: RawLine, today: int) {
    && raw.product.Some? && raw.quantity > 0 && raw.unitCost >= 0
    && (raw.made.Some? ==> raw.made.value <= today)
    && (raw.made.Some? && raw.expires.Some? ==> raw.made.value <= raw.expires.value)
  }

  /** A stored line says what was submitted; its total is quantity times cost to the paisa, halves up. */
  predicate AsSubmitted(raw: RawLine, line: Line) {
    && raw.product == Some(line.product) && line.quantity == raw.quantity && line.unitCost == raw.unitCost
    && line.made == raw.made && line.expires == raw.expires
    && -1000 < 2 * (1000 * line.total - raw.quantity * raw.unitCost) <= 1000
  }

  predicate AllAsSubmitted(raw: seq<RawLine>, lines: seq<Line>) {
    |lines| == |raw| && forall k :: 0 <= k < |raw| ==> AsSubmitted(raw[k], lines[k])
  }

  lemma {:induction false} LineAsSubmitted(raw: RawLine, today: int)
    ensures Normalise(raw, today).Ok? <==> Complete(raw, today)
    ensures Normalise(raw, today).Ok? ==> AsSubmitted(raw, Normalise(raw, today).value)
  {
  }

  lemma {:induction false} LinesAsSubmitted(raw: seq<RawLine>, today: int)
    ensures NormaliseAll(raw, today).Ok? <==> forall k :: 0 <= k < |raw| ==> Complete(raw[k], today)
    ensures NormaliseAll(raw, today).Ok? ==> AllAsSubmitted(raw, NormaliseAll(raw, today).value)
  {
    if raw != [] {
      var n := |raw| - 1;
      LinesAsSubmitted(raw[..n], today);
      LineAsSubmitted(raw[n], today);
    }
  }

  predicate InStore(stock: I.State, store: nat, raw: RawLine) {
    raw.product.Some? && raw.product.value < |stock.products| && stock.products[raw.product.value].store == store
  }

  /** A request passes if and only if every line is complete and of the store, and supplier and date are in order. */
  lemma {:induction false} ValidatedIff(b: Books, request: Request, today: int)
    ensures Validated(b, request, today).Ok? <==>
      && request.lines != [] && request.supplier != "" && request.date <= today
      && forall k :: 0 <= k < |request.lines| ==>
           Complete(request.lines[k], today) && InStore(b.stock, request.store, request.lines[k])
    ensures Validated(b, request, today).Ok? ==> AllAsSubmitted(request.lines, Validated(b, request, today).value)
  {
    LinesAsSubmitted(request.lines, today);
    if NormaliseAll(request.lines, today).Ok? {
      var lines := NormaliseAll(request.lines, today).value;
      forall k | 0 <= k < |lines|
        ensures StoreRefusal(b.stock, request.store, lines[k].product).None? <==> InStore(b.stock, request.store, request.lines[k])
      {
        assert AsSubmitted(request.lines[k], lines[k]);
      }
    }
  }

  // ----- Sums over what was submitted -----

  function Submitted(p: nat): RawLine -> int {
    (raw: RawLine) => if raw.product == Some(p) then raw.quantity else 0
  }

  function RawCost(): RawLine -> int {
    (raw: RawLine) => raw.quantity * raw.unitCost
  }

  lemma {:induction false} QuantitiesSubmitted(raw: seq<RawLine>, lines: seq<Line>, id: nat, p: nat)
    requires AllAsSubmitted(raw, lines)
    ensures Sum(Owned(lines, id), QuantityOf(p)) == Sum(raw, Submitted(p))
  {
    forall k | 0 <= k < |raw| ensures QuantityOf(p)(Owned(lines, id)[k]) == Submitted(p)(raw[k]) {
      assert AsSubmitted(raw[k], lines[k]);
    }
    SumCongruent(Owned(lines, id), raw, QuantityOf(p), Submitted(p));
  }

  /** With n lines the total is within n/2 paise of the exact cost. */
  predicate TotalFor(raw: seq<RawLine>, total: int) {
    -1000 * |raw| <= 2 * (1000 * total - Sum(raw, RawCost())) <= 1000 * |raw|
  }

  lemma {:induction false} TotalSubmitted(raw: seq<RawLine>, lines: seq<Line>)
    requires AllAsSubmitted(raw, lines)
    ensures TotalFor(raw, LinesTotal(lines))
  {
    if raw != [] {
      var n := |raw| - 1;
      TotalSubmitted(raw[..n], lines[..n]);
      assert AsSubmitted(raw[n], lines[n]);
      assert LinesTotal(lines) == LinesTotal(lines[..n]) + lines[n].total;
      assert Sum(raw, RawCost()) == Sum(raw[..n], RawCost()) + raw[n].quantity * raw[n].unitCost;
    }
  }

  // ----- What a purchase leaves behind -----

  /** The new lines say what was submitted and belong to the new entry; older lines stay. */
  predicate LinesLeft(b: Books, after: Books, request: Request) {
    && b.lines <= after.lines && |after.lines| == |b.lines| + |request.lines|
    && forall k :: 0 <= k < |request.lines| ==>
         after.lines[|b.lines| + k].entry == |b.entries| && AsSubmitted(request.lines[k], after.lines[|b.lines| + k])
  }

  /** The new entry carries the request's own data and the total of its lines; older entries stay. */
  predicate EntryLeft(b: Books, after: Books, request: Request, number: string, confirmed: bool) {
    && |after.entries| == |b.entries| + 1 && b.entries <= after.entries
    && var entry := after.entries[|b.entries|];
       && entry.store == request.store && entry.supplier == request.supplier && entry.invoice == request.invoice
       && entry.number == number && entry.date == request.date && entry.createdBy == request.actor
       && entry.status == (if confirmed then Confirmed else Draft)
       && entry.confirmedBy == (if confirmed then Some(request.actor) else None)
       && TotalFor(request.lines, entry.total)
  }

  lemma {:induction false} OwnedLeft(b: Books, after: Books, request: Request, lines: seq<Line>)
    requires AllAsSubmitted(request.lines, lines) && after.lines == b.lines + Owned(lines, |b.entries|)
    ensures LinesLeft(b, after, request)
  {
    forall k | 0 <= k < |request.lines|
      ensures after.lines[|b.lines| + k].entry == |b.entries| && AsSubmitted(request.lines[k], after.lines[|b.lines| + k])
    {
      assert AsSubmitted(request.lines[k], lines[k]);
    }
  }

  /** A draft keeps what was submitted and leaves stock and ledger alone. */
  lemma {:induction false} DraftAsSubmitted(b: Books, request: Request, number: string, today: int)
    requires LinesOwned(b) && CreateEntry(b, request, number, today).Ok?
    ensures var done := CreateEntry(b, request, number, today).value;
      && done.id == |b.entries| && done.after.stock == b.stock
      && EntryLeft(b, done.after, request, number, false) && LinesLeft(b, done.after, request)
  {
    var lines := Validated(b, request, today).value;
    ValidatedIff(b, request, today);
    DraftRows(b, request, number, today);
    TotalSubmitted(request.lines, lines);
    OwnedLeft(b, CreateEntry(b, request, number, today).value.after, request, lines);
  }

  /** A receipt names its store, its reference and its reason, and the dates of its line. */
  predicate Labelled(row: I.Txn, store: nat, reference: string, line: Line) {
    && row.store == store && row.reference == reference && row.reason == "Purchase stock-in"
    && row.made == line.made && row.expires == line.expires
  }

  predicate AllLabelled(before: I.State, after: I.State, store: nat, reference: string, lines: seq<Line>) {
    && |after.ledger| == |before.ledger| + |lines|
    && forall k :: 0 <= k < |lines| ==> Labelled(after.ledger[|before.ledger| + k], store, reference, lines[k])
  }

  lemma {:induction false} ReceiptsLabelled(stock: I.State, store: nat, reference: string, lines: seq<Line>, ids: seq<nat>, today: int)
    requires |lines| == |ids| && ReceiveAll(stock, store, lines, ids, Receiver(store, reference, today)).Ok?
    ensures AllLabelled(stock, ReceiveAll(stock, store, lines, ids, Receiver(store, reference, today)).value, store, reference, lines)
  {
    if ids != [] {
      var n := |ids| - 1;
      ReceiptsLabelled(stock, store, reference, lines[..n], ids[..n], today);
      var front := ReceiveAll(stock, store, lines[..n], ids[..n], Receiver(store, reference, today)).value;
      var m := Receipt(store, reference, lines[n], ids[n], today);
      IR.MovementByKind(front, m);
      assert Strip("Purchase stock-in") == "Purchase stock-in";
    }
  }

  /** A row of the ledger that receives a submitted line. */
  predicate Receives(row: I.Txn, request: Request, number: string, raw: RawLine, id: nat) {
    && row.store == request.store && row.reason == "Purchase stock-in"
    && row.reference == (if request.invoice != "" then request.invoice else number)
    && row.made == raw.made && row.expires == raw.expires
    && row.kind == I.Purchase && row.direction == I.In && row.line == Some(id)
    && raw.product == Some(row.product) && row.quantity == raw.quantity && row.unitCost == Some(raw.unitCost)
  }

  /** Each product's stock rises by the quantities submitted for it, with one ledger row a line. */
  predicate StockLeft(b: Books, after: Books, request: Request, number: string) {
    && |after.stock.products| == |b.stock.products|
    && (forall p :: 0 <= p < |b.stock.products| ==>
          after.stock.products[p].stock == b.stock.products[p].stock + Sum(request.lines, Submitted(p)))
    && b.stock.ledger <= after.stock.ledger && |after.stock.ledger| == |b.stock.ledger| + |request.lines|
    && forall k :: 0 <= k < |request.lines| ==>
         Receives(after.stock.ledger[|b.stock.ledger| + k], request, number, request.lines[k], |b.lines| + k)
  }

  lemma {:induction false} ReceivedLeft(b: Books, after: Books, request: Request, number: string, lines: seq<Line>)
    requires AllAsSubmitted(request.lines, lines)
    requires ReceivedInto(b.stock, after.stock, Owned(lines, |b.entries|), Span(|b.lines|, |lines|))
    requires AllLabelled(b.stock, after.stock, request.store, if request.invoice != "" then request.invoice else number,
                         Owned(lines, |b.entries|))
    ensures StockLeft(b, after, request, number)
  {
    var own, ids := Owned(lines, |b.entries|), Span(|b.lines|, |lines|);
    forall p | 0 <= p < |b.stock.products|
      ensures after.stock.products[p].stock == b.stock.products[p].stock + Sum(request.lines, Submitted(p))
    {
      QuantitiesSubmitted(request.lines, lines, |b.entries|, p);
    }
    forall k | 0 <= k < |request.lines|
      ensures Receives(after.stock.ledger[|b.stock.ledger| + k], request, number, request.lines[k], |b.lines| + k)
    {
      assert AsSubmitted(request.lines[k], lines[k]) && own[k] == lines[k].(entry := |b.entries|);
      assert RowFor(after.stock.ledger[|b.stock.ledger| + k], own[k], ids[k]);
      var reference := if request.invoice != "" then request.invoice else number;
      assert Labelled(after.stock.ledger[|b.stock.ledger| + k], request.store, reference, own[k]);
    }
  }

  /**
   * A purchase recorded in one go receives exactly what was submitted: each product's stock rises by
   * the sum of the quantities of its lines, every line has its ledger row, and entry and lines carry
   * the submitted data, with a total within half a paisa per line of the exact cost.
   */
  lemma {:induction false} StockInAsSubmitted(b: Books, request: Request, number: string, today: int)
    requires LinesOwned(b) && RecordStockIn(b, request, number, today).Ok?
    ensures var done := RecordStockIn(b, request, number, today).value;
      && done.id == |b.entries| && StockLeft(b, done.after, request, number)
      && EntryLeft(b, done.after, request, number, true) && LinesLeft(b, done.after, request)
  {
    var lines := Validated(b, request, today).value;
    var entry := NewEntry(request, number, Confirmed, LinesTotal(lines));
    var after := RecordStockIn(b, request, number, today).value.after;
    ValidatedIff(b, request, today);
    RecordedRows(b, request, number, today);
    OneRowPerLine(b.stock, entry.store, ReferenceOf(entry), Owned(lines, |b.entries|), Span(|b.lines|, |lines|), today);
    ReceiptsLabelled(b.stock, entry.store, ReferenceOf(entry), Owned(lines, |b.entries|), Span(|b.lines|, |lines|), today);
    TotalSubmitted(request.lines, lines);
    OwnedLeft(b, after, request, lines);
    ReceivedLeft(b, after, request, number, lines);
  }

  /** So does a draft that is confirmed. */
  lemma {:induction false} ConfirmedDraftAsSubmitted(b: Books, request: Request, number: string, today: int)
    requires LinesOwned(b) && CreateThenConfirm(b, request, number, today).Ok?
    ensures var done := CreateThenConfirm(b, request, number, today).value;
      && done.id == |b.entries| && StockLeft(b, done.after, request, number)
      && EntryLeft(b, done.after, request, number, true) && LinesLeft(b, done.after, request)
  {
    OneShotIsCreateThenConfirm(b, request, number, today);
    StockInAsSubmitted(b, request, number, today);
  }

  // ----- Confirming later -----

  function OwnQuantity(id: nat, p: nat): Line -> int {
    (line: Line) => if line.entry == id && line.product == p then line.quantity else 0
  }

  lemma {:induction false} PickedQuantity(lines: seq<Line>, id: nat, p: nat)
    ensures Sum(Picked(lines, LinesOf(lines, id)), QuantityOf(p)) == Sum(lines, OwnQuantity(id, p))
  {
    var ids := LinesOf(lines, id);
    if lines == [] {
      assert Picked(lines, ids) == [];
    } else {
      var n := |lines| - 1;
      PickedQuantity(lines[..n], id, p);
      var front := LinesOf(lines[..n], id);
      if lines[n].entry == id {
        assert Picked(lines, ids) == Picked(lines[..n], front) + [lines[n]];
        SumPush(Picked(lines[..n], front), lines[n], QuantityOf(p));
      } else {
        assert Picked(lines, ids) == Picked(lines[..n], front);
      }
    }
  }

  /**
   * Confirming a draft, whenever it is done, raises each product's stock by what the lines of that
   * entry say of it, and settles the entry; every other entry and all lines stay.
   */
  lemma {:induction false} ConfirmationReceives(b: Books, id: nat, actor: nat, today: int, p: nat)
    requires ConfirmEntry(b, id, actor, today).Ok? && p < |b.stock.products|
    ensures var after := ConfirmEntry(b, id, actor, today).value.after;
      && id < |b.entries| && |after.stock.products| == |b.stock.products|
      && after.stock.products[p].stock == b.stock.products[p].stock + Sum(b.lines, OwnQuantity(id, p))
      && after.lines == b.lines
      && after.entries == b.entries[id := b.entries[id].(status := Confirmed, confirmedBy := Some(actor),
                                                         total := Sum(b.lines, Weight(id)))]
  {
    var ids, entry := LinesOf(b.lines, id), b.entries[id];
    OneRowPerLine(b.stock, entry.store, ReferenceOf(entry), Picked(b.lines, ids), ids, today);
    PickedQuantity(b.lines, id, p);
  }
}
