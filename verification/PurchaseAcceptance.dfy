/** Exactly when a purchase is accepted: the one refusal left after validation is a clash of references. */
module PurchaseAcceptance {
  import opened Wrappers
  import opened Purchases
  import opened PurchaseLaws
  import opened PurchaseRuns
  import I = Inventory

  /** No product is below zero, which every run of movements keeps. */
  predicate Stocked(stock: I.State) {
    forall p :: 0 <= p < |stock.products| ==> stock.products[p].stock >= 0
  }

  predicate Receivable(lines: seq<Line>) {
    forall k :: 0 <= k < |lines| ==> lines[k].quantity > 0 && lines[k].unitCost >= 0
  }

  predicate Dated(lines: seq<Line>, today: int) {
    forall k :: 0 <= k < |lines| ==> I.DatesOk(today, lines[k].made, lines[k].expires)
  }

  /**
   * All lines of an entry share one reference. Under the once-only prefix it serves a single line,
   * and only while no other movement carries it.
   */
  predicate ReferenceServes(ledger: seq<I.Txn>, reference: string, n: nat) {
    I.IsOrderReference(reference) && n > 0 ==> n == 1 && I.Newest(ledger, reference).None?
  }

  lemma {:induction false} MoveAcceptedIff(stock: I.State, store: nat, reference: string, line: Line, id: nat, today: int)
    requires Stocked(stock) && StoreRefusal(stock, store, line.product).None?
    requires line.quantity > 0 && line.unitCost >= 0
    ensures Move(stock, store, reference, line, id, today).Ok?
      <==> I.DatesOk(today, line.made, line.expires) && !I.Clashes(stock.ledger, reference)
  {
  }

  /** After a line is received its reference is taken, and no product went below zero. */
  lemma {:induction false} MoveTakesReference(stock: I.State, store: nat, reference: string, line: Line, id: nat, today: int)
    requires Stocked(stock) && line.quantity > 0 && Move(stock, store, reference, line, id, today).Ok?
    ensures var after := Move(stock, store, reference, line, id, today).value;
      Stocked(after) && SameStores(stock, after) && I.Newest(after.ledger, reference).Some?
  {
    var applied := I.Apply(stock, Receipt(store, reference, line, id, today), false).value;
    assert applied.after.ledger == stock.ledger + [applied.row];
  }

  lemma {:induction false} ReceiveAcceptedIff(
      stock: I.State, store: nat, reference: string, lines: seq<Line>, ids: seq<nat>, today: int, known: seq<Line>)
    requires |lines| == |ids| && lines <= known
    requires Stocked(stock) && Receivable(known) && StoresAgree(stock, store, known)
    ensures var received := ReceiveAll(stock, store, lines, ids, Receiver(store, reference, today));
      && (received.Ok? <==> Dated(lines, today) && ReferenceServes(stock.ledger, reference, |lines|))
      && (received.Ok? ==> Stocked(received.value) && StoresAgree(received.value, store, known))
      && (received.Ok? && lines != [] ==> I.Newest(received.value.ledger, reference).Some?)
      && (lines == [] ==> received == Ok(stock))
  {
    if lines != [] {
      var n := |lines| - 1;
      ReceiveAcceptedIff(stock, store, reference, lines[..n], ids[..n], today, known);
      assert lines == lines[..n] + [lines[n]] && lines[n] == known[n];
      var front := ReceiveAll(stock, store, lines[..n], ids[..n], Receiver(store, reference, today));
      if front.Ok? {
        LineAcceptedIff(front.value, store, reference, known, n, ids[n], today);
      }
    }
  }

  lemma {:induction false} LineAcceptedIff(
      stock: I.State, store: nat, reference: string, known: seq<Line>, n: nat, id: nat, today: int)
    requires n < |known| && Stocked(stock) && Receivable(known) && StoresAgree(stock, store, known)
    ensures var received := ReceiveOne(stock, store, known[n], id, Receiver(store, reference, today));
      && (received.Ok? <==> I.DatesOk(today, known[n].made, known[n].expires) && !I.Clashes(stock.ledger, reference))
      && (received.Ok? ==>
            && Stocked(received.value) && StoresAgree(received.value, store, known)
            && I.Newest(received.value.ledger, reference).Some?)
  {
    var line := known[n];
    assert StoreRefusal(stock, store, line.product).None?;
    MoveAcceptedIff(stock, store, reference, line, id, today);
    if Move(stock, store, reference, line, id, today).Ok? {
      MoveTakesReference(stock, store, reference, line, id, today);
      SameStoresAgree(stock, Move(stock, store, reference, line, id, today).value, store, known);
    }
  }

  lemma {:induction false} SameStoresAgree(before: I.State, after: I.State, store: nat, lines: seq<Line>)
    requires SameStores(before, after) && StoresAgree(before, store, lines)
    ensures StoresAgree(after, store, lines)
  {
    forall k | 0 <= k < |lines| ensures StoreRefusal(after, store, lines[k].product).None? {
      assert StoreRefusal(before, store, lines[k].product).None?;
    }
  }

  /**
   * A draft is confirmed if and only if its dates still hold and its reference can serve its lines.
   * With an invoice number under the once-only prefix, a draft of two lines can never be confirmed.
   */
  lemma {:induction false} ConfirmationAcceptedIff(b: Books, id: nat, actor: nat, today: int)
    requires Sound(b) && Stocked(b.stock)
    ensures ConfirmEntry(b, id, actor, today).Ok? <==>
      && id < |b.entries| && b.entries[id].status == Draft
      && Dated(Picked(b.lines, LinesOf(b.lines, id)), today)
      && ReferenceServes(b.stock.ledger, ReferenceOf(b.entries[id]), |LinesOf(b.lines, id)|)
  {
    if id < |b.entries| {
      var ids := LinesOf(b.lines, id);
      var lines := Picked(b.lines, ids);
      assert EntrySound(b, id);
      forall k | 0 <= k < |lines|
        ensures lines[k].quantity > 0 && lines[k].unitCost >= 0
        ensures StoreRefusal(b.stock, b.entries[id].store, lines[k].product).None?
      {
        assert LineSound(b, ids[k]);
      }
      ReceiveAcceptedIff(b.stock, b.entries[id].store, ReferenceOf(b.entries[id]), lines, ids, today, lines);
    }
  }

  /** A validated one-shot purchase is recorded if and only if its reference can serve its lines. */
  lemma {:induction false} StockInAcceptedIff(b: Books, request: Request, number: string, today: int)
    requires Sound(b) && Stocked(b.stock)
    ensures RecordStockIn(b, request, number, today).Ok? <==>
      && Validated(b, request, today).Ok?
      && ReferenceServes(b.stock.ledger, if request.invoice != "" then request.invoice else number, |request.lines|)
  {
    if Validated(b, request, today).Ok? {
      var lines, id := Validated(b, request, today).value, |b.entries|;
      var entry := NewEntry(request, number, Confirmed, LinesTotal(lines));
      var own, ids := Owned(lines, id), Span(|b.lines|, |lines|);
      SoundOwned(b);
      RecordedRows(b, request, number, today);
      forall k | 0 <= k < |own|
        ensures own[k].quantity > 0 && own[k].unitCost >= 0 && I.DatesOk(today, own[k].made, own[k].expires)
        ensures StoreRefusal(b.stock, entry.store, own[k].product).None?
      {
        assert Normal(lines[k], today) && StoreRefusal(b.stock, request.store, lines[k].product).None?;
      }
      ReceiveAcceptedIff(b.stock, entry.store, ReferenceOf(entry), own, ids, today, own);
      assert |lines| == |request.lines|;
    }
  }

  /** One product and no purchase yet. */
  predicate NewBooks(b: Books) {
    b.stock == I.State([I.ProductRow(0, 0)], []) && b.entries == [] && b.lines == []
  }

  /** `n` lines of one unit each under an invoice number with the once-only prefix. */
  predicate PrefixedRequest(request: Request, n: nat) {
    && request.store == 0 && request.supplier == "Farm" && request.invoice == "order-item:7" && request.date == 0
    && |request.lines| == n && forall k :: 0 <= k < n ==> request.lines[k] == RawLine(Some(0), 1000, 100, None, None)
  }

  lemma {:induction false} PrefixedValidates(b: Books, raw: seq<RawLine>)
    requires NewBooks(b) && forall k :: 0 <= k < |raw| ==> raw[k] == RawLine(Some(0), 1000, 100, None, None)
    ensures NormaliseAll(raw, 0).Ok?
    ensures forall k :: 0 <= k < |raw| ==> NormaliseAll(raw, 0).value[k].product == 0
  {
    if raw != [] {
      PrefixedValidates(b, raw[..|raw| - 1]);
    }
  }

  /** A purchase of one line goes through under such an invoice number; the same with more lines never does. */
  lemma {:induction false} PrefixedInvoice(b: Books, request: Request, n: nat)
    requires NewBooks(b) && PrefixedRequest(request, n) && n > 0
    ensures Validated(b, request, 0).Ok?
    ensures RecordStockIn(b, request, "PE-1", 0).Ok? <==> n == 1
  {
    PrefixedValidates(b, request.lines);
    var lines := NormaliseAll(request.lines, 0).value;
    assert forall k :: 0 <= k < |lines| ==> StoreRefusal(b.stock, request.store, lines[k].product).None?;
    assert StoreRefusals(b.stock, request.store, lines).None?;
    StockInAcceptedIff(b, request, "PE-1", 0);
    assert I.IsOrderReference("order-item:7");
  }
}
