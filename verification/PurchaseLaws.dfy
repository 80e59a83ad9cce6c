/** One-shot stock-in refines draft creation followed by confirmation, and what each receipt does to stock. */
module PurchaseLaws {
  import opened Wrappers
  import opened Sums
  import opened Purchases
  import I = Inventory
  import IL = InventoryLaws

  // ----- Closed forms -----

  function Owned(lines: seq<Line>, id: nat): seq<Line> {
    seq(|lines|, k requires 0 <= k < |lines| => lines[k].(entry := id))
  }

  function Span(from: nat, n: nat): seq<nat> {
    seq(n, k => from + k)
  }

  predicate Unused(lines: seq<Line>, id: nat) {
    forall k :: 0 <= k < |lines| ==> lines[k].entry != id
  }

  lemma {:induction false} OwnedPush(lines: seq<Line>, line: Line, id: nat)
    ensures Owned(lines + [line], id) == Owned(lines, id) + [line.(entry := id)]
    ensures lines + [line] != []
  {
  }

  /** The stored total is the sum over the saved lines after every single save. */
  lemma {:induction false} TotalAfterEverySave(b: Books, id: nat, lines: seq<Line>)
    requires id < |b.entries|
    ensures var all := b.lines + Owned(lines, id);
      SaveLines(b, id, lines) == Books(b.stock, if lines == [] then b.entries else Recalculated(b.entries, all, id), all)
  {
    if lines == [] {
      assert b.lines + Owned(lines, id) == b.lines;
    } else {
      var n := |lines| - 1;
      TotalAfterEverySave(b, id, lines[..n]);
      assert lines == lines[..n] + [lines[n]];
      OwnedPush(lines[..n], lines[n], id);
      assert b.lines + Owned(lines[..n], id) + [lines[n].(entry := id)] == b.lines + Owned(lines, id);
    }
  }

  lemma {:induction false} TotalOfNewEntry(before: seq<Line>, lines: seq<Line>, id: nat)
    requires Unused(before, id)
    ensures TotalOf(before + Owned(lines, id), id) == LinesTotal(lines)
  {
    SumAppend(before, Owned(lines, id), Weight(id));
    SumZero(before, Weight(id));
    SumCongruent(Owned(lines, id), lines, Weight(id), (line: Line) => line.total);
  }

  lemma {:induction false} LinesOfNewEntry(before: seq<Line>, lines: seq<Line>, id: nat)
    requires Unused(before, id)
    ensures LinesOf(before + Owned(lines, id), id) == Span(|before|, |lines|)
  {
    var all := before + Owned(lines, id);
    if lines != [] {
      var n := |lines| - 1;
      LinesOfNewEntry(before, lines[..n], id);
      assert all[..|all| - 1] == before + Owned(lines[..n], id);
      assert Span(|before|, n) + [|before| + n] == Span(|before|, n + 1);
    } else {
      assert all == before;
      NoLinesOf(before, id);
    }
  }

  lemma {:induction false} NoLinesOf(lines: seq<Line>, id: nat)
    requires Unused(lines, id)
    ensures LinesOf(lines, id) == []
  {
    if lines != [] {
      NoLinesOf(lines[..|lines| - 1], id);
    }
  }

  // ----- Receiving -----

  predicate StoresAgree(stock: I.State, store: nat, lines: seq<Line>) {
    forall k :: 0 <= k < |lines| ==> StoreRefusal(stock, store, lines[k].product).None?
  }

  predicate SameStores(before: I.State, after: I.State) {
    |after.products| == |before.products|
    && forall p :: 0 <= p < |before.products| ==> after.products[p].store == before.products[p].store
  }

  ghost predicate KeepsStores(move: Mover) {
    forall stock, line, id :: move(stock, line, id).Ok? ==> SameStores(stock, move(stock, line, id).value)
  }

  lemma {:induction false} ReceiverKeepsStores(store: nat, reference: string, today: int)
    ensures KeepsStores(Receiver(store, reference, today))
  {
    var move := Receiver(store, reference, today);
    forall stock, line, id | move(stock, line, id).Ok? ensures SameStores(stock, move(stock, line, id).value) {
      IL.AppliedRow(stock, Receipt(store, reference, line, id, today), false);
    }
  }

  /** Receiving the lines an entry is about to be given. */
  function Received(b: Books, id: nat, lines: seq<Line>, move: Mover): Result<I.State, Error>
    requires id < |b.entries|
  {
    ReceiveAll(b.stock, b.entries[id].store, Owned(lines, id), Span(|b.lines|, |lines|), move)
  }

  lemma {:induction false} ArgumentsPush(b: Books, id: nat, front: seq<Line>, line: Line)
    ensures Owned(front + [line], id) == Owned(front, id) + [line.(entry := id)]
    ensures Span(|b.lines|, |front + [line]|) == Span(|b.lines|, |front|) + [|b.lines| + |front|]
  {
  }

  lemma {:induction false} ReceivedPush(b: Books, id: nat, front: seq<Line>, line: Line, move: Mover)
    requires id < |b.entries|
    ensures Received(b, id, front + [line], move) ==
      ReceiveNext(Received(b, id, front, move), b.entries[id].store, line.(entry := id), |b.lines| + |front|, move)
  {
    ArgumentsPush(b, id, front, line);
    ReceivePush(b.stock, b.entries[id].store, Owned(front, id), Span(|b.lines|, |front|), line.(entry := id), |b.lines| + |front|, move);
  }

  lemma {:induction false} ReceivePush(
      stock: I.State, store: nat, lines: seq<Line>, ids: seq<nat>, line: Line, id: nat, move: Mover)
    requires |lines| == |ids|
    ensures ReceiveAll(stock, store, lines + [line], ids + [id], move) ==
      ReceiveNext(ReceiveAll(stock, store, lines, ids, move), store, line, id, move)
  {
    assert (lines + [line])[..|lines|] == lines && (ids + [id])[..|ids|] == ids;
  }

  lemma {:induction false} SavedCount(b: Books, id: nat, lines: seq<Line>)
    requires id < |b.entries|
    ensures |SaveLines(b, id, lines).lines| == |b.lines| + |lines|
  {
    TotalAfterEverySave(b, id, lines);
  }

  function Both(received: Result<I.State, Error>, saved: Books): Result<Books, Error> {
    match received
    case Err(error) => Err(error)
    case Ok(stock) => Ok(saved.(stock := stock))
  }

  lemma {:induction false} SaveIgnoresStock(b: Books, stock: I.State, id: nat, line: Line)
    requires id < |b.entries|
    ensures SaveLine(b.(stock := stock), id, line) == SaveLine(b, id, line).(stock := stock)
  {
  }

  lemma {:induction false} SavePush(b: Books, id: nat, front: seq<Line>, line: Line)
    requires id < |b.entries|
    ensures SaveLines(b, id, front + [line]) == SaveLine(SaveLines(b, id, front), id, line)
  {
    assert (front + [line])[..|front|] == front;
  }

  lemma {:induction false} RecordPush(b: Books, id: nat, front: seq<Line>, line: Line, move: Mover)
    requires id < |b.entries| && RecordLines(b, id, front, move).Ok?
    ensures RecordLines(b, id, front + [line], move) == RecordNext(RecordLines(b, id, front, move).value, id, line, move)
  {
    assert (front + [line])[..|front|] == front;
  }

  lemma {:induction false} ReceivedStores(b: Books, id: nat, lines: seq<Line>, move: Mover)
    requires id < |b.entries| && Received(b, id, lines, move).Ok? && KeepsStores(move)
    ensures SameStores(b.stock, Received(b, id, lines, move).value)
  {
    if lines != [] {
      var n := |lines| - 1;
      assert lines == lines[..n] + [lines[n]];
      ReceivedPush(b, id, lines[..n], lines[n], move);
      ReceivedStores(b, id, lines[..n], move);
    } else {
      assert Owned(lines, id) == [] && Span(|b.lines|, 0) == [];
    }
  }

  /** Saving and receiving line by line is saving them all and receiving them all. */
  lemma {:induction false} RecordSplits(b: Books, id: nat, lines: seq<Line>, move: Mover)
    requires id < |b.entries| && StoresAgree(b.stock, b.entries[id].store, lines) && KeepsStores(move)
    ensures RecordLines(b, id, lines, move) == Both(Received(b, id, lines, move), SaveLines(b, id, lines))
  {
    if lines == [] {
      assert Owned(lines, id) == [] && Span(|b.lines|, 0) == [];
    } else {
      var n := |lines| - 1;
      var front, line := lines[..n], lines[n];
      assert lines == front + [line];
      RecordSplits(b, id, front, move);
      ReceivedPush(b, id, front, line, move);
      if Received(b, id, front, move).Ok? {
        ReceivedStores(b, id, front, move);
        assert StoreRefusal(b.stock, b.entries[id].store, lines[n].product).None?;
        SavedCount(b, id, front);
        SavePush(b, id, front, line);
        RecordPush(b, id, front, line, move);
        SaveIgnoresStock(SaveLines(b, id, front), Received(b, id, front, move).value, id, line);
      }
    }
  }

  // ----- The refinement -----

  /** No line belongs to an entry that does not exist. */
  predicate LinesOwned(b: Books) {
    forall k :: 0 <= k < |b.lines| ==> b.lines[k].entry < |b.entries|
  }

  /** Creates a draft and confirms it, in one transaction. */
  function CreateThenConfirm(b: Books, request: Request, number: string, today: int): Result<Done, Error> {
    match CreateEntry(b, request, number, today)
    case Err(error) => Err(error)
    case Ok(created) => ConfirmEntry(created.after, created.id, request.actor, today)
  }

  lemma {:induction false} RecalculatedNew(entries: seq<Entry>, entry: Entry, lines: seq<Line>)
    ensures Recalculated(entries + [entry], lines, |entries|) == entries + [entry.(total := TotalOf(lines, |entries|))]
  {
  }

  /** The draft as `create_purchase_entry` leaves it. */
  lemma {:induction false} DraftRows(b: Books, request: Request, number: string, today: int)
    requires LinesOwned(b) && CreateEntry(b, request, number, today).Ok?
    ensures var lines, id := Validated(b, request, today).value, |b.entries|;
      var entry := NewEntry(request, number, Draft, LinesTotal(lines));
      CreateEntry(b, request, number, today)
        == Ok(Done(Books(b.stock, b.entries + [entry], b.lines + Owned(lines, id)), id))
  {
    var lines, id := Validated(b, request, today).value, |b.entries|;
    var start := b.(entries := b.entries + [NewEntry(request, number, Draft, 0)]);
    TotalAfterEverySave(start, id, lines);
    TotalOfNewEntry(b.lines, lines, id);
    var all := b.lines + Owned(lines, id);
    RecalculatedNew(b.entries, start.entries[id], all);
    RecalculatedNew(b.entries, start.entries[id].(total := LinesTotal(lines)), all);
  }

  lemma {:induction false} RecordedRows(b: Books, request: Request, number: string, today: int)
    requires LinesOwned(b) && Validated(b, request, today).Ok?
    ensures var lines, id := Validated(b, request, today).value, |b.entries|;
      var entry := NewEntry(request, number, Confirmed, LinesTotal(lines));
      RecordStockIn(b, request, number, today) ==
        match ReceiveAll(b.stock, entry.store, Owned(lines, id), Span(|b.lines|, |lines|), Receiver(entry.store, ReferenceOf(entry), today))
        case Err(error) => Err(error)
        case Ok(stock) => Ok(Done(Books(stock, b.entries + [entry], b.lines + Owned(lines, id)), id))
  {
    var lines, id := Validated(b, request, today).value, |b.entries|;
    var entry := NewEntry(request, number, Confirmed, LinesTotal(lines));
    var start := b.(entries := b.entries + [entry]);
    ReceiverKeepsStores(entry.store, ReferenceOf(entry), today);
    RecordSplits(start, id, lines, Receiver(entry.store, ReferenceOf(entry), today));
    TotalAfterEverySave(start, id, lines);
    TotalOfNewEntry(b.lines, lines, id);
    var all := b.lines + Owned(lines, id);
    RecalculatedNew(b.entries, start.entries[id], all);
    RecalculatedNew(b.entries, start.entries[id].(total := LinesTotal(lines)), all);
  }

  /** Confirming an entry whose lines were all saved by its creation. */
  lemma {:induction false} ConfirmedRows(
      b: Books, before: seq<Entry>, entry: Entry, prior: seq<Line>, lines: seq<Line>, actor: nat, today: int)
    requires entry.status == Draft && entry.total == LinesTotal(lines) && lines != []
    requires Unused(prior, |before|)
    requires b.entries == before + [entry] && b.lines == prior + Owned(lines, |before|)
    ensures ConfirmEntry(b, |before|, actor, today) ==
      Settled(b, ReceiveAll(b.stock, entry.store, Owned(lines, |before|), Span(|prior|, |lines|),
                            Receiver(entry.store, ReferenceOf(entry), today)),
              before + [entry.(status := Confirmed, confirmedBy := Some(actor))], |before|)
  {
    var id := |before|;
    LinesOfNewEntry(prior, lines, id);
    TotalOfNewEntry(prior, lines, id);
    PickedOwned(prior, lines, id);
    RecalculatedNew(before, entry, b.lines);
    assert |LinesOf(b.lines, id)| == |lines|;
    assert b.entries[id := entry.(status := Confirmed, confirmedBy := Some(actor))]
        == before + [entry.(status := Confirmed, confirmedBy := Some(actor))];
  }

  function Settled(b: Books, received: Result<I.State, Error>, entries: seq<Entry>, id: nat): Result<Done, Error> {
    match received
    case Err(error) => Err(error)
    case Ok(stock) => Ok(Done(Books(stock, entries, b.lines), id))
  }

  lemma {:induction false} PickedOwned(prior: seq<Line>, lines: seq<Line>, id: nat)
    ensures forall k :: 0 <= k < |lines| ==> Span(|prior|, |lines|)[k] < |prior| + |lines|
    ensures Picked(prior + Owned(lines, id), Span(|prior|, |lines|)) == Owned(lines, id)
  {
  }

  /**
   * Recording a purchase in one go is creating a draft and confirming it, for every list of lines:
   * the same stock, ledger, entries, lines and totals, or the same refusal.
   */
  lemma {:induction false} OneShotIsCreateThenConfirm(b: Books, request: Request, number: string, today: int)
    requires LinesOwned(b)
    ensures RecordStockIn(b, request, number, today) == CreateThenConfirm(b, request, number, today)
  {
    if Validated(b, request, today).Ok? {
      var lines, id := Validated(b, request, today).value, |b.entries|;
      var draft := NewEntry(request, number, Draft, LinesTotal(lines));
      RecordedRows(b, request, number, today);
      DraftRows(b, request, number, today);
      ConfirmedRows(CreateEntry(b, request, number, today).value.after, b.entries, draft, b.lines, lines, request.actor, today);
    }
  }
}
