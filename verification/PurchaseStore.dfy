/** The purchase services as they run: rows written in loops, rolled back when a step raises. */
module PurchaseStore {
  import opened Wrappers
  import opened Purchases
  import opened PurchaseLaws
  import I = Inventory
  import S = InventoryStore

  /** A line that fails validation fails the whole list, whatever follows it. */
  lemma {:induction false} RefusedPrefix(raw: seq<RawLine>, today: int, k: nat)
    requires k < |raw| && NormaliseAll(raw[..k + 1], today).Err?
    ensures NormaliseAll(raw, today) == NormaliseAll(raw[..k + 1], today)
  {
    var n := |raw| - 1;
    if k == n {
      assert raw[..k + 1] == raw;
    } else {
      assert raw[..n][..k + 1] == raw[..k + 1];
      RefusedPrefix(raw[..n], today, k);
    }
  }

  lemma {:induction false} RefusedStore(stock: I.State, store: nat, lines: seq<Line>, k: nat)
    requires k < |lines| && StoreRefusals(stock, store, lines[..k + 1]).Some?
    ensures StoreRefusals(stock, store, lines) == StoreRefusals(stock, store, lines[..k + 1])
  {
    var n := |lines| - 1;
    if k == n {
      assert lines[..k + 1] == lines;
    } else {
      assert lines[..n][..k + 1] == lines[..k + 1];
      RefusedStore(stock, store, lines[..n], k);
    }
  }

  /** Receiving line by line: one more line, and in the end all of them. */
  lemma {:induction false} ReceivePrefix(stock: I.State, store: nat, lines: seq<Line>, ids: seq<nat>, k: nat, move: Mover)
    requires |lines| == |ids| && k <= |ids|
    ensures k < |ids| ==>
      ReceiveAll(stock, store, lines[..k + 1], ids[..k + 1], move)
      == ReceiveNext(ReceiveAll(stock, store, lines[..k], ids[..k], move), store, lines[k], ids[k], move)
    ensures k == |ids| ==> ReceiveAll(stock, store, lines[..k], ids[..k], move) == ReceiveAll(stock, store, lines, ids, move)
  {
    if k < |ids| {
      assert lines[..k + 1] == lines[..k] + [lines[k]] && ids[..k + 1] == ids[..k] + [ids[k]];
      ReceivePush(stock, store, lines[..k], ids[..k], lines[k], ids[k], move);
    } else {
      assert lines[..k] == lines && ids[..k] == ids;
    }
  }

  lemma {:induction false} RefusedReceipt(stock: I.State, store: nat, lines: seq<Line>, ids: seq<nat>, k: nat, move: Mover)
    requires |lines| == |ids| && k < |ids| && ReceiveAll(stock, store, lines[..k + 1], ids[..k + 1], move).Err?
    ensures ReceiveAll(stock, store, lines, ids, move) == ReceiveAll(stock, store, lines[..k + 1], ids[..k + 1], move)
  {
    var n := |ids| - 1;
    if k == n {
      assert lines[..k + 1] == lines && ids[..k + 1] == ids;
    } else {
      assert lines[..n][..k + 1] == lines[..k + 1] && ids[..n][..k + 1] == ids[..k + 1];
      RefusedReceipt(stock, store, lines[..n], ids[..n], k, move);
    }
  }

  lemma {:induction false} RecordPrefix(b: Books, id: nat, lines: seq<Line>, k: nat, move: Mover)
    requires id < |b.entries| && k <= |lines| && RecordLines(b, id, lines[..k], move).Ok?
    ensures k < |lines| ==>
      RecordLines(b, id, lines[..k + 1], move) == RecordNext(RecordLines(b, id, lines[..k], move).value, id, lines[k], move)
    ensures k == |lines| ==> RecordLines(b, id, lines, move) == RecordLines(b, id, lines[..k], move)
  {
    if k < |lines| {
      assert lines[..k + 1] == lines[..k] + [lines[k]];
      RecordPush(b, id, lines[..k], lines[k], move);
    } else {
      assert lines[..k] == lines;
    }
  }

  lemma {:induction false} RefusedRecord(b: Books, id: nat, lines: seq<Line>, k: nat, move: Mover)
    requires id < |b.entries| && k < |lines| && RecordLines(b, id, lines[..k + 1], move).Err?
    ensures RecordLines(b, id, lines, move) == RecordLines(b, id, lines[..k + 1], move)
  {
    var n := |lines| - 1;
    if k == n {
      assert lines[..k + 1] == lines;
    } else {
      assert lines[..n][..k + 1] == lines[..k + 1];
      RefusedRecord(b, id, lines[..n], k, move);
    }
  }

  class PurchaseStore {
    const inventory: S.InventoryStore
    var entries: seq<Entry>
    var lines: seq<Line>

    function Current(): Books
      reads this, inventory
    {
      Books(inventory.Current(), entries, lines)
    }

    constructor (b: Books)
      ensures Current() == b && fresh(inventory)
    {
      inventory := new S.InventoryStore(b.stock.products, b.stock.ledger);
      entries, lines := b.entries, b.lines;
    }

    /** Puts every table back, as a rollback does. */
    method Restore(b: Books)
      modifies this, inventory
      ensures Current() == b
    {
      inventory.products, inventory.ledger := b.stock.products, b.stock.ledger;
      entries, lines := b.entries, b.lines;
    }

    method Validate(request: Request, today: int) returns (r: Result<seq<Line>, Error>)
      ensures r == Validated(Current(), request, today)
    {
      if request.lines == [] { return Err(NoLines); }
      var normal := [];
      var k := 0;
      while k < |request.lines|
        invariant k <= |request.lines| && NormaliseAll(request.lines[..k], today) == Ok(normal)
      {
        assert request.lines[..k + 1][..k] == request.lines[..k];
        var line := Normalise(request.lines[k], today);
        if line.Err? {
          RefusedPrefix(request.lines, today, k);
          return Err(line.error);
        }
        normal := normal + [line.value];
        k := k + 1;
      }
      assert request.lines[..k] == request.lines;
      var stock := inventory.Current();
      k := 0;
      while k < |normal|
        invariant k <= |normal| && StoreRefusals(stock, request.store, normal[..k]).None?
      {
        assert normal[..k + 1][..k] == normal[..k];
        var refusal := StoreRefusal(stock, request.store, normal[k].product);
        if refusal.Some? {
          RefusedStore(stock, request.store, normal, k);
          return Err(refusal.value);
        }
        k := k + 1;
      }
      assert normal[..k] == normal;
      if request.supplier == "" || request.date > today { return Err(InvalidEntry); }
      return Ok(normal);
    }

    /** Adds up the line totals of an entry and stores the sum on it. */
    method RecalculateTotalCost(id: nat)
      requires id < |entries|
      modifies this`entries
      ensures entries == Recalculated(old(entries), lines, id)
    {
      var total, k := 0, 0;
      while k < |lines|
        invariant k <= |lines| && total == TotalOf(lines[..k], id)
      {
        assert lines[..k + 1][..k] == lines[..k];
        if lines[k].entry == id {
          total := total + lines[k].total;
        }
        k := k + 1;
      }
      assert lines[..k] == lines;
      entries := entries[id := entries[id].(total := total)];
    }

    /** The line and its entry's total, which therefore is right after every single save. */
    method SaveEntryLine(id: nat, line: Line)
      requires id < |entries|
      modifies this
      ensures Current() == SaveLine(old(Current()), id, line)
    {
      lines := lines + [line.(entry := id)];
      RecalculateTotalCost(id);
    }

    method CreatePurchaseEntry(request: Request, number: string, today: int) returns (r: Result<nat, Error>)
      modifies this
      ensures match CreateEntry(old(Current()), request, number, today)
        case Ok(done) => r == Ok(done.id) && Current() == done.after
        case Err(error) => r == Err(error) && Current() == old(Current())
    {
      var validated := Validate(request, today);
      if validated.Err? { return Err(validated.error); }
      var normal, id := validated.value, |entries|;
      entries := entries + [NewEntry(request, number, Draft, 0)];
      ghost var start := Current();
      var k := 0;
      while k < |normal|
        invariant k <= |normal| && id < |entries| && Current() == SaveLines(start, id, normal[..k])
      {
        assert normal[..k + 1][..k] == normal[..k];
        SaveEntryLine(id, normal[k]);
        k := k + 1;
      }
      assert normal[..k] == normal;
      RecalculateTotalCost(id);
      return Ok(id);
    }

    /** One PURCHASE movement. */
    method Receive(store: nat, reference: string, line: Line, id: nat, today: int) returns (failure: Option<Error>)
      modifies inventory
      ensures match Move(old(inventory.Current()), store, reference, line, id, today)
        case Ok(stock) => failure.None? && inventory.Current() == stock
        case Err(error) => failure == Some(error) && inventory.Current() == old(inventory.Current())
    {
      var txn := inventory.ApplyStockMovement(Receipt(store, reference, line, id, today), false);
      return if txn.Err? then Some(StockRefused(txn.error)) else None;
    }

    method ConfirmPurchaseEntry(id: nat, actor: nat, today: int) returns (r: Result<nat, Error>)
      modifies this, inventory
      ensures match ConfirmEntry(old(Current()), id, actor, today)
        case Ok(done) => r == Ok(done.id) && Current() == done.after
        case Err(error) => r == Err(error) && Current() == old(Current())
    {
      if id >= |entries| { return Err(NoSuchEntry); }
      if entries[id].status != Draft { return Err(NotDraft); }
      var ids := LinesOf(lines, id);
      if ids == [] { return Err(NoLines); }
      var savepoint := Current();
      var failure := ReceiveLines(entries[id].store, ReferenceOf(entries[id]), Picked(lines, ids), ids, today);
      if failure.Some? {
        Restore(savepoint);
        return Err(failure.value);
      }
      RecalculateTotalCost(id);
      entries := entries[id := entries[id].(status := Confirmed, confirmedBy := Some(actor))];
      return Ok(id);
    }

    method ReceiveLines(store: nat, reference: string, picked: seq<Line>, ids: seq<nat>, today: int) returns (failure: Option<Error>)
      requires |picked| == |ids|
      modifies inventory
      ensures match ReceiveAll(old(inventory.Current()), store, picked, ids, Receiver(store, reference, today))
        case Ok(stock) => failure.None? && inventory.Current() == stock
        case Err(error) => failure == Some(error)
    {
      ghost var start, move := inventory.Current(), Receiver(store, reference, today);
      var k := 0;
      while k < |ids|
        invariant k <= |ids|
        invariant ReceiveAll(start, store, picked[..k], ids[..k], move) == Ok(inventory.Current())
      {
        ReceivePrefix(start, store, picked, ids, k, move);
        failure := ReceiveChecked(store, reference, picked[k], ids[k], today);
        if failure.Some? {
          RefusedReceipt(start, store, picked, ids, k, move);
          return;
        }
        k := k + 1;
      }
      ReceivePrefix(start, store, picked, ids, k, move);
      return None;
    }

    /** One line of a confirmation: the store once more, then the movement. */
    method ReceiveChecked(store: nat, reference: string, line: Line, id: nat, today: int) returns (failure: Option<Error>)
      modifies inventory
      ensures match ReceiveOne(old(inventory.Current()), store, line, id, Receiver(store, reference, today))
        case Ok(stock) => failure.None? && inventory.Current() == stock
        case Err(error) => failure == Some(error)
    {
      failure := StoreRefusal(inventory.Current(), store, line.product);
      if failure.None? {
        failure := Receive(store, reference, line, id, today);
      }
    }

    /** Saves and receives one line after the other; a refused movement takes everything back. */
    method RecordPurchaseStockIn(request: Request, number: string, today: int) returns (r: Result<nat, Error>)
      modifies this, inventory
      ensures match RecordStockIn(old(Current()), request, number, today)
        case Ok(done) => r == Ok(done.id) && Current() == done.after
        case Err(error) => r == Err(error) && Current() == old(Current())
    {
      var validated := Validate(request, today);
      if validated.Err? { return Err(validated.error); }
      var normal, id, savepoint := validated.value, |entries|, Current();
      entries := entries + [NewEntry(request, number, Confirmed, LinesTotal(normal))];
      var failure := RecordEntryLines(id, normal, today);
      if failure.Some? {
        Restore(savepoint);
        return Err(failure.value);
      }
      RecalculateTotalCost(id);
      return Ok(id);
    }

    method RecordEntryLine(id: nat, store: nat, reference: string, line: Line, today: int) returns (failure: Option<Error>)
      requires id < |entries|
      modifies this, inventory
      ensures match RecordNext(old(Current()), id, line, Receiver(store, reference, today))
        case Ok(after) => failure.None? && Current() == after
        case Err(error) => failure == Some(error)
    {
      SaveEntryLine(id, line);
      var saved := |lines| - 1;
      failure := Receive(store, reference, lines[saved], saved, today);
    }

    method RecordEntryLines(id: nat, normal: seq<Line>, today: int) returns (failure: Option<Error>)
      requires id < |entries|
      modifies this, inventory
      ensures match RecordLines(old(Current()), id, normal, Receiver(old(entries)[id].store, ReferenceOf(old(entries)[id]), today))
        case Ok(after) => failure.None? && Current() == after
        case Err(error) => failure == Some(error)
    {
      var store, reference := entries[id].store, ReferenceOf(entries[id]);
      ghost var start, move := Current(), Receiver(store, reference, today);
      var k := 0;
      while k < |normal|
        invariant k <= |normal| && id < |entries|
        invariant RecordLines(start, id, normal[..k], move) == Ok(Current())
      {
        RecordPrefix(start, id, normal, k, move);
        failure := RecordEntryLine(id, store, reference, normal[k], today);
        if failure.Some? {
          RefusedRecord(start, id, normal, k, move);
          return;
        }
        k := k + 1;
      }
      RecordPrefix(start, id, normal, k, move);
      return None;
    }

    method CancelPurchaseEntry(id: nat) returns (r: Result<nat, Error>)
      modifies this`entries
      ensures match CancelEntry(old(Current()), id)
        case Ok(done) => r == Ok(done.id) && Current() == done.after
        case Err(error) => r == Err(error) && Current() == old(Current())
    {
      if id >= |entries| { return Err(NoSuchEntry); }
      if entries[id].status != Draft { return Err(NotDraft); }
      entries := entries[id := entries[id].(status := Cancelled)];
      return Ok(id);
    }
  }
}
