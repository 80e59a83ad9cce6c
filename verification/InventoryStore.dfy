/** The inventory services as they run: rows updated in place, rolled back when a step raises. */
module InventoryStore {
  import opened Wrappers
  import opened Text
  import opened Inventory

  /** The loop from candidate `i` on; `first` is what that candidate comes to. */
  lemma {:induction false} InitialiseStep(s: State, candidates: seq<Candidate>, turns: seq<Turn>, i: nat, first: Initialised)
    requires i < |candidates| == |turns| && first == InitialiseOne(s, candidates[i], turns[i])
    ensures InitialiseEach(s, candidates[i..], turns[i..]) ==
      if first.failure.Some? then first
      else
        var rest := InitialiseEach(first.after, candidates[i + 1..], turns[i + 1..]);
        Initialised(rest.after, first.converted + rest.converted, rest.failure)
  {
    assert candidates[i..][1..] == candidates[i + 1..] && turns[i..][1..] == turns[i + 1..];
  }

  class InventoryStore {
    var products: seq<ProductRow>
    var ledger: seq<Txn>

    function Current(): State
      reads this
    {
      State(products, ledger)
    }

    constructor (products: seq<ProductRow>, ledger: seq<Txn>)
      ensures Current() == State(products, ledger)
    {
      this.products, this.ledger := products, ledger;
    }

    method ApplyStockMovement(m: Movement, keepStock: bool) returns (r: Result<Txn, Error>)
      modifies this
      ensures match Apply(old(Current()), m, keepStock)
        case Ok(applied) => r == Ok(applied.row) && Current() == applied.after
        case Err(error) => r == Err(error) && Current() == old(Current())
    {
      if m.quantity <= 0 { return Err(InvalidQuantity); }
      if ReasonRequired(m.kind) && Strip(m.reason) == "" { return Err(ReasonMissing); }
      if !DatesOk(m.today, m.made, m.expires) { return Err(InvalidDates); }
      if m.unitCost.Some? && m.unitCost.value < 0 { return Err(NegativeCost); }
      if m.product >= |products| { return Err(NoSuchProduct); }
      var locked := products[m.product];
      if locked.store != m.store { return Err(WrongStore); }
      if m.entryStore.Some? && m.entryStore.value != m.store { return Err(WrongEntryStore); }
      if m.kind == Opening && OpeningRecorded(ledger, m.product) { return Err(OpeningAlreadyRecorded); }

      var previous := locked.stock;
      var balance := previous + Effect(m);
      if !keepStock && balance < 0 { return Err(InsufficientStock); }
      var savepoint := products;
      var row;
      if keepStock {
        if previous <= 0 { return Err(NothingToConvert); }
        if m.quantity != previous { return Err(ConversionMismatch); }
        row := Row(m, 0, previous);
      } else {
        products := products[m.product := locked.(stock := balance)];
        row := Row(m, previous, balance);
      }
      r := InsertRow(row);
      if r.Err? {
        products := savepoint;
      }
    }

    /** The INSERT, subject to the unique constraint on order references. */
    method InsertRow(row: Txn) returns (r: Result<Txn, Error>)
      modifies this`ledger
      ensures r == if Clashes(old(ledger), row.reference) then Err(DuplicateReference) else Ok(row)
      ensures ledger == if r.Ok? then old(ledger) + [row] else old(ledger)
    {
      if Clashes(ledger, row.reference) {
        return Err(DuplicateReference);
      }
      ledger := ledger + [row];
      return Ok(row);
    }

    method ConvertExistingOpeningStock(p: ProductId, store: StoreId, reason: string, reference: string) returns (r: Result<Txn, Error>)
      modifies this
      ensures match Convert(old(Current()), p, store, reason, reference)
        case Ok(applied) => r == Ok(applied.row) && Current() == applied.after
        case Err(error) => r == Err(error) && Current() == old(Current())
      ensures products == old(products)
    {
      if p >= |products| { return Err(NoSuchProduct); }
      var m := OpeningMovement(Current(), p, store, if reason == "" then CONVERTED else reason, reference);
      r := ApplyStockMovement(m, true);
    }

    /** The products with a positive balance and no history, in key order. */
    method ProductsNeedingOpeningStock() returns (candidates: seq<Candidate>)
      ensures candidates == CandidatesFrom(Current(), 0)
    {
      candidates := [];
      var p := 0;
      while p < |products|
        invariant p <= |products|
        invariant candidates + CandidatesFrom(Current(), p) == CandidatesFrom(Current(), 0)
      {
        if NeedsOpening(Current(), p) {
          candidates := candidates + [Candidate(p, products[p].store, products[p].stock)];
        }
        p := p + 1;
      }
    }

    method InitializeOne(c: Candidate, turn: Turn) returns (converted: seq<Txn>, failure: Option<Error>)
      modifies this
      ensures Initialised(Current(), converted, failure) == InitialiseOne(old(Current()), c, turn)
    {
      CommitRivals(turn.before);
      if HasHistory(ledger, c.product) || c.balance <= 0 { return [], None; }
      CommitRivals(turn.between);
      var txn := ConvertExistingOpeningStock(c.product, c.store, INITIALISED, "");
      if txn.Err? { return [], Some(txn.error); }
      CommitRivals(turn.behind);
      if StockOf(Current(), c.product) != Some(c.balance) { return [], Some(BalanceChanged); }
      return [txn.value], None;
    }

    /** The loop over the candidates; nothing is rolled back when a later one raises. */
    method InitializeOpeningStockFromCatalogue(turns: seq<Turn>) returns (converted: seq<Txn>, failure: Option<Error>)
      requires |turns| == |CandidatesFrom(Current(), 0)|
      modifies this
      ensures var r := InitialiseEach(old(Current()), CandidatesFrom(old(Current()), 0), turns);
        Current() == r.after && failure == r.failure && (failure.None? ==> converted == r.converted)
    {
      var candidates := ProductsNeedingOpeningStock();
      ghost var whole := InitialiseEach(Current(), candidates, turns);
      converted := [];
      var i := 0;
      while i < |candidates|
        invariant i <= |candidates|
        invariant var rest := InitialiseEach(Current(), candidates[i..], turns[i..]);
          whole == Initialised(rest.after, converted + rest.converted, rest.failure)
      {
        InitialiseStep(Current(), candidates, turns, i, InitialiseOne(Current(), candidates[i], turns[i]));
        var rows;
        rows, failure := InitializeOne(candidates[i], turns[i]);
        if failure.Some? { return; }
        converted := converted + rows;
        i := i + 1;
      }
      return converted, None;
    }

    /** Movements other transactions commit while this one is between two of its statements. */
    method CommitRivals(rivals: seq<Movement>)
      modifies this
      ensures Current() == AfterAll(old(Current()), rivals)
    {
      var i := 0;
      while i < |rivals|
        invariant i <= |rivals|
        invariant AfterAll(Current(), rivals[i..]) == AfterAll(old(Current()), rivals)
      {
        assert rivals[i..][1..] == rivals[i + 1..];
        var _ := ApplyStockMovement(rivals[i], false);
        i := i + 1;
      }
    }

    /** The state an order call ends its race in: rivals commit only if its lookup found nothing. */
    ghost function AfterRivals(call: OrderCall, rivals: seq<Movement>): State
      reads this
    {
      if IsOrderReference(Strip(call.reference)) && FindByReference(ledger, Strip(call.reference)).None?
      then AfterAll(Current(), rivals) else Current()
    }

    method OrderStockOnce(call: OrderCall, rivals: seq<Movement>, early: bool) returns (r: Result<Txn, Error>)
      modifies this
      ensures var o := OrderStock(old(ledger), old(AfterRivals(call, rivals)), early, call);
        Current() == o.after && r == o.result
    {
      var reference := Strip(call.reference);
      if !IsOrderReference(reference) {
        return Err(NotAnOrderReference);
      }
      var existing := FindByReference(ledger, reference);
      if existing.Some? {
        return Reuse(existing.value, call);
      }
      CommitRivals(rivals);
      r := ApplyStockMovement(OrderMove(call), false);
      if r == Err(DuplicateReference) && !early {
        existing := FindByReference(ledger, reference);
        if existing.Some? {
          r := Reuse(existing.value, call);
        }
      }
    }

    method DeductOrderStock(
      product: ProductId, store: StoreId, quantity: int, reference: string, reason: string,
      rivals: seq<Movement>, early: bool
    ) returns (r: Result<Txn, Error>)
      modifies this
      ensures var call := DeductCall(product, store, quantity, reference, reason);
        var o := OrderStock(old(ledger), old(AfterRivals(call, rivals)), early, call);
        Current() == o.after && r == o.result
    {
      r := OrderStockOnce(DeductCall(product, store, quantity, reference, reason), rivals, early);
    }

    method RestoreOrderStock(
      product: ProductId, store: StoreId, quantity: int, reference: string, reason: string,
      rivals: seq<Movement>, early: bool
    ) returns (r: Result<Txn, Error>)
      modifies this
      ensures var call := RestoreCall(product, store, quantity, reference, reason);
        var o := OrderStock(old(ledger), old(AfterRivals(call, rivals)), early, call);
        Current() == o.after && r == o.result
    {
      r := OrderStockOnce(RestoreCall(product, store, quantity, reference, reason), rivals, early);
    }
  }
}
