/** What every run of the stock ledger keeps: replay, once-only references, and opening stock. */
module InventoryLaws {
  import opened Wrappers
  import opened Inventory

  // ----- Replay -----

  /** The balance the newest row of a product ends in. */
  function Balance(ledger: seq<Txn>, p: ProductId): Option<int> {
    if ledger == [] then None
    else
      var n := |ledger| - 1;
      if ledger[n].product == p then Some(ledger[n].balance) else Balance(ledger[..n], p)
  }

  /** The oldest row of a product. */
  function FirstRow(ledger: seq<Txn>, p: ProductId): Option<Txn> {
    if ledger == [] then None
    else
      var n := |ledger| - 1;
      match FirstRow(ledger[..n], p)
      case Some(first) => Some(first)
      case None => if ledger[n].product == p then Some(ledger[n]) else None
  }

  /** The kinds that bring stock in, as the ledger's documentation lists them. */
  const INCOMING: set<Kind> := {Opening, Purchase, StockIn, AdjustmentIn, CustomerReturn}

  /** The kinds that take stock out. */
  const OUTGOING: set<Kind> := {StockOut, AdjustmentOut, Damaged, Expired, SupplierReturn}

  /** What the rows of `p` of the given kinds moved, all quantities counted positive. */
  function Moved(ledger: seq<Txn>, p: ProductId, kinds: set<Kind>): int {
    if ledger == [] then 0
    else
      var n := |ledger| - 1;
      Moved(ledger[..n], p, kinds) + (if ledger[n].product == p && ledger[n].kind in kinds then ledger[n].quantity else 0)
  }

  predicate RowOk(row: Txn) {
    && row.direction == DirectionOf(row.kind)
    && row.quantity > 0 && row.previous >= 0 && row.balance >= 0
    && row.balance == row.previous + SignedDelta(row.direction, row.quantity)
  }

  /** Every row of `p` is sound and starts from the balance the row before it ended in. */
  predicate Chained(ledger: seq<Txn>, p: ProductId) {
    ledger == [] ||
    var n := |ledger| - 1;
    && Chained(ledger[..n], p)
    && (ledger[n].product == p ==>
          RowOk(ledger[n])
          && (Balance(ledger[..n], p).Some? ==> ledger[n].previous == Balance(ledger[..n], p).value))
  }

  predicate OneOpening(ledger: seq<Txn>, p: ProductId) {
    forall i, j :: 0 <= i < j < |ledger| && ledger[i].product == p && ledger[j].product == p
      ==> !(ledger[i].kind == Opening && ledger[j].kind == Opening)
  }

  predicate StartsFrom(first: Txn, initial: int) {
    first.previous == initial
    || (first.kind == Opening && first.previous == 0 && first.balance == initial)
  }

  /**
   * The ledger of `p` replays from the catalogue balance `initial` to the stock on the product row.
   * Its oldest row either starts from `initial` or is the opening row that records `initial`.
   */
  predicate Replays(s: State, p: ProductId, initial: int)
    requires p < |s.products|
  {
    && s.products[p].stock >= 0
    && Chained(s.ledger, p)
    && OneOpening(s.ledger, p)
    && s.products[p].stock == (match Balance(s.ledger, p) case Some(b) => b case None => initial)
    && (FirstRow(s.ledger, p).Some? ==> StartsFrom(FirstRow(s.ledger, p).value, initial))
  }

  predicate AllReplay(s: State, initial: seq<int>) {
    |initial| == |s.products| && forall p :: 0 <= p < |initial| ==> Replays(s, p, initial[p])
  }

  lemma {:induction false} PushRow(ledger: seq<Txn>, row: Txn, p: ProductId)
    ensures (ledger + [row])[..|ledger|] == ledger
    ensures Balance(ledger + [row], p) == if row.product == p then Some(row.balance) else Balance(ledger, p)
    ensures FirstRow(ledger + [row], p) ==
      if FirstRow(ledger, p).None? && row.product == p then Some(row) else FirstRow(ledger, p)
  {
    assert (ledger + [row])[..|ledger|] == ledger;
  }

  lemma {:induction false} NoHistoryNoBalance(ledger: seq<Txn>, p: ProductId)
    ensures Balance(ledger, p).None? <==> !HasHistory(ledger, p)
    ensures FirstRow(ledger, p).None? <==> !HasHistory(ledger, p)
  {
    if ledger != [] {
      var n := |ledger| - 1;
      NoHistoryNoBalance(ledger[..n], p);
      assert forall i :: 0 <= i < n ==> ledger[..n][i] == ledger[i];
      if HasHistory(ledger[..n], p) {
        var i :| 0 <= i < n && ledger[..n][i].product == p;
        assert ledger[i].product == p;
      }
    }
  }

  /**
   * Stock is the first recorded quantity plus all that openings, purchases, stock-ins, upward
   * adjustments and customer returns brought in, minus all that stock-outs, downward adjustments,
   * damage, expiry and supplier returns took out.
   */
  lemma {:induction false} BalanceIsSum(ledger: seq<Txn>, p: ProductId)
    requires Chained(ledger, p)
    ensures Balance(ledger, p).Some? ==>
      FirstRow(ledger, p).Some?
      && Balance(ledger, p).value
           == FirstRow(ledger, p).value.previous + Moved(ledger, p, INCOMING) - Moved(ledger, p, OUTGOING)
    ensures Balance(ledger, p).None? ==>
      Moved(ledger, p, INCOMING) == 0 && Moved(ledger, p, OUTGOING) == 0 && FirstRow(ledger, p).None?
  {
    if ledger != [] {
      BalanceIsSum(ledger[..|ledger| - 1], p);
    }
  }

  /** Adjacent rows of a product chain, in positions. */
  lemma {:induction false} AdjacentRowsChain(ledger: seq<Txn>, p: ProductId, i: nat, j: nat)
    requires Chained(ledger, p)
    requires i < j < |ledger| && ledger[i].product == p && ledger[j].product == p
    requires forall k :: i < k < j ==> ledger[k].product != p
    ensures ledger[j].previous == ledger[i].balance
  {
    var n := |ledger| - 1;
    if j < n {
      AdjacentRowsChain(ledger[..n], p, i, j);
    } else {
      NewestRowGivesBalance(ledger[..n], p, i);
    }
  }

  lemma {:induction false} NewestRowGivesBalance(ledger: seq<Txn>, p: ProductId, i: nat)
    requires i < |ledger| && ledger[i].product == p
    requires forall k :: i < k < |ledger| ==> ledger[k].product != p
    ensures Balance(ledger, p) == Some(ledger[i].balance)
  {
    var n := |ledger| - 1;
    if i < n {
      assert ledger[n].product != p;
      NewestRowGivesBalance(ledger[..n], p, i);
    }
  }

  /** A movement appends one sound row for its product and touches no other product. */
  lemma {:induction false} AppliedRow(s: State, m: Movement, keepStock: bool)
    requires Apply(s, m, keepStock).Ok?
    requires keepStock ==> m.kind == Opening
    ensures var a := Apply(s, m, keepStock).value;
      && m.product < |s.products| == |a.after.products|
      && a.after.ledger == s.ledger + [a.row]
      && a.row.product == m.product && a.row.kind == m.kind && a.row.reference == m.reference
      && (forall p :: 0 <= p < |s.products| ==> a.after.products[p].store == s.products[p].store)
      && (forall p :: 0 <= p < |s.products| && p != m.product ==> a.after.products[p] == s.products[p])
      && a.after.products[m.product].stock == s.products[m.product].stock + (if keepStock then 0 else Effect(m))
      && a.row.balance == a.after.products[m.product].stock
      && (s.products[m.product].stock >= 0 ==> RowOk(a.row) && a.after.products[m.product].stock >= 0)
  {
  }

  lemma {:induction false} MoveReplays(s: State, m: Movement, p: ProductId, initial: int)
    requires p < |s.products| && Replays(s, p, initial)
    ensures |AfterMove(s, m).products| == |s.products|
    ensures Replays(AfterMove(s, m), p, initial)
  {
    if Apply(s, m, false).Ok? {
      AppliedRow(s, m, false);
      var a := Apply(s, m, false).value;
      PushRow(s.ledger, a.row, p);
      NoHistoryNoBalance(s.ledger, p);
      OpeningStays(s.ledger, a.row, p);
      OneOpeningPush(s.ledger, a.row, p);
    }
  }

  lemma {:induction false} OpeningStays(ledger: seq<Txn>, row: Txn, p: ProductId)
    ensures OpeningRecorded(ledger, p) ==> OpeningRecorded(ledger + [row], p)
  {
    if OpeningRecorded(ledger, p) {
      var i :| 0 <= i < |ledger| && ledger[i].product == p && ledger[i].kind == Opening;
      assert (ledger + [row])[i] == ledger[i];
    }
  }

  lemma {:induction false} OneOpeningPush(ledger: seq<Txn>, row: Txn, p: ProductId)
    requires OneOpening(ledger, p)
    requires row.product == p && row.kind == Opening ==> !OpeningRecorded(ledger, p)
    ensures OneOpening(ledger + [row], p)
  {
  }

  lemma {:induction false} ConvertReplays(s: State, from: ProductId, p: ProductId, initial: int)
    requires from < |s.products| && p < |s.products| && Replays(s, p, initial)
    requires NeedsOpening(s, from)
    ensures var r := Apply(s, OpeningMovement(s, from, s.products[from].store, INITIALISED, ""), true);
      r.Ok? && r.value.after.products == s.products && Replays(r.value.after, p, initial)
      && HasHistory(r.value.after.ledger, from)
  {
    var m := OpeningMovement(s, from, s.products[from].store, INITIALISED, "");
    AppliedRow(s, m, true);
    var a := Apply(s, m, true).value;
    PushRow(s.ledger, a.row, p);
    NoHistoryNoBalance(s.ledger, p);
    OpeningStays(s.ledger, a.row, p);
    OneOpeningPush(s.ledger, a.row, p);
    assert a.after.ledger[|s.ledger|] == a.row;
  }
}
