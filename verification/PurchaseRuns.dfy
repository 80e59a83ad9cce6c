/** What every run of purchases and other movements keeps: one ledger row per received line, true totals. */
module PurchaseRuns {
  import opened Wrappers
  import opened Sums
  import opened Purchases
  import opened PurchaseLaws
  import I = Inventory
  import IL = InventoryLaws

  // ----- What receiving does to stock and ledger -----

  predicate RowFor(row: I.Txn, line: Line, id: nat) {
    && row.kind == I.Purchase && row.direction == I.In && row.line == Some(id)
    && row.product == line.product && row.quantity == line.quantity && row.unitCost == Some(line.unitCost)
  }

  function QuantityOf(p: nat): Line -> int {
    (line: Line) => if line.product == p then line.quantity else 0
  }

  function HasLine(id: nat): I.Txn -> int {
    (row: I.Txn) => if row.line == Some(id) then 1 else 0
  }

  function Is(id: nat): nat -> int {
    (k: nat) => if k == id then 1 else 0
  }

  /** `after` is `before` with one row appended for each line and each stock raised by its lines. */
  predicate ReceivedInto(before: I.State, after: I.State, lines: seq<Line>, ids: seq<nat>)
    requires |lines| == |ids|
  {
    && |after.products| == |before.products| && |after.ledger| == |before.ledger| + |ids|
    && (forall p :: 0 <= p < |before.products| ==>
          && after.products[p].store == before.products[p].store
          && after.products[p].stock == before.products[p].stock + Sum(lines, QuantityOf(p)))
    && before.ledger <= after.ledger
    && (forall k :: 0 <= k < |ids| ==> RowFor(after.ledger[|before.ledger| + k], lines[k], ids[k]))
  }

  /** `after` is `before` with one row for the line and its product's stock raised. */
  predicate LineReceived(before: I.State, after: I.State, line: Line, id: nat) {
    && line.product < |before.products|
    && |after.ledger| == |before.ledger| + 1 && after.ledger[..|before.ledger|] == before.ledger
    && RowFor(after.ledger[|before.ledger|], line, id)
    && after.products == before.products[line.product :=
         before.products[line.product].(stock := before.products[line.product].stock + line.quantity)]
  }

  ghost predicate ReceivesLines(move: Mover) {
    forall stock, line, id :: move(stock, line, id).Ok? ==> LineReceived(stock, move(stock, line, id).value, line, id)
  }

  lemma {:induction false} ReceiverReceives(store: nat, reference: string, today: int)
    ensures ReceivesLines(Receiver(store, reference, today))
  {
    var move := Receiver(store, reference, today);
    forall stock, line, id | move(stock, line, id).Ok? ensures LineReceived(stock, move(stock, line, id).value, line, id) {
      var applied := I.Apply(stock, Receipt(store, reference, line, id, today), false).value;
      assert applied.after.ledger == stock.ledger + [applied.row];
    }
  }

  lemma {:induction false} ReceivedPushed(
      before: I.State, middle: I.State, after: I.State, lines: seq<Line>, ids: seq<nat>, line: Line, id: nat)
    requires |lines| == |ids| && ReceivedInto(before, middle, lines, ids) && LineReceived(middle, after, line, id)
    ensures ReceivedInto(before, after, lines + [line], ids + [id])
  {
    forall p | 0 <= p < |before.products|
      ensures after.products[p].store == before.products[p].store
      ensures after.products[p].stock == before.products[p].stock + Sum(lines + [line], QuantityOf(p))
    {
      SumPush(lines, line, QuantityOf(p));
    }
    forall k | 0 <= k < |ids| + 1
      ensures RowFor(after.ledger[|before.ledger| + k], (lines + [line])[k], (ids + [id])[k])
    {
      if k < |ids| {
        assert after.ledger[|before.ledger| + k] == after.ledger[..|middle.ledger|][|before.ledger| + k];
      }
    }
    assert before.ledger <= after.ledger by {
      assert after.ledger[..|before.ledger|] == after.ledger[..|middle.ledger|][..|before.ledger|];
    }
  }

  lemma {:induction false} ReceivedLines(stock: I.State, store: nat, lines: seq<Line>, ids: seq<nat>, move: Mover)
    requires |lines| == |ids| && ReceivesLines(move) && ReceiveAll(stock, store, lines, ids, move).Ok?
    ensures ReceivedInto(stock, ReceiveAll(stock, store, lines, ids, move).value, lines, ids)
  {
    if ids == [] {
      NothingReceived(stock, lines);
    } else {
      var n := |ids| - 1;
      ReceivedLines(stock, store, lines[..n], ids[..n], move);
      LastLineReceived(stock, store, lines, ids, move, n);
    }
  }

  lemma {:induction false} NothingReceived(stock: I.State, lines: seq<Line>)
    requires lines == []
    ensures ReceivedInto(stock, stock, lines, [])
  {
  }

  lemma {:induction false} LastLineReceived(stock: I.State, store: nat, lines: seq<Line>, ids: seq<nat>, move: Mover, n: nat)
    requires |lines| == |ids| == n + 1 && ReceivesLines(move) && ReceiveAll(stock, store, lines, ids, move).Ok?
    requires ReceiveAll(stock, store, lines[..n], ids[..n], move).Ok?
    requires ReceivedInto(stock, ReceiveAll(stock, store, lines[..n], ids[..n], move).value, lines[..n], ids[..n])
    ensures ReceivedInto(stock, ReceiveAll(stock, store, lines, ids, move).value, lines, ids)
  {
    var middle := ReceiveAll(stock, store, lines[..n], ids[..n], move).value;
    assert lines[..n] + [lines[n]] == lines && ids[..n] + [ids[n]] == ids;
    assert ReceiveAll(stock, store, lines, ids, move) == move(middle, lines[n], ids[n]);
    ReceivedPushed(stock, middle, move(middle, lines[n], ids[n]).value, lines[..n], ids[..n], lines[n], ids[n]);
  }

  /** Each line gets exactly one PURCHASE row and raises its product's stock by its quantity, however often a product repeats. */
  lemma {:induction false} OneRowPerLine(stock: I.State, store: nat, reference: string, lines: seq<Line>, ids: seq<nat>, today: int)
    requires |lines| == |ids| && ReceiveAll(stock, store, lines, ids, Receiver(store, reference, today)).Ok?
    ensures ReceivedInto(stock, ReceiveAll(stock, store, lines, ids, Receiver(store, reference, today)).value, lines, ids)
  {
    ReceiverReceives(store, reference, today);
    ReceivedLines(stock, store, lines, ids, Receiver(store, reference, today));
  }

  lemma {:induction false} ReceiveReplays(
      stock: I.State, store: nat, reference: string, lines: seq<Line>, ids: seq<nat>, today: int, p: nat, initial: int)
    requires |lines| == |ids| && ReceiveAll(stock, store, lines, ids, Receiver(store, reference, today)).Ok?
    requires p < |stock.products| && IL.Replays(stock, p, initial)
    ensures var after := ReceiveAll(stock, store, lines, ids, Receiver(store, reference, today)).value;
      |after.products| == |stock.products| && IL.Replays(after, p, initial)
  {
    if ids != [] {
      var n := |ids| - 1;
      ReceiveReplays(stock, store, reference, lines[..n], ids[..n], today, p, initial);
      var middle := ReceiveAll(stock, store, lines[..n], ids[..n], Receiver(store, reference, today)).value;
      IL.MoveReplays(middle, Receipt(store, reference, lines[n], ids[n], today), p, initial);
    }
  }

  lemma {:induction false} CountReceived(before: I.State, after: I.State, lines: seq<Line>, ids: seq<nat>, l: nat)
    requires |lines| == |ids| && ReceivedInto(before, after, lines, ids)
    ensures Sum(after.ledger, HasLine(l)) == Sum(before.ledger, HasLine(l)) + Sum(ids, Is(l))
  {
    var rows := after.ledger[|before.ledger|..];
    assert after.ledger == before.ledger + rows;
    SumAppend(before.ledger, rows, HasLine(l));
    forall k | 0 <= k < |ids| ensures rows[k].line == Some(ids[k]) {
      assert RowFor(after.ledger[|before.ledger| + k], lines[k], ids[k]);
    }
    CountRows(rows, ids, l);
  }

  lemma {:induction false} CountRows(rows: seq<I.Txn>, ids: seq<nat>, l: nat)
    requires |rows| == |ids| && forall k :: 0 <= k < |ids| ==> rows[k].line == Some(ids[k])
    ensures Sum(rows, HasLine(l)) == Sum(ids, Is(l))
  {
    SumCongruent(rows, ids, HasLine(l), Is(l));
  }

  lemma {:induction false} ListedPush(ids: seq<nat>, id: nat, l: nat)
    ensures Sum(ids + [id], Is(l)) == Sum(ids, Is(l)) + (if id == l then 1 else 0)
  {
    assert (ids + [id])[..|ids|] == ids;
  }

  lemma {:induction false} LineListedOnce(lines: seq<Line>, id: nat, l: nat)
    ensures Sum(LinesOf(lines, id), Is(l)) == if l < |lines| && lines[l].entry == id then 1 else 0
  {
    if lines != [] {
      var n := |lines| - 1;
      LineListedOnce(lines[..n], id, l);
      var front: seq<nat> := LinesOf(lines[..n], id);
      if lines[n].entry == id {
        ListedPush(front, n, l);
      } else {
        assert LinesOf(lines, id) == front;
      }
    }
  }

  // ----- The invariant -----

  predicate LineSound(b: Books, l: nat)
    requires l < |b.lines|
  {
    var line := b.lines[l];
    && line.entry < |b.entries|
    && line.quantity > 0 && line.unitCost >= 0 && line.total == LineTotal(line.quantity, line.unitCost)
    && StoreRefusal(b.stock, b.entries[line.entry].store, line.product).None?
    && Sum(b.stock.ledger, HasLine(l)) == (if b.entries[line.entry].status == Confirmed then 1 else 0)
  }

  predicate EntrySound(b: Books, id: nat)
    requires id < |b.entries|
  {
    b.entries[id].total == TotalOf(b.lines, id) && LinesOf(b.lines, id) != []
  }

  predicate RowSound(b: Books, row: I.Txn) {
    row.line.Some? ==> row.line.value < |b.lines| && RowFor(row, b.lines[row.line.value], row.line.value)
  }

  /**
   * Totals are the sums of the line totals, each line of a confirmed entry has exactly one ledger row
   * with its product, quantity and cost, and no other line has any.
   */
  predicate Sound(b: Books) {
    && (forall l :: 0 <= l < |b.lines| ==> LineSound(b, l))
    && (forall id :: 0 <= id < |b.entries| ==> EntrySound(b, id))
    && (forall i :: 0 <= i < |b.stock.ledger| ==> RowSound(b, b.stock.ledger[i]))
  }

  lemma {:induction false} NoRowYet(b: Books, l: nat)
    requires Sound(b) && l >= |b.lines|
    ensures Sum(b.stock.ledger, HasLine(l)) == 0
  {
    forall i | 0 <= i < |b.stock.ledger| ensures HasLine(l)(b.stock.ledger[i]) == 0 {
      assert RowSound(b, b.stock.ledger[i]);
    }
    SumZero(b.stock.ledger, HasLine(l));
  }

  lemma {:induction false} LinesOfGrows(before: seq<Line>, more: seq<Line>, id: nat)
    requires forall k :: 0 <= k < |more| ==> more[k].entry != id
    ensures LinesOf(before + more, id) == LinesOf(before, id)
    ensures TotalOf(before + more, id) == TotalOf(before, id)
  {
    SumAppend(before, more, Weight(id));
    SumZero(more, Weight(id));
    if more == [] {
      assert before + more == before;
    } else {
      var n := |more| - 1;
      assert (before + more)[..|before| + n] == before + more[..n];
      LinesOfGrows(before, more[..n], id);
    }
  }

  lemma {:induction false} DraftSound(b: Books, entry: Entry, lines: seq<Line>, today: int)
    requires Sound(b) && LinesOwned(b) && lines != [] && forall k :: 0 <= k < |lines| ==> Normal(lines[k], today)
    requires entry.status == Draft && entry.total == LinesTotal(lines) && StoresAgree(b.stock, entry.store, lines)
    ensures Sound(Books(b.stock, b.entries + [entry], b.lines + Owned(lines, |b.entries|)))
  {
    var id, own := |b.entries|, Owned(lines, |b.entries|);
    var b' := Books(b.stock, b.entries + [entry], b.lines + own);
    forall l | 0 <= l < |b'.lines| ensures LineSound(b', l) {
      if l < |b.lines| {
        assert LineSound(b, l);
      } else {
        NoRowYet(b, l);
        assert Normal(lines[l - |b.lines|], today) && StoreRefusal(b.stock, entry.store, lines[l - |b.lines|].product).None?;
      }
    }
    forall e | 0 <= e < |b'.entries| ensures EntrySound(b', e) {
      if e < id {
        assert EntrySound(b, e);
        LinesOfGrows(b.lines, own, e);
      } else {
        TotalOfNewEntry(b.lines, lines, id);
        LinesOfNewEntry(b.lines, lines, id);
        assert |Span(|b.lines|, |lines|)| == |lines|;
      }
    }
    forall i | 0 <= i < |b'.stock.ledger| ensures RowSound(b', b'.stock.ledger[i]) {
      assert RowSound(b, b.stock.ledger[i]);
    }
  }

  lemma {:induction false} CreateSound(b: Books, request: Request, number: string, today: int)
    requires Sound(b) && CreateEntry(b, request, number, today).Ok?
    ensures Sound(CreateEntry(b, request, number, today).value.after)
  {
    SoundOwned(b);
    DraftRows(b, request, number, today);
    var lines := Validated(b, request, today).value;
    DraftSound(b, NewEntry(request, number, Draft, LinesTotal(lines)), lines, today);
  }

  lemma {:induction false} SoundOwned(b: Books)
    requires Sound(b)
    ensures LinesOwned(b)
  {
    forall l | 0 <= l < |b.lines| ensures b.lines[l].entry < |b.entries| {
      assert LineSound(b, l);
    }
  }

  lemma {:induction false} ReceivedRowsSound(b: Books, after: Books, ids: seq<nat>)
    requires Sound(b) && after.lines == b.lines
    requires forall k :: 0 <= k < |ids| ==> ids[k] < |b.lines|
    requires ReceivedInto(b.stock, after.stock, Picked(b.lines, ids), ids)
    ensures forall i :: 0 <= i < |after.stock.ledger| ==> RowSound(after, after.stock.ledger[i])
  {
    var n := |b.stock.ledger|;
    forall i | 0 <= i < |after.stock.ledger| ensures RowSound(after, after.stock.ledger[i]) {
      if i < n {
        assert after.stock.ledger[i] == b.stock.ledger[i];
        assert RowSound(b, b.stock.ledger[i]);
      } else {
        assert RowFor(after.stock.ledger[n + (i - n)], Picked(b.lines, ids)[i - n], ids[i - n]);
      }
    }
  }

  lemma {:induction false} ConfirmSound(b: Books, id: nat, actor: nat, today: int)
    requires Sound(b) && ConfirmEntry(b, id, actor, today).Ok?
    ensures Sound(ConfirmEntry(b, id, actor, today).value.after)
  {
    var after := ConfirmEntry(b, id, actor, today).value.after;
    var ids := LinesOf(b.lines, id);
    OneRowPerLine(b.stock, b.entries[id].store, ReferenceOf(b.entries[id]), Picked(b.lines, ids), ids, today);
    forall l | 0 <= l < |b.lines| ensures LineSound(after, l) {
      assert LineSound(b, l);
      CountReceived(b.stock, after.stock, Picked(b.lines, ids), ids, l);
      LineListedOnce(b.lines, id, l);
    }
    forall e | 0 <= e < |b.entries| ensures EntrySound(after, e) {
      assert EntrySound(b, e);
    }
    ReceivedRowsSound(b, after, ids);
  }

  lemma {:induction false} CancelSound(b: Books, id: nat)
    requires Sound(b) && CancelEntry(b, id).Ok?
    ensures Sound(CancelEntry(b, id).value.after)
  {
    var after := CancelEntry(b, id).value.after;
    forall l | 0 <= l < |b.lines| ensures LineSound(after, l) {
      assert LineSound(b, l);
    }
    forall e | 0 <= e < |b.entries| ensures EntrySound(after, e) {
      assert EntrySound(b, e);
    }
    forall i | 0 <= i < |b.stock.ledger| ensures RowSound(after, b.stock.ledger[i]) {
      assert RowSound(b, b.stock.ledger[i]);
    }
  }

  lemma {:induction false} OtherMoveSound(b: Books, m: I.Movement)
    requires Sound(b) && m.line.None?
    ensures Sound(b.(stock := I.AfterMove(b.stock, m)))
  {
    if I.Apply(b.stock, m, false).Ok? {
      IL.AppliedRow(b.stock, m, false);
      var applied := I.Apply(b.stock, m, false).value;
      var after := b.(stock := applied.after);
      assert applied.row.line.None?;
      forall l | 0 <= l < |b.lines| ensures LineSound(after, l) {
        assert LineSound(b, l);
        SumPush(b.stock.ledger, applied.row, HasLine(l));
      }
      forall e | 0 <= e < |b.entries| ensures EntrySound(after, e) {
        assert EntrySound(b, e);
      }
      forall i | 0 <= i < |after.stock.ledger| ensures RowSound(after, after.stock.ledger[i]) {
        if i < |b.stock.ledger| {
          assert RowSound(b, b.stock.ledger[i]);
        }
      }
    }
  }

  // ----- Runs -----

  datatype Event =
    | Create(request: Request, number: string, today: int)
    | Confirm(id: nat, actor: nat, today: int)
    | Cancel(id: nat)
    | Record(request: Request, number: string, today: int)
    | Other(movement: I.Movement)

  /** Movements recorded elsewhere never name a purchase line. */
  predicate Permitted(e: Event) {
    e.Other? ==> e.movement.line.None?
  }

  function Committed(b: Books, r: Result<Done, Error>): Books {
    if r.Ok? then r.value.after else b
  }

  function Next(b: Books, e: Event): Books {
    match e
    case Create(request, number, today) => Committed(b, CreateEntry(b, request, number, today))
    case Confirm(id, actor, today) => Committed(b, ConfirmEntry(b, id, actor, today))
    case Cancel(id) => Committed(b, CancelEntry(b, id))
    case Record(request, number, today) => Committed(b, RecordStockIn(b, request, number, today))
    case Other(m) => b.(stock := I.AfterMove(b.stock, m))
  }

  predicate IsRun(states: seq<Books>, events: seq<Event>) {
    && |states| == |events| + 1
    && forall i :: 0 <= i < |events| ==> Permitted(events[i]) && states[i + 1] == Next(states[i], events[i])
  }

  lemma {:induction false} RecordSound(b: Books, request: Request, number: string, today: int)
    requires Sound(b) && RecordStockIn(b, request, number, today).Ok?
    ensures Sound(RecordStockIn(b, request, number, today).value.after)
  {
    SoundOwned(b);
    OneShotIsCreateThenConfirm(b, request, number, today);
    CreateSound(b, request, number, today);
    var created := CreateEntry(b, request, number, today).value;
    ConfirmSound(created.after, created.id, request.actor, today);
  }

  lemma {:induction false} StepSound(b: Books, e: Event)
    requires Sound(b) && Permitted(e)
    ensures Sound(Next(b, e))
  {
    match e {
      case Create(request, number, today) =>
        if CreateEntry(b, request, number, today).Ok? {
          CreateSound(b, request, number, today);
        }
      case Confirm(id, actor, today) =>
        if ConfirmEntry(b, id, actor, today).Ok? {
          ConfirmSound(b, id, actor, today);
        }
      case Cancel(id) =>
        if CancelEntry(b, id).Ok? {
          CancelSound(b, id);
        }
      case Record(request, number, today) =>
        if RecordStockIn(b, request, number, today).Ok? {
          RecordSound(b, request, number, today);
        }
      case Other(m) =>
        OtherMoveSound(b, m);
    }
  }

  /** Over every run, totals are true and received lines and ledger rows match one to one. */
  lemma {:induction false} RunSound(states: seq<Books>, events: seq<Event>, k: nat)
    requires IsRun(states, events) && Sound(states[0]) && k < |states|
    ensures Sound(states[k])
  {
    if k > 0 {
      RunSound(states, events, k - 1);
      StepSound(states[k - 1], events[k - 1]);
    }
  }

  /** Nothing a service does reaches an entry that is not a draft, and saved lines never change. */
  predicate Preserves(b: Books, after: Books) {
    && |b.entries| <= |after.entries| && b.lines <= after.lines
    && forall id :: 0 <= id < |b.entries| && b.entries[id].status != Draft ==>
      after.entries[id] == b.entries[id] && LinesOf(after.lines, id) == LinesOf(b.lines, id)
  }

  lemma {:induction false} CreatePreserves(b: Books, request: Request, number: string, today: int)
    requires Sound(b) && CreateEntry(b, request, number, today).Ok?
    ensures Preserves(b, CreateEntry(b, request, number, today).value.after)
  {
    SoundOwned(b);
    DraftRows(b, request, number, today);
    var lines := Validated(b, request, today).value;
    forall id | 0 <= id < |b.entries|
      ensures LinesOf(b.lines + Owned(lines, |b.entries|), id) == LinesOf(b.lines, id)
    {
      LinesOfGrows(b.lines, Owned(lines, |b.entries|), id);
    }
  }

  lemma {:induction false} ConfirmPreserves(b: Books, id: nat, actor: nat, today: int)
    requires ConfirmEntry(b, id, actor, today).Ok?
    ensures Preserves(b, ConfirmEntry(b, id, actor, today).value.after)
  {
    var after := ConfirmEntry(b, id, actor, today).value.after;
    assert after.lines == b.lines;
    assert forall e :: 0 <= e < |b.entries| && e != id ==> after.entries[e] == b.entries[e];
  }

  lemma {:induction false} PreservesTwice(b: Books, middle: Books, after: Books)
    requires Preserves(b, middle) && Preserves(middle, after)
    ensures Preserves(b, after)
  {
  }

  lemma {:induction false} RecordPreserves(b: Books, request: Request, number: string, today: int)
    requires Sound(b) && RecordStockIn(b, request, number, today).Ok?
    ensures Preserves(b, RecordStockIn(b, request, number, today).value.after)
  {
    SoundOwned(b);
    OneShotIsCreateThenConfirm(b, request, number, today);
    CreatePreserves(b, request, number, today);
    var created := CreateEntry(b, request, number, today).value;
    ConfirmPreserves(created.after, created.id, request.actor, today);
    PreservesTwice(b, created.after, ConfirmEntry(created.after, created.id, request.actor, today).value.after);
  }

  lemma {:induction false} StepPreserves(b: Books, e: Event)
    requires Sound(b) && Permitted(e)
    ensures Preserves(b, Next(b, e))
  {
    match e {
      case Create(request, number, today) =>
        if CreateEntry(b, request, number, today).Ok? {
          CreatePreserves(b, request, number, today);
        }
      case Record(request, number, today) =>
        if RecordStockIn(b, request, number, today).Ok? {
          RecordPreserves(b, request, number, today);
        }
      case Confirm(id, actor, today) =>
        if ConfirmEntry(b, id, actor, today).Ok? {
          ConfirmPreserves(b, id, actor, today);
        }
      case Cancel(_) =>
      case Other(_) =>
    }
  }

  /** Confirmed and cancelled entries are final: no later event changes the entry or its lines. */
  lemma {:induction false} ConfirmedAndCancelledAreFinal(states: seq<Books>, events: seq<Event>, i: nat, j: nat)
    requires IsRun(states, events) && Sound(states[0]) && i <= j < |states|
    ensures Preserves(states[i], states[j])
  {
    if i < j {
      ConfirmedAndCancelledAreFinal(states, events, i, j - 1);
      RunSound(states, events, j - 1);
      StepPreserves(states[j - 1], events[j - 1]);
    }
  }

  lemma {:induction false} ConfirmReplays(b: Books, id: nat, actor: nat, today: int, p: nat, initial: int)
    requires ConfirmEntry(b, id, actor, today).Ok? && p < |b.stock.products| && IL.Replays(b.stock, p, initial)
    ensures var after := ConfirmEntry(b, id, actor, today).value.after.stock;
      |after.products| == |b.stock.products| && IL.Replays(after, p, initial)
  {
    var ids := LinesOf(b.lines, id);
    ReceiveReplays(b.stock, b.entries[id].store, ReferenceOf(b.entries[id]), Picked(b.lines, ids), ids, today, p, initial);
  }

  lemma {:induction false} StepReplays(b: Books, e: Event, p: nat, initial: int)
    requires Sound(b) && p < |b.stock.products| && IL.Replays(b.stock, p, initial)
    ensures |Next(b, e).stock.products| == |b.stock.products| && IL.Replays(Next(b, e).stock, p, initial)
  {
    match e {
      case Confirm(id, actor, today) =>
        if ConfirmEntry(b, id, actor, today).Ok? {
          ConfirmReplays(b, id, actor, today, p, initial);
        }
      case Record(request, number, today) =>
        if RecordStockIn(b, request, number, today).Ok? {
          SoundOwned(b);
          OneShotIsCreateThenConfirm(b, request, number, today);
          DraftRows(b, request, number, today);
          var created := CreateEntry(b, request, number, today).value;
          ConfirmReplays(created.after, created.id, request.actor, today, p, initial);
        }
      case Other(m) =>
        IL.MoveReplays(b.stock, m, p, initial);
      case Create(request, number, today) =>
        if CreateEntry(b, request, number, today).Ok? {
          SoundOwned(b);
          DraftRows(b, request, number, today);
        }
      case Cancel(_) =>
    }
  }

  /** The ledger replays to the stock through any mix of purchases and other movements. */
  lemma {:induction false} PurchasesReplay(states: seq<Books>, events: seq<Event>, p: nat, initial: int, k: nat)
    requires IsRun(states, events) && Sound(states[0]) && k < |states|
    requires p < |states[0].stock.products| && IL.Replays(states[0].stock, p, initial)
    ensures |states[k].stock.products| == |states[0].stock.products| && IL.Replays(states[k].stock, p, initial)
  {
    if k > 0 {
      PurchasesReplay(states, events, p, initial, k - 1);
      RunSound(states, events, k - 1);
      StepReplays(states[k - 1], events[k - 1], p, initial);
    }
  }
}
