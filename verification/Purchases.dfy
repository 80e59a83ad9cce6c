/** Purchase stock-in: draft entries confirmed or cancelled later, and the one-shot service. */
module Purchases {
  // Each service runs inside one transaction: a refusal leaves every table as it was.

  import opened Wrappers
  import opened Sums
  import opened Rounding
  import I = Inventory

  datatype Status = Draft | Confirmed | Cancelled

  datatype Entry = Entry(
    store: nat, supplier: string, invoice: string, number: string, date: int,
    status: Status, createdBy: nat, confirmedBy: Option<nat>, total: int)

  datatype Line = Line(
    entry: nat, product: nat, quantity: int, unitCost: int, total: int, made: Option<int>, expires: Option<int>)

  datatype RawLine = RawLine(product: Option<nat>, quantity: int, unitCost: int, made: Option<int>, expires: Option<int>)

  datatype Request = Request(
    store: nat, supplier: string, invoice: string, date: int, lines: seq<RawLine>, actor: nat)

  datatype Error =
    | NoLines | ProductMissing | InvalidQuantity | NegativeCost | InvalidDates
    | NoSuchProduct | WrongStore | InvalidEntry | InvalidLine
    | NoSuchEntry | NotDraft | StockRefused(error: I.Error)

  datatype Books = Books(stock: I.State, entries: seq<Entry>, lines: seq<Line>)

  /** `id` is the entry a service returns. */
  datatype Done = Done(after: Books, id: nat)

  function LineTotal(quantity: int, unitCost: int): int
    requires quantity > 0 && unitCost >= 0
  {
    NonNegativeProduct(quantity, unitCost);
    HalfUp(quantity * unitCost, 1000)
  }

  // ----- Line validation -----

  function Normalise(raw: RawLine, today: int): (r: Result<Line, Error>)
    ensures r.Ok? ==> Normal(r.value, today)
  {
    if raw.product.None? then Err(ProductMissing)
    else if raw.quantity <= 0 then Err(InvalidQuantity)
    else if raw.unitCost < 0 then Err(NegativeCost)
    else if !I.DatesOk(today, raw.made, raw.expires) then Err(InvalidDates)
    else
      Ok(Line(0, raw.product.value, raw.quantity, raw.unitCost, LineTotal(raw.quantity, raw.unitCost), raw.made, raw.expires))
  }

  predicate Normal(line: Line, today: int) {
    && line.quantity > 0 && line.unitCost >= 0 && line.total == LineTotal(line.quantity, line.unitCost)
    && I.DatesOk(today, line.made, line.expires)
  }

  function NormaliseAll(raw: seq<RawLine>, today: int): (r: Result<seq<Line>, Error>)
    ensures r.Ok? ==> |r.value| == |raw| && forall k :: 0 <= k < |raw| ==> Normal(r.value[k], today)
  {
    if raw == [] then Ok([])
    else
      var n := |raw| - 1;
      match NormaliseAll(raw[..n], today)
      case Err(error) => Err(error)
      case Ok(front) =>
        match Normalise(raw[n], today)
        case Err(error) => Err(error)
        case Ok(line) => Ok(front + [line])
  }

  function NormaliseLines(raw: seq<RawLine>, today: int): (r: Result<seq<Line>, Error>)
    ensures r.Ok? ==> r.value != [] && forall k :: 0 <= k < |r.value| ==> Normal(r.value[k], today)
  {
    if raw == [] then Err(NoLines) else NormaliseAll(raw, today)
  }

  /** `_validate_store_product`. */
  function StoreRefusal(stock: I.State, store: nat, product: nat): Option<Error> {
    if product >= |stock.products| then Some(NoSuchProduct)
    else if stock.products[product].store != store then Some(WrongStore)
    else None
  }

  function StoreRefusals(stock: I.State, store: nat, lines: seq<Line>): (r: Option<Error>)
    ensures r.None? <==> forall k :: 0 <= k < |lines| ==> StoreRefusal(stock, store, lines[k].product).None?
  {
    if lines == [] then None
    else
      var n := |lines| - 1;
      var front := StoreRefusals(stock, store, lines[..n]);
      if front.Some? then front else StoreRefusal(stock, store, lines[n].product)
  }

  predicate EntryClean(entry: Entry, today: int) {
    entry.supplier != "" && entry.date <= today
  }

  /** What both services check before they write anything. */
  function Validated(b: Books, request: Request, today: int): (r: Result<seq<Line>, Error>)
    ensures r.Ok? ==> r.value != [] && forall k :: 0 <= k < |r.value| ==>
      Normal(r.value[k], today) && StoreRefusal(b.stock, request.store, r.value[k].product).None?
  {
    match NormaliseLines(request.lines, today)
    case Err(error) => Err(error)
    case Ok(lines) =>
      var refusal := StoreRefusals(b.stock, request.store, lines);
      if refusal.Some? then Err(refusal.value)
      else if !EntryClean(NewEntry(request, "", Draft, 0), today) then Err(InvalidEntry)
      else Ok(lines)
  }

  // ----- Rows -----

  function NewEntry(request: Request, number: string, status: Status, total: int): Entry {
    Entry(request.store, request.supplier, request.invoice, number, request.date, status, request.actor,
          if status == Confirmed then Some(request.actor) else None, total)
  }

  function Weight(id: nat): Line -> int {
    (line: Line) => if line.entry == id then line.total else 0
  }

  function TotalOf(lines: seq<Line>, id: nat): int {
    Sum(lines, Weight(id))
  }

  function Recalculated(entries: seq<Entry>, lines: seq<Line>, id: nat): seq<Entry>
    requires id < |entries|
  {
    entries[id := entries[id].(total := TotalOf(lines, id))]
  }

  /** `PurchaseEntryLine.save`: the row, then the total of its entry. */
  function SaveLine(b: Books, id: nat, line: Line): (r: Books)
    requires id < |b.entries|
    ensures |r.entries| == |b.entries|
  {
    var lines := b.lines + [line.(entry := id)];
    Books(b.stock, Recalculated(b.entries, lines, id), lines)
  }

  function SaveLines(b: Books, id: nat, lines: seq<Line>): (r: Books)
    requires id < |b.entries|
    ensures |r.entries| == |b.entries|
  {
    if lines == [] then b else SaveLine(SaveLines(b, id, lines[..|lines| - 1]), id, lines[|lines| - 1])
  }

  /** Primary keys of the lines of an entry, in order. */
  function LinesOf(lines: seq<Line>, id: nat): (r: seq<nat>)
    ensures forall k :: 0 <= k < |r| ==> r[k] < |lines| && lines[r[k]].entry == id
  {
    if lines == [] then []
    else
      var n := |lines| - 1;
      LinesOf(lines[..n], id) + (if lines[n].entry == id then [n] else [])
  }

  function Picked(lines: seq<Line>, ids: seq<nat>): seq<Line>
    requires forall k :: 0 <= k < |ids| ==> ids[k] < |lines|
  {
    seq(|ids|, k requires 0 <= k < |ids| => lines[ids[k]])
  }

  function ReferenceOf(entry: Entry): string {
    if entry.invoice != "" then entry.invoice else entry.number
  }

  function Receipt(store: nat, reference: string, line: Line, id: nat, today: int): I.Movement {
    I.Movement(line.product, store, I.Purchase, line.quantity, "Purchase stock-in", reference,
               Some(line.unitCost), today, line.made, line.expires, Some(store), Some(id))
  }

  function Move(stock: I.State, store: nat, reference: string, line: Line, id: nat, today: int): Result<I.State, Error> {
    match I.Apply(stock, Receipt(store, reference, line, id, today), false)
    case Err(error) => Err(StockRefused(error))
    case Ok(applied) => Ok(applied.after)
  }

  /** What receiving one line with a given primary key does to stock and ledger. */
  type Mover = (I.State, Line, nat) -> Result<I.State, Error>

  function Receiver(store: nat, reference: string, today: int): Mover {
    (stock: I.State, line: Line, id: nat) => Move(stock, store, reference, line, id, today)
  }

  /** Confirmation checks the product's store again before it moves stock. */
  function ReceiveOne(stock: I.State, store: nat, line: Line, id: nat, move: Mover): Result<I.State, Error> {
    var refusal := StoreRefusal(stock, store, line.product);
    if refusal.Some? then Err(refusal.value) else move(stock, line, id)
  }

  function ReceiveNext(received: Result<I.State, Error>, store: nat, line: Line, id: nat, move: Mover): Result<I.State, Error> {
    match received
    case Err(error) => Err(error)
    case Ok(stock) => ReceiveOne(stock, store, line, id, move)
  }

  /** Receives lines with primary keys `ids`, in order; the first refusal refuses them all. */
  function ReceiveAll(stock: I.State, store: nat, lines: seq<Line>, ids: seq<nat>, move: Mover): Result<I.State, Error>
    requires |lines| == |ids|
  {
    if ids == [] then Ok(stock)
    else
      var n := |ids| - 1;
      ReceiveNext(ReceiveAll(stock, store, lines[..n], ids[..n], move), store, lines[n], ids[n], move)
  }

  /** Saves a line and receives it at once. */
  function RecordNext(done: Books, id: nat, line: Line, move: Mover): (r: Result<Books, Error>)
    requires id < |done.entries|
    ensures r.Ok? ==> |r.value.entries| == |done.entries|
  {
    match move(done.stock, line.(entry := id), |done.lines|)
    case Err(error) => Err(error)
    case Ok(stock) => Ok(SaveLine(done, id, line).(stock := stock))
  }

  function RecordLines(b: Books, id: nat, lines: seq<Line>, move: Mover): (r: Result<Books, Error>)
    requires id < |b.entries|
    ensures r.Ok? ==> |r.value.entries| == |b.entries|
  {
    if lines == [] then Ok(b)
    else
      var n := |lines| - 1;
      match RecordLines(b, id, lines[..n], move)
      case Err(error) => Err(error)
      case Ok(done) => RecordNext(done, id, lines[n], move)
  }

  // ----- Services -----

  function CreateEntry(b: Books, request: Request, number: string, today: int): Result<Done, Error> {
    match Validated(b, request, today)
    case Err(error) => Err(error)
    case Ok(lines) =>
      var id := |b.entries|;
      var saved := SaveLines(b.(entries := b.entries + [NewEntry(request, number, Draft, 0)]), id, lines);
      Ok(Done(saved.(entries := Recalculated(saved.entries, saved.lines, id)), id))
  }

  function ConfirmEntry(b: Books, id: nat, actor: nat, today: int): Result<Done, Error> {
    if id >= |b.entries| then Err(NoSuchEntry)
    else if b.entries[id].status != Draft then Err(NotDraft)
    else
      var ids := LinesOf(b.lines, id);
      if ids == [] then Err(NoLines)
      else
        var receiver := Receiver(b.entries[id].store, ReferenceOf(b.entries[id]), today);
        match ReceiveAll(b.stock, b.entries[id].store, Picked(b.lines, ids), ids, receiver)
        case Err(error) => Err(error)
        case Ok(stock) =>
          var entries := Recalculated(b.entries, b.lines, id);
          Ok(Done(Books(stock, entries[id := entries[id].(status := Confirmed, confirmedBy := Some(actor))], b.lines), id))
  }

  function LinesTotal(lines: seq<Line>): int {
    Sum(lines, (line: Line) => line.total)
  }

  function RecordStockIn(b: Books, request: Request, number: string, today: int): Result<Done, Error> {
    match Validated(b, request, today)
    case Err(error) => Err(error)
    case Ok(lines) =>
      var id := |b.entries|;
      var entry := NewEntry(request, number, Confirmed, LinesTotal(lines));
      match RecordLines(b.(entries := b.entries + [entry]), id, lines, Receiver(entry.store, ReferenceOf(entry), today))
      case Err(error) => Err(error)
      case Ok(saved) => Ok(Done(saved.(entries := Recalculated(saved.entries, saved.lines, id)), id))
  }

  function CancelEntry(b: Books, id: nat): Result<Done, Error> {
    if id >= |b.entries| then Err(NoSuchEntry)
    else if b.entries[id].status != Draft then Err(NotDraft)
    else Ok(Done(b.(entries := b.entries[id := b.entries[id].(status := Cancelled)]), id))
  }
}
