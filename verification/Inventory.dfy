/** The append-only stock ledger: one locked product row and one immutable ledger row per movement. */
module Inventory {
  // Quantities are in thousandths of a unit, money in paise. Rows are identified by their position,
  // which is their primary key. A service that raises leaves the state it started from.

  import opened Wrappers
  import opened Text

  type ProductId = nat
  type StoreId = nat

  datatype Direction = In | Out

  datatype Kind =
    | Opening | Purchase | StockIn | StockOut | AdjustmentIn | AdjustmentOut
    | Damaged | Expired | CustomerReturn | SupplierReturn

  datatype ProductRow = ProductRow(store: StoreId, stock: int)

  datatype Txn = Txn(
    product: ProductId, store: StoreId, kind: Kind, direction: Direction,
    quantity: int, previous: int, balance: int,
    reference: string, reason: string, unitCost: Option<int>,
    made: Option<int>, expires: Option<int>, line: Option<nat>)

  /** The arguments of `apply_stock_movement`; `today` is the local date of the call. */
  datatype Movement = Movement(
    product: ProductId, store: StoreId, kind: Kind, quantity: int,
    reason: string, reference: string, unitCost: Option<int>,
    today: int, made: Option<int>, expires: Option<int>,
    entryStore: Option<StoreId>, line: Option<nat>)

  datatype Error =
    | InvalidQuantity | ReasonMissing | InvalidDates | NegativeCost
    | NoSuchProduct | WrongStore | WrongEntryStore
    | OpeningAlreadyRecorded | InsufficientStock | NothingToConvert | ConversionMismatch
    | DuplicateReference | NotAnOrderReference | ReferenceReused | BalanceChanged

  datatype State = State(products: seq<ProductRow>, ledger: seq<Txn>)

  datatype Applied = Applied(after: State, row: Txn)

  function DirectionOf(kind: Kind): Direction {
    match kind
    case Opening | Purchase | StockIn | AdjustmentIn | CustomerReturn => In
    case StockOut | AdjustmentOut | Damaged | Expired | SupplierReturn => Out
  }

  predicate ReasonRequired(kind: Kind) {
    kind in {StockOut, AdjustmentIn, AdjustmentOut, Damaged, Expired, SupplierReturn}
  }

  function SignedDelta(direction: Direction, quantity: int): int {
    if direction == In then quantity else -quantity
  }

  function Effect(m: Movement): int {
    SignedDelta(DirectionOf(m.kind), m.quantity)
  }

  predicate DatesOk(today: int, made: Option<int>, expires: Option<int>) {
    && (made.Some? ==> made.value <= today)
    && (made.Some? && expires.Some? ==> made.value <= expires.value)
  }

  const ORDER_PREFIX := "order-item:"

  /** References under this prefix are once-only keys, unique among ledger rows. */
  predicate IsOrderReference(reference: string) {
    StartsWith(reference, ORDER_PREFIX)
  }

  function DeductReference(item: nat): string {
    ORDER_PREFIX + Decimal(item) + ":deduct"
  }

  function RestoreReference(item: nat): string {
    ORDER_PREFIX + Decimal(item) + ":restore"
  }

  /** The newest row carrying `reference`. */
  function Newest(ledger: seq<Txn>, reference: string): (r: Option<Txn>)
    ensures r.Some? ==> r.value in ledger && r.value.reference == reference
    ensures r.None? ==> forall row :: row in ledger ==> row.reference != reference
  {
    if ledger == [] then None
    else
      var n := |ledger| - 1;
      if ledger[n].reference == reference then Some(ledger[n]) else Newest(ledger[..n], reference)
  }

  function FindByReference(ledger: seq<Txn>, reference: string): Option<Txn> {
    if Strip(reference) == "" then None else Newest(ledger, reference)
  }

  /** What the conditional unique constraint on `reference` refuses. */
  predicate Clashes(ledger: seq<Txn>, reference: string) {
    IsOrderReference(reference) && Newest(ledger, reference).Some?
  }

  predicate OpeningRecorded(ledger: seq<Txn>, product: ProductId) {
    exists i :: 0 <= i < |ledger| && ledger[i].product == product && ledger[i].kind == Opening
  }

  predicate HasHistory(ledger: seq<Txn>, product: ProductId) {
    exists i :: 0 <= i < |ledger| && ledger[i].product == product
  }

  function Row(m: Movement, previous: int, balance: int): Txn {
    Txn(m.product, m.store, m.kind, DirectionOf(m.kind), m.quantity, previous, balance,
        m.reference, Strip(m.reason), m.unitCost, m.made, m.expires, m.line)
  }

  /**
   * One stock movement. With `keepStock` the row records an existing balance as opening stock and
   * the product is left alone.
   */
  function Apply(s: State, m: Movement, keepStock: bool): Result<Applied, Error> {
    if m.quantity <= 0 then Err(InvalidQuantity)
    else if ReasonRequired(m.kind) && Strip(m.reason) == "" then Err(ReasonMissing)
    else if !DatesOk(m.today, m.made, m.expires) then Err(InvalidDates)
    else if m.unitCost.Some? && m.unitCost.value < 0 then Err(NegativeCost)
    else if m.product >= |s.products| then Err(NoSuchProduct)
    else if s.products[m.product].store != m.store then Err(WrongStore)
    else if m.entryStore.Some? && m.entryStore.value != m.store then Err(WrongEntryStore)
    else if m.kind == Opening && OpeningRecorded(s.ledger, m.product) then Err(OpeningAlreadyRecorded)
    else
      var previous := s.products[m.product].stock;
      var balance := previous + Effect(m);
      if !keepStock && balance < 0 then Err(InsufficientStock)
      else if keepStock && previous <= 0 then Err(NothingToConvert)
      else if keepStock && m.quantity != previous then Err(ConversionMismatch)
      else if Clashes(s.ledger, m.reference) then Err(DuplicateReference)
      else
        var row := if keepStock then Row(m, 0, previous) else Row(m, previous, balance);
        var products :=
          if keepStock then s.products
          else s.products[m.product := s.products[m.product].(stock := balance)];
        Ok(Applied(State(products, s.ledger + [row]), row))
  }

  /** The committed state after a movement: a refused one changes nothing. */
  function AfterMove(s: State, m: Movement): State {
    match Apply(s, m, false)
    case Ok(applied) => applied.after
    case Err(_) => s
  }

  function AfterAll(s: State, ms: seq<Movement>): State
    decreases |ms|
  {
    if ms == [] then s else AfterAll(AfterMove(s, ms[0]), ms[1..])
  }

  // ----- Opening stock -----

  function OpeningMovement(s: State, p: ProductId, store: StoreId, reason: string, reference: string): Movement
    requires p < |s.products|
  {
    Movement(p, store, Opening, s.products[p].stock, reason, reference, None, 0, None, None, None, None)
  }

  const CONVERTED := "Converted existing catalogue opening stock"

  function Convert(s: State, p: ProductId, store: StoreId, reason: string, reference: string): Result<Applied, Error> {
    if p >= |s.products| then Err(NoSuchProduct)
    else Apply(s, OpeningMovement(s, p, store, if reason == "" then CONVERTED else reason, reference), true)
  }

  const INITIALISED := "Initialized opening stock from existing catalogue balance"

  predicate NeedsOpening(s: State, p: ProductId) {
    p < |s.products| && s.products[p].stock > 0 && !HasHistory(s.ledger, p)
  }

  /** Initialisation of the products with primary keys `from` and up, in that order. */
  function InitialiseFrom(s: State, from: nat): State
    decreases |s.products| - from
  {
    if from >= |s.products| then s
    else if NeedsOpening(s, from) then
      var store := s.products[from].store;
      var conversion := Apply(s, OpeningMovement(s, from, store, INITIALISED, ""), true);
      InitialiseFrom(if conversion.Ok? then conversion.value.after else s, from + 1)
    else InitialiseFrom(s, from + 1)
  }

  /** Initialisation while nothing else commits. */
  function Initialise(s: State): State {
    InitialiseFrom(s, 0)
  }

  // ----- Initialisation among rivals -----

  /** A product as the initialisation read it before its loop; `balance` may be out of date later. */
  datatype Candidate = Candidate(product: ProductId, store: StoreId, balance: int)

  function CandidatesFrom(s: State, from: nat): seq<Candidate>
    decreases |s.products| - from
  {
    if from >= |s.products| then []
    else
      (if NeedsOpening(s, from) then [Candidate(from, s.products[from].store, s.products[from].stock)] else [])
      + CandidatesFrom(s, from + 1)
  }

  /**
   * What others commit around one candidate. The loop runs in no transaction of its own and looks for
   * history without a lock, so movements may come before that look, between it and the lock of the
   * conversion, and before the balance is read again.
   */
  datatype Turn = Turn(before: seq<Movement>, between: seq<Movement>, behind: seq<Movement>)

  datatype Initialised = Initialised(after: State, converted: seq<Txn>, failure: Option<Error>)

  function StockOf(s: State, p: ProductId): Option<int> {
    if p < |s.products| then Some(s.products[p].stock) else None
  }

  /** One candidate. A changed balance raises, but the conversion is committed by then. */
  function InitialiseOne(s: State, c: Candidate, turn: Turn): Initialised {
    var looked := AfterAll(s, turn.before);
    if HasHistory(looked.ledger, c.product) || c.balance <= 0 then Initialised(looked, [], None)
    else
      var locked := AfterAll(looked, turn.between);
      match Convert(locked, c.product, c.store, INITIALISED, "")
      case Err(error) => Initialised(locked, [], Some(error))
      case Ok(applied) =>
        var reread := AfterAll(applied.after, turn.behind);
        if StockOf(reread, c.product) != Some(c.balance) then Initialised(reread, [], Some(BalanceChanged))
        else Initialised(reread, [applied.row], None)
  }

  function InitialiseEach(s: State, candidates: seq<Candidate>, turns: seq<Turn>): Initialised
    requires |turns| == |candidates|
    decreases |candidates|
  {
    if candidates == [] then Initialised(s, [], None)
    else
      var first := InitialiseOne(s, candidates[0], turns[0]);
      if first.failure.Some? then first
      else
        var rest := InitialiseEach(first.after, candidates[1..], turns[1..]);
        Initialised(rest.after, first.converted + rest.converted, rest.failure)
  }

  // ----- Once-only order movements -----

  /** A call of `deduct_order_stock` (kind StockOut) or `restore_order_stock` (kind CustomerReturn). */
  datatype OrderCall = OrderCall(
    kind: Kind, product: ProductId, store: StoreId, quantity: int, reference: string, reason: string)

  datatype Outcome = Outcome(after: State, result: Result<Txn, Error>)

  function DeductCall(product: ProductId, store: StoreId, quantity: int, reference: string, reason: string): OrderCall {
    OrderCall(StockOut, product, store, quantity, reference,
              if Strip(reason) == "" then "Order stock deduction" else reason)
  }

  function RestoreCall(product: ProductId, store: StoreId, quantity: int, reference: string, reason: string): OrderCall {
    OrderCall(CustomerReturn, product, store, quantity, reference,
              if Strip(reason) == "" then "Order stock restoration" else reason)
  }

  function OrderMove(call: OrderCall): Movement {
    Movement(call.product, call.store, call.kind, call.quantity, call.reason, Strip(call.reference),
             None, 0, None, None, None, None)
  }

  predicate Matches(row: Txn, call: OrderCall) {
    row.product == call.product && row.store == call.store
    && row.kind == call.kind && row.quantity == call.quantity
  }

  function Reuse(row: Txn, call: OrderCall): Result<Txn, Error> {
    if Matches(row, call) then Ok(row) else Err(ReferenceReused)
  }

  /**
   * `seen` is the ledger at the first lookup and `now` the state once the product row is locked, so
   * `now` may hold rows committed by rivals in between. When a rival took the reference, `early`
   * says whether its row was already visible to `full_clean`, which refuses it outright, or only to
   * the INSERT, whose IntegrityError rolls back to the savepoint and re-reads the winner.
   */
  function OrderStock(seen: seq<Txn>, now: State, early: bool, call: OrderCall): Outcome {
    var reference := Strip(call.reference);
    if !IsOrderReference(reference) then Outcome(now, Err(NotAnOrderReference))
    else
      match FindByReference(seen, reference)
      case Some(row) => Outcome(now, Reuse(row, call))
      case None =>
        match Apply(now, OrderMove(call), false)
        case Ok(applied) => Outcome(applied.after, Ok(applied.row))
        case Err(error) =>
          if error == DuplicateReference && !early then
            match FindByReference(now.ledger, reference)
            case Some(row) => Outcome(now, Reuse(row, call))
            case None => Outcome(now, Err(error))
          else Outcome(now, Err(error))
  }
}
