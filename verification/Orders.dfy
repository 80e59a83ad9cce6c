/** The order tables and the rules of checkout, rejection, cancellation and fulfilment. */
module Orders {
  import opened Wrappers
  import opened Text
  import opened Sums
  import opened Rounding
  import opened Shopfront
  import opened Sorting
  import I = Inventory

  datatype OrderStatus = Placed | Confirmed | InProgress | Completed | PartiallyCancelled | Cancelled

  datatype StoreOrderStatus =
    | Pending | Accepted | Preparing | Ready | OutForDelivery | ReadyForPickup
    | Completed | Cancelled | Rejected

  datatype PaymentStatus = Pending | Collected | Cancelled

  datatype Order = Order(
    customer: nat, token: string, status: OrderStatus, payment: PaymentStatus,
    itemsSubtotal: nat, deliveryCharge: nat, discount: nat, grandTotal: nat)

  /** `completedFrom` is the old status of the newest completion in the status history. */
  datatype StoreOrder = StoreOrder(
    order: nat, store: I.StoreId, status: StoreOrderStatus, completedFrom: Option<StoreOrderStatus>,
    itemsSubtotal: nat, deliveryCharge: nat)

  datatype Item = Item(
    storeOrder: nat, product: I.ProductId, unitPrice: nat, quantity: nat, lineTotal: nat,
    restored: bool, cancelled: bool, rejected: bool)

  /** All tables; a row's position is its primary key, and rows are never deleted. */
  datatype Db = Db(
    stock: I.State, catalogue: Catalogue, carts: map<nat, seq<CartLine>>,
    orders: seq<Order>, storeOrders: seq<StoreOrder>, items: seq<Item>)

  datatype Error =
    | TokenRequired | InvalidToken | DuplicateToken | EmptyCart | Review(product: I.ProductId, refusal: Refusal)
    | FulfilmentRefused | StockRefused(error: I.Error)
    | NotFound | PermissionDenied | ReasonRequired | ActorRequired | StatusRefused | UnknownAction

  // ----- Checkout -----

  /** `fulfilmentOk`: the chosen delivery address or pickup points and payment method resolve. */
  datatype Checkout = Checkout(customer: nat, token: string, fulfilmentOk: bool, today: int)

  datatype Line = Line(product: I.ProductId, store: I.StoreId, quantity: nat, unitPrice: nat, lineTotal: nat)

  function CartOf(db: Db, customer: nat): seq<CartLine> {
    if customer in db.carts then db.carts[customer] else []
  }

  function FindToken(orders: seq<Order>, token: string): (r: Option<nat>)
    ensures r.Some? ==> r.value < |orders| && orders[r.value].token == token
    ensures r.None? ==> forall i :: 0 <= i < |orders| ==> orders[i].token != token
  {
    if orders == [] then None
    else
      var n := |orders| - 1;
      match FindToken(orders[..n], token)
      case Some(i) => Some(i)
      case None => if orders[n].token == token then Some(n) else None
  }

  function ExistingOrder(order: Order, id: nat, customer: nat): Result<nat, Error> {
    if order.customer == customer then Ok(id) else Err(InvalidToken)
  }

  function ProductKey(): CartLine -> int {
    (line: CartLine) => line.product
  }

  function StoreKey(): Line -> int {
    (line: Line) => line.store
  }

  function BuildLine(db: Db, line: CartLine, today: int): Result<Line, Error> {
    if line.product >= |db.stock.products| || line.product >= |db.catalogue.listings|
    then Err(Review(line.product, NoLongerAvailable))
    else
      var row, listing := db.stock.products[line.product], db.catalogue.listings[line.product];
      match CheckSellable(db.catalogue, listing, row, today, line.quantity)
      case Some(refusal) => Err(Review(line.product, refusal))
      case None =>
        var price := listing.finalPrice.value;
        Ok(Line(line.product, row.store, line.quantity, price, LineTotal(price, line.quantity)))
  }

  function BuildLines(db: Db, cart: seq<CartLine>, today: int): Result<seq<Line>, Error> {
    if cart == [] then Ok([])
    else
      var n := |cart| - 1;
      match BuildLines(db, cart[..n], today)
      case Err(error) => Err(error)
      case Ok(lines) =>
        match BuildLine(db, cart[n], today)
        case Err(error) => Err(error)
        case Ok(line) => Ok(lines + [line])
  }

  function LineTotalOf(): Line -> int {
    (line: Line) => line.lineTotal
  }

  function Subtotal(lines: seq<Line>): nat {
    SumNonNegative(lines, LineTotalOf());
    Sum(lines, LineTotalOf())
  }

  function NewItem(storeOrder: nat, line: Line): Item {
    Item(storeOrder, line.product, line.unitPrice, line.quantity, line.lineTotal, false, false, false)
  }

  /** One order item and its stock deduction. */
  function AddLine(db: Db, storeOrder: nat, line: Line): Result<Db, Error> {
    var item := |db.items|;
    var call := I.DeductCall(line.product, line.store, line.quantity, I.DeductReference(item), "Order");
    var outcome := I.OrderStock(db.stock.ledger, db.stock, false, call);
    match outcome.result
    case Err(error) => Err(StockRefused(error))
    case Ok(_) => Ok(db.(items := db.items + [NewItem(storeOrder, line)], stock := outcome.after))
  }

  function AddLines(db: Db, storeOrder: nat, lines: seq<Line>): Result<Db, Error>
    decreases |lines|
  {
    if lines == [] then Ok(db)
    else
      match AddLine(db, storeOrder, lines[0])
      case Err(error) => Err(error)
      case Ok(next) => AddLines(next, storeOrder, lines[1..])
  }

  function NewStoreOrder(order: nat, lines: seq<Line>): StoreOrder
    requires lines != []
  {
    StoreOrder(order, lines[0].store, StoreOrderStatus.Pending, None, Subtotal(lines), 0)
  }

  function AddStoreOrders(db: Db, order: nat, groups: seq<Group<Line>>): Result<Db, Error>
    requires Uniform(groups, StoreKey())
    decreases |groups|
  {
    if groups == [] then Ok(db)
    else
      var lines := groups[0].rows;
      var started := db.(storeOrders := db.storeOrders + [NewStoreOrder(order, lines)]);
      match AddLines(started, |db.storeOrders|, lines)
      case Err(error) => Err(error)
      case Ok(next) => AddStoreOrders(next, order, groups[1..])
  }

  function StoreGroups(lines: seq<Line>): (groups: seq<Group<Line>>)
    ensures Uniform(groups, StoreKey())
  {
    GroupRunsUniform(SortBy(lines, StoreKey()), StoreKey());
    GroupRuns(SortBy(lines, StoreKey()), StoreKey())
  }

  function NewOrder(req: Checkout, lines: seq<Line>): Order {
    Order(req.customer, req.token, OrderStatus.Placed, PaymentStatus.Pending,
          Subtotal(lines), 0, 0, Subtotal(lines))
  }

  function CreateOrderGraph(db: Db, req: Checkout, lines: seq<Line>): Result<Db, Error> {
    var placed := db.(orders := db.orders + [NewOrder(req, lines)]);
    match AddStoreOrders(placed, |db.orders|, StoreGroups(lines))
    case Err(error) => Err(error)
    case Ok(next) => Ok(next.(carts := next.carts[req.customer := []]))
  }

  /** The lines a cart is sold as, validated while its rows and products are locked. */
  function ValidatedLines(db: Db, req: Checkout): Result<seq<Line>, Error> {
    var cart := SortBy(CartOf(db, req.customer), ProductKey());
    if cart == [] then Err(EmptyCart)
    else
      match BuildLines(db, cart, req.today)
      case Err(error) => Err(error)
      case Ok(lines) => if req.fulfilmentOk then Ok(lines) else Err(FulfilmentRefused)
  }

  /** The request passes its token lookup and its validation, and so goes on to insert. */
  predicate ReachesInsert(locked: Db, req: Checkout) {
    req.token != "" && FindToken(locked.orders, req.token).None? && ValidatedLines(locked, req).Ok?
  }

  datatype Placing = Placing(after: Db, result: Result<nat, Error>)

  /**
   * Checkout. `locked` is the state in which the cart and product rows were locked and validated,
   * `now` the state its INSERT meets, which may hold what others committed to unlocked rows since.
   * When a rival took the token in between, `early` says whether `full_clean` already sees its
   * order, and refuses, or only the INSERT does, which turns the race into an idempotent return.
   */
  function PlaceOrder(locked: Db, now: Db, early: bool, req: Checkout): Placing {
    if req.token == "" then Placing(now, Err(TokenRequired))
    else
      match FindToken(locked.orders, req.token)
      case Some(id) => Placing(now, ExistingOrder(locked.orders[id], id, req.customer))
      case None =>
        match ValidatedLines(locked, req)
        case Err(error) => Placing(now, Err(error))
        case Ok(lines) =>
          match FindToken(now.orders, req.token)
          case Some(id) =>
            Placing(now, if early then Err(DuplicateToken) else ExistingOrder(now.orders[id], id, req.customer))
          case None =>
            match CreateOrderGraph(now, req, lines)
            case Err(error) => Placing(now, Err(error))
            case Ok(next) => Placing(next, Ok(|now.orders|))
  }

  // ----- Payable totals -----

  predicate NonChargeable(status: StoreOrderStatus) {
    status in {StoreOrderStatus.Rejected, StoreOrderStatus.Cancelled}
  }

  predicate Charged(row: StoreOrder, order: nat) {
    row.order == order && !NonChargeable(row.status)
  }

  function ItemsCharged(order: nat): StoreOrder -> int {
    (row: StoreOrder) => if Charged(row, order) then row.itemsSubtotal else 0
  }

  function DeliveryCharged(order: nat): StoreOrder -> int {
    (row: StoreOrder) => if Charged(row, order) then row.deliveryCharge else 0
  }

  predicate AnyCharged(rows: seq<StoreOrder>, order: nat) {
    exists i :: 0 <= i < |rows| && Charged(rows[i], order)
  }

  function Rescale(discount: nat, subtotal: nat, previous: nat): nat {
    if discount == 0 || previous == 0 then 0 else HalfEven(discount * subtotal, previous)
  }

  function GrandTotal(items: nat, delivery: nat, discount: nat): nat {
    if items + delivery < discount then 0 else items + delivery - discount
  }

  function Recalculate(row: Order, storeOrders: seq<StoreOrder>, order: nat): Order {
    SumNonNegative(storeOrders, ItemsCharged(order));
    SumNonNegative(storeOrders, DeliveryCharged(order));
    var items: nat := Sum(storeOrders, ItemsCharged(order));
    var delivery: nat := Sum(storeOrders, DeliveryCharged(order));
    var discount :=
      if AnyCharged(storeOrders, order) then Rescale(row.discount, items, row.itemsSubtotal) else 0;
    row.(itemsSubtotal := items, deliveryCharge := delivery, discount := discount,
         grandTotal := GrandTotal(items, delivery, discount))
  }

  function WithTotals(db: Db, order: nat): Db
    requires order < |db.orders|
  {
    db.(orders := db.orders[order := Recalculate(db.orders[order], db.storeOrders, order)])
  }

  // ----- Status of the parent order -----

  function StatusesOf(rows: seq<StoreOrder>, order: nat): seq<StoreOrderStatus> {
    if rows == [] then []
    else
      var n := |rows| - 1;
      StatusesOf(rows[..n], order) + (if rows[n].order == order then [rows[n].status] else [])
  }

  predicate ReadyTier(status: StoreOrderStatus) {
    status in {StoreOrderStatus.Ready, StoreOrderStatus.OutForDelivery, StoreOrderStatus.ReadyForPickup}
  }

  /** The overall status of an order whose store orders have these statuses; the first rule wins. */
  function CalculateOrderStatus(statuses: seq<StoreOrderStatus>): OrderStatus {
    if statuses == [] then OrderStatus.Placed
    else if forall s :: s in statuses ==> NonChargeable(s) then OrderStatus.Cancelled
    else if forall s :: s in statuses ==> NonChargeable(s) || s == StoreOrderStatus.Completed
    then OrderStatus.Completed
    else if exists s :: s in statuses && NonChargeable(s) then OrderStatus.PartiallyCancelled
    else if forall s :: s in statuses ==> ReadyTier(s) then OrderStatus.InProgress
    else if StoreOrderStatus.Preparing in statuses && !(exists s :: s in statuses && ReadyTier(s))
    then OrderStatus.InProgress
    else if forall s :: s in statuses ==> s == StoreOrderStatus.Pending then OrderStatus.Placed
    else if forall s :: s in statuses ==> s in {StoreOrderStatus.Pending, StoreOrderStatus.Accepted}
    then OrderStatus.Confirmed
    else OrderStatus.InProgress
  }

  function CancelPayment(payment: PaymentStatus): PaymentStatus {
    if payment == PaymentStatus.Pending then PaymentStatus.Cancelled else payment
  }

  function Synced(row: Order, storeOrders: seq<StoreOrder>, order: nat): Order {
    var status := CalculateOrderStatus(StatusesOf(storeOrders, order));
    if status == row.status then row
    else if status == OrderStatus.Cancelled then row.(status := status, payment := CancelPayment(row.payment))
    else row.(status := status)
  }

  // ----- Restoring stock -----

  datatype Scope = OfOrder(order: nat) | OfStoreOrder(storeOrder: nat)

  predicate InScope(storeOrders: seq<StoreOrder>, item: Item, scope: Scope) {
    item.storeOrder < |storeOrders|
    && match scope
       case OfOrder(order) => storeOrders[item.storeOrder].order == order
       case OfStoreOrder(storeOrder) => item.storeOrder == storeOrder
  }

  /** Returns the stock of item `k` and flags it. */
  function RestoreItem(db: Db, k: nat): Result<Db, Error>
    requires k < |db.items| && db.items[k].storeOrder < |db.storeOrders|
  {
    var item := db.items[k];
    var call := I.RestoreCall(item.product, db.storeOrders[item.storeOrder].store, item.quantity,
                              I.RestoreReference(k), "Order");
    var outcome := I.OrderStock(db.stock.ledger, db.stock, false, call);
    match outcome.result
    case Err(error) => Err(StockRefused(error))
    case Ok(_) => Ok(db.(items := db.items[k := item.(restored := true)], stock := outcome.after))
  }

  /** Items of the scope with primary keys `from` and up that still hold stock, in that order. */
  function RestoreFrom(db: Db, from: nat, scope: Scope): (r: Result<Db, Error>)
    ensures r.Ok? ==> r.value.orders == db.orders && r.value.storeOrders == db.storeOrders
    decreases |db.items| - from
  {
    if from >= |db.items| then Ok(db)
    else if !InScope(db.storeOrders, db.items[from], scope) || db.items[from].restored
    then RestoreFrom(db, from + 1, scope)
    else
      match RestoreItem(db, from)
      case Err(error) => Err(error)
      case Ok(next) => RestoreFrom(next, from + 1, scope)
  }

  function MarkCancelled(storeOrders: seq<StoreOrder>, items: seq<Item>, scope: Scope): seq<Item> {
    seq(|items|, k requires 0 <= k < |items| =>
      if InScope(storeOrders, items[k], scope) then items[k].(cancelled := true) else items[k])
  }

  function MarkRejected(storeOrders: seq<StoreOrder>, items: seq<Item>, scope: Scope): seq<Item> {
    seq(|items|, k requires 0 <= k < |items| =>
      if InScope(storeOrders, items[k], scope) then items[k].(rejected := true) else items[k])
  }

  // ----- Cancellation -----

  const CUSTOMER_CANCELABLE := {StoreOrderStatus.Pending, StoreOrderStatus.Accepted}

  const ACTIVE := {
    StoreOrderStatus.Pending, StoreOrderStatus.Accepted, StoreOrderStatus.Preparing,
    StoreOrderStatus.Ready, StoreOrderStatus.OutForDelivery, StoreOrderStatus.ReadyForPickup}

  predicate BlocksCustomer(status: StoreOrderStatus) {
    status == StoreOrderStatus.Preparing || ReadyTier(status) || status == StoreOrderStatus.Completed
  }

  predicate CustomerMayCancel(db: Db, order: nat)
    requires order < |db.orders|
  {
    db.orders[order].status == OrderStatus.Cancelled
    || (db.orders[order].status in {OrderStatus.Placed, OrderStatus.Confirmed}
        && forall i :: 0 <= i < |db.storeOrders| && db.storeOrders[i].order == order
             ==> !BlocksCustomer(db.storeOrders[i].status))
  }

  predicate AdminMayCancel(order: Order) {
    order.status in {OrderStatus.Cancelled, OrderStatus.Placed, OrderStatus.Confirmed,
                     OrderStatus.InProgress, OrderStatus.PartiallyCancelled}
  }

  function CancelStoreOrders(rows: seq<StoreOrder>, order: nat, statuses: set<StoreOrderStatus>): seq<StoreOrder> {
    seq(|rows|, i requires 0 <= i < |rows| =>
      if rows[i].order == order && rows[i].status in statuses
      then rows[i].(status := StoreOrderStatus.Cancelled) else rows[i])
  }

  /** Cancels the parent row, its cancellable store orders and its items, unless already cancelled. */
  function CancelRows(db: Db, order: nat, statuses: set<StoreOrderStatus>): Db
    requires order < |db.orders|
  {
    var row := db.orders[order];
    if row.status == OrderStatus.Cancelled then db
    else
      var storeOrders := CancelStoreOrders(db.storeOrders, order, statuses);
      db.(storeOrders := storeOrders,
          orders := db.orders[order := row.(status := OrderStatus.Cancelled, payment := CancelPayment(row.payment))],
          items := MarkCancelled(storeOrders, db.items, OfOrder(order)))
  }

  function CancelOrder(db: Db, order: nat, statuses: set<StoreOrderStatus>): Result<Db, Error>
    requires order < |db.orders|
  {
    match RestoreFrom(CancelRows(db, order, statuses), 0, OfOrder(order))
    case Err(error) => Err(error)
    case Ok(next) =>
      var marked := next.(items := MarkCancelled(next.storeOrders, next.items, OfOrder(order)));
      Ok(WithTotals(marked, order))
  }

  function CancelByCustomer(db: Db, order: nat, customer: nat, reason: string): Result<Db, Error> {
    if order >= |db.orders| then Err(NotFound)
    else if db.orders[order].customer != customer then Err(PermissionDenied)
    else if Strip(reason) == "" then Err(ReasonRequired)
    else if !CustomerMayCancel(db, order) then Err(StatusRefused)
    else CancelOrder(db, order, CUSTOMER_CANCELABLE)
  }

  function CancelByAdmin(db: Db, order: nat, hasActor: bool, reason: string): Result<Db, Error> {
    if !hasActor then Err(ActorRequired)
    else if order >= |db.orders| then Err(NotFound)
    else if Strip(reason) == "" then Err(ReasonRequired)
    else if !AdminMayCancel(db.orders[order]) then Err(StatusRefused)
    else CancelOrder(db, order, ACTIVE)
  }

  // ----- Store rejection -----

  function RejectRow(db: Db, id: nat): Db
    requires id < |db.storeOrders|
  {
    var row := db.storeOrders[id];
    if row.status == StoreOrderStatus.Rejected then db
    else
      var storeOrders := db.storeOrders[id := row.(status := StoreOrderStatus.Rejected)];
      db.(storeOrders := storeOrders, items := MarkRejected(storeOrders, db.items, OfStoreOrder(id)))
  }

  function WithSync(db: Db, order: nat): Db
    requires order < |db.orders|
  {
    db.(orders := db.orders[order := Synced(db.orders[order], db.storeOrders, order)])
  }

  function Reject(db: Db, id: nat, store: I.StoreId, reason: string): Result<Db, Error> {
    if id >= |db.storeOrders| || db.storeOrders[id].order >= |db.orders| then Err(NotFound)
    else if db.storeOrders[id].store != store then Err(PermissionDenied)
    else if Strip(reason) == "" then Err(ReasonRequired)
    else if db.storeOrders[id].status !in {StoreOrderStatus.Rejected, StoreOrderStatus.Pending} then Err(StatusRefused)
    else
      var order := db.storeOrders[id].order;
      match RestoreFrom(RejectRow(db, id), 0, OfStoreOrder(id))
      case Err(error) => Err(error)
      case Ok(next) =>
        var marked := next.(items := MarkRejected(next.storeOrders, next.items, OfStoreOrder(id)));
        Ok(WithTotals(WithSync(marked, order), order))
  }

  // ----- Fulfilment -----

  datatype Action = Accept | Process | MakeReady

  function SourceOf(action: Action): StoreOrderStatus {
    match action
    case Accept => StoreOrderStatus.Pending
    case Process => StoreOrderStatus.Accepted
    case MakeReady => StoreOrderStatus.Preparing
  }

  function TargetOf(action: Action): StoreOrderStatus {
    match action
    case Accept => StoreOrderStatus.Accepted
    case Process => StoreOrderStatus.Preparing
    case MakeReady => StoreOrderStatus.Ready
  }

  function Transition(db: Db, id: nat, store: I.StoreId, portalOpen: bool, action: Action): Result<Db, Error> {
    if !portalOpen then Err(StatusRefused)
    else if id >= |db.storeOrders| || db.storeOrders[id].order >= |db.orders| then Err(NotFound)
    else if db.storeOrders[id].store != store then Err(PermissionDenied)
    else if db.storeOrders[id].status != SourceOf(action) then Err(StatusRefused)
    else
      var row := db.storeOrders[id];
      var moved := db.(storeOrders := db.storeOrders[id := row.(status := TargetOf(action))]);
      Ok(WithSync(moved, row.order))
  }

  predicate ForwardMove(current: OrderStatus, target: OrderStatus) {
    match current
    case Placed => target in {OrderStatus.Confirmed, OrderStatus.InProgress}
    case Confirmed => target in {OrderStatus.InProgress, OrderStatus.Completed}
    case InProgress => target == OrderStatus.Completed
    case PartiallyCancelled => target in {OrderStatus.InProgress, OrderStatus.Completed}
    case Completed => false
    case Cancelled => false
  }

  predicate Completable(status: StoreOrderStatus) {
    ReadyTier(status) || status == StoreOrderStatus.Completed
  }

  function CompleteStoreOrders(rows: seq<StoreOrder>, order: nat): seq<StoreOrder> {
    seq(|rows|, i requires 0 <= i < |rows| =>
      if Charged(rows[i], order) && rows[i].status != StoreOrderStatus.Completed
      then rows[i].(status := StoreOrderStatus.Completed, completedFrom := Some(rows[i].status)) else rows[i])
  }

  function ReopenStoreOrders(rows: seq<StoreOrder>, order: nat): seq<StoreOrder> {
    seq(|rows|, i requires 0 <= i < |rows| =>
      if rows[i].order == order && rows[i].status == StoreOrderStatus.Completed
      then rows[i].(status :=
        if rows[i].completedFrom.Some? && ReadyTier(rows[i].completedFrom.value)
        then rows[i].completedFrom.value else StoreOrderStatus.Ready)
      else rows[i])
  }

  /** Management moves the parent order forward, or reverses a delivery with a correction note. */
  function UpdateOrderStatus(db: Db, order: nat, target: OrderStatus, note: string): Result<Db, Error> {
    if order >= |db.orders| then Err(NotFound)
    else if target == OrderStatus.Cancelled then Err(StatusRefused)
    else
      var row := db.orders[order];
      if target == row.status then Ok(db)
      else if row.status == OrderStatus.Completed && target == OrderStatus.InProgress then
        if Strip(note) == "" then Err(ReasonRequired)
        else if row.payment == PaymentStatus.Collected then Err(StatusRefused)
        else Ok(db.(storeOrders := ReopenStoreOrders(db.storeOrders, order),
                    orders := db.orders[order := row.(status := target)]))
      else if !ForwardMove(row.status, target) then Err(StatusRefused)
      else if target == OrderStatus.Completed then
        if exists i :: 0 <= i < |db.storeOrders| && Charged(db.storeOrders[i], order) && !Completable(db.storeOrders[i].status)
        then Err(StatusRefused)
        else Ok(db.(storeOrders := CompleteStoreOrders(db.storeOrders, order),
                    orders := db.orders[order := row.(status := target)]))
      else Ok(db.(orders := db.orders[order := row.(status := target)]))
  }

  predicate PaymentMove(current: PaymentStatus, target: PaymentStatus) {
    (current == PaymentStatus.Pending && target in {PaymentStatus.Collected, PaymentStatus.Cancelled})
    || (current == PaymentStatus.Collected && target == PaymentStatus.Pending)
  }

  function UpdatePayment(db: Db, order: nat, target: PaymentStatus, note: string): Result<Db, Error> {
    if order >= |db.orders| then Err(NotFound)
    else
      var row := db.orders[order];
      if target == row.payment then Ok(db)
      else if row.payment == PaymentStatus.Collected && target == PaymentStatus.Pending && Strip(note) == ""
      then Err(ReasonRequired)
      else if target == PaymentStatus.Collected && row.status != OrderStatus.Completed then Err(StatusRefused)
      else if !PaymentMove(row.payment, target) then Err(StatusRefused)
      else Ok(db.(orders := db.orders[order := row.(payment := target)]))
  }
}
