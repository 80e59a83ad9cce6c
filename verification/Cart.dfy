/** The cart: merging additions under a race, and a preview that agrees with checkout to the paisa. */
module Cart {
  import opened Wrappers
  import opened Sums
  import opened Shopfront
  import opened Sorting
  import opened Orders
  import opened CheckoutLaws
  import opened CheckoutTheorems
  import opened CheckoutRules
  import I = Inventory

  datatype CartError = BadQuantity | NotAvailable | NotEnoughStock | NoSuchItem | DuplicateLine

  function FindLine(cart: seq<CartLine>, p: I.ProductId): (r: Option<nat>)
    ensures r.Some? ==> r.value < |cart| && cart[r.value].product == p
    ensures r.None? ==> forall i :: 0 <= i < |cart| ==> cart[i].product != p
  {
    if cart == [] then None
    else
      var n := |cart| - 1;
      match FindLine(cart[..n], p)
      case Some(i) => Some(i)
      case None => if cart[n].product == p then Some(n) else None
  }

  /** The quantity of `p` in a cart; the database allows one line for it. */
  function QuantityIn(cart: seq<CartLine>, p: I.ProductId): nat {
    match FindLine(cart, p)
    case Some(i) => cart[i].quantity
    case None => 0
  }

  /** What a customer may put in a cart now: the locked product row, while it is publicly listed. */
  function LockedStock(db: Db, p: I.ProductId, today: int): Option<int> {
    if p < |db.stock.products| && p < |db.catalogue.listings|
       && PubliclyAvailable(db.catalogue, db.catalogue.listings[p], db.stock.products[p], today)
    then Some(db.stock.products[p].stock) else None
  }

  function Merge(cart: seq<CartLine>, i: nat, quantity: nat, stock: int): Result<seq<CartLine>, CartError>
    requires i < |cart|
  {
    var total := cart[i].quantity + quantity;
    if total > stock then Err(NotEnoughStock) else Ok(cart[i := cart[i].(quantity := total)])
  }

  /**
   * Adding `quantity` of `p`. `winner` is the line a concurrent first addition of the same product
   * inserted after this one looked for it. `early` says whether `full_clean` already sees that line,
   * and refuses, or only the INSERT does, whose unique constraint turns it into a merge.
   */
  function Add(cart: seq<CartLine>, p: I.ProductId, quantity: int, stock: Option<int>, winner: Option<nat>, early: bool)
    : Result<seq<CartLine>, CartError>
  {
    if quantity <= 0 then Err(BadQuantity)
    else if stock.None? then Err(NotAvailable)
    else
      match FindLine(cart, p)
      case Some(i) => Merge(cart, i, quantity, stock.value)
      case None =>
        if quantity > stock.value then Err(NotEnoughStock)
        else
          match winner
          case None => Ok(cart + [CartLine(p, quantity)])
          case Some(theirs) =>
            if early then Err(DuplicateLine)
            else Merge(cart + [CartLine(p, theirs)], |cart|, quantity, stock.value)
  }

  function SetQuantity(cart: seq<CartLine>, p: I.ProductId, quantity: int, stock: Option<int>): Result<seq<CartLine>, CartError> {
    if quantity <= 0 then Err(BadQuantity)
    else
      match FindLine(cart, p)
      case None => Err(NoSuchItem)
      case Some(i) =>
        if stock.None? then Err(NotAvailable)
        else if quantity > stock.value then Err(NotEnoughStock)
        else Ok(cart[i := cart[i].(quantity := quantity)])
  }

  function Remove(cart: seq<CartLine>, p: I.ProductId): Result<seq<CartLine>, CartError> {
    match FindLine(cart, p)
    case None => Err(NoSuchItem)
    case Some(i) => Ok(cart[..i] + cart[i + 1..])
  }

  /** Whoever wins the race, both additions count, the result fits the stock and no other line moves. */
  lemma {:induction false} AddMerges(
      cart: seq<CartLine>, p: I.ProductId, quantity: int, stock: Option<int>, winner: Option<nat>, early: bool)
    requires WellFormedCart(cart) && Add(cart, p, quantity, stock, winner, early).Ok?
    requires winner.Some? ==> winner.value > 0
    ensures var after := Add(cart, p, quantity, stock, winner, early).value;
      var theirs := if FindLine(cart, p).None? && winner.Some? then winner.value else 0;
      && WellFormedCart(after)
      && QuantityIn(after, p) == QuantityIn(cart, p) + theirs + quantity <= stock.value
      && forall q: I.ProductId :: q != p ==> QuantityIn(after, q) == QuantityIn(cart, q)
  {
    var after := Add(cart, p, quantity, stock, winner, early).value;
    forall q: I.ProductId ensures LineOf(cart, q) && LineOf(after, q) {
      OnlyLine(cart, q);
      OnlyLine(after, q);
    }
    SamePlace(cart, after, p);
  }

  /** The cart has a line of `p`. */
  predicate Holds(cart: seq<CartLine>, p: I.ProductId) {
    exists i :: 0 <= i < |cart| && cart[i].product == p
  }

  /**
   * An addition goes through if and only if its quantity is positive, the product is available, and
   * what is in the cart and what a rival just put there leave room for it on the shelf; a rival's line
   * that is seen in time refuses it.
   */
  lemma {:induction false} AddAcceptedIff(
      cart: seq<CartLine>, p: I.ProductId, quantity: int, stock: Option<int>, winner: Option<nat>, early: bool)
    requires WellFormedCart(cart)
    ensures Add(cart, p, quantity, stock, winner, early).Ok? <==>
      && quantity > 0 && stock.Some? && QuantityIn(cart, p) + quantity <= stock.value
      && (!Holds(cart, p) && winner.Some? ==> !early && winner.value + quantity <= stock.value)
  {
    OnlyLine(cart, p);
  }

  /** A line of the cart can be set to any positive quantity on the shelf; only a line of the cart can be removed. */
  lemma {:induction false} EditAcceptedIff(cart: seq<CartLine>, p: I.ProductId, quantity: int, stock: Option<int>)
    ensures SetQuantity(cart, p, quantity, stock).Ok? <==> quantity > 0 && Holds(cart, p) && stock.Some? && quantity <= stock.value
    ensures Remove(cart, p).Ok? <==> Holds(cart, p)
  {
  }

  /** A product can be put in a cart exactly on the days one thousandth of a unit of it could be ordered. */
  lemma {:induction false} AvailableIff(db: Db, p: I.ProductId, today: int)
    ensures LockedStock(db, p, today).Some? <==> Sellable(db, CartLine(p, 1), today)
    ensures LockedStock(db, p, today).Some? ==> LockedStock(db, p, today).value == db.stock.products[p].stock
  {
  }

  /** What was just added can be ordered: the line it leaves passes every check of checkout. */
  lemma {:induction false} AddedCanBeOrdered(
      db: Db, cart: seq<CartLine>, p: I.ProductId, quantity: int, winner: Option<nat>, early: bool, today: int)
    requires WellFormedCart(cart) && (winner.Some? ==> winner.value > 0)
    requires Add(cart, p, quantity, LockedStock(db, p, today), winner, early).Ok?
    ensures var after := Add(cart, p, quantity, LockedStock(db, p, today), winner, early).value;
      exists i :: 0 <= i < |after| && after[i].product == p && Sellable(db, after[i], today)
  {
    AddMerges(cart, p, quantity, LockedStock(db, p, today), winner, early);
    AvailableIff(db, p, today);
    var after := Add(cart, p, quantity, LockedStock(db, p, today), winner, early).value;
    OnlyLine(after, p);
    var i :| 0 <= i < |after| && after[i].product == p;
  }

  predicate LineOf(cart: seq<CartLine>, q: I.ProductId) {
    && (forall i :: 0 <= i < |cart| && cart[i].product == q ==> QuantityIn(cart, q) == cart[i].quantity)
    && ((forall i :: 0 <= i < |cart| ==> cart[i].product != q) ==> QuantityIn(cart, q) == 0)
  }

  lemma {:induction false} OnlyLine(cart: seq<CartLine>, q: I.ProductId)
    requires forall i, j :: 0 <= i < j < |cart| ==> cart[i].product != cart[j].product
    ensures LineOf(cart, q)
  {
  }

  /** Carts that agree away from the line of `p` hold the same quantity of every other product. */
  lemma {:induction false} SamePlace(cart: seq<CartLine>, after: seq<CartLine>, p: I.ProductId)
    requires |cart| <= |after| <= |cart| + 1
    requires forall i :: 0 <= i < |cart| ==> after[i].product == cart[i].product && (cart[i].product != p ==> after[i] == cart[i])
    requires |after| > |cart| ==> after[|cart|].product == p
    requires forall q: I.ProductId :: LineOf(cart, q) && LineOf(after, q)
    ensures forall q: I.ProductId :: q != p ==> QuantityIn(after, q) == QuantityIn(cart, q)
  {
    forall q: I.ProductId | q != p ensures QuantityIn(after, q) == QuantityIn(cart, q) {
      assert LineOf(cart, q) && LineOf(after, q);
      match FindLine(cart, q)
      case Some(i) => assert after[i] == cart[i];
      case None =>
    }
  }

  lemma {:induction false} SetQuantityKeeps(cart: seq<CartLine>, p: I.ProductId, quantity: int, stock: Option<int>)
    requires WellFormedCart(cart) && SetQuantity(cart, p, quantity, stock).Ok?
    ensures var after := SetQuantity(cart, p, quantity, stock).value;
      && WellFormedCart(after) && QuantityIn(after, p) == quantity <= stock.value
      && forall q: I.ProductId :: q != p ==> QuantityIn(after, q) == QuantityIn(cart, q)
  {
    var after := SetQuantity(cart, p, quantity, stock).value;
    forall q: I.ProductId ensures LineOf(cart, q) && LineOf(after, q) {
      OnlyLine(cart, q);
      OnlyLine(after, q);
    }
    SamePlace(cart, after, p);
  }

  lemma {:induction false} RemoveKeeps(cart: seq<CartLine>, p: I.ProductId)
    requires WellFormedCart(cart) && Remove(cart, p).Ok?
    ensures var after := Remove(cart, p).value;
      && WellFormedCart(after) && QuantityIn(after, p) == 0
      && forall q: I.ProductId :: q != p ==> QuantityIn(after, q) == QuantityIn(cart, q)
  {
    var after := Remove(cart, p).value;
    RemoveLeavesLines(cart, p);
    forall q: I.ProductId | q != p ensures QuantityIn(after, q) == QuantityIn(cart, q) {
      RemoveKeepsOther(cart, p, q);
    }
    OnlyLine(after, p);
  }

  lemma {:induction false} RemoveLeavesLines(cart: seq<CartLine>, p: I.ProductId)
    requires WellFormedCart(cart) && Remove(cart, p).Ok?
    ensures WellFormedCart(Remove(cart, p).value)
    ensures forall k :: 0 <= k < |Remove(cart, p).value| ==> Remove(cart, p).value[k].product != p
  {
    var after, i := Remove(cart, p).value, FindLine(cart, p).value;
    assert forall k :: 0 <= k < |after| ==> after[k] == if k < i then cart[k] else cart[k + 1];
  }

  lemma {:induction false} RemoveKeepsOther(cart: seq<CartLine>, p: I.ProductId, q: I.ProductId)
    requires WellFormedCart(cart) && Remove(cart, p).Ok? && WellFormedCart(Remove(cart, p).value) && q != p
    ensures QuantityIn(Remove(cart, p).value, q) == QuantityIn(cart, q)
  {
    var after, i := Remove(cart, p).value, FindLine(cart, p).value;
    OnlyLine(cart, q);
    OnlyLine(after, q);
    match FindLine(cart, q)
    case Some(k) => assert after[if k < i then k else k - 1] == cart[k];
    case None => assert forall k :: 0 <= k < |after| ==> after[k] == if k < i then cart[k] else cart[k + 1];
  }

  // ----- The services -----

  class CartStore {
    var carts: map<nat, seq<CartLine>>

    function Lines(customer: nat): seq<CartLine>
      reads this
    {
      if customer in carts then carts[customer] else []
    }

    constructor ()
      ensures carts == map[]
    {
      carts := map[];
    }

    /** A lost race leaves the winner's row behind even when this addition is then refused. */
    method AddProduct(customer: nat, p: I.ProductId, quantity: int, stock: Option<int>, winner: Option<nat>, early: bool)
      returns (failure: Option<CartError>)
      modifies this
      ensures match Add(old(Lines(customer)), p, quantity, stock, winner, early)
        case Ok(after) => failure.None? && carts == old(carts)[customer := after]
        case Err(error) => failure == Some(error)
      ensures failure.Some? ==>
        carts == old(carts)
        || (winner.Some? && carts == old(carts)[customer := old(Lines(customer)) + [CartLine(p, winner.value)]])
    {
      if quantity <= 0 { return Some(BadQuantity); }
      if stock.None? { return Some(NotAvailable); }
      var item := FindLine(Lines(customer), p);
      if item.None? {
        if quantity > stock.value { return Some(NotEnoughStock); }
        if winner.None? {
          carts := carts[customer := Lines(customer) + [CartLine(p, quantity)]];
          return None;
        }
        item := Some(|Lines(customer)|);
        carts := carts[customer := Lines(customer) + [CartLine(p, winner.value)]];
        if early { return Some(DuplicateLine); }
      }
      var merged := Merge(Lines(customer), item.value, quantity, stock.value);
      if merged.Err? { return Some(merged.error); }
      carts := carts[customer := merged.value];
      return None;
    }

    method UpdateQuantity(customer: nat, p: I.ProductId, quantity: int, stock: Option<int>) returns (failure: Option<CartError>)
      modifies this
      ensures match SetQuantity(old(Lines(customer)), p, quantity, stock)
        case Ok(after) => failure.None? && carts == old(carts)[customer := after]
        case Err(error) => failure == Some(error) && carts == old(carts)
    {
      if quantity <= 0 { return Some(BadQuantity); }
      var item := FindLine(Lines(customer), p);
      if item.None? { return Some(NoSuchItem); }
      if stock.None? { return Some(NotAvailable); }
      if quantity > stock.value { return Some(NotEnoughStock); }
      var lines := Lines(customer);
      carts := carts[customer := lines[item.value := lines[item.value].(quantity := quantity)]];
      return None;
    }

    method RemoveItem(customer: nat, p: I.ProductId) returns (failure: Option<CartError>)
      modifies this
      ensures match Remove(old(Lines(customer)), p)
        case Ok(after) => failure.None? && carts == old(carts)[customer := after]
        case Err(error) => failure == Some(error) && carts == old(carts)
    {
      var item := FindLine(Lines(customer), p);
      if item.None? { return Some(NoSuchItem); }
      var lines := Lines(customer);
      carts := carts[customer := lines[..item.value] + lines[item.value + 1..]];
      return None;
    }
  }

  // ----- Preview -----

  /** The preview total of a line; None when the line is unavailable or exceeds the stock. */
  function PreviewTotal(db: Db, line: CartLine, today: int): Option<nat> {
    match LockedStock(db, line.product, today)
    case None => None
    case Some(stock) =>
      if line.quantity > stock then None
      else Some(LineTotal(db.catalogue.listings[line.product].finalPrice.value, line.quantity))
  }

  function PreviewAmount(db: Db, today: int): CartLine -> int {
    (line: CartLine) => match PreviewTotal(db, line, today) case Some(total) => total case None => 0
  }

  function StoreOf(db: Db): CartLine -> int {
    (line: CartLine) => if line.product < |db.stock.products| then db.stock.products[line.product].store else -1
  }

  /** A line gets a preview total exactly when checkout would sell it, and for the same amount. */
  lemma {:induction false} LinePreviewAgrees(db: Db, line: CartLine, today: int)
    requires line.quantity > 0
    ensures PreviewTotal(db, line, today).Some? <==> BuildLine(db, line, today).Ok?
    ensures BuildLine(db, line, today).Ok? ==>
      PreviewTotal(db, line, today) == Some(BuildLine(db, line, today).value.lineTotal)
  {
  }

  /**
   * The preview refines checkout: every line passes validation exactly when every line has a preview
   * total, and then the preview subtotal is the order's items subtotal.
   */
  lemma {:induction false} PreviewRefinesCheckout(db: Db, req: Checkout)
    requires WellFormedCart(CartOf(db, req.customer)) && CartOf(db, req.customer) != [] && req.fulfilmentOk
    ensures var cart := CartOf(db, req.customer);
      && (ValidatedLines(db, req).Ok? <==> forall i :: 0 <= i < |cart| ==> PreviewTotal(db, cart[i], req.today).Some?)
      && (ValidatedLines(db, req).Ok? ==>
            Subtotal(ValidatedLines(db, req).value) == Sum(cart, PreviewAmount(db, req.today)))
  {
    var cart := CartOf(db, req.customer);
    var sorted := SortBy(cart, ProductKey());
    SortByKeeps(cart, ProductKey());
    PermutedMembers(cart, sorted);
    PermutedMembers(sorted, cart);
    CartProductsDistinct(cart);
    RefusalNamesFirstLine(db, sorted, req.today);
    forall i | 0 <= i < |sorted|
      ensures PreviewTotal(db, sorted[i], req.today).Some? <==> BuildLine(db, sorted[i], req.today).Ok?
    {
      LinePreviewAgrees(db, sorted[i], req.today);
    }
    if ValidatedLines(db, req).Ok? {
      BuiltTotalsAgree(db, sorted, req.today);
      SumPermuted(sorted, cart, PreviewAmount(db, req.today));
    }
  }

  lemma {:induction false} BuiltTotalsAgree(db: Db, cart: seq<CartLine>, today: int)
    requires (forall i :: 0 <= i < |cart| ==> cart[i].quantity > 0) && BuildLines(db, cart, today).Ok?
    ensures Subtotal(BuildLines(db, cart, today).value) == Sum(cart, PreviewAmount(db, today))
  {
    var lines := BuildLines(db, cart, today).value;
    BuildLinesValidate(db, cart, today);
    forall i | 0 <= i < |cart| ensures PreviewAmount(db, today)(cart[i]) == LineTotalOf()(lines[i]) {
      assert Validates(db, cart[i], lines[i], today);
    }
    SumCongruent(lines, cart, LineTotalOf(), PreviewAmount(db, today));
  }

  function GroupAmount(db: Db, today: int): Group<CartLine> -> int {
    (g: Group<CartLine>) => Sum(g.rows, PreviewAmount(db, today))
  }

  lemma {:induction false} FlattenedAmount(groups: seq<Group<CartLine>>, db: Db, today: int)
    ensures Sum(groups, GroupAmount(db, today)) == Sum(Flatten(groups), PreviewAmount(db, today))
  {
    if groups != [] {
      var n := |groups| - 1;
      FlattenedAmount(groups[..n], db, today);
      SumAppend(Flatten(groups[..n]), groups[n].rows, PreviewAmount(db, today));
    }
  }

  /** The cart as the page shows it: one section for each store. */
  function StoreSections(db: Db, customer: nat): seq<Group<CartLine>> {
    GroupRuns(SortBy(CartOf(db, customer), StoreOf(db)), StoreOf(db))
  }

  /** The store sections hold every line of the cart once. */
  lemma {:induction false} SectionsCoverCart(db: Db, customer: nat, today: int)
    ensures Sum(StoreSections(db, customer), GroupAmount(db, today)) == Sum(CartOf(db, customer), PreviewAmount(db, today))
  {
    var ordered := SortBy(CartOf(db, customer), StoreOf(db));
    FlattenedAmount(StoreSections(db, customer), db, today);
    GroupRunsFlatten(ordered, StoreOf(db));
    SortByKeeps(CartOf(db, customer), StoreOf(db));
    SumPermuted(ordered, CartOf(db, customer), PreviewAmount(db, today));
  }

  /** The inner loop of the page: one section's subtotal, added to the running preview as it goes. */
  method AddSection(db: Db, rows: seq<CartLine>, today: int, before: int) returns (subtotal: int, preview: int)
    ensures subtotal == Sum(rows, PreviewAmount(db, today)) && preview == before + subtotal
  {
    ghost var amount := PreviewAmount(db, today);
    subtotal, preview := 0, before;
    var i := 0;
    while i < |rows|
      invariant i <= |rows| && subtotal == Sum(rows[..i], amount) && preview == before + subtotal
    {
      SumPrefix(rows, i, amount);
      var total := PreviewTotal(db, rows[i], today);
      if total.Some? {
        subtotal := subtotal + total.value;
        preview := preview + total.value;
      }
      i := i + 1;
    }
    SumPrefix(rows, i, amount);
  }

  /** The cart page: lines grouped by store with a subtotal each, and the preview subtotal of all. */
  method BuildCartView(db: Db, customer: nat, today: int) returns (subtotals: seq<int>, preview: int)
    ensures preview == Sum(CartOf(db, customer), PreviewAmount(db, today))
    ensures var groups := StoreSections(db, customer);
      && |subtotals| == |groups|
      && forall g :: 0 <= g < |groups| ==> subtotals[g] == GroupAmount(db, today)(groups[g])
  {
    var groups := StoreSections(db, customer);
    subtotals, preview := [], 0;
    var g := 0;
    while g < |groups|
      invariant g <= |groups| && |subtotals| == g
      invariant preview == Sum(groups[..g], GroupAmount(db, today))
      invariant forall h :: 0 <= h < g ==> subtotals[h] == GroupAmount(db, today)(groups[h])
    {
      var subtotal;
      subtotal, preview := AddSection(db, groups[g].rows, today, preview);
      SumPrefix(groups, g, GroupAmount(db, today));
      subtotals := subtotals + [subtotal];
      g := g + 1;
    }
    SumPrefix(groups, g, GroupAmount(db, today));
    SectionsCoverCart(db, customer, today);
  }
}
