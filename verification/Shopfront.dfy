/** Which products may be sold: the public listing rule and the check repeated at checkout. */
module Shopfront {
  import opened Wrappers
  import opened Rounding
  import I = Inventory

  datatype ProductStatus = Draft | Pending | Approved | Rejected | Inactive

  datatype StoreStatus = Pending | Active | Suspended | Rejected

  datatype StoreRow = StoreRow(status: StoreStatus, active: bool)

  /** The catalogue columns of a product row; its store and stock are in the inventory. */
  datatype Listing = Listing(
    status: ProductStatus, active: bool, category: nat, expiry: Option<int>, finalPrice: Option<nat>)

  datatype Catalogue = Catalogue(listings: seq<Listing>, stores: seq<StoreRow>, categories: seq<bool>)

  datatype Refusal =
    | NotApproved | InactiveProduct | InactiveStore | InactiveCategory | ExpiredProduct
    | NoValidPrice | QuantityNotPositive | OnlyRemaining | NoLongerAvailable

  datatype CartLine = CartLine(product: I.ProductId, quantity: nat)

  /** The database keeps one positive line per product in a cart. */
  predicate WellFormedCart(cart: seq<CartLine>) {
    && (forall i :: 0 <= i < |cart| ==> cart[i].quantity > 0)
    && (forall i, j :: 0 <= i < j < |cart| ==> cart[i].product != cart[j].product)
  }

  predicate Expired(listing: Listing, today: int) {
    listing.expiry.Some? && listing.expiry.value < today
  }

  predicate StoreSells(c: Catalogue, store: I.StoreId) {
    store < |c.stores| && c.stores[store].status == StoreStatus.Active && c.stores[store].active
  }

  predicate CategorySells(c: Catalogue, category: nat) {
    category < |c.categories| && c.categories[category]
  }

  /** The guard checkout applies to a locked product, in the order it raises. */
  function CheckSellable(c: Catalogue, listing: Listing, row: I.ProductRow, today: int, quantity: nat): Option<Refusal> {
    if listing.status != ProductStatus.Approved then Some(NotApproved)
    else if !listing.active then Some(InactiveProduct)
    else if !StoreSells(c, row.store) then Some(InactiveStore)
    else if !CategorySells(c, listing.category) then Some(InactiveCategory)
    else if Expired(listing, today) then Some(ExpiredProduct)
    else if listing.finalPrice.None? || listing.finalPrice.value == 0 then Some(NoValidPrice)
    else if quantity == 0 then Some(QuantityNotPositive)
    else if quantity > row.stock then Some(OnlyRemaining)
    else None
  }

  /** The queryset filter behind the public catalogue and the cart's availability lookup. */
  predicate PubliclyAvailable(c: Catalogue, listing: Listing, row: I.ProductRow, today: int) {
    && listing.status == ProductStatus.Approved
    && listing.active
    && listing.finalPrice.Some? && listing.finalPrice.value > 0
    && StoreSells(c, row.store)
    && CategorySells(c, listing.category)
    && row.stock > 0
    && !Expired(listing, today)
  }

  /** Price times quantity in paise, halves to even; quantities carry three decimals. */
  function LineTotal(price: nat, quantity: nat): nat {
    HalfEven(price * quantity, 1000)
  }
}
