/** The catalogue services as they run: rows updated in loops, put back when a step raises. */
module ProductStore {
  import opened Wrappers
  import opened Shopfront
  import opened Products
  import P = Pricing

  class ProductStore {
    var products: seq<Product>
    var nextImage: nat

    function Current(): Shelf
      reads this
    {
      Shelf(products, nextImage)
    }

    constructor (shelf: Shelf)
      ensures Current() == shelf
    {
      products, nextImage := shelf.products, shelf.next;
    }

    /** Writes one checked batch: clear flags, delete, update, add, elect, then settle the status. */
    method WriteImages(p: nat, batch: Batch, actor: Actor) returns (failure: Option<Error>)
      requires p < |products|
      modifies this
      ensures match MutateImages(old(products)[p], batch, old(nextImage), actor)
        case Ok(done) => failure.None? && Current() == Shelf(old(products)[p := done.product], done.next)
        case Err(error) => failure == Some(error) && Current() == old(Current())
    {
      var row := products[p];
      var refused := CheckBatch(row, batch);
      if refused.Some? { return refused; }
      var deletions := Deletions(row, batch);
      if batch.add == [] && batch.update == [] && deletions == {} { return None; }

      var work := StartWork(row, deletions, nextImage);
      ghost var start := work;
      var i, binary := 0, batch.add != [] || deletions != {};
      while i < |batch.update|
        invariant i <= |batch.update| && Current() == old(Current())
        invariant ApplyChanges(work, batch.update[i..]) == ApplyChanges(start, batch.update)
        invariant binary <==> batch.add != [] || deletions != {} || exists k :: 0 <= k < i && batch.update[k].1.file.Some?
      {
        assert batch.update[i..][0] == batch.update[i] && batch.update[i..][1..] == batch.update[i + 1..];
        var changed := ApplyChange(work, batch.update[i].0, batch.update[i].1);
        if changed.Err? { return Some(changed.error); }
        work := changed.value;
        binary := binary || batch.update[i].1.file.Some?;
        i := i + 1;
      }
      ghost var changedWork := work;
      var j := 0;
      while j < |batch.add|
        invariant j <= |batch.add| && Current() == old(Current())
        invariant AddImages(work, batch.add[j..]) == AddImages(changedWork, batch.add)
      {
        assert batch.add[j..][0] == batch.add[j] && batch.add[j..][1..] == batch.add[j + 1..];
        var added := AddImage(work, batch.add[j]);
        if added.Err? { return Some(added.error); }
        work := added.value;
        j := j + 1;
      }
      var done := row.(images := Flagged(work.images, Elected(work)));
      products := products[p := Resettled(done, binary, batch.add != [], actor)];
      nextImage := work.next;
      return None;
    }

    method MutateProductImages(batches: map<nat, Batch>, actor: Actor) returns (failure: Option<Error>)
      modifies this
      ensures match MutateAll(old(Current()), batches, actor)
        case Ok(shelf) => failure.None? && Current() == shelf
        case Err(error) => failure == Some(error) && Current() == old(Current())
    {
      if exists p :: p in batches && p >= |products| { return Some(ImageNotFound); }
      var p := 0;
      while p < |products|
        invariant p <= |products| && Current() == old(Current())
        invariant CheckAll(products, batches, p) == CheckAll(products, batches, 0)
      {
        if p in batches {
          var refused := CheckBatch(products[p], batches[p]);
          if refused.Some? { return refused; }
        }
        p := p + 1;
      }
      var savepoint := Current();
      p := 0;
      while p < |products|
        invariant p <= |products|
        invariant MutateFrom(Current(), batches, p, actor) == MutateFrom(savepoint, batches, 0, actor)
      {
        if p in batches {
          failure := WriteImages(p, batches[p], actor);
          if failure.Some? {
            products, nextImage := savepoint.products, savepoint.next;
            return;
          }
        }
        p := p + 1;
      }
      return None;
    }

    /** Replaces product `p` by a service's result, or reports why it raised. */
    method Commit(p: nat, r: Result<Product, Error>) returns (failure: Option<Error>)
      requires p < |products|
      modifies this`products
      ensures match r
        case Ok(after) => failure.None? && products == old(products)[p := after]
        case Err(error) => failure == Some(error) && products == old(products)
    {
      if r.Err? { return Some(r.error); }
      products := products[p := r.value];
      return None;
    }

    method RecordProductStatusChange(p: nat, target: ProductStatus, hasReason: bool, actor: Actor) returns (failure: Option<Error>)
      requires p < |products|
      modifies this`products
      ensures match ChangeStatus(old(products)[p], target, hasReason, actor)
        case Ok(after) => failure.None? && products == old(products)[p := after]
        case Err(error) => failure == Some(error) && products == old(products)
    {
      var row := products[p];
      if row.status == target { return Some(SameStatus); }
      if !AllowedTransition(row.status, target) { return Some(TransitionRefused); }
      if actor.storeUser && !StoreUserTransition(row.status, target) { return Some(StoreUserRefused); }
      if target == ProductStatus.Rejected && !hasReason { return Some(ReasonMissing); }
      if target == ProductStatus.Approved && !Approvable(row, actor) { return Some(NotApprovable); }
      failure := Commit(p, Ok(WithStatus(row, target)));
    }

    method UpdateProductRow(p: nat, edit: Edit, storeUser: bool) returns (failure: Option<Error>)
      requires p < |products|
      modifies this`products
      ensures match UpdateProduct(old(products)[p], edit, storeUser)
        case Ok(after) => failure.None? && products == old(products)[p := after]
        case Err(error) => failure == Some(error) && products == old(products)
    {
      var row := products[p];
      var review := storeUser && row.status == ProductStatus.Approved && ChangesReviewed(row, edit);
      var price := Chosen(edit.storePrice, row.pricing.storePrice);
      var pricing := row.pricing.(storePrice := price);
      if !review {
        var repriced := Repriced(price, row.pricing.terms);
        if repriced.Err? { return Some(repriced.error); }
        pricing := repriced.value;
      }
      if !edit.valid { return Some(InvalidFields); }
      var edited := Edited(row, edit);
      if review {
        edited := WithStatus(edited, ProductStatus.Pending);
      }
      failure := Commit(p, Ok(WithPricing(edited, pricing)));
    }

    method ApplyAdminPricingRow(p: nat, terms: P.Terms) returns (failure: Option<Error>)
      requires p < |products|
      modifies this`products
      ensures match ApplyAdminPricing(old(products)[p], terms)
        case Ok(after) => failure.None? && products == old(products)[p := after]
        case Err(error) => failure == Some(error) && products == old(products)
    {
      var row := products[p];
      var stored := terms.(discount := Some(P.Amount(terms.discount)));
      var prices := P.Calculate(Some(row.pricing.storePrice), stored);
      if prices.Err? { return Some(PricingRefused(prices.error)); }
      var previous := row.pricing;
      row := row.(pricing := Pricing(previous.storePrice, stored, Some(prices.value.selling), Some(prices.value.final)));
      if row.pricing != previous {
        row := row.(priceHistory := row.priceHistory + [row.pricing]);
      }
      products := products[p := row];
      return None;
    }

    method CreateProductRow(status: ProductStatus, storePrice: nat, details: nat, autoPublish: bool,
                            files: seq<File>, actor: Actor) returns (failure: Option<Error>)
      modifies this
      ensures match CreateProduct(status, storePrice, details, autoPublish, files, old(nextImage), actor)
        case Ok(made) => failure.None? && Current() == Shelf(old(products) + [made.product], made.next)
        case Err(error) => failure == Some(error) && Current() == old(Current())
    {
      var savepoint := products;
      products := products + [NewProduct(status, storePrice, details, autoPublish)];
      failure := WriteImages(|savepoint|, Batch(Indexed(files), [], {}, false), actor);
      if failure.Some? {
        products := savepoint;
      }
    }
  }
}
