/** The catalogue services against what was submitted: prices, edited fields, images and the status that follows. */
module ProductRules {
  import opened Wrappers
  import opened Shopfront
  import opened Products
  import opened ProductLaws
  import P = Pricing

  // ----- Prices -----

  /** The prices on the row are those of the store price and terms on the row, to the paisa. */
  predicate PricedBy(pricing: Pricing, storePrice: nat, terms: P.Terms) {
    && pricing.storePrice == storePrice && pricing.terms == terms
    && terms.margin.Some? && pricing.selling.Some? && pricing.final.Some?
    && P.Sells(Some(storePrice), terms, pricing.selling.value)
    && P.RoundsTo(P.RawSelling(storePrice, terms.marginType, terms.margin.value), 10000, pricing.selling.value)
    && -100000000 <= 100000000 * pricing.final.value - P.RawFinal(storePrice, terms) <= 100000000
    && P.RoundsTo(P.RawDiscounted(pricing.selling.value, terms.discountType, P.Amount(terms.discount)), 10000, pricing.final.value)
  }

  lemma {:induction false} CalculatedPrices(storePrice: nat, terms: P.Terms)
    requires P.Calculate(Some(storePrice), terms).Ok?
    ensures var prices := P.Calculate(Some(storePrice), terms).value;
      PricedBy(Pricing(storePrice, terms, Some(prices.selling), Some(prices.final)), storePrice, terms)
  {
    P.PricesAcceptedIff(Some(storePrice), terms);
    P.FinalWithinOnePaisa(storePrice, terms);
  }

  /** The terms as submitted, with no discount meaning a discount of nothing. */
  function Submitted(terms: P.Terms): P.Terms {
    P.Terms(terms.marginType, terms.margin, terms.discountType, Some(if terms.discount.Some? then terms.discount.value else 0))
  }

  /**
   * Admin pricing goes through if and only if the submitted terms give the product's store price a
   * selling and a final price. Then the row carries those terms, a selling price that is the exact one
   * to the paisa and a final price within one paisa of store price, margin and discount taken exactly.
   */
  lemma {:induction false} AdminPricingAsSubmitted(p: Product, terms: P.Terms)
    ensures ApplyAdminPricing(p, terms).Ok? <==> P.CanSell(Some(p.pricing.storePrice), Submitted(terms))
    ensures ApplyAdminPricing(p, terms).Ok? ==>
      PricedBy(ApplyAdminPricing(p, terms).value.pricing, p.pricing.storePrice, Submitted(terms))
  {
    P.PricesAcceptedIff(Some(p.pricing.storePrice), Submitted(terms));
    assert terms.(discount := Some(P.Amount(terms.discount))) == Submitted(terms);
    if ApplyAdminPricing(p, terms).Ok? {
      CalculatedPrices(p.pricing.storePrice, Submitted(terms));
    }
  }

  /** A hundred rupees, a margin of twenty percent and a discount of ten: 120.00 and 108.00. */
  lemma {:induction false} DiscountIsApplied(p: Product)
    requires p.pricing.storePrice == 10000
    ensures var priced := ApplyAdminPricing(p, P.Terms(P.PercentageMargin, Some(2000), P.PercentageDiscount, Some(1000)));
      priced.Ok? && priced.value.pricing.selling == Some(12000) && priced.value.pricing.final == Some(10800)
  {
    var terms := P.Terms(P.PercentageMargin, Some(2000), P.PercentageDiscount, Some(1000));
    assert P.Sells(Some(10000), Submitted(terms), 12000);
    AdminPricingAsSubmitted(p, terms);
  }

  // ----- Edits -----

  predicate Alters<T(==)>(submitted: Option<T>, current: T) {
    submitted.Some? && submitted.value != current
  }

  predicate Takes<T(==)>(after: T, submitted: Option<T>, current: T) {
    after == if submitted.Some? then submitted.value else current
  }

  /** A store user changes price, reviewed fields or tags of an approved product. */
  predicate SentToReview(p: Product, edit: Edit, storeUser: bool) {
    && storeUser && p.status == ProductStatus.Approved
    && (Alters(edit.storePrice, p.pricing.storePrice) || Alters(edit.details, p.details) || Alters(edit.tags, p.tags))
  }

  predicate HasMargin(terms: P.Terms) {
    terms.marginType != P.NoMargin && terms.margin.Some?
  }

  /**
   * An edit stores what was submitted and keeps the rest. Sent to review, it keeps the approved selling
   * and final price; otherwise the prices are those of the new store price and the stored terms, or
   * none while no margin has been set.
   */
  lemma {:induction false} EditAsSubmitted(p: Product, edit: Edit, storeUser: bool)
    requires UpdateProduct(p, edit, storeUser).Ok?
    ensures var after := UpdateProduct(p, edit, storeUser).value;
      && Takes(after.details, edit.details, p.details) && Takes(after.tags, edit.tags, p.tags)
      && Takes(after.minor, edit.minor, p.minor) && Takes(after.pricing.storePrice, edit.storePrice, p.pricing.storePrice)
      && after.pricing.terms == p.pricing.terms && after.images == p.images && after.autoPublish == p.autoPublish
      && (if SentToReview(p, edit, storeUser)
          then after.status == ProductStatus.Pending
               && after.pricing.selling == p.pricing.selling && after.pricing.final == p.pricing.final
          else after.status == p.status && after.statusHistory == p.statusHistory
               && (if HasMargin(p.pricing.terms) then PricedBy(after.pricing, after.pricing.storePrice, p.pricing.terms)
                   else after.pricing.selling.None? && after.pricing.final.None?))
  {
    var price := Chosen(edit.storePrice, p.pricing.storePrice);
    if !SentToReview(p, edit, storeUser) && HasMargin(p.pricing.terms) {
      CalculatedPrices(price, p.pricing.terms);
    }
  }

  /** It is refused if and only if a field is invalid, or the prices it calls for are. */
  lemma {:induction false} EditAcceptedIff(p: Product, edit: Edit, storeUser: bool)
    ensures UpdateProduct(p, edit, storeUser).Ok? <==>
      && edit.valid
      && (|| SentToReview(p, edit, storeUser) || !HasMargin(p.pricing.terms)
          || P.CanSell(Some(if edit.storePrice.Some? then edit.storePrice.value else p.pricing.storePrice), p.pricing.terms))
  {
    P.PricesAcceptedIff(Some(Chosen(edit.storePrice, p.pricing.storePrice)), p.pricing.terms);
  }

  // ----- Image batches -----

  predicate FilesValid(batch: Batch) {
    && (forall i :: 0 <= i < |batch.update| && batch.update[i].1.file.Some? ==> batch.update[i].1.file.value.valid)
    && (forall j :: 0 <= j < |batch.add| ==> batch.add[j].file.valid)
  }

  lemma {:induction false} ChangesAcceptedIff(w: Work, update: seq<(nat, Change)>)
    ensures ApplyChanges(w, update).Ok? <==>
      forall i :: 0 <= i < |update| && update[i].1.file.Some? ==> update[i].1.file.value.valid
    decreases |update|
  {
    if update != [] {
      assert forall i :: 0 < i < |update| ==> update[i] == update[1..][i - 1];
      if ApplyChange(w, update[0].0, update[0].1).Ok? {
        ChangesAcceptedIff(ApplyChange(w, update[0].0, update[0].1).value, update[1..]);
      }
    }
  }

  lemma {:induction false} AddsAcceptedIff(w: Work, add: seq<NewImage>)
    ensures AddImages(w, add).Ok? <==> forall j :: 0 <= j < |add| ==> add[j].file.valid
    decreases |add|
  {
    if add != [] {
      assert forall j :: 0 < j < |add| ==> add[j] == add[1..][j - 1];
      if AddImage(w, add[0]).Ok? {
        AddsAcceptedIff(AddImage(w, add[0]).value, add[1..]);
      }
    }
  }

  /** What the batch deletes. */
  function Gone(p: Product, batch: Batch): set<nat> {
    if batch.deleteAll then Pks(p.images) else batch.delete
  }

  /**
   * A batch goes through if and only if it names images the product has, does not both update and
   * delete one, leaves at most five, leaves one if it deletes from an approved product, and all its
   * files are valid.
   */
  lemma {:induction false} BatchAcceptedIff(p: Product, batch: Batch, next: nat, actor: Actor)
    ensures MutateImages(p, batch, next, actor).Ok? <==>
      && Gone(p, batch) <= Pks(p.images)
      && (forall i :: 0 <= i < |batch.update| ==> batch.update[i].0 in Pks(p.images) && batch.update[i].0 !in Gone(p, batch))
      && |p.images| + |batch.add| - |Gone(p, batch)| <= 5
      && (Gone(p, batch) != {} && p.status == ProductStatus.Approved ==> |p.images| + |batch.add| - |Gone(p, batch)| >= 1)
      && FilesValid(batch)
  {
    var start := StartWork(p, Deletions(p, batch), next);
    assert forall i :: 0 <= i < |batch.update| ==> batch.update[i].0 in UpdatedPks(batch.update);
    ChangesAcceptedIff(start, batch.update);
    if ApplyChanges(start, batch.update).Ok? {
      AddsAcceptedIff(ApplyChanges(start, batch.update).value, batch.add);
    }
  }

  /** What becomes of one kept image: each change of it stores what it submits, and nothing else changes. */
  predicate Stored(was: Image, now: Image, update: seq<(nat, Change)>) {
    && now.pk == was.pk
    && ((forall i :: 0 <= i < |update| ==> update[i].0 != was.pk) ==>
          now.file == was.file && now.alt == was.alt && now.sortOrder == was.sortOrder)
    && (forall i :: 0 <= i < |update| && update[i].0 == was.pk ==>
          && Takes(now.file, update[i].1.file, was.file) && Takes(now.alt, update[i].1.alt, was.alt)
          && Takes(now.sortOrder, update[i].1.sortOrder, was.sortOrder))
  }

  predicate EachOnce(update: seq<(nat, Change)>) {
    forall i, j :: 0 <= i < j < |update| ==> update[i].0 != update[j].0
  }

  lemma {:induction false} ChangesStored(w: Work, update: seq<(nat, Change)>)
    requires EachOnce(update) && ApplyChanges(w, update).Ok?
    ensures var done := ApplyChanges(w, update).value;
      |done.images| == |w.images| && forall k :: 0 <= k < |w.images| ==> Stored(w.images[k], done.images[k], update)
    decreases |update|
  {
    if update != [] {
      var rest, first := update[1..], ApplyChange(w, update[0].0, update[0].1).value;
      assert forall i, j :: 0 <= i < j < |rest| ==> rest[i] == update[i + 1] && rest[j] == update[j + 1];
      ChangesStored(first, rest);
      var done := ApplyChanges(w, update).value;
      forall k | 0 <= k < |w.images| ensures Stored(w.images[k], done.images[k], update) {
        StoredStep(w.images[k], first.images[k], done.images[k], update);
      }
    }
  }

  lemma {:induction false} StoredStep(was: Image, middle: Image, now: Image, update: seq<(nat, Change)>)
    requires update != [] && EachOnce(update) && Stored(middle, now, update[1..])
    requires middle == if update[0].0 == was.pk then ChangedImage(was, update[0].1) else was
    ensures Stored(was, now, update)
  {
    var rest := update[1..];
    assert forall i :: 0 < i < |update| ==> update[i] == rest[i - 1];
    assert forall i :: 0 <= i < |rest| ==> rest[i] == update[i + 1];
    assert update[0].0 == was.pk ==> forall i :: 0 < i < |update| ==> update[i].0 != was.pk;
  }

  predicate AddedAs(image: Image, pk: nat, submitted: NewImage) {
    image.pk == pk && image.file == submitted.file && image.alt == submitted.alt && image.sortOrder == submitted.sortOrder
  }

  lemma {:induction false} AddsStored(w: Work, add: seq<NewImage>)
    requires AddImages(w, add).Ok?
    ensures var done := AddImages(w, add).value;
      && |done.images| == |w.images| + |add| && w.images <= done.images && done.next == w.next + |add|
      && forall j :: 0 <= j < |add| ==> AddedAs(done.images[|w.images| + j], w.next + j, add[j])
    decreases |add|
  {
    if add != [] {
      var first := AddImage(w, add[0]).value;
      AddsStored(first, add[1..]);
      var done := AddImages(w, add).value;
      assert done.images[|w.images|] == first.images[|w.images|];
      forall j | 0 < j < |add| ensures AddedAs(done.images[|w.images| + j], w.next + j, add[j]) {
        assert AddedAs(done.images[|first.images| + (j - 1)], first.next + (j - 1), add[1..][j - 1]);
      }
    }
  }

  /** The kept rows are the old ones in their order. */
  lemma {:induction false} KeptRow(images: seq<Image>, deletions: set<nat>, k: nat) returns (i: nat)
    requires k < |Kept(images, deletions)|
    ensures i < |images| && images[i].pk !in deletions && Kept(images, deletions)[k] == images[i].(primary := false)
  {
    var n := |images| - 1;
    if k < |Kept(images[..n], deletions)| {
      i := KeptRow(images[..n], deletions, k);
    } else {
      i := n;
    }
  }

  lemma {:induction false} KeptHas(images: seq<Image>, deletions: set<nat>, i: nat) returns (k: nat)
    requires i < |images| && images[i].pk !in deletions
    ensures k < |Kept(images, deletions)| && Kept(images, deletions)[k] == images[i].(primary := false)
  {
    var n := |images| - 1;
    if i < n {
      k := KeptHas(images[..n], deletions, i);
    } else {
      k := |Kept(images[..n], deletions)|;
    }
  }

  predicate KeptAs(was: Image, images: seq<Image>, update: seq<(nat, Change)>) {
    exists k :: 0 <= k < |images| && Stored(was, images[k], update)
  }

  predicate Comes(image: Image, olds: seq<Image>, gone: set<nat>, update: seq<(nat, Change)>) {
    exists i :: 0 <= i < |olds| && olds[i].pk !in gone && Stored(olds[i], image, update)
  }

  /** The rows behind a batch: what was kept, with its changes, and then what was added, each once and as submitted. */
  predicate RowsLeft(olds: seq<Image>, images: seq<Image>, gone: set<nat>, batch: Batch, next: nat) {
    && (forall i :: 0 <= i < |olds| && olds[i].pk !in gone ==> KeptAs(olds[i], images, batch.update))
    && |images| >= |batch.add|
    && (forall k :: 0 <= k < |images| - |batch.add| ==> Comes(images[k], olds, gone, batch.update))
    && (forall j :: 0 <= j < |batch.add| ==> AddedAs(images[|images| - |batch.add| + j], next + j, batch.add[j]))
  }

  lemma {:induction false} StoredUnflagged(was: Image, now: Image, flag: bool, update: seq<(nat, Change)>)
    requires Stored(was.(primary := false), now, update)
    ensures Stored(was, now.(primary := flag), update)
  {
  }

  lemma {:induction false} WorkLeft(p: Product, batch: Batch, next: nat)
    requires EachOnce(batch.update) && Applied(p, batch, next).Ok?
    ensures var w := Applied(p, batch, next).value;
      RowsLeft(p.images, Flagged(w.images, Elected(w)), Gone(p, batch), batch, next)
  {
    var gone := Gone(p, batch);
    var start := StartWork(p, gone, next);
    var changed := ApplyChanges(start, batch.update).value;
    var w := Applied(p, batch, next).value;
    var images := Flagged(w.images, Elected(w));
    ChangesStored(start, batch.update);
    ChangesKeepNext(start, batch.update);
    AddsStored(changed, batch.add);
    forall i | 0 <= i < |p.images| && p.images[i].pk !in gone ensures KeptAs(p.images[i], images, batch.update) {
      var k := KeptHas(p.images, gone, i);
      StoredUnflagged(p.images[i], changed.images[k], images[k].primary, batch.update);
    }
    forall k | 0 <= k < |images| - |batch.add| ensures Comes(images[k], p.images, gone, batch.update) {
      var i := KeptRow(p.images, gone, k);
      StoredUnflagged(p.images[i], changed.images[k], images[k].primary, batch.update);
    }
    forall j | 0 <= j < |batch.add| ensures AddedAs(images[|images| - |batch.add| + j], next + j, batch.add[j]) {
      assert AddedAs(w.images[|changed.images| + j], changed.next + j, batch.add[j]);
    }
  }

  lemma {:induction false} ChangesKeepNext(w: Work, update: seq<(nat, Change)>)
    requires ApplyChanges(w, update).Ok?
    ensures ApplyChanges(w, update).value.next == w.next
    decreases |update|
  {
    if update != [] {
      ChangesKeepNext(ApplyChange(w, update[0].0, update[0].1).value, update[1..]);
    }
  }

  /** What an accepted batch leaves of the images. */
  lemma {:induction false} ImagesAsSubmitted(p: Product, batch: Batch, next: nat, actor: Actor)
    requires EachOnce(batch.update) && MutateImages(p, batch, next, actor).Ok?
    ensures RowsLeft(p.images, MutateImages(p, batch, next, actor).value.product.images, Gone(p, batch), batch, next)
  {
    if batch.add == [] && batch.update == [] && Gone(p, batch) == {} {
      forall i | 0 <= i < |p.images| ensures Stored(p.images[i], p.images[i], batch.update) {
      }
    } else {
      WorkLeft(p, batch, next);
    }
  }
}
