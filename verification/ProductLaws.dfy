/** What every product keeps: five images at most, one primary, a sound listing and replayable histories. */
module ProductLaws {
  import opened Wrappers
  import opened Shopfront
  import opened Products
  import P = Pricing

  // ----- Images -----

  predicate DistinctPks(images: seq<Image>) {
    forall i, j :: 0 <= i < j < |images| ==> images[i].pk != images[j].pk
  }

  /** Exactly one primary when there is any image at all. */
  predicate OnePrimary(images: seq<Image>) {
    images != [] ==>
      exists i :: 0 <= i < |images| && images[i].primary && forall j :: 0 <= j < |images| && images[j].primary ==> j == i
  }

  predicate ImagesSound(p: Product, next: nat) {
    && |p.images| <= MAX_IMAGES
    && DistinctPks(p.images) && OnePrimary(p.images)
    && (forall i :: 0 <= i < |p.images| ==> p.images[i].pk < next)
  }

  predicate WorkSound(w: Work) {
    && DistinctPks(w.images)
    && (forall i :: 0 <= i < |w.images| ==> w.images[i].pk < w.next && !w.images[i].primary)
    && (w.primary.Some? ==> w.primary.value in Pks(w.images))
  }

  lemma {:induction false} KeptPks(images: seq<Image>, deletions: set<nat>)
    ensures Pks(Kept(images, deletions)) == Pks(images) - deletions
  {
    if images == [] {
      assert Pks(images) == {};
    } else {
      var n := |images| - 1;
      KeptPks(images[..n], deletions);
      PksPush(images[..n], images[n]);
      assert images == images[..n] + [images[n]];
      if images[n].pk !in deletions {
        PksPush(Kept(images[..n], deletions), images[n].(primary := false));
      } else {
        assert Kept(images, deletions) == Kept(images[..n], deletions);
      }
    }
  }

  lemma {:induction false} OverlapPush(a: set<nat>, b: set<nat>, x: nat)
    requires x !in a
    ensures |(a + {x}) * b| == |a * b| + if x in b then 1 else 0
  {
    if x in b {
      assert (a + {x}) * b == a * b + {x};
    } else {
      assert (a + {x}) * b == a * b;
    }
  }

  /** Deleting removes exactly as many rows as keys it was given. */
  lemma {:induction false} KeptCount(images: seq<Image>, deletions: set<nat>)
    requires DistinctPks(images)
    ensures |Kept(images, deletions)| == |images| - |Pks(images) * deletions|
  {
    if images != [] {
      var n := |images| - 1;
      var front, last := images[..n], images[n];
      KeptCount(front, deletions);
      PksPush(front, last);
      assert images == front + [last];
      OverlapPush(Pks(front), deletions, last.pk);
    }
  }

  lemma {:induction false} KeptSound(images: seq<Image>, deletions: set<nat>, next: nat)
    requires DistinctPks(images) && forall i :: 0 <= i < |images| ==> images[i].pk < next
    ensures WorkSound(Work(Kept(images, deletions), None, next))
  {
    if images != [] {
      var n := |images| - 1;
      KeptSound(images[..n], deletions, next);
      KeptPks(images[..n], deletions);
      assert images[n].pk !in Pks(images[..n]);
      if images[n].pk !in deletions {
        DistinctPush(Kept(images[..n], deletions), images[n].(primary := false));
      }
    }
  }

  lemma {:induction false} PksPush(images: seq<Image>, image: Image)
    ensures Pks(images + [image]) == Pks(images) + {image.pk}
  {
    var after := images + [image];
    forall pk ensures pk in Pks(after) <==> pk in Pks(images) + {image.pk} {
      if pk in Pks(images) {
        var i :| 0 <= i < |images| && images[i].pk == pk;
        assert after[i].pk == pk;
      }
      if pk == image.pk {
        assert after[|images|].pk == pk;
      }
    }
  }

  lemma {:induction false} DistinctPush(images: seq<Image>, image: Image)
    requires DistinctPks(images) && image.pk !in Pks(images)
    ensures DistinctPks(images + [image])
  {
  }

  lemma {:induction false} OldPrimaryKept(images: seq<Image>, deletions: set<nat>)
    ensures OldPrimary(images).Some? ==> OldPrimary(images).value in Pks(images)
  {
  }

  /** Updating rows keeps their number, keys and order. */
  lemma {:induction false} ChangesKeepRows(w: Work, update: seq<(nat, Change)>)
    requires WorkSound(w) && UpdatedPks(update) <= Pks(w.images) && ApplyChanges(w, update).Ok?
    ensures var done := ApplyChanges(w, update).value;
      WorkSound(done) && |done.images| == |w.images| && done.next == w.next && Pks(done.images) == Pks(w.images)
    decreases |update|
  {
    if update != [] {
      var pk := update[0].0;
      assert pk in UpdatedPks(update);
      var next := ApplyChange(w, pk, update[0].1).value;
      SamePks(w.images, next.images);
      assert UpdatedPks(update[1..]) <= UpdatedPks(update) by {
        forall k | k in UpdatedPks(update[1..]) ensures k in UpdatedPks(update) {
          var i :| 0 <= i < |update[1..]| && update[1..][i].0 == k;
          assert update[i + 1].0 == k;
        }
      }
      ChangesKeepRows(next, update[1..]);
    }
  }

  lemma {:induction false} SamePks(before: seq<Image>, after: seq<Image>)
    requires |before| == |after| && forall i :: 0 <= i < |before| ==> before[i].pk == after[i].pk
    ensures Pks(before) == Pks(after)
  {
    forall pk ensures pk in Pks(before) <==> pk in Pks(after) {
      if pk in Pks(before) {
        var i :| 0 <= i < |before| && before[i].pk == pk;
        assert after[i].pk == pk;
      }
      if pk in Pks(after) {
        var i :| 0 <= i < |after| && after[i].pk == pk;
        assert before[i].pk == pk;
      }
    }
  }

  lemma {:induction false} AddsKeepWork(w: Work, add: seq<NewImage>)
    requires WorkSound(w) && AddImages(w, add).Ok?
    ensures var done := AddImages(w, add).value;
      WorkSound(done) && |done.images| == |w.images| + |add| && done.next == w.next + |add|
    decreases |add|
  {
    if add != [] {
      var next := AddImage(w, add[0]).value;
      PksPush(w.images, next.images[|w.images|]);
      AddsKeepWork(next, add[1..]);
    }
  }

  /** The election flags exactly one image, whenever there is one. */
  lemma {:induction false} ElectionFlagsOne(w: Work)
    requires WorkSound(w)
    ensures OnePrimary(Flagged(w.images, Elected(w)))
  {
    var flagged := Flagged(w.images, Elected(w));
    if w.images != [] {
      var pk := Elected(w).value;
      assert pk in Pks(w.images);
      var i :| 0 <= i < |w.images| && w.images[i].pk == pk;
      assert flagged[i].primary;
      forall j | 0 <= j < |flagged| && flagged[j].primary ensures j == i {
        assert w.images[j].pk == pk;
      }
    }
  }

  function Applied(p: Product, batch: Batch, next: nat): Result<Work, Error> {
    match ApplyChanges(StartWork(p, Deletions(p, batch), next), batch.update)
    case Err(error) => Err(error)
    case Ok(changed) => AddImages(changed, batch.add)
  }

  lemma {:induction false} AppliedSound(p: Product, batch: Batch, next: nat)
    requires ImagesSound(p, next) && CheckBatch(p, batch).None? && Applied(p, batch, next).Ok?
    ensures var w := Applied(p, batch, next).value;
      && WorkSound(w) && w.next >= next
      && |w.images| == |p.images| + |batch.add| - |Deletions(p, batch)|
  {
    var deletions := Deletions(p, batch);
    KeptSound(p.images, deletions, next);
    KeptCount(p.images, deletions);
    KeptPks(p.images, deletions);
    assert Pks(p.images) * deletions == deletions;
    OldPrimaryKept(p.images, deletions);
    var start := StartWork(p, deletions, next);
    ChangesKeepRows(start, batch.update);
    AddsKeepWork(ApplyChanges(start, batch.update).value, batch.add);
  }

  // ----- The listing and its histories -----

  /** An approved product can be shown and sold: it has an image and a positive, complete price. */
  predicate ListingSound(p: Product) {
    p.status == ProductStatus.Approved ==> p.images != [] && CompletePricing(p.pricing) && p.pricing.final.value > 0
  }

  /** The status history runs from creation along allowed transitions to the current status. */
  predicate StatusReplays(history: seq<StatusStep>, status: ProductStatus) {
    && history != [] && history[0].from == None && history[|history| - 1].to == status
    && forall i :: 1 <= i < |history| ==>
         history[i].from == Some(history[i - 1].to) && AllowedTransition(history[i - 1].to, history[i].to)
  }

  /** The newest snapshot is the current pricing and no snapshot repeats the one before. */
  predicate PricesReplay(history: seq<Pricing>, pricing: Pricing) {
    && history != [] && history[|history| - 1] == pricing
    && forall i :: 1 <= i < |history| ==> history[i] != history[i - 1]
  }

  predicate ProductSound(p: Product, next: nat) {
    ImagesSound(p, next) && ListingSound(p)
    && StatusReplays(p.statusHistory, p.status) && PricesReplay(p.priceHistory, p.pricing)
  }

  lemma {:induction false} StatusKeeps(p: Product, target: ProductStatus)
    requires StatusReplays(p.statusHistory, p.status) && AllowedTransition(p.status, target)
    ensures StatusReplays(WithStatus(p, target).statusHistory, target)
  {
  }

  lemma {:induction false} PricingKeeps(p: Product, pricing: Pricing)
    requires PricesReplay(p.priceHistory, p.pricing)
    ensures PricesReplay(WithPricing(p, pricing).priceHistory, pricing) && WithPricing(p, pricing).pricing == pricing
  {
  }

  lemma {:induction false} ChangeStatusKeeps(p: Product, target: ProductStatus, hasReason: bool, actor: Actor, next: nat)
    requires ProductSound(p, next) && ChangeStatus(p, target, hasReason, actor).Ok?
    ensures var after := ChangeStatus(p, target, hasReason, actor).value;
      && ProductSound(after, next)
      && after == p.(status := target, statusHistory := p.statusHistory + [StatusStep(Some(p.status), target)])
  {
    StatusKeeps(p, target);
  }

  /** The moves the status table lists. */
  predicate Listed(current: ProductStatus, target: ProductStatus) {
    (current, target) in {
      (ProductStatus.Draft, ProductStatus.Pending),
      (ProductStatus.Pending, ProductStatus.Approved), (ProductStatus.Pending, ProductStatus.Rejected),
      (ProductStatus.Rejected, ProductStatus.Pending), (ProductStatus.Rejected, ProductStatus.Draft),
      (ProductStatus.Approved, ProductStatus.Inactive), (ProductStatus.Approved, ProductStatus.Pending),
      (ProductStatus.Inactive, ProductStatus.Approved), (ProductStatus.Inactive, ProductStatus.Pending)}
  }

  /**
   * A status change goes through if and only if the table lists it; a store user only sends to review
   * or takes a rejected product back to draft; a rejection has its reason; and an approval has an
   * image, complete positive prices and the rest of its listing.
   */
  lemma {:induction false} StatusChangeAcceptedIff(p: Product, target: ProductStatus, hasReason: bool, actor: Actor)
    ensures ChangeStatus(p, target, hasReason, actor).Ok? <==>
      && Listed(p.status, target)
      && (actor.storeUser ==>
            || (target == ProductStatus.Pending && p.status in {ProductStatus.Draft, ProductStatus.Rejected, ProductStatus.Approved})
            || (target == ProductStatus.Draft && p.status == ProductStatus.Rejected))
      && (target == ProductStatus.Rejected ==> hasReason)
      && (target == ProductStatus.Approved ==>
            && actor.listable && p.images != []
            && p.pricing.terms.marginType != P.NoMargin && p.pricing.terms.margin.Some?
            && p.pricing.selling.Some? && p.pricing.final.Some? && p.pricing.final.value > 0)
  {
  }

  lemma {:induction false} RepricedPositive(storePrice: nat, terms: P.Terms)
    requires Repriced(storePrice, terms).Ok? && terms.marginType != P.NoMargin && terms.margin.Some?
    ensures CompletePricing(Repriced(storePrice, terms).value) && Repriced(storePrice, terms).value.final.value > 0
  {
    P.AcceptedPricesBounded(Some(storePrice), terms);
  }

  /**
   * Pricing by an admin replaces the whole pricing by the calculated one and nothing else, and takes
   * one snapshot if and only if that changed something.
   */
  lemma {:induction false} ApplyAdminPricingKeeps(p: Product, terms: P.Terms, next: nat)
    requires ProductSound(p, next) && ApplyAdminPricing(p, terms).Ok?
    ensures var after := ApplyAdminPricing(p, terms).value;
      && ProductSound(after, next)
      && after == p.(pricing := after.pricing, priceHistory := after.priceHistory)
      && p.priceHistory <= after.priceHistory
      && |after.priceHistory| == |p.priceHistory| + (if after.pricing != p.pricing then 1 else 0)
      && after.pricing.storePrice == p.pricing.storePrice && CompletePricing(after.pricing)
      && 0 < after.pricing.final.value <= after.pricing.selling.value
      && p.pricing.storePrice <= after.pricing.selling.value
  {
    var stored := terms.(discount := Some(P.Amount(terms.discount)));
    P.AcceptedPricesBounded(Some(p.pricing.storePrice), stored);
    PricingKeeps(p, Repriced(p.pricing.storePrice, stored).value);
  }

  /** An edit keeps the listing sound; a store user's reviewed edit freezes the approved prices. */
  lemma {:induction false} UpdateProductKeeps(p: Product, edit: Edit, storeUser: bool, next: nat)
    requires ProductSound(p, next) && UpdateProduct(p, edit, storeUser).Ok?
    ensures var after := UpdateProduct(p, edit, storeUser).value;
      var review := storeUser && p.status == ProductStatus.Approved && ChangesReviewed(p, edit);
      && ProductSound(after, next) && after.images == p.images
      && after.status == (if review then ProductStatus.Pending else p.status)
      && (review ==> after.pricing == p.pricing.(storePrice := after.pricing.storePrice))
  {
    var price := Chosen(edit.storePrice, p.pricing.storePrice);
    if storeUser && p.status == ProductStatus.Approved && ChangesReviewed(p, edit) {
      StatusKeeps(p, ProductStatus.Pending);
      PricingKeeps(WithStatus(Edited(p, edit), ProductStatus.Pending), p.pricing.(storePrice := price));
    } else {
      if p.status == ProductStatus.Approved {
        RepricedPositive(price, p.pricing.terms);
      }
      PricingKeeps(Edited(p, edit), Repriced(price, p.pricing.terms).value);
    }
  }

  lemma {:induction false} ResettledKeeps(p: Product, binary: bool, added: bool, actor: Actor, next: nat)
    requires ImagesSound(p, next) && StatusReplays(p.statusHistory, p.status) && PricesReplay(p.priceHistory, p.pricing)
    requires p.status == ProductStatus.Approved && !binary ==> ListingSound(p)
    ensures ProductSound(Resettled(p, binary, added, actor), next)
    ensures Resettled(p, binary, added, actor).images == p.images
  {
    if binary && p.status == ProductStatus.Approved {
      StatusKeeps(p, ProductStatus.Pending);
    } else if ChangeStatus(p, ProductStatus.Approved, true, actor.(storeUser := false)).Ok? {
      StatusKeeps(p, ProductStatus.Approved);
    }
  }

  function Reflagged(p: Product, w: Work): Product {
    p.(images := Flagged(w.images, Elected(w)))
  }

  lemma {:induction false} ElectedSound(p: Product, batch: Batch, next: nat)
    requires ImagesSound(p, next) && CheckBatch(p, batch).None? && Applied(p, batch, next).Ok?
    ensures var w := Applied(p, batch, next).value;
      && ImagesSound(Reflagged(p, w), w.next) && w.next >= next
      && |w.images| == |p.images| + |batch.add| - |Deletions(p, batch)|
  {
    AppliedSound(p, batch, next);
    ElectionFlagsOne(Applied(p, batch, next).value);
  }

  /**
   * Every image batch that goes through leaves at most five images with exactly one primary. On an
   * approved product it sends the product back to pending exactly when it added, replaced or removed
   * an image.
   */
  lemma {:induction false} MutateImagesKeeps(p: Product, batch: Batch, next: nat, actor: Actor)
    requires ImagesSound(p, next) && StatusReplays(p.statusHistory, p.status) && PricesReplay(p.priceHistory, p.pricing)
    requires p.status == ProductStatus.Approved && !ChangesBinary(p, batch) ==> ListingSound(p)
    requires MutateImages(p, batch, next, actor).Ok?
    ensures var done := MutateImages(p, batch, next, actor).value;
      && ProductSound(done.product, done.next) && done.next >= next
      && (p.status == ProductStatus.Approved ==>
            done.product.status == if ChangesBinary(p, batch) then ProductStatus.Pending else ProductStatus.Approved)
      && (ChangesBinary(p, batch) || batch.update != [] ==>
            |done.product.images| == |p.images| + |batch.add| - |Deletions(p, batch)|)
  {
    if batch.add != [] || batch.update != [] || Deletions(p, batch) != {} {
      ElectedSound(p, batch, next);
      var w := Applied(p, batch, next).value;
      ResettledKeeps(Reflagged(p, w), ChangesBinary(p, batch), batch.add != [], actor, w.next);
    }
  }
}
