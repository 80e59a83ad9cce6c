/** Which image a batch leaves primary, which status it leaves the product in, and what creation stores. */
module ImageRules {
  import opened Wrappers
  import opened Shopfront
  import opened Products
  import opened ProductLaws
  import opened ProductRules
  import P = Pricing

  // ----- The primary image -----

  /** The image with key `pk` is there, and it alone is primary. */
  predicate PrimaryIs(images: seq<Image>, pk: nat) {
    && (exists k :: 0 <= k < |images| && images[k].pk == pk)
    && forall k :: 0 <= k < |images| ==> (images[k].primary <==> images[k].pk == pk)
  }

  /** Entry `i` is the last that asks for its image to be primary. */
  predicate LastClaim(update: seq<(nat, Change)>, i: nat) {
    && i < |update| && update[i].1.primary == Some(true)
    && forall j :: i < j < |update| ==> update[j].1.primary != Some(true)
  }

  predicate LastAddedClaim(add: seq<NewImage>, j: nat) {
    && j < |add| && add[j].primary == Some(true)
    && forall k :: j < k < |add| ==> add[k].primary != Some(true)
  }

  lemma {:induction false} ClaimAfterChanges(w: Work, update: seq<(nat, Change)>, i: nat)
    requires EachOnce(update) && ApplyChanges(w, update).Ok? && LastClaim(update, i)
    ensures ApplyChanges(w, update).value.primary == Some(update[i].0)
    decreases |update|
  {
    var rest, first := update[1..], ApplyChange(w, update[0].0, update[0].1).value;
    assert forall j :: 0 <= j < |rest| ==> rest[j] == update[j + 1];
    if i > 0 {
      ClaimAfterChanges(first, rest, i - 1);
    } else {
      NoClaimAfterChanges(first, rest);
    }
  }

  /** Without a claim the primary stays, unless its own entry gives it up. */
  lemma {:induction false} NoClaimAfterChanges(w: Work, update: seq<(nat, Change)>)
    requires EachOnce(update) && ApplyChanges(w, update).Ok?
    requires forall j :: 0 <= j < |update| ==> update[j].1.primary != Some(true)
    ensures var dropped := exists j :: 0 <= j < |update| && w.primary == Some(update[j].0) && update[j].1.primary == Some(false);
      ApplyChanges(w, update).value.primary == if dropped then None else w.primary
    decreases |update|
  {
    if update != [] {
      var rest, first := update[1..], ApplyChange(w, update[0].0, update[0].1).value;
      assert forall j :: 0 <= j < |rest| ==> rest[j] == update[j + 1];
      assert forall j :: 0 < j < |update| ==> update[j] == rest[j - 1];
      NoClaimAfterChanges(first, rest);
    }
  }

  lemma {:induction false} ClaimAfterAdds(w: Work, add: seq<NewImage>, j: nat)
    requires AddImages(w, add).Ok? && LastAddedClaim(add, j)
    ensures AddImages(w, add).value.primary == Some(w.next + j)
    decreases |add|
  {
    var rest, first := add[1..], AddImage(w, add[0]).value;
    assert forall k :: 0 <= k < |rest| ==> rest[k] == add[k + 1];
    if j > 0 {
      ClaimAfterAdds(first, rest, j - 1);
    } else {
      NoClaimAfterAdds(first, rest);
    }
  }

  lemma {:induction false} NoClaimAfterAdds(w: Work, add: seq<NewImage>)
    requires AddImages(w, add).Ok? && forall k :: 0 <= k < |add| ==> add[k].primary != Some(true)
    ensures AddImages(w, add).value.primary == w.primary
    decreases |add|
  {
    if add != [] {
      var rest := add[1..];
      assert forall k :: 0 <= k < |rest| ==> rest[k] == add[k + 1];
      NoClaimAfterAdds(AddImage(w, add[0]).value, rest);
    }
  }

  lemma {:induction false} ElectedIsPrimary(w: Work)
    requires WorkSound(w) && w.primary.Some?
    ensures PrimaryIs(Flagged(w.images, Elected(w)), w.primary.value)
  {
    var pk :| pk in Pks(w.images) && w.primary == Some(pk);
    var i :| 0 <= i < |w.images| && w.images[i].pk == pk;
    assert Flagged(w.images, Elected(w))[i].pk == pk;
  }

  predicate Touches(p: Product, batch: Batch) {
    batch.add != [] || batch.update != [] || Gone(p, batch) != {}
  }

  lemma {:induction false} WrittenImages(p: Product, batch: Batch, next: nat, actor: Actor)
    requires ImagesSound(p, next) && Touches(p, batch) && MutateImages(p, batch, next, actor).Ok?
    ensures Applied(p, batch, next).Ok? && WorkSound(Applied(p, batch, next).value)
    ensures var w := Applied(p, batch, next).value;
      MutateImages(p, batch, next, actor).value.product.images == Flagged(w.images, Elected(w))
  {
    AppliedSound(p, batch, next);
  }

  /** An added image that asks to be primary is, whatever else does; the last one of them wins. */
  lemma {:induction false} AddedPrimaryWins(p: Product, batch: Batch, next: nat, actor: Actor, j: nat)
    requires ImagesSound(p, next) && MutateImages(p, batch, next, actor).Ok? && LastAddedClaim(batch.add, j)
    ensures PrimaryIs(MutateImages(p, batch, next, actor).value.product.images, next + j)
  {
    WrittenImages(p, batch, next, actor);
    var start := StartWork(p, Deletions(p, batch), next);
    ChangesKeepNext(start, batch.update);
    ClaimAfterAdds(ApplyChanges(start, batch.update).value, batch.add, j);
    ElectedIsPrimary(Applied(p, batch, next).value);
  }

  /** Otherwise the last updated image that asks for it is primary. */
  lemma {:induction false} UpdatedPrimaryWins(p: Product, batch: Batch, next: nat, actor: Actor, i: nat)
    requires ImagesSound(p, next) && MutateImages(p, batch, next, actor).Ok?
    requires EachOnce(batch.update) && LastClaim(batch.update, i)
    requires forall k :: 0 <= k < |batch.add| ==> batch.add[k].primary != Some(true)
    ensures PrimaryIs(MutateImages(p, batch, next, actor).value.product.images, batch.update[i].0)
  {
    WrittenImages(p, batch, next, actor);
    var start := StartWork(p, Deletions(p, batch), next);
    ClaimAfterChanges(start, batch.update, i);
    NoClaimAfterAdds(ApplyChanges(start, batch.update).value, batch.add);
    ElectedIsPrimary(Applied(p, batch, next).value);
  }

  /** No image comes before this one by sort order, or by key where sort orders tie. */
  predicate Leads(images: seq<Image>, k: nat) {
    k < |images| && forall j :: 0 <= j < |images| ==>
      images[k].sortOrder < images[j].sortOrder || (images[k].sortOrder == images[j].sortOrder && images[k].pk <= images[j].pk)
  }

  predicate NobodyClaims(batch: Batch) {
    && (forall i :: 0 <= i < |batch.update| ==> batch.update[i].1.primary != Some(true))
    && (forall k :: 0 <= k < |batch.add| ==> batch.add[k].primary != Some(true))
  }

  /** The primary image is deleted, or its own entry gives the flag up. */
  predicate Dropped(p: Product, batch: Batch, pk: nat) {
    pk in Gone(p, batch) || exists i :: 0 <= i < |batch.update| && batch.update[i].0 == pk && batch.update[i].1.primary == Some(false)
  }

  /**
   * If nobody asks for it, the primary image stays primary, and once it is dropped, or while there was
   * none, the first image left by sort order and key takes its place.
   */
  lemma {:induction false} PrimaryStaysOrPasses(p: Product, batch: Batch, next: nat, actor: Actor)
    requires ImagesSound(p, next) && Touches(p, batch) && MutateImages(p, batch, next, actor).Ok?
    requires EachOnce(batch.update) && NobodyClaims(batch)
    ensures var images := MutateImages(p, batch, next, actor).value.product.images;
      && (forall i :: 0 <= i < |p.images| && p.images[i].primary && !Dropped(p, batch, p.images[i].pk)
            ==> PrimaryIs(images, p.images[i].pk))
      && ((forall i :: 0 <= i < |p.images| && p.images[i].primary ==> Dropped(p, batch, p.images[i].pk)) ==>
            forall k :: 0 <= k < |images| && images[k].primary ==> Leads(images, k))
  {
    WrittenImages(p, batch, next, actor);
    var start := StartWork(p, Deletions(p, batch), next);
    var w := Applied(p, batch, next).value;
    NoClaimAfterChanges(start, batch.update);
    NoClaimAfterAdds(ApplyChanges(start, batch.update).value, batch.add);
    OnlyOldPrimary(p.images);
    if w.primary.Some? {
      ElectedIsPrimary(w);
    } else {
      UnclaimedGoesFirst(w);
    }
  }

  /** The old primary is the one flagged row. */
  lemma {:induction false} OnlyOldPrimary(images: seq<Image>)
    requires DistinctPks(images) && OnePrimary(images)
    ensures forall i :: 0 <= i < |images| && images[i].primary ==> OldPrimary(images) == Some(images[i].pk)
    ensures OldPrimary(images).Some? ==>
      exists i :: 0 <= i < |images| && images[i].primary && images[i].pk == OldPrimary(images).value
  {
  }

  lemma {:induction false} UnclaimedGoesFirst(w: Work)
    requires WorkSound(w) && w.primary.None?
    ensures var images := Flagged(w.images, Elected(w));
      forall k :: 0 <= k < |images| && images[k].primary ==> Leads(images, k)
  {
    var images := Flagged(w.images, Elected(w));
    forall k | 0 <= k < |images| && images[k].primary ensures Leads(images, k) {
      var i :| 0 <= i < |w.images| && w.images[i].pk == FirstImage(w.images).value && IsFirst(w.images, i);
      assert w.images[k].pk == w.images[i].pk;
    }
  }

  // ----- The status behind a batch -----

  /** A file was added or replaced, or an image deleted. */
  predicate ChangesFiles(p: Product, batch: Batch) {
    || batch.add != [] || Gone(p, batch) != {}
    || exists i :: 0 <= i < |batch.update| && batch.update[i].1.file.Some?
  }

  /** Everything an approval asks for besides an image. */
  predicate ReadyToPublish(p: Product, actor: Actor) {
    && actor.listable && p.pricing.terms.marginType != P.NoMargin && p.pricing.terms.margin.Some?
    && p.pricing.selling.Some? && p.pricing.final.Some? && p.pricing.final.value > 0
  }

  predicate Publishes(p: Product, added: bool, actor: Actor) {
    p.status == ProductStatus.Pending && added && p.autoPublish && actor.mayApprove && ReadyToPublish(p, actor)
  }

  lemma {:induction false} SettledStatus(done: Product, binary: bool, added: bool, actor: Actor)
    requires added ==> done.images != []
    ensures var after, publishes := Resettled(done, binary, added, actor), Publishes(done, added, actor);
      && after.status ==
         (if done.status == ProductStatus.Approved && binary then ProductStatus.Pending
          else if publishes then ProductStatus.Approved else done.status)
      && after.autoPublish == (done.autoPublish && !publishes)
      && after == done.(status := after.status, statusHistory := after.statusHistory, autoPublish := after.autoPublish)
  {
    StatusChangeAcceptedIff(done, ProductStatus.Approved, true, actor.(storeUser := false));
  }

  lemma {:induction false} AddedMeansImages(p: Product, batch: Batch, next: nat)
    requires ImagesSound(p, next) && CheckBatch(p, batch).None? && Applied(p, batch, next).Ok?
    ensures batch.add != [] ==> Applied(p, batch, next).value.images != []
  {
    AppliedSound(p, batch, next);
    DeletedAtMost(p, batch);
  }

  /**
   * Changing the files of an approved product sends it to review. Adding an image to a pending product
   * that waits for one publishes it if the actor may approve and it is ready, and clears the mark. No
   * other batch moves the status.
   */
  lemma {:induction false} BatchStatus(p: Product, batch: Batch, next: nat, actor: Actor)
    requires ImagesSound(p, next) && MutateImages(p, batch, next, actor).Ok?
    ensures var after, publishes := MutateImages(p, batch, next, actor).value.product, Publishes(p, batch.add != [], actor);
      && after.status ==
         (if p.status == ProductStatus.Approved && ChangesFiles(p, batch) then ProductStatus.Pending
          else if publishes then ProductStatus.Approved else p.status)
      && after.autoPublish == (p.autoPublish && !publishes)
      && after == p.(status := after.status, statusHistory := after.statusHistory, autoPublish := after.autoPublish, images := after.images)
  {
    if Touches(p, batch) {
      AddedMeansImages(p, batch, next);
      SettledStatus(Reflagged(p, Applied(p, batch, next).value), ChangesFiles(p, batch), batch.add != [], actor);
    }
  }

  lemma {:induction false} DeletedAtMost(p: Product, batch: Batch)
    requires CheckBatch(p, batch).None?
    ensures |Deletions(p, batch)| <= |p.images|
  {
    PksAtMost(p.images);
    SubsetSize(Deletions(p, batch), Pks(p.images));
  }

  lemma {:induction false} SubsetSize(a: set<nat>, b: set<nat>)
    requires a <= b
    ensures |a| <= |b|
  {
    assert b == a + (b - a);
  }

  lemma {:induction false} PksAtMost(images: seq<Image>)
    ensures |Pks(images)| <= |images|
  {
    if images == [] {
      assert Pks(images) == {};
    } else {
      var n := |images| - 1;
      PksAtMost(images[..n]);
      PksPush(images[..n], images[n]);
      assert images == images[..n] + [images[n]];
    }
  }

  // ----- Creation -----

  /**
   * Creation goes through if and only if there are five valid files at most. It stores what was
   * submitted, unpriced, with one image per file in the order given, the first of them primary; files
   * on a product created as approved send it to review at once.
   */
  lemma {:induction false} CreatedAsSubmitted(
      status: ProductStatus, storePrice: nat, details: nat, autoPublish: bool, files: seq<File>, next: nat, actor: Actor)
    ensures var made := CreateProduct(status, storePrice, details, autoPublish, files, next, actor);
      && (made.Ok? <==> |files| <= 5 && forall i :: 0 <= i < |files| ==> files[i].valid)
      && (made.Ok? ==>
            && made.value.product.details == details && made.value.product.autoPublish == autoPublish
            && made.value.product.pricing == Pricing(storePrice, P.Terms(P.NoMargin, None, P.NoDiscount, Some(0)), None, None)
            && made.value.product.priceHistory == [made.value.product.pricing]
            && made.value.product.status ==
               (if status == ProductStatus.Approved && files != [] then ProductStatus.Pending else status)
            && |made.value.product.images| == |files|
            && forall i :: 0 <= i < |files| ==> made.value.product.images[i] == Image(next + i, files[i], "", i, i == 0))
  {
    var p, batch := NewProduct(status, storePrice, details, autoPublish), Batch(Indexed(files), [], {}, false);
    assert Pks(p.images) == {} && Gone(p, batch) == {};
    assert forall i :: 0 <= i < |files| ==> batch.add[i].file == files[i];
    BatchAcceptedIff(p, batch, next, actor);
    if MutateImages(p, batch, next, actor).Ok? {
      BatchStatus(p, batch, next, actor);
      if files != [] {
        FirstFilePrimary(p, batch, files, next, actor);
      }
    }
  }

  lemma {:induction false} FirstFilePrimary(p: Product, batch: Batch, files: seq<File>, next: nat, actor: Actor)
    requires p.images == [] && files != [] && batch == Batch(Indexed(files), [], {}, false)
    requires MutateImages(p, batch, next, actor).Ok?
    ensures var images := MutateImages(p, batch, next, actor).value.product.images;
      |images| == |files| && forall i :: 0 <= i < |files| ==> images[i] == Image(next + i, files[i], "", i, i == 0)
  {
    assert ImagesSound(p, next);
    WrittenImages(p, batch, next, actor);
    var start := StartWork(p, {}, next);
    assert start == Work([], None, next);
    AddsStored(start, batch.add);
    NoClaimAfterAdds(start, batch.add);
    var w := Applied(p, batch, next).value;
    UnclaimedGoesFirst(w);
    ElectionFlagsOne(w);
    forall i | 0 <= i < |files|
      ensures w.images[i].pk == next + i && w.images[i].sortOrder == i && w.images[i].file == files[i] && w.images[i].alt == ""
    {
      assert AddedAs(w.images[|start.images| + i], start.next + i, batch.add[i]);
    }
  }
}
