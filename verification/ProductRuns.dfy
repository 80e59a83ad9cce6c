/** Whole lives of products: creation, edits, pricing, approvals and image batches in any order. */
module ProductRuns {
  import opened Wrappers
  import opened Shopfront
  import opened Products
  import opened ProductLaws
  import P = Pricing

  // ----- Creation -----

  /**
   * Creation always starts sound images and histories. The listing is sound too exactly when the
   * product is not created approved without an image.
   */
  lemma {:induction false} CreationListingIff(
    status: ProductStatus, storePrice: nat, details: nat, autoPublish: bool, files: seq<File>, next: nat, actor: Actor)
    requires CreateProduct(status, storePrice, details, autoPublish, files, next, actor).Ok?
    ensures var made := CreateProduct(status, storePrice, details, autoPublish, files, next, actor).value;
      && ImagesSound(made.product, made.next)
      && StatusReplays(made.product.statusHistory, made.product.status)
      && PricesReplay(made.product.priceHistory, made.product.pricing)
      && (ListingSound(made.product) <==> status != ProductStatus.Approved || files != [])
  {
    var p := NewProduct(status, storePrice, details, autoPublish);
    var batch := Batch(Indexed(files), [], {}, false);
    assert ImagesSound(p, next);
    if status != ProductStatus.Approved || files != [] {
      assert files != [] ==> batch.add != [];
      MutateImagesKeeps(p, batch, next, actor);
    }
  }

  /** The service accepts such a creation: approved at once, no image, no price. */
  lemma {:induction false} ApprovedWithoutImage(actor: Actor)
    ensures var made := CreateProduct(ProductStatus.Approved, 100, 0, false, [], 0, actor);
      made.Ok? && !ListingSound(made.value.product)
  {
    assert Indexed([]) == [];
    CreationListingIff(ProductStatus.Approved, 100, 0, false, [], 0, actor);
  }

  // ----- Runs of one product -----

  /** `gap`: image keys other products have taken since. */
  datatype Event =
    | MutateEvent(batch: Batch, gap: nat, actor: Actor)
    | StatusEvent(target: ProductStatus, hasReason: bool, actor: Actor)
    | EditEvent(edit: Edit, storeUser: bool)
    | PriceEvent(terms: P.Terms)

  function Committed(p: Product, r: Result<Product, Error>): Product {
    match r
    case Ok(after) => after
    case Err(_) => p
  }

  function Step(m: Mutated, event: Event): Mutated {
    match event
    case MutateEvent(batch, gap, actor) =>
      (match MutateImages(m.product, batch, m.next + gap, actor)
       case Ok(done) => done
       case Err(_) => m)
    case StatusEvent(target, hasReason, actor) => m.(product := Committed(m.product, ChangeStatus(m.product, target, hasReason, actor)))
    case EditEvent(edit, storeUser) => m.(product := Committed(m.product, UpdateProduct(m.product, edit, storeUser)))
    case PriceEvent(terms) => m.(product := Committed(m.product, ApplyAdminPricing(m.product, terms)))
  }

  function Run(m: Mutated, events: seq<Event>): Mutated {
    if events == [] then m else Step(Run(m, events[..|events| - 1]), events[|events| - 1])
  }

  lemma {:induction false} StepSound(m: Mutated, event: Event)
    requires ProductSound(m.product, m.next)
    ensures ProductSound(Step(m, event).product, Step(m, event).next)
  {
    match event
    case MutateEvent(batch, gap, actor) =>
      if MutateImages(m.product, batch, m.next + gap, actor).Ok? {
        MutateImagesKeeps(m.product, batch, m.next + gap, actor);
      }
    case StatusEvent(target, hasReason, actor) =>
      if ChangeStatus(m.product, target, hasReason, actor).Ok? {
        ChangeStatusKeeps(m.product, target, hasReason, actor, m.next);
      }
    case EditEvent(edit, storeUser) =>
      if UpdateProduct(m.product, edit, storeUser).Ok? {
        UpdateProductKeeps(m.product, edit, storeUser, m.next);
      }
    case PriceEvent(terms) =>
      if ApplyAdminPricing(m.product, terms).Ok? {
        ApplyAdminPricingKeeps(m.product, terms, m.next);
      }
  }

  /**
   * Through any life of a product it has at most five images, exactly one of them primary if there
   * is any; while approved it has an image and a positive price; and both histories replay to the
   * current row.
   */
  lemma {:induction false} RunSound(m: Mutated, events: seq<Event>)
    requires ProductSound(m.product, m.next)
    ensures ProductSound(Run(m, events).product, Run(m, events).next)
  {
    if events != [] {
      RunSound(m, events[..|events| - 1]);
      StepSound(Run(m, events[..|events| - 1]), events[|events| - 1]);
    }
  }

  /** The same from creation, for every product that is not created approved without an image. */
  lemma {:induction false} LifeSound(
    status: ProductStatus, storePrice: nat, details: nat, autoPublish: bool, files: seq<File>, next: nat, actor: Actor,
    events: seq<Event>)
    requires CreateProduct(status, storePrice, details, autoPublish, files, next, actor).Ok?
    requires status != ProductStatus.Approved || files != []
    ensures var made := CreateProduct(status, storePrice, details, autoPublish, files, next, actor).value;
      ProductSound(Run(made, events).product, Run(made, events).next)
  {
    CreationListingIff(status, storePrice, details, autoPublish, files, next, actor);
    RunSound(CreateProduct(status, storePrice, details, autoPublish, files, next, actor).value, events);
  }

  // ----- Which image becomes primary -----

  predicate IsPrimary(images: seq<Image>, pk: nat) {
    exists i :: 0 <= i < |images| && images[i].pk == pk && images[i].primary
  }

  function Choice(): Change {
    Change(None, None, None, Some(true))
  }

  lemma {:induction false} ChoiceApplied(p: Product, pk: nat, next: nat)
    requires ProductSound(p, next) && pk in Pks(p.images)
    ensures var start := StartWork(p, {}, next);
      var changed := ApplyChanges(start, [(pk, Choice())]);
      && ApplyChange(start, pk, Choice()) == changed && changed.Ok? && changed.value.primary == Some(pk)
  {
    var start, update := StartWork(p, {}, next), [(pk, Choice())];
    KeptAll(p.images);
    var changed := ApplyChange(start, pk, Choice()).value;
    assert update[1..] == [];
    assert ApplyChanges(changed, []) == Ok(changed);
  }

  /** Choosing a primary elects that image and touches neither files, order nor status. */
  lemma {:induction false} ChosenPrimaryWins(p: Product, pk: nat, next: nat, actor: Actor)
    requires ProductSound(p, next) && pk in Pks(p.images)
    ensures var batch := Batch([], [(pk, Change(None, None, None, Some(true)))], {}, false);
      var r := MutateImages(p, batch, next, actor);
      && r.Ok? && IsPrimary(r.value.product.images, pk)
      && r.value.product.status == p.status && |r.value.product.images| == |p.images|
      && (forall i :: 0 <= i < |p.images| ==>
            r.value.product.images[i] == p.images[i].(primary := p.images[i].pk == pk))
  {
    var change := Change(None, None, None, Some(true));
    var update := [(pk, change)];
    var batch := Batch([], update, {}, false);
    assert UpdatedPks(update) == {pk} by {
      assert update[0].0 == pk;
    }
    assert Deletions(p, batch) == {} && CheckBatch(p, batch).None?;
    KeptAll(p.images);
    ChoiceApplied(p, pk, next);
    var changed := ApplyChange(StartWork(p, {}, next), pk, change).value;
    var i :| 0 <= i < |p.images| && p.images[i].pk == pk;
    assert Flagged(changed.images, Some(pk))[i].primary;
    assert !ChangesBinary(p, batch);
  }

  lemma {:induction false} KeptAll(images: seq<Image>)
    ensures |Kept(images, {})| == |images|
    ensures forall i :: 0 <= i < |images| ==> Kept(images, {})[i] == images[i].(primary := false)
  {
    if images != [] {
      KeptAll(images[..|images| - 1]);
    }
  }

  lemma {:induction false} UnclaimedFlagGoesFirst(w: Work, i: nat)
    requires WorkSound(w) && w.primary.None? && i < |w.images| && Flagged(w.images, Elected(w))[i].primary
    ensures IsFirst(w.images, i)
  {
    var k :| 0 <= k < |w.images| && w.images[k].pk == FirstImage(w.images).value && IsFirst(w.images, k);
    assert w.images[i].pk == w.images[k].pk;
  }

  /** Deleting the primary hands the flag to the first remaining image by sort order and key. */
  lemma {:induction false} NextInLineAfterDeletion(p: Product, pk: nat, next: nat, actor: Actor)
    requires ProductSound(p, next) && OldPrimary(p.images) == Some(pk)
    requires MutateImages(p, Batch([], [], {pk}, false), next, actor).Ok?
    ensures var images := MutateImages(p, Batch([], [], {pk}, false), next, actor).value.product.images;
      && pk !in Pks(images)
      && forall i :: 0 <= i < |images| && images[i].primary ==> IsFirst(images, i)
  {
    var batch := Batch([], [], {pk}, false);
    var w := StartWork(p, {pk}, next);
    KeptSound(p.images, {pk}, next);
    KeptPks(p.images, {pk});
    var images := Flagged(w.images, Elected(w));
    assert MutateImages(p, batch, next, actor).value.product.images == images;
    SamePks(w.images, images);
    forall i | 0 <= i < |images| && images[i].primary ensures IsFirst(images, i) {
      UnclaimedFlagGoesFirst(w, i);
    }
  }

  // ----- Several products -----

  predicate ShelfSound(shelf: Shelf) {
    forall i :: 0 <= i < |shelf.products| ==> ProductSound(shelf.products[i], shelf.next)
  }

  lemma {:induction false} MutateFromSound(shelf: Shelf, batches: map<nat, Batch>, from: nat, actor: Actor)
    requires ShelfSound(shelf) && MutateFrom(shelf, batches, from, actor).Ok?
    ensures var done := MutateFrom(shelf, batches, from, actor).value;
      && ShelfSound(done) && |done.products| == |shelf.products|
      && (forall i :: 0 <= i < |shelf.products| && (i < from || i !in batches) ==> done.products[i] == shelf.products[i])
    decreases |shelf.products| - from
  {
    if from < |shelf.products| {
      if from !in batches {
        MutateFromSound(shelf, batches, from + 1, actor);
      } else {
        MutateImagesKeeps(shelf.products[from], batches[from], shelf.next, actor);
        var done := MutateImages(shelf.products[from], batches[from], shelf.next, actor).value;
        MutateFromSound(Shelf(shelf.products[from := done.product], done.next), batches, from + 1, actor);
      }
    }
  }

  /** A batch over several products keeps every product sound and leaves the unnamed ones alone. */
  lemma {:induction false} MutateAllSound(shelf: Shelf, batches: map<nat, Batch>, actor: Actor)
    requires ShelfSound(shelf) && MutateAll(shelf, batches, actor).Ok?
    ensures var done := MutateAll(shelf, batches, actor).value;
      && ShelfSound(done) && |done.products| == |shelf.products|
      && forall i :: 0 <= i < |shelf.products| && i !in batches ==> done.products[i] == shelf.products[i]
  {
    MutateFromSound(shelf, batches, 0, actor);
  }
}
