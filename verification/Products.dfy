/** A product's approval status, its pricing and its images, with the histories that record them. */
module Products {
  import opened Wrappers
  import opened Shopfront
  import P = Pricing

  const MAX_IMAGES := 5

  /** An uploaded file; `valid` is the verdict of size, extension and content checks. */
  datatype File = File(id: nat, valid: bool)

  datatype Image = Image(pk: nat, file: File, alt: string, sortOrder: nat, primary: bool)

  datatype NewImage = NewImage(file: File, alt: string, sortOrder: nat, primary: Option<bool>)

  datatype Change = Change(file: Option<File>, alt: Option<string>, sortOrder: Option<nat>, primary: Option<bool>)

  /** One product's image batch; `update` is in the order its entries were given. */
  datatype Batch = Batch(add: seq<NewImage>, update: seq<(nat, Change)>, delete: set<nat>, deleteAll: bool)

  /** The seven pricing columns compared and snapshotted together. */
  datatype Pricing = Pricing(storePrice: nat, terms: P.Terms, selling: Option<nat>, final: Option<nat>)

  datatype StatusStep = StatusStep(from: Option<ProductStatus>, to: ProductStatus)

  /** `details` stands for the reviewed catalogue fields, `tags` and `minor` for the others. */
  datatype Product = Product(
    status: ProductStatus, details: nat, tags: nat, minor: nat, pricing: Pricing,
    autoPublish: bool, images: seq<Image>,
    statusHistory: seq<StatusStep>, priceHistory: seq<Pricing>)

  /** `listable`: store and category are active and the core fields are complete. */
  datatype Actor = Actor(storeUser: bool, mayApprove: bool, listable: bool)

  datatype Error =
    | SameStatus | TransitionRefused | StoreUserRefused | ReasonMissing | NotApprovable
    | ImageNotFound | InvalidSelection | TooManyImages | MustKeepImage | InvalidImage
    | PricingRefused(error: P.Error) | InvalidFields

  // ----- Status -----

  predicate AllowedTransition(current: ProductStatus, target: ProductStatus) {
    match current
    case Draft => target == ProductStatus.Pending
    case Pending => target in {ProductStatus.Approved, ProductStatus.Rejected}
    case Rejected => target in {ProductStatus.Pending, ProductStatus.Draft}
    case Approved => target in {ProductStatus.Inactive, ProductStatus.Pending}
    case Inactive => target in {ProductStatus.Approved, ProductStatus.Pending}
  }

  predicate StoreUserTransition(current: ProductStatus, target: ProductStatus) {
    (current, target) in {
      (ProductStatus.Draft, ProductStatus.Pending), (ProductStatus.Rejected, ProductStatus.Pending),
      (ProductStatus.Rejected, ProductStatus.Draft), (ProductStatus.Approved, ProductStatus.Pending)}
  }

  predicate CompletePricing(p: Pricing) {
    p.terms.marginType != P.NoMargin && p.terms.margin.Some? && p.selling.Some? && p.final.Some?
  }

  predicate Approvable(p: Product, actor: Actor) {
    actor.listable && CompletePricing(p.pricing) && p.pricing.final.value > 0 && p.images != []
  }

  function WithStatus(p: Product, status: ProductStatus): Product {
    p.(status := status, statusHistory := p.statusHistory + [StatusStep(Some(p.status), status)])
  }

  function ChangeStatus(p: Product, target: ProductStatus, hasReason: bool, actor: Actor): Result<Product, Error> {
    if p.status == target then Err(SameStatus)
    else if !AllowedTransition(p.status, target) then Err(TransitionRefused)
    else if actor.storeUser && !StoreUserTransition(p.status, target) then Err(StoreUserRefused)
    else if target == ProductStatus.Rejected && !hasReason then Err(ReasonMissing)
    else if target == ProductStatus.Approved && !Approvable(p, actor) then Err(NotApprovable)
    else Ok(WithStatus(p, target))
  }

  // ----- Pricing -----

  function WithPricing(p: Product, pricing: Pricing): Product {
    if pricing == p.pricing then p
    else p.(pricing := pricing, priceHistory := p.priceHistory + [pricing])
  }

  /** Prices derived from trusted inputs; without a margin there are none. */
  function Repriced(storePrice: nat, terms: P.Terms): Result<Pricing, Error> {
    if terms.marginType == P.NoMargin || terms.margin.None?
    then Ok(Pricing(storePrice, terms, None, None))
    else
      match P.Calculate(Some(storePrice), terms)
      case Err(error) => Err(PricingRefused(error))
      case Ok(prices) => Ok(Pricing(storePrice, terms, Some(prices.selling), Some(prices.final)))
  }

  function ApplyAdminPricing(p: Product, terms: P.Terms): Result<Product, Error> {
    var stored := terms.(discount := Some(P.Amount(terms.discount)));
    match P.Calculate(Some(p.pricing.storePrice), stored)
    case Err(error) => Err(PricingRefused(error))
    case Ok(prices) =>
      Ok(WithPricing(p, Pricing(p.pricing.storePrice, stored, Some(prices.selling), Some(prices.final))))
  }

  // ----- Editing -----

  /** The fields the catalogue forms offer; `valid` is the verdict of the other field checks. */
  datatype Edit = Edit(storePrice: Option<nat>, details: Option<nat>, tags: Option<nat>, minor: Option<nat>, valid: bool)

  function Chosen<T>(chosen: Option<T>, current: T): T {
    if chosen.Some? then chosen.value else current
  }

  predicate ChangesReviewed(p: Product, edit: Edit) {
    Chosen(edit.storePrice, p.pricing.storePrice) != p.pricing.storePrice
    || Chosen(edit.details, p.details) != p.details
    || Chosen(edit.tags, p.tags) != p.tags
  }

  function Edited(p: Product, edit: Edit): Product {
    p.(details := Chosen(edit.details, p.details), tags := Chosen(edit.tags, p.tags), minor := Chosen(edit.minor, p.minor))
  }

  /**
   * A store user's review-sensitive edit of an approved product keeps the approved prices and sends
   * it back to pending; any other edit recomputes the prices.
   */
  function UpdateProduct(p: Product, edit: Edit, storeUser: bool): Result<Product, Error> {
    var price := Chosen(edit.storePrice, p.pricing.storePrice);
    if storeUser && p.status == ProductStatus.Approved && ChangesReviewed(p, edit) then
      if !edit.valid then Err(InvalidFields)
      else Ok(WithPricing(WithStatus(Edited(p, edit), ProductStatus.Pending), p.pricing.(storePrice := price)))
    else
      match Repriced(price, p.pricing.terms)
      case Err(error) => Err(error)
      case Ok(pricing) => if !edit.valid then Err(InvalidFields) else Ok(WithPricing(Edited(p, edit), pricing))
  }

  // ----- Images -----

  function Pks(images: seq<Image>): set<nat> {
    set i | 0 <= i < |images| :: images[i].pk
  }

  function UpdatedPks(update: seq<(nat, Change)>): set<nat> {
    set i | 0 <= i < |update| :: update[i].0
  }

  function Deletions(p: Product, batch: Batch): set<nat> {
    if batch.deleteAll then Pks(p.images) else batch.delete
  }

  function CheckBatch(p: Product, batch: Batch): Option<Error> {
    var deletions := Deletions(p, batch);
    var count := |p.images| + |batch.add| - |deletions|;
    if !(UpdatedPks(batch.update) + deletions <= Pks(p.images)) then Some(ImageNotFound)
    else if !(UpdatedPks(batch.update) !! deletions) then Some(InvalidSelection)
    else if count > MAX_IMAGES then Some(TooManyImages)
    else if deletions != {} && p.status == ProductStatus.Approved && count < 1 then Some(MustKeepImage)
    else None
  }

  /** A batch half done: `primary` is the image elected so far and no row is flagged. */
  datatype Work = Work(images: seq<Image>, primary: Option<nat>, next: nat)

  function OldPrimary(images: seq<Image>): (r: Option<nat>)
    ensures r.Some? ==> exists i :: 0 <= i < |images| && images[i].primary && images[i].pk == r.value
    ensures r.None? ==> forall i :: 0 <= i < |images| ==> !images[i].primary
  {
    if images == [] then None
    else
      var n := |images| - 1;
      match OldPrimary(images[..n])
      case Some(pk) => Some(pk)
      case None => if images[n].primary then Some(images[n].pk) else None
  }

  /** Rows that are not deleted, their flags cleared. */
  function Kept(images: seq<Image>, deletions: set<nat>): seq<Image> {
    if images == [] then []
    else
      var n := |images| - 1;
      Kept(images[..n], deletions) + (if images[n].pk in deletions then [] else [images[n].(primary := false)])
  }

  function StartWork(p: Product, deletions: set<nat>, next: nat): Work {
    var elder := OldPrimary(p.images);
    Work(Kept(p.images, deletions), if elder.Some? && elder.value in deletions then None else elder, next)
  }

  function ChangedImage(image: Image, change: Change): Image {
    Image(image.pk, Chosen(change.file, image.file), Chosen(change.alt, image.alt),
          Chosen(change.sortOrder, image.sortOrder), false)
  }

  function ApplyChange(w: Work, pk: nat, change: Change): Result<Work, Error> {
    if change.file.Some? && !change.file.value.valid then Err(InvalidImage)
    else
      var images := seq(|w.images|, i requires 0 <= i < |w.images| =>
        if w.images[i].pk == pk then ChangedImage(w.images[i], change) else w.images[i]);
      var primary :=
        if change.primary == Some(true) then Some(pk)
        else if change.primary == Some(false) && w.primary == Some(pk) then None
        else w.primary;
      Ok(w.(images := images, primary := primary))
  }

  function ApplyChanges(w: Work, update: seq<(nat, Change)>): Result<Work, Error>
    decreases |update|
  {
    if update == [] then Ok(w)
    else
      match ApplyChange(w, update[0].0, update[0].1)
      case Err(error) => Err(error)
      case Ok(next) => ApplyChanges(next, update[1..])
  }

  function AddImage(w: Work, image: NewImage): Result<Work, Error> {
    if !image.file.valid then Err(InvalidImage)
    else
      Ok(Work(w.images + [Image(w.next, image.file, image.alt, image.sortOrder, false)],
              if image.primary == Some(true) then Some(w.next) else w.primary, w.next + 1))
  }

  function AddImages(w: Work, add: seq<NewImage>): Result<Work, Error>
    decreases |add|
  {
    if add == [] then Ok(w)
    else
      match AddImage(w, add[0])
      case Err(error) => Err(error)
      case Ok(next) => AddImages(next, add[1..])
  }

  predicate Before(a: Image, b: Image) {
    a.sortOrder < b.sortOrder || (a.sortOrder == b.sortOrder && a.pk <= b.pk)
  }

  predicate IsFirst(images: seq<Image>, k: nat) {
    k < |images| && forall j :: 0 <= j < |images| ==> Before(images[k], images[j])
  }

  /** The first image by sort order, then primary key. */
  function FirstImage(images: seq<Image>): (r: Option<nat>)
    ensures r.None? <==> images == []
    ensures r.Some? ==> exists i :: 0 <= i < |images| && images[i].pk == r.value && IsFirst(images, i)
  {
    if images == [] then None else Some(images[FirstIndex(images)].pk)
  }

  function FirstIndex(images: seq<Image>): (k: nat)
    requires images != []
    ensures IsFirst(images, k)
  {
    var n := |images| - 1;
    if n == 0 then 0
    else
      var k := FirstIndex(images[..n]);
      assert forall j :: 0 <= j < n ==> images[..n][j] == images[j];
      if Before(images[k], images[n]) then k else n
  }

  function Elected(w: Work): Option<nat> {
    if w.primary.Some? then w.primary else FirstImage(w.images)
  }

  function Flagged(images: seq<Image>, primary: Option<nat>): seq<Image> {
    seq(|images|, i requires 0 <= i < |images| => images[i].(primary := primary == Some(images[i].pk)))
  }

  predicate ChangesBinary(p: Product, batch: Batch) {
    batch.add != [] || Deletions(p, batch) != {}
    || exists i :: 0 <= i < |batch.update| && batch.update[i].1.file.Some?
  }

  datatype Mutated = Mutated(product: Product, next: nat)

  /** The status consequences of a batch that went through. */
  function Resettled(p: Product, binary: bool, added: bool, actor: Actor): Product {
    if binary && p.status == ProductStatus.Approved then WithStatus(p, ProductStatus.Pending)
    else if added && p.status == ProductStatus.Pending && p.autoPublish && actor.mayApprove then
      match ChangeStatus(p, ProductStatus.Approved, true, actor.(storeUser := false))
      case Ok(published) => published.(autoPublish := false)
      case Err(_) => p
    else p
  }

  /** One product's batch, with `next` the next image primary key. */
  function MutateImages(p: Product, batch: Batch, next: nat, actor: Actor): Result<Mutated, Error> {
    var deletions := Deletions(p, batch);
    match CheckBatch(p, batch)
    case Some(error) => Err(error)
    case None =>
      if batch.add == [] && batch.update == [] && deletions == {} then Ok(Mutated(p, next))
      else
        match ApplyChanges(StartWork(p, deletions, next), batch.update)
        case Err(error) => Err(error)
        case Ok(changed) =>
          match AddImages(changed, batch.add)
          case Err(error) => Err(error)
          case Ok(w) =>
            var done := p.(images := Flagged(w.images, Elected(w)));
            Ok(Mutated(Resettled(done, ChangesBinary(p, batch), batch.add != [], actor), w.next))
  }

  // ----- Creation -----

  function Indexed(files: seq<File>): seq<NewImage> {
    seq(|files|, i requires 0 <= i < |files| => NewImage(files[i], "", i, None))
  }

  function NewProduct(status: ProductStatus, storePrice: nat, details: nat, autoPublish: bool): Product {
    var pricing := Pricing(storePrice, P.Terms(P.NoMargin, None, P.NoDiscount, Some(0)), None, None);
    Product(status, details, 0, 0, pricing, autoPublish, [], [StatusStep(None, status)], [pricing])
  }

  function CreateProduct(status: ProductStatus, storePrice: nat, details: nat, autoPublish: bool,
                         files: seq<File>, next: nat, actor: Actor): Result<Mutated, Error> {
    MutateImages(NewProduct(status, storePrice, details, autoPublish), Batch(Indexed(files), [], {}, false), next, actor)
  }

  // ----- Several products at once -----

  /** Every batch is checked before any product is written. */
  function CheckAll(products: seq<Product>, batches: map<nat, Batch>, from: nat): Option<Error>
    decreases |products| - from
  {
    if from >= |products| then None
    else if from in batches && CheckBatch(products[from], batches[from]).Some?
    then CheckBatch(products[from], batches[from])
    else CheckAll(products, batches, from + 1)
  }

  datatype Shelf = Shelf(products: seq<Product>, next: nat)

  function MutateFrom(shelf: Shelf, batches: map<nat, Batch>, from: nat, actor: Actor): Result<Shelf, Error>
    decreases |shelf.products| - from
  {
    if from >= |shelf.products| then Ok(shelf)
    else if from !in batches then MutateFrom(shelf, batches, from + 1, actor)
    else
      match MutateImages(shelf.products[from], batches[from], shelf.next, actor)
      case Err(error) => Err(error)
      case Ok(done) => MutateFrom(Shelf(shelf.products[from := done.product], done.next), batches, from + 1, actor)
  }

  function MutateAll(shelf: Shelf, batches: map<nat, Batch>, actor: Actor): Result<Shelf, Error> {
    if exists p :: p in batches && p >= |shelf.products| then Err(ImageNotFound)
    else
      match CheckAll(shelf.products, batches, 0)
      case Some(error) => Err(error)
      case None => MutateFrom(shelf, batches, 0, actor)
  }
}
