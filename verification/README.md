# Verified model of the marketplace's stock and order engine

The marketplace sells products of several stores through one cart. This project models, in Dafny, the
parts of it that keep books, and proves what the services promise about them over every run.

* **Stock ledger** (`Inventory*`, `OpeningRaces`). Each product row holds a balance; each movement locks
  the row, changes it and appends an immutable ledger row. Order movements carry a once-only reference.
* **Purchases** (`Purchase*`). Draft entries that are confirmed or cancelled, and the one-shot
  stock-in that does both at once.
* **Checkout, rejection, cancellation, fulfilment** (`Shopfront`, `Orders`, `OrderStock`, `*Laws`,
  `CheckoutSound`, `OrderRuns`, `OrderTheorems`, `OrderReplay`, `OrderIdempotence`, `OrderFinality`,
  `OrderReferences`, `OrderPlacement`, `CheckoutTheorems`, `PayableLaws`, `CheckoutRules`, `OrderRules`,
  `StatusRules`, `ShopStore`). An order takes
  stock when it is placed and gives it back exactly once.
* **Cart and prices** (`Cart`, `Pricing`, `Rounding`). The preview against checkout; margins,
  discounts and their two rounding modes.
* **Products** (`Product*`, `ImageRules`). Approval status, image batches with their elected primary, and the
  status and price histories.
* **Search synonyms** (`Matcher*`, `Synonym*`). The longest-first consuming phrase matcher and the
  keywords derived from it.
* **Category tree, slugs, default addresses** (`Categor*`, `Slugs`, `Address*`).

`Wrappers`, `Sums`, `Sorting` and `Text` hold the shared vocabulary.

## How it is built

Quantities are integers in thousandths of a unit, money in paise, percentages in hundredths of a
percent. A table is a sequence and a row's position is its primary key. A service is a function from
state to `Result`: `Err` is an exception, whose transaction leaves the old state. Next to these
functions stand classes (`InventoryStore`, `PurchaseStore`, `ShopStore`, `CartStore`,
`ProductStore`, `SlugTable`, `AddressStore`) whose methods run the services' loops on mutable fields
and are proved to end in the state the function gives, including savepoints and rollbacks. The
theorems are about the functions and about runs: sequences of states joined by service calls.

Concurrency is modelled by the locks the services take. A service is one atomic step over the rows it
locks; what rivals may commit to rows it has not locked yet is a parameter (`rivals` for order
movements, `since` and `atInsert` for checkout, the winning row for the cart). `early` says whether a
rival's row is already visible to `full_clean`, which then refuses it, or only to the INSERT. Checkout
locks the cart lines it finds and their products, and nothing more: lines added meanwhile are rivals too.
The initialisation of opening stock has no transaction around it. It is a loop of separate steps, with
rivals before the look, between the look and the lock, and behind the conversion of every candidate
(`Turn`); where a run has it as one event, nothing else commits during it.

The `*Laws` and `*Runs` modules prove what operations keep. The `*Rules` modules pin each operation to
the columns it reads and writes: they name statuses, kinds, dates and amounts literally and avoid
the predicates the operations are built from, so that no table or comparison can change unnoticed.

Every lemma switches automatic induction off, so that each induction is written out.

`dafny verify dfyconfig.toml` checks the whole project.

## Findings

Where a property that one would expect is not what the code gives, a lemma states exactly when it
holds.

* Checkout locks the cart lines that exist and deletes all that exist later. A line added in between
  leaves the cart unsold (`CheckoutTheorems.LateLineVanishes`); a product is sold if and only if it was
  in the cart as locked (`CheckoutTheorems.OnlyLockedLinesSold`).
* Initialisation looks for history before it takes the lock. A movement that commits in between gets an
  OPENING row behind its own, and when the balance changed the service raises with that row committed
  (`OpeningRaces.RaceBreaksChain`). The ledgers replay if and only if no candidate lost this race
  (`OpeningRaces.InitialisationReplaysIff`).
* The `order-item:` prefix is not reserved: manual movements take any reference, so conservation is
  stated for manual movements whose references lie outside it. What a used key does is exact. A
  deduction or a restoration moves stock if and only if its key is unused; a row with the same details
  under the key makes it a no-op, so a checkout may take nothing and a withdrawal return nothing; any
  other row makes it raise. One foreign row under an item's restore key therefore blocks every
  rejection and cancellation of that order, and nothing else besides the published rules does, in every
  state of every run (`OrderPlacement.CustomerCancelInRun`, `AdminCancelInRun`, `RejectionInRun`). Every
  order can be blocked by one ordinary stock-in (`OrderPlacement.AnyOrderCanBeBlocked`).
* For the same reason a supplier invoice number under that prefix lets a purchase through with one line
  and never with two, because all lines share it as their reference
  (`PurchaseAcceptance.StockInAcceptedIff`, `PurchaseAcceptance.PrefixedInvoice`).
* Repeating a rejection later moves no stock and no money, but it derives the parent status again. It
  changes the state if and only if that status had been set by hand since
  (`OrderIdempotence.RejectAgainOnlySyncs`), and then it undoes exactly that move
  (`OrderIdempotence.LateRejectionUndoesProgress`).
* The race-loser branch of an order movement returns the winner only when the winner's row is visible
  to the INSERT but not yet to `full_clean`; when `full_clean` sees it the call raises
  (`InventoryRuns.OrderStockOutcome`). Stock is untouched either way. The same holds for the checkout
  token.
* A direct conversion of opening stock keeps the ledger replayable if and only if the product had no
  rows (`InventoryRuns.DirectConversionChainsIff`), and a broken chain is never mended
  (`InventoryRuns.RunReplays`, `OrderReplay.ShopReplays`).
* A product created APPROVED needs a first image to be a sound listing; creation does not ask for one
  (`ProductRuns.CreationListingIff`, `ProductRuns.ApprovedWithoutImage`). Every caller in the repository
  creates products as DRAFT or PENDING (`catalog/views.py:207` and `:688`, `catalog/bulk_import.py:91`,
  `catalog/photo_import.py:205`, `catalog/management/commands/seed_sample_catalog.py:336`).
* The cut mark of one synonym can bound another. Reports of a phrase are whole words of the query, for
  every dictionary, if and only if the phrase starts and ends with a word character
  (`MatcherLaws.AlwaysWholeIffWorded`). Many Malayalam names end in a vowel sign, which is none: the
  two names of rice run together report both (`MatcherLaws.RiceRunTogether`).
* Of the nine documented rules for the status of a parent order, those for the ready and the processing
  tier decide nothing: six rules give the same status for every mix (`StatusRules.ParentStatus`).
* The category form's worklist ends if and only if the edited category is not on a cycle
  (`CategoryLaws.WorklistEndsIff`).
* The parent check looks upwards only, so three levels are not a bound on the tree. An accepted change
  keeps three levels if and only if what hangs below a moved category fits under its new parent
  (`CategoryLaws.AcceptedKeepsLevelsIff`).

## Model

| member | source | states |
|---|---|---|
| InventoryStore.InventoryStore.ApplyStockMovement | inventory/services.py:213-335 | the movement as it runs on the locked row: every refusal in its order leaves products and ledger untouched, success writes one row and moves one product |
| InventoryStore.InventoryStore.ConvertExistingOpeningStock | inventory/services.py:378-410 | writes one OPENING row of the locked positive balance, under the reason given or its default, and never changes a product's stock |
| InventoryStore.InventoryStore.InitializeOpeningStockFromCatalogue | inventory/services.py:413-483 | the loop over a candidate list read once, in key order; around each candidate rivals commit before its unlocked look for history, between that look and the lock of the conversion, and before its balance is read back; a refusal or a changed balance raises and the rows of earlier candidates stay |
| InventoryStore.InventoryStore.OrderStockOnce | inventory/services.py:711-749 | lookup, movement under a savepoint and re-read of the winner, with rivals committing between lookup and lock |
| InventoryStore.InventoryStore.DeductOrderStock | inventory/services.py:692-749 | the checkout deduction is the once-only call of kind STOCK_OUT with its default reason |
| InventoryStore.InventoryStore.RestoreOrderStock | inventory/services.py:753-812 | the restoration is the once-only call of kind CUSTOMER_RETURN with its default reason |
| InventoryLaws.AppliedRow | inventory/services.py:263-335 | an accepted movement appends exactly one row whose new quantity is the product's stock, previous plus or minus quantity by direction, never negative; no other product moves |
| InventoryRules.MovementAcceptedIff | inventory/services.py:213-335 | a movement is accepted if and only if its columns allow it: positive quantity, a reason that is not blank where one is due, dates in order, no negative cost, the right store, one opening at most, enough stock, an unused reference under the order prefix |
| InventoryRules.MovementByKind | inventory/models.py:36-47 | an accepted movement raises the stock by its quantity for the five incoming kinds and lowers it for the five outgoing ones, kind by kind, with one row that says so and no other product touched |
| InventoryRules.DamageLowersStock | inventory/services.py:600-628 | ten units, four of them damaged: six are left |
| InventoryRules.DeductionRow | inventory/services.py:692-749 | on an unused key and enough stock the deduction writes one stock-out row, column by column, under the caller's reason or the service's own |
| InventoryRules.RestorationRow | inventory/services.py:753-812 | on an unused key the restoration writes one customer-return row, likewise |
| InventoryLaws.AdjacentRowsChain | inventory/services.py:270-335 | in a replaying ledger neighbouring rows of one product chain: the later previous quantity is the earlier new quantity |
| InventoryLaws.BalanceIsSum | inventory/models.py:36-47 | the newest balance is the first recorded quantity, plus all that openings, purchases, stock-ins, upward adjustments and customer returns brought in, minus all that stock-outs, downward adjustments, damage, expiry and supplier returns took out |
| InventoryRuns.RunReplays | inventory/services.py:213-335 | from arbitrary catalogue balances and an empty ledger, after every prefix of every run of movements, order calls, undisturbed initialisations and direct conversions, each product's ledger replays to its stock, stock is never negative and at most one OPENING row exists, if and only if no conversion was accepted for a product that had rows; order calls carry their rivals, and an initialisation with rivals is the subject of OpeningRaces |
| InventoryRuns.RunKeepsLedger | inventory/models.py:88-117 | over every run the earlier ledger is a prefix of the later one and order references stay unique |
| InventoryRuns.InitialiseRecords | inventory/services.py:413-483 | while nothing else commits, initialisation changes no stock, only appends, and gives a first row to exactly the products with positive balance and no history |
| InventoryRules.InitialisationRows | inventory/services.py:413-483 | while nothing else commits, the rows it writes are one opening row for each product with a positive balance and no row, in key order, recording that balance from zero, and nothing else |
| InventoryRuns.InitialiseIdempotent | inventory/services.py:430-483 | while nothing else commits, a second initialisation changes nothing |
| OpeningRaces.QuietInitialisation | inventory/services.py:413-483 | left alone, the loop over its candidate list ends in the state those two rows speak of and does not raise |
| OpeningRaces.OneReplaysIff | inventory/services.py:451-464 | after one candidate every ledger still replays if and only if no rival left the product a row between the unlocked look and the lock of an accepted conversion |
| OpeningRaces.InitialisationReplaysIff | inventory/services.py:430-483 | for every candidate list and every choice of rivals around every candidate, all ledgers replay after the initialisation if and only if no candidate the loop got to lost that race |
| OpeningRaces.RaceBreaksChain | inventory/services.py:451-474 | five on the shelf, a stock-in of one between look and lock: the initialisation raises because the balance changed, yet its OPENING row stays and the ledger no longer replays |
| InventoryRuns.ConversionAcceptedIff | inventory/services.py:378-410 | a direct conversion is accepted if and only if the store matches, the balance is positive, no opening row exists and the reference is free; history is not asked for |
| InventoryRuns.DirectConversionChainsIff | inventory/services.py:378-410 | after a direct conversion the product's ledger replays if and only if the product had no rows before |
| InventoryRuns.ConversionBreaksChain | inventory/services.py:378-410 | a conversion with history goes through in a concrete shop and its ledger no longer replays |
| InventoryRuns.OrderStockOutcome | inventory/services.py:76-96 | for every race: a free reference is an ordinary movement; a taken one moves nothing, and the caller gets the winning row if and only if it is the same movement and the lookup or the INSERT branch could see it |
| InventoryRuns.RepeatedCallMovesNothing | inventory/services.py:721-749 | whatever rivals do in between, repeating a successful order call never moves stock again, and a repeat whose lookup sees the row returns it |
| PurchaseStore.PurchaseStore.CreatePurchaseEntry | inventory/services.py:884-928 | the draft service as it runs: validation, entry, line loop with a total after each save; nothing moves in stock |
| PurchaseStore.PurchaseStore.ConfirmPurchaseEntry | inventory/services.py:932-990 | confirmation as it runs, with a rollback of all movements when one is refused |
| PurchaseStore.PurchaseStore.RecordPurchaseStockIn | inventory/services.py:994-1083 | the one-shot service as it runs: each line is saved and received before the next |
| PurchaseStore.PurchaseStore.CancelPurchaseEntry | inventory/services.py:1087-1096 | only a draft can be cancelled; any other entry is refused unchanged |
| PurchaseStore.PurchaseStore.RecalculateTotalCost | inventory/models.py:178-188 | the accumulation loop stores the sum of the entry's own line totals and changes no other entry |
| PurchaseLaws.TotalAfterEverySave | inventory/models.py:309-314 | after any number of line saves the stored total is the sum over all lines of the entry saved so far |
| PurchaseLaws.OneShotIsCreateThenConfirm | inventory/services.py:994-1083 | for every request, repeated products included: the one-shot service ends in the same stock, ledger, entries, lines and totals as draft creation followed by confirmation, or in the same refusal |
| PurchaseRuns.OneRowPerLine | inventory/services.py:954-976 | each line yields exactly one PURCHASE row with its product, quantity and cost; each stock rises by the sum of its lines |
| PurchaseRuns.RunSound | inventory/services.py:848-1096 | over every run: each total is the sum of its line totals, each line total is quantity times cost rounded half up, lines of confirmed entries have exactly one ledger row and others none |
| PurchaseRuns.ConfirmedAndCancelledAreFinal | inventory/services.py:946-949 | a confirmed or cancelled entry and its lines are the same in every later state of a run |
| PurchaseLaws.DraftRows | inventory/services.py:884-928 | creation adds one draft entry whose total is the sum of the line totals, and exactly the requested lines; stock and ledger stay as they are |
| PurchaseAcceptance.ConfirmationAcceptedIff | inventory/services.py:946-976 | a draft is confirmed if and only if its dates still hold and its reference can serve its lines |
| PurchaseAcceptance.StockInAcceptedIff | inventory/services.py:994-1083 | a validated one-shot purchase is recorded if and only if its reference can serve its lines: under the order-item prefix one line at most, and an unused reference |
| PurchaseAcceptance.PrefixedInvoice | inventory/services.py:994-1083 | in a new store, a purchase of n valid lines under the invoice number "order-item:7" passes validation for every n and is recorded if and only if n is one |
| PurchaseRules.ValidatedIff | inventory/services.py:849-881 | a request passes if and only if it has lines, each names a product of the store with positive quantity, no negative cost and dates in order, the supplier is named and the date is not in the future; each normalised line carries the submitted product, quantity, cost and dates, and its exact cost to the paisa |
| PurchaseRules.DraftAsSubmitted | inventory/services.py:884-928 | a draft stores the submitted entry and lines, a total within half a paisa per line of the exact cost, and moves no stock |
| PurchaseRules.StockInAsSubmitted | inventory/services.py:994-1083 | a recorded purchase raises each product's stock by the quantities submitted for it, writes one ledger row per submitted line, and stores entry and lines as submitted |
| PurchaseRules.ConfirmedDraftAsSubmitted | inventory/services.py:884-990 | so does creating the draft and confirming it |
| PurchaseRules.ConfirmationReceives | inventory/services.py:932-990 | confirming any draft at any time raises each product's stock by what the entry's own lines say, settles that entry and leaves all others and every line alone |
| PurchaseRuns.PurchasesReplay | inventory/services.py:932-1083 | the ledger of every product keeps replaying to its stock through any mix of purchases and other movements |
| ShopStore.ShopStore.PlaceCustomerOrder | orders/checkout.py:256-431 | checkout as it runs: nested loops over store groups and lines, rollback on any failure, race on the token at the INSERT |
| ShopStore.ShopStore.BuildValidatedLines | orders/checkout.py:135-154 | the validation loop stops at the first line that is not sellable |
| CheckoutRules.LineSoldIff | orders/checkout.py:60-98 | a line is sold if and only if its columns allow it (approved, active, store active by status and flag, category active, not expired before the day, priced, positive and on the shelf), at the listed price, from the product's store, for price times quantity rounded half to even |
| CheckoutRules.RefusalMeans | orders/checkout.py:60-98 | each refusal names its own fault, with everything asked before it in order |
| CheckoutRules.ReachesInsertIff | orders/checkout.py:256-320 | a request gets as far as inserting if and only if its token is new, its fulfilment resolves and its cart is not empty and sellable line by line |
| CheckoutRules.RefusedOverLowestProduct | orders/checkout.py:100-113 | a refused cart is refused over the lowest product in it that cannot be sold |
| CheckoutTheorems.CheckoutTakesTheCart | orders/checkout.py:256-431 | a request whose validation passes always places its order, whatever rivals commit to rows it has not locked, its customer's further cart lines included, unless one takes its token; no deduction in the nested loops can run out, it takes exactly the locked cart's quantity of each product, empties the cart and charges the sum of the lines |
| CheckoutTheorems.OnlyLockedLinesSold | orders/checkout.py:100-113 | a checkout lowers a product's stock if and only if the product is in the cart as it was locked, whatever the cart holds by the time of the insert |
| CheckoutTheorems.LateLineVanishes | orders/checkout.py:256-431 | a line the customer adds while the checkout is between lock and insert is not sold and takes no stock, yet is gone from the cart afterwards |
| CheckoutRules.OrderMirrorsCart | orders/checkout.py:320-431 | whatever rivals commit, each cart line gets an item of its product, quantity, listed price and rounded total in a pending store order of its store, with as many new items as lines; the order is placed, unpaid and carries the request's customer and token |
| CheckoutTheorems.CheckoutAllOrNothing | orders/checkout.py:255-256 | any checkout that does not place a new order leaves stock, ledger, orders and carts as they were |
| CheckoutTheorems.RefusalNamesFirstLine | orders/checkout.py:60-97 | the error raised is that of the first unsellable line in product order |
| CheckoutTheorems.SubtotalWithinHalfPaisePerLine | orders/checkout.py:135-154 | the order subtotal is within n/2 paise of the unrounded sum for n lines |
| CheckoutTheorems.OneOrderPerToken | orders/checkout.py:191-201 | over every run two orders never share a checkout token |
| CheckoutTheorems.RetryChangesNothing | orders/checkout.py:240-252 | once a token has its order, every later or racing request with it changes nothing; a retry gets that order, or a refusal if it is another customer's |
| CheckoutLaws.StoreGroupsPartition | orders/checkout.py:357-363 | sort-then-groupby holds every line once, makes one non-empty group per distinct store, and the group sums add up to the order's |
| CheckoutLaws.AddStoreOrdersSound | orders/checkout.py:364-426 | no deduction in the nested loops can be refused once the lines are validated, and the stock invariant survives |
| CheckoutSound.CreateOrderGraphSound | orders/checkout.py:321-431 | the new order, store orders and items agree with each other and with stock and ledger: subtotals, totals, records |
| OrderRuns.StepSound | orders/cancellation.py:291-494 | one step of any kind keeps the whole invariant and changes stock plus held quantity only by the manual movement |
| OrderRuns.RunConserves | orders/cancellation.py:118-178 | over every run of checkout, rejection, cancellations, fulfilment and manual movements, stock plus quantities held by unrestored items changes by the manual movements only |
| OrderReplay.ShopReplays | inventory/services.py:213-335 | over every run of the shop, whatever references it uses, each ledger replays from the catalogue balance to the shelf if and only if no direct conversion was accepted for a product that had rows |
| OrderTheorems.StockIsAccountedFor | orders/cancellation.py:118-178 | each product's stock is its initial balance plus what the accepted manual movements of the five incoming kinds brought, minus what those of the five outgoing kinds took, minus the quantities of its order items that are not restored, and never negative |
| OrderTheorems.OneRowPerItem | inventory/services.py:42-49 | every order item has exactly one deduct row, and exactly one restore row if it is restored and none otherwise |
| OrderReferences.DeductionOutcome | inventory/services.py:76-96 | a checkout line goes through if and only if its key is unused or already carries the same movement; a used key leaves stock alone, an unused one takes the line's quantity |
| OrderReferences.DeductionMovesStockIff | inventory/services.py:721-733 | a checkout line takes its stock if and only if its key is unused; the prefix is not reserved for order services |
| OrderReferences.ForgedReferenceSkipsDeduction | inventory/services.py:721-733 | after a manual stock-out under the next item's key the checkout of that line places its order and item and takes nothing from the shelf |
| OrderReferences.ForgedCheckout | inventory/services.py:721-733 | a concrete shop in which this happens: one unit sold, the shelf unchanged by the checkout |
| OrderReferences.RestorationOutcome | inventory/services.py:782-812 | a restoration succeeds if and only if its key is unused or already carries the same return; a used key leaves stock alone, an unused one returns the item's quantity |
| OrderReferences.RestorationMovesStockIff | inventory/services.py:782-795 | a restoration gives stock back if and only if its key is unused |
| OrderReferences.CustomerCancelNeedsKeys | orders/cancellation.py:118-178 | without assuming the prefix is respected: a customer cancellation passes if and only if the published rules allow it and every item that holds stock has a restore key that is unused or carries its own return |
| OrderReferences.AdminCancelNeedsKeys | orders/cancellation.py:118-178 | the same for an admin cancellation |
| OrderReferences.RejectionNeedsKeys | orders/cancellation.py:118-178 | the same for a store rejection and the items of its store order |
| OrderPlacement.RunStaysPlaced | inventory/services.py:711-749 | over every run of all twelve kinds of events, whatever references its movements carry, every item names a product of its store and no stock is below zero, although conservation is lost |
| OrderPlacement.CustomerCancelInRun | orders/cancellation.py:118-178 | so in every state of every such run a customer cancellation is decided by the published rules and the restore keys alone |
| OrderPlacement.AdminCancelInRun | orders/cancellation.py:118-178 | the same for an admin cancellation |
| OrderPlacement.RejectionInRun | orders/cancellation.py:118-178 | the same for a store rejection |
| OrderReferences.ForeignRowBlocks | orders/cancellation.py:118-178 | any accepted movement that is no customer return, under the restore key of an item that holds stock, makes every cancellation of its order and every rejection of its store order raise |
| OrderPlacement.AnyOrderCanBeBlocked | inventory/services.py:721-733 | right after any checkout its customer may cancel; after one ordinary stock-in under the restore key of its first item neither customer nor admin can |
| OrderTheorems.PayableIsHeldGoods | orders/cancellation.py:235-288 | the items subtotal is the sum of the line totals of the items that still hold stock, and the grand total adds the delivery of the store orders neither rejected nor cancelled and takes off the discount |
| OrderTheorems.CancelledHoldsNothing | orders/cancellation.py:235-253 | a cancelled order holds no stock and owes nothing |
| OrderTheorems.CancelledOrdersLeaveNoTrace | orders/cancellation.py:291-494 | over every run, with any other activity in between, stock is what it would be had the cancelled orders never been placed: initial, plus and minus the manual movements by kind, minus what live orders hold |
| OrderTheorems.CollectedOnlyWhenDelivered | orders/management_status.py:336-410 | over every run, collected cash is recorded only for completed orders |
| OrderTheorems.CancelledAwaitsNoPayment | orders/cancellation.py:219-221 | over every run the payment of a cancelled order is cancelled, however the order came to be |
| OrderRules.PaymentsFollowOrders | orders/order_status_sync.py:156-165 | no withdrawal and no fulfilment step moves any payment, except that a pending one is cancelled with its order |
| OrderRules.CancellationEndsPayment | orders/cancellation.py:204-221 | after every accepted cancellation, by customer or admin, order and payment are cancelled |
| OrderRules.LastRejectionEndsPayment | orders/cancellation.py:356-441 | rejecting a pending store order cancels the order and its payment if and only if every other store order was already withdrawn, and otherwise leaves the payment |
| ShopStore.ShopStore.RestoreOrderItemsStock | orders/cancellation.py:118-178 | the restore loop as it runs, item by item, skipping restored ones |
| ShopStore.ShopStore.RecalculateOrderPayableTotals | orders/cancellation.py:235-287 | the accumulation loops over chargeable store orders and the rescaled discount |
| ShopStore.ShopStore.CancelCustomerOrder | orders/cancellation.py:291-352 | customer cancellation as it runs, all or nothing |
| ShopStore.ShopStore.RejectStoreOrder | orders/cancellation.py:356-441 | store rejection as it runs, all or nothing |
| ShopStore.ShopStore.CancelOrderByAdmin | orders/cancellation.py:445-494 | admin cancellation as it runs, all or nothing |
| CancellationLaws.CancelOrderSound | orders/cancellation.py:291-352 | an admitted cancellation never fails midway, restores exactly the items that still held stock and touches no other order |
| RejectionLaws.RejectSound | orders/cancellation.py:356-441 | an admitted rejection never fails midway, restores exactly the items of its store order and keeps the invariant |
| OrderIdempotence.CustomerCancelAcceptedIff | orders/status.py:81-119 | on a sound state a customer cancellation succeeds if and only if the published guards pass |
| OrderIdempotence.AdminCancelAcceptedIff | orders/status.py:122-133 | on a sound state an admin cancellation succeeds if and only if the published guards pass |
| OrderIdempotence.RejectionAcceptedIff | orders/status.py:136-147 | on a sound state a rejection succeeds if and only if the published guards pass |
| OrderRules.CustomerWithdrawsIff | orders/cancellation.py:291-353 | on literal columns: own order, a reason that is not blank, and cancelled already or placed or confirmed with every store order pending, accepted or withdrawn |
| OrderRules.AdminWithdrawsIff | orders/cancellation.py:445-494 | an actor, a reason that is not blank and any order that is not completed |
| OrderRules.StoreRejectsIff | orders/cancellation.py:356-441 | the store's own store order, a reason that is not blank, pending or rejected already |
| OrderFinality.RunStaysWithdrawn | orders/cancellation.py:181-232 | over every run a cancelled order stays cancelled with all its items marked, whatever happens to it or to others |
| OrderFinality.CustomerCancellationIdempotent | orders/cancellation.py:291-352 | after a customer cancellation every further cancellation at any later time of any run is accepted and changes no table |
| OrderFinality.AdminCancellationIdempotent | orders/cancellation.py:445-494 | the same after an admin cancellation |
| OrderIdempotence.RejectAgainOnlySyncs | orders/cancellation.py:394-441 | repeating a rejection leaves stock, ledger, item flags, store orders and totals alone; it changes the state if and only if the parent status is not the one its store orders give |
| OrderIdempotence.RejectionIdempotent | orders/cancellation.py:394-441 | repeated straight away, a rejection changes nothing |
| OrderIdempotence.LateRejectionUndoesProgress | orders/order_status_sync.py:183-215 | on every sound state: when management has moved a partly rejected order on, repeating the rejection brings back exactly the state before that move |
| OrderIdempotence.RepeatedRejectionCanMoveStatus | orders/cancellation.py:394-441 | a sound shop in which this happens: the status update succeeds, the repeated rejection takes it back |
| OrderIdempotence.CancelUndoesCheckout | orders/cancellation.py:291-494 | place an order, then reject, advance and cancel its parts in any order and number: once it is cancelled every product has the stock it had before the checkout |
| OrderLaws.RecalculatedTotals | orders/cancellation.py:262-277 | a recomputed discount is between zero and the subtotal, so the negative-total clamp never fires |
| OrderLaws.RecalculateIdempotent | orders/cancellation.py:235-287 | recomputing totals that agree with the rows changes nothing |
| OrderLaws.SyncedStatus | orders/order_status_sync.py:67-135 | the derived status is Cancelled, or Completed, exactly when the store orders are all withdrawn, or all settled with one completed |
| StatusRules.ParentStatus | orders/order_status_sync.py:67-135 | the derived status for every mix of store orders: the nine documented rules come to six, and the rules for the ready and the processing tier decide nothing |
| PayableLaws.DiscountDrift | orders/cancellation.py:262-269 | after k shrinking steps the discount is within k/2 paise of original discount times remaining over original subtotal |
| PayableLaws.RunDiscountDrift | orders/cancellation.py:235-287 | the same over every run of the shop, for any order and any interleaving |
| OrderRules.RejectionRescales | orders/cancellation.py:235-288 | a rejection shrinks the discount in proportion to the items subtotal, rounded half to even, and to nothing when the order ends with it |
| FulfilmentLaws.TransitionSound | orders/store_status.py:63-152 | a store order's forward move keeps the invariant and changes no stock or item |
| FulfilmentLaws.UpdateOrderStatusSound | orders/management_status.py:240-333 | completing or reopening an order from management keeps the invariant |
| FulfilmentLaws.UpdatePaymentSound | orders/management_status.py:336-410 | a payment change keeps the invariant |
| StatusRules.StoreAdvances | orders/store_status.py:34-152 | a store moves its own store order from pending to accepted to preparing to ready, one place at a time, and only statuses change |
| StatusRules.ManagementMovesIff | orders/management_status.py:28-50 | management's moves are accepted exactly along the seven listed pairs, with every live store order deliverable for a completion, or back from an unpaid completion with a note |
| StatusRules.ReversalUndoesDelivery | orders/management_status.py:161-237 | completing an order completes exactly its live store orders, and reversing it is accepted and gives each the status it had |
| StatusRules.PaymentMovesIff | orders/management_status.py:336-410 | a payment is collected only for a completed order, called off only while pending, and taken back only with a note |
| Cart.CartStore.AddProduct | cart/services.py:118-172 | adding as it runs, with the lost race on the unique (cart, product) row: refused when full_clean already sees the winner's line, merged when only the INSERT does |
| Cart.CartStore.UpdateQuantity | cart/services.py:176-204 | setting a quantity within stock, on an own line only |
| Cart.CartStore.RemoveItem | cart/services.py:208-226 | removing an own line |
| Cart.AddMerges | cart/services.py:118-172 | one line per product is kept; unless full_clean refuses the loser, the quantities of both racers add up, stock bounds the result and no other product's quantity moves |
| Cart.SetQuantityKeeps | cart/services.py:176-204 | one line per product is kept and only the named product's quantity changes |
| Cart.RemoveKeeps | cart/services.py:208-226 | one line per product is kept and only the named product's quantity goes to zero |
| Cart.AddAcceptedIff | cart/services.py:118-172 | an addition is accepted if and only if the quantity is positive, the product available, and what the cart holds and what the rival just put there leave room on the shelf, with no rival line seen in time |
| Cart.EditAcceptedIff | cart/services.py:176-227 | a quantity is set if and only if it is positive, of an own line, available and on the shelf; a line is removed if and only if it is there |
| Cart.AddedCanBeOrdered | cart/services.py:77-115 | the line an accepted addition leaves passes every check of checkout in the same state |
| Cart.BuildCartView | cart/services.py:312-374 | the nested accumulation: one subtotal per store section, the sum of its line totals, and their sum over the whole cart |
| Cart.LinePreviewAgrees | cart/services.py:251-291 | a line has a preview total if and only if checkout would sell it, and the totals are equal |
| Cart.PreviewRefinesCheckout | cart/services.py:312-374 | checkout accepts a cart's lines if and only if the preview gives every line a total; then preview subtotal and order subtotal are equal |
| Pricing.AcceptedPricesBounded | catalog/pricing.py:135-159 | accepted prices satisfy 0 < final <= selling and selling >= store price |
| Pricing.PricesMonotone | catalog/pricing.py:37-132 | accepted prices are monotone in store price and margin and antitone in the discount |
| Pricing.AcceptanceUpwardClosed | catalog/pricing.py:119-129 | what is accepted for a store price is accepted for every higher one |
| Pricing.FinalWithinOnePaisa | catalog/pricing.py:33-34 | the two half-up roundings keep the final price within one paisa of the exact margin-then-discount formula |
| Pricing.PricesAcceptedIff | catalog/pricing.py:37-159 | prices are accepted if and only if store price, margin and discount are there and in range and neither price rounds to nothing; each price is the exact one rounded half up |
| ProductStore.ProductStore.MutateProductImages | catalog/services.py:729-835 | the two passes over the batches, everything checked before anything is written, rollback on failure |
| ProductStore.ProductStore.WriteImages | catalog/services.py:769-834 | one product's batch as it runs: clear flags, delete, update, add, elect, settle status |
| ProductStore.ProductStore.RecordProductStatusChange | catalog/services.py:654-725 | the status guards in their order and the history row |
| ProductStore.ProductStore.UpdateProductRow | catalog/services.py:413-569 | an edit as it runs, with the price freeze of a store user's reviewed edit |
| ProductStore.ProductStore.ApplyAdminPricingRow | catalog/services.py:573-650 | pricing by an admin as it runs: compute, write the pricing columns, snapshot when they differ, or raise with the row unchanged |
| ProductLaws.ApplyAdminPricingKeeps | catalog/services.py:573-650 | only the pricing changes, the new prices satisfy 0 < final <= selling and cover the store price, and one snapshot is taken if and only if the pricing changed |
| ProductRules.AdminPricingAsSubmitted | catalog/services.py:573-650 | pricing is accepted exactly when the submitted terms can price the product's store price; the row then carries those terms, with no discount stored as zero, a selling price that is the exact one to the paisa and a final price within one paisa of margin and discount taken exactly |
| ProductRules.DiscountIsApplied | catalog/services.py:601-613 | 100.00, twenty percent on and ten off: 120.00 and 108.00 |
| ProductStore.ProductStore.CreateProductRow | catalog/services.py:325-409 | creation with its first images, or nothing |
| ProductLaws.MutateImagesKeeps | catalog/services.py:729-835 | a batch that goes through leaves at most five images, exactly one primary if any, and sends an APPROVED product to PENDING if and only if it added, replaced or removed an image |
| ProductRules.BatchAcceptedIff | catalog/services.py:744-796 | a batch is accepted if and only if it names the product's images, updates none it deletes, leaves at most five, leaves one if it deletes from an approved product, and its files are valid |
| ProductRules.ImagesAsSubmitted | catalog/services.py:729-835 | every kept image carries exactly what the batch submitted for it and nothing else changed, and every added file follows in order with its own text and position |
| ImageRules.AddedPrimaryWins | catalog/services.py:796-808 | the last added image that asks for it becomes the one primary |
| ImageRules.UpdatedPrimaryWins | catalog/services.py:781-808 | otherwise the last updated image that asks for it does |
| ImageRules.PrimaryStaysOrPasses | catalog/services.py:774-808 | if nobody asks, the primary stays, and once it is deleted or given up the first image by sort order and key takes over |
| ImageRules.BatchStatus | catalog/services.py:809-834 | the status behind every batch: approved goes to review if files changed, a waiting pending product is published if actor and listing allow it, and nothing else moves |
| ProductLaws.UpdateProductKeeps | catalog/services.py:413-569 | an edit keeps images, histories and listing sound; a reviewed edit of an approved product keeps selling and final price |
| ProductRules.EditAsSubmitted | catalog/services.py:413-569 | an edit stores each submitted field and keeps the others; sent to review it keeps the approved prices, otherwise the prices are those of the new store price and the stored terms, or none without a margin |
| ProductRules.EditAcceptedIff | catalog/services.py:413-569 | it is accepted if and only if its fields are valid and the prices it calls for exist |
| ProductLaws.ChangeStatusKeeps | catalog/status.py:129-196 | an accepted change sets the target status, records one history step and keeps the product sound |
| ProductLaws.StatusChangeAcceptedIff | catalog/status.py:20-58 | a status change is accepted exactly along the nine listed pairs, for a store user along four of them, with a reason for a rejection and image, margin, positive prices and listing for an approval |
| ProductRuns.CreationListingIff | catalog/services.py:325-409 | creation yields a sound listing if and only if the product is not created APPROVED without an image |
| ProductRuns.ApprovedWithoutImage | catalog/services.py:325-409 | such a creation: APPROVED, no image, accepted by the service and no sound listing |
| ImageRules.CreatedAsSubmitted | catalog/services.py:325-409 | creation is accepted for five valid files at most and stores what was submitted: no prices yet, one image per file in order, the first of them primary, and files on an approved product send it to review |
| ProductRuns.RunSound | catalog/services.py:325-835 | over every life: at most five images, exactly one primary iff there is one, APPROVED implies an image and a positive price, the status history chains along the transition table to the current status, the last price snapshot is the current pricing and neighbouring snapshots differ |
| ProductRuns.LifeSound | catalog/services.py:325-409 | the same from creation onwards |
| ProductRuns.ChosenPrimaryWins | catalog/services.py:852-855 | choosing a primary elects exactly that image and touches neither files, order nor status |
| ProductRuns.NextInLineAfterDeletion | catalog/services.py:814-817 | deleting the primary hands the flag to the first remaining image by sort order, then key |
| ProductRuns.MutateAllSound | catalog/services.py:736-835 | a batch over several products keeps every product sound and leaves unnamed ones alone |
| Matcher.MatchedTerms | catalog/search_synonyms.py:205-216 | the loop on one rewritten string reports the phrases, and leaves the text, that the specification on query stretches gives |
| Matcher.SubAcrossCut | catalog/search_synonyms.py:192-194 | the two sides of a cut mark are rewritten apart: no match reaches across it |
| Matcher.SubIsSplitAll | catalog/search_synonyms.py:214-215 | substituting a phrase in the joined text is the same as cutting it out of each stretch |
| MatcherLaws.ConsumedSpans | catalog/search_synonyms.py:205-216 | the consumed spans are pairwise disjoint stretches of the normalised query and together with the kept stretches lay out all of it |
| MatcherLaws.ReportedHaveSpans | catalog/search_synonyms.py:210-215 | a phrase is reported if and only if a span of the query was consumed for it |
| MatcherLaws.LeftPhrasesReported | catalog/search_synonyms.py:208-215 | a dictionary phrase occurring clear of the spans consumed before its turn is reported |
| MatcherLaws.WordedReportOccurs | catalog/search_synonyms.py:192-194 | a reported phrase that begins and ends with a word character is a whole-word occurrence of the query, whatever else the dictionary holds |
| MatcherLaws.AlwaysWholeIffWorded | catalog/search_synonyms.py:205-216 | reports of a phrase are whole words of the query for every longest-first dictionary if and only if the phrase begins and ends with a word character |
| MatcherLaws.RiceRunTogether | catalog/search_synonyms.py:11-14 | the rice group of the dictionary, whose Malayalam name ends in a vowel sign: searching it run together with "ari" reports both, though it is no whole word of the query, in every search order that tries "ari" first and has no earlier phrase occurring there |
| SynonymLaws.LongerPhraseWins | catalog/search_synonyms.py:201-203 | a dictionary phrase present in the query but not reported lost part of its stretch to a consumed phrase at least as long |
| Synonyms.ByLengthKeeps | catalog/search_synonyms.py:196-202 | the search order holds exactly the listed phrases, longest first |
| Synonyms.ExpansionExact | catalog/search_synonyms.py:219-232 | expansion is the query first, then each phrase sharing a group with a reported one, once each and nothing else |
| SynonymLaws.KeywordsSettle | catalog/search_synonyms.py:235-242 | after the keywords are appended the way the fill command does, a second call returns the empty string, for every name and earlier keywords |
| SynonymLaws.KeywordsExact | catalog/search_synonyms.py:235-242 | the keywords of a name are exactly the phrases that share a group with one found in it and stand in neither name nor stored keywords, each once, comma-separated |
| SynonymLaws.WordsAreRuns | catalog/search_synonyms.py:188-189 | splitting a text for normalisation gives its solid runs: no word is empty or holds a blank, none is split or joined, and no other character is lost |
| Categories.Descendants | catalog/forms.py:54-62 | the worklist loop ends with exactly the proper descendants |
| CategoryLaws.WorklistEndsIff | catalog/forms.py:56-60 | the loop ends if and only if the edited category is not already on a cycle |
| CategoryLaws.CleanCategory | catalog/models.py:117-140 | the ancestor walk as it runs |
| CategoryLaws.CleanAcceptsIff | catalog/models.py:117-140 | on an acyclic table a parent is accepted if and only if it has at most one ancestor and neither of the two is the category |
| CategoryLaws.AcceptedKeepsAcyclic | catalog/models.py:117-140 | any accepted change, of a new or an existing category, keeps the table acyclic |
| CategoryLaws.RunStaysAcyclic | catalog/models.py:117-140 | no sequence of validated saves ever builds a cycle |
| CategoryLaws.FormHidesExactlyCycles | catalog/forms.py:51-64 | among active categories the form hides exactly those whose choice would close a cycle |
| CategoryLaws.OfferedNeverACycle | catalog/forms.py:61-64 | an offered parent is accepted or refused as too deep, never as a cycle |
| CategoryLaws.AcceptedKeepsLevelsIff | catalog/models.py:117-140 | from a table of at most three levels an accepted change keeps three levels if and only if it does not move a category below another, or the moved one has no children (below a child) or no grandchildren (below a root) |
| CategoryLaws.DepthNotBounded | catalog/models.py:131-139 | the bound does get lost: an accepted move that leaves a category with three ancestors |
| Slugs.UniqueSlug | catalog/models.py:72-95 | the loop ends after at most one probe more than there are slugs in the way, with the first free candidate |
| Slugs.ProbesBounded | catalog/models.py:72-95 | k refused probes need k distinct taken slugs |
| Slugs.CandidateInjective | catalog/models.py:80-81 | different probes try different slugs |
| Slugs.CandidatesCountUp | catalog/models.py:76-81 | the candidates are base, base-2 and so on, each suffix the decimal number of its probe |
| Slugs.SlugTable.Save | catalog/models.py:464-469 | any sequence of saves keeps slugs unique per store; an allocated slug is never refused by the constraint |
| AddressStore.AddressStore.SaveRow | customers/models.py:184-196 | clears other active defaults of the customer in a loop, then writes the row |
| AddressStore.AddressStore.CreateAddress | customers/services.py:420-448 | creation as it runs |
| AddressStore.AddressStore.UpdateAddress | customers/services.py:452-498 | edit as it runs, handing the default on when it is given up |
| AddressStore.AddressStore.SetAsDefault | customers/services.py:502-512 | promotion as it runs |
| AddressStore.AddressStore.DeactivateAddress | customers/services.py:516-548 | deactivation as it runs, promoting the youngest other active address |
| AddressLaws.CreateOutcome | customers/services.py:405-448 | a first or requested address becomes the only default, otherwise the default stays; never refused by the unique index |
| AddressLaws.UpdateOutcome | customers/services.py:452-498 | the edited address is the default if asked for or alone, else a given-up default goes to the youngest other active address, else the default stays |
| AddressLaws.SetDefaultOutcome | customers/services.py:502-512 | accepted if and only if the address is active, and then it is the only default |
| AddressLaws.DeactivateOutcome | customers/services.py:516-548 | the default goes to the youngest remaining active address, or there is no active address left |
| AddressLaws.RunSettled | customers/services.py:405-548 | over every run a customer with an active address has exactly one active default |
| AddressLaws.StrangersUntouched | customers/services.py:405-548 | a customer no call is about keeps every address unchanged |

## Left out

- Number and code generation (transaction, entry, order and product codes): a fresh number is a parameter or has no column; exhaustion of the retry loops is not modelled.
- Audit rows, actors' names, IP addresses, notes and order, store order and payment history rows: they record the steps and decide nothing. The one history lookup that does decide something, which status a completed store order is reopened to, is a column of the row.
- Digit limits of decimal columns and inputs with more than three (quantity) or two (money) decimals: all inputs are taken at column precision. Decimal's 28-digit context is idealised to exact rationals followed by the stated rounding.
- Second validations by `full_clean` of values the service has just checked itself, except where they decide a race (`early`).
- Deadlocks and thread scheduling: services are atomic over the rows they lock, with the race branches as parameters.
- Fulfilment, delivery address and pickup resolution: one boolean that refuses the checkout (`fulfilmentOk`). Delivery charge and discount are zero at checkout, as in the code; the totals lemmas hold for any.
- FulfilmentLaws.TransitionSound, FulfilmentLaws.UpdateOrderStatusSound, FulfilmentLaws.UpdatePaymentSound: the fulfilment services are modelled on values and have no class method, because they write single columns without a stock loop.
- Cart item keys, price snapshots and warnings: a line is named by its product. Store names in the order of cart sections: sections are ordered by store key.
- Cart.BuildCartView: does not model the availability lookup as one bulk query; availability is read from the same state.
- ProductStore.ProductStore.UpdateProductRow: does not model approval metadata and the rejection reason, which no guard reads; catalogue fields are grouped into reviewed details, tags and unreviewed fields.
- Image files: size, extension and content checks are one validity flag per upload; storage writes are not transactional in the code and are not part of the model.
- Pricing.FinalWithinOnePaisa: final price against current inputs after a frozen edit is not claimed, because the code keeps the older approved prices there.
- Categories.Descendants: the order in which children are read is by key instead of by name; the result is a set.
- Slugs.UniqueSlug: does not model the length limit of slug columns nor `slugify`; the base is a parameter.
- AddressStore.AddressStore.DeactivateAddress: two addresses created in the same instant tie in the code's ordering; the model picks the later row.
- Deleting categories, addresses and products: the services do not do it.
- Synonyms.ExpansionExact: Unicode tables are parameters (`isWord`, `isSpace`, `fold`) with the few facts the services use.
- Django admin, views, templates, permissions, search ranking, imports, exports, sign-in, storage: plumbing, foreign code or queries the model cannot see.
- Purchase events and order events in one run: both are proved over the same ledger; their runs are separate, since neither reads the other's tables. In a run of the shop a purchase is a manual movement of kind PURCHASE.
